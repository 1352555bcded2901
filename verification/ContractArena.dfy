/** Drafts live in one allocated arena; an entry holds the address of its draft and, in its
    decoded contract, further addresses inside it. Growing or copying the arena moves all
    of them (src/stn_contract_snapshot.c). */
module ContractArena {
  import opened BigEndian
  import opened Contract
  import C = Contracts

  type Decoder = seq<byte> -> Result<Contract>

  /** A decoded contract that borrows its participants and terms from the arena. */
  datatype View = View(
    kind: nat, sequence: nat, created: nat, state: nat,
    participantsAt: nat, count: nat, termsAt: nat, length: nat)

  datatype Slot = Slot(
    id: nat, at: nat, length: nat, current: View,
    offset: nat, count: nat, eligible: nat, required: nat)

  /** The bytes at [at, at + n) of an arena that starts at `base`. */
  function Span(base: nat, bytes: seq<byte>, at: nat, n: nat): seq<byte> {
    if base <= at && at - base + n <= |bytes| then bytes[at - base..at - base + n] else []
  }

  /** What stn_contract_decode leaves behind for bytes at address `at`; empty parts are NULL. */
  function Borrow(at: nat, c: Contract): View {
    View(c.kind, c.sequence, c.created, c.state,
         if c.participants == [] then 0 else at + 32, |c.participants|,
         if c.terms == [] then 0 else at + 32 + 34 * |c.participants|, |c.terms|)
  }

  /** A contract with the progress another view records. */
  function Progressed(c: Contract, v: View): Contract { c.(sequence := v.sequence, state := v.state) }

  /** What a slot stands for. */
  function ToEntry(decode: Decoder, base: nat, bytes: seq<byte>, s: Slot): C.Entry {
    var draft := Span(base, bytes, s.at, s.length);
    var c := if decode(draft).Ok? then decode(draft).value else Contract(0, 0, 0, 0, [], []);
    C.Entry(s.id, draft, Progressed(c, s.current), s.offset, s.count, s.eligible, s.required)
  }

  function Abstract(decode: Decoder, base: nat, bytes: seq<byte>, slots: seq<Slot>): (r: seq<C.Entry>)
    ensures |r| == |slots|
  {
    if slots == [] then [] else [ToEntry(decode, base, bytes, slots[0])] + Abstract(decode, base, bytes, slots[1..])
  }

  /** A non-NULL address whose span lies inside the arena. */
  predicate Within(base: nat, size: nat, s: Slot) {
    base != 0 && base <= s.at && s.at - base + s.length <= size
  }

  /** The slot's slice of the vote buffer exists and holds its votes. */
  predicate Fit(s: Slot) { s.count <= s.eligible && s.offset + s.eligible <= C.MAX_VOTES }

  /** The slot's draft decodes where it lies, and its contract borrows from that place. */
  predicate Seated(decode: Decoder, base: nat, bytes: seq<byte>, s: Slot) {
    && Within(base, |bytes|, s) && Fit(s)
    && var d := decode(Span(base, bytes, s.at, s.length));
    && d.Ok? && s.current == Borrow(s.at, Progressed(d.value, s.current))
  }

  predicate AllSeated(decode: Decoder, base: nat, bytes: seq<byte>, slots: seq<Slot>) {
    slots == [] || (Seated(decode, base, bytes, slots[0]) && AllSeated(decode, base, bytes, slots[1..]))
  }

  lemma {:induction false} SeatedEach(decode: Decoder, base: nat, bytes: seq<byte>, slots: seq<Slot>)
    ensures AllSeated(decode, base, bytes, slots) <==> forall i :: 0 <= i < |slots| ==> Seated(decode, base, bytes, slots[i])
  {
    if slots != [] {
      SeatedEach(decode, base, bytes, slots[1..]);
      assert forall i :: 0 < i < |slots| ==> slots[i] == slots[1..][i - 1];
    }
  }

  lemma {:induction false} AbstractEach(decode: Decoder, base: nat, bytes: seq<byte>, slots: seq<Slot>)
    ensures forall i :: 0 <= i < |slots| ==> Abstract(decode, base, bytes, slots)[i] == ToEntry(decode, base, bytes, slots[i])
  {
    if slots != [] { AbstractEach(decode, base, bytes, slots[1..]); }
  }

  // ------------------------------------------------------------------ borrowed views

  /** Following the addresses of a borrowed view. */
  function Read(base: nat, bytes: seq<byte>, v: View): Contract {
    Contract(v.kind, v.sequence, v.created, v.state,
             Unpack(Span(base, bytes, v.participantsAt, 34 * v.count)),
             Span(base, bytes, v.termsAt, v.length))
  }

  lemma Parts(b: seq<byte>)
    requires Decode(b).Ok?
    ensures var c := Decode(b).value;
      && |b| == 32 + 34 * |c.participants| + |c.terms|
      && Unpack(b[32..32 + 34 * |c.participants|]) == c.participants
      && b[32 + 34 * |c.participants|..] == c.terms
  {
    BodyCanonical(b);
  }

  /** A span inside a span. */
  lemma SubSpan(base: nat, bytes: seq<byte>, at: nat, length: nat, k: nat, n: nat)
    requires base <= at && at - base + length <= |bytes| && k + n <= length
    ensures Span(base, bytes, at + k, n) == Span(base, bytes, at, length)[k..k + n]
  {
  }

  lemma NullSpan(base: nat, bytes: seq<byte>)
    ensures Span(base, bytes, 0, 0) == []
  {
  }

  /** A part of a span that is borrowed as NULL when it is empty. */
  lemma PartSpan(base: nat, bytes: seq<byte>, at: nat, b: seq<byte>, k: nat, n: nat, none: bool)
    requires base <= at && at - base + |b| <= |bytes| && Span(base, bytes, at, |b|) == b
    requires k + n <= |b| && (none ==> n == 0)
    ensures Span(base, bytes, if none then 0 else at + k, n) == b[k..k + n]
  {
    SubSpan(base, bytes, at, |b|, k, n);
    NullSpan(base, bytes);
  }

  lemma ReadBorrowed(base: nat, bytes: seq<byte>, at: nat, c: Contract, b: seq<byte>, n: nat)
    requires base <= at && at - base + |b| <= |bytes| && Span(base, bytes, at, |b|) == b
    requires n == 34 * |c.participants| && |b| == 32 + n + |c.terms|
    requires Unpack(b[32..32 + n]) == c.participants && b[32 + n..] == c.terms
    ensures Read(base, bytes, Borrow(at, c)) == c
  {
    PartSpan(base, bytes, at, b, 32, n, c.participants == []);
    PartSpan(base, bytes, at, b, 32 + n, |c.terms|, c.terms == []);
    assert b[32 + n..|b|] == b[32 + n..];
    ReadParts(base, bytes, Borrow(at, c), n, c);
  }

  lemma ReadParts(base: nat, bytes: seq<byte>, v: View, n: nat, c: Contract)
    requires v.kind == c.kind && v.sequence == c.sequence && v.created == c.created && v.state == c.state
    requires n == 34 * v.count && Unpack(Span(base, bytes, v.participantsAt, n)) == c.participants
    requires Span(base, bytes, v.termsAt, v.length) == c.terms
    ensures Read(base, bytes, v) == c
  {
  }

  /** The addresses a seated slot holds lead to exactly the contract it stands for: the
      draft's participants and terms with the slot's own sequence and state. */
  lemma ReadSeated(decode: Decoder, base: nat, bytes: seq<byte>, s: Slot)
    requires Seated(decode, base, bytes, s)
    requires var b := Span(base, bytes, s.at, s.length); decode(b) == Decode(b)
    ensures Read(base, bytes, s.current) == ToEntry(decode, base, bytes, s).current
  {
    var b := Span(base, bytes, s.at, s.length);
    Parts(b);
    var c := Decode(b).value;
    ReadBorrowed(base, bytes, s.at, Progressed(c, s.current), b, 34 * |c.participants|);
  }

  // ---------------------------------------------------------------------- relocation

  lemma SpanMoves(bytes: seq<byte>, from: nat, to: nat, at: nat, n: nat)
    requires from <= at
    ensures Span(to, bytes, at - from + to, n) == Span(from, bytes, at, n)
  {
  }

  /** One step of `bind`: the address moves with the arena, and decoding again renews
      everything borrowed while sequence and state stay. */
  function Rebase(decode: Decoder, bytes: seq<byte>, from: nat, to: nat, s: Slot): Slot
    requires from <= s.at
  {
    var at := s.at - from + to;
    var d := decode(Span(from, bytes, s.at, s.length));
    if d.Ok? then s.(at := at, current := Borrow(at, Progressed(d.value, s.current))) else s.(at := at)
  }

  lemma RebaseKeeps(decode: Decoder, bytes: seq<byte>, from: nat, to: nat, s: Slot)
    requires Seated(decode, from, bytes, s) && to != 0
    ensures Seated(decode, to, bytes, Rebase(decode, bytes, from, to, s))
    ensures ToEntry(decode, to, bytes, Rebase(decode, bytes, from, to, s)) == ToEntry(decode, from, bytes, s)
    ensures Rebase(decode, bytes, to, from, Rebase(decode, bytes, from, to, s)) == s
  {
    var n := Rebase(decode, bytes, from, to, s);
    assert Span(to, bytes, n.at, n.length) == Span(from, bytes, s.at, s.length);
  }

  /** Where a span lies does not depend on what follows it in the arena. */
  lemma SpanForgets(base: nat, bytes: seq<byte>, more: seq<byte>, at: nat, n: nat)
    requires base <= at && at - base + n <= |bytes|
    ensures Span(base, bytes + more, at, n) == Span(base, bytes, at, n)
  {
  }

  lemma TailSpan(base: nat, a: seq<byte>, b: seq<byte>)
    ensures Span(base, a + b, base + |a|, |b|) == b
  {
  }

  /** Every slot of an arena at `from` moved to `to`. */
  function RebaseAll(decode: Decoder, bytes: seq<byte>, from: nat, to: nat, slots: seq<Slot>): (r: seq<Slot>)
    ensures |r| == |slots|
  {
    if slots == [] then []
    else [if from <= slots[0].at then Rebase(decode, bytes, from, to, slots[0]) else slots[0]]
         + RebaseAll(decode, bytes, from, to, slots[1..])
  }

  lemma {:induction false} RebaseEach(decode: Decoder, bytes: seq<byte>, from: nat, to: nat, slots: seq<Slot>)
    ensures forall i :: 0 <= i < |slots| && from <= slots[i].at ==>
      RebaseAll(decode, bytes, from, to, slots)[i] == Rebase(decode, bytes, from, to, slots[i])
  {
    if slots != [] { RebaseEach(decode, bytes, from, to, slots[1..]); }
  }

  /** Relocating an arena preserves what its slots mean and can be undone. */
  lemma {:induction false} RelocationKeeps(decode: Decoder, bytes: seq<byte>, from: nat, to: nat, slots: seq<Slot>)
    requires AllSeated(decode, from, bytes, slots) && to != 0
    ensures AllSeated(decode, to, bytes, RebaseAll(decode, bytes, from, to, slots))
    ensures Abstract(decode, to, bytes, RebaseAll(decode, bytes, from, to, slots)) == Abstract(decode, from, bytes, slots)
    ensures RebaseAll(decode, bytes, to, from, RebaseAll(decode, bytes, from, to, slots)) == slots
  {
    if slots != [] {
      var r := RebaseAll(decode, bytes, from, to, slots);
      RebaseKeeps(decode, bytes, from, to, slots[0]);
      RelocationKeeps(decode, bytes, from, to, slots[1..]);
      assert r[1..] == RebaseAll(decode, bytes, from, to, slots[1..]);
      assert to <= r[0].at;
    }
  }

  /** Appending to the arena changes nothing for those already seated. */
  lemma {:induction false} GrowthKeeps(decode: Decoder, base: nat, bytes: seq<byte>, more: seq<byte>, slots: seq<Slot>)
    requires AllSeated(decode, base, bytes, slots)
    ensures AllSeated(decode, base, bytes + more, slots)
    ensures Abstract(decode, base, bytes + more, slots) == Abstract(decode, base, bytes, slots)
  {
    if slots != [] {
      SpanForgets(base, bytes, more, slots[0].at, slots[0].length);
      GrowthKeeps(decode, base, bytes, more, slots[1..]);
    }
  }

  /** A further slot. */
  lemma {:induction false} AppendKeeps(decode: Decoder, base: nat, bytes: seq<byte>, slots: seq<Slot>, slot: Slot)
    requires AllSeated(decode, base, bytes, slots) && Seated(decode, base, bytes, slot)
    ensures AllSeated(decode, base, bytes, slots + [slot])
    ensures Abstract(decode, base, bytes, slots + [slot])
         == Abstract(decode, base, bytes, slots) + [ToEntry(decode, base, bytes, slot)]
  {
    if slots != [] {
      AppendKeeps(decode, base, bytes, slots[1..], slot);
      assert (slots + [slot])[1..] == slots[1..] + [slot];
    } else {
      assert [slot][1..] == [];
      assert slots + [slot] == [slot];
    }
  }

  /** A slot replaced. */
  lemma {:induction false} UpdateKeeps(decode: Decoder, base: nat, bytes: seq<byte>, slots: seq<Slot>, i: nat, slot: Slot)
    requires AllSeated(decode, base, bytes, slots) && i < |slots| && Seated(decode, base, bytes, slot)
    ensures AllSeated(decode, base, bytes, slots[i := slot])
    ensures Abstract(decode, base, bytes, slots[i := slot])
         == Abstract(decode, base, bytes, slots)[i := ToEntry(decode, base, bytes, slot)]
  {
    if i > 0 {
      UpdateKeeps(decode, base, bytes, slots[1..], i - 1, slot);
      assert slots[i := slot][1..] == slots[1..][i - 1 := slot];
    } else {
      assert slots[i := slot][1..] == slots[1..];
    }
  }

  lemma {:induction false} SeatedWithin(decode: Decoder, base: nat, bytes: seq<byte>, slots: seq<Slot>)
    requires AllSeated(decode, base, bytes, slots) && decode([]).Err?
    ensures forall i :: 0 <= i < |slots| ==> base <= slots[i].at && Within(base, |bytes|, slots[i])
    ensures slots != [] ==> |bytes| > 0
  {
    if slots != [] {
      SeatedWithin(decode, base, bytes, slots[1..]);
      assert forall i :: 0 < i < |slots| ==> slots[i] == slots[1..][i - 1];
    }
  }

  lemma {:induction false} RebaseAllForgets(decode: Decoder, bytes: seq<byte>, more: seq<byte>, from: nat, to: nat, slots: seq<Slot>)
    requires AllSeated(decode, from, bytes, slots)
    ensures RebaseAll(decode, bytes + more, from, to, slots) == RebaseAll(decode, bytes, from, to, slots)
  {
    if slots != [] {
      SpanForgets(from, bytes, more, slots[0].at, slots[0].length);
      RebaseAllForgets(decode, bytes, more, from, to, slots[1..]);
    }
  }

  /** The scan of stn_contract_state_find on slots. */
  function FindSlot(slots: seq<Slot>, id: nat): (i: nat)
    ensures i <= |slots|
    ensures i < |slots| ==> slots[i].id == id
    ensures forall k :: 0 <= k < i ==> slots[k].id != id
  {
    if slots == [] || slots[0].id == id then 0 else 1 + FindSlot(slots[1..], id)
  }

  lemma {:induction false} FindSame(decode: Decoder, base: nat, bytes: seq<byte>, slots: seq<Slot>, id: nat)
    ensures FindSlot(slots, id) == C.Find(Abstract(decode, base, bytes, slots), id)
  {
    if slots != [] {
      var es := Abstract(decode, base, bytes, slots);
      assert es[1..] == Abstract(decode, base, bytes, slots[1..]);
      FindSame(decode, base, bytes, slots[1..], id);
    }
  }
}
