/** The decode cache in front of the store (src/stn_storage_cache.c): the bytes last decoded,
    the context they were decoded under, and the result, whose block spans point into the
    cached copy and are rebased into the caller's buffer on a hit. */
module StorageCache {
  import opened BigEndian
  import opened Hashing
  import opened Sequences
  import opened Chain
  import opened StorageFormat
  import opened Storage
  import opened StorageState

  /** A block inside some buffer, by address. */
  datatype Span = Span(at: nat, length: nat)

  datatype Located = Located(spans: seq<Span>, state: ChainState)

  datatype Entry = Entry(context: nat, base: nat, bytes: seq<byte>, view: Located)

  /** Where the records of a snapshot lie, the first one starting at `at`. */
  function Locate(at: nat, blocks: seq<seq<byte>>): seq<Span>
    decreases |blocks|
  {
    if blocks == [] then []
    else [Span(at + 4, |blocks[0]|)] + Locate(at + 4 + |blocks[0]|, blocks[1..])
  }

  /** stn_storage_decode, with spans into the buffer at `base` instead of copies. */
  function DecodeAt(core: Core, base: nat, p: seq<byte>): Stored<Located> {
    match Decode(core, p)
    case Bad(e) => Bad(e)
    case Fine(v) => Fine(Located(Locate(base + PREFIX, v.blocks), v.state))
  }

  predicate Above(spans: seq<Span>, from: nat) { forall i :: 0 <= i < |spans| ==> from <= spans[i].at }

  function Shifted(spans: seq<Span>, from: nat, to: nat): seq<Span>
    requires Above(spans, from)
  {
    if spans == [] then [] else [Span(spans[0].at - from + to, spans[0].length)] + Shifted(spans[1..], from, to)
  }

  /** The cached result is what decoding the cached bytes under the cached context gives. */
  ghost predicate Faithful(cores: nat -> Core, e: Entry) {
    DecodeAt(cores(e.context), e.base, e.bytes) == Fine(e.view)
  }

  // ------------------------------------------------------------------------- rebasing

  lemma {:induction false} LocateAbove(at: nat, blocks: seq<seq<byte>>)
    ensures |Locate(at, blocks)| == |blocks|
    ensures Above(Locate(at, blocks), at)
    decreases |blocks|
  {
    if blocks != [] { LocateAbove(at + 4 + |blocks[0]|, blocks[1..]); }
  }

  /** Rebasing the spans of one copy gives the spans of the other. */
  lemma {:induction false} ShiftedLocate(from: nat, to: nat, k: nat, blocks: seq<seq<byte>>)
    ensures Above(Locate(from + k, blocks), from)
    ensures Shifted(Locate(from + k, blocks), from, to) == Locate(to + k, blocks)
    decreases |blocks|
  {
    LocateAbove(from + k, blocks);
    if blocks != [] {
      var n := k + 4 + |blocks[0]|;
      ShiftedLocate(from, to, n, blocks[1..]);
      assert Locate(from + k, blocks)[1..] == Locate(from + n, blocks[1..]);
    }
  }

  lemma {:induction false} ShiftedAppend(spans: seq<Span>, s: Span, from: nat, to: nat)
    requires from <= s.at && Above(spans, from)
    ensures Above(spans + [s], from)
    ensures Shifted(spans + [s], from, to) == Shifted(spans, from, to) + [Span(s.at - from + to, s.length)]
  {
    if spans == [] {
      assert [] + [s] == [s] && [s][1..] == [];
    } else {
      ShiftedAppend(spans[1..], s, from, to);
      assert (spans + [s])[1..] == spans[1..] + [s];
    }
  }

  /** The loop of copy_view. */
  method CopyView(view: Located, from: nat, to: nat) returns (r: Located)
    requires Above(view.spans, from)
    ensures r == Located(Shifted(view.spans, from, to), view.state)
  {
    var spans: seq<Span> := [];
    var i: nat := 0;
    while i < |view.spans|
      invariant i <= |view.spans| && spans == Shifted(view.spans[..i], from, to)
    {
      var s := view.spans[i];
      assert view.spans[..i + 1] == view.spans[..i] + [s];
      ShiftedAppend(view.spans[..i], s, from, to);
      spans := spans + [Span(s.at - from + to, s.length)];
      i := i + 1;
    }
    assert view.spans[..i] == view.spans;
    r := Located(spans, view.state);
  }

  // ---------------------------------------------------------------- remembering

  /** How many bytes these records take. */
  function Size(blocks: seq<seq<byte>>): nat {
    if blocks == [] then 0 else 4 + |blocks[0]| + Size(blocks[1..])
  }

  lemma {:induction false} LocateAppend(at: nat, blocks: seq<seq<byte>>, b: seq<byte>)
    ensures Locate(at, blocks + [b]) == Locate(at, blocks) + [Span(at + Size(blocks) + 4, |b|)]
    ensures Size(blocks + [b]) == Size(blocks) + 4 + |b|
    decreases |blocks|
  {
    if blocks == [] {
      assert [] + [b] == [b] && [b][1..] == [];
    } else {
      var next := at + 4 + |blocks[0]|;
      LocateAppend(next, blocks[1..], b);
      assert (blocks + [b])[1..] == blocks[1..] + [b];
      Assoc([Span(at + 4, |blocks[0]|)], Locate(next, blocks[1..]), [Span(next + Size(blocks[1..]) + 4, |b|)]);
    }
  }

  /** The record loop of stn_storage_cache_remember: lengths are read again, spans point into
      the private copy at `base`. */
  method Relocate(b: seq<byte>, count: nat, at: nat) returns (r: Option<seq<Span>>)
    ensures r == match Spans(b, count) case Some(blocks) => Some(Locate(at, blocks)) case None => None
  {
    var blocks := ReadSpans(b, count);
    if blocks.None? { return None; }
    var spans: seq<Span> := [];
    var offset: nat, i: nat := at, 0;
    while i < |blocks.value|
      invariant i <= |blocks.value| && spans == Locate(at, blocks.value[..i])
      invariant offset == at + Size(blocks.value[..i])
    {
      var x := blocks.value[i];
      assert blocks.value[..i + 1] == blocks.value[..i] + [x];
      LocateAppend(at, blocks.value[..i], x);
      spans := spans + [Span(offset + 4, |x|)];
      offset := offset + 4 + |x|;
      i := i + 1;
    }
    assert blocks.value[..i] == blocks.value;
    r := Some(spans);
  }

  // ---------------------------------------------------------------------- the cache

  /** Everything outside the cache that one load depends on: the store, where the caller's
      buffer lies, and whether the two allocations succeed. */
  datatype Request = Request(
    context: nat, disk: Disk, scratch: nat, capacity: nat, fault: Option<StorageStatus>,
    copyAllocates: bool, rememberAt: Option<nat>)

  /** What a load without any cache answers. */
  function FullLoad(cores: nat -> Core, q: Request): Stored<Located> {
    match Read(q.disk, q.capacity, q.fault)
    case Bad(e) => Bad(e)
    case Fine(p) => DecodeAt(cores(q.context), q.scratch, p)
  }

  class Cache {
    var entry: Option<Entry>

    ghost predicate Valid(cores: nat -> Core)
      reads this
    {
      entry.Some? ==> Faithful(cores, entry.value)
    }

    constructor ()
      ensures entry == None
    {
      entry := None;
    }

    /** stn_storage_cache_remember after a successful decode. */
    method Remember(cores: nat -> Core, context: nat, p: seq<byte>, state: ChainState, memory: Option<nat>)
      requires Decode(cores(context), p).Fine? && Decode(cores(context), p).value.state == state
      modifies this
      ensures Valid(cores)
      ensures memory.Some? ==> entry.Some? && entry.value.context == context && entry.value.bytes == p
    {
      entry := None;
      if memory.None? { return; }
      DecodedIsLong(cores(context), p);
      var spans := Relocate(p[PREFIX..|p| - 32], CountIn(p), memory.value + PREFIX);
      entry := Some(Entry(context, memory.value, p, Located(spans.value, state)));
    }

    /** stn_storage_cache_load_locked. A load that reads its snapshot and finds memory
        answers exactly what a full decode would, hit or miss. */
    method Load(cores: nat -> Core, q: Request) returns (r: Stored<Located>)
      requires Valid(cores)
      modifies this
      ensures Valid(cores)
      ensures r == FullLoad(cores, q) || (!q.copyAllocates && r == Bad(OutOfCapacity))
      ensures q.copyAllocates ==> r == FullLoad(cores, q)
      ensures Read(q.disk, q.capacity, q.fault).Bad? ==> entry == old(entry)
    {
      var p := Read(q.disk, q.capacity, q.fault);
      if p.Bad? { return Bad(p.status); }
      if entry.Some? && entry.value.context == q.context && entry.value.bytes == p.value {
        if !q.copyAllocates { return Bad(OutOfCapacity); }
        var e := entry.value;
        ShiftedLocate(e.base, q.scratch, PREFIX, Decode(cores(e.context), e.bytes).value.blocks);
        var view := CopyView(e.view, e.base, q.scratch);
        return Fine(view);
      }
      entry := None;
      var v := Decode(cores(q.context), p.value);
      if v.Bad? { return Bad(v.status); }
      r := DecodeAt(cores(q.context), q.scratch, p.value);
      Remember(cores, q.context, p.value, v.value.state, q.rememberAt);
    }

    /** Any sequence of loads, over any sequence of disk contents, answers like a sequence
        of full decodes. */
    method LoadAll(cores: nat -> Core, requests: seq<Request>) returns (answers: seq<Stored<Located>>)
      requires Valid(cores) && forall i :: 0 <= i < |requests| ==> requests[i].copyAllocates
      modifies this
      ensures Valid(cores) && |answers| == |requests|
      ensures forall i :: 0 <= i < |requests| ==> answers[i] == FullLoad(cores, requests[i])
    {
      answers := [];
      while |answers| < |requests|
        invariant Valid(cores) && |answers| <= |requests|
        invariant forall i :: 0 <= i < |answers| ==> answers[i] == FullLoad(cores, requests[i])
      {
        var r := Load(cores, requests[|answers|]);
        answers := answers + [r];
      }
    }
  }
}
