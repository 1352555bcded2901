/** The durable store shared by several nodes (src/stn_storage.c): create, apply, extend and
    adopt run under an exclusive lock on a provider whose calls may fail. */
module Storage {
  import opened BigEndian
  import opened Hashing
  import Block
  import opened Chain
  import opened Fork
  import opened StorageFormat

  datatype Disk = Empty | Holding(bytes: seq<byte>)

  /** Failures a provider may report; a failed replace has published nothing. */
  datatype Faults = Faults(acquire: Option<StorageStatus>, read: Option<StorageStatus>, replace: Option<StorageStatus>)

  /** `io_status`: anything unexpected counts as an I/O error. */
  function IoStatus(s: StorageStatus): StorageStatus {
    if s == NotFound || s == Busy || s == OutOfCapacity then s else IoError
  }

  /** A failing read never claims that an existing store is absent. */
  function ReadFault(s: StorageStatus): StorageStatus { if s == NotFound then IoError else IoStatus(s) }

  function Read(d: Disk, capacity: nat, fault: Option<StorageStatus>): Stored<seq<byte>> {
    if fault.Some? then Bad(ReadFault(fault.value))
    else if d == Empty then Bad(NotFound)
    else if |d.bytes| > capacity then Bad(OutOfCapacity)
    else Fine(d.bytes)
  }

  /** read_locked: the bytes and what they decode to. */
  function ReadLocked(core: Core, d: Disk, capacity: nat, fault: Option<StorageStatus>): Stored<View> {
    match Read(d, capacity, fault)
    case Bad(e) => Bad(e)
    case Fine(b) => Decode(core, b)
  }

  /** What a successful operation leaves behind: the published bytes and the caller's state. */
  datatype Publication = Publication(bytes: seq<byte>, active: ChainState)

  function Publish(bytes: Stored<seq<byte>>, active: ChainState, fault: Option<StorageStatus>): Stored<Publication> {
    match bytes
    case Bad(e) => Bad(e)
    case Fine(b) => if fault.Some? then Bad(IoStatus(fault.value)) else Fine(Publication(b, active))
  }

  // ---------------------------------------------------------------------- comparison

  /** state_equal: the header-level fields, not the stores behind them. */
  predicate StateEqual(a: ChainState, b: ChainState) {
    && a.window == b.window && |a.window| <= 60
    && a.height == b.height && a.timestamp == b.timestamp && a.hasTip == b.hasTip
    && a.network == b.network && a.genesisId == b.genesisId && a.tipId == b.tipId
    && a.currentTarget == b.currentTarget && a.work == b.work
  }

  predicate PlanEqual(a: Plan, b: Plan) {
    && a.actionable == b.actionable && a.ancestorIndex == b.ancestorIndex && a.ancestorId == b.ancestorId
    && a.detachBegin == b.detachBegin && a.detachEnd == b.detachEnd
    && a.attachBegin == b.attachBegin && a.attachEnd == b.attachEnd && a.height == b.height
    && StateEqual(a.current, b.current) && StateEqual(a.candidate, b.candidate)
  }

  function NotCandidate(r: ForkResult): StorageStatus {
    if r == PreferCurrent || r == Tie then NotPreferred
    else if r == Undecided then UnresolvedHash
    else ValidationError
  }

  // ---------------------------------------------------------------------- operations

  function Create(core: Core, d: Disk, blocks: seq<seq<byte>>, capacity: nat, f: Faults): Stored<Publication> {
    match Accept(core, blocks)
    case Bad(e) => Bad(e)
    case Fine(s) =>
      if f.acquire.Some? then Bad(IoStatus(f.acquire.value))
      else
        match Read(d, 0, f.read)
        case Fine(_) => Bad(Exists)
        case Bad(e) =>
          if e == OutOfCapacity then Bad(Exists)
          else if e != NotFound then Bad(e)
          else Publish(Encode(core, blocks, capacity), s, f.replace)
  }

  function Apply(core: Core, d: Disk, active: ChainState, blocks: seq<seq<byte>>, plan: Plan,
                 room: nat, capacity: nat, f: Faults): Stored<Publication>
  {
    if f.acquire.Some? then Bad(IoStatus(f.acquire.value))
    else
      match ReadLocked(core, d, room, f.read)
      case Bad(e) => Bad(e)
      case Fine(v) =>
        if !StateEqual(active, v.state) then Bad(Stale)
        else
          var e := if core.pow then Weigh(core.rebuild, core.id, v.blocks, blocks) else NoPlan(Unsupported);
          if e.result != PreferCandidate then Bad(NotCandidate(e.result))
          else if e.NoPlan? || !PlanEqual(plan, e.plan) then Bad(Stale)
          else Publish(Encode(core, blocks, capacity), e.plan.candidate, f.replace)
  }

  /** The appended bytes and their digest. */
  function Append(core: Core, p: seq<byte>, n: nat, block: seq<byte>, capacity: nat): Stored<seq<byte>>
    requires |p| >= OVERHEAD
  {
    if |p| + 4 + |block| > capacity then Bad(OutOfCapacity)
    else
      match DigestOf(core, Spliced(p, n, block))
      case Bad(e) => Bad(e)
      case Fine(h) => Fine(Spliced(p, n, block) + h)
  }

  function Extend(core: Core, d: Disk, active: ChainState, block: seq<byte>, room: nat, capacity: nat, f: Faults): Stored<Publication> {
    if f.acquire.Some? then Bad(IoStatus(f.acquire.value))
    else
      match Read(d, room, f.read)
      case Bad(e) => Bad(e)
      case Fine(p) =>
        match Decode(core, p)
        case Bad(e) => Bad(e)
        case Fine(v) =>
          if !StateEqual(active, v.state) then Bad(Stale)
          else if |v.blocks| >= 0xffff_ffff then Bad(OutOfCapacity)
          else
            match core.rebuild(v.blocks + [block])
            case Failed(r, e) => Bad(if AcceptanceOf(Failed(r, e)) == UnresolvedYet then UnresolvedHash else ValidationError)
            case Accepted(s) =>
              DecodedIsLong(core, p);
              Publish(Append(core, p, |v.blocks| + 1, block, capacity), s, f.replace)
  }

  lemma DecodedIsLong(core: Core, p: seq<byte>)
    requires Decode(core, p).Fine?
    ensures |p| >= OVERHEAD && Unframe(p) == Some(Decode(core, p).value.blocks)
  {
  }

  /** The salvage loop: whole records are kept as long as each validates on the state the
      ones before it left, without any history to look back on. */
  function Salvage(core: Core, p: seq<byte>, count: nat, s: ChainState): Stored<seq<seq<byte>>>
    decreases count
  {
    if count == 0 || |p| < 4 then Fine([])
    else
      var n := Value(p[..4]);
      if n < Block.HEADER_SIZE || n > Block.MAX_SIZE || n > |p| - 4 then Fine([])
      else
        var r := core.recheck(s, p[4..4 + n]);
        match AcceptanceOf(r)
        case UnresolvedYet => Bad(UnresolvedHash)
        case Faulty => Bad(IoError)
        case Rejected => Fine([])
        case UnderContext =>
          match Salvage(core, p[4 + n..], count - 1, r.state)
          case Bad(e) => Bad(e)
          case Fine(rest) => Fine([p[4..4 + n]] + rest)
  }

  function Min(a: nat, b: nat): nat { if a < b then a else b }

  /** Framing of another version is not guessed at. */
  function SalvageFrom(core: Core, p: seq<byte>, s: ChainState): Stored<seq<seq<byte>>> {
    if |p| < PREFIX || !GoodHead(p) then Fine([])
    else Salvage(core, p[PREFIX..], Min(CountIn(p), (|p| - PREFIX) / MIN_RECORD), s)
  }

  datatype Recovery = Recovery(blocks: seq<seq<byte>>, recovering: bool)

  /** recovery_locked. */
  function Recover(core: Core, d: Disk, capacity: nat, fault: Option<StorageStatus>): Stored<Recovery> {
    if !core.pow || core.start.Err? then Bad(ValidationError)
    else
      match Read(d, capacity, fault)
      case Bad(e) => if e == NotFound then Fine(Recovery([], true)) else Bad(e)
      case Fine(p) =>
        match Decode(core, p)
        case Fine(v) => Fine(Recovery(v.blocks, false))
        case Bad(e) =>
          if e != FormatError && e != ValidationError then Bad(e)
          else
            match SalvageFrom(core, p, core.start.value)
            case Bad(x) => Bad(x)
            case Fine(blocks) => Fine(Recovery(blocks, true))
  }

  /** Whether a recovered local history gives way to the candidate. */
  function GivesWay(core: Core, local: Recovery, blocks: seq<seq<byte>>): Stored<()> {
    if local.blocks == [] then Fine(())
    else
      var e := Weigh(core.rebuild, core.id, local.blocks, blocks);
      if e.result == PreferCandidate then Fine(())
      else if local.recovering && e.result == Tie && e.Planned? && e.plan.current.tipId == e.plan.candidate.tipId then Fine(())
      else Bad(NotCandidate(e.result))
  }

  function Adopt(core: Core, d: Disk, blocks: seq<seq<byte>>, room: nat, capacity: nat, f: Faults): Stored<Publication> {
    match Accept(core, blocks)
    case Bad(e) => Bad(e)
    case Fine(s) =>
      if f.acquire.Some? then Bad(IoStatus(f.acquire.value))
      else
        match Recover(core, d, room, f.read)
        case Bad(e) => Bad(e)
        case Fine(local) =>
          match GivesWay(core, local, blocks)
          case Bad(e) => Bad(e)
          case Fine(_) => Publish(Encode(core, blocks, capacity), s, f.replace)
  }

  // ------------------------------------------------------------------------- the run

  datatype Call =
    | CreateCall(blocks: seq<seq<byte>>, capacity: nat)
    | ApplyCall(blocks: seq<seq<byte>>, plan: Plan, room: nat, capacity: nat)
    | ExtendCall(block: seq<byte>, room: nat, capacity: nat)
    | AdoptCall(blocks: seq<seq<byte>>, room: nat, capacity: nat)

  function Attempt(core: Core, d: Disk, active: ChainState, call: Call, f: Faults): Stored<Publication> {
    match call
    case CreateCall(b, cap) => Create(core, d, b, cap, f)
    case ApplyCall(b, plan, room, cap) => Apply(core, d, active, b, plan, room, cap, f)
    case ExtendCall(b, room, cap) => Extend(core, d, active, b, room, cap, f)
    case AdoptCall(b, room, cap) => Adopt(core, d, b, room, cap, f)
  }

  /** One disk, many nodes, each with the state it believes to be active. */
  datatype World = World(disk: Disk, actives: seq<ChainState>)

  datatype Event = Event(node: nat, call: Call, faults: Faults)

  function Step(core: Core, w: World, e: Event): World {
    if e.node >= |w.actives| then w
    else
      match Attempt(core, w.disk, w.actives[e.node], e.call, e.faults)
      case Bad(_) => w
      case Fine(p) => World(Holding(p.bytes), w.actives[e.node := p.active])
  }

  function Run(core: Core, w: World, events: seq<Event>): World {
    if events == [] then w else Step(core, Run(core, w, events[..|events| - 1]), events[|events| - 1])
  }

  // ---------------------------------------------------------------------- guarantees

  /** The store is absent, or holds the encoding of an accepted history. */
  ghost predicate DiskOk(core: Core, d: Disk) { d == Empty || Decode(core, d.bytes).Fine? }

  /** What the store relies on: accepted blocks fit the format, and a longer history has more
      work. */
  ghost predicate Reliable(core: Core) {
    && (forall x :: core.rebuild(x).Accepted? ==> AllSized(x))
    && (forall x, b :: Rises(core.rebuild, x, b))
  }

  ghost predicate Rises(rebuild: Rebuild, x: seq<seq<byte>>, b: seq<byte>) {
    rebuild(x).Accepted? && rebuild(x + [b]).Accepted? ==> WorkOf(rebuild(x)) < WorkOf(rebuild(x + [b]))
  }

  /** The published bytes decode to `blocks`, whose state the caller now holds. */
  ghost predicate Publishes(core: Core, p: Publication, blocks: seq<seq<byte>>) {
    Decode(core, p.bytes) == Fine(View(blocks, p.active)) && core.rebuild(blocks) == Accepted(p.active)
  }

  lemma EncodedPublishes(core: Core, blocks: seq<seq<byte>>, capacity: nat, s: ChainState, fault: Option<StorageStatus>)
    requires Reliable(core) && core.pow && blocks != [] && core.rebuild(blocks) == Accepted(s)
    requires Publish(Encode(core, blocks, capacity), s, fault).Fine?
    ensures Publishes(core, Publish(Encode(core, blocks, capacity), s, fault).value, blocks)
  {
    DecodeEncode(core, blocks, capacity);
  }

  lemma AcceptMeans(core: Core, blocks: seq<seq<byte>>)
    requires Accept(core, blocks).Fine?
    ensures core.pow && blocks != [] && core.rebuild(blocks) == Accepted(Accept(core, blocks).value)
  {
  }

  lemma DecodeMeans(core: Core, p: seq<byte>)
    requires Decode(core, p).Fine?
    ensures var v := Decode(core, p).value; v.blocks != [] && core.pow && core.rebuild(v.blocks) == Accepted(v.state)
  {
    AcceptMeans(core, Decode(core, p).value.blocks);
  }

  lemma CreatePublishes(core: Core, d: Disk, blocks: seq<seq<byte>>, capacity: nat, f: Faults)
    requires Reliable(core) && Create(core, d, blocks, capacity, f).Fine?
    ensures Publishes(core, Create(core, d, blocks, capacity, f).value, blocks) && d == Empty
  {
    AcceptMeans(core, blocks);
    EncodedPublishes(core, blocks, capacity, Accept(core, blocks).value, f.replace);
  }

  lemma ApplyFacts(core: Core, d: Disk, active: ChainState, blocks: seq<seq<byte>>, plan: Plan, room: nat, capacity: nat, f: Faults)
    requires Apply(core, d, active, blocks, plan, room, capacity, f).Fine?
    ensures d.Holding? && Decode(core, d.bytes).Fine?
    ensures var v := Decode(core, d.bytes).value;
      var e := Weigh(core.rebuild, core.id, v.blocks, blocks);
      && StateEqual(active, v.state) && e.result == PreferCandidate && e.Planned?
      && Apply(core, d, active, blocks, plan, room, capacity, f)
         == Publish(Encode(core, blocks, capacity), e.plan.candidate, f.replace)
  {
  }

  /** An applied plan was fresh: the caller's state and plan matched the disk, and the new
      history has strictly more work than the one it replaces. */
  lemma ApplyPublishes(core: Core, d: Disk, active: ChainState, blocks: seq<seq<byte>>, plan: Plan, room: nat, capacity: nat, f: Faults)
    requires Reliable(core) && Apply(core, d, active, blocks, plan, room, capacity, f).Fine?
    ensures Publishes(core, Apply(core, d, active, blocks, plan, room, capacity, f).value, blocks)
    ensures Beats(core, d, Apply(core, d, active, blocks, plan, room, capacity, f).value) && Current(core, d, active)
  {
    ApplyFacts(core, d, active, blocks, plan, room, capacity, f);
    var v := Decode(core, d.bytes).value;
    DecodeMeans(core, d.bytes);
    PreferredWins(core.rebuild, core.id, v.blocks, blocks);
    EncodedPublishes(core, blocks, capacity, Weigh(core.rebuild, core.id, v.blocks, blocks).plan.candidate, f.replace);
  }

  /** The caller's state is that of the history on disk. */
  ghost predicate Current(core: Core, d: Disk, active: ChainState) {
    d.Holding? && Decode(core, d.bytes).Fine? && StateEqual(active, Decode(core, d.bytes).value.state)
  }

  /** The publication has strictly more work than a history that decodes from the disk. */
  ghost predicate Beats(core: Core, d: Disk, p: Publication) {
    d.Holding? && Decode(core, d.bytes).Fine? ==> Value(Decode(core, d.bytes).value.state.work) < Value(p.active.work)
  }

  /** The spliced append publishes exactly what encoding the longer history would. */
  lemma AppendIsEncode(core: Core, p: seq<byte>, block: seq<byte>, capacity: nat, s: ChainState)
    requires Decode(core, p).Fine? && |Decode(core, p).value.blocks| < 0xffff_ffff
    requires core.rebuild(Decode(core, p).value.blocks + [block]) == Accepted(s)
    ensures |p| >= OVERHEAD
    ensures var x := Decode(core, p).value.blocks;
      Append(core, p, |x| + 1, block, capacity) == Encode(core, x + [block], capacity)
  {
    DecodedIsLong(core, p);
    var x := Decode(core, p).value.blocks;
    DecodeMeans(core, p);
    SpliceIsFraming(p, block);
    HeadReads(|x| + 1);
  }

  lemma ExtendFacts(core: Core, d: Disk, active: ChainState, block: seq<byte>, room: nat, capacity: nat, f: Faults)
    requires Extend(core, d, active, block, room, capacity, f).Fine?
    ensures Current(core, d, active) && |d.bytes| >= OVERHEAD
    ensures var v := Decode(core, d.bytes).value;
      && |v.blocks| < 0xffff_ffff && core.rebuild(v.blocks + [block]).Accepted?
      && Extend(core, d, active, block, room, capacity, f)
         == Publish(Append(core, d.bytes, |v.blocks| + 1, block, capacity), core.rebuild(v.blocks + [block]).state, f.replace)
  {
    DecodedIsLong(core, d.bytes);
  }

  lemma ExtendPublishes(core: Core, d: Disk, active: ChainState, block: seq<byte>, room: nat, capacity: nat, f: Faults)
    requires Reliable(core) && Extend(core, d, active, block, room, capacity, f).Fine?
    ensures Current(core, d, active)
    ensures var p := Extend(core, d, active, block, room, capacity, f).value;
      Publishes(core, p, Decode(core, d.bytes).value.blocks + [block]) && Beats(core, d, p)
  {
    ExtendFacts(core, d, active, block, room, capacity, f);
    var v := Decode(core, d.bytes).value;
    DecodeMeans(core, d.bytes);
    var s := core.rebuild(v.blocks + [block]).state;
    AppendIsEncode(core, d.bytes, block, capacity, s);
    EncodedPublishes(core, v.blocks + [block], capacity, s, f.replace);
    assert Rises(core.rebuild, v.blocks, block);
  }

  lemma AdoptFacts(core: Core, d: Disk, blocks: seq<seq<byte>>, room: nat, capacity: nat, f: Faults)
    requires Adopt(core, d, blocks, room, capacity, f).Fine?
    ensures Accept(core, blocks).Fine?
    ensures Adopt(core, d, blocks, room, capacity, f)
         == Publish(Encode(core, blocks, capacity), Accept(core, blocks).value, f.replace)
    ensures Recover(core, d, room, f.read).Fine? && GivesWay(core, Recover(core, d, room, f.read).value, blocks).Fine?
  {
  }

  lemma CleanRecovery(core: Core, d: Disk, room: nat, fault: Option<StorageStatus>)
    requires Recover(core, d, room, fault).Fine? && d.Holding? && Decode(core, d.bytes).Fine?
    ensures Recover(core, d, room, fault) == Fine(Recovery(Decode(core, d.bytes).value.blocks, false))
  {
  }

  /** On a store that decodes, adoption is a reorganization like any other. */
  lemma AdoptPublishes(core: Core, d: Disk, blocks: seq<seq<byte>>, room: nat, capacity: nat, f: Faults)
    requires Reliable(core) && Adopt(core, d, blocks, room, capacity, f).Fine?
    ensures Publishes(core, Adopt(core, d, blocks, room, capacity, f).value, blocks)
    ensures Beats(core, d, Adopt(core, d, blocks, room, capacity, f).value)
  {
    AdoptFacts(core, d, blocks, room, capacity, f);
    AcceptMeans(core, blocks);
    EncodedPublishes(core, blocks, capacity, Accept(core, blocks).value, f.replace);
    if d.Holding? && Decode(core, d.bytes).Fine? {
      CleanRecovery(core, d, room, f.read);
      DecodeMeans(core, d.bytes);
      PreferredWins(core.rebuild, core.id, Decode(core, d.bytes).value.blocks, blocks);
    }
  }

  // ------------------------------------------------------------------- interleavings

  /** What one successful call means, whichever it was. */
  ghost predicate Success(core: Core, d: Disk, active: ChainState, call: Call, p: Publication) {
    && (exists x :: Publishes(core, p, x))
    && Beats(core, d, p)
    && (call.ApplyCall? || call.ExtendCall? ==> Current(core, d, active))
    && (call.CreateCall? ==> d == Empty)
  }

  lemma AttemptSucceeds(core: Core, d: Disk, active: ChainState, call: Call, f: Faults)
    requires Reliable(core) && Attempt(core, d, active, call, f).Fine?
    ensures Success(core, d, active, call, Attempt(core, d, active, call, f).value)
  {
    match call
    case CreateCall(b, cap) => CreatePublishes(core, d, b, cap, f);
    case ApplyCall(b, plan, room, cap) => ApplyPublishes(core, d, active, b, plan, room, cap, f);
    case ExtendCall(b, room, cap) => ExtendPublishes(core, d, active, b, room, cap, f);
    case AdoptCall(b, room, cap) => AdoptPublishes(core, d, b, room, cap, f);
  }

  /** One event: a failure changes nothing at all; a success replaces the snapshot by the
      encoding of an accepted history whose state only the caller takes over. */
  lemma StepKeeps(core: Core, w: World, e: Event)
    requires Reliable(core) && DiskOk(core, w.disk) && e.node < |w.actives|
    ensures DiskOk(core, Step(core, w, e).disk)
    ensures var n, r := Step(core, w, e), Attempt(core, w.disk, w.actives[e.node], e.call, e.faults);
      && (r.Bad? ==> n == w)
      && (r.Fine? ==>
            && Success(core, w.disk, w.actives[e.node], e.call, r.value)
            && n.disk == Holding(r.value.bytes) && n.actives == w.actives[e.node := r.value.active]
            && Decode(core, n.disk.bytes).Fine? && Decode(core, n.disk.bytes).value.state == n.actives[e.node])
  {
    var r := Attempt(core, w.disk, w.actives[e.node], e.call, e.faults);
    if r.Fine? { AttemptSucceeds(core, w.disk, w.actives[e.node], e.call, e.faults); }
  }

  function DiskWork(core: Core, d: Disk): nat {
    if d == Empty then 0
    else
      match Decode(core, d.bytes)
      case Fine(v) => Value(v.state.work)
      case Bad(_) => 0
  }

  lemma StepRaisesWork(core: Core, w: World, e: Event)
    requires Reliable(core) && DiskOk(core, w.disk)
    ensures DiskOk(core, Step(core, w, e).disk)
    ensures Step(core, w, e).disk != w.disk && w.disk != Empty ==> DiskWork(core, w.disk) < DiskWork(core, Step(core, w, e).disk)
    ensures w.disk != Empty ==> Step(core, w, e).disk != Empty
    ensures |Step(core, w, e).actives| == |w.actives|
  {
    if e.node < |w.actives| { StepKeeps(core, w, e); }
  }

  /** Over every interleaving of calls by any number of nodes, with any provider failures, a
      store that starts absent or valid always holds the encoding of an accepted history,
      never disappears, and only ever gains work. */
  lemma {:induction false} RunKeeps(core: Core, w: World, events: seq<Event>)
    requires Reliable(core) && DiskOk(core, w.disk)
    ensures var n := Run(core, w, events);
      && DiskOk(core, n.disk) && |n.actives| == |w.actives|
      && (w.disk != Empty ==> n.disk != Empty)
      && (w.disk != Empty && n.disk != w.disk ==> DiskWork(core, w.disk) < DiskWork(core, n.disk))
    decreases |events|
  {
    if events != [] {
      var before := events[..|events| - 1];
      RunKeeps(core, w, before);
      StepRaisesWork(core, Run(core, w, before), events[|events| - 1]);
    }
  }

  /** A caller whose state is not that of the history on disk publishes nothing through
      apply or extend. */
  lemma StaleNeverPublishes(core: Core, d: Disk, active: ChainState, call: Call, f: Faults)
    requires Reliable(core) && (call.ApplyCall? || call.ExtendCall?) && !Current(core, d, active)
    ensures Attempt(core, d, active, call, f).Bad?
  {
    if Attempt(core, d, active, call, f).Fine? { AttemptSucceeds(core, d, active, call, f); }
  }
}
