/** Fork choice (src/stn_fork.c): two full histories, their deepest common ancestor, and the
    reorganization plan that leads from one to the other. */
module Fork {
  import opened BigEndian
  import opened Status
  import opened Hashing
  import Pow
  import Block
  import opened Chain
  import opened ChainHeaders
  import opened ChainHistory
  import opened ChainTheorems

  datatype ForkResult = PreferCandidate | PreferCurrent | Tie | Undecided | Faulted | Unsupported | InvalidCurrent | InvalidCandidate

  datatype Plan = Plan(
    actionable: bool, ancestorIndex: nat, ancestorId: Hash,
    detachBegin: nat, detachEnd: nat, attachBegin: nat, attachEnd: nat,
    current: ChainState, candidate: ChainState, height: nat)

  datatype Evaluation = Planned(result: ForkResult, plan: Plan) | NoPlan(result: ForkResult)

  datatype Side = Neither | CurrentSide | CandidateSide

  /** `failure`. */
  function FailureOf(side: Side, detail: DataStatus): ForkResult {
    if detail == Unresolved then Undecided
    else if detail == ProviderError || detail == Argument || side == Neither then Faulted
    else if side == CurrentSide then InvalidCurrent else InvalidCandidate
  }

  /** Reconstruction and block identifiers under one context. */
  type Rebuild = seq<seq<byte>> -> Report
  type Identify = seq<byte> -> Outcome<Hash>

  function RebuildIn(env: Env, c: Context): Rebuild { (blocks: seq<seq<byte>>) => Reconstruct(env, c, blocks) }

  function IdentifyIn(env: Env, c: Context): Identify { (b: seq<byte>) => IdOf(env, c.provider, b) }

  /** `history`: an empty side counts as a length error, everything else is reconstructed. */
  function HistoryOf(rebuild: Rebuild, blocks: seq<seq<byte>>): Outcome<ChainState> {
    if blocks == [] then Err(Length)
    else
      match rebuild(blocks)
      case Accepted(s) => Ok(s)
      case Failed(_, d) => Err(d)
  }

  /** stn_work_order: more work wins, equal work is a tie. */
  function WorkOrder(current: seq<byte>, candidate: seq<byte>): ForkResult {
    if Value(candidate) > Value(current) then PreferCandidate
    else if Value(candidate) < Value(current) then PreferCurrent
    else Tie
  }

  /** The program compares the 40 bytes with memcmp. */
  method OrderWork(current: seq<byte>, candidate: seq<byte>) returns (r: ForkResult)
    requires |current| == |candidate| == Pow.WORK_SIZE
    ensures r == WorkOrder(current, candidate)
  {
    CompareIsOrder(candidate, current);
    var order := Compare(candidate, current);
    r := if order > 0 then PreferCandidate else if order < 0 then PreferCurrent else Tie;
  }

  /** The ancestor scan: how many leading blocks have equal identifiers. */
  function Common(id: Identify, x: seq<seq<byte>>, y: seq<seq<byte>>, k: nat): (r: Outcome<nat>)
    requires k <= |x| && k <= |y|
    ensures r.Ok? ==> k <= r.value <= |x| && r.value <= |y|
    decreases |x| - k
  {
    if k == |x| || k == |y| then Ok(k)
    else if id(x[k]).Err? || id(y[k]).Err? then Err(ProviderError)
    else if id(x[k]).value != id(y[k]).value then Ok(k)
    else Common(id, x, y, k + 1)
  }

  function PlanFor(s: ChainState, t: ChainState, id: Hash, common: nat, m: nat, n: nat, result: ForkResult): Plan
    requires common > 0
  {
    var go := result == PreferCandidate;
    Plan(go, common - 1, id, common, m, common, n, s, t, if go then t.height else s.height)
  }

  /** stn_fork_evaluate_history once both states are known. */
  function Decide(id: Identify, s: ChainState, t: ChainState, current: seq<seq<byte>>, candidate: seq<seq<byte>>): Evaluation {
    match Common(id, current, candidate, 0)
    case Err(_) => NoPlan(FailureOf(Neither, ProviderError))
    case Ok(n) =>
      if n == 0 then NoPlan(FailureOf(CandidateSide, Content))
      else
        match id(current[n - 1])
        case Err(_) => NoPlan(FailureOf(Neither, ProviderError))
        case Ok(ancestor) =>
          var result := WorkOrder(s.work, t.work);
          Planned(result, PlanFor(s, t, ancestor, n, |current|, |candidate|, result))
  }

  function Weigh(rebuild: Rebuild, id: Identify, current: seq<seq<byte>>, candidate: seq<seq<byte>>): Evaluation {
    match HistoryOf(rebuild, current)
    case Err(d) => NoPlan(FailureOf(CurrentSide, d))
    case Ok(s) =>
      match HistoryOf(rebuild, candidate)
      case Err(d) => NoPlan(FailureOf(CandidateSide, d))
      case Ok(t) => Decide(id, s, t, current, candidate)
  }

  function Evaluate(env: Env, c: Context, current: seq<seq<byte>>, candidate: seq<seq<byte>>): Evaluation {
    if c.bootstrap.None? then NoPlan(Unsupported)
    else Weigh(RebuildIn(env, c), IdentifyIn(env, c), current, candidate)
  }

  /** The scan as the program runs it. */
  method CountCommon(id: Identify, x: seq<seq<byte>>, y: seq<seq<byte>>) returns (r: Outcome<nat>)
    ensures r == Common(id, x, y, 0)
  {
    var limit := if |x| < |y| then |x| else |y|;
    var common: nat := 0;
    while common < limit
      invariant common <= limit && Common(id, x, y, common) == Common(id, x, y, 0)
    {
      if id(x[common]).Err? || id(y[common]).Err? { return Err(ProviderError); }
      if id(x[common]).value != id(y[common]).value { break; }
      common := common + 1;
    }
    r := Ok(common);
  }

  // ----------------------------------------------------------------- equal blocks

  function HeaderPart(b: seq<byte>): seq<byte> {
    if |b| < Block.HEADER_SIZE then b else b[..Block.HEADER_SIZE]
  }

  function BodyPart(b: seq<byte>): seq<byte> {
    if |b| < Block.HEADER_SIZE then [] else b[Block.HEADER_SIZE..]
  }

  /** These two inputs are not a collision. */
  ghost predicate Apart(env: Env, c: Context, d: Domain, a: seq<byte>, b: seq<byte>) {
    var h := Digest(env.hash, c.provider, d, a);
    h.Ok? && h == Digest(env.hash, c.provider, d, b) ==> a == b
  }

  /** At no height do the headers or the bodies of these two histories collide. This is all
      that is ever assumed of the hash. */
  ghost predicate NoCollisions(env: Env, c: Context, x: seq<seq<byte>>, y: seq<seq<byte>>) {
    forall i :: 0 <= i < |x| && i < |y| ==> BlocksApart(env, c, x[i], y[i])
  }

  ghost predicate BlocksApart(env: Env, c: Context, a: seq<byte>, b: seq<byte>) {
    && Apart(env, c, Domain.BlockId, HeaderPart(a), HeaderPart(b))
    && Apart(env, c, BlockBody, BodyPart(a), BodyPart(b))
  }

  lemma DecodedParts(env: Env, b: seq<byte>)
    requires DecodeBlock(env, b).Ok?
    ensures |b| >= Block.HEADER_SIZE
    ensures Block.DecodeHeader(b[..Block.HEADER_SIZE]) == Ok(HeaderOf(env, b))
    ensures Block.BodyBytes(DecodeBlock(env, b).value.transactions) == b[Block.HEADER_SIZE..]
  {
    Block.BodyCanonical(Check(env), b[Block.HEADER_SIZE..], DecodeBlock(env, b).value.header.count);
  }

  lemma SameHeader(env: Env, c: Context, a: seq<byte>, b: seq<byte>)
    requires Apart(env, c, Domain.BlockId, HeaderPart(a), HeaderPart(b))
    requires IdOf(env, c.provider, a).Ok? && IdOf(env, c.provider, a) == IdOf(env, c.provider, b)
    ensures |a| >= Block.HEADER_SIZE && |b| >= Block.HEADER_SIZE
    ensures HeaderPart(a) == HeaderPart(b) && HeaderOf(env, a) == HeaderOf(env, b)
  {
    DecodedParts(env, a);
    DecodedParts(env, b);
  }

  /** A block identifier names the header, and through its commitment the whole block. */
  lemma SameBlock(env: Env, c: Context, a: seq<byte>, b: seq<byte>)
    requires BlocksApart(env, c, a, b) && Committed(env, c, a) && Committed(env, c, b)
    requires IdOf(env, c.provider, a).Ok? && IdOf(env, c.provider, a) == IdOf(env, c.provider, b)
    ensures a == b
  {
    SameHeader(env, c, a, b);
    CommittedPart(env, c, a);
    CommittedPart(env, c, b);
    assert a == HeaderPart(a) + BodyPart(a) && b == HeaderPart(b) + BodyPart(b);
  }

  lemma CommittedPart(env: Env, c: Context, b: seq<byte>)
    requires Committed(env, c, b)
    ensures Digest(env.hash, c.provider, BlockBody, BodyPart(b)) == Ok(HeaderOf(env, b).commitment)
  {
    DecodedParts(env, b);
  }

  lemma SameParent(env: Env, c: Context, x: seq<seq<byte>>, y: seq<seq<byte>>, i: nat)
    requires NoCollisions(env, c, x, y) && 0 < i < |x| && i < |y| && x[i] == y[i]
    requires BlockRule(env, c, x, i) && BlockRule(env, c, y, i)
    requires BlockRule(env, c, x, i - 1) && BlockRule(env, c, y, i - 1)
    ensures x[i - 1] == y[i - 1]
  {
    assert BlocksApart(env, c, x[i - 1], y[i - 1]);
    SameBlock(env, c, x[i - 1], y[i - 1]);
  }

  /** Where equality at a height implies equality one below, it reaches all the way down. */
  lemma {:induction false} DownToStart<T>(x: seq<T>, y: seq<T>, i: nat)
    requires i < |x| && i < |y| && x[i] == y[i]
    requires forall k :: 0 < k <= i && x[k] == y[k] ==> x[k - 1] == y[k - 1]
    ensures x[..i + 1] == y[..i + 1]
    decreases i
  {
    if i > 0 { DownToStart(x, y, i - 1); }
    assert x[..i + 1] == x[..i] + [x[i]] && y[..i + 1] == y[..i] + [y[i]];
  }

  /** Equality of two accepted histories at one height reaches down to genesis. */
  lemma SamePrefix(env: Env, c: Context, x: seq<seq<byte>>, y: seq<seq<byte>>, i: nat)
    requires NoCollisions(env, c, x, y) && AllRules(env, c, x) && AllRules(env, c, y)
    requires i < |x| && i < |y| && x[i] == y[i]
    ensures x[..i + 1] == y[..i + 1]
  {
    forall k | 0 < k <= i && x[k] == y[k] ensures x[k - 1] == y[k - 1] {
      SameParent(env, c, x, y, k);
    }
    DownToStart(x, y, i);
  }

  lemma SameBelow(env: Env, c: Context, x: seq<seq<byte>>, y: seq<seq<byte>>, i: nat, j: nat)
    requires NoCollisions(env, c, x, y) && AllRules(env, c, x) && AllRules(env, c, y)
    requires j <= i < |x| && i < |y| && x[i] == y[i]
    ensures x[j] == y[j]
  {
    SamePrefix(env, c, x, y, i);
    assert x[..i + 1][j] == y[..i + 1][j];
  }

  // ---------------------------------------------------------------- the common part

  /** The first `n` blocks agree and no later pair of blocks does. */
  ghost predicate DeepestCommon(x: seq<seq<byte>>, y: seq<seq<byte>>, n: nat) {
    && n <= |x| && n <= |y| && x[..n] == y[..n]
    && forall j :: n <= j < |x| && j < |y| ==> x[j] != y[j]
  }

  lemma {:induction false} CommonMeaning(id: Identify, x: seq<seq<byte>>, y: seq<seq<byte>>, k: nat)
    requires k <= |x| && k <= |y|
    requires forall i :: 0 <= i < |x| ==> id(x[i]).Ok?
    requires forall i :: 0 <= i < |y| ==> id(y[i]).Ok?
    ensures Common(id, x, y, k).Ok?
    ensures var n := Common(id, x, y, k).value;
      && (forall i :: k <= i < n ==> id(x[i]) == id(y[i]))
      && (n < |x| && n < |y| ==> id(x[n]) != id(y[n]))
    decreases |x| - k
  {
    if k < |x| && k < |y| && id(x[k]).value == id(y[k]).value { CommonMeaning(id, x, y, k + 1); }
  }

  lemma RulesIdentify(env: Env, c: Context, x: seq<seq<byte>>)
    requires AllRules(env, c, x)
    ensures forall i :: 0 <= i < |x| ==> IdentifyIn(env, c)(x[i]).Ok?
    ensures x != [] ==> x[0] == c.genesis
  {
    forall i | 0 <= i < |x| ensures IdentifyIn(env, c)(x[i]).Ok? {
      assert BlockRule(env, c, x, i);
    }
    if x != [] { assert BlockRule(env, c, x, 0); }
  }

  /** Between two accepted histories the scan cannot fail, always finds genesis, and stops
      exactly at the deepest common ancestor. */
  lemma ScanFindsAncestor(env: Env, c: Context, x: seq<seq<byte>>, y: seq<seq<byte>>)
    requires NoCollisions(env, c, x, y) && AllRules(env, c, x) && AllRules(env, c, y) && x != [] && y != []
    ensures Common(IdentifyIn(env, c), x, y, 0).Ok?
    ensures var n := Common(IdentifyIn(env, c), x, y, 0).value; n > 0 && DeepestCommon(x, y, n)
  {
    var id := IdentifyIn(env, c);
    RulesIdentify(env, c, x);
    RulesIdentify(env, c, y);
    CommonMeaning(id, x, y, 0);
    var n := Common(id, x, y, 0).value;
    AgreeBelow(env, c, x, y, n);
    forall j | n <= j < |x| && j < |y| ensures x[j] != y[j] {
      if x[j] == y[j] {
        SameBelow(env, c, x, y, j, n);
      }
    }
  }

  lemma AgreeBelow(env: Env, c: Context, x: seq<seq<byte>>, y: seq<seq<byte>>, n: nat)
    requires NoCollisions(env, c, x, y) && AllRules(env, c, x) && AllRules(env, c, y) && n <= |x| && n <= |y|
    requires forall i :: 0 <= i < n ==> IdentifyIn(env, c)(x[i]) == IdentifyIn(env, c)(y[i])
    ensures x[..n] == y[..n]
  {
    forall i | 0 <= i < n ensures x[i] == y[i] {
      assert BlockRule(env, c, x, i) && BlockRule(env, c, y, i);
      assert IdentifyIn(env, c)(x[i]) == IdentifyIn(env, c)(y[i]);
      assert BlocksApart(env, c, x[i], y[i]);
      SameBlock(env, c, x[i], y[i]);
    }
  }

  // -------------------------------------------------------------------- the decision

  /** What fork choice relies on: every block of an accepted history has an identifier, and a
      state's height is that of its last block. */
  ghost predicate Sound(rebuild: Rebuild, id: Identify) {
    forall x :: rebuild(x).Accepted? ==>
      x != [] && rebuild(x).state.height == |x| - 1 && forall i :: 0 <= i < |x| ==> id(x[i]).Ok?
  }

  /** The scan stops at the deepest common ancestor of these two histories. */
  ghost predicate ScanIsDeepest(id: Identify, x: seq<seq<byte>>, y: seq<seq<byte>>) {
    && Common(id, x, y, 0).Ok? && Common(id, x, y, 0).value > 0
    && DeepestCommon(x, y, Common(id, x, y, 0).value)
  }

  /** What a plan means: the two histories agree up to the ancestor and nowhere above it;
      detaching and attaching its ranges turns one into the other; the identifier is the
      ancestor's; and it is actionable exactly when the candidate has strictly more work. */
  ghost predicate GoodPlan(rebuild: Rebuild, id: Identify, x: seq<seq<byte>>, y: seq<seq<byte>>, e: Evaluation) {
    && e.Planned?
    && var p := e.plan;
    && p.detachBegin == p.attachBegin == p.ancestorIndex + 1 && p.detachEnd == |x| && p.attachEnd == |y|
    && DeepestCommon(x, y, p.ancestorIndex + 1)
    && x[..p.detachBegin] + y[p.attachBegin..p.attachEnd] == y
    && id(x[p.ancestorIndex]) == Ok(p.ancestorId)
    && rebuild(x) == Accepted(p.current) && rebuild(y) == Accepted(p.candidate)
    && (p.actionable <==> Value(p.candidate.work) > Value(p.current.work))
    && (e.result == PreferCandidate <==> p.actionable)
    && (e.result == PreferCurrent <==> Value(p.candidate.work) < Value(p.current.work))
    && (e.result == Tie <==> Value(p.candidate.work) == Value(p.current.work))
    && p.height == (if p.actionable then |y| else |x|) - 1
  }

  lemma PlanIsGood(rebuild: Rebuild, id: Identify, x: seq<seq<byte>>, y: seq<seq<byte>>)
    requires Sound(rebuild, id) && rebuild(x).Accepted? && rebuild(y).Accepted? && ScanIsDeepest(id, x, y)
    ensures GoodPlan(rebuild, id, x, y, Weigh(rebuild, id, x, y))
  {
    var n := Common(id, x, y, 0).value;
    assert y[..n] + y[n..|y|] == y;
  }

  /** A candidate is preferred only when both histories are accepted and it has strictly more
      work, whatever the hash does. */
  lemma PreferredWins(rebuild: Rebuild, id: Identify, x: seq<seq<byte>>, y: seq<seq<byte>>)
    requires Weigh(rebuild, id, x, y).result == PreferCandidate
    ensures Weigh(rebuild, id, x, y).Planned? && y != []
    ensures var p := Weigh(rebuild, id, x, y).plan;
      && rebuild(x) == Accepted(p.current) && rebuild(y) == Accepted(p.candidate)
      && Value(p.current.work) < Value(p.candidate.work)
  {
  }

  /** A run of reorganizations: each history was preferred to the one before it. */
  ghost predicate Reorganizations(rebuild: Rebuild, id: Identify, run: seq<seq<seq<byte>>>) {
    forall i :: 0 < i < |run| ==> Weigh(rebuild, id, run[i - 1], run[i]).result == PreferCandidate
  }

  function WorkOf(r: Report): nat { if r.Accepted? then Value(r.state.work) else 0 }

  lemma {:induction false} WorkRises(rebuild: Rebuild, id: Identify, run: seq<seq<seq<byte>>>, i: nat, j: nat)
    requires Reorganizations(rebuild, id, run) && i < j < |run|
    ensures WorkOf(rebuild(run[i])) < WorkOf(rebuild(run[j]))
    decreases j
  {
    PreferredWins(rebuild, id, run[j - 1], run[j]);
    if i < j - 1 { WorkRises(rebuild, id, run, i, j - 1); }
  }

  // ------------------------------------------------------------------- the real chain

  /** The chain validator supports fork choice. */
  lemma ChainIsSound(env: Env, c: Context)
    ensures Sound(RebuildIn(env, c), IdentifyIn(env, c))
  {
    var rebuild, id := RebuildIn(env, c), IdentifyIn(env, c);
    forall x | rebuild(x).Accepted?
      ensures x != [] && rebuild(x).state.height == |x| - 1 && forall i :: 0 <= i < |x| ==> id(x[i]).Ok?
    {
      HistoryFacts(env, c, x);
    }
  }

  lemma HistoryFacts(env: Env, c: Context, x: seq<seq<byte>>)
    requires Reconstruct(env, c, x).Accepted?
    ensures x != [] && AllRules(env, c, x) && Reconstruct(env, c, x).state.height == |x| - 1
    ensures forall i :: 0 <= i < |x| ==> IdentifyIn(env, c)(x[i]).Ok?
    ensures c.bootstrap.Some? ==> Value(Reconstruct(env, c, x).state.work) == TotalWork(env, x)
  {
    AcceptedObeysRules(env, c, x);
    AcceptedIsReached(env, c, x);
    RulesIdentify(env, c, x);
    if c.bootstrap.Some? { WorkAndTarget(env, c, x); }
  }

  /** Two accepted histories that do not collide always evaluate to a good plan. */
  lemma EvaluationIsGood(env: Env, c: Context, x: seq<seq<byte>>, y: seq<seq<byte>>)
    requires NoCollisions(env, c, x, y) && c.bootstrap.Some?
    requires Reconstruct(env, c, x).Accepted? && Reconstruct(env, c, y).Accepted?
    ensures GoodPlan(RebuildIn(env, c), IdentifyIn(env, c), x, y, Evaluate(env, c, x, y))
  {
    HistoryFacts(env, c, x);
    HistoryFacts(env, c, y);
    ScanFindsAncestor(env, c, x, y);
    ChainIsSound(env, c);
    PlanIsGood(RebuildIn(env, c), IdentifyIn(env, c), x, y);
  }

  /** Work rises strictly along any run of reorganizations, so no history is selected twice. */
  lemma NoHistorySelectedTwice(env: Env, c: Context, run: seq<seq<seq<byte>>>)
    requires Reorganizations(RebuildIn(env, c), IdentifyIn(env, c), run)
    ensures forall i, j :: 0 <= i < j < |run| ==> run[i] != run[j]
  {
    forall i, j | 0 <= i < j < |run| ensures run[i] != run[j] {
      WorkRises(RebuildIn(env, c), IdentifyIn(env, c), run, i, j);
    }
  }
}
