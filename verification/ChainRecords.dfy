/** What the authority lifecycle and the contract store of an accepted history are: the runs
    of the actions its blocks carry, nothing dropped and nothing added. */
module ChainRecords {
  import opened BigEndian
  import opened Status
  import opened Hashing
  import opened Sequences
  import Transaction
  import Replay
  import opened Chain
  import opened ChainSteps
  import opened ChainLoops
  import opened ChainBooks
  import opened ChainHistory
  import L = Lifecycle
  import LP = LifecycleProofs
  import LR = LifecycleRecords
  import Authority
  import C = Contracts
  import CP = ContractProofs

  // ------------------------------------------------------------------------ actions

  /** The lifecycle action of a transaction at this height: a grant, revocation or rotation,
      or a publication once publications are activated. */
  function ActionsOf(env: Env, activation: nat, height: nat, t: Tx): seq<L.Action> {
    if t.kind == Transaction.PUBLICATION then
      if height < activation || env.publication(t.record).None? then []
      else [L.PublishAction(env.publication(t.record).value)]
    else if IsMoney(t) || t.kind == Transaction.CONTRACT_ACTION || t.kind == Transaction.BLOCK_COMPENSATION_EVIDENCE then []
    else if env.action(t.kind, t.record).None? then []
    else [env.action(t.kind, t.record).value]
  }

  function ActionsIn(env: Env, activation: nat, height: nat): Tx -> seq<L.Action> {
    (t: Tx) => ActionsOf(env, activation, height, t)
  }

  function BodyActions(env: Env, activation: nat, height: nat, txs: seq<Tx>): seq<L.Action> {
    Flat(ActionsIn(env, activation, height), txs)
  }

  /** Every lifecycle action of a history, in order. */
  function AllActions(env: Env, activation: nat, blocks: seq<seq<byte>>): seq<L.Action> {
    if blocks == [] then []
    else
      var n := |blocks| - 1;
      AllActions(env, activation, blocks[..n]) + BodyActions(env, activation, n, TxsOf(env, blocks[n]))
  }

  function ContractsOf(env: Env, t: Tx): seq<C.ContractAction> {
    if t.kind == Transaction.CONTRACT_ACTION && env.contract(t.record).Some? then [env.contract(t.record).value] else []
  }

  function ContractsIn(env: Env): Tx -> seq<C.ContractAction> { (t: Tx) => ContractsOf(env, t) }

  function ContractActions(env: Env, txs: seq<Tx>): seq<C.ContractAction> { Flat(ContractsIn(env), txs) }

  // ---------------------------------------------------------------------- contracts

  function Granted(): C.Authorization { draft => Ok(()) }

  type ContractStep = (C.Store, C.ContractAction) -> Outcome<C.Store>

  function Through(step: ContractStep, s: C.Store, actions: seq<C.ContractAction>): Outcome<C.Store>
    decreases |actions|
  {
    if actions == [] then Ok(s)
    else
      match step(s, actions[0])
      case Err(e) => Err(e)
      case Ok(n) => Through(step, n, actions[1..])
  }

  lemma {:induction false} ThroughSplits(step: ContractStep, s: C.Store, x: seq<C.ContractAction>, y: seq<C.ContractAction>)
    requires Through(step, s, x).Ok?
    ensures Through(step, s, x + y) == Through(step, Through(step, s, x).value, y)
    decreases |x|
  {
    if x == [] {
      assert x + y == y;
    } else {
      ThroughSplits(step, step(s, x[0]).value, x[1..], y);
      assert (x + y)[1..] == x[1..] + y;
    }
  }

  lemma ThroughOne(step: ContractStep, s: C.Store, a: C.ContractAction)
    ensures Through(step, s, [a]) == step(s, a)
  {
    assert [a][1..] == [];
  }

  function Act(o: C.Oracle): ContractStep {
    (s: C.Store, a: C.ContractAction) => C.Apply(o, s, a, Granted())
  }

  /** Contract actions that are all accepted, their authorizations being granted. */
  function ActAll(o: C.Oracle, s: C.Store, actions: seq<C.ContractAction>): Outcome<C.Store> {
    Through(Act(o), s, actions)
  }

  lemma ActOne(o: C.Oracle, s: C.Store, a: C.ContractAction, n: C.Store)
    requires C.Apply(o, s, a, Granted()) == Ok(n)
    ensures ActAll(o, s, [a]) == Ok(n)
  {
    ThroughOne(Act(o), s, a);
  }

  /** Who authorized an action does not show in what it does. */
  lemma GrantedSame(o: C.Oracle, s: C.Store, a: C.ContractAction, authorized: C.Authorization)
    requires C.Apply(o, s, a, authorized).Ok?
    ensures C.Apply(o, s, a, Granted()) == C.Apply(o, s, a, authorized)
  {
  }

  function Asked(actions: seq<C.ContractAction>): seq<CP.Request> {
    if actions == [] then [] else [CP.Request(actions[0], Granted())] + Asked(actions[1..])
  }

  /** Such actions are a run in which none is refused. */
  lemma {:induction false} ActAllIsRun(o: C.Oracle, s: C.Store, actions: seq<C.ContractAction>)
    requires ActAll(o, s, actions).Ok?
    ensures CP.Run(o, s, Asked(actions)) == ActAll(o, s, actions).value
    decreases |actions|
  {
    if actions != [] {
      var n := Act(o)(s, actions[0]).value;
      ActAllIsRun(o, n, actions[1..]);
      assert Asked(actions)[0] == CP.Request(actions[0], Granted()) && Asked(actions)[1..] == Asked(actions[1..]);
    }
  }

  // ------------------------------------------------------------------- transactions

  /** What a stretch of transactions at one height did to lifecycle and contracts. */
  ghost predicate Acted(env: Env, c: Context, height: nat, activation: nat, w: Candidate, n: Candidate, txs: seq<Tx>) {
    && LifeActed(env.lifecycle(c.roots, c.provider), w.lifecycle, n.lifecycle, BodyActions(env, activation, height, txs))
    && ActAll(env.oracle, w.contracts, ContractActions(env, txs)) == Ok(n.contracts)
  }

  ghost predicate LifeActed(life: L.Env, s: L.Paired, n: L.Paired, actions: seq<L.Action>) {
    LR.Recorded(life, s, n, actions) && LR.Plays(life, s, n, actions)
  }

  lemma LifeNothing(life: L.Env, s: L.Paired)
    ensures LifeActed(life, s, s, [])
  {
    LR.NothingRecorded(life, s);
    LR.PlaysNothing(life, s, s);
  }

  lemma LifeTwice(life: L.Env, s: L.Paired, m: L.Paired, n: L.Paired, x: seq<L.Action>, y: seq<L.Action>)
    requires LifeActed(life, s, m, x) && LifeActed(life, m, n, y)
    ensures LifeActed(life, s, n, x + y)
  {
    LR.RecordedTwice(life, s, m, n, x, y);
    LR.PlaysTwice(life, s, m, n, x, y);
  }

  lemma LifeOne(life: L.Env, s: L.Paired, a: L.Action)
    requires L.Coherent(life, s) && L.Apply(life, s, a).0 == L.Done
    ensures LifeActed(life, s, L.Apply(life, s, a).1, [a])
  {
    LR.ApplyRecords(life, s, a);
    LR.PlaysOne(life, s, a);
  }

  lemma ActedNothing(env: Env, c: Context, height: nat, activation: nat, w: Candidate)
    ensures Acted(env, c, height, activation, w, w, [])
  {
    LifeNothing(env.lifecycle(c.roots, c.provider), w.lifecycle);
  }

  lemma ActedTwice(env: Env, c: Context, height: nat, activation: nat, w: Candidate, m: Candidate, n: Candidate, x: seq<Tx>, y: seq<Tx>)
    requires Acted(env, c, height, activation, w, m, x) && Acted(env, c, height, activation, m, n, y)
    ensures Acted(env, c, height, activation, w, n, x + y)
  {
    FlatConcat(ActionsIn(env, activation, height), x, y);
    FlatConcat(ContractsIn(env), x, y);
    LifeTwice(env.lifecycle(c.roots, c.provider), w.lifecycle, m.lifecycle, n.lifecycle,
              BodyActions(env, activation, height, x), BodyActions(env, activation, height, y));
    ThroughSplits(Act(env.oracle), w.contracts, ContractActions(env, x), ContractActions(env, y));
  }

  /** What one transaction does to the lifecycle. */
  lemma OneLives(env: Env, c: Context, f: Frame, w: Candidate, t: Tx)
    requires t.kind != Transaction.BLOCK_COMPENSATION_EVIDENCE && ApplyOne(env, c, f, w, t).Ok?
    ensures var n, actions := ApplyOne(env, c, f, w, t).value.lifecycle, ActionsOf(env, f.prior.activation, f.height, t);
      || (actions == [] && n == w.lifecycle)
      || (|actions| == 1 && L.Apply(env.lifecycle(c.roots, c.provider), w.lifecycle, actions[0]) == (L.Done, n))
  {
  }

  /** What one transaction does to the contracts. */
  lemma OneContracts(env: Env, c: Context, f: Frame, w: Candidate, t: Tx)
    requires ApplyOne(env, c, f, w, t).Ok?
    ensures ActAll(env.oracle, w.contracts, ContractsOf(env, t)) == Ok(ApplyOne(env, c, f, w, t).value.contracts)
  {
    if t.kind == Transaction.CONTRACT_ACTION {
      ContractActs(env, c, w, t.record);
    } else {
      ContractsUntouched(env, c, f, w, t);
    }
  }

  lemma ContractActs(env: Env, c: Context, w: Candidate, record: seq<byte>)
    requires ApplyContract(env, c, w, record).Ok?
    ensures env.contract(record).Some?
    ensures ActAll(env.oracle, w.contracts, [env.contract(record).value]) == Ok(ApplyContract(env, c, w, record).value.contracts)
  {
    var a := env.contract(record).value;
    var authorized := draft => env.authorize(c.provider, w.lifecycle, a, draft);
    var n := ApplyContract(env, c, w, record).value.contracts;
    assert C.Apply(env.oracle, w.contracts, a, authorized) == Ok(n);
    GrantedSame(env.oracle, w.contracts, a, authorized);
    ActOne(env.oracle, w.contracts, a, n);
  }

  lemma ContractsUntouched(env: Env, c: Context, f: Frame, w: Candidate, t: Tx)
    requires t.kind != Transaction.CONTRACT_ACTION && ApplyOne(env, c, f, w, t).Ok?
    ensures ApplyOne(env, c, f, w, t).value.contracts == w.contracts
  {
  }

  lemma OneActs(env: Env, c: Context, f: Frame, w: Candidate, t: Tx)
    requires StoresSound(env, c, w) && t.kind != Transaction.BLOCK_COMPENSATION_EVIDENCE && ApplyOne(env, c, f, w, t).Ok?
    ensures Acted(env, c, f.height, f.prior.activation, w, ApplyOne(env, c, f, w, t).value, [t])
  {
    var life := env.lifecycle(c.roots, c.provider);
    var actions := ActionsOf(env, f.prior.activation, f.height, t);
    FlatOne(ActionsIn(env, f.prior.activation, f.height), t);
    FlatOne(ContractsIn(env), t);
    OneLives(env, c, f, w, t);
    OneContracts(env, c, f, w, t);
    if actions == [] {
      LifeNothing(life, w.lifecycle);
    } else {
      LifeOne(life, w.lifecycle, actions[0]);
      assert actions == [actions[0]];
    }
  }

  lemma PairActs(env: Env, c: Context, f: Frame, w: Candidate, e: Tx, i: Tx)
    requires e.kind == Transaction.BLOCK_COMPENSATION_EVIDENCE && ApplyPair(env, c, f, w, e, i).Ok?
    ensures Acted(env, c, f.height, f.prior.activation, w, ApplyPair(env, c, f, w, e, i).value, [e, i])
  {
    var n := ApplyPair(env, c, f, w, e, i).value;
    assert n.lifecycle == w.lifecycle && n.contracts == w.contracts && i.kind == Transaction.ISSUANCE;
    assert [e] + [i] == [e, i];
    FlatConcat(ActionsIn(env, f.prior.activation, f.height), [e], [i]);
    FlatConcat(ContractsIn(env), [e], [i]);
    FlatOne(ActionsIn(env, f.prior.activation, f.height), e);
    FlatOne(ActionsIn(env, f.prior.activation, f.height), i);
    FlatOne(ContractsIn(env), e);
    FlatOne(ContractsIn(env), i);
    LifeNothing(env.lifecycle(c.roots, c.provider), w.lifecycle);
  }

  lemma TxsAct(env: Env, c: Context, f: Frame, w: Candidate, txs: seq<Tx>)
    requires StoresSound(env, c, w) && ApplyTxs(env, c, f, w, txs).Ok?
    ensures Acted(env, c, f.height, f.prior.activation, w, ApplyTxs(env, c, f, w, txs).value, txs)
  {
    var one, pair, h, k := OneOf(env, c, f), PairOf(env, c, f), f.height, f.prior.activation;
    var inv := (x: Candidate) => StoresSound(env, c, x);
    var rel := (x: Candidate, y: Candidate, a: seq<Tx>) => Acted(env, c, h, k, x, y, a);
    forall x, t: Tx | t.kind != Transaction.BLOCK_COMPENSATION_EVIDENCE && inv(x) && one(x, t).Ok?
      ensures inv(one(x, t).value) && rel(x, one(x, t).value, [t])
    {
      OneKeepsStores(env, c, f, x, t);
      OneActs(env, c, f, x, t);
    }
    forall x, e: Tx, i | e.kind == Transaction.BLOCK_COMPENSATION_EVIDENCE && inv(x) && pair(x, e, i).Ok?
      ensures inv(pair(x, e, i).value) && rel(x, pair(x, e, i).value, [e, i])
    {
      PairKeepsStores(env, c, f, x, e, i);
      PairActs(env, c, f, x, e, i);
    }
    forall x ensures rel(x, x, []) { ActedNothing(env, c, h, k, x); }
    forall x, y, z, a, b | rel(x, y, a) && rel(y, z, b) ensures rel(x, z, a + b) { ActedTwice(env, c, h, k, x, y, z, a, b); }
    ApplyIsApplyTxs(env, c, f, w, txs);
    ApplyRelates(one, pair, inv, rel, w, txs);
  }

  // ----------------------------------------------------------------- whole histories

  function Initial(env: Env, c: Context, room: nat): L.Paired {
    L.Initialize(env.lifecycle(c.roots, c.provider), if c.initials == [] then 0 else c.initials[0], c.initials, room, room)
  }

  /** Lifecycle and contracts are what this history's actions make of the initial stores. */
  ghost predicate ActedAll(env: Env, c: Context, blocks: seq<seq<byte>>, s: ChainState) {
    && LifeActed(env.lifecycle(c.roots, c.provider), Initial(env, c, 0), s.lifecycle, AllActions(env, s.activation, blocks))
    && ActAll(env.oracle, C.NO_CONTRACTS, ContractActions(env, AllTxs(env, blocks))) == Ok(s.contracts)
  }

  lemma InitialActed(env: Env, c: Context)
    requires Initialize(env, c).Ok?
    ensures ActedAll(env, c, [], Initialize(env, c).value)
  {
    LifeNothing(env.lifecycle(c.roots, c.provider), Initial(env, c, 0));
  }

  /** Cloning with more room changes nothing that is on record. */
  lemma OpenedLife(life: L.Env, s: ChainState, height: nat, txs: seq<Tx>)
    ensures LifeActed(life, s.lifecycle, OpenLifecycle(s, height, txs), [])
  {
    LR.PlaysNothing(life, s.lifecycle, OpenLifecycle(s, height, txs));
  }

  /** A block's body on top of what the history before it did. */
  lemma BodyActs(env: Env, c: Context, blocks: seq<seq<byte>>, s: ChainState, w: Candidate, n: Candidate, txs: seq<Tx>)
    requires ActedAll(env, c, blocks, s) && Acted(env, c, |blocks|, s.activation, w, n, txs)
    requires LifeActed(env.lifecycle(c.roots, c.provider), s.lifecycle, w.lifecycle, []) && w.contracts == s.contracts
    ensures var life := env.lifecycle(c.roots, c.provider);
      LifeActed(life, Initial(env, c, 0), n.lifecycle,
                AllActions(env, s.activation, blocks) + BodyActions(env, s.activation, |blocks|, txs))
    ensures ActAll(env.oracle, C.NO_CONTRACTS, ContractActions(env, AllTxs(env, blocks) + txs)) == Ok(n.contracts)
  {
    var life, actions := env.lifecycle(c.roots, c.provider), BodyActions(env, s.activation, |blocks|, txs);
    LifeTwice(life, s.lifecycle, w.lifecycle, n.lifecycle, [], actions);
    assert [] + actions == actions;
    LifeTwice(life, Initial(env, c, 0), s.lifecycle, n.lifecycle, AllActions(env, s.activation, blocks), actions);
    FlatConcat(ContractsIn(env), AllTxs(env, blocks), txs);
    ThroughSplits(Act(env.oracle), C.NO_CONTRACTS, ContractActions(env, AllTxs(env, blocks)), ContractActions(env, txs));
  }

  lemma SettledActs(env: Env, c: Context, blocks: seq<seq<byte>>, s: ChainState, b: seq<byte>, n: ChainState)
    requires StoresSound(env, c, Candidate(s.books, s.lifecycle, s.contracts)) && ActedAll(env, c, blocks, s)
    requires Settled(env, c, s, Some(blocks), b, n) && HeaderOf(env, b).height == |blocks|
    ensures ActedAll(env, c, blocks + [b], n)
  {
    var h, txs, life := |blocks|, TxsOf(env, b), env.lifecycle(c.roots, c.provider);
    var w, m := Open(s, h, txs), Candidate(n.books, n.lifecycle, n.contracts);
    OpenKeepsStores(env, c, s, h, txs);
    TxsAct(env, c, Frame(s, h, Some(blocks)), w, txs);
    OpenedLife(life, s, h, txs);
    BodyActs(env, c, blocks, s, w, m, txs);
    LastOf(blocks, b);
    SettledActivation(env, c, blocks, s, b, n);
  }

  lemma SettledActivation(env: Env, c: Context, blocks: seq<seq<byte>>, s: ChainState, b: seq<byte>, n: ChainState)
    requires Settled(env, c, s, Some(blocks), b, n)
    ensures n.activation == s.activation
  {
  }

  lemma AcceptedActs(env: Env, c: Context, blocks: seq<seq<byte>>)
    requires After(env, c, blocks).Accepted?
    ensures Reached(env, c, blocks, After(env, c, blocks).state) && ActedAll(env, c, blocks, After(env, c, blocks).state)
  {
    var inv := (h, s) => Reached(env, c, h, s) && ActedAll(env, c, h, s);
    if Start(env, c).Accepted? { InitialReached(env, c); InitialActed(env, c); }
    forall s, h, b | inv(h, s) && Extend(env, c)(s, h, b).Accepted? ensures inv(h + [b], Extend(env, c)(s, h, b).state) {
      StepReached(env, c, h, s, b);
      ValidateShape(env, c, s, Some(h), b);
      SettleShape(env, c, s, Some(h), b);
      SettledActs(env, c, h, s, b, Validate(env, c, s, Some(h), b).state);
    }
    FoldKeeps(Extend(env, c), Start(env, c), blocks, inv);
  }

  /** The lifecycle of an accepted history is the run of its actions from the initial state,
      each of them accepted, in a store with room for all; only the room differs. */
  lemma LifecycleIsRun(env: Env, c: Context, blocks: seq<seq<byte>>)
    requires After(env, c, blocks).Accepted?
    ensures var s, life := After(env, c, blocks).state, env.lifecycle(c.roots, c.provider);
      var actions := AllActions(env, s.activation, blocks);
      var start := Initial(env, c, |actions|);
      && LP.ApplyAll(life, start, actions).0 == L.Done
      && LR.Twin(s.lifecycle, LP.Run(life, start, actions))
  {
    AcceptedActs(env, c, blocks);
    var s, life := After(env, c, blocks).state, env.lifecycle(c.roots, c.provider);
    var actions := AllActions(env, s.activation, blocks);
    PlayedOut(life, Initial(env, c, 0), Initial(env, c, |actions|), s.lifecycle, actions);
  }

  lemma PlayedOut(life: L.Env, s: L.Paired, m: L.Paired, n: L.Paired, actions: seq<L.Action>)
    requires LR.Plays(life, s, n, actions) && LR.Twin(s, m) && LR.Spacious(m, |actions|)
    ensures LP.ApplyAll(life, m, actions).0 == L.Done && LR.Twin(n, LP.Run(life, m, actions))
  {
    assert LR.Spacious(m, 0 + |actions|) && LR.Ends(life, m, n, actions, 0);
    LR.AllAcceptedIsRun(life, m, actions);
  }

  /** What is on record after a history: its grants and rotations in order, the grants it
      revoked, and one replay identifier for each action, no two of them the same. */
  lemma LifecycleOnRecord(env: Env, c: Context, blocks: seq<seq<byte>>)
    requires After(env, c, blocks).Accepted?
    ensures var s := After(env, c, blocks).state;
      OnRecord(env.lifecycle(c.roots, c.provider), s.lifecycle, AllActions(env, s.activation, blocks))
  {
    AcceptedActs(env, c, blocks);
    var s, life := After(env, c, blocks).state, env.lifecycle(c.roots, c.provider);
    FromInitial(life, Initial(env, c, 0), s.lifecycle, AllActions(env, s.activation, blocks));
  }

  ghost predicate OnRecord(life: L.Env, s: L.State, actions: seq<L.Action>) {
    && s.grants == Flat(LR.GrantsIn, actions)
    && s.rotation.olds == Flat(LR.OldsIn, actions) && s.rotation.news == Flat(LR.NewsIn, actions)
    && (forall x :: x in s.revoked <==> x in Flat(LR.RevokedIn, actions))
    && s.replay.keys == Flat(LR.SpentIn(life), actions) && Replay.NoRepeats(s.replay.keys)
  }

  lemma FromInitial(life: L.Env, s: L.Paired, n: L.Paired, actions: seq<L.Action>)
    requires LR.Recorded(life, s, n, actions) && L.Coherent(life, n)
    requires s.grants == [] && s.revoked == [] && s.rotation.olds == [] && s.rotation.news == [] && s.replay.keys == []
    ensures OnRecord(life, n, actions)
  {
    assert [] + Flat(LR.GrantsIn, actions) == Flat(LR.GrantsIn, actions);
    assert [] + Flat(LR.OldsIn, actions) == Flat(LR.OldsIn, actions);
    assert [] + Flat(LR.NewsIn, actions) == Flat(LR.NewsIn, actions);
    assert [] + Flat(LR.SpentIn(life), actions) == Flat(LR.SpentIn(life), actions);
  }

  /** What an accepted action leaves in the final state of every longer history. */
  ghost predicate LeftBehind(life: L.Env, s: L.State, a: L.Action) {
    && (a.GrantAction? ==> a.grant in s.grants)
    && (a.RevokeAction? ==> a.revocation.grantId in s.revoked)
    && (a.RotateAction? ==> |s.rotation.olds| == |s.rotation.news| && Authority.Recorded(s.rotation, a.rotation))
    && LR.SpentBy(life, a).Some? && LR.SpentBy(life, a).value in s.replay.keys
  }

  /** Every lifecycle action of an accepted history is on record in its state, and no two of
      them, publications included, spent the same replay identifier. */
  lemma ActionsLeftBehind(env: Env, c: Context, blocks: seq<seq<byte>>)
    requires After(env, c, blocks).Accepted?
    ensures var s, life := After(env, c, blocks).state, env.lifecycle(c.roots, c.provider);
      var actions := AllActions(env, s.activation, blocks);
      && (forall i :: 0 <= i < |actions| ==> LeftBehind(life, s.lifecycle, actions[i]))
      && (forall i, j :: 0 <= i < j < |actions| ==> LR.SpentBy(life, actions[i]) != LR.SpentBy(life, actions[j]))
  {
    LifecycleIsRun(env, c, blocks);
    LifecycleOnRecord(env, c, blocks);
    var s, life := After(env, c, blocks).state, env.lifecycle(c.roots, c.provider);
    var actions := AllActions(env, s.activation, blocks);
    AllLeftBehind(life, Initial(env, c, |actions|), s.lifecycle, actions);
  }

  lemma AllLeftBehind(life: L.Env, start: L.Paired, s: L.Paired, actions: seq<L.Action>)
    requires LP.ApplyAll(life, start, actions).0 == L.Done && OnRecord(life, s, actions)
    ensures forall i :: 0 <= i < |actions| ==> LeftBehind(life, s, actions[i])
    ensures forall i, j :: 0 <= i < j < |actions| ==> LR.SpentBy(life, actions[i]) != LR.SpentBy(life, actions[j])
  {
    LR.AllSpend(life, start, actions);
    forall i | 0 <= i < |actions| ensures LeftBehind(life, s, actions[i]) { ActionListed(life, s, actions, i); }
    LR.SpentInOrder(life, actions);
  }

  lemma ActionListed(life: L.Env, s: L.Paired, actions: seq<L.Action>, i: nat)
    requires OnRecord(life, s, actions) && i < |actions| && LR.SpentBy(life, actions[i]).Some?
    ensures LeftBehind(life, s, actions[i])
  {
    var a := actions[i];
    LR.Listed(LR.SpentIn(life), actions, i, LR.SpentBy(life, a).value);
    match a
    case GrantAction(g) => LR.Listed(LR.GrantsIn, actions, i, g);
    case RevokeAction(r) => LR.Listed(LR.RevokedIn, actions, i, r.grantId);
    case RotateAction(r) => var k := LR.PairListed(actions, i);
    case PublishAction(_) =>
  }

  /** The contracts of an accepted history are the run of its contract actions from the empty
      store, none refused; who authorized each is told by `ChainEarnings`. */
  lemma ContractsAreRun(env: Env, c: Context, blocks: seq<seq<byte>>)
    requires After(env, c, blocks).Accepted?
    ensures var s, actions := After(env, c, blocks).state, ContractActions(env, AllTxs(env, blocks));
      ActAll(env.oracle, C.NO_CONTRACTS, actions) == Ok(s.contracts)
      && s.contracts == CP.Run(env.oracle, C.NO_CONTRACTS, Asked(actions))
  {
    AcceptedActs(env, c, blocks);
    ActAllIsRun(env.oracle, C.NO_CONTRACTS, ContractActions(env, AllTxs(env, blocks)));
  }
}
