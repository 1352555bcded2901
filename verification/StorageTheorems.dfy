/** The store over the real chain validator. */
module StorageTheorems {
  import opened BigEndian
  import opened Status
  import opened Hashing
  import Pow
  import opened Chain
  import opened ChainHeaders
  import opened ChainHistory
  import opened ChainTheorems
  import opened Fork
  import opened StorageFormat
  import opened Storage
  import opened ChainSteps

  function CoreOf(env: Env, c: Context): Core {
    Core(RebuildIn(env, c), IdentifyIn(env, c), Initialize(env, c),
         (s: ChainState, b: seq<byte>) => Validate(env, c, s, None, b),
         (b: seq<byte>) => Digest(env.hash, c.provider, Domain.Storage, b),
         c.bootstrap.Some?)
  }

  lemma RuledIsSized(env: Env, c: Context, x: seq<seq<byte>>)
    requires AllRules(env, c, x)
    ensures AllSized(x)
  {
    forall i | 0 <= i < |x| ensures Sized(x[i]) {
      assert BlockRule(env, c, x, i);
      DecodableIsSized(env, x[i]);
    }
  }

  lemma DecodableIsSized(env: Env, b: seq<byte>)
    requires DecodeBlock(env, b).Ok?
    ensures Sized(b)
  {
  }

  lemma LongerHasMoreWork(env: Env, c: Context, x: seq<seq<byte>>, b: seq<byte>)
    requires c.bootstrap.Some? && Reconstruct(env, c, x).Accepted? && Reconstruct(env, c, x + [b]).Accepted?
    ensures WorkOf(Reconstruct(env, c, x)) < WorkOf(Reconstruct(env, c, x + [b]))
  {
    HistoryFacts(env, c, x);
    HistoryFacts(env, c, x + [b]);
    TotalStep(env, x, b);
    assert BlockRule(env, c, x + [b], |x|);
    LastTargetIsValid(env, c, x + [b]);
    assert (x + [b])[|x|] == b;
    Pow.UnitWorkBounds(TargetOf(env, b));
  }

  lemma LastTargetIsValid(env: Env, c: Context, x: seq<seq<byte>>)
    requires c.bootstrap.Some? && Reconstruct(env, c, x).Accepted?
    ensures x != [] && Pow.ValidTarget(TargetOf(env, x[|x| - 1]))
  {
    AcceptedIsReached(env, c, x);
  }

  /** Under proof of work the chain is all the store relies on, so every guarantee of module
      Storage holds of the real validator. */
  lemma ChainIsReliable(env: Env, c: Context)
    requires c.bootstrap.Some?
    ensures Reliable(CoreOf(env, c))
  {
    var core := CoreOf(env, c);
    forall x | core.rebuild(x).Accepted? ensures AllSized(x) {
      HistoryFacts(env, c, x);
      RuledIsSized(env, c, x);
    }
    forall x, b ensures Rises(core.rebuild, x, b) {
      if core.rebuild(x).Accepted? && core.rebuild(x + [b]).Accepted? { LongerHasMoreWork(env, c, x, b); }
    }
  }

  /** Comparing header-level fields is enough: two accepted histories whose states agree on
      them are the same history, so everything behind the states agrees too. */
  lemma StateEqualIsSameHistory(env: Env, c: Context, x: seq<seq<byte>>, y: seq<seq<byte>>)
    requires NoCollisions(env, c, x, y) && Reconstruct(env, c, x).Accepted? && Reconstruct(env, c, y).Accepted?
    requires StateEqual(Reconstruct(env, c, x).state, Reconstruct(env, c, y).state)
    ensures x == y && Reconstruct(env, c, x) == Reconstruct(env, c, y)
  {
    HistoryFacts(env, c, x);
    HistoryFacts(env, c, y);
    TipIdentity(env, c, x);
    TipIdentity(env, c, y);
    var n := |x| - 1;
    assert BlockRule(env, c, x, n) && BlockRule(env, c, y, n);
    assert BlocksApart(env, c, x[n], y[n]);
    SameBlock(env, c, x[n], y[n]);
    SamePrefix(env, c, x, y, n);
    assert x == x[..n + 1] && y == y[..n + 1];
  }

  lemma TipIdentity(env: Env, c: Context, x: seq<seq<byte>>)
    requires Reconstruct(env, c, x).Accepted?
    ensures x != [] && IdOf(env, c.provider, x[|x| - 1]) == Ok(Reconstruct(env, c, x).state.tipId)
  {
    AcceptedIsReached(env, c, x);
  }

  /** Over every interleaving of nodes with provider failures, a store that starts absent or
      valid holds the encoding of a history the chain validator accepts. */
  lemma StoreHoldsAcceptedHistory(env: Env, c: Context, w: World, events: seq<Event>)
    requires c.bootstrap.Some? && DiskOk(CoreOf(env, c), w.disk)
    ensures var d := Run(CoreOf(env, c), w, events).disk;
      d == Empty
      || exists x :: Reconstruct(env, c, x).Accepted? && Encode(CoreOf(env, c), x, |d.bytes|) == Fine(d.bytes)
  {
    var core := CoreOf(env, c);
    ChainIsReliable(env, c);
    RunKeeps(core, w, events);
    var d := Run(core, w, events).disk;
    if d != Empty {
      var v := Decode(core, d.bytes).value;
      DecodeMeans(core, d.bytes);
      EncodeDecode(core, d.bytes, |d.bytes|);
      assert Reconstruct(env, c, v.blocks).Accepted?;
    }
  }
}
