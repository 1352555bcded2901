/** The consumed-key list updated in place: an array with a count. */
module ReplayState {
  import R = Replay

  class ReplayState<K(==,0)> {
    var consumed: array<K>
    var count: nat

    ghost predicate Valid()
      reads this
    {
      count <= consumed.Length
    }

    function View(): R.Consumed<K>
      requires count <= consumed.Length
      reads this, consumed
    {
      R.Consumed(consumed[..count], consumed.Length)
    }

    /** A fresh copy with room for `slack` further keys. */
    constructor (c: R.Consumed<K>, slack: nat)
      ensures Valid() && fresh(consumed)
      ensures View() == R.Consumed(c.keys, |c.keys| + slack)
    {
      count := |c.keys|;
      consumed := new K[|c.keys| + slack];
      new;
      for i := 0 to |c.keys|
        invariant consumed.Length == |c.keys| + slack && count == |c.keys|
        invariant fresh(consumed) && consumed[..i] == c.keys[..i]
      {
        consumed[i] := c.keys[i];
      }
    }

    method Check(k: K) returns (known: bool)
      requires Valid()
      ensures known <==> k in View().keys
    {
      for i := 0 to count
        invariant k !in consumed[..i]
      {
        if consumed[i] == k {
          assert consumed[..count][i] == k;
          return true;
        }
      }
      known := false;
    }

    /** A struct assignment: the other list's keys and count. */
    method Assign(source: ReplayState<K>)
      requires Valid() && source.Valid() && source != this
      requires source.consumed != consumed && source.consumed.Length == consumed.Length
      modifies this`count, consumed
      ensures Valid() && View() == old(source.View())
    {
      for i := 0 to source.count
        invariant consumed[..i] == source.consumed[..i]
      {
        consumed[i] := source.consumed[i];
      }
      count := source.count;
    }

    /** Scan, then append: a repeated key or a full list leaves everything as it was. */
    method Consume(k: K) returns (result: R.Use<()>)
      requires Valid()
      modifies this`count, consumed
      ensures Valid()
      ensures match R.Consume(old(View()), k)
        case Fresh(next) => result.Fresh? && View() == next
        case Repeated => result.Repeated? && View() == old(View())
        case Full => result.Full? && View() == old(View())
    {
      var known := Check(k);
      if known { return R.Repeated; }
      if count == consumed.Length { return R.Full; }
      consumed[count] := k;
      count := count + 1;
      result := R.Fresh(R.Consumed([], 0));
    }
  }
}
