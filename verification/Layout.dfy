/** Fixed-width wire layouts: a record is the concatenation of fields of known widths,
    each read at the offset where the previous one ends. */
module Layout {
  import opened BigEndian

  function Sum(widths: seq<nat>): nat {
    if widths == [] then 0 else widths[0] + Sum(widths[1..])
  }

  function Join(fields: seq<seq<byte>>): seq<byte> {
    if fields == [] then [] else fields[0] + Join(fields[1..])
  }

  ghost predicate Fits(fields: seq<seq<byte>>, widths: seq<nat>) {
    |fields| == |widths| && forall k :: 0 <= k < |widths| ==> |fields[k]| == widths[k]
  }

  function Cut(b: seq<byte>, widths: seq<nat>): (fields: seq<seq<byte>>)
    requires |b| == Sum(widths)
    ensures Fits(fields, widths)
  {
    if widths == [] then [] else [b[..widths[0]]] + Cut(b[widths[0]..], widths[1..])
  }

  lemma {:induction false} JoinLength(fields: seq<seq<byte>>, widths: seq<nat>)
    requires Fits(fields, widths)
    ensures |Join(fields)| == Sum(widths)
  {
    if widths != [] { JoinLength(fields[1..], widths[1..]); }
  }

  lemma {:induction false} JoinOfCut(b: seq<byte>, widths: seq<nat>)
    requires |b| == Sum(widths)
    ensures Join(Cut(b, widths)) == b
  {
    if widths != [] {
      var fields := Cut(b, widths);
      assert fields[1..] == Cut(b[widths[0]..], widths[1..]);
      JoinOfCut(b[widths[0]..], widths[1..]);
    }
  }

  lemma {:induction false} CutOfJoin(fields: seq<seq<byte>>, widths: seq<nat>)
    requires Fits(fields, widths)
    ensures |Join(fields)| == Sum(widths)
    ensures Cut(Join(fields), widths) == fields
  {
    JoinLength(fields, widths);
    if widths != [] {
      CutOfJoin(fields[1..], widths[1..]);
      assert Join(fields)[..widths[0]] == fields[0];
      assert Join(fields)[widths[0]..] == Join(fields[1..]);
    }
  }

  /** A field of `n` bytes holding an integer below 256^n reads back as that integer. */
  lemma Field(n: nat, v: nat)
    requires n <= 8 && v < Pow256(n)
    ensures Value(Bytes(n, v)) == v
  {
    ValueOfBytes(n, v);
  }
}
