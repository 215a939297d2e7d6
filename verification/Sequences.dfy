// Facts about sequences that several modules use.
module Sequences {

  type Byte = x: nat | x < 256
  type Bytes = seq<Byte>

  predicate Distinct<T(==)>(s: seq<T>) {
    forall i, j :: 0 <= i < j < |s| ==> s[i] != s[j]
  }

  lemma TailDistinct<T>(s: seq<T>)
    requires s != [] && Distinct(s)
    ensures Distinct(s[1..])
  {
  }

  // A sequence without its `k`-th element.
  function Without<T>(s: seq<T>, k: nat): (r: seq<T>)
    requires k < |s|
    ensures |r| == |s| - 1
  {
    s[..k] + s[k + 1..]
  }

  lemma TakeOut<T>(s: seq<T>, k: nat)
    requires k < |s|
    ensures multiset(Without(s, k)) == multiset(s) - multiset{s[k]}
  {
    assert s == s[..k] + ([s[k]] + s[k + 1..]);
  }

  function Elements<T>(s: seq<T>): set<T> {
    set x | x in s
  }

  // `len(set(s)) == len(s)`
  lemma {:induction false} DistinctExactly<T>(s: seq<T>)
    ensures Distinct(s) <==> |Elements(s)| == |s|
    ensures |Elements(s)| <= |s|
  {
    if s != [] {
      var shorter, last := s[..|s| - 1], s[|s| - 1];
      DistinctExactly(shorter);
      assert s == shorter + [last];
      assert Elements(s) == Elements(shorter) + {last};
    }
  }
}
