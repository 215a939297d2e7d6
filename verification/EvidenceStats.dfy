/// The statistics shared by the causal and the dose summaries
/// (ops/locked_test_causal.py: _effect_payload, _ratio_for_decision, _nullable_median;
/// ops/locked_test_evaluate.py: _validated_ratio; numpy's median).

module EvidenceStats {
  import opened Wrappers
  import opened Numbers

  // An off-target ratio; infinite when the yaw effect is zero.
  datatype Ext = Finite(value: real) | Infinite

  predicate AtMost(a: Ext, b: Ext) {
    b.Infinite? || (a.Finite? && a.value <= b.value)
  }

  function Insert(x: Ext, s: seq<Ext>): seq<Ext> {
    if s != [] && !AtMost(s[|s| - 1], x) then Insert(x, s[..|s| - 1]) + [s[|s| - 1]] else s + [x]
  }

  function Sort(s: seq<Ext>): seq<Ext> {
    if s == [] then [] else Insert(s[|s| - 1], Sort(s[..|s| - 1]))
  }

  predicate Ascending(s: seq<Ext>) {
    forall i, j :: 0 <= i < j < |s| ==> AtMost(s[i], s[j])
  }

  lemma {:induction false} InsertMultiset(x: Ext, s: seq<Ext>)
    ensures multiset(Insert(x, s)) == multiset(s) + multiset{x}
  {
    if s != [] && !AtMost(s[|s| - 1], x) {
      InsertMultiset(x, s[..|s| - 1]);
      assert s == s[..|s| - 1] + [s[|s| - 1]];
    }
  }

  lemma {:induction false} InsertOk(x: Ext, s: seq<Ext>)
    requires Ascending(s)
    ensures Ascending(Insert(x, s))
    ensures forall y :: y in Insert(x, s) <==> y == x || y in s
  {
    if s != [] && !AtMost(s[|s| - 1], x) {
      var shorter, last := s[..|s| - 1], s[|s| - 1];
      InsertOk(x, shorter);
      assert s == shorter + [last];
      var t := Insert(x, shorter);
      forall i | 0 <= i < |t|
        ensures AtMost(t[i], last)
      {
        assert t[i] in t;
      }
    }
  }

  lemma {:induction false} SortOk(s: seq<Ext>)
    ensures multiset(Sort(s)) == multiset(s) && Ascending(Sort(s)) && |Sort(s)| == |s|
  {
    if s != [] {
      SortOk(s[..|s| - 1]);
      assert s == s[..|s| - 1] + [s[|s| - 1]];
      InsertOk(s[|s| - 1], Sort(s[..|s| - 1]));
      InsertMultiset(s[|s| - 1], Sort(s[..|s| - 1]));
    }
    assert |Sort(s)| == |multiset(Sort(s))| == |multiset(s)| == |s|;
  }

  function Middle(a: Ext, b: Ext): Ext {
    if a.Finite? && b.Finite? then Finite((a.value + b.value) / 2.0) else Infinite
  }

  function Median(values: seq<Ext>): Ext
    requires values != []
  {
    SortOk(values);
    var s, n := Sort(values), |values|;
    if n % 2 == 1 then s[n / 2] else Middle(s[n / 2 - 1], s[n / 2])
  }

  /// A median is finite and not negative when every value is; it is infinite only if some
  /// value is.
  lemma MedianRange(values: seq<Ext>)
    requires values != []
    ensures (forall v :: v in values ==> v.Finite?) ==> Median(values).Finite?
    ensures (forall v :: v in values ==> AtMost(Finite(0.0), v)) ==> AtMost(Finite(0.0), Median(values))
  {
    hide Sort;
    SortOk(values);
    var s := Sort(values);
    forall i | 0 <= i < |s|
      ensures s[i] in values
    {
      assert s[i] in multiset(s);
    }
  }

  lemma LastGreatest(a: seq<Ext>, x: Ext)
    requires a != [] && Ascending(a) && x in multiset(a)
    ensures AtMost(x, a[|a| - 1])
  {
    var k :| 0 <= k < |a| && a[k] == x;
  }

  lemma DropLast(a: seq<Ext>)
    requires a != []
    ensures multiset(a[..|a| - 1]) == multiset(a) - multiset{a[|a| - 1]}
  {
    assert a == a[..|a| - 1] + [a[|a| - 1]];
  }

  lemma SameLast(a: seq<Ext>, b: seq<Ext>)
    requires a != [] && b != [] && multiset(a) == multiset(b) && Ascending(a) && Ascending(b)
    ensures a[|a| - 1] == b[|b| - 1]
  {
    var x, y := a[|a| - 1], b[|b| - 1];
    assert x in multiset(a) && y in multiset(b);
    LastGreatest(a, y);
    LastGreatest(b, x);
  }

  lemma SameSize(a: seq<Ext>, b: seq<Ext>)
    requires multiset(a) == multiset(b)
    ensures |a| == |b|
  {
    assert |a| == |multiset(a)| == |multiset(b)| == |b|;
  }

  lemma ShorterAscending(a: seq<Ext>)
    requires a != [] && Ascending(a)
    ensures Ascending(a[..|a| - 1])
  {
  }

  lemma {:induction false} AscendingUnique(a: seq<Ext>, b: seq<Ext>)
    requires multiset(a) == multiset(b) && Ascending(a) && Ascending(b)
    ensures a == b
    decreases |a|
  {
    hide *;
    SameSize(a, b);
    if a != [] {
      SameLast(a, b);
      DropLast(a);
      DropLast(b);
      ShorterAscending(a);
      ShorterAscending(b);
      AscendingUnique(a[..|a| - 1], b[..|b| - 1]);
      assert a == a[..|a| - 1] + [a[|a| - 1]] && b == b[..|b| - 1] + [b[|b| - 1]];
    }
  }

  /// In ascending order, the median of an odd number of values is the one in the middle, and
  /// that of an even number the mean of the two middle ones, infinite if one of them is.
  lemma MedianInTheMiddle(values: seq<Ext>, s: seq<Ext>)
    requires values != [] && multiset(s) == multiset(values) && Ascending(s)
    ensures |s| == |values|
    ensures var n := |s|;
            && (n % 2 == 1 ==> Median(values) == s[n / 2])
            && (n % 2 == 0 ==>
                  var a, b := s[n / 2 - 1], s[n / 2];
                  if a.Finite? && b.Finite? then
                    Median(values).Finite? && 2.0 * Median(values).value == a.value + b.value
                  else Median(values) == Infinite)
  {
    hide Sort;
    SortOk(values);
    AscendingUnique(s, Sort(values));
  }

  function Finites(values: seq<real>): (r: seq<Ext>)
    ensures |r| == |values| && forall i :: 0 <= i < |r| ==> r[i] == Finite(values[i])
  {
    seq(|values|, i requires 0 <= i < |values| => Finite(values[i]))
  }

  function MedianOf(values: seq<real>): real
    requires values != []
  {
    MedianRange(Finites(values));
    Median(Finites(values)).value
  }

  // ---------------------------------------------------------------- counts and rates

  // The evaluator's `sum(...)` of booleans.
  function CountTrue(s: seq<bool>): nat {
    if s == [] then 0 else CountTrue(s[..|s| - 1]) + (if s[|s| - 1] then 1 else 0)
  }

  lemma {:induction false} CountAtMost(s: seq<bool>)
    ensures CountTrue(s) <= |s|
  {
    if s != [] {
      CountAtMost(s[..|s| - 1]);
    }
  }

  // The evaluator's `sum(...) / len(...)`.
  function Rate(s: seq<bool>): (r: real)
    requires s != []
    ensures 0.0 <= r <= 1.0
  {
    CountAtMost(s);
    CountTrue(s) as real / |s| as real
  }

  // The producer's `np.count_nonzero`.
  function CountNonzero(s: seq<bool>): nat {
    |set i | 0 <= i < |s| && s[i]|
  }

  lemma {:induction false} CountsAgree(s: seq<bool>)
    ensures CountNonzero(s) == CountTrue(s)
  {
    if s != [] {
      var shorter, last := s[..|s| - 1], |s| - 1;
      CountsAgree(shorter);
      var before := set i | 0 <= i < |shorter| && shorter[i];
      assert (set i | 0 <= i < |s| && s[i]) == if s[last] then before + {last} else before;
    }
  }

  function Total(s: seq<bool>): real {
    if s == [] then 0.0 else (if s[0] then 1.0 else 0.0) + Total(s[1..])
  }

  // The producer's `np.mean`.
  function Mean(s: seq<bool>): real
    requires s != []
  {
    Total(s) / |s| as real
  }

  lemma {:induction false} TotalSplit(s: seq<bool>, last: bool)
    ensures Total(s + [last]) == Total(s) + if last then 1.0 else 0.0
  {
    if s == [] {
      assert s + [last] == [last];
    } else {
      assert (s + [last])[1..] == s[1..] + [last];
      TotalSplit(s[1..], last);
    }
  }

  lemma {:induction false} TotalIsCount(s: seq<bool>)
    ensures Total(s) == CountTrue(s) as real
  {
    if s != [] {
      TotalIsCount(s[..|s| - 1]);
      TotalSplit(s[..|s| - 1], s[|s| - 1]);
      assert s == s[..|s| - 1] + [s[|s| - 1]];
    }
  }

  lemma MeanIsRate(s: seq<bool>)
    requires s != []
    ensures Mean(s) == Rate(s)
  {
    TotalIsCount(s);
  }

  // ---------------------------------------------------------------- ratios in JSON

  datatype RatioStatus = FiniteRatio | ZeroYawEffect | NoValidPairs

  datatype Encoded = Encoded(value: Option<real>, status: RatioStatus)

  function Encode(ratio: Ext): Encoded {
    match ratio
    case Finite(x) => Encoded(Some(x), FiniteRatio)
    case Infinite => Encoded(None, ZeroYawEffect)
  }

  function RatioForDecision(e: Encoded): Ext {
    match e.value
    case Some(x) => Finite(x)
    case None => Infinite
  }

  function NullableMedian(values: seq<Ext>): Encoded {
    if values == [] then Encoded(None, NoValidPairs) else Encode(Median(values))
  }

  // The evaluator's reading; None where it raises.
  function ValidatedRatio(e: Encoded): Option<Ext> {
    match (e.status, e.value)
    case (FiniteRatio, Some(x)) => if x >= 0.0 then Some(Finite(x)) else None
    case (ZeroYawEffect, None) => Some(Infinite)
    case _ => None
  }

  predicate RatioAgrees(observed: Ext, expected: Ext) {
    observed == expected || (observed.Finite? && expected.Finite? && CloseTo(observed.value, expected.value))
  }

  predicate RateAgrees(observed: Option<real>, expected: real) {
    observed.Some? && CloseTo(observed.value, expected)
  }

  /// What the producer writes for a ratio the evaluator reads back unchanged.
  lemma RatioRoundTrip(ratio: Ext)
    ensures ValidatedRatio(Encode(ratio)).Some? <==> AtMost(Finite(0.0), ratio)
    ensures AtMost(Finite(0.0), ratio) ==> ValidatedRatio(Encode(ratio)) == Some(ratio)
    ensures RatioForDecision(Encode(ratio)) == ratio
  {
  }

  // And whatever is read was written for some ratio.
  lemma RatioProducible(e: Encoded)
    requires ValidatedRatio(e).Some?
    ensures AtMost(Finite(0.0), ValidatedRatio(e).value) && e == Encode(ValidatedRatio(e).value)
  {
  }

  lemma ReadAlike(e: Encoded)
    requires ValidatedRatio(e).Some?
    ensures RatioForDecision(e) == ValidatedRatio(e).value && AtMost(Finite(0.0), RatioForDecision(e))
  {
  }
}
