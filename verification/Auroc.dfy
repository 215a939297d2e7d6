/// The weighted area under the ROC curve, swept once over blocks of tied scores
/// (ops/locked_test_evaluate.py, _weighted_auroc).  Floats are reals here.

module Auroc {
  import opened Wrappers
  import opened Sequences

  // Outcome labels other than 1 and 0 belong to neither class.
  datatype Row = Row(score: real, outcome: int, weight: real)

  datatype AurocError = MissingClass

  // ---------------------------------------------------------------- sums

  function Sum(rows: seq<Row>, f: Row -> real): real {
    if rows == [] then 0.0 else Sum(rows[..|rows| - 1], f) + f(rows[|rows| - 1])
  }

  lemma {:induction false} SumAppends(a: seq<Row>, b: seq<Row>, f: Row -> real)
    ensures Sum(a + b, f) == Sum(a, f) + Sum(b, f)
  {
    if b == [] {
      assert a + b == a;
    } else {
      assert (a + b)[..|a + b| - 1] == a + b[..|b| - 1];
      SumAppends(a, b[..|b| - 1], f);
    }
  }

  lemma SumOne(x: Row, f: Row -> real)
    ensures Sum([x], f) == f(x)
  {
    assert [x][..0] == [];
    assert Sum([x][..0], f) == 0.0;
  }

  lemma SumNothing(f: Row -> real)
    ensures Sum([], f) == 0.0
  {
  }

  lemma {:induction false} SumScales(rows: seq<Row>, f: Row -> real, g: Row -> real, c: real)
    requires forall x :: x in rows ==> f(x) == c * g(x)
    ensures Sum(rows, f) == c * Sum(rows, g)
  {
    if rows != [] {
      SumScales(rows[..|rows| - 1], f, g, c);
      Distribute(c, Sum(rows[..|rows| - 1], g), g(rows[|rows| - 1]));
    }
  }

  lemma Distribute(c: real, x: real, y: real)
    ensures c * (x + y) == c * x + c * y
  {
  }

  lemma {:induction false} SumBounds(rows: seq<Row>, f: Row -> real, g: Row -> real)
    requires forall x :: x in rows ==> 0.0 <= f(x) <= g(x)
    ensures 0.0 <= Sum(rows, f) <= Sum(rows, g)
  {
    if rows != [] {
      SumBounds(rows[..|rows| - 1], f, g);
    }
  }

  lemma SumThree(a: seq<Row>, x: Row, b: seq<Row>, f: Row -> real)
    ensures Sum(a + ([x] + b), f) == Sum(a + b, f) + f(x)
  {
    hide Sum;
    SumAppends(a, [x] + b, f);
    SumAppends([x], b, f);
    SumAppends(a, b, f);
    SumOne(x, f);
  }

  lemma SumWithout(s: seq<Row>, k: nat, f: Row -> real)
    requires k < |s|
    ensures Sum(s, f) == Sum(Without(s, k), f) + f(s[k])
  {
    hide Sum;
    SumThree(s[..k], s[k], s[k + 1..], f);
    assert s == s[..k] + ([s[k]] + s[k + 1..]);
  }

  lemma {:induction false} SumPermutes(a: seq<Row>, b: seq<Row>, f: Row -> real)
    requires multiset(a) == multiset(b)
    ensures Sum(a, f) == Sum(b, f)
    decreases |a|
  {
    hide Sum, Without;
    if a == [] {
      assert |multiset(b)| == 0;
      assert a == b;
    } else {
      assert a[0] in multiset(b);
      var k :| 0 <= k < |b| && b[k] == a[0];
      TakeOut(a, 0);
      TakeOut(b, k);
      SumPermutes(Without(a, 0), Without(b, k), f);
      SumWithout(a, 0, f);
      SumWithout(b, k, f);
    }
  }

  // ---------------------------------------------------------------- the simple form

  const POSITIVE := (x: Row) => if x.outcome == 1 then x.weight else 0.0
  const NEGATIVE := (x: Row) => if x.outcome == 0 then x.weight else 0.0

  // How much the negative `y` counts for the positive `x`: whole when it scores lower,
  // half on a tie.
  function Beaten(x: Row): Row -> real {
    (y: Row) => if y.outcome != 0 || y.score > x.score then 0.0
         else if y.score == x.score then 0.5 * y.weight else y.weight
  }

  function Credit(rows: seq<Row>): Row -> real {
    (x: Row) => if x.outcome == 1 then x.weight * Sum(rows, Beaten(x)) else 0.0
  }

  // The sum over all positive/negative pairs.
  function Concordance(rows: seq<Row>): real {
    Sum(rows, Credit(rows))
  }

  function Pairwise(rows: seq<Row>): Result<real, AurocError> {
    var p, n := Sum(rows, POSITIVE), Sum(rows, NEGATIVE);
    if p <= 0.0 || n <= 0.0 then Err(MissingClass)
    else Ok(Share(Concordance(rows), p, n))
  }

  function Share(concordance: real, p: real, n: real): real
    requires p > 0.0 && n > 0.0
  {
    Product(p, n);
    concordance / (p * n)
  }

  lemma Product(p: real, n: real)
    requires p > 0.0 && n > 0.0
    ensures p * n > 0.0
  {
  }

  lemma ShareDivides(concordance: real, p: real, n: real)
    requires p > 0.0 && n > 0.0
    ensures Share(concordance, p, n) * (p * n) == concordance
  {
    Product(p, n);
    Divides(concordance, p * n);
  }

  lemma Divides(c: real, d: real)
    requires d > 0.0
    ensures c / d * d == c
  {
  }

  lemma OnlyShare(v: real, w: real, d: real)
    requires d > 0.0 && v * d == w * d
    ensures v == w
  {
    assert v == v * d / d && w == w * d / d;
  }

  // ---------------------------------------------------------------- what the sum means

  // The value is the sum over all pairs, shared out over the weight of all pairs.
  ghost predicate IsAuroc(rows: seq<Row>, value: real) {
    value * (Sum(rows, POSITIVE) * Sum(rows, NEGATIVE)) == Concordance(rows)
  }

  predicate AllAbove(rows: seq<Row>) {
    forall x, y :: x in rows && y in rows && x.outcome == 1 && y.outcome == 0 ==> x.score > y.score
  }

  predicate AllBelow(rows: seq<Row>) {
    forall x, y :: x in rows && y in rows && x.outcome == 1 && y.outcome == 0 ==> x.score < y.score
  }

  predicate AllTied(rows: seq<Row>) {
    forall x, y :: x in rows && y in rows && x.outcome == 1 && y.outcome == 0 ==> x.score == y.score
  }

  // When every negative counts the same for every positive.
  lemma EvenCredit(rows: seq<Row>, share: real)
    requires forall x, y :: x in rows && y in rows && x.outcome == 1 ==> Beaten(x)(y) == share * NEGATIVE(y)
    ensures Concordance(rows) == share * (Sum(rows, POSITIVE) * Sum(rows, NEGATIVE))
  {
    hide Sum;
    var n := Sum(rows, NEGATIVE);
    forall x | x in rows
      ensures Credit(rows)(x) == (share * n) * POSITIVE(x)
    {
      if x.outcome == 1 {
        SumScales(rows, Beaten(x), NEGATIVE, share);
      }
    }
    SumScales(rows, Credit(rows), POSITIVE, share * n);
    Regroup(share, n, Sum(rows, POSITIVE));
  }

  lemma Regroup(a: real, b: real, c: real)
    ensures (a * b) * c == a * (c * b)
  {
  }

  /// All positives above all negatives give 1, all below give 0, all tied a half.
  lemma Extremes(rows: seq<Row>)
    requires Pairwise(rows).Ok?
    ensures AllAbove(rows) ==> Pairwise(rows).value == 1.0
    ensures AllBelow(rows) ==> Pairwise(rows).value == 0.0
    ensures AllTied(rows) ==> Pairwise(rows).value == 0.5
  {
    hide Sum, Share;
    var p, n := Sum(rows, POSITIVE), Sum(rows, NEGATIVE);
    ShareDivides(Concordance(rows), p, n);
    Product(p, n);
    var v := Pairwise(rows).value;
    if AllAbove(rows) {
      EvenCredit(rows, 1.0);
      OnlyShare(v, 1.0, p * n);
    }
    if AllBelow(rows) {
      EvenCredit(rows, 0.0);
      OnlyShare(v, 0.0, p * n);
    }
    if AllTied(rows) {
      EvenCredit(rows, 0.5);
      OnlyShare(v, 0.5, p * n);
    }
  }

  lemma ConcordanceSame(a: seq<Row>, b: seq<Row>)
    requires multiset(a) == multiset(b)
    ensures Concordance(a) == Concordance(b)
  {
    hide Sum;
    forall x | x in a
      ensures Credit(a)(x) == 1.0 * Credit(b)(x)
    {
      SumPermutes(a, b, Beaten(x));
    }
    SumScales(a, Credit(a), Credit(b), 1.0);
    SumPermutes(a, b, Credit(b));
  }

  /// The order of the rows, ties included, does not matter.
  lemma OrderIrrelevant(a: seq<Row>, b: seq<Row>)
    requires multiset(a) == multiset(b)
    ensures Pairwise(a) == Pairwise(b)
  {
    hide Sum, Share;
    SumPermutes(a, b, POSITIVE);
    SumPermutes(a, b, NEGATIVE);
    ConcordanceSame(a, b);
  }

  /// With weights that are not negative the value is a proportion.
  lemma BetweenZeroAndOne(rows: seq<Row>)
    requires forall x :: x in rows ==> x.weight >= 0.0
    ensures Pairwise(rows).Ok? ==> 0.0 <= Pairwise(rows).value <= 1.0
  {
    hide Sum;
    var p, n := Sum(rows, POSITIVE), Sum(rows, NEGATIVE);
    var bound := (x: Row) => n * POSITIVE(x);
    forall x | x in rows
      ensures 0.0 <= Credit(rows)(x) <= bound(x)
    {
      SumBounds(rows, Beaten(x), NEGATIVE);
      if x.outcome == 1 {
        Monotone(x.weight, Sum(rows, Beaten(x)), n);
      }
    }
    SumBounds(rows, Credit(rows), bound);
    SumScales(rows, bound, POSITIVE, n);
    if p > 0.0 && n > 0.0 {
      ShareBounds(Concordance(rows), p, n);
    }
  }

  lemma Monotone(w: real, s: real, n: real)
    requires w >= 0.0 && 0.0 <= s <= n
    ensures 0.0 <= w * s <= n * w
  {
  }

  lemma ShareBounds(c: real, p: real, n: real)
    requires p > 0.0 && n > 0.0 && 0.0 <= c <= n * p
    ensures 0.0 <= Share(c, p, n) <= 1.0
  {
    Product(p, n);
    Quotient(c, p * n);
  }

  lemma Quotient(c: real, d: real)
    requires d > 0.0 && 0.0 <= c <= d
    ensures 0.0 <= c / d <= 1.0
  {
  }

  // ---------------------------------------------------------------- the sweep

  predicate Ascending(rows: seq<Row>) {
    forall i, j :: 0 <= i < j < |rows| ==> rows[i].score <= rows[j].score
  }

  // Rows below the block, in it and above it.
  lemma CreditInBlock(low: seq<Row>, block: seq<Row>, high: seq<Row>, x: Row)
    requires forall y :: y in low ==> y.score < x.score
    requires forall y :: y in block ==> y.score == x.score
    requires forall y :: y in high ==> y.score > x.score
    ensures Sum(low + block + high, Beaten(x)) == Sum(low, NEGATIVE) + 0.5 * Sum(block, NEGATIVE)
  {
    hide Sum;
    SumAppends(low + block, high, Beaten(x));
    SumAppends(low, block, Beaten(x));
    SumScales(low, Beaten(x), NEGATIVE, 1.0);
    SumScales(block, Beaten(x), NEGATIVE, 0.5);
    SumScales(high, Beaten(x), NEGATIVE, 0.0);
  }

  lemma BlockCredit(low: seq<Row>, block: seq<Row>, high: seq<Row>, score: real)
    requires forall y :: y in low ==> y.score < score
    requires forall y :: y in block ==> y.score == score
    requires forall y :: y in high ==> y.score > score
    ensures Sum(block, Credit(low + block + high))
            == (Sum(low, NEGATIVE) + 0.5 * Sum(block, NEGATIVE)) * Sum(block, POSITIVE)
  {
    hide Sum;
    var all, c := low + block + high, Sum(low, NEGATIVE) + 0.5 * Sum(block, NEGATIVE);
    forall x | x in block
      ensures Credit(all)(x) == c * POSITIVE(x)
    {
      CreditInBlock(low, block, high, x);
    }
    SumScales(block, Credit(all), POSITIVE, c);
  }

  lemma ExtendSum(rows: seq<Row>, i: nat, j: nat, f: Row -> real)
    requires i <= j <= |rows|
    ensures Sum(rows[..j], f) == Sum(rows[..i], f) + Sum(rows[i..j], f)
  {
    hide Sum;
    assert rows[..j] == rows[..i] + rows[i..j];
    SumAppends(rows[..i], rows[i..j], f);
  }

  lemma BlockOf(rows: seq<Row>, i: nat, j: nat)
    requires Ascending(rows) && i < j <= |rows|
    requires i > 0 ==> rows[i - 1].score < rows[i].score
    requires forall k :: i <= k < j ==> rows[k].score == rows[i].score
    requires j < |rows| ==> rows[j].score != rows[i].score
    ensures Sum(rows[i..j], Credit(rows))
            == (Sum(rows[..i], NEGATIVE) + 0.5 * Sum(rows[i..j], NEGATIVE)) * Sum(rows[i..j], POSITIVE)
    ensures j < |rows| ==> rows[j - 1].score < rows[j].score
  {
    hide Sum;
    assert rows == rows[..i] + rows[i..j] + rows[j..];
    BlockCredit(rows[..i], rows[i..j], rows[j..], rows[i].score);
  }

  /// `ordered` is what the sort returns: any ascending arrangement of the rows.  One pass
  /// over its blocks computes the sum over all pairs.
  method WeightedAuroc(rows: seq<Row>, ordered: seq<Row>) returns (r: Result<real, AurocError>)
    requires multiset(ordered) == multiset(rows) && Ascending(ordered)
    ensures r.Ok? <==> Sum(rows, POSITIVE) > 0.0 && Sum(rows, NEGATIVE) > 0.0
    ensures r.Ok? ==> IsAuroc(rows, r.value)
    ensures r.Err? ==> r.error == MissingClass
    ensures r == Pairwise(rows)
  {
    hide Sum, Share;
    SumNothing(NEGATIVE);
    SumNothing(Credit(ordered));
    OrderIrrelevant(rows, ordered);
    ConcordanceSame(rows, ordered);
    SumPermutes(rows, ordered, POSITIVE);
    SumPermutes(rows, ordered, NEGATIVE);
    var positiveWeight, negativeWeight := Sum(rows, POSITIVE), Sum(rows, NEGATIVE);
    if positiveWeight <= 0.0 || negativeWeight <= 0.0 {
      return Err(MissingClass);
    }
    var concordance, negativeBelow, index := 0.0, 0.0, 0;
    while index < |ordered|
      invariant 0 <= index <= |ordered|
      invariant 0 < index < |ordered| ==> ordered[index - 1].score < ordered[index].score
      invariant negativeBelow == Sum(ordered[..index], NEGATIVE)
      invariant concordance == Sum(ordered[..index], Credit(ordered))
    {
      var stop := index + 1;
      while stop < |ordered| && ordered[stop].score == ordered[index].score
        invariant index < stop <= |ordered|
        invariant forall k :: index <= k < stop ==> ordered[k].score == ordered[index].score
      {
        stop := stop + 1;
      }
      var tiedPositive, tiedNegative := Sum(ordered[index..stop], POSITIVE), Sum(ordered[index..stop], NEGATIVE);
      BlockOf(ordered, index, stop);
      ExtendSum(ordered, index, stop, NEGATIVE);
      ExtendSum(ordered, index, stop, Credit(ordered));
      concordance := concordance + tiedPositive * (negativeBelow + 0.5 * tiedNegative);
      negativeBelow := negativeBelow + tiedNegative;
      index := stop;
    }
    assert ordered[..index] == ordered;
    ShareDivides(concordance, positiveWeight, negativeWeight);
    return Ok(Share(concordance, positiveWeight, negativeWeight));
  }
}
