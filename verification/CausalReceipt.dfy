/// The causal summary and its separately written recomputation
/// (ops/locked_test_causal.py: random_control_distribution, summarize_causal_evidence;
/// ops/locked_test_evaluate.py: the row loop and summary checks of
/// _validate_causal_receipt; the flags of src/mech_int_vla/causal.py: off_manifold_flag,
/// compare_random_controls).
///
/// A row is valid when it carries results.  The percentile and the cluster bootstrap are
/// parameters: both sides call the same library function on what must be the same list.

module CausalReceipt {
  import opened Wrappers
  import opened Numbers
  import opened Sequences
  import opened EvidenceStats
  import PairEligibility
  import PairPlan

  const CONTROLS: nat := 1000

  datatype Control = Control(index: int, effect: real)

  datatype Results = Results(
    sign: bool, effect: real, ratio: Encoded, distance: real, natural: real, off: bool,
    matchedAngle: real, matchedSign: bool, controls: seq<Control>)

  // `angle` is null exactly for the filler slots.
  datatype Evidence = Evidence(seed: nat, cell: nat, base: int, angle: Option<real>, results: Option<Results>)

  datatype Interval = Interval(
    estimate: real, lower: real, upper: real, confidence: real, replicates: int, clusters: int, seed: int)

  datatype Stats = Stats(percentile: seq<real> -> real, bootstrap: (seq<bool>, seq<int>) -> Interval)

  datatype Status = Complete | Inconclusive

  datatype Summary = Summary(
    status: Status, attempted: nat, valid: nat, signCount: nat, signRate: Option<real>,
    interval: Option<Interval>, medianEffect: Option<real>, medianRatio: Encoded,
    offRate: Option<real>, matchedRate: Option<real>, percentile95: Option<real>,
    randomPasses: bool, specificityPasses: bool, signPasses: bool,
    positiveSeeds: nat, seedsStable: bool)

  // ---------------------------------------------------------------- the rows as lists

  function Map<A, B>(s: seq<A>, f: A -> B): (r: seq<B>)
    ensures |r| == |s| && forall i :: 0 <= i < |s| ==> r[i] == f(s[i])
  {
    seq(|s|, i requires 0 <= i < |s| => f(s[i]))
  }

  function Valid(rows: seq<Evidence>): (r: seq<Evidence>)
    ensures forall i :: 0 <= i < |r| ==> r[i].results.Some?
  {
    if rows == [] then []
    else Valid(rows[..|rows| - 1]) + (if rows[|rows| - 1].results.Some? then [rows[|rows| - 1]] else [])
  }

  // What either side keeps of a valid row.
  datatype Entry = Entry(
    sign: bool, effect: real, ratio: Ext, off: bool, matched: bool, base: int, seed: nat, controls: seq<real>)

  function OfSeed(entries: seq<Entry>, seed: nat): seq<Entry> {
    if entries == [] then []
    else OfSeed(entries[..|entries| - 1], seed)
         + (if entries[|entries| - 1].seed == seed then [entries[|entries| - 1]] else [])
  }

  function Signs(e: seq<Entry>): seq<bool> { Map(e, (x: Entry) => x.sign) }

  function Effects(e: seq<Entry>): seq<real> { Map(e, (x: Entry) => x.effect) }

  function Ratios(e: seq<Entry>): seq<Ext> { Map(e, (x: Entry) => x.ratio) }

  function Offs(e: seq<Entry>): seq<bool> { Map(e, (x: Entry) => x.off) }

  function Matches(e: seq<Entry>): seq<bool> { Map(e, (x: Entry) => x.matched) }

  function Bases(e: seq<Entry>): seq<int> { Map(e, (x: Entry) => x.base) }

  function Column(e: seq<Entry>, k: nat): (r: seq<real>)
    requires forall i :: 0 <= i < |e| ==> |e[i].controls| == CONTROLS
    requires k < CONTROLS
    ensures |r| == |e|
  {
    seq(|e|, i requires 0 <= i < |e| => e[i].controls[k])
  }

  // The producer's median over the pairs, control by control.
  function Pooled(e: seq<Entry>): seq<real>
    requires e != [] && forall i :: 0 <= i < |e| ==> |e[i].controls| == CONTROLS
  {
    seq(CONTROLS, k requires 0 <= k < CONTROLS => MedianOf(Column(e, k)))
  }

  // How many of the first `n` pairing seeds have rows with a positive median effect.
  function PositiveSeeds(e: seq<Entry>, n: nat): nat
    requires n <= |PairPlan.SEEDS|
  {
    if n == 0 then 0
    else
      var mine := OfSeed(e, PairPlan.SEEDS[n - 1]);
      PositiveSeeds(e, n - 1) + (if mine != [] && MedianOf(Effects(mine)) > 0.0 then 1 else 0)
  }

  // ---------------------------------------------------------------- the producer

  function EffectList(controls: seq<Control>): (r: seq<real>)
    ensures |r| == |controls|
  {
    Map(controls, (c: Control) => c.effect)
  }

  function ProducedEntry(row: Evidence): Entry
    requires row.results.Some?
  {
    var x := row.results.value;
    var controls := EffectList(x.controls);
    Entry(x.sign, x.effect, RatioForDecision(x.ratio), x.off, x.matchedSign, row.base, row.seed, controls)
  }

  predicate ControlsComplete(controls: seq<Control>) {
    |controls| == CONTROLS && forall k :: 0 <= k < CONTROLS ==> controls[k].index == k
  }

  // `list(range(n))`
  function Range(n: nat): (r: seq<int>)
    ensures |r| == n && forall k :: 0 <= k < n ==> r[k] == k
  {
    seq(n, k requires 0 <= k < n => k)
  }

  // The producer compares the list of indices; the evaluator goes through them one by one.
  predicate InOrder(controls: seq<Control>): (inOrder: bool)
    ensures inOrder <==> ControlsComplete(controls)
  {
    var indices := Map(controls, (c: Control) => c.index);
    assert |controls| == CONTROLS && (forall k :: 0 <= k < CONTROLS ==> controls[k].index == k) ==>
        indices == Range(CONTROLS);
    assert indices == Range(CONTROLS) ==> forall k :: 0 <= k < |controls| ==> controls[k].index == indices[k] == k;
    |controls| == CONTROLS && indices == Range(CONTROLS)
  }

  datatype SummaryError = ControlsMisordered

  function Entries(rows: seq<Evidence>): (r: seq<Entry>)
    ensures |r| == |Valid(rows)| && forall i :: 0 <= i < |r| ==> r[i] == ProducedEntry(Valid(rows)[i])
  {
    var valid := Valid(rows);
    seq(|valid|, i requires 0 <= i < |valid| => ProducedEntry(valid[i]))
  }

  const NOTHING := Summary(
    Inconclusive, 60, 0, 0, None, None, None, Encoded(None, NoValidPairs), None, None, None,
    false, false, false, 0, false)

  function SummaryOf(e: seq<Entry>, stats: Stats): Summary
    requires e != [] && forall i :: 0 <= i < |e| ==> |e[i].controls| == CONTROLS
  {
    var median, ratio, p95 := MedianOf(Effects(e)), NullableMedian(Ratios(e)), stats.percentile(Pooled(e));
    var interval := if |Elements(Bases(e))| >= 2 then Some(stats.bootstrap(Signs(e), Bases(e))) else None;
    var seeds := PositiveSeeds(e, 3);
    Summary(
      if |e| >= 30 then Complete else Inconclusive, 60, |e|, CountNonzero(Signs(e)), Some(Mean(Signs(e))),
      interval, Some(median), ratio, Some(Mean(Offs(e))), Some(Mean(Matches(e))), Some(p95),
      StrictlyGreater(median, p95),
      ratio.value.Some? && ratio.value.value <= 0.25,
      interval.Some? && interval.value.estimate > 0.5 && interval.value.lower > 0.5,
      seeds, seeds >= 2)
  }

  function Summarize(rows: seq<Evidence>, stats: Stats): Result<Summary, SummaryError> {
    var valid := Valid(rows);
    if valid == [] then Ok(NOTHING)
    else if exists i :: 0 <= i < |valid| && !InOrder(valid[i].results.value.controls)
    then Err(ControlsMisordered)
    else Ok(SummaryOf(Entries(rows), stats))
  }

  // ---------------------------------------------------------------- the evaluator

  // Its effects are one list of all control effects per row, kept beside the rows.
  function Matrix(e: seq<Entry>): (m: seq<seq<real>>)
    ensures |m| == |e| && forall i :: 0 <= i < |m| ==> m[i] == e[i].controls
  {
    Map(e, (x: Entry) => x.controls)
  }

  // `column[k]` of every row
  function Nth(m: seq<seq<real>>, k: nat): (r: seq<real>)
    requires forall i :: 0 <= i < |m| ==> k < |m[i]|
    ensures |r| == |m| && forall i :: 0 <= i < |m| ==> r[i] == m[i][k]
  {
    if m == [] then [] else [m[0][k]] + Nth(m[1..], k)
  }

  // The medians of the first `n` columns.
  function Columns(m: seq<seq<real>>, n: nat): (r: seq<real>)
    requires m != [] && forall i :: 0 <= i < |m| ==> n <= |m[i]|
  {
    if n == 0 then [] else Columns(m, n - 1) + [MedianOf(Nth(m, n - 1))]
  }

  // `np.median(m, axis=0)`
  function ColumnMedians(m: seq<seq<real>>): seq<real>
    requires m != [] && forall i :: 0 <= i < |m| ==> |m[i]| == |m[0]|
  {
    Columns(m, |m[0]|)
  }

  predicate AnyOfSeed(e: seq<Entry>, seed: nat) {
    exists i :: 0 <= i < |e| && e[i].seed == seed
  }

  // [row["effect"] for row in valid_rows if row["seed"] == seed]
  function SeedEffects(e: seq<Entry>, seed: nat): (r: seq<real>)
    ensures AnyOfSeed(e, seed) ==> r != []
  {
    if e == [] then []
    else if e[0].seed == seed then [e[0].effect] + SeedEffects(e[1..], seed)
    else SeedEffects(e[1..], seed)
  }

  function CountedSeeds(e: seq<Entry>, n: nat): nat
    requires n <= |PairPlan.SEEDS|
  {
    if n == 0 then 0
    else
      var seed := PairPlan.SEEDS[n - 1];
      CountedSeeds(e, n - 1) + (if AnyOfSeed(e, seed) && MedianOf(SeedEffects(e, seed)) > 0.0 then 1 else 0)
  }

  // What the evaluator demands of the results of a valid row.
  predicate ResultsAccepted(x: Results) {
    && ValidatedRatio(x.ratio).Some?
    && x.distance >= 0.0 && x.natural >= 0.0 && x.off == (x.distance > x.natural)
    && 0.0 <= x.matchedAngle < 5.0
    && ControlsComplete(x.controls)
  }

  predicate RowAccepted(row: Evidence, i: nat)
    requires i < 60
  {
    && row.seed == PairPlan.SEEDS[i / 20] && row.cell < 8
    && (row.angle.Some? ==> 30.0 <= row.angle.value <= 90.0)
    && (row.results.Some? ==> row.angle.Some? && ResultsAccepted(row.results.value))
  }

  function ReadEntry(row: Evidence): Entry
    requires row.results.Some? && ValidatedRatio(row.results.value.ratio).Some?
  {
    var x := row.results.value;
    var controls := EffectList(x.controls);
    Entry(x.sign, x.effect, ValidatedRatio(x.ratio).value, x.off, x.matchedSign, row.base, row.seed, controls)
  }

  predicate IntervalAgrees(observed: Interval, expected: Interval) {
    && CloseTo(observed.estimate, expected.estimate) && CloseTo(observed.lower, expected.lower)
    && CloseTo(observed.upper, expected.upper) && CloseTo(observed.confidence, expected.confidence)
    && observed.replicates == expected.replicates && observed.clusters == expected.clusters
    && observed.seed == expected.seed
  }

  predicate SummaryAccepted(e: seq<Entry>, s: Summary, stats: Stats)
    requires forall i :: 0 <= i < |e| ==> |e[i].controls| == CONTROLS
  {
    && s.status == (if |e| < 30 then Inconclusive else Complete)
    && s.attempted == 60 && s.valid == |e|
    && s.signCount == CountTrue(Signs(e))
    && if e == [] then s == NOTHING else FullSummaryAccepted(e, s, stats)
  }

  predicate FullSummaryAccepted(e: seq<Entry>, s: Summary, stats: Stats)
    requires e != [] && forall i :: 0 <= i < |e| ==> |e[i].controls| == CONTROLS
  {
    var several := |Elements(Bases(e))| >= 2;
    var interval := stats.bootstrap(Signs(e), Bases(e));
    var effect, ratio, p95 := MedianOf(Effects(e)), Median(Ratios(e)), stats.percentile(ColumnMedians(Matrix(e)));
    var observed := ValidatedRatio(s.medianRatio);
    && RateAgrees(s.signRate, Rate(Signs(e))) && 0.0 <= s.signRate.value <= 1.0
    && (if several then s.interval.Some? && IntervalAgrees(s.interval.value, interval) else s.interval.None?)
    && RateAgrees(s.medianEffect, effect)
    && observed.Some? && RatioAgrees(observed.value, ratio)
    && RateAgrees(s.offRate, Rate(Offs(e))) && RateAgrees(s.matchedRate, Rate(Matches(e)))
    && RateAgrees(s.percentile95, p95)
    && s.randomPasses == (effect > p95)
    && s.specificityPasses == AtMost(ratio, Finite(0.25))
    && s.signPasses == (several && interval.estimate > 0.5 && interval.lower > 0.5)
    && s.seedsStable == (CountedSeeds(e, 3) >= 2)
    && s.positiveSeeds == CountedSeeds(e, 3)
  }

  // Every row passes, and the summary is that of the rows as the evaluator reads them.
  ghost predicate Accepts(rows: seq<Evidence>, s: Summary, stats: Stats) {
    && |rows| == 60
    && (forall i :: 0 <= i < 60 ==> RowAccepted(rows[i], i))
    && SummaryAccepted(Read(rows), s, stats)
  }

  ghost function Read(rows: seq<Evidence>): (r: seq<Entry>)
    requires forall i :: 0 <= i < |rows| ==> rows[i].results.Some? ==> ResultsAccepted(rows[i].results.value)
    ensures forall i :: 0 <= i < |r| ==> |r[i].controls| == CONTROLS
  {
    if rows == [] then []
    else
      var last := rows[|rows| - 1];
      assert last.results.Some? ==> ResultsAccepted(last.results.value);
      Read(rows[..|rows| - 1]) + (if last.results.Some? then [ReadEntry(last)] else [])
  }

  /// The row loop and then the summary checks.
  method ValidateCausal(rows: seq<Evidence>, s: Summary, stats: Stats) returns (accepted: bool)
    ensures accepted <==> Accepts(rows, s, stats)
  {
    hide SummaryAccepted;
    if |rows| != 60 {
      return false;
    }
    var valid: seq<Entry> := [];
    var i := 0;
    while i < |rows|
      invariant 0 <= i <= 60
      invariant forall k :: 0 <= k < i ==> RowAccepted(rows[k], k)
      invariant valid == Read(rows[..i])
    {
      if !RowAccepted(rows[i], i) {
        return false;
      }
      assert rows[..i + 1][..i] == rows[..i];
      if rows[i].results.Some? {
        valid := valid + [ReadEntry(rows[i])];
      }
      i := i + 1;
    }
    assert rows[..60] == rows;
    return SummaryAccepted(valid, s, stats);
  }

  // ---------------------------------------------------------------- do they agree?

  // A row as the producer leaves it: pairs within the tolerances of pair_eligibility, the
  // off-manifold flag of off_manifold_flag, all controls in order.
  ghost predicate Produced(row: Evidence, i: nat)
    requires i < 60
  {
    && row.seed == PairPlan.SEEDS[i / 20] && row.cell < 8
    && (row.angle.Some? ==> !PairEligibility.AngleExcluded(row.angle.value, PairEligibility.Confirmatory))
    && (row.results.Some? ==>
          var x := row.results.value;
          && row.angle.Some? && (exists ratio :: AtMost(Finite(0.0), ratio) && x.ratio == Encode(ratio))
          && x.distance >= 0.0 && x.natural >= 0.0 && x.off == StrictlyGreater(x.distance, x.natural)
          && x.matchedAngle >= 0.0 && !PairEligibility.AngleExcluded(x.matchedAngle, PairEligibility.MatchedControl)
          && InOrder(x.controls))
  }

  // Above the threshold, but not by more than the producer's tolerance.
  predicate InBand(x: real, threshold: real) {
    x > threshold && Close(x, threshold)
  }

  // A pair angle that only the tolerance of pair_eligibility admits, or an off-manifold
  // distance in the band.
  predicate Borderline(row: Evidence) {
    || (row.angle.Some? && !(30.0 <= row.angle.value <= 90.0))
    || (row.results.Some? && InBand(row.results.value.distance, row.results.value.natural))
  }

  lemma EntriesComplete(rows: seq<Evidence>)
    requires forall i :: 0 <= i < |Valid(rows)| ==> ControlsComplete(Valid(rows)[i].results.value.controls)
    ensures forall i :: 0 <= i < |Entries(rows)| ==> |Entries(rows)[i].controls| == CONTROLS
  {
    hide Valid;
    var e := Entries(rows);
    forall i | 0 <= i < |e|
      ensures |e[i].controls| == CONTROLS
    {
      assert ControlsComplete(Valid(rows)[i].results.value.controls);
    }
  }

  // The median effect is in the band above the 95th percentile of the random controls.
  predicate BorderlineEffect(rows: seq<Evidence>, stats: Stats)
    requires forall i :: 0 <= i < |Valid(rows)| ==> ControlsComplete(Valid(rows)[i].results.value.controls)
  {
    var e := Entries(rows);
    EntriesComplete(rows);
    e != [] && InBand(MedianOf(Effects(e)), stats.percentile(Pooled(e)))
  }

  lemma RowAcceptedExactly(row: Evidence, i: nat)
    requires i < 60 && Produced(row, i)
    ensures RowAccepted(row, i) <==> !Borderline(row)
  {
    if row.results.Some? {
      var ratio :| AtMost(Finite(0.0), ratio) && row.results.value.ratio == Encode(ratio);
      RatioRoundTrip(ratio);
    }
  }

  // A pair angle or a distance that only the producer tolerates, or a control angle that
  // only the evaluator does.
  predicate Tolerated(row: Evidence) {
    || (row.angle.Some? && row.angle.value < 30.0 && Close(row.angle.value, 30.0))
    || (row.angle.Some? && row.angle.value > 90.0 && Close(row.angle.value, 90.0))
    || (row.results.Some? && InBand(row.results.value.distance, row.results.value.natural))
    || (row.results.Some? && row.results.value.matchedAngle < 5.0 && Close(row.results.value.matchedAngle, 5.0))
  }

  /// Outside the tolerances the evaluator accepts exactly the rows a producer can leave.
  lemma RowsAgree(row: Evidence, i: nat)
    requires i < 60 && !Tolerated(row)
    ensures RowAccepted(row, i) <==> Produced(row, i)
  {
    if row.results.Some? {
      if ValidatedRatio(row.results.value.ratio).Some? {
        RatioProducible(row.results.value.ratio);
      }
      if ratio :| AtMost(Finite(0.0), ratio) && row.results.value.ratio == Encode(ratio) {
        RatioRoundTrip(ratio);
      }
    }
  }

  lemma {:induction false} ValidOk(rows: seq<Evidence>)
    requires forall i :: 0 <= i < |rows| ==> rows[i].results.Some? ==> ResultsAccepted(rows[i].results.value)
    ensures forall i :: 0 <= i < |Valid(rows)| ==> ResultsAccepted(Valid(rows)[i].results.value)
    ensures Read(rows) == Entries(rows)
  {
    hide ResultsAccepted;
    if rows != [] {
      var shorter, last := rows[..|rows| - 1], rows[|rows| - 1];
      ValidOk(shorter);
      if last.results.Some? {
        SameEntry(last);
      }
    }
  }

  lemma SameEntry(row: Evidence)
    requires row.results.Some? && ResultsAccepted(row.results.value)
    ensures ReadEntry(row) == ProducedEntry(row)
  {
    ReadAlike(row.results.value.ratio);
  }

  lemma ColumnAlike(e: seq<Entry>, k: nat)
    requires e != [] && (forall i :: 0 <= i < |e| ==> |e[i].controls| == CONTROLS) && k < CONTROLS
    ensures MedianOf(Nth(Matrix(e), k)) == Pooled(e)[k]
  {
    hide MedianOf;
    assert Nth(Matrix(e), k) == Column(e, k);
  }

  lemma {:induction false} ColumnsAlike(e: seq<Entry>, n: nat)
    requires e != [] && (forall i :: 0 <= i < |e| ==> |e[i].controls| == CONTROLS) && n <= CONTROLS
    ensures Columns(Matrix(e), n) == Pooled(e)[..n]
  {
    hide MedianOf, Nth, Matrix;
    if n > 0 {
      ColumnsAlike(e, n - 1);
      ColumnAlike(e, n - 1);
      assert Pooled(e)[..n] == Pooled(e)[..n - 1] + [Pooled(e)[n - 1]];
    }
  }

  lemma PooledAlike(e: seq<Entry>)
    requires e != [] && forall i :: 0 <= i < |e| ==> |e[i].controls| == CONTROLS
    ensures ColumnMedians(Matrix(e)) == Pooled(e)
  {
    hide Columns, MedianOf;
    ColumnsAlike(e, |Matrix(e)[0]|);
    assert Pooled(e)[..|Pooled(e)|] == Pooled(e);
  }

  lemma {:induction false} FrontSeed(x: Entry, e: seq<Entry>, seed: nat)
    ensures OfSeed([x] + e, seed) == (if x.seed == seed then [x] else []) + OfSeed(e, seed)
  {
    if e == [] {
      assert [x] + e == [x];
      assert [x][..0] == [];
    } else {
      var shorter := e[..|e| - 1];
      FrontSeed(x, shorter, seed);
      assert ([x] + e)[..|e|] == [x] + shorter;
    }
  }

  // Picking the effects of a seed's rows is picking its rows first.
  lemma {:induction false} SeedAlike(e: seq<Entry>, seed: nat)
    ensures SeedEffects(e, seed) == Effects(OfSeed(e, seed))
    ensures AnyOfSeed(e, seed) <==> OfSeed(e, seed) != []
  {
    if e != [] {
      var rest := e[1..];
      SeedAlike(rest, seed);
      FrontSeed(e[0], rest, seed);
      assert e == [e[0]] + rest;
      assert AnyOfSeed(e, seed) <==> e[0].seed == seed || AnyOfSeed(rest, seed) by {
        if AnyOfSeed(e, seed) && e[0].seed != seed {
          var i :| 0 <= i < |e| && e[i].seed == seed;
          assert rest[i - 1] == e[i];
        }
        if AnyOfSeed(rest, seed) {
          var i :| 0 <= i < |rest| && rest[i].seed == seed;
          assert e[i + 1] == rest[i];
        }
      }
    }
  }

  lemma {:induction false} SeedsAlike(e: seq<Entry>, n: nat)
    requires n <= |PairPlan.SEEDS|
    ensures CountedSeeds(e, n) == PositiveSeeds(e, n)
  {
    hide MedianOf, OfSeed, SeedEffects, AnyOfSeed;
    if n > 0 {
      SeedsAlike(e, n - 1);
      SeedAlike(e, PairPlan.SEEDS[n - 1]);
    }
  }

  // Each side's own way of counting and averaging.
  lemma FormsAgree(e: seq<Entry>)
    requires e != [] && forall i :: 0 <= i < |e| ==> |e[i].controls| == CONTROLS
    ensures CountNonzero(Signs(e)) == CountTrue(Signs(e)) && Mean(Signs(e)) == Rate(Signs(e))
    ensures Mean(Offs(e)) == Rate(Offs(e)) && Mean(Matches(e)) == Rate(Matches(e))
    ensures ColumnMedians(Matrix(e)) == Pooled(e) && CountedSeeds(e, 3) == PositiveSeeds(e, 3)
  {
    CountsAgree(Signs(e));
    MeanIsRate(Signs(e));
    MeanIsRate(Offs(e));
    MeanIsRate(Matches(e));
    PooledAlike(e);
    SeedsAlike(e, 3);
  }

  // The recomputation agrees with the summary except on the random-control flag, where
  // one side tolerates and the other does not.
  lemma SummaryAcceptedExactly(e: seq<Entry>, stats: Stats)
    requires e != [] && forall i :: 0 <= i < |e| ==> |e[i].controls| == CONTROLS
    requires forall i :: 0 <= i < |e| ==> AtMost(Finite(0.0), e[i].ratio)
    ensures SummaryAccepted(e, SummaryOf(e, stats), stats)
            <==> !InBand(MedianOf(Effects(e)), stats.percentile(Pooled(e)))
  {
    hide MedianOf, Median, PositiveSeeds, CountedSeeds, Rate, Mean, CountTrue, CountNonzero, CloseTo;
    hide Pooled, ColumnMedians, Matrix, Close;
    FormsAgree(e);
    forall x: real
      ensures CloseTo(x, x)
    {
      CloseToItself(x);
    }
    assert Ratios(e) != [];
    MedianRange(Ratios(e));
    RatioRoundTrip(Median(Ratios(e)));
  }

  /// The evaluator accepts what the producer wrote if and only if no quantity lies inside
  /// a tolerance that only the producer grants: no pair angle outside [30, 90], no 5-NN
  /// distance and no median effect just above its threshold.
  lemma AcceptedExactly(rows: seq<Evidence>, stats: Stats)
    requires |rows| == 60 && forall i :: 0 <= i < 60 ==> Produced(rows[i], i)
    ensures forall i :: 0 <= i < |Valid(rows)| ==> ControlsComplete(Valid(rows)[i].results.value.controls)
    ensures Summarize(rows, stats).Ok?
    ensures Accepts(rows, Summarize(rows, stats).value, stats)
            <==> (forall i :: 0 <= i < 60 ==> !Borderline(rows[i])) && !BorderlineEffect(rows, stats)
  {
    hide Borderline, Produced, SummaryOf, SummaryAccepted, InBand, MedianOf, Pooled;
    ValidComplete(rows);
    forall i | 0 <= i < 60
      ensures RowAccepted(rows[i], i) <==> !Borderline(rows[i])
    {
      RowAcceptedExactly(rows[i], i);
    }
    if forall i :: 0 <= i < 60 ==> !Borderline(rows[i]) {
      ValidOk(rows);
      var e := Entries(rows);
      if e == [] {
        NothingAccepted(stats);
      } else {
        forall i | 0 <= i < |e|
          ensures AtMost(Finite(0.0), e[i].ratio)
        {
          ReadAlike(Valid(rows)[i].results.value.ratio);
        }
        SummaryAcceptedExactly(e, stats);
      }
    } else {
      assert !(forall i :: 0 <= i < 60 ==> RowAccepted(rows[i], i));
    }
  }

  lemma {:induction false} ValidComplete(rows: seq<Evidence>)
    requires |rows| <= 60 && forall i :: 0 <= i < |rows| ==> Produced(rows[i], i)
    ensures forall i :: 0 <= i < |Valid(rows)| ==> ControlsComplete(Valid(rows)[i].results.value.controls)
  {
    if rows != [] {
      ValidComplete(rows[..|rows| - 1]);
    }
  }

  predicate BothClose(a: Option<real>, b: Option<real>) {
    (a.None? && b.None?) || (a.Some? && b.Some? && CloseTo(a.value, b.value))
  }

  predicate SameInterval(a: Option<Interval>, b: Option<Interval>) {
    || (a.None? && b.None?)
    || (a.Some? && b.Some?
        && CloseTo(a.value.estimate, b.value.estimate) && CloseTo(a.value.lower, b.value.lower)
        && CloseTo(a.value.upper, b.value.upper) && CloseTo(a.value.confidence, b.value.confidence)
        && a.value.replicates == b.value.replicates && a.value.clusters == b.value.clusters
        && a.value.seed == b.value.seed)
  }

  // Equal up to the evaluator's tolerance on rates, medians and interval bounds, and up to
  // the random-control flag.
  predicate SameSummary(x: Summary, y: Summary) {
    && x.status == y.status && x.attempted == y.attempted && x.valid == y.valid && x.signCount == y.signCount
    && BothClose(x.signRate, y.signRate) && SameInterval(x.interval, y.interval)
    && BothClose(x.medianEffect, y.medianEffect)
    && x.medianRatio.status == y.medianRatio.status && BothClose(x.medianRatio.value, y.medianRatio.value)
    && BothClose(x.offRate, y.offRate) && BothClose(x.matchedRate, y.matchedRate)
    && BothClose(x.percentile95, y.percentile95)
    && x.specificityPasses == y.specificityPasses && x.signPasses == y.signPasses
    && x.positiveSeeds == y.positiveSeeds && x.seedsStable == y.seedsStable
  }

  lemma AcceptedSummary(e: seq<Entry>, s: Summary, stats: Stats)
    requires e != [] && forall i :: 0 <= i < |e| ==> |e[i].controls| == CONTROLS
    requires forall i :: 0 <= i < |e| ==> AtMost(Finite(0.0), e[i].ratio)
    requires SummaryAccepted(e, s, stats)
    ensures SameSummary(s, SummaryOf(e, stats)) && 0.0 <= s.signRate.value <= 1.0
    ensures s.randomPasses == (MedianOf(Effects(e)) > stats.percentile(Pooled(e)))
  {
    hide MedianOf, Median, PositiveSeeds, CountedSeeds, Rate, Mean, CountTrue, CountNonzero, CloseTo;
    hide Pooled, ColumnMedians, Matrix, Close;
    FormsAgree(e);
    forall x: real
      ensures CloseTo(x, x)
    {
      CloseToItself(x);
    }
    assert Ratios(e) != [];
    MedianRange(Ratios(e));
  }

  /// And nothing else passes: an accepted summary is the one the producer writes of these
  /// rows, up to the evaluator's tolerance on real numbers; its random-control flag is the
  /// strict comparison.
  lemma OnlyProducedAccepted(rows: seq<Evidence>, s: Summary, stats: Stats)
    requires Accepts(rows, s, stats)
    ensures Summarize(rows, stats).Ok? && SameSummary(s, Summarize(rows, stats).value)
    ensures var e := Read(rows);
            if e == [] then s == NOTHING else s.randomPasses == (MedianOf(Effects(e)) > stats.percentile(Pooled(e)))
    ensures s.signRate.Some? ==> 0.0 <= s.signRate.value <= 1.0
  {
    ValidOk(rows);
    hide SummaryOf, SameSummary, SummaryAccepted, MedianOf, Pooled, Read, RowAccepted;
    var e := Read(rows);
    if e == [] {
      NothingSame();
      EmptyAccepted(s, stats);
    } else {
      forall i | 0 <= i < |e|
        ensures AtMost(Finite(0.0), e[i].ratio)
      {
        ReadAlike(Valid(rows)[i].results.value.ratio);
      }
      AcceptedSummary(e, s, stats);
    }
  }

  lemma NothingSame()
    ensures SameSummary(NOTHING, NOTHING)
  {
  }

  lemma EmptyAccepted(s: Summary, stats: Stats)
    requires SummaryAccepted([], s, stats)
    ensures s == NOTHING
  {
  }

  lemma NothingAccepted(stats: Stats)
    ensures SummaryAccepted([], NOTHING, stats)
  {
  }

  // ---------------------------------------------------------------- rows that are refused

  function Slots(first: Evidence): (r: seq<Evidence>)
    ensures |r| == 60 && r[0] == first
    ensures forall i :: 1 <= i < 60 ==> r[i] == Evidence(PairPlan.SEEDS[i / 20], 0, 0, None, None)
  {
    seq(60, i requires 0 <= i < 60 => if i == 0 then first else Evidence(PairPlan.SEEDS[i / 20], 0, 0, None, None))
  }

  function SomeResults(distance: real): Results {
    Results(true, 1.0, Encode(Finite(0.0)), distance, 1.0, false, 0.0, true,
            seq(CONTROLS, k requires 0 <= k < CONTROLS => Control(k, 0.0)))
  }

  // A patched distance half a tolerance above the natural one.
  const FAR := Evidence(PairPlan.SEEDS[0], 0, 0, Some(45.0), Some(SomeResults(1.0 + TINY / 2.0)))

  // A pair half a tolerance short of 30 degrees.
  const NEAR := Evidence(PairPlan.SEEDS[0], 0, 0, Some(30.0 - TINY / 2.0), Some(SomeResults(0.5)))

  lemma FarTolerated()
    ensures Produced(FAR, 0) && Borderline(FAR)
  {
    assert FAR.results.value.ratio == Encode(Finite(0.0));
    assert AtMost(Finite(0.0), Finite(0.0));
  }

  lemma NearTolerated()
    ensures Produced(NEAR, 0) && Borderline(NEAR)
  {
    assert NEAR.results.value.ratio == Encode(Finite(0.0));
    assert AtMost(Finite(0.0), Finite(0.0));
  }

  lemma BorderlineRefused(first: Evidence, stats: Stats)
    requires Produced(first, 0) && Borderline(first)
    ensures forall i :: 0 <= i < 60 ==> Produced(Slots(first)[i], i)
    ensures Summarize(Slots(first), stats).Ok?
    ensures !Accepts(Slots(first), Summarize(Slots(first), stats).value, stats)
  {
    hide Borderline, Summarize, Accepts, BorderlineEffect;
    var rows := Slots(first);
    forall i | 1 <= i < 60
      ensures Produced(rows[i], i)
    {
      assert rows[i].angle.None? && rows[i].results.None?;
    }
    AcceptedExactly(rows, stats);
    assert Borderline(rows[0]);
  }

  /// Rows the producer writes and the evaluator refuses.
  lemma ToleratedThenRefused(stats: Stats)
    ensures forall i :: 0 <= i < 60 ==> Produced(Slots(FAR)[i], i) && Produced(Slots(NEAR)[i], i)
    ensures Summarize(Slots(FAR), stats).Ok? && Summarize(Slots(NEAR), stats).Ok?
    ensures !Accepts(Slots(FAR), Summarize(Slots(FAR), stats).value, stats)
    ensures !Accepts(Slots(NEAR), Summarize(Slots(NEAR), stats).value, stats)
  {
    hide *;
    FarTolerated();
    BorderlineRefused(FAR, stats);
    NearTolerated();
    BorderlineRefused(NEAR, stats);
  }
}
