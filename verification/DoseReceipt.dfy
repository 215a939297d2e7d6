/// The dose summary and its separately written recomputation
/// (ops/locked_test_causal.py, summarize_dose_evidence; ops/locked_test_evaluate.py, the
/// row and item loops of _validate_sensitivity_receipt).

module DoseReceipt {
  import opened Wrappers
  import opened Numbers
  import opened EvidenceStats
  import PairPlan

  const ALPHAS: seq<real> := [0.5, 1.0]

  datatype AlphaRow = AlphaRow(alpha: real, sign: bool, effect: real, ratio: Encoded)

  // The evidence of one pair; a valid one carries its two doses.
  datatype Dose = Dose(seed: nat, cell: nat, alphas: Option<seq<AlphaRow>>)

  // One dose in one condition.
  datatype Item = Item(
    alpha: real, cell: nat, indices: seq<nat>, valid: nat, signCount: nat, signRate: Option<real>,
    medianEffect: Option<real>, medianRatio: Encoded, specific: bool)

  // ---------------------------------------------------------------- the producer

  // What the policy runs at one dose gave.
  datatype Entry = Entry(sign: bool, effect: real, ratio: Ext)

  // The evidence written for pair `i`: one row for every dose, in order, when it is valid.
  function DoseEvidence(i: nat, cell: nat, outcomes: Option<(Entry, Entry)>): Dose
    requires i < 60
  {
    Dose(PairPlan.SEEDS[i / 20], cell,
         match outcomes
         case None => None
         case Some((half, whole)) => Some([AlphaRowOf(0.5, half), AlphaRowOf(1.0, whole)]))
  }

  function AlphaRowOf(alpha: real, x: Entry): AlphaRow {
    AlphaRow(alpha, x.sign, x.effect, Encode(x.ratio))
  }

  predicate Proper(outcomes: Option<(Entry, Entry)>) {
    outcomes.Some? ==> AtMost(Finite(0.0), outcomes.value.0.ratio) && AtMost(Finite(0.0), outcomes.value.1.ratio)
  }

  // The indices of the attempts in one condition.
  function CellIndices(rows: seq<Dose>, n: nat, cell: nat): seq<nat>
    requires n <= |rows|
  {
    if n == 0 then []
    else CellIndices(rows, n - 1, cell) + (if rows[n - 1].cell == cell then [n - 1] else [])
  }

  // `next(item for item in alphas if item["alpha"] == alpha)`
  function First(alphas: seq<AlphaRow>, alpha: real): Option<AlphaRow> {
    if alphas == [] then None
    else if alphas[0].alpha == alpha then Some(alphas[0]) else First(alphas[1..], alpha)
  }

  // The valid rows of one condition at one dose; None when a dose is missing.
  function CellDoses(rows: seq<Dose>, n: nat, cell: nat, alpha: real): Option<seq<Entry>>
    requires n <= |rows|
  {
    if n == 0 then Some([])
    else
      var row, before := rows[n - 1], CellDoses(rows, n - 1, cell, alpha);
      if row.cell != cell || row.alphas.None? then before
      else match (before, First(row.alphas.value, alpha))
        case (Some(entries), Some(x)) => Some(entries + [Entry(x.sign, x.effect, RatioForDecision(x.ratio))])
        case _ => None
  }

  function Signs(e: seq<Entry>): (r: seq<bool>)
    ensures |r| == |e|
  {
    seq(|e|, i requires 0 <= i < |e| => e[i].sign)
  }

  function Effects(e: seq<Entry>): (r: seq<real>)
    ensures |r| == |e|
  {
    seq(|e|, i requires 0 <= i < |e| => e[i].effect)
  }

  function Ratios(e: seq<Entry>): (r: seq<Ext>)
    ensures |r| == |e| && forall i :: 0 <= i < |e| ==> r[i] == e[i].ratio
  {
    seq(|e|, i requires 0 <= i < |e| => e[i].ratio)
  }

  function ItemOf(alpha: real, cell: nat, indices: seq<nat>, e: seq<Entry>): Item {
    var ratio := NullableMedian(Ratios(e));
    Item(alpha, cell, indices, |e|, CountNonzero(Signs(e)),
         if e == [] then None else Some(Mean(Signs(e))),
         if e == [] then None else Some(MedianOf(Effects(e))),
         ratio, ratio.value.Some? && ratio.value.value <= 0.25)
  }

  // Every valid row of the condition has the `a`-th dose.
  predicate HasDoses(rows: seq<Dose>, a: nat, cell: nat)
    requires a < 2
  {
    CellDoses(rows, |rows|, cell, ALPHAS[a]).Some?
  }

  datatype DoseError = MissingDose

  // `items` summarise the first `n` of the sixteen dose and condition combinations.
  predicate Summarises(rows: seq<Dose>, items: seq<Item>, n: nat) {
    && |items| == n <= 16
    && forall k :: 0 <= k < n ==>
         var doses := CellDoses(rows, |rows|, k % 8, ALPHAS[k / 8]);
         && doses.Some?
         && items[k] == ItemOf(ALPHAS[k / 8], k % 8, CellIndices(rows, |rows|, k % 8), doses.value)
  }

  method SummarizeDose(rows: seq<Dose>) returns (r: Result<seq<Item>, DoseError>)
    ensures r.Ok? <==> forall a, cell :: 0 <= a < 2 && 0 <= cell < 8 ==> HasDoses(rows, a, cell)
    ensures r.Ok? ==> Summarises(rows, r.value, 16)
  {
    hide ItemOf, CellDoses;
    var items: seq<Item> := [];
    for a := 0 to 2
      invariant Summarises(rows, items, 8 * a)
      invariant forall b, cell :: 0 <= b < a && 0 <= cell < 8 ==> HasDoses(rows, b, cell)
    {
      for cell := 0 to 8
        invariant Summarises(rows, items, 8 * a + cell)
        invariant forall b, other :: 0 <= b < a && 0 <= other < 8 ==> HasDoses(rows, b, other)
        invariant forall other :: 0 <= other < cell ==> HasDoses(rows, a, other)
      {
        var doses := CellDoses(rows, |rows|, cell, ALPHAS[a]);
        if doses.None? {
          assert !HasDoses(rows, a, cell);
          return Err(MissingDose);
        }
        assert (8 * a + cell) / 8 == a && (8 * a + cell) % 8 == cell;
        items := items + [ItemOf(ALPHAS[a], cell, CellIndices(rows, |rows|, cell), doses.value)];
      }
    }
    return Ok(items);
  }

  // ---------------------------------------------------------------- the evaluator

  predicate AlphaAccepted(x: AlphaRow, a: nat)
    requires a < 2
  {
    x.alpha == ALPHAS[a] && ValidatedRatio(x.ratio).Some?
  }

  predicate RowAccepted(row: Dose, i: nat)
    requires i < 60
  {
    && row.seed == PairPlan.SEEDS[i / 20] && row.cell < 8
    && (row.alphas.Some? ==>
          && |row.alphas.value| == 2
          && AlphaAccepted(row.alphas.value[0], 0) && AlphaAccepted(row.alphas.value[1], 1))
  }

  /// The evaluator accepts exactly the rows that can be written as evidence.
  lemma RowAcceptedExactly(row: Dose, i: nat)
    requires i < 60
    ensures RowAccepted(row, i)
            <==> exists cell: nat, outcomes :: cell < 8 && Proper(outcomes) && row == DoseEvidence(i, cell, outcomes)
  {
    if RowAccepted(row, i) {
      if row.alphas.Some? {
        var x, y := row.alphas.value[0], row.alphas.value[1];
        RatioProducible(x.ratio);
        RatioProducible(y.ratio);
        var outcomes := Some((ReadEntry(x), ReadEntry(y)));
        assert row.alphas.value == [x, y];
        assert Proper(outcomes) && row == DoseEvidence(i, row.cell, outcomes);
      } else {
        assert Proper(None) && row == DoseEvidence(i, row.cell, None);
      }
    }
    if cell: nat, outcomes :| cell < 8 && Proper(outcomes) && row == DoseEvidence(i, cell, outcomes) {
      if outcomes.Some? {
        RatioRoundTrip(outcomes.value.0.ratio);
        RatioRoundTrip(outcomes.value.1.ratio);
      }
    }
  }

  function ReadEntry(x: AlphaRow): Entry
    requires ValidatedRatio(x.ratio).Some?
  {
    Entry(x.sign, x.effect, ValidatedRatio(x.ratio).value)
  }

  // What the evaluator collects for the `a`-th dose in one condition.
  function Collected(rows: seq<Dose>, n: nat, cell: nat, a: nat): seq<Entry>
    requires n <= |rows| <= 60 && a < 2 && forall i :: 0 <= i < n ==> RowAccepted(rows[i], i)
  {
    if n == 0 then []
    else
      var row := rows[n - 1];
      assert RowAccepted(row, n - 1);
      var before := Collected(rows, n - 1, cell, a);
      if row.cell == cell && row.alphas.Some? then before + [ReadEntry(row.alphas.value[a])] else before
  }

  predicate ItemAccepted(item: Item, indices: seq<nat>, e: seq<Entry>) {
    if e == [] then
      item == Item(item.alpha, item.cell, indices, 0, 0, None, None, Encoded(None, NoValidPairs), false)
    else
      var effect, ratio := MedianOf(Effects(e)), Median(Ratios(e));
      var observed := ValidatedRatio(item.medianRatio);
      && observed.Some?
      && item.indices == indices && item.valid == |e| && item.signCount == CountTrue(Signs(e))
      && RateAgrees(item.signRate, Rate(Signs(e))) && 0.0 <= item.signRate.value <= 1.0
      && RateAgrees(item.medianEffect, effect)
      && RatioAgrees(observed.value, ratio)
      && item.specific == AtMost(ratio, Finite(0.25))
  }

  predicate RowsAccepted(rows: seq<Dose>) {
    |rows| == 60 && forall i :: 0 <= i < 60 ==> RowAccepted(rows[i], i)
  }

  predicate Accepts(rows: seq<Dose>, items: seq<Item>) {
    && RowsAccepted(rows)
    && |items| == 16
    && forall k :: 0 <= k < 16 ==>
         && items[k].alpha == ALPHAS[k / 8] && items[k].cell == k % 8
         && ItemAccepted(items[k], CellIndices(rows, 60, k % 8), Collected(rows, 60, k % 8, k / 8))
  }

  function Get<K, V>(m: map<K, seq<V>>, key: K): seq<V> {
    if key in m then m[key] else []
  }

  function Push<K, V>(m: map<K, seq<V>>, key: K, v: V): map<K, seq<V>> {
    m[key := Get(m, key) + [v]]
  }

  // What the row loop has filled in after `n` rows.
  ghost predicate Filled(rows: seq<Dose>, n: nat, attempted: map<nat, seq<nat>>, byCell: map<(nat, nat), seq<Entry>>)
    requires n <= |rows| <= 60 && forall i :: 0 <= i < n ==> RowAccepted(rows[i], i)
  {
    && (forall cell: nat :: Get(attempted, cell) == CellIndices(rows, n, cell))
    && forall a: nat, cell: nat :: a < 2 ==> Get(byCell, (a, cell)) == Collected(rows, n, cell, a)
  }

  lemma PushGet<K, V>(m: map<K, seq<V>>, key: K, v: V)
    ensures forall k :: Get(Push(m, key, v), k) == if k == key then Get(m, k) + [v] else Get(m, k)
  {
  }

  // What one row adds.
  function AfterRow(row: Dose, n: nat, byCell: map<(nat, nat), seq<Entry>>): map<(nat, nat), seq<Entry>>
    requires n < 60 && RowAccepted(row, n)
  {
    if row.alphas.None? then byCell
    else
      var first := Push(byCell, (0, row.cell), ReadEntry(row.alphas.value[0]));
      Push(first, (1, row.cell), ReadEntry(row.alphas.value[1]))
  }

  lemma FilledNext(rows: seq<Dose>, n: nat, attempted: map<nat, seq<nat>>, byCell: map<(nat, nat), seq<Entry>>)
    requires n < |rows| <= 60 && forall i :: 0 <= i <= n ==> RowAccepted(rows[i], i)
    requires Filled(rows, n, attempted, byCell)
    ensures Filled(rows, n + 1, Push(attempted, rows[n].cell, n), AfterRow(rows[n], n, byCell))
  {
    hide RowAccepted, Push, Get;
    PushGet(attempted, rows[n].cell, n);
    forall a: nat, cell: nat | a < 2
      ensures Get(AfterRow(rows[n], n, byCell), (a, cell)) == Collected(rows, n + 1, cell, a)
    {
      DosePushed(rows[n], n, byCell, a, cell);
    }
  }

  lemma DosePushed(row: Dose, n: nat, byCell: map<(nat, nat), seq<Entry>>, a: nat, cell: nat)
    requires n < 60 && RowAccepted(row, n) && a < 2
    ensures Get(AfterRow(row, n, byCell), (a, cell))
            == Get(byCell, (a, cell))
               + (if row.cell == cell && row.alphas.Some? then [ReadEntry(row.alphas.value[a])] else [])
  {
  }

  // The item is for one of the two doses.
  function DoseIndex(alpha: real): Option<nat> {
    if alpha == ALPHAS[0] then Some(0) else if alpha == ALPHAS[1] then Some(1) else None
  }

  const GRID: seq<(real, nat)> := seq(16, k requires 0 <= k < 16 => (ALPHAS[k / 8], k % 8))

  /// The row loop, then the item loop, then the comparison with the grid.
  method ValidateDose(rows: seq<Dose>, items: seq<Item>) returns (accepted: bool)
    ensures accepted <==> Accepts(rows, items)
  {
    hide ItemAccepted, RowAccepted;
    if |rows| != 60 {
      return false;
    }
    var attempted, byCell := ReadRows(rows);
    if attempted.None? {
      return false;
    }
    accepted := CheckItems(rows, items, attempted.value, byCell);
  }

  method ReadRows(rows: seq<Dose>)
    returns (attempted: Option<map<nat, seq<nat>>>, byCell: map<(nat, nat), seq<Entry>>)
    requires |rows| == 60
    ensures attempted.Some? <==> RowsAccepted(rows)
    ensures attempted.Some? ==> Filled(rows, 60, attempted.value, byCell)
  {
    hide RowAccepted, Filled;
    var tried: map<nat, seq<nat>> := map[];
    byCell := map[];
    NothingFilled(rows);
    var i := 0;
    while i < |rows|
      invariant 0 <= i <= 60
      invariant forall k :: 0 <= k < i ==> RowAccepted(rows[k], k)
      invariant Filled(rows, i, tried, byCell)
    {
      if !RowAccepted(rows[i], i) {
        attempted := None;
        return;
      }
      FilledNext(rows, i, tried, byCell);
      tried := Push(tried, rows[i].cell, i);
      byCell := AfterRow(rows[i], i, byCell);
      i := i + 1;
    }
    attempted := Some(tried);
  }

  lemma NothingFilled(rows: seq<Dose>)
    requires |rows| <= 60
    ensures Filled(rows, 0, map[], map[])
  {
  }

  method CheckItems(rows: seq<Dose>, items: seq<Item>, attempted: map<nat, seq<nat>>,
      byCell: map<(nat, nat), seq<Entry>>)
    returns (accepted: bool)
    requires RowsAccepted(rows) && Filled(rows, 60, attempted, byCell)
    ensures accepted <==> Accepts(rows, items)
  {
    hide ItemAccepted, RowAccepted, Collected, CellIndices;
    var grid: seq<(real, nat)> := [];
    var k := 0;
    while k < |items|
      invariant 0 <= k <= |items| && |grid| == k
      invariant forall j :: 0 <= j < k ==> grid[j] == (items[j].alpha, items[j].cell)
      invariant forall j :: 0 <= j < k && DoseIndex(items[j].alpha).Some? ==>
                  ItemAccepted(items[j], CellIndices(rows, 60, items[j].cell),
                               Collected(rows, 60, items[j].cell, DoseIndex(items[j].alpha).value))
    {
      var item := items[k];
      if item.cell >= 8 {
        return false;
      }
      var a := DoseIndex(item.alpha);
      var entries := if a.Some? then Get(byCell, (a.value, item.cell)) else [];
      if !ItemAccepted(item, Get(attempted, item.cell), entries) {
        return false;
      }
      grid := grid + [(item.alpha, item.cell)];
      k := k + 1;
    }
    accepted := grid == GRID;
    GridExactly(items, grid);
  }

  lemma GridExactly(items: seq<Item>, grid: seq<(real, nat)>)
    requires |grid| == |items| && forall j :: 0 <= j < |items| ==> grid[j] == (items[j].alpha, items[j].cell)
    ensures grid == GRID <==>
            |items| == 16 && forall k :: 0 <= k < 16 ==> items[k].alpha == ALPHAS[k / 8] && items[k].cell == k % 8
    ensures forall k :: 0 <= k < 16 ==> DoseIndex(ALPHAS[k / 8]) == Some(k / 8)
  {
    if |items| == 16 && forall k :: 0 <= k < 16 ==> items[k].alpha == ALPHAS[k / 8] && items[k].cell == k % 8 {
      assert grid == GRID;
    }
  }

  // ---------------------------------------------------------------- do they agree?

  lemma DoseFound(row: Dose, i: nat, a: nat)
    requires i < 60 && a < 2 && RowAccepted(row, i) && row.alphas.Some?
    ensures First(row.alphas.value, ALPHAS[a]) == Some(row.alphas.value[a])
    ensures var x := row.alphas.value[a]; Entry(x.sign, x.effect, RatioForDecision(x.ratio)) == ReadEntry(x)
    ensures AtMost(Finite(0.0), ReadEntry(row.alphas.value[a]).ratio)
  {
    ReadAlike(row.alphas.value[a].ratio);
    var doses := row.alphas.value;
    assert doses[1..][0] == doses[1];
    assert First(doses[1..], ALPHAS[1]) == Some(doses[1]);
  }

  // Filtering by condition and looking doses up finds what the row loop collects.
  lemma {:induction false} SameDoses(rows: seq<Dose>, n: nat, cell: nat, a: nat)
    requires n <= |rows| <= 60 && a < 2 && forall i :: 0 <= i < n ==> RowAccepted(rows[i], i)
    ensures CellDoses(rows, n, cell, ALPHAS[a]) == Some(Collected(rows, n, cell, a))
    ensures var e := Collected(rows, n, cell, a);
            forall j :: 0 <= j < |e| ==> AtMost(Finite(0.0), e[j].ratio)
  {
    if n > 0 {
      SameDoses(rows, n - 1, cell, a);
      if rows[n - 1].alphas.Some? {
        DoseFound(rows[n - 1], n - 1, a);
      }
    }
  }

  lemma NoSigns()
    ensures CountTrue([]) == 0
  {
  }

  lemma ItemOfAccepted(alpha: real, cell: nat, indices: seq<nat>, e: seq<Entry>)
    requires forall j :: 0 <= j < |e| ==> AtMost(Finite(0.0), e[j].ratio)
    ensures ItemAccepted(ItemOf(alpha, cell, indices, e), indices, e)
  {
    hide Median, MedianOf, Rate, Mean, CloseTo, CountTrue, CountNonzero;
    NoSigns();
    CountsAgree(Signs(e));
    if e == [] {
      assert Signs(e) == [];
    } else {
      MeanIsRate(Signs(e));
      CloseToItself(Rate(Signs(e)));
      CloseToItself(MedianOf(Effects(e)));
      MedianRange(Ratios(e));
      RatioRoundTrip(Median(Ratios(e)));
    }
  }

  /// Every summary the producer writes of sixty well-formed rows passes the evaluator's
  /// recomputation, empty conditions and infinite medians included; and it writes one.
  lemma ProducedAccepted(rows: seq<Dose>, items: seq<Item>)
    requires RowsAccepted(rows)
    ensures forall a, cell :: 0 <= a < 2 && 0 <= cell < 8 ==> HasDoses(rows, a, cell)
    ensures Summarises(rows, items, 16) ==> Accepts(rows, items)
  {
    hide RowAccepted, ItemOf, ItemAccepted, CellDoses;
    forall a, cell | 0 <= a < 2 && 0 <= cell < 8
      ensures HasDoses(rows, a, cell)
    {
      SameDoses(rows, 60, cell, a);
    }
    if Summarises(rows, items, 16) {
      forall k | 0 <= k < 16
        ensures items[k].alpha == ALPHAS[k / 8] && items[k].cell == k % 8
        ensures ItemAccepted(items[k], CellIndices(rows, 60, k % 8), Collected(rows, 60, k % 8, k / 8))
      {
        var e := Collected(rows, 60, k % 8, k / 8);
        SameDoses(rows, 60, k % 8, k / 8);
        ItemFields(ALPHAS[k / 8], k % 8, CellIndices(rows, 60, k % 8), e);
        ItemOfAccepted(ALPHAS[k / 8], k % 8, CellIndices(rows, 60, k % 8), e);
      }
    }
  }

  lemma ItemFields(alpha: real, cell: nat, indices: seq<nat>, e: seq<Entry>)
    ensures ItemOf(alpha, cell, indices, e).alpha == alpha && ItemOf(alpha, cell, indices, e).cell == cell
  {
  }

  predicate BothClose(a: Option<real>, b: Option<real>) {
    (a.None? && b.None?) || (a.Some? && b.Some? && CloseTo(a.value, b.value))
  }

  // Equal up to the evaluator's tolerance on rates and medians.
  predicate SameItem(x: Item, y: Item) {
    && x.alpha == y.alpha && x.cell == y.cell && x.indices == y.indices && x.valid == y.valid
    && x.signCount == y.signCount && x.specific == y.specific
    && BothClose(x.signRate, y.signRate) && BothClose(x.medianEffect, y.medianEffect)
    && x.medianRatio.status == y.medianRatio.status && BothClose(x.medianRatio.value, y.medianRatio.value)
  }

  lemma AcceptedItem(x: Item, alpha: real, cell: nat, indices: seq<nat>, e: seq<Entry>)
    requires forall j :: 0 <= j < |e| ==> AtMost(Finite(0.0), e[j].ratio)
    requires x.alpha == alpha && x.cell == cell && ItemAccepted(x, indices, e)
    ensures SameItem(x, ItemOf(alpha, cell, indices, e))
    ensures x.signRate.Some? ==> 0.0 <= x.signRate.value <= 1.0
  {
    hide Median, MedianOf, Rate, Mean, CloseTo, CountTrue, CountNonzero;
    CountsAgree(Signs(e));
    forall y: real
      ensures CloseTo(y, y)
    {
      CloseToItself(y);
    }
    if e == [] {
      assert Signs(e) == [];
      CountAtMost(Signs(e));
    } else {
      MeanIsRate(Signs(e));
      MedianRange(Ratios(e));
    }
  }

  /// And nothing else passes: an accepted summary is the producer's, up to the evaluator's
  /// tolerance on rates and medians.
  lemma OnlyProducedAccepted(rows: seq<Dose>, items: seq<Item>, produced: seq<Item>)
    requires Accepts(rows, items) && Summarises(rows, produced, 16)
    ensures forall k :: 0 <= k < 16 ==> SameItem(items[k], produced[k])
    ensures forall k :: 0 <= k < 16 && items[k].signRate.Some? ==> 0.0 <= items[k].signRate.value <= 1.0
  {
    hide RowAccepted, ItemOf, ItemAccepted, CellDoses, SameItem;
    forall k | 0 <= k < 16
      ensures SameItem(items[k], produced[k])
      ensures items[k].signRate.Some? ==> 0.0 <= items[k].signRate.value <= 1.0
    {
      SameDoses(rows, 60, k % 8, k / 8);
      AcceptedItem(items[k], ALPHAS[k / 8], k % 8, CellIndices(rows, 60, k % 8), Collected(rows, 60, k % 8, k / 8));
    }
  }
}
