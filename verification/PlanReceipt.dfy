/// The continuation plan and the execution receipt that closes it
/// (ops/calibration_two_worker_continuation_18d6494.py: _classify_serial_modes,
/// _create_plan, _assert_frozen_unchanged, _aggregate_costs, the end of _run_plan).

module PlanReceipt {
  import opened Wrappers
  import opened Sequences
  import EP = EpisodePublication
  import WP = WorkerProtocol

  type EpisodeId = WP.EpisodeId
  type Digest = EP.Digest

  datatype Cost = Cost(cudaMs: real, wallNs: int, forwards: int, interventions: int,
                       peakBytes: int, incrementalPeakBytes: int, logicalBytes: int, compressedBytes: int)

  // One record of an inventory: the four frozen fields, then what is only reported.
  datatype Record = Record(id: EpisodeId, combined: Digest, metadata: nat, primitives: nat, links: nat,
                           mtime: int, states: int, cost: Cost)

  datatype Mode = Serial | SerialContended | TwoWorker

  // ---------------------------------------------------------------- the plan

  function Ids(records: seq<Record>): (ids: seq<EpisodeId>)
    ensures |ids| == |records| && forall i :: 0 <= i < |ids| ==> ids[i] == records[i].id
  {
    seq(|records|, i requires 0 <= i < |records| => records[i].id)
  }

  // [e for e in ordered if e not in completed]
  function Missing(ordered: seq<EpisodeId>, completed: seq<EpisodeId>): seq<EpisodeId> {
    if ordered == [] then []
    else if ordered[0] in completed then Missing(ordered[1..], completed)
    else [ordered[0]] + Missing(ordered[1..], completed)
  }

  // s[::2]
  function EveryOther<T>(s: seq<T>): (r: seq<T>)
    ensures |r| == (|s| + 1) / 2
    ensures forall i :: 0 <= i < |r| ==> r[i] == s[2 * i]
  {
    if |s| <= 1 then s else [s[0]] + EveryOther(s[2..])
  }

  function Shards(missing: seq<EpisodeId>): seq<seq<EpisodeId>> {
    [EveryOther(missing), if missing == [] then [] else EveryOther(missing[1..])]
  }

  datatype PlanFile = PlanFile(ordered: seq<EpisodeId>, frozen: seq<Record>, modes: map<EpisodeId, Mode>,
                               shards: seq<seq<EpisodeId>>)

  datatype PlanError = TimesNotIncreasing | TwoShardsRequired

  // A benchmark ran during [first, last]; a serial sidecar took from the publication
  // before it to its own.
  datatype Benchmark = Benchmark(first: int, last: int)

  function Previous(records: seq<Record>, start: int, k: nat): int
    requires k <= |records|
  {
    if k == 0 then start else records[k - 1].mtime
  }

  predicate Increasing(records: seq<Record>, start: int) {
    forall k {:trigger Previous(records, start, k)} :: 0 <= k < |records| ==>
      records[k].mtime > Previous(records, start, k)
  }

  predicate Within(t: int, first: int, last: int) {
    first <= t <= last
  }

  ghost predicate Overlap(a: int, b: int, bench: Benchmark) {
    exists t :: Within(t, a, b) && Within(t, bench.first, bench.last)
  }

  ghost predicate Contended(records: seq<Record>, start: int, bench: Benchmark, k: nat)
    requires k < |records|
  {
    Overlap(Previous(records, start, k), records[k].mtime, bench)
  }

  lemma OverlapExactly(a: int, b: int, bench: Benchmark)
    requires a <= b && bench.first <= bench.last
    ensures Overlap(a, b, bench) <==> a <= bench.last && b >= bench.first
  {
    if a <= bench.last && b >= bench.first {
      var t := if a >= bench.first then a else bench.first;
      assert Within(t, a, b) && Within(t, bench.first, bench.last);
    }
  }

  // Whether record `k` was classified as it should be.
  ghost predicate Classified(records: seq<Record>, start: int, bench: Benchmark, modes: map<EpisodeId, Mode>, k: nat)
    requires k < |records|
  {
    && records[k].id in modes
    && modes[records[k].id] == if Contended(records, start, bench, k) then SerialContended else Serial
  }

  lemma OneMoreId(ids: seq<EpisodeId>, k: nat)
    requires k < |ids|
    ensures Elements(ids[..k + 1]) == Elements(ids[..k]) + {ids[k]}
  {
    assert ids[..k + 1] == ids[..k] + [ids[k]];
  }

  lemma ClassifiedNow(records: seq<Record>, start: int, bench: Benchmark, modes: map<EpisodeId, Mode>, k: nat,
      overlap: bool)
    requires k < |records| && (overlap <==> Contended(records, start, bench, k))
    ensures Classified(records, start, bench, modes[records[k].id := if overlap then SerialContended else Serial], k)
  {
    hide Contended;
  }

  lemma ModeKept(records: seq<Record>, start: int, bench: Benchmark, modes: map<EpisodeId, Mode>, i: nat,
      id: EpisodeId, mode: Mode)
    requires i < |records| && Classified(records, start, bench, modes, i) && records[i].id != id
    ensures Classified(records, start, bench, modes[id := mode], i)
  {
    hide Contended;
  }

  // The first `k` records are classified.
  ghost predicate AllClassified(records: seq<Record>, start: int, bench: Benchmark, modes: map<EpisodeId, Mode>, k: nat)
    requires k <= |records|
  {
    && modes.Keys == Elements(Ids(records)[..k])
    && forall i :: 0 <= i < k ==> Classified(records, start, bench, modes, i)
  }

  lemma OneMoreMode(records: seq<Record>, start: int, bench: Benchmark, modes: map<EpisodeId, Mode>, k: nat,
      overlap: bool)
    requires Distinct(Ids(records)) && k < |records| && AllClassified(records, start, bench, modes, k)
    requires overlap <==> Contended(records, start, bench, k)
    ensures var mode := if overlap then SerialContended else Serial;
            AllClassified(records, start, bench, modes[records[k].id := mode], k + 1)
  {
    hide Classified, Elements, Ids;
    var ids, mode := Ids(records), if overlap then SerialContended else Serial;
    var more := modes[records[k].id := mode];
    ClassifiedNow(records, start, bench, modes, k, overlap);
    OneMoreId(ids, k);
    forall i | 0 <= i < k
      ensures Classified(records, start, bench, more, i)
    {
      assert ids[i] != ids[k];
      ModeKept(records, start, bench, modes, i, records[k].id, mode);
    }
  }

  lemma NoneClassified(records: seq<Record>, start: int, bench: Benchmark)
    ensures AllClassified(records, start, bench, map[], 0)
  {
  }

  lemma WholeClassified(records: seq<Record>, start: int, bench: Benchmark, modes: map<EpisodeId, Mode>)
    requires AllClassified(records, start, bench, modes, |records|)
    ensures modes.Keys == set id | id in Ids(records)
  {
    hide Classified, Ids;
    assert Ids(records)[..|records|] == Ids(records);
    assert Elements(Ids(records)) == set id | id in Ids(records);
  }

  lemma EachClassified(records: seq<Record>, start: int, bench: Benchmark, modes: map<EpisodeId, Mode>)
    requires AllClassified(records, start, bench, modes, |records|)
    ensures forall k :: 0 <= k < |records| ==> Classified(records, start, bench, modes, k)
  {
    hide Classified, Ids;
  }

  // The loop of _classify_serial_modes.  A sidecar is contended exactly when some
  // instant of its interval lies in the benchmark's.
  method ClassifySerialModes(records: seq<Record>, bench: Benchmark, start: int)
    returns (r: Result<map<EpisodeId, Mode>, PlanError>)
    requires Distinct(Ids(records)) && bench.first <= bench.last
    ensures r.Ok? <==> Increasing(records, start)
    ensures r.Err? ==> r.error == TimesNotIncreasing
    ensures r.Ok? ==> r.value.Keys == set id | id in Ids(records)
    ensures r.Ok? ==> forall k :: 0 <= k < |records| ==> Classified(records, start, bench, r.value, k)
  {
    hide Contended, AllClassified;
    var modes: map<EpisodeId, Mode> := map[];
    var previous := start;
    NoneClassified(records, start, bench);
    var k := 0;
    while k < |records|
      invariant 0 <= k <= |records| && previous == Previous(records, start, k)
      invariant forall i {:trigger Previous(records, start, i)} :: 0 <= i < k ==>
                  records[i].mtime > Previous(records, start, i)
      invariant AllClassified(records, start, bench, modes, k)
    {
      var publication := records[k].mtime;
      if publication <= previous {
        return Err(TimesNotIncreasing);
      }
      var overlap := previous <= bench.last && publication >= bench.first;
      ContendedExactly(records, start, bench, k);
      OneMoreMode(records, start, bench, modes, k, overlap);
      modes := modes[records[k].id := if overlap then SerialContended else Serial];
      previous := publication;
      k := k + 1;
    }
    WholeClassified(records, start, bench, modes);
    EachClassified(records, start, bench, modes);
    return Ok(modes);
  }

  lemma ContendedExactly(records: seq<Record>, start: int, bench: Benchmark, k: nat)
    requires k < |records| && bench.first <= bench.last && Previous(records, start, k) <= records[k].mtime
    ensures Contended(records, start, bench, k)
            <==> Previous(records, start, k) <= bench.last && records[k].mtime >= bench.first
  {
    OverlapExactly(Previous(records, start, k), records[k].mtime, bench);
  }

  // What _create_plan decides once the serial modes are known: a plan exists exactly when
  // at least two episodes remain.
  function CreatePlan(ordered: seq<EpisodeId>, frozen: seq<Record>, modes: map<EpisodeId, Mode>)
    : (r: Result<PlanFile, PlanError>)
    ensures r.Ok? <==> |Missing(ordered, Ids(frozen))| >= 2
  {
    var missing := Missing(ordered, Ids(frozen));
    var shards := Shards(missing);
    if shards[0] == [] || shards[1] == [] then Err(TwoShardsRequired)
    else Ok(PlanFile(ordered, frozen, modes, shards))
  }

  lemma {:induction false} MissingExactly(ordered: seq<EpisodeId>, completed: seq<EpisodeId>)
    requires Distinct(ordered)
    ensures Distinct(Missing(ordered, completed))
    ensures forall e :: e in Missing(ordered, completed) <==> e in ordered && e !in completed
  {
    if ordered != [] {
      MissingExactly(ordered[1..], completed);
      assert ordered == [ordered[0]] + ordered[1..];
      assert ordered[0] !in ordered[1..];
    }
  }

  // When the completed episodes are a manifest prefix, what is missing is the rest,
  // in manifest order.
  lemma {:induction false} MissingIsTheRest(ordered: seq<EpisodeId>, completed: seq<EpisodeId>, n: nat)
    requires Distinct(ordered) && n <= |ordered|
    requires forall i :: 0 <= i < |ordered| ==> (ordered[i] in completed <==> i < n)
    ensures Missing(ordered, completed) == ordered[n..]
  {
    if ordered != [] {
      var rest := ordered[1..];
      if n > 0 {
        assert forall i :: 0 <= i < |rest| ==> rest[i] == ordered[i + 1];
        MissingIsTheRest(rest, completed, n - 1);
        assert rest[n - 1..] == ordered[n..];
      } else {
        assert forall i :: 0 <= i < |rest| ==> rest[i] == ordered[i + 1];
        MissingIsTheRest(rest, completed, 0);
      }
    }
  }

  // The even and the odd places of a list without repetition.
  lemma ShardsSplit(missing: seq<EpisodeId>)
    requires Distinct(missing)
    ensures var s := Shards(missing);
            && Distinct(s[0]) && Distinct(s[1])
            && (forall e :: e in s[0] ==> e !in s[1])
            && (forall e :: e in s[0] || e in s[1] <==> e in missing)
            && |s[1]| <= |s[0]| <= |s[1]| + 1 && |s[0]| + |s[1]| == |missing|
            && (forall i :: 0 <= i < |s[0]| ==> s[0][i] == missing[2 * i])
            && (forall i :: 0 <= i < |s[1]| ==> s[1][i] == missing[2 * i + 1])
  {
    var s := Shards(missing);
    forall e | e in missing
      ensures e in s[0] || e in s[1]
    {
      var i :| 0 <= i < |missing| && missing[i] == e;
      if i % 2 == 0 { assert s[0][i / 2] == e; } else { assert s[1][i / 2] == e; }
    }
  }

  // The two shards interleave the missing episodes: disjoint, together exactly the
  // complement, each in manifest order, and of sizes differing by at most one.
  lemma ShardsPartition(ordered: seq<EpisodeId>, completed: seq<EpisodeId>)
    requires Distinct(ordered)
    ensures var missing := Missing(ordered, completed);
            var s := Shards(missing);
            && Distinct(s[0]) && Distinct(s[1])
            && (forall e :: e in s[0] ==> e !in s[1])
            && (forall e :: e in s[0] || e in s[1] <==> e in ordered && e !in completed)
            && |s[1]| <= |s[0]| <= |s[1]| + 1 && |s[0]| + |s[1]| == |missing|
            && (forall i :: 0 <= i < |s[0]| ==> s[0][i] == missing[2 * i])
            && (forall i :: 0 <= i < |s[1]| ==> s[1][i] == missing[2 * i + 1])
  {
    hide Missing;
    MissingExactly(ordered, completed);
    ShardsSplit(Missing(ordered, completed));
  }

  // ---------------------------------------------------------------- costs by execution mode

  datatype Aggregate = Aggregate(episodes: nat, states: int, cudaMs: real, wallNs: int, forwards: int,
                                 interventions: int, peakBytes: int, incrementalPeakBytes: int,
                                 logicalBytes: int, compressedBytes: int)

  const ZERO := Aggregate(0, 0, 0.0, 0, 0, 0, 0, 0, 0, 0)

  function Max(a: int, b: int): int { if a < b then b else a }

  function Add(a: Aggregate, r: Record): Aggregate {
    Aggregate(a.episodes + 1, a.states + r.states, a.cudaMs + r.cost.cudaMs, a.wallNs + r.cost.wallNs,
              a.forwards + r.cost.forwards, a.interventions + r.cost.interventions,
              Max(a.peakBytes, r.cost.peakBytes), Max(a.incrementalPeakBytes, r.cost.incrementalPeakBytes),
              a.logicalBytes + r.cost.logicalBytes, a.compressedBytes + r.cost.compressedBytes)
  }

  function Combine(a: Aggregate, b: Aggregate): Aggregate {
    Aggregate(a.episodes + b.episodes, a.states + b.states, a.cudaMs + b.cudaMs, a.wallNs + b.wallNs,
              a.forwards + b.forwards, a.interventions + b.interventions,
              Max(a.peakBytes, b.peakBytes), Max(a.incrementalPeakBytes, b.incrementalPeakBytes),
              a.logicalBytes + b.logicalBytes, a.compressedBytes + b.compressedBytes)
  }

  // Sums and maxima over the first `n` records.
  function Total(inventory: seq<Record>, n: nat): Aggregate
    requires n <= |inventory|
  {
    if n == 0 then ZERO else Add(Total(inventory, n - 1), inventory[n - 1])
  }

  // The same, over those of one execution mode.
  function Stratum(inventory: seq<Record>, modes: map<EpisodeId, Mode>, mode: Mode, n: nat): Aggregate
    requires n <= |inventory| && Covered(inventory, modes)
  {
    if n == 0 then ZERO
    else if modes[inventory[n - 1].id] == mode then Add(Stratum(inventory, modes, mode, n - 1), inventory[n - 1])
    else Stratum(inventory, modes, mode, n - 1)
  }

  predicate Covered(inventory: seq<Record>, modes: map<EpisodeId, Mode>) {
    forall k :: 0 <= k < |inventory| ==> inventory[k].id in modes
  }

  // The dictionaries of _aggregate_costs, one per execution mode, updated record by record.
  method AggregateCosts(inventory: seq<Record>, modes: map<EpisodeId, Mode>) returns (aggregates: map<Mode, Aggregate>)
    requires Covered(inventory, modes)
    ensures aggregates.Keys == {Serial, SerialContended, TwoWorker}
    ensures forall mode :: mode in aggregates ==> aggregates[mode] == Stratum(inventory, modes, mode, |inventory|)
  {
    aggregates := map[Serial := ZERO, SerialContended := ZERO, TwoWorker := ZERO];
    var k := 0;
    while k < |inventory|
      invariant 0 <= k <= |inventory|
      invariant aggregates.Keys == {Serial, SerialContended, TwoWorker}
      invariant forall mode :: mode in aggregates ==> aggregates[mode] == Stratum(inventory, modes, mode, k)
    {
      var mode := modes[inventory[k].id];
      assert mode.Serial? || mode.SerialContended? || mode.TwoWorker?;
      aggregates := aggregates[mode := Add(aggregates[mode], inventory[k])];
      k := k + 1;
    }
  }

  // The aggregates of the three modes, put together: sums to sums, maxima to maxima.
  function AllStrata(inventory: seq<Record>, modes: map<EpisodeId, Mode>, n: nat): Aggregate
    requires n <= |inventory| && Covered(inventory, modes)
  {
    Combine(Combine(Stratum(inventory, modes, Serial, n), Stratum(inventory, modes, SerialContended, n)),
            Stratum(inventory, modes, TwoWorker, n))
  }

  // The three strata add up to the whole inventory.
  lemma {:induction false} StrataAddUp(inventory: seq<Record>, modes: map<EpisodeId, Mode>, n: nat)
    requires n <= |inventory| && Covered(inventory, modes)
    ensures AllStrata(inventory, modes, n) == Total(inventory, n)
  {
    hide Add, Combine;
    if n == 0 {
      ZeroIsNeutral(ZERO);
    } else {
      StrataAddUp(inventory, modes, n - 1);
      AddCombine(Stratum(inventory, modes, Serial, n - 1), Stratum(inventory, modes, SerialContended, n - 1),
                 Stratum(inventory, modes, TwoWorker, n - 1), inventory[n - 1]);
    }
  }

  lemma ZeroIsNeutral(a: Aggregate)
    requires a.peakBytes >= 0 && a.incrementalPeakBytes >= 0
    ensures Combine(ZERO, a) == a
  {
  }

  lemma AddCombine(a: Aggregate, b: Aggregate, c: Aggregate, r: Record)
    ensures Combine(Combine(Add(a, r), b), c) == Add(Combine(Combine(a, b), c), r)
    ensures Combine(Combine(a, Add(b, r)), c) == Add(Combine(Combine(a, b), c), r)
    ensures Combine(Combine(a, b), Add(c, r)) == Add(Combine(Combine(a, b), c), r)
  {
  }

  // The sum of `field` over those of the first `n` records that have `mode`.
  function SumOf(inventory: seq<Record>, modes: map<EpisodeId, Mode>, mode: Mode, field: Record -> int, n: nat): int
    requires n <= |inventory| && Covered(inventory, modes)
  {
    if n == 0 then 0
    else
      SumOf(inventory, modes, mode, field, n - 1)
      + if modes[inventory[n - 1].id] == mode then field(inventory[n - 1]) else 0
  }

  function SumOfMs(inventory: seq<Record>, modes: map<EpisodeId, Mode>, mode: Mode, n: nat): real
    requires n <= |inventory| && Covered(inventory, modes)
  {
    if n == 0 then 0.0
    else
      SumOfMs(inventory, modes, mode, n - 1)
      + if modes[inventory[n - 1].id] == mode then inventory[n - 1].cost.cudaMs else 0.0
  }

  /// Every count and cost of a stratum is the sum of that field over its own records.
  lemma {:induction false} StratumSums(inventory: seq<Record>, modes: map<EpisodeId, Mode>, mode: Mode, n: nat)
    requires n <= |inventory| && Covered(inventory, modes)
    ensures var a := Stratum(inventory, modes, mode, n);
            && a.episodes == SumOf(inventory, modes, mode, (r: Record) => 1, n)
            && a.states == SumOf(inventory, modes, mode, (r: Record) => r.states, n)
            && a.cudaMs == SumOfMs(inventory, modes, mode, n)
            && a.wallNs == SumOf(inventory, modes, mode, (r: Record) => r.cost.wallNs, n)
            && a.forwards == SumOf(inventory, modes, mode, (r: Record) => r.cost.forwards, n)
            && a.interventions == SumOf(inventory, modes, mode, (r: Record) => r.cost.interventions, n)
            && a.logicalBytes == SumOf(inventory, modes, mode, (r: Record) => r.cost.logicalBytes, n)
            && a.compressedBytes == SumOf(inventory, modes, mode, (r: Record) => r.cost.compressedBytes, n)
  {
    if n > 0 {
      StratumSums(inventory, modes, mode, n - 1);
    }
  }

  // Does record `k` count for `mode`?
  predicate InMode(inventory: seq<Record>, modes: map<EpisodeId, Mode>, mode: Mode, k: nat)
    requires k < |inventory| && Covered(inventory, modes)
  {
    modes[inventory[k].id] == mode
  }

  // Each of a stratum's two peaks is the largest of its own records, or 0 when none
  // exceeds it.
  lemma {:induction false} PeakIsLargest(inventory: seq<Record>, modes: map<EpisodeId, Mode>, mode: Mode, n: nat)
    requires n <= |inventory| && Covered(inventory, modes)
    ensures var a := Stratum(inventory, modes, mode, n);
            && (forall k :: 0 <= k < n && InMode(inventory, modes, mode, k) ==>
                  && inventory[k].cost.peakBytes <= a.peakBytes
                  && inventory[k].cost.incrementalPeakBytes <= a.incrementalPeakBytes)
            && (a.peakBytes == 0
                || exists k :: 0 <= k < n && InMode(inventory, modes, mode, k)
                               && inventory[k].cost.peakBytes == a.peakBytes)
            && (a.incrementalPeakBytes == 0
                || exists k :: 0 <= k < n && InMode(inventory, modes, mode, k)
                               && inventory[k].cost.incrementalPeakBytes == a.incrementalPeakBytes)
  {
    if n > 0 {
      PeakIsLargest(inventory, modes, mode, n - 1);
      assert InMode(inventory, modes, mode, n - 1) <==> modes[inventory[n - 1].id] == mode;
    }
  }

  // And so are the peaks of the whole inventory.
  lemma TotalPeakIsLargest(inventory: seq<Record>, modes: map<EpisodeId, Mode>, n: nat)
    requires n <= |inventory| && Covered(inventory, modes)
    ensures var a := Total(inventory, n);
            && (forall k :: 0 <= k < n ==>
                  && inventory[k].cost.peakBytes <= a.peakBytes
                  && inventory[k].cost.incrementalPeakBytes <= a.incrementalPeakBytes)
            && (a.peakBytes == 0 || exists k :: 0 <= k < n && inventory[k].cost.peakBytes == a.peakBytes)
            && (a.incrementalPeakBytes == 0
                || exists k :: 0 <= k < n && inventory[k].cost.incrementalPeakBytes == a.incrementalPeakBytes)
  {
    StrataAddUp(inventory, modes, n);
    PeakIsLargest(inventory, modes, Serial, n);
    PeakIsLargest(inventory, modes, SerialContended, n);
    PeakIsLargest(inventory, modes, TwoWorker, n);
    hide Stratum, Total;
    forall k | 0 <= k < n
      ensures InMode(inventory, modes, Serial, k) || InMode(inventory, modes, SerialContended, k)
              || InMode(inventory, modes, TwoWorker, k)
    {
      var mode := modes[inventory[k].id];
      assert mode.Serial? || mode.SerialContended? || mode.TwoWorker?;
    }
  }

  // ---------------------------------------------------------------- closing the run

  datatype CloseError = PromotionInvalid | StagingInvalid | InventoryIncomplete | FrozenChanged | ModesIncomplete

  datatype Entry = Entry(id: EpisodeId, mode: Mode, worker: Option<nat>, combined: Digest, states: int, cost: Cost)

  datatype Receipt = Receipt(entries: seq<Entry>, costs: map<Mode, Aggregate>)

  predicate SameFrozen(a: Record, b: Record) {
    && a.id == b.id && a.combined == b.combined
    && a.metadata == b.metadata && a.primitives == b.primitives && a.links == b.links
  }

  // _assert_frozen_unchanged
  predicate FrozenUnchanged(frozen: seq<Record>, current: seq<Record>) {
    forall f :: f in frozen ==> exists c :: c in current && SameFrozen(f, c)
  }

  // _validate_promotions
  predicate PromotionsValid(plan: PlanFile, promotions: map<EpisodeId, EP.Receipt>) {
    forall w :: 0 <= w < |plan.shards| ==>
      forall e :: e in plan.shards[w] ==> e in promotions && promotions[e].worker == w
  }

  // The serial modes, updated with the shards.
  function FinalModes(plan: PlanFile): map<EpisodeId, Mode>
    requires |plan.shards| == 2
  {
    plan.modes + (map e | e in plan.shards[0] + plan.shards[1] :: TwoWorker)
  }

  function WorkerFor(plan: PlanFile, e: EpisodeId): Option<nat>
    requires |plan.shards| == 2
  {
    if e in plan.shards[1] then Some(1) else if e in plan.shards[0] then Some(0) else None
  }

  type Staging = map<(nat, EpisodeId), EP.Workspace>

  // _validate_abandoned_staging, for both workers
  predicate StagingValid(staging: Staging) {
    forall key :: key in staging && key.0 < 2 ==> EP.AbandonedValid(staging[key])
  }

  predicate Closable(plan: PlanFile, promotions: map<EpisodeId, EP.Receipt>, staging: Staging, inventory: seq<Record>)
    requires |plan.shards| == 2
  {
    && PromotionsValid(plan, promotions)
    && StagingValid(staging)
    && Ids(inventory) == plan.ordered
    && FrozenUnchanged(plan.frozen, inventory)
    && FinalModes(plan).Keys == set e | e in plan.ordered
  }

  function EntryFor(plan: PlanFile, record: Record): Entry
    requires |plan.shards| == 2 && record.id in FinalModes(plan)
  {
    Entry(record.id, FinalModes(plan)[record.id], WorkerFor(plan, record.id), record.combined, record.states,
        record.cost)
  }

  // The list comprehension over the final inventory.
  method ExecutionEntries(plan: PlanFile, inventory: seq<Record>) returns (entries: seq<Entry>)
    requires |plan.shards| == 2 && Covered(inventory, FinalModes(plan))
    ensures |entries| == |inventory|
    ensures forall k :: 0 <= k < |inventory| ==> entries[k] == EntryFor(plan, inventory[k])
  {
    entries := [];
    var k := 0;
    while k < |inventory|
      invariant 0 <= k <= |inventory| && |entries| == k
      invariant forall i :: 0 <= i < k ==> entries[i] == EntryFor(plan, inventory[i])
    {
      entries := entries + [EntryFor(plan, inventory[k])];
      k := k + 1;
    }
  }

  lemma ClosableCovered(plan: PlanFile, inventory: seq<Record>)
    requires |plan.shards| == 2 && Ids(inventory) == plan.ordered
    requires FinalModes(plan).Keys == set e | e in plan.ordered
    ensures Covered(inventory, FinalModes(plan))
  {
    forall k | 0 <= k < |inventory|
      ensures inventory[k].id in FinalModes(plan)
    {
      assert Ids(inventory)[k] in plan.ordered;
    }
  }

  // The checks of _run_plan after the workers, and the receipt it writes.
  method CloseRun(plan: PlanFile, promotions: map<EpisodeId, EP.Receipt>, staging: Staging, inventory: seq<Record>)
    returns (r: Result<Receipt, CloseError>)
    requires |plan.shards| == 2
    ensures r.Ok? <==> Closable(plan, promotions, staging, inventory)
    ensures r.Ok? ==> && Covered(inventory, FinalModes(plan))
                      && |r.value.entries| == |inventory|
                      && (forall k :: 0 <= k < |inventory| ==> r.value.entries[k] == EntryFor(plan, inventory[k]))
    ensures r.Ok? ==> && r.value.costs.Keys == {Serial, SerialContended, TwoWorker}
                      && forall mode :: mode in r.value.costs ==>
                           r.value.costs[mode] == Stratum(inventory, FinalModes(plan), mode, |inventory|)
  {
    hide Stratum, PromotionsValid, StagingValid, FrozenUnchanged, EntryFor, FinalModes;
    if !PromotionsValid(plan, promotions) { return Err(PromotionInvalid); }
    if !StagingValid(staging) { return Err(StagingInvalid); }
    if Ids(inventory) != plan.ordered { return Err(InventoryIncomplete); }
    if !FrozenUnchanged(plan.frozen, inventory) { return Err(FrozenChanged); }
    var modes := FinalModes(plan);
    if modes.Keys != set e | e in plan.ordered { return Err(ModesIncomplete); }
    ClosableCovered(plan, inventory);
    var entries := ExecutionEntries(plan, inventory);
    var costs := AggregateCosts(inventory, modes);
    return Ok(Receipt(entries, costs));
  }

  // ---------------------------------------------------------------- what a receipt says

  // A plan made at a cutover: the frozen records are a manifest prefix, each with a
  // serial mode.
  ghost predicate CutoverPlan(ordered: seq<EpisodeId>, frozen: seq<Record>, modes: map<EpisodeId, Mode>,
      plan: PlanFile)
  {
    && Distinct(ordered) && |frozen| <= |ordered| && Ids(frozen) == ordered[..|frozen|]
    && modes.Keys == (set e | e in Ids(frozen))
    && (forall e :: e in modes ==> modes[e] != TwoWorker)
    && CreatePlan(ordered, frozen, modes) == Ok(plan)
  }

  lemma PrefixIds(ordered: seq<EpisodeId>, frozen: seq<Record>)
    requires Distinct(ordered) && |frozen| <= |ordered| && Ids(frozen) == ordered[..|frozen|]
    ensures forall i :: 0 <= i < |ordered| ==> (ordered[i] in Ids(frozen) <==> i < |frozen|)
    ensures Distinct(Ids(frozen))
  {
    forall i | 0 <= i < |ordered|
      ensures ordered[i] in Ids(frozen) <==> i < |frozen|
    {
      if ordered[i] in Ids(frozen) {
        var j :| 0 <= j < |frozen| && Ids(frozen)[j] == ordered[i];
        assert ordered[j] == ordered[i];
      }
      if i < |frozen| { assert Ids(frozen)[i] == ordered[i]; }
    }
  }

  // Frozen prefix and shards split the manifest: every episode is in exactly one of
  // the three, and their sizes add up.
  lemma PlanPartitionsManifest(ordered: seq<EpisodeId>, frozen: seq<Record>, modes: map<EpisodeId, Mode>,
      plan: PlanFile)
    requires CutoverPlan(ordered, frozen, modes, plan)
    ensures plan.ordered == ordered && plan.frozen == frozen && plan.modes == modes && |plan.shards| == 2
    ensures |frozen| + |plan.shards[0]| + |plan.shards[1]| == |ordered|
    ensures |plan.shards[1]| <= |plan.shards[0]| <= |plan.shards[1]| + 1
    ensures forall i :: 0 <= i < |ordered| ==>
              (ordered[i] in plan.shards[0] <==> i >= |frozen| && (i - |frozen|) % 2 == 0)
    ensures forall i :: 0 <= i < |ordered| ==>
              (ordered[i] in plan.shards[1] <==> i >= |frozen| && (i - |frozen|) % 2 == 1)
    ensures forall e :: e in plan.shards[0] || e in plan.shards[1] ==> e in ordered && e !in Ids(frozen)
    ensures Distinct(plan.shards[0]) && Distinct(plan.shards[1])
    ensures forall e :: e in plan.shards[0] ==> e !in plan.shards[1]
  {
    PrefixIds(ordered, frozen);
    MissingIsTheRest(ordered, Ids(frozen), |frozen|);
    ShardsPartition(ordered, Ids(frozen));
    var missing := ordered[|frozen|..];
    ShardIndices(missing);
    forall i | 0 <= i < |ordered|
      ensures ordered[i] in plan.shards[0] <==> i >= |frozen| && (i - |frozen|) % 2 == 0
      ensures ordered[i] in plan.shards[1] <==> i >= |frozen| && (i - |frozen|) % 2 == 1
    {
      hide Shards, Missing, Ids;
      if i >= |frozen| { assert missing[i - |frozen|] == ordered[i]; }
    }
  }

  // Even positions go to the first shard, odd ones to the second.
  lemma ShardIndices(missing: seq<EpisodeId>)
    requires Distinct(missing)
    ensures forall k :: 0 <= k < |missing| ==>
              && (missing[k] in Shards(missing)[0] <==> k % 2 == 0)
              && (missing[k] in Shards(missing)[1] <==> k % 2 == 1)
  {
    var s := Shards(missing);
    forall k | 0 <= k < |missing|
      ensures missing[k] in s[0] <==> k % 2 == 0
      ensures missing[k] in s[1] <==> k % 2 == 1
    {
      assert k % 2 == 0 ==> s[0][k / 2] == missing[k];
      assert k % 2 == 1 ==> s[1][k / 2] == missing[k];
      assert forall i :: 0 <= i < |s[0]| ==> s[0][i] == missing[2 * i];
      assert forall i :: 0 <= i < |s[1]| ==> s[1][i] == missing[2 * i + 1];
    }
  }

  // Which mode and worker the entry of an id gets, from where the id is.
  lemma ModeOf(plan: PlanFile, e: EpisodeId)
    requires |plan.shards| == 2 && forall x :: x in plan.shards[0] ==> x !in plan.shards[1]
    ensures e in FinalModes(plan) <==> e in plan.modes || e in plan.shards[0] || e in plan.shards[1]
    ensures e in plan.shards[0] ==> FinalModes(plan)[e] == TwoWorker && WorkerFor(plan, e) == Some(0)
    ensures e in plan.shards[1] ==> FinalModes(plan)[e] == TwoWorker && WorkerFor(plan, e) == Some(1)
    ensures e in plan.modes && e !in plan.shards[0] && e !in plan.shards[1] ==>
              FinalModes(plan)[e] == plan.modes[e] && WorkerFor(plan, e).None?
  {
  }

  // Entry by entry: an execution receipt names the manifest in order; a frozen episode
  // keeps its cutover record and its serial mode, every other one is a two-worker
  // episode of the worker that promoted it.
  lemma ReceiptCoversManifest(ordered: seq<EpisodeId>, frozen: seq<Record>, modes: map<EpisodeId, Mode>, plan: PlanFile,
                              promotions: map<EpisodeId, EP.Receipt>, staging: Staging, inventory: seq<Record>, k: nat)
    requires CutoverPlan(ordered, frozen, modes, plan) && |plan.shards| == 2
    requires Closable(plan, promotions, staging, inventory) && k < |inventory|
    ensures |inventory| == |ordered| && inventory[k].id == ordered[k] && ordered[k] in FinalModes(plan)
    ensures var entry := EntryFor(plan, inventory[k]);
            && entry.id == ordered[k] && entry.combined == inventory[k].combined
            && entry.states == inventory[k].states && entry.cost == inventory[k].cost
    ensures var entry := EntryFor(plan, inventory[k]);
            if k < |frozen| then
              && entry.mode == modes[ordered[k]] != TwoWorker && entry.worker.None?
              && entry.combined == frozen[k].combined && inventory[k].metadata == frozen[k].metadata
              && inventory[k].primitives == frozen[k].primitives && inventory[k].links == frozen[k].links
            else
              var w := (k - |frozen|) % 2;
              && ordered[k] in plan.shards[w] && entry.mode == TwoWorker && entry.worker == Some(w)
              && promotions[ordered[k]].worker == w
  {
    PlanPartitionsManifest(ordered, frozen, modes, plan);
    PrefixIds(ordered, frozen);
    hide CreatePlan, Shards, Missing, Ids, FinalModes, WorkerFor, FrozenUnchanged, SameFrozen;
    assert Ids(inventory)[k] == ordered[k];
    ModeOf(plan, ordered[k]);
    if k < |frozen| {
      assert ordered[k] in Ids(frozen);
      FrozenRecordKept(ordered, frozen, inventory, k);
    }
  }

  lemma FrozenRecordKept(ordered: seq<EpisodeId>, frozen: seq<Record>, inventory: seq<Record>, k: nat)
    requires Distinct(ordered) && k < |frozen| <= |ordered|
    requires Ids(frozen) == ordered[..|frozen|] && Ids(inventory) == ordered && FrozenUnchanged(frozen, inventory)
    ensures |inventory| == |ordered|
    ensures var was, now := frozen[k], inventory[k];
            && now.combined == was.combined && now.metadata == was.metadata
            && now.primitives == was.primitives && now.links == was.links
  {
    assert Ids(frozen)[k] == ordered[k] && frozen[k] in frozen;
    var c :| c in inventory && SameFrozen(frozen[k], c);
    var j :| 0 <= j < |inventory| && inventory[j] == c;
    assert Ids(inventory)[j] == ordered[j];
  }

  // ---------------------------------------------------------------- after the workers

  // The plan as the workers see it.
  function WorkerPlan(plan: PlanFile): WP.Plan {
    WP.Plan(map e | e in Ids(plan.frozen) :: CombinedOf(plan.frozen, e), plan.shards)
  }

  function CombinedOf(records: seq<Record>, e: EpisodeId): Digest
    requires e in Ids(records)
  {
    if records[0].id == e then records[0].combined else CombinedOf(records[1..], e)
  }

  lemma {:induction false} CombinedAt(records: seq<Record>, i: nat)
    requires i < |records| && Distinct(Ids(records))
    ensures records[i].id in Ids(records) && CombinedOf(records, records[i].id) == records[i].combined
  {
    assert Ids(records)[i] == records[i].id;
    if i > 0 {
      assert Ids(records)[0] != Ids(records)[i];
      assert Ids(records) == [records[0].id] + Ids(records[1..]);
      TailDistinct(Ids(records));
      CombinedAt(records[1..], i - 1);
    }
  }

  // _inventory: the published sidecars, in manifest order.
  function Inventory(ordered: seq<EpisodeId>, s: WP.State, load: (EpisodeId, Digest) -> Record): seq<Record> {
    if ordered == [] then []
    else
      var rest := Inventory(ordered[1..], s, load);
      var destination := WP.PubOf(s, ordered[0]).destination;
      if destination.Some? then [load(ordered[0], destination.value)] + rest else rest
  }

  // Loading a sidecar depends on its content alone, and reproduces the frozen records.
  ghost predicate Loads(load: (EpisodeId, Digest) -> Record, frozen: seq<Record>) {
    && (forall e, d :: load(e, d).id == e && load(e, d).combined == d)
    && (forall f :: f in frozen ==> SameFrozen(f, load(f.id, f.combined)))
  }

  lemma {:induction false} FullInventory(ordered: seq<EpisodeId>, s: WP.State, load: (EpisodeId, Digest) -> Record)
    requires forall e, d :: load(e, d).id == e
    requires forall e :: e in ordered ==> WP.PubOf(s, e).destination.Some?
    ensures Ids(Inventory(ordered, s, load)) == ordered
    ensures forall e :: e in ordered ==> load(e, WP.PubOf(s, e).destination.value) in Inventory(ordered, s, load)
  {
    if ordered != [] {
      FullInventory(ordered[1..], s, load);
      assert ordered == [ordered[0]] + ordered[1..];
    }
  }

  function Promotions(plan: PlanFile, s: WP.State): map<EpisodeId, EP.Receipt>
    requires |plan.shards| == 2
  {
    map e | e in plan.shards[0] + plan.shards[1] && WP.PubOf(s, e).promotion.Some? :: WP.PubOf(s, e).promotion.value
  }

  lemma WorkerPlanOk(ordered: seq<EpisodeId>, frozen: seq<Record>, modes: map<EpisodeId, Mode>, plan: PlanFile)
    requires CutoverPlan(ordered, frozen, modes, plan)
    ensures WP.PlanOk(WorkerPlan(plan))
  {
    hide CreatePlan, Shards, Missing;
    PlanPartitionsManifest(ordered, frozen, modes, plan);
  }

  lemma AllPublished(ordered: seq<EpisodeId>, frozen: seq<Record>, modes: map<EpisodeId, Mode>, plan: PlanFile,
                     r: WP.Run, i: nat)
    requires CutoverPlan(ordered, frozen, modes, plan) && |plan.shards| == 2
    requires WP.IsRun(WorkerPlan(plan), r) && i < |r.states|
    requires WP.Done(WorkerPlan(plan), r.states[i], 0) && WP.Done(WorkerPlan(plan), r.states[i], 1)
    ensures forall e :: e in ordered ==> WP.PubOf(r.states[i], e).destination.Some?
    ensures forall k :: 0 <= k < |frozen| ==>
              WP.PubOf(r.states[i], frozen[k].id).destination == Some(frozen[k].combined)
    ensures PromotionsValid(plan, Promotions(plan, r.states[i]))
  {
    var s, wp := r.states[i], WorkerPlan(plan);
    PlanPartitionsManifest(ordered, frozen, modes, plan);
    hide CutoverPlan, WP.IsRun, WP.PlanOk;
    ShardsPromoted(plan, r, i);
    forall k | 0 <= k < |frozen|
      ensures WP.PubOf(s, frozen[k].id).destination == Some(frozen[k].combined)
    {
      FrozenPublished(ordered, frozen, modes, plan, r, i, k);
    }
    forall e | e in ordered
      ensures WP.PubOf(s, e).destination.Some?
    {
      var k :| 0 <= k < |ordered| && ordered[k] == e;
      if k < |frozen| { PrefixId(ordered, frozen, modes, plan, k); }
    }
  }

  lemma PrefixId(ordered: seq<EpisodeId>, frozen: seq<Record>, modes: map<EpisodeId, Mode>, plan: PlanFile, k: nat)
    requires CutoverPlan(ordered, frozen, modes, plan) && k < |frozen|
    ensures k < |ordered| && ordered[k] == frozen[k].id
  {
    assert Ids(frozen)[k] == ordered[k];
  }

  lemma FrozenPublished(ordered: seq<EpisodeId>, frozen: seq<Record>, modes: map<EpisodeId, Mode>, plan: PlanFile,
                        r: WP.Run, i: nat, k: nat)
    requires CutoverPlan(ordered, frozen, modes, plan) && k < |frozen|
    requires WP.IsRun(WorkerPlan(plan), r) && i < |r.states|
    ensures WP.PubOf(r.states[i], frozen[k].id).destination == Some(frozen[k].combined)
  {
    PrefixIds(ordered, frozen);
    CombinedAt(frozen, k);
    WP.FrozenUntouched(WorkerPlan(plan), r, i, frozen[k].id);
  }

  lemma ShardsPromoted(plan: PlanFile, r: WP.Run, i: nat)
    requires |plan.shards| == 2
    requires WP.IsRun(WorkerPlan(plan), r) && i < |r.states|
    requires WP.Done(WorkerPlan(plan), r.states[i], 0) && WP.Done(WorkerPlan(plan), r.states[i], 1)
    ensures forall w, e :: 0 <= w < 2 && e in plan.shards[w] ==> WP.PubOf(r.states[i], e).destination.Some?
    ensures PromotionsValid(plan, Promotions(plan, r.states[i]))
  {
    var s, wp := r.states[i], WorkerPlan(plan);
    WP.DoneMeansPromoted(wp, r, i, 0);
    WP.DoneMeansPromoted(wp, r, i, 1);
    forall w, e | 0 <= w < 2 && e in plan.shards[w]
      ensures e in Promotions(plan, s) && Promotions(plan, s)[e].worker == w
    {
      WP.PublishedChain(wp, r, i, w, e);
    }
  }

  lemma OneFrozenLoaded(ordered: seq<EpisodeId>, frozen: seq<Record>, s: WP.State, load: (EpisodeId,
      Digest) -> Record, k: nat)
    requires Loads(load, frozen) && |frozen| <= |ordered| && Ids(frozen) == ordered[..|frozen|] && k < |frozen|
    requires forall e :: e in ordered ==>
               && WP.PubOf(s, e).destination.Some?
               && load(e, WP.PubOf(s, e).destination.value) in Inventory(ordered, s, load)
    requires WP.PubOf(s, frozen[k].id).destination == Some(frozen[k].combined)
    ensures var c := load(frozen[k].id, frozen[k].combined);
            c in Inventory(ordered, s, load) && SameFrozen(frozen[k], c)
  {
    hide Inventory, SameFrozen;
    assert Ids(frozen)[k] == ordered[k];
    assert frozen[k] in frozen;
  }

  lemma FrozenLoaded(ordered: seq<EpisodeId>, frozen: seq<Record>, s: WP.State, load: (EpisodeId, Digest) -> Record)
    requires Loads(load, frozen) && |frozen| <= |ordered| && Ids(frozen) == ordered[..|frozen|]
    requires forall e :: e in ordered ==> WP.PubOf(s, e).destination.Some?
    requires forall k :: 0 <= k < |frozen| ==> WP.PubOf(s, frozen[k].id).destination == Some(frozen[k].combined)
    ensures FrozenUnchanged(frozen, Inventory(ordered, s, load))
  {
    FullInventory(ordered, s, load);
    hide Inventory, SameFrozen, Ids, Loads;
    forall f | f in frozen
      ensures exists c :: c in Inventory(ordered, s, load) && SameFrozen(f, c)
    {
      var k :| 0 <= k < |frozen| && frozen[k] == f;
      OneFrozenLoaded(ordered, frozen, s, load, k);
    }
  }

  // Nothing is staged outside a worker's own shard.
  lemma ElsewhereValid(plan: WP.Plan, s: WP.State, w: nat, e: EpisodeId)
    requires |plan.shards| == 2 && w < 2 && WP.WorkerOk(plan, s, w) && e !in plan.shards[w]
    ensures EP.AbandonedValid(WP.SpaceOf(s, w, e))
  {
    hide WP.EpisodeOk;
  }

  lemma NoSpaceValid(s: WP.State, w: nat, e: EpisodeId)
    requires (w, e) !in s.spaces
    ensures EP.AbandonedValid(WP.SpaceOf(s, w, e))
  {
  }

  lemma StagingSame(plan: WP.Plan, r: WP.Run, i: nat)
    requires WP.IsRun(plan, r) && i < |r.states|
    ensures StagingValid(r.states[i].spaces) <==> WP.StagingAccepted(plan, r.states[i])
  {
    hide WP.WorkerOk;
    WP.InvRun(plan, r, i);
    SpacesSame(plan, r.states[i]);
  }

  lemma SpacesSame(plan: WP.Plan, s: WP.State)
    requires |plan.shards| == 2 && WP.WorkerOk(plan, s, 0) && WP.WorkerOk(plan, s, 1)
    ensures StagingValid(s.spaces) <==> WP.StagingAccepted(plan, s)
  {
    hide WP.WorkerOk, EP.AbandonedValid;
    if WP.StagingAccepted(plan, s) {
      forall key | key in s.spaces && key.0 < 2
        ensures EP.AbandonedValid(s.spaces[key])
      {
        assert key == (key.0, key.1) && WP.SpaceOf(s, key.0, key.1) == s.spaces[key];
        if key.1 !in plan.shards[key.0] {
          ElsewhereValid(plan, s, key.0, key.1);
        }
      }
    }
    if StagingValid(s.spaces) {
      forall w: nat, e: EpisodeId | w < 2 && e in plan.shards[w]
        ensures EP.AbandonedValid(WP.SpaceOf(s, w, e))
      {
        if (w, e) !in s.spaces {
          NoSpaceValid(s, w, e);
        } else {
          assert WP.SpaceOf(s, w, e) == s.spaces[(w, e)];
        }
      }
    }
  }

  // When both workers of a plan made at a cutover have finished, every check of
  // _run_plan passes on its own account except the one on abandoned staging; so the
  // execution receipt is written exactly when no worker ever died in one of the two
  // windows that leave a shell.
  lemma RunClosesExactly(ordered: seq<EpisodeId>, frozen: seq<Record>, modes: map<EpisodeId, Mode>, plan: PlanFile,
                         load: (EpisodeId, Digest) -> Record, r: WP.Run, i: nat)
    requires CutoverPlan(ordered, frozen, modes, plan) && |plan.shards| == 2 && Loads(load, frozen)
    requires WP.IsPath(WorkerPlan(plan), r) && WP.Init(WorkerPlan(plan), r.states[0]) && i < |r.states|
    requires WP.Done(WorkerPlan(plan), r.states[i], 0) && WP.Done(WorkerPlan(plan), r.states[i], 1)
    ensures var s, wp := r.states[i], WorkerPlan(plan);
            Closable(plan, Promotions(plan, s), s.spaces, Inventory(ordered, s, load))
            <==> forall k, w, e :: 0 <= k < i && 0 <= w < 2 && e in plan.shards[w] ==> !WP.FatalCrash(wp, r, k, w, e)
  {
    var s, wp := r.states[i], WorkerPlan(plan);
    WorkerPlanOk(ordered, frozen, modes, plan);
    AllButStaging(ordered, frozen, modes, plan, load, r, i, s.spaces);
    WP.StagingAcceptedExactly(wp, r, i);
    StagingSame(wp, r, i);
  }

  lemma AllButStaging(ordered: seq<EpisodeId>, frozen: seq<Record>, modes: map<EpisodeId, Mode>, plan: PlanFile,
                      load: (EpisodeId, Digest) -> Record, r: WP.Run, i: nat, staging: Staging)
    requires CutoverPlan(ordered, frozen, modes, plan) && |plan.shards| == 2 && Loads(load, frozen)
    requires WP.IsRun(WorkerPlan(plan), r) && i < |r.states|
    requires WP.Done(WorkerPlan(plan), r.states[i], 0) && WP.Done(WorkerPlan(plan), r.states[i], 1)
    ensures var s := r.states[i];
            Closable(plan, Promotions(plan, s), staging, Inventory(ordered, s, load)) <==> StagingValid(staging)
  {
    var s := r.states[i];
    PlanPartitionsManifest(ordered, frozen, modes, plan);
    AllPublished(ordered, frozen, modes, plan, r, i);
    FrozenLoaded(ordered, frozen, s, load);
    FullInventory(ordered, s, load);
    ModesCover(ordered, frozen, modes, plan);
  }

  lemma ModesCover(ordered: seq<EpisodeId>, frozen: seq<Record>, modes: map<EpisodeId, Mode>, plan: PlanFile)
    requires CutoverPlan(ordered, frozen, modes, plan) && |plan.shards| == 2
    ensures FinalModes(plan).Keys == set e | e in plan.ordered
  {
    hide CreatePlan, Shards, Missing;
    PlanPartitionsManifest(ordered, frozen, modes, plan);
    forall e | e in ordered
      ensures e in FinalModes(plan)
    {
      var k :| 0 <= k < |ordered| && ordered[k] == e;
      if k < |frozen| { assert Ids(frozen)[k] == e; } else { assert ordered[k] in plan.shards[(k - |frozen|) % 2]; }
    }
    forall e | e in FinalModes(plan)
      ensures e in ordered
    {
      if e in modes {
        var k :| 0 <= k < |frozen| && Ids(frozen)[k] == e;
        assert ordered[k] == e;
      }
    }
  }

  const NO_COST := Cost(0.0, 0, 0, 0, 0, 0, 0, 0)

  function Loaded(e: EpisodeId, d: Digest): Record {
    Record(e, d, 0, 0, 0, 0, 0, NO_COST)
  }

  const PAIR := PlanFile([0, 1], [], map[], [[0], [1]])

  lemma PairPlanned()
    ensures CutoverPlan([0, 1], [], map[], PAIR) && WorkerPlan(PAIR) == WP.PAIR
    ensures |PAIR.shards| == 2 && Loads(Loaded, [])
  {
    assert Missing([1], []) == [1];
    assert Missing([0, 1], []) == [0, 1];
    assert [0, 1][1..] == [1];
    assert EveryOther([0, 1][2..]) == [];
    assert EveryOther([0, 1]) == [0];
  }

  /// A run of two episodes after which no receipt is written, though both workers are done
  /// and every other check passes.
  lemma UnclosedRun() returns (r: WP.Run)
    ensures CutoverPlan([0, 1], [], map[], PAIR) && WorkerPlan(PAIR) == WP.PAIR && Loads(Loaded, [])
    ensures WP.Reaches(WP.PAIR, r, WP.STUCK) && WP.Done(WP.PAIR, WP.STUCK, 0) && WP.Done(WP.PAIR, WP.STUCK, 1)
    ensures var inventory := Inventory([0, 1], WP.STUCK, Loaded);
            && !Closable(PAIR, Promotions(PAIR, WP.STUCK), WP.STUCK.spaces, inventory)
            && Closable(PAIR, Promotions(PAIR, WP.STUCK), map[], inventory)
  {
    PairPlanned();
    r := WP.StuckRun();
    hide *;
    OnlyStagingFails([0, 1], [], map[], PAIR, Loaded, r, WP.STUCK);
  }

  lemma OnlyStagingFails(ordered: seq<EpisodeId>, frozen: seq<Record>, modes: map<EpisodeId, Mode>, plan: PlanFile,
                         load: (EpisodeId, Digest) -> Record, r: WP.Run, s: WP.State)
    requires CutoverPlan(ordered, frozen, modes, plan) && |plan.shards| == 2 && Loads(load, frozen)
    requires WP.Reaches(WorkerPlan(plan), r, s) && !WP.StagingAccepted(WorkerPlan(plan), s)
    requires WP.Done(WorkerPlan(plan), s, 0) && WP.Done(WorkerPlan(plan), s, 1)
    ensures !Closable(plan, Promotions(plan, s), s.spaces, Inventory(ordered, s, load))
    ensures Closable(plan, Promotions(plan, s), map[], Inventory(ordered, s, load))
  {
    hide Closable, Promotions, Inventory, WP.StagingAccepted, WP.IsRun, WP.Done, CutoverPlan, Loads, WorkerPlan;
    var i := |r.actions|;
    WP.LastOfRun(WorkerPlan(plan), r);
    AllButStaging(ordered, frozen, modes, plan, load, r, i, s.spaces);
    AllButStaging(ordered, frozen, modes, plan, load, r, i, map[]);
    StagingSame(WorkerPlan(plan), r, i);
  }
}
