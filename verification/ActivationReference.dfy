/// The row spans of the activation reference: what the builder concatenates and what the
/// validator accepts (ops/build_calibration_activation_reference.py: the row checks of
/// _canonical_arrays, the span loops of _validate_metadata and
/// _build_from_frozen_sources).  Vectors and digests are left out.

module ActivationReference {

  const STRIDE: nat := 5

  type Id = nat

  // One row of each identity array per activation row.
  datatype Arrays = Arrays(episode: seq<int>, base: seq<int>, step: seq<int>)

  datatype Episode = Episode(index: int, id: Id, base: int, start: int, stop: int)

  // ---------------------------------------------------------------- the validator

  // The row checks of _canonical_arrays.
  predicate Canonical(a: Arrays) {
    && |a.step| >= 1 && |a.episode| == |a.step| && |a.base| == |a.step|
    && forall r :: 0 <= r < |a.step| ==>
         a.episode[r] >= 0 && a.base[r] >= 0 && a.step[r] >= 0 && a.step[r] % STRIDE == 0
  }

  // Python slicing stops at the end of the array.
  function Slice(s: seq<int>, start: nat, stop: nat): seq<int>
    requires start <= stop
  {
    if |s| <= start then [] else if |s| < stop then s[start..] else s[start..stop]
  }

  // `np.arange(0, stop, STRIDE)`
  function Arange(stop: int): seq<int> {
    if stop <= 0 then [] else Arange(stop - STRIDE as int) + [((stop - 1) / STRIDE) * STRIDE]
  }

  // The checks on one entry of the episode list; a span without rows makes `steps[-1]` fail.
  predicate EntryOk(e: Episode, i: nat, expectedStart: nat, a: Arrays)
    requires Canonical(a)
  {
    && e.index == i && e.start == expectedStart && e.start < e.stop && e.base >= 0
    && var episode, base, step :=
         Slice(a.episode, e.start, e.stop), Slice(a.base, e.start, e.stop), Slice(a.step, e.start, e.stop);
    && (forall k :: 0 <= k < |episode| ==> episode[k] == i)
    && (forall k :: 0 <= k < |base| ==> base[k] == e.base)
    && step != [] && step == Arange(step[|step| - 1] + 1)
  }

  predicate Ascending(ids: seq<Id>) {
    forall i, j :: 0 <= i < j < |ids| ==> ids[i] < ids[j]
  }

  // What acceptance means: the spans tile the rows in order, and every row carries its
  // episode, its episode's base-init id and STRIDE times its offset in the span.
  predicate Tiles(episodes: seq<Episode>, a: Arrays) {
    && episodes != [] && Canonical(a)
    && episodes[0].start == 0 && episodes[|episodes| - 1].stop == |a.step|
    && (forall i :: 0 <= i < |episodes| - 1 ==> episodes[i].stop == episodes[i + 1].start)
    && (forall i :: 0 <= i < |episodes| ==> SpanOk(episodes[i], i, a))
    && forall i, j :: 0 <= i < j < |episodes| ==> episodes[i].id < episodes[j].id
  }

  predicate SpanOk(e: Episode, i: nat, a: Arrays)
    requires Canonical(a)
  {
    && e.index == i && 0 <= e.start < e.stop <= |a.step| && e.base >= 0
    && forall r :: e.start <= r < e.stop ==>
         a.episode[r] == i && a.base[r] == e.base && a.step[r] == STRIDE * (r - e.start)
  }

  lemma {:induction false} ArangeIs(stop: int)
    ensures stop >= 1 ==> |Arange(stop)| == (stop - 1) / STRIDE + 1
    ensures stop < 1 ==> Arange(stop) == []
    ensures forall k :: 0 <= k < |Arange(stop)| ==> Arange(stop)[k] == STRIDE * k
    decreases if stop < 0 then 0 else stop
  {
    if stop >= 1 {
      ArangeIs(stop - STRIDE as int);
    }
  }

  // A stretch that is an arange up to its own last value is the multiples of the stride.
  lemma CadenceExactly(step: seq<int>)
    requires step != []
    ensures step == Arange(step[|step| - 1] + 1) <==> forall k :: 0 <= k < |step| ==> step[k] == STRIDE * k
  {
    var n := |step|;
    var last := step[n - 1];
    ArangeIs(last + 1);
    if forall k :: 0 <= k < n ==> step[k] == STRIDE * k {
      assert last == STRIDE * (n - 1);
      assert (STRIDE * (n - 1)) / STRIDE == n - 1;
    }
  }

  lemma SliceAt(s: seq<int>, start: nat, stop: nat)
    requires start <= stop <= |s|
    ensures |Slice(s, start, stop)| == stop - start
    ensures forall r :: start <= r < stop ==> s[r] == Slice(s, start, stop)[r - start]
    ensures forall k :: 0 <= k < stop - start ==> Slice(s, start, stop)[k] == s[start + k]
  {
    if start < |s| && stop == |s| {
      assert s[start..stop] == s[start..];
    }
  }

  lemma EntryExactly(e: Episode, i: nat, start: nat, a: Arrays)
    requires Canonical(a) && e.stop <= |a.step|
    ensures EntryOk(e, i, start, a) <==> e.start == start && SpanOk(e, i, a)
  {
    hide Arange, Slice;
    if e.start == start && e.start < e.stop {
      SliceAt(a.episode, e.start, e.stop);
      SliceAt(a.base, e.start, e.stop);
      SliceAt(a.step, e.start, e.stop);
      CadenceExactly(Slice(a.step, e.start, e.stop));
    }
  }

  function PreviousStop(episodes: seq<Episode>, i: nat): int
    requires i <= |episodes|
  {
    if i == 0 then 0 else episodes[i - 1].stop
  }

  predicate EntriesOk(episodes: seq<Episode>, n: nat, a: Arrays)
    requires Canonical(a) && n <= |episodes|
  {
    forall j :: 0 <= j < n ==> PreviousStop(episodes, j) >= 0 && EntryOk(episodes[j], j, PreviousStop(episodes, j), a)
  }

  lemma TilesEntry(episodes: seq<Episode>, a: Arrays, i: nat)
    requires Canonical(a) && Tiles(episodes, a) && i < |episodes|
    ensures PreviousStop(episodes, i) >= 0 && EntryOk(episodes[i], i, PreviousStop(episodes, i), a)
  {
    hide EntryOk;
    assert SpanOk(episodes[i], i, a);
    if i > 0 { assert episodes[i - 1].stop == episodes[i].start; }
    EntryExactly(episodes[i], i, PreviousStop(episodes, i), a);
  }

  lemma EntryStop(e: Episode, i: nat, start: nat, a: Arrays)
    requires Canonical(a) && EntryOk(e, i, start, a)
    ensures e.start == start < e.stop
  {
  }

  lemma {:induction false} StopsGrow(episodes: seq<Episode>, a: Arrays, i: nat, j: nat)
    requires Canonical(a) && i <= j < |episodes| && EntriesOk(episodes, |episodes|, a)
    ensures episodes[i].stop <= episodes[j].stop
    decreases j - i
  {
    hide EntryOk, Canonical;
    if i < j {
      EntryStop(episodes[j], j, PreviousStop(episodes, j), a);
      StopsGrow(episodes, a, i, j - 1);
    }
  }

  lemma EntriesTile(episodes: seq<Episode>, a: Arrays)
    requires Canonical(a) && episodes != [] && EntriesOk(episodes, |episodes|, a)
    requires episodes[|episodes| - 1].stop == |a.step|
    requires forall i, j :: 0 <= i < j < |episodes| ==> episodes[i].id < episodes[j].id
    ensures Tiles(episodes, a)
  {
    hide SpanOk;
    forall i | 0 <= i < |episodes|
      ensures SpanOk(episodes[i], i, a) && episodes[i].start == PreviousStop(episodes, i)
    {
      StopsGrow(episodes, a, i, |episodes| - 1);
      EntryExactly(episodes[i], i, PreviousStop(episodes, i), a);
    }
  }

  lemma NothingTiles(a: Arrays)
    ensures !Tiles([], a)
  {
  }

  lemma TilesEnds(episodes: seq<Episode>, a: Arrays)
    requires Tiles(episodes, a)
    ensures episodes != [] && episodes[|episodes| - 1].stop == |a.step|
    ensures forall i, j :: 0 <= i < j < |episodes| ==> episodes[i].id < episodes[j].id
  {
  }

  /// The span loop accepts exactly the episode lists that tile the rows.
  method ValidateSpans(episodes: seq<Episode>, a: Arrays) returns (accepted: bool)
    requires Canonical(a)
    ensures accepted <==> Tiles(episodes, a)
  {
    hide Tiles, EntryOk, Canonical, EntriesOk;
    NothingTiles(a);
    if episodes == [] {
      return false;
    }
    var expectedStart: nat := 0;
    var ids: seq<Id> := [];
    NoEntries(episodes, a);
    var i := 0;
    while i < |episodes|
      invariant 0 <= i <= |episodes| && |ids| == i
      invariant forall j :: 0 <= j < i ==> ids[j] == episodes[j].id
      invariant expectedStart == PreviousStop(episodes, i)
      invariant EntriesOk(episodes, i, a)
    {
      if !EntryOk(episodes[i], i, expectedStart, a) {
        if Tiles(episodes, a) {
          TilesEntry(episodes, a, i);
        }
        return false;
      }
      EntryStop(episodes[i], i, expectedStart, a);
      OneMoreEntry(episodes, i, a);
      ids := ids + [episodes[i].id];
      expectedStart := episodes[i].stop;
      i := i + 1;
    }
    accepted := Ascending(ids) && expectedStart == |a.step|;
    AcceptedTiles(episodes, ids, expectedStart, a);
  }

  lemma NoEntries(episodes: seq<Episode>, a: Arrays)
    requires Canonical(a)
    ensures EntriesOk(episodes, 0, a)
  {
  }

  lemma OneMoreEntry(episodes: seq<Episode>, i: nat, a: Arrays)
    requires Canonical(a) && i < |episodes| && EntriesOk(episodes, i, a)
    requires PreviousStop(episodes, i) >= 0 && EntryOk(episodes[i], i, PreviousStop(episodes, i), a)
    ensures EntriesOk(episodes, i + 1, a)
  {
    hide EntryOk;
  }

  lemma AcceptedTiles(episodes: seq<Episode>, ids: seq<Id>, expectedStart: nat, a: Arrays)
    requires Canonical(a) && episodes != [] && EntriesOk(episodes, |episodes|, a) && |ids| == |episodes|
    requires forall j :: 0 <= j < |ids| ==> ids[j] == episodes[j].id
    requires expectedStart == PreviousStop(episodes, |episodes|)
    ensures Ascending(ids) && expectedStart == |a.step| <==> Tiles(episodes, a)
  {
    hide Tiles, EntriesOk, Canonical;
    if Ascending(ids) && expectedStart == |a.step| {
      forall i, j | 0 <= i < j < |episodes|
        ensures episodes[i].id < episodes[j].id
      {
        assert ids[i] < ids[j];
      }
      EntriesTile(episodes, a);
    }
    if Tiles(episodes, a) {
      TilesEnds(episodes, a);
    }
  }

  // ---------------------------------------------------------------- what acceptance gives

  // Row `r` lies in the span of episode `i`.
  predicate InSpan(e: Episode, r: nat) {
    e.start <= r < e.stop
  }

  lemma {:induction false} SomeSpan(episodes: seq<Episode>, a: Arrays, r: nat, n: nat) returns (i: nat)
    requires Tiles(episodes, a) && 1 <= n <= |episodes| && r < episodes[n - 1].stop
    ensures i < n && InSpan(episodes[i], r)
  {
    assert SpanOk(episodes[n - 1], n - 1, a);
    if episodes[n - 1].start <= r {
      i := n - 1;
    } else {
      assert n > 1 && episodes[n - 2].stop == episodes[n - 1].start;
      i := SomeSpan(episodes, a, r, n - 1);
    }
  }

  /// Every row lies in the span of exactly one episode, the one it names; its base-init id
  /// is that episode's and its control step is the stride times its place in the span.
  lemma RowsDetermined(episodes: seq<Episode>, a: Arrays, r: nat)
    requires Tiles(episodes, a) && r < |a.step|
    ensures 0 <= a.episode[r] < |episodes|
    ensures forall i :: 0 <= i < |episodes| ==> (InSpan(episodes[i], r) <==> i == a.episode[r])
    ensures var e := episodes[a.episode[r]]; a.base[r] == e.base && a.step[r] == STRIDE * (r - e.start)
  {
    var n := SomeSpan(episodes, a, r, |episodes|);
    assert SpanOk(episodes[n], n, a);
    forall i | 0 <= i < |episodes| && InSpan(episodes[i], r)
      ensures i == n
    {
      assert SpanOk(episodes[i], i, a);
      assert a.episode[r] == i;
    }
  }

  /// No two rows share an episode id and a control step.
  lemma RowIdentitiesUnique(episodes: seq<Episode>, a: Arrays, r: nat, q: nat)
    requires Tiles(episodes, a) && r < |a.step| && q < |a.step| && r != q
    ensures 0 <= a.episode[r] < |episodes| && 0 <= a.episode[q] < |episodes|
    ensures episodes[a.episode[r]].id != episodes[a.episode[q]].id || a.step[r] != a.step[q]
  {
    RowsDetermined(episodes, a, r);
    RowsDetermined(episodes, a, q);
    if a.episode[r] != a.episode[q] {
      var i, j := a.episode[r], a.episode[q];
      assert if i < j then episodes[i].id < episodes[j].id else episodes[j].id < episodes[i].id;
    }
  }

  // ---------------------------------------------------------------- the builder

  // One sidecar: its control steps, one per activation row, and its specification's base-init id.
  datatype Source = Source(id: Id, base: int, steps: seq<int>)

  function RowsBefore(sources: seq<Source>, n: nat): nat
    requires n <= |sources|
  {
    if n == 0 then 0 else RowsBefore(sources, n - 1) + |sources[n - 1].steps|
  }

  // The rows of source `i` sit after the rows of the sources before it.
  predicate Placed(sources: seq<Source>, i: nat, a: Arrays)
    requires i < |sources| && |a.episode| == |a.step| && |a.base| == |a.step|
  {
    && RowsBefore(sources, i + 1) <= |a.step|
    && forall r :: RowsBefore(sources, i) <= r < RowsBefore(sources, i + 1) ==>
         && a.episode[r] == i && a.base[r] == sources[i].base
         && a.step[r] == sources[i].steps[r - RowsBefore(sources, i)]
  }

  predicate Concatenated(sources: seq<Source>, n: nat, a: Arrays)
    requires n <= |sources|
  {
    && |a.step| == RowsBefore(sources, n) && |a.episode| == |a.step| && |a.base| == |a.step|
    && forall i :: 0 <= i < n ==> Placed(sources, i, a)
  }

  function EntryFor(sources: seq<Source>, i: nat): Episode
    requires i < |sources|
  {
    Episode(i, sources[i].id, sources[i].base, RowsBefore(sources, i), RowsBefore(sources, i + 1))
  }

  predicate Listed(sources: seq<Source>, n: nat, episodes: seq<Episode>)
    requires n <= |sources|
  {
    && |episodes| == n
    && forall i :: 0 <= i < n ==> episodes[i] == EntryFor(sources, i)
  }

  predicate IdsAscending(sources: seq<Source>) {
    forall i, j :: 0 <= i < j < |sources| ==> sources[i].id < sources[j].id
  }

  lemma Appended(sources: seq<Source>, i: nat, a: Arrays, b: Arrays)
    requires i < |sources| && Concatenated(sources, i, a)
    requires b.step == a.step + sources[i].steps
    requires b.episode == a.episode + seq(|sources[i].steps|, _ => i)
    requires b.base == a.base + seq(|sources[i].steps|, _ => sources[i].base)
    ensures Concatenated(sources, i + 1, b)
  {
    forall j | 0 <= j < i
      ensures Placed(sources, j, b)
    {
      assert Placed(sources, j, a);
    }
  }

  /// The concatenation loop over the sorted episode ids.
  method Build(sources: seq<Source>) returns (episodes: seq<Episode>, a: Arrays)
    requires IdsAscending(sources)
    ensures Listed(sources, |sources|, episodes) && Concatenated(sources, |sources|, a)
  {
    var episodeParts: seq<int>, baseParts: seq<int>, stepParts: seq<int> := [], [], [];
    episodes := [];
    var rowStart := 0;
    for i := 0 to |sources|
      invariant rowStart == RowsBefore(sources, i)
      invariant Listed(sources, i, episodes)
      invariant Concatenated(sources, i, Arrays(episodeParts, baseParts, stepParts))
    {
      var source := sources[i];
      var rows := |source.steps|;
      var rowStop := rowStart + rows;
      ghost var before := Arrays(episodeParts, baseParts, stepParts);
      episodeParts := episodeParts + seq(rows, _ => i);
      baseParts := baseParts + seq(rows, _ => source.base);
      stepParts := stepParts + source.steps;
      Appended(sources, i, before, Arrays(episodeParts, baseParts, stepParts));
      episodes := episodes + [Episode(i, source.id, source.base, rowStart, rowStop)];
      rowStart := rowStop;
    }
    a := Arrays(episodeParts, baseParts, stepParts);
  }

  // The steps of a sidecar on the frozen cadence.
  predicate OnCadence(s: Source) {
    s.base >= 0 && s.steps != [] && forall k :: 0 <= k < |s.steps| ==> s.steps[k] == STRIDE * k
  }

  lemma {:induction false} RowsGrow(sources: seq<Source>, i: nat, j: nat)
    requires i <= j <= |sources|
    ensures RowsBefore(sources, i) <= RowsBefore(sources, j)
    decreases j - i
  {
    if i < j { RowsGrow(sources, i, j - 1); }
  }

  /// What the builder writes is accepted exactly when there is an episode and every
  /// sidecar's steps are 0, STRIDE, 2 * STRIDE and so on, with a base-init id that is not
  /// negative.
  lemma BuiltTilesExactly(sources: seq<Source>, episodes: seq<Episode>, a: Arrays)
    requires IdsAscending(sources)
    requires Listed(sources, |sources|, episodes) && Concatenated(sources, |sources|, a)
    ensures Canonical(a) && Tiles(episodes, a)
            <==> sources != [] && forall i :: 0 <= i < |sources| ==> OnCadence(sources[i])
  {
    hide Canonical, Tiles, SpanOk, OnCadence;
    if Canonical(a) && Tiles(episodes, a) {
      TiledCadence(sources, episodes, a);
    }
    if sources != [] && forall i :: 0 <= i < |sources| ==> OnCadence(sources[i]) {
      CadenceTiled(sources, episodes, a);
    }
  }

  lemma TiledCadence(sources: seq<Source>, episodes: seq<Episode>, a: Arrays)
    requires Listed(sources, |sources|, episodes) && Concatenated(sources, |sources|, a)
    requires Canonical(a) && Tiles(episodes, a)
    ensures sources != [] && forall i :: 0 <= i < |sources| ==> OnCadence(sources[i])
  {
    forall i | 0 <= i < |sources|
      ensures OnCadence(sources[i])
    {
      assert SpanOk(episodes[i], i, a) && Placed(sources, i, a);
      var start := RowsBefore(sources, i);
      forall k | 0 <= k < |sources[i].steps|
        ensures sources[i].steps[k] == STRIDE * k
      {
        assert a.step[start + k] == sources[i].steps[k];
      }
    }
  }

  lemma CadenceTiled(sources: seq<Source>, episodes: seq<Episode>, a: Arrays)
    requires IdsAscending(sources) && sources != []
    requires Listed(sources, |sources|, episodes) && Concatenated(sources, |sources|, a)
    requires forall i :: 0 <= i < |sources| ==> OnCadence(sources[i])
    ensures Canonical(a) && Tiles(episodes, a)
  {
    hide OnCadence, SpanOk, Placed;
    CadenceCanonical(sources, a, |sources|);
    assert Canonical(a);
    hide Canonical;
    forall i | 0 <= i < |sources|
      ensures SpanOk(episodes[i], i, a)
    {
      CadenceSpan(sources, a, i);
    }
    assert episodes[0].start == RowsBefore(sources, 0) == 0;
    assert episodes[|episodes| - 1].stop == RowsBefore(sources, |sources|) == |a.step|;
    forall i | 0 <= i < |episodes| - 1
      ensures episodes[i].stop == episodes[i + 1].start
    {
    }
    forall i, j | 0 <= i < j < |episodes|
      ensures episodes[i].id < episodes[j].id
    {
      assert sources[i].id < sources[j].id;
    }
  }

  lemma CadenceSpan(sources: seq<Source>, a: Arrays, i: nat)
    requires i < |sources| && Canonical(a) && Placed(sources, i, a) && OnCadence(sources[i])
    ensures SpanOk(EntryFor(sources, i), i, a)
  {
  }

  lemma {:induction false} CadenceCanonical(sources: seq<Source>, a: Arrays, n: nat)
    requires 1 <= n <= |sources| && Concatenated(sources, |sources|, a)
    requires forall i :: 0 <= i < |sources| ==> OnCadence(sources[i])
    ensures 1 <= RowsBefore(sources, n) <= |a.step|
    ensures forall r :: 0 <= r < RowsBefore(sources, n) ==>
              a.episode[r] >= 0 && a.base[r] >= 0 && a.step[r] >= 0 && a.step[r] % STRIDE == 0
  {
    RowsGrow(sources, n, |sources|);
    if n > 1 {
      CadenceCanonical(sources, a, n - 1);
    }
    assert OnCadence(sources[n - 1]);
    forall r | RowsBefore(sources, n - 1) <= r < RowsBefore(sources, n)
      ensures a.episode[r] >= 0 && a.base[r] >= 0 && a.step[r] >= 0 && a.step[r] % STRIDE == 0
    {
      assert Placed(sources, n - 1, a);
      assert (STRIDE * (r - RowsBefore(sources, n - 1))) % STRIDE == 0;
    }
  }
}
