/// The checkpointed random controls of one pair
/// (ops/locked_test_causal.py: _load_random_progress, _write_random_chunk, the control
/// loop of _run_causal_pair).
///
/// `effect` stands for the policy run behind one control.  A crash can hit before any of
/// these runs and inside any write of a chunk file, which then stays behind torn: the
/// file is created under its final name before its bytes are written.

module RandomControls {
  import opened Wrappers

  // What a chunk file holds; a torn one is no archive.
  datatype Chunk = Chunk(indices: seq<nat>, effects: seq<real>) | Torn

  datatype ProgressError = Unreadable | ContentDiffers | IncompleteChunk

  datatype Written = Stored | DiedInside | Refused(error: ProgressError)

  // Where a run is cut short, if its work reaches that far: before the effect, or inside
  // the chunk write, that so many others of the same run precede.
  datatype Fate = Lives | BeforeEffect(effects: nat) | InsideWrite(writes: nat)

  datatype Outcome =
    | Finished(values: map<nat, real>)
    | Crashed
    | CrashedInWrite(start: nat)
    | Failed(error: ProgressError)

  // The chunk that control `i` belongs to.
  function Start(i: nat, size: nat): nat
    requires size > 0
  {
    (i / size) * size
  }

  function Stop(start: nat, size: nat, total: nat): nat {
    if start + size < total then start + size else total
  }

  lemma ChunkBounds(i: nat, size: nat)
    requires size > 0
    ensures Start(i, size) <= i < Start(i, size) + size
    ensures Start(Start(i, size), size) == Start(i, size)
  {
    assert i == (i / size) * size + i % size;
    DivExact(i / size, 0, size);
  }

  lemma AtLeast(d: int, size: nat)
    requires d >= 1
    ensures d * size >= size
  {
    assert d * size == (d - 1) * size + size;
  }

  lemma Distribute(a: int, b: int, size: int)
    ensures (a - b) * size == a * size - b * size
  {
  }

  lemma DivExact(q: nat, r: nat, size: nat)
    requires r < size
    ensures (q * size + r) / size == q
  {
    var n := q * size + r;
    var p, m := n / size, n % size;
    Distribute(q, p, size);
    Distribute(p, q, size);
    if q - p >= 1 { AtLeast(q - p, size); }
    if p - q >= 1 { AtLeast(p - q, size); }
  }

  // Every control between a chunk's start and its end belongs to it.
  lemma SameChunk(start: nat, i: nat, size: nat)
    requires size > 0 && Start(start, size) == start && start <= i < start + size
    ensures Start(i, size) == start
  {
    DivExact(start / size, i - start, size);
  }

  lemma NextChunk(start: nat, size: nat)
    requires size > 0 && Start(start, size) == start
    ensures Start(start + size, size) == start + size
  {
    DivExact(start / size + 1, 0, size);
    assert (start / size + 1) * size == start + size;
  }

  // `np.arange(start, stop)`
  function Indices(start: nat, size: nat, total: nat): (r: seq<nat>)
    requires start < total
    ensures |r| == Stop(start, size, total) - start && forall k :: 0 <= k < |r| ==> r[k] == start + k
  {
    seq(Stop(start, size, total) - start as int, k requires 0 <= k => start + k)
  }

  // The content check of _load_random_progress.
  predicate WholeChunk(chunk: Chunk, start: nat, size: nat, total: nat)
    requires start < total
  {
    && chunk.Chunk?
    && chunk.indices == Indices(start, size, total)
    && |chunk.effects| == |chunk.indices|
  }

  type Disk = map<nat, Chunk>

  predicate OnGrid(start: nat, size: nat, total: nat)
    requires size > 0
  {
    start < total && Start(start, size) == start
  }

  // Chunk files hold whole chunks of the grid; other files are never looked at.
  predicate WholeChunks(disk: Disk, size: nat, total: nat)
    requires size > 0
  {
    forall start :: start in disk && OnGrid(start, size, total) ==> WholeChunk(disk[start], start, size, total)
  }

  // The first chunk that loading turns down, and why.
  predicate IsFirstBad(disk: Disk, start: nat, error: ProgressError, size: nat, total: nat)
    requires size > 0
  {
    && start in disk && OnGrid(start, size, total) && !WholeChunk(disk[start], start, size, total)
    && error == (if disk[start].Torn? then Unreadable else ContentDiffers)
    && forall s :: s in disk && s < start && OnGrid(s, size, total) ==> WholeChunk(disk[s], s, size, total)
  }

  ghost predicate Refuses(disk: Disk, error: ProgressError, size: nat, total: nat)
    requires size > 0
  {
    exists start :: IsFirstBad(disk, start, error, size, total)
  }

  // Is control `i` checkpointed?
  predicate Known(disk: Disk, i: nat, size: nat)
    requires size > 0
  {
    Start(i, size) in disk
  }

  // How many of the first `n` controls a run on this disk has to evaluate.
  function Effects(disk: Disk, n: nat, size: nat): nat
    requires size > 0
  {
    if n == 0 then 0 else Effects(disk, n - 1, size) + if Known(disk, n - 1, size) then 0 else 1
  }

  // How many chunks it has written once these are evaluated.
  function Writes(disk: Disk, n: nat, size: nat, total: nat): nat
    requires size > 0
  {
    if n == 0 then 0
    else
      Writes(disk, n - 1, size, total) +
      if !Known(disk, n - 1, size) && n == Stop(Start(n - 1, size), size, total) then 1 else 0
  }

  lemma {:induction false} CountsGrow(disk: Disk, m: nat, n: nat, size: nat, total: nat)
    requires size > 0 && m <= n
    ensures Effects(disk, m, size) <= Effects(disk, n, size)
    ensures Writes(disk, m, size, total) <= Writes(disk, n, size, total)
    decreases n
  {
    if m < n {
      CountsGrow(disk, m, n - 1, size, total);
    }
  }

  // Does a run on this disk reach the point where it is to be cut short?
  predicate Strikes(fate: Fate, disk: Disk, size: nat, total: nat)
    requires size > 0
  {
    match fate
    case Lives => false
    case BeforeEffect(effects) => effects < Effects(disk, total, size)
    case InsideWrite(writes) => writes < Writes(disk, total, size, total)
  }

  predicate Tearing(fate: Fate, disk: Disk, size: nat, total: nat)
    requires size > 0
  {
    fate.InsideWrite? && Strikes(fate, disk, size, total)
  }

  // The value a resumed run must report for control `i`: the checkpointed one if there is
  // one, and otherwise its effect.
  function Expected(disk: Disk, effect: nat -> real, i: nat, size: nat, total: nat): real
    requires size > 0 && i < total && WholeChunks(disk, size, total)
  {
    ChunkBounds(i, size);
    if Known(disk, i, size) then
      assert OnGrid(Start(i, size), size, total);
      assert WholeChunk(disk[Start(i, size)], Start(i, size), size, total);
      disk[Start(i, size)].effects[i - Start(i, size)]
    else effect(i)
  }

  // `now` keeps the checkpoints of `before`, and what it adds are whole chunks of effects.
  predicate Grows(before: Disk, now: Disk, effect: nat -> real, size: nat, total: nat)
    requires size > 0
  {
    && (forall start :: start in before ==> start in now && now[start] == before[start])
    && forall start :: start in now && start !in before ==>
         && OnGrid(start, size, total) && WholeChunk(now[start], start, size, total)
         && forall k :: 0 <= k < |now[start].effects| ==> now[start].effects[k] == effect(start + k)
  }

  // `now` grew from `before`, except for the one chunk that a crash left torn.
  predicate Tears(before: Disk, now: Disk, start: nat, effect: nat -> real, size: nat, total: nat)
    requires size > 0
  {
    && start !in before && start in now && now[start] == Torn && OnGrid(start, size, total)
    && Grows(before, now - {start}, effect, size, total)
  }

  /// Checkpoints written on the way do not change what must be reported.
  lemma ExpectedStable(before: Disk, now: Disk, effect: nat -> real, i: nat, size: nat, total: nat)
    requires size > 0 && i < total && WholeChunks(before, size, total) && Grows(before, now, effect, size, total)
    ensures WholeChunks(now, size, total)
    ensures Expected(now, effect, i, size, total) == Expected(before, effect, i, size, total)
  {
    ChunkBounds(i, size);
    var start := Start(i, size);
    if start in now && start !in before {
      assert now[start].effects[i - start] == effect(start + (i - start));
    }
  }

  lemma GrowsOn(a: Disk, b: Disk, c: Disk, effect: nat -> real, size: nat, total: nat)
    requires size > 0 && Grows(a, b, effect, size, total) && Grows(b, c, effect, size, total)
    ensures Grows(a, c, effect, size, total)
  {
  }

  // All controls, each with the value it must have.
  predicate IsComplete(values: map<nat, real>, disk: Disk, effect: nat -> real, size: nat, total: nat)
    requires size > 0 && WholeChunks(disk, size, total)
  {
    && (forall i :: i in values ==> i < total)
    && forall i :: 0 <= i < total ==> i in values && values[i] == Expected(disk, effect, i, size, total)
  }

  // The values of the checkpointed controls below `n`.
  predicate IsLoaded(values: map<nat, real>, disk: Disk, n: nat, size: nat, total: nat)
    requires size > 0
  {
    && (forall i :: i in values ==> i < n && i < total && Known(disk, i, size))
    && forall i :: 0 <= i < n && i < total && Known(disk, i, size) ==>
         && i in values
         && var start := Start(i, size);
            && disk[start].Chunk? && 0 <= i - start < |disk[start].effects|
            && values[i] == disk[start].effects[i - start]
  }

  function ChunkOf(start: nat, effects: seq<real>, size: nat, total: nat): Chunk
    requires start < total
  {
    Chunk(Indices(start, size, total), effects)
  }

  // The controls below `i` are checkpointed except for a pending chunk that reaches up to `i`.
  predicate Pending(before: Disk, disk: Disk, effect: nat -> real, i: nat, open: Option<nat>, pending: seq<real>,
      size: nat, total: nat)
    requires size > 0 && i <= total
  {
    && Grows(before, disk, effect, size, total)
    && match open
       case None => pending == [] && forall j :: 0 <= j < i ==> Known(disk, j, size)
       case Some(s) =>
         && OnGrid(s, size, total) && s < i < Stop(s, size, total) && s !in disk && |pending| == i - s
         && (forall k :: 0 <= k < |pending| ==> pending[k] == effect(s + k))
         && forall j :: 0 <= j < s ==> Known(disk, j, size)
  }

  lemma SkipKnown(before: Disk, disk: Disk, effect: nat -> real, i: nat, open: Option<nat>, pending: seq<real>,
      size: nat, total: nat)
    requires size > 0 && i < total && Pending(before, disk, effect, i, open, pending, size, total)
    requires Known(disk, i, size)
    ensures open.None? && Pending(before, disk, effect, i + 1, open, pending, size, total)
  {
    hide Start, Grows, WholeChunk;
    if open.Some? {
      SameChunk(open.value, i, size);
    }
  }

  // An unknown control continues the pending chunk or opens its own.
  lemma AddPending(before: Disk, disk: Disk, effect: nat -> real, i: nat, open: Option<nat>, pending: seq<real>,
      size: nat, total: nat)
    requires size > 0 && i < total && Pending(before, disk, effect, i, open, pending, size, total)
    requires !Known(disk, i, size)
    ensures var start, more := Start(i, size), pending + [effect(i)];
            && (open.None? || open == Some(start))
            && OnGrid(start, size, total) && start !in disk && |more| == i + 1 - start && i < Stop(start, size, total)
            && (forall k :: 0 <= k < |more| ==> more[k] == effect(start + k))
            && (forall j :: 0 <= j < start ==> Known(disk, j, size))
            && (i + 1 < Stop(start, size, total) ==>
                  Pending(before, disk, effect, i + 1, Some(start), more, size, total))
  {
    hide Start, Grows, WholeChunk;
    ChunkBounds(i, size);
    var start := Start(i, size);
    if open.Some? {
      SameChunk(open.value, i, size);
    } else if i > 0 {
      assert Known(disk, i - 1, size);
      if start < i {
        SameChunk(start, i - 1, size);
      }
    }
  }

  lemma ChunkWritten(before: Disk, disk: Disk, effect: nat -> real, start: nat, full: seq<real>, size: nat, total: nat)
    requires size > 0 && Grows(before, disk, effect, size, total) && OnGrid(start, size, total) && start !in disk
    requires |full| == Stop(start, size, total) - start && forall k :: 0 <= k < |full| ==> full[k] == effect(start + k)
    requires forall j :: 0 <= j < start ==> Known(disk, j, size)
    ensures var now := disk[start := ChunkOf(start, full, size, total)];
            && Pending(before, now, effect, Stop(start, size, total), None, [], size, total)
            && forall j: nat :: j < total ==>
                 (Known(now, j, size) <==> Known(disk, j, size) || start <= j < Stop(start, size, total))
  {
    hide Start;
    var now := disk[start := ChunkOf(start, full, size, total)];
    forall j: nat | j < total
      ensures Start(j, size) == start <==> start <= j < Stop(start, size, total)
      ensures Known(now, j, size) <==> Known(disk, j, size) || start <= j < Stop(start, size, total)
    {
      if start <= j < start + size {
        SameChunk(start, j, size);
      }
      ChunkBounds(j, size);
    }
  }

  lemma ChunkTorn(before: Disk, disk: Disk, effect: nat -> real, start: nat, size: nat, total: nat)
    requires size > 0 && Grows(before, disk, effect, size, total) && OnGrid(start, size, total) && start !in disk
    ensures start !in before && Tears(before, disk[start := Torn], start, effect, size, total)
  {
    assert disk[start := Torn] - {start} == disk;
  }

  predicate AreExpected(random: map<nat, real>, before: Disk, effect: nat -> real, size: nat, total: nat)
    requires size > 0 && WholeChunks(before, size, total)
  {
    forall i :: i in random ==> i < total && random[i] == Expected(before, effect, i, size, total)
  }

  lemma LoadedExpected(random: map<nat, real>, before: Disk, effect: nat -> real, size: nat, total: nat)
    requires size > 0 && WholeChunks(before, size, total) && IsLoaded(random, before, total, size, total)
    ensures AreExpected(random, before, effect, size, total)
    ensures forall j :: 0 <= j < total ==> (j in random <==> Known(before, j, size))
    ensures Grows(before, before, effect, size, total)
  {
    hide Start;
  }

  // A control is evaluated, and maybe a chunk written.
  function Spent(left: Fate, writes: bool): Fate
    requires left != BeforeEffect(0) && !(writes && left == InsideWrite(0))
  {
    match left
    case Lives => left
    case BeforeEffect(effects) => BeforeEffect(effects - 1)
    case InsideWrite(n) => if writes then InsideWrite(n - 1) else left
  }

  // What is left of a fate once the first `n` controls are done.
  predicate IsLeft(left: Fate, fate: Fate, disk: Disk, n: nat, size: nat, total: nat)
    requires size > 0
  {
    match fate
    case Lives => left == Lives
    case BeforeEffect(effects) => left.BeforeEffect? && left.effects == effects - Effects(disk, n, size)
    case InsideWrite(writes) => left.InsideWrite? && left.writes == writes - Writes(disk, n, size, total)
  }

  lemma AllLeft(fate: Fate, disk: Disk, size: nat, total: nat)
    requires size > 0
    ensures IsLeft(fate, fate, disk, 0, size, total)
  {
  }

  lemma SkipLeft(left: Fate, fate: Fate, disk: Disk, i: nat, size: nat, total: nat)
    requires size > 0 && Known(disk, i, size) && IsLeft(left, fate, disk, i, size, total)
    ensures IsLeft(left, fate, disk, i + 1, size, total)
  {
  }

  lemma ControlLeft(left: Fate, fate: Fate, disk: Disk, i: nat, size: nat, total: nat)
    requires size > 0 && i < total && !Known(disk, i, size) && IsLeft(left, fate, disk, i, size, total)
    ensures var writes := i + 1 == Stop(Start(i, size), size, total);
            if left == BeforeEffect(0) || (writes && left == InsideWrite(0)) then Strikes(fate, disk, size, total)
            else IsLeft(Spent(left, writes), fate, disk, i + 1, size, total)
  {
    hide Known, Stop, Start;
    CountsGrow(disk, i + 1, total, size, total);
  }

  lemma NoneLeft(left: Fate, fate: Fate, disk: Disk, size: nat, total: nat)
    requires size > 0 && IsLeft(left, fate, disk, total, size, total)
    ensures !Strikes(fate, disk, size, total)
  {
  }

  // The chunk was on no disk before, so its effects are what is expected.
  lemma FreshExpected(before: Disk, effect: nat -> real, start: nat, j: nat, size: nat, total: nat)
    requires size > 0 && WholeChunks(before, size, total)
    requires OnGrid(start, size, total) && start !in before && start <= j < Stop(start, size, total)
    ensures Expected(before, effect, j, size, total) == effect(j)
  {
    SameChunk(start, j, size);
  }

  class Progress {
    const size: nat
    const total: nat
    var disk: Disk

    predicate Valid() {
      size > 0
    }

    constructor (size: nat, total: nat, disk: Disk)
      requires size > 0
      ensures Valid() && this.size == size && this.total == total && this.disk == disk
    {
      this.size, this.total, this.disk := size, total, disk;
    }

    /// _load_random_progress; the duplicate-index error cannot happen.
    method Load() returns (r: Result<map<nat, real>, ProgressError>)
      requires Valid()
      ensures r.Ok? <==> WholeChunks(disk, size, total)
      ensures r.Ok? ==> IsLoaded(r.value, disk, total, size, total)
      ensures r.Err? ==> Refuses(disk, r.error, size, total)
    {
      hide IsLoaded, Start, WholeChunk;
      var values: map<nat, real> := map[];
      var start := 0;
      NothingLoaded();
      while start < total
        invariant Start(start, size) == start
        invariant forall s :: s in disk && s < start && OnGrid(s, size, total) ==> WholeChunk(disk[s], s, size, total)
        invariant IsLoaded(values, disk, start, size, total)
      {
        if start in disk {
          if !WholeChunk(disk[start], start, size, total) {
            var error := if disk[start].Torn? then Unreadable else ContentDiffers;
            assert IsFirstBad(disk, start, error, size, total);
            return Err(error);
          }
          var loaded := LoadChunk(values, start);
          values := loaded;
        } else {
          NotThere(values, start);
        }
        NextChunk(start, size);
        GridGap(start);
        start := start + size;
      }
      LoadedBeyond(values, start);
      return Ok(values);
    }

    lemma NothingLoaded()
      requires Valid()
      ensures Start(0, size) == 0 && IsLoaded(map[], disk, 0, size, total)
    {
      DivExact(0, 0, size);
    }

    lemma LoadedBeyond(values: map<nat, real>, n: nat)
      requires Valid() && n >= total && IsLoaded(values, disk, n, size, total)
      ensures IsLoaded(values, disk, total, size, total)
    {
    }

    lemma NotThere(values: map<nat, real>, start: nat)
      requires Valid() && OnGrid(start, size, total) && start !in disk && IsLoaded(values, disk, start, size, total)
      ensures IsLoaded(values, disk, start + size, size, total)
    {
      forall i: nat | start <= i < start + size
        ensures Start(i, size) == start
      {
        SameChunk(start, i, size);
      }
    }

    // No chunk begins inside another.
    lemma GridGap(start: nat)
      requires Valid() && Start(start, size) == start
      ensures forall s: nat :: start < s < start + size ==> !OnGrid(s, size, total)
    {
      forall s: nat | start < s < start + size
        ensures Start(s, size) == start
      {
        SameChunk(start, s, size);
      }
    }

    method LoadChunk(values: map<nat, real>, start: nat) returns (more: map<nat, real>)
      requires Valid() && OnGrid(start, size, total) && start in disk && WholeChunk(disk[start], start, size, total)
      requires IsLoaded(values, disk, start, size, total)
      ensures IsLoaded(more, disk, start + size, size, total)
    {
      var chunk := disk[start];
      more := values;
      for k := 0 to |chunk.indices|
        invariant IsLoaded(more, disk, start + k, size, total)
      {
        SameChunk(start, start + k, size);
        assert chunk.indices[k] == start + k;
        if chunk.indices[k] in more {
          assert false;  // "duplicate random checkpoint index"
        }
        more := more[chunk.indices[k] := chunk.effects[k]];
      }
    }

    /// _write_random_chunk: an existing file is only checked again; `dies` tells whether a
    /// crash strikes before the last byte of a new one is written.
    method WriteChunk(start: nat, effects: seq<real>, dies: bool) returns (r: Written)
      requires Valid() && OnGrid(start, size, total)
      modifies `disk
      ensures |effects| != Stop(start, size, total) - start ==> r == Refused(IncompleteChunk) && disk == old(disk)
      ensures |effects| == Stop(start, size, total) - start && start in old(disk) ==>
                && disk == old(disk)
                && if WholeChunks(disk, size, total) then r == Stored
                   else r.Refused? && Refuses(disk, r.error, size, total)
      ensures |effects| == Stop(start, size, total) - start && start !in old(disk) ==>
                && r == (if dies then DiedInside else Stored)
                && disk == old(disk)[start := if dies then Torn else ChunkOf(start, effects, size, total)]
    {
      if |effects| != Stop(start, size, total) - start {
        return Refused(IncompleteChunk);
      }
      if start in disk {
        var loaded := Load();
        return if loaded.Ok? then Stored else Refused(loaded.error);
      }
      disk := disk[start := Torn];  // created under its final name, not yet written
      if dies {
        return DiedInside;
      }
      disk := disk[start := ChunkOf(start, effects, size, total)];
      return Stored;
    }

    /// The control loop.  Neither "ordering drifted" nor "unfinished chunk" can be raised,
    /// and a run over whole chunks fails with no error at all.
    method Run(effect: nat -> real, fate: Fate) returns (r: Outcome)
      requires Valid()
      modifies `disk
      ensures !WholeChunks(old(disk), size, total) ==>
                r.Failed? && Refuses(disk, r.error, size, total) && disk == old(disk)
      ensures WholeChunks(old(disk), size, total) ==>
                match r
                case Finished(values) =>
                  && Grows(old(disk), disk, effect, size, total)
                  && IsComplete(values, old(disk), effect, size, total)
                  && forall j :: 0 <= j < total ==> Known(disk, j, size)
                case Crashed => fate.BeforeEffect? && Grows(old(disk), disk, effect, size, total)
                case CrashedInWrite(start) => fate.InsideWrite? && Tears(old(disk), disk, start, effect, size, total)
                case Failed(_) => false
      ensures WholeChunks(old(disk), size, total) ==> (r.Finished? <==> !Strikes(fate, old(disk), size, total))
    {
      hide Start, WholeChunk, Grows, IsLoaded, Expected, Known, Strikes, IsLeft, WholeChunks;
      var loaded := Load();
      if loaded.Err? {
        return Failed(loaded.error);
      }
      var random, left := loaded.value, fate;
      ghost var before := disk;
      LoadedExpected(random, before, effect, size, total);
      AllLeft(fate, before, size, total);
      var open: Option<nat>, pending: seq<real> := None, [];
      var i := 0;
      while i < total
        invariant 0 <= i <= total
        invariant Pending(before, disk, effect, i, open, pending, size, total)
        invariant forall j :: 0 <= j < total ==> (j in random <==> Known(disk, j, size))
        invariant AreExpected(random, before, effect, size, total)
        invariant forall j :: i <= j < total ==> (j in random <==> Known(before, j, size))
        invariant left.BeforeEffect? ==> fate.BeforeEffect?
        invariant left.InsideWrite? ==> fate.InsideWrite?
        invariant IsLeft(left, fate, before, i, size, total)
      {
        if i in random {
          SkipKnown(before, disk, effect, i, open, pending, size, total);
          SkipLeft(left, fate, before, i, size, total);
        } else {
          ControlLeft(left, fate, before, i, size, total);
          if left == BeforeEffect(0) {
            return Crashed;
          }
          AddPending(before, disk, effect, i, open, pending, size, total);
          var start := Start(i, size);
          if open.None? {
            open := Some(start);
          }
          if open != Some(start) {
            assert false;  // "random checkpoint chunk ordering drifted"
          }
          pending := pending + [effect(i)];
          if i + 1 == Stop(start, size, total) {
            ChunkWritten(before, disk, effect, start, pending, size, total);
            ChunkTorn(before, disk, effect, start, size, total);
            var written := WriteChunk(start, pending, left == InsideWrite(0));
            if written == DiedInside {
              return CrashedInWrite(start);
            }
            random := Remember(random, before, effect, start, pending);
            open, pending := None, [];
          }
          left := Spent(left, i + 1 == Stop(start, size, total));
        }
        i := i + 1;
      }
      if pending != [] {
        assert false;  // "unfinished random-control chunk"
      }
      NoneLeft(left, fate, before, size, total);
      return Finished(random);
    }

    method Remember(random: map<nat, real>, ghost before: Disk, effect: nat -> real, start: nat, pending: seq<real>)
      returns (more: map<nat, real>)
      requires Valid() && WholeChunks(before, size, total)
      requires OnGrid(start, size, total) && start !in before && |pending| == Stop(start, size, total) - start
      requires forall k :: 0 <= k < |pending| ==> pending[k] == effect(start + k)
      requires AreExpected(random, before, effect, size, total)
      ensures AreExpected(more, before, effect, size, total)
      ensures forall j :: j in more <==> j in random || start <= j < Stop(start, size, total)
    {
      hide Start, WholeChunk, Grows, Expected, OnGrid;
      more := random;
      for k := 0 to |pending|
        invariant AreExpected(more, before, effect, size, total)
        invariant forall j :: j in more <==> j in random || start <= j < start + k
      {
        FreshExpected(before, effect, start, start + k, size, total);
        more := more[start + k := pending[k]];
      }
    }

    /// Runs cut short anywhere, any number of times, and then one that is not: the last
    /// run finishes if and only if no crash struck inside a chunk write, and then reports
    /// what a run that never crashed would have reported on the same checkpoints.
    method Resume(effect: nat -> real, fates: seq<Fate>) returns (outcomes: seq<Outcome>)
      requires Valid() && WholeChunks(disk, size, total)
      modifies `disk
      ensures |outcomes| == |fates| + 1
      ensures outcomes[|fates|].Finished? <==> forall n :: 0 <= n < |fates| ==> !outcomes[n].CrashedInWrite?
      ensures outcomes[|fates|].Finished? ==>
                && IsComplete(outcomes[|fates|].values, old(disk), effect, size, total)
                && Grows(old(disk), disk, effect, size, total)
      ensures !outcomes[|fates|].Finished? ==> outcomes[|fates|] == Failed(Unreadable)
      ensures |fates| > 0 ==> (outcomes[0].CrashedInWrite? <==> Tearing(fates[0], old(disk), size, total))
    {
      hide Start, WholeChunk, Expected, Grows, Strikes;
      GrowsNothing(disk, effect, size, total);
      outcomes := [];
      ghost var torn: Option<nat> := None;
      for n := 0 to |fates|
        invariant |outcomes| == n
        invariant torn.None? <==> forall m :: 0 <= m < n ==> !outcomes[m].CrashedInWrite?
        invariant Since(old(disk), disk, torn, effect, size, total)
        invariant n == 0 ==> disk == old(disk)
        invariant n > 0 ==> (outcomes[0].CrashedInWrite? <==> Tearing(fates[0], old(disk), size, total))
      {
        label before:
        var outcome := Run(effect, fates[n]);
        torn := AfterRun(old(disk), old@before(disk), disk, torn, outcome, effect, size, total);
        ghost var sofar := outcomes;
        outcomes := outcomes + [outcome];
        assert outcomes[n] == outcome;
        assert forall m {:trigger sofar[m]} :: 0 <= m < n ==> outcomes[m] == sofar[m];
      }
      label last:
      var outcome := Run(effect, Lives);
      ghost var _ := AfterRun(old(disk), old@last(disk), disk, torn, outcome, effect, size, total);
      if torn.None? {
        CompleteStable(outcome.values, old(disk), old@last(disk), effect, size, total);
      } else {
        OnlyTorn(old(disk), disk, torn.value, outcome.error, effect, size, total);
      }
      ghost var sofar := outcomes;
      outcomes := outcomes + [outcome];
      assert forall m {:trigger sofar[m]} :: 0 <= m < |fates| ==> outcomes[m] == sofar[m];
    }
  }

  // What the runs made of the disk, with the chunk that one of them tore, if one did.
  predicate Since(before: Disk, now: Disk, torn: Option<nat>, effect: nat -> real, size: nat, total: nat)
    requires size > 0
  {
    if torn.None? then WholeChunks(now, size, total) && Grows(before, now, effect, size, total)
    else WholeChunks(before, size, total) && Tears(before, now, torn.value, effect, size, total)
  }

  // The contract of Run, seen from the disk.
  ghost predicate RanTo(disk: Disk, now: Disk, outcome: Outcome, effect: nat -> real, size: nat, total: nat)
    requires size > 0
  {
    if !WholeChunks(disk, size, total) then
      outcome.Failed? && Refuses(now, outcome.error, size, total) && now == disk
    else
      match outcome
      case CrashedInWrite(start) => Tears(disk, now, start, effect, size, total)
      case Failed(_) => false
      case _ => Grows(disk, now, effect, size, total)
  }

  lemma AfterRun(before: Disk, disk: Disk, now: Disk, torn: Option<nat>, outcome: Outcome, effect: nat -> real,
      size: nat, total: nat) returns (after: Option<nat>)
    requires size > 0 && WholeChunks(before, size, total) && Since(before, disk, torn, effect, size, total)
    requires RanTo(disk, now, outcome, effect, size, total)
    ensures Since(before, now, after, effect, size, total)
    ensures after.Some? <==> torn.Some? || outcome.CrashedInWrite?
    ensures torn.Some? ==> after == torn && outcome.Failed?
    ensures torn.None? ==> !outcome.Failed?
  {
    hide Grows, WholeChunk;
    if torn.Some? {
      TornIsBad(before, disk, torn.value, effect, size, total);
      return torn;
    }
    if outcome.CrashedInWrite? {
      GrowsThenTears(before, disk, now, outcome.start, effect, size, total);
      return Some(outcome.start);
    }
    GrowsOn(before, disk, now, effect, size, total);
    StaysWhole(before, now, effect, size, total);
    return None;
  }

  lemma TornIsBad(before: Disk, now: Disk, start: nat, effect: nat -> real, size: nat, total: nat)
    requires size > 0 && Tears(before, now, start, effect, size, total)
    ensures !WholeChunks(now, size, total)
  {
    assert !WholeChunk(now[start], start, size, total);
  }

  lemma GrowsThenTears(a: Disk, b: Disk, c: Disk, start: nat, effect: nat -> real, size: nat, total: nat)
    requires size > 0 && Grows(a, b, effect, size, total) && Tears(b, c, start, effect, size, total)
    ensures Tears(a, c, start, effect, size, total)
  {
    GrowsOn(a, b, c - {start}, effect, size, total);
  }

  // The torn chunk is the only one that can be turned down.
  lemma OnlyTorn(before: Disk, now: Disk, start: nat, error: ProgressError, effect: nat -> real, size: nat, total: nat)
    requires size > 0 && WholeChunks(before, size, total) && Tears(before, now, start, effect, size, total)
    requires Refuses(now, error, size, total)
    ensures error == Unreadable
  {
    StaysWhole(before, now - {start}, effect, size, total);
    forall bad | bad != start && bad in now && OnGrid(bad, size, total)
      ensures WholeChunk(now[bad], bad, size, total)
    {
      assert bad in now - {start};
    }
  }

  lemma GrowsNothing(disk: Disk, effect: nat -> real, size: nat, total: nat)
    requires size > 0
    ensures Grows(disk, disk, effect, size, total)
  {
  }

  lemma StaysWhole(before: Disk, now: Disk, effect: nat -> real, size: nat, total: nat)
    requires size > 0 && WholeChunks(before, size, total) && Grows(before, now, effect, size, total)
    ensures WholeChunks(now, size, total)
  {
  }

  lemma CompleteStable(values: map<nat, real>, before: Disk, now: Disk, effect: nat -> real, size: nat, total: nat)
    requires size > 0 && WholeChunks(before, size, total) && Grows(before, now, effect, size, total)
    requires WholeChunks(now, size, total) && IsComplete(values, now, effect, size, total)
    ensures IsComplete(values, before, effect, size, total)
  {
    hide Expected, Grows, WholeChunks;
    forall i | 0 <= i < total
      ensures Expected(now, effect, i, size, total) == Expected(before, effect, i, size, total)
    {
      ExpectedStable(before, now, effect, i, size, total);
    }
  }
}
