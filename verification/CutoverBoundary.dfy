/// Freezing what the serial scorer has published
/// (ops/calibration_two_worker_continuation_18d6494.py: _stable_inventory_log_baseline,
/// _prevalidate_boundary_line, _validate_boundary_transition, _assert_frozen_unchanged;
/// the scorer's publish-then-log order in ops/calibration_score_18d6494.py).
///
/// The scorer locks, renames, unlocks and only then logs.  Any number of coordinators
/// sample its inventory between two looks at the log size, wait for one logged
/// completion, wait for the scorer to be gone, and compare.  Everything interleaves.

module CutoverBoundary {
  import opened Sequences

  type EpisodeId = nat
  type Digest = nat
  type Inventory = map<EpisodeId, Digest>

  // A `score_completed` line.
  datatype Line = Line(id: EpisodeId, sha: Digest, completed: nat, total: nat)

  // The manifest, the order in which the scorer visits it, and what was already
  // published when the scorer started.
  datatype Setup = Setup(ordered: seq<EpisodeId>, order: seq<EpisodeId>, before: Inventory)

  // What the scorer is doing with the episode it has reached.
  datatype Scorer = Idle | Locked | Renamed | Unlogged | Dead

  // A sampled inventory and the log size it is bound to.  `pending` notes, for the
  // argument only, that an episode was published but not yet logged at that moment.
  datatype Baseline = Baseline(inventory: Inventory, offset: nat, pending: bool)

  datatype Phase =
    | Down
    | Measured(size: nat)
    | Sampled(size: nat, inventory: Inventory, pending: bool)
    | Waiting(base: Baseline)
    | Stopping(base: Baseline, line: Line)
    | Comparing(base: Baseline, line: Line)
    | Accepted(base: Baseline, line: Line, frozen: Inventory)
    | Refused

  // The score root and the serial log.
  datatype Board = Board(scorer: Scorer, next: nat, published: Inventory, residue: bool, log: seq<Line>)

  // `boundaries` are the boundary receipts (boundary-observed.json, resume-0001.json,
  // recovery-boundary-observed.json); they survive crashes.
  datatype State = State(board: Board, boundaries: seq<(Baseline, Line)>, at: map<nat, Phase>)

  datatype SerialStep = Skip | Lock | Rename(content: Digest) | Unlock | Log | Die

  datatype Turn = Measure | Sample | Confirm | Read | Resume(receipt: nat) | SeeExit | Compare

  datatype Action = Serial(step: SerialStep) | Coordinator(c: nat, turn: Turn) | Crash(c: nat)

  // ---------------------------------------------------------------- the checks

  // The ids of an inventory, in manifest order.
  function Present(ordered: seq<EpisodeId>, inventory: Inventory): seq<EpisodeId> {
    if ordered == [] then []
    else if ordered[0] in inventory then [ordered[0]] + Present(ordered[1..], inventory)
    else Present(ordered[1..], inventory)
  }

  // _prevalidate_boundary_line
  predicate LineFollows(line: Line, baseline: Inventory, ordered: seq<EpisodeId>) {
    var ids := Present(ordered, baseline);
    && |ids| < |ordered|
    && ids == ordered[..|ids|]
    && line.total == |ordered|
    && line.completed == |ids| + 1
    && line.id == ordered[|ids|]
  }

  // _validate_boundary_transition
  predicate Transition(line: Line, baseline: Inventory, frozen: Inventory, ordered: seq<EpisodeId>) {
    var ids, frozenIds := Present(ordered, baseline), Present(ordered, frozen);
    && LineFollows(line, baseline, ordered)
    && |frozenIds| == |ids| + 1
    && frozenIds == ordered[..|frozenIds|]
    && (set e | e in frozenIds && e !in ids) == {line.id}
    && line.id in frozen && frozen[line.id] == line.sha
  }

  // _assert_frozen_unchanged
  predicate Retained(baseline: Inventory, current: Inventory) {
    forall e :: e in baseline ==> e in current && current[e] == baseline[e]
  }

  // _inventory raises on residue and on episodes outside the manifest.
  predicate Readable(ordered: seq<EpisodeId>, s: Board) {
    !s.residue && forall e :: e in s.published ==> e in ordered
  }

  predicate Accepts(ordered: seq<EpisodeId>, s: Board, base: Baseline, line: Line) {
    && Readable(ordered, s)
    && Retained(base.inventory, s.published)
    && Transition(line, base.inventory, s.published, ordered)
  }

  // ---------------------------------------------------------------- the steps

  function AfterSerial(setup: Setup, s: Board, step: SerialStep): Board {
    var more := s.next < |setup.order|;
    match step
    case Skip =>
      if s.scorer.Idle? && more && setup.order[s.next] in s.published then s.(next := s.next + 1) else s
    case Lock =>
      if s.scorer.Idle? && more && setup.order[s.next] !in s.published then s.(scorer := Locked, residue := true) else s
    case Rename(content) =>
      if s.scorer.Locked? && more
      then s.(scorer := Renamed, published := s.published[setup.order[s.next] := content]) else s
    case Unlock =>
      if s.scorer.Renamed? then s.(scorer := Unlogged, residue := false) else s
    case Log =>
      if s.scorer.Unlogged? && more && setup.order[s.next] in s.published then
        var e := setup.order[s.next];
        s.(scorer := Idle, next := s.next + 1,
           log := s.log + [Line(e, s.published[e], s.next + 1, |setup.order|)])
      else s
    case Die => s.(scorer := Dead)
  }

  // A turn that does not fit the phase, or a wait that is not over, changes nothing; a
  // check that raises ends in Down, except the comparisons, which end in Refused.
  function AfterTurn(setup: Setup, s: Board, receipts: seq<(Baseline, Line)>, p: Phase, turn: Turn): Phase {
    match (p, turn)
    case (Down, Measure) => if s.scorer.Dead? then Down else Measured(|s.log|)
    case (Down, Resume(k)) => if k < |receipts| then Stopping(receipts[k].0, receipts[k].1) else Down
    case (Measured(size), Sample) =>
      if Readable(setup.ordered, s) then Sampled(size, s.published, s.scorer.Unlogged?) else Down
    case (Sampled(size, inventory, pending), Confirm) =>
      if |s.log| == size then Waiting(Baseline(inventory, size, pending))
      else if s.scorer.Dead? then Down else Measured(|s.log|)
    case (Waiting(base), Read) =>
      if s.scorer.Dead? then Down
      else if |s.log| <= base.offset then p
      else if LineFollows(s.log[base.offset], base.inventory, setup.ordered) then Stopping(base, s.log[base.offset])
      else Refused
    case (Stopping(base, line), SeeExit) => if s.scorer.Dead? then Comparing(base, line) else p
    case (Comparing(base, line), Compare) =>
      if Accepts(setup.ordered, s, base, line) then Accepted(base, line, s.published) else Refused
    case _ => p
  }

  function PhaseOf(s: State, c: nat): Phase {
    if c in s.at then s.at[c] else Down
  }

  function After(setup: Setup, s: State, a: Action): State {
    match a
    case Serial(step) => s.(board := AfterSerial(setup, s.board, step))
    case Coordinator(c, turn) =>
      var p, q := PhaseOf(s, c), AfterTurn(setup, s.board, s.boundaries, PhaseOf(s, c), turn);
      s.(at := s.at[c := q],
         // a boundary is recorded before anything else happens
         boundaries := if p.Waiting? && q.Stopping? then s.boundaries + [(q.base, q.line)] else s.boundaries)
    case Crash(c) => s.(at := s.at[c := Down])
  }

  predicate Init(setup: Setup, s: State) {
    s == State(Board(Idle, 0, setup.before, false, []), [], map[])
  }

  datatype Run = Run(states: seq<State>, actions: seq<Action>)

  ghost predicate IsRun(setup: Setup, r: Run) {
    && |r.states| == |r.actions| + 1
    && Init(setup, r.states[0])
    && forall i :: 0 <= i < |r.actions| ==> r.states[i + 1] == After(setup, r.states[i], r.actions[i])
  }

  // ---------------------------------------------------------------- the invariant

  predicate LineOk(setup: Setup, s: Board, line: Line) {
    && 1 <= line.completed <= s.next <= |setup.order|
    && line.id == setup.order[line.completed - 1]
    && line.total == |setup.order|
    && line.id in s.published && s.published[line.id] == line.sha
  }

  predicate SerialOk(setup: Setup, s: Board) {
    && s.next <= |setup.order|
    && (s.scorer.Locked? ==> s.next < |setup.order| && setup.order[s.next] !in s.published)
    && (s.scorer.Renamed? || s.scorer.Unlogged? ==> s.next < |setup.order| && setup.order[s.next] in s.published)
    && (!s.scorer.Dead? ==> (s.residue <==> s.scorer.Locked? || s.scorer.Renamed?))
    && forall i :: 0 <= i < |s.log| ==> LineOk(setup, s, s.log[i])
  }

  predicate Known(ordered: seq<EpisodeId>, inventory: Inventory) {
    forall e :: e in inventory ==> e in ordered
  }

  // An unlogged episode of `inventory` is the next one to be logged, if any is.
  predicate PendingHere(setup: Setup, s: Board, inventory: Inventory) {
    s.scorer.Dead? || (s.scorer.Unlogged? && s.next < |setup.order| && setup.order[s.next] in inventory)
  }

  predicate SampleOk(setup: Setup, s: Board, inventory: Inventory, size: nat, pending: bool) {
    && size <= |s.log| && Retained(inventory, s.published) && Known(setup.ordered, inventory)
    && (pending && |s.log| == size ==> PendingHere(setup, s, inventory))
  }

  predicate BaseOk(setup: Setup, s: Board, base: Baseline) {
    && SampleOk(setup, s, base.inventory, base.offset, base.pending)
    && (base.pending && |s.log| > base.offset ==> s.log[base.offset].id in base.inventory)
  }

  predicate BoundaryOk(setup: Setup, s: Board, base: Baseline, line: Line) {
    && BaseOk(setup, s, base)
    && base.offset < |s.log| && line == s.log[base.offset]
    && LineFollows(line, base.inventory, setup.ordered)
  }

  predicate PhaseOk(setup: Setup, s: Board, p: Phase) {
    match p
    case Measured(size) => size <= |s.log|
    case Sampled(size, inventory, pending) => SampleOk(setup, s, inventory, size, pending)
    case Waiting(base) => BaseOk(setup, s, base)
    case Stopping(base, line) => BoundaryOk(setup, s, base, line)
    case Comparing(base, line) => BoundaryOk(setup, s, base, line) && s.scorer.Dead?
    case Accepted(base, line, frozen) =>
      && BoundaryOk(setup, s, base, line) && s.scorer.Dead?
      && frozen == s.published && Accepts(setup.ordered, s, base, line)
    case _ => true
  }

  ghost predicate Inv(setup: Setup, s: State) {
    && SerialOk(setup, s.board)
    && (forall k :: 0 <= k < |s.boundaries| ==> BoundaryOk(setup, s.board, s.boundaries[k].0, s.boundaries[k].1))
    && (forall c :: c in s.at ==> PhaseOk(setup, s.board, s.at[c]))
  }

  // ---------------------------------------------------------------- the scorer's steps

  // What the scorer published it never changes, the log only grows, and once it is
  // dead nothing moves.
  predicate Grown(s: Board, t: Board) {
    && Retained(s.published, t.published)
    && s.log <= t.log
    && (s.scorer.Dead? ==>
          t.scorer.Dead? && t.published == s.published && t.residue == s.residue && t.log == s.log)
  }

  lemma SerialGrows(setup: Setup, s: Board, step: SerialStep)
    requires SerialOk(setup, s)
    ensures var t := AfterSerial(setup, s, step); SerialOk(setup, t) && Grown(s, t)
  {
    var t := AfterSerial(setup, s, step);
    forall i | 0 <= i < |t.log|
      ensures LineOk(setup, t, t.log[i])
    {
      if i < |s.log| { assert LineOk(setup, s, s.log[i]); }
    }
  }

  lemma SerialKeepsSample(setup: Setup, s: Board, step: SerialStep, inventory: Inventory, size: nat, pending: bool)
    requires SerialOk(setup, s) && SampleOk(setup, s, inventory, size, pending)
    ensures SampleOk(setup, AfterSerial(setup, s, step), inventory, size, pending)
  {
    SerialGrows(setup, s, step);
  }

  lemma SerialKeepsBase(setup: Setup, s: Board, step: SerialStep, base: Baseline)
    requires SerialOk(setup, s) && BaseOk(setup, s, base)
    ensures BaseOk(setup, AfterSerial(setup, s, step), base)
  {
    SerialKeepsSample(setup, s, step, base.inventory, base.offset, base.pending);
  }

  lemma SerialKeepsPhase(setup: Setup, s: Board, step: SerialStep, p: Phase)
    requires SerialOk(setup, s) && PhaseOk(setup, s, p)
    ensures PhaseOk(setup, AfterSerial(setup, s, step), p)
  {
    SerialGrows(setup, s, step);
    hide AfterSerial, SampleOk, Transition, LineFollows;
    match p
    case Sampled(size, inventory, pending) => SerialKeepsSample(setup, s, step, inventory, size, pending);
    case Waiting(base) => SerialKeepsBase(setup, s, step, base);
    case Stopping(base, line) => SerialKeepsBase(setup, s, step, base);
    case Comparing(base, line) => SerialKeepsBase(setup, s, step, base);
    case Accepted(base, line, frozen) => SerialKeepsBase(setup, s, step, base);
    case _ =>
  }

  // ---------------------------------------------------------------- the coordinators' turns

  lemma TurnOk(setup: Setup, s: Board, receipts: seq<(Baseline, Line)>, p: Phase, turn: Turn)
    requires SerialOk(setup, s) && PhaseOk(setup, s, p)
    requires forall k :: 0 <= k < |receipts| ==> BoundaryOk(setup, s, receipts[k].0, receipts[k].1)
    ensures PhaseOk(setup, s, AfterTurn(setup, s, receipts, p, turn))
  {
    hide LineFollows, Transition, LineOk;
  }

  lemma InvStep(setup: Setup, s: State, a: Action)
    requires Inv(setup, s)
    ensures Inv(setup, After(setup, s, a))
  {
    hide AfterSerial, AfterTurn, SerialOk, BoundaryOk, PhaseOk;
    var t := After(setup, s, a);
    match a
    case Serial(step) =>
      SerialGrows(setup, s.board, step);
      forall k | 0 <= k < |t.boundaries|
        ensures BoundaryOk(setup, t.board, t.boundaries[k].0, t.boundaries[k].1)
      {
        BoundaryKept(setup, s.board, step, s.boundaries[k].0, s.boundaries[k].1);
      }
      forall c | c in t.at
        ensures PhaseOk(setup, t.board, t.at[c])
      {
        SerialKeepsPhase(setup, s.board, step, s.at[c]);
      }
    case Coordinator(c, turn) =>
      DownOk(setup, s.board);
      TurnOk(setup, s.board, s.boundaries, PhaseOf(s, c), turn);
      StoppingOk(setup, s.board, t.at[c]);
    case Crash(c) => DownOk(setup, s.board);
  }

  lemma BoundaryKept(setup: Setup, s: Board, step: SerialStep, base: Baseline, line: Line)
    requires SerialOk(setup, s) && BoundaryOk(setup, s, base, line)
    ensures BoundaryOk(setup, AfterSerial(setup, s, step), base, line)
  {
    SerialKeepsPhase(setup, s, step, Stopping(base, line));
  }

  lemma DownOk(setup: Setup, s: Board)
    ensures PhaseOk(setup, s, Down)
  {
  }

  lemma StoppingOk(setup: Setup, s: Board, p: Phase)
    requires PhaseOk(setup, s, p)
    ensures p.Stopping? ==> BoundaryOk(setup, s, p.base, p.line)
  {
  }

  lemma {:induction false} InvRun(setup: Setup, r: Run, i: nat)
    requires IsRun(setup, r) && i < |r.states|
    ensures Inv(setup, r.states[i])
  {
    if i > 0 {
      InvRun(setup, r, i - 1);
      InvStep(setup, r.states[i - 1], r.actions[i - 1]);
    }
  }

  lemma {:induction false} RunGrows(setup: Setup, r: Run, i: nat, j: nat)
    requires IsRun(setup, r) && i <= j < |r.states|
    ensures Grown(r.states[i].board, r.states[j].board)
    decreases j - i
  {
    hide AfterSerial, AfterTurn;
    if i < j {
      RunGrows(setup, r, i, j - 1);
      InvRun(setup, r, j - 1);
      match r.actions[j - 1]
      case Serial(step) => SerialGrows(setup, r.states[j - 1].board, step);
      case _ =>
    }
  }

  // ---------------------------------------------------------------- manifest prefixes

  // `inventory` holds exactly the first `n` episodes of the manifest.
  predicate Prefix(ordered: seq<EpisodeId>, inventory: Inventory, n: nat) {
    && n <= |ordered| && Known(ordered, inventory)
    && forall i :: 0 <= i < |ordered| ==> (ordered[i] in inventory <==> i < n)
  }

  lemma {:induction false} PresentIds(ordered: seq<EpisodeId>, inventory: Inventory)
    requires Distinct(ordered)
    ensures forall e :: e in Present(ordered, inventory) <==> e in ordered && e in inventory
    ensures |Present(ordered, inventory)| <= |ordered|
  {
    if ordered != [] {
      TailDistinct(ordered);
      PresentIds(ordered[1..], inventory);
      assert ordered == [ordered[0]] + ordered[1..];
    }
  }

  lemma {:induction false} PresentOfPrefix(ordered: seq<EpisodeId>, inventory: Inventory, n: nat)
    requires n <= |ordered| && forall i :: 0 <= i < |ordered| ==> (ordered[i] in inventory <==> i < n)
    ensures Present(ordered, inventory) == ordered[..n]
  {
    if ordered != [] {
      var rest := ordered[1..];
      assert forall i :: 0 <= i < |rest| ==> rest[i] == ordered[i + 1];
      if n > 0 {
        PresentOfPrefix(rest, inventory, n - 1);
      } else {
        PresentOfPrefix(rest, inventory, 0);
      }
    }
  }

  lemma PrefixExactly(ordered: seq<EpisodeId>, inventory: Inventory, n: nat)
    requires Distinct(ordered) && Known(ordered, inventory)
    ensures var ids := Present(ordered, inventory);
            Prefix(ordered, inventory, n) <==> n == |ids| <= |ordered| && ids == ordered[..n]
  {
    hide Present;
    PresentIds(ordered, inventory);
    var ids := Present(ordered, inventory);
    if Prefix(ordered, inventory, n) { PresentOfPrefix(ordered, inventory, n); }
    if n == |ids| <= |ordered| && ids == ordered[..n] {
      forall i | 0 <= i < |ordered|
        ensures ordered[i] in inventory <==> i < n
      {
        if i < n { assert ids[i] == ordered[i]; }
        if ordered[i] in inventory {
          assert ordered[i] in ids;
          var j :| 0 <= j < n && ids[j] == ordered[i];
          assert ordered[j] == ordered[i];
        }
      }
    }
  }

  // ---------------------------------------------------------------- acceptance is exact

  // A coordinator has passed every check.
  predicate HasAccepted(s: State, c: nat) {
    c in s.at && s.at[c].Accepted?
  }

  lemma AcceptsMeans(ordered: seq<EpisodeId>, s: Board, base: Baseline, line: Line)
    requires Distinct(ordered) && Known(ordered, base.inventory) && Accepts(ordered, s, base, line)
    ensures var b := |Present(ordered, base.inventory)|;
            && b < |ordered| && line.id == ordered[b] && line.completed == b + 1 && line.total == |ordered|
            && Prefix(ordered, base.inventory, b) && Prefix(ordered, s.published, b + 1)
            && s.published == base.inventory[line.id := line.sha]
  {
    hide Present;
    var ids, frozenIds := Present(ordered, base.inventory), Present(ordered, s.published);
    var b := |ids|;
    PresentIds(ordered, base.inventory);
    PresentIds(ordered, s.published);
    PrefixExactly(ordered, base.inventory, b);
    PrefixExactly(ordered, s.published, b + 1);
    forall e
      ensures e in s.published <==> e in base.inventory || e == line.id
    {
      if e in s.published && e !in base.inventory {
        assert e in frozenIds && e !in ids;
        assert e in (set x | x in frozenIds && x !in ids);
      }
    }
  }

  /// Whenever the checks accept, the scorer is gone, the frozen inventory is what the
  /// score root holds then and ever after, it is exactly one manifest episode longer
  /// than the baseline, that episode carries the logged hash, and the baseline was not
  /// sampled between a publication and its log line.
  lemma AcceptedIsExact(setup: Setup, r: Run, c: nat, i: nat, j: nat)
    requires Distinct(setup.ordered) && IsRun(setup, r) && i <= j < |r.states| && HasAccepted(r.states[i], c)
    ensures var a := r.states[i].at[c];
            var b := |Present(setup.ordered, a.base.inventory)|;
            && r.states[i].board.scorer.Dead? && r.states[j].board.published == a.frozen
            && r.states[j].board.log == r.states[i].board.log
            && b < |setup.ordered| && a.line.id == setup.ordered[b]
            && a.line.completed == b + 1 && a.line.total == |setup.ordered|
            && Prefix(setup.ordered, a.base.inventory, b) && Prefix(setup.ordered, a.frozen, b + 1)
            && a.frozen == a.base.inventory[a.line.id := a.line.sha]
            && !a.base.pending
  {
    InvRun(setup, r, i);
    RunGrows(setup, r, i, j);
    var s, a := r.states[i].board, r.states[i].at[c];
    assert PhaseOk(setup, s, a);
    AcceptsMeans(setup.ordered, s, a.base, a.line);
  }

  // ---------------------------------------------------------------- exactly when it refuses

  // The scorer visits the manifest in order and starts from its first `done` episodes.
  ghost predicate Ordinary(setup: Setup, done: nat) {
    && setup.order == setup.ordered && Distinct(setup.ordered)
    && Prefix(setup.ordered, setup.before, done)
  }

  // Published, not yet logged.
  function Unsettled(s: Board): nat {
    if s.scorer.Renamed? || s.scorer.Unlogged? then 1 else 0
  }

  predicate OrderlyScorer(setup: Setup, done: nat, s: Board) {
    && (forall i :: 0 <= i < |s.log| ==> s.log[i].completed == done + i + 1)
    && (s.scorer.Dead? ==>
          || Prefix(setup.ordered, s.published, done + |s.log|)
          || Prefix(setup.ordered, s.published, done + |s.log| + 1))
    && (!s.scorer.Dead? ==>
          && Prefix(setup.ordered, s.published, done + |s.log| + Unsettled(s))
          && (s.next == done + |s.log| || (s.scorer.Idle? && s.log == [] && s.next < done)))
  }

  function Ahead(pending: bool): nat {
    if pending then 1 else 0
  }

  predicate OrderlyBase(setup: Setup, done: nat, base: Baseline) {
    Prefix(setup.ordered, base.inventory, done + base.offset + Ahead(base.pending))
  }

  predicate OrderlyPhase(setup: Setup, done: nat, s: Board, p: Phase) {
    match p
    case Sampled(size, inventory, pending) =>
      s.scorer.Dead? || |s.log| != size || OrderlyBase(setup, done, Baseline(inventory, size, pending))
    case Waiting(base) => s.scorer.Dead? || OrderlyBase(setup, done, base)
    case Stopping(base, line) => OrderlyBase(setup, done, base)
    case Comparing(base, line) => OrderlyBase(setup, done, base)
    case Accepted(base, line, frozen) => OrderlyBase(setup, done, base)
    case _ => true
  }

  ghost predicate Orderly(setup: Setup, done: nat, s: State) {
    && OrderlyScorer(setup, done, s.board)
    && (forall k :: 0 <= k < |s.boundaries| ==> OrderlyBase(setup, done, s.boundaries[k].0))
    && (forall c :: c in s.at ==> OrderlyPhase(setup, done, s.board, s.at[c]))
  }

  lemma SerialOrderly(setup: Setup, done: nat, s: Board, step: SerialStep)
    requires Ordinary(setup, done) && SerialOk(setup, s) && OrderlyScorer(setup, done, s)
    ensures OrderlyScorer(setup, done, AfterSerial(setup, s, step))
  {
  }

  lemma SerialOrderlyPhase(setup: Setup, done: nat, s: Board, step: SerialStep, p: Phase)
    requires SerialOk(setup, s) && PhaseOk(setup, s, p) && OrderlyPhase(setup, done, s, p)
    ensures OrderlyPhase(setup, done, AfterSerial(setup, s, step), p)
  {
    SerialGrows(setup, s, step);
    hide AfterSerial, SerialOk, OrderlyBase, Retained, Known, PendingHere, LineFollows, Transition;
  }

  lemma TurnOrderly(setup: Setup, done: nat, s: Board, receipts: seq<(Baseline, Line)>, p: Phase, turn: Turn)
    requires SerialOk(setup, s) && OrderlyScorer(setup, done, s)
    requires PhaseOk(setup, s, p) && OrderlyPhase(setup, done, s, p)
    requires forall k :: 0 <= k < |receipts| ==> OrderlyBase(setup, done, receipts[k].0)
    ensures OrderlyPhase(setup, done, s, AfterTurn(setup, s, receipts, p, turn))
  {
    hide Prefix, LineFollows, Transition, Retained, LineOk, PendingHere;
  }

  lemma OrderlyStep(setup: Setup, done: nat, s: State, a: Action)
    requires Ordinary(setup, done) && Inv(setup, s) && Orderly(setup, done, s)
    ensures Orderly(setup, done, After(setup, s, a))
  {
    OrderlyDown(setup, done, s.board);
    hide AfterSerial, AfterTurn, SerialOk, BoundaryOk, PhaseOk, OrderlyScorer, OrderlyPhase, OrderlyBase;
    var t := After(setup, s, a);
    match a
    case Serial(step) =>
      SerialOrderly(setup, done, s.board, step);
      forall c | c in t.at
        ensures OrderlyPhase(setup, done, t.board, t.at[c])
      {
        SerialOrderlyPhase(setup, done, s.board, step, s.at[c]);
      }
    case Coordinator(c, turn) =>
      DownOk(setup, s.board);
      TurnOrderly(setup, done, s.board, s.boundaries, PhaseOf(s, c), turn);
      StoppingOrderly(setup, done, s.board, t.at[c]);
    case Crash(c) =>
  }

  lemma OrderlyDown(setup: Setup, done: nat, s: Board)
    ensures OrderlyPhase(setup, done, s, Down)
  {
  }

  lemma StoppingOrderly(setup: Setup, done: nat, s: Board, p: Phase)
    requires OrderlyPhase(setup, done, s, p)
    ensures p.Stopping? ==> OrderlyBase(setup, done, p.base)
  {
  }

  lemma {:induction false} OrderlyRun(setup: Setup, done: nat, r: Run, i: nat)
    requires Ordinary(setup, done) && IsRun(setup, r) && i < |r.states|
    ensures Orderly(setup, done, r.states[i])
  {
    if i > 0 {
      OrderlyRun(setup, done, r, i - 1);
      InvRun(setup, r, i - 1);
      OrderlyStep(setup, done, r.states[i - 1], r.actions[i - 1]);
    }
  }

  // Coordinator `c` is about to read the first line after its baseline.
  predicate AtRead(s: State, c: nat) {
    && c in s.at && s.at[c].Waiting? && !s.board.scorer.Dead?
    && s.at[c].base.offset < |s.board.log|
  }

  /// The coordinator turns the line down exactly when its baseline holds one episode more
  /// than were logged up to its offset, that is, when it was sampled between a publication
  /// and its log line; the two looks at the log size do not rule that out.  Otherwise it
  /// records the boundary and goes on to wait for the exit.
  lemma RefusesLineExactly(setup: Setup, done: nat, r: Run, i: nat, c: nat)
    requires Ordinary(setup, done) && IsRun(setup, r) && i < |r.states| && AtRead(r.states[i], c)
    ensures var base := r.states[i].at[c].base;
            var ids := |Present(setup.ordered, base.inventory)|;
            var t := After(setup, r.states[i], Coordinator(c, Read));
            && ids == done + base.offset + Ahead(base.pending)
            && if ids == done + base.offset + 1 then t.at[c].Refused? && t.boundaries == r.states[i].boundaries
               else
                 var line := r.states[i].board.log[base.offset];
                 && t.at[c] == Stopping(base, line) && t.boundaries == r.states[i].boundaries + [(base, line)]
  {
    OrderlyRun(setup, done, r, i);
    InvRun(setup, r, i);
    var s, p := r.states[i].board, r.states[i].at[c];
    assert PhaseOk(setup, s, p) && OrderlyPhase(setup, done, s, p);
    var line := s.log[p.base.offset];
    assert LineOk(setup, s, line) && line.completed == done + p.base.offset + 1;
    var n := done + p.base.offset + Ahead(p.base.pending);
    PresentOfPrefix(setup.ordered, p.base.inventory, n);
    hide *;
    FollowsExactly(setup, s, line, p.base.inventory, n);
    ReadTurn(setup, r.states[i], c);
  }

  lemma FollowsExactly(setup: Setup, s: Board, line: Line, inventory: Inventory, n: nat)
    requires setup.order == setup.ordered && n <= |setup.ordered|
    requires Present(setup.ordered, inventory) == setup.ordered[..n]
    requires LineOk(setup, s, line)
    ensures LineFollows(line, inventory, setup.ordered) <==> line.completed == n + 1
  {
    hide Present;
  }

  lemma ReadTurn(setup: Setup, s: State, c: nat)
    requires AtRead(s, c)
    ensures var base, t := s.at[c].base, After(setup, s, Coordinator(c, Read));
            if LineFollows(s.board.log[base.offset], base.inventory, setup.ordered) then
              var line := s.board.log[base.offset];
              t.at[c] == Stopping(base, line) && t.boundaries == s.boundaries + [(base, line)]
            else t.at[c].Refused? && t.boundaries == s.boundaries
  {
    hide LineFollows;
  }

  lemma Extend(setup: Setup, r: Run, a: Action) returns (q: Run)
    requires IsRun(setup, r)
    ensures IsRun(setup, q) && Last(q) == After(setup, Last(r), a)
  {
    q := Run(r.states + [After(setup, Last(r), a)], r.actions + [a]);
  }

  function Last(r: Run): State
    requires |r.states| == |r.actions| + 1
  {
    r.states[|r.actions|]
  }

  // A manifest of two episodes, of which none is published yet.
  const PAIR := Setup([0, 1], [0, 1], map[])
  // The first one is published with content 7, and not yet logged.
  const UNLOGGED := Board(Unlogged, 0, map[0 := 7], false, [])

  lemma RunToUnlogged() returns (r: Run)
    ensures IsRun(PAIR, r) && Last(r) == State(UNLOGGED, [], map[])
  {
    r := Run([State(Board(Idle, 0, map[], false, []), [], map[])], []);
    r := Extend(PAIR, r, Serial(Lock));
    r := Extend(PAIR, r, Serial(Rename(7)));
    r := Extend(PAIR, r, Serial(Unlock));
  }

  /// A run in which it happens: both looks at the log size fall between the unlocking and
  /// the log line, and the coordinator refuses the line of an orderly scorer.
  lemma RefusingRun() returns (r: Run)
    ensures Ordinary(PAIR, 0) && IsRun(PAIR, r) && AtRead(Last(r), 0)
    ensures Last(r).at[0] == Waiting(Baseline(map[0 := 7], 0, true)) && Last(r).board.log == [Line(0, 7, 1, 2)]
    ensures After(PAIR, Last(r), Coordinator(0, Read)).at[0].Refused?
  {
    r := RunToUnlogged();
    r := Extend(PAIR, r, Coordinator(0, Measure));
    r := Extend(PAIR, r, Coordinator(0, Sample));
    r := Extend(PAIR, r, Coordinator(0, Confirm));
    r := Extend(PAIR, r, Serial(Log));
    RefusesLineExactly(PAIR, 0, r, |r.actions|, 0);
    assert Last(r).at[0].base.pending;
  }

  /// After the scorer is gone, the comparison accepts exactly when the scorer left no
  /// lock or staging behind and published exactly one episode past the baseline.
  lemma AcceptsExactly(setup: Setup, done: nat, r: Run, i: nat, c: nat)
    requires Ordinary(setup, done) && IsRun(setup, r) && i < |r.states|
    requires c in r.states[i].at && r.states[i].at[c].Comparing?
    ensures var s, base := r.states[i].board, r.states[i].at[c].base;
            After(setup, r.states[i], Coordinator(c, Compare)).at[c].Accepted?
            <==> !s.residue && |Present(setup.ordered, s.published)| == |Present(setup.ordered, base.inventory)| + 1
  {
    OrderlyRun(setup, done, r, i);
    InvRun(setup, r, i);
    var s, p := r.states[i].board, r.states[i].at[c];
    assert PhaseOk(setup, s, p) && OrderlyPhase(setup, done, s, p);
    ComparisonExact(setup, done, s, p.base, p.line);
  }

  /// A coordinator whose scorer is gone accepts in two turns exactly under that condition,
  /// and freezes what is published; otherwise it refuses.
  lemma StopsExactly(setup: Setup, done: nat, r: Run, i: nat, c: nat)
    requires Ordinary(setup, done) && IsRun(setup, r) && i < |r.states|
    requires c in r.states[i].at && r.states[i].at[c].Stopping? && r.states[i].board.scorer.Dead?
    ensures var s, p := r.states[i].board, r.states[i].at[c];
            var t := After(setup, After(setup, r.states[i], Coordinator(c, SeeExit)), Coordinator(c, Compare));
            && t.board == s
            && t.at[c] ==
               if !s.residue && |Present(setup.ordered, s.published)| == |Present(setup.ordered, p.base.inventory)| + 1
               then Accepted(p.base, p.line, s.published) else Refused
  {
    OrderlyRun(setup, done, r, i);
    InvRun(setup, r, i);
    var s, p := r.states[i].board, r.states[i].at[c];
    assert PhaseOk(setup, s, p) && OrderlyPhase(setup, done, s, p);
    ComparisonExact(setup, done, s, p.base, p.line);
    hide Accepts, Present;
  }

  /// Undisturbed, a coordinator of a live scorer samples what is published, bound to the
  /// log as it stands, exactly when nothing is locked or staged.
  lemma SamplesExactly(setup: Setup, done: nat, r: Run, i: nat, c: nat)
    requires Ordinary(setup, done) && IsRun(setup, r) && i < |r.states|
    requires PhaseOf(r.states[i], c).Down? && !r.states[i].board.scorer.Dead?
    ensures var s := r.states[i].board;
            var measured := After(setup, r.states[i], Coordinator(c, Measure));
            var t := After(setup, After(setup, measured, Coordinator(c, Sample)), Coordinator(c, Confirm));
            && t.board == s && t.boundaries == r.states[i].boundaries
            && t.at[c] == if s.residue then Down else Waiting(Baseline(s.published, |s.log|, s.scorer.Unlogged?))
  {
    OrderlyRun(setup, done, r, i);
    hide LineFollows, Accepts;
  }

  /// A sample that the log outran is taken again as long as the scorer lives.
  lemma SampleRetried(setup: Setup, s: State, c: nat)
    requires PhaseOf(s, c).Sampled? && |s.board.log| != PhaseOf(s, c).size
    ensures var t := After(setup, s, Coordinator(c, Confirm));
            && t.board == s.board && t.boundaries == s.boundaries
            && t.at[c] == if s.board.scorer.Dead? then Down else Measured(|s.board.log|)
  {
    hide LineFollows, Accepts;
  }

  /// A coordinator that has no boundary yet gets none from a dead scorer.
  lemma NothingFromTheDead(setup: Setup, s: State, c: nat, turn: Turn)
    requires s.board.scorer.Dead? && !turn.Resume?
    requires var p := PhaseOf(s, c); p.Down? || p.Measured? || p.Sampled? || p.Waiting?
    ensures var t := After(setup, s, Coordinator(c, turn));
            && t.boundaries == s.boundaries && !t.at[c].Stopping?
            && (PhaseOf(s, c).Waiting? && turn.Read? ==> t.at[c] == Down)
  {
    hide LineFollows, Accepts;
  }

  // A waiting or comparing coordinator's boundary is on record.
  ghost predicate Recorded(s: State, p: Phase) {
    p.Stopping? ==> exists k :: 0 <= k < |s.boundaries| && s.boundaries[k] == (p.base, p.line)
  }

  lemma RecordedStep(setup: Setup, s: State, a: Action, c: nat)
    requires Recorded(s, PhaseOf(s, c))
    ensures Recorded(After(setup, s, a), PhaseOf(After(setup, s, a), c))
  {
    hide LineFollows, Accepts, Readable;
    var t := After(setup, s, a);
    assert forall k :: 0 <= k < |s.boundaries| ==> t.boundaries[k] == s.boundaries[k];
    if a.Coordinator? && a.c == c && t.at[c].Stopping? && PhaseOf(s, c).Waiting? {
      assert t.boundaries[|s.boundaries|] == (t.at[c].base, t.at[c].line);
    }
  }

  lemma {:induction false} RecordedRun(setup: Setup, r: Run, i: nat, c: nat)
    requires IsRun(setup, r) && i < |r.states|
    ensures Recorded(r.states[i], PhaseOf(r.states[i], c))
  {
    hide After, Recorded;
    if i == 0 {
      NothingRecorded(r.states[0]);
    } else {
      RecordedRun(setup, r, i - 1, c);
      RecordedStep(setup, r.states[i - 1], r.actions[i - 1], c);
    }
  }

  lemma NothingRecorded(s: State)
    ensures Recorded(s, Down)
  {
  }

  /// A coordinator that dies while it waits for the exit can be started again, from a
  /// recorded boundary, exactly where it was.
  lemma RestartLosesNothing(setup: Setup, r: Run, i: nat, c: nat) returns (receipt: nat)
    requires IsRun(setup, r) && i < |r.states| && c in r.states[i].at && r.states[i].at[c].Stopping?
    ensures After(setup, After(setup, r.states[i], Crash(c)), Coordinator(c, Resume(receipt))) == r.states[i]
  {
    RecordedRun(setup, r, i, c);
    var s := r.states[i];
    receipt :| 0 <= receipt < |s.boundaries| && s.boundaries[receipt] == (s.at[c].base, s.at[c].line);
    assert s.at[c := Down][c := s.at[c]] == s.at;
  }

  /// An idle scorer with episodes left skips what is published, and otherwise publishes its
  /// episode and then logs it.
  lemma ScorerAdvances(setup: Setup, r: Run, i: nat, content: Digest)
    requires IsRun(setup, r) && i < |r.states|
    requires r.states[i].board.scorer.Idle? && r.states[i].board.next < |setup.order|
    ensures var s := r.states[i].board;
            var e := setup.order[s.next];
            if e in s.published then AfterSerial(setup, s, Skip) == s.(next := s.next + 1)
            else
              var t := AfterSerial(setup, AfterSerial(setup, AfterSerial(setup, s, Lock), Rename(content)), Unlock);
              && t.published == s.published[e := content] && !t.residue && t.log == s.log
              && AfterSerial(setup, t, Log) ==
                 Board(Idle, s.next + 1, t.published, false,
                       s.log + [Line(e, content, s.next + 1, |setup.order|)])
  {
    InvRun(setup, r, i);
  }

  lemma ComparisonExact(setup: Setup, done: nat, s: Board, base: Baseline, line: Line)
    requires Ordinary(setup, done) && BoundaryOk(setup, s, base, line) && s.scorer.Dead?
    requires OrderlyBase(setup, done, base) && OrderlyScorer(setup, done, s)
    requires line.id in s.published && s.published[line.id] == line.sha
    ensures Accepts(setup.ordered, s, base, line)
            <==> !s.residue && |Present(setup.ordered, s.published)| == |Present(setup.ordered, base.inventory)| + 1
  {
    var ordered := setup.ordered;
    var b := done + base.offset + Ahead(base.pending);
    PresentOfPrefix(ordered, base.inventory, b);
    var n := if Prefix(ordered, s.published, done + |s.log|) then done + |s.log| else done + |s.log| + 1;
    PresentOfPrefix(ordered, s.published, n);
    hide Present, OrderlyScorer;
    if n == b + 1 {
      LastOfPrefix(ordered, b);
    }
  }

  lemma LastOfPrefix(ordered: seq<EpisodeId>, b: nat)
    requires Distinct(ordered) && b < |ordered|
    ensures (set e | e in ordered[..b + 1] && e !in ordered[..b]) == {ordered[b]}
  {
    var ids, longer := ordered[..b], ordered[..b + 1];
    forall e
      ensures e in longer && e !in ids <==> e == ordered[b]
    {
      assert longer == ids + [ordered[b]];
    }
  }

  // ---------------------------------------------------------------- a cutover

  // Three episodes, of which the first was published before the scorer started.
  const STARTED := Setup([0, 1, 2], [0, 1, 2], map[0 := 5])
  const BASE := Baseline(map[0 := 5], 0, false)
  const LOGGED := Board(Idle, 2, map[0 := 5, 1 := 7], false, [Line(1, 7, 2, 3)])

  lemma RunToWaiting() returns (r: Run)
    ensures IsRun(STARTED, r)
    ensures Last(r) == State(Board(Idle, 1, map[0 := 5], false, []), [], map[0 := Waiting(BASE)])
  {
    r := Run([State(Board(Idle, 0, map[0 := 5], false, []), [], map[])], []);
    r := Extend(STARTED, r, Serial(Skip));
    r := Extend(STARTED, r, Coordinator(0, Measure));
    r := Extend(STARTED, r, Coordinator(0, Sample));
    r := Extend(STARTED, r, Coordinator(0, Confirm));
  }

  lemma RunToLogged() returns (r: Run)
    ensures IsRun(STARTED, r) && Last(r) == State(LOGGED, [], map[0 := Waiting(BASE)])
  {
    r := RunToWaiting();
    r := Extend(STARTED, r, Serial(Lock));
    r := Extend(STARTED, r, Serial(Rename(7)));
    r := Extend(STARTED, r, Serial(Unlock));
    r := Extend(STARTED, r, Serial(Log));
  }

  lemma StartedPrefix()
    ensures Ordinary(STARTED, 1)
    ensures Present([0, 1, 2], map[0 := 5]) == [0] && Present([0, 1, 2], map[0 := 5, 1 := 7]) == [0, 1]
  {
    PresentOfPrefix([0, 1, 2], map[0 := 5], 1);
    PresentOfPrefix([0, 1, 2], map[0 := 5, 1 := 7], 2);
  }

  /// A cutover that goes through: the line is accepted, the scorer stops, and one episode
  /// past the baseline is frozen.
  lemma AcceptingRun() returns (r: Run)
    ensures IsRun(STARTED, r) && Ordinary(STARTED, 1)
    ensures Last(r).board == LOGGED.(scorer := Dead)
    ensures Last(r).at == map[0 := Accepted(BASE, Line(1, 7, 2, 3), map[0 := 5, 1 := 7])]
  {
    r := RunToLogged();
    StartedPrefix();
    RefusesLineExactly(STARTED, 1, r, |r.actions|, 0);
    r := Extend(STARTED, r, Coordinator(0, Read));
    r := Extend(STARTED, r, Serial(Die));
    StopsExactly(STARTED, 1, r, |r.actions|, 0);
    r := Extend(STARTED, r, Coordinator(0, SeeExit));
    r := Extend(STARTED, r, Coordinator(0, Compare));
  }
}
