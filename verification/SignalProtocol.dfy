/// Who may signal the serial scorer, and when
/// (ops/calibration_two_worker_continuation_18d6494.py).
///
/// Any number of coordinators run `cutover`, `resume` or `recover-ignored-sigint`
/// at the same time.  Each may die at any point and be started again in any mode.
/// Receipts are created exclusively and never removed; a restarted coordinator
/// knows nothing but what the receipts say.
///
/// An execution root is new, or it was left by the program before the recovery
/// amendment, of which coordinators may still be running.

module SignalProtocol {
  import opened Wrappers

  // ---------------------------------------------------------------- the world

  // A `score_completed` line, by its byte offsets in the serial log.
  datatype Boundary = Boundary(start: nat, stop: nat)

  // attempt-0001-intent.json, with the coordinator that created it.
  datatype Intent = Intent(writer: nat, resumed: bool)

  // The control provenance in a cutover intent: ORIGINAL_* for the program before the
  // recovery amendment, the six keys of _require_control_checkout for this one.
  datatype Control = Legacy | Current

  // cutover-intent.json, with its log offset.
  datatype Opening = Opening(offset: nat, control: Control)

  // The receipts that lead to SIGINT.
  datatype IntFiles = IntFiles(
    root: bool,                          // the execution root itself
    cutoverIntent: Option<Opening>,      // cutover-intent.json
    boundary: Option<Boundary>,          // boundary-observed.json
    resumedBoundary: Option<Boundary>,   // boundary-observations/resume-0001.json
    intent: Option<Intent>,              // signal-attempts/attempt-0001-intent.json
    dispatched: bool,                    // signal-attempts/attempt-0001-dispatched.json
    interrupt: bool)                     // attempt-0001-exited.json, then serial-interrupt.json

  // The receipts that lead from an ineffective SIGINT to SIGTERM.
  datatype TermFiles = TermFiles(
    ineffective: Option<nat>,            // attempt-0001-ineffective.json, with the log size then
    recoveryIntent: Option<nat>,         // recovery-cutover-intent.json, with its log offset
    boundary: Option<Boundary>,          // recovery-boundary-observed.json
    intent: Option<nat>,                 // recovery-signal-attempts/attempt-0001-intent.json
    dispatched: bool,                    // recovery-signal-attempts/attempt-0001-dispatched.json
    exit: bool)                          // recovery-signal-attempts/attempt-0001-exit-observed.json

  datatype World = World(
    alive: bool,          // the serial scorer and its flock wrapper
    ignoresInt: bool,     // SIGINT inherited as ignored: fixed for the life of the scorer
    logSize: nat,
    sigint: IntFiles,
    sigterm: TermFiles,
    ints: nat,            // SIGINTs delivered so far
    terms: nat)           // SIGTERMs delivered so far

  // Whose cutover intent the root holds.
  predicate Ours(w: World) {
    w.sigint.cutoverIntent.Some? && w.sigint.cutoverIntent.value.control == Current
  }

  predicate Inherited(w: World) {
    w.sigint.cutoverIntent.Some? && w.sigint.cutoverIntent.value.control == Legacy
  }

  // What a coordinator is about to do.  Only `Down` survives a crash.
  datatype Point =
    | Down
    // _cutover_main
    | CutoverRoot(offset: nat)
    | CutoverIntent(offset: nat)
    | CutoverWait(offset: nat)
    // _resume_main, _resume_live_cutover_boundary, _recover_plan_after_stopped_boundary
    | ResumeLive
    | ResumeWait(offset: nat)
    | ResumeStopped
    // _dispatch_serial_interrupt, _complete_dispatched_interrupt
    | IntLook(resumed: bool)
    | IntLookIntents(resumed: bool)
    | IntWrite(resumed: bool)
    | IntSend
    | IntReceipt
    | IntAwaitExit
    // _recover_ignored_sigint_main
    | RecoverOriginal
    | RecoverClose
    | RecoverBaseline
    | RecoverIntent(offset: nat)
    | RecoverWait
    // _ensure_recovery_sigterm_dispatched, _complete_recovery_sigterm
    | TermLook
    | TermWrite
    | TermSend
    | TermReceipt
    | TermAwaitExit
    // signalling is over; the freeze and the plan follow
    | Finished

  // The effect of one step of one coordinator.
  datatype Move = Move(world: World, point: Point)

  function Stop(w: World): Move { Move(w, Down) }

  function AdvanceCutover(w: World, p: Point): Move {
    match p
    case CutoverRoot(offset) =>
      if w.sigint.root then Stop(w)
      else Move(w.(sigint := w.sigint.(root := true)), CutoverIntent(offset))
    case CutoverIntent(offset) =>
      if w.sigint.cutoverIntent.Some? then Stop(w)
      else Move(w.(sigint := w.sigint.(cutoverIntent := Some(Opening(offset, Current)))), CutoverWait(offset))
    case ResumeLive =>
      if !Ours(w) || !w.alive then Stop(w)
      else if w.sigint.dispatched then Move(w, IntAwaitExit)
      else if w.sigint.intent.Some? then Stop(w)
      else if w.sigint.resumedBoundary.Some? then Move(w, IntLook(true))
      else if w.sigint.boundary.Some? then Move(w, IntLook(false))
      else Move(w, ResumeWait(w.logSize))
    case ResumeStopped =>
      if w.alive || !Ours(w) || !w.sigint.dispatched then Stop(w)
      else Move(w.(sigint := w.sigint.(interrupt := true)), Finished)
    case _ => Move(w, p)
  }

  function AdvanceInt(w: World, c: nat, p: Point): Move {
    match p
    case IntLook(resumed) =>
      if w.sigint.dispatched then Move(w, IntAwaitExit) else Move(w, IntLookIntents(resumed))
    case IntLookIntents(resumed) =>
      if w.sigint.intent.Some? then Stop(w) else Move(w, IntWrite(resumed))
    case IntWrite(resumed) =>
      if w.sigint.intent.Some? then Stop(w)
      else Move(w.(sigint := w.sigint.(intent := Some(Intent(c, resumed)))), IntSend)
    case IntSend =>
      if !w.alive then Stop(w) else Move(w.(ints := w.ints + 1), IntReceipt)
    case IntReceipt =>
      if w.sigint.dispatched then Stop(w)
      else Move(w.(sigint := w.sigint.(dispatched := true)), IntAwaitExit)
    case IntAwaitExit =>
      if w.alive then Move(w, p) else Move(w.(sigint := w.sigint.(interrupt := true)), Finished)
    case _ => Move(w, p)
  }

  function AdvanceRecover(w: World, p: Point): Move {
    match p
    case RecoverOriginal =>
      if !Inherited(w) || w.sigint.boundary.None? || w.sigint.intent.None?
         || w.sigint.intent.value.resumed || !w.sigint.dispatched || w.sigint.interrupt
      then Stop(w) else Move(w, RecoverClose)
    case RecoverClose =>
      if w.sigterm.ineffective.Some? then Move(w, RecoverBaseline)
      else if !w.alive || !w.ignoresInt then Stop(w)
      else Move(w.(sigterm := w.sigterm.(ineffective := Some(w.logSize))), RecoverBaseline)
    case RecoverBaseline =>
      if w.sigterm.recoveryIntent.Some? then Move(w, RecoverWait)
      else if !w.alive then Stop(w)
      else Move(w, RecoverIntent(w.logSize))
    case RecoverIntent(offset) =>
      if w.sigterm.recoveryIntent.Some? || !w.ignoresInt then Stop(w)
      else Move(w.(sigterm := w.sigterm.(recoveryIntent := Some(offset))), RecoverWait)
    case RecoverWait =>
      if w.sigterm.boundary.Some? then Move(w, TermLook)
      else if !w.alive then Stop(w) else Move(w, p)
    case _ => Move(w, p)
  }

  function AdvanceTerm(w: World, c: nat, p: Point): Move {
    match p
    case TermLook =>
      if w.sigterm.dispatched then Move(w, TermAwaitExit)
      else if w.sigterm.intent.Some? || !w.alive then Stop(w)
      else Move(w, TermWrite)
    case TermWrite =>
      if w.sigterm.intent.Some? then Stop(w)
      else Move(w.(sigterm := w.sigterm.(intent := Some(c))), TermSend)
    case TermSend =>
      if !w.alive || !w.ignoresInt then Stop(w) else Move(w.(terms := w.terms + 1), TermReceipt)
    case TermReceipt =>
      if w.sigterm.dispatched then Stop(w)
      else Move(w.(sigterm := w.sigterm.(dispatched := true)), TermAwaitExit)
    case TermAwaitExit =>
      if w.alive then Move(w, p) else Move(w.(sigterm := w.sigterm.(exit := true)), Finished)
    case _ => Move(w, p)
  }

  // A check that raises sends the coordinator Down; a wait that is not over leaves
  // it where it is.
  function Advance(w: World, c: nat, p: Point): Move {
    match p
    case CutoverRoot(_) | CutoverIntent(_) | ResumeLive | ResumeStopped => AdvanceCutover(w, p)
    case IntLook(_) | IntLookIntents(_) | IntWrite(_) | IntSend | IntReceipt | IntAwaitExit => AdvanceInt(w, c, p)
    case RecoverOriginal | RecoverClose | RecoverBaseline | RecoverIntent(_) | RecoverWait => AdvanceRecover(w, p)
    case TermLook | TermWrite | TermSend | TermReceipt | TermAwaitExit => AdvanceTerm(w, c, p)
    case _ => Move(w, p)
  }

  // A waiting coordinator scans `line`: the three places that read the log from a
  // recorded offset, each writing its own boundary receipt exclusively.
  function Observe(w: World, p: Point, line: Boundary): Move {
    if !(w.alive && line.start < line.stop <= w.logSize) then Move(w, p) else
    match p
    case CutoverWait(offset) =>
      if line.start < offset then Move(w, p)
      else if w.sigint.boundary.Some? then Stop(w)
      else Move(w.(sigint := w.sigint.(boundary := Some(line))), IntLook(false))
    case ResumeWait(offset) =>
      if line.start < offset then Move(w, p)
      else if w.sigint.resumedBoundary.Some? then Stop(w)
      else Move(w.(sigint := w.sigint.(resumedBoundary := Some(line))), IntLook(true))
    case RecoverWait =>
      if w.sigterm.recoveryIntent.None? || line.start < w.sigterm.recoveryIntent.value then Move(w, p)
      else if w.sigterm.boundary.Some? then Stop(w)
      else Move(w.(sigterm := w.sigterm.(boundary := Some(line))), TermLook)
    case _ => Move(w, p)
  }

  // ---------------------------------------------------------------- the invariant

  predicate SourceOk(w: World, resumed: bool) {
    && w.sigint.cutoverIntent.Some?
    && if resumed then w.sigint.resumedBoundary.Some? else w.sigint.boundary.Some?
  }

  // Each chain of receipts is written in order, and a dispatch receipt stands for
  // exactly one delivery.
  predicate IntOk(w: World) {
    var f := w.sigint;
    && w.ints <= 1
    && (f.cutoverIntent.Some? ==> f.root && f.cutoverIntent.value.offset <= w.logSize)
    && (f.boundary.Some? ==> f.cutoverIntent.Some? && f.boundary.value.start >= f.cutoverIntent.value.offset)
    && (f.intent.Some? ==> SourceOk(w, f.intent.value.resumed))
    && (w.ints == 1 ==> f.intent.Some?)
    && (f.dispatched ==> w.ints == 1)
    && (f.interrupt ==> f.dispatched && !w.alive)
  }

  predicate TermOk(w: World) {
    var f := w.sigterm;
    && w.terms <= 1
    && (f.ineffective.Some? ==>
          && Inherited(w) && w.sigint.boundary.Some? && w.sigint.dispatched && w.ignoresInt
          && f.ineffective.value <= w.logSize)
    && (f.recoveryIntent.Some? ==>
          && f.ineffective.Some?
          && f.ineffective.value <= f.recoveryIntent.value <= w.logSize)
    && (f.boundary.Some? ==>
          && f.recoveryIntent.Some?
          && f.recoveryIntent.value <= f.boundary.value.start < f.boundary.value.stop <= w.logSize)
    && (f.intent.Some? ==> f.boundary.Some?)
    && (w.terms == 1 ==> f.intent.Some?)
    && (f.dispatched ==> w.terms == 1)
    && (f.exit ==> f.dispatched && !w.alive)
  }

  // Between creating an intent and writing the dispatch receipt, a coordinator is
  // that intent's writer, and it has sent exactly what its position says.
  predicate PointOk(w: World, c: nat, p: Point) {
    match p
    case CutoverRoot(offset) => offset <= w.logSize
    case CutoverIntent(offset) => w.sigint.root && offset <= w.logSize
    case CutoverWait(offset) => w.sigint.cutoverIntent.Some? && w.sigint.cutoverIntent.value.offset == offset
    case ResumeWait(offset) => Ours(w) && offset <= w.logSize
    case IntLook(resumed) => SourceOk(w, resumed)
    case IntLookIntents(resumed) => SourceOk(w, resumed)
    case IntWrite(resumed) => SourceOk(w, resumed)
    case IntSend => OwnsInt(w, c) && w.ints == 0
    case IntReceipt => OwnsInt(w, c) && w.ints == 1
    case IntAwaitExit => w.sigint.dispatched
    case RecoverClose => Inherited(w) && w.sigint.boundary.Some? && w.sigint.dispatched
    case RecoverBaseline => w.sigterm.ineffective.Some?
    case RecoverIntent(offset) => w.sigterm.ineffective.Some? && w.sigterm.ineffective.value <= offset <= w.logSize
    case RecoverWait => w.sigterm.recoveryIntent.Some?
    case TermLook | TermWrite => w.sigterm.boundary.Some?
    case TermSend => OwnsTerm(w, c) && w.terms == 0
    case TermReceipt => OwnsTerm(w, c) && w.terms == 1
    case TermAwaitExit => w.sigterm.dispatched
    case _ => true
  }

  predicate OwnsInt(w: World, c: nat) {
    w.sigint.intent.Some? && w.sigint.intent.value.writer == c && !w.sigint.dispatched
  }

  predicate OwnsTerm(w: World, c: nat) {
    w.sigterm.intent == Some(c) && !w.sigterm.dispatched
  }

  predicate WorldOk(w: World) {
    IntOk(w) && TermOk(w)
  }

  lemma AdvanceCutoverOk(w: World, c: nat, p: Point)
    requires WorldOk(w) && PointOk(w, c, p)
    ensures var m := AdvanceCutover(w, p); WorldOk(m.world) && PointOk(m.world, c, m.point)
  {
  }

  lemma AdvanceIntOk(w: World, c: nat, p: Point)
    requires WorldOk(w) && PointOk(w, c, p)
    ensures var m := AdvanceInt(w, c, p); WorldOk(m.world) && PointOk(m.world, c, m.point)
  {
  }

  lemma AdvanceRecoverOk(w: World, c: nat, p: Point)
    requires WorldOk(w) && PointOk(w, c, p)
    ensures var m := AdvanceRecover(w, p); WorldOk(m.world) && PointOk(m.world, c, m.point)
  {
  }

  lemma AdvanceTermOk(w: World, c: nat, p: Point)
    requires WorldOk(w) && PointOk(w, c, p)
    ensures var m := AdvanceTerm(w, c, p); WorldOk(m.world) && PointOk(m.world, c, m.point)
  {
  }

  lemma AdvanceOk(w: World, c: nat, p: Point)
    requires WorldOk(w) && PointOk(w, c, p)
    ensures var m := Advance(w, c, p); WorldOk(m.world) && PointOk(m.world, c, m.point)
  {
    hide AdvanceCutover, AdvanceInt, AdvanceRecover, AdvanceTerm, WorldOk, PointOk;
    AdvanceCutoverOk(w, c, p);
    AdvanceIntOk(w, c, p);
    AdvanceRecoverOk(w, c, p);
    AdvanceTermOk(w, c, p);
  }

  lemma AdvanceOthers(w: World, c: nat, p: Point, d: nat, q: Point)
    requires WorldOk(w) && PointOk(w, c, p) && PointOk(w, d, q) && c != d
    ensures PointOk(Advance(w, c, p).world, d, q)
  {
  }

  lemma ObserveOk(w: World, c: nat, p: Point, line: Boundary)
    requires WorldOk(w) && PointOk(w, c, p)
    ensures var m := Observe(w, p, line); WorldOk(m.world) && PointOk(m.world, c, m.point)
  {
  }

  lemma ObserveOthers(w: World, p: Point, line: Boundary, d: nat, q: Point)
    requires WorldOk(w) && PointOk(w, d, q)
    ensures PointOk(Observe(w, p, line).world, d, q)
  {
  }

  // ---------------------------------------------------------------- runs

  datatype Mode = Cutover | Resume | Recover

  // Coordinators absent from the map are Down.
  datatype State = State(world: World, at: map<nat, Point>)

  datatype Action =
    | SerialLogs(bytes: nat)
    | SerialExits
    | Start(c: nat, mode: Mode)
    | Crash(c: nat)
    | Scan(c: nat, line: Boundary)
    | Proceed(c: nat)

  const NO_INT_FILES := IntFiles(false, None, None, None, None, false, false)
  const NO_TERM_FILES := TermFiles(None, None, None, None, false, false)

  // Where a coordinator of the earlier program can be: the cutover's wait and what
  // follows it up to the end of the SIGINT attempt.
  predicate EarlierPoint(p: Point) {
    || p.CutoverWait? || p.IntLook? || p.IntLookIntents? || p.IntWrite?
    || p.IntSend? || p.IntReceipt? || p.IntAwaitExit?
  }

  // Nothing was begun, or the earlier program left some prefix of its SIGINT attempt.
  ghost predicate Init(s: State) {
    && s.world.sigterm == NO_TERM_FILES && s.world.terms == 0
    && (Nothing(s) || LeftBehind(s))
  }

  predicate Nothing(s: State) {
    s.world.sigint == NO_INT_FILES && s.world.ints == 0 && s.at == map[]
  }

  ghost predicate LeftBehind(s: State) {
    Inherited(s.world) && Inv(s) && forall c :: c in s.at ==> EarlierPoint(s.at[c])
  }

  function PointOf(s: State, c: nat): Point {
    if c in s.at then s.at[c] else Down
  }

  function StartPoint(w: World, mode: Mode): Point {
    match mode
    case Cutover => if w.alive && !w.sigint.root then CutoverRoot(w.logSize) else Down
    case Resume => if w.alive then ResumeLive else ResumeStopped
    case Recover => RecoverOriginal
  }

  function Moved(s: State, c: nat, m: Move): State {
    State(m.world, s.at[c := m.point])
  }

  function After(s: State, a: Action): State {
    match a
    case SerialLogs(bytes) =>
      if s.world.alive then s.(world := s.world.(logSize := s.world.logSize + bytes)) else s
    case SerialExits => s.(world := s.world.(alive := false))
    case Start(c, mode) =>
      if PointOf(s, c).Down? then Moved(s, c, Move(s.world, StartPoint(s.world, mode))) else s
    case Crash(c) => Moved(s, c, Stop(s.world))
    case Scan(c, line) => Moved(s, c, Observe(s.world, PointOf(s, c), line))
    case Proceed(c) => Moved(s, c, Advance(s.world, c, PointOf(s, c)))
  }

  // A run visits one state more than it takes actions.
  datatype Run = Run(states: seq<State>, actions: seq<Action>)

  ghost predicate IsPath(r: Run) {
    && |r.states| == |r.actions| + 1
    && forall i :: 0 <= i < |r.actions| ==> r.states[i + 1] == After(r.states[i], r.actions[i])
  }

  ghost predicate IsRun(r: Run) {
    IsPath(r) && Init(r.states[0])
  }

  ghost predicate Inv(s: State) {
    WorldOk(s.world) && forall c :: c in s.at ==> PointOk(s.world, c, s.at[c])
  }

  lemma StartOk(w: World, c: nat, mode: Mode)
    requires WorldOk(w)
    ensures PointOk(w, c, StartPoint(w, mode))
  {
  }

  lemma DownOk(w: World, c: nat)
    ensures PointOk(w, c, Down)
  {
  }

  // The scorer's own steps: its log grows while it lives, or it exits.
  predicate Quiet(w: World, v: World) {
    w.logSize <= v.logSize && (v.alive ==> w.alive) && v == w.(alive := v.alive, logSize := v.logSize)
  }

  lemma QuietOk(w: World, v: World)
    requires WorldOk(w) && Quiet(w, v)
    ensures WorldOk(v)
  {
  }

  lemma QuietPoint(w: World, v: World, c: nat, p: Point)
    requires PointOk(w, c, p) && Quiet(w, v)
    ensures PointOk(v, c, p)
  {
  }

  lemma InvStep(s: State, a: Action)
    requires Inv(s)
    ensures Inv(After(s, a))
  {
    hide Advance, Observe, WorldOk, PointOk;
    var t := After(s, a);
    match a {
      case Scan(c, line) =>
        DownOk(s.world, c);
        ObserveOk(s.world, c, PointOf(s, c), line);
      case Proceed(c) =>
        DownOk(s.world, c);
        AdvanceOk(s.world, c, PointOf(s, c));
      case Start(c, mode) => StartOk(s.world, c, mode);
      case _ => QuietOk(s.world, t.world);
    }
    forall d | d in t.at
      ensures PointOk(t.world, d, t.at[d])
    {
      match a
      case Scan(c, line) => if d != c { ObserveOthers(s.world, PointOf(s, c), line, d, s.at[d]); }
      case Proceed(c) => if d != c { AdvanceOthers(s.world, c, PointOf(s, c), d, s.at[d]); }
      case Start(c, mode) =>
      case Crash(c) => if d == c { DownOk(t.world, d); }
      case _ => QuietPoint(s.world, t.world, d, s.at[d]);
    }
  }

  // Every interleaving and every crash point keeps the invariant.
  lemma {:induction false} InvRun(r: Run, i: nat)
    requires IsRun(r) && i < |r.states|
    ensures Inv(r.states[i])
  {
    if i > 0 {
      InvRun(r, i - 1);
      InvStep(r.states[i - 1], r.actions[i - 1]);
    }
  }

  // ---------------------------------------------------------------- what only grows

  // Receipts stay, deliveries are never taken back, the log is append-only and a
  // dead scorer stays dead.
  predicate Grown(w: World, v: World) {
    && (v.alive ==> w.alive)
    && w.ignoresInt == v.ignoresInt
    && w.logSize <= v.logSize
    && w.ints <= v.ints
    && w.terms <= v.terms
    && (w.sigint.cutoverIntent.Some? ==> v.sigint.cutoverIntent == w.sigint.cutoverIntent)
    && (w.sigint.intent.Some? ==> v.sigint.intent == w.sigint.intent)
    && (w.sigint.dispatched ==> v.sigint.dispatched)
    && (w.sigterm.ineffective.Some? ==> v.sigterm.ineffective == w.sigterm.ineffective)
    && (w.sigterm.recoveryIntent.Some? ==> v.sigterm.recoveryIntent == w.sigterm.recoveryIntent)
    && (w.sigterm.boundary.Some? ==> v.sigterm.boundary == w.sigterm.boundary)
    && (w.sigterm.intent.Some? ==> v.sigterm.intent == w.sigterm.intent)
    && (w.sigterm.dispatched ==> v.sigterm.dispatched)
  }

  lemma MoveGrows(w: World, c: nat, p: Point, line: Boundary)
    ensures Grown(w, Advance(w, c, p).world)
    ensures Grown(w, Observe(w, p, line).world)
  {
  }

  lemma StepGrows(s: State, a: Action)
    ensures Grown(s.world, After(s, a).world)
  {
    hide Advance, Observe;
    match a
    case Scan(c, line) => MoveGrows(s.world, c, PointOf(s, c), line);
    case Proceed(c) => MoveGrows(s.world, c, PointOf(s, c), Boundary(0, 0));
    case _ =>
  }

  lemma {:induction false} RunGrows(r: Run, i: nat, j: nat)
    requires IsRun(r) && i <= j < |r.states|
    ensures Grown(r.states[i].world, r.states[j].world)
    decreases j - i
  {
    hide After;
    if i < j {
      RunGrows(r, i, j - 1);
      StepGrows(r.states[j - 1], r.actions[j - 1]);
    }
  }

  // ---------------------------------------------------------------- main results

  // Action `i` of the run delivers the signal.
  predicate SendsInt(r: Run, i: nat)
    requires i + 1 < |r.states|
  {
    r.states[i + 1].world.ints != r.states[i].world.ints
  }

  predicate SendsTerm(r: Run, i: nat)
    requires i + 1 < |r.states|
  {
    r.states[i + 1].world.terms != r.states[i].world.terms
  }

  // Whatever the coordinators do, the scorer gets SIGINT at most once and SIGTERM
  // at most once.
  lemma EachSignalAtMostOnce(r: Run, i: nat, j: nat)
    requires IsRun(r) && i < |r.actions| && j < |r.actions|
    ensures SendsInt(r, i) && SendsInt(r, j) ==> i == j
    ensures SendsTerm(r, i) && SendsTerm(r, j) ==> i == j
  {
    if i != j {
      var first, last := if i < j then i else j, if i < j then j else i;
      RunGrows(r, first, first + 1);
      RunGrows(r, first + 1, last);
      RunGrows(r, last, last + 1);
      InvRun(r, last + 1);
    }
  }

  // SIGINT was delivered before state `i` of the run, the log then being no longer than
  // `size`: in the run, or before it by the earlier program.
  ghost predicate IntDelivered(r: Run, i: nat, size: nat)
    requires i < |r.states| <= |r.actions| + 1
  {
    || (r.states[0].world.ints == 1 && r.states[0].world.logSize <= size)
    || exists j :: 0 <= j < i && SendsInt(r, j) && r.states[j].world.logSize <= size
  }

  lemma {:induction false} DeliveryHappened(r: Run, i: nat)
    requires IsRun(r) && i < |r.states|
    ensures r.states[i].world.ints > 0 ==> IntDelivered(r, i, r.states[i].world.logSize)
    ensures r.states[i].world.terms > 0 ==> exists j :: 0 <= j < i && SendsTerm(r, j)
  {
    InvRun(r, 0);
    if i > 0 {
      DeliveryHappened(r, i - 1);
      RunGrows(r, i - 1, i);
      if r.states[i].world.ints > 0 && r.states[i - 1].world.ints == 0 {
        assert SendsInt(r, i - 1);
      }
      if r.states[i].world.terms > 0 && r.states[i - 1].world.terms == 0 {
        assert SendsTerm(r, i - 1);
      }
    }
  }

  // A dispatch receipt stands for exactly one delivery, made before it was written.
  lemma DispatchMeansOneDelivery(r: Run, i: nat)
    requires IsRun(r) && i < |r.states|
    ensures r.states[i].world.sigint.dispatched ==>
              r.states[i].world.ints == 1 && IntDelivered(r, i, r.states[i].world.logSize)
    ensures r.states[i].world.sigterm.dispatched ==>
              r.states[i].world.terms == 1 && exists j :: 0 <= j < i && SendsTerm(r, j)
  {
    InvRun(r, i);
    DeliveryHappened(r, i);
  }

  lemma ClosedNow(s: State, a: Action)
    requires s.world.sigterm.ineffective.None? && After(s, a).world.sigterm.ineffective.Some?
    ensures After(s, a).world.sigterm.ineffective.value == s.world.logSize
    ensures Inv(s) ==> s.world.ints == 1
  {
  }

  // The ineffective receipt is written after the delivery it closes.
  lemma {:induction false} IneffectiveAfterDelivery(r: Run, i: nat)
    requires IsRun(r) && i < |r.states| && r.states[i].world.sigterm.ineffective.Some?
    ensures IntDelivered(r, i, r.states[i].world.sigterm.ineffective.value)
  {
    hide After;
    var before := r.states[i - 1];
    if before.world.sigterm.ineffective.Some? {
      IneffectiveAfterDelivery(r, i - 1);
      RunGrows(r, i - 1, i);
    } else {
      ClosedNow(before, r.actions[i - 1]);
      InvRun(r, i - 1);
      DeliveryHappened(r, i - 1);
    }
  }

  // SIGTERM goes out only to a scorer that ignores SIGINT, after a delivered and
  // receipted SIGINT, its ineffective receipt, the recovery intent, and a boundary
  // line that was not yet in the log when SIGINT was delivered.
  lemma TermOnlyAfterFreshBoundary(r: Run, i: nat)
    requires IsRun(r) && i < |r.actions| && SendsTerm(r, i)
    ensures var w := r.states[i].world;
            && w.alive && w.ignoresInt && w.sigint.dispatched && w.ints == 1
            && w.sigterm.ineffective.Some? && w.sigterm.recoveryIntent.Some? && w.sigterm.boundary.Some?
            && w.sigterm.ineffective.value <= w.sigterm.recoveryIntent.value <= w.sigterm.boundary.value.start
            && Inherited(w) && IntDelivered(r, i, w.sigterm.boundary.value.start)
  {
    hide After, Inv;
    InvRun(r, i);
    SendingTerm(r.states[i], r.actions[i]);
    IneffectiveAfterDelivery(r, i);
  }

  lemma SendingTerm(s: State, a: Action)
    requires Inv(s) && After(s, a).world.terms != s.world.terms
    ensures var w := s.world;
            && w.alive && w.ignoresInt && w.sigint.dispatched && w.ints == 1 && Inherited(w)
            && w.sigterm.ineffective.Some? && w.sigterm.recoveryIntent.Some? && w.sigterm.boundary.Some?
            && w.sigterm.ineffective.value <= w.sigterm.recoveryIntent.value <= w.sigterm.boundary.value.start
  {
  }

  // The writer of an undispatched intent is still between its creation and its receipt.
  predicate Pending(s: State, c: nat) {
    PointOf(s, c) == IntSend || PointOf(s, c) == IntReceipt
  }

  predicate TermPending(s: State, c: nat) {
    PointOf(s, c) == TermSend || PointOf(s, c) == TermReceipt
  }

  predicate IntAmbiguous(s: State) {
    && s.world.sigint.intent.Some? && !s.world.sigint.dispatched
    && !Pending(s, s.world.sigint.intent.value.writer)
  }

  predicate TermAmbiguous(s: State) {
    && s.world.sigterm.intent.Some? && !s.world.sigterm.dispatched
    && !TermPending(s, s.world.sigterm.intent.value)
  }

  // Once an intent has no dispatch receipt and `p` is not its writer's own position,
  // a step from `p` neither sends that signal nor writes its receipt.
  lemma BlockedMove(w: World, c: nat, p: Point)
    requires WorldOk(w) && PointOk(w, c, p)
    ensures var m := Advance(w, c, p);
            w.sigint.intent.Some? && !w.sigint.dispatched && p != IntSend && p != IntReceipt ==>
              && !m.world.sigint.dispatched && m.world.ints == w.ints
              && m.point != IntSend && m.point != IntReceipt
    ensures var m := Advance(w, c, p);
            w.sigterm.intent.Some? && !w.sigterm.dispatched && p != TermSend && p != TermReceipt ==>
              && !m.world.sigterm.dispatched && m.world.terms == w.terms
              && m.point != TermSend && m.point != TermReceipt
  {
  }

  lemma QuietObserve(w: World, p: Point, line: Boundary)
    ensures var m := Observe(w, p, line);
            && m.world.sigint.dispatched == w.sigint.dispatched && m.world.ints == w.ints
            && m.world.sigterm.dispatched == w.sigterm.dispatched && m.world.terms == w.terms
            && (m.point == p || m.point.Down? || m.point.IntLook? || m.point.TermLook?)
  {
  }

  // Ambiguity outlives a step that neither dispatches nor takes up the writer's position.
  lemma IntStays(s: State, c: nat, m: Move)
    requires IntAmbiguous(s) && m.world.sigint.intent == s.world.sigint.intent && !m.world.sigint.dispatched
    requires m.point != IntSend && m.point != IntReceipt
    ensures IntAmbiguous(Moved(s, c, m))
  {
  }

  lemma TermStays(s: State, c: nat, m: Move)
    requires TermAmbiguous(s) && m.world.sigterm.intent == s.world.sigterm.intent && !m.world.sigterm.dispatched
    requires m.point != TermSend && m.point != TermReceipt
    ensures TermAmbiguous(Moved(s, c, m))
  {
  }

  // At the writer's position stands only the writer.
  lemma OnlyWriter(s: State, c: nat)
    requires Inv(s)
    ensures IntAmbiguous(s) ==> PointOf(s, c) != IntSend && PointOf(s, c) != IntReceipt
    ensures TermAmbiguous(s) ==> PointOf(s, c) != TermSend && PointOf(s, c) != TermReceipt
  {
    assert PointOk(s.world, c, PointOf(s, c));
  }

  lemma ProceedKeepsAmbiguity(s: State, c: nat)
    requires Inv(s)
    ensures var m := Advance(s.world, c, PointOf(s, c)); var t := Moved(s, c, m);
            && (IntAmbiguous(s) ==> IntAmbiguous(t) && t.world.ints == s.world.ints)
            && (TermAmbiguous(s) ==> TermAmbiguous(t) && t.world.terms == s.world.terms)
  {
    OnlyWriter(s, c);
    assert PointOk(s.world, c, PointOf(s, c));
    BlockedMove(s.world, c, PointOf(s, c));
    StepGrows(s, Proceed(c));
    hide Advance, Observe, PointOk, WorldOk;
    var m := Advance(s.world, c, PointOf(s, c));
    if IntAmbiguous(s) { IntStays(s, c, m); }
    if TermAmbiguous(s) { TermStays(s, c, m); }
  }

  lemma AmbiguityStep(s: State, a: Action)
    requires Inv(s)
    ensures IntAmbiguous(s) ==> IntAmbiguous(After(s, a)) && After(s, a).world.ints == s.world.ints
    ensures TermAmbiguous(s) ==> TermAmbiguous(After(s, a)) && After(s, a).world.terms == s.world.terms
  {
    hide Inv;
    match a
    case Proceed(c) => ProceedKeepsAmbiguity(s, c);
    case Scan(c, line) => ScanKeepsAmbiguity(s, c, line);
    case _ => QuietKeepsAmbiguity(s, a);
  }

  lemma ScanKeepsAmbiguity(s: State, c: nat, line: Boundary)
    requires Inv(s)
    ensures var m := Observe(s.world, PointOf(s, c), line); var t := Moved(s, c, m);
            && (IntAmbiguous(s) ==> IntAmbiguous(t) && t.world.ints == s.world.ints)
            && (TermAmbiguous(s) ==> TermAmbiguous(t) && t.world.terms == s.world.terms)
  {
    OnlyWriter(s, c);
    QuietObserve(s.world, PointOf(s, c), line);
    StepGrows(s, Scan(c, line));
    hide Observe, PointOk, WorldOk;
    var m := Observe(s.world, PointOf(s, c), line);
    if IntAmbiguous(s) { IntStays(s, c, m); }
    if TermAmbiguous(s) { TermStays(s, c, m); }
  }

  lemma QuietKeepsAmbiguity(s: State, a: Action)
    requires !a.Proceed? && !a.Scan?
    ensures IntAmbiguous(s) ==> IntAmbiguous(After(s, a)) && After(s, a).world.ints == s.world.ints
    ensures TermAmbiguous(s) ==> TermAmbiguous(After(s, a)) && After(s, a).world.terms == s.world.terms
  {
    hide Advance, Observe;
  }

  lemma AmbiguousMeans(s: State)
    requires Inv(s)
    ensures IntAmbiguous(s) ==> s.world.terms == 0
    ensures TermAmbiguous(s) ==> s.world.ints == 1
  {
    hide PointOk;
  }

  // An intent whose writer died before the dispatch receipt blocks all further
  // signalling: for SIGINT, neither signal is ever sent again; for SIGTERM, no
  // second SIGTERM.
  lemma {:induction false} AmbiguousIntentBlocks(r: Run, i: nat, j: nat)
    requires IsRun(r) && i <= j < |r.states|
    ensures IntAmbiguous(r.states[i]) ==>
              && IntAmbiguous(r.states[j])
              && r.states[j].world.ints == r.states[i].world.ints
              && r.states[j].world.terms == 0
    ensures TermAmbiguous(r.states[i]) ==>
              && TermAmbiguous(r.states[j])
              && r.states[j].world.terms == r.states[i].world.terms
              && r.states[j].world.ints == 1
    decreases j - i
  {
    hide Inv, After, IntAmbiguous, TermAmbiguous, Init;
    InvRun(r, j);
    AmbiguousMeans(r.states[j]);
    if i < j {
      AmbiguousIntentBlocks(r, i, j - 1);
      InvRun(r, j - 1);
      AmbiguityStep(r.states[j - 1], r.actions[j - 1]);
    }
  }

  // ---------------------------------------------------------------- attribution

  // A coordinator at one of these points goes on to credit SIGINT with the scorer's exit.
  predicate Awaits(p: Point) {
    p.IntAwaitExit? || p.IntLook?
  }

  // In an inherited root this program takes up no position of the SIGINT attempt.
  lemma TakesNoPosition(s: State, a: Action, c: nat)
    requires Inv(s) && Inherited(s.world) && EarlierPoint(PointOf(After(s, a), c))
    ensures EarlierPoint(PointOf(s, c)) && a != Crash(c)
  {
  }

  lemma InheritedEarlier(s: State, a: Action)
    requires Inherited(After(s, a).world)
    ensures Inherited(s.world)
  {
  }

  /// In an inherited root only coordinators of the earlier program that were there when
  /// the run began, and never went down since, stand anywhere in the SIGINT attempt.
  lemma {:induction false} OnlyEarlierCoordinators(r: Run, i: nat, j: nat, c: nat)
    requires IsRun(r) && j <= i < |r.states|
    requires Inherited(r.states[i].world) && EarlierPoint(PointOf(r.states[i], c))
    ensures Inherited(r.states[0].world) && EarlierPoint(PointOf(r.states[j], c))
    ensures EarlierPoint(PointOf(r.states[0], c))
    decreases i
  {
    hide After, Inv;
    if i > 0 {
      InvRun(r, i - 1);
      InheritedEarlier(r.states[i - 1], r.actions[i - 1]);
      TakesNoPosition(r.states[i - 1], r.actions[i - 1], c);
      OnlyEarlierCoordinators(r, i - 1, if j < i then j else i - 1, c);
    }
  }

  // Action `i` of the run writes serial-interrupt.json.
  predicate CreditsInt(r: Run, i: nat)
    requires i + 1 < |r.states|
  {
    !r.states[i].world.sigint.interrupt && r.states[i + 1].world.sigint.interrupt
  }

  lemma CreditedBy(s: State, a: Action)
    requires Inv(s) && Inherited(s.world) && !s.world.sigint.interrupt && After(s, a).world.sigint.interrupt
    ensures a.Proceed? && PointOf(s, a.c) == IntAwaitExit
  {
  }

  /// No coordinator of this program ever credits SIGINT after SIGTERM was delivered: only
  /// one of the earlier program could, that was running when the run began and never
  /// went down.
  lemma NoFalseAttribution(r: Run, i: nat)
    requires IsRun(r) && i < |r.actions| && CreditsInt(r, i) && r.states[i].world.terms == 1
    ensures r.actions[i].Proceed? && PointOf(r.states[i], r.actions[i].c) == IntAwaitExit
    ensures forall j :: 0 <= j <= i ==> EarlierPoint(PointOf(r.states[j], r.actions[i].c))
  {
    hide After, Inv;
    InvRun(r, i);
    SigtermInherited(r.states[i]);
    CreditedBy(r.states[i], r.actions[i]);
    forall j | 0 <= j <= i
      ensures EarlierPoint(PointOf(r.states[j], r.actions[i].c))
    {
      OnlyEarlierCoordinators(r, i, j, r.actions[i].c);
    }
  }

  lemma SigtermInherited(s: State)
    requires Inv(s) && s.world.terms == 1
    ensures Inherited(s.world) && s.world.sigint.boundary.Some? && s.world.sigint.dispatched
  {
    hide PointOk;
  }

  /// When nobody of the earlier program was left, as the amendment reports, a delivered
  /// SIGTERM rules the receipt out for good.
  lemma NeverCreditedAfterSigterm(r: Run, i: nat, j: nat)
    requires IsRun(r) && r.states[0].at == map[] && i <= j < |r.states|
    requires r.states[i].world.terms == 1 && !r.states[i].world.sigint.interrupt
    ensures !r.states[j].world.sigint.interrupt
    decreases j
  {
    hide After, Inv;
    if i < j {
      NeverCreditedAfterSigterm(r, i, j - 1);
      RunGrows(r, i, j - 1);
      InvRun(r, j - 1);
      TermsAtMostOne(r.states[j - 1]);
      if r.states[j].world.sigint.interrupt {
        NoFalseAttribution(r, j - 1);
      }
    }
  }

  lemma TermsAtMostOne(s: State)
    requires Inv(s)
    ensures s.world.terms <= 1
  {
    hide PointOk;
  }

  function Play(s: State, actions: seq<Action>): State {
    if actions == [] then s else After(Play(s, actions[..|actions| - 1]), actions[|actions| - 1])
  }

  // Some continuation ends with serial-interrupt.json.
  ghost predicate CanCreditInt(s: State) {
    exists actions :: Play(s, actions).world.sigint.interrupt
  }

  // SIGTERM was delivered, SIGINT is not credited, and nobody is about to.
  ghost predicate Uncredited(s: State) {
    && Inv(s) && s.world.terms == 1 && !s.world.sigint.interrupt
    && forall c :: c in s.at ==> !Awaits(s.at[c])
  }

  lemma NobodyAwaits(s: State, a: Action, c: nat)
    requires Inv(s) && s.world.terms == 1 && !Awaits(PointOf(s, c))
    ensures !Awaits(PointOf(After(s, a), c))
  {
    SigtermInherited(s);
    assert PointOk(s.world, c, PointOf(s, c));
  }

  lemma UncreditedStays(s: State, a: Action)
    requires Uncredited(s)
    ensures Uncredited(After(s, a))
  {
    hide After, Inv;
    var t := After(s, a);
    InvStep(s, a);
    StepGrows(s, a);
    TermsAtMostOne(t);
    SigtermInherited(s);
    if t.world.sigint.interrupt {
      CreditedBy(s, a);
    }
    forall c | c in t.at
      ensures !Awaits(t.at[c])
    {
      NobodyAwaits(s, a, c);
    }
  }

  lemma {:induction false} UncreditedPlay(s: State, actions: seq<Action>)
    requires Uncredited(s)
    ensures Uncredited(Play(s, actions))
  {
    hide After, Uncredited;
    if actions != [] {
      UncreditedPlay(s, actions[..|actions| - 1]);
      UncreditedStays(Play(s, actions[..|actions| - 1]), actions[|actions| - 1]);
    }
  }

  /// After a delivered SIGTERM, and before the receipt is there, it can still be written
  /// if and only if a coordinator awaits the exit of the SIGINT attempt or is about to.
  lemma CreditExactly(r: Run, i: nat)
    requires IsRun(r) && i < |r.states|
    requires r.states[i].world.terms == 1 && !r.states[i].world.sigint.interrupt
    ensures CanCreditInt(r.states[i]) <==> exists c :: c in r.states[i].at && Awaits(r.states[i].at[c])
  {
    hide After, Inv;
    InvRun(r, i);
    var s := r.states[i];
    if c :| c in s.at && Awaits(s.at[c]) {
      AwaitingCredits(s, c);
    } else if CanCreditInt(s) {
      var actions :| Play(s, actions).world.sigint.interrupt;
      UncreditedPlay(s, actions);
    }
  }

  lemma AwaitingCredits(s: State, c: nat)
    requires Inv(s) && s.world.terms == 1 && c in s.at && Awaits(s.at[c])
    ensures CanCreditInt(s)
  {
    SigtermInherited(s);
    var actions := [] + [Proceed(c)] + [SerialExits] + [Proceed(c)];
    PlayOn(s, [], Proceed(c));
    PlayOn(s, [] + [Proceed(c)], SerialExits);
    PlayOn(s, [] + [Proceed(c)] + [SerialExits], Proceed(c));
    var first := After(s, Proceed(c));
    AwaitStep(s, c);
    AwaitExits(first, c);
  }

  lemma PlayOn(s: State, actions: seq<Action>, a: Action)
    ensures Play(s, actions + [a]) == After(Play(s, actions), a)
  {
    hide After;
    assert (actions + [a])[..|actions|] == actions;
  }

  lemma AwaitStep(s: State, c: nat)
    requires s.world.sigint.dispatched && c in s.at && Awaits(s.at[c])
    ensures var t := After(s, Proceed(c)); t.world.sigint.interrupt || t.at[c] == IntAwaitExit
  {
  }

  lemma AwaitExits(s: State, c: nat)
    requires c in s.at && (s.world.sigint.interrupt || s.at[c] == IntAwaitExit)
    ensures After(After(s, SerialExits), Proceed(c)).world.sigint.interrupt
  {
  }

  // ---------------------------------------------------------------- a recovery

  function Last(r: Run): State
    requires |r.states| == |r.actions| + 1
  {
    r.states[|r.actions|]
  }

  lemma Extend(r: Run, a: Action) returns (q: Run)
    requires IsRun(r)
    ensures IsRun(q) && Last(q) == After(Last(r), a) && q.states[0] == r.states[0]
  {
    q := Run(r.states + [After(Last(r), a)], r.actions + [a]);
  }

  // What the earlier program left: one dispatched SIGINT, ignored; then the recovery.
  const IGNORED := IntFiles(true, Some(Opening(0, Legacy)), Some(Boundary(0, 10)), None, Some(Intent(0, false)),
                            true, false)
  const SILENT := World(true, true, 10, IGNORED, NO_TERM_FILES, 1, 0)
  const CLOSED := SILENT.(sigterm := TermFiles(Some(10), Some(10), None, None, false, false))
  const WATCHED := CLOSED.(logSize := 20,
                           sigterm := TermFiles(Some(10), Some(10), Some(Boundary(10, 20)), None, false, false))
  const TERMINATED := CLOSED.(logSize := 20, terms := 1,
                              sigterm := TermFiles(Some(10), Some(10), Some(Boundary(10, 20)), Some(0), true, false))

  lemma RunToRecovery() returns (r: Run)
    ensures IsRun(r) && r.states[0] == State(SILENT, map[]) && Last(r) == State(CLOSED, map[0 := RecoverWait])
  {
    r := Run([State(SILENT, map[])], []);
    assert Init(r.states[0]);
    hide IsRun;
    r := Extend(r, Start(0, Recover));
    r := Extend(r, Proceed(0));
    r := Extend(r, Proceed(0));
    r := Extend(r, Proceed(0));
    r := Extend(r, Proceed(0));
  }

  lemma RunToFreshBoundary() returns (r: Run)
    ensures IsRun(r) && r.states[0] == State(SILENT, map[]) && Last(r) == State(WATCHED, map[0 := TermLook])
  {
    hide IsRun;
    r := RunToRecovery();
    r := Extend(r, SerialLogs(10));
    r := Extend(r, Scan(0, Boundary(10, 20)));
  }

  /// A recovery that goes through: from what the amendment describes to the dispatch
  /// receipt of SIGTERM.
  lemma RecoveryRun() returns (r: Run)
    ensures IsRun(r) && r.states[0] == State(SILENT, map[])
    ensures Last(r) == State(TERMINATED, map[0 := TermAwaitExit])
  {
    hide IsRun;
    r := RunToFreshBoundary();
    r := Extend(r, Proceed(0));
    r := Extend(r, Proceed(0));
    r := Extend(r, Proceed(0));
    r := Extend(r, Proceed(0));
  }

  // ---------------------------------------------------------------- what gets through

  // `n` Proceeds of coordinator `c`, undisturbed.
  function Proceeds(s: State, c: nat, n: nat): State
    decreases n
  {
    if n == 0 then s else Proceeds(After(s, Proceed(c)), c, n - 1)
  }

  function Solo(m: Move, c: nat, n: nat): Move
    decreases n
  {
    if n == 0 then m else Solo(Advance(m.world, c, m.point), c, n - 1)
  }

  lemma Again(s: State, c: nat, m: Move)
    ensures After(Moved(s, c, m), Proceed(c)) == Moved(s, c, Advance(m.world, c, m.point))
  {
    hide Advance;
    var n := Advance(m.world, c, m.point);
    assert s.at[c := m.point][c := n.point] == s.at[c := n.point];
  }

  lemma {:induction false} ProceedsSolo(s: State, c: nat, m: Move, n: nat)
    ensures Proceeds(Moved(s, c, m), c, n) == Moved(s, c, Solo(m, c, n))
    decreases n
  {
    hide After, Advance, Moved;
    if n > 0 {
      Again(s, c, m);
      ProceedsSolo(s, c, Advance(m.world, c, m.point), n - 1);
    }
  }

  lemma Stands(s: State, c: nat)
    requires c in s.at
    ensures s == Moved(s, c, Move(s.world, s.at[c]))
  {
    assert s.at == s.at[c := s.at[c]];
  }

  /// SIGINT goes to a live scorer only, from the writer of an intent without receipt; and
  /// so does SIGTERM.
  lemma SentByWriter(r: Run, i: nat)
    requires IsRun(r) && i < |r.actions|
    ensures SendsInt(r, i) ==>
              && r.states[i].world.alive && r.actions[i].Proceed?
              && r.states[i].world.sigint.intent.Some? && !r.states[i].world.sigint.dispatched
              && r.states[i].world.sigint.intent.value.writer == r.actions[i].c
    ensures SendsTerm(r, i) ==>
              && r.states[i].world.alive && r.actions[i].Proceed?
              && r.states[i].world.sigterm.intent == Some(r.actions[i].c) && !r.states[i].world.sigterm.dispatched
  {
    hide After, Inv;
    InvRun(r, i);
    Sending(r.states[i], r.actions[i]);
  }

  lemma Sending(s: State, a: Action)
    requires Inv(s)
    ensures After(s, a).world.ints != s.world.ints ==>
              s.world.alive && a.Proceed? && OwnsInt(s.world, a.c) && After(s, a).world.ints == s.world.ints + 1
    ensures After(s, a).world.terms != s.world.terms ==>
              s.world.alive && a.Proceed? && OwnsTerm(s.world, a.c) && After(s, a).world.terms == s.world.terms + 1
  {
  }

  // The SIGINT attempt of one coordinator that nobody disturbs.
  function Dispatched(w: World, c: nat, resumed: bool): World {
    w.(sigint := w.sigint.(intent := Some(Intent(c, resumed)), dispatched := true), ints := 1)
  }

  lemma SoloStep(m: Move, c: nat, next: Move, n: nat)
    requires Advance(m.world, c, m.point) == next
    ensures Solo(m, c, n + 1) == Solo(next, c, n)
  {
    hide Advance;
  }

  lemma SoloNone(m: Move, c: nat)
    ensures Solo(m, c, 0) == m
  {
  }

  lemma IntSteps(w: World, c: nat, resumed: bool)
    requires WorldOk(w) && w.alive && w.sigint.intent.None? && !w.sigint.dispatched
    ensures var begun := w.(sigint := w.sigint.(intent := Some(Intent(c, resumed))));
            var sent := begun.(ints := 1);
            && Advance(w, c, IntLook(resumed)) == Move(w, IntLookIntents(resumed))
            && Advance(w, c, IntLookIntents(resumed)) == Move(w, IntWrite(resumed))
            && Advance(w, c, IntWrite(resumed)) == Move(begun, IntSend)
            && Advance(begun, c, IntSend) == Move(sent, IntReceipt)
            && Advance(sent, c, IntReceipt) == Move(Dispatched(w, c, resumed), IntAwaitExit)
  {
    hide AdvanceCutover, AdvanceRecover, AdvanceTerm, TermOk;
  }

  lemma IntMoves(w: World, c: nat, resumed: bool)
    requires WorldOk(w) && w.alive && w.sigint.intent.None? && !w.sigint.dispatched
    ensures Solo(Move(w, IntLook(resumed)), c, 5) == Move(Dispatched(w, c, resumed), IntAwaitExit)
  {
    IntSteps(w, c, resumed);
    hide Solo, Advance, WorldOk;
    var begun := w.(sigint := w.sigint.(intent := Some(Intent(c, resumed))));
    var sent, last := begun.(ints := 1), Move(Dispatched(w, c, resumed), IntAwaitExit);
    SoloStep(Move(w, IntLook(resumed)), c, Move(w, IntLookIntents(resumed)), 4);
    SoloStep(Move(w, IntLookIntents(resumed)), c, Move(w, IntWrite(resumed)), 3);
    SoloStep(Move(w, IntWrite(resumed)), c, Move(begun, IntSend), 2);
    SoloStep(Move(begun, IntSend), c, Move(sent, IntReceipt), 1);
    SoloStep(Move(sent, IntReceipt), c, last, 0);
    SoloNone(last, c);
  }

  // The whole attempt from a first look, and what follows the exit.
  lemma IntFinish(s: State, c: nat, w: World, resumed: bool)
    requires WorldOk(w) && w.alive && w.sigint.intent.None? && !w.sigint.dispatched
    ensures var t := Proceeds(Moved(s, c, Move(w, IntLook(resumed))), c, 5);
            && t == Moved(s, c, Move(Dispatched(w, c, resumed), IntAwaitExit))
            && After(After(t, SerialExits), Proceed(c))
               == Moved(s, c, Move(Credited(Dispatched(w, c, resumed)), Finished))
  {
    hide *;
    ProceedsSolo(s, c, Move(w, IntLook(resumed)), 5);
    IntMoves(w, c, resumed);
    Exited(s, c, Dispatched(w, c, resumed));
  }

  function Credited(w: World): World {
    w.(alive := false, sigint := w.sigint.(interrupt := true))
  }

  lemma Exited(s: State, c: nat, w: World)
    ensures After(After(Moved(s, c, Move(w, IntAwaitExit)), SerialExits), Proceed(c))
            == Moved(s, c, Move(Credited(w), Finished))
  {
    assert s.at[c := IntAwaitExit][c := Finished] == s.at[c := Finished];
  }

  lemma NothingSent(s: State)
    requires Inv(s)
    ensures WorldOk(s.world) && (s.world.sigint.intent.None? ==> s.world.ints == 0 && !s.world.sigint.dispatched)
    ensures !s.world.sigint.root ==>
              && s.world.sigint.cutoverIntent.None? && s.world.sigint.boundary.None?
              && s.world.sigint.intent.None? && !s.world.sigint.dispatched
  {
    hide PointOk;
  }

  /// From every reachable state, a coordinator that looks at the signal attempts of a live
  /// scorer, and finds none, delivers SIGINT once and writes its dispatch receipt in five
  /// undisturbed steps; and the exit receipts once the scorer is gone.
  lemma SigintGetsThrough(r: Run, i: nat, c: nat)
    requires IsRun(r) && i < |r.states| && c in r.states[i].at && r.states[i].at[c].IntLook?
    requires var w := r.states[i].world; w.alive && w.sigint.intent.None? && !w.sigint.dispatched
    ensures var s, t := r.states[i], Proceeds(r.states[i], c, 5);
            var exited := After(After(t, SerialExits), Proceed(c));
            && s.world.ints == 0 && t.world.ints == 1 && t.world.alive
            && t.world.sigint.intent == Some(Intent(c, s.at[c].resumed)) && t.world.sigint.dispatched
            && t.at == s.at[c := IntAwaitExit]
            && exited.world.sigint.interrupt && exited.world.ints == 1 && PointOf(exited, c) == Finished
  {
    InvRun(r, i);
    var s := r.states[i];
    NothingSent(s);
    Stands(s, c);
    IntFinish(s, c, s.world, s.at[c].resumed);
    hide Proceeds, Inv, WorldOk, After;
  }

  // The scorer logs one more line and the coordinator reads it.
  function LogAndScan(s: State, c: nat, bytes: nat): State {
    var line := Boundary(s.world.logSize, s.world.logSize + bytes);
    After(After(s, SerialLogs(bytes)), Scan(c, line))
  }

  function Logged(w: World, bytes: nat): World {
    w.(logSize := w.logSize + bytes)
  }

  function NewLine(w: World, bytes: nat): Boundary {
    Boundary(w.logSize, w.logSize + bytes)
  }

  lemma Scanned(s: State, c: nat, m: Move, bytes: nat, n: Move)
    requires m.world.alive && n == Observe(Logged(m.world, bytes), m.point, NewLine(m.world, bytes))
    ensures LogAndScan(Moved(s, c, m), c, bytes) == Moved(s, c, n)
  {
    hide Observe;
    assert s.at[c := m.point][c := n.point] == s.at[c := n.point];
  }

  lemma Started(s: State, c: nat, mode: Mode)
    requires PointOf(s, c).Down?
    ensures After(s, Start(c, mode)) == Moved(s, c, Move(s.world, StartPoint(s.world, mode)))
  {
    hide StartPoint;
  }

  // What a cutover has written when it waits, and when it has read its line.
  function Opened(w: World): World {
    w.(sigint := w.sigint.(root := true, cutoverIntent := Some(Opening(w.logSize, Current))))
  }

  function Bounded(w: World, bytes: nat): World {
    var v := Logged(Opened(w), bytes);
    v.(sigint := v.sigint.(boundary := Some(NewLine(w, bytes))))
  }

  lemma CutoverMoves(w: World, c: nat)
    requires !w.sigint.root && w.sigint.cutoverIntent.None?
    ensures Solo(Move(w, CutoverRoot(w.logSize)), c, 2) == Move(Opened(w), CutoverWait(w.logSize))
  {
    hide Solo, AdvanceInt, AdvanceRecover, AdvanceTerm;
    var made := w.(sigint := w.sigint.(root := true));
    SoloStep(Move(w, CutoverRoot(w.logSize)), c, Move(made, CutoverIntent(w.logSize)), 1);
    SoloStep(Move(made, CutoverIntent(w.logSize)), c, Move(Opened(w), CutoverWait(w.logSize)), 0);
    SoloNone(Move(Opened(w), CutoverWait(w.logSize)), c);
  }

  lemma CutoverSeen(w: World, bytes: nat)
    requires WorldOk(w) && !w.sigint.root && w.sigint.cutoverIntent.None? && w.sigint.boundary.None?
    requires w.sigint.intent.None? && bytes > 0 && w.alive
    ensures WorldOk(Bounded(w, bytes))
    ensures Observe(Logged(Opened(w), bytes), CutoverWait(w.logSize), NewLine(w, bytes))
            == Move(Bounded(w, bytes), IntLook(false))
  {
  }

  /// From every reachable state without an execution root, a cutover that nobody disturbs
  /// records the next line of a live scorer as its boundary and delivers SIGINT.
  lemma CutoverGetsThrough(r: Run, i: nat, c: nat, bytes: nat)
    requires IsRun(r) && i < |r.states| && PointOf(r.states[i], c).Down? && bytes > 0
    requires r.states[i].world.alive && !r.states[i].world.sigint.root
    ensures var s := r.states[i];
            var waiting := Proceeds(After(s, Start(c, Cutover)), c, 2);
            var t := Proceeds(LogAndScan(waiting, c, bytes), c, 5);
            && t.world.ints == 1 && t.world.sigint.dispatched && t.world.alive && t.at == s.at[c := IntAwaitExit]
            && t.world.sigint.cutoverIntent == Some(Opening(s.world.logSize, Current))
            && t.world.sigint.boundary == Some(Boundary(s.world.logSize, s.world.logSize + bytes))
            && t.world.sigint.intent == Some(Intent(c, false))
            && After(After(t, SerialExits), Proceed(c)).world.sigint.interrupt
  {
    InvRun(r, i);
    NothingSent(r.states[i]);
    CutoverPlayed(r.states[i], c, bytes);
    hide Solo, Inv, WorldOk, Proceeds, LogAndScan, After, Observe;
  }

  lemma CutoverPlayed(s: State, c: nat, bytes: nat)
    requires WorldOk(s.world) && PointOf(s, c).Down? && bytes > 0 && s.world.alive && !s.world.sigint.root
    requires var f := s.world.sigint; f.cutoverIntent.None? && f.boundary.None? && f.intent.None? && !f.dispatched
    ensures var w, waiting := s.world, Proceeds(After(s, Start(c, Cutover)), c, 2);
            var t := Proceeds(LogAndScan(waiting, c, bytes), c, 5);
            var last := Dispatched(Bounded(w, bytes), c, false);
            && t == Moved(s, c, Move(last, IntAwaitExit))
            && After(After(t, SerialExits), Proceed(c)) == Moved(s, c, Move(Credited(last), Finished))
  {
    hide Solo, WorldOk, Proceeds, LogAndScan, After, Observe, Moved, Dispatched, Credited;
    var w := s.world;
    Started(s, c, Cutover);
    ProceedsSolo(s, c, Move(w, CutoverRoot(w.logSize)), 2);
    CutoverMoves(w, c);
    CutoverSeen(w, bytes);
    Scanned(s, c, Move(Opened(w), CutoverWait(w.logSize)), bytes, Move(Bounded(w, bytes), IntLook(false)));
    IntFinish(s, c, Bounded(w, bytes), false);
  }

  // A coordinator that is down, or waits for the exit of a live scorer, stays there.
  predicate Rests(m: Move) {
    m.point.Down? || m.point.Finished? || (m.world.alive && (m.point.IntAwaitExit? || m.point.TermAwaitExit?))
  }

  lemma {:induction false} SoloRests(m: Move, c: nat, n: nat)
    requires Rests(m)
    ensures Solo(m, c, n) == m
    decreases n
  {
    if n > 0 {
      SoloRests(m, c, n - 1);
    }
  }

  lemma RestScanned(s: State, c: nat, m: Move, bytes: nat)
    requires m.world.alive && (Rests(m) || m.point.IntLook? || m.point.TermLook?)
    ensures LogAndScan(Moved(s, c, m), c, bytes) == Moved(s, c, Move(Logged(m.world, bytes), m.point))
  {
    Scanned(s, c, m, bytes, Move(Logged(m.world, bytes), m.point));
  }

  lemma OneStep(s: State, c: nat, m: Move)
    ensures Proceeds(Moved(s, c, m), c, 1) == Moved(s, c, Advance(m.world, c, m.point))
  {
    hide Advance;
    SoloStep(m, c, Advance(m.world, c, m.point), 0);
    SoloNone(Advance(m.world, c, m.point), c);
    ProceedsSolo(s, c, m, 1);
  }

  // The receipts let a resume begin the SIGINT attempt.
  predicate Unsignalled(w: World) {
    Ours(w) && !w.sigint.dispatched && w.sigint.intent.None?
  }

  // The boundary a resume goes by, and whether it is its own.
  predicate OwnBoundary(w: World) {
    w.sigint.resumedBoundary.Some? || w.sigint.boundary.None?
  }

  function Resumed(w: World, bytes: nat): World {
    var v := Logged(w, bytes);
    if w.sigint.resumedBoundary.Some? || w.sigint.boundary.Some? then v
    else v.(sigint := v.sigint.(resumedBoundary := Some(NewLine(w, bytes))))
  }

  lemma ResumedOk(w: World, bytes: nat)
    requires WorldOk(w) && Unsignalled(w)
    ensures WorldOk(Resumed(w, bytes))
  {
  }

  lemma ResumePlayed(s: State, c: nat, bytes: nat)
    requires WorldOk(s.world) && PointOf(s, c).Down? && bytes > 0 && s.world.alive
    ensures var w := s.world;
            var t := Proceeds(LogAndScan(Proceeds(After(s, Start(c, Resume)), c, 1), c, bytes), c, 5);
            t == Moved(s, c,
              if Unsignalled(w) then Move(Dispatched(Resumed(w, bytes), c, OwnBoundary(w)), IntAwaitExit)
              else Move(Logged(w, bytes), if Ours(w) && w.sigint.dispatched then IntAwaitExit else Down))
  {
    var w := s.world;
    var first := Advance(w, c, ResumeLive);
    Started(s, c, Resume);
    OneStep(s, c, Move(w, ResumeLive));
    if Unsignalled(w) {
      ResumedOk(w, bytes);
      ResumeScanned(s, c, bytes);
      hide Solo, WorldOk, Proceeds, LogAndScan, After, Moved, Dispatched, Credited, Advance, Resumed, Observe;
      IntFinish(s, c, Resumed(w, bytes), OwnBoundary(w));
    } else {
      RestScanned(s, c, first, bytes);
      SoloRests(Move(Logged(w, bytes), first.point), c, 5);
      hide Solo, WorldOk, Proceeds, LogAndScan, After, Moved, Dispatched, Credited;
      ProceedsSolo(s, c, Move(Logged(w, bytes), first.point), 5);
    }
  }

  lemma ResumeScanned(s: State, c: nat, bytes: nat)
    requires WorldOk(s.world) && s.world.alive && Unsignalled(s.world) && bytes > 0
    ensures LogAndScan(Moved(s, c, Advance(s.world, c, ResumeLive)), c, bytes)
            == Moved(s, c, Move(Resumed(s.world, bytes), IntLook(OwnBoundary(s.world))))
  {
    var first := Advance(s.world, c, ResumeLive);
    if first.point.IntLook? {
      RestScanned(s, c, first, bytes);
    } else {
      Scanned(s, c, first, bytes, Move(Resumed(s.world, bytes), IntLook(true)));
    }
    hide Moved, LogAndScan;
  }

  // What a resume of a live scorer that nobody disturbs makes of world `w`.
  predicate ResumeOutcome(w: World, c: nat, bytes: nat, v: World, p: Point) {
    if Ours(w) && !w.sigint.dispatched && w.sigint.intent.None? then
      && v.ints == 1 && v.sigint.dispatched && p == IntAwaitExit
      && v.sigint.boundary == w.sigint.boundary
      && v.sigint.resumedBoundary ==
         (if w.sigint.resumedBoundary.Some? || w.sigint.boundary.Some? then w.sigint.resumedBoundary
          else Some(Boundary(w.logSize, w.logSize + bytes)))
      && v.sigint.intent == Some(Intent(c, w.sigint.resumedBoundary.Some? || w.sigint.boundary.None?))
    else
      && v.sigint == w.sigint && v.ints == w.ints
      && p == if Ours(w) && w.sigint.dispatched then IntAwaitExit else Down
  }

  lemma ResumeMeans(s: State, c: nat, bytes: nat)
    requires WorldOk(s.world) && PointOf(s, c).Down? && bytes > 0 && s.world.alive
    ensures var t := Proceeds(LogAndScan(Proceeds(After(s, Start(c, Resume)), c, 1), c, bytes), c, 5);
            ResumeOutcome(s.world, c, bytes, t.world, PointOf(t, c))
  {
    hide WorldOk, Proceeds, LogAndScan, After;
    ResumePlayed(s, c, bytes);
  }

  /// A resume of a live scorer that nobody disturbs delivers SIGINT if and only if the root
  /// is this program's and holds neither an intent nor a dispatch receipt; it goes by the
  /// boundary on record, or by one line that is new.  After a dispatched SIGINT it waits for
  /// the exit, and otherwise it stops and changes no receipt.
  lemma ResumeExactly(r: Run, i: nat, c: nat, bytes: nat)
    requires IsRun(r) && i < |r.states| && PointOf(r.states[i], c).Down? && bytes > 0 && r.states[i].world.alive
    ensures var t := Proceeds(LogAndScan(Proceeds(After(r.states[i], Start(c, Resume)), c, 1), c, bytes), c, 5);
            ResumeOutcome(r.states[i].world, c, bytes, t.world, PointOf(t, c))
  {
    InvRun(r, i);
    NothingSent(r.states[i]);
    hide *;
    ResumeMeans(r.states[i], c, bytes);
  }

  /// When the scorer is gone, a resume credits the exit to SIGINT if and only if the root is
  /// this program's and holds the dispatch receipt; otherwise it changes nothing.
  lemma ResumeStoppedExactly(r: Run, i: nat, c: nat)
    requires IsRun(r) && i < |r.states| && PointOf(r.states[i], c).Down? && !r.states[i].world.alive
    ensures var s, w := r.states[i], r.states[i].world;
            var t := After(After(s, Start(c, Resume)), Proceed(c));
            if Ours(w) && w.sigint.dispatched then
              t.world == w.(sigint := w.sigint.(interrupt := true)) && PointOf(t, c) == Finished
            else t.world == w && PointOf(t, c) == Down
  {
    hide AdvanceInt, AdvanceRecover, AdvanceTerm;
  }

  // The original attempt is as the amendment describes it.
  predicate OriginalClosed(w: World) {
    && Inherited(w) && w.sigint.boundary.Some? && w.sigint.intent.Some? && !w.sigint.intent.value.resumed
    && w.sigint.dispatched && !w.sigint.interrupt
  }

  // What the first half of a recovery has written.
  function Reopened(w: World): World {
    var f := w.sigterm;
    w.(sigterm := f.(ineffective := if f.ineffective.Some? then f.ineffective else Some(w.logSize),
                     recoveryIntent := if f.recoveryIntent.Some? then f.recoveryIntent else Some(w.logSize)))
  }

  lemma ReopenMoves(w: World, c: nat)
    requires WorldOk(w) && w.alive
    ensures Solo(Move(w, RecoverOriginal), c, 4) ==
            if OriginalClosed(w) && w.ignoresInt
            then Move(Reopened(w), if w.sigterm.boundary.Some? then TermLook else RecoverWait)
            else Move(w, Down)
  {
    var m1 := Advance(w, c, RecoverOriginal);
    var m2 := Advance(m1.world, c, m1.point);
    var m3 := Advance(m2.world, c, m2.point);
    var m4 := Advance(m3.world, c, m3.point);
    SoloStep(Move(w, RecoverOriginal), c, m1, 3);
    SoloStep(m1, c, m2, 2);
    SoloStep(m2, c, m3, 1);
    SoloStep(m3, c, m4, 0);
    SoloNone(m4, c);
    hide Solo;
  }

  function Rescanned(w: World, bytes: nat): World {
    var v := Logged(Reopened(w), bytes);
    if w.sigterm.boundary.Some? then v else v.(sigterm := v.sigterm.(boundary := Some(NewLine(w, bytes))))
  }

  function TermSent(w: World, c: nat): World {
    w.(sigterm := w.sigterm.(intent := Some(c), dispatched := true), terms := 1)
  }

  function TermEnd(w: World, c: nat): Move {
    if w.sigterm.dispatched then Move(w, TermAwaitExit)
    else if w.sigterm.intent.Some? then Move(w, Down)
    else Move(TermSent(w, c), TermAwaitExit)
  }

  lemma TermMoves(w: World, c: nat)
    requires WorldOk(w) && w.alive && w.ignoresInt
    ensures Solo(Move(w, TermLook), c, 4) == TermEnd(w, c)
  {
    var m1 := Advance(w, c, TermLook);
    var m2 := Advance(m1.world, c, m1.point);
    var m3 := Advance(m2.world, c, m2.point);
    var m4 := Advance(m3.world, c, m3.point);
    SoloStep(Move(w, TermLook), c, m1, 3);
    SoloStep(m1, c, m2, 2);
    SoloStep(m2, c, m3, 1);
    SoloStep(m3, c, m4, 0);
    SoloNone(m4, c);
    hide Solo;
  }

  lemma RescannedOk(w: World, bytes: nat)
    requires WorldOk(w) && w.alive && OriginalClosed(w) && w.ignoresInt && bytes > 0
    ensures WorldOk(Rescanned(w, bytes)) && Rescanned(w, bytes).alive && Rescanned(w, bytes).ignoresInt
    ensures w.sigterm.boundary.None? ==>
              Observe(Logged(Reopened(w), bytes), RecoverWait, NewLine(w, bytes)) == Move(Rescanned(w, bytes), TermLook)
  {
  }

  lemma RecoverPlayed(s: State, c: nat, bytes: nat)
    requires WorldOk(s.world) && PointOf(s, c).Down? && bytes > 0 && s.world.alive
    ensures var w := s.world;
            var t := Proceeds(LogAndScan(Proceeds(After(s, Start(c, Recover)), c, 4), c, bytes), c, 4);
            t == Moved(s, c, if OriginalClosed(w) && w.ignoresInt then TermEnd(Rescanned(w, bytes), c)
                             else Move(Logged(w, bytes), Down))
  {
    hide Solo, WorldOk, Proceeds, LogAndScan, After, Observe, Moved, OriginalClosed, Reopened, TermEnd, Rescanned;
    var w := s.world;
    Started(s, c, Recover);
    ProceedsSolo(s, c, Move(w, RecoverOriginal), 4);
    ReopenMoves(w, c);
    if OriginalClosed(w) && w.ignoresInt {
      RescannedOk(w, bytes);
      RecoverScanned(s, c, bytes);
      ProceedsSolo(s, c, Move(Rescanned(w, bytes), TermLook), 4);
      TermMoves(Rescanned(w, bytes), c);
    } else {
      RestScanned(s, c, Move(w, Down), bytes);
      ProceedsSolo(s, c, Move(Logged(w, bytes), Down), 4);
      SoloRests(Move(Logged(w, bytes), Down), c, 4);
    }
  }

  lemma RecoverScanned(s: State, c: nat, bytes: nat)
    requires WorldOk(s.world) && s.world.alive && OriginalClosed(s.world) && s.world.ignoresInt && bytes > 0
    ensures var w := s.world;
            var m := Move(Reopened(w), if w.sigterm.boundary.Some? then TermLook else RecoverWait);
            LogAndScan(Moved(s, c, m), c, bytes) == Moved(s, c, Move(Rescanned(w, bytes), TermLook))
  {
    RescannedOk(s.world, bytes);
    hide WorldOk, LogAndScan, Observe, Moved, OriginalClosed;
    if s.world.sigterm.boundary.Some? {
      RestScanned(s, c, Move(Reopened(s.world), TermLook), bytes);
    } else {
      Scanned(s, c, Move(Reopened(s.world), RecoverWait), bytes, Move(Rescanned(s.world, bytes), TermLook));
    }
  }

  // What a recovery on a live scorer that nobody disturbs makes of world `w`.
  predicate RecoverOutcome(w: World, c: nat, bytes: nat, v: World, p: Point) {
    var f, g := w.sigterm, v.sigterm;
    if OriginalClosed(w) && w.ignoresInt then
      && g.ineffective == (if f.ineffective.Some? then f.ineffective else Some(w.logSize))
      && g.recoveryIntent == (if f.recoveryIntent.Some? then f.recoveryIntent else Some(w.logSize))
      && g.boundary == (if f.boundary.Some? then f.boundary else Some(Boundary(w.logSize, w.logSize + bytes)))
      && if f.intent.None? then g.intent == Some(c) && g.dispatched && v.terms == 1 && p == TermAwaitExit
         else
           && g.intent == f.intent && g.dispatched == f.dispatched && v.terms == w.terms
           && p == if f.dispatched then TermAwaitExit else Down
    else g == f && v.terms == w.terms && p == Down
  }

  lemma RecoverMeans(s: State, c: nat, bytes: nat)
    requires WorldOk(s.world) && PointOf(s, c).Down? && bytes > 0 && s.world.alive
    ensures var t := Proceeds(LogAndScan(Proceeds(After(s, Start(c, Recover)), c, 4), c, bytes), c, 4);
            RecoverOutcome(s.world, c, bytes, t.world, PointOf(t, c))
  {
    RecoverPlayed(s, c, bytes);
    assert s.world.sigterm.dispatched ==> s.world.sigterm.intent.Some?;
    hide WorldOk, Proceeds, LogAndScan, After, OriginalClosed;
  }

  /// A recovery on a live scorer that nobody disturbs closes the original attempt, records
  /// one new line and delivers SIGTERM if and only if that attempt is as the amendment
  /// describes it, the scorer ignores SIGINT, and no SIGTERM intent is on record; receipts
  /// that an earlier recovery has written are taken up where they end.
  lemma RecoverExactly(r: Run, i: nat, c: nat, bytes: nat)
    requires IsRun(r) && i < |r.states| && PointOf(r.states[i], c).Down? && bytes > 0 && r.states[i].world.alive
    ensures var t := Proceeds(LogAndScan(Proceeds(After(r.states[i], Start(c, Recover)), c, 4), c, bytes), c, 4);
            RecoverOutcome(r.states[i].world, c, bytes, t.world, PointOf(t, c))
  {
    InvRun(r, i);
    NothingSent(r.states[i]);
    hide *;
    RecoverMeans(r.states[i], c, bytes);
  }

  lemma StoppedMoves(w: World, c: nat)
    requires WorldOk(w) && !w.alive
    ensures Solo(Move(w, RecoverOriginal), c, 6) ==
            if OriginalClosed(w) && w.sigterm.dispatched
            then Move(w.(sigterm := w.sigterm.(exit := true)), Finished) else Move(w, Down)
  {
    hide AdvanceCutover, AdvanceInt;
    var m1 := Advance(w, c, RecoverOriginal);
    var m2 := Advance(m1.world, c, m1.point);
    var m3 := Advance(m2.world, c, m2.point);
    SoloStep(Move(w, RecoverOriginal), c, m1, 5);
    SoloStep(m1, c, m2, 4);
    SoloStep(m2, c, m3, 3);
    if Rests(m3) {
      SoloRests(m3, c, 3);
    } else {
      assert m3 == Move(w, RecoverWait);
      var m4 := Advance(w, c, RecoverWait);
      var m5 := Advance(m4.world, c, m4.point);
      var m6 := Advance(m5.world, c, m5.point);
      SoloStep(m3, c, m4, 2);
      SoloStep(m4, c, m5, 1);
      SoloStep(m5, c, m6, 0);
      SoloNone(m6, c);
    }
    hide Solo;
  }

  lemma RecoverStoppedPlayed(s: State, c: nat)
    requires WorldOk(s.world) && PointOf(s, c).Down? && !s.world.alive
    ensures var w, t := s.world, Proceeds(After(s, Start(c, Recover)), c, 6);
            if OriginalClosed(w) && w.sigterm.dispatched then
              t.world == w.(sigterm := w.sigterm.(exit := true)) && PointOf(t, c) == Finished
            else t.world == w && PointOf(t, c) == Down
  {
    hide Solo, WorldOk, Proceeds, After, OriginalClosed;
    Started(s, c, Recover);
    ProceedsSolo(s, c, Move(s.world, RecoverOriginal), 6);
    StoppedMoves(s.world, c);
  }

  /// When the scorer is gone, a recovery credits the exit to SIGTERM if and only if its
  /// dispatch receipt is there and the original attempt is still as described; otherwise it
  /// changes nothing.
  lemma RecoverStoppedExactly(r: Run, i: nat, c: nat)
    requires IsRun(r) && i < |r.states| && PointOf(r.states[i], c).Down? && !r.states[i].world.alive
    ensures var w, t := r.states[i].world, Proceeds(After(r.states[i], Start(c, Recover)), c, 6);
            if OriginalClosed(w) && w.sigterm.dispatched then
              t.world == w.(sigterm := w.sigterm.(exit := true)) && PointOf(t, c) == Finished
            else t.world == w && PointOf(t, c) == Down
  {
    InvRun(r, i);
    NothingSent(r.states[i]);
    hide *;
    RecoverStoppedPlayed(r.states[i], c);
  }

  /// A coordinator that waits for the exit waits as long as the scorer lives, and then
  /// writes the receipt of its own signal and nothing else.
  lemma AwaitingExactly(r: Run, i: nat, c: nat)
    requires IsRun(r) && i < |r.states| && c in r.states[i].at
    requires r.states[i].at[c].IntAwaitExit? || r.states[i].at[c].TermAwaitExit?
    ensures var s, t := r.states[i], After(r.states[i], Proceed(c));
            var w := s.world;
            if w.alive then t == s
            else
              && PointOf(t, c) == Finished
              && t.world == if s.at[c].IntAwaitExit? then w.(sigint := w.sigint.(interrupt := true))
                            else w.(sigterm := w.sigterm.(exit := true))
  {
    Stands(r.states[i], c);
    hide AdvanceCutover, AdvanceRecover;
  }

  // Waiting for a line of the log, or for the exit, or through with signalling.
  predicate Waits(w: World, p: Point) {
    || p.Down? || p.Finished? || p.CutoverWait? || p.ResumeWait?
    || (p.RecoverWait? && w.alive && w.sigterm.boundary.None?)
    || (w.alive && (p.IntAwaitExit? || p.TermAwaitExit?))
  }

  /// A coordinator that does not wait never stands still: it goes on or it stops.
  lemma StandsStillExactly(s: State, c: nat)
    requires c in s.at
    ensures After(s, Proceed(c)) == s <==> Waits(s.world, s.at[c])
  {
    var t := After(s, Proceed(c));
    assert t.at[c] == s.at[c] ==> t.at == s.at;
  }

  // The log offset from which a coordinator listens, if it does, and the receipt it is
  // going to write.
  function ListensFrom(w: World, p: Point): Option<nat> {
    match p
    case CutoverWait(offset) => Some(offset)
    case ResumeWait(offset) => Some(offset)
    case RecoverWait => w.sigterm.recoveryIntent
    case _ => None
  }

  function RecordOf(w: World, p: Point): Option<Boundary> {
    if p.CutoverWait? then w.sigint.boundary
    else if p.ResumeWait? then w.sigint.resumedBoundary
    else w.sigterm.boundary
  }

  /// A line makes a difference exactly to a coordinator of a live scorer that listens from
  /// its start or earlier, and to nobody else; that one records it and looks at the signal
  /// attempts, or stops when another one was quicker.
  lemma ScansExactly(s: State, c: nat, line: Boundary)
    requires c in s.at
    ensures var w, p, t := s.world, s.at[c], After(s, Scan(c, line));
            var heard := && w.alive && line.start < line.stop <= w.logSize
                         && ListensFrom(w, p).Some? && ListensFrom(w, p).value <= line.start;
            && (t == s <==> !heard)
            && t.at.Keys == s.at.Keys && (forall d :: d in s.at && d != c ==> t.at[d] == s.at[d])
            && (heard ==>
                  if RecordOf(w, p).Some? then t.world == w && t.at[c] == Down
                  else
                    && RecordOf(t.world, p) == Some(line) && t.world.ints == w.ints && t.world.terms == w.terms
                    && t.at[c] == if p.RecoverWait? then TermLook else IntLook(p.ResumeWait?))
  {
    var t := After(s, Scan(c, line));
    assert t.at[c] == s.at[c] ==> t.at == s.at;
  }

  /// A cutover begins if and only if the scorer lives and there is no execution root, and
  /// by then has changed nothing.
  lemma CutoverBeginsExactly(s: State, c: nat)
    requires PointOf(s, c).Down?
    ensures var t := After(s, Start(c, Cutover));
            t.world == s.world && (PointOf(t, c).Down? <==> !s.world.alive || s.world.sigint.root)
  {
  }

  // What action `i` of the run adds to the receipts.
  predicate RecordsResumed(r: Run, i: nat)
    requires i + 1 < |r.states|
  {
    r.states[i].world.sigint.resumedBoundary.None? && r.states[i + 1].world.sigint.resumedBoundary.Some?
  }

  lemma WaitsFrom(s: State, a: Action, c: nat)
    requires PointOf(After(s, a), c).ResumeWait? && PointOf(After(s, a), c) != PointOf(s, c)
    ensures PointOf(s, c).ResumeLive? && PointOf(After(s, a), c).offset == s.world.logSize
  {
  }

  // A resumed coordinator waits from the log size at which it began.
  lemma {:induction false} WaitedSince(r: Run, i: nat, c: nat) returns (j: nat)
    requires IsRun(r) && i < |r.states| && PointOf(r.states[i], c).ResumeWait?
    ensures j < i && PointOf(r.states[j], c).ResumeLive?
    ensures PointOf(r.states[i], c).offset == r.states[j].world.logSize
  {
    hide After, Inv;
    if PointOf(r.states[i - 1], c) == PointOf(r.states[i], c) {
      j := WaitedSince(r, i - 1, c);
    } else {
      WaitsFrom(r.states[i - 1], r.actions[i - 1], c);
      j := i - 1;
    }
  }

  lemma ResumedBy(s: State, a: Action)
    requires s.world.sigint.resumedBoundary.None? && After(s, a).world.sigint.resumedBoundary.Some?
    ensures s.world.alive && a.Scan? && PointOf(s, a.c).ResumeWait?
    ensures After(s, a).world.sigint.resumedBoundary == Some(a.line)
    ensures PointOf(s, a.c).offset <= a.line.start < a.line.stop <= s.world.logSize
  {
  }

  /// The boundary of a resume is a line that a live scorer logged after that resume began.
  lemma ResumedBoundaryFresh(r: Run, i: nat) returns (j: nat)
    requires IsRun(r) && i < |r.actions| && RecordsResumed(r, i)
    ensures j < i && r.states[i].world.alive && r.actions[i].Scan? && PointOf(r.states[j], r.actions[i].c).ResumeLive?
    ensures var line := r.states[i + 1].world.sigint.resumedBoundary.value;
            r.states[j].world.logSize <= line.start < line.stop <= r.states[i].world.logSize
  {
    hide After;
    ResumedBy(r.states[i], r.actions[i]);
    j := WaitedSince(r, i, r.actions[i].c);
  }

  const FRESH := World(true, false, 10, NO_INT_FILES, NO_TERM_FILES, 0, 0)
  const INTERRUPTED := World(false, false, 20,
                             IntFiles(true, Some(Opening(10, Current)), Some(Boundary(10, 20)), None,
                                      Some(Intent(0, false)), true, true), NO_TERM_FILES, 1, 0)

  lemma RunToCutoverWait() returns (r: Run)
    ensures IsRun(r) && r.states[0] == State(FRESH, map[])
    ensures Last(r) == State(Opened(FRESH), map[0 := CutoverWait(10)])
  {
    r := Run([State(FRESH, map[])], []);
    assert Init(r.states[0]);
    hide IsRun;
    r := Extend(r, Start(0, Cutover));
    r := Extend(r, Proceed(0));
    r := Extend(r, Proceed(0));
  }

  lemma RunToDispatched() returns (r: Run)
    ensures IsRun(r) && r.states[0] == State(FRESH, map[])
    ensures Last(r) == State(Dispatched(Bounded(FRESH, 10), 0, false), map[0 := IntAwaitExit])
  {
    hide IsRun;
    r := RunToCutoverWait();
    r := Extend(r, SerialLogs(10));
    r := Extend(r, Scan(0, Boundary(10, 20)));
    r := Extend(r, Proceed(0));
    r := Extend(r, Proceed(0));
    r := Extend(r, Proceed(0));
    r := Extend(r, Proceed(0));
    r := Extend(r, Proceed(0));
  }

  /// A cutover that goes through, from nothing to the receipt that credits SIGINT.
  lemma CutoverRun() returns (r: Run)
    ensures IsRun(r) && Nothing(r.states[0]) && r.states[0].world.alive
    ensures Last(r) == State(INTERRUPTED, map[0 := Finished])
  {
    hide IsRun;
    r := RunToDispatched();
    r := Extend(r, SerialExits);
    r := Extend(r, Proceed(0));
  }
}
