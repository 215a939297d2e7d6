/// Publishing one value under its digest, by any number of processes that may crash
/// (ops/locked_test_score.py: _validate_content_root, _publish_canonical_json).
///
/// All publishers hold the same value, so the same payload and the same digest.  Every
/// file operation is one step; a crash can follow any of them and frees nothing.

module ContentPublication {
  import opened Wrappers

  type Name = nat
  type Bytes = seq<nat>
  type Files = map<Name, Bytes>

  datatype Value = Value(filename: Name, payload: Bytes)

  // The content-addressed root: the lock file and who created it, the staging directories,
  // the destination.  `renames` counts for the argument only.
  datatype Root = Root(
    lock: Option<nat>, staged: map<nat, Files>, destination: Option<Files>, serial: nat, renames: nat)

  // Where a call is.  Checking remembers what the two listings of the root showed.
  datatype Call =
    | Down
    | Entering
    | Listed(sawLock: bool)
    | Checking(sawLock: bool, lockEntry: bool, stagedEntries: set<nat>)
    | Probing
    | Comparing
    | Locking
    | Waiting
    | Locked
    | Made(id: nat)
    | Writing(id: nat, written: nat)
    | Ready(id: nat)
    | Clear(id: nat)
    | Cleaning(id: nat)
    | Failing
    | Renamed
    | Returned
    | Raised

  datatype State = State(root: Root, calls: map<nat, Call>)

  datatype Action = Begin(p: nat) | Step(p: nat, expire: bool) | Crash(p: nat)

  function Published(v: Value): Files {
    map[v.filename := v.payload]
  }

  // The staged file with its first `n` bytes.
  function Partial(v: Value, n: nat): Files
    requires n <= |v.payload|
  {
    map[v.filename := v.payload[..n]]
  }

  // The entries were safe and their lock was listed.
  predicate RootAccepted(r: Root, c: Call)
    requires c.Checking?
  {
    && (c.lockEntry ==> r.lock.Some?)
    && (forall id :: id in c.stagedEntries ==> c.sawLock && id in r.staged)
  }

  // ---------------------------------------------------------------- the steps

  function Write(v: Value, r: Root, c: Call): (Root, Call)
    requires c.Writing?
  {
    if c.written < |v.payload|
    then (r.(staged := r.staged[c.id := Partial(v, c.written + 1)]), Writing(c.id, c.written + 1))
    else (r, Ready(c.id))
  }

  // rename(2) on a directory fails over a directory that is not empty.
  function Rename(r: Root, id: nat): (Root, Call) {
    if (r.destination.Some? && r.destination.value != map[]) || id !in r.staged then (r, Cleaning(id))
    else (r.(destination := Some(r.staged[id]), staged := r.staged - {id}, renames := r.renames + 1), Renamed)
  }

  function After(v: Value, p: nat, r: Root, c: Call, expire: bool): (Root, Call) {
    match c
    case Entering => (r, Listed(r.lock.Some?))
    case Listed(sawLock) => (r, Checking(sawLock, r.lock.Some?, r.staged.Keys))
    case Checking(_, _, _) => (r, if RootAccepted(r, c) then Probing else Raised)
    case Probing => (r, if r.destination.Some? then Comparing else Locking)
    case Comparing => (r, if r.destination == Some(Published(v)) then Returned else Raised)
    case Locking => if r.lock.None? then (r.(lock := Some(p)), Locked) else (r, Waiting)
    case Waiting => (r, if expire then Raised else if r.destination.Some? then Entering else Waiting)
    case Locked => (r.(staged := r.staged[r.serial := map[]], serial := r.serial + 1), Made(r.serial))
    case Made(id) => (r.(staged := r.staged[id := Partial(v, 0)]), Writing(id, 0))
    case Writing(_, _) => Write(v, r, c)
    case Ready(id) => (r, if r.destination.Some? then Cleaning(id) else Clear(id))
    case Clear(id) => Rename(r, id)
    case Cleaning(id) => (r.(staged := r.staged - {id}), Failing)
    case Failing => (r.(lock := None), Raised)
    case Renamed => (r.(lock := None), Returned)
    case _ => (r, c)
  }

  function CallOf(s: State, p: nat): Call {
    if p in s.calls then s.calls[p] else Down
  }

  predicate Idle(c: Call) {
    c.Down? || c.Returned? || c.Raised?
  }

  function Next(v: Value, s: State, a: Action): State {
    match a
    case Begin(p) => if Idle(CallOf(s, p)) then s.(calls := s.calls[p := Entering]) else s
    case Step(p, expire) =>
      var (r, c) := After(v, p, s.root, CallOf(s, p), expire);
      State(r, s.calls[p := c])
    case Crash(p) => s.(calls := s.calls[p := Down])
  }

  // Nothing is known of a destination that is already there.
  predicate Init(s: State) {
    && s.calls == map[] && s.root.lock.None? && s.root.staged == map[] && s.root.renames == 0
    && s.root.destination != Some(map[])
  }

  datatype Run = Run(states: seq<State>, actions: seq<Action>)

  ghost predicate IsRun(v: Value, r: Run) {
    && |r.states| == |r.actions| + 1
    && Init(r.states[0])
    && forall i :: 0 <= i < |r.actions| ==> r.states[i + 1] == Next(v, r.states[i], r.actions[i])
  }

  // ---------------------------------------------------------------- the invariant

  predicate Holds(c: Call) {
    c.Locked? || c.Made? || c.Writing? || c.Ready? || c.Clear? || c.Cleaning? || c.Failing? || c.Renamed?
  }

  predicate RootOk(v: Value, first: Option<Files>, r: Root) {
    && (forall id :: id in r.staged ==> id < r.serial && r.lock.Some?)
    && r.renames <= 1
    && (r.renames == 0 ==> r.destination == first)
    && (r.renames == 1 ==> first.None? && r.destination == Some(Published(v)))
    && first != Some(map[])
  }

  // What a call knows while it holds the lock, and what it has when it returned.
  predicate CallOk(v: Value, p: nat, r: Root, c: Call) {
    && (Holds(c) ==> r.lock == Some(p))
    && match c
       case Made(id) => r.staged.Keys == {id}
       case Writing(id, n) => n <= |v.payload| && r.staged == map[id := Partial(v, n)]
       case Ready(id) => r.staged == map[id := Published(v)]
       case Clear(id) => r.staged == map[id := Published(v)] && r.destination.None?
       case Cleaning(id) => r.staged.Keys == {id} && r.destination.Some?
       case Failing => r.staged == map[] && r.destination.Some?
       case Renamed => r.staged == map[] && r.destination == Some(Published(v))
       case Locked => r.staged == map[]
       case Returned => r.destination == Some(Published(v))
       case Comparing => r.destination.Some?
       case _ => true
  }

  ghost predicate Inv(v: Value, first: Option<Files>, s: State) {
    && RootOk(v, first, s.root)
    && forall p :: p in s.calls ==> CallOk(v, p, s.root, s.calls[p])
  }

  // The destination appears at most once and stays; a lock changes hands only through
  // its holder.
  predicate RootGrows(p: nat, r: Root, t: Root) {
    && (r.destination.Some? ==> t.destination == r.destination)
    && (r.lock.Some? && r.lock != Some(p) ==> t == r)
    && r.renames <= t.renames
  }

  lemma WriteOk(v: Value, first: Option<Files>, p: nat, r: Root, c: Call)
    requires RootOk(v, first, r) && CallOk(v, p, r, c) && c.Writing?
    ensures var (t, d) := Write(v, r, c); RootOk(v, first, t) && CallOk(v, p, t, d) && RootGrows(p, r, t)
  {
    var n := c.written;
    assert c.id in r.staged;
    if n < |v.payload| {
      assert r.staged[c.id := Partial(v, n + 1)] == map[c.id := Partial(v, n + 1)];
    } else {
      assert n == |v.payload| && v.payload[..n] == v.payload;
      assert Partial(v, n) == Published(v);
    }
  }

  lemma RenameOk(v: Value, first: Option<Files>, p: nat, r: Root, id: nat)
    requires RootOk(v, first, r) && CallOk(v, p, r, Clear(id))
    ensures var (t, d) := Rename(r, id); RootOk(v, first, t) && CallOk(v, p, t, d) && RootGrows(p, r, t) && d.Renamed?
  {
    assert r.staged - {id} == map[];
  }

  lemma StagingOk(v: Value, first: Option<Files>, p: nat, r: Root, c: Call, expire: bool)
    requires RootOk(v, first, r) && CallOk(v, p, r, c) && (c.Locked? || c.Made? || c.Cleaning?)
    ensures var (t, d) := After(v, p, r, c, expire);
            RootOk(v, first, t) && CallOk(v, p, t, d) && RootGrows(p, r, t)
  {
    match c
    case Locked =>
      assert r.staged[r.serial := map[]].Keys == {r.serial};
    case Made(id) =>
      assert r.staged[id := Partial(v, 0)] == map[id := Partial(v, 0)];
    case Cleaning(id) =>
      assert r.staged - {id} == map[];
  }

  lemma UnstagedOk(v: Value, first: Option<Files>, p: nat, r: Root, c: Call, expire: bool)
    requires RootOk(v, first, r) && CallOk(v, p, r, c)
    requires !c.Locked? && !c.Made? && !c.Cleaning? && !c.Writing? && !c.Clear?
    ensures var (t, d) := After(v, p, r, c, expire);
            RootOk(v, first, t) && CallOk(v, p, t, d) && RootGrows(p, r, t)
  {
    hide Write, Rename, RootAccepted;
  }

  lemma StepOk(v: Value, first: Option<Files>, p: nat, r: Root, c: Call, expire: bool)
    requires RootOk(v, first, r) && CallOk(v, p, r, c)
    ensures var (t, d) := After(v, p, r, c, expire);
            RootOk(v, first, t) && CallOk(v, p, t, d) && RootGrows(p, r, t)
  {
    hide Write, Rename, RootOk, RootGrows, CallOk;
    if c.Locked? || c.Made? || c.Cleaning? {
      StagingOk(v, first, p, r, c, expire);
    } else if c.Writing? {
      WriteOk(v, first, p, r, c);
    } else if c.Clear? {
      RenameOk(v, first, p, r, c.id);
    } else {
      UnstagedOk(v, first, p, r, c, expire);
    }
  }

  lemma OtherOk(v: Value, p: nat, q: nat, r: Root, t: Root, c: Call)
    requires CallOk(v, q, r, c) && p != q && RootGrows(p, r, t)
    ensures CallOk(v, q, t, c)
  {
  }

  lemma InvStep(v: Value, first: Option<Files>, s: State, a: Action)
    requires Inv(v, first, s)
    ensures Inv(v, first, Next(v, s, a))
  {
    hide After, RootOk;
    match a
    case Begin(p) =>
    case Crash(p) =>
    case Step(p, expire) =>
      StepOk(v, first, p, s.root, CallOf(s, p), expire);
      var (t, d) := After(v, p, s.root, CallOf(s, p), expire);
      forall q | q in s.calls && q != p
        ensures CallOk(v, q, t, s.calls[q])
      {
        OtherOk(v, p, q, s.root, t, s.calls[q]);
      }
  }

  lemma {:induction false} InvRun(v: Value, r: Run, i: nat)
    requires IsRun(v, r) && i < |r.states|
    ensures Inv(v, r.states[0].root.destination, r.states[i])
  {
    if i > 0 {
      InvRun(v, r, i - 1);
      InvStep(v, r.states[0].root.destination, r.states[i - 1], r.actions[i - 1]);
    }
  }

  lemma {:induction false} RunGrows(v: Value, r: Run, i: nat, j: nat)
    requires IsRun(v, r) && i <= j < |r.states|
    ensures r.states[i].root.destination.Some? ==> r.states[j].root.destination == r.states[i].root.destination
    ensures r.states[i].root.renames <= r.states[j].root.renames
    decreases j - i
  {
    hide After, RootOk, CallOk;
    if i < j {
      RunGrows(v, r, i, j - 1);
      InvRun(v, r, j - 1);
      match r.actions[j - 1]
      case Step(p, expire) =>
        var s := r.states[j - 1];
        CallKnown(v, r.states[0].root.destination, s, p);
        StepOk(v, r.states[0].root.destination, p, s.root, CallOf(s, p), expire);
      case _ =>
    }
  }

  lemma CallKnown(v: Value, first: Option<Files>, s: State, p: nat)
    requires Inv(v, first, s)
    ensures CallOk(v, p, s.root, CallOf(s, p))
  {
  }

  // ---------------------------------------------------------------- what publishers see

  /// The destination is never partial, comes into being by at most one rename, and never
  /// changes once it is there.
  lemma NeverPartial(v: Value, r: Run, i: nat, j: nat)
    requires IsRun(v, r) && i <= j < |r.states|
    ensures var first, now := r.states[0].root.destination, r.states[i].root;
            && (now.destination == first || now.destination == Some(Published(v)))
            && now.renames <= 1 && (now.renames == 1 <==> first.None? && now.destination.Some?)
            && (now.destination.Some? ==> r.states[j].root.destination == now.destination)
  {
    InvRun(v, r, i);
    RunGrows(v, r, i, j);
  }

  /// A call that returned finds exactly the payload, then and ever after.
  lemma ReturnedExact(v: Value, r: Run, i: nat, j: nat, p: nat)
    requires IsRun(v, r) && i <= j < |r.states| && CallOf(r.states[i], p).Returned?
    ensures r.states[j].root.destination == Some(Published(v))
  {
    InvRun(v, r, i);
    CallKnown(v, r.states[0].root.destination, r.states[i], p);
    RunGrows(v, r, i, j);
  }

  /// At most one call is inside the critical section, and only it has anything staged.
  lemma OneHolder(v: Value, r: Run, i: nat, p: nat, q: nat)
    requires IsRun(v, r) && i < |r.states| && Holds(CallOf(r.states[i], p)) && Holds(CallOf(r.states[i], q))
    ensures p == q && |r.states[i].root.staged| <= 1
  {
    InvRun(v, r, i);
    CallKnown(v, r.states[0].root.destination, r.states[i], p);
    CallKnown(v, r.states[0].root.destination, r.states[i], q);
  }

  // ---------------------------------------------------------------- exactly when it is stuck

  // The process that took the lock is gone, and it had not renamed.
  predicate Orphaned(s: State) {
    s.root.lock.Some? && !Holds(CallOf(s, s.root.lock.value)) && s.root.destination.None?
  }

  function Play(v: Value, s: State, actions: seq<Action>): State {
    if actions == [] then s else Next(v, Play(v, s, actions[..|actions| - 1]), actions[|actions| - 1])
  }

  // In some continuation some call returns.
  ghost predicate CanStillReturn(v: Value, s: State) {
    exists actions, p: nat :: CallOf(Play(v, s, actions), p).Returned?
  }

  lemma {:induction false} PlayInv(v: Value, first: Option<Files>, s: State, actions: seq<Action>)
    requires Inv(v, first, s)
    ensures Inv(v, first, Play(v, s, actions))
    ensures s.root.destination.Some? ==> Play(v, s, actions).root.destination == s.root.destination
    ensures Orphaned(s) ==> Orphaned(Play(v, s, actions))
  {
    hide Inv, Orphaned, Next;
    if actions != [] {
      PlayInv(v, first, s, actions[..|actions| - 1]);
      var t := Play(v, s, actions[..|actions| - 1]);
      InvStep(v, first, t, actions[|actions| - 1]);
      NextKeeps(v, first, t, actions[|actions| - 1]);
    }
  }

  lemma NextKeeps(v: Value, first: Option<Files>, s: State, a: Action)
    requires Inv(v, first, s)
    ensures s.root.destination.Some? ==> Next(v, s, a).root.destination == s.root.destination
    ensures Orphaned(s) ==> Orphaned(Next(v, s, a))
  {
    match a
    case Step(p, expire) =>
      CallKnown(v, first, s, p);
      StepOk(v, first, p, s.root, CallOf(s, p), expire);
      if Orphaned(s) && s.root.lock == Some(p) {
        LockedOut(v, p, s.root, CallOf(s, p), expire);
      }
      hide After, RootOk, CallOk;
    case _ =>
  }

  // While the lock is there, a call that does not hold it changes nothing.
  lemma LockedOut(v: Value, p: nat, r: Root, c: Call, expire: bool)
    requires r.lock.Some? && !Holds(c)
    ensures var (t, d) := After(v, p, r, c, expire); t == r && !Holds(d)
  {
  }

  // How far a call that nobody disturbs is from returning.
  function Distance(v: Value, c: Call): nat {
    var n := |v.payload|;
    match c
    case Returned => 0
    case Renamed => 1
    case Comparing => 1
    case Clear(_) => 2
    case Ready(_) => 3
    case Writing(_, k) => if k <= n then 4 + n - k else 0
    case Made(_) => 5 + n
    case Locked => 6 + n
    case Locking => 7 + n
    case Probing => 8 + n
    case Checking(_, _, _) => 9 + n
    case Listed(_) => 10 + n
    case _ => 11 + n
  }

  // The call is on its way: nothing it has seen has changed, and it holds the lock or
  // finds it free, unless the payload is already in place.
  predicate OnItsWay(v: Value, p: nat, r: Root, c: Call) {
    && (r.destination == Some(Published(v)) || (r.destination.None? && (r.lock.None? || Holds(c))))
    && match c
       case Down => false
       case Raised => false
       case Waiting => false
       case Cleaning(_) => false
       case Failing => false
       case Listed(saw) => saw == r.lock.Some?
       case Checking(saw, entry, ids) => saw == r.lock.Some? && entry == saw && ids == r.staged.Keys
       case Comparing => r.destination == Some(Published(v))
       case Locking => r.destination.None?
       case Locked => r.destination.None?
       case Made(_) => r.destination.None?
       case Writing(_, _) => r.destination.None?
       case Ready(_) => r.destination.None?
       case _ => true
  }

  lemma GetsCloser(v: Value, first: Option<Files>, p: nat, r: Root, c: Call)
    requires RootOk(v, first, r) && CallOk(v, p, r, c) && OnItsWay(v, p, r, c) && !c.Returned?
    ensures var (t, d) := After(v, p, r, c, false); OnItsWay(v, p, t, d) && Distance(v, d) < Distance(v, c)
  {
  }

  lemma {:induction false} Returns(v: Value, first: Option<Files>, s: State, p: nat) returns (actions: seq<Action>)
    requires Inv(v, first, s) && OnItsWay(v, p, s.root, CallOf(s, p))
    ensures CallOf(Play(v, s, actions), p).Returned?
    decreases Distance(v, CallOf(s, p))
  {
    if CallOf(s, p).Returned? {
      actions := [];
    } else {
      CallKnown(v, first, s, p);
      GetsCloser(v, first, p, s.root, CallOf(s, p));
      var a := Step(p, false);
      InvStep(v, first, s, a);
      hide After, Inv, OnItsWay;
      var rest := Returns(v, first, Next(v, s, a), p);
      PlayFrom(v, s, a, rest);
      actions := [a] + rest;
    }
  }

  lemma {:induction false} PlayFrom(v: Value, s: State, a: Action, rest: seq<Action>)
    ensures Play(v, s, [a] + rest) == Play(v, Next(v, s, a), rest)
  {
    hide Next;
    if rest == [] {
      assert [a] + rest == [a];
      assert [a][..0] == [];
      assert Play(v, s, [a][..0]) == s;
    } else {
      assert ([a] + rest)[..|rest|] == [a] + rest[..|rest| - 1];
      PlayFrom(v, s, a, rest[..|rest| - 1]);
    }
  }

  // A call that crashed and began again.
  lemma FreshCall(v: Value, first: Option<Files>, s: State, p: nat)
    requires Inv(v, first, s)
    ensures var t := Next(v, Next(v, s, Crash(p)), Begin(p));
            Inv(v, first, t) && t.root == s.root && CallOf(t, p).Entering?
  {
    InvStep(v, first, s, Crash(p));
    InvStep(v, first, Next(v, s, Crash(p)), Begin(p));
    hide Inv;
  }

  lemma SomeCallReturns(v: Value, first: Option<Files>, s: State)
    requires Inv(v, first, s)
    requires s.root.destination == Some(Published(v)) || (s.root.destination.None? && !Orphaned(s))
    ensures CanStillReturn(v, s)
  {
    if s.root.destination.None? && s.root.lock.Some? {
      var p := s.root.lock.value;
      CallKnown(v, first, s, p);
      var actions := Returns(v, first, s, p);
    } else {
      var p: nat := 0;
      FreshCall(v, first, s, p);
      var t := Next(v, s, Crash(p));
      var u := Next(v, t, Begin(p));
      var actions := Returns(v, first, u, p);
      PlayFrom(v, t, Begin(p), actions);
      PlayFrom(v, s, Crash(p), [Begin(p)] + actions);
    }
  }

  /// From a reachable state some call can still return if and only if the payload is in
  /// place, or nothing is and the lock is free or its holder alive.  A crash between taking
  /// the lock and renaming is never repaired.
  lemma CanReturnExactly(v: Value, r: Run, i: nat)
    requires IsRun(v, r) && i < |r.states|
    ensures var s := r.states[i];
            CanStillReturn(v, s)
            <==> s.root.destination == Some(Published(v)) || (s.root.destination.None? && !Orphaned(s))
  {
    hide Inv, Orphaned;
    InvRun(v, r, i);
    var s, first := r.states[i], r.states[0].root.destination;
    if s.root.destination == Some(Published(v)) || (s.root.destination.None? && !Orphaned(s)) {
      SomeCallReturns(v, first, s);
    }
    if CanStillReturn(v, s) {
      var actions, p: nat :| CallOf(Play(v, s, actions), p).Returned?;
      PlayInv(v, first, s, actions);
      CallKnown(v, first, Play(v, s, actions), p);
      OrphanedMeans(Play(v, s, actions));
    }
  }

  lemma OrphanedMeans(s: State)
    ensures Orphaned(s) ==> s.root.destination.None?
  {
  }

  lemma Extend(v: Value, r: Run, a: Action) returns (q: Run)
    requires IsRun(v, r)
    ensures IsRun(v, q) && Last(q) == Next(v, Last(r), a)
  {
    q := Run(r.states + [Next(v, Last(r), a)], r.actions + [a]);
  }

  function Last(r: Run): State
    requires |r.states| == |r.actions| + 1
  {
    r.states[|r.actions|]
  }

  const EMPTY := Root(None, map[], None, 0, 0)

  lemma RunToLocking(v: Value) returns (r: Run)
    ensures IsRun(v, r) && Last(r) == State(EMPTY, map[0 := Locking])
  {
    r := Run([State(EMPTY, map[])], []);
    r := Extend(v, r, Begin(0));
    r := Extend(v, r, Step(0, false));
    r := Extend(v, r, Step(0, false));
    r := Extend(v, r, Step(0, false));
    r := Extend(v, r, Step(0, false));
  }

  /// A run in which it happens, for every value: the one publisher there is takes the lock
  /// and dies, and from then on no call of any process ever returns.
  lemma OrphaningRun(v: Value) returns (r: Run)
    ensures IsRun(v, r) && Last(r) == State(EMPTY.(lock := Some(0)), map[0 := Down])
    ensures !CanStillReturn(v, Last(r))
  {
    r := RunToLocking(v);
    r := Extend(v, r, Step(0, false));
    r := Extend(v, r, Crash(0));
    CanReturnExactly(v, r, |r.actions|);
  }

  /// A call that waits gets through once the payload is in place.
  lemma WaiterReturns(v: Value, r: Run, i: nat, p: nat) returns (actions: seq<Action>)
    requires IsRun(v, r) && i < |r.states| && CallOf(r.states[i], p).Waiting?
    requires r.states[i].root.destination == Some(Published(v))
    ensures CallOf(Play(v, r.states[i], actions), p).Returned?
  {
    InvRun(v, r, i);
    var s, a := r.states[i], Step(p, false);
    InvStep(v, r.states[0].root.destination, s, a);
    WaitOver(v, s, p);
    hide Inv, After, OnItsWay;
    var rest := Returns(v, r.states[0].root.destination, Next(v, s, a), p);
    PlayFrom(v, s, a, rest);
    actions := [a] + rest;
  }

  lemma WaitOver(v: Value, s: State, p: nat)
    requires CallOf(s, p).Waiting? && s.root.destination == Some(Published(v))
    ensures var t := Next(v, s, Step(p, false)); OnItsWay(v, p, t.root, CallOf(t, p))
  {
  }

  /// While nothing is in place it keeps waiting, until its time is up.
  lemma WaitsOn(v: Value, s: State, p: nat)
    requires CallOf(s, p).Waiting? && s.root.destination.None?
    ensures CallOf(Next(v, s, Step(p, false)), p).Waiting? && CallOf(Next(v, s, Step(p, true)), p).Raised?
    ensures Next(v, s, Step(p, false)).root == s.root == Next(v, s, Step(p, true)).root
  {
  }

  /// Checking what it has listed, a call goes on if and only if the lock it listed is still
  /// there and every staged directory it listed still is too and had its lock listed first.
  lemma ChecksExactly(v: Value, s: State, p: nat)
    requires CallOf(s, p).Checking?
    ensures var c, t := CallOf(s, p), Next(v, s, Step(p, false));
            var fine := && !(c.lockEntry && s.root.lock.None?)
                        && (c.sawLock || c.stagedEntries == {}) && c.stagedEntries <= s.root.staged.Keys;
            t.root == s.root && CallOf(t, p) == if fine then Probing else Raised
  {
    var c := CallOf(s, p);
    if !c.sawLock && c.stagedEntries != {} {
      var id :| id in c.stagedEntries;
      assert !RootAccepted(s.root, c);
    }
  }

  lemma RunToStaged(v: Value) returns (r: Run)
    ensures IsRun(v, r)
    ensures Last(r) == State(Root(Some(1), map[0 := map[]], None, 1, 0), map[0 := Listed(false), 1 := Made(0)])
  {
    r := Run([State(EMPTY, map[])], []);
    r := Extend(v, r, Begin(0));
    r := Extend(v, r, Step(0, false));
    r := Extend(v, r, Begin(1));
    r := Extend(v, r, Step(1, false));
    r := Extend(v, r, Step(1, false));
    r := Extend(v, r, Step(1, false));
    r := Extend(v, r, Step(1, false));
    r := Extend(v, r, Step(1, false));
    r := Extend(v, r, Step(1, false));
  }

  /// A publisher raises without anything being wrong when another one takes the lock and
  /// stages between the two listings of the first.
  lemma RacingRun(v: Value) returns (r: Run)
    ensures IsRun(v, r) && CallOf(Last(r), 0).Raised? && CallOf(Last(r), 1) == Made(0)
  {
    r := RunToStaged(v);
    r := Extend(v, r, Step(0, false));
    r := Extend(v, r, Step(0, false));
  }
}
