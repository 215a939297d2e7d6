/// Two continuation workers, interleaved and crashing anywhere
/// (ops/calibration_two_worker_continuation_18d6494.py, _worker_main and the checks
/// of _run_plan that follow it).
///
/// The durable files of each episode change only through EpisodePublication.Step.
/// A worker's lock admits one live process per index; a crash frees it.

module WorkerProtocol {
  import opened Wrappers
  import opened Sequences
  import opened EpisodePublication

  // Episode ids are only ever compared for equality.
  type EpisodeId = nat

  // The frozen serial inventory and the two shards of plan.json.
  datatype Plan = Plan(frozen: map<EpisodeId, Digest>, shards: seq<seq<EpisodeId>>)

  // What _worker_main checks of the plan before it starts: two shards, without
  // repetition or overlap, outside the frozen inventory.
  predicate PlanOk(plan: Plan) {
    && |plan.shards| == 2
    && Distinct(plan.shards[0]) && Distinct(plan.shards[1])
    && (forall e :: e in plan.shards[0] ==> e !in plan.shards[1])
    && (forall w :: 0 <= w < 2 ==> forall e :: e in plan.shards[w] ==> e !in plan.frozen)
  }

  datatype Worker = Down | At(i: nat, stage: Stage)

  // `pubs` and `spaces` hold what exists; an absent key means nothing is there.
  datatype State = State(
    pubs: map<EpisodeId, Public>,
    spaces: map<(nat, EpisodeId), Workspace>,
    workers: map<nat, Worker>)

  datatype Action = Start(w: nat) | Crash(w: nat) | Proceed(w: nat, outcome: Outcome)

  function PubOf(s: State, e: EpisodeId): Public {
    if e in s.pubs then s.pubs[e] else NOTHING_PUBLIC
  }

  function SpaceOf(s: State, w: nat, e: EpisodeId): Workspace {
    if (w, e) in s.spaces then s.spaces[(w, e)] else NOTHING_STAGED
  }

  function WorkerOf(s: State, w: nat): Worker {
    if w in s.workers then s.workers[w] else Down
  }

  predicate Init(plan: Plan, s: State) {
    && s.pubs.Keys == plan.frozen.Keys
    && (forall e :: e in plan.frozen ==> s.pubs[e] == Public(None, Some(plan.frozen[e]), None))
    && s.spaces == map[]
    && s.workers == map[]
  }

  // Worker `w` is working on its `i`-th episode.
  predicate Busy(plan: Plan, s: State, w: nat)
    requires |plan.shards| == 2
  {
    w < 2 && WorkerOf(s, w).At? && WorkerOf(s, w).i < |plan.shards[w]|
  }

  function Current(plan: Plan, s: State, w: nat): EpisodeId
    requires |plan.shards| == 2 && Busy(plan, s, w)
  {
    plan.shards[w][WorkerOf(s, w).i]
  }

  function NextMove(plan: Plan, s: State, w: nat, outcome: Outcome): Move
    requires |plan.shards| == 2 && Busy(plan, s, w)
  {
    var e := Current(plan, s, w);
    Step(PubOf(s, e), SpaceOf(s, w, e), w, WorkerOf(s, w).stage, outcome)
  }

  function After(plan: Plan, s: State, a: Action): State
    requires |plan.shards| == 2
  {
    match a
    case Start(w) =>
      if w < 2 && WorkerOf(s, w).Down? then s.(workers := s.workers[w := At(0, Look)]) else s
    case Crash(w) => s.(workers := s.workers[w := Down])
    case Proceed(w, outcome) =>
      if !Busy(plan, s, w) then s else
      var e, m, i := Current(plan, s, w), NextMove(plan, s, w, outcome), WorkerOf(s, w).i;
      State(
        s.pubs[e := m.pub],
        s.spaces[(w, e) := m.space],
        s.workers[w := if m.stage.Finished? then At(i + 1, Look) else At(i, m.stage)])
  }

  datatype Run = Run(states: seq<State>, actions: seq<Action>)

  ghost predicate IsPath(plan: Plan, r: Run)
    requires |plan.shards| == 2
  {
    && |r.states| == |r.actions| + 1
    && forall i :: 0 <= i < |r.actions| ==> r.states[i + 1] == After(plan, r.states[i], r.actions[i])
  }

  ghost predicate IsRun(plan: Plan, r: Run) {
    PlanOk(plan) && IsPath(plan, r) && Init(plan, r.states[0])
  }

  // ---------------------------------------------------------------- the invariant

  // Where worker `w` stands in the publication of `e`, if it is working on it.
  function StageFor(plan: Plan, s: State, w: nat, e: EpisodeId): Option<Stage>
    requires |plan.shards| == 2
  {
    if Busy(plan, s, w) && Current(plan, s, w) == e then Some(WorkerOf(s, w).stage) else None
  }

  // The episode `e` of worker `w`'s own shard.
  ghost predicate EpisodeOk(plan: Plan, s: State, w: nat, e: EpisodeId)
    requires |plan.shards| == 2
  {
    && Sound(PubOf(s, e), SpaceOf(s, w, e), w)
    && (StageFor(plan, s, w, e).Some? ==> StageOk(PubOf(s, e), SpaceOf(s, w, e), StageFor(plan, s, w, e).value))
  }

  ghost predicate WorkerOk(plan: Plan, s: State, w: nat)
    requires |plan.shards| == 2 && w < 2
  {
    && (forall e :: e in plan.shards[w] ==> EpisodeOk(plan, s, w, e))
    && (forall e :: e !in plan.shards[w] ==> SpaceOf(s, w, e) == NOTHING_STAGED)
    && (WorkerOf(s, w).At? ==>
          && WorkerOf(s, w).i <= |plan.shards[w]|
          && !WorkerOf(s, w).stage.Finished?
          && forall j :: 0 <= j < WorkerOf(s, w).i ==> PubOf(s, plan.shards[w][j]).promotion.Some?)
  }

  ghost predicate FrozenOk(plan: Plan, s: State)
    requires |plan.shards| == 2
  {
    forall e :: e !in plan.shards[0] && e !in plan.shards[1] ==>
      PubOf(s, e) == if e in plan.frozen then Public(None, Some(plan.frozen[e]), None) else NOTHING_PUBLIC
  }

  ghost predicate Inv(plan: Plan, s: State)
    requires |plan.shards| == 2
  {
    WorkerOk(plan, s, 0) && WorkerOk(plan, s, 1) && FrozenOk(plan, s)
  }

  lemma InvInit(plan: Plan, s: State)
    requires PlanOk(plan) && Init(plan, s)
    ensures Inv(plan, s)
  {
    assert forall e :: e in plan.shards[0] || e in plan.shards[1] ==> PubOf(s, e) == NOTHING_PUBLIC;
  }

  // What the local lemmas say about one step of one worker.
  lemma StepFacts(pub: Public, ws: Workspace, w: nat, stage: Stage, outcome: Outcome)
    requires Sound(pub, ws, w) && StageOk(pub, ws, stage)
    ensures var m := Step(pub, ws, w, stage, outcome);
            && Sound(m.pub, m.space, w) && StageOk(m.pub, m.space, m.stage)
            && (m.stage.Finished? ==> m.pub.promotion.Some?)
            && (pub.promotion.Some? ==> m.pub.promotion.Some?)
  {
    StepKeepsPublic(pub, ws, w, stage, outcome);
    StepKeepsSpace(pub, ws, w, stage, outcome);
    StepReaches(pub, ws, w, stage, outcome);
    StepOnlyAdds(pub, ws, w, stage, outcome);
  }

  lemma LookOk(pub: Public, ws: Workspace)
    ensures StageOk(pub, ws, Look)
  {
  }

  lemma ProceedKeepsOwn(plan: Plan, s: State, w: nat, outcome: Outcome)
    requires PlanOk(plan) && Inv(plan, s) && w < 2
    ensures WorkerOk(plan, After(plan, s, Proceed(w, outcome)), w)
  {
    hide Step, Sound, StageOk;
    var t := After(plan, s, Proceed(w, outcome));
    if Busy(plan, s, w) {
      var e, i := Current(plan, s, w), WorkerOf(s, w).i;
      assert EpisodeOk(plan, s, w, e);
      StepFacts(PubOf(s, e), SpaceOf(s, w, e), w, WorkerOf(s, w).stage, outcome);
      forall d | d in plan.shards[w]
        ensures EpisodeOk(plan, t, w, d)
      {
        assert EpisodeOk(plan, s, w, d);
        LookOk(PubOf(t, d), SpaceOf(t, w, d));
      }
    }
  }

  lemma ProceedKeepsOther(plan: Plan, s: State, w: nat, outcome: Outcome, v: nat)
    requires PlanOk(plan) && Inv(plan, s) && w < 2 && v < 2 && v != w
    ensures WorkerOk(plan, After(plan, s, Proceed(w, outcome)), v)
  {
    hide Step, Sound, StageOk;
    var t := After(plan, s, Proceed(w, outcome));
    if Busy(plan, s, w) {
      forall d | d in plan.shards[v]
        ensures EpisodeOk(plan, t, v, d)
      {
        assert EpisodeOk(plan, s, v, d);
      }
    }
  }

  lemma RestartKeeps(plan: Plan, s: State, a: Action, v: nat)
    requires PlanOk(plan) && Inv(plan, s) && !a.Proceed? && v < 2
    ensures WorkerOk(plan, After(plan, s, a), v)
  {
    hide Step, Sound, StageOk;
    var t := After(plan, s, a);
    forall d | d in plan.shards[v]
      ensures EpisodeOk(plan, t, v, d)
    {
      assert EpisodeOk(plan, s, v, d);
      LookOk(PubOf(t, d), SpaceOf(t, v, d));
    }
  }

  lemma FrozenKept(plan: Plan, s: State, a: Action)
    requires PlanOk(plan) && FrozenOk(plan, s)
    ensures FrozenOk(plan, After(plan, s, a))
  {
    hide Step;
  }

  lemma InvStep(plan: Plan, s: State, a: Action)
    requires PlanOk(plan) && Inv(plan, s)
    ensures Inv(plan, After(plan, s, a))
  {
    hide Step, WorkerOk;
    FrozenKept(plan, s, a);
    match a
    case Proceed(w, outcome) =>
      if Busy(plan, s, w) {
        ProceedKeepsOwn(plan, s, w, outcome);
        ProceedKeepsOther(plan, s, w, outcome, 1 - w);
      }
    case _ =>
      RestartKeeps(plan, s, a, 0);
      RestartKeeps(plan, s, a, 1);
  }

  // Every interleaving of the two workers and every crash keeps the invariant.
  lemma {:induction false} InvRun(plan: Plan, r: Run, i: nat)
    requires IsRun(plan, r) && i < |r.states|
    ensures Inv(plan, r.states[i])
  {
    if i == 0 {
      InvInit(plan, r.states[0]);
    } else {
      InvRun(plan, r, i - 1);
      InvStep(plan, r.states[i - 1], r.actions[i - 1]);
    }
  }

  // ---------------------------------------------------------------- what holds on every run

  // For an episode of worker `w`'s shard: what lies at the destination is exactly
  // what the prepared receipt recorded beforehand, a promotion implies both, and the
  // other worker has never staged anything for it.
  lemma PublishedChain(plan: Plan, r: Run, i: nat, w: nat, e: EpisodeId)
    requires IsRun(plan, r) && i < |r.states| && w < 2 && e in plan.shards[w]
    ensures var pub := PubOf(r.states[i], e);
            && (pub.destination.Some? ==> pub.prepared == Some(Receipt(w, pub.destination.value)))
            && (pub.promotion.Some? ==> pub.promotion == pub.prepared && pub.destination.Some?)
            && SpaceOf(r.states[i], 1 - w, e) == NOTHING_STAGED
  {
    hide Step;
    InvRun(plan, r, i);
    assert EpisodeOk(plan, r.states[i], w, e);
  }

  // No receipt and no destination, frozen or new, ever changes or goes away.
  lemma {:induction false} PublishedForGood(plan: Plan, r: Run, i: nat, j: nat, e: EpisodeId)
    requires IsRun(plan, r) && i <= j < |r.states|
    ensures var p, q := PubOf(r.states[i], e), PubOf(r.states[j], e);
            && (p.prepared.Some? ==> q.prepared == p.prepared)
            && (p.destination.Some? ==> q.destination == p.destination)
            && (p.promotion.Some? ==> q.promotion == p.promotion)
    decreases j - i
  {
    hide Step, Sound, StageOk;
    if i < j {
      PublishedForGood(plan, r, i, j - 1, e);
      InvRun(plan, r, j - 1);
      var s := r.states[j - 1];
      match r.actions[j - 1]
      case Proceed(w, outcome) =>
        if Busy(plan, s, w) && Current(plan, s, w) == e {
          assert EpisodeOk(plan, s, w, e);
          StepOnlyAdds(PubOf(s, e), SpaceOf(s, w, e), w, WorkerOf(s, w).stage, outcome);
        }
      case _ =>
    }
  }

  // The frozen serial sidecars survive any run, unreceipted and unchanged.
  lemma FrozenUntouched(plan: Plan, r: Run, i: nat, e: EpisodeId)
    requires IsRun(plan, r) && i < |r.states| && e in plan.frozen
    ensures PubOf(r.states[i], e) == Public(None, Some(plan.frozen[e]), None)
  {
    InvRun(plan, r, i);
  }

  // A destination appears only in the rename of the worker that owns the episode's
  // shard, with the content that worker had already recorded as prepared.
  lemma OnlyTheOwnerPublishes(plan: Plan, r: Run, i: nat, e: EpisodeId)
    requires IsRun(plan, r) && i < |r.actions|
    requires PubOf(r.states[i], e).destination.None? && PubOf(r.states[i + 1], e).destination.Some?
    ensures exists w :: 0 <= w < 2 && e in plan.shards[w] && r.actions[i].Proceed? && r.actions[i].w == w
                        && Busy(plan, r.states[i], w) && Current(plan, r.states[i], w) == e
                        && WorkerOf(r.states[i], w).stage.Rename?
                        && PubOf(r.states[i], e).prepared == Some(Receipt(w, PubOf(r.states[i + 1],
                            e).destination.value))
  {
    hide Step, Sound, StageOk;
    InvRun(plan, r, i);
    var s := r.states[i];
    var w, outcome := r.actions[i].w, r.actions[i].outcome;
    assert EpisodeOk(plan, s, w, e);
    StepOnlyAdds(PubOf(s, e), SpaceOf(s, w, e), w, WorkerOf(s, w).stage, outcome);
    PreparedFirst(PubOf(s, e), SpaceOf(s, w, e), w, WorkerOf(s, w).stage, outcome);
  }

  lemma PreparedFirst(pub: Public, ws: Workspace, w: nat, stage: Stage, outcome: Outcome)
    requires Sound(pub, ws, w) && StageOk(pub, ws, stage)
    requires pub.destination.None? && Step(pub, ws, w, stage, outcome).pub.destination.Some?
    ensures pub.prepared == Some(Receipt(w, Step(pub, ws, w, stage, outcome).pub.destination.value))
  {
  }

  // The only error a worker can meet is that all attempt numbers are taken.
  lemma OnlyExhaustionRaises(plan: Plan, r: Run, i: nat, w: nat)
    requires IsRun(plan, r) && i < |r.states| && Busy(plan, r.states[i], w)
    requires WorkerOf(r.states[i], w).stage.Raised?
    ensures WorkerOf(r.states[i], w).stage == Raised(TooManyAttempts)
    ensures forall k :: 1 <= k <= MAX_ATTEMPTS ==>
              k in SpaceOf(r.states[i], w, Current(plan, r.states[i], w)).attempts
  {
    InvRun(plan, r, i);
    assert EpisodeOk(plan, r.states[i], w, Current(plan, r.states[i], w));
  }

  // ---------------------------------------------------------------- progress

  predicate Done(plan: Plan, s: State, w: nat)
    requires |plan.shards| == 2
  {
    w < 2 && WorkerOf(s, w).At? && WorkerOf(s, w).i >= |plan.shards[w]|
  }

  predicate Exhausted(plan: Plan, s: State, w: nat)
    requires |plan.shards| == 2
  {
    Busy(plan, s, w) && WorkerOf(s, w).stage == Raised(TooManyAttempts)
  }

  // An upper bound on the steps a live worker still needs, scratch writing aside.
  function Budget(plan: Plan, s: State, w: nat): nat
    requires |plan.shards| == 2
  {
    if Busy(plan, s, w)
    then (|plan.shards[w]| - WorkerOf(s, w).i - 1) * (MAX_ATTEMPTS + 12) + Rank(WorkerOf(s, w).stage)
    else 0
  }

  // The actions of `w` among the first `n` that are not mere scratch writing.
  function Useful(actions: seq<Action>, w: nat, n: nat): nat
    requires n <= |actions|
  {
    if n == 0 then 0 else
      var a := actions[n - 1];
      Useful(actions, w, n - 1) + if a.Proceed? && a.w == w && a.outcome.Complete? then 1 else 0
  }

  lemma ProceedDescends(plan: Plan, s: State, w: nat, outcome: Outcome)
    requires PlanOk(plan) && Inv(plan, s) && Busy(plan, s, w) && !Exhausted(plan, s, w)
    ensures var t := After(plan, s, Proceed(w, outcome));
            && (Busy(plan, t, w) || Done(plan, t, w))
            && Budget(plan, t, w) <= Budget(plan, s, w)
            && (outcome.Complete? ==> Budget(plan, t, w) < Budget(plan, s, w))
  {
    hide Step, Sound, StageOk;
    var e := Current(plan, s, w);
    assert EpisodeOk(plan, s, w, e);
    Unraised(PubOf(s, e), SpaceOf(s, w, e), WorkerOf(s, w).stage);
    StepDescends(PubOf(s, e), SpaceOf(s, w, e), w, WorkerOf(s, w).stage, outcome);
    var left := |plan.shards[w]| - WorkerOf(s, w).i - 1;
    assert left > 0 ==> left * (MAX_ATTEMPTS + 12) == (left - 1) * (MAX_ATTEMPTS + 12) + MAX_ATTEMPTS + 12;
  }

  lemma Unraised(pub: Public, ws: Workspace, stage: Stage)
    requires StageOk(pub, ws, stage)
    ensures stage.Raised? ==> stage == Raised(TooManyAttempts)
  {
  }

  ghost predicate Uncrashed(r: Run, i: nat, j: nat, w: nat)
    requires i <= j <= |r.actions|
  {
    forall k :: i <= k < j ==> r.actions[k] != Crash(w)
  }

  // Without a crash of its own, a live worker's budget shrinks with every useful step,
  // whatever the other worker does and however often that one crashes.
  lemma {:induction false} BudgetSpent(plan: Plan, r: Run, i: nat, j: nat, w: nat)
    requires IsRun(plan, r) && i <= j < |r.states| && Uncrashed(r, i, j, w)
    requires w < 2 && WorkerOf(r.states[i], w).At?
    ensures Exhausted(plan, r.states[j], w) || Done(plan, r.states[j], w)
            || (Busy(plan, r.states[j], w)
                && Budget(plan, r.states[j], w) + Useful(r.actions, w, j)
                   <= Budget(plan, r.states[i], w) + Useful(r.actions, w, i))
    decreases j - i
  {
    hide Step, Sound, StageOk, Budget;
    InvRun(plan, r, i);
    if i < j {
      BudgetSpent(plan, r, i, j - 1, w);
      InvRun(plan, r, j - 1);
      StepSpends(plan, r.states[j - 1], r.actions[j - 1], w);
    }
  }

  lemma StepSpends(plan: Plan, s: State, a: Action, w: nat)
    requires PlanOk(plan) && Inv(plan, s) && w < 2 && a != Crash(w)
    ensures Done(plan, s, w) ==> Done(plan, After(plan, s, a), w)
    ensures Exhausted(plan, s, w) ==> Exhausted(plan, After(plan, s, a), w)
    ensures Busy(plan, s, w) && !Exhausted(plan, s, w) ==>
              var t := After(plan, s, a);
              && (Busy(plan, t, w) || Done(plan, t, w))
              && Budget(plan, t, w) <= Budget(plan, s, w)
              && (a.Proceed? && a.w == w && a.outcome.Complete? ==> Budget(plan, t, w) < Budget(plan, s, w))
  {
    if a.Proceed? && a.w == w {
      hide Step;
      if Busy(plan, s, w) {
        if Exhausted(plan, s, w) {
          var e := Current(plan, s, w);
          RaisedStays(PubOf(s, e), SpaceOf(s, w, e), w, WorkerOf(s, w).stage, a.outcome);
        } else {
          ProceedDescends(plan, s, w, a.outcome);
        }
      }
    } else {
      hide Step;
    }
  }

  lemma RaisedStays(pub: Public, ws: Workspace, w: nat, stage: Stage, outcome: Outcome)
    requires stage.Raised?
    ensures Step(pub, ws, w, stage, outcome).stage == stage
  {
  }

  // Restarting a worker in any reachable state promotes its whole shard within
  // |shard| * 1011 useful steps, unless an episode has used up its attempt numbers.
  lemma RestartPromotesShard(plan: Plan, r: Run, i: nat, j: nat, w: nat)
    requires IsRun(plan, r) && i < j < |r.states| && w < 2
    requires r.actions[i] == Start(w) && WorkerOf(r.states[i], w).Down? && Uncrashed(r, i, j, w)
    requires Useful(r.actions, w, j) - Useful(r.actions, w, i + 1) >= |plan.shards[w]| * (MAX_ATTEMPTS + 12)
    ensures Exhausted(plan, r.states[j], w)
            || forall e :: e in plan.shards[w] ==>
                 && PubOf(r.states[j], e).promotion.Some?
                 && PubOf(r.states[j], e).promotion == PubOf(r.states[j], e).prepared
                 && PubOf(r.states[j], e).destination == Some(PubOf(r.states[j], e).promotion.value.content)
  {
    hide Step, StageOk;
    var n := |plan.shards[w]|;
    assert n > 0 ==> n * (MAX_ATTEMPTS + 12) == (n - 1) * (MAX_ATTEMPTS + 12) + MAX_ATTEMPTS + 12;
    assert Budget(plan, r.states[i + 1], w) < n * (MAX_ATTEMPTS + 12) || n == 0;
    BudgetSpent(plan, r, i + 1, j, w);
    if !Exhausted(plan, r.states[j], w) {
      assert Done(plan, r.states[j], w);
      DoneMeansPromoted(plan, r, j, w);
    }
  }

  lemma DoneMeansPromoted(plan: Plan, r: Run, i: nat, w: nat)
    requires IsRun(plan, r) && i < |r.states| && Done(plan, r.states[i], w)
    ensures forall e :: e in plan.shards[w] ==>
              && PubOf(r.states[i], e).promotion.Some?
              && PubOf(r.states[i], e).promotion == PubOf(r.states[i], e).prepared
              && PubOf(r.states[i], e).destination == Some(PubOf(r.states[i], e).promotion.value.content)
  {
    hide Step, StageOk;
    InvRun(plan, r, i);
    forall e | e in plan.shards[w]
      ensures && PubOf(r.states[i], e).promotion.Some?
              && PubOf(r.states[i], e).promotion == PubOf(r.states[i], e).prepared
              && PubOf(r.states[i], e).destination == Some(PubOf(r.states[i], e).promotion.value.content)
    {
      assert EpisodeOk(plan, r.states[i], w, e);
      var j :| 0 <= j < |plan.shards[w]| && plan.shards[w][j] == e;
    }
  }

  // ---------------------------------------------------------------- when the run can close

  // Action `k` of the run kills worker `w` in one of the two windows that leave
  // something behind for `e`.
  predicate FatalCrash(plan: Plan, r: Run, k: nat, w: nat, e: EpisodeId)
    requires |plan.shards| == 2 && k < |r.actions| && k < |r.states|
  {
    r.actions[k] == Crash(w)
    && match StageFor(plan, r.states[k], w, e)
       case Some(Unlock(_)) => true
       case Some(Prune(_)) => true
       case _ => false
  }

  lemma TaintSame(ws: Workspace, a: Option<Stage>, b: Option<Stage>)
    requires a.Some? ==> !a.value.Unlock? && !a.value.Prune?
    requires b.Some? ==> !b.value.Unlock? && !b.value.Prune?
    ensures Tainted(ws, a) <==> Tainted(ws, b)
  {
    forall k | k in ws.attempts
      ensures TaintedAttempt(ws.attempts[k], k, a) <==> TaintedAttempt(ws.attempts[k], k, b)
    {
    }
    if Tainted(ws, a) {
      var k :| k in ws.attempts && TaintedAttempt(ws.attempts[k], k, a);
      assert TaintedAttempt(ws.attempts[k], k, b);
    }
    if Tainted(ws, b) {
      var k :| k in ws.attempts && TaintedAttempt(ws.attempts[k], k, b);
      assert TaintedAttempt(ws.attempts[k], k, a);
    }
  }

  lemma TaintStep(plan: Plan, s: State, a: Action, w: nat, e: EpisodeId)
    requires PlanOk(plan) && Inv(plan, s) && w < 2 && e in plan.shards[w]
    ensures var t := After(plan, s, a);
            var before, after := StageFor(plan, s, w, e), StageFor(plan, t, w, e);
            Tainted(SpaceOf(t, w, e), after) <==>
              || Tainted(SpaceOf(s, w, e), before)
              || (a == Crash(w) && before.Some? && (before.value.Unlock? || before.value.Prune?))
  {
    hide Step, Sound, StageOk, Tainted;
    assert EpisodeOk(plan, s, w, e);
    var t := After(plan, s, a);
    var before, after := StageFor(plan, s, w, e), StageFor(plan, t, w, e);
    if a.Proceed? && a.w == w && before.Some? {
      StepKeepsTaint(PubOf(s, e), SpaceOf(s, w, e), w, before.value, a.outcome);
      var m := NextMove(plan, s, w, a.outcome);
      if m.stage.Finished? { TaintSame(m.space, Some(m.stage), after); }
    } else if a == Crash(w) && before.Some? {
      CrashTaints(PubOf(s, e), SpaceOf(s, w, e), w, before.value);
    } else if before != after {
      TaintSame(SpaceOf(s, w, e), before, after);
    }
  }

  lemma NotYetTainted(plan: Plan, r: Run, w: nat, e: EpisodeId)
    requires IsRun(plan, r) && w < 2 && e in plan.shards[w]
    ensures !Tainted(SpaceOf(r.states[0], w, e), StageFor(plan, r.states[0], w, e))
  {
  }

  // An episode's staging is tainted exactly when its worker once died in one of the
  // two windows.
  lemma {:induction false} TaintExactly(plan: Plan, r: Run, i: nat, w: nat, e: EpisodeId)
    requires IsRun(plan, r) && i < |r.states| && w < 2 && e in plan.shards[w]
    ensures Tainted(SpaceOf(r.states[i], w, e), StageFor(plan, r.states[i], w, e))
            <==> exists k :: 0 <= k < i && FatalCrash(plan, r, k, w, e)
  {
    hide Step, Sound, StageOk, Inv, After, Tainted, StageFor;
    if i == 0 {
      NotYetTainted(plan, r, w, e);
    } else {
      TaintExactly(plan, r, i - 1, w, e);
      InvRun(plan, r, i - 1);
      TaintStep(plan, r.states[i - 1], r.actions[i - 1], w, e);
      if r.actions[i - 1] == Crash(w) {
        assert FatalCrash(plan, r, i - 1, w, e) ==> exists k :: 0 <= k < i && FatalCrash(plan, r, k, w, e);
      }
    }
  }

  // What _run_plan requires of the staging roots before it writes its receipt.
  ghost predicate StagingAccepted(plan: Plan, s: State)
    requires |plan.shards| == 2
  {
    forall w, e :: 0 <= w < 2 && e in plan.shards[w] ==> AbandonedValid(SpaceOf(s, w, e))
  }

  // Both workers have promoted everything.  The run can then close exactly when no
  // worker ever died between the scorer's rename and its unlock, or between its own
  // rename and its prune; no later restart repairs either.
  lemma StagingAcceptedExactly(plan: Plan, r: Run, i: nat)
    requires IsRun(plan, r) && i < |r.states| && Done(plan, r.states[i], 0) && Done(plan, r.states[i], 1)
    ensures StagingAccepted(plan, r.states[i])
            <==> forall k, w, e :: 0 <= k < i && 0 <= w < 2 && e in plan.shards[w] ==> !FatalCrash(plan, r, k, w, e)
  {
    hide Step, StageOk;
    var s := r.states[i];
    InvRun(plan, r, i);
    forall w, e | 0 <= w < 2 && e in plan.shards[w]
      ensures AbandonedValid(SpaceOf(s, w, e)) <==> forall k :: 0 <= k < i ==> !FatalCrash(plan, r, k, w, e)
    {
      assert EpisodeOk(plan, s, w, e);
      DoneMeansPromoted(plan, r, i, w);
      AbandonedValidExactly(PubOf(s, e), SpaceOf(s, w, e), w);
      PublishedTaint(PubOf(s, e), SpaceOf(s, w, e), w);
      TaintExactly(plan, r, i, w, e);
    }
  }

  lemma PublishedTaint(pub: Public, ws: Workspace, w: nat)
    requires Sound(pub, ws, w) && pub.destination.Some?
    ensures Tainted(ws, None) <==> HasShell(ws)
  {
    if Tainted(ws, None) {
      var k :| k in ws.attempts && TaintedAttempt(ws.attempts[k], k, None);
      assert !HasSidecar(ws, k);
    }
    if HasShell(ws) {
      var k :| k in ws.attempts && ws.attempts[k].Shell?;
      assert TaintedAttempt(ws.attempts[k], k, None);
    }
  }

  // ---------------------------------------------------------------- a run that cannot close

  ghost predicate Reaches(plan: Plan, r: Run, s: State) {
    IsRun(plan, r) && r.states[|r.actions|] == s
  }

  lemma LastOfRun(plan: Plan, r: Run)
    requires IsRun(plan, r)
    ensures |r.states| == |r.actions| + 1
  {
  }

  lemma Extend(plan: Plan, r: Run, s: State, a: Action) returns (q: Run)
    requires PlanOk(plan) && Reaches(plan, r, s)
    ensures Reaches(plan, q, After(plan, s, a))
  {
    q := Run(r.states + [After(plan, s, a)], r.actions + [a]);
  }

  // Nothing frozen, one episode for each worker: episode `w` for worker `w`.
  const PAIR := Plan(map[], [[0], [1]])

  // The state once worker `w` has left this of its episode.
  function With(s: State, w: nat, pub: Public, space: Workspace, worker: Worker): State {
    State(s.pubs[w := pub], s.spaces[(w, w) := space], s.workers[w := worker])
  }

  // One undisturbed step of worker `w`.
  lemma Moves(r: Run, s: State, w: nat, m: Move, outcome: Outcome) returns (q: Run)
    requires w < 2 && Reaches(PAIR, r, With(s, w, m.pub, m.space, At(0, m.stage)))
    ensures var n := Step(m.pub, m.space, w, m.stage, outcome);
            Reaches(PAIR, q, With(s, w, n.pub, n.space, if n.stage.Finished? then At(1, Look) else At(0, n.stage)))
  {
    hide *;
    PairOk();
    q := Extend(PAIR, r, With(s, w, m.pub, m.space, At(0, m.stage)), Proceed(w, outcome));
    MovesTo(s, w, m, outcome);
  }

  lemma MovesTo(s: State, w: nat, m: Move, outcome: Outcome)
    requires w < 2
    ensures var n := Step(m.pub, m.space, w, m.stage, outcome);
            After(PAIR, With(s, w, m.pub, m.space, At(0, m.stage)), Proceed(w, outcome))
            == With(s, w, n.pub, n.space, if n.stage.Finished? then At(1, Look) else At(0, n.stage))
  {
    hide Step;
    var t := With(s, w, m.pub, m.space, At(0, m.stage));
    assert Busy(PAIR, t, w) && Current(PAIR, t, w) == w;
    assert PubOf(t, w) == m.pub && SpaceOf(t, w, w) == m.space;
    var n := Step(m.pub, m.space, w, m.stage, outcome);
    var worker := if n.stage.Finished? then At(1, Look) else At(0, n.stage);
    assert s.pubs[w := m.pub][w := n.pub] == s.pubs[w := n.pub];
    assert s.spaces[(w, w) := m.space][(w, w) := n.space] == s.spaces[(w, w) := n.space];
    assert s.workers[w := At(0, m.stage)][w := worker] == s.workers[w := worker];
  }

  lemma PairOk()
    ensures PlanOk(PAIR)
  {
  }

  // With no attempt there to give a receipt to, the numbers are only counted up.
  lemma {:induction false} NothingAbandoned(r: Run, s: State, w: nat, k: nat) returns (q: Run)
    requires w < 2 && 1 <= k <= MAX_ATTEMPTS + 1
    requires Reaches(PAIR, r, With(s, w, NOTHING_PUBLIC, NOTHING_STAGED, At(0, Abandon(k))))
    ensures Reaches(PAIR, q, With(s, w, NOTHING_PUBLIC, NOTHING_STAGED, At(0, MakeAttempt)))
    decreases MAX_ATTEMPTS + 1 - k
  {
    hide Reaches;
    q := Moves(r, s, w, Move(NOTHING_PUBLIC, NOTHING_STAGED, Abandon(k)), Complete(5));
    if k <= MAX_ATTEMPTS {
      q := NothingAbandoned(q, s, w, k + 1);
    }
  }

  // Attempt 1 with the scored sidecar, and what is left of it once that is published.
  function Scored(locked: bool): Workspace {
    Workspace(map[1 := Sidecar(5, locked)], map[])
  }

  function Leftover(locked: bool): Workspace {
    if locked then Workspace(map[1 := Shell(true)], map[]) else NOTHING_STAGED
  }

  function Prepared(w: nat): Public {
    Public(Some(Receipt(w, 5)), None, None)
  }

  function Renamed(w: nat): Public {
    Public(Some(Receipt(w, 5)), Some(5), None)
  }

  function Promoted(w: nat): Public {
    Public(Some(Receipt(w, 5)), Some(5), Some(Receipt(w, 5)))
  }

  lemma ScoringMoves(w: nat)
    ensures Step(NOTHING_PUBLIC, NOTHING_STAGED, w, Look, Complete(5))
            == Move(NOTHING_PUBLIC, NOTHING_STAGED, Abandon(1))
    ensures Step(NOTHING_PUBLIC, NOTHING_STAGED, w, MakeAttempt, Complete(5))
            == Move(NOTHING_PUBLIC, Put(NOTHING_STAGED, 1, Scratch(0)), Score(1))
    ensures Step(NOTHING_PUBLIC, Put(NOTHING_STAGED, 1, Scratch(0)), w, Score(1), Complete(5))
            == Move(NOTHING_PUBLIC, Scored(true), Unlock(1))
    ensures Step(NOTHING_PUBLIC, Scored(true), w, Unlock(1), Complete(5))
            == Move(NOTHING_PUBLIC, Scored(false), Staged(1))
  {
    assert map[1 := Scratch(0)][1 := Sidecar(5, true)] == map[1 := Sidecar(5, true)];
    assert map[1 := Sidecar(5, true)][1 := Sidecar(5, false)] == map[1 := Sidecar(5, false)];
  }

  lemma PublishingMoves(w: nat, locked: bool)
    ensures Step(NOTHING_PUBLIC, Scored(locked), w, Staged(1), Complete(5))
            == Move(Prepared(w), Scored(locked), Rename(1))
    ensures Step(Prepared(w), Scored(locked), w, Rename(1), Complete(5))
            == Move(Renamed(w), Workspace(map[1 := Shell(locked)], map[]), Prune(1))
    ensures Step(Renamed(w), Workspace(map[1 := Shell(locked)], map[]), w, Prune(1), Complete(5))
            == Move(Renamed(w), Leftover(locked), Promote)
    ensures Step(Renamed(w), Leftover(locked), w, Promote, Complete(5))
            == Move(Promoted(w), Leftover(locked), Finished)
  {
    assert map[1 := Sidecar(5, locked)][1 := Shell(locked)] == map[1 := Shell(locked)];
    assert map[1 := Shell(locked)] - {1} == map[];
  }

  lemma FindsStaged(w: nat)
    ensures Step(NOTHING_PUBLIC, Scored(true), w, Look, Complete(5))
            == Move(NOTHING_PUBLIC, Scored(true), Staged(1))
  {
    assert HasSidecar(Scored(true), 1);
  }

  // Worker `w` starts and scores its episode; the scorer has not removed its lock yet.
  lemma Scores(r: Run, s: State, w: nat) returns (q: Run)
    requires w < 2 && Reaches(PAIR, r, s)
    requires WorkerOf(s, w).Down? && w !in s.pubs && (w, w) !in s.spaces
    ensures Reaches(PAIR, q, With(s, w, NOTHING_PUBLIC, Scored(true), At(0, Unlock(1))))
  {
    hide Reaches, Step;
    ScoringMoves(w);
    q := Extend(PAIR, r, s, Start(w));
    var t := s.(workers := s.workers[w := At(0, Look)]);
    q := Extend(PAIR, q, t, Proceed(w, Complete(5)));
    assert After(PAIR, t, Proceed(w, Complete(5)))
           == With(s, w, NOTHING_PUBLIC, NOTHING_STAGED, At(0, Abandon(1)));
    q := NothingAbandoned(q, s, w, 1);
    q := Moves(q, s, w, Move(NOTHING_PUBLIC, NOTHING_STAGED, MakeAttempt), Complete(5));
    q := Moves(q, s, w, Move(NOTHING_PUBLIC, Put(NOTHING_STAGED, 1, Scratch(0)), Score(1)), Complete(5));
  }

  lemma Publishes(r: Run, s: State, w: nat, locked: bool) returns (q: Run)
    requires w < 2 && Reaches(PAIR, r, With(s, w, NOTHING_PUBLIC, Scored(locked), At(0, Staged(1))))
    ensures Reaches(PAIR, q, With(s, w, Promoted(w), Leftover(locked), At(1, Look)))
  {
    hide Reaches, Step, With;
    PublishingMoves(w, locked);
    q := Moves(r, s, w, Move(NOTHING_PUBLIC, Scored(locked), Staged(1)), Complete(5));
    q := Moves(q, s, w, Move(Prepared(w), Scored(locked), Rename(1)), Complete(5));
    q := Moves(q, s, w, Move(Renamed(w), Workspace(map[1 := Shell(locked)], map[]), Prune(1)), Complete(5));
    q := Moves(q, s, w, Move(Renamed(w), Leftover(locked), Promote), Complete(5));
  }

  const EMPTY := State(map[], map[], map[])
  const ONE_DONE := With(EMPTY, 0, Promoted(0), Leftover(true), At(1, Look))
  const STUCK := With(ONE_DONE, 1, Promoted(1), NOTHING_STAGED, At(1, Look))

  // Worker 0 dies between the scorer's rename and its unlock, restarts and finishes.
  lemma RunToOneDone() returns (r: Run)
    ensures Reaches(PAIR, r, ONE_DONE)
  {
    r := Run([EMPTY], []);
    assert Reaches(PAIR, r, EMPTY);
    hide Reaches, Step;
    r := Scores(r, EMPTY, 0);
    var s := With(EMPTY, 0, NOTHING_PUBLIC, Scored(true), At(0, Unlock(1)));
    r := Extend(PAIR, r, s, Crash(0));
    r := Extend(PAIR, r, s.(workers := map[0 := Down]), Start(0));
    FindsStaged(0);
    r := Moves(r, EMPTY, 0, Move(NOTHING_PUBLIC, Scored(true), Look), Complete(5));
    r := Publishes(r, EMPTY, 0, true);
  }

  /// A run in which both workers end done, with everything promoted, and the staging
  /// check fails all the same.
  lemma StuckRun() returns (r: Run)
    ensures Reaches(PAIR, r, STUCK)
    ensures Done(PAIR, STUCK, 0) && Done(PAIR, STUCK, 1) && !StagingAccepted(PAIR, STUCK)
  {
    hide Reaches, Step;
    r := RunToOneDone();
    r := Scores(r, ONE_DONE, 1);
    ScoringMoves(1);
    r := Moves(r, ONE_DONE, 1, Move(NOTHING_PUBLIC, Scored(true), Unlock(1)), Complete(5));
    r := Publishes(r, ONE_DONE, 1, false);
    assert SpaceOf(STUCK, 0, 0) == Leftover(true) && !Receipted(Leftover(true), 1);
  }
}
