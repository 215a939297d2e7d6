/// How one worker scores and publishes one episode: private staging, a durable
/// prepared receipt, a no-replace rename, a durable promotion receipt
/// (ops/calibration_two_worker_continuation_18d6494.py, the loop body of _worker_main).
///
/// Everything here is durable except the stage a worker has reached.

module EpisodePublication {
  import opened Wrappers

  // A validated sidecar, by its combined digest.
  type Digest = nat

  // prepared/<id>.json and promotions/<id>.json
  datatype Receipt = Receipt(worker: nat, content: Digest)

  // What is published about an episode.
  datatype Public = Public(prepared: Option<Receipt>, destination: Option<Digest>, promotion: Option<Receipt>)

  // staging/<id>/attempt-<k>
  datatype Attempt =
    // no finished sidecar: `tree` identifies whatever scoring has left so far
    | Scratch(tree: nat)
    // a finished sidecar, and whether the scorer's publish lock still lies beside it
    | Sidecar(content: Digest, locked: bool)
    // the directories above a sidecar that was renamed away
    | Shell(locked: bool)

  // What one worker has below its own root for an episode: the attempts, and the
  // tree inventories in abandoned-attempt-receipts.
  datatype Workspace = Workspace(attempts: map<nat, Attempt>, abandoned: map<nat, Attempt>)

  const NOTHING_PUBLIC := Public(None, None, None)
  const NOTHING_STAGED := Workspace(map[], map[])
  const MAX_ATTEMPTS := 999

  datatype Error =
    | PromotionWorkerMismatch
    | SidecarDiffersFromReceipt
    | MultipleStagedSidecars
    | UnreceiptedDestination
    | PreparedSidecarDisappeared
    | AbandonedAttemptChanged
    | TooManyAttempts
    | DestinationExists
    | ReceiptExists

  datatype Stage =
    | Look                 // decide from the durable files
    | Abandon(k: nat)      // receipt the attempts numbered k and above
    | MakeAttempt
    | Score(k: nat)
    | Unlock(k: nat)       // the scorer has renamed its sidecar, its lock remains
    | Staged(k: nat)
    | Rename(k: nat)
    | Prune(k: nat)
    | Promote
    | Finished
    | Raised(error: Error)

  // What scoring produces next: more scratch files, or the finished sidecar.
  datatype Outcome = More(tree: nat) | Complete(content: Digest)

  // One durable change, and the stage after it.
  datatype Move = Move(pub: Public, space: Workspace, stage: Stage)

  // ---------------------------------------------------------------- the steps

  predicate HasSidecar(ws: Workspace, k: nat) {
    k in ws.attempts && ws.attempts[k].Sidecar?
  }

  predicate AnySidecar(ws: Workspace) {
    exists k :: k in ws.attempts && HasSidecar(ws, k)
  }

  predicate SeveralSidecars(ws: Workspace) {
    exists j, k :: j in ws.attempts && k in ws.attempts && j != k && HasSidecar(ws, j) && HasSidecar(ws, k)
  }

  // The lowest free attempt number from `k` up, 0 when all are taken.
  function FirstFree(ws: Workspace, k: nat): (free: nat)
    requires k > 0
    ensures free == 0 ==> forall i :: k <= i <= MAX_ATTEMPTS ==> i in ws.attempts
    ensures free != 0 ==> k <= free <= MAX_ATTEMPTS && free !in ws.attempts
    decreases MAX_ATTEMPTS + 1 - k
  {
    if k > MAX_ATTEMPTS then 0 else if k in ws.attempts then FirstFree(ws, k + 1) else k
  }

  function Put(ws: Workspace, k: nat, a: Attempt): Workspace {
    ws.(attempts := ws.attempts[k := a])
  }

  function Decide(pub: Public, ws: Workspace, w: nat): Stage {
    if pub.promotion.Some? then
      if pub.promotion.value.worker != w then Raised(PromotionWorkerMismatch)
      else if pub.destination != Some(pub.promotion.value.content) then Raised(SidecarDiffersFromReceipt)
      else Finished
    else if SeveralSidecars(ws) then Raised(MultipleStagedSidecars)
    else if pub.destination.Some? then
      if pub.prepared.None? || AnySidecar(ws) then Raised(UnreceiptedDestination)
      else if pub.destination.value != pub.prepared.value.content then Raised(SidecarDiffersFromReceipt)
      else Promote
    else if AnySidecar(ws) then StagedStage(ws)
    else if pub.prepared.Some? then Raised(PreparedSidecarDisappeared)
    else Abandon(1)
  }

  // The one staged sidecar.
  function StagedStage(ws: Workspace): Stage
    requires AnySidecar(ws) && !SeveralSidecars(ws)
  {
    UniqueSidecar(ws);
    var k :| k in ws.attempts && HasSidecar(ws, k);
    Staged(k)
  }

  lemma UniqueSidecar(ws: Workspace)
    requires !SeveralSidecars(ws)
    ensures forall j, k :: j in ws.attempts && k in ws.attempts && HasSidecar(ws, j) && HasSidecar(ws, k) ==> j == k
  {
  }

  // A stage that names an attempt finds it there (StageOk); otherwise it stands still.
  function Step(pub: Public, ws: Workspace, w: nat, stage: Stage, outcome: Outcome): Move
  {
    match stage
    case Look => Move(pub, ws, Decide(pub, ws, w))
    case Abandon(k) =>
      if k > MAX_ATTEMPTS then Move(pub, ws, MakeAttempt)
      else if k !in ws.attempts then Move(pub, ws, Abandon(k + 1))
      else if k !in ws.abandoned then
        Move(pub, ws.(abandoned := ws.abandoned[k := ws.attempts[k]]), Abandon(k + 1))
      else if ws.abandoned[k] != ws.attempts[k] then Move(pub, ws, Raised(AbandonedAttemptChanged))
      else Move(pub, ws, Abandon(k + 1))
    case MakeAttempt =>
      var k := FirstFree(ws, 1);
      if k == 0 then Move(pub, ws, Raised(TooManyAttempts))
      else Move(pub, Put(ws, k, Scratch(0)), Score(k))
    case Score(k) => (
      match outcome
      case More(tree) => Move(pub, Put(ws, k, Scratch(tree)), stage)
      case Complete(content) => Move(pub, Put(ws, k, Sidecar(content, true)), Unlock(k)))
    case Unlock(k) =>
      if !HasSidecar(ws, k) then Move(pub, ws, stage)
      else Move(pub, Put(ws, k, Sidecar(ws.attempts[k].content, false)), Staged(k))
    case Staged(k) =>
      if !HasSidecar(ws, k) then Move(pub, ws, stage)
      else if pub.prepared.None? then
        Move(pub.(prepared := Some(Receipt(w, ws.attempts[k].content))), ws, Rename(k))
      else if pub.prepared.value.content != ws.attempts[k].content then
        Move(pub, ws, Raised(SidecarDiffersFromReceipt))
      else Move(pub, ws, Rename(k))
    case Rename(k) =>
      if !HasSidecar(ws, k) then Move(pub, ws, stage)
      else if pub.destination.Some? then Move(pub, ws, Raised(DestinationExists))
      else
        var a := ws.attempts[k];
        Move(pub.(destination := Some(a.content)), Put(ws, k, Shell(a.locked)), Prune(k))
    case Prune(k) =>
      // a directory that still holds the scorer's lock cannot be removed
      var pruned := if k in ws.attempts && ws.attempts[k] == Shell(false)
                    then ws.(attempts := ws.attempts - {k}) else ws;
      if pub.prepared.None? || pub.destination != Some(pub.prepared.value.content)
      then Move(pub, pruned, Raised(SidecarDiffersFromReceipt))
      else Move(pub, pruned, Promote)
    case Promote =>
      if pub.promotion.Some? then Move(pub, ws, Raised(ReceiptExists))
      else Move(pub.(promotion := pub.prepared), ws, Finished)
    case _ => Move(pub, ws, stage)
  }

  // ---------------------------------------------------------------- the invariant

  predicate Receipted(ws: Workspace, k: nat) {
    k in ws.abandoned && k in ws.attempts && ws.abandoned[k] == ws.attempts[k]
  }

  // The published chain: a promotion repeats the prepared receipt, whose content is
  // what lies at the destination.
  predicate PublicOk(pub: Public, w: nat) {
    && (pub.prepared.Some? ==> pub.prepared.value.worker == w)
    && (pub.destination.Some? ==> pub.prepared.Some? && pub.destination.value == pub.prepared.value.content)
    && (pub.promotion.Some? ==> pub.promotion == pub.prepared && pub.destination.Some?)
  }

  // The attempts: at most one finished sidecar; receipts name unchanged scratch.
  ghost predicate SpaceOk(pub: Public, ws: Workspace) {
    && (forall k :: k in ws.attempts ==> 1 <= k <= MAX_ATTEMPTS)
    && (forall k :: k in ws.abandoned ==> Receipted(ws, k) && ws.attempts[k].Scratch?)
    && !SeveralSidecars(ws)
    && (pub.destination.None? ==> forall k :: k in ws.attempts ==> !ws.attempts[k].Shell?)
    && (pub.destination.Some? ==> !AnySidecar(ws))
    && (pub.prepared.Some? && pub.destination.None? ==>
          exists k :: k in ws.attempts && HasSidecar(ws, k) && ws.attempts[k].content == pub.prepared.value.content)
    && (pub.destination.Some? || AnySidecar(ws) ==>
          forall k :: k in ws.attempts && ws.attempts[k].Scratch? ==> Receipted(ws, k))
  }

  // What a live worker knows at each stage.
  ghost predicate StageOk(pub: Public, ws: Workspace, stage: Stage) {
    match stage
    case Look => true
    case Abandon(n) =>
      && pub.prepared.None? && !AnySidecar(ws)
      && forall k :: k in ws.attempts && k < n ==> Receipted(ws, k)
    case MakeAttempt =>
      && pub.prepared.None? && !AnySidecar(ws)
      && forall k :: k in ws.attempts ==> Receipted(ws, k)
    case Score(n) =>
      && pub.prepared.None? && !AnySidecar(ws)
      && n in ws.attempts && ws.attempts[n].Scratch? && n !in ws.abandoned
      && forall k :: k in ws.attempts && k != n ==> Receipted(ws, k)
    case Unlock(n) => pub.prepared.None? && HasSidecar(ws, n) && ws.attempts[n].locked
    case Staged(n) => pub.destination.None? && HasSidecar(ws, n)
    case Rename(n) =>
      && pub.destination.None? && HasSidecar(ws, n)
      && pub.prepared.Some? && pub.prepared.value.content == ws.attempts[n].content
    case Prune(n) =>
      && pub.destination.Some? && pub.promotion.None?
      && n in ws.attempts && ws.attempts[n].Shell?
    case Promote => pub.destination.Some? && pub.promotion.None?
    case Finished => pub.promotion.Some?
    case Raised(error) =>
      && error == TooManyAttempts
      && forall k :: 1 <= k <= MAX_ATTEMPTS ==> k in ws.attempts
  }

  ghost predicate Sound(pub: Public, ws: Workspace, w: nat) {
    PublicOk(pub, w) && SpaceOk(pub, ws)
  }

  lemma StepKeepsPublic(pub: Public, ws: Workspace, w: nat, stage: Stage, outcome: Outcome)
    requires Sound(pub, ws, w) && StageOk(pub, ws, stage)
    ensures PublicOk(Step(pub, ws, w, stage, outcome).pub, w)
  {
  }

  lemma StepKeepsSpace(pub: Public, ws: Workspace, w: nat, stage: Stage, outcome: Outcome)
    requires Sound(pub, ws, w) && StageOk(pub, ws, stage)
    ensures var m := Step(pub, ws, w, stage, outcome); SpaceOk(m.pub, m.space)
  {
  }

  lemma StepReaches(pub: Public, ws: Workspace, w: nat, stage: Stage, outcome: Outcome)
    requires Sound(pub, ws, w) && StageOk(pub, ws, stage)
    ensures var m := Step(pub, ws, w, stage, outcome); StageOk(m.pub, m.space, m.stage)
  {
  }

  // ---------------------------------------------------------------- what never changes

  // Receipts and destinations are created once and stay as they are; the
  // destination appears only in the step of a Rename.
  lemma StepOnlyAdds(pub: Public, ws: Workspace, w: nat, stage: Stage, outcome: Outcome)
    requires Sound(pub, ws, w)
    ensures var p := Step(pub, ws, w, stage, outcome).pub;
            && (pub.prepared.Some? ==> p.prepared == pub.prepared)
            && (pub.destination.Some? ==> p.destination == pub.destination)
            && (pub.promotion.Some? ==> p.promotion == pub.promotion)
            && (pub.destination.None? && p.destination.Some? ==> stage.Rename?)
  {
  }

  // ---------------------------------------------------------------- progress

  // Steps left before the episode is finished; scoring itself may take any number
  // of More outcomes.
  function Rank(stage: Stage): nat {
    match stage
    case Look => MAX_ATTEMPTS + 11
    case Abandon(k) => if k > MAX_ATTEMPTS then 8 else MAX_ATTEMPTS + 9 - k
    case MakeAttempt => 7
    case Score(_) => 6
    case Unlock(_) => 5
    case Staged(_) => 4
    case Rename(_) => 3
    case Prune(_) => 2
    case Promote => 1
    case _ => 0
  }

  lemma StepDescends(pub: Public, ws: Workspace, w: nat, stage: Stage, outcome: Outcome)
    requires Sound(pub, ws, w) && StageOk(pub, ws, stage)
    requires !stage.Finished? && !stage.Raised?
    ensures var m := Step(pub, ws, w, stage, outcome);
            && Rank(m.stage) <= Rank(stage)
            && (Rank(m.stage) == Rank(stage) ==> stage.Score? && outcome.More?)
  {
  }

  // ---------------------------------------------------------------- abandoned staging

  // _validate_abandoned_staging: every attempt left behind has a matching receipt.
  predicate AbandonedValid(ws: Workspace) {
    forall k :: k in ws.attempts ==> Receipted(ws, k)
  }

  ghost predicate HasShell(ws: Workspace) {
    exists k :: k in ws.attempts && ws.attempts[k].Shell?
  }

  // Once an episode is published, the validation accepts exactly when no directory
  // of a renamed sidecar was left behind.
  lemma AbandonedValidExactly(pub: Public, ws: Workspace, w: nat)
    requires Sound(pub, ws, w) && pub.destination.Some?
    ensures AbandonedValid(ws) <==> !HasShell(ws)
  {
    if !AbandonedValid(ws) {
      var k :| k in ws.attempts && !Receipted(ws, k);
      assert !HasSidecar(ws, k);
      assert ws.attempts[k].Shell?;
    }
  }

  // Something in the workspace that no later step can clear: a scorer's lock whose
  // owner died before removing it, or an unpruned shell whose worker died.
  ghost predicate Tainted(ws: Workspace, stage: Option<Stage>) {
    exists k :: k in ws.attempts && TaintedAttempt(ws.attempts[k], k, stage)
  }

  predicate TaintedAttempt(a: Attempt, k: nat, stage: Option<Stage>) {
    match a
    case Scratch(_) => false
    case Sidecar(_, locked) => locked && stage != Some(Unlock(k))
    case Shell(locked) => locked || stage != Some(Prune(k))
  }

  lemma StepKeepsTaint(pub: Public, ws: Workspace, w: nat, stage: Stage, outcome: Outcome)
    requires Sound(pub, ws, w) && StageOk(pub, ws, stage)
    ensures var m := Step(pub, ws, w, stage, outcome);
            Tainted(m.space, Some(m.stage)) <==> Tainted(ws, Some(stage))
  {
    var m := Step(pub, ws, w, stage, outcome);
    if Tainted(ws, Some(stage)) {
      var k :| k in ws.attempts && TaintedAttempt(ws.attempts[k], k, Some(stage));
      assert k in m.space.attempts && TaintedAttempt(m.space.attempts[k], k, Some(m.stage));
    }
    if Tainted(m.space, Some(m.stage)) {
      var k :| k in m.space.attempts && TaintedAttempt(m.space.attempts[k], k, Some(m.stage));
      assert k in ws.attempts && TaintedAttempt(ws.attempts[k], k, Some(stage));
    }
  }

  // A crash taints the workspace in exactly two windows: between the scorer's rename
  // and the removal of its lock, and between the worker's rename and its prune.
  lemma CrashTaints(pub: Public, ws: Workspace, w: nat, stage: Stage)
    requires Sound(pub, ws, w) && StageOk(pub, ws, stage)
    ensures Tainted(ws, None) <==> Tainted(ws, Some(stage)) || stage.Unlock? || stage.Prune?
  {
    if Tainted(ws, Some(stage)) {
      var k :| k in ws.attempts && TaintedAttempt(ws.attempts[k], k, Some(stage));
      assert TaintedAttempt(ws.attempts[k], k, None);
    }
    if stage.Unlock? || stage.Prune? {
      assert stage.k in ws.attempts && TaintedAttempt(ws.attempts[stage.k], stage.k, None);
    }
    if Tainted(ws, None) {
      var k :| k in ws.attempts && TaintedAttempt(ws.attempts[k], k, None);
      assert TaintedAttempt(ws.attempts[k], k, Some(stage)) || stage == Unlock(k) || stage == Prune(k);
    }
  }
}
