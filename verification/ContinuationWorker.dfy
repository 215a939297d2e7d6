/// The worker's loop as it runs between two crashes
/// (ops/calibration_two_worker_continuation_18d6494.py, _worker_main and
/// _next_attempt_root).  Each durable write is one step of EpisodePublication, and
/// the loop is total: from whatever a crash left, it promotes every episode of its
/// shard, or stops because an episode has no attempt number left.

module ContinuationWorker {
  import opened Wrappers
  import opened Sequences
  import opened EpisodePublication
  import opened WorkerProtocol

  // The content an episode ends up with: what an earlier life of the worker prepared
  // or staged, and a fresh score otherwise.
  ghost function ContentOf(pub: Public, ws: Workspace, scored: Digest): Digest {
    if pub.prepared.Some? then pub.prepared.value.content
    else if AnySidecar(ws) then
      var k :| k in ws.attempts && HasSidecar(ws, k);
      ws.attempts[k].content
    else scored
  }

  // Nothing of the episode survives and every attempt number is taken.
  ghost predicate NoRoom(pub: Public, ws: Workspace) {
    && pub.prepared.None? && pub.destination.None? && !AnySidecar(ws)
    && forall k :: 1 <= k <= MAX_ATTEMPTS ==> k in ws.attempts
  }

  class Worker {
    const index: nat
    const assignment: seq<EpisodeId>
    var pubs: map<EpisodeId, Public>
    var spaces: map<EpisodeId, Workspace>   // below this worker's own root

    constructor (index: nat, assignment: seq<EpisodeId>,
                 pubs: map<EpisodeId, Public>, spaces: map<EpisodeId, Workspace>)
      ensures this.index == index && this.assignment == assignment
      ensures this.pubs == pubs && this.spaces == spaces
    {
      this.index, this.assignment, this.pubs, this.spaces := index, assignment, pubs, spaces;
    }

    function Pub(e: EpisodeId): Public
      reads this
    {
      if e in pubs then pubs[e] else NOTHING_PUBLIC
    }

    function Space(e: EpisodeId): Workspace
      reads this
    {
      if e in spaces then spaces[e] else NOTHING_STAGED
    }

    ghost predicate Valid()
      reads this
    {
      Distinct(assignment) && forall e :: e in assignment ==> Sound(Pub(e), Space(e), index)
    }

    twostate predicate OthersUnchanged(e: EpisodeId)
      reads this
    {
      forall d :: d != e ==> Pub(d) == old(Pub(d)) && Space(d) == old(Space(d))
    }

    // Writes the receipts of all earlier attempts, lowest number first.
    method AbandonAttempts(e: EpisodeId) returns (error: Option<Error>)
      requires Sound(Pub(e), Space(e), index) && StageOk(Pub(e), Space(e), Abandon(1))
      modifies this`spaces
      ensures error.None? && OthersUnchanged(e)
      ensures Space(e).attempts == old(Space(e)).attempts
      ensures Sound(Pub(e), Space(e), index) && StageOk(Pub(e), Space(e), MakeAttempt)
    {
      var k := 1;
      while k <= MAX_ATTEMPTS
        invariant 1 <= k <= MAX_ATTEMPTS + 1
        invariant OthersUnchanged(e) && Space(e).attempts == old(Space(e)).attempts
        invariant Sound(Pub(e), Space(e), index) && StageOk(Pub(e), Space(e), Abandon(k))
      {
        StepFacts(Pub(e), Space(e), index, Abandon(k), More(0));
        if k in Space(e).attempts {
          if k in Space(e).abandoned {
            if Space(e).abandoned[k] != Space(e).attempts[k] {
              return Some(AbandonedAttemptChanged);
            }
          } else {
            var inventory := Space(e).attempts[k];
            spaces := spaces[e := Space(e).(abandoned := Space(e).abandoned[k := inventory])];
          }
        }
        k := k + 1;
      }
      StepFacts(Pub(e), Space(e), index, Abandon(k), More(0));
      return None;
    }

    // The lowest free number becomes the new attempt's directory.
    method MakeNextAttempt(e: EpisodeId) returns (k: nat)
      requires Sound(Pub(e), Space(e), index) && StageOk(Pub(e), Space(e), MakeAttempt)
      modifies this`spaces
      ensures OthersUnchanged(e)
      ensures Sound(Pub(e), Space(e), index)
      ensures k == 0 ==> Space(e) == old(Space(e)) && NoRoom(Pub(e), Space(e))
      ensures k != 0 ==>
                && k !in old(Space(e)).attempts && 1 <= k <= MAX_ATTEMPTS
                && (forall j :: 1 <= j < k ==> j in old(Space(e)).attempts)
                && StageOk(Pub(e), Space(e), Score(k))
    {
      k := 1;
      while k <= MAX_ATTEMPTS && k in Space(e).attempts
        invariant 1 <= k <= MAX_ATTEMPTS + 1
        invariant forall j :: 1 <= j < k ==> j in Space(e).attempts
      {
        k := k + 1;
      }
      StepFacts(Pub(e), Space(e), index, MakeAttempt, More(0));
      if k > MAX_ATTEMPTS {
        return 0;
      }
      FirstFreeIs(Space(e), 1, k);
      spaces := spaces[e := Put(Space(e), k, Scratch(0))];
    }

    // Scores into a fresh attempt: scratch files, the finished sidecar, the unlock.
    method ScoreInto(e: EpisodeId, k: nat, scored: Digest)
      requires Sound(Pub(e), Space(e), index) && StageOk(Pub(e), Space(e), Score(k))
      modifies this`spaces
      ensures OthersUnchanged(e)
      ensures Sound(Pub(e), Space(e), index) && StageOk(Pub(e), Space(e), Staged(k))
      ensures Space(e).attempts[k] == Sidecar(scored, false)
      ensures !Tainted(Space(e), None)
    {
      ghost var pub := Pub(e);
      StepFacts(pub, Space(e), index, Score(k), Complete(scored));
      StepKeepsTaint(pub, Space(e), index, Score(k), Complete(scored));
      Untainted(pub, Space(e), Score(k));
      spaces := spaces[e := Put(Space(e), k, Sidecar(scored, true))];
      StepFacts(pub, Space(e), index, Unlock(k), Complete(scored));
      StepKeepsTaint(pub, Space(e), index, Unlock(k), Complete(scored));
      spaces := spaces[e := Put(Space(e), k, Sidecar(scored, false))];
      TaintSame(Space(e), Some(Staged(k)), None);
    }

    // Prepared receipt, no-replace rename, prune: the sidecar of attempt `k` reaches
    // its destination.
    method PublishStaged(e: EpisodeId, k: nat) returns (error: Option<Error>)
      requires Sound(Pub(e), Space(e), index) && StageOk(Pub(e), Space(e), Staged(k))
      modifies this
      ensures error.None? && OthersUnchanged(e)
      ensures Sound(Pub(e), Space(e), index) && StageOk(Pub(e), Space(e), Promote)
      ensures Pub(e).destination == Some(old(Space(e)).attempts[k].content)
      ensures Tainted(Space(e), None) <==> Tainted(old(Space(e)), None)
    {
      hide Step, Sound, StageOk, Tainted;
      PrepareFacts(Pub(e), Space(e), index, k);
      var content := Space(e).attempts[k].content;
      if Pub(e).prepared.None? {
        pubs := pubs[e := Pub(e).(prepared := Some(Receipt(index, content)))];
      } else if Pub(e).prepared.value.content != content {
        return Some(SidecarDiffersFromReceipt);
      }
      RenameFacts(Pub(e), Space(e), index, k);
      if Pub(e).destination.Some? {
        return Some(DestinationExists);
      }
      var locked := Space(e).attempts[k].locked;
      pubs := pubs[e := Pub(e).(destination := Some(content))];
      spaces := spaces[e := Put(Space(e), k, Shell(locked))];
      PruneFacts(Pub(e), Space(e), index, k);
      if !locked {
        spaces := spaces[e := Space(e).(attempts := Space(e).attempts - {k})];
      }
      if Pub(e).destination != Some(Pub(e).prepared.value.content) {
        return Some(SidecarDiffersFromReceipt);
      }
      return None;
    }

    // One turn of the loop.  It raises exactly when nothing of the episode survives
    // and no attempt number is free; otherwise it ends with all three public files
    // agreeing on the content, and the staging is clean unless it was tainted before.
    method PublishEpisode(e: EpisodeId, scored: Digest) returns (error: Option<Error>)
      requires Sound(Pub(e), Space(e), index)
      modifies this
      ensures Sound(Pub(e), Space(e), index) && OthersUnchanged(e)
      ensures error == if NoRoom(old(Pub(e)), old(Space(e))) then Some(TooManyAttempts) else None
      ensures error.None? ==>
                var receipt := Receipt(index, ContentOf(old(Pub(e)), old(Space(e)), scored));
                Pub(e) == Public(Some(receipt), Some(receipt.content), Some(receipt))
      ensures error.None? ==> (AbandonedValid(Space(e)) <==> !Tainted(old(Space(e)), None))
    {
      hide Step, Sound, StageOk, Tainted, AbandonedValid;
      var pub := Pub(e);
      LookFacts(pub, Space(e), index);
      error := None;
      if pub.promotion.Some? {
        if pub.promotion.value.worker != index { return Some(PromotionWorkerMismatch); }
        if pub.destination != Some(pub.promotion.value.content) { return Some(SidecarDiffersFromReceipt); }
      } else {
        var staged := set k | k in Space(e).attempts && HasSidecar(Space(e), k);
        if |staged| > 1 {
          TwoMembers(staged);
          return Some(MultipleStagedSidecars);
        }
        if pub.destination.Some? {
          if pub.prepared.None? || staged != {} {
            return Some(UnreceiptedDestination);
          }
          if pub.destination.value != pub.prepared.value.content { return Some(SidecarDiffersFromReceipt); }
        } else {
          var k: nat;
          if staged != {} {
            k :| k in staged;
            assert HasSidecar(Space(e), k);
          } else {
            assert forall j :: j in Space(e).attempts ==> j in staged || !HasSidecar(Space(e), j);
            if pub.prepared.Some? { return Some(PreparedSidecarDisappeared); }
            error := AbandonAttempts(e);
            if error.Some? { return; }
            k := MakeNextAttempt(e);
            if k == 0 { return Some(TooManyAttempts); }
            ScoreInto(e, k, scored);
          }
          error := PublishStaged(e, k);
          if error.Some? { return; }
        }
        PromoteFacts(Pub(e), Space(e), index);
        var promotion := Pub(e).prepared;
        pubs := pubs[e := Pub(e).(promotion := promotion)];
      }
      AbandonedValidExactly(Pub(e), Space(e), index);
      PublishedTaint(Pub(e), Space(e), index);
    }

    // The whole loop, from any state the crashes left.  It stops early only at the
    // first episode without room; every episode before that one is promoted with the
    // content that survived or was scored, and no other episode is touched.
    method Run(score: EpisodeId -> Digest) returns (completed: nat, error: Option<Error>)
      requires Valid()
      modifies this
      ensures Valid() && completed <= |assignment|
      ensures error.None? <==> completed == |assignment|
      ensures error.Some? ==> error == Some(TooManyAttempts)
                              && NoRoom(old(Pub(assignment[completed])), old(Space(assignment[completed])))
      ensures forall i :: 0 <= i < completed ==> Promoted(assignment[i], score)
      ensures forall d :: d !in assignment[..completed] && (completed < |assignment| ==> d != assignment[completed])
                          ==> Pub(d) == old(Pub(d)) && Space(d) == old(Space(d))
    {
      hide Sound, NoRoom, AbandonedValid, Tainted;
      completed, error := 0, None;
      while completed < |assignment|
        invariant Valid() && completed <= |assignment| && error.None?
        invariant forall i :: 0 <= i < completed ==> Promoted(assignment[i], score)
        invariant forall d :: d !in assignment[..completed] ==> Pub(d) == old(Pub(d)) && Space(d) == old(Space(d))
      {
        var e := assignment[completed];
        assert e !in assignment[..completed];
        error := PublishEpisode(e, score(e));
        if error.Some? {
          return;
        }
        assert forall i :: 0 <= i < completed ==> assignment[i] != e;
        completed := completed + 1;
        assert assignment[..completed] == assignment[..completed - 1] + [e];
      }
      assert assignment[..completed] == assignment;
    }

    twostate predicate Promoted(e: EpisodeId, score: EpisodeId -> Digest)
      reads this
    {
      && (var receipt := Receipt(index, ContentOf(old(Pub(e)), old(Space(e)), score(e)));
          Pub(e) == Public(Some(receipt), Some(receipt.content), Some(receipt)))
      && (AbandonedValid(Space(e)) <==> !Tainted(old(Space(e)), None))
    }
  }

  // The three publishing steps, one by one.
  lemma PrepareFacts(pub: Public, ws: Workspace, w: nat, k: nat)
    requires Sound(pub, ws, w) && StageOk(pub, ws, Staged(k))
    ensures HasSidecar(ws, k) && pub.destination.None?
    ensures pub.prepared.Some? ==> pub.prepared.value.content == ws.attempts[k].content
    ensures var p := if pub.prepared.None? then pub.(prepared := Some(Receipt(w, ws.attempts[k].content))) else pub;
            Sound(p, ws, w) && StageOk(p, ws, Rename(k))
  {
    StepFacts(pub, ws, w, Staged(k), Complete(0));
  }

  lemma RenameFacts(pub: Public, ws: Workspace, w: nat, k: nat)
    requires Sound(pub, ws, w) && StageOk(pub, ws, Rename(k))
    ensures HasSidecar(ws, k) && pub.destination.None?
    ensures var a := ws.attempts[k];
            var p, shelled := pub.(destination := Some(a.content)), Put(ws, k, Shell(a.locked));
            Sound(p, shelled, w) && StageOk(p, shelled, Prune(k))
            && (Tainted(shelled, Some(Prune(k))) <==> Tainted(ws, None))
  {
    StepFacts(pub, ws, w, Rename(k), Complete(0));
    StepKeepsTaint(pub, ws, w, Rename(k), Complete(0));
    TaintSame(ws, None, Some(Rename(k)));
  }

  lemma PruneFacts(pub: Public, ws: Workspace, w: nat, k: nat)
    requires Sound(pub, ws, w) && StageOk(pub, ws, Prune(k))
    ensures k in ws.attempts && ws.attempts[k].Shell?
    ensures pub.prepared.Some? && pub.destination == Some(pub.prepared.value.content)
    ensures var pruned := if ws.attempts[k].locked then ws else ws.(attempts := ws.attempts - {k});
            Sound(pub, pruned, w) && StageOk(pub, pruned, Promote)
            && (Tainted(pruned, None) <==> Tainted(ws, Some(Prune(k))))
  {
    StepFacts(pub, ws, w, Prune(k), Complete(0));
    StepKeepsTaint(pub, ws, w, Prune(k), Complete(0));
    var pruned := if ws.attempts[k].locked then ws else ws.(attempts := ws.attempts - {k});
    TaintSame(pruned, None, Some(Promote));
  }

  lemma PromoteFacts(pub: Public, ws: Workspace, w: nat)
    requires Sound(pub, ws, w) && StageOk(pub, ws, Promote)
    ensures pub.promotion.None? && pub.destination.Some? && pub.prepared == Some(Receipt(w, pub.destination.value))
    ensures Sound(pub.(promotion := pub.prepared), ws, w)
  {
    StepFacts(pub, ws, w, Promote, Complete(0));
  }

  // What the loop body learns from the files before it writes any.
  lemma LookFacts(pub: Public, ws: Workspace, w: nat)
    requires Sound(pub, ws, w)
    ensures pub.promotion.Some? ==>
              && pub.promotion.value.worker == w && pub.prepared == pub.promotion
              && pub.destination == Some(pub.promotion.value.content)
    ensures pub.destination.Some? ==>
              && pub.prepared == Some(Receipt(w, pub.destination.value)) && !AnySidecar(ws)
    ensures !SeveralSidecars(ws)
    ensures pub.destination.None? && !AnySidecar(ws) ==>
              pub.prepared.None? && StageOk(pub, ws, Abandon(1)) && !Tainted(ws, None)
    ensures pub.destination.None? ==>
              forall k :: k in ws.attempts && HasSidecar(ws, k) ==>
                StageOk(pub, ws, Staged(k)) && ContentOf(pub, ws, 0) == ws.attempts[k].content
    ensures AnySidecar(ws) || pub.prepared.Some? ==>
              !NoRoom(pub, ws) && forall n :: ContentOf(pub, ws, n) == ContentOf(pub, ws, 0)
  {
  }

  lemma TwoMembers(s: set<nat>)
    requires |s| > 1
    ensures exists j, k :: j in s && k in s && j != k
  {
    var j :| j in s;
    var rest := s - {j};
    assert |rest| > 0;
    var k :| k in rest;
    assert j in s && k in s && j != k;
  }

  lemma FirstFreeIs(ws: Workspace, i: nat, k: nat)
    requires 1 <= i <= k <= MAX_ATTEMPTS && k !in ws.attempts
    requires forall j :: i <= j < k ==> j in ws.attempts
    ensures FirstFree(ws, i) == k
    decreases k - i
  {
    if i < k {
      FirstFreeIs(ws, i + 1, k);
    }
  }

  // While an attempt is being scored, nothing beside it can be tainted.
  lemma Untainted(pub: Public, ws: Workspace, stage: Stage)
    requires SpaceOk(pub, ws) && StageOk(pub, ws, stage) && stage.Score?
    ensures !Tainted(ws, Some(stage))
  {
    assert forall k :: k in ws.attempts ==> !HasSidecar(ws, k);
  }
}
