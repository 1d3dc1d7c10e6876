/** The state directory as the request handlers use it: read a file, check, write it back. */
module ControlPlaneRuns {
  import opened Text
  import opened ExecutionProfile
  import opened RunRevision
  import opened Promotion

  class StateDirectory {
    var runs: seq<Run>
    var queue: seq<Approval>
    var packets: seq<Packet>

    constructor ()
      ensures Files() == Store([], []) && packets == []
    {
      runs, queue, packets := [], [], [];
    }

    function Files(): Store
      reads this
    {
      Store(runs, queue)
    }

    /** The directory with no request waiting. */
    function AsSystem(): System
      reads this
    {
      System(Files(), packets, [])
    }

    method ReviseDraft(id: string, revision: nat, input: Input, enabled: set<string>, now: Time)
      returns (r: Result<Draft, Error>)
      modifies this`runs
      ensures match RunRevision.ReviseRunDraft(old(runs), id, revision, input, enabled, now)
              case Err(e) => r == Err(e) && runs == old(runs)
              case Ok(run) => r == Ok(run.current) && runs == Replace(old(runs), run)
    {
      var found := Find(runs, id);
      if found.None? {
        return Err(RunNotFound);
      }
      var record := found.value;
      if !record.status.Drafting? || record.current.revision != revision {
        return Err(RevisionConflict);
      }
      if |record.revisions| >= MAX_REVISIONS {
        return Err(RevisionLimit);
      }
      var refused := InputError(input, enabled);
      if refused.Some? {
        return Err(refused.value);
      }
      if record.current.profile.None? {
        return Err(LegacyReadOnly);
      }
      var draft := DraftOf(id, revision + 1, input, now);
      runs := Replace(runs, record.(current := draft, revisions := record.revisions + [draft], updatedAt := now));
      return Ok(draft);
    }

    method WriteApprovals(approval: Approval, fault: Fault) returns (error: Option<Error>)
      modifies this`queue
      ensures fault.BeforeApprovalWrite? ==> error == Some(Died) && queue == old(queue)
      ensures !fault.BeforeApprovalWrite? && !QueueAccepts(old(queue), approval) ==>
        error == Some(InvalidQueue) && queue == old(queue)
      ensures !fault.BeforeApprovalWrite? && QueueAccepts(old(queue), approval) ==>
        queue == old(queue) + [approval] && error == if fault.AfterApprovalWrite? then Some(Died) else None
    {
      if fault.BeforeApprovalWrite? {
        return Some(Died);
      }
      if !QueueAccepts(queue, approval) {
        return Some(InvalidQueue);
      }
      queue := queue + [approval];
      return if fault.AfterApprovalWrite? then Some(Died) else None;
    }

    /** Two writes, in this order, with a death possible before, between and after them. */
    method ReviseWithApproval(a: Attempt) returns (r: Result<Run, Error>)
      modifies this`runs, this`queue
      ensures RunRevision.ReviseRunWithApproval(old(Files()), a) == Outcome(Files(), r)
    {
      hide InputError, SameDraftInput, DraftOf, ApprovalOf, PromptTokens, RunRevision.ReviseRunDraft;
      if a.input.projectId !in a.enabled {
        return Err(ProjectNotFound);
      }
      var before := Find(runs, a.runId);
      if before.None? {
        return Err(RunNotFound);
      }
      var draft: Draft;
      if before.value.status.Drafting? && before.value.current.revision == a.revision + 1 &&
         SameDraftInput(before.value.current, a.input) {
        draft := before.value.current;
      } else if a.fault.BeforeDraftWrite? {
        var outcome := RunRevision.ReviseRunDraft(runs, a.runId, a.revision, a.input, a.enabled, a.draftTime);
        return if outcome.Ok? then Err(Died) else Err(outcome.error);
      } else {
        var revised := ReviseDraft(a.runId, a.revision, a.input, a.enabled, a.draftTime);
        if revised.Err? {
          return Err(revised.error);
        }
        draft := revised.value;
      }
      if !HasApproval(queue, a.runId, draft.revision) {
        var error := WriteApprovals(ApprovalOf(draft, a.approvalTime), a.fault);
        if error.Some? {
          return Err(error.value);
        }
      }
      return Finished(Files(), a.runId);
    }

    method Prepare(c: Creation) returns (r: Result<Run, Error>)
      modifies this`runs, this`queue
      ensures RunRevision.PrepareRun(old(Files()), c) == Outcome(Files(), r)
    {
      hide InputError, DraftOf, ApprovalOf, PromptTokens;
      if c.input.projectId !in c.enabled {
        return Err(ProjectNotFound);
      }
      if !c.routeAvailable {
        return Err(RouteUnavailable);
      }
      var refused := InputError(c.input, c.enabled);
      if refused.Some? {
        return Err(refused.value);
      }
      if |runs| >= MAX_RUNS {
        return Err(RunLimit);
      }
      if c.fault.BeforeDraftWrite? {
        return Err(Died);
      }
      runs := runs + [NewRun(c)];
      var error := WriteApprovals(ApprovalOf(NewRun(c).current, c.approvalTime), c.fault);
      if error.Some? {
        return Err(error.value);
      }
      return Finished(Files(), c.id);
    }

    method CreateProd(c: Creation, verification: Option<string>) returns (reply: Reply)
      modifies this`runs, this`queue
      ensures Promotion.CreateProdDraft(old(AsSystem()), c, verification) == (AsSystem(), reply)
    {
      hide RunRevision.PrepareRun, FindPacket, LinkedElsewhere, Ready;
      if c.input.packet.None? || c.input.packet.value == "" || verification.None? || verification.value == "" {
        return Refused(EvidenceRequired);
      }
      var k := FindPacket(packets, c.input.packet.value);
      if k < 0 {
        return Refused(PromotionNotFound);
      }
      var alreadyLinked := LinkedElsewhere(runs, c.input.packet.value, None);
      if !Ready(packets[k], verification.value) || alreadyLinked {
        return Refused(NotReady);
      }
      var r := Prepare(c);
      return match r case Ok(_) => Done case Err(e) => RunRefused(e);
    }

    method ReviseProd(a: Attempt, verification: Option<string>) returns (reply: Reply)
      modifies this`runs, this`queue
      ensures Promotion.ReviseProdDraft(old(AsSystem()), a, verification) == (AsSystem(), reply)
    {
      hide RunRevision.ReviseRunWithApproval, FindPacket, LinkedElsewhere, Ready, Find;
      var existing := Find(runs, a.runId);
      if existing.None? || existing.value.current.profile != Some(Prod) || !a.input.profile.Prod? ||
         existing.value.current.packet.None? || a.input.packet != existing.value.current.packet ||
         verification.None? || verification.value == "" {
        return Refused(NotReady);
      }
      var packetId := existing.value.current.packet.value;
      var k := FindPacket(packets, packetId);
      var duplicate := LinkedElsewhere(runs, packetId, Some(a.runId));
      if k < 0 || !Ready(packets[k], verification.value) || duplicate {
        return Refused(NotReady);
      }
      var r := ReviseWithApproval(a);
      return match r case Ok(_) => Done case Err(e) => RunRefused(e);
    }
  }
}
