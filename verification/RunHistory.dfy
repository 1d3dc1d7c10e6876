/** What every operation on runs and approvals keeps: history only grows, and each approval describes its draft. */
module RunHistory {
  import opened Text
  import opened ExecutionProfile
  import opened RunRevision

  // ----- One run

  predicate SameLane(a: Draft, b: Draft) { a.profile == b.profile && a.packet == b.packet }

  /** Only a prod run names a promotion packet, and every prod run does. */
  predicate LaneOk(d: Draft) { d.packet.Some? <==> d.profile == Some(Prod) }

  predicate RevisionOk(run: Run, i: nat)
    requires i < |run.revisions|
  {
    var d := run.revisions[i];
    d.runId == run.current.runId && d.revision == i + 1 && SameLane(d, run.current)
  }

  predicate RunOk(run: Run) {
    run.revisions != [] && run.current == run.revisions[|run.revisions| - 1] && LaneOk(run.current) &&
    forall i :: 0 <= i < |run.revisions| ==> RevisionOk(run, i)
  }

  predicate Terminal(status: Status) { status.Completed? || status.Failed? || status.Cancelled? }

  /** The moves the store allows from one status to another, approval included. */
  predicate MayMove(from: Status, to: Status) {
    match from
    case Drafting => to.Approved? || to.Cancelled?
    case Approved => to.Queued? || to.Cancelled?
    case Queued => to.Running? || to.Cancelled?
    case Running => to.Completed? || to.Failed? || to.Cancelled?
    case _ => false
  }

  /** A run goes from draft through approval and the queue to running and its end, and can be cancelled until then. */
  lemma MovesAre(from: Status, to: Status)
    ensures MayMove(from, to) <==>
      (from, to) in {(Drafting, Approved), (Approved, Queued), (Queued, Running), (Running, Completed),
                     (Running, Failed)} ||
      (to == Cancelled && from !in {Completed, Failed, Cancelled})
  {
  }

  /** `later` is what `run` has become: the same lane, history only added to, and only while in draft. */
  predicate Later(run: Run, later: Run) {
    run.current.runId == later.current.runId && SameLane(run.current, later.current) &&
    run.revisions <= later.revisions &&
    (!run.status.Drafting? ==> !later.status.Drafting? && later.revisions == run.revisions) &&
    (Terminal(run.status) ==> later.status == run.status)
  }

  // ----- The two files

  /** An approval but for what deciding it changes. */
  function Undecided(a: Approval): Approval { a.(decision := Pending, rest := 0) }

  predicate Describes(a: Approval, d: Draft) { Undecided(a) == ApprovalOf(d, a.createdAt) }

  /** An approval for a run is for a revision that run has, and says what that revision says. */
  predicate ApprovalOk(runs: seq<Run>, a: Approval) {
    a.subject.Some? ==>
      var (id, revision) := a.subject.value;
      exists i :: 0 <= i < |runs| && ApprovedBy(runs[i], id, revision, a)
  }

  predicate ApprovedBy(run: Run, id: string, revision: nat, a: Approval) {
    run.current.runId == id && 1 <= revision <= |run.revisions| && Describes(a, run.revisions[revision - 1])
  }

  predicate UniqueIds(runs: seq<Run>) {
    forall i, j :: 0 <= i < j < |runs| ==> runs[i].current.runId != runs[j].current.runId
  }

  /** No run revision has two approvals. */
  predicate OneApprovalEach(queue: seq<Approval>) {
    forall j, k :: 0 <= j < k < |queue| && queue[j].subject.Some? ==> queue[j].subject != queue[k].subject
  }

  predicate StoreOk(s: Store) {
    QueueFits(s.queue) && UniqueIds(s.runs) && (forall i :: 0 <= i < |s.runs| ==> RunOk(s.runs[i])) &&
    OneApprovalEach(s.queue) && (forall k :: 0 <= k < |s.queue| ==> ApprovalOk(s.runs, s.queue[k]))
  }

  /** Every run is still there, later; every approval too, still for the same subject. */
  predicate Grows(s: Store, t: Store) {
    RunsGrow(s.runs, t.runs) &&
    |s.queue| <= |t.queue| &&
    forall k :: 0 <= k < |s.queue| ==> Undecided(t.queue[k]) == Undecided(s.queue[k])
  }

  predicate RunsGrow(before: seq<Run>, after: seq<Run>) {
    |before| <= |after| && forall i :: 0 <= i < |before| ==> Later(before[i], after[i])
  }

  lemma RunsGrowTransitive(a: seq<Run>, b: seq<Run>, c: seq<Run>)
    requires RunsGrow(a, b) && RunsGrow(b, c)
    ensures RunsGrow(a, c)
  {
    forall i | 0 <= i < |a| ensures Later(a[i], c[i]) {
      assert Later(a[i], b[i]) && Later(b[i], c[i]);
    }
  }

  lemma GrowsTransitive(s: Store, t: Store, u: Store)
    requires Grows(s, t) && Grows(t, u)
    ensures Grows(s, u)
  {
    hide RunsGrow;
    RunsGrowTransitive(s.runs, t.runs, u.runs);
  }

  // ----- What the steps keep

  lemma ApprovalStays(before: seq<Run>, after: seq<Run>, a: Approval)
    requires RunsGrow(before, after) && ApprovalOk(before, a)
    ensures ApprovalOk(after, a)
  {
    hide Describes, SameLane;
    if a.subject.Some? {
      var (id, revision) := a.subject.value;
      var i :| 0 <= i < |before| && ApprovedBy(before[i], id, revision, a);
      assert Later(before[i], after[i]);
      assert ApprovedBy(after[i], id, revision, a);
    }
  }

  /** Growing runs that stay well formed keep the store well formed. */
  lemma RunsReplaced(s: Store, runs: seq<Run>)
    requires StoreOk(s) && RunsGrow(s.runs, runs) && UniqueIds(runs)
    requires forall i :: 0 <= i < |runs| ==> RunOk(runs[i])
    ensures StoreOk(s.(runs := runs)) && Grows(s, s.(runs := runs))
  {
    hide ApprovalOk, RunsGrow, RunOk, QueueFits;
    forall k | 0 <= k < |s.queue| ensures ApprovalOk(runs, s.queue[k]) {
      ApprovalStays(s.runs, runs, s.queue[k]);
    }
  }

  lemma RunReplaced(s: Store, i: nat, run: Run)
    requires StoreOk(s) && i < |s.runs| && Later(s.runs[i], run) && RunOk(run)
    ensures var t := s.(runs := Replace(s.runs, run));
      t.runs == s.runs[i := run] && StoreOk(t) && Grows(s, t)
  {
    hide RunOk, ApprovalOk, QueueFits;
    var runs := Replace(s.runs, run);
    forall k | 0 <= k < |runs| ensures runs[k] == s.runs[i := run][k] && Later(s.runs[k], runs[k]) {
    }
    RunsReplaced(s, runs);
  }

  lemma ApprovalAdded(s: Store, i: nat, run: Run, d: Draft, now: Time)
    requires StoreOk(s) && i < |s.runs| && s.runs[i] == run && run.current == d
    requires !HasApproval(s.queue, d.runId, d.revision) && QueueFits(s.queue + [ApprovalOf(d, now)])
    ensures var t := s.(queue := s.queue + [ApprovalOf(d, now)]);
      StoreOk(t) && Grows(s, t)
  {
    hide DraftOf, QueueFits;
    var a := ApprovalOf(d, now);
    var queue := s.queue + [a];
    assert RunOk(run) && RevisionOk(run, |run.revisions| - 1);
    assert ApprovedBy(s.runs[i], d.runId, d.revision, a);
    forall j, k | 0 <= j < k < |queue| && queue[j].subject.Some? ensures queue[j].subject != queue[k].subject {
      if k == |s.queue| {
        assert !IsFor(s.queue[j], d.runId, d.revision);
      }
    }
    forall k | 0 <= k < |s.runs| ensures Later(s.runs[k], s.runs[k]) {
    }
  }

  lemma FindIndex(runs: seq<Run>, id: string) returns (i: nat)
    requires Find(runs, id).Some?
    ensures i < |runs| && runs[i] == Find(runs, id).value && runs[i].current.runId == id
  {
    i :| 0 <= i < |runs| && runs[i] == Find(runs, id).value;
  }

  /** The input asks for the lane the run is already in. */
  predicate KeepsLane(s: Store, a: Attempt) {
    var run := Find(s.runs, a.runId);
    run.Some? && run.value.current.profile.Some? ==>
      run.value.current.profile == Some(a.input.profile) && run.value.current.packet == a.input.packet
  }

  lemma RevisedRunOk(run: Run, a: Attempt)
    requires RunOk(run) && run.status.Drafting? && run.current.revision == a.revision && run.current.runId == a.runId
    requires run.current.profile == Some(a.input.profile) && run.current.packet == a.input.packet
    ensures var d := DraftOf(a.runId, a.revision + 1, a.input, a.draftTime);
      var revised := run.(current := d, revisions := run.revisions + [d], updatedAt := a.draftTime);
      RunOk(revised) && Later(run, revised)
  {
    hide PromptTokens;
    var d := DraftOf(a.runId, a.revision + 1, a.input, a.draftTime);
    var revised := run.(current := d, revisions := run.revisions + [d], updatedAt := a.draftTime);
    assert RevisionOk(run, |run.revisions| - 1);
    forall i | 0 <= i < |revised.revisions| ensures RevisionOk(revised, i) {
      if i < |run.revisions| {
        assert RevisionOk(run, i);
      }
    }
  }

  lemma DraftStepKeeps(s: Store, a: Attempt)
    requires StoreOk(s) && KeepsLane(s, a) && DraftStep(s, a).Ok?
    ensures StoreOk(DraftStep(s, a).value.0) && Grows(s, DraftStep(s, a).value.0)
  {
    hide PromptTokens, InputError, SameDraftInput, Find, RunOk, ApprovalOk, QueueFits;
    var i := FindIndex(s.runs, a.runId);
    assert RunOk(s.runs[i]);
    forall k | 0 <= k < |s.runs| ensures Later(s.runs[k], s.runs[k]) {
    }
    var revised := ReviseRunDraft(s.runs, a.runId, a.revision, a.input, a.enabled, a.draftTime);
    if revised.Ok? {
      RevisedRunOk(s.runs[i], a);
      RunReplaced(s, i, revised.value);
    }
  }

  /** A revision in the run's own lane keeps the store, wherever it dies, and only adds to it. */
  lemma ReviseKeeps(s: Store, a: Attempt)
    requires StoreOk(s) && KeepsLane(s, a)
    ensures StoreOk(ReviseRunWithApproval(s, a).store) && Grows(s, ReviseRunWithApproval(s, a).store)
  {
    hide StoreOk, SameDraftInput, Find, DraftStep, HasApproval, ApprovalOf, RunsGrow, QueueFits;
    RunsGrowReflexive(s.runs);
    if DraftStep(s, a).Ok? {
      var (t, d) := DraftStep(s, a).value;
      DraftStepLeaves(s, a);
      DraftStepKeeps(s, a);
      RunsGrowReflexive(t.runs);
      var i := FindIndex(t.runs, a.runId);
      if !HasApproval(t.queue, a.runId, d.revision) && QueueAccepts(t.queue, ApprovalOf(d, a.approvalTime)) {
        ApprovalAdded(t, i, t.runs[i], d, a.approvalTime);
        GrowsTransitive(s, t, t.(queue := t.queue + [ApprovalOf(d, a.approvalTime)]));
      }
    }
  }

  lemma RunsGrowReflexive(runs: seq<Run>)
    ensures RunsGrow(runs, runs)
  {
  }

  lemma RunAdded(s: Store, run: Run)
    requires StoreOk(s) && RunOk(run) && Find(s.runs, run.current.runId).None?
    ensures StoreOk(s.(runs := s.runs + [run])) && Grows(s, s.(runs := s.runs + [run]))
  {
    hide RunOk, QueueFits;
    RunsReplaced(s, s.runs + [run]);
  }

  /** Creating a run under an id no run has keeps the store, wherever it dies. */
  lemma PrepareKeeps(s: Store, c: Creation)
    requires StoreOk(s) && Find(s.runs, c.id).None?
    ensures StoreOk(PrepareRun(s, c).store) && Grows(s, PrepareRun(s, c).store)
  {
    hide InputError, PromptTokens, Find, ApprovalOk, RunsGrow, QueueFits;
    RunsGrowReflexive(s.runs);
    var run := NewRun(c);
    var t := s.(runs := s.runs + [run]);
    if InputError(c.input, c.enabled).None? {
      NewRunOk(c);
      RunAdded(s, run);
      NewRunUnapproved(s, c);
      if QueueAccepts(s.queue, ApprovalOf(run.current, c.approvalTime)) {
        ApprovalAdded(t, |s.runs|, run, run.current, c.approvalTime);
        GrowsTransitive(s, t, t.(queue := t.queue + [ApprovalOf(run.current, c.approvalTime)]));
      }
    }
  }

  lemma NewRunOk(c: Creation)
    requires InputError(c.input, c.enabled).None?
    ensures RunOk(NewRun(c)) && LaneOk(NewRun(c).current)
  {
    hide PromptTokens;
    assert RevisionOk(NewRun(c), 0);
  }

  lemma NewRunUnapproved(s: Store, c: Creation)
    requires StoreOk(s) && Find(s.runs, c.id).None?
    ensures !HasApproval(s.queue, c.id, 1)
  {
    hide RunOk, Find;
    forall k | 0 <= k < |s.queue| ensures !IsFor(s.queue[k], c.id, 1) {
      assert ApprovalOk(s.runs, s.queue[k]);
    }
  }

  // ----- The other operations on the two files

  /** Approving, queueing, running, finishing or cancelling a run: its status, and nothing that was drafted. */
  function MoveRun(s: Store, id: string, to: Status, now: Time): Store {
    match Find(s.runs, id)
    case Some(run) =>
      if MayMove(run.status, to) && run.current.profile.Some? then
        s.(runs := Replace(s.runs, run.(status := to, updatedAt := now)))
      else s
    case None => s
  }

  /** A decision adds its time and reason to the record, `more` bytes, unless the file gets too large for that. */
  function DecideApproval(s: Store, k: nat, decision: Decision, more: nat): Store {
    if k < |s.queue| && s.queue[k].decision.Pending? && !decision.Pending? then
      var queue := s.queue[k := s.queue[k].(decision := decision, rest := s.queue[k].rest + more)];
      if QueueFits(queue) then s.(queue := queue) else s
    else s
  }

  /** An approval asked for by hand names no run. */
  function SubmitApproval(s: Store, a: Approval): Store {
    var byHand := a.(subject := None);
    if QueueAccepts(s.queue, byHand) then s.(queue := s.queue + [byHand]) else s
  }

  lemma MoveKeeps(s: Store, id: string, to: Status, now: Time)
    requires StoreOk(s)
    ensures StoreOk(MoveRun(s, id, to, now)) && Grows(s, MoveRun(s, id, to, now))
  {
    hide Find, ApprovalOk;
    RunsGrowReflexive(s.runs);
    if Find(s.runs, id).Some? {
      var i := FindIndex(s.runs, id);
      var moved := s.runs[i].(status := to, updatedAt := now);
      if MayMove(s.runs[i].status, to) {
        MovedRunOk(s.runs[i], to, now);
        RunReplaced(s, i, moved);
      }
    }
  }

  lemma MovedRunOk(run: Run, to: Status, now: Time)
    requires RunOk(run) && MayMove(run.status, to)
    ensures RunOk(run.(status := to, updatedAt := now)) && Later(run, run.(status := to, updatedAt := now))
  {
    var moved := run.(status := to, updatedAt := now);
    forall i | 0 <= i < |run.revisions| ensures RevisionOk(moved, i) {
      assert RevisionOk(run, i);
    }
  }

  lemma DecideKeeps(s: Store, k: nat, decision: Decision, more: nat)
    requires StoreOk(s)
    ensures StoreOk(DecideApproval(s, k, decision, more)) && Grows(s, DecideApproval(s, k, decision, more))
  {
    hide RunOk, QueueFits;
    RunsGrowReflexive(s.runs);
    var t := DecideApproval(s, k, decision, more);
    forall j | 0 <= j < |t.queue| ensures ApprovalOk(t.runs, t.queue[j]) {
      assert ApprovalOk(s.runs, s.queue[j]);
      if t.queue[j].subject.Some? {
        var (id, revision) := t.queue[j].subject.value;
        var i :| 0 <= i < |s.runs| && ApprovedBy(s.runs[i], id, revision, s.queue[j]);
        assert ApprovedBy(t.runs[i], id, revision, t.queue[j]);
      }
    }
  }

  lemma SubmitKeeps(s: Store, a: Approval)
    requires StoreOk(s)
    ensures StoreOk(SubmitApproval(s, a)) && Grows(s, SubmitApproval(s, a))
  {
    hide RunOk, QueueFits;
    RunsGrowReflexive(s.runs);
    var t := SubmitApproval(s, a);
    forall j | 0 <= j < |t.queue| ensures ApprovalOk(t.runs, t.queue[j]) {
      if j < |s.queue| {
        assert ApprovalOk(s.runs, s.queue[j]);
      }
    }
  }
}
