/** When runs are created, revised, moved and approved, in plain numbers, and what a stored approval takes. */
module RunRules {
  import opened Text
  import opened RunRevision
  import opened RunHistory

  /** There is room in the queue file for one more approval, and its model, if it names one, has a name. */
  predicate Takes(queue: seq<Approval>, a: Approval) {
    |queue| < 512 && QueueBytes(queue + [a]) <= 1048576 && (a.model.Some? ==> |a.model.value| > 0)
  }

  lemma TakenExactly(queue: seq<Approval>, a: Approval)
    ensures QueueAccepts(queue, a) <==> Takes(queue, a)
  {
    hide QueueBytes;
  }

  /**
   * A run is created, when nothing dies, exactly when its project is enabled, its route available and its input fine,
   * there are fewer than 256 runs, and the queue takes its approval.
   */
  lemma CreatedExactly(s: Store, c: Creation)
    requires c.fault == NoFault && Find(s.runs, c.id) == None
    ensures PrepareRun(s, c).result.Ok? <==>
      c.input.projectId in c.enabled && c.routeAvailable && InputError(c.input, c.enabled) == None && |s.runs| < 256 &&
      Takes(s.queue, ApprovalOf(NewRun(c).current, c.approvalTime))
    ensures PrepareRun(s, c).result.Ok? ==>
      PrepareRun(s, c) == Outcome(Store(s.runs + [NewRun(c)],
                                        s.queue + [ApprovalOf(NewRun(c).current, c.approvalTime)]), Ok(NewRun(c)))
  {
    hide InputError, QueueAccepts, Takes, ApprovalOf, PromptTokens, Find;
    TakenExactly(s.queue, ApprovalOf(NewRun(c).current, c.approvalTime));
    FindAppended(s.runs, NewRun(c), c.id);
  }

  /** A run is revised while in draft, at the revision named, with fewer than twenty of them and a profile. */
  lemma RevisedExactly(runs: seq<Run>, id: string, revision: nat, input: Input, enabled: set<string>, now: Time)
    ensures var r := ReviseRunDraft(runs, id, revision, input, enabled, now);
      (r.Ok? <==>
         exists run :: Find(runs, id) == Some(run) && run.status == Drafting && run.current.revision == revision &&
           |run.revisions| < 20 && InputError(input, enabled) == None && run.current.profile != None) &&
      (r.Ok? ==>
         var run, d := Find(runs, id).value, DraftOf(id, revision + 1, input, now);
         r.value == RunRevision.Run(d, run.revisions + [d], Drafting, now))
  {
    hide InputError, Find, DraftOf;
  }

  /** Two requests are the same when all they ask for is, but for the estimate and the times. */
  lemma SameRequestIs(a: Attempt, b: Attempt)
    ensures SameRequest(a, b) <==>
      a.runId == b.runId && a.revision == b.revision && a.input.projectId == b.input.projectId &&
      a.input.prompt == b.input.prompt && a.input.provider == b.input.provider && a.input.model == b.input.model &&
      a.input.artifacts == b.input.artifacts && a.input.reviewed == b.input.reviewed &&
      a.input.profile == b.input.profile && a.input.effort == b.input.effort && a.input.packet == b.input.packet
  {
  }

  /** A draft is the one a request would make when it says what that asks, its budget worked out from the prompt. */
  lemma SameDraftIs(d: Draft, input: Input)
    ensures SameDraftInput(d, input) <==>
      d.projectId == input.projectId && d.prompt == input.prompt && d.provider == input.provider &&
      d.model == input.model && d.estimatedTokens == PromptTokens(input.prompt) + 8192 &&
      d.artifacts == input.artifacts && d.reviewed == input.reviewed && d.profile == Some(input.profile) &&
      d.effort == input.effort && d.packet == input.packet
  {
    hide PromptTokens;
  }

  /** A run is moved exactly when its status may go there and it has a profile; its status and time change alone. */
  lemma MovedExactly(s: Store, id: string, to: Status, now: Time)
    ensures MoveRun(s, id, to, now) ==
      var run := Find(s.runs, id);
      if run.Some? && MayMove(run.value.status, to) && run.value.current.profile != None then
        Store(Replace(s.runs, RunRevision.Run(run.value.current, run.value.revisions, to, now)), s.queue)
      else s
  {
    hide MayMove, Find;
  }

  /** A pending approval is accepted or rejected once, as long as the file still fits with the decision in it. */
  lemma DecidedExactly(s: Store, k: nat, decision: Decision, more: nat)
    ensures k >= |s.queue| || decision == Pending ==> DecideApproval(s, k, decision, more) == s
    ensures k < |s.queue| && decision != Pending ==>
      var a := s.queue[k];
      var decided := s.queue[k := a.(decision := decision, rest := a.rest + more)];
      DecideApproval(s, k, decision, more) ==
        if a.decision == Pending && |s.queue| <= 512 && QueueBytes(decided) <= 1048576 then Store(s.runs, decided)
        else s
  {
    hide QueueBytes;
  }

  // ----- What the queue file takes

  /** Bytes of a character in JSON: an escape of two, an escape of six, or its UTF-8 form. */
  lemma CharBytesAre(c: char)
    ensures CharBytes(c) ==
      if c in {'"', '\\', '\n', '\r', '\t', '\U{8}', '\U{C}'} then 2
      else if c < ' ' then 6
      else if c <= '\U{7F}' then 1
      else if c <= '\U{7FF}' then 2
      else if c <= '\U{FFFF}' then 3
      else 4
  {
  }

  function Ten(k: nat): nat { if k == 0 then 1 else 10 * Ten(k - 1) }

  /** A number has as many digits as it takes powers of ten to pass it. */
  lemma {:induction false} DigitsAre(n: nat)
    ensures Digits(n) >= 1 && n < Ten(Digits(n)) && (n > 0 ==> Ten(Digits(n) - 1) <= n)
  {
    if n >= 10 {
      DigitsAre(n / 10);
    }
  }

  /** The record of an approval whose texts are all empty, line by line as it is printed. */
  lemma FrameBytes()
    ensures RecordBytes(Approval(Some(("", 1)), "", Some(""), "", 0, 0, 0, true, Pending, 0, 0)) ==
      |"    {\n"| + |"      \"schema_version\": \"v1\",\n"| + |"      \"approval_id\": \"run-approval--1\",\n"| +
      |"      \"run_id\": \"\",\n"| + |"      \"revision\": 1,\n"| + |"      \"session_id\": \"\",\n"| +
      |"      \"vendor\": \"\",\n"| + |"      \"model\": \"\",\n"| + |"      \"skill_ids\": [],\n"| +
      |"      \"prompt_preview\": \"\",\n"| + |"      \"prompt_file\": null,\n"| +
      |"      \"estimated_tokens\": 0,\n"| + |"      \"input_token_bound\": 0,\n"| +
      |"      \"output_token_allowance\": 0,\n"| + |"      \"prompt_review_acknowledged\": true,\n"| +
      |"      \"status\": \"pending\",\n"| + |"      \"created_at\": \"2026-01-01T00:00:00.000Z\",\n"| +
      |"      \"decided_at\": null,\n"| + |"      \"rejection_reason\": null\n"| + |"    }"|
  {
    hide RecordBytes;
    EmptyRecord();
  }

  /** The file around its records: none, one, and the comma and line break before one more. */
  lemma QueueFrame(a: Approval, b: Approval)
    ensures QueueBytes([]) == |"{\n  \"schema_version\": \"v1\",\n  \"records\": []\n}\n"|
    ensures QueueBytes([a]) ==
      |"{\n  \"schema_version\": \"v1\",\n  \"records\": [\n"| + RecordBytes(a) + |"\n  ]\n}\n"|
    ensures QueueBytes([a, b]) == QueueBytes([a]) + RecordBytes(b) + |",\n"|
  {
    hide RecordBytes;
    RecordsAppended([], a);
    RecordsAppended([a], b);
    assert [] + [a] == [a] && [a] + [b] == [a, b];
    assert RecordsBytes([]) == 0;
  }

  lemma EmptyRecord()
    ensures RecordBytes(Approval(Some(("", 1)), "", Some(""), "", 0, 0, 0, true, Pending, 0, 0)) == 531
  {
    assert Digits(0) == 1 && Digits(1) == 1;
  }
}
