/** Drafting and revising runs: two files written one after the other, with a death possible around each write. */
module RunRevision {
  import opened Text
  import opened ExecutionProfile

  type Time = int

  datatype ArtifactType = TextArtifact | VisualArtifact

  datatype Status = Drafting | Approved | Queued | Running | Completed | Failed | Cancelled

  /** `profile` is absent on a run stored before profiles existed. */
  datatype Draft = Draft(
    runId: string, revision: nat, projectId: string, prompt: string, provider: Provider, model: Option<string>,
    estimatedTokens: nat, inputBound: nat, outputAllowance: nat, artifacts: seq<ArtifactType>, reviewed: bool,
    profile: Option<Profile>, effort: Option<Effort>, packet: Option<string>, createdAt: Time)

  datatype Input = Input(
    projectId: string, prompt: string, provider: Provider, model: Option<string>, estimatedTokens: int,
    artifacts: seq<ArtifactType>, reviewed: bool, profile: Profile, effort: Option<Effort>, packet: Option<string>)

  datatype Run = Run(current: Draft, revisions: seq<Draft>, status: Status, updatedAt: Time)

  datatype Decision = Pending | Accepted | Rejected

  /**
   * `subject` is the run and revision the approval is for; approvals submitted by hand have none. `rest` is what the
   * fields that are not modelled, such as the reason of a rejection, add to the size of the record.
   */
  datatype Approval = Approval(
    subject: Option<(string, nat)>, vendor: string, model: Option<string>, preview: string, estimatedTokens: nat,
    inputBound: nat, outputAllowance: nat, reviewed: bool, decision: Decision, createdAt: Time, rest: nat)

  datatype Store = Store(runs: seq<Run>, queue: seq<Approval>)

  datatype Error = ProjectNotFound | RunNotFound | RevisionConflict | RevisionLimit | RunLimit | PromptCapExceeded
                 | PromptReviewRequired | BudgetUnderestimated | InvalidDraft | LegacyReadOnly | InvalidQueue
                 | RouteUnavailable | Died

  const MAX_RUNS := 256
  const MAX_REVISIONS := 20
  const MAX_ID := 256
  const MAX_MODEL := 256
  const MAX_APPROVALS := 512
  const MAX_QUEUE_BYTES := 1048576
  const MAX_PREVIEW := 500
  const PROMPT_HARD_CAP := 9000
  const PROMPT_REVIEW_THRESHOLD := 1000
  const OUTPUT_ALLOWANCE := 8192

  // ----- Prompt policy and the fields of a draft

  /** Bytes of the UTF-8 form: the conservative token count of a prompt. */
  function PromptTokens(prompt: string): nat {
    if prompt == [] then 0
    else
      var n := prompt[0] as int;
      (if n < 0x80 then 1 else if n < 0x800 then 2 else if n < 0x10000 then 3 else 4) + PromptTokens(prompt[1..])
  }

  function CanonicalBudget(prompt: string): nat { PromptTokens(prompt) + OUTPUT_ALLOWANCE }

  predicate NoRepeats<T(==)>(s: seq<T>) { forall i, j :: 0 <= i < j < |s| ==> s[i] != s[j] }

  /** The checks shared by drafting and revising, in the order the code makes them. */
  function InputError(input: Input, enabled: set<string>): Option<Error> {
    if input.projectId !in enabled then Some(ProjectNotFound)
    else if PromptTokens(input.prompt) >= PROMPT_HARD_CAP then Some(PromptCapExceeded)
    else if PromptTokens(input.prompt) > PROMPT_REVIEW_THRESHOLD && !input.reviewed then Some(PromptReviewRequired)
    else if input.estimatedTokens < CanonicalBudget(input.prompt) then Some(BudgetUnderestimated)
    else if input.effort.Some? && input.effort.value !in SupportedEfforts(input.provider) then Some(InvalidDraft)
    else if input.profile.Dev? && input.packet.Some? then Some(InvalidDraft)
    else if input.profile.Prod? && !(input.packet.Some? && 0 < |input.packet.value| <= MAX_ID) then Some(InvalidDraft)
    else if input.model.Some? && |input.model.value| > MAX_MODEL then Some(InvalidDraft)
    else if |input.artifacts| > 2 || !NoRepeats(input.artifacts) then Some(InvalidDraft)
    else None
  }

  function DraftOf(runId: string, revision: nat, input: Input, now: Time): Draft {
    Draft(runId, revision, input.projectId, input.prompt, input.provider, input.model, CanonicalBudget(input.prompt),
          PromptTokens(input.prompt), OUTPUT_ALLOWANCE, input.artifacts, input.reviewed, Some(input.profile),
          input.effort, input.packet, now)
  }

  /** Tokens of the prompt one character at a time: one to four bytes by the size of its code. */
  lemma TokensOfOneMore(c: char, rest: string)
    ensures PromptTokens("") == 0
    ensures PromptTokens([c] + rest) == PromptTokens(rest) +
      if c as int <= 127 then 1 else if c as int <= 2047 then 2 else if c as int <= 65535 then 3 else 4
  {
    assert ([c] + rest)[1..] == rest;
  }

  /** The efforts a provider has: all six on Codex, five on Claude, three on the CLI by model, none on OpenRouter. */
  lemma EffortsAre(e: Effort)
    ensures e in SupportedEfforts(CodexCli)
    ensures e in SupportedEfforts(ClaudeCli) <==> e != Ultra
    ensures e in SupportedEfforts(AgyCli) <==> e == Low || e == Medium || e == High
    ensures e !in SupportedEfforts(OpenRouterApi)
  {
  }

  /**
   * When an input can be drafted: its project is enabled; its prompt is under nine thousand tokens, and reviewed if it
   * is over a thousand; the estimate covers the prompt and 8192 tokens of output; the provider has the effort asked
   * for; a prod input names a packet and a dev input none; the model's name has at most 256 characters; and at most two
   * different artifacts are asked for.
   */
  lemma InputAccepted(input: Input, enabled: set<string>)
    ensures InputError(input, enabled).None? <==>
      input.projectId in enabled && PromptTokens(input.prompt) < 9000 &&
      (input.reviewed || PromptTokens(input.prompt) <= 1000) &&
      input.estimatedTokens >= PromptTokens(input.prompt) + 8192 &&
      (input.effort.Some? ==> input.effort.value in SupportedEfforts(input.provider)) &&
      (input.profile == Dev ==> input.packet == None) &&
      (input.profile == Prod ==> input.packet.Some? && 1 <= |input.packet.value| <= 256) &&
      (input.model.Some? ==> |input.model.value| <= 256) &&
      (|input.artifacts| <= 1 || (|input.artifacts| == 2 && input.artifacts[0] != input.artifacts[1]))
    ensures InputError(input, enabled).Some? ==>
      InputError(input, enabled).value ==
      if input.projectId !in enabled then ProjectNotFound
      else if PromptTokens(input.prompt) >= 9000 then PromptCapExceeded
      else if PromptTokens(input.prompt) > 1000 && !input.reviewed then PromptReviewRequired
      else if input.estimatedTokens < PromptTokens(input.prompt) + 8192 then BudgetUnderestimated
      else InvalidDraft
  {
    hide PromptTokens, SupportedEfforts;
  }

  /** Whether a stored draft is what this input would have produced; the token estimate offered is not compared. */
  predicate SameDraftInput(d: Draft, input: Input) {
    d.projectId == input.projectId && d.prompt == input.prompt && d.provider == input.provider &&
    d.model == input.model && d.estimatedTokens == CanonicalBudget(input.prompt) && d.artifacts == input.artifacts &&
    d.reviewed == input.reviewed && d.profile == Some(input.profile) && d.effort == input.effort &&
    d.packet == input.packet
  }

  // ----- The run store

  function Find(runs: seq<Run>, id: string): (r: Option<Run>)
    ensures r.Some? ==> r.value in runs && r.value.current.runId == id
    ensures r.None? ==> forall k :: 0 <= k < |runs| ==> runs[k].current.runId != id
  {
    if runs == [] then None
    else if runs[0].current.runId == id then Some(runs[0])
    else Find(runs[1..], id)
  }

  function Replace(runs: seq<Run>, run: Run): (r: seq<Run>)
    ensures |r| == |runs|
    ensures forall k :: 0 <= k < |runs| ==>
      r[k] == if runs[k].current.runId == run.current.runId then run else runs[k]
  {
    seq(|runs|, k requires 0 <= k < |runs| => if runs[k].current.runId == run.current.runId then run else runs[k])
  }

  lemma {:induction false} FindReplaced(runs: seq<Run>, run: Run, id: string)
    ensures Find(Replace(runs, run), id) ==
      if id == run.current.runId && Find(runs, id).Some? then Some(run) else Find(runs, id)
  {
    if runs != [] {
      FindReplaced(runs[1..], run, id);
      assert Replace(runs, run)[1..] == Replace(runs[1..], run);
    }
  }

  lemma {:induction false} FindAppended(runs: seq<Run>, run: Run, id: string)
    ensures Find(runs + [run], id) ==
      if Find(runs, id).Some? then Find(runs, id) else if id == run.current.runId then Some(run) else None
  {
    if runs == [] {
      assert runs + [run] == [run];
    } else {
      FindAppended(runs[1..], run, id);
      assert (runs + [run])[1..] == runs[1..] + [run];
    }
  }

  function ReviseRunDraft(runs: seq<Run>, id: string, revision: nat, input: Input, enabled: set<string>, now: Time)
    : Result<Run, Error>
  {
    match Find(runs, id)
    case None => Err(RunNotFound)
    case Some(run) =>
      if !run.status.Drafting? || run.current.revision != revision then Err(RevisionConflict)
      else if |run.revisions| >= MAX_REVISIONS then Err(RevisionLimit)
      else if InputError(input, enabled).Some? then Err(InputError(input, enabled).value)
      else if run.current.profile.None? then Err(LegacyReadOnly)
      else
        var draft := DraftOf(id, revision + 1, input, now);
        Ok(run.(current := draft, revisions := run.revisions + [draft], updatedAt := now))
  }

  // ----- The approval queue

  predicate IsFor(a: Approval, id: string, revision: nat) { a.subject == Some((id, revision)) }

  predicate HasApproval(queue: seq<Approval>, id: string, revision: nat) {
    exists k :: 0 <= k < |queue| && IsFor(queue[k], id, revision)
  }

  function VendorName(p: Provider): string {
    match p
    case CodexCli => "codex_cli"
    case ClaudeCli => "claude_cli"
    case AgyCli => "agy_cli"
    case OpenRouterApi => "openrouter_api"
  }

  function ApprovalOf(d: Draft, now: Time): Approval {
    Approval(Some((d.runId, d.revision)), VendorName(d.provider), d.model,
             if |d.prompt| <= MAX_PREVIEW then d.prompt else d.prompt[..MAX_PREVIEW],
             d.estimatedTokens, d.inputBound, d.outputAllowance, d.reviewed, Pending, now, 0)
  }

  /**
   * What an approval says is what the draft says: its run and revision, vendor and model, the prompt's beginning, the
   * three token counts and the review; it is pending, and of this time.
   */
  lemma ApprovalSays(d: Draft, now: Time)
    ensures var a := ApprovalOf(d, now);
      a.subject == Some((d.runId, d.revision)) && a.model == d.model && a.estimatedTokens == d.estimatedTokens &&
      a.inputBound == d.inputBound && a.outputAllowance == d.outputAllowance && a.reviewed == d.reviewed &&
      a.decision == Pending && a.createdAt == now && a.rest == 0 &&
      |a.preview| == (if |d.prompt| > 500 then 500 else |d.prompt|) && a.preview <= d.prompt &&
      a.vendor == match d.provider
        case CodexCli => "codex_cli"
        case ClaudeCli => "claude_cli"
        case AgyCli => "agy_cli"
        case OpenRouterApi => "openrouter_api"
  {
  }

  /** A new draft says what the input asks, with the budget worked out from the prompt. */
  lemma DraftSays(id: string, revision: nat, input: Input, now: Time)
    ensures DraftOf(id, revision, input, now) ==
      Draft(id, revision, input.projectId, input.prompt, input.provider, input.model,
            PromptTokens(input.prompt) + 8192, PromptTokens(input.prompt), 8192, input.artifacts, input.reviewed,
            Some(input.profile), input.effort, input.packet, now)
  {
    hide PromptTokens;
  }

  /** Bytes of a character inside a JSON string. */
  function CharBytes(c: char): nat {
    var n := c as int;
    if c in "\"\\\n\r\t" || n == 8 || n == 12 then 2
    else if n < 0x20 then 6
    else if n < 0x80 then 1
    else if n < 0x800 then 2
    else if n < 0x10000 then 3
    else 4
  }

  function TextBytes(s: string): nat { if s == "" then 0 else CharBytes(s[0]) + TextBytes(s[1..]) }

  function QuotedBytes(s: string): nat { 2 + TextBytes(s) }

  function Digits(n: nat): nat { if n < 10 then 1 else 1 + Digits(n / 10) }

  /** Bytes of `"name": value` on an indented line of its own, with the comma and the line break. */
  function Line(name: string, value: nat): nat { 12 + |name| + value }

  /** The fields by which an approval names its run; an approval for no run has the texts of the others in `rest`. */
  function SubjectBytes(subject: Option<(string, nat)>): nat {
    match subject
    case Some((id, revision)) =>
      Line("approval_id", 16 + TextBytes(id) + Digits(revision)) + Line("run_id", QuotedBytes(id)) +
      Line("revision", Digits(revision)) + Line("session_id", QuotedBytes(id))
    case None => Line("approval_id", 2) + Line("run_id", 4) + Line("revision", 4) + Line("session_id", 2)
  }

  /** One record of the queue as it is printed, with two blanks of indentation. */
  function RecordBytes(a: Approval): nat {
    10 + Line("schema_version", 4) + SubjectBytes(a.subject) + Line("vendor", QuotedBytes(a.vendor)) +
    Line("model", if a.model.None? then 4 else QuotedBytes(a.model.value)) + Line("skill_ids", 2) +
    Line("prompt_preview", QuotedBytes(a.preview)) + Line("prompt_file", 4) +
    Line("estimated_tokens", Digits(a.estimatedTokens)) + Line("input_token_bound", Digits(a.inputBound)) +
    Line("output_token_allowance", Digits(a.outputAllowance)) +
    Line("prompt_review_acknowledged", if a.reviewed then 4 else 5) +
    Line("status", if a.decision.Pending? then 9 else 10) + Line("created_at", 26) + Line("decided_at", 4) +
    Line("rejection_reason", 4) + a.rest
  }

  function RecordsBytes(queue: seq<Approval>): nat {
    if queue == [] then 0 else RecordBytes(queue[0]) + 2 + RecordsBytes(queue[1..])
  }

  /** The size of the queue file. */
  function QueueBytes(queue: seq<Approval>): nat { if queue == [] then 46 else 48 + RecordsBytes(queue) }

  predicate QueueFits(queue: seq<Approval>) { |queue| <= MAX_APPROVALS && QueueBytes(queue) <= MAX_QUEUE_BYTES }

  /** The queue is written unless it gets too long, its file too large, or a model name is there but empty. */
  predicate QueueAccepts(queue: seq<Approval>, a: Approval) { QueueFits(queue + [a]) && a.model != Some("") }

  // ----- One call

  /** Where a call is cut short; each file is replaced atomically, so these are the only places that matter. */
  datatype Fault = NoFault | BeforeDraftWrite | BeforeApprovalWrite | AfterApprovalWrite

  datatype Attempt = Attempt(
    runId: string, revision: nat, input: Input, enabled: set<string>, draftTime: Time, approvalTime: Time,
    fault: Fault)

  datatype Outcome = Outcome(store: Store, result: Result<Run, Error>)

  /** The first half: the draft this call works on, and the store once that draft is in it. */
  function DraftStep(s: Store, a: Attempt): Result<(Store, Draft), Error> {
    if a.input.projectId !in a.enabled then Err(ProjectNotFound)
    else match Find(s.runs, a.runId)
      case None => Err(RunNotFound)
      case Some(before) =>
        if before.status.Drafting? && before.current.revision == a.revision + 1 &&
           SameDraftInput(before.current, a.input) then
          Ok((s, before.current))
        else match ReviseRunDraft(s.runs, a.runId, a.revision, a.input, a.enabled, a.draftTime)
          case Err(e) => Err(e)
          case Ok(run) =>
            if a.fault.BeforeDraftWrite? then Err(Died)
            else Ok((s.(runs := Replace(s.runs, run)), run.current))
  }

  function Finished(s: Store, id: string): Result<Run, Error> {
    match Find(s.runs, id)
    case None => Err(RunNotFound)
    case Some(run) => Ok(run)
  }

  /** The second half: one approval for the draft, unless the queue already has it. */
  function ApprovalStep(s: Store, d: Draft, id: string, fault: Fault, now: Time): Outcome {
    if HasApproval(s.queue, id, d.revision) then Outcome(s, Finished(s, id))
    else if fault.BeforeApprovalWrite? then Outcome(s, Err(Died))
    else if !QueueAccepts(s.queue, ApprovalOf(d, now)) then Outcome(s, Err(InvalidQueue))
    else
      var written := s.(queue := s.queue + [ApprovalOf(d, now)]);
      Outcome(written, if fault.AfterApprovalWrite? then Err(Died) else Finished(written, id))
  }

  function ReviseRunWithApproval(s: Store, a: Attempt): Outcome {
    match DraftStep(s, a)
    case Err(e) => Outcome(s, Err(e))
    case Ok((drafted, draft)) => ApprovalStep(drafted, draft, a.runId, a.fault, a.approvalTime)
  }

  /** Creating a run: always a new draft and always an approval, with no look at what the queue already holds. */
  datatype Creation = Creation(
    id: string, input: Input, enabled: set<string>, routeAvailable: bool, draftTime: Time, approvalTime: Time,
    fault: Fault)

  function NewRun(c: Creation): Run {
    var d := DraftOf(c.id, 1, c.input, c.draftTime);
    Run(d, [d], Drafting, c.draftTime)
  }

  function PrepareRun(s: Store, c: Creation): Outcome {
    if c.input.projectId !in c.enabled then Outcome(s, Err(ProjectNotFound))
    else if !c.routeAvailable then Outcome(s, Err(RouteUnavailable))
    else if InputError(c.input, c.enabled).Some? then Outcome(s, Err(InputError(c.input, c.enabled).value))
    else if |s.runs| >= MAX_RUNS then Outcome(s, Err(RunLimit))
    else if c.fault.BeforeDraftWrite? then Outcome(s, Err(Died))
    else
      var drafted := s.(runs := s.runs + [NewRun(c)]);
      var approval := ApprovalOf(NewRun(c).current, c.approvalTime);
      if c.fault.BeforeApprovalWrite? then Outcome(drafted, Err(Died))
      else if !QueueAccepts(s.queue, approval) then Outcome(drafted, Err(InvalidQueue))
      else
        var written := drafted.(queue := s.queue + [approval]);
        Outcome(written, if c.fault.AfterApprovalWrite? then Err(Died) else Finished(written, c.id))
  }

  // ----- Retrying

  /** The same request, made again: everything but the token estimate, which a retry may restate. */
  predicate SameRequest(a: Attempt, b: Attempt) {
    a.runId == b.runId && a.revision == b.revision && a.input.(estimatedTokens := 0) == b.input.(estimatedTokens := 0)
  }

  /** The request of one attempt at its draft time, uninterrupted, with another attempt's approval time. */
  function Uninterrupted(drafting: Attempt, approving: Attempt): Attempt {
    drafting.(approvalTime := approving.approvalTime, fault := NoFault)
  }

  /** The outcome of making the attempts one after the other: the store, and what the last attempt returned. */
  function RunAttempts(s: Store, attempts: seq<Attempt>): Outcome
    requires attempts != []
    decreases |attempts|
  {
    var first := ReviseRunWithApproval(s, attempts[0]);
    if |attempts| == 1 then first else RunAttempts(first.store, attempts[1..])
  }

  lemma SameDraftBySameRequest(d: Draft, a: Input, b: Input)
    requires a.(estimatedTokens := 0) == b.(estimatedTokens := 0)
    ensures SameDraftInput(d, a) == SameDraftInput(d, b)
  {
    hide PromptTokens;
    var c := a.(estimatedTokens := 0);
    assert c.projectId == b.projectId && c.prompt == b.prompt && c.provider == b.provider && c.model == b.model &&
           c.artifacts == b.artifacts && c.reviewed == b.reviewed && c.profile == b.profile && c.effort == b.effort &&
           c.packet == b.packet;
  }

  lemma NewDraftIsSame(id: string, revision: nat, input: Input, now: Time)
    ensures SameDraftInput(DraftOf(id, revision, input, now), input)
  {
    hide PromptTokens;
  }

  /** What a first half that went through leaves: a run in draft at the next revision, with the input asked for. */
  ghost predicate Drafted(s: Store, d: Draft, a: Attempt) {
    var run := Find(s.runs, a.runId);
    run.Some? && run.value.status.Drafting? && run.value.current == d && d.runId == a.runId &&
    d.revision == a.revision + 1 && SameDraftInput(d, a.input)
  }

  lemma DraftStepLeaves(s: Store, a: Attempt)
    requires DraftStep(s, a).Ok?
    ensures Drafted(DraftStep(s, a).value.0, DraftStep(s, a).value.1, a)
    ensures DraftStep(s, a).value.0.queue == s.queue
  {
    hide PromptTokens, InputError, SameDraftInput, Find;
    var found := Find(s.runs, a.runId);
    var run := ReviseRunDraft(s.runs, a.runId, a.revision, a.input, a.enabled, a.draftTime);
    if run.Ok? {
      FindReplaced(s.runs, run.value, a.runId);
      NewDraftIsSame(a.runId, a.revision + 1, a.input, a.draftTime);
    }
  }

  /** Once a draft is in the store, the same request finds it there and writes no other. */
  lemma DraftFoundAgain(s: Store, d: Draft, a: Attempt, b: Attempt)
    requires Drafted(s, d, a) && SameRequest(a, b)
    ensures Drafted(s, d, b)
    ensures DraftStep(s, b) == if b.input.projectId in b.enabled then Ok((s, d)) else Err(ProjectNotFound)
  {
    hide PromptTokens, InputError, SameDraftInput, Find, ReviseRunDraft;
    SameDraftBySameRequest(d, a.input, b.input);
  }

  predicate SameRequests(a: Attempt, attempts: seq<Attempt>) {
    forall k :: 0 <= k < |attempts| ==> SameRequest(a, attempts[k])
  }

  /** With draft and approval both stored, every repeat leaves the store alone and returns the run as it stands. */
  lemma {:induction false} RepeatChangesNothing(s: Store, d: Draft, a: Attempt, attempts: seq<Attempt>)
    requires Drafted(s, d, a) && HasApproval(s.queue, a.runId, d.revision)
    requires attempts != [] && SameRequests(a, attempts)
    ensures RunAttempts(s, attempts).store == s
    ensures RunAttempts(s, attempts).result in {Finished(s, a.runId), Err(ProjectNotFound)}
    decreases |attempts|
  {
    hide Drafted, DraftStep, HasApproval, Find, Finished;
    assert SameRequest(a, attempts[0]);
    DraftFoundAgain(s, d, a, attempts[0]);
    if |attempts| > 1 {
      RepeatChangesNothing(s, d, a, attempts[1..]);
    }
  }

  lemma ApprovalStepAdds(s: Store, d: Draft, a: Attempt, fault: Fault, now: Time)
    requires Drafted(s, d, a)
    ensures var after := ApprovalStep(s, d, a.runId, fault, now).store;
      Drafted(after, d, a) && (after == s || HasApproval(after.queue, a.runId, d.revision))
  {
    hide SameDraftInput, Find;
    var after := ApprovalStep(s, d, a.runId, fault, now).store;
    if after != s {
      assert IsFor(after.queue[|s.queue|], a.runId, d.revision);
    }
  }

  /** Retries over a stored draft: if the last of them completes, one of them wrote the approval. */
  lemma {:induction false} RetriesApproveOnce(s: Store, d: Draft, a: Attempt, attempts: seq<Attempt>) returns (j: nat)
    requires Drafted(s, d, a) && attempts != [] && SameRequests(a, attempts)
    requires RunAttempts(s, attempts).result.Ok?
    ensures j < |attempts|
    ensures RunAttempts(s, attempts) == ApprovalStep(s, d, a.runId, NoFault, attempts[j].approvalTime)
    decreases |attempts|
  {
    hide DraftStep, HasApproval, Find, QueueAccepts, ApprovalOf, SameDraftInput;
    var b := attempts[0];
    assert SameRequest(a, b);
    DraftFoundAgain(s, d, a, b);
    var first := ReviseRunWithApproval(s, b);
    if |attempts| == 1 {
      j := 0;
    } else if first.store == s {
      var i := RetriesApproveOnce(s, d, a, attempts[1..]);
      j := i + 1;
    } else {
      ApprovalStepAdds(s, d, a, b.fault, b.approvalTime);
      RepeatChangesNothing(first.store, d, a, attempts[1..]);
      j := 0;
    }
  }

  predicate CrashSafe(s: Store, attempts: seq<Attempt>, i: nat, j: nat)
    requires attempts != []
  {
    i < |attempts| && j < |attempts| &&
    RunAttempts(s, attempts) == ReviseRunWithApproval(s, Uninterrupted(attempts[i], attempts[j]))
  }

  /**
   * Attempts at one revision, each dying anywhere or failing for any reason, until one completes: the store and the
   * answer are those of a single uninterrupted call, with the draft time of one attempt and the approval time of one.
   */
  lemma {:induction false} RetriedRevisionIsOneCall(s: Store, attempts: seq<Attempt>)
    requires attempts != [] && SameRequests(attempts[0], attempts)
    requires RunAttempts(s, attempts).result.Ok?
    ensures exists i, j :: CrashSafe(s, attempts, i, j)
    decreases |attempts|
  {
    hide Drafted, HasApproval, Find, ApprovalStep, ReviseRunDraft, SameDraftInput;
    var a := attempts[0];
    match DraftStep(s, a) {
      case Err(_) =>
        assert ReviseRunWithApproval(s, a).store == s;
        var later := attempts[1..];
        forall k | 0 <= k < |later| ensures SameRequest(later[0], later[k]) {
          assert SameRequest(a, attempts[k + 1]) && SameRequest(a, attempts[1]);
        }
        RetriedRevisionIsOneCall(s, later);
        var i: nat, j: nat :| CrashSafe(s, later, i, j);
        assert CrashSafe(s, attempts, i + 1, j + 1);
      case Ok((t, d)) =>
        DraftStepLeaves(s, a);
        DraftFoundAgain(t, d, a, a);
        assert ReviseRunWithApproval(t, a) == ReviseRunWithApproval(s, a);
        assert RunAttempts(t, attempts) == RunAttempts(s, attempts);
        var j := RetriesApproveOnce(t, d, a, attempts);
        assert DraftStep(s, Uninterrupted(a, attempts[j])) == DraftStep(s, a);
        assert CrashSafe(s, attempts, 0, j);
    }
  }

  /** And once a call has completed, repeating it changes nothing more. */
  lemma CompletedRevisionIsIdempotent(s: Store, a: Attempt, repeats: seq<Attempt>)
    requires ReviseRunWithApproval(s, a).result.Ok? && repeats != [] && SameRequests(a, repeats)
    ensures var done := ReviseRunWithApproval(s, a);
      RunAttempts(done.store, repeats).store == done.store &&
      RunAttempts(done.store, repeats).result in {done.result, Err(ProjectNotFound)}
  {
    hide Drafted, Find, ReviseRunDraft, SameDraftInput, QueueAccepts, ApprovalOf;
    var (t, d) := DraftStep(s, a).value;
    DraftStepLeaves(s, a);
    ApprovalStepAdds(t, d, a, a.fault, a.approvalTime);
    RepeatChangesNothing(ReviseRunWithApproval(s, a).store, d, a, repeats);
  }

  /**
   * There is room in the queue for the approval of this draft, and its model, if it names one, has a name. (The routes
   * refuse a model they do not know, so an empty name takes a caller that comes to the revision past them.)
   */
  predicate RoomFor(queue: seq<Approval>, d: Draft) {
    |queue| < MAX_APPROVALS && QueueBytes(queue + [ApprovalOf(d, d.createdAt)]) <= MAX_QUEUE_BYTES &&
    d.model != Some("")
  }

  /** When the approval is written makes no difference to its size. */
  lemma RoomAtAnyTime(queue: seq<Approval>, d: Draft, now: Time)
    ensures RoomFor(queue, d) <==> QueueAccepts(queue, ApprovalOf(d, now))
  {
    hide RecordBytes;
    RecordsAppended(queue, ApprovalOf(d, now));
    RecordsAppended(queue, ApprovalOf(d, d.createdAt));
    assert RecordBytes(ApprovalOf(d, now)) == RecordBytes(ApprovalOf(d, d.createdAt)) by {
      TimeTakesNoRoom(ApprovalOf(d, now), d.createdAt);
    }
  }

  lemma TimeTakesNoRoom(a: Approval, t: Time)
    ensures RecordBytes(a.(createdAt := t)) == RecordBytes(a)
  {
  }

  lemma {:induction false} RecordsAppended(queue: seq<Approval>, a: Approval)
    ensures RecordsBytes(queue + [a]) == RecordsBytes(queue) + RecordBytes(a) + 2
  {
    hide RecordBytes;
    if queue == [] {
      assert [a][1..] == [];
    } else {
      assert (queue + [a])[1..] == queue[1..] + [a];
      RecordsAppended(queue[1..], a);
    }
  }

  /**
   * When a retry can complete a draft whose approval is missing: exactly when the queue has room for the approval. A
   * draft is checked against none of that before it is stored, so it can be left where nobody can approve it.
   */
  lemma StuckExactly(s: Store, d: Draft, a: Attempt)
    requires Drafted(s, d, a) && !HasApproval(s.queue, a.runId, d.revision)
    ensures RoomFor(s.queue, d) ==>
      forall b :: SameRequest(a, b) && b.fault.NoFault? && b.input.projectId in b.enabled ==>
        ReviseRunWithApproval(s, b).result.Ok?
    ensures !RoomFor(s.queue, d) ==>
      forall attempts :: attempts != [] && SameRequests(a, attempts) ==>
        RunAttempts(s, attempts).store == s && RunAttempts(s, attempts).result.Err?
  {
    hide SameDraftInput, Find, DraftStep, HasApproval, QueueAccepts, RoomFor, ApprovalOf;
    if RoomFor(s.queue, d) {
      forall b | SameRequest(a, b) && b.fault.NoFault? && b.input.projectId in b.enabled
        ensures ReviseRunWithApproval(s, b).result.Ok?
      {
        DraftFoundAgain(s, d, a, b);
        RoomAtAnyTime(s.queue, d, b.approvalTime);
      }
    } else {
      forall attempts | attempts != [] && SameRequests(a, attempts)
        ensures RunAttempts(s, attempts).store == s && RunAttempts(s, attempts).result.Err?
      {
        RefusedEveryTime(s, d, a, attempts);
      }
    }
  }

  lemma {:induction false} RefusedEveryTime(s: Store, d: Draft, a: Attempt, attempts: seq<Attempt>)
    requires Drafted(s, d, a) && !HasApproval(s.queue, a.runId, d.revision)
    requires !RoomFor(s.queue, d) && attempts != [] && SameRequests(a, attempts)
    ensures RunAttempts(s, attempts).store == s && RunAttempts(s, attempts).result.Err?
    decreases |attempts|
  {
    hide SameDraftInput, Find, DraftStep, HasApproval, QueueAccepts, RoomFor, ApprovalOf;
    assert SameRequest(a, attempts[0]);
    DraftFoundAgain(s, d, a, attempts[0]);
    RoomAtAnyTime(s.queue, d, attempts[0].approvalTime);
    if |attempts| > 1 {
      RefusedEveryTime(s, d, a, attempts[1..]);
    }
  }
}
