/** A queue that has no room for a revision, long before it has its number of records: how it gets there. */
module QueueRoom {
  import opened Text
  import opened ExecutionProfile
  import opened RunRevision
  import opened RunHistory

  function Repeated<T>(x: T, n: nat): seq<T> { seq(n, _ => x) }

  // ----- Sizes

  lemma {:induction false} RepeatedText(c: char, n: nat)
    ensures TextBytes(Repeated(c, n)) == n * CharBytes(c)
  {
    if n > 0 {
      assert Repeated(c, n)[1..] == Repeated(c, n - 1);
      RepeatedText(c, n - 1);
    }
  }

  lemma {:induction false} RepeatedRecords(a: Approval, n: nat)
    ensures RecordsBytes(Repeated(a, n)) == n * (RecordBytes(a) + 2)
  {
    hide RecordBytes;
    if n > 0 {
      assert Repeated(a, n)[1..] == Repeated(a, n - 1);
      RepeatedRecords(a, n - 1);
    }
  }

  /** What JSON prints as it is, in one byte. */
  predicate IsPlain(c: char) { ' ' <= c <= '~' && c != '"' && c != '\\' }

  lemma PlainByte(c: char)
    requires IsPlain(c)
    ensures CharBytes(c) == 1
  {
  }

  lemma {:induction false} Plain(s: string)
    requires forall i :: 0 <= i < |s| ==> IsPlain(s[i])
    ensures TextBytes(s) == |s|
  {
    hide CharBytes;
    if s != "" {
      PlainByte(s[0]);
      Plain(s[1..]);
    }
  }

  /** A pending approval without a model: what its labels take, and what its fields add. */
  lemma PendingBytes(a: Approval)
    requires a.model.None? && a.decision.Pending?
    ensures RecordBytes(a) == 425 + SubjectBytes(a.subject) + TextBytes(a.vendor) + TextBytes(a.preview) +
                              Digits(a.estimatedTokens) + Digits(a.inputBound) + Digits(a.outputAllowance) +
                              (if a.reviewed then 0 else 1) + a.rest
  {
    hide TextBytes, Digits, SubjectBytes;
  }

  // ----- Filling the queue

  const LONG_TEXT := Repeated('\U{6587}', MAX_PREVIEW)

  /**
   * An approval as it is submitted by hand, with no estimate: a preview of five hundred three-byte characters, and in
   * `rest` an id of 45 characters, a session of ten and a prompt file of eleven.
   */
  const BY_HAND := Approval(None, "codex_cli", None, LONG_TEXT, 0, 0, 0, false, Pending, 0, 64)

  /** The state directory after `n` such submissions to an empty one. */
  function Submitted(n: nat): Store {
    if n == 0 then Store([], []) else SubmitApproval(Submitted(n - 1), BY_HAND)
  }

  lemma LongText()
    ensures |LONG_TEXT| == MAX_PREVIEW && TextBytes(LONG_TEXT) == 1500
  {
    RepeatedText('\U{6587}', MAX_PREVIEW);
  }

  lemma ShortTexts()
    ensures TextBytes("codex_cli") == 9 && TextBytes("x") == 1
  {
    hide TextBytes;
    Plain("codex_cli");
    Plain("x");
  }

  lemma OneDigit()
    ensures Digits(0) == 1 && Digits(1) == 1
  {
  }

  lemma TextSizes()
    ensures |LONG_TEXT| == MAX_PREVIEW && TextBytes(LONG_TEXT) == 1500 && TextBytes("codex_cli") == 9
    ensures TextBytes("x") == 1 && Digits(0) == 1 && Digits(1) == 1
  {
    hide *;
    LongText();
    ShortTexts();
    OneDigit();
  }

  lemma ByHandBytes()
    ensures RecordBytes(BY_HAND) == 2097
  {
    hide TextBytes, Digits, Repeated, RecordBytes, CharBytes;
    TextSizes();
    PendingBytes(BY_HAND);
  }

  lemma {:induction false} AllSubmitted(n: nat)
    requires n <= 499
    ensures Submitted(n) == Store([], Repeated(BY_HAND, n)) && QueueBytes(Submitted(n).queue) <= 48 + 2099 * n
  {
    hide RecordBytes, RecordsBytes;
    ByHandBytes();
    RepeatedRecords(BY_HAND, n);
    assert RecordsBytes(Repeated(BY_HAND, n)) == 2099 * n;
    if n > 0 {
      AllSubmitted(n - 1);
      assert Repeated(BY_HAND, n - 1) + [BY_HAND] == Repeated(BY_HAND, n);
    }
  }

  // ----- One run, and the revision that is left without an approval

  /** Ids are drawn at random, and take 36 plain characters. */
  predicate IsRunId(id: string) { TextBytes(id) == 36 }

  function InputOf(prompt: string, estimate: int): Input {
    Input("p", prompt, CodexCli, None, estimate, [], true, Dev, None, None)
  }

  function FirstOf(id: string): Creation {
    Creation(id, InputOf("x", 8193), {"p"}, true, 0, 0, NoFault)
  }

  function RevisionOf(id: string): Attempt {
    Attempt(id, 1, InputOf(LONG_TEXT, 9692), {"p"}, 0, 0, NoFault)
  }

  lemma {:induction false} RepeatedTokens(c: char, n: nat)
    ensures PromptTokens(Repeated(c, n)) == n * PromptTokens([c])
  {
    if n > 0 {
      assert Repeated(c, n)[1..] == Repeated(c, n - 1);
      RepeatedTokens(c, n - 1);
    }
  }

  lemma PromptSizes()
    ensures PromptTokens("x") == 1 && PromptTokens(LONG_TEXT) == 1500
  {
    RepeatedTokens('\U{6587}', MAX_PREVIEW);
  }

  lemma InputsAreFine()
    ensures InputError(InputOf("x", 8193), {"p"}).None? && InputError(InputOf(LONG_TEXT, 9692), {"p"}).None?
  {
    hide PromptTokens, Repeated;
    PromptSizes();
  }

  lemma NumberBytes()
    ensures Digits(8193) == 4 && Digits(8192) == 4
  {
    assert Digits(8193 / 10) == 3 && Digits(8192 / 10) == 3 by { assert Digits(81) == 2 && Digits(819) == 3; }
  }

  /** The approval of the first draft still fits. */
  lemma FirstApprovalFits(id: string)
    requires IsRunId(id)
    ensures RecordBytes(ApprovalOf(NewRun(FirstOf(id)).current, 0)) == 657
    ensures QueueAccepts(Submitted(499).queue, ApprovalOf(NewRun(FirstOf(id)).current, 0))
    ensures |Submitted(499).queue| == 499 &&
      QueueBytes(Submitted(499).queue + [ApprovalOf(NewRun(FirstOf(id)).current, 0)]) == 1048108
  {
    hide TextBytes, Digits, Repeated, RecordBytes, CharBytes, PromptTokens, Submitted, RecordsBytes;
    var a := ApprovalOf(NewRun(FirstOf(id)).current, 0);
    PromptSizes();
    TextSizes();
    NumberBytes();
    PendingBytes(a);
    assert a.preview == "x" && a.estimatedTokens == 8193 && a.inputBound == 1;
    assert SubjectBytes(a.subject) == 213;
    AllSubmitted(499);
    ByHandBytes();
    RepeatedAt(BY_HAND, 499, 0);
    RepeatedRecords(BY_HAND, 499);
    RecordsAppended(Submitted(499).queue, a);
  }

  /** After that no approval with a long preview does. */
  lemma SecondApprovalDoesNot(id: string, queue: seq<Approval>)
    requires QueueBytes(queue) == 1048108 && queue != []
    ensures !QueueAccepts(queue, ApprovalOf(DraftOf(id, 2, InputOf(LONG_TEXT, 9692), 0), 0))
  {
    hide TextBytes, Repeated, RecordBytes, PromptTokens, RecordsBytes;
    var a := ApprovalOf(DraftOf(id, 2, InputOf(LONG_TEXT, 9692), 0), 0);
    TextSizes();
    PreviewTakesRoom(a);
    RecordsAppended(queue, a);
  }

  lemma PreviewTakesRoom(a: Approval)
    ensures RecordBytes(a) >= TextBytes(a.preview)
  {
  }

  /** The directory after 499 submissions and the creation of one run: 500 records of 512, all within the limits. */
  lemma BeforeTheRevision(id: string) returns (s: Store)
    requires IsRunId(id)
    ensures PrepareRun(Submitted(499), FirstOf(id)) == Outcome(s, Ok(NewRun(FirstOf(id))))
    ensures s.runs == [NewRun(FirstOf(id))] && |s.queue| == 500 && QueueBytes(s.queue) == 1048108 && StoreOk(s)
    ensures s.queue == Submitted(499).queue + [ApprovalOf(NewRun(FirstOf(id)).current, 0)]
  {
    hide InputError, PromptTokens, QueueAccepts, QueueBytes, Repeated, RecordBytes, QueueFits, StoreOk;
    InputsAreFine();
    FirstApprovalFits(id);
    AllSubmitted(499);
    assert StoreOk(Submitted(499)) by { SubmittedOk(499); }
    PrepareKeeps(Submitted(499), FirstOf(id));
    s := PrepareRun(Submitted(499), FirstOf(id)).store;
  }

  lemma {:induction false} SubmittedOk(n: nat)
    ensures StoreOk(Submitted(n))
  {
    hide SubmitApproval;
    if n > 0 {
      SubmittedOk(n - 1);
      SubmitKeeps(Submitted(n - 1), BY_HAND);
    }
  }

  /**
   * From an empty state directory, by 499 submissions and one creation, all accepted: a revision that passes every
   * check, names no model and dies nowhere is stored as a draft and refused by the queue, and so is every retry.
   */
  lemma FullBeforeItsNumber(id: string) returns (s: Store)
    requires IsRunId(id)
    ensures PrepareRun(Submitted(499), FirstOf(id)) == Outcome(s, Ok(NewRun(FirstOf(id))))
    ensures StoreOk(s) && |s.queue| == 500 < MAX_APPROVALS
    ensures var done := ReviseRunWithApproval(s, RevisionOf(id));
      done.result == Err(InvalidQueue) && done.store.queue == s.queue && StoreOk(done.store) &&
      Drafted(done.store, DraftOf(id, 2, InputOf(LONG_TEXT, 9692), 0), RevisionOf(id)) &&
      forall retries :: retries != [] && SameRequests(RevisionOf(id), retries) ==>
        RunAttempts(done.store, retries).result.Err? && RunAttempts(done.store, retries).store == done.store
  {
    s := BeforeTheRevision(id);
    var d := DraftOf(id, 2, InputOf(LONG_TEXT, 9692), 0);
    RevisionDrafts(id, s);
    SecondApprovalDoesNot(id, s.queue);
    NotYetApproved(id, s);
    var (t, drafted) := DraftStep(s, RevisionOf(id)).value;
    DraftStepLeaves(s, RevisionOf(id));
    assert KeepsLane(s, RevisionOf(id));
    ReviseKeeps(s, RevisionOf(id));
    hide DraftStep, QueueAccepts, ApprovalOf, DraftOf, StoreOk, KeepsLane, Drafted, HasApproval, RoomFor, SameRequests;
    RoomAtAnyTime(s.queue, d, 0);
    StuckExactly(t, d, RevisionOf(id));
  }

  lemma RevisionDrafts(id: string, s: Store)
    requires s.runs == [NewRun(FirstOf(id))]
    ensures DraftStep(s, RevisionOf(id)).Ok? && DraftStep(s, RevisionOf(id)).value.0.queue == s.queue
    ensures DraftStep(s, RevisionOf(id)).value.1 == DraftOf(id, 2, InputOf(LONG_TEXT, 9692), 0)
    ensures KeepsLane(s, RevisionOf(id))
  {
    hide InputError, PromptTokens, Repeated;
    InputsAreFine();
  }

  lemma NotYetApproved(id: string, s: Store)
    requires s.queue == Submitted(499).queue + [ApprovalOf(NewRun(FirstOf(id)).current, 0)]
    ensures !HasApproval(s.queue, id, 2)
  {
    var a := ApprovalOf(NewRun(FirstOf(id)).current, 0);
    assert a.subject == Some((id, 1)) by { hide PromptTokens; }
    hide *;
    NoneNamesARun(499);
    ByHandOnly(Submitted(499).queue, a, id);
  }

  lemma {:induction false} NoneNamesARun(n: nat)
    ensures forall k :: 0 <= k < |Submitted(n).queue| ==> Submitted(n).queue[k].subject.None?
  {
    hide QueueAccepts;
    if n > 0 {
      NoneNamesARun(n - 1);
    }
  }

  lemma ByHandOnly(hand: seq<Approval>, a: Approval, id: string)
    requires a.subject == Some((id, 1)) && forall k :: 0 <= k < |hand| ==> hand[k].subject.None?
    ensures !HasApproval(hand + [a], id, 2)
  {
  }

  lemma RepeatedAt(a: Approval, n: nat, k: nat)
    requires k < n
    ensures |Repeated(a, n)| == n && Repeated(a, n)[k] == a
  {
  }
}
