/** Promotion from dev to prod: requests may read a run first and act on what they read later, without the lock. */
module Promotion {
  import opened Text
  import opened ExecutionProfile
  import opened RunRevision
  import opened RunHistory

  datatype PacketStatus = PromotionPending | PromotionApproved | PromotionRejected | Published | RolledBack

  datatype Packet = Packet(
    id: string, sourceRun: string, sourceRevision: nat, approvers: seq<string>, prodRun: Option<string>,
    verification: Option<string>, acceptance: Option<string>, rollback: Option<string>, status: PacketStatus)

  datatype Evidence = Evidence(prodRun: string, verification: string, acceptance: string, rollback: string)

  /** `seen` holds the run records read by requests that have yet to act. */
  datatype System = System(store: Store, packets: seq<Packet>, seen: seq<Run>)

  datatype Refusal = EvidenceRequired | PromotionNotFound | NotReady | NotApproved | NotPublished | SourceNotCompleted
                   | SourceNotDev | PromotionLimit | InvalidTransition | VerificationMismatch | InvalidPacket
                   | InvalidPromotionStore

  datatype Reply = Done | RunRefused(error: Error) | Refused(refusal: Refusal)

  /** Redaction of a text to at most a number of characters. */
  type Redaction = (string, nat) -> string

  const MAX_PACKETS := 256
  const MAX_REF := 2000

  predicate Bounded(s: string, max: nat) { Trim(s) != "" && |s| <= max }

  /** Redacted text that still fits. */
  function Redacted(redact: Redaction, s: string, max: nat): Option<string> {
    if Trim(s) != "" && Bounded(redact(s, max), max) then Some(redact(s, max)) else None
  }

  /** What the promotion store's validation accepts: text that redaction leaves alone. */
  predicate Storable(redact: Redaction, s: string, max: nat) { redact(s, max) == s }

  function FindPacket(packets: seq<Packet>, id: string): (k: int)
    ensures -1 <= k < |packets|
    ensures k >= 0 ==> packets[k].id == id
    ensures k < 0 ==> forall i :: 0 <= i < |packets| ==> packets[i].id != id
  {
    if packets == [] then -1
    else if packets[0].id == id then 0
    else
      var k := FindPacket(packets[1..], id);
      if k < 0 then -1 else k + 1
  }

  predicate LinkedElsewhere(runs: seq<Run>, packetId: string, except: Option<string>) {
    exists i :: 0 <= i < |runs| && runs[i].current.packet == Some(packetId) && Some(runs[i].current.runId) != except
  }

  /** A packet that a prod run may be drafted for or revised under. */
  predicate Ready(p: Packet, verification: string) {
    p.status.PromotionApproved? && "owner" in p.approvers && p.prodRun.None? && p.verification == Some(verification)
  }

  // ----- Drafting and revising prod runs, under the lock

  function CreateProdDraft(sys: System, c: Creation, verification: Option<string>): (System, Reply) {
    if !(c.input.packet.Some? && c.input.packet.value != "" && verification.Some? && verification.value != "") then
      (sys, Refused(EvidenceRequired))
    else
      var packetId := c.input.packet.value;
      var k := FindPacket(sys.packets, packetId);
      if k < 0 then (sys, Refused(PromotionNotFound))
      else if !Ready(sys.packets[k], verification.value) || LinkedElsewhere(sys.store.runs, packetId, None) then
        (sys, Refused(NotReady))
      else Prepared(sys, c)
  }

  function Prepared(sys: System, c: Creation): (System, Reply) {
    var outcome := PrepareRun(sys.store, c);
    (sys.(store := outcome.store), ReplyOf(outcome))
  }

  function ReplyOf(o: Outcome): Reply {
    match o.result
    case Ok(_) => Done
    case Err(e) => RunRefused(e)
  }

  function Revised(sys: System, a: Attempt): (System, Reply) {
    var outcome := ReviseRunWithApproval(sys.store, a);
    (sys.(store := outcome.store), ReplyOf(outcome))
  }

  predicate ProdRevisionAllowed(sys: System, a: Attempt, verification: Option<string>) {
    var run := Find(sys.store.runs, a.runId);
    run.Some? && run.value.current.profile == Some(Prod) && a.input.profile.Prod? && run.value.current.packet.Some? &&
    a.input.packet == run.value.current.packet && verification.Some? && verification.value != "" &&
    var packetId := run.value.current.packet.value;
    var k := FindPacket(sys.packets, packetId);
    k >= 0 && Ready(sys.packets[k], verification.value) &&
    !LinkedElsewhere(sys.store.runs, packetId, Some(a.runId))
  }

  function ReviseProdDraft(sys: System, a: Attempt, verification: Option<string>): (System, Reply) {
    if ProdRevisionAllowed(sys, a, verification) then Revised(sys, a) else (sys, Refused(NotReady))
  }

  // ----- Packets

  function WithPacket(sys: System, k: nat, p: Packet): System
    requires k < |sys.packets|
  {
    sys.(packets := sys.packets[k := p])
  }

  function BuildPacket(sys: System, run: Run, packetId: string, contentFits: bool): (System, Reply) {
    if !run.status.Completed? then (sys, Refused(SourceNotCompleted))
    else if run.current.profile != Some(Dev) then (sys, Refused(SourceNotDev))
    else if !contentFits then (sys, Refused(InvalidPacket))
    else if |sys.packets| >= MAX_PACKETS then (sys, Refused(PromotionLimit))
    else if FindPacket(sys.packets, packetId) >= 0 then (sys, Refused(InvalidPromotionStore))
    else
      var p := Packet(packetId, run.current.runId, run.current.revision, [], None, None, None, None, PromotionPending);
      (sys.(packets := sys.packets + [p]), Done)
  }

  /** The only approver a request can name is the owner; what is stored is that name, redacted. */
  function ApprovePacket(sys: System, redact: Redaction, packetId: string, reviewRef: string): (System, Reply) {
    var approver, ref := Redacted(redact, "owner", MAX_ID), Redacted(redact, reviewRef, MAX_REF);
    var k := FindPacket(sys.packets, packetId);
    if !Bounded(reviewRef, MAX_REF) then (sys, Refused(NotApproved))
    else if approver.None? || ref.None? then (sys, Refused(InvalidPacket))
    else if k < 0 then (sys, Refused(PromotionNotFound))
    else if !sys.packets[k].status.PromotionPending? then (sys, Refused(InvalidTransition))
    else if !Storable(redact, approver.value, MAX_ID) || !Storable(redact, ref.value, MAX_REF) then
      (sys, Refused(InvalidPromotionStore))
    else (WithPacket(sys, k, sys.packets[k].(approvers := [approver.value], status := PromotionApproved)), Done)
  }

  function RejectPacket(sys: System, packetId: string): (System, Reply) {
    var k := FindPacket(sys.packets, packetId);
    if k < 0 then (sys, Refused(PromotionNotFound))
    else if !sys.packets[k].status.PromotionPending? then (sys, Refused(InvalidTransition))
    else (WithPacket(sys, k, sys.packets[k].(status := PromotionRejected)), Done)
  }

  function VerifyPacket(sys: System, redact: Redaction, packetId: string, ref: string): (System, Reply) {
    var stored := Redacted(redact, ref, MAX_REF);
    var k := FindPacket(sys.packets, packetId);
    if !Bounded(ref, MAX_REF) then (sys, Refused(EvidenceRequired))
    else if stored.None? then (sys, Refused(InvalidPacket))
    else if k < 0 then (sys, Refused(PromotionNotFound))
    else
      var p := sys.packets[k];
      if !p.status.PromotionApproved? || p.approvers == [] then (sys, Refused(NotApproved))
      else if p.verification.Some? && p.verification != stored then (sys, Refused(VerificationMismatch))
      else if !Storable(redact, stored.value, MAX_REF) then (sys, Refused(InvalidPromotionStore))
      else (WithPacket(sys, k, p.(verification := stored)), Done)
  }

  function PublishPacket(sys: System, redact: Redaction, run: Run, packetId: string, e: Evidence): (System, Reply) {
    var prodRun, verification := Redacted(redact, e.prodRun, MAX_ID), Redacted(redact, e.verification, MAX_REF);
    var acceptance, rollback := Redacted(redact, e.acceptance, MAX_REF), Redacted(redact, e.rollback, MAX_REF);
    var k := FindPacket(sys.packets, packetId);
    if !(run.current.runId == e.prodRun && run.status.Completed? && run.current.profile == Some(Prod) &&
         run.current.packet == Some(packetId)) then
      (sys, Refused(NotReady))
    else if !(Bounded(e.prodRun, MAX_REF) && Bounded(e.verification, MAX_REF) && Bounded(e.acceptance, MAX_REF) &&
              Bounded(e.rollback, MAX_REF)) then
      (sys, Refused(EvidenceRequired))
    else if prodRun.None? || verification.None? || acceptance.None? || rollback.None? then
      (sys, Refused(InvalidPacket))
    else if k < 0 then (sys, Refused(PromotionNotFound))
    else
      var p := sys.packets[k];
      if !p.status.PromotionApproved? || p.approvers == [] || p.verification.None? then (sys, Refused(NotReady))
      else if p.verification != verification then (sys, Refused(VerificationMismatch))
      else if !(Storable(redact, prodRun.value, MAX_ID) && Storable(redact, acceptance.value, MAX_REF) &&
                Storable(redact, rollback.value, MAX_REF)) then
        (sys, Refused(InvalidPromotionStore))
      else
        var published := p.(prodRun := prodRun, acceptance := acceptance, rollback := rollback, status := Published);
        (WithPacket(sys, k, published), Done)
  }

  function RollBackPacket(sys: System, packetId: string): (System, Reply) {
    var k := FindPacket(sys.packets, packetId);
    if k < 0 then (sys, Refused(PromotionNotFound))
    else if !sys.packets[k].status.Published? then (sys, Refused(NotPublished))
    else (WithPacket(sys, k, sys.packets[k].(status := RolledBack)), Done)
  }

  // ----- Requests

  /** A request that names a run it has read says where in `seen` it is. */
  datatype Request =
    | ReadRun(id: string)
    | CreateRun(creation: Creation, verification: Option<string>)
    | ReviseSeen(ticket: nat, attempt: Attempt, routeAvailable: bool, verification: Option<string>)
    | Move(id: string, to: Status, now: Time)
    | Decide(k: nat, decision: Decision, more: nat)
    | Submit(approval: Approval)
    | Build(ticket: nat, packetId: string, contentFits: bool)
    | Approve(packetId: string, ref: string)
    | Reject(packetId: string)
    | Verify(packetId: string, ref: string)
    | Publish(ticket: nat, packetId: string, evidence: Evidence)
    | RollBack(packetId: string)

  /** The route a revision takes is chosen by the profile the request saw, not by the run as it now stands. */
  function ReviseRoute(sys: System, seen: Run, a: Attempt, routeAvailable: bool, verification: Option<string>)
    : (System, Reply)
  {
    if !routeAvailable then (sys, RunRefused(RouteUnavailable))
    else if seen.current.profile == Some(Prod) || a.input.profile.Prod? then ReviseProdDraft(sys, a, verification)
    else Revised(sys, a)
  }

  function Step(sys: System, redact: Redaction, request: Request): (System, Reply) {
    match request
    case ReadRun(id) =>
      (match Find(sys.store.runs, id)
       case Some(run) => (sys.(seen := sys.seen + [run]), Done)
       case None => (sys, RunRefused(RunNotFound)))
    case CreateRun(c, verification) =>
      if c.input.profile.Prod? then CreateProdDraft(sys, c, verification) else Prepared(sys, c)
    case ReviseSeen(t, a, routeAvailable, verification) =>
      if t >= |sys.seen| || sys.seen[t].current.runId != a.runId then (sys, RunRefused(RunNotFound))
      else ReviseRoute(sys, sys.seen[t], a, routeAvailable, verification)
    case Move(id, to, now) => (sys.(store := MoveRun(sys.store, id, to, now)), Done)
    case Decide(k, decision, more) => (sys.(store := DecideApproval(sys.store, k, decision, more)), Done)
    case Submit(a) => (sys.(store := SubmitApproval(sys.store, a)), Done)
    case Build(t, packetId, contentFits) =>
      if t >= |sys.seen| then (sys, RunRefused(RunNotFound))
      else BuildPacket(sys, sys.seen[t], packetId, contentFits)
    case Approve(packetId, ref) => ApprovePacket(sys, redact, packetId, ref)
    case Reject(packetId) => RejectPacket(sys, packetId)
    case Verify(packetId, ref) => VerifyPacket(sys, redact, packetId, ref)
    case Publish(t, packetId, e) =>
      if t >= |sys.seen| then (sys, Refused(NotReady))
      else PublishPacket(sys, redact, sys.seen[t], packetId, e)
    case RollBack(packetId) => RollBackPacket(sys, packetId)
  }
}
