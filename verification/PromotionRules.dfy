/** When each promotion request goes through, and what it then changes, on the fields of packets and runs. */
module PromotionRules {
  import opened Text
  import opened ExecutionProfile
  import opened RunRevision
  import opened Promotion

  /** `k` is where the packet of this id is found. */
  predicate PacketAt(packets: seq<Packet>, id: string, k: nat) {
    k < |packets| && packets[k].id == id && forall j :: 0 <= j < k ==> packets[j].id != id
  }

  predicate NoPacket(packets: seq<Packet>, id: string) { forall j :: 0 <= j < |packets| ==> packets[j].id != id }

  lemma {:induction false} FoundAt(packets: seq<Packet>, id: string)
    ensures FindPacket(packets, id) < 0 <==> NoPacket(packets, id)
    ensures FindPacket(packets, id) >= 0 ==> PacketAt(packets, id, FindPacket(packets, id))
    ensures forall k: nat :: PacketAt(packets, id, k) ==> FindPacket(packets, id) == k
  {
    if packets != [] && packets[0].id != id {
      FoundAt(packets[1..], id);
      forall k: nat | PacketAt(packets, id, k) ensures FindPacket(packets, id) == k {
        assert PacketAt(packets[1..], id, k - 1);
      }
    }
  }

  lemma {:induction false} RunFoundAt(runs: seq<Run>, id: string, i: nat)
    requires i < |runs| && runs[i].current.runId == id && forall j :: 0 <= j < i ==> runs[j].current.runId != id
    ensures Find(runs, id) == Some(runs[i])
  {
    if i > 0 {
      RunFoundAt(runs[1..], id, i - 1);
    }
  }

  predicate SignedByOwner(p: Packet) { exists a :: 0 <= a < |p.approvers| && p.approvers[a] == "owner" }

  /**
   * A prod run may be drafted or revised under the packet of this id: it is approved, signed by the owner, published by
   * nobody and verified by this very reference, and no run but `own` carries it.
   */
  predicate MayCarry(sys: System, packetId: string, ref: string, own: Option<string>) {
    (exists k: nat :: k < |sys.packets| && OpenFor(sys.packets, packetId, k, ref)) &&
    forall i :: 0 <= i < |sys.store.runs| && sys.store.runs[i].current.packet == Some(packetId) ==>
      own == Some(sys.store.runs[i].current.runId)
  }

  predicate OpenFor(packets: seq<Packet>, packetId: string, k: nat, ref: string) {
    PacketAt(packets, packetId, k) && packets[k].status == PromotionApproved && SignedByOwner(packets[k]) &&
    packets[k].prodRun == None && packets[k].verification == Some(ref)
  }

  lemma CarriedExactly(sys: System, packetId: string, ref: string, own: Option<string>)
    ensures MayCarry(sys, packetId, ref, own) <==>
      var k := FindPacket(sys.packets, packetId);
      k >= 0 && Ready(sys.packets[k], ref) && !LinkedElsewhere(sys.store.runs, packetId, own)
  {
    FoundAt(sys.packets, packetId);
    var k := FindPacket(sys.packets, packetId);
    if k >= 0 {
      assert Ready(sys.packets[k], ref) <==> OpenFor(sys.packets, packetId, k, ref);
    }
  }

  predicate Given(s: Option<string>) { s.Some? && |s.value| > 0 }

  /**
   * A prod run is created exactly when the request names a packet and its verification and that packet may carry it;
   * otherwise nothing changes, and the refusal says which of these failed.
   */
  lemma ProdCreatedExactly(sys: System, c: Creation, verification: Option<string>)
    ensures var evidence := Given(c.input.packet) && Given(verification);
      var done := PrepareRun(sys.store, c);
      CreateProdDraft(sys, c, verification) ==
      if evidence && MayCarry(sys, c.input.packet.value, verification.value, None) then
        (System(done.store, sys.packets, sys.seen), if done.result.Ok? then Done else RunRefused(done.result.error))
      else
        (sys, Refused(if !evidence then EvidenceRequired
                      else if NoPacket(sys.packets, c.input.packet.value) then PromotionNotFound else NotReady))
  {
    hide PrepareRun, MayCarry, Ready, LinkedElsewhere;
    if Given(c.input.packet) && Given(verification) {
      FoundAt(sys.packets, c.input.packet.value);
      CarriedExactly(sys, c.input.packet.value, verification.value, None);
    }
  }

  /** The request is to revise this prod run, as one, under its own packet, with a verification. */
  predicate AsksProdRevision(run: Run, a: Attempt, verification: Option<string>) {
    run.current.profile == Some(Prod) && a.input.profile == Prod && run.current.packet.Some? &&
    a.input.packet == run.current.packet && Given(verification)
  }

  /** A prod run is revised exactly when its packet may still carry it, and nothing changes otherwise. */
  lemma ProdRevisedExactly(sys: System, a: Attempt, verification: Option<string>)
    ensures var run := Find(sys.store.runs, a.runId);
      var done := ReviseRunWithApproval(sys.store, a);
      ReviseProdDraft(sys, a, verification) ==
      if run.Some? && AsksProdRevision(run.value, a, verification) &&
         MayCarry(sys, run.value.current.packet.value, verification.value, Some(a.runId)) then
        (System(done.store, sys.packets, sys.seen), if done.result.Ok? then Done else RunRefused(done.result.error))
      else (sys, Refused(NotReady))
  {
    hide ReviseRunWithApproval, MayCarry, Ready, LinkedElsewhere, Find;
    var run := Find(sys.store.runs, a.runId);
    if run.Some? && AsksProdRevision(run.value, a, verification) {
      CarriedExactly(sys, run.value.current.packet.value, verification.value, Some(a.runId));
    }
  }

  /** Which of the two revisions a request gets: the guarded one as soon as the run it read or its own input is prod. */
  lemma RevisionRouted(sys: System, seen: Run, a: Attempt, routeAvailable: bool, verification: Option<string>)
    ensures ReviseRoute(sys, seen, a, routeAvailable, verification) ==
      if !routeAvailable then (sys, RunRefused(RouteUnavailable))
      else if seen.current.profile == Some(Prod) || a.input.profile == Prod then ReviseProdDraft(sys, a, verification)
      else
        var done := ReviseRunWithApproval(sys.store, a);
        (System(done.store, sys.packets, sys.seen), if done.result.Ok? then Done else RunRefused(done.result.error))
  {
    hide ReviseRunWithApproval, ReviseProdDraft;
  }

  // ----- The life of a packet

  /** Only packet `k` changed, and only in these fields. */
  predicate OnlyPacket(sys: System, k: nat, p: Packet, next: System) {
    k < |sys.packets| && next == System(sys.store, sys.packets[..k] + [p] + sys.packets[k + 1..], sys.seen)
  }

  lemma Changed(sys: System, k: nat, p: Packet)
    requires k < |sys.packets|
    ensures OnlyPacket(sys, k, p, WithPacket(sys, k, p))
  {
    assert sys.packets[k := p] == sys.packets[..k] + [p] + sys.packets[k + 1..];
  }

  /** A packet is built from a completed dev run, with nothing on it yet, and while there is room and the id is new. */
  lemma BuiltExactly(sys: System, run: Run, packetId: string, contentFits: bool)
    ensures var (next, reply) := BuildPacket(sys, run, packetId, contentFits);
      (reply == Done <==>
         run.status == Completed && run.current.profile == Some(Dev) && contentFits && |sys.packets| < 256 &&
         NoPacket(sys.packets, packetId)) &&
      (reply == Done ==>
         next == System(sys.store,
                        sys.packets + [Packet(packetId, run.current.runId, run.current.revision, [], None, None, None,
                                              None, PromotionPending)], sys.seen)) &&
      (reply != Done ==> next == sys)
  {
    FoundAt(sys.packets, packetId);
  }

  /** Text with something in it, and no more than `max` characters. */
  predicate FitText(s: string, max: nat) { |s| <= max && exists i :: 0 <= i < |s| && !IsSpace(s[i]) }

  lemma FitTextIs(s: string, max: nat)
    ensures Bounded(s, max) <==> FitText(s, max)
  {
    TrimEmpty(s);
  }

  /** What may be stored of a text as it is redacted: that, which fits and which redaction leaves as it is. */
  predicate StoredAs(redact: Redaction, s: string, max: nat, stored: string) {
    (exists i :: 0 <= i < |s| && !IsSpace(s[i])) && stored == redact(s, max) && FitText(stored, max)
  }

  lemma StoredExactly(redact: Redaction, s: string, max: nat)
    ensures Redacted(redact, s, max).Some? <==> StoredAs(redact, s, max, redact(s, max))
    ensures Redacted(redact, s, max).Some? ==> Redacted(redact, s, max).value == redact(s, max)
  {
    TrimEmpty(s);
    FitTextIs(redact(s, max), max);
  }

  /** What redaction leaves as it is: nothing else may be in the store. */
  predicate Clean(redact: Redaction, s: string, max: nat) { redact(s, max) == s }

  /** Approving: a pending packet, by a reference that fits; the owner signs, and nothing else changes. */
  lemma ApprovedExactly(sys: System, redact: Redaction, packetId: string, ref: string)
    ensures var (next, reply) := ApprovePacket(sys, redact, packetId, ref);
      var owner, stored := redact("owner", 256), redact(ref, 2000);
      (reply == Done <==>
         FitText(ref, 2000) && StoredAs(redact, "owner", 256, owner) && StoredAs(redact, ref, 2000, stored) &&
         Clean(redact, owner, 256) && Clean(redact, stored, 2000) &&
         exists k: nat :: PacketAt(sys.packets, packetId, k) && sys.packets[k].status == PromotionPending) &&
      (reply == Done ==>
         forall k: nat :: PacketAt(sys.packets, packetId, k) ==>
           OnlyPacket(sys, k, sys.packets[k].(approvers := [owner], status := PromotionApproved), next)) &&
      (reply != Done ==> next == sys)
  {
    FoundAt(sys.packets, packetId);
    FitTextIs(ref, MAX_REF);
    StoredExactly(redact, "owner", MAX_ID);
    StoredExactly(redact, ref, MAX_REF);
    var k := FindPacket(sys.packets, packetId);
    hide FindPacket, Redacted, Bounded, FitText, WithPacket, OnlyPacket, StoredAs, PacketAt;
    if k >= 0 {
      Changed(sys, k, sys.packets[k].(approvers := [redact("owner", 256)], status := PromotionApproved));
    }
  }

  /** Rejecting: a pending packet; its status and nothing else. */
  lemma RejectedExactly(sys: System, packetId: string)
    ensures var (next, reply) := RejectPacket(sys, packetId);
      (reply == Done <==>
         exists k: nat :: PacketAt(sys.packets, packetId, k) && sys.packets[k].status == PromotionPending) &&
      (reply == Done ==>
         forall k: nat :: PacketAt(sys.packets, packetId, k) ==>
           OnlyPacket(sys, k, sys.packets[k].(status := PromotionRejected), next)) &&
      (reply != Done ==> next == sys)
  {
    FoundAt(sys.packets, packetId);
    var k := FindPacket(sys.packets, packetId);
    hide FindPacket, WithPacket, OnlyPacket, PacketAt;
    if k >= 0 {
      Changed(sys, k, sys.packets[k].(status := PromotionRejected));
    }
  }

  /** Verifying: an approved packet, once; the same reference again changes nothing, and another is refused. */
  lemma VerifiedExactly(sys: System, redact: Redaction, packetId: string, ref: string)
    ensures var (next, reply) := VerifyPacket(sys, redact, packetId, ref);
      var stored := redact(ref, 2000);
      (reply == Done <==>
         FitText(ref, 2000) && StoredAs(redact, ref, 2000, stored) && Clean(redact, stored, 2000) &&
         exists k: nat :: PacketAt(sys.packets, packetId, k) && sys.packets[k].status == PromotionApproved &&
           |sys.packets[k].approvers| > 0 && sys.packets[k].verification in {None, Some(stored)}) &&
      (reply == Done ==>
         forall k: nat :: PacketAt(sys.packets, packetId, k) ==>
           OnlyPacket(sys, k, sys.packets[k].(verification := Some(stored)), next)) &&
      (reply != Done ==> next == sys)
  {
    FoundAt(sys.packets, packetId);
    FitTextIs(ref, MAX_REF);
    StoredExactly(redact, ref, MAX_REF);
    var k := FindPacket(sys.packets, packetId);
    hide FindPacket, Redacted, Bounded, FitText, WithPacket, OnlyPacket, StoredAs, PacketAt;
    if k >= 0 {
      Changed(sys, k, sys.packets[k].(verification := Some(redact(ref, 2000))));
    }
  }

  /** The four texts of a publication, each of which has to fit and be stored. */
  predicate EvidenceFits(redact: Redaction, e: Evidence) {
    FitText(e.prodRun, 2000) && FitText(e.verification, 2000) && FitText(e.acceptance, 2000) &&
    FitText(e.rollback, 2000) && StoredAs(redact, e.prodRun, 256, redact(e.prodRun, 256)) &&
    StoredAs(redact, e.verification, 2000, redact(e.verification, 2000)) &&
    StoredAs(redact, e.acceptance, 2000, redact(e.acceptance, 2000)) &&
    StoredAs(redact, e.rollback, 2000, redact(e.rollback, 2000)) &&
    Clean(redact, redact(e.prodRun, 256), 256) && Clean(redact, redact(e.acceptance, 2000), 2000) &&
    Clean(redact, redact(e.rollback, 2000), 2000)
  }

  /**
   * Publishing: a completed prod run of the packet, named by the evidence, on an approved packet whose verification is
   * the one given. The packet then names the run, and carries the acceptance and the way back.
   */
  lemma PublishedExactly(sys: System, redact: Redaction, run: Run, packetId: string, e: Evidence)
    ensures var (next, reply) := PublishPacket(sys, redact, run, packetId, e);
      (reply == Done <==>
         run.current.runId == e.prodRun && run.status == Completed && run.current.profile == Some(Prod) &&
         run.current.packet == Some(packetId) && EvidenceFits(redact, e) &&
         exists k: nat :: PacketAt(sys.packets, packetId, k) && sys.packets[k].status == PromotionApproved &&
           |sys.packets[k].approvers| > 0 && sys.packets[k].verification == Some(redact(e.verification, 2000))) &&
      (reply == Done ==>
         forall k: nat :: PacketAt(sys.packets, packetId, k) ==>
           OnlyPacket(sys, k, sys.packets[k].(prodRun := Some(redact(e.prodRun, 256)),
                                              acceptance := Some(redact(e.acceptance, 2000)),
                                              rollback := Some(redact(e.rollback, 2000)), status := Published),
                      next)) &&
      (reply != Done ==> next == sys)
  {
    FoundAt(sys.packets, packetId);
    EvidenceStored(redact, e);
    var k := FindPacket(sys.packets, packetId);
    hide FindPacket, Redacted, Bounded, FitText, WithPacket, OnlyPacket, StoredAs, PacketAt, EvidenceFits;
    if k >= 0 {
      Changed(sys, k, sys.packets[k].(prodRun := Some(redact(e.prodRun, 256)),
                                      acceptance := Some(redact(e.acceptance, 2000)),
                                      rollback := Some(redact(e.rollback, 2000)), status := Published));
    }
  }

  lemma EvidenceStored(redact: Redaction, e: Evidence)
    ensures EvidenceFits(redact, e) <==>
      Bounded(e.prodRun, MAX_REF) && Bounded(e.verification, MAX_REF) && Bounded(e.acceptance, MAX_REF) &&
      Bounded(e.rollback, MAX_REF) && Redacted(redact, e.prodRun, MAX_ID).Some? &&
      Redacted(redact, e.verification, MAX_REF).Some? && Redacted(redact, e.acceptance, MAX_REF).Some? &&
      Redacted(redact, e.rollback, MAX_REF).Some? && Storable(redact, redact(e.prodRun, MAX_ID), MAX_ID) &&
      Storable(redact, redact(e.acceptance, MAX_REF), MAX_REF) && Storable(redact, redact(e.rollback, MAX_REF), MAX_REF)
    ensures forall s, max :: Redacted(redact, s, max).Some? ==> Redacted(redact, s, max).value == redact(s, max)
  {
    FitTextIs(e.prodRun, MAX_REF);
    FitTextIs(e.verification, MAX_REF);
    FitTextIs(e.acceptance, MAX_REF);
    FitTextIs(e.rollback, MAX_REF);
    StoredExactly(redact, e.prodRun, MAX_ID);
    StoredExactly(redact, e.verification, MAX_REF);
    StoredExactly(redact, e.acceptance, MAX_REF);
    StoredExactly(redact, e.rollback, MAX_REF);
    forall s, max: nat ensures Redacted(redact, s, max).Some? ==> Redacted(redact, s, max).value == redact(s, max) {
      StoredExactly(redact, s, max);
    }
    hide Bounded, Redacted, FitText, StoredAs;
  }

  /** Rolling back: a published packet; its status and nothing else. */
  lemma RolledBackExactly(sys: System, packetId: string)
    ensures var (next, reply) := RollBackPacket(sys, packetId);
      (reply == Done <==>
         exists k: nat :: PacketAt(sys.packets, packetId, k) && sys.packets[k].status == Published) &&
      (reply == Done ==>
         forall k: nat :: PacketAt(sys.packets, packetId, k) ==>
           OnlyPacket(sys, k, sys.packets[k].(status := RolledBack), next)) &&
      (reply != Done ==> next == sys)
  {
    FoundAt(sys.packets, packetId);
    var k := FindPacket(sys.packets, packetId);
    hide FindPacket, WithPacket, OnlyPacket, PacketAt;
    if k >= 0 {
      Changed(sys, k, sys.packets[k].(status := RolledBack));
    }
  }
}
