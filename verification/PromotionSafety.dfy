/** What no sequence of requests can break: one prod run to a packet, and no run ever changes lane. */
module PromotionSafety {
  import opened Text
  import opened ExecutionProfile
  import opened RunRevision
  import opened RunHistory
  import opened Promotion
  import opened PromotionRules

  /** Approved by the owner and carrying its verification: what a packet needs before a prod run is linked to it. */
  predicate Backed(p: Packet) {
    (p.status.PromotionApproved? || p.status.Published? || p.status.RolledBack?) && "owner" in p.approvers &&
    p.verification.Some?
  }

  predicate PublishedBy(run: Run, p: Packet, redact: Redaction) {
    run.status.Completed? && run.current.profile == Some(Prod) && run.current.packet == Some(p.id) &&
    p.prodRun == Some(redact(run.current.runId, MAX_ID))
  }

  /** A packet names a prod run exactly once it is published, and then that run is a completed one of its own. */
  predicate PacketOk(runs: seq<Run>, p: Packet, redact: Redaction) {
    if p.status.Published? || p.status.RolledBack? then
      exists i :: 0 <= i < |runs| && PublishedBy(runs[i], p, redact)
    else
      p.prodRun.None?
  }

  predicate UniquePackets(packets: seq<Packet>) {
    forall j, k :: 0 <= j < k < |packets| ==> packets[j].id != packets[k].id
  }

  predicate LinkOk(packets: seq<Packet>, d: Draft) {
    d.packet.Some? ==> exists k :: 0 <= k < |packets| && packets[k].id == d.packet.value && Backed(packets[k])
  }

  predicate OneRunEach(runs: seq<Run>) {
    forall i, j :: 0 <= i < j < |runs| && runs[i].current.packet.Some? ==>
      runs[i].current.packet != runs[j].current.packet
  }

  /** The record a request read is what some run was. */
  predicate SeenOk(runs: seq<Run>, seen: Run) { exists i :: 0 <= i < |runs| && Later(seen, runs[i]) }

  predicate Safe(sys: System, redact: Redaction) {
    StoreOk(sys.store) && UniquePackets(sys.packets) && OneRunEach(sys.store.runs) &&
    (forall i :: 0 <= i < |sys.store.runs| ==> LinkOk(sys.packets, sys.store.runs[i].current)) &&
    (forall k :: 0 <= k < |sys.packets| ==> PacketOk(sys.store.runs, sys.packets[k], redact)) &&
    (forall t :: 0 <= t < |sys.seen| ==> SeenOk(sys.store.runs, sys.seen[t]))
  }

  /** A state directory with nothing in it is one to start from. */
  lemma EmptySystemSafe(redact: Redaction)
    ensures Safe(System(Store([], []), [], []), redact)
  {
  }

  /** What a packet may become: what backed a prod run still backs it, and evidence once given stays. */
  predicate PacketLater(p: Packet, q: Packet) {
    p.id == q.id && (Backed(p) ==> Backed(q)) && (p.verification.Some? ==> q.verification == p.verification) &&
    (p.prodRun.Some? ==> q.prodRun == p.prodRun)
  }

  predicate PacketsGrow(before: seq<Packet>, after: seq<Packet>) {
    |before| <= |after| && forall k :: 0 <= k < |before| ==> PacketLater(before[k], after[k])
  }

  predicate Progress(sys: System, next: System) {
    Grows(sys.store, next.store) && PacketsGrow(sys.packets, next.packets) && sys.seen <= next.seen
  }

  // ----- How the parts of the invariant survive growth

  lemma PacketStaysOk(before: seq<Run>, after: seq<Run>, p: Packet, redact: Redaction)
    requires RunsGrow(before, after) && PacketOk(before, p, redact)
    ensures PacketOk(after, p, redact)
  {
    if p.status.Published? || p.status.RolledBack? {
      var i :| 0 <= i < |before| && PublishedBy(before[i], p, redact);
      assert Later(before[i], after[i]);
      assert PublishedBy(after[i], p, redact);
    }
  }

  lemma SeenStaysOk(before: seq<Run>, after: seq<Run>, seen: Run)
    requires RunsGrow(before, after) && SeenOk(before, seen)
    ensures SeenOk(after, seen)
  {
    var i :| 0 <= i < |before| && Later(seen, before[i]);
    assert Later(before[i], after[i]);
    assert Later(seen, after[i]);
  }

  lemma LinkStaysOk(before: seq<Packet>, after: seq<Packet>, d: Draft)
    requires PacketsGrow(before, after) && LinkOk(before, d)
    ensures LinkOk(after, d)
  {
    hide Backed;
    if d.packet.Some? {
      var k :| 0 <= k < |before| && before[k].id == d.packet.value && Backed(before[k]);
      assert PacketLater(before[k], after[k]);
    }
  }

  /** A step on the store alone, after which every run is still linked properly. */
  lemma StoreStepSafe(sys: System, store: Store, redact: Redaction)
    requires Safe(sys, redact) && StoreOk(store) && Grows(sys.store, store) && OneRunEach(store.runs)
    requires forall i :: |sys.store.runs| <= i < |store.runs| ==> LinkOk(sys.packets, store.runs[i].current)
    ensures Safe(sys.(store := store), redact) && Progress(sys, sys.(store := store))
  {
    hide StoreOk, OneRunEach, PacketOk, SeenOk, Later, Backed, UniquePackets;
    forall i | 0 <= i < |store.runs| ensures LinkOk(sys.packets, store.runs[i].current) {
      if i < |sys.store.runs| {
        SameLink(sys.packets, sys.store.runs[i], store.runs[i]);
      }
    }
    forall k | 0 <= k < |sys.packets| ensures PacketOk(store.runs, sys.packets[k], redact) {
      PacketStaysOk(sys.store.runs, store.runs, sys.packets[k], redact);
    }
    forall t | 0 <= t < |sys.seen| ensures SeenOk(store.runs, sys.seen[t]) {
      SeenStaysOk(sys.store.runs, store.runs, sys.seen[t]);
    }
  }

  lemma SameLink(packets: seq<Packet>, run: Run, later: Run)
    requires Later(run, later) && LinkOk(packets, run.current)
    ensures LinkOk(packets, later.current)
  {
  }

  lemma OneRunEachStays(before: seq<Run>, after: seq<Run>)
    requires OneRunEach(before) && RunsGrow(before, after)
    requires forall i, j :: 0 <= i < j < |after| && |before| <= j && after[i].current.packet.Some? ==>
      after[i].current.packet != after[j].current.packet
    ensures OneRunEach(after)
  {
    forall i, j | 0 <= i < j < |after| && after[i].current.packet.Some?
      ensures after[i].current.packet != after[j].current.packet
    {
      if j < |before| {
        assert Later(before[i], after[i]) && Later(before[j], after[j]);
      }
    }
  }

  /** A step that adds no run. */
  lemma SameRunsSafe(sys: System, store: Store, redact: Redaction)
    requires Safe(sys, redact) && StoreOk(store) && Grows(sys.store, store) && |store.runs| == |sys.store.runs|
    ensures Safe(sys.(store := store), redact) && Progress(sys, sys.(store := store))
  {
    hide StoreOk, OneRunEach, PacketOk, SeenOk, LinkOk, Later, UniquePackets;
    OneRunEachStays(sys.store.runs, store.runs);
    StoreStepSafe(sys, store, redact);
  }

  /** A step that changes one packet. */
  lemma PacketStepSafe(sys: System, k: nat, p: Packet, redact: Redaction)
    requires Safe(sys, redact) && k < |sys.packets| && PacketLater(sys.packets[k], p)
    requires PacketOk(sys.store.runs, p, redact)
    ensures Safe(WithPacket(sys, k, p), redact) && Progress(sys, WithPacket(sys, k, p))
  {
    hide StoreOk, OneRunEach, PacketOk, SeenOk, LinkOk, Backed;
    StoreGrowsReflexive(sys.store);
    var packets := sys.packets[k := p];
    assert PacketsGrow(sys.packets, packets);
    forall i | 0 <= i < |sys.store.runs| ensures LinkOk(packets, sys.store.runs[i].current) {
      LinkStaysOk(sys.packets, packets, sys.store.runs[i].current);
    }
  }

  lemma StoreGrowsReflexive(s: Store)
    ensures Grows(s, s)
  {
  }

  lemma PacketAddedSafe(sys: System, p: Packet, redact: Redaction)
    requires Safe(sys, redact) && FindPacket(sys.packets, p.id) < 0 && p.status.PromotionPending? && p.prodRun.None?
    ensures var next := sys.(packets := sys.packets + [p]); Safe(next, redact) && Progress(sys, next)
  {
    hide StoreOk, OneRunEach, SeenOk, LinkOk, Backed, FindPacket;
    StoreGrowsReflexive(sys.store);
    var packets := sys.packets + [p];
    assert PacketsGrow(sys.packets, packets);
    forall i | 0 <= i < |sys.store.runs| ensures LinkOk(packets, sys.store.runs[i].current) {
      LinkStaysOk(sys.packets, packets, sys.store.runs[i].current);
    }
  }

  // ----- Each request

  lemma PrepareRunAdds(s: Store, c: Creation)
    ensures PrepareRun(s, c).store.runs == s.runs ||
      (PrepareRun(s, c).store.runs == s.runs + [NewRun(c)] && InputError(c.input, c.enabled).None?)
  {
    hide InputError, NewRun, Find;
  }

  lemma PreparedSafe(sys: System, c: Creation, redact: Redaction)
    requires Safe(sys, redact) && Find(sys.store.runs, c.id).None?
    requires InputError(c.input, c.enabled).None? && c.input.packet.Some? ==>
      LinkOk(sys.packets, NewRun(c).current) && !LinkedElsewhere(sys.store.runs, c.input.packet.value, None)
    ensures Safe(Prepared(sys, c).0, redact) && Progress(sys, Prepared(sys, c).0)
  {
    hide StoreOk, PacketOk, SeenOk, InputError, PromptTokens, Find, OneRunEach, Later, UniquePackets, PrepareRun,
         Backed;
    PrepareKeeps(sys.store, c);
    PrepareRunAdds(sys.store, c);
    var store := PrepareRun(sys.store, c).store;
    if store.runs == sys.store.runs {
      SameRunsSafe(sys, store, redact);
    } else {
      forall i, j | 0 <= i < j < |store.runs| && |sys.store.runs| <= j && store.runs[i].current.packet.Some?
        ensures store.runs[i].current.packet != store.runs[j].current.packet
      {
        assert store.runs[i] == sys.store.runs[i];
      }
      OneRunEachStays(sys.store.runs, store.runs);
      StoreStepSafe(sys, store, redact);
    }
  }

  lemma CreateSafe(sys: System, c: Creation, verification: Option<string>, redact: Redaction)
    requires Safe(sys, redact) && Find(sys.store.runs, c.id).None?
    ensures var next := Step(sys, redact, CreateRun(c, verification)).0; Safe(next, redact) && Progress(sys, next)
  {
    hide StoreOk, PacketOk, SeenOk, Find, OneRunEach, UniquePackets, PrepareRun, PromptTokens, LinkedElsewhere, Later;
    SameRunsSafe(sys, sys.store, redact) by { StoreGrowsReflexive(sys.store); }
    if c.input.profile.Dev? {
      assert InputError(c.input, c.enabled).None? ==> c.input.packet.None?;
      PreparedSafe(sys, c, redact);
    } else if c.input.packet.Some? && verification.Some? && FindPacket(sys.packets, c.input.packet.value) >= 0 {
      var k := FindPacket(sys.packets, c.input.packet.value);
      if Ready(sys.packets[k], verification.value) && !LinkedElsewhere(sys.store.runs, c.input.packet.value, None) {
        assert Backed(sys.packets[k]);
        PreparedSafe(sys, c, redact);
      }
    }
  }

  lemma FoundIs(runs: seq<Run>, i: nat)
    requires UniqueIds(runs) && i < |runs|
    ensures Find(runs, runs[i].current.runId) == Some(runs[i])
  {
    var j := FindIndex(runs, runs[i].current.runId);
  }

  /** A run read earlier is still in the lane it was read in: what makes the unlocked profile check safe. */
  lemma SeenLane(sys: System, t: nat, redact: Redaction)
    requires Safe(sys, redact) && t < |sys.seen|
    ensures var run := Find(sys.store.runs, sys.seen[t].current.runId);
      run.Some? && Later(sys.seen[t], run.value)
  {
    hide PacketOk, LinkOk, OneRunEach, RunOk, ApprovalOk, Later;
    assert SeenOk(sys.store.runs, sys.seen[t]);
    var i :| 0 <= i < |sys.store.runs| && Later(sys.seen[t], sys.store.runs[i]);
    LaterKeepsId(sys.seen[t], sys.store.runs[i]);
    FoundIs(sys.store.runs, i);
  }

  lemma LaterKeepsId(run: Run, later: Run)
    requires Later(run, later)
    ensures run.current.runId == later.current.runId && SameLane(run.current, later.current)
  {
  }

  lemma ReviseRunsCount(s: Store, a: Attempt)
    ensures |ReviseRunWithApproval(s, a).store.runs| == |s.runs|
  {
    hide InputError, PromptTokens, Find, DraftOf;
  }

  lemma RevisedSafe(sys: System, a: Attempt, redact: Redaction)
    requires Safe(sys, redact) && KeepsLane(sys.store, a)
    ensures Safe(Revised(sys, a).0, redact) && Progress(sys, Revised(sys, a).0)
  {
    hide StoreOk, PacketOk, SeenOk, OneRunEach, LinkOk, ReviseRunWithApproval, Find;
    ReviseKeeps(sys.store, a);
    ReviseRunsCount(sys.store, a);
    SameRunsSafe(sys, ReviseRunWithApproval(sys.store, a).store, redact);
  }

  lemma FoundRunOk(s: Store, id: string)
    requires StoreOk(s) && Find(s.runs, id).Some?
    ensures LaneOk(Find(s.runs, id).value.current)
  {
    var i := FindIndex(s.runs, id);
    assert RunOk(s.runs[i]);
  }

  /** An input the draft checks refuse leaves the system as it was, unless it repeats the draft already stored. */
  lemma RefusedInput(s: Store, a: Attempt)
    requires a.input.profile.Dev? && a.input.packet.Some?
    requires Find(s.runs, a.runId).Some? ==> LaneOk(Find(s.runs, a.runId).value.current)
    ensures ReviseRunWithApproval(s, a).store == s
  {
    hide PromptTokens, Find;
  }

  lemma NotProd(d: Draft)
    requires LaneOk(d) && d.profile != Some(Prod) && d.profile.Some?
    ensures d.profile == Some(Dev) && d.packet == None
  {
    match d.profile.value {
      case Dev =>
      case Prod =>
    }
  }

  lemma ReviseSafe(
    sys: System, t: nat, a: Attempt, routeAvailable: bool, verification: Option<string>, redact: Redaction)
    requires Safe(sys, redact) && t < |sys.seen| && sys.seen[t].current.runId == a.runId
    ensures var next := ReviseRoute(sys, sys.seen[t], a, routeAvailable, verification).0;
      Safe(next, redact) && Progress(sys, next)
  {
    hide StoreOk, PacketOk, SeenOk, OneRunEach, LinkOk, ReviseRunWithApproval, Find, Later, LinkedElsewhere, Ready;
    SameRunsSafe(sys, sys.store, redact) by { StoreGrowsReflexive(sys.store); }
    SeenLane(sys, t, redact);
    var run := Find(sys.store.runs, a.runId).value;
    LaterKeepsId(sys.seen[t], run);
    FoundRunOk(sys.store, a.runId);
    if sys.seen[t].current.profile == Some(Prod) || a.input.profile.Prod? {
      if ProdRevisionAllowed(sys, a, verification) {
        RevisedSafe(sys, a, redact);
      }
    } else if a.input.packet.Some? {
      RefusedInput(sys.store, a);
    } else {
      if run.current.profile.Some? {
        NotProd(run.current);
      }
      RevisedSafe(sys, a, redact);
    }
  }

  lemma BuildSafe(sys: System, run: Run, packetId: string, contentFits: bool, redact: Redaction)
    requires Safe(sys, redact)
    ensures var next := BuildPacket(sys, run, packetId, contentFits).0; Safe(next, redact) && Progress(sys, next)
  {
    hide StoreOk, PacketOk, SeenOk, OneRunEach, LinkOk, FindPacket;
    SameRunsSafe(sys, sys.store, redact) by { StoreGrowsReflexive(sys.store); }
    if FindPacket(sys.packets, packetId) < 0 {
      var p := Packet(packetId, run.current.runId, run.current.revision, [], None, None, None, None, PromotionPending);
      PacketAddedSafe(sys, p, redact);
    }
  }

  lemma TransitionsSafe(sys: System, packetId: string, ref: string, redact: Redaction)
    requires Safe(sys, redact)
    ensures var next := ApprovePacket(sys, redact, packetId, ref).0; Safe(next, redact) && Progress(sys, next)
    ensures var next := RejectPacket(sys, packetId).0; Safe(next, redact) && Progress(sys, next)
    ensures var next := RollBackPacket(sys, packetId).0; Safe(next, redact) && Progress(sys, next)
  {
    hide Safe, Progress, Redacted, Bounded, Storable;
    SameRunsSafe(sys, sys.store, redact) by { StoreGrowsReflexive(sys.store); SafeStore(sys, redact); }
    var k := FindPacket(sys.packets, packetId);
    if k >= 0 {
      var p := sys.packets[k];
      SafePacket(sys, k, redact);
      if p.status.PromotionPending? {
        var approver := Redacted(redact, "owner", MAX_ID);
        if approver.Some? {
          PacketStepSafe(sys, k, p.(approvers := [approver.value], status := PromotionApproved), redact);
        }
        PacketStepSafe(sys, k, p.(status := PromotionRejected), redact);
      } else if p.status.Published? {
        var q := p.(status := RolledBack);
        var i :| 0 <= i < |sys.store.runs| && PublishedBy(sys.store.runs[i], p, redact);
        assert PublishedBy(sys.store.runs[i], q, redact);
        PacketStepSafe(sys, k, q, redact);
      }
    }
  }

  lemma SafeStore(sys: System, redact: Redaction)
    requires Safe(sys, redact)
    ensures StoreOk(sys.store)
  {
  }

  lemma SafePacket(sys: System, k: nat, redact: Redaction)
    requires Safe(sys, redact) && k < |sys.packets|
    ensures PacketOk(sys.store.runs, sys.packets[k], redact)
  {
  }

  lemma VerifySafe(sys: System, packetId: string, ref: string, redact: Redaction)
    requires Safe(sys, redact)
    ensures var next := VerifyPacket(sys, redact, packetId, ref).0; Safe(next, redact) && Progress(sys, next)
  {
    hide Safe, Progress, Redacted, Bounded, Storable;
    SameRunsSafe(sys, sys.store, redact) by { StoreGrowsReflexive(sys.store); SafeStore(sys, redact); }
    var k := FindPacket(sys.packets, packetId);
    var next := VerifyPacket(sys, redact, packetId, ref).0;
    if next != sys {
      SafePacket(sys, k, redact);
      PacketStepSafe(sys, k, sys.packets[k].(verification := Redacted(redact, ref, MAX_REF)), redact);
    }
  }

  /** Publishing acts on a completed run as it was read; a completed run never changes, so it still holds. */
  lemma PublishSafe(sys: System, t: nat, packetId: string, e: Evidence, redact: Redaction)
    requires Safe(sys, redact) && t < |sys.seen|
    ensures var next := PublishPacket(sys, redact, sys.seen[t], packetId, e).0;
      Safe(next, redact) && Progress(sys, next)
  {
    hide Safe, Progress, Bounded, Storable, Find;
    SameRunsSafe(sys, sys.store, redact) by { StoreGrowsReflexive(sys.store); SafeStore(sys, redact); }
    var next := PublishPacket(sys, redact, sys.seen[t], packetId, e).0;
    if next != sys {
      var k := FindPacket(sys.packets, packetId);
      SeenLane(sys, t, redact);
      SafePacket(sys, k, redact);
      var i := FindIndex(sys.store.runs, e.prodRun);
      assert PublishedBy(sys.store.runs[i], next.packets[k], redact);
      PacketStepSafe(sys, k, next.packets[k], redact);
    }
  }

  // ----- Every sequence of requests

  /** New runs get ids no run has: the code draws them at random. */
  predicate FreshId(sys: System, request: Request) {
    request.CreateRun? ==> Find(sys.store.runs, request.creation.id).None?
  }

  lemma StepSafe(sys: System, redact: Redaction, request: Request)
    requires Safe(sys, redact) && FreshId(sys, request)
    ensures Safe(Step(sys, redact, request).0, redact) && Progress(sys, Step(sys, redact, request).0)
  {
    hide Safe, Progress, Find, ReviseRoute, CreateProdDraft, Prepared, MoveRun, DecideApproval, SubmitApproval,
         BuildPacket, ApprovePacket, RejectPacket, VerifyPacket, PublishPacket, RollBackPacket, StoreOk, Grows,
         PacketsGrow, OneRunEach, LinkOk, PacketOk, SeenOk, RunsGrow, UniquePackets;
    SafeStore(sys, redact);
    SameRunsSafe(sys, sys.store, redact) by { StoreGrowsReflexive(sys.store); }
    match request {
      case ReadRun(id) => ReadSafe(sys, id, redact);
      case CreateRun(c, verification) => CreateSafe(sys, c, verification, redact);
      case ReviseSeen(t, a, routeAvailable, verification) =>
        if t < |sys.seen| && sys.seen[t].current.runId == a.runId {
          ReviseSafe(sys, t, a, routeAvailable, verification, redact);
        }
      case Move(id, to, now) =>
        MoveKeeps(sys.store, id, to, now);
        MoveCount(sys.store, id, to, now);
        SameRunsSafe(sys, MoveRun(sys.store, id, to, now), redact);
      case Decide(k, decision, more) =>
        DecideKeeps(sys.store, k, decision, more);
        DecideCount(sys.store, k, decision, more);
        SameRunsSafe(sys, DecideApproval(sys.store, k, decision, more), redact);
      case Submit(a) =>
        SubmitKeeps(sys.store, a);
        SubmitCount(sys.store, a);
        SameRunsSafe(sys, SubmitApproval(sys.store, a), redact);
      case Build(t, packetId, contentFits) =>
        if t < |sys.seen| {
          BuildSafe(sys, sys.seen[t], packetId, contentFits, redact);
        }
      case Approve(packetId, ref) => TransitionsSafe(sys, packetId, ref, redact);
      case Reject(packetId) => TransitionsSafe(sys, packetId, "", redact);
      case Verify(packetId, ref) => VerifySafe(sys, packetId, ref, redact);
      case Publish(t, packetId, e) =>
        if t < |sys.seen| {
          PublishSafe(sys, t, packetId, e, redact);
        }
      case RollBack(packetId) => TransitionsSafe(sys, packetId, "", redact);
    }
  }

  lemma MoveCount(s: Store, id: string, to: Status, now: Time)
    ensures |MoveRun(s, id, to, now).runs| == |s.runs|
  {
  }

  lemma DecideCount(s: Store, k: nat, decision: Decision, more: nat)
    ensures |DecideApproval(s, k, decision, more).runs| == |s.runs|
  {
  }

  lemma SubmitCount(s: Store, a: Approval)
    ensures |SubmitApproval(s, a).runs| == |s.runs|
  {
  }

  lemma ReadSafe(sys: System, id: string, redact: Redaction)
    requires Safe(sys, redact)
    ensures var next := Step(sys, redact, ReadRun(id)).0; Safe(next, redact) && Progress(sys, next)
  {
    hide StoreOk, PacketOk, OneRunEach, LinkOk, Find;
    SameRunsSafe(sys, sys.store, redact) by { StoreGrowsReflexive(sys.store); }
    if Find(sys.store.runs, id).Some? {
      var i := FindIndex(sys.store.runs, id);
      assert Later(sys.store.runs[i], sys.store.runs[i]);
      assert SeenOk(sys.store.runs, sys.store.runs[i]);
    }
  }

  /** The states a sequence of requests goes through. */
  ghost predicate Path(states: seq<System>, requests: seq<Request>, redact: Redaction) {
    |states| == |requests| + 1 &&
    forall n :: 0 <= n < |requests| ==> Moves(states[n], requests[n], states[n + 1], redact)
  }

  ghost predicate Moves(sys: System, request: Request, next: System, redact: Redaction) {
    FreshId(sys, request) && next == Step(sys, redact, request).0
  }

  lemma ProgressTransitive(a: System, b: System, c: System)
    requires Progress(a, b) && Progress(b, c)
    ensures Progress(a, c)
  {
    hide Grows, Backed;
    GrowsTransitive(a.store, b.store, c.store);
    forall k | 0 <= k < |a.packets| ensures PacketLater(a.packets[k], c.packets[k]) {
      assert PacketLater(a.packets[k], b.packets[k]) && PacketLater(b.packets[k], c.packets[k]);
    }
  }

  lemma {:induction false} PathSafe(states: seq<System>, requests: seq<Request>, m: nat, n: nat, redact: Redaction)
    requires Path(states, requests, redact) && Safe(states[0], redact) && m <= n < |states|
    ensures Safe(states[m], redact) && Safe(states[n], redact) && Progress(states[m], states[n])
    decreases n, m
  {
    hide Safe, Progress, Moves;
    if n == 0 {
      SafeStore(states[0], redact);
      SameRunsSafe(states[0], states[0].store, redact) by { StoreGrowsReflexive(states[0].store); }
    } else {
      PathSafe(states, requests, n - 1, n - 1, redact);
      assert Moves(states[n - 1], requests[n - 1], states[n], redact);
      MoveSafe(states[n - 1], requests[n - 1], states[n], redact);
      if m < n {
        PathSafe(states, requests, m, n - 1, redact);
        ProgressTransitive(states[m], states[n - 1], states[n]);
      } else {
        SafeStore(states[n], redact);
        SameRunsSafe(states[n], states[n].store, redact) by { StoreGrowsReflexive(states[n].store); }
      }
    }
  }

  lemma MoveSafe(sys: System, request: Request, next: System, redact: Redaction)
    requires Safe(sys, redact) && Moves(sys, request, next, redact)
    ensures Safe(next, redact) && Progress(sys, next)
  {
    hide Safe, Progress;
    StepSafe(sys, redact, request);
  }

  /** A run is, at each of two moments, in the same lane and for the same packet. */
  predicate KeepsItsLane(before: System, after: System, id: string) {
    Find(before.store.runs, id).Some? ==>
      Find(after.store.runs, id).Some? &&
      SameLane(Find(before.store.runs, id).value.current, Find(after.store.runs, id).value.current) &&
      Find(before.store.runs, id).value.revisions <= Find(after.store.runs, id).value.revisions
  }

  predicate OnlyRunFor(sys: System, packetId: string, i: nat, j: nat)
    requires i < |sys.store.runs| && j < |sys.store.runs|
  {
    sys.store.runs[i].current.packet == Some(packetId) == sys.store.runs[j].current.packet ==> i == j
  }

  /**
   * In every run of the system: no packet has two prod runs; no run ever changes profile or packet or loses a
   * revision; every prod run's packet was approved by the owner with its verification recorded; no run revision has
   * two approvals, each approval says what the revision it is for says, no approval is lost or changed but for its
   * decision, and the queue file stays within its limits.
   */
  lemma PromotionSafety(states: seq<System>, requests: seq<Request>, m: nat, n: nat, redact: Redaction)
    requires Path(states, requests, redact) && Safe(states[0], redact) && m <= n < |states|
    ensures forall packetId, i, j :: 0 <= i < |states[n].store.runs| && 0 <= j < |states[n].store.runs| ==>
      OnlyRunFor(states[n], packetId, i, j)
    ensures forall id :: KeepsItsLane(states[m], states[n], id)
    ensures forall i :: 0 <= i < |states[n].store.runs| ==>
      LaneOk(states[n].store.runs[i].current) && LinkOk(states[n].packets, states[n].store.runs[i].current)
    ensures OneApprovalEach(states[n].store.queue) && QueueFits(states[n].store.queue)
    ensures forall k :: 0 <= k < |states[n].store.queue| ==>
      ApprovalOk(states[n].store.runs, states[n].store.queue[k])
    ensures |states[m].store.queue| <= |states[n].store.queue|
    ensures forall k :: 0 <= k < |states[m].store.queue| ==>
      Undecided(states[n].store.queue[k]) == Undecided(states[m].store.queue[k])
  {
    assert Progress(states[m], states[n]) ==> Grows(states[m].store, states[n].store);
    hide Path, Find, Progress, PacketOk, SeenOk, LinkOk, ApprovalOk, QueueFits;
    PathSafe(states, requests, m, n, redact);
    forall id ensures KeepsItsLane(states[m], states[n], id) {
      LaneKept(states[m], states[n], id, redact);
    }
    forall i | 0 <= i < |states[n].store.runs| ensures LaneOk(states[n].store.runs[i].current) {
      assert RunOk(states[n].store.runs[i]);
    }
  }

  lemma LaneKept(before: System, after: System, id: string, redact: Redaction)
    requires Safe(before, redact) && Safe(after, redact) && Progress(before, after)
    ensures KeepsItsLane(before, after, id)
  {
    hide PacketOk, SeenOk, LinkOk, OneRunEach, RunOk, ApprovalOk, Find;
    if Find(before.store.runs, id).Some? {
      var i := FindIndex(before.store.runs, id);
      assert Later(before.store.runs[i], after.store.runs[i]);
      FoundIs(after.store.runs, i);
    }
  }

  /**
   * Reading the profile without the lock is harmless: when the revision acts, the run still has the profile that was
   * read, so a prod run is only ever revised under its packet's gate.
   */
  lemma UnlockedProfileReadIsSafe(
    states: seq<System>, requests: seq<Request>, n: nat, redact: Redaction, a: Attempt, routeAvailable: bool,
    verification: Option<string>, t: nat)
    requires Path(states, requests, redact) && Safe(states[0], redact) && n < |requests|
    requires requests[n] == ReviseSeen(t, a, routeAvailable, verification)
    requires states[n + 1].store != states[n].store
    ensures t < |states[n].seen| && Find(states[n].store.runs, a.runId).Some?
    ensures var run := Find(states[n].store.runs, a.runId).value;
      states[n].seen[t].current.profile == run.current.profile &&
      (run.current.profile == Some(Prod) ==>
         AsksProdRevision(run, a, verification) &&
         MayCarry(states[n], run.current.packet.value, verification.value, Some(a.runId)))
  {
    ProdRevisedExactly(states[n], a, verification);
    hide Safe, Progress, Find, ReviseRunWithApproval, ProdRevisionAllowed, MayCarry, AsksProdRevision;
    PathSafe(states, requests, n, n, redact);
    assert Moves(states[n], requests[n], states[n + 1], redact);
    SeenLane(states[n], t, redact);
    LaterKeepsId(states[n].seen[t], Find(states[n].store.runs, a.runId).value);
  }

  predicate RunCompletedFor(runs: seq<Run>, i: nat, p: Packet, redact: Redaction) {
    i < |runs| && PublishedBy(runs[i], p, redact) &&
    forall j :: 0 <= j < |runs| && runs[j].current.packet == Some(p.id) ==> j == i
  }

  /** A published packet names the one run drafted for it, and that run completed. */
  lemma PublishedNamesItsRun(states: seq<System>, requests: seq<Request>, n: nat, k: nat, redact: Redaction)
    requires Path(states, requests, redact) && Safe(states[0], redact) && n < |states| && k < |states[n].packets|
    requires states[n].packets[k].prodRun.Some?
    ensures exists i: nat :: RunCompletedFor(states[n].store.runs, i, states[n].packets[k], redact)
  {
    hide Path, StoreOk, SeenOk, LinkOk, Progress;
    PathSafe(states, requests, n, n, redact);
    var p, runs := states[n].packets[k], states[n].store.runs;
    assert PacketOk(runs, p, redact);
    var i: nat :| i < |runs| && PublishedBy(runs[i], p, redact);
    assert RunCompletedFor(runs, i, p, redact);
  }
}
