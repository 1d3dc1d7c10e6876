/** The gates of `dispatchHandoff`, and the packet hash the first of them compares. */
module DispatchGates {
  import opened Text
  import opened ExecutionProfile
  import opened Sorting

  // ----- The governance packet and its hash

  datatype Packet = Packet(
    relevantNodes: seq<string>,
    rules: seq<string>,
    requiredChecks: seq<string>,
    stopConditions: seq<string>,
    mustNotAssume: seq<string>)

  datatype Mode = Idea | Spec | Build | Review

  /** What is serialised and hashed: five sorted lists and the mode. */
  datatype Canonical = Canonical(packet: Packet, mode: Option<Mode>)

  function CanonicalPacket(p: Packet, mode: Option<Mode>): Canonical {
    Canonical(
      Packet(Sort(p.relevantNodes, StringLe), Sort(p.rules, StringLe), Sort(p.requiredChecks, StringLe),
             Sort(p.stopConditions, StringLe), Sort(p.mustNotAssume, StringLe)),
      mode)
  }

  /** The digest of the serialised packet, of which only injectivity is used. */
  type Digest = Canonical -> string

  ghost predicate Injective(hash: Digest) { forall x, y :: hash(x) == hash(y) ==> x == y }

  function ComputePacketHash(p: Packet, mode: Option<Mode>, hash: Digest): string { hash(CanonicalPacket(p, mode)) }

  /** The same governance content, whatever order its lists are in. */
  predicate SamePacket(p: Packet, q: Packet) {
    multiset(p.relevantNodes) == multiset(q.relevantNodes) &&
    multiset(p.rules) == multiset(q.rules) &&
    multiset(p.requiredChecks) == multiset(q.requiredChecks) &&
    multiset(p.stopConditions) == multiset(q.stopConditions) &&
    multiset(p.mustNotAssume) == multiset(q.mustNotAssume)
  }

  lemma SortedAlike(x: seq<string>, y: seq<string>)
    ensures Sort(x, StringLe) == Sort(y, StringLe) <==> multiset(x) == multiset(y)
  {
    StringOrder();
    SortPermutes(x, StringLe);
    SortPermutes(y, StringLe);
    if multiset(x) == multiset(y) {
      SortOfPermutation(x, y, StringLe);
    }
  }

  /** Equal hashes mean the same five multisets and the same mode, and nothing less. */
  lemma PacketHashExact(p: Packet, pm: Option<Mode>, q: Packet, qm: Option<Mode>, hash: Digest)
    requires Injective(hash)
    ensures ComputePacketHash(p, pm, hash) == ComputePacketHash(q, qm, hash) <==> SamePacket(p, q) && pm == qm
  {
    SortedAlike(p.relevantNodes, q.relevantNodes);
    SortedAlike(p.rules, q.rules);
    SortedAlike(p.requiredChecks, q.requiredChecks);
    SortedAlike(p.stopConditions, q.stopConditions);
    SortedAlike(p.mustNotAssume, q.mustNotAssume);
  }

  // ----- Routing lanes

  type Vendor = Provider

  datatype OpenrouterMode = QwenCodeDraft | NemotronPlanning

  datatype Lane =
    | AgyFast | AgyDeep | AgyGptOss | AgyClaudeSonnet | OpenrouterNemotron | OpenrouterQwen
    | QwenLocal | DeterministicTools | ClaudeSupervisor | CodexLane

  const EXPENSIVE_LANES: set<Lane> := {ClaudeSupervisor, CodexLane}

  predicate ContainsIgnoreCase(s: string, pattern: string) {
    StartsWithIgnoreCase(s, pattern) || (s != [] && ContainsIgnoreCase(s[1..], pattern))
  }

  /** None where the source throws: an OpenRouter handoff without a mode. */
  function ResolveLane(vendor: Vendor, openrouterMode: Option<OpenrouterMode>, model: Option<string>): Option<Lane> {
    match vendor
    case CodexCli => Some(CodexLane)
    case ClaudeCli => Some(AgyClaudeSonnet)
    case AgyCli =>
      var name := if model.Some? then model.value else "";
      if name == "gpt-oss-120b" then Some(AgyGptOss)
      else if name == "claude-4.6-sonnet" then Some(AgyClaudeSonnet)
      else if ContainsIgnoreCase(name, "pro") then Some(AgyDeep)
      else Some(AgyFast)
    case OpenRouterApi =>
      match openrouterMode
      case Some(NemotronPlanning) => Some(OpenrouterNemotron)
      case Some(QwenCodeDraft) => Some(OpenrouterQwen)
      case None => None
  }

  function AllowedLanes(mode: Mode): set<Lane> {
    match mode
    case Idea => {AgyFast, AgyDeep, AgyGptOss, AgyClaudeSonnet, OpenrouterNemotron}
    case Spec => {OpenrouterNemotron, AgyFast, AgyDeep, DeterministicTools}
    case Build => {OpenrouterQwen, QwenLocal, DeterministicTools, CodexLane}
    case Review => {AgyFast, AgyDeep, AgyGptOss, AgyClaudeSonnet, ClaudeSupervisor, CodexLane}
  }

  // ----- The handoff and its gates

  datatype Prep = CheapAttempts(refs: seq<string>) | CheapNotApplicable(reason: string, ownerOverride: bool)

  datatype Owner = ByDispatch | ByCaller

  datatype Handoff = Handoff(
    id: string,
    packetHash: string,
    requiredChecks: seq<string>,
    mode: Option<Mode>,
    vendor: Vendor,
    openrouterMode: Option<OpenrouterMode>,
    model: Option<string>,
    taskPacketRef: Option<string>,
    taskPackageHash: Option<string>,
    prep: Option<Prep>,
    session: Option<string>,
    inputTokens: nat,
    tracksEfficiency: bool,
    owner: Owner)

  datatype Reason =
    | PacketProvenanceMismatch | RoutingNoViableProvider | MissingRequiredChecks
    | LaneNotAllowedInMode | MissingUpstreamDraft | TokenBudgetExhausted

  /** The supervisor's routing decision: no viable provider, or a tier that may be unnamed. */
  datatype TierDecision = NoViableProvider | Tier(id: Option<string>)

  /** What the gates look at besides the handoff: the live packet and the routing decision. */
  datatype Evidence = Evidence(live: Packet, tier: TierDecision)

  datatype Verdict = Pass(tier: Option<string>) | Refuse(reason: Reason, tier: Option<string>, verified: bool)

  predicate NonEmpty(s: Option<string>) { s.Some? && Trim(s.value) != "" }

  predicate PrepSatisfied(prep: Option<Prep>) {
    match prep
    case None => false
    case Some(CheapAttempts(refs)) => refs != [] && forall i :: 0 <= i < |refs| ==> Trim(refs[i]) != ""
    case Some(CheapNotApplicable(reason, ownerOverride)) => Trim(reason) != "" && ownerOverride
  }

  function LaneOf(h: Handoff): Option<Lane> { ResolveLane(h.vendor, h.openrouterMode, h.model) }

  function Gate(h: Handoff, e: Evidence, hash: Digest): Verdict {
    if ComputePacketHash(e.live, h.mode, hash) != h.packetHash then Refuse(PacketProvenanceMismatch, None, false)
    else if e.tier.NoViableProvider? then Refuse(RoutingNoViableProvider, None, true)
    else if h.requiredChecks == [] then Refuse(MissingRequiredChecks, e.tier.id, true)
    else if h.mode.Some? && (LaneOf(h).None? || LaneOf(h).value !in AllowedLanes(h.mode.value)) then
      Refuse(LaneNotAllowedInMode, e.tier.id, true)
    else if h.mode == Some(Build) && LaneOf(h).Some? && LaneOf(h).value in EXPENSIVE_LANES &&
            (!NonEmpty(h.taskPacketRef) || !NonEmpty(h.taskPackageHash) || !PrepSatisfied(h.prep)) then
      Refuse(MissingUpstreamDraft, e.tier.id, true)
    else Pass(e.tier.id)
  }

  /** The handoff was issued for this packet and mode. */
  predicate IssuedFor(h: Handoff, packet: Packet, mode: Option<Mode>, hash: Digest) {
    h.packetHash == ComputePacketHash(packet, mode, hash)
  }

  // ----- What the gates ask, on the handoff's own fields

  predicate NotBlank(s: string) { exists i :: 0 <= i < |s| && !IsSpace(s[i]) }

  lemma TextGiven(s: string)
    ensures Trim(s) != "" <==> NotBlank(s)
  {
    TrimEmpty(s);
  }

  /** The models of the CLI that goes by model; `fixed` are the two it knows by name. */
  predicate NamesFixedModel(model: Option<string>) {
    model == Some("gpt-oss-120b") || model == Some("claude-4.6-sonnet")
  }

  /** Who may be handed work in which mode. */
  predicate MayWork(mode: Mode, h: Handoff) {
    match mode
    case Idea =>
      h.vendor == AgyCli || h.vendor == ClaudeCli ||
      (h.vendor == OpenRouterApi && h.openrouterMode == Some(NemotronPlanning))
    case Spec =>
      (h.vendor == AgyCli && !NamesFixedModel(h.model)) ||
      (h.vendor == OpenRouterApi && h.openrouterMode == Some(NemotronPlanning))
    case Build => h.vendor == CodexCli || (h.vendor == OpenRouterApi && h.openrouterMode == Some(QwenCodeDraft))
    case Review => h.vendor == AgyCli || h.vendor == ClaudeCli || h.vendor == CodexCli
  }

  lemma LanesAllowed(mode: Mode, h: Handoff)
    ensures LaneOf(h).Some? && LaneOf(h).value in AllowedLanes(mode) <==> MayWork(mode, h)
    ensures mode == Build && LaneOf(h).Some? && LaneOf(h).value in AllowedLanes(mode) ==>
      (LaneOf(h).value in EXPENSIVE_LANES <==> h.vendor == CodexCli)
  {
    hide ContainsIgnoreCase;
  }

  predicate ProAt(s: string, i: int) {
    0 <= i <= |s| - 3 && s[i] in "pP" && s[i + 1] in "rR" && s[i + 2] in "oO"
  }

  /** A model name that has `pro` in it, in either case, gets the deep lane of its CLI. */
  lemma DeepLane(h: Handoff)
    requires h.vendor == AgyCli && !NamesFixedModel(h.model)
    ensures LaneOf(h) == Some(AgyDeep) <==>
      h.model.Some? && exists i :: ProAt(h.model.value, i)
    ensures LaneOf(h) == Some(AgyDeep) || LaneOf(h) == Some(AgyFast)
  {
    if h.model.Some? {
      ProIn(h.model.value);
    }
  }

  lemma {:induction false} ProIn(s: string)
    ensures ContainsIgnoreCase(s, "pro") <==>
      exists i :: ProAt(s, i)
  {
    if s != "" {
      ProIn(s[1..]);
      assert StartsWithIgnoreCase(s, "pro") <==> |s| >= 3 && s[0] in "pP" && s[1] in "rR" && s[2] in "oO" by {
        StartsWithPro(s);
      }
      if ContainsIgnoreCase(s[1..], "pro") {
        var i :| ProAt(s[1..], i);
        assert ProAt(s, i + 1);
      }
      if i :| ProAt(s, i) {
        assert i == 0 || ProAt(s[1..], i - 1);
      }
      assert ProAt(s, 0) <==> StartsWithIgnoreCase(s, "pro");
    }
  }

  lemma StartsWithPro(s: string)
    ensures StartsWithIgnoreCase(s, "pro") <==> |s| >= 3 && s[0] in "pP" && s[1] in "rR" && s[2] in "oO"
  {
  }

  /** The work before an expensive build: attempts, each by a reference, or the owner's word and a reason. */
  predicate PreparedFor(prep: Option<Prep>) {
    prep.Some? &&
    if prep.value.CheapAttempts? then
      |prep.value.refs| > 0 && forall i :: 0 <= i < |prep.value.refs| ==> NotBlank(prep.value.refs[i])
    else prep.value.ownerOverride && NotBlank(prep.value.reason)
  }

  lemma PrepAsked(prep: Option<Prep>)
    ensures PrepSatisfied(prep) <==> PreparedFor(prep)
  {
    hide Trim, NotBlank;
    match prep
    case Some(CheapAttempts(refs)) =>
      forall i | 0 <= i < |refs| ensures Trim(refs[i]) != "" <==> NotBlank(refs[i]) { TextGiven(refs[i]); }
    case Some(CheapNotApplicable(reason, _)) => TextGiven(reason);
    case None =>
  }

  lemma NonEmptyAsked(s: Option<string>)
    ensures NonEmpty(s) <==> s.Some? && NotBlank(s.value)
  {
    if s.Some? { TextGiven(s.value); }
  }

  predicate BuildAsked(h: Handoff) {
    h.mode == Some(Build) && h.vendor == CodexCli ==>
      h.taskPacketRef.Some? && NotBlank(h.taskPacketRef.value) && h.taskPackageHash.Some? &&
      NotBlank(h.taskPackageHash.value) && PreparedFor(h.prep)
  }

  /**
   * A handoff issued for `packet` and `mode` passes exactly when the live packet still has that content, the mode is
   * the one it was issued for, a provider is viable, checks are required of it, its vendor, mode and model may work in
   * its mode, and, building on Codex, it names its packet, its hash and the work before. The first of these that fails
   * names the refusal.
   */
  lemma GatePassesExactly(h: Handoff, e: Evidence, packet: Packet, mode: Option<Mode>, hash: Digest)
    requires Injective(hash) && IssuedFor(h, packet, mode, hash)
    ensures Gate(h, e, hash).Pass? <==>
            SamePacket(e.live, packet) && h.mode == mode && e.tier.Tier? && |h.requiredChecks| > 0 &&
            (h.mode.Some? ==> MayWork(h.mode.value, h)) && BuildAsked(h)
    ensures Gate(h, e, hash) ==
      if !(SamePacket(e.live, packet) && h.mode == mode) then Refuse(PacketProvenanceMismatch, None, false)
      else if e.tier == NoViableProvider then Refuse(RoutingNoViableProvider, None, true)
      else if |h.requiredChecks| == 0 then Refuse(MissingRequiredChecks, e.tier.id, true)
      else if h.mode.Some? && !MayWork(h.mode.value, h) then Refuse(LaneNotAllowedInMode, e.tier.id, true)
      else if !BuildAsked(h) then Refuse(MissingUpstreamDraft, e.tier.id, true)
      else Pass(e.tier.id)
  {
    PacketHashExact(e.live, h.mode, packet, mode, hash);
    PrepAsked(h.prep);
    NonEmptyAsked(h.taskPacketRef);
    NonEmptyAsked(h.taskPackageHash);
    if h.mode.Some? { LanesAllowed(h.mode.value, h); }
    hide ComputePacketHash, NonEmpty, PrepSatisfied, LaneOf, SamePacket, AllowedLanes, MayWork, NotBlank, PreparedFor;
  }
}
