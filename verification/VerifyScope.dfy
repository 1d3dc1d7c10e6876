/** Choosing what to verify for a set of changed files. */
module VerifyScope {
  import opened Text
  import opened ExecutionProfile
  import opened Porcelain

  /** The arguments of one `npm` command. */
  type Command = seq<string>

  datatype Plan = Plan(mode: VerificationMode, commands: seq<Command>)

  datatype Error = ChangeSetRequired | PathUnsupported

  /** What a changed path can make the plan run. */
  datatype Area = Delivery | Scripts | Cockpit | Docs

  predicate InArea(path: string, area: Area) {
    match area
    case Delivery => StartsWith(path, "src/data/delivery-system/") || StartsWith(path, "tests/delivery-system/")
    case Scripts => StartsWith(path, "scripts/") || StartsWith(path, "tests/scripts/")
    case Cockpit => StartsWith(path, "cockpit/")
    case Docs => StartsWith(path, "docs/") || path == "README.md"
  }

  function AreaCommand(area: Area): Command {
    match area
    case Delivery => ["test", "--", "tests/delivery-system"]
    case Scripts => ["test", "--", "tests/scripts"]
    case Cockpit => ["run", "cockpit:test"]
    case Docs => ["run", "docs:links"]
  }

  predicate Mapped(path: string) {
    InArea(path, Delivery) || InArea(path, Scripts) || InArea(path, Cockpit) || InArea(path, Docs)
  }

  /** White space and control characters, which the joined file argument could not carry. */
  predicate UnsupportedChar(c: char) { IsSpace(c) || c as int <= 0x1F || c as int == 0x7F }

  predicate Unsupported(path: string) { path == "" || exists i :: 0 <= i < |path| && UnsupportedChar(path[i]) }

  predicate Touches(files: seq<string>, area: Area) { exists i :: 0 <= i < |files| && InArea(files[i], area) }

  function MeshCommand(files: seq<string>): Command {
    ["run", "mesh:changed", "--", "--files", Join(files, " "), "--fail-on-blocker", "--fail-on-ungoverned"]
  }

  function BaseCommands(files: seq<string>): seq<Command> {
    [["run", "runtime:check"], ["run", "typecheck"], MeshCommand(files)]
  }

  function FullPlan(): Plan {
    Plan(FullFailClosed, [["run", "verify"], ["run", "cockpit:test"], ["run", "browser:qa"]])
  }

  function Selected(files: seq<string>, areas: seq<Area>): seq<Command> {
    if areas == [] then []
    else (if Touches(files, areas[0]) then [AreaCommand(areas[0])] else []) + Selected(files, areas[1..])
  }

  /** The plan, as a function of the sorted files without repeats. */
  function PlanFor(profile: Profile, risk: Risk, files: seq<string>): Result<Plan, Error> {
    if ResolveVerificationMode(profile, risk).FullFailClosed? then Ok(FullPlan())
    else if files == [] then Err(ChangeSetRequired)
    else if exists i :: 0 <= i < |files| && Unsupported(files[i]) then Err(PathUnsupported)
    else if exists i :: 0 <= i < |files| && !Mapped(files[i]) then Ok(FullPlan())
    else Ok(Plan(DiffScoped, BaseCommands(files) + Selected(files, [Delivery, Scripts, Cockpit, Docs])))
  }

  method ResolveVerificationPlan(profile: Profile, risk: Risk, changedFiles: seq<string>)
    returns (r: Result<Plan, Error>)
    ensures r == PlanFor(profile, risk, SortedDistinct(changedFiles))
  {
    hide SortedDistinct, BaseCommands, FullPlan, Unsupported, Mapped, InArea;
    if ResolveVerificationMode(profile, risk).FullFailClosed? {
      return Ok(FullPlan());
    }
    var files := SortedDistinct(changedFiles);
    if files == [] {
      return Err(ChangeSetRequired);
    }
    if exists i :: 0 <= i < |files| && Unsupported(files[i]) {
      return Err(PathUnsupported);
    }
    if exists i :: 0 <= i < |files| && !Mapped(files[i]) {
      return Ok(FullPlan());
    }
    var commands := BaseCommands(files);
    SelectedIs(files);
    if Touches(files, Delivery) {
      commands := commands + [AreaCommand(Delivery)];
    }
    if Touches(files, Scripts) {
      commands := commands + [AreaCommand(Scripts)];
    }
    if Touches(files, Cockpit) {
      commands := commands + [AreaCommand(Cockpit)];
    }
    if Touches(files, Docs) {
      commands := commands + [AreaCommand(Docs)];
    }
    ghost var spec := Selected(files, [Delivery, Scripts, Cockpit, Docs]);
    assert commands == BaseCommands(files) + spec;
    return Ok(Plan(DiffScoped, commands));
  }

  function If(files: seq<string>, area: Area): seq<Command> {
    if Touches(files, area) then [AreaCommand(area)] else []
  }

  lemma SelectedIs(files: seq<string>)
    ensures Selected(files, [Delivery, Scripts, Cockpit, Docs]) ==
      If(files, Delivery) + If(files, Scripts) + If(files, Cockpit) + If(files, Docs)
  {
    hide Touches;
    assert [Delivery, Scripts, Cockpit, Docs][1..] == [Scripts, Cockpit, Docs];
    assert [Scripts, Cockpit, Docs][1..] == [Cockpit, Docs];
    assert [Cockpit, Docs][1..] == [Docs];
    assert [Docs][1..] == [];
    assert Selected(files, []) == [];
    assert Selected(files, [Docs]) == If(files, Docs);
    assert Selected(files, [Cockpit, Docs]) == If(files, Cockpit) + If(files, Docs);
  }

  // ----- What the plan promises

  /** Neither the order in which changed files are listed nor repeats among them matter. */
  lemma PlanIgnoresOrder(profile: Profile, risk: Risk, files: seq<string>, others: seq<string>)
    requires SameElements(files, others)
    ensures PlanFor(profile, risk, SortedDistinct(files)) == PlanFor(profile, risk, SortedDistinct(others))
  {
    SortedDistinctSameSet(files, others);
  }

  /** The path begins with one of these. */
  predicate BeginsWith(path: string, prefix: string) { |path| >= |prefix| && path[..|prefix|] == prefix }

  /** What of the repository a path is in. */
  predicate DeliveryPath(path: string) {
    BeginsWith(path, "src/data/delivery-system/") || BeginsWith(path, "tests/delivery-system/")
  }
  predicate ScriptsPath(path: string) { BeginsWith(path, "scripts/") || BeginsWith(path, "tests/scripts/") }
  predicate CockpitPath(path: string) { BeginsWith(path, "cockpit/") }
  predicate DocsPath(path: string) { BeginsWith(path, "docs/") || path == "README.md" }

  lemma AreasAre(path: string)
    ensures InArea(path, Delivery) <==> DeliveryPath(path)
    ensures InArea(path, Scripts) <==> ScriptsPath(path)
    ensures InArea(path, Cockpit) <==> CockpitPath(path)
    ensures InArea(path, Docs) <==> DocsPath(path)
  {
    forall prefix: string ensures StartsWith(path, prefix) <==> BeginsWith(path, prefix) {
    }
  }

  /** A path the joined argument could not carry: empty, or with white space or a control character in it. */
  predicate Uncarried(path: string) {
    |path| == 0 || exists i :: 0 <= i < |path| && (IsSpace(path[i]) || path[i] as int < 32 || path[i] as int == 127)
  }

  lemma UncarriedIs(path: string)
    ensures Unsupported(path) <==> Uncarried(path)
  {
    if i :| 0 <= i < |path| && UnsupportedChar(path[i]) {
      assert Uncarried(path);
    }
    if i :| 0 <= i < |path| && (IsSpace(path[i]) || path[i] as int < 32 || path[i] as int == 127) {
      assert UnsupportedChar(path[i]);
    }
  }

  const RUN_ALL: seq<Command> := [["run", "verify"], ["run", "cockpit:test"], ["run", "browser:qa"]]

  predicate AnyUncarried(files: seq<string>) { exists i :: 0 <= i < |files| && Uncarried(files[i]) }
  predicate AnyDelivery(files: seq<string>) { exists i :: 0 <= i < |files| && DeliveryPath(files[i]) }
  predicate AnyScripts(files: seq<string>) { exists i :: 0 <= i < |files| && ScriptsPath(files[i]) }
  predicate AnyCockpit(files: seq<string>) { exists i :: 0 <= i < |files| && CockpitPath(files[i]) }
  predicate AnyDocs(files: seq<string>) { exists i :: 0 <= i < |files| && DocsPath(files[i]) }

  /** Some path is in none of the four areas. */
  predicate AnyElsewhere(files: seq<string>) {
    exists i :: 0 <= i < |files| &&
      !DeliveryPath(files[i]) && !ScriptsPath(files[i]) && !CockpitPath(files[i]) && !DocsPath(files[i])
  }

  lemma AnyIs(files: seq<string>)
    ensures (exists i :: 0 <= i < |files| && Unsupported(files[i])) <==> AnyUncarried(files)
    ensures (exists i :: 0 <= i < |files| && !Mapped(files[i])) <==> AnyElsewhere(files)
    ensures Touches(files, Delivery) <==> AnyDelivery(files)
    ensures Touches(files, Scripts) <==> AnyScripts(files)
    ensures Touches(files, Cockpit) <==> AnyCockpit(files)
    ensures Touches(files, Docs) <==> AnyDocs(files)
  {
    forall i | 0 <= i < |files|
      ensures Unsupported(files[i]) <==> Uncarried(files[i])
      ensures InArea(files[i], Delivery) <==> DeliveryPath(files[i])
      ensures InArea(files[i], Scripts) <==> ScriptsPath(files[i])
      ensures InArea(files[i], Cockpit) <==> CockpitPath(files[i])
      ensures InArea(files[i], Docs) <==> DocsPath(files[i])
    {
      UncarriedIs(files[i]);
      AreasAre(files[i]);
    }
    hide Unsupported, Uncarried, InArea, DeliveryPath, ScriptsPath, CockpitPath, DocsPath;
  }

  /** The runtime check, the type check and the mesh check on all files. */
  function ChecksOf(files: seq<string>): seq<Command> {
    [["run", "runtime:check"], ["run", "typecheck"],
     ["run", "mesh:changed", "--", "--files", Join(files, " "), "--fail-on-blocker", "--fail-on-ungoverned"]]
  }

  /** The tests, or the check of links, of each area touched. */
  function TestsOf(files: seq<string>): seq<Command> {
    (if AnyDelivery(files) then [["test", "--", "tests/delivery-system"]] else []) +
    (if AnyScripts(files) then [["test", "--", "tests/scripts"]] else []) +
    (if AnyCockpit(files) then [["run", "cockpit:test"]] else []) +
    (if AnyDocs(files) then [["run", "docs:links"]] else [])
  }

  /**
   * What is run. A prod or a risky change, and one with a path outside the four areas, runs everything; otherwise an
   * empty change and one with a path that cannot be carried are refused; and what is left runs the runtime check, the
   * type check, the mesh check on all files, and the tests or the link check of each area touched, in this order.
   */
  lemma PlanIs(profile: Profile, risk: Risk, files: seq<string>)
    ensures PlanFor(profile, risk, files) ==
      if profile == Prod || risk == HighRisk then Ok(Plan(FullFailClosed, RUN_ALL))
      else if |files| == 0 then Err(ChangeSetRequired)
      else if AnyUncarried(files) then Err(PathUnsupported)
      else if AnyElsewhere(files) then Ok(Plan(FullFailClosed, RUN_ALL))
      else
        Ok(Plan(DiffScoped, ChecksOf(files) + TestsOf(files)))
  {
    AnyIs(files);
    CommandsAre(files);
    hide Unsupported, InArea, Mapped, Join, Selected, AnyUncarried, AnyElsewhere, FullPlan, BaseCommands, ChecksOf,
         TestsOf;
  }

  lemma CommandsAre(files: seq<string>)
    ensures FullPlan() == Plan(FullFailClosed, RUN_ALL)
    ensures BaseCommands(files) == ChecksOf(files)
    ensures Selected(files, [Delivery, Scripts, Cockpit, Docs]) == TestsOf(files)
  {
    AnyIs(files);
    SelectedIs(files);
    hide Touches, Join, AnyDelivery, AnyScripts, AnyCockpit, AnyDocs, Selected;
  }

  predicate Clean(files: seq<string>) {
    files != [] && forall i :: 0 <= i < |files| ==> !Unsupported(files[i])
  }

  /**
   * The narrow plan is chosen exactly for an ordinary dev change whose files are all clean and all mapped; then the
   * one joined argument still names every file, and each area touched has its command, and no other area does.
   */
  lemma {:induction false} DiffScopedExactly(profile: Profile, risk: Risk, changed: seq<string>)
    ensures var plan := PlanFor(profile, risk, SortedDistinct(changed));
      (plan.Ok? && plan.value.mode.DiffScoped? <==>
        profile.Dev? && risk.OrdinaryRisk? && Clean(changed) &&
        forall i :: 0 <= i < |changed| ==> Mapped(changed[i])) &&
      (plan.Err? <==> profile.Dev? && risk.OrdinaryRisk? && !Clean(changed)) &&
      (plan.Ok? && plan.value.mode.DiffScoped? ==>
        |plan.value.commands| > 2 && |plan.value.commands[2]| > 4 &&
        Split(plan.value.commands[2][4], ' ') == SortedDistinct(changed) &&
        forall area :: AreaCommand(area) in plan.value.commands <==> Touches(changed, area))
  {
    hide SortedDistinct, Split, Mapped, InArea, Join, Selected, Unsupported;
    var files := SortedDistinct(changed);
    SortedDistinctIs(changed);
    assert files == [] <==> changed == [] by { EmptySame(files, changed); }
    assert (exists i :: 0 <= i < |files| && Unsupported(files[i])) <==>
           (exists i :: 0 <= i < |changed| && Unsupported(changed[i])) by {
      SameSome(files, changed, Unsupported);
    }
    assert (exists i :: 0 <= i < |files| && !Mapped(files[i])) <==>
           (exists i :: 0 <= i < |changed| && !Mapped(changed[i])) by {
      SameSome(files, changed, path => !Mapped(path));
    }
    var plan := PlanFor(profile, risk, files);
    if plan.Ok? && plan.value.mode.DiffScoped? {
      JoinedFilesSplit(files);
      forall area ensures AreaCommand(area) in plan.value.commands <==> Touches(changed, area) {
        SelectedMembers(files, area);
        TouchesSame(files, changed, area);
      }
    }
  }

  lemma EmptySame(files: seq<string>, others: seq<string>)
    requires SameElements(files, others)
    ensures files == [] <==> others == []
  {
    if files != [] {
      assert files[0] in others;
    }
    if others != [] {
      assert others[0] in files;
    }
  }

  lemma SameSome(files: seq<string>, others: seq<string>, p: string -> bool)
    requires SameElements(files, others)
    ensures (exists i :: 0 <= i < |files| && p(files[i])) <==> (exists i :: 0 <= i < |others| && p(others[i]))
  {
    forall i | 0 <= i < |files| ensures files[i] in others {
    }
    forall i | 0 <= i < |others| ensures others[i] in files {
    }
  }

  lemma TouchesSame(files: seq<string>, others: seq<string>, area: Area)
    requires SameElements(files, others)
    ensures Touches(files, area) <==> Touches(others, area)
  {
    hide InArea;
    SameSome(files, others, path => InArea(path, area));
  }

  lemma SelectedMembers(files: seq<string>, area: Area)
    ensures AreaCommand(area) in BaseCommands(files) + Selected(files, [Delivery, Scripts, Cockpit, Docs]) <==>
      Touches(files, area)
  {
    hide Touches, Join, Selected;
    SelectedIs(files);
    AreaCommandsDiffer(area, files);
  }

  lemma AreaCommandsDiffer(area: Area, files: seq<string>)
    ensures forall other :: AreaCommand(other) == AreaCommand(area) ==> other == area
    ensures AreaCommand(area) !in BaseCommands(files)
  {
    hide Join;
    assert "tests/delivery-system"[6] != "tests/scripts"[6];
    assert "cockpit:test"[0] != "docs:links"[0];
    assert AreaCommand(Delivery)[0] != AreaCommand(Cockpit)[0];
    assert AreaCommand(Delivery)[2] != AreaCommand(Scripts)[2];
    assert AreaCommand(Cockpit)[1] != AreaCommand(Docs)[1];
    assert "runtime:check"[0] != "cockpit:test"[0] && "typecheck"[0] != "docs:links"[0];
    assert "typecheck"[0] != "cockpit:test"[0] && "runtime:check"[0] != "docs:links"[0];
  }

  /** Clean paths survive being joined by spaces: the argument splits back into exactly the files. */
  lemma {:induction false} JoinedFilesSplit(files: seq<string>)
    requires Clean(files)
    ensures Split(Join(files, " "), ' ') == files
  {
    CleanHasNoSpace(files[0]);
    if |files| == 1 {
      SplitFirst(files[0], ' ', "");
    } else {
      JoinedFilesSplit(files[1..]);
      SplitFirst(files[0], ' ', Join(files[1..], " "));
      assert files == [files[0]] + files[1..];
    }
  }

  lemma CleanHasNoSpace(path: string)
    requires !Unsupported(path)
    ensures ' ' !in path
  {
    forall i | 0 <= i < |path| ensures path[i] != ' ' {
      assert !UnsupportedChar(path[i]);
    }
  }
}
