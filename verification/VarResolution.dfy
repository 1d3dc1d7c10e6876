/** `resolveRgba` and `resolveVar`: evaluation through variables, with the guard against cycles. */
module VarResolution {
  import opened Text
  import opened ColorMixing
  import opened RootVars

  datatype ColorError =
    | ExpectedHex
    | UnsupportedValue
    | MalformedVar
    | MissingVar(name: string)
    | CyclicVar(name: string)
    | UnsupportedMixForm
    | UnsupportedMixSpace
    | TranslucentColor

  type Resolution = Result<Rgba, ColorError>

  /** One level of a colour expression; its parts are still text. */
  datatype Form =
    | Clear
    | Solid(color: Rgba)
    | Reference(name: string, fallback: Option<string>)
    | Mixture(first: string, firstPercent: Option<real>, second: string, secondPercent: Option<real>)

  /** The parts are shorter than the text they were read from, and the numbers are in range. */
  predicate ReadFrom(parsed: Result<Form, ColorError>, value: string) {
    match parsed
    case Err(e) => !e.CyclicVar?
    case Ok(Clear) => true
    case Ok(Solid(c)) => InGamut(c)
    case Ok(Reference(_, fallback)) => fallback.Some? ==> |fallback.value| < |value|
    case Ok(Mixture(a, pa, b, pb)) => |a| < |value| && |b| < |value| && IsPercent(pa) && IsPercent(pb)
  }

  /** Everything the evaluator needs to know of the syntax: how to read one level of it. */
  type Grammar = parse: string -> Result<Form, ColorError> |
    forall value :: ReadFrom(parse(value), value)
    witness (value: string) => Err(UnsupportedValue)

  function MixResolved(first: Resolution, pa: Option<real>, second: Resolution, pb: Option<real>): Resolution
    requires IsPercent(pa) && IsPercent(pb)
  {
    if first.Err? then first
    else if second.Err? then second
    else Ok(MixSrgb(first.value, pa, second.value, pb))
  }

  // ----- The evaluator, with its cycle guard

  /** Each step either visits one more variable or goes to a shorter text. */
  function Resolve(parse: Grammar, value: string, vars: Vars, seen: set<string>): Resolution
    decreases |vars.Keys - seen|, |value|
  {
    match parse(value)
    case Err(e) => Err(e)
    case Ok(Clear) => Ok(Rgba(0.0, 0.0, 0.0, 0.0))
    case Ok(Solid(c)) => Ok(c)
    case Ok(Mixture(a, pa, b, pb)) =>
      MixResolved(Resolve(parse, a, vars, seen), pa, Resolve(parse, b, vars, seen), pb)
    case Ok(Reference(name, fallback)) =>
      if name in seen then Err(CyclicVar(name))
      else if name in vars then
        VisitShrinks(vars.Keys, seen, name);
        Resolve(parse, vars[name], vars, seen + {name})
      else if fallback.Some? then Resolve(parse, fallback.value, vars, seen)
      else Err(MissingVar(name))
  }

  lemma VisitShrinks(names: set<string>, seen: set<string>, name: string)
    requires name in names && name !in seen
    ensures |names - (seen + {name})| < |names - seen|
  {
    assert names - seen == (names - (seen + {name})) + {name};
  }

  // ----- The same evaluator without the guard, for a bounded number of steps

  datatype Outcome = OutOfSteps | Done(result: Resolution)

  function Unguarded(parse: Grammar, value: string, vars: Vars, steps: nat): Outcome
    decreases steps
  {
    if steps == 0 then OutOfSteps
    else match parse(value)
      case Err(e) => Done(Err(e))
      case Ok(Clear) => Done(Ok(Rgba(0.0, 0.0, 0.0, 0.0)))
      case Ok(Solid(c)) => Done(Ok(c))
      case Ok(Mixture(a, pa, b, pb)) =>
        var first := Unguarded(parse, a, vars, steps - 1);
        if first.OutOfSteps? || first.result.Err? then first
        else
          var second := Unguarded(parse, b, vars, steps - 1);
          if second.OutOfSteps? then second
          else Done(MixResolved(first.result, pa, second.result, pb))
      case Ok(Reference(name, fallback)) =>
        if name in vars then Unguarded(parse, vars[name], vars, steps - 1)
        else if fallback.Some? then Unguarded(parse, fallback.value, vars, steps - 1)
        else Done(Err(MissingVar(name)))
  }

  lemma {:induction false} MoreSteps(parse: Grammar, value: string, vars: Vars, steps: nat, more: nat)
    requires steps <= more && Unguarded(parse, value, vars, steps).Done?
    ensures Unguarded(parse, value, vars, more) == Unguarded(parse, value, vars, steps)
    decreases steps
  {
    match parse(value)
    case Ok(Mixture(a, pa, b, pb)) =>
      MoreSteps(parse, a, vars, steps - 1, more - 1);
      if Unguarded(parse, a, vars, steps - 1).result.Ok? {
        MoreSteps(parse, b, vars, steps - 1, more - 1);
      }
    case Ok(Reference(name, fallback)) =>
      if name in vars {
        MoreSteps(parse, vars[name], vars, steps - 1, more - 1);
      } else if fallback.Some? {
        MoreSteps(parse, fallback.value, vars, steps - 1, more - 1);
      }
    case _ =>
  }

  predicate IsCycle(r: Resolution) { r.Err? && r.error.CyclicVar? }

  /** One unguarded step from a reference leads where one guarded step does. */
  lemma ReferenceStep(parse: Grammar, value: string, vars: Vars, seen: set<string>, steps: nat)
    requires var form := parse(value);
             form.Ok? && form.value.Reference? && form.value.name in vars && form.value.name !in seen &&
             Unguarded(parse, vars[form.value.name], vars, steps) ==
             Done(Resolve(parse, vars[form.value.name], vars, seen + {form.value.name}))
    ensures Unguarded(parse, value, vars, steps + 1) == Done(Resolve(parse, value, vars, seen))
  {
    var name := parse(value).value.name;
    var inner := Resolve(parse, vars[name], vars, seen + {name});
    assert Resolve(parse, value, vars, seen) == inner;
    assert Unguarded(parse, value, vars, steps + 1) == Unguarded(parse, vars[name], vars, steps);
  }

  lemma FallbackStep(parse: Grammar, value: string, vars: Vars, seen: set<string>, steps: nat)
    requires var form := parse(value);
             form.Ok? && form.value.Reference? && form.value.name !in vars && form.value.name !in seen &&
             form.value.fallback.Some? &&
             Unguarded(parse, form.value.fallback.value, vars, steps) ==
             Done(Resolve(parse, form.value.fallback.value, vars, seen))
    ensures Unguarded(parse, value, vars, steps + 1) == Done(Resolve(parse, value, vars, seen))
  {
  }

  lemma MixtureStep(parse: Grammar, value: string, vars: Vars, seen: set<string>, n: nat, m: nat)
    requires var form := parse(value);
             form.Ok? && form.value.Mixture? &&
             Unguarded(parse, form.value.first, vars, n) == Done(Resolve(parse, form.value.first, vars, seen)) &&
             Unguarded(parse, form.value.second, vars, m) == Done(Resolve(parse, form.value.second, vars, seen))
    ensures Unguarded(parse, value, vars, n + m + 1) == Done(Resolve(parse, value, vars, seen))
  {
    MoreSteps(parse, parse(value).value.first, vars, n, n + m);
    MoreSteps(parse, parse(value).value.second, vars, m, n + m);
  }

  /** What the guarded evaluator computes without meeting a cycle, the unguarded one reaches too. */
  lemma {:induction false} GuardedIsReached(parse: Grammar, value: string, vars: Vars, seen: set<string>)
    returns (steps: nat)
    requires !IsCycle(Resolve(parse, value, vars, seen))
    ensures Unguarded(parse, value, vars, steps) == Done(Resolve(parse, value, vars, seen))
    decreases |vars.Keys - seen|, |value|
  {
    hide Mul, Div, Weigh, MixWeighted;
    var form := parse(value);
    if form.Ok? && form.value.Mixture? {
      var n := GuardedIsReached(parse, form.value.first, vars, seen);
      if Resolve(parse, form.value.first, vars, seen).Err? {
        return n + 1;
      }
      var m := GuardedIsReached(parse, form.value.second, vars, seen);
      MixtureStep(parse, value, vars, seen, n, m);
      return n + m + 1;
    } else if form.Ok? && form.value.Reference? && form.value.name in vars {
      var name := form.value.name;
      VisitShrinks(vars.Keys, seen, name);
      steps := GuardedIsReached(parse, vars[name], vars, seen + {name});
      ReferenceStep(parse, value, vars, seen, steps);
      return steps + 1;
    } else if form.Ok? && form.value.Reference? && form.value.fallback.Some? {
      steps := GuardedIsReached(parse, form.value.fallback.value, vars, seen);
      FallbackStep(parse, value, vars, seen, steps);
      return steps + 1;
    }
    return 1;
  }

  /** None of the variables being visited can be evaluated in fewer than `steps` steps. */
  predicate Unfinished(parse: Grammar, vars: Vars, seen: set<string>, steps: nat) {
    forall name :: name in seen ==>
      name in vars && (steps > 0 ==> Unguarded(parse, vars[name], vars, steps - 1).OutOfSteps?)
  }

  lemma {:induction false} FewestSteps(parse: Grammar, value: string, vars: Vars, steps: nat) returns (fewest: nat)
    requires Unguarded(parse, value, vars, steps).Done?
    ensures fewest <= steps && Unguarded(parse, value, vars, fewest) == Unguarded(parse, value, vars, steps)
    ensures fewest > 0 && Unguarded(parse, value, vars, fewest - 1).OutOfSteps?
  {
    if Unguarded(parse, value, vars, steps - 1).Done? {
      MoreSteps(parse, value, vars, steps - 1, steps);
      fewest := FewestSteps(parse, value, vars, steps - 1);
    } else {
      fewest := steps;
    }
  }

  lemma UnfinishedFewer(parse: Grammar, vars: Vars, seen: set<string>, steps: nat, fewer: nat)
    requires Unfinished(parse, vars, seen, steps) && fewer <= steps
    ensures Unfinished(parse, vars, seen, fewer)
  {
    forall name | name in seen && fewer > 0
      ensures Unguarded(parse, vars[name], vars, fewer - 1).OutOfSteps?
    {
      if Unguarded(parse, vars[name], vars, fewer - 1).Done? {
        MoreSteps(parse, vars[name], vars, fewer - 1, steps - 1);
      }
    }
  }

  /** What the unguarded evaluator reaches, the guard never stops. */
  lemma {:induction false} ReachedIsGuarded(parse: Grammar, value: string, vars: Vars, seen: set<string>, steps: nat)
    requires Unguarded(parse, value, vars, steps).Done? && Unfinished(parse, vars, seen, steps)
    ensures Done(Resolve(parse, value, vars, seen)) == Unguarded(parse, value, vars, steps)
    ensures !IsCycle(Resolve(parse, value, vars, seen))
    decreases steps
  {
    match parse(value)
    case Ok(Mixture(a, pa, b, pb)) =>
      UnfinishedFewer(parse, vars, seen, steps, steps - 1);
      ReachedIsGuarded(parse, a, vars, seen, steps - 1);
      if Unguarded(parse, a, vars, steps - 1).result.Ok? {
        ReachedIsGuarded(parse, b, vars, seen, steps - 1);
      }
    case Ok(Reference(name, fallback)) =>
      if name in vars {
        var fewest := FewestSteps(parse, vars[name], vars, steps - 1);
        UnfinishedFewer(parse, vars, seen, steps, fewest);
        ReachedIsGuarded(parse, vars[name], vars, seen + {name}, fewest);
      } else if fallback.Some? {
        UnfinishedFewer(parse, vars, seen, steps, steps - 1);
        ReachedIsGuarded(parse, fallback.value, vars, seen, steps - 1);
      }
    case _ =>
  }

  /**
   * The guard is exact: it changes no result that unguarded evaluation reaches, and it reports a
   * cycle precisely for the expressions on which unguarded evaluation never ends.
   */
  lemma CycleGuardExact(parse: Grammar, value: string, vars: Vars, result: Resolution)
    ensures (exists steps :: Unguarded(parse, value, vars, steps) == Done(result)) <==>
            Resolve(parse, value, vars, {}) == result && !IsCycle(result)
    ensures (forall steps :: Unguarded(parse, value, vars, steps).OutOfSteps?) <==>
            IsCycle(Resolve(parse, value, vars, {}))
  {
    forall steps | Unguarded(parse, value, vars, steps).Done?
      ensures Unguarded(parse, value, vars, steps) == Done(Resolve(parse, value, vars, {}))
      ensures !IsCycle(Resolve(parse, value, vars, {}))
    {
      ReachedIsGuarded(parse, value, vars, {}, steps);
    }
    if !IsCycle(Resolve(parse, value, vars, {})) {
      var steps := GuardedIsReached(parse, value, vars, {});
      assert Unguarded(parse, value, vars, steps).Done?;
    }
  }

  /** Every colour that evaluates at all is in range. */
  lemma {:induction false} ResolvedInGamut(parse: Grammar, value: string, vars: Vars, seen: set<string>)
    ensures var r := Resolve(parse, value, vars, seen); r.Ok? ==> InGamut(r.value)
    decreases |vars.Keys - seen|, |value|
  {
    hide MixSrgb;
    match parse(value)
    case Ok(Mixture(a, pa, b, pb)) =>
      ResolvedInGamut(parse, a, vars, seen);
      ResolvedInGamut(parse, b, vars, seen);
      var x, y := Resolve(parse, a, vars, seen), Resolve(parse, b, vars, seen);
      if x.Ok? && y.Ok? {
        MixInGamut(x.value, pa, y.value, pb);
      }
    case Ok(Reference(name, fallback)) =>
      if name in vars && name !in seen {
        VisitShrinks(vars.Keys, seen, name);
        ResolvedInGamut(parse, vars[name], vars, seen + {name});
      } else if fallback.Some? {
        ResolvedInGamut(parse, fallback.value, vars, seen);
      }
    case _ =>
  }
}
