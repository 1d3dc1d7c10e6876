/** Splitting a brainstorm's token budget between its routes, the synthesis and an optional arbitration. */
module TokenAllocation {
  import opened Text

  const MAX_SAFE := 9007199254740991

  predicate Safe(n: int) { -MAX_SAFE <= n <= MAX_SAFE }

  datatype Error = BudgetInsufficient | InvalidBudget

  datatype Allocation = Allocation(perRoute: int, synthesis: int)

  datatype Envelope = Envelope(fanout: int, consolidation: int, arbitration: int, minimum: int, maximum: int)

  function Shares(routeCount: nat, hasArbitration: bool): (s: nat)
    ensures s >= 1
  {
    routeCount + 1 + if hasArbitration then 1 else 0
  }

  function CanonicalAllocation(budget: nat, routeCount: nat, hasArbitration: bool): Result<Allocation, Error> {
    var shares := Shares(routeCount, hasArbitration);
    var perRoute := budget / shares;
    if perRoute < 1 then Err(BudgetInsufficient)
    else Ok(Allocation(perRoute, perRoute + (budget - perRoute * shares)))
  }

  function SafeTokenSum(left: int, right: int): Result<int, Error> {
    if Safe(left + right) then Ok(left + right) else Err(InvalidBudget)
  }

  /** The checked sum of the routes, from the left. */
  function Fanout(routes: seq<int>, sum: int): Result<int, Error> {
    if routes == [] then Ok(sum)
    else
      match SafeTokenSum(sum, routes[0])
      case Err(e) => Err(e)
      case Ok(next) => Fanout(routes[1..], next)
  }

  predicate Positive(n: int) { Safe(n) && n > 0 }

  function EstimateEnvelope(routes: seq<int>, consolidation: int, arbitration: int): Result<Envelope, Error> {
    if routes == [] || !Positive(consolidation) || !(Safe(arbitration) && arbitration >= 0) ||
       exists i :: 0 <= i < |routes| && !Positive(routes[i]) then
      Err(InvalidBudget)
    else
      match Fanout(routes, 0)
      case Err(e) => Err(e)
      case Ok(fanout) =>
        match SafeTokenSum(fanout, consolidation)
        case Err(e) => Err(e)
        case Ok(minimum) =>
          match SafeTokenSum(minimum, arbitration)
          case Err(e) => Err(e)
          case Ok(maximum) => Ok(Envelope(fanout, consolidation, arbitration, minimum, maximum))
  }

  function SumOf(routes: seq<int>): int {
    if routes == [] then 0 else SumOf(routes[..|routes| - 1]) + routes[|routes| - 1]
  }

  lemma {:induction false} SumFromLeft(routes: seq<int>)
    requires routes != []
    ensures SumOf(routes) == routes[0] + SumOf(routes[1..])
    decreases |routes|
  {
    if |routes| > 1 {
      var front := routes[..|routes| - 1];
      SumFromLeft(front);
      assert front[1..] == routes[1..][..|routes| - 2];
    }
  }

  predicate AllAtLeastOne(routes: seq<int>) { forall i :: 0 <= i < |routes| ==> 1 <= routes[i] }

  lemma {:induction false} SumAtLeast(routes: seq<int>)
    requires AllAtLeastOne(routes)
    ensures SumOf(routes) >= |routes| && forall i :: 0 <= i < |routes| ==> routes[i] <= SumOf(routes)
  {
    if routes != [] {
      var front := routes[..|routes| - 1];
      SumAtLeast(front);
      forall i | 0 <= i < |routes| ensures routes[i] <= SumOf(routes) {
        assert i < |front| ==> routes[i] == front[i];
      }
    }
  }

  lemma {:induction false} FanoutIsSum(routes: seq<int>, sum: nat)
    requires AllAtLeastOne(routes) && sum <= 9007199254740991
    ensures Fanout(routes, sum) ==
      if sum + SumOf(routes) <= 9007199254740991 then Ok(sum + SumOf(routes)) else Err(InvalidBudget)
    decreases |routes|
  {
    if routes != [] {
      SumFromLeft(routes);
      SumAtLeast(routes[1..]);
      if sum + routes[0] <= 9007199254740991 {
        FanoutIsSum(routes[1..], sum + routes[0]);
      }
    }
  }

  /**
   * An estimate is given exactly when there is a route, every route and the consolidation take at least one token, the
   * arbitration none or more, and all of them together are a safe number; its two bounds leave the arbitration out
   * and count it in.
   */
  lemma EstimateExactly(routes: seq<int>, consolidation: int, arbitration: int)
    ensures var fanout := SumOf(routes);
      EstimateEnvelope(routes, consolidation, arbitration) ==
      if |routes| >= 1 && AllAtLeastOne(routes) && consolidation >= 1 && arbitration >= 0 &&
         fanout + consolidation + arbitration <= 9007199254740991 then
        Ok(Envelope(fanout, consolidation, arbitration, fanout + consolidation, fanout + consolidation + arbitration))
      else Err(InvalidBudget)
  {
    if AllAtLeastOne(routes) {
      SumAtLeast(routes);
      FanoutIsSum(routes, 0);
    }
    hide SumOf, Fanout;
    assert (forall i :: 0 <= i < |routes| ==> Positive(routes[i])) ==> AllAtLeastOne(routes);
  }

  function Repeat(n: int, count: nat): seq<int> { seq(count, _ => n) }

  /** The budget of a new brainstorm: the allocation, the envelope of what was allocated, and the guard on it. */
  function BudgetBrainstorm(budget: nat, routeCount: nat, hasArbitration: bool): Result<Envelope, Error> {
    match CanonicalAllocation(budget, routeCount, hasArbitration)
    case Err(e) => Err(e)
    case Ok(a) =>
      match EstimateEnvelope(Repeat(a.perRoute, routeCount), a.synthesis, if hasArbitration then a.perRoute else 0)
      case Err(e) => Err(e)
      case Ok(envelope) => if envelope.maximum > budget then Err(BudgetInsufficient) else Ok(envelope)
  }

  lemma {:induction false} FanoutOfEqual(n: int, count: nat, sum: int)
    requires n > 0 && sum >= 0 && sum + n * count <= MAX_SAFE
    ensures Fanout(Repeat(n, count), sum) == Ok(sum + n * count)
    decreases count
  {
    if count > 0 {
      assert Repeat(n, count)[1..] == Repeat(n, count - 1);
      Distribute(n, count);
      FanoutOfEqual(n, count - 1, sum + n);
    }
  }

  lemma Distribute(n: int, count: nat)
    requires n > 0 && count > 0
    ensures n * count == n + n * (count - 1) && n * (count - 1) >= 0
  {
  }

  lemma PartsOfBudget(budget: nat, perRoute: nat, routeCount: nat, hasArbitration: bool)
    requires perRoute == budget / Shares(routeCount, hasArbitration)
    ensures var synthesis := perRoute + (budget - perRoute * Shares(routeCount, hasArbitration));
      perRoute * routeCount + synthesis + (if hasArbitration then perRoute else 0) == budget &&
      perRoute <= synthesis < perRoute + Shares(routeCount, hasArbitration) && perRoute * routeCount >= 0
  {
    var shares := Shares(routeCount, hasArbitration);
    assert perRoute * shares == perRoute * routeCount + perRoute + if hasArbitration then perRoute else 0;
    assert budget == perRoute * shares + budget % shares;
    assert perRoute * routeCount >= 0;
  }

  /**
   * A safe budget is refused exactly when it leaves some share less than one token. Otherwise every part is positive,
   * the shares differ by less than their number, the parts add up to the budget exactly, and neither the overflow check
   * nor the guard against going over can fire.
   */
  lemma BudgetSplitsExactly(budget: nat, routeCount: nat, hasArbitration: bool)
    requires Safe(budget) && routeCount >= 1
    ensures var result := BudgetBrainstorm(budget, routeCount, hasArbitration);
      var shares := Shares(routeCount, hasArbitration);
      if budget < shares then result == Err(BudgetInsufficient)
      else
        result.Ok? && result.value.maximum == budget &&
        result.value.fanout + result.value.consolidation + result.value.arbitration == budget &&
        result.value.fanout == routeCount * (budget / shares) &&
        budget / shares <= result.value.consolidation < budget / shares + shares
  {
    hide Fanout, Repeat;
    var shares := Shares(routeCount, hasArbitration);
    var perRoute: nat := budget / shares;
    AtLeastOne(budget, shares);
    if budget >= shares {
      PartsOfBudget(budget, perRoute, routeCount, hasArbitration);
      var routes := Repeat(perRoute, routeCount);
      FanoutOfEqual(perRoute, routeCount, 0);
      assert |routes| == routeCount && forall i :: 0 <= i < |routes| ==> routes[i] == perRoute by {
        RepeatIs(perRoute, routeCount);
      }
      assert perRoute <= budget;
    }
  }

  lemma RepeatIs(n: int, count: nat)
    ensures |Repeat(n, count)| == count && forall i :: 0 <= i < count ==> Repeat(n, count)[i] == n
  {
  }

  lemma ProductAtLeast(a: nat, b: nat)
    requires a >= 1 && b >= 1
    ensures a * b >= a && a * b >= b
  {
    assert (a - 1) * b >= 0 && a * (b - 1) >= 0;
  }

  lemma DivisionIs(n: nat, d: nat)
    requires d >= 1
    ensures n == (n / d) * d + n % d && n % d < d && n / d >= 0
  {
  }

  lemma AtLeastOne(budget: nat, shares: nat)
    requires shares >= 1
    ensures budget / shares >= 1 <==> budget >= shares
    ensures budget / shares <= budget
  {
    var q: nat := budget / shares;
    DivisionIs(budget, shares);
    if q >= 1 {
      ProductAtLeast(q, shares);
    }
  }

  /**
   * The code divides in double precision. With at most seven shares a quotient of safe integers is rounded by no more
   * than an eighth, and not at all when it is whole; no such rounding moves it across a whole number.
   */
  lemma RoundedQuotientFloors(budget: nat, shares: nat, rounded: real)
    requires 1 <= shares <= 7
    requires if budget % shares == 0 then rounded == (budget / shares) as real
             else -0.125 <= rounded - budget as real / shares as real <= 0.125
    ensures rounded.Floor == budget / shares
  {
    var q, r := budget / shares, budget % shares;
    if r != 0 {
      var exact := budget as real / shares as real;
      assert budget == q * shares + r;
      FractionOf(q, r, shares, exact);
      assert q as real < rounded < (q + 1) as real;
    }
  }

  /** A proper fraction with a denominator of at most seven stays a seventh away from both ends. */
  lemma FractionOf(q: nat, r: nat, shares: nat, exact: real)
    requires 1 <= r < shares <= 7 && exact == (q * shares + r) as real / shares as real
    ensures q as real + 1.0 / 7.0 <= exact <= q as real + 6.0 / 7.0
  {
    if shares == 2 {
    } else if shares == 3 {
    } else if shares == 4 {
    } else if shares == 5 {
    } else if shares == 6 {
    } else {
      assert shares == 7;
    }
  }
}
