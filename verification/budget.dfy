/**
 The monthly spend cap (src/llm/budget_tracker.py): totals are rounded to six decimals each time
 they are written.
 */
module Budget {
  import opened Common

  /** The nearest integer, ties to even: how `round` rounds. */
  function Nearest(y: real): int {
    var f := y.Floor;
    var d := y - f as real;
    if d < 0.5 then f else if d > 0.5 then f + 1 else if f % 2 == 0 then f else f + 1
  }

  /** `round(x, 6)`. */
  function Round6(x: real): real {
    Nearest(x * 1000000.0) as real / 1000000.0
  }

  const HALF_STEP: real := 0.0000005

  lemma NearestClose(y: real)
    ensures -0.5 <= Nearest(y) as real - y <= 0.5
  {
  }

  lemma NearestMonotone(x: real, y: real)
    requires x <= y
    ensures Nearest(x) <= Nearest(y)
  {
    if x.Floor == y.Floor {
      assert x - x.Floor as real <= y - y.Floor as real;
    }
  }

  lemma NearestWhole(n: int)
    ensures Nearest(n as real) == n
  {
  }

  lemma RoundClose(x: real)
    ensures -HALF_STEP <= Round6(x) - x <= HALF_STEP
  {
    NearestClose(x * 1000000.0);
  }

  lemma RoundMonotone(x: real, y: real)
    requires x <= y
    ensures Round6(x) <= Round6(y)
  {
    NearestMonotone(x * 1000000.0, y * 1000000.0);
  }

  /** A stored total is a whole number of steps. */
  ghost predicate Stored(x: real) {
    exists n: int :: x == Steps(n)
  }

  function Steps(n: int): real {
    n as real / 1000000.0
  }

  lemma RoundStored(x: real)
    ensures Stored(Round6(x))
  {
    assert Round6(x) == Steps(Nearest(x * 1000000.0));
  }

  lemma RoundFixed(x: real)
    requires Stored(x)
    ensures Round6(x) == x
  {
    var n: int :| x == Steps(n);
    assert x * 1000000.0 == n as real;
    NearestWhole(n);
  }

  /** What the file holds after recording these costs, one after the other. */
  function Total(costs: seq<real>): real {
    if costs == [] then 0.0 else Round6(Total(costs[..|costs| - 1]) + costs[|costs| - 1])
  }

  function Sum(costs: seq<real>): real {
    if costs == [] then 0.0 else Sum(costs[..|costs| - 1]) + costs[|costs| - 1]
  }

  lemma TotalStored(costs: seq<real>)
    ensures Stored(Total(costs))
  {
    if costs == [] {
      assert 0.0 == Steps(0);
    } else {
      RoundStored(Total(costs[..|costs| - 1]) + costs[|costs| - 1]);
    }
  }

  /** Recording a cost never lowers the total. */
  lemma TotalNeverDrops(costs: seq<real>, c: real)
    requires c >= 0.0
    ensures Total(costs) <= Total(costs + [c])
  {
    assert (costs + [c])[..|costs + [c]| - 1] == costs;
    TotalStored(costs);
    RoundMonotone(Total(costs), Total(costs) + c);
    RoundFixed(Total(costs));
  }

  /** After n costs the total is within n half-steps of their exact sum. */
  lemma {:induction false} TotalIsClose(costs: seq<real>)
    ensures var n := |costs| as real;
            Sum(costs) - n * HALF_STEP <= Total(costs) <= Sum(costs) + n * HALF_STEP
  {
    if costs != [] {
      var front, c := costs[..|costs| - 1], costs[|costs| - 1];
      TotalIsClose(front);
      RoundClose(Total(front) + c);
    }
  }

  /** One writer under a positive cap: a call may start only while the stored total is below it. */
  predicate Gated(costs: seq<real>, cap: real) {
    forall k :: 0 <= k < |costs| ==> GatedAt(costs, cap, k)
  }

  predicate GatedAt(costs: seq<real>, cap: real, k: nat)
    requires k < |costs|
  {
    costs[k] >= 0.0 && Total(costs[..k]) < cap
  }

  /** The cap is overrun by at most the last call's cost and half a rounding step. */
  lemma OverrunIsOneCall(costs: seq<real>, cap: real)
    requires costs != [] && Gated(costs, cap)
    ensures Total(costs) <= cap + costs[|costs| - 1] + HALF_STEP
  {
    assert GatedAt(costs, cap, |costs| - 1);
    RoundClose(Total(costs[..|costs| - 1]) + costs[|costs| - 1]);
  }

  // ---------------------------------------------------------------------------------------
  // The tracker
  // ---------------------------------------------------------------------------------------

  datatype RecordError = NegativeCost

  /** `spent / cap >= 1.0` with a cap that means something. */
  predicate Blocked(spent: real, cap: real) {
    cap > 0.0 && spent / cap >= 1.0
  }

  lemma BlockedIff(spent: real, cap: real)
    ensures Blocked(spent, cap) <==> cap > 0.0 && spent >= cap
  {
    if cap > 0.0 {
      assert spent == (spent / cap) * cap;
      if spent / cap >= 1.0 {
        assert (spent / cap) * cap >= 1.0 * cap;
      } else {
        assert (spent / cap) * cap < 1.0 * cap;
      }
    }
  }

  function SpentIn(totals: map<string, real>, month: string): real {
    if month in totals then totals[month] else 0.0
  }

  /** What recording leaves in the files; an unknown cost leaves them alone. */
  function Recorded(totals: map<string, real>, month: string, usd: Option<real>): map<string, real> {
    if usd.None? || usd.value < 0.0 then totals
    else totals[month := Round6(SpentIn(totals, month) + usd.value)]
  }

  lemma GatedAppend(costs: seq<real>, c: real, cap: real)
    requires Gated(costs, cap) && c >= 0.0 && Total(costs) < cap
    ensures Gated(costs + [c], cap)
  {
    var longer := costs + [c];
    forall k | 0 <= k < |longer|
      ensures GatedAt(longer, cap, k)
    {
      assert k < |costs| ==> GatedAt(costs, cap, k);
      assert longer[..k] == costs[..k];
      assert costs[..|costs|] == costs;
    }
  }

  lemma TotalAppend(costs: seq<real>, c: real)
    ensures Total(costs + [c]) == Round6(Total(costs) + c)
  {
    assert (costs + [c])[..|costs + [c]| - 1] == costs;
  }

  /** One recorded cost. */
  datatype Charge = Charge(month: string, usd: real)

  /** The costs recorded in this month, in order. */
  function CostsIn(log: seq<Charge>, month: string): seq<real> {
    if log == [] then []
    else CostsIn(log[..|log| - 1], month) + if log[|log| - 1].month == month then [log[|log| - 1].usd] else []
  }

  lemma CostsAppend(log: seq<Charge>, c: Charge, month: string)
    ensures CostsIn(log + [c], month) == if c.month == month then CostsIn(log, month) + [c.usd] else CostsIn(log, month)
  {
    assert (log + [c])[..|log + [c]| - 1] == log;
    assert CostsIn(log, month) + [] == CostsIn(log, month);
  }

  /** What each month's file holds is the total of the costs recorded in that month. */
  ghost predicate Balanced(totals: map<string, real>, log: seq<Charge>) {
    forall month :: BalancedIn(totals, log, month)
  }

  predicate BalancedIn(totals: map<string, real>, log: seq<Charge>, month: string) {
    SpentIn(totals, month) == Total(CostsIn(log, month))
  }

  /** What a cost adds to the record: nothing if it is unknown or negative. */
  function Noted(month: string, usd: Option<real>): seq<Charge> {
    if usd.Some? && usd.value >= 0.0 then [Charge(month, usd.value)] else []
  }

  lemma NotedIn(totals: map<string, real>, log: seq<Charge>, month: string, usd: real, m: string)
    requires BalancedIn(totals, log, m) && usd >= 0.0
    ensures BalancedIn(Recorded(totals, month, Some(usd)), log + [Charge(month, usd)], m)
  {
    CostsAppend(log, Charge(month, usd), m);
    if m == month { TotalAppend(CostsIn(log, m), usd); }
  }

  lemma StillBalanced(totals: map<string, real>, log: seq<Charge>, month: string, usd: Option<real>)
    requires Balanced(totals, log)
    ensures Balanced(Recorded(totals, month, usd), log + Noted(month, usd))
  {
    if usd.Some? && usd.value >= 0.0 {
      forall m
        ensures BalancedIn(Recorded(totals, month, usd), log + Noted(month, usd), m)
      {
        assert BalancedIn(totals, log, m);
        NotedIn(totals, log, month, usd.value, m);
      }
    } else {
      assert log + [] == log;
    }
  }

  /** Recording a cost moves that month up by it, to within half a step and never down, and no other month. */
  lemma RecordedMoves(totals: map<string, real>, log: seq<Charge>, month: string, usd: real, m: string)
    requires Balanced(totals, log) && usd >= 0.0
    ensures var before, after := SpentIn(totals, m), SpentIn(Recorded(totals, month, Some(usd)), m);
            if m != month then after == before
            else before <= after && before + usd - HALF_STEP <= after <= before + usd + HALF_STEP
  {
    assert BalancedIn(totals, log, month);
    TotalAppend(CostsIn(log, month), usd);
    TotalNeverDrops(CostsIn(log, month), usd);
    RoundClose(SpentIn(totals, month) + usd);
  }

  class BudgetTracker {
    const cap: real
    var totals: map<string, real>
    ghost var log: seq<Charge>

    constructor (monthlyCap: real)
      ensures cap == monthlyCap && totals == map[] && log == [] && Valid()
    {
      cap, totals, log := monthlyCap, map[], [];
    }

    ghost predicate Valid()
      reads this
    {
      Balanced(totals, log)
    }

    /** `check_allowed`: refused exactly when a positive cap is reached. */
    method CheckAllowed(month: string) returns (allowed: bool)
      ensures allowed <==> cap <= 0.0 || SpentIn(totals, month) < cap
    {
      BlockedIff(SpentIn(totals, month), cap);
      allowed := !Blocked(SpentIn(totals, month), cap);
    }

    /** `record_cost`: the cost joins the month's costs, and the file holds their total again. */
    method RecordCost(month: string, usd: Option<real>) returns (failed: Option<RecordError>)
      requires Valid()
      modifies this
      ensures Valid()
      ensures failed.Some? <==> usd.Some? && usd.value < 0.0
      ensures totals == Recorded(old(totals), month, usd) && log == old(log) + Noted(month, usd)
    {
      if usd.None? {
        return None;
      }
      if usd.value < 0.0 {
        return Some(NegativeCost);
      }
      StillBalanced(totals, log, month, usd);
      totals := totals[month := Round6(SpentIn(totals, month) + usd.value)];
      log := log + Noted(month, usd);
      return None;
    }
  }
}
