/** The numeric gates an allocator arm must pass, per repeat and in aggregate. */
module Guardrails {
  import opened Options

  datatype Config = Config(
    slotFraction: real, tokenFraction: real, fallbackRate: real, slotFactor: real, maxSlots: Option<nat>)

  datatype Cost = Cost(
    schedulerSlots: real, solverSlots: real, schedulerTokens: nat, totalTokens: nat,
    fallbacks: nat, decisions: nat, maxOccupied: Option<nat>,
    calls: nat, reservations: nat, invalid: nat, latency: real)

  datatype Row = Row(capacity: nat, horizon: real, cost: Cost)

  /** Costs are nonnegative and every repeat has a positive slot-second budget. */
  predicate WellFormed(rows: seq<Row>) {
    forall i :: 0 <= i < |rows| ==>
      && rows[i].capacity >= 1 && rows[i].horizon > 0.0
      && rows[i].cost.schedulerSlots >= 0.0 && rows[i].cost.solverSlots >= 0.0 && rows[i].cost.latency >= 0.0
  }

  function Budget(row: Row): real {
    row.capacity as real * row.horizon
  }

  // ---------------------------------------------------------------------
  // Fractions
  // ---------------------------------------------------------------------

  /** `part / whole` is at most `limit`. */
  predicate AtMost(part: real, whole: real, limit: real)
    requires whole > 0.0
  {
    part / whole <= limit
  }

  lemma AtMostIsProduct(part: real, whole: real, limit: real)
    requires whole > 0.0
    ensures AtMost(part, whole, limit) <==> part <= limit * whole
  {
    var q := part / whole;
    assert q * whole == part;
    assert q <= limit ==> (limit - q) * whole >= 0.0;
    assert q > limit ==> (q - limit) * whole > 0.0;
  }

  /** The mediant of two fractions within a limit is within it. */
  lemma Mediant(a: real, b: real, c: real, d: real, limit: real)
    requires b > 0.0 && d > 0.0 && AtMost(a, b, limit) && AtMost(c, d, limit)
    ensures AtMost(a + c, b + d, limit)
  {
    AtMostIsProduct(a, b, limit);
    AtMostIsProduct(c, d, limit);
    AtMostIsProduct(a + c, b + d, limit);
    assert limit * (b + d) == limit * b + limit * d;
  }

  /** A share of scheduler tokens; no tokens at all is a share of zero. */
  predicate TokensOk(schedulerTokens: nat, totalTokens: nat, limit: real) {
    if totalTokens != 0 then AtMost(schedulerTokens as real, totalTokens as real, limit)
    else schedulerTokens == 0 && 0.0 <= limit
  }

  /** A fallback rate; without decisions there is none and the check fails. */
  predicate FallbacksOk(fallbacks: nat, decisions: nat, limit: real) {
    decisions != 0 && AtMost(fallbacks as real, decisions as real, limit)
  }

  lemma TokensMediant(a: nat, b: nat, c: nat, d: nat, limit: real)
    requires TokensOk(a, b, limit) && TokensOk(c, d, limit) && limit >= 0.0
    ensures TokensOk(a + c, b + d, limit)
  {
    if b != 0 && d != 0 {
      Mediant(a as real, b as real, c as real, d as real, limit);
    }
  }

  lemma FallbacksMediant(a: nat, b: nat, c: nat, d: nat, limit: real)
    requires FallbacksOk(a, b, limit) && FallbacksOk(c, d, limit)
    ensures FallbacksOk(a + c, b + d, limit)
  {
    Mediant(a as real, b as real, c as real, d as real, limit);
  }

  // ---------------------------------------------------------------------
  // Totals
  // ---------------------------------------------------------------------

  datatype Totals = Totals(
    budget: real, schedulerSlots: real, solverSlots: real, schedulerTokens: nat, totalTokens: nat,
    fallbacks: nat, decisions: nat, calls: nat, reservations: nat, invalid: nat, latency: real)

  function Add(t: Totals, row: Row): Totals {
    var c := row.cost;
    Totals(t.budget + Budget(row), t.schedulerSlots + c.schedulerSlots, t.solverSlots + c.solverSlots,
           t.schedulerTokens + c.schedulerTokens, t.totalTokens + c.totalTokens, t.fallbacks + c.fallbacks,
           t.decisions + c.decisions, t.calls + c.calls, t.reservations + c.reservations, t.invalid + c.invalid,
           t.latency + c.latency)
  }

  const ZERO := Totals(0.0, 0.0, 0.0, 0, 0, 0, 0, 0, 0, 0, 0.0)

  function TotalsOf(rows: seq<Row>): Totals {
    if rows == [] then ZERO else Add(TotalsOf(rows[..|rows|-1]), rows[|rows|-1])
  }

  /** The fractional gates, of one repeat or of the totals. */
  predicate FractionsOk(config: Config, t: Totals) {
    && t.budget > 0.0
    && AtMost(t.schedulerSlots, t.budget, config.slotFraction)
    && TokensOk(t.schedulerTokens, t.totalTokens, config.tokenFraction)
    && FallbacksOk(t.fallbacks, t.decisions, config.fallbackRate)
    && AtMost(t.solverSlots + t.schedulerSlots, t.budget, config.slotFactor)
  }

  /** A deterministic arm may not have cost the scheduler anything. */
  predicate CostFree(t: Totals) {
    && t.schedulerTokens == 0 && t.schedulerSlots == 0.0 && t.calls == 0 && t.reservations == 0
    && t.invalid == 0 && t.fallbacks == 0 && t.latency == 0.0
  }

  function Limit(config: Config, capacity: nat): nat {
    if config.maxSlots.Some? && config.maxSlots.value < capacity then config.maxSlots.value else capacity
  }

  predicate RepeatPasses(config: Config, llm: bool, row: Row) {
    var t := Add(ZERO, row);
    && FractionsOk(config, t)
    && row.cost.maxOccupied.Some? && row.cost.maxOccupied.value <= Limit(config, row.capacity)
    && (if llm then !(row.cost.calls == 0 && row.cost.decisions > 0) else CostFree(t))
  }

  predicate AllPass(config: Config, llm: bool, rows: seq<Row>) {
    forall i :: 0 <= i < |rows| ==> RepeatPasses(config, llm, rows[i])
  }

  /** The largest occupation seen and the least capacity among the repeats that report one. */
  datatype Peak = Peak(observed: Option<nat>, capacity: nat)

  function AddPeak(p: Peak, row: Row): Peak {
    match row.cost.maxOccupied
    case None => p
    case Some(v) =>
      Peak(Some(if p.observed.Some? && p.observed.value > v then p.observed.value else v),
           if p.observed.Some? && p.capacity < row.capacity then p.capacity else row.capacity)
  }

  function PeakOf(rows: seq<Row>): Peak {
    if rows == [] then Peak(None, 0) else AddPeak(PeakOf(rows[..|rows|-1]), rows[|rows|-1])
  }

  predicate PeakOk(config: Config, p: Peak) {
    p.observed.Some? && p.observed.value <= Limit(config, p.capacity)
  }

  predicate AggregatePasses(config: Config, llm: bool, rows: seq<Row>) {
    && FractionsOk(config, TotalsOf(rows))
    && PeakOk(config, PeakOf(rows))
    && (llm || CostFree(TotalsOf(rows)))
  }

  /** What one repeat must keep to, without a fraction: each cost at most its
      limit times what it is measured by, and something decided. */
  predicate WithinLimits(config: Config, row: Row) {
    var c := row.cost;
    && row.capacity as real * row.horizon > 0.0
    && c.schedulerSlots <= config.slotFraction * (row.capacity as real * row.horizon)
    && c.solverSlots + c.schedulerSlots <= config.slotFactor * (row.capacity as real * row.horizon)
    && c.schedulerTokens as real <= config.tokenFraction * c.totalTokens as real
    && c.decisions > 0 && c.fallbacks as real <= config.fallbackRate * c.decisions as real
  }

  /** A repeat passes exactly when it keeps to its limits and to its slots, and a
      model-driven arm was called if it decided at all, another cost nothing. */
  lemma RepeatPassesExactly(config: Config, llm: bool, row: Row)
    requires config.tokenFraction >= 0.0
    ensures RepeatPasses(config, llm, row)
       <==> && WithinLimits(config, row)
            && (exists v :: row.cost.maxOccupied == Some(v) && v <= row.capacity
                            && (config.maxSlots.Some? ==> v <= config.maxSlots.value))
            && (llm ==> row.cost.calls > 0)
            && (!llm ==> && row.cost.schedulerTokens == 0 && row.cost.schedulerSlots == 0.0 && row.cost.calls == 0
                         && row.cost.reservations == 0 && row.cost.invalid == 0 && row.cost.fallbacks == 0
                         && row.cost.latency == 0.0)
  {
    var c, budget := row.cost, row.capacity as real * row.horizon;
    if budget > 0.0 {
      AtMostIsProduct(c.schedulerSlots, budget, config.slotFraction);
      AtMostIsProduct(c.solverSlots + c.schedulerSlots, budget, config.slotFactor);
    }
    if c.totalTokens != 0 { AtMostIsProduct(c.schedulerTokens as real, c.totalTokens as real, config.tokenFraction); }
    if c.decisions != 0 { AtMostIsProduct(c.fallbacks as real, c.decisions as real, config.fallbackRate); }
    if c.maxOccupied.Some? { assert c.maxOccupied == Some(c.maxOccupied.value); }
  }

  // ---------------------------------------------------------------------
  // Passing every repeat is passing the aggregate
  // ---------------------------------------------------------------------

  lemma AddFractions(config: Config, t: Totals, row: Row)
    requires FractionsOk(config, t) && FractionsOk(config, Add(ZERO, row)) && config.tokenFraction >= 0.0
    ensures FractionsOk(config, Add(t, row))
  {
    var c, b := row.cost, Budget(row);
    Mediant(t.schedulerSlots, t.budget, c.schedulerSlots, b, config.slotFraction);
    TokensMediant(t.schedulerTokens, t.totalTokens, c.schedulerTokens, c.totalTokens, config.tokenFraction);
    FallbacksMediant(t.fallbacks, t.decisions, c.fallbacks, c.decisions, config.fallbackRate);
    Mediant(t.solverSlots + t.schedulerSlots, t.budget, c.solverSlots + c.schedulerSlots, b, config.slotFactor);
  }

  lemma {:induction false} PassingAddsUp(config: Config, llm: bool, rows: seq<Row>)
    requires rows != [] && AllPass(config, llm, rows) && config.tokenFraction >= 0.0
    ensures FractionsOk(config, TotalsOf(rows)) && (!llm ==> CostFree(TotalsOf(rows)))
  {
    var n := |rows| - 1;
    assert RepeatPasses(config, llm, rows[n]);
    if n == 0 {
      assert TotalsOf(rows[..0]) == ZERO;
    } else {
      PassingAddsUp(config, llm, rows[..n]);
      AddFractions(config, TotalsOf(rows[..n]), rows[n]);
    }
  }

  /** What the peak records, when every repeat reports its occupation. */
  lemma {:induction false} PeakIsExtreme(rows: seq<Row>)
    requires forall i :: 0 <= i < |rows| ==> rows[i].cost.maxOccupied.Some?
    ensures rows != [] ==>
              var p := PeakOf(rows);
              && p.observed.Some?
              && (forall i :: 0 <= i < |rows| ==>
                    rows[i].cost.maxOccupied.value <= p.observed.value && p.capacity <= rows[i].capacity)
              && (exists i :: 0 <= i < |rows| && rows[i].cost.maxOccupied == p.observed)
              && (exists i :: 0 <= i < |rows| && rows[i].capacity == p.capacity)
  {
    if rows != [] {
      var n := |rows| - 1;
      PeakIsExtreme(rows[..n]);
      assert forall i :: 0 <= i < n ==> rows[..n][i] == rows[i];
    }
  }

  /** No repeat occupied more slots than any repeat's capacity. */
  predicate PeaksFitAll(rows: seq<Row>) {
    forall i, j :: 0 <= i < |rows| && 0 <= j < |rows| && rows[i].cost.maxOccupied.Some? ==>
      rows[i].cost.maxOccupied.value <= rows[j].capacity
  }

  lemma PeakExactly(config: Config, llm: bool, rows: seq<Row>)
    requires rows != [] && AllPass(config, llm, rows)
    ensures PeakOk(config, PeakOf(rows)) <==> PeaksFitAll(rows)
  {
    forall i | 0 <= i < |rows| ensures rows[i].cost.maxOccupied.Some?
                                       && rows[i].cost.maxOccupied.value <= Limit(config, rows[i].capacity) {
      assert RepeatPasses(config, llm, rows[i]);
    }
    PeakIsExtreme(rows);
  }

  /** An arm is eligible exactly when every repeat passes and no repeat occupied
      more than the least capacity: the fractional gates in aggregate add nothing. */
  lemma EligibleExactly(config: Config, llm: bool, rows: seq<Row>)
    requires rows != [] && config.tokenFraction >= 0.0
    ensures AllPass(config, llm, rows) && AggregatePasses(config, llm, rows)
       <==> AllPass(config, llm, rows) && PeaksFitAll(rows)
  {
    if AllPass(config, llm, rows) {
      PassingAddsUp(config, llm, rows);
      PeakExactly(config, llm, rows);
    }
  }

  predicate SharedCapacity(rows: seq<Row>) {
    forall i, j :: 0 <= i < |rows| && 0 <= j < |rows| ==> rows[i].capacity == rows[j].capacity
  }

  /** With the capacity the loader makes all repeats share, eligibility is just
      that all repeats pass. */
  lemma EligibleIsAllPass(config: Config, llm: bool, rows: seq<Row>)
    requires rows != [] && config.tokenFraction >= 0.0 && SharedCapacity(rows)
    ensures AllPass(config, llm, rows) && AggregatePasses(config, llm, rows) <==> AllPass(config, llm, rows)
  {
    EligibleExactly(config, llm, rows);
    if AllPass(config, llm, rows) {
      forall i, j | 0 <= i < |rows| && 0 <= j < |rows| && rows[i].cost.maxOccupied.Some?
        ensures rows[i].cost.maxOccupied.value <= rows[j].capacity
      {
        assert RepeatPasses(config, llm, rows[i]);
      }
    }
  }

  // ---------------------------------------------------------------------
  // The check as written
  // ---------------------------------------------------------------------

  lemma {:induction false} BudgetPositive(rows: seq<Row>)
    requires rows != [] && WellFormed(rows)
    ensures TotalsOf(rows).budget > 0.0
  {
    var n := |rows| - 1;
    Positive(rows[n].capacity as real, rows[n].horizon);
    if n > 0 { BudgetPositive(rows[..n]); }
    assert rows[..0] == [];
  }

  lemma Positive(a: real, b: real)
    requires a > 0.0 && b > 0.0
    ensures a * b > 0.0
  {
  }

  /** The loop over the repeats and the aggregate checks after it. */
  method GuardrailCheck(config: Config, llm: bool, rows: seq<Row>) returns (pass: bool)
    requires WellFormed(rows) && rows != []
    ensures pass <==> AllPass(config, llm, rows) && AggregatePasses(config, llm, rows)
  {
    var totals, peak, allPass := ZERO, Peak(None, 0), true;
    var i := 0;
    while i < |rows|
      invariant i <= |rows| && totals == TotalsOf(rows[..i]) && peak == PeakOf(rows[..i])
      invariant allPass <==> AllPass(config, llm, rows[..i])
    {
      var row := rows[i];
      assert rows[..i + 1] == rows[..i] + [row] && rows[..i + 1][..i] == rows[..i];
      totals := Add(totals, row);
      peak := AddPeak(peak, row);
      allPass := allPass && RepeatPasses(config, llm, row);
      i := i + 1;
    }
    assert rows[..i] == rows;
    return allPass && FractionsOk(config, totals) && PeakOk(config, peak) && (llm || CostFree(totals));
  }

  /** With repeats of different capacity, all can pass while the arm does not. */
  lemma DifferentCapacities(config: Config, first: Row, second: Row)
    requires config.tokenFraction >= 0.0 && WellFormed([first, second])
    requires RepeatPasses(config, true, first) && RepeatPasses(config, true, second)
    requires second.cost.maxOccupied == Some(second.capacity) && first.capacity < second.capacity
    ensures AllPass(config, true, [first, second]) && !AggregatePasses(config, true, [first, second])
  {
    var rows := [first, second];
    EligibleExactly(config, true, rows);
    assert rows[0] == first && rows[1] == second;
    assert !PeaksFitAll(rows);
  }

  /** Such repeats exist. */
  lemma DifferentCapacitiesExist() returns (config: Config, first: Row, second: Row)
    ensures config.tokenFraction >= 0.0 && WellFormed([first, second])
    ensures RepeatPasses(config, true, first) && RepeatPasses(config, true, second)
    ensures second.cost.maxOccupied == Some(second.capacity) && first.capacity < second.capacity
  {
    config := Config(1.0, 1.0, 1.0, 1.0, None);
    var cost := Cost(0.0, 0.0, 0, 0, 0, 1, Some(2), 1, 1, 0, 0.0);
    first, second := Row(2, 1.0, cost), Row(3, 1.0, cost.(maxOccupied := Some(3)));
    assert Budget(first) == 2.0 && Budget(second) == 3.0;
    assert AtMost(0.0, 2.0, 1.0) && AtMost(0.0, 3.0, 1.0) && AtMost(0.0, 1.0, 1.0);
  }
}
