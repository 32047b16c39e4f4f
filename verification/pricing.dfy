/** Cost accounting (core/llm/pricing.py, core/billing.py): amounts in micro-cents, rounded once.
    Prices are exact here where the program computes in floating point; `round` is half to even. */
module Pricing {
  import opened Common

  const MICROCENTS_PER_CENT: nat := 1_000_000

  function RoundHalfEven(x: real): (r: int)
    ensures -0.5 <= r as real - x <= 0.5
    ensures (r as real - x == 0.5 || x - r as real == 0.5) ==> r % 2 == 0
    ensures x >= 0.0 ==> r >= 0
  {
    var low := x.Floor;
    var rest := x - low as real;
    if rest < 0.5 then low
    else if rest > 0.5 then low + 1
    else if low % 2 == 0 then low else low + 1
  }

  /** Dollars per million tokens. */
  datatype Rate = Rate(input: real, output: real, cachedInput: Option<real>)

  datatype Usage = Usage(inputTokens: nat, outputTokens: nat, cachedInputTokens: nat)

  function FreshInputTokens(u: Usage): nat {
    if u.inputTokens > u.cachedInputTokens then u.inputTokens - u.cachedInputTokens else 0
  }

  /** The price of a call in micro-cents before rounding. */
  function ExactCost(rate: Rate, u: Usage): real {
    var cachedRate := if rate.cachedInput.Some? then rate.cachedInput.value else rate.input;
    100.0 * (FreshInputTokens(u) as real * rate.input
             + u.cachedInputTokens as real * cachedRate
             + u.outputTokens as real * rate.output)
  }

  function CostMicrocents(rate: Rate, u: Usage): int {
    RoundHalfEven(ExactCost(rate, u))
  }

  /** What a million tokens of one kind cost: their price in dollars, at a hundred million micro-cents
      each, to the micro-cent. */
  lemma PriceOfAMillion(rate: Rate)
    ensures ExactCost(rate, Usage(1_000_000, 0, 0)) == 100_000_000.0 * rate.input
    ensures ExactCost(rate, Usage(0, 1_000_000, 0)) == 100_000_000.0 * rate.output
    ensures rate.cachedInput.Some? ==> ExactCost(rate, Usage(1_000_000, 0, 1_000_000)) == 100_000_000.0 * rate.cachedInput.value
  {}

  /** Each kind of token is priced by itself, in proportion; cached ones are part of the input. */
  lemma CostAddsUp(rate: Rate, u: Usage)
    requires u.cachedInputTokens <= u.inputTokens
    ensures 1_000_000.0 * ExactCost(rate, u) ==
            (u.inputTokens - u.cachedInputTokens) as real * ExactCost(rate, Usage(1_000_000, 0, 0))
            + u.cachedInputTokens as real * ExactCost(rate, Usage(1_000_000, 0, 1_000_000))
            + u.outputTokens as real * ExactCost(rate, Usage(0, 1_000_000, 0))
    ensures -0.5 <= CostMicrocents(rate, u) as real - ExactCost(rate, u) <= 0.5
  {}

  /** Without a price of its own cached input costs what fresh input does: how many of the input
      tokens were cached makes no difference. */
  lemma UnpricedCachingIsNeutral(rate: Rate, u: Usage)
    requires rate.cachedInput.None? && u.cachedInputTokens <= u.inputTokens
    ensures CostMicrocents(rate, u) == CostMicrocents(rate, u.(cachedInputTokens := 0))
  {
    var uncached, cached := FreshInputTokens(u), u.cachedInputTokens;
    assert uncached as real * rate.input + cached as real * rate.input == (uncached + cached) as real * rate.input;
    assert ExactCost(rate, u) == ExactCost(rate, u.(cachedInputTokens := 0));
  }

  /** `apply_markup`: the platform's margin in percent. */
  function ApplyMarkup(raw: nat, percent: nat): nat {
    RoundHalfEven((raw * (100 + percent)) as real / 100.0)
  }

  /** A whole number of hundredths is marked up exactly. */
  lemma MarkupOfHundred(raw: nat, percent: nat)
    ensures ApplyMarkup(100 * raw, percent) == raw * (100 + percent)
  {
    var x := (100 * raw * (100 + percent)) as real / 100.0;
    assert x == (raw * (100 + percent)) as real;
  }

  /** In hundredths of a micro-cent: the marked-up cost is off by at most half a micro-cent. */
  lemma MarkupIsNearest(raw: nat, percent: nat)
    ensures -50 <= 100 * ApplyMarkup(raw, percent) - raw * (100 + percent) <= 50
  {
    var scaled := raw * (100 + percent);
    var r := RoundHalfEven(scaled as real / 100.0);
    assert -50.0 <= 100.0 * r as real - scaled as real <= 50.0;
  }

  /** `microcents_to_cents`: the least whole number of cents that covers the amount. */
  function MicrocentsToCents(microcents: int): (cents: nat)
    ensures cents as int * MICROCENTS_PER_CENT >= microcents
    ensures forall c: nat :: c * MICROCENTS_PER_CENT >= microcents ==> cents <= c
  {
    if microcents <= 0 then 0 else -((-microcents) / MICROCENTS_PER_CENT)
  }

  // ---- What rounding adds up to -------------------------------------------------------

  function Total(costs: seq<nat>): nat {
    if costs == [] then 0 else Total(costs[..|costs| - 1]) + costs[|costs| - 1]
  }

  function MarkedUp(costs: seq<nat>, markup: nat -> nat): nat {
    if costs == [] then 0 else MarkedUp(costs[..|costs| - 1], markup) + markup(costs[|costs| - 1])
  }

  ghost predicate IsMarkup(markup: nat -> nat, percent: nat) {
    forall raw :: markup(raw) == ApplyMarkup(raw, percent)
  }

  /** One more call, rounded by at most half a micro-cent. */
  lemma ErrorAdds(total: nat, last: nat, factor: nat, marked: int, lastMarked: int, n: nat)
    requires -50 * n <= 100 * marked - total * factor <= 50 * n
    requires -50 <= 100 * lastMarked - last * factor <= 50
    ensures -50 * (n + 1) <= 100 * (marked + lastMarked) - (total + last) * factor <= 50 * (n + 1)
  {
    assert (total + last) * factor == total * factor + last * factor;
  }

  /** Marking every call up by itself is off the marked-up total by at most half a micro-cent
      per call. */
  lemma {:induction false} MarkupError(costs: seq<nat>, markup: nat -> nat, percent: nat)
    requires IsMarkup(markup, percent)
    ensures -50 * |costs| <= 100 * MarkedUp(costs, markup) - Total(costs) * (100 + percent) <= 50 * |costs|
  {
    if costs != [] {
      var front, last := costs[..|costs| - 1], costs[|costs| - 1];
      MarkupError(front, markup, percent);
      MarkupIsNearest(last, percent);
      ErrorAdds(Total(front), last, 100 + percent, MarkedUp(front, markup), markup(last), |front|);
    }
  }

  /** The debit for a run covers what its calls cost with the margin but for half a micro-cent
      per call, and exceeds it by less than a cent and as much. In hundredths of a micro-cent. */
  lemma DebitCoversTheRun(costs: seq<nat>, markup: nat -> nat, percent: nat)
    requires IsMarkup(markup, percent) && MarkedUp(costs, markup) > 0
    ensures var exact := Total(costs) * (100 + percent);
            var debit := 100 * MICROCENTS_PER_CENT * MicrocentsToCents(MarkedUp(costs, markup));
            exact - 50 * |costs| <= debit < exact + 50 * |costs| + 100 * MICROCENTS_PER_CENT
  {
    MarkupError(costs, markup, percent);
    var m := MarkedUp(costs, markup);
    var cents := MicrocentsToCents(m);
    assert cents > 0;
    var fewer: nat := cents - 1;
    assert fewer * MICROCENTS_PER_CENT < m;
  }
}
