/** `calculateCost` (src/logger.js): the dollar cost of one completion call,
    priced per million tokens by model-name prefix. Amounts are exact reals. */
module Pricing {
  import opened Text

  const MiniPrefix: string := "gpt-4o-mini"
  const FullPrefix: string := "gpt-4o"

  /** Dollars per million input and output tokens. */
  datatype Rates = Rates(input: real, output: real)

  /** The rate table, checked in order: the mini prefix first, since every
      mini model name also starts with the full prefix. Other models are
      priced at nothing. */
  function RatesFor(model: string): Rates {
    if StartsWith(model, MiniPrefix) then Rates(0.150, 0.600)
    else if StartsWith(model, FullPrefix) then Rates(5.00, 15.00)
    else Rates(0.0, 0.0)
  }

  /** `calculateCost(model, inputTokens, outputTokens)` */
  function CalculateCost(model: string, inputTokens: int, outputTokens: int): (cost: real)
    ensures StartsWith(model, MiniPrefix) ==>
      cost == (inputTokens as real / 1000000.0) * 0.150 + (outputTokens as real / 1000000.0) * 0.600
    ensures !StartsWith(model, MiniPrefix) && StartsWith(model, FullPrefix) ==>
      cost == (inputTokens as real / 1000000.0) * 5.00 + (outputTokens as real / 1000000.0) * 15.00
    ensures !StartsWith(model, FullPrefix) ==> cost == 0.0
  {
    var rates := RatesFor(model);
    (inputTokens as real / 1000000.0) * rates.input + (outputTokens as real / 1000000.0) * rates.output
  }

  /** A mini model name also matches the full prefix, and the mini rates
      win. */
  lemma MiniBeforeFull(model: string)
    requires StartsWith(model, MiniPrefix)
    ensures StartsWith(model, FullPrefix)
    ensures RatesFor(model) == Rates(0.150, 0.600)
  {
    assert model[..|FullPrefix|] == MiniPrefix[..|FullPrefix|];
  }

  /** No tokens cost nothing; for non-negative counts the cost is
      non-negative and grows with each count. */
  lemma CostMonotone(model: string, inputTokens: nat, outputTokens: nat, moreInput: nat, moreOutput: nat)
    requires inputTokens <= moreInput && outputTokens <= moreOutput
    ensures CalculateCost(model, 0, 0) == 0.0
    ensures 0.0 <= CalculateCost(model, inputTokens, outputTokens)
    ensures CalculateCost(model, inputTokens, outputTokens) <= CalculateCost(model, moreInput, moreOutput)
  {
  }

  /** Cost is additive: pricing summed counts equals summing the prices. */
  lemma CostAdditive(model: string, in1: int, out1: int, in2: int, out2: int)
    ensures CalculateCost(model, in1 + in2, out1 + out2)
         == CalculateCost(model, in1, out1) + CalculateCost(model, in2, out2)
  {
  }
}
