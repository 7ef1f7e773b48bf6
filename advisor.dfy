/**
 * `generateAnalysis` (services/api.ts): build a prompt from the chosen
 * listing, ask the Gemini model for a short analysis, and always come back
 * with a string. The prompt's prose is not modelled; `Prompt` keeps the
 * values it embeds and the one branch it takes (pump.fun or not). How the
 * model call settled is the `outcome` parameter.
 */
module Advisor {
  import opened Wrappers
  import opened Types
  import opened JsString
  import opened MarketData

  const NoAnalysisMessage: string := "Meow? I couldn't analyze this coin. Try again later."
  const ErrorMessage: string := "Hiss! My brain is fuzzy. I couldn't generate advice right now."

  /**
   * Pump.fun mints end in "pump": `address.toLowerCase().endsWith('pump')`.
   * Used for the prompt's origin line and for the badge next to the token name.
   */
  predicate IsPumpFun(address: string) {
    EndsWith(ToLower(address), "pump")
  }

  /** The test is case-insensitive on exactly the last four characters. */
  lemma {:induction false} IsPumpFunIffSuffix(address: string)
    ensures IsPumpFun(address) <==>
      && |address| >= 4
      && address[|address| - 4] in "pP"
      && address[|address| - 3] in "uU"
      && address[|address| - 2] in "mM"
      && address[|address| - 1] in "pP"
  {
    var n := |address|;
    if n >= 4 {
      var tail := ToLower(address)[n - 4..];
      assert tail == [LowerChar(address[n - 4]), LowerChar(address[n - 3]),
                      LowerChar(address[n - 2]), LowerChar(address[n - 1])];
    }
  }

  /** The values the prompt embeds, with the source's `|| 0` defaults. */
  datatype Prompt = Prompt(
    name: string,
    symbol: string,
    address: string,
    pumpFun: bool,
    priceUsd: string,
    marketCap: Option<real>,
    liquidityUsd: real,
    volume24h: real,
    momentum24h: real
  )

  function BuildPrompt(pair: DexPair): (p: Prompt)
    ensures p.pumpFun <==> IsPumpFun(pair.baseToken.address)
    ensures p.marketCap == MarketCapOrFdv(pair)
    ensures p.liquidityUsd == if pair.liquidity.Some? then pair.liquidity.value.usd else 0.0
    ensures p.volume24h == if pair.volume.Some? then pair.volume.value.h24 else 0.0
    ensures p.momentum24h == if pair.priceChange.Some? then pair.priceChange.value.h24 else 0.0
  {
    Prompt(
      pair.baseToken.name,
      pair.baseToken.symbol,
      pair.baseToken.address,
      IsPumpFun(pair.baseToken.address),
      pair.priceUsd,
      MarketCapOrFdv(pair),
      LiquidityUsd(pair),
      match pair.volume case Some(v) => v.h24 case None => 0.0,
      match pair.priceChange case Some(c) => c.h24 case None => 0.0)
  }

  /**
   * The `|| 0` defaults agree with the zero-filled objects of `Sanitize`:
   * the prompt is the same whether or not the listing was sanitised.
   */
  lemma PromptIgnoresSanitize(pair: DexPair)
    ensures BuildPrompt(Sanitize(pair)) == BuildPrompt(pair)
  {
  }

  /** How the model call settled. */
  datatype GenerationOutcome =
    | Answered(text: Option<string>)   // `response.text`, possibly undefined
    | Threw                            // `generateContent` rejected

  /**
   * `response.text || "Meow? …"`, or the "Hiss! …" message when the call
   * threw. The result is never empty: an empty or missing answer is replaced.
   */
  function AnalysisText(outcome: GenerationOutcome): (r: string)
    ensures r != ""
    ensures outcome.Threw? ==> r == ErrorMessage
    ensures outcome.Answered? && outcome.text.Some? && outcome.text.value != "" ==> r == outcome.text.value
    ensures outcome.Answered? && (outcome.text.None? || outcome.text.value == "") ==> r == NoAnalysisMessage
  {
    match outcome
    case Threw => ErrorMessage
    case Answered(text) =>
      if text.Some? && text.value != "" then text.value else NoAnalysisMessage
  }

  /** The analysis shown is the model's own text or one of the two fixed messages. */
  lemma AnalysisTextOrigin(outcome: GenerationOutcome)
    ensures AnalysisText(outcome) in {NoAnalysisMessage, ErrorMessage} ||
            (outcome.Answered? && outcome.text == Some(AnalysisText(outcome)))
  {
  }
}
