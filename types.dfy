/**
 * The shapes of the DexScreener listing ("pair") and response, and the
 * status of a search (types.ts).
 *
 * The upstream JSON is loosely structured: every nested object the UI reads
 * may be missing, and so may the numeric fields `fdv` and `marketCap`. Those
 * are `Option`s here; `MarketData.Sanitize` fills in three of them.
 */
module Types {
  import opened Wrappers

  datatype Token = Token(address: string, name: string, symbol: string)

  /** Buy and sell transaction counts in one time window. */
  datatype TxnCount = TxnCount(buys: real, sells: real)

  datatype Txns = Txns(m5: TxnCount, h1: TxnCount, h6: TxnCount, h24: TxnCount)

  /** Traded volume in USD per window. */
  datatype Volume = Volume(h24: real, h6: real, h1: real, m5: real)

  /** Price change in percent per window. */
  datatype PriceChange = PriceChange(m5: real, h1: real, h6: real, h24: real)

  datatype Liquidity = Liquidity(usd: real, base: real, quote: real)

  /** One venue-specific trading pair of a token, as DexScreener returns it. */
  datatype DexPair = DexPair(
    chainId: string,
    dexId: string,
    url: string,
    pairAddress: string,
    baseToken: Token,
    quoteToken: Token,
    priceNative: string,
    priceUsd: string,
    txns: Option<Txns>,
    volume: Option<Volume>,
    priceChange: Option<PriceChange>,
    liquidity: Option<Liquidity>,
    fdv: Option<real>,
    marketCap: Option<real>,
    pairCreatedAt: int,
    high24h: Option<real>,
    low24h: Option<real>
  )

  /** The body of the token-lookup endpoint; `pairs` may be null or missing. */
  datatype DexResponse = DexResponse(schemaVersion: string, pairs: Option<seq<DexPair>>)

  datatype AnalysisStatus = Idle | FetchingData | Analyzing | Complete | Error

  /**
   * JavaScript's `x || 0` on an optional number: a missing value (and a zero)
   * reads as 0, any other number as itself. So a guard `(x || 0) > 0` passes
   * exactly for a present positive number.
   */
  function OrZero(x: Option<real>): (r: real)
    ensures x.None? ==> r == 0.0
    ensures x.Some? ==> r == x.value
    ensures r > 0.0 <==> x.Some? && x.value > 0.0
    ensures r == 0.0 <==> x.None? || x.value == 0.0
  {
    x.GetOr(0.0)
  }

  /**
   * The market capitalisation shown for a pair, `pair.marketCap || pair.fdv`:
   * the market cap unless it is missing or zero (both falsy), otherwise the
   * fully diluted valuation, which may itself be missing.
   */
  function MarketCapOrFdv(pair: DexPair): (r: Option<real>)
    ensures pair.marketCap.Some? && pair.marketCap.value != 0.0 ==> r == pair.marketCap
    ensures pair.marketCap.None? || pair.marketCap.value == 0.0 ==> r == pair.fdv
    ensures r == Some(0.0) ==> pair.fdv == Some(0.0)
    ensures r.None? <==> pair.fdv.None? && (pair.marketCap.None? || pair.marketCap == Some(0.0))
  {
    match pair.marketCap
    case Some(m) => if m != 0.0 then Some(m) else pair.fdv
    case None => pair.fdv
  }
}
