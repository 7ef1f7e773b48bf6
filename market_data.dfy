/**
 * `fetchTokenData` (services/api.ts): extract an address, look it up on
 * DexScreener, keep the listing with the most liquidity and fill in a
 * missing `liquidity`, `volume` or `priceChange` (`txns` is left as it is).
 *
 * The HTTP call is the `response` parameter: what the endpoint answers to
 * the one request made, if one is made. Every failure `fetch`,
 * `response.ok` or `response.json()` can produce is one of the `Response`
 * cases, and all of them end in `None`.
 */
module MarketData {
  import opened Wrappers
  import opened Types
  import opened Address

  const DexApiUrl: string := "https://api.dexscreener.com/latest/dex/tokens/"

  /** What one GET of the token-lookup endpoint yields. */
  datatype Response =
    | Unreachable             // `fetch` rejected (network failure)
    | NotOk(status: int)      // `response.ok` was false
    | MalformedBody           // `response.json()` rejected
    | Ok(body: DexResponse)

  /** The listings to choose from: none unless the lookup succeeded with a `pairs` array. */
  function Listings(response: Response): (ls: seq<DexPair>)
    ensures ls != [] ==> response.Ok? && response.body.pairs == Some(ls)
    ensures response.Ok? && response.body.pairs.Some? ==> ls == response.body.pairs.value
  {
    match response
    case Ok(DexResponse(_, Some(pairs))) => pairs
    case _ => []
  }

  /** The sort key, `pair.liquidity?.usd || 0`. */
  function LiquidityUsd(pair: DexPair): (usd: real)
    ensures pair.liquidity.None? ==> usd == 0.0
    ensures pair.liquidity.Some? ==> usd == pair.liquidity.value.usd
  {
    match pair.liquidity
    case Some(l) => l.usd
    case None => 0.0
  }

  /**
   * Listing `k` is the one a stable sort by descending liquidity puts first:
   * no listing has more liquidity, and every earlier listing has strictly less.
   */
  ghost predicate IsBest(pairs: seq<DexPair>, k: int) {
    && 0 <= k < |pairs|
    && (forall j :: 0 <= j < |pairs| ==> LiquidityUsd(pairs[j]) <= LiquidityUsd(pairs[k]))
    && (forall j :: 0 <= j < k ==> LiquidityUsd(pairs[j]) < LiquidityUsd(pairs[k]))
  }

  /** The index of the first listing with the greatest liquidity. */
  function BestIndex(pairs: seq<DexPair>): (k: nat)
    requires |pairs| > 0
    ensures IsBest(pairs, k)
  {
    if |pairs| == 1 then 0
    else
      var init := pairs[..|pairs| - 1];
      var k := BestIndex(init);
      assert forall j :: 0 <= j < |init| ==> init[j] == pairs[j];
      if LiquidityUsd(pairs[|pairs| - 1]) > LiquidityUsd(pairs[k]) then |pairs| - 1 else k
  }

  /** Only one listing can be first in that order. */
  lemma BestIsUnique(pairs: seq<DexPair>, k: int, k': int)
    requires IsBest(pairs, k) && IsBest(pairs, k')
    ensures k == k'
  {
    assert LiquidityUsd(pairs[k]) == LiquidityUsd(pairs[k']);
  }

  /**
   * `data.pairs.sort((a, b) => liqB - liqA)[0]`, computed as a single pass:
   * a later listing replaces the current choice only with strictly more
   * liquidity, so ties keep the earlier one, as the stable sort does.
   */
  method SelectBestPair(pairs: seq<DexPair>) returns (best: nat)
    requires |pairs| > 0
    ensures best == BestIndex(pairs)
  {
    best := 0;
    var i := 1;
    while i < |pairs|
      invariant 1 <= i <= |pairs|
      invariant best == BestIndex(pairs[..i])
    {
      assert pairs[..i + 1][..i] == pairs[..i];
      assert pairs[..i + 1][i] == pairs[i] && pairs[..i + 1][best] == pairs[best];
      if LiquidityUsd(pairs[i]) > LiquidityUsd(pairs[best]) {
        best := i;
      }
      i := i + 1;
    }
    assert pairs[..|pairs|] == pairs;
  }

  const ZeroLiquidity := Liquidity(0.0, 0.0, 0.0)
  const ZeroVolume := Volume(0.0, 0.0, 0.0, 0.0)
  const ZeroPriceChange := PriceChange(0.0, 0.0, 0.0, 0.0)

  /** The three nested objects the patch fills in are present (`txns` need not be). */
  predicate Sanitized(pair: DexPair) {
    pair.liquidity.Some? && pair.volume.Some? && pair.priceChange.Some?
  }

  /**
   * The patch applied to the chosen listing: a missing `liquidity`, `volume`
   * or `priceChange` becomes an all-zero object; present ones, and every
   * other field (`txns` included), are kept as they are.
   */
  function Sanitize(pair: DexPair): (r: DexPair)
    ensures Sanitized(r)
    ensures r.liquidity == if pair.liquidity.Some? then pair.liquidity else Some(ZeroLiquidity)
    ensures r.volume == if pair.volume.Some? then pair.volume else Some(ZeroVolume)
    ensures r.priceChange == if pair.priceChange.Some? then pair.priceChange else Some(ZeroPriceChange)
    ensures r.(liquidity := pair.liquidity, volume := pair.volume, priceChange := pair.priceChange) == pair
  {
    var p1 := if pair.liquidity.None? then pair.(liquidity := Some(ZeroLiquidity)) else pair;
    var p2 := if p1.volume.None? then p1.(volume := Some(ZeroVolume)) else p1;
    if p2.priceChange.None? then p2.(priceChange := Some(ZeroPriceChange)) else p2
  }

  /** Sanitising changes nothing on a listing that already has the three objects. */
  lemma SanitizeKeepsSanitized(pair: DexPair)
    requires Sanitized(pair)
    ensures Sanitize(pair) == pair
  {
  }

  /** Sanitising twice is sanitising once. */
  lemma SanitizeIdempotent(pair: DexPair)
    ensures Sanitize(Sanitize(pair)) == Sanitize(pair)
  {
  }

  /** A filled-in liquidity reads as the same sort key as a missing one. */
  lemma SanitizeKeepsLiquidityKey(pair: DexPair)
    ensures LiquidityUsd(Sanitize(pair)) == LiquidityUsd(pair)
  {
  }

  /** The best listing of the endpoint's answer, sanitised: the listing `p` is what a lookup of `ls` returns. */
  ghost predicate IsSanitizedBest(ls: seq<DexPair>, p: DexPair) {
    exists k :: IsBest(ls, k) && p == Sanitize(ls[k])
  }

  /** What `fetchTokenData(input)` resolves to when the endpoint answers `response`. */
  function FetchedPair(input: string, response: Response): (r: Option<DexPair>)
    ensures ExtractAddress(input).None? ==> r.None?
    ensures ExtractAddress(input).Some? ==> (r.None? <==> Listings(response) == [])
    ensures r.Some? ==> IsSanitizedBest(Listings(response), r.value)
    ensures r.Some? ==> Sanitized(r.value)
  {
    match ExtractAddress(input)
    case None => None
    case Some(_) =>
      var ls := Listings(response);
      if ls == [] then None
      else
        var k := BestIndex(ls);
        assert IsBest(ls, k);
        Some(Sanitize(ls[k]))
  }

  /**
   * The lookup itself. It requests `DexApiUrl + address` exactly when an
   * address was extracted (`response` is then the answer), and resolves to
   * `FetchedPair`.
   */
  method FetchTokenData(input: string, response: Response)
    returns (pair: Option<DexPair>, request: Option<string>)
    ensures request.None? <==> ExtractAddress(input).None?
    ensures request.Some? ==> request.value == DexApiUrl + ExtractAddress(input).value
    ensures pair == FetchedPair(input, response)
  {
    var address := ExtractAddress(input);
    if address.None? {
      return None, None;
    }
    request := Some(DexApiUrl + address.value);
    var ls := Listings(response);
    if |ls| > 0 {
      var k := SelectBestPair(ls);
      pair := Some(Sanitize(ls[k]));
    } else {
      pair := None;
    }
  }
}
