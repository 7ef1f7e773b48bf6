# FAP token lookup: a Dafny model

This project models the logic of the "Financial Advisor Pussy" token
screener. The user pastes a Solana contract address, or a DexScreener or
pump.fun link that contains one. The app pulls the address out of the text,
looks it up on DexScreener, and keeps the trading pair with the most
liquidity, filling in a missing `liquidity`, `volume` or `priceChange`
object (a missing `txns` is left missing). It then shows that pair in
a stats panel and asks Gemini for a short analysis.

The modules follow the source files:

- `Wrappers`: `Option`.
- `Types` (types.ts): the `DexPair`/`DexResponse` shapes and `AnalysisStatus`,
  plus the two `||` fallbacks shared by the services and the panel. Nested
  objects and the `fdv`/`marketCap` numbers that DexScreener may omit are
  `Option`s, and numbers are `real`.
- `JsString`: the ECMAScript `trim`, `toLowerCase` and `endsWith` the code
  relies on.
- `Address` (services/api.ts, `extractAddress`): the leftmost, greedy match
  of `[1-9A-HJ-NP-Za-km-z]{32,44}`.
- `MarketData` (services/api.ts, `fetchTokenData`): the outcomes of the HTTP
  call, the choice of the listing with the most liquidity (ties go to the
  earliest, as with a stable sort), and the sanitising patch.
- `Advisor` (services/api.ts, `generateAnalysis`): the pump.fun test, the
  values the prompt embeds, and the string the function always returns.
- `StatsGrid` (components/StatsGrid.tsx): the currency tier, the buy-pressure
  percentage, the change cell, the market-cap card and the deviation from
  the 24-hour high.
- `App` (App.tsx): the search screen as a class. It has an `address` field
  and a `view` field that holds the four state hooks a search drives
  (`status`, `data`, `analysis` and `error`). Its `HandleSearch` method takes
  the DexScreener answer and the settled Gemini call as parameters. It
  returns every rendering shown during the search and the prompt sent to
  Gemini, if any.

External answers are inputs:

- `MarketData.Response` is what the single DexScreener GET yields: a network
  failure, a non-OK status, a body that is not JSON, or a parsed body.
- `Advisor.GenerationOutcome` is how the Gemini call settled: an answer whose
  `text` may be missing or empty, or a rejection.

What this code does, and does not do:

- `txns` is not filled in when missing. Only `liquidity`, `volume` and
  `priceChange` are patched (services/api.ts:44-52).
- An unreachable endpoint, a non-OK status and a bad body all end in `null`,
  exactly like "no listing". The app shows the same "Asset not found" message
  for all of them, and there is no separate upstream error
  (services/api.ts:58-61, App.tsx:83-87).
- There is no estimated 24-hour high, no risk or liquidity-health score, no
  verdict classification, no timeout race, no retry with backoff and no
  rule-based fallback. A failed Gemini call yields the fixed "Hiss!" text
  (services/api.ts:108-111).

## Model

| member | source | states |
|---|---|---|
| Types.OrZero | components/StatsGrid.tsx:54-56 | `x \|\| 0` on an optional number: positive exactly when the number is present and positive (the `high24h > 0` guard), 0 exactly when it is missing or zero |
| Types.MarketCapOrFdv | components/StatsGrid.tsx:53 | `marketCap \|\| fdv`: the market cap when present and non-zero, otherwise the FDV; missing exactly when the FDV is missing and the market cap is missing or zero |
| JsString.TrimStart | App.tsx:72 | the result is no longer than the input and does not start with ECMAScript whitespace |
| JsString.TrimStartIsSuffix | App.tsx:72 | leading trim removes an all-whitespace prefix and keeps the rest of the input unchanged |
| JsString.TrimEnd | App.tsx:72 | the result is no longer than the input and does not end with whitespace |
| JsString.TrimEndIsPrefix | App.tsx:72 | trailing trim removes an all-whitespace suffix and keeps the rest unchanged |
| JsString.Trim | App.tsx:72 | `trim()`: the result is empty or starts and ends with a non-whitespace character |
| JsString.TrimIsSlice | App.tsx:81 | the trimmed input handed to the lookup is the input with an all-whitespace prefix and an all-whitespace suffix removed, characters unchanged |
| JsString.TrimEmptyIffBlank | App.tsx:72 | `!address.trim()` holds exactly when the input is empty or all whitespace |
| JsString.TrimIdempotent | App.tsx:72 | trimming twice equals trimming once |
| JsString.LowerChar | services/api.ts:71 | the result is never a capital; it is a lower-case letter exactly when the input is a letter, and it is p, u or m exactly when the input is that letter in either case |
| JsString.LowerCharIdempotent | services/api.ts:71 | lowering a lowered character changes nothing |
| JsString.ToLower | services/api.ts:71 | `toLowerCase()` keeps the length and lowers every character |
| Address.RunLength | services/api.ts:12 | the run of base58 characters at a position: all base58, ended by the end of the input or a non-base58 character |
| Address.RunLengthMatches | services/api.ts:12 | the expression can match at a position exactly when that run is at least 32 long |
| Address.FirstMatch | services/api.ts:12 | the leftmost position at which the expression matches, or none when no position matches |
| Address.ExtractAddress | services/api.ts:9-14 | `null` exactly when no 32 consecutive base58 characters occur; otherwise 32 to 44 base58 characters |
| Address.ExtractAddressIsLeftmostLongest | services/api.ts:12-13 | the result is the input's own text from the leftmost match position, cut at 44, at the end of the input, or at the first non-base58 character |
| Address.MatchStartsAtRunBoundary | services/api.ts:12 | the match never starts inside a base58 run: the character before it is outside the alphabet |
| Address.NoMatchInPrefix | services/api.ts:12 | text without a match that ends outside the alphabet contributes no match to what follows it |
| Address.RunLengthExact | services/api.ts:12 | a base58 run of length m followed by a stop has run length m |
| Address.ExtractAddressAt | services/api.ts:12-13 | with the leftmost match at p and a run of at most 44, the result is exactly that run |
| Address.ExtractsEmbeddedAddress | services/api.ts:9-14 | an address is found unchanged when it is raw or embedded between a prefix without a match and a suffix, each meeting it at a non-base58 character (a DexScreener or pump.fun link) |
| MarketData.Listings | services/api.ts:26-32 | listings exist only for an OK response whose body has a `pairs` array; every failure yields none |
| MarketData.BestIndex | services/api.ts:34-40 | the first element of the stable sort descending by the key `liquidity?.usd \|\| 0`: no listing has a larger key, and every earlier listing has a strictly smaller one |
| MarketData.BestIsUnique | services/api.ts:34-40 | only one index satisfies that description |
| MarketData.SelectBestPair | services/api.ts:34-40 | a single pass that replaces the choice only on strictly greater liquidity computes `BestIndex` |
| MarketData.Sanitize | services/api.ts:44-52 | missing `liquidity`, `volume` and `priceChange` become all-zero objects; present ones and every other field, `txns` included, are unchanged |
| MarketData.SanitizeKeepsSanitized | services/api.ts:44-52 | a listing that already has the three objects is left as it is |
| MarketData.SanitizeIdempotent | services/api.ts:44-52 | patching twice equals patching once |
| MarketData.SanitizeKeepsLiquidityKey | services/api.ts:35-36 | the zero liquidity that is filled in reads as the same sort key as the missing one |
| MarketData.FetchedPair | services/api.ts:19-62 | null when no address is extracted or there are no listings; otherwise the sanitised best listing |
| MarketData.FetchTokenData | services/api.ts:19-62 | a request for `DEX_API_URL + address` is made exactly when an address is extracted; the result is `FetchedPair` |
| Advisor.IsPumpFunIffSuffix | services/api.ts:71 | the pump.fun test holds exactly when the last four characters are p, u, m, p in either case |
| Advisor.PromptIgnoresSanitize | services/api.ts:79-88 | the `\|\| 0` defaults agree with the zero objects of the patch, so the prompt is the same before and after sanitising |
| Advisor.AnalysisText | services/api.ts:101-111 | never empty: the model text when it is non-empty, the "Meow?" message when it is empty or missing, the "Hiss!" message when the call throws |
| Advisor.AnalysisTextOrigin | services/api.ts:107-110 | the analysis is one of the two fixed messages or the model's own text |
| StatsGrid.Scale | components/StatsGrid.tsx:11-13 | the divisor of each tier is at least 1 |
| StatsGrid.FormatCurrency | components/StatsGrid.tsx:9-14 | "N/A" exactly for a missing value; otherwise exactly one tier (M from 1e6, K from 1e3, inclusive, everything smaller unscaled), and the scaled amount times the divisor gives back the value |
| StatsGrid.FormatCurrencyTierMonotone | components/StatsGrid.tsx:11-13 | a larger value never gets a smaller tier |
| StatsGrid.BuyPercentage | components/StatsGrid.tsx:24-25 | 0 when buys + sells is not positive; otherwise the buy share of the total in percent |
| StatsGrid.BuyPercentageBounds | components/StatsGrid.tsx:25 | for non-negative counts the percentage lies in [0, 100]; it is 100 with buys and no sells, and 0 without buys |
| StatsGrid.BuyAndSellSharesComplement | components/StatsGrid.tsx:24-25 | the buy share and the sell share of a non-empty window add up to 100 |
| StatsGrid.ChangeCellOf | components/StatsGrid.tsx:23-33 | positive exactly when change >= 0 (zero counts as positive); the magnitude is the absolute value |
| StatsGrid.MarketCapCard | components/StatsGrid.tsx:75 | the card shows the market cap unless it is zero or missing, then the FDV, and "N/A" when that is missing too |
| StatsGrid.DropFromHigh | components/StatsGrid.tsx:54-56 | 0 without a positive `high24h`; otherwise the percentage r with price = high * (1 + r/100) |
| StatsGrid.DropFromHighSign | components/StatsGrid.tsx:56 | with a positive high the figure is <= 0 exactly when price <= high, 0 exactly at the high, and at least -100 for a non-negative price |
| StatsGrid.SharpDropIffBelowFourFifths | components/StatsGrid.tsx:68 | the figure is red (below -20) exactly when the price is under 80% of the high |
| App.BadgeMatchesPromptOrigin | App.tsx:98 | the pump.fun badge is shown for a listing exactly when the prompt takes the pump.fun branch |
| App.EndView | App.tsx:83-95 | a search ends in ERROR with the "Asset not found" banner and no data when nothing was fetched; otherwise it ends in COMPLETE with the listing, its analysis and no error; either way the screen accepts a new search |
| App.Renderings | App.tsx:75-95 | a search first shows FETCHING_DATA with everything cleared, then ANALYZING with the listing when there is one, then the end state; the button (disabled for FETCHING_DATA and ANALYZING) is re-enabled only at the end |
| App.SearchScreen.constructor | App.tsx:64-68 | the initial state: empty input, IDLE, no data, no analysis, no error |
| App.SearchScreen.SetAddress | App.tsx:158 | typing changes only the input |
| App.SearchScreen.HandleSearch | App.tsx:70-96 | a blank input changes nothing and requests nothing; otherwise `DEX_API_URL` plus the extracted address is requested exactly when an address is found in the trimmed input, the screen passes through `Renderings` and stays in `EndView`, and Gemini is asked exactly when a listing was found, with that listing's prompt |

## Left out

- Network, JSON parsing and the Gemini call: their outcomes are the
  `Response` and `GenerationOutcome` parameters. `console.error` logging is
  not modelled.
- Advisor.AnalysisText: assumes that constructing the Gemini client and
  lowering the address (services/api.ts:68-71) do not throw. They run before
  the `try` at services/api.ts:101, so a throw there would reject
  `generateAnalysis` instead of returning the "Hiss!" text, and
  `GenerationOutcome` has no case for it.
- App.SearchScreen.HandleSearch: assumes services/api.ts:68-71 do not throw.
  If they did, `await generateAnalysis(...)` (App.tsx:93) would reject out of
  `handleSearch` after ANALYZING was set (App.tsx:90), leaving the screen in
  ANALYZING with the button disabled, which is not a `Settled` view and not
  the promised `EndView`.
- App.SearchScreen.HandleSearch: each group of setters called together
  (App.tsx:75-78, App.tsx:84-85 and App.tsx:89-90) is taken as one
  re-render, as with React 18's automatic batching. Under a React that
  renders after each setter, more intermediate views appear than
  `Renderings` lists.
- The prompt's prose and the Gemini model name. `Prompt` keeps only the
  values and the branch the prose embeds.
- Floating point: numbers are exact `real`s. `NaN`, infinities, `toFixed`,
  `parseFloat` (`formatPrice`, and the price fed to `dropFromHigh`, which is
  a parameter here) and `toLocaleDateString` are not modelled.
- MarketData.SelectBestPair: the in-place `sort` of `data.pairs` is modelled
  as selecting the first listing with the greatest liquidity. The sorted
  array is never used except for its first element. The reordering of the
  response array itself is not modelled.
- MarketData.Sanitize: the in-place patch of `bestPair` is modelled as a
  function on values. The patched object is the one returned, and no alias
  is observable.
- A `null` element inside `pairs`, and nested objects that are present but
  lack fields, are not modelled.
- `txns` is not sanitised by the source, and nothing here fills it in. The
  stats panel reads `pair.txns.<window>.buys/sells` without a guard
  (components/StatsGrid.tsx:113-134), so a listing without `txns` would make
  the source's panel throw while rendering. `App.Settled` accepts such a
  listing on screen, and rendering failures are not modelled.
- JsString.ToLower: only ASCII letters are lowered. For the one use,
  `endsWith('pump')`, this gives the same answer as full Unicode lowering,
  because no other character lowers to p, u or m.
- JavaScript strings are UTF-16 code units, while `string` here is a
  sequence of Unicode scalar values. Surrogate pairs are outside the base58
  alphabet either way.
- App.SearchScreen.HandleSearch: the four hooks updated by separate setters
  are one `view` field. The intermediate states are the returned
  renderings, not separate field writes.
- App.SearchScreen.HandleSearch: async interleaving, a second search started
  before the first settles, and unmounting are concurrency and are not
  modelled. The method requires that no search is in flight, as the
  disabled button ensures.
- JSX, CSS, SVG and animation. components/Header.tsx, TopBar.tsx,
  AnalysisBox.tsx, MemeGenerator.tsx, ChatInterface.tsx and VibeCoder.tsx
  are not part of this model.
- `riskScore`, `liquidityHealth`, `high24h` and `low24h` are never computed
  in the source. `high24h` is read as an optional input to `DropFromHigh`.
