/**
 * The search screen of App.tsx: the `address` input and the four pieces of
 * state a search drives (`status`, the fetched listing `data`, the
 * `analysis` text and the `error` banner), and `handleSearch`.
 *
 * The four search hooks are held together as one `View`. The setters called
 * together before each `await` are taken as one re-render (React's automatic
 * batching); `handleSearch` returns the sequence of views shown during
 * the search, so the intermediate FETCHING_DATA and ANALYZING states are part
 * of its contract, together with the prompt handed to Gemini, if any. The
 * services' answers are the parameters `response` (what DexScreener
 * answers) and `outcome` (how the Gemini call settled).
 */
module App {
  import opened Wrappers
  import opened Types
  import opened JsString
  import opened MarketData
  import opened Advisor
  import opened Address

  const AssetNotFound: string := "Asset not found. Please provide a valid Solana CA or Pump.fun URL."

  /** One rendering of the search state. */
  datatype View = View(status: AnalysisStatus, data: Option<DexPair>, analysis: string, error: Option<string>)

  /** The submit button is disabled while a search is in flight. */
  predicate SubmitDisabled(status: AnalysisStatus) {
    status == FetchingData || status == Analyzing
  }

  /** `data?.baseToken.address.toLowerCase().endsWith('pump')`: the pump.fun badge. */
  predicate ShowsPumpFunBadge(data: Option<DexPair>) {
    data.Some? && IsPumpFun(data.value.baseToken.address)
  }

  /** The badge and the prompt's origin line agree for every listing shown. */
  lemma BadgeMatchesPromptOrigin(pair: DexPair)
    ensures ShowsPumpFunBadge(Some(pair)) <==> BuildPrompt(pair).pumpFun
  {
  }

  /**
   * A rendering between searches: no search is in flight, each status shows
   * what it should, and a listing on screen has its nested objects.
   */
  predicate Settled(v: View) {
    && !SubmitDisabled(v.status)
    && (v.status == Idle ==> v.data.None? && v.analysis == "" && v.error.None?)
    && (v.status == Error ==> v.data.None? && v.analysis == "" && v.error == Some(AssetNotFound))
    && (v.status == Complete ==> v.data.Some? && v.analysis != "" && v.error.None?)
    && (v.data.Some? ==> Sanitized(v.data.value))
  }

  /** The screen `handleSearch` clears to before the lookup. */
  const Fetching: View := View(FetchingData, None, "", None)

  /**
   * Where a search ends once the lookup resolved to `fetched` and, if it was
   * asked, Gemini settled as `outcome`: ERROR with the "Asset not found"
   * banner when there is no listing, COMPLETE with the listing and its
   * analysis otherwise.
   */
  function EndView(fetched: Option<DexPair>, outcome: GenerationOutcome): (v: View)
    requires fetched.Some? ==> Sanitized(fetched.value)
    ensures Settled(v)
    ensures v.status == Error <==> fetched.None?
    ensures v.status == Complete <==> fetched.Some?
    ensures v.data == fetched
    ensures fetched.None? ==> v.error == Some(AssetNotFound)
    ensures fetched.Some? ==> v.analysis == AnalysisText(outcome)
  {
    if fetched.None? then View(Error, None, "", Some(AssetNotFound))
    else View(Complete, fetched, AnalysisText(outcome), None)
  }

  /**
   * Everything one search renders, in order: the cleared FETCHING_DATA
   * screen, the listing under ANALYZING when there is one, and the end
   * state. Only the last rendering accepts a new submission.
   */
  function Renderings(fetched: Option<DexPair>, outcome: GenerationOutcome): (vs: seq<View>)
    requires fetched.Some? ==> Sanitized(fetched.value)
    ensures |vs| == (if fetched.Some? then 3 else 2)
    ensures vs[0] == Fetching
    ensures fetched.Some? ==> vs[1] == View(Analyzing, fetched, "", None)
    ensures vs[|vs| - 1] == EndView(fetched, outcome)
    ensures forall k :: 0 <= k < |vs| - 1 ==> SubmitDisabled(vs[k].status)
    ensures !SubmitDisabled(vs[|vs| - 1].status)
  {
    if fetched.None? then [Fetching, EndView(fetched, outcome)]
    else [Fetching, View(Analyzing, fetched, "", None), EndView(fetched, outcome)]
  }

  class SearchScreen {
    var address: string
    var view: View

    /** Between searches the screen shows a settled rendering. */
    ghost predicate Valid()
      reads this
    {
      Settled(view)
    }

    /** The initial state: an empty input, IDLE, nothing fetched or shown. */
    constructor ()
      ensures Valid()
      ensures address == "" && view == View(Idle, None, "", None)
    {
      address, view := "", View(Idle, None, "", None);
    }

    /** The input's `onChange`: only the address changes. */
    method SetAddress(text: string)
      requires Valid()
      modifies this`address
      ensures Valid()
      ensures address == text
    {
      address := text;
    }

    /**
     * `handleSearch`. A blank input does nothing and requests nothing.
     * Otherwise the trimmed input is looked up (`request` is the DexScreener
     * URL fetched, if an address was found in it); the screen goes through
     * `Renderings` and is left in `EndView`, and Gemini is asked for an
     * analysis only when a listing was found.
     */
    method HandleSearch(response: Response, outcome: GenerationOutcome)
      returns (renders: seq<View>, request: Option<string>, asked: Option<Prompt>)
      requires Valid()
      modifies this`view
      ensures Valid()
      ensures |Trim(address)| == 0 ==> view == old(view) && renders == [] && request.None? && asked.None?
      ensures |Trim(address)| > 0 ==>
        request == (if ExtractAddress(Trim(address)).Some?
                    then Some(DexApiUrl + ExtractAddress(Trim(address)).value) else None)
      ensures |Trim(address)| > 0 ==>
        var fetched := FetchedPair(Trim(address), response);
        && view == EndView(fetched, outcome)
        && renders == Renderings(fetched, outcome)
        && (asked.Some? <==> fetched.Some?)
        && (fetched.Some? ==> asked.value == BuildPrompt(fetched.value))
    {
      var query := Trim(address);
      if |query| == 0 {
        return [], None, None;
      }
      var fetched;
      fetched, request := FetchTokenData(query, response);
      view := EndView(fetched, outcome);
      renders := Renderings(fetched, outcome);
      asked := if fetched.Some? then Some(BuildPrompt(fetched.value)) else None;
    }
  }
}
