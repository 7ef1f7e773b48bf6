/**
 * The arithmetic of the stats panel (components/StatsGrid.tsx): the currency
 * tier, the buy-pressure bar of each timeframe row, the change cell, the
 * market cap shown and the deviation from the 24-hour high. The text
 * rendering (`toFixed`, `parseFloat`, dates) is not modelled: the numbers
 * here are the ones handed to it.
 */
module StatsGrid {
  import opened Wrappers
  import opened Types

  datatype Suffix = Millions | Thousands | Units

  function Scale(suffix: Suffix): (f: real)
    ensures f >= 1.0
  {
    match suffix
    case Millions => 1000000.0
    case Thousands => 1000.0
    case Units => 1.0
  }

  /** What `formatCurrency` prints: "N/A", or `$` + amount (2 decimals) + suffix. */
  datatype Currency = NotAvailable | Amount(scaled: real, suffix: Suffix)

  /**
   * `formatCurrency(value)`. Exactly one tier applies: values of at least a
   * million are shown in millions, values of at least a thousand in
   * thousands, everything smaller (negative values included) as is. The
   * scaled amount times the tier's factor gives back the value.
   */
  function FormatCurrency(value: Option<real>): (r: Currency)
    ensures value.None? <==> r.NotAvailable?
    ensures r.Amount? ==> r.scaled * Scale(r.suffix) == value.value
    ensures r.Amount? ==> (r.suffix == Millions <==> value.value >= 1000000.0)
    ensures r.Amount? ==> (r.suffix == Thousands <==> 1000.0 <= value.value < 1000000.0)
    ensures r.Amount? ==> (r.suffix == Units <==> value.value < 1000.0)
    ensures r.Amount? && r.suffix != Units ==> r.scaled >= 1.0
    ensures r.Amount? && r.suffix == Thousands ==> r.scaled < 1000.0
  {
    match value
    case None => NotAvailable
    case Some(v) =>
      if v >= 1000000.0 then Amount(v / 1000000.0, Millions)
      else if v >= 1000.0 then Amount(v / 1000.0, Thousands)
      else Amount(v, Units)
  }

  /** The tier never decreases as the value grows. */
  lemma {:induction false} FormatCurrencyTierMonotone(v: real, w: real)
    requires v <= w
    ensures Scale(FormatCurrency(Some(v)).suffix) <= Scale(FormatCurrency(Some(w)).suffix)
  {
  }

  /**
   * The buy side of the pressure bar, in percent of all transactions in the
   * window; 0 when there were none (`total > 0` guard).
   */
  function BuyPercentage(buys: real, sells: real): (r: real)
    ensures buys + sells <= 0.0 ==> r == 0.0
    ensures buys + sells > 0.0 ==> r * (buys + sells) == buys * 100.0
  {
    var total := buys + sells;
    if total > 0.0 then (buys / total) * 100.0 else 0.0
  }

  /** For real counts the bar is a percentage, full when only buys occurred. */
  lemma {:induction false} BuyPercentageBounds(buys: real, sells: real)
    requires buys >= 0.0 && sells >= 0.0
    ensures 0.0 <= BuyPercentage(buys, sells) <= 100.0
    ensures sells == 0.0 && buys > 0.0 ==> BuyPercentage(buys, sells) == 100.0
    ensures buys == 0.0 ==> BuyPercentage(buys, sells) == 0.0
  {
    var total := buys + sells;
    if total > 0.0 {
      var r := BuyPercentage(buys, sells);
      assert r * total == buys * 100.0;
      assert r * total <= total * 100.0;
      assert r <= 100.0;
    }
  }

  /** The buy share and the sell share of a non-empty window add up to the whole bar. */
  lemma {:induction false} BuyAndSellSharesComplement(buys: real, sells: real)
    requires buys + sells > 0.0
    ensures BuyPercentage(buys, sells) + BuyPercentage(sells, buys) == 100.0
  {
    var total := buys + sells;
    var b := BuyPercentage(buys, sells);
    var s := BuyPercentage(sells, buys);
    assert b * total == buys * 100.0;
    assert s * total == sells * 100.0 by {
      assert sells + buys == total;
    }
    calc {
      (b + s) * total;
      b * total + s * total;
      buys * 100.0 + sells * 100.0;
      100.0 * total;
    }
  }

  /** The change cell: green with an up arrow, or red with a down arrow, and a magnitude. */
  datatype ChangeCell = ChangeCell(positive: bool, magnitude: real)

  /** `change >= 0` (zero counts as positive) and `Math.abs(change)`. */
  function ChangeCellOf(change: real): (c: ChangeCell)
    ensures c.positive <==> change >= 0.0
    ensures c.magnitude >= 0.0
    ensures (if c.positive then c.magnitude else -c.magnitude) == change
  {
    ChangeCell(change >= 0.0, if change >= 0.0 then change else -change)
  }

  /** The market cap card shows `marketCap || fdv`, and "N/A" when that is missing. */
  function MarketCapCard(pair: DexPair): (r: Currency)
    ensures r.NotAvailable? <==> MarketCapOrFdv(pair).None?
    ensures r.Amount? && pair.marketCap.Some? && pair.marketCap.value != 0.0 ==>
      r.scaled * Scale(r.suffix) == pair.marketCap.value
    ensures r.Amount? && (pair.marketCap.None? || pair.marketCap == Some(0.0)) ==>
      r.scaled * Scale(r.suffix) == pair.fdv.value
  {
    FormatCurrency(MarketCapOrFdv(pair))
  }

  /**
   * `dropFromHigh`: how far, in percent, the current price is below the
   * 24-hour high (`pair.high24h || 0`); 0 when there is no positive high.
   */
  function DropFromHigh(high24h: Option<real>, price: real): (r: real)
    ensures OrZero(high24h) <= 0.0 ==> r == 0.0
    ensures OrZero(high24h) > 0.0 ==> price == OrZero(high24h) * (1.0 + r / 100.0)
  {
    var high := OrZero(high24h);
    if high > 0.0 then ((price - high) / high) * 100.0 else 0.0
  }

  /**
   * With a positive high the figure is a signed deviation: at most zero
   * exactly when the price is at most the high, zero exactly at the high,
   * and never below -100 for a non-negative price.
   */
  lemma {:induction false} DropFromHighSign(high24h: Option<real>, price: real)
    requires OrZero(high24h) > 0.0
    ensures DropFromHigh(high24h, price) <= 0.0 <==> price <= OrZero(high24h)
    ensures DropFromHigh(high24h, price) == 0.0 <==> price == OrZero(high24h)
    ensures price >= 0.0 ==> DropFromHigh(high24h, price) >= -100.0
  {
    var high := OrZero(high24h);
    var r := DropFromHigh(high24h, price);
    assert price - high == high * r / 100.0;
  }

  /** The deviation is shown in red below -20%. */
  predicate IsSharpDrop(dropFromHigh: real) {
    dropFromHigh < -20.0
  }

  /** Red means the price is under 80% of a positive 24-hour high. */
  lemma {:induction false} SharpDropIffBelowFourFifths(high24h: Option<real>, price: real)
    requires OrZero(high24h) > 0.0
    ensures IsSharpDrop(DropFromHigh(high24h, price)) <==> price < 0.8 * OrZero(high24h)
  {
    var high := OrZero(high24h);
    var r := DropFromHigh(high24h, price);
    assert price == high * (1.0 + r / 100.0);
    ScaledBelowFourFifths(high, r);
  }

  /** With a positive scale, `1 + r/100 < 0.8` carries over to the scaled values. */
  lemma ScaledBelowFourFifths(high: real, r: real)
    requires high > 0.0
    ensures r < -20.0 <==> high * (1.0 + r / 100.0) < 0.8 * high
  {
    if r < -20.0 {
      assert 1.0 + r / 100.0 < 0.8;
    } else {
      assert 1.0 + r / 100.0 >= 0.8;
    }
  }
}
