/** Selection of the best day to buy and the best day to sell within a
    window, from the rows of the grouped per-day query. */
module Extremes {
  import opened Common
  import opened Calendar

  /** One row of the grouped query: a trading day, its lowest low and highest
      high, and the closing prices the query attaches to them. Prices are in
      integral units (cents). */
  datatype DayExtremes = DayExtremes(
    date: Day,
    minLow: int,
    maxHigh: int,
    minLowClosingPrice: int,
    maxHighClosingPrice: int)

  datatype PricePoint = PricePoint(date: Day, closingPrice: int)

  /** The extremes of a window. `profit` is None where either closing price
      is falsy (zero). */
  datatype BestPrices = BestPrices(bestBuy: PricePoint, bestSell: PricePoint, profit: Option<int>)

  /** `min(rows, key=min_low)`: the first row whose `minLow` is the least.
      A later row replaces the candidate only when strictly lower. */
  function FirstMinLow(rows: seq<DayExtremes>): (k: nat)
    requires |rows| > 0
    ensures k < |rows|
    ensures forall j :: 0 <= j < |rows| ==> rows[k].minLow <= rows[j].minLow
    ensures forall j :: 0 <= j < k ==> rows[j].minLow > rows[k].minLow
  {
    if |rows| == 1 then 0
    else
      var k := FirstMinLow(rows[..|rows| - 1]);
      if rows[|rows| - 1].minLow < rows[k].minLow then |rows| - 1 else k
  }

  /** `max(rows, key=max_high)`: the first row whose `maxHigh` is the
      greatest. A later row replaces the candidate only when strictly higher. */
  function FirstMaxHigh(rows: seq<DayExtremes>): (k: nat)
    requires |rows| > 0
    ensures k < |rows|
    ensures forall j :: 0 <= j < |rows| ==> rows[k].maxHigh >= rows[j].maxHigh
    ensures forall j :: 0 <= j < k ==> rows[j].maxHigh < rows[k].maxHigh
  {
    if |rows| == 1 then 0
    else
      var k := FirstMaxHigh(rows[..|rows| - 1]);
      if rows[|rows| - 1].maxHigh > rows[k].maxHigh then |rows| - 1 else k
  }

  /** The post-processing of `query_best_prices`: nothing when the window has
      no rows; otherwise the day of the lowest low as the buy, the day of the
      highest high as the sell, and their closing-price difference when both
      closing prices are nonzero. */
  function BestPricesOf(rows: seq<DayExtremes>): (r: Option<BestPrices>)
    ensures r.None? <==> rows == []
    ensures r.Some? ==>
      var buy := rows[FirstMinLow(rows)];
      var sell := rows[FirstMaxHigh(rows)];
      && r.value.bestBuy == PricePoint(buy.date, buy.minLowClosingPrice)
      && r.value.bestSell == PricePoint(sell.date, sell.maxHighClosingPrice)
    ensures r.Some? ==>
      && (r.value.profit.Some? <==> r.value.bestBuy.closingPrice != 0 && r.value.bestSell.closingPrice != 0)
      && (r.value.profit.Some? ==> r.value.profit.value == r.value.bestSell.closingPrice - r.value.bestBuy.closingPrice)
  {
    if rows == [] then None
    else
      var buy := rows[FirstMinLow(rows)];
      var sell := rows[FirstMaxHigh(rows)];
      var profit :=
        if sell.maxHighClosingPrice != 0 && buy.minLowClosingPrice != 0
        then Some(sell.maxHighClosingPrice - buy.minLowClosingPrice)
        else None;
      Some(BestPrices(
        PricePoint(buy.date, buy.minLowClosingPrice),
        PricePoint(sell.date, sell.maxHighClosingPrice),
        profit))
  }

  /** The buy row is pinned down by the rule "first among the lowest": any
      row index meeting it is the one chosen, so the choice does not depend
      on anything but the rows and their order. */
  lemma FirstMinLowIsUnique(rows: seq<DayExtremes>, i: nat)
    requires i < |rows|
    requires forall k :: 0 <= k < |rows| ==> rows[i].minLow <= rows[k].minLow
    requires forall k :: 0 <= k < i ==> rows[k].minLow > rows[i].minLow
    ensures FirstMinLow(rows) == i
  {
  }

  /** The same rule, "first among the highest", pins down the sell row. */
  lemma FirstMaxHighIsUnique(rows: seq<DayExtremes>, j: nat)
    requires j < |rows|
    requires forall k :: 0 <= k < |rows| ==> rows[j].maxHigh >= rows[k].maxHigh
    requires forall k :: 0 <= k < j ==> rows[k].maxHigh < rows[j].maxHigh
    ensures FirstMaxHigh(rows) == j
  {
  }

  /** A zero closing price at either extreme gives no profit figure at all,
      not a profit computed with zero. */
  lemma ZeroCloseGivesNoProfit(rows: seq<DayExtremes>)
    requires rows != []
    requires rows[FirstMinLow(rows)].minLowClosingPrice == 0 || rows[FirstMaxHigh(rows)].maxHighClosingPrice == 0
    ensures BestPricesOf(rows).value.profit == None
  {
  }
}
