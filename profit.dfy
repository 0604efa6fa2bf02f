/** The multi-trade profit calculator: one pass over the closing prices of a
    window, ordered by symbol then date, accumulating per symbol the sum of
    its day-over-day rises and the last closing price seen. */
module Profit {
  import opened Common
  import opened Text
  import opened Calendar

  /** One row of the ordered query: a day, its closing price (integral units)
      and the symbol of the stock it belongs to. */
  datatype CloseRow = CloseRow(date: Day, closingPrice: int, symbol: string)

  /** The value the accumulator keeps per symbol. */
  datatype Entry = Entry(profit: int, lastPrice: int)

  /** The accumulator dict: its entries, and its keys in insertion order
      (the order in which iteration over the dict visits them). */
  datatype ProfitTable = ProfitTable(order: seq<string>, entries: map<string, Entry>) {
    predicate Valid() {
      && Distinct(order)
      && (forall s :: s in order ==> s in entries)
      && (forall s :: s in entries ==> s in order)
    }
  }

  /** The two shapes of answer: one symbol's profit, or the whole table. */
  datatype ProfitResult = Single(profit: int) | PerSymbol(table: ProfitTable)

  /** The key of a row: its symbol lower-cased. */
  function Key(r: CloseRow): string {
    Lower(r.symbol)
  }

  function Rise(from: int, to: int): int {
    if to > from then to - from else 0
  }

  /** Sum of the positive differences between consecutive prices of `c`. */
  function Gains(c: seq<int>): (g: int)
    ensures g >= 0
  {
    if |c| < 2 then 0 else Gains(c[..|c| - 1]) + Rise(c[|c| - 2], c[|c| - 1])
  }

  function Last(c: seq<int>): int
    requires c != []
  {
    c[|c| - 1]
  }

  /** The closing prices of the rows with key `key`, in row order. */
  function ClosesOf(rows: seq<CloseRow>, key: string): seq<int> {
    if rows == [] then []
    else
      var last := rows[|rows| - 1];
      if Key(last) == key then ClosesOf(rows[..|rows| - 1], key) + [last.closingPrice]
      else ClosesOf(rows[..|rows| - 1], key)
  }

  /** The keys of the rows, each once, in the order of first appearance. */
  function FirstSeen(rows: seq<CloseRow>): seq<string> {
    if rows == [] then []
    else
      var seen := FirstSeen(rows[..|rows| - 1]);
      var key := Key(rows[|rows| - 1]);
      if key in seen then seen else seen + [key]
  }

  lemma {:induction false} FirstSeenMembers(rows: seq<CloseRow>)
    ensures forall s :: s in FirstSeen(rows) <==> ClosesOf(rows, s) != []
    ensures Distinct(FirstSeen(rows))
  {
    if rows != [] {
      FirstSeenMembers(rows[..|rows| - 1]);
    }
  }

  /** The table the fold is to build: for each key, in order of first
      appearance, the gains and the last of the closing prices of its rows. */
  function ProfitTableOf(rows: seq<CloseRow>): ProfitTable {
    FirstSeenMembers(rows);
    ProfitTable(
      FirstSeen(rows),
      map s | s in FirstSeen(rows) :: Entry(Gains(ClosesOf(rows, s)), Last(ClosesOf(rows, s))))
  }

  /** The answer of target mode: the gains of the target's rows, which is 0
      when it has none. */
  function SymbolProfit(rows: seq<CloseRow>, symbol: string): (p: int)
    ensures p >= 0
  {
    Gains(ClosesOf(rows, Lower(symbol)))
  }

  /** What one more row does to the closing prices of a key. */
  lemma ClosesOfSnoc(rows: seq<CloseRow>, i: nat, s: string)
    requires i < |rows|
    ensures ClosesOf(rows[..i + 1], s) ==
      if s == Key(rows[i]) then ClosesOf(rows[..i], s) + [rows[i].closingPrice] else ClosesOf(rows[..i], s)
  {
    assert rows[..i + 1][..i] == rows[..i];
  }

  lemma FirstSeenSnoc(rows: seq<CloseRow>, i: nat)
    requires i < |rows|
    ensures FirstSeen(rows[..i + 1]) ==
      if Key(rows[i]) in FirstSeen(rows[..i]) then FirstSeen(rows[..i]) else FirstSeen(rows[..i]) + [Key(rows[i])]
  {
    assert rows[..i + 1][..i] == rows[..i];
  }

  lemma GainsSnoc(c: seq<int>, x: int)
    ensures Gains(c + [x]) == if c == [] then 0 else Gains(c) + Rise(Last(c), x)
  {
    assert (c + [x])[..|c|] == c;
  }

  /** The accumulator's entry for `s` is the specified one for the rows. */
  ghost predicate EntryAgrees(rows: seq<CloseRow>, profits: map<string, Entry>, s: string) {
    && (s in profits <==> ClosesOf(rows, s) != [])
    && (s in profits ==> profits[s] == Entry(Gains(ClosesOf(rows, s)), Last(ClosesOf(rows, s))))
  }

  /** `order` and `profits` are the accumulator after the rows `rows`. */
  ghost predicate Agrees(rows: seq<CloseRow>, order: seq<string>, profits: map<string, Entry>) {
    && order == FirstSeen(rows)
    && (forall s :: EntryAgrees(rows, profits, s))
  }

  /** A seen key's entry after a price `x`: it gains the rise from its last
      price, if the price rose, and keeps `x` as its last price. */
  function Advance(e: Entry, x: int): Entry {
    Entry(e.profit + Rise(e.lastPrice, x), x)
  }

  /** The accumulator after one more row of key `key` and price `x`: a new
      key starts with no profit, a seen one advances. */
  function Step(profits: map<string, Entry>, key: string, x: int): map<string, Entry> {
    profits[key := if key in profits then Advance(profits[key], x) else Entry(0, x)]
  }

  /** One iteration of the fold, for the entry of one key. */
  lemma EntryStep(rows: seq<CloseRow>, i: nat, profits: map<string, Entry>, s: string)
    requires i < |rows|
    requires EntryAgrees(rows[..i], profits, s)
    requires EntryAgrees(rows[..i], profits, Key(rows[i]))
    ensures EntryAgrees(rows[..i + 1], Step(profits, Key(rows[i]), rows[i].closingPrice), s)
  {
    ClosesOfSnoc(rows, i, s);
    if s == Key(rows[i]) && s in profits {
      GainsSnoc(ClosesOf(rows[..i], s), rows[i].closingPrice);
    }
  }

  /** One iteration of the fold: a key seen for the first time is appended
      to the order, and every entry follows its closing prices. */
  lemma AgreesStep(rows: seq<CloseRow>, i: nat, order: seq<string>, profits: map<string, Entry>)
    requires i < |rows|
    requires Agrees(rows[..i], order, profits)
    ensures Agrees(rows[..i + 1], if Key(rows[i]) in profits then order else order + [Key(rows[i])],
                   Step(profits, Key(rows[i]), rows[i].closingPrice))
  {
    var key := Key(rows[i]);
    FirstSeenSnoc(rows, i);
    FirstSeenMembers(rows[..i]);
    assert EntryAgrees(rows[..i], profits, key);
    var after, next := rows[..i + 1], Step(profits, key, rows[i].closingPrice);
    forall s ensures EntryAgrees(after, next, s) {
      assert EntryAgrees(rows[..i], profits, s);
      EntryStep(rows, i, profits, s);
    }
  }

  /** `calculate_max_profit` on the rows of its query. With a truthy
      `target` (present and non-empty) it answers the target's profit, 0 for
      a symbol without rows; otherwise the whole table. */
  method CalculateMaxProfit(rows: seq<CloseRow>, target: Option<string>) returns (result: ProfitResult)
    ensures target.Some? && target.value != "" ==> result == Single(SymbolProfit(rows, target.value))
    ensures !(target.Some? && target.value != "") ==> result == PerSymbol(ProfitTableOf(rows))
  {
    var order: seq<string> := [];
    var profits: map<string, Entry> := map[];
    for i := 0 to |rows|
      invariant Agrees(rows[..i], order, profits)
    {
      var symbol, closingPrice := Key(rows[i]), rows[i].closingPrice;
      AgreesStep(rows, i, order, profits);
      ghost var next := Step(profits, symbol, closingPrice);
      if symbol !in profits {
        profits := profits[symbol := Entry(0, closingPrice)];
        order := order + [symbol];
      } else {
        var entry := profits[symbol];
        var profitDiff := closingPrice - entry.lastPrice;
        if profitDiff > 0 {
          entry := entry.(profit := entry.profit + profitDiff);
        }
        assert entry.(lastPrice := closingPrice) == Advance(profits[symbol], closingPrice);
        profits := profits[symbol := entry.(lastPrice := closingPrice)];
      }
      assert profits == next;
    }
    assert rows[..|rows|] == rows;
    TableMatchesSpecification(rows, order, profits);
    if target.Some? && target.value != "" {
      var key := Lower(target.value);
      assert EntryAgrees(rows, profits, key);
      result := Single(if key in profits then profits[key].profit else 0);
    } else {
      result := PerSymbol(ProfitTable(order, profits));
    }
  }

  /** A table that agrees with the per-key closing prices of all the rows is
      the specified one. */
  lemma TableMatchesSpecification(rows: seq<CloseRow>, order: seq<string>, profits: map<string, Entry>)
    requires Agrees(rows, order, profits)
    ensures ProfitTable(order, profits) == ProfitTableOf(rows)
  {
    var t := ProfitTableOf(rows);
    FirstSeenMembers(rows);
    forall s ensures (s in profits <==> s in t.entries) && (s in profits ==> profits[s] == t.entries[s]) {
      assert EntryAgrees(rows, profits, s);
    }
    assert profits.Keys == t.entries.Keys;
  }

  lemma {:induction false} ClosesOfEmpty(rows: seq<CloseRow>, key: string)
    ensures ClosesOf(rows, key) == [] <==> forall i :: 0 <= i < |rows| ==> Key(rows[i]) != key
  {
    if rows != [] {
      ClosesOfEmpty(rows[..|rows| - 1], key);
      assert forall i :: 0 <= i < |rows| - 1 ==> rows[..|rows| - 1][i] == rows[i];
    }
  }

  /** Row `i` is the last row with key `key`. */
  predicate IsLastRowOf(rows: seq<CloseRow>, i: int, key: string) {
    0 <= i < |rows| && Key(rows[i]) == key && forall j :: i < j < |rows| ==> Key(rows[j]) != key
  }

  /** The last price kept for a key is the closing price of the last row with
      that key, whatever the sign of the last difference. */
  lemma {:induction false} LastPriceIsLastClose(rows: seq<CloseRow>, key: string)
    requires ClosesOf(rows, key) != []
    ensures exists i :: IsLastRowOf(rows, i, key) && Last(ClosesOf(rows, key)) == rows[i].closingPrice
  {
    var n := |rows|;
    if Key(rows[n - 1]) == key {
      assert IsLastRowOf(rows, n - 1, key);
    } else {
      var prefix := rows[..n - 1];
      assert ClosesOf(rows, key) == ClosesOf(prefix, key);
      LastPriceIsLastClose(prefix, key);
      var i :| IsLastRowOf(prefix, i, key) && Last(ClosesOf(prefix, key)) == prefix[i].closingPrice;
      assert rows[i] == prefix[i];
      assert forall j :: i < j < n ==> Key(rows[j]) != key by {
        forall j | i < j < n ensures Key(rows[j]) != key {
          if j < n - 1 {
            assert rows[j] == prefix[j];
          }
        }
      }
    }
  }

  /** Every key of the table is a lower-cased symbol. */
  lemma {:induction false} FirstSeenLowerCase(rows: seq<CloseRow>)
    ensures forall s :: s in FirstSeen(rows) ==> Lower(s) == s
  {
    if rows != [] {
      FirstSeenLowerCase(rows[..|rows| - 1]);
      LowerIdempotent(rows[|rows| - 1].symbol);
    }
  }

  /** What the accumulated table promises: its keys are distinct lower-cased
      symbols in order of first appearance, exactly the keys that have rows;
      each profit is non-negative and each last price is the close of the
      last row with that key. */
  lemma ProfitTableFacts(rows: seq<CloseRow>)
    ensures var t := ProfitTableOf(rows);
      && t.Valid()
      && (forall s :: s in t.entries <==> exists i :: 0 <= i < |rows| && Key(rows[i]) == s)
      && (forall s :: s in t.entries ==> Lower(s) == s && t.entries[s].profit >= 0)
      && (forall s :: s in t.entries ==>
            exists i :: IsLastRowOf(rows, i, s) && t.entries[s].lastPrice == rows[i].closingPrice)
  {
    var t := ProfitTableOf(rows);
    FirstSeenMembers(rows);
    FirstSeenLowerCase(rows);
    forall s ensures s in t.entries <==> exists i :: 0 <= i < |rows| && Key(rows[i]) == s {
      ClosesOfEmpty(rows, s);
    }
    forall s | s in t.entries
      ensures exists i :: IsLastRowOf(rows, i, s) && t.entries[s].lastPrice == rows[i].closingPrice
    {
      LastPriceIsLastClose(rows, s);
    }
  }

  /** A symbol without rows in the window has profit 0, not an absent one. */
  lemma SymbolProfitWithoutRows(rows: seq<CloseRow>, symbol: string)
    requires forall i :: 0 <= i < |rows| ==> Key(rows[i]) != Lower(symbol)
    ensures SymbolProfit(rows, symbol) == 0
  {
    ClosesOfEmpty(rows, Lower(symbol));
  }

  /** The keys of the table whose profit is strictly above `threshold`, in
      the table's insertion order. */
  function HigherProfitSymbols(t: ProfitTable, threshold: int): (r: seq<string>)
    requires t.Valid()
    ensures IsSubsequence(r, t.order)
    ensures forall s :: s in r <==> s in t.entries && t.entries[s].profit > threshold
  {
    Filter(t.order, s => s in t.entries && t.entries[s].profit > threshold)
  }

  /** Against the table of the same rows, the symbols that did better than a
      queried symbol are exactly the keys with rows and strictly greater
      gains, in order of first appearance, and the queried symbol is never
      one of them. */
  lemma Outperformers(rows: seq<CloseRow>, symbol: string)
    ensures ProfitTableOf(rows).Valid()
    ensures var h := HigherProfitSymbols(ProfitTableOf(rows), SymbolProfit(rows, symbol));
      && IsSubsequence(h, FirstSeen(rows))
      && (forall s :: s in h <==> ClosesOf(rows, s) != [] && Gains(ClosesOf(rows, s)) > SymbolProfit(rows, symbol))
      && Lower(symbol) !in h
  {
    FirstSeenMembers(rows);
  }

  // The gains of a price series are the best any sequence of round trips
  // earns: buying and selling any number of times, one position at a time.

  /** A round trip: buy at the price of index `buy`, sell at index `sell`. */
  datatype Trade = Trade(buy: nat, sell: nat)

  /** Round trips within `c`, each selling after it buys, and none starting
      before the previous one sold. */
  predicate IsTradePlan(c: seq<int>, ts: seq<Trade>) {
    && (forall k :: 0 <= k < |ts| ==> ts[k].buy < ts[k].sell < |c|)
    && (forall k, l :: 0 <= k < l < |ts| ==> ts[k].sell <= ts[l].buy)
  }

  function PlanProfit(c: seq<int>, ts: seq<Trade>): int
    requires forall k :: 0 <= k < |ts| ==> ts[k].buy < |c| && ts[k].sell < |c|
  {
    if ts == [] then 0
    else
      var t := ts[|ts| - 1];
      PlanProfit(c, ts[..|ts| - 1]) + c[t.sell] - c[t.buy]
  }

  /** One trade per rising day. */
  function RisingDays(c: seq<int>): (ts: seq<Trade>)
    ensures forall k :: 0 <= k < |ts| ==> ts[k].buy + 1 == ts[k].sell < |c|
    ensures forall k, l :: 0 <= k < l < |ts| ==> ts[k].sell <= ts[l].buy
  {
    if |c| < 2 then []
    else
      var n := |c|;
      RisingDays(c[..n - 1]) + (if c[n - 1] > c[n - 2] then [Trade(n - 2, n - 1)] else [])
  }

  /** From `i` to `j` the price moves by no more than the gains collected in
      between, and those gains are never negative. */
  lemma {:induction false} RiseWithinGains(c: seq<int>, i: nat, j: nat)
    requires i <= j < |c|
    ensures c[j] - c[i] <= Gains(c[..j + 1]) - Gains(c[..i + 1])
    ensures Gains(c[..i + 1]) <= Gains(c[..j + 1])
    decreases j - i
  {
    if i < j {
      RiseWithinGains(c, i, j - 1);
      assert c[..j + 1][..j] == c[..j];
    }
  }

  lemma {:induction false} PlanWithinGains(c: seq<int>, ts: seq<Trade>)
    requires IsTradePlan(c, ts) && ts != []
    ensures PlanProfit(c, ts) <= Gains(c[..ts[|ts| - 1].sell + 1])
  {
    var t := ts[|ts| - 1];
    var rest := ts[..|ts| - 1];
    assert IsTradePlan(c, rest);
    RiseWithinGains(c, t.buy, t.sell);
    if rest != [] {
      PlanWithinGains(c, rest);
      RiseWithinGains(c, rest[|rest| - 1].sell, t.buy);
    }
  }

  lemma {:induction false} PlanProfitOfPrefix(c: seq<int>, d: seq<int>, ts: seq<Trade>)
    requires |c| <= |d| && c == d[..|c|]
    requires forall k :: 0 <= k < |ts| ==> ts[k].buy < |c| && ts[k].sell < |c|
    ensures PlanProfit(c, ts) == PlanProfit(d, ts)
  {
    if ts != [] {
      PlanProfitOfPrefix(c, d, ts[..|ts| - 1]);
    }
  }

  lemma PlanProfitSnoc(c: seq<int>, ts: seq<Trade>, t: Trade)
    requires forall k :: 0 <= k < |ts| ==> ts[k].buy < |c| && ts[k].sell < |c|
    requires t.buy < |c| && t.sell < |c|
    ensures PlanProfit(c, ts + [t]) == PlanProfit(c, ts) + c[t.sell] - c[t.buy]
  {
    assert (ts + [t])[..|ts|] == ts;
  }

  lemma {:induction false} RisingDaysEarnGains(c: seq<int>)
    ensures PlanProfit(c, RisingDays(c)) == Gains(c)
  {
    if |c| >= 2 {
      var n := |c|;
      var prefix := c[..n - 1];
      var head := RisingDays(prefix);
      RisingDaysEarnGains(prefix);
      PlanProfitOfPrefix(prefix, c, head);
      if c[n - 1] > c[n - 2] {
        assert RisingDays(c) == head + [Trade(n - 2, n - 1)];
        PlanProfitSnoc(c, head, Trade(n - 2, n - 1));
      } else {
        assert RisingDays(c) == head + [];
        assert head + [] == head;
      }
    }
  }

  /** No plan of round trips within the series earns more than its gains. */
  lemma {:induction false} PlanBoundedByGains(c: seq<int>, ts: seq<Trade>)
    requires IsTradePlan(c, ts)
    ensures PlanProfit(c, ts) <= Gains(c)
  {
    if ts != [] {
      PlanWithinGains(c, ts);
      RiseWithinGains(c, ts[|ts| - 1].sell, |c| - 1);
      assert c[..|c|] == c;
    }
  }

  /** The accumulated profit is optimal: no plan of round trips within the
      series earns more than its gains, and buying before every rising day
      and selling after it earns exactly them. */
  lemma GainsIsOptimal(c: seq<int>)
    ensures forall ts :: IsTradePlan(c, ts) ==> PlanProfit(c, ts) <= Gains(c)
    ensures IsTradePlan(c, RisingDays(c)) && PlanProfit(c, RisingDays(c)) == Gains(c)
  {
    forall ts: seq<Trade> | IsTradePlan(c, ts) ensures PlanProfit(c, ts) <= Gains(c) {
      PlanBoundedByGains(c, ts);
    }
    RisingDaysEarnGains(c);
  }
}
