/** Worked examples of the analysis, prices in cents. */
module Scenarios {
  import opened Common
  import opened Calendar
  import opened Extremes
  import opened Profit
  import opened Text
  import opened Windows
  import opened Analysis

  /** Three days of one stock: lows 10, 8, 9; highs 12, 9, 14; closes 11,
      8.50, 13. The best buy is the second day, the best sell the third, and
      both the single trade and the multi-trade profit are 4.50: the fall
      from 11 to 8.50 earns nothing. */
  lemma ThreeDayWindow(d1: Day, d2: Day, d3: Day)
    ensures var rows := [
        DayExtremes(d1, 1000, 1200, 1100, 1100),
        DayExtremes(d2, 800, 900, 850, 850),
        DayExtremes(d3, 900, 1400, 1300, 1300)];
      BestPricesOf(rows) == Some(BestPrices(PricePoint(d2, 850), PricePoint(d3, 1300), Some(450)))
    ensures var closes := [
        CloseRow(d1, 1100, "ABC"), CloseRow(d2, 850, "ABC"), CloseRow(d3, 1300, "ABC")];
      SymbolProfit(closes, "abc") == 450
  {
    var rows := [
      DayExtremes(d1, 1000, 1200, 1100, 1100),
      DayExtremes(d2, 800, 900, 850, 850),
      DayExtremes(d3, 900, 1400, 1300, 1300)];
    FirstMinLowIsUnique(rows, 1);
    FirstMaxHighIsUnique(rows, 2);
    var closes := [CloseRow(d1, 1100, "ABC"), CloseRow(d2, 850, "ABC"), CloseRow(d3, 1300, "ABC")];
    var key := "abc";
    assert Lower("ABC") == key by {
      assert forall i :: 0 <= i < 3 ==> Lower("ABC")[i] == key[i];
    }
    assert closes[..2][..1] == [closes[0]];
    assert [closes[0]][..0] == [];
    assert ClosesOf([closes[0]], key) == [1100];
    assert ClosesOf(closes[..2], key) == [1100, 850];
    assert ClosesOf(closes, key) == [1100, 850, 1300];
    assert [1100, 850, 1300][..2] == [1100, 850];
    assert [1100, 850][..1] == [1100];
  }

  /** A month that does not exist is a malformed date. */
  lemma MonthThirteenIsMalformed()
    ensures ParseDay("2020-13-01") == None
  {
    assert "2020-13-01"[5..7] == "13";
  }

  /** 2020-01-01 is day 737425. */
  lemma NewYear2020()
    ensures ParseDay("2020-01-01") == Some(737425)
  {
    var d := CivilDate(2020, 1, 1);
    ParseFormat(d);
    assert FormatDate(d) == "2020-01-01";
    assert DaysBeforeYear(2020) == 737424;
  }

  /** 2020-01-03 is day 737427. */
  lemma ThirdOfJanuary2020()
    ensures ParseDay("2020-01-03") == Some(737427)
  {
    var d := CivilDate(2020, 1, 3);
    ParseFormat(d);
    assert FormatDate(d) == "2020-01-03";
    assert DaysBeforeYear(2020) == 737424;
  }

  /** A request that passes every check: an existing stock, 2020-01-01 to
      2020-01-03. The requested window is days 737425 to 737427 (two days
      apart), so the previous window is the two days before it and the next
      window the two days after it. */
  lemma ValidRequest()
    ensures Validate([StockRecord(1, "ABC")], "abc", "2020-01-01", "2020-01-03") ==
      Ok(Periods(DateWindow(737425, 737427), DateWindow(737423, 737424), DateWindow(737428, 737429)))
  {
    NewYear2020();
    ThirdOfJanuary2020();
    assert Lower("ABC") == Lower("abc") by {
      assert forall i :: 0 <= i < 3 ==> Lower("ABC")[i] == Lower("abc")[i];
    }
    assert FindStockId([StockRecord(1, "ABC")], "abc") == Some(1);
  }
}
