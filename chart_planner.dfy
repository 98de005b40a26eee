/** The chart arithmetic of `save_to_excel`: for each trailing window the row
    range of the data sheet it plots, its title and the cell it is anchored
    at on the chart sheet, and the loop that adds the charts one by one. */
module ChartPlanner {
  import opened Decimal
  import Scraper

  /** The window sizes, in the order the charts are added. */
  const Windows: seq<nat> := [30, 180, 360]

  /** Vertical distance, in rows, between consecutive chart anchors. */
  const AnchorSpacing: nat := 15

  /** 1-based sheet columns: Closing Price (values) and Date (categories). */
  const ValuesColumn: nat := 5
  const CategoriesColumn: nat := 1

  /** One chart: the window, the inclusive row range of the data sheet read
      for values and categories, the title and the anchor cell. */
  datatype ChartSpec = ChartSpec(
    days: nat, startRow: int, endRow: int,
    valuesColumn: nat, categoriesColumn: nat,
    title: string, anchor: string)

  /** `df.to_excel` with a header: the header is row 1, data rows follow, so
      the sheet's `max_row` is one more than the number of data rows. */
  function MaxRow(dataRows: nat): nat {
    dataRows + 1
  }

  /** The first row of a window: `days` rows back from the last row, but never the
      header row. */
  function StartRow(maxRow: int, days: int): (r: int)
    ensures r >= 2 && r >= maxRow - days + 1
    ensures r == 2 || r == maxRow - days + 1
  {
    if maxRow - days + 1 > 2 then maxRow - days + 1 else 2
  }

  function Title(days: nat): string {
    "Closing Prices Last " + DecimalString(days) + " Days"
  }

  /** The anchor row of the i-th chart (1-based). */
  function AnchorRow(i: nat): nat
    requires i >= 1
  {
    AnchorSpacing * (i - 1) + 1
  }

  function Anchor(i: nat): (a: string)
    requires i >= 1
    ensures |a| >= 2 && a[0] == 'A'
  {
    "A" + DecimalString(AnchorRow(i))
  }

  function Chart(maxRow: int, i: nat, days: nat): ChartSpec
    requires i >= 1
  {
    ChartSpec(days, StartRow(maxRow, days), maxRow, ValuesColumn, CategoriesColumn, Title(days), Anchor(i))
  }

  /** The charts for `windows`, numbered from 1 in window order. */
  function Plan(maxRow: int, windows: seq<nat>): (charts: seq<ChartSpec>)
    ensures |charts| == |windows|
  {
    seq(|windows|, k requires 0 <= k < |windows| => Chart(maxRow, k + 1, windows[k]))
  }

  /** For a dataset of at least one row and a window of at least one day the
      range never includes the header row, is non-empty, ends at the last
      data row and covers exactly min(days, dataRows) rows. */
  lemma WindowRange(dataRows: nat, days: nat)
    requires dataRows >= 1 && days >= 1
    ensures var s, e := StartRow(MaxRow(dataRows), days), MaxRow(dataRows);
      2 <= s <= e && e == dataRows + 1 &&
      e - s + 1 == (if days < dataRows then days else dataRows)
  {
  }

  /** With no data rows the range starts below its end: row 2 to row 1. */
  lemma EmptyDatasetRange(days: nat)
    ensures StartRow(MaxRow(0), days) == 2 && MaxRow(0) == 1
  {
  }

  /** Distinct windows get distinct titles, and the title names the window. */
  lemma TitleInjective(d1: nat, d2: nat)
    requires Title(d1) == Title(d2)
    ensures d1 == d2
  {
    var p := "Closing Prices Last ";
    var t1, t2 := Title(d1), Title(d2);
    assert t1[|p|..|t1| - 5] == DecimalString(d1);
    assert t2[|p|..|t2| - 5] == DecimalString(d2);
    DecimalStringInjective(d1, d2);
  }

  /** The anchor is column A of the anchor row, and it reads back as that row. */
  lemma AnchorReadsBack(i: nat)
    requires i >= 1
    ensures Anchor(i)[0] == 'A'
    ensures Anchor(i)[1..] == DecimalString(AnchorRow(i))
    ensures AllDigits(Anchor(i)[1..]) && DigitsValue(Anchor(i)[1..]) == AnchorRow(i)
  {
    assert Anchor(i)[1..] == DecimalString(AnchorRow(i));
    DigitsValueOfDecimal(AnchorRow(i));
  }

  lemma ColumnsNamed()
    ensures Scraper.Columns[ValuesColumn - 1] == "Closing Price" && Scraper.Columns[CategoriesColumn - 1] == "Date"
  {
  }

  /** Charts are listed in window order, each reads the Closing Price values
      and Date categories over the range its window and the sheet determine, and later charts sit exactly 15 rows further down
      per position, so no two charts share an anchor. */
  lemma PlanShape(maxRow: int, windows: seq<nat>)
    ensures forall k :: 0 <= k < |windows| ==>
      var c := Plan(maxRow, windows)[k];
      c.days == windows[k] && c.endRow == maxRow && c.startRow == StartRow(maxRow, windows[k]) &&
      c.startRow >= 2 && c.title == Title(windows[k]) && c.anchor == Anchor(k + 1) &&
      Scraper.Columns[c.valuesColumn - 1] == "Closing Price" && Scraper.Columns[c.categoriesColumn - 1] == "Date"
    ensures forall i: nat :: i >= 1 ==> AnchorRow(i + 1) == AnchorRow(i) + AnchorSpacing
    ensures forall k, l :: 0 <= k < l < |windows| ==>
      Plan(maxRow, windows)[k].anchor != Plan(maxRow, windows)[l].anchor
  {
    forall k | 0 <= k < |windows|
      ensures var c := Plan(maxRow, windows)[k];
        c.days == windows[k] && c.endRow == maxRow && c.startRow == StartRow(maxRow, windows[k]) &&
        c.startRow >= 2 && c.title == Title(windows[k]) && c.anchor == Anchor(k + 1) &&
        Scraper.Columns[c.valuesColumn - 1] == "Closing Price" && Scraper.Columns[c.categoriesColumn - 1] == "Date"
    {
      assert Plan(maxRow, windows)[k] == Chart(maxRow, k + 1, windows[k]);
      ColumnsNamed();
    }
    forall k, l | 0 <= k < l < |windows|
      ensures Plan(maxRow, windows)[k].anchor != Plan(maxRow, windows)[l].anchor
    {
      AnchorReadsBack(k + 1);
      AnchorReadsBack(l + 1);
      assert Plan(maxRow, windows)[k].anchor == Anchor(k + 1);
      assert Plan(maxRow, windows)[l].anchor == Anchor(l + 1);
      assert AnchorRow(k + 1) < AnchorRow(l + 1);
    }
  }

  /** The three default charts are anchored at A1, A16 and A31. */
  lemma DefaultAnchors(maxRow: int)
    ensures |Plan(maxRow, Windows)| == 3
    ensures Plan(maxRow, Windows)[0].anchor == "A1"
    ensures Plan(maxRow, Windows)[1].anchor == "A16"
    ensures Plan(maxRow, Windows)[2].anchor == "A31"
  {
    assert DecimalString(16) == "16";
    assert DecimalString(31) == "31";
  }

  /** The three default titles. */
  lemma DefaultTitles(maxRow: int)
    ensures Plan(maxRow, Windows)[0].title == "Closing Prices Last 30 Days"
    ensures Plan(maxRow, Windows)[1].title == "Closing Prices Last 180 Days"
    ensures Plan(maxRow, Windows)[2].title == "Closing Prices Last 360 Days"
  {
    assert DecimalString(30) == "30";
    assert DecimalString(180) == "180";
    assert DecimalString(360) == "360";
  }

  /** Five data rows: every default chart is clamped to rows 2..6. */
  lemma ShortDatasetPlan()
    ensures forall k :: 0 <= k < 3 ==>
      Plan(MaxRow(5), Windows)[k].startRow == 2 && Plan(MaxRow(5), Windows)[k].endRow == 6
  {
  }

  /** The chart sheet; only the charts added to it are modelled. */
  class ChartSheet {
    var charts: seq<ChartSpec>

    constructor ()
      ensures charts == []
    {
      charts := [];
    }

    /** Place one more chart on the sheet, after those already there. */
    method AddChart(c: ChartSpec)
      modifies this
      ensures charts == old(charts) + [c]
    {
      charts := charts + [c];
    }
  }

  /** Add one chart per window, numbered from 1 in window order, for a data
      sheet whose last row is `maxRow`. */
  method AddWindowCharts(ws: ChartSheet, maxRow: int)
    modifies ws
    ensures ws.charts == old(ws.charts) + Plan(maxRow, Windows)
  {
    ghost var before := ws.charts;
    for i := 1 to |Windows| + 1
      invariant ws.charts == before + Plan(maxRow, Windows[..i - 1])
    {
      var days := Windows[i - 1];
      var startRow := StartRow(maxRow, days);
      var endRow := maxRow;
      var chart := ChartSpec(days, startRow, endRow, ValuesColumn, CategoriesColumn,
        Title(days), "A" + DecimalString(AnchorSpacing * (i - 1) + 1));
      ws.AddChart(chart);
      assert Windows[..i][..i - 1] == Windows[..i - 1];
    }
    assert Windows[..|Windows|] == Windows;
  }

  /** The workbook's file name: a fixed prefix, the ticker, and a fixed
      suffix naming the 360-day window. */
  function ExcelFileName(ticker: string): (f: string)
    ensures |f| == |ticker| + 33 && f[..19] == "scraped_stock_data_" && f[|f| - 14..] == "_360_days.xlsx"
    ensures f[19..|f| - 14] == ticker
  {
    "scraped_stock_data_" + ticker + "_360_days.xlsx"
  }

  /** Different tickers are saved under different file names. */
  lemma ExcelFileNameInjective(t1: string, t2: string)
    requires ExcelFileName(t1) == ExcelFileName(t2)
    ensures t1 == t2
  {
  }
}
