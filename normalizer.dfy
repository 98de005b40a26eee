/** `process_data_frame`: the scraped table is rewritten in place, its Date
    column through `translate_date` and its Closing Price column through a
    comma-to-period replacement followed by numeric conversion. */
module Normalizer {
  import opened Wrappers
  import opened DateTranslation
  import Scraper

  /** A table cell: text as scraped, or the outcome of numeric conversion
      (`None` is the missing value that `errors='coerce'` produces). */
  datatype Cell = Text(text: string) | Number(value: Option<real>)

  /** Positions of the Date and Closing Price columns in `Scraper.Columns`. */
  const DateColumn: nat := 0
  const ClosingColumn: nat := 4

  lemma ColumnPositions()
    ensures |Scraper.Columns| == 8
    ensures Scraper.Columns[DateColumn] == "Date"
    ensures Scraper.Columns[ClosingColumn] == "Closing Price"
  {
  }

  /** `str.replace(',', '.')`: the locale decimal comma becomes a period. */
  function CommaToDot(s: string): (r: string)
    ensures |r| == |s|
  {
    seq(|s|, i requires 0 <= i < |s| => if s[i] == ',' then '.' else s[i])
  }

  /** No comma survives, a string without commas is unchanged, and replacing
      twice is replacing once; "123,45" becomes "123.45". */
  lemma CommaToDotProperties(s: string)
    ensures ',' !in CommaToDot(s)
    ensures ',' !in s ==> CommaToDot(s) == s
    ensures CommaToDot(CommaToDot(s)) == CommaToDot(s)
    ensures CommaToDot("123,45") == "123.45"
  {
    var r := CommaToDot(s);
    assert forall i :: 0 <= i < |r| ==> r[i] != ',';
  }

  /** `Series.apply(translate_date)` with `translate_date` over the month
      table `table`: every date translated in order; the first failure aborts
      the whole column. */
  function TranslateColumn(table: map<string, string>, dates: seq<string>): (r: Result<seq<string>, DateError>)
    ensures r.Ok? ==> |r.value| == |dates|
  {
    if dates == [] then Ok([])
    else match TranslateWith(table, dates[0])
      case Err(e) => Err(e)
      case Ok(d) =>
        match TranslateColumn(table, dates[1..])
        case Err(e) => Err(e)
        case Ok(ds) => Ok([d] + ds)
  }

  /** The column succeeds exactly when every date does, and then holds each
      translation in place; otherwise its error is that of the first date
      that fails. */
  lemma {:induction false} TranslateColumnSpec(table: map<string, string>, dates: seq<string>)
    ensures TranslateColumn(table, dates).Ok? <==> forall i :: 0 <= i < |dates| ==> TranslateWith(table, dates[i]).Ok?
    ensures TranslateColumn(table, dates).Ok? ==>
      var ds := TranslateColumn(table, dates).value;
      |ds| == |dates| && forall i :: 0 <= i < |dates| ==> ds[i] == TranslateWith(table, dates[i]).value
    ensures TranslateColumn(table, dates).Err? ==>
      exists i :: 0 <= i < |dates| && TranslateWith(table, dates[i]) == Err(TranslateColumn(table, dates).error) &&
        forall j :: 0 <= j < i ==> TranslateWith(table, dates[j]).Ok?
    decreases |dates|
  {
    if dates != [] {
      TranslateColumnSpec(table, dates[1..]);
      assert forall i :: 1 <= i < |dates| ==> dates[i] == dates[1..][i - 1];
      if TranslateWith(table, dates[0]).Ok? && TranslateColumn(table, dates[1..]).Err? {
        var i :| 0 <= i < |dates[1..]| && TranslateWith(table, dates[1..][i]) == Err(TranslateColumn(table, dates[1..]).error) &&
          forall j :: 0 <= j < i ==> TranslateWith(table, dates[1..][j]).Ok?;
        assert TranslateWith(table, dates[i + 1]) == Err(TranslateColumn(table, dates).error);
      }
    }
  }

  /** The pandas DataFrame built from the scraped rows. */
  class Frame {
    var rows: seq<seq<Cell>>

    ghost predicate Valid()
      reads this
    {
      forall i :: 0 <= i < |rows| ==> |rows[i]| == |Scraper.Columns|
    }

    /** Every cell of column `c` is still text. */
    predicate ColumnIsText(c: nat)
      reads this
      requires Valid() && c < |Scraper.Columns|
    {
      forall i :: 0 <= i < |rows| ==> rows[i][c].Text?
    }

    function ColumnTexts(c: nat): (col: seq<string>)
      reads this
      requires Valid() && c < |Scraper.Columns| && ColumnIsText(c)
      ensures |col| == |rows| && forall i :: 0 <= i < |rows| ==> col[i] == rows[i][c].text
    {
      var rs := rows;
      seq(|rs|, i requires 0 <= i < |rs| => rs[i][c].text)
    }

    /** The frame built from the scraped rows under the eight column names:
        one row per scraped row, every cell still text. */
    constructor (data: seq<seq<string>>)
      requires forall i :: 0 <= i < |data| ==> |data[i]| == |Scraper.Columns|
      ensures Valid()
      ensures |rows| == |data|
      ensures forall i, j :: 0 <= i < |data| && 0 <= j < |Scraper.Columns| ==> rows[i][j] == Text(data[i][j])
    {
      rows := seq(|data|, i requires 0 <= i < |data| =>
        seq(|Scraper.Columns|, j requires 0 <= j < |Scraper.Columns| => Text(data[i][j])));
    }

    /** Translate the Date column with `translate_date` over `table` (the
        source's is `SourceMonthTable`; `MonthTable` corrects its October
        key), then convert the Closing Price column with
        `toNumeric` (the numeric parser, which never fails but may give the
        missing value). A date that cannot be translated raises before either
        column is assigned, so the frame is left as it was. */
    method ProcessDataFrame(table: map<string, string>, toNumeric: string -> Option<real>) returns (err: Option<DateError>)
      requires Valid() && ColumnIsText(DateColumn) && ColumnIsText(ClosingColumn)
      modifies this
      ensures Valid() && |rows| == old(|rows|)
      ensures var dates := TranslateColumn(table, old(ColumnTexts(DateColumn)));
        if dates.Err? then err == Some(dates.error) && rows == old(rows)
        else
          err == None &&
          forall i :: 0 <= i < |rows| ==>
            rows[i][DateColumn] == Text(dates.value[i]) &&
            rows[i][ClosingColumn] == Number(toNumeric(CommaToDot(old(rows)[i][ClosingColumn].text))) &&
            forall j :: 0 <= j < |Scraper.Columns| && j != DateColumn && j != ClosingColumn ==>
              rows[i][j] == old(rows)[i][j]
    {
      var dates := TranslateColumn(table, ColumnTexts(DateColumn));
      if dates.Err? {
        return Some(dates.error);
      }
      var rs := rows;
      var ds := dates.value;
      // the Date column takes the translated dates
      var dated: seq<seq<Cell>> := seq(|rs|, i requires 0 <= i < |rs| && |ds| == |rs| => rs[i][DateColumn := Text(ds[i])]);
      // the Closing Price column takes the parsed comma-to-period text
      var converted := seq(|dated|, i requires 0 <= i < |dated| && |dated[i]| == |Scraper.Columns| && dated[i][ClosingColumn].Text? =>
        dated[i][ClosingColumn := Number(toNumeric(CommaToDot(dated[i][ClosingColumn].text)))]);
      rows := converted;
      err := None;
    }
  }

  /** A date that fails after dates that succeed aborts the column with its
      own error, whatever follows it. */
  lemma {:induction false} FirstFailureAborts(table: map<string, string>, before: seq<string>, d: string, after: seq<string>)
    requires forall i :: 0 <= i < |before| ==> TranslateWith(table, before[i]).Ok?
    requires TranslateWith(table, d).Err?
    ensures TranslateColumn(table, before + [d] + after) == Err(TranslateWith(table, d).error)
    decreases |before|
  {
    var dates := before + [d] + after;
    if before == [] {
      assert dates[0] == d && dates[1..] == after;
    } else {
      FirstFailureAborts(table, before[1..], d, after);
      assert dates[0] == before[0] && dates[1..] == before[1..] + [d] + after;
    }
  }

  /** With the source's table a column holding an October date fails on the
      misread October key, while the intended table translates it. */
  lemma OctoberColumn(before: seq<string>, after: seq<string>)
    requires forall i :: 0 <= i < |before| ==> TranslateDateAsWritten(before[i]).Ok?
    ensures TranslateColumn(SourceMonthTable, before + ["5 pa\U{17A} 2023"] + after) ==
      Err(UnknownMonth("pa\U{17A}"))
    ensures TranslateColumn(MonthTable, ["5 pa\U{17A} 2023"]) == Ok(["2023-10-05"])
  {
    OctoberRejectedAsWritten();
    OctoberAccepted();
    FirstFailureAborts(SourceMonthTable, before, "5 pa\U{17A} 2023", after);
    SingleDate(MonthTable, "5 pa\U{17A} 2023");
  }

  lemma SingleDate(table: map<string, string>, d: string)
    requires TranslateWith(table, d).Ok?
    ensures TranslateColumn(table, [d]) == Ok([TranslateWith(table, d).value])
  {
    assert [d][0] == d && [d][1..] == [];
    assert TranslateColumn(table, []) == Ok([]);
    assert [TranslateWith(table, d).value] + [] == [TranslateWith(table, d).value];
  }
}
