# Stock price scraper: a Dafny model of its core

`stock_webscraper.py` downloads the daily price table of one ticker from
stooq.pl page by page, rewrites the Polish dates and the decimal commas of the
closing prices, and saves the table to an Excel workbook with three line charts
of the last 30, 180 and 360 rows. This project models the parts of that script
that are logic rather than library plumbing, and proves what they do:

- `Scraper` (`scrape_stock_data`): the page URLs, the filter that keeps only
  nine-cell table rows and drops their index cell, and the `while True` loop that
  stops on the first empty page or once 360 rows have been collected. The check
  comes before the page's rows are appended. The browser is replaced by a
  function `fetch` from a page URL to the rows of the table on that page. The
  loop is a method with a `data` sequence and a `pageNumber` counter.
- `DateTranslation` (`translate_date`): Python's `str.split()`, `str.lower()`
  and `str.zfill(2)`, the twelve-entry month table, and the translation itself.
  A failure is a `Result` error: `WrongTokenCount` is the ValueError of
  unpacking, `UnknownMonth` is the KeyError of the lookup.
- `Normalizer` (`process_data_frame`): the DataFrame is a class `Frame` whose
  rows the method overwrites. The month table `translate_date` uses is a
  parameter: with `SourceMonthTable` it is the code as written, on which any
  October date aborts the whole column, and with `MonthTable` it is the
  corrected code. The Date column is translated; the first bad date
  raises before any column is assigned. The Closing Price column gets its
  commas replaced by periods and is then converted by a numeric parser.
- `ChartPlanner` (the loop in `save_to_excel`): for each window the row range
  read from the data sheet, the title, and the anchor cell on the chart sheet.
  A class `ChartSheet` collects the charts that the `enumerate` loop adds.
- `Decimal`: `str(n)` for natural numbers and the digit reading that inverts it.
  It is used for the `&l=` page parameter, the chart titles and the anchors.
- `Wrappers`: `Option` and `Result`.

Behaviour of the code worth knowing:

- The dataset is not capped at 360 rows. The count is checked before a page
  is appended, so 200-row pages give 400 rows (`Scraper.EndlessPagesOverTheCap`).
- Chart ranges are sheet rows: `max(2, max_row - days + 1)` to `max_row`, with
  the header on row 1. They are not 1-based dataset indices.
- Day and year tokens are not required to be digits. Any whitespace-free
  token passes through: the year verbatim, the day through `zfill(2)`.
- The charts appear to lose their first price. `add_data(..., titles_from_data=True)`
  takes the first referenced cell as the series title, and that cell is the
  price on `start_row`, not the header. So each chart would plot min(d, L) - 1
  prices against min(d, L) dates, for window d and L data rows
  (stock_webscraper.py:97-101). This is not modelled, so it has no proof here.
  It has not been executed either.

## Model

| member | source | states |
|---|---|---|
| `Decimal.DecimalString` | stock_webscraper.py:31 | the numeral of a page number is non-empty, all digits, and has no leading zero |
| `Decimal.DigitsValueOfDecimal` | stock_webscraper.py:31 | reading the numeral back gives the number (round trip) |
| `Decimal.DecimalStringInjective` | stock_webscraper.py:31 | distinct numbers have distinct numerals |
| `Scraper.PageUrl` | stock_webscraper.py:31 | the URL of page N: the base URL, followed by `&l=N` after page 1 (its shape is stated by `PageUrlShape`) |
| `Scraper.PageUrlShape` | stock_webscraper.py:27-31 | page 1 is exactly `https://stooq.pl/q/d/?s={ticker}&i=d`; page N > 1 is that base, then `&l=`, then exactly the decimal numeral of N (no leading zero), which reads back as N |
| `Scraper.PageUrlInjective` | stock_webscraper.py:27-31 | two pages of one ticker never share a URL |
| `Scraper.Keep` | stock_webscraper.py:43-44 | one table row contributes at most one row, of 8 cells |
| `Scraper.AcceptRows` | stock_webscraper.py:41-45 | a page contributes at most one row per table row, and every contributed row has 8 cells |
| `Scraper.AcceptedIndicesExact` | stock_webscraper.py:41-43 | the complete-row positions lie within the page, strictly increase, and are exactly the positions of nine-cell rows |
| `Scraper.AcceptedRowsAt` | stock_webscraper.py:41-45 | the k-th accepted row is the k-th complete row without its index cell |
| `Scraper.AcceptRowsIndexed` | stock_webscraper.py:41-45 | the k-th accepted row is cells 1..8 of the k-th nine-cell row; a row is accepted exactly when it has 9 cells; accepted rows keep page order |
| `Scraper.AcceptRowsAppend` | stock_webscraper.py:41-45 | filtering two row lists one after the other equals filtering their concatenation |
| `Scraper.AcceptRowsAllComplete` | stock_webscraper.py:43-44 | a page of only nine-cell rows contributes every row, index cell removed, in order |
| `Scraper.Collected` | stock_webscraper.py:39-46 | the rows gathered once pages 1..k have been appended, in page order (stated by `CollectedPrefix` and `CollectedRowsComplete`) |
| `Scraper.CollectedRowsComplete` | stock_webscraper.py:41-49 | every collected row has one cell per column name, as `pd.DataFrame(data, columns=columns)` needs |
| `Scraper.StopsAt` | stock_webscraper.py:39-40 | the loop breaks on a page that is empty or that is reached with at least 360 rows |
| `Scraper.IsExitPage` | stock_webscraper.py:30-40 | the first page the loop breaks on |
| `Scraper.PageUrlsNext` | stock_webscraper.py:30-32 | requesting one more page appends that page's URL to the requests |
| `Scraper.ContinuePast` | stock_webscraper.py:39-46 | a page the loop does not break on lies before any page it breaks on, and extends the run of pages without a break |
| `Scraper.ExitPageUnique` | stock_webscraper.py:30-40 | the loop has at most one exit page, so the number of fetches is determined by the pages |
| `Scraper.AppendCompleteRows` | stock_webscraper.py:41-45 | the inner loop appends exactly the filtered rows of the page after the existing data |
| `Scraper.ScrapeStockData` | stock_webscraper.py:27-46 | pages 1, 2, … are requested in order, one per iteration; the loop ends at the first page that is empty or is reached with at least 360 rows; the result is the filtered rows of all earlier pages, in order |
| `Scraper.OvershootBound` | stock_webscraper.py:39-45 | the result has fewer than 360 + (largest page) rows, and the last page fetched was empty or 360 rows had been reached |
| `Scraper.CollectedPrefix` | stock_webscraper.py:41-46 | later pages only append: the rows of earlier pages stay a prefix |
| `Scraper.TwoPagesThenEmpty` | stock_webscraper.py:30-46 | two pages of ten complete rows followed by an empty page: the only exit page is page 3 (three fetches), and twenty rows are returned |
| `Scraper.EndlessPagesOverTheCap` | stock_webscraper.py:30-46 | endless pages of 200 complete rows: the only exit page is page 3 (three fetches), and 400 rows are returned |
| `Scraper.NeverStopsOnIncompleteRows` | stock_webscraper.py:30-46 | pages that never run out and hold only 8-cell rows collect nothing, so no page meets the break condition and the loop never ends |
| `DateTranslation.Split` | stock_webscraper.py:124 | `split()` yields only non-empty tokens without whitespace |
| `DateTranslation.TokenLength` | stock_webscraper.py:124 | the first token ends at the first whitespace character or at the end |
| `DateTranslation.SplitThree` | stock_webscraper.py:124 | three tokens separated by whitespace runs, with optional leading and trailing whitespace, split into exactly those three |
| `DateTranslation.Lower` | stock_webscraper.py:125 | lower-casing keeps the length |
| `DateTranslation.LowerIdempotent` | stock_webscraper.py:125 | lower-casing twice is lower-casing once |
| `DateTranslation.LowerKeepsToken` | stock_webscraper.py:125 | lower-casing a token never introduces whitespace |
| `DateTranslation.TranslateLowerCasedMonth` | stock_webscraper.py:125 | writing the month already lower-cased gives the same result, success or error |
| `DateTranslation.ZFill` | stock_webscraper.py:126 | `str.zfill`: zeros on the left, after a leading sign (its results are stated by `ZFillShape` and `ZFillKeepsValue`) |
| `DateTranslation.ZFillShape` | stock_webscraper.py:126 | `zfill` pads to the width, keeps an already wide string unchanged, and keeps an unsigned string as the suffix after zeros |
| `DateTranslation.ZFillKeepsValue` | stock_webscraper.py:126 | padding a digit string does not change the number it denotes |
| `DateTranslation.MonthTableIsCalendar` | stock_webscraper.py:119-123 | the intended table maps the i-th Polish month abbreviation to a two-digit code of the month number i+1, has no other keys, and its keys are lower case |
| `DateTranslation.SourceTableAsWritten` | stock_webscraper.py:119-123 | the table as written agrees with the intended one on the other eleven abbreviations, has "pa≈∫" with code "10" in place of "paź", and has no other key |
| `DateTranslation.TranslateWith` | stock_webscraper.py:124-126 | `translate_date` over a given table: split, unpack three tokens, look up the lower-cased month, pad the day (its results are stated by `TranslateWellFormed` and the lemmas after it) |
| `DateTranslation.TranslateDateAsWritten` | stock_webscraper.py:109-126 | `translate_date` with the table as written (its results are stated by the lemmas below, over any table) |
| `DateTranslation.TranslateDate` | stock_webscraper.py:109-126 | `translate_date` with the corrected October key (its results are stated by the lemmas below, over any table) |
| `DateTranslation.TranslateWellFormed` | stock_webscraper.py:124-126 | "D M Y" with any whitespace gives `Y-code-zfill(D)` when lower(M) is a key, else the unknown-month error with the lower-cased key |
| `DateTranslation.TranslateSpaced` | stock_webscraper.py:124-126 | the same for single spaces |
| `DateTranslation.TranslateEveryMonth` | stock_webscraper.py:119-126 | for each of the 12 months, in any letter case, "D tok Y" gives `Y-MM-zfill(D)` with MM the month's number |
| `DateTranslation.TranslateIgnoresMonthCase` | stock_webscraper.py:125 | two month spellings that lower-case alike give the same result, success or error |
| `DateTranslation.InterleaveHead` | stock_webscraper.py:124 | such a string starting with a non-empty run starts with that run's first character |
| `DateTranslation.SplitJoin` | stock_webscraper.py:124 | any number of tokens, with whitespace runs between them and optional runs at both ends, split back into exactly those tokens |
| `DateTranslation.WrongTokenCountAnyLayout` | stock_webscraper.py:124 | any number of tokens other than three, in any whitespace layout, fails to unpack, and the error gives that number |
| `DateTranslation.TooFewTokens` | stock_webscraper.py:124 | two tokens, with any whitespace around and between them, fail to unpack |
| `DateTranslation.TooManyTokens` | stock_webscraper.py:124 | four tokens, with any whitespace around and between them, fail to unpack |
| `DateTranslation.BlankDate` | stock_webscraper.py:124 | a blank string has zero tokens and fails to unpack |
| `DateTranslation.PadsSingleDigitDay` | stock_webscraper.py:126 | "3 sty 2024" gives "2024-01-03" |
| `DateTranslation.KeepsTwoDigitDay` | stock_webscraper.py:126 | "15 sty 2024" gives "2024-01-15" |
| `DateTranslation.AcceptsUpperCaseMonth` | stock_webscraper.py:125 | "5 STY 2023" gives "2023-01-05" |
| `DateTranslation.RejectsUnknownMonth` | stock_webscraper.py:125 | "5 xyz 2023" is the unknown-month error, not a default |
| `DateTranslation.OctoberRejectedAsWritten` | stock_webscraper.py:122 | with the table as written, "5 paź 2023" is an unknown month |
| `DateTranslation.OctoberAccepted` | stock_webscraper.py:119-126 | with the intended table, "5 paź 2023" gives "2023-10-05" |
| `Normalizer.CommaToDot` | stock_webscraper.py:74 | the replacement keeps the length |
| `Normalizer.ColumnPositions` | stock_webscraper.py:48 | the Date and Closing Price columns are positions 0 and 4 of the eight columns |
| `Normalizer.CommaToDotProperties` | stock_webscraper.py:74 | no comma survives the replacement; a string without commas is unchanged; replacing twice is replacing once; "123,45" becomes "123.45" |
| `Normalizer.TranslateColumn` | stock_webscraper.py:73 | a translated column has one entry per date |
| `Normalizer.TranslateColumnSpec` | stock_webscraper.py:73 | for any month table, the column succeeds exactly when every date does, holding each translation in place; otherwise it fails with the error of the first bad date |
| `Normalizer.FirstFailureAborts` | stock_webscraper.py:73 | a failing date after succeeding ones aborts the column with its own error, whatever follows |
| `Normalizer.SingleDate` | stock_webscraper.py:73 | a one-date column holds that date's translation |
| `Normalizer.OctoberColumn` | stock_webscraper.py:73 | with the table as written a column holding "5 paź 2023" after good dates fails with the unknown key "paź"; with the intended table it translates to "2023-10-05" |
| `Normalizer.Frame.constructor` | stock_webscraper.py:48-49 | one all-text row per scraped row |
| `Normalizer.Frame.ProcessDataFrame` | stock_webscraper.py:66-74 | for the given month table: on a bad date the frame is unchanged and the error is returned; otherwise Date holds the translations, Closing Price holds the parsed comma-to-period text, and every other cell is unchanged |
| `ChartPlanner.Plan` | stock_webscraper.py:94 | one chart per window |
| `ChartPlanner.StartRow` | stock_webscraper.py:95 | the first row is never the header row and is the larger of 2 and `max_row - days + 1` |
| `ChartPlanner.Title` | stock_webscraper.py:103 | the title of a window (its fields are stated by `TitleInjective` and `DefaultTitles`) |
| `ChartPlanner.Anchor` | stock_webscraper.py:104 | an anchor is a cell of column A |
| `ChartPlanner.Chart` | stock_webscraper.py:95-104 | the chart of the i-th window (its fields are stated by `PlanShape`) |
| `ChartPlanner.WindowRange` | stock_webscraper.py:95-96 | with at least one data row and a window of at least one day, the range skips header row 1, is non-empty, ends at the last row and covers exactly min(days, rows) rows |
| `ChartPlanner.EmptyDatasetRange` | stock_webscraper.py:95-96 | with no data rows the range is row 2 to row 1 |
| `ChartPlanner.TitleInjective` | stock_webscraper.py:103 | the title determines the window |
| `ChartPlanner.AnchorReadsBack` | stock_webscraper.py:104 | the anchor is `A` followed by exactly `str(15*(i-1)+1)`, and those digits read back as that row |
| `ChartPlanner.ColumnsNamed` | stock_webscraper.py:97-98 | sheet columns 5 and 1 are Closing Price and Date |
| `ChartPlanner.PlanShape` | stock_webscraper.py:94-104 | charts follow window order, each with its window's range and title, reading Closing Price values and Date categories; anchors are 15 rows apart and pairwise distinct |
| `ChartPlanner.DefaultAnchors` | stock_webscraper.py:94-104 | the 30, 180 and 360 charts are anchored at A1, A16 and A31 |
| `ChartPlanner.DefaultTitles` | stock_webscraper.py:94-103 | the titles are "Closing Prices Last 30 Days", "… 180 Days" and "… 360 Days" |
| `ChartPlanner.ShortDatasetPlan` | stock_webscraper.py:94-96 | with five data rows all three charts are clamped to sheet rows 2..6 |
| `ChartPlanner.ChartSheet.constructor` | stock_webscraper.py:92 | a new chart sheet has no charts |
| `ChartPlanner.ChartSheet.AddChart` | stock_webscraper.py:104 | adding a chart appends it and changes nothing else |
| `ChartPlanner.AddWindowCharts` | stock_webscraper.py:94-104 | the loop appends the planned charts, in window order, to the charts already on the sheet |
| `ChartPlanner.ExcelFileName` | stock_webscraper.py:87 | the file name is `scraped_stock_data_`, then exactly the ticker, then `_360_days.xlsx` |
| `ChartPlanner.ExcelFileNameInjective` | stock_webscraper.py:87 | different tickers are saved under different file names |

## Findings

| source | as written | input that shows it | evidently intended | confidence | as-written member | corrected member |
|---|---|---|---|---|---|---|
| stock_webscraper.py:122 | the October key is `'pa≈∫'`: four characters, the UTF-8 bytes of `ź` read as Mac Roman | `translate_date("5 paź 2023")` raises KeyError | key `'paź'`, which translates the date to "2023-10-05" | high; not executed | `DateTranslation.OctoberRejectedAsWritten` (over `DateTranslation.TranslateDateAsWritten`) | `DateTranslation.OctoberAccepted` (over `DateTranslation.TranslateDate`; `Normalizer.OctoberColumn` shows the same for a whole column) |

## Left out

- Selenium is not modelled: `init_driver`, `driver.get`, `find_elements`, `driver.quit`, the five-second sleep, and the consent click with its swallowed `TimeoutException` (stock_webscraper.py:12-14, 32-38, 51-64). These are browser I/O. `fetch` stands in for loading a URL and reading its table rows. A URL is assumed to give the same rows each time it is loaded, and each page is loaded once.
- Scraper.ScrapeStockData: its ghost `bound` parameter asks for some page on which the loop breaks. When no page is empty and fewer than 360 complete rows ever accumulate, the source loops forever (`Scraper.NeverStopsOnIncompleteRows` shows such pages). The method does not model that run.
- `pd.to_numeric(..., errors='coerce')` is floating point and a library call (stock_webscraper.py:74). `ProcessDataFrame` takes it as a parameter `toNumeric` returning `Option<real>`, with `None` as the missing value.
- Normalizer.Frame.ProcessDataFrame: requires the Date and Closing Price cells to be text. On a frame that is already processed, `.str` on a numeric column raises; that case is not modelled.
- pandas dtypes and the index, `df.to_excel`, openpyxl loading and saving, and the `Reference`/`LineChart` objects are left out: file I/O and a foreign library (stock_webscraper.py:88-92, 97-102, 106). Only the row range, the columns, the title and the anchor of each chart are kept. How `add_data(..., titles_from_data=True)` reads the first referenced row is not modelled. That reading appears to drop each chart's first price, as described above.
- `str.lower()` maps ASCII capitals and the Polish capitals (Ą Ć Ę Ł Ń Ó Ś Ź Ż) only. Python's other Unicode case mappings are not modelled.
- argparse, the `__main__` block and its `print` are left out (stock_webscraper.py:128-139).
