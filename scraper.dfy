/** The page-by-page scraping loop of `scrape_stock_data`: page URLs, the row
    filter and the termination policy. The browser is replaced by `fetch`, which
    maps a page URL to the rows of the price table on that page, each row given
    as the texts of its cells. */
module Scraper {
  import opened Decimal

  /** The accumulated row count at which the loop stops fetching. */
  const Cap: nat := 360

  /** A complete table row: the index cell and eight data cells. */
  const CellsPerRow: nat := 9

  /** Column names given to the scraped rows, in cell order. */
  const Columns: seq<string> :=
    ["Date", "Opening", "High", "Low", "Closing Price", "Change %", "Change Nominal", "Volume"]

  type Cells = seq<string>
  type Page = seq<Cells>

  function BaseUrl(ticker: string): string {
    "https://stooq.pl/q/d/?s=" + ticker + "&i=d"
  }

  /** The URL requested for page `page` (1-based) of `ticker`. */
  function PageUrl(ticker: string, page: nat): string
    requires page >= 1
  {
    if page > 1 then BaseUrl(ticker) + "&l=" + DecimalString(page) else BaseUrl(ticker)
  }

  /** Page 1 is the bare base URL; every later page is the base URL followed by
      `&l=` and the decimal numeral of the page number (no leading zero), which
      reads back as that page number. */
  lemma PageUrlShape(ticker: string, page: nat)
    requires page >= 1
    ensures page == 1 ==> PageUrl(ticker, page) == BaseUrl(ticker)
    ensures page > 1 ==>
      var u, b := PageUrl(ticker, page), BaseUrl(ticker);
      |u| > |b| + 3 && u[..|b|] == b && u[|b|..|b| + 3] == "&l=" &&
      u[|b| + 3..] == DecimalString(page) && u[|b| + 3] != '0' &&
      AllDigits(u[|b| + 3..]) && DigitsValue(u[|b| + 3..]) == page
  {
    if page > 1 {
      var b := BaseUrl(ticker);
      var u := PageUrl(ticker, page);
      assert u[|b| + 3..] == DecimalString(page);
      DigitsValueOfDecimal(page);
    }
  }

  /** No two pages of the same ticker share a URL. */
  lemma PageUrlInjective(ticker: string, m: nat, n: nat)
    requires m >= 1 && n >= 1
    requires PageUrl(ticker, m) == PageUrl(ticker, n)
    ensures m == n
  {
    var b := BaseUrl(ticker);
    if m > 1 && n > 1 {
      assert PageUrl(ticker, m)[|b| + 3..] == DecimalString(m);
      assert PageUrl(ticker, n)[|b| + 3..] == DecimalString(n);
      DecimalStringInjective(m, n);
    }
  }

  /** What one table row contributes: its eight data cells if it has exactly
      nine cells, nothing otherwise. */
  function Keep(cells: Cells): (r: seq<Cells>)
    ensures |r| <= 1
    ensures forall k :: 0 <= k < |r| ==> |r[k]| == CellsPerRow - 1
  {
    if |cells| == CellsPerRow then [cells[1..]] else []
  }

  /** The rows a page contributes, in page order. */
  function AcceptRows(rows: Page): (r: seq<Cells>)
    ensures |r| <= |rows|
    ensures forall k :: 0 <= k < |r| ==> |r[k]| == CellsPerRow - 1
  {
    if rows == [] then [] else AcceptRows(rows[..|rows| - 1]) + Keep(rows[|rows| - 1])
  }

  /** The positions of the complete rows of a page, in increasing order. */
  function AcceptedIndices(rows: Page): seq<nat>
  {
    if rows == [] then []
    else
      var last := |rows| - 1;
      AcceptedIndices(rows[..last]) + (if |rows[last]| == CellsPerRow then [last] else [])
  }

  /** The complete-row positions lie within the page, strictly increase, and
      are exactly the positions of the nine-cell rows. */
  lemma {:induction false} AcceptedIndicesExact(rows: Page)
    ensures var idx := AcceptedIndices(rows);
      (forall k :: 0 <= k < |idx| ==> idx[k] < |rows|) &&
      (forall k, l :: 0 <= k < l < |idx| ==> idx[k] < idx[l]) &&
      (forall i :: 0 <= i < |rows| ==> (i in idx <==> |rows[i]| == CellsPerRow))
    decreases |rows|
  {
    if rows != [] {
      var last := |rows| - 1;
      var init := rows[..last];
      AcceptedIndicesExact(init);
      var idx, idx' := AcceptedIndices(rows), AcceptedIndices(init);
      forall i | 0 <= i < |rows|
        ensures i in idx <==> |rows[i]| == CellsPerRow
      {
        if i < last {
          assert init[i] == rows[i];
          assert i in idx <==> i in idx';
        } else {
          assert i !in idx';
        }
      }
    }
  }

  /** The k-th accepted row is the k-th complete row without its index cell. */
  lemma {:induction false} AcceptedRowsAt(rows: Page)
    ensures var idx := AcceptedIndices(rows);
      |idx| == |AcceptRows(rows)| &&
      forall k :: 0 <= k < |idx| ==>
        idx[k] < |rows| && |rows[idx[k]]| == CellsPerRow && AcceptRows(rows)[k] == rows[idx[k]][1..]
    decreases |rows|
  {
    if rows != [] {
      var last := |rows| - 1;
      var init := rows[..last];
      AcceptedRowsAt(init);
      var idx, idx' := AcceptedIndices(rows), AcceptedIndices(init);
      var acc, acc' := AcceptRows(rows), AcceptRows(init);
      forall k | 0 <= k < |idx|
        ensures idx[k] < |rows| && |rows[idx[k]]| == CellsPerRow && acc[k] == rows[idx[k]][1..]
      {
        if k < |idx'| {
          assert idx[k] == idx'[k] && acc[k] == acc'[k];
          assert init[idx'[k]] == rows[idx'[k]];
        }
      }
    }
  }

  /** The filter keeps exactly the complete rows, strips their index cell, and
      keeps their relative order: the k-th accepted row comes from the k-th
      complete row, and complete rows are listed in strictly increasing position. */
  lemma AcceptRowsIndexed(rows: Page)
    ensures var idx := AcceptedIndices(rows);
      |idx| == |AcceptRows(rows)| &&
      (forall k :: 0 <= k < |idx| ==> idx[k] < |rows|) &&
      (forall k, l :: 0 <= k < l < |idx| ==> idx[k] < idx[l]) &&
      (forall i :: 0 <= i < |rows| ==> (i in idx <==> |rows[i]| == CellsPerRow)) &&
      (forall k :: 0 <= k < |idx| ==> AcceptRows(rows)[k] == rows[idx[k]][1..])
  {
    AcceptedRowsAt(rows);
    AcceptedIndicesExact(rows);
  }

  /** Filtering a concatenation is concatenating the filtered parts. */
  lemma {:induction false} AcceptRowsAppend(a: Page, b: Page)
    ensures AcceptRows(a + b) == AcceptRows(a) + AcceptRows(b)
    decreases |b|
  {
    if b == [] {
      assert a + b == a;
    } else {
      var b' := b[..|b| - 1];
      assert (a + b)[..|a + b| - 1] == a + b';
      AcceptRowsAppend(a, b');
    }
  }

  /** A page whose rows are all complete contributes one row per table row. */
  lemma {:induction false} AcceptRowsAllComplete(rows: Page)
    requires forall i :: 0 <= i < |rows| ==> |rows[i]| == CellsPerRow
    ensures |AcceptRows(rows)| == |rows|
    ensures forall i :: 0 <= i < |rows| ==> AcceptRows(rows)[i] == rows[i][1..]
    decreases |rows|
  {
    if rows != [] {
      AcceptRowsAllComplete(rows[..|rows| - 1]);
    }
  }

  /** The rows accumulated after pages 1..k have all been appended. */
  function Collected(fetch: string -> Page, ticker: string, k: nat): seq<Cells>
  {
    if k == 0 then [] else Collected(fetch, ticker, k - 1) + AcceptRows(fetch(PageUrl(ticker, k)))
  }

  /** Every collected row has one cell per column name, as the DataFrame
      built from them needs. */
  lemma {:induction false} CollectedRowsComplete(fetch: string -> Page, ticker: string, k: nat)
    ensures forall i :: 0 <= i < |Collected(fetch, ticker, k)| ==> |Collected(fetch, ticker, k)[i]| == |Columns|
  {
    if k > 0 {
      CollectedRowsComplete(fetch, ticker, k - 1);
    }
  }

  /** The loop breaks on page `page`: that page has no rows, or the rows
      accumulated before it already number at least `Cap`. */
  predicate StopsAt(fetch: string -> Page, ticker: string, page: nat)
    requires page >= 1
  {
    fetch(PageUrl(ticker, page)) == [] || |Collected(fetch, ticker, page - 1)| >= Cap
  }

  /** `page` is the first page on which the loop breaks. */
  predicate IsExitPage(fetch: string -> Page, ticker: string, page: nat)
  {
    page >= 1 && StopsAt(fetch, ticker, page) &&
    forall p :: 1 <= p < page ==> !StopsAt(fetch, ticker, p)
  }

  /** The loop breaks on one page only: the first page it breaks on is unique. */
  lemma ExitPageUnique(fetch: string -> Page, ticker: string, m: nat, n: nat)
    requires IsExitPage(fetch, ticker, m) && IsExitPage(fetch, ticker, n)
    ensures m == n
  {
  }

  /** The inner `for row in rows` loop: append the data cells of every
      complete row of one page to `data`, in page order. */
  method AppendCompleteRows(data: seq<Cells>, rows: Page) returns (r: seq<Cells>)
    ensures r == data + AcceptRows(rows)
  {
    r := data;
    var j := 0;
    while j < |rows|
      invariant 0 <= j <= |rows|
      invariant r == data + AcceptRows(rows[..j])
    {
      var cells := rows[j];
      if |cells| == CellsPerRow {
        r := r + [cells[1..]];
      }
      assert rows[..j + 1][..j] == rows[..j];
      j := j + 1;
    }
    assert rows[..j] == rows;
  }

  /** The URLs of pages 1..n, in request order. */
  function PageUrls(ticker: string, n: nat): (urls: seq<string>)
    ensures |urls| == n
  {
    seq(n, i requires 0 <= i => PageUrl(ticker, i + 1))
  }

  /** Requesting one more page appends its URL. */
  lemma PageUrlsNext(ticker: string, n: nat)
    ensures PageUrls(ticker, n + 1) == PageUrls(ticker, n) + [PageUrl(ticker, n + 1)]
  {
    var a, b := PageUrls(ticker, n + 1), PageUrls(ticker, n) + [PageUrl(ticker, n + 1)];
    assert forall i :: 0 <= i < n + 1 ==> a[i] == b[i];
  }

  /** A page the loop does not break on lies before `bound`, and extends the
      run of pages without a break by one. */
  lemma ContinuePast(fetch: string -> Page, ticker: string, n: nat, bound: nat)
    requires 1 <= n <= bound && StopsAt(fetch, ticker, bound)
    requires forall p :: 1 <= p < n ==> !StopsAt(fetch, ticker, p)
    requires fetch(PageUrl(ticker, n)) != [] && |Collected(fetch, ticker, n - 1)| < Cap
    ensures n < bound
    ensures forall p :: 1 <= p < n + 1 ==> !StopsAt(fetch, ticker, p)
  {
    assert !StopsAt(fetch, ticker, n);
    forall p | 1 <= p < n + 1
      ensures !StopsAt(fetch, ticker, p)
    {
      if p < n {
      } else {
        assert p == n;
      }
    }
  }

  /** The scraping loop. `bound` is any page on which the loop would break; it
      exists exactly when the loop terminates. The method returns the rows
      collected and the URLs requested, in request order. */
  method ScrapeStockData(fetch: string -> Page, ticker: string, ghost bound: nat)
    returns (data: seq<Cells>, requested: seq<string>)
    requires bound >= 1 && StopsAt(fetch, ticker, bound)
    ensures IsExitPage(fetch, ticker, |requested|)
    ensures requested == PageUrls(ticker, |requested|)
    ensures data == Collected(fetch, ticker, |requested| - 1)
  {
    data := [];
    requested := [];
    var pageNumber := 1;
    while true
      invariant 1 <= pageNumber <= bound
      invariant requested == PageUrls(ticker, pageNumber - 1)
      invariant forall p :: 1 <= p < pageNumber ==> !StopsAt(fetch, ticker, p)
      invariant data == Collected(fetch, ticker, pageNumber - 1)
      decreases bound - pageNumber
    {
      var currentUrl := PageUrl(ticker, pageNumber);
      requested := requested + [currentUrl];
      PageUrlsNext(ticker, pageNumber - 1);
      var rows := fetch(currentUrl);
      if rows == [] || |data| >= Cap {
        assert StopsAt(fetch, ticker, pageNumber);
        break;
      }
      ContinuePast(fetch, ticker, pageNumber, bound);
      data := AppendCompleteRows(data, rows);
      pageNumber := pageNumber + 1;
    }
  }

  /** Each page's rows are appended only when fewer than `Cap` rows were
      collected before it, so the result exceeds `Cap` by less than the largest
      page; and either the last page fetched was empty or `Cap` was reached. */
  lemma OvershootBound(fetch: string -> Page, ticker: string, exit: nat, maxRows: nat)
    requires IsExitPage(fetch, ticker, exit)
    requires forall p :: 1 <= p < exit ==> |fetch(PageUrl(ticker, p))| <= maxRows
    ensures |Collected(fetch, ticker, exit - 1)| < Cap + maxRows
    ensures fetch(PageUrl(ticker, exit)) == [] || |Collected(fetch, ticker, exit - 1)| >= Cap
  {
    if exit > 1 {
      assert !StopsAt(fetch, ticker, exit - 1);
    }
  }

  /** Earlier pages' rows stay in front: collecting more pages only appends. */
  lemma {:induction false} CollectedPrefix(fetch: string -> Page, ticker: string, j: nat, k: nat)
    requires j <= k
    ensures Collected(fetch, ticker, j) <= Collected(fetch, ticker, k)
    decreases k - j
  {
    if j < k {
      CollectedPrefix(fetch, ticker, j, k - 1);
    }
  }

  /** Two pages of ten complete rows followed by an empty page: three fetches,
      twenty rows. */
  lemma TwoPagesThenEmpty(fetch: string -> Page, ticker: string)
    requires forall p :: 1 <= p <= 2 ==>
      |fetch(PageUrl(ticker, p))| == 10 &&
      forall i :: 0 <= i < 10 ==> |fetch(PageUrl(ticker, p))[i]| == CellsPerRow
    requires fetch(PageUrl(ticker, 3)) == []
    ensures IsExitPage(fetch, ticker, 3)
    ensures forall n :: IsExitPage(fetch, ticker, n) ==> n == 3
    ensures |Collected(fetch, ticker, 2)| == 20
  {
    AcceptRowsAllComplete(fetch(PageUrl(ticker, 1)));
    AcceptRowsAllComplete(fetch(PageUrl(ticker, 2)));
    assert |Collected(fetch, ticker, 1)| == 10;
    assert |Collected(fetch, ticker, 2)| == 20;
    assert !StopsAt(fetch, ticker, 1) && !StopsAt(fetch, ticker, 2);
    forall n | IsExitPage(fetch, ticker, n) ensures n == 3 {
      ExitPageUnique(fetch, ticker, n, 3);
    }
  }

  /** Pages of 200 complete rows without end: the count is checked before each
      append, so the loop makes three fetches and returns 400 rows, 40 over `Cap`. */
  lemma EndlessPagesOverTheCap(fetch: string -> Page, ticker: string)
    requires forall p :: p >= 1 ==>
      |fetch(PageUrl(ticker, p))| == 200 &&
      forall i :: 0 <= i < 200 ==> |fetch(PageUrl(ticker, p))[i]| == CellsPerRow
    ensures IsExitPage(fetch, ticker, 3)
    ensures forall n :: IsExitPage(fetch, ticker, n) ==> n == 3
    ensures |Collected(fetch, ticker, 2)| == 400
  {
    AcceptRowsAllComplete(fetch(PageUrl(ticker, 1)));
    AcceptRowsAllComplete(fetch(PageUrl(ticker, 2)));
    assert |Collected(fetch, ticker, 1)| == 200;
    assert |Collected(fetch, ticker, 2)| == 400;
    assert !StopsAt(fetch, ticker, 1) && !StopsAt(fetch, ticker, 2);
    forall n | IsExitPage(fetch, ticker, n) ensures n == 3 {
      ExitPageUnique(fetch, ticker, n, 3);
    }
  }

  /** Pages that never run out and hold only incomplete rows: nothing is ever
      collected, so no page satisfies the break condition and the source's
      `while True` never ends. */
  lemma NeverStopsOnIncompleteRows(fetch: string -> Page, ticker: string)
    requires forall p :: p >= 1 ==>
      |fetch(PageUrl(ticker, p))| == 1 && |fetch(PageUrl(ticker, p))[0]| == CellsPerRow - 1
    ensures forall p :: p >= 1 ==> !StopsAt(fetch, ticker, p)
  {
    forall p | p >= 1 ensures !StopsAt(fetch, ticker, p) {
      NothingCollected(fetch, ticker, p - 1);
    }
  }

  lemma {:induction false} NothingCollected(fetch: string -> Page, ticker: string, k: nat)
    requires forall p :: p >= 1 ==>
      |fetch(PageUrl(ticker, p))| == 1 && |fetch(PageUrl(ticker, p))[0]| == CellsPerRow - 1
    ensures Collected(fetch, ticker, k) == []
  {
    if k > 0 {
      NothingCollected(fetch, ticker, k - 1);
      var rows := fetch(PageUrl(ticker, k));
      assert rows[..0] == [];
      assert AcceptRows(rows) == AcceptRows(rows[..0]) + Keep(rows[0]);
    }
  }
}
