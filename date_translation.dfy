/** `translate_date`: a Polish date such as "5 sty 2023" becomes "2023-01-05".
    The string is split on whitespace as Python's `str.split()` does, the month
    token is lower-cased and looked up in a twelve-entry table, and the day is
    zero-padded with `str.zfill(2)`. */
module DateTranslation {
  import opened Wrappers
  import opened Decimal

  /** Why a date string cannot be translated: unpacking `split()` into three
      names fails (ValueError), or the lower-cased month is not a table key
      (KeyError, which carries the lower-cased key). */
  datatype DateError = WrongTokenCount(count: nat) | UnknownMonth(key: string)

  /** The characters Python's `str.split()` treats as whitespace. */
  predicate IsSpace(c: char) {
    ('\t' <= c <= '\r') || ('\U{1C}' <= c <= '\U{1F}') || c == ' ' ||
    c == '\U{85}' || c == '\U{A0}' || c == '\U{1680}' || ('\U{2000}' <= c <= '\U{200A}') ||
    c == '\U{2028}' || c == '\U{2029}' || c == '\U{202F}' || c == '\U{205F}' || c == '\U{3000}'
  }

  /** A non-empty run of non-whitespace characters. */
  predicate IsToken(t: string) {
    t != [] && forall i :: 0 <= i < |t| ==> !IsSpace(t[i])
  }

  /** Printable ASCII other than the space is never whitespace. */
  lemma PrintableIsToken(t: string)
    requires t != [] && forall i :: 0 <= i < |t| ==> '!' <= t[i] <= '~'
    ensures IsToken(t)
  {
  }

  predicate AllSpace(w: string) {
    forall i :: 0 <= i < |w| ==> IsSpace(w[i])
  }

  /** The length of the leading run of non-whitespace characters. */
  function TokenLength(s: string): (n: nat)
    ensures n <= |s|
    ensures forall i :: 0 <= i < n ==> !IsSpace(s[i])
    ensures n < |s| ==> IsSpace(s[n])
  {
    if s == [] || IsSpace(s[0]) then 0 else 1 + TokenLength(s[1..])
  }

  /** `str.split()` with no separator: the maximal runs of non-whitespace. */
  function Split(s: string): (ts: seq<string>)
    ensures forall k :: 0 <= k < |ts| ==> IsToken(ts[k])
    decreases |s|
  {
    if s == [] then []
    else if IsSpace(s[0]) then Split(s[1..])
    else
      var n := TokenLength(s);
      [s[..n]] + Split(s[n..])
  }

  /** Leading whitespace is skipped. */
  lemma {:induction false} SplitSkipsSpace(w: string, s: string)
    requires AllSpace(w)
    ensures Split(w + s) == Split(s)
    decreases |w|
  {
    if w != [] {
      var ws := w + s;
      assert ws[0] == w[0] && ws[1..] == w[1..] + s;
      SplitSkipsSpace(w[1..], s);
    } else {
      assert w + s == s;
    }
  }

  /** The token before the first whitespace character is the first token. */
  lemma {:induction false} TokenLengthOfToken(t: string, s: string)
    requires IsToken(t)
    requires s == [] || IsSpace(s[0])
    ensures TokenLength(t + s) == |t|
    decreases |t|
  {
    var ts := t + s;
    assert ts[0] == t[0];
    if |t| > 1 {
      assert ts[1..] == t[1..] + s;
      TokenLengthOfToken(t[1..], s);
    } else {
      assert ts[1..] == s;
    }
  }

  /** A token followed by whitespace (or nothing) is split off as one token. */
  lemma SplitToken(t: string, s: string)
    requires IsToken(t)
    requires s == [] || IsSpace(s[0])
    ensures Split(t + s) == [t] + Split(s)
  {
    TokenLengthOfToken(t, s);
    var ts := t + s;
    assert ts[0] == t[0];
    assert ts[..|t|] == t;
    assert ts[|t|..] == s;
  }

  /** Whitespace, a token, then whitespace or nothing: the token comes first. */
  lemma SplitSpacedToken(w: string, t: string, s: string)
    requires AllSpace(w) && IsToken(t)
    requires s == [] || IsSpace(s[0])
    ensures Split(w + (t + s)) == [t] + Split(s)
  {
    SplitSkipsSpace(w, t + s);
    SplitToken(t, s);
  }

  /** Three tokens separated by whitespace runs split into exactly those three. */
  lemma SplitThree(w0: string, a: string, w1: string, b: string, w2: string, c: string, w3: string)
    requires AllSpace(w0) && AllSpace(w1) && AllSpace(w2) && AllSpace(w3)
    requires w1 != [] && w2 != []
    requires IsToken(a) && IsToken(b) && IsToken(c)
    ensures Split(w0 + (a + (w1 + (b + (w2 + (c + w3)))))) == [a, b, c]
  {
    SplitSkipsSpace(w3, []);
    assert w3 + [] == w3;
    var r2 := w2 + (c + w3);
    SplitSpacedToken(w2, c, w3);
    assert r2[0] == w2[0];
    var r1 := w1 + (b + r2);
    SplitSpacedToken(w1, b, r2);
    assert r1[0] == w1[0];
    SplitSpacedToken(w0, a, r1);
  }

  /** Whitespace runs `ws` with the tokens `ts` between them:
      `ws[0] + ts[0] + ws[1] + ... + ts[n - 1] + ws[n]`. */
  function Interleave(ws: seq<string>, ts: seq<string>): string
    requires |ws| == |ts| + 1
    decreases |ts|
  {
    if ts == [] then ws[0] else ws[0] + (ts[0] + Interleave(ws[1..], ts[1..]))
  }

  /** An interleaving that opens with a non-empty run opens with its first character. */
  lemma InterleaveHead(ws: seq<string>, ts: seq<string>)
    requires |ws| == |ts| + 1 && ws[0] != []
    ensures Interleave(ws, ts) != [] && Interleave(ws, ts)[0] == ws[0][0]
  {
  }

  /** Tokens separated by whitespace runs, with optional runs at both ends,
      split back into exactly those tokens, whatever their number. */
  lemma {:induction false} SplitJoin(ws: seq<string>, ts: seq<string>)
    requires |ws| == |ts| + 1
    requires forall i :: 0 <= i < |ws| ==> AllSpace(ws[i])
    requires forall i :: 0 < i < |ts| ==> ws[i] != []
    requires forall k :: 0 <= k < |ts| ==> IsToken(ts[k])
    ensures Split(Interleave(ws, ts)) == ts
    decreases |ts|
  {
    if ts == [] {
      SplitSkipsSpace(ws[0], []);
      assert ws[0] + [] == ws[0];
    } else {
      var rest := Interleave(ws[1..], ts[1..]);
      assert AllSpace(ws[1]);
      if ws[1] != [] {
        InterleaveHead(ws[1..], ts[1..]);
        assert rest[0] == ws[1][0];
      } else {
        assert |ts| == 1;
        assert rest == ws[1];
      }
      SplitSpacedToken(ws[0], ts[0], rest);
      assert forall i :: 0 <= i < |ws[1..]| ==> ws[1..][i] == ws[i + 1];
      assert forall k :: 0 <= k < |ts[1..]| ==> ts[1..][k] == ts[k + 1];
      SplitJoin(ws[1..], ts[1..]);
      assert [ts[0]] + ts[1..] == ts;
    }
  }

  /** Any date string that is not three tokens, however its whitespace is laid
      out, fails to unpack and reports how many tokens it had. */
  lemma WrongTokenCountAnyLayout(table: map<string, string>, ws: seq<string>, ts: seq<string>)
    requires |ws| == |ts| + 1
    requires forall i :: 0 <= i < |ws| ==> AllSpace(ws[i])
    requires forall i :: 0 < i < |ts| ==> ws[i] != []
    requires forall k :: 0 <= k < |ts| ==> IsToken(ts[k])
    requires |ts| != 3
    ensures TranslateWith(table, Interleave(ws, ts)) == Err(WrongTokenCount(|ts|))
  {
    SplitJoin(ws, ts);
  }

  /** "a b c" with single spaces splits into [a, b, c]. */
  lemma SplitSpaced(a: string, b: string, c: string)
    requires IsToken(a) && IsToken(b) && IsToken(c)
    ensures Split(a + " " + b + " " + c) == [a, b, c]
  {
    assert AllSpace(" ");
    SplitThree([], a, " ", b, " ", c, []);
    assert a + " " + b + " " + c == [] + (a + (" " + (b + (" " + (c + [])))));
  }

  /** `str.lower()` on one character: ASCII capitals and the capitals of the
      Polish alphabet; every other character is left as it is. */
  function LowerChar(c: char): char {
    if 'A' <= c <= 'Z' then ((c as int) + 32) as char
    // Ó -> ó
    else if c == '\U{D3}' then '\U{F3}'
    // Ą Ć Ę Ł Ń Ś Ź Ż -> ą ć ę ł ń ś ź ż, each the next code point
    else if c == '\U{104}' || c == '\U{106}' || c == '\U{118}' || c == '\U{141}' ||
            c == '\U{143}' || c == '\U{15A}' || c == '\U{179}' || c == '\U{17B}'
    then ((c as int) + 1) as char
    else c
  }

  function Lower(s: string): (r: string)
    ensures |r| == |s|
  {
    seq(|s|, i requires 0 <= i < |s| => LowerChar(s[i]))
  }

  /** Lower-casing twice is lower-casing once. */
  lemma LowerIdempotent(s: string)
    ensures Lower(Lower(s)) == Lower(s)
  {
  }

  /** Lower-casing never produces whitespace, so a token stays a token. */
  lemma LowerKeepsToken(t: string)
    requires IsToken(t)
    ensures IsToken(Lower(t))
  {
  }

  /** `str.zfill(width)`: pad with '0' on the left to `width` characters,
      keeping a leading sign in front of the padding. */
  function ZFill(s: string, width: nat): string {
    if |s| >= width then s
    else
      var zeros := seq(width - |s|, _ => '0');
      if |s| > 0 && (s[0] == '+' || s[0] == '-') then [s[0]] + zeros + s[1..] else zeros + s
  }

  /** Padding reaches the width, never shortens, and leaves a string that is
      already wide enough unchanged; an unsigned string ends the result. */
  lemma ZFillShape(s: string, width: nat)
    ensures |ZFill(s, width)| == if |s| >= width then |s| else width
    ensures |s| >= width ==> ZFill(s, width) == s
    ensures !(|s| > 0 && (s[0] == '+' || s[0] == '-')) ==>
      var r := ZFill(s, width);
      r[|r| - |s|..] == s && forall i :: 0 <= i < |r| - |s| ==> r[i] == '0'
  {
  }

  /** Padding a day numeral does not change the number it denotes. */
  lemma ZFillKeepsValue(day: string)
    requires AllDigits(day)
    ensures AllDigits(ZFill(day, 2)) && DigitsValue(ZFill(day, 2)) == DigitsValue(day)
  {
    if |day| == 1 {
      DigitsValueLeadingZero(day);
      assert ZFill(day, 2) == "0" + day;
    } else if |day| == 0 {
      DigitsValueLeadingZero("");
      DigitsValueLeadingZero("0");
      assert ZFill(day, 2) == "0" + ("0" + day);
    }
  }

  /** The Polish month abbreviations in calendar order. */
  const MonthAbbreviations: seq<string> :=
    ["sty", "lut", "mar", "kwi", "maj", "cze", "lip", "sie", "wrz", "pa\U{17A}", "lis", "gru"]

  /** The month table of the source file as it is written. Its October key is
      "pa≈∫": '≈' (U+2248) and '∫' (U+222B) are the two UTF-8 bytes of 'ź'
      (U+017A) read as Mac Roman, so the key has four characters, not "paź". */
  const SourceMonthTable: map<string, string> := map[
    "sty" := "01", "lut" := "02", "mar" := "03", "kwi" := "04",
    "maj" := "05", "cze" := "06", "lip" := "07", "sie" := "08",
    "wrz" := "09", MisreadOctober := "10", "lis" := "11", "gru" := "12"]

  /** The October key as it stands in the source: "pa≈∫". */
  const MisreadOctober: string := "pa\U{2248}\U{222B}"

  /** The month table as intended, keyed by the abbreviations the site uses. */
  const MonthTable: map<string, string> := map[
    "sty" := "01", "lut" := "02", "mar" := "03", "kwi" := "04",
    "maj" := "05", "cze" := "06", "lip" := "07", "sie" := "08",
    "wrz" := "09", "pa\U{17A}" := "10", "lis" := "11", "gru" := "12"]

  /** The i-th abbreviation (0-based) is a key whose code is a two-digit
      numeral of the month number i + 1. */
  predicate HasMonthCode(i: nat)
    requires i < 12
  {
    MonthAbbreviations[i] in MonthTable &&
    var code := MonthTable[MonthAbbreviations[i]];
    |code| == 2 && AllDigits(code) && DigitsValue(code) == i + 1
  }

  lemma MonthCodeFirstHalf(i: nat)
    requires i < 6
    ensures HasMonthCode(i)
  {
    if i == 0 { assert MonthAbbreviations[i] == "sty"; }
    else if i == 1 { assert MonthAbbreviations[i] == "lut"; }
    else if i == 2 { assert MonthAbbreviations[i] == "mar"; }
    else if i == 3 { assert MonthAbbreviations[i] == "kwi"; }
    else if i == 4 { assert MonthAbbreviations[i] == "maj"; }
    else { assert MonthAbbreviations[i] == "cze"; }
  }

  lemma MonthCodeSecondHalf(i: nat)
    requires 6 <= i < 12
    ensures HasMonthCode(i)
  {
    if i == 6 { assert MonthAbbreviations[i] == "lip"; }
    else if i == 7 { assert MonthAbbreviations[i] == "sie"; }
    else if i == 8 { assert MonthAbbreviations[i] == "wrz"; }
    else if i == 9 { assert MonthAbbreviations[i] == "pa\U{17A}"; }
    else if i == 10 { assert MonthAbbreviations[i] == "lis"; }
    else { assert MonthAbbreviations[i] == "gru"; }
  }

  /** The intended table maps the months of the year, in calendar order, to
      their two-digit numbers, has no other keys, and all its keys are lower
      case (so a lower-cased token can match each of them). */
  lemma MonthTableIsCalendar()
    ensures forall i :: 0 <= i < 12 ==> HasMonthCode(i)
    ensures forall k :: k in MonthTable ==> k in MonthAbbreviations && Lower(k) == k
  {
    forall i | 0 <= i < 12 ensures HasMonthCode(i) {
      if i < 6 { MonthCodeFirstHalf(i); } else { MonthCodeSecondHalf(i); }
    }
    forall k | k in MonthTable ensures k in MonthAbbreviations && Lower(k) == k {
      assert |k| == 3;
    }
  }

  /** The table as written differs from the intended one in the October key
      only: the other eleven abbreviations map to the same codes, "pa≈∫" takes
      the place of "paź" with the code "10", and there is no other key. */
  lemma SourceTableAsWritten()
    ensures forall i :: 0 <= i < 12 && i != 9 ==>
      MonthAbbreviations[i] in SourceMonthTable &&
      SourceMonthTable[MonthAbbreviations[i]] == MonthTable[MonthAbbreviations[i]]
    ensures MisreadOctober in SourceMonthTable
    ensures SourceMonthTable[MisreadOctober] == MonthTable[MonthAbbreviations[9]] == "10"
    ensures MonthAbbreviations[9] !in SourceMonthTable
    ensures forall k :: k in SourceMonthTable ==>
      k == MisreadOctober || (k in MonthAbbreviations && k != MonthAbbreviations[9])
  {
    forall i | 0 <= i < 12 && i != 9
      ensures MonthAbbreviations[i] in SourceMonthTable &&
        SourceMonthTable[MonthAbbreviations[i]] == MonthTable[MonthAbbreviations[i]]
    {
      if i < 6 { SourceFirstHalf(i); } else { SourceSecondHalf(i); }
    }
    forall k | k in SourceMonthTable
      ensures k == MisreadOctober || (k in MonthAbbreviations && k != MonthAbbreviations[9])
    {
      assert |k| == 3 || k == MisreadOctober;
    }
  }

  lemma SourceFirstHalf(i: nat)
    requires i < 6
    ensures MonthAbbreviations[i] in SourceMonthTable &&
      SourceMonthTable[MonthAbbreviations[i]] == MonthTable[MonthAbbreviations[i]]
  {
    if i == 0 { assert MonthAbbreviations[i] == "sty"; }
    else if i == 1 { assert MonthAbbreviations[i] == "lut"; }
    else if i == 2 { assert MonthAbbreviations[i] == "mar"; }
    else if i == 3 { assert MonthAbbreviations[i] == "kwi"; }
    else if i == 4 { assert MonthAbbreviations[i] == "maj"; }
    else { assert MonthAbbreviations[i] == "cze"; }
  }

  lemma SourceSecondHalf(i: nat)
    requires 6 <= i < 12 && i != 9
    ensures MonthAbbreviations[i] in SourceMonthTable &&
      SourceMonthTable[MonthAbbreviations[i]] == MonthTable[MonthAbbreviations[i]]
  {
    if i == 6 { assert MonthAbbreviations[i] == "lip"; }
    else if i == 7 { assert MonthAbbreviations[i] == "sie"; }
    else if i == 8 { assert MonthAbbreviations[i] == "wrz"; }
    else if i == 10 { assert MonthAbbreviations[i] == "lis"; }
    else { assert MonthAbbreviations[i] == "gru"; }
  }

  /** `translate_date` over a given month table: a string that does not split
      into three tokens is an unpacking error, a month missing from the table
      a lookup error. */
  function TranslateWith(table: map<string, string>, dateStr: string): Result<string, DateError> {
    var tokens := Split(dateStr);
    if |tokens| != 3 then Err(WrongTokenCount(|tokens|))
    else
      var key := Lower(tokens[1]);
      if key !in table then Err(UnknownMonth(key))
      else Ok(tokens[2] + "-" + table[key] + "-" + ZFill(tokens[0], 2))
  }

  /** The source's `translate_date`, with its table as written. */
  function TranslateDateAsWritten(dateStr: string): Result<string, DateError> {
    TranslateWith(SourceMonthTable, dateStr)
  }

  /** `translate_date` with the October key corrected. */
  function TranslateDate(dateStr: string): Result<string, DateError> {
    TranslateWith(MonthTable, dateStr)
  }

  /** A day, a month and a year token separated by whitespace translate to
      "year-MM-dd" when the lower-cased month is a key, with the year verbatim
      and the day padded; otherwise the month is reported unknown. */
  lemma TranslateWellFormed(table: map<string, string>,
      w0: string, day: string, w1: string, month: string, w2: string, year: string, w3: string)
    requires AllSpace(w0) && AllSpace(w1) && AllSpace(w2) && AllSpace(w3)
    requires w1 != [] && w2 != []
    requires IsToken(day) && IsToken(month) && IsToken(year)
    ensures TranslateWith(table, w0 + day + w1 + month + w2 + year + w3) ==
      if Lower(month) in table
      then Ok(year + "-" + table[Lower(month)] + "-" + ZFill(day, 2))
      else Err(UnknownMonth(Lower(month)))
  {
    SplitThree(w0, day, w1, month, w2, year, w3);
    assert w0 + day + w1 + month + w2 + year + w3 == w0 + (day + (w1 + (month + (w2 + (year + w3)))));
  }

  /** The single-space form "D tok Y". */
  lemma TranslateSpaced(table: map<string, string>, day: string, month: string, year: string)
    requires IsToken(day) && IsToken(month) && IsToken(year)
    ensures TranslateWith(table, day + " " + month + " " + year) ==
      if Lower(month) in table
      then Ok(year + "-" + table[Lower(month)] + "-" + ZFill(day, 2))
      else Err(UnknownMonth(Lower(month)))
  {
    SplitSpaced(day, month, year);
  }

  /** Every month of the intended table, written in lower or any other case. */
  lemma TranslateEveryMonth(day: string, i: nat, month: string, year: string)
    requires IsToken(day) && IsToken(year) && i < 12
    requires IsToken(month) && Lower(month) == MonthAbbreviations[i]
    ensures TranslateDate(day + " " + month + " " + year) ==
      Ok(year + "-" + MonthTable[MonthAbbreviations[i]] + "-" + ZFill(day, 2))
    ensures DigitsValue(MonthTable[MonthAbbreviations[i]]) == i + 1
  {
    if i < 6 { MonthCodeFirstHalf(i); } else { MonthCodeSecondHalf(i); }
    TranslateSpaced(MonthTable, day, month, year);
  }

  /** Only the lower-cased month token matters: two spellings that lower-case
      alike give the same result, error or not. */
  lemma TranslateIgnoresMonthCase(table: map<string, string>, day: string, m1: string, m2: string, year: string)
    requires IsToken(day) && IsToken(m1) && IsToken(m2) && IsToken(year)
    requires Lower(m1) == Lower(m2)
    ensures TranslateWith(table, day + " " + m1 + " " + year) ==
            TranslateWith(table, day + " " + m2 + " " + year)
  {
    TranslateSpaced(table, day, m1, year);
    TranslateSpaced(table, day, m2, year);
  }

  /** Writing the month already lower-cased changes nothing. */
  lemma TranslateLowerCasedMonth(table: map<string, string>, day: string, month: string, year: string)
    requires IsToken(day) && IsToken(month) && IsToken(year)
    ensures TranslateWith(table, day + " " + Lower(month) + " " + year) ==
            TranslateWith(table, day + " " + month + " " + year)
  {
    LowerKeepsToken(month);
    LowerIdempotent(month);
    TranslateIgnoresMonthCase(table, day, Lower(month), month, year);
  }

  /** Two tokens, with any whitespace around and between them, are too few
      to unpack. */
  lemma TooFewTokens(table: map<string, string>, w0: string, a: string, w1: string, b: string, w2: string)
    requires AllSpace(w0) && AllSpace(w1) && AllSpace(w2) && w1 != []
    requires IsToken(a) && IsToken(b)
    ensures TranslateWith(table, w0 + (a + (w1 + (b + w2)))) == Err(WrongTokenCount(2))
  {
    var ws, ts := [w0, w1, w2], [a, b];
    assert ws[1..] == [w1, w2] && ts[1..] == [b];
    assert [w1, w2][1..] == [w2] && [b][1..] == [];
    assert Interleave([w1, w2], [b]) == w1 + (b + w2);
    assert Interleave(ws, ts) == w0 + (a + (w1 + (b + w2)));
    WrongTokenCountAnyLayout(table, ws, ts);
  }

  /** Four tokens, with any whitespace around and between them, are too many
      to unpack. */
  lemma TooManyTokens(table: map<string, string>, w0: string, a: string, w1: string, b: string,
                      w2: string, c: string, w3: string, d: string, w4: string)
    requires AllSpace(w0) && AllSpace(w1) && AllSpace(w2) && AllSpace(w3) && AllSpace(w4)
    requires w1 != [] && w2 != [] && w3 != []
    requires IsToken(a) && IsToken(b) && IsToken(c) && IsToken(d)
    ensures TranslateWith(table, w0 + (a + (w1 + (b + (w2 + (c + (w3 + (d + w4)))))))) == Err(WrongTokenCount(4))
  {
    var ws, ts := [w0, w1, w2, w3, w4], [a, b, c, d];
    var ws1, ts1 := [w1, w2, w3, w4], [b, c, d];
    var ws2, ts2 := [w2, w3, w4], [c, d];
    var ws3, ts3 := [w3, w4], [d];
    assert ws[1..] == ws1 && ts[1..] == ts1;
    assert ws1[1..] == ws2 && ts1[1..] == ts2;
    assert ws2[1..] == ws3 && ts2[1..] == ts3;
    assert ws3[1..] == [w4] && ts3[1..] == [];
    assert Interleave(ws3, ts3) == w3 + (d + w4);
    assert Interleave(ws2, ts2) == w2 + (c + (w3 + (d + w4)));
    assert Interleave(ws, ts) == w0 + (a + (w1 + (b + (w2 + (c + (w3 + (d + w4)))))));
    WrongTokenCountAnyLayout(table, ws, ts);
  }

  /** A blank date string has no tokens at all. */
  lemma BlankDate(table: map<string, string>, w: string)
    requires AllSpace(w)
    ensures TranslateWith(table, w) == Err(WrongTokenCount(0))
  {
    SplitSkipsSpace(w, []);
    assert w + [] == w;
  }

  /** Day padding over any table that has the January entry, with each date
      string written as its three tokens. */
  lemma JanuaryPadding(table: map<string, string>)
    requires "sty" in table && table["sty"] == "01"
    ensures TranslateWith(table, "3" + " " + "sty" + " " + "2024") == Ok("2024" + "-" + "01" + "-" + "03")
    ensures TranslateWith(table, "15" + " " + "sty" + " " + "2024") == Ok("2024" + "-" + "01" + "-" + "15")
  {
    PrintableIsToken("3");
    PrintableIsToken("15");
    PrintableIsToken("sty");
    PrintableIsToken("2024");
    assert Lower("sty") == "sty";
    TranslateSpaced(table, "3", "sty", "2024");
    TranslateSpaced(table, "15", "sty", "2024");
    assert ZFill("3", 2) == "03" && ZFill("15", 2) == "15";
  }

  /** Month case and unknown months over any table that has the January
      entry and no "xyz" key. */
  lemma JanuaryMonthToken(table: map<string, string>)
    requires "sty" in table && table["sty"] == "01" && "xyz" !in table
    ensures TranslateWith(table, "5" + " " + "STY" + " " + "2023") == Ok("2023" + "-" + "01" + "-" + "05")
    ensures TranslateWith(table, "5" + " " + "xyz" + " " + "2023") == Err(UnknownMonth("xyz"))
  {
    PrintableIsToken("5");
    PrintableIsToken("STY");
    PrintableIsToken("xyz");
    PrintableIsToken("2023");
    assert Lower("STY") == "sty" && Lower("xyz") == "xyz";
    TranslateSpaced(table, "5", "STY", "2023");
    TranslateSpaced(table, "5", "xyz", "2023");
    assert ZFill("5", 2) == "05";
  }

  /** A single-digit day is padded. */
  lemma PadsSingleDigitDay()
    ensures TranslateDate("3 sty 2024") == Ok("2024-01-03")
  {
    JanuaryPadding(MonthTable);
    assert "3 sty 2024" == "3" + " " + "sty" + " " + "2024";
    assert "2024" + "-" + "01" + "-" + "03" == "2024-01-03";
  }

  /** A two-digit day is kept as it is. */
  lemma KeepsTwoDigitDay()
    ensures TranslateDate("15 sty 2024") == Ok("2024-01-15")
  {
    JanuaryPadding(MonthTable);
    assert "15 sty 2024" == "15" + " " + "sty" + " " + "2024";
    assert "2024" + "-" + "01" + "-" + "15" == "2024-01-15";
  }

  /** An upper-case month is accepted. */
  lemma AcceptsUpperCaseMonth()
    ensures TranslateDate("5 STY 2023") == Ok("2023-01-05")
  {
    JanuaryMonthToken(MonthTable);
    assert "5 STY 2023" == "5" + " " + "STY" + " " + "2023";
    assert "2023" + "-" + "01" + "-" + "05" == "2023-01-05";
  }

  /** A token that is not a month is an error, not a default. */
  lemma RejectsUnknownMonth()
    ensures TranslateDate("5 xyz 2023") == Err(UnknownMonth("xyz"))
  {
    JanuaryMonthToken(MonthTable);
    assert "5 xyz 2023" == "5" + " " + "xyz" + " " + "2023";
  }

  /** October over any table: a table without the key "paź" rejects an
      October date, one that has it translates it. */
  lemma OctoberCases(table: map<string, string>)
    ensures var oct := "pa\U{17A}";
      TranslateWith(table, "5" + " " + oct + " " + "2023") ==
        if oct in table then Ok("2023" + "-" + table[oct] + "-" + "05") else Err(UnknownMonth(oct))
  {
    var oct := "pa\U{17A}";
    PrintableIsToken("5");
    PrintableIsToken("2023");
    assert IsToken(oct) && Lower(oct) == oct;
    TranslateSpaced(table, "5", oct, "2023");
    assert ZFill("5", 2) == "05";
  }

  /** With the table as written, an October date is an unknown month. */
  lemma OctoberRejectedAsWritten()
    ensures TranslateDateAsWritten("5 pa\U{17A} 2023") == Err(UnknownMonth("pa\U{17A}"))
  {
    OctoberCases(SourceMonthTable);
    assert "pa\U{17A}" !in SourceMonthTable;
    assert "5 pa\U{17A} 2023" == "5" + " " + "pa\U{17A}" + " " + "2023";
  }

  /** With the intended table the same October date translates. */
  lemma OctoberAccepted()
    ensures TranslateDate("5 pa\U{17A} 2023") == Ok("2023-10-05")
  {
    OctoberCases(MonthTable);
    assert MonthTable["pa\U{17A}"] == "10";
    assert "5 pa\U{17A} 2023" == "5" + " " + "pa\U{17A}" + " " + "2023";
    assert "2023" + "-" + "10" + "-" + "05" == "2023-10-05";
  }
}
