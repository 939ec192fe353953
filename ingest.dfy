/** `normalize_any_csv`: maps an arbitrary table and four column choices onto
    the standard schema. */
module Ingest {
  import opened Wrappers
  import opened Text
  import opened Records

  /** A cell of the uploaded table, by the text `astype(str)` gives it. */
  datatype Cell = Missing | Present(repr: string)

  /** `str()` of a cell: a missing cell (NaN) reads "nan". */
  function CellText(c: Cell): string {
    match c
    case Missing => "nan"
    case Present(s) => s
  }

  /** The uploaded table: its columns by name, each `height` cells long. */
  datatype RawTable = RawTable(columns: map<string, seq<Cell>>, height: nat) {
    ghost predicate WellFormed() {
      forall c :: c in columns ==> |columns[c]| == height
    }
  }

  /** `col and col in df.columns`: the choice names a column of the table. */
  predicate Uses(t: RawTable, col: Option<string>) {
    col.Some? && col.value != "" && col.value in t.columns
  }

  // ---------------------------------------------------------------------------
  // The rating scanner: the leftmost match of `\d+\.?\d*`, read as a number.

  /** Length of the run of digits at the start of `s`. */
  function LeadingDigits(s: string): (n: nat)
    ensures n <= |s| && AllDigits(s[..n])
    ensures n == |s| || !IsDigit(s[n])
  {
    if s == [] || !IsDigit(s[0]) then 0
    else
      var n := 1 + LeadingDigits(s[1..]);
      assert s[..n] == [s[0]] + s[1..][..n - 1];
      n
  }

  /** The value of the decimal digits after the point: `0.d1d2...`. */
  function Fraction(d: string): real
    requires AllDigits(d)
  {
    DigitsValue(d) as real / Pow10(|d|) as real
  }

  /** The number matched by `\d+\.?\d*` at the start of `s`: the greedy run
      of digits, then, if a point follows, the point and the greedy run of
      digits after it. */
  function NumberAt(s: string): real
    requires s != [] && IsDigit(s[0])
  {
    var n := LeadingDigits(s);
    var whole := DigitsValue(s[..n]) as real;
    if n < |s| && s[n] == '.' then
      var m := LeadingDigits(s[n + 1..]);
      whole + Fraction(s[n + 1..][..m])
    else whole
  }

  /** Index of the first digit of `s` (`|s|` when there is none): the scan
      `re.search` makes for the leftmost place the pattern can start. */
  function FirstDigit(s: string): (p: nat)
    ensures p <= |s|
    ensures forall i :: 0 <= i < p ==> !IsDigit(s[i])
    ensures p == |s| || IsDigit(s[p])
  {
    if s == [] || IsDigit(s[0]) then 0 else 1 + FirstDigit(s[1..])
  }

  /** `re.search(r"(\d+\.?\d*)", s)` followed by `pd.to_numeric`: the number
      at the first digit of `s`, or None when `s` has no digit. */
  function ScanNumber(s: string): (r: Option<real>)
    ensures r.None? <==> forall i :: 0 <= i < |s| ==> !IsDigit(s[i])
  {
    var p := FirstDigit(s);
    if p == |s| then None else Some(NumberAt(s[p..]))
  }

  lemma {:induction false} LeadingDigitsOfRun(d: string, tail: string)
    requires AllDigits(d)
    requires tail == [] || !IsDigit(tail[0])
    ensures LeadingDigits(d + tail) == |d|
    ensures (d + tail)[..|d|] == d && (d + tail)[|d|..] == tail
  {
    assert forall i :: 0 <= i < |d| ==> (d + tail)[i] == d[i];
    if tail != [] {
      assert (d + tail)[|d|] == tail[0];
    }
  }

  lemma {:induction false} DropPoint(s: string, n: nat, rest: string)
    requires n < |s| && s[n..] == "." + rest
    ensures s[n] == '.' && s[n + 1..] == rest
  {
    assert s[n..][0] == s[n];
    assert s[n + 1..] == s[n..][1..];
  }

  /** The leftmost match of the pattern on a string that starts with a digit
      has a fractional part when digits, a point and digits are followed by
      something that is not a digit. */
  lemma {:induction false} NumberAtWithPoint(whole: string, frac: string, tail: string)
    requires AllDigits(whole) && |whole| > 0 && AllDigits(frac)
    requires tail == [] || !IsDigit(tail[0])
    ensures NumberAt(whole + ("." + (frac + tail))) == DigitsValue(whole) as real + Fraction(frac)
  {
    var s := whole + ("." + (frac + tail));
    LeadingDigitsOfRun(whole, "." + (frac + tail));
    DropPoint(s, |whole|, frac + tail);
    LeadingDigitsOfRun(frac, tail);
  }

  /** ... and none when the digits are followed by neither a digit nor a point. */
  lemma {:induction false} NumberAtWhole(whole: string, tail: string)
    requires AllDigits(whole) && |whole| > 0
    requires tail == [] || (!IsDigit(tail[0]) && tail[0] != '.')
    ensures NumberAt(whole + tail) == DigitsValue(whole) as real
  {
    LeadingDigitsOfRun(whole, tail);
  }

  lemma {:induction false} FirstDigitAppend(pre: string, s: string)
    requires forall i :: 0 <= i < |pre| ==> !IsDigit(pre[i])
    ensures FirstDigit(pre + s) == |pre| + FirstDigit(s)
  {
    if pre != [] {
      assert (pre + s)[0] == pre[0];
      assert (pre + s)[1..] == pre[1..] + s;
      FirstDigitAppend(pre[1..], s);
    } else {
      assert pre + s == s;
    }
  }

  /** Characters before the first digit, such as the sign of "-2", do not
      change the rating. */
  lemma {:induction false} ScanNumberSkips(pre: string, s: string)
    requires forall i :: 0 <= i < |pre| ==> !IsDigit(pre[i])
    ensures ScanNumber(pre + s) == ScanNumber(s)
  {
    FirstDigitAppend(pre, s);
    var p := FirstDigit(s);
    assert (pre + s)[|pre| + p..] == s[p..];
  }

  /** On a string that starts with a digit the match starts there. */
  lemma {:induction false} ScanNumberAtDigit(s: string)
    requires s != [] && IsDigit(s[0])
    ensures ScanNumber(s) == Some(NumberAt(s))
  {
    assert s[0..] == s;
  }

  /** Scanning the decimal rendering of a whole number gives the number back. */
  lemma {:induction false} ScanNumberOfNatToString(n: nat)
    ensures ScanNumber(NatToString(n)) == Some(n as real)
  {
    var s := NatToString(n);
    ScanNumberAtDigit(s);
    NumberAtWhole(s, "");
    assert s + "" == s;
    NatToStringRoundTrip(n);
  }

  lemma {:induction false} DigitsValueOne(c: char)
    requires IsDigit(c)
    ensures AllDigits([c]) && DigitsValue([c]) == DigitValue(c)
  {
  }

  /** The ratings the extraction is documented for. */
  lemma {:induction false} ScanNumberStars()
    ensures ScanNumber("5 stars") == Some(5.0)
  {
    DigitsValueOne('5');
    ScanNumberAtDigit("5 stars");
    NumberAtWhole("5", " stars");
    assert "5" + " stars" == "5 stars";
  }

  lemma {:induction false} ScanNumberOutOf()
    ensures ScanNumber("4/5") == Some(4.0)
  {
    DigitsValueOne('4');
    ScanNumberAtDigit("4/5");
    NumberAtWhole("4", "/5");
    assert "4" + "/5" == "4/5";
  }

  lemma {:induction false} ScanNumberDecimal()
    ensures ScanNumber("4.5") == Some(4.5)
  {
    DigitsValueOne('4');
    DigitsValueOne('5');
    ScanNumberAtDigit("4.5");
    NumberAtWithPoint("4", "5", "");
    assert "4" + ("." + ("5" + "")) == "4.5";
  }

  lemma {:induction false} ScanNumberSign()
    ensures ScanNumber("-2") == Some(2.0)
    ensures ScanNumber("nan") == None
  {
    DigitsValueOne('2');
    ScanNumberSkips("-", "2");
    assert "-" + "2" == "-2";
    ScanNumberAtDigit("2");
    NumberAtWhole("2", "");
    assert "2" + "" == "2";
  }

  // ---------------------------------------------------------------------------
  // normalize_any_csv

  /** `pd.to_datetime(..., errors="coerce")` of one cell, given the date
      parser as a function from a cell's text to a day number; a missing
      cell is NaT. */
  function ParseDateCell(c: Cell, parseDate: string -> Option<int>): Option<int> {
    match c
    case Missing => None
    case Present(s) => parseDate(s)
  }

  function NormalizeRow(t: RawTable, i: nat, textCol: string, dateCol: Option<string>,
                        ratingCol: Option<string>, sourceCol: Option<string>,
                        today: int, parseDate: string -> Option<int>): Row
    requires t.WellFormed() && textCol in t.columns && i < t.height
  {
    Row(CellText(t.columns[textCol][i]),
        i + 1,
        if Uses(t, dateCol) then ParseDateCell(t.columns[dateCol.value][i], parseDate) else Some(today),
        Some(if Uses(t, sourceCol) then CellText(t.columns[sourceCol.value][i]) else Unknown),
        if Uses(t, ratingCol) then ScanNumber(CellText(t.columns[ratingCol.value][i])) else None)
  }

  /** `normalize_any_csv(df, text_col, date_col, rating_col, source_col)`;
      `today` is the day the batch is ingested. */
  function NormalizeAnyCsv(t: RawTable, textCol: string, dateCol: Option<string>,
                           ratingCol: Option<string>, sourceCol: Option<string>,
                           today: int, parseDate: string -> Option<int>): (rows: seq<Row>)
    requires t.WellFormed() && textCol in t.columns
    ensures |rows| == t.height
    ensures forall i :: 0 <= i < |rows| ==> rows[i].id == i + 1
    ensures forall i :: 0 <= i < |rows| ==> rows[i].text == CellText(t.columns[textCol][i])
    ensures !Uses(t, dateCol) ==> forall i :: 0 <= i < |rows| ==> rows[i].date == Some(today)
    ensures Uses(t, dateCol) ==>
              forall i :: 0 <= i < |rows| ==> rows[i].date == ParseDateCell(t.columns[dateCol.value][i], parseDate)
    ensures !Uses(t, sourceCol) ==> forall i :: 0 <= i < |rows| ==> rows[i].source == Some(Unknown)
    ensures Uses(t, sourceCol) ==>
              forall i :: 0 <= i < |rows| ==> rows[i].source == Some(CellText(t.columns[sourceCol.value][i]))
    ensures !Uses(t, ratingCol) ==> forall i :: 0 <= i < |rows| ==> rows[i].rating.None?
    ensures Uses(t, ratingCol) ==>
              forall i :: 0 <= i < |rows| ==> rows[i].rating == ScanNumber(CellText(t.columns[ratingCol.value][i]))
  {
    seq(t.height, i requires 0 <= i < t.height =>
      NormalizeRow(t, i, textCol, dateCol, ratingCol, sourceCol, today, parseDate))
  }
}
