/** String helpers with Python's semantics: `str.isspace`, `str.strip()`,
    `str.split()`, `" ".join(...)`, code-point string comparison, and decimal
    digits (the `\d` of the rating scanner and `str(int)`). */
module Text {

  /** Python's `str.isspace` (the set `str.strip()` and `str.split()` use). */
  predicate IsSpace(c: char) {
    ('\t' <= c <= '\r') || ('\U{1C}' <= c <= ' ') || c == '\U{85}' || c == '\U{A0}'
    || c == '\U{1680}' || ('\U{2000}' <= c <= '\U{200A}') || c == '\U{2028}'
    || c == '\U{2029}' || c == '\U{202F}' || c == '\U{205F}' || c == '\U{3000}'
  }

  predicate AllSpace(s: string) {
    forall i :: 0 <= i < |s| ==> IsSpace(s[i])
  }

  /** The text holds at least one non-whitespace character. */
  predicate HasText(s: string) {
    !AllSpace(s)
  }

  predicate IsDigit(c: char) {
    '0' <= c <= '9'
  }

  predicate AllDigits(s: string) {
    forall i :: 0 <= i < |s| ==> IsDigit(s[i])
  }

  function DigitValue(c: char): (d: nat)
    requires IsDigit(c)
    ensures d < 10
  {
    c as int - '0' as int
  }

  function DigitChar(d: nat): (c: char)
    requires d < 10
    ensures IsDigit(c) && DigitValue(c) == d
  {
    ('0' as int + d) as char
  }

  /** The number a string of decimal digits denotes (0 for the empty string). */
  function DigitsValue(s: string): nat
    requires AllDigits(s)
  {
    if s == [] then 0 else DigitsValue(s[..|s| - 1]) * 10 + DigitValue(s[|s| - 1])
  }

  function Pow10(n: nat): (p: nat)
    ensures p >= 1
  {
    if n == 0 then 1 else 10 * Pow10(n - 1)
  }

  /** Python's `str(n)` for a non-negative integer. */
  function NatToString(n: nat): (s: string)
    ensures |s| > 0 && AllDigits(s)
    ensures s[0] == '0' ==> n == 0
  {
    if n < 10 then [DigitChar(n)] else NatToString(n / 10) + [DigitChar(n % 10)]
  }

  /** Reading back the decimal rendering gives the number. */
  lemma {:induction false} NatToStringRoundTrip(n: nat)
    ensures DigitsValue(NatToString(n)) == n
  {
    if n >= 10 {
      var s := NatToString(n / 10);
      NatToStringRoundTrip(n / 10);
      assert (s + [DigitChar(n % 10)])[..|s|] == s;
    }
  }

  lemma {:induction false} NatToStringInjective(a: nat, b: nat)
    requires NatToString(a) == NatToString(b)
    ensures a == b
  {
    NatToStringRoundTrip(a);
    NatToStringRoundTrip(b);
  }

  // ---------------------------------------------------------------------------
  // strip()

  /** The number of whitespace characters at the start of `s`. */
  function LeadingSpaces(s: string): (n: nat)
    ensures n <= |s| && AllSpace(s[..n])
    ensures n == |s| || !IsSpace(s[n])
  {
    if s != [] && IsSpace(s[0]) then
      var m := LeadingSpaces(s[1..]);
      SpaceThenSpaces(s, m + 1);
      m + 1
    else 0
  }

  /** Where the whitespace at the end of `s` starts. */
  function TrailingStart(s: string): (n: nat)
    ensures n <= |s| && AllSpace(s[n..])
    ensures n == 0 || !IsSpace(s[n - 1])
  {
    if s != [] && IsSpace(s[|s| - 1]) then
      var m := TrailingStart(s[..|s| - 1]);
      SpacesThenSpace(s, m);
      m
    else |s|
  }

  /** `s.lstrip()`. */
  function TrimStart(s: string): (r: string)
    ensures |r| <= |s| && r == s[|s| - |r|..]
    ensures AllSpace(s[..|s| - |r|])
    ensures r == [] || !IsSpace(r[0])
  {
    s[LeadingSpaces(s)..]
  }

  /** `s.rstrip()`. */
  function TrimEnd(s: string): (r: string)
    ensures |r| <= |s| && r == s[..|r|]
    ensures AllSpace(s[|r|..])
    ensures r == [] || !IsSpace(r[|r| - 1])
  {
    s[..TrailingStart(s)]
  }

  /** `s.strip()`. */
  function Strip(s: string): (r: string)
    ensures r == [] <==> !HasText(s)
    ensures r != [] ==> !IsSpace(r[0]) && !IsSpace(r[|r| - 1])
  {
    StripEmpty(s);
    var u := TrimStart(s);
    var r := TrimEnd(u);
    assert r != [] ==> r[0] == u[0];
    r
  }

  /** What `strip()` keeps is a middle slice of the input, starting where
      `lstrip()` stops, and what it cuts off on either side is whitespace. */
  lemma {:induction false} StripIsMiddleSlice(s: string)
    ensures var lo := |s| - |TrimStart(s)|; var hi := lo + |Strip(s)|;
            && hi <= |s| && Strip(s) == s[lo..hi] && AllSpace(s[..lo]) && AllSpace(s[hi..])
  {
    var u := TrimStart(s);
    StripIsTrimmed(s);
    CutBothEnds(s, u, TrimEnd(u));
  }

  lemma {:induction false} CutBothEnds(s: string, u: string, r: string)
    requires |u| <= |s| && u == s[|s| - |u|..]
    requires |r| <= |u| && r == u[..|r|] && AllSpace(u[|r|..])
    ensures var lo := |s| - |u|; lo + |r| <= |s| && r == s[lo..lo + |r|] && AllSpace(s[lo + |r|..])
  {
    assert s[|s| - |u| + |r|..] == u[|r|..];
  }

  /** A space followed by spaces is all space. */
  lemma {:induction false} SpaceThenSpaces(s: string, m: nat)
    requires 0 < m <= |s| && IsSpace(s[0]) && AllSpace(s[1..][..m - 1])
    ensures AllSpace(s[..m])
  {
    forall i | 0 <= i < m ensures IsSpace(s[..m][i]) {
      if i > 0 {
        assert s[..m][i] == s[1..][..m - 1][i - 1];
      }
    }
  }

  /** Spaces followed by a space are all space. */
  lemma {:induction false} SpacesThenSpace(s: string, m: nat)
    requires m < |s| && IsSpace(s[|s| - 1]) && AllSpace(s[..|s| - 1][m..])
    ensures AllSpace(s[m..])
  {
    forall i | 0 <= i < |s| - m ensures IsSpace(s[m..][i]) {
      if i < |s| - 1 - m {
        assert s[m..][i] == s[..|s| - 1][m..][i];
      }
    }
  }

  lemma {:induction false} StripIsTrimmed(s: string)
    ensures Strip(s) == TrimEnd(TrimStart(s))
  {
  }

  lemma {:induction false} AllSpaceConcat(a: string, b: string)
    requires AllSpace(a) && AllSpace(b)
    ensures AllSpace(a + b)
  {
    forall i | 0 <= i < |a + b| ensures IsSpace((a + b)[i]) {
      if i < |a| { assert (a + b)[i] == a[i]; } else { assert (a + b)[i] == b[i - |a|]; }
    }
  }

  lemma {:induction false} StripEmpty(s: string)
    ensures TrimEnd(TrimStart(s)) == [] <==> !HasText(s)
  {
    var u := TrimStart(s);
    var lo := |s| - |u|;
    if TrimEnd(u) == [] {
      assert u[0..] == u;
      AllSpaceConcat(s[..lo], u);
      assert s == s[..lo] + u;
    } else {
      assert u[0] == s[lo];
    }
  }

  // ---------------------------------------------------------------------------
  // split() and " ".join()

  /** A token of `str.split()`: non-empty, no whitespace. */
  predicate IsWord(w: string) {
    |w| > 0 && forall i :: 0 <= i < |w| ==> !IsSpace(w[i])
  }

  /** Length of the run of non-whitespace characters at the start of `s`. */
  function WordLen(s: string): (n: nat)
    ensures n <= |s|
    ensures forall i :: 0 <= i < n ==> !IsSpace(s[i])
    ensures n == |s| || IsSpace(s[n])
  {
    if s == [] || IsSpace(s[0]) then 0 else 1 + WordLen(s[1..])
  }

  /** Python's `s.split()` with no separator: the maximal runs of
      non-whitespace characters, in order. */
  function Split(s: string): (ws: seq<string>)
    ensures forall w :: w in ws ==> IsWord(w)
    decreases |s|
  {
    var u := TrimStart(s);
    if u == [] then []
    else
      var n := WordLen(u);
      [u[..n]] + Split(u[n..])
  }

  /** Python's `" ".join(ws)`. */
  function Join(ws: seq<string>): string {
    if ws == [] then ""
    else if |ws| == 1 then ws[0]
    else ws[0] + " " + Join(ws[1..])
  }

  /** `ws[:n]`. */
  function Take<T>(ws: seq<T>, n: nat): (r: seq<T>)
    ensures |r| <= n && |r| <= |ws| && r == ws[..|r|]
    ensures |ws| <= n ==> r == ws
  {
    if |ws| <= n then ws else ws[..n]
  }

  lemma {:induction false} WordLenOfWord(w: string, rest: string)
    requires IsWord(w)
    requires rest == [] || IsSpace(rest[0])
    ensures WordLen(w + rest) == |w|
  {
    assert forall i :: 0 <= i < |w| ==> (w + rest)[i] == w[i];
    if rest != [] {
      assert (w + rest)[|w|] == rest[0];
    }
  }

  lemma {:induction false} SplitLeadingSpace(c: char, s: string)
    requires IsSpace(c)
    ensures Split([c] + s) == Split(s)
  {
    assert ([c] + s)[1..] == s;
  }

  lemma {:induction false} SplitWord(w: string)
    requires IsWord(w)
    ensures Split(w) == [w]
  {
    WordLenOfWord(w, []);
    assert w + [] == w;
    assert TrimStart(w) == w;
    assert w[..|w|] == w;
    assert w[|w|..] == [];
  }

  lemma {:induction false} SplitWordThenSpace(w: string, rest: string)
    requires IsWord(w)
    ensures Split(w + " " + rest) == [w] + Split(rest)
  {
    var j := w + " " + rest;
    assert j == w + (" " + rest);
    WordLenOfWord(w, " " + rest);
    assert j[0] == w[0];
    assert TrimStart(j) == j;
    assert j[..|w|] == w;
    assert j[|w|..] == [' '] + rest;
    SplitLeadingSpace(' ', rest);
  }

  /** Splitting a single-space join of tokens gives the tokens back. */
  lemma {:induction false} SplitJoin(ws: seq<string>)
    requires forall w :: w in ws ==> IsWord(w)
    ensures Split(Join(ws)) == ws
  {
    if ws == [] {
    } else if |ws| == 1 {
      assert ws[0] in ws;
      SplitWord(ws[0]);
    } else {
      assert ws[0] in ws;
      SplitWordThenSpace(ws[0], Join(ws[1..]));
      SplitJoin(ws[1..]);
    }
  }

  lemma {:induction false} JoinEnds(ws: seq<string>)
    requires forall w :: w in ws ==> IsWord(w)
    requires ws != []
    ensures |Join(ws)| > 0
    ensures !IsSpace(Join(ws)[0]) && !IsSpace(Join(ws)[|Join(ws)| - 1])
  {
    assert ws[0] in ws;
    if |ws| > 1 {
      var rest := Join(ws[1..]);
      JoinEnds(ws[1..]);
      assert Join(ws) == ws[0] + " " + rest;
      assert Join(ws)[0] == ws[0][0];
      assert Join(ws)[|Join(ws)| - 1] == rest[|rest| - 1];
    }
  }

  /** A join of tokens has nothing to strip. */
  lemma {:induction false} JoinIsStripped(ws: seq<string>)
    requires forall w :: w in ws ==> IsWord(w)
    ensures Strip(Join(ws)) == Join(ws)
  {
    if ws != [] {
      JoinEnds(ws);
    }
  }

  lemma {:induction false} TrimStartIdempotent(s: string)
    ensures TrimStart(TrimStart(s)) == TrimStart(s)
  {
  }

  lemma {:induction false} TrimStartAppend(x: string, y: string)
    requires HasText(x)
    ensures TrimStart(x + y) == TrimStart(x) + y
  {
    LeadingSpacesAppend(x, y);
    var n := LeadingSpaces(x);
    assert (x + y)[n..] == x[n..] + y;
  }

  lemma {:induction false} LeadingSpacesAppend(x: string, y: string)
    requires HasText(x)
    ensures LeadingSpaces(x + y) == LeadingSpaces(x)
  {
    if IsSpace(x[0]) {
      assert (x + y)[1..] == x[1..] + y;
      var i :| 0 <= i < |x| && !IsSpace(x[i]);
      assert x[1..][i - 1] == x[i];
      LeadingSpacesAppend(x[1..], y);
    } else {
      assert (x + y)[0] == x[0];
    }
  }

  lemma {:induction false} WordLenAppend(v: string, y: string)
    requires y == [] || IsSpace(y[0])
    ensures WordLen(v + y) == WordLen(v)
  {
    if v == [] {
      assert v + y == y;
    } else if !IsSpace(v[0]) {
      assert (v + y)[1..] == v[1..] + y;
      WordLenAppend(v[1..], y);
    }
  }

  lemma {:induction false} NoTextAppend(x: string, sp: string)
    requires AllSpace(x) && AllSpace(sp)
    ensures Split(x + sp) == [] && Split(x) == []
  {
    AllSpaceConcat(x, sp);
    assert TrimStart(x + sp) == [];
    assert TrimStart(x) == [];
  }

  lemma {:induction false} SplitUnfold(s: string, v: string, n: nat)
    requires HasText(s) && v == TrimStart(s) && n == WordLen(v)
    ensures 0 < n <= |v| && Split(s) == [v[..n]] + Split(v[n..])
  {
    assert s[..|s|] == s;
  }

  lemma {:induction false} SliceOfAppend<T>(v: seq<T>, sp: seq<T>, n: nat)
    requires n <= |v|
    ensures (v + sp)[..n] == v[..n]
    ensures (v + sp)[n..] == v[n..] + sp
  {
  }

  lemma {:induction false} HasTextAppend(x: string, sp: string)
    requires HasText(x)
    ensures HasText(x + sp)
  {
    var i :| 0 <= i < |x| && !IsSpace(x[i]);
    assert (x + sp)[i] == x[i];
  }

  lemma {:induction false} TrimStartAppendSpace(x: string, sp: string)
    requires HasText(x) && AllSpace(sp)
    ensures TrimStart(x + sp) == TrimStart(x) + sp
    ensures WordLen(TrimStart(x) + sp) == WordLen(TrimStart(x))
  {
    TrimStartAppend(x, sp);
    assert sp == [] || IsSpace(sp[0]);
    WordLenAppend(TrimStart(x), sp);
  }

  lemma {:induction false} SplitAppendStep(x: string, sp: string, v: string, n: nat)
    requires HasText(x) && AllSpace(sp)
    requires v == TrimStart(x) && n == WordLen(v)
    ensures Split(x + sp) == [v[..n]] + Split(v[n..] + sp)
  {
    HasTextAppend(x, sp);
    TrimStartAppendSpace(x, sp);
    SliceOfAppend(v, sp, n);
    SplitUnfold(x + sp, v + sp, n);
  }

  /** Trailing whitespace does not change the tokens. */
  lemma {:induction false} SplitTrailingSpace(x: string, sp: string)
    requires AllSpace(sp)
    ensures Split(x + sp) == Split(x)
    decreases |x|
  {
    if !HasText(x) {
      NoTextAppend(x, sp);
    } else {
      var v := TrimStart(x);
      var n := WordLen(v);
      SplitUnfold(x, v, n);
      SplitAppendStep(x, sp, v, n);
      SplitTrailingSpace(v[n..], sp);
    }
  }

  /** `s.strip().split() == s.split()`. */
  lemma {:induction false} SplitStrip(s: string)
    ensures Split(Strip(s)) == Split(s)
  {
    var u := TrimStart(s);
    var r := TrimEnd(u);
    StripIsTrimmed(s);
    SplitOfTrimmed(u, r);
    SplitTrimStart(s);
  }

  lemma {:induction false} SplitOfTrimmed(u: string, r: string)
    requires |r| <= |u| && r == u[..|r|] && AllSpace(u[|r|..])
    ensures Split(r) == Split(u)
  {
    assert u == r + u[|r|..];
    SplitTrailingSpace(r, u[|r|..]);
  }

  /** Leading whitespace does not change the tokens. */
  lemma {:induction false} SplitTrimStart(s: string)
    ensures Split(TrimStart(s)) == Split(s)
  {
    TrimStartIdempotent(s);
  }

  // ---------------------------------------------------------------------------
  // Code-point order on strings (Python's `<` on `str`)

  predicate StrLt(a: string, b: string) {
    if a == [] then b != []
    else if b == [] then false
    else if a[0] != b[0] then a[0] < b[0]
    else StrLt(a[1..], b[1..])
  }

  lemma {:induction false} StrLtIrreflexive(a: string)
    ensures !StrLt(a, a)
  {
    if a != [] {
      StrLtIrreflexive(a[1..]);
    }
  }

  lemma {:induction false} StrLtTransitive(a: string, b: string, c: string)
    requires StrLt(a, b) && StrLt(b, c)
    ensures StrLt(a, c)
  {
    if a != [] && a[0] == b[0] && b[0] == c[0] {
      StrLtTransitive(a[1..], b[1..], c[1..]);
    }
  }

  lemma {:induction false} StrLtTotal(a: string, b: string)
    requires a != b
    ensures StrLt(a, b) || StrLt(b, a)
  {
    if a != [] && b != [] && a[0] == b[0] {
      assert a == [a[0]] + a[1..] && b == [b[0]] + b[1..];
      StrLtTotal(a[1..], b[1..]);
    }
  }
}
