/** `add_week_bucket`, `theme_metrics` and the selection of rows and evidence
    in `exec_summary_and_actions`. */
module Insights {
  import opened Wrappers
  import opened Text
  import opened Sorting
  import opened Groups
  import opened Records

  // ---------------------------------------------------------------------------
  // Week buckets

  /** Day 0 (1970-01-01) is a Thursday, so day `d` is a Monday when `d + 3` is
      a multiple of 7. */
  predicate IsMonday(d: int) {
    (d + 3) % 7 == 0
  }

  /** The Monday that starts the Monday-to-Sunday week of day `d`: the period
      `to_period("W")` puts the day in. */
  function WeekStart(d: int): (w: int)
    ensures IsMonday(w) && w <= d <= w + 6
  {
    d - (d + 3) % 7
  }

  /** A day in the week starting on Monday `m` is bucketed to `m`. */
  lemma {:induction false} WeekOfMonday(m: int, d: int)
    requires IsMonday(m) && m <= d <= m + 6
    ensures WeekStart(d) == m
  {
    var w := WeekStart(d);
    assert (m + 3) % 7 == 0 && (w + 3) % 7 == 0;
    assert (m + 3) / 7 * 7 == m + 3 && (w + 3) / 7 * 7 == w + 3;
    assert -6 <= (m + 3) / 7 * 7 - (w + 3) / 7 * 7 <= 6;
    assert (m + 3) / 7 == (w + 3) / 7;
  }

  /** Two days get the same week label exactly when they lie in the same
      Monday-to-Sunday week. */
  lemma {:induction false} SameWeek(a: int, b: int)
    ensures WeekStart(a) == WeekStart(b) <==> WeekStart(a) <= b <= WeekStart(a) + 6
  {
    if WeekStart(a) <= b <= WeekStart(a) + 6 {
      WeekOfMonday(WeekStart(a), b);
    }
  }

  /** The week of a date; a missing date (NaT) has the week "NaT", here None. */
  function Week(date: Option<int>): (w: Option<int>)
    ensures w.None? <==> date.None?
    ensures date.Some? ==> IsMonday(w.value) && w.value <= date.value <= w.value + 6
  {
    if date.None? then None else Some(WeekStart(date.value))
  }

  /** A row with its `week` column. */
  datatype Bucketed = Bucketed(row: Themed, week: Option<int>)

  /** `add_week_bucket(df)`: a copy of the table with `week` added. */
  function AddWeekBucket(t: seq<Themed>): (r: seq<Bucketed>)
    ensures |r| == |t|
    ensures forall i :: 0 <= i < |t| ==> r[i].row == t[i] && r[i].week == Week(t[i].row.date)
  {
    if t == [] then [] else [Bucketed(t[0], Week(t[0].row.date))] + AddWeekBucket(t[1..])
  }

  // ---------------------------------------------------------------------------
  // Per-theme aggregates

  function ThemeOf(x: Themed): string {
    x.theme
  }

  /** `is_negative`: 1 when the rating is at most 2. A missing rating compares
      false, so it gives 0. */
  function IsNegative(r: Option<real>): (n: nat)
    ensures n <= 1
    ensures n == 1 <==> r.Some? && r.value <= 2.0
  {
    if r.Some? && r.value <= 2.0 then 1 else 0
  }

  function RatedCount(g: seq<Themed>): (n: nat)
    ensures n <= |g|
  {
    if g == [] then 0 else (if g[0].row.rating.Some? then 1 else 0) + RatedCount(g[1..])
  }

  function RatedSum(g: seq<Themed>): real {
    if g == [] then 0.0 else (if g[0].row.rating.Some? then g[0].row.rating.value else 0.0) + RatedSum(g[1..])
  }

  function NegativeCount(g: seq<Themed>): (n: nat)
    ensures n <= RatedCount(g)
  {
    if g == [] then 0 else IsNegative(g[0].row.rating) + NegativeCount(g[1..])
  }

  /** `mean` of the ratings: NaN values are skipped, and with none left the
      mean is undefined. */
  function MeanRating(g: seq<Themed>): (m: Option<real>)
    ensures m.None? <==> RatedCount(g) == 0
  {
    if RatedCount(g) == 0 then None else Some(RatedSum(g) / RatedCount(g) as real)
  }

  /** `feedback_count * (1 + negative_rate) * (6 - avg_rating)`, undefined
      when the average is. */
  function PriorityScore(count: nat, negativeRate: real, avg: Option<real>): (p: Option<real>)
    ensures p.None? <==> avg.None?
  {
    if avg.None? then None else Some(count as real * (1.0 + negativeRate) * (6.0 - avg.value))
  }

  /** One row of `theme_metrics`. */
  datatype ThemeMetric = ThemeMetric(theme: string, feedbackCount: nat, avgRating: Option<real>,
                                     negativeRate: real, priorityScore: Option<real>)

  /** The aggregates of the rows `g` of one theme. */
  function Aggregate(theme: string, g: seq<Themed>): (m: ThemeMetric)
    requires g != []
    ensures m.theme == theme && m.feedbackCount == |g|
    ensures m.avgRating == MeanRating(g)
    ensures 0.0 <= m.negativeRate <= 1.0
    ensures m.priorityScore.None? <==> RatedCount(g) == 0
  {
    DivBelow(NegativeCount(g) as real, RatedCount(g) as real, |g| as real);
    var neg := NegativeCount(g) as real / |g| as real;
    var avg := MeanRating(g);
    ThemeMetric(theme, |g|, avg, neg, PriorityScore(|g|, neg, avg))
  }

  /** The metric row of `theme` in table `t`. */
  function Metric(t: seq<Themed>, theme: string): (m: ThemeMetric)
    requires exists x :: x in t && x.theme == theme
    ensures m.theme == theme && 1 <= m.feedbackCount <= |t|
    ensures m.feedbackCount == |Select(t, ThemeOf, theme)|
  {
    var x :| x in t && x.theme == theme;
    assert x in Select(t, ThemeOf, theme);
    Aggregate(theme, Select(t, ThemeOf, theme))
  }

  lemma {:induction false} DivBelow(a: real, b: real, c: real)
    requires 0.0 <= a <= b <= c && 0.0 < c
    ensures 0.0 <= a / c <= b / c <= 1.0
  {
    assert a / c * c == a && b / c * c == b;
  }

  /** The negative rate counts unrated rows in its denominator, so it lies in
      [0, 1] and never exceeds the share of rated rows. */
  lemma {:induction false} NegativeRateBounds(theme: string, g: seq<Themed>)
    requires g != []
    ensures 0.0 <= Aggregate(theme, g).negativeRate <= RatedCount(g) as real / |g| as real <= 1.0
  {
    DivBelow(NegativeCount(g) as real, RatedCount(g) as real, |g| as real);
  }

  predicate RatingsWithin(g: seq<Themed>, lo: real, hi: real) {
    forall x :: x in g && x.row.rating.Some? ==> lo <= x.row.rating.value <= hi
  }

  /** `c` added once for every rated row. */
  function Scaled(g: seq<Themed>, c: real): real {
    if g == [] then 0.0
    else (if g[0].row.rating.Some? then c else 0.0) + Scaled(g[1..], c)
  }

  lemma {:induction false} ScaledIsProduct(g: seq<Themed>, c: real)
    ensures Scaled(g, c) == c * RatedCount(g) as real
  {
    if g != [] {
      ScaledIsProduct(g[1..], c);
      var k := RatedCount(g[1..]) as real;
      assert c * (k + 1.0) == c * k + c;
    }
  }

  lemma {:induction false} RatingsWithinTail(g: seq<Themed>, lo: real, hi: real)
    requires g != [] && RatingsWithin(g, lo, hi)
    ensures RatingsWithin(g[1..], lo, hi)
    ensures g[0].row.rating.Some? ==> lo <= g[0].row.rating.value <= hi
  {
    assert g[0] in g;
    forall x | x in g[1..] ensures x in g { }
  }

  lemma {:induction false} RatedSumBetween(g: seq<Themed>, lo: real, hi: real)
    requires RatingsWithin(g, lo, hi)
    ensures Scaled(g, lo) <= RatedSum(g) <= Scaled(g, hi)
  {
    if g != [] {
      RatingsWithinTail(g, lo, hi);
      RatedSumBetween(g[1..], lo, hi);
    }
  }

  /** The sum of the present ratings lies between their count times the
      lower and the upper bound. */
  lemma {:induction false} RatedSumBounds(g: seq<Themed>, lo: real, hi: real)
    requires RatingsWithin(g, lo, hi)
    ensures lo * RatedCount(g) as real <= RatedSum(g) <= hi * RatedCount(g) as real
  {
    RatedSumBetween(g, lo, hi);
    ScaledIsProduct(g, lo);
    ScaledIsProduct(g, hi);
  }

  lemma {:induction false} DivBetween(lo: real, hi: real, s: real, n: real)
    requires 0.0 < n && lo * n <= s <= hi * n
    ensures lo <= s / n <= hi
  {
    var q := s / n;
    assert q * n == s;
    assert (q - lo) * n == s - lo * n;
    assert (hi - q) * n == hi * n - s;
  }

  /** The average of the present ratings lies between their bounds. */
  lemma {:induction false} MeanBounds(g: seq<Themed>, lo: real, hi: real)
    requires RatingsWithin(g, lo, hi) && RatedCount(g) > 0
    ensures lo <= MeanRating(g).value <= hi
  {
    RatedSumBounds(g, lo, hi);
    DivBetween(lo, hi, RatedSum(g), RatedCount(g) as real);
  }

  /** The score is not negative when the average is at most 6, and it does
      not decrease as the count grows with the rate and the average fixed. */
  lemma {:induction false} PriorityMonotone(c1: nat, c2: nat, neg: real, avg: real)
    requires c1 <= c2 && 0.0 <= neg && avg <= 6.0
    ensures 0.0 <= PriorityScore(c1, neg, Some(avg)).value <= PriorityScore(c2, neg, Some(avg)).value
  {
    var k := (1.0 + neg) * (6.0 - avg);
    assert 0.0 <= k;
    assert c1 as real * (1.0 + neg) * (6.0 - avg) == c1 as real * k;
    assert c2 as real * (1.0 + neg) * (6.0 - avg) == c2 as real * k;
  }

  function Rated(r: Option<real>, theme: string): Themed {
    Themed(Row("", 0, None, None, r), "", 0, theme)
  }

  /** A theme with ratings 1, 5 and a missing one: the average is 3 and the
      negative rate is 1/3, since the unrated row counts in the denominator. */
  lemma {:induction false} MetricExample()
    ensures var g := [Rated(Some(1.0), "a"), Rated(Some(5.0), "a"), Rated(None, "a")];
            && Aggregate("a", g).avgRating == Some(3.0)
            && Aggregate("a", g).negativeRate == 1.0 / 3.0
            && Aggregate("a", g).priorityScore == Some(12.0)
  {
    var g := [Rated(Some(1.0), "a"), Rated(Some(5.0), "a"), Rated(None, "a")];
    assert g[1..] == [Rated(Some(5.0), "a"), Rated(None, "a")];
    assert g[1..][1..] == [Rated(None, "a")];
    assert RatedCount(g) == 2 && RatedSum(g) == 6.0 && NegativeCount(g) == 1;
  }

  // ---------------------------------------------------------------------------
  // theme_metrics

  lemma {:induction false} StrLtIsStrictTotal()
    ensures StrictTotalOrder(StrLt)
  {
    forall a ensures !StrLt(a, a) { StrLtIrreflexive(a); }
    forall a, b, c | StrLt(a, b) && StrLt(b, c) ensures StrLt(a, c) { StrLtTransitive(a, b, c); }
    forall a, b | a != b ensures StrLt(a, b) || StrLt(b, a) { StrLtTotal(a, b); }
  }

  /** The `theme` column. */
  function Themes(t: seq<Themed>): (r: seq<string>)
    ensures |r| == |t| && forall i :: 0 <= i < |t| ==> r[i] == t[i].theme
  {
    if t == [] then [] else [t[0].theme] + Themes(t[1..])
  }

  /** The distinct themes in code-point order: the groups of `groupby("theme")`. */
  function ThemeKeys(t: seq<Themed>): (ks: seq<string>)
    ensures Distinct(ks)
    ensures forall k :: k in ks <==> k in Themes(t)
  {
    StrLtIsStrictTotal();
    var ks := SortedDistinct(Themes(t), StrLt);
    StrictlySortedIsDistinct(ks, StrLt);
    ks
  }

  lemma {:induction false} InThemes(t: seq<Themed>, k: string)
    requires k in Themes(t)
    ensures exists x :: x in t && x.theme == k
  {
    var i :| 0 <= i < |t| && Themes(t)[i] == k;
    assert t[i] in t;
  }

  /** The metric rows of the keys `ks`, in key order. */
  function MetricsOf(t: seq<Themed>, ks: seq<string>): (ms: seq<ThemeMetric>)
    requires forall k :: k in ks ==> k in Themes(t)
    ensures |ms| == |ks|
  {
    if ks == [] then []
    else
      InThemes(t, ks[0]);
      [Metric(t, ks[0])] + MetricsOf(t, ks[1..])
  }

  /** Whether `a` may stand before `b` in the descending order of scores, with
      undefined scores last. */
  predicate Before(a: ThemeMetric, b: ThemeMetric) {
    match (a.priorityScore, b.priorityScore)
    case (Some(x), Some(y)) => x >= y
    case (Some(_), None) => true
    case (None, None) => true
    case (None, Some(_)) => false
  }

  predicate SortedByPriority(ms: seq<ThemeMetric>) {
    forall i, j :: 0 <= i < j < |ms| ==> Before(ms[i], ms[j])
  }

  /** Inserts `x` after every row that may stand before it. */
  function Insert(x: ThemeMetric, s: seq<ThemeMetric>): (r: seq<ThemeMetric>)
    requires SortedByPriority(s)
    ensures SortedByPriority(r)
    ensures multiset(r) == multiset(s) + multiset{x}
  {
    if s == [] then [x]
    else if Before(s[0], x) then
      var rest := Insert(x, s[1..]);
      InsertAfterHead(x, s, rest);
      [s[0]] + rest
    else
      InsertAtHead(x, s);
      [x] + s
  }

  lemma {:induction false} InsertAfterHead(x: ThemeMetric, s: seq<ThemeMetric>, rest: seq<ThemeMetric>)
    requires s != [] && SortedByPriority(s) && Before(s[0], x)
    requires SortedByPriority(rest) && multiset(rest) == multiset(s[1..]) + multiset{x}
    ensures SortedByPriority([s[0]] + rest)
    ensures multiset([s[0]] + rest) == multiset(s) + multiset{x}
  {
    assert s == [s[0]] + s[1..];
    forall j | 0 <= j < |rest| ensures Before(s[0], rest[j]) {
      assert rest[j] in multiset(rest);
      if rest[j] != x {
        assert rest[j] in multiset(s[1..]);
        var k :| 0 <= k < |s[1..]| && s[1..][k] == rest[j];
        assert s[k + 1] == rest[j];
      }
    }
    var r := [s[0]] + rest;
    forall i, j | 0 <= i < j < |r| ensures Before(r[i], r[j]) {
      if i == 0 {
        assert r[j] == rest[j - 1];
      } else {
        assert r[i] == rest[i - 1] && r[j] == rest[j - 1];
      }
    }
  }

  lemma {:induction false} InsertAtHead(x: ThemeMetric, s: seq<ThemeMetric>)
    requires s != [] && SortedByPriority(s) && !Before(s[0], x)
    ensures SortedByPriority([x] + s)
  {
    var r := [x] + s;
    forall i, j | 0 <= i < j < |r| ensures Before(r[i], r[j]) {
      if i == 0 {
        assert r[j] == s[j - 1];
        assert j - 1 == 0 || Before(s[0], s[j - 1]);
      } else {
        assert r[i] == s[i - 1] && r[j] == s[j - 1];
      }
    }
  }

  /** `sort_values("priority_score", ascending=False)`: descending scores,
      undefined scores last, ties in table order. */
  function SortByPriority(ms: seq<ThemeMetric>): (r: seq<ThemeMetric>)
    ensures SortedByPriority(r)
    ensures multiset(r) == multiset(ms)
  {
    if ms == [] then []
    else
      assert ms == ms[..|ms| - 1] + [ms[|ms| - 1]];
      Insert(ms[|ms| - 1], SortByPriority(ms[..|ms| - 1]))
  }

  /** `theme_metrics(df)`. */
  function ThemeMetrics(t: seq<Themed>): (ms: seq<ThemeMetric>)
    ensures |ms| == |ThemeKeys(t)|
    ensures SortedByPriority(ms)
    ensures multiset(ms) == multiset(MetricsOf(t, ThemeKeys(t)))
  {
    var ks := ThemeKeys(t);
    var u := MetricsOf(t, ks);
    var r := SortByPriority(u);
    assert |r| == |multiset(r)| == |multiset(u)| == |u|;
    r
  }

  function SumCounts(ms: seq<ThemeMetric>): nat {
    if ms == [] then 0 else ms[0].feedbackCount + SumCounts(ms[1..])
  }

  function MetricThemes(ms: seq<ThemeMetric>): (r: seq<string>)
    ensures |r| == |ms| && forall i :: 0 <= i < |ms| ==> r[i] == ms[i].theme
  {
    if ms == [] then [] else [ms[0].theme] + MetricThemes(ms[1..])
  }

  lemma {:induction false} SumCountsAppend(a: seq<ThemeMetric>, b: seq<ThemeMetric>)
    ensures SumCounts(a + b) == SumCounts(a) + SumCounts(b)
  {
    if a == [] {
      assert a + b == b;
    } else {
      assert (a + b)[1..] == a[1..] + b;
      SumCountsAppend(a[1..], b);
    }
  }

  lemma {:induction false} InsertCounts(x: ThemeMetric, s: seq<ThemeMetric>)
    requires SortedByPriority(s)
    ensures SumCounts(Insert(x, s)) == SumCounts(s) + x.feedbackCount
  {
    if s != [] && Before(s[0], x) {
      assert SortedByPriority(s[1..]);
      InsertCounts(x, s[1..]);
      assert Insert(x, s) == [s[0]] + Insert(x, s[1..]);
    } else if s != [] {
      assert Insert(x, s) == [x] + s;
    }
  }

  lemma {:induction false} InsertThemes(x: ThemeMetric, s: seq<ThemeMetric>)
    requires SortedByPriority(s)
    ensures multiset(MetricThemes(Insert(x, s))) == multiset(MetricThemes(s)) + multiset{x.theme}
  {
    if s != [] && Before(s[0], x) {
      assert SortedByPriority(s[1..]);
      InsertThemes(x, s[1..]);
      var rest := Insert(x, s[1..]);
      assert Insert(x, s) == [s[0]] + rest;
      assert MetricThemes([s[0]] + rest) == [s[0].theme] + MetricThemes(rest);
      assert MetricThemes(s) == [s[0].theme] + MetricThemes(s[1..]);
    } else if s != [] {
      assert Insert(x, s) == [x] + s;
      assert MetricThemes([x] + s) == [x.theme] + MetricThemes(s);
    }
  }

  lemma {:induction false} MetricThemesAppend(a: seq<ThemeMetric>, x: ThemeMetric)
    ensures MetricThemes(a + [x]) == MetricThemes(a) + [x.theme]
  {
  }

  lemma {:induction false} SortUnfold(ms: seq<ThemeMetric>)
    requires ms != []
    ensures ms == ms[..|ms| - 1] + [ms[|ms| - 1]]
    ensures SortByPriority(ms) == Insert(ms[|ms| - 1], SortByPriority(ms[..|ms| - 1]))
  {
  }

  lemma {:induction false} SortCounts(ms: seq<ThemeMetric>)
    ensures SumCounts(SortByPriority(ms)) == SumCounts(ms)
  {
    if ms != [] {
      var init := ms[..|ms| - 1];
      var x := ms[|ms| - 1];
      SortUnfold(ms);
      SortCounts(init);
      InsertCounts(x, SortByPriority(init));
      SumCountsAppend(init, [x]);
    }
  }

  lemma {:induction false} SortThemes(ms: seq<ThemeMetric>)
    ensures multiset(MetricThemes(SortByPriority(ms))) == multiset(MetricThemes(ms))
  {
    if ms != [] {
      var init := ms[..|ms| - 1];
      var x := ms[|ms| - 1];
      SortUnfold(ms);
      SortThemes(init);
      InsertThemes(x, SortByPriority(init));
      MetricThemesAppend(init, x);
    }
  }

  lemma {:induction false} MetricsOfSums(t: seq<Themed>, ks: seq<string>)
    requires forall k :: k in ks ==> k in Themes(t)
    ensures SumCounts(MetricsOf(t, ks)) == CountAll(t, ThemeOf, ks)
    ensures MetricThemes(MetricsOf(t, ks)) == ks
  {
    if ks != [] {
      MetricsOfSums(t, ks[1..]);
    }
  }

  /** `theme_metrics` has one row per distinct theme, and the counts of its
      rows add up to the number of rows of the table. */
  lemma {:induction false} ThemeMetricsPartition(t: seq<Themed>)
    ensures multiset(MetricThemes(ThemeMetrics(t))) == multiset(ThemeKeys(t))
    ensures SumCounts(ThemeMetrics(t)) == |t|
  {
    var ks := ThemeKeys(t);
    MetricsOfSums(t, ks);
    SortCounts(MetricsOf(t, ks));
    SortThemes(MetricsOf(t, ks));
    forall x | x in t ensures ThemeOf(x) in ks {
      var i :| 0 <= i < |t| && t[i] == x;
      assert Themes(t)[i] == x.theme;
    }
    PartitionSizes(t, ThemeOf, ks);
  }

  lemma {:induction false} MetricsOfRows(t: seq<Themed>, ks: seq<string>)
    requires forall k :: k in ks ==> k in Themes(t)
    ensures forall m :: m in MetricsOf(t, ks) ==> m.theme in ks && m == Metric(t, m.theme)
  {
    if ks != [] {
      MetricsOfRows(t, ks[1..]);
    }
  }

  /** Each row of `theme_metrics` is the metric row of a theme of the table:
      the count of its rows, the mean of their present ratings, the share of
      them rated at most 2, and the score made of these. */
  lemma {:induction false} ThemeMetricsRows(t: seq<Themed>, m: ThemeMetric)
    requires m in ThemeMetrics(t)
    ensures exists x :: x in t && x.theme == m.theme
    ensures m == Metric(t, m.theme)
  {
    var ks := ThemeKeys(t);
    MetricsOfRows(t, ks);
    assert m in multiset(MetricsOf(t, ks));
    InThemes(t, m.theme);
  }

  // ---------------------------------------------------------------------------
  // exec_summary_and_actions

  /** `df.head(n)`: the first `n` rows, or for negative `n` all but the last
      `-n`. */
  function Head<T>(s: seq<T>, n: int): (r: seq<T>)
    ensures n >= 0 ==> |r| == if n < |s| then n else |s|
    ensures n < 0 ==> |r| == if -n < |s| then |s| + n else 0
    ensures |r| <= |s| && r == s[..|r|]
  {
    if n >= 0 then Take(s, n)
    else if -n < |s| then s[..|s| + n]
    else []
  }

  function TextsOf(g: seq<Themed>): (r: seq<string>)
    ensures |r| == |g| && forall i :: 0 <= i < |g| ==> r[i] == g[i].row.text
  {
    if g == [] then [] else [g[0].row.text] + TextsOf(g[1..])
  }

  /** `df[df["theme"] == theme]["text"].head(3)`. */
  function Evidence(t: seq<Themed>, theme: string): (r: seq<string>)
    ensures |r| <= 3 && |r| <= |Select(t, ThemeOf, theme)| && r == TextsOf(Select(t, ThemeOf, theme))[..|r|]
  {
    Take(TextsOf(Select(t, ThemeOf, theme)), 3)
  }

  /** Every evidence text is the text of a row of that theme. */
  lemma {:induction false} EvidenceOfTheme(t: seq<Themed>, theme: string)
    ensures forall e :: e in Evidence(t, theme) ==> exists x :: x in t && x.theme == theme && x.row.text == e
  {
    var g := Select(t, ThemeOf, theme);
    forall e | e in Evidence(t, theme) ensures exists x :: x in t && x.theme == theme && x.row.text == e {
      var i :| 0 <= i < |Evidence(t, theme)| && Evidence(t, theme)[i] == e;
      assert g[i] in g;
    }
  }

  /** The summary request: the metric rows of the top themes and their
      evidence; None when the request raises. */
  type SummaryChat = (seq<ThemeMetric>, seq<seq<string>>) -> Option<string>

  /** The evidence loop: for each top theme in order, its first texts. */
  method CollectEvidence(t: seq<Themed>, top: seq<ThemeMetric>) returns (evidence: seq<seq<string>>)
    ensures |evidence| == |top| && forall i :: 0 <= i < |top| ==> evidence[i] == Evidence(t, top[i].theme)
  {
    evidence := [];
    var i := 0;
    while i < |top|
      invariant 0 <= i <= |top|
      invariant |evidence| == i && forall j :: 0 <= j < i ==> evidence[j] == Evidence(t, top[j].theme)
    {
      evidence := evidence + [Evidence(t, top[i].theme)];
      i := i + 1;
    }
  }

  /** `exec_summary_and_actions(df, top_n)` with the chat service as a
      parameter. `top` and `evidence` are what the request is made of; the
      formatting of the prompt is not modelled. */
  method ExecSummaryAndActions(t: seq<Themed>, topN: int, chat: SummaryChat)
    returns (summary: Option<string>, top: seq<ThemeMetric>, evidence: seq<seq<string>>)
    ensures top == Head(ThemeMetrics(t), topN)
    ensures |evidence| == |top| && forall i :: 0 <= i < |top| ==> evidence[i] == Evidence(t, top[i].theme)
    ensures chat(top, evidence).None? ==> summary.None?
    ensures chat(top, evidence).Some? ==> summary == Some(Strip(chat(top, evidence).value))
  {
    top := Head(ThemeMetrics(t), topN);
    evidence := CollectEvidence(t, top);
    var reply := chat(top, evidence);
    if reply.None? {
      summary := None;
    } else {
      summary := Some(Strip(reply.value));
    }
  }

  /** The themes of the summary are the first `n` of the ranking, so none of
      the themes left out ranks strictly above one that is in. */
  lemma {:induction false} TopThemesRankFirst(t: seq<Themed>, n: int)
    ensures var ms := ThemeMetrics(t); var top := Head(ms, n);
            forall i, j :: 0 <= i < |top| <= j < |ms| ==> Before(top[i], ms[j])
  {
  }
}
