/** The script-level rules of the dashboard: the empty-table stop, the
    sentiment of a rating, the default theme names, the join of clusters to
    themes, the weekly trend counts and the theme deep dive, and the order in
    which the script runs the pipeline stages. */
module App {
  import opened Wrappers
  import opened Text
  import opened Sorting
  import opened Groups
  import opened Records
  import opened Clean
  import opened Embed
  import opened Cluster
  import opened Label
  import opened Insights

  // ---------------------------------------------------------------------------
  // Sentiment

  /** The sentiment of a rating: unknown without one, negative up to 2,
      neutral at exactly 3 and positive for every other value. */
  function Sentiment(r: Option<real>): (s: string)
    ensures s == "unknown" <==> r.None?
    ensures s == "negative" <==> r.Some? && r.value <= 2.0
    ensures s == "neutral" <==> r.Some? && r.value == 3.0
    ensures s == "positive" <==> r.Some? && r.value > 2.0 && r.value != 3.0
  {
    if r.None? then "unknown"
    else if r.value <= 2.0 then "negative"
    else if r.value == 3.0 then "neutral"
    else "positive"
  }

  /** The sentiment label and the negative indicator of the theme metrics
      agree on which rows are negative. */
  lemma {:induction false} SentimentMatchesIndicator(r: Option<real>)
    ensures Sentiment(r) == "negative" <==> IsNegative(r) == 1
  {
  }

  /** The rows of the cleaned table with their sentiment and cluster label. */
  function WithClusters(df: seq<Row>, labels: seq<nat>): (t: seq<Clustered>)
    requires |labels| == |df|
    ensures |t| == |df|
    ensures forall i :: 0 <= i < |df| ==> t[i] == Clustered(df[i], Sentiment(df[i].rating), labels[i])
  {
    if df == [] then []
    else [Clustered(df[0], Sentiment(df[0].rating), labels[0])] + WithClusters(df[1..], labels[1..])
  }

  /** The `text` column of the cleaned table. */
  function RowTexts(df: seq<Row>): (r: seq<string>)
    ensures |r| == |df| && forall i :: 0 <= i < |df| ==> r[i] == df[i].text
  {
    if df == [] then [] else [df[0].text] + RowTexts(df[1..])
  }

  // ---------------------------------------------------------------------------
  // Theme names and the theme join

  /** `f"Theme {c}"`. */
  function DefaultThemeName(c: nat): (n: string)
    ensures |n| > 6 && n[..6] == "Theme " && AllDigits(n[6..]) && DigitsValue(n[6..]) == c
  {
    NatToStringRoundTrip(c);
    var n := "Theme " + NatToString(c);
    assert n[6..] == NatToString(c);
    n
  }

  /** Different clusters get different default names. */
  lemma {:induction false} DefaultNamesDistinct(a: nat, b: nat)
    requires DefaultThemeName(a) == DefaultThemeName(b)
    ensures a == b
  {
    assert NatToString(a) == DefaultThemeName(a)[6..];
    assert NatToString(b) == DefaultThemeName(b)[6..];
    NatToStringInjective(a, b);
  }

  /** The default mapping: one entry per distinct cluster id of the table. */
  function DefaultThemeMap(t: seq<Clustered>): (m: map<nat, string>)
    ensures forall c :: c in m ==> m[c] == DefaultThemeName(c)
  {
    map c | c in ClusterKeys(t) :: DefaultThemeName(c)
  }

  /** The default mapping has exactly the cluster ids present as keys. */
  lemma {:induction false} DefaultThemeMapKeys(t: seq<Clustered>)
    ensures forall c :: c in DefaultThemeMap(t) <==> exists x :: x in t && x.clusterId == c
  {
    ClusterKeysMembers(t);
  }

  /** Every row's cluster id is a key of `m`. */
  predicate Covers(m: map<nat, string>, t: seq<Clustered>) {
    forall x :: x in t ==> x.clusterId in m
  }

  /** `df["theme"] = df["cluster_id"].map(cluster_to_theme)`. */
  function AssignThemes(t: seq<Clustered>, m: map<nat, string>): (r: seq<Themed>)
    requires Covers(m, t)
    ensures |r| == |t|
    ensures forall i :: 0 <= i < |t| ==>
              r[i] == Themed(t[i].row, t[i].sentiment, t[i].clusterId, m[t[i].clusterId])
  {
    if t == [] then []
    else
      assert t[0] in t;
      [Themed(t[0].row, t[0].sentiment, t[0].clusterId, m[t[0].clusterId])] + AssignThemes(t[1..], m)
  }

  /** Rows of the same cluster get the same theme. */
  lemma {:induction false} SameClusterSameTheme(t: seq<Clustered>, m: map<nat, string>, i: nat, j: nat)
    requires Covers(m, t) && i < |t| && j < |t|
    requires t[i].clusterId == t[j].clusterId
    ensures AssignThemes(t, m)[i].theme == AssignThemes(t, m)[j].theme
  {
  }

  /** With the default names, two rows share a theme exactly when they share
      a cluster. */
  lemma {:induction false} DefaultThemesFollowClusters(t: seq<Clustered>, i: nat, j: nat)
    requires i < |t| && j < |t|
    ensures Covers(DefaultThemeMap(t), t)
    ensures var r := AssignThemes(t, DefaultThemeMap(t));
            r[i].theme == r[j].theme <==> t[i].clusterId == t[j].clusterId
  {
    DefaultThemeMapKeys(t);
    var m := DefaultThemeMap(t);
    assert forall x :: x in t ==> x.clusterId in m;
    var r := AssignThemes(t, m);
    if r[i].theme == r[j].theme {
      DefaultNamesDistinct(t[i].clusterId, t[j].clusterId);
    }
  }

  /** A mapping returned by the labelling loop covers every row. */
  lemma {:induction false} LabelsCover(t: seq<Clustered>, chat: Chat)
    requires LabelFrom(t, chat, ClusterKeys(t), map[]).Some?
    ensures Covers(LabelFrom(t, chat, ClusterKeys(t), map[]).value, t)
  {
    LabelClusters(t, chat);
  }

  // ---------------------------------------------------------------------------
  // Weekly trend counts

  /** The group key of `groupby(["week", "theme"])`. */
  function TrendKey(x: Bucketed): (Option<int>, string) {
    (x.week, x.row.theme)
  }

  /** The order of the week labels: dated weeks in calendar order, and the
      label "NaT" of the undated rows after all of them. */
  predicate WeekLt(u: Option<int>, v: Option<int>) {
    u.Some? && (v.None? || u.value < v.value)
  }

  predicate KeyLt(a: (Option<int>, string), b: (Option<int>, string)) {
    WeekLt(a.0, b.0) || (a.0 == b.0 && StrLt(a.1, b.1))
  }

  lemma {:induction false} KeyLtIsStrictTotal()
    ensures StrictTotalOrder(KeyLt)
  {
    forall a: (Option<int>, string) ensures !KeyLt(a, a) {
      StrLtIrreflexive(a.1);
    }
    forall a: (Option<int>, string), b: (Option<int>, string), c: (Option<int>, string)
      | KeyLt(a, b) && KeyLt(b, c) ensures KeyLt(a, c)
    {
      if a.0 == b.0 && b.0 == c.0 {
        StrLtTransitive(a.1, b.1, c.1);
      }
    }
    forall a: (Option<int>, string), b: (Option<int>, string) | a != b ensures KeyLt(a, b) || KeyLt(b, a) {
      if a.0 == b.0 {
        StrLtTotal(a.1, b.1);
      }
    }
  }

  /** The `(week, theme)` column pair. */
  function BucketKeys(b: seq<Bucketed>): (r: seq<(Option<int>, string)>)
    ensures |r| == |b| && forall i :: 0 <= i < |b| ==> r[i] == TrendKey(b[i])
  {
    if b == [] then [] else [TrendKey(b[0])] + BucketKeys(b[1..])
  }

  /** The groups in key order. */
  function TrendKeys(b: seq<Bucketed>): (ks: seq<(Option<int>, string)>)
    ensures StrictlySorted(ks, KeyLt) && Distinct(ks)
    ensures forall k :: k in ks <==> k in BucketKeys(b)
  {
    KeyLtIsStrictTotal();
    var ks := SortedDistinct(BucketKeys(b), KeyLt);
    StrictlySortedIsDistinct(ks, KeyLt);
    ks
  }

  /** One row of the trend table. */
  datatype TrendRow = TrendRow(week: Option<int>, theme: string, size: nat)

  function TrendRowsOf(b: seq<Bucketed>, ks: seq<(Option<int>, string)>): (r: seq<TrendRow>)
    ensures |r| == |ks|
    ensures forall i :: 0 <= i < |ks| ==> (r[i].week, r[i].theme) == ks[i]
    ensures forall i :: 0 <= i < |ks| ==> r[i].size == |Select(b, TrendKey, ks[i])|
  {
    if ks == [] then []
    else [TrendRow(ks[0].0, ks[0].1, |Select(b, TrendKey, ks[0])|)] + TrendRowsOf(b, ks[1..])
  }

  /** `df2.groupby(["week", "theme"], as_index=False).size()`. */
  function TrendCounts(b: seq<Bucketed>): (r: seq<TrendRow>)
    ensures |r| == |TrendKeys(b)|
    ensures forall i :: 0 <= i < |r| ==> r[i].size == |Select(b, TrendKey, (r[i].week, r[i].theme))|
  {
    TrendRowsOf(b, TrendKeys(b))
  }

  /** The trend table is ordered by week, then theme, with one row per
      distinct pair. */
  lemma {:induction false} TrendOrdered(b: seq<Bucketed>)
    ensures var r := TrendCounts(b);
            forall i, j :: 0 <= i < j < |r| ==> KeyLt((r[i].week, r[i].theme), (r[j].week, r[j].theme))
  {
  }

  /** A key is a group of the table exactly when some row has it. */
  lemma {:induction false} TrendKeysPresent(b: seq<Bucketed>, k: (Option<int>, string))
    ensures k in TrendKeys(b) <==> exists x :: x in b && TrendKey(x) == k
  {
    if k in BucketKeys(b) {
      var j :| 0 <= j < |b| && BucketKeys(b)[j] == k;
      assert b[j] in b;
    }
    if exists x :: x in b && TrendKey(x) == k {
      var x :| x in b && TrendKey(x) == k;
      var j :| 0 <= j < |b| && b[j] == x;
      assert BucketKeys(b)[j] == k;
    }
  }

  /** Every row of the trend table is a pair present in the table and counts
      at least one row: missing pairs are absent, not zero. */
  lemma {:induction false} TrendRowsPresent(b: seq<Bucketed>)
    ensures var r := TrendCounts(b);
            forall i :: 0 <= i < |r| ==> r[i].size >= 1 && exists x :: x in b && TrendKey(x) == (r[i].week, r[i].theme)
  {
    var r := TrendCounts(b);
    var ks := TrendKeys(b);
    forall i | 0 <= i < |r| ensures r[i].size >= 1 && exists x :: x in b && TrendKey(x) == (r[i].week, r[i].theme) {
      TrendKeysPresent(b, ks[i]);
      assert ks[i] in ks;
      var x :| x in b && TrendKey(x) == ks[i];
      assert x in Select(b, TrendKey, ks[i]);
    }
  }

  /** Every pair present in the table has its row in the trend table. */
  lemma {:induction false} TrendRowsComplete(b: seq<Bucketed>)
    ensures var r := TrendCounts(b);
            forall x :: x in b ==> exists i :: 0 <= i < |r| && (r[i].week, r[i].theme) == TrendKey(x)
  {
    var r := TrendCounts(b);
    var ks := TrendKeys(b);
    forall x | x in b ensures exists i :: 0 <= i < |r| && (r[i].week, r[i].theme) == TrendKey(x) {
      TrendKeysPresent(b, TrendKey(x));
      var i :| 0 <= i < |ks| && ks[i] == TrendKey(x);
      assert (r[i].week, r[i].theme) == TrendKey(x);
    }
  }

  function SumSizes(r: seq<TrendRow>): nat {
    if r == [] then 0 else r[0].size + SumSizes(r[1..])
  }

  lemma {:induction false} SumSizesOf(b: seq<Bucketed>, ks: seq<(Option<int>, string)>)
    ensures SumSizes(TrendRowsOf(b, ks)) == CountAll(b, TrendKey, ks)
  {
    if ks != [] {
      SumSizesOf(b, ks[1..]);
      assert TrendRowsOf(b, ks)[1..] == TrendRowsOf(b, ks[1..]);
    }
  }

  /** The sizes of the trend table add up to the number of rows. */
  lemma {:induction false} TrendTotal(b: seq<Bucketed>)
    ensures SumSizes(TrendCounts(b)) == |b|
  {
    var ks := TrendKeys(b);
    SumSizesOf(b, ks);
    forall x | x in b ensures TrendKey(x) in ks {
      var i :| 0 <= i < |b| && b[i] == x;
      assert BucketKeys(b)[i] == TrendKey(x);
    }
    PartitionSizes(b, TrendKey, ks);
  }

  // ---------------------------------------------------------------------------
  // Theme deep dive

  /** The three figures of the deep dive; None shows as "N/A". The negative
      share is a percentage; its rounding for display is not modelled. */
  datatype DeepDiveView = DeepDiveView(count: nat, avgRating: Option<real>, negativePercent: Option<real>)

  /** The deep dive of the rows of `theme`. */
  function DeepDive(t: seq<Themed>, theme: string): (v: DeepDiveView)
    ensures v.count == |Select(t, ThemeOf, theme)|
    ensures v.avgRating.None? <==> v.negativePercent.None?
    ensures v.avgRating.None? <==> forall x :: x in t && x.theme == theme ==> x.row.rating.None?
    ensures v.avgRating.Some? ==>
              var g := Select(t, ThemeOf, theme);
              v.avgRating == MeanRating(g)
              && v.negativePercent == Some(100.0 * (NegativeCount(g) as real / |g| as real))
  {
    var g := Select(t, ThemeOf, theme);
    RatedCountZero(g);
    if RatedCount(g) == 0 then DeepDiveView(|g|, None, None)
    else DeepDiveView(|g|, MeanRating(g), Some(100.0 * (NegativeCount(g) as real / |g| as real)))
  }

  /** No rating is present exactly when the rated count is zero. */
  lemma {:induction false} RatedCountZero(g: seq<Themed>)
    ensures RatedCount(g) == 0 <==> forall x :: x in g ==> x.row.rating.None?
  {
    if g != [] {
      RatedCountZero(g[1..]);
      assert forall x :: x in g <==> x == g[0] || x in g[1..];
    }
  }

  /** The deep dive shows the same count and average as the metrics table,
      and the negative share as a percentage of all rows of the theme; when
      no rating is present the table's negative rate is 0 while the deep
      dive shows N/A. */
  lemma {:induction false} DeepDiveAgrees(t: seq<Themed>, theme: string)
    requires exists x :: x in t && x.theme == theme
    ensures var v := DeepDive(t, theme); var m := Metric(t, theme);
            && v.count == m.feedbackCount
            && v.avgRating == m.avgRating
            && (v.negativePercent.Some? ==> v.negativePercent.value == 100.0 * m.negativeRate)
            && (v.negativePercent.None? ==> m.negativeRate == 0.0)
  {
    var g := Select(t, ThemeOf, theme);
    var v := DeepDive(t, theme);
    if v.negativePercent.None? {
      assert RatedCount(g) == 0;
      assert NegativeCount(g) == 0;
    }
  }

  // ---------------------------------------------------------------------------
  // The script

  /** What the dashboard is built from. */
  datatype Analysis = Analysis(clustered: seq<Clustered>, themeMap: map<nat, string>, themed: seq<Themed>,
                               metrics: seq<ThemeMetric>, trend: seq<TrendRow>)

  /** Why the script stops: the empty-table warning ("No valid rows after
      cleaning."), an embedding request that raises, KMeans rejecting the
      cluster count, labels that do not line up with the rows, or a labelling
      request that raises. */
  datatype RunError = NoRows | EmbeddingFailed | ClusteringFailed(reason: string) | LabelsMismatch | LabellingFailed

  /** The rows of `clustered` are those of `df`, in order, with their
      sentiment. */
  predicate RowsOf(clustered: seq<Clustered>, df: seq<Row>) {
    |clustered| == |df| &&
    forall i :: 0 <= i < |df| ==> clustered[i].row == df[i] && clustered[i].sentiment == Sentiment(df[i].rating)
  }

  /** The theme mapping in force (the labelled one when labelling is switched
      on and a key is configured, the default one otherwise), the theme join
      through it, and the metrics and trend of the themed table. */
  predicate Presented(a: Analysis, useLlm: bool, hasKey: bool, chat: Chat) {
    && (!(useLlm && hasKey) ==> a.themeMap == DefaultThemeMap(a.clustered))
    && (useLlm && hasKey ==> LabelFrom(a.clustered, chat, ClusterKeys(a.clustered), map[]) == Some(a.themeMap))
    && Covers(a.themeMap, a.clustered)
    && a.themed == AssignThemes(a.clustered, a.themeMap)
    && a.metrics == ThemeMetrics(a.themed)
    && a.trend == TrendCounts(AddWeekBucket(a.themed))
  }

  /** Labelling is switched on, a key is configured and a chat request
      raises. */
  predicate LabelsFail(clustered: seq<Clustered>, useLlm: bool, hasKey: bool, chat: Chat)
    ensures LabelsFail(clustered, useLlm, hasKey, chat) <==>
              useLlm && hasKey && exists c :: c in ClusterKeys(clustered) && chat(Examples(clustered, c)).None?
  {
    useLlm && hasKey && LabelFrom(clustered, chat, ClusterKeys(clustered), map[]).None?
  }

  /** The script from the clustered table on: pick the theme mapping, join
      it, and compute the metrics and the weekly trend. It fails only when a
      labelling request raises. */
  method Present(clustered: seq<Clustered>, useLlm: bool, hasKey: bool, chat: Chat) returns (result: Result<Analysis, RunError>)
    ensures result.Success? ==> result.value.clustered == clustered && Presented(result.value, useLlm, hasKey, chat)
    ensures result.Failure? <==> LabelsFail(clustered, useLlm, hasKey, chat)
    ensures result.Failure? ==> result.error.LabellingFailed?
  {
    var themeMap := DefaultThemeMap(clustered);
    DefaultThemeMapKeys(clustered);
    if useLlm && hasKey {
      var mapping, _ := LabelClustersWithLlm(clustered, chat);
      if mapping.None? {
        return Failure(LabellingFailed);
      }
      LabelsCover(clustered, chat);
      themeMap := mapping.value;
    }
    var themed := AssignThemes(clustered, themeMap);
    result := Success(Analysis(clustered, themeMap, themed, ThemeMetrics(themed), TrendCounts(AddWeekBucket(themed))));
  }

  /** What embedding and clustering the rows of `df` yields: each row with
      its sentiment and the label KMeans gives its batched embedding, or
      nothing when an embedding request raises, KMeans rejects the cluster
      count or the labels do not line up with the rows. */
  function Clustering(df: seq<Row>, k: int, svc: Service, fit: KMeans): (r: Option<seq<Clustered>>)
    ensures EmbedAll(svc, Batches(RowTexts(df))).None? ==> r.None?
    ensures r.Some? ==> RowsOf(r.value, df)
    ensures r.Some? ==> EmbedAll(svc, Batches(RowTexts(df))).Some?
    ensures r.Some? ==>
              var labels := ClusterEmbeddings(EmbedAll(svc, Batches(RowTexts(df))).value, k, fit);
              labels.Success? && |labels.value| == |df| &&
              forall i :: 0 <= i < |df| ==> r.value[i].clusterId == labels.value[i]
  {
    var e := EmbedAll(svc, Batches(RowTexts(df)));
    if e.None? then None
    else
      var labels := ClusterEmbeddings(e.value, k, fit);
      if labels.Failure? || |labels.value| != |df| then None
      else Some(WithClusters(df, labels.value))
  }

  /** Embedding and clustering the texts of `df`, with the sentiment of
      each row: `embedCalls` are the batches sent to the embedding service.
      It fails when an embedding request raises, when KMeans rejects the
      cluster count, or when the labels do not line up with the rows. */
  method ClusterRows(df: seq<Row>, k: int, svc: Service, fit: KMeans)
    returns (result: Result<seq<Clustered>, RunError>, embedCalls: seq<seq<string>>)
    ensures embedCalls == CallsMade(svc, Batches(RowTexts(df)))
    ensures result.Success? ==> RowsOf(result.value, df)
    ensures result.Success? && KMeansSound(fit) ==>
              forall x :: x in result.value ==> x.clusterId < ClusterCount(|df|, k)
    ensures result.Success? <==> Clustering(df, k, svc, fit).Some?
    ensures result.Success? ==> result.value == Clustering(df, k, svc, fit).value
    ensures result.Failure? ==> !result.error.NoRows? && !result.error.LabellingFailed?
    ensures result.Failure? && result.error.EmbeddingFailed? <==> EmbedAll(svc, Batches(RowTexts(df))).None?
    ensures var e := EmbedAll(svc, Batches(RowTexts(df)));
            |df| >= 2 && k >= 1 && KMeansSound(fit) && e.Some? && |e.value| == |df| ==> result.Success?
  {
    var vectors;
    vectors, embedCalls := EmbedTexts(RowTexts(df), svc);
    if vectors.None? {
      return Failure(EmbeddingFailed), embedCalls;
    }
    if |vectors.value| >= 2 && k >= 1 {
      ClusterAccepted(vectors.value, k, fit);
      if KMeansSound(fit) {
        ClusterLabels(vectors.value, k, fit);
      }
    }
    var labels := ClusterEmbeddings(vectors.value, k, fit);
    if labels.Failure? {
      return Failure(ClusteringFailed(labels.error)), embedCalls;
    }
    if |labels.value| != |df| {
      return Failure(LabelsMismatch), embedCalls;
    }
    var clustered := WithClusters(df, labels.value);
    ClusterIdsBelow(df, vectors.value, k, fit, clustered);
    result := Success(clustered);
  }

  /** The script from the cleaned table `df` on: stop when it is empty,
      otherwise embed and cluster the texts, then present the themes. */
  method Analyze(df: seq<Row>, k: int, useLlm: bool, hasKey: bool, svc: Service, fit: KMeans, chat: Chat)
    returns (result: Result<Analysis, RunError>, embedCalls: seq<seq<string>>)
    ensures df == [] <==> result.Failure? && result.error.NoRows?
    ensures result.Failure? && result.error.EmbeddingFailed? <==> df != [] && EmbedAll(svc, Batches(RowTexts(df))).None?
    ensures df == [] ==> embedCalls == []
    ensures df != [] ==> embedCalls == CallsMade(svc, Batches(RowTexts(df)))
    ensures result.Success? ==> RowsOf(result.value.clustered, df)
    ensures result.Success? && KMeansSound(fit) ==>
              forall x :: x in result.value.clustered ==> x.clusterId < ClusterCount(|df|, k)
    ensures var e := EmbedAll(svc, Batches(RowTexts(df)));
            |df| >= 2 && k >= 1 && KMeansSound(fit) && e.Some? && |e.value| == |df| && !(useLlm && hasKey)
            ==> result.Success?
    ensures result.Success? <==> df != [] && Clustering(df, k, svc, fit).Some? && !LabelsFail(Clustering(df, k, svc, fit).value, useLlm, hasKey, chat)
    ensures result.Success? ==> result.value.clustered == Clustering(df, k, svc, fit).value
    ensures result.Success? ==> Presented(result.value, useLlm, hasKey, chat)
    ensures result.Failure? && result.error.LabellingFailed? <==>
              df != [] && Clustering(df, k, svc, fit).Some? && LabelsFail(Clustering(df, k, svc, fit).value, useLlm, hasKey, chat)
  {
    if df == [] {
      return Failure(NoRows), [];
    }
    var clustered;
    clustered, embedCalls := ClusterRows(df, k, svc, fit);
    if clustered.Failure? {
      return Failure(clustered.error), embedCalls;
    }
    result := Present(clustered.value, useLlm, hasKey, chat);
  }

  /** With a sound KMeans, every row's cluster id is below the clamped count. */
  lemma {:induction false} ClusterIdsBelow(df: seq<Row>, e: seq<Vector>, k: int, fit: KMeans, clustered: seq<Clustered>)
    requires ClusterEmbeddings(e, k, fit).Success?
    requires |ClusterEmbeddings(e, k, fit).value| == |df|
    requires clustered == WithClusters(df, ClusterEmbeddings(e, k, fit).value)
    ensures KMeansSound(fit) ==> forall x :: x in clustered ==> x.clusterId < ClusterCount(|df|, k)
  {
    if KMeansSound(fit) {
      ClusterLabels(e, k, fit);
      var labels := ClusterEmbeddings(e, k, fit).value;
      forall x | x in clustered ensures x.clusterId < ClusterCount(|df|, k) {
        var i :| 0 <= i < |clustered| && clustered[i] == x;
        assert labels[i] in labels;
      }
    }
  }

  // ---------------------------------------------------------------------------
  // Across the stages

  /** Normalising then cleaning leaves strictly increasing ids, each between
      1 and the number of input rows. */
  lemma {:induction false} NormalizedIdsAfterCleaning(t: seq<Row>, n: nat)
    requires |t| == n && forall i :: 0 <= i < n ==> t[i].id == i + 1
    ensures IdsIncreasing(CleanFeedback(t))
    ensures forall y :: y in CleanFeedback(t) ==> 1 <= y.id <= n
  {
    IdsStayIncreasing(t);
    IdsSubset(t);
    forall y | y in CleanFeedback(t) ensures 1 <= y.id <= n {
      var x :| x in t && x.id == y.id;
      var i :| 0 <= i < |t| && t[i] == x;
    }
  }
}
