/** `label_clusters_with_llm`: one chat request per cluster, built from the
    first ten texts of the cluster, and the reply cut down to a short label. */
module Label {
  import opened Wrappers
  import opened Text
  import opened Sorting
  import opened Groups
  import opened Records

  // ---------------------------------------------------------------------------
  // The label of one reply

  /** `" ".join(reply.strip().split()[:5])`: its tokens are the first five
      tokens of the reply. */
  function ThemeLabel(reply: string): (l: string)
    ensures Split(l) == Take(Split(reply), 5)
  {
    var ws := Take(Split(Strip(reply)), 5);
    SplitStrip(reply);
    TakeWords(Split(reply), 5);
    SplitJoin(ws);
    Join(ws)
  }

  lemma {:induction false} TakeWords(ws: seq<string>, n: nat)
    requires forall w :: w in ws ==> IsWord(w)
    ensures forall w :: w in Take(ws, n) ==> IsWord(w)
  {
  }

  /** A label is the single-space join of the first five tokens of the reply. */
  lemma {:induction false} LabelIsJoin(reply: string)
    ensures ThemeLabel(reply) == Join(Take(Split(reply), 5))
  {
    SplitStrip(reply);
  }

  /** A label has at most five tokens, no leading or trailing whitespace, and
      its tokens are joined by single spaces. */
  lemma {:induction false} LabelShape(reply: string)
    ensures |Split(ThemeLabel(reply))| <= 5
    ensures Strip(ThemeLabel(reply)) == ThemeLabel(reply)
    ensures Join(Split(ThemeLabel(reply))) == ThemeLabel(reply)
  {
    LabelIsJoin(reply);
    var ws := Take(Split(reply), 5);
    TakeWords(Split(reply), 5);
    SplitJoin(ws);
    JoinIsStripped(ws);
  }

  /** A reply of at most five tokens keeps all of them. */
  lemma {:induction false} ShortReplyKept(reply: string)
    requires |Split(reply)| <= 5
    ensures ThemeLabel(reply) == Join(Split(reply))
  {
    SplitStrip(reply);
  }

  /** An all-whitespace reply gives the empty label. */
  lemma {:induction false} BlankReply(reply: string)
    requires !HasText(reply)
    ensures ThemeLabel(reply) == ""
  {
    assert Strip(reply) == "";
    assert TrimStart("") == "";
  }

  /** Cutting a label down again changes nothing. */
  lemma {:induction false} LabelIdempotent(reply: string)
    ensures ThemeLabel(ThemeLabel(reply)) == ThemeLabel(reply)
  {
    var l := ThemeLabel(reply);
    LabelShape(reply);
  }

  // ---------------------------------------------------------------------------
  // The loop over the clusters

  /** The chat service: the reply to a request listing the example texts, or
      None when the request raises. */
  type Chat = seq<string> -> Option<string>

  function ClusterOf(x: Clustered): nat {
    x.clusterId
  }

  function Texts(s: seq<Clustered>): (r: seq<string>)
    ensures |r| == |s| && forall i :: 0 <= i < |s| ==> r[i] == s[i].row.text
  {
    if s == [] then [] else [s[0].row.text] + Texts(s[1..])
  }

  /** The distinct cluster ids in ascending order: what `groupby("cluster_id")`
      iterates over. */
  function ClusterKeys(t: seq<Clustered>): (ks: seq<nat>)
    ensures Distinct(ks)
  {
    NatLtIsStrictTotal();
    var ks := SortedDistinct(ClusterIds(t), NatLt);
    StrictlySortedIsDistinct(ks, NatLt);
    ks
  }

  /** The `cluster_id` column. */
  function ClusterIds(t: seq<Clustered>): (ids: seq<nat>)
    ensures |ids| == |t| && forall i :: 0 <= i < |t| ==> ids[i] == t[i].clusterId
  {
    if t == [] then [] else [t[0].clusterId] + ClusterIds(t[1..])
  }

  /** The keys are the cluster ids present in the table. */
  lemma {:induction false} ClusterKeysMembers(t: seq<Clustered>)
    ensures forall c :: c in ClusterKeys(t) <==> exists x :: x in t && x.clusterId == c
  {
    NatLtIsStrictTotal();
    var ids := ClusterIds(t);
    forall c ensures c in ids <==> exists x :: x in t && x.clusterId == c {
      if c in ids {
        var i :| 0 <= i < |ids| && ids[i] == c;
        assert t[i] in t;
      }
      if exists x :: x in t && x.clusterId == c {
        var x :| x in t && x.clusterId == c;
        var i :| 0 <= i < |t| && t[i] == x;
        assert ids[i] == c;
      }
    }
  }

  /** `group["text"].head(10)`: the first ten texts of the cluster, in table
      order. */
  function Examples(t: seq<Clustered>, c: nat): (r: seq<string>)
    ensures |r| <= 10 && |r| <= |Select(t, ClusterOf, c)| && r == Texts(Select(t, ClusterOf, c))[..|r|]
  {
    Take(Texts(Select(t, ClusterOf, c)), 10)
  }

  /** Every text a request lists is the text of a row of that cluster. */
  lemma {:induction false} ExamplesOfCluster(t: seq<Clustered>, c: nat)
    ensures forall e :: e in Examples(t, c) ==> exists x :: x in t && x.clusterId == c && x.row.text == e
  {
    var g := Select(t, ClusterOf, c);
    forall e | e in Examples(t, c) ensures exists x :: x in t && x.clusterId == c && x.row.text == e {
      var i :| 0 <= i < |Examples(t, c)| && Examples(t, c)[i] == e;
      assert g[i] in g;
    }
  }

  /** The labels the loop stores, from `m` on, for the clusters `cs` in order;
      None when a request raises. */
  function LabelFrom(t: seq<Clustered>, chat: Chat, cs: seq<nat>, m: map<nat, string>): (r: Option<map<nat, string>>)
    ensures r.Some? <==> forall c :: c in cs ==> chat(Examples(t, c)).Some?
  {
    if cs == [] then Some(m)
    else
      assert forall c :: c in cs <==> c == cs[0] || c in cs[1..];
      match chat(Examples(t, cs[0]))
      case None => None
      case Some(reply) => LabelFrom(t, chat, cs[1..], m[cs[0] := ThemeLabel(reply)])
  }

  /** The requests the loop sends for the clusters `cs`: one per cluster, in
      order, up to and including the first that raises. */
  function RequestsFrom(t: seq<Clustered>, chat: Chat, cs: seq<nat>): (rs: seq<seq<string>>)
    ensures |rs| <= |cs|
  {
    if cs == [] then []
    else [Examples(t, cs[0])] + (if chat(Examples(t, cs[0])).None? then [] else RequestsFrom(t, chat, cs[1..]))
  }

  /** `label_clusters_with_llm(df)`, with the chat service as a parameter;
      `requests` lists the example texts of each request sent. */
  method LabelClustersWithLlm(t: seq<Clustered>, chat: Chat) returns (mapping: Option<map<nat, string>>, requests: seq<seq<string>>)
    ensures mapping == LabelFrom(t, chat, ClusterKeys(t), map[])
    ensures requests == RequestsFrom(t, chat, ClusterKeys(t))
  {
    mapping, requests := LabelEach(t, chat, ClusterKeys(t));
  }

  /** The loop of `label_clusters_with_llm` over the clusters `cs`, in order. */
  method LabelEach(t: seq<Clustered>, chat: Chat, cs: seq<nat>) returns (mapping: Option<map<nat, string>>, requests: seq<seq<string>>)
    ensures mapping == LabelFrom(t, chat, cs, map[])
    ensures requests == RequestsFrom(t, chat, cs)
  {
    var m: map<nat, string> := map[];
    requests := [];
    var i := 0;
    ghost var todo := cs;
    assert cs[i..] == cs;
    while i < |cs|
      invariant 0 <= i <= |cs| && todo == cs[i..]
      invariant LabelFrom(t, chat, cs, map[]) == LabelFrom(t, chat, todo, m)
      invariant RequestsFrom(t, chat, cs) == requests + RequestsFrom(t, chat, todo)
      decreases |cs| - i
    {
      var examples := Examples(t, cs[i]);
      assert todo[0] == cs[i] && todo[1..] == cs[i + 1..];
      LoopStep(t, chat, todo, m, requests);
      requests := requests + [examples];
      var reply := chat(examples);
      if reply.None? {
        mapping := None;
        return;
      }
      m := m[cs[i] := ThemeLabel(reply.value)];
      i := i + 1;
      todo := todo[1..];
    }
    assert requests + [] == requests;
    mapping := Some(m);
  }

  /** One turn of the loop: the request for the next cluster is sent, and on
      a reply its label is stored. */
  lemma {:induction false} LoopStep(t: seq<Clustered>, chat: Chat, todo: seq<nat>, m: map<nat, string>, requests: seq<seq<string>>)
    requires todo != []
    ensures var e := Examples(t, todo[0]);
            && requests + RequestsFrom(t, chat, todo)
               == (requests + [e]) + (if chat(e).None? then [] else RequestsFrom(t, chat, todo[1..]))
            && (chat(e).None? ==> LabelFrom(t, chat, todo, m) == None)
            && (chat(e).Some? ==>
                  LabelFrom(t, chat, todo, m) == LabelFrom(t, chat, todo[1..], m[todo[0] := ThemeLabel(chat(e).value)]))
  {
  }

  // ---------------------------------------------------------------------------
  // What the loop produces

  /** The mapping has one key per cluster, besides those it started with. */
  lemma {:induction false} LabelFromKeys(t: seq<Clustered>, chat: Chat, cs: seq<nat>, m: map<nat, string>)
    requires LabelFrom(t, chat, cs, m).Some?
    ensures forall c :: c in LabelFrom(t, chat, cs, m).value <==> c in m || c in cs
  {
    if cs != [] {
      var reply := chat(Examples(t, cs[0])).value;
      LabelFromKeys(t, chat, cs[1..], m[cs[0] := ThemeLabel(reply)]);
      assert forall c :: c in cs <==> c == cs[0] || c in cs[1..];
    }
  }

  /** Each cluster's label is the cut-down reply to its own request. */
  lemma {:induction false} LabelFromValues(t: seq<Clustered>, chat: Chat, cs: seq<nat>, m: map<nat, string>)
    requires Distinct(cs)
    requires LabelFrom(t, chat, cs, m).Some?
    ensures forall c :: c in cs ==> chat(Examples(t, c)).Some? && c in LabelFrom(t, chat, cs, m).value
                                    && LabelFrom(t, chat, cs, m).value[c] == ThemeLabel(chat(Examples(t, c)).value)
  {
    if cs != [] {
      var reply := chat(Examples(t, cs[0])).value;
      var m' := m[cs[0] := ThemeLabel(reply)];
      assert Distinct(cs[1..]);
      LabelFromValues(t, chat, cs[1..], m');
      LabelFromKeep(t, chat, cs[1..], m', cs[0]);
    }
  }

  /** A key that is not among the clusters still to do keeps its label. */
  lemma {:induction false} LabelFromKeep(t: seq<Clustered>, chat: Chat, cs: seq<nat>, m: map<nat, string>, c: nat)
    requires c in m && c !in cs
    requires LabelFrom(t, chat, cs, m).Some?
    ensures c in LabelFrom(t, chat, cs, m).value && LabelFrom(t, chat, cs, m).value[c] == m[c]
  {
    if cs != [] {
      var reply := chat(Examples(t, cs[0])).value;
      assert cs[0] != c;
      LabelFromKeep(t, chat, cs[1..], m[cs[0] := ThemeLabel(reply)], c);
    }
  }

  /** One request per cluster, in ascending cluster order, each listing that
      cluster's examples; all of them are sent when none raises. */
  lemma {:induction false} RequestsPerCluster(t: seq<Clustered>, chat: Chat, cs: seq<nat>)
    ensures var rs := RequestsFrom(t, chat, cs);
            forall j :: 0 <= j < |rs| ==> rs[j] == Examples(t, cs[j])
    ensures (forall c :: c in cs ==> chat(Examples(t, c)).Some?) ==> |RequestsFrom(t, chat, cs)| == |cs|
  {
    if cs != [] {
      RequestsPerCluster(t, chat, cs[1..]);
      assert cs[0] in cs;
      assert forall c :: c in cs[1..] ==> c in cs;
    }
  }

  /** `label_clusters_with_llm` as a whole: when it returns, the mapping has
      exactly one key per distinct cluster id of the table, and every label is
      the cut-down reply to that cluster's request, of at most five tokens. */
  lemma {:induction false} LabelClusters(t: seq<Clustered>, chat: Chat)
    requires LabelFrom(t, chat, ClusterKeys(t), map[]).Some?
    ensures var r := LabelFrom(t, chat, ClusterKeys(t), map[]).value;
            && (forall c :: c in r <==> exists x :: x in t && x.clusterId == c)
            && (forall c :: c in r ==> chat(Examples(t, c)).Some? && r[c] == ThemeLabel(chat(Examples(t, c)).value))
            && (forall c :: c in r ==> |Split(r[c])| <= 5)
  {
    var cs := ClusterKeys(t);
    ClusterKeysMembers(t);
    LabelFromKeys(t, chat, cs, map[]);
    LabelFromValues(t, chat, cs, map[]);
    var r := LabelFrom(t, chat, cs, map[]).value;
    forall c | c in r ensures |Split(r[c])| <= 5 {
      LabelShape(chat(Examples(t, c)).value);
    }
  }
}
