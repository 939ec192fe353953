/** `embed_texts`: sends the texts to the embedding service in batches of at
    most 100 and concatenates the vectors it returns. */
module Embed {
  import opened Wrappers

  type Vector = seq<real>

  /** The service: one call on a batch of texts gives the vectors of the
      response, or None when the call raises. */
  type Service = seq<string> -> Option<seq<Vector>>

  const BatchSize: nat := 100

  /** The batches the loop sends, in order: `texts[i:i+100]` for
      `i` in `range(0, len(texts), 100)`. */
  function Batches(texts: seq<string>): (bs: seq<seq<string>>)
    ensures forall b :: b in bs ==> 0 < |b| <= BatchSize
    decreases |texts|
  {
    if texts == [] then []
    else
      var n := if |texts| < BatchSize then |texts| else BatchSize;
      [texts[..n]] + Batches(texts[n..])
  }

  function Flatten<T>(xss: seq<seq<T>>): seq<T> {
    if xss == [] then [] else xss[0] + Flatten(xss[1..])
  }

  /** The calls the loop makes: every batch in order, up to and including the
      first one whose call raises. */
  function CallsMade(svc: Service, bs: seq<seq<string>>): (calls: seq<seq<string>>)
    ensures |calls| <= |bs|
  {
    if bs == [] then []
    else [bs[0]] + (if svc(bs[0]).None? then [] else CallsMade(svc, bs[1..]))
  }

  /** The vectors of all calls, concatenated in call order, or None when a
      call raises. */
  function EmbedAll(svc: Service, bs: seq<seq<string>>): (r: Option<seq<Vector>>)
    ensures r.Some? <==> forall j :: 0 <= j < |bs| ==> svc(bs[j]).Some?
  {
    if bs == [] then Some([])
    else
      assert forall j :: 1 <= j < |bs| ==> bs[j] == bs[1..][j - 1];
      match svc(bs[0])
      case None => None
      case Some(v) =>
        var rest := EmbedAll(svc, bs[1..]);
        if rest.None? then None else Some(v + rest.value)
  }

  /** `embed_texts(texts)`, with the service call as a parameter; `calls` are
      the batches sent. */
  method EmbedTexts(texts: seq<string>, svc: Service) returns (vectors: Option<seq<Vector>>, calls: seq<seq<string>>)
    ensures vectors == EmbedAll(svc, Batches(texts))
    ensures calls == CallsMade(svc, Batches(texts))
  {
    var acc: seq<Vector> := [];
    calls := [];
    var i := 0;
    ghost var todo := Batches(texts);
    assert texts[i..] == texts;
    PrefixedEmpty(EmbedAll(svc, todo));
    while i < |texts|
      invariant 0 <= i <= |texts| && todo == Batches(texts[i..])
      invariant CallsMade(svc, Batches(texts)) == calls + CallsMade(svc, todo)
      invariant EmbedAll(svc, Batches(texts)) == Prefixed(acc, EmbedAll(svc, todo))
      decreases |texts| - i
    {
      var hi := if i + BatchSize <= |texts| then i + BatchSize else |texts|;
      var batch := texts[i..hi];
      BatchesStep(texts, i, hi);
      LoopStep(svc, todo, acc, calls);
      calls := calls + [batch];
      var resp := svc(batch);
      if resp.None? {
        vectors := None;
        return;
      }
      acc := acc + resp.value;
      i := hi;
      todo := todo[1..];
    }
    assert texts[i..] == [];
    assert acc + [] == acc;
    vectors := Some(acc);
  }

  /** One turn of the loop: sending the next batch moves it from the batches
      to do to the calls made, and its vectors onto the accumulated ones. */
  lemma {:induction false} LoopStep(svc: Service, todo: seq<seq<string>>, acc: seq<Vector>, calls: seq<seq<string>>)
    requires todo != []
    ensures calls + CallsMade(svc, todo)
         == (calls + [todo[0]]) + (if svc(todo[0]).None? then [] else CallsMade(svc, todo[1..]))
    ensures svc(todo[0]).None? ==> Prefixed(acc, EmbedAll(svc, todo)) == None
    ensures svc(todo[0]).Some? ==>
              Prefixed(acc, EmbedAll(svc, todo)) == Prefixed(acc + svc(todo[0]).value, EmbedAll(svc, todo[1..]))
  {
    if svc(todo[0]).Some? {
      PrefixedStep(acc, svc(todo[0]).value, EmbedAll(svc, todo[1..]));
    }
  }

  /** `acc` followed by the vectors of the remaining calls. */
  function Prefixed(acc: seq<Vector>, rest: Option<seq<Vector>>): Option<seq<Vector>> {
    if rest.None? then None else Some(acc + rest.value)
  }

  lemma {:induction false} PrefixedEmpty(o: Option<seq<Vector>>)
    ensures Prefixed([], o) == o
  {
    if o.Some? {
      assert [] + o.value == o.value;
    }
  }

  lemma {:induction false} PrefixedStep(acc: seq<Vector>, v: seq<Vector>, rest: Option<seq<Vector>>)
    ensures Prefixed(acc, if rest.None? then None else Some(v + rest.value)) == Prefixed(acc + v, rest)
  {
    if rest.Some? {
      assert acc + (v + rest.value) == acc + v + rest.value;
    }
  }

  lemma {:induction false} BatchesStep(texts: seq<string>, i: nat, hi: nat)
    requires i < |texts| && hi == (if i + BatchSize <= |texts| then i + BatchSize else |texts|)
    ensures Batches(texts[i..]) == [texts[i..hi]] + Batches(texts[hi..])
    ensures Batches(texts[i..])[0] == texts[i..hi] && Batches(texts[i..])[1..] == Batches(texts[hi..])
  {
    assert texts[i..][..hi - i] == texts[i..hi];
    assert texts[i..][hi - i..] == texts[hi..];
  }

  // ---------------------------------------------------------------------------
  // Properties of the batching

  /** Concatenating the batches in order gives the texts back: nothing is
      dropped or reordered. */
  lemma {:induction false} FlattenBatches(texts: seq<string>)
    ensures Flatten(Batches(texts)) == texts
    decreases |texts|
  {
    if texts != [] {
      var n := if |texts| < BatchSize then |texts| else BatchSize;
      FlattenBatches(texts[n..]);
      assert texts == texts[..n] + texts[n..];
    }
  }

  /** The number of batches, and so of calls when none fails, is the ceiling
      of `|texts| / 100`; there is none for no texts. */
  lemma {:induction false} BatchCount(texts: seq<string>)
    ensures |Batches(texts)| == (|texts| + BatchSize - 1) / BatchSize
    decreases |texts|
  {
    if texts != [] {
      var n := if |texts| < BatchSize then |texts| else BatchSize;
      BatchCount(texts[n..]);
    }
  }

  /** Batch `j` is the slice `texts[100 j .. min(100 j + 100, n)]`. */
  lemma {:induction false} BatchAt(texts: seq<string>, j: nat)
    requires j < |Batches(texts)|
    ensures BatchSize * j < |texts|
    ensures Batches(texts)[j] == texts[BatchSize * j..Min(BatchSize * j + BatchSize, |texts|)]
    decreases j
  {
    var n := if |texts| < BatchSize then |texts| else BatchSize;
    if j > 0 {
      BatchAt(texts[n..], j - 1);
      assert n == BatchSize;
      var lo := BatchSize * (j - 1);
      var hi := Min(lo + BatchSize, |texts| - n);
      assert n + lo == BatchSize * j && n + hi == Min(BatchSize * j + BatchSize, |texts|);
      SliceOfSuffix(texts, n, lo, hi);
    }
  }

  lemma {:induction false} SliceOfSuffix<T>(s: seq<T>, n: nat, lo: nat, hi: nat)
    requires n <= |s| && lo <= hi <= |s| - n
    ensures s[n..][lo..hi] == s[n + lo..n + hi]
  {
  }

  function Min(a: int, b: int): int {
    if a < b then a else b
  }

  /** The calls are the batches in order, and every call before the last one
      succeeded; the run stops after a failing call. */
  lemma {:induction false} CallsArePrefix(svc: Service, bs: seq<seq<string>>)
    ensures var calls := CallsMade(svc, bs);
            && (forall j :: 0 <= j < |calls| ==> calls[j] == bs[j])
            && (forall j :: 0 <= j < |calls| - 1 ==> svc(bs[j]).Some?)
            && (|calls| < |bs| ==> calls != [] && svc(calls[|calls| - 1]).None?)
  {
    if bs != [] && svc(bs[0]).Some? {
      CallsArePrefix(svc, bs[1..]);
    }
  }

  /** When no call fails, every batch is sent exactly once, in order. */
  lemma {:induction false} AllCallsMade(svc: Service, bs: seq<seq<string>>)
    requires forall j :: 0 <= j < |bs| ==> svc(bs[j]).Some?
    ensures CallsMade(svc, bs) == bs
  {
    if bs != [] {
      AllCallsMade(svc, bs[1..]);
    }
  }

  /** A service that answers one vector per text gives one vector per text
      overall. */
  lemma {:induction false} EmbedAllLength(svc: Service, bs: seq<seq<string>>)
    requires forall b :: svc(b).Some? ==> |svc(b).value| == |b|
    requires EmbedAll(svc, bs).Some?
    ensures |EmbedAll(svc, bs).value| == |Flatten(bs)|
  {
    if bs != [] {
      EmbedAllLength(svc, bs[1..]);
    }
  }

  /** `v` holds the vector of each text of `texts`, in order. */
  ghost predicate Embeds(v: seq<Vector>, texts: seq<string>, f: string -> Vector) {
    |v| == |texts| && forall j :: 0 <= j < |v| ==> v[j] == f(texts[j])
  }

  /** The service embeds each text on its own: the response to a batch is the
      vector of each of its texts, in request order. */
  ghost predicate Pointwise(svc: Service, f: string -> Vector) {
    forall b :: svc(b).Some? && Embeds(svc(b).value, b, f)
  }

  lemma {:induction false} EmbedsAppend(v: seq<Vector>, b: seq<string>, w: seq<Vector>, rest: seq<string>, f: string -> Vector)
    requires Embeds(v, b, f) && Embeds(w, rest, f)
    ensures Embeds(v + w, b + rest, f)
  {
    assert forall j :: 0 <= j < |b| ==> (v + w)[j] == v[j] && (b + rest)[j] == b[j];
    assert forall j :: |b| <= j < |b + rest| ==> (v + w)[j] == w[j - |b|] && (b + rest)[j] == rest[j - |b|];
  }

  lemma {:induction false} EmbedsUnique(v: seq<Vector>, w: seq<Vector>, texts: seq<string>, f: string -> Vector)
    requires Embeds(v, texts, f) && Embeds(w, texts, f)
    ensures v == w
  {
  }

  lemma {:induction false} EmbedAllPointwise(svc: Service, f: string -> Vector, bs: seq<seq<string>>)
    requires Pointwise(svc, f)
    ensures EmbedAll(svc, bs).Some? && Embeds(EmbedAll(svc, bs).value, Flatten(bs), f)
  {
    if bs != [] {
      EmbedAllPointwise(svc, f, bs[1..]);
      assert svc(bs[0]).Some? && Embeds(svc(bs[0]).value, bs[0], f);
      EmbedsAppend(svc(bs[0]).value, bs[0], EmbedAll(svc, bs[1..]).value, Flatten(bs[1..]), f);
    }
  }

  /** The order-preservation law: with a service that embeds texts one by
      one, the batched run gives row `i` the vector of text `i`, exactly as
      one unbatched call would. */
  lemma {:induction false} BatchedEqualsUnbatched(svc: Service, f: string -> Vector, texts: seq<string>)
    requires Pointwise(svc, f)
    ensures EmbedAll(svc, Batches(texts)) == svc(texts)
    ensures Embeds(EmbedAll(svc, Batches(texts)).value, texts, f)
  {
    EmbedAllPointwise(svc, f, Batches(texts));
    FlattenBatches(texts);
    assert svc(texts).Some? && Embeds(svc(texts).value, texts, f);
    EmbedsUnique(EmbedAll(svc, Batches(texts)).value, svc(texts).value, texts, f);
  }
}
