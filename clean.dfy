/** `clean_feedback`: drops the rows whose text is blank and fills in a
    missing source. */
module Clean {
  import opened Wrappers
  import opened Text
  import opened Records

  /** The row mask: `text.str.strip().ne("")`. */
  predicate Keeps(x: Row)
    ensures Keeps(x) <==> HasText(x.text)
  {
    Strip(x.text) != ""
  }

  /** The per-row coercions applied to a surviving row: `source.fillna("unknown")`.
      Dates and ratings are already parsed values here, so `to_datetime` and
      `to_numeric` leave them as they are. */
  function CleanRow(x: Row): (y: Row)
    ensures y.text == x.text && y.id == x.id && y.date == x.date && y.rating == x.rating
    ensures x.source.None? ==> y.source == Some(Unknown)
    ensures x.source.Some? ==> y.source == x.source
  {
    x.(source := Some(x.source.GetOr(Unknown)))
  }

  /** What the mask and the coercions make of one row. */
  function Kept(x: Row): (r: seq<Row>)
    ensures |r| <= 1 && (r != [] ==> r[0] == CleanRow(x))
  {
    if Keeps(x) then [CleanRow(x)] else []
  }

  /** `clean_feedback(df)`. */
  function CleanFeedback(t: seq<Row>): (r: seq<Row>)
    ensures |r| <= |t|
    ensures forall y :: y in r ==> HasText(y.text) && y.source.Some?
  {
    if t == [] then []
    else Kept(t[0]) + CleanFeedback(t[1..])
  }

  /** A single row survives exactly when its text holds a non-whitespace
      character, and then only its source can change. */
  lemma {:induction false} CleanSingle(x: Row)
    ensures CleanFeedback([x]) == if HasText(x.text) then [CleanRow(x)] else []
  {
    assert [x][1..] == [];
  }

  /** Cleaning works row by row: it distributes over concatenation, so the
      surviving rows keep their relative order. */
  lemma {:induction false} CleanAppend(a: seq<Row>, b: seq<Row>)
    ensures CleanFeedback(a + b) == CleanFeedback(a) + CleanFeedback(b)
  {
    if a == [] {
      assert a + b == b;
    } else {
      assert (a + b)[0] == a[0];
      assert (a + b)[1..] == a[1..] + b;
      CleanAppend(a[1..], b);
    }
  }

  /** A row of the input is in the output, with its source filled in, when its
      text is not blank; every output row comes from such an input row. */
  lemma {:induction false} CleanMembers(t: seq<Row>)
    ensures forall x :: x in t && HasText(x.text) ==> CleanRow(x) in CleanFeedback(t)
    ensures forall y :: y in CleanFeedback(t) ==> exists x :: x in t && HasText(x.text) && y == CleanRow(x)
  {
    if t != [] {
      CleanMembers(t[1..]);
      assert forall x :: x in t <==> x == t[0] || x in t[1..];
    }
  }

  /** Cleaning a cleaned table changes nothing. */
  lemma {:induction false} CleanIdempotent(t: seq<Row>)
    ensures CleanFeedback(CleanFeedback(t)) == CleanFeedback(t)
  {
    if t != [] {
      CleanAppend(Kept(t[0]), CleanFeedback(t[1..]));
      CleanIdempotent(t[1..]);
      if Keeps(t[0]) {
        CleanSingle(CleanRow(t[0]));
      }
    }
  }

  predicate IdsIncreasing(t: seq<Row>) {
    forall i, j :: 0 <= i < j < |t| ==> t[i].id < t[j].id
  }

  /** The ids of the output are ids of the input. */
  lemma {:induction false} IdsSubset(t: seq<Row>)
    ensures forall y :: y in CleanFeedback(t) ==> exists x :: x in t && x.id == y.id
  {
    CleanMembers(t);
  }

  /** Every id of the table exceeds `b`. */
  predicate IdsAbove(t: seq<Row>, b: int) {
    forall i :: 0 <= i < |t| ==> b < t[i].id
  }

  lemma {:induction false} CleanKeepsIdsAbove(t: seq<Row>, b: int)
    requires IdsAbove(t, b)
    ensures IdsAbove(CleanFeedback(t), b)
  {
    if t != [] {
      CleanKeepsIdsAbove(t[1..], b);
      ConcatIdsAbove(Kept(t[0]), CleanFeedback(t[1..]), b);
    }
  }

  lemma {:induction false} ConcatIdsAbove(a: seq<Row>, c: seq<Row>, b: int)
    requires IdsAbove(a, b) && IdsAbove(c, b)
    ensures IdsAbove(a + c, b)
  {
    assert forall i :: 0 <= i < |a| ==> (a + c)[i] == a[i];
    assert forall i :: |a| <= i < |a + c| ==> (a + c)[i] == c[i - |a|];
  }

  lemma {:induction false} ConsIncreasing(h: seq<Row>, rest: seq<Row>, b: int)
    requires |h| <= 1 && (h != [] ==> h[0].id == b)
    requires IdsIncreasing(rest) && IdsAbove(rest, b)
    ensures IdsIncreasing(h + rest)
  {
    if h != [] {
      assert forall i :: 0 < i < |h + rest| ==> (h + rest)[i] == rest[i - 1];
    } else {
      assert h + rest == rest;
    }
  }

  /** Strictly increasing ids stay strictly increasing (they may stop being
      dense). */
  lemma {:induction false} IdsStayIncreasing(t: seq<Row>)
    requires IdsIncreasing(t)
    ensures IdsIncreasing(CleanFeedback(t))
  {
    if t != [] {
      IdsStayIncreasing(t[1..]);
      assert IdsAbove(t[1..], t[0].id);
      CleanKeepsIdsAbove(t[1..], t[0].id);
      ConsIncreasing(Kept(t[0]), CleanFeedback(t[1..]), t[0].id);
    }
  }

  /** The texts and ids of a table. */
  function Keys(t: seq<Row>): (k: seq<(int, string)>)
    ensures |k| == |t| && forall i :: 0 <= i < |t| ==> k[i] == (t[i].id, t[i].text)
  {
    if t == [] then [] else [(t[0].id, t[0].text)] + Keys(t[1..])
  }

  /** Dates, ratings and sources play no part in which rows survive: two
      tables with the same ids and texts row by row keep the same rows. */
  lemma {:induction false} CleanIgnoresOtherFields(t: seq<Row>, u: seq<Row>)
    requires Keys(t) == Keys(u)
    ensures Keys(CleanFeedback(t)) == Keys(CleanFeedback(u))
  {
    if t != [] {
      assert Keys(t)[0] == Keys(u)[0];
      assert Keys(t[1..]) == Keys(t)[1..] && Keys(u[1..]) == Keys(u)[1..];
      CleanIgnoresOtherFields(t[1..], u[1..]);
      KeysAppend(Kept(t[0]), CleanFeedback(t[1..]));
      KeysAppend(Kept(u[0]), CleanFeedback(u[1..]));
    }
  }

  lemma {:induction false} KeysAppend(a: seq<Row>, b: seq<Row>)
    ensures Keys(a + b) == Keys(a) + Keys(b)
  {
  }
}
