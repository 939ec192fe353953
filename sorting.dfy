/** Sorted lists of distinct keys: what pandas' `groupby(...)` (with its
    default `sort=True`) and `sorted(...unique())` iterate over. */
module Sorting {

  ghost predicate StrictTotalOrder<T(!new)>(lt: (T, T) -> bool) {
    && (forall a :: !lt(a, a))
    && (forall a, b, c :: lt(a, b) && lt(b, c) ==> lt(a, c))
    && (forall a, b :: a != b ==> lt(a, b) || lt(b, a))
  }

  predicate StrictlySorted<T>(s: seq<T>, lt: (T, T) -> bool) {
    forall i, j :: 0 <= i < j < |s| ==> lt(s[i], s[j])
  }

  predicate Distinct<T(==)>(s: seq<T>) {
    forall i, j :: 0 <= i < j < |s| ==> s[i] != s[j]
  }

  lemma {:induction false} StrictlySortedIsDistinct<T(!new)>(s: seq<T>, lt: (T, T) -> bool)
    requires StrictTotalOrder(lt) && StrictlySorted(s, lt)
    ensures Distinct(s)
  {
    forall i, j | 0 <= i < j < |s| ensures s[i] != s[j] {
      assert lt(s[i], s[j]);
    }
  }

  /** Adds `x` to a strictly sorted list unless it is already there. */
  function InsertUnique<T(==,!new)>(x: T, s: seq<T>, lt: (T, T) -> bool): (r: seq<T>)
    requires StrictTotalOrder(lt) && StrictlySorted(s, lt)
    ensures StrictlySorted(r, lt)
    ensures forall y :: y in r <==> y == x || y in s
  {
    if s == [] then [x]
    else if x == s[0] then s
    else if lt(x, s[0]) then [x] + s
    else
      var rest := InsertUnique(x, s[1..], lt);
      assert forall y :: y in s[1..] ==> lt(s[0], y);
      assert forall j :: 0 <= j < |rest| ==> lt(s[0], rest[j]) by {
        forall j | 0 <= j < |rest| ensures lt(s[0], rest[j]) {
          assert rest[j] in rest;
        }
      }
      [s[0]] + rest
  }

  /** The distinct elements of `xs` in ascending order. */
  function SortedDistinct<T(==,!new)>(xs: seq<T>, lt: (T, T) -> bool): (r: seq<T>)
    requires StrictTotalOrder(lt)
    ensures StrictlySorted(r, lt)
    ensures forall y :: y in r <==> y in xs
  {
    if xs == [] then []
    else
      var init := xs[..|xs| - 1];
      assert xs == init + [xs[|xs| - 1]];
      InsertUnique(xs[|xs| - 1], SortedDistinct(init, lt), lt)
  }

  predicate NatLt(a: nat, b: nat) {
    a < b
  }

  lemma {:induction false} NatLtIsStrictTotal()
    ensures StrictTotalOrder(NatLt)
  {
  }
}
