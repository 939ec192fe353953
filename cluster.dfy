/** `cluster_embeddings`: clamps the requested number of clusters to the
    number of rows and hands the fit to KMeans. */
module Cluster {
  import opened Wrappers
  import opened Embed

  /** The KMeans fit: the cluster label of every row for a given number of
      clusters. */
  type KMeans = (seq<Vector>, nat) -> seq<nat>

  /** What scikit-learn's KMeans promises when it accepts the input: one
      label per row, each below the number of clusters. */
  ghost predicate KMeansSound(fit: KMeans) {
    forall e, c :: 1 <= c <= |e| ==> |fit(e, c)| == |e| && forall l :: l in fit(e, c) ==> l < c
  }

  /** The number of clusters passed to KMeans for `n` rows and `k` requested. */
  function ClusterCount(n: nat, k: int): (r: int)
    ensures n >= k ==> r == k
    ensures n < k ==> r == if n < 2 then 2 else n
  {
    if n < k then Max(2, Min(n, k)) else k
  }

  function Max(a: int, b: int): int {
    if a < b then b else a
  }

  /** In the clamped branch the count is at least 2, at most `n` when `n` is
      at least 2, and for a request of at least 2 never above the request. */
  lemma {:induction false} ClusterCountBounds(n: nat, k: int)
    ensures n < k ==> 2 <= ClusterCount(n, k)
    ensures n < k && n >= 2 ==> ClusterCount(n, k) <= n
    ensures k >= 2 ==> ClusterCount(n, k) <= k
    ensures k >= 2 ==> ClusterCount(n, k) >= 2
  {
  }

  /** `cluster_embeddings(embeddings, k)`: scikit-learn rejects a cluster
      count below 1 or above the number of rows. */
  function ClusterEmbeddings(e: seq<Vector>, k: int, fit: KMeans): (r: Result<seq<nat>, string>)
    ensures r.Success? <==> 1 <= ClusterCount(|e|, k) <= |e|
    ensures r.Success? ==> r.value == fit(e, ClusterCount(|e|, k))
  {
    var c := ClusterCount(|e|, k);
    if c < 1 then Failure("n_clusters must be at least 1")
    else if |e| < c then Failure("n_samples must be at least n_clusters")
    else Success(fit(e, c))
  }

  /** With a sound fit, every row gets a label below the clamped count. */
  lemma {:induction false} ClusterLabels(e: seq<Vector>, k: int, fit: KMeans)
    requires KMeansSound(fit)
    requires ClusterEmbeddings(e, k, fit).Success?
    ensures var labels := ClusterEmbeddings(e, k, fit).value;
            |labels| == |e| && forall l :: l in labels ==> l < ClusterCount(|e|, k)
  {
  }

  /** Ten rows and fifteen clusters asked for: ten clusters are fitted. */
  lemma {:induction false} ClusterCountTenOfFifteen()
    ensures ClusterCount(10, 15) == 10
  {
  }

  /** A single row with at least two clusters asked for is clamped to two
      clusters, which KMeans rejects. */
  lemma {:induction false} SingleRowFails(e: seq<Vector>, k: int, fit: KMeans)
    requires |e| == 1 && k >= 2
    ensures ClusterEmbeddings(e, k, fit).Failure?
  {
  }

  /** From two rows on, any request of at least two clusters is accepted. */
  lemma {:induction false} ClusterAccepted(e: seq<Vector>, k: int, fit: KMeans)
    requires |e| >= 2 && k >= 1
    ensures ClusterEmbeddings(e, k, fit).Success?
  {
  }
}
