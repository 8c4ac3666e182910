/**
 * The K-Means clustering engine as the source runs it: a seeding loop that
 * skips repeated random indices, an assignment pass that pushes each point
 * into the cluster of its nearest centroid, and a bounded Lloyd loop that
 * stops early on convergence. Each method is proved to compute the function
 * of KMeansSpec that defines its result.
 */
module KMeans {
  import opened Wrappers
  import opened KMeansSpec

  /**
   * Seeds `k` centroids at the coordinates of distinct points. `draws` is the
   * stream of values `floor(random() * |points|)`; a value already used is skipped.
   */
  method InitializeCentroids(points: seq<Point>, k: int, draws: seq<nat>) returns (centroids: seq<Centroid>)
    requires forall i :: 0 <= i < |draws| ==> draws[i] < |points|
    requires k <= |FirstDistinct(draws)|
    ensures centroids == Seeds(points, SeedIndices(draws, k))
  {
    centroids := [];
    var indices: set<nat> := {};
    var next := 0;
    assert draws[..|draws|] == draws;
    while |centroids| < k
      invariant next <= |draws|
      invariant |FirstDistinct(draws[..next])| <= Max(k, 0)
      invariant forall i :: 0 <= i < |FirstDistinct(draws[..next])| ==> FirstDistinct(draws[..next])[i] < |points|
      invariant centroids == Seeds(points, FirstDistinct(draws[..next]))
      invariant forall x :: x in indices <==> x in FirstDistinct(draws[..next])
      decreases |draws| - next
    {
      var randomIndex := draws[next];
      assert draws[..next + 1][..next] == draws[..next];
      if randomIndex !in indices {
        indices := indices + {randomIndex};
        centroids := centroids + [Location(points[randomIndex])];
      }
      next := next + 1;
    }
    FirstDistinctPrefix(draws, next);
  }

  /**
   * The index of the centroid nearest to `point`: a scan that keeps the first
   * index at the smallest distance seen so far, starting from infinity.
   */
  method FindNearestCentroid(point: Point, centroids: seq<Centroid>) returns (nearestClusterIndex: nat)
    requires |centroids| > 0
    ensures nearestClusterIndex == NearestIndex(Location(point), centroids)
  {
    var minDistance := PositiveInfinity;
    nearestClusterIndex := 0;
    for i := 0 to |centroids|
      invariant i == 0 ==> minDistance == PositiveInfinity && nearestClusterIndex == 0
      invariant i > 0 ==> nearestClusterIndex == NearestIndex(Location(point), centroids[..i])
      invariant i > 0 ==> minDistance == Finite(SquaredDistance(Location(point), centroids[nearestClusterIndex]))
    {
      assert centroids[..i + 1][..i] == centroids[..i];
      var dist := SquaredDistance(Location(point), centroids[i]);
      if Below(dist, minDistance) {
        minDistance := Finite(dist);
        nearestClusterIndex := i;
      }
    }
    assert centroids[..|centroids|] == centroids;
  }

  /**
   * One assignment pass. Every point is pushed into the cluster of the first
   * centroid at the smallest distance; clusters left empty are dropped.
   */
  method AssignPointsToClusters(points: seq<Point>, centroids: seq<Centroid>) returns (result: seq<Cluster>)
    requires |centroids| > 0 || |points| == 0
    ensures result == Assignment(points, centroids)
  {
    var clusters := new Cluster[|centroids|](i requires 0 <= i < |centroids| => Cluster(ClusterId(i), centroids[i], [], Low));
    for j := 0 to |points|
      invariant forall i :: 0 <= i < clusters.Length ==> clusters[i] == Bucket(points[..j], centroids, i)
    {
      var point := points[j];
      var nearestClusterIndex := FindNearestCentroid(point, centroids);
      assert points[..j + 1][..j] == points[..j];
      clusters[nearestClusterIndex] := clusters[nearestClusterIndex].(points := clusters[nearestClusterIndex].points + [point]);
    }
    assert points[..|points|] == points;
    assert clusters[..] == Buckets(points, centroids);
    result := NonEmpty(clusters[..]);
  }

  /**
   * Clusters `points` into at most `k` groups (fewer than the number of
   * points unless there is only one) by at most `maxIterations` Lloyd passes.
   * The clusters returned are those of the last assignment pass, numbered in order.
   */
  method ClusterPoints(points: seq<Point>, k: int, draws: seq<nat>, maxIterations: int) returns (result: Result<seq<Cluster>>)
    requires SeedsAvailable(|points|, k, draws)
    ensures result == ClusterSpec(points, k, draws, maxIterations)
  {
    if |points| == 0 {
      return Ok([]);
    }
    var kEff := k;
    if kEff >= |points| {
      kEff := Max(1, |points| - 1);
    }
    assert kEff == ClampK(k, |points|);
    var centroids := InitializeCentroids(points, kEff, draws);
    var clusters: seq<Cluster> := [];
    ghost var final := if kEff > 0 && maxIterations > 0 then Lloyd(points, centroids, maxIterations) else [];
    var iteration := 0;
    while iteration < maxIterations
      invariant 0 <= iteration && (iteration <= maxIterations || iteration == 0)
      invariant iteration == 0 ==> clusters == []
      invariant kEff <= 0 ==> iteration == 0 && centroids == []
      invariant kEff > 0 ==> |centroids| > 0
      invariant kEff > 0 && iteration < maxIterations ==> Lloyd(points, centroids, maxIterations - iteration) == final
      invariant kEff > 0 && 0 < maxIterations <= iteration ==> clusters == Assignment(points, final)
    {
      if |centroids| == 0 {
        // clusters[0] is undefined in the source, and pushing into it throws
        return Err(UndefinedClusterError);
      }
      clusters := AssignPointsToClusters(points, centroids);
      var newCentroids := Means(clusters);
      if Converged(centroids, newCentroids) {
        break;
      }
      if iteration + 1 < maxIterations {
        LloydStep(points, centroids, maxIterations - iteration);
      }
      AssignmentSize(points, centroids);
      centroids := newCentroids;
      iteration := iteration + 1;
    }
    return Ok(Label(clusters));
  }
}
