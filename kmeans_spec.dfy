/**
 * The values the K-Means clustering engine works on, and the pure functions
 * that define what each of its steps computes: nearest-centroid assignment,
 * cluster means, the convergence test, the risk level of a cluster, the seeding
 * of centroids from a stream of random indices, and the whole Lloyd run.
 *
 * Coordinates are reals. The engine's `distance` is the square root of
 * `SquaredDistance`; since the square root is monotone, every comparison of
 * distances is a comparison of squared distances here, and the convergence
 * threshold 1e-4 becomes 1e-8 on squared distances.
 */
module KMeansSpec {
  import Text
  import opened Wrappers

  /** A centroid, or the coordinates of a point. */
  datatype Centroid = Centroid(latitude: real, longitude: real)

  /** An incident to be clustered: coordinates plus a payload the clustering ignores. */
  datatype Point = Point(
    latitude: real,
    longitude: real,
    title: string,
    category: string,
    priority: string,
    address: string)

  datatype RiskLevel = Low | Medium | High

  datatype Cluster = Cluster(id: string, centroid: Centroid, points: seq<Point>, riskLevel: RiskLevel)

  /** `Number.POSITIVE_INFINITY` or a finite distance, as the nearest-centroid scan starts from infinity. */
  datatype Extended = PositiveInfinity | Finite(value: real)

  /** `d < bound`, where every real is below positive infinity. */
  predicate Below(d: real, bound: Extended)
  {
    bound.PositiveInfinity? || d < bound.value
  }

  /** Default number of Lloyd iterations of `cluster`. */
  const DefaultMaxIterations: int := 100

  /** Convergence threshold on the distance between an old and a new centroid. */
  const Threshold: real := 0.0001

  /** The threshold squared, for comparing squared distances. */
  const SquaredThreshold: real := Threshold * Threshold

  /**
   * Message of the TypeError thrown when a point is pushed into a cluster that
   * does not exist, in the wording of the V8 engine; other JavaScript engines
   * word the same TypeError differently.
   */
  const UndefinedClusterError: string := "Cannot read properties of undefined (reading 'points')"

  function Location(p: Point): Centroid
  {
    Centroid(p.latitude, p.longitude)
  }

  /** Square of the planar Euclidean distance between `a` and `b`. */
  function SquaredDistance(a: Centroid, b: Centroid): real
  {
    var dLat := a.latitude - b.latitude;
    var dLon := a.longitude - b.longitude;
    dLat * dLat + dLon * dLon
  }

  /**
   * Index of the centroid nearest to `p`, scanning left to right and moving
   * only on a strictly smaller distance, so that ties go to the lowest index.
   */
  function NearestIndex(p: Centroid, centroids: seq<Centroid>): (r: nat)
    requires |centroids| > 0
    ensures r < |centroids|
    ensures forall j :: 0 <= j < |centroids| ==> SquaredDistance(p, centroids[r]) <= SquaredDistance(p, centroids[j])
    ensures forall j :: 0 <= j < r ==> SquaredDistance(p, centroids[r]) < SquaredDistance(p, centroids[j])
    decreases |centroids|
  {
    if |centroids| == 1 then 0
    else
      var r := NearestIndex(p, centroids[..|centroids| - 1]);
      if SquaredDistance(p, centroids[|centroids| - 1]) < SquaredDistance(p, centroids[r])
      then |centroids| - 1
      else r
  }

  /** The id the engine gives the cluster at position `i`. */
  function ClusterId(i: nat): string
  {
    "cluster_" + Text.NatToString(i)
  }

  /** The points, in input order, whose nearest centroid is the one at index `i`. */
  function Members(points: seq<Point>, centroids: seq<Centroid>, i: nat): seq<Point>
    requires |centroids| > 0 || |points| == 0
    decreases |points|
  {
    if |points| == 0 then []
    else
      var last := points[|points| - 1];
      Members(points[..|points| - 1], centroids, i)
        + (if NearestIndex(Location(last), centroids) == i then [last] else [])
  }

  /** The cluster gathered around centroid `i` before empty clusters are dropped. */
  function Bucket(points: seq<Point>, centroids: seq<Centroid>, i: nat): Cluster
    requires i < |centroids|
  {
    Cluster(ClusterId(i), centroids[i], Members(points, centroids, i), Low)
  }

  /** One cluster per centroid, in centroid order. */
  function Buckets(points: seq<Point>, centroids: seq<Centroid>): (r: seq<Cluster>)
    requires |centroids| > 0 || |points| == 0
    ensures |r| == |centroids|
    ensures forall i :: 0 <= i < |r| ==> r[i] == Bucket(points, centroids, i)
  {
    seq(|centroids|, i requires 0 <= i < |centroids| => Bucket(points, centroids, i))
  }

  /** The clusters that received at least one point, in order. */
  function NonEmpty(clusters: seq<Cluster>): (r: seq<Cluster>)
    ensures |r| <= |clusters|
    ensures forall c :: c in r ==> c in clusters && |c.points| > 0
    ensures |r| == 0 ==> forall i :: 0 <= i < |clusters| ==> |clusters[i].points| == 0
    decreases |clusters|
  {
    if |clusters| == 0 then []
    else
      var last := clusters[|clusters| - 1];
      NonEmpty(clusters[..|clusters| - 1]) + (if |last.points| > 0 then [last] else [])
  }

  /** One assignment pass: every point goes to its nearest centroid; empty clusters are dropped. */
  function Assignment(points: seq<Point>, centroids: seq<Centroid>): seq<Cluster>
    requires |centroids| > 0 || |points| == 0
  {
    NonEmpty(Buckets(points, centroids))
  }

  /** An assignment pass keeps at most one cluster per centroid and at least one cluster. */
  lemma AssignmentSize(points: seq<Point>, centroids: seq<Centroid>)
    requires |centroids| > 0 || |points| == 0
    ensures |Assignment(points, centroids)| <= |centroids|
    ensures |points| > 0 ==> |Assignment(points, centroids)| > 0
  {
    if |points| > 0 {
      var last := points[|points| - 1];
      var i := NearestIndex(Location(last), centroids);
      assert last in Members(points, centroids, i);
      assert |Buckets(points, centroids)[i].points| > 0;
    }
  }

  function SumLatitude(points: seq<Point>): real
    decreases |points|
  {
    if |points| == 0 then 0.0 else SumLatitude(points[..|points| - 1]) + points[|points| - 1].latitude
  }

  function SumLongitude(points: seq<Point>): real
    decreases |points|
  {
    if |points| == 0 then 0.0 else SumLongitude(points[..|points| - 1]) + points[|points| - 1].longitude
  }

  /** Arithmetic mean of the coordinates, and the origin for no points. */
  function Mean(points: seq<Point>): Centroid
  {
    if |points| == 0 then Centroid(0.0, 0.0)
    else Centroid(SumLatitude(points) / |points| as real, SumLongitude(points) / |points| as real)
  }

  /** The recomputed centroids: the mean of each cluster, in cluster order. */
  function Means(clusters: seq<Cluster>): (r: seq<Centroid>)
    ensures |r| == |clusters|
    ensures forall m :: 0 <= m < |r| ==> r[m] == Mean(clusters[m].points)
  {
    seq(|clusters|, m requires 0 <= m < |clusters| => Mean(clusters[m].points))
  }

  /**
   * Every previous centroid has a recomputed centroid at the same index closer
   * than the threshold. A missing recomputed centroid fails the test; extra
   * recomputed centroids are ignored.
   */
  function Converged(previous: seq<Centroid>, recomputed: seq<Centroid>): (b: bool)
    ensures b <==> |recomputed| >= |previous| && forall i :: 0 <= i < |previous| ==> SquaredDistance(previous[i], recomputed[i]) < SquaredThreshold
    decreases |previous|
  {
    if |previous| == 0 then true
    else if |recomputed| == 0 then false
    else SquaredDistance(previous[0], recomputed[0]) < SquaredThreshold && Converged(previous[1..], recomputed[1..])
  }

  /** Whether a point counts towards the risk of its cluster. */
  predicate IsHighPriority(p: Point)
  {
    p.priority == "emergency" || p.priority == "high"
  }

  function HighPriorityCount(points: seq<Point>): (c: nat)
    ensures c <= |points|
    decreases |points|
  {
    if |points| == 0 then 0
    else HighPriorityCount(points[..|points| - 1]) + (if IsHighPriority(points[|points| - 1]) then 1 else 0)
  }

  /**
   * Risk from the percentage of high or emergency points: above 50 is High,
   * above 20 is Medium, anything else (and no points) is Low.
   */
  function RiskLevelOf(points: seq<Point>): (r: RiskLevel)
    ensures |points| == 0 ==> r == Low
    ensures r == High <==> 2 * HighPriorityCount(points) > |points|
    ensures r == Medium <==> 2 * HighPriorityCount(points) <= |points| < 5 * HighPriorityCount(points)
  {
    if |points| == 0 then Low
    else
      var n := |points| as real;
      var c := HighPriorityCount(points) as real;
      var percentage := (c / n) * 100.0;
      PercentageFacts(c, n);
      if percentage > 50.0 then High
      else if percentage > 20.0 then Medium
      else Low
  }

  lemma PercentageFacts(c: real, n: real)
    requires n > 0.0
    ensures (c / n) * 100.0 > 50.0 <==> 2.0 * c > n
    ensures (c / n) * 100.0 > 20.0 <==> 5.0 * c > n
  {
    var q := c / n;
    assert q * n == c;
    if q * 100.0 > 50.0 {
      assert (q * 100.0 - 50.0) * n > 0.0;
    }
    if 2.0 * c > n {
      assert (2.0 * q - 1.0) * n > 0.0;
    }
    if q * 100.0 > 20.0 {
      assert (q * 100.0 - 20.0) * n > 0.0;
    }
    if 5.0 * c > n {
      assert (5.0 * q - 1.0) * n > 0.0;
    }
  }

  function Min(a: int, b: int): int { if a <= b then a else b }

  function Max(a: int, b: int): int { if a >= b then a else b }

  /** The cluster count `cluster` actually uses for `n` points: `k`, unless `k >= n`. */
  function ClampK(k: int, n: nat): (r: int)
    requires n > 0
    ensures r == Min(k, Max(1, n - 1))
  {
    if k >= n then Max(1, n - 1) else k
  }

  /** The distinct values of `s` in order of first occurrence. */
  function FirstDistinct(s: seq<nat>): (r: seq<nat>)
    ensures forall i, j :: 0 <= i < j < |r| ==> r[i] != r[j]
    ensures forall x :: x in r <==> x in s
    decreases |s|
  {
    if |s| == 0 then []
    else
      var d := FirstDistinct(s[..|s| - 1]);
      if s[|s| - 1] in d then d else d + [s[|s| - 1]]
  }

  /** The distinct values seen in a prefix of `s` are a prefix of those of `s`. */
  lemma {:induction false} FirstDistinctPrefix(s: seq<nat>, j: nat)
    requires j <= |s|
    ensures FirstDistinct(s[..j]) <= FirstDistinct(s)
    decreases |s| - j
  {
    if j < |s| {
      var init := s[..|s| - 1];
      assert init[..j] == s[..j];
      FirstDistinctPrefix(init, j);
    } else {
      assert s[..j] == s;
    }
  }

  /**
   * The random draws `floor(random() * n)` that seed the centroids: each is a
   * valid index, and together they supply enough distinct indices for the
   * clamped cluster count.
   */
  predicate SeedsAvailable(n: nat, k: int, draws: seq<nat>)
  {
    && (n > 0 ==> forall i :: 0 <= i < |draws| ==> draws[i] < n)
    && (n > 0 ==> ClampK(k, n) <= |FirstDistinct(draws)|)
  }

  /** The indices `initializeCentroids` seeds from: the first `k` distinct draws. */
  function SeedIndices(draws: seq<nat>, k: int): (r: seq<nat>)
    requires k <= |FirstDistinct(draws)|
    ensures |r| == Max(k, 0)
    ensures forall i :: 0 <= i < |r| ==> r[i] in draws
  {
    if k <= 0 then [] else FirstDistinct(draws)[..k]
  }

  /** The coordinates of the points at `indices`. */
  function Seeds(points: seq<Point>, indices: seq<nat>): (r: seq<Centroid>)
    requires forall i :: 0 <= i < |indices| ==> indices[i] < |points|
    ensures |r| == |indices|
    ensures forall i :: 0 <= i < |r| ==> r[i] == Location(points[indices[i]])
  {
    seq(|indices|, i requires 0 <= i < |indices| => Location(points[indices[i]]))
  }

  /**
   * The centroids of the last assignment pass of a Lloyd run that starts from
   * `centroids` and may do `iterations` passes: stop after a pass whose
   * recomputed centroids converged, or after the last permitted pass.
   */
  function Lloyd(points: seq<Point>, centroids: seq<Centroid>, iterations: nat): (final: seq<Centroid>)
    requires |points| > 0 && |centroids| > 0 && iterations > 0
    ensures 0 < |final| <= |centroids|
    decreases iterations
  {
    AssignmentSize(points, centroids);
    var next := Means(Assignment(points, centroids));
    if iterations == 1 || Converged(centroids, next) then centroids
    else Lloyd(points, next, iterations - 1)
  }

  /** One step of the run: a pass that did not converge, with passes left, continues from the recomputed centroids. */
  lemma LloydStep(points: seq<Point>, centroids: seq<Centroid>, iterations: nat)
    requires |points| > 0 && |centroids| > 0 && iterations > 1
    requires !Converged(centroids, Means(Assignment(points, centroids)))
    ensures |Means(Assignment(points, centroids))| > 0
    ensures Lloyd(points, centroids, iterations) == Lloyd(points, Means(Assignment(points, centroids)), iterations - 1)
  {
    AssignmentSize(points, centroids);
  }

  /** Final numbering of the clusters and their risk levels. */
  function Label(clusters: seq<Cluster>): (r: seq<Cluster>)
    ensures |r| == |clusters|
  {
    seq(|clusters|, m requires 0 <= m < |clusters| =>
      Cluster(ClusterId(m), clusters[m].centroid, clusters[m].points, RiskLevelOf(clusters[m].points)))
  }

  /** What `cluster(points, k, maxIterations)` returns when `draws` are its random indices. */
  function ClusterSpec(points: seq<Point>, k: int, draws: seq<nat>, maxIterations: int): Result<seq<Cluster>>
    requires SeedsAvailable(|points|, k, draws)
  {
    if |points| == 0 then Ok([])
    else
      var kEff := ClampK(k, |points|);
      if maxIterations <= 0 then Ok([])
      else if kEff <= 0 then Err(UndefinedClusterError)
      else
        var seeds := Seeds(points, SeedIndices(draws, kEff));
        Ok(Label(Assignment(points, Lloyd(points, seeds, maxIterations))))
  }
}
