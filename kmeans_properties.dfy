/**
 * What the clustering engine guarantees: an assignment pass partitions the
 * points (each one lands in exactly one non-empty cluster, in input order,
 * at its nearest centroid with ties to the lowest index), means stay inside
 * the bounding box of their points, seeds come from distinct points, and a
 * whole run returns between one and k_eff clusters numbered cluster_0,
 * cluster_1, ... that together hold every input point once.
 */
module KMeansProperties {
  import Text
  import opened Wrappers
  import opened KMeansSpec

  /** `a` is `b` with some elements left out and the rest kept in order. */
  predicate Subsequence<T(==)>(a: seq<T>, b: seq<T>)
    decreases |b|
  {
    if |a| == 0 then true
    else if |b| == 0 then false
    else (a[|a| - 1] == b[|b| - 1] && Subsequence(a[..|a| - 1], b[..|b| - 1])) || Subsequence(a, b[..|b| - 1])
  }

  /** Appending an element to the longer sequence, or to both, keeps a subsequence a subsequence. */
  lemma SubsequenceAppend<T>(a: seq<T>, b: seq<T>, x: T)
    requires Subsequence(a, b)
    ensures Subsequence(a, b + [x])
    ensures Subsequence(a + [x], b + [x])
  {
    assert (b + [x])[..|b|] == b;
    assert (a + [x])[..|a|] == a;
  }

  /** No two clusters share an id. */
  predicate DistinctIds(clusters: seq<Cluster>)
  {
    forall a, b :: 0 <= a < b < |clusters| ==> clusters[a].id != clusters[b].id
  }

  /** The points of all clusters, cluster after cluster. */
  function AllPoints(clusters: seq<Cluster>): seq<Point>
    decreases |clusters|
  {
    if |clusters| == 0 then [] else AllPoints(clusters[..|clusters| - 1]) + clusters[|clusters| - 1].points
  }

  /** Every element of a subsequence is an element of the whole. */
  lemma {:induction false} SubsequenceMembers<T>(a: seq<T>, b: seq<T>)
    requires Subsequence(a, b)
    ensures forall x :: x in a ==> x in b
    decreases |b|
  {
    if |a| > 0 && |b| > 0 {
      if a[|a| - 1] == b[|b| - 1] && Subsequence(a[..|a| - 1], b[..|b| - 1]) {
        SubsequenceMembers(a[..|a| - 1], b[..|b| - 1]);
        assert a == a[..|a| - 1] + [a[|a| - 1]];
        assert forall x :: x in b[..|b| - 1] ==> x in b;
      } else {
        SubsequenceMembers(a, b[..|b| - 1]);
        assert forall x :: x in b[..|b| - 1] ==> x in b;
      }
    }
  }

  /** A point of all the clusters is a point of one of them. */
  lemma {:induction false} InAllPoints(clusters: seq<Cluster>, p: Point)
    requires p in AllPoints(clusters)
    ensures exists m :: 0 <= m < |clusters| && p in clusters[m].points
    decreases |clusters|
  {
    var n := |clusters|;
    if p in clusters[n - 1].points {
    } else {
      InAllPoints(clusters[..n - 1], p);
      var m :| 0 <= m < n - 1 && p in clusters[..n - 1][m].points;
      assert clusters[m] == clusters[..n - 1][m];
    }
  }

  // ---------------------------------------------------------------------------
  // One assignment pass
  // ---------------------------------------------------------------------------

  /** Every member of centroid `i`'s cluster has centroid `i` as its nearest centroid. */
  lemma {:induction false} MembersAreNearest(points: seq<Point>, centroids: seq<Centroid>, i: nat)
    requires |centroids| > 0
    ensures forall p :: p in Members(points, centroids, i) ==> NearestIndex(Location(p), centroids) == i
    decreases |points|
  {
    if |points| > 0 {
      MembersAreNearest(points[..|points| - 1], centroids, i);
    }
  }

  /** Appending an element to the longer sequence, and perhaps to the shorter one, keeps a subsequence. */
  lemma SubsequenceAppendMaybe<T>(a: seq<T>, b: seq<T>, x: T, take: bool)
    requires Subsequence(a, b)
    ensures Subsequence(a + (if take then [x] else []), b + [x])
  {
    SubsequenceAppend(a, b, x);
    if !take {
      assert a + [] == a;
    }
  }

  /** A cluster's points keep their input order. */
  lemma {:induction false} MembersInOrder(points: seq<Point>, centroids: seq<Centroid>, i: nat)
    requires |centroids| > 0
    ensures Subsequence(Members(points, centroids, i), points)
    decreases |points|
  {
    if |points| > 0 {
      var init := points[..|points| - 1];
      var last := points[|points| - 1];
      MembersInOrder(init, centroids, i);
      SubsequenceAppendMaybe(Members(init, centroids, i), init, last, NearestIndex(Location(last), centroids) == i);
      assert points == init + [last];
    }
  }

  /** Dropping empty clusters keeps the remaining clusters in their order. */
  lemma {:induction false} NonEmptyInOrder(clusters: seq<Cluster>)
    ensures Subsequence(NonEmpty(clusters), clusters)
    decreases |clusters|
  {
    if |clusters| > 0 {
      var init := clusters[..|clusters| - 1];
      var last := clusters[|clusters| - 1];
      NonEmptyInOrder(init);
      SubsequenceAppendMaybe(NonEmpty(init), init, last, |last.points| > 0);
      assert clusters == init + [last];
    }
  }

  /** Dropping empty clusters drops no point. */
  lemma {:induction false} NonEmptyKeepsPoints(clusters: seq<Cluster>)
    ensures AllPoints(NonEmpty(clusters)) == AllPoints(clusters)
    decreases |clusters|
  {
    if |clusters| > 0 {
      var init := clusters[..|clusters| - 1];
      var last := clusters[|clusters| - 1];
      var front := NonEmpty(init);
      NonEmptyKeepsPoints(init);
      assert AllPoints(clusters) == AllPoints(init) + last.points;
      if |last.points| > 0 {
        assert NonEmpty(clusters) == front + [last];
        assert (front + [last])[..|front|] == front;
        assert AllPoints(front + [last]) == AllPoints(front) + last.points;
      } else {
        assert NonEmpty(clusters) == front;
        assert last.points == [];
      }
    }
  }

  /** Clusters with pairwise distinct ids keep distinct ids once empty ones are dropped. */
  lemma {:induction false} NonEmptyDistinctIds(clusters: seq<Cluster>)
    requires DistinctIds(clusters)
    ensures DistinctIds(NonEmpty(clusters))
    decreases |clusters|
  {
    if |clusters| > 0 {
      var init := clusters[..|clusters| - 1];
      var last := clusters[|clusters| - 1];
      NonEmptyDistinctIds(init);
      var front := NonEmpty(init);
      if |last.points| > 0 {
        forall a | 0 <= a < |front|
          ensures front[a].id != last.id
        {
          assert front[a] in init;
          var idx :| 0 <= idx < |init| && init[idx] == front[a];
          assert clusters[idx] == init[idx];
        }
        var r := front + [last];
        assert NonEmpty(clusters) == r;
        forall a, b | 0 <= a < b < |r|
          ensures r[a].id != r[b].id
        {
          assert r[a] == front[a];
          if b < |front| {
            assert r[b] == front[b];
          } else {
            assert r[b] == last;
          }
        }
      } else {
        assert NonEmpty(clusters) == front;
      }
    }
  }

  /**
   * Adding point `p` to cluster `t` of `before` (and to no cluster when `t` is
   * out of range) adds exactly one copy of `p` to the points of all clusters.
   */
  lemma {:induction false} AddPointToOneCluster(before: seq<Cluster>, after: seq<Cluster>, t: int, p: Point)
    requires |before| == |after|
    requires forall i :: 0 <= i < |before| ==> after[i].points == before[i].points + (if i == t then [p] else [])
    ensures multiset(AllPoints(after)) == multiset(AllPoints(before)) + (if 0 <= t < |before| then multiset{p} else multiset{})
    decreases |before|
  {
    if |before| > 0 {
      var n := |before|;
      AddPointToOneCluster(before[..n - 1], after[..n - 1], t, p);
    }
  }

  /** Clusters without points contain no points overall. */
  lemma {:induction false} EmptyClustersNoPoints(clusters: seq<Cluster>)
    requires forall i :: 0 <= i < |clusters| ==> clusters[i].points == []
    ensures AllPoints(clusters) == []
    decreases |clusters|
  {
    if |clusters| > 0 {
      EmptyClustersNoPoints(clusters[..|clusters| - 1]);
    }
  }

  /** Before empty clusters are dropped, the clusters hold every point exactly once. */
  lemma {:induction false} BucketsCover(points: seq<Point>, centroids: seq<Centroid>)
    requires |centroids| > 0
    ensures multiset(AllPoints(Buckets(points, centroids))) == multiset(points)
    decreases |points|
  {
    if |points| > 0 {
      var init := points[..|points| - 1];
      var last := points[|points| - 1];
      var t := NearestIndex(Location(last), centroids);
      var before, after := Buckets(init, centroids), Buckets(points, centroids);
      BucketsCover(init, centroids);
      assert points == init + [last];
      forall j | 0 <= j < |before|
        ensures after[j].points == before[j].points + (if j == t then [last] else [])
      {
        assert after[j].points == Members(points, centroids, j);
      }
      AddPointToOneCluster(before, after, t, last);
      assert 0 <= t < |before|;
      assert multiset(points) == multiset(init) + multiset{last};
    } else {
      EmptyClustersNoPoints(Buckets(points, centroids));
    }
  }

  /** Clusters that hold the same points contain the same points overall. */
  lemma {:induction false} SamePointsSameAll(a: seq<Cluster>, b: seq<Cluster>)
    requires |a| == |b|
    requires forall i :: 0 <= i < |a| ==> a[i].points == b[i].points
    ensures AllPoints(a) == AllPoints(b)
    decreases |a|
  {
    if |a| > 0 {
      SamePointsSameAll(a[..|a| - 1], b[..|b| - 1]);
    }
  }

  /** Two different centroid indices give two different cluster ids. */
  lemma ClusterIdInjective(i: nat, j: nat)
    requires ClusterId(i) == ClusterId(j)
    ensures i == j
  {
    Text.PrefixedInjective("cluster_", i, j);
  }

  /** Clusters numbered by centroid index carry pairwise distinct ids. */
  lemma BucketsDistinctIds(points: seq<Point>, centroids: seq<Centroid>)
    requires |centroids| > 0
    ensures DistinctIds(Buckets(points, centroids))
  {
    var buckets := Buckets(points, centroids);
    forall b1, b2 | 0 <= b1 < b2 < |buckets|
      ensures buckets[b1].id != buckets[b2].id
    {
      if buckets[b1].id == buckets[b2].id {
        ClusterIdInjective(b1, b2);
      }
    }
  }

  /** Each cluster of an assignment pass is one of the centroid-indexed clusters, non-empty. */
  lemma AssignmentClusterOrigin(points: seq<Point>, centroids: seq<Centroid>, m: nat)
    requires |centroids| > 0
    requires m < |Assignment(points, centroids)|
    ensures exists i :: 0 <= i < |centroids| && Assignment(points, centroids)[m] == Bucket(points, centroids, i)
    ensures |Assignment(points, centroids)[m].points| > 0
  {
    var buckets := Buckets(points, centroids);
    var a := Assignment(points, centroids);
    assert a[m] in buckets;
    var i :| 0 <= i < |buckets| && buckets[i] == a[m];
    assert a[m] == Bucket(points, centroids, i);
  }

  /** The points of one cluster keep input order and all have that cluster's centroid as nearest. */
  lemma AssignmentClusterNearest(points: seq<Point>, centroids: seq<Centroid>, m: nat)
    requires |centroids| > 0
    requires m < |Assignment(points, centroids)|
    ensures var c := Assignment(points, centroids)[m];
      && |c.points| > 0
      && Subsequence(c.points, points)
      && forall p :: p in c.points ==>
           c.centroid == centroids[NearestIndex(Location(p), centroids)]
           && c.id == ClusterId(NearestIndex(Location(p), centroids))
  {
    AssignmentClusterOrigin(points, centroids, m);
    var i :| 0 <= i < |centroids| && Assignment(points, centroids)[m] == Bucket(points, centroids, i);
    MembersInOrder(points, centroids, i);
    MembersAreNearest(points, centroids, i);
  }

  /**
   * An assignment pass partitions the points: at most one cluster per
   * centroid and at least one, none empty, every input point in exactly one
   * cluster, points in input order, clusters in centroid order, and each point
   * with the nearest centroid (lowest index on ties) whose id it carries.
   */
  lemma AssignmentPartitions(points: seq<Point>, centroids: seq<Centroid>)
    requires |centroids| > 0
    ensures var a := Assignment(points, centroids);
      && |a| <= |centroids|
      && (|points| > 0 ==> |a| > 0)
      && multiset(AllPoints(a)) == multiset(points)
      && Subsequence(a, Buckets(points, centroids))
      && (forall m :: 0 <= m < |a| ==> |a[m].points| > 0 && Subsequence(a[m].points, points))
      && (forall m, p :: 0 <= m < |a| && p in a[m].points ==>
            a[m].centroid == centroids[NearestIndex(Location(p), centroids)]
            && a[m].id == ClusterId(NearestIndex(Location(p), centroids)))
      && DistinctIds(a)
  {
    var buckets := Buckets(points, centroids);
    var a := Assignment(points, centroids);
    AssignmentSize(points, centroids);
    BucketsCover(points, centroids);
    NonEmptyKeepsPoints(buckets);
    NonEmptyInOrder(buckets);
    forall m | 0 <= m < |a|
      ensures |a[m].points| > 0 && Subsequence(a[m].points, points)
      ensures forall p :: p in a[m].points ==>
            a[m].centroid == centroids[NearestIndex(Location(p), centroids)]
            && a[m].id == ClusterId(NearestIndex(Location(p), centroids))
    {
      AssignmentClusterNearest(points, centroids, m);
    }
    BucketsDistinctIds(points, centroids);
    NonEmptyDistinctIds(buckets);
  }

  /** Two points at the same coordinates always land in the same cluster. */
  lemma SameLocationSameCluster(points: seq<Point>, centroids: seq<Centroid>, m1: nat, m2: nat, p: Point, q: Point)
    requires |centroids| > 0
    requires m1 < |Assignment(points, centroids)| && p in Assignment(points, centroids)[m1].points
    requires m2 < |Assignment(points, centroids)| && q in Assignment(points, centroids)[m2].points
    requires Location(p) == Location(q)
    ensures m1 == m2
  {
    AssignmentPartitions(points, centroids);
  }

  // ---------------------------------------------------------------------------
  // Means
  // ---------------------------------------------------------------------------

  lemma {:induction false} SumLatitudeBounds(points: seq<Point>, lo: real, hi: real)
    requires forall i :: 0 <= i < |points| ==> lo <= points[i].latitude <= hi
    ensures |points| as real * lo <= SumLatitude(points) <= |points| as real * hi
    decreases |points|
  {
    if |points| > 0 {
      var init := points[..|points| - 1];
      var x := points[|points| - 1].latitude;
      SumLatitudeBounds(init, lo, hi);
      assert SumLatitude(points) == SumLatitude(init) + x;
      ScaleStep(|init| as real, lo);
      ScaleStep(|init| as real, hi);
    }
  }

  lemma {:induction false} SumLongitudeBounds(points: seq<Point>, lo: real, hi: real)
    requires forall i :: 0 <= i < |points| ==> lo <= points[i].longitude <= hi
    ensures |points| as real * lo <= SumLongitude(points) <= |points| as real * hi
    decreases |points|
  {
    if |points| > 0 {
      var init := points[..|points| - 1];
      var x := points[|points| - 1].longitude;
      SumLongitudeBounds(init, lo, hi);
      assert SumLongitude(points) == SumLongitude(init) + x;
      ScaleStep(|init| as real, lo);
      ScaleStep(|init| as real, hi);
    }
  }

  lemma ScaleStep(n: real, x: real)
    ensures (n + 1.0) * x == n * x + x
  {
  }

  lemma QuotientBounds(sum: real, n: real, lo: real, hi: real)
    requires n > 0.0 && n * lo <= sum <= n * hi
    ensures lo <= sum / n <= hi
  {
    var q := sum / n;
    assert q * n == sum;
  }

  lemma MeanLatitudeWithin(points: seq<Point>, lo: real, hi: real)
    requires |points| > 0
    requires forall i :: 0 <= i < |points| ==> lo <= points[i].latitude <= hi
    ensures lo <= Mean(points).latitude <= hi
  {
    SumLatitudeBounds(points, lo, hi);
    QuotientBounds(SumLatitude(points), |points| as real, lo, hi);
  }

  lemma MeanLongitudeWithin(points: seq<Point>, lo: real, hi: real)
    requires |points| > 0
    requires forall i :: 0 <= i < |points| ==> lo <= points[i].longitude <= hi
    ensures lo <= Mean(points).longitude <= hi
  {
    SumLongitudeBounds(points, lo, hi);
    QuotientBounds(SumLongitude(points), |points| as real, lo, hi);
  }

  /** The mean of no points is the origin; otherwise it times the number of points is the coordinate sum. */
  lemma MeanIsAverage(points: seq<Point>)
    ensures |points| == 0 ==> Mean(points) == Centroid(0.0, 0.0)
    ensures |points| > 0 ==> Mean(points).latitude * |points| as real == SumLatitude(points)
    ensures |points| > 0 ==> Mean(points).longitude * |points| as real == SumLongitude(points)
  {
  }

  /** The mean of some points lies inside any box that holds all of them. */
  lemma MeanWithinBounds(points: seq<Point>, lo: Centroid, hi: Centroid)
    requires |points| > 0
    requires forall p :: p in points ==>
      lo.latitude <= p.latitude <= hi.latitude && lo.longitude <= p.longitude <= hi.longitude
    ensures lo.latitude <= Mean(points).latitude <= hi.latitude
    ensures lo.longitude <= Mean(points).longitude <= hi.longitude
  {
    assert forall i :: 0 <= i < |points| ==> points[i] in points;
    MeanLatitudeWithin(points, lo.latitude, hi.latitude);
    MeanLongitudeWithin(points, lo.longitude, hi.longitude);
  }

  /** The mean of points that all sit at `c` is `c`. */
  lemma MeanOfIdentical(points: seq<Point>, c: Centroid)
    requires |points| > 0
    requires forall p :: p in points ==> Location(p) == c
    ensures Mean(points) == c
  {
    MeanWithinBounds(points, c, c);
  }

  // ---------------------------------------------------------------------------
  // Seeding and the cluster count
  // ---------------------------------------------------------------------------

  /** For `k >= 1` and some points, the clamped count is at least 1, at most `k` and at most `max(1, n - 1)`; it is `max(1, n - 1)` when `k >= n` and `k` otherwise. */
  lemma ClampKBounds(k: int, n: nat)
    requires n > 0 && k >= 1
    ensures 1 <= ClampK(k, n) <= k
    ensures ClampK(k, n) <= Max(1, n - 1)
    ensures k >= n ==> ClampK(k, n) == Max(1, n - 1)
    ensures k < n ==> ClampK(k, n) == k
  {
  }

  /** Seeding picks `k` centroids at the coordinates of `k` distinct points. */
  lemma SeedsFromDistinctPoints(points: seq<Point>, draws: seq<nat>, k: int)
    requires forall i :: 0 <= i < |draws| ==> draws[i] < |points|
    requires 0 <= k <= |FirstDistinct(draws)|
    ensures var idx := SeedIndices(draws, k);
      && |idx| == k
      && (forall i :: 0 <= i < k ==> idx[i] < |points|)
      && (forall i, j :: 0 <= i < j < k ==> idx[i] != idx[j])
      && Seeds(points, idx) == seq(k, i requires 0 <= i < k => Location(points[idx[i]]))
  {
    var idx := SeedIndices(draws, k);
    if k > 0 {
      assert forall i, j :: 0 <= i < j < k ==> idx[i] == FirstDistinct(draws)[i] && idx[j] == FirstDistinct(draws)[j];
    }
  }

  // ---------------------------------------------------------------------------
  // A whole run
  // ---------------------------------------------------------------------------

  /** The centroids the last assignment pass of `cluster` uses. */
  ghost function FinalCentroids(points: seq<Point>, k: int, draws: seq<nat>, maxIterations: int): (final: seq<Centroid>)
    requires SeedsAvailable(|points|, k, draws)
    requires |points| > 0 && k >= 1 && maxIterations >= 1
    ensures 0 < |final| <= ClampK(k, |points|)
  {
    var kEff := ClampK(k, |points|);
    Lloyd(points, Seeds(points, SeedIndices(draws, kEff)), maxIterations)
  }

  /** Renumbering keeps every cluster's points. */
  lemma LabelKeepsPoints(clusters: seq<Cluster>)
    ensures AllPoints(Label(clusters)) == AllPoints(clusters)
  {
    SamePointsSameAll(Label(clusters), clusters);
  }

  /** A run with points, a positive cluster count and iterations labels the last assignment pass. */
  lemma ClusterSpecIsLabelled(points: seq<Point>, k: int, draws: seq<nat>, maxIterations: int)
    requires SeedsAvailable(|points|, k, draws)
    requires |points| > 0 && k >= 1 && maxIterations >= 1
    ensures ClusterSpec(points, k, draws, maxIterations)
         == Ok(Label(Assignment(points, FinalCentroids(points, k, draws, maxIterations))))
  {
  }

  /**
   * What a run over `points` guarantees of its clusters, given the centroids
   * `final` of its last assignment pass: between 1 and `kEff` clusters with
   * ids cluster_0, cluster_1, ..., none empty, each a subsequence of the
   * input, together holding every input point exactly once, each with the
   * risk of its own points and the centroid nearest to each of its points,
   * and points at the same coordinates always in the same cluster.
   */
  ghost predicate IsClustering(points: seq<Point>, clusters: seq<Cluster>, final: seq<Centroid>, kEff: int)
  {
    && |final| > 0
    && 1 <= |clusters| <= kEff
    && CoversPoints(points, clusters)
    && NumberedClusters(points, clusters)
    && NearestCentroids(clusters, final)
    && SeparatesLocations(clusters)
  }

  /** The clusters together hold every point exactly once. */
  ghost predicate CoversPoints(points: seq<Point>, clusters: seq<Cluster>)
  {
    multiset(AllPoints(clusters)) == multiset(points) && |AllPoints(clusters)| == |points|
  }

  /** Cluster `m` is cluster_m, not empty, in input order, with the risk of its own points. */
  ghost predicate NumberedClusters(points: seq<Point>, clusters: seq<Cluster>)
  {
    forall m :: 0 <= m < |clusters| ==>
      && clusters[m].id == ClusterId(m)
      && |clusters[m].points| > 0
      && Subsequence(clusters[m].points, points)
      && clusters[m].riskLevel == RiskLevelOf(clusters[m].points)
  }

  /** Every cluster's centroid is the one of `final` nearest to each of its points. */
  ghost predicate NearestCentroids(clusters: seq<Cluster>, final: seq<Centroid>)
    requires |final| > 0
  {
    forall m, p :: 0 <= m < |clusters| && p in clusters[m].points ==>
      clusters[m].centroid == final[NearestIndex(Location(p), final)]
  }

  /** Points at the same coordinates are in the same cluster. */
  ghost predicate SeparatesLocations(clusters: seq<Cluster>)
  {
    forall m1, m2, p, q ::
      (0 <= m1 < |clusters| && 0 <= m2 < |clusters| && p in clusters[m1].points && q in clusters[m2].points
       && Location(p) == Location(q)) ==> m1 == m2
  }

  /** Clusters partitioning the points around `final`: non-empty, in input order, each with the id and centroid nearest to its points, no id twice. */
  ghost predicate IsPartition(points: seq<Point>, a: seq<Cluster>, final: seq<Centroid>)
    requires |final| > 0
  {
    && multiset(AllPoints(a)) == multiset(points)
    && (forall m :: 0 <= m < |a| ==> |a[m].points| > 0 && Subsequence(a[m].points, points))
    && (forall m, p :: 0 <= m < |a| && p in a[m].points ==>
          a[m].centroid == final[NearestIndex(Location(p), final)]
          && a[m].id == ClusterId(NearestIndex(Location(p), final)))
    && DistinctIds(a)
  }

  /** Renumbering keeps every point exactly once. */
  lemma LabelCovers(points: seq<Point>, a: seq<Cluster>)
    requires multiset(AllPoints(a)) == multiset(points)
    ensures CoversPoints(points, Label(a))
  {
    LabelKeepsPoints(a);
    assert |AllPoints(Label(a))| == |multiset(AllPoints(Label(a)))| == |multiset(points)| == |points|;
  }

  /** Renumbering gives cluster m the id cluster_m and the risk of its points. */
  lemma LabelNumbers(points: seq<Point>, a: seq<Cluster>)
    requires forall m :: 0 <= m < |a| ==> |a[m].points| > 0 && Subsequence(a[m].points, points)
    ensures NumberedClusters(points, Label(a))
  {
  }

  /** Renumbering keeps each cluster's centroid and points, so it keeps them nearest. */
  lemma LabelKeepsNearest(a: seq<Cluster>, final: seq<Centroid>)
    requires |final| > 0
    requires forall m, p :: 0 <= m < |a| && p in a[m].points ==> a[m].centroid == final[NearestIndex(Location(p), final)]
    ensures NearestCentroids(Label(a), final)
  {
  }

  /** Clusters named after the nearest centroid of their points, with distinct names, separate locations. */
  lemma DistinctIdsSeparate(a: seq<Cluster>, final: seq<Centroid>)
    requires |final| > 0
    requires forall m, p :: 0 <= m < |a| && p in a[m].points ==> a[m].id == ClusterId(NearestIndex(Location(p), final))
    requires DistinctIds(a)
    ensures SeparatesLocations(a)
  {
    forall m1, m2, p, q | 0 <= m1 < |a| && 0 <= m2 < |a|
        && p in a[m1].points && q in a[m2].points && Location(p) == Location(q)
      ensures m1 == m2
    {
      assert a[m1].id == a[m2].id;
    }
  }

  /** Renumbering keeps the points of every cluster in place, so it keeps locations separated. */
  lemma LabelSeparates(a: seq<Cluster>)
    requires SeparatesLocations(a)
    ensures SeparatesLocations(Label(a))
  {
    assert forall m :: 0 <= m < |a| ==> Label(a)[m].points == a[m].points;
  }

  /** Renumbering a partition of the points around `final` gives a clustering. */
  lemma LabelIsClustering(points: seq<Point>, a: seq<Cluster>, final: seq<Centroid>, kEff: int)
    requires |final| > 0 && 1 <= |a| <= kEff
    requires IsPartition(points, a, final)
    ensures IsClustering(points, Label(a), final, kEff)
  {
    LabelCovers(points, a);
    LabelNumbers(points, a);
    LabelKeepsNearest(a, final);
    DistinctIdsSeparate(a, final);
    LabelSeparates(a);
  }

  /** The clusters of one assignment pass, labelled, are a clustering of the points. */
  lemma LabelledIsClustering(points: seq<Point>, centroids: seq<Centroid>, kEff: int)
    requires |points| > 0 && 0 < |centroids| <= kEff
    ensures IsClustering(points, Label(Assignment(points, centroids)), centroids, kEff)
  {
    AssignmentPartitions(points, centroids);
    assert IsPartition(points, Assignment(points, centroids), centroids);
    LabelIsClustering(points, Assignment(points, centroids), centroids, kEff);
  }

  /** A subsequence is never longer than the whole, and one as long as the whole is the whole. */
  lemma {:induction false} SubsequenceLength<T>(a: seq<T>, b: seq<T>)
    requires Subsequence(a, b)
    ensures |a| <= |b|
    ensures |a| == |b| ==> a == b
    decreases |b|
  {
    if |a| > 0 && |b| > 0 {
      if a[|a| - 1] == b[|b| - 1] && Subsequence(a[..|a| - 1], b[..|b| - 1]) {
        SubsequenceLength(a[..|a| - 1], b[..|b| - 1]);
        if |a| == |b| {
          assert a == a[..|a| - 1] + [a[|a| - 1]];
          assert b == b[..|b| - 1] + [b[|b| - 1]];
        }
      } else {
        SubsequenceLength(a, b[..|b| - 1]);
      }
    }
  }

  /** The first points of two different clusters of a clustering are input points at different coordinates. */
  lemma FirstPointsApart(points: seq<Point>, clusters: seq<Cluster>, final: seq<Centroid>, kEff: int, m1: nat, m2: nat)
    requires IsClustering(points, clusters, final, kEff)
    requires m1 < |clusters| && m2 < |clusters| && m1 != m2
    ensures clusters[m1].points[0] in points && clusters[m2].points[0] in points
    ensures Location(clusters[m1].points[0]) != Location(clusters[m2].points[0])
  {
    SubsequenceMembers(clusters[m1].points, points);
    SubsequenceMembers(clusters[m2].points, points);
    assert clusters[m1].points[0] in clusters[m1].points;
    assert clusters[m2].points[0] in clusters[m2].points;
  }

  /** Points that all sit at the same coordinates make a single cluster holding all of them, in order. */
  lemma IdenticalPointsOneCluster(points: seq<Point>, clusters: seq<Cluster>, final: seq<Centroid>, kEff: int, c: Centroid)
    requires IsClustering(points, clusters, final, kEff)
    requires forall i :: 0 <= i < |points| ==> Location(points[i]) == c
    ensures |clusters| == 1
    ensures clusters[0].points == points
  {
    if |clusters| > 1 {
      FirstPointsApart(points, clusters, final, kEff, 0, 1);
      assert false;
    }
    assert clusters[..0] == [];
    assert AllPoints(clusters) == clusters[0].points;
    SubsequenceLength(clusters[0].points, points);
  }

  /**
   * A run over a non-empty input with k >= 1 and at least one iteration
   * succeeds, and its clusters are a clustering of the input around the
   * centroids of the last pass, with at most k_eff clusters.
   */
  lemma ClusterSpecProperties(points: seq<Point>, k: int, draws: seq<nat>, maxIterations: int)
    requires SeedsAvailable(|points|, k, draws)
    requires |points| > 0 && k >= 1 && maxIterations >= 1
    ensures ClusterSpec(points, k, draws, maxIterations).Ok?
    ensures IsClustering(points, ClusterSpec(points, k, draws, maxIterations).value,
                         FinalCentroids(points, k, draws, maxIterations), ClampK(k, |points|))
  {
    ClusterSpecIsLabelled(points, k, draws, maxIterations);
    LabelledIsClustering(points, FinalCentroids(points, k, draws, maxIterations), ClampK(k, |points|));
  }

  /** The edge cases of `cluster`: no points, no iterations, and a cluster count below one. */
  lemma ClusterSpecEdgeCases(points: seq<Point>, k: int, draws: seq<nat>, maxIterations: int)
    requires SeedsAvailable(|points|, k, draws)
    ensures |points| == 0 ==> ClusterSpec(points, k, draws, maxIterations) == Ok([])
    ensures |points| > 0 && maxIterations <= 0 ==> ClusterSpec(points, k, draws, maxIterations) == Ok([])
    ensures |points| > 0 && k <= 0 && maxIterations > 0 ==> ClusterSpec(points, k, draws, maxIterations) == Err(UndefinedClusterError)
  {
  }

  // ---------------------------------------------------------------------------
  // Risk levels
  // ---------------------------------------------------------------------------

  /** The order of risk levels: Low below Medium below High. */
  function RiskRank(level: RiskLevel): nat
  {
    match level
    case Low => 0
    case Medium => 1
    case High => 2
  }

  /** For a fixed number of points, more high-priority points never lower the risk. */
  lemma RiskMonotone(a: seq<Point>, b: seq<Point>)
    requires |a| == |b| && HighPriorityCount(a) <= HighPriorityCount(b)
    ensures RiskRank(RiskLevelOf(a)) <= RiskRank(RiskLevelOf(b))
  {
  }

  /** The high-priority count of two runs of points is the sum of their counts. */
  lemma {:induction false} HighPriorityCountAppend(a: seq<Point>, b: seq<Point>)
    ensures HighPriorityCount(a + b) == HighPriorityCount(a) + HighPriorityCount(b)
    decreases |b|
  {
    if |b| > 0 {
      var init := b[..|b| - 1];
      HighPriorityCountAppend(a, init);
      assert (a + b)[..|a + b| - 1] == a + init;
    } else {
      assert a + b == a;
    }
  }

  /** Points that are all high priority are all counted; points of which none is are not counted. */
  lemma {:induction false} HighPriorityCountExtremes(points: seq<Point>)
    ensures (forall i :: 0 <= i < |points| ==> IsHighPriority(points[i])) ==> HighPriorityCount(points) == |points|
    ensures (forall i :: 0 <= i < |points| ==> !IsHighPriority(points[i])) ==> HighPriorityCount(points) == 0
    decreases |points|
  {
    if |points| > 0 {
      HighPriorityCountExtremes(points[..|points| - 1]);
    }
  }

  /** Points none of which is high priority make a Low-risk cluster. */
  lemma NoHighPriorityLowRisk(points: seq<Point>)
    requires forall i :: 0 <= i < |points| ==> !IsHighPriority(points[i])
    ensures RiskLevelOf(points) == Low
  {
    HighPriorityCountExtremes(points);
  }
}
