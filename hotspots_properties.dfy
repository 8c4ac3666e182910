/**
 * What the hotspot predictor guarantees: which points it clusters, how many
 * clusters it asks for, that a run with points always succeeds with totals
 * that add up, that every hotspot mirrors one cluster, and that every report
 * with coordinates is tagged with the one cluster holding its coordinates.
 */
module HotspotProperties {
  import opened Wrappers
  import opened KMeansSpec
  import opened KMeansProperties
  import opened Hotspots

  // ---------------------------------------------------------------------------
  // The points
  // ---------------------------------------------------------------------------

  /** Each report with coordinates is kept as many times as it occurs; any other report is dropped. */
  lemma {:induction false} WithCoordinatesCounts(reports: seq<CrimeReport>)
    ensures forall x :: multiset(WithCoordinates(reports))[x] == if HasCoordinates(x) then multiset(reports)[x] else 0
    decreases |reports|
  {
    if |reports| > 0 {
      var init := reports[..|reports| - 1];
      var last := reports[|reports| - 1];
      WithCoordinatesCounts(init);
      assert reports == init + [last];
    }
  }

  /** The reports kept are those with two truthy coordinates, in input order. */
  lemma {:induction false} WithCoordinatesInOrder(reports: seq<CrimeReport>)
    ensures Subsequence(WithCoordinates(reports), reports)
    ensures forall x :: x in WithCoordinates(reports) <==> x in reports && HasCoordinates(x)
    decreases |reports|
  {
    if |reports| > 0 {
      var init := reports[..|reports| - 1];
      var last := reports[|reports| - 1];
      var front := WithCoordinates(init);
      WithCoordinatesInOrder(init);
      SubsequenceAppend(front, init, last);
      assert reports == init + [last];
      if HasCoordinates(last) {
        assert WithCoordinates(reports) == front + [last];
      } else {
        assert WithCoordinates(reports) == front;
      }
    }
  }

  /**
   * The reports kept are exactly those with two truthy coordinates, in input
   * order, each as many times as it occurs in the input.
   */
  lemma WithCoordinatesFilters(reports: seq<CrimeReport>)
    ensures Subsequence(WithCoordinates(reports), reports)
    ensures forall x :: x in WithCoordinates(reports) <==> x in reports && HasCoordinates(x)
    ensures forall x :: multiset(WithCoordinates(reports))[x] == if HasCoordinates(x) then multiset(reports)[x] else 0
  {
    WithCoordinatesInOrder(reports);
    WithCoordinatesCounts(reports);
  }

  /** There is nothing to cluster exactly when there are no alerts and no report has coordinates. */
  lemma NoPointsIff(reports: seq<CrimeReport>, alerts: seq<SOSAlert>)
    ensures |BuildPoints(reports, alerts)| == 0
        <==> |alerts| == 0 && forall x :: x in reports ==> !HasCoordinates(x)
  {
    WithCoordinatesInOrder(reports);
    if |WithCoordinates(reports)| > 0 {
      assert WithCoordinates(reports)[0] in WithCoordinates(reports);
    }
  }

  /** Every point of an alert is high priority. */
  lemma AlertPointsHighPriority(alerts: seq<SOSAlert>)
    ensures HighPriorityCount(AlertPoints(alerts)) == |alerts|
  {
    var back := AlertPoints(alerts);
    assert forall j :: 0 <= j < |back| ==> IsHighPriority(back[j]);
    HighPriorityCountExtremes(back);
  }

  /**
   * Every alert becomes an emergency point at the alert's coordinates, so a
   * run's points hold at least one high-priority point per alert.
   */
  lemma AlertsAreEmergencies(reports: seq<CrimeReport>, alerts: seq<SOSAlert>)
    ensures var points := BuildPoints(reports, alerts);
      var offset := |WithCoordinates(reports)|;
      && (forall i :: offset <= i < |points| ==>
            && points[i].category == "emergency"
            && IsHighPriority(points[i])
            && Location(points[i]) == Centroid(alerts[i - offset].location.latitude, alerts[i - offset].location.longitude))
      && HighPriorityCount(points) >= |alerts|
  {
    AlertPointsAfterReports(reports, alerts);
    AlertsCountHighPriority(reports, alerts);
  }

  /** The points after those of the reports are the alerts' emergency points. */
  lemma AlertPointsAfterReports(reports: seq<CrimeReport>, alerts: seq<SOSAlert>)
    ensures var points := BuildPoints(reports, alerts);
      var offset := |WithCoordinates(reports)|;
      (forall i :: offset <= i < |points| ==>
            && points[i].category == "emergency"
            && IsHighPriority(points[i])
            && Location(points[i]) == Centroid(alerts[i - offset].location.latitude, alerts[i - offset].location.longitude))
  {
  }

  /** A run's points hold at least one high-priority point per alert. */
  lemma AlertsCountHighPriority(reports: seq<CrimeReport>, alerts: seq<SOSAlert>)
    ensures HighPriorityCount(BuildPoints(reports, alerts)) >= |alerts|
  {
    var points := BuildPoints(reports, alerts);
    var offset := |WithCoordinates(reports)|;
    assert points == points[..offset] + AlertPoints(alerts);
    HighPriorityCountAppend(points[..offset], AlertPoints(alerts));
    AlertPointsHighPriority(alerts);
  }

  // ---------------------------------------------------------------------------
  // The answer built from a clustering
  // ---------------------------------------------------------------------------

  /** The total of the crime counts of some hotspots. */
  function CrimeCountTotal(hotspots: seq<Hotspot>): nat
    decreases |hotspots|
  {
    if |hotspots| == 0 then 0 else CrimeCountTotal(hotspots[..|hotspots| - 1]) + hotspots[|hotspots| - 1].crimeCount
  }

  /** The crime counts of the hotspots add up to the points of the clusters. */
  lemma {:induction false} CrimeCountsAddUp(clusters: seq<Cluster>)
    ensures CrimeCountTotal(ToHotspots(clusters)) == |AllPoints(clusters)|
    decreases |clusters|
  {
    if |clusters| > 0 {
      var n := |clusters|;
      CrimeCountsAddUp(clusters[..n - 1]);
      assert ToHotspots(clusters)[..n - 1] == ToHotspots(clusters[..n - 1]);
    }
  }

  /** Hotspot `h` lists a crime at exactly these coordinates. */
  predicate HotspotHolds(h: Hotspot, latitude: real, longitude: real)
  {
    exists j :: 0 <= j < |h.crimes| && h.crimes[j].latitude == latitude && h.crimes[j].longitude == longitude
  }

  /** A hotspot lists a crime at some coordinates exactly when its cluster holds a point there. */
  lemma HotspotHoldsIff(cluster: Cluster, index: nat, latitude: real, longitude: real)
    ensures HotspotHolds(ToHotspot(cluster, index), latitude, longitude) <==> HoldsLocation(cluster, latitude, longitude)
  {
    var h := ToHotspot(cluster, index);
    if HotspotHolds(h, latitude, longitude) {
      var j :| 0 <= j < |h.crimes| && h.crimes[j].latitude == latitude && h.crimes[j].longitude == longitude;
      assert cluster.points[j].latitude == latitude && cluster.points[j].longitude == longitude;
    }
    if HoldsLocation(cluster, latitude, longitude) {
      var j :| 0 <= j < |cluster.points| && cluster.points[j].latitude == latitude && cluster.points[j].longitude == longitude;
      assert h.crimes[j].latitude == latitude && h.crimes[j].longitude == longitude;
    }
  }

  /** The answer for a clustering: success, no error, one hotspot per cluster, counts that add up. */
  lemma SuccessTotals(reports: seq<CrimeReport>, points: seq<Point>, clusters: seq<Cluster>, final: seq<Centroid>, kEff: int)
    requires IsClustering(points, clusters, final, kEff)
    ensures var r := SuccessResult(reports, clusters, |points|);
      && r.success && r.error == None
      && r.totalCrimes == |points|
      && r.totalClusters == |r.hotspots|
      && 1 <= |r.hotspots| <= kEff
      && CrimeCountTotal(r.hotspots) == r.totalCrimes
  {
    CrimeCountsAddUp(clusters);
  }

  /** Summarising keeps a subsequence a subsequence. */
  lemma {:induction false} SummariesKeepOrder(a: seq<Point>, b: seq<Point>)
    requires Subsequence(a, b)
    ensures Subsequence(Summaries(a), Summaries(b))
    decreases |b|
  {
    if |a| > 0 && |b| > 0 {
      assert Summaries(a)[..|a| - 1] == Summaries(a[..|a| - 1]);
      assert Summaries(b)[..|b| - 1] == Summaries(b[..|b| - 1]);
      if a[|a| - 1] == b[|b| - 1] && Subsequence(a[..|a| - 1], b[..|b| - 1]) {
        SummariesKeepOrder(a[..|a| - 1], b[..|b| - 1]);
      } else {
        SummariesKeepOrder(a, b[..|b| - 1]);
      }
    }
  }

  /**
   * Hotspot `i` of a clustering is its cluster `i`: id hotspot_i, the
   * cluster's centroid and risk level, one crime per point of the cluster in
   * the cluster's order, as many crimes as it counts and at least one, its
   * crimes summaries of input points in input order, and the hotspot at the
   * centroid nearest to each of its crimes.
   */
  lemma HotspotOfCluster(points: seq<Point>, clusters: seq<Cluster>, final: seq<Centroid>, kEff: int, i: nat)
    requires IsClustering(points, clusters, final, kEff)
    requires i < |clusters|
    ensures var h := ToHotspots(clusters)[i];
      && h.id == HotspotId(i)
      && Centroid(h.latitude, h.longitude) == clusters[i].centroid
      && h.riskLevel == clusters[i].riskLevel
      && h.crimes == Summaries(clusters[i].points)
      && h.crimeCount == |h.crimes| > 0
      && Subsequence(h.crimes, Summaries(points))
      && (forall j :: 0 <= j < |h.crimes| ==>
            Centroid(h.latitude, h.longitude) == final[NearestIndex(Centroid(h.crimes[j].latitude, h.crimes[j].longitude), final)])
  {
    var c := clusters[i];
    var h := ToHotspots(clusters)[i];
    assert h == ToHotspot(c, i);
    SummariesKeepOrder(c.points, points);
    forall j | 0 <= j < |h.crimes|
      ensures Centroid(h.latitude, h.longitude) == final[NearestIndex(Centroid(h.crimes[j].latitude, h.crimes[j].longitude), final)]
    {
      var p := c.points[j];
      assert p in c.points;
      assert Centroid(h.crimes[j].latitude, h.crimes[j].longitude) == Location(p);
    }
  }

  /**
   * A report whose point is among the clustered points is tagged with the id
   * of a cluster whose hotspot lists a crime at the report's coordinates, and
   * every hotspot that lists one belongs to that cluster.
   */
  lemma TagOfCover(points: seq<Point>, clusters: seq<Cluster>, report: CrimeReport)
    requires CoversPoints(points, clusters) && SeparatesLocations(clusters)
    requires HasCoordinates(report) && ReportPoint(report) in points
    ensures var tag := TagReport(report, clusters).clusterId;
      var latitude, longitude := report.location.latitude.value, report.location.longitude.value;
      var hotspots := ToHotspots(clusters);
      && tag != Unclustered
      && (exists m :: 0 <= m < |hotspots| && tag == ClusterId(m) && HotspotHolds(hotspots[m], latitude, longitude))
      && (forall m :: 0 <= m < |hotspots| && HotspotHolds(hotspots[m], latitude, longitude) ==> tag == ClusterId(m))
  {
    var latitude, longitude := report.location.latitude.value, report.location.longitude.value;
    var hotspots := ToHotspots(clusters);
    var p := ReportPoint(report);
    // the report's own point lies in some cluster
    assert p in multiset(points);
    assert p in AllPoints(clusters);
    InAllPoints(clusters, p);
    var owner :| 0 <= owner < |clusters| && p in clusters[owner].points;
    var at :| 0 <= at < |clusters[owner].points| && clusters[owner].points[at] == p;
    assert HoldsLocation(clusters[owner], latitude, longitude);
    // so the search finds a cluster
    var f := FindClusterIndex(clusters, latitude, longitude);
    assert f >= 0;
    assert TagReport(report, clusters).clusterId == ClusterId(f);
    assert ClusterId(f) != Unclustered by {
      assert ClusterId(f)[0] == 'c';
    }
    HotspotHoldsIff(clusters[f], f, latitude, longitude);
    assert hotspots[f] == ToHotspot(clusters[f], f);
    var j :| 0 <= j < |clusters[f].points| && clusters[f].points[j].latitude == latitude && clusters[f].points[j].longitude == longitude;
    var q := clusters[f].points[j];
    assert q in clusters[f].points;
    // and every cluster holding the coordinates is that one
    forall m | 0 <= m < |hotspots| && HotspotHolds(hotspots[m], latitude, longitude)
      ensures TagReport(report, clusters).clusterId == ClusterId(m)
    {
      assert hotspots[m] == ToHotspot(clusters[m], m);
      HotspotHoldsIff(clusters[m], m, latitude, longitude);
      var j' :| 0 <= j' < |clusters[m].points| && clusters[m].points[j'].latitude == latitude && clusters[m].points[j'].longitude == longitude;
      var q' := clusters[m].points[j'];
      assert q' in clusters[m].points;
      assert Location(q) == Location(q');
    }
  }

  // ---------------------------------------------------------------------------
  // A run with points
  // ---------------------------------------------------------------------------

  /** The predictor's run asks for between 2 and 5 clusters and so gets at most 5, and fewer than the points unless there is one. */
  lemma EffectiveClusterCount(n: nat)
    requires n > 0
    ensures 1 <= ClampK(ChooseK(n), n) <= 5
    ensures ClampK(ChooseK(n), n) <= Max(1, n - 1)
    ensures n > 2 ==> ClampK(ChooseK(n), n) >= 2
  {
  }

  /** The centroids of the last assignment pass of a run of the predictor. */
  ghost function PredictorCentroids(reports: seq<CrimeReport>, alerts: seq<SOSAlert>, draws: seq<nat>): seq<Centroid>
    requires DrawsSuffice(reports, alerts, draws)
    requires |BuildPoints(reports, alerts)| > 0
  {
    var points := BuildPoints(reports, alerts);
    FinalCentroids(points, ChooseK(|points|), draws, DefaultMaxIterations)
  }

  /** The clusters of a run of the predictor: a clustering of its points, never a failure. */
  ghost function PredictorRun(reports: seq<CrimeReport>, alerts: seq<SOSAlert>, draws: seq<nat>): (clusters: seq<Cluster>)
    requires DrawsSuffice(reports, alerts, draws)
    requires |BuildPoints(reports, alerts)| > 0
    ensures var points := BuildPoints(reports, alerts);
      IsClustering(points, clusters, PredictorCentroids(reports, alerts, draws), ClampK(ChooseK(|points|), |points|))
    ensures PredictHotspots(reports, alerts, draws) == SuccessResult(reports, clusters, |BuildPoints(reports, alerts)|)
  {
    var points := BuildPoints(reports, alerts);
    ClusterSpecProperties(points, ChooseK(|points|), draws, DefaultMaxIterations);
    ClusterSpec(points, ChooseK(|points|), draws, DefaultMaxIterations).value
  }

  /** With no point to cluster, the answer is the successful empty envelope with its message. */
  lemma EmptyInput(reports: seq<CrimeReport>, alerts: seq<SOSAlert>, draws: seq<nat>)
    requires DrawsSuffice(reports, alerts, draws)
    requires |alerts| == 0 && forall x :: x in reports ==> !HasCoordinates(x)
    ensures var r := PredictHotspots(reports, alerts, draws);
      && r.success && r.error == Some(NoDataMessage)
      && r.hotspots == [] && r.clusteredCrimes == []
      && r.totalClusters == 0 && r.totalCrimes == 0
  {
    NoPointsIff(reports, alerts);
  }

  /**
   * A run with points succeeds without an error, with one hotspot per
   * cluster, and the crime counts add up to the number of points, alerts
   * included.
   */
  lemma PredictSucceeds(reports: seq<CrimeReport>, alerts: seq<SOSAlert>, draws: seq<nat>)
    requires DrawsSuffice(reports, alerts, draws)
    requires |BuildPoints(reports, alerts)| > 0
    ensures var r := PredictHotspots(reports, alerts, draws);
      && r.success && r.error == None
      && r.totalCrimes == |WithCoordinates(reports)| + |alerts|
      && r.totalClusters == |r.hotspots|
      && CrimeCountTotal(r.hotspots) == r.totalCrimes
  {
    var points := BuildPoints(reports, alerts);
    var clusters := PredictorRun(reports, alerts, draws);
    var kEff := ClampK(ChooseK(|points|), |points|);
    SuccessTotals(reports, points, clusters, PredictorCentroids(reports, alerts, draws), kEff);
  }

  /** A run with `n` points makes between one and five hotspots, and fewer than `n` unless `n` is 1. */
  lemma PredictHotspotCount(reports: seq<CrimeReport>, alerts: seq<SOSAlert>, draws: seq<nat>)
    requires DrawsSuffice(reports, alerts, draws)
    requires |BuildPoints(reports, alerts)| > 0
    ensures var r := PredictHotspots(reports, alerts, draws);
      var n := |WithCoordinates(reports)| + |alerts|;
      && 1 <= |r.hotspots| <= 5
      && |r.hotspots| <= Max(1, n - 1)
  {
    var points := BuildPoints(reports, alerts);
    var clusters := PredictorRun(reports, alerts, draws);
    var kEff := ClampK(ChooseK(|points|), |points|);
    EffectiveClusterCount(|points|);
    assert 1 <= |clusters| <= kEff;
    assert PredictHotspots(reports, alerts, draws).hotspots == ToHotspots(clusters);
  }

  /**
   * Hotspot `i` of a run is cluster `i`: id hotspot_i, the risk level of the
   * cluster's points, one crime per point of the cluster, as many crimes as it
   * counts and at least one, its crimes summaries of input points in input
   * order, and the hotspot
   * at the centroid nearest (lowest index on ties) to each of its crimes in the
   * last assignment pass.
   */
  lemma HotspotsMirrorClusters(reports: seq<CrimeReport>, alerts: seq<SOSAlert>, draws: seq<nat>, i: nat)
    requires DrawsSuffice(reports, alerts, draws)
    requires |BuildPoints(reports, alerts)| > 0
    requires i < |PredictHotspots(reports, alerts, draws).hotspots|
    ensures var h := PredictHotspots(reports, alerts, draws).hotspots[i];
      var final := PredictorCentroids(reports, alerts, draws);
      var cluster := PredictorRun(reports, alerts, draws)[i];
      && h.id == HotspotId(i)
      && h.riskLevel == RiskLevelOf(cluster.points)
      && h.crimes == Summaries(cluster.points)
      && h.crimeCount == |h.crimes| > 0
      && Subsequence(h.crimes, Summaries(BuildPoints(reports, alerts)))
      && (forall j :: 0 <= j < |h.crimes| ==>
            Centroid(h.latitude, h.longitude) == final[NearestIndex(Centroid(h.crimes[j].latitude, h.crimes[j].longitude), final)])
  {
    var points := BuildPoints(reports, alerts);
    var clusters := PredictorRun(reports, alerts, draws);
    var kEff := ClampK(ChooseK(|points|), |points|);
    HotspotOfCluster(points, clusters, PredictorCentroids(reports, alerts, draws), kEff, i);
  }

  /**
   * Every report with coordinates appears once, in input order and unchanged,
   * tagged with the id of a cluster whose hotspot lists a crime at the
   * report's coordinates, and every hotspot that lists one is that cluster's:
   * the tag is never "unclustered".
   */
  lemma TagIsOwnCluster(reports: seq<CrimeReport>, alerts: seq<SOSAlert>, draws: seq<nat>, i: nat)
    requires DrawsSuffice(reports, alerts, draws)
    requires i < |WithCoordinates(reports)|
    ensures var r := PredictHotspots(reports, alerts, draws);
      var report := WithCoordinates(reports)[i];
      var latitude, longitude := report.location.latitude.value, report.location.longitude.value;
      && |r.clusteredCrimes| == |WithCoordinates(reports)|
      && r.clusteredCrimes[i].report == report
      && r.clusteredCrimes[i].clusterId != Unclustered
      && (exists m :: 0 <= m < |r.hotspots| && r.clusteredCrimes[i].clusterId == ClusterId(m)
                      && HotspotHolds(r.hotspots[m], latitude, longitude))
      && (forall m :: 0 <= m < |r.hotspots| && HotspotHolds(r.hotspots[m], latitude, longitude) ==>
                      r.clusteredCrimes[i].clusterId == ClusterId(m))
  {
    var points := BuildPoints(reports, alerts);
    var clusters := PredictorRun(reports, alerts, draws);
    var report := WithCoordinates(reports)[i];
    assert points[i] == ReportPoint(report);
    TagOfCover(points, clusters, report);
    assert SuccessResult(reports, clusters, |points|).clusteredCrimes[i] == TagReport(report, clusters);
  }

  // ---------------------------------------------------------------------------
  // Scenarios
  // ---------------------------------------------------------------------------

  /** A clustering of a single point is one cluster holding just that point. */
  lemma SinglePointClustering(p: Point, clusters: seq<Cluster>, final: seq<Centroid>)
    requires IsClustering([p], clusters, final, 1)
    ensures |clusters| == 1 && clusters[0].points == [p]
  {
    var c := clusters[0];
    assert |clusters| == 1;
    assert clusters[..0] == [];
    assert AllPoints(clusters) == c.points;
    assert multiset(c.points) == multiset{p};
    assert |c.points| == 1;
    assert c.points[0] in multiset(c.points);
    assert c.points == [c.points[0]];
  }

  /** The answer for a clustering of a single emergency point: one High-risk hotspot holding it. */
  lemma SingleEmergencyAnswer(report: CrimeReport, clusters: seq<Cluster>, final: seq<Centroid>)
    requires HasCoordinates(report) && report.priority == "emergency"
    requires IsClustering([ReportPoint(report)], clusters, final, 1)
    ensures var r := SuccessResult([report], clusters, 1);
      && |r.hotspots| == 1
      && r.hotspots[0].id == HotspotId(0)
      && r.hotspots[0].crimeCount == 1
      && r.hotspots[0].riskLevel == High
      && r.hotspots[0].crimes == [Summary(ReportPoint(report))]
      && r.clusteredCrimes == [ClusteredCrime(report, ClusterId(0))]
  {
    var p := ReportPoint(report);
    assert WithCoordinates([report]) == [report] by {
      assert [report][..0] == [];
    }
    SinglePointClustering(p, clusters, final);
    var c := clusters[0];
    assert HighPriorityCount(c.points) == 1 by {
      assert c.points[..0] == [];
    }
    assert HoldsLocation(c, p.latitude, p.longitude) by {
      assert c.points[0] == p;
    }
    assert SuccessResult([report], clusters, 1).clusteredCrimes[0] == TagReport(report, clusters);
  }

  /** One emergency report alone makes one High-risk hotspot that holds it, and the report is tagged cluster_0. */
  lemma SingleEmergencyReport(report: CrimeReport, draws: seq<nat>)
    requires HasCoordinates(report) && report.priority == "emergency"
    requires DrawsSuffice([report], [], draws)
    ensures var r := PredictHotspots([report], [], draws);
      && r.success
      && |r.hotspots| == 1
      && r.hotspots[0].id == HotspotId(0)
      && r.hotspots[0].crimeCount == 1
      && r.hotspots[0].riskLevel == High
      && r.hotspots[0].crimes == [Summary(ReportPoint(report))]
      && r.clusteredCrimes == [ClusteredCrime(report, ClusterId(0))]
  {
    assert WithCoordinates([report]) == [report] by {
      assert [report][..0] == [];
    }
    assert BuildPoints([report], []) == [ReportPoint(report)];
    var clusters := PredictorRun([report], [], draws);
    EffectiveClusterCount(1);
    SingleEmergencyAnswer(report, clusters, PredictorCentroids([report], [], draws));
  }

  /** A clustering of points none of which is high priority has only Low-risk hotspots. */
  lemma NoHighPriorityClustering(reports: seq<CrimeReport>, points: seq<Point>, clusters: seq<Cluster>, final: seq<Centroid>, kEff: int)
    requires IsClustering(points, clusters, final, kEff)
    requires forall i :: 0 <= i < |points| ==> !IsHighPriority(points[i])
    ensures var hotspots := SuccessResult(reports, clusters, |points|).hotspots;
      forall m :: 0 <= m < |hotspots| ==> hotspots[m].riskLevel == Low
  {
    forall m | 0 <= m < |clusters|
      ensures ToHotspots(clusters)[m].riskLevel == Low
    {
      SubsequenceMembers(clusters[m].points, points);
      assert forall j :: 0 <= j < |clusters[m].points| ==> clusters[m].points[j] in points;
      NoHighPriorityLowRisk(clusters[m].points);
    }
  }

  /** Reports none of which is high or emergency priority, and no alerts, give no high-priority point. */
  lemma NoHighPriorityPoints(reports: seq<CrimeReport>)
    requires forall x :: x in reports ==> x.priority != "high" && x.priority != "emergency"
    ensures forall i :: 0 <= i < |BuildPoints(reports, [])| ==> !IsHighPriority(BuildPoints(reports, [])[i])
  {
    var points := BuildPoints(reports, []);
    WithCoordinatesInOrder(reports);
    forall i | 0 <= i < |points|
      ensures !IsHighPriority(points[i])
    {
      assert WithCoordinates(reports)[i] in WithCoordinates(reports);
    }
  }

  /** Without alerts, reports none of which is high or emergency priority make only Low-risk hotspots. */
  lemma NoHighPriorityAllLow(reports: seq<CrimeReport>, draws: seq<nat>)
    requires DrawsSuffice(reports, [], draws)
    requires forall x :: x in reports ==> x.priority != "high" && x.priority != "emergency"
    ensures forall m :: 0 <= m < |PredictHotspots(reports, [], draws).hotspots| ==>
      PredictHotspots(reports, [], draws).hotspots[m].riskLevel == Low
  {
    var points := BuildPoints(reports, []);
    if |points| > 0 {
      var clusters := PredictorRun(reports, [], draws);
      NoHighPriorityPoints(reports);
      NoHighPriorityClustering(reports, points, clusters, PredictorCentroids(reports, [], draws), ClampK(ChooseK(|points|), |points|));
    }
  }

  // ---------------------------------------------------------------------------
  // Colours
  // ---------------------------------------------------------------------------

  /** The three risk levels get three different colours, none of them the fallback gray. */
  lemma RiskColorsDistinct(a: RiskLevel, b: RiskLevel)
    ensures GetRiskLevelColor(RiskLevelName(a)) != DefaultColor
    ensures GetRiskLevelColor(RiskLevelName(a)) == GetRiskLevelColor(RiskLevelName(b)) ==> a == b
  {
  }
}
