# Crime hotspot prediction: a verified model

This project models the crime-hotspot pipeline of a community safety app in
Dafny. The pipeline has two parts.

- **The K-Means engine** (`KMeansClustering` in `lib/kmeans-clustering.ts`)
  runs Lloyd's algorithm over 2-D points that carry a payload:
  - it clamps the cluster count `k` and seeds `k` centroids at randomly drawn,
    distinct input indices;
  - it then repeats assignment, recomputation of the means and a convergence
    test, for at most `maxIterations` passes;
  - it returns the clusters of the last assignment pass, numbered
    `cluster_0, cluster_1, …`, each with a risk level.
- **The hotspot predictor** (`HotspotService.predictHotspots` in
  `lib/hotspot-service.ts`):
  - turns crime reports with coordinates and SOS alerts into points;
  - picks `k = min(5, max(2, ceil(n/3)))` and runs the engine;
  - projects the clusters into hotspots;
  - tags each report with the cluster holding its coordinates;
  - wraps everything in a result envelope.

`getRiskLevelColor` maps risk level names to display colours.

## Modules

| file | module | contents |
|---|---|---|
| `wrappers.dfy` | `Wrappers` | `Option` and `Result` |
| `text.dfy` | `Text` | decimal rendering of indices (`cluster_${index}`) and its inverse |
| `kmeans_spec.dfy` | `KMeansSpec` | points, centroids and clusters, and the functions that define each engine step and a whole run (`ClusterSpec`) |
| `kmeans.dfy` | `KMeans` | the engine's imperative methods, each proved equal to its defining function |
| `kmeans_properties.dfy` | `KMeansProperties` | what one assignment pass and a whole run guarantee |
| `hotspots.dfy` | `Hotspots` | the report, alert, hotspot and result records, and the predictor as a pure function |
| `hotspots_properties.dfy` | `HotspotProperties` | what the predictor guarantees |

## How the model represents the source

- **Coordinates** are Dafny `real`s.
- **Distances.** `distance` is the square root of `SquaredDistance`. The
  square root is monotone, so every comparison of distances is modelled as a
  comparison of squared distances. The convergence threshold `1e-4` becomes
  `SquaredThreshold` (`1e-8`).
- **The nearest-centroid scan** starts from `Number.POSITIVE_INFINITY`. That
  value is the `Extended` datatype.
- **Randomness.** `Math.random` is replaced by a parameter
  `draws: seq<nat>`, which holds the successive values of
  `Math.floor(Math.random() * points.length)`. The seeding loop consumes the
  draws and skips values it has already used. When there are points,
  `SeedsAvailable` requires every draw to be a valid index, and enough
  distinct draws for the clamped `k`; without points it asks nothing.
  Under that requirement the loop terminates.
- **The main loop.** `KMeans.ClusterPoints` is the source's `cluster` loop,
  including its early `break`. It is proved equal to `KMeansSpec.ClusterSpec`,
  whose run is `KMeansSpec.Lloyd`. The predictor uses that function.
- **Unlike textbook Lloyd's algorithm, this engine works as follows.**
  - A cluster that receives no point in a pass is dropped
    (`lib/kmeans-clustering.ts:104`). Its centroid is not kept. The next
    centroid list is therefore shorter, so the convergence test fails and,
    if passes remain, another pass runs. On the last permitted pass the
    loop ends and that pass's shorter cluster list is returned.
  - The result is the clusters of the last assignment pass. Each cluster
    carries the centroid used in that pass, not the recomputed mean.
  - The clusters are not rebuilt from the last centroids.
  - If `k <= 0` and there are points, the first push into `clusters[0]`
    throws a `TypeError`. `ClusterSpec` returns `Err` with that message, and
    the predictor turns the `Err` into its failure envelope.
  - The predictor itself always asks for `k >= 2`, so it never hits this
    case; `PredictSucceeds` proves that it succeeds.
  - If `maxIterations <= 0`, the engine returns no clusters.

## Model

| member | source | states |
|---|---|---|
| Text.NatToString | lib/kmeans-clustering.ts:46 | an index renders as a non-empty string of decimal digits with no leading zero |
| Text.ParseNatToString | lib/kmeans-clustering.ts:46 | reading the rendering of an index back gives the index |
| Text.NatToStringInjective | lib/kmeans-clustering.ts:46 | different indices render differently |
| Text.PrefixedInjective | lib/hotspot-service.ts:75 | different indices behind a common prefix give different ids |
| KMeansSpec.Below | lib/kmeans-clustering.ts:95 | defines the strict `dist < minDistance` test, with every distance below infinity |
| KMeansSpec.SquaredDistance | lib/kmeans-clustering.ts:71-75 | defines the square of `distance`; all distance comparisons use it (see `NearestIndex`, `Converged`) |
| KMeansSpec.NearestIndex | lib/kmeans-clustering.ts:89-99 | the chosen centroid is at minimal distance from the point and strictly closer than every centroid before it, so ties go to the lowest index |
| KMeansSpec.ClusterId | lib/kmeans-clustering.ts:82 | defines the id `cluster_` followed by the decimal index, used for the buckets here and the final clusters at line 46; proved injective in `ClusterIdInjective` |
| KMeansSpec.Members | lib/kmeans-clustering.ts:89-101 | defines the points pushed into centroid `i`'s cluster, in input order; proved in `MembersAreNearest` and `MembersInOrder` |
| KMeansSpec.Bucket | lib/kmeans-clustering.ts:81-86 | defines centroid `i`'s cluster before the filter: id `cluster_i`, centroid `i`, its members; proved in `BucketsCover` |
| KMeansSpec.Buckets | lib/kmeans-clustering.ts:81-102 | one cluster per centroid, in centroid order, cluster `i` being centroid `i`'s; proved in `BucketsCover` and `BucketsDistinctIds` |
| KMeansSpec.NonEmpty | lib/kmeans-clustering.ts:104 | every kept cluster is one of the input clusters and has points; nothing is kept only when every cluster is empty |
| KMeansSpec.Assignment | lib/kmeans-clustering.ts:77-105 | defines one assignment pass; `KMeans.AssignPointsToClusters` is proved equal to it, and `AssignmentPartitions` proves it partitions the points |
| KMeansSpec.AssignmentSize | lib/kmeans-clustering.ts:77-105 | a pass yields at most one cluster per centroid, and at least one cluster when there are points |
| KMeansSpec.SumLatitude | lib/kmeans-clustering.ts:110 | defines the latitude sum of the `reduce`; proved in `SumLatitudeBounds` |
| KMeansSpec.SumLongitude | lib/kmeans-clustering.ts:111 | defines the longitude sum of the `reduce`; proved in `SumLongitudeBounds` |
| KMeansSpec.Mean | lib/kmeans-clustering.ts:107-117 | defines `calculateCentroid`; proved in `MeanIsAverage`, `MeanWithinBounds` and `MeanOfIdentical` |
| KMeansSpec.Means | lib/kmeans-clustering.ts:34 | one recomputed centroid per cluster, in cluster order, each the mean of that cluster's points |
| KMeansSpec.Converged | lib/kmeans-clustering.ts:119-133 | true exactly when the new list is at least as long as the old one and every old centroid is within the threshold of the new one at its index |
| KMeansSpec.IsHighPriority | lib/kmeans-clustering.ts:138 | defines the filter test: priority "emergency" or "high" |
| KMeansSpec.HighPriorityCount | lib/kmeans-clustering.ts:138 | the high-priority count never exceeds the number of points; proved in `HighPriorityCountAppend` and `HighPriorityCountExtremes` |
| KMeansSpec.RiskLevelOf | lib/kmeans-clustering.ts:135-144 | no points give Low; High exactly when more than half the points are high or emergency; Medium exactly when more than a fifth but at most half are |
| KMeansSpec.PercentageFacts | lib/kmeans-clustering.ts:139-142 | the percentage tests `> 50` and `> 20` are the ratio tests `2c > n` and `5c > n` |
| KMeansSpec.ClampK | lib/kmeans-clustering.ts:23 | the count used is `min(k, max(1, n - 1))` |
| KMeansSpec.FirstDistinct | lib/kmeans-clustering.ts:55-60 | the seeding indices have no repeats, and they are exactly the values drawn |
| KMeansSpec.FirstDistinctPrefix | lib/kmeans-clustering.ts:57-66 | the indices chosen after some draws are a prefix of those chosen after all of them |
| KMeansSpec.SeedsAvailable | lib/kmeans-clustering.ts:53-69 | defines what the random draws must supply when there are points: valid indices, and enough distinct ones for the clamped `k` |
| KMeansSpec.SeedIndices | lib/kmeans-clustering.ts:53-69 | seeding uses `max(k, 0)` indices, each of them drawn |
| KMeansSpec.Seeds | lib/kmeans-clustering.ts:61-64 | one centroid per index, at the coordinates of the point at that index |
| KMeansSpec.Lloyd | lib/kmeans-clustering.ts:29-42 | the centroids of the last pass are non-empty and never more than the seeds |
| KMeansSpec.LloydStep | lib/kmeans-clustering.ts:37-41 | unfolding helper for the loop proof: a pass that did not converge, with passes left, continues from the recomputed means |
| KMeansSpec.Label | lib/kmeans-clustering.ts:45-50 | defines the final numbering, one cluster per cluster; proved in `LabelKeepsPoints` and `LabelIsClustering` |
| KMeansSpec.ClusterSpec | lib/kmeans-clustering.ts:21-51 | defines what `cluster` returns for given draws; `KMeans.ClusterPoints` is proved equal to it, and `ClusterSpecProperties` and `ClusterSpecEdgeCases` prove its guarantees |
| KMeans.InitializeCentroids | lib/kmeans-clustering.ts:53-69 | the seeding loop returns the coordinates of the points at the first `k` distinct draws |
| KMeans.FindNearestCentroid | lib/kmeans-clustering.ts:89-99 | the scan from infinity returns the nearest centroid with ties to the lowest index |
| KMeans.AssignPointsToClusters | lib/kmeans-clustering.ts:77-105 | the in-place pushes into an array of clusters, followed by the filter, give exactly the assignment pass `Assignment` |
| KMeans.ClusterPoints | lib/kmeans-clustering.ts:21-51 | the bounded loop with its early break returns exactly `ClusterSpec` |
| KMeansProperties.MembersAreNearest | lib/kmeans-clustering.ts:93-101 | every point pushed into centroid `i`'s cluster has centroid `i` as its nearest |
| KMeansProperties.MembersInOrder | lib/kmeans-clustering.ts:89-101 | a cluster's points keep their input order |
| KMeansProperties.NonEmptyInOrder | lib/kmeans-clustering.ts:104 | the filter keeps the clusters in their order |
| KMeansProperties.NonEmptyKeepsPoints | lib/kmeans-clustering.ts:104 | the filter drops no point |
| KMeansProperties.NonEmptyDistinctIds | lib/kmeans-clustering.ts:104 | the filter keeps ids distinct |
| KMeansProperties.AddPointToOneCluster | lib/kmeans-clustering.ts:101 | one push adds exactly one copy of the point to the points of all clusters |
| KMeansProperties.BucketsCover | lib/kmeans-clustering.ts:81-102 | before the filter, the clusters hold every input point exactly once |
| KMeansProperties.ClusterIdInjective | lib/kmeans-clustering.ts:82 | two clusters with the same id have the same index |
| KMeansProperties.BucketsDistinctIds | lib/kmeans-clustering.ts:81-86 | the clusters of a pass carry pairwise distinct ids |
| KMeansProperties.AssignmentClusterOrigin | lib/kmeans-clustering.ts:81-104 | each cluster of a pass is the non-empty cluster of one centroid |
| KMeansProperties.AssignmentClusterNearest | lib/kmeans-clustering.ts:89-104 | each cluster of a pass is non-empty and in input order, and its centroid and id are those of the nearest centroid of each of its points |
| KMeansProperties.AssignmentPartitions | lib/kmeans-clustering.ts:77-105 | a pass partitions the points: every point in exactly one cluster, clusters non-empty, in order and no more than the centroids, each point with its nearest centroid, ids distinct |
| KMeansProperties.SameLocationSameCluster | lib/kmeans-clustering.ts:89-101 | two points at the same coordinates land in the same cluster |
| KMeansProperties.SumLatitudeBounds | lib/kmeans-clustering.ts:110 | the latitude sum lies between `n` times any lower bound and `n` times any upper bound |
| KMeansProperties.SumLongitudeBounds | lib/kmeans-clustering.ts:111 | the same for the longitude sum |
| KMeansProperties.MeanIsAverage | lib/kmeans-clustering.ts:107-117 | the mean of no points is (0, 0); otherwise the mean times the number of points is the coordinate sum |
| KMeansProperties.MeanLatitudeWithin | lib/kmeans-clustering.ts:110-114 | the mean latitude lies within any bounds on the latitudes |
| KMeansProperties.MeanLongitudeWithin | lib/kmeans-clustering.ts:111-115 | the mean longitude lies within any bounds on the longitudes |
| KMeansProperties.MeanWithinBounds | lib/kmeans-clustering.ts:107-117 | the recomputed centroid lies inside any box holding the cluster's points |
| KMeansProperties.MeanOfIdentical | lib/kmeans-clustering.ts:107-117 | points all at one place have their mean at that place |
| KMeansProperties.ClampKBounds | lib/kmeans-clustering.ts:23 | for `k >= 1` and points: `1 <= k_eff <= k` and `k_eff <= max(1, n - 1)`; `k` becomes `max(1, n - 1)` exactly when `k >= n` |
| KMeansProperties.SeedsFromDistinctPoints | lib/kmeans-clustering.ts:53-69 | seeding yields `k` centroids at the coordinates of `k` pairwise distinct valid indices |
| KMeansProperties.FinalCentroids | lib/kmeans-clustering.ts:29-42 | the centroids of a run's last pass are between 1 and `k_eff` |
| KMeansProperties.LabelKeepsPoints | lib/kmeans-clustering.ts:45-50 | numbering the clusters keeps all their points |
| KMeansProperties.ClusterSpecIsLabelled | lib/kmeans-clustering.ts:21-51 | unfolding helper for the loop proof: a run with points, `k >= 1` and iterations returns the numbered clusters of the pass around its final centroids |
| KMeansProperties.LabelCovers | lib/kmeans-clustering.ts:45-50 | numbering keeps every point exactly once |
| KMeansProperties.LabelNumbers | lib/kmeans-clustering.ts:45-50 | after numbering, cluster `m` is `cluster_m`, non-empty, in input order, with the risk of its own points |
| KMeansProperties.LabelKeepsNearest | lib/kmeans-clustering.ts:45-50 | numbering keeps each cluster's centroid nearest to its points |
| KMeansProperties.DistinctIdsSeparate | lib/kmeans-clustering.ts:89-104 | clusters named after the nearest centroid of their points, with distinct names, never share a location |
| KMeansProperties.LabelSeparates | lib/kmeans-clustering.ts:45-50 | numbering keeps locations separated |
| KMeansProperties.LabelIsClustering | lib/kmeans-clustering.ts:45-50 | numbering a partition of the points gives a clustering (see `IsClustering`) |
| KMeansProperties.LabelledIsClustering | lib/kmeans-clustering.ts:29-50 | the numbered clusters of any assignment pass over points are a clustering |
| KMeansProperties.FirstPointsApart | lib/kmeans-clustering.ts:21-51 | two different clusters of a clustering start with input points at different coordinates |
| KMeansProperties.IdenticalPointsOneCluster | lib/kmeans-clustering.ts:21-51 | points that all share coordinates make one cluster holding all of them in order |
| KMeansProperties.ClusterSpecProperties | lib/kmeans-clustering.ts:21-51 | a run with points, `k >= 1` and iterations succeeds with a clustering: 1 to `k_eff` clusters `cluster_0…`, non-empty, in input order, together holding every point exactly once, each with its own risk and the final centroid nearest to each of its points, same coordinates in the same cluster |
| KMeansProperties.ClusterSpecEdgeCases | lib/kmeans-clustering.ts:21-31 | no points give no clusters for any `k`; no iterations give no clusters; `k <= 0` with points fails with the TypeError |
| KMeansProperties.RiskMonotone | lib/kmeans-clustering.ts:135-144 | for a fixed size, more high-priority points never lower the risk |
| KMeansProperties.HighPriorityCountAppend | lib/kmeans-clustering.ts:138 | the high-priority count of a concatenation is the sum of the counts |
| KMeansProperties.HighPriorityCountExtremes | lib/kmeans-clustering.ts:138 | all high priority counts all points; none counts zero |
| KMeansProperties.NoHighPriorityLowRisk | lib/kmeans-clustering.ts:135-144 | points with no high or emergency priority make a Low cluster |
| Hotspots.Truthy | lib/hotspot-service.ts:38 | defines JavaScript truthiness of an optional coordinate: present and not zero |
| Hotspots.HasCoordinates | lib/hotspot-service.ts:38 | defines the report filter: both coordinates truthy |
| Hotspots.WithCoordinates | lib/hotspot-service.ts:37-38 | the reports kept all have two truthy coordinates |
| Hotspots.AlertAddress | lib/hotspot-service.ts:54 | an alert's non-empty address is kept; a missing or empty one becomes "GPS Coordinates" |
| Hotspots.ReportPoint | lib/hotspot-service.ts:39-46 | defines the point of a report: its coordinates, title, category, priority and address |
| Hotspots.AlertPoint | lib/hotspot-service.ts:48-55 | defines the point of an alert: its coordinates, the SOS title, emergency category and priority; proved in `AlertsAreEmergencies` |
| Hotspots.AlertPoints | lib/hotspot-service.ts:48-55 | one point per alert |
| Hotspots.BuildPoints | lib/hotspot-service.ts:35-56 | the points are one per kept report, in order, then one per alert, in order |
| Hotspots.CeilThird | lib/hotspot-service.ts:70 | the result is `ceil(n / 3)`: the least `c` with `n <= 3c` |
| Hotspots.ChooseK | lib/hotspot-service.ts:70 | `k` is between 2 and 5, at least a third of the points unless 5, and less than a third plus one unless 2 |
| Hotspots.Summary | lib/hotspot-service.ts:80-86 | defines the crime listed for a point: title, category, priority and coordinates |
| Hotspots.Summaries | lib/hotspot-service.ts:80-86 | one crime per point; proved in `SummariesKeepOrder` |
| Hotspots.HotspotId | lib/hotspot-service.ts:75 | defines the id `hotspot_i` |
| Hotspots.ToHotspot | lib/hotspot-service.ts:74-87 | defines hotspot `i` of a cluster; proved in `HotspotOfCluster` |
| Hotspots.ToHotspots | lib/hotspot-service.ts:74-87 | one hotspot per cluster; proved in `HotspotOfCluster` and `CrimeCountsAddUp` |
| Hotspots.HoldsLocation | lib/hotspot-service.ts:94-96 | defines the `some` test: a point of the cluster has exactly these coordinates |
| Hotspots.FindClusterIndex | lib/hotspot-service.ts:93-97 | the index of the first cluster holding a point at the coordinates, or -1 exactly when none does |
| Hotspots.ClusterTag | lib/hotspot-service.ts:100 | defines the tag: `cluster_i` for a found index, "unclustered" otherwise |
| Hotspots.TagReport | lib/hotspot-service.ts:92-101 | defines the tagged entry of one report; proved in `TagOfCover` |
| Hotspots.TagReports | lib/hotspot-service.ts:90-102 | one tagged entry per kept report, in order, with the report unchanged |
| Hotspots.EmptyResult | lib/hotspot-service.ts:58-67 | defines the success envelope with the no-data message, empty lists and zero counts; `EmptyInput` proves the predictor returns it when no point is built |
| Hotspots.FailureResult | lib/hotspot-service.ts:111-121 | failure: no success, the error is the fixed prefix followed by the message, empty lists and zero counts |
| Hotspots.SuccessResult | lib/hotspot-service.ts:104-110 | defines the success envelope built from clusters; proved in `SuccessTotals` |
| Hotspots.DrawsSuffice | lib/hotspot-service.ts:70-71 | defines what the draws must supply for the predictor's run |
| Hotspots.PredictHotspots | lib/hotspot-service.ts:32-122 | defines the predictor: the `EmptyResult` envelope without points, the failure envelope on an engine error, the success envelope otherwise; proved in `EmptyInput`, `PredictSucceeds`, `PredictHotspotCount`, `HotspotsMirrorClusters` and `TagIsOwnCluster` |
| Hotspots.RiskLevelName | lib/hotspot-service.ts:79 | defines the name of a risk level: "High", "Medium" or "Low" |
| Hotspots.GetRiskLevelColor | lib/hotspot-service.ts:127-138 | "High", "Medium" and "Low" map to red, orange and green, and exactly the other strings map to gray |
| HotspotProperties.WithCoordinatesInOrder | lib/hotspot-service.ts:37-38 | the kept reports are those with two truthy coordinates, in input order |
| HotspotProperties.WithCoordinatesCounts | lib/hotspot-service.ts:37-38 | each report with coordinates is kept as many times as it occurs, and any other report is dropped |
| HotspotProperties.WithCoordinatesFilters | lib/hotspot-service.ts:37-38 | the kept reports are exactly those with two truthy coordinates, in input order, each as many times as it occurs |
| HotspotProperties.NoPointsIff | lib/hotspot-service.ts:35-58 | there is nothing to cluster exactly when there are no alerts and no report has coordinates |
| HotspotProperties.AlertPointsHighPriority | lib/hotspot-service.ts:48-55 | every alert point is high priority, so the alert points' high-priority count is the number of alerts |
| HotspotProperties.AlertsCountHighPriority | lib/hotspot-service.ts:48-55 | the points clustered hold at least one high-priority point per alert |
| HotspotProperties.AlertsAreEmergencies | lib/hotspot-service.ts:48-55 | each alert becomes an emergency point at the alert's coordinates, so the points hold at least one high-priority point per alert |
| HotspotProperties.CrimeCountsAddUp | lib/hotspot-service.ts:74-87 | the crime counts of the hotspots add up to the points of the clusters |
| HotspotProperties.HotspotHoldsIff | lib/hotspot-service.ts:80-96 | a hotspot lists a crime at some coordinates exactly when its cluster holds a point there |
| HotspotProperties.SuccessTotals | lib/hotspot-service.ts:104-110 | the answer for a clustering succeeds, has one hotspot per cluster, and its crime counts sum to its total |
| HotspotProperties.SummariesKeepOrder | lib/hotspot-service.ts:80-86 | projecting points to crimes keeps a subsequence a subsequence |
| HotspotProperties.HotspotOfCluster | lib/hotspot-service.ts:74-87 | hotspot `i` is `hotspot_i`, with the centroid and risk of cluster `i`, one crime per point in order, a crime count equal to the number of crimes and positive, crimes that follow input order, and its centroid nearest to each crime |
| HotspotProperties.TagOfCover | lib/hotspot-service.ts:89-102 | when the clusters cover the points and separate locations, a clustered report is tagged with a cluster whose hotspot lists its coordinates, and only such a cluster; never "unclustered" |
| HotspotProperties.EffectiveClusterCount | lib/hotspot-service.ts:70-71 | the predictor's clamped count is between 1 and 5, below the number of points unless there is one, and at least 2 for more than two points |
| HotspotProperties.PredictorRun | lib/hotspot-service.ts:69-110 | a run with points yields a clustering, and the answer is built from it |
| HotspotProperties.EmptyInput | lib/hotspot-service.ts:58-67 | with nothing to cluster, the answer is success with the no-data message, empty lists and zero counts |
| HotspotProperties.PredictSucceeds | lib/hotspot-service.ts:104-110 | a run with points succeeds with no error; the total counts every kept report and every alert; one hotspot per cluster; crime counts add up to the total |
| HotspotProperties.PredictHotspotCount | lib/hotspot-service.ts:70-87 | a run with `n` points makes between 1 and 5 hotspots, and fewer than `n` unless `n` is 1 |
| HotspotProperties.HotspotsMirrorClusters | lib/hotspot-service.ts:74-87 | hotspot `i` of a run is `hotspot_i`, has the risk level of cluster `i`'s points and one crime per point of it, non-empty, counts its crimes, lists projections of input points in order, and sits at the final centroid nearest to each of its crimes |
| HotspotProperties.TagIsOwnCluster | lib/hotspot-service.ts:89-102 | every kept report appears once, in order and unchanged, tagged with a cluster whose hotspot lists its coordinates, and only such a cluster |
| HotspotProperties.SinglePointClustering | lib/kmeans-clustering.ts:23-50 | one point makes exactly one cluster holding it |
| HotspotProperties.SingleEmergencyAnswer | lib/hotspot-service.ts:74-102 | a clustering of one emergency report gives one High hotspot with one crime, and the report tagged `cluster_0` |
| HotspotProperties.SingleEmergencyReport | lib/hotspot-service.ts:32-122 | one emergency report alone gives one High hotspot holding it, tagged `cluster_0` |
| HotspotProperties.NoHighPriorityClustering | lib/hotspot-service.ts:74-87 | a clustering of points with no high or emergency priority has only Low hotspots |
| HotspotProperties.NoHighPriorityPoints | lib/hotspot-service.ts:35-46 | reports with no high or emergency priority and no alerts give no high-priority point |
| HotspotProperties.NoHighPriorityAllLow | lib/hotspot-service.ts:32-122 | with no alerts, reports with no high or emergency priority make only Low hotspots |
| HotspotProperties.RiskColorsDistinct | lib/hotspot-service.ts:127-138 | the three risk levels get three different colours, none of them gray |

`KMeansProperties.IsClustering` names what a finished run guarantees. It is
the conjunction of four predicates:
- `CoversPoints`: every input point appears exactly once;
- `NumberedClusters`: cluster `m` is `cluster_m`, non-empty, in input order,
  with the risk of its own points;
- `NearestCentroids`: each cluster's centroid is the final centroid nearest
  to each of its points;
- `SeparatesLocations`: points at the same coordinates share a cluster.

It also bounds the number of clusters between 1 and `k_eff`.

## Left out

- IEEE-754 arithmetic, NaN and `Math.sqrt`. Coordinates are reals and
  distances are compared squared. Rounding in the means and in the
  percentage of `calculateRiskLevel` is not modelled.
- `Math.random`. The draws are a parameter, and the probabilistic
  termination of the seeding loop when draws repeat is not modelled.
- `async`, the `try`/`catch` around unexpected exceptions, and
  `console.error` in `predictHotspots`.
  - The only exception the modelled code can raise is the `k <= 0`
    TypeError, and that case is modelled.
  - Exceptions from malformed payloads (a missing `location` object, a
    getter that throws) are not modelled. `FailureResult` gives the envelope
    such a failure would produce.
- Fields that play no part in the pipeline:
  - the `Date` fields of reports and alerts (`dateTime`, `createdAt`,
    `updatedAt`, `timestamp`);
  - a report's `evidence` list.
- Strings instead of enumerations. The enumerated string fields
  (`category`, `priority`, `status`) are plain strings, because the pipeline
  compares them with string literals.
- KMeansSpec.ClusterSpec: takes an integer `k`, while the source's `cluster`
  takes any number; with a fractional `k` the seeding loop rounds up (4 points
  and `k = 2.5` seed 3 centroids). The predictor always passes an integer.
- KMeans.ClusterPoints: takes an integer `k` for the same reason.
- `Point.address` is optional in the source. Here it is always a string,
  because every point the predictor builds has one.
- Hotspot crime coordinates are optional in the source type, but they are
  always filled. Here they are plain reals.
- `Hotspots.PredictHotspots`, `KMeans.ClusterPoints` and
  `KMeans.InitializeCentroids` require the draws to supply enough distinct
  valid indices. The source instead keeps drawing until it has them.
- Mutation of the objects returned by the engine by later code is not
  modelled: every value is immutable.
