/**
 * The hotspot predictor: crime reports with coordinates and SOS alerts become
 * clustering points, the K-Means engine groups them, and the clusters are
 * projected into hotspots, a per-report cluster tag and a result envelope.
 */
module Hotspots {
  import Text
  import opened Wrappers
  import opened KMeansSpec

  /** Where a report happened; either coordinate may be missing. */
  datatype ReportLocation = ReportLocation(address: string, latitude: Option<real>, longitude: Option<real>)

  /** A citizen's crime report (dates and evidence attachments are not part of this model). */
  datatype CrimeReport = CrimeReport(
    id: string,
    userId: string,
    title: string,
    description: string,
    category: string,
    priority: string,
    status: string,
    location: ReportLocation,
    assignedOfficer: Option<string>)

  /** Where an SOS alert was raised: coordinates always, an address sometimes. */
  datatype AlertLocation = AlertLocation(latitude: real, longitude: real, address: Option<string>)

  /** An SOS alert (its timestamp is not part of this model). */
  datatype SOSAlert = SOSAlert(id: string, userId: string, location: AlertLocation, status: string, responderId: Option<string>)

  /** The part of a clustered point a hotspot lists. */
  datatype CrimeSummary = CrimeSummary(title: string, category: string, priority: string, latitude: real, longitude: real)

  datatype Hotspot = Hotspot(
    id: string,
    latitude: real,
    longitude: real,
    crimeCount: nat,
    riskLevel: RiskLevel,
    crimes: seq<CrimeSummary>)

  /** A report together with the id of the cluster that holds its coordinates. */
  datatype ClusteredCrime = ClusteredCrime(report: CrimeReport, clusterId: string)

  datatype PredictionResult = PredictionResult(
    success: bool,
    error: Option<string>,
    hotspots: seq<Hotspot>,
    clusteredCrimes: seq<ClusteredCrime>,
    totalClusters: nat,
    totalCrimes: nat)

  const NoDataMessage: string := "No crime data with coordinates available for analysis"
  const FailurePrefix: string := "Failed to predict hotspots: "
  const SOSTitle: string := "Emergency SOS Alert"
  const GPSFallback: string := "GPS Coordinates"
  const Unclustered: string := "unclustered"

  const HighColor: string := "#dc2626"
  const MediumColor: string := "#f59e0b"
  const LowColor: string := "#10b981"
  const DefaultColor: string := "#6b7280"

  // ---------------------------------------------------------------------------
  // Building the points
  // ---------------------------------------------------------------------------

  /** JavaScript truthiness of an optional number: present and not zero. */
  predicate Truthy(x: Option<real>)
  {
    x.Some? && x.value != 0.0
  }

  /** A report takes part in clustering when both of its coordinates are truthy. */
  predicate HasCoordinates(report: CrimeReport)
  {
    Truthy(report.location.latitude) && Truthy(report.location.longitude)
  }

  /** The reports that take part in clustering, in input order. */
  function WithCoordinates(reports: seq<CrimeReport>): (r: seq<CrimeReport>)
    ensures |r| <= |reports|
    ensures forall i :: 0 <= i < |r| ==> HasCoordinates(r[i])
    decreases |reports|
  {
    if |reports| == 0 then []
    else
      var last := reports[|reports| - 1];
      WithCoordinates(reports[..|reports| - 1]) + (if HasCoordinates(last) then [last] else [])
  }

  function ReportPoint(report: CrimeReport): Point
    requires HasCoordinates(report)
  {
    Point(report.location.latitude.value, report.location.longitude.value,
          report.title, report.category, report.priority, report.location.address)
  }

  /** An alert's address, or the fallback when it has none or an empty one. */
  function AlertAddress(address: Option<string>): (r: string)
    ensures address.Some? && address.value != "" ==> r == address.value
    ensures address.None? || address.value == "" ==> r == GPSFallback
  {
    if address.Some? && address.value != "" then address.value else GPSFallback
  }

  /** An alert becomes an emergency point at the alert's coordinates. */
  function AlertPoint(alert: SOSAlert): Point
  {
    Point(alert.location.latitude, alert.location.longitude,
          SOSTitle, "emergency", "emergency", AlertAddress(alert.location.address))
  }

  /** The points of the alerts, in order. */
  function AlertPoints(alerts: seq<SOSAlert>): (points: seq<Point>)
    ensures |points| == |alerts|
  {
    seq(|alerts|, j requires 0 <= j < |alerts| => AlertPoint(alerts[j]))
  }

  /** The points clustered: one per report with coordinates, then one per alert. */
  function BuildPoints(reports: seq<CrimeReport>, alerts: seq<SOSAlert>): (points: seq<Point>)
    ensures |points| == |WithCoordinates(reports)| + |alerts|
    ensures forall i :: 0 <= i < |WithCoordinates(reports)| ==> points[i] == ReportPoint(WithCoordinates(reports)[i])
    ensures forall i :: |WithCoordinates(reports)| <= i < |points| ==> points[i] == AlertPoint(alerts[i - |WithCoordinates(reports)|])
  {
    var located := WithCoordinates(reports);
    seq(|located|, i requires 0 <= i < |located| => ReportPoint(located[i])) + AlertPoints(alerts)
  }

  // ---------------------------------------------------------------------------
  // Choosing k
  // ---------------------------------------------------------------------------

  /** `ceil(n / 3)`. */
  function CeilThird(n: nat): (c: nat)
    ensures n <= 3 * c < n + 3
  {
    (n + 2) / 3
  }

  /** The cluster count asked for: a third of the points, rounded up, kept between 2 and 5. */
  function ChooseK(n: nat): (k: int)
    ensures 2 <= k <= 5
    ensures k == 5 || n <= 3 * k
    ensures k == 2 || 3 * (k - 1) < n
  {
    Min(5, Max(2, CeilThird(n)))
  }

  // ---------------------------------------------------------------------------
  // From clusters to hotspots and tags
  // ---------------------------------------------------------------------------

  function Summary(p: Point): CrimeSummary
  {
    CrimeSummary(p.title, p.category, p.priority, p.latitude, p.longitude)
  }

  /** The summaries of some points, in order. */
  function Summaries(points: seq<Point>): (r: seq<CrimeSummary>)
    ensures |r| == |points|
  {
    seq(|points|, i requires 0 <= i < |points| => Summary(points[i]))
  }

  function HotspotId(i: nat): string
  {
    "hotspot_" + Text.NatToString(i)
  }

  /** Cluster number `index` seen as a hotspot: its centroid, size, risk and crimes. */
  function ToHotspot(cluster: Cluster, index: nat): Hotspot
  {
    Hotspot(HotspotId(index), cluster.centroid.latitude, cluster.centroid.longitude,
            |cluster.points|, cluster.riskLevel, Summaries(cluster.points))
  }

  function ToHotspots(clusters: seq<Cluster>): (r: seq<Hotspot>)
    ensures |r| == |clusters|
  {
    seq(|clusters|, i requires 0 <= i < |clusters| => ToHotspot(clusters[i], i))
  }

  /** Some point of `cluster` has exactly these coordinates. */
  predicate HoldsLocation(cluster: Cluster, latitude: real, longitude: real)
  {
    exists i :: 0 <= i < |cluster.points| && cluster.points[i].latitude == latitude && cluster.points[i].longitude == longitude
  }

  /** The index of the first cluster holding a point at these coordinates, or -1 when none does. */
  function FindClusterIndex(clusters: seq<Cluster>, latitude: real, longitude: real): (r: int)
    ensures -1 <= r < |clusters|
    ensures r >= 0 ==> HoldsLocation(clusters[r], latitude, longitude)
    ensures r >= 0 ==> forall j :: 0 <= j < r ==> !HoldsLocation(clusters[j], latitude, longitude)
    ensures r == -1 ==> forall j :: 0 <= j < |clusters| ==> !HoldsLocation(clusters[j], latitude, longitude)
    decreases |clusters|
  {
    if |clusters| == 0 then -1
    else if HoldsLocation(clusters[0], latitude, longitude) then 0
    else
      var rest := FindClusterIndex(clusters[1..], latitude, longitude);
      if rest < 0 then -1 else rest + 1
  }

  /** The tag of a report: the id of the cluster found, or "unclustered". */
  function ClusterTag(index: int): string
  {
    if index >= 0 then ClusterId(index) else Unclustered
  }

  function TagReport(report: CrimeReport, clusters: seq<Cluster>): ClusteredCrime
    requires HasCoordinates(report)
  {
    var index := FindClusterIndex(clusters, report.location.latitude.value, report.location.longitude.value);
    ClusteredCrime(report, ClusterTag(index))
  }

  /** One tagged entry per report with coordinates, in input order, the report unchanged. */
  function TagReports(reports: seq<CrimeReport>, clusters: seq<Cluster>): (r: seq<ClusteredCrime>)
    ensures |r| == |WithCoordinates(reports)|
    ensures forall i :: 0 <= i < |r| ==> r[i].report == WithCoordinates(reports)[i]
  {
    var located := WithCoordinates(reports);
    seq(|located|, i requires 0 <= i < |located| => TagReport(located[i], clusters))
  }

  // ---------------------------------------------------------------------------
  // The envelopes and the predictor
  // ---------------------------------------------------------------------------

  /** The answer when no point has coordinates. */
  const EmptyResult: PredictionResult := PredictionResult(true, Some(NoDataMessage), [], [], 0, 0)

  /** The answer when the analysis throws: the message after a fixed prefix, nothing else. */
  function FailureResult(message: string): (r: PredictionResult)
    ensures !r.success && r.error.Some?
    ensures |FailurePrefix| <= |r.error.value|
    ensures r.error.value[..|FailurePrefix|] == FailurePrefix && r.error.value[|FailurePrefix|..] == message
    ensures r.hotspots == [] && r.clusteredCrimes == [] && r.totalClusters == 0 && r.totalCrimes == 0
  {
    PredictionResult(false, Some(FailurePrefix + message), [], [], 0, 0)
  }

  /** The answer built from the clusters of a run over `totalCrimes` points. */
  function SuccessResult(reports: seq<CrimeReport>, clusters: seq<Cluster>, totalCrimes: nat): PredictionResult
  {
    PredictionResult(true, None, ToHotspots(clusters), TagReports(reports, clusters), |clusters|, totalCrimes)
  }

  /** The random draws suffice for the seeding of a run over these reports and alerts. */
  predicate DrawsSuffice(reports: seq<CrimeReport>, alerts: seq<SOSAlert>, draws: seq<nat>)
  {
    var n := |BuildPoints(reports, alerts)|;
    SeedsAvailable(n, ChooseK(n), draws)
  }

  /**
   * Predicts hotspots from reports and alerts. `draws` stands for the random
   * indices the clustering's seeding draws.
   */
  function PredictHotspots(reports: seq<CrimeReport>, alerts: seq<SOSAlert>, draws: seq<nat>): PredictionResult
    requires DrawsSuffice(reports, alerts, draws)
  {
    var points := BuildPoints(reports, alerts);
    if |points| == 0 then EmptyResult
    else
      match ClusterSpec(points, ChooseK(|points|), draws, DefaultMaxIterations)
      case Err(message) => FailureResult(message)
      case Ok(clusters) => SuccessResult(reports, clusters, |points|)
  }

  // ---------------------------------------------------------------------------
  // Display colours
  // ---------------------------------------------------------------------------

  /** The name a risk level carries in the result. */
  function RiskLevelName(level: RiskLevel): string
  {
    match level
    case High => "High"
    case Medium => "Medium"
    case Low => "Low"
  }

  /** The display colour of a risk level name; gray for any other string. */
  function GetRiskLevelColor(riskLevel: string): (color: string)
    ensures riskLevel == "High" <==> color == HighColor
    ensures riskLevel == "Medium" <==> color == MediumColor
    ensures riskLevel == "Low" <==> color == LowColor
    ensures riskLevel !in {"High", "Medium", "Low"} <==> color == DefaultColor
  {
    if riskLevel == "High" then HighColor
    else if riskLevel == "Medium" then MediumColor
    else if riskLevel == "Low" then LowColor
    else DefaultColor
  }
}
