// The whole program: load the catalogue, draw the chart, estimate the
// centre, stopping at the first error.

module Program {
  import opened Outcome
  import opened Seqs
  import opened Clusters
  import opened Loader
  import opened Center
  import opened Chart

  /** What one run reports when it gets to the end: the chart's counts and
      means, then the centre estimate. */
  datatype Report = Report(chart: ChartReport, center: CenterEstimate)

  /** The outcome of a run on the given lines: the first error raised by the
      loader, the chart or the estimate, in that order, or both reports. */
  function RunOf(lines: seq<seq<Token>>, cosDeg: real -> real): (r: Result<Report>)
    ensures r.Success? ==> r.value.chart.total == CatalogueLength(lines)
    ensures r.Success? ==> 0 < r.value.center.count <= r.value.chart.total
  {
    match LoadOf(lines)
    case Failure(e) => Failure(e)
    case Success(gcs) =>
      match ChartOf(gcs)
      case Failure(e) => Failure(e)
      case Success(chart) =>
        match CenterOf(gcs, cosDeg)
        case Failure(e) => Failure(e)
        case Success(center) => Success(Report(chart, center))
  }

  /** Loads the catalogue, then draws the chart, then estimates the centre. */
  method Run(lines: seq<seq<Token>>, cosDeg: real -> real) returns (r: Result<Report>)
    ensures r == RunOf(lines, cosDeg)
  {
    var loaded := LoadCatalogue(lines);
    if loaded.Failure? {
      return Failure(loaded.error);
    }
    var gcs := loaded.value;
    var chart := PrintChart(gcs);
    if chart.Failure? {
      return Failure(chart.error);
    }
    var center := EstimateCenterDistance(gcs, cosDeg);
    if center.Failure? {
      return Failure(center.error);
    }
    r := Success(Report(chart.value, center.value));
  }

  /** A run succeeds exactly when every catalogue line is well formed, every
      record has both chart keys and at least one record passes the centre
      filter. The chart then counts every catalogue line once, and the centre
      estimate is taken over a non-empty part of the same records. */
  lemma RunOfSpec(lines: seq<seq<Token>>, cosDeg: real -> real)
    ensures RunOf(lines, cosDeg).Success? <==>
      && LoadOf(lines).Success?
      && (forall c :: c in LoadOf(lines).value ==> Binned(c))
      && (exists c :: c in LoadOf(lines).value && NearCenter(c))
    ensures RunOf(lines, cosDeg).Success? ==>
      var rep := RunOf(lines, cosDeg).value;
      && rep.chart.total == CatalogueLength(lines)
      && 0 < rep.center.count <= rep.chart.total
  {
    LoadOfSpec(lines);
    if LoadOf(lines).Success? {
      var gcs := LoadOf(lines).value;
      ChartOfSpec(gcs);
      CenterFailsIffNoneNear(gcs, cosDeg);
      HavingNoLonger(gcs, NearCenter, true);
      if exists c :: c in gcs && NearCenter(c) {
        assert gcs != [];
      }
    }
  }

  /** With a blank first line (or no line at all) the catalogue is empty and
      the run stops at the chart's division by zero. */
  lemma EmptyCatalogueIsDivisionByZero(lines: seq<seq<Token>>, cosDeg: real -> real)
    requires lines == [] || IsBlank(lines[0])
    ensures RunOf(lines, cosDeg) == Failure(ZeroDivisionError)
  {
    assert CatalogueLength(lines) == 0;
    assert LoadOf(lines) == Success([]);
    ChartOfSpec([]);
  }
}
