/** The Galactic Centre estimate: the clusters inside a fixed box on the sky
    around the presumed centre, and the means of their positions and of two
    distance measures. */
module Center {
  import opened Outcome
  import opened Seqs
  import opened Clusters

  const RaHourLow: real := 16.0
  const RaMinLow: real := 45.0
  const RaHourHigh: real := 18.0
  const RaMinHigh: real := 45.0
  const DecDegLow: real := -34.0
  const DecDegHigh: real := -24.0

  /** The right-ascension test exactly as written on hour and minute pairs. */
  predicate InRaWindow(c: Cluster)
    ensures InRaWindow(c) ==> RaHourLow <= c.raHour <= RaHourHigh
    ensures RaHourLow < c.raHour < RaHourHigh ==> InRaWindow(c)
  {
    && (c.raHour > RaHourLow || (c.raHour >= RaHourLow && c.raMin >= RaMinLow))
    && (c.raHour < RaHourHigh || (c.raHour <= RaHourHigh && c.raMin <= RaMinHigh))
  }

  /** The declination test: whole degrees only, minutes are not looked at. */
  predicate InDecBand(c: Cluster)
    ensures InDecBand(c) ==> c.decDeg < 0.0
    ensures c.decDeg == -29.0 ==> InDecBand(c)
  {
    DecDegLow <= c.decDeg <= DecDegHigh
  }

  predicate NearCenter(c: Cluster)
  {
    InRaWindow(c) && InDecBand(c)
  }

  /** The clusters kept by the filter, in catalogue order. */
  function Selected(gcs: seq<Cluster>): seq<Cluster>
  {
    Having(gcs, NearCenter, true)
  }

  function Distance(c: Cluster): real { c.distance }

  /** The line-of-sight distance projected by the cosines of Galactic latitude
      and longitude; `cosDeg` is the cosine of an angle given in degrees. */
  function Projected(c: Cluster, cosDeg: real -> real): real
  {
    c.distance * cosDeg(c.glat) * cosDeg(c.glon)
  }

  /** `Projected` for a fixed cosine, as a term function for `Sum`. */
  function ProjectedBy(cosDeg: real -> real): Cluster -> real
  {
    c => Projected(c, cosDeg)
  }

  /** The reported numbers: how many clusters were kept, their mean position
      in decimal hours and degrees, and the two mean distances. */
  datatype CenterEstimate = CenterEstimate(
    count: nat,
    meanRa: real,
    meanDec: real,
    meanDistance: real,
    meanProjected: real)

  /** What the estimate reports for a catalogue: the means over the kept
      clusters, or a division by zero when none is kept. */
  function CenterOf(gcs: seq<Cluster>, cosDeg: real -> real): (r: Result<CenterEstimate>)
    ensures r.Failure? ==> r.error == ZeroDivisionError
    ensures r.Success? ==> 0 < r.value.count <= |gcs|
  {
    HavingNoLonger(gcs, NearCenter, true);
    var sel := Selected(gcs);
    var n := |sel| as real;
    if |sel| == 0 then Failure(ZeroDivisionError)
    else Success(CenterEstimate(
      |sel|,
      Sum(sel, DecimalRa) / n,
      Sum(sel, DecimalDec) / n,
      Sum(sel, Distance) / n,
      Sum(sel, ProjectedBy(cosDeg)) / n))
  }

  /** The filter loop: keeps, in order, the clusters inside the window. */
  method SelectNearCenter(gcs: seq<Cluster>) returns (inRange: seq<Cluster>)
    ensures inRange == Selected(gcs)
  {
    inRange := [];
    for k := 0 to |gcs|
      invariant inRange == Selected(gcs[..k])
    {
      var gc := gcs[k];
      HavingSnoc(gcs[..k], gc, NearCenter);
      PrefixSnoc(gcs, k);
      if InRaWindow(gc) {
        if InDecBand(gc) {
          inRange := inRange + [gc];
        }
      }
    }
    assert gcs[..|gcs|] == gcs;
  }

  /** The summing loop: the totals of decimal RA, decimal Dec, distance and
      projected distance over the kept clusters. */
  method SumKept(inRange: seq<Cluster>, cosDeg: real -> real)
    returns (totalHour: real, totalDecDeg: real, totalDist: real, totalDistBetter: real)
    ensures totalHour == Sum(inRange, DecimalRa)
    ensures totalDecDeg == Sum(inRange, DecimalDec)
    ensures totalDist == Sum(inRange, Distance)
    ensures totalDistBetter == Sum(inRange, ProjectedBy(cosDeg))
  {
    totalHour, totalDecDeg, totalDist, totalDistBetter := 0.0, 0.0, 0.0, 0.0;
    for k := 0 to |inRange|
      invariant totalHour == Sum(inRange[..k], DecimalRa)
      invariant totalDecDeg == Sum(inRange[..k], DecimalDec)
      invariant totalDist == Sum(inRange[..k], Distance)
      invariant totalDistBetter == Sum(inRange[..k], ProjectedBy(cosDeg))
    {
      var gc := inRange[k];
      PrefixSnoc(inRange, k);
      SumSnoc(inRange[..k], gc, DecimalRa);
      SumSnoc(inRange[..k], gc, DecimalDec);
      SumSnoc(inRange[..k], gc, Distance);
      SumSnoc(inRange[..k], gc, ProjectedBy(cosDeg));
      totalHour := totalHour + gc.raHour;
      totalHour := totalHour + gc.raMin / 60.0;
      totalDecDeg := totalDecDeg + gc.decDeg;
      totalDecDeg := totalDecDeg + gc.decMin / 60.0;
      totalDist := totalDist + gc.distance;
      var dBetter := gc.distance * cosDeg(gc.glat) * cosDeg(gc.glon);
      totalDistBetter := totalDistBetter + dBetter;
    }
    assert inRange[..|inRange|] == inRange;
  }

  /** Filters the catalogue, then adds up positions and distances over the
      clusters kept and divides by their number. */
  method EstimateCenterDistance(gcs: seq<Cluster>, cosDeg: real -> real) returns (r: Result<CenterEstimate>)
    ensures r == CenterOf(gcs, cosDeg)
  {
    var inRange := SelectNearCenter(gcs);
    var countAll := |inRange|;
    var totalHour, totalDecDeg, totalDist, totalDistBetter := SumKept(inRange, cosDeg);
    if countAll == 0 {
      return Failure(ZeroDivisionError);
    }
    var n := countAll as real;
    r := Success(CenterEstimate(countAll, totalHour / n, totalDecDeg / n, totalDist / n, totalDistBetter / n));
  }

  /** For a whole hour and minutes in [0, 60), the hour/minute test is the
      interval test 16h45m <= RA <= 18h45m on minutes since 0h. */
  lemma RaWindowIsInterval(c: Cluster)
    requires c.raHour == c.raHour.Floor as real && 0.0 <= c.raMin < 60.0
    ensures InRaWindow(c) <==> 16.0 * 60.0 + 45.0 <= 60.0 * c.raHour + c.raMin <= 18.0 * 60.0 + 45.0
  {
    var h := c.raHour.Floor;
    if h <= 15 {
    } else if h == 16 {
    } else if h == 17 {
    } else if h == 18 {
    } else {
      assert h >= 19;
    }
  }

  /** The interval reading needs whole hours: 16.5h 0m passes the test as
      written although it lies before 16h45m. */
  lemma RaWindowNeedsWholeHours()
    ensures InRaWindow(Cluster(16.5, 0.0, -29.0, 0.0, 0.0, 0.0, 0.0))
    ensures 60.0 * 16.5 + 0.0 < 16.0 * 60.0 + 45.0
  {
  }

  /** Boundary cases: 16h30m and 18h50m are rejected; 16h45m, 17h00m and
      18h45m are accepted. */
  lemma RaWindowBoundaries(d: real)
    ensures !InRaWindow(Cluster(16.0, 30.0, d, 0.0, 0.0, 0.0, 0.0))
    ensures !InRaWindow(Cluster(18.0, 50.0, d, 0.0, 0.0, 0.0, 0.0))
    ensures InRaWindow(Cluster(16.0, 45.0, d, 0.0, 0.0, 0.0, 0.0))
    ensures InRaWindow(Cluster(17.0, 0.0, d, 0.0, 0.0, 0.0, 0.0))
    ensures InRaWindow(Cluster(18.0, 45.0, d, 0.0, 0.0, 0.0, 0.0))
  {
  }

  /** The selection is an order-preserving subsequence of the catalogue that
      holds every cluster passing both tests and nothing else; in particular
      no cluster outside the declination band is ever kept. */
  lemma SelectionIsExactlyNearCenter(gcs: seq<Cluster>)
    ensures forall c :: c in Selected(gcs) <==> c in gcs && InRaWindow(c) && InDecBand(c)
    ensures forall c :: c in Selected(gcs) ==> DecDegLow <= c.decDeg <= DecDegHigh
    ensures |Selected(gcs)| == |Positions(gcs, NearCenter, true)|
    ensures forall i :: 0 <= i < |Selected(gcs)| ==>
      Positions(gcs, NearCenter, true)[i] < |gcs|
      && Selected(gcs)[i] == gcs[Positions(gcs, NearCenter, true)[i]]
    ensures forall i, j :: 0 <= i < j < |Selected(gcs)| ==>
      Positions(gcs, NearCenter, true)[i] < Positions(gcs, NearCenter, true)[j]
    ensures forall p :: 0 <= p < |gcs| ==> (p in Positions(gcs, NearCenter, true) <==> NearCenter(gcs[p]))
  {
    forall c {
      HavingMembers(gcs, NearCenter, true, c);
    }
    HavingIsOrderedSubsequence(gcs, NearCenter, true);
  }

  /** The estimate fails, with a division by zero, exactly when no cluster of
      the catalogue passes the filter. */
  lemma CenterFailsIffNoneNear(gcs: seq<Cluster>, cosDeg: real -> real)
    ensures CenterOf(gcs, cosDeg).Failure? <==> forall c :: c in gcs ==> !NearCenter(c)
    ensures CenterOf(gcs, cosDeg).Failure? ==> CenterOf(gcs, cosDeg).error == ZeroDivisionError
  {
    SelectionIsExactlyNearCenter(gcs);
    if Selected(gcs) != [] {
      assert Selected(gcs)[0] in Selected(gcs);
    }
  }

  /** If every record is in proper sexagesimal form, the reported centre lies
      inside the window: its mean right ascension between 16.75h and 18.75h
      and its mean declination between -35 and -24 degrees. */
  lemma CenterWithinWindow(gcs: seq<Cluster>, cosDeg: real -> real)
    requires forall c :: c in gcs ==> Sexagesimal(c)
    requires CenterOf(gcs, cosDeg).Success?
    ensures CenterOf(gcs, cosDeg).value.count == |Selected(gcs)| > 0
    ensures 16.75 <= CenterOf(gcs, cosDeg).value.meanRa <= 18.75
    ensures -35.0 <= CenterOf(gcs, cosDeg).value.meanDec <= -24.0
  {
    var sel := Selected(gcs);
    forall c | c in sel
      ensures 16.75 <= DecimalRa(c) <= 18.75 && -35.0 <= DecimalDec(c) <= -24.0
    {
      HavingMembers(gcs, NearCenter, true, c);
      ClusterWithinWindow(c);
    }
    var n := |sel| as real;
    SumBounds(sel, DecimalRa, 16.75, 18.75);
    MeanBetween(Sum(sel, DecimalRa), n, 16.75, 18.75);
    SumBounds(sel, DecimalDec, -35.0, -24.0);
    MeanBetween(Sum(sel, DecimalDec), n, -35.0, -24.0);
  }

  /** One kept sexagesimal record lies inside the window. */
  lemma ClusterWithinWindow(c: Cluster)
    requires NearCenter(c) && Sexagesimal(c)
    ensures 16.75 <= DecimalRa(c) <= 18.75 && -35.0 <= DecimalDec(c) <= -24.0
  {
    RaWindowIsInterval(c);
  }

  lemma MeanBetween(total: real, n: real, lo: real, hi: real)
    requires n > 0.0 && lo * n <= total <= hi * n
    ensures lo <= total / n <= hi
  {
  }

  /** A catalogue of the single cluster 17h0m, -29 degrees, 10 kly: it is
      kept, and both distance estimates are 10 kly when the cosines are 1. */
  lemma SingleClusterNearCenter(cosDeg: real -> real)
    requires cosDeg(0.0) == 1.0
    ensures CenterOf([Cluster(17.0, 0.0, -29.0, 0.0, 0.0, 0.0, 10.0)], cosDeg)
         == Success(CenterEstimate(1, 17.0, -29.0, 10.0, 10.0))
  {
    var c := Cluster(17.0, 0.0, -29.0, 0.0, 0.0, 0.0, 10.0);
    assert [c][..0] == [];
    assert NearCenter(c);
    assert Having([c], NearCenter, true) == Having([c][..0], NearCenter, true) + [c];
  }

  /** A catalogue of one cluster at 10h keeps nothing, and the estimate fails. */
  lemma SingleClusterFarFromCenter(cosDeg: real -> real)
    ensures CenterOf([Cluster(10.0, 0.0, -29.0, 0.0, 0.0, 0.0, 10.0)], cosDeg) == Failure(ZeroDivisionError)
  {
    var c := Cluster(10.0, 0.0, -29.0, 0.0, 0.0, 0.0, 10.0);
    assert [c][..0] == [];
    assert !NearCenter(c);
    assert Having([c], NearCenter, true) == Having([c][..0], NearCenter, true);
  }
}
