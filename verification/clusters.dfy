/** A globular cluster as read from one catalogue line: right ascension in
    hours and minutes, declination in degrees and minutes, Galactic latitude
    and longitude in degrees, and line-of-sight distance in kilolight-years. */
module Clusters {

  datatype Cluster = Cluster(
    raHour: real,
    raMin: real,
    decDeg: real,
    decMin: real,
    glat: real,
    glon: real,
    distance: real)

  /** Builds a record from the seven numeric fields of a line. Every field is
      copied, except that the declination minutes take the sign of the
      declination degrees (a degree value of zero counts as non-negative). */
  function MakeCluster(data: seq<real>): (c: Cluster)
    requires |data| >= 7
    ensures c.raHour == data[0] && c.raMin == data[1] && c.decDeg == data[2]
    ensures c.glat == data[4] && c.glon == data[5] && c.distance == data[6]
    ensures c.decDeg >= 0.0 ==> c.decMin == data[3]
    ensures c.decDeg < 0.0 ==> c.decMin == -data[3]
  {
    Cluster(data[0], data[1], data[2], if data[2] >= 0.0 then data[3] else -data[3],
            data[4], data[5], data[6])
  }

  /** The seven input fields that build `c`: the inverse of `MakeCluster`. */
  function FieldsOf(c: Cluster): (data: seq<real>)
    ensures |data| == 7
  {
    [c.raHour, c.raMin, c.decDeg, if c.decDeg >= 0.0 then c.decMin else -c.decMin,
     c.glat, c.glon, c.distance]
  }

  /** Right ascension in decimal hours. */
  function DecimalRa(c: Cluster): real
  {
    c.raHour + c.raMin / 60.0
  }

  /** Declination in decimal degrees. */
  function DecimalDec(c: Cluster): real
  {
    c.decDeg + c.decMin / 60.0
  }

  /** A record whose hour is whole, whose minutes lie in [0, 60), and whose
      declination minutes are under 60 in size and carry the degrees' sign. */
  predicate Sexagesimal(c: Cluster)
  {
    && c.raHour == c.raHour.Floor as real
    && 0.0 <= c.raMin < 60.0
    && (c.decDeg >= 0.0 ==> 0.0 <= c.decMin < 60.0)
    && (c.decDeg < 0.0 ==> -60.0 < c.decMin <= 0.0)
  }

  /** The constructor loses nothing: rebuilding from a record's fields gives the record. */
  lemma RecordRoundTrip(c: Cluster)
    ensures MakeCluster(FieldsOf(c)) == c
  {
  }

  /** ... and reading a record's fields back gives the first seven input fields. */
  lemma FieldsRoundTrip(data: seq<real>)
    requires |data| >= 7
    ensures FieldsOf(MakeCluster(data)) == data[..7]
  {
  }

  /** With non-negative input minutes, degrees and minutes combine consistently:
      the decimal declination has the sign of the degrees and magnitude
      |degrees| + minutes/60. */
  lemma DecimalDecFollowsDegreeSign(data: seq<real>)
    requires |data| >= 7 && data[3] >= 0.0
    ensures var c := MakeCluster(data);
      && (DecimalDec(c) < 0.0 <==> c.decDeg < 0.0)
      && (if c.decDeg < 0.0 then -DecimalDec(c) else DecimalDec(c))
         == (if c.decDeg < 0.0 then -c.decDeg else c.decDeg) + data[3] / 60.0
  {
  }

  /** Without a non-negative minute token the sign rule fails: -29 degrees
      and -30 minutes store +30 minutes, so the decimal declination is -28.5
      where -29.5 was meant. */
  lemma NegativeMinuteTokenBreaksSign()
    ensures var c := MakeCluster([0.0, 0.0, -29.0, -30.0, 0.0, 0.0, 0.0]);
      && c.decDeg == -29.0 && c.decMin == 30.0
      && DecimalDec(c) == -28.5
      && !Sexagesimal(c)
  {
  }

  /** A line with a whole hour and minutes in [0, 60) builds a sexagesimal record. */
  lemma MakeClusterIsSexagesimal(data: seq<real>)
    requires |data| >= 7
    requires data[0] == data[0].Floor as real && 0.0 <= data[1] < 60.0 && 0.0 <= data[3] < 60.0
    ensures Sexagesimal(MakeCluster(data))
  {
  }

  /** The module's own example record, the presumed Galactic Centre at
      17h45m, -29 degrees 0.5 minutes: its minutes become negative. */
  lemma GalacticCentreRecord()
    ensures MakeCluster([17.0, 45.0, -29.0, 0.5, 0.0, 0.0, 0.0])
         == Cluster(17.0, 45.0, -29.0, -0.5, 0.0, 0.0, 0.0)
  {
  }
}
