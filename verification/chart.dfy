/** The sky chart: every cluster is put into a 2-hour by 15-degree bin of
    right ascension and declination, the bins are walked row by row to count
    the clusters in each, and the mean position of the whole catalogue is
    reported. */
module Chart {
  import opened Outcome
  import opened Seqs
  import opened Clusters

  /** The number of bins on each axis, and so of rows and of columns of the chart. */
  const BinCount: nat := 12

  /** Python's `x % w` on floats for a positive `w`: floor modulo, never negative. */
  function FloorMod(x: real, w: real): (m: real)
    requires w > 0.0
    ensures 0.0 <= m < w
  {
    var f := (x / w).Floor as real;
    var t := x / w - f;
    assert 0.0 <= t < 1.0;
    assert x - w * f == w * t;
    assert 0.0 <= w * t < w;
    x - w * f
  }

  /** The bin key `x - x % w`: the start of the width-`w` bin holding `x`. */
  function BinStart(x: real, w: int): (k: int)
    requires w > 0
    ensures k as real == x - FloorMod(x, w as real)
    ensures k as real <= x < (k + w) as real
  {
    w * (x / w as real).Floor
  }

  /** The right-ascension key `ra_hour - ra_hour % 2`. */
  function RaKey(c: Cluster): (a: int)
    ensures a % 2 == 0 && a as real <= c.raHour < (a + 2) as real
  {
    BinStart(c.raHour, 2)
  }

  /** The declination key `dec_deg - dec_deg % 15`. */
  function DecKey(c: Cluster): (d: int)
    ensures d % 15 == 0 && d as real <= c.decDeg < (d + 15) as real
  {
    BinStart(c.decDeg, 15)
  }

  function Bin(c: Cluster): (int, int)
  {
    (RaKey(c), DecKey(c))
  }

  /** The keys of the right-ascension tables: 0, 2, ..., 22. */
  predicate IsRaBin(a: int)
  {
    0 <= a < 24 && a % 2 == 0
  }

  /** The keys of the declination tables: -90, -75, ..., 75. */
  predicate IsDecBin(d: int)
  {
    -90 <= d < 90 && d % 15 == 0
  }

  /** A cluster whose two keys are both in the tables. */
  predicate Binned(c: Cluster)
  {
    IsRaBin(RaKey(c)) && IsDecBin(DecKey(c))
  }

  /** The key a failed lookup reports: the right-ascension table is looked up first. */
  function MissingKey(c: Cluster): (k: int)
    ensures !IsRaBin(RaKey(c)) ==> k == RaKey(c) && !IsRaBin(k)
    ensures IsRaBin(RaKey(c)) && !IsDecBin(DecKey(c)) ==> k == DecKey(c) && !IsDecBin(k)
  {
    if !IsRaBin(RaKey(c)) then RaKey(c) else DecKey(c)
  }

  /** Column `i` of the printed chart shows right-ascension bin `(2i + 12) % 24`:
      the hours are rotated by 12 so that the chart starts at 12h. */
  function ColumnKey(i: int): int
  {
    (2 * i + 12) % 24
  }

  function ColumnOf(a: int): int
  {
    ((a + 12) % 24) / 2
  }

  /** Row `r` of the printed chart shows declination bin `75 - 15r`. */
  function RowKey(r: int): int
  {
    75 - 15 * r
  }

  function RowOf(d: int): int
  {
    (75 - d) / 15
  }

  /** The number of clusters whose keys are `a` and `d`. */
  function CellCount(gcs: seq<Cluster>, a: int, d: int): nat
  {
    |Having(gcs, Bin, (a, d))|
  }

  /** The first `n` cells of row `r`, added up. */
  function RowTotal(gcs: seq<Cluster>, r: int, n: nat): nat
  {
    if n == 0 then 0 else RowTotal(gcs, r, n - 1) + CellCount(gcs, ColumnKey(n - 1), RowKey(r))
  }

  /** The full cells of the first `m` rows, added up. */
  function GridTotal(gcs: seq<Cluster>, m: nat): nat
  {
    if m == 0 then 0 else GridTotal(gcs, m - 1) + RowTotal(gcs, m - 1, BinCount)
  }

  function GridRow(gcs: seq<Cluster>, r: int): seq<nat>
  {
    seq(12, i => CellCount(gcs, ColumnKey(i), RowKey(r)))
  }

  /** The printed counts, row by row from 75 degrees down to -90 degrees, each
      row from 12h round to 10h. */
  function Grid(gcs: seq<Cluster>): seq<seq<nat>>
  {
    seq(12, r => GridRow(gcs, r))
  }

  /** What the chart reports: the counts as printed, their total, and the mean
      position of the whole catalogue in decimal hours and degrees. */
  datatype ChartReport = ChartReport(grid: seq<seq<nat>>, total: nat, meanRa: real, meanDec: real)

  /** The chart for a catalogue: a missing key for the first cluster outside
      the bins, a division by zero when the grid total is zero, and the report
      otherwise. */
  function ChartOf(gcs: seq<Cluster>): (r: Result<ChartReport>)
    ensures r.Success? ==> r.value.total == |gcs| > 0 && |r.value.grid| == BinCount
  {
    var b := FirstNot(gcs, Binned);
    if b < |gcs| then Failure(KeyError(MissingKey(gcs[b])))
    else
      AllBinned(gcs);
      ChartTotalIsCatalogueSize(gcs);
      var total := GridTotal(gcs, BinCount);
      if total == 0 then Failure(ZeroDivisionError)
      else Success(ChartReport(Grid(gcs), total,
                               Sum(gcs, DecimalRa) / total as real,
                               Sum(gcs, DecimalDec) / total as real))
  }

  lemma AllBinned(gcs: seq<Cluster>)
    requires FirstNot(gcs, Binned) == |gcs|
    ensures forall c :: c in gcs ==> Binned(c)
  {
    forall c | c in gcs ensures Binned(c) {
      var j :| 0 <= j < |gcs| && gcs[j] == c;
    }
  }

  /** The right-ascension table holds, under each bin key, the clusters of `s` with that key. */
  ghost predicate RaTable(ra: map<int, seq<Cluster>>, s: seq<Cluster>)
  {
    && (forall a :: a in ra <==> IsRaBin(a))
    && (forall a :: a in ra ==> ra[a] == Having(s, RaKey, a))
  }

  ghost predicate DecTable(dec: map<int, seq<Cluster>>, s: seq<Cluster>)
  {
    && (forall d :: d in dec <==> IsDecBin(d))
    && (forall d :: d in dec ==> dec[d] == Having(s, DecKey, d))
  }

  /** The two-level table holds, under each pair of bin keys, the clusters of `s` with those keys. */
  ghost predicate CellTable(raDec: map<int, map<int, seq<Cluster>>>, s: seq<Cluster>)
  {
    && (forall a :: a in raDec <==> IsRaBin(a))
    && (forall a, d :: a in raDec ==> (d in raDec[a] <==> IsDecBin(d)))
    && (forall a, d :: a in raDec && d in raDec[a] ==> raDec[a][d] == Having(s, Bin, (a, d)))
  }

  lemma RaTableSnoc(ra: map<int, seq<Cluster>>, s: seq<Cluster>, x: Cluster)
    requires RaTable(ra, s) && RaKey(x) in ra
    ensures RaTable(ra[RaKey(x) := ra[RaKey(x)] + [x]], s + [x])
  {
    HavingSnoc(s, x, RaKey);
  }

  lemma DecTableSnoc(dec: map<int, seq<Cluster>>, s: seq<Cluster>, x: Cluster)
    requires DecTable(dec, s) && DecKey(x) in dec
    ensures DecTable(dec[DecKey(x) := dec[DecKey(x)] + [x]], s + [x])
  {
    HavingSnoc(s, x, DecKey);
  }

  lemma CellTableSnoc(raDec: map<int, map<int, seq<Cluster>>>, s: seq<Cluster>, x: Cluster)
    requires CellTable(raDec, s) && Binned(x)
    ensures RaKey(x) in raDec && DecKey(x) in raDec[RaKey(x)]
    ensures var a, d := RaKey(x), DecKey(x);
      CellTable(raDec[a := raDec[a][d := raDec[a][d] + [x]]], s + [x])
  {
    HavingSnoc(s, x, Bin);
    var a, d := RaKey(x), DecKey(x);
    var t := raDec[a := raDec[a][d := raDec[a][d] + [x]]];
    forall a', d' | a' in t && d' in t[a']
      ensures t[a'][d'] == Having(s + [x], Bin, (a', d'))
    {
      if a' == a && d' == d {
      } else {
        assert t[a'][d'] == raDec[a'][d'];
      }
    }
  }

  /** Adds an empty list under declination key `i` to every right-ascension
      entry of the two-level table. */
  method AddEmptyCells(raDec: map<int, map<int, seq<Cluster>>>, i: int)
    returns (raDec': map<int, map<int, seq<Cluster>>>)
    requires forall a :: a in raDec <==> IsRaBin(a)
    ensures forall a :: a in raDec' <==> IsRaBin(a)
    ensures forall a, d :: a in raDec' ==> (d in raDec'[a] <==> (a in raDec && d in raDec[a]) || d == i)
    ensures forall a, d :: a in raDec' && d in raDec'[a] ==>
      raDec'[a][d] == if d == i then [] else raDec[a][d]
  {
    raDec' := raDec;
    var j := 0;
    while j < 24
      invariant 0 <= j <= 24 && j % 2 == 0
      invariant forall a :: a in raDec' <==> IsRaBin(a)
      invariant forall a, d :: a in raDec' ==> (d in raDec'[a] <==> d in raDec[a] || (d == i && a < j))
      invariant forall a, d :: a in raDec' && d in raDec'[a] ==>
        raDec'[a][d] == if d == i && a < j then [] else raDec[a][d]
    {
      raDec' := raDec'[j := raDec'[j][i := []]];
      j := j + 2;
    }
  }

  /** The first initialisation loop: an empty list and an empty row of cells
      under every right-ascension key. */
  method EmptyRaTables() returns (ra: map<int, seq<Cluster>>, raDec: map<int, map<int, seq<Cluster>>>)
    ensures forall a :: a in ra <==> IsRaBin(a)
    ensures forall a :: a in ra ==> ra[a] == []
    ensures forall a :: a in raDec <==> IsRaBin(a)
    ensures forall a :: a in raDec ==> raDec[a] == map[]
  {
    ra, raDec := map[], map[];
    var i := 0;
    while i < 24
      invariant 0 <= i <= 24 && i % 2 == 0
      invariant forall a :: a in ra <==> IsRaBin(a) && a < i
      invariant forall a :: a in ra ==> ra[a] == []
      invariant forall a :: a in raDec <==> IsRaBin(a) && a < i
      invariant forall a :: a in raDec ==> raDec[a] == map[]
    {
      ra := ra[i := []];
      raDec := raDec[i := map[]];
      i := i + 2;
    }
  }

  /** The declination bins below `i + 15` are those below `i` and `i` itself. */
  lemma NextDecBin(i: int)
    requires -90 <= i < 90 && i % 15 == 0
    ensures forall d :: (IsDecBin(d) && d < i + 15) <==> (IsDecBin(d) && d < i) || d == i
  {
  }

  /** The second initialisation loop: an empty list under every declination
      key, and an empty cell under it in every right-ascension row. */
  method EmptyDecTables(raDec: map<int, map<int, seq<Cluster>>>)
    returns (dec: map<int, seq<Cluster>>, raDec': map<int, map<int, seq<Cluster>>>)
    requires forall a :: a in raDec <==> IsRaBin(a)
    requires forall a :: a in raDec ==> raDec[a] == map[]
    ensures forall d :: d in dec <==> IsDecBin(d)
    ensures forall d :: d in dec ==> dec[d] == []
    ensures forall a :: a in raDec' <==> IsRaBin(a)
    ensures forall a, d :: a in raDec' ==> (d in raDec'[a] <==> IsDecBin(d))
    ensures forall a, d :: a in raDec' && d in raDec'[a] ==> raDec'[a][d] == []
  {
    dec, raDec' := map[], raDec;
    var i := -90;
    while i < 90
      invariant -90 <= i <= 90 && i % 15 == 0
      invariant forall d :: d in dec <==> IsDecBin(d) && d < i
      invariant forall d :: d in dec ==> dec[d] == []
      invariant forall a :: a in raDec' <==> IsRaBin(a)
      invariant forall a, d :: a in raDec' ==> (d in raDec'[a] <==> IsDecBin(d) && d < i)
      invariant forall a, d :: a in raDec' && d in raDec'[a] ==> raDec'[a][d] == []
    {
      NextDecBin(i);
      dec := dec[i := []];
      raDec' := AddEmptyCells(raDec', i);
      i := i + 15;
    }
  }

  /** Creates the three tables with an empty list under every bin key. */
  method EmptyTables() returns (ra: map<int, seq<Cluster>>, dec: map<int, seq<Cluster>>,
                                raDec: map<int, map<int, seq<Cluster>>>)
    ensures RaTable(ra, []) && DecTable(dec, []) && CellTable(raDec, [])
  {
    var rows;
    ra, rows := EmptyRaTables();
    dec, raDec := EmptyDecTables(rows);
  }

  /** A cell of a filled table holds as many clusters as have its two keys. */
  lemma CellAt(raDec: map<int, map<int, seq<Cluster>>>, gcs: seq<Cluster>, c: int, r: int)
    requires CellTable(raDec, gcs) && 0 <= c < BinCount && 0 <= r < BinCount
    ensures ColumnKey(c) in raDec && RowKey(r) in raDec[ColumnKey(c)]
    ensures |raDec[ColumnKey(c)][RowKey(r)]| == CellCount(gcs, ColumnKey(c), RowKey(r))
  {
    assert IsRaBin(ColumnKey(c)) && IsDecBin(RowKey(r));
  }

  /** Walks one row of the chart, the columns from 12h round to 10h, reading
      each cell's count. */
  method CountRow(raDec: map<int, map<int, seq<Cluster>>>, gcs: seq<Cluster>, r: nat, j: int)
    returns (row: seq<nat>, rowTotal: nat)
    requires CellTable(raDec, gcs)
    requires r < BinCount && j == RowKey(r)
    ensures row == GridRow(gcs, r)
    ensures rowTotal == RowTotal(gcs, r, BinCount)
  {
    row, rowTotal := [], 0;
    var i := 0;
    while i < 24
      invariant 0 <= i <= 24 && i == 2 * |row|
      invariant forall c :: 0 <= c < |row| ==> row[c] == CellCount(gcs, ColumnKey(c), j)
      invariant rowTotal == RowTotal(gcs, r, |row|)
    {
      var col := (i + 12) % 24;
      assert col == ColumnKey(|row|);
      CellAt(raDec, gcs, |row|, r);
      var count := |raDec[col][j]|;
      assert RowTotal(gcs, r, |row| + 1) == RowTotal(gcs, r, |row|) + count;
      rowTotal := rowTotal + count;
      row := row + [count];
      i := i + 2;
    }
  }

  lemma RowsMakeGrid(gcs: seq<Cluster>, grid: seq<seq<nat>>)
    requires |grid| == BinCount
    requires forall r :: 0 <= r < |grid| ==> grid[r] == GridRow(gcs, r)
    ensures grid == Grid(gcs)
  {
  }

  /** Walks the rows from 75 degrees down to -90 degrees, adding up every
      cell's count. */
  method CountCells(raDec: map<int, map<int, seq<Cluster>>>, gcs: seq<Cluster>)
    returns (grid: seq<seq<nat>>, countAll: nat)
    requires CellTable(raDec, gcs)
    ensures grid == Grid(gcs)
    ensures countAll == GridTotal(gcs, BinCount)
  {
    grid, countAll := [], 0;
    var j := 75;
    while j > -105
      invariant |grid| <= BinCount && j == RowKey(|grid|)
      invariant forall r :: 0 <= r < |grid| ==> grid[r] == GridRow(gcs, r)
      invariant countAll == GridTotal(gcs, |grid|)
      decreases j + 105
    {
      var row, count := CountRow(raDec, gcs, |grid|, j);
      assert GridTotal(gcs, |grid| + 1) == countAll + count;
      countAll := countAll + count;
      grid := grid + [row];
      j := j - 15;
    }
    RowsMakeGrid(gcs, grid);
  }

  /** The filled tables of the chart and the two running totals. */
  datatype Tables = Tables(
    byRa: map<int, seq<Cluster>>,
    byDec: map<int, seq<Cluster>>,
    cells: map<int, map<int, seq<Cluster>>>,
    totalHour: real,
    totalDecDeg: real)

  /** The tables and totals after the clusters `s` have been filed. */
  ghost predicate Holds(t: Tables, s: seq<Cluster>)
  {
    && RaTable(t.byRa, s) && DecTable(t.byDec, s) && CellTable(t.cells, s)
    && t.totalHour == Sum(s, DecimalRa) && t.totalDecDeg == Sum(s, DecimalDec)
  }

  /** Files one cluster: adds its decimal position to the totals and appends it
      to its right-ascension list, its declination list and its cell. A key
      outside the tables stops it with that key. */
  method FileCluster(t: Tables, ghost s: seq<Cluster>, gc: Cluster) returns (r: Result<Tables>)
    requires Holds(t, s)
    ensures r.Failure? <==> !Binned(gc)
    ensures r.Failure? ==> r.error == KeyError(MissingKey(gc))
    ensures r.Success? ==> Holds(r.value, s + [gc])
  {
    SumSnoc(s, gc, DecimalRa);
    SumSnoc(s, gc, DecimalDec);
    var totalHour := t.totalHour + gc.raHour;
    totalHour := totalHour + gc.raMin / 60.0;
    var totalDecDeg := t.totalDecDeg + gc.decDeg;
    totalDecDeg := totalDecDeg + gc.decMin / 60.0;
    var raHour := RaKey(gc);
    if raHour !in t.byRa {
      return Failure(KeyError(raHour));
    }
    RaTableSnoc(t.byRa, s, gc);
    var ra := t.byRa[raHour := t.byRa[raHour] + [gc]];
    var decDeg := DecKey(gc);
    if decDeg !in t.byDec {
      return Failure(KeyError(decDeg));
    }
    DecTableSnoc(t.byDec, s, gc);
    var dec := t.byDec[decDeg := t.byDec[decDeg] + [gc]];
    CellTableSnoc(t.cells, s, gc);
    var raDec := t.cells[raHour := t.cells[raHour][decDeg := t.cells[raHour][decDeg] + [gc]]];
    return Success(Tables(ra, dec, raDec, totalHour, totalDecDeg));
  }

  /** Files the clusters one after the other into tables that start empty.
      The first cluster with a key outside the tables stops it with that key. */
  method FillTables(gcs: seq<Cluster>) returns (r: Result<Tables>)
    ensures r.Failure? <==> FirstNot(gcs, Binned) < |gcs|
    ensures r.Failure? ==> r.error == KeyError(MissingKey(gcs[FirstNot(gcs, Binned)]))
    ensures r.Success? ==> Holds(r.value, gcs)
  {
    var ra, dec, raDec := EmptyTables();
    var t := Tables(ra, dec, raDec, 0.0, 0.0);
    for k := 0 to |gcs|
      invariant FirstNot(gcs, Binned) >= k
      invariant Holds(t, gcs[..k])
    {
      var next := FileCluster(t, gcs[..k], gcs[k]);
      if next.Failure? {
        FirstNotAt(gcs, Binned, k);
        return next;
      }
      FirstNotStep(gcs, Binned, k);
      PrefixSnoc(gcs, k);
      t := next.value;
    }
    assert gcs[..|gcs|] == gcs;
    return Success(t);
  }

  /** Fills the tables, counts the chart and takes the mean position of the
      whole catalogue. */
  method PrintChart(gcs: seq<Cluster>) returns (r: Result<ChartReport>)
    ensures r == ChartOf(gcs)
  {
    var filled := FillTables(gcs);
    if filled.Failure? {
      return Failure(filled.error);
    }
    var grid, countAll := CountCells(filled.value.cells, gcs);
    if countAll == 0 {
      return Failure(ZeroDivisionError);
    }
    var n := countAll as real;
    r := Success(ChartReport(grid, countAll, filled.value.totalHour / n, filled.value.totalDecDeg / n));
  }

  /** A cluster has a right-ascension key exactly when 0 <= ra_hour < 24. */
  lemma RaKeyInTablesIff(c: Cluster)
    ensures IsRaBin(RaKey(c)) <==> 0.0 <= c.raHour < 24.0
  {
  }

  /** A cluster has a declination key exactly when -90 <= dec_deg < 90. */
  lemma DecKeyInTablesIff(c: Cluster)
    ensures IsDecBin(DecKey(c)) <==> -90.0 <= c.decDeg < 90.0
  {
  }

  /** Bins of example values under floor modulo: 5h falls in bin 4, -10
      degrees in bin -15, -1 degree in bin -15 and -90 degrees in bin -90,
      while +90 degrees gives key 90, which no table has. */
  lemma BinExamples(c: Cluster)
    ensures c.raHour == 5.0 ==> RaKey(c) == 4
    ensures c.decDeg == -10.0 ==> DecKey(c) == -15
    ensures c.decDeg == -1.0 ==> DecKey(c) == -15
    ensures c.decDeg == -90.0 ==> DecKey(c) == -90
    ensures c.decDeg == 90.0 ==> DecKey(c) == 90 && !Binned(c) && MissingKey(c) == (if IsRaBin(RaKey(c)) then 90 else RaKey(c))
  {
  }

  lemma ColumnRoundTrip(i: int)
    requires 0 <= i < BinCount
    ensures IsRaBin(ColumnKey(i)) && ColumnOf(ColumnKey(i)) == i
  {
  }

  lemma ColumnOfRoundTrip(a: int)
    requires IsRaBin(a)
    ensures 0 <= ColumnOf(a) < BinCount && ColumnKey(ColumnOf(a)) == a
  {
  }

  lemma RowRoundTrip(r: int)
    requires 0 <= r < BinCount
    ensures IsDecBin(RowKey(r)) && RowOf(RowKey(r)) == r
  {
  }

  lemma RowOfRoundTrip(d: int)
    requires IsDecBin(d)
    ensures 0 <= RowOf(d) < BinCount && RowKey(RowOf(d)) == d
  {
  }

  /** The rotated column order and the descending row order are permutations
      of the bins: every position shows a bin, and every bin is shown at
      exactly one position. */
  lemma TraversalVisitsEveryBinOnce()
    ensures forall i :: 0 <= i < BinCount ==> IsRaBin(ColumnKey(i)) && ColumnOf(ColumnKey(i)) == i
    ensures forall a :: IsRaBin(a) ==> 0 <= ColumnOf(a) < BinCount && ColumnKey(ColumnOf(a)) == a
    ensures forall r :: 0 <= r < BinCount ==> IsDecBin(RowKey(r)) && RowOf(RowKey(r)) == r
    ensures forall d :: IsDecBin(d) ==> 0 <= RowOf(d) < BinCount && RowKey(RowOf(d)) == d
  {
    forall i | 0 <= i < BinCount { ColumnRoundTrip(i); }
    forall a | IsRaBin(a) { ColumnOfRoundTrip(a); }
    forall r | 0 <= r < BinCount { RowRoundTrip(r); }
    forall d | IsDecBin(d) { RowOfRoundTrip(d); }
  }

  /** A cluster with both keys in the tables lies in exactly one cell: the one
      under its own two keys. */
  lemma EachClusterInOneCell(gcs: seq<Cluster>, x: Cluster)
    requires x in gcs
    ensures forall a, d :: x in Having(gcs, Bin, (a, d)) <==> a == RaKey(x) && d == DecKey(x)
  {
    forall a, d ensures x in Having(gcs, Bin, (a, d)) <==> a == RaKey(x) && d == DecKey(x) {
      HavingMembers(gcs, Bin, (a, d), x);
    }
  }

  /** Appending one cluster to the catalogue adds one to a row total exactly
      when the cluster's cell is in that row among the columns counted. */
  lemma {:induction false} RowTotalSnoc(gcs: seq<Cluster>, x: Cluster, r: int, n: nat)
    requires n <= BinCount
    ensures RowTotal(gcs + [x], r, n) == RowTotal(gcs, r, n)
      + (if DecKey(x) == RowKey(r) && IsRaBin(RaKey(x)) && ColumnOf(RaKey(x)) < n then 1 else 0)
  {
    if n > 0 {
      RowTotalSnoc(gcs, x, r, n - 1);
      HavingSnoc(gcs, x, Bin);
      ColumnRoundTrip(n - 1);
      if IsRaBin(RaKey(x)) {
        ColumnOfRoundTrip(RaKey(x));
      }
    }
  }

  /** Appending one cluster adds one to the total of the first `m` rows
      exactly when the cluster has both keys and its row is among them. */
  lemma {:induction false} GridTotalSnoc(gcs: seq<Cluster>, x: Cluster, m: nat)
    requires m <= BinCount
    ensures GridTotal(gcs + [x], m) == GridTotal(gcs, m)
      + (if Binned(x) && RowOf(DecKey(x)) < m then 1 else 0)
  {
    if m > 0 {
      GridTotalSnoc(gcs, x, m - 1);
      RowTotalSnoc(gcs, x, m - 1, BinCount);
      RowRoundTrip(m - 1);
      if IsRaBin(RaKey(x)) {
        ColumnOfRoundTrip(RaKey(x));
      }
      if IsDecBin(DecKey(x)) {
        RowOfRoundTrip(DecKey(x));
      }
    }
  }

  /** When every cluster has both keys, the counts read off the whole chart
      add up to the number of clusters. */
  lemma {:induction false} ChartTotalIsCatalogueSize(gcs: seq<Cluster>)
    requires forall c :: c in gcs ==> Binned(c)
    ensures GridTotal(gcs, BinCount) == |gcs|
  {
    if gcs == [] {
      EmptyGridTotal(BinCount);
    } else {
      var init, x := gcs[..|gcs| - 1], gcs[|gcs| - 1];
      assert gcs == init + [x];
      assert forall c :: c in init ==> c in gcs;
      ChartTotalIsCatalogueSize(init);
      GridTotalSnoc(init, x, BinCount);
      RowOfRoundTrip(DecKey(x));
    }
  }

  lemma {:induction false} EmptyGridTotal(m: nat)
    ensures GridTotal([], m) == 0
  {
    if m > 0 {
      EmptyGridTotal(m - 1);
      EmptyRowTotal(m - 1, BinCount);
    }
  }

  lemma {:induction false} EmptyRowTotal(r: int, n: nat)
    ensures RowTotal([], r, n) == 0
  {
    if n > 0 {
      EmptyRowTotal(r, n - 1);
    }
  }

  /** The chart succeeds exactly on a non-empty catalogue whose clusters all
      have both keys; its total is then the number of clusters and its means
      are the catalogue's mean position. An empty catalogue is a division by
      zero; otherwise the failure is the missing key of the first cluster
      without one, looked up right ascension first. */
  lemma ChartOfSpec(gcs: seq<Cluster>)
    ensures ChartOf(gcs).Success? <==> gcs != [] && forall c :: c in gcs ==> Binned(c)
    ensures ChartOf(gcs).Success? ==>
      && ChartOf(gcs).value.total == |gcs|
      && ChartOf(gcs).value.grid == Grid(gcs)
      && ChartOf(gcs).value.meanRa == Sum(gcs, DecimalRa) / |gcs| as real
      && ChartOf(gcs).value.meanDec == Sum(gcs, DecimalDec) / |gcs| as real
    ensures ChartOf(gcs) == Failure(ZeroDivisionError) <==> gcs == []
    ensures ChartOf(gcs).Failure? && gcs != [] ==>
      var b := FirstNot(gcs, Binned);
      && b < |gcs|
      && (forall j :: 0 <= j < b ==> Binned(gcs[j]))
      && ChartOf(gcs).error == KeyError(MissingKey(gcs[b]))
      && (if IsRaBin(RaKey(gcs[b])) then !IsDecBin(MissingKey(gcs[b])) else !IsRaBin(MissingKey(gcs[b])))
  {
    var b := FirstNot(gcs, Binned);
    if b == |gcs| {
      AllBinned(gcs);
      ChartTotalIsCatalogueSize(gcs);
    } else {
      assert gcs[b] in gcs;
    }
  }
}
