# Globular-cluster catalogue analysis, modelled in Dafny

`astr_hw2/gcp.py` reads a catalogue of globular clusters, one per line. Each line gives:

- right ascension in hours and minutes;
- declination in degrees and minutes;
- galactic latitude and longitude;
- distance in kly.

From the catalogue, the script does two things:

- It prints a sky chart. The chart counts the clusters in 2-hour × 15-degree cells, with the total and the mean position.
- It estimates the position of and distance to the galactic centre. It does this by averaging over the clusters that fall in a fixed window around 17h45m, −29°.

This project models the core of that script:

- **Clusters** (`clusters.dfy`): the record constructor, including its sign rule for declination minutes.
- **Loader** (`loader.dfy`): the loop that turns lines of tokens into records, stopping at the first blank line.
- **Center** (`center.dfy`): the window filter and the means in `estimate_center_distance`.
- **Chart** (`chart.dfy`): the tables of lists that `print_chart` fills in place, its floor-modulo bin keys, and the rotated walk over the 12×12 grid that adds up the counts.
- **Program** (`program.dfy`): the whole run. It loads, then charts, then estimates, and stops at the first error.

Supporting modules:

- `outcome.dfy` holds the error kinds the script can raise: `IndexError`, `ValueError`, `KeyError` and `ZeroDivisionError`.
- `seqs.dfy` holds the sequence functions shared by the filter and the tables (`FirstNot`, `Having`, `Positions`, `Sum`).

Each loop of the script is a method. Its postcondition ties its result to a specification function, for example `LoadCatalogue` to `LoadOf`, `EstimateCenterDistance` to `CenterOf` and `PrintChart` to `ChartOf`. The properties the script relies on are proved as lemmas about those functions.

- Console output is replaced by the values printed (`ChartReport`, `CenterEstimate`).
- A raised exception is a `Failure` carrying the error.
- Coordinates are mathematical reals.
- Python's `%` on floats is floor modulo, written out with `Floor`.

## Model

| member | source | states |
|---|---|---|
| Clusters.MakeCluster | astr_hw2/gcp.py:6-13 | ra hour/min, dec degrees, glat, glon and distance are copied unchanged; dec minutes are `data[3]` when dec degrees ≥ 0 and `-data[3]` otherwise |
| Clusters.FieldsOf | astr_hw2/gcp.py:6-13 | the seven input fields a record was built from, with the minute sign undone |
| Clusters.RecordRoundTrip | astr_hw2/gcp.py:6-13 | building a record from its own fields gives the record back |
| Clusters.FieldsRoundTrip | astr_hw2/gcp.py:6-13 | a record's fields are the first seven input fields; later fields are ignored |
| Clusters.DecimalDecFollowsDegreeSign | astr_hw2/gcp.py:10 | with non-negative input minutes, the decimal declination has the sign of the degrees and magnitude \|deg\| + min/60 |
| Clusters.NegativeMinuteTokenBreaksSign | astr_hw2/gcp.py:10 | a negative minute token breaks the sign rule: −29° with −30′ stores +30 minutes, giving decimal declination −28.5, and the record is not sexagesimal |
| Clusters.MakeClusterIsSexagesimal | astr_hw2/gcp.py:7-10 | whole hours and minutes in [0,60) give a record whose minute sign follows its degrees |
| Clusters.GalacticCentreRecord | astr_hw2/gcp.py:18 | the record 17h45m, −29° 0.5′ stores −0.5 dec minutes |
| Loader.ParsedFields | astr_hw2/gcp.py:120-122 | conversion succeeds iff the line's first seven tokens exist and are numbers, and yields their values; a non-number among the first seven present tokens is a ValueError; otherwise a line shorter than seven tokens is an IndexError |
| Loader.ConvertFields | astr_hw2/gcp.py:120-122 | the conversion loop over indices 0..6 returns exactly `ParsedFields` |
| Loader.CatalogueLength | astr_hw2/gcp.py:117-125 | the lines read are exactly those before the first blank line (or all lines): none of them is blank, and the next line, if any, is blank |
| Loader.ParseAll | astr_hw2/gcp.py:118-124 | parsing lines one after another yields, on success, exactly one record per line |
| Loader.ParseAllSpec | astr_hw2/gcp.py:118-124 | parsing lines succeeds iff every line is well formed, then gives one record per line in order from its first seven tokens; otherwise it fails with the error of the first ill-formed line |
| Loader.ParseAllFailureSticks | astr_hw2/gcp.py:118-125 | once a line fails, reading further lines does not change the outcome |
| Loader.ParseAllStep | astr_hw2/gcp.py:120-124 | one more line either appends its record or ends the parse with that line's error |
| Loader.LoadOf | astr_hw2/gcp.py:116-125 | a successful load yields exactly one record per line before the first blank line |
| Loader.LoadCatalogue | astr_hw2/gcp.py:116-125 | the read loop returns exactly `LoadOf(lines)` |
| Loader.LoadOfSpec | astr_hw2/gcp.py:116-125 | loading succeeds iff every line before the first blank one is well formed; it then yields one record per such line, in file order, built from its first seven tokens; a failure is the error of the first ill-formed line |
| Center.InRaWindow | astr_hw2/gcp.py:30 | the hour/minute test as written: passing it needs 16 ≤ ra hour ≤ 18, and any hour strictly between 16 and 18 passes whatever its minutes |
| Center.InDecBand | astr_hw2/gcp.py:31 | the declination test on whole degrees: every declination it accepts lies south of the equator, and −29° (the centre's own) is accepted |
| Center.CenterOf | astr_hw2/gcp.py:20-60 | what the estimate reports: a failure is always ZeroDivisionError, and a success counts between one and all of the catalogue's clusters |
| Center.SelectNearCenter | astr_hw2/gcp.py:28-32 | the filter loop returns exactly the selection `Selected(gcs)` |
| Center.SumKept | astr_hw2/gcp.py:38-50 | the summing loop returns the sums over the kept clusters of decimal RA, decimal Dec, distance and projected distance |
| Center.EstimateCenterDistance | astr_hw2/gcp.py:20-60 | the filter loop and the summing loop return exactly `CenterOf`: the count and the four means over the kept clusters, or ZeroDivisionError when none is kept |
| Center.RaWindowIsInterval | astr_hw2/gcp.py:21-30 | for whole hours and minutes in [0,60), the hour/minute test holds iff 16·60+45 ≤ 60·hour + min ≤ 18·60+45 |
| Center.RaWindowNeedsWholeHours | astr_hw2/gcp.py:30 | with a fractional hour the test is not an interval test: 16.5h 0m passes though it lies before 16h45m |
| Center.RaWindowBoundaries | astr_hw2/gcp.py:21-30 | 16h30m and 18h50m are rejected; 16h45m, 17h00m and 18h45m are accepted |
| Center.SelectionIsExactlyNearCenter | astr_hw2/gcp.py:28-32 | the selection is an order-preserving subsequence of the catalogue; it holds exactly the clusters passing the RA test with −34 ≤ dec degrees ≤ −24, so nothing outside the declination band |
| Center.CenterFailsIffNoneNear | astr_hw2/gcp.py:37-54 | the estimate fails iff no cluster passes the filter, and the failure is ZeroDivisionError |
| Center.CenterWithinWindow | astr_hw2/gcp.py:43-56 | for sexagesimal records, the count is the selection size, mean RA lies in [16.75, 18.75] and mean Dec lies in [−35, −24] |
| Center.ClusterWithinWindow | astr_hw2/gcp.py:30-31 | a kept sexagesimal record has decimal RA in [16.75, 18.75] and decimal Dec in [−35, −24] |
| Center.MeanBetween | astr_hw2/gcp.py:54-56 | a total between lo·n and hi·n has its mean between lo and hi |
| Center.SingleClusterNearCenter | astr_hw2/gcp.py:28-60 | a catalogue holding only 17h0m, −29°, 10 kly reports one cluster at 17h, −29°, with both distance means equal to 10 kly when the cosines are 1 |
| Center.SingleClusterFarFromCenter | astr_hw2/gcp.py:28-54 | a catalogue holding only a 10h cluster keeps nothing, so it is a division by zero |
| Chart.FloorMod | astr_hw2/gcp.py:83-85 | Python's float `x % w` for w > 0 lies in [0, w) |
| Chart.BinStart | astr_hw2/gcp.py:83-85 | `x - x % w` is an integer k with k ≤ x < k + w |
| Chart.RaKey | astr_hw2/gcp.py:83 | the RA key is even, with key ≤ ra hour < key + 2 |
| Chart.DecKey | astr_hw2/gcp.py:85 | the Dec key is a multiple of 15, with key ≤ dec degrees < key + 15 |
| Chart.RaKeyInTablesIff | astr_hw2/gcp.py:83-84 | the RA key is one of the table keys 0,2,…,22 iff 0 ≤ ra hour < 24 |
| Chart.DecKeyInTablesIff | astr_hw2/gcp.py:85-86 | the Dec key is one of −90,−75,…,75 iff −90 ≤ dec degrees < 90 |
| Chart.BinExamples | astr_hw2/gcp.py:83-87 | 5h goes in bin 4; −10° and −1° go in bin −15; −90° goes in bin −90; +90° gives key 90, which is missing, so it is the key reported unless the RA key is missing first |
| Chart.MissingKey | astr_hw2/gcp.py:83-87 | the key a failed lookup reports: when the RA key is missing, it is the RA key, absent from the RA table, since that table is looked up first; when the RA key is present and the Dec key missing, it is the Dec key, absent from the Dec table |
| Chart.ChartOf | astr_hw2/gcp.py:65-110 | a successful chart has twelve rows, and its total is the number of clusters, which is positive |
| Chart.RaTableSnoc | astr_hw2/gcp.py:84 | appending a cluster to its RA list keeps that table equal to the clusters with each key, in order |
| Chart.DecTableSnoc | astr_hw2/gcp.py:86 | the same holds for the Dec list |
| Chart.CellTableSnoc | astr_hw2/gcp.py:87 | a cluster with both keys has a cell, and appending it there keeps every cell equal to the clusters with that key pair, in order |
| Chart.AddEmptyCells | astr_hw2/gcp.py:74-75 | adds an empty cell under one Dec key to every RA row and leaves every other cell as it was |
| Chart.EmptyRaTables | astr_hw2/gcp.py:69-71 | the first initialisation loop leaves an empty list and an empty row of cells under exactly the RA keys 0,2,…,22 |
| Chart.EmptyDecTables | astr_hw2/gcp.py:72-75 | the second initialisation loop leaves an empty list under exactly the Dec keys −90,−75,…,75, and an empty cell under each of them in every RA row |
| Chart.EmptyTables | astr_hw2/gcp.py:66-75 | the initial tables have exactly the 12 RA keys, the 12 Dec keys and the 12×12 cells, all empty |
| Chart.CellAt | astr_hw2/gcp.py:98-100 | every cell the walk visits exists, and its length is the number of clusters with that key pair |
| Chart.FileCluster | astr_hw2/gcp.py:79-87 | filing one cluster fails iff one of its keys is missing, with a KeyError for the RA key when that one is missing and otherwise for the Dec key; on success the totals and all three tables describe the catalogue extended by that cluster |
| Chart.FillTables | astr_hw2/gcp.py:76-87 | the filling loop fails iff some cluster lacks a key, with the KeyError of the first such cluster; on success the tables hold each cluster under its keys, and the totals are the sums of decimal RA and Dec |
| Chart.CountRow | astr_hw2/gcp.py:98-102 | one row of the walk reads the 12 cell counts in rotated column order and adds them up |
| Chart.CountCells | astr_hw2/gcp.py:90-104 | the walk over rows 75 down to −90 gives the 12×12 grid of counts and its total |
| Chart.PrintChart | astr_hw2/gcp.py:65-110 | the chart method returns exactly `ChartOf` |
| Chart.ColumnRoundTrip | astr_hw2/gcp.py:98-99 | column position i shows the RA bin `(2i+12) % 24`, and that bin maps back to position i |
| Chart.ColumnOfRoundTrip | astr_hw2/gcp.py:98-99 | every RA bin is shown at some column position, which maps back to it |
| Chart.RowRoundTrip | astr_hw2/gcp.py:96 | row position r shows the Dec bin 75 − 15r, which maps back to r |
| Chart.RowOfRoundTrip | astr_hw2/gcp.py:96 | every Dec bin is shown at some row position, which maps back to it |
| Chart.TraversalVisitsEveryBinOnce | astr_hw2/gcp.py:91-99 | the rotated column order and the descending row order each visit every bin exactly once |
| Chart.EachClusterInOneCell | astr_hw2/gcp.py:87 | a catalogue cluster is in the cell for a key pair iff that pair is its own RA and Dec key |
| Chart.RowTotalSnoc | astr_hw2/gcp.py:98-101 | one more cluster raises a row's count by one exactly when its cell is in that row among the columns counted |
| Chart.GridTotalSnoc | astr_hw2/gcp.py:96-101 | one more cluster raises the grid count by one exactly when it has both keys and its row is among the rows counted |
| Chart.ChartTotalIsCatalogueSize | astr_hw2/gcp.py:78-105 | when every cluster has both keys, `count_all` equals the number of clusters |
| Chart.EmptyGridTotal | astr_hw2/gcp.py:90-101 | an empty catalogue counts zero |
| Chart.ChartOfSpec | astr_hw2/gcp.py:65-110 | the chart succeeds iff the catalogue is non-empty and every cluster has both keys; its total is then the number of clusters and its means are the catalogue's mean decimal RA and Dec; an empty catalogue is a division by zero; otherwise the error is a KeyError for the first cluster without a key, naming a key absent from the table looked up |
| Program.Run | astr_hw2/gcp.py:114-128 | the program returns exactly `RunOf`: load, then chart, then estimate, stopping at the first error |
| Program.RunOf | astr_hw2/gcp.py:114-128 | on success the chart total equals the number of lines before the first blank one, and the centre count lies between one and that total |
| Program.RunOfSpec | astr_hw2/gcp.py:114-128 | a run succeeds iff loading succeeds, every record has both chart keys and some record passes the centre filter; the chart total then equals the number of lines before the first blank one, and the centre count is positive and at most that total |
| Program.EmptyCatalogueIsDivisionByZero | astr_hw2/gcp.py:117-127 | with no lines or a blank first line, the run ends in the chart's division by zero |

## Left out

- Floating-point rounding. Coordinates, sums and means are exact reals, so rounding in the float sums and divisions, and float keys that round onto a bin boundary, are not modelled.
- Clusters.MakeCluster: signed zero is not modelled. In Python `-0.0 >= 0` holds, so a declination written `-00 30` keeps positive minutes. Reals have no negative zero, so the model cannot tell `-00` from `00`.
- Clusters.DecimalDecFollowsDegreeSign: the sign rule holds only for a non-negative minute token, and the loader does not check the token's sign. A line with −29 degrees and −30 minutes builds a record with +30 minutes, whose decimal declination is −28.5 rather than −29.5 (`NegativeMinuteTokenBreaksSign`). `MakeClusterIsSexagesimal` needs the same condition.
- Clusters.MakeCluster: requires at least seven fields. Both call sites pass seven fields: the loader (gcp.py:123) only after its conversion loop succeeds, and `milky_way_center` (gcp.py:18).
- File I/O (`open`, `readline`, `strip`, `split`) is replaced by a sequence of lines that are already split into tokens. A line that is empty after stripping is an empty token sequence.
- `float()` parsing is replaced by a token that is either a number with a finite value or not a number.
- Non-finite values that `float()` accepts are not modelled: `nan`, `inf`, `infinity`, and literals such as `1e400` that overflow to infinity. The script builds records from them without complaint. A `nan` or infinite RA hour fails the window test as a whole, so the estimate never keeps that cluster. A `nan` fails every comparison; +inf passes the lower half of the test and −inf the upper half, but neither passes both. In the chart, `ra_hour % 2` is then NaN, so the lookup `ra[nan]` raises KeyError(nan). Once the RA lookup has succeeded, a non-finite declination likewise ends in a KeyError on the Dec table. Distance, latitude and longitude are read only for kept clusters. A kept cluster with an infinite latitude or longitude makes `cos` raise ValueError (math domain error) at gcp.py:49, which ends the run. A NaN latitude or longitude, or a non-finite distance, only makes the distance means non-finite. Non-finite minutes make the chart and centre means they are summed into non-finite.
- The in-place replacement of `data[i]` by its float is modelled as building a new field sequence.
- `cos(x·π/180)` is the function parameter `cosDeg`. The "corrected" distance mean is kept as `meanProjected` but is otherwise treated as uninterpreted.
- Console output is not modelled: the `print`/`format` text, column widths and separator lines. The printed values are returned instead.
- Console output up to the point of failure is not modelled either. The chart grid is printed before its division by zero, and the estimate prints its count before its own. In the model the run just returns the error.
- `__repr__` is not modelled. It is debugging output only.
- The `milky_way_center` constant is not used by the program. It appears only as the construction example `GalacticCentreRecord`.
- The `ra` and `dec` tables built by `print_chart` are filled and proved correct (`Holds`), but the script reads nothing back from them, and neither does the model beyond returning them.
