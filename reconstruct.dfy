/**
 * The reconstruction rules of parser.py and its variant high_mem_parser.py:
 * the world points a scan yields, the width mask, the plots a scan is cut
 * into (z-bins per label, two rows per scan) and which points each plot
 * receives. The two scripts differ on purpose in three places, each a
 * function of its own here: the polarity of `row_match` (RowMatch /
 * HighMemRowMatch), the anchor of additional-scan bins (AdditionalStart) and
 * the lateral rule for additional scans (XMask).
 */
module Reconstruct {
  import opened Text
  import opened Labels
  import opened ScanNames
  import opened TimeJoin
  import opened Clouds

  /** Which script: parser.py or high_mem_parser.py. */
  datatype Variant = Parser | HighMem

  const FeetToMm: real := 304.8

  /** The command-line settings: `--step_mm` in mm per encoder step, the others in feet. */
  datatype Config = Config(stepMm: real, splitFt: real, startFt: real, widthFt: real, nPlots: real)

  function WidthMm(c: Config): real { c.widthFt * FeetToMm }
  function SplitMm(c: Config): real { c.splitFt * FeetToMm }
  function StartMm(c: Config): real { c.startFt * FeetToMm }

  // ---------------------------------------------------------------------
  // From the two loaded files to the scan's point cloud
  // ---------------------------------------------------------------------

  /** A row of `{scan}_lidar.csv`: T, Phi, Theta, D, RSSI. */
  datatype LidarRow = LidarRow(t: real, phi: real, theta: real, d: real, rssi: real)

  /** A row of `{scan}_pico.csv`: T, Heading, Roll, Pitch, Count. */
  datatype PicoRow = PicoRow(t: real, heading: real, roll: real, pitch: real, count: int)

  datatype Vec3 = Vec3(x: real, y: real, z: real)

  function LidarTimes(l: seq<LidarRow>): (r: seq<real>)
    ensures |r| == |l| && forall i :: 0 <= i < |l| ==> r[i] == l[i].t
  {
    seq(|l|, i requires 0 <= i < |l| => l[i].t)
  }

  function PicoTimes(p: seq<PicoRow>): (r: seq<real>)
    ensures |r| == |p| && forall i :: 0 <= i < |p| ==> r[i] == p[i].t
  {
    seq(|p|, i requires 0 <= i < |p| => p[i].t)
  }

  predicate PairsIn(pairs: seq<Pair>, nl: nat, np: nat)
  {
    forall k :: 0 <= k < |pairs| ==> pairs[k].lidar < nl && pairs[k].pico < np
  }

  /**
   * `match_pico_times` and the DELTA_T_MAX filter on the loaded rows: the
   * kept (lidar, pico) row pairs, each lidar row kept exactly when its
   * nearest pico time is within the tolerance.
   */
  function Matched(lidar: seq<LidarRow>, pico: seq<PicoRow>): (r: seq<Pair>)
    requires |pico| >= 1
    ensures PairsIn(r, |lidar|, |pico|)
    ensures forall j :: 0 <= j < |lidar| ==>
      (Kept(r, j) <==> Gap(LidarTimes(lidar), PicoTimes(pico), j) <= DeltaTMax)
  {
    JoinPairs(LidarTimes(lidar), PicoTimes(pico))
  }

  /**
   * One kept pair as a world point. `rotate` stands for
   * `rot.apply(_to_cartesian(phi, theta, d))` with the rotation built from
   * the pico row's heading, roll and pitch (each script has its own axis
   * flips inside `_to_cartesian`); z is then advanced by the encoder
   * distance `count * step_mm`, which is also the E column.
   */
  function WorldPoint(c: Config, rotate: (LidarRow, PicoRow) -> Vec3, l: LidarRow, p: PicoRow): (q: Point)
    ensures q.e == p.count as real * c.stepMm && q.z == rotate(l, p).z + q.e
    ensures q.x == rotate(l, p).x && q.y == rotate(l, p).y && q.rssi == l.rssi
  {
    var v := rotate(l, p);
    var dist := p.count as real * c.stepMm;
    Point(v.x, v.y, v.z + dist, l.rssi, dist)
  }

  function WorldPoints(c: Config, rotate: (LidarRow, PicoRow) -> Vec3, lidar: seq<LidarRow>,
                       pico: seq<PicoRow>, pairs: seq<Pair>): (r: seq<Point>)
    requires PairsIn(pairs, |lidar|, |pico|)
    ensures |r| == |pairs|
    ensures forall k :: 0 <= k < |pairs| ==>
      r[k] == WorldPoint(c, rotate, lidar[pairs[k].lidar], pico[pairs[k].pico])
  {
    seq(|pairs|, k requires 0 <= k < |pairs| =>
      WorldPoint(c, rotate, lidar[pairs[k].lidar], pico[pairs[k].pico]))
  }

  /** `np.abs(world_pts[:, 0]) <= width`, with the full row width in mm. */
  predicate InWidth(c: Config, p: Point)
  {
    AbsR(p.x) <= WidthMm(c)
  }

  /** The scan's cloud `data`: the world points the width mask keeps. */
  function Frame(c: Config, rotate: (LidarRow, PicoRow) -> Vec3, lidar: seq<LidarRow>,
                 pico: seq<PicoRow>, pairs: seq<Pair>): (data: seq<Point>)
    requires PairsIn(pairs, |lidar|, |pico|)
    ensures |data| <= |pairs|
    ensures forall p :: p in data <==> p in WorldPoints(c, rotate, lidar, pico, pairs) && AbsR(p.x) <= WidthMm(c)
  {
    Keep(WorldPoints(c, rotate, lidar, pico, pairs), p => InWidth(c, p))
  }

  /** `data[:, 2].min()` on a non-empty cloud. */
  function MinZ(data: seq<Point>): (m: real)
    requires |data| > 0
    ensures forall k :: 0 <= k < |data| ==> m <= data[k].z
    ensures exists k :: 0 <= k < |data| && m == data[k].z
  {
    if |data| == 1 then data[0].z
    else
      var rest := MinZ(data[1..]);
      if data[0].z <= rest then data[0].z else rest
  }

  // ---------------------------------------------------------------------
  // Plots and the points they receive
  // ---------------------------------------------------------------------

  /** What a `Plot` is made from: its row, its label and its z-bin `(min_z, max_z)`. */
  datatype PlotSpec = PlotSpec(row: string, letter: Label, minZ: real, maxZ: real)

  /** `f"{row}_{letter}"`, the plot's output file name before `.csv`, as code points. */
  function PlotName(row: string, letter: Label): seq<int>
  {
    CodePoints(row) + ['_' as int] + LabelText(letter)
  }

  /** `Plot.range_match`: the open interval `min_z < z < max_z`. */
  predicate RangeMatch(s: PlotSpec, z: real)
  {
    s.minZ < z < s.maxZ
  }

  /** parser.py's `Plot.row_match`: going 'down', x < 0 is r2; any other direction, x < 0 is r1. */
  predicate RowMatch(row: string, x: real, direction: string, r1: string, r2: string)
  {
    if direction == "down" then (x < 0.0 && row == r2) || (x >= 0.0 && row == r1)
    else (x < 0.0 && row == r1) || (x >= 0.0 && row == r2)
  }

  /** high_mem_parser.py's `Plot.row_match`: going 'up', x < 0 is r2; any other direction, x < 0 is r1. */
  predicate HighMemRowMatch(row: string, x: real, direction: string, r1: string, r2: string)
  {
    if direction == "up" then (x < 0.0 && row == r2) || (x >= 0.0 && row == r1)
    else (x < 0.0 && row == r1) || (x >= 0.0 && row == r2)
  }

  /** What the assignment loop of `process_scan` needs besides the plot: script, scan kind, direction, rows. */
  datatype Rule = Rule(variant: Variant, additional: bool, direction: string, r1: string, r2: string)

  /** `x_mask`: the lateral rule, which high_mem_parser.py skips for additional scans. */
  predicate XMask(rule: Rule, row: string, x: real)
  {
    match rule.variant
    case Parser => RowMatch(row, x, rule.direction, rule.r1, rule.r2)
    case HighMem => rule.additional || HighMemRowMatch(row, x, rule.direction, rule.r1, rule.r2)
  }

  /** `z_mask & x_mask` for one point. */
  predicate Selects(rule: Rule, s: PlotSpec, p: Point)
  {
    RangeMatch(s, p.z) && XMask(rule, s.row, p.x)
  }

  /** `p.cloud = data[z_mask & x_mask]`. */
  function Select(rule: Rule, s: PlotSpec, data: seq<Point>): (cloud: seq<Point>)
    ensures forall p :: p in cloud <==> p in data && s.minZ < p.z < s.maxZ && XMask(rule, s.row, p.x)
  {
    Keep(data, p => Selects(rule, s, p))
  }

  /** The rows `Plot.write` stores: X, Y, Z and E divided by 1000 (mm to m), RSSI as is. */
  function Scaled(cloud: seq<Point>): (r: seq<Point>)
    ensures |r| == |cloud|
    ensures forall k :: 0 <= k < |r| ==>
      r[k] == Point(cloud[k].x / 1000.0, cloud[k].y / 1000.0, cloud[k].z / 1000.0, cloud[k].rssi, cloud[k].e / 1000.0)
  {
    seq(|cloud|, k requires 0 <= k < |cloud| =>
      Point(cloud[k].x / 1000.0, cloud[k].y / 1000.0, cloud[k].z / 1000.0, cloud[k].rssi, cloud[k].e / 1000.0))
  }

  /** Metres back to millimetres: the multiplication by 1000 that undoes `Scaled`. */
  function Unscaled(rows: seq<Point>): (r: seq<Point>)
    ensures |r| == |rows|
  {
    seq(|rows|, k requires 0 <= k < |rows| =>
      Point(rows[k].x * 1000.0, rows[k].y * 1000.0, rows[k].z * 1000.0, rows[k].rssi, rows[k].e * 1000.0))
  }

  /** The rows written in metres determine the cloud exactly: no point is lost, reordered or merged. */
  lemma ScaledRoundTrip(cloud: seq<Point>)
    ensures Unscaled(Scaled(cloud)) == cloud
  {
    var r := Unscaled(Scaled(cloud));
    forall k | 0 <= k < |cloud|
      ensures r[k] == cloud[k]
    {
      var p, q := cloud[k], Scaled(cloud)[k];
      assert q.x * 1000.0 == p.x && q.y * 1000.0 == p.y && q.z * 1000.0 == p.z && q.e * 1000.0 == p.e;
    }
  }

  // ---------------------------------------------------------------------
  // Bins
  // ---------------------------------------------------------------------

  /** The lower edge of bin i: `st + i * split_mm`. */
  function BinLow(st: real, split: real, i: int): real
  {
    st + (i as real) * split
  }

  /**
   * The plots `process_scan` appends for `labels`: for label i, the bin
   * `(st + i*split, st + (i+1)*split)` once in row r1 and then in row r2.
   */
  function PairedBins(r1: string, r2: string, labels: seq<Label>, st: real, split: real): (r: seq<PlotSpec>)
    ensures |r| == 2 * |labels|
    decreases |labels|
  {
    if |labels| == 0 then []
    else
      var n := |labels| - 1;
      PairedBins(r1, r2, labels[..n], st, split) +
        [PlotSpec(r1, labels[n], BinLow(st, split, n), BinLow(st, split, n + 1)),
         PlotSpec(r2, labels[n], BinLow(st, split, n), BinLow(st, split, n + 1))]
  }

  /** `int(x)` for a float: truncation toward zero. */
  function TruncToInt(x: real): (n: int)
    ensures 0.0 <= x ==> 0 <= n && n as real <= x < n as real + 1.0
    ensures x < 0.0 ==> n <= 0 && n as real - 1.0 < x <= n as real
  {
    if x >= 0.0 then x.Floor else -((-x).Floor)
  }

  /** The labels of an additional scan: `chr(97 + i)` for i in `range(int(n_plots))`. */
  function AdditionalLabels(c: Config): seq<Label>
  {
    Letters(PyRange(97, 97 + TruncToInt(c.nPlots), 1))
  }

  /** Where the first bin of an additional scan starts: `z0 + start_mm` in parser.py, `start_mm` in high_mem_parser.py. */
  function AdditionalStart(v: Variant, z0: real, startMm: real): real
  {
    match v
    case Parser => z0 + startMm
    case HighMem => startMm
  }

  /** parser.py's `z0 = data[:, 2].min()`; high_mem_parser.py has no z0 (0 here, never used). */
  function Z0(v: Variant, data: seq<Point>): real
  {
    if v == Parser && |data| > 0 then MinZ(data) else 0.0
  }

  /** The plots of a scan and the rule that fills them. */
  datatype Layout = Layout(rule: Rule, plots: seq<PlotSpec>)

  /**
   * The plot-generation block of `process_scan`; None where the script
   * raises: parser.py's `data[:, 2].min()` on an empty cloud, or, for a
   * canonical scan, a name that does not unpack into four fields, a row that
   * `int()` rejects, or labels that are neither two characters nor two integers.
   */
  function ScanLayout(v: Variant, c: Config, scan: string, data: seq<Point>): Option<Layout>
  {
    if v == Parser && |data| == 0 then None
    else if IsAdditional(scan) then Some(AdditionalScanLayout(v, c, scan, Z0(v, data)))
    else CanonicalScanLayout(v, c, scan)
  }

  /** The additional-scan branch: rows `scan_left` and `scan_right`, labels 'a', 'b', ..., going 'up'. */
  function AdditionalScanLayout(v: Variant, c: Config, scan: string, z0: real): Layout
  {
    var r1, r2 := scan + "_left", scan + "_right";
    Layout(Rule(v, true, "up", r1, r2),
           PairedBins(r1, r2, AdditionalLabels(c), AdditionalStart(v, z0, StartMm(c)), SplitMm(c)))
  }

  /** The canonical branch: `row, direction, a, b = scan.split('_')`, the companion row, the labels and the first bin. */
  function CanonicalScanLayout(v: Variant, c: Config, scan: string): Option<Layout>
  {
    match ParseCanonical(scan)
    case None => None
    case Some(cn) =>
      if ParseInt(cn.row).None? then None
      else
        match ScanLabels(cn.start, cn.end)
        case None => None
        case Some(labels) =>
          var r2 := CompanionRow(cn.row);
          var st := if cn.start == "j" then 0.0 else StartMm(c);
          Some(Layout(Rule(v, false, cn.direction, cn.row, r2), PairedBins(cn.row, r2, labels, st, SplitMm(c))))
  }

  // ---------------------------------------------------------------------
  // Properties of the rules
  // ---------------------------------------------------------------------

  /** When the two rows differ, parser.py's rule puts every x in exactly one of them. */
  lemma RowMatchExactlyOne(x: real, direction: string, r1: string, r2: string)
    requires r1 != r2
    ensures RowMatch(r1, x, direction, r1, r2) != RowMatch(r2, x, direction, r1, r2)
    ensures RowMatch(r1, x, direction, r1, r2) <==> (if direction == "down" then x >= 0.0 else x < 0.0)
  {
  }

  /** high_mem_parser.py's rule is parser.py's with the sides swapped whenever the direction is 'up' or 'down'. */
  lemma HighMemRowMatchInverted(row: string, x: real, direction: string, r1: string, r2: string)
    requires r1 != r2 && (direction == "up" || direction == "down")
    ensures HighMemRowMatch(row, x, direction, r1, r2) <==> RowMatch(row, x, direction, r2, r1)
    ensures HighMemRowMatch(r1, x, direction, r1, r2) != HighMemRowMatch(r2, x, direction, r1, r2)
  {
  }

  /** Bin edges grow with the bin index when the split is positive. */
  lemma BinLowIncreasing(st: real, split: real, i: int, j: int)
    requires split > 0.0 && i < j
    ensures BinLow(st, split, i) < BinLow(st, split, j)
  {
    var d := (j - i) as real;
    assert d >= 1.0;
    assert d * split >= split by {
      assert (d - 1.0) * split >= 0.0;
    }
    assert BinLow(st, split, j) - BinLow(st, split, i) == d * split;
  }

  /** A z value lies strictly inside at most one bin. */
  lemma BinsDisjoint(st: real, split: real, i: int, j: int, z: real)
    requires split > 0.0
    requires BinLow(st, split, i) < z < BinLow(st, split, i + 1)
    requires BinLow(st, split, j) < z < BinLow(st, split, j + 1)
    ensures i == j
  {
    if i < j {
      if i + 1 < j { BinLowIncreasing(st, split, i + 1, j); }
    } else if j < i {
      if j + 1 < i { BinLowIncreasing(st, split, j + 1, i); }
    }
  }

  /** Consecutive plots share a bin edge: each bin ends where the next begins. */
  lemma PairedBinsAbut(r1: string, r2: string, labels: seq<Label>, st: real, split: real, i: nat)
    requires i + 1 < |labels|
    ensures var r := PairedBins(r1, r2, labels, st, split);
      r[2 * i].maxZ == r[2 * i + 1].maxZ == r[2 * (i + 1)].minZ == r[2 * (i + 1) + 1].minZ
  {
    PairedBinsPair(r1, r2, labels, st, split, i);
    PairedBinsPair(r1, r2, labels, st, split, i + 1);
  }

  /** The plot at index k of PairedBins is label k/2's bin, in row r1 for even k and r2 for odd k. */
  lemma {:induction false} PairedBinsAt(r1: string, r2: string, labels: seq<Label>, st: real, split: real, k: nat)
    requires k < 2 * |labels|
    ensures PairedBins(r1, r2, labels, st, split)[k] ==
      PlotSpec(if k % 2 == 0 then r1 else r2, labels[k / 2], BinLow(st, split, k / 2), BinLow(st, split, k / 2 + 1))
    decreases |labels|
  {
    var n := |labels| - 1;
    var front := labels[..n];
    if k < 2 * n {
      PairedBinsAt(r1, r2, front, st, split, k);
      assert front[k / 2] == labels[k / 2];
    }
  }

  /** The two plots of label i: rows r1 then r2, both on bin `(st + i*split, st + (i+1)*split)`. */
  lemma PairedBinsPair(r1: string, r2: string, labels: seq<Label>, st: real, split: real, i: nat)
    requires i < |labels|
    ensures var r := PairedBins(r1, r2, labels, st, split);
      && r[2 * i] == PlotSpec(r1, labels[i], BinLow(st, split, i), BinLow(st, split, i + 1))
      && r[2 * i + 1] == PlotSpec(r2, labels[i], BinLow(st, split, i), BinLow(st, split, i + 1))
  {
    assert (2 * i) / 2 == i && (2 * i + 1) / 2 == i && (2 * i) % 2 == 0 && (2 * i + 1) % 2 == 1;
    PairedBinsAt(r1, r2, labels, st, split, 2 * i);
    PairedBinsAt(r1, r2, labels, st, split, 2 * i + 1);
  }

  /** Whether a rule applies the lateral rule, so that each point can go to one row only. */
  predicate Lateral(rule: Rule)
  {
    !(rule.variant == HighMem && rule.additional)
  }

  /**
   * With a positive split and two different rows, a point is selected by at
   * most one of the plots, whenever the lateral rule applies.
   */
  lemma PairedBinsAtMostOne(rule: Rule, labels: seq<Label>, st: real, split: real, p: Point, k1: nat, k2: nat)
    requires split > 0.0 && rule.r1 != rule.r2 && Lateral(rule)
    requires k1 < 2 * |labels| && k2 < 2 * |labels|
    requires var r := PairedBins(rule.r1, rule.r2, labels, st, split);
      Selects(rule, r[k1], p) && Selects(rule, r[k2], p)
    ensures k1 == k2
  {
    PairedBinsAt(rule.r1, rule.r2, labels, st, split, k1);
    PairedBinsAt(rule.r1, rule.r2, labels, st, split, k2);
    BinsDisjoint(st, split, k1 / 2, k2 / 2, p.z);
    if k1 % 2 != k2 % 2 {
      if rule.variant == Parser {
        RowMatchExactlyOne(p.x, rule.direction, rule.r1, rule.r2);
      } else {
        HighMemRowMatchExactlyOne(p.x, rule.direction, rule.r1, rule.r2);
      }
    }
  }

  lemma HighMemRowMatchExactlyOne(x: real, direction: string, r1: string, r2: string)
    requires r1 != r2
    ensures HighMemRowMatch(r1, x, direction, r1, r2) != HighMemRowMatch(r2, x, direction, r1, r2)
  {
  }

  /**
   * A point strictly inside bin i is selected by one of the two plots of
   * label i (by both where the lateral rule is skipped).
   */
  lemma PairedBinsCover(rule: Rule, labels: seq<Label>, st: real, split: real, p: Point, i: nat)
    requires rule.r1 != rule.r2
    requires i < |labels| && BinLow(st, split, i) < p.z < BinLow(st, split, i + 1)
    ensures var r := PairedBins(rule.r1, rule.r2, labels, st, split);
      Selects(rule, r[2 * i], p) || Selects(rule, r[2 * i + 1], p)
    ensures var r := PairedBins(rule.r1, rule.r2, labels, st, split);
      !Lateral(rule) ==> Selects(rule, r[2 * i], p) && Selects(rule, r[2 * i + 1], p)
  {
    PairedBinsPair(rule.r1, rule.r2, labels, st, split, i);
    if rule.variant == Parser {
      RowMatchExactlyOne(p.x, rule.direction, rule.r1, rule.r2);
    } else {
      HighMemRowMatchExactlyOne(p.x, rule.direction, rule.r1, rule.r2);
    }
  }

  /** In high_mem_parser.py the `_left` and `_right` plots of an additional scan's bin receive the same cloud. */
  lemma HighMemAdditionalBothRows(rule: Rule, labels: seq<Label>, st: real, split: real, data: seq<Point>, i: nat)
    requires rule.variant == HighMem && rule.additional && i < |labels|
    ensures var r := PairedBins(rule.r1, rule.r2, labels, st, split);
      Select(rule, r[2 * i], data) == Select(rule, r[2 * i + 1], data)
  {
    var r := PairedBins(rule.r1, rule.r2, labels, st, split);
    PairedBinsPair(rule.r1, rule.r2, labels, st, split, i);
    KeepSame(data, p => Selects(rule, r[2 * i], p), p => Selects(rule, r[2 * i + 1], p));
  }

  /** A point exactly on a bin edge lies in no plot: the z test is strict on both sides. */
  lemma EdgeInNoPlot(rule: Rule, labels: seq<Label>, st: real, split: real, p: Point, i: int, k: nat)
    requires split > 0.0 && p.z == BinLow(st, split, i) && k < 2 * |labels|
    ensures !Selects(rule, PairedBins(rule.r1, rule.r2, labels, st, split)[k], p)
  {
    PairedBinsAt(rule.r1, rule.r2, labels, st, split, k);
    var j := k / 2;
    if j < i && j + 1 < i { BinLowIncreasing(st, split, j + 1, i); }
    if i < j { BinLowIncreasing(st, split, i, j); }
  }

  /** With `--split 0` (the default) every bin is empty, so every plot's cloud is empty. */
  lemma ZeroSplitSelectsNothing(rule: Rule, labels: seq<Label>, st: real, data: seq<Point>, k: nat)
    requires k < 2 * |labels|
    ensures Select(rule, PairedBins(rule.r1, rule.r2, labels, st, 0.0)[k], data) == []
  {
    var s := PairedBins(rule.r1, rule.r2, labels, st, 0.0)[k];
    PairedBinsAt(rule.r1, rule.r2, labels, st, 0.0, k);
    assert s.minZ == s.maxZ == st;
    KeepNothing(data, p => Selects(rule, s, p));
  }

  /** The companion rows of a scan differ: `str(int(row)+1)` from `row`, and `_left` from `_right`. */
  lemma LayoutRowsDiffer(v: Variant, c: Config, scan: string, data: seq<Point>)
    requires ScanLayout(v, c, scan, data).Some?
    ensures ScanLayout(v, c, scan, data).value.rule.r1 != ScanLayout(v, c, scan, data).value.rule.r2
  {
    if IsAdditional(scan) {
      AdditionalRowsDiffer(v, c, scan, Z0(v, data));
    } else {
      CanonicalRowsDiffer(v, c, scan);
    }
  }

  lemma AdditionalRowsDiffer(v: Variant, c: Config, scan: string, z0: real)
    ensures AdditionalScanLayout(v, c, scan, z0).rule.r1 != AdditionalScanLayout(v, c, scan, z0).rule.r2
  {
    var r1, r2 := scan + "_left", scan + "_right";
    assert r1[|scan| + 1] == 'l' && r2[|scan| + 1] == 'r';
  }

  lemma CanonicalRowsDiffer(v: Variant, c: Config, scan: string)
    requires CanonicalScanLayout(v, c, scan).Some?
    ensures CanonicalScanLayout(v, c, scan).value.rule.r1 != CanonicalScanLayout(v, c, scan).value.rule.r2
  {
  }

  /**
   * Every scan layout is a partition when the split is positive and the
   * lateral rule applies: a point of the cloud lands in at most one plot.
   */
  lemma LayoutAtMostOne(v: Variant, c: Config, scan: string, data: seq<Point>, p: Point, k1: nat, k2: nat)
    requires SplitMm(c) > 0.0
    requires ScanLayout(v, c, scan, data).Some? && Lateral(ScanLayout(v, c, scan, data).value.rule)
    requires var lay := ScanLayout(v, c, scan, data).value;
      k1 < |lay.plots| && k2 < |lay.plots| && Selects(lay.rule, lay.plots[k1], p) && Selects(lay.rule, lay.plots[k2], p)
    ensures k1 == k2
  {
    var lay := ScanLayout(v, c, scan, data).value;
    LayoutRowsDiffer(v, c, scan, data);
    var z0 := Z0(v, data);
    if IsAdditional(scan) {
      PairedBinsAtMostOne(lay.rule, AdditionalLabels(c), AdditionalStart(v, z0, StartMm(c)), SplitMm(c), p, k1, k2);
    } else {
      var cn := ParseCanonical(scan).value;
      var labels := ScanLabels(cn.start, cn.end).value;
      var st := if cn.start == "j" then 0.0 else StartMm(c);
      PairedBinsAtMostOne(lay.rule, labels, st, SplitMm(c), p, k1, k2);
    }
  }

  /**
   * A canonical scan `row_direction_a_b` is laid out on rows `row` and
   * `str(int(row)+1)`, two plots per label, with the first bin starting at
   * 0 when `a` is 'j' and at `start_mm` otherwise; the script raises exactly
   * when the name, the row or the labels do not parse (or, in parser.py, the
   * cloud is empty).
   */
  lemma CanonicalLayout(v: Variant, c: Config, scan: string, data: seq<Point>)
    requires !IsAdditional(scan)
    ensures ScanLayout(v, c, scan, data).None? <==>
      (v == Parser && |data| == 0) || ParseCanonical(scan).None? ||
      ParseInt(ParseCanonical(scan).value.row).None? ||
      ScanLabels(ParseCanonical(scan).value.start, ParseCanonical(scan).value.end).None?
    ensures ScanLayout(v, c, scan, data).Some? ==>
      var lay := ScanLayout(v, c, scan, data).value;
      var cn := ParseCanonical(scan).value;
      var labels := ScanLabels(cn.start, cn.end).value;
      && lay.rule == Rule(v, false, cn.direction, cn.row, IntToString(ParseInt(cn.row).value + 1))
      && |lay.plots| == 2 * |labels| >= 2
      && lay.plots[0].minZ == (if cn.start == "j" then 0.0 else StartMm(c))
      && lay.plots[0].row == cn.row && lay.plots[1].row == lay.rule.r2
  {
    assert ScanLayout(v, c, scan, data) == if v == Parser && |data| == 0 then None else CanonicalScanLayout(v, c, scan);
    CanonicalBranch(v, c, scan);
  }

  lemma CanonicalBranch(v: Variant, c: Config, scan: string)
    ensures CanonicalScanLayout(v, c, scan).None? <==>
      ParseCanonical(scan).None? ||
      ParseInt(ParseCanonical(scan).value.row).None? ||
      ScanLabels(ParseCanonical(scan).value.start, ParseCanonical(scan).value.end).None?
    ensures CanonicalScanLayout(v, c, scan).Some? ==>
      var lay := CanonicalScanLayout(v, c, scan).value;
      var cn := ParseCanonical(scan).value;
      var labels := ScanLabels(cn.start, cn.end).value;
      && lay.rule == Rule(v, false, cn.direction, cn.row, IntToString(ParseInt(cn.row).value + 1))
      && |lay.plots| == 2 * |labels| >= 2
      && lay.plots[0].minZ == (if cn.start == "j" then 0.0 else StartMm(c))
      && lay.plots[0].row == cn.row && lay.plots[1].row == lay.rule.r2
  {
    var pc := ParseCanonical(scan);
    if pc.Some? && ParseInt(pc.value.row).Some? && ScanLabels(pc.value.start, pc.value.end).Some? {
      var cn := pc.value;
      var labels := ScanLabels(cn.start, cn.end).value;
      ScanLabelsNonEmpty(cn.start, cn.end);
      var st := if cn.start == "j" then 0.0 else StartMm(c);
      var r2 := CompanionRow(cn.row);
      assert CanonicalScanLayout(v, c, scan) == Some(Layout(Rule(v, false, cn.direction, cn.row, r2), PairedBins(cn.row, r2, labels, st, SplitMm(c))));
      PairedFirst(cn, r2, labels, st, SplitMm(c));
    }
  }

  /** The first two plots of a canonical layout. */
  lemma PairedFirst(cn: Canonical, r2: string, labels: seq<Label>, st: real, split: real)
    requires |labels| >= 1
    ensures var r := PairedBins(cn.row, r2, labels, st, split);
      |r| == 2 * |labels| && r[0].minZ == st && r[0].row == cn.row && r[1].row == r2
  {
    PairedBinsPair(cn.row, r2, labels, st, split, 0);
  }

  /**
   * An additional scan is laid out on rows `scan_left` and `scan_right`,
   * going 'up', with labels 'a', 'b', ... for `range(int(n_plots))`; its
   * first bin starts at `z0 + start_mm` in parser.py and at `start_mm` in
   * high_mem_parser.py.
   */
  lemma AdditionalLayout(v: Variant, c: Config, scan: string, data: seq<Point>, i: nat)
    requires IsAdditional(scan) && (v == Parser ==> |data| > 0)
    requires 0 <= i < TruncToInt(c.nPlots)
    ensures ScanLayout(v, c, scan, data).Some?
    ensures var lay := ScanLayout(v, c, scan, data).value;
      && lay.rule == Rule(v, true, "up", scan + "_left", scan + "_right")
      && |lay.plots| == 2 * TruncToInt(c.nPlots)
      && lay.plots[2 * i].letter == lay.plots[2 * i + 1].letter == Letter(97 + i)
      && lay.plots[2 * i].row == scan + "_left" && lay.plots[2 * i + 1].row == scan + "_right"
      && lay.plots[2 * i].minZ == BinLow(AdditionalStart(v, Z0(v, data), StartMm(c)), SplitMm(c), i)
  {
    AdditionalLabelsAt(c, i);
    var labels := AdditionalLabels(c);
    var z0 := Z0(v, data);
    var st := AdditionalStart(v, z0, StartMm(c));
    var r1, r2 := scan + "_left", scan + "_right";
    assert ScanLayout(v, c, scan, data) == Some(Layout(Rule(v, true, "up", r1, r2), PairedBins(r1, r2, labels, st, SplitMm(c))));
    PairedBinsPair(r1, r2, labels, st, SplitMm(c), i);
  }

  /** `range(int(n_plots))` has int(n_plots) elements and label i is `chr(97 + i)`. */
  lemma AdditionalLabelsAt(c: Config, i: nat)
    requires i < TruncToInt(c.nPlots)
    ensures |AdditionalLabels(c)| == TruncToInt(c.nPlots) && AdditionalLabels(c)[i] == Letter(97 + i)
  {
    var n := TruncToInt(c.nPlots);
    PyRangeUnitLength(97, 97 + n);
    var codes := PyRange(97, 97 + n, 1);
    assert codes[i] == 97 + i;
  }
}
