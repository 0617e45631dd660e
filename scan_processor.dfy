/**
 * `process_scan` of parser.py and high_mem_parser.py: the `Plot` objects it
 * appends, the loop that fills each plot's cloud and writes it, and the
 * file set that results.
 */
module ScanProcessor {
  import opened Text
  import opened Labels
  import opened ScanNames
  import opened TimeJoin
  import opened Clouds
  import opened Reconstruct

  type Files = map<seq<int>, seq<Point>>

  /** `Plot`: row, label and z-bin fixed at construction, the cloud assigned later. */
  class Plot {
    const row: string
    const letter: Label
    const minZ: real
    const maxZ: real
    var cloud: seq<Point>

    constructor (row: string, letter: Label, minZ: real, maxZ: real)
      ensures Spec() == PlotSpec(row, letter, minZ, maxZ) && cloud == []
    {
      this.row := row;
      this.letter := letter;
      this.minZ := minZ;
      this.maxZ := maxZ;
      cloud := [];
    }

    function Spec(): PlotSpec
    {
      PlotSpec(row, letter, minZ, maxZ)
    }

    function Name(): seq<int>
    {
      PlotName(row, letter)
    }

    /**
     * `Plot.write`: nothing when the output file exists or the cloud is
     * empty; otherwise the file is created with the cloud scaled to metres.
     */
    method Write(out: OutputDir<seq<int>>)
      modifies out
      ensures Name() in old(out.files) || |cloud| == 0 ==> out.files == old(out.files)
      ensures Name() !in old(out.files) && |cloud| > 0 ==> out.files == old(out.files)[Name() := Scaled(cloud)]
    {
      if Name() in out.files {
        return;
      }
      if |cloud| == 0 {
        return;
      }
      out.Create(Name(), Scaled(cloud));
    }
  }

  function Specs(plots: seq<Plot>): (r: seq<PlotSpec>)
    ensures |r| == |plots| && forall k :: 0 <= k < |plots| ==> r[k] == plots[k].Spec()
  {
    seq(|plots|, k requires 0 <= k < |plots| => plots[k].Spec())
  }

  lemma SpecsAppend(a: seq<Plot>, b: seq<Plot>)
    ensures Specs(a + b) == Specs(a) + Specs(b)
  {
  }

  /** `p.write()` for a plot whose cloud is `rule` applied to `data`. */
  function WriteOne(files: Files, s: PlotSpec, rule: Rule, data: seq<Point>): Files
  {
    var cloud := Select(rule, s, data);
    var name := PlotName(s.row, s.letter);
    if name in files || |cloud| == 0 then files else files[name := Scaled(cloud)]
  }

  /** The files after every plot of `specs`, in order, has been filled and written. */
  function StoreAfter(files: Files, specs: seq<PlotSpec>, rule: Rule, data: seq<Point>): Files
    decreases |specs|
  {
    if |specs| == 0 then files
    else WriteOne(StoreAfter(files, specs[..|specs| - 1], rule, data), specs[|specs| - 1], rule, data)
  }

  lemma StoreAfterSnoc(files: Files, specs: seq<PlotSpec>, rule: Rule, data: seq<Point>, i: nat)
    requires i < |specs|
    ensures StoreAfter(files, specs[..i + 1], rule, data) == WriteOne(StoreAfter(files, specs[..i], rule, data), specs[i], rule, data)
  {
    assert specs[..i + 1][..i] == specs[..i];
  }

  /** `for i, letter in enumerate(lr)`: two plots per label, rows `row` then `row2`. */
  method BuildCanonicalPlots(row: string, row2: string, labels: seq<Label>, st: real, split: real)
    returns (plots: seq<Plot>)
    ensures Specs(plots) == PairedBins(row, row2, labels, st, split)
    ensures forall p :: p in plots ==> fresh(p)
  {
    plots := [];
    var i := 0;
    while i < |labels|
      invariant 0 <= i <= |labels|
      invariant Specs(plots) == PairedBins(row, row2, labels[..i], st, split)
      invariant forall p :: p in plots ==> fresh(p)
    {
      var lo, hi := BinLow(st, split, i), BinLow(st, split, i + 1);
      var p1 := new Plot(row, labels[i], lo, hi);
      var p2 := new Plot(row2, labels[i], lo, hi);
      SpecsAppend(plots, [p1, p2]);
      assert labels[..i + 1][..i] == labels[..i];
      plots := plots + [p1, p2];
      i := i + 1;
    }
    assert labels[..|labels|] == labels;
  }

  /**
   * `for i in range(n)`: label `chr(97 + i)` and bin
   * `(st + i*split, st + (i+1)*split)`, once for each of the two rows.
   */
  method BuildAdditionalPlots(row1: string, row2: string, n: int, st: real, split: real)
    returns (plots: seq<Plot>)
    ensures Specs(plots) == PairedBins(row1, row2, Letters(PyRange(97, 97 + n, 1)), st, split)
    ensures forall p :: p in plots ==> fresh(p)
  {
    ghost var labels := Letters(PyRange(97, 97 + n, 1));
    PyRangeUnitLength(97, 97 + n);
    assert forall k :: 0 <= k < |labels| ==> labels[k] == Letter(97 + k);
    plots := LetterPlots(row1, row2, n, st, split, labels);
  }

  /** The loop of BuildAdditionalPlots, over labels known to be `chr(97 + i)` for i below n. */
  method LetterPlots(row1: string, row2: string, n: int, st: real, split: real, ghost labels: seq<Label>)
    returns (plots: seq<Plot>)
    requires |labels| == (if n < 0 then 0 else n)
    requires forall k :: 0 <= k < |labels| ==> labels[k] == Letter(97 + k)
    ensures Specs(plots) == PairedBins(row1, row2, labels, st, split)
    ensures forall p :: p in plots ==> fresh(p)
  {
    plots := [];
    var i := 0;
    while i < n
      invariant 0 <= i <= |labels|
      invariant Specs(plots) == PairedBins(row1, row2, labels[..i], st, split)
      invariant forall p :: p in plots ==> fresh(p)
    {
      var lo, hi := BinLow(st, split, i), BinLow(st, split, i + 1);
      plots := AppendRows(plots, [row1, row2], Letter(97 + i), lo, hi);
      TwoRows(row1, row2, Letter(97 + i), lo, hi);
      PairedBinsSnoc(row1, row2, labels, st, split, i, lo, hi);
      i := i + 1;
    }
    assert labels[..|labels|] == labels;
  }

  lemma TwoRows(row1: string, row2: string, letter: Label, lo: real, hi: real)
    ensures seq(2, k requires 0 <= k < 2 => PlotSpec([row1, row2][k], letter, lo, hi))
         == [PlotSpec(row1, letter, lo, hi), PlotSpec(row2, letter, lo, hi)]
  {
  }

  /** Adding label i to the labels adds its two plots at the end. */
  lemma PairedBinsSnoc(r1: string, r2: string, labels: seq<Label>, st: real, split: real, i: nat, lo: real, hi: real)
    requires i < |labels| && lo == BinLow(st, split, i) && hi == BinLow(st, split, i + 1)
    ensures PairedBins(r1, r2, labels[..i + 1], st, split)
         == PairedBins(r1, r2, labels[..i], st, split) + [PlotSpec(r1, labels[i], lo, hi), PlotSpec(r2, labels[i], lo, hi)]
  {
    assert labels[..i + 1][..i] == labels[..i];
  }

  /** `for row in rows: plots.append(Plot(row, letter, (lo, hi)))`. */
  method AppendRows(plots: seq<Plot>, rows: seq<string>, letter: Label, lo: real, hi: real)
    returns (r: seq<Plot>)
    ensures Specs(r) == Specs(plots) + seq(|rows|, k requires 0 <= k < |rows| => PlotSpec(rows[k], letter, lo, hi))
    ensures forall p :: p in r ==> p in plots || fresh(p)
  {
    r := plots;
    for j := 0 to |rows|
      invariant Specs(r) == Specs(plots) + seq(j, k requires 0 <= k < j => PlotSpec(rows[k], letter, lo, hi))
      invariant forall p :: p in r ==> p in plots || fresh(p)
    {
      var p := new Plot(rows[j], letter, lo, hi);
      SpecsAppend(r, [p]);
      r := r + [p];
    }
  }

  /** `for p in plots: p.cloud = data[z_mask & x_mask]; p.write()`. */
  method AssignAndWrite(plots: seq<Plot>, rule: Rule, data: seq<Point>, out: OutputDir<seq<int>>)
    modifies (set p | p in plots), out
    ensures out.files == StoreAfter(old(out.files), Specs(plots), rule, data)
    ensures forall p :: p in plots ==> p.cloud == Select(rule, p.Spec(), data)
  {
    var i := 0;
    while i < |plots|
      invariant 0 <= i <= |plots|
      invariant out.files == StoreAfter(old(out.files), Specs(plots)[..i], rule, data)
      invariant forall k :: 0 <= k < i ==> plots[k].cloud == Select(rule, plots[k].Spec(), data)
    {
      var p := plots[i];
      ghost var before := out.files;
      p.cloud := Select(rule, p.Spec(), data);
      assert forall k :: 0 <= k <= i ==> plots[k].cloud == Select(rule, plots[k].Spec(), data);
      p.Write(out);
      assert out.files == WriteOne(before, p.Spec(), rule, data);
      StoreAfterSnoc(old(out.files), Specs(plots), rule, data, i);
      i := i + 1;
    }
    assert Specs(plots)[..|plots|] == Specs(plots);
  }

  // ---------------------------------------------------------------------
  // One scan
  // ---------------------------------------------------------------------

  /** How `process_scan` ends: two early returns, completion, or an exception that ends the run. */
  datatype Outcome = MissingData | NoMatches | Completed | Crashed

  datatype Step = Step(outcome: Outcome, files: Files)

  /** `process_scan(scan)` on the loaded rows, from the output files before to the files after. */
  function ScanStep(v: Variant, c: Config, rotate: (LidarRow, PicoRow) -> Vec3, scan: string,
                    lidar: seq<LidarRow>, pico: seq<PicoRow>, files: Files): Step
  {
    if |lidar| == 0 || |pico| == 0 then Step(MissingData, files)
    else
      var pairs := Matched(lidar, pico);
      if |pairs| == 0 then Step(NoMatches, files)
      else
        CloudStep(v, c, scan, Frame(c, rotate, lidar, pico, pairs), files)
  }

  /** The rest of `process_scan` once the cloud `data` is known: layout, then fill and write. */
  function CloudStep(v: Variant, c: Config, scan: string, data: seq<Point>, files: Files): Step
  {
    match ScanLayout(v, c, scan, data)
    case None => Step(Crashed, files)
    case Some(lay) => Step(Completed, StoreAfter(files, lay.plots, lay.rule, data))
  }

  /**
   * The plot-generation block of `process_scan`: the `Plot` objects of the
   * scan and the rule that fills them, or `ok == false` where the script raises.
   */
  method BuildPlots(v: Variant, c: Config, scan: string, data: seq<Point>)
    returns (ok: bool, plots: seq<Plot>, rule: Rule)
    ensures ok <==> ScanLayout(v, c, scan, data).Some?
    ensures ok ==> Specs(plots) == ScanLayout(v, c, scan, data).value.plots
                   && rule == ScanLayout(v, c, scan, data).value.rule
    ensures forall p :: p in plots ==> fresh(p)
  {
    plots, rule := [], Rule(v, false, "", "", "");
    if v == Parser && |data| == 0 {
      return false, plots, rule;
    }
    var z0 := Z0(v, data);
    if IsAdditional(scan) {
      var row1, row2 := scan + "_left", scan + "_right";
      plots := BuildAdditionalPlots(row1, row2, TruncToInt(c.nPlots), AdditionalStart(v, z0, StartMm(c)), SplitMm(c));
      rule := Rule(v, true, "up", row1, row2);
      return true, plots, rule;
    }
    var parsed := ParseCanonical(scan);
    if parsed.None? {
      return false, plots, rule;
    }
    var cn := parsed.value;
    if ParseInt(cn.row).None? {
      return false, plots, rule;
    }
    var row2 := CompanionRow(cn.row);
    var lr := ScanLabels(cn.start, cn.end);
    if lr.None? {
      return false, plots, rule;
    }
    var stMm := if cn.start == "j" then 0.0 else StartMm(c);
    plots := BuildCanonicalPlots(cn.row, row2, lr.value, stMm, SplitMm(c));
    rule := Rule(v, false, cn.direction, cn.row, row2);
    ok := true;
  }

  /** `process_scan`: join and mask the rows, build the plots, fill and write each. */
  method ProcessScan(v: Variant, c: Config, rotate: (LidarRow, PicoRow) -> Vec3, scan: string,
                     lidar: seq<LidarRow>, pico: seq<PicoRow>, out: OutputDir<seq<int>>)
    returns (outcome: Outcome)
    modifies out
    ensures Step(outcome, out.files) == ScanStep(v, c, rotate, scan, lidar, pico, old(out.files))
  {
    if |lidar| == 0 || |pico| == 0 {
      return MissingData;
    }
    var pairs := Matched(lidar, pico);
    if |pairs| == 0 {
      return NoMatches;
    }
    var data := Frame(c, rotate, lidar, pico, pairs);
    outcome := ProcessCloud(v, c, scan, data, out);
  }

  /** The part of `process_scan` after the width mask. */
  method ProcessCloud(v: Variant, c: Config, scan: string, data: seq<Point>, out: OutputDir<seq<int>>)
    returns (outcome: Outcome)
    modifies out
    ensures Step(outcome, out.files) == CloudStep(v, c, scan, data, old(out.files))
  {
    var ok, plots, rule := BuildPlots(v, c, scan, data);
    if !ok {
      return Crashed;
    }
    AssignAndWrite(plots, rule, data, out);
    outcome := Completed;
  }

  // ---------------------------------------------------------------------
  // What writing leaves behind
  // ---------------------------------------------------------------------

  /** Writing never changes or removes a file that exists; each new file is a plot with a non-empty cloud. */
  lemma {:induction false} StoreAfterKeeps(files: Files, specs: seq<PlotSpec>, rule: Rule, data: seq<Point>)
    ensures var r := StoreAfter(files, specs, rule, data);
      forall name :: name in files ==> name in r && r[name] == files[name]
    ensures var r := StoreAfter(files, specs, rule, data);
      forall name :: name in r && name !in files ==>
        exists k :: 0 <= k < |specs| && name == PlotName(specs[k].row, specs[k].letter)
                    && |Select(rule, specs[k], data)| > 0
    decreases |specs|
  {
    if |specs| > 0 {
      var n := |specs| - 1;
      var front := specs[..n];
      StoreAfterKeeps(files, front, rule, data);
      var r := StoreAfter(files, specs, rule, data);
      forall name | name in r && name !in files
        ensures exists k :: 0 <= k < |specs| && name == PlotName(specs[k].row, specs[k].letter)
                            && |Select(rule, specs[k], data)| > 0
      {
        if name in StoreAfter(files, front, rule, data) {
          var k :| 0 <= k < |front| && name == PlotName(front[k].row, front[k].letter)
                   && |Select(rule, front[k], data)| > 0;
          assert specs[k] == front[k];
        } else {
          assert name == PlotName(specs[n].row, specs[n].letter);
        }
      }
    }
  }

  /** After writing, every plot with a non-empty cloud has its file. */
  lemma StoreAfterCovers(files: Files, specs: seq<PlotSpec>, rule: Rule, data: seq<Point>)
    ensures forall k :: 0 <= k < |specs| && |Select(rule, specs[k], data)| > 0 ==>
      PlotName(specs[k].row, specs[k].letter) in StoreAfter(files, specs, rule, data)
  {
    forall k | 0 <= k < |specs| && |Select(rule, specs[k], data)| > 0
      ensures PlotName(specs[k].row, specs[k].letter) in StoreAfter(files, specs, rule, data)
    {
      StoreAfterCoversOne(files, specs, rule, data, k);
    }
  }

  lemma {:induction false} StoreAfterCoversOne(files: Files, specs: seq<PlotSpec>, rule: Rule, data: seq<Point>, k: nat)
    requires k < |specs| && |Select(rule, specs[k], data)| > 0
    ensures PlotName(specs[k].row, specs[k].letter) in StoreAfter(files, specs, rule, data)
    decreases |specs|
  {
    var n := |specs| - 1;
    if k == n {
      CoversLast(files, specs, rule, data);
    } else {
      var front := specs[..n];
      assert front[k] == specs[k];
      StoreAfterCoversOne(files, front, rule, data, k);
      KeepsLast(files, specs, rule, data, PlotName(specs[k].row, specs[k].letter));
    }
  }

  lemma CoversLast(files: Files, specs: seq<PlotSpec>, rule: Rule, data: seq<Point>)
    requires |specs| > 0 && |Select(rule, specs[|specs| - 1], data)| > 0
    ensures PlotName(specs[|specs| - 1].row, specs[|specs| - 1].letter) in StoreAfter(files, specs, rule, data)
  {
    var n := |specs| - 1;
    var mid := StoreAfter(files, specs[..n], rule, data);
    assert StoreAfter(files, specs, rule, data) == WriteOne(mid, specs[n], rule, data);
    WriteOneCovers(mid, specs[n], rule, data);
  }

  lemma KeepsLast(files: Files, specs: seq<PlotSpec>, rule: Rule, data: seq<Point>, name: seq<int>)
    requires |specs| > 0 && name in StoreAfter(files, specs[..|specs| - 1], rule, data)
    ensures name in StoreAfter(files, specs, rule, data)
  {
    var n := |specs| - 1;
    var mid := StoreAfter(files, specs[..n], rule, data);
    assert StoreAfter(files, specs, rule, data) == WriteOne(mid, specs[n], rule, data);
    WriteOneCovers(mid, specs[n], rule, data);
  }

  /** One write keeps every file, and adds the plot's own when its cloud is non-empty. */
  lemma WriteOneCovers(files: Files, s: PlotSpec, rule: Rule, data: seq<Point>)
    ensures forall name :: name in files ==> name in WriteOne(files, s, rule, data)
    ensures |Select(rule, s, data)| > 0 ==> PlotName(s.row, s.letter) in WriteOne(files, s, rule, data)
  {
  }

  /** When every plot with points already has its file, writing changes nothing. */
  lemma {:induction false} StoreAfterSettled(files: Files, specs: seq<PlotSpec>, rule: Rule, data: seq<Point>)
    requires forall k :: 0 <= k < |specs| && |Select(rule, specs[k], data)| > 0 ==>
      PlotName(specs[k].row, specs[k].letter) in files
    ensures StoreAfter(files, specs, rule, data) == files
    decreases |specs|
  {
    if |specs| > 0 {
      var n := |specs| - 1;
      var front := specs[..n];
      assert forall k :: 0 <= k < n ==> front[k] == specs[k];
      StoreAfterSettled(files, front, rule, data);
    }
  }

  /** Writing a scan's plots a second time over the files of the first leaves them as they are. */
  lemma StoreAfterIdempotent(files: Files, specs: seq<PlotSpec>, rule: Rule, data: seq<Point>)
    ensures var once := StoreAfter(files, specs, rule, data);
      StoreAfter(once, specs, rule, data) == once
  {
    StoreAfterCovers(files, specs, rule, data);
    StoreAfterSettled(StoreAfter(files, specs, rule, data), specs, rule, data);
  }

  /** Processing a scan again over the files it produced writes nothing new. */
  lemma ScanStepIdempotent(v: Variant, c: Config, rotate: (LidarRow, PicoRow) -> Vec3, scan: string,
                           lidar: seq<LidarRow>, pico: seq<PicoRow>, files: Files)
    ensures var once := ScanStep(v, c, rotate, scan, lidar, pico, files);
      ScanStep(v, c, rotate, scan, lidar, pico, once.files) == once
  {
    if |lidar| > 0 && |pico| > 0 {
      var pairs := Matched(lidar, pico);
      if |pairs| > 0 {
        CloudStepIdempotent(v, c, scan, Frame(c, rotate, lidar, pico, pairs), files);
      }
    }
  }

  lemma CloudStepIdempotent(v: Variant, c: Config, scan: string, data: seq<Point>, files: Files)
    ensures var once := CloudStep(v, c, scan, data, files);
      CloudStep(v, c, scan, data, once.files) == once
  {
    if ScanLayout(v, c, scan, data).Some? {
      var lay := ScanLayout(v, c, scan, data).value;
      StoreAfterIdempotent(files, lay.plots, lay.rule, data);
    }
  }

  /** With `--split 0`, the default, a scan writes no file at all. */
  lemma ZeroSplitWritesNothing(v: Variant, c: Config, rotate: (LidarRow, PicoRow) -> Vec3, scan: string,
                               lidar: seq<LidarRow>, pico: seq<PicoRow>, files: Files)
    requires c.splitFt == 0.0
    ensures ScanStep(v, c, rotate, scan, lidar, pico, files).files == files
  {
    if |lidar| > 0 && |pico| > 0 {
      var pairs := Matched(lidar, pico);
      if |pairs| > 0 {
        ZeroSplitCloud(v, c, scan, Frame(c, rotate, lidar, pico, pairs), files);
      }
    }
  }

  lemma ZeroSplitCloud(v: Variant, c: Config, scan: string, data: seq<Point>, files: Files)
    requires SplitMm(c) == 0.0
    ensures CloudStep(v, c, scan, data, files).files == files
  {
    if ScanLayout(v, c, scan, data).Some? {
      var lay := ScanLayout(v, c, scan, data).value;
      LayoutEmptyBins(v, c, scan, data);
      StoreAfterSettled(files, lay.plots, lay.rule, data);
    }
  }

  /** With a zero split every plot of a layout has an empty cloud. */
  lemma LayoutEmptyBins(v: Variant, c: Config, scan: string, data: seq<Point>)
    requires SplitMm(c) == 0.0 && ScanLayout(v, c, scan, data).Some?
    ensures var lay := ScanLayout(v, c, scan, data).value;
      forall k :: 0 <= k < |lay.plots| ==> Select(lay.rule, lay.plots[k], data) == []
  {
    var lay := ScanLayout(v, c, scan, data).value;
    var z0 := Z0(v, data);
    forall k | 0 <= k < |lay.plots|
      ensures Select(lay.rule, lay.plots[k], data) == []
    {
      if IsAdditional(scan) {
        ZeroSplitSelectsNothing(lay.rule, AdditionalLabels(c), AdditionalStart(v, z0, StartMm(c)), data, k);
      } else {
        var cn := ParseCanonical(scan).value;
        var labels := ScanLabels(cn.start, cn.end).value;
        var st := if cn.start == "j" then 0.0 else StartMm(c);
        ZeroSplitSelectsNothing(lay.rule, labels, st, data, k);
      }
    }
  }
}
