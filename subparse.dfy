/**
 * subparse.py: the plot clouds parser.py wrote are cut into `n_plots`
 * subplots along Z, one per plant, numbered from the end the cart started
 * at. The direction of travel comes from the scan files of the reference
 * directory.
 */
module SubParse {
  import opened Text
  import opened Labels
  import opened Clouds
  import opened ScanNames
  import opened Reconstruct

  /** Feet to metres: the clouds parser.py writes are in metres. */
  const FeetToM: real := 0.3048

  /** The arguments `--split`, `--start` (feet) and `--n_plots`. */
  datatype SubConfig = SubConfig(splitFt: real, startFt: real, nPlots: int)

  function SplitM(c: SubConfig): real { c.splitFt * FeetToM }

  function StartM(c: SubConfig): real { c.startFt * FeetToM }

  /** `is_point_cloud`: a `.csv` file whose name does not contain "scan". */
  predicate IsPointCloud(name: string)
  {
    EndsWith(name, ".csv") && !Contains(name, "scan")
  }

  /** The point-cloud names of a directory listing, in listing order. */
  function PointClouds(names: seq<string>): (r: seq<string>)
    ensures forall s :: s in r <==> s in names && IsPointCloud(s)
  {
    if |names| == 0 then []
    else (if IsPointCloud(names[0]) then [names[0]] else []) + PointClouds(names[1..])
  }

  /** The filter works name by name: the point clouds of two stretches of a listing are those of each, in order. */
  lemma {:induction false} PointCloudsAppend(a: seq<string>, b: seq<string>)
    ensures PointClouds(a + b) == PointClouds(a) + PointClouds(b)
    decreases |a|
  {
    if |a| == 0 {
      assert a + b == b;
    } else {
      assert (a + b)[0] == a[0] && (a + b)[1..] == a[1..] + b;
      PointCloudsAppend(a[1..], b);
    }
  }

  /** One name is kept, once, exactly when it is a point cloud. */
  lemma PointCloudsOne(name: string)
    ensures PointClouds([name]) == if IsPointCloud(name) then [name] else []
  {
    assert [name][1..] == [];
  }

  /** The files of additional scans (`scan_###_…`) are never taken as point clouds. */
  lemma AdditionalScansExcluded(rest: string)
    ensures !IsPointCloud("scan_" + rest)
  {
    assert OccursAt("scan_" + rest, "scan", 0);
  }

  // ---------------------------------------------------------------------
  // Reference scans
  // ---------------------------------------------------------------------

  /** `ParentScan`: the direction of a scan and the two rows it covers. */
  datatype ParentScan = ParentScan(direction: string, rows: seq<string>)

  /**
   * `ParentScan(name)`: the first two `_`-fields of the name without its
   * extension; None where the unpacking or `int(r)` raises.
   */
  function ParseParent(name: string): (r: Option<ParentScan>)
    ensures r.Some? <==> var ts := Split(StripExtension(name), '_');
      |ts| >= 2 && ParseInt(ts[0]).Some?
    ensures r.Some? ==> |r.value.rows| == 2 && r.value.rows[0] != r.value.rows[1]
  {
    var ts := Split(StripExtension(name), '_');
    if |ts| < 2 || ParseInt(ts[0]).None? then None
    else Some(ParentScan(ts[1], [ts[0], CompanionRow(ts[0])]))
  }

  /**
   * The lidar file of a canonical scan yields that scan's direction and the
   * same two rows parser.py writes its plots for.
   */
  lemma ParentOfLidarFile(c: Canonical)
    requires '_' !in c.row && '_' !in c.direction && '_' !in c.start && '_' !in c.end
    requires c.row != "" && c.row[0] != '.' && ParseInt(c.row).Some?
    ensures ParseParent(Join([c.row, c.direction, c.start, c.end, "lidar"], '_') + ".csv")
         == Some(ParentScan(c.direction, [c.row, CompanionRow(c.row)]))
  {
    var ts := [c.row, c.direction, c.start, c.end, "lidar"];
    LidarStem(c, ts);
    StripCsvExtension(Join(ts, '_'));
    ParentOfFields(Join(ts, '_') + ".csv", ts);
  }

  /** The stem of a canonical lidar file starts with the row and splits back into its five fields. */
  lemma LidarStem(c: Canonical, ts: seq<string>)
    requires '_' !in c.row && '_' !in c.direction && '_' !in c.start && '_' !in c.end
    requires c.row != "" && c.row[0] != '.'
    requires ts == [c.row, c.direction, c.start, c.end, "lidar"]
    ensures Join(ts, '_') != "" && Join(ts, '_')[0] != '.'
    ensures Split(Join(ts, '_'), '_') == ts
  {
    var stem := Join(ts, '_');
    assert stem == c.row + "_" + Join(ts[1..], '_');
    assert stem[0] == c.row[0];
    assert "lidar" == ['l', 'i', 'd', 'a', 'r'];
    forall k | 0 <= k < |ts|
      ensures '_' !in ts[k]
    {
      if k == 4 {
        assert ts[k] == "lidar";
      }
    }
    SplitJoin(ts, '_');
  }

  /** A name whose stem splits into fields with an integer first field is read by those fields. */
  lemma ParentOfFields(name: string, ts: seq<string>)
    requires Split(StripExtension(name), '_') == ts && |ts| >= 2 && ParseInt(ts[0]).Some?
    ensures ParseParent(name) == Some(ParentScan(ts[1], [ts[0], CompanionRow(ts[0])]))
  {
  }

  /** `[ParentScan(r) for r in references]`; None where any of them raises. */
  function ParseParents(names: seq<string>): (r: Option<seq<ParentScan>>)
    ensures r.Some? <==> forall k :: 0 <= k < |names| ==> ParseParent(names[k]).Some?
    ensures r.Some? ==> |r.value| == |names|
    ensures r.Some? ==> forall k :: 0 <= k < |names| ==> r.value[k] == ParseParent(names[k]).value
  {
    AllSome(EachParent(names))
  }

  function EachParent(names: seq<string>): (rs: seq<Option<ParentScan>>)
    ensures |rs| == |names| && forall k :: 0 <= k < |names| ==> rs[k] == ParseParent(names[k])
  {
    seq(|names|, k requires 0 <= k < |names| => ParseParent(names[k]))
  }

  /** The values of `rs` when every one is present, None as soon as one is missing. */
  function AllSome<T>(rs: seq<Option<T>>): (r: Option<seq<T>>)
    ensures r.Some? <==> forall k :: 0 <= k < |rs| ==> rs[k].Some?
    ensures r.Some? ==> |r.value| == |rs| && forall k :: 0 <= k < |rs| ==> r.value[k] == rs[k].value
  {
    if |rs| == 0 then Some([])
    else
      var tail := AllSome(rs[1..]);
      assert forall k :: 1 <= k < |rs| ==> rs[1..][k - 1] == rs[k];
      if rs[0].Some? && tail.Some? then Some([rs[0].value] + tail.value) else None
  }

  /** The direction of the first reference scan whose rows contain `row`. */
  function FirstDirection(refs: seq<ParentScan>, row: string): (d: Option<string>)
    ensures d.None? <==> forall k :: 0 <= k < |refs| ==> row !in refs[k].rows
    ensures d.Some? ==> exists k :: 0 <= k < |refs| && row in refs[k].rows && d.value == refs[k].direction
                                   && forall j :: 0 <= j < k ==> row !in refs[j].rows
  {
    if |refs| == 0 then None
    else if row in refs[0].rows then
      assert row in refs[0].rows;
      Some(refs[0].direction)
    else
      var d := FirstDirection(refs[1..], row);
      assert forall k :: 1 <= k < |refs| ==> refs[1..][k - 1] == refs[k];
      d
  }

  /** The search `for r in scan_data: if row in r.rows: direction = r.direction; break`. */
  method FindDirection(refs: seq<ParentScan>, row: string) returns (d: Option<string>)
    ensures d == FirstDirection(refs, row)
  {
    d := None;
    var i := 0;
    while i < |refs|
      invariant 0 <= i <= |refs|
      invariant FirstDirection(refs[i..], row) == FirstDirection(refs, row)
    {
      assert refs[i..][0] == refs[i] && refs[i..][1..] == refs[i + 1..];
      if row in refs[i].rows {
        d := Some(refs[i].direction);
        return;
      }
      i := i + 1;
    }
  }

  // ---------------------------------------------------------------------
  // Subplots
  // ---------------------------------------------------------------------

  function Reversed(s: seq<int>): (r: seq<int>)
    ensures |r| == |s| && forall i :: 0 <= i < |s| ==> r[i] == s[|s| - 1 - i]
  {
    seq(|s|, i requires 0 <= i < |s| => s[|s| - 1 - i])
  }

  lemma {:induction false} ReversedMultiset(s: seq<int>)
    ensures multiset(Reversed(s)) == multiset(s)
    decreases |s|
  {
    if |s| > 0 {
      var n := |s| - 1;
      ReversedMultiset(s[..n]);
      assert Reversed(s) == [s[n]] + Reversed(s[..n]);
      assert s == s[..n] + [s[n]];
    }
  }

  /** `subplot_nums`: 1..n_plots, reversed when the scan went 'down'. */
  function SubplotNums(n: int, direction: string): (r: seq<int>)
    ensures |r| == if n > 0 then n else 0
    ensures forall i :: 0 <= i < |r| ==> r[i] == if direction == "down" then |r| - i else i + 1
  {
    PyRangeUnitLength(1, n + 1);
    var nums := PyRange(1, n + 1, 1);
    if direction == "down" then Reversed(nums) else nums
  }

  /** Either way the subplots are numbered 1..n_plots, each number once. */
  lemma SubplotNumsPermutation(n: int, direction: string)
    ensures multiset(SubplotNums(n, direction)) == multiset(PyRange(1, n + 1, 1))
  {
    PyRangeUnitLength(1, n + 1);
    if direction == "down" {
      ReversedMultiset(PyRange(1, n + 1, 1));
    }
  }

  /** The plain description of a `SubPlot`, with the `name` its constructor sets. */
  datatype SubSpec = SubSpec(row: string, rng: string, number: int, name: string, minZ: real, maxZ: real)

  /** `f"{row}_{rng}_{sub_number}"`, the output file's name without `.csv`. */
  function SubName(row: string, rng: string, number: int): string
  {
    row + "_" + rng + "_" + IntToString(number)
  }

  /** `p.cloud = data[p.range_match(data[:, 2])]`: the points strictly inside the bin. */
  function SubSelect(s: SubSpec, data: seq<Point>): (cloud: seq<Point>)
    ensures forall p :: p in cloud <==> p in data && s.minZ < p.z < s.maxZ
  {
    Keep(data, (p: Point) => s.minZ < p.z < s.maxZ)
  }

  /** The `i`-th subplot from the bottom: bin `[z0 + start + i*split, z0 + start + (i+1)*split]`. */
  function SubAt(c: SubConfig, row: string, rng: string, nums: seq<int>, z0: real, i: nat): SubSpec
    requires i < |nums|
  {
    var st := z0 + StartM(c);
    SubSpec(row, rng, nums[i], SubName(row, rng, nums[i]), BinLow(st, SplitM(c), i), BinLow(st, SplitM(c), i + 1))
  }

  /** The subplots of one plot file, lowest bin first. */
  function SubSpecs(c: SubConfig, row: string, rng: string, direction: string, z0: real): (r: seq<SubSpec>)
    ensures var nums := SubplotNums(c.nPlots, direction);
      |r| == |nums| && forall i :: 0 <= i < |r| ==> r[i] == SubAt(c, row, rng, nums, z0, i)
  {
    var nums := SubplotNums(c.nPlots, direction);
    seq(|nums|, i requires 0 <= i < |nums| => SubAt(c, row, rng, nums, z0, i))
  }

  /**
   * The numbering promised by the direction: the lowest bin is plant 1
   * unless the cart went 'down', when it is the last plant; every subplot
   * keeps the file's row and range.
   */
  lemma SubplotOrder(c: SubConfig, row: string, rng: string, direction: string, z0: real, i: nat)
    requires i < |SubSpecs(c, row, rng, direction, z0)|
    ensures var s := SubSpecs(c, row, rng, direction, z0)[i];
      && s.row == row && s.rng == rng && s.name == SubName(row, rng, s.number)
      && s.number == (if direction == "down" then c.nPlots - i else i + 1)
      && s.minZ == BinLow(z0 + StartM(c), SplitM(c), i)
      && s.maxZ == BinLow(z0 + StartM(c), SplitM(c), i + 1)
  {
  }

  /** With a positive split, no point falls into two subplots. */
  lemma SubplotsDisjoint(c: SubConfig, row: string, rng: string, direction: string, z0: real,
                         i: nat, j: nat, z: real)
    requires SplitM(c) > 0.0
    requires i < |SubSpecs(c, row, rng, direction, z0)| && j < |SubSpecs(c, row, rng, direction, z0)|
    requires var specs := SubSpecs(c, row, rng, direction, z0);
      specs[i].minZ < z < specs[i].maxZ && specs[j].minZ < z < specs[j].maxZ
    ensures i == j
  {
    BinsDisjoint(z0 + StartM(c), SplitM(c), i, j, z);
  }

  /** The subplots of one file have pairwise different file names. */
  lemma SubplotNamesDistinct(c: SubConfig, row: string, rng: string, direction: string, z0: real)
    ensures var specs := SubSpecs(c, row, rng, direction, z0);
      forall i, j :: 0 <= i < j < |specs| ==> specs[i].name != specs[j].name
  {
    var specs := SubSpecs(c, row, rng, direction, z0);
    forall i, j | 0 <= i < j < |specs|
      ensures specs[i].name != specs[j].name
    {
      var prefix := row + "_" + rng + "_";
      var a, b := IntToString(specs[i].number), IntToString(specs[j].number);
      assert specs[i].number != specs[j].number;
      if specs[i].name == specs[j].name {
        assert specs[i].name == prefix + a && specs[j].name == prefix + b;
        assert a == (prefix + a)[|prefix|..];
        assert b == (prefix + b)[|prefix|..];
        ParseIntOfString(specs[i].number);
        ParseIntOfString(specs[j].number);
        assert false;
      }
    }
  }

  /** `SubPlot`: one subplot, its bin and the points assigned to it. */
  class SubPlot {
    const row: string
    const rng: string
    const number: int
    const name: string
    const minZ: real
    const maxZ: real
    var cloud: seq<Point>

    constructor (row: string, rng: string, number: int, minZ: real, maxZ: real)
      ensures this.row == row && this.rng == rng && this.number == number && this.name == SubName(row, rng, number)
      ensures this.minZ == minZ && this.maxZ == maxZ && cloud == []
    {
      this.row := row;
      this.rng := rng;
      this.number := number;
      this.name := SubName(row, rng, number);
      this.minZ := minZ;
      this.maxZ := maxZ;
      cloud := [];
    }

    function Spec(): SubSpec
    {
      SubSpec(row, rng, number, name, minZ, maxZ)
    }

    /** `SubPlot.write`: nothing when the file exists or the cloud is empty; otherwise the cloud as it is. */
    method Write(out: OutputDir<string>)
      modifies out
      ensures name in old(out.files) || |cloud| == 0 ==> out.files == old(out.files)
      ensures name !in old(out.files) && |cloud| > 0 ==> out.files == old(out.files)[name := cloud]
    {
      if name in out.files {
        return;
      }
      if |cloud| == 0 {
        return;
      }
      out.Create(name, cloud);
    }
  }

  function SubSpecsOf(plots: seq<SubPlot>): (r: seq<SubSpec>)
    ensures |r| == |plots| && forall k :: 0 <= k < |plots| ==> r[k] == plots[k].Spec()
  {
    seq(|plots|, k requires 0 <= k < |plots| => plots[k].Spec())
  }

  /** `for i, sub_number in enumerate(subplot_nums): sub_plots.append(SubPlot(…))`. */
  method BuildSubplots(c: SubConfig, row: string, rng: string, direction: string, z0: real)
    returns (plots: seq<SubPlot>)
    ensures SubSpecsOf(plots) == SubSpecs(c, row, rng, direction, z0)
    ensures forall p :: p in plots ==> fresh(p)
  {
    var nums := SubplotNums(c.nPlots, direction);
    ghost var specs := SubSpecs(c, row, rng, direction, z0);
    var st := z0 + StartM(c);
    assert forall i :: 0 <= i < |nums| ==>
      specs[i] == SubSpec(row, rng, nums[i], SubName(row, rng, nums[i]), BinLow(st, SplitM(c), i), BinLow(st, SplitM(c), i + 1));
    plots := NumberedSubplots(row, rng, nums, st, SplitM(c), specs);
  }

  /** The loop of BuildSubplots, over the subplot numbers and the bins from `st`. */
  method NumberedSubplots(row: string, rng: string, nums: seq<int>, st: real, split: real, ghost specs: seq<SubSpec>)
    returns (plots: seq<SubPlot>)
    requires |specs| == |nums|
    requires forall i :: 0 <= i < |nums| ==>
      specs[i] == SubSpec(row, rng, nums[i], SubName(row, rng, nums[i]), BinLow(st, split, i), BinLow(st, split, i + 1))
    ensures SubSpecsOf(plots) == specs
    ensures forall p :: p in plots ==> fresh(p)
  {
    plots := [];
    var i := 0;
    while i < |nums|
      invariant 0 <= i <= |nums|
      invariant SubSpecsOf(plots) == specs[..i]
      invariant forall p :: p in plots ==> fresh(p)
    {
      var p := new SubPlot(row, rng, nums[i], BinLow(st, split, i), BinLow(st, split, i + 1));
      assert p.Spec() == specs[i];
      plots := plots + [p];
      assert SubSpecsOf(plots) == specs[..i] + [specs[i]];
      i := i + 1;
    }
  }

  type Names = map<string, seq<Point>>

  /** `p.write()` for a subplot filled from `data`. */
  function WriteSub(files: Names, s: SubSpec, data: seq<Point>): Names
  {
    var cloud := SubSelect(s, data);
    if s.name in files || |cloud| == 0 then files else files[s.name := cloud]
  }

  /** The files after every subplot of `specs`, in order, has been filled and written. */
  function WriteSubs(files: Names, specs: seq<SubSpec>, data: seq<Point>): Names
    decreases |specs|
  {
    if |specs| == 0 then files
    else WriteSub(WriteSubs(files, specs[..|specs| - 1], data), specs[|specs| - 1], data)
  }

  lemma WriteSubsSnoc(files: Names, specs: seq<SubSpec>, data: seq<Point>, i: nat)
    requires i < |specs|
    ensures WriteSubs(files, specs[..i + 1], data) == WriteSub(WriteSubs(files, specs[..i], data), specs[i], data)
  {
    assert specs[..i + 1][..i] == specs[..i];
  }

  /** `for p in sub_plots: p.cloud = data[z_mask]; p.write()`. */
  method FillAndWrite(plots: seq<SubPlot>, data: seq<Point>, out: OutputDir<string>)
    modifies (set p | p in plots), out
    ensures out.files == WriteSubs(old(out.files), SubSpecsOf(plots), data)
    ensures forall p :: p in plots ==> p.cloud == SubSelect(p.Spec(), data)
  {
    var i := 0;
    while i < |plots|
      invariant 0 <= i <= |plots|
      invariant out.files == WriteSubs(old(out.files), SubSpecsOf(plots)[..i], data)
      invariant forall k :: 0 <= k < i ==> plots[k].cloud == SubSelect(plots[k].Spec(), data)
    {
      var p := plots[i];
      ghost var before := out.files;
      ghost var spec := p.Spec();
      assert spec == SubSpecsOf(plots)[i];
      p.cloud := SubSelect(p.Spec(), data);
      p.Write(out);
      WriteSubIs(before, spec, data, p.cloud, out.files);
      WriteSubsSnoc(old(out.files), SubSpecsOf(plots), data, i);
      i := i + 1;
    }
    assert SubSpecsOf(plots)[..|plots|] == SubSpecsOf(plots);
  }

  /** What `SubPlot.write` leaves behind, once the subplot's cloud is its selection, is `WriteSub`. */
  lemma WriteSubIs(files: Names, s: SubSpec, data: seq<Point>, cloud: seq<Point>, after: Names)
    requires cloud == SubSelect(s, data)
    requires s.name in files || |cloud| == 0 ==> after == files
    requires s.name !in files && |cloud| > 0 ==> after == files[s.name := cloud]
    ensures after == WriteSub(files, s, data)
  {
  }

  /** Writing never changes or removes a file that already exists. */
  lemma {:induction false} WriteSubsKeeps(files: Names, specs: seq<SubSpec>, data: seq<Point>)
    ensures var r := WriteSubs(files, specs, data);
      forall name :: name in files ==> name in r && r[name] == files[name]
    decreases |specs|
  {
    if |specs| > 0 {
      WriteSubsKeeps(files, specs[..|specs| - 1], data);
    }
  }

  /**
   * Every subplot with points ends up with a file, and a subplot whose file
   * did not exist before gets exactly its own points.
   */
  lemma {:induction false} WriteSubsContents(files: Names, specs: seq<SubSpec>, data: seq<Point>)
    requires forall i, j :: 0 <= i < j < |specs| ==> specs[i].name != specs[j].name
    ensures var r := WriteSubs(files, specs, data);
      forall k :: 0 <= k < |specs| && |SubSelect(specs[k], data)| > 0 ==>
        specs[k].name in r &&
        (specs[k].name !in files ==> r[specs[k].name] == SubSelect(specs[k], data))
    decreases |specs|
  {
    if |specs| > 0 {
      var n := |specs| - 1;
      var front := specs[..n];
      assert forall k :: 0 <= k < n ==> front[k] == specs[k];
      WriteSubsContents(files, front, data);
      WriteSubsKeeps(files, front, data);
      var mid := WriteSubs(files, front, data);
      var r := WriteSubs(files, specs, data);
      forall k | 0 <= k < |specs| && |SubSelect(specs[k], data)| > 0
        ensures specs[k].name in r
        ensures specs[k].name !in files ==> r[specs[k].name] == SubSelect(specs[k], data)
      {
        if k < n {
          assert specs[k].name != specs[n].name;
        } else if specs[n].name in mid && specs[n].name !in files {
          WriteSubsOrigin(files, front, data, specs[n].name);
          assert false;
        }
      }
    }
  }

  /** A name that is new after writing belongs to one of the subplots written. */
  lemma {:induction false} WriteSubsOrigin(files: Names, specs: seq<SubSpec>, data: seq<Point>, name: string)
    requires name in WriteSubs(files, specs, data) && name !in files
    ensures exists k :: 0 <= k < |specs| && specs[k].name == name
    decreases |specs|
  {
    var n := |specs| - 1;
    var front := specs[..n];
    if name in WriteSubs(files, front, data) {
      WriteSubsOrigin(files, front, data, name);
      var k :| 0 <= k < |front| && front[k].name == name;
      assert specs[k] == front[k];
    } else {
      assert specs[n].name == name;
    }
  }

  /** When every subplot with points already has its file, writing changes nothing. */
  lemma {:induction false} WriteSubsSettled(files: Names, specs: seq<SubSpec>, data: seq<Point>)
    requires forall k :: 0 <= k < |specs| && |SubSelect(specs[k], data)| > 0 ==> specs[k].name in files
    ensures WriteSubs(files, specs, data) == files
    decreases |specs|
  {
    if |specs| > 0 {
      var n := |specs| - 1;
      var front := specs[..n];
      assert forall k :: 0 <= k < n ==> front[k] == specs[k];
      WriteSubsSettled(files, front, data);
      assert WriteSubs(files, specs, data) == WriteSub(files, specs[n], data);
    }
  }

  /** Every subplot of `specs` with points has its file in `r`. */
  predicate Covers(r: Names, specs: seq<SubSpec>, data: seq<Point>)
  {
    forall k :: 0 <= k < |specs| && |SubSelect(specs[k], data)| > 0 ==> specs[k].name in r
  }

  /** After writing, every subplot with points has its file. */
  lemma WriteSubsCovers(files: Names, specs: seq<SubSpec>, data: seq<Point>)
    ensures Covers(WriteSubs(files, specs, data), specs, data)
  {
    forall k | 0 <= k < |specs| && |SubSelect(specs[k], data)| > 0
      ensures specs[k].name in WriteSubs(files, specs, data)
    {
      WriteSubsCoversOne(files, specs, data, k);
    }
  }

  lemma {:induction false} WriteSubsCoversOne(files: Names, specs: seq<SubSpec>, data: seq<Point>, k: nat)
    requires k < |specs| && |SubSelect(specs[k], data)| > 0
    ensures specs[k].name in WriteSubs(files, specs, data)
    decreases |specs|
  {
    var n := |specs| - 1;
    var front := specs[..n];
    var mid := WriteSubs(files, front, data);
    WriteSubCovers(mid, specs[n], data);
    if k < n {
      assert front[k] == specs[k];
      WriteSubsCoversOne(files, front, data, k);
    }
  }

  /** One write keeps every file and adds the subplot's file when it has points. */
  lemma WriteSubCovers(files: Names, s: SubSpec, data: seq<Point>)
    ensures forall name :: name in files ==> name in WriteSub(files, s, data)
    ensures |SubSelect(s, data)| > 0 ==> s.name in WriteSub(files, s, data)
  {
  }

  // ---------------------------------------------------------------------
  // One plot file, and the script
  // ---------------------------------------------------------------------

  /** How one plot file ends: skipped for want of a direction, split, or an exception that ends the script. */
  datatype FileOutcome = Skipped | Subdivided | Raised

  datatype FileStep = FileStep(outcome: FileOutcome, files: Names)

  /**
   * One iteration of `for f in files`: `row, rng = name.split("_")` raises
   * unless there are exactly two fields, and `data[:, 2].min()` raises on
   * an empty cloud.
   */
  function SplitFile(c: SubConfig, refs: seq<ParentScan>, name: string, data: seq<Point>, files: Names): FileStep
  {
    var ts := Split(StripExtension(name), '_');
    if |ts| != 2 then FileStep(Raised, files)
    else match FirstDirection(refs, ts[0])
      case None => FileStep(Skipped, files)
      case Some(d) =>
        if |data| == 0 then FileStep(Raised, files)
        else FileStep(Subdivided, WriteSubs(files, SubSpecs(c, ts[0], ts[1], d, MinZ(data)), data))
  }

  /** The body of the loop over the plot files, for one file. */
  method SplitOne(c: SubConfig, refs: seq<ParentScan>, name: string, data: seq<Point>, out: OutputDir<string>)
    returns (outcome: FileOutcome)
    modifies out
    ensures FileStep(outcome, out.files) == SplitFile(c, refs, name, data, old(out.files))
  {
    var ts := Split(StripExtension(name), '_');
    if |ts| != 2 {
      return Raised;
    }
    var row, rng := ts[0], ts[1];
    var direction := FindDirection(refs, row);
    if direction.None? {
      return Skipped;
    }
    if |data| == 0 {
      return Raised;
    }
    var plots := BuildSubplots(c, row, rng, direction.value, MinZ(data));
    FillAndWrite(plots, data, out);
    outcome := Subdivided;
  }

  /** Whatever a file's outcome, processing it again over its own output changes nothing. */
  lemma SplitFileSettled(c: SubConfig, refs: seq<ParentScan>, name: string, data: seq<Point>,
                         files: Names, later: Names)
    requires var step := SplitFile(c, refs, name, data, files);
      forall n :: n in step.files ==> n in later
    ensures SplitFile(c, refs, name, data, later) == FileStep(SplitFile(c, refs, name, data, files).outcome, later)
  {
    var ts := Split(StripExtension(name), '_');
    if |ts| == 2 && FirstDirection(refs, ts[0]).Some? && |data| > 0 {
      var specs := SubSpecs(c, ts[0], ts[1], FirstDirection(refs, ts[0]).value, MinZ(data));
      WriteSubsCovers(files, specs, data);
      WriteSubsSettled(later, specs, data);
    }
  }

  /** The files a run leaves, and whether it ended in an exception. */
  datatype RunResult = RunResult(files: Names, raised: bool)

  /** The loop over the plot files, stopping at the first that raises. */
  function SplitFiles(c: SubConfig, refs: seq<ParentScan>, names: seq<string>, read: string -> seq<Point>,
                      files: Names): RunResult
    decreases |names|
  {
    if |names| == 0 then RunResult(files, false)
    else
      var step := SplitFile(c, refs, names[0], read(names[0]), files);
      if step.outcome == Raised then RunResult(step.files, true)
      else SplitFiles(c, refs, names[1..], read, step.files)
  }

  /** subparse.py from the listings of the reference and plot directories; `read` is `pd.read_csv`. */
  function SubparseRun(c: SubConfig, refDir: seq<string>, objDir: seq<string>, read: string -> seq<Point>,
                       files: Names): RunResult
  {
    match ParseParents(PointClouds(refDir))
    case None => RunResult(files, true)
    case Some(refs) => SplitFiles(c, refs, PointClouds(objDir), read, files)
  }

  /** The script: read the reference scans, then split every plot file in listing order. */
  method Subparse(c: SubConfig, refDir: seq<string>, objDir: seq<string>, read: string -> seq<Point>,
                  out: OutputDir<string>)
    returns (raised: bool)
    modifies out
    ensures RunResult(out.files, raised) == SubparseRun(c, refDir, objDir, read, old(out.files))
  {
    var parents := ParseParents(PointClouds(refDir));
    if parents.None? {
      return true;
    }
    var refs := parents.value;
    var names := PointClouds(objDir);
    var i := 0;
    while i < |names|
      invariant 0 <= i <= |names|
      invariant SplitFiles(c, refs, names[i..], read, out.files) == SubparseRun(c, refDir, objDir, read, old(out.files))
    {
      assert names[i..][0] == names[i] && names[i..][1..] == names[i + 1..];
      var outcome := SplitOne(c, refs, names[i], read(names[i]), out);
      if outcome == Raised {
        return true;
      }
      i := i + 1;
    }
    assert names[|names|..] == [];
    raised := false;
  }

  /** A run never changes or removes a file that already existed. */
  lemma {:induction false} SplitFilesKeeps(c: SubConfig, refs: seq<ParentScan>, names: seq<string>,
                                           read: string -> seq<Point>, files: Names)
    ensures var r := SplitFiles(c, refs, names, read, files);
      forall n :: n in files ==> n in r.files && r.files[n] == files[n]
    decreases |names|
  {
    if |names| > 0 {
      var data := read(names[0]);
      var ts := Split(StripExtension(names[0]), '_');
      if |ts| == 2 && FirstDirection(refs, ts[0]).Some? && |data| > 0 {
        WriteSubsKeeps(files, SubSpecs(c, ts[0], ts[1], FirstDirection(refs, ts[0]).value, MinZ(data)), data);
      }
      var step := SplitFile(c, refs, names[0], data, files);
      if step.outcome != Raised {
        SplitFilesKeeps(c, refs, names[1..], read, step.files);
      }
    }
  }

  /** Running the loop again over the files it left behind writes nothing and ends the same way. */
  lemma {:induction false} SplitFilesIdempotent(c: SubConfig, refs: seq<ParentScan>, names: seq<string>,
                                                read: string -> seq<Point>, files: Names)
    ensures var r := SplitFiles(c, refs, names, read, files);
      SplitFiles(c, refs, names, read, r.files) == r
    decreases |names|
  {
    var r := SplitFiles(c, refs, names, read, files);
    if |names| > 0 {
      var data := read(names[0]);
      var step := SplitFile(c, refs, names[0], data, files);
      if step.outcome != Raised {
        SplitFilesKeeps(c, refs, names[1..], read, step.files);
        SplitFilesIdempotent(c, refs, names[1..], read, step.files);
      }
      SplitFileSettled(c, refs, names[0], data, files, r.files);
    }
  }

  /** Running subparse.py a second time over the same directories changes no file. */
  lemma SubparseIdempotent(c: SubConfig, refDir: seq<string>, objDir: seq<string>, read: string -> seq<Point>,
                           files: Names)
    ensures var r := SubparseRun(c, refDir, objDir, read, files);
      SubparseRun(c, refDir, objDir, read, r.files) == r
  {
    var parents := ParseParents(PointClouds(refDir));
    if parents.Some? {
      SplitFilesIdempotent(c, parents.value, PointClouds(objDir), read, files);
    }
  }
}
