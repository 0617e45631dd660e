/**
 * Scan names: which scans a directory holds, whether a scan is canonical
 * (`row_direction_start_end`, row an integer) or additional (any other
 * name), and the fields of a canonical name.
 */
module ScanNames {
  import opened Text

  const LidarSuffix: string := "_lidar.csv"

  /** `f.rsplit("_", 1)[0]`: the text before the last '_' (all of `f` if none). */
  function RSplitHead(f: string): string
  {
    var i := LastIndexOf(f, '_');
    if i < 0 then f else f[..i]
  }

  /** The scans of a directory listing: the file names ending in `_lidar.csv`, cut at their last '_'. */
  function DiscoverScans(files: seq<string>): set<string>
  {
    set f | f in files && EndsWith(f, LidarSuffix) :: RSplitHead(f)
  }

  /** A scan is found exactly when its `_lidar.csv` file is listed. */
  lemma DiscoverScansExactly(files: seq<string>, s: string)
    ensures s in DiscoverScans(files) <==> s + LidarSuffix in files
  {
    if s + LidarSuffix in files {
      DiscoverListed(files, s);
    }
    if s in DiscoverScans(files) {
      DiscoveredListed(files, s);
    }
  }

  lemma DiscoverListed(files: seq<string>, s: string)
    requires s + LidarSuffix in files
    ensures s in DiscoverScans(files)
  {
    var f := s + LidarSuffix;
    assert EndsWith(f, LidarSuffix) by {
      assert f[|s|..] == LidarSuffix;
    }
    HeadOfLidarFile(f);
    assert f[..|s|] == s;
  }

  lemma DiscoveredListed(files: seq<string>, s: string)
    requires s in DiscoverScans(files)
    ensures s + LidarSuffix in files
  {
    var f :| f in files && EndsWith(f, LidarSuffix) && RSplitHead(f) == s;
    HeadOfLidarFile(f);
    assert f == f[..|f| - |LidarSuffix|] + LidarSuffix;
  }

  lemma HeadOfLidarFile(f: string)
    requires EndsWith(f, LidarSuffix)
    ensures RSplitHead(f) == f[..|f| - |LidarSuffix|]
  {
    var n := |f| - |LidarSuffix|;
    assert f[n] == '_';
    assert forall k :: n < k < |f| ==> f[k] == LidarSuffix[k - n];
    assert LastIndexOf(f, '_') == n;
  }

  /** `is_additional(scan)`. */
  function IsAdditional(scan: string): bool
  {
    ParseInt(Split(scan, '_')[0]).None?
  }

  /** A name built from '_'-free tokens is additional exactly when its first token is not an integer. */
  lemma IsAdditionalOfTokens(ts: seq<string>)
    requires |ts| >= 1 && forall k :: 0 <= k < |ts| ==> '_' !in ts[k]
    ensures IsAdditional(Join(ts, '_')) <==> ParseInt(ts[0]).None?
  {
    SplitJoin(ts, '_');
  }

  /** The four fields of `row, direction, a, b = scan.split('_')`. */
  datatype Canonical = Canonical(row: string, direction: string, start: string, end: string)

  /** `scan.split('_')` unpacked into four names; None where the unpacking raises ValueError. */
  function ParseCanonical(scan: string): Option<Canonical>
  {
    var ts := Split(scan, '_');
    if |ts| == 4 then Some(Canonical(ts[0], ts[1], ts[2], ts[3])) else None
  }

  function CanonicalName(c: Canonical): string
  {
    Join([c.row, c.direction, c.start, c.end], '_')
  }

  /** Parsing recovers the fields a name was built from, and only such names parse. */
  lemma ParseCanonicalRoundTrip(scan: string, c: Canonical)
    requires '_' !in c.row && '_' !in c.direction && '_' !in c.start && '_' !in c.end
    ensures ParseCanonical(CanonicalName(c)) == Some(c)
    ensures ParseCanonical(scan) == Some(c) ==> CanonicalName(c) == scan
  {
    SplitJoin([c.row, c.direction, c.start, c.end], '_');
    if ParseCanonical(scan) == Some(c) {
      JoinSplit(scan, '_');
      assert Split(scan, '_') == [c.row, c.direction, c.start, c.end];
    }
  }

  /** `str(int(row) + 1)`, the companion row of a canonical scan. */
  function CompanionRow(row: string): (r: string)
    requires ParseInt(row).Some?
    ensures r != row
  {
    SuccessorStringDiffers(row, ParseInt(row).value);
    IntToString(ParseInt(row).value + 1)
  }
}
