/**
 * The main loop of parser.py and high_mem_parser.py: every discovered scan,
 * in order, is processed unless `completed_scans.txt` already lists it, and
 * is appended to that ledger once `process_scan` returns. An exception in
 * `process_scan` ends the run.
 */
module Ledger {
  import opened Text
  import opened Clouds
  import opened Reconstruct
  import opened ScanProcessor

  /** `{line.strip() for line in f}`: the names the ledger marks completed. */
  function CompletedSet(lines: seq<string>): set<string>
  {
    set l | l in lines :: Strip(l)
  }

  /** `completed_scans.txt`, one line per completed scan. */
  class LedgerFile {
    var lines: seq<string>

    constructor (lines: seq<string>)
      ensures this.lines == lines
    {
      this.lines := lines;
    }

    /** Reading the file back as a set of stripped lines. */
    function Completed(): set<string>
      reads this
    {
      CompletedSet(lines)
    }

    /** `f.write(scan + '\n')` in append mode. */
    method Append(scan: string)
      modifies this
      ensures lines == old(lines) + [scan]
      ensures Completed() == old(Completed()) + {Strip(scan)}
    {
      lines := lines + [scan];
    }
  }

  /** What `load_files(scan)` returns: the rows of the lidar and pico files (empty where a file is missing). */
  datatype ScanInput = ScanInput(lidar: seq<LidarRow>, pico: seq<PicoRow>)

  /** The ledger and the output files after a run, and whether it ended in an exception. */
  datatype RunState = RunState(ledger: seq<string>, files: Files, crashed: bool)

  /** `process_scan` on one scan, from the output files before it: load the two files, then process them. */
  function ProcessOf(v: Variant, c: Config, rotate: (LidarRow, PicoRow) -> Vec3, load: string -> ScanInput): (string, Files) -> Step
  {
    (scan: string, files: Files) =>
      var input := load(scan);
      ScanStep(v, c, rotate, scan, input.lidar, input.pico, files)
  }

  /** The main loop over the scans in the order given (parser.py sorts them first), from the ledger and files before it, for a given `process_scan`. */
  function Run(process: (string, Files) -> Step, scans: seq<string>, ledger: seq<string>, files: Files): RunState
    decreases |scans|
  {
    if |scans| == 0 then RunState(ledger, files, false)
    else if scans[0] in CompletedSet(ledger) then Run(process, scans[1..], ledger, files)
    else
      var st := process(scans[0], files);
      if st.outcome == Crashed then RunState(ledger, st.files, true)
      else Run(process, scans[1..], ledger + [scans[0]], st.files)
  }

  /** The main loop: re-read the ledger, skip a listed scan, otherwise process it and append it. */
  method RunAll(v: Variant, c: Config, rotate: (LidarRow, PicoRow) -> Vec3, load: string -> ScanInput,
                scans: seq<string>, ledger: LedgerFile, out: OutputDir<seq<int>>)
    returns (crashed: bool)
    modifies ledger, out
    ensures RunState(ledger.lines, out.files, crashed) == Run(ProcessOf(v, c, rotate, load), scans, old(ledger.lines), old(out.files))
  {
    var i := 0;
    while i < |scans|
      invariant 0 <= i <= |scans|
      invariant Run(ProcessOf(v, c, rotate, load), scans[i..], ledger.lines, out.files)
             == Run(ProcessOf(v, c, rotate, load), scans, old(ledger.lines), old(out.files))
    {
      var scan := scans[i];
      assert scans[i..][0] == scan && scans[i..][1..] == scans[i + 1..];
      var completed := ledger.Completed();
      if scan !in completed {
        var input := load(scan);
        ghost var before := out.files;
        var outcome := ProcessScan(v, c, rotate, scan, input.lidar, input.pico, out);
        assert ProcessOf(v, c, rotate, load)(scan, before) == Step(outcome, out.files);
        if outcome == Crashed {
          return true;
        }
        ledger.Append(scan);
      }
      i := i + 1;
    }
    assert scans[|scans|..] == [];
    crashed := false;
  }

  lemma CompletedSetGrows(a: seq<string>, b: seq<string>)
    ensures CompletedSet(a) <= CompletedSet(a + b)
  {
    forall s | s in CompletedSet(a)
      ensures s in CompletedSet(a + b)
    {
      var l :| l in a && Strip(l) == s;
      assert l in a + b;
    }
  }

  /** When the ledger lists every scan, the run processes nothing and changes nothing. */
  lemma {:induction false} RunSkipsCompleted(process: (string, Files) -> Step, scans: seq<string>, ledger: seq<string>, files: Files)
    requires forall k :: 0 <= k < |scans| ==> scans[k] in CompletedSet(ledger)
    ensures Run(process, scans, ledger, files) == RunState(ledger, files, false)
    decreases |scans|
  {
    if |scans| > 0 {
      assert scans[0] in CompletedSet(ledger);
      RunSkipsCompleted(process, scans[1..], ledger, files);
    }
  }

  /** The ledger only grows, and only by scans of the run, so whatever it listed stays listed. */
  lemma {:induction false} RunAppends(process: (string, Files) -> Step, scans: seq<string>, ledger: seq<string>, files: Files)
    ensures var r := Run(process, scans, ledger, files);
      && ledger <= r.ledger
      && (forall k :: |ledger| <= k < |r.ledger| ==> r.ledger[k] in scans)
      && CompletedSet(ledger) <= CompletedSet(r.ledger)
    decreases |scans|
  {
    var r := Run(process, scans, ledger, files);
    if |scans| > 0 {
      var rest := scans[1..];
      assert forall s :: s in rest ==> s in scans;
      if scans[0] in CompletedSet(ledger) {
        RunAppends(process, rest, ledger, files);
      } else {
        var st := process(scans[0], files);
        if st.outcome != Crashed {
          var grown := ledger + [scans[0]];
          RunAppends(process, rest, grown, st.files);
          CompletedSetGrows(ledger, [scans[0]]);
          assert ledger <= grown;
          assert r.ledger[|ledger|] == scans[0] by {
            assert r.ledger[..|grown|] == grown;
          }
        }
      }
    }
  }

  /** After a run that does not raise, the ledger lists every scan, under its own name or stripped. */
  lemma RunRecords(process: (string, Files) -> Step, scans: seq<string>, ledger: seq<string>, files: Files)
    requires !Run(process, scans, ledger, files).crashed
    ensures forall k :: 0 <= k < |scans| ==> Listed(scans[k], Run(process, scans, ledger, files).ledger)
  {
    forall k | 0 <= k < |scans|
      ensures Listed(scans[k], Run(process, scans, ledger, files).ledger)
    {
      RunRecordsOne(process, scans, ledger, files, k);
    }
  }

  /** The ledger marks `scan` completed under its own name or stripped. */
  predicate Listed(scan: string, ledger: seq<string>)
  {
    scan in CompletedSet(ledger) || Strip(scan) in CompletedSet(ledger)
  }

  lemma {:induction false} RunRecordsOne(process: (string, Files) -> Step, scans: seq<string>,
                                         ledger: seq<string>, files: Files, k: nat)
    requires k < |scans| && !Run(process, scans, ledger, files).crashed
    ensures Listed(scans[k], Run(process, scans, ledger, files).ledger)
    decreases |scans|
  {
    var rest := scans[1..];
    if scans[0] in CompletedSet(ledger) {
      assert Run(process, scans, ledger, files) == Run(process, rest, ledger, files);
      if k == 0 {
        RunAppends(process, rest, ledger, files);
      } else {
        assert rest[k - 1] == scans[k];
        RunRecordsOne(process, rest, ledger, files, k - 1);
      }
    } else {
      var st := process(scans[0], files);
      var grown := ledger + [scans[0]];
      assert Run(process, scans, ledger, files) == Run(process, rest, grown, st.files);
      if k == 0 {
        RunAppends(process, rest, grown, st.files);
        assert Strip(scans[0]) in CompletedSet(grown) by {
          assert scans[0] in grown;
        }
      } else {
        assert rest[k - 1] == scans[k];
        RunRecordsOne(process, rest, grown, st.files, k - 1);
      }
    }
  }

  /**
   * Running again over the ledger and files a run left behind processes no
   * scan and changes nothing, provided the run did not raise and no scan
   * name has surrounding whitespace.
   */
  lemma RerunDoesNothing(process: (string, Files) -> Step, scans: seq<string>, ledger: seq<string>, files: Files)
    requires forall k :: 0 <= k < |scans| ==> Strip(scans[k]) == scans[k]
    requires !Run(process, scans, ledger, files).crashed
    ensures var r := Run(process, scans, ledger, files);
      Run(process, scans, r.ledger, r.files) == RunState(r.ledger, r.files, false)
  {
    var r := Run(process, scans, ledger, files);
    RunRecords(process, scans, ledger, files);
    RunSkipsCompleted(process, scans, r.ledger, r.files);
  }

  /** A scan name ending in whitespace is never found in the ledger, so every run processes it again. */
  lemma PaddedNameNeverCompleted(s: string, lines: seq<string>)
    requires |s| > 0 && IsSpace(s[|s| - 1])
    ensures s !in CompletedSet(lines)
  {
    forall l | l in lines
      ensures Strip(l) != s
    {
      StripNotPadded(l, s);
    }
  }

  lemma StripNotPadded(l: string, s: string)
    requires |s| > 0 && IsSpace(s[|s| - 1])
    ensures Strip(l) != s
  {
    var t := Strip(l);
    assert |t| > 0 ==> !IsSpace(t[|t| - 1]);
  }
}
