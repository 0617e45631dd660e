/**
 * The capture side of gui.py, taken one stream at a time: the pico stream
 * (`serial_logger`) decoded serial lines, the lidar stream (`lidar_logger`)
 * decoded scan segments, and both latch the Pi time at which the first of
 * them started into `shared_start_time`, so that both files carry times
 * relative to one start.
 */
module Capture {
  import opened Text
  import opened Buffering
  import opened SerialLine

  // ---------------------------------------------------------------------
  // The shared start time
  // ---------------------------------------------------------------------

  /** `shared_start_time` after a stream latches Pi time `now`: it is assigned only while it is `None`. */
  function Latched(shared: Option<real>, now: real): Option<real>
  {
    if shared.None? then Some(now) else shared
  }

  /** Latches in order, one per stream start. */
  function LatchAll(shared: Option<real>, nows: seq<real>): Option<real>
    decreases |nows|
  {
    if |nows| == 0 then shared else LatchAll(Latched(shared, nows[0]), nows[1..])
  }

  /** Once set, the shared start time stays what it is, whatever later streams latch. */
  lemma {:induction false} LatchedStays(x: real, nows: seq<real>)
    ensures LatchAll(Some(x), nows) == Some(x)
    decreases |nows|
  {
    if |nows| > 0 {
      LatchedStays(x, nows[1..]);
    }
  }

  /** From `None`, whichever stream latches first wins. */
  lemma FirstLatchWins(nows: seq<real>)
    requires |nows| > 0
    ensures LatchAll(None, nows) == Some(nows[0])
  {
    LatchedStays(nows[0], nows[1..]);
  }

  /** `shared_start_time` and the lock around it. */
  class SharedClock {
    var start: Option<real>

    constructor ()
      ensures start == None
    {
      start := None;
    }

    /** `with shared_start_lock: if shared_start_time is None: shared_start_time = base_pi_time`. */
    method LatchAt(now: real)
      modifies this
      ensures start == Latched(old(start), now)
    {
      if start == None {
        start := Some(now);
      }
    }

    /** `shared_start_time = None` once both streams are stopped. */
    method Reset()
      modifies this
      ensures start == None
    {
      start := None;
    }
  }

  /**
   * Whatever start the last session left, a stop's reset followed by the
   * next session's two latches leaves the start at the first of them.
   */
  method ResetThenFirstWins(clock: SharedClock, first: real, second: real)
    modifies clock
    ensures clock.start == Some(first)
  {
    clock.Reset();
    clock.LatchAt(first);
    clock.LatchAt(second);
  }

  /** `(t - base) + (base_pi - shared)`: a device time made relative to the shared start. */
  function Corrected(t: real, base: real, basePi: real, shared: real): real
  {
    (t - base) + (basePi - shared)
  }

  /** A stream's first sample is stamped with how long after the shared start that stream began. */
  lemma CorrectedFirst(base: real, basePi: real, shared: real)
    ensures Corrected(base, base, basePi, shared) == basePi - shared
  {
  }

  /** Differences between corrected times are differences between device times, so order is kept. */
  lemma CorrectedDifference(t1: real, t2: real, base: real, basePi: real, shared: real)
    ensures Corrected(t2, base, basePi, shared) - Corrected(t1, base, basePi, shared) == t2 - t1
    ensures t1 < t2 <==> Corrected(t1, base, basePi, shared) < Corrected(t2, base, basePi, shared)
  {
  }

  // ---------------------------------------------------------------------
  // The pico stream
  // ---------------------------------------------------------------------

  /** `encoder_val`, which the GUI shows while logging. */
  class Encoder {
    var value: int

    constructor (value: int)
      ensures this.value == value
    {
      this.value := value;
    }
  }

  /** `base_pico_time` and `base_pi_time` once set. */
  datatype Anchor = Anchor(base: real, basePi: real)

  /** The row `[corrected_time, h, r, p, count]` before `str` renders it, with the angles as read. */
  datatype PicoRow = PicoRow(time: real, heading: Angle, roll: Angle, pitch: Angle, count: int)

  /** The row for record `s`, stamped relative to the anchor and the shared start. */
  function PicoRowOf(s: PicoSample, a: Anchor, shared: real): PicoRow
  {
    PicoRow(Corrected(PicoSeconds(s), a.base, a.basePi, shared), s.heading, s.roll, s.pitch, s.count)
  }

  /** The cells of a pico row: floats rendered by `show`, the count by `str`. */
  function PicoCells(row: PicoRow, show: real -> string): seq<string>
  {
    [show(row.time), show(AngleValue(row.heading)), show(AngleValue(row.roll)), show(AngleValue(row.pitch)),
     IntToString(row.count)]
  }

  /** The pico file's lines for `rows`. */
  function PicoText(rows: seq<PicoRow>, show: real -> string): (file: seq<string>)
    ensures |file| == |rows|
    ensures forall k :: 0 <= k < |rows| ==> file[k] == FormatLine(PicoCells(rows[k], show))
  {
    seq(|rows|, (k: int) requires 0 <= k < |rows| => FormatLine(PicoCells(rows[k], show)))
  }

  lemma PicoTextSnoc(rows: seq<PicoRow>, row: PicoRow, show: real -> string)
    ensures PicoText(rows + [row], show) == PicoText(rows, show) + [FormatLine(PicoCells(row, show))]
  {
    var l := PicoText(rows + [row], show);
    var r := PicoText(rows, show) + [FormatLine(PicoCells(row, show))];
    assert |l| == |r|;
    forall k | 0 <= k < |l|
      ensures l[k] == r[k]
    {
      if k < |rows| {
        assert (rows + [row])[k] == rows[k];
      } else {
        assert (rows + [row])[k] == row;
      }
    }
  }

  /** The rows, `shared_start_time` and `encoder_val` after the stream. */
  datatype PicoLog = PicoLog(rows: seq<PicoRow>, shared: Option<real>, encoder: int)

  /** `pattern.match(line.strip())` for each line read, in order. */
  function DecodeAll(lines: seq<string>): (decoded: seq<Option<PicoSample>>)
    ensures |decoded| == |lines|
    ensures forall k :: 0 <= k < |lines| ==> decoded[k] == Decode(lines[k])
  {
    seq(|lines|, (k: int) requires 0 <= k < |lines| => Decode(lines[k]))
  }

  /** The loop of `serial_logger` over the decoded lines still to come, after the rows `acc` and with the given anchor. */
  function PicoRun(acc: seq<PicoRow>, decoded: seq<Option<PicoSample>>, anchor: Option<Anchor>, shared: Option<real>,
                   encoder: int, piNow: real): PicoLog
    requires anchor.Some? ==> shared.Some?
    decreases |decoded|
  {
    if |decoded| == 0 then PicoLog(acc, shared, encoder)
    else match decoded[0]
      case None => PicoRun(acc, decoded[1..], anchor, shared, encoder, piNow)
      case Some(s) =>
        var a := if anchor.None? then Anchor(PicoSeconds(s), piNow) else anchor.value;
        var sh := if anchor.None? then Latched(shared, piNow) else shared;
        PicoRun(acc + [PicoRowOf(s, a, sh.value)], decoded[1..], Some(a), sh, s.count, piNow)
  }

  /** `serial_logger(pico_path)` over the serial lines it reads before the stop, with Pi time `piNow` at its first record. */
  method SerialLogger(lines: seq<string>, piNow: real, clock: SharedClock, encoder: Encoder, show: real -> string)
    returns (file: LineWriter)
    modifies clock, encoder
    ensures fresh(file) && file.maxSize == 1 && file.buffer == []
    ensures var r := PicoRun([], DecodeAll(lines), None, old(clock.start), old(encoder.value), piNow);
      file.written == PicoText(r.rows, show) && clock.start == r.shared && encoder.value == r.encoder
  {
    file := new LineWriter(1);
    var anchor: Option<Anchor> := None;
    ghost var decoded := DecodeAll(lines);
    ghost var rows: seq<PicoRow> := [];
    var i := 0;
    while i < |lines|
      invariant 0 <= i <= |lines|
      invariant fresh(file) && file.maxSize == 1 && file.buffer == []
      invariant anchor.Some? ==> clock.start.Some?
      invariant file.written == PicoText(rows, show)
      invariant PicoRun(rows, decoded[i..], anchor, clock.start, encoder.value, piNow)
             == PicoRun([], decoded, None, old(clock.start), old(encoder.value), piNow)
    {
      assert decoded[i..][0] == decoded[i] && decoded[i..][1..] == decoded[i + 1..];
      var m := ReadRecord(lines[i]);
      assert m == decoded[i];
      anchor, rows := HandleRecord(m, anchor, piNow, clock, encoder, file, show, rows, decoded[i..]);
      i := i + 1;
    }
    assert decoded[|decoded|..] == [];
  }

  /**
   * The `if m:` block of `serial_logger` for one matched (or unmatched)
   * line: the first record sets the anchor and latches the shared start,
   * every record updates `encoder_val` and is written at once.
   */
  method HandleRecord(m: Option<PicoSample>, anchor: Option<Anchor>, piNow: real, clock: SharedClock, encoder: Encoder,
                      file: LineWriter, show: real -> string, ghost rows: seq<PicoRow>, ghost d: seq<Option<PicoSample>>)
    returns (anchor2: Option<Anchor>, ghost rows2: seq<PicoRow>)
    requires |d| > 0 && d[0] == m
    requires anchor.Some? ==> clock.start.Some?
    requires file.maxSize == 1 && file.buffer == [] && file.written == PicoText(rows, show)
    modifies clock, encoder, file
    ensures anchor2.Some? ==> clock.start.Some?
    ensures file.buffer == [] && file.written == PicoText(rows2, show)
    ensures PicoRun(rows, d, anchor, old(clock.start), old(encoder.value), piNow)
         == PicoRun(rows2, d[1..], anchor2, clock.start, encoder.value, piNow)
  {
    anchor2, rows2 := anchor, rows;
    if m.None? {
      PicoRunSkip(rows, d, anchor, clock.start, encoder.value, piNow, d[1..]);
      return;
    }
    var s := m.value;
    var picoTime := PicoSeconds(s);
    if anchor.None? {
      anchor2 := Some(Anchor(picoTime, piNow));
      clock.LatchAt(piNow);
    }
    var corrected := Corrected(picoTime, anchor2.value.base, anchor2.value.basePi, clock.start.value);
    encoder.value := s.count;
    var row := PicoRow(corrected, s.heading, s.roll, s.pitch, s.count);
    assert row == PicoRowOf(s, anchor2.value, clock.start.value);
    ghost var latched := clock.start;
    WritePicoRow(file, row, show, rows);
    assert clock.start == latched && encoder.value == s.count;
    rows2 := rows + [row];
    if anchor.None? {
      PicoRunFirst(rows, d, old(clock.start), old(encoder.value), piNow, s, rows2, d[1..], anchor2, clock.start, encoder.value);
    } else {
      PicoRunNext(rows, d, anchor.value, old(clock.start), old(encoder.value), piNow, s, rows2, d[1..], encoder.value);
    }
  }

  /** A line that does not decode is passed over. */
  lemma PicoRunSkip(acc: seq<PicoRow>, d: seq<Option<PicoSample>>, anchor: Option<Anchor>, shared: Option<real>,
                    encoder: int, piNow: real, rest: seq<Option<PicoSample>>)
    requires anchor.Some? ==> shared.Some?
    requires |d| > 0 && d[0].None? && rest == d[1..]
    ensures PicoRun(acc, d, anchor, shared, encoder, piNow) == PicoRun(acc, rest, anchor, shared, encoder, piNow)
  {
  }

  /** The first record sets the anchor, latches the shared start and becomes the first row after it. */
  lemma PicoRunFirst(acc: seq<PicoRow>, d: seq<Option<PicoSample>>, shared: Option<real>, encoder: int, piNow: real,
                     s: PicoSample, acc2: seq<PicoRow>, rest: seq<Option<PicoSample>>, anchor2: Option<Anchor>,
                     shared2: Option<real>, encoder2: int)
    requires |d| > 0 && d[0] == Some(s) && rest == d[1..]
    requires anchor2 == Some(Anchor(PicoSeconds(s), piNow)) && shared2 == Latched(shared, piNow) && encoder2 == s.count
    requires acc2 == acc + [PicoRowOf(s, anchor2.value, shared2.value)]
    ensures PicoRun(acc, d, None, shared, encoder, piNow) == PicoRun(acc2, rest, anchor2, shared2, encoder2, piNow)
  {
  }

  /** A later record is stamped with the anchor already set. */
  lemma PicoRunNext(acc: seq<PicoRow>, d: seq<Option<PicoSample>>, a: Anchor, shared: Option<real>, encoder: int,
                    piNow: real, s: PicoSample, acc2: seq<PicoRow>, rest: seq<Option<PicoSample>>, encoder2: int)
    requires shared.Some?
    requires |d| > 0 && d[0] == Some(s) && rest == d[1..] && encoder2 == s.count
    requires acc2 == acc + [PicoRowOf(s, a, shared.value)]
    ensures PicoRun(acc, d, Some(a), shared, encoder, piNow) == PicoRun(acc2, rest, Some(a), shared, encoder2, piNow)
  {
  }

  /** `log_line_buffered(pico_buffer, pico_data, f_pico, max_size=1)`. */
  method WritePicoRow(file: LineWriter, row: PicoRow, show: real -> string, ghost rows: seq<PicoRow>)
    requires file.maxSize == 1 && file.buffer == [] && file.written == PicoText(rows, show)
    modifies file
    ensures file.buffer == [] && file.written == PicoText(rows + [row], show)
  {
    file.LogLine(PicoCells(row, show));
    PicoTextSnoc(rows, row, show);
  }

  /** One line's `pattern.match(line.strip())` and the conversion of its groups. */
  method ReadRecord(line: string) returns (m: Option<PicoSample>)
    ensures m == Decode(line)
  {
    m := Decode(line);
  }

  /** The records the stream accepts, in order: every line that does not decode is skipped. */
  function Samples(decoded: seq<Option<PicoSample>>): (ss: seq<PicoSample>)
    ensures |ss| <= |decoded|
    ensures forall s :: s in ss <==> Some(s) in decoded
    decreases |decoded|
  {
    if |decoded| == 0 then []
    else Head(decoded[0]) + Samples(decoded[1..])
  }

  function Head(d: Option<PicoSample>): seq<PicoSample>
  {
    match d
    case None => []
    case Some(s) => [s]
  }

  lemma {:induction false} SamplesAppend(a: seq<Option<PicoSample>>, b: seq<Option<PicoSample>>)
    ensures Samples(a + b) == Samples(a) + Samples(b)
    decreases |a|
  {
    if |a| > 0 {
      assert (a + b)[0] == a[0] && (a + b)[1..] == a[1..] + b;
      SamplesAppend(a[1..], b);
      var h := Head(a[0]);
      assert Samples(a) == h + Samples(a[1..]);
      assert Samples(a + b) == h + Samples(a[1..] + b);
    } else {
      assert a + b == b;
    }
  }

  /** A line that does not decode leaves the accepted records as if it had never been read. */
  lemma SkippedLine(a: seq<Option<PicoSample>>, b: seq<Option<PicoSample>>)
    ensures Samples(a + [None] + b) == Samples(a + b)
  {
    var skip: seq<Option<PicoSample>> := [None];
    SamplesAppend(a + skip, b);
    SamplesAppend(a, skip);
    SamplesAppend(a, b);
    NoSamples(skip);
    assert Samples(a + skip) == Samples(a);
  }

  lemma NoSamples(skip: seq<Option<PicoSample>>)
    requires skip == [None]
    ensures Samples(skip) == []
  {
    assert skip[1..] == [];
  }

  /** One row per record, stamped relative to the anchor. */
  function PicoRows(ss: seq<PicoSample>, a: Anchor, shared: real): (rows: seq<PicoRow>)
    ensures |rows| == |ss|
    ensures forall k :: 0 <= k < |ss| ==> rows[k] == PicoRowOf(ss[k], a, shared)
    decreases |ss|
  {
    if |ss| == 0 then [] else [PicoRowOf(ss[0], a, shared)] + PicoRows(ss[1..], a, shared)
  }

  lemma PicoRowsCons(s: PicoSample, ss: seq<PicoSample>, a: Anchor, shared: real)
    ensures PicoRows([s] + ss, a, shared) == [PicoRowOf(s, a, shared)] + PicoRows(ss, a, shared)
  {
    assert ([s] + ss)[0] == s && ([s] + ss)[1..] == ss;
  }

  lemma {:induction false} AnchoredRun(acc: seq<PicoRow>, decoded: seq<Option<PicoSample>>, a: Anchor, shared: real,
                                       encoder: int, piNow: real)
    ensures var r := PicoRun(acc, decoded, Some(a), Some(shared), encoder, piNow);
      r.rows == acc + PicoRows(Samples(decoded), a, shared) && r.shared == Some(shared)
    decreases |decoded|
  {
    if |decoded| > 0 {
      var rest := decoded[1..];
      match decoded[0]
      case None =>
        assert PicoRun(acc, decoded, Some(a), Some(shared), encoder, piNow)
            == PicoRun(acc, rest, Some(a), Some(shared), encoder, piNow);
        assert Samples(decoded) == Samples(rest);
        AnchoredRun(acc, rest, a, shared, encoder, piNow);
      case Some(s) =>
        var row := PicoRowOf(s, a, shared);
        assert PicoRun(acc, decoded, Some(a), Some(shared), encoder, piNow)
            == PicoRun(acc + [row], rest, Some(a), Some(shared), s.count, piNow);
        AnchoredRun(acc + [row], rest, a, shared, s.count, piNow);
        var ss := Samples(rest);
        assert Samples(decoded) == [s] + ss;
        PicoRowsCons(s, ss, a, shared);
        assert acc + [row] + PicoRows(ss, a, shared) == acc + ([row] + PicoRows(ss, a, shared));
    }
  }

  /**
   * The pico file holds one row per accepted record, in order, stamped
   * relative to the first record's pico time and to the shared start as
   * latched at that record; with no record, nothing is written or latched.
   */
  lemma {:induction false} PicoFileIsRecords(decoded: seq<Option<PicoSample>>, shared0: Option<real>, encoder: int,
                                             piNow: real)
    ensures var r := PicoRun([], decoded, None, shared0, encoder, piNow);
      var ss := Samples(decoded);
      && (ss == [] ==> r.rows == [] && r.shared == shared0)
      && (ss != [] ==> var sh := Latched(shared0, piNow);
            r.shared == sh && r.rows == PicoRows(ss, Anchor(PicoSeconds(ss[0]), piNow), sh.value))
    decreases |decoded|
  {
    if |decoded| > 0 {
      var rest := decoded[1..];
      match decoded[0]
      case None =>
        assert PicoRun([], decoded, None, shared0, encoder, piNow) == PicoRun([], rest, None, shared0, encoder, piNow);
        assert Samples(decoded) == Samples(rest);
        PicoFileIsRecords(rest, shared0, encoder, piNow);
      case Some(s) =>
        var a := Anchor(PicoSeconds(s), piNow);
        var sh := Latched(shared0, piNow);
        var row := PicoRowOf(s, a, sh.value);
        var none: seq<PicoRow> := [];
        assert none + [row] == [row];
        assert PicoRun(none, decoded, None, shared0, encoder, piNow)
            == PicoRun([row], rest, Some(a), sh, s.count, piNow);
        AnchoredRun([row], rest, a, sh.value, s.count, piNow);
        var ss := Samples(rest);
        assert Samples(decoded) == [s] + ss;
        PicoRowsCons(s, ss, a, sh.value);
        assert ([s] + ss)[0] == s;
    }
  }

  /**
   * The first row is stamped with how long after the shared start the pico
   * stream began, and any two rows lie as far apart as their pico times.
   */
  lemma PicoRowTimes(ss: seq<PicoSample>, basePi: real, shared: real, j: nat, k: nat)
    requires j < |ss| && k < |ss|
    ensures var rows := PicoRows(ss, Anchor(PicoSeconds(ss[0]), basePi), shared);
      && rows[0].time == basePi - shared
      && rows[k].time - rows[j].time == PicoSeconds(ss[k]) - PicoSeconds(ss[j])
  {
    var a := Anchor(PicoSeconds(ss[0]), basePi);
    CorrectedFirst(a.base, basePi, shared);
    CorrectedDifference(PicoSeconds(ss[j]), PicoSeconds(ss[k]), a.base, basePi, shared);
  }

  /** `encoder_val` ends at the count of the last accepted record, or where it was if there was none. */
  lemma {:induction false} PicoEncoder(acc: seq<PicoRow>, decoded: seq<Option<PicoSample>>, anchor: Option<Anchor>,
                                       shared: Option<real>, encoder: int, piNow: real)
    requires anchor.Some? ==> shared.Some?
    ensures var r := PicoRun(acc, decoded, anchor, shared, encoder, piNow);
      var ss := Samples(decoded);
      r.encoder == (if ss == [] then encoder else ss[|ss| - 1].count)
    decreases |decoded|
  {
    if |decoded| > 0 {
      var rest := decoded[1..];
      match decoded[0]
      case None =>
        PicoEncoder(acc, rest, anchor, shared, encoder, piNow);
      case Some(s) =>
        var a := if anchor.None? then Anchor(PicoSeconds(s), piNow) else anchor.value;
        var sh := if anchor.None? then Latched(shared, piNow) else shared;
        PicoEncoder(acc + [PicoRowOf(s, a, sh.value)], rest, Some(a), sh, s.count, piNow);
        assert Samples(decoded) == [s] + Samples(rest);
    }
  }

  // ---------------------------------------------------------------------
  // The lidar stream
  // ---------------------------------------------------------------------

  /** One entry of a segment's `SegmentData`: a phi band with its echoes, timestamps in microseconds. */
  datatype ScanData = ScanData(phi: real, theta: seq<real>, distance: seq<seq<real>>, rssi: seq<seq<real>>,
                               start: int, stop: int)

  /** What `extract_lidar_data` returns: phi, the thetas, the first echo's distances and intensities, and the mean time. */
  datatype Beam = Beam(phi: real, theta: seq<real>, dist: seq<real>, rssi: seq<real>, time: real)

  /** `extract_lidar_data(sd)`; `None` where `Distance[0]` or `Rssi[0]` raises. */
  function Extract(sd: ScanData): (r: Option<Beam>)
    ensures r.Some? <==> |sd.distance| > 0 && |sd.rssi| > 0
    ensures r.Some? ==> r.value.theta == sd.theta && r.value.dist == sd.distance[0] && r.value.rssi == sd.rssi[0]
    ensures r.Some? ==> r.value.phi == sd.phi && r.value.time == (sd.start + sd.stop) as real / 2.0 / 1000000.0
  {
    if |sd.distance| == 0 || |sd.rssi| == 0 then None
    else Some(Beam(sd.phi, sd.theta, sd.distance[0], sd.rssi[0], (sd.start + sd.stop) as real / 2.0 / 1000000.0))
  }

  /** The band's time, in seconds, lies between its start and stop stamps. */
  lemma ExtractTimeBetween(sd: ScanData)
    requires |sd.distance| > 0 && |sd.rssi| > 0 && sd.start <= sd.stop
    ensures var t := Extract(sd).value.time;
      sd.start as real / 1000000.0 <= t <= sd.stop as real / 1000000.0
  {
    var s := sd.start as real;
    var e := sd.stop as real;
    assert (s + e) / 2.0 / 1000000.0 == (s + e) / 2000000.0;
    assert s / 1000000.0 == (s + s) / 2000000.0;
    assert e / 1000000.0 == (e + e) / 2000000.0;
  }

  /** The row `[corrected_time, phi, theta[i], dist[i], rssi[i]]` before `str` renders it. */
  datatype LidarRow = LidarRow(time: real, phi: real, theta: real, dist: real, rssi: real)

  function LidarCells(row: LidarRow, show: real -> string): seq<string>
  {
    [show(row.time), show(row.phi), show(row.theta), show(row.dist), show(row.rssi)]
  }

  /** The lidar file's lines for `rows`. */
  function LidarText(rows: seq<LidarRow>, show: real -> string): (file: seq<string>)
    ensures |file| == |rows|
    ensures forall k :: 0 <= k < |rows| ==> file[k] == FormatLine(LidarCells(rows[k], show))
  {
    seq(|rows|, (k: int) requires 0 <= k < |rows| => FormatLine(LidarCells(rows[k], show)))
  }

  lemma LidarTextSnoc(rows: seq<LidarRow>, row: LidarRow, show: real -> string)
    ensures LidarText(rows + [row], show) == LidarText(rows, show) + [FormatLine(LidarCells(row, show))]
  {
    var l := LidarText(rows + [row], show);
    var r := LidarText(rows, show) + [FormatLine(LidarCells(row, show))];
    assert |l| == |r|;
    forall k | 0 <= k < |l|
      ensures l[k] == r[k]
    {
      if k < |rows| {
        assert (rows + [row])[k] == rows[k];
      } else {
        assert (rows + [row])[k] == row;
      }
    }
  }

  /** The rows one band logs, and whether it raised: the loop over `range(len(theta))` stops at the first missing index. */
  datatype Emitted = Emitted(rows: seq<LidarRow>, crashed: bool)

  function Min(a: nat, b: nat): nat
  {
    if a <= b then a else b
  }

  /** The rows of band `b`, all stamped with its corrected time `t`. */
  function BandRows(b: Beam, t: real): (e: Emitted)
    ensures e.crashed <==> |b.dist| < |b.theta| || |b.rssi| < |b.theta|
    ensures !e.crashed ==> |e.rows| == |b.theta|
    ensures |e.rows| <= |b.theta| && |e.rows| <= |b.dist| && |e.rows| <= |b.rssi|
    ensures forall k :: 0 <= k < |e.rows| ==> e.rows[k] == LidarRow(t, b.phi, b.theta[k], b.dist[k], b.rssi[k])
  {
    var m := Min(|b.theta|, Min(|b.dist|, |b.rssi|));
    Emitted(seq(m, (k: int) requires 0 <= k < m => LidarRow(t, b.phi, b.theta[k], b.dist[k], b.rssi[k])), m < |b.theta|)
  }

  /** A band that the stream cannot log in full. */
  predicate Bad(sd: ScanData)
  {
    |sd.distance| == 0 || |sd.rssi| == 0 || |sd.distance[0]| < |sd.theta| || |sd.rssi[0]| < |sd.theta|
  }

  /** The lidar rows, `shared_start_time`, and whether the stream raised. */
  datatype LidarLog = LidarLog(rows: seq<LidarRow>, shared: Option<real>, crashed: bool)

  /** The loop of `lidar_logger` over the bands still to come, after the rows `acc`. */
  function LidarRun(acc: seq<LidarRow>, scans: seq<ScanData>, anchor: Option<Anchor>, shared: Option<real>,
                    piNow: real): LidarLog
    requires anchor.Some? ==> shared.Some?
    decreases |scans|
  {
    if |scans| == 0 then LidarLog(acc, shared, false)
    else match Extract(scans[0])
      case None => LidarLog(acc, shared, true)
      case Some(b) =>
        var a := if anchor.None? then Anchor(b.time, piNow) else anchor.value;
        var sh := if anchor.None? then Latched(shared, piNow) else shared;
        var e := BandRows(b, Corrected(b.time, a.base, a.basePi, sh.value));
        if e.crashed then LidarLog(acc + e.rows, sh, true)
        else LidarRun(acc + e.rows, scans[1..], Some(a), sh, piNow)
  }

  /**
   * One band of `lidar_logger`: latch the shared start on the first, then
   * log its rows; `stop` where the band raises.
   */
  method HandleBand(sd: ScanData, anchor: Option<Anchor>, piNow: real, clock: SharedClock, file: LineWriter,
                    show: real -> string, ghost rows: seq<LidarRow>, ghost d: seq<ScanData>)
    returns (anchor2: Option<Anchor>, stop: bool, ghost rows2: seq<LidarRow>)
    requires |d| > 0 && d[0] == sd
    requires anchor.Some? ==> clock.start.Some?
    requires Flushed(file.State()) == LidarText(rows, show)
    modifies clock, file
    ensures anchor2.Some? ==> clock.start.Some?
    ensures Flushed(file.State()) == LidarText(rows2, show)
    ensures stop ==> LidarRun(rows, d, anchor, old(clock.start), piNow) == LidarLog(rows2, clock.start, true)
    ensures !stop ==> LidarRun(rows, d, anchor, old(clock.start), piNow) == LidarRun(rows2, d[1..], anchor2, clock.start, piNow)
  {
    var beam := Extract(sd);
    if beam.None? {
      return anchor, true, rows;
    }
    var b := beam.value;
    anchor2 := anchor;
    if anchor2.None? {
      anchor2 := Some(Anchor(b.time, piNow));
      clock.LatchAt(piNow);
    }
    var corrected := Corrected(b.time, anchor2.value.base, anchor2.value.basePi, clock.start.value);
    LidarRunStep(rows, d, anchor, old(clock.start), piNow, b, anchor2.value, clock.start, corrected);
    var ok := LogBand(file, b, corrected, show, rows);
    rows2 := rows + BandRows(b, corrected).rows;
    stop := !ok;
  }

  /** One band that extracts: latch on the first, then log its rows. */
  lemma LidarRunStep(acc: seq<LidarRow>, scans: seq<ScanData>, anchor: Option<Anchor>, shared: Option<real>,
                     piNow: real, b: Beam, a: Anchor, sh: Option<real>, t: real)
    requires anchor.Some? ==> shared.Some?
    requires |scans| > 0 && Extract(scans[0]) == Some(b)
    requires a == (if anchor.None? then Anchor(b.time, piNow) else anchor.value)
    requires sh == (if anchor.None? then Latched(shared, piNow) else shared) && sh.Some?
    requires t == Corrected(b.time, a.base, a.basePi, sh.value)
    ensures LidarRun(acc, scans, anchor, shared, piNow)
         == if BandRows(b, t).crashed then LidarLog(acc + BandRows(b, t).rows, sh, true)
            else LidarRun(acc + BandRows(b, t).rows, scans[1..], Some(a), sh, piNow)
  {
  }

  /** The bands of the segments received, in order. */
  function Flatten(segments: seq<seq<ScanData>>): (scans: seq<ScanData>)
    decreases |segments|
  {
    if |segments| == 0 then [] else segments[0] + Flatten(segments[1..])
  }

  /** The rows of one band, through the batched writer. */
  method LogBand(file: LineWriter, b: Beam, t: real, show: real -> string, ghost acc: seq<LidarRow>) returns (ok: bool)
    requires Flushed(file.State()) == LidarText(acc, show)
    modifies file
    ensures Flushed(file.State()) == LidarText(acc + BandRows(b, t).rows, show)
    ensures ok == !BandRows(b, t).crashed
  {
    ghost var rows := BandRows(b, t).rows;
    var i := 0;
    while i < |b.theta|
      invariant 0 <= i <= |rows|
      invariant Flushed(file.State()) == LidarText(acc + rows[..i], show)
    {
      if i >= |b.dist| || i >= |b.rssi| {
        return false;
      }
      ghost var before := Flushed(file.State());
      assert LidarCells(rows[i], show) == [show(t), show(b.phi), show(b.theta[i]), show(b.dist[i]), show(b.rssi[i])];
      file.LogLine([show(t), show(b.phi), show(b.theta[i]), show(b.dist[i]), show(b.rssi[i])]);
      assert Flushed(file.State()) == before + [FormatLine(LidarCells(rows[i], show))];
      LidarTextSnoc(acc + rows[..i], rows[i], show);
      assert acc + rows[..i + 1] == acc + rows[..i] + [rows[i]];
      i := i + 1;
    }
    assert rows[..i] == rows;
    return true;
  }

  /**
   * `lidar_logger(file_path)` over the segments it receives before the
   * stop, with Pi time `piNow` at its first band, and with the held rows
   * flushed when the stream ends.
   */
  method LidarLogger(segments: seq<seq<ScanData>>, piNow: real, clock: SharedClock, show: real -> string)
    returns (file: LineWriter, crashed: bool)
    modifies clock
    ensures fresh(file) && file.maxSize == LidarBatch && file.buffer == []
    ensures var r := LidarRun([], Flatten(segments), None, old(clock.start), piNow);
      file.written == LidarText(r.rows, show) && clock.start == r.shared && crashed == r.crashed
  {
    file := new LineWriter(LidarBatch);
    var anchor: Option<Anchor> := None;
    ghost var target := LidarRun([], Flatten(segments), None, clock.start, piNow);
    ghost var rows: seq<LidarRow> := [];
    var j := 0;
    while j < |segments|
      invariant 0 <= j <= |segments|
      invariant fresh(file) && file.maxSize == LidarBatch
      invariant anchor.Some? ==> clock.start.Some?
      invariant Flushed(file.State()) == LidarText(rows, show)
      invariant LidarRun(rows, Flatten(segments[j..]), anchor, clock.start, piNow) == target
    {
      var band := segments[j];
      assert segments[j..][0] == band && segments[j..][1..] == segments[j + 1..];
      ghost var later := Flatten(segments[j + 1..]);
      var k := 0;
      while k < |band|
        invariant 0 <= k <= |band|
        invariant fresh(file) && file.maxSize == LidarBatch
        invariant anchor.Some? ==> clock.start.Some?
        invariant Flushed(file.State()) == LidarText(rows, show)
        invariant LidarRun(rows, band[k..] + later, anchor, clock.start, piNow) == target
      {
        var sd := band[k];
        assert (band[k..] + later)[0] == sd && (band[k..] + later)[1..] == band[k + 1..] + later;
        var stop;
        anchor, stop, rows := HandleBand(sd, anchor, piNow, clock, file, show, rows, band[k..] + later);
        if stop {
          file.Close();
          return file, true;
        }
        k := k + 1;
      }
      assert band[|band|..] + later == later;
      j := j + 1;
    }
    assert segments[|segments|..] == [];
    file.Close();
    crashed := false;
  }

  /** The rows a band contributes when it is logged in full. */
  function RowCount(scans: seq<ScanData>): nat
    decreases |scans|
  {
    if |scans| == 0 then 0 else |scans[0].theta| + RowCount(scans[1..])
  }

  /**
   * The stream raises exactly when some band cannot be logged in full;
   * otherwise every theta of every band becomes one row. Rows already
   * logged are never taken back.
   */
  lemma {:induction false} LidarRunRows(acc: seq<LidarRow>, scans: seq<ScanData>, anchor: Option<Anchor>,
                                        shared: Option<real>, piNow: real)
    requires anchor.Some? ==> shared.Some?
    ensures var r := LidarRun(acc, scans, anchor, shared, piNow);
      && acc <= r.rows
      && (r.crashed <==> exists k :: 0 <= k < |scans| && Bad(scans[k]))
      && (!r.crashed ==> |r.rows| == |acc| + RowCount(scans))
    decreases |scans|
  {
    if |scans| > 0 {
      var rest := scans[1..];
      assert forall k :: 1 <= k < |scans| ==> scans[k] == rest[k - 1];
      assert forall k :: 0 <= k < |rest| ==> rest[k] == scans[k + 1];
      match Extract(scans[0])
      case None =>
        assert Bad(scans[0]);
      case Some(b) =>
        var a := if anchor.None? then Anchor(b.time, piNow) else anchor.value;
        var sh := if anchor.None? then Latched(shared, piNow) else shared;
        var e := BandRows(b, Corrected(b.time, a.base, a.basePi, sh.value));
        assert e.crashed <==> Bad(scans[0]);
        if !e.crashed {
          LidarRunRows(acc + e.rows, rest, Some(a), sh, piNow);
        }
    }
  }

  /**
   * The rows of the first band are stamped with how long after the shared
   * start the lidar stream began, and carry that band's phi and thetas.
   */
  lemma LidarFirstStamp(scans: seq<ScanData>, shared0: Option<real>, piNow: real, b: Beam)
    requires |scans| > 0 && Extract(scans[0]) == Some(b)
    ensures var r := LidarRun([], scans, None, shared0, piNow);
      forall k :: 0 <= k < |r.rows| && k < |b.theta| ==>
        r.rows[k].time == piNow - Latched(shared0, piNow).value && r.rows[k].phi == b.phi && r.rows[k].theta == b.theta[k]
  {
    var a := Anchor(b.time, piNow);
    var sh := Latched(shared0, piNow);
    var t := Corrected(b.time, a.base, a.basePi, sh.value);
    var e := BandRows(b, t);
    var none: seq<LidarRow> := [];
    CorrectedFirst(b.time, piNow, sh.value);
    LidarRunStep(none, scans, None, shared0, piNow, b, a, sh, t);
    assert none + e.rows == e.rows;
    if !e.crashed {
      LidarRunRows(e.rows, scans[1..], Some(a), sh, piNow);
    }
  }

  /** The lidar stream latches the shared start exactly when its first band can be read. */
  lemma LidarLatch(scans: seq<ScanData>, shared0: Option<real>, piNow: real)
    ensures var r := LidarRun([], scans, None, shared0, piNow);
      r.shared == (if |scans| > 0 && Extract(scans[0]).Some? then Latched(shared0, piNow) else shared0)
  {
    if |scans| > 0 && Extract(scans[0]).Some? {
      var b := Extract(scans[0]).value;
      var a := Anchor(b.time, piNow);
      var sh := Latched(shared0, piNow);
      var e := BandRows(b, Corrected(b.time, a.base, a.basePi, sh.value));
      var none: seq<LidarRow> := [];
      if e.crashed {
        assert LidarRun(none, scans, None, shared0, piNow) == LidarLog(none + e.rows, sh, true);
      } else {
        assert LidarRun(none, scans, None, shared0, piNow) == LidarRun(none + e.rows, scans[1..], Some(a), sh, piNow);
        LidarKeepsShared(none + e.rows, scans[1..], a, sh.value, piNow);
      }
    }
  }

  lemma {:induction false} LidarKeepsShared(acc: seq<LidarRow>, scans: seq<ScanData>, a: Anchor, shared: real,
                                            piNow: real)
    ensures LidarRun(acc, scans, Some(a), Some(shared), piNow).shared == Some(shared)
    decreases |scans|
  {
    if |scans| > 0 && Extract(scans[0]).Some? {
      var b := Extract(scans[0]).value;
      var e := BandRows(b, Corrected(b.time, a.base, a.basePi, shared));
      if !e.crashed {
        LidarKeepsShared(acc + e.rows, scans[1..], a, shared, piNow);
      }
    }
  }
}
