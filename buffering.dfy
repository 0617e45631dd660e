/**
 * gui.py's `log_line_buffered`: each row becomes one comma-joined line,
 * held in memory until `max_size` lines have accumulated, then written to
 * the file and cleared.
 */
module Buffering {
  import opened Text

  /** `",".join(map(str, row)) + "\n"`, from the cells `str` rendered. */
  function FormatLine(cells: seq<string>): string
  {
    Join(cells, ',') + "\n"
  }

  /** One buffered output: the lines the file holds and the lines held back. */
  datatype Writer = Writer(written: seq<string>, buffer: seq<string>)

  /** One call of `log_line_buffered(buffer, row, file, max_size)` that appends `line`. */
  function LogStep(maxSize: int, w: Writer, line: string): (r: Writer)
    ensures r.written + r.buffer == w.written + w.buffer + [line]
    ensures r.buffer == [] <==> |w.buffer| + 1 >= maxSize
    ensures r.buffer != [] ==> r.written == w.written
    ensures |w.buffer| < maxSize ==> |r.buffer| < maxSize
  {
    var b := w.buffer + [line];
    if |b| >= maxSize then Writer(w.written + b, []) else Writer(w.written, b)
  }

  /** `lines`, logged one after another. */
  function LogAll(maxSize: int, w: Writer, lines: seq<string>): Writer
    decreases |lines|
  {
    if |lines| == 0 then w
    else LogStep(maxSize, LogAll(maxSize, w, lines[..|lines| - 1]), lines[|lines| - 1])
  }

  /** The file followed by the buffer always holds every line logged, in order. */
  lemma {:induction false} LogAllContents(maxSize: int, w: Writer, lines: seq<string>)
    ensures var r := LogAll(maxSize, w, lines);
      r.written + r.buffer == w.written + w.buffer + lines
    decreases |lines|
  {
    if |lines| > 0 {
      var n := |lines| - 1;
      LogAllContents(maxSize, w, lines[..n]);
      assert lines == lines[..n] + [lines[n]];
    }
  }

  /** A buffer that starts below `max_size` stays below it. */
  lemma {:induction false} LogAllBounded(maxSize: int, w: Writer, lines: seq<string>)
    requires |w.buffer| < maxSize
    ensures |LogAll(maxSize, w, lines).buffer| < maxSize
    decreases |lines|
  {
    if |lines| > 0 {
      LogAllBounded(maxSize, w, lines[..|lines| - 1]);
    }
  }

  /** With `max_size=1`, as for the pico stream, every line reaches the file at once. */
  lemma {:induction false} FlushEveryLine(maxSize: int, written: seq<string>, lines: seq<string>)
    requires maxSize <= 1
    ensures LogAll(maxSize, Writer(written, []), lines) == Writer(written + lines, [])
    decreases |lines|
  {
    if |lines| > 0 {
      var n := |lines| - 1;
      FlushEveryLine(maxSize, written, lines[..n]);
      assert lines == lines[..n] + [lines[n]];
    }
  }

  /** Batch size of the lidar stream. */
  const LidarBatch: int := 50

  /**
   * As written, a file is closed with whatever its last flush wrote: with
   * `max_size=50` it holds only whole batches of 50 lines, and the last
   * `|lines| % 50` lines logged never reach it (one logged row leaves the
   * lidar file empty).
   */
  lemma TailLostAsWritten(lines: seq<string>)
    ensures var r := LogAll(LidarBatch, Writer([], []), lines);
      && |r.buffer| == |lines| % LidarBatch
      && r.written == lines[..|lines| - |lines| % LidarBatch]
  {
    TailHeld(lines);
    LogAllContents(LidarBatch, Writer([], []), lines);
    var r := LogAll(LidarBatch, Writer([], []), lines);
    assert r.written == (r.written + r.buffer)[..|r.written|];
  }

  /** From an empty writer, the buffer holds the lines past the last whole batch. */
  lemma {:induction false} TailHeld(lines: seq<string>)
    ensures |LogAll(LidarBatch, Writer([], []), lines).buffer| == |lines| % LidarBatch
    decreases |lines|
  {
    if |lines| > 0 {
      TailHeld(lines[..|lines| - 1]);
    }
  }

  /** The file contents once the held lines are flushed at close. */
  function Flushed(w: Writer): (file: seq<string>)
    ensures |file| == |w.written| + |w.buffer|
  {
    w.written + w.buffer
  }

  /** Flushing at close keeps every logged line, whatever the batch size. */
  lemma FlushedKeepsAll(maxSize: int, lines: seq<string>)
    ensures Flushed(LogAll(maxSize, Writer([], []), lines)) == lines
  {
    LogAllContents(maxSize, Writer([], []), lines);
  }

  /** An output file written through `log_line_buffered`. */
  class LineWriter {
    const maxSize: int
    var written: seq<string>
    var buffer: seq<string>

    constructor (maxSize: int)
      ensures this.maxSize == maxSize && State() == Writer([], [])
    {
      this.maxSize := maxSize;
      written := [];
      buffer := [];
    }

    function State(): Writer
      reads this
    {
      Writer(written, buffer)
    }

    /** `log_line_buffered(buffer, row, file, max_size)`. */
    method LogLine(cells: seq<string>)
      modifies this
      ensures State() == LogStep(maxSize, old(State()), FormatLine(cells))
    {
      buffer := buffer + [FormatLine(cells)];
      if |buffer| >= maxSize {
        written := written + buffer;
        buffer := [];
      }
    }

    /** The flush at close that the lidar stream needs: the held lines reach the file. */
    method Close()
      modifies this
      ensures written == Flushed(old(State())) && buffer == []
    {
      written := written + buffer;
      buffer := [];
    }
  }
}
