/**
 * Plot labels of canonical scans: `letter_range`, `inclusive_range` and the
 * choice between them made by `process_scan` (parser.py and
 * high_mem_parser.py share these definitions line for line).
 */
module Labels {
  import opened Text

  /** Python's `list(range(start, stop, step))`. */
  function PyRange(start: int, stop: int, step: int): (r: seq<int>)
    requires step != 0
    ensures forall k :: 0 <= k < |r| ==> r[k] == start + k * step
    ensures step > 0 ==> (|r| == 0 <==> start >= stop)
    ensures step < 0 ==> (|r| == 0 <==> start <= stop)
    ensures step > 0 ==> forall k :: 0 <= k < |r| ==> start <= r[k] < stop
    ensures step < 0 ==> forall k :: 0 <= k < |r| ==> stop < r[k] <= start
    ensures step > 0 && |r| > 0 ==> r[|r| - 1] < stop <= r[|r| - 1] + step
    ensures step < 0 && |r| > 0 ==> r[|r| - 1] + step <= stop < r[|r| - 1]
    decreases if step > 0 then stop - start else start - stop
  {
    if (step > 0 && start < stop) || (step < 0 && start > stop) then
      [start] + PyRange(start + step, stop, step)
    else
      []
  }

  /** `range(start, stop)` has `stop - start` elements, none when `stop <= start`. */
  lemma PyRangeUnitLength(start: int, stop: int)
    ensures |PyRange(start, stop, 1)| == if start < stop then stop - start else 0
  {
    var r := PyRange(start, stop, 1);
    if |r| > 0 {
      assert r[|r| - 1] == start + (|r| - 1);
    }
  }

  /** `inclusive_range(a, b, step)`; None where it raises ValueError (step 0). */
  function InclusiveRange(a: int, b: int, step: int): (r: Option<seq<int>>)
    ensures r.None? <==> step == 0
  {
    if step == 0 then None
    else
      var s := if (a > b && step > 0) || (a < b && step < 0) then -step else step;
      Some(if s > 0 then PyRange(a, b + 1, s) else PyRange(a, b - 1, s))
  }

  function Abs(x: int): nat { if x < 0 then -x else x }

  /**
   * Whatever the sign of `step`, the range starts at `a`, moves toward `b`
   * by |step|, never passes `b`, and ends less than |step| short of it.
   */
  lemma InclusiveRangeShape(a: int, b: int, step: int)
    requires step != 0
    ensures var r := InclusiveRange(a, b, step).value;
      && |r| >= 1 && r[0] == a
      && (forall k :: 0 <= k < |r| ==> r[k] == a + k * Toward(a, b, step))
      && (forall k :: 0 <= k < |r| ==> (a <= r[k] <= b) || (b <= r[k] <= a))
      && Abs(b - r[|r| - 1]) < Abs(step)
  {
    if a < b {
      RangeUp(a, b, step);
    } else if a == b {
      assert InclusiveRange(a, b, step).value == [a];
    } else {
      RangeDown(a, b, step);
    }
  }

  lemma RangeUp(a: int, b: int, step: int)
    requires step != 0 && a < b
    ensures var r := InclusiveRange(a, b, step).value;
      && |r| >= 1 && r[0] == a
      && (forall k :: 0 <= k < |r| ==> r[k] == a + k * Toward(a, b, step) && a <= r[k] <= b)
      && b - r[|r| - 1] < Abs(step)
  {
    var m: int := Abs(step);
    assert InclusiveRange(a, b, step).value == PyRange(a, b + 1, m);
    assert Toward(a, b, step) == m;
  }

  lemma RangeDown(a: int, b: int, step: int)
    requires step != 0 && b < a
    ensures var r := InclusiveRange(a, b, step).value;
      && |r| >= 1 && r[0] == a
      && (forall k :: 0 <= k < |r| ==> r[k] == a + k * Toward(a, b, step) && b <= r[k] <= a)
      && r[|r| - 1] - b < Abs(step)
  {
    var m: int := -(Abs(step) as int);
    assert InclusiveRange(a, b, step).value == PyRange(a, b - 1, m);
    assert Toward(a, b, step) == m;
  }

  /** The signed step `inclusive_range` actually takes: |step| toward `b`. */
  function Toward(a: int, b: int, step: int): int
  {
    var m: int := Abs(step);
    if a <= b then m else -m
  }

  /** With the default step of 1 the range is every integer from `a` to `b`. */
  lemma {:induction false} InclusiveRangeUnitStep(a: int, b: int)
    ensures var r := InclusiveRange(a, b, 1).value;
      && |r| == Abs(b - a) + 1
      && r[0] == a && r[|r| - 1] == b
      && forall k :: 0 <= k < |r| ==> r[k] == a + k * Toward(a, b, 1)
  {
    InclusiveRangeShape(a, b, 1);
  }

  /** `letter_range(start, end)` on the code points of two one-character tokens. */
  function LetterRange(start: int, end: int): seq<int>
  {
    if start <= end then PyRange(start, end + 1, 1) else PyRange(start, end - 1, -1)
  }

  /** `letter_range` is `inclusive_range` with step 1, read on code points. */
  lemma LetterRangeIsInclusive(start: int, end: int)
    ensures LetterRange(start, end) == InclusiveRange(start, end, 1).value
  {
  }

  /**
   * `letter_range(s, e)` has |ord(e) - ord(s)| + 1 letters, starts at `s`,
   * ends at `e`, and each step is +1 or -1 toward `e`.
   */
  lemma LetterRangeShape(start: int, end: int)
    ensures var r := LetterRange(start, end);
      && |r| == Abs(end - start) + 1
      && r[0] == start && r[|r| - 1] == end
      && forall k :: 0 <= k < |r| - 1 ==> r[k + 1] - r[k] == (if start <= end then 1 else -1)
  {
    LetterRangeIsInclusive(start, end);
    InclusiveRangeUnitStep(start, end);
    var r := LetterRange(start, end);
    forall k | 0 <= k < |r| - 1
      ensures r[k + 1] - r[k] == (if start <= end then 1 else -1)
    {
      assert r[k] == start + k * Toward(start, end, 1);
      assert r[k + 1] == start + (k + 1) * Toward(start, end, 1);
    }
  }

  /** A plot label: a character (by code point) or an integer. */
  datatype Label = Letter(code: int) | Number(value: int)

  /** The label as the code points of `f"{label}"`. */
  function LabelText(l: Label): seq<int>
  {
    match l
    case Letter(c) => [c]
    case Number(n) => CodePoints(IntToString(n))
  }

  function CodePoints(s: string): (r: seq<int>)
    ensures |r| == |s| && forall i :: 0 <= i < |s| ==> r[i] == s[i] as int
  {
    seq(|s|, i requires 0 <= i < |s| => s[i] as int)
  }

  function Letters(codes: seq<int>): (r: seq<Label>)
    ensures |r| == |codes| && forall i :: 0 <= i < |r| ==> r[i] == Letter(codes[i])
  {
    seq(|codes|, i requires 0 <= i < |codes| => Letter(codes[i]))
  }

  function Numbers(ns: seq<int>): (r: seq<Label>)
    ensures |r| == |ns| && forall i :: 0 <= i < |r| ==> r[i] == Number(ns[i])
  {
    seq(|ns|, i requires 0 <= i < |ns| => Number(ns[i]))
  }

  /**
   * The labels of a canonical scan from its start and end tokens: `letter_range`
   * when both are single characters, otherwise `inclusive_range(int(a), int(b))`;
   * None where `int()` raises.
   */
  function ScanLabels(a: string, b: string): (r: Option<seq<Label>>)
    ensures |a| == 1 && |b| == 1 ==> r == Some(Letters(LetterRange(a[0] as int, b[0] as int)))
    ensures !(|a| == 1 && |b| == 1) ==>
      (r.Some? <==> ParseInt(a).Some? && ParseInt(b).Some?)
    ensures !(|a| == 1 && |b| == 1) && ParseInt(a).Some? && ParseInt(b).Some? ==>
      r == Some(Numbers(InclusiveRange(ParseInt(a).value, ParseInt(b).value, 1).value))
  {
    if |a| == 1 && |b| == 1 then
      Some(Letters(LetterRange(a[0] as int, b[0] as int)))
    else
      match (ParseInt(a), ParseInt(b))
      case (Some(x), Some(y)) => Some(Numbers(InclusiveRange(x, y, 1).value))
      case _ => None
  }

  /** Whichever branch is taken, a canonical scan has at least one label. */
  lemma ScanLabelsNonEmpty(a: string, b: string)
    requires ScanLabels(a, b).Some?
    ensures |ScanLabels(a, b).value| >= 1
  {
    if |a| == 1 && |b| == 1 {
      LetterRangeShape(a[0] as int, b[0] as int);
    } else {
      var x, y := ParseInt(a).value, ParseInt(b).value;
      InclusiveRangeUnitStep(x, y);
    }
  }

  /**
   * Both branches spelled out: one label per step from the start token to
   * the end token, inclusive, moving by 1 toward the end.
   */
  lemma ScanLabelsRange(a: string, b: string)
    requires ScanLabels(a, b).Some?
    ensures var r := ScanLabels(a, b).value;
      if |a| == 1 && |b| == 1 then
        var x, y := a[0] as int, b[0] as int;
        |r| == Abs(y - x) + 1 && forall k :: 0 <= k < |r| ==> r[k] == Letter(x + k * Toward(x, y, 1))
      else
        var x, y := ParseInt(a).value, ParseInt(b).value;
        |r| == Abs(y - x) + 1 && forall k :: 0 <= k < |r| ==> r[k] == Number(x + k * Toward(x, y, 1))
  {
    var r := ScanLabels(a, b).value;
    if |a| == 1 && |b| == 1 {
      LetterLabelsRange(r, a[0] as int, b[0] as int);
    } else {
      NumberLabelsRange(r, ParseInt(a).value, ParseInt(b).value);
    }
  }

  /** The labels of the letters branch, read as code points. */
  lemma LetterLabelsRange(r: seq<Label>, x: int, y: int)
    requires r == Letters(LetterRange(x, y))
    ensures |r| == Abs(y - x) + 1 && forall k :: 0 <= k < |r| ==> r[k] == Letter(x + k * Toward(x, y, 1))
  {
    LetterRangeIsInclusive(x, y);
    InclusiveRangeUnitStep(x, y);
    LabelsOfUnitRange(InclusiveRange(x, y, 1).value, x, y);
  }

  /** The labels of the numbers branch. */
  lemma NumberLabelsRange(r: seq<Label>, x: int, y: int)
    requires r == Numbers(InclusiveRange(x, y, 1).value)
    ensures |r| == Abs(y - x) + 1 && forall k :: 0 <= k < |r| ==> r[k] == Number(x + k * Toward(x, y, 1))
  {
    InclusiveRangeUnitStep(x, y);
    LabelsOfUnitRange(InclusiveRange(x, y, 1).value, x, y);
  }

  /** The letter and number labels of the integers from `x` to `y`, one step at a time. */
  lemma LabelsOfUnitRange(codes: seq<int>, x: int, y: int)
    requires |codes| == Abs(y - x) + 1
    requires forall k :: 0 <= k < |codes| ==> codes[k] == x + k * Toward(x, y, 1)
    ensures var r := Letters(codes);
      |r| == Abs(y - x) + 1 && forall k :: 0 <= k < |r| ==> r[k] == Letter(x + k * Toward(x, y, 1))
    ensures var r := Numbers(codes);
      |r| == Abs(y - x) + 1 && forall k :: 0 <= k < |r| ==> r[k] == Number(x + k * Toward(x, y, 1))
  {
  }
}
