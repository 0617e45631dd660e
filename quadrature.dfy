/**
 * pico/quadrature.py: a PIO state machine pushes the two encoder pins as a
 * word into its receive FIFO on every clock; `Quadrature.position` drains
 * that FIFO, turning each pair of consecutive pin states into a step of
 * the position counter. The FIFO is modelled as the sequence of reads it
 * would answer.
 */
module QuadratureDecoder {
  import opened Text

  /** What one `sm.get()` does: return a word, or raise. */
  datatype RxRead = Word(bits: nat) | Fault

  /** `max_iters`: the number of counted transitions after which a call returns. */
  const MaxIters: nat := 100

  /** The `transitions` table, looked up with `.get(transition, 0)`. */
  const Transitions: map<nat, int> := map[0x1 := 1, 0x2 := -1, 0x4 := -1, 0x8 := 1]

  function Delta(code: nat): int
  {
    if code in Transitions then Transitions[code] else 0
  }

  /** Exactly `0b0001` and `0b1000` count up, exactly `0b0010` and `0b0100` count down, every other code counts nothing. */
  lemma DeltaTable(code: nat)
    ensures Delta(code) == 1 <==> code == 0x1 || code == 0x8
    ensures Delta(code) == -1 <==> code == 0x2 || code == 0x4
    ensures Delta(code) == 0 <==> code != 0x1 && code != 0x2 && code != 0x4 && code != 0x8
    ensures -1 <= Delta(code) <= 1
  {
  }

  /** `(last_state << 2) | state` for 2-bit states. */
  function Code(last: nat, state: nat): (code: nat)
    requires last < 4 && state < 4
    ensures code < 16 && code / 4 == last && code % 4 == state
  {
    last * 4 + state
  }

  /** `word & 0b11`. */
  function LowBits(bits: nat): (s: nat)
    ensures s < 4
  {
    bits % 4
  }

  /** The decoder's fields, the FIFO still to be read, and `iters`. */
  datatype Drained = Drained(position: int, last: Option<nat>, fifo: seq<RxRead>, iters: nat)

  predicate ValidLast(last: Option<nat>)
  {
    last.Some? ==> last.value < 4
  }

  /** The `while` loop of `position()`, from the given state and `iters`. */
  function Drain(position: int, last: Option<nat>, fifo: seq<RxRead>, iters: nat): (r: Drained)
    requires ValidLast(last)
    ensures |r.fifo| <= |fifo|
    decreases |fifo|
  {
    if |fifo| == 0 || iters >= MaxIters then Drained(position, last, fifo, iters)
    else match fifo[0]
      case Fault => Drained(position, last, fifo, iters)
      case Word(bits) =>
        var state := LowBits(bits);
        match last
        case None => Drain(position, Some(state), fifo[1..], iters)
        case Some(l) => Drain(position + Delta(Code(l, state)), Some(state), fifo[1..], iters + 1)
  }

  /**
   * The loop stops only at an empty FIFO, at `max_iters` counted steps, or
   * at a read that raises; it never counts more than `max_iters`, it
   * consumes a prefix of the FIFO, and the position moves by at most one
   * per counted step.
   */
  lemma {:induction false} DrainBounds(position: int, last: Option<nat>, fifo: seq<RxRead>, iters: nat)
    requires ValidLast(last) && iters <= MaxIters
    ensures var r := Drain(position, last, fifo, iters);
      && iters <= r.iters <= MaxIters
      && |r.fifo| <= |fifo| && r.fifo == fifo[|fifo| - |r.fifo|..]
      && (r.fifo == [] || r.iters == MaxIters || r.fifo[0] == Fault)
      && -(r.iters - iters) <= r.position - position <= r.iters - iters
      && ValidLast(r.last)
    decreases |fifo|
  {
    if |fifo| > 0 && iters < MaxIters && fifo[0].Word? {
      var state := LowBits(fifo[0].bits);
      var rest := fifo[1..];
      var next := match last case None => position case Some(l) => position + Delta(Code(l, state));
      var nextIters := if last.None? then iters else iters + 1;
      if last.Some? {
        DeltaTable(Code(last.value, state));
      }
      assert Drain(position, last, fifo, iters) == Drain(next, Some(state), rest, nextIters);
      DrainBounds(next, Some(state), rest, nextIters);
      var r := Drain(next, Some(state), rest, nextIters);
      assert rest[|rest| - |r.fifo|..] == fifo[|fifo| - |r.fifo|..];
    }
  }

  /** Every word consumed is a word, and the last state is the low bits of the last one consumed. */
  lemma DrainLastState(position: int, last: Option<nat>, fifo: seq<RxRead>, iters: nat)
    requires ValidLast(last)
    ensures var r := Drain(position, last, fifo, iters);
      var used := |fifo| - |r.fifo|;
      && (forall k :: 0 <= k < used ==> fifo[k].Word?)
      && (used == 0 ==> r.position == position && r.last == last && r.iters == iters)
      && (used > 0 ==> r.last == Some(LowBits(fifo[used - 1].bits)))
  {
    var used := |fifo| - |Drain(position, last, fifo, iters).fifo|;
    forall k | 0 <= k < used
      ensures fifo[k].Word?
    {
      DrainConsumed(position, last, fifo, iters, k);
    }
    if used == 0 {
      DrainNone(position, last, fifo, iters);
    } else {
      DrainLast(position, last, fifo, iters);
    }
  }

  /** A call that consumes nothing changes nothing. */
  lemma DrainNone(position: int, last: Option<nat>, fifo: seq<RxRead>, iters: nat)
    requires ValidLast(last) && |Drain(position, last, fifo, iters).fifo| == |fifo|
    ensures Drain(position, last, fifo, iters) == Drained(position, last, fifo, iters)
  {
  }

  lemma {:induction false} DrainConsumed(position: int, last: Option<nat>, fifo: seq<RxRead>, iters: nat, k: nat)
    requires ValidLast(last) && k < |fifo| - |Drain(position, last, fifo, iters).fifo|
    ensures fifo[k].Word?
    decreases |fifo|
  {
    if k > 0 {
      var state := LowBits(fifo[0].bits);
      var next := match last case None => position case Some(l) => position + Delta(Code(l, state));
      var nextIters := if last.None? then iters else iters + 1;
      assert Drain(position, last, fifo, iters) == Drain(next, Some(state), fifo[1..], nextIters);
      DrainConsumed(next, Some(state), fifo[1..], nextIters, k - 1);
    }
  }

  lemma {:induction false} DrainLast(position: int, last: Option<nat>, fifo: seq<RxRead>, iters: nat)
    requires ValidLast(last) && |Drain(position, last, fifo, iters).fifo| < |fifo|
    ensures var used := |fifo| - |Drain(position, last, fifo, iters).fifo|;
      fifo[used - 1].Word? && Drain(position, last, fifo, iters).last == Some(LowBits(fifo[used - 1].bits))
    decreases |fifo|
  {
    var state := LowBits(fifo[0].bits);
    var rest := fifo[1..];
    var next := match last case None => position case Some(l) => position + Delta(Code(l, state));
    var nextIters := if last.None? then iters else iters + 1;
    assert Drain(position, last, fifo, iters) == Drain(next, Some(state), rest, nextIters);
    if |Drain(next, Some(state), rest, nextIters).fifo| == |rest| {
      DrainNone(next, Some(state), rest, nextIters);
    } else {
      DrainLast(next, Some(state), rest, nextIters);
      var used := |rest| - |Drain(next, Some(state), rest, nextIters).fifo|;
      assert rest[used - 1] == fifo[used];
    }
  }

  /** An empty FIFO leaves the decoder as it was. */
  lemma EmptyFifoUnchanged(position: int, last: Option<nat>, iters: nat)
    requires ValidLast(last)
    ensures Drain(position, last, [], iters) == Drained(position, last, [], iters)
  {
  }

  /** Without a last state, the first word only becomes the last state: the position and `iters` wait for the next. */
  lemma FirstWordOnlyLatches(position: int, bits: nat, rest: seq<RxRead>, iters: nat)
    requires iters < MaxIters
    ensures Drain(position, None, [Word(bits)] + rest, iters) == Drain(position, Some(LowBits(bits)), rest, iters)
  {
    assert ([Word(bits)] + rest)[1..] == rest;
  }

  /** One counted step: a word read with a last state moves the position by its transition. */
  lemma WordStep(position: int, l: nat, bits: nat, rest: seq<RxRead>, iters: nat)
    requires l < 4 && iters < MaxIters
    ensures Drain(position, Some(l), [Word(bits)] + rest, iters)
         == Drain(position + Delta(Code(l, LowBits(bits))), Some(LowBits(bits)), rest, iters + 1)
  {
    assert ([Word(bits)] + rest)[1..] == rest;
  }

  /** One turn forward through the Gray code 00, 01, 11, 10 counts +2. */
  lemma ForwardCycle(position: int)
    ensures Drain(position, Some(0), [Word(1), Word(3), Word(2), Word(0)], 0).position == position + 2
  {
    WordStep(position, 0, 1, [Word(3), Word(2), Word(0)], 0);
    assert Delta(Code(0, 1)) == 1;
    WordStep(position + 1, 1, 3, [Word(2), Word(0)], 1);
    assert Delta(Code(1, 3)) == 0;
    WordStep(position + 1, 3, 2, [Word(0)], 2);
    assert Delta(Code(3, 2)) == 0;
    WordStep(position + 1, 2, 0, [], 3);
    assert Delta(Code(2, 0)) == 1;
  }

  /** One turn backward, 00, 10, 11, 01, counts -2: the two directions cancel. */
  lemma BackwardCycle(position: int)
    ensures Drain(position, Some(0), [Word(2), Word(3), Word(1), Word(0)], 0).position == position - 2
  {
    WordStep(position, 0, 2, [Word(3), Word(1), Word(0)], 0);
    assert Delta(Code(0, 2)) == -1;
    WordStep(position - 1, 2, 3, [Word(1), Word(0)], 1);
    assert Delta(Code(2, 3)) == 0;
    WordStep(position - 1, 3, 1, [Word(0)], 2);
    assert Delta(Code(3, 1)) == 0;
    WordStep(position - 1, 1, 0, [], 3);
    assert Delta(Code(1, 0)) == -1;
  }

  /** Reversing a transition reverses its step. */
  lemma DeltaAntisymmetric(a: nat, b: nat)
    requires a < 4 && b < 4
    ensures Delta(Code(b, a)) == -Delta(Code(a, b))
  {
  }

  /** `Quadrature`: the decoder's position counter and last pin state, and its state machine's FIFO. */
  class Quadrature {
    var position: int
    var lastState: Option<nat>
    var fifo: seq<RxRead>

    predicate Valid()
      reads this
    {
      ValidLast(lastState)
    }

    /** `Quadrature.__init__`, with the pins and the state machine reduced to the FIFO. */
    constructor (fifo: seq<RxRead>)
      ensures position == 0 && lastState == None && this.fifo == fifo && Valid()
    {
      position := 0;
      lastState := None;
      this.fifo := fifo;
    }

    /** `position()`: drain the FIFO, at most `max_iters` counted transitions, and return the position. */
    method Position() returns (p: int)
      requires Valid()
      modifies this
      ensures Valid()
      ensures var r := Drain(old(position), old(lastState), old(fifo), 0);
        position == r.position && lastState == r.last && fifo == r.fifo
      ensures p == position
    {
      var iters := 0;
      while |fifo| > 0 && iters < MaxIters
        invariant ValidLast(lastState) && iters <= MaxIters
        invariant Drain(position, lastState, fifo, iters) == Drain(old(position), old(lastState), old(fifo), 0)
        decreases |fifo|
      {
        var read := fifo[0];
        if read.Fault? {
          break;
        }
        fifo := fifo[1..];
        var state := LowBits(read.bits);
        if lastState.None? {
          lastState := Some(state);
          continue;
        }
        var transition := Code(lastState.value, state);
        position := position + Delta(transition);
        lastState := Some(state);
        iters := iters + 1;
      }
      assert Drain(position, lastState, fifo, iters) == Drained(position, lastState, fifo, iters);
      p := position;
    }

    /** `reset()`. */
    method Reset()
      modifies this
      ensures position == 0 && lastState == None && fifo == old(fifo) && Valid()
    {
      position := 0;
      lastState := None;
    }
  }
}
