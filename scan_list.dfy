/**
 * The scan-name list of gui.py's window: the names read from the scan
 * names file, the names generated as `scan_001`, `scan_002`, ... when they
 * run out, the selected entry a start logs to, and the advance of the
 * selection when a scan stops.
 */
module ScanList {
  import opened Text
  import opened Capture

  // ---------------------------------------------------------------------
  // Generated names
  // ---------------------------------------------------------------------

  function Zeros(k: nat): (z: string)
    ensures |z| == k && forall i :: 0 <= i < k ==> z[i] == '0'
  {
    if k == 0 then "" else Zeros(k - 1) + "0"
  }

  /** `f"{idx:03d}"`: the decimal numeral, zero-padded to three digits. */
  function Pad3(n: nat): (s: string)
    ensures |s| >= 3 && AllDigits(s) && DigitsValue(s) == n
  {
    var ds := NatToDigits(n);
    NatToDigitsValue(n);
    if |ds| >= 3 then ds
    else
      LeadingZerosValue(Zeros(3 - |ds|), ds);
      Zeros(3 - |ds|) + ds
  }

  /** `f"scan_{idx:03d}"`. */
  function AutoName(idx: nat): string
  {
    "scan_" + Pad3(idx)
  }

  /** Distinct indices give distinct names. */
  lemma AutoNameInjective(i: nat, j: nat)
    requires AutoName(i) == AutoName(j)
    ensures i == j
  {
    assert AutoName(i)[5..] == Pad3(i);
    assert AutoName(j)[5..] == Pad3(j);
  }

  lemma AutoNameDistinct(i: nat, j: nat)
    requires i != j
    ensures AutoName(i) != AutoName(j)
  {
    if AutoName(i) == AutoName(j) {
      AutoNameInjective(i, j);
    }
  }

  /** `scan_001` up to `scan_NNN` for `n`. */
  function AutoNames(n: nat): set<string>
  {
    if n == 0 then {} else AutoNames(n - 1) + {AutoName(n)}
  }

  lemma {:induction false} AutoNamesLater(n: nat, m: nat)
    requires m > n
    ensures AutoName(m) !in AutoNames(n)
  {
    if n > 0 {
      AutoNamesLater(n - 1, m);
      AutoNameDistinct(m, n);
    }
  }

  lemma {:induction false} AutoNamesCard(n: nat)
    ensures |AutoNames(n)| == n
  {
    if n > 0 {
      AutoNamesCard(n - 1);
      AutoNamesLater(n - 1, n);
    }
  }

  lemma {:induction false} ElementsCard(names: seq<string>)
    ensures |set x | x in names| <= |names|
    decreases |names|
  {
    if |names| > 0 {
      var init := names[..|names| - 1];
      ElementsCard(init);
      assert (set x | x in names) == (set x | x in init) + {names[|names| - 1]};
    }
  }

  /** The list cannot hold the first `n` generated names unless it has `n` entries. */
  lemma Pigeonhole(names: seq<string>, n: nat)
    requires forall j :: 1 <= j <= n ==> AutoName(j) in names
    ensures n <= |names|
  {
    AutoNamesCard(n);
    ElementsCard(names);
    AutoNamesWithin(names, n);
    SubsetCard(AutoNames(n), set x | x in names);
  }

  lemma {:induction false} SubsetCard(a: set<string>, b: set<string>)
    requires a <= b
    ensures |a| <= |b|
    decreases |a|
  {
    if a != {} {
      var x :| x in a;
      SubsetCard(a - {x}, b - {x});
    }
  }

  lemma {:induction false} AutoNamesWithin(names: seq<string>, n: nat)
    requires forall j :: 1 <= j <= n ==> AutoName(j) in names
    ensures AutoNames(n) <= set x | x in names
  {
    if n > 0 {
      AutoNamesWithin(names, n - 1);
      InElements(AutoName(n), names);
    }
  }

  lemma InElements(x: string, names: seq<string>)
    requires x in names
    ensures x in set y | y in names
  {
  }

  /** `name` is the generated name with the smallest index `>= 1` that the list does not hold. */
  ghost predicate FirstFree(names: seq<string>, name: string)
  {
    name !in names && exists idx: nat :: 1 <= idx && name == AutoName(idx) && forall j :: 1 <= j < idx ==> AutoName(j) in names
  }

  /** The search of `get_scan_name`, from index `idx`. */
  function SearchFrom(names: seq<string>, idx: nat): (name: string)
    requires 1 <= idx && forall j :: 1 <= j < idx ==> AutoName(j) in names
    ensures FirstFree(names, name)
    decreases |names| + 1 - idx
  {
    Pigeonhole(names, idx - 1);
    if AutoName(idx) !in names then AutoName(idx)
    else
      Pigeonhole(names, idx);
      SearchFrom(names, idx + 1)
  }

  /** What `get_scan_name` returns for the list `names`. */
  function NextScanName(names: seq<string>): (name: string)
    ensures FirstFree(names, name)
  {
    SearchFrom(names, 1)
  }

  /** There is only one first free name. */
  lemma FirstFreeUnique(names: seq<string>, a: string, b: string)
    requires FirstFree(names, a) && FirstFree(names, b)
    ensures a == b
  {
    var i: nat :| 1 <= i && a == AutoName(i) && forall j :: 1 <= j < i ==> AutoName(j) in names;
    var k: nat :| 1 <= k && b == AutoName(k) && forall j :: 1 <= j < k ==> AutoName(j) in names;
    assert i == k;
  }

  /** `get_scan_name(listbox)`: try `scan_001`, `scan_002`, ... until one is not in the list. */
  method GetScanName(names: seq<string>) returns (name: string)
    ensures name == NextScanName(names)
    ensures name !in names
  {
    var idx: nat := 1;
    while true
      invariant 1 <= idx <= |names| + 1
      invariant forall j :: 1 <= j < idx ==> AutoName(j) in names
      decreases |names| + 1 - idx
    {
      name := AutoName(idx);
      if name !in names {
        assert FirstFree(names, name);
        FirstFreeUnique(names, name, NextScanName(names));
        return;
      }
      Pigeonhole(names, idx);
      idx := idx + 1;
    }
  }

  // ---------------------------------------------------------------------
  // The list and its selection
  // ---------------------------------------------------------------------

  /** The list's entries, its selected entry, and `custom_names_used`. */
  datatype ListState = ListState(names: seq<string>, selected: Option<nat>, customUsed: nat)

  predicate ValidList(st: ListState)
  {
    st.selected.Some? ==> st.selected.value < |st.names|
  }

  /** `select_set(index)`; an index outside the list selects nothing. */
  function Select(names: seq<string>, index: int): (sel: Option<nat>)
    ensures sel.Some? ==> sel.value < |names|
  {
    if 0 <= index < |names| then Some(index as nat) else None
  }

  /** The list as the window opens: the names from the file, the first one selected. */
  function Initial(names: seq<string>): ListState
  {
    ListState(names, Select(names, 0), 0)
  }

  /** What a start logs to and the list after it. */
  datatype Started = Started(base: string, list: ListState)

  /**
   * The start branch of `toggle_logging` as written: the selected entry,
   * or with none a generated name that is not added to the list, while the
   * last entry is selected.
   */
  function StartAsWritten(st: ListState, customCount: nat): Started
    requires ValidList(st)
  {
    match st.selected
    case Some(index) =>
      var used := if index < customCount then (if st.customUsed >= index + 1 then st.customUsed else index + 1) else st.customUsed;
      Started(st.names[index], ListState(st.names, Select(st.names, index), used))
    case None =>
      Started(NextScanName(st.names), ListState(st.names, Select(st.names, |st.names| - 1), st.customUsed))
  }

  /** The start branch with the generated name added to the list and selected, as the stop branch does it. */
  function Start(st: ListState, customCount: nat): (r: Started)
    requires ValidList(st)
    ensures ValidList(r.list) && r.list.selected.Some? && r.base == r.list.names[r.list.selected.value]
    ensures st.names <= r.list.names
  {
    match st.selected
    case Some(index) => StartAsWritten(st, customCount)
    case None =>
      var base := NextScanName(st.names);
      var names := st.names + [base];
      Started(base, ListState(names, Select(names, |names| - 1), st.customUsed))
  }

  lemma StartSelectedIs(st: ListState, customCount: nat, index: nat, used: nat)
    requires ValidList(st) && st.selected == Some(index)
    requires used == if index < customCount then (if st.customUsed >= index + 1 then st.customUsed else index + 1) else st.customUsed
    ensures Start(st, customCount) == Started(st.names[index], ListState(st.names, Select(st.names, index), used))
  {
  }

  lemma StartFreshIs(st: ListState, customCount: nat, base: string)
    requires ValidList(st) && st.selected.None? && base == NextScanName(st.names)
    ensures Start(st, customCount) == Started(base, ListState(st.names + [base], Select(st.names + [base], |st.names|), st.customUsed))
  {
  }

  /** The stop branch of `toggle_logging`: advance to the next entry, or append a generated one and select it. */
  function Stop(st: ListState): ListState
  {
    match st.selected
    case Some(index) =>
      if index < |st.names| - 1 then ListState(st.names, Select(st.names, index + 1), st.customUsed)
      else var names := st.names + [NextScanName(st.names)]; ListState(names, Select(names, |names| - 1), st.customUsed)
    case None =>
      var names := st.names + [NextScanName(st.names)]; ListState(names, Select(names, |names| - 1), st.customUsed)
  }

  /**
   * A stop selects the next entry when there is one; otherwise it appends
   * the first free generated name, which the list did not hold, and selects
   * it. The list only grows.
   */
  lemma StopAdvances(st: ListState)
    requires ValidList(st)
    ensures var r := Stop(st);
      && ValidList(r) && r.selected.Some? && st.names <= r.names
      && (st.selected.Some? && st.selected.value < |st.names| - 1 ==>
            r.names == st.names && r.selected == Some(st.selected.value + 1))
      && (!(st.selected.Some? && st.selected.value < |st.names| - 1) ==>
            |r.names| == |st.names| + 1 && r.selected == Some(|st.names|)
            && FirstFree(st.names, r.names[|st.names|]))
  {
  }

  /** No entry is ever listed twice by the stop branch or the corrected start branch. */
  predicate Distinct(names: seq<string>)
  {
    forall i, j :: 0 <= i < j < |names| ==> names[i] != names[j]
  }

  lemma DistinctAppendFree(names: seq<string>, name: string)
    requires Distinct(names) && name !in names
    ensures Distinct(names + [name])
  {
    var n := names + [name];
    forall i, j | 0 <= i < j < |n|
      ensures n[i] != n[j]
    {
      if j == |names| {
        assert n[i] == names[i];
      }
    }
  }

  lemma StopKeepsDistinct(st: ListState)
    requires ValidList(st) && Distinct(st.names)
    ensures Distinct(Stop(st).names)
  {
    if !(st.selected.Some? && st.selected.value < |st.names| - 1) {
      DistinctAppendFree(st.names, NextScanName(st.names));
    }
  }

  lemma StartKeepsDistinct(st: ListState, customCount: nat)
    requires ValidList(st) && Distinct(st.names)
    ensures Distinct(Start(st, customCount).list.names)
  {
    if st.selected.None? {
      DistinctAppendFree(st.names, NextScanName(st.names));
    }
  }

  /**
   * As written, a start with nothing selected logs to a generated name the
   * list does not hold; the stop then appends that same name, so the next
   * start logs to it again and overwrites the scan just taken.
   */
  lemma StartAsWrittenReuses(st: ListState, customCount: nat)
    requires ValidList(st) && st.selected.None?
    ensures var first := StartAsWritten(st, customCount);
      var second := StartAsWritten(Stop(first.list), customCount);
      first.base == second.base
  {
    var first := StartAsWritten(st, customCount);
    var l := first.list;
    assert l.names == st.names;
    var s := Stop(l);
    assert s.names == st.names + [NextScanName(st.names)];
    assert s.selected == Some(|st.names|);
  }

  /** With the start corrected, two scans in a row never share a name while the list has no repeated entry. */
  lemma StartThenStopMovesOn(st: ListState, customCount: nat)
    requires ValidList(st) && Distinct(st.names)
    ensures var first := Start(st, customCount);
      var second := Start(Stop(first.list), customCount);
      first.base != second.base
  {
    var first := Start(st, customCount);
    var l := first.list;
    StartKeepsDistinct(st, customCount);
    var sel := l.selected.value;
    var s := Stop(l);
    StopAdvances(l);
    if sel < |l.names| - 1 {
      assert s.names == l.names && s.selected == Some(sel + 1);
      assert l.names[sel] != l.names[sel + 1];
    } else {
      var next := s.names[|l.names|];
      assert FirstFree(l.names, next);
      assert first.base in l.names;
    }
  }

  /** The list of the window, with its selection. */
  class ScanNames {
    var names: seq<string>
    var selected: Option<nat>
    var customUsed: nat
    /** `len(scan_names)`: how many entries came from the names file. */
    const customCount: nat

    function State(): ListState
      reads this
    {
      ListState(names, selected, customUsed)
    }

    /** `load_scan_names()` into the list, and `select_set(0)`. */
    constructor (loaded: seq<string>)
      ensures State() == Initial(loaded) && customCount == |loaded| && ValidList(State())
    {
      names := loaded;
      selected := Select(loaded, 0);
      customUsed := 0;
      customCount := |loaded|;
    }

    /** The start branch of `toggle_logging`, with a generated name added to the list; the encoder count restarts at 0. */
    method StartScan(encoder: Encoder) returns (base: string)
      requires ValidList(State())
      modifies this, encoder
      ensures Started(base, State()) == Start(old(State()), customCount)
      ensures encoder.value == 0
    {
      encoder.value := 0;
      if selected.Some? {
        var index := selected.value;
        base := names[index];
        if index < customCount {
          customUsed := if customUsed >= index + 1 then customUsed else index + 1;
        }
        selected := Select(names, index);
        StartSelectedIs(old(State()), customCount, index, customUsed);
      } else {
        base := GetScanName(names);
        names := names + [base];
        selected := Select(names, |names| - 1);
        StartFreshIs(old(State()), customCount, base);
      }
    }

    /** The stop branch of `toggle_logging`: reset the shared start, then advance the selection. */
    method StopScan(clock: SharedClock)
      modifies this, clock
      ensures State() == Stop(old(State())) && clock.start == None
    {
      clock.Reset();
      if selected.Some? && selected.value < |names| - 1 {
        selected := Select(names, selected.value + 1);
      } else {
        var base := GetScanName(names);
        names := names + [base];
        selected := Select(names, |names| - 1);
      }
    }
  }
}
