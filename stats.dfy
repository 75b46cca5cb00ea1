/**
 * The sliding, time-bucketed throughput window (`SlidingStats`) and the
 * entity timer that feeds it (`ThroughputCounter`).
 *
 * Times and counts are integers. A window of `size` slots, each
 * `slotDurationSecs` long, holds `(start, value)` pairs oldest first; the
 * start times are multiples of the slot duration and step by exactly one
 * slot duration from each slot to the next.
 */
module Stats {

  /** One bucket: the time it starts at and the total credited to it. */
  datatype Slot = Slot(start: int, value: int)

  import opened Arith

  /** `t - t % dur`: the start of the slot that time `t` falls into. */
  function Align(t: int, dur: int): (tp: int)
    requires dur > 0
    ensures tp <= t < tp + dur
    ensures tp % dur == 0
  {
    MultipleMod(t / dur, dur);
    t - t % dur
  }

  // ---------------------------------------------------------------------
  // Well-formed windows
  // ---------------------------------------------------------------------

  function Last(slots: seq<Slot>): Slot
    requires |slots| > 0
  {
    slots[|slots| - 1]
  }

  /** Each slot starts exactly one slot duration after the previous one. */
  ghost predicate Contiguous(slots: seq<Slot>, dur: int) {
    forall i :: 0 <= i < |slots| - 1 ==> slots[i + 1].start == slots[i].start + dur
  }

  /** A non-empty contiguous window whose start times are multiples of `dur`. */
  ghost predicate WellFormed(slots: seq<Slot>, dur: int) {
    dur > 0 && |slots| > 0 && slots[0].start % dur == 0 && Contiguous(slots, dur)
  }

  lemma {:induction false} SlotStart(slots: seq<Slot>, dur: int, i: int)
    requires Contiguous(slots, dur) && 0 <= i < |slots|
    ensures slots[i].start == slots[0].start + i * dur
    decreases i
  {
    if i > 0 {
      SlotStart(slots, dur, i - 1);
    }
  }

  /** Every start time of a well-formed window is a multiple of `dur`. */
  lemma SlotAligned(slots: seq<Slot>, dur: int, i: int)
    requires WellFormed(slots, dur) && 0 <= i < |slots|
    ensures slots[i].start % dur == 0
  {
    SlotStart(slots, dur, i);
    MultipleIsQuotientTimes(slots[0].start, dur);
    assert slots[i].start == (slots[0].start / dur + i) * dur;
    MultipleMod(slots[0].start / dur + i, dur);
  }

  // ---------------------------------------------------------------------
  // The reference reading of a window: the count held for a given time
  // ---------------------------------------------------------------------

  /** The value of the slot that starts at `t`, or 0 if no slot does. */
  function ValueAt(slots: seq<Slot>, t: int): int {
    if slots == [] then 0
    else if slots[0].start == t then slots[0].value
    else ValueAt(slots[1..], t)
  }

  lemma {:induction false} ValueAtIndex(slots: seq<Slot>, dur: int, j: int)
    requires dur > 0 && Contiguous(slots, dur) && 0 <= j < |slots|
    ensures ValueAt(slots, slots[j].start) == slots[j].value
    decreases j
  {
    if j > 0 {
      SlotStart(slots, dur, j);
      assert Contiguous(slots[1..], dur);
      assert slots[1..][j - 1] == slots[j];
      ValueAtIndex(slots[1..], dur, j - 1);
    }
  }

  lemma {:induction false} ValueAtAbsent(slots: seq<Slot>, dur: int, t: int)
    requires dur > 0 && Contiguous(slots, dur)
    requires slots == [] || t < slots[0].start || t > Last(slots).start
    ensures ValueAt(slots, t) == 0
    decreases |slots|
  {
    if slots != [] {
      SlotStart(slots, dur, |slots| - 1);
      assert Contiguous(slots[1..], dur);
      if |slots| > 1 {
        assert slots[1..][0] == slots[1];
        assert Last(slots[1..]) == Last(slots);
      }
      ValueAtAbsent(slots[1..], dur, t);
    }
  }

  /**
   * `_reset_slots(t)`: `n` empty slots, the first starting at
   * `dur + t - n * dur`, so that the newest one starts at `t`.
   */
  function ResetWindow(t: int, dur: int, n: int): (w: seq<Slot>)
    requires dur > 0 && n > 0 && t % dur == 0
    ensures |w| == n && WellFormed(w, dur)
    ensures Last(w).start == t
    ensures forall i :: 0 <= i < n ==> w[i].value == 0
  {
    var w := seq(n, i requires 0 <= i < n => Slot(dur + t - n * dur + i * dur, 0));
    MultipleShift(t, 1 - n, dur);
    assert w[0].start == t + (1 - n) * dur;
    forall i | 0 <= i < n {
      ResetStart(t, n, i, dur);
    }
    w
  }

  /** The slots of a fresh window step back from `t` one slot duration at a time. */
  lemma ResetWindowStarts(t: int, dur: int, n: int)
    requires dur > 0 && n > 0 && t % dur == 0
    ensures var w := ResetWindow(t, dur, n);
      forall i :: 0 <= i < n ==> w[i].start == t - (n - 1 - i) * dur
  {
    forall i | 0 <= i < n {
      ResetStart(t, n, i, dur);
    }
  }

  lemma {:induction false} StartsIncrease(slots: seq<Slot>, dur: int, i: int, j: int)
    requires dur > 0 && Contiguous(slots, dur) && 0 <= i < j < |slots|
    ensures slots[i].start < slots[j].start
    decreases j - i
  {
    if i + 1 < j {
      StartsIncrease(slots, dur, i, j - 1);
    }
  }

  /** Two different slots of a contiguous window never share a start time. */
  lemma StartsDistinct(slots: seq<Slot>, dur: int, i: int, j: int)
    requires dur > 0 && Contiguous(slots, dur) && 0 <= i < |slots| && 0 <= j < |slots|
    ensures slots[i].start == slots[j].start <==> i == j
  {
    if i < j {
      StartsIncrease(slots, dur, i, j);
    } else if j < i {
      StartsIncrease(slots, dur, j, i);
    }
  }

  /** The oldest slot of a window never starts after its newest. */
  lemma FirstNotAfterLast(slots: seq<Slot>, dur: int)
    requires dur > 0 && Contiguous(slots, dur) && |slots| > 0
    ensures slots[0].start <= Last(slots).start
  {
    if |slots| > 1 {
      StartsIncrease(slots, dur, 0, |slots| - 1);
    }
  }

  lemma StartFromNewest(slots: seq<Slot>, dur: int, i: int)
    requires Contiguous(slots, dur) && 0 <= i < |slots|
    ensures slots[i].start == Last(slots).start - (|slots| - 1 - i) * dur
  {
    var n := |slots|;
    SlotStart(slots, dur, i);
    SlotStart(slots, dur, n - 1);
    assert (n - 1 - i) * dur == (n - 1) * dur - i * dur;
  }

  /**
   * Where `update` writes: starting from index -1, and for a `tp` older than
   * the newest slot `int((tp - last) / dur - 1)`, a Python negative index.
   */
  function SlotIndex(slots: seq<Slot>, dur: int, tp: int): (index: int)
    requires WellFormed(slots, dur)
  {
    if tp < Last(slots).start then (tp - Last(slots).start) / dur - 1 else -1
  }

  /** For an aligned `tp` inside the window, that index names the slot starting at `tp`. */
  lemma SlotIndexFinds(slots: seq<Slot>, dur: int, tp: int)
    requires WellFormed(slots, dur) && tp % dur == 0
    requires slots[0].start <= tp <= Last(slots).start
    ensures var p := |slots| + SlotIndex(slots, dur, tp);
      0 <= p < |slots| && slots[p].start == tp
  {
    var n := |slots|;
    SlotStart(slots, dur, n - 1);
    IndexFromNewest(slots[0].start, Last(slots).start, tp, n, dur);
    SlotStart(slots, dur, n + SlotIndex(slots, dur, tp));
  }

  // ---------------------------------------------------------------------
  // The window `update` slides to
  // ---------------------------------------------------------------------

  function Max(a: int, b: int): (m: int)
    ensures m >= a && m >= b && (m == a || m == b)
  {
    if a >= b then a else b
  }

  /**
   * The `n` slots ending at the slot that starts at `newest`, one slot
   * duration apart, each holding what `slots` holds for its time (0 for a
   * time `slots` does not cover).
   */
  function Window(slots: seq<Slot>, dur: int, n: nat, newest: int): (w: seq<Slot>)
    ensures |w| == n
    ensures n > 0 ==> Last(w).start == newest
  {
    NewestStep(newest, n, dur);
    seq(n, i requires 0 <= i < n =>
      Slot(newest - (n - 1 - i) * dur, ValueAt(slots, newest - (n - 1 - i) * dur)))
  }

  /** A window ending at a multiple of `dur` is well formed. */
  lemma WindowShape(slots: seq<Slot>, dur: int, n: nat, newest: int)
    requires dur > 0 && n > 0 && newest % dur == 0
    ensures WellFormed(Window(slots, dur, n, newest), dur)
  {
    var w := Window(slots, dur, n, newest);
    OldestAligned(newest, n, dur);
    forall i | 0 <= i < n - 1 ensures w[i + 1].start == w[i].start + dur {
      StepBack(newest, n, i, dur);
    }
  }

  /** A well-formed window read back over its own times is itself. */
  lemma WindowOfSelf(slots: seq<Slot>, dur: int)
    requires WellFormed(slots, dur)
    ensures Window(slots, dur, |slots|, Last(slots).start) == slots
  {
    var w := Window(slots, dur, |slots|, Last(slots).start);
    forall i | 0 <= i < |slots| ensures w[i] == slots[i] {
      StartFromNewest(slots, dur, i);
      ValueAtIndex(slots, dur, i);
    }
  }

  /**
   * One `append` on the full deque: evicting the oldest slot and adding an
   * empty one after the newest moves the window one slot forward. The new
   * slot is empty because it is newer than anything `slots` holds.
   */
  lemma WindowShift(slots: seq<Slot>, dur: int, n: nat, newest: int)
    requires WellFormed(slots, dur) && n > 0 && newest >= Last(slots).start
    ensures Window(slots, dur, n, newest)[1..] + [Slot(newest + dur, 0)]
         == Window(slots, dur, n, newest + dur)
  {
    var a := Window(slots, dur, n, newest)[1..] + [Slot(newest + dur, 0)];
    var b := Window(slots, dur, n, newest + dur);
    forall i | 0 <= i < n - 1 ensures a[i] == b[i] {
      StepBack(newest, n, i, dur);
    }
    ValueAtAbsent(slots, dur, newest + dur);
  }

  /**
   * When `tp` is more than a generation past the newest slot, the window
   * ending at `tp` retains nothing, so `_reset_slots(tp)` builds exactly it.
   */
  lemma ResetIsWindow(slots: seq<Slot>, dur: int, tp: int)
    requires WellFormed(slots, dur) && tp % dur == 0
    requires tp - Last(slots).start > |slots| * dur
    ensures ResetWindow(tp, dur, |slots|) == Window(slots, dur, |slots|, tp)
  {
    var n := |slots|;
    var r, w := ResetWindow(tp, dur, n), Window(slots, dur, n, tp);
    forall i | 0 <= i < n ensures r[i] == w[i] {
      ResetStart(tp, n, i, dur);
      BeyondLast(tp, Last(slots).start, n, i, dur);
      ValueAtAbsent(slots, dur, tp - (n - 1 - i) * dur);
    }
  }

  /** Add `count` to the slot of `w` that starts at `tp`, if there is one. */
  function AddAt(w: seq<Slot>, tp: int, count: int): (r: seq<Slot>)
    ensures |r| == |w|
    ensures forall i :: 0 <= i < |w| ==> r[i].start == w[i].start
  {
    seq(|w|, i requires 0 <= i < |w| =>
      if w[i].start == tp then Slot(tp, w[i].value + count) else w[i])
  }

  /** In a well-formed window the added-to slot is the single slot that starts at `tp`. */
  lemma AddAtSlot(w: seq<Slot>, dur: int, p: int, count: int)
    requires WellFormed(w, dur) && 0 <= p < |w|
    ensures AddAt(w, w[p].start, count) == w[p := Slot(w[p].start, w[p].value + count)]
  {
    var r := AddAt(w, w[p].start, count);
    forall i | 0 <= i < |w| ensures r[i] == w[p := Slot(w[p].start, w[p].value + count)][i] {
      StartsDistinct(w, dur, i, p);
    }
  }

  lemma AddAtShape(w: seq<Slot>, dur: int, tp: int, count: int)
    requires WellFormed(w, dur)
    ensures WellFormed(AddAt(w, tp, count), dur)
  {
  }

  /**
   * `update(t, count)` as a function of the window. A point whose aligned
   * time `tp` is older than the oldest slot is dropped. Otherwise the window
   * becomes the `n` slots ending at the newer of `tp` and the old newest
   * slot, each holding what the old window held for its time, and `count`
   * is added to the slot that starts at `tp`.
   */
  function UpdatedSlots(slots: seq<Slot>, dur: int, t: int, count: int): (r: seq<Slot>)
    requires WellFormed(slots, dur)
    ensures |r| == |slots| && WellFormed(r, dur)
  {
    var tp := Align(t, dur);
    if tp < slots[0].start then slots
    else
      var newest := Max(tp, Last(slots).start);
      SlotAligned(slots, dur, |slots| - 1);
      WindowShape(slots, dur, |slots|, newest);
      AddAtShape(Window(slots, dur, |slots|, newest), dur, tp, count);
      AddAt(Window(slots, dur, |slots|, newest), tp, count)
  }

  /**
   * What is left of `update` once the window has slid to the newer of `tp`
   * and the old newest slot: the index computed from the newest slot names
   * the slot to add to.
   */
  lemma UpdateTail(slots: seq<Slot>, dur: int, t: int, count: int, window: seq<Slot>, index: int)
    requires WellFormed(slots, dur)
    requires Align(t, dur) >= slots[0].start
    requires window == Window(slots, dur, |slots|, Max(Align(t, dur), Last(slots).start))
    requires var tp, last := Align(t, dur), Last(window).start;
      index == if tp < last then (tp - last) / dur - 1 else -1
    ensures 0 <= |window| + index < |window|
    ensures UpdatedSlots(slots, dur, t, count)
         == window[|window| + index := Slot(Align(t, dur), window[|window| + index].value + count)]
  {
    var tp, n := Align(t, dur), |slots|;
    var newest := Max(tp, Last(slots).start);
    SlotAligned(slots, dur, n - 1);
    WindowShape(slots, dur, n, newest);
    if newest == tp {
      OldestNotAfter(tp, n, dur);
    } else {
      StartFromNewest(slots, dur, 0);
    }
    SlotIndexFinds(window, dur, tp);
    AddAtSlot(window, dur, n + SlotIndex(window, dur, tp), count);
  }

  // ---------------------------------------------------------------------
  // What `update` means
  // ---------------------------------------------------------------------

  /** A point older than the oldest slot is dropped: nothing changes. */
  lemma UpdateStale(slots: seq<Slot>, dur: int, t: int, count: int)
    requires WellFormed(slots, dur) && Align(t, dur) < slots[0].start
    ensures UpdatedSlots(slots, dur, t, count) == slots
  {
  }

  /**
   * A point more than a generation past the newest slot resets the window
   * to end at the aligned time (see `ResetWindowStarts`): the newest slot
   * holds `count` and every other slot is empty.
   */
  lemma UpdateResets(slots: seq<Slot>, dur: int, t: int, count: int)
    requires WellFormed(slots, dur)
    requires Align(t, dur) - Last(slots).start > |slots| * dur
    ensures var tp, n, r := Align(t, dur), |slots|, UpdatedSlots(slots, dur, t, count);
      r == ResetWindow(tp, dur, n)[n - 1 := Slot(tp, count)]
  {
    var tp, n := Align(t, dur), |slots|;
    MulSign(n, dur);
    FirstNotAfterLast(slots, dur);
    ResetIsWindow(slots, dur, tp);
    AddAtSlot(ResetWindow(tp, dur, n), dur, n - 1, count);
  }

  /**
   * A point at or before the newest slot (and not older than the oldest)
   * adds `count` to exactly the slot that starts at the aligned time; every
   * other slot and every slot time is unchanged.
   */
  lemma UpdateAddsInRange(slots: seq<Slot>, dur: int, t: int, count: int)
    requires WellFormed(slots, dur)
    requires slots[0].start <= Align(t, dur) <= Last(slots).start
    ensures var tp, r := Align(t, dur), UpdatedSlots(slots, dur, t, count);
      var m := (tp - slots[0].start) / dur;
      && 0 <= m < |slots| && slots[m].start == tp
      && r == slots[m := Slot(tp, slots[m].value + count)]
  {
    var tp, n := Align(t, dur), |slots|;
    SlotIndexFinds(slots, dur, tp);
    var p := n + SlotIndex(slots, dur, tp);
    SlotStart(slots, dur, p);
    MultipleMod(p, dur);
    assert tp - slots[0].start == p * dur;
    WindowOfSelf(slots, dur);
    AddAtSlot(slots, dur, p, count);
  }

  /** Inside a well-formed window, reading an aligned time finds the slot that starts there. */
  lemma ValueAtInside(w: seq<Slot>, dur: int, s: int) returns (p: int)
    requires WellFormed(w, dur) && s % dur == 0 && w[0].start <= s <= Last(w).start
    ensures 0 <= p < |w| && w[p].start == s && ValueAt(w, s) == w[p].value
  {
    SlotIndexFinds(w, dur, s);
    p := |w| + SlotIndex(w, dur, s);
    ValueAtIndex(w, dur, p);
  }

  /** A window reads, at each of its aligned times, what it was read from. */
  lemma WindowReads(slots: seq<Slot>, dur: int, n: nat, newest: int, s: int)
    requires dur > 0 && n > 0 && newest % dur == 0 && s % dur == 0
    requires var w := Window(slots, dur, n, newest); w[0].start <= s <= newest
    ensures ValueAt(Window(slots, dur, n, newest), s) == ValueAt(slots, s)
  {
    WindowShape(slots, dur, n, newest);
    var p := ValueAtInside(Window(slots, dur, n, newest), dur, s);
  }

  /** Adding at `tp` changes the reading at `tp` alone, by `count`. */
  lemma AddAtReads(w: seq<Slot>, dur: int, tp: int, count: int, s: int)
    requires WellFormed(w, dur) && s % dur == 0 && w[0].start <= s <= Last(w).start
    ensures ValueAt(AddAt(w, tp, count), s) == ValueAt(w, s) + (if s == tp then count else 0)
  {
    var r := AddAt(w, tp, count);
    AddAtShape(w, dur, tp, count);
    var p := ValueAtInside(w, dur, s);
    var q := ValueAtInside(r, dur, s);
    StartsDistinct(w, dur, p, q);
  }

  /**
   * Reading the window after `update` at any slot time `s`: nothing for a
   * time older than the new window, otherwise what the old window held for
   * `s` (0 if it did not hold `s`), plus `count` when `s` is the aligned
   * time of the point.
   */
  lemma UpdateReads(slots: seq<Slot>, dur: int, t: int, count: int, s: int)
    requires WellFormed(slots, dur) && Align(t, dur) >= slots[0].start && s % dur == 0
    ensures var r, tp := UpdatedSlots(slots, dur, t, count), Align(t, dur);
      ValueAt(r, s) == if s < r[0].start then 0
                       else ValueAt(slots, s) + (if s == tp then count else 0)
  {
    var tp, n := Align(t, dur), |slots|;
    var newest := Max(tp, Last(slots).start);
    SlotAligned(slots, dur, n - 1);
    WindowShape(slots, dur, n, newest);
    var w := Window(slots, dur, n, newest);
    var r := UpdatedSlots(slots, dur, t, count);
    assert r == AddAt(w, tp, count);
    if s < r[0].start || s > newest {
      ValueAtAbsent(r, dur, s);
      if s > newest {
        ValueAtAbsent(slots, dur, s);
      }
    } else {
      AddAtReads(w, dur, tp, count, s);
      WindowReads(slots, dur, n, newest, s);
    }
  }

  lemma {:induction false} ValueAtEmpty(slots: seq<Slot>, t: int)
    requires forall i :: 0 <= i < |slots| ==> slots[i].value == 0
    ensures ValueAt(slots, t) == 0
    decreases |slots|
  {
    if slots != [] {
      ValueAtEmpty(slots[1..], t);
    }
  }

  // ---------------------------------------------------------------------
  // The windows of the unit tests
  // ---------------------------------------------------------------------

  /** `SlidingStats(200, 2, 100)` holds the times 2, 4, ..., 200, all empty. */
  lemma InitialExample()
    ensures ResetWindow(Align(200, 2), 2, 100) == seq(100, i => Slot(2 + 2 * i, 0))
  {
    assert Align(200, 2) == 200;
    var w, e := ResetWindow(200, 2, 100), seq(100, i => Slot(2 + 2 * i, 0));
    forall i | 0 <= i < 100 ensures w[i] == e[i] {
      ResetStart(200, 100, i, 2);
    }
    assert w == e;
  }

  /** Then `update(900, 10)` resets the window to 702, ..., 900 with 10 in the newest slot. */
  lemma ResetExample()
    ensures UpdatedSlots(ResetWindow(200, 2, 100), 2, 900, 10)
         == seq(100, i => Slot(702 + 2 * i, if i == 99 then 10 else 0))
  {
    var w := ResetWindow(200, 2, 100);
    assert Align(900, 2) == 900;
    UpdateResets(w, 2, 900, 10);
    ResetWindowStarts(900, 2, 100);
  }

  /** Instead `update(350, 7)` slides the window to 152, ..., 350 with 7 in the newest slot. */
  lemma SlideExample()
    ensures UpdatedSlots(ResetWindow(200, 2, 100), 2, 350, 7)
         == seq(100, i => Slot(152 + 2 * i, if i == 99 then 7 else 0))
  {
    var w := ResetWindow(200, 2, 100);
    var r := UpdatedSlots(w, 2, 350, 7);
    assert Align(350, 2) == 350;
    assert Max(350, Last(w).start) == 350;
    forall i | 0 <= i < 100 ensures r[i] == Slot(152 + 2 * i, if i == 99 then 7 else 0) {
      ValueAtEmpty(w, 350 - (99 - i) * 2);
    }
  }

  /** The result of a sequence of `update(t, count)` calls, one per time, in order. */
  function UpdateAll(slots: seq<Slot>, dur: int, times: seq<int>, count: int): (r: seq<Slot>)
    requires WellFormed(slots, dur)
    ensures |r| == |slots| && WellFormed(r, dur)
  {
    if times == [] then slots
    else
      UpdatedSlots(UpdateAll(slots, dur, times[..|times| - 1], count), dur, times[|times| - 1], count)
  }

  lemma UpdateAllStep(slots: seq<Slot>, dur: int, times: seq<int>, i: int, count: int)
    requires WellFormed(slots, dur) && 0 <= i < |times|
    ensures UpdateAll(slots, dur, times[..i + 1], count)
         == UpdatedSlots(UpdateAll(slots, dur, times[..i], count), dur, times[i], count)
  {
    assert times[..i + 1][..i] == times[..i];
  }

  // ---------------------------------------------------------------------
  // SlidingStats
  // ---------------------------------------------------------------------

  class SlidingStats {
    const slotDurationSecs: int
    const size: int
    const generation: int
    var slots: seq<Slot>

    /** Fixed length, positive slot duration, contiguous aligned slot times. */
    ghost predicate Valid()
      reads this
    {
      && slotDurationSecs > 0 && size > 0
      && generation == size * slotDurationSecs
      && |slots| == size
      && WellFormed(slots, slotDurationSecs)
    }

    /** `SlidingStats(t, slot_duration_secs, size)`: an empty window whose newest slot contains `t`. */
    constructor (t: int, slotDurationSecs: int, size: int)
      requires slotDurationSecs > 0 && size > 0
      ensures Valid()
      ensures this.slotDurationSecs == slotDurationSecs && this.size == size
      ensures slots == ResetWindow(Align(t, slotDurationSecs), slotDurationSecs, size)
    {
      this.slotDurationSecs := slotDurationSecs;
      this.size := size;
      generation := size * slotDurationSecs;
      new;
      var tp := t - (t % slotDurationSecs);
      assert tp == Align(t, slotDurationSecs);
      ResetSlots(tp);
    }

    /** `_reset_slots(t)`: replace the window by empty slots whose newest starts at `t`. */
    method ResetSlots(t: int)
      requires slotDurationSecs > 0 && size > 0 && generation == size * slotDurationSecs
      requires t % slotDurationSecs == 0
      modifies this
      ensures Valid()
      ensures slots == ResetWindow(t, slotDurationSecs, size)
    {
      var dur := slotDurationSecs;
      var n := size;
      var t0 := dur + t - generation;
      slots := seq(n, i requires 0 <= i < n => Slot(t0 + (i * dur), 0));
      assert slots == ResetWindow(t, dur, n);
    }

    /**
     * `update(t, count)`, which changes the window in place: drop a point
     * older than the window, otherwise slide and add `count` at the slot
     * index computed from the newest slot.
     */
    method Update(t: int, count: int)
      requires Valid()
      modifies this
      ensures Valid()
      ensures slots == UpdatedSlots(old(slots), slotDurationSecs, t, count)
    {
      ghost var before := slots;
      var dur := slotDurationSecs;
      var tp := t - (t % dur);
      assert tp == Align(t, dur);
      if tp < slots[0].start {
        return;
      }
      SlideTo(tp);
      var index := -1;
      var last := slots[|slots| + index].start;
      if tp < last {
        index := (tp - last) / dur - 1;
      }
      UpdateTail(before, dur, t, count, slots, index);
      var v := slots[|slots| + index].value;
      slots := slots[|slots| + index := Slot(tp, v + count)];
    }

    /**
     * The first half of `update` for an aligned time `tp`: reset when `tp`
     * is more than a generation past the newest slot, then append empty
     * slots until the newest slot reaches `tp`.
     */
    method SlideTo(tp: int)
      requires Valid() && tp % slotDurationSecs == 0
      modifies this
      ensures Valid()
      ensures slots == Window(old(slots), slotDurationSecs, size, Max(tp, Last(old(slots)).start))
    {
      ghost var before := slots;
      var dur := slotDurationSecs;
      SlotAligned(slots, dur, size - 1);
      if tp - slots[|slots| - 1].start > generation {
        MulSign(size, dur);
        ResetIsWindow(before, dur, tp);
        ResetSlots(tp);
      } else {
        WindowOfSelf(before, dur);
      }
      var window := slots;
      var last := window[|window| - 1].start;
      while tp > last
        invariant window == Window(before, dur, size, last)
        invariant Last(before).start <= last && last % dur == 0
        invariant last <= tp || last == Last(before).start
        decreases tp - last
      {
        WindowShift(before, dur, size, last);
        AlignedNext(last, tp, dur);
        NextMultiple(last, dur);
        window := window[1..] + [Slot(last + dur, 0)];
        last := window[|window| - 1].start;
      }
      WindowShape(before, dur, size, last);
      slots := window;
    }
  }

  // ---------------------------------------------------------------------
  // ThroughputCounter
  // ---------------------------------------------------------------------

  /**
   * The times `stop_entity` credits for an entity started at `t0` and
   * stopped at `t1`: the stop time alone when less than 5 seconds elapsed,
   * otherwise `t1 - 5 * i` for each `i` below `ceil((t1 - t0) / 5)`.
   */
  function CreditTimes(t0: int, t1: int): (ts: seq<int>)
  {
    var total := t1 - t0;
    if total < 5 then [t1]
    else seq((total + 4) / 5, i => t1 - i * 5)
  }

  /**
   * A short transfer is credited once at its stop time; a longer one gets
   * one credit every 5 seconds going back from the stop time, as many as
   * `ceil(elapsed / 5)`, all of them after the start time.
   */
  lemma CreditTimesCoverElapsed(t0: int, t1: int)
    ensures var ts, total := CreditTimes(t0, t1), t1 - t0;
      && (total < 5 ==> ts == [t1])
      && (total >= 5 ==>
            && (|ts| - 1) * 5 < total <= |ts| * 5
            && (forall i :: 0 <= i < |ts| ==> ts[i] == t1 - i * 5 && t0 < ts[i] <= t1))
  {
  }

  class ThroughputCounter<K(==)> {
    const stats: SlidingStats
    var starts: map<K, int>

    ghost predicate Valid()
      reads this, stats
    {
      stats.Valid()
    }

    /** A counter with an empty default window (1-second slots, 2048 of them) at clock time `now`. */
    constructor (now: int)
      ensures Valid() && fresh(stats)
      ensures stats.slotDurationSecs == 1 && stats.size == 2048
      ensures stats.slots == ResetWindow(now, 1, 2048)
      ensures starts == map[]
    {
      stats := new SlidingStats(now, 1, 2048);
      starts := map[];
    }

    /** `start_entity(id)`: remember the clock time `now` under `id`. */
    method StartEntity(id: K, now: int)
      requires Valid()
      modifies this
      ensures Valid()
      ensures starts == old(starts)[id := now]
    {
      starts := starts[id := now];
    }

    /**
     * `stop_entity(id, size)` at clock time `now`: forget the start time of
     * `id` and credit the full `size` at each of its credit times. A missing
     * `id` is the source's `KeyError`: nothing changes.
     */
    method StopEntity(id: K, size: int, now: int) returns (found: bool)
      requires Valid()
      modifies this, stats
      ensures Valid()
      ensures found <==> id in old(starts)
      ensures starts == old(starts) - {id}
      ensures found ==> stats.slots == UpdateAll(old(stats.slots), stats.slotDurationSecs,
                                                 CreditTimes(old(starts)[id], now), size)
      ensures !found ==> stats.slots == old(stats.slots)
    {
      var t1 := now;
      if id !in starts {
        assert starts - {id} == starts;
        return false;
      }
      var t0 := starts[id];
      starts := starts - {id};
      var total := t1 - t0;
      ghost var times := CreditTimes(t0, t1);
      if total < 5 {
        assert times[..0] == [];
        stats.Update(t1, size);
      } else {
        var n := (total + 4) / 5;
        assert |times| == n;
        for i := 0 to n
          invariant stats.Valid() && starts == old(starts) - {id}
          invariant stats.slots == UpdateAll(old(stats.slots), stats.slotDurationSecs, times[..i], size)
        {
          UpdateAllStep(old(stats.slots), stats.slotDurationSecs, times, i, size);
          assert times[i] == t1 - (i * 5);
          stats.Update(t1 - (i * 5), size);
        }
        assert times[..n] == times;
      }
      found := true;
    }
  }
}
