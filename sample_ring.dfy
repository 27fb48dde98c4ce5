/**
 * The sample histories of the display (esp32c3/src/main.cpp): 160-slot circular
 * buffers, the order in which the graphs visit them, and the auto-scale computed
 * over the frame-rate samples.
 *
 * The functions here work on the contents of a history array (`a[..]`); the class in
 * display.dfy keeps the arrays and updates them in place.
 */
module SampleRing {

  /** MAX_FPS_SAMPLES, the size of both histories. */
  const MaxSamples: int := 160

  /**
   * The shape of a ring: `0 <= index < 160`, `0 <= count <= 160`, and until the buffer
   * first fills, the write index equals the count (both start at 0 and advance together).
   */
  predicate RingShape(index: int, count: int)
  {
    0 <= index < MaxSamples && 0 <= count <= MaxSamples && (count < MaxSamples ==> index == count)
  }

  /** `(index + 1) % MAX_FPS_SAMPLES`. */
  function NextIndex(index: int): int
  {
    (index + 1) % MaxSamples
  }

  /** The count after an accepted sample: it saturates at MAX_FPS_SAMPLES. */
  function NextCount(count: int): int
  {
    if count < MaxSamples then count + 1 else count
  }

  /** Pushing a sample keeps the ring's shape. */
  lemma PushKeepsShape(index: int, count: int)
    requires RingShape(index, count)
    ensures RingShape(NextIndex(index), NextCount(count))
  {
  }

  /** `startIdx = (index - count + MAX_FPS_SAMPLES) % MAX_FPS_SAMPLES`: the slot of the oldest sample. */
  function StartIdx(index: int, count: int): (s: int)
    requires RingShape(index, count)
    ensures 0 <= s < MaxSamples
  {
    (index - count + MaxSamples) % MaxSamples
  }

  /** `(startIdx + i) % MAX_FPS_SAMPLES`: the slot the graph reads for its i-th point. */
  function Slot(index: int, count: int, i: nat): (k: int)
    requires RingShape(index, count)
    ensures 0 <= k < MaxSamples
  {
    (StartIdx(index, count) + i) % MaxSamples
  }

  /** The stored samples in the order the graphs draw them. */
  function Window(a: seq<real>, index: int, count: int): (w: seq<real>)
    requires |a| == MaxSamples && RingShape(index, count)
    ensures |w| == count
  {
    seq(count, i requires 0 <= i < count => a[Slot(index, count, i)])
  }

  /** The last 160 elements of a sequence. */
  function Trim(s: seq<real>): (t: seq<real>)
    ensures |t| <= MaxSamples
  {
    if |s| <= MaxSamples then s else s[|s| - MaxSamples..]
  }

  lemma ModBelowTwice(x: int)
    requires 0 <= x < 2 * MaxSamples
    ensures x % MaxSamples == if x < MaxSamples then x else x - MaxSamples
  {
  }

  /** Before the buffer first fills, the graphs read slots 0, 1, ... in order. */
  lemma SlotBeforeFull(index: int, count: int, i: nat)
    requires RingShape(index, count) && count < MaxSamples && i < count
    ensures Slot(index, count, i) == i
  {
    assert StartIdx(index, count) == 0;
  }

  /** Once the buffer is full, the graphs start at the write index, the oldest sample. */
  lemma SlotWhenFull(index: int, i: nat)
    requires RingShape(index, MaxSamples) && i < MaxSamples
    ensures Slot(index, MaxSamples, i) == if index + i < MaxSamples then index + i else index + i - MaxSamples
  {
    assert StartIdx(index, MaxSamples) == index;
    ModBelowTwice(index + i);
  }

  /**
   * Pushing x at the write index makes the drawn window the old window with x appended,
   * trimmed to the last 160 samples: the graphs always draw the newest 160 samples,
   * oldest first.
   */
  lemma WindowPush(a: seq<real>, index: int, count: int, x: real)
    requires |a| == MaxSamples && RingShape(index, count)
    ensures RingShape(NextIndex(index), NextCount(count))
    ensures Window(a[index := x], NextIndex(index), NextCount(count)) == Trim(Window(a, index, count) + [x])
  {
    PushKeepsShape(index, count);
    var a', index', count' := a[index := x], NextIndex(index), NextCount(count);
    var w, w' := Window(a, index, count), Window(a', index', count');
    var t := Trim(w + [x]);
    if count < MaxSamples {
      assert t == w + [x];
      forall k | 0 <= k < count' ensures w'[k] == t[k] {
        if count' < MaxSamples {
          SlotBeforeFull(index', count', k);
        } else {
          SlotWhenFull(index', k);
        }
        if k < count {
          SlotBeforeFull(index, count, k);
        }
      }
    } else {
      assert t == (w + [x])[1..];
      ModBelowTwice(index + 1);
      forall k | 0 <= k < MaxSamples ensures w'[k] == t[k] {
        SlotWhenFull(index', k);
        if k + 1 < MaxSamples {
          SlotWhenFull(index, k + 1);
        }
      }
    }
  }

  /** The graphs visit `count` different slots. */
  lemma SlotsDistinct(index: int, count: int, i: nat, j: nat)
    requires RingShape(index, count) && i < j < count
    ensures Slot(index, count, i) != Slot(index, count, j)
  {
    if count < MaxSamples {
      SlotBeforeFull(index, count, i);
      SlotBeforeFull(index, count, j);
    } else {
      SlotWhenFull(index, i);
      SlotWhenFull(index, j);
    }
  }

  /**
   * The drawn window holds exactly the samples in slots `[0, count)`, the slots the
   * min/max loop of addFPSData scans.
   */
  lemma WindowIsFilledSlots(a: seq<real>, index: int, count: int)
    requires |a| == MaxSamples && RingShape(index, count)
    ensures multiset(Window(a, index, count)) == multiset(a[..count])
  {
    var w := Window(a, index, count);
    if count < MaxSamples {
      forall k | 0 <= k < count ensures w[k] == a[k] {
        SlotBeforeFull(index, count, k);
      }
      assert w == a[..count];
    } else {
      forall k | 0 <= k < count ensures w[k] == (a[index..] + a[..index])[k] {
        SlotWhenFull(index, k);
      }
      assert w == a[index..] + a[..index];
      assert a[..index] + a[index..] == a[..count];
    }
  }

  // ---------------------------------------------------------------------------
  // Auto-scale

  /** The minimum found by the loop in addFPSData (a sample replaces it only when smaller). */
  function SeqMin(s: seq<real>): (m: real)
    requires |s| > 0
    ensures forall k :: 0 <= k < |s| ==> m <= s[k]
  {
    if |s| == 1 then s[0]
    else
      var m := SeqMin(s[..|s| - 1]);
      if s[|s| - 1] < m then s[|s| - 1] else m
  }

  /** The maximum found by the same loop. */
  function SeqMax(s: seq<real>): (m: real)
    requires |s| > 0
    ensures forall k :: 0 <= k < |s| ==> s[k] <= m
  {
    if |s| == 1 then s[0]
    else
      var m := SeqMax(s[..|s| - 1]);
      if s[|s| - 1] > m then s[|s| - 1] else m
  }

  /** The minimum is one of the samples: the index of a sample equal to it. */
  lemma {:induction false} SeqMinAttained(s: seq<real>) returns (k: nat)
    requires |s| > 0
    ensures k < |s| && s[k] == SeqMin(s)
  {
    if |s| == 1 {
      k := 0;
    } else if s[|s| - 1] < SeqMin(s[..|s| - 1]) {
      k := |s| - 1;
    } else {
      k := SeqMinAttained(s[..|s| - 1]);
    }
  }

  /** The maximum is one of the samples. */
  lemma {:induction false} SeqMaxAttained(s: seq<real>) returns (k: nat)
    requires |s| > 0
    ensures k < |s| && s[k] == SeqMax(s)
  {
    if |s| == 1 {
      k := 0;
    } else if s[|s| - 1] > SeqMax(s[..|s| - 1]) {
      k := |s| - 1;
    } else {
      k := SeqMaxAttained(s[..|s| - 1]);
    }
  }

  /** The y-axis range of a graph: minFPS/maxFPS or minCPU/maxCPU. */
  datatype Scale = Scale(lo: real, hi: real)

  /** The range before any frame-rate sample: 0 to 60. */
  const InitialFpsScale: Scale := Scale(0.0, 60.0)

  /** The CPU graph's fixed range, 0 to 100 percent. */
  const CpuScale: Scale := Scale(0.0, 100.0)

  /** The spread is widened to at least this before padding. */
  const MinSpread: real := 15.0

  /** Each side is padded by this fraction of the spread. */
  const Padding: real := 0.15

  /**
   * The "smart scaling" of addFPSData (main.cpp:241-252): min and max of the samples,
   * padded by 15% of their spread (at least 15) on each side, the bottom clamped at 0.
   */
  function AutoScale(s: seq<real>): (sc: Scale)
    requires |s| > 0
    ensures 0.0 <= sc.lo
    ensures forall k :: 0 <= k < |s| ==> s[k] <= sc.hi
    ensures (forall k :: 0 <= k < |s| ==> s[k] >= 0.0) ==>
      (forall k :: 0 <= k < |s| ==> sc.lo <= s[k]) && sc.hi - sc.lo >= MinSpread * Padding
    ensures sc.hi - SeqMax(s) >= MinSpread * Padding
    ensures sc.lo == 0.0 || SeqMin(s) - sc.lo >= MinSpread * Padding
    ensures SeqMax(s) - SeqMin(s) >= MinSpread ==>
      sc.hi == SeqMax(s) + (SeqMax(s) - SeqMin(s)) * Padding
      && (sc.lo == 0.0 || sc.lo == SeqMin(s) - (SeqMax(s) - SeqMin(s)) * Padding)
  {
    var lo, hi := SeqMin(s), SeqMax(s);
    var range := if hi - lo < MinSpread then MinSpread else hi - lo;
    Scale(if lo - range * Padding > 0.0 then lo - range * Padding else 0.0, hi + range * Padding)
  }

  // ---------------------------------------------------------------------------
  // The two histories

  /**
   * A frame-rate history: a ring of 160 slots holding only positive samples in its
   * filled slots, with minFPS/maxFPS as addFPSData last computed them.
   */
  predicate FpsHistory(a: seq<real>, index: int, count: int, sc: Scale)
  {
    |a| == MaxSamples && RingShape(index, count)
    && (forall k :: 0 <= k < count ==> a[k] > 0.0)
    && sc == (if count == 0 then InitialFpsScale else AutoScale(a[..count]))
  }

  /** A CPU-usage history: non-negative samples in its filled slots and the fixed 0-100 scale. */
  predicate CpuHistory(a: seq<real>, index: int, count: int, sc: Scale)
  {
    |a| == MaxSamples && RingShape(index, count)
    && (forall k :: 0 <= k < count ==> a[k] >= 0.0)
    && sc == CpuScale
  }

  /** Writing a positive sample and recomputing the scale keeps a frame-rate history valid. */
  lemma FpsHistoryPush(a: seq<real>, index: int, count: int, sc: Scale, x: real)
    requires FpsHistory(a, index, count, sc) && x > 0.0
    ensures var a' := a[index := x];
      FpsHistory(a', NextIndex(index), NextCount(count), AutoScale(a'[..NextCount(count)]))
      && Window(a', NextIndex(index), NextCount(count)) == Trim(Window(a, index, count) + [x])
  {
    WindowPush(a, index, count, x);
    var a' := a[index := x];
    forall k | 0 <= k < NextCount(count) ensures a'[k] > 0.0 {
      if k != index {
        assert k < count;
      }
    }
  }

  /** Writing a non-negative sample keeps a CPU-usage history valid. */
  lemma CpuHistoryPush(a: seq<real>, index: int, count: int, x: real)
    requires CpuHistory(a, index, count, CpuScale) && x >= 0.0
    ensures var a' := a[index := x];
      CpuHistory(a', NextIndex(index), NextCount(count), CpuScale)
      && Window(a', NextIndex(index), NextCount(count)) == Trim(Window(a, index, count) + [x])
  {
    WindowPush(a, index, count, x);
    var a' := a[index := x];
    forall k | 0 <= k < NextCount(count) ensures a'[k] >= 0.0 {
      if k != index {
        assert k < count;
      }
    }
  }

  /**
   * In a valid frame-rate history every drawn sample lies inside the scale, the scale
   * starts at 0 or above, and it spans at least 2.25, so the graph never divides by zero.
   */
  lemma FpsHistoryCovered(a: seq<real>, index: int, count: int, sc: Scale)
    requires FpsHistory(a, index, count, sc)
    ensures 0.0 <= sc.lo && sc.hi - sc.lo >= MinSpread * Padding
    ensures forall k :: 0 <= k < count ==> sc.lo <= Window(a, index, count)[k] <= sc.hi
  {
    if count > 0 {
      var s := a[..count];
      var w := Window(a, index, count);
      WindowIsFilledSlots(a, index, count);
      forall k | 0 <= k < count ensures w[k] in s {
        assert w[k] in multiset(w);
      }
    }
  }
}
