/**
 * The frame-rate reader over RivaTuner's shared memory (class RTSSSharedMemory in
 * Win10app/Program.cs).
 *
 * The mapped window is a byte sequence. An entry that lies outside it is abstracted
 * as "no value" for the whole scan, like the exceptions that the catch at the end of
 * ReadFpsForProcess swallows: that catch sits outside the scan loop, so the first
 * entry that cannot be read ends the scan. The real copy would read unrelated memory
 * or stop the process.
 */
module Rtss {
  import opened Wrappers
  import opened Text
  import opened Words
  import opened Arith

  /** MapViewOfFile maps 4 MiB of the region. */
  const WindowSize: nat := 4 * 1024 * 1024
  /** The header is copied as 256 bytes. */
  const HeaderSize: nat := 256
  /** At most this many entries are scanned, whatever the header says. */
  const MaxScanned: nat := 50
  /** The process name starts at this offset inside an entry. */
  const NameStart: nat := 4
  /** dwTime0, dwTime1 and dwFrames are read from here on. */
  const TimingOffset: nat := 0x10C
  /** The timing block is read only when this many bytes follow TimingOffset. */
  const TimingBlockSize: nat := 16

  // ---------------------------------------------------------------------------
  // Little-endian words

  /** `BitConverter.ToUInt32(s, off)` on a little-endian machine. */
  function U32At(s: seq<byte>, off: nat): u32
    requires off + 4 <= |s|
  {
    s[off] as int + 0x100 * s[off + 1] as int + 0x1_0000 * s[off + 2] as int + 0x100_0000 * s[off + 3] as int
  }

  /** The four little-endian bytes of a word: the inverse of U32At. */
  function U32Bytes(v: u32): (b: seq<byte>)
    ensures |b| == 4
  {
    var b0: byte := v % 0x100;
    var b1: byte := (v / 0x100) % 0x100;
    var b2: byte := (v / 0x1_0000) % 0x100;
    var b3: byte := v / 0x100_0000;
    [b0, b1, b2, b3]
  }

  lemma {:induction false} U32RoundTrip(s: seq<byte>, off: nat, v: u32)
    requires off + 4 <= |s| && s[off..off + 4] == U32Bytes(v)
    ensures U32At(s, off) == v
  {
    var b := U32Bytes(v);
    assert s[off] == b[0] && s[off + 1] == b[1] && s[off + 2] == b[2] && s[off + 3] == b[3];
    var q1, q2 := v / 0x100, v / 0x1_0000;
    assert v == v % 0x100 + 0x100 * q1;
    assert q1 / 0x100 == q2;
    assert q1 == q1 % 0x100 + 0x100 * q2;
    assert q2 / 0x100 == v / 0x100_0000;
    assert q2 == q2 % 0x100 + 0x100 * (v / 0x100_0000);
  }

  // ---------------------------------------------------------------------------
  // C# 32-bit signed arithmetic

  /** The value of `(int)x`, and of an `int` sum or product, in C#'s unchecked context. */
  function Int32(x: int): (r: int)
    ensures -Two31 <= r < Two31
    ensures (x - r) % Two32 == 0
  {
    var m := x % Two32;
    if m >= Two31 then m - Two32 else m
  }

  lemma Int32OfInRange(x: int)
    requires -Two31 <= x < Two31
    ensures Int32(x) == x
  {
    if x < 0 {
      assert x % Two32 == x + Two32;
    } else {
      assert x % Two32 == x;
    }
  }

  // ---------------------------------------------------------------------------
  // Header and entries

  /** dwAppEntrySize (0x08), dwAppArrOffset (0x0C) and dwAppArrSize (0x10). */
  datatype Header = Header(entrySize: u32, arrOffset: u32, arrSize: u32)

  /** The header copied from the start of the window; None when the window is too short. */
  function ReadHeader(view: seq<byte>): Option<Header>
  {
    if |view| < HeaderSize then None
    else Some(Header(U32At(view, 0x08), U32At(view, 0x0C), U32At(view, 0x10)))
  }

  /** `Math.Min(dwAppArrSize, 50)`: the number of entries the scan may visit. */
  function ScanLimit(h: Header): (n: nat)
    ensures n <= MaxScanned && n <= h.arrSize
    ensures n == MaxScanned || n == h.arrSize
  {
    if h.arrSize < MaxScanned then h.arrSize else MaxScanned
  }

  /** `(int)dwAppArrOffset + i * (int)dwAppEntrySize`, with C#'s 32-bit wrap-around. */
  function EntryOffset(h: Header, i: nat): int
  {
    Int32(Int32(h.arrOffset) + Int32(i * Int32(h.entrySize)))
  }

  /** The bytes `Marshal.Copy` copies for entry i; None when they leave the window. */
  function EntryBytes(view: seq<byte>, h: Header, i: nat): (e: Option<seq<byte>>)
    ensures e.Some? ==> |e.value| == h.entrySize
  {
    var off := EntryOffset(h, i);
    if 0 <= off && off + h.entrySize <= |view| then Some(view[off..off + h.entrySize]) else None
  }

  /** dwTime0, dwTime1 and dwFrames of an entry. */
  datatype Timing = Timing(time0: u32, time1: u32, frames: u32)

  /**
   * A decoded entry. `name` is None when there is no zero byte after offset 4 or the
   * name is empty; `timing` is None when the entry is too short for the timing block.
   * Unreadable is an entry whose decoding throws, or one that lies outside the window.
   */
  datatype AppEntry = Unreadable | AppEntry(name: Option<seq<byte>>, timing: Option<Timing>)

  /** `Array.IndexOf(e, (byte)0, from)`: the first zero at or after `from`, or -1. */
  function IndexOfZero(e: seq<byte>, from: nat): (r: int)
    requires from <= |e|
    ensures r == -1 || (from <= r < |e| && e[r] == 0)
    ensures forall k :: from <= k < |e| && (r == -1 || k < r) ==> e[k] != 0
    decreases |e| - from
  {
    if from == |e| then -1 else if e[from] == 0 then from else IndexOfZero(e, from + 1)
  }

  /**
   * Decoding of the bytes of one entry (Program.cs:243-257): the name runs from offset 4
   * to the first zero byte after it, and the timing block is read when it fits.
   */
  function DecodeEntry(e: seq<byte>): (r: AppEntry)
    ensures r.Unreadable? <==> |e| < NameStart
    ensures r.AppEntry? && r.name.Some? ==>
      var n := r.name.value;
      0 < |n| && NameStart + |n| < |e| && e[NameStart..NameStart + |n|] == n && NoZero(n) && e[NameStart + |n|] == 0
    ensures r.AppEntry? && r.name.None? ==> |e| == NameStart || e[NameStart] == 0 || NoZero(e[NameStart..])
    ensures r.AppEntry? ==> (r.timing.Some? <==> TimingOffset + TimingBlockSize <= |e|)
    ensures r.AppEntry? && r.timing.Some? ==>
      r.timing.value == Timing(U32At(e, TimingOffset), U32At(e, TimingOffset + 4), U32At(e, TimingOffset + 8))
  {
    if |e| < NameStart then Unreadable  // Array.IndexOf throws when the start index passes the end
    else
      var nameEnd := IndexOfZero(e, NameStart);
      var name := if nameEnd > NameStart then Some(e[NameStart..nameEnd]) else None;
      var timing :=
        if TimingOffset + TimingBlockSize <= |e|
        then Some(Timing(U32At(e, TimingOffset), U32At(e, TimingOffset + 4), U32At(e, TimingOffset + 8)))
        else None;
      AppEntry(name, timing)
  }

  /** Entry i as the scan sees it: unreadable when it lies outside the window or is shorter than 4 bytes. */
  function ReadEntry(view: seq<byte>, h: Header, i: nat): (r: AppEntry)
    ensures r.Unreadable? <==> EntryBytes(view, h, i).None? || h.entrySize < NameStart
  {
    match EntryBytes(view, h, i)
    case None => Unreadable
    case Some(e) => DecodeEntry(e)
  }

  // ---------------------------------------------------------------------------
  // Names

  /** `Encoding.UTF8.GetString` on the name bytes, for ASCII names. */
  function ByteChars(b: seq<byte>): string
  {
    seq(|b|, k requires 0 <= k < |b| => b[k] as char)
  }

  predicate IsSeparator(c: char)
  {
    c == '\\' || c == '/'
  }

  predicate IsAsciiLetter(c: char)
  {
    'A' <= c <= 'Z' || 'a' <= c <= 'z'
  }

  /** A Windows drive root "X:" at the start of a path. */
  predicate HasDriveRoot(p: string)
  {
    |p| >= 2 && IsAsciiLetter(p[0]) && p[1] == ':'
  }

  /** The longest suffix that holds no directory separator. */
  function LastComponent(p: string): (r: string)
    ensures |r| <= |p| && r == p[|p| - |r|..]
    ensures forall k :: 0 <= k < |r| ==> !IsSeparator(r[k])
    ensures |r| < |p| ==> IsSeparator(p[|p| - |r| - 1])
    decreases |p|
  {
    if |p| == 0 then p
    else if IsSeparator(p[|p| - 1]) then []
    else LastComponent(p[..|p| - 1]) + [p[|p| - 1]]
  }

  /**
   * `Path.GetFileName` as .NET does it on Windows: the longest suffix that holds no
   * directory separator and no part of a leading drive root, so "C:game.exe" gives
   * "game.exe".
   */
  function FileName(p: string): (r: string)
    ensures |r| <= |p| && r == p[|p| - |r|..]
    ensures forall k :: 0 <= k < |r| ==> !IsSeparator(r[k])
    ensures HasDriveRoot(p) ==> |r| <= |p| - 2
    ensures |r| < |p| ==> IsSeparator(p[|p| - |r| - 1]) || (HasDriveRoot(p) && |r| == |p| - 2)
  {
    var c := LastComponent(p);
    if HasDriveRoot(p) && |c| > |p| - 2 then p[2..] else c
  }

  /** The entry's name matches the target after path stripping, ignoring case. */
  predicate NameMatches(name: seq<byte>, target: string)
  {
    EqualsIgnoreCase(FileName(ByteChars(name)), target)
  }

  // ---------------------------------------------------------------------------
  // Frame rate

  /** `1 <= 1000 * frames / delta <= 1000`, in integers. */
  predicate InRange(frames: nat, delta: nat)
  {
    delta <= 1000 * frames <= 1000 * delta
  }

  function Abs(x: int): nat { if x < 0 then -x else x }

  /**
   * The rate `1000 * frames / delta` in tenths, rounded to the nearest tenth: the result
   * is within 0.05 of the exact rate.
   */
  function RoundTenths(frames: nat, delta: nat): (t: int)
    requires delta > 0
    ensures 2 * Abs(t * delta - 10000 * frames) <= delta
  {
    var n := 20000 * frames + delta;
    var t := n / (2 * delta);
    assert n == 2 * delta * t + n % (2 * delta);
    assert 2 * (t * delta - 10000 * frames) == delta - n % (2 * delta);
    t
  }

  lemma RoundTenthsBounds(frames: nat, delta: nat)
    requires delta > 0 && InRange(frames, delta)
    ensures 10 <= RoundTenths(frames, delta) <= 10000
  {
    var t := RoundTenths(frames, delta);
    assert 2 * (t * delta) >= 20000 * frames - delta >= 19 * delta;
    MulCancelLt(9, t, delta);
    assert 2 * (t * delta) <= 20000 * frames + delta <= 20001 * delta;
    MulCancelLt(t, 10001, delta);
  }

  /**
   * The rate in tenths that an entry yields for the target, or None when its name does
   * not match, its timing block is absent, `dwTime1 <= dwTime0`, `dwFrames == 0`, or the
   * rate lies outside [1, 1000] (Program.cs:244-261).
   */
  function Qualify(e: AppEntry, target: string): (r: Option<int>)
    ensures r.Some? ==> e.AppEntry? && e.name.Some? && NameMatches(e.name.value, target) && e.timing.Some?
    ensures r.Some? ==>
      var tm := e.timing.value;
      tm.time1 > tm.time0 && tm.frames > 0 && InRange(tm.frames, tm.time1 - tm.time0)
      && 2 * Abs(r.value * (tm.time1 - tm.time0) - 10000 * tm.frames) <= tm.time1 - tm.time0
      && 10 <= r.value <= 10000
  {
    match e
    case Unreadable => None
    case AppEntry(name, timing) =>
      if name.Some? && NameMatches(name.value, target) && timing.Some?
         && timing.value.time1 > timing.value.time0 && timing.value.frames > 0
         && InRange(timing.value.frames, timing.value.time1 - timing.value.time0)
      then
        RoundTenthsBounds(timing.value.frames, timing.value.time1 - timing.value.time0);
        Some(RoundTenths(timing.value.frames, timing.value.time1 - timing.value.time0))
      else None
  }

  /** What the scan does with one entry: stop on an exception, pass over it, or return its rate. */
  datatype Step = Fault | Pass | Hit(tenths: int)

  function StepOf(e: AppEntry, target: string): (s: Step)
    ensures s.Hit? ==> 10 <= s.tenths <= 10000
  {
    if e.Unreadable? then Fault
    else match Qualify(e, target)
      case Some(t) => Hit(t)
      case None => Pass
  }

  function EntryStep(view: seq<byte>, h: Header, target: string, i: nat): (s: Step)
    ensures s.Hit? ==> 10 <= s.tenths <= 10000
  {
    StepOf(ReadEntry(view, h, i), target)
  }

  /** The steps of entries 0 .. min(dwAppArrSize, 50) - 1, in scan order. */
  function Steps(view: seq<byte>, h: Header, target: string): (s: seq<Step>)
    ensures |s| == ScanLimit(h)
  {
    seq(ScanLimit(h), i requires 0 <= i < ScanLimit(h) => EntryStep(view, h, target, i))
  }

  /** The scan loop with its early returns (Program.cs:236-266): the first hit, unless a fault comes first. */
  function FirstHit(steps: seq<Step>, from: nat): (r: Option<int>)
    requires from <= |steps|
    ensures r.Some? ==> exists i :: from <= i < |steps| && steps[i] == Hit(r.value)
    decreases |steps| - from
  {
    if from == |steps| then None
    else match steps[from]
      case Fault => None
      case Hit(t) => Some(t)
      case Pass => FirstHit(steps, from + 1)
  }

  /**
   * `ReadFpsForProcess` (Program.cs:223-270): the frame rate of the target in tenths
   * of a frame per second, or None.
   */
  function ReadFps(mapped: bool, view: seq<byte>, target: string): (r: Option<int>)
    ensures !mapped || |target| == 0 ==> r == None
    ensures r.Some? ==> 10 <= r.value <= 10000
  {
    if !mapped || |target| == 0 then None
    else match ReadHeader(view)
      case None => None
      case Some(h) => FirstHit(Steps(view, h, target), 0)
  }

  /** What visiting entry i contributes to the scan: stop with nothing, stop with its rate, or go on. */
  lemma ScanVisits(view: seq<byte>, h: Header, target: string, i: nat)
    requires i < ScanLimit(h)
    ensures var e, steps := ReadEntry(view, h, i), Steps(view, h, target);
      FirstHit(steps, i) == if e.Unreadable? then None else if Qualify(e, target).Some? then Qualify(e, target)
      else FirstHit(steps, i + 1)
  {
    var steps := Steps(view, h, target);
    assert steps[i] == EntryStep(view, h, target, i);
  }

  // ---------------------------------------------------------------------------
  // Properties of the scan

  /** A hit found from `from` on sits after steps that were all passed over. */
  lemma {:induction false} FirstHitFound(steps: seq<Step>, from: nat, t: int) returns (i: nat)
    requires from <= |steps| && FirstHit(steps, from) == Some(t)
    ensures from <= i < |steps| && steps[i] == Hit(t)
    ensures forall j :: from <= j < i ==> steps[j] == Pass
    decreases |steps| - from
  {
    if steps[from].Hit? {
      i := from;
    } else {
      i := FirstHitFound(steps, from + 1, t);
    }
  }

  /** A hit reached past steps that were all passed over is what the scan returns. */
  lemma {:induction false} FirstHitReaches(steps: seq<Step>, from: nat, i: nat, t: int)
    requires from <= i < |steps| && steps[i] == Hit(t)
    requires forall j :: from <= j < i ==> steps[j] == Pass
    ensures FirstHit(steps, from) == Some(t)
    decreases i - from
  {
    if from < i {
      FirstHitReaches(steps, from + 1, i, t);
    }
  }

  /** Step i yields t and every step before it was passed over. */
  predicate HitAfterPasses(steps: seq<Step>, i: int, t: int)
  {
    0 <= i < |steps| && steps[i] == Hit(t) && forall j :: 0 <= j < i ==> steps[j] == Pass
  }

  /**
   * ReadFps returns t exactly when the region is mapped, the target is not empty, the
   * header is readable and some entry among the first `min(dwAppArrSize, 50)` yields t
   * after entries that were all read and passed over.
   */
  lemma ReadFpsFirst(mapped: bool, view: seq<byte>, target: string, t: int)
    ensures ReadFps(mapped, view, target) == Some(t) <==>
      mapped && |target| > 0 && ReadHeader(view).Some? &&
      exists i :: HitAfterPasses(Steps(view, ReadHeader(view).value, target), i, t)
  {
    if mapped && |target| > 0 && ReadHeader(view).Some? {
      var s := Steps(view, ReadHeader(view).value, target);
      if FirstHit(s, 0) == Some(t) {
        var i := FirstHitFound(s, 0, t);
        assert HitAfterPasses(s, i, t);
      }
      if exists i :: HitAfterPasses(s, i, t) {
        var i :| HitAfterPasses(s, i, t);
        FirstHitReaches(s, 0, i, t);
      }
    }
  }

  /**
   * Once entry 0 has been read from a 4 MiB window, the 32-bit offset computation does
   * not wrap: entry i of the scan is read at `dwAppArrOffset + i * dwAppEntrySize`.
   */
  lemma EntryOffsetUnwrapped(view: seq<byte>, h: Header, i: nat)
    requires |view| <= WindowSize
    requires EntryBytes(view, h, 0).Some?
    requires i < MaxScanned
    ensures EntryOffset(h, i) == h.arrOffset + i * h.entrySize
  {
    var a, e := h.arrOffset, h.entrySize;
    assert Int32(0 * Int32(e)) == 0;
    var a32 := Int32(a);
    Int32OfInRange(a32);
    assert EntryOffset(h, 0) == a32;
    assert a % Two32 == a;
    Int32OfInRange(a);
    Int32OfInRange(e);
    assert a + e <= WindowSize;
    assert i * e <= 49 * WindowSize by {
      MulMono(i, 49, e, WindowSize);
    }
    Int32OfInRange(i * e);
    Int32OfInRange(a + i * e);
  }

  /** The entry whose rate is returned was read at `dwAppArrOffset + i * dwAppEntrySize`. */
  lemma ReadFpsEntryAt(view: seq<byte>, target: string, t: int)
    requires |view| <= WindowSize
    requires ReadFps(true, view, target) == Some(t)
    ensures ReadHeader(view).Some?
    ensures var h := ReadHeader(view).value;
      exists i :: 0 <= i < ScanLimit(h) && EntryStep(view, h, target, i) == Hit(t)
        && EntryOffset(h, i) == h.arrOffset + i * h.entrySize
  {
    var h := ReadHeader(view).value;
    var s := Steps(view, h, target);
    var i := FirstHitFound(s, 0, t);
    assert s[0] != Fault;
    assert EntryBytes(view, h, 0).Some?;
    EntryOffsetUnwrapped(view, h, i);
    assert EntryStep(view, h, target, i) == s[i];
  }

  /**
   * Only the header and the first `min(dwAppArrSize, 50)` entries are inspected: two
   * windows that agree on those bytes give the same result, however large dwAppArrSize is.
   */
  lemma ReadFpsOnlyScannedEntries(mapped: bool, v1: seq<byte>, v2: seq<byte>, target: string)
    requires ReadHeader(v1) == ReadHeader(v2)
    requires ReadHeader(v1).Some? ==>
      forall i :: 0 <= i < ScanLimit(ReadHeader(v1).value) ==>
        EntryBytes(v1, ReadHeader(v1).value, i) == EntryBytes(v2, ReadHeader(v1).value, i)
    ensures ReadFps(mapped, v1, target) == ReadFps(mapped, v2, target)
  {
    if ReadHeader(v1).Some? {
      var h := ReadHeader(v1).value;
      forall i | 0 <= i < ScanLimit(h)
        ensures Steps(v1, h, target)[i] == Steps(v2, h, target)[i]
      {
        assert ReadEntry(v1, h, i) == ReadEntry(v2, h, i);
      }
      assert Steps(v1, h, target) == Steps(v2, h, target);
    }
  }

  /** An entry whose timing is not increasing, or that counts no frames, never yields a rate. */
  lemma InvalidTimingNeverQualifies(name: Option<seq<byte>>, tm: Timing, target: string)
    requires tm.time1 <= tm.time0 || tm.frames == 0
    ensures Qualify(AppEntry(name, Some(tm)), target) == None
  {
  }

  /** The converse of Qualify's contract: an entry that passes every test yields its rounded rate. */
  lemma QualifyWhenAccepted(e: AppEntry, target: string)
    requires e.AppEntry? && e.name.Some? && NameMatches(e.name.value, target) && e.timing.Some?
    requires e.timing.value.time1 > e.timing.value.time0 && e.timing.value.frames > 0
    requires InRange(e.timing.value.frames, e.timing.value.time1 - e.timing.value.time0)
    ensures Qualify(e, target) == Some(RoundTenths(e.timing.value.frames, e.timing.value.time1 - e.timing.value.time0))
  {
  }

  /** A matching entry with a valid timing block in range yields its rounded rate. */
  lemma QualifyHit(name: seq<byte>, tm: Timing, target: string)
    requires NameMatches(name, target)
    requires tm.time1 > tm.time0 && tm.frames > 0 && InRange(tm.frames, tm.time1 - tm.time0)
    ensures Qualify(AppEntry(Some(name), Some(tm)), target) == Some(RoundTenths(tm.frames, tm.time1 - tm.time0))
  {
    var e := AppEntry(Some(name), Some(tm));
    assert e.name.value == name && e.timing.value == tm;
    QualifyWhenAccepted(e, target);
  }

  /** A rate below 1 or above 1000 frames per second is discarded. */
  lemma OutOfRangeNeverQualifies(name: Option<seq<byte>>, tm: Timing, target: string)
    requires tm.time1 > tm.time0
    requires 1000 * tm.frames < tm.time1 - tm.time0 || 1000 * tm.frames > 1000 * (tm.time1 - tm.time0)
    ensures Qualify(AppEntry(name, Some(tm)), target) == None
  {
  }

  // ---------------------------------------------------------------------------
  // Path stripping and case

  lemma {:induction false} LastComponentOfPlain(s: string)
    requires forall k :: 0 <= k < |s| ==> !IsSeparator(s[k])
    ensures LastComponent(s) == s
  {
    if |s| > 0 {
      LastComponentOfPlain(s[..|s| - 1]);
      assert s == s[..|s| - 1] + [s[|s| - 1]];
    }
  }

  /** A name with no separator and no drive root is its own file name. */
  lemma FileNameOfPlain(s: string)
    requires forall k :: 0 <= k < |s| ==> !IsSeparator(s[k])
    requires !HasDriveRoot(s)
    ensures FileName(s) == s
  {
    LastComponentOfPlain(s);
  }

  /** A drive-relative path "X:" + base has the file name base. */
  lemma FileNameDriveRelative(drive: char, base: string)
    requires IsAsciiLetter(drive)
    requires forall k :: 0 <= k < |base| ==> !IsSeparator(base[k])
    ensures FileName([drive, ':'] + base) == base
  {
    var p := [drive, ':'] + base;
    LastComponentOfPlain(p);
    assert p[2..] == base;
  }

  lemma {:induction false} LastComponentAfterSeparator(dir: string, sep: char, base: string)
    requires IsSeparator(sep)
    requires forall k :: 0 <= k < |base| ==> !IsSeparator(base[k])
    ensures LastComponent(dir + [sep] + base) == base
    decreases |base|
  {
    var p := dir + [sep] + base;
    if |base| == 0 {
      assert p == dir + [sep];
    } else {
      var init := base[..|base| - 1];
      LastComponentAfterSeparator(dir, sep, init);
      assert p[..|p| - 1] == dir + [sep] + init;
      assert base == init + [base[|base| - 1]];
    }
  }

  /** Whatever the directory part, the file name is what follows the last separator. */
  lemma FileNameAfterSeparator(dir: string, sep: char, base: string)
    requires IsSeparator(sep)
    requires forall k :: 0 <= k < |base| ==> !IsSeparator(base[k])
    ensures FileName(dir + [sep] + base) == base
  {
    var p := dir + [sep] + base;
    LastComponentAfterSeparator(dir, sep, base);
    if |dir| == 0 {
      assert p[0] == sep;
    }
  }

  /**
   * A full path whose last separator is followed by `base` matches the target exactly
   * when `base` does: the directory part never takes part in the comparison.
   */
  lemma {:induction false} PathStrippedMatch(dir: string, sep: char, base: string, target: string)
    requires IsSeparator(sep)
    requires forall k :: 0 <= k < |base| ==> !IsSeparator(base[k])
    ensures EqualsIgnoreCase(FileName(dir + [sep] + base), target) <==> EqualsIgnoreCase(base, target)
  {
    FileNameAfterSeparator(dir, sep, base);
  }

  // ---------------------------------------------------------------------------
  // The producer's layout, as the inverse of the decoder

  function Zeros(n: nat): (z: seq<byte>)
    ensures |z| == n
  {
    seq(n, _ => 0)
  }

  predicate NoZero(b: seq<byte>)
  {
    forall k :: 0 <= k < |b| ==> b[k] != 0
  }

  /** A header as the producer writes it (signature and the other fields zero). */
  function EncodeHeader(h: Header): (b: seq<byte>)
    ensures |b| == HeaderSize
  {
    Zeros(8) + U32Bytes(h.entrySize) + U32Bytes(h.arrOffset) + U32Bytes(h.arrSize) + Zeros(HeaderSize - 20)
  }

  /** An entry of `size` bytes holding a zero-terminated name and a timing block. */
  function EncodeEntry(name: seq<byte>, tm: Timing, size: nat): (e: seq<byte>)
    requires NameStart + |name| < TimingOffset
    requires TimingOffset + TimingBlockSize <= size
    ensures |e| == size
  {
    Zeros(NameStart) + name + Zeros(TimingOffset - NameStart - |name|)
      + U32Bytes(tm.time0) + U32Bytes(tm.time1) + U32Bytes(tm.frames)
      + Zeros(size - TimingOffset - 12)
  }

  lemma HeaderRoundTrip(h: Header, rest: seq<byte>)
    ensures ReadHeader(EncodeHeader(h) + rest) == Some(h)
  {
    var v := EncodeHeader(h) + rest;
    assert v[0x08..0x0C] == U32Bytes(h.entrySize);
    assert v[0x0C..0x10] == U32Bytes(h.arrOffset);
    assert v[0x10..0x14] == U32Bytes(h.arrSize);
    U32RoundTrip(v, 0x08, h.entrySize);
    U32RoundTrip(v, 0x0C, h.arrOffset);
    U32RoundTrip(v, 0x10, h.arrSize);
  }

  lemma EntryRoundTrip(name: seq<byte>, tm: Timing, size: nat)
    requires 0 < |name| && NoZero(name)
    requires NameStart + |name| < TimingOffset
    requires TimingOffset + TimingBlockSize <= size
    ensures DecodeEntry(EncodeEntry(name, tm, size)) == AppEntry(Some(name), Some(tm))
  {
    var e := EncodeEntry(name, tm, size);
    var end := NameStart + |name|;
    assert e[end] == 0;
    forall k | NameStart <= k < end ensures e[k] != 0 {
      assert e[k] == name[k - NameStart];
    }
    var z := IndexOfZero(e, NameStart);
    assert z == end;
    assert e[NameStart..end] == name;
    assert e[TimingOffset..TimingOffset + 4] == U32Bytes(tm.time0);
    assert e[TimingOffset + 4..TimingOffset + 8] == U32Bytes(tm.time1);
    assert e[TimingOffset + 8..TimingOffset + 12] == U32Bytes(tm.frames);
    U32RoundTrip(e, TimingOffset, tm.time0);
    U32RoundTrip(e, TimingOffset + 4, tm.time1);
    U32RoundTrip(e, TimingOffset + 8, tm.frames);
  }

  // ---------------------------------------------------------------------------
  // A concrete window

  /** The bytes of a string of 8-bit characters (each code taken modulo 256). */
  function AsciiBytes(s: string): (b: seq<byte>)
    ensures |b| == |s|
  {
    seq(|s|, k requires 0 <= k < |s| => s[k] as int % 0x100)
  }

  lemma AsciiRoundTrip(s: string)
    requires forall k :: 0 <= k < |s| ==> s[k] as int < 0x100
    ensures ByteChars(AsciiBytes(s)) == s
  {
  }

  const ScenarioEntrySize: nat := TimingOffset + TimingBlockSize

  /**
   * A window whose table holds two entries: "explorer.exe" with dwTime1 < dwTime0, then
   * "game.exe" with 60 frames in 1000 ms; `rest` is whatever follows the table.
   */
  function Scenario(rest: seq<byte>): (v: seq<byte>)
    ensures |v| == HeaderSize + 2 * ScenarioEntrySize + |rest|
  {
    TwoEntries(AsciiBytes("explorer.exe"), Timing(1000, 500, 60), AsciiBytes("game.exe"),
      Timing(0, 1000, 60), ScenarioEntrySize, rest)
  }

  /** A table of two entries written right after the header. */
  function TwoEntries(n0: seq<byte>, tm0: Timing, n1: seq<byte>, tm1: Timing, size: nat, rest: seq<byte>): seq<byte>
    requires NameStart + |n0| < TimingOffset && NameStart + |n1| < TimingOffset
    requires TimingOffset + TimingBlockSize <= size < Two31
  {
    EncodeHeader(Header(size, HeaderSize, 2)) + EncodeEntry(n0, tm0, size) + EncodeEntry(n1, tm1, size) + rest
  }

  lemma SmallTableOffsets(size: nat)
    requires size <= 0x1000
    ensures EntryOffset(Header(size, HeaderSize, 2), 0) == HeaderSize
    ensures EntryOffset(Header(size, HeaderSize, 2), 1) == HeaderSize + size
  {
    Int32OfInRange(HeaderSize);
    Int32OfInRange(size);
    assert Int32(0 * Int32(size)) == 0;
    Int32OfInRange(1 * size);
    Int32OfInRange(HeaderSize + size);
  }

  lemma ReadEntryFrom(v: seq<byte>, h: Header, i: nat, e: seq<byte>)
    requires |e| == h.entrySize
    requires 0 <= EntryOffset(h, i) && EntryOffset(h, i) + |e| <= |v|
    requires v[EntryOffset(h, i)..EntryOffset(h, i) + |e|] == e
    ensures ReadEntry(v, h, i) == DecodeEntry(e)
  {
  }

  /** The header and both entries of such a table decode to what was written. */
  lemma TwoEntriesLayout(n0: seq<byte>, tm0: Timing, n1: seq<byte>, tm1: Timing, size: nat, rest: seq<byte>)
    requires 0 < |n0| && NoZero(n0) && 0 < |n1| && NoZero(n1)
    requires NameStart + |n0| < TimingOffset && NameStart + |n1| < TimingOffset
    requires TimingOffset + TimingBlockSize <= size <= 0x1000
    ensures var v := TwoEntries(n0, tm0, n1, tm1, size, rest);
      var h := Header(size, HeaderSize, 2);
      ReadHeader(v) == Some(h)
      && ReadEntry(v, h, 0) == AppEntry(Some(n0), Some(tm0))
      && ReadEntry(v, h, 1) == AppEntry(Some(n1), Some(tm1))
  {
    var h := Header(size, HeaderSize, 2);
    var e0 := EncodeEntry(n0, tm0, size);
    var e1 := EncodeEntry(n1, tm1, size);
    var v := TwoEntries(n0, tm0, n1, tm1, size, rest);
    var hb := EncodeHeader(h);
    assert v == hb + (e0 + e1 + rest);
    HeaderRoundTrip(h, e0 + e1 + rest);
    SmallTableOffsets(size);
    assert v[HeaderSize..HeaderSize + size] == e0;
    assert v[HeaderSize + size..HeaderSize + 2 * size] == e1;
    ReadEntryFrom(v, h, 0, e0);
    ReadEntryFrom(v, h, 1, e1);
    EntryRoundTrip(n0, tm0, size);
    EntryRoundTrip(n1, tm1, size);
  }

  lemma ScenarioNamesNonZero()
    ensures NoZero(AsciiBytes("explorer.exe")) && NoZero(AsciiBytes("game.exe"))
  {
    var n0, n1 := AsciiBytes("explorer.exe"), AsciiBytes("game.exe");
    forall k | 0 <= k < |n0| ensures n0[k] != 0 { assert n0[k] == "explorer.exe"[k] as int; }
    forall k | 0 <= k < |n1| ensures n1[k] != 0 { assert n1[k] == "game.exe"[k] as int; }
  }

  lemma GameNames()
    ensures NameMatches(AsciiBytes("game.exe"), "game.exe")
    ensures !NameMatches(AsciiBytes("game.exe"), "other.exe")
    ensures !NameMatches(AsciiBytes("explorer.exe"), "other.exe")
  {
    AsciiRoundTrip("game.exe");
    AsciiRoundTrip("explorer.exe");
    FileNameOfPlain("game.exe");
    FileNameOfPlain("explorer.exe");
    assert Upper("game.exe")[0] != Upper("other.exe")[0];
    assert |"explorer.exe"| != |"other.exe"|;
  }

  /** A table of two entries is read as the first hit among what its two entries yield. */
  lemma TwoEntriesRead(n0: seq<byte>, tm0: Timing, n1: seq<byte>, tm1: Timing, size: nat, rest: seq<byte>,
                       target: string)
    requires 0 < |n0| && NoZero(n0) && 0 < |n1| && NoZero(n1)
    requires NameStart + |n0| < TimingOffset && NameStart + |n1| < TimingOffset
    requires TimingOffset + TimingBlockSize <= size <= 0x1000
    requires |target| > 0
    ensures ReadFps(true, TwoEntries(n0, tm0, n1, tm1, size, rest), target)
      == FirstHit([StepOf(AppEntry(Some(n0), Some(tm0)), target), StepOf(AppEntry(Some(n1), Some(tm1)), target)], 0)
  {
    var v := TwoEntries(n0, tm0, n1, tm1, size, rest);
    var h := Header(size, HeaderSize, 2);
    TwoEntriesLayout(n0, tm0, n1, tm1, size, rest);
    var steps := Steps(v, h, target);
    assert steps[0] == EntryStep(v, h, target, 0) == StepOf(AppEntry(Some(n0), Some(tm0)), target);
    assert steps[1] == EntryStep(v, h, target, 1) == StepOf(AppEntry(Some(n1), Some(tm1)), target);
    assert steps == [steps[0], steps[1]];
  }

  /** 60 frames in 1000 ms is 60.0 fps, 600 tenths. */
  lemma SixtyFps()
    ensures InRange(60, 1000) && RoundTenths(60, 1000) == 600
  {
  }

  /** The first entry of the scenario, with dwTime1 < dwTime0, yields nothing. */
  lemma ExplorerPassed(target: string)
    ensures Qualify(AppEntry(Some(AsciiBytes("explorer.exe")), Some(Timing(1000, 500, 60))), target) == None
  {
    InvalidTimingNeverQualifies(Some(AsciiBytes("explorer.exe")), Timing(1000, 500, 60), target);
  }

  /** The second entry of the scenario yields 60.0 fps for "game.exe". */
  lemma GameQualifies()
    ensures Qualify(AppEntry(Some(AsciiBytes("game.exe")), Some(Timing(0, 1000, 60))), "game.exe") == Some(600)
  {
    GameNames();
    SixtyFps();
    QualifyHit(AsciiBytes("game.exe"), Timing(0, 1000, 60), "game.exe");
  }

  /** Over two steps, a pass followed by a hit yields that hit, and two passes yield nothing. */
  lemma FirstHitOfTwo(s0: Step, s1: Step)
    ensures s0 == Pass && s1.Hit? ==> FirstHit([s0, s1], 0) == Some(s1.tenths)
    ensures s0 == Pass && s1 == Pass ==> FirstHit([s0, s1], 0) == None
  {
    var steps := [s0, s1];
    if s0 == Pass {
      assert FirstHit(steps, 2) == None;
      assert FirstHit(steps, 0) == FirstHit(steps, 1);
    }
  }

  /** A two-entry table whose first entry yields nothing and whose second yields t reads t. */
  lemma TwoEntriesPassThenHit(n0: seq<byte>, tm0: Timing, n1: seq<byte>, tm1: Timing, size: nat, rest: seq<byte>,
                              target: string, t: int)
    requires 0 < |n0| && NoZero(n0) && 0 < |n1| && NoZero(n1)
    requires NameStart + |n0| < TimingOffset && NameStart + |n1| < TimingOffset
    requires TimingOffset + TimingBlockSize <= size <= 0x1000
    requires |target| > 0
    requires Qualify(AppEntry(Some(n0), Some(tm0)), target) == None
    requires Qualify(AppEntry(Some(n1), Some(tm1)), target) == Some(t)
    ensures ReadFps(true, TwoEntries(n0, tm0, n1, tm1, size, rest), target) == Some(t)
  {
    TwoEntriesRead(n0, tm0, n1, tm1, size, rest, target);
    FirstHitOfTwo(StepOf(AppEntry(Some(n0), Some(tm0)), target), StepOf(AppEntry(Some(n1), Some(tm1)), target));
  }

  /** A two-entry table where neither entry yields a rate reads nothing. */
  lemma TwoEntriesNoHit(n0: seq<byte>, tm0: Timing, n1: seq<byte>, tm1: Timing, size: nat, rest: seq<byte>,
                        target: string)
    requires 0 < |n0| && NoZero(n0) && 0 < |n1| && NoZero(n1)
    requires NameStart + |n0| < TimingOffset && NameStart + |n1| < TimingOffset
    requires TimingOffset + TimingBlockSize <= size <= 0x1000
    requires |target| > 0
    requires Qualify(AppEntry(Some(n0), Some(tm0)), target) == None
    requires Qualify(AppEntry(Some(n1), Some(tm1)), target) == None
    ensures ReadFps(true, TwoEntries(n0, tm0, n1, tm1, size, rest), target) == None
  {
    TwoEntriesRead(n0, tm0, n1, tm1, size, rest, target);
    FirstHitOfTwo(StepOf(AppEntry(Some(n0), Some(tm0)), target), StepOf(AppEntry(Some(n1), Some(tm1)), target));
  }

  /** An entry whose name does not match the target yields nothing. */
  lemma OtherNameNeverQualifies(name: seq<byte>, tm: Timing, target: string)
    requires !NameMatches(name, target)
    ensures Qualify(AppEntry(Some(name), Some(tm)), target) == None
  {
  }

  /** The invalid first entry is passed over and "game.exe" reads 60.0 fps. */
  lemma ScenarioReadsGame(rest: seq<byte>)
    ensures ReadFps(true, Scenario(rest), "game.exe") == Some(600)
  {
    ScenarioNamesNonZero();
    ExplorerPassed("game.exe");
    GameQualifies();
    TwoEntriesPassThenHit(AsciiBytes("explorer.exe"), Timing(1000, 500, 60), AsciiBytes("game.exe"),
      Timing(0, 1000, 60), ScenarioEntrySize, rest, "game.exe", 600);
  }

  /** No entry of the scenario is called "other.exe". */
  lemma ScenarioReadsOther(rest: seq<byte>)
    ensures ReadFps(true, Scenario(rest), "other.exe") == None
  {
    ScenarioNamesNonZero();
    GameNames();
    OtherNameNeverQualifies(AsciiBytes("explorer.exe"), Timing(1000, 500, 60), "other.exe");
    OtherNameNeverQualifies(AsciiBytes("game.exe"), Timing(0, 1000, 60), "other.exe");
    TwoEntriesNoHit(AsciiBytes("explorer.exe"), Timing(1000, 500, 60), AsciiBytes("game.exe"),
      Timing(0, 1000, 60), ScenarioEntrySize, rest, "other.exe");
  }

  // ---------------------------------------------------------------------------
  // The reader object

  /**
   * RTSSSharedMemory. Connect's probing of the three region names goes through the
   * operating system, so an object is created in the state Connect left it in.
   */
  class RtssSharedMemory {
    /** `mappedView != IntPtr.Zero`. */
    var mapped: bool

    constructor (connected: bool)
      ensures mapped == connected
    {
      mapped := connected;
    }

    /**
     * The scan as the source runs it: a loop with early returns over the live window.
     * The result is in tenths of a frame per second.
     */
    method ReadFpsForProcess(window: seq<byte>, target: string) returns (fps: Option<int>)
      ensures fps == ReadFps(mapped, window, target)
    {
      if !mapped || |target| == 0 {
        return None;
      }
      if |window| < HeaderSize {
        return None;
      }
      var h := Header(U32At(window, 0x08), U32At(window, 0x0C), U32At(window, 0x10));
      ghost var steps := Steps(window, h, target);
      assert ReadFps(mapped, window, target) == FirstHit(steps, 0);
      var n := if h.arrSize < MaxScanned then h.arrSize else MaxScanned;
      var i := 0;
      while i < n
        invariant 0 <= i <= n == |steps|
        invariant FirstHit(steps, i) == FirstHit(steps, 0)
      {
        var entry := ReadEntry(window, h, i);
        ScanVisits(window, h, target, i);
        if entry.Unreadable? {
          return None;
        }
        var rate := Qualify(entry, target);
        if rate.Some? {
          return rate;
        }
        i := i + 1;
      }
      return None;
    }
  }
}
