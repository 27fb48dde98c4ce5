/**
 * The display firmware (esp32c3/src/main.cpp): the global state updated by
 * readSerialData, addFPSData and addCPUUsageData, the graph traversal, and the decisions
 * handle_oled takes each frame (waiting screen or statistics, backlight, colours).
 *
 * Reading and parsing the serial line, the panel and every drawing call are left out:
 * a parsed record arrives as a value, `millis()` as a parameter, and a frame is
 * modelled by what it would show.
 */
module Display {
  import opened Wrappers
  import opened Words
  import opened SampleRing
  import opened GraphGeometry
  import Telemetry

  /** DATA_TIMEOUT: after this many milliseconds without a record the waiting screen returns. */
  const DataTimeout: int := 10000
  /** GRAPH_UPDATE_INTERVAL: graph samples are taken at most this often, in milliseconds. */
  const GraphUpdateInterval: int := 40
  /** The initial value of `oldBrightness` and of `hwData.brightness`. */
  const InitialBrightness: int := 127

  /** RGB565 colours of the statistics screen. */
  const TempHot: int := 0xFD20
  const TempCool: int := 0x04f3
  const FpsGood: int := 0x07E0
  const FpsBad: int := 0xF800

  // ---------------------------------------------------------------------------
  // Time

  /** `millis() - since` on 32-bit unsigned longs: the time elapsed, across a wrap of the clock. */
  function Elapsed(now: u32, since: u32): (e: u32)
    ensures (since + e) % Two32 == now
  {
    (now - since) % Two32
  }

  /** The waiting screen is shown when no record has arrived yet or the last one is stale. */
  predicate ShowWaiting(dataValid: bool, lastUpdate: u32, now: u32)
  {
    !dataValid || Elapsed(now, lastUpdate) > DataTimeout
  }

  /**
   * `d` milliseconds after a record, the data counts as stale exactly when d exceeds
   * 10000, even when the 32-bit clock wraps in between.
   */
  lemma StaleExactlyAfterTimeout(lastUpdate: u32, d: int)
    requires 0 <= d < Two32
    ensures ShowWaiting(true, lastUpdate, (lastUpdate + d) % Two32) <==> d > DataTimeout
  {
    var now := (lastUpdate + d) % Two32;
    if lastUpdate + d < Two32 {
      assert now == lastUpdate + d;
    } else {
      assert now == lastUpdate + d - Two32;
    }
    assert Elapsed(now, lastUpdate) == d;
  }

  // ---------------------------------------------------------------------------
  // Received data

  /** The struct HardwareData. */
  datatype HardwareData = HardwareData(
    cpuTemp: real, gpuTemp: real, fps: real, gpuFanSpeed: real, brightness: int,
    cpuLoad: real, timestamp: int, lastUpdate: u32, dataValid: bool)

  /** The field initialisers of HardwareData. */
  const InitialHardwareData: HardwareData :=
    HardwareData(-1.0, -1.0, -1.0, -1.0, InitialBrightness, -1.0, 0, 0, false)

  /** The values read from a parsed JSON record; ArduinoJson reads a missing key as 0. */
  datatype Received = Received(
    cpuTemp: real, gpuTemp: real, fps: real, gpuFanSpeed: real, brightness: int,
    cpuLoad: real, timestamp: int)

  /** What the display reads from a record the PC program sent: it has no `brightness` and no `cpu_load`. */
  function FromWire(w: Telemetry.WireRecord): (r: Received)
    ensures r.brightness == 0 && r.cpuLoad == 0.0
    ensures r.cpuTemp == w.cpuTemp && r.gpuTemp == w.gpuTemp && r.fps == w.fps
    ensures r.gpuFanSpeed == w.gpuFanSpeed as real && r.timestamp == w.timestamp
  {
    Received(w.cpuTemp, w.gpuTemp, w.fps, w.gpuFanSpeed as real, 0, 0.0, w.timestamp)
  }

  /** hwData after a record was parsed at time `now` (main.cpp:334-342). */
  function Stored(r: Received, now: u32): (hw: HardwareData)
    ensures hw.dataValid && hw.lastUpdate == now
  {
    HardwareData(r.cpuTemp, r.gpuTemp, r.fps, r.gpuFanSpeed, r.brightness, r.cpuLoad, r.timestamp, now, true)
  }

  // ---------------------------------------------------------------------------
  // What a frame shows

  /** The temperature colour: hot above 80 degrees. */
  function TempColour(t: real): (c: int)
    ensures c == TempHot <==> t > 80.0
    ensures c == TempHot || c == TempCool
  {
    if t > 80.0 then TempHot else TempCool
  }

  /** The fan colour: hot above 2000 RPM. */
  function FanColour(rpm: real): (c: int)
    ensures c == TempHot <==> rpm > 2000.0
    ensures c == TempHot || c == TempCool
  {
    if rpm > 2000.0 then TempHot else TempCool
  }

  /** The frame-rate colour: green above 60, orange above 30, red otherwise. */
  function FpsColour(fps: real): (c: int)
    ensures c == FpsGood <==> fps > 60.0
    ensures c == TempHot <==> 30.0 < fps <= 60.0
    ensures c == FpsBad <==> fps <= 30.0
  {
    if fps > 60.0 then FpsGood else if fps > 30.0 then TempHot else FpsBad
  }

  /** How good a frame-rate colour is: red 0, orange 1, green 2. */
  function FpsGrade(colour: int): int
  {
    if colour == FpsGood then 2 else if colour == TempHot then 1 else 0
  }

  /**
   * The colours never get worse as the reading improves: a higher frame rate never
   * gets a worse colour, and a hotter or faster reading that is already "hot" stays so.
   */
  lemma ColoursMonotone(a: real, b: real)
    requires a <= b
    ensures FpsGrade(FpsColour(a)) <= FpsGrade(FpsColour(b))
    ensures TempColour(a) == TempHot ==> TempColour(b) == TempHot
    ensures FanColour(a) == TempHot ==> FanColour(b) == TempHot
  {
  }

  /** One value on the screen: drawn in a colour, or a placeholder drawn dim. */
  datatype Field = Shown(value: real, colour: int) | Placeholder(text: string)

  /** drawTempText: a temperature is shown only when above 0, otherwise "N/A". */
  function TempField(t: real): (f: Field)
    ensures f.Shown? <==> t > 0.0
    ensures f.Shown? ==> f.value == t && f.colour == TempColour(t)
    ensures f.Placeholder? ==> f.text == "N/A"
  {
    if t > 0.0 then Shown(t, TempColour(t)) else Placeholder("N/A")
  }

  /** The fan speed is shown only when above 0, otherwise "0". */
  function FanField(rpm: real): (f: Field)
    ensures f.Shown? <==> rpm > 0.0
    ensures f.Shown? ==> f.value == rpm && f.colour == FanColour(rpm)
    ensures f.Placeholder? ==> f.text == "0"
  {
    if rpm > 0.0 then Shown(rpm, FanColour(rpm)) else Placeholder("0")
  }

  /** The frame rate is shown only when above 0, otherwise "N/A". */
  function FpsField(fps: real): (f: Field)
    ensures f.Shown? <==> fps > 0.0
    ensures f.Shown? ==> f.value == fps && f.colour == FpsColour(fps)
    ensures f.Placeholder? ==> f.text == "N/A"
  {
    if fps > 0.0 then Shown(fps, FpsColour(fps)) else Placeholder("N/A")
  }

  datatype GraphKind = FpsGraph | CpuUsageGraph

  datatype Screen =
    | Waiting
    | Stats(graph: GraphKind, gpuTemp: Field, gpuFan: Field, cpuTemp: Field, fps: Field)

  /** The statistics screen for the received data (main.cpp:382-426). */
  function StatsScreen(hw: HardwareData): (sc: Screen)
    ensures sc.Stats?
    ensures sc.graph == FpsGraph <==> hw.fps >= 0.0
    ensures sc.gpuTemp.Shown? <==> hw.gpuTemp > 0.0
    ensures sc.cpuTemp.Shown? <==> hw.cpuTemp > 0.0
    ensures sc.gpuFan.Shown? <==> hw.gpuFanSpeed > 0.0
    ensures sc.fps.Shown? <==> hw.fps > 0.0
    ensures sc.gpuTemp.Shown? ==> sc.gpuTemp.value == hw.gpuTemp
    ensures sc.cpuTemp.Shown? ==> sc.cpuTemp.value == hw.cpuTemp
    ensures sc.gpuFan.Shown? ==> sc.gpuFan.value == hw.gpuFanSpeed
    ensures sc.fps.Shown? ==> sc.fps.value == hw.fps
  {
    Stats(if hw.fps >= 0.0 then FpsGraph else CpuUsageGraph,
          TempField(hw.gpuTemp), FanField(hw.gpuFanSpeed), TempField(hw.cpuTemp), FpsField(hw.fps))
  }

  /** The field a value sent by the PC program ends up as: shown when present, a placeholder when null. */
  function Expected(x: Option<real>, shown: real -> Field, placeholder: string): Field
  {
    if x.Some? then shown(x.value) else Placeholder(placeholder)
  }

  /**
   * End to end: a record sent by the PC program, with the values its getters and its
   * frame-rate reader can produce, shows every present value and a placeholder for every
   * null one; the frame-rate graph is drawn exactly when a frame rate was sent.
   */
  lemma PcRecordOnScreen(cpuTemp: Option<real>, gpuTemp: Option<real>, fps: Option<real>, gpuFan: Option<int>,
                         timestamp: int, now: u32)
    requires cpuTemp.Some? ==> cpuTemp.value > 0.0
    requires gpuTemp.Some? ==> gpuTemp.value > 0.0
    requires fps.Some? ==> fps.value >= 1.0
    requires gpuFan.Some? ==> gpuFan.value > 0
    ensures var hw := Stored(FromWire(Telemetry.Record(cpuTemp, gpuTemp, fps, gpuFan, timestamp)), now);
      var screen := StatsScreen(hw);
      screen.gpuTemp == Expected(gpuTemp, TempField, "N/A")
      && screen.cpuTemp == Expected(cpuTemp, TempField, "N/A")
      && screen.fps == Expected(fps, FpsField, "N/A")
      && screen.gpuFan == Expected(if gpuFan.Some? then Some(gpuFan.value as real) else None, FanField, "0")
      && (screen.graph == FpsGraph <==> fps.Some?)
  {
  }

  // ---------------------------------------------------------------------------
  // The backlight

  /** The backlight pin and the cached `oldBrightness`; `pin` is None until the first analogWrite. */
  datatype Backlight = Backlight(pin: Option<int>, cached: int)

  /**
   * The cache describes the pin: it holds the last value written, or the initial 127
   * while the pin still carries the HIGH level set in setup.
   */
  predicate Coherent(b: Backlight)
  {
    if b.pin.None? then b.cached == InitialBrightness else b.pin.value == b.cached
  }

  /**
   * The backlight handling of handle_oled as written (main.cpp:368-380): the waiting
   * screen writes 0 to the pin but leaves `oldBrightness` alone.
   */
  function BacklightStepAsWritten(b: Backlight, waiting: bool, brightness: int): (b': Backlight)
    ensures waiting ==> b'.pin == Some(0) && b'.cached == b.cached
    ensures !waiting ==> b'.cached == brightness
    ensures !waiting && brightness != b.cached ==> b'.pin == Some(brightness)
    ensures !waiting && brightness == b.cached ==> b' == b
  {
    if waiting then Backlight(Some(0), b.cached)
    else if brightness != b.cached then Backlight(Some(brightness), brightness)
    else b
  }

  /**
   * A backlight at 200 that goes through one waiting frame keeps the 0 written then on
   * the following statistics frames while the requested brightness is still 200.
   */
  lemma StaleBacklightAsWritten()
    ensures var b1 := BacklightStepAsWritten(Backlight(None, InitialBrightness), false, 200);
      var b2 := BacklightStepAsWritten(b1, true, 200);
      var b3 := BacklightStepAsWritten(b2, false, 200);
      b1.pin == Some(200) && b2.pin == Some(0) && b3.pin == Some(0) && !Coherent(b3)
  {
  }

  /**
   * The corrected backlight handling: the waiting screen records the 0 it writes, so
   * the next statistics frame writes its brightness again.
   */
  function BacklightStep(b: Backlight, waiting: bool, brightness: int): (b': Backlight)
    ensures Coherent(b) ==> Coherent(b')
    ensures waiting ==> b'.pin == Some(0)
    ensures !waiting ==> b'.cached == brightness
    ensures !waiting && brightness == b.cached ==> b' == b
  {
    if waiting then Backlight(Some(0), 0)
    else if brightness != b.cached then Backlight(Some(brightness), brightness)
    else b
  }

  /** The backlight after a run of frames, each waiting or not with the brightness it saw. */
  function BacklightRun(b: Backlight, frames: seq<(bool, int)>): Backlight
    decreases |frames|
  {
    if |frames| == 0 then b
    else BacklightRun(BacklightStep(b, frames[0].0, frames[0].1), frames[1..])
  }

  /**
   * Whatever frames come, the cache keeps describing the pin, and after a statistics
   * frame the pin carries that frame's brightness, except that a brightness of 127
   * asked for before anything was written leaves the pin at the HIGH level from setup.
   */
  lemma {:induction false} BacklightRunShowsBrightness(b: Backlight, frames: seq<(bool, int)>)
    requires Coherent(b)
    ensures Coherent(BacklightRun(b, frames))
    ensures |frames| > 0 && !frames[|frames| - 1].0 ==> BacklightRun(b, frames).cached == frames[|frames| - 1].1
    ensures |frames| > 0 && !frames[|frames| - 1].0 ==>
      BacklightRun(b, frames).pin == Some(frames[|frames| - 1].1)
      || (BacklightRun(b, frames).pin.None? && frames[|frames| - 1].1 == InitialBrightness)
    decreases |frames|
  {
    if |frames| > 0 {
      var b' := BacklightStep(b, frames[0].0, frames[0].1);
      BacklightRunShowsBrightness(b', frames[1..]);
      if |frames| == 1 {
        assert BacklightRun(b', frames[1..]) == b';
      } else {
        assert frames[1..][|frames[1..]| - 1] == frames[|frames| - 1];
      }
    }
  }

  /**
   * The cache's initial 127 does not describe the HIGH level setup writes: a first
   * record asking for 127 writes nothing, and the pin stays HIGH.
   */
  lemma FirstRecordAt127KeepsSetupLevel()
    ensures BacklightStep(Backlight(None, InitialBrightness), false, InitialBrightness).pin.None?
    ensures BacklightStepAsWritten(Backlight(None, InitialBrightness), false, InitialBrightness).pin.None?
  {
  }

  /**
   * The PC program's records carry no `brightness`, which the display then reads as 0:
   * the first statistics frame after such a record writes 0 to the backlight pin.
   */
  lemma PcRecordSetsBacklightToZero(b: Backlight, w: Telemetry.WireRecord, now: u32)
    requires Coherent(b)
    ensures BacklightStep(b, false, Stored(FromWire(w), now).brightness) == Backlight(Some(0), 0)
  {
  }

  // ---------------------------------------------------------------------------
  // The graph traversal

  /**
   * The segment loop shared by drawFPSGraph (main.cpp:274-300) and drawCPUUsageGraph
   * (main.cpp:156-181): it walks the ring from the oldest sample and joins consecutive
   * points.
   */
  method GraphSegments(history: array<real>, index: int, count: int, sc: Scale) returns (segs: seq<Segment>)
    requires history.Length == MaxSamples && RingShape(index, count) && sc.hi > sc.lo
    ensures segs == Polyline(Window(history[..], index, count), sc)
  {
    ghost var w := Window(history[..], index, count);
    segs := [];
    if count > 1 {
      var startIdx := (index - count + MaxSamples) % MaxSamples;
      var i := 1;
      while i < count
        invariant 1 <= i <= count && |segs| == i - 1
        invariant forall k :: 0 <= k < i - 1 ==> segs[k] == PolylineSegment(w, sc, k)
      {
        var idx1 := (startIdx + i - 1) % MaxSamples;
        var idx2 := (startIdx + i) % MaxSamples;
        var v1 := history[idx1];
        var v2 := history[idx2];
        assert v1 == w[i - 1] && v2 == w[i] by {
          assert idx1 == Slot(index, count, i - 1) && idx2 == Slot(index, count, i);
        }
        segs := segs + [Segment(XCoord(i - 1, count), YCoord(v1, sc), XCoord(i, count), YCoord(v2, sc))];
        assert segs[i - 1] == PolylineSegment(w, sc, i - 1);
        i := i + 1;
      }
    }
    PolylineByElements(w, sc, segs);
  }

  /**
   * The auto-scale step of addFPSData (main.cpp:240-252): one pass over the filled slots
   * for their minimum and maximum, then the padding.
   */
  method ScanScale(history: array<real>, count: int) returns (sc: Scale)
    requires 0 < count <= history.Length
    ensures sc == AutoScale(history[..count])
  {
    var lo, hi := history[0], history[0];
    var i := 0;
    while i < count
      invariant 0 <= i <= count
      invariant i == 0 ==> lo == history[0] && hi == history[0]
      invariant i > 0 ==> lo == SeqMin(history[..i]) && hi == SeqMax(history[..i])
    {
      assert history[..i + 1][..i] == history[..i];
      if history[i] < lo {
        lo := history[i];
      }
      if history[i] > hi {
        hi := history[i];
      }
      i := i + 1;
    }

    var range := hi - lo;
    if range < MinSpread {
      range := MinSpread;
    }
    sc := Scale(if lo - range * Padding > 0.0 then lo - range * Padding else 0.0, hi + range * Padding);
  }

  // ---------------------------------------------------------------------------
  // The firmware's global state

  class Dashboard {
    const fpsHistory: array<real>
    const cpuUsageHistory: array<real>
    var fpsIndex: int
    var fpsCount: int
    var minFPS: real
    var maxFPS: real
    var cpuUsageIndex: int
    var cpuUsageCount: int
    var minCPU: real
    var maxCPU: real
    var hwData: HardwareData
    var lastGraphUpdate: u32
    var oldBrightness: int
    /** The last value written to the backlight pin with analogWrite; None before the first. */
    var backlightPin: Option<int>

    function FpsScale(): Scale
      reads this`minFPS, this`maxFPS
    {
      Scale(minFPS, maxFPS)
    }

    function CpuUsageScale(): Scale
      reads this`minCPU, this`maxCPU
    {
      Scale(minCPU, maxCPU)
    }

    function Light(): Backlight
      reads this`backlightPin, this`oldBrightness
    {
      Backlight(backlightPin, oldBrightness)
    }

    /** The state of the frame-rate history apart from the array. */
    function FpsState(): (int, int, real, real)
      reads this`fpsIndex, this`fpsCount, this`minFPS, this`maxFPS
    {
      (fpsIndex, fpsCount, minFPS, maxFPS)
    }

    /** The state of the CPU-usage history apart from the array. */
    function CpuState(): (int, int, real, real)
      reads this`cpuUsageIndex, this`cpuUsageCount, this`minCPU, this`maxCPU
    {
      (cpuUsageIndex, cpuUsageCount, minCPU, maxCPU)
    }

    /** The rest of the state: received data, graph clock and backlight. */
    function LinkState(): (HardwareData, u32, Backlight)
      reads this`hwData, this`lastGraphUpdate, this`backlightPin, this`oldBrightness
    {
      (hwData, lastGraphUpdate, Light())
    }

    /** The frame-rate history is a valid one (see SampleRing.FpsHistory). */
    predicate FpsValid()
      reads this`fpsIndex, this`fpsCount, this`minFPS, this`maxFPS, fpsHistory
    {
      FpsHistory(fpsHistory[..], fpsIndex, fpsCount, FpsScale())
    }

    /** The CPU-usage history is a valid one (see SampleRing.CpuHistory). */
    predicate CpuValid()
      reads this`cpuUsageIndex, this`cpuUsageCount, this`minCPU, this`maxCPU, cpuUsageHistory
    {
      CpuHistory(cpuUsageHistory[..], cpuUsageIndex, cpuUsageCount, CpuUsageScale())
    }

    predicate Valid()
      reads this`fpsIndex, this`fpsCount, this`minFPS, this`maxFPS, fpsHistory
      reads this`cpuUsageIndex, this`cpuUsageCount, this`minCPU, this`maxCPU, cpuUsageHistory
      reads this`backlightPin, this`oldBrightness
    {
      fpsHistory != cpuUsageHistory && FpsValid() && CpuValid() && Coherent(Light())
    }

    /** The frame-rate samples in drawing order, oldest first. */
    function FpsWindow(): seq<real>
      requires FpsValid()
      reads this`fpsIndex, this`fpsCount, this`minFPS, this`maxFPS, fpsHistory
    {
      Window(fpsHistory[..], fpsIndex, fpsCount)
    }

    /** The CPU-usage samples in drawing order, oldest first. */
    function CpuWindow(): seq<real>
      requires CpuValid()
      reads this`cpuUsageIndex, this`cpuUsageCount, this`minCPU, this`maxCPU, cpuUsageHistory
    {
      Window(cpuUsageHistory[..], cpuUsageIndex, cpuUsageCount)
    }

    /** The globals after their initialisers and setup(): both histories zeroed and empty. */
    constructor ()
      ensures Valid() && fresh(fpsHistory) && fresh(cpuUsageHistory)
      ensures FpsWindow() == [] && CpuWindow() == []
      ensures FpsScale() == InitialFpsScale && hwData == InitialHardwareData
      ensures lastGraphUpdate == 0 && Light() == Backlight(None, InitialBrightness)
    {
      fpsHistory := new real[MaxSamples](_ => 0.0);
      cpuUsageHistory := new real[MaxSamples](_ => 0.0);
      fpsIndex, fpsCount, minFPS, maxFPS := 0, 0, 0.0, 60.0;
      cpuUsageIndex, cpuUsageCount, minCPU, maxCPU := 0, 0, 0.0, 100.0;
      hwData := InitialHardwareData;
      lastGraphUpdate := 0;
      oldBrightness := InitialBrightness;
      backlightPin := None;
    }

    /** The store and the ring advance of addFPSData (main.cpp:234-238). */
    method StoreFps(fps: real)
      requires fpsHistory.Length == MaxSamples && RingShape(fpsIndex, fpsCount)
      modifies this`fpsIndex, this`fpsCount, fpsHistory
      ensures fpsHistory[..] == old(fpsHistory[..])[old(fpsIndex) := fps]
      ensures fpsIndex == NextIndex(old(fpsIndex)) && fpsCount == NextCount(old(fpsCount))
    {
      fpsHistory[fpsIndex] := fps;
      fpsIndex := (fpsIndex + 1) % MaxSamples;
      if fpsCount < MaxSamples {
        fpsCount := fpsCount + 1;
      }
    }

    /** The rescan of addFPSData (main.cpp:240-252): the scale of the filled slots. */
    method RescaleFps()
      requires fpsHistory.Length == MaxSamples && 0 < fpsCount <= MaxSamples
      modifies this`minFPS, this`maxFPS
      ensures FpsScale() == AutoScale(fpsHistory[..fpsCount])
    {
      var sc := ScanScale(fpsHistory, fpsCount);
      minFPS, maxFPS := sc.lo, sc.hi;
    }

    /** addFPSData (main.cpp:232-254): a sample of 0 or below is dropped. */
    method AddFPSData(fps: real)
      requires Valid()
      modifies this`fpsIndex, this`fpsCount, this`minFPS, this`maxFPS, fpsHistory
      ensures Valid()
      ensures fps > 0.0 ==>
        (fpsHistory[..] == old(fpsHistory[..])[old(fpsIndex) := fps]
         && fpsIndex == NextIndex(old(fpsIndex)) && fpsCount == NextCount(old(fpsCount)))
      ensures fps <= 0.0 ==> fpsHistory[..] == old(fpsHistory[..]) && FpsState() == old(FpsState())
      ensures fps > 0.0 ==> FpsWindow() == Trim(old(FpsWindow()) + [fps])
      ensures fps <= 0.0 ==> FpsWindow() == old(FpsWindow())
    {
      if fps > 0.0 {
        ghost var a, index, count, sc0 := fpsHistory[..], fpsIndex, fpsCount, FpsScale();
        ghost var cpu, cpuIndex, cpuCount, cpuScale := cpuUsageHistory[..], cpuUsageIndex, cpuUsageCount, CpuUsageScale();
        assert CpuHistory(cpu, cpuIndex, cpuCount, cpuScale);
        FpsHistoryPush(a, index, count, sc0, fps);
        StoreFps(fps);
        RescaleFps();
        assert fpsHistory[..] == a[index := fps];
        assert FpsValid();
        assert cpuUsageHistory[..] == cpu;
        assert cpuUsageIndex == cpuIndex && cpuUsageCount == cpuCount && CpuUsageScale() == cpuScale;
        assert CpuValid();
      }
    }

    /** The store and the ring advance of addCPUUsageData (main.cpp:132-134). */
    method StoreCpuUsage(usage: real)
      requires cpuUsageHistory.Length == MaxSamples && RingShape(cpuUsageIndex, cpuUsageCount)
      modifies this`cpuUsageIndex, this`cpuUsageCount, cpuUsageHistory
      ensures cpuUsageHistory[..] == old(cpuUsageHistory[..])[old(cpuUsageIndex) := usage]
      ensures cpuUsageIndex == NextIndex(old(cpuUsageIndex)) && cpuUsageCount == NextCount(old(cpuUsageCount))
    {
      cpuUsageHistory[cpuUsageIndex] := usage;
      cpuUsageIndex := (cpuUsageIndex + 1) % MaxSamples;
      if cpuUsageCount < MaxSamples {
        cpuUsageCount := cpuUsageCount + 1;
      }
    }

    /** addCPUUsageData (main.cpp:130-139): a usage of 0 is kept, a negative one dropped. */
    method AddCPUUsageData(usage: real)
      requires Valid()
      modifies this`cpuUsageIndex, this`cpuUsageCount, this`minCPU, this`maxCPU, cpuUsageHistory
      ensures Valid()
      ensures usage >= 0.0 ==>
        (cpuUsageHistory[..] == old(cpuUsageHistory[..])[old(cpuUsageIndex) := usage]
         && cpuUsageIndex == NextIndex(old(cpuUsageIndex)) && cpuUsageCount == NextCount(old(cpuUsageCount)))
      ensures usage < 0.0 ==> cpuUsageHistory[..] == old(cpuUsageHistory[..]) && CpuState() == old(CpuState())
      ensures CpuWindow() == if usage >= 0.0 then Trim(old(CpuWindow()) + [usage]) else old(CpuWindow())
    {
      if usage >= 0.0 {
        ghost var a, index, count := cpuUsageHistory[..], cpuUsageIndex, cpuUsageCount;
        ghost var fpsSlots, fpsIdx, fpsCnt, fpsScale := fpsHistory[..], fpsIndex, fpsCount, FpsScale();
        assert FpsHistory(fpsSlots, fpsIdx, fpsCnt, fpsScale);
        CpuHistoryPush(a, index, count, usage);
        StoreCpuUsage(usage);
        minCPU := 0.0;
        maxCPU := 100.0;
        assert cpuUsageHistory[..] == a[index := usage];
        assert CpuValid();
        assert fpsHistory[..] == fpsSlots;
        assert fpsIndex == fpsIdx && fpsCount == fpsCnt && FpsScale() == fpsScale;
        assert FpsValid();
      }
    }

    /**
     * readSerialData after parsing (main.cpp:334-348). `parsed` is None when the line was
     * empty or did not parse; nothing changes then.
     */
    method ReadSerialData(parsed: Option<Received>, now: u32)
      requires Valid()
      modifies this`fpsIndex, this`fpsCount, this`minFPS, this`maxFPS, fpsHistory
      modifies this`cpuUsageIndex, this`cpuUsageCount, this`minCPU, this`maxCPU, cpuUsageHistory
      modifies this`hwData, this`lastGraphUpdate
      ensures Valid()
      ensures parsed.None? ==>
        (FpsWindow() == old(FpsWindow()) && CpuWindow() == old(CpuWindow())
         && FpsState() == old(FpsState()) && CpuState() == old(CpuState()) && LinkState() == old(LinkState()))
      ensures parsed.Some? ==> hwData == Stored(parsed.value, now)
      ensures parsed.Some? && Elapsed(now, old(lastGraphUpdate)) >= GraphUpdateInterval ==>
        (lastGraphUpdate == now
         && FpsWindow() == (if parsed.value.fps > 0.0 then Trim(old(FpsWindow()) + [parsed.value.fps]) else old(FpsWindow()))
         && CpuWindow() == (if parsed.value.cpuLoad >= 0.0 then Trim(old(CpuWindow()) + [parsed.value.cpuLoad]) else old(CpuWindow())))
      ensures parsed.Some? && Elapsed(now, old(lastGraphUpdate)) < GraphUpdateInterval ==>
        (lastGraphUpdate == old(lastGraphUpdate) && FpsWindow() == old(FpsWindow()) && CpuWindow() == old(CpuWindow())
         && FpsState() == old(FpsState()) && CpuState() == old(CpuState()))
    {
      if parsed.None? {
        return;
      }
      var r := parsed.value;
      hwData := Stored(r, now);
      if Elapsed(now, lastGraphUpdate) >= GraphUpdateInterval {
        AddFPSData(r.fps);
        AddCPUUsageData(r.cpuLoad);
        lastGraphUpdate := now;
      }
    }

    /**
     * The decisions of handle_oled (main.cpp:366-426), with the corrected backlight
     * handling. `line` is the graph drawn on a statistics frame.
     */
    method HandleOled(now: u32) returns (screen: Screen, line: seq<Segment>)
      requires Valid()
      modifies this`backlightPin, this`oldBrightness
      ensures Valid()
      ensures screen == if ShowWaiting(hwData.dataValid, hwData.lastUpdate, now) then Waiting else StatsScreen(hwData)
      ensures Light() == BacklightStep(old(Light()), screen.Waiting?, hwData.brightness)
      ensures screen.Stats? && screen.graph == FpsGraph ==> line == Polyline(FpsWindow(), FpsScale())
      ensures screen.Stats? && screen.graph == CpuUsageGraph ==> line == Polyline(CpuWindow(), CpuUsageScale())
      ensures screen.Waiting? ==> line == []
    {
      line := [];
      var dataExpired := Elapsed(now, hwData.lastUpdate) > DataTimeout;
      if !hwData.dataValid || dataExpired {
        screen := Waiting;
        backlightPin := Some(0);
        oldBrightness := 0;
      } else {
        if hwData.brightness != oldBrightness {
          oldBrightness := hwData.brightness;
          backlightPin := Some(hwData.brightness);
        }
        if hwData.fps >= 0.0 {
          FpsHistoryCovered(fpsHistory[..], fpsIndex, fpsCount, FpsScale());
          line := GraphSegments(fpsHistory, fpsIndex, fpsCount, FpsScale());
        } else {
          line := GraphSegments(cpuUsageHistory, cpuUsageIndex, cpuUsageCount, CpuUsageScale());
        }
        screen := StatsScreen(hwData);
      }
    }
  }
}
