/**
 * The PC side of the telemetry link (Win10app/Program.cs): the readings shared between
 * the two loops of class Program, the record that SerialCommunication.SendData writes,
 * and one pass of each loop.
 *
 * The two threads, the lock and `Thread.Sleep` are left out: the shared fields are
 * modelled sequentially, and the four of them are always written together. The
 * foreground process name, the sensor rows, the mapped window, the clock and the
 * outcome of the serial write arrive as parameters.
 */
module Telemetry {
  import opened Wrappers
  import Rtss
  import Words
  import WmiSensors

  /** The fields cpuTemp, gpuTemp, cpuFan and gpuFan of class Program. */
  datatype Snapshot = Snapshot(cpuTemp: Option<real>, gpuTemp: Option<real>, cpuFan: Option<int>, gpuFan: Option<int>)

  /** The four fields before the first write: all null. */
  const NoReadings: Snapshot := Snapshot(None, None, None, None)

  /**
   * The anonymous object SendData serialises as one JSON line: `cpu_temp`, `gpu_temp`,
   * `fps`, `gpu_fan_speed` and `timestamp`, every one of them always present.
   */
  datatype WireRecord = WireRecord(cpuTemp: real, gpuTemp: real, fps: real, gpuFanSpeed: int, timestamp: int)

  /** The value written in place of a null field. */
  const Sentinel: int := -1

  /** `x ?? -1` on a reading: a present value is sent as itself, and only -1 or null give -1. */
  function OrSentinel(x: Option<real>): (r: real)
    ensures x.Some? ==> r == x.value
    ensures r == Sentinel as real <==> x.None? || x.value == Sentinel as real
  {
    if x.Some? then x.value else Sentinel as real
  }

  /** `gpuFan ?? -1` on the fan speed. */
  function OrSentinelInt(x: Option<int>): (r: int)
    ensures x.Some? ==> r == x.value
    ensures r == Sentinel <==> x.None? || x.value == Sentinel
  {
    if x.Some? then x.value else Sentinel
  }

  /** The record built by SendData (Program.cs:306-313); `now` is the Unix time in seconds. */
  function Record(cpuTemp: Option<real>, gpuTemp: Option<real>, fps: Option<real>, gpuFan: Option<int>, now: int)
    : (r: WireRecord)
    ensures r.timestamp == now
    ensures cpuTemp.Some? ==> r.cpuTemp == cpuTemp.value
    ensures gpuTemp.Some? ==> r.gpuTemp == gpuTemp.value
    ensures fps.Some? ==> r.fps == fps.value
    ensures gpuFan.Some? ==> r.gpuFanSpeed == gpuFan.value
    ensures cpuTemp.None? && gpuTemp.None? && fps.None? && gpuFan.None? ==>
      r.cpuTemp == r.gpuTemp == r.fps == Sentinel as real && r.gpuFanSpeed == Sentinel
  {
    WireRecord(OrSentinel(cpuTemp), OrSentinel(gpuTemp), OrSentinel(fps), OrSentinelInt(gpuFan), now)
  }

  /** How a field of the record is read back: the sentinel stands for "no value". */
  function Known(v: real): (r: Option<real>)
    ensures r.Some? <==> v != Sentinel as real
  {
    if v == Sentinel as real then None else Some(v)
  }

  function KnownInt(v: int): (r: Option<int>)
    ensures r.Some? <==> v != Sentinel
  {
    if v == Sentinel then None else Some(v)
  }

  /** A value is carried faithfully unless it equals the sentinel. */
  predicate Carried(x: Option<real>)
  {
    x.None? || x.value != Sentinel as real
  }

  /**
   * Every field of the record reads back as the value it was built from, null or not,
   * provided no present value is -1.
   */
  lemma RecordRoundTrip(cpuTemp: Option<real>, gpuTemp: Option<real>, fps: Option<real>, gpuFan: Option<int>, now: int)
    requires Carried(cpuTemp) && Carried(gpuTemp) && Carried(fps)
    requires gpuFan.None? || gpuFan.value != Sentinel
    ensures var w := Record(cpuTemp, gpuTemp, fps, gpuFan, now);
      Known(w.cpuTemp) == cpuTemp && Known(w.gpuTemp) == gpuTemp && Known(w.fps) == fps
      && KnownInt(w.gpuFanSpeed) == gpuFan && w.timestamp == now
  {
  }

  /** A reading of exactly -1 cannot be told apart from a missing one. */
  lemma SentinelIsAmbiguous(now: int)
    ensures Record(Some(-1.0), None, None, None, now) == Record(None, None, None, None, now)
  {
  }

  /** `(float)Math.Round(fps, 1)` from the reader's count of tenths. */
  function FpsOf(tenths: Option<int>): (f: Option<real>)
    requires tenths.Some? ==> 10 <= tenths.value <= 10000
    ensures f.Some? <==> tenths.Some?
    ensures f.Some? ==> 1.0 <= f.value <= 1000.0 && f.value * 10.0 == tenths.value as real
  {
    match tenths
    case None => None
    case Some(t) => Some(t as real / 10.0)
  }

  /**
   * Whatever rows the sensor queries return and whatever the frame-rate reader finds,
   * every field of the record reads back as the getter's or the reader's result: no
   * sensor value is ever taken for the sentinel.
   */
  lemma SensorValuesSurviveTheWire(temps: seq<WmiSensors.Reading>, gpuTemps: seq<WmiSensors.Reading>,
                                   gpuFans: seq<WmiSensors.Reading>, mapped: bool, window: seq<Words.byte>,
                                   target: string, now: int)
    ensures var cpuTemp, gpuTemp := WmiSensors.GetCpuTemp(temps), WmiSensors.GetGpuTemp(gpuTemps);
      var gpuFan := WmiSensors.GetGpuFanSpeed(gpuFans);
      var fps := FpsOf(Rtss.ReadFps(mapped, window, target));
      var w := Record(cpuTemp, gpuTemp, fps, gpuFan, now);
      Known(w.cpuTemp) == cpuTemp && Known(w.gpuTemp) == gpuTemp && Known(w.fps) == fps
      && KnownInt(w.gpuFanSpeed) == gpuFan
  {
    var cpuTemp, gpuTemp := WmiSensors.GetCpuTemp(temps), WmiSensors.GetGpuTemp(gpuTemps);
    var gpuFan := WmiSensors.GetGpuFanSpeed(gpuFans);
    var fps := FpsOf(Rtss.ReadFps(mapped, window, target));
    RecordRoundTrip(cpuTemp, gpuTemp, fps, gpuFan, now);
  }

  // ---------------------------------------------------------------------------
  // The serial link

  /**
   * SerialCommunication. The port is modelled by the records it has accepted; opening
   * and closing it are left out, so an object starts with an open port.
   */
  class SerialCommunication {
    /** The records written and flushed so far, oldest first. */
    var sent: seq<WireRecord>

    constructor ()
      ensures sent == []
    {
      sent := [];
    }

    /**
     * SendData (Program.cs:302-323). `linkUp` says whether Write and Flush complete; when
     * they throw, the exception is caught and false is returned.
     */
    method SendData(cpuTemp: Option<real>, gpuTemp: Option<real>, fps: Option<real>, gpuFan: Option<int>,
                    now: int, linkUp: bool) returns (ok: bool)
      modifies this
      ensures ok == linkUp
      ensures sent == if linkUp then old(sent) + [Record(cpuTemp, gpuTemp, fps, gpuFan, now)] else old(sent)
    {
      var data := Record(cpuTemp, gpuTemp, fps, gpuFan, now);
      if !linkUp {
        return false;
      }
      sent := sent + [data];
      return true;
    }
  }

  // ---------------------------------------------------------------------------
  // The shared state and the two loops

  /** The last snapshot written, or the initial one. */
  function Latest(published: seq<Snapshot>): Snapshot
  {
    if |published| == 0 then NoReadings else published[|published| - 1]
  }

  /** The static state of class Program. */
  class Program {
    var running: bool
    var cpuTemp: Option<real>
    var gpuTemp: Option<real>
    var cpuFan: Option<int>
    var gpuFan: Option<int>
    /** Every snapshot written so far, oldest first. */
    ghost var published: seq<Snapshot>

    function Current(): Snapshot
      reads this
    {
      Snapshot(cpuTemp, gpuTemp, cpuFan, gpuFan)
    }

    /** The four fields always hold one whole snapshot: the last one written. */
    ghost predicate Valid()
      reads this
    {
      Current() == Latest(published)
    }

    constructor ()
      ensures Valid() && running && published == []
    {
      running := true;
      cpuTemp, gpuTemp, cpuFan, gpuFan := None, None, None, None;
      published := [];
    }

    /** The write under the lock (Program.cs:95-101). */
    method Publish(s: Snapshot)
      requires Valid()
      modifies this
      ensures Valid() && published == old(published) + [s] && running == old(running)
    {
      cpuTemp, gpuTemp, cpuFan, gpuFan := s.cpuTemp, s.gpuTemp, s.cpuFan, s.gpuFan;
      published := published + [s];
    }

    /**
     * The read under the lock (Program.cs:132-138): never a mix of two writes, always
     * the initial snapshot or one that was written.
     */
    method Take() returns (s: Snapshot)
      requires Valid()
      ensures s == Latest(published)
      ensures s == NoReadings || s in published
    {
      s := Snapshot(cpuTemp, gpuTemp, cpuFan, gpuFan);
    }

    /** One pass of TemperatureMonitoringThread (Program.cs:90-101); each getter has its own query. */
    method TemperatureTick(cpuTempRows: seq<WmiSensors.Reading>, gpuTempRows: seq<WmiSensors.Reading>,
                           cpuFanRows: seq<WmiSensors.Reading>, gpuFanRows: seq<WmiSensors.Reading>)
      requires Valid()
      modifies this
      ensures Valid() && running == old(running)
      ensures published == old(published) + [Snapshot(WmiSensors.GetCpuTemp(cpuTempRows),
        WmiSensors.GetGpuTemp(gpuTempRows), WmiSensors.GetCpuFanSpeed(cpuFanRows),
        WmiSensors.GetGpuFanSpeed(gpuFanRows))]
    {
      var newCpuTemp := WmiSensors.GetCpuTemp(cpuTempRows);
      var newGpuTemp := WmiSensors.GetGpuTemp(gpuTempRows);
      var newCpuFan := WmiSensors.GetCpuFanSpeed(cpuFanRows);
      var newGpuFan := WmiSensors.GetGpuFanSpeed(gpuFanRows);
      Publish(Snapshot(newCpuTemp, newGpuTemp, newCpuFan, newGpuFan));
    }

    /**
     * One pass of FpsAndSerialThread (Program.cs:123-151). `foreground` is what
     * GetActiveWindowProcess returned, `now` the Unix time, and `linkUp` whether the
     * serial write goes through. `stop` is the `break` after a failed send.
     */
    method FpsAndSerialTick(rtss: Rtss.RtssSharedMemory, rtssConnected: bool, serial: SerialCommunication,
                            serialConnected: bool, foreground: Option<string>, window: seq<Words.byte>,
                            now: int, linkUp: bool) returns (fps: Option<real>, stop: bool)
      requires Valid()
      modifies this, serial
      ensures Valid() && published == old(published)
      ensures fps == if rtssConnected && foreground.Some? && |foreground.value| > 0
        then FpsOf(Rtss.ReadFps(rtss.mapped, window, foreground.value)) else None
      ensures var s := old(Current());
        serial.sent == if serialConnected && linkUp
          then old(serial.sent) + [Record(s.cpuTemp, s.gpuTemp, fps, s.gpuFan, now)]
          else old(serial.sent)
      ensures stop <==> serialConnected && !linkUp
      ensures running == (old(running) && !stop)
    {
      fps := None;
      if rtssConnected && foreground.Some? && |foreground.value| > 0 {
        var tenths := rtss.ReadFpsForProcess(window, foreground.value);
        fps := FpsOf(tenths);
      }
      var current := Take();
      stop := false;
      if serialConnected {
        var sendResult := serial.SendData(current.cpuTemp, current.gpuTemp, fps, current.gpuFan, now, linkUp);
        if !sendResult {
          running := false;
          stop := true;
        }
      }
    }
  }
}
