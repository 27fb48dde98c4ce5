/**
 * The sensor selection rules of the static class WmiSensors (Win10app/Program.cs).
 *
 * Each getter walks the rows of one LibreHardwareMonitor query and returns the first
 * row whose name matches its rule and whose value parses and is positive. The query
 * itself and `TryParse` stay outside the model: a row arrives with its Name (the empty
 * string when it was null) and its Value already parsed as a float and as an int
 * (None where parsing failed or the value was null).
 */
module WmiSensors {
  import opened Wrappers
  import opened Text

  datatype Reading = Reading(name: string, asFloat: Option<real>, asInt: Option<int>)

  /** The foreach with early return: the value of the first row that `pick` accepts. */
  function FirstMatch<T>(rs: seq<Reading>, pick: Reading -> Option<T>): (r: Option<T>)
    ensures r.None? ==> forall i :: 0 <= i < |rs| ==> pick(rs[i]).None?
    ensures r.Some? ==>
      exists i :: 0 <= i < |rs| && pick(rs[i]) == r
        && forall j :: 0 <= j < i ==> pick(rs[j]).None?
  {
    if |rs| == 0 then None
    else match pick(rs[0])
      case Some(v) => Some(v)
      case None =>
        var r := FirstMatch(rs[1..], pick);
        FirstOfTail(rs, pick, r);
        r
  }

  /** A first accepted row of `rs[1..]` is a first accepted row of `rs` when `rs[0]` is refused. */
  lemma FirstOfTail<T>(rs: seq<Reading>, pick: Reading -> Option<T>, r: Option<T>)
    requires |rs| > 0 && pick(rs[0]).None?
    requires r.Some? ==>
      exists i :: 0 <= i < |rs[1..]| && pick(rs[1..][i]) == r
        && forall j :: 0 <= j < i ==> pick(rs[1..][j]).None?
    ensures r.Some? ==>
      exists i :: 0 <= i < |rs| && pick(rs[i]) == r
        && forall j :: 0 <= j < i ==> pick(rs[j]).None?
  {
    if r.Some? {
      var i :| 0 <= i < |rs[1..]| && pick(rs[1..][i]) == r
        && forall j :: 0 <= j < i ==> pick(rs[1..][j]).None?;
      assert pick(rs[i + 1]) == r;
      assert forall j :: 1 <= j < i + 1 ==> rs[j] == rs[1..][j - 1];
    }
  }

  /** `Math.Round(double)`: to the nearest integer, ties to the even one. */
  function RoundHalfEven(x: real): (n: int)
    ensures -0.5 <= n as real - x <= 0.5
    ensures (n as real - x == 0.5 || x - n as real == 0.5) ==> n % 2 == 0
  {
    var f := x.Floor;
    var d := x - f as real;
    if d < 0.5 then f
    else if d > 0.5 then f + 1
    else if f % 2 == 0 then f
    else f + 1
  }

  // ---------------------------------------------------------------------------
  // The four rules

  /** GetCpuTemp accepts a row whose name contains "Core Average" (ordinal, case-sensitive). */
  predicate IsCpuTemp(r: Reading)
  {
    Contains(r.name, "Core Average") && r.asFloat.Some? && r.asFloat.value > 0.0
  }

  /** GetGpuTemp accepts a row whose upper-cased name contains "GPU CORE". */
  predicate IsGpuTemp(r: Reading)
  {
    Contains(Upper(r.name), "GPU CORE") && r.asFloat.Some? && r.asFloat.value > 0.0
  }

  /** GetGpuFanSpeed accepts a row named "GPU Fan 1", ignoring case, whose value is an integer. */
  predicate IsGpuFan(r: Reading)
  {
    EqualsIgnoreCase(r.name, "GPU Fan 1") && r.asInt.Some? && r.asInt.value > 0
  }

  /** GetCpuFanSpeed accepts a row named "Fan #2", ignoring case, whose value is a number. */
  predicate IsCpuFan(r: Reading)
  {
    EqualsIgnoreCase(r.name, "Fan #2") && r.asFloat.Some? && r.asFloat.value > 0.0
  }

  function CpuTempOf(r: Reading): Option<real> { if IsCpuTemp(r) then r.asFloat else None }
  function GpuTempOf(r: Reading): Option<real> { if IsGpuTemp(r) then r.asFloat else None }
  function GpuFanOf(r: Reading): Option<int> { if IsGpuFan(r) then r.asInt else None }
  function CpuFanOf(r: Reading): Option<int>
  {
    if IsCpuFan(r) then Some(RoundHalfEven(r.asFloat.value)) else None
  }

  // ---------------------------------------------------------------------------
  // The getters

  /** GetCpuTemp (Program.cs:334-352). */
  function GetCpuTemp(rs: seq<Reading>): (t: Option<real>)
    ensures t.Some? <==> exists i :: 0 <= i < |rs| && IsCpuTemp(rs[i])
    ensures t.Some? ==> t.value > 0.0
    ensures t.Some? ==>
      exists i :: 0 <= i < |rs| && IsCpuTemp(rs[i])
        && rs[i].asFloat == t && forall j :: 0 <= j < i ==> !IsCpuTemp(rs[j])
  {
    var t := FirstMatch(rs, CpuTempOf);
    assert forall i :: 0 <= i < |rs| ==> (CpuTempOf(rs[i]).None? <==> !IsCpuTemp(rs[i]));
    t
  }

  /** GetGpuTemp (Program.cs:354-372). */
  function GetGpuTemp(rs: seq<Reading>): (t: Option<real>)
    ensures t.Some? <==> exists i :: 0 <= i < |rs| && IsGpuTemp(rs[i])
    ensures t.Some? ==> t.value > 0.0
    ensures t.Some? ==>
      exists i :: 0 <= i < |rs| && IsGpuTemp(rs[i])
        && rs[i].asFloat == t && forall j :: 0 <= j < i ==> !IsGpuTemp(rs[j])
  {
    var t := FirstMatch(rs, GpuTempOf);
    assert forall i :: 0 <= i < |rs| ==> (GpuTempOf(rs[i]).None? <==> !IsGpuTemp(rs[i]));
    t
  }

  /** GetGpuFanSpeed (Program.cs:393-411). */
  function GetGpuFanSpeed(rs: seq<Reading>): (f: Option<int>)
    ensures f.Some? <==> exists i :: 0 <= i < |rs| && IsGpuFan(rs[i])
    ensures f.Some? ==> f.value > 0
    ensures f.Some? ==>
      exists i :: 0 <= i < |rs| && IsGpuFan(rs[i])
        && rs[i].asInt == f && forall j :: 0 <= j < i ==> !IsGpuFan(rs[j])
  {
    var f := FirstMatch(rs, GpuFanOf);
    assert forall i :: 0 <= i < |rs| ==> (GpuFanOf(rs[i]).None? <==> !IsGpuFan(rs[i]));
    f
  }

  /**
   * GetCpuFanSpeed (Program.cs:413-431). The value is rounded after the `> 0` test, so a
   * reading in (0, 0.5] comes back as 0.
   */
  function GetCpuFanSpeed(rs: seq<Reading>): (f: Option<int>)
    ensures f.Some? <==> exists i :: 0 <= i < |rs| && IsCpuFan(rs[i])
    ensures f.Some? ==> f.value >= 0
    ensures f.Some? ==>
      exists i :: 0 <= i < |rs| && IsCpuFan(rs[i])
        && f.value == RoundHalfEven(rs[i].asFloat.value) && forall j :: 0 <= j < i ==> !IsCpuFan(rs[j])
  {
    var f := FirstMatch(rs, CpuFanOf);
    assert forall i :: 0 <= i < |rs| ==> (CpuFanOf(rs[i]).None? <==> !IsCpuFan(rs[i]));
    f
  }

  // ---------------------------------------------------------------------------
  // Properties

  /** A row that is the first one accepted by `pick` decides the result. */
  lemma {:induction false} FirstMatchReaches<T>(rs: seq<Reading>, pick: Reading -> Option<T>, i: nat)
    requires i < |rs| && pick(rs[i]).Some?
    requires forall j :: 0 <= j < i ==> pick(rs[j]).None?
    ensures FirstMatch(rs, pick) == pick(rs[i])
  {
    if i > 0 {
      assert forall j :: 0 <= j < i - 1 ==> rs[1..][j] == rs[j + 1];
      FirstMatchReaches(rs[1..], pick, i - 1);
    }
  }

  /** The CPU temperature is the value of the first accepted row, however many follow. */
  lemma CpuTempFirstRowWins(rs: seq<Reading>, i: nat)
    requires i < |rs| && IsCpuTemp(rs[i])
    requires forall j :: 0 <= j < i ==> !IsCpuTemp(rs[j])
    ensures GetCpuTemp(rs) == rs[i].asFloat
  {
    FirstMatchReaches(rs, CpuTempOf, i);
  }

  /** A row whose name matches but whose value is not positive is skipped, not returned. */
  lemma NonPositiveRowSkipped(r: Reading, rest: seq<Reading>)
    requires Contains(r.name, "Core Average") && r.asFloat.Some? && r.asFloat.value <= 0.0
    ensures GetCpuTemp([r] + rest) == GetCpuTemp(rest)
  {
    assert ([r] + rest)[1..] == rest;
  }

  /** The CPU temperature rule is case-sensitive, while the GPU temperature rule is not. */
  lemma TemperatureRulesCase()
    ensures GetCpuTemp([Reading("core average", Some(45.0), None)]) == None
    ensures GetGpuTemp([Reading("Gpu Core", Some(45.0), None)]) == Some(45.0)
  {
    var cpu := Reading("core average", Some(45.0), None);
    assert !OccursAt(cpu.name, "Core Average", 0) by {
      assert cpu.name[0] != "Core Average"[0];
    }
    assert !IsCpuTemp(cpu);
    var gpu := Reading("Gpu Core", Some(45.0), None);
    assert Upper(gpu.name) == "GPU CORE";
    assert OccursAt(Upper(gpu.name), "GPU CORE", 0);
    assert IsGpuTemp(gpu);
  }

  /** A CPU fan reading of 0.4 RPM passes the `> 0` test and is reported as 0. */
  lemma CpuFanReportsZero()
    ensures GetCpuFanSpeed([Reading("FAN #2", Some(0.4), None)]) == Some(0)
  {
    var r := Reading("FAN #2", Some(0.4), None);
    assert Upper(r.name) == Upper("Fan #2");
    assert IsCpuFan(r);
    assert RoundHalfEven(0.4) == 0;
  }
}
