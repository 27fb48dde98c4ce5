# PC hardware monitor and its ESP32 display, modelled in Dafny

The system has two parts. A Windows tray program (`Win10app/Program.cs`) reads CPU
and GPU temperatures and fan speeds from LibreHardwareMonitor over WMI. It reads the
frame rate of the foreground game from RivaTuner Statistics Server's shared memory,
and sends one JSON record every 100 ms over a serial port. An ESP32-C3 firmware
(`esp32c3/src/main.cpp`) parses each record. It keeps two 160-sample histories, one
for the frame rate and one for the CPU load, and draws a statistics screen with a
graph. When no record arrives for ten seconds it shows a waiting screen instead.

The model covers the following:

- **The frame-rate reader** (`rtss.dfy`).
  - `RTSSSharedMemory.ReadFpsForProcess` works over the mapped window as a byte
    sequence.
  - Little-endian header words and C#'s 32-bit offset arithmetic are modelled.
  - The entry decoding is modelled: a zero-terminated name, `Path.GetFileName` (cut at
    the last separator or after a leading drive root), and a case-insensitive
    comparison.
  - The timing test and the 1 to 1000 fps range are modelled.
  - An entry too short to decode throws, and the final `catch` swallows the
    exception. That catch sits outside the loop, so it ends the whole scan with no
    value. An entry lying outside the window is abstracted the same way (see
    "Left out").
  - The method, a loop with early returns, is proved equal to a function `ReadFps`.
    Lemmas characterise that function: which entry's rate comes back, which bytes
    matter, and a round trip through an encoder of the table.
- **The sensor rules** (`wmi_sensors.dfy`). Each `WmiSensors` getter is a first-match
  search over the rows of its query. Each one comes with an if-and-only-if contract
  and a "first accepted row" contract.
- **The PC loops** (`telemetry.dfy`).
  - The record `SendData` builds, and its read-back, where `-1` stands for null.
  - The four shared readings, always written and read as one snapshot.
  - One pass of each thread, with a failed send stopping the program.
- **The display's histories** (`sample_ring.dfy`, `display.dfy`).
  - `addFPSData` and `addCPUUsageData` are methods of a `Dashboard` class that update
    two `array<real>` of 160 slots in place.
  - The window the graphs draw is always the newest 160 accepted samples, oldest
    first.
  - The frame-rate scale is recomputed by a loop and proved equal to the padded
    minimum and maximum of the filled slots.
- **The graph geometry** (`graph_geometry.dfy`). The x and y arithmetic of both draw
  loops, with C's integer division, float-to-int truncation and `constrain`. It is
  proved that the segments form one connected line from x = 5 to x = 154 inside the
  box.
- **The frame decisions** (`display.dfy`).
  - `readSerialData`'s update after parsing.
  - The expiry test on a wrapping 32-bit `millis()`.
  - The backlight cache.
  - The graph choice, and the colours and placeholders of each field.
  - An end-to-end lemma: a record built by the PC program shows each sent value and a
    placeholder for each null one.

Both programs are modelled with unbounded integers and exact reals, except for the
following, which are written out explicitly:

- the 32-bit wrap of C#'s `int` offset arithmetic and of the ESP32's `millis()`;
- C's truncating integer division and float-to-int conversion;
- `Math.Round`'s ties-to-even.

## Model

| member | source | states |
|---|---|---|
| `Rtss.RtssSharedMemory.ReadFpsForProcess` | Win10app/Program.cs:223-270 | The loop with early returns gives exactly `ReadFps` of the live window. |
| `Rtss.RtssSharedMemory.constructor` | Win10app/Program.cs:184-206 | The object is mapped exactly when Connect found a region. |
| `Rtss.ReadFps` | Win10app/Program.cs:223-270 | No value when the region is unmapped or the target is empty. Any value is between 1.0 and 1000.0 fps (10 to 10000 tenths). |
| `Rtss.ReadFpsFirst` | Win10app/Program.cs:225-266 | Both directions: t is returned iff the region is mapped, the target is non-empty and the header is read. Entry i below `min(dwAppArrSize, 50)` must yield t, and every earlier entry must be read and passed over. |
| `Rtss.ReadFpsEntryAt` | Win10app/Program.cs:236-241 | In a 4 MiB window, the entry whose rate is returned lies at `dwAppArrOffset + i * dwAppEntrySize`, with `i < 50`. |
| `Rtss.ReadFpsOnlyScannedEntries` | Win10app/Program.cs:229-241 | Two windows that agree on the header and the first `min(dwAppArrSize, 50)` entries give the same result. Entries past 50 never matter. |
| `Rtss.EntryOffsetUnwrapped` | Win10app/Program.cs:238 | Once entry 0 lies inside the 4 MiB window, the unchecked 32-bit offset of every scanned entry equals the mathematical one. |
| `Rtss.Int32` | Win10app/Program.cs:238 | `(int)` and `int` arithmetic in an unchecked context: a value in [-2^31, 2^31) congruent to the input modulo 2^32. |
| `Rtss.Int32OfInRange` | Win10app/Program.cs:238 | A value already in the `int` range is unchanged. |
| `Rtss.U32RoundTrip` | Win10app/Program.cs:231-234 | `BitConverter.ToUInt32` reads back the word whose four little-endian bytes were written. |
| `Rtss.U32Bytes` | Win10app/Program.cs:231-234 | The encoding of a word has four bytes; it is the partner of the round trip above. |
| `Rtss.ScanLimit` | Win10app/Program.cs:236 | At most 50 entries and at most `dwAppArrSize`, equal to one of them. |
| `Rtss.EntryBytes` | Win10app/Program.cs:238-241 | The bytes copied for an entry are exactly `dwAppEntrySize` long. |
| `Rtss.IndexOfZero` | Win10app/Program.cs:245 | `Array.IndexOf(e, 0, from)`: -1 when no zero follows `from`, else the first zero at or after `from`. |
| `Rtss.FileName` | Win10app/Program.cs:249 | `Path.GetFileName` on Windows: the longest suffix that has no separator and does not reach into a leading "X:" drive root. Whenever it is shorter than the path, it follows a separator or that root. |
| `Rtss.FileNameDriveRelative` | Win10app/Program.cs:249 | A drive-relative path "X:" + name has the file name `name`, so "C:game.exe" matches "game.exe". |
| `Rtss.FileNameOfPlain` | Win10app/Program.cs:249 | A name with no separator and no drive root is its own file name. |
| `Rtss.FileNameAfterSeparator` | Win10app/Program.cs:249 | The file name of `dir + sep + base` is `base`, whatever `dir` holds. |
| `Rtss.PathStrippedMatch` | Win10app/Program.cs:248-250 | A full path matches the target iff its last component does, ignoring case. |
| `Rtss.RoundTenths` | Win10app/Program.cs:260-261 | The rate `1000 * frames / delta`, rounded to tenths, is within 0.05 fps of the exact rate. |
| `Rtss.RoundTenthsBounds` | Win10app/Program.cs:261 | A rate that passes the 1 to 1000 range test rounds to between 1.0 and 1000.0. |
| `Rtss.Qualify` | Win10app/Program.cs:244-261 | An entry yields a rate only if it has a matching name, a timing block, `dwTime1 > dwTime0`, `dwFrames > 0` and a rate in range. The rate is within 0.05 fps of the exact rate. |
| `Rtss.QualifyHit` | Win10app/Program.cs:250-261 | The converse of `Qualify`'s contract: a matching entry with a valid timing block in range yields its rate rounded to tenths. |
| `Rtss.InvalidTimingNeverQualifies` | Win10app/Program.cs:258 | An entry with `dwTime1 <= dwTime0` or no frames never yields a rate. |
| `Rtss.OutOfRangeNeverQualifies` | Win10app/Program.cs:261 | A rate below 1 or above 1000 fps is discarded. |
| `Rtss.StepOf` | Win10app/Program.cs:240-261 | What the loop does with one decoded entry: any rate it returns is between 1.0 and 1000.0. |
| `Rtss.DecodeEntry` | Win10app/Program.cs:243-257 | An entry shorter than 4 bytes cannot be decoded. Otherwise the name is the non-empty run of non-zero bytes from offset 4 up to a zero byte, or absent when offset 4 holds a zero or no zero follows. The timing block is present exactly when `0x10C + 16` bytes fit, and holds the three little-endian words at 0x10C, 0x110 and 0x114. |
| `Rtss.ReadEntry` | Win10app/Program.cs:238-243 | Entry i is unreadable exactly when its bytes lie outside the window or `dwAppEntrySize` is below 4. |
| `Rtss.EntryStep` | Win10app/Program.cs:238-261 | The step of entry i of the window; a hit is in range. |
| `Rtss.Steps` | Win10app/Program.cs:236 | One step per scanned entry, `min(dwAppArrSize, 50)` of them. |
| `Rtss.FirstHit` | Win10app/Program.cs:236-269 | A returned rate is the rate of some step at or after `from`. |
| `Rtss.FirstHitFound` | Win10app/Program.cs:236-266 | A returned rate comes from a hit preceded only by passed-over entries. |
| `Rtss.FirstHitReaches` | Win10app/Program.cs:236-266 | A hit preceded only by passed-over entries is what the scan returns. |
| `Rtss.HeaderRoundTrip` | Win10app/Program.cs:229-234 | Reading the header back from an encoded header gives the same entry size, offset and count. |
| `Rtss.EncodeHeader` | Win10app/Program.cs:229 | An encoded header is 256 bytes, the size the source copies. |
| `Rtss.EntryRoundTrip` | Win10app/Program.cs:243-257 | Decoding an encoded entry gives back its non-empty, zero-free name and its timing block. |
| `Rtss.EncodeEntry` | Win10app/Program.cs:240-253 | An encoded entry has the requested size. |
| `Rtss.AsciiRoundTrip` | Win10app/Program.cs:248 | An 8-bit name survives the bytes-to-string decoding. |
| `Rtss.TwoEntriesLayout` | Win10app/Program.cs:229-257 | A header followed by two encoded entries decodes to that header and those two entries. |
| `Rtss.TwoEntriesRead` | Win10app/Program.cs:236-266 | A two-entry table is read as the first hit among the two entries' steps. |
| `Rtss.ExplorerPassed` | Win10app/Program.cs:258 | An entry "explorer.exe" with `dwTime1 < dwTime0` yields nothing, whatever the target. |
| `Rtss.SixtyFps` | Win10app/Program.cs:260-261 | 60 frames in 1000 ms passes the range test and rounds to 60.0 fps. |
| `Rtss.GameQualifies` | Win10app/Program.cs:250-261 | "game.exe" with 60 frames in 1000 ms yields 60.0 fps for the target "game.exe". |
| `Rtss.TwoEntriesPassThenHit` | Win10app/Program.cs:236-266 | In a two-entry table, a first entry that yields nothing is passed over and the second entry's rate is returned. |
| `Rtss.TwoEntriesNoHit` | Win10app/Program.cs:236-269 | A two-entry table where neither entry yields a rate reads nothing. |
| `Rtss.ScenarioReadsGame` | Win10app/Program.cs:223-270 | In a table whose invalid first entry precedes "game.exe", the reader skips the first and returns 60.0 fps. |
| `Rtss.ScenarioReadsOther` | Win10app/Program.cs:223-270 | The same table has nothing for "other.exe". |
| `Text.EqualsIgnoreCaseMeaning` | Win10app/Program.cs:250 | `OrdinalIgnoreCase` equality holds iff the lengths agree and each pair of characters agrees after upper-casing. |
| `WmiSensors.FirstMatch` | Win10app/Program.cs:340-348 | The foreach with early return: None iff no row is accepted, else the value of the first accepted row. |
| `WmiSensors.FirstMatchReaches` | Win10app/Program.cs:340-348 | The first accepted row decides the result. |
| `WmiSensors.GetCpuTemp` | Win10app/Program.cs:334-352 | Some iff a row's name contains "Core Average" (case-sensitive) with a positive value. That value is the first such row's. |
| `WmiSensors.GetGpuTemp` | Win10app/Program.cs:354-372 | Some iff a row's upper-cased name contains "GPU CORE" with a positive value. That value is the first such row's. |
| `WmiSensors.GetGpuFanSpeed` | Win10app/Program.cs:393-411 | Some iff a row is named "GPU Fan 1" ignoring case, with a positive integer value. That value is the first such row's. |
| `WmiSensors.GetCpuFanSpeed` | Win10app/Program.cs:413-431 | Some iff a row is named "Fan #2" ignoring case, with a positive value. The first such row's value, rounded, which may be 0. |
| `WmiSensors.RoundHalfEven` | Win10app/Program.cs:425 | `Math.Round`: within 0.5 of the input, ties to the even integer. |
| `WmiSensors.CpuTempFirstRowWins` | Win10app/Program.cs:340-348 | The first accepted row's value is returned whatever rows follow. |
| `WmiSensors.NonPositiveRowSkipped` | Win10app/Program.cs:343-346 | A matching row whose value is 0 or below is skipped, and the search goes on. |
| `WmiSensors.TemperatureRulesCase` | Win10app/Program.cs:342-363 | "core average" is not a CPU temperature; "Gpu Core" is a GPU temperature. |
| `WmiSensors.CpuFanReportsZero` | Win10app/Program.cs:421-425 | A CPU fan reading of 0.4 RPM passes the `> 0` test and is reported as 0. |
| `Telemetry.OrSentinel` | Win10app/Program.cs:308-310 | `x ?? -1`: a present reading is sent as itself, and the result is -1 exactly when the reading is null or is itself -1. |
| `Telemetry.OrSentinelInt` | Win10app/Program.cs:311 | The same for the integer GPU fan speed. |
| `Telemetry.Record` | Win10app/Program.cs:306-313 | The anonymous record of SendData: the timestamp is the current Unix time, every present reading is carried in its field, and a snapshot with every reading null is sent as four -1 values. |
| `Telemetry.RecordRoundTrip` | Win10app/Program.cs:306-313 | Each field of the record reads back as the value or null it was built from, unless a present value is -1. |
| `Telemetry.SentinelIsAmbiguous` | Win10app/Program.cs:308 | A temperature of exactly -1 and a missing one give the same record. |
| `Telemetry.FpsOf` | Win10app/Program.cs:261 | The reader's tenths as `Math.Round(fps, 1)`: null iff the reader returns null, and a value between 1.0 and 1000.0 equal to tenths / 10. |
| `Telemetry.SensorValuesSurviveTheWire` | Win10app/Program.cs:90-93 | Whatever rows the queries return and whatever the reader finds, every field of the record reads back as the getter's or the reader's result. |
| `Telemetry.SerialCommunication.SendData` | Win10app/Program.cs:302-323 | Returns true iff the write and flush go through. In that case exactly one record is appended to what the port has carried; otherwise nothing is. |
| `Telemetry.SerialCommunication.constructor` | Win10app/Program.cs:302-323 | A new port has carried nothing. |
| `Telemetry.Program.constructor` | Win10app/Program.cs:14-22 | The program starts running with every reading null. |
| `Telemetry.Program.Publish` | Win10app/Program.cs:95-101 | The four fields are replaced together by one snapshot, which becomes the latest one published. |
| `Telemetry.Program.Take` | Win10app/Program.cs:132-138 | The snapshot read is the latest one written, or the initial nulls. It is never a mix of two writes. |
| `Telemetry.Program.TemperatureTick` | Win10app/Program.cs:90-101 | One pass publishes exactly the four getters' results as one snapshot. |
| `Telemetry.Program.FpsAndSerialTick` | Win10app/Program.cs:123-151 | The frame rate is read only when RTSS is connected and there is a foreground process. The record sent holds the snapshot's CPU temperature, GPU temperature and GPU fan with that rate. A failed send when a port is open stops the program. |
| `SampleRing.PushKeepsShape` | esp32c3/src/main.cpp:232-238 | Advancing the index modulo 160 and the saturating count keeps the ring's shape. |
| `SampleRing.StartIdx` | esp32c3/src/main.cpp:275 | The oldest sample's slot is a valid slot. |
| `SampleRing.Slot` | esp32c3/src/main.cpp:281-282 | The slot read for point i is a valid slot. |
| `SampleRing.Window` | esp32c3/src/main.cpp:275-285 | The graph visits exactly `count` samples. |
| `SampleRing.Trim` | esp32c3/src/main.cpp:92 | At most 160 samples are kept. |
| `SampleRing.SlotBeforeFull` | esp32c3/src/main.cpp:275-282 | Until the buffer fills, point i is read from slot i. |
| `SampleRing.SlotWhenFull` | esp32c3/src/main.cpp:275-282 | Once the buffer is full, the graph starts at the write index, the oldest sample. |
| `SampleRing.WindowPush` | esp32c3/src/main.cpp:232-238 | Storing x at the write index makes the drawn window the old window plus x, trimmed to the newest 160. |
| `SampleRing.SlotsDistinct` | esp32c3/src/main.cpp:275-282 | The graph never visits a slot twice. |
| `SampleRing.WindowIsFilledSlots` | esp32c3/src/main.cpp:241-247 | The drawn window holds exactly the samples in slots `[0, count)`, the ones the rescan reads. |
| `SampleRing.ModBelowTwice` | esp32c3/src/main.cpp:275 | `% 160` of a value below 320 subtracts 160 at most once. |
| `SampleRing.SeqMin` | esp32c3/src/main.cpp:241-247 | The minimum found by the scan is at most every sample. |
| `SampleRing.SeqMax` | esp32c3/src/main.cpp:241-247 | The maximum found by the scan is at least every sample. |
| `SampleRing.SeqMinAttained` | esp32c3/src/main.cpp:241-247 | The minimum is one of the samples. |
| `SampleRing.SeqMaxAttained` | esp32c3/src/main.cpp:241-247 | The maximum is one of the samples. |
| `SampleRing.AutoScale` | esp32c3/src/main.cpp:240-252 | The padded scale starts at 0 or above and covers every sample. The top lies at least 15% of the minimum spread of 15 above the largest sample, and the bottom at least as far below the smallest, unless it is clamped at 0. When the samples spread by 15 or more, the top and bottom are exactly the extremes padded by 15% of that spread. For non-negative samples the scale starts at or below every sample and spans at least 2.25. |
| `SampleRing.FpsHistoryPush` | esp32c3/src/main.cpp:232-253 | Storing a positive sample and rescaling keeps a valid frame-rate history. |
| `SampleRing.CpuHistoryPush` | esp32c3/src/main.cpp:130-139 | Storing a non-negative sample keeps a valid CPU history. |
| `SampleRing.FpsHistoryCovered` | esp32c3/src/main.cpp:284-291 | Every drawn frame-rate sample lies inside the scale, and `maxFPS - minFPS` is at least 2.25, so the graph never divides by zero. |
| `GraphGeometry.XCoordEnds` | esp32c3/src/main.cpp:288-289 | The first point is at x = 5 and the last at x = 154, whatever the count. |
| `GraphGeometry.XCoordMonotone` | esp32c3/src/main.cpp:288-289 | x never decreases along the graph and stays in [5, 154]. |
| `GraphGeometry.TruncToZero` | esp32c3/src/main.cpp:290-291 | The float-to-int conversion truncates toward zero. |
| `GraphGeometry.TruncMono` | esp32c3/src/main.cpp:290-291 | Truncation is monotone. |
| `GraphGeometry.YCoord` | esp32c3/src/main.cpp:290-294 | Every y is constrained into [5, 44]. |
| `GraphGeometry.YCoordMonotone` | esp32c3/src/main.cpp:290-294 | A larger value is never drawn lower. |
| `GraphGeometry.YCoordInScale` | esp32c3/src/main.cpp:290-294 | A value inside the scale is drawn less than one pixel from its exact position, with no clamping. |
| `GraphGeometry.Polyline` | esp32c3/src/main.cpp:280-297 | The loop draws `count - 1` segments, or none for fewer than two samples. |
| `GraphGeometry.PolylineByElements` | esp32c3/src/main.cpp:280-297 | A list with that length and those segments is the polyline. |
| `GraphGeometry.PolylineShape` | esp32c3/src/main.cpp:280-297 | The segments form one connected line from x = 5 to x = 154 that never moves left and stays inside the box. |
| `Arith.MulDivCancel` | esp32c3/src/main.cpp:288-289 | `(d * a) / d == a`: the last point lands exactly on the right edge. |
| `Display.Elapsed` | esp32c3/src/main.cpp:366 | `millis() - since` on unsigned longs is the time elapsed modulo 2^32. |
| `Display.StaleExactlyAfterTimeout` | esp32c3/src/main.cpp:366-368 | d ms after a record, the waiting screen is shown iff d > 10000, even across a wrap of the clock. |
| `Display.FromWire` | esp32c3/src/main.cpp:334-340 | A record from the PC program is read field by field. Its missing `brightness` and `cpu_load` keys read as 0, and the fan speed becomes a float. |
| `Display.Stored` | esp32c3/src/main.cpp:334-342 | After a record is parsed, hwData is marked valid and stamped with the current time. |
| `Display.TempColour` | esp32c3/src/main.cpp:391 | A temperature is drawn hot exactly above 80 degrees, and cool otherwise. |
| `Display.FanColour` | esp32c3/src/main.cpp:400 | A fan speed is drawn hot exactly above 2000 RPM, and cool otherwise. |
| `Display.FpsColour` | esp32c3/src/main.cpp:419-420 | Green exactly above 60 fps, orange exactly in (30, 60], red exactly at or below 30. |
| `Display.TempField` | esp32c3/src/main.cpp:209-217 | `drawTempText`: a temperature is shown, in its colour, exactly when it is above 0; otherwise "N/A". |
| `Display.FanField` | esp32c3/src/main.cpp:397-406 | The fan speed is shown, in its colour, exactly when it is above 0; otherwise "0". |
| `Display.FpsField` | esp32c3/src/main.cpp:416-426 | The frame rate is shown, in its colour, exactly when it is above 0; otherwise "N/A". |
| `Display.StatsScreen` | esp32c3/src/main.cpp:382-426 | The statistics screen draws the FPS graph exactly when `fps >= 0`. Each of the four readings is shown, with its own value, exactly when it is above 0. |
| `Display.ColoursMonotone` | esp32c3/src/main.cpp:391-420 | A higher frame rate never gets a worse colour. A hotter temperature or faster fan that is already "hot" stays so. |
| `Display.PcRecordOnScreen` | esp32c3/src/main.cpp:382-426 | End to end from the PC record: each sent value is shown and each null one gets its placeholder. The frame-rate graph is chosen iff a frame rate was sent. |
| `Display.BacklightStepAsWritten` | esp32c3/src/main.cpp:368-380 | As written: the waiting screen writes 0 to the pin and keeps `oldBrightness`. A statistics frame writes and caches a brightness that differs from the cache, and changes nothing otherwise. |
| `Display.StaleBacklightAsWritten` | esp32c3/src/main.cpp:368-380 | As written: after 200, a waiting frame and 200 again, the pin keeps 0 and the cache no longer describes it. |
| `Display.BacklightStep` | esp32c3/src/main.cpp:368-380 | Corrected: the cache keeps describing the pin. A waiting frame writes 0. A statistics frame leaves the requested brightness cached, and changes nothing when it was already cached. |
| `Display.BacklightRunShowsBrightness` | esp32c3/src/main.cpp:368-380 | Over any run of frames the cache keeps describing the pin. After a statistics frame the cache holds that frame's brightness, and so does the pin. The one exception is a brightness of 127 asked for before anything was written, which leaves the pin at setup's HIGH. |
| `Display.FirstRecordAt127KeepsSetupLevel` | esp32c3/src/main.cpp:377-379 | The initial 127 cached (main.cpp:117) does not describe the HIGH level that setup writes (main.cpp:437). A first record asking for 127 writes nothing, as written and as corrected. |
| `Display.PcRecordSetsBacklightToZero` | esp32c3/src/main.cpp:338 | A record from the PC program has no `brightness`, so the next statistics frame writes 0 to the backlight. |
| `Display.GraphSegments` | esp32c3/src/main.cpp:274-300 | The segment loop, shared with main.cpp:156-181, draws exactly the polyline of the window, oldest sample first. |
| `Display.ScanScale` | esp32c3/src/main.cpp:240-252 | The min/max loop and the padding compute exactly `AutoScale` of the filled slots. |
| `Display.Dashboard.constructor` | esp32c3/src/main.cpp:110-119 | The globals after their initialisers and setup: both histories empty, scale 0 to 60, brightness 127 cached. |
| `Display.Dashboard.StoreFps` | esp32c3/src/main.cpp:234-238 | The sample is written at the index, the index advances modulo 160, and the count saturates at 160. |
| `Display.Dashboard.RescaleFps` | esp32c3/src/main.cpp:240-252 | `minFPS`/`maxFPS` become `AutoScale` of the filled slots. |
| `Display.Dashboard.AddFPSData` | esp32c3/src/main.cpp:232-254 | A positive sample is stored and the drawn window becomes the newest 160 samples. Any other sample changes nothing. The history stays valid. |
| `Display.Dashboard.StoreCpuUsage` | esp32c3/src/main.cpp:132-134 | The same store and advance for the CPU history. |
| `Display.Dashboard.AddCPUUsageData` | esp32c3/src/main.cpp:130-139 | A usage of 0 or more is stored (the window gains it, trimmed to 160) with the fixed 0-100 scale. A negative one changes nothing. |
| `Display.Dashboard.ReadSerialData` | esp32c3/src/main.cpp:321-353 | A line that does not parse changes nothing. A parsed record replaces hwData. Both histories gain a sample only when 40 ms have passed since the last graph update. |
| `Display.Dashboard.HandleOled` | esp32c3/src/main.cpp:366-426 | Waiting screen iff no data or data older than 10 s. Otherwise the statistics screen with the FPS graph when `fps >= 0`, else the CPU graph, drawn over the current window. The backlight takes one corrected step. |

## Left out

- `Rtss.EntryBytes` / `Rtss.ReadFps`: an entry lying outside the mapped 4 MiB window is abstracted as "no value" for the whole scan. `Marshal.Copy` would instead copy whatever memory lies there, or raise an access violation that a bare `catch` does not stop, ending the process.
- `Rtss.FileName`: models .NET on Windows with a leading "X:" drive root only. UNC and device roots are not modelled. Nor is the older .NET Framework behaviour, which treats ':' anywhere as a separator and throws on invalid path characters (a throw would end the scan through the final `catch`).
- `Connect`, `Disconnect`, `GetActiveWindowProcess` and the region names, because they are calls into the operating system. Their results arrive as parameters.
- The WMI queries, the `try`/`catch` around them and `TryParse`, because they are foreign calls. A row arrives with its value already parsed, or None.
- Threads, the lock, `Thread.Sleep` and `Application.Exit`. The two loops are modelled as sequential passes, with the lock as an atomic snapshot.
- The JSON text on both sides. Serialisation and ArduinoJson parsing are replaced by the record value, with a missing key read as 0.
- Names and paths outside ASCII, because UTF-8 decoding and non-ASCII case folding are left out.
- `Rtss.RoundTenths`: the single-precision `1000.0f * dwFrames / delta` and `Math.Round(fps, 1)` are modelled in exact arithmetic. The contract allows either neighbour at an exact midpoint instead of the ties-to-even choice. The range test is exact too, so float rounding at its edges is not captured.
- `WmiSensors.GetCpuFanSpeed`: the overflow of `(int)Math.Round(rpm)` above 2^31 is not modelled.
- `Telemetry.SerialCommunication.SendData`: a write that throws after part of the line went out is modelled as sending nothing.
- `Display.Dashboard.ReadSerialData`: `millis()` is read several times in the source and is modelled as one `now` per call. The timestamp is an unbounded integer instead of an `unsigned long`.
- `Display.Dashboard.HandleOled`: the brightness is written to the pin without the clamp to 0..255 that `analogWrite` applies, and the pin's initial HIGH is modelled as "not written yet". The method takes the corrected backlight step: its waiting branch also sets `oldBrightness` to 0, where main.cpp:375 leaves it alone. Only `Display.BacklightStepAsWritten` follows the code as written (see "## Findings").
- All drawing: the sprite, gradients, grid, labels, fonts and the degree symbol. A frame is modelled by the screen it shows and the segments of its graph.
- Blynk, OTA, WiFi, `setup`'s hardware initialisation, `loop`'s scheduling, `notify.py` and the tray icon, because they are I/O around the core.

## Findings

| source | as written | input that shows it | evidently intended | confidence | as-written member | corrected member |
|---|---|---|---|---|---|---|
| esp32c3/src/main.cpp:366-380 | The waiting screen writes 0 to the backlight pin but leaves `oldBrightness` alone. | Brightness 200 is shown, data expires (pin 0), then records with brightness 200 arrive again: `200 != oldBrightness` is false, so the pin stays at 0. | The next statistics frame restores the requested brightness. | medium, not executed | `Display.StaleBacklightAsWritten` | `Display.BacklightRunShowsBrightness` |
