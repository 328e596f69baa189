# ESP32 OBD2 gear and shift-light display — Dafny model

The firmware runs on an ESP32-S3 plugged into a 2016 Ford Mustang's OBD2 port. It splits its work across two cores:
- **Acquisition.** One core listens to the CAN bus, decodes three broadcast frames (engine RPM, engaged gear, gearbox mode) into module-level slots, and publishes them into a record shared with the other core under a binary semaphore.
- **Display.** The other core copies the record, then draws the gear glyph and a shift-light bar on a round display, redrawing only what changed.
- **Power.** A controller lowers the clock and switches the display off while the car is off. It watches the bus in one-second windows until the engine turns, and it restarts the device once the engine stops.

Three smaller parts complete the core: an OBD2 request-frame encoder with its field accessors, an in-place horizontal mirror of 1-bit glyph bitmaps, and a countdown timer with 32-bit wrap-around.

The model has one Dafny module per source file:
- `OBD2Calculations` (obd2_calculations.dfy)
- `CollectCarData` (collect_car_data.dfy)
- `OBD2Utils` (obd2_utils.dfy)
- `HandleLowPowerState` (handle_low_power_state.dfy)
- `DisplayInfo` (display_info.dfy)
- `MirrorFont` (mirror_font.dfy)
- `AsyncTimer` (async_timer.dfy)

`CanTypes` (can_types.dfy) holds what they share: the fixed-width integer types, explicit wrap-around conversions, `Option`, and the CAN frame record.

Mutable state follows the firmware:
- **Classes.** The decoder slots (`Slots`), the shared record with its semaphore (`SharedCarData`), the display task's tracking state (`Display`), the power controller (`PowerController`) and the timer (`AsyncTimer`) are classes whose methods update their fields.
- **Ghost state.** The semaphore is a ghost "free" flag. What is sent to the screen, and the task and platform calls the controller makes, are ghost event logs.
- **Arrays.** Glyph bitmaps are arrays mirrored in place.

Each state-changing method is tied to a pure function of the old state. The properties are proved about those functions.

## Model

| member | source | states |
|---|---|---|
| OBD2Calculations.EngineRPMOf | OBD2Calculations.h:12-19 | engine speed is in 0..131070, even, and its half gives back byte 3 (high) and byte 4 (low) |
| OBD2Calculations.EngineRPMExample | OBD2Calculations.h:14-16 | bytes 3-4 = 0x0F, 0xA0 decode to 8000 rpm |
| OBD2Calculations.EngineRPMOnlyReadsBytes3And4 | OBD2Calculations.h:14-16 | payloads that agree on bytes 3 and 4 decode to the same speed |
| OBD2Calculations.CurrentGearOf | OBD2Calculations.h:32-48 | gear is -1 when byte 1 is 2, 0 when byte 1 is 4, otherwise the high nibble of byte 0; always in -1..15 |
| OBD2Calculations.CurrentGearExamples | OBD2Calculations.h:34-45 | [0x30,0x04,..] is neutral whatever byte 0 holds; [0x20,0x00,..] is gear 2 |
| OBD2Calculations.GearboxModeOf | OBD2Calculations.h:82-86 | the mode is byte 1 unchanged, in 0..255 |
| OBD2Calculations.GearboxModePassesEveryByte | OBD2Calculations.h:84 | every byte value passes through, whether or not it names a GearboxMode member |
| OBD2Calculations.Slots.constructor | OBD2Calculations.h:10 | the three slots start at 0 rpm, gear 0 and mode P |
| OBD2Calculations.Slots.CalcEngineRPM | OBD2Calculations.h:12-19 | only the RPM slot changes, to the decoded speed, and that value is returned |
| OBD2Calculations.Slots.CalcCurrentGear | OBD2Calculations.h:32-48 | only the gear slot changes, to the decoded gear, and that value is returned |
| OBD2Calculations.Slots.CalcGearboxMode | OBD2Calculations.h:82-86 | only the mode slot changes, to byte 1, and that value is returned |
| OBD2Calculations.DecimalString | OBD2Calculations.h:60 | the `%d` text of n >= 0 is all digits, denotes n and has no leading zero |
| OBD2Calculations.GearLabel | OBD2Calculations.h:50-64 | "Reverse" exactly for -1, the decimal digits of a positive gear, "Neutral" otherwise |
| OBD2Calculations.ModeLabelAsWritten | OBD2Calculations.h:88-95 | D prints "P"; R, N and S print their letters; every other value, P included, prints the unknown-mode text |
| OBD2Calculations.ModeLabelAsWrittenConfusesParkAndDrive | OBD2Calculations.h:90-94 | Drive prints "P", Park prints the unknown-mode text, and no mode ever prints "D" |
| OBD2Calculations.ModeLabel | OBD2Calculations.h:90-94 | corrected label: P, R, N, D and S each print their own letter; every other value prints the unknown-mode text |
| OBD2Calculations.ModeLabelCorrectsParkAndDrive | OBD2Calculations.h:90-94 | the corrected label differs from the label as written exactly for Park and Drive |
| OBD2Calculations.ModeLabelDistinguishesModes | OBD2Calculations.h:71-78 | the corrected label gives distinct modes distinct labels |
| CollectCarData.SharedCarData.constructor | Shared.h:33-34 | the shared record starts zeroed, with no semaphore given |
| CollectCarData.SharedCarData.CreateSemaphore | CollectCarData.h:45 | a newly created binary semaphore is taken |
| CollectCarData.SharedCarData.Take | CollectCarData.h:109 | taking the free semaphore leaves it taken |
| CollectCarData.SharedCarData.Give | CollectCarData.h:120 | giving the taken semaphore leaves it free |
| CollectCarData.SharedCarData.SetEngineRPM | CollectCarData.h:110 | under the semaphore, only the record's RPM changes, to the given value |
| CollectCarData.SharedCarData.SetCurrentGear | CollectCarData.h:111 | under the semaphore, only the record's gear changes, to the given value |
| CollectCarData.SharedCarData.SetGearboxMode | CollectCarData.h:112 | under the semaphore, only the record's mode changes, to the given value |
| CollectCarData.SetupCollectCarData | CollectCarData.h:38-50 | the shared record is zeroed and the semaphore, created taken, is given once and so is free |
| CollectCarData.CanIDsDistinct | CollectCarData.h:24-27 | the table has three rows with pairwise distinct identifiers |
| CollectCarData.Apply | CollectCarData.h:99-101 | each decoder replaces its own slot with its decoding of the payload and leaves the other two alone |
| CollectCarData.FindDecoder | CollectCarData.h:97-104 | no decoder exactly when no row has the identifier; a decoder found belongs to a row with that identifier |
| CollectCarData.FindDecoderExtend | CollectCarData.h:97-104 | scanning one more row changes the result only when no earlier row matched |
| CollectCarData.DecodeFrameCases | CollectCarData.h:93-104 | a frame of length other than 8, or with an unknown identifier, changes no slot; 0x204, 0x230 and 0x171 change only the RPM, gear and mode slot respectively |
| CollectCarData.SerialDigitAcceptsDigitsOnly | CollectCarData.h:58-59 | the 8-bit `c - '0' < 10` test accepts exactly '0'..'9' and then yields the digit |
| CollectCarData.EmulateCases | CollectCarData.h:56-64 | a non-digit changes nothing; a digit sets RPM to digit*1000 or the gear to the digit |
| CollectCarData.EmulateEngineRPM | CollectCarData.h:53-67 | the RPM slot and the shared RPM take digit*1000 when a digit is available; nothing changes otherwise |
| CollectCarData.EmulateCurrentGear | CollectCarData.h:70-84 | the gear slot and the shared gear take the digit when one is available; nothing changes otherwise |
| CollectCarData.CollectCarData | CollectCarData.h:87-121 | the slots become the dispatch (and emulation) of the sample; the shared record then equals the slots whether or not a row matched; the semaphore is free again |
| OBD2Utils.ServiceCode | OBD2Utils.h:7-13 | every service code is below the 0x40 response offset |
| OBD2Utils.ModuleId | OBD2Utils.h:16-22 | every module identifier is above 0xFFF, so requests to modules are extended frames |
| OBD2Utils.RequestFrameLayout | OBD2Utils.h:46-56 | identifier as given, length 8, extended iff id > 0xFFF, byte 0 is 3 or 2 by PID width, byte 1 the service's low byte, bytes 2-3 the big-endian PID or the PID then 0xAA, bytes 4-7 0xAA |
| OBD2Utils.SendOBD2Request | OBD2Utils.h:40-64 | the frame filled byte by byte is the request frame of the module, service and PID |
| OBD2Utils.SendOBD2RequestTo | OBD2Utils.h:67-70 | the enumeration overload builds the numeric overload's frame, and it is extended |
| OBD2Utils.SendOBD2RequestFor | OBD2Utils.h:73-76 | the record overload builds the frame of the record's module, service and PID |
| OBD2Utils.GetPID | OBD2Utils.h:79-83 | byte 2 for a standard frame; for an extended frame a value whose high byte is byte 2 and low byte is byte 3 |
| OBD2Utils.GetPIDOfRequest | OBD2Utils.h:47-52 | reading the PID back from a built request gives the PID exactly when the frame format matches the PID's width |
| OBD2Utils.GetPIDOfModuleRequest | OBD2Utils.h:67-76 | a two-byte PID sent to any named module reads back unchanged |
| OBD2Utils.GetService | OBD2Utils.h:86-92 | byte 1 for a sent frame; for a received frame byte 1 minus 0x40 modulo 2^16 (wrapping to >= 0xFFC0 below 0x40) |
| OBD2Utils.GetServiceRoundTrip | OBD2Utils.h:86-92 | a request reads back its service, and a positive response (service + 0x40) reads back the requested service |
| OBD2Utils.GetServiceExample | OBD2Utils.h:90-91 | 0x62 in a received frame is service 0x22 |
| OBD2Utils.IsValidCarModule | OBD2Utils.h:95-100 | valid exactly when the identifier's high bits are 0x7 (11-bit 0x7xx) or 0x18 (29-bit 0x18xxxxxx) |
| OBD2Utils.ValidCarModuleFormats | OBD2Utils.h:95-100 | a valid identifier is an 11-bit or a 29-bit one, and a request to it is extended exactly in the extended range |
| OBD2Utils.CarModulesAreValid | OBD2Utils.h:16-22 | all four named modules are valid; 0x6FF, 0x800, 0x17FFFFFF and 0x19000000 are not |
| HandleLowPowerState.LiteSleepEffect | HandleLowPowerState.h:20-45 | lite sleep ends at 80 MHz, LED off, no display task; with a task it logs suspend, display off, delete in that order and the screen receives the display-off events; without one it changes neither display, screen nor log; it is idempotent |
| HandleLowPowerState.CheckEffect | HandleLowPowerState.h:103-116 | RPM > 0 changes nothing; RPM <= 0 always ends rebooted, display off, no task, 80 MHz, with display-off first and restart last |
| HandleLowPowerState.WokeAndAsleep | HandleLowPowerState.h:74-100 | waking differs from still waiting only in the 240 MHz clock and the LED; waiting adds one pause per failed window |
| HandleLowPowerState.RunRpmIsLastRpm | HandleLowPowerState.h:83-86 | without emulation the RPM slot holds the decoding of the last RPM broadcast collected, or its initial value |
| HandleLowPowerState.SilentBusNeverWakes | HandleLowPowerState.h:86 | from a stopped slot, frames with no non-zero RPM broadcast never make the wake test succeed |
| HandleLowPowerState.WatchWindow | HandleLowPowerState.h:80-96 | collects one window's frames in order and stops at the first whose collection leaves RPM > 0; every earlier check saw RPM <= 0; the shared record then holds the published slots, or is untouched when the window is empty |
| HandleLowPowerState.PowerController.constructor | Shared.h:35 | the display task handle starts null; LED off, nothing restarted or logged; the clock is the given start speed |
| HandleLowPowerState.PowerController.SwitchDisplayOff | HandleLowPowerState.h:112 | the display is off, the call is logged, and the screen receives the clear, power-off and 200 ms pause of `TurnDisplayOff` |
| HandleLowPowerState.PowerController.LiteSleep | HandleLowPowerState.h:20-45 | the new state, screen events included, is the lite-sleep transition of the old one; with power saving disabled nothing changes, the screen included |
| HandleLowPowerState.PowerController.Reboot | HandleLowPowerState.h:48-61 | the restart is issued and logged unless power saving is disabled |
| HandleLowPowerState.PowerController.CheckIfCarIsStillOn | HandleLowPowerState.h:103-116 | the new state, screen events included, is the check transition for the shared record's RPM: nothing changes when RPM > 0 or power saving is disabled |
| HandleLowPowerState.PowerController.WatchWindows | HandleLowPowerState.h:74-100 | returns at the first positive RPM with clock 240 and LED on; otherwise every window saw RPM <= 0 and was followed by one 3000 ms pause, and the shared record holds the last published slots, or is untouched when no frame was collected |
| HandleLowPowerState.PowerController.WaitForCarToTurnOn | HandleLowPowerState.h:63-101 | bypassed exactly when power saving is disabled, and then state, screen, slots and shared record are unchanged; otherwise lite sleep, then a return right after the first collection with RPM > 0, every earlier check having seen RPM <= 0, slots equal to the run so far and shared record published; when the windows run out without one, the slots are the whole run and the shared record their last publication (untouched if no frame was collected) |
| DisplayInfo.GenerateGearText | DisplayInfo.h:124-134 | the glyph is one of P R N D 1..8, and for gears 1..8 it is that digit |
| DisplayInfo.GearTextRoundTrip | DisplayInfo.h:124-134 | gears -2..8 read back from their glyph; every other gear (9..15, -12, ...) shows 'D', and only those do |
| DisplayInfo.GearTextDistinguishesGears | DisplayInfo.h:124-134 | different gears in -2..8 get different glyphs |
| DisplayInfo.DecodedGearText | DisplayInfo.h:126-132 | a decoded reverse shows 'R', a decoded neutral 'N', a nibble gear above 8 'D' |
| DisplayInfo.GearColor | DisplayInfo.h:147-151 | red exactly when RPM > 4500, white otherwise |
| DisplayInfo.FirstLight | DisplayInfo.h:183-190 | the selected entry is the first whose threshold the RPM exceeds: all earlier ones are not exceeded |
| DisplayInfo.ShiftIndicatorLightsDescend | DisplayInfo.h:21-23 | five lights, thresholds strictly descending, the shift-now light red |
| DisplayInfo.FirstLightMonotone | DisplayInfo.h:183-190 | a higher RPM never selects a later light |
| DisplayInfo.ShiftColorBands | DisplayInfo.h:21-23 | the light colour is red above 4500, yellow above 3500, green above 2500, blue above 1500, dark grey otherwise; RPM <= 0 matches no entry |
| DisplayInfo.ShiftNowAgrees | DisplayInfo.h:148 | the shift bar is red exactly when the gear text is red |
| DisplayInfo.ShiftIndicatorColor | DisplayInfo.h:181-190 | the scan with early exit returns the first-match colour |
| DisplayInfo.ParkOverrideEffect | DisplayInfo.h:42-47 | only the gear changes, exactly for neutral in mode P, to Park, which shows 'P'; the override is idempotent |
| DisplayInfo.GearTextEventsCases | DisplayInfo.h:154-176 | nothing is drawn exactly when gear and colour are unchanged; the old glyph is cleared exactly on a gear change; the last glyph drawn is the current gear in the current colour |
| DisplayInfo.GearTextSettles | DisplayInfo.h:163-164 | a second draw with the same data draws nothing |
| DisplayInfo.FirstDrawAlwaysDraws | DisplayInfo.h:28 | any decoded gear, or Park, differs from the initial -12, so the first call draws |
| DisplayInfo.Display.constructor | DisplayInfo.h:28-33 | display off, previous gear -12, previous colour white, zero copy, nothing drawn |
| DisplayInfo.Display.CopyCarData | DisplayInfo.h:36-48 | the copy is the shared record with the Park override; the record is unchanged and its semaphore free |
| DisplayInfo.Display.TurnDisplayOn | DisplayInfo.h:66-86 | power on, screen cleared, display marked on |
| DisplayInfo.Display.TurnDisplayOff | DisplayInfo.h:88-95 | screen cleared, power cut, 200 ms pause, display marked off |
| DisplayInfo.Display.DrawGearText | DisplayInfo.h:144-177 | afterwards the tracked gear and colour are the copy's, and the events drawn are those of its change decision |
| DisplayInfo.Display.DrawShiftIndicator | DisplayInfo.h:179-202 | draws the bar in the first-match colour with the RPM capped at 6000 |
| DisplayInfo.Display.Refresh | DisplayInfo.h:212-223 | one pass of the task loop: refreshed copy; while the display is on, tracking is up to date and the gear-text events and the capped shift bar are drawn; while off, tracking is unchanged and nothing is drawn; either way the pass ends with a 1 ms pause |
| MirrorFont.GetNthBit | MirrorFont.h:9-12 | 0 or 1; for n < 8 it is 1 exactly when bit n is set; 0 for 8 <= n < 32 |
| MirrorFont.SetNthBit | MirrorFont.h:15-25 | bit n becomes 1 when input >= 1, 0 otherwise, and the other seven bits keep their values (for 8 <= n < 32 the byte is unchanged) |
| MirrorFont.BitIsMsbFirst | MirrorFont.h:30-34 | stream bit p is set exactly when byte p/8 has the bit selected by 0x80 >> (p % 8) |
| MirrorFont.GetPixel | MirrorFont.h:28-36 | 0 or 1, the MSB-first bit at position y*width + x (in 16 bits) |
| MirrorFont.SetPixel | MirrorFont.h:39-46 | only the byte holding the pixel changes; the pixel now reads the new value as 0 or 1; every other bit is unchanged |
| MirrorFont.PositionsDiffer | MirrorFont.h:30 | distinct pixels of a glyph of at most 255 x 255 have distinct positions |
| MirrorFont.MirrorStep | MirrorFont.h:64-65 | writing the mirror of one source pixel extends the mirrored part by that pixel |
| MirrorFont.MirrorComplete | MirrorFont.h:60-67 | after the last row every pixel holds the original pixel of the mirrored column |
| MirrorFont.MirrorRow | MirrorFont.h:60-66 | one iteration of the outer loop, the whole inner loop over row j's columns, mirrors row j into place, keeps the padding clear and writes nothing outside the cleared bytes |
| MirrorFont.MirrorBytes | MirrorFont.h:50-68 | for the given byte count: only those bytes change, pixel (i,j) equals the original (width-1-i, j), the bits past the pixels are 0, and the temporary buffer holds the original bytes, the rest of it unchanged |
| MirrorFont.MirrorText | MirrorFont.h:50-68 | with numBytes = width*height/8 + 1: mirrored, bits past numPixels cleared, and when numPixels is a multiple of 8 the whole following byte is 0; the temporary buffer holds the original bytes |
| MirrorFont.NumBytesOverCounts | MirrorFont.h:53-54 | `MirrorText`'s count exceeds the glyph's size by one byte exactly when numPixels is a multiple of 8 (8 x 8: 9 bytes for 8) |
| MirrorFont.MirrorTextCorrected | MirrorFont.h:50-68 | with the rounded-up count: mirrored, nothing outside the glyph's own bytes is written, and the temporary buffer holds the original bytes, the rest of it unchanged |
| MirrorFont.MirrorTwiceRestores | MirrorFont.h:57-67 | mirroring twice gives back every pixel of the glyph |
| AsyncTimer.AsyncTimer.constructor | AsyncTimer.h:9-14 | inactive, start 0, the given duration (default 0) |
| AsyncTimer.AsyncTimer.StartFor | AsyncTimer.h:27-32 | active, with the given duration, started now |
| AsyncTimer.AsyncTimer.Start | AsyncTimer.h:16 | re-armed with the stored duration, started now |
| AsyncTimer.AsyncTimer.Stop | AsyncTimer.h:18 | only the active flag changes, to false |
| AsyncTimer.AsyncTimer.Elapsed | AsyncTimer.h:36 | now - start, plus 2^32 when the clock has wrapped past start |
| AsyncTimer.AsyncTimer.RanOut | AsyncTimer.h:34-42 | true exactly when (now - start) mod 2^32 exceeds the duration; the active flag is not read |
| AsyncTimer.AsyncTimer.GetTimeLeft | AsyncTimer.h:22-25 | below 2^31; duration - elapsed when the elapsed time is within the duration, 0 once it is reached (both below 2^31) |
| AsyncTimer.NewTimerAtStart | AsyncTimer.h:9-14 | a new timer with a duration below 2^31 has not run out at time 0 and has its whole duration left |
| AsyncTimer.BoundaryTick | AsyncTimer.h:24-36 | at elapsed == duration no time is left and yet the timer has not run out |
| AsyncTimer.BeforeDuration | AsyncTimer.h:22-42 | for a duration below 2^31, before the duration both queries agree: not run out, and duration - elapsed > 0 left |
| AsyncTimer.AfterDuration | AsyncTimer.h:22-42 | past the duration (below 2^31 ms) run out and no time left |
| AsyncTimer.ElapsedAcrossWrap | AsyncTimer.h:36 | 10 ms before the 2^32 wrap to 5 ms after it is 15 ms elapsed |
| AsyncTimer.LongElapsedDisagreement | AsyncTimer.h:22-42 | for a duration below 2^31, once 2^31 ms or more have elapsed the timer has run out; the time left is 0 up to 2^31 + duration ms, and beyond that the signed conversion reports duration + 2^32 - elapsed > 0 ms left |

## Left out

- Graphics-library calls (`begin`, `fillScreen`, `setCursor`, `printf`, `fillArc`, rotation, font, text size) are foreign I/O; they appear only as entries of a ghost draw-event log.
- The arc angle `endRadius` of `DrawShiftIndicator` is floating-point; the model records only the RPM the bar shows, capped at 6000.
- `TurnDisplayOn`'s endless `begin()` retry loop is hardware retry; the model starts when `begin()` has succeeded.
- The TWAI driver (`ListenOnlyMode_SN65HVD230`, its configuration, `readFrame`, `writeFrame`) is hardware: the received frame is an input of `CollectCarData` and the request frame an output of `SendOBD2Request`; the 10 ms delay after sending is not modelled.
- FreeRTOS (semaphore waiting, `vTaskSuspend`, `vTaskDelete`, the two cores) is concurrency; the model is sequential, with a ghost semaphore flag and a task-present flag, and the suspend and delete calls as log entries.
- `millis`, `delay`, `setCpuFrequencyMhz`, `ESP.restart`, `digitalWrite` and `pinMode` are platform effects: the time is a parameter, the clock, LED and restart are fields, and the delays of the controller, of `TurnDisplayOff` and of the display task's loop are log entries. The model does not stop after a restart.
- Serial output (`DebugPrint*`, `PrintEngineRPM`, `PrintOBD2Frame`, `Serial.flush`) is output only; the label choice of `PrintCurrentGear` and `PrintGearboxMode` is kept.
- `SetupDisplay`'s calls of `MirrorText` use font tables that are not part of this model; the glyph offset, width and height are parameters.
- `ClearGearText` and `DisplayInfo` (the task's endless loop) are modelled as the events of `DrawGearText` and one pass, `Display.Refresh`.
- HandleLowPowerState.PowerController.WaitForCarToTurnOn: the firmware waits without limit; the model takes a finite sequence of one-second windows and reports `StillWaiting` when they are exhausted. The window length is the input's, not a 1000 ms clock measurement.
- Creating the display task happens in the program's `setup()`, which is not part of this model; the controller's methods take the task flag as they find it.
- HandleLowPowerState.PowerController.CheckIfCarIsStillOn: reads the shared record without taking the semaphore, as the firmware does; the model does not capture the race that this allows.
- MirrorFont.GetNthBit: shift amounts of 32 and more, undefined in C++ for the promoted `int`, are excluded by a precondition.
- MirrorFont.SetNthBit: likewise excludes shift amounts of 32 and more, for which `1 << n` is undefined; every caller passes 0..7.
- MirrorFont.GetPixel: the unused `numPixels` and `numBytes` parameters of `GetPixel` and `SetPixel` are dropped.
- MirrorFont.MirrorText: requires the byte count to fit the 1024-byte temporary buffer and the bitmap array, which the firmware assumes without checking.
- AsyncTimer.AsyncTimer.GetTimeLeft: the `int32_t` subtraction, which C leaves undefined on overflow, is taken as two's-complement wrap-around.
- AsyncTimer.AsyncTimer.IsActive: returns the active flag and has no contract of its own; the constructor, `Start` and `Stop` state what the flag holds.
- The dispatch loop runs the decoder of every matching row without stopping early; the model does the same, and since the identifiers are distinct at most one decoder runs.

## Findings

| source | as written | input that shows it | evidently intended | confidence | as-written member | corrected member |
|---|---|---|---|---|---|---|
| OBD2Calculations.h:90-94 | the first test compares the mode with D but prints "P"; the later D test is unreachable and P falls through to the unknown-mode text | mode 0x60 (Drive) prints "P"; mode 0x00 (Park) prints "ERROR: Unknown Drive Mode" | each named mode prints its own letter | high, not executed | OBD2Calculations.ModeLabelAsWritten | OBD2Calculations.ModeLabel |
| MirrorFont.h:54 | `numBytes = numPixels / 8 + 1` | an 8 x 8 glyph: 64 pixels occupy 8 bytes, but 9 are copied and cleared, so the first byte of the next glyph's bitmap becomes 0 | `(numPixels + 7) / 8` bytes, the glyph's own size | medium, not executed | MirrorFont.MirrorText | MirrorFont.MirrorTextCorrected |
