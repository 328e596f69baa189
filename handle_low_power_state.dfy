/** The power-state controller. While the car is off the device lowers its clock, tears
    down the display task and switches the display off; it watches the bus in one-second
    windows until the engine turns, and once the engine stops it restarts from a clean
    state. Clock frequency, LED, task handle and restart are abstract state; the frames of
    each one-second window are an input. */
module HandleLowPowerState {
  import opened CanTypes
  import opened OBD2Calculations
  import opened CollectCarData
  import opened DisplayInfo

  /** CPU clock speeds in MHz. */
  const ClockSpeed_Normal: uint32 := 240
  const ClockSpeed_LiteSleep: uint32 := 80
  /** The pause between two sampling windows, in ms. */
  const WindowPause := 3000

  /** The task and platform calls the controller makes. */
  datatype PowerEvent = SuspendDisplayTask | DisplayOff | DeleteDisplayTask | Delay(ms: nat) | Restart

  /** The controller's abstract state: clock, whether the display task exists, whether the
      display is on, the on-board LED, whether a restart was issued, the calls made, and what
      was sent to the screen. */
  datatype PowerState = PowerState(clockMhz: uint32, displayTask: bool, displayOn: bool, ledOn: bool,
                                   rebooted: bool, log: seq<PowerEvent>, screen: seq<DrawEvent>)

  /** What `TurnDisplayOff` sends to the screen and its power switch. */
  const DisplayOffEvents := [FillScreen(Black), MosfetSwitch(false), Pause(200)]

  // ------------------------------------------------------------------
  // The transitions as functions of the state
  // ------------------------------------------------------------------

  /** `LiteSleep` with power saving enabled. */
  function LiteSleepOf(s: PowerState): PowerState
  {
    var t := if s.displayTask
             then s.(displayTask := false, displayOn := false,
                     log := s.log + [SuspendDisplayTask, DisplayOff, DeleteDisplayTask],
                     screen := s.screen + DisplayOffEvents)
             else s;
    t.(ledOn := false, clockMhz := ClockSpeed_LiteSleep)
  }

  /** `LiteSleep` leaves the clock at 80 MHz with no display task and the LED off. With a task
      it suspends it, switches the display off and deletes it, in that order; without one it
      touches neither the display, the screen nor the log. A second `LiteSleep` changes
      nothing. */
  lemma LiteSleepEffect(s: PowerState)
    ensures var t := LiteSleepOf(s);
      && t.clockMhz == 80 && !t.displayTask && !t.ledOn && t.rebooted == s.rebooted
      && (s.displayTask ==> !t.displayOn && t.log == s.log + [SuspendDisplayTask, DisplayOff, DeleteDisplayTask]
                            && t.screen == s.screen + DisplayOffEvents)
      && (!s.displayTask ==> t.displayOn == s.displayOn && t.log == s.log && t.screen == s.screen)
    ensures LiteSleepOf(LiteSleepOf(s)) == LiteSleepOf(s)
  {
  }

  /** `TurnDisplayOff` as seen by the controller. */
  function DisplayOffOf(s: PowerState): PowerState
  {
    s.(displayOn := false, log := s.log + [DisplayOff], screen := s.screen + DisplayOffEvents)
  }

  /** `Reboot` with power saving enabled: the restart is issued. */
  function RebootOf(s: PowerState): PowerState
  {
    s.(rebooted := true, log := s.log + [Restart])
  }

  /** `CheckIfCarIsStillOn` with power saving enabled, given the shared record's RPM. */
  function CheckOf(s: PowerState, sharedRpm: int): PowerState
  {
    if sharedRpm <= 0 then RebootOf(LiteSleepOf(DisplayOffOf(s))) else s
  }

  /** A running engine leaves everything as it is. A stopped one always ends in a restart,
      with the display off, no display task and the clock lowered, and the last recorded
      call is the restart. */
  lemma CheckEffect(s: PowerState, sharedRpm: int)
    ensures sharedRpm > 0 ==> CheckOf(s, sharedRpm) == s
    ensures sharedRpm <= 0 ==> var t := CheckOf(s, sharedRpm);
      && t.rebooted && !t.displayOn && !t.displayTask && t.clockMhz == 80
      && |t.log| > |s.log| && t.log[|s.log|] == DisplayOff && t.log[|t.log| - 1] == Restart
  {
  }

  /** The state after the car has been seen to start, `failed` windows after the lite sleep. */
  function WokeOf(s: PowerState, failed: nat): PowerState
  {
    var t := LiteSleepOf(s);
    t.(clockMhz := ClockSpeed_Normal, ledOn := true, log := t.log + Delays(failed))
  }

  /** The state while still waiting, `failed` windows after the lite sleep. */
  function AsleepOf(s: PowerState, failed: nat): PowerState
  {
    var t := LiteSleepOf(s);
    t.(log := t.log + Delays(failed))
  }

  /** Waking differs from waiting only in the clock and the LED. */
  lemma WokeAndAsleep(s: PowerState, failed: nat)
    ensures WokeOf(s, failed) == AsleepOf(s, failed).(clockMhz := 240, ledOn := true)
    ensures AsleepOf(s, failed).clockMhz == 80 && !AsleepOf(s, failed).ledOn
    ensures |AsleepOf(s, failed).log| == |LiteSleepOf(s).log| + failed
  {
  }

  function Delays(n: nat): (d: seq<PowerEvent>)
    ensures |d| == n && forall i :: 0 <= i < n ==> d[i] == Delay(WindowPause)
  {
    seq(n, _ => Delay(WindowPause))
  }

  // ------------------------------------------------------------------
  // What the slots read during the waiting loop
  // ------------------------------------------------------------------

  /** All samples of the windows, in order. */
  function Concat(windows: seq<seq<Sample>>): seq<Sample>
  {
    if windows == [] then [] else Concat(windows[..|windows| - 1]) + windows[|windows| - 1]
  }

  lemma ConcatSnoc(windows: seq<seq<Sample>>, w: nat)
    requires w < |windows|
    ensures Concat(windows[..w + 1]) == Concat(windows[..w]) + windows[w]
  {
    assert windows[..w + 1][..w] == windows[..w];
  }

  lemma RunSnoc(build: DebugBuild, v: Signals, samples: seq<Sample>, s: Sample)
    ensures Run(build, v, samples + [s]) == Collect(build, Run(build, v, samples), s)
  {
    assert (samples + [s])[..|samples|] == samples;
  }

  /** The decoder RPM slot right after sample `k` of window `w` was collected. */
  function RpmAt(build: DebugBuild, v: Signals, windows: seq<seq<Sample>>, w: nat, k: nat): int32
    requires w < |windows| && k < |windows[w]|
  {
    Run(build, v, Concat(windows[..w]) + windows[w][..k + 1]).engineRpm
  }

  /** No check in the first `w` windows, nor in the first `k` samples of window `w`, saw a
      positive RPM. */
  ghost predicate QuietUntil(build: DebugBuild, v: Signals, windows: seq<seq<Sample>>, w: nat, k: nat)
    requires w <= |windows| && (w < |windows| ==> k <= |windows[w]|)
  {
    && (forall w', k' :: 0 <= w' < w && 0 <= k' < |windows[w']| ==> RpmAt(build, v, windows, w', k') <= 0)
    && (w < |windows| ==> forall k' :: 0 <= k' < k ==> RpmAt(build, v, windows, w, k') <= 0)
  }

  lemma QuietStep(build: DebugBuild, v: Signals, windows: seq<seq<Sample>>, w: nat, k: nat)
    requires w < |windows| && k < |windows[w]|
    requires QuietUntil(build, v, windows, w, k) && RpmAt(build, v, windows, w, k) <= 0
    ensures QuietUntil(build, v, windows, w, k + 1)
  {
  }

  lemma QuietNextWindow(build: DebugBuild, v: Signals, windows: seq<seq<Sample>>, w: nat)
    requires w < |windows| && QuietUntil(build, v, windows, w, |windows[w]|)
    ensures QuietUntil(build, v, windows, w + 1, 0)
  {
  }

  /** Collecting sample `k` of window `w` extends the run by that sample. */
  lemma RunStep(build: DebugBuild, v: Signals, windows: seq<seq<Sample>>, w: nat, k: nat)
    requires w < |windows| && k < |windows[w]|
    ensures Run(build, v, Concat(windows[..w]) + windows[w][..k + 1])
         == Collect(build, Run(build, v, Concat(windows[..w]) + windows[w][..k]), windows[w][k])
  {
    var done := Concat(windows[..w]) + windows[w][..k];
    RunSnoc(build, v, done, windows[w][k]);
    assert done + [windows[w][k]] == Concat(windows[..w]) + windows[w][..k + 1];
  }

  /** How `WaitForCarToTurnOn` ends: after sample `k` of window `w` showed a running engine,
      by running out of modelled windows (the firmware keeps waiting), or at once when power
      saving is disabled. */
  datatype WaitOutcome = Woke(window: nat, sample: nat) | StillWaiting | Bypassed

  /** Whether a frame is the RPM broadcast that the dispatch accepts. */
  predicate IsRpmFrame(f: CanFrame)
  {
    f.dataLengthCode == 8 && f.identifier == 0x204
  }

  /** In a build without emulation the RPM slot holds the value decoded from the last RPM
      broadcast collected, or its initial value when there was none. */
  function LastRpm(initial: int32, samples: seq<Sample>): int32
  {
    if samples == [] then initial
    else if IsRpmFrame(samples[|samples| - 1].frame) then EngineRPMOf(samples[|samples| - 1].frame.data)
    else LastRpm(initial, samples[..|samples| - 1])
  }

  lemma {:induction false} RunRpmIsLastRpm(v: Signals, samples: seq<Sample>)
    ensures Run(Release, v, samples).engineRpm == LastRpm(v.engineRpm, samples)
  {
    if samples != [] {
      var n := |samples| - 1;
      RunRpmIsLastRpm(v, samples[..n]);
      DecodeFrameCases(Run(Release, v, samples[..n]), samples[n].frame);
    }
  }

  /** Without emulation, a stretch of frames with no RPM broadcast whose bytes 3 and 4 are
      non-zero never shows a running engine to a slot that started at 0 or below. */
  lemma {:induction false} SilentBusNeverWakes(v: Signals, samples: seq<Sample>)
    requires v.engineRpm <= 0
    requires forall i :: 0 <= i < |samples| && IsRpmFrame(samples[i].frame) ==>
      samples[i].frame.data[3] == 0 && samples[i].frame.data[4] == 0
    ensures Run(Release, v, samples).engineRpm <= 0
  {
    RunRpmIsLastRpm(v, samples);
    LastRpmOfSilentBus(v.engineRpm, samples);
  }

  lemma {:induction false} LastRpmOfSilentBus(initial: int32, samples: seq<Sample>)
    requires initial <= 0
    requires forall i :: 0 <= i < |samples| && IsRpmFrame(samples[i].frame) ==>
      samples[i].frame.data[3] == 0 && samples[i].frame.data[4] == 0
    ensures LastRpm(initial, samples) <= 0
  {
    if samples != [] {
      var n := |samples| - 1;
      if !IsRpmFrame(samples[n].frame) {
        assert forall i :: 0 <= i < n ==> samples[..n][i] == samples[i];
        LastRpmOfSilentBus(initial, samples[..n]);
      }
    }
  }

  /** The inner loop of `WaitForCarToTurnOn`: collect the frames of window `w` one by one
      and stop at the first collection that leaves the decoder's RPM slot positive. */
  method WatchWindow(slots: Slots, shared: SharedCarData, build: DebugBuild, ghost v0: Signals,
                     windows: seq<seq<Sample>>, w: nat) returns (hit: Option<nat>)
    requires w < |windows| && shared.lockFree
    requires slots.Values() == Run(build, v0, Concat(windows[..w]))
    requires QuietUntil(build, v0, windows, w, 0)
    modifies slots, shared
    ensures shared.lockFree
    ensures hit.Some? ==>
      && hit.value < |windows[w]| && RpmAt(build, v0, windows, w, hit.value) > 0
      && QuietUntil(build, v0, windows, w, hit.value)
      && slots.Values() == Run(build, v0, Concat(windows[..w]) + windows[w][..hit.value + 1])
      && shared.data == Publish(slots.Values())
    ensures hit.None? ==>
      && QuietUntil(build, v0, windows, w + 1, 0)
      && slots.Values() == Run(build, v0, Concat(windows[..w + 1]))
      && shared.data == if |windows[w]| == 0 then old(shared.data) else Publish(slots.Values())
  {
    var k := 0;
    assert Concat(windows[..w]) + windows[w][..0] == Concat(windows[..w]);
    while k < |windows[w]|
      invariant 0 <= k <= |windows[w]|
      invariant shared.lockFree
      invariant shared.data == if k == 0 then old(shared.data) else Publish(slots.Values())
      invariant slots.Values() == Run(build, v0, Concat(windows[..w]) + windows[w][..k])
      invariant QuietUntil(build, v0, windows, w, k)
    {
      CollectCarData.CollectCarData(slots, shared, build, windows[w][k]);
      RunStep(build, v0, windows, w, k);
      if slots.engineRpm > 0 {
        return Some(k);
      }
      QuietStep(build, v0, windows, w, k);
      k := k + 1;
    }
    ConcatSnoc(windows, w);
    assert windows[w][..k] == windows[w];
    QuietNextWindow(build, v0, windows, w);
    return None;
  }

  // ------------------------------------------------------------------
  // The controller
  // ------------------------------------------------------------------

  /** The hardware state the controller drives. `disablePowerSaving` stands for the
      `DISABLE_POWER_SAVING` build flag. */
  class PowerController {
    var clockMhz: uint32
    /** `g_TaskDisplayInfo != nullptr`. */
    var displayTask: bool
    var ledOn: bool
    var rebooted: bool
    ghost var log: seq<PowerEvent>
    const disablePowerSaving: bool

    ghost function State(display: Display): PowerState
      reads this, display
    {
      PowerState(clockMhz, displayTask, display.isOn, ledOn, rebooted, log, display.events)
    }

    /** The controller as the program starts: the display task handle is null and nothing
        is logged. The clock speed at start is given. */
    constructor (disablePowerSaving: bool, clockMhz: uint32)
      ensures this.disablePowerSaving == disablePowerSaving && this.clockMhz == clockMhz
      ensures !displayTask && !ledOn && !rebooted && log == []
    {
      this.disablePowerSaving := disablePowerSaving;
      this.clockMhz := clockMhz;
      displayTask := false;
      ledOn := false;
      rebooted := false;
      log := [];
    }

    /** `TurnDisplayOff`, recorded in the log. */
    method SwitchDisplayOff(display: Display)
      modifies this`log, display`isOn, display`events
      ensures State(display) == DisplayOffOf(old(State(display)))
    {
      display.TurnDisplayOff();
      log := log + [DisplayOff];
    }

    /** `LiteSleep`. */
    method LiteSleep(display: Display)
      modifies this`clockMhz, this`displayTask, this`ledOn, this`log, display`isOn, display`events
      ensures State(display) == if disablePowerSaving then old(State(display)) else LiteSleepOf(old(State(display)))
    {
      if disablePowerSaving {
        return;
      }
      ledOn := false;
      if displayTask {
        log := log + [SuspendDisplayTask];
        SwitchDisplayOff(display);
        log := log + [DeleteDisplayTask];
        displayTask := false;
      }
      clockMhz := ClockSpeed_LiteSleep;
    }

    /** `Reboot`: `ESP.restart()` does not return; the model records that it was issued. */
    method Reboot()
      modifies this`rebooted, this`log
      ensures rebooted == (old(rebooted) || !disablePowerSaving)
      ensures log == if disablePowerSaving then old(log) else old(log) + [Restart]
    {
      if disablePowerSaving {
        return;
      }
      rebooted := true;
      log := log + [Restart];
    }

    /** `CheckIfCarIsStillOn`: reads the shared record's RPM (read without the semaphore, as
        the firmware does). */
    method CheckIfCarIsStillOn(display: Display, shared: SharedCarData)
      modifies this`clockMhz, this`displayTask, this`ledOn, this`rebooted, this`log
      modifies display`isOn, display`events
      ensures State(display) == if disablePowerSaving then old(State(display))
                                else CheckOf(old(State(display)), shared.data.EngineRPM)
    {
      if disablePowerSaving {
        return;
      }
      if shared.data.EngineRPM <= 0 {
        SwitchDisplayOff(display);
        LiteSleep(display);
        Reboot();
      }
    }

    /** The waiting loop of `WaitForCarToTurnOn`: one window after the other, the LED on while
        a window is watched and a 3000 ms pause after each window in which the engine was not
        seen running. */
    method WatchWindows(slots: Slots, shared: SharedCarData, build: DebugBuild,
                        windows: seq<seq<Sample>>) returns (outcome: WaitOutcome)
      requires shared.lockFree && !ledOn
      modifies this`clockMhz, this`ledOn, this`log, slots, shared
      ensures !outcome.Bypassed?
      ensures outcome.Woke? ==>
        && outcome.window < |windows| && outcome.sample < |windows[outcome.window]|
        && RpmAt(build, old(slots.Values()), windows, outcome.window, outcome.sample) > 0
        && QuietUntil(build, old(slots.Values()), windows, outcome.window, outcome.sample)
        && slots.Values() == Run(build, old(slots.Values()),
                                 Concat(windows[..outcome.window]) + windows[outcome.window][..outcome.sample + 1])
        && shared.data == Publish(slots.Values())
        && clockMhz == ClockSpeed_Normal && ledOn && log == old(log) + Delays(outcome.window)
      ensures outcome.StillWaiting? ==>
        && QuietUntil(build, old(slots.Values()), windows, |windows|, 0)
        && slots.Values() == Run(build, old(slots.Values()), Concat(windows))
        && shared.data == (if |Concat(windows)| == 0 then old(shared.data) else Publish(slots.Values()))
        && clockMhz == old(clockMhz) && !ledOn && log == old(log) + Delays(|windows|)
      ensures shared.lockFree
    {
      ghost var v0 := slots.Values();
      var w := 0;
      while w < |windows|
        invariant 0 <= w <= |windows|
        invariant shared.lockFree && !ledOn
        invariant slots.Values() == Run(build, v0, Concat(windows[..w]))
        invariant shared.data == if |Concat(windows[..w])| == 0 then old(shared.data) else Publish(slots.Values())
        invariant QuietUntil(build, v0, windows, w, 0)
        invariant clockMhz == old(clockMhz) && log == old(log) + Delays(w)
      {
        ledOn := true;
        var hit := WatchWindow(slots, shared, build, v0, windows, w);
        if hit.Some? {
          clockMhz := ClockSpeed_Normal;
          ledOn := true;
          return Woke(w, hit.value);
        }
        ConcatSnoc(windows, w);
        if |windows[w]| == 0 {
          assert Concat(windows[..w + 1]) == Concat(windows[..w]);
        }
        ledOn := false;
        log := log + [Delay(WindowPause)];
        assert Delays(w) + [Delay(WindowPause)] == Delays(w + 1);
        w := w + 1;
      }
      assert windows[..w] == windows;
      return StillWaiting;
    }

    /** `WaitForCarToTurnOn`. Window `w` holds what `CollectCarData` consumes during the
        `w`-th second of waiting. The method returns right after the first collection that
        leaves the decoder's RPM slot positive, with the clock back at 240 MHz; every window
        without one is followed by a 3000 ms pause. */
    method WaitForCarToTurnOn(display: Display, slots: Slots, shared: SharedCarData, build: DebugBuild,
                              windows: seq<seq<Sample>>) returns (outcome: WaitOutcome)
      requires shared.lockFree
      modifies this`clockMhz, this`displayTask, this`ledOn, this`log, display`isOn, display`events
      modifies slots, shared
      ensures disablePowerSaving <==> outcome.Bypassed?
      ensures disablePowerSaving ==>
        State(display) == old(State(display)) && slots.Values() == old(slots.Values()) && shared.data == old(shared.data)
      ensures outcome.Woke? ==>
        && outcome.window < |windows| && outcome.sample < |windows[outcome.window]|
        && RpmAt(build, old(slots.Values()), windows, outcome.window, outcome.sample) > 0
        && QuietUntil(build, old(slots.Values()), windows, outcome.window, outcome.sample)
        && slots.Values() == Run(build, old(slots.Values()),
                                 Concat(windows[..outcome.window]) + windows[outcome.window][..outcome.sample + 1])
        && shared.data == Publish(slots.Values())
        && State(display) == WokeOf(old(State(display)), outcome.window)
      ensures outcome.StillWaiting? ==>
        && QuietUntil(build, old(slots.Values()), windows, |windows|, 0)
        && slots.Values() == Run(build, old(slots.Values()), Concat(windows))
        && shared.data == (if |Concat(windows)| == 0 then old(shared.data) else Publish(slots.Values()))
        && State(display) == AsleepOf(old(State(display)), |windows|)
      ensures shared.lockFree
    {
      if disablePowerSaving {
        return Bypassed;
      }
      LiteSleep(display);
      outcome := WatchWindows(slots, shared, build, windows);
    }
  }
}
