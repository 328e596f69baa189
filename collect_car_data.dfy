/** The acquisition step: the table of broadcast identifiers, the dispatch of each
    received frame to its decoder, and the publication of the three decoder slots into
    the record shared with the display task, under the binary semaphore. */
module CollectCarData {
  import opened CanTypes
  import opened OBD2Calculations

  /** The `CarData` record shared between the two cores. */
  datatype CarData = CarData(EngineRPM: int32, CurrentGear: int32, GearboxMode: int32)

  const ZeroCarData := CarData(0, 0, 0)

  /** The record the publish step writes for the given slot values. */
  function Publish(v: Signals): (d: CarData)
    ensures d.EngineRPM == v.engineRpm && d.CurrentGear == v.currentGear
    ensures d.GearboxMode == v.gearboxMode
  {
    CarData(v.engineRpm, v.currentGear, v.gearboxMode)
  }

  /** `g_CurrentCarData` together with its semaphore. The semaphore is a ghost flag: the
      model is sequential, and the flag only records whether a `Take` is outstanding. */
  class SharedCarData {
    var data: CarData
    ghost var lockFree: bool

    /** The global as the program starts: zero-initialised, no semaphore given yet. */
    constructor ()
      ensures data == ZeroCarData && !lockFree
    {
      data := ZeroCarData;
      lockFree := false;
    }

    /** `xSemaphoreCreateBinary`: a new binary semaphore starts out taken. */
    method CreateSemaphore()
      modifies this`lockFree
      ensures !lockFree
    {
      lockFree := false;
    }

    /** `xSemaphoreTake(..., portMAX_DELAY)`; in a sequential model the wait is never needed. */
    method Take()
      requires lockFree
      modifies this`lockFree
      ensures !lockFree
    {
      lockFree := false;
    }

    /** `xSemaphoreGive`. */
    method Give()
      requires !lockFree
      modifies this`lockFree
      ensures lockFree
    {
      lockFree := true;
    }

    method SetEngineRPM(v: int32)
      requires !lockFree
      modifies this`data
      ensures data == old(data).(EngineRPM := v)
    {
      data := data.(EngineRPM := v);
    }

    method SetCurrentGear(v: int32)
      requires !lockFree
      modifies this`data
      ensures data == old(data).(CurrentGear := v)
    {
      data := data.(CurrentGear := v);
    }

    method SetGearboxMode(v: int32)
      requires !lockFree
      modifies this`data
      ensures data == old(data).(GearboxMode := v)
    {
      data := data.(GearboxMode := v);
    }
  }

  /** `SetupCollectCarData` without the transceiver set-up: zero the record, create
      the semaphore and give it once, so that it is available. */
  method SetupCollectCarData(shared: SharedCarData)
    modifies shared
    ensures shared.data == ZeroCarData && shared.lockFree
  {
    shared.data := ZeroCarData;
    shared.CreateSemaphore();
    shared.Give();
  }

  // ------------------------------------------------------------------
  // The identifier table
  // ------------------------------------------------------------------

  /** The decode routine a table row points to. */
  datatype Decoder = CurrentGearDecoder | EngineRpmDecoder | GearboxModeDecoder

  /** A table row: name, broadcast identifier and decode routine (the print routine is
      output only and not modelled). */
  datatype CanID = CanID(name: string, id: uint32, decoder: Decoder)

  const NumCanIDs := 3

  const CanIDs: seq<CanID> := [
    CanID("Currrent Gear", 0x230, CurrentGearDecoder),
    CanID("Engine RPM", 0x204, EngineRpmDecoder),
    CanID("Gearbox Mode", 0x171, GearboxModeDecoder)
  ]

  /** No two rows share an identifier, so at most one decoder runs per frame. */
  lemma CanIDsDistinct()
    ensures |CanIDs| == NumCanIDs
    ensures forall i, j :: 0 <= i < j < |CanIDs| ==> CanIDs[i].id != CanIDs[j].id
  {
  }

  /** What running a decoder does to the slots: it overwrites its own slot only. */
  function Apply(d: Decoder, v: Signals, p: Payload): (r: Signals)
    ensures d == EngineRpmDecoder ==> r == v.(engineRpm := EngineRPMOf(p))
    ensures d == CurrentGearDecoder ==> r == v.(currentGear := CurrentGearOf(p))
    ensures d == GearboxModeDecoder ==> r == v.(gearboxMode := GearboxModeOf(p))
  {
    match d
    case EngineRpmDecoder => v.(engineRpm := EngineRPMOf(p))
    case CurrentGearDecoder => v.(currentGear := CurrentGearOf(p))
    case GearboxModeDecoder => v.(gearboxMode := GearboxModeOf(p))
  }

  /** The decoder of the first row of `table` with identifier `id`, if any. */
  function FindDecoder(table: seq<CanID>, id: int): (r: Option<Decoder>)
    ensures r.None? <==> forall i :: 0 <= i < |table| ==> table[i].id != id
    ensures r.Some? ==> exists i :: 0 <= i < |table| && table[i].id == id && table[i].decoder == r.value
  {
    if table == [] then None
    else if table[0].id == id then Some(table[0].decoder)
    else
      var r := FindDecoder(table[1..], id);
      assert forall i :: 1 <= i < |table| ==> table[i] == table[1..][i - 1];
      r
  }

  /** Looking one more row ahead changes the answer only when no earlier row matched. */
  lemma {:induction false} FindDecoderExtend(table: seq<CanID>, row: CanID, id: int)
    ensures FindDecoder(table + [row], id) ==
      if FindDecoder(table, id).Some? then FindDecoder(table, id)
      else if row.id == id then Some(row.decoder)
      else None
  {
    if table != [] {
      assert (table + [row])[1..] == table[1..] + [row];
      FindDecoderExtend(table[1..], row, id);
    }
  }

  /** The slots after one frame has been dispatched through the table. */
  function DecodeFrame(v: Signals, f: CanFrame): Signals
  {
    if f.dataLengthCode != 8 then v
    else match FindDecoder(CanIDs, f.identifier)
      case None => v
      case Some(d) => Apply(d, v, f.data)
  }

  /** The three cases of the dispatch, plus the two ways a frame is ignored. */
  lemma DecodeFrameCases(v: Signals, f: CanFrame)
    ensures f.dataLengthCode != 8 ==> DecodeFrame(v, f) == v
    ensures f.dataLengthCode == 8 && f.identifier != 0x204 && f.identifier != 0x230 && f.identifier != 0x171
      ==> DecodeFrame(v, f) == v
    ensures f.dataLengthCode == 8 && f.identifier == 0x204
      ==> DecodeFrame(v, f) == v.(engineRpm := EngineRPMOf(f.data))
    ensures f.dataLengthCode == 8 && f.identifier == 0x230
      ==> DecodeFrame(v, f) == v.(currentGear := CurrentGearOf(f.data))
    ensures f.dataLengthCode == 8 && f.identifier == 0x171
      ==> DecodeFrame(v, f) == v.(gearboxMode := GearboxModeOf(f.data))
  {
    assert CanIDs[0].id == 0x230 && CanIDs[1].id == 0x204 && CanIDs[2].id == 0x171;
  }

  // ------------------------------------------------------------------
  // Serial emulation (debug builds)
  // ------------------------------------------------------------------

  /** Which emulation helper `CollectCarData` calls: none, `EmulateEngineRPM` (a build
      with DEBUG and DEBUG_RPM) or `EmulateCurrentGear` (DEBUG and DEBUG_GEAR only). */
  datatype DebugBuild = Release | EmulateRpm | EmulateGear

  /** `(uint8_t)(c - '0')` for a byte read from the serial port. */
  function SerialDigit(c: uint8): uint8
  {
    Wrap8(c - '0' as int)
  }

  /** The 8-bit wrap makes the single `< 10` test accept exactly the ten digit characters. */
  lemma SerialDigitAcceptsDigitsOnly(c: uint8)
    ensures SerialDigit(c) < 10 <==> '0' as int <= c <= '9' as int
    ensures SerialDigit(c) < 10 ==> SerialDigit(c) == c - '0' as int
  {
  }

  /** A serial byte is available and passes the digit test. */
  predicate IsSerialDigit(serial: Option<uint8>)
  {
    serial.Some? && SerialDigit(serial.value) < 10
  }

  /** The effect of the emulation helper of `build` on the slots, given what the serial
      port holds (`None` when nothing is available). */
  function Emulate(build: DebugBuild, v: Signals, serial: Option<uint8>): Signals
  {
    match build
    case Release => v
    case EmulateRpm =>
      if IsSerialDigit(serial) then v.(engineRpm := SerialDigit(serial.value) * 1000) else v
    case EmulateGear =>
      if IsSerialDigit(serial) then v.(currentGear := SerialDigit(serial.value)) else v
  }

  /** An emulation byte that is not a digit changes nothing; a digit sets the emulated
      signal to digit*1000 rpm or to that gear. */
  lemma EmulateCases(build: DebugBuild, v: Signals, c: uint8)
    ensures !('0' as int <= c <= '9' as int) ==> Emulate(build, v, Some(c)) == v
    ensures '0' as int <= c <= '9' as int && build == EmulateRpm ==>
      Emulate(build, v, Some(c)) == v.(engineRpm := (c - '0' as int) * 1000)
    ensures '0' as int <= c <= '9' as int && build == EmulateGear ==>
      Emulate(build, v, Some(c)) == v.(currentGear := c - '0' as int)
  {
    SerialDigitAcceptsDigitsOnly(c);
  }

  method EmulateEngineRPM(slots: Slots, shared: SharedCarData, serial: Option<uint8>)
    requires !shared.lockFree
    modifies slots`engineRpm, shared`data
    ensures slots.Values() == Emulate(EmulateRpm, old(slots.Values()), serial)
    ensures shared.data == if IsSerialDigit(serial) then old(shared.data).(EngineRPM := slots.engineRpm)
                           else old(shared.data)
  {
    if serial.Some? {
      var input := SerialDigit(serial.value);
      if input < 10 {
        slots.engineRpm := input as int * 1000;
        shared.SetEngineRPM(slots.engineRpm);
      }
    }
  }

  method EmulateCurrentGear(slots: Slots, shared: SharedCarData, serial: Option<uint8>)
    requires !shared.lockFree
    modifies slots`currentGear, shared`data
    ensures slots.Values() == Emulate(EmulateGear, old(slots.Values()), serial)
    ensures shared.data == if IsSerialDigit(serial) then old(shared.data).(CurrentGear := slots.currentGear)
                           else old(shared.data)
  {
    if serial.Some? {
      var input := SerialDigit(serial.value);
      if input < 10 {
        slots.currentGear := input;
        shared.SetCurrentGear(slots.currentGear);
      }
    }
  }

  // ------------------------------------------------------------------
  // One acquisition step
  // ------------------------------------------------------------------

  /** What one call of `CollectCarData` consumes: the frame in the receive buffer and,
      in an emulating build, the next serial byte if one is available. */
  datatype Sample = Sample(frame: CanFrame, serial: Option<uint8>)

  /** The slots after one call of `CollectCarData`. */
  function Collect(build: DebugBuild, v: Signals, s: Sample): Signals
  {
    Emulate(build, DecodeFrame(v, s.frame), s.serial)
  }

  /** The slots after a sequence of calls. */
  function Run(build: DebugBuild, v: Signals, samples: seq<Sample>): Signals
  {
    if samples == [] then v
    else Collect(build, Run(build, v, samples[..|samples| - 1]), samples[|samples| - 1])
  }

  /** `CollectCarData`. The read-timeout test in `CollectCarData` is a comma expression whose
      value is the constant 10, so the frame in the buffer is always processed; here it
      is the input `sample`. Afterwards the shared record equals the slots, whether or not
      the frame matched, and the semaphore is free again. */
  method CollectCarData(slots: Slots, shared: SharedCarData, build: DebugBuild, sample: Sample)
    requires shared.lockFree
    modifies slots, shared
    ensures slots.Values() == Collect(build, old(slots.Values()), sample)
    ensures shared.data == Publish(slots.Values())
    ensures shared.lockFree
  {
    var frame := sample.frame;
    ghost var v0 := slots.Values();
    if frame.dataLengthCode == 8 {
      var canID := frame.identifier;
      for i := 0 to NumCanIDs
        modifies slots
        invariant slots.Values() == match FindDecoder(CanIDs[..i], canID)
                                      case None => v0
                                      case Some(d) => Apply(d, v0, frame.data)
      {
        FindDecoderExtend(CanIDs[..i], CanIDs[i], canID);
        assert CanIDs[..i + 1] == CanIDs[..i] + [CanIDs[i]];
        if canID == CanIDs[i].id {
          CanIDsDistinct();
          match CanIDs[i].decoder {
            case CurrentGearDecoder => var _ := slots.CalcCurrentGear(frame.data);
            case EngineRpmDecoder => var _ := slots.CalcEngineRPM(frame.data);
            case GearboxModeDecoder => var _ := slots.CalcGearboxMode(frame.data);
          }
        }
      }
      assert CanIDs[..NumCanIDs] == CanIDs;
    }
    assert slots.Values() == DecodeFrame(v0, frame);

    shared.Take();
    shared.SetEngineRPM(slots.engineRpm);
    shared.SetCurrentGear(slots.currentGear);
    shared.SetGearboxMode(slots.gearboxMode);
    match build {
      case Release =>
      case EmulateRpm => EmulateEngineRPM(slots, shared, sample.serial);
      case EmulateGear => EmulateCurrentGear(slots, shared, sample.serial);
    }
    shared.Give();
  }
}
