/** OBD2 request frames and the accessors that read the service and PID back out of a
    frame. A request travels in one ISO 15765-2 single frame: byte 0 is the protocol
    control byte holding the number of payload bytes that follow (section 9.6.2 of
    ISO 15765-2), then the service, then a one- or two-byte PID, and the unused bytes
    are padded. */
module OBD2Utils {
  import opened CanTypes

  /** OBD2 services the firmware names. */
  datatype OBD2Service = CurrentData | TroubleCodes | VehicleInfo | ManufacturerSpecific

  function ServiceCode(s: OBD2Service): (c: uint32)
    ensures c < 0x40
  {
    match s
    case CurrentData => 0x01
    case TroubleCodes => 0x03
    case VehicleInfo => 0x09
    case ManufacturerSpecific => 0x22
  }

  /** Extended (29-bit) request identifiers of the car's modules. */
  datatype CarModule = All | ECM | TCM | BCM

  function ModuleId(m: CarModule): (id: uint32)
    ensures id > 0xFFF
  {
    match m
    case All => 0x18DB33F1
    case ECM => 0x18DA10F1
    case TCM => 0x18DA18F1
    case BCM => 0x18DA40F1
  }

  /** The `PID` record without its calculation and print routines. */
  datatype PID = PID(name: string, carModule: CarModule, service: OBD2Service, pid: uint16)

  /** Filler for unused payload bytes. */
  const Unused: uint8 := 0xAA

  function FirstByte(x: uint16): uint8 { x / 0x100 }
  function SecondByte(x: uint16): uint8 { x % 0x100 }

  /** A request payload built segment by segment: control byte, service byte (the
      `uint32_t` service is narrowed to a byte), the PID's bytes most significant first,
      padding up to eight bytes. */
  function RequestPayload(service: uint32, pid: uint16): Payload
  {
    var pidBytes := if pid > 0xFF then [FirstByte(pid), SecondByte(pid)] else [pid as uint8];
    var body := [Wrap8(service)] + pidBytes;
    [|body|] + body + seq(7 - |body|, _ => Unused)
  }

  /** The frame `SendOBD2Request` hands to the driver: extended exactly when the
      module identifier does not fit the standard range, always eight data bytes. */
  function RequestFrame(carModule: uint32, service: uint32, pid: uint16): CanFrame
  {
    CanFrame(carModule, carModule > 0xFFF, 8, RequestPayload(service, pid))
  }

  /** Byte by byte, what the request frame holds. */
  lemma RequestFrameLayout(carModule: uint32, service: uint32, pid: uint16)
    ensures var f := RequestFrame(carModule, service, pid);
      && f.identifier == carModule && f.dataLengthCode == 8
      && f.extd == (carModule > 0xFFF)
      && f.data[0] == (if pid > 0xFF then 3 else 2)
      && f.data[1] == service % 0x100
      && (pid > 0xFF ==> f.data[2] as int * 0x100 + f.data[3] as int == pid)
      && (pid <= 0xFF ==> f.data[2] == pid && f.data[3] == Unused)
      && f.data[4] == Unused && f.data[5] == Unused && f.data[6] == Unused && f.data[7] == Unused
  {
  }

  /** `SendOBD2Request(uint32_t, uint32_t, uint16_t)`: fills the frame field by field
      and returns it in place of writing it to the bus. */
  method SendOBD2Request(carModule: uint32, service: uint32, pid: uint16) returns (frame: CanFrame)
    ensures frame == RequestFrame(carModule, service, pid)
  {
    var data := new uint8[8](_ => 0);
    var extd := carModule > 0xFFF;
    data[0] := if pid > 0xFF then 3 else 2;
    data[1] := Wrap8(service);
    data[2] := if pid > 0xFF then FirstByte(pid) else pid;
    data[3] := if pid > 0xFF then SecondByte(pid) else Unused;
    data[4] := Unused;
    data[5] := Unused;
    data[6] := Unused;
    data[7] := Unused;
    frame := CanFrame(carModule, extd, 8, data[..]);
  }

  /** The overload taking the enumerations: the same frame as the numeric overload. */
  method SendOBD2RequestTo(carModule: CarModule, service: OBD2Service, pid: uint16) returns (frame: CanFrame)
    ensures frame == RequestFrame(ModuleId(carModule), ServiceCode(service), pid)
    ensures frame.extd
  {
    frame := SendOBD2Request(ModuleId(carModule), ServiceCode(service), pid);
  }

  /** The overload taking a `PID` record. */
  method SendOBD2RequestFor(pid: PID) returns (frame: CanFrame)
    ensures frame == RequestFrame(ModuleId(pid.carModule), ServiceCode(pid.service), pid.pid)
  {
    frame := SendOBD2RequestTo(pid.carModule, pid.service, pid.pid);
  }

  /** `GetPID`: one PID byte in a standard frame, two (big-endian) in an extended one. */
  function GetPID(frame: CanFrame): (r: uint16)
    ensures !frame.extd ==> r == frame.data[2]
    ensures frame.extd ==> r / 0x100 == frame.data[2] && r % 0x100 == frame.data[3]
  {
    var pidLengthInBytes := if frame.extd then 2 else 1;
    if pidLengthInBytes == 1 then frame.data[2] else frame.data[2] as int * 0x100 + frame.data[3] as int
  }

  /** Building a request and reading its PID back gives the PID exactly when the
      frame format (chosen by the module identifier) matches the PID's width. */
  lemma GetPIDOfRequest(carModule: uint32, service: uint32, pid: uint16)
    ensures GetPID(RequestFrame(carModule, service, pid)) == pid <==> ((carModule > 0xFFF) == (pid > 0xFF))
  {
    var f := RequestFrame(carModule, service, pid);
    RequestFrameLayout(carModule, service, pid);
    if carModule > 0xFFF && pid <= 0xFF {
      assert GetPID(f) / 0x100 == pid && GetPID(f) % 0x100 == Unused;
    }
  }

  /** Every request to one of the named modules, with a two-byte PID, carries its PID. */
  lemma GetPIDOfModuleRequest(m: CarModule, s: OBD2Service, pid: uint16)
    requires pid > 0xFF
    ensures GetPID(RequestFrame(ModuleId(m), ServiceCode(s), pid)) == pid
  {
    GetPIDOfRequest(ModuleId(m), ServiceCode(s), pid);
  }

  /** `GetService`: byte 1, with the positive-response offset 0x40 of a received frame
      removed in 16-bit unsigned arithmetic. */
  function GetService(frame: CanFrame, receivedFrame: bool): (r: uint16)
    ensures !receivedFrame ==> r == frame.data[1]
    ensures receivedFrame ==> (r + 0x40) % 0x1_0000 == frame.data[1]
    ensures receivedFrame && frame.data[1] >= 0x40 ==> r == frame.data[1] - 0x40
    ensures receivedFrame && frame.data[1] < 0x40 ==> r >= 0xFFC0
  {
    var service: int := frame.data[1];
    if receivedFrame then Wrap16(service - 0x40) else service
  }

  /** A positive response (byte 1 = service + 0x40) reads back as the requested service,
      and the request itself reads back as its service when not marked as received. */
  lemma GetServiceRoundTrip(carModule: uint32, service: OBD2Service, pid: uint16, response: CanFrame)
    requires response.data[1] == ServiceCode(service) + 0x40
    ensures GetService(RequestFrame(carModule, ServiceCode(service), pid), false) == ServiceCode(service)
    ensures GetService(response, true) == ServiceCode(service)
  {
  }

  /** The example in the comment of `GetService`: 0x62 in a received frame is service 0x22. */
  lemma GetServiceExample(frame: CanFrame)
    requires frame.data[1] == 0x62
    ensures GetService(frame, true) == 0x22
  {
  }

  /** `IsValidCarModule`: a standard identifier in 0x700..0x7FF or an extended one in
      0x18000000..0x18FFFFFF. */
  predicate IsValidCarModule(canID: uint32): (r: bool)
    ensures r <==> canID / 0x100 == 0x7 || canID / 0x100_0000 == 0x18
  {
    var isValidStandard := 0x700 <= canID <= 0x7FF;
    var isValidExtended := 0x18000000 <= canID <= 0x18FFFFFF;
    isValidStandard || isValidExtended
  }

  /** The valid identifiers are 11-bit standard ones or 29-bit extended ones, and a request
      to a valid module is sent extended exactly when its identifier is in the extended range. */
  lemma ValidCarModuleFormats(canID: uint32)
    requires IsValidCarModule(canID)
    ensures canID < 0x800 || 0x1800_0000 <= canID < 0x2000_0000
    ensures RequestFrame(canID, 0, 0).extd <==> canID >= 0x18000000
    ensures !RequestFrame(canID, 0, 0).extd <==> canID < 0x800
  {
  }

  /** The four named modules are valid, and an identifier just outside either range is not. */
  lemma CarModulesAreValid(m: CarModule)
    ensures IsValidCarModule(ModuleId(m))
    ensures !IsValidCarModule(0x6FF) && !IsValidCarModule(0x800)
    ensures !IsValidCarModule(0x17FF_FFFF) && !IsValidCarModule(0x1900_0000)
  {
  }
}
