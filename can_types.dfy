/** Fixed-width integers and the CAN frame record shared by every part of the firmware.
    C's fixed-width integers become subset types of `int`; where the firmware relies on
    unsigned wrap-around or a narrowing cast, the model applies `Wrap*` explicitly. */
module CanTypes {

  type uint8 = x: int | 0 <= x < 0x100
  type uint16 = x: int | 0 <= x < 0x1_0000
  type uint32 = x: int | 0 <= x < 0x1_0000_0000
  type int32 = x: int | -0x8000_0000 <= x < 0x8000_0000

  /** Conversion of an integer to `uint8_t` (reduction modulo 2^8). */
  function Wrap8(x: int): (r: uint8)
    ensures (r - x) % 0x100 == 0
  {
    x % 0x100
  }

  /** Conversion of an integer to `uint16_t` (reduction modulo 2^16). */
  function Wrap16(x: int): (r: uint16)
    ensures (r - x) % 0x1_0000 == 0
  {
    x % 0x1_0000
  }

  /** Conversion of an integer to `uint32_t` (reduction modulo 2^32). */
  function Wrap32(x: int): (r: uint32)
    ensures (r - x) % 0x1_0000_0000 == 0
  {
    x % 0x1_0000_0000
  }

  /** Two's-complement reinterpretation of a 32-bit pattern as `int32_t`. */
  function ToInt32(x: int): (r: int32)
    ensures (r - x) % 0x1_0000_0000 == 0
    ensures -0x8000_0000 <= x < 0x8000_0000 ==> r == x
  {
    var u := Wrap32(x);
    if u < 0x8000_0000 then u else u - 0x1_0000_0000
  }

  datatype Option<T> = None | Some(value: T)

  /** The eight data bytes of a classic CAN frame. */
  type Payload = s: seq<uint8> | |s| == 8 witness [0, 0, 0, 0, 0, 0, 0, 0]

  /** The fields of the TWAI driver's `CanFrame` that the firmware reads or writes:
      the 11- or 29-bit identifier, the extended-format flag, the declared data
      length and the data bytes. */
  datatype CanFrame = CanFrame(identifier: uint32, extd: bool, dataLengthCode: uint8, data: Payload)
}
