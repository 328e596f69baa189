/** Decoders for the three broadcast frames this firmware understands (2016 Ford Mustang
    layout), the module-level slots they write, and the label choice of the diagnostic
    print helpers. */
module OBD2Calculations {
  import opened CanTypes

  // GearboxMode enumeration: raw values of byte 1 of the gearbox-mode frame.
  const P: int32 := 0x00 // Park
  const R: int32 := 0x20 // Reverse
  const N: int32 := 0x40 // Neutral
  const D: int32 := 0x60 // Drive
  const S: int32 := 0x80 // Sport

  /** True for the five raw values the GearboxMode enumeration names. */
  predicate IsKnownMode(mode: int)
  {
    mode == P || mode == R || mode == N || mode == D || mode == S
  }

  /** The values of the three decoder slots `g_EngineRPM`, `g_CurrentGear`, `g_GearboxMode`. */
  datatype Signals = Signals(engineRpm: int32, currentGear: int32, gearboxMode: int32)

  /** The slots as the firmware starts up: 0 rpm, gear 0, mode Park. */
  const InitialSignals := Signals(0, 0, P)

  // ------------------------------------------------------------------
  // Pure decode rules
  // ------------------------------------------------------------------

  /** Engine speed: bytes 3 and 4 big-endian, times two. The result is even and
      determines those two bytes, so the decoding loses nothing. */
  function EngineRPMOf(p: Payload): (r: int32)
    ensures 0 <= r <= 131070 && r % 2 == 0
    ensures r / 2 / 256 == p[3] && r / 2 % 256 == p[4]
  {
    (p[3] as int * 256 + p[4] as int) * 2
  }

  /** Engaged gear: byte 1 equal to 2 means Reverse (-1), equal to 4 means Neutral (0);
      otherwise the gear is the high nibble of byte 0. */
  function CurrentGearOf(p: Payload): (r: int32)
    ensures -1 <= r <= 15
    ensures p[1] == 2 ==> r == -1
    ensures p[1] == 4 ==> r == 0
    ensures p[1] != 2 && p[1] != 4 ==> 16 * r <= p[0] < 16 * (r + 1)
  {
    if p[1] == 2 then -1
    else if p[1] == 4 then 0
    else p[0] / 16
  }

  /** Gearbox mode: byte 1, passed through without any check against GearboxMode. */
  function GearboxModeOf(p: Payload): (r: int32)
    ensures 0 <= r <= 255 && r == p[1]
  {
    p[1]
  }

  /** The frame of the engine-speed example: bytes 3-4 = 0x0F, 0xA0 give 8000 rpm. */
  lemma EngineRPMExample(p: Payload)
    requires p[3] == 0x0F && p[4] == 0xA0
    ensures EngineRPMOf(p) == 8000
  {
  }

  /** Only bytes 3 and 4 influence the engine speed. */
  lemma EngineRPMOnlyReadsBytes3And4(p: Payload, q: Payload)
    requires p[3] == q[3] && p[4] == q[4]
    ensures EngineRPMOf(p) == EngineRPMOf(q)
  {
  }

  /** The gear examples: [0x30, 0x04, ...] is Neutral regardless of byte 0, and
      [0x20, 0x00, ...] is second gear. */
  lemma CurrentGearExamples(p: Payload, q: Payload)
    requires p[0] == 0x30 && p[1] == 0x04
    requires q[0] == 0x20 && q[1] == 0x00
    ensures CurrentGearOf(p) == 0 && CurrentGearOf(q) == 2
  {
  }

  /** Every byte value, known to GearboxMode or not, comes out as the decoded mode. */
  lemma GearboxModePassesEveryByte(b: uint8)
    ensures GearboxModeOf([0, b, 0, 0, 0, 0, 0, 0]) == b
  {
  }

  // ------------------------------------------------------------------
  // The file-static slots and the decoders that write them
  // ------------------------------------------------------------------

  /** The three file-static decoder slots. Each `Calc*` writes its own slot only and
      returns the value it stored. */
  class Slots {
    var engineRpm: int32
    var currentGear: int32
    var gearboxMode: int32

    function Values(): Signals
      reads this
    {
      Signals(engineRpm, currentGear, gearboxMode)
    }

    constructor ()
      ensures Values() == InitialSignals
    {
      engineRpm, currentGear, gearboxMode := 0, 0, P;
    }

    method CalcEngineRPM(p: Payload) returns (r: int32)
      modifies this`engineRpm
      ensures Values() == old(Values()).(engineRpm := EngineRPMOf(p))
      ensures r == engineRpm
    {
      var a: int := p[3];
      var b: int := p[4];
      engineRpm := (a * 256 + b) * 2;
      r := engineRpm;
    }

    method CalcCurrentGear(p: Payload) returns (r: int32)
      modifies this`currentGear
      ensures Values() == old(Values()).(currentGear := CurrentGearOf(p))
      ensures r == currentGear
    {
      if p[1] == 2 {
        currentGear := -1;
      } else if p[1] == 4 {
        currentGear := 0;
      } else {
        currentGear := p[0] / 16;
      }
      r := currentGear;
    }

    method CalcGearboxMode(p: Payload) returns (r: int32)
      modifies this`gearboxMode
      ensures Values() == old(Values()).(gearboxMode := GearboxModeOf(p))
      ensures r == gearboxMode
    {
      gearboxMode := p[1];
      r := gearboxMode;
    }
  }

  // ------------------------------------------------------------------
  // Label choice of the print helpers
  // ------------------------------------------------------------------

  function DigitChar(d: nat): (c: char)
    requires d < 10
    ensures '0' <= c <= '9' && c as int - '0' as int == d
  {
    ('0' as int + d) as char
  }

  predicate AllDigits(s: string)
  {
    forall i :: 0 <= i < |s| ==> '0' <= s[i] <= '9'
  }

  /** The number a string of decimal digits denotes. */
  function DecimalValue(s: string): nat
    requires AllDigits(s)
  {
    if s == [] then 0
    else DecimalValue(s[..|s| - 1]) * 10 + (s[|s| - 1] as int - '0' as int)
  }

  /** What `%d` prints for a non-negative number: its digits, most significant first,
      without leading zeros. */
  function DecimalString(n: nat): (s: string)
    ensures 1 <= |s| && AllDigits(s)
    ensures DecimalValue(s) == n
    ensures n > 0 ==> s[0] != '0'
    decreases n
  {
    if n < 10 then [DigitChar(n)]
    else
      var front := DecimalString(n / 10);
      var s := front + [DigitChar(n % 10)];
      assert s[..|s| - 1] == front;
      s
  }

  /** `PrintCurrentGear`'s text: "Reverse" for -1, the decimal number for a forward
      gear, and the initial "Neutral" for everything else. */
  function GearLabel(gear: int32): (s: string)
    ensures s == "Reverse" <==> gear == -1
    ensures gear > 0 ==> AllDigits(s) && DecimalValue(s) == gear && s[0] != '0'
    ensures gear <= 0 && gear != -1 ==> s == "Neutral"
  {
    if gear == -1 then "Reverse"
    else if gear > 0 then
      var s := DecimalString(gear);
      assert s[0] != 'R';
      s
    else "Neutral"
  }

  const UnknownModeText := "ERROR: Unknown Drive Mode"

  /** `PrintGearboxMode`'s label as written: the first test compares with Drive but
      yields "P", and the later Drive test can never be reached. */
  function ModeLabelAsWritten(mode: int32): (s: string)
    ensures mode == D ==> s == "P"
    ensures mode == R ==> s == "R"
    ensures mode == N ==> s == "N"
    ensures mode == S ==> s == "S"
    ensures mode != D && mode != R && mode != N && mode != S ==> s == UnknownModeText
  {
    if mode == D then "P"
    else if mode == R then "R"
    else if mode == N then "N"
    else if mode == D then "D"
    else if mode == S then "S"
    else UnknownModeText
  }

  /** Drive is printed as "P", Park as the unknown-mode text, and no mode gets "D". */
  lemma ModeLabelAsWrittenConfusesParkAndDrive(mode: int32)
    ensures ModeLabelAsWritten(D) == "P"
    ensures ModeLabelAsWritten(P) == UnknownModeText
    ensures ModeLabelAsWritten(mode) != "D"
  {
  }

  /** The intended label: the letter of the mode's name for the five known modes. */
  function ModeLabel(mode: int32): (s: string)
    ensures IsKnownMode(mode) <==> s != UnknownModeText
    ensures IsKnownMode(mode) ==> |s| == 1
    ensures mode == P ==> s == "P"
    ensures mode == R ==> s == "R"
    ensures mode == N ==> s == "N"
    ensures mode == D ==> s == "D"
    ensures mode == S ==> s == "S"
  {
    if mode == P then "P"
    else if mode == R then "R"
    else if mode == N then "N"
    else if mode == D then "D"
    else if mode == S then "S"
    else UnknownModeText
  }

  /** The intended label tells the five known modes apart. */
  lemma ModeLabelDistinguishesModes(m1: int32, m2: int32)
    requires IsKnownMode(m1) && IsKnownMode(m2) && m1 != m2
    ensures ModeLabel(m1) != ModeLabel(m2)
  {
  }

  /** The correction changes the label of Park and Drive and of no other value. */
  lemma ModeLabelCorrectsParkAndDrive(mode: int32)
    ensures ModeLabel(mode) != ModeLabelAsWritten(mode) <==> mode == P || mode == D
  {
  }
}
