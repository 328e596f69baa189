/** The display task's decisions: which glyph shows the gear, the Park override applied
    to the local copy of the shared record, the shift-light colour chosen from a descending
    threshold table, and the change tracking that decides when the gear glyph is redrawn.
    Drawing itself is recorded as a log of draw events. */
module DisplayInfo {
  import opened CanTypes
  import opened OBD2Calculations
  import opened CollectCarData

  /** The RGB565 colours the display logic uses. */
  datatype Color = Black | White | Red | Yellow | Green | Blue | DarkGrey

  /** A shift-light threshold: the colour shows when the RPM is strictly above it. */
  datatype ShiftIndicatorLight = ShiftIndicatorLight(EngineRPM: int32, color: Color)

  const NumLights := 5
  /** Index of the light that means "shift now". */
  const ShiftNowIndex := 0
  const ShiftIndicatorLights: seq<ShiftIndicatorLight> := [
    ShiftIndicatorLight(4500, Red),
    ShiftIndicatorLight(3500, Yellow),
    ShiftIndicatorLight(2500, Green),
    ShiftIndicatorLight(1500, Blue),
    ShiftIndicatorLight(0, DarkGrey)
  ]

  /** Largest RPM the shift bar shows. */
  const MaxRPM: int32 := 6000
  /** Special gear numbers. */
  const Reverse: int32 := -1
  const Park: int32 := -2
  /** The arbitrary initial value of `previousGear`, so that the first gear always draws. */
  const InitialPreviousGear: int32 := -12

  // ------------------------------------------------------------------
  // Gear glyph
  // ------------------------------------------------------------------

  /** `GenerateGearText`: '1'..'8' for gears 1..8, 'P', 'R' and 'N' for Park, Reverse and
      Neutral, and 'D' for every other number. */
  function GenerateGearText(gear: int32): (c: char)
    ensures c in "PRND12345678"
    ensures 0 < gear <= 8 ==> c as int - '0' as int == gear
  {
    if 0 < gear <= 8 then ('0' as int + gear) as char
    else if gear == Park then 'P'
    else if gear == Reverse then 'R'
    else if gear == 0 then 'N'
    else 'D'
  }

  /** The gear a glyph stands for; 'D' stands for no single gear. */
  function GearOfText(c: char): (r: Option<int32>)
    ensures r.Some? ==> -2 <= r.value <= 8
  {
    if '1' <= c <= '8' then Some(c as int - '0' as int)
    else if c == 'P' then Some(Park)
    else if c == 'R' then Some(Reverse)
    else if c == 'N' then Some(0)
    else None
  }

  /** Gears -2..8 each get their own glyph, which reads back as that gear; every other
      gear (9..15, the initial -12, ...) shows 'D'. */
  lemma GearTextRoundTrip(gear: int32)
    ensures -2 <= gear <= 8 ==> GearOfText(GenerateGearText(gear)) == Some(gear)
    ensures !(-2 <= gear <= 8) <==> GenerateGearText(gear) == 'D'
  {
  }

  /** Distinct gears in -2..8 are drawn with distinct glyphs. */
  lemma GearTextDistinguishesGears(g1: int32, g2: int32)
    requires -2 <= g1 <= 8 && -2 <= g2 <= 8 && g1 != g2
    ensures GenerateGearText(g1) != GenerateGearText(g2)
  {
    GearTextRoundTrip(g1);
    GearTextRoundTrip(g2);
  }

  /** The gear glyph of the decoded slot: 'R' for reverse, 'N' for neutral, and for a
      nibble gear its digit up to 8, 'D' above. */
  lemma DecodedGearText(p: Payload)
    ensures p[1] == 2 ==> GenerateGearText(CurrentGearOf(p)) == 'R'
    ensures p[1] == 4 ==> GenerateGearText(CurrentGearOf(p)) == 'N'
    ensures p[1] != 2 && p[1] != 4 && p[0] >= 0x90 ==> GenerateGearText(CurrentGearOf(p)) == 'D'
  {
  }

  // ------------------------------------------------------------------
  // Colours
  // ------------------------------------------------------------------

  /** The gear text colour: red above the shift-now threshold, white otherwise. */
  function GearColor(rpm: int32): (c: Color)
    ensures c == Red <==> rpm > 4500
    ensures c != Red ==> c == White
  {
    if rpm > ShiftIndicatorLights[ShiftNowIndex].EngineRPM then Red else White
  }

  /** The index of the first light of `table` whose threshold `rpm` exceeds, or `|table|`
      when there is none. */
  function FirstLight(table: seq<ShiftIndicatorLight>, rpm: int): (i: nat)
    ensures i <= |table|
    ensures forall k :: 0 <= k < i ==> rpm <= table[k].EngineRPM
    ensures i < |table| ==> rpm > table[i].EngineRPM
  {
    if table == [] then 0
    else if rpm > table[0].EngineRPM then 0
    else
      var i := 1 + FirstLight(table[1..], rpm);
      assert forall k :: 1 <= k < i ==> table[k] == table[1..][k - 1];
      i
  }

  /** The colour of the first light `rpm` exceeds, dark grey when it exceeds none. */
  function ShiftColor(rpm: int): Color
  {
    var i := FirstLight(ShiftIndicatorLights, rpm);
    if i < NumLights then ShiftIndicatorLights[i].color else DarkGrey
  }

  /** The thresholds strictly descend. */
  predicate Descending(table: seq<ShiftIndicatorLight>)
  {
    forall i, j :: 0 <= i < j < |table| ==> table[i].EngineRPM > table[j].EngineRPM
  }

  lemma ShiftIndicatorLightsDescend()
    ensures |ShiftIndicatorLights| == NumLights && Descending(ShiftIndicatorLights)
    ensures ShiftIndicatorLights[ShiftNowIndex].color == Red
  {
  }

  /** A higher RPM never selects a later light (for any table, since the scan takes the
      first match). */
  lemma FirstLightMonotone(table: seq<ShiftIndicatorLight>, rpm1: int, rpm2: int)
    requires rpm1 <= rpm2
    ensures FirstLight(table, rpm2) <= FirstLight(table, rpm1)
  {
    var i1 := FirstLight(table, rpm1);
    assert i1 < |table| ==> rpm2 > table[i1].EngineRPM;
  }

  /** The table's first match is the same as the thresholds written out. */
  lemma ShiftColorBands(rpm: int)
    ensures ShiftColor(rpm) == if rpm > 4500 then Red
                               else if rpm > 3500 then Yellow
                               else if rpm > 2500 then Green
                               else if rpm > 1500 then Blue
                               else DarkGrey
    ensures rpm <= 0 ==> FirstLight(ShiftIndicatorLights, rpm) == NumLights
  {
    var i := FirstLight(ShiftIndicatorLights, rpm);
    assert i < NumLights ==> rpm > ShiftIndicatorLights[i].EngineRPM;
    if i > 0 { assert rpm <= ShiftIndicatorLights[0].EngineRPM; }
    if i > 1 { assert rpm <= ShiftIndicatorLights[1].EngineRPM; }
    if i > 2 { assert rpm <= ShiftIndicatorLights[2].EngineRPM; }
    if i > 3 { assert rpm <= ShiftIndicatorLights[3].EngineRPM; }
    if i > 4 { assert rpm <= ShiftIndicatorLights[4].EngineRPM; }
  }

  /** The shift light is red exactly when the gear text is red. */
  lemma ShiftNowAgrees(rpm: int32)
    ensures ShiftColor(rpm) == Red <==> GearColor(rpm) == Red
  {
    ShiftColorBands(rpm);
  }

  /** The colour choice of `DrawShiftIndicator`: scan the table and stop at the first
      threshold the RPM exceeds. */
  method ShiftIndicatorColor(rpm: int32) returns (color: Color)
    ensures color == ShiftColor(rpm)
  {
    color := DarkGrey;
    for i := 0 to NumLights
      invariant forall k :: 0 <= k < i ==> rpm <= ShiftIndicatorLights[k].EngineRPM
      invariant color == DarkGrey
    {
      if rpm > ShiftIndicatorLights[i].EngineRPM {
        color := ShiftIndicatorLights[i].color;
        assert FirstLight(ShiftIndicatorLights, rpm) == i;
        return;
      }
    }
    assert FirstLight(ShiftIndicatorLights, rpm) == NumLights;
  }

  // ------------------------------------------------------------------
  // The local copy of the shared record
  // ------------------------------------------------------------------

  /** Neutral while the gearbox is in P is shown as Park. */
  function ParkOverride(d: CarData): CarData
  {
    if d.CurrentGear == 0 && d.GearboxMode == P then d.(CurrentGear := Park) else d
  }

  /** The override changes only the gear, only for neutral in P, and only to Park, which then
      draws as 'P'; applying it again changes nothing. */
  lemma ParkOverrideEffect(d: CarData)
    ensures ParkOverride(d).EngineRPM == d.EngineRPM && ParkOverride(d).GearboxMode == d.GearboxMode
    ensures ParkOverride(d).CurrentGear != d.CurrentGear <==> d.CurrentGear == 0 && d.GearboxMode == P
    ensures d.CurrentGear == 0 && d.GearboxMode == P ==> GenerateGearText(ParkOverride(d).CurrentGear) == 'P'
    ensures ParkOverride(ParkOverride(d)) == ParkOverride(d)
  {
  }

  // ------------------------------------------------------------------
  // The display
  // ------------------------------------------------------------------

  /** What was sent to the screen and its power switch. `Text` is the gear glyph drawn in a
      colour (black clears it); `ShiftBar` stands for the four arcs, with the RPM they show
      capped at `MaxRPM`. */
  datatype DrawEvent =
    | FillScreen(color: Color)
    | MosfetSwitch(on: bool)
    | Text(glyph: char, color: Color)
    | ShiftBar(color: Color, shownRpm: int32)
    | Pause(ms: nat)

  /** The draw events of `DrawGearText` for the previous gear and colour and the new data:
      on a gear change, clear the old glyph and draw the new one; otherwise, on a colour
      change, redraw the glyph; else nothing. */
  function GearTextEvents(previousGear: int32, previousGearColor: Color, d: CarData): seq<DrawEvent>
  {
    var color := GearColor(d.EngineRPM);
    if d.CurrentGear != previousGear then
      [Text(GenerateGearText(previousGear), Black), Text(GenerateGearText(d.CurrentGear), color)]
    else if color != previousGearColor then [Text(GenerateGearText(d.CurrentGear), color)]
    else []
  }

  /** Nothing is drawn exactly when neither the gear nor the colour changed; the old glyph is
      cleared exactly when the gear changed; whatever is drawn last is the current gear in the
      current colour. */
  lemma GearTextEventsCases(previousGear: int32, previousGearColor: Color, d: CarData)
    ensures var e := GearTextEvents(previousGear, previousGearColor, d);
      && (e == [] <==> d.CurrentGear == previousGear && GearColor(d.EngineRPM) == previousGearColor)
      && (Text(GenerateGearText(previousGear), Black) in e <==> d.CurrentGear != previousGear)
      && (e != [] ==> e[|e| - 1] == Text(GenerateGearText(d.CurrentGear), GearColor(d.EngineRPM)))
  {
  }

  /** Redrawing with the state that a draw left behind draws nothing. */
  lemma GearTextSettles(d: CarData)
    ensures GearTextEvents(d.CurrentGear, GearColor(d.EngineRPM), d) == []
  {
  }

  /** Any gear the decoder or the Park override can produce differs from the initial
      `previousGear`, so the first call always draws. */
  lemma FirstDrawAlwaysDraws(d: CarData, p: Payload, c: Color)
    requires d.CurrentGear == CurrentGearOf(p) || d.CurrentGear == Park
    ensures GearTextEvents(InitialPreviousGear, c, d) != []
  {
  }

  /** The display task's state: `bIsDisplayOn`, `previousGear`, `previousGearColor`, the
      local `carData` copy, and the draw events so far. */
  class Display {
    var isOn: bool
    var previousGear: int32
    var previousGearColor: Color
    var carData: CarData
    ghost var events: seq<DrawEvent>

    constructor ()
      ensures !isOn && previousGear == InitialPreviousGear && previousGearColor == White
      ensures carData == ZeroCarData && events == []
    {
      isOn := false;
      previousGear := InitialPreviousGear;
      previousGearColor := White;
      carData := ZeroCarData;
      events := [];
    }

    /** `CopyCarData`: copy the shared record under its semaphore, then apply the Park
        override to the copy. The shared record is only read. */
    method CopyCarData(shared: SharedCarData)
      requires shared.lockFree
      modifies this`carData, shared`lockFree
      ensures carData == ParkOverride(shared.data)
      ensures shared.data == old(shared.data) && shared.lockFree
    {
      shared.Take();
      carData := shared.data;
      shared.Give();
      if carData.CurrentGear == 0 && carData.GearboxMode == P {
        carData := carData.(CurrentGear := Park);
      }
    }

    /** `TurnDisplayOn` once `begin()` has succeeded. */
    method TurnDisplayOn()
      modifies this`isOn, this`events
      ensures isOn && events == old(events) + [MosfetSwitch(true), FillScreen(Black)]
    {
      events := events + [MosfetSwitch(true)];
      isOn := true;
      events := events + [FillScreen(Black)];
    }

    /** `TurnDisplayOff`: clear the screen, cut the display's power, wait 200 ms. */
    method TurnDisplayOff()
      modifies this`isOn, this`events
      ensures !isOn && events == old(events) + [FillScreen(Black), MosfetSwitch(false), Pause(200)]
    {
      events := events + [FillScreen(Black), MosfetSwitch(false)];
      isOn := false;
      events := events + [Pause(200)];
    }

    /** `DrawGearText`: afterwards the tracked gear and colour are those of the copy. */
    method DrawGearText()
      modifies this`previousGear, this`previousGearColor, this`events
      ensures previousGear == carData.CurrentGear && previousGearColor == GearColor(carData.EngineRPM)
      ensures events == old(events) + GearTextEvents(old(previousGear), old(previousGearColor), carData)
    {
      var color := White;
      if carData.EngineRPM > ShiftIndicatorLights[ShiftNowIndex].EngineRPM {
        color := Red;
      }
      if carData.CurrentGear != previousGear {
        events := events + [Text(GenerateGearText(previousGear), Black)];
        events := events + [Text(GenerateGearText(carData.CurrentGear), color)];
        previousGear := carData.CurrentGear;
        previousGearColor := color;
      }
      if color != previousGearColor {
        events := events + [Text(GenerateGearText(carData.CurrentGear), color)];
        previousGearColor := color;
      }
    }

    /** `DrawShiftIndicator`: both bars in the colour of the first light exceeded. */
    method DrawShiftIndicator()
      modifies this`events
      ensures events == old(events) + [ShiftBar(ShiftColor(carData.EngineRPM),
                                                if carData.EngineRPM < MaxRPM then carData.EngineRPM else MaxRPM)]
    {
      var color := ShiftIndicatorColor(carData.EngineRPM);
      var shown := if MaxRPM < carData.EngineRPM then MaxRPM else carData.EngineRPM;
      events := events + [ShiftBar(color, shown)];
    }

    /** One pass of the display task's loop: refresh the copy, redraw what changed while the
        display is on, then pause for 1 ms so that the watchdog sees the task run. */
    method Refresh(shared: SharedCarData)
      requires shared.lockFree
      modifies this, shared`lockFree
      ensures carData == ParkOverride(shared.data) && shared.data == old(shared.data) && shared.lockFree
      ensures isOn == old(isOn)
      ensures isOn ==> previousGear == carData.CurrentGear && previousGearColor == GearColor(carData.EngineRPM)
      ensures isOn ==> events == old(events) + GearTextEvents(old(previousGear), old(previousGearColor), carData)
                                 + [ShiftBar(ShiftColor(carData.EngineRPM),
                                             if carData.EngineRPM < MaxRPM then carData.EngineRPM else MaxRPM)]
                                 + [Pause(1)]
      ensures !isOn ==> previousGear == old(previousGear) && previousGearColor == old(previousGearColor)
                        && events == old(events) + [Pause(1)]
    {
      CopyCarData(shared);
      if isOn {
        DrawGearText();
        DrawShiftIndicator();
      }
      events := events + [Pause(1)];
    }
  }
}
