/** The `Control` identifiers of the console's physical inputs, with their
    numeric values and the grouping the controls header gives them, and the
    small `Flaps`, `Gear` and `Radio` enumerations. */
module Controls {
  import opened Bytes
  import opened Records

  /** The named controls. */
  datatype Control =
    | NONE
    // knobs
    | NAV1_COURSE_SELECTOR | NAV2_OBS | ADF_BRG | BARO | AUTOPILOT_HEADING | FREQ_TUNE_RADIO
    // push buttons
    | YOKE_BUTTON_DOWN | YOKE_BUTTON_UP | NAV1_USE_STBY | NAV2_USE_STBY | ADF_USE_STBY | TIMER | RMI
    // toggle buttons
    | NAV1_ON | NAV1_ID | NAV1_RAD | NAV2_ON | NAV2_ID | NAV2_RAD | ADF_ON | ADF_ID
    | DME_ON | DME_NAV | AUTOPILOT_ON | AUTOPILOT_HDG | AUTOPILOT_ALT | FUEL
    // switches
    | GEAR | FLAPS | FREQ_SELECT_RADIO
    // sliders
    | THROTTLE | PROP_RPM | MIXTURE | COWL_FLAP | CARB_HEAT
    // special
    | TRIM_DN | TRIM_UP | AUTOPILOT_TRIM_DN | AUTOPILOT_TRIM_UP

  /** The numeric value of each named control. */
  function Value(c: Control): int
  {
    match c
    case NONE => 0
    // knobs
    case NAV1_COURSE_SELECTOR => 0x02
    case NAV2_OBS => 0x04
    case ADF_BRG => 0x06
    case BARO => 0x08
    case AUTOPILOT_HEADING => 0x0a
    case FREQ_TUNE_RADIO => 0x0c
    // push buttons
    case YOKE_BUTTON_DOWN => 0x46
    case YOKE_BUTTON_UP => 0x48
    case NAV1_USE_STBY => 0x10
    case NAV2_USE_STBY => 0x12
    case ADF_USE_STBY => 0x14
    case TIMER => 0x42
    case RMI => 0x44
    // toggle buttons
    case NAV1_ON => 0x18
    case NAV1_ID => 0x1a
    case NAV1_RAD => 0x1c
    case NAV2_ON => 0x1e
    case NAV2_ID => 0x20
    case NAV2_RAD => 0x22
    case ADF_ON => 0x24
    case ADF_ID => 0x26
    case DME_ON => 0x28
    case DME_NAV => 0x2a
    case AUTOPILOT_ON => 0x2c
    case AUTOPILOT_HDG => 0x2e
    case AUTOPILOT_ALT => 0x30
    case FUEL => 0x36
    // switches
    case GEAR => 0x32
    case FLAPS => 0x34
    case FREQ_SELECT_RADIO => 0x16
    // sliders
    case THROTTLE => 0x38
    case PROP_RPM => 0x3a
    case MIXTURE => 0x3c
    case COWL_FLAP => 0x4a
    case CARB_HEAT => 0x4c
    // special: no initializer, so each is the previous value plus one
    case TRIM_DN => 0x4c + 1
    case TRIM_UP => 0x4c + 2
    case AUTOPILOT_TRIM_DN => 0x4c + 3
    case AUTOPILOT_TRIM_UP => 0x4c + 4
  }

  /** The named control a number stands for, if any. */
  function Named(v: int): Option<Control>
  {
    if v == 0 then Some(NONE) else
    if v == 0x02 then Some(NAV1_COURSE_SELECTOR) else
    if v == 0x04 then Some(NAV2_OBS) else
    if v == 0x06 then Some(ADF_BRG) else
    if v == 0x08 then Some(BARO) else
    if v == 0x0a then Some(AUTOPILOT_HEADING) else
    if v == 0x0c then Some(FREQ_TUNE_RADIO) else
    if v == 0x46 then Some(YOKE_BUTTON_DOWN) else
    if v == 0x48 then Some(YOKE_BUTTON_UP) else
    if v == 0x10 then Some(NAV1_USE_STBY) else
    if v == 0x12 then Some(NAV2_USE_STBY) else
    if v == 0x14 then Some(ADF_USE_STBY) else
    if v == 0x42 then Some(TIMER) else
    if v == 0x44 then Some(RMI) else
    if v == 0x18 then Some(NAV1_ON) else
    if v == 0x1a then Some(NAV1_ID) else
    if v == 0x1c then Some(NAV1_RAD) else
    if v == 0x1e then Some(NAV2_ON) else
    if v == 0x20 then Some(NAV2_ID) else
    if v == 0x22 then Some(NAV2_RAD) else
    if v == 0x24 then Some(ADF_ON) else
    if v == 0x26 then Some(ADF_ID) else
    if v == 0x28 then Some(DME_ON) else
    if v == 0x2a then Some(DME_NAV) else
    if v == 0x2c then Some(AUTOPILOT_ON) else
    if v == 0x2e then Some(AUTOPILOT_HDG) else
    if v == 0x30 then Some(AUTOPILOT_ALT) else
    if v == 0x36 then Some(FUEL) else
    if v == 0x32 then Some(GEAR) else
    if v == 0x34 then Some(FLAPS) else
    if v == 0x16 then Some(FREQ_SELECT_RADIO) else
    if v == 0x38 then Some(THROTTLE) else
    if v == 0x3a then Some(PROP_RPM) else
    if v == 0x3c then Some(MIXTURE) else
    if v == 0x4a then Some(COWL_FLAP) else
    if v == 0x4c then Some(CARB_HEAT) else
    if v == 0x4c + 1 then Some(TRIM_DN) else
    if v == 0x4c + 2 then Some(TRIM_UP) else
    if v == 0x4c + 3 then Some(AUTOPILOT_TRIM_DN) else
    if v == 0x4c + 4 then Some(AUTOPILOT_TRIM_UP) else
    None
  }

  /** The header's group of a control, as the type of the events it produces. */
  function Group(c: Control): EventType
  {
    match c
    case NONE => NoneType
    case NAV1_COURSE_SELECTOR | NAV2_OBS | ADF_BRG | BARO | AUTOPILOT_HEADING
      | FREQ_TUNE_RADIO => KnobType
    case YOKE_BUTTON_DOWN | YOKE_BUTTON_UP | NAV1_USE_STBY | NAV2_USE_STBY | ADF_USE_STBY
      | TIMER | RMI => ButtonType
    case NAV1_ON | NAV1_ID | NAV1_RAD | NAV2_ON | NAV2_ID | NAV2_RAD | ADF_ON | ADF_ID
      | DME_ON | DME_NAV | AUTOPILOT_ON | AUTOPILOT_HDG | AUTOPILOT_ALT | FUEL => ToggleType
    case GEAR | FLAPS | FREQ_SELECT_RADIO => SwitchType
    case THROTTLE | PROP_RPM | MIXTURE | COWL_FLAP | CARB_HEAT => SliderType
    case TRIM_DN | TRIM_UP | AUTOPILOT_TRIM_DN | AUTOPILOT_TRIM_UP => ButtonType
  }

  /** Reading a control's value back names that control. */
  lemma {:induction false} NamedValue(c: Control)
    ensures Named(Value(c)) == Some(c)
  {
  }

  /** A number that names a control is that control's value. */
  lemma NamedIsValue(v: int)
    ensures Named(v).Some? ==> Value(Named(v).value) == v
  {
  }

  /** All named controls have pairwise different values. */
  lemma ValuesDistinct(c: Control, d: Control)
    ensures Value(c) == Value(d) ==> c == d
  {
    NamedValue(c);
    NamedValue(d);
  }

  /** The four synthetic trim controls are the successors 0x4D..0x50 of
      `CARB_HEAT`, each UP one above its DN, and above every other named value. */
  lemma TrimValues(c: Control)
    ensures Value(TRIM_DN) == Value(CARB_HEAT) + 1 == 0x4d
    ensures Value(TRIM_UP) == Value(TRIM_DN) + 1 && Value(AUTOPILOT_TRIM_UP) == Value(AUTOPILOT_TRIM_DN) + 1
    ensures Value(AUTOPILOT_TRIM_DN) == Value(TRIM_UP) + 1 && Value(AUTOPILOT_TRIM_UP) == 0x50
    ensures c !in {TRIM_DN, TRIM_UP, AUTOPILOT_TRIM_DN, AUTOPILOT_TRIM_UP} ==> 0 <= Value(c) <= 0x4c
  {
  }

  /** Flap positions. */
  datatype Flaps = Flaps_UP | Flaps_APP | Flaps_LDG

  function FlapsValue(f: Flaps): int
  {
    match f
    case Flaps_UP => 0
    case Flaps_APP => 1
    case Flaps_LDG => 2
  }

  /** Landing-gear positions. */
  datatype Gear = Gear_DN | Gear_UP

  function GearValue(g: Gear): int
  {
    match g
    case Gear_DN => 0
    case Gear_UP => 1
  }

  /** The radios the frequency knob can tune. */
  datatype Radio = Radio_NAV1 | Radio_NAV2 | Radio_ADF | Radio_COM | Radio_XPNDR

  function RadioValue(r: Radio): int
  {
    match r
    case Radio_NAV1 => 1
    case Radio_NAV2 => 2
    case Radio_ADF => 3
    case Radio_COM => 4
    case Radio_XPNDR => 5
  }
}
