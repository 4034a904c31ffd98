/** The record types the protocol engine exchanges with its caller:
    the console's persisted control positions, its configurable settings,
    and the typed event a poll frame carries. */
module Records {
  import opened Bytes

  /** Tag of an event (`EventType`). */
  datatype EventType = NoneType | ButtonType | SliderType | ToggleType | SwitchType | KnobType

  /** An event: a type tag, a control and one payload whose width depends on
      the tag (a byte for sliders and switches, a flag for toggles, a 16-bit
      value for knobs). The control is a raw `Control` value, which need not
      be one of the named ones. */
  datatype Event =
    | NoEvent
    | Button(control: int)
    | Slider(control: int, slider: byte)
    | Toggle(control: int, toggle: bool)
    | Switch(control: int, setting: byte)
    | Knob(control: int, knob: bv16)
  {
    function Type(): EventType
    {
      match this
      case NoEvent => NoneType
      case Button(_) => ButtonType
      case Slider(_, _) => SliderType
      case Toggle(_, _) => ToggleType
      case Switch(_, _) => SwitchType
      case Knob(_, _) => KnobType
    }

    /** The control an event names; a `None` event carries control 0 (`NONE`). */
    function ControlOf(): int
    {
      if NoEvent? then 0 else control
    }
  }

  /** The console's persisted control positions, 21 one-byte fields in wire
      order with no padding. */
  datatype ControlsState = ControlsState(
    nav1On: byte, nav1Id: byte, nav1Rad: byte,
    nav2On: byte, nav2Id: byte, nav2Rad: byte,
    adfOn: byte, adfId: byte,
    dmeOn: byte, dmeNav: byte,
    autopilotOn: byte, autopilotHdg: byte, autopilotAlt: byte,
    landingGear: byte,
    flaps: byte,
    fuel: byte,
    throttle: byte, propRpm: byte, fuelMixture: byte,
    majorVersion: byte, minorVersion: byte)

  /** A radio frequency as an (integer part, fractional part) byte pair. */
  datatype RadioFrequency = RadioFrequency(first: byte, second: byte)

  /** The four opaque setting bytes. */
  type Opaque = s: seq<byte> | |s| == 4 witness [0, 0, 0, 0]

  /** The console's configurable settings. */
  datatype ConsoleState = ConsoleState(
    currentRadio: byte,
    nav1StandbyFreq: RadioFrequency, nav1CurrentFreq: RadioFrequency,
    nav2StandbyFreq: RadioFrequency, nav2CurrentFreq: RadioFrequency,
    adfStandbyFreq: RadioFrequency, adfCurrentFreq: RadioFrequency,
    unknownFreq: RadioFrequency,
    comFreq: RadioFrequency,
    nav1CourseSelector: bv16, nav2Obs: bv16, adfBrg: bv16, baro: bv16, autopilotHdg: bv16,
    unknown: Opaque)

  /** A frequency pair read as hundredths of its unit (111, 70 is 11170). */
  function Hundredths(f: RadioFrequency): nat
  {
    f.first as nat * 100 + f.second as nat
  }
}
