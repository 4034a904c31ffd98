/** The poll frame's payload: the three motion axes in sign-magnitude form
    and the event triplet, classified by its raw event identifier. */
module Events {
  import opened Bytes
  import opened Records
  import opened Controls
  import opened Codec

  // ---------------------------------------------------------------------
  // Raw event identifiers, as the console sends them in byte 4 of a frame
  // ---------------------------------------------------------------------

  const ID_NONE: int := 0
  /** The transponder variant of the tuning knob, with its own packing. */
  const ID_FREQ_TUNE_XPNDR: int := 0x0e
  /** The two-way momentary trims; the direction is the first payload byte. */
  const ID_TRIM: int := 0x3e
  const ID_AUTOPILOT_TRIM: int := 0x40

  /** How the classifier treats a raw identifier. */
  datatype IdKind = NoneId | TrimId | KnobId | XpndrId | ButtonId | ToggleId | SwitchId | SliderId | UnknownId

  /** The raw identifier table: each identifier of the console with the
      kind of event it produces. */
  function Kind(v: int): IdKind
  {
    match v
    case 0 => NoneId
    // ID_TRIM, ID_AUTOPILOT_TRIM
    case 0x3e | 0x40 => TrimId
    // ID_NAV1_COURSE_SELECTOR, ID_NAV2_OBS, ID_ADF_BRG, ID_BARO, ID_AUTOPILOT_HEADING, ID_FREQ_TUNE
    case 0x02 | 0x04 | 0x06 | 0x08 | 0x0a | 0x0c => KnobId
    // ID_FREQ_TUNE_XPNDR
    case 0x0e => XpndrId
    // ID_NAV1_USE_STBY, ID_NAV2_USE_STBY, ID_ADF_USE_STBY, ID_TIMER, ID_RMI,
    // ID_YOKE_SWITCH_DOWN, ID_YOKE_SWITCH_UP
    case 0x10 | 0x12 | 0x14 | 0x42 | 0x44 | 0x46 | 0x48 => ButtonId
    // ID_NAV1_ON, ID_NAV1_ID, ID_NAV1_RAD, ID_NAV2_ON, ID_NAV2_ID, ID_NAV2_RAD, ID_ADF_ON,
    // ID_ADF_ID, ID_DME_ON, ID_DME_NAV, ID_AUTOPILOT_ON, ID_AUTOPILOT_HDG, ID_AUTOPILOT_ALT, ID_FUEL
    case 0x18 | 0x1a | 0x1c | 0x1e | 0x20 | 0x22 | 0x24 | 0x26 | 0x28 | 0x2a | 0x2c | 0x2e | 0x30
       | 0x36 => ToggleId
    // ID_GEAR, ID_FLAPS, ID_FREQ_SELECT_RADIO
    case 0x32 | 0x34 | 0x16 => SwitchId
    // ID_THROTTLE, ID_PROP_RPM, ID_MIXTURE, ID_COWL_FLAP, ID_CARB_HEAT
    case 0x38 | 0x3a | 0x3c | 0x4a | 0x4c => SliderId
    case _ => UnknownId
  }

  /** The event type each kind of identifier produces. */
  function KindType(k: IdKind): EventType
  {
    match k
    case NoneId | UnknownId => NoneType
    case TrimId | ButtonId => ButtonType
    case KnobId | XpndrId => KnobType
    case ToggleId => ToggleType
    case SwitchId => SwitchType
    case SliderId => SliderType
  }

  /** Every raw identifier other than `ID_NONE` is even. */
  lemma RawIdsEven(v: int)
    ensures Kind(v) != UnknownId && v != ID_NONE ==> v % 2 == 0
  {
  }

  /** Every raw identifier other than `ID_NONE` lies in [0x02, 0x4C], so
      none collides with the four synthetic trim controls. */
  lemma RawIdsRange(v: int)
    ensures Kind(v) != UnknownId && v != ID_NONE ==> 0x02 <= v <= 0x4c
    ensures Kind(v) != UnknownId ==> v != Value(TRIM_DN) && v != Value(TRIM_UP)
                                     && v != Value(AUTOPILOT_TRIM_DN) && v != Value(AUTOPILOT_TRIM_UP)
  {
  }

  /** Apart from the trims and the transponder knob, a number below 0x4D is
      in the identifier table exactly when it is the value of a named
      control. */
  lemma IdsAreControls(v: int)
    requires v < 0x4d && Kind(v) != TrimId && Kind(v) != XpndrId
    ensures Kind(v) != UnknownId <==> Named(v).Some?
  {
  }

  /** The value of every named control except the four trims is in the
      identifier table, and the kind of event it produces is the group the
      controls header puts the control in. */
  lemma ControlsAreIds(c: Control)
    requires c != TRIM_DN && c != TRIM_UP && c != AUTOPILOT_TRIM_DN && c != AUTOPILOT_TRIM_UP
    ensures Kind(Value(c)) != UnknownId
    ensures KindType(Kind(Value(c))) == Group(c)
  {
  }

  // ---------------------------------------------------------------------
  // Event classification
  // ---------------------------------------------------------------------

  /** The outcome of classifying an event triplet. An identifier the
      classifier has no case for sets the event's control but leaves its
      type unassigned; that outcome is kept apart as `Unclassified`. */
  datatype EventResult = Classified(event: Event) | Unclassified(control: int)

  /** Classify the event triplet `id, b2, b3` of a poll frame. */
  function FillEvent(id: byte, b2: byte, b3: byte): EventResult
  {
    var v := id as int;
    match Kind(v)
    case NoneId => Classified(NoEvent)
    case TrimId =>
      var base := if v == ID_TRIM then Value(TRIM_DN) else Value(AUTOPILOT_TRIM_DN);
      Classified(Button(base + b2 as int - 1))
    case KnobId => Classified(Knob(v, Join7(b2, b3)))
    case XpndrId => Classified(Knob(Value(FREQ_TUNE_RADIO), ((b2 & 3) as bv16 << 8) | b3 as bv16))
    case ButtonId => Classified(Button(v))
    case ToggleId => Classified(Toggle(v, b2 != 0))
    case SwitchId => Classified(Switch(v, b2))
    case SliderId => Classified(Slider(v, b2))
    case UnknownId => Unclassified(v)
  }

  /** Exactly the identifiers of the table are classified, with the type
      their kind gives; any other one yields its own value as the control.
      Apart from the trims and the transponder knob, a classified event's
      control is the identifier. */
  lemma FillEventTable(id: byte, b2: byte, b3: byte)
    ensures FillEvent(id, b2, b3).Classified? <==> Kind(id as int) != UnknownId
    ensures FillEvent(id, b2, b3).Classified?
            ==> FillEvent(id, b2, b3).event.Type() == KindType(Kind(id as int))
    ensures FillEvent(id, b2, b3).Unclassified? ==> FillEvent(id, b2, b3).control == id as int
    ensures FillEvent(id, b2, b3).Classified? && Kind(id as int) != TrimId && Kind(id as int) != XpndrId
            ==> FillEvent(id, b2, b3).event.ControlOf() == id as int
  {
  }

  /** The payload rules of the classifier, for every identifier and
      payload: a zero identifier is no event; a push button names its
      identifier and carries nothing; a toggle is on exactly when the first
      payload byte is non-zero; a switch or a slider carries that byte
      unchanged; the second payload byte matters only to knobs. */
  lemma FillEventPayloads(id: byte, b2: byte, b3: byte)
    ensures Kind(id as int) == NoneId ==> FillEvent(id, b2, b3) == Classified(NoEvent)
    ensures Kind(id as int) == ButtonId ==> FillEvent(id, b2, b3) == Classified(Button(id as int))
    ensures Kind(id as int) == ToggleId ==> FillEvent(id, b2, b3) == Classified(Toggle(id as int, b2 != 0))
    ensures Kind(id as int) == SwitchId ==> FillEvent(id, b2, b3) == Classified(Switch(id as int, b2))
    ensures Kind(id as int) == SliderId ==> FillEvent(id, b2, b3) == Classified(Slider(id as int, b2))
    ensures Kind(id as int) != KnobId && Kind(id as int) != XpndrId
            ==> forall b3': byte {:trigger FillEvent(id, b2, b3')} :: FillEvent(id, b2, b3') == FillEvent(id, b2, b3)
  {
  }

  /** Both trim identifiers always produce a button event. */
  lemma TrimIsButton(b2: byte, b3: byte)
    ensures FillEvent(0x3e, b2, b3).Classified? && FillEvent(0x3e, b2, b3).event.Button?
    ensures FillEvent(0x40, b2, b3).Classified? && FillEvent(0x40, b2, b3).event.Button?
  {
  }

  /** Direction byte 1 selects the DN and 2 the UP variant of each trim. */
  lemma TrimDirections(b3: byte)
    ensures FillEvent(0x3e, 1, b3).event.control == Value(TRIM_DN)
    ensures FillEvent(0x3e, 2, b3).event.control == Value(TRIM_UP)
    ensures FillEvent(0x40, 1, b3).event.control == Value(AUTOPILOT_TRIM_DN)
    ensures FillEvent(0x40, 2, b3).event.control == Value(AUTOPILOT_TRIM_UP)
  {
  }

  /** Out-of-range direction bytes reach neighbouring controls: 0 gives
      `CARB_HEAT`, and 3 on the main trim gives `AUTOPILOT_TRIM_DN`. */
  lemma TrimOutOfRange(b3: byte)
    ensures FillEvent(0x3e, 0, b3).event.control == Value(CARB_HEAT)
    ensures FillEvent(0x3e, 3, b3).event.control == Value(AUTOPILOT_TRIM_DN)
  {
  }

  /** A knob value below 2^14 sent as its base-128 split comes back as a
      knob event with exactly that value, and a knob event with a 7-bit low
      byte determines the two bytes it was decoded from. */
  lemma KnobRoundTrip(id: byte, v: bv16, b2: byte, b3: byte)
    requires Kind(id as int) == KnobId
    ensures v < 0x4000 ==> FillEvent(id, Split7(v).0, Split7(v).1) == Classified(Knob(id as int, v))
    ensures b2 < 0x80 ==> Split7(FillEvent(id, b2, b3).event.knob) == (b2, b3)
  {
    Split7Join(v);
    if b2 < 0x80 {
      Join7Split(b2, b3);
    }
  }

  /** The transponder knob reports on the tuning knob's control a 10-bit
      value whose high two bits are the low bits of `b2` and whose low byte
      is `b3`. */
  lemma TransponderKnob(b2: byte, b3: byte)
    ensures FillEvent(ID_FREQ_TUNE_XPNDR as byte, b2, b3).Classified?
    ensures FillEvent(ID_FREQ_TUNE_XPNDR as byte, b2, b3).event.Knob?
    ensures FillEvent(ID_FREQ_TUNE_XPNDR as byte, b2, b3).event.control == Value(FREQ_TUNE_RADIO)
    ensures FillEvent(ID_FREQ_TUNE_XPNDR as byte, b2, b3).event.knob < 0x400
    ensures (FillEvent(ID_FREQ_TUNE_XPNDR as byte, b2, b3).event.knob >> 8) as byte == b2 & 3
    ensures (FillEvent(ID_FREQ_TUNE_XPNDR as byte, b2, b3).event.knob & 0xff) as byte == b3
  {
  }

  // ---------------------------------------------------------------------
  // Motion axes
  // ---------------------------------------------------------------------

  /** One axis: the magnitude byte, negated modulo 256 when `bit` is set in
      the flags byte. */
  function Axis(flags: byte, bit: byte, magnitude: byte): byte
  {
    if flags & bit != 0 then 0 - magnitude else magnitude
  }

  /** Read as a signed byte, an axis is the magnitude when the sign bit is
      clear and its negation when it is set (for magnitudes up to 128). */
  lemma AxisSignMagnitude(flags: byte, bit: byte, magnitude: byte)
    requires magnitude <= 0x80
    ensures flags & bit == 0 && magnitude < 0x80 ==> AsInt8(Axis(flags, bit, magnitude)) == magnitude as int
    ensures flags & bit != 0 ==> AsInt8(Axis(flags, bit, magnitude)) == - (magnitude as int)
  {
  }

  /** The sign-magnitude form in which the console sends an axis whose
      value, read as a signed byte, is `v`. */
  function AxisBytes(v: byte, bit: byte): (sm: (byte, byte))
  {
    if v >= 0x80 then (bit, 0 - v) else (0, v)
  }

  /** Decoding the sign-magnitude form of any axis value gives that value
      back, whatever (non-zero) sign bit the axis uses. */
  lemma AxisRoundTrip(v: byte, bit: byte)
    requires bit != 0
    ensures Axis(AxisBytes(v, bit).0, bit, AxisBytes(v, bit).1) == v
    ensures AxisBytes(v, bit).1 <= 0x80
  {
  }

  /** The three axes of a frame. */
  datatype Motion = Motion(roll: byte, pitch: byte, yaw: byte)

  /** Decode the payload of an accepted poll frame: the motion from bytes
      0 to 3, the event from bytes 4 to 6. */
  function DecodeFrame(frame: seq<byte>): (Motion, EventResult)
    requires |frame| == 8
  {
    (Motion(Axis(frame[0], 2, frame[2]), Axis(frame[0], 1, frame[1]), Axis(frame[0], 4, frame[3])),
     FillEvent(frame[4], frame[5], frame[6]))
  }

  /** Pitch takes bit 0, roll bit 1 and yaw bit 2 of byte 0 as its sign,
      and each axis reads only its own magnitude byte and sign bit. */
  lemma DecodeFrameLayout(frame: seq<byte>, other: seq<byte>)
    requires |frame| == 8 && |other| == 8
    ensures frame[0] & 1 == other[0] & 1 && frame[1] == other[1]
            ==> DecodeFrame(frame).0.pitch == DecodeFrame(other).0.pitch
    ensures frame[0] & 2 == other[0] & 2 && frame[2] == other[2]
            ==> DecodeFrame(frame).0.roll == DecodeFrame(other).0.roll
    ensures frame[0] & 4 == other[0] & 4 && frame[3] == other[3]
            ==> DecodeFrame(frame).0.yaw == DecodeFrame(other).0.yaw
  {
  }

  /** The last byte of the frame feeds only the check. */
  lemma DecodeFrameIgnoresCheck(frame: seq<byte>, other: seq<byte>)
    requires |frame| == 8 && |other| == 8
    ensures frame[..7] == other[..7] ==> DecodeFrame(frame) == DecodeFrame(other)
  {
    if frame[..7] == other[..7] {
      assert forall i :: 0 <= i < 7 ==> frame[i] == frame[..7][i] == other[i];
      assert frame[4] == other[4] && frame[5] == other[5] && frame[6] == other[6];
    }
  }

  /** A worked frame: a throttle slider with pitch and roll negative. */
  lemma DecodeFrameExample()
    ensures var d := DecodeFrame([0x03, 10, 20, 5, 0x38, 77, 0, 0x12]);
            AsInt8(d.0.pitch) == -10 && AsInt8(d.0.roll) == -20 && AsInt8(d.0.yaw) == 5
            && d.1 == Classified(Slider(Value(THROTTLE), 77))
  {
  }

  /** Worked events: a NAV1 toggle, the main trim pushed up and a
      course-selector knob. */
  lemma FillEventExamples()
    ensures FillEvent(0x18, 1, 0) == Classified(Toggle(Value(NAV1_ON), true))
    ensures FillEvent(0x3e, 2, 0) == Classified(Button(Value(TRIM_UP)))
    ensures FillEvent(0x02, 0x10, 0x01) == Classified(Knob(Value(NAV1_COURSE_SELECTOR), 144))
  {
  }

  /** The worked throttle frame carries a valid check byte. */
  lemma ExampleFrameAccepted()
    ensures PollAccepts([0x03, 10, 20, 5, 0x38, 77, 0, 0x12])
  {
    var f: seq<byte> := [0x03, 10, 20, 5, 0x38, 77, 0, 0x12];
    assert f[..7] == [0x03, 10, 20, 5, 0x38, 77, 0];
    assert f[..6] == [0x03, 10, 20, 5, 0x38, 77];
    assert f[..5] == [0x03, 10, 20, 5, 0x38];
    assert f[..4] == [0x03, 10, 20, 5];
    assert f[..3] == [0x03, 10, 20];
    assert f[..2] == [0x03, 10];
    assert f[..1] == [0x03];
    assert Fold(f[..1]) == 0x03 by { FoldSingle(3); }
    assert Fold(f[..2]) == 0x03 ^ 10 by { assert f[..2][..1] == f[..1]; }
    assert Fold(f[..3]) == Fold(f[..2]) ^ 20 by { assert f[..3][..2] == f[..2]; }
    assert Fold(f[..4]) == Fold(f[..3]) ^ 5 by { assert f[..4][..3] == f[..3]; }
    assert Fold(f[..5]) == Fold(f[..4]) ^ 0x38 by { assert f[..5][..4] == f[..4]; }
    assert Fold(f[..6]) == Fold(f[..5]) ^ 77 by { assert f[..6][..5] == f[..5]; }
    assert Fold(f[..7]) == Fold(f[..6]) ^ 0 by { assert f[..7][..6] == f[..6]; }
    assert Fold(f) == Fold(f[..7]) ^ 0x12;
  }
}
