/** The byte-level framing rules of the protocol: the three-byte command
    frame, the 21-byte controls-state record with its fetch check, and the
    32-byte setup buffer with its base-128 split and its seeded checksum. */
module Codec {
  import opened Bytes
  import opened Records

  /** First byte of every console-originated frame and of every command. */
  const SYNC: byte := 0xa5
  /** The acknowledge code both sides send. */
  const CODE_ACKNOWLEDGE: byte := 0x06
  /** The command that asks the console to reset. */
  const COMMAND_RESET: byte := 0x16
  /** The byte the console sends when it is idle and synchronized ('X'). */
  const CODE_IDLE: byte := 0x58
  /** The value the setup checksum starts from. */
  const SETUP_SEED: byte := 0xbc

  // ---------------------------------------------------------------------
  // Command frame
  // ---------------------------------------------------------------------

  /** The three bytes of a command: the sync byte, the command and a 7-bit
      complement of their XOR. */
  function CommandFrame(command: byte): (frame: seq<byte>)
    ensures |frame| == 3 && frame[0] == SYNC && frame[1] == command
    ensures frame[2] < 0x80
    ensures (frame[0] ^ frame[1] ^ frame[2]) & 0x7f == 0x7f
  {
    [SYNC, command, !(command ^ SYNC) & 0x7f]
  }

  /** What a receiver checks of a command frame: the sync byte, a third byte
      that is 7-bit clean, and the three bytes XOR-ing to all ones in their
      low seven bits. */
  function ParseCommandFrame(frame: seq<byte>): Option<byte>
  {
    if |frame| == 3 && frame[0] == SYNC && frame[2] < 0x80
       && (frame[0] ^ frame[1] ^ frame[2]) & 0x7f == 0x7f
    then Some(frame[1])
    else None
  }

  /** Every command frame passes the receiver's check and yields its command,
      and every frame that passes it is the command frame of what it yields. */
  lemma CommandFrameParses(command: byte, frame: seq<byte>)
    ensures ParseCommandFrame(CommandFrame(command)) == Some(command)
    ensures ParseCommandFrame(frame) == Some(command) ==> frame == CommandFrame(command)
  {
    if ParseCommandFrame(frame) == Some(command) {
      assert frame == [frame[0], frame[1], frame[2]];
    }
  }

  // ---------------------------------------------------------------------
  // Controls state: the packed 21-byte record and its fetch check
  // ---------------------------------------------------------------------

  /** The memory image of a `ControlsState`: its 21 fields in order. */
  function ControlsBytes(c: ControlsState): (raw: seq<byte>)
    ensures |raw| == 21
  {
    [c.nav1On, c.nav1Id, c.nav1Rad, c.nav2On, c.nav2Id, c.nav2Rad, c.adfOn, c.adfId,
     c.dmeOn, c.dmeNav, c.autopilotOn, c.autopilotHdg, c.autopilotAlt, c.landingGear,
     c.flaps, c.fuel, c.throttle, c.propRpm, c.fuelMixture, c.majorVersion, c.minorVersion]
  }

  /** The record whose memory image is `raw`: reading 21 bytes straight
      into the packed structure. */
  function ControlsOfBytes(raw: seq<byte>): ControlsState
    requires |raw| == 21
  {
    ControlsState(raw[0], raw[1], raw[2], raw[3], raw[4], raw[5], raw[6], raw[7],
                  raw[8], raw[9], raw[10], raw[11], raw[12], raw[13], raw[14], raw[15],
                  raw[16], raw[17], raw[18], raw[19], raw[20])
  }

  /** The packed layout has no padding: image and record determine each other. */
  lemma ControlsImageRoundTrip(c: ControlsState, raw: seq<byte>)
    requires |raw| == 21
    ensures ControlsOfBytes(ControlsBytes(c)) == c
    ensures ControlsBytes(ControlsOfBytes(raw)) == raw
  {
    assert raw == [raw[0], raw[1], raw[2], raw[3], raw[4], raw[5], raw[6], raw[7],
                   raw[8], raw[9], raw[10], raw[11], raw[12], raw[13], raw[14], raw[15],
                   raw[16], raw[17], raw[18], raw[19], raw[20]];
  }

  /** The record a fetch hands to its caller for the 21 received bytes: the
      bytes read into the packed structure, then each version byte, which
      arrives as an ASCII digit, reduced by '0' (48) modulo 256. */
  function DecodeControls(raw: seq<byte>): ControlsState
    requires |raw| == 21
  {
    var c := ControlsOfBytes(raw);
    c.(majorVersion := c.majorVersion - 48, minorVersion := c.minorVersion - 48)
  }

  /** Every field of a fetched record equals the received byte, except that
      the two version bytes are reduced by 48 (modulo 256). */
  lemma DecodeControlsFields(raw: seq<byte>)
    requires |raw| == 21
    ensures ControlsBytes(DecodeControls(raw)) == raw[..19] + [raw[19] - 48, raw[20] - 48]
  {
    var image := raw[..19] + [raw[19] - 48, raw[20] - 48];
    ControlsImageRoundTrip(DecodeControls(raw), image);
    assert DecodeControls(raw) == ControlsOfBytes(image);
  }

  /** The running check of a controls fetch: the seed byte the console sends
      first, XOR-ed with each of the 21 raw bytes. */
  function FetchChecksum(seed: byte, raw: seq<byte>): byte
  {
    seed ^ Fold(raw)
  }

  /** A fetch is accepted when the check XOR-ed with the trailing byte is 0x7F. */
  predicate FetchAccepts(seed: byte, raw: seq<byte>, check: byte)
  {
    FetchChecksum(seed, raw) ^ check == 0x7f
  }

  /** Exactly one trailing byte is accepted for a given seed and payload, and
      it is the one the console computes over the whole frame body. */
  lemma FetchCheckByteUnique(seed: byte, raw: seq<byte>, check: byte)
    ensures FetchAccepts(seed, raw, check) <==> check == Fold([seed] + raw) ^ 0x7f
  {
    FoldAppend([seed], raw);
    FoldSingle(seed);
  }

  /** Corrupting any one payload byte of an accepted fetch (XOR-ing any
      non-zero mask into it) makes the fetch fail its check. */
  lemma FetchDetectsCorruptByte(seed: byte, p: seq<byte>, x: byte, q: seq<byte>, check: byte, mask: byte)
    requires mask != 0
    requires FetchAccepts(seed, p + [x] + q, check)
    ensures !FetchAccepts(seed, p + [x ^ mask] + q, check)
  {
    FoldFlip(p, x, q, mask);
  }

  // ---------------------------------------------------------------------
  // Setup buffer
  // ---------------------------------------------------------------------

  /** The base-128 split of a 16-bit value: its low seven bits, then the
      value shifted right by seven and truncated to a byte. */
  function Split7(v: bv16): (b: (byte, byte))
  {
    ((v & 0x7f) as byte, ((v >> 7) & 0xff) as byte)
  }

  /** Joining two bytes as a base-128 pair: `(hi << 7) | lo`. */
  function Join7(lo: byte, hi: byte): bv16
  {
    ((hi as bv16) << 7) | lo as bv16
  }

  /** The split loses at most bit 15, so values below 2^15 come back
      exactly when the two bytes are joined. */
  lemma Split7Join(v: bv16)
    ensures Join7(Split7(v).0, Split7(v).1) == v & 0x7fff
    ensures v < 0x8000 ==> Join7(Split7(v).0, Split7(v).1) == v
  {
  }

  /** The low byte of a split is always 7-bit clean, and for values below
      2^15 the high byte is too exactly when the value is below 2^14. */
  lemma Split7Clean(v: bv16)
    ensures Split7(v).0 < 0x80
    ensures v < 0x8000 ==> (Split7(v).1 < 0x80 <==> v < 0x4000)
  {
  }

  /** Joining a 7-bit low byte with any high byte and splitting the result
      gives the two bytes back. */
  lemma Join7Split(lo: byte, hi: byte)
    requires lo < 0x80
    ensures Split7(Join7(lo, hi)) == (lo, hi)
  {
  }

  /** The first 31 bytes of the setup buffer, in wire order: the six NAV1,
      NAV2 and ADF frequencies (standby then current, each fractional byte
      first), the selected radio, the five 16-bit settings split base-128,
      the unexplained and the COM frequency, and the four opaque bytes. */
  function SetupLayout(s: ConsoleState): (b: seq<byte>)
    ensures |b| == 31
  {
    [s.nav1StandbyFreq.second, s.nav1StandbyFreq.first,
     s.nav1CurrentFreq.second, s.nav1CurrentFreq.first,
     s.nav2StandbyFreq.second, s.nav2StandbyFreq.first,
     s.nav2CurrentFreq.second, s.nav2CurrentFreq.first,
     s.adfStandbyFreq.second, s.adfStandbyFreq.first,
     s.adfCurrentFreq.second, s.adfCurrentFreq.first,
     s.currentRadio,
     Split7(s.nav1CourseSelector).0, Split7(s.nav1CourseSelector).1,
     Split7(s.nav2Obs).0, Split7(s.nav2Obs).1,
     Split7(s.adfBrg).0, Split7(s.adfBrg).1,
     Split7(s.baro).0, Split7(s.baro).1,
     Split7(s.autopilotHdg).0, Split7(s.autopilotHdg).1,
     s.unknownFreq.second, s.unknownFreq.first,
     s.comFreq.second, s.comFreq.first,
     s.unknown[0], s.unknown[1], s.unknown[2], s.unknown[3]]
  }

  /** The trailing setup byte: the seed XOR-ed with the 31 preceding bytes,
      complemented and cut to seven bits. */
  function SetupChecksum(prefix: seq<byte>): byte
  {
    !(SETUP_SEED ^ Fold(prefix)) & 0x7f
  }

  /** The whole 32-byte setup buffer. */
  function SetupBuffer(s: ConsoleState): (b: seq<byte>)
    ensures |b| == 32
  {
    var layout := SetupLayout(s);
    layout + [SetupChecksum(layout)]
  }

  /** The settings a receiver reads back out of a setup buffer. */
  function DecodeSetupBuffer(b: seq<byte>): ConsoleState
    requires |b| >= 31
  {
    ConsoleState(
      b[12],
      RadioFrequency(b[1], b[0]), RadioFrequency(b[3], b[2]),
      RadioFrequency(b[5], b[4]), RadioFrequency(b[7], b[6]),
      RadioFrequency(b[9], b[8]), RadioFrequency(b[11], b[10]),
      RadioFrequency(b[24], b[23]),
      RadioFrequency(b[26], b[25]),
      Join7(b[13], b[14]), Join7(b[15], b[16]), Join7(b[17], b[18]),
      Join7(b[19], b[20]), Join7(b[21], b[22]),
      b[27..31])
  }

  /** The settings with each 16-bit value cut to the 15 bits the split keeps. */
  function Clip15(s: ConsoleState): ConsoleState
  {
    s.(nav1CourseSelector := s.nav1CourseSelector & 0x7fff, nav2Obs := s.nav2Obs & 0x7fff,
       adfBrg := s.adfBrg & 0x7fff, baro := s.baro & 0x7fff, autopilotHdg := s.autopilotHdg & 0x7fff)
  }

  /** All five 16-bit settings are below 2^15. */
  predicate SettingsFit(s: ConsoleState)
  {
    s.nav1CourseSelector < 0x8000 && s.nav2Obs < 0x8000 && s.adfBrg < 0x8000
    && s.baro < 0x8000 && s.autopilotHdg < 0x8000
  }

  /** Each 16-bit setting comes back out of the layout cut to 15 bits. */
  lemma DecodeLayoutSettings(s: ConsoleState)
    ensures DecodeSetupBuffer(SetupLayout(s)).nav1CourseSelector == s.nav1CourseSelector & 0x7fff
    ensures DecodeSetupBuffer(SetupLayout(s)).nav2Obs == s.nav2Obs & 0x7fff
    ensures DecodeSetupBuffer(SetupLayout(s)).adfBrg == s.adfBrg & 0x7fff
    ensures DecodeSetupBuffer(SetupLayout(s)).baro == s.baro & 0x7fff
    ensures DecodeSetupBuffer(SetupLayout(s)).autopilotHdg == s.autopilotHdg & 0x7fff
  {
    Split7Join(s.nav1CourseSelector);
    Split7Join(s.nav2Obs);
    Split7Join(s.adfBrg);
    Split7Join(s.baro);
    Split7Join(s.autopilotHdg);
  }

  /** The radio selector and every frequency pair survive the layout. */
  lemma DecodeLayoutFrequencies(s: ConsoleState)
    ensures var d := DecodeSetupBuffer(SetupLayout(s));
            d.currentRadio == s.currentRadio
            && d.nav1StandbyFreq == s.nav1StandbyFreq && d.nav1CurrentFreq == s.nav1CurrentFreq
            && d.nav2StandbyFreq == s.nav2StandbyFreq && d.nav2CurrentFreq == s.nav2CurrentFreq
            && d.adfStandbyFreq == s.adfStandbyFreq && d.adfCurrentFreq == s.adfCurrentFreq
            && d.unknownFreq == s.unknownFreq && d.comFreq == s.comFreq
  {
  }

  /** The four opaque bytes survive the layout. */
  lemma DecodeLayoutOpaque(s: ConsoleState)
    ensures DecodeSetupBuffer(SetupLayout(s)).unknown == s.unknown
  {
    var b := SetupLayout(s);
    assert b[27..31] == [s.unknown[0], s.unknown[1], s.unknown[2], s.unknown[3]] == s.unknown;
  }

  /** Every frequency pair, the radio selector and the opaque bytes survive
      the layout unchanged, and each 16-bit setting survives cut to 15 bits. */
  lemma DecodeLayout(s: ConsoleState)
    ensures DecodeSetupBuffer(SetupLayout(s)) == Clip15(s)
  {
    DecodeLayoutSettings(s);
    DecodeLayoutFrequencies(s);
    DecodeLayoutOpaque(s);
  }

  /** The same holds for the whole buffer, so the settings come back exactly
      when all of them are below 2^15. */
  lemma SetupBufferRoundTrip(s: ConsoleState)
    ensures DecodeSetupBuffer(SetupBuffer(s)) == Clip15(s)
    ensures SettingsFit(s) ==> DecodeSetupBuffer(SetupBuffer(s)) == s
  {
    DecodeLayout(s);
    var b := SetupBuffer(s);
    assert b[..31] == SetupLayout(s);
    DecodeReadsPrefix(b);
  }

  /** Decoding looks at the first 31 bytes only. */
  lemma DecodeReadsPrefix(b: seq<byte>)
    requires |b| >= 31
    ensures DecodeSetupBuffer(b) == DecodeSetupBuffer(b[..31])
  {
    assert b[27..31] == b[..31][27..31];
  }

  /** Both bytes of a frequency pair are 7-bit clean. */
  predicate FrequencyClean(f: RadioFrequency)
  {
    f.first < 0x80 && f.second < 0x80
  }

  /** Settings whose every byte, once laid out, is 7-bit clean: single
      bytes below 0x80 and 16-bit values below 2^14. */
  predicate SettingsClean(s: ConsoleState)
  {
    s.currentRadio < 0x80
    && FrequencyClean(s.nav1StandbyFreq) && FrequencyClean(s.nav1CurrentFreq)
    && FrequencyClean(s.nav2StandbyFreq) && FrequencyClean(s.nav2CurrentFreq)
    && FrequencyClean(s.adfStandbyFreq) && FrequencyClean(s.adfCurrentFreq)
    && FrequencyClean(s.unknownFreq) && FrequencyClean(s.comFreq)
    && s.nav1CourseSelector < 0x4000 && s.nav2Obs < 0x4000 && s.adfBrg < 0x4000
    && s.baro < 0x4000 && s.autopilotHdg < 0x4000
    && s.unknown[0] < 0x80 && s.unknown[1] < 0x80 && s.unknown[2] < 0x80 && s.unknown[3] < 0x80
  }

  /** Clean settings give a setup buffer of 32 bytes that are all 7-bit
      clean, the checksum included. */
  lemma SetupBufferClean(s: ConsoleState)
    requires SettingsClean(s)
    ensures forall i :: 0 <= i < 32 ==> SetupBuffer(s)[i] < 0x80
  {
    Split7Clean(s.nav1CourseSelector);
    Split7Clean(s.nav2Obs);
    Split7Clean(s.adfBrg);
    Split7Clean(s.baro);
    Split7Clean(s.autopilotHdg);
    SetupBufferSealed(s);
    var layout := SetupLayout(s);
    assert forall x :: x in layout ==> x < 0x80;
    assert forall i :: 0 <= i < 31 ==> SetupBuffer(s)[i] == layout[i] && layout[i] in layout;
  }

  /** The setup checksum seals the buffer: the trailing byte is 7-bit clean,
      the seed XOR-ed with all 32 bytes has its low seven bits set, and so
      the plain XOR of the 32 bytes is never zero (its low bits are 0x43). */
  lemma SetupBufferSealed(s: ConsoleState)
    ensures SetupBuffer(s)[31] < 0x80
    ensures (SETUP_SEED ^ Fold(SetupBuffer(s))) & 0x7f == 0x7f
    ensures Fold(SetupBuffer(s)) & 0x7f == 0x43
    ensures Fold(SetupBuffer(s)) != 0
  {
    var layout := SetupLayout(s);
    var c := SetupChecksum(layout);
    FoldAppend(layout, [c]);
    FoldSingle(c);
    var f := Fold(layout);
    assert Fold(SetupBuffer(s)) == f ^ (!(SETUP_SEED ^ f) & 0x7f);
  }

  // ---------------------------------------------------------------------
  // Poll frame check
  // ---------------------------------------------------------------------

  /** A poll frame's eight bytes are accepted when they XOR to 0x7F. */
  predicate PollAccepts(frame: seq<byte>)
  {
    Fold(frame) == 0x7f
  }

  /** For any seven leading bytes exactly one eighth byte makes the frame
      acceptable, and changing any single byte of an accepted frame makes it
      unacceptable. */
  lemma PollCheckByte(body: seq<byte>, last: byte, p: seq<byte>, x: byte, q: seq<byte>, mask: byte)
    ensures PollAccepts(body + [last]) <==> last == Fold(body) ^ 0x7f
    ensures mask != 0 && PollAccepts(p + [x] + q) ==> !PollAccepts(p + [x ^ mask] + q)
  {
    FoldAppend(body, [last]);
    FoldSingle(last);
    FoldFlip(p, x, q, mask);
  }
}
