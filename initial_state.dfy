/** The settings `initialize` sends when its caller gives none. */
module InitialState {
  import opened Bytes
  import opened Records
  import opened Controls
  import opened Codec

  /** The default console settings: NAV1 and NAV2 at 111.70 standby and
      109.50 current, ADF at 190 and 200 kHz, COM at 121.20, all headings
      at 180 degrees and the altimeter at 29.92 inHg. */
  const DefaultInitialState: ConsoleState := ConsoleState(
    1,
    RadioFrequency(111, 70), RadioFrequency(109, 50),
    RadioFrequency(111, 70), RadioFrequency(109, 50),
    RadioFrequency(19, 0), RadioFrequency(20, 0),
    RadioFrequency(118, 90),
    RadioFrequency(121, 20),
    180, 180, 180, 2992, 180,
    [1, 2, 0, 0])

  /** The commented ranges of the settings hold for the defaults: the
      selected radio is NAV1, both NAV frequencies lie in [108.00, 117.95],
      the COM frequency in [118.00, 135.97], the headings in [0, 359] and the
      altimeter setting in [2780, 3100]. */
  lemma DefaultsInRange()
    ensures DefaultInitialState.currentRadio as int == RadioValue(Radio_NAV1)
    ensures var s := DefaultInitialState;
            10800 <= Hundredths(s.nav1StandbyFreq) <= 11795 && 10800 <= Hundredths(s.nav1CurrentFreq) <= 11795
            && 10800 <= Hundredths(s.nav2StandbyFreq) <= 11795 && 10800 <= Hundredths(s.nav2CurrentFreq) <= 11795
            && 11800 <= Hundredths(s.comFreq) <= 13597
    ensures var s := DefaultInitialState;
            s.nav1CourseSelector <= 359 && s.nav2Obs <= 359 && s.adfBrg <= 359 && s.autopilotHdg <= 359
            && 2780 <= s.baro <= 3100
  {
  }

  /** All five 16-bit defaults are below 2^14, so both bytes of each split
      are 7-bit clean (2992 goes out as 48, 23), and the whole setup buffer
      decodes back to the defaults. */
  lemma DefaultsSplitCleanly()
    ensures var s := DefaultInitialState;
            s.nav1CourseSelector < 0x4000 && s.nav2Obs < 0x4000 && s.adfBrg < 0x4000
            && s.baro < 0x4000 && s.autopilotHdg < 0x4000
    ensures Split7(2992) == (48, 23)
    ensures DecodeSetupBuffer(SetupBuffer(DefaultInitialState)) == DefaultInitialState
  {
    SetupBufferRoundTrip(DefaultInitialState);
  }

  /** What the default setup buffer looks like: every one of its 32 bytes,
      the checksum included, is 7-bit clean, and the opaque bytes 1, 2, 0, 0
      sit unchanged at positions 27 to 30. */
  lemma DefaultSetupBufferClean()
    ensures forall i :: 0 <= i < 32 ==> SetupBuffer(DefaultInitialState)[i] < 0x80
    ensures SetupBuffer(DefaultInitialState)[27..31] == [1, 2, 0, 0]
  {
    SetupBufferClean(DefaultInitialState);
    var b := SetupBuffer(DefaultInitialState);
    assert b[27..31] == [b[27], b[28], b[29], b[30]];
  }
}
