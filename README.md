# FS200AC serial protocol engine, modelled in Dafny

This project models the protocol engine of the FS200AC cockpit console driver. The engine talks to the console over a serial port (`SerialProvider`) in these steps:

- it resets the console;
- it asks for the console's persisted control positions (`ControlsState`) and fetches them;
- it sends the console its settings (`ConsoleState`) as a sealed 32-byte buffer;
- it then polls 8-byte frames that carry the three yoke axes and one control event.

The model has two layers:

- **Pure values and functions.** The serial link is a pure value `Serial.Link`: the bytes the console will send, a read cursor, the log of bytes written, a numbered write counter, the set of write calls that fail, and the timeout settings. Every exchange is a function from one link state to the next (module `Protocol`). The lemmas say what each exchange reads, writes and reports.
- **Imperative methods.** The engine itself is the class `Engine.FS200AC`, holding a mutable `Serial.Transport`. Its methods perform the exchanges with the C++ code's loops. Each method is proved to end in the link state, and to report the outcome, that the matching `Protocol` function gives.

Modules:

- `Bytes`: `byte` is `bv8`; `Fold` is the running XOR that every checksum loop computes.
- `Records`: the event, controls-state and console-state records.
- `Controls`: the `Control`, `Flaps`, `Gear` and `Radio` enumerations.
- `Codec`: the byte layouts:
  - command frames;
  - the 21-byte controls record and its check byte;
  - the 7-bit split of 16-bit settings;
  - the setup buffer and its seal;
  - the poll check.
- `Events`: the raw event-identifier table, `fill_event` and the axis decoding.
- `InitialState`: the default settings.
- `Serial`: the link and the transport.
- `Protocol`: the exchanges as functions, with their lemmas.
- `Engine`: the class.

Two behaviours of the code are easy to miss:

- **The setup buffer's seal.** The code stores `~(0xBC ^ fold of bytes 0..30) & 0x7F` in byte 31. So the XOR of the 32 bytes is not 0 as a whole. Instead its low seven bits are 0x43 (`Codec.SetupBufferSealed`).
- **The fetched record.** The fetch writes the received record into the caller's `ControlsState` before the check byte is read or checked. A fetch with a bad check byte therefore still changes the record (`Protocol.ReadControlsFrame`, `Protocol.TryGetFrame`).

A timeout of `t` milliseconds is modelled as a budget of `max(1, t)` single-byte read attempts (`Protocol.Budget`).

## Model

| member | source | states |
|---|---|---|
| Bytes.Fold | src/FS200AC.cpp:157-159 | the running XOR of a byte string, starting from 0, as each `ck ^=` loop accumulates it |
| Bytes.FoldAppend | src/FS200AC.cpp:157-159 | the XOR fold of a concatenation is the XOR of the two folds |
| Bytes.FoldPrefix | src/FS200AC.cpp:227-229 | one more step of a `ck ^= b[i]` loop extends the fold by `b[i]` |
| Bytes.FoldSingle | src/FS200AC.cpp:150-151 | the fold of one byte is that byte |
| Bytes.FoldFlip | src/FS200AC.cpp:157-159 | flipping bits of one byte flips the same bits of the fold |
| Bytes.AsInt8 | include/FS200AC/FS200AC.hpp:25 | reading a byte as `int8_t` gives a value in [-128, 127] congruent to it modulo 256 |
| Controls.Value | include/FS200AC/internal/FS200ACControls.hpp:1-54 | each control's number in the header, with the four trims numbered on from `CARB_HEAT` |
| Controls.Named | include/FS200AC/internal/FS200ACControls.hpp:1-54 | the control a number names, or none when no enumerator has that number |
| Controls.Group | include/FS200AC/internal/FS200ACControls.hpp:4-53 | the event type of each control's group in the header: knobs, push buttons, toggle buttons, switches and sliders, with the trims as buttons |
| Controls.NamedValue | include/FS200AC/internal/FS200ACControls.hpp:1-54 | each named control's number names it back |
| Controls.NamedIsValue | include/FS200AC/internal/FS200ACControls.hpp:1-54 | a number that names a control is that control's value |
| Controls.ValuesDistinct | include/FS200AC/internal/FS200ACControls.hpp:1-54 | no two named controls share a value |
| Controls.TrimValues | include/FS200AC/internal/FS200ACControls.hpp:47-53 | the four trim controls are 0x4D..0x50, one after `CARB_HEAT`, each UP one above its DN, and every other control is at most 0x4C |
| Codec.CommandFrame | src/FS200AC.cpp:115 | a command frame is sync, command, and a 7-bit check whose XOR with the other two has all seven low bits set |
| Codec.ParseCommandFrame | src/FS200AC.cpp:115 | the receiving side of a command frame: the command when the sync byte, the 7-bit third byte and the XOR test are right, and none otherwise |
| Codec.CommandFrameParses | src/FS200AC.cpp:115 | the receiver's check accepts every command frame, and only the frame of its own command |
| Codec.ControlsBytes | include/FS200AC/FS200AC.hpp:63-81 | the packed controls record is 21 bytes |
| Codec.ControlsImageRoundTrip | include/FS200AC/FS200AC.hpp:63-81 | the 21-byte image and the record convert into each other without loss, in both directions |
| Codec.DecodeControls | src/FS200AC.cpp:152-161 | the record a fetch stores: the 21 received bytes in field order, with both version bytes lowered by 48 modulo 256 |
| Codec.DecodeControlsFields | src/FS200AC.cpp:152-161 | a fetched record is the received bytes, with both version bytes lowered by 48 modulo 256 |
| Codec.FetchAccepts | src/FS200AC.cpp:157-167 | a fetch is accepted when the seed, the fold of the record and the check byte XOR to 0x7F |
| Codec.FetchCheckByteUnique | src/FS200AC.cpp:150-167 | a fetch accepts exactly one check byte: the fold of seed and record XOR 0x7F |
| Codec.FetchDetectsCorruptByte | src/FS200AC.cpp:157-167 | corrupting any one byte of an accepted record makes the fetch reject it |
| Codec.Split7 | src/FS200AC.cpp:205-218 | a 16-bit setting as its low seven bits and its value shifted right by seven, cut to a byte |
| Codec.Join7 | src/FS200AC.cpp:285 | two bytes joined as `(hi << 7) | lo` in 16 bits |
| Codec.Split7Join | src/FS200AC.cpp:205-218 | splitting a 16-bit setting into a 7-bit low byte and the rest, and joining them back, keeps its low 15 bits (all of it below 0x8000) |
| Codec.Split7Clean | src/FS200AC.cpp:205-218 | the low byte of a split is 7-bit clean, and for values below 0x8000 the high byte is clean exactly when the value is below 0x4000 |
| Codec.Join7Split | src/FS200AC.cpp:285 | packing a knob reading from a 7-bit low byte and a high byte and splitting it again gives back the two bytes |
| Codec.SetupLayout | src/FS200AC.cpp:194-225 | the settings part of the buffer is 31 bytes |
| Codec.SetupChecksum | src/FS200AC.cpp:225-230 | the seal byte: 0xBC XOR the fold of the 31 settings bytes, complemented and cut to seven bits |
| Codec.SetupBuffer | src/FS200AC.cpp:194-230 | the setup buffer is 32 bytes |
| Codec.DecodeLayoutSettings | src/FS200AC.cpp:205-218 | each 16-bit setting is recovered through its 15 low bits |
| Codec.DecodeLayoutFrequencies | src/FS200AC.cpp:194-223 | the radio selector and every frequency pair are read back unchanged |
| Codec.DecodeLayoutOpaque | src/FS200AC.cpp:225 | the four opaque bytes are read back unchanged |
| Codec.DecodeLayout | src/FS200AC.cpp:194-225 | reading the settings back out of the 31 bytes gives the settings, with every 16-bit field reduced to 15 bits |
| Codec.SetupBufferRoundTrip | src/FS200AC.cpp:194-230 | the sealed buffer decodes to the settings clipped to 15 bits, and to the settings themselves when they fit |
| Codec.DecodeReadsPrefix | src/FS200AC.cpp:194-225 | decoding reads only the 31 settings bytes |
| Codec.SetupBufferSealed | src/FS200AC.cpp:225-230 | the seal byte is 7-bit clean; with the seed folded in, the buffer's fold has its seven low bits set; the buffer's own fold has low bits 0x43 and is never 0 |
| Codec.SetupBufferClean | src/FS200AC.cpp:194-230 | settings whose single bytes are below 0x80 and whose 16-bit values are below 2^14 give a buffer whose 32 bytes are all 7-bit clean |
| Codec.PollAccepts | src/FS200AC.cpp:353-362 | a poll frame is accepted when its eight bytes fold to 0x7F |
| Codec.PollCheckByte | src/FS200AC.cpp:353-362 | a poll frame is accepted for exactly one last byte, and corrupting any one byte of an accepted frame makes it rejected |
| Events.Kind | src/FS200AC.cpp:17-73 | the raw identifier table: each `EventID` with the case of `fill_event` it falls under, and every other number unknown |
| Events.KindType | src/FS200AC.cpp:262-341 | the event type that each case of `fill_event` sets |
| Events.RawIdsEven | src/FS200AC.cpp:16-73 | every known non-zero event identifier is even |
| Events.RawIdsRange | src/FS200AC.cpp:16-73 | known identifiers lie in 0x02..0x4C and never collide with the trim control values |
| Events.IdsAreControls | src/FS200AC.cpp:261-341 | apart from the trims and the transponder knob, a raw identifier below 0x4D is known exactly when it is a named control |
| Events.ControlsAreIds | src/FS200AC.cpp:261-341 | every named non-trim control is a known identifier whose event type is its group in the controls header |
| Events.FillEvent | src/FS200AC.cpp:260-346 | the case analysis of `fill_event`; an identifier outside the table yields `Unclassified`, with the identifier as its control |
| Events.FillEventTable | src/FS200AC.cpp:260-346 | an identifier is classified exactly when it is in the table, with the type its case sets, and the event keeps the identifier as its control except for the trims and the transponder knob; any other identifier leaves its own value as the control |
| Events.FillEventPayloads | src/FS200AC.cpp:262-341 | for every identifier and payload: 0 is no event, a push button carries its identifier alone, a toggle is on exactly when b2 is non-zero, a switch or slider carries b2 unchanged, and b3 matters only to knobs |
| Events.TrimIsButton | src/FS200AC.cpp:268-275 | both trims produce button events whatever their payload |
| Events.TrimDirections | src/FS200AC.cpp:268-275 | payload 1 gives the DN and payload 2 the UP control of each trim |
| Events.TrimOutOfRange | src/FS200AC.cpp:268-271 | a trim payload of 0 or 3 names a neighbouring control (`CARB_HEAT`, `AUTOPILOT_TRIM_DN`) |
| Events.KnobRoundTrip | src/FS200AC.cpp:278-286 | a knob event carries a 14-bit reading sent split into two 7-bit bytes, and the two bytes can be recovered from the reading |
| Events.TransponderKnob | src/FS200AC.cpp:287-291 | the transponder knob reports as `FREQ_TUNE_RADIO` with a 10-bit reading whose high bits are the low two of b2 and whose low byte is b3 |
| Events.Axis | src/FS200AC.cpp:366-368 | one axis: the magnitude byte, negated modulo 256 when its sign bit is set |
| Events.AxisSignMagnitude | src/FS200AC.cpp:366-368 | an axis byte is the magnitude when its sign bit is clear and the negated magnitude when it is set, read as `int8_t`, for magnitudes up to 127 (clear) / 128 (set) |
| Events.AxisRoundTrip | src/FS200AC.cpp:366-368 | every axis value has a sign-bit and magnitude encoding that decodes back to it |
| Events.DecodeFrame | src/FS200AC.cpp:364-369 | an accepted frame's roll, pitch and yaw from bytes 0-3, and its event from bytes 4-6 |
| Events.DecodeFrameLayout | src/FS200AC.cpp:366-368 | each axis depends only on its own magnitude byte and its flag bit (pitch bit 0, roll bit 1, yaw bit 2) |
| Events.DecodeFrameIgnoresCheck | src/FS200AC.cpp:352-369 | the last frame byte feeds only the check: frames that agree on bytes 0..6 decode alike |
| Events.DecodeFrameExample | src/FS200AC.cpp:334-341 | a worked frame decodes to a throttle slider event with pitch and roll negative and yaw positive |
| Events.FillEventExamples | src/FS200AC.cpp:268-321 | worked identifiers decode to the expected toggle, trim and knob events |
| Events.ExampleFrameAccepted | src/FS200AC.cpp:360 | the worked frame passes the poll check |
| InitialState.DefaultsInRange | include/FS200AC/internal/FS200ACInitialState.hpp:1-33 | the defaults respect the ranges their comments give: NAV1 selected, NAV frequencies in [108.00, 117.95], COM in [118.00, 135.97], headings up to 359, altimeter in [2780, 3100] |
| InitialState.DefaultsSplitCleanly | include/FS200AC/internal/FS200ACInitialState.hpp:21-30 | the 16-bit defaults are below 2^14, 2992 goes out as 48, 23, and the default buffer decodes back to the defaults |
| InitialState.DefaultSetupBufferClean | include/FS200AC/internal/FS200ACInitialState.hpp:1-33 | every byte of the default setup buffer is 7-bit clean and its opaque bytes are 1, 2, 0, 0 |
| Serial.Receive | include/FS200AC/FS200AC.hpp:13 | a read of `n` bytes succeeds exactly when `n` are waiting and consumes them; a read that times out consumes what was there and fails |
| Serial.ReceiveFront | include/FS200AC/FS200AC.hpp:13 | reading the bytes waiting in front yields exactly them |
| Serial.Transmit | include/FS200AC/FS200AC.hpp:14 | a write succeeds unless its call fails, sends its bytes only on success, and counts one call |
| Serial.AdvancesRemaining | include/FS200AC/FS200AC.hpp:13 | reading leaves a suffix of the waiting bytes |
| Serial.AdvancesTransitive | include/FS200AC/FS200AC.hpp:9-15 | link progress composes |
| Serial.Transport.constructor | include/FS200AC/FS200AC.hpp:9-15 | a fresh port has read and written nothing |
| Serial.Transport.Read | include/FS200AC/FS200AC.hpp:13 | the port's read is `Receive` on its state |
| Serial.Transport.Write | include/FS200AC/FS200AC.hpp:14 | the port's write is `Transmit` on its state |
| Serial.Transport.SetReadTimeout | include/FS200AC/FS200AC.hpp:11 | records the read timeout settings and changes nothing else |
| Serial.Transport.SetWriteTimeout | include/FS200AC/FS200AC.hpp:12 | records the write timeout multiplier and changes nothing else |
| Protocol.WaitLoop | src/FS200AC.cpp:104-111 | the read loop, given its remaining budget and the byte last read; a failed read keeps that byte |
| Protocol.FirstIndex | src/FS200AC.cpp:107-109 | the position where a wait meets its code is within the waiting bytes |
| Protocol.FirstIndexSpec | src/FS200AC.cpp:107-109 | that position holds the code and no earlier byte does; it is past the end exactly when the code is absent |
| Protocol.WaitOnCode | src/FS200AC.cpp:104-111 | the wait without the loop: consume up to the first occurrence of the code within the budget and succeed, or consume the budget and fail (code 0 on an empty link succeeds) |
| Protocol.WaitLoopSpec | src/FS200AC.cpp:104-111 | the read loop consumes up to and including the first occurrence of the code within its budget and succeeds, or consumes its budget and fails, except that with nothing to read it tests the unchanged byte |
| Protocol.WaitLoopIsWait | src/FS200AC.cpp:104-111 | the read loop started on byte 0 is the closed-form wait |
| Protocol.WaitLoopExhausted | src/FS200AC.cpp:107-110 | on an exhausted link every read fails and the loop tests the byte it holds |
| Protocol.WaitFinds | src/FS200AC.cpp:104-111 | a code that arrives within the budget is found, and the bytes before it are skipped |
| Protocol.WaitNext | src/FS200AC.cpp:104-111 | a code that is the next byte is taken alone |
| Protocol.WaitMisses | src/FS200AC.cpp:104-111 | a non-zero code that never arrives is not found, nothing is written, and it stays absent |
| Protocol.WaitOnSilence | src/FS200AC.cpp:104-111 | on a silent link a wait succeeds only for code 0, the byte it starts from |
| Protocol.WaitAdvances | src/FS200AC.cpp:104-111 | a wait only moves the read cursor forward |
| Protocol.WriteEach | src/FS200AC.cpp:116-122 | write bytes one per call, stopping at the first call that fails |
| Protocol.FailingCall | src/FS200AC.cpp:116-120 | counts the writes of a byte-per-call sequence before the first failing call |
| Protocol.FailingCallSpec | src/FS200AC.cpp:116-120 | the calls before that one all succeed, and with no failing call ahead the whole sequence goes out |
| Protocol.WriteEachStep | src/FS200AC.cpp:116-122 | a first byte that goes out, then the rest, keeps the byte-by-byte write outcome |
| Protocol.WriteEachOutcome | src/FS200AC.cpp:116-122 | writing byte by byte sends exactly the bytes before the first failing call, makes one call per byte up to and including it, and succeeds exactly when none fails |
| Protocol.SendCommand | src/FS200AC.cpp:113-127 | set the write timeout, write the command frame byte by byte, and wait 500 ms for the acknowledge only when asked |
| Protocol.SendCommandOutcome | src/FS200AC.cpp:113-127 | a command with a failing write fails after a partial frame; otherwise it succeeds at once without waiting, or reports whether the acknowledge came within 500 |
| Protocol.SendCommandAdvances | src/FS200AC.cpp:113-127 | a command only moves the link forward |
| Protocol.SendCommandDelivers | src/FS200AC.cpp:113-127 | with all writes going out, a command without waiting writes exactly its 3-byte frame in three calls and succeeds |
| Protocol.SendCommandAcked | src/FS200AC.cpp:113-127 | a command whose acknowledge is the next byte succeeds, consuming only that byte |
| Protocol.ResetRoundsNext | src/FS200AC.cpp:133-136 | the reset burst is one round followed by the rest |
| Protocol.Repeat | src/FS200AC.cpp:133-136 | `n` copies of a byte string have `n` times its length |
| Protocol.RepeatAppend | src/FS200AC.cpp:133-136 | one more copy appended is one more repetition |
| Protocol.ResetRoundAdvances | src/FS200AC.cpp:134-135 | a reset round only moves the link forward |
| Protocol.ResetRoundsAdvances | src/FS200AC.cpp:133-136 | so does the whole burst |
| Protocol.ResetRoundSilent | src/FS200AC.cpp:134-135 | against a silent console a round writes one reset frame |
| Protocol.ResetRoundsSilentStep | src/FS200AC.cpp:133-136 | one silent round before the rest of the burst adds one frame to what the rest writes |
| Protocol.FramesAfterRound | src/FS200AC.cpp:133-136 | a round that writes a frame, then rounds that write it once each, write it once per round in three calls each |
| Protocol.SentPrefix | src/FS200AC.cpp:116-120 | the first byte sent, then the next `k`, are the first `k + 1` bytes |
| Protocol.ResetRoundsSilent | src/FS200AC.cpp:133-136 | against a silent console the burst writes one reset frame per round, three calls each, and reads nothing |
| Protocol.ResetRoundStaysSilent | src/FS200AC.cpp:134-135 | after a round on a silent link with working writes, the link is still silent and its writes still go out |
| Protocol.ResetAttempt | src/FS200AC.cpp:130-140 | one pass of the reset: 'X' within 50 ms; or three reset rounds and 'X' within 500 ms; otherwise an acknowledge and failure |
| Protocol.ResetConsole | src/FS200AC.cpp:129-142 | the corrected reset of "## Findings": a failed attempt starts over once, with the flag cleared |
| Protocol.ResetConsoleAsWritten | src/FS200AC.cpp:129-142 | the reset as written: every failed attempt starts over, cut off after `fuel` restarts |
| Protocol.ResetAttemptIdle | src/FS200AC.cpp:130-132 | a console that sends 'X' within 50 is reset at once, without any write |
| Protocol.ResetAttemptAdvances | src/FS200AC.cpp:129-141 | a reset attempt only moves the link forward |
| Protocol.ResetAttemptSilent | src/FS200AC.cpp:129-141 | a console that never sends 'X' fails the attempt |
| Protocol.ResetAttemptOnEmpty | src/FS200AC.cpp:129-141 | against a silent console an attempt writes three reset frames and an acknowledge in ten calls and fails |
| Protocol.ResetWhenIdle | src/FS200AC.cpp:129-132 | an idle console is reset by the first wait, with or without retry |
| Protocol.ResetSilentFails | src/FS200AC.cpp:129-142 | the reset of a console that never sends 'X' fails and ends |
| Protocol.ResetSilentOutput | src/FS200AC.cpp:129-142 | and it writes the reset cycle twice with retry, once without |
| Protocol.ResetAsWrittenUnfold | src/FS200AC.cpp:137-139 | against a silent console a failed attempt of the reset as written starts over after one full cycle |
| Protocol.ResetAsWrittenStep | src/FS200AC.cpp:137-139 | one restart of the reset as written adds one cycle |
| Protocol.ResetAsWrittenExhaustsFuel | src/FS200AC.cpp:137-139 | the reset as written never succeeds against a silent console and writes one more cycle for every restart it is allowed: its recursion has no bound |
| Protocol.ResetAsWrittenOutlastsCorrected | src/FS200AC.cpp:129-142 | when the first two reset attempts fail and the third succeeds, the reset as written succeeds on its second restart while the corrected reset fails after its one restart |
| Protocol.ReadControlsFrame | src/FS200AC.cpp:149-167 | read the seed, the 21 record bytes and the check byte; the record is replaced once its bytes have arrived, and success is the check-byte test |
| Protocol.TryGetControlsState | src/FS200AC.cpp:144-168 | wait up to 440 ms for the sync byte, then read the frame |
| Protocol.ReadFrameComplete | src/FS200AC.cpp:149-167 | a complete frame is read in full; the record becomes the decoded payload and success is the check byte test |
| Protocol.ReadFrameTruncated | src/FS200AC.cpp:151-155 | a frame shorter than its seed and record fails, leaves the record unchanged and consumes the rest |
| Protocol.ReadFrameMissingCheck | src/FS200AC.cpp:160-166 | a frame missing only its check byte fails but has already overwritten the record |
| Protocol.TryGetFrame | src/FS200AC.cpp:144-168 | a fetch attempt skips the noise before the sync byte and reads the frame after it |
| Protocol.TryGetReadsOnly | src/FS200AC.cpp:144-168 | a fetch attempt never writes |
| Protocol.TryGetNoSync | src/FS200AC.cpp:145-148 | without a sync byte the attempt fails and leaves the record unchanged |
| Protocol.FetchAttempts | src/FS200AC.cpp:179-190 | up to `attempts` tries: a failed try ends the fetch, a good one is acknowledged, and only a failed acknowledge leads to another try |
| Protocol.GetControlsState | src/FS200AC.cpp:170-191 | the acknowledged queries 0x36 and 0x23, then up to three fetch attempts |
| Protocol.FetchAttemptsRetry | src/FS200AC.cpp:179-188 | a good attempt whose acknowledge is not written leaves the fetch to the remaining attempts |
| Protocol.FetchAttemptsStep | src/FS200AC.cpp:179-190 | one attempt of the fetch keeps its write discipline, given the later ones do |
| Protocol.FetchAttemptsWrites | src/FS200AC.cpp:179-190 | the fetch loop only moves the link forward, writes the acknowledge exactly when it succeeds, and makes at most one write per attempt |
| Protocol.GetControlsAdvances | src/FS200AC.cpp:170-191 | fetching the controls state only moves the link forward |
| Protocol.FetchFirstAttempt | src/FS200AC.cpp:179-186 | a failed first attempt is the outcome; a good one whose acknowledge goes out ends the fetch with success |
| Protocol.FetchFrame | src/FS200AC.cpp:179-186 | against a console that sends a complete frame at once, the fetch decodes the record and succeeds and acknowledges exactly when the check byte is right |
| Protocol.GetControlsFrame | src/FS200AC.cpp:170-191 | against a console that acknowledges both queries and sends a frame, the fetch writes the two query frames, decodes the record, and succeeds and acknowledges exactly when the check byte is right |
| Protocol.Try | src/FS200AC.cpp:232-253 | one try of a settings step: await the cue bytes 0xA5, 0x23, 0x5C; or write 0xA5, 0x19 and the buffer, then await the acknowledge |
| Protocol.Retry | src/FS200AC.cpp:75-83 | a step tried up to `count` times, stopping at the first success |
| Protocol.ChainedCons | src/FS200AC.cpp:76-80 | a failed try in front of a chain of tries that starts on the link it left is again a chain |
| Protocol.TraceExplainsCons | src/FS200AC.cpp:75-83 | a failed first try followed by the tries of the remaining retry explains the whole retry |
| Protocol.RetryStep | src/FS200AC.cpp:75-83 | one level of the retry combinator follows its trace, given the levels below do |
| Protocol.RetryByTrace | src/FS200AC.cpp:75-83 | a retry makes at most `count` tries, each on the link the previous left, all but the last failed, stopping early only on success, with the last try's outcome |
| Protocol.RetrySucceedsIffSomeTry | src/FS200AC.cpp:75-83 | a retry succeeds exactly when one of its tries does |
| Protocol.ChainedOutcome | src/FS200AC.cpp:76-82 | in a chain of tries every try but the last has failed, so an outcome that is the last try's succeeds exactly when some try does |
| Protocol.SetupConsole | src/FS200AC.cpp:193-254 | the cue in up to three tries, its acknowledge, then the sealed buffer in up to three tries |
| Protocol.AwaitCueSilent | src/FS200AC.cpp:232-234 | without a sync byte awaiting the cue fails and writes nothing |
| Protocol.SetupWithoutCue | src/FS200AC.cpp:232-237 | a console that never sends the sync byte does not get its settings, and nothing is written |
| Protocol.AwaitCueAtOnce | src/FS200AC.cpp:232-234 | a cue waiting in full is taken in one try |
| Protocol.SendBufferAcked | src/FS200AC.cpp:243-253 | a buffer acknowledged at once goes out in one try, header first, in three calls |
| Protocol.SetupConsoleFrame | src/FS200AC.cpp:193-254 | against a console that sends the cue and then acknowledges, the exchange succeeds after writing the acknowledge, the header and the sealed buffer |
| Protocol.Poll | src/FS200AC.cpp:348-371 | wait up to 100 ms for the sync byte, read 8 bytes, require their fold to be 0x7F, acknowledge, then decode; any failure delivers nothing |
| Protocol.PollWrites | src/FS200AC.cpp:348-371 | a poll writes the acknowledge exactly when it delivers a frame, and makes at most one write |
| Protocol.PollFrame | src/FS200AC.cpp:348-371 | a full frame after the sync byte is consumed; the poll delivers its decoding exactly when the check holds and the acknowledge goes out |
| Protocol.PollTruncated | src/FS200AC.cpp:354-359 | a frame cut short delivers nothing and writes nothing |
| Protocol.Initialize | src/FS200AC.cpp:92-102 | the corrected reset, then the fetch, then the setup; a failed reset or fetch ends it with failure |
| Protocol.InitializeSession | src/FS200AC.cpp:92-102 | against a cooperative console, start-up succeeds, returns the decoded record and writes exactly the two query frames, two acknowledges, the setup header and the settings buffer |
| Engine.Checksum | src/FS200AC.cpp:150-159 | folding the record into the seed byte by byte gives the fetch checksum |
| Engine.FoldIntoLast | src/FS200AC.cpp:227-229 | the in-place loop folds the 31 settings bytes into the last cell and leaves them unchanged |
| Engine.SealBuffer | src/FS200AC.cpp:227-230 | the last cell becomes the complemented low seven bits of seed XOR fold |
| Engine.BuildSetupBuffer | src/FS200AC.cpp:194-230 | the array built in place is the setup buffer |
| Engine.FS200AC.constructor | src/FS200AC.cpp:85-86 | the engine is bound to the given port |
| Engine.FS200AC.WaitOnCode | src/FS200AC.cpp:104-111 | the read loop leaves the port as the closed-form wait does and reports its outcome |
| Engine.FS200AC.SendCommand | src/FS200AC.cpp:113-127 | sets the write timeout, writes the frame byte by byte and optionally waits, as `Protocol.SendCommand` |
| Engine.FS200AC.WriteByte | src/FS200AC.cpp:256-258 | one single-byte write |
| Engine.FS200AC.ResetConsole | src/FS200AC.cpp:129-142 | performs the reset with at most one retry, as `Protocol.ResetConsole` |
| Engine.FS200AC.ReadControlsFrame | src/FS200AC.cpp:149-167 | reads seed, record and check byte and tests the fold, as `Protocol.ReadControlsFrame` |
| Engine.FS200AC.TryGetControlsState | src/FS200AC.cpp:144-168 | one fetch attempt, as `Protocol.TryGetControlsState` |
| Engine.FS200AC.FetchAttempts | src/FS200AC.cpp:179-190 | the attempt loop, as `Protocol.FetchAttempts` |
| Engine.FS200AC.GetControlsState | src/FS200AC.cpp:170-191 | the two queries and the attempt loop, as `Protocol.GetControlsState` |
| Engine.FS200AC.Try | src/FS200AC.cpp:232-234 | one try of a settings step (the cue or the buffer, lines 244-252), as `Protocol.Try` |
| Engine.FS200AC.Retry | src/FS200AC.cpp:75-83 | the retry loop, as `Protocol.Retry` |
| Engine.FS200AC.SetupConsole | src/FS200AC.cpp:193-254 | builds the buffer and runs the settings exchange, as `Protocol.SetupConsole` |
| Engine.FS200AC.ReadPollFrame | src/FS200AC.cpp:352-359 | eight single-byte reads are one 8-byte read, and the running fold is the frame's fold |
| Engine.FS200AC.Poll | src/FS200AC.cpp:348-371 | polls as `Protocol.Poll`, leaving the caller's motion and event as they were when no frame is delivered |
| Engine.FS200AC.Initialize | src/FS200AC.cpp:92-102 | reset, fetch and setup in sequence, as `Protocol.Initialize` |
| Engine.FS200AC.InitializeWithDefaults | include/FS200AC/FS200AC.hpp:24 | initialization with the default settings |

## Left out

- Timing is not modelled. The sleeps between command bytes and before the buffer are left out. A wait's millisecond budget is modelled as a count of single-byte read attempts, and a failed read is taken to consume everything waiting.
- The transport's timeout settings are recorded in the link state but do not change how reads behave.
- Write failures are modelled by call number (`failingWrites`). A failing write sends nothing. A partially completed multi-byte write is not modelled.
- The destructor's reset (src/FS200AC.cpp:88-90) is not a separate member: it would be a call of the corrected `Engine.FS200AC.ResetConsole(true)`.
- Engine.FS200AC.ResetConsole: runs the corrected reset of "## Findings", which starts over at most once, while src/FS200AC.cpp:137-139 starts over without bound. On a console that sends 'X' only during the third attempt (4100 zero bytes, then 0x58), the code succeeds on its third attempt and the model fails after two (`Protocol.ResetAsWrittenOutlastsCorrected`); the code as written is `Protocol.ResetConsoleAsWritten`.
- Engine.FS200AC.Initialize: starts with the corrected reset of "## Findings" (through `Protocol.Initialize`), so on the console above (4100 zero bytes, then 0x58) the code goes on to fetch and setup while the model fails at the reset.
- Engine.FS200AC.InitializeWithDefaults: the same difference as `Engine.FS200AC.Initialize`, since it calls it.
- Protocol.Initialize: the same difference as `Engine.FS200AC.Initialize`; it is the function that method is proved against.
- The `assert(false)` calls are compiled-out debug checks. The model keeps only the `false` return after each.
- Protocol.ReadControlsFrame: when the 21-byte read of the record times out, the C++ code leaves whatever bytes arrived in the record. The model keeps the record unchanged in that case.
- Events.FillEvent: for an identifier outside the table, the C++ code sets only the control and leaves the caller's previous event type and payload in place. The model reports `Unclassified(control)` and does not carry the stale fields. The event payload's C++ union layout is also not modelled.
- The unused `m_read_timeout` and `m_write_timeout` fields (include/FS200AC/FS200AC.hpp:86-87) are not modelled.
- The poll's axis outputs: the header above declares them `int8_t`, while the definition uses `uint8_t`. The model returns the byte and provides `Bytes.AsInt8` to read it signed.
- Protocol.ResetConsoleAsWritten: the unbounded recursion of the reset as written is cut off after `fuel` restarts. This is needed so that the function terminates. The corrected `Protocol.ResetConsole` needs no such bound.
- The example programs and the console's physical behaviour beyond the bytes it sends are not part of this model.

## Findings

| source | as written | input that shows it | evidently intended | confidence | as-written member | corrected member |
|---|---|---|---|---|---|---|
| src/FS200AC.cpp:129-142 | `reset_console(bool retry)` never reads `retry`. After a failed attempt it always calls `reset_console(false)` again, so the retry flag does not stop the recursion | a console that never sends 'X' (any input without the byte 0x58, for example an empty one): every attempt fails, and each restart writes three reset frames and an acknowledge, without end | with `retry` set, a failed attempt starts over once, with the flag cleared; without it, the reset fails | not executed | Protocol.ResetAsWrittenExhaustsFuel | Protocol.ResetSilentOutput |
