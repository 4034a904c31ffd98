/** The protocol engine as the object the application holds: an `FS200AC`
    bound to a serial port, whose methods perform the exchanges on that port
    step by step. Each method is proved to leave the port in the state, and
    to report the outcome, that the function of the same name in `Protocol`
    prescribes for the state it started in. */
module Engine {
  import opened Bytes
  import opened Records
  import opened Codec
  import opened Events
  import opened Serial
  import opened InitialState
  import Protocol

  /** Fold `bytes` into `seed` one byte at a time, as the fetch checks its
      record. */
  method Checksum(seed: byte, bytes: seq<byte>) returns (ck: byte)
    ensures ck == FetchChecksum(seed, bytes)
  {
    ck := seed;
    for i := 0 to |bytes|
      invariant ck == seed ^ Fold(bytes[..i])
    {
      FoldPrefix(bytes, i);
      ck := ck ^ bytes[i];
    }
    assert bytes[..|bytes|] == bytes;
  }

  /** Fold the first 31 cells of a settings buffer into its last one. */
  method FoldIntoLast(b: array<byte>)
    requires b.Length == 32
    modifies b
    ensures b[..31] == old(b[..31])
    ensures b[31] == old(b[31]) ^ Fold(old(b[..31]))
  {
    ghost var body := b[..31];
    ghost var seed := b[31];
    for i := 0 to 31
      invariant forall j :: 0 <= j < 31 ==> b[j] == body[j]
      invariant b[31] == seed ^ Fold(body[..i])
    {
      FoldPrefix(body, i);
      b[31] := b[31] ^ b[i];
    }
    assert body[..31] == body;
    assert b[..31] == body;
  }

  /** Seal a settings buffer in place: its last cell, which holds the
      seed, is folded with the 31 bytes before it and then reduced to the
      complement of its low seven bits. */
  method SealBuffer(b: array<byte>)
    requires b.Length == 32
    modifies b
    ensures b[..31] == old(b[..31])
    ensures b[31] == !(old(b[31]) ^ Fold(old(b[..31]))) & 0x7f
  {
    FoldIntoLast(b);
    b[31] := !b[31] & 0x7f;
  }

  /** Build the 32-byte settings buffer: the 31 settings bytes and the seed
      0xBC, sealed. */
  method BuildSetupBuffer(state: ConsoleState) returns (buffer: seq<byte>)
    ensures buffer == SetupBuffer(state)
  {
    var layout := SetupLayout(state);
    var b := new byte[32](i => if 0 <= i < 31 then layout[i] else SETUP_SEED);
    assert b[..31] == layout;
    SealBuffer(b);
    buffer := b[..];
    assert buffer == b[..31] + [b[31]];
  }

  /** The engine, talking to the console through `serial`. */
  class FS200AC {
    const serial: Transport

    constructor (serial: Transport)
      ensures this.serial == serial
    {
      this.serial := serial;
    }

    /** Read one byte at a time until the code arrives or the budget of
        read attempts is spent; a failed read keeps the byte last read. */
    method WaitOnCode(code: byte, timeoutMs: int) returns (found: bool)
      requires serial.Valid()
      modifies serial
      ensures serial.Valid()
      ensures Done(found, serial.State()) == Protocol.WaitOnCode(old(serial.State()), code, timeoutMs)
    {
      ghost var start := serial.State();
      Protocol.WaitLoopIsWait(start, code, timeoutMs);
      var value: byte := 0;
      var attempts := Protocol.Budget(timeoutMs);
      while attempts > 0
        invariant serial.Valid()
        invariant Protocol.WaitLoop(serial.State(), code, value, attempts)
                  == Protocol.WaitLoop(start, code, 0, Protocol.Budget(timeoutMs))
        decreases attempts
      {
        var ok, data := serial.Read(1);
        attempts := attempts - 1;
        if ok {
          value := data[0];
          if value == code {
            found := true;
            return;
          }
        }
      }
      found := value == code;
    }

    /** Write a command frame one byte per call, giving up at the first
        failing write, then optionally wait 500 ms for the acknowledge. */
    method SendCommand(command: byte, wait: bool) returns (ok: bool)
      requires serial.Valid()
      modifies serial
      ensures serial.Valid()
      ensures Done(ok, serial.State()) == Protocol.SendCommand(old(serial.State()), command, wait)
    {
      ghost var start := serial.State();
      serial.SetWriteTimeout(42);
      var bytes := CommandFrame(command);
      var i := 0;
      while i < 3
        invariant 0 <= i <= 3 && serial.Valid()
        invariant Protocol.WriteEach(serial.State(), bytes[i..])
                  == Protocol.WriteEach(WithWriteTimeout(start, 42), bytes)
      {
        assert bytes[i..][1..] == bytes[i + 1..];
        ok := serial.Write([bytes[i]]);
        if !ok {
          return;
        }
        i := i + 1;
      }
      if wait {
        ok := WaitOnCode(CODE_ACKNOWLEDGE, 500);
      } else {
        ok := true;
      }
    }

    /** Write one byte. */
    method WriteByte(b: byte) returns (ok: bool)
      requires serial.Valid()
      modifies serial
      ensures serial.Valid()
      ensures Done(ok, serial.State()) == Transmit(old(serial.State()), [b])
    {
      ok := serial.Write([b]);
    }

    /** Reset the console: done if it is already idle, otherwise three
        reset rounds and a longer wait for idle; if that fails too,
        acknowledge and, when `retry` is set, try once more without it. */
    method ResetConsole(retry: bool) returns (ok: bool)
      requires serial.Valid()
      modifies serial
      ensures serial.Valid()
      ensures Done(ok, serial.State()) == Protocol.ResetConsole(old(serial.State()), retry)
      decreases if retry then 1 else 0
    {
      ghost var start := serial.State();
      ok := WaitOnCode(CODE_IDLE, 50);
      if ok {
        return;
      }
      ghost var burst := Protocol.ResetRounds(serial.State(), 3);
      var left: nat := 3;
      while left > 0
        invariant serial.Valid()
        invariant Protocol.ResetRounds(serial.State(), left) == burst
      {
        var rest: nat := left - 1;
        Protocol.ResetRoundsNext(serial.State(), left, rest);
        var sent := SendCommand(COMMAND_RESET, false);
        var acked := WaitOnCode(CODE_ACKNOWLEDGE, 500);
        left := rest;
      }
      ok := WaitOnCode(CODE_IDLE, 500);
      if ok {
        return;
      }
      var written := WriteByte(CODE_ACKNOWLEDGE);
      if retry {
        ok := ResetConsole(false);
      }
    }

    /** Read a controls frame: the seed and the 21-byte record at the
        fetch's timeouts, the record folded into the seed and its version
        bytes corrected, then the check byte, which the fold must match. */
    method ReadControlsFrame(controls: ControlsState) returns (ok: bool, result: ControlsState)
      requires serial.Valid()
      modifies serial
      ensures serial.Valid()
      ensures Protocol.Fetched(ok, result, serial.State())
              == Protocol.ReadControlsFrame(old(serial.State()), controls)
    {
      result := controls;
      serial.SetReadTimeout(42, 440);
      var got, seed := serial.Read(1);
      if !got {
        ok := false;
        return;
      }
      var raw;
      got, raw := serial.Read(21);
      if !got {
        ok := false;
        return;
      }
      var ck := Checksum(seed[0], raw);
      result := DecodeControls(raw);
      var check;
      got, check := serial.Read(1);
      if !got {
        ok := false;
        return;
      }
      ok := ck ^ check[0] == 0x7f;
    }

    /** One fetch attempt: wait for the sync byte, then read the frame. */
    method TryGetControlsState(controls: ControlsState) returns (ok: bool, result: ControlsState)
      requires serial.Valid()
      modifies serial
      ensures serial.Valid()
      ensures Protocol.Fetched(ok, result, serial.State())
              == Protocol.TryGetControlsState(old(serial.State()), controls)
    {
      result := controls;
      ok := WaitOnCode(SYNC, 440);
      if ok {
        ok, result := ReadControlsFrame(controls);
      }
    }

    /** Up to `attempts` fetch attempts: a failed attempt ends the fetch, a
        good one is acknowledged, and a failed acknowledge starts the next
        attempt. */
    method FetchAttempts(controls: ControlsState, attempts: nat) returns (ok: bool, result: ControlsState)
      requires serial.Valid()
      modifies serial
      ensures serial.Valid()
      ensures Protocol.Fetched(ok, result, serial.State())
              == Protocol.FetchAttempts(old(serial.State()), controls, attempts)
    {
      ghost var goal := Protocol.FetchAttempts(serial.State(), controls, attempts);
      result := controls;
      var left := attempts;
      while left > 0
        invariant serial.Valid()
        invariant Protocol.FetchAttempts(serial.State(), result, left) == goal
      {
        ghost var before, previous := serial.State(), result;
        var rest: nat := left - 1;
        ok, result := TryGetControlsState(result);
        if !ok {
          return;
        }
        ghost var tried := Protocol.Fetched(ok, result, serial.State());
        ok := serial.Write([CODE_ACKNOWLEDGE]);
        if ok {
          return;
        }
        Protocol.FetchAttemptsRetry(before, previous, left, rest, tried);
        left := rest;
      }
      ok := false;
    }

    /** Ask for the controls state with the two query commands, then fetch
        it in up to three attempts. */
    method GetControlsState(controls: ControlsState) returns (ok: bool, result: ControlsState)
      requires serial.Valid()
      modifies serial
      ensures serial.Valid()
      ensures Protocol.Fetched(ok, result, serial.State())
              == Protocol.GetControlsState(old(serial.State()), controls)
    {
      result := controls;
      ok := SendCommand(Protocol.COMMAND_QUERY_FIRST, true);
      if !ok {
        return;
      }
      ok := SendCommand(Protocol.COMMAND_QUERY_SECOND, true);
      if !ok {
        return;
      }
      ok, result := FetchAttempts(controls, 3);
    }

    /** One try of a step of the settings exchange. */
    method Try(a: Protocol.Attempt) returns (ok: bool)
      requires serial.Valid()
      modifies serial
      ensures serial.Valid()
      ensures Done(ok, serial.State()) == Protocol.Try(a, old(serial.State()))
    {
      match a
      case AwaitCue =>
        ok := WaitOnCode(SYNC, 440);
        if ok {
          ok := WaitOnCode(Protocol.CUE_SECOND, 440);
          if ok {
            ok := WaitOnCode(Protocol.CUE_THIRD, 440);
          }
        }
      case SendBuffer(buffer) =>
        ok := WriteByte(SYNC);
        if !ok {
          return;
        }
        ok := WriteByte(Protocol.COMMAND_SETUP);
        if !ok {
          return;
        }
        ok := serial.Write(buffer);
        if !ok {
          return;
        }
        ok := WaitOnCode(CODE_ACKNOWLEDGE, 440);
    }

    /** Try a step up to `count` times, stopping at the first success. */
    method Retry(count: int, a: Protocol.Attempt) returns (ok: bool)
      requires serial.Valid()
      modifies serial
      ensures serial.Valid()
      ensures Done(ok, serial.State()) == Protocol.Retry(count, a, old(serial.State()))
    {
      ghost var start := serial.State();
      var i := 0;
      while i < count
        invariant 0 <= i && (count >= 0 ==> i <= count) && serial.Valid()
        invariant Protocol.Retry(count - i, a, serial.State()) == Protocol.Retry(count, a, start)
      {
        ok := Try(a);
        if ok {
          return;
        }
        i := i + 1;
      }
      ok := false;
    }

    /** Send the console its settings: build the buffer, await the cue,
        acknowledge it, and deliver the buffer. */
    method SetupConsole(state: ConsoleState) returns (ok: bool)
      requires serial.Valid()
      modifies serial
      ensures serial.Valid()
      ensures Done(ok, serial.State()) == Protocol.SetupConsole(old(serial.State()), state)
    {
      var buffer := BuildSetupBuffer(state);
      ok := Retry(3, Protocol.AwaitCue);
      if !ok {
        return;
      }
      ok := WriteByte(CODE_ACKNOWLEDGE);
      if !ok {
        return;
      }
      ok := Retry(3, Protocol.SendBuffer(buffer));
    }

    /** Read the eight bytes of a motion frame one call at a time, folding
        them as they arrive; a read that times out ends the frame early. */
    method ReadPollFrame() returns (ok: bool, frame: seq<byte>, ck: byte)
      requires serial.Valid()
      modifies serial
      ensures serial.Valid()
      ensures var g := Receive(old(serial.State()), 8);
              ok == g.ok && serial.State() == g.link && (ok ==> frame == g.data && ck == Fold(frame))
    {
      ghost var start := serial.State();
      frame, ck := [], 0;
      for i := 0 to 8
        invariant serial.Valid() && serial.pos == start.pos + i
        invariant serial.State() == start.(pos := serial.pos)
        invariant frame == serial.input[start.pos..serial.pos]
        invariant ck == Fold(frame)
      {
        var got, data := serial.Read(1);
        if !got {
          ok := false;
          return;
        }
        assert frame + data == serial.input[start.pos..serial.pos];
        assert data == [data[0]];
        FoldAppend(frame, data);
        FoldSingle(data[0]);
        frame := frame + data;
        ck := ck ^ data[0];
      }
      ok := true;
    }

    /** Poll for one frame: wait for the sync byte, read the eight frame
        bytes, require their fold to be 0x7F, acknowledge, and decode. When
        no frame is delivered the caller's motion and event are left as
        they were. */
    method Poll(previous: (Motion, EventResult)) returns (ok: bool, current: (Motion, EventResult))
      requires serial.Valid()
      modifies serial
      ensures serial.Valid()
      ensures var p := Protocol.Poll(old(serial.State()));
              serial.State() == p.link && ok == p.frame.Some?
              && current == (if ok then p.frame.value else previous)
    {
      current := previous;
      ok := WaitOnCode(SYNC, 100);
      if !ok {
        return;
      }
      var frame, ck;
      ok, frame, ck := ReadPollFrame();
      if !ok || ck != 0x7f {
        ok := false;
        return;
      }
      ok := WriteByte(CODE_ACKNOWLEDGE);
      if !ok {
        return;
      }
      current := DecodeFrame(frame);
    }

    /** Bring the console up: reset it, fetch its controls state, send it
        its settings. */
    method Initialize(controls: ControlsState, state: ConsoleState) returns (ok: bool, result: ControlsState)
      requires serial.Valid()
      modifies serial
      ensures serial.Valid()
      ensures Protocol.Fetched(ok, result, serial.State())
              == Protocol.Initialize(old(serial.State()), controls, state)
    {
      result := controls;
      ok := ResetConsole(true);
      if !ok {
        return;
      }
      ok, result := GetControlsState(controls);
      if !ok {
        return;
      }
      ok := SetupConsole(state);
    }

    /** Initialization with the settings the console starts from when the
        caller gives none. */
    method InitializeWithDefaults(controls: ControlsState) returns (ok: bool, result: ControlsState)
      requires serial.Valid()
      modifies serial
      ensures serial.Valid()
      ensures Protocol.Fetched(ok, result, serial.State())
              == Protocol.Initialize(old(serial.State()), controls, DefaultInitialState)
    {
      ok, result := Initialize(controls, DefaultInitialState);
    }
  }
}
