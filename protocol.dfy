/** The exchanges of the protocol engine as functions from one state of the
    serial link to the next. Each is the specification of the engine method
    of the same name; the lemmas say what each exchange reads, writes and
    reports. A wall-clock timeout of `t` milliseconds is modelled as a budget
    of `t` single-byte read attempts (at least one). */
module Protocol {
  import opened Bytes
  import opened Records
  import opened Codec
  import opened Events
  import opened Serial

  // ---------------------------------------------------------------------
  // Waiting for a code
  // ---------------------------------------------------------------------

  /** The read attempts a wait with this timeout makes; the wait reads at
      least once, since its test comes after the read. */
  function Budget(timeoutMs: int): nat
  {
    if timeoutMs < 1 then 1 else timeoutMs
  }

  /** The wait loop with `attempts` reads left and `value` the byte last
      read: a failed read keeps the previous value, and the loop ends when
      the value is the code or the attempts are used up. */
  function WaitLoop(l: Link, code: byte, value: byte, attempts: nat): Done
    decreases attempts
  {
    if attempts == 0 then Done(value == code, l)
    else if l.pos == |l.input| then WaitLoop(l, code, value, attempts - 1)
    else
      var v := l.input[l.pos];
      if v == code then Done(true, l.(pos := l.pos + 1)) else WaitLoop(l.(pos := l.pos + 1), code, v, attempts - 1)
  }

  /** The position of the first `x` in `s`, or `|s|` if there is none. */
  function FirstIndex(s: seq<byte>, x: byte): (k: nat)
    ensures k <= |s|
  {
    if s == [] then 0 else if s[0] == x then 0 else 1 + FirstIndex(s[1..], x)
  }

  /** `FirstIndex` finds the first occurrence: `x` is at `k` when `k` is in
      range, and nowhere before it. */
  lemma {:induction false} FirstIndexSpec(s: seq<byte>, x: byte)
    ensures FirstIndex(s, x) < |s| ==> s[FirstIndex(s, x)] == x
    ensures forall j :: 0 <= j < FirstIndex(s, x) ==> s[j] != x
    ensures x !in s <==> FirstIndex(s, x) == |s|
  {
    if s != [] && s[0] != x {
      FirstIndexSpec(s[1..], x);
      assert forall j :: 1 <= j < FirstIndex(s, x) ==> s[j] == s[1..][j - 1];
    }
  }

  function Min(a: nat, b: nat): nat
  {
    if a <= b then a else b
  }

  /** What a wait does, stated without the loop: if the code is among the
      next `attempts` waiting bytes, it consumes up to and including its
      first occurrence and succeeds. Otherwise it consumes the next
      `attempts` bytes (all of them, if fewer are waiting) and fails,
      except that when nothing could be read the untouched `value` is
      compared. */
  lemma {:induction false} WaitLoopSpec(l: Link, code: byte, value: byte, attempts: nat)
    ensures var rest := Remaining(l);
            var k := FirstIndex(rest, code);
            var found := k < |rest| && k < attempts;
            var r := WaitLoop(l, code, value, attempts);
            (r.ok <==> found || (value == code && (attempts == 0 || rest == [])))
            && r.link == l.(pos := l.pos + (if found then k + 1 else Min(attempts, |rest|)))
    decreases attempts
  {
    var rest := Remaining(l);
    if attempts == 0 {
    } else if rest == [] {
      WaitLoopExhausted(l, code, value, attempts);
    } else if rest[0] != code {
      var l' := l.(pos := l.pos + 1);
      assert Remaining(l') == rest[1..];
      WaitLoopSpec(l', code, rest[0], attempts - 1);
    }
  }

  /** What waiting for `code` does, stated without the loop: if the code is
      among the bytes the budget lets it read, the wait consumes up to and
      including its first occurrence and succeeds; otherwise it consumes
      what the budget allows and fails, except that on a link with nothing
      left the byte compared is still the initial 0. */
  function WaitOnCode(l: Link, code: byte, timeoutMs: int): Done
  {
    var rest := Remaining(l);
    var k := FirstIndex(rest, code);
    if k < |rest| && k < Budget(timeoutMs) then Done(true, l.(pos := l.pos + k + 1))
    else Done(code == 0 && rest == [], l.(pos := l.pos + Min(Budget(timeoutMs), |rest|)))
  }

  /** The read loop, started with the byte compared set to 0, is the wait. */
  lemma WaitLoopIsWait(l: Link, code: byte, timeoutMs: int)
    ensures WaitLoop(l, code, 0, Budget(timeoutMs)) == WaitOnCode(l, code, timeoutMs)
  {
    WaitLoopSpec(l, code, 0, Budget(timeoutMs));
  }

  /** On an exhausted link every read fails and the loop tests `value`. */
  lemma {:induction false} WaitLoopExhausted(l: Link, code: byte, value: byte, attempts: nat)
    requires Remaining(l) == []
    ensures WaitLoop(l, code, value, attempts) == Done(value == code, l)
    decreases attempts
  {
    if attempts > 0 {
      WaitLoopExhausted(l, code, value, attempts - 1);
    }
  }

  /** A wait succeeds as soon as the code arrives within the budget, having
      skipped the bytes before it. */
  lemma WaitFinds(l: Link, code: byte, timeoutMs: int, noise: seq<byte>, rest: seq<byte>)
    requires Remaining(l) == noise + [code] + rest
    requires code !in noise && |noise| < Budget(timeoutMs)
    ensures WaitOnCode(l, code, timeoutMs) == Done(true, l.(pos := l.pos + |noise| + 1))
  {
    var all := Remaining(l);
    FirstIndexSpec(all, code);
    assert all[|noise|] == code;
    assert forall j :: 0 <= j < |noise| ==> all[j] == noise[j];
  }

  /** A wait whose code is the very next byte takes just that byte. */
  lemma WaitNext(l: Link, code: byte, timeoutMs: int, rest: seq<byte>)
    requires Remaining(l) == [code] + rest
    ensures WaitOnCode(l, code, timeoutMs) == Done(true, l.(pos := l.pos + 1))
    ensures Remaining(l.(pos := l.pos + 1)) == rest
  {
    WaitFinds(l, code, timeoutMs, [], rest);
    ReceiveFront(l, [code], rest);
  }

  /** A wait for a non-zero code that does not arrive fails and leaves
      behind bytes among which the code still does not occur. */
  lemma WaitMisses(l: Link, code: byte, timeoutMs: int)
    requires code != 0 && code !in Remaining(l)
    ensures !WaitOnCode(l, code, timeoutMs).ok
    ensures Advances(l, WaitOnCode(l, code, timeoutMs).link)
    ensures WaitOnCode(l, code, timeoutMs).link.output == l.output
    ensures code !in Remaining(WaitOnCode(l, code, timeoutMs).link)
  {
    FirstIndexSpec(Remaining(l), code);
    var r := WaitOnCode(l, code, timeoutMs);
    assert Remaining(r.link) == Remaining(l)[r.link.pos - l.pos..];
  }

  /** On a link with nothing left to read a wait reads nothing, and
      succeeds exactly when the code is 0: the byte compared is never
      overwritten. */
  lemma WaitOnSilence(l: Link, code: byte, timeoutMs: int)
    requires Remaining(l) == []
    ensures WaitOnCode(l, code, timeoutMs) == Done(code == 0, l)
  {
    assert FirstIndex(Remaining(l), code) == 0;
  }

  /** A wait only reads: it moves the cursor forward and nothing else. */
  lemma WaitAdvances(l: Link, code: byte, timeoutMs: int)
    ensures Advances(l, WaitOnCode(l, code, timeoutMs).link)
    ensures WaitOnCode(l, code, timeoutMs).link == l.(pos := WaitOnCode(l, code, timeoutMs).link.pos)
  {
  }

  // ---------------------------------------------------------------------
  // Writing bytes one call at a time, and commands
  // ---------------------------------------------------------------------

  /** Write `bytes` one per call, stopping at the first call that fails. */
  function WriteEach(l: Link, bytes: seq<byte>): Done
    decreases |bytes|
  {
    if bytes == [] then Done(true, l)
    else
      var w := Transmit(l, [bytes[0]]);
      if !w.ok then w else WriteEach(w.link, bytes[1..])
  }

  /** Among the `n` write calls numbered from `first`, how many come before
      the first one that fails (`n` if none fails). */
  function FailingCall(first: nat, failing: set<nat>, n: nat): (j: nat)
    ensures j <= n
    ensures j < n ==> first + j in failing
    decreases n
  {
    if n == 0 || first in failing then 0 else 1 + FailingCall(first + 1, failing, n - 1)
  }

  /** No write fails from this one on. */
  predicate WritesSucceed(l: Link)
  {
    forall c :: c in l.failingWrites ==> c < l.writeCalls
  }

  /** The calls before the failing one all succeed; and when no call fails
      from `first` on, none of the `n` calls fails. */
  lemma {:induction false} FailingCallSpec(first: nat, failing: set<nat>, n: nat)
    ensures forall c :: first <= c < first + FailingCall(first, failing, n) ==> c !in failing
    ensures (forall c :: c in failing ==> c < first) ==> FailingCall(first, failing, n) == n
    decreases n
  {
    if n > 0 && first !in failing {
      FailingCallSpec(first + 1, failing, n - 1);
    }
  }

  /** Writing byte by byte sends exactly the bytes before the first failing
      call, makes one call per byte up to and including that one, and
      succeeds exactly when no call fails. */
  predicate WritesUntilFailure(l: Link, bytes: seq<byte>)
  {
    var j := FailingCall(l.writeCalls, l.failingWrites, |bytes|);
    var r := WriteEach(l, bytes);
    (r.ok <==> j == |bytes|)
    && r.link == l.(output := l.output + bytes[..j],
                    writeCalls := l.writeCalls + (if j == |bytes| then j else j + 1))
  }

  /** A first byte that goes out, followed by the rest written as stated. */
  lemma WriteEachStep(l: Link, bytes: seq<byte>)
    requires bytes != [] && l.writeCalls !in l.failingWrites
    requires WritesUntilFailure(Transmit(l, [bytes[0]]).link, bytes[1..])
    ensures WritesUntilFailure(l, bytes)
  {
    var w := Transmit(l, [bytes[0]]);
    var j' := FailingCall(w.link.writeCalls, l.failingWrites, |bytes| - 1);
    assert FailingCall(l.writeCalls, l.failingWrites, |bytes|) == j' + 1;
    assert WriteEach(l, bytes) == WriteEach(w.link, bytes[1..]);
    SentPrefix(l.output, bytes, j');
  }

  /** The first byte sent, then `k` more, is the first `k + 1` bytes. */
  lemma SentPrefix(output: seq<byte>, bytes: seq<byte>, k: nat)
    requires k < |bytes|
    ensures output + [bytes[0]] + bytes[1..][..k] == output + bytes[..k + 1]
  {
    assert bytes[..k + 1] == [bytes[0]] + bytes[1..][..k];
  }

  lemma {:induction false} WriteEachOutcome(l: Link, bytes: seq<byte>)
    ensures WritesUntilFailure(l, bytes)
    decreases |bytes|
  {
    if bytes != [] && l.writeCalls !in l.failingWrites {
      WriteEachOutcome(Transmit(l, [bytes[0]]).link, bytes[1..]);
      WriteEachStep(l, bytes);
    }
  }

  /** Send a command frame, one byte per call, then, when asked to, wait up
      to 500 ms for the acknowledge code. */
  function SendCommand(l: Link, command: byte, wait: bool): Done
  {
    var w := WriteEach(WithWriteTimeout(l, 42), CommandFrame(command));
    if !w.ok then w
    else if wait then WaitOnCode(w.link, CODE_ACKNOWLEDGE, 500)
    else w
  }

  /** A command writes the bytes of its frame before the first failing
      call and fails if any call fails; when all three go out it succeeds
      without waiting, or reports whether the acknowledge code arrived. */
  lemma SendCommandOutcome(l: Link, command: byte, wait: bool)
    ensures var j := FailingCall(l.writeCalls, l.failingWrites, 3);
            var r := SendCommand(l, command, wait);
            var sent := l.(writeMultiplier := 42, output := l.output + CommandFrame(command),
                           writeCalls := l.writeCalls + 3);
            (j < 3 ==> r == Done(false, l.(writeMultiplier := 42, output := l.output + CommandFrame(command)[..j],
                                           writeCalls := l.writeCalls + j + 1)))
            && (j == 3 && !wait ==> r == Done(true, sent))
            && (j == 3 && wait ==> r == WaitOnCode(sent, CODE_ACKNOWLEDGE, 500))
  {
    WriteEachOutcome(WithWriteTimeout(l, 42), CommandFrame(command));
    assert CommandFrame(command)[..3] == CommandFrame(command);
  }

  /** A command never moves the link backwards. */
  lemma SendCommandAdvances(l: Link, command: byte, wait: bool)
    ensures Advances(l, SendCommand(l, command, wait).link)
  {
    var sent := l.(writeMultiplier := 42, output := l.output + CommandFrame(command),
                   writeCalls := l.writeCalls + 3);
    SendCommandOutcome(l, command, wait);
    WaitAdvances(sent, CODE_ACKNOWLEDGE, 500);
  }

  // ---------------------------------------------------------------------
  // Resetting the console
  // ---------------------------------------------------------------------

  /** When every write goes out, a command without waiting sends its whole
      frame in three calls and succeeds. */
  lemma SendCommandDelivers(l: Link, command: byte)
    requires WritesSucceed(l)
    ensures SendCommand(l, command, false)
            == Done(true, l.(writeMultiplier := 42, output := l.output + CommandFrame(command),
                             writeCalls := l.writeCalls + 3))
  {
    FailingCallSpec(l.writeCalls, l.failingWrites, 3);
    SendCommandOutcome(l, command, false);
  }

  /** One round of the reset burst: send the reset command without waiting,
      then wait up to 500 ms for an acknowledge; both outcomes are ignored. */
  function ResetRound(l: Link): Link
  {
    WaitOnCode(SendCommand(l, COMMAND_RESET, false).link, CODE_ACKNOWLEDGE, 500).link
  }

  /** The reset burst: `rounds` rounds one after the other. */
  function ResetRounds(l: Link, rounds: nat): Link
    decreases rounds
  {
    if rounds == 0 then l else ResetRounds(ResetRound(l), rounds - 1)
  }

  /** The first of `rest + 1` rounds, then the other `rest`. */
  lemma ResetRoundsNext(l: Link, rounds: nat, rest: nat)
    requires rounds == rest + 1
    ensures ResetRounds(l, rounds) == ResetRounds(ResetRound(l), rest)
  {
  }

  /** One attempt at bringing the console to idle: succeed at once if it
      sends 'X' within 50 ms; otherwise send three reset rounds and wait
      500 ms for 'X'; if it is still missing, write an acknowledge and fail. */
  function ResetAttempt(l: Link): Done
  {
    var idle := WaitOnCode(l, CODE_IDLE, 50);
    if idle.ok then idle
    else
      var settled := WaitOnCode(ResetRounds(idle.link, 3), CODE_IDLE, 500);
      if settled.ok then settled
      else Done(false, Transmit(settled.link, [CODE_ACKNOWLEDGE]).link)
  }

  /** The corrected reset: after a failed attempt it starts over once, and
      the flag it passes to the second attempt stops it there. */
  function ResetConsole(l: Link, retry: bool): Done
    decreases if retry then 1 else 0
  {
    var attempt := ResetAttempt(l);
    if attempt.ok || !retry then attempt else ResetConsole(attempt.link, false)
  }

  /** The reset as written: the flag is ignored and a failed attempt always
      starts over. The recursion has no bound of its own; here it is cut
      off after `fuel` restarts. */
  function ResetConsoleAsWritten(l: Link, fuel: nat): Done
    decreases fuel
  {
    var attempt := ResetAttempt(l);
    if attempt.ok || fuel == 0 then attempt else ResetConsoleAsWritten(attempt.link, fuel - 1)
  }

  /** `s` repeated `n` times. */
  function Repeat(s: seq<byte>, n: nat): (r: seq<byte>)
    ensures |r| == n * |s|
  {
    if n == 0 then [] else s + Repeat(s, n - 1)
  }

  /** Appending one more copy in front of the repeats. */
  lemma RepeatAppend(p: seq<byte>, s: seq<byte>, n: nat)
    ensures p + s + Repeat(s, n) == p + Repeat(s, n + 1)
  {
  }

  /** What one unanswered reset attempt writes: three reset frames and an
      acknowledge. */
  function ResetCycle(): seq<byte>
  {
    Repeat(CommandFrame(COMMAND_RESET), 3) + [CODE_ACKNOWLEDGE]
  }

  lemma ResetRoundAdvances(l: Link)
    ensures Advances(l, ResetRound(l))
  {
    var sent := SendCommand(l, COMMAND_RESET, false).link;
    SendCommandAdvances(l, COMMAND_RESET, false);
    WaitAdvances(sent, CODE_ACKNOWLEDGE, 500);
  }

  lemma {:induction false} ResetRoundsAdvances(l: Link, rounds: nat)
    ensures Advances(l, ResetRounds(l, rounds))
    decreases rounds
  {
    if rounds > 0 {
      var next := ResetRound(l);
      var last := ResetRounds(next, rounds - 1);
      assert ResetRounds(l, rounds) == last;
      ResetRoundAdvances(l);
      ResetRoundsAdvances(next, rounds - 1);
      AdvancesTransitive(l, next, last);
    }
  }

  /** On a silent link where every write goes out, a round writes the reset
      frame in three calls and reads nothing. */
  lemma ResetRoundSilent(l: Link)
    requires Remaining(l) == [] && WritesSucceed(l)
    ensures ResetRound(l)
            == l.(writeMultiplier := 42, output := l.output + CommandFrame(COMMAND_RESET),
                  writeCalls := l.writeCalls + 3)
  {
    SendCommandDelivers(l, COMMAND_RESET);
    var sent := SendCommand(l, COMMAND_RESET, false).link;
    assert Remaining(sent) == [];
    WaitOnSilence(sent, CODE_ACKNOWLEDGE, 500);
  }

  /** On a silent link where every write goes out, the reset rounds write
      the reset frame once per round and read nothing. */
  predicate RoundsWriteFrames(l: Link, rounds: nat)
  {
    ResetRounds(l, rounds)
    == l.(writeMultiplier := if rounds == 0 then l.writeMultiplier else 42,
          output := l.output + Repeat(CommandFrame(COMMAND_RESET), rounds),
          writeCalls := l.writeCalls + 3 * rounds)
  }

  /** One silent round followed by the rest, written as stated. */
  lemma ResetRoundsSilentStep(l: Link, rounds: nat)
    requires Remaining(l) == [] && WritesSucceed(l) && rounds > 0
    requires RoundsWriteFrames(ResetRound(l), rounds - 1)
    ensures RoundsWriteFrames(l, rounds)
  {
    ResetRoundSilent(l);
    var next := ResetRound(l);
    assert ResetRounds(l, rounds) == ResetRounds(next, rounds - 1);
    FramesAfterRound(l, next, rounds, CommandFrame(COMMAND_RESET), ResetRounds(next, rounds - 1));
  }

  /** The bookkeeping of `ResetRoundsSilentStep`, for any frame `f`: a
      round that writes `f` followed by `rounds - 1` rounds that write it
      once each is `rounds` rounds that write it once each. */
  lemma FramesAfterRound(l: Link, next: Link, rounds: nat, f: seq<byte>, after: Link)
    requires rounds > 0
    requires next == l.(writeMultiplier := 42, output := l.output + f, writeCalls := l.writeCalls + 3)
    requires after == next.(writeMultiplier := if rounds - 1 == 0 then next.writeMultiplier else 42,
                            output := next.output + Repeat(f, rounds - 1),
                            writeCalls := next.writeCalls + 3 * (rounds - 1))
    ensures after == l.(writeMultiplier := 42, output := l.output + Repeat(f, rounds),
                        writeCalls := l.writeCalls + 3 * rounds)
  {
    RepeatAppend(l.output, f, rounds - 1);
  }

  lemma {:induction false} ResetRoundsSilent(l: Link, rounds: nat)
    requires Remaining(l) == [] && WritesSucceed(l)
    ensures RoundsWriteFrames(l, rounds)
    decreases rounds
  {
    if rounds > 0 {
      ResetRoundStaysSilent(l);
      ResetRoundsSilent(ResetRound(l), rounds - 1);
      ResetRoundsSilentStep(l, rounds);
    }
  }

  /** After a silent round the link is still silent and its writes still
      go out. */
  lemma ResetRoundStaysSilent(l: Link)
    requires Remaining(l) == [] && WritesSucceed(l)
    ensures Remaining(ResetRound(l)) == [] && WritesSucceed(ResetRound(l))
  {
    ResetRoundSilent(l);
  }

  /** An attempt on a console that is sending 'X' reads up to it and writes
      nothing. */
  lemma ResetAttemptIdle(l: Link, noise: seq<byte>, rest: seq<byte>)
    requires Remaining(l) == noise + [CODE_IDLE] + rest
    requires CODE_IDLE !in noise && |noise| < 50
    ensures ResetAttempt(l) == Done(true, l.(pos := l.pos + |noise| + 1))
  {
    WaitFinds(l, CODE_IDLE, 50, noise, rest);
  }

  /** An attempt never moves the link backwards. */
  lemma ResetAttemptAdvances(l: Link)
    ensures Advances(l, ResetAttempt(l).link)
  {
    WaitAdvances(l, CODE_IDLE, 50);
    var idle := WaitOnCode(l, CODE_IDLE, 50).link;
    ResetRoundsAdvances(idle, 3);
    var rounds := ResetRounds(idle, 3);
    WaitAdvances(rounds, CODE_IDLE, 500);
    AdvancesTransitive(l, idle, rounds);
    AdvancesTransitive(l, rounds, WaitOnCode(rounds, CODE_IDLE, 500).link);
  }

  /** An attempt on a console that will not send 'X' fails and leaves it
      still not sending 'X'. */
  lemma ResetAttemptSilent(l: Link)
    requires CODE_IDLE !in Remaining(l)
    ensures !ResetAttempt(l).ok
    ensures Advances(l, ResetAttempt(l).link)
    ensures CODE_IDLE !in Remaining(ResetAttempt(l).link)
  {
    WaitMisses(l, CODE_IDLE, 50);
    var idle := WaitOnCode(l, CODE_IDLE, 50).link;
    ResetRoundsAdvances(idle, 3);
    var rounds := ResetRounds(idle, 3);
    AdvancesRemaining(idle, rounds);
    WaitMisses(rounds, CODE_IDLE, 500);
    ResetAttemptAdvances(l);
    AdvancesRemaining(l, ResetAttempt(l).link);
  }

  /** An attempt against a console that sends nothing at all writes one
      unanswered cycle and fails. */
  lemma ResetAttemptOnEmpty(l: Link)
    requires Remaining(l) == [] && WritesSucceed(l)
    ensures ResetAttempt(l)
            == Done(false, l.(writeMultiplier := 42, output := l.output + ResetCycle(),
                              writeCalls := l.writeCalls + 10))
  {
    WaitOnSilence(l, CODE_IDLE, 50);
    ResetRoundsSilent(l, 3);
    var rounds := ResetRounds(l, 3);
    assert Remaining(rounds) == [];
    WaitOnSilence(rounds, CODE_IDLE, 500);
  }

  /** A console that is already sending 'X' is reset by reading up to it,
      without anything being written. */
  lemma ResetWhenIdle(l: Link, retry: bool, noise: seq<byte>, rest: seq<byte>)
    requires Remaining(l) == noise + [CODE_IDLE] + rest
    requires CODE_IDLE !in noise && |noise| < 50
    ensures ResetConsole(l, retry) == Done(true, l.(pos := l.pos + |noise| + 1))
  {
    ResetAttemptIdle(l, noise, rest);
  }

  /** A console that never sends 'X' is not reset, and the reset ends. */
  lemma ResetSilentFails(l: Link, retry: bool)
    requires CODE_IDLE !in Remaining(l)
    ensures !ResetConsole(l, retry).ok
    ensures Advances(l, ResetConsole(l, retry).link)
  {
    ResetAttemptSilent(l);
    var a := ResetAttempt(l).link;
    if retry {
      ResetAttemptSilent(a);
      AdvancesTransitive(l, a, ResetAttempt(a).link);
    }
  }

  /** Against a console that sends nothing, the reset writes one unanswered
      cycle per attempt: two when it may start over, one when it may not. */
  lemma ResetSilentOutput(l: Link, retry: bool)
    requires Remaining(l) == [] && WritesSucceed(l)
    ensures ResetConsole(l, retry).link.output
            == if retry then l.output + ResetCycle() + ResetCycle() else l.output + ResetCycle()
  {
    ResetAttemptOnEmpty(l);
    var a := ResetAttempt(l);
    if retry {
      assert Remaining(a.link) == [] && WritesSucceed(a.link);
      ResetAttemptOnEmpty(a.link);
      var b := ResetAttempt(a.link);
      assert b.link.output == a.link.output + ResetCycle() == l.output + ResetCycle() + ResetCycle();
      assert ResetConsole(l, retry) == ResetConsole(a.link, false) == b;
    } else {
      assert ResetConsole(l, retry) == a;
    }
  }

  /** The as-written reset with `fuel` restarts left ends in failure, having
      written one unanswered cycle for each of its `fuel + 1` attempts. */
  predicate ExhaustsFuel(l: Link, fuel: nat)
  {
    var r := ResetConsoleAsWritten(l, fuel);
    !r.ok && r.link.output == l.output + Repeat(ResetCycle(), fuel + 1)
  }

  /** A failed attempt on a silent link hands the rest of the as-written
      recursion a link that is still silent, one cycle further on. */
  lemma ResetAsWrittenUnfold(l: Link, fuel: nat) returns (a: Link)
    requires Remaining(l) == [] && WritesSucceed(l) && fuel > 0
    ensures ResetConsoleAsWritten(l, fuel) == ResetConsoleAsWritten(a, fuel - 1)
    ensures Remaining(a) == [] && WritesSucceed(a) && a.output == l.output + ResetCycle()
  {
    ResetAttemptOnEmpty(l);
    a := ResetAttempt(l).link;
  }

  /** One level of the as-written recursion on a silent link, given what
      the levels below it do. */
  lemma ResetAsWrittenStep(l: Link, fuel: nat)
    requires Remaining(l) == [] && WritesSucceed(l) && fuel > 0
    requires forall m: Link, f: nat :: f < fuel && Remaining(m) == [] && WritesSucceed(m) ==> ExhaustsFuel(m, f)
    ensures ExhaustsFuel(l, fuel)
  {
    var a := ResetAsWrittenUnfold(l, fuel);
    assert ExhaustsFuel(a, fuel - 1);
    RepeatAppend(l.output, ResetCycle(), fuel);
  }

  /** The reset as written never gives up against a console that sends
      nothing: whatever bound is put on its recursion, it uses it all,
      writing one more unanswered cycle at every level. */
  lemma {:induction false} ResetAsWrittenExhaustsFuel(l: Link, fuel: nat)
    requires Remaining(l) == [] && WritesSucceed(l)
    ensures ExhaustsFuel(l, fuel)
    decreases fuel
  {
    if fuel == 0 {
      ResetAttemptOnEmpty(l);
      RepeatAppend(l.output, ResetCycle(), 0);
    } else {
      forall m: Link, f: nat | f < fuel && Remaining(m) == [] && WritesSucceed(m)
        ensures ExhaustsFuel(m, f)
      {
        ResetAsWrittenExhaustsFuel(m, f);
      }
      ResetAsWrittenStep(l, fuel);
    }
  }

  /** Where the reset as written and the corrected reset part ways: a
      console that reaches idle only during the third attempt. The code as
      written gets there on its second restart; the corrected reset has
      given up after its one restart. */
  lemma ResetAsWrittenOutlastsCorrected(l: Link)
    requires !ResetAttempt(l).ok && !ResetAttempt(ResetAttempt(l).link).ok
    requires ResetAttempt(ResetAttempt(ResetAttempt(l).link).link).ok
    ensures ResetConsoleAsWritten(l, 2).ok && !ResetConsole(l, true).ok
  {
    var first := ResetAttempt(l).link;
    var second := ResetAttempt(first).link;
    assert ResetConsoleAsWritten(l, 2) == ResetConsoleAsWritten(first, 1);
    assert ResetConsoleAsWritten(first, 1) == ResetConsoleAsWritten(second, 0);
    assert ResetConsole(l, true) == ResetConsole(first, false);
  }

  // ---------------------------------------------------------------------
  // Fetching the controls state
  // ---------------------------------------------------------------------

  /** The two commands that make the console send its controls state. */
  const COMMAND_QUERY_FIRST: byte := 0x36
  const COMMAND_QUERY_SECOND: byte := 0x23

  /** The outcome of a fetch: success, the caller's controls record as the
      fetch leaves it, and the new link. */
  datatype Fetched = Fetched(ok: bool, controls: ControlsState, link: Link)

  /** The reading half of a fetch attempt, once the sync byte has been
      seen: set the read timeout, read the seed byte and the 21-byte
      payload, decode the payload into the caller's record, then read the
      check byte and test it. The record is replaced as soon as the payload
      has arrived, before the check byte is read or checked. */
  function ReadControlsFrame(l: Link, controls: ControlsState): Fetched
  {
    var seed := Receive(WithReadTimeout(l, 42, 440), 1);
    if !seed.ok then Fetched(false, controls, seed.link)
    else
      var raw := Receive(seed.link, 21);
      if !raw.ok then Fetched(false, controls, raw.link)
      else
        var decoded := DecodeControls(raw.data);
        var check := Receive(raw.link, 1);
        if !check.ok then Fetched(false, decoded, check.link)
        else Fetched(FetchAccepts(seed.data[0], raw.data, check.data[0]), decoded, check.link)
  }

  /** One fetch attempt: wait up to 440 ms for the sync byte, then read the
      frame. */
  function TryGetControlsState(l: Link, controls: ControlsState): Fetched
  {
    var sync := WaitOnCode(l, SYNC, 440);
    if !sync.ok then Fetched(false, controls, sync.link) else ReadControlsFrame(sync.link, controls)
  }

  /** A complete frame is read in full: the record is the decoded payload
      and success is the check byte test. */
  lemma ReadFrameComplete(l: Link, controls: ControlsState, seed: byte, raw: seq<byte>,
                          check: byte, rest: seq<byte>)
    requires Remaining(l) == [seed] + raw + [check] + rest && |raw| == 21
    ensures ReadControlsFrame(l, controls)
            == Fetched(FetchAccepts(seed, raw, check), DecodeControls(raw),
                       l.(pos := l.pos + 23, readMultiplier := 42, readTimeoutMs := 440))
    ensures Remaining(ReadControlsFrame(l, controls).link) == rest
  {
    var timed := WithReadTimeout(l, 42, 440);
    assert Remaining(timed) == [seed] + (raw + [check] + rest);
    ReceiveFront(timed, [seed], raw + [check] + rest);
    var afterSeed := timed.(pos := timed.pos + 1);
    assert Remaining(afterSeed) == raw + ([check] + rest);
    ReceiveFront(afterSeed, raw, [check] + rest);
    var afterRaw := afterSeed.(pos := afterSeed.pos + 21);
    ReceiveFront(afterRaw, [check], rest);
    var done := afterRaw.(pos := afterRaw.pos + 1);
    assert ReadControlsFrame(l, controls)
           == Fetched(FetchAccepts(seed, raw, check), DecodeControls(raw), done);
  }

  /** A frame cut off before its payload is complete fails, consumes what
      arrived and leaves the record alone. */
  lemma ReadFrameTruncated(l: Link, controls: ControlsState)
    requires |Remaining(l)| < 22
    ensures !ReadControlsFrame(l, controls).ok
    ensures ReadControlsFrame(l, controls).controls == controls
    ensures Remaining(ReadControlsFrame(l, controls).link) == []
  {
  }

  /** A frame whose check byte never arrives fails, but the record already
      holds the decoded payload. */
  lemma ReadFrameMissingCheck(l: Link, controls: ControlsState, seed: byte, raw: seq<byte>)
    requires Remaining(l) == [seed] + raw && |raw| == 21
    ensures !ReadControlsFrame(l, controls).ok
    ensures ReadControlsFrame(l, controls).controls == DecodeControls(raw)
  {
    var timed := WithReadTimeout(l, 42, 440);
    ReceiveFront(timed, [seed], raw);
    var afterSeed := timed.(pos := timed.pos + 1);
    ReceiveFront(afterSeed, raw, []);
  }

  /** A complete frame after at most 439 other bytes is read in full. */
  lemma TryGetFrame(l: Link, controls: ControlsState, noise: seq<byte>, seed: byte,
                    raw: seq<byte>, check: byte, rest: seq<byte>)
    requires Remaining(l) == noise + [SYNC] + ([seed] + raw + [check] + rest)
    requires SYNC !in noise && |noise| < 440 && |raw| == 21
    ensures TryGetControlsState(l, controls)
            == Fetched(FetchAccepts(seed, raw, check), DecodeControls(raw),
                       l.(pos := l.pos + |noise| + 24, readMultiplier := 42, readTimeoutMs := 440))
    ensures Remaining(TryGetControlsState(l, controls).link) == rest
  {
    WaitFinds(l, SYNC, 440, noise, [seed] + raw + [check] + rest);
    var synced := l.(pos := l.pos + |noise| + 1);
    ReceiveFront(l, noise + [SYNC], [seed] + raw + [check] + rest);
    ReadFrameComplete(synced, controls, seed, raw, check, rest);
  }

  /** A fetch attempt only reads: nothing is written, and the link moves
      forward. */
  lemma TryGetReadsOnly(l: Link, controls: ControlsState)
    ensures Advances(l, TryGetControlsState(l, controls).link)
    ensures TryGetControlsState(l, controls).link.output == l.output
    ensures TryGetControlsState(l, controls).link.writeCalls == l.writeCalls
  {
    WaitAdvances(l, SYNC, 440);
  }

  /** Without a sync byte the attempt fails and leaves the record alone. */
  lemma TryGetNoSync(l: Link, controls: ControlsState)
    requires SYNC !in Remaining(l)
    ensures !TryGetControlsState(l, controls).ok
    ensures TryGetControlsState(l, controls).controls == controls
  {
    WaitMisses(l, SYNC, 440);
  }

  /** Up to `attempts` fetch attempts: a failed attempt ends the fetch; after
      a good one the acknowledge is written, and the fetch succeeds if that
      write goes out and otherwise tries again. */
  function FetchAttempts(l: Link, controls: ControlsState, attempts: nat): Fetched
    decreases attempts
  {
    if attempts == 0 then Fetched(false, controls, l)
    else
      var t := TryGetControlsState(l, controls);
      if !t.ok then t
      else
        var ack := Transmit(t.link, [CODE_ACKNOWLEDGE]);
        if ack.ok then Fetched(true, t.controls, ack.link)
        else FetchAttempts(ack.link, t.controls, attempts - 1)
  }

  /** A good attempt `t` whose acknowledge is not written leaves the fetch
      to the `rest` attempts after it. */
  lemma FetchAttemptsRetry(l: Link, controls: ControlsState, attempts: nat, rest: nat, t: Fetched)
    requires attempts == rest + 1 && t == TryGetControlsState(l, controls)
    requires t.ok && !Transmit(t.link, [CODE_ACKNOWLEDGE]).ok
    ensures FetchAttempts(l, controls, attempts)
            == FetchAttempts(Transmit(t.link, [CODE_ACKNOWLEDGE]).link, t.controls, rest)
  {
    var ack := Transmit(t.link, [CODE_ACKNOWLEDGE]);
    var next := FetchAttempts(ack.link, t.controls, rest);
    assert FetchAttempts(l, controls, rest + 1) == next;
  }

  /** Ask the console for its controls state and fetch it in up to three
      attempts. */
  function GetControlsState(l: Link, controls: ControlsState): Fetched
  {
    var first := SendCommand(l, COMMAND_QUERY_FIRST, true);
    if !first.ok then Fetched(false, controls, first.link)
    else
      var second := SendCommand(first.link, COMMAND_QUERY_SECOND, true);
      if !second.ok then Fetched(false, controls, second.link)
      else FetchAttempts(second.link, controls, 3)
  }

  /** A fetch writes nothing but the one acknowledge of its success, makes
      at most one write call per attempt and never moves the link back. */
  predicate FetchWritesAck(l: Link, controls: ControlsState, attempts: nat)
  {
    var r := FetchAttempts(l, controls, attempts);
    Advances(l, r.link)
    && r.link.output == (if r.ok then l.output + [CODE_ACKNOWLEDGE] else l.output)
    && r.link.writeCalls <= l.writeCalls + attempts
  }

  /** One level of the fetch attempts, given what the levels below do. */
  lemma FetchAttemptsStep(l: Link, controls: ControlsState, attempts: nat)
    requires attempts > 0
    requires forall m: Link, c: ControlsState, n: nat :: n < attempts ==> FetchWritesAck(m, c, n)
    ensures FetchWritesAck(l, controls, attempts)
  {
    TryGetReadsOnly(l, controls);
    var t := TryGetControlsState(l, controls);
    var ack := Transmit(t.link, [CODE_ACKNOWLEDGE]);
    if t.ok && !ack.ok {
      var r := FetchAttempts(ack.link, t.controls, attempts - 1);
      assert FetchWritesAck(ack.link, t.controls, attempts - 1);
      AdvancesTransitive(l, t.link, ack.link);
      AdvancesTransitive(l, ack.link, r.link);
    }
  }

  lemma {:induction false} FetchAttemptsWrites(l: Link, controls: ControlsState, attempts: nat)
    ensures FetchWritesAck(l, controls, attempts)
    decreases attempts
  {
    if attempts > 0 {
      forall m: Link, c: ControlsState, n: nat | n < attempts
        ensures FetchWritesAck(m, c, n)
      {
        FetchAttemptsWrites(m, c, n);
      }
      FetchAttemptsStep(l, controls, attempts);
    }
  }

  /** Fetching the controls state only moves the link forward. */
  lemma GetControlsAdvances(l: Link, controls: ControlsState)
    ensures Advances(l, GetControlsState(l, controls).link)
  {
    SendCommandAdvances(l, COMMAND_QUERY_FIRST, true);
    var first := SendCommand(l, COMMAND_QUERY_FIRST, true).link;
    SendCommandAdvances(first, COMMAND_QUERY_SECOND, true);
    FetchAttemptsWrites(SendCommand(first, COMMAND_QUERY_SECOND, true).link, controls, 3);
  }

  /** A failed attempt ends the fetch at once; a good one ends it with
      success when the acknowledge goes out. */
  lemma FetchFirstAttempt(l: Link, controls: ControlsState, attempts: nat)
    requires attempts > 0
    ensures var t := TryGetControlsState(l, controls);
            var r := FetchAttempts(l, controls, attempts);
            (!t.ok ==> r == t)
            && (t.ok && t.link.writeCalls !in t.link.failingWrites
                ==> r == Fetched(true, t.controls, t.link.(output := t.link.output + [CODE_ACKNOWLEDGE],
                                                           writeCalls := t.link.writeCalls + 1)))
  {
  }

  /** A command on a link where every write goes out and the acknowledge
      is the next byte waiting. */
  lemma SendCommandAcked(l: Link, command: byte, rest: seq<byte>)
    requires Remaining(l) == [CODE_ACKNOWLEDGE] + rest && WritesSucceed(l)
    ensures SendCommand(l, command, true)
            == Done(true, l.(pos := l.pos + 1, writeMultiplier := 42,
                             output := l.output + CommandFrame(command), writeCalls := l.writeCalls + 3))
    ensures Remaining(SendCommand(l, command, true).link) == rest
  {
    FailingCallSpec(l.writeCalls, l.failingWrites, 3);
    assert FailingCall(l.writeCalls, l.failingWrites, 3) == 3;
    SendCommandOutcome(l, command, true);
    var sent := l.(writeMultiplier := 42, output := l.output + CommandFrame(command),
                   writeCalls := l.writeCalls + 3);
    assert SendCommand(l, command, true) == WaitOnCode(sent, CODE_ACKNOWLEDGE, 500);
    WaitNext(sent, CODE_ACKNOWLEDGE, 500, rest);
  }

  /** A fetch against a console that sends a complete frame at once: the
      record is the decoded payload, and the fetch succeeds, writing the
      acknowledge, exactly when the check byte is right. */
  lemma FetchFrame(l: Link, controls: ControlsState, attempts: nat, seed: byte, raw: seq<byte>,
                   check: byte, rest: seq<byte>)
    requires Remaining(l) == [SYNC] + ([seed] + raw + [check] + rest)
    requires |raw| == 21 && WritesSucceed(l) && attempts > 0
    ensures var r := FetchAttempts(l, controls, attempts);
            r.ok == FetchAccepts(seed, raw, check)
            && r.controls == DecodeControls(raw)
            && r.link.output == l.output + (if r.ok then [CODE_ACKNOWLEDGE] else [])
            && Remaining(r.link) == rest
  {
    assert Remaining(l) == [] + [SYNC] + ([seed] + raw + [check] + rest);
    TryGetFrame(l, controls, [], seed, raw, check, rest);
    FetchFirstAttempt(l, controls, attempts);
  }

  /** The whole fetch against a console that acknowledges both commands at
      once and sends a complete frame: both command frames go out, and the
      record is the decoded payload; the fetch succeeds, writing the
      acknowledge, exactly when the check byte is right. */
  lemma GetControlsFrame(l: Link, controls: ControlsState, seed: byte, raw: seq<byte>,
                         check: byte, rest: seq<byte>)
    requires Remaining(l) == [CODE_ACKNOWLEDGE] + ([CODE_ACKNOWLEDGE] + ([SYNC] + ([seed] + raw + [check] + rest)))
    requires |raw| == 21 && WritesSucceed(l)
    ensures var r := GetControlsState(l, controls);
            r.ok == FetchAccepts(seed, raw, check)
            && r.controls == DecodeControls(raw)
            && r.link.output == l.output + CommandFrame(COMMAND_QUERY_FIRST) + CommandFrame(COMMAND_QUERY_SECOND)
                                + (if r.ok then [CODE_ACKNOWLEDGE] else [])
            && Remaining(r.link) == rest
  {
    var frame := [SYNC] + ([seed] + raw + [check] + rest);
    SendCommandAcked(l, COMMAND_QUERY_FIRST, [CODE_ACKNOWLEDGE] + frame);
    var first := SendCommand(l, COMMAND_QUERY_FIRST, true).link;
    SendCommandAcked(first, COMMAND_QUERY_SECOND, frame);
    var second := SendCommand(first, COMMAND_QUERY_SECOND, true).link;
    FetchFrame(second, controls, 3, seed, raw, check, rest);
    assert GetControlsState(l, controls) == FetchAttempts(second, controls, 3);
  }

  // ---------------------------------------------------------------------
  // Retrying, and sending the console its settings
  // ---------------------------------------------------------------------

  /** The second and third bytes of the cue the console sends when it is
      ready for its settings, after the sync byte. */
  const CUE_SECOND: byte := 0x23
  const CUE_THIRD: byte := 0x5c
  /** The command that announces the settings buffer. */
  const COMMAND_SETUP: byte := 0x19

  /** The two steps the settings exchange retries. */
  datatype Attempt = AwaitCue | SendBuffer(buffer: seq<byte>)

  /** One try of a step. Awaiting the cue waits up to 440 ms for each of its
      three bytes in turn, giving up at the first that does not come.
      Sending the buffer writes the sync byte, the setup command and the
      buffer, stopping at the first failing write, then waits up to 440 ms
      for the acknowledge. */
  function Try(a: Attempt, l: Link): Done
  {
    match a
    case AwaitCue =>
      var first := WaitOnCode(l, SYNC, 440);
      if !first.ok then first
      else
        var second := WaitOnCode(first.link, CUE_SECOND, 440);
        if !second.ok then second else WaitOnCode(second.link, CUE_THIRD, 440)
    case SendBuffer(buffer) =>
      var sync := Transmit(l, [SYNC]);
      if !sync.ok then sync
      else
        var command := Transmit(sync.link, [COMMAND_SETUP]);
        if !command.ok then command
        else
          var body := Transmit(command.link, buffer);
          if !body.ok then body else WaitOnCode(body.link, CODE_ACKNOWLEDGE, 440)
  }

  /** Try a step up to `count` times, stopping at the first success. */
  function Retry(count: int, a: Attempt, l: Link): Done
    decreases if count < 0 then 0 else count
  {
    if count <= 0 then Done(false, l)
    else
      var r := Try(a, l);
      if r.ok then r else Retry(count - 1, a, r.link)
  }

  /** The outcomes of the tries a retry makes, in order. */
  function RetryTrace(count: int, a: Attempt, l: Link): seq<Done>
    decreases if count < 0 then 0 else count
  {
    if count <= 0 then []
    else
      var r := Try(a, l);
      if r.ok then [r] else [r] + RetryTrace(count - 1, a, r.link)
  }

  /** What a retry does, in terms of its tries: at most `count` of them, the
      first on the starting link and each later one on the link the one
      before left, every try but the last failed, the retry stops early
      only on a success, and its outcome is that of its last try. */
  predicate RetryFollowsTrace(count: int, a: Attempt, l: Link)
  {
    TraceExplains(count, a, l, RetryTrace(count, a, l), Retry(count, a, l))
  }

  /** The tries `t` and the outcome `r` are those of a retry of `count`
      tries starting on `l`, as `RetryFollowsTrace` describes. */
  predicate TraceExplains(count: int, a: Attempt, l: Link, t: seq<Done>, r: Done)
  {
    |t| <= (if count < 0 then 0 else count)
    && (count > 0 ==> |t| > 0 && t[0] == Try(a, l))
    && Chained(a, t)
    && (|t| < count ==> r.ok)
    && r == (if t == [] then Done(false, l) else t[|t| - 1])
  }

  /** A failed first try in front of the tries of the rest of a retry
      explains the whole retry. */
  lemma TraceExplainsCons(count: int, a: Attempt, l: Link, first: Done, rest: seq<Done>, r: Done)
    requires count > 0 && first == Try(a, l) && !first.ok
    requires TraceExplains(count - 1, a, first.link, rest, r)
    ensures TraceExplains(count, a, l, [first] + rest, r)
  {
    ChainedCons(a, first, rest);
  }

  /** Every try in `t` but the last failed, and each later one ran on the
      link the one before left. */
  predicate Chained(a: Attempt, t: seq<Done>)
  {
    forall i :: 0 <= i < |t| - 1 ==> !t[i].ok && t[i + 1] == Try(a, t[i].link)
  }

  /** A failed try in front of a chain that starts on the link it left is
      a chain. */
  lemma ChainedCons(a: Attempt, r: Done, rest: seq<Done>)
    requires !r.ok && Chained(a, rest) && (rest != [] ==> rest[0] == Try(a, r.link))
    ensures Chained(a, [r] + rest)
  {
    var t := [r] + rest;
    forall i | 0 <= i < |t| - 1
      ensures !t[i].ok && t[i + 1] == Try(a, t[i].link)
    {
      if i > 0 {
        assert t[i] == rest[i - 1] && t[i + 1] == rest[i];
      }
    }
  }

  /** One level of a retry, given what the levels below do. */
  lemma RetryStep(count: int, a: Attempt, l: Link)
    requires count > 0
    requires RetryFollowsTrace(count - 1, a, Try(a, l).link)
    ensures RetryFollowsTrace(count, a, l)
  {
    var r := Try(a, l);
    if !r.ok {
      var rest := RetryTrace(count - 1, a, r.link);
      assert RetryTrace(count, a, l) == [r] + rest;
      assert Retry(count, a, l) == Retry(count - 1, a, r.link);
      TraceExplainsCons(count, a, l, r, rest, Retry(count - 1, a, r.link));
    }
  }

  lemma {:induction false} RetryByTrace(count: int, a: Attempt, l: Link)
    ensures RetryFollowsTrace(count, a, l)
    decreases if count < 0 then 0 else count
  {
    if count > 0 {
      RetryByTrace(count - 1, a, Try(a, l).link);
      RetryStep(count, a, l);
    }
  }

  /** Some try of the trace `t` succeeded. */
  predicate SomeTrySucceeds(t: seq<Done>)
  {
    exists i :: 0 <= i < |t| && t[i].ok
  }

  /** A retry succeeds exactly when one of its tries does. */
  lemma RetrySucceedsIffSomeTry(count: int, a: Attempt, l: Link)
    ensures Retry(count, a, l).ok ==> SomeTrySucceeds(RetryTrace(count, a, l))
    ensures SomeTrySucceeds(RetryTrace(count, a, l)) ==> Retry(count, a, l).ok
  {
    RetryByTrace(count, a, l);
    ChainedOutcome(a, l, RetryTrace(count, a, l), Retry(count, a, l));
  }

  /** In a chain of tries only the last can succeed, so an outcome that is
      the last try's succeeds exactly when some try does. */
  lemma ChainedOutcome(a: Attempt, l: Link, t: seq<Done>, r: Done)
    requires Chained(a, t) && r == (if t == [] then Done(false, l) else t[|t| - 1])
    ensures r.ok <==> SomeTrySucceeds(t)
  {
    if r.ok {
      assert t[|t| - 1].ok;
    }
    if SomeTrySucceeds(t) {
      var i :| 0 <= i < |t| && t[i].ok;
      assert i == |t| - 1;
    }
  }

  /** Send the console its settings: await the cue in up to three tries,
      acknowledge it, then send the settings buffer in up to three tries. */
  function SetupConsole(l: Link, state: ConsoleState): Done
  {
    var cue := Retry(3, AwaitCue, l);
    if !cue.ok then cue
    else
      var ack := Transmit(cue.link, [CODE_ACKNOWLEDGE]);
      if !ack.ok then ack else Retry(3, SendBuffer(SetupBuffer(state)), ack.link)
  }

  /** Awaiting a cue whose first byte never comes fails without writing. */
  lemma AwaitCueSilent(l: Link)
    requires SYNC !in Remaining(l)
    ensures !Try(AwaitCue, l).ok
    ensures Advances(l, Try(AwaitCue, l).link) && Try(AwaitCue, l).link.output == l.output
    ensures SYNC !in Remaining(Try(AwaitCue, l).link)
  {
    WaitMisses(l, SYNC, 440);
  }

  /** A console that never sends the sync byte never gets its settings:
      the exchange fails and writes nothing. */
  lemma SetupWithoutCue(l: Link, state: ConsoleState)
    requires SYNC !in Remaining(l)
    ensures !SetupConsole(l, state).ok
    ensures SetupConsole(l, state).link.output == l.output
  {
    AwaitCueSilent(l);
    var l1 := Try(AwaitCue, l).link;
    AwaitCueSilent(l1);
    var l2 := Try(AwaitCue, l1).link;
    AwaitCueSilent(l2);
    assert Retry(3, AwaitCue, l) == Retry(2, AwaitCue, l1) == Retry(1, AwaitCue, l2);
  }

  /** A cue that is waiting in full is taken in one try. */
  lemma AwaitCueAtOnce(l: Link, rest: seq<byte>)
    requires Remaining(l) == [SYNC] + ([CUE_SECOND] + ([CUE_THIRD] + rest))
    ensures Try(AwaitCue, l) == Done(true, l.(pos := l.pos + 3))
    ensures Remaining(l.(pos := l.pos + 3)) == rest
  {
    WaitNext(l, SYNC, 440, [CUE_SECOND] + ([CUE_THIRD] + rest));
    var l1 := l.(pos := l.pos + 1);
    WaitNext(l1, CUE_SECOND, 440, [CUE_THIRD] + rest);
    WaitNext(l1.(pos := l1.pos + 1), CUE_THIRD, 440, rest);
  }

  /** A buffer whose writes all go out and that the console acknowledges at
      once is delivered in one try, header first. */
  lemma SendBufferAcked(l: Link, buffer: seq<byte>, rest: seq<byte>)
    requires Remaining(l) == [CODE_ACKNOWLEDGE] + rest
    requires WritesSucceed(l)
    ensures Try(SendBuffer(buffer), l)
            == Done(true, l.(pos := l.pos + 1, output := l.output + [SYNC] + [COMMAND_SETUP] + buffer,
                             writeCalls := l.writeCalls + 3))
    ensures Remaining(l.(pos := l.pos + 1)) == rest
  {
    var body := l.(output := l.output + [SYNC] + [COMMAND_SETUP] + buffer, writeCalls := l.writeCalls + 3);
    assert Transmit(Transmit(Transmit(l, [SYNC]).link, [COMMAND_SETUP]).link, buffer) == Done(true, body);
    WaitNext(body, CODE_ACKNOWLEDGE, 440, rest);
  }

  /** The settings exchange against a console that sends the cue at once
      and acknowledges the buffer, with every write going out: the
      acknowledge, the header and the 32-byte buffer are written, and the
      exchange succeeds. */
  lemma SetupConsoleFrame(l: Link, state: ConsoleState, rest: seq<byte>)
    requires Remaining(l) == [SYNC] + ([CUE_SECOND] + ([CUE_THIRD] + ([CODE_ACKNOWLEDGE] + rest)))
    requires WritesSucceed(l)
    ensures SetupConsole(l, state).ok
    ensures SetupConsole(l, state).link.output
            == l.output + [CODE_ACKNOWLEDGE] + [SYNC] + [COMMAND_SETUP] + SetupBuffer(state)
    ensures Remaining(SetupConsole(l, state).link) == rest
  {
    AwaitCueAtOnce(l, [CODE_ACKNOWLEDGE] + rest);
    var cued := l.(pos := l.pos + 3);
    assert Retry(3, AwaitCue, l) == Done(true, cued);
    var acked := cued.(output := cued.output + [CODE_ACKNOWLEDGE], writeCalls := cued.writeCalls + 1);
    assert Transmit(cued, [CODE_ACKNOWLEDGE]) == Done(true, acked);
    SendBufferAcked(acked, SetupBuffer(state), rest);
  }

  // ---------------------------------------------------------------------
  // Polling
  // ---------------------------------------------------------------------

  /** The outcome of a poll: the motion and event of an accepted frame, or
      nothing, and the new link. */
  datatype Polled = Polled(frame: Option<(Motion, EventResult)>, link: Link)

  /** Poll once: wait up to 100 ms for the sync byte, read the 8-byte frame
      one byte at a time, require its fold to be 0x7F, acknowledge it, and
      decode it. Any step that fails ends the poll with nothing. */
  function Poll(l: Link): Polled
  {
    var sync := WaitOnCode(l, SYNC, 100);
    if !sync.ok then Polled(None, sync.link)
    else
      var body := Receive(sync.link, 8);
      if !body.ok || !PollAccepts(body.data) then Polled(None, body.link)
      else
        var ack := Transmit(body.link, [CODE_ACKNOWLEDGE]);
        if !ack.ok then Polled(None, ack.link) else Polled(Some(DecodeFrame(body.data)), ack.link)
  }

  /** A poll writes the acknowledge exactly when it delivers a frame, and
      makes at most one write call. */
  lemma PollWrites(l: Link)
    ensures Advances(l, Poll(l).link)
    ensures Poll(l).link.output == if Poll(l).frame.Some? then l.output + [CODE_ACKNOWLEDGE] else l.output
    ensures Poll(l).link.writeCalls <= l.writeCalls + 1
  {
    WaitAdvances(l, SYNC, 100);
  }

  /** A complete frame after at most 99 other bytes is read in full;
      when its fold is right and the acknowledge goes out, the poll delivers
      its decoding, and otherwise nothing. */
  lemma PollFrame(l: Link, noise: seq<byte>, frame: seq<byte>, rest: seq<byte>)
    requires Remaining(l) == noise + [SYNC] + (frame + rest)
    requires SYNC !in noise && |noise| < 100 && |frame| == 8
    ensures Poll(l).frame
            == if PollAccepts(frame) && Poll(l).link.writeCalls - 1 !in l.failingWrites
               then Some(DecodeFrame(frame)) else None
    ensures Remaining(Poll(l).link) == rest
    ensures Poll(l).link.writeCalls == l.writeCalls + (if PollAccepts(frame) then 1 else 0)
  {
    WaitFinds(l, SYNC, 100, noise, frame + rest);
    var synced := l.(pos := l.pos + |noise| + 1);
    ReceiveFront(l, noise + [SYNC], frame + rest);
    ReceiveFront(synced, frame, rest);
  }

  /** A frame cut off before its eighth byte delivers nothing and writes
      nothing. */
  lemma PollTruncated(l: Link, noise: seq<byte>, partial: seq<byte>)
    requires Remaining(l) == noise + [SYNC] + partial
    requires SYNC !in noise && |noise| < 100 && |partial| < 8
    ensures Poll(l).frame == None && Poll(l).link.output == l.output
    ensures Remaining(Poll(l).link) == []
  {
    WaitFinds(l, SYNC, 100, noise, partial);
  }

  // ---------------------------------------------------------------------
  // Initialization
  // ---------------------------------------------------------------------

  /** Bring the console up: reset it, fetch its controls state into the
      caller's record, then send it its settings. A failed reset or fetch
      ends the procedure with failure; the record keeps whatever the fetch
      left in it. */
  function Initialize(l: Link, controls: ControlsState, state: ConsoleState): Fetched
  {
    var reset := ResetConsole(l, true);
    if !reset.ok then Fetched(false, controls, reset.link)
    else
      var got := GetControlsState(reset.link, controls);
      if !got.ok then got
      else
        var setup := SetupConsole(got.link, state);
        Fetched(setup.ok, got.controls, setup.link)
  }

  /** The whole start-up against a console that is idle, acknowledges both
      query commands, sends a correct controls frame and then the settings
      cue, and acknowledges its settings, with every write going out: the
      procedure succeeds, the record is the decoded payload, and the
      console receives exactly the two query frames, the acknowledge of
      the fetch, the acknowledge of the cue, the setup header and the
      settings buffer. */
  lemma InitializeSession(l: Link, controls: ControlsState, state: ConsoleState,
                          seed: byte, raw: seq<byte>, check: byte, rest: seq<byte>)
    requires |raw| == 21 && FetchAccepts(seed, raw, check) && WritesSucceed(l)
    requires Remaining(l)
             == [CODE_IDLE] + ([CODE_ACKNOWLEDGE] + ([CODE_ACKNOWLEDGE] + ([SYNC] + ([seed] + raw + [check]
                + ([SYNC] + ([CUE_SECOND] + ([CUE_THIRD] + ([CODE_ACKNOWLEDGE] + rest))))))))
    ensures var r := Initialize(l, controls, state);
            r.ok && r.controls == DecodeControls(raw)
            && r.link.output == l.output + CommandFrame(COMMAND_QUERY_FIRST) + CommandFrame(COMMAND_QUERY_SECOND)
                                + [CODE_ACKNOWLEDGE] + [CODE_ACKNOWLEDGE] + [SYNC] + [COMMAND_SETUP] + SetupBuffer(state)
            && Remaining(r.link) == rest
  {
    var cue := [SYNC] + ([CUE_SECOND] + ([CUE_THIRD] + ([CODE_ACKNOWLEDGE] + rest)));
    var afterIdle := [CODE_ACKNOWLEDGE] + ([CODE_ACKNOWLEDGE] + ([SYNC] + ([seed] + raw + [check] + cue)));
    WaitNext(l, CODE_IDLE, 50, afterIdle);
    ResetWhenIdle(l, true, [], afterIdle);
    var reset := l.(pos := l.pos + 1);
    GetControlsFrame(reset, controls, seed, raw, check, cue);
    var got := GetControlsState(reset, controls);
    GetControlsAdvances(reset, controls);
    assert got.link.output == l.output + CommandFrame(COMMAND_QUERY_FIRST) + CommandFrame(COMMAND_QUERY_SECOND)
                              + [CODE_ACKNOWLEDGE];
    SetupConsoleFrame(got.link, state, rest);
  }
}
