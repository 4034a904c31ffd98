/** The serial port the engine talks through (`SerialProvider`), as an
    in-memory link: the bytes the console will send, a cursor into them, the
    log of bytes the engine has written, and the timeout settings. A pure
    value `Link` describes one state of the link and the functions below its
    operations; the class `Transport` holds such a state and changes it in
    place, each method proved against the matching function. */
module Serial {
  import opened Bytes

  /** A state of the link. `input` is everything the console sends during a
      session and `pos` how much of it has been read. Writes are numbered by
      `writeCalls`; a write whose number is in `failingWrites` fails and
      transmits nothing. The last three fields record the timeout settings. */
  datatype LinkState = LinkState(
    input: seq<byte>, pos: nat,
    output: seq<byte>, writeCalls: nat, failingWrites: set<nat>,
    readMultiplier: nat, readTimeoutMs: nat, writeMultiplier: nat)

  /** A link whose cursor lies within its input. */
  type Link = l: LinkState | l.pos <= |l.input|
    witness LinkState([], 0, [], 0, {}, 0, 0, 0)

  /** The bytes the console has sent that have not been read yet. */
  function Remaining(l: Link): seq<byte>
  {
    l.input[l.pos..]
  }

  /** The outcome of a read: success, the bytes obtained and the new link. */
  datatype Got = Got(ok: bool, data: seq<byte>, link: Link)

  /** The outcome of an operation that only succeeds or fails. */
  datatype Done = Done(ok: bool, link: Link)

  /** Reading `n` bytes succeeds when at least `n` bytes are waiting. A read
      that times out takes whatever was there and reports failure. */
  function Receive(l: Link, n: nat): (g: Got)
    ensures g.ok <==> n <= |Remaining(l)|
    ensures g.ok ==> |g.data| == n && Remaining(l) == g.data + Remaining(g.link)
    ensures !g.ok ==> g.data == Remaining(l) && Remaining(g.link) == []
    ensures g.link == l.(pos := g.link.pos)
  {
    if l.pos + n <= |l.input| then Got(true, l.input[l.pos..l.pos + n], l.(pos := l.pos + n))
    else Got(false, l.input[l.pos..], l.(pos := |l.input|))
  }

  /** Reading exactly the bytes `a` that are waiting in front of `b`. */
  lemma ReceiveFront(l: Link, a: seq<byte>, b: seq<byte>)
    requires Remaining(l) == a + b
    ensures Receive(l, |a|) == Got(true, a, l.(pos := l.pos + |a|))
    ensures Remaining(l.(pos := l.pos + |a|)) == b
  {
    assert l.input[l.pos..l.pos + |a|] == Remaining(l)[..|a|];
  }

  /** Writing is one numbered call; if the call fails nothing is sent. */
  function Transmit(l: Link, bytes: seq<byte>): (d: Done)
    ensures d.ok <==> l.writeCalls !in l.failingWrites
    ensures d.link.output == if d.ok then l.output + bytes else l.output
    ensures d.link == l.(output := d.link.output, writeCalls := l.writeCalls + 1)
  {
    var ok := l.writeCalls !in l.failingWrites;
    Done(ok, l.(output := if ok then l.output + bytes else l.output, writeCalls := l.writeCalls + 1))
  }

  function WithReadTimeout(l: Link, multiplier: nat, timeoutMs: nat): Link
  {
    l.(readMultiplier := multiplier, readTimeoutMs := timeoutMs)
  }

  function WithWriteTimeout(l: Link, multiplier: nat): Link
  {
    l.(writeMultiplier := multiplier)
  }

  /** `later` is a state the link can reach from `earlier`: the same input
      and write failures, the cursor no further back, the log extended and
      the write count no lower. */
  predicate Advances(earlier: Link, later: Link)
  {
    later.input == earlier.input && later.failingWrites == earlier.failingWrites
    && earlier.pos <= later.pos && earlier.writeCalls <= later.writeCalls
    && earlier.output <= later.output
  }

  /** Reading leaves behind a suffix of what was waiting. */
  lemma AdvancesRemaining(a: Link, b: Link)
    requires Advances(a, b)
    ensures Remaining(b) == Remaining(a)[b.pos - a.pos..]
  {
  }

  lemma AdvancesTransitive(a: Link, b: Link, c: Link)
    requires Advances(a, b) && Advances(b, c)
    ensures Advances(a, c)
  {
  }

  /** The serial port as a mutable object. */
  class Transport {
    const input: seq<byte>
    const failingWrites: set<nat>
    var pos: nat
    var output: seq<byte>
    var writeCalls: nat
    var readMultiplier: nat
    var readTimeoutMs: nat
    var writeMultiplier: nat

    ghost predicate Valid()
      reads this
    {
      pos <= |input|
    }

    /** The state of the port as a link value. */
    function State(): Link
      reads this
      requires Valid()
    {
      LinkState(input, pos, output, writeCalls, failingWrites, readMultiplier, readTimeoutMs, writeMultiplier)
    }

    /** A port over which the console will send `input`, with nothing read
      or written yet. */
    constructor (input: seq<byte>, failingWrites: set<nat>)
      ensures Valid()
      ensures State() == LinkState(input, 0, [], 0, failingWrites, 0, 0, 0)
    {
      this.input := input;
      this.failingWrites := failingWrites;
      pos, output, writeCalls := 0, [], 0;
      readMultiplier, readTimeoutMs, writeMultiplier := 0, 0, 0;
    }

    method Read(n: nat) returns (ok: bool, data: seq<byte>)
      requires Valid()
      modifies this
      ensures Valid()
      ensures Got(ok, data, State()) == Receive(old(State()), n)
    {
      if pos + n <= |input| {
        ok, data := true, input[pos..pos + n];
        pos := pos + n;
      } else {
        ok, data := false, input[pos..];
        pos := |input|;
      }
    }

    method Write(bytes: seq<byte>) returns (ok: bool)
      requires Valid()
      modifies this
      ensures Valid()
      ensures Done(ok, State()) == Transmit(old(State()), bytes)
    {
      ok := writeCalls !in failingWrites;
      if ok {
        output := output + bytes;
      }
      writeCalls := writeCalls + 1;
    }

    method SetReadTimeout(multiplier: nat, timeoutMs: nat)
      requires Valid()
      modifies this
      ensures Valid()
      ensures State() == WithReadTimeout(old(State()), multiplier, timeoutMs)
    {
      readMultiplier, readTimeoutMs := multiplier, timeoutMs;
    }

    method SetWriteTimeout(multiplier: nat)
      requires Valid()
      modifies this
      ensures Valid()
      ensures State() == WithWriteTimeout(old(State()), multiplier)
    {
      writeMultiplier := multiplier;
    }
  }
}
