/** The byte streams of the bridge: newline framing of a connection's input, and the relay between stdio and socket. */
module BridgeFrames {
  import opened Common

  const NEWLINE := '\n'
  const BRIDGE_BYTES: nat := 8 * 1024 * 1024
  const CHUNK := 16384
  const ITERATIONS := 32

  function NewlineFrom(s: string, i: nat): (k: nat)
    requires i <= |s|
    ensures i <= k <= |s|
    ensures k < |s| ==> s[k] == NEWLINE
    ensures forall j :: i <= j < k ==> s[j] != NEWLINE
    decreases |s| - i
  {
    if i == |s| || s[i] == NEWLINE then i else NewlineFrom(s, i + 1)
  }

  /** Position of the first newline, or the length. */
  function FirstNewline(s: string): (k: nat)
    ensures k <= |s|
    ensures k < |s| ==> s[k] == NEWLINE
    ensures forall j :: 0 <= j < k ==> s[j] != NEWLINE
  {
    NewlineFrom(s, 0)
  }

  predicate Framed(s: string) {
    s == [] || s[|s| - 1] == NEWLINE
  }

  predicate Unbroken(s: string) {
    forall j :: 0 <= j < |s| ==> s[j] != NEWLINE
  }

  /** The non-empty lines a stream has completed. */
  function Lines(s: string): seq<string> {
    var k := FirstNewline(s);
    if k == |s| then []
    else (if k > 0 then [s[..k]] else []) + Lines(s[k + 1..])
  }

  /** What follows the last newline. */
  function Rest(s: string): string {
    var k := FirstNewline(s);
    if k == |s| then s else Rest(s[k + 1..])
  }

  lemma FirstNewlineIs(s: string, k: nat)
    requires k < |s| && s[k] == NEWLINE && forall j :: 0 <= j < k ==> s[j] != NEWLINE
    ensures FirstNewline(s) == k
  {
  }

  lemma UnbrokenLines(s: string)
    requires Unbroken(s)
    ensures Lines(s) == [] && Rest(s) == s
  {
  }

  lemma LinesStep(s: string, k: nat)
    requires k == FirstNewline(s) && k < |s|
    ensures Lines(s) == (if k > 0 then [s[..k]] else []) + Lines(s[k + 1..]) && Rest(s) == Rest(s[k + 1..])
  {
  }

  /** Splitting a stream at a line boundary splits its lines. */
  lemma {:induction false} LinesAppend(a: string, b: string)
    requires Framed(a)
    ensures Lines(a + b) == Lines(a) + Lines(b) && Rest(a + b) == Rest(b)
  {
    hide Lines, Rest, FirstNewline;
    if a == [] {
      assert a + b == b;
      UnbrokenLines(a);
      assert [] + Lines(b) == Lines(b);
    } else {
      var k := FirstNewline(a);
      assert a[|a| - 1] == NEWLINE;
      assert k < |a|;
      assert FirstNewline(a + b) == k by { FirstNewlineIs(a + b, k); }
      var tail := a[k + 1..];
      assert (a + b)[k + 1..] == tail + b && (a + b)[..k] == a[..k];
      LinesStep(a, k);
      LinesStep(a + b, k);
      LinesAppend(tail, b);
      var head := if k > 0 then [a[..k]] else [];
      assert head + (Lines(tail) + Lines(b)) == (head + Lines(tail)) + Lines(b);
    }
  }

  lemma FramedAppend(a: string, b: string)
    requires Framed(a) && Framed(b)
    ensures Framed(a + b)
  {
  }

  lemma LineFramed(s: string, k: nat)
    requires k < |s| && s[k] == NEWLINE
    ensures Framed(s[..k + 1])
  {
  }

  lemma NoNewline(s: string)
    requires FirstNewline(s) == |s|
    ensures Unbroken(s) && Framed(s[..0])
  {
  }

  /** A line is handed over as it is, and an empty one is not handed over. */
  lemma OneLine(line: string)
    requires Unbroken(line)
    ensures Lines(line + [NEWLINE]) == (if line == [] then [] else [line]) && Rest(line + [NEWLINE]) == []
  {
    hide Lines, Rest, FirstNewline;
    var s := line + [NEWLINE];
    FirstNewlineIs(s, |line|);
    LinesStep(s, |line|);
    UnbrokenLines([]);
    assert s[..|line|] == line && s[|line| + 1..] == [];
  }

  /** What is left after the last line boundary is unbroken, and the stream is its framed part and that rest. */
  lemma {:induction false} RestSplits(s: string)
    ensures Unbroken(Rest(s)) && |Rest(s)| <= |s|
    ensures Framed(s[..|s| - |Rest(s)|]) && s == s[..|s| - |Rest(s)|] + Rest(s)
  {
    hide Lines, Rest, FirstNewline, Framed, Unbroken;
    var k := FirstNewline(s);
    if k < |s| {
      LinesStep(s, k);
      var t := s[k + 1..];
      RestSplits(t);
      var m := |t| - |Rest(t)|;
      assert s[..k + 1 + m] == s[..k + 1] + t[..m];
      assert s == s[..k + 1] + (t[..m] + Rest(t));
      LineFramed(s, k);
      FramedAppend(s[..k + 1], t[..m]);
    } else {
      NoNewline(s);
      UnbrokenLines(s);
    }
  }

  /**
   * Chunk independence: two readers that have received the same bytes and have handed over every complete line hold
   * the same remainder and have handed over the same lines, wherever their reads fell.
   */
  lemma ChunkIndependent(received: string, consumed1: string, input1: string, consumed2: string, input2: string)
    requires received == consumed1 + input1 == consumed2 + input2
    requires Framed(consumed1) && Unbroken(input1) && Framed(consumed2) && Unbroken(input2)
    ensures Lines(consumed1) == Lines(consumed2) == Lines(received) && input1 == input2 == Rest(received)
  {
    hide Lines, Rest, Framed;
    UnbrokenLines(input1);
    UnbrokenLines(input2);
    LinesAppend(consumed1, input1);
    LinesAppend(consumed2, input2);
    assert Lines(consumed1) + [] == Lines(consumed1) && Lines(consumed2) + [] == Lines(consumed2);
  }

  /** Whatever part of the stream has been consumed, the lines handed over are a prefix of all its lines. */
  lemma DeliveredIsPrefix(consumed: string, input: string)
    requires Framed(consumed)
    ensures Lines(consumed) <= Lines(consumed + input) && Rest(consumed + input) == Rest(input)
  {
    LinesAppend(consumed, input);
  }

  /** One `read` of the socket; data is what arrived, at most one chunk. */
  datatype Read = Data(bytes: string) | End | WouldBlock | Interrupted | Broken

  datatype Verdict = Alive | Rejected | Truncated | Oversize | Failed

  class Reader {
    var input: string
    var readClosed: bool
    ghost var received: string
    ghost var consumed: string
    ghost var delivered: seq<string>

    /** The lines handed over are the framed part of what arrived; the buffer is all the rest of it. */
    ghost predicate Valid()
      reads this
    {
      && received == consumed + input && Framed(consumed)
      && delivered == Lines(consumed) && |input| <= BRIDGE_BYTES
    }

    constructor ()
      ensures Valid() && received == [] && delivered == [] && !readClosed
    {
      input, readClosed := [], false;
      received, consumed, delivered := [], [], [];
    }

    method FindNewline() returns (k: nat)
      ensures k == FirstNewline(input)
    {
      k := 0;
      while k < |input| && input[k] != NEWLINE
        invariant k <= |input| && forall j :: 0 <= j < k ==> input[j] != NEWLINE
      {
        k := k + 1;
      }
      if k < |input| { FirstNewlineIs(input, k); }
    }

    /** Removes the first line with its newline from the buffer. */
    method Consume(k: nat)
      requires Valid() && k == FirstNewline(input) && k < |input|
      modifies this`input, this`consumed, this`delivered
      ensures Valid() && received == old(received)
      ensures delivered == old(delivered) + (if k > 0 then [old(input)[..k]] else [])
      ensures input == old(input)[k + 1..] && consumed == old(consumed) + old(input)[..k + 1]
    {
      ghost var frame := input[..k + 1];
      hide Lines, Rest, FirstNewline, Unbroken, Framed;
      assert input == frame + input[k + 1..];
      assert received == consumed + frame + input[k + 1..];
      FirstNewlineIs(frame, k);
      LineFramed(input, k);
      FramedAppend(consumed, frame);
      LinesStep(frame, k);
      assert frame[..k] == input[..k] && frame[k + 1..] == [];
      UnbrokenLines([]);
      LinesAppend(consumed, frame);
      delivered := delivered + if k > 0 then [input[..k]] else [];
      consumed := consumed + frame;
      input := input[k + 1..];
    }

    /** One read into a buffer that holds no complete line; `None` means the tick goes on. */
    method ReadMore(r: Read) returns (verdict: Option<Verdict>)
      requires Valid() && Unbroken(input) && !readClosed
      requires r.Data? ==> 0 < |r.bytes| <= CHUNK
      modifies this`input, this`received, this`readClosed
      ensures Valid() && received == old(received) + (if verdict.None? && r.Data? then r.bytes else [])
      ensures verdict == Some(Alive) ==> input == old(input)
      ensures verdict == Some(Truncated) ==> Rest(received) != [] && readClosed
      ensures verdict == Some(Oversize) ==> |Rest(received)| > BRIDGE_BYTES - CHUNK
      ensures readClosed == r.End?
      ensures match r
        case End => verdict == Some(if old(input) == [] then Alive else Truncated)
        case Interrupted => verdict == None
        case WouldBlock => verdict == Some(Alive)
        case Broken => verdict == Some(Failed)
        case Data(bytes) => verdict == if |old(input)| + |bytes| > BRIDGE_BYTES then Some(Oversize) else None
    {
      LinesAppend(consumed, input);
      UnbrokenLines(input);
      match r
      case End =>
        readClosed := true;
        return Some(if input != [] then Truncated else Alive);
      case Interrupted => return None;
      case WouldBlock => return Some(Alive);
      case Broken => return Some(Failed);
      case Data(bytes) =>
        if |bytes| > BRIDGE_BYTES - |input| { return Some(Oversize); }
        assert consumed + input + bytes == consumed + (input + bytes);
        input := input + bytes;
        received := received + bytes;
        return None;
    }

    /**
     * The input half of one tick. It ends early when the peer blocks or closes, after 32 steps however much waits,
     * or with the verdict that closes the connection.
     */
    method DrainInput(arrivals: seq<Read>, accept: string -> bool) returns (verdict: Verdict, steps: nat, used: nat)
      requires Valid() && |arrivals| >= ITERATIONS
      requires forall i :: 0 <= i < |arrivals| && arrivals[i].Data? ==> 0 < |arrivals[i].bytes| <= CHUNK
      modifies this
      ensures Valid() && steps <= ITERATIONS && used <= steps
      ensures received == old(received) + Arrived(arrivals[..used])
      ensures verdict.Alive? && steps < ITERATIONS ==>
        Unbroken(input) && (readClosed || (used < |arrivals| && arrivals[used].WouldBlock?))
      ensures readClosed ==> old(readClosed) || (used < |arrivals| && arrivals[used].End?)
      ensures verdict.Failed? ==> used < |arrivals| && arrivals[used].Broken?
      ensures verdict.Truncated? ==> used < |arrivals| && arrivals[used].End?
      ensures verdict.Oversize? ==> used < |arrivals| && arrivals[used].Data?
      ensures old(delivered) <= delivered
      ensures forall i :: |old(delivered)| <= i < |delivered| ==> accept(delivered[i])
      ensures verdict.Rejected? ==> FirstNewline(input) < |input| && !accept(input[..FirstNewline(input)])
      ensures verdict.Truncated? ==> Rest(received) != [] && readClosed
      ensures verdict.Oversize? ==> |Rest(received)| > BRIDGE_BYTES - CHUNK
    {
      hide Lines, Rest;
      steps, used := 0, 0;
      assert Arrived(arrivals[..0]) == [];
      while steps < ITERATIONS
        invariant steps <= ITERATIONS && used <= steps && Valid()
        invariant received == old(received) + Arrived(arrivals[..used])
        invariant old(delivered) <= delivered
        invariant forall i :: |old(delivered)| <= i < |delivered| ==> accept(delivered[i])
        invariant readClosed == old(readClosed)
      {
        var k := FindNewline();
        if k < |input| {
          if k > 0 && !accept(input[..k]) { return Rejected, steps, used; }
          Consume(k);
          steps := steps + 1;
        } else {
          if readClosed { return Alive, steps, used; }
          var r := arrivals[used];
          var end := ReadMore(r);
          if end.Some? { return end.value, steps, used; }
          ArrivedStep(arrivals, used);
          used, steps := used + 1, steps + 1;
        }
      }
      return Alive, steps, used;
    }
  }

  /** The bytes a sequence of reads brought in. */
  function Arrived(arrivals: seq<Read>): string {
    if arrivals == [] then []
    else
      var last := arrivals[|arrivals| - 1];
      Arrived(arrivals[..|arrivals| - 1]) + if last.Data? then last.bytes else []
  }

  lemma ArrivedStep(arrivals: seq<Read>, k: nat)
    requires k < |arrivals|
    ensures Arrived(arrivals[..k + 1]) == Arrived(arrivals[..k]) + if arrivals[k].Data? then arrivals[k].bytes else []
  {
    assert arrivals[..k + 1][..k] == arrivals[..k];
  }
}

module BridgeRelay {
  import opened Common
  import opened BridgeFrames

  /** One direction: what has been read, what has been written on, and what waits between. */
  datatype Pipe = Pipe(buffer: string, taken: string, given: string) {
    predicate Ok() {
      taken == given + buffer && |buffer| <= BRIDGE_BYTES
    }

    function Room(): nat
      requires |buffer| <= BRIDGE_BYTES
    {
      if BRIDGE_BYTES - |buffer| < CHUNK then BRIDGE_BYTES - |buffer| else CHUNK
    }

    /** `read` into the free part of the buffer: at most one chunk of what is there. */
    function Fill(data: string): (p: Pipe)
      requires Ok()
      ensures p.Ok() && p.given == given
      ensures |p.buffer| == |buffer| + (if |data| < Room() then |data| else Room())
    {
      var got := data[..if |data| < Room() then |data| else Room()];
      assert given + buffer + got == given + (buffer + got);
      Pipe(buffer + got, taken + got, given)
    }

    function Drain(n: nat): (p: Pipe)
      requires Ok() && n <= |buffer|
      ensures p.Ok() && p.taken == taken && |p.buffer| == |buffer| - n
    {
      assert given + buffer == given + buffer[..n] + buffer[n..];
      Pipe(buffer[n..], taken, given + buffer[..n])
    }
  }

  /** What one wait for readiness brings on a reading side. */
  datatype Incoming = Quiet | Bytes(data: string) | Finished | Again | ReadError

  /** What a write to a ready descriptor does. */
  datatype Outgoing = NotReady | Wrote(n: nat) | Retry | WriteError

  datatype Poll =
    | PollFailed(interrupted: bool)
    | Ready(stdin: Incoming, socket: Incoming, toSocket: Outgoing, toStdout: Outgoing)

  /** `up` runs from stdin to the socket, `down` from the socket to stdout; `shutdowns` counts the half-closes. */
  datatype Relay = Relay(
    up: Pipe, down: Pipe, stdinEof: bool, socketEof: bool, writeClosed: bool, done: bool, rc: nat, shutdowns: nat)
  {
    function Fail(): Relay { this.(rc := 1, done := true) }
  }

  const EMPTY := Pipe("", "", "")
  const START := Relay(EMPTY, EMPTY, false, false, false, false, 0, 0)

  /** The pipe after one read, whether the side has ended, and whether the read failed. */
  function Read(p: Pipe, i: Incoming): (r: (Pipe, bool, bool))
    requires p.Ok()
    ensures r.0.Ok() && r.0.given == p.given
  {
    if i.Quiet? || p.Room() == 0 then (p, false, false)
    else match i
      case Bytes(data) => if data == "" then (p, true, false) else (p.Fill(data), false, false)
      case Finished => (p, true, false)
      case ReadError => (p, false, true)
      case _ => (p, false, false)
  }

  /** The pipe after one write, and whether the write failed. */
  function Send(p: Pipe, o: Outgoing): (r: (Pipe, bool))
    requires p.Ok()
    ensures r.0.Ok() && r.0.taken == p.taken && (p.buffer == "" ==> r == (p, false))
  {
    if o.NotReady? || p.buffer == "" then (p, false)
    else match o
      case Wrote(n) => if n > |p.buffer| then (p, true) else (p.Drain(n), false)
      case WriteError => (p, true)
      case _ => (p, false)
  }

  predicate Ok(r: Relay) {
    r.up.Ok() && r.down.Ok()
  }

  function ReadStdin(r: Relay, i: Incoming): (r': Relay)
    requires Ok(r)
    ensures Ok(r')
  {
    if r.stdinEof then r
    else
      var (p, ended, failed) := Read(r.up, i);
      var r1 := r.(up := p, stdinEof := ended);
      if failed then r1.Fail() else r1
  }

  function ReadSocket(r: Relay, i: Incoming): (r': Relay)
    requires Ok(r)
    ensures Ok(r')
  {
    var (p, ended, failed) := Read(r.down, i);
    var r1 := r.(down := p, socketEof := r.socketEof || ended);
    if failed then r1.Fail() else r1
  }

  /** Half-close towards the server once stdin is finished and flushed; leave once the server is. */
  function CloseEnds(r: Relay): (r': Relay)
    requires Ok(r)
    ensures Ok(r')
  {
    var r1 := if r.stdinEof && r.up.buffer == "" && !r.writeClosed
      then r.(writeClosed := true, shutdowns := r.shutdowns + 1) else r;
    if r1.socketEof && r1.down.buffer == ""
    then r1.(done := true, rc := if r1.up.buffer != "" then 1 else r1.rc)
    else r1
  }

  /** An impossible byte count ends the writing round at once. */
  function Writes(r: Relay, p: Poll): (r': Relay)
    requires Ok(r) && p.Ready?
    ensures Ok(r')
  {
    var (up, upFailed) := Send(r.up, p.toSocket);
    var r1 := r.(up := up);
    var r2 := if upFailed then r1.Fail() else r1;
    if upFailed && p.toSocket.Wrote? then r2
    else
      var (down, downFailed) := Send(r.down, p.toStdout);
      var r3 := r2.(down := down);
      if downFailed then r3.Fail() else r3
  }

  function Round(r: Relay, p: Poll): (r': Relay)
    requires Ok(r)
    ensures Ok(r')
  {
    if r.done then r
    else match p
      case PollFailed(interrupted) => if interrupted then r else r.Fail()
      case Ready(stdin, socket, _, _) => Writes(CloseEnds(ReadSocket(ReadStdin(r, stdin), socket)), p)
  }

  function Run(polls: seq<Poll>): (r: Relay)
    ensures Ok(r)
  {
    if polls == [] then START else Round(Run(polls[..|polls| - 1]), polls[|polls| - 1])
  }

  // ---- What one round moves --------------------------------------------------------------

  /** What a read brings into a buffer with this much room. */
  function Brought(i: Incoming, room: nat): string {
    if !i.Bytes? then "" else if |i.data| <= room then i.data else i.data[..room]
  }

  predicate Ends(i: Incoming, room: nat) {
    room > 0 && (i.Finished? || i == Bytes(""))
  }

  function MinRoom(p: Pipe): (room: nat)
    requires p.Ok()
    ensures room <= CHUNK && room <= BRIDGE_BYTES - |p.buffer|
    ensures room == CHUNK || room == BRIDGE_BYTES - |p.buffer|
  {
    if BRIDGE_BYTES - |p.buffer| <= CHUNK then BRIDGE_BYTES - |p.buffer| else CHUNK
  }

  /** How much a write takes of what waits; more than waits is an error and moves nothing. */
  function Taken(o: Outgoing, waits: string): (n: nat)
    ensures n <= |waits|
  {
    if o.Wrote? && o.n <= |waits| then o.n else 0
  }

  predicate Breaks(o: Outgoing, waits: string) {
    waits != "" && (o.WriteError? || (o.Wrote? && o.n > |waits|))
  }

  lemma ReadTells(p: Pipe, i: Incoming)
    requires p.Ok()
    ensures var (p', ended, failed) := Read(p, i); var room := MinRoom(p); var got := Brought(i, room);
      && p' == Pipe(p.buffer + got, p.taken + got, p.given)
      && ended == Ends(i, room) && failed == (room > 0 && i.ReadError?)
  {
    assert p.buffer + "" == p.buffer && p.taken + "" == p.taken;
    if i.Bytes? {
      assert i.data[..|i.data|] == i.data;
      assert i.data[..0] == "";
    }
  }

  lemma SendTells(p: Pipe, o: Outgoing)
    requires p.Ok()
    ensures var (p', failed) := Send(p, o); var n := Taken(o, p.buffer);
      && p' == Pipe(p.buffer[n..], p.taken, p.given + p.buffer[..n])
      && failed == Breaks(o, p.buffer)
  {
    hide Pipe.Ok;
    NothingSent(p);
    if p.buffer == "" { assert Taken(o, p.buffer) == 0; }
  }

  lemma NothingSent(p: Pipe)
    ensures p == Pipe(p.buffer[0..], p.taken, p.given + p.buffer[..0])
  {
    assert p.buffer[0..] == p.buffer && p.given + p.buffer[..0] == p.given;
  }

  /** What waits in one direction once a round's reads are done. */
  function Waits(p: Pipe, i: Incoming, ended: bool): string
    requires p.Ok()
  {
    p.buffer + if ended then "" else Brought(i, MinRoom(p))
  }

  function Filled(p: Pipe, i: Incoming, ended: bool): Pipe
    requires p.Ok()
  {
    var got := if ended then "" else Brought(i, MinRoom(p));
    Pipe(p.buffer + got, p.taken + got, p.given)
  }

  predicate ReadBreaks(p: Pipe, i: Incoming)
    requires p.Ok()
  {
    MinRoom(p) > 0 && i.ReadError?
  }

  lemma FilledOk(p: Pipe, i: Incoming, ended: bool)
    requires p.Ok()
    ensures Filled(p, i, ended).Ok()
  {
    assert p.given + p.buffer + Brought(i, MinRoom(p)) == p.given + (p.buffer + Brought(i, MinRoom(p)));
  }

  lemma ReadsTell(r: Relay, p: Poll)
    requires Ok(r) && !r.done && r.rc == 0 && p.Ready?
    ensures var fails := (!r.stdinEof && ReadBreaks(r.up, p.stdin)) || ReadBreaks(r.down, p.socket);
      ReadSocket(ReadStdin(r, p.stdin), p.socket) ==
        r.(up := Filled(r.up, p.stdin, r.stdinEof), down := Filled(r.down, p.socket, false),
           stdinEof := r.stdinEof || Ends(p.stdin, MinRoom(r.up)), socketEof := r.socketEof || Ends(p.socket, MinRoom(r.down)),
           done := fails, rc := if fails then 1 else 0)
  {
    hide Read, Pipe.Ok, Brought, Ends;
    ReadTells(r.up, p.stdin);
    ReadTells(r.down, p.socket);
    assert r.up.buffer + "" == r.up.buffer && r.up.taken + "" == r.up.taken;
  }

  function Sent(p: Pipe, n: nat): Pipe
    requires n <= |p.buffer|
  {
    Pipe(p.buffer[n..], p.taken, p.given + p.buffer[..n])
  }

  lemma WritesTell(r: Relay, p: Poll)
    requires Ok(r) && p.Ready?
    ensures var halts := Breaks(p.toSocket, r.up.buffer) && p.toSocket.Wrote?;
      var fails := Breaks(p.toSocket, r.up.buffer) || (!halts && Breaks(p.toStdout, r.down.buffer));
      Writes(r, p) ==
        r.(up := Sent(r.up, Taken(p.toSocket, r.up.buffer)),
           down := Sent(r.down, if halts then 0 else Taken(p.toStdout, r.down.buffer)),
           done := r.done || fails, rc := if fails then 1 else r.rc)
  {
    hide Send, Pipe.Ok, Breaks, Taken;
    SendTells(r.up, p.toSocket);
    SendTells(r.down, p.toStdout);
    NothingSent(r.down);
  }

  /** With this much waiting after the read, exactly the first `n` bytes were written and the rest still waits. */
  predicate Moved(before: Pipe, waits: string, n: nat, after: Pipe) {
    && n <= |waits| && |before.buffer| <= |waits|
    && after.given == before.given + waits[..n] && after.buffer == waits[n..]
    && after.taken == before.taken + waits[|before.buffer|..]
  }

  lemma SentMoved(p: Pipe, i: Incoming, ended: bool, n: nat)
    requires p.Ok() && n <= |Filled(p, i, ended).buffer|
    ensures Filled(p, i, ended).buffer == Waits(p, i, ended)
    ensures Moved(p, Waits(p, i, ended), n, Sent(Filled(p, i, ended), n))
  {
    hide Brought, Pipe.Ok;
    var got := if ended then "" else Brought(i, MinRoom(p));
    assert (p.buffer + got)[|p.buffer|..] == got;
  }

  /**
   * A round of a relay that is not done takes what each side brings within its room and one chunk, writes exactly as much
   * as each side takes, half-closes once stdin has ended and nothing waits for the socket, and leaves once the socket has
   * ended and nothing waits for stdout, with code 0 unless something failed or was left behind.
   */
  lemma RoundTells(r: Relay, p: Poll)
    requires Ok(r) && !r.done && r.rc == 0 && p.Ready?
    ensures var up, down := Waits(r.up, p.stdin, r.stdinEof), Waits(r.down, p.socket, false); var r' := Round(r, p);
      var readFails := (!r.stdinEof && ReadBreaks(r.up, p.stdin)) || ReadBreaks(r.down, p.socket);
      var halts := Breaks(p.toSocket, up) && p.toSocket.Wrote?;
      var fails := readFails || Breaks(p.toSocket, up) || (!halts && Breaks(p.toStdout, down));
      var n, m := Taken(p.toSocket, up), if halts then 0 else Taken(p.toStdout, down);
      && Moved(r.up, up, n, r'.up) && Moved(r.down, down, m, r'.down)
      && r'.stdinEof == (r.stdinEof || Ends(p.stdin, MinRoom(r.up)))
      && r'.socketEof == (r.socketEof || Ends(p.socket, MinRoom(r.down)))
      && r'.writeClosed == (r.writeClosed || (r'.stdinEof && up == ""))
      && r'.shutdowns == r.shutdowns + (if r'.writeClosed && !r.writeClosed then 1 else 0)
      && r'.done == (fails || (r'.socketEof && down == ""))
      && r'.rc == (if fails || (r'.socketEof && down == "" && up != "") then 1 else 0)
  {
    hide ReadStdin, ReadSocket, Writes, Breaks, Taken, Ends, ReadBreaks, Pipe.Ok, Filled, Waits, Sent, Moved;
    FilledOk(r.up, p.stdin, r.stdinEof);
    FilledOk(r.down, p.socket, false);
    ReadsTell(r, p);
    var r3 := CloseEnds(ReadSocket(ReadStdin(r, p.stdin), p.socket));
    WritesTell(r3, p);
    var halts := Breaks(p.toSocket, r3.up.buffer) && p.toSocket.Wrote?;
    SentMoved(r.up, p.stdin, r.stdinEof, Taken(p.toSocket, r3.up.buffer));
    SentMoved(r.down, p.socket, false, if halts then 0 else Taken(p.toStdout, r3.down.buffer));
  }

  /** A failed wait ends the relay with code 1 unless it was only interrupted; a relay that is done stays as it is. */
  lemma OtherRoundsTell(r: Relay, p: Poll)
    requires Ok(r)
    ensures r.done ==> Round(r, p) == r
    ensures !r.done && p.PollFailed? ==> Round(r, p) == if p.interrupted then r else r.(done := true, rc := 1)
  {
  }

  /** The half-close is final, and leaving with code 0 means nothing is left behind. */
  predicate Orderly(r: Relay) {
    && r.shutdowns == (if r.writeClosed then 1 else 0)
    && (r.writeClosed ==> r.stdinEof && r.up.buffer == "")
    && (r.done && r.rc == 0 ==> r.up.buffer == "" && r.down.buffer == "" && r.socketEof)
    && (r.rc != 0 ==> r.done)
  }

  /** The state between the reads and the closing decisions of one round. */
  predicate Reading(r: Relay) {
    && r.shutdowns == (if r.writeClosed then 1 else 0)
    && (r.writeClosed ==> r.stdinEof && r.up.buffer == "")
    && (r.done <==> r.rc != 0)
  }

  lemma ReadsOrderly(r: Relay, stdin: Incoming, socket: Incoming)
    requires Ok(r) && Orderly(r) && !r.done
    ensures var r2 := ReadSocket(ReadStdin(r, stdin), socket); Reading(r2) && r2.writeClosed == r.writeClosed
    ensures r.writeClosed ==> ReadSocket(ReadStdin(r, stdin), socket).up == r.up
  {
    hide Pipe.Ok, Read;
  }

  lemma CloseOrderly(r: Relay)
    requires Ok(r) && Reading(r)
    ensures Orderly(CloseEnds(r)) && CloseEnds(r).up == r.up && (r.writeClosed ==> CloseEnds(r).writeClosed)
  {
  }

  lemma WritesOrderly(r: Relay, p: Poll)
    requires Ok(r) && Orderly(r) && p.Ready?
    ensures Orderly(Writes(r, p)) && Writes(r, p).writeClosed == r.writeClosed
    ensures r.writeClosed ==> Writes(r, p).up == r.up
  {
    hide Pipe.Ok, Send;
  }

  lemma RoundOrderly(r: Relay, p: Poll)
    requires Ok(r) && Orderly(r)
    ensures Orderly(Round(r, p))
    ensures r.writeClosed ==> Round(r, p).writeClosed && Round(r, p).up == r.up
  {
    hide ReadStdin, ReadSocket, CloseEnds, Writes, Pipe.Ok;
    if !r.done && p.Ready? {
      ReadsOrderly(r, p.stdin, p.socket);
      var r2 := ReadSocket(ReadStdin(r, p.stdin), p.socket);
      CloseOrderly(r2);
      WritesOrderly(CloseEnds(r2), p);
    }
  }

  /**
   * At every point of every run: bytes read on one side are the bytes written to the other followed by what is
   * buffered; buffers stay within 8 MiB; the half-close happens at most once, after stdin ended and was flushed; and
   * exit code 0 means that everything read was delivered.
   */
  lemma {:induction false} RelayConserves(polls: seq<Poll>)
    ensures var r := Run(polls);
      && r.up.taken == r.up.given + r.up.buffer && r.down.taken == r.down.given + r.down.buffer
      && |r.up.buffer| <= BRIDGE_BYTES && |r.down.buffer| <= BRIDGE_BYTES
      && Orderly(r)
      && (r.done && r.rc == 0 ==> r.up.taken == r.up.given && r.down.taken == r.down.given)
  {
    hide Round;
    if polls != [] {
      RelayConserves(polls[..|polls| - 1]);
      RoundOrderly(Run(polls[..|polls| - 1]), polls[|polls| - 1]);
    }
  }

  /** After the half-close nothing more is read from stdin or written to the server, whatever happens later. */
  lemma {:induction false} HalfCloseIsFinal(polls: seq<Poll>, k: nat)
    requires k <= |polls| && Run(polls[..k]).writeClosed
    ensures Run(polls).writeClosed && Run(polls).up == Run(polls[..k]).up
    decreases |polls|
  {
    hide Round;
    if k == |polls| {
      assert polls[..k] == polls;
    } else {
      var front := polls[..|polls| - 1];
      assert front[..k] == polls[..k];
      HalfCloseIsFinal(front, k);
      RelayConserves(front);
      RoundOrderly(Run(front), polls[|polls| - 1]);
    }
  }

  lemma RunStep(polls: seq<Poll>, k: nat)
    requires k < |polls|
    ensures Run(polls[..k + 1]) == Round(Run(polls[..k]), polls[k])
  {
    assert polls[..k + 1][..k] == polls[..k];
  }

  /** The reading half of a round: stdin unless it has ended, then the socket. */
  method ReadBoth(r: Relay, p: Poll) returns (up: Pipe, down: Pipe, stdinEof: bool, socketEof: bool, done: bool, rc: nat)
    requires Ok(r) && p.Ready?
    ensures Relay(up, down, stdinEof, socketEof, r.writeClosed, done, rc, r.shutdowns) ==
      ReadSocket(ReadStdin(r, p.stdin), p.socket)
  {
    hide Read;
    up, down, stdinEof, socketEof, done, rc := r.up, r.down, r.stdinEof, r.socketEof, r.done, r.rc;
    if !stdinEof {
      var got := Read(up, p.stdin);
      up, stdinEof := got.0, got.1;
      if got.2 { rc, done := 1, true; }
    }
    var got := Read(down, p.socket);
    down, socketEof := got.0, socketEof || got.1;
    if got.2 { rc, done := 1, true; }
  }

  /** The writing half of a round. */
  method WriteBoth(r: Relay, p: Poll) returns (up: Pipe, down: Pipe, done: bool, rc: nat)
    requires Ok(r) && p.Ready?
    ensures r.(up := up, down := down, done := done, rc := rc) == Writes(r, p)
  {
    hide Send;
    up, down, done, rc := r.up, r.down, r.done, r.rc;
    var sent := Send(up, p.toSocket);
    up := sent.0;
    if sent.1 { rc, done := 1, true; }
    if !(sent.1 && p.toSocket.Wrote?) {
      var sent2 := Send(down, p.toStdout);
      down := sent2.0;
      if sent2.1 { rc, done := 1, true; }
    }
  }

  /** The relay loop over whatever readiness it is given: two buffers and four flags, updated in place. */
  method RelayMain(polls: seq<Poll>) returns (up: Pipe, down: Pipe, rc: nat, done: bool)
    ensures var r := Run(polls); up == r.up && down == r.down && rc == r.rc && done == r.done
  {
    hide ReadStdin, ReadSocket, Writes;
    up, down, rc, done := EMPTY, EMPTY, 0, false;
    var stdinEof, socketEof, writeClosed := false, false, false;
    var shutdowns := 0;
    var k := 0;
    while k < |polls| && !done
      invariant k <= |polls|
      invariant Relay(up, down, stdinEof, socketEof, writeClosed, done, rc, shutdowns) == Run(polls[..k])
    {
      var p := polls[k];
      RunStep(polls, k);
      k := k + 1;
      if p.PollFailed? {
        if !p.interrupted { rc, done := 1, true; }
        continue;
      }
      up, down, stdinEof, socketEof, done, rc :=
        ReadBoth(Relay(up, down, stdinEof, socketEof, writeClosed, done, rc, shutdowns), p);
      if stdinEof && up.buffer == "" && !writeClosed {
        writeClosed, shutdowns := true, shutdowns + 1;
      }
      if socketEof && down.buffer == "" {
        done := true;
        if up.buffer != "" { rc := 1; }
      }
      up, down, done, rc := WriteBoth(Relay(up, down, stdinEof, socketEof, writeClosed, done, rc, shutdowns), p);
    }
    RunStops(polls, k);
  }

  lemma {:induction false} RunStops(polls: seq<Poll>, k: nat)
    requires k <= |polls| && (k < |polls| ==> Run(polls[..k]).done)
    ensures Run(polls) == Run(polls[..k])
    decreases |polls|
  {
    if k < |polls| {
      var front := polls[..|polls| - 1];
      assert front[..k] == polls[..k];
      RunStops(front, k);
    } else {
      assert polls[..k] == polls;
    }
  }
}
