/** Whole runs of the bridge: every input keeps the invariant, and what follows from it for connections and tools. */
module BridgeRuns {
  import opened Common
  import opened BridgeModel
  import opened BridgeLaws

  // ---- Every input keeps the invariant ---------------------------------------------------

  lemma OutstandingInCall(b: Bridge, i: nat)
    requires Inv(b) && i < |b.clients| && b.clients[i].open && b.clients[i].pending
    ensures InCall(b, i)
  {
    hide LifeOf, Line, Lines, IdsOf, LogOk;
    Focus(b, i);
  }

  lemma AskedKeeps(b: Bridge, i: nat, id: string)
    requires Inv(b) && i < |b.clients| && b.clients[i].open
    ensures Handling(Asked(b, i, id), i, id)
  {
    hide LifeOf, Line, Lines, IdsOf, LogOk;
    Focus(b, i);
    var c := b.clients[i].(asked := b.clients[i].asked + [id]);
    WithKeeps(b, i, c);
    CallOkIgnoresClients(b, b.With(i, c), b.clients[i]);
    assert b.With(i, c) == Asked(b, i, id);
  }

  lemma InitializeKeeps(b: Bridge, i: nat, id: string)
    requires Handling(b, i, id)
    ensures Inv(CloseUnless(Respond(b.With(i, b.clients[i].(initialized := true)), i, Reply(id, false, INITIALIZE_BODY)), i))
  {
    hide OthersOk, LifeOf, Line, Lines, IdsOf, Inv, Respond;
    var c := b.clients[i].(initialized := true);
    WithKeeps(b, i, c);
    RespondKeeps(b.With(i, c), i, Reply(id, false, INITIALIZE_BODY));
  }

  lemma HandleKeeps(b: Bridge, i: nat, m: Message, a: Answers)
    requires Inv(b) && i < |b.clients| && b.clients[i].open
    ensures Inv(CloseUnless(Handle(b, i, m, a), i))
  {
    hide Inv, Handling, InCall, OthersOk, CallTool, Respond, Complete;
    ShapedOf(b);
    match m
    case Malformed => Focus(b, i); CloseKeeps(b, i);
    case Notification(verb, cancels) =>
      if verb == "notifications/cancelled" && b.clients[i].pending && cancels == Some(b.clients[i].id) {
        OutstandingInCall(b, i);
        CompleteKeeps(b, i, "error: MCP tool call cancelled", true, a);
      }
    case Request(id, verb, _, _) =>
      AskedKeeps(b, i, id);
      var b1 := Asked(b, i, id);
      if verb == "initialize" {
        InitializeKeeps(b1, i, id);
      } else if !b1.clients[i].initialized {
        RespondKeeps(b1, i, ErrorReply(id, "-32000", "initialize first"));
      } else if verb == "ping" {
        RespondKeeps(b1, i, Reply(id, false, "{}"));
      } else if verb == "tools/list" {
        match a.schema
        case Some(body) => RespondKeeps(b1, i, Reply(id, false, body));
        case None => RespondKeeps(b1, i, ErrorReply(id, "-32603", "could not build tools schema"));
      } else if verb == "tools/call" {
        CallToolKeeps(b1, i, m, a);
      } else {
        RespondKeeps(b1, i, ErrorReply(id, "-32601", "method not found"));
      }
  }

  lemma SettleKeeps(b: Bridge, i: nat, t: Tick, a: Answers)
    requires Inv(b) && i < |b.clients| && b.clients[i].open
    ensures var r := Settle(b, i, t, a);
      Inv(CloseUnless(r, i)) && r.0.Shaped() && OthersOk(r.0, i) && (r.1 ==> r.0.clients[i].open)
  {
    hide Inv, InCall, OthersOk, Complete;
    ShapedOf(b);
    Focus(b, i);
    var c := b.clients[i];
    if c.pending && !c.permission && t.finished.Some? {
      OutstandingInCall(b, i);
      CompleteKeeps(b, i, t.finished.value.0, t.finished.value.1, a);
    } else if c.pending && !c.permission && c.armed && t.expired {
      OutstandingInCall(b, i);
      CompleteKeeps(b, i, "error: ACP tool call timed out", true, a);
    }
  }

  lemma Unpack(b: Bridge, i: nat)
    requires Inv(b) && i < |b.clients|
    ensures ClientOk(b.clients[i]) && CallOk(b, b.clients[i])
  {
    hide ClientOk, CallOk, LogOk;
  }

  lemma WrittenOk(c: Client, n: nat)
    requires ClientOk(c) && c.open && n <= |c.output|
    ensures ClientOk(Written(c, n))
  {
    hide Lines, IdsOf;
    assert c.sent + c.output[..n] + c.output[n..] == c.sent + c.output;
  }

  lemma SentKeeps(b: Bridge, i: nat, n: nat)
    requires Inv(b) && i < |b.clients| && b.clients[i].open && n <= |b.clients[i].output|
    ensures Inv(b.With(i, Written(b.clients[i], n))) && Inv(Closed(b.With(i, Written(b.clients[i], n)), i))
  {
    hide LifeOf, LogOk, ClientOk, OthersOk, Inv;
    var c := b.clients[i];
    var b' := b.With(i, Written(c, n));
    Focus(b, i);
    ShapedOf(b);
    Unpack(b, i);
    WrittenOk(c, n);
    WithKeeps(b, i, Written(c, n));
    CallOkIgnoresClients(b, b', c);
    Assemble(b', i);
    CloseKeeps(b', i);
  }

  lemma FlushKeeps(b: Bridge, i: nat, t: Tick)
    requires Inv(b) && i < |b.clients| && b.clients[i].open
    ensures Inv(CloseUnless(Flush(b, i, t), i))
  {
    hide Inv, OthersOk, Written, Closed;
    Focus(b, i);
    ShapedOf(b);
    CloseKeeps(b, i);
    var c := b.clients[i];
    SentKeeps(b, i, if t.written <= |c.output| then t.written else |c.output|);
  }

  lemma PolledKeeps(b: Bridge, i: nat, t: Tick, a: Answers)
    requires Inv(b) && i < |b.clients| && b.clients[i].open
    ensures Inv(CloseUnless(Polled(b, i, t, a), i))
  {
    hide Inv, OthersOk, Settle, Flush;
    SettleKeeps(b, i, t, a);
    var r := Settle(b, i, t, a);
    if r.1 { FlushKeeps(r.0, i, t); }
  }

  lemma OwnerKeeps(b: Bridge, i: nat, d: Decision, a: Answers)
    requires Inv(b) && i < |b.clients| && b.clients[i].pending && b.clients[i].permission
    ensures var b1 := b.With(i, b.clients[i].(permission := false));
      Inv(CloseUnless(if d == DenyCall then Denied(b1, i, a) else Approved(b1, i, a), i))
  {
    var c := b.clients[i].(permission := false);
    assert CallAt(b.With(i, c), i, AwaitsOwner) by {
      hide OthersOk, LifeOf, Line, Lines, IdsOf, LogOk;
      OutstandingInCall(b, i);
      WithKeeps(b, i, c);
    }
    hide CallAt, Inv, Denied, Approved;
    if d == DenyCall { DeniedKeeps(b.With(i, c), i, a, AwaitsOwner); }
    else { ApprovedKeeps(b.With(i, c), i, a); }
  }

  lemma TurnKeeps(b: Bridge, b': Bridge, e: Event)
    requires Inv(b) && (e == Began || e == Halted)
    requires b'.log == b.log + [e] && b'.sequence == b.sequence && b'.clients == b.clients
    requires (b'.active && !b'.stop) == (e == Began)
    ensures Inv(b')
  {
    hide Line, Lines, IdsOf, ClientOk;
    forall t: nat ensures LifeOf(b'.log, t) == LifeOf(b.log, t) { LogStep(b.log, e, t); }
    LogStep(b.log, e, 0);
  }

  lemma EndCallsKeeps(b: Bridge, i: nat, each: nat -> Answers)
    requires Inv(b) && i <= |b.clients|
    requires forall j :: 0 <= j < i ==> !b.clients[j].pending
    ensures var r := EndCalls(b, i, each); Inv(r) && forall j :: 0 <= j < |r.clients| ==> !r.clients[j].pending
    decreases |b.clients| - i
  {
    hide OthersOk, ClientOk, CallOk, LogOk, Complete;
    if i < |b.clients| {
      if b.clients[i].pending {
        assert b.clients[i].open by { PendingIsOpen(b, i); }
        OutstandingInCall(b, i);
        CompleteKeeps(b, i, "error: owning ACP turn ended", true, each(i));
        CompleteEffect(b, i, "error: owning ACP turn ended", true, each(i));
        EndCallsKeeps(CloseUnless(Complete(b, i, "error: owning ACP turn ended", true, each(i)), i), i + 1, each);
      } else {
        EndCallsKeeps(b, i + 1, each);
      }
    }
  }

  lemma PendingIsOpen(b: Bridge, i: nat)
    requires Inv(b) && i < |b.clients| && b.clients[i].pending
    ensures b.clients[i].open
  {
    assert ClientOk(b.clients[i]);
  }

  lemma AbortKeeps(b: Bridge)
    requires Inv(b)
    ensures Inv(b.(active := false, clients := Aborted(b.clients)).Log(Halted))
  {
    var b1 := b.(clients := Aborted(b.clients));
    assert Inv(b1) by {
      hide LifeOf, Line, Lines, IdsOf, Live;
      forall j | 0 <= j < |b.clients| ensures ClientOk(b1.clients[j]) && !b1.clients[j].pending {
        assert ClientOk(b.clients[j]);
      }
      LogOkIgnoresClients(b, b1);
    }
    TurnKeeps(b1, b1.(active := false).Log(Halted), Halted);
  }

  lemma AcceptKeeps(b: Bridge, i: nat)
    requires Inv(b) && i < |b.clients| && !b.clients[i].open
    ensures Inv(b.With(i, b.clients[i].(open := true)))
  {
    hide LifeOf, LogOk;
    Focus(b, i);
    var c := b.clients[i].(open := true);
    assert ClientOk(b.clients[i]);
    WithKeeps(b, i, c);
    Assemble(b.With(i, c), i);
  }

  lemma EofKeeps(b: Bridge, i: nat)
    requires Inv(b) && i < |b.clients| && b.clients[i].open
    ensures Inv(b.With(i, b.clients[i].(readClosed := true)))
  {
    hide LifeOf, LogOk, Line, Lines, IdsOf;
    Focus(b, i);
    var c := b.clients[i].(readClosed := true);
    WithKeeps(b, i, c);
    CallOkIgnoresClients(b, b.With(i, c), b.clients[i]);
    Assemble(b.With(i, c), i);
  }

  lemma BindKeeps(b: Bridge, owned: bool)
    requires Inv(b)
    ensures Inv(b.(owned := owned))
  {
    hide LifeOf, Live, ClientOk;
  }

  lemma StepKeeps(b: Bridge, input: Input)
    requires Inv(b)
    ensures Inv(Step(b, input))
  {
    hide Inv, OthersOk, Handle, Polled, Denied, Approved, EndCalls, Aborted;
    assert b.Shaped() by { ShapedOf(b); }
    match input
    case Accept => if FreeSlot(b, 0) < |b.clients| { AcceptKeeps(b, FreeSlot(b, 0)); }
    case Deliver(i, m, a) => if i < |b.clients| && b.clients[i].open { HandleKeeps(b, i, m, a); }
    case EndOfInput(i, partial) =>
      if i < |b.clients| && b.clients[i].open { EofKeeps(b, i); Focus(b, i); CloseKeeps(b, i); }
    case Poll(i, t, a) => if i < |b.clients| && b.clients[i].open { PolledKeeps(b, i, t, a); }
    case Drop(i) => if i < |b.clients| { Focus(b, i); CloseKeeps(b, i); }
    case Owner(tool, d, a) =>
      if ParkedSlot(b, tool, 0) < |b.clients| { OwnerKeeps(b, ParkedSlot(b, tool, 0), d, a); }
    case Bind(owned) => BindKeeps(b, owned);
    case BeginTurn => TurnKeeps(b, Step(b, input), Began);
    case EndTurn(each) =>
      var b1 := b.(active := false).Log(Halted);
      TurnKeeps(b, b1, Halted);
      EndCallsKeeps(b1, 0, each);
    case Abort => AbortKeeps(b);
  }

  lemma ShapedOf(b: Bridge)
    requires Inv(b)
    ensures b.Shaped()
  {
  }

  // ---- Runs ------------------------------------------------------------------------------

  const START := Bridge(false, false, false, false, 0, [BLANK, BLANK, BLANK, BLANK], [])

  function After(inputs: seq<Input>): (b: Bridge)
    ensures b.Shaped()
  {
    if inputs == [] then START else Step(After(inputs[..|inputs| - 1]), inputs[|inputs| - 1])
  }

  lemma {:induction false} ReachableInv(inputs: seq<Input>)
    ensures Inv(After(inputs))
  {
    hide Step, Inv;
    if inputs == [] {
      assert Inv(START) by { StartInv(); }
    } else {
      ReachableInv(inputs[..|inputs| - 1]);
      StepKeeps(After(inputs[..|inputs| - 1]), inputs[|inputs| - 1]);
    }
  }

  lemma BlankOk()
    ensures ClientOk(BLANK)
  {
  }

  lemma StartInv()
    ensures Inv(START)
  {
    hide ClientOk;
    assert ClientOk(BLANK) by { BlankOk(); }
  }

  lemma {:induction false} IdsCount(rs: seq<Reply>)
    ensures |IdsOf(rs)| == |rs|
  {
    if rs != [] { IdsCount(rs[..|rs| - 1]); }
  }

  /**
   * On a connection that has been neither closed nor aborted, the requests that carried an id are the replies
   * queued plus the one outstanding call, id by id; and the bytes sent and waiting are those replies in order.
   */
  lemma RequestsAndReplies(inputs: seq<Input>, i: nat)
    requires i < BRIDGE_CLIENTS
    ensures var c := After(inputs).clients[i];
      && (c.open && !c.aborted ==>
            && multiset(c.asked) == IdsOf(c.answered) + (if c.pending then multiset{c.id} else multiset{})
            && |c.asked| == |c.answered| + (if c.pending then 1 else 0))
      && c.sent + c.output == Lines(c.answered) && |c.output| <= BRIDGE_BYTES
  {
    hide Line, Lines, Step, LogOk;
    ReachableInv(inputs);
    var c := After(inputs).clients[i];
    assert ClientOk(c);
    IdsCount(c.answered);
    if c.open && !c.aborted {
      assert |multiset(c.asked)| == |c.asked|;
    }
  }

  /** A message without an id adds no request and gets no reply of its own, only the cancelled call's. */
  lemma NotificationGetsNoReply(b: Bridge, i: nat, verb: string, cancels: Option<string>, a: Answers)
    requires i < |b.clients|
    ensures var r := Handle(b, i, Notification(verb, cancels), a); var c, c' := b.clients[i], r.0.clients[i];
      && c'.asked == c.asked
      && (c'.answered == c.answered || (c.pending && exists body :: c'.answered == c.answered + [Reply(c.id, false, body)]))
      && (c'.answered != c.answered ==> verb == "notifications/cancelled" && cancels == Some(c.id) && !c'.pending)
  {
    hide Complete;
    CompleteEffect(b, i, "error: MCP tool call cancelled", true, a);
  }

  /**
   * Over any run: a tool body runs at most once per admitted call, only while the turn is live, only when the call
   * was allowed or approved by then, and never when it was denied or refused at any time; numbers are never
   * reused, and the session gets at most one result per call.
   */
  lemma ToolSafety(inputs: seq<Input>, t: nat)
    ensures var log := After(inputs).log;
      && CountOf(log, Admit(t)) <= 1 && CountOf(log, Run(t)) <= 1 && CountOf(log, Answer(t)) <= 1
      && (CountOf(log, Answer(t)) == 1 ==> Seen(log, Record(t)))
      && (forall k :: 0 <= k < |log| && log[k] == Run(t) ==>
            Live(log[..k]) && Permitted(log[..k], t) && !Forbidden(log, t))
  {
    hide Step, LifeOf, Live, Permitted, Forbidden;
    ReachableInv(inputs);
    var log := After(inputs).log;
    LawfulCounts(log, t);
    LifeMeaning(log, t);
    forall k | 0 <= k < |log| && log[k] == Run(t)
      ensures Live(log[..k]) && Permitted(log[..k], t) && !Forbidden(log, t)
    {
      RunWasAllowed(log, t, k);
    }
  }

  // ---- When a request becomes a call -----------------------------------------------------

  /** A request for the one exposed tool, with object arguments or none. */
  predicate WellFormed(m: Message)
    requires m.Request?
  {
    m.name == Some("run_code") && !m.arguments.BadArguments?
  }

  lemma CompleteKeepsNumber(b: Bridge, i: nat, text: string, isError: bool, a: Answers)
    requires i < |b.clients|
    ensures Complete(b, i, text, isError, a).0.sequence == b.sequence
  {
    hide ResultBody, Line;
  }

  lemma ExecuteKeepsNumber(b: Bridge, i: nat, a: Answers)
    requires i < |b.clients|
    ensures Execute(b, i, a).0.sequence == b.sequence
  {
    hide Complete;
    forall b': Bridge, text: string, e: bool | i < |b'.clients| ensures Complete(b', i, text, e, a).0.sequence == b'.sequence {
      CompleteKeepsNumber(b', i, text, e, a);
    }
  }

  lemma JudgedKeepsNumber(b: Bridge, i: nat, a: Answers)
    requires i < |b.clients|
    ensures Judged(b, i, a).0.sequence == b.sequence
  {
    hide Complete, Execute;
    var b1 := b.Log(Judge(b.clients[i].tool, a.verdict));
    var refused := b1.(blocked := true).Log(Refuse(b.clients[i].tool));
    CompleteKeepsNumber(refused, i, "error: permission denied", true, a);
    CompleteKeepsNumber(Stop(b1, false), i, "error: extension stopped tool call", true, a);
    ExecuteKeepsNumber(b1, i, a);
    ExecuteKeepsNumber(b1.Log(Approve(b.clients[i].tool)), i, a);
  }

  lemma AdmissionTakesNumber(b: Bridge, i: nat, id: string, a: Answers)
    requires i < |b.clients|
    ensures Admission(b, i, id, a).0.sequence == b.sequence + 1
  {
    hide Complete, Judged;
    var b1 := Admitted(b, i, id);
    var b2 := Recorded(b1, i);
    CompleteKeepsNumber(b1, i, "error: extension refused tool call", true, a);
    CompleteKeepsNumber(b1, i, a.prepareError.GetOr("error: invalid tool arguments"), true, a);
    CompleteKeepsNumber(b2, i, "error: could not persist admitted tool call", true, a);
    JudgedKeepsNumber(b2, i, a);
  }

  /** An error reply under this id with this code. */
  predicate IsError(r: Reply, id: string, code: string) {
    r.error && r.id == id && "{\"code\":" + code + "," <= r.body
  }

  /**
   * A `tools/call` request takes the next call number exactly when the turn is active and owned, the connection has no
   * outstanding call, and the request is well-formed. Any other request leaves turn, calls and log as they were and gets
   * at most one reply, an error under its own id: code -32602 for what the request itself got wrong, which is looked at
   * last, and -32000 for the turn or the connection.
   */
  lemma CallOrRefusal(b: Bridge, i: nat, m: Message, a: Answers)
    requires i < |b.clients| && m.Request?
    ensures var r := CallTool(b, i, m, a); var c, c' := b.clients[i], r.0.clients[i];
      var free := b.active && b.owned && !c.pending;
      if free && WellFormed(m) then r.0.sequence == b.sequence + 1
      else
        && r.0 == b.With(i, c.(output := c'.output, answered := c'.answered))
        && (if r.1 then c' != c && c'.answered != [] && c'.answered[..|c'.answered| - 1] == c.answered
              && IsError(c'.answered[|c'.answered| - 1], m.id, if free then "-32602" else "-32000")
            else c' == c)
  {
    hide Admission, ErrorReply, Respond, IsError;
    if Refusal(b, i, m).None? {
      AdmissionTakesNumber(b, i, m.id, a);
    } else {
      var r := Refusal(b, i, m).value;
      RespondEffect(b, i, r);
      RespondOnlyReplies(b, i, r);
      var c' := CallTool(b, i, m, a).0.clients[i];
      if CallTool(b, i, m, a).1 { assert c'.answered[..|c'.answered| - 1] == b.clients[i].answered; }
      RefusalIsError(b, i, m);
    }
  }

  lemma RefusalIsError(b: Bridge, i: nat, m: Message)
    requires i < |b.clients| && m.Request? && Refusal(b, i, m).Some?
    ensures IsError(Refusal(b, i, m).value, m.id, if b.active && b.owned && !b.clients[i].pending then "-32602" else "-32000")
  {
    hide ErrorReply, IsError;
    ErrorIsCoded(m.id, "-32000", "tny tool calls require an active owning turn");
    ErrorIsCoded(m.id, "-32000", "one outstanding tool call per connection");
    ErrorIsCoded(m.id, "-32602", "expected tool name and object arguments");
    ErrorIsCoded(m.id, "-32602", "only run_code is exposed; use tools.call inside Python");
  }

  lemma ErrorIsCoded(id: string, code: string, message: string)
    ensures IsError(ErrorReply(id, code, message), id, code)
  {
    var head := "{\"code\":" + code + ",";
    assert ErrorReply(id, code, message).body == head + ("\"message\":\"" + message + "\"}");
  }

  lemma RespondOnlyReplies(b: Bridge, i: nat, r: Reply)
    requires i < |b.clients|
    ensures var (b', ok) := Respond(b, i, r); var c, c' := b.clients[i], b'.clients[i];
      c' == c.(output := c'.output, answered := c'.answered)
  {
    hide Line;
  }

  // ---- When a call runs, waits or is refused ---------------------------------------------

  /** The hooks and checks before the verdict let the call through. */
  predicate Reaches(a: Answers) {
    !a.preStop && !a.preDeny && a.prepared && a.saved
  }

  /** An undecided call, with the permission hook not stopping the turn. */
  predicate Undecided(a: Answers) {
    Reaches(a) && a.verdict == Ask && !a.permissionStop
  }

  predicate GoesAhead(a: Answers) {
    || (Reaches(a) && a.verdict == Allow)
    || (Undecided(a) && a.permission == HookAllow)
    || (Undecided(a) && a.permission == HookDecision.Undecided && a.prompt in {Some(AllowOnce), Some(AllowAlways)})
  }

  predicate IsRefused(a: Answers) {
    || (Reaches(a) && a.verdict == Deny)
    || (Undecided(a) && a.permission == HookDeny)
    || (Undecided(a) && a.permission == HookDecision.Undecided && a.prompt == Some(DenyCall))
  }

  predicate IsParked(a: Answers) {
    Undecided(a) && a.permission == HookDecision.Undecided && a.prompt == None
  }

  /** Nothing between the approval and the tool body holds the call back. */
  predicate Unhindered(b: Bridge, a: Answers) {
    b.active && !a.cancelled && !b.stop && !a.startStop
  }

  lemma CountStep(log: seq<Event>, e: Event, x: Event)
    ensures CountOf(log + [e], x) == CountOf(log, x) + if e == x then 1 else 0
  {
    assert (log + [e])[..|log|] == log;
  }

  lemma AnsweredOutcome(b: Bridge, i: nat, body: string, t: nat)
    requires i < |b.clients|
    ensures var r := Answered(b, i, body).0;
      CountOf(r.log, Run(t)) == CountOf(b.log, Run(t)) && r.active == b.active && r.stop == b.stop && r.blocked == b.blocked
  {
    hide CountOf, Line;
    var c := Respond(b, i, Reply(b.clients[i].id, false, body)).0.clients[i];
    CountStep(b.log, Answer(c.tool), Run(t));
  }

  lemma CompleteOutcome(b: Bridge, i: nat, text: string, isError: bool, a: Answers, t: nat)
    requires i < |b.clients|
    ensures var r := Complete(b, i, text, isError, a).0;
      && CountOf(r.log, Run(t)) == CountOf(b.log, Run(t))
      && r.blocked == b.blocked && !r.clients[i].pending
      && r.active == (b.active && !a.postStop && !a.batchStop)
      && r.stop == (b.stop || a.endStop || a.postStop || a.batchStop)
  {
    hide CountOf, ResultBody, Answered;
    CountStep(b.log, Halted, Run(t));
    var b1 := if a.endStop then Stop(b, false) else b;
    AnsweredOutcome(b1, i, ResultBody(text, isError, a), t);
    CountStep(Answered(b1, i, ResultBody(text, isError, a)).0.log, Halted, Run(t));
  }

  /** What a step does with the call of connection `i`: whether its body ran, and whether it is still open. */
  ghost predicate Leaves(b: Bridge, r: Bridge, i: nat, t: nat, runs: bool, open: bool, a: Answers)
    requires i < |b.clients| == |r.clients|
  {
    && CountOf(r.log, Run(t)) == CountOf(b.log, Run(t)) + (if runs then 1 else 0)
    && r.clients[i].pending == open
    && (open ==> r.clients[i].permission == b.clients[i].permission)
    && r.active == (b.active && (open || (!a.postStop && !a.batchStop)))
    && r.blocked == b.blocked && (b.stop ==> r.stop)
  }

  lemma BodyOutcome(b: Bridge, i: nat, a: Answers)
    requires i < |b.clients| && b.clients[i].pending && b.active && !a.cancelled && !b.stop && !a.startStop
    ensures Leaves(b, Execute(b, i, a).0, i, b.clients[i].tool, true, a.outcome.Async?, a)
  {
    hide CountOf, Complete;
    var t := b.clients[i].tool;
    CountStep(b.log, Run(t), Run(t));
    CountStep(b.log + [Run(t)], Halted, Run(t));
    var b1 := b.With(i, b.clients[i].(armed := true)).Log(Run(t));
    var b2 := if a.duringStop then Stop(b1, false) else b1;
    if a.outcome.Finished? { CompleteOutcome(b2, i, a.outcome.Text(), a.outcome.Failed(), a, t); }
  }

  lemma HeldBackOutcome(b: Bridge, i: nat, a: Answers)
    requires i < |b.clients| && !Unhindered(b, a)
    ensures Leaves(b, Execute(b, i, a).0, i, b.clients[i].tool, false, false, a)
  {
    hide CountOf, Complete;
    var t := b.clients[i].tool;
    if !b.active || a.cancelled {
      CompleteOutcome(b, i, "error: ACP tool call cancelled", true, a, t);
    } else {
      var b1 := b.With(i, b.clients[i].(armed := true));
      var b2 := if a.startStop then Stop(b1, false) else b1;
      CountStep(b.log, Halted, Run(t));
      CompleteOutcome(b2, i, "error: extension stopped subagent", true, a, t);
    }
  }

  /** An approved call runs its body exactly when the turn is live and neither cancellation nor the start hook is in the way. */
  lemma ExecuteOutcome(b: Bridge, i: nat, a: Answers)
    requires i < |b.clients| && b.clients[i].pending
    ensures var runs := Unhindered(b, a);
      Leaves(b, Execute(b, i, a).0, i, b.clients[i].tool, runs, runs && a.outcome.Async?, a)
  {
    hide Execute, Leaves;
    if Unhindered(b, a) { BodyOutcome(b, i, a); } else { HeldBackOutcome(b, i, a); }
  }

  lemma ApprovedOutcome(b: Bridge, i: nat, a: Answers)
    requires i < |b.clients| && b.clients[i].pending
    ensures var runs := Unhindered(b, a);
      Leaves(b, Approved(b, i, a).0, i, b.clients[i].tool, runs, runs && a.outcome.Async?, a)
  {
    hide CountOf, Execute;
    var t := b.clients[i].tool;
    CountStep(b.log, Approve(t), Run(t));
    ExecuteOutcome(b.Log(Approve(t)), i, a);
  }

  lemma DeniedOutcome(b: Bridge, i: nat, a: Answers)
    requires i < |b.clients|
    ensures Leaves(b.(blocked := true), Denied(b, i, a).0, i, b.clients[i].tool, false, false, a)
  {
    hide CountOf, Complete;
    var t := b.clients[i].tool;
    CountStep(b.log, Refuse(t), Run(t));
    CompleteOutcome(b.(blocked := true).Log(Refuse(t)), i, "error: permission denied", true, a, t);
  }

  /** What the verdict, the permission hook, the prompt and the owner's queue make of a recorded call. */
  ghost predicate Decided(b: Bridge, r: Bridge, i: nat, a: Answers)
    requires i < |b.clients| == |r.clients|
  {
    var runs := GoesAhead(a) && Unhindered(b, a);
    && CountOf(r.log, Run(b.clients[i].tool)) == CountOf(b.log, Run(b.clients[i].tool)) + (if runs then 1 else 0)
    && r.clients[i].pending == (IsParked(a) || (runs && a.outcome.Async?))
    && (r.clients[i].pending ==> r.clients[i].permission == IsParked(a))
    && r.active == (b.active && (r.clients[i].pending || (!a.postStop && !a.batchStop)))
    && r.blocked == (b.blocked || IsRefused(a))
    && (a.verdict == Ask && a.permissionStop ==> r.stop)
  }

  lemma PermitBranches(b: Bridge, i: nat, a: Answers)
    requires i < |b.clients| && Reaches(a) && a.verdict == Ask
    ensures var p := Permit(b, i, a); var stopped, ahead, refused, parked := a.permissionStop, GoesAhead(a), IsRefused(a), IsParked(a);
      && (stopped ==> p == Complete(Stop(b, false), i, "error: extension stopped tool call", true, a))
      && (ahead ==> p == Approved(b, i, a)) && (refused ==> p == Denied(b, i, a))
      && (parked ==> p == (b.With(i, b.clients[i].(permission := true)), true))
      && (stopped || ahead || refused || parked)
      && !(stopped && (ahead || refused || parked)) && !(ahead && (refused || parked)) && !(refused && parked)
  {
    hide Reaches, Approved, Denied, Complete, Stop;
    match a.permission {
      case HookAllow =>
      case HookDeny =>
      case Undecided =>
        match a.prompt {
          case None =>
          case Some(AllowOnce) =>
          case Some(AllowAlways) =>
          case Some(DenyCall) =>
        }
    }
  }

  lemma PermitOutcome(b: Bridge, i: nat, a: Answers)
    requires i < |b.clients| && b.clients[i].pending && !b.clients[i].permission && Reaches(a) && a.verdict == Ask
    ensures Decided(b, Permit(b, i, a).0, i, a)
  {
    hide CountOf, Complete, Approved, Denied, Reaches, Unhindered, Permit, GoesAhead, IsRefused, IsParked;
    PermitBranches(b, i, a);
    var t := b.clients[i].tool;
    if a.permissionStop {
      CountStep(b.log, Halted, Run(t));
      CompleteOutcome(Stop(b, false), i, "error: extension stopped tool call", true, a, t);
    } else if GoesAhead(a) {
      ApprovedOutcome(b, i, a);
    } else if IsRefused(a) {
      DeniedOutcome(b, i, a);
    }
  }

  lemma JudgedOutcome(b: Bridge, i: nat, a: Answers)
    requires i < |b.clients| && b.clients[i].pending && !b.clients[i].permission && Reaches(a)
    ensures Decided(b, Judged(b, i, a).0, i, a)
  {
    hide CountOf, Execute, Denied, Permit, Reaches;
    var t := b.clients[i].tool;
    var b1 := b.Log(Judge(t, a.verdict));
    CountStep(b.log, Judge(t, a.verdict), Run(t));
    match a.verdict
    case Deny => DeniedOutcome(b1, i, a);
    case Allow => ExecuteOutcome(b1, i, a);
    case Ask => PermitOutcome(b1, i, a);
  }

  /**
   * The whole decision on a well-formed `tools/call` of an idle connection: exactly when its body runs, exactly when
   * it waits for the owner, and how it leaves the turn. A stop from the pre-tool hook ends the turn; a stop from the
   * permission hook is requested but leaves the turn active.
   */
  lemma AdmissionOutcome(b: Bridge, i: nat, id: string, a: Answers)
    requires i < |b.clients| && !b.clients[i].permission
    ensures var r := Admission(b, i, id, a).0; var t := b.sequence + 1; var runs := GoesAhead(a) && Unhindered(b, a);
      && CountOf(r.log, Run(t)) == CountOf(b.log, Run(t)) + (if runs then 1 else 0)
      && r.clients[i].pending == (IsParked(a) || (runs && a.outcome.Async?))
      && (r.clients[i].pending ==> r.clients[i].permission == IsParked(a))
      && r.active == (b.active && !a.preStop && (r.clients[i].pending || (!a.postStop && !a.batchStop)))
      && r.blocked == (b.blocked || IsRefused(a))
      && (a.preStop || (Reaches(a) && a.verdict == Ask && a.permissionStop) ==> r.stop)
  {
    hide CountOf, Judged, GoesAhead, IsRefused, IsParked, Unhindered;
    if !Reaches(a) {
      hide Admission, Reaches;
      NothingWithoutReach(a);
      EarlyOutcome(b, i, id, a);
    } else {
      var t := b.sequence + 1;
      var b1 := Admitted(b, i, id);
      var b2 := Recorded(b1, i);
      CountStep(b.log, Admit(t), Run(t));
      CountStep(b1.log, Record(t), Run(t));
      assert Admission(b, i, id, a) == Judged(b2, i, a);
      JudgedOutcome(b2, i, a);
      assert Unhindered(b2, a) == Unhindered(b, a) by { SameHindrance(b, b2, a); }
    }
  }

  lemma SameHindrance(b: Bridge, b': Bridge, a: Answers)
    requires b'.active == b.active && b'.stop == b.stop
    ensures Unhindered(b', a) == Unhindered(b, a)
  {
  }

  /** A call turned back before its verdict ends without running and without blocking the turn. */
  lemma EarlyOutcome(b: Bridge, i: nat, id: string, a: Answers)
    requires i < |b.clients| && !Reaches(a)
    ensures var r := Admission(b, i, id, a).0; var t := b.sequence + 1;
      && CountOf(r.log, Run(t)) == CountOf(b.log, Run(t)) && !r.clients[i].pending
      && r.active == (b.active && !a.preStop && !a.postStop && !a.batchStop)
      && r.blocked == b.blocked && (a.preStop ==> r.stop)
  {
    hide CountOf, Complete;
    var t := b.sequence + 1;
    var b1 := Admitted(b, i, id);
    CountStep(b.log, Admit(t), Run(t));
    if a.preStop || a.preDeny {
      CompleteOutcome(b1, i, "error: extension refused tool call", true, a, t);
      CountStep(Complete(b1, i, "error: extension refused tool call", true, a).0.log, Halted, Run(t));
    } else if !a.prepared {
      CompleteOutcome(b1, i, a.prepareError.GetOr("error: invalid tool arguments"), true, a, t);
    } else {
      CountStep(b1.log, Record(t), Run(t));
      CompleteOutcome(Recorded(b1, i), i, "error: could not persist admitted tool call", true, a, t);
    }
  }

  lemma NothingWithoutReach(a: Answers)
    requires !Reaches(a)
    ensures !GoesAhead(a) && !IsRefused(a) && !IsParked(a)
  {
  }

  /** The owner's answer to a parked call: it runs exactly when approved while the turn is still live. */
  lemma OwnerOutcome(b: Bridge, tool: nat, d: Decision, a: Answers)
    requires b.Shaped() && ParkedSlot(b, tool, 0) < |b.clients|
    ensures var r := Step(b, Owner(tool, d, a)); var runs := d != DenyCall && Unhindered(b, a);
      && CountOf(r.log, Run(tool)) == CountOf(b.log, Run(tool)) + (if runs then 1 else 0)
      && r.blocked == (b.blocked || d == DenyCall)
      && !(r.clients[ParkedSlot(b, tool, 0)].pending && r.clients[ParkedSlot(b, tool, 0)].permission)
  {
    hide CountOf, Approved, Denied;
    var i := ParkedSlot(b, tool, 0);
    var b1 := b.With(i, b.clients[i].(permission := false));
    if d == DenyCall { DeniedOutcome(b1, i, a); } else { ApprovedOutcome(b1, i, a); }
  }

  /** A parked call never times out: no tick can end it, whatever the clock says. */
  lemma ParkedNeverTimesOut(b: Bridge, i: nat, t: Tick, a: Answers)
    requires i < |b.clients| && b.clients[i].pending && b.clients[i].permission
    ensures Settle(b, i, t, a) == (b, true)
    ensures var r := Polled(b, i, t, a); r.1 ==> r.0.clients[i].pending && r.0.clients[i].permission && r.0.log == b.log
  {
  }

  lemma PollStep(b: Bridge, i: nat, t: Tick, a: Answers)
    requires b.Shaped() && i < |b.clients| && b.clients[i].open
    ensures Step(b, Poll(i, t, a)) == CloseUnless(Polled(b, i, t, a), i)
  {
    hide Polled;
  }

  lemma PolledEnds(b: Bridge, i: nat, t: Tick, a: Answers)
    requires i < |b.clients| && t.expired
    requires b.clients[i].pending && !b.clients[i].permission && b.clients[i].armed
    ensures !CloseUnless(Polled(b, i, t, a), i).clients[i].pending
  {
    hide Complete;
    if t.finished.Some? {
      CompleteEffect(b, i, t.finished.value.0, t.finished.value.1, a);
    } else {
      CompleteEffect(b, i, "error: ACP tool call timed out", true, a);
    }
  }

  /** A call that is running has its deadline set, and the first tick past it ends the call. */
  lemma RunningCallTimesOut(inputs: seq<Input>, i: nat, t: Tick, a: Answers)
    requires i < BRIDGE_CLIENTS && t.expired
    requires var c := After(inputs).clients[i]; c.pending && !c.permission
    ensures !Step(After(inputs), Poll(i, t, a)).clients[i].pending
  {
    hide Step, Complete, Flush, LogOk, LifeOf, Line, Lines, IdsOf;
    ReachableInv(inputs);
    var b := After(inputs);
    assert ClientOk(b.clients[i]) && CallOk(b, b.clients[i]);
    PolledEnds(b, i, t, a);
    assert Step(b, Poll(i, t, a)) == CloseUnless(Polled(b, i, t, a), i) by { PollStep(b, i, t, a); }
  }

  // ---- The end of a turn -----------------------------------------------------------------

  predicate NonePending(b: Bridge) {
    forall j :: 0 <= j < |b.clients| ==> !b.clients[j].pending
  }

  lemma IdleRespond(b: Bridge, i: nat, r: Reply)
    requires i < |b.clients| && !b.active && NonePending(b)
    ensures !Respond(b, i, r).0.active && NonePending(Respond(b, i, r).0)
  {
    hide Line;
  }

  lemma IdleHandle(b: Bridge, i: nat, m: Message, a: Answers)
    requires i < |b.clients| && !b.active && NonePending(b)
    ensures var r := Handle(b, i, m, a); !r.0.active && NonePending(r.0)
  {
    hide Respond, Complete, Admission;
    match m
    case Malformed =>
    case Notification(_, _) =>
    case Request(id, _, _, _) =>
      var b1 := Asked(b, i, id);
      var b2 := b1.With(i, b1.clients[i].(initialized := true));
      assert NonePending(b1) && NonePending(b2);
      forall r: Reply ensures !Respond(b1, i, r).0.active && NonePending(Respond(b1, i, r).0)
        && !Respond(b2, i, r).0.active && NonePending(Respond(b2, i, r).0)
      {
        IdleRespond(b1, i, r);
        IdleRespond(b2, i, r);
      }
  }

  lemma IdlePolled(b: Bridge, i: nat, t: Tick, a: Answers)
    requires i < |b.clients| && !b.active && NonePending(b)
    ensures var r := Polled(b, i, t, a); !r.0.active && NonePending(r.0)
  {
    hide Complete;
  }

  lemma IdleStep(b: Bridge, input: Input)
    requires b.Shaped() && !b.active && NonePending(b) && !input.BeginTurn?
    ensures !Step(b, input).active && NonePending(Step(b, input))
  {
    hide Handle, Polled, Denied, Approved, EndCalls;
    match input
    case Deliver(i, m, a) => if i < |b.clients| && b.clients[i].open { IdleHandle(b, i, m, a); }
    case Poll(i, t, a) => if i < |b.clients| && b.clients[i].open { IdlePolled(b, i, t, a); }
    case EndTurn(each) => IdleEndCalls(b.(active := false).Log(Halted), 0, each);
    case _ =>
  }

  lemma IdleEndCalls(b: Bridge, i: nat, each: nat -> Answers)
    requires i <= |b.clients| && NonePending(b)
    ensures EndCalls(b, i, each) == b
    decreases |b.clients| - i
  {
    if i < |b.clients| { IdleEndCalls(b, i + 1, each); }
  }

  lemma {:induction false} EndCallsStayInactive(b: Bridge, i: nat, each: nat -> Answers)
    requires i <= |b.clients| && !b.active
    ensures !EndCalls(b, i, each).active
    decreases |b.clients| - i
  {
    hide Complete;
    if i < |b.clients| {
      if b.clients[i].pending {
        CompleteEffect(b, i, "error: owning ACP turn ended", true, each(i));
        EndCallsStayInactive(CloseUnless(Complete(b, i, "error: owning ACP turn ended", true, each(i)), i), i + 1, each);
      } else {
        EndCallsStayInactive(b, i + 1, each);
      }
    }
  }

  /** Once a turn has ended no connection has an outstanding call until the next turn begins. */
  lemma {:induction false} EndTurnClears(before: seq<Input>, each: nat -> Answers, later: seq<Input>)
    requires forall k :: 0 <= k < |later| ==> !later[k].BeginTurn?
    ensures var b := After(before + [EndTurn(each)] + later); !b.active && NonePending(b)
  {
    hide Step, Inv;
    var inputs := before + [EndTurn(each)] + later;
    if later == [] {
      assert inputs[..|inputs| - 1] == before;
      ReachableInv(before);
      EndTurnNow(After(before), each);
    } else {
      var n := |later| - 1;
      assert inputs[..|inputs| - 1] == before + [EndTurn(each)] + later[..n];
      EndTurnClears(before, each, later[..n]);
      IdleStep(After(before + [EndTurn(each)] + later[..n]), later[n]);
    }
  }

  lemma EndTurnNow(b: Bridge, each: nat -> Answers)
    requires Inv(b) && b.Shaped()
    ensures var b' := Step(b, EndTurn(each)); !b'.active && NonePending(b')
  {
    hide Inv, EndCalls;
    var b1 := b.(active := false).Log(Halted);
    TurnKeeps(b, b1, Halted);
    EndCallsKeeps(b1, 0, each);
    EndCallsStayInactive(b1, 0, each);
  }
}
