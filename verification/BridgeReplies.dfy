/** What each step of the bridge says and does on the connection: which reply a request or a call gets, and when. */
module BridgeReplies {
  import opened Common
  import opened BridgeModel
  import opened BridgeLaws
  import opened BridgeRuns

  // ---- The reply to a call ---------------------------------------------------------------

  const IS_ERROR := "{\"isError\":true"
  const IS_RESULT := "{\"isError\":false"

  /** Whether a call's result counts as an error: a replacement says so itself, otherwise the tool or the images do. */
  predicate Counts(isError: bool, a: Answers) {
    if a.replaced.Some? then a.replaced.value.1 else isError || a.imagesTooBig
  }

  /** The text the peer gets to see. */
  function Shown(text: string, a: Answers): string {
    if a.replaced.Some? then a.replaced.value.0
    else if a.imagesTooBig then "error: captured images exceed ACP MCP delivery limit (4 MiB total)"
    else text
  }

  /** What follows the flag in the body of a result: the text and, unless it is an error, the captured images. */
  function Content(text: string, isError: bool, a: Answers): string {
    var shown := ",\"content\":[{\"type\":\"text\",\"text\":" + a.render(Shown(text, a)) + "}";
    if Counts(isError, a) then shown + "]}" else shown + a.images + "]}"
  }

  /** The reply to a call that ends with this text: a result under the call's id, or the notice that it is too long. */
  function CallReply(id: string, text: string, isError: bool, a: Answers): Reply {
    var whole := if Counts(isError, a) then IS_ERROR + Content(text, isError, a) else IS_RESULT + Content(text, isError, a);
    Reply(id, false, if |whole| <= 8388608 then whole else
      IS_ERROR + ",\"content\":[{\"type\":\"text\",\"text\":\"error: ACP MCP tool result exceeds 8 MiB delivery limit\"}]}")
  }

  lemma FlagsDiffer(body: string)
    ensures !(IS_ERROR <= body && IS_RESULT <= body)
    ensures IS_ERROR <= OVERSIZE_BODY
  {
    assert IS_ERROR[11] == 't' && IS_RESULT[11] == 'f';
  }

  /** The peer is told of an error exactly when the result counts as one or is too long to deliver. */
  lemma ErrorsAreFlagged(id: string, text: string, isError: bool, a: Answers)
    ensures var r := CallReply(id, text, isError, a);
      var tooLong := (if Counts(isError, a) then 15 else 16) + |Content(text, isError, a)| > BRIDGE_BYTES;
      && r.id == id && !r.error
      && (IS_ERROR <= r.body <==> Counts(isError, a) || tooLong)
      && (IS_RESULT <= r.body <==> !Counts(isError, a) && !tooLong)
      && (!tooLong ==> r.body == (if Counts(isError, a) then IS_ERROR else IS_RESULT) + Content(text, isError, a))
    ensures a.replaced.None? && isError ==> IS_ERROR <= CallReply(id, text, isError, a).body
  {
    hide Content;
    FlagsDiffer(CallReply(id, text, isError, a).body);
    assert |IS_ERROR| == 15 && |IS_RESULT| == 16;
  }

  // ---- The reply on the wire -------------------------------------------------------------

  function After(text: string, prefix: string): Option<string> {
    if prefix <= text then Some(text[|prefix|..]) else None
  }

  /** What a peer reads in a line that answers the request it sent under this id: a result or an error, and its body. */
  function ReadLine(line: string, id: string): Option<Reply> {
    if |line| < 2 || line[|line| - 2..] != "}\n" then None
    else
      var text := line[..|line| - 2];
      match (After(text, "{\"jsonrpc\":\"2.0\",\"id\":" + id + ",\"result\":"), After(text, "{\"jsonrpc\":\"2.0\",\"id\":" + id + ",\"error\":"))
      case (Some(body), _) => Some(Reply(id, false, body))
      case (None, Some(body)) => Some(Reply(id, true, body))
      case _ => None
  }

  /** The peer reads every reply as it was meant: under its id, as a result or an error, with the whole body. */
  lemma LineReads(r: Reply)
    ensures ReadLine(Line(r), r.id) == Some(r)
  {
    var head := "{\"jsonrpc\":\"2.0\",\"id\":" + r.id;
    var result, error := head + ",\"result\":", head + ",\"error\":";
    var mine := if r.error then error else result;
    assert Line(r) == mine + r.body + "}\n" by { Pieces(head, r); }
    var text := mine + r.body;
    assert Line(r)[..|Line(r)| - 2] == text && Line(r)[|Line(r)| - 2..] == "}\n";
    assert text[|mine|..] == r.body && mine <= text;
    assert result[|head| + 2] == 'r' && error[|head| + 2] == 'e' && mine[|head| + 2] == text[|head| + 2];
    assert !(result <= text && error <= text);
  }

  lemma Pieces(head: string, r: Reply)
    ensures head + ",\"" + (if r.error then "error" else "result") + "\":" + r.body + "}\n" ==
      (if r.error then head + ",\"error\":" else head + ",\"result\":") + r.body + "}\n"
  {
    assert head + ",\"" + "error" + "\":" == head + ",\"error\":";
    assert head + ",\"" + "result" + "\":" == head + ",\"result\":";
  }

  /** An error reply carries its code and its message, in that order. */
  lemma ErrorReplyTells(id: string, code: string, message: string)
    ensures var r := ErrorReply(id, code, message);
      && r.id == id && r.error
      && "{\"code\":" + code + ",\"message\":\"" <= r.body
      && r.body[|"{\"code\":" + code + ",\"message\":\""|..] == message + "\"}"
  {
    var head := "{\"code\":" + code + ",\"message\":\"";
    assert ErrorReply(id, code, message).body == head + (message + "\"}");
  }

  predicate Fits(c: Client, r: Reply) {
    |c.output| + |Line(r)| <= BRIDGE_BYTES
  }

  /** A reply is queued whole exactly when it fits, and only then counts as given. */
  predicate Queued(c: Client, c': Client, r: Reply, ok: bool) {
    && ok == Fits(c, r)
    && c'.answered == c.answered + (if ok then [r] else [])
    && c'.output == c.output + (if ok then Line(r) else "")
    && c'.asked == c.asked && c'.sent == c.sent && c'.open == c.open && c'.readClosed == c.readClosed
    && c'.initialized == c.initialized
  }

  predicate OthersAlone(b: Bridge, b': Bridge, i: nat) {
    |b'.clients| == |b.clients| && forall j :: 0 <= j < |b.clients| && j != i ==> b'.clients[j] == b.clients[j]
  }

  lemma RespondQueues(b: Bridge, i: nat, r: Reply)
    requires i < |b.clients|
    ensures var (b', ok) := Respond(b, i, r);
      && Queued(b.clients[i], b'.clients[i], r, ok) && OthersAlone(b, b', i)
      && b' == b.With(i, b'.clients[i])
      && b'.clients[i] == b.clients[i].(answered := b'.clients[i].answered, output := b'.clients[i].output)
  {
    hide Line;
  }

  /** The call of connection `i` ends here with this text: its reply is queued if it fits, and no other connection is touched. */
  predicate EndsWith(b: Bridge, r: (Bridge, bool), i: nat, text: string, isError: bool, a: Answers)
    requires i < |b.clients| == |r.0.clients|
  {
    && Queued(b.clients[i], r.0.clients[i], CallReply(b.clients[i].id, text, isError, a), r.1)
    && OthersAlone(b, r.0, i) && !r.0.clients[i].pending
  }

  lemma Together(a: string, b: string, c: string, d: string, e: string, f: string)
    ensures a + b + c + d + e + f == a + (b + c + d + e + f) && b + c + d + "" + f == b + c + d + f
  {
  }

  lemma BodyIsReply(id: string, text: string, isError: bool, a: Answers)
    ensures Reply(id, false, ResultBody(text, isError, a)) == CallReply(id, text, isError, a)
  {
    FlagsSpelled();
    var flag := if Counts(isError, a) then IS_ERROR else IS_RESULT;
    Together(flag, ",\"content\":[{\"type\":\"text\",\"text\":", a.render(Shown(text, a)), "}", if Counts(isError, a) then "" else a.images, "]}");
  }

  lemma FlagsSpelled()
    ensures "{\"isError\":" + "true" == IS_ERROR && "{\"isError\":" + "false" == IS_RESULT
  {
  }

  lemma AnsweredQueues(b: Bridge, i: nat, body: string)
    requires i < |b.clients|
    ensures var (b', ok) := Answered(b, i, body);
      Queued(b.clients[i], b'.clients[i], Reply(b.clients[i].id, false, body), ok) && OthersAlone(b, b', i)
  {
    hide Line, Respond;
    RespondQueues(b, i, Reply(b.clients[i].id, false, body));
  }

  lemma CompleteTells(b: Bridge, i: nat, text: string, isError: bool, a: Answers)
    requires i < |b.clients|
    ensures EndsWith(b, Complete(b, i, text, isError, a), i, text, isError, a)
  {
    hide ResultBody, CallReply, Answered, Line, Fits;
    BodyIsReply(b.clients[i].id, text, isError, a);
    AnsweredQueues(if a.endStop then Stop(b, false) else b, i, ResultBody(text, isError, a));
  }

  /** How a call ends on its connection does not depend on the flags and the log it started from. */
  lemma EndsAlike(b: Bridge, b': Bridge, r: (Bridge, bool), i: nat, text: string, isError: bool, a: Answers)
    requires i < |b.clients| == |r.0.clients| && b'.clients == b.clients && EndsWith(b', r, i, text, isError, a)
    ensures EndsWith(b, r, i, text, isError, a)
  {
  }

  /** Nor on whether its deadline was set. */
  lemma EndsArmed(b: Bridge, b': Bridge, r: (Bridge, bool), i: nat, text: string, isError: bool, a: Answers)
    requires i < |b.clients| == |r.0.clients| && b'.clients == b.clients[i := b.clients[i].(armed := true)]
    requires EndsWith(b', r, i, text, isError, a)
    ensures EndsWith(b, r, i, text, isError, a)
  {
    hide CallReply, Line;
  }

  // ---- Which text a call ends with -------------------------------------------------------

  lemma DeniedTells(b: Bridge, i: nat, a: Answers)
    requires i < |b.clients|
    ensures EndsWith(b, Denied(b, i, a), i, "error: permission denied", true, a)
  {
    hide Complete, CallReply;
    CompleteTells(b.(blocked := true).Log(Refuse(b.clients[i].tool)), i, "error: permission denied", true, a);
  }

  /** How a tool's own text reports an error. */
  predicate SaysError(text: string) {
    |text| >= 6 && text[..6] == "error:"
  }

  /** An approved call ends with its tool's own result if its body ran to the end, or with why it could not run. */
  predicate Ran(b: Bridge, r: (Bridge, bool), i: nat, a: Answers)
    requires i < |b.clients| == |r.0.clients|
  {
    if !b.active || a.cancelled then EndsWith(b, r, i, "error: ACP tool call cancelled", true, a)
    else if b.stop || a.startStop then EndsWith(b, r, i, "error: extension stopped subagent", true, a)
    else if a.outcome == Finished(None) then EndsWith(b, r, i, "error: tool returned no result", true, a)
    else if a.outcome.Finished? then EndsWith(b, r, i, a.outcome.result.value, SaysError(a.outcome.result.value), a)
    else r.1 && r.0.clients[i].answered == b.clients[i].answered
  }

  lemma ExecuteTells(b: Bridge, i: nat, a: Answers)
    requires i < |b.clients|
    ensures Ran(b, Execute(b, i, a), i, a)
  {
    hide Complete, EndsWith;
    if !b.active || a.cancelled {
      CompleteTells(b, i, "error: ACP tool call cancelled", true, a);
    } else {
      var b1 := b.With(i, b.clients[i].(armed := true));
      var b2 := if a.startStop then Stop(b1, false) else b1;
      if b2.stop {
        CompleteTells(b2, i, "error: extension stopped subagent", true, a);
        EndsArmed(b, b2, Execute(b, i, a), i, "error: extension stopped subagent", true, a);
      } else if a.outcome.Finished? {
        var b3 := b2.Log(Run(b.clients[i].tool));
        var b4 := if a.duringStop then Stop(b3, false) else b3;
        CompleteTells(b4, i, a.outcome.Text(), a.outcome.Failed(), a);
        EndsArmed(b, b4, Execute(b, i, a), i, a.outcome.Text(), a.outcome.Failed(), a);
      }
    }
  }

  /** The call of connection `i`, admitted under this id, ends as `EndsWith` says. */
  predicate AdmittedEndsWith(b: Bridge, r: (Bridge, bool), i: nat, id: string, text: string, isError: bool, a: Answers)
    requires i < |b.clients| == |r.0.clients|
  {
    && Queued(b.clients[i], r.0.clients[i], CallReply(id, text, isError, a), r.1)
    && OthersAlone(b, r.0, i) && !r.0.clients[i].pending
  }

  lemma EarlyTells(b: Bridge, i: nat, id: string, a: Answers)
    requires i < |b.clients| && !Reaches(a)
    ensures var text := if a.preStop || a.preDeny then "error: extension refused tool call"
        else if !a.prepared then (if a.prepareError.Some? then a.prepareError.value else "error: invalid tool arguments")
        else "error: could not persist admitted tool call";
      AdmittedEndsWith(b, Admission(b, i, id, a), i, id, text, true, a)
  {
    hide Complete, CallReply, Line, Judged;
    var b1 := Admitted(b, i, id);
    if a.preStop || a.preDeny {
      CompleteTells(b1, i, "error: extension refused tool call", true, a);
    } else if !a.prepared {
      CompleteTells(b1, i, a.prepareError.GetOr("error: invalid tool arguments"), true, a);
    } else {
      CompleteTells(Recorded(b1, i), i, "error: could not persist admitted tool call", true, a);
    }
  }

  lemma ApprovedTells(b: Bridge, i: nat, a: Answers)
    requires i < |b.clients|
    ensures Ran(b, Approved(b, i, a), i, a)
  {
    hide Execute, EndsWith;
    var b1 := b.Log(Approve(b.clients[i].tool));
    ExecuteTells(b1, i, a);
    RanAlike(b, b1, Approved(b, i, a), i, a);
  }

  lemma RanAlike(b: Bridge, b': Bridge, r: (Bridge, bool), i: nat, a: Answers)
    requires i < |b.clients| == |r.0.clients| && b'.clients == b.clients && b'.active == b.active && b'.stop == b.stop
    requires Ran(b', r, i, a)
    ensures Ran(b, r, i, a)
  {
    hide CallReply;
  }

  /** What permission makes of a call that has reached its verdict. */
  predicate Settled(b: Bridge, r: (Bridge, bool), i: nat, a: Answers)
    requires i < |b.clients| == |r.0.clients|
  {
    && (IsRefused(a) ==> EndsWith(b, r, i, "error: permission denied", true, a))
    && (a.verdict == Ask && a.permissionStop ==> EndsWith(b, r, i, "error: extension stopped tool call", true, a))
    && (IsParked(a) ==> r.1 && r.0.clients[i].answered == b.clients[i].answered)
    && (GoesAhead(a) ==> Ran(b, r, i, a))
  }

  lemma PermitTells(b: Bridge, i: nat, a: Answers)
    requires i < |b.clients| && Reaches(a) && a.verdict == Ask
    ensures Settled(b, Permit(b, i, a), i, a)
  {
    hide Permit, GoesAhead, IsRefused, IsParked, Reaches, Approved, Denied, Complete, Ran, EndsWith;
    PermitBranches(b, i, a);
    if a.permissionStop {
      CompleteTells(Stop(b, false), i, "error: extension stopped tool call", true, a);
      EndsAlike(b, Stop(b, false), Permit(b, i, a), i, "error: extension stopped tool call", true, a);
    }
    DeniedTells(b, i, a);
    ApprovedTells(b, i, a);
  }

  lemma SettledAlike(b: Bridge, b': Bridge, r: (Bridge, bool), i: nat, a: Answers)
    requires i < |b.clients| == |r.0.clients| && b'.clients == b.clients && b'.active == b.active && b'.stop == b.stop
    requires Settled(b', r, i, a)
    ensures Settled(b, r, i, a)
  {
    hide GoesAhead, IsRefused, IsParked, CallReply;
  }

  lemma JudgedTells(b: Bridge, i: nat, a: Answers)
    requires i < |b.clients| && Reaches(a)
    ensures Settled(b, Judged(b, i, a), i, a)
  {
    hide Execute, Denied, Permit, Reaches, Ran, EndsWith;
    var b1 := b.Log(Judge(b.clients[i].tool, a.verdict));
    match a.verdict {
      case Deny => DeniedTells(b1, i, a);
      case Allow => ExecuteTells(b1, i, a);
      case Ask => PermitTells(b1, i, a);
    }
    SettledAlike(b, b1, Judged(b, i, a), i, a);
  }

  /**
   * Every way a fresh call can end at once, with the text its peer is shown: refused by an extension, by its arguments,
   * by the session or by permission, stopped, cancelled, or with its tool's own result.
   */
  lemma AdmissionTells(b: Bridge, i: nat, id: string, a: Answers)
    requires i < |b.clients|
    ensures var r := Admission(b, i, id, a); var runs := GoesAhead(a) && Unhindered(b, a);
      if IsParked(a) || (runs && a.outcome.Async?) then r.1 && r.0.clients[i].answered == b.clients[i].answered
      else
        AdmittedEndsWith(b, r, i, id,
          if a.preStop || a.preDeny then "error: extension refused tool call"
          else if !a.prepared then (if a.prepareError.Some? then a.prepareError.value else "error: invalid tool arguments")
          else if !a.saved then "error: could not persist admitted tool call"
          else if IsRefused(a) then "error: permission denied"
          else if a.verdict == Ask && a.permissionStop then "error: extension stopped tool call"
          else if runs then (if a.outcome.result.Some? then a.outcome.result.value else "error: tool returned no result")
          else if !b.active || a.cancelled then "error: ACP tool call cancelled"
          else "error: extension stopped subagent",
          !(runs && a.outcome.result.Some? && !SaysError(a.outcome.result.value)), a)
  {
    hide CallReply, Judged, GoesAhead, IsRefused, IsParked, Line, Complete;
    if !Reaches(a) {
      hide Admission;
      NothingWithoutReach(a);
      EarlyTells(b, i, id, a);
    } else {
      var b1 := Admitted(b, i, id);
      var b2 := Recorded(b1, i);
      assert Admission(b, i, id, a) == Judged(b2, i, a);
      JudgedTells(b2, i, a);
      OneWayOnly(b, a);
    }
  }

  /** A call that reaches its verdict goes exactly one way. */
  lemma OneWayOnly(b: Bridge, a: Answers)
    requires Reaches(a)
    ensures GoesAhead(a) || IsRefused(a) || IsParked(a) || (a.verdict == Ask && a.permissionStop)
    ensures !(GoesAhead(a) && IsRefused(a)) && !(GoesAhead(a) && IsParked(a)) && !(IsRefused(a) && IsParked(a))
    ensures a.verdict == Ask && a.permissionStop ==> !GoesAhead(a) && !IsRefused(a) && !IsParked(a)
    ensures GoesAhead(a) && Unhindered(b, a) && !a.outcome.Finished? ==> a.outcome.Async?
  {
    hide Reaches;
    match a.verdict {
      case Allow =>
      case Deny =>
      case Ask => PermitBranches(b.(clients := [BLANK]), 0, a);
    }
  }

  /** A poll delivers the result of a running call, or ends it past its deadline; a parked or idle connection is left alone. */
  lemma TickTells(b: Bridge, i: nat, t: Tick, a: Answers)
    requires i < |b.clients|
    ensures var c := b.clients[i]; var r := Settle(b, i, t, a);
      if !c.pending || c.permission then r == (b, true)
      else if t.finished.Some? then EndsWith(b, r, i, t.finished.value.0, t.finished.value.1, a)
      else if c.armed && t.expired then EndsWith(b, r, i, "error: ACP tool call timed out", true, a)
      else r == (b, true)
  {
    hide Complete, CallReply, Line;
    if t.finished.Some? { CompleteTells(b, i, t.finished.value.0, t.finished.value.1, a); }
    CompleteTells(b, i, "error: ACP tool call timed out", true, a);
  }

  /** A cancellation that names the outstanding call ends it, with one error reply under its id or a connection to close. */
  lemma CancellationEndsCall(b: Bridge, i: nat, id: string, a: Answers)
    requires i < |b.clients| && b.clients[i].pending
    ensures var r := Handle(b, i, Notification("notifications/cancelled", Some(id)), a);
      if id == b.clients[i].id then EndsWith(b, r, i, "error: MCP tool call cancelled", true, a)
      else r == (b, true)
  {
    hide Complete, CallReply, Line;
    CompleteTells(b, i, "error: MCP tool call cancelled", true, a);
  }

  /** The owner's answer to a parked call, as its peer sees it. */
  lemma OwnerTells(b: Bridge, i: nat, d: Decision, a: Answers)
    requires i < |b.clients|
    ensures var b1 := b.With(i, b.clients[i].(permission := false));
      var r := if d == DenyCall then Denied(b1, i, a) else Approved(b1, i, a);
      if d == DenyCall then EndsWith(b, r, i, "error: permission denied", true, a) else Ran(b, r, i, a)
  {
    hide Execute, Denied, CallReply, Line, Approved;
    var b1 := b.With(i, b.clients[i].(permission := false));
    DeniedTells(b1, i, a);
    ApprovedTells(b1, i, a);
  }

  /** What the end of a turn does to one connection: an outstanding call is told so, or its connection is closed. */
  predicate TurnEnded(c: Client, c': Client, a: Answers) {
    if !c.pending then c' == c
    else
      var reply := CallReply(c.id, "error: owning ACP turn ended", true, a);
      if Fits(c, reply) then Queued(c, c', reply, true) && !c'.pending else c' == BLANK
  }

  lemma {:induction false} EndCallsTell(b: Bridge, i: nat, each: nat -> Answers)
    requires i <= |b.clients|
    ensures var r := EndCalls(b, i, each);
      && |r.clients| == |b.clients|
      && (forall j :: 0 <= j < i ==> r.clients[j] == b.clients[j])
      && (forall j :: i <= j < |b.clients| ==> TurnEnded(b.clients[j], r.clients[j], each(j)))
    decreases |b.clients| - i
  {
    hide Complete, TurnEnded, CallReply, Line;
    if i < |b.clients| {
      if b.clients[i].pending {
        var r := Complete(b, i, "error: owning ACP turn ended", true, each(i));
        CompleteTells(b, i, "error: owning ACP turn ended", true, each(i));
        EndCallsTell(CloseUnless(r, i), i + 1, each);
        assert TurnEnded(b.clients[i], CloseUnless(r, i).clients[i], each(i)) by { EndedOne(b, r, i, each(i)); }
      } else {
        EndCallsTell(b, i + 1, each);
        assert TurnEnded(b.clients[i], b.clients[i], each(i)) by { NotEnded(b.clients[i], each(i)); }
      }
    }
  }

  lemma EndedOne(b: Bridge, r: (Bridge, bool), i: nat, a: Answers)
    requires i < |b.clients| == |r.0.clients| && b.clients[i].pending
    requires EndsWith(b, r, i, "error: owning ACP turn ended", true, a)
    ensures TurnEnded(b.clients[i], CloseUnless(r, i).clients[i], a)
  {
    hide CallReply, Line;
  }

  lemma NotEnded(c: Client, a: Answers)
    requires !c.pending
    ensures TurnEnded(c, c, a)
  {
  }

  /** The end of a turn tells every outstanding call, in every slot, and touches nothing else. */
  lemma EndTurnTells(b: Bridge, each: nat -> Answers)
    requires b.Shaped()
    ensures var b' := Step(b, EndTurn(each));
      forall j :: 0 <= j < BRIDGE_CLIENTS ==> TurnEnded(b.clients[j], b'.clients[j], each(j))
  {
    hide TurnEnded, EndCalls;
    EndCallsTell(b.(active := false).Log(Halted), 0, each);
  }

  // ---- What the session and the turn keep of a call --------------------------------------

  /** The session gets a call's result exactly when its reply was queued, the call is on record and a session owns the turn. */
  lemma SessionHears(b: Bridge, i: nat, text: string, isError: bool, a: Answers)
    requires i < |b.clients|
    ensures var r := Complete(b, i, text, isError, a); var c := b.clients[i];
      CountOf(r.0.log, Answer(c.tool)) == CountOf(b.log, Answer(c.tool)) + (if r.1 && c.recorded && b.owned then 1 else 0)
  {
    hide CountOf, ResultBody, Respond, Line;
    var t := b.clients[i].tool;
    var b1 := if a.endStop then Stop(b, false) else b;
    CountStep(b.log, Halted, Answer(t));
    var body := ResultBody(text, isError, a);
    RespondQueues(b1, i, Reply(b.clients[i].id, false, body));
    CountStep(b1.log, Answer(t), Answer(t));
    CountStep(Answered(b1, i, body).0.log, Halted, Answer(t));
  }

  /** A call is put on record, once, exactly when hooks and preparation let it through. */
  lemma SessionRecords(b: Bridge, i: nat, id: string, a: Answers)
    requires i < |b.clients|
    ensures var b1 := Admitted(b, i, id); var b2 := Recorded(b1, i); var t := b.sequence + 1;
      && b1.clients[i].tool == t && b1.clients[i].id == id && b1.clients[i].pending && b1.sequence == t
      && CountOf(b2.log, Record(t)) == CountOf(b.log, Record(t)) + 1 && b2.clients[i].recorded
      && CountOf(b1.log, Record(t)) == CountOf(b.log, Record(t))
    ensures !a.preStop && !a.preDeny && a.prepared && a.saved ==>
      Admission(b, i, id, a) == Judged(Recorded(Admitted(b, i, id), i), i, a)
  {
    hide CountOf, Complete, Judged;
    var t := b.sequence + 1;
    CountStep(b.log, Admit(t), Record(t));
    CountStep(Admitted(b, i, id).log, Record(t), Record(t));
  }

  /** When running an approved call leaves the turn with a stop requested: because a hook asked for one on the way. */
  lemma ExecuteStops(b: Bridge, i: nat, a: Answers)
    requires i < |b.clients|
    ensures var r := Execute(b, i, a).0; var ended := !Unhindered(b, a) || a.outcome.Finished?;
      r.stop == (b.stop || (b.active && !a.cancelled && (a.startStop || (!b.stop && a.duringStop)))
                 || (ended && (a.endStop || a.postStop || a.batchStop)))
  {
    hide Complete;
    var t := b.clients[i].tool;
    if !b.active || a.cancelled {
      CompleteOutcome(b, i, "error: ACP tool call cancelled", true, a, t);
    } else {
      var b1 := b.With(i, b.clients[i].(armed := true));
      var b2 := if a.startStop then Stop(b1, false) else b1;
      if b2.stop {
        CompleteOutcome(b2, i, "error: extension stopped subagent", true, a, t);
      } else {
        var b3 := b2.Log(Run(t));
        var b4 := if a.duringStop then Stop(b3, false) else b3;
        if a.outcome.Finished? { CompleteOutcome(b4, i, a.outcome.Text(), a.outcome.Failed(), a, t); }
      }
    }
  }

  // ---- The reply to any other request ----------------------------------------------------

  /** Which reply a request gets that is no tool call, or comes too early to be one. */
  function PlainReply(initialized: bool, m: Message, a: Answers): Reply
    requires m.Request?
  {
    if m.verb == "initialize" then
      Reply(m.id, false, "{\"protocolVersion\":\"2024-11-05\",\"capabilities\":{\"tools\":{}},\"serverInfo\":{\"name\":\"tny\",\"version\":\"1\"}}")
    else if !initialized then ErrorReply(m.id, "-32000", "initialize first")
    else if m.verb == "ping" then Reply(m.id, false, "{}")
    else if m.verb != "tools/list" then ErrorReply(m.id, "-32601", "method not found")
    else if a.schema.Some? then Reply(m.id, false, a.schema.value)
    else ErrorReply(m.id, "-32603", "could not build tools schema")
  }

  /** A connection that has been asked once more, and perhaps initialized. */
  function Heard(c: Client, m: Message): Client
    requires m.Request?
  {
    c.(asked := c.asked + [m.id], initialized := c.initialized || m.verb == "initialize")
  }

  /** The connection once a reply was queued, if it fits. */
  function Given(c: Client, r: Reply): Client {
    if Fits(c, r) then c.(answered := c.answered + [r], output := c.output + Line(r)) else c
  }

  lemma RespondGives(b: Bridge, i: nat, r: Reply)
    requires i < |b.clients|
    ensures Respond(b, i, r) == (b.With(i, Given(b.clients[i], r)), Fits(b.clients[i], r))
  {
    hide Line;
    assert b.clients[i := b.clients[i]] == b.clients;
  }

  lemma HandleReplies(b: Bridge, i: nat, m: Message, a: Answers)
    requires i < |b.clients| && m.Request? && !(b.clients[i].initialized && m.verb == "tools/call")
    ensures Handle(b, i, m, a) == Respond(b.With(i, Heard(b.clients[i], m)), i, PlainReply(b.clients[i].initialized, m, a))
  {
    hide Line, Complete, CallTool, ErrorReply, Respond;
    var c := b.clients[i];
    var b1 := Asked(b, i, m.id);
    if m.verb == "initialize" {
      assert b1.With(i, b1.clients[i].(initialized := true)).clients == b.clients[i := Heard(c, m)];
    } else {
      assert b1.clients[i] == Heard(c, m);
    }
  }

  /**
   * Every request that is not an initialized connection's `tools/call` gets that one reply if it fits, is noted as asked,
   * and changes nothing but that connection; `initialize` is what initializes it.
   */
  lemma RequestTells(b: Bridge, i: nat, m: Message, a: Answers)
    requires i < |b.clients| && m.Request? && !(b.clients[i].initialized && m.verb == "tools/call")
    ensures var heard := Heard(b.clients[i], m); var reply := PlainReply(b.clients[i].initialized, m, a);
      Handle(b, i, m, a) == (b.With(i, Given(heard, reply)), Fits(heard, reply))
  {
    hide Line, PlainReply, Handle, Respond, Heard, Given, Fits;
    var heard, reply := Heard(b.clients[i], m), PlainReply(b.clients[i].initialized, m, a);
    HandleReplies(b, i, m, a);
    RespondGives(b.With(i, heard), i, reply);
    assert b.With(i, heard).clients[i := Given(heard, reply)] == b.clients[i := Given(heard, reply)];
  }

  /** A malformed message closes the connection; a notification that names no outstanding call is ignored. */
  lemma OtherMessagesTell(b: Bridge, i: nat, m: Message, a: Answers)
    requires i < |b.clients| && !m.Request?
    ensures var c := b.clients[i]; var r := Handle(b, i, m, a);
      && (m.Malformed? ==> r == (b, false))
      && (m.Notification? && !(m.verb == "notifications/cancelled" && c.pending && m.cancels == Some(c.id)) ==> r == (b, true))
  {
    hide Complete;
  }

  /** An initialized connection's `tools/call` is noted as asked and handed on. */
  lemma CallIsHandedOn(b: Bridge, i: nat, m: Message, a: Answers)
    requires i < |b.clients| && m.Request? && b.clients[i].initialized && m.verb == "tools/call"
    ensures Handle(b, i, m, a) == CallTool(b.With(i, b.clients[i].(asked := b.clients[i].asked + [m.id])), i, m, a)
  {
    hide CallTool, Respond, ErrorReply, Complete;
    var b1 := Asked(b, i, m.id);
    assert b1.clients[i].initialized;
  }

  /** Which error turns a `tools/call` away, the first that applies. */
  lemma RefusedCallTells(b: Bridge, i: nat, m: Message, a: Answers)
    requires i < |b.clients| && m.Request?
    ensures var c := b.clients[i];
      var noTurn, busy, badForm := !b.active || !b.owned, c.pending, m.name in {None, Some("")} || m.arguments.BadArguments?;
      var reply :=
        if noTurn then ErrorReply(m.id, "-32000", "tny tool calls require an active owning turn")
        else if busy then ErrorReply(m.id, "-32000", "one outstanding tool call per connection")
        else if badForm then ErrorReply(m.id, "-32602", "expected tool name and object arguments")
        else ErrorReply(m.id, "-32602", "only run_code is exposed; use tools.call inside Python");
      noTurn || busy || badForm || m.name != Some("run_code") ==>
        CallTool(b, i, m, a) == (b.With(i, Given(c, reply)), Fits(c, reply))
  {
    hide Admission, Respond, ErrorReply, Given, Fits;
    if Refusal(b, i, m).Some? { RespondGives(b, i, Refusal(b, i, m).value); }
  }

  // ---- Connections and turns -------------------------------------------------------------

  /** How much a tick writes of what waits. */
  function Takes(c: Client, t: Tick): (n: nat)
    ensures n <= |c.output|
  {
    if t.broken then 0 else if t.written < |c.output| then t.written else |c.output|
  }

  /** The connection once `n` of its waiting bytes have gone out. */
  function Drained(c: Client, n: nat): Client
    requires n <= |c.output|
  {
    c.(sent := c.sent + c.output[..n], output := c.output[n..])
  }

  lemma NothingDrained(b: Bridge, i: nat)
    requires i < |b.clients|
    ensures b.With(i, Drained(b.clients[i], 0)) == b
  {
    var c := b.clients[i];
    assert c.output[..0] == "" && c.sent + "" == c.sent && c.output[0..] == c.output;
    assert b.clients[i := c] == b.clients;
  }

  /** A tick writes as much of what waits as the socket takes, and asks for the close exactly when nothing can follow. */
  lemma FlushTells(b: Bridge, i: nat, t: Tick)
    requires i < |b.clients|
    ensures var c := b.clients[i]; var (b', ok) := Flush(b, i, t); var n := Takes(c, t);
      && b' == b.With(i, Drained(c, n))
      && (!ok <==> (c.output != "" && t.broken) || (c.readClosed && !c.pending && n == |c.output|))
  {
    NothingDrained(b, i);
    assert b.clients[i].output == "" ==> Takes(b.clients[i], t) == 0;
    hide Bridge.With;
  }

  /** A call is found by its number whenever it is parked, in the first such slot. */
  lemma {:induction false} ParkedIsFound(b: Bridge, tool: nat, i: nat, k: nat)
    requires i <= k < |b.clients| && b.clients[k].pending && b.clients[k].permission && b.clients[k].tool == tool
    ensures ParkedSlot(b, tool, i) <= k
    decreases k - i
  {
    if i < k { ParkedIsFound(b, tool, i + 1, k); }
  }

  lemma {:induction false} FreeIsFound(b: Bridge, i: nat, k: nat)
    requires i <= k < |b.clients| && !b.clients[k].open
    ensures FreeSlot(b, i) <= k
    decreases k - i
  {
    if i < k { FreeIsFound(b, i + 1, k); }
  }

  /** A new connection takes the lowest free slot, and is refused only when all four are taken. */
  lemma AcceptTells(b: Bridge)
    requires b.Shaped()
    ensures var b' := Step(b, Accept);
      if forall k :: 0 <= k < BRIDGE_CLIENTS ==> b.clients[k].open then b' == b
      else exists k: nat :: k < BRIDGE_CLIENTS && !b.clients[k].open && (forall j :: 0 <= j < k ==> b.clients[j].open)
             && b' == b.With(k, b.clients[k].(open := true))
  {
    var slot := FreeSlot(b, 0);
    forall j | 0 <= j < slot ensures b.clients[j].open {
      if !b.clients[j].open { FreeIsFound(b, 0, j); }
    }
    if slot < BRIDGE_CLIENTS { assert !b.clients[slot].open; }
  }

  /** The owner's answer reaches a parked call with that number if there is one, and otherwise changes nothing. */
  lemma OwnerReaches(b: Bridge, tool: nat, d: Decision, a: Answers)
    requires b.Shaped()
    ensures ParkedSlot(b, tool, 0) < BRIDGE_CLIENTS <==>
      exists k :: 0 <= k < BRIDGE_CLIENTS && b.clients[k].pending && b.clients[k].permission && b.clients[k].tool == tool
    ensures ParkedSlot(b, tool, 0) == BRIDGE_CLIENTS ==> Step(b, Owner(tool, d, a)) == b
  {
    hide Denied, Approved;
    if exists k :: 0 <= k < BRIDGE_CLIENTS && b.clients[k].pending && b.clients[k].permission && b.clients[k].tool == tool {
      var k :| 0 <= k < BRIDGE_CLIENTS && b.clients[k].pending && b.clients[k].permission && b.clients[k].tool == tool;
      ParkedIsFound(b, tool, 0, k);
    }
  }

  /** Binding says whether a session owns the turns; a turn begins live and unblocked; an abort ends it and forgets every call without a word. */
  lemma TurnTells(b: Bridge)
    requires b.Shaped()
    ensures forall owned :: var b' := Step(b, Bind(owned));
      b'.owned == owned && b'.active == b.active && b'.stop == b.stop && b'.sequence == b.sequence && b'.clients == b.clients
    ensures var b' := Step(b, BeginTurn);
      b'.active && !b'.stop && !b'.blocked && b'.owned == b.owned && b'.sequence == b.sequence && b'.clients == b.clients
    ensures var b' := Step(b, Abort);
      && !b'.active && b'.stop == b.stop && b'.sequence == b.sequence
      && forall j :: 0 <= j < BRIDGE_CLIENTS ==>
           var c, c' := b.clients[j], b'.clients[j];
           && !c'.pending && !c'.permission && c'.output == c.output && c'.answered == c.answered && c'.asked == c.asked
           && c'.open == c.open && c'.sent == c.sent && c'.initialized == c.initialized && c'.readClosed == c.readClosed
           && c'.aborted == (c.aborted || (c.open && c.pending))
  {
  }

  /** A connection whose input ends inside a line is closed; otherwise it stays for what is still owed to it. */
  lemma EndOfInputTells(b: Bridge, i: nat, partial: bool)
    requires b.Shaped() && i < BRIDGE_CLIENTS && b.clients[i].open
    ensures var b' := Step(b, EndOfInput(i, partial));
      && b' == b.With(i, b'.clients[i])
      && b'.clients[i] == (if partial then BLANK else b.clients[i].(readClosed := true))
  {
  }
}
