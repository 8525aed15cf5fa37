/** The bridge as the program keeps it: flags, a call counter and a fixed array of connection records, updated in place. */
module BridgeService {
  import opened Common
  import opened BridgeModel

  class AcpBridge {
    var active: bool
    var stopRequested: bool
    var permissionBlocked: bool
    var owned: bool
    var sequence: nat
    const clients: array<Client>
    ghost var log: seq<Event>

    ghost predicate Valid()
      reads this
    {
      clients.Length == BRIDGE_CLIENTS
    }

    ghost function View(): (b: Bridge)
      reads this, clients
      requires Valid()
      ensures b.Shaped()
    {
      Bridge(active, stopRequested, permissionBlocked, owned, sequence, clients[..], log)
    }

    constructor ()
      ensures Valid() && fresh(clients)
      ensures View() == Bridge(false, false, false, false, 0, [BLANK, BLANK, BLANK, BLANK], [])
    {
      active, stopRequested, permissionBlocked, owned, sequence := false, false, false, false, 0;
      clients := new Client[BRIDGE_CLIENTS](_ => BLANK);
      log := [];
    }

    method RequestStop(deactivate: bool)
      requires Valid()
      modifies this`active, this`stopRequested, this`log
      ensures View() == Stop(old(View()), deactivate)
    {
      if deactivate { active := false; }
      stopRequested := true;
      log := log + [Halted];
    }

    method QueueReply(i: nat, r: Reply) returns (ok: bool)
      requires Valid() && i < BRIDGE_CLIENTS
      modifies clients
      ensures (View(), ok) == Respond(old(View()), i, r)
    {
      var line := Line(r);
      if |line| > BRIDGE_BYTES || |clients[i].output| > BRIDGE_BYTES - |line| { return false; }
      clients[i] := clients[i].(output := clients[i].output + line, answered := clients[i].answered + [r]);
      return true;
    }

    method PendingClear(i: nat)
      requires Valid() && i < BRIDGE_CLIENTS
      modifies clients
      ensures View() == old(View()).With(i, Cleared(old(View()).clients[i]))
    {
      clients[i] := clients[i].(id := "");
      clients[i] := clients[i].(pending := false, permission := false, recorded := false);
      clients[i] := clients[i].(armed := false);
    }

    method ClientClose(i: nat)
      requires Valid() && i < BRIDGE_CLIENTS
      modifies clients
      ensures View() == Closed(old(View()), i)
    {
      clients[i] := BLANK;
    }

    method CompleteCall(i: nat, text: string, isError: bool, a: Answers) returns (ok: bool)
      requires Valid() && i < BRIDGE_CLIENTS
      modifies this`active, this`stopRequested, this`log, clients
      ensures (View(), ok) == Complete(old(View()), i, text, isError, a)
    {
      hide Respond, ResultBody;
      if a.endStop { RequestStop(false); }
      ok := QueueReply(i, Reply(clients[i].id, false, ResultBody(text, isError, a)));
      if ok && clients[i].recorded && owned { log := log + [Answer(clients[i].tool)]; }
      PendingClear(i);
      if a.postStop || a.batchStop { RequestStop(true); }
    }

    method ExecuteCall(i: nat, a: Answers) returns (ok: bool)
      requires Valid() && i < BRIDGE_CLIENTS
      modifies this`active, this`stopRequested, this`log, clients
      ensures (View(), ok) == Execute(old(View()), i, a)
    {
      hide Complete;
      if !active || a.cancelled {
        ok := CompleteCall(i, "error: ACP tool call cancelled", true, a);
        return;
      }
      clients[i] := clients[i].(armed := true);
      if a.startStop { RequestStop(false); }
      if stopRequested {
        ok := CompleteCall(i, "error: extension stopped subagent", true, a);
        return;
      }
      log := log + [Run(clients[i].tool)];
      if a.duringStop { RequestStop(false); }
      if a.outcome.Async? { return true; }
      ok := CompleteCall(i, a.outcome.Text(), a.outcome.Failed(), a);
    }

    method DenyCall(i: nat, a: Answers) returns (ok: bool)
      requires Valid() && i < BRIDGE_CLIENTS
      modifies this`active, this`stopRequested, this`permissionBlocked, this`log, clients
      ensures (View(), ok) == Denied(old(View()), i, a)
    {
      hide Complete;
      permissionBlocked := true;
      log := log + [Refuse(clients[i].tool)];
      ok := CompleteCall(i, "error: permission denied", true, a);
    }

    method ApproveCall(i: nat, a: Answers) returns (ok: bool)
      requires Valid() && i < BRIDGE_CLIENTS
      modifies this`active, this`stopRequested, this`log, clients
      ensures (View(), ok) == Approved(old(View()), i, a)
    {
      hide Execute;
      log := log + [Approve(clients[i].tool)];
      ok := ExecuteCall(i, a);
    }

    method JudgeCall(i: nat, a: Answers) returns (ok: bool)
      requires Valid() && i < BRIDGE_CLIENTS
      modifies this`active, this`stopRequested, this`permissionBlocked, this`log, clients
      ensures (View(), ok) == Judged(old(View()), i, a)
    {
      hide Complete, Execute, Denied, Approved;
      log := log + [Judge(clients[i].tool, a.verdict)];
      if a.verdict == Deny { ok := DenyCall(i, a); return; }
      if a.verdict == Allow { ok := ExecuteCall(i, a); return; }
      if a.permissionStop {
        RequestStop(false);
        ok := CompleteCall(i, "error: extension stopped tool call", true, a);
        return;
      }
      if a.permission == HookDeny { ok := DenyCall(i, a); return; }
      if a.permission == HookAllow { ok := ApproveCall(i, a); return; }
      if a.prompt.Some? {
        if a.prompt.value == Decision.DenyCall { ok := DenyCall(i, a); return; }
        ok := ApproveCall(i, a);
        return;
      }
      clients[i] := clients[i].(permission := true);
      return true;
    }

    /** Takes the next call number for a request that passed the argument checks. */
    method Admit(i: nat, id: string)
      requires Valid() && i < BRIDGE_CLIENTS
      modifies this`sequence, this`log, clients
      ensures View() == Admitted(old(View()), i, id)
    {
      clients[i] := clients[i].(id := id, pending := true);
      sequence := sequence + 1;
      clients[i] := clients[i].(tool := sequence);
      log := log + [Event.Admit(sequence)];
    }

    /** Puts the admitted call on the session's transcript. */
    method Record(i: nat)
      requires Valid() && i < BRIDGE_CLIENTS
      modifies this`log, clients
      ensures View() == Recorded(old(View()), i)
    {
      log := log + [Event.Record(clients[i].tool)];
      clients[i] := clients[i].(recorded := true);
    }

    method AdmitCall(i: nat, id: string, a: Answers) returns (ok: bool)
      requires Valid() && i < BRIDGE_CLIENTS
      modifies this`active, this`stopRequested, this`permissionBlocked, this`sequence, this`log, clients
      ensures (View(), ok) == Admission(old(View()), i, id, a)
    {
      hide Complete, Judged, Admitted, Recorded;
      Admit(i, id);
      if a.preStop || a.preDeny {
        ok := CompleteCall(i, "error: extension refused tool call", true, a);
        if a.preStop { RequestStop(true); }
        return;
      }
      if !a.prepared {
        ok := CompleteCall(i, a.prepareError.GetOr("error: invalid tool arguments"), true, a);
        return;
      }
      Record(i);
      if !a.saved {
        ok := CompleteCall(i, "error: could not persist admitted tool call", true, a);
        return;
      }
      ok := JudgeCall(i, a);
    }

    method HandleToolCall(i: nat, m: Message, a: Answers) returns (ok: bool)
      requires Valid() && i < BRIDGE_CLIENTS && m.Request?
      modifies this`active, this`stopRequested, this`permissionBlocked, this`sequence, this`log, clients
      ensures (View(), ok) == CallTool(old(View()), i, m, a)
    {
      hide Admission, Respond, Refusal;
      var refused := TurnAway(i, m);
      if refused.Some? {
        ok := QueueReply(i, refused.value);
      } else {
        ok := AdmitCall(i, m.id, a);
      }
    }

    /** The checks a `tools/call` request must pass to become a call. */
    method TurnAway(i: nat, m: Message) returns (r: Option<Reply>)
      requires Valid() && i < BRIDGE_CLIENTS && m.Request?
      ensures r == Refusal(View(), i, m)
    {
      hide ErrorReply;
      if !active || !owned {
        return Some(ErrorReply(m.id, "-32000", "tny tool calls require an active owning turn"));
      }
      if clients[i].pending {
        return Some(ErrorReply(m.id, "-32000", "one outstanding tool call per connection"));
      }
      if m.name.None? || m.name.value == "" || m.arguments.BadArguments? {
        return Some(ErrorReply(m.id, "-32602", "expected tool name and object arguments"));
      }
      if m.name.value != "run_code" {
        return Some(ErrorReply(m.id, "-32602", "only run_code is exposed; use tools.call inside Python"));
      }
      return None;
    }

    method HandleMessage(i: nat, m: Message, a: Answers) returns (ok: bool)
      requires Valid() && i < BRIDGE_CLIENTS
      modifies this`active, this`stopRequested, this`permissionBlocked, this`sequence, this`log, clients
      ensures (View(), ok) == Handle(old(View()), i, m, a)
    {
      hide Complete, CallTool, Respond, ErrorReply;
      if m.Malformed? { return false; }
      if m.Notification? {
        if m.verb == "notifications/cancelled" && clients[i].pending && m.cancels == Some(clients[i].id) {
          ok := CompleteCall(i, "error: MCP tool call cancelled", true, a);
          return;
        }
        return true;
      }
      clients[i] := clients[i].(asked := clients[i].asked + [m.id]);
      assert View() == Asked(old(View()), i, m.id);
      if m.verb == "initialize" {
        clients[i] := clients[i].(initialized := true);
        ok := QueueReply(i, Reply(m.id, false, INITIALIZE_BODY));
      } else if !clients[i].initialized {
        ok := QueueReply(i, ErrorReply(m.id, "-32000", "initialize first"));
      } else if m.verb == "ping" {
        ok := QueueReply(i, Reply(m.id, false, "{}"));
      } else if m.verb == "tools/list" {
        if a.schema.Some? { ok := QueueReply(i, Reply(m.id, false, a.schema.value)); }
        else { ok := QueueReply(i, ErrorReply(m.id, "-32603", "could not build tools schema")); }
      } else if m.verb == "tools/call" {
        ok := HandleToolCall(i, m, a);
      } else {
        ok := QueueReply(i, ErrorReply(m.id, "-32601", "method not found"));
      }
    }

    method SettleCall(i: nat, t: Tick, a: Answers) returns (ok: bool)
      requires Valid() && i < BRIDGE_CLIENTS
      modifies this`active, this`stopRequested, this`log, clients
      ensures (View(), ok) == Settle(old(View()), i, t, a)
    {
      hide Complete;
      ok := true;
      if clients[i].pending && !clients[i].permission && t.finished.Some? {
        ok := CompleteCall(i, t.finished.value.0, t.finished.value.1, a);
      } else if clients[i].pending && !clients[i].permission && clients[i].armed && t.expired {
        ok := CompleteCall(i, "error: ACP tool call timed out", true, a);
      }
    }

    method FlushOutput(i: nat, t: Tick) returns (ok: bool)
      requires Valid() && i < BRIDGE_CLIENTS
      modifies clients
      ensures (View(), ok) == Flush(old(View()), i, t)
    {
      if clients[i].output != "" {
        if t.broken { return false; }
        var n := if t.written <= |clients[i].output| then t.written else |clients[i].output|;
        clients[i] := clients[i].(sent := clients[i].sent + clients[i].output[..n], output := clients[i].output[n..]);
      }
      ok := !(clients[i].readClosed && !clients[i].pending && clients[i].output == "");
    }

    /** The part of a tick after the input is drained. */
    method Drain(i: nat, t: Tick, a: Answers) returns (ok: bool)
      requires Valid() && i < BRIDGE_CLIENTS
      modifies this`active, this`stopRequested, this`log, clients
      ensures (View(), ok) == Polled(old(View()), i, t, a)
    {
      hide Settle, Flush;
      ok := SettleCall(i, t, a);
      if ok { ok := FlushOutput(i, t); }
    }

    method FindParked(tool: nat) returns (i: nat)
      requires Valid()
      ensures i == ParkedSlot(View(), tool, 0)
    {
      i := 0;
      while i < BRIDGE_CLIENTS && !(clients[i].pending && clients[i].permission && clients[i].tool == tool)
        invariant i <= BRIDGE_CLIENTS
        invariant ParkedSlot(View(), tool, 0) == ParkedSlot(View(), tool, i)
      {
        i := i + 1;
      }
    }

    /** The owner's answer to a parked call. */
    method RespondPermission(tool: nat, d: Decision, a: Answers) returns (found: bool)
      requires Valid()
      modifies this`active, this`stopRequested, this`permissionBlocked, this`log, clients
      ensures View() == Step(old(View()), Owner(tool, d, a))
      ensures found == (ParkedSlot(old(View()), tool, 0) < BRIDGE_CLIENTS)
    {
      hide Denied, Approved;
      var i := FindParked(tool);
      if i == BRIDGE_CLIENTS { return false; }
      clients[i] := clients[i].(permission := false);
      var ok;
      if d == Decision.DenyCall { ok := DenyCall(i, a); } else { ok := ApproveCall(i, a); }
      if !ok { ClientClose(i); }
      return true;
    }

    method BeginTurn()
      requires Valid()
      modifies this`active, this`stopRequested, this`permissionBlocked, this`log
      ensures View() == Step(old(View()), Input.BeginTurn)
    {
      permissionBlocked := false;
      active := true;
      stopRequested := false;
      log := log + [Began];
    }

    method EndTurn(each: nat -> Answers)
      requires Valid()
      modifies this`active, this`stopRequested, this`log, clients
      ensures View() == Step(old(View()), Input.EndTurn(each))
    {
      hide Complete;
      active := false;
      log := log + [Halted];
      ghost var b1 := View();
      for i := 0 to BRIDGE_CLIENTS
        invariant EndCalls(b1, 0, each) == EndCalls(View(), i, each)
      {
        if clients[i].pending {
          var ok := CompleteCall(i, "error: owning ACP turn ended", true, each(i));
          if !ok { ClientClose(i); }
        }
      }
    }

    /** Forgets the call of connection `i` without an answer. */
    method DropCall(i: nat)
      requires Valid() && i < BRIDGE_CLIENTS
      modifies clients
      ensures clients[..] == old(clients[..])[i := AbortClient(old(clients[i]))]
    {
      var lost := clients[i].open && clients[i].pending;
      PendingClear(i);
      if lost { clients[i] := clients[i].(aborted := true); }
    }

    method Abort()
      requires Valid()
      modifies this`active, this`log, clients
      ensures View() == Step(old(View()), Input.Abort)
    {
      active := false;
      log := log + [Halted];
      for i := 0 to BRIDGE_CLIENTS
        invariant !active && log == old(log) + [Halted]
        invariant forall j :: 0 <= j < i ==> clients[j] == AbortClient(old(clients[j]))
        invariant forall j :: i <= j < BRIDGE_CLIENTS ==> clients[j] == old(clients[j])
      {
        DropCall(i);
      }
      assert clients[..] == Aborted(old(clients[..]));
    }

    /** A new connection takes the first free slot; with none free it is refused. */
    method Accept() returns (taken: bool)
      requires Valid()
      modifies clients
      ensures View() == Step(old(View()), Input.Accept)
      ensures taken == (FreeSlot(old(View()), 0) < BRIDGE_CLIENTS)
    {
      var slot := 0;
      while slot < BRIDGE_CLIENTS && clients[slot].open
        invariant slot <= BRIDGE_CLIENTS && FreeSlot(View(), 0) == FreeSlot(View(), slot)
      {
        slot := slot + 1;
      }
      if slot == BRIDGE_CLIENTS { return false; }
      clients[slot] := clients[slot].(open := true);
      return true;
    }

    /** One line of input on an open connection; a connection that fails is closed. */
    method Deliver(i: nat, m: Message, a: Answers)
      requires Valid() && i < BRIDGE_CLIENTS && clients[i].open
      modifies this`active, this`stopRequested, this`permissionBlocked, this`sequence, this`log, clients
      ensures View() == Step(old(View()), Input.Deliver(i, m, a))
    {
      hide Handle;
      var ok := HandleMessage(i, m, a);
      if !ok { ClientClose(i); }
    }

    /** One tick of an open connection; a connection that fails or has nothing left is closed. */
    method Tend(i: nat, t: Tick, a: Answers)
      requires Valid() && i < BRIDGE_CLIENTS && clients[i].open
      modifies this`active, this`stopRequested, this`log, clients
      ensures View() == Step(old(View()), Input.Poll(i, t, a))
    {
      hide Polled;
      var ok := Drain(i, t, a);
      if !ok { ClientClose(i); }
    }
  }
}
