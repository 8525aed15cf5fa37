/**
 * The ACP tool bridge as a value: four connections that each have at most one tool call outstanding, one owning
 * turn, and the log of what happened to every admitted call.
 */
module BridgeModel {
  import opened Common

  const BRIDGE_CLIENTS := 4
  const BRIDGE_BYTES: nat := 8 * 1024 * 1024

  datatype Verdict = Allow | Ask | Deny
  datatype Decision = AllowOnce | AllowAlways | DenyCall
  datatype HookDecision = Undecided | HookAllow | HookDeny

  // ---- What comes from outside -----------------------------------------------------------

  datatype Arguments = NoArguments | ObjectArguments(text: string) | BadArguments

  /** One line of the connection after JSON parsing; `id` is the id as it is printed back. */
  datatype Message =
    | Malformed
    | Notification(verb: string, cancels: Option<string>)
    | Request(id: string, verb: string, name: Option<string>, arguments: Arguments)

  /** What the tool body comes to: no result at all, a text, or nothing yet. */
  datatype Outcome = Finished(result: Option<string>) | Async
  {
    function Text(): string
      requires Finished?
    {
      result.GetOr("error: tool returned no result")
    }

    predicate Failed()
      requires Finished?
    {
      result.None? || "error:" <= result.value
    }
  }

  /** Everything hooks, permission rules, the tool body and the session decide during one step; `images` are captured images as printed. */
  datatype Answers = Answers(
    schema: Option<string>,
    preStop: bool, preDeny: bool,
    prepared: bool, prepareError: Option<string>, verdict: Verdict, saved: bool,
    permissionStop: bool, permission: HookDecision, prompt: Option<Decision>,
    cancelled: bool, startStop: bool, duringStop: bool, outcome: Outcome,
    imagesTooBig: bool, images: string, endStop: bool, replaced: Option<(string, bool)>, render: string -> string,
    postStop: bool, batchStop: bool)

  // ---- State -----------------------------------------------------------------------------

  datatype Reply = Reply(id: string, error: bool, body: string)

  /** `asked`, `answered`, `sent` and `aborted` are the history of the connection. */
  datatype Client = Client(
    open: bool, initialized: bool, readClosed: bool,
    pending: bool, permission: bool, recorded: bool, armed: bool,
    id: string, tool: nat, output: string,
    asked: seq<string>, answered: seq<Reply>, sent: string, aborted: bool)

  const BLANK := Client(false, false, false, false, false, false, false, "", 0, "", [], [], "", false)

  /** What happened, in order. `Halted` marks a stop request or the end of the owning turn. */
  datatype Event =
    | Began | Halted
    | Admit(tool: nat) | Record(tool: nat) | Judge(tool: nat, verdict: Verdict)
    | Approve(tool: nat) | Refuse(tool: nat) | Run(tool: nat) | Answer(tool: nat)

  datatype Bridge = Bridge(
    active: bool, stop: bool, blocked: bool, owned: bool, sequence: nat,
    clients: seq<Client>, log: seq<Event>)
  {
    predicate Shaped() { |clients| == BRIDGE_CLIENTS }
    function With(i: nat, c: Client): (b: Bridge)
      requires i < |clients|
      ensures |b.clients| == |clients|
    { this.(clients := clients[i := c]) }
    function Log(e: Event): Bridge { this.(log := log + [e]) }
  }

  // ---- Replies ---------------------------------------------------------------------------

  function Line(r: Reply): string {
    "{\"jsonrpc\":\"2.0\",\"id\":" + r.id + ",\"" + (if r.error then "error" else "result") + "\":" + r.body + "}\n"
  }

  function Queue(c: Client, r: Reply): Option<Client> {
    var line := Line(r);
    if |line| > BRIDGE_BYTES || |c.output| > BRIDGE_BYTES - |line| then None
    else Some(c.(output := c.output + line, answered := c.answered + [r]))
  }

  function ErrorReply(id: string, code: string, message: string): Reply {
    Reply(id, true, "{\"code\":" + code + ",\"message\":\"" + message + "\"}")
  }

  /** Queues a reply on connection `i`; false means the connection must be closed. */
  function Respond(b: Bridge, i: nat, r: Reply): (res: (Bridge, bool))
    requires i < |b.clients|
    ensures |res.0.clients| == |b.clients|
  {
    match Queue(b.clients[i], r)
    case Some(c) => (b.With(i, c), true)
    case None => (b, false)
  }

  function Cleared(c: Client): Client {
    c.(pending := false, permission := false, recorded := false, armed := false, id := "")
  }

  /** A stop request; the hooks that end a turn also clear `active`. */
  function Stop(b: Bridge, deactivate: bool): Bridge {
    b.(stop := true, active := b.active && !deactivate).Log(Halted)
  }

  // ---- One call --------------------------------------------------------------------------

  const IMAGES_ERROR := "error: captured images exceed ACP MCP delivery limit (4 MiB total)"
  const OVERSIZE_BODY :=
    "{\"isError\":true" + ",\"content\":[{\"type\":\"text\",\"text\":\"error: ACP MCP tool result exceeds 8 MiB delivery limit\"}]}"

  function ResultBody(text: string, isError: bool, a: Answers): string {
    var (t, e) := if a.imagesTooBig then (IMAGES_ERROR, true) else (text, isError);
    var (effective, failed) := a.replaced.GetOr((t, e));
    var body := "{\"isError\":" + (if failed then "true" else "false")
      + ",\"content\":[{\"type\":\"text\",\"text\":" + a.render(effective) + "}" + (if failed then "" else a.images) + "]}";
    if |body| > BRIDGE_BYTES then OVERSIZE_BODY else body
  }

  /** Queues the reply to the outstanding call; once queued, a recorded call is answered in the session too. */
  function Answered(b: Bridge, i: nat, body: string): (r: (Bridge, bool))
    requires i < |b.clients|
    ensures |r.0.clients| == |b.clients|
  {
    var (b1, ok) := Respond(b, i, Reply(b.clients[i].id, false, body));
    var c := b1.clients[i];
    (if ok && c.recorded && b1.owned then b1.Log(Answer(c.tool)) else b1, ok)
  }

  /** Frees connection `i` for its next call, and halts the turn when a hook asks for it. */
  function Freed(b: Bridge, i: nat, halt: bool): (r: Bridge)
    requires i < |b.clients|
    ensures |r.clients| == |b.clients|
  {
    var b1 := b.With(i, Cleared(b.clients[i]));
    if halt then Stop(b1, true) else b1
  }

  /** Ends the outstanding call of connection `i` with a tool result. */
  function Complete(b: Bridge, i: nat, text: string, isError: bool, a: Answers): (r: (Bridge, bool))
    requires i < |b.clients|
    ensures |r.0.clients| == |b.clients|
  {
    var b1 := if a.endStop then Stop(b, false) else b;
    var (b2, ok) := Answered(b1, i, ResultBody(text, isError, a));
    (Freed(b2, i, a.postStop || a.batchStop), ok)
  }

  /** Runs the tool body of an approved call, unless the turn has ended or been stopped meanwhile. */
  function Execute(b: Bridge, i: nat, a: Answers): (r: (Bridge, bool))
    requires i < |b.clients|
    ensures |r.0.clients| == |b.clients|
  {
    if !b.active || a.cancelled then Complete(b, i, "error: ACP tool call cancelled", true, a)
    else
      var b1 := b.With(i, b.clients[i].(armed := true));
      var b2 := if a.startStop then Stop(b1, false) else b1;
      if b2.stop then Complete(b2, i, "error: extension stopped subagent", true, a)
      else
        var b3 := b2.Log(Run(b.clients[i].tool));
        var b4 := if a.duringStop then Stop(b3, false) else b3;
        match a.outcome
        case Async => (b4, true)
        case Finished(_) => Complete(b4, i, a.outcome.Text(), a.outcome.Failed(), a)
  }

  function Approved(b: Bridge, i: nat, a: Answers): (r: (Bridge, bool))
    requires i < |b.clients|
    ensures |r.0.clients| == |b.clients|
  {
    Execute(b.Log(Approve(b.clients[i].tool)), i, a)
  }

  function Denied(b: Bridge, i: nat, a: Answers): (r: (Bridge, bool))
    requires i < |b.clients|
    ensures |r.0.clients| == |b.clients|
  {
    Complete(b.(blocked := true).Log(Refuse(b.clients[i].tool)), i, "error: permission denied", true, a)
  }

  /** An undecided call: the permission hook, then an interactive prompt, then the owner of the turn. */
  function Permit(b: Bridge, i: nat, a: Answers): (r: (Bridge, bool))
    requires i < |b.clients|
    ensures |r.0.clients| == |b.clients|
  {
    if a.permissionStop then Complete(Stop(b, false), i, "error: extension stopped tool call", true, a)
    else match a.permission
      case HookDeny => Denied(b, i, a)
      case HookAllow => Approved(b, i, a)
      case Undecided =>
        match a.prompt
        case Some(DenyCall) => Denied(b, i, a)
        case Some(_) => Approved(b, i, a)
        case None => (b.With(i, b.clients[i].(permission := true)), true)
  }

  function Judged(b: Bridge, i: nat, a: Answers): (r: (Bridge, bool))
    requires i < |b.clients|
    ensures |r.0.clients| == |b.clients|
  {
    var b1 := b.Log(Judge(b.clients[i].tool, a.verdict));
    match a.verdict
    case Deny => Denied(b1, i, a)
    case Allow => Execute(b1, i, a)
    case Ask => Permit(b1, i, a)
  }

  /** The state in which a call has been admitted and its number taken. */
  function Admitted(b: Bridge, i: nat, id: string): (r: Bridge)
    requires i < |b.clients|
    ensures |r.clients| == |b.clients|
  {
    var tool := b.sequence + 1;
    b.(sequence := tool).With(i, b.clients[i].(pending := true, id := id, tool := tool)).Log(Admit(tool))
  }

  function Recorded(b: Bridge, i: nat): (r: Bridge)
    requires i < |b.clients|
    ensures |r.clients| == |b.clients|
  {
    b.With(i, b.clients[i].(recorded := true)).Log(Record(b.clients[i].tool))
  }

  /** A well-formed call of an active turn, from its number to its verdict. */
  function Admission(b: Bridge, i: nat, id: string, a: Answers): (r: (Bridge, bool))
    requires i < |b.clients|
    ensures |r.0.clients| == |b.clients|
  {
    var b1 := Admitted(b, i, id);
    if a.preStop || a.preDeny then
      var (b2, ok) := Complete(b1, i, "error: extension refused tool call", true, a);
      (if a.preStop then Stop(b2, true) else b2, ok)
    else if !a.prepared then Complete(b1, i, a.prepareError.GetOr("error: invalid tool arguments"), true, a)
    else
      var b2 := Recorded(b1, i);
      if !a.saved then Complete(b2, i, "error: could not persist admitted tool call", true, a)
      else Judged(b2, i, a)
  }

  /** The reply to a `tools/call` request that is turned away before it becomes a call. */
  function Refusal(b: Bridge, i: nat, m: Message): (r: Option<Reply>)
    requires i < |b.clients| && m.Request?
    ensures r.Some? ==> r.value.id == m.id
  {
    if !b.active || !b.owned then
      Some(ErrorReply(m.id, "-32000", "tny tool calls require an active owning turn"))
    else if b.clients[i].pending then
      Some(ErrorReply(m.id, "-32000", "one outstanding tool call per connection"))
    else if m.name.None? || m.name.value == "" || m.arguments.BadArguments? then
      Some(ErrorReply(m.id, "-32602", "expected tool name and object arguments"))
    else if m.name.value != "run_code" then
      Some(ErrorReply(m.id, "-32602", "only run_code is exposed; use tools.call inside Python"))
    else None
  }

  function CallTool(b: Bridge, i: nat, m: Message, a: Answers): (r: (Bridge, bool))
    requires i < |b.clients| && m.Request?
    ensures |r.0.clients| == |b.clients|
  {
    match Refusal(b, i, m)
    case Some(reply) => Respond(b, i, reply)
    case None => Admission(b, i, m.id, a)
  }

  const INITIALIZE_BODY :=
    "{\"protocolVersion\":\"2024-11-05\",\"capabilities\":{\"tools\":{}},\"serverInfo\":{\"name\":\"tny\",\"version\":\"1\"}}"

  function Asked(b: Bridge, i: nat, id: string): (r: Bridge)
    requires i < |b.clients|
    ensures |r.clients| == |b.clients|
  {
    b.With(i, b.clients[i].(asked := b.clients[i].asked + [id]))
  }

  /** One message of connection `i`; false means the connection must be closed. */
  function Handle(b: Bridge, i: nat, m: Message, a: Answers): (r: (Bridge, bool))
    requires i < |b.clients|
    ensures |r.0.clients| == |b.clients|
  {
    match m
    case Malformed => (b, false)
    case Notification(verb, cancels) =>
      var c := b.clients[i];
      if verb == "notifications/cancelled" && c.pending && cancels == Some(c.id)
      then Complete(b, i, "error: MCP tool call cancelled", true, a)
      else (b, true)
    case Request(id, verb, _, _) =>
      var b1 := Asked(b, i, id);
      if verb == "initialize" then
        Respond(b1.With(i, b1.clients[i].(initialized := true)), i, Reply(id, false, INITIALIZE_BODY))
      else if !b1.clients[i].initialized then Respond(b1, i, ErrorReply(id, "-32000", "initialize first"))
      else if verb == "ping" then Respond(b1, i, Reply(id, false, "{}"))
      else if verb == "tools/list" then
        match a.schema {
          case Some(body) => Respond(b1, i, Reply(id, false, body))
          case None => Respond(b1, i, ErrorReply(id, "-32603", "could not build tools schema"))
        }
      else if verb == "tools/call" then CallTool(b1, i, m, a)
      else Respond(b1, i, ErrorReply(id, "-32601", "method not found"))
  }

  function Closed(b: Bridge, i: nat): (r: Bridge)
    requires i < |b.clients|
    ensures |r.clients| == |b.clients|
  {
    b.With(i, BLANK)
  }

  function CloseUnless(r: (Bridge, bool), i: nat): (b: Bridge)
    requires i < |r.0.clients|
    ensures |b.clients| == |r.0.clients|
  {
    if r.1 then r.0 else Closed(r.0, i)
  }

  // ---- Inputs ----------------------------------------------------------------------------

  /** What one tick finds on a connection after its input is drained. */
  datatype Tick = Tick(finished: Option<(string, bool)>, expired: bool, written: nat, broken: bool)

  datatype Input =
    | Accept
    | Deliver(i: nat, message: Message, answers: Answers)
    | EndOfInput(i: nat, partial: bool)
    | Poll(i: nat, tick: Tick, answers: Answers)
    | Drop(i: nat)
    | Owner(tool: nat, decision: Decision, answers: Answers)
    | Bind(owned: bool)
    | BeginTurn
    | EndTurn(each: nat -> Answers)
    | Abort

  /** First slot from `i` on that is free. */
  function FreeSlot(b: Bridge, i: nat): (slot: nat)
    requires i <= |b.clients|
    ensures i <= slot <= |b.clients|
    ensures slot < |b.clients| ==> !b.clients[slot].open
    decreases |b.clients| - i
  {
    if i == |b.clients| || !b.clients[i].open then i else FreeSlot(b, i + 1)
  }

  /** The parked call with this tool number, searching from slot `i`. */
  function ParkedSlot(b: Bridge, tool: nat, i: nat): (slot: nat)
    requires i <= |b.clients|
    ensures i <= slot <= |b.clients|
    ensures slot < |b.clients| ==>
      b.clients[slot].pending && b.clients[slot].permission && b.clients[slot].tool == tool
    decreases |b.clients| - i
  {
    if i == |b.clients| then i
    else if b.clients[i].pending && b.clients[i].permission && b.clients[i].tool == tool then i
    else ParkedSlot(b, tool, i + 1)
  }

  /** The polled part of a tick: an asynchronous result, then the deadline, then the write. */
  function Settle(b: Bridge, i: nat, t: Tick, a: Answers): (r: (Bridge, bool))
    requires i < |b.clients|
    ensures |r.0.clients| == |b.clients|
  {
    var c := b.clients[i];
    if c.pending && !c.permission && t.finished.Some? then Complete(b, i, t.finished.value.0, t.finished.value.1, a)
    else if c.pending && !c.permission && c.armed && t.expired then
      Complete(b, i, "error: ACP tool call timed out", true, a)
    else (b, true)
  }

  function Written(c: Client, n: nat): Client
    requires n <= |c.output|
  {
    c.(sent := c.sent + c.output[..n], output := c.output[n..])
  }

  function Flush(b: Bridge, i: nat, t: Tick): (r: (Bridge, bool))
    requires i < |b.clients|
    ensures |r.0.clients| == |b.clients|
  {
    var c := b.clients[i];
    if c.output == "" then (b, !(c.readClosed && !c.pending))
    else if t.broken then (b, false)
    else
      var n := if t.written <= |c.output| then t.written else |c.output|;
      var c' := Written(c, n);
      (b.With(i, c'), !(c'.readClosed && !c'.pending && c'.output == ""))
  }

  function Polled(b: Bridge, i: nat, t: Tick, a: Answers): (r: (Bridge, bool))
    requires i < |b.clients|
    ensures |r.0.clients| == |b.clients|
  {
    var (b1, ok) := Settle(b, i, t, a);
    if ok then Flush(b1, i, t) else (b1, false)
  }

  /** Ends every outstanding call from slot `i` on. */
  function EndCalls(b: Bridge, i: nat, each: nat -> Answers): (r: Bridge)
    requires i <= |b.clients|
    ensures |r.clients| == |b.clients|
    decreases |b.clients| - i
  {
    if i == |b.clients| then b
    else if !b.clients[i].pending then EndCalls(b, i + 1, each)
    else EndCalls(CloseUnless(Complete(b, i, "error: owning ACP turn ended", true, each(i)), i), i + 1, each)
  }

  function AbortClient(c: Client): Client {
    if c.open && c.pending then Cleared(c).(aborted := true) else Cleared(c)
  }

  function Aborted(cs: seq<Client>): (r: seq<Client>)
    ensures |r| == |cs|
  {
    seq(|cs|, i requires 0 <= i < |cs| => AbortClient(cs[i]))
  }

  function Step(b: Bridge, input: Input): (r: Bridge)
    requires b.Shaped()
    ensures r.Shaped()
  {
    match input
    case Accept =>
      var slot := FreeSlot(b, 0);
      if slot == |b.clients| then b else b.With(slot, b.clients[slot].(open := true))
    case Deliver(i, m, a) =>
      if i < |b.clients| && b.clients[i].open then CloseUnless(Handle(b, i, m, a), i) else b
    case EndOfInput(i, partial) =>
      if i < |b.clients| && b.clients[i].open then
        if partial then Closed(b, i) else b.With(i, b.clients[i].(readClosed := true))
      else b
    case Poll(i, t, a) =>
      if i < |b.clients| && b.clients[i].open then CloseUnless(Polled(b, i, t, a), i) else b
    case Drop(i) => if i < |b.clients| then Closed(b, i) else b
    case Owner(tool, d, a) =>
      var i := ParkedSlot(b, tool, 0);
      if i == |b.clients| then b
      else
        var b1 := b.With(i, b.clients[i].(permission := false));
        CloseUnless(if d == DenyCall then Denied(b1, i, a) else Approved(b1, i, a), i)
    case Bind(owned) => b.(owned := owned)
    case BeginTurn => b.(active := true, stop := false, blocked := false).Log(Began)
    case EndTurn(each) => EndCalls(b.(active := false).Log(Halted), 0, each)
    case Abort => b.(active := false, clients := Aborted(b.clients)).Log(Halted)
  }
}
