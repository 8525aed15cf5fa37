/** What every reachable state of the bridge keeps, whatever hooks, tools, peers and the owner do. */
module BridgeLaws {
  import opened Common
  import opened BridgeModel

  // ---- The life of one call --------------------------------------------------------------

  /** Where one admitted call stands; `Broken` is any order of events the bridge must never produce. */
  datatype Life = New | Entered | OnRecord | MayRun | AwaitsOwner | MayNot | HasRun | Over | Broken

  function ToolOf(e: Event): Option<nat> {
    match e
    case Began => None
    case Halted => None
    case Admit(t) => Some(t)
    case Record(t) => Some(t)
    case Judge(t, _) => Some(t)
    case Approve(t) => Some(t)
    case Refuse(t) => Some(t)
    case Run(t) => Some(t)
    case Answer(t) => Some(t)
  }

  /** Whether the owning turn is running and nobody has asked it to stop. */
  function Live(log: seq<Event>): bool {
    if log == [] then false
    else match log[|log| - 1]
      case Began => true
      case Halted => false
      case _ => Live(log[..|log| - 1])
  }

  function Advance(life: Life, live: bool, e: Event): Life {
    match (life, e)
    case (New, Admit(_)) => Entered
    case (Entered, Record(_)) => OnRecord
    case (OnRecord, Judge(_, Allow)) => MayRun
    case (OnRecord, Judge(_, Ask)) => AwaitsOwner
    case (OnRecord, Judge(_, Deny)) => MayNot
    case (AwaitsOwner, Approve(_)) => MayRun
    case (AwaitsOwner, Refuse(_)) => MayNot
    case (MayNot, Refuse(_)) => MayNot
    case (MayRun, Run(_)) => if live then HasRun else Broken
    case (OnRecord, Answer(_)) => Over
    case (MayRun, Answer(_)) => Over
    case (AwaitsOwner, Answer(_)) => Over
    case (MayNot, Answer(_)) => Over
    case (HasRun, Answer(_)) => Over
    case _ => Broken
  }

  function LifeOf(log: seq<Event>, t: nat): Life {
    if log == [] then New
    else
      var front, e := log[..|log| - 1], log[|log| - 1];
      if ToolOf(e) == Some(t) then Advance(LifeOf(front, t), Live(front), e) else LifeOf(front, t)
  }

  lemma LogStep(log: seq<Event>, e: Event, t: nat)
    ensures LifeOf(log + [e], t) ==
      if ToolOf(e) == Some(t) then Advance(LifeOf(log, t), Live(log), e) else LifeOf(log, t)
    ensures Live(log + [e]) == if e.Began? then true else if e.Halted? then false else Live(log)
  {
    assert (log + [e])[..|log|] == log;
  }

  lemma {:induction false} LifePrefix(log: seq<Event>, t: nat, k: nat)
    requires k <= |log| && LifeOf(log, t) != Broken
    ensures LifeOf(log[..k], t) != Broken
    decreases |log|
  {
    if k < |log| {
      assert log[..|log| - 1][..k] == log[..k];
      LifePrefix(log[..|log| - 1], t, k);
    } else {
      assert log[..k] == log;
    }
  }

  function CountOf(log: seq<Event>, e: Event): nat {
    if log == [] then 0
    else CountOf(log[..|log| - 1], e) + if log[|log| - 1] == e then 1 else 0
  }

  predicate BeforeRun(life: Life) {
    life in {New, Entered, OnRecord, MayRun, AwaitsOwner, MayNot}
  }

  /** A lawful call is admitted under its number once, runs at most once, and is answered in the session at most once. */
  lemma {:induction false} LawfulCounts(log: seq<Event>, t: nat)
    requires LifeOf(log, t) != Broken
    ensures CountOf(log, Run(t)) <= 1 && (BeforeRun(LifeOf(log, t)) ==> CountOf(log, Run(t)) == 0)
    ensures CountOf(log, Answer(t)) <= 1 && (LifeOf(log, t) != Over ==> CountOf(log, Answer(t)) == 0)
    ensures CountOf(log, Admit(t)) <= 1 && (LifeOf(log, t) == New ==> CountOf(log, Admit(t)) == 0)
  {
    if log != [] {
      LifePrefix(log, t, |log| - 1);
      LawfulCounts(log[..|log| - 1], t);
    }
  }

  predicate Seen(log: seq<Event>, e: Event) {
    exists j :: 0 <= j < |log| && log[j] == e
  }

  lemma SeenStep(log: seq<Event>, e: Event)
    ensures Seen(log + [e], e)
    ensures forall x :: Seen(log, x) ==> Seen(log + [e], x)
  {
    assert (log + [e])[|log|] == e;
    forall x | Seen(log, x) ensures Seen(log + [e], x) {
      var j :| 0 <= j < |log| && log[j] == x;
      assert (log + [e])[j] == x;
    }
  }

  /** Permission as the log tells it: an ALLOW verdict, or an undecided one that someone approved. */
  predicate Permitted(log: seq<Event>, t: nat) {
    Seen(log, Judge(t, Allow)) || (Seen(log, Judge(t, Ask)) && Seen(log, Approve(t)))
  }

  predicate Forbidden(log: seq<Event>, t: nat) {
    Seen(log, Judge(t, Deny)) || Seen(log, Refuse(t))
  }

  lemma {:induction false} LifeMeaning(log: seq<Event>, t: nat)
    requires LifeOf(log, t) != Broken
    ensures var life := LifeOf(log, t);
      && (life in {MayRun, HasRun} ==> Permitted(log, t))
      && (life == AwaitsOwner ==> Seen(log, Judge(t, Ask)))
      && (life in {New, Entered, OnRecord, MayRun, AwaitsOwner, HasRun} ==> !Forbidden(log, t))
      && (life == Over ==> Seen(log, Record(t)))
      && (life in {OnRecord, MayRun, AwaitsOwner, MayNot, HasRun} ==> Seen(log, Record(t)))
      && (Seen(log, Run(t)) ==> !Forbidden(log, t))
      && (BeforeRun(life) ==> !Seen(log, Run(t)))
  {
    if log != [] {
      var front, e := log[..|log| - 1], log[|log| - 1];
      assert log == front + [e];
      LifePrefix(log, t, |log| - 1);
      LifeMeaning(front, t);
      SeenStep(front, e);
      forall x | Seen(log, x) ensures x == e || Seen(front, x) {
        var j :| 0 <= j < |log| && log[j] == x;
        if j < |front| { assert front[j] == x; }
      }
    }
  }

  /**
   * When a tool body runs, the turn was live at that moment and the call had been permitted by then;
   * a DENY verdict or a refusal is never overridden, before or after.
   */
  lemma RunWasAllowed(log: seq<Event>, t: nat, k: nat)
    requires k < |log| && log[k] == Run(t) && LifeOf(log, t) != Broken
    ensures Live(log[..k]) && Permitted(log[..k], t) && !Forbidden(log, t)
  {
    LifePrefix(log, t, k);
    LifePrefix(log, t, k + 1);
    assert log[..k + 1] == log[..k] + [Run(t)];
    LogStep(log[..k], Run(t), t);
    LifeMeaning(log[..k], t);
    assert Seen(log, Run(t));
    LifeMeaning(log, t);
  }

  // ---- The connection --------------------------------------------------------------------

  function IdsOf(rs: seq<Reply>): multiset<string> {
    if rs == [] then multiset{} else IdsOf(rs[..|rs| - 1]) + multiset{rs[|rs| - 1].id}
  }

  function Lines(rs: seq<Reply>): string {
    if rs == [] then "" else Lines(rs[..|rs| - 1]) + Line(rs[|rs| - 1])
  }

  function Owed(c: Client): multiset<string> {
    if c.pending then multiset{c.id} else multiset{}
  }

  /** Every id asked is answered exactly once, is owed by the outstanding call, or is in `current`. */
  predicate Balanced(c: Client, current: multiset<string>) {
    c.open && !c.aborted ==> multiset(c.asked) == IdsOf(c.answered) + Owed(c) + current
  }

  /** What has been written and what waits is the replies, whole and in order, within the limit. */
  predicate Wired(c: Client) {
    Lines(c.answered) == c.sent + c.output && |c.output| <= BRIDGE_BYTES
  }

  predicate ClientOk(c: Client) {
    && Balanced(c, multiset{}) && Wired(c)
    && (!c.open ==> c == BLANK)
    && (!c.pending ==> !c.permission && !c.recorded && !c.armed)
  }

  lemma QueueLaw(c: Client, r: Reply, current: multiset<string>)
    requires Wired(c) && Balanced(c, multiset{r.id} + current) && Queue(c, r).Some?
    ensures Wired(Queue(c, r).value) && Balanced(Queue(c, r).value, current)
  {
    var c' := Queue(c, r).value;
    assert c'.answered[..|c.answered|] == c.answered;
    assert c.sent + (c.output + Line(r)) == c.sent + c.output + Line(r);
  }

  // ---- The invariant ---------------------------------------------------------------------

  predicate CallOk(b: Bridge, c: Client) {
    c.pending ==>
      && c.tool <= b.sequence && c.recorded && (c.permission || c.armed)
      && LifeOf(b.log, c.tool) == (if c.permission then AwaitsOwner else HasRun)
  }

  ghost predicate LogOk(b: Bridge) {
    && Live(b.log) == (b.active && !b.stop)
    && (forall t :: LifeOf(b.log, t) != Broken)
    && (forall t :: b.sequence < t ==> LifeOf(b.log, t) == New)
  }

  /** Everything but connection `i`, which is in the middle of a step. */
  ghost predicate OthersOk(b: Bridge, i: nat)
    requires b.Shaped()
  {
    && LogOk(b)
    && (forall j :: 0 <= j < |b.clients| && j != i ==> ClientOk(b.clients[j]) && CallOk(b, b.clients[j]))
    && (forall j, k :: 0 <= j < k < |b.clients| && j != i && k != i && b.clients[j].pending && b.clients[k].pending ==>
          b.clients[j].tool != b.clients[k].tool)
  }

  /** The call number of connection `i` is taken by no other outstanding call. */
  predicate Sole(b: Bridge, i: nat)
    requires b.Shaped() && i < |b.clients|
  {
    && b.clients[i].tool <= b.sequence
    && forall j :: 0 <= j < |b.clients| && j != i && b.clients[j].pending ==> b.clients[j].tool != b.clients[i].tool
  }

  ghost predicate Inv(b: Bridge) {
    && b.Shaped() && LogOk(b)
    && (forall j :: 0 <= j < |b.clients| ==> ClientOk(b.clients[j]) && CallOk(b, b.clients[j]))
    && (forall j, k :: 0 <= j < k < |b.clients| && b.clients[j].pending && b.clients[k].pending ==>
          b.clients[j].tool != b.clients[k].tool)
  }

  lemma LogKeeps(b: Bridge, i: nat, e: Event)
    requires b.Shaped() && i < |b.clients| && OthersOk(b, i) && Sole(b, i)
    requires ToolOf(e) == Some(b.clients[i].tool)
    requires Advance(LifeOf(b.log, b.clients[i].tool), Live(b.log), e) != Broken
    ensures OthersOk(b.Log(e), i) && Sole(b.Log(e), i)
    ensures LifeOf(b.Log(e).log, b.clients[i].tool) == Advance(LifeOf(b.log, b.clients[i].tool), Live(b.log), e)
    ensures Live(b.Log(e).log) == Live(b.log)
  {
    hide Line, Lines, IdsOf, Balanced, Wired, Advance;
    forall t: nat
      ensures LifeOf(b.Log(e).log, t) ==
        if t == b.clients[i].tool then Advance(LifeOf(b.log, t), Live(b.log), e) else LifeOf(b.log, t)
    {
      LogStep(b.log, e, t);
    }
    LogStep(b.log, e, 0);
  }

  lemma StopKeeps(b: Bridge, i: nat, deactivate: bool)
    requires b.Shaped() && OthersOk(b, i)
    ensures OthersOk(Stop(b, deactivate), i)
    ensures forall t :: LifeOf(Stop(b, deactivate).log, t) == LifeOf(b.log, t)
  {
    hide Line, Lines, IdsOf, Balanced, Wired, Advance, LifeOf, Live, ClientOk;
    forall t: nat ensures LifeOf(b.log + [Halted], t) == LifeOf(b.log, t) {
      LogStep(b.log, Halted, t);
    }
    LogStep(b.log, Halted, 0);
  }

  /** Replacing connection `i` itself disturbs nothing else. */
  lemma WithKeeps(b: Bridge, i: nat, c: Client)
    requires b.Shaped() && i < |b.clients| && OthersOk(b, i)
    ensures OthersOk(b.With(i, c), i)
    ensures Sole(b, i) && c.tool == b.clients[i].tool ==> Sole(b.With(i, c), i)
  {
    hide LogOk, ClientOk, CallOk;
    assert LogOk(b) ==> LogOk(b.With(i, c)) by { LogOkIgnoresClients(b, b.With(i, c)); }
    forall j | 0 <= j < |b.clients| && j != i ensures CallOk(b.With(i, c), b.clients[j]) {
      CallOkIgnoresClients(b, b.With(i, c), b.clients[j]);
    }
  }

  lemma LogOkIgnoresClients(a: Bridge, b: Bridge)
    requires LogOk(a) && a.log == b.log && a.sequence == b.sequence && a.active == b.active && a.stop == b.stop
    ensures LogOk(b)
  {
  }

  lemma CallOkIgnoresClients(a: Bridge, b: Bridge, c: Client)
    requires CallOk(a, c) && a.log == b.log && a.sequence == b.sequence
    ensures CallOk(b, c)
  {
  }

  lemma Assemble(b: Bridge, i: nat)
    requires b.Shaped() && i < |b.clients| && OthersOk(b, i)
    requires ClientOk(b.clients[i]) && CallOk(b, b.clients[i]) && (b.clients[i].pending ==> Sole(b, i))
    ensures Inv(b)
  {
    hide LogOk, ClientOk, CallOk;
  }

  lemma Focus(b: Bridge, i: nat)
    requires Inv(b) && i < |b.clients|
    ensures OthersOk(b, i) && (b.clients[i].pending ==> Sole(b, i))
  {
    hide LogOk, ClientOk;
  }

  lemma CloseKeeps(b: Bridge, i: nat)
    requires b.Shaped() && i < |b.clients| && OthersOk(b, i)
    ensures Inv(Closed(b, i))
  {
    WithKeeps(b, i, BLANK);
    Assemble(b.With(i, BLANK), i);
  }

  // ---- Completing a call -----------------------------------------------------------------

  predicate Answerable(life: Life) {
    life in {OnRecord, MayRun, AwaitsOwner, MayNot, HasRun}
  }

  /** Connection `i` is in the middle of its own call. */
  ghost predicate InCall(b: Bridge, i: nat) {
    && b.Shaped() && i < |b.clients| && OthersOk(b, i) && Sole(b, i)
    && b.clients[i].open && b.clients[i].pending
    && Balanced(b.clients[i], multiset{}) && Wired(b.clients[i])
    && (b.clients[i].recorded ==> Answerable(LifeOf(b.log, b.clients[i].tool)))
  }

  lemma StopInCall(b: Bridge, i: nat, deactivate: bool)
    requires InCall(b, i)
    ensures InCall(Stop(b, deactivate), i)
    ensures LifeOf(Stop(b, deactivate).log, b.clients[i].tool) == LifeOf(b.log, b.clients[i].tool)
  {
    hide OthersOk, Line, Lines, IdsOf, Balanced, Wired, Advance, LifeOf;
    StopKeeps(b, i, deactivate);
  }

  /** Queuing a reply touches one connection's output and nothing else. */
  lemma RespondEffect(b: Bridge, i: nat, r: Reply)
    requires i < |b.clients|
    ensures var (b', ok) := Respond(b, i, r); var c, c' := b.clients[i], b'.clients[i];
      && b' == b.With(i, c')
      && (ok ==> Queue(c, r) == Some(c') && c'.answered == c.answered + [r]) && (!ok ==> c' == c)
      && c'.asked == c.asked && c'.tool == c.tool && c'.recorded == c.recorded && c'.id == c.id && c'.open == c.open
  {
    hide Line;
    assert b.clients == b.clients[i := b.clients[i]];
  }

  lemma ReplyInCall(b: Bridge, i: nat, body: string)
    requires InCall(b, i)
    ensures var (b', ok) := Respond(b, i, Reply(b.clients[i].id, false, body));
      && OthersOk(b', i) && Sole(b', i) && b'.log == b.log && b'.owned == b.owned
      && (ok ==> ClientOk(Cleared(b'.clients[i])))
  {
    hide OthersOk, Sole, Line, Lines, IdsOf, LifeOf, Respond;
    var r := Reply(b.clients[i].id, false, body);
    RespondEffect(b, i, r);
    var (b', ok) := Respond(b, i, r);
    WithKeeps(b, i, b'.clients[i]);
    if ok { ClearedOk(b.clients[i], b'.clients[i]); }
  }

  /** Once the reply is queued and, for a recorded call, noted in the session, the others are as they were. */
  lemma AnswerKeeps(b: Bridge, i: nat, body: string)
    requires InCall(b, i)
    ensures var (b', ok) := Answered(b, i, body);
      OthersOk(b', i) && b'.clients[i].open && (ok ==> ClientOk(Cleared(b'.clients[i])))
  {
    hide OthersOk, Sole, Respond, Queue, Line, Lines, IdsOf, ClientOk, Advance, LifeOf, Balanced, Wired;
    var r := Reply(b.clients[i].id, false, body);
    var (b1, ok) := Respond(b, i, r);
    ReplyInCall(b, i, body);
    RespondEffect(b, i, r);
    var c := b1.clients[i];
    if ok && c.recorded && b1.owned {
      AnswerLife(LifeOf(b1.log, c.tool), Live(b1.log), c.tool);
      LogKeeps(b1, i, Answer(c.tool));
    }
  }

  lemma FreedKeeps(b: Bridge, i: nat, halt: bool, ok: bool)
    requires b.Shaped() && i < |b.clients| && OthersOk(b, i) && b.clients[i].open
    requires ok ==> ClientOk(Cleared(b.clients[i]))
    ensures var b' := Freed(b, i, halt);
      Inv(CloseUnless((b', ok), i)) && OthersOk(b', i) && !b'.clients[i].pending && b'.clients[i].open
  {
    hide OthersOk, Sole, Inv, ClientOk;
    var c := Cleared(b.clients[i]);
    WithKeeps(b, i, c);
    if halt { StopKeeps(b.With(i, c), i, true); }
    var b' := Freed(b, i, halt);
    CloseKeeps(b', i);
    if ok { Assemble(b', i); }
  }

  lemma CompleteKeeps(b: Bridge, i: nat, text: string, isError: bool, a: Answers)
    requires InCall(b, i)
    ensures var r := Complete(b, i, text, isError, a);
      Inv(CloseUnless(r, i)) && OthersOk(r.0, i) && !r.0.clients[i].pending && r.0.clients[i].open
  {
    hide InCall, OthersOk, Inv, ResultBody, Answered, Freed, ClientOk, CloseUnless, Stop;
    InCallShape(b, i);
    var b1 := if a.endStop then Stop(b, false) else b;
    if a.endStop { StopInCall(b, i, false); }
    InCallShape(b1, i);
    var body := ResultBody(text, isError, a);
    AnswerKeeps(b1, i, body);
    var (b2, ok) := Answered(b1, i, body);
    FreedKeeps(b2, i, a.postStop || a.batchStop, ok);
  }

  lemma InCallShape(b: Bridge, i: nat)
    requires InCall(b, i)
    ensures b.Shaped() && i < |b.clients|
  {
  }

  /** The reply of a completed call carries the id of that very call, and no other connection is touched. */
  lemma CompleteEffect(b: Bridge, i: nat, text: string, isError: bool, a: Answers)
    requires i < |b.clients|
    ensures var r := Complete(b, i, text, isError, a); var c, c' := b.clients[i], r.0.clients[i];
      && c'.asked == c.asked && !c'.pending
      && (if r.1 then exists body :: c'.answered == c.answered + [Reply(c.id, false, body)] else c'.answered == c.answered)
      && (forall j :: 0 <= j < |b.clients| && j != i ==> r.0.clients[j] == b.clients[j])
      && (!b.active ==> !r.0.active)
  {
    hide ResultBody, Respond;
    var b1 := if a.endStop then Stop(b, false) else b;
    var body := ResultBody(text, isError, a);
    RespondEffect(b1, i, Reply(b.clients[i].id, false, body));
    var c, c' := b.clients[i], Complete(b, i, text, isError, a).0.clients[i];
    assert Complete(b, i, text, isError, a).1 ==> c'.answered == c.answered + [Reply(c.id, false, body)];
  }

  lemma AnswerLife(life: Life, live: bool, t: nat)
    requires Answerable(life)
    ensures Advance(life, live, Answer(t)) == Over
  {
  }

  lemma ClearedOk(c: Client, c': Client)
    requires c.open && c.pending && Balanced(c, multiset{}) && Wired(c)
    requires exists body :: Queue(c, Reply(c.id, false, body)) == Some(c')
    ensures ClientOk(Cleared(c')) && Cleared(c').open
  {
    var body :| Queue(c, Reply(c.id, false, body)) == Some(c');
    var idle := c.(pending := false);
    assert Balanced(idle, multiset{c.id});
    QueueLaw(idle, Reply(c.id, false, body), multiset{});
  }

  // ---- Running, refusing, parking --------------------------------------------------------

  /** The call of connection `i` has been recorded and stands at `life`. */
  ghost predicate CallAt(b: Bridge, i: nat, life: Life) {
    && InCall(b, i) && b.clients[i].recorded && !b.clients[i].permission
    && LifeOf(b.log, b.clients[i].tool) == life
  }

  lemma ExecuteKeeps(b: Bridge, i: nat, a: Answers)
    requires CallAt(b, i, MayRun)
    ensures Inv(CloseUnless(Execute(b, i, a), i))
  {
    hide OthersOk, Sole, Inv, Complete, Line, Lines, IdsOf, LifeOf, Advance;
    if !b.active || a.cancelled {
      CompleteKeeps(b, i, "error: ACP tool call cancelled", true, a);
    } else {
      var c := b.clients[i].(armed := true);
      var b1 := b.With(i, c);
      WithKeeps(b, i, c);
      var b2 := if a.startStop then Stop(b1, false) else b1;
      if a.startStop { StopInCall(b1, i, false); }
      if b2.stop {
        CompleteKeeps(b2, i, "error: extension stopped subagent", true, a);
      } else {
        RunKeeps(b2, i, a);
      }
    }
  }

  lemma RunKeeps(b: Bridge, i: nat, a: Answers)
    requires CallAt(b, i, MayRun) && b.active && !b.stop && b.clients[i].armed
    ensures var b3 := b.Log(Run(b.clients[i].tool)); var b4 := if a.duringStop then Stop(b3, false) else b3;
      match a.outcome
      case Async => Inv(b4)
      case Finished(_) => Inv(CloseUnless(Complete(b4, i, a.outcome.Text(), a.outcome.Failed(), a), i))
  {
    hide Sole, Inv, Complete, Line, Lines, IdsOf, Balanced, Wired, LifeOf, ClientOk, CallOk;
    var t := b.clients[i].tool;
    assert Live(b.log);
    LogKeeps(b, i, Run(t));
    var b3 := b.Log(Run(t));
    var b4 := if a.duringStop then Stop(b3, false) else b3;
    if a.duringStop { StopInCall(b3, i, false); }
    match a.outcome
    case Async => ParkedOrRunning(b4, i);
    case Finished(_) => CompleteKeeps(b4, i, a.outcome.Text(), a.outcome.Failed(), a);
  }

  lemma ParkedOrRunning(b: Bridge, i: nat)
    requires InCall(b, i) && b.clients[i].recorded
    requires LifeOf(b.log, b.clients[i].tool) == (if b.clients[i].permission then AwaitsOwner else HasRun)
    requires b.clients[i].permission || b.clients[i].armed
    ensures Inv(b)
  {
    hide OthersOk, Inv, LifeOf, Balanced, Wired;
    Assemble(b, i);
  }

  lemma LogInCall(b: Bridge, i: nat, e: Event, life: Life, life': Life)
    requires CallAt(b, i, life) && ToolOf(e) == Some(b.clients[i].tool)
    requires Advance(life, Live(b.log), e) == life' && Answerable(life')
    ensures CallAt(b.Log(e), i, life')
  {
    hide OthersOk, Sole, LifeOf, Balanced, Wired;
    LogKeeps(b, i, e);
  }

  lemma ApprovedKeeps(b: Bridge, i: nat, a: Answers)
    requires CallAt(b, i, AwaitsOwner)
    ensures Inv(CloseUnless(Approved(b, i, a), i))
  {
    hide OthersOk, Sole, Balanced, Wired, LifeOf, Inv, Execute;
    LogInCall(b, i, Approve(b.clients[i].tool), AwaitsOwner, MayRun);
    ExecuteKeeps(b.Log(Approve(b.clients[i].tool)), i, a);
  }

  lemma BlockedInCall(b: Bridge, i: nat, life: Life)
    requires CallAt(b, i, life)
    ensures CallAt(b.(blocked := true), i, life)
  {
    hide LifeOf, Balanced, Wired, ClientOk, Live;
    var b' := b.(blocked := true);
    forall j | 0 <= j < |b.clients| && j != i ensures CallOk(b', b.clients[j]) {
      CallOkIgnoresClients(b, b', b.clients[j]);
    }
  }

  lemma DeniedKeeps(b: Bridge, i: nat, a: Answers, life: Life)
    requires CallAt(b, i, life) && (life == AwaitsOwner || life == MayNot)
    ensures Inv(CloseUnless(Denied(b, i, a), i))
  {
    hide OthersOk, Sole, Inv, Complete, LifeOf, Balanced, Wired;
    var b1 := b.(blocked := true);
    BlockedInCall(b, i, life);
    LogInCall(b1, i, Refuse(b.clients[i].tool), life, MayNot);
    CompleteKeeps(b1.Log(Refuse(b.clients[i].tool)), i, "error: permission denied", true, a);
  }

  lemma PermitKeeps(b: Bridge, i: nat, a: Answers)
    requires CallAt(b, i, AwaitsOwner)
    ensures Inv(CloseUnless(Permit(b, i, a), i))
  {
    hide OthersOk, Sole, Inv, Complete, Approved, Denied, LifeOf, Line, Lines, IdsOf;
    if a.permissionStop {
      StopInCall(b, i, false);
      CompleteKeeps(Stop(b, false), i, "error: extension stopped tool call", true, a);
    } else if a.permission == HookDeny {
      DeniedKeeps(b, i, a, AwaitsOwner);
    } else if a.permission == HookAllow {
      ApprovedKeeps(b, i, a);
    } else if a.prompt == Some(DenyCall) {
      DeniedKeeps(b, i, a, AwaitsOwner);
    } else if a.prompt.Some? {
      ApprovedKeeps(b, i, a);
    } else {
      var c := b.clients[i].(permission := true);
      WithKeeps(b, i, c);
      ParkedOrRunning(b.With(i, c), i);
    }
  }

  lemma JudgedKeeps(b: Bridge, i: nat, a: Answers)
    requires CallAt(b, i, OnRecord)
    ensures Inv(CloseUnless(Judged(b, i, a), i))
  {
    hide OthersOk, Sole, Inv, Complete, Execute, Denied, Permit, LifeOf, Balanced, Wired;
    var e := Judge(b.clients[i].tool, a.verdict);
    match a.verdict
    case Deny => LogInCall(b, i, e, OnRecord, MayNot); DeniedKeeps(b.Log(e), i, a, MayNot);
    case Allow => LogInCall(b, i, e, OnRecord, MayRun); ExecuteKeeps(b.Log(e), i, a);
    case Ask => LogInCall(b, i, e, OnRecord, AwaitsOwner); PermitKeeps(b.Log(e), i, a);
  }

  // ---- Messages --------------------------------------------------------------------------

  /** Connection `i` is idle or waits for its call, and owes a reply to the request it is handling. */
  ghost predicate Handling(b: Bridge, i: nat, id: string) {
    && b.Shaped() && i < |b.clients| && OthersOk(b, i)
    && (b.clients[i].pending ==> Sole(b, i)) && CallOk(b, b.clients[i])
    && b.clients[i].open && Wired(b.clients[i]) && Balanced(b.clients[i], multiset{id})
    && (!b.clients[i].pending ==> !b.clients[i].permission && !b.clients[i].recorded && !b.clients[i].armed)
  }

  lemma RespondKeeps(b: Bridge, i: nat, r: Reply)
    requires Handling(b, i, r.id)
    ensures Inv(CloseUnless(Respond(b, i, r), i))
  {
    hide OthersOk, Sole, Inv, LifeOf, Line, Lines, IdsOf;
    var c := b.clients[i];
    if Queue(c, r).Some? {
      QueueLaw(c, r, multiset{});
      var c' := Queue(c, r).value;
      WithKeeps(b, i, c');
      CallOkIgnoresClients(b, b.With(i, c'), c);
      Assemble(b.With(i, c'), i);
    } else {
      CloseKeeps(b, i);
    }
  }

  /** A fresh call number belongs to nobody else. */
  lemma NumberKeeps(b: Bridge, i: nat)
    requires b.Shaped() && i < |b.clients| && OthersOk(b, i)
    ensures var b1 := b.(sequence := b.sequence + 1);
      OthersOk(b1, i) && LifeOf(b1.log, b1.sequence) == New
      && forall j :: 0 <= j < |b.clients| && j != i && b.clients[j].pending ==> b.clients[j].tool != b1.sequence
  {
    hide LifeOf, Live, ClientOk;
  }

  lemma AdmittedKeeps(b: Bridge, i: nat, id: string)
    requires Handling(b, i, id) && !b.clients[i].pending
    ensures InCall(Admitted(b, i, id), i) && LifeOf(Admitted(b, i, id).log, b.sequence + 1) == Entered
    ensures !Admitted(b, i, id).clients[i].permission
  {
    hide OthersOk, LifeOf, Live, Line, Lines, IdsOf;
    var t := b.sequence + 1;
    NumberKeeps(b, i);
    var b1 := b.(sequence := t);
    var c := b.clients[i].(pending := true, id := id, tool := t);
    WithKeeps(b1, i, c);
    var b2 := b1.With(i, c);
    assert Sole(b2, i);
    LogKeeps(b2, i, Admit(t));
  }

  lemma RecordedKeeps(b: Bridge, i: nat)
    requires InCall(b, i) && LifeOf(b.log, b.clients[i].tool) == Entered && !b.clients[i].permission
    ensures CallAt(Recorded(b, i), i, OnRecord)
  {
    hide OthersOk, Sole, LifeOf, Line, Lines, IdsOf;
    var c := b.clients[i].(recorded := true);
    WithKeeps(b, i, c);
    LogKeeps(b.With(i, c), i, Record(c.tool));
  }

  lemma CallToolKeeps(b: Bridge, i: nat, m: Message, a: Answers)
    requires m.Request? && Handling(b, i, m.id)
    ensures Inv(CloseUnless(CallTool(b, i, m, a), i))
  {
    hide Handling, Inv, Respond, Admission, ErrorReply;
    assert i < |b.clients| by { HandlingShape(b, i, m.id); }
    match Refusal(b, i, m)
    case Some(reply) => RespondKeeps(b, i, reply);
    case None => AdmissionKeeps(b, i, m.id, a);
  }

  lemma HandlingShape(b: Bridge, i: nat, id: string)
    requires Handling(b, i, id)
    ensures i < |b.clients|
  {
  }

  lemma AdmissionKeeps(b: Bridge, i: nat, id: string, a: Answers)
    requires Handling(b, i, id) && !b.clients[i].pending
    ensures Inv(CloseUnless(Admission(b, i, id, a), i))
  {
    hide OthersOk, Sole, Inv, Complete, Recorded, Judged, LifeOf, Balanced, Wired, CallOk;
    AdmittedKeeps(b, i, id);
    var b1 := Admitted(b, i, id);
    if a.preStop || a.preDeny {
      CompleteKeeps(b1, i, "error: extension refused tool call", true, a);
      var r := Complete(b1, i, "error: extension refused tool call", true, a);
      if a.preStop { StopAfter(r, i); }
    } else if !a.prepared {
      CompleteKeeps(b1, i, a.prepareError.GetOr("error: invalid tool arguments"), true, a);
    } else {
      RecordedKeeps(b1, i);
      if !a.saved {
        CompleteKeeps(Recorded(b1, i), i, "error: could not persist admitted tool call", true, a);
      } else {
        JudgedKeeps(Recorded(b1, i), i, a);
      }
    }
  }

  /** The pre-tool stop: the turn is halted after the refused call has been answered. */
  lemma StopAfter(r: (Bridge, bool), i: nat)
    requires r.0.Shaped() && i < |r.0.clients| && OthersOk(r.0, i)
    requires Inv(CloseUnless(r, i)) && (r.1 ==> !r.0.clients[i].pending)
    ensures Inv(CloseUnless((Stop(r.0, true), r.1), i))
  {
    hide LogOk, Line, Lines, IdsOf, LifeOf;
    StopKeeps(r.0, i, true);
    if r.1 {
      Assemble(Stop(r.0, true), i);
    } else {
      CloseKeeps(Stop(r.0, true), i);
    }
  }
}
