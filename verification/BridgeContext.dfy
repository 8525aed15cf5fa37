/** The durable coordination context: a queue of items forwarded with a prompt and removed once the prompt is done. */
module BridgeContext {
  import opened Common

  const MAX_ITEMS := 256
  const MAX_BYTES: nat := 1024 * 1024

  /** An entry of the stored array; only texts can be forwarded. */
  datatype Item = Text(text: string) | NotText

  /**
   * `pending` is the session's queue and `forwarded` how many of its items the last prepare took. `arrived`, `acked`
   * and `offered` are history: every item ever queued, how many were removed, and how far successful prompts reached.
   */
  datatype Context = Context(pending: seq<Item>, forwarded: nat, arrived: seq<Item>, acked: nat, offered: nat)

  const START := Context([], 0, [], 0, 0)

  /** How many leading items fit the prompt, given the bytes already taken. */
  function Fit(items: seq<Item>, bytes: nat): (n: nat)
    requires bytes <= MAX_BYTES
    ensures n <= |items|
  {
    if items == [] || items[0].NotText? || |items[0].text| > MAX_BYTES - bytes then 0
    else 1 + Fit(items[1..], bytes + |items[0].text|)
  }

  function Render(items: seq<Item>): string {
    if items == [] then ""
    else
      var last := items[|items| - 1];
      var text := if last.Text? then last.text else "";
      Render(items[..|items| - 1]) + "\n[Durable tny coordination context]\n" + text + "\n"
  }

  function Queue(c: Context, items: seq<Item>): Context {
    c.(pending := c.pending + items, arrived := c.arrived + items)
  }

  /** What one prepare takes from the queue. */
  function Takes(pending: seq<Item>): nat {
    if |pending| > MAX_ITEMS then 0 else Fit(pending, 0)
  }

  /**
   * Prepares a prompt: coordination first delivers new items, or fails; then the whole queue must fit. A failure
   * half-way leaves the count of the items taken so far.
   */
  function Prepare(c: Context, delivered: seq<Item>, coordinated: bool): (Context, bool) {
    var c1 := Queue(c, delivered).(forwarded := 0);
    if !coordinated then (c1, false)
    else
      var n := Takes(c1.pending);
      var ok := n == |c1.pending|;
      (c1.(forwarded := n, offered := if ok then c1.acked + n else c1.offered), ok)
  }

  function Ack(c: Context, saves: bool): (Context, bool) {
    if c.forwarded == 0 then (c, true)
    else if |c.pending| < c.forwarded then (c, false)
    else if exists i :: c.forwarded <= i < |c.pending| && c.pending[i].NotText? then (c, false)
    else if !saves then (c, false)
    else (c.(pending := c.pending[c.forwarded..], acked := c.acked + c.forwarded, forwarded := 0), true)
  }

  /** After a successful prepare, any items queued meanwhile and a successful ack, exactly those items are left. */
  lemma AckLeavesWhatWasNotForwarded(c: Context, delivered: seq<Item>, later: seq<Item>)
    requires var (c1, ok) := Prepare(c, delivered, true); ok && Ack(Queue(c1, later), true).1
    ensures Ack(Queue(Prepare(c, delivered, true).0, later), true).0.pending == later
  {
    var c1 := Prepare(c, delivered, true).0;
    assert (c1.pending + later)[|c1.pending|..] == later;
  }

  /** A save that fails changes nothing: the same items are there to be forwarded or acked again. */
  lemma FailedAckRestores(c: Context, saves: bool)
    ensures !Ack(c, saves).1 ==> Ack(c, saves).0 == c
    ensures Ack(c, true).1 && !Ack(c, false).1 ==> c.forwarded > 0 && Ack(c, true).0.pending == c.pending[c.forwarded..]
  {
  }

  // ---- Runs ------------------------------------------------------------------------------

  datatype Op = Arrive(items: seq<Item>) | Prompt(delivered: seq<Item>, coordinated: bool) | Finish(saves: bool)

  function Step(c: Context, op: Op): Context {
    match op
    case Arrive(items) => Queue(c, items)
    case Prompt(delivered, coordinated) => Prepare(c, delivered, coordinated).0
    case Finish(saves) => Ack(c, saves).0
  }

  function After(ops: seq<Op>): Context {
    if ops == [] then START else Step(After(ops[..|ops| - 1]), ops[|ops| - 1])
  }

  /** The queue is what arrived, in order, less what was acked from its front. */
  predicate Faithful(c: Context) {
    c.acked <= |c.arrived| && c.pending == c.arrived[c.acked..]
  }

  /** Whether the most recent prepare succeeded; a turn only starts, and ends, after one that did. */
  function Prepared(ops: seq<Op>): bool {
    if ops == [] then false
    else
      var front, op := ops[..|ops| - 1], ops[|ops| - 1];
      if op.Prompt? then Prepare(After(front), op.delivered, op.coordinated).1 else Prepared(front)
  }

  /** The client's protocol: a prompt is finished only when it was prepared. */
  predicate Disciplined(ops: seq<Op>) {
    forall k :: 0 <= k < |ops| && ops[k].Finish? ==> Prepared(ops[..k])
  }

  lemma QueueFaithful(c: Context, items: seq<Item>)
    requires Faithful(c)
    ensures Faithful(Queue(c, items))
  {
    assert (c.arrived + items)[c.acked..] == c.arrived[c.acked..] + items;
  }

  lemma AckFaithful(c: Context, saves: bool)
    requires Faithful(c)
    ensures Faithful(Ack(c, saves).0)
  {
    if c.forwarded <= |c.pending| {
      assert c.arrived[c.acked..][c.forwarded..] == c.arrived[c.acked + c.forwarded..];
    }
  }

  /** Context is never lost, repeated or reordered in the queue, whatever fails and in whatever order. */
  lemma {:induction false} QueueIsFaithful(ops: seq<Op>)
    ensures Faithful(After(ops))
  {
    if ops != [] {
      var c, op := After(ops[..|ops| - 1]), ops[|ops| - 1];
      QueueIsFaithful(ops[..|ops| - 1]);
      match op
      case Arrive(items) => QueueFaithful(c, items);
      case Prompt(delivered, _) => QueueFaithful(c, delivered);
      case Finish(saves) => AckFaithful(c, saves);
    }
  }

  lemma {:induction false} DisciplineReaches(ops: seq<Op>)
    requires Disciplined(ops)
    ensures var c := After(ops);
      c.acked <= c.offered && (Prepared(ops) ==> c.acked + c.forwarded <= c.offered)
  {
    if ops != [] {
      var n := |ops| - 1;
      assert Disciplined(ops[..n]) by {
        forall k | 0 <= k < n && ops[k].Finish? ensures Prepared(ops[..n][..k]) { assert ops[..n][..k] == ops[..k]; }
      }
      DisciplineReaches(ops[..n]);
      if ops[n].Finish? { assert Prepared(ops[..n]); }
    }
  }

  /** Under the client's protocol every item is forwarded in a prepared prompt before it is removed. */
  lemma AckedOnlyAfterForwarded(ops: seq<Op>)
    requires Disciplined(ops)
    ensures After(ops).acked <= After(ops).offered
  {
    DisciplineReaches(ops);
  }

  /**
   * Without the protocol that promise fails. From any state in which it holds, an ack right after a prepare stays within
   * what prompts carried exactly when the prepare succeeded, or what it took had been carried before, or the ack itself
   * cannot go through.
   */
  lemma AckAfterPrepare(c: Context, delivered: seq<Item>, coordinated: bool)
    requires c.acked <= c.offered
    ensures var (c1, ok) := Prepare(c, delivered, coordinated); var c2 := Ack(c1, true).0;
      c2.acked <= c2.offered <==>
        (ok || !coordinated || c.acked + Takes(c.pending + delivered) <= c.offered
         || exists i :: c1.forwarded <= i < |c1.pending| && c1.pending[i].NotText?)
  {
  }

  /**
   * The failing case: one item that fits and one that is too long; the ack drops the first, which no prompt carried. Such
   * a queue comes from a session document made elsewhere: `AddContext` below never builds one.
   */
  lemma AckAfterFailedPrepareLoses()
    ensures var items := [Text("note"), Text(seq(MAX_BYTES, i => 'x'))];
      var (c1, ok) := Prepare(START, items, true); var (c2, acked) := Ack(c1, true);
      !ok && c1.forwarded == 1 && acked && c2.pending == items[1..] && c2.offered < c2.acked
  {
    var items := [Text("note"), Text(seq(MAX_BYTES, i => 'x'))];
    assert [] + items == items;
    assert Fit(items[1..], 4) == 0;
    assert Fit(items, 0) == 1;
  }

  // ---- What a session lets into its queue ------------------------------------------------

  function Bytes(items: seq<Item>): nat {
    if items == [] then 0 else (if items[0].Text? then |items[0].text| else 0) + Bytes(items[1..])
  }

  /** A queue of texts within 256 items and 1 MiB. */
  predicate Bounded(items: seq<Item>) {
    |items| <= MAX_ITEMS && (forall i :: 0 <= i < |items| ==> items[i].Text?) && Bytes(items) <= MAX_BYTES
  }

  /** `session_add_runtime_context`: a text enters only when the queue with it stays within its bounds. */
  function AddContext(items: seq<Item>, text: string): Option<seq<Item>> {
    if |items| >= MAX_ITEMS || (exists i :: 0 <= i < |items| && items[i].NotText?) || Bytes(items) + |text| > MAX_BYTES
    then None else Some(items + [Text(text)])
  }

  lemma {:induction false} BytesAppend(a: seq<Item>, b: seq<Item>)
    ensures Bytes(a + b) == Bytes(a) + Bytes(b)
  {
    if a == [] {
      assert a + b == b;
    } else {
      assert (a + b)[1..] == a[1..] + b;
      BytesAppend(a[1..], b);
    }
  }

  lemma {:induction false} FitTakesAll(items: seq<Item>, bytes: nat)
    requires bytes + Bytes(items) <= MAX_BYTES && forall i :: 0 <= i < |items| ==> items[i].Text?
    ensures Fit(items, bytes) == |items|
  {
    if items != [] { FitTakesAll(items[1..], bytes + |items[0].text|); }
  }

  /** The gate lets a text in exactly when the queue stays bounded with it, and taking items off the front keeps it so. */
  lemma GateKeepsBounded(items: seq<Item>, text: string, taken: nat)
    requires taken <= |items|
    ensures AddContext(items, text) == if Bounded(items + [Text(text)]) then Some(items + [Text(text)]) else None
    ensures Bounded(items) ==> Bounded(items[taken..])
  {
    var more := items + [Text(text)];
    BytesAppend(items, [Text(text)]);
    BytesAppend(items[..taken], items[taken..]);
    assert items[..taken] + items[taken..] == items;
    assert forall i :: 0 <= i < |items| ==> more[i] == items[i];
  }

  /** A bounded queue is always prepared whole, so then any acknowledgement after a prepare is safe. */
  lemma BoundedQueueIsPrepared(c: Context, delivered: seq<Item>)
    requires Bounded(c.pending + delivered) && c.acked <= c.offered
    ensures var (c1, ok) := Prepare(c, delivered, true); ok && Ack(c1, true).0.acked <= Ack(c1, true).0.offered
  {
    FitTakesAll(c.pending + delivered, 0);
  }

  // ---- What one prepare and one acknowledgement do ---------------------------------------

  predicate AllTexts(items: seq<Item>) {
    forall i :: 0 <= i < |items| ==> items[i].Text?
  }

  /** What fits is the longest run of texts from the front that stays within 1 MiB. */
  lemma {:induction false} FitIsLongest(items: seq<Item>, bytes: nat)
    requires bytes <= MAX_BYTES
    ensures var n := Fit(items, bytes);
      && n <= |items| && AllTexts(items[..n]) && bytes + Bytes(items[..n]) <= MAX_BYTES
      && (n < |items| ==> items[n].NotText? || bytes + Bytes(items[..n]) + |items[n].text| > MAX_BYTES)
  {
    if items != [] && items[0].Text? && |items[0].text| <= MAX_BYTES - bytes {
      var rest := items[1..];
      FitIsLongest(rest, bytes + |items[0].text|);
      var n := Fit(items, bytes);
      assert items[..n][1..] == rest[..n - 1];
      assert forall i :: 1 <= i < n ==> items[..n][i] == rest[..n - 1][i - 1];
    }
  }

  /** A prepare queues what was delivered whatever happens, and succeeds exactly when the whole queue can be forwarded. */
  lemma PrepareTells(c: Context, delivered: seq<Item>, coordinated: bool)
    ensures var (c', ok) := Prepare(c, delivered, coordinated); var p := c.pending + delivered;
      && c'.pending == p && c'.arrived == c.arrived + delivered && c'.acked == c.acked
      && ok == (coordinated && |p| <= MAX_ITEMS && AllTexts(p) && Bytes(p) <= MAX_BYTES)
      && c'.offered == (if ok then c.acked + |p| else c.offered)
      && (ok ==> c'.forwarded == |p|) && (!coordinated || |p| > MAX_ITEMS ==> c'.forwarded == 0)
      && c'.forwarded <= |p| && AllTexts(p[..c'.forwarded]) && Bytes(p[..c'.forwarded]) <= MAX_BYTES
      && (coordinated && |p| <= MAX_ITEMS && c'.forwarded < |p| ==>
            p[c'.forwarded].NotText? || Bytes(p[..c'.forwarded]) + |p[c'.forwarded].text| > MAX_BYTES)
  {
    hide Fit;
    var p := c.pending + delivered;
    FitIsLongest(p, 0);
    assert p[..|p|] == p;
    assert p[..0] == [];
    if |p| <= MAX_ITEMS && AllTexts(p) && Bytes(p) <= MAX_BYTES { FitAll(p); }
  }

  lemma FitAll(items: seq<Item>)
    requires AllTexts(items) && Bytes(items) <= MAX_BYTES
    ensures Fit(items, 0) == |items|
  {
    FitTakesAll(items, 0);
  }

  /** An acknowledgement goes through exactly when there is nothing to remove, or what is left is text and can be saved. */
  lemma AckTells(c: Context, saves: bool)
    ensures var (c', ok) := Ack(c, saves);
      && (ok <==> c.forwarded == 0 || (c.forwarded <= |c.pending| && AllTexts(c.pending[c.forwarded..]) && saves))
      && (ok && c.forwarded > 0 ==>
            c'.pending == c.pending[c.forwarded..] && c'.acked == c.acked + c.forwarded && c'.forwarded == 0
            && c'.arrived == c.arrived && c'.offered == c.offered)
      && (!ok || c.forwarded == 0 ==> c' == c)
  {
    if c.forwarded <= |c.pending| {
      var rest := c.pending[c.forwarded..];
      assert forall i :: 0 <= i < |rest| ==> rest[i] == c.pending[c.forwarded + i];
      assert forall i :: c.forwarded <= i < |c.pending| ==> c.pending[i] == rest[i - c.forwarded];
    }
  }

  function Headed(text: string): string {
    "\n[Durable tny coordination context]\n" + text + "\n"
  }

  lemma RenderLast(items: seq<Item>)
    requires items != [] && items[|items| - 1].Text?
    ensures Render(items) == Render(items[..|items| - 1]) + Headed(items[|items| - 1].text)
  {
    Regroup(Render(items[..|items| - 1]), "\n[Durable tny coordination context]\n", items[|items| - 1].text, "\n");
  }

  lemma Regroup(a: string, b: string, c: string, d: string)
    ensures a + b + c + d == a + b + (c + d) && a + b + c + d == a + (b + c + d)
  {
  }

  /** A prompt carries every forwarded text whole, each under its own heading, in the order of the queue. */
  lemma {:induction false} PromptCarries(items: seq<Item>, i: nat)
    requires AllTexts(items) && i < |items|
    ensures Render(items) == Render(items[..i]) + Headed(items[i].text) + Render(items[i + 1..])
    decreases |items|
  {
    hide Headed, Render;
    var n := |items| - 1;
    RenderLast(items);
    if i == n {
      assert items[i + 1..] == [] && Render([]) == "" by { NothingRendered(); }
      assert Render(items[..i]) + Headed(items[i].text) + "" == Render(items[..i]) + Headed(items[i].text);
    } else {
      PromptCarries(items[..n], i);
      var tail := items[i + 1..];
      assert items[..n][..i] == items[..i] && tail[..|tail| - 1] == items[..n][i + 1..] && tail[|tail| - 1] == items[n];
      RenderLast(tail);
      Regroup(Render(items[..i]), Headed(items[i].text), Render(tail[..|tail| - 1]), Headed(items[n].text));
    }
  }

  lemma NothingRendered()
    ensures Render([]) == ""
  {
  }

  lemma FitStep(items: seq<Item>, i: nat, bytes: nat)
    requires i < |items| && bytes <= MAX_BYTES
    ensures Fit(items[i..], bytes) ==
      var item := items[i];
      if item.NotText? || |item.text| > MAX_BYTES - bytes then 0
      else 1 + Fit(items[i + 1..], bytes + |item.text|)
  {
    assert items[i..][1..] == items[i + 1..];
  }

  lemma RenderStep(items: seq<Item>, i: nat)
    requires i < |items| && items[i].Text?
    ensures Render(items[..i + 1]) ==
      Render(items[..i]) + "\n[Durable tny coordination context]\n" + items[i].text + "\n"
  {
    assert items[..i + 1][..i] == items[..i];
  }

  /** The session's queue as the program updates it. */
  class Session {
    var pending: seq<Item>
    var forwarded: nat
    ghost var arrived: seq<Item>
    ghost var acked: nat
    ghost var offered: nat

    ghost function View(): Context
      reads this
    {
      Context(pending, forwarded, arrived, acked, offered)
    }

    /** Appends the queued context to a prompt, within 256 items and 1 MiB. */
    method PreparePrompt(delivered: seq<Item>, coordinated: bool) returns (ok: bool, context: string)
      modifies this
      ensures (View(), ok) == Prepare(old(View()), delivered, coordinated)
      ensures coordinated ==> context == Render(pending[..forwarded])
    {
      context := "";
      forwarded := 0;
      pending := pending + delivered;
      arrived := arrived + delivered;
      if !coordinated { return false, context; }
      if |pending| > MAX_ITEMS { return false, context; }
      ok, context := Gather();
      if ok { offered := acked + forwarded; }
    }

    /** Takes items from the front while they are texts that still fit. */
    method Gather() returns (ok: bool, context: string)
      requires forwarded == 0
      modifies this`forwarded
      ensures forwarded == Fit(pending, 0) && ok == (forwarded == |pending|)
      ensures context == Render(pending[..forwarded])
    {
      context := "";
      ghost var total := Fit(pending, 0);
      var bytes: nat, i: nat := 0, 0;
      assert pending[0..] == pending;
      while i < |pending|
        invariant i <= |pending| && bytes <= MAX_BYTES && forwarded == i
        invariant total == i + Fit(pending[i..], bytes)
        invariant context == Render(pending[..i])
      {
        hide Fit, Render;
        FitStep(pending, i, bytes);
        if pending[i].NotText? || |pending[i].text| > MAX_BYTES - bytes { return false, context; }
        RenderStep(pending, i);
        bytes := bytes + |pending[i].text|;
        context := context + "\n[Durable tny coordination context]\n" + pending[i].text + "\n";
        forwarded := forwarded + 1;
        i := i + 1;
      }
      return true, context;
    }

    /** Removes the forwarded items once their prompt is done; a failed save puts the old queue back. */
    method AckContext(saves: bool) returns (ok: bool)
      modifies this
      ensures (View(), ok) == Ack(old(View()), saves)
    {
      if forwarded == 0 { return true; }
      if |pending| < forwarded { return false; }
      var remaining: seq<Item> := [];
      var i := 0;
      while i < |pending|
        invariant i <= |pending|
        invariant remaining == if i <= forwarded then [] else pending[forwarded..i]
        invariant forall j :: forwarded <= j < i ==> pending[j].Text?
      {
        if i >= forwarded {
          if pending[i].NotText? { return false; }
          remaining := remaining + [pending[i]];
        }
        i := i + 1;
      }
      assert remaining == pending[forwarded..];
      var before := pending;
      pending := remaining;
      if !saves {
        pending := before;
        return false;
      }
      acked := acked + forwarded;
      forwarded := 0;
      return true;
    }
  }
}
