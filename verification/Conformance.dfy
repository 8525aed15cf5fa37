/** Validation of a conformance scenario's events, and the normalised events that go into the release report. */
module Conformance {
  import opened Common

  /** A JSON value of an event; `Other` keeps lists and the like with their truth value. */
  datatype Value = Null | Bool(b: bool) | Int(n: int) | Text(s: string) | Dict(size: nat, body: string) | Other(repr: string, truthy: bool)

  type Event = map<string, Value>

  /** `event.get(key)`. */
  function Get(e: Event, key: string): Value {
    if key in e then e[key] else Null
  }

  datatype Scenario = Scenario(
    id: string, expected: seq<string>, allowReset: bool, terminalReasons: Option<seq<Value>>,
    terminal: Option<(Value, nat)>, rejectedText: Option<Value>, stableAuth: bool)

  predicate WellTyped(e: Event) {
    && Get(e, "type").Text?
    && Get(e, "sequence").Int? && Get(e, "sequence").n >= 0
    && Get(e, "timestamp_ms").Int? && Get(e, "timestamp_ms").n >= 0
  }

  predicate AllTyped(events: seq<Event>) {
    forall i :: 0 <= i < |events| ==> WellTyped(events[i])
  }

  function TypeOf(e: Event): string {
    match Get(e, "type")
    case Text(s) => s
    case _ => ""
  }

  function SequenceOf(e: Event): int {
    match Get(e, "sequence")
    case Int(n) => n
    case _ => 0
  }

  function TimeOf(e: Event): int {
    match Get(e, "timestamp_ms")
    case Int(n) => n
    case _ => 0
  }

  function Types(events: seq<Event>): (ts: seq<string>)
    ensures |ts| == |events|
  {
    seq(|events|, i requires 0 <= i < |events| => TypeOf(events[i]))
  }

  // ---- Expected order --------------------------------------------------------------------

  /** Positions at which the expected types occur, in order. */
  predicate Embeds(at: seq<nat>, expected: seq<string>, types: seq<string>) {
    && |at| == |expected|
    && (forall k :: 0 <= k < |at| ==> at[k] < |types| && types[at[k]] == expected[k])
    && forall j, k :: 0 <= j < k < |at| ==> at[j] < at[k]
  }

  ghost predicate Subsequence(expected: seq<string>, types: seq<string>) {
    exists at :: Embeds(at, expected, types)
  }

  function IndexFrom(types: seq<string>, t: string, cursor: nat): (k: nat)
    requires cursor <= |types|
    ensures cursor <= k <= |types| && (k < |types| ==> types[k] == t)
    ensures forall j :: cursor <= j < k ==> types[j] != t
    decreases |types| - cursor
  {
    if cursor == |types| || types[cursor] == t then cursor else IndexFrom(types, t, cursor + 1)
  }

  /** The greedy scan: each expected type is looked for after the one before. */
  function Greedy(expected: seq<string>, types: seq<string>, cursor: nat): bool
    requires cursor <= |types|
  {
    if expected == [] then true
    else
      var k := IndexFrom(types, expected[0], cursor);
      k < |types| && Greedy(expected[1..], types, k + 1)
  }

  lemma {:induction false} GreedyFinds(expected: seq<string>, types: seq<string>, cursor: nat) returns (at: seq<nat>)
    requires cursor <= |types| && Greedy(expected, types, cursor)
    ensures Embeds(at, expected, types) && forall k :: 0 <= k < |at| ==> cursor <= at[k]
  {
    at := [];
    if expected != [] {
      var k := IndexFrom(types, expected[0], cursor);
      var rest := GreedyFinds(expected[1..], types, k + 1);
      at := [k] + rest;
    }
  }

  lemma {:induction false} GreedyMissesNothing(expected: seq<string>, types: seq<string>, cursor: nat, at: seq<nat>)
    requires cursor <= |types| && Embeds(at, expected, types)
    requires at != [] ==> cursor <= at[0]
    ensures Greedy(expected, types, cursor)
  {
    if expected != [] {
      var k := IndexFrom(types, expected[0], cursor);
      assert k <= at[0];
      var rest := at[1..];
      assert Embeds(rest, expected[1..], types);
      assert rest != [] ==> at[0] < at[1] == rest[0];
      GreedyMissesNothing(expected[1..], types, k + 1, rest);
    }
  }

  /** The greedy scan accepts exactly the expected lists that are subsequences of the actual types. */
  lemma GreedyIsSubsequence(expected: seq<string>, types: seq<string>)
    ensures Greedy(expected, types, 0) <==> Subsequence(expected, types)
  {
    if Greedy(expected, types, 0) {
      var at := GreedyFinds(expected, types, 0);
    }
    if Subsequence(expected, types) {
      var at :| Embeds(at, expected, types);
      GreedyMissesNothing(expected, types, 0, at);
    }
  }

  // ---- Adjacent order --------------------------------------------------------------------

  /** Whether the counters may start over after event `i`. */
  predicate ResetsAfter(events: seq<Event>, s: Scenario, i: nat)
    requires i < |events|
  {
    s.allowReset && TypeOf(events[i]) == "turn_end"
  }

  predicate InOrderAt(events: seq<Event>, s: Scenario, i: nat)
    requires i + 1 < |events|
  {
    || ResetsAfter(events, s, i)
    || (SequenceOf(events[i]) < SequenceOf(events[i + 1]) && TimeOf(events[i]) <= TimeOf(events[i + 1]))
  }

  predicate InOrder(events: seq<Event>, s: Scenario) {
    forall i :: 0 <= i < |events| - 1 ==> InOrderAt(events, s, i)
  }

  /** Checking neighbours gives the order of any two events with no permitted reset between them. */
  lemma {:induction false} OrderIsGlobal(events: seq<Event>, s: Scenario, i: nat, j: nat)
    requires InOrder(events, s) && i < j < |events|
    requires forall k :: i <= k < j ==> !ResetsAfter(events, s, k)
    ensures SequenceOf(events[i]) < SequenceOf(events[j]) && TimeOf(events[i]) <= TimeOf(events[j])
    decreases j
  {
    assert InOrderAt(events, s, j - 1);
    if i < j - 1 { OrderIsGlobal(events, s, i, j - 1); }
  }

  // ---- The remaining checks --------------------------------------------------------------

  /** The events of one type, in order. */
  function OfType(events: seq<Event>, t: string): seq<Event> {
    if events == [] then []
    else OfType(events[..|events| - 1], t) + if TypeOf(events[|events| - 1]) == t then [events[|events| - 1]] else []
  }

  function Reasons(events: seq<Event>): (rs: seq<Value>)
    ensures |rs| == |events|
  {
    seq(|events|, i requires 0 <= i < |events| => Get(events[i], "stop_reason"))
  }

  predicate EndsTurn(events: seq<Event>) {
    events != [] && TypeOf(events[|events| - 1]) == "turn_end"
  }

  predicate TerminalOk(events: seq<Event>, s: Scenario) {
    var reasons := Reasons(OfType(events, "turn_end"));
    match (s.terminalReasons, s.terminal)
    case (Some(rs), _) => reasons == rs && EndsTurn(events)
    case (None, Some((reason, count))) =>
      |reasons| == count && (forall i :: 0 <= i < |reasons| ==> reasons[i] == reason) && EndsTurn(events)
    case _ => true
  }

  predicate RejectionAt(events: seq<Event>, text: Value, i: nat)
    requires i < |events|
  {
    && Get(events[i], "text") == text
    && i + 1 < |events| && TypeOf(events[i + 1]) == "turn_end"
    && Get(events[i + 1], "stop_reason") == Text("interrupted")
  }

  predicate RejectionOk(events: seq<Event>, s: Scenario) {
    s.rejectedText.Some? ==>
      && |OfType(events, "steer_rejected")| == 1
      && forall i :: 0 <= i < |events| && TypeOf(events[i]) == "steer_rejected" ==> RejectionAt(events, s.rejectedText.value, i)
  }

  predicate AuthOk(events: seq<Event>, s: Scenario) {
    s.stableAuth ==>
      var errors := OfType(events, "error");
      |errors| == 1 && Get(errors[0], "error_code").Int?
  }

  const FUTURE := "unknown_future_event"

  predicate FutureOk(events: seq<Event>, s: Scenario) {
    s.id == FUTURE ==>
      && |events| == 1 && Get(events[0], "kind").Int? && Get(events[0], "kind").n > 13
      && Get(events[0], "payload").Dict? && Get(events[0], "payload").size > 0
  }

  /** `_validate_events` raises no error. */
  predicate Accepts(events: seq<Event>, s: Scenario) {
    && AllTyped(events) && Greedy(s.expected, Types(events), 0) && InOrder(events, s)
    && TerminalOk(events, s) && RejectionOk(events, s) && AuthOk(events, s) && FutureOk(events, s)
  }

  // ---- Acceptance, event by event --------------------------------------------------------

  /** The positions of the events of one type, in order. */
  predicate Positions(events: seq<Event>, t: string, at: seq<nat>) {
    && (forall k :: 0 <= k < |at| ==> at[k] < |events| && TypeOf(events[at[k]]) == t)
    && (forall j, k :: 0 <= j < k < |at| ==> at[j] < at[k])
    && forall i :: 0 <= i < |events| && TypeOf(events[i]) == t ==> i in at
  }

  lemma {:induction false} Rising(at: seq<nat>, j: nat, k: nat)
    requires (forall j, k :: 0 <= j < k < |at| ==> at[j] < at[k]) && j <= k < |at|
    ensures at[j] + (k - j) <= at[k]
    decreases k
  {
    if j < k { Rising(at, j, k - 1); }
  }

  lemma NoMorePositions(events: seq<Event>, t: string, at: seq<nat>)
    requires Positions(events, t, at)
    ensures |at| <= |events|
  {
    if at != [] { Rising(at, 0, |at| - 1); }
  }

  lemma {:induction false} PositionsOf(events: seq<Event>, t: string) returns (at: seq<nat>)
    ensures Positions(events, t, at)
  {
    at := [];
    if events != [] {
      var n := |events| - 1;
      at := PositionsOf(events[..n], t);
      if TypeOf(events[n]) == t {
        var all := at + [n];
        assert forall i :: i in at ==> i in all;
        assert all[|at|] == n;
        at := all;
      }
    }
  }

  /** Collecting the events of one type is reading them off their positions. */
  lemma {:induction false} OfTypeIs(events: seq<Event>, t: string, at: seq<nat>)
    requires Positions(events, t, at)
    ensures |OfType(events, t)| == |at| && forall k :: 0 <= k < |at| ==> OfType(events, t)[k] == events[at[k]]
  {
    hide TypeOf;
    if events != [] {
      var n := |events| - 1;
      if TypeOf(events[n]) == t {
        LastPosition(events, t, at);
        var front := at[..|at| - 1];
        assert Positions(events[..n], t, front) by {
          forall i | 0 <= i < n && TypeOf(events[i]) == t ensures i in front { assert i in at && i != at[|at| - 1]; }
        }
        OfTypeIs(events[..n], t, front);
      } else {
        assert Positions(events[..n], t, at);
        OfTypeIs(events[..n], t, at);
      }
    } else {
      NoMorePositions(events, t, at);
    }
  }

  lemma LastPosition(events: seq<Event>, t: string, at: seq<nat>)
    requires Positions(events, t, at) && events != [] && TypeOf(events[|events| - 1]) == t
    ensures at != [] && at[|at| - 1] == |events| - 1
  {
    var k :| 0 <= k < |at| && at[k] == |events| - 1;
    Rising(at, k, |at| - 1);
  }

  /** The only event of its type. */
  predicate Only(events: seq<Event>, t: string, i: nat) {
    i < |events| && forall j :: 0 <= j < |events| ==> (TypeOf(events[j]) == t <==> j == i)
  }

  lemma OnlyAt(events: seq<Event>, t: string, at: seq<nat>, i: nat)
    requires Positions(events, t, at)
    ensures Only(events, t, i) <==> at == [i]
  {
    hide TypeOf;
    if Only(events, t, i) {
      assert TypeOf(events[i]) == t;
      assert forall k :: 0 <= k < |at| ==> at[k] == i;
      if at != [] { Rising(at, 0, |at| - 1); }
    }
    if at == [i] {
      assert at[0] == i;
      forall j | 0 <= j < |events| ensures TypeOf(events[j]) == t <==> j == i { assert j in at <==> j == i; }
    }
  }

  lemma OnlyIs(events: seq<Event>, t: string)
    ensures |OfType(events, t)| == 1 <==> exists i: nat :: Only(events, t, i)
    ensures forall i: nat :: Only(events, t, i) ==> |OfType(events, t)| == 1 && OfType(events, t)[0] == events[i]
  {
    hide TypeOf, Positions, Only, OfType;
    var at := PositionsOf(events, t);
    OfTypeIs(events, t, at);
    if |at| == 1 {
      OnlyAt(events, t, at, at[0]);
      assert at == [at[0]];
    }
    forall i: nat | Only(events, t, i) ensures at == [i] { OnlyAt(events, t, at, i); }
  }

  /** The turns of the scenario end for these reasons, in this order, and the last event ends the last of them. */
  ghost predicate TurnsEnd(events: seq<Event>, reasons: seq<Value>) {
    && (exists at :: Positions(events, "turn_end", at) && EndedFor(events, at, reasons))
    && events != [] && Get(events[|events| - 1], "type") == Text("turn_end")
  }

  predicate EndedFor(events: seq<Event>, at: seq<nat>, reasons: seq<Value>) {
    |at| == |reasons|
    && forall k :: 0 <= k < |at| ==> at[k] < |events| && Get(events[at[k]], "stop_reason") == reasons[k]
  }

  lemma TurnsEndIs(events: seq<Event>, rs: seq<Value>)
    ensures TurnsEnd(events, rs) <==> Reasons(OfType(events, "turn_end")) == rs && EndsTurn(events)
  {
    hide OfType;
    var at := PositionsOf(events, "turn_end");
    EndedForIs(events, at, rs);
    if TurnsEnd(events, rs) {
      var other :| Positions(events, "turn_end", other) && EndedFor(events, other, rs);
      EndedForIs(events, other, rs);
    }
  }

  lemma EndedForIs(events: seq<Event>, at: seq<nat>, rs: seq<Value>)
    requires Positions(events, "turn_end", at)
    ensures EndedFor(events, at, rs) <==> Reasons(OfType(events, "turn_end")) == rs
  {
    hide OfType, TypeOf;
    OfTypeIs(events, "turn_end", at);
    var reasons := Reasons(OfType(events, "turn_end"));
    assert |reasons| == |at|;
    assert forall k :: 0 <= k < |at| ==> at[k] < |events| && reasons[k] == Get(events[at[k]], "stop_reason");
  }

  lemma TerminalExactly(events: seq<Event>, s: Scenario)
    ensures TerminalOk(events, s) <==>
      match (s.terminalReasons, s.terminal)
      case (Some(reasons), _) => TurnsEnd(events, reasons)
      case (None, Some((reason, count))) => TurnsEnd(events, seq(count, _ => reason))
      case (None, None) => true
  {
    hide OfType, TurnsEnd;
    if s.terminalReasons.Some? { TurnsEndIs(events, s.terminalReasons.value); }
    if s.terminal.Some? {
      var repeated := seq(s.terminal.value.1, _ => s.terminal.value.0);
      TurnsEndIs(events, repeated);
    }
  }

  lemma RejectionExactly(events: seq<Event>, s: Scenario)
    ensures RejectionOk(events, s) <==>
      (s.rejectedText.Some? ==> exists i: nat ::
         && Only(events, "steer_rejected", i) && Get(events[i], "text") == s.rejectedText.value
         && i + 1 < |events| && Get(events[i + 1], "type") == Text("turn_end")
         && Get(events[i + 1], "stop_reason") == Text("interrupted"))
  {
    hide OfType, Get;
    OnlyIs(events, "steer_rejected");
    if s.rejectedText.Some? && RejectionOk(events, s) {
      var i: nat :| Only(events, "steer_rejected", i);
      assert RejectionAt(events, s.rejectedText.value, i);
    }
  }

  lemma AuthExactly(events: seq<Event>, s: Scenario)
    ensures AuthOk(events, s) <==>
      (s.stableAuth ==> exists i: nat :: Only(events, "error", i) && Get(events[i], "error_code").Int?)
  {
    hide OfType, Get;
    OnlyIs(events, "error");
  }

  /** No turn ends from event `i` on before `j`, or the scenario permits no reset. */
  predicate Continuous(events: seq<Event>, s: Scenario, i: nat, j: nat)
    requires j <= |events|
  {
    s.allowReset ==> forall k :: i <= k < j ==> Get(events[k], "type") != Text("turn_end")
  }

  predicate Ascending(events: seq<Event>, i: nat, j: nat)
    requires i < |events| && j < |events|
  {
    SequenceOf(events[i]) < SequenceOf(events[j]) && TimeOf(events[i]) <= TimeOf(events[j])
  }

  lemma OrderExactly(events: seq<Event>, s: Scenario)
    ensures InOrder(events, s) <==>
      forall i, j :: 0 <= i < j < |events| && Continuous(events, s, i, j) ==> Ascending(events, i, j)
  {
    hide SequenceOf, TimeOf;
    if InOrder(events, s) {
      forall i, j | 0 <= i < j < |events| && Continuous(events, s, i, j) ensures Ascending(events, i, j) {
        forall k | i <= k < j ensures !ResetsAfter(events, s, k) { assert Get(events[k], "type") != Text("turn_end") || !s.allowReset; }
        OrderIsGlobal(events, s, i, j);
      }
    }
    if forall i, j :: 0 <= i < j < |events| && Continuous(events, s, i, j) ==> Ascending(events, i, j) {
      forall i | 0 <= i < |events| - 1 ensures InOrderAt(events, s, i) {
        if !ResetsAfter(events, s, i) { assert Continuous(events, s, i, i + 1); }
      }
    }
  }

  /**
   * The whole validation, without lists or scans: events are well typed, the expected types occur in order, counters rise
   * between permitted resets, turns end as told, and the single rejection, error or future event is as it must be.
   */
  lemma AcceptsExactly(events: seq<Event>, s: Scenario)
    ensures Accepts(events, s) <==>
      && (forall e <- events :: Get(e, "type").Text? && Get(e, "sequence").Int? && Get(e, "timestamp_ms").Int?
            && Get(e, "sequence").n >= 0 && Get(e, "timestamp_ms").n >= 0)
      && Subsequence(s.expected, Types(events))
      && (forall i, j :: 0 <= i < j < |events| && Continuous(events, s, i, j) ==> Ascending(events, i, j))
      && (match (s.terminalReasons, s.terminal)
          case (Some(reasons), _) => TurnsEnd(events, reasons)
          case (None, Some((reason, count))) => TurnsEnd(events, seq(count, _ => reason))
          case (None, None) => true)
      && (s.rejectedText.Some? ==> exists i: nat ::
            && Only(events, "steer_rejected", i) && Get(events[i], "text") == s.rejectedText.value
            && i + 1 < |events| && Get(events[i + 1], "type") == Text("turn_end")
            && Get(events[i + 1], "stop_reason") == Text("interrupted"))
      && (s.stableAuth ==> exists i: nat :: Only(events, "error", i) && Get(events[i], "error_code").Int?)
      && (s.id == "unknown_future_event" ==>
            && |events| == 1 && Get(events[0], "kind").Int? && Get(events[0], "kind").n >= 14
            && Get(events[0], "payload").Dict? && Get(events[0], "payload").size != 0)
  {
    hide Greedy, InOrder, TerminalOk, RejectionOk, AuthOk, Get, TurnsEnd, Only, Continuous, Ascending, Subsequence;
    GreedyIsSubsequence(s.expected, Types(events));
    OrderExactly(events, s);
    TerminalExactly(events, s);
    RejectionExactly(events, s);
    AuthExactly(events, s);
    assert AllTyped(events) <==> forall e <- events :: WellTyped(e);
  }

  // ---- Normalisation ---------------------------------------------------------------------

  function Truthy(v: Value): bool {
    match v
    case Null => false
    case Bool(b) => b
    case Int(n) => n != 0
    case Text(s) => s != ""
    case Dict(size, _) => size > 0
    case Other(_, t) => t
  }

  /** The values that count as set: all but null, false, zero and what is empty. */
  lemma TruthyExactly(v: Value)
    ensures Truthy(v) <==>
      v !in {Null, Bool(false), Int(0), Text([])} && !(v.Dict? && v.size == 0) && !(v.Other? && !v.truthy)
  {
  }

  /** The keys whose values are kept for an event of this type. */
  function Kept(t: string): set<string> {
    {"stop_reason"} + (if t == "steer_rejected" then {"text"} else {})
      + (if t == "error" then {"error_code"} else {}) + (if t == "unknown" then {"kind", "payload"} else {})
  }

  /** Opaque ids are reduced to whether they were there and set. */
  const FLAGS := map["provider_present" := "provider", "session_id_present" := "session_id", "turn_id_present" := "turn_id"]

  /** One normalised event with its 1-based position; `None` is the missing-key failure of a malformed event. */
  function Normalize(e: Event, index: nat): Option<Event> {
    var t := TypeOf(e);
    if (t == "steer_rejected" && "text" !in e) || (t == "unknown" && ("kind" !in e || "payload" !in e)) then None
    else
      Some(Position(t, index) + KeptOf(e) + FlagsOf(e))
  }

  function Position(t: string, index: nat): Event {
    map["type" := Text(t), "sequence" := Int(index), "timestamp_ms" := Int(index)]
  }

  function KeptOf(e: Event): Event {
    map k | k in e && k in Kept(TypeOf(e)) :: e[k]
  }

  function FlagsOf(e: Event): Event {
    map f | f in FLAGS && FLAGS[f] in e :: Bool(Truthy(e[FLAGS[f]]))
  }

  function NormalizeAll(events: seq<Event>): (r: Option<seq<Event>>)
    ensures r.Some? ==> |r.value| == |events|
  {
    if events == [] then Some([])
    else match (NormalizeAll(events[..|events| - 1]), Normalize(events[|events| - 1], |events|))
      case (Some(front), Some(last)) => Some(front + [last])
      case _ => None
  }

  lemma FlagsAreLong(key: string)
    requires |key| < 15
    ensures key !in FLAGS
  {
  }

  /** A short key of a normalised event: its position key, what was kept, or nothing. */
  lemma NormalizedGet(e: Event, index: nat, key: string)
    requires Normalize(e, index).Some? && |key| < 15
    ensures Get(Normalize(e, index).value, key) ==
      if key in Kept(TypeOf(e)) && key in e then e[key] else Get(Position(TypeOf(e), index), key)
  {
    hide Kept, Position, TypeOf;
    FlagsAreLong(key);
    assert key !in FlagsOf(e);
  }

  /** What normalisation does to one event, key by key. */
  lemma NormalizeMeaning(e: Event, index: nat)
    requires Normalize(e, index).Some?
    ensures var n := Normalize(e, index).value; var t := TypeOf(e);
      && TypeOf(n) == t && SequenceOf(n) == index && TimeOf(n) == index && WellTyped(n)
      && Get(n, "stop_reason") == Get(e, "stop_reason")
      && (t == "steer_rejected" ==> Get(n, "text") == Get(e, "text"))
      && (t == "error" ==> Get(n, "error_code") == Get(e, "error_code"))
      && (if t == "unknown" then Get(n, "kind") == Get(e, "kind") && Get(n, "payload") == Get(e, "payload")
          else Get(n, "kind") == Null && Get(n, "payload") == Null)
  {
    var t := TypeOf(e);
    PositionKeys(t, index);
    KeptKeys(t);
    hide Normalize, Kept, Position;
    NormalizedGet(e, index, "type");
    NormalizedGet(e, index, "sequence");
    NormalizedGet(e, index, "timestamp_ms");
    NormalizedGet(e, index, "stop_reason");
    NormalizedGet(e, index, "text");
    NormalizedGet(e, index, "error_code");
    NormalizedGet(e, index, "kind");
    NormalizedGet(e, index, "payload");
  }

  lemma PositionKeys(t: string, index: nat)
    ensures var p := Position(t, index);
      && Get(p, "type") == Text(t) && Get(p, "sequence") == Int(index) && Get(p, "timestamp_ms") == Int(index)
      && Get(p, "stop_reason") == Get(p, "text") == Get(p, "error_code") == Get(p, "kind") == Get(p, "payload") == Null
  {
    assert "text"[1] != "type"[1];
  }

  lemma KeptKeys(t: string)
    ensures var k := Kept(t);
      && "type" !in k && "sequence" !in k && "timestamp_ms" !in k && "stop_reason" in k
      && ("text" in k <==> t == "steer_rejected") && ("error_code" in k <==> t == "error")
      && ("kind" in k <==> t == "unknown") && ("payload" in k <==> t == "unknown")
  {
    assert "text"[1] != "type"[1] && "kind"[0] != "text"[0];
  }

  /** The keys a normalised event takes over. */
  predicate TakenOver(e: Event, key: string) {
    key in e
    && match TypeOf(e)
       case "steer_rejected" => key == "stop_reason" || key == "text"
       case "error" => key == "stop_reason" || key == "error_code"
       case "unknown" => key == "stop_reason" || key == "kind" || key == "payload"
       case _ => key == "stop_reason"
  }

  /** A normalised event has no further keys, and of an opaque id it only says whether it was set. */
  lemma NormalizeKeepsNoMore(e: Event, index: nat, key: string)
    requires Normalize(e, index).Some?
    ensures var n := Normalize(e, index).value;
      && (key in n <==>
            || key in {"type", "sequence", "timestamp_ms"} || TakenOver(e, key)
            || (key == "provider_present" && "provider" in e) || (key == "session_id_present" && "session_id" in e)
            || (key == "turn_id_present" && "turn_id" in e))
      && ("provider" in e ==> Get(n, "provider_present") == Bool(Truthy(e["provider"])))
      && ("session_id" in e ==> Get(n, "session_id_present") == Bool(Truthy(e["session_id"])))
      && ("turn_id" in e ==> Get(n, "turn_id_present") == Bool(Truthy(e["turn_id"])))
  {
    assert key in KeptOf(e) <==> TakenOver(e, key) by { KeptIs(e, key); }
    FlagsAre(e, key);
    FlagsAre(e, "provider_present");
    FlagsAre(e, "session_id_present");
    FlagsAre(e, "turn_id_present");
    assert key in Position(TypeOf(e), index) <==> key in {"type", "sequence", "timestamp_ms"};
    assert NormalizeParts(e, index) by { PartsAre(e, index); }
    hide Normalize, TypeOf, Truthy, KeptOf, FlagsOf, TakenOver, Position;
  }

  ghost predicate NormalizeParts(e: Event, index: nat)
    requires Normalize(e, index).Some?
  {
    var n := Normalize(e, index).value;
    && (forall key :: key in n <==> key in Position(TypeOf(e), index) || key in KeptOf(e) || key in FlagsOf(e))
    && forall key :: key in FlagsOf(e) ==> n[key] == FlagsOf(e)[key]
  }

  lemma PartsAre(e: Event, index: nat)
    requires Normalize(e, index).Some?
    ensures NormalizeParts(e, index)
  {
    hide TypeOf, Truthy, KeptOf, FlagsOf, Position;
  }

  lemma KeptIs(e: Event, key: string)
    ensures key in KeptOf(e) <==> TakenOver(e, key)
  {
    hide TypeOf;
  }

  lemma FlagsAre(e: Event, flag: string)
    ensures flag in FlagsOf(e) <==>
      || (flag == "provider_present" && "provider" in e) || (flag == "session_id_present" && "session_id" in e)
      || (flag == "turn_id_present" && "turn_id" in e)
    ensures flag in FlagsOf(e) ==> FLAGS[flag] in e && FlagsOf(e)[flag] == Bool(Truthy(e[FLAGS[flag]]))
    ensures flag == "provider_present" ==> FLAGS[flag] == "provider"
    ensures flag == "session_id_present" ==> FLAGS[flag] == "session_id"
    ensures flag == "turn_id_present" ==> FLAGS[flag] == "turn_id"
  {
    hide Truthy;
    assert |"provider_present"| == 16 && |"session_id_present"| == 18 && |"turn_id_present"| == 15;
  }

  /** Event by event, two lists agree on everything validation looks at but time, sequence and future events. */
  predicate Alike(a: seq<Event>, b: seq<Event>) {
    && |a| == |b|
    && forall i :: 0 <= i < |a| ==> AlikeAt(a[i], b[i])
  }

  predicate AlikeAt(a: Event, b: Event) {
    && TypeOf(a) == TypeOf(b) && Get(a, "stop_reason") == Get(b, "stop_reason")
    && (TypeOf(a) == "steer_rejected" ==> Get(a, "text") == Get(b, "text"))
    && (TypeOf(a) == "error" ==> Get(a, "error_code") == Get(b, "error_code"))
  }

  lemma NormalizeAlike(e: Event, index: nat)
    requires Normalize(e, index).Some?
    ensures var n := Normalize(e, index).value;
      AlikeAt(e, n) && WellTyped(n) && SequenceOf(n) == index && TimeOf(n) == index
  {
    hide Normalize;
    NormalizeMeaning(e, index);
  }

  lemma {:induction false} NormalizeAllMeaning(events: seq<Event>)
    requires NormalizeAll(events).Some?
    ensures var ns := NormalizeAll(events).value;
      && Alike(events, ns)
      && forall i :: 0 <= i < |ns| ==>
           && Normalize(events[i], i + 1) == Some(ns[i]) && WellTyped(ns[i])
           && SequenceOf(ns[i]) == i + 1 && TimeOf(ns[i]) == i + 1
  {
    hide Normalize, AlikeAt, WellTyped, SequenceOf, TimeOf;
    if events != [] {
      NormalizeAllMeaning(events[..|events| - 1]);
      NormalizeAlike(events[|events| - 1], |events|);
    }
  }

  lemma {:induction false} OfTypeAlike(a: seq<Event>, b: seq<Event>, t: string)
    requires Alike(a, b)
    ensures Alike(OfType(a, t), OfType(b, t))
    ensures forall i :: 0 <= i < |OfType(a, t)| ==> TypeOf(OfType(a, t)[i]) == t
  {
    hide AlikeAt;
    if a != [] {
      var n := |a| - 1;
      assert AlikeAt(a[n], b[n]) && TypeOf(a[n]) == TypeOf(b[n]) by { AlikeType(a[n], b[n]); }
      OfTypeAlike(a[..n], b[..n], t);
    }
  }

  lemma AlikeType(a: Event, b: Event)
    requires AlikeAt(a, b)
    ensures TypeOf(a) == TypeOf(b) && Get(a, "stop_reason") == Get(b, "stop_reason")
  {
  }

  lemma ReasonsAlike(a: seq<Event>, b: seq<Event>)
    requires Alike(a, b)
    ensures Reasons(a) == Reasons(b)
  {
    forall i | 0 <= i < |a| ensures Reasons(a)[i] == Reasons(b)[i] { assert AlikeAt(a[i], b[i]); }
  }

  lemma TypesAlike(a: seq<Event>, b: seq<Event>)
    requires Alike(a, b)
    ensures Types(a) == Types(b)
  {
    forall i | 0 <= i < |a| ensures Types(a)[i] == Types(b)[i] { assert AlikeAt(a[i], b[i]); }
  }

  lemma RejectionAlike(a: seq<Event>, b: seq<Event>, s: Scenario)
    requires Alike(a, b) && RejectionOk(a, s)
    ensures RejectionOk(b, s)
  {
    if s.rejectedText.Some? {
      OfTypeAlike(a, b, "steer_rejected");
      forall i | 0 <= i < |b| && TypeOf(b[i]) == "steer_rejected" ensures RejectionAt(b, s.rejectedText.value, i) {
        assert AlikeAt(a[i], b[i]) && RejectionAt(a, s.rejectedText.value, i) && AlikeAt(a[i + 1], b[i + 1]);
      }
    }
  }

  lemma TerminalAlike(a: seq<Event>, b: seq<Event>, s: Scenario)
    requires Alike(a, b) && TerminalOk(a, s)
    ensures TerminalOk(b, s)
  {
    OfTypeAlike(a, b, "turn_end");
    ReasonsAlike(OfType(a, "turn_end"), OfType(b, "turn_end"));
    if a != [] { assert AlikeAt(a[|a| - 1], b[|b| - 1]); }
  }

  lemma AuthAlike(a: seq<Event>, b: seq<Event>, s: Scenario)
    requires Alike(a, b) && AuthOk(a, s)
    ensures AuthOk(b, s)
  {
    if s.stableAuth {
      OfTypeAlike(a, b, "error");
      assert AlikeAt(OfType(a, "error")[0], OfType(b, "error")[0]);
    }
  }

  /** What normalisation keeps of a future event: everything if its type is `unknown`, and its kind and payload if not. */
  lemma FutureKept(events: seq<Event>, ns: seq<Event>, s: Scenario)
    requires NormalizeAll(events) == Some(ns) && FutureOk(events, s)
    ensures FutureOk(ns, s) <==> (s.id == FUTURE ==> TypeOf(events[0]) == "unknown")
  {
    NormalizeAllMeaning(events);
    if s.id == FUTURE { NormalizeMeaning(events[0], 1); }
  }

  /**
   * The normalised events of an accepted scenario pass the same validation again exactly when the scenario is not the
   * future-event one or its single event is of type `unknown`.
   */
  lemma NormalizedStillAccepted(events: seq<Event>, s: Scenario)
    requires Accepts(events, s) && NormalizeAll(events).Some?
    ensures Accepts(NormalizeAll(events).value, s) <==> (s.id == FUTURE ==> TypeOf(events[0]) == "unknown")
  {
    hide Normalize, OfType, RejectionOk, TerminalOk, AuthOk, FutureOk, Greedy, Alike;
    var ns := NormalizeAll(events).value;
    NormalizeAllMeaning(events);
    TypesAlike(events, ns);
    TerminalAlike(events, ns, s);
    RejectionAlike(events, ns, s);
    AuthAlike(events, ns, s);
    FutureKept(events, ns, s);
    assert InOrder(ns, s) by {
      forall i | 0 <= i < |ns| - 1 ensures InOrderAt(ns, s, i) { }
    }
  }

  /** Every key normalisation takes for granted is there. */
  predicate Keyed(e: Event) {
    && (TypeOf(e) == "steer_rejected" ==> "text" in e)
    && (TypeOf(e) == "unknown" ==> "kind" in e && "payload" in e)
  }

  lemma NormalizesKeyed(e: Event, index: nat)
    ensures Normalize(e, index).Some? <==> Keyed(e)
  {
    hide Position, KeptOf, FlagsOf, TypeOf;
  }

  predicate AllKeyed(events: seq<Event>) {
    forall i :: 0 <= i < |events| ==> Keyed(events[i])
  }

  lemma AllKeyedStep(front: seq<Event>, e: Event)
    ensures AllKeyed(front + [e]) <==> AllKeyed(front) && Keyed(e)
  {
    hide Keyed;
    var all := front + [e];
    assert all[|front|] == e;
    assert forall i :: 0 <= i < |front| ==> all[i] == front[i];
  }

  /** Normalisation fails on a missing key exactly when a steer rejection has no text or an unknown event no kind or payload. */
  lemma {:induction false} NormalizationSucceeds(events: seq<Event>)
    ensures NormalizeAll(events).Some? <==> AllKeyed(events)
  {
    hide Normalize, Keyed, AllKeyed;
    if events == [] {
      assert AllKeyed([]) by { NothingKeyed(); }
    } else {
      var front, last := events[..|events| - 1], events[|events| - 1];
      assert events == front + [last];
      NormalizationSucceeds(front);
      NormalizesKeyed(last, |events|);
      AllKeyedStep(front, last);
    }
  }

  lemma NothingKeyed()
    ensures AllKeyed([])
  {
  }

  function FutureEvent(t: string): Event {
    map["type" := Text(t), "sequence" := Int(1), "timestamp_ms" := Int(1), "kind" := Int(14), "payload" := Dict(1, "{\"x\":1}")]
  }

  /** The failing input: a future event under its own name is accepted, but its normalised form is not. */
  lemma FutureEventLosesItsKind()
    ensures var s := Scenario(FUTURE, ["future"], false, None, None, None, false); var events := [FutureEvent("future")];
      Accepts(events, s) && NormalizeAll(events).Some? && !Accepts(NormalizeAll(events).value, s)
  {
    var s := Scenario(FUTURE, ["future"], false, None, None, None, false);
    var e := FutureEvent("future");
    var events := [e];
    assert Get(e, "type") == Text("future") && Get(e, "sequence") == Int(1) && Get(e, "timestamp_ms") == Int(1);
    assert Get(e, "kind") == Int(14) && Get(e, "payload").Dict?;
    assert IndexFrom(Types(events), "future", 0) == 0;
    assert Greedy([], Types(events), 1);
    assert Accepts(events, s);
    NormalizationSucceeds(events);
    NormalizedStillAccepted(events, s);
  }

  /** A future-event scenario that expects `unknown` always survives normalisation. */
  lemma ExpectedUnknownSurvives(events: seq<Event>, s: Scenario)
    requires Accepts(events, s) && NormalizeAll(events).Some? && (s.id == FUTURE ==> "unknown" in s.expected)
    ensures Accepts(NormalizeAll(events).value, s)
  {
    if s.id == FUTURE {
      GreedyIsSubsequence(s.expected, Types(events));
      var at :| Embeds(at, s.expected, Types(events));
      var k :| 0 <= k < |s.expected| && s.expected[k] == "unknown";
      assert at[k] == 0;
    }
    NormalizedStillAccepted(events, s);
  }

  // ---- The checks as loops ---------------------------------------------------------------

  /** The cursor scan of the expected types. */
  method ScanExpected(expected: seq<string>, types: seq<string>) returns (ok: bool)
    ensures ok <==> Subsequence(expected, types)
  {
    GreedyIsSubsequence(expected, types);
    var cursor := 0;
    for k := 0 to |expected|
      invariant cursor <= |types| && Greedy(expected, types, 0) == Greedy(expected[k..], types, cursor)
    {
      assert expected[k..][0] == expected[k] && expected[k..][1..] == expected[k + 1..];
      var i := cursor;
      while i < |types| && types[i] != expected[k]
        invariant cursor <= i <= |types| && IndexFrom(types, expected[k], cursor) == IndexFrom(types, expected[k], i)
      {
        i := i + 1;
      }
      if i == |types| { return false; }
      cursor := i + 1;
    }
    return true;
  }

  /** The pairwise checks of sequence numbers and timestamps. */
  method ScanOrder(events: seq<Event>, s: Scenario) returns (ok: bool)
    ensures ok <==> InOrder(events, s)
  {
    var i := 0;
    while i + 1 < |events|
      invariant forall j :: 0 <= j < i && j + 1 < |events| ==> InOrderAt(events, s, j)
    {
      var reset := s.allowReset && TypeOf(events[i]) == "turn_end";
      if !reset && (SequenceOf(events[i]) >= SequenceOf(events[i + 1]) || TimeOf(events[i]) > TimeOf(events[i + 1])) {
        assert !InOrderAt(events, s, i);
        return false;
      }
      i := i + 1;
    }
    return true;
  }

  /** `_validate_events`: the whole sequence of checks. */
  method ValidateEvents(events: seq<Event>, s: Scenario) returns (ok: bool)
    ensures ok <==> Accepts(events, s)
  {
    hide Greedy, TerminalOk, RejectionOk, AuthOk, FutureOk, InOrder, WellTyped;
    for i := 0 to |events|
      invariant forall j :: 0 <= j < i ==> WellTyped(events[j])
    {
      if !WellTyped(events[i]) { return false; }
    }
    GreedyIsSubsequence(s.expected, Types(events));
    ok := ScanExpected(s.expected, Types(events));
    if !ok { return; }
    ok := ScanOrder(events, s);
    if !ok { return; }
    return TerminalOk(events, s) && RejectionOk(events, s) && AuthOk(events, s) && FutureOk(events, s);
  }
}
