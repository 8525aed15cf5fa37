/** The ledger as the program keeps it: a fixed array of entries and three running counters. */
module AdmissionService {
  import opened Common
  import opened Json
  import opened AdmissionLedger
  import opened AdmissionFile

  method PublicId(s: string) returns (ok: bool)
    ensures ok == IsPublicId(s)
  {
    if s == "" || |s| > 63 { return false; }
    for i := 0 to |s|
      invariant forall j :: 0 <= j < i ==> IsPublicChar(s[j])
    {
      if !IsPublicChar(s[i]) { return false; }
    }
    return true;
  }

  class Ledger {
    const entries: array<Entry>
    var count: nat
    var claims: nat
    var active: nat
    var queued: nat

    ghost predicate Shaped()
      reads this
    {
      entries.Length == HISTORY_MAX && count <= HISTORY_MAX
    }

    /** The history this object stands for. */
    ghost function Book(): seq<Entry>
      reads this, entries
      requires Shaped()
    {
      entries[..count]
    }

    ghost predicate Counted(es: seq<Entry>)
      reads this
    {
      claims == Claims(es) && active == Active(es) && queued == Queued(es)
    }

    ghost predicate Valid()
      reads this, entries
    {
      Shaped() && Counted(Book())
    }

    constructor ()
      ensures Valid() && fresh(entries) && Book() == []
    {
      entries := new Entry[HISTORY_MAX];
      count, claims, active, queued := 0, 0, 0, 0;
    }

    method Locate(a: Attempt) returns (idx: nat)
      requires Shaped()
      ensures idx == Find(Book(), a)
    {
      idx := 0;
      while idx < count && entries[idx].id != a
        invariant idx <= count
        invariant Find(Book(), a) == FindFrom(Book(), a, idx)
      {
        idx := idx + 1;
      }
    }

    method Append(e: Entry)
      requires Shaped() && count < HISTORY_MAX
      modifies this`count, entries
      ensures Shaped() && Book() == old(Book()) + [e]
    {
      entries[count] := e;
      count := count + 1;
    }

    method SetPhase(idx: nat, p: Phase)
      requires Shaped() && idx < count
      modifies entries
      ensures Book() == Rephased(old(Book()), idx, p)
    {
      entries[idx] := Entry(entries[idx].id, p);
    }

    method Status(idx: nat) returns (reason: Reason)
      requires Valid() && idx < count
      ensures reason == StatusOf(Book()[idx].phase, Active(Book()))
    {
      var p := entries[idx].phase;
      if p == Owned { return AlreadyOwned; }
      if p == Hold { return CleanupHold; }
      if p == Released { return WasReleased; }
      if p == Canceled { return WasCanceled; }
      if active != 0 { return QueuedCapacity; }
      return QueuedFifo;
    }

    /** Enrolls an unknown attempt, or says why it may not enter. */
    method Enroll(l: Limits, a: Attempt, op: Op) returns (refusal: Option<Reason>)
      requires Valid() && Find(Book(), a) == count
      modifies this, entries
      ensures Valid() && refusal == Refusal(l, old(Book()), op)
      ensures Book() == if refusal.Some? then old(Book()) else Enrolled(old(Book()), a, op)
    {
      if op != Claim && op != Cancel { return Some(NotFound); }
      if op == Claim && claims >= l.claimLimit { return Some(Exhausted); }
      if count == HISTORY_MAX { return Some(HistoryFull); }
      if op == Claim && queued == l.queueCap { return Some(QueueFull); }
      var e := Entry(a, if op == Cancel then Canceled else Waiting);
      EnrollTallies(Book(), e);
      Append(e);
      if e.phase == Waiting { queued := queued + 1; }
      return None;
    }

    /** CANCEL, HOLD and RELEASE of an enrolled attempt. */
    method SettleEntry(idx: nat, op: Op, proof: bool) returns (ok: bool, changed: bool)
      requires Valid() && idx < count
      modifies this`active, this`queued, entries
      ensures Valid()
      ensures ok == !(op == Release && old(Book())[idx].phase in HOLDING && !proof)
      ensures Book() == if ok then Rephased(old(Book()), idx, Settle(old(Book())[idx].phase, op)) else old(Book())
      ensures changed == (Book() != old(Book()))
    {
      var p := entries[idx].phase;
      assert p == Book()[idx].phase;
      TallyBound(Book(), HOLDING);
      TallyBound(Book(), {Waiting});
      RephaseTallies(Book(), idx, Settle(p, op));
      assert Settle(p, op) == p ==> Rephased(Book(), idx, p) == Book();
      assert Rephased(Book(), idx, Settle(p, op))[idx].phase == Settle(p, op);
      if op == Cancel && p == Waiting {
        SetPhase(idx, Canceled);
        queued := queued - 1;
        return true, true;
      } else if (op == Cancel || op == PlaceHold) && p == Owned {
        SetPhase(idx, Hold);
        return true, true;
      } else if op == Release && (p == Owned || p == Hold) {
        if !proof { return false, false; }
        SetPhase(idx, Released);
        active := active - 1;
        return true, true;
      }
      return true, false;
    }

    /** Reports the attempt and grants it when it is first in line and both budgets have room. */
    method Decide(l: Limits, idx: nat, op: Op) returns (reason: Reason, changed: bool)
      requires Valid() && idx < count
      modifies this`claims, this`active, this`queued, entries
      ensures Valid()
      ensures Done(Book(), reason, idx + 1) == Admit(l, old(Book()), idx, op)
      ensures changed == (Book() != old(Book()))
    {
      ghost var was := Book();
      reason := Status(idx);
      if entries[idx].phase != Waiting { return reason, false; }
      if claims == l.claimLimit { return Exhausted, false; }
      if active >= l.cap { return QueuedCapacity, false; }
      reason := QueuedFifo;
      var first := 0;
      while first < idx && entries[first].phase != Waiting
        invariant first <= idx && forall j :: 0 <= j < first ==> entries[j].phase != Waiting
      {
        first := first + 1;
      }
      if op == Claim && first == idx {
        TallyBound(was, {Waiting});
        RephaseTallies(was, idx, Owned);
        SetPhase(idx, Owned);
        queued := queued - 1;
        active := active + 1;
        claims := claims + 1;
        assert Book()[idx] != was[idx];
        return Granted, true;
      }
      assert first < idx ==> was[first].phase == Waiting;
      return reason, false;
    }

    /** The transaction of one CLAIM, INSPECT, CANCEL, HOLD or RELEASE. */
    method Transact(l: Limits, a: Attempt, op: Op, proof: bool)
      returns (error: Option<Errno>, reason: Reason, ticket: nat, dirty: bool)
      requires Valid()
      modifies this, entries
      ensures Valid()
      ensures match Next(l, old(Book()), a, op, proof)
        case Refused(e) => error == Some(e)
        case Done(es, r, t) => error == None && Book() == es && reason == r && ticket == t
      ensures error.None? ==> dirty == (Book() != old(Book()))
    {
      hide Tally, StatusOf, Settle, Admit, Refusal, Find;
      ghost var was := Book();
      var idx := Locate(a);
      var enrolled := false;
      if idx == count {
        var refusal := Enroll(l, a, op);
        if refusal.Some? { return None, refusal.value, 0, false; }
        enrolled := true;
      }
      ghost var es1 := Book();
      assert es1 == Enrolled(was, a, op) && idx < |es1|;
      var ok, settled := SettleEntry(idx, op, proof);
      if !ok { return Some(EPERM), NotFound, 0, false; }
      ghost var es2 := Book();
      var decided;
      reason, decided := Decide(l, idx, op);
      assert Done(Book(), reason, idx + 1) == Act(l, es1, idx, op, proof);
      ticket := idx + 1;
      error := None;
      dirty := enrolled || settled || decided;
      AdmitShape(l, es2, idx, op);
      AdvancesStack(was, es1, es2, Book(), idx, op);
    }

    /** The JSON document `save` prints. */
    method Save(l: Limits) returns (doc: Json)
      requires Valid()
      ensures doc == SaveDoc(l, Book())
    {
      var docs: seq<Json> := [];
      for i := 0 to count
        invariant |docs| == i && forall j :: 0 <= j < i ==> docs[j] == EntryDoc(entries[j])
      {
        docs := docs + [EntryDoc(entries[i])];
      }
      TallyBound(Book(), CLAIMED);
      assert docs == EntryDocs(Book());
      doc := Obj([
        Member("version", Uint(1)),
        Member("cap", Uint(l.cap)),
        Member("queue_cap", Uint(l.queueCap)),
        Member("claim_limit", Uint(l.claimLimit)),
        Member("claims", Uint(claims)),
        Member("entries", Arr(docs))
      ]);
    }

    method CountEntry(e: Entry)
      requires Valid() && count < HISTORY_MAX
      modifies this, entries
      ensures Valid() && Book() == old(Book()) + [e]
    {
      TallyAppend(Book(), e, HOLDING);
      TallyAppend(Book(), e, {Waiting});
      TallyAppend(Book(), e, CLAIMED);
      Append(e);
      if e.phase == Waiting { queued := queued + 1; }
      if e.phase == Owned || e.phase == Hold { active := active + 1; }
      if e.phase == Owned || e.phase == Hold || e.phase == Released { claims := claims + 1; }
    }

    /** Reads the stored entries, refusing a malformed or repeated one. */
    method LoadEntries(items: seq<Json>) returns (ok: bool)
      requires Valid() && Book() == [] && |items| <= HISTORY_MAX
      modifies this, entries
      ensures ok == (AllParse(items) && Distinct(ParseEntries(items)))
      ensures ok ==> Valid() && Book() == ParseEntries(items)
    {
      hide Tally;
      for i := 0 to |items|
        invariant Valid() && count == i
        invariant forall j :: 0 <= j < i ==> ParseEntry(items[j]) == Some(Book()[j])
        invariant Distinct(Book())
      {
        var e := ParseEntry(items[i]);
        if e.None? { return false; }
        var known := Locate(e.value.id);
        if known < count {
          assert AllParse(items) ==>
            ParseEntries(items)[known] == Book()[known] && ParseEntries(items)[i] == e.value;
          return false;
        }
        CountEntry(e.value);
      }
      assert Book() == ParseEntries(items);
      return true;
    }

    /** Fills an empty ledger from the state file. */
    method Load(l: Limits, doc: Json) returns (error: Option<Errno>)
      requires Valid() && Book() == []
      modifies this, entries
      ensures error.None? ==> Valid() && LoadDoc(l, doc) == Ok(Book())
      ensures error.Some? ==> LoadDoc(l, doc) == Err(error.value)
    {
      hide Tally, ParseEntry;
      var header := ParseHeader(doc);
      if header.None? { return Some(EIO); }
      if header.value.limits != (l.cap, l.queueCap, l.claimLimit) { return Some(EINVAL); }
      var list := Get(doc, "entries");
      if list.None? || !list.value.Arr? || |list.value.items| > HISTORY_MAX { return Some(EIO); }
      var ok := LoadEntries(list.value.items);
      if !ok || claims != header.value.claims || header.value.claims > l.claimLimit
        || active > l.cap || queued > l.queueCap {
        return Some(EIO);
      }
      return None;
    }
  }

  lemma AdmitShape(l: Limits, es: seq<Entry>, i: nat, op: Op)
    requires i < |es|
    ensures var r := Admit(l, es, i, op);
      r.Done? && (r.es == es || (es[i].phase == Waiting && r.es == Rephased(es, i, Owned)))
  {
    hide Tally, StatusOf;
  }

  /** Each stage changes the history or leaves it alone, and no later stage undoes an earlier one. */
  lemma AdvancesStack(was: seq<Entry>, es1: seq<Entry>, es2: seq<Entry>, es3: seq<Entry>, i: nat, op: Op)
    requires |was| <= |es1| == |es2| == |es3| && i < |es1|
    requires |was| == |es1| ==> was == es1
    requires es2 == Rephased(es1, i, Settle(es1[i].phase, op))
    requires es3 == es2 || (es2[i].phase == Waiting && es3 == Rephased(es2, i, Owned))
    ensures (es3 != was) == (|was| < |es1| || es2 != es1 || es3 != es2)
  {
    assert es1[i].phase != Waiting ==> es2[i].phase != Waiting;
    if |was| == |es1| {
      assert es1 != es2 ==> es1[i].phase != es2[i].phase by {
        if es1[i].phase == es2[i].phase { assert es1 == es2; }
      }
      if es2 == es1 && es3 == es2 {
        assert es3 == was;
      } else if es3 != es2 {
        assert es1[i].phase == Waiting && es3[i].phase == Owned;
      }
    }
  }

  /** The state file of one admission scope. */
  class StateFile {
    var stored: Option<Json>

    constructor ()
      ensures stored == None
    {
      stored := None;
    }

    /** `tny_admission_apply`: refuse, answer BUSY, or load, transact and save under the lock. */
    method Apply(c: Call) returns (r: Response)
      modifies this
      ensures (stored, r) == ServeFile(old(stored), c)
    {
      var named := PublicId(c.scope.name);
      var provided := PublicId(c.scope.provider);
      var run := PublicId(c.attempt.run);
      var limits := c.scope.limits;
      if c.scope.root == "" || !named || !provided || limits.cap == 0 || limits.cap > QUEUE_MAX
        || limits.queueCap == 0 || limits.queueCap > QUEUE_MAX || limits.claimLimit == 0
        || (c.op != Init && (!run || c.attempt.attempt == 0)) {
        return Failed(EINVAL);
      }
      if c.fate.Unsupported? { return Failed(ENOTSUP); }
      if c.op == Claim && c.nested { return Failed(EDEADLK); }
      if c.fate.HostFails? { return Failed(Host(c.fate.code)); }
      if c.fate.LockBusy? { return Returned(Answer(Busy, 0, 0, 0, 0)); }
      assert Gate(c).None?;
      var ledger := new Ledger();
      var error: Option<Errno> := if stored.None? then Some(ENOENT) else None;
      if stored.Some? { error := ledger.Load(limits, stored.value); }
      var dirty := false;
      var answer := AnswerOf([], Ready, 0);
      if error == Some(ENOENT) && c.op == Init { error, dirty := None, true; }
      if error.None? && c.op != Init {
        var reason, ticket;
        error, reason, ticket, dirty := ledger.Transact(limits, c.attempt, c.op, c.proof);
        answer := answer.(reason := reason, ticket := ticket);
      }
      if error.Some? { return Failed(error.value); }
      answer := answer.(claims := ledger.claims, active := ledger.active, queued := ledger.queued);
      var doc := ledger.Save(limits);
      var effect := if dirty then Write(Some(doc), answer) else Keep(answer);
      assert effect == PlanFile(stored, c);
      stored, r := Finish(stored, effect, c.fate.write).0, Finish(stored, effect, c.fate.write).1;
    }
  }
}
