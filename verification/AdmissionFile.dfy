/** The stored form of the admission ledger and one `tny_admission_apply` call against it. */
module AdmissionFile {
  import opened Common
  import opened Json
  import opened AdmissionLedger

  // ---- The JSON document -----------------------------------------------------------------

  function PhaseCode(p: Phase): uint64 {
    match p
    case Waiting => 0
    case Owned => 1
    case Hold => 2
    case Released => 3
    case Canceled => 4
  }

  function PhaseOf(code: nat): Phase
    requires code <= 4
  {
    [Waiting, Owned, Hold, Released, Canceled][code]
  }

  function EntryDoc(e: Entry): Json {
    Obj([
      Member("run", Str(e.id.run)),
      Member("task", Uint(e.id.task)),
      Member("attempt", Uint(e.id.attempt)),
      Member("state", Uint(PhaseCode(e.phase)))
    ])
  }

  function EntryDocs(es: seq<Entry>): seq<Json> {
    seq(|es|, i requires 0 <= i < |es| => EntryDoc(es[i]))
  }

  function SaveDoc(l: Limits, es: seq<Entry>): Json
    requires |es| <= HISTORY_MAX
  {
    TallyBound(es, CLAIMED);
    Obj([
      Member("version", Uint(1)),
      Member("cap", Uint(l.cap)),
      Member("queue_cap", Uint(l.queueCap)),
      Member("claim_limit", Uint(l.claimLimit)),
      Member("claims", Uint(Claims(es))),
      Member("entries", Arr(EntryDocs(es)))
    ])
  }

  /** What C string functions see of a JSON string: the text before the first NUL. */
  function CText(s: string): (t: string)
    ensures |t| <= |s|
  {
    if s == "" || s[0] == '\0' then "" else [s[0]] + CText(s[1..])
  }

  lemma {:induction false} PublicIdHasNoNul(s: string)
    requires forall i :: 0 <= i < |s| ==> IsPublicChar(s[i])
    ensures CText(s) == s
  {
    if s != "" { PublicIdHasNoNul(s[1..]); }
  }

  function ParseEntry(v: Json): Option<Entry> {
    match (Get(v, "run"), GetUint(v, "task"), GetUint(v, "attempt"), GetUint(v, "state"))
    case (Some(Str(s)), Some(task), Some(attempt), Some(state)) =>
      if |v.members| == 4 && IsPublicId(CText(s)) && |s| == |CText(s)|
        && task < 0x1_0000_0000 && 0 < attempt < 0x1_0000_0000 && state <= 4
      then Some(Entry(Attempt(CText(s), task, attempt), PhaseOf(state)))
      else None
    case _ => None
  }

  datatype Header = Header(limits: (nat, nat, nat), claims: nat)

  function ParseHeader(doc: Json): Option<Header> {
    match (GetUint(doc, "version"), GetUint(doc, "cap"), GetUint(doc, "queue_cap"),
           GetUint(doc, "claim_limit"), GetUint(doc, "claims"))
    case (Some(version), Some(cap), Some(queue), Some(limit), Some(claims)) =>
      if |doc.members| == 6 && version == 1 then Some(Header((cap, queue, limit), claims)) else None
    case _ => None
  }

  predicate AllParse(items: seq<Json>) {
    forall i :: 0 <= i < |items| ==> ParseEntry(items[i]).Some?
  }

  function ParseEntries(items: seq<Json>): (es: seq<Entry>)
    requires AllParse(items)
  {
    seq(|items|, i requires 0 <= i < |items| => ParseEntry(items[i]).value)
  }

  predicate CountersFit(l: Limits, es: seq<Entry>, claims: nat) {
    Claims(es) == claims && claims <= l.claimLimit && Active(es) <= l.cap && Queued(es) <= l.queueCap
  }

  function LoadDoc(l: Limits, doc: Json): Result<seq<Entry>, Errno> {
    match ParseHeader(doc)
    case None => Err(EIO)
    case Some(h) =>
      if h.limits != (l.cap, l.queueCap, l.claimLimit) then Err(EINVAL)
      else match Get(doc, "entries")
        case Some(Arr(items)) =>
          if |items| <= HISTORY_MAX && AllParse(items) && Distinct(ParseEntries(items))
            && CountersFit(l, ParseEntries(items), h.claims)
          then Ok(ParseEntries(items))
          else Err(EIO)
        case _ => Err(EIO)
  }

  /** Whatever `load` accepts, however it came to be on disk, satisfies every ledger limit. */
  lemma LoadAcceptsOnlySound(l: Limits, doc: Json)
    requires LoadDoc(l, doc).Ok?
    ensures Sound(l, LoadDoc(l, doc).value)
  {
    var items := Get(doc, "entries").value.items;
    var es := ParseEntries(items);
    forall i | 0 <= i < |es| ensures IsAttempt(es[i].id) {
      assert ParseEntry(items[i]).Some?;
    }
  }

  lemma EntryRoundTrip(e: Entry)
    requires IsAttempt(e.id)
    ensures ParseEntry(EntryDoc(e)) == Some(e)
  {
    var ms := EntryDoc(e).members;
    LookupFirst(ms, 1);
    LookupFirst(ms, 2);
    LookupFirst(ms, 3);
    assert PhaseOf(PhaseCode(e.phase)) == e.phase;
    PublicIdHasNoNul(e.id.run);
  }

  lemma HeaderRoundTrip(l: Limits, es: seq<Entry>)
    requires |es| <= HISTORY_MAX
    ensures var doc := SaveDoc(l, es);
      && ParseHeader(doc) == Some(Header((l.cap, l.queueCap, l.claimLimit), Claims(es)))
      && Get(doc, "entries") == Some(Arr(EntryDocs(es)))
  {
    var ms := SaveDoc(l, es).members;
    LookupFirst(ms, 1);
    LookupFirst(ms, 2);
    LookupFirst(ms, 3);
    LookupFirst(ms, 4);
    LookupFirst(ms, 5);
  }

  /** Loading what was saved gives the same ledger back exactly when that ledger is sound. */
  lemma SaveLoadRoundTrip(l: Limits, es: seq<Entry>)
    requires |es| <= HISTORY_MAX
    ensures LoadDoc(l, SaveDoc(l, es)) == Ok(es) <==> Sound(l, es)
  {
    if LoadDoc(l, SaveDoc(l, es)) == Ok(es) {
      LoadAcceptsOnlySound(l, SaveDoc(l, es));
    }
    if Sound(l, es) {
      HeaderRoundTrip(l, es);
      var items := Get(SaveDoc(l, es), "entries").value.items;
      forall i | 0 <= i < |items| ensures ParseEntry(items[i]) == Some(es[i]) {
        EntryRoundTrip(es[i]);
      }
      assert ParseEntries(items) == es;
    }
  }

  /** A ledger saved under other limits is refused, never reinterpreted. */
  lemma OtherLimitsRefused(l: Limits, other: Limits, es: seq<Entry>)
    requires |es| <= HISTORY_MAX && other != l
    ensures LoadDoc(other, SaveDoc(l, es)) == Err(EINVAL)
  {
    HeaderRoundTrip(l, es);
  }

  /** The stored form, key by key: six members, and per attempt its identity and the number of its state. */
  lemma StoredForm(l: Limits, es: seq<Entry>, i: nat)
    requires |es| <= HISTORY_MAX && i < |es|
    ensures var doc := SaveDoc(l, es);
      && |doc.members| == 6 && GetUint(doc, "version") == Some(1) && GetUint(doc, "cap") == Some(l.cap)
      && GetUint(doc, "queue_cap") == Some(l.queueCap) && GetUint(doc, "claim_limit") == Some(l.claimLimit)
      && GetUint(doc, "claims") == Some(Claims(es))
      && Get(doc, "entries").Some? && Get(doc, "entries").value.Arr? && |Get(doc, "entries").value.items| == |es|
      && var e := Get(doc, "entries").value.items[i]; var phases := [Waiting, Owned, Hold, Released, Canceled];
      && e.Obj? && |e.members| == 4 && Get(e, "run") == Some(Str(es[i].id.run))
      && GetUint(e, "task") == Some(es[i].id.task) && GetUint(e, "attempt") == Some(es[i].id.attempt)
      && GetUint(e, "state").Some? && GetUint(e, "state").value < 5 && phases[GetUint(e, "state").value] == es[i].phase
  {
    HeaderRoundTrip(l, es);
    var ms := EntryDoc(es[i]).members;
    LookupFirst(ms, 0);
    LookupFirst(ms, 1);
    LookupFirst(ms, 2);
    LookupFirst(ms, 3);
  }

  /** Only the exact form loads: six members with the caller's limits, four per attempt, each of its type and range. */
  lemma LoadIsStrict(l: Limits, doc: Json)
    requires LoadDoc(l, doc).Ok?
    ensures var es := LoadDoc(l, doc).value;
      && doc.Obj? && |doc.members| == 6 && GetUint(doc, "version") == Some(1) && GetUint(doc, "cap") == Some(l.cap)
      && GetUint(doc, "queue_cap") == Some(l.queueCap) && GetUint(doc, "claim_limit") == Some(l.claimLimit)
      && GetUint(doc, "claims") == Some(Claims(es))
      && Get(doc, "entries").Some? && Get(doc, "entries").value.Arr? && |Get(doc, "entries").value.items| == |es|
      && forall i :: 0 <= i < |es| ==>
           var e := Get(doc, "entries").value.items[i];
           && e.Obj? && |e.members| == 4 && Get(e, "run") == Some(Str(es[i].id.run))
           && GetUint(e, "task") == Some(es[i].id.task) && GetUint(e, "attempt") == Some(es[i].id.attempt)
           && GetUint(e, "state").Some? && GetUint(e, "state").value <= 4
  {
    hide Tally, Distinct;
    var items := Get(doc, "entries").value.items;
    forall i | 0 <= i < |items| ensures var e, es := items[i], LoadDoc(l, doc).value;
      && e.Obj? && |e.members| == 4 && Get(e, "run") == Some(Str(es[i].id.run))
      && GetUint(e, "task") == Some(es[i].id.task) && GetUint(e, "attempt") == Some(es[i].id.attempt)
      && GetUint(e, "state").Some? && GetUint(e, "state").value <= 4
    {
      assert ParseEntry(items[i]).Some?;
      CTextIsPrefix(Get(items[i], "run").value.s);
    }
  }

  lemma {:induction false} CTextIsPrefix(s: string)
    ensures |CText(s)| == |s| ==> CText(s) == s
  {
    if s != "" { CTextIsPrefix(s[1..]); }
  }

  // ---- One call --------------------------------------------------------------------------

  datatype Scope = Scope(root: string, name: string, provider: string, limits: Limits)

  predicate IsScope(s: Scope) {
    && s.root != ""
    && IsPublicId(s.name) && IsPublicId(s.provider)
    && 0 < s.limits.cap <= QUEUE_MAX && 0 < s.limits.queueCap <= QUEUE_MAX && 0 < s.limits.claimLimit
  }

  /** How the host's write of the state file ends; a write that reports an error may have landed. */
  datatype WriteFate =
    | Lands | Refuses(code: int) | LandsWithError(code: int) | CrashesBefore | CrashesAfter

  /** How the host treats the rest of the call. */
  datatype Fate = Unsupported | HostFails(code: int) | LockBusy | Proceeds(write: WriteFate)

  datatype Call = Call(scope: Scope, attempt: Attempt, op: Op, nested: bool, proof: bool, fate: Fate)

  datatype Answer = Answer(reason: Reason, ticket: nat, claims: nat, active: nat, queued: nat)

  /** `Vanished`: the supervisor died before the call returned. */
  datatype Response = Returned(answer: Answer) | Failed(errno: Errno) | Vanished

  predicate IsCall(c: Call) {
    IsScope(c.scope) && (c.op != Init ==> IsAttempt(c.attempt))
  }

  /** What a caller must pass: a place, two public names, limits from 1 to 128 and 1 up, and an attempt unless it provisions. */
  lemma CallExactly(c: Call)
    ensures IsCall(c) <==>
      && |c.scope.root| >= 1 && IsPublicId(c.scope.name) && IsPublicId(c.scope.provider)
      && 1 <= c.scope.limits.cap < 129 && 1 <= c.scope.limits.queueCap < 129 && c.scope.limits.claimLimit != 0
      && (c.op == Init || (IsPublicId(c.attempt.run) && c.attempt.attempt != 0))
  {
  }

  function AnswerOf(es: seq<Entry>, reason: Reason, ticket: nat): Answer {
    Answer(reason, ticket, Claims(es), Active(es), Queued(es))
  }

  /** What a call under the lock has worked out: an error, or an answer and perhaps a new file to write. */
  datatype Effect<F> = Fault(errno: Errno) | Keep(answer: Answer) | Write(file: F, answer: Answer)

  /** How the call ends, given how the host treats the write. */
  function Finish<F>(file: F, effect: Effect<F>, write: WriteFate): (F, Response) {
    match (effect, write)
    case (Fault(e), _) => (file, Failed(e))
    case (Keep(_), CrashesBefore) => (file, Vanished)
    case (Keep(_), CrashesAfter) => (file, Vanished)
    case (Keep(answer), _) => (file, Returned(answer))
    case (Write(_, _), CrashesBefore) => (file, Vanished)
    case (Write(new_, _), CrashesAfter) => (new_, Vanished)
    case (Write(_, _), Refuses(code)) => (file, Failed(Host(code)))
    case (Write(new_, _), LandsWithError(code)) => (new_, Failed(Host(code)))
    case (Write(new_, answer), Lands) => (new_, Returned(answer))
  }

  /** The gates before the file is touched. */
  function Gate(c: Call): Option<Response> {
    if !IsCall(c) then Some(Failed(EINVAL))
    else if c.fate.Unsupported? then Some(Failed(ENOTSUP))
    else if c.op == Claim && c.nested then Some(Failed(EDEADLK))
    else match c.fate
      case HostFails(code) => Some(Failed(Host(code)))
      case LockBusy => Some(Returned(Answer(Busy, 0, 0, 0, 0)))
      case _ => None
  }

  function PlanFile(file: Option<Json>, c: Call): Effect<Option<Json>>
    requires Gate(c).None?
  {
    var l := c.scope.limits;
    match file
    case None =>
      if c.op == Init then Write(Some(SaveDoc(l, [])), AnswerOf([], Ready, 0)) else Fault(ENOENT)
    case Some(doc) =>
      match LoadDoc(l, doc)
      case Err(e) => Fault(e)
      case Ok(es) =>
        if c.op == Init then Keep(AnswerOf(es, Ready, 0))
        else match Next(l, es, c.attempt, c.op, c.proof)
          case Refused(e) => Fault(e)
          case Done(es', reason, ticket) =>
            LoadAcceptsOnlySound(l, doc);
            NextKeepsSound(l, es, c.attempt, c.op, c.proof);
            if es' == es then Keep(AnswerOf(es, reason, ticket))
            else Write(Some(SaveDoc(l, es')), AnswerOf(es', reason, ticket))
  }

  /** One `tny_admission_apply` call: the file it leaves and what its caller hears. */
  function ServeFile(file: Option<Json>, c: Call): (Option<Json>, Response) {
    if Gate(c).Some? then (file, Gate(c).value)
    else Finish(file, PlanFile(file, c), c.fate.write)
  }
}
