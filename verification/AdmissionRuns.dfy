/**
 * Whole runs of the admission ledger: any number of supervisors, any interleaving of calls, any crash and
 * any write whose outcome its caller could not see.
 */
module AdmissionRuns {
  import opened Common
  import opened Json
  import opened AdmissionLedger
  import opened AdmissionFile

  /** The state file as a value: missing, or a ledger with the limits it was provisioned with. */
  datatype Disk = Absent | Stored(limits: Limits, es: seq<Entry>)

  predicate SoundDisk(d: Disk) {
    d.Stored? ==> Sound(d.limits, d.es)
  }

  function Book(d: Disk): seq<Entry> {
    if d.Stored? then d.es else []
  }

  function FileOf(d: Disk): Option<Json>
    requires SoundDisk(d)
  {
    if d.Absent? then None else Some(SaveDoc(d.limits, d.es))
  }

  function Plan(d: Disk, c: Call): Effect<Disk>
    requires Gate(c).None?
  {
    var l := c.scope.limits;
    if d.Absent? then
      if c.op == Init then Write(Stored(l, []), AnswerOf([], Ready, 0)) else Fault(ENOENT)
    else if l != d.limits then Fault(EINVAL)
    else if c.op == Init then Keep(AnswerOf(d.es, Ready, 0))
    else match Next(l, d.es, c.attempt, c.op, c.proof)
      case Refused(e) => Fault(e)
      case Done(es', reason, ticket) =>
        if es' == d.es then Keep(AnswerOf(d.es, reason, ticket))
        else Write(Stored(l, es'), AnswerOf(es', reason, ticket))
  }

  function Serve(d: Disk, c: Call): (Disk, Response) {
    if Gate(c).Some? then (d, Gate(c).value)
    else Finish(d, Plan(d, c), c.fate.write)
  }

  /** What one disk may become in one call. */
  predicate Succeeds(d: Disk, d': Disk) {
    && SoundDisk(d') && Evolves(Book(d), Book(d'))
    && (d.Stored? ==> d'.Stored? && d'.limits == d.limits)
  }

  lemma PlanKeepsSound(d: Disk, c: Call)
    requires SoundDisk(d) && Gate(c).None? && Plan(d, c).Write?
    ensures Succeeds(d, Plan(d, c).file)
  {
    if d.Stored? {
      NextKeepsSound(d.limits, d.es, c.attempt, c.op, c.proof);
    }
  }

  lemma ServeKeepsSound(d: Disk, c: Call)
    requires SoundDisk(d)
    ensures Succeeds(d, Serve(d, c).0)
  {
    hide Plan, Gate;
    if Gate(c).None? && Plan(d, c).Write? {
      PlanKeepsSound(d, c);
    }
  }

  function FileEffect(e: Effect<Disk>): Effect<Option<Json>>
    requires e.Write? ==> SoundDisk(e.file)
  {
    match e
    case Fault(errno) => Fault(errno)
    case Keep(answer) => Keep(answer)
    case Write(d, answer) => Write(FileOf(d), answer)
  }

  lemma PlanRefines(d: Disk, c: Call)
    requires SoundDisk(d) && Gate(c).None?
    requires Plan(d, c).Write? ==> SoundDisk(Plan(d, c).file)
    ensures PlanFile(FileOf(d), c) == FileEffect(Plan(d, c))
  {
    hide Next, SaveDoc, LoadDoc, Active, Queued, Claims;
    if d.Stored? {
      if c.scope.limits != d.limits {
        OtherLimitsRefused(d.limits, c.scope.limits, d.es);
      } else {
        SaveLoadRoundTrip(d.limits, d.es);
      }
    }
  }

  /** A call against the stored JSON does exactly what the same call does to the ledger it stands for. */
  lemma ServeRefines(d: Disk, c: Call)
    requires SoundDisk(d)
    ensures SoundDisk(Serve(d, c).0)
    ensures ServeFile(FileOf(d), c) == (FileOf(Serve(d, c).0), Serve(d, c).1)
  {
    hide Plan, Gate, PlanFile;
    ServeKeepsSound(d, c);
    if Gate(c).None? {
      if Plan(d, c).Write? { PlanKeepsSound(d, c); }
      PlanRefines(d, c);
    }
  }

  /** Served from the ledger itself, a call never sees corrupt state. */
  lemma ServeNeverCorrupt(d: Disk, c: Call)
    ensures Serve(d, c).1 != Failed(EIO)
  {
    hide Enrolled, Refusal, Find, Tally;
  }

  // ---- What a caller hears ---------------------------------------------------------------

  /** The refusals before the file is touched, in their order; a busy lock is an answer of its own and changes nothing. */
  lemma GateTells(d: Disk, c: Call)
    ensures var (d', r) := Serve(d, c);
      && (!IsCall(c) ==> d' == d && r == Failed(EINVAL))
      && (IsCall(c) && c.fate.Unsupported? ==> d' == d && r == Failed(ENOTSUP))
      && (IsCall(c) && !c.fate.Unsupported? && c.op == Claim && c.nested ==> d' == d && r == Failed(EDEADLK))
      && (IsCall(c) && !(c.op == Claim && c.nested) && c.fate.HostFails? ==> d' == d && r == Failed(Host(c.fate.code)))
      && (IsCall(c) && !(c.op == Claim && c.nested) && c.fate.LockBusy? ==>
            d' == d && r == Returned(Answer(Busy, 0, 0, 0, 0)))
  {
    hide Plan, IsCall;
  }

  /** A call that has passed those refusals and whose write, if any, lands. */
  predicate GoesThrough(c: Call) {
    IsCall(c) && !(c.op == Claim && c.nested) && c.fate == Proceeds(Lands)
  }

  /** INIT provisions an empty ledger once and is READY ever after; other calls need it, and its very limits. */
  lemma InitTells(d: Disk, c: Call)
    requires GoesThrough(c)
    ensures var (d', r) := Serve(d, c); var l := c.scope.limits;
      && (d.Absent? && c.op == Init ==> d' == Stored(l, []) && r == Returned(Answer(Ready, 0, 0, 0, 0)))
      && (d.Absent? && c.op != Init ==> d' == d && r == Failed(ENOENT))
      && (d.Stored? && d.limits != l ==> d' == d && r == Failed(EINVAL))
      && (d.Stored? && d.limits == l && c.op == Init ==>
            d' == d && r == Returned(Answer(Ready, 0, Claims(d.es), Active(d.es), Queued(d.es))))
  {
    hide Next;
  }

  /** A transaction that goes through stores its history, and its answer carries the counters of what is then stored. */
  lemma TransactionTells(d: Disk, c: Call)
    requires GoesThrough(c) && c.op != Init && d.Stored? && d.limits == c.scope.limits
    ensures var (d', r) := Serve(d, c);
      match Next(d.limits, d.es, c.attempt, c.op, c.proof)
      case Refused(e) => d' == d && r == Failed(e)
      case Done(es, reason, ticket) =>
        d' == Stored(d.limits, es) && r == Returned(Answer(reason, ticket, Claims(es), Active(es), Queued(es)))
  {
    hide Next, Tally;
  }

  /** Whatever becomes of the write, the stored file is the old one or the one the call would have left had it landed. */
  lemma WriteIsAllOrNothing(d: Disk, c: Call)
    requires c.fate.Proceeds?
    ensures var whole := c.(fate := Proceeds(Lands)); var d' := Serve(d, c).0;
      && (d' == d || d' == Serve(d, whole).0)
      && (c.fate.write in {Lands, CrashesAfter} || c.fate.write.LandsWithError? ==> d' == Serve(d, whole).0)
      && (c.fate.write == CrashesBefore || c.fate.write.Refuses? ==> d' == d)
  {
    hide Plan, IsCall;
    SameCall(c);
    assert Gate(c) == Gate(c.(fate := Proceeds(Lands)));
    if Gate(c).None? { SamePlan(d, c); }
  }

  lemma SameCall(c: Call)
    ensures IsCall(c) == IsCall(c.(fate := Proceeds(Lands)))
  {
  }

  lemma SamePlan(d: Disk, c: Call)
    requires Gate(c).None? && Gate(c.(fate := Proceeds(Lands))).None?
    ensures Plan(d, c) == Plan(d, c.(fate := Proceeds(Lands)))
  {
    hide Next;
  }

  // ---- Runs ------------------------------------------------------------------------------

  function After(d: Disk, calls: seq<Call>): Disk {
    if calls == [] then d
    else Serve(After(d, calls[..|calls| - 1]), calls[|calls| - 1]).0
  }

  function FileAfter(file: Option<Json>, calls: seq<Call>): Option<Json> {
    if calls == [] then file
    else ServeFile(FileAfter(file, calls[..|calls| - 1]), calls[|calls| - 1]).0
  }

  /** The disk as call `k` finds it. */
  function Before(d: Disk, calls: seq<Call>, k: nat): Disk
    requires k <= |calls|
  {
    After(d, calls[..k])
  }

  /** What the caller of call `k` hears. */
  function Heard(d: Disk, calls: seq<Call>, k: nat): Response
    requires k < |calls|
  {
    Serve(Before(d, calls, k), calls[k]).1
  }

  predicate IsGrant(r: Response) {
    r.Returned? && r.answer.reason == Granted
  }

  predicate GrantedAt(d: Disk, calls: seq<Call>, k: nat)
    requires k < |calls|
  {
    IsGrant(Heard(d, calls, k))
  }

  lemma BeforeStep(d: Disk, calls: seq<Call>, k: nat)
    requires k < |calls|
    ensures Before(d, calls, k + 1) == Serve(Before(d, calls, k), calls[k]).0
  {
    assert calls[..k + 1][..k] == calls[..k];
  }

  lemma {:induction false} RunKeepsSound(d: Disk, calls: seq<Call>)
    requires SoundDisk(d)
    ensures SoundDisk(After(d, calls))
    ensures d.Stored? ==> After(d, calls).Stored? && After(d, calls).limits == d.limits
  {
    if calls != [] {
      RunKeepsSound(d, calls[..|calls| - 1]);
      ServeKeepsSound(After(d, calls[..|calls| - 1]), calls[|calls| - 1]);
    }
  }

  lemma Unmoved(es: seq<Entry>)
    ensures Evolves(es, es)
  {
  }

  lemma {:induction false} RunEvolves(d: Disk, calls: seq<Call>, i: nat, j: nat)
    requires SoundDisk(d) && i <= j <= |calls|
    ensures Evolves(Book(Before(d, calls, i)), Book(Before(d, calls, j)))
    ensures Before(d, calls, i).Stored? ==>
      Before(d, calls, j).Stored? && Before(d, calls, j).limits == Before(d, calls, i).limits
    decreases j
  {
    hide Serve, SoundDisk, Evolves, Book;
    RunKeepsSound(d, calls[..j]);
    if i == j {
      Unmoved(Book(Before(d, calls, i)));
    } else {
      RunEvolves(d, calls, i, j - 1);
      BeforeStep(d, calls, j - 1);
      RunKeepsSound(d, calls[..j - 1]);
      ServeKeepsSound(Before(d, calls, j - 1), calls[j - 1]);
      EvolvesTransitive(Book(Before(d, calls, i)), Book(Before(d, calls, j - 1)), Book(Before(d, calls, j)));
    }
  }

  /** Every file a run can produce is the saved form of a sound ledger. */
  lemma {:induction false} RunRefines(d: Disk, calls: seq<Call>)
    requires SoundDisk(d)
    ensures SoundDisk(After(d, calls))
    ensures FileAfter(FileOf(d), calls) == FileOf(After(d, calls))
  {
    if calls != [] {
      var rest := calls[..|calls| - 1];
      RunRefines(d, rest);
      ServeRefines(After(d, rest), calls[|calls| - 1]);
    }
  }

  /**
   * No interleaving, crash or uncertain write leaves a file that a later call rejects as corrupt, and
   * loading it returns the ledger that was saved.
   */
  lemma NoReachableFileIsCorrupt(calls: seq<Call>, c: Call)
    ensures var file := FileAfter(None, calls);
      && ServeFile(file, c).1 != Failed(EIO)
      && (file.None? || var d := After(Absent, calls);
            d.Stored? && Sound(d.limits, d.es) && file == Some(SaveDoc(d.limits, d.es))
            && LoadDoc(d.limits, file.value) == Ok(d.es))
  {
    hide Serve, ServeFile, SaveDoc, LoadDoc;
    RunRefines(Absent, calls);
    var d := After(Absent, calls);
    ServeRefines(d, c);
    ServeNeverCorrupt(d, c);
    if d.Stored? {
      SaveLoadRoundTrip(d.limits, d.es);
    }
  }

  // ---- Grants ----------------------------------------------------------------------------

  lemma ServeGrant(d: Disk, c: Call)
    requires SoundDisk(d) && IsGrant(Serve(d, c).1)
    ensures var d' := Serve(d, c).0; var t := Serve(d, c).1.answer.ticket;
      && c.op == Claim && IsAttempt(c.attempt) && d.Stored? && d'.Stored? && SoundDisk(d')
      && 0 < t <= |d'.es| && d'.es[t - 1] == Entry(c.attempt, Owned) && NoneWaiting(d'.es, t)
      && t - 1 == Find(d.es, c.attempt) && (t <= |d.es| ==> d.es[t - 1].phase == Waiting)
      && Claims(d'.es) == Claims(d.es) + 1
  {
    hide Next, Tally;
    ServeKeepsSound(d, c);
    GrantMeaning(d.limits, d.es, c.attempt, c.op, c.proof);
    var r := Next(d.limits, d.es, c.attempt, c.op, c.proof);
    assert r.es != d.es;
    assert Serve(d, c).0 == Stored(d.limits, r.es);
  }

  lemma SettledStaysSettled(before: seq<Entry>, after: seq<Entry>, n: nat)
    requires Evolves(before, after) && n <= |before| && NoneWaiting(before, n)
    ensures NoneWaiting(after, n)
  {
    forall k | 0 <= k < n ensures after[k].phase != Waiting {
      assert before[k].phase != Waiting && Later(before[k].phase, after[k].phase);
    }
  }

  /** In any run, fresh grants carry strictly increasing tickets. */
  lemma GrantTicketsIncrease(d: Disk, calls: seq<Call>, i: nat, j: nat)
    requires SoundDisk(d) && i < j < |calls|
    ensures GrantedAt(d, calls, i) && GrantedAt(d, calls, j) ==>
      Heard(d, calls, i).answer.ticket < Heard(d, calls, j).answer.ticket
  {
    hide Serve, Sound, Tally;
    if !GrantedAt(d, calls, i) || !GrantedAt(d, calls, j) { return; }
    var t := Heard(d, calls, i).answer.ticket;
    RunKeepsSound(d, calls[..i]);
    RunKeepsSound(d, calls[..j]);
    ServeGrant(Before(d, calls, i), calls[i]);
    ServeGrant(Before(d, calls, j), calls[j]);
    BeforeStep(d, calls, i);
    RunEvolves(d, calls, i + 1, j);
    SettledStaysSettled(Book(Before(d, calls, i + 1)), Book(Before(d, calls, j)), t);
  }

  /** A granted attempt keeps its position for good, holding its permit or released. */
  lemma GrantedStaysClaimed(d: Disk, calls: seq<Call>, i: nat)
    requires SoundDisk(d) && i < |calls| && GrantedAt(d, calls, i)
    ensures var t := Heard(d, calls, i).answer.ticket; var es := Book(After(d, calls));
      0 < t <= |es| && es[t - 1].id == calls[i].attempt && es[t - 1].phase in CLAIMED
  {
    RunKeepsSound(d, calls[..i]);
    ServeGrant(Before(d, calls, i), calls[i]);
    BeforeStep(d, calls, i);
    RunEvolves(d, calls, i + 1, |calls|);
    assert calls[..|calls|] == calls;
    var t := Heard(d, calls, i).answer.ticket;
    var mid, es := Book(Before(d, calls, i + 1)), Book(After(d, calls));
    assert mid[t - 1].id == es[t - 1].id && Later(mid[t - 1].phase, es[t - 1].phase);
  }

  /** Each attempt is freshly granted at most once, whatever writes failed or were uncertain in between. */
  lemma GrantedAtMostOnce(d: Disk, calls: seq<Call>, i: nat, j: nat)
    requires SoundDisk(d) && i < j < |calls|
    ensures GrantedAt(d, calls, i) && GrantedAt(d, calls, j) ==> calls[i].attempt != calls[j].attempt
  {
    hide Serve;
    if !GrantedAt(d, calls, i) || !GrantedAt(d, calls, j) { return; }
    GrantTicketsIncrease(d, calls, i, j);
    GrantedStaysClaimed(d, calls, i);
    GrantedStaysClaimed(d, calls, j);
    RunKeepsSound(d, calls);
  }

  function GrantCount(d: Disk, calls: seq<Call>): nat {
    if calls == [] then 0
    else
      var rest := calls[..|calls| - 1];
      GrantCount(d, rest) + if IsGrant(Serve(After(d, rest), calls[|calls| - 1]).1) then 1 else 0
  }

  lemma {:induction false} ClaimsNeverFall(a: seq<Entry>, b: seq<Entry>)
    requires Evolves(a, b)
    ensures Claims(a) <= Claims(b)
  {
    if b != [] {
      var n := |b| - 1;
      if |a| == |b| {
        assert Later(a[n].phase, b[n].phase);
        ClaimsNeverFall(a[..n], b[..n]);
      } else {
        ClaimsNeverFall(a, b[..n]);
      }
    }
  }

  /** Every fresh grant a run hands out is paid for by a distinct stored claim. */
  lemma {:induction false} GrantsArePaidFor(d: Disk, calls: seq<Call>)
    requires SoundDisk(d)
    ensures GrantCount(d, calls) + Claims(Book(d)) <= Claims(Book(After(d, calls)))
  {
    if calls != [] {
      var rest, c := calls[..|calls| - 1], calls[|calls| - 1];
      GrantsArePaidFor(d, rest);
      RunKeepsSound(d, rest);
      ServeKeepsSound(After(d, rest), c);
      ClaimsNeverFall(Book(After(d, rest)), Book(Serve(After(d, rest), c).0));
      if IsGrant(Serve(After(d, rest), c).1) {
        ServeGrant(After(d, rest), c);
      }
    }
  }

  /** Lifetime limit: at most `claimLimit` fresh grants, from an empty state directory through any run. */
  lemma GrantsWithinLifetimeLimit(calls: seq<Call>)
    ensures match After(Absent, calls)
      case Absent => GrantCount(Absent, calls) == 0
      case Stored(l, _) => GrantCount(Absent, calls) <= l.claimLimit
  {
    RunKeepsSound(Absent, calls);
    GrantsArePaidFor(Absent, calls);
  }

  /** The positions of granted attempts whose permit is still held in the stored ledger. */
  ghost function HeldGrants(d: Disk, calls: seq<Call>): set<nat>
    requires SoundDisk(d)
  {
    var es := Book(After(d, calls));
    set i: nat | i < |es| && es[i].phase in HOLDING
      && exists k: nat :: k < |calls| && GrantedAt(d, calls, k) && Heard(d, calls, k).answer.ticket == i + 1
  }

  /** At most `cap` granted attempts are unreleased at any time. */
  lemma HeldGrantsWithinCap(d: Disk, calls: seq<Call>)
    requires SoundDisk(d)
    ensures After(d, calls).Stored? ==> |HeldGrants(d, calls)| <= After(d, calls).limits.cap
    ensures After(d, calls).Absent? ==> HeldGrants(d, calls) == {}
  {
    RunKeepsSound(d, calls);
    TallyCovers(Book(After(d, calls)), HOLDING, HeldGrants(d, calls));
  }

  // ---- Release and cancellation ----------------------------------------------------------

  lemma ServeRelease(d: Disk, c: Call, i: nat)
    requires SoundDisk(d) && i < |Book(d)| && Book(d)[i].phase != Released
    requires var es' := Book(Serve(d, c).0); i < |es'| && es'[i].phase == Released
    ensures c.op == Release && c.proof && c.attempt == Book(d)[i].id
  {
    hide Next, Tally, Gate;
    assert Gate(c).None? && Plan(d, c).Write? && Serve(d, c).0 == Plan(d, c).file;
    var r := Next(d.limits, d.es, c.attempt, c.op, c.proof);
    assert Serve(d, c).0.es == r.es;
    NextTicket(d.limits, d.es, c.attempt, c.op, c.proof);
    if i == Find(d.es, c.attempt) {
      NextPhase(d.limits, d.es, c.attempt, c.op, c.proof);
    }
  }

  /** A permit comes back only through a RELEASE of that very attempt that carried cleanup proof. */
  lemma {:induction false} ReleasedOnlyWithProof(d: Disk, calls: seq<Call>, from: nat, i: nat) returns (k: nat)
    requires SoundDisk(d) && from <= |calls|
    requires i < |Book(Before(d, calls, from))| && Book(Before(d, calls, from))[i].phase != Released
    requires i < |Book(After(d, calls))| && Book(After(d, calls))[i].phase == Released
    ensures from <= k < |calls| && calls[k].op == Release && calls[k].proof
    ensures calls[k].attempt == Book(Before(d, calls, from))[i].id
    decreases |calls| - from
  {
    RunKeepsSound(d, calls[..from]);
    assert calls[..|calls|] == calls;
    if from == |calls| {
      assert false;
    } else {
      BeforeStep(d, calls, from);
      var now, next := Before(d, calls, from), Before(d, calls, from + 1);
      ServeKeepsSound(now, calls[from]);
      assert Book(now)[i].id == Book(next)[i].id;
      if Book(next)[i].phase == Released {
        ServeRelease(now, calls[from], i);
        k := from;
      } else {
        k := ReleasedOnlyWithProof(d, calls, from + 1, i);
      }
    }
  }

  lemma ServeHold(d: Disk, c: Call)
    requires SoundDisk(d) && c.op in {Cancel, PlaceHold}
    requires var r := Serve(d, c).1; r.Returned? && r.answer.reason != Busy
    requires var i := Find(Book(d), c.attempt); i < |Book(d)| && Book(d)[i].phase == Owned
    ensures var i := Find(Book(d), c.attempt); var es := Book(Serve(d, c).0);
      && i < |es| && es[i] == Entry(c.attempt, Hold) && Serve(d, c).1.answer.reason == CleanupHold
  {
    hide Next, Tally;
    RefusedExactly(d.limits, d.es, c.attempt, c.op, c.proof);
    TicketRefused(d.limits, d.es, c.attempt, c.op, c.proof);
    PhaseAfter(d.limits, d.es, c.attempt, c.op, c.proof);
    AnswerMeaning(d.limits, d.es, c.attempt, c.op, c.proof);
    NextTicket(d.limits, d.es, c.attempt, c.op, c.proof);
    assert Book(Serve(d, c).0) == Next(d.limits, d.es, c.attempt, c.op, c.proof).es;
  }

  /**
   * A CANCEL or HOLD of an owned attempt that is answered says so at once, and every later file has that attempt on hold
   * until a release: its permit is neither given back nor usable again.
   */
  lemma HoldStays(d: Disk, calls: seq<Call>, i: nat, j: nat)
    requires SoundDisk(d) && i < j <= |calls| && calls[i].op in {Cancel, PlaceHold}
    requires Heard(d, calls, i).Returned? && Heard(d, calls, i).answer.reason != Busy
    requires var es := Book(Before(d, calls, i)); var p := Find(es, calls[i].attempt); p < |es| && es[p].phase == Owned
    ensures Heard(d, calls, i).answer.reason == CleanupHold
    ensures var p := Find(Book(Before(d, calls, i)), calls[i].attempt); var late := Book(Before(d, calls, j));
      p < |late| && late[p].id == calls[i].attempt && late[p].phase in {Hold, Released}
  {
    hide Serve;
    RunKeepsSound(d, calls[..i]);
    ServeHold(Before(d, calls, i), calls[i]);
    BeforeStep(d, calls, i);
    RunEvolves(d, calls, i + 1, j);
    var p := Find(Book(Before(d, calls, i)), calls[i].attempt);
    var mid, late := Book(Before(d, calls, i + 1)), Book(Before(d, calls, j));
    assert mid[p].id == late[p].id && Later(mid[p].phase, late[p].phase);
  }

  lemma CancelBars(d: Disk, c: Call)
    requires SoundDisk(d) && c.op == Cancel
    requires var r := Serve(d, c).1; r.Returned? && r.answer.reason != Busy
    ensures IsAttempt(c.attempt) && Barred(Book(Serve(d, c).0), c.attempt)
  {
    hide Next, Barred;
    CancelSettles(d.limits, d.es, c.attempt, c.proof);
    assert Book(Serve(d, c).0) == Next(d.limits, d.es, c.attempt, Cancel, c.proof).es;
  }

  lemma BarredForever(before: seq<Entry>, after: seq<Entry>, l: Limits, a: Attempt)
    requires Sound(l, after) && Evolves(before, after) && Barred(before, a)
    ensures Barred(after, a)
  {
    var i := Find(before, a);
    if i < |before| {
      assert after[i].id == a && Later(before[i].phase, after[i].phase);
      FindUnique(after, a, i);
    } else {
      forall j | 0 <= j < |after| ensures after[j].id != a {
        assert after[j].id == before[j].id;
      }
    }
  }

  /**
   * Cancellation is final: once CANCEL has returned anything but BUSY (a tombstone, a hold, a full history),
   * that attempt is never freshly granted later in the run.
   */
  lemma CancelIsFinal(d: Disk, calls: seq<Call>, i: nat, j: nat)
    requires SoundDisk(d) && i < j < |calls|
    requires calls[i].op == Cancel && Heard(d, calls, i).Returned? && Heard(d, calls, i).answer.reason != Busy
    requires calls[j].attempt == calls[i].attempt
    ensures !GrantedAt(d, calls, j)
  {
    RunKeepsSound(d, calls[..i]);
    RunKeepsSound(d, calls[..j]);
    CancelBars(Before(d, calls, i), calls[i]);
    BeforeStep(d, calls, i);
    RunEvolves(d, calls, i + 1, j);
    var late := Before(d, calls, j);
    BarredForever(Book(Before(d, calls, i + 1)), Book(late), late.limits, calls[j].attempt);
    if GrantedAt(d, calls, j) {
      ServeGrant(late, calls[j]);
    }
  }

  // ---- The number of commits -------------------------------------------------------------

  /** How far an attempt has come through its life, counted in commits. */
  function Steps(p: Phase): nat {
    match p
    case Waiting => 1
    case Owned => 2
    case Hold => 3
    case Released => 4
    case Canceled => 4
  }

  function Spent(es: seq<Entry>): nat {
    if es == [] then 0 else Spent(es[..|es| - 1]) + Steps(es[|es| - 1].phase)
  }

  lemma {:induction false} SpentBound(es: seq<Entry>)
    ensures Spent(es) <= 4 * |es|
  {
    if es != [] { SpentBound(es[..|es| - 1]); }
  }

  lemma StepsGrow(p: Phase, q: Phase)
    requires Later(p, q)
    ensures Steps(p) <= Steps(q) && (p != q ==> Steps(p) < Steps(q))
  {
  }

  lemma {:induction false} SpentGrows(a: seq<Entry>, b: seq<Entry>)
    requires Evolves(a, b)
    ensures Spent(a) <= Spent(b)
    ensures a != b ==> Spent(a) < Spent(b)
  {
    hide Later;
    if b != [] {
      var n := |b| - 1;
      if |a| == |b| {
        SpentGrows(a[..n], b[..n]);
        assert a[n].id == b[n].id;
        StepsGrow(a[n].phase, b[n].phase);
        assert a == a[..n] + [a[n]] && b == b[..n] + [b[n]];
      } else {
        SpentGrows(a, b[..n]);
      }
    }
  }

  /** How often the stored ledger changed, not counting its provisioning. */
  function Commits(d: Disk, calls: seq<Call>): nat {
    if calls == [] then 0
    else
      var was := After(d, calls[..|calls| - 1]);
      Commits(d, calls[..|calls| - 1]) + if was.Stored? && After(d, calls) != was then 1 else 0
  }

  lemma {:induction false} CommitsAreSpent(d: Disk, calls: seq<Call>)
    requires SoundDisk(d)
    ensures Commits(d, calls) + Spent(Book(d)) <= Spent(Book(After(d, calls)))
  {
    if calls != [] {
      var rest := calls[..|calls| - 1];
      CommitsAreSpent(d, rest);
      RunKeepsSound(d, rest);
      ServeKeepsSound(After(d, rest), calls[|calls| - 1]);
      SpentGrows(Book(After(d, rest)), Book(After(d, calls)));
    }
  }

  /** A ledger changes at most four times per history slot over its whole life. */
  lemma CommitsBounded(calls: seq<Call>)
    ensures Commits(Absent, calls) <= 4 * HISTORY_MAX
  {
    CommitsAreSpent(Absent, calls);
    RunKeepsSound(Absent, calls);
    SpentBound(Book(After(Absent, calls)));
  }

  // ---- Work conservation -----------------------------------------------------------------

  function Min(a: int, b: int): int {
    if a < b then a else b
  }

  /** How many more attempts the ledger can start right now. */
  function Room(l: Limits, es: seq<Entry>): int {
    Min(l.cap - Active(es), l.claimLimit - Claims(es))
  }

  /** One CLAIM for every attempt waiting at position `k` or later, in ticket order. */
  function Replays(s: Scope, es: seq<Entry>, k: nat): seq<Call>
    requires k <= |es|
    decreases |es| - k
  {
    if k == |es| then []
    else if es[k].phase != Waiting then Replays(s, es, k + 1)
    else [Call(s, es[k].id, Claim, false, false, Proceeds(Lands))] + Replays(s, es, k + 1)
  }

  lemma {:induction false} RunFromFirst(d: Disk, c: Call, rest: seq<Call>)
    ensures After(d, [c] + rest) == After(Serve(d, c).0, rest)
    ensures GrantCount(d, [c] + rest) == (if IsGrant(Serve(d, c).1) then 1 else 0) + GrantCount(Serve(d, c).0, rest)
  {
    if rest == [] {
      assert [c] + rest == [c] && [c][..0] == [];
    } else {
      var n := |rest| - 1;
      assert ([c] + rest)[..n + 1] == [c] + rest[..n];
      RunFromFirst(d, c, rest[..n]);
    }
  }

  lemma {:induction false} ReplaysDependOnTail(s: Scope, a: seq<Entry>, b: seq<Entry>, k: nat)
    requires k <= |a| == |b| && a[k..] == b[k..]
    ensures Replays(s, a, k) == Replays(s, b, k)
    decreases |a| - k
  {
    if k < |a| {
      assert a[k..][0] == a[k] && b[k..][0] == b[k];
      assert a[k + 1..] == a[k..][1..] && b[k + 1..] == b[k..][1..];
      ReplaysDependOnTail(s, a, b, k + 1);
    }
  }

  lemma ReplayOne(s: Scope, es: seq<Entry>, k: nat)
    requires IsScope(s) && Sound(s.limits, es) && k < |es| && es[k].phase == Waiting
    ensures var c := Call(s, es[k].id, Claim, false, false, Proceeds(Lands)); var r := Serve(Stored(s.limits, es), c);
      && (Room(s.limits, es) == 0 ==> r.0 == Stored(s.limits, es) && !IsGrant(r.1))
      && (Room(s.limits, es) > 0 && NoneWaiting(es, k) ==>
            r.0 == Stored(s.limits, Rephased(es, k, Owned)) && IsGrant(r.1))
  {
    FindUnique(es, es[k].id, k);
    assert Rephased(es, k, Waiting) == es;
    if Room(s.limits, es) > 0 && NoneWaiting(es, k) {
      ClaimGranted(s.limits, es, k, false);
      assert Rephased(es, k, Owned)[k] != es[k];
    }
  }

  lemma {:induction false} NoRoomNoGrant(s: Scope, es: seq<Entry>, k: nat)
    requires IsScope(s) && Sound(s.limits, es) && k <= |es| && Room(s.limits, es) == 0
    ensures GrantCount(Stored(s.limits, es), Replays(s, es, k)) == 0
    decreases |es| - k
  {
    hide Serve;
    if k < |es| {
      NoRoomNoGrant(s, es, k + 1);
      if es[k].phase == Waiting {
        ReplayOne(s, es, k);
        RunFromFirst(Stored(s.limits, es), Call(s, es[k].id, Claim, false, false, Proceeds(Lands)), Replays(s, es, k + 1));
      }
    }
  }

  lemma {:induction false} NoneWaitingNoneQueued(es: seq<Entry>)
    requires NoneWaiting(es, |es|)
    ensures Queued(es) == 0
  {
    if es != [] { NoneWaitingNoneQueued(es[..|es| - 1]); }
  }

  lemma {:induction false} ReplaysGrant(s: Scope, es: seq<Entry>, k: nat)
    requires IsScope(s) && Sound(s.limits, es) && k <= |es| && NoneWaiting(es, k)
    ensures GrantCount(Stored(s.limits, es), Replays(s, es, k)) == Min(Queued(es), Room(s.limits, es))
    decreases |es| - k
  {
    hide Serve;
    if k == |es| {
      NoneWaitingNoneQueued(es);
    } else if es[k].phase != Waiting {
      ReplaysGrant(s, es, k + 1);
    } else if Room(s.limits, es) == 0 {
      NoRoomNoGrant(s, es, k);
    } else {
      ReplayOne(s, es, k);
      var es' := Rephased(es, k, Owned);
      RephaseKeepsSound(s.limits, es, k, Owned);
      RephaseTallies(es, k, Owned);
      ReplaysGrant(s, es', k + 1);
      ReplaysDependOnTail(s, es, es', k + 1);
      RunFromFirst(Stored(s.limits, es), Call(s, es[k].id, Claim, false, false, Proceeds(Lands)), Replays(s, es, k + 1));
    }
  }

  /**
   * Work conservation: when every waiting attempt replays CLAIM once in ticket order, exactly as many are
   * granted as the queue, the free permits and the remaining claims allow.
   */
  lemma WorkConserving(s: Scope, es: seq<Entry>)
    requires IsScope(s) && Sound(s.limits, es)
    ensures GrantCount(Stored(s.limits, es), Replays(s, es, 0)) ==
      Min(Queued(es), Min(s.limits.cap - Active(es), s.limits.claimLimit - Claims(es)))
  {
    ReplaysGrant(s, es, 0);
  }
}
