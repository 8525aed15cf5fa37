/** The launch admission ledger as a value: an append-only history of attempts. */
module AdmissionLedger {
  import opened Common

  const HISTORY_MAX := 1024
  const QUEUE_MAX := 128

  datatype Phase = Waiting | Owned | Hold | Released | Canceled

  datatype Attempt = Attempt(run: string, task: uint32, attempt: uint32)

  datatype Entry = Entry(id: Attempt, phase: Phase)

  datatype Limits = Limits(cap: uint32, queueCap: uint32, claimLimit: uint64)

  datatype Op = Init | Claim | Inspect | Cancel | PlaceHold | Release

  datatype Reason =
    | Ready | Granted | AlreadyOwned | QueuedCapacity | QueuedFifo | QueueFull | Exhausted
    | HistoryFull | WasCanceled | CleanupHold | WasReleased | NotFound | Busy

  datatype Errno = EINVAL | ENOTSUP | EDEADLK | EIO | EPERM | ENOENT | Host(code: int)

  predicate IsPublicChar(c: char) {
    'a' <= c <= 'z' || 'A' <= c <= 'Z' || '0' <= c <= '9' || c == '-' || c == '_'
  }

  predicate IsPublicId(s: string) {
    0 < |s| <= 63 && forall i :: 0 <= i < |s| ==> IsPublicChar(s[i])
  }

  predicate IsAttempt(a: Attempt) {
    IsPublicId(a.run) && a.attempt != 0
  }

  /** Names are 1 to 63 ASCII digits, letters, dashes and underscores. */
  lemma PublicIdExactly(s: string)
    ensures IsPublicId(s) <==>
      && 1 <= |s| < 64
      && forall i :: 0 <= i < |s| ==>
           var n := s[i] as int; 48 <= n <= 57 || 65 <= n <= 90 || 97 <= n <= 122 || n == 45 || n == 95
  {
    assert forall c: char :: IsPublicChar(c) <==>
      var n := c as int; 48 <= n <= 57 || 65 <= n <= 90 || 97 <= n <= 122 || n == 45 || n == 95;
  }

  // ---- Counting phases -------------------------------------------------------------------

  function Bit(phase: Phase, phases: set<Phase>): nat {
    if phase in phases then 1 else 0
  }

  /** How many entries are in one of the given phases. */
  function Tally(es: seq<Entry>, phases: set<Phase>): nat {
    if es == [] then 0
    else Tally(es[..|es| - 1], phases) + Bit(es[|es| - 1].phase, phases)
  }

  const HOLDING := {Owned, Hold}
  const CLAIMED := {Owned, Hold, Released}

  function Active(es: seq<Entry>): nat { Tally(es, HOLDING) }
  function Queued(es: seq<Entry>): nat { Tally(es, {Waiting}) }
  function Claims(es: seq<Entry>): nat { Tally(es, CLAIMED) }

  lemma TallyAppend(es: seq<Entry>, e: Entry, phases: set<Phase>)
    ensures Tally(es + [e], phases) == Tally(es, phases) + Bit(e.phase, phases)
  {
    assert (es + [e])[..|es|] == es;
  }

  lemma {:induction false} TallyUpdate(es: seq<Entry>, i: nat, e: Entry, phases: set<Phase>)
    requires i < |es|
    ensures Tally(es[i := e], phases) + Bit(es[i].phase, phases) == Tally(es, phases) + Bit(e.phase, phases)
  {
    var n := |es| - 1;
    if i == n {
      assert es[i := e][..n] == es[..n];
    } else {
      TallyUpdate(es[..n], i, e, phases);
      assert es[i := e][..n] == es[..n][i := e];
    }
  }

  lemma {:induction false} TallyBound(es: seq<Entry>, phases: set<Phase>)
    ensures Tally(es, phases) <= |es|
    ensures forall i :: 0 <= i < |es| && es[i].phase in phases ==> 0 < Tally(es, phases)
  {
    if es != [] {
      TallyBound(es[..|es| - 1], phases);
      forall i | 0 <= i < |es| && es[i].phase in phases ensures 0 < Tally(es, phases) {
        if i < |es| - 1 { assert es[..|es| - 1][i] == es[i]; }
      }
    }
  }

  /** `Tally` counts the positions it names, so any set of such positions is no larger. */
  lemma {:induction false} TallyCovers(es: seq<Entry>, phases: set<Phase>, at: set<nat>)
    requires forall i <- at :: i < |es| && es[i].phase in phases
    ensures |at| <= Tally(es, phases)
  {
    if es == [] {
      assert at == {};
    } else {
      var n: nat := |es| - 1;
      var front := at - {n};
      TallyCovers(es[..n], phases, front);
      assert at <= front + {n};
      if n in at { assert at == front + {n}; } else { assert at == front; }
    }
  }

  // ---- The transition --------------------------------------------------------------------

  function FindFrom(es: seq<Entry>, a: Attempt, k: nat): (i: nat)
    requires k <= |es|
    ensures k <= i <= |es|
    ensures i < |es| ==> es[i].id == a
    ensures forall j :: k <= j < i ==> es[j].id != a
    decreases |es| - k
  {
    if k == |es| || es[k].id == a then k else FindFrom(es, a, k + 1)
  }

  /** Position of the attempt in the history, or the length when it is not enrolled. */
  function Find(es: seq<Entry>, a: Attempt): (i: nat)
    ensures i <= |es|
    ensures i < |es| ==> es[i].id == a
    ensures forall j :: 0 <= j < i ==> es[j].id != a
  {
    FindFrom(es, a, 0)
  }

  predicate NoneWaiting(es: seq<Entry>, n: nat)
    requires n <= |es|
  {
    forall j :: 0 <= j < n ==> es[j].phase != Waiting
  }

  /** What CANCEL, HOLD and RELEASE do to an enrolled attempt. */
  function Settle(phase: Phase, op: Op): Phase {
    match (op, phase)
    case (Cancel, Waiting) => Canceled
    case (Cancel, Owned) => Hold
    case (PlaceHold, Owned) => Hold
    case (Release, Owned) => Released
    case (Release, Hold) => Released
    case _ => phase
  }

  function StatusOf(phase: Phase, active: nat): Reason {
    match phase
    case Owned => AlreadyOwned
    case Hold => CleanupHold
    case Released => WasReleased
    case Canceled => WasCanceled
    case Waiting => if active > 0 then QueuedCapacity else QueuedFifo
  }

  /** Why an attempt that is not in the history may not enter it. */
  function Refusal(l: Limits, es: seq<Entry>, op: Op): Option<Reason> {
    if op != Claim && op != Cancel then Some(NotFound)
    else if op == Claim && Claims(es) >= l.claimLimit then Some(Exhausted)
    else if |es| == HISTORY_MAX then Some(HistoryFull)
    else if op == Claim && Queued(es) == l.queueCap then Some(QueueFull)
    else None
  }

  function Enrolled(es: seq<Entry>, a: Attempt, op: Op): seq<Entry> {
    if Find(es, a) < |es| then es
    else es + [Entry(a, if op == Cancel then Canceled else Waiting)]
  }

  /** The history after the transaction, or EPERM for a release without cleanup proof. */
  datatype Outcome = Refused(errno: Errno) | Done(es: seq<Entry>, reason: Reason, ticket: nat)

  function Rephased(es: seq<Entry>, i: nat, p: Phase): (r: seq<Entry>)
    requires i < |es|
    ensures |r| == |es|
  {
    es[i := Entry(es[i].id, p)]
  }

  /** The last stage: report an attempt that is settled, or queue or grant one that is waiting. */
  function Admit(l: Limits, es: seq<Entry>, i: nat, op: Op): Outcome
    requires i < |es|
  {
    if es[i].phase != Waiting then Done(es, StatusOf(es[i].phase, Active(es)), i + 1)
    else if Claims(es) == l.claimLimit then Done(es, Exhausted, i + 1)
    else if Active(es) >= l.cap then Done(es, QueuedCapacity, i + 1)
    else if op == Claim && NoneWaiting(es, i) then Done(Rephased(es, i, Owned), Granted, i + 1)
    else Done(es, QueuedFifo, i + 1)
  }

  function Act(l: Limits, es: seq<Entry>, i: nat, op: Op, proof: bool): Outcome
    requires i < |es|
  {
    if op == Release && es[i].phase in HOLDING && !proof then Refused(EPERM)
    else Admit(l, Rephased(es, i, Settle(es[i].phase, op)), i, op)
  }

  function Next(l: Limits, es: seq<Entry>, a: Attempt, op: Op, proof: bool): Outcome {
    var i := Find(es, a);
    if i == |es| && Refusal(l, es, op).Some? then Done(es, Refusal(l, es, op).value, 0)
    else Act(l, Enrolled(es, a, op), i, op, proof)
  }

  // ---- What every transaction keeps ------------------------------------------------------

  predicate Distinct(es: seq<Entry>) {
    forall i, j :: 0 <= i < j < |es| ==> es[i].id != es[j].id
  }

  /** Everything `load` checks of a ledger beyond the shape of its JSON. */
  predicate Sound(l: Limits, es: seq<Entry>) {
    && |es| <= HISTORY_MAX
    && (forall i :: 0 <= i < |es| ==> IsAttempt(es[i].id))
    && Distinct(es)
    && Active(es) <= l.cap
    && Queued(es) <= l.queueCap
    && Claims(es) <= l.claimLimit
  }

  /** The life of one attempt only moves forward. */
  predicate Later(before: Phase, after: Phase) {
    || before == after
    || before == Waiting
    || (before == Owned && after in {Hold, Released})
    || (before == Hold && after == Released)
  }

  /** A later history of the same ledger: nothing is dropped, moved, or taken back. */
  predicate Evolves(before: seq<Entry>, after: seq<Entry>) {
    && |before| <= |after|
    && forall i :: 0 <= i < |before| ==> before[i].id == after[i].id && Later(before[i].phase, after[i].phase)
  }

  lemma EvolvesTransitive(a: seq<Entry>, b: seq<Entry>, c: seq<Entry>)
    requires Evolves(a, b) && Evolves(b, c)
    ensures Evolves(a, c)
  {
    forall i | 0 <= i < |a| ensures a[i].id == c[i].id && Later(a[i].phase, c[i].phase) {
      assert a[i].id == b[i].id && Later(a[i].phase, b[i].phase);
      assert b[i].id == c[i].id && Later(b[i].phase, c[i].phase);
    }
  }

  lemma FindUnique(es: seq<Entry>, a: Attempt, i: nat)
    requires Distinct(es) && i < |es| && es[i].id == a
    ensures Find(es, a) == i
  {
    assert Find(es, a) <= i;
  }

  lemma EnrollTallies(es: seq<Entry>, e: Entry)
    requires e.phase == Waiting || e.phase == Canceled
    ensures Active(es + [e]) == Active(es) && Claims(es + [e]) == Claims(es)
    ensures Queued(es + [e]) == Queued(es) + Bit(e.phase, {Waiting})
  {
    TallyAppend(es, e, HOLDING);
    TallyAppend(es, e, {Waiting});
    TallyAppend(es, e, CLAIMED);
  }

  lemma EnrollKeepsSound(l: Limits, es: seq<Entry>, a: Attempt, op: Op)
    requires Sound(l, es) && IsAttempt(a)
    requires Find(es, a) < |es| || Refusal(l, es, op).None?
    ensures var es' := Enrolled(es, a, op);
      && Sound(l, es') && Evolves(es, es') && Find(es, a) < |es'|
      && Active(es') == Active(es) && Claims(es') == Claims(es)
  {
    if Find(es, a) == |es| {
      EnrollTallies(es, Entry(a, if op == Cancel then Canceled else Waiting));
    }
  }

  /** Rewriting one entry's phase: the counters move by that entry alone. */
  lemma RephaseTallies(es: seq<Entry>, i: nat, p: Phase)
    requires i < |es|
    ensures var es' := Rephased(es, i, p);
      && Active(es') + Bit(es[i].phase, HOLDING) == Active(es) + Bit(p, HOLDING)
      && Queued(es') + Bit(es[i].phase, {Waiting}) == Queued(es) + Bit(p, {Waiting})
      && Claims(es') + Bit(es[i].phase, CLAIMED) == Claims(es) + Bit(p, CLAIMED)
  {
    var e := Entry(es[i].id, p);
    TallyUpdate(es, i, e, HOLDING);
    TallyUpdate(es, i, e, {Waiting});
    TallyUpdate(es, i, e, CLAIMED);
  }

  /** Rewriting one entry forward keeps the ledger sound when both budgets still cover it. */
  lemma RephaseKeepsSound(l: Limits, es: seq<Entry>, i: nat, p: Phase)
    requires Sound(l, es) && i < |es| && Later(es[i].phase, p)
    requires p == Owned && es[i].phase != Owned ==> Active(es) < l.cap && Claims(es) < l.claimLimit
    requires p in CLAIMED && es[i].phase !in CLAIMED ==> p == Owned
    ensures Sound(l, Rephased(es, i, p)) && Evolves(es, Rephased(es, i, p))
  {
    RephaseTallies(es, i, p);
  }

  lemma SettleForward(phase: Phase, op: Op)
    ensures Later(phase, Settle(phase, op))
    ensures Settle(phase, op) in CLAIMED <==> phase in CLAIMED
    ensures Settle(phase, op) == Owned ==> phase == Owned
  {
  }

  lemma AdmitKeepsSound(l: Limits, es: seq<Entry>, i: nat, op: Op)
    requires Sound(l, es) && i < |es|
    ensures var r := Admit(l, es, i, op); r.Done? && Sound(l, r.es) && Evolves(es, r.es)
  {
    if Admit(l, es, i, op).reason == Granted && es[i].phase == Waiting {
      RephaseKeepsSound(l, es, i, Owned);
    }
  }

  lemma ActKeepsSound(l: Limits, es: seq<Entry>, i: nat, op: Op, proof: bool)
    requires Sound(l, es) && i < |es| && Act(l, es, i, op, proof).Done?
    ensures var r := Act(l, es, i, op, proof); Sound(l, r.es) && Evolves(es, r.es)
  {
    var p := Settle(es[i].phase, op);
    SettleForward(es[i].phase, op);
    RephaseKeepsSound(l, es, i, p);
    var es2 := Rephased(es, i, p);
    AdmitKeepsSound(l, es2, i, op);
    EvolvesTransitive(es, es2, Admit(l, es2, i, op).es);
  }

  /** One transaction keeps every limit and only moves the history forward. */
  lemma NextKeepsSound(l: Limits, es: seq<Entry>, a: Attempt, op: Op, proof: bool)
    requires Sound(l, es) && IsAttempt(a) && Next(l, es, a, op, proof).Done?
    ensures var r := Next(l, es, a, op, proof); Sound(l, r.es) && Evolves(es, r.es)
  {
    var i := Find(es, a);
    if i < |es| || Refusal(l, es, op).None? {
      EnrollKeepsSound(l, es, a, op);
      var es1 := Enrolled(es, a, op);
      ActKeepsSound(l, es1, i, op, proof);
      EvolvesTransitive(es, es1, Act(l, es1, i, op, proof).es);
    }
  }

  lemma ActTicket(l: Limits, es: seq<Entry>, i: nat, op: Op, proof: bool)
    requires i < |es| && Act(l, es, i, op, proof).Done?
    ensures var r := Act(l, es, i, op, proof);
      && r.ticket == i + 1 && |r.es| == |es| && r.es[i].id == es[i].id
      && (forall j :: 0 <= j < |es| && j != i ==> r.es[j] == es[j])
  {
  }

  /** The ticket is the permanent position of the attempt, and no other attempt is touched. */
  lemma NextTicket(l: Limits, es: seq<Entry>, a: Attempt, op: Op, proof: bool)
    requires Next(l, es, a, op, proof).Done?
    ensures var r := Next(l, es, a, op, proof);
      && (r.ticket == 0 ==> r.es == es && Find(es, a) == |es|)
      && (0 < r.ticket ==> r.ticket - 1 == Find(es, a) < |r.es| && r.es[r.ticket - 1].id == a)
      && (forall j :: 0 <= j < |es| && j != Find(es, a) ==> j < |r.es| && r.es[j] == es[j])
  {
    var i := Find(es, a);
    if i < |es| || Refusal(l, es, op).None? {
      ActTicket(l, Enrolled(es, a, op), i, op, proof);
    }
  }

  /** A fresh grant: the attempt was the first one waiting, and one permit and one claim are used. */
  lemma ActGrant(l: Limits, es: seq<Entry>, i: nat, op: Op, proof: bool)
    requires i < |es|
    requires var r := Act(l, es, i, op, proof); r.Done? && r.reason == Granted
    ensures var r := Act(l, es, i, op, proof);
      && op == Claim && es[i].phase == Waiting && r.ticket == i + 1
      && r.es == Rephased(es, i, Owned) && NoneWaiting(r.es, i + 1)
      && Active(r.es) == Active(es) + 1 && Claims(r.es) == Claims(es) + 1
  {
    assert Rephased(es, i, Settle(es[i].phase, op)) == es;
    assert NoneWaiting(es, i);
    RephaseTallies(es, i, Owned);
  }

  lemma GrantMeaning(l: Limits, es: seq<Entry>, a: Attempt, op: Op, proof: bool)
    requires Sound(l, es) && IsAttempt(a)
    requires var r := Next(l, es, a, op, proof); r.Done? && r.reason == Granted
    ensures var r := Next(l, es, a, op, proof); var i := Find(es, a);
      && op == Claim && r.ticket == i + 1 && i < |r.es|
      && (i < |es| ==> es[i].phase == Waiting)
      && NoneWaiting(r.es, i + 1) && r.es[i] == Entry(a, Owned)
      && Active(r.es) == Active(es) + 1 && Claims(r.es) == Claims(es) + 1
  {
    var i := Find(es, a);
    assert i < |es| || Refusal(l, es, op).None?;
    EnrollKeepsSound(l, es, a, op);
    var es1 := Enrolled(es, a, op);
    assert Next(l, es, a, op, proof) == Act(l, es1, i, op, proof);
    ActGrant(l, es1, i, op, proof);
  }

  /** Conversely, a CLAIM of the first waiting attempt is granted whenever both budgets have room. */
  lemma ClaimGranted(l: Limits, es: seq<Entry>, i: nat, proof: bool)
    requires Sound(l, es) && i < |es| && es[i].phase == Waiting && NoneWaiting(es, i)
    requires Active(es) < l.cap && Claims(es) < l.claimLimit
    ensures Next(l, es, es[i].id, Claim, proof) == Done(Rephased(es, i, Owned), Granted, i + 1)
  {
    FindUnique(es, es[i].id, i);
    assert Rephased(es, i, Waiting) == es;
  }

  /** Outside a grant an operation settles the attempt, and only a release with proof frees a permit. */
  lemma NextPhase(l: Limits, es: seq<Entry>, a: Attempt, op: Op, proof: bool)
    requires Next(l, es, a, op, proof).Done? && Find(es, a) < |es|
    ensures var i := Find(es, a); var r := Next(l, es, a, op, proof);
      && i < |r.es|
      && (r.reason != Granted ==> r.es[i].phase == Settle(es[i].phase, op))
      && (r.es[i].phase == Released && es[i].phase != Released ==> op == Release && proof)
  {
  }

  /** For an attempt with a ticket, the phase it was in and the operation fix the phase it is in afterwards. */
  lemma PhaseAfter(l: Limits, es: seq<Entry>, a: Attempt, op: Op, proof: bool)
    requires Sound(l, es) && IsAttempt(a)
    requires var r := Next(l, es, a, op, proof); r.Done? && 0 < r.ticket
    ensures var i := Find(es, a); var r := Next(l, es, a, op, proof);
      && i < |r.es|
      && var after := r.es[i].phase;
      if r.reason == Granted then after == Owned && (i < |es| ==> es[i].phase == Waiting)
      else if i == |es| then after == (if op == Cancel then Canceled else Waiting)
      else
        var before := es[i].phase;
        && (before == Waiting ==> after == if op == Cancel then Canceled else Waiting)
        && (before == Owned && op in {Cancel, PlaceHold} ==> after == Hold && r.reason == CleanupHold)
        && (before in {Owned, Hold} && op == Release ==> after == Released && proof && r.reason == WasReleased)
        && (before == Owned && op in {Init, Claim, Inspect} ==> after == Owned && r.reason == AlreadyOwned)
        && (before == Hold && op != Release ==> after == Hold)
        && (before in {Released, Canceled} ==> after == before)
  {
    hide Tally;
    var i := Find(es, a);
    EnrollKeepsSound(l, es, a, op);
    var es1 := Enrolled(es, a, op);
    var p := Settle(es1[i].phase, op);
    assert Next(l, es, a, op, proof) == Admit(l, Rephased(es1, i, p), i, op);
  }

  /** Only a release of a held permit without cleanup proof is refused. */
  lemma RefusedExactly(l: Limits, es: seq<Entry>, a: Attempt, op: Op, proof: bool)
    ensures Next(l, es, a, op, proof).Refused? <==>
      op == Release && !proof && Find(es, a) < |es| && es[Find(es, a)].phase in HOLDING
    ensures Next(l, es, a, op, proof).Refused? ==> Next(l, es, a, op, proof) == Refused(EPERM)
  {
    hide Tally;
  }

  /** Exactly which calls get no ticket: an unknown attempt that does not ask to enter, or that a limit keeps out. */
  lemma TicketRefused(l: Limits, es: seq<Entry>, a: Attempt, op: Op, proof: bool)
    requires Sound(l, es) && Next(l, es, a, op, proof).Done?
    ensures Next(l, es, a, op, proof).ticket == 0 <==>
      && Find(es, a) == |es|
      && (op !in {Claim, Cancel} || |es| == HISTORY_MAX
          || (op == Claim && (Claims(es) == l.claimLimit || Queued(es) == l.queueCap)))
  {
    hide Tally;
  }

  /** What the answer tells a supervisor: for an enrolled attempt, exactly where it now stands and why it waits. */
  lemma AnswerMeaning(l: Limits, es: seq<Entry>, a: Attempt, op: Op, proof: bool)
    requires Sound(l, es) && IsAttempt(a)
    requires var r := Next(l, es, a, op, proof); r.Done? && 0 < r.ticket
    ensures var i := Find(es, a); var r := Next(l, es, a, op, proof);
      && i < |r.es|
      && var p, owned := r.es[i].phase, i < |es| && es[i].phase == Owned;
      && (r.reason == AlreadyOwned <==> p == Owned && owned)
      && (r.reason == Granted <==> p == Owned && !owned)
      && (r.reason == CleanupHold <==> p == Hold)
      && (r.reason == WasReleased <==> p == Released)
      && (r.reason == WasCanceled <==> p == Canceled)
      && (r.reason == Exhausted <==> p == Waiting && Claims(es) == l.claimLimit)
      && (r.reason == QueuedCapacity <==> p == Waiting && Claims(es) < l.claimLimit && Active(es) == l.cap)
      && (r.reason == QueuedFifo <==> p == Waiting && Claims(es) < l.claimLimit && Active(es) < l.cap)
      && (r.reason == QueuedFifo && op == Claim ==> !NoneWaiting(r.es, i))
  {
    hide Tally;
    var i := Find(es, a);
    EnrollKeepsSound(l, es, a, op);
    var es1 := Enrolled(es, a, op);
    var p := Settle(es1[i].phase, op);
    RephaseKeepsSound(l, es1, i, p) by { SettleForward(es1[i].phase, op); }
    var es2 := Rephased(es1, i, p);
    assert Next(l, es, a, op, proof) == Admit(l, es2, i, op);
    if p == Waiting { assert es2 == es1; }
  }

  /** An attempt is turned away without a ticket, and without a trace, for the first of four reasons that applies. */
  lemma RefusalMeaning(l: Limits, es: seq<Entry>, a: Attempt, op: Op, proof: bool)
    requires Sound(l, es) && op != Init
    requires var r := Next(l, es, a, op, proof); r.Done? && r.ticket == 0
    ensures var r := Next(l, es, a, op, proof);
      && r.es == es && Find(es, a) == |es|
      && (r.reason == NotFound <==> op in {Inspect, PlaceHold, Release})
      && (r.reason == Exhausted <==> op == Claim && Claims(es) == l.claimLimit)
      && (r.reason == HistoryFull <==>
          |es| == HISTORY_MAX && (op == Cancel || (op == Claim && Claims(es) < l.claimLimit)))
      && (r.reason == QueueFull <==>
          op == Claim && Queued(es) == l.queueCap && Claims(es) < l.claimLimit && |es| < HISTORY_MAX)
      && r.reason in {NotFound, Exhausted, HistoryFull, QueueFull}
  {
    hide Tally;
    NextTicket(l, es, a, op, proof);
  }

  /** The books balance: permits and claims are taken by grants, and permits come back only by a proven release. */
  lemma Accounting(l: Limits, es: seq<Entry>, a: Attempt, op: Op, proof: bool)
    requires Sound(l, es) && IsAttempt(a) && Next(l, es, a, op, proof).Done?
    ensures var i := Find(es, a); var r := Next(l, es, a, op, proof);
      var granted := if r.reason == Granted then 1 else 0;
      var known, held := i < |es|, i < |es| && es[i].phase in HOLDING;
      var waited := known && es[i].phase == Waiting;
      && Claims(r.es) == Claims(es) + granted
      && Active(r.es) == Active(es) + granted - (if held && op == Release then 1 else 0)
      && Queued(r.es) == Queued(es) + (if !known && op == Claim && 0 < r.ticket then 1 else 0)
           - granted - (if waited && op == Cancel then 1 else 0)
      && (held && op == Release ==> proof)
  {
    hide Tally;
    var i := Find(es, a);
    var r := Next(l, es, a, op, proof);
    if i < |es| || Refusal(l, es, op).None? {
      EnrollTallies(es, Entry(a, if op == Cancel then Canceled else Waiting));
      var es1 := Enrolled(es, a, op);
      var p := Settle(es1[i].phase, op);
      RephaseTallies(es1, i, p);
      var es2 := Rephased(es1, i, p);
      assert r == Admit(l, es2, i, op);
      RephaseTallies(es2, i, Owned);
    }
  }

  /** An attempt that can no longer be granted: settled, or kept out by a full history. */
  predicate Barred(es: seq<Entry>, a: Attempt) {
    var i := Find(es, a);
    if i < |es| then es[i].phase != Waiting else |es| == HISTORY_MAX
  }

  /** A CANCEL that is answered leaves the attempt barred, whatever it found. */
  lemma CancelSettles(l: Limits, es: seq<Entry>, a: Attempt, proof: bool)
    requires Sound(l, es) && IsAttempt(a)
    ensures var r := Next(l, es, a, Cancel, proof); r.Done? && Sound(l, r.es) && Barred(r.es, a)
  {
    hide Tally;
    var i := Find(es, a);
    NextKeepsSound(l, es, a, Cancel, proof);
    if i < |es| || Refusal(l, es, Cancel).None? {
      var es1 := Enrolled(es, a, Cancel);
      ActTicket(l, es1, i, Cancel, proof);
      assert Settle(es1[i].phase, Cancel) != Waiting;
      FindUnique(Next(l, es, a, Cancel, proof).es, a, i);
    }
  }
}
