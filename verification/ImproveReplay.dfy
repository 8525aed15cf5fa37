/** Recording and replay: which sealed archives `_verify` accepts, and what it returns for them. */
module ImproveReplay {
  import opened Common
  import opened ImproveNames
  import opened ImproveSearch

  // ---- No file is written twice ----------------------------------------------------------

  predicate Fresh(writes: seq<Write>) {
    forall i, j :: 0 <= i < j < |writes| ==> writes[i].name != writes[j].name
  }

  predicate Apart(a: seq<Write>, b: seq<Write>) {
    forall i, j :: 0 <= i < |a| && 0 <= j < |b| ==> a[i].name != b[j].name
  }

  lemma FreshAppend(a: seq<Write>, b: seq<Write>)
    requires Fresh(a) && Fresh(b) && Apart(a, b)
    ensures Fresh(a + b)
  {
  }

  /** The files of evaluating one split from case `i` on. */
  predicate EvaluationFile(n: Name, stage: Stage, split: Split, i: nat) {
    n.CallFile? && n.call.Evaluates? && n.call.stage == stage && n.call.split == split && i <= n.call.index
  }

  predicate ScoreFile(n: Name, stage: Stage) {
    n.CallFile? && n.call.Evaluates? && n.call.stage == stage && n.call.split != Test
  }

  /** The round a file belongs to, 0 for none. */
  function RoundOf(n: Name): nat {
    match n
    case RoundBody(k) => k
    case DecisionFile(k) => k
    case CallFile(Proposes(k), _) => k
    case CallFile(Evaluates(OnRound(k), split, _), _) => if split == Test then 0 else k
    case _ => 0
  }

  /** One command leaves four files, all its own. */
  lemma CallFresh(w: World, spec: Spec, body: string, stage: Stage, split: Split, i: nat)
    requires i < |spec.Cases(split)|
    ensures var writes := EvaluateOne(w, spec, body, stage, split, i).writes;
      Fresh(writes) && forall k :: 0 <= k < |writes| ==>
        writes[k].name.CallFile? && writes[k].name.call == Evaluates(stage, split, i)
  {
  }

  lemma {:induction false} EvaluateFresh(w: World, spec: Spec, body: string, stage: Stage, split: Split, i: nat, sofar: seq<Evaluation>)
    requires i <= |spec.Cases(split)| && |sofar| == i
    ensures var writes := EvaluateFrom(w, spec, body, stage, split, i, sofar).writes;
      Fresh(writes) && forall k :: 0 <= k < |writes| ==> EvaluationFile(writes[k].name, stage, split, i)
    decreases |spec.Cases(split)| - i
  {
    hide EvaluateOne;
    if i < |spec.Cases(split)| {
      var one := EvaluateOne(w, spec, body, stage, split, i);
      CallFresh(w, spec, body, stage, split, i);
      if one.result.Some? {
        EvaluateFresh(w, spec, body, stage, split, i + 1, sofar + [one.result.value]);
        FreshAppend(one.writes, EvaluateFrom(w, spec, body, stage, split, i + 1, sofar + [one.result.value]).writes);
      }
    }
  }

  lemma ScoreFresh(w: World, spec: Spec, body: string, stage: Stage)
    ensures var writes := Score(w, spec, body, stage).writes;
      Fresh(writes) && forall k :: 0 <= k < |writes| ==> ScoreFile(writes[k].name, stage)
  {
    hide EvaluateFrom;
    EvaluateFresh(w, spec, body, stage, Train, 0, []);
    EvaluateFresh(w, spec, body, stage, Validation, 0, []);
    var a, b := EvaluateSplit(w, spec, body, stage, Train), EvaluateSplit(w, spec, body, stage, Validation);
    FreshAppend(a.writes, b.writes);
  }

  lemma RoundFresh(w: World, spec: Spec, k: nat, st: State)
    requires Sized(spec, st.scores)
    ensures var writes := Round(w, spec, k, st).writes;
      Fresh(writes) && forall i :: 0 <= i < |writes| ==> RoundOf(writes[i].name) == k
  {
    hide Score, Decide, Adopt;
    var proposed := ProposeFor(w, spec, k, st);
    if proposed.result.Some? {
      var p := proposed.result.value;
      ScoreFresh(w, spec, p.instructions, OnRound(k));
      var scored := Score(w, spec, p.instructions, OnRound(k));
      var front := proposed.writes + [Write(RoundBody(k), Some(p.instructions))];
      FreshAppend(front, scored.writes);
    }
  }

  lemma {:induction false} RoundsFresh(w: World, spec: Spec, k: nat, st: State)
    requires 1 <= k <= spec.rounds + 1 && Sized(spec, st.scores)
    ensures var writes := RoundsFrom(w, spec, k, st).writes;
      Fresh(writes) && forall i :: 0 <= i < |writes| ==> RoundOf(writes[i].name) >= k
    decreases spec.rounds + 1 - k
  {
    hide Round;
    if k <= spec.rounds {
      RoundFresh(w, spec, k, st);
      var one := Round(w, spec, k, st);
      if one.result.Some? {
        RoundsFresh(w, spec, k + 1, one.result.value);
        FreshAppend(one.writes, RoundsFrom(w, spec, k + 1, one.result.value).writes);
      }
    }
  }

  /** A file the decisions write: baseline scores or some round. */
  predicate DecisionPhase(n: Name) {
    ScoreFile(n, OnBaseline) || RoundOf(n) >= 1
  }

  lemma DecisionsFresh(w: World, spec: Spec, baseline: string)
    ensures var writes := Decisions(w, spec, baseline).writes;
      Fresh(writes) && forall i :: 0 <= i < |writes| ==> DecisionPhase(writes[i].name)
  {
    hide Score, RoundsFrom;
    ScoreFresh(w, spec, baseline, OnBaseline);
    var first := Score(w, spec, baseline, OnBaseline);
    if first.result.Some? {
      var st := State(baseline, first.result.value, [], 0);
      RoundsFresh(w, spec, 1, st);
      FreshAppend(first.writes, RoundsFrom(w, spec, 1, st).writes);
    }
  }

  predicate HoldoutFile(n: Name) {
    EvaluationFile(n, HoldoutBaseline, Test, 0) || EvaluationFile(n, HoldoutFinal, Test, 0)
  }

  lemma HoldoutFresh(w: World, spec: Spec, baseline: string, final: string)
    ensures var writes := Holdout(w, spec, baseline, final).writes;
      Fresh(writes) && forall i :: 0 <= i < |writes| ==> HoldoutFile(writes[i].name)
  {
    hide EvaluateFrom;
    EvaluateFresh(w, spec, baseline, HoldoutBaseline, Test, 0, []);
    EvaluateFresh(w, spec, final, HoldoutFinal, Test, 0, []);
    FreshAppend(EvaluateSplit(w, spec, baseline, HoldoutBaseline, Test).writes,
                EvaluateSplit(w, spec, final, HoldoutFinal, Test).writes);
  }

  predicate SearchFile(n: Name) {
    DecisionPhase(n) || HoldoutFile(n) || n == FinalBody
  }

  lemma SearchFresh(w: World, spec: Spec, baseline: string)
    ensures var writes := Search(w, spec, baseline).writes;
      Fresh(writes) && forall i :: 0 <= i < |writes| ==> SearchFile(writes[i].name)
  {
    hide Decisions, Holdout;
    DecisionsFresh(w, spec, baseline);
    var decided := Decisions(w, spec, baseline);
    if decided.result.Some? {
      var final := decided.result.value.1.parent;
      HoldoutFresh(w, spec, baseline, final);
      FreshAppend(decided.writes, Holdout(w, spec, baseline, final).writes);
      FreshAppend(decided.writes + Holdout(w, spec, baseline, final).writes, [Write(FinalBody, Some(final))]);
    }
  }

  /** The names as they are spelled are all different. */
  predicate FreshKeys(writes: seq<Write>) {
    forall i, j :: 0 <= i < j < |writes| ==> Key(writes[i].name) != Key(writes[j].name)
  }

  lemma FreshSpelling(writes: seq<Write>)
    requires Fresh(writes)
    ensures FreshKeys(writes)
  {
    hide Key;
    forall i, j | 0 <= i < j < |writes| ensures Key(writes[i].name) != Key(writes[j].name) {
      KeyApart(writes[i].name, writes[j].name);
    }
  }

  /** Over a whole run every archive name, as it is spelled, is used exactly once. */
  lemma EveryNameOnce(w: World, raw: Bytes, spec: Spec, baseline: Bytes, context: Context, report: Report)
    ensures FreshKeys(FullWrites(w, raw, spec, baseline, context, report))
  {
    hide Search, FreshKeys;
    SearchFresh(w, spec, baseline);
    var head, search := Head(w, raw, spec, baseline, context), Search(w, spec, baseline).writes;
    FreshAppend(head, search);
    FreshAppend(head + search, [Write(ReportFile, w.codec.dump(ReportDoc(report)))]);
    FreshSpelling(FullWrites(w, raw, spec, baseline, context, report));
  }

  // ---- The archive is the writes ---------------------------------------------------------

  lemma NamesAppend(a: seq<Write>, b: seq<Write>)
    ensures NamesOf(a + b) == NamesOf(a) + NamesOf(b)
  {
    hide Key;
    forall n <- NamesOf(a + b) ensures n in NamesOf(a) + NamesOf(b) {
      var i :| 0 <= i < |a + b| && Key((a + b)[i].name) == n;
      if i < |a| { assert Key(a[i].name) == n; } else { assert Key(b[i - |a|].name) == n; }
    }
    forall n <- NamesOf(a) ensures n in NamesOf(a + b) {
      var i :| 0 <= i < |a| && Key(a[i].name) == n;
      assert Key((a + b)[i].name) == n;
    }
    forall n <- NamesOf(b) ensures n in NamesOf(a + b) {
      var i :| 0 <= i < |b| && Key(b[i].name) == n;
      assert Key((a + b)[|a| + i].name) == n;
    }
  }

  lemma NamesStep(writes: seq<Write>)
    requires writes != []
    ensures NamesOf(writes) == NamesOf(writes[..|writes| - 1]) + {Key(writes[|writes| - 1].name)}
  {
    hide Key;
    var front, last := writes[..|writes| - 1], writes[|writes| - 1];
    assert writes == front + [last];
    NamesAppend(front, [last]);
    assert NamesOf([last]) == {Key(last.name)} by { assert [last][0] == last; }
  }

  lemma {:induction false} ArchiveHolds(writes: seq<Write>)
    requires FreshKeys(writes)
    ensures ToArchive(writes).Keys == NamesOf(writes)
    ensures forall i :: 0 <= i < |writes| ==>
      var n := Key(writes[i].name); n in ToArchive(writes) && ToArchive(writes)[n] == writes[i].bytes.GetOr("")
  {
    hide NamesOf, Key;
    if writes != [] {
      var front := writes[..|writes| - 1];
      ArchiveHolds(front);
      NamesStep(writes);
      assert forall i :: 0 <= i < |front| ==> front[i] == writes[i];
    } else {
      assert NamesOf(writes) == {} by { NoNames(); }
    }
  }

  lemma NoNames()
    ensures NamesOf([]) == {}
  {
  }

  /** An archive with exactly the expected names that holds each expected file is the recording of those files. */
  lemma ArchiveIsDetermined(files: Archive, writes: seq<Write>)
    requires FreshKeys(writes) && files.Keys == NamesOf(writes)
    requires forall i :: 0 <= i < |writes| ==> Holds(files, writes[i])
    ensures files == ToArchive(writes)
  {
    hide Key;
    ArchiveHolds(writes);
    forall n <- files ensures files[n] == ToArchive(writes)[n] {
      var i :| 0 <= i < |writes| && Key(writes[i].name) == n;
      assert Holds(files, writes[i]);
    }
  }

  // ---- The script depends only on the answers it asks for --------------------------------

  /** Two worlds that read documents alike and answer alike every command these files record. */
  ghost predicate Agree(a: World, b: World, writes: seq<Write>) {
    && a.codec == b.codec && a.cwd == b.cwd
    && forall i :: 0 <= i < |writes| && writes[i].name.CallFile? ==>
         a.answers(writes[i].name.call) == b.answers(writes[i].name.call)
  }

  lemma AgreeParts(a: World, b: World, u: seq<Write>, v: seq<Write>)
    requires Agree(a, b, u + v)
    ensures Agree(a, b, u) && Agree(a, b, v)
  {
    assert forall i :: 0 <= i < |u| ==> (u + v)[i] == u[i];
    assert forall i :: 0 <= i < |v| ==> (u + v)[|u| + i] == v[i];
  }

  lemma {:induction false} EvaluateAgree(a: World, b: World, spec: Spec, body: string, stage: Stage, split: Split, i: nat, sofar: seq<Evaluation>)
    requires i <= |spec.Cases(split)| && |sofar| == i
    requires Agree(a, b, EvaluateFrom(a, spec, body, stage, split, i, sofar).writes)
    ensures EvaluateFrom(b, spec, body, stage, split, i, sofar) == EvaluateFrom(a, spec, body, stage, split, i, sofar)
    decreases |spec.Cases(split)| - i
  {
    if i < |spec.Cases(split)| {
      var one := EvaluateOne(a, spec, body, stage, split, i);
      assert a.answers(one.writes[0].name.call) == b.answers(one.writes[0].name.call) by {
        assert EvaluateFrom(a, spec, body, stage, split, i, sofar).writes[0] == one.writes[0];
      }
      assert EvaluateOne(b, spec, body, stage, split, i) == one;
      if one.result.Some? {
        var next := sofar + [one.result.value];
        AgreeParts(a, b, one.writes, EvaluateFrom(a, spec, body, stage, split, i + 1, next).writes);
        EvaluateAgree(a, b, spec, body, stage, split, i + 1, next);
      }
    }
  }

  lemma ScoreAgree(a: World, b: World, spec: Spec, body: string, stage: Stage)
    requires Agree(a, b, Score(a, spec, body, stage).writes)
    ensures Score(b, spec, body, stage) == Score(a, spec, body, stage)
  {
    hide EvaluateFrom, Agree;
    var train := EvaluateSplit(a, spec, body, stage, Train);
    var validation := EvaluateSplit(a, spec, body, stage, Validation);
    if train.result.Some? { AgreeParts(a, b, train.writes, validation.writes); }
    EvaluateAgree(a, b, spec, body, stage, Train, 0, []);
    if train.result.Some? { EvaluateAgree(a, b, spec, body, stage, Validation, 0, []); }
  }

  lemma ProposeAgree(a: World, b: World, spec: Spec, k: nat, st: State)
    requires Sized(spec, st.scores) && Agree(a, b, ProposeFor(a, spec, k, st).writes)
    ensures ProposeFor(b, spec, k, st) == ProposeFor(a, spec, k, st)
  {
    var writes := ProposeFor(a, spec, k, st).writes;
    assert a.answers(writes[0].name.call) == b.answers(writes[0].name.call);
  }

  lemma RoundAgree(a: World, b: World, spec: Spec, k: nat, st: State)
    requires Sized(spec, st.scores) && Agree(a, b, Round(a, spec, k, st).writes)
    ensures Round(b, spec, k, st) == Round(a, spec, k, st)
  {
    hide ProposeFor, Score, Decide;
    var proposed := ProposeFor(a, spec, k, st);
    if proposed.result.None? {
      ProposeAgree(a, b, spec, k, st);
    } else {
      var p := proposed.result.value;
      var bodyFile := [Write(RoundBody(k), Some(p.instructions))];
      var scored := Score(a, spec, p.instructions, OnRound(k));
      if scored.result.Some? {
        AgreeParts(a, b, proposed.writes + bodyFile + scored.writes,
                   [Write(DecisionFile(k), a.codec.dump(DecisionDoc(Decide(a, st, k, p, scored.result.value))))]);
      }
      AgreeParts(a, b, proposed.writes + bodyFile, scored.writes);
      AgreeParts(a, b, proposed.writes, bodyFile);
      ProposeAgree(a, b, spec, k, st);
      ScoreAgree(a, b, spec, p.instructions, OnRound(k));
      if scored.result.Some? {
        assert Decide(a, st, k, p, scored.result.value) == Decide(b, st, k, p, scored.result.value) by {
          DecideAgree(a, b, st, k, p, scored.result.value);
        }
      }
    }
  }

  lemma DecideAgree(a: World, b: World, st: State, k: nat, p: Proposal, candidate: Scores)
    requires SameSize(st.scores, candidate) && a.codec == b.codec
    ensures Decide(a, st, k, p, candidate) == Decide(b, st, k, p, candidate)
  {
  }

  lemma {:induction false} RoundsAgree(a: World, b: World, spec: Spec, k: nat, st: State)
    requires 1 <= k <= spec.rounds + 1 && Sized(spec, st.scores)
    requires Agree(a, b, RoundsFrom(a, spec, k, st).writes)
    ensures RoundsFrom(b, spec, k, st) == RoundsFrom(a, spec, k, st)
    decreases spec.rounds + 1 - k
  {
    hide Round, Agree;
    if k <= spec.rounds {
      var one := Round(a, spec, k, st);
      if one.result.Some? {
        AgreeParts(a, b, one.writes, RoundsFrom(a, spec, k + 1, one.result.value).writes);
        RoundAgree(a, b, spec, k, st);
        RoundsAgree(a, b, spec, k + 1, one.result.value);
      } else {
        RoundAgree(a, b, spec, k, st);
      }
    }
  }

  lemma DecisionsAgree(a: World, b: World, spec: Spec, baseline: string)
    requires Agree(a, b, Decisions(a, spec, baseline).writes)
    ensures Decisions(b, spec, baseline) == Decisions(a, spec, baseline)
  {
    hide Score, RoundsFrom, Agree;
    var first := Score(a, spec, baseline, OnBaseline);
    if first.result.Some? {
      var st := State(baseline, first.result.value, [], 0);
      AgreeParts(a, b, first.writes, RoundsFrom(a, spec, 1, st).writes);
      RoundsAgree(a, b, spec, 1, st);
    }
    ScoreAgree(a, b, spec, baseline, OnBaseline);
  }

  lemma HoldoutAgree(a: World, b: World, spec: Spec, baseline: string, final: string)
    requires Agree(a, b, Holdout(a, spec, baseline, final).writes)
    ensures Holdout(b, spec, baseline, final) == Holdout(a, spec, baseline, final)
  {
    hide EvaluateFrom, Agree;
    var first := EvaluateSplit(a, spec, baseline, HoldoutBaseline, Test);
    if first.result.Some? {
      AgreeParts(a, b, first.writes, EvaluateSplit(a, spec, final, HoldoutFinal, Test).writes);
      EvaluateAgree(a, b, spec, final, HoldoutFinal, Test, 0, []);
    }
    EvaluateAgree(a, b, spec, baseline, HoldoutBaseline, Test, 0, []);
  }

  /** The search is a function of the answers it records: another world with those answers gives the same run. */
  lemma SearchAgree(a: World, b: World, spec: Spec, baseline: string)
    requires Agree(a, b, Search(a, spec, baseline).writes)
    ensures Search(b, spec, baseline) == Search(a, spec, baseline)
  {
    hide Decisions, Holdout;
    var decided := Decisions(a, spec, baseline);
    if decided.result.Some? {
      var st := decided.result.value.1;
      var held := Holdout(a, spec, baseline, st.parent);
      if held.result.Some? {
        AgreeParts(a, b, decided.writes + held.writes, [Write(FinalBody, Some(st.parent))]);
      }
      AgreeParts(a, b, decided.writes, held.writes);
      HoldoutAgree(a, b, spec, baseline, st.parent);
    }
    DecisionsAgree(a, b, spec, baseline);
  }

  // ---- Every call leaves its answer in the archive ---------------------------------------

  /** The command went well, and the files hold its true answer and its record. */
  predicate HasAnswer(w: World, spec: Spec, writes: seq<Write>, l: Label) {
    && w.answers(l).error.None?
    && Write(CallFile(l, Stdout), Some(w.answers(l).stdout)) in writes
    && Write(CallFile(l, Stderr), Some(w.answers(l).stderr)) in writes
    && Write(CallFile(l, Command), w.codec.dump(RecordDoc(RecordOf(w, spec, l)))) in writes
  }

  /** Every command these files mention is answered in them. */
  predicate Documented(w: World, spec: Spec, writes: seq<Write>) {
    forall i :: 0 <= i < |writes| && writes[i].name.CallFile? ==> HasAnswer(w, spec, writes, writes[i].name.call)
  }

  lemma HasAnswerIn(w: World, spec: Spec, a: seq<Write>, b: seq<Write>, l: Label)
    ensures HasAnswer(w, spec, a, l) || HasAnswer(w, spec, b, l) ==> HasAnswer(w, spec, a + b, l)
  {
    hide RecordOf;
  }

  lemma DocumentedAppend(w: World, spec: Spec, a: seq<Write>, b: seq<Write>)
    requires Documented(w, spec, a) && Documented(w, spec, b)
    ensures Documented(w, spec, a + b)
  {
    hide HasAnswer;
    forall i | 0 <= i < |a + b| && (a + b)[i].name.CallFile?
      ensures HasAnswer(w, spec, a + b, (a + b)[i].name.call)
    {
      HasAnswerIn(w, spec, a, b, (a + b)[i].name.call);
      if i < |a| { assert (a + b)[i] == a[i]; } else { assert (a + b)[i] == b[i - |a|]; }
    }
  }

  lemma CallDocumented(w: World, spec: Spec, l: Label, request: Request)
    requires w.answers(l).error.None?
    ensures Documented(w, spec, CallWrites(w, spec, l, request))
  {
    hide RecordOf;
    var writes := CallWrites(w, spec, l, request);
    assert writes[1].name == CallFile(l, Stdout) && writes[2].name == CallFile(l, Stderr) && writes[3].name == CallFile(l, Command);
  }

  lemma {:induction false} EvaluateDocumented(w: World, spec: Spec, body: string, stage: Stage, split: Split, i: nat, sofar: seq<Evaluation>)
    requires i <= |spec.Cases(split)| && |sofar| == i
    requires EvaluateFrom(w, spec, body, stage, split, i, sofar).result.Some?
    ensures Documented(w, spec, EvaluateFrom(w, spec, body, stage, split, i, sofar).writes)
    decreases |spec.Cases(split)| - i
  {
    hide Documented, CallWrites;
    if i == |spec.Cases(split)| {
      assert Documented(w, spec, []) by { NothingDocumented(w, spec); }
    } else {
      CallDocumented(w, spec, Evaluates(stage, split, i), Evaluate(body, spec.Cases(split)[i]));
      var one := EvaluateOne(w, spec, body, stage, split, i);
      var next := sofar + [one.result.value];
      EvaluateDocumented(w, spec, body, stage, split, i + 1, next);
      DocumentedAppend(w, spec, one.writes, EvaluateFrom(w, spec, body, stage, split, i + 1, next).writes);
    }
  }

  lemma NothingDocumented(w: World, spec: Spec)
    ensures Documented(w, spec, [])
  {
  }

  lemma PlainDocumented(w: World, spec: Spec, n: Name, bytes: Option<Bytes>)
    requires !n.CallFile?
    ensures Documented(w, spec, [Write(n, bytes)])
  {
  }

  lemma ScoreDocumented(w: World, spec: Spec, body: string, stage: Stage)
    requires Score(w, spec, body, stage).result.Some?
    ensures Documented(w, spec, Score(w, spec, body, stage).writes)
  {
    hide Documented, EvaluateFrom;
    EvaluateDocumented(w, spec, body, stage, Train, 0, []);
    EvaluateDocumented(w, spec, body, stage, Validation, 0, []);
    DocumentedAppend(w, spec, EvaluateSplit(w, spec, body, stage, Train).writes, EvaluateSplit(w, spec, body, stage, Validation).writes);
  }

  lemma RoundDocumented(w: World, spec: Spec, k: nat, st: State)
    requires Sized(spec, st.scores) && Round(w, spec, k, st).result.Some?
    ensures Documented(w, spec, Round(w, spec, k, st).writes)
  {
    hide Documented, CallWrites, Score, Decide, Adopt;
    CallDocumented(w, spec, Proposes(k), Propose(st.parent, k, FeedbackOf(spec, st.scores)));
    var proposed := ProposeFor(w, spec, k, st);
    var p := proposed.result.value;
    var scored := Score(w, spec, p.instructions, OnRound(k));
    var front := proposed.writes + [Write(RoundBody(k), Some(p.instructions))];
    PlainDocumented(w, spec, RoundBody(k), Some(p.instructions));
    DocumentedAppend(w, spec, proposed.writes, [Write(RoundBody(k), Some(p.instructions))]);
    ScoreDocumented(w, spec, p.instructions, OnRound(k));
    DocumentedAppend(w, spec, front, scored.writes);
    var doc := w.codec.dump(DecisionDoc(Decide(w, st, k, p, scored.result.value)));
    PlainDocumented(w, spec, DecisionFile(k), doc);
    DocumentedAppend(w, spec, front + scored.writes, [Write(DecisionFile(k), doc)]);
  }

  lemma {:induction false} RoundsDocumented(w: World, spec: Spec, k: nat, st: State)
    requires 1 <= k <= spec.rounds + 1 && Sized(spec, st.scores) && RoundsFrom(w, spec, k, st).result.Some?
    ensures Documented(w, spec, RoundsFrom(w, spec, k, st).writes)
    decreases spec.rounds + 1 - k
  {
    hide Documented, Round;
    if k == spec.rounds + 1 {
      NothingDocumented(w, spec);
    } else {
      RoundDocumented(w, spec, k, st);
      var one := Round(w, spec, k, st);
      RoundsDocumented(w, spec, k + 1, one.result.value);
      DocumentedAppend(w, spec, one.writes, RoundsFrom(w, spec, k + 1, one.result.value).writes);
    }
  }

  lemma SearchDocumented(w: World, spec: Spec, baseline: string)
    requires Search(w, spec, baseline).result.Some?
    ensures Documented(w, spec, Search(w, spec, baseline).writes)
  {
    hide Documented, Score, RoundsFrom, EvaluateFrom;
    ScoreDocumented(w, spec, baseline, OnBaseline);
    var first := Score(w, spec, baseline, OnBaseline);
    var st := State(baseline, first.result.value, [], 0);
    RoundsDocumented(w, spec, 1, st);
    DocumentedAppend(w, spec, first.writes, RoundsFrom(w, spec, 1, st).writes);
    var decided := Decisions(w, spec, baseline);
    var final := decided.result.value.1.parent;
    EvaluateDocumented(w, spec, baseline, HoldoutBaseline, Test, 0, []);
    EvaluateDocumented(w, spec, final, HoldoutFinal, Test, 0, []);
    DocumentedAppend(w, spec, EvaluateSplit(w, spec, baseline, HoldoutBaseline, Test).writes,
                     EvaluateSplit(w, spec, final, HoldoutFinal, Test).writes);
    var held := Holdout(w, spec, baseline, final);
    DocumentedAppend(w, spec, decided.writes, held.writes);
    PlainDocumented(w, spec, FinalBody, Some(final));
    DocumentedAppend(w, spec, decided.writes + held.writes, [Write(FinalBody, Some(final))]);
  }
}
