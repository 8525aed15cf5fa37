/**
 * The story of a search, told from its files and its report alone: which body was proposed on which feedback, by which
 * commands it was judged, what was adopted, and what the report says of it.
 */
module ImproveStory {
  import opened Common
  import opened ImproveNames
  import opened ImproveSearch

  // ---- Monotone selection ----------------------------------------------------------------

  /** No case that passed is lost and the exact total cost does not rise. */
  predicate NoWorse(before: seq<Evaluation>, after: seq<Evaluation>) {
    && |before| == |after|
    && (forall i :: 0 <= i < |before| && before[i].passed ==> after[i].passed)
    && Total(after) <= Total(before)
  }

  predicate Dominates(before: Scores, after: Scores) {
    NoWorse(before.train, after.train) && NoWorse(before.validation, after.validation)
  }

  predicate TrainGain(before: Scores, after: Scores) {
    Passed(after.train) > Passed(before.train) || Total(after.train) < Total(before.train)
  }

  lemma {:induction false} TotalAppend(a: seq<Evaluation>, b: seq<Evaluation>)
    ensures Total(a + b) == Total(a) + Total(b) && Passed(a + b) == Passed(a) + Passed(b)
  {
    if b == [] {
      assert a + b == a;
    } else {
      assert (a + b)[..|a + b| - 1] == a + b[..|b| - 1];
      TotalAppend(a, b[..|b| - 1]);
    }
  }

  /** One result counts its exact cost, and one if it passed; with that totals add up over any split of the cases. */
  lemma TotalOfOne(e: Evaluation)
    ensures Total([e]) == ValueOf(e.cost) && Passed([e]) == if e.passed then 1 else 0
  {
    assert [e][..0] == [];
  }

  /** The gate accepts exactly the strict Pareto improvements. */
  lemma GateIsPareto(parent: Scores, candidate: Scores)
    requires SameSize(parent, candidate)
    ensures Gate(parent, candidate).0 <==> Dominates(parent, candidate) && TrainGain(parent, candidate)
  {
  }

  /** Some case that passed before fails now. */
  predicate Lost(before: seq<Evaluation>, after: seq<Evaluation>) {
    |before| == |after| && exists i :: 0 <= i < |before| && before[i].passed && !after[i].passed
  }

  /** The reason a decision gives: the first thing that went wrong, train before validation and passes before costs. */
  predicate Explains(parent: Scores, candidate: Scores, same: bool, reason: string) {
    var train, validation := Lost(parent.train, candidate.train), Lost(parent.validation, candidate.validation);
    var dearer := Total(parent.train) < Total(candidate.train);
    && (same <==> reason == "identical instructions")
    && (!same && train <==> reason == "train pass regression")
    && (!same && !train && dearer <==> reason == "train cost increase")
    && (!same && !train && !dearer && validation <==> reason == "validation pass regression")
    && (!same && !train && !dearer && !validation && Total(parent.validation) < Total(candidate.validation)
        <==> reason == "validation cost increase")
    && (!same && Dominates(parent, candidate) && !TrainGain(parent, candidate) <==> reason == "no strict train improvement")
    && (!same && Dominates(parent, candidate) && TrainGain(parent, candidate)
        <==> reason == "train improvement; both splits Pareto-safe")
  }

  /** The reasons, told apart by their first letters. */
  lemma ReasonsApart()
    ensures var rs := ["identical instructions", "train pass regression", "train cost increase", "validation pass regression",
        "validation cost increase", "no strict train improvement", "train improvement; both splits Pareto-safe"];
      forall i, j :: 0 <= i < j < |rs| ==> rs[i] != rs[j]
  {
    assert "train pass regression"[6] == 'p' && "train cost increase"[6] == 'c' && "train improvement; both splits Pareto-safe"[6] == 'i';
    assert "validation pass regression"[11] == 'p' && "validation cost increase"[11] == 'c';
    assert "identical instructions"[0] == 'i' && "no strict train improvement"[0] == 'n' && "validation pass regression"[0] == 'v';
  }

  lemma GateExplains(parent: Scores, candidate: Scores)
    requires SameSize(parent, candidate)
    ensures Explains(parent, candidate, false, Gate(parent, candidate).1)
  {
    assert Lost(parent.train, candidate.train) == Regresses(parent.train, candidate.train);
    assert Lost(parent.validation, candidate.validation) == Regresses(parent.validation, candidate.validation);
    GateIsPareto(parent, candidate);
    ReasonsApart();
    hide Regresses, Lost, Total, Passed;
  }

  lemma SameExplains(parent: Scores, candidate: Scores)
    ensures Explains(parent, candidate, true, "identical instructions")
  {
    ReasonsApart();
    hide Lost, Total, Dominates, TrainGain;
  }

  lemma {:induction false} NoWorsePasses(before: seq<Evaluation>, after: seq<Evaluation>)
    requires |before| == |after| && forall i :: 0 <= i < |before| && before[i].passed ==> after[i].passed
    ensures Passed(before) <= Passed(after)
  {
    if before != [] {
      NoWorsePasses(before[..|before| - 1], after[..|after| - 1]);
    }
  }

  lemma DominatesTransitive(a: Scores, b: Scores, c: Scores)
    requires Dominates(a, b) && Dominates(b, c)
    ensures Dominates(a, c)
    ensures TrainGain(a, b) || TrainGain(b, c) ==> TrainGain(a, c)
  {
    NoWorsePasses(a.train, b.train);
    NoWorsePasses(b.train, c.train);
  }

  // ---- Judged by its own evaluation ------------------------------------------------------

  /** The commands of this stage were asked about this very body and these cases, and the results are what they answered. */
  ghost predicate Judged(w: World, spec: Spec, writes: seq<Write>, body: Bytes, stage: Stage, split: Split, results: seq<Evaluation>) {
    && |results| == |spec.Cases(split)|
    && forall i :: 0 <= i < |results| ==> JudgedAt(w, spec, writes, body, stage, split, i, results[i])
  }

  ghost predicate JudgedAt(w: World, spec: Spec, writes: seq<Write>, body: Bytes, stage: Stage, split: Split, i: nat, result: Evaluation)
    requires i < |spec.Cases(split)|
  {
    var l := Evaluates(stage, split, i);
    && Write(CallFile(l, Input), w.codec.dump(RequestDoc(Evaluate(body, spec.Cases(split)[i])))) in writes
    && w.answers(l).error.None? && Write(CallFile(l, Stdout), Some(w.answers(l).stdout)) in writes
    && w.codec.parseEvaluation(w.answers(l).stdout) == Some(result)
  }

  ghost predicate JudgedScores(w: World, spec: Spec, writes: seq<Write>, body: Bytes, stage: Stage, scores: Scores) {
    && Judged(w, spec, writes, body, stage, Train, scores.train)
    && Judged(w, spec, writes, body, stage, Validation, scores.validation)
  }

  lemma JudgedMore(w: World, spec: Spec, a: seq<Write>, b: seq<Write>, body: Bytes, stage: Stage, split: Split, results: seq<Evaluation>)
    requires Judged(w, spec, a, body, stage, split, results) && forall x <- a :: x in b
    ensures Judged(w, spec, b, body, stage, split, results)
  {
  }

  lemma ScoresMore(w: World, spec: Spec, a: seq<Write>, b: seq<Write>, body: Bytes, stage: Stage, scores: Scores)
    requires JudgedScores(w, spec, a, body, stage, scores) && forall x <- a :: x in b
    ensures JudgedScores(w, spec, b, body, stage, scores)
  {
    hide Judged;
    JudgedMore(w, spec, a, b, body, stage, Train, scores.train);
    JudgedMore(w, spec, a, b, body, stage, Validation, scores.validation);
  }

  lemma OneJudged(w: World, spec: Spec, body: Bytes, stage: Stage, split: Split, i: nat)
    requires i < |spec.Cases(split)| && EvaluateOne(w, spec, body, stage, split, i).result.Some?
    ensures var one := EvaluateOne(w, spec, body, stage, split, i);
      JudgedAt(w, spec, one.writes, body, stage, split, i, one.result.value)
  {
    hide RecordOf;
    var one := EvaluateOne(w, spec, body, stage, split, i);
    assert one.writes[0].name == CallFile(Evaluates(stage, split, i), Input);
    assert one.writes[1].name == CallFile(Evaluates(stage, split, i), Stdout);
  }

  lemma JudgedAtMore(w: World, spec: Spec, a: seq<Write>, b: seq<Write>, body: Bytes, stage: Stage, split: Split, i: nat, result: Evaluation)
    requires i < |spec.Cases(split)| && JudgedAt(w, spec, a, body, stage, split, i, result) && forall x <- a :: x in b
    ensures JudgedAt(w, spec, b, body, stage, split, i, result)
  {
  }

  lemma {:induction false} EvaluateJudged(w: World, spec: Spec, body: Bytes, stage: Stage, split: Split, i: nat, sofar: seq<Evaluation>)
    requires i <= |spec.Cases(split)| && |sofar| == i
    requires EvaluateFrom(w, spec, body, stage, split, i, sofar).result.Some?
    ensures var s := EvaluateFrom(w, spec, body, stage, split, i, sofar);
      && sofar <= s.result.value
      && forall j :: i <= j < |s.result.value| ==> JudgedAt(w, spec, s.writes, body, stage, split, j, s.result.value[j])
    decreases |spec.Cases(split)| - i
  {
    hide EvaluateOne, JudgedAt;
    if i < |spec.Cases(split)| {
      var one := EvaluateOne(w, spec, body, stage, split, i);
      var next := sofar + [one.result.value];
      var rest := EvaluateFrom(w, spec, body, stage, split, i + 1, next);
      OneJudged(w, spec, body, stage, split, i);
      EvaluateJudged(w, spec, body, stage, split, i + 1, next);
      var s := EvaluateFrom(w, spec, body, stage, split, i, sofar);
      assert next[i] == one.result.value && s.result == rest.result && s.writes == one.writes + rest.writes;
      forall j | i <= j < |s.result.value| ensures JudgedAt(w, spec, s.writes, body, stage, split, j, s.result.value[j]) {
        JudgedAtMore(w, spec, if j == i then one.writes else rest.writes, s.writes, body, stage, split, j, s.result.value[j]);
      }
    }
  }

  lemma SplitJudged(w: World, spec: Spec, body: Bytes, stage: Stage, split: Split)
    requires EvaluateSplit(w, spec, body, stage, split).result.Some?
    ensures var s := EvaluateSplit(w, spec, body, stage, split); Judged(w, spec, s.writes, body, stage, split, s.result.value)
  {
    hide EvaluateFrom, JudgedAt;
    EvaluateJudged(w, spec, body, stage, split, 0, []);
  }

  lemma ScoreJudged(w: World, spec: Spec, body: Bytes, stage: Stage)
    requires Score(w, spec, body, stage).result.Some?
    ensures var s := Score(w, spec, body, stage); JudgedScores(w, spec, s.writes, body, stage, s.result.value)
  {
    hide EvaluateSplit, Judged;
    var a, b := EvaluateSplit(w, spec, body, stage, Train), EvaluateSplit(w, spec, body, stage, Validation);
    SplitJudged(w, spec, body, stage, Train);
    SplitJudged(w, spec, body, stage, Validation);
    JudgedMore(w, spec, a.writes, a.writes + b.writes, body, stage, Train, a.result.value);
    JudgedMore(w, spec, b.writes, a.writes + b.writes, body, stage, Validation, b.result.value);
  }

  // ---- The rounds ------------------------------------------------------------------------

  /** The body in force after `k` rounds, and the results it stands on. */
  function ParentAt(baseline: Bytes, bodies: seq<Bytes>, rounds: seq<Decision>, k: nat): Bytes
    requires k <= |bodies| && k <= |rounds|
  {
    if k == 0 then baseline else if rounds[k - 1].accepted then bodies[k - 1] else ParentAt(baseline, bodies, rounds, k - 1)
  }

  function ScoresAt(initial: Scores, rounds: seq<Decision>, k: nat): Scores
    requires k <= |rounds|
  {
    if k == 0 then initial else if rounds[k - 1].accepted then rounds[k - 1].results else ScoresAt(initial, rounds, k - 1)
  }

  function AcceptedIn(rounds: seq<Decision>): nat {
    if rounds == [] then 0
    else AcceptedIn(rounds[..|rounds| - 1]) + if rounds[|rounds| - 1].accepted then 1 else 0
  }

  /** What the proposer is shown: every train case by id with its result, and nothing of the other splits. */
  predicate IsFeedback(spec: Spec, scores: Scores, feedback: seq<Feedback>) {
    && |feedback| == |spec.train| == |scores.train|
    && forall i :: 0 <= i < |feedback| ==> feedback[i].id == spec.train[i].id && feedback[i].result == scores.train[i]
  }

  /** The request and the answer of round `k + 1`: the parent and its train results were shown, this body was proposed. */
  ghost predicate ProposedAt(w: World, spec: Spec, writes: seq<Write>, parent: Bytes, scores: Scores, k: nat, body: Bytes, rationale: string) {
    var l := Proposes(k + 1);
    && (exists feedback :: IsFeedback(spec, scores, feedback)
          && Write(CallFile(l, Input), w.codec.dump(RequestDoc(Propose(parent, k + 1, feedback)))) in writes)
    && w.answers(l).error.None? && Write(CallFile(l, Stdout), Some(w.answers(l).stdout)) in writes
    && w.codec.parseProposal(w.answers(l).stdout) == Some(Proposal(body, rationale)) && w.codec.ValidBody(body)
    && Write(RoundBody(k + 1), Some(body)) in writes
  }

  /** Round `k + 1`: who proposed what, how it was judged, and that it was adopted exactly for a strict Pareto gain. */
  ghost predicate RoundTold(w: World, spec: Spec, writes: seq<Write>, baseline: Bytes, initial: Scores, bodies: seq<Bytes>, rounds: seq<Decision>, k: nat)
    requires k < |rounds| == |bodies|
  {
    var d, parent, scores := rounds[k], ParentAt(baseline, bodies, rounds, k), ScoresAt(initial, rounds, k);
    && ProposedAt(w, spec, writes, parent, scores, k, bodies[k], d.rationale)
    && JudgedScores(w, spec, writes, bodies[k], OnRound(k + 1), d.results)
    && d.round == k + 1 && d.parent == w.codec.sha(parent) && d.candidate == w.codec.sha(bodies[k])
    && (d.accepted <==> bodies[k] != parent && Dominates(scores, d.results) && TrainGain(scores, d.results))
    && Explains(scores, d.results, bodies[k] == parent, d.reason)
    && Write(DecisionFile(k + 1), w.codec.dump(DecisionDoc(d))) in writes
  }

  ghost predicate Told(w: World, spec: Spec, writes: seq<Write>, baseline: Bytes, initial: Scores, bodies: seq<Bytes>, rounds: seq<Decision>) {
    && |bodies| == |rounds|
    && JudgedScores(w, spec, writes, baseline, OnBaseline, initial)
    && forall k :: 0 <= k < |rounds| ==> RoundTold(w, spec, writes, baseline, initial, bodies, rounds, k)
  }

  lemma {:induction false} EarlierAlike(baseline: Bytes, initial: Scores, bodies: seq<Bytes>, rounds: seq<Decision>, body: Bytes, d: Decision, k: nat)
    requires k <= |rounds| == |bodies|
    ensures ParentAt(baseline, bodies + [body], rounds + [d], k) == ParentAt(baseline, bodies, rounds, k)
    ensures ScoresAt(initial, rounds + [d], k) == ScoresAt(initial, rounds, k)
  {
    if k > 0 { EarlierAlike(baseline, initial, bodies, rounds, body, d, k - 1); }
  }

  lemma ProposedMore(w: World, spec: Spec, a: seq<Write>, b: seq<Write>, parent: Bytes, scores: Scores, k: nat, body: Bytes, rationale: string)
    requires ProposedAt(w, spec, a, parent, scores, k, body, rationale) && forall x <- a :: x in b
    ensures ProposedAt(w, spec, b, parent, scores, k, body, rationale)
  {
    var feedback :| IsFeedback(spec, scores, feedback)
      && Write(CallFile(Proposes(k + 1), Input), w.codec.dump(RequestDoc(Propose(parent, k + 1, feedback)))) in a;
  }

  /** A story stays true when files are added and one more round is played. */
  lemma EarlierStillTold(w: World, spec: Spec, a: seq<Write>, b: seq<Write>, baseline: Bytes, initial: Scores, bodies: seq<Bytes>, rounds: seq<Decision>, body: Bytes, d: Decision, k: nat)
    requires Told(w, spec, a, baseline, initial, bodies, rounds) && (forall x <- a :: x in b) && k < |rounds|
    ensures RoundTold(w, spec, b, baseline, initial, bodies + [body], rounds + [d], k)
  {
    hide ProposedAt, JudgedScores, Dominates, TrainGain, Explains;
    EarlierAlike(baseline, initial, bodies, rounds, body, d, k);
    assert RoundTold(w, spec, a, baseline, initial, bodies, rounds, k);
    ProposedMore(w, spec, a, b, ParentAt(baseline, bodies, rounds, k), ScoresAt(initial, rounds, k), k, bodies[k], rounds[k].rationale);
    ScoresMore(w, spec, a, b, bodies[k], OnRound(k + 1), rounds[k].results);
  }

  lemma ToldMore(w: World, spec: Spec, a: seq<Write>, b: seq<Write>, baseline: Bytes, initial: Scores, bodies: seq<Bytes>, rounds: seq<Decision>)
    requires Told(w, spec, a, baseline, initial, bodies, rounds) && forall x <- a :: x in b
    ensures Told(w, spec, b, baseline, initial, bodies, rounds)
  {
    hide ProposedAt, JudgedScores, Dominates, TrainGain, Explains;
    ScoresMore(w, spec, a, b, baseline, OnBaseline, initial);
    forall k | 0 <= k < |rounds| ensures RoundTold(w, spec, b, baseline, initial, bodies, rounds, k) {
      assert RoundTold(w, spec, a, baseline, initial, bodies, rounds, k);
      ProposedMore(w, spec, a, b, ParentAt(baseline, bodies, rounds, k), ScoresAt(initial, rounds, k), k, bodies[k], rounds[k].rationale);
      ScoresMore(w, spec, a, b, bodies[k], OnRound(k + 1), rounds[k].results);
    }
  }

  /** The search between rounds stands where its story says. */
  predicate StandsAt(st: State, baseline: Bytes, initial: Scores, bodies: seq<Bytes>)
  {
    && |bodies| == |st.rounds|
    && st.parent == ParentAt(baseline, bodies, st.rounds, |st.rounds|)
    && st.scores == ScoresAt(initial, st.rounds, |st.rounds|)
    && st.accepted == AcceptedIn(st.rounds)
  }

  lemma RoundProposes(w: World, spec: Spec, k: nat, st: State)
    requires Sized(spec, st.scores) && k > 0 && Round(w, spec, k, st).result.Some?
    ensures ProposeFor(w, spec, k, st).result.Some?
    ensures var p := ProposeFor(w, spec, k, st).result.value;
      ProposedAt(w, spec, Round(w, spec, k, st).writes, st.parent, st.scores, k - 1, p.instructions, p.rationale)
  {
    hide Score, Decide, Adopt, RecordOf;
    var proposed := ProposeFor(w, spec, k, st);
    var p := proposed.result.value;
    var writes := Round(w, spec, k, st).writes;
    var feedback := FeedbackOf(spec, st.scores);
    assert IsFeedback(spec, st.scores, feedback);
    assert proposed.writes[0] == Write(CallFile(Proposes(k), Input), w.codec.dump(RequestDoc(Propose(st.parent, k, feedback))));
    assert proposed.writes[1] == Write(CallFile(Proposes(k), Stdout), Some(w.answers(Proposes(k)).stdout));
    assert writes[0] == proposed.writes[0] && writes[1] == proposed.writes[1];
    assert writes[4] == Write(RoundBody(k), Some(p.instructions));
  }

  lemma RoundJudges(w: World, spec: Spec, k: nat, st: State)
    requires Sized(spec, st.scores) && k > 0 && Round(w, spec, k, st).result.Some?
    ensures var p := ProposeFor(w, spec, k, st).result.value; var st' := Round(w, spec, k, st).result.value;
      && |st'.rounds| == |st.rounds| + 1 && st'.rounds[..|st.rounds|] == st.rounds
      && var d := st'.rounds[|st.rounds|];
      && JudgedScores(w, spec, Round(w, spec, k, st).writes, p.instructions, OnRound(k), d.results)
      && d.round == k && d.parent == w.codec.sha(st.parent) && d.candidate == w.codec.sha(p.instructions)
      && d.rationale == p.rationale
      && (d.accepted <==> p.instructions != st.parent && Dominates(st.scores, d.results) && TrainGain(st.scores, d.results))
      && Explains(st.scores, d.results, p.instructions == st.parent, d.reason)
      && Write(DecisionFile(k), w.codec.dump(DecisionDoc(d))) in Round(w, spec, k, st).writes
      && st' == (if d.accepted then State(p.instructions, d.results, st'.rounds, st.accepted + 1) else st.(rounds := st'.rounds))
  {
    hide Score, ProposeFor, Gate, JudgedScores, Dominates, TrainGain, Explains;
    var p := ProposeFor(w, spec, k, st).result.value;
    var scored := Score(w, spec, p.instructions, OnRound(k));
    var writes := Round(w, spec, k, st).writes;
    ScoreJudged(w, spec, p.instructions, OnRound(k));
    ScoresMore(w, spec, scored.writes, writes, p.instructions, OnRound(k), scored.result.value);
    GateIsPareto(st.scores, scored.result.value);
    GateExplains(st.scores, scored.result.value);
    SameExplains(st.scores, scored.result.value);
    assert writes[|writes| - 1] in writes;
  }

  lemma RoundTells(w: World, spec: Spec, k: nat, st: State, done: seq<Write>, baseline: Bytes, initial: Scores, bodies: seq<Bytes>)
    returns (body: Bytes)
    requires Sized(spec, st.scores) && k == |bodies| + 1 && Round(w, spec, k, st).result.Some?
    requires StandsAt(st, baseline, initial, bodies) && Told(w, spec, done, baseline, initial, bodies, st.rounds)
    ensures var st' := Round(w, spec, k, st).result.value;
      && StandsAt(st', baseline, initial, bodies + [body])
      && Told(w, spec, done + Round(w, spec, k, st).writes, baseline, initial, bodies + [body], st'.rounds)
  {
    hide Round, ProposeFor, ProposedAt, JudgedScores, Dominates, TrainGain, Explains;
    var one := Round(w, spec, k, st);
    var all := done + one.writes;
    RoundProposes(w, spec, k, st);
    body := ProposeFor(w, spec, k, st).result.value.instructions;
    RoundJudges(w, spec, k, st);
    var st' := one.result.value;
    var d := st'.rounds[|st.rounds|];
    assert st'.rounds == st.rounds + [d];
    var n := |st.rounds|;
    EarlierAlike(baseline, initial, bodies, st.rounds, body, d, n);
    ProposedMore(w, spec, one.writes, all, st.parent, st.scores, n, body, d.rationale);
    ScoresMore(w, spec, one.writes, all, body, OnRound(k), d.results);
    ScoresMore(w, spec, done, all, baseline, OnBaseline, initial);
    assert (bodies + [body])[n] == body;
    assert RoundTold(w, spec, all, baseline, initial, bodies + [body], st'.rounds, n);
    forall j | 0 <= j < |st'.rounds| ensures RoundTold(w, spec, all, baseline, initial, bodies + [body], st'.rounds, j) {
      if j < n { EarlierStillTold(w, spec, done, all, baseline, initial, bodies, st.rounds, body, d, j); }
    }
  }

  lemma {:induction false} RoundsTell(w: World, spec: Spec, k: nat, st: State, done: seq<Write>, baseline: Bytes, initial: Scores, bodies: seq<Bytes>)
    returns (all: seq<Bytes>)
    requires 1 <= k <= spec.rounds + 1 && Sized(spec, st.scores) && k == |bodies| + 1 && RoundsFrom(w, spec, k, st).result.Some?
    requires StandsAt(st, baseline, initial, bodies) && Told(w, spec, done, baseline, initial, bodies, st.rounds)
    ensures var s := RoundsFrom(w, spec, k, st);
      && |all| == spec.rounds && StandsAt(s.result.value, baseline, initial, all)
      && Told(w, spec, done + s.writes, baseline, initial, all, s.result.value.rounds)
    decreases spec.rounds + 1 - k
  {
    hide Round, Told, StandsAt;
    if k == spec.rounds + 1 {
      all := bodies;
      assert done + [] == done;
    } else {
      var one := Round(w, spec, k, st);
      var body := RoundTells(w, spec, k, st, done, baseline, initial, bodies);
      all := RoundsTell(w, spec, k + 1, one.result.value, done + one.writes, baseline, initial, bodies + [body]);
      var rest := RoundsFrom(w, spec, k + 1, one.result.value);
      assert done + one.writes + rest.writes == done + (one.writes + rest.writes);
    }
  }

  // ---- The whole search ------------------------------------------------------------------

  /** What a report says, and what the search leaves behind it, for this sequence of proposed bodies. */
  ghost predicate ReportTold(w: World, spec: Spec, writes: seq<Write>, baseline: Bytes, bodies: seq<Bytes>, r: Report) {
    && |bodies| == |r.rounds| == spec.rounds
    && Told(w, spec, writes, baseline, r.initial, bodies, r.rounds)
    && var final := ParentAt(baseline, bodies, r.rounds, |r.rounds|);
    && Write(FinalBody, Some(final)) in writes && r.final == w.codec.sha(final) && r.baseline == w.codec.sha(baseline)
    && r.acceptedCount == AcceptedIn(r.rounds) && r.costUnit == spec.costUnit
    && Judged(w, spec, writes, baseline, HoldoutBaseline, Test, r.holdoutBaseline)
    && Judged(w, spec, writes, final, HoldoutFinal, Test, r.holdoutFinal)
  }

  /**
   * Every completed search is such a story: each round's body was proposed on the parent's own train results, every result
   * is the parsed answer to a request that shows that very body and case, a body is adopted exactly when it is new and a
   * strict Pareto gain, and the report gives the true rounds, counts and digests, with a holdout of baseline and final body.
   */
  lemma SearchTells(w: World, spec: Spec, baseline: Bytes) returns (bodies: seq<Bytes>)
    requires Search(w, spec, baseline).result.Some?
    ensures var s := Search(w, spec, baseline); ReportTold(w, spec, s.writes, baseline, bodies, s.result.value)
    ensures FinalOf(w, spec, baseline) ==
      ParentAt(baseline, bodies, Search(w, spec, baseline).result.value.rounds, |Search(w, spec, baseline).result.value.rounds|)
  {
    hide Score, RoundsFrom, EvaluateSplit, Told, Judged, StandsAt;
    var first := Score(w, spec, baseline, OnBaseline);
    var initial := first.result.value;
    var st := State(baseline, initial, [], 0);
    assert StandsAt(st, baseline, initial, []) by { StartsThere(baseline, initial); }
    assert Told(w, spec, first.writes, baseline, initial, [], []) by { BaselineTold(w, spec, baseline); }
    bodies := RoundsTell(w, spec, 1, st, first.writes, baseline, initial, []);
    var last := RoundsFrom(w, spec, 1, st).result.value;
    assert |bodies| == |last.rounds| && last.parent == ParentAt(baseline, bodies, last.rounds, |last.rounds|)
      && last.accepted == AcceptedIn(last.rounds) by { WhereItStands(last, baseline, initial, bodies); }
    var decided := Decisions(w, spec, baseline);
    var writes := Search(w, spec, baseline).writes;
    var a, b := EvaluateSplit(w, spec, baseline, HoldoutBaseline, Test), EvaluateSplit(w, spec, last.parent, HoldoutFinal, Test);
    assert writes == decided.writes + (a.writes + b.writes) + [Write(FinalBody, Some(last.parent))];
    SplitJudged(w, spec, baseline, HoldoutBaseline, Test);
    SplitJudged(w, spec, last.parent, HoldoutFinal, Test);
    ToldMore(w, spec, decided.writes, writes, baseline, initial, bodies, last.rounds);
    JudgedMore(w, spec, a.writes, writes, baseline, HoldoutBaseline, Test, a.result.value);
    JudgedMore(w, spec, b.writes, writes, last.parent, HoldoutFinal, Test, b.result.value);
    assert writes[|writes| - 1] == Write(FinalBody, Some(last.parent));
  }

  lemma StartsThere(baseline: Bytes, initial: Scores)
    ensures StandsAt(State(baseline, initial, [], 0), baseline, initial, [])
  {
  }

  lemma BaselineTold(w: World, spec: Spec, baseline: Bytes)
    requires Score(w, spec, baseline, OnBaseline).result.Some?
    ensures var s := Score(w, spec, baseline, OnBaseline); Told(w, spec, s.writes, baseline, s.result.value, [], [])
  {
    hide Score, JudgedScores;
    ScoreJudged(w, spec, baseline, OnBaseline);
  }

  lemma WhereItStands(st: State, baseline: Bytes, initial: Scores, bodies: seq<Bytes>)
    requires StandsAt(st, baseline, initial, bodies)
    ensures |bodies| == |st.rounds| && st.parent == ParentAt(baseline, bodies, st.rounds, |st.rounds|)
    ensures st.accepted == AcceptedIn(st.rounds)
  {
  }

  // ---- When a search completes -----------------------------------------------------------

  /** Every command ends well with an answer that parses. */
  ghost predicate AllGoesWell(w: World) {
    && (forall l: Label :: w.answers(l).error.None?)
    && (forall l: Label :: l.Evaluates? ==> w.codec.parseEvaluation(w.answers(l).stdout).Some?)
    && (forall l: Label :: l.Proposes? ==>
          w.codec.parseProposal(w.answers(l).stdout).Some?
          && w.codec.ValidBody(w.codec.parseProposal(w.answers(l).stdout).value.instructions))
  }

  lemma {:induction false} EvaluationCompletes(w: World, spec: Spec, body: Bytes, stage: Stage, split: Split, i: nat, sofar: seq<Evaluation>)
    requires AllGoesWell(w) && i <= |spec.Cases(split)| && |sofar| == i
    ensures EvaluateFrom(w, spec, body, stage, split, i, sofar).result.Some?
    decreases |spec.Cases(split)| - i
  {
    hide RecordOf;
    if i < |spec.Cases(split)| {
      var one := EvaluateOne(w, spec, body, stage, split, i);
      assert one.result.Some?;
      EvaluationCompletes(w, spec, body, stage, split, i + 1, sofar + [one.result.value]);
    }
  }

  lemma ScoreCompletes(w: World, spec: Spec, body: Bytes, stage: Stage)
    requires AllGoesWell(w)
    ensures Score(w, spec, body, stage).result.Some?
  {
    hide AllGoesWell, EvaluateFrom;
    EvaluationCompletes(w, spec, body, stage, Train, 0, []);
    EvaluationCompletes(w, spec, body, stage, Validation, 0, []);
  }

  lemma RoundCompletes(w: World, spec: Spec, k: nat, st: State)
    requires AllGoesWell(w) && Sized(spec, st.scores)
    ensures Round(w, spec, k, st).result.Some?
  {
    hide Score, Decide, Adopt, RecordOf;
    var proposed := ProposeFor(w, spec, k, st);
    assert proposed.result.Some?;
    ScoreCompletes(w, spec, proposed.result.value.instructions, OnRound(k));
  }

  lemma {:induction false} RoundsComplete(w: World, spec: Spec, k: nat, st: State)
    requires AllGoesWell(w) && 1 <= k <= spec.rounds + 1 && Sized(spec, st.scores)
    ensures RoundsFrom(w, spec, k, st).result.Some?
    decreases spec.rounds + 1 - k
  {
    hide AllGoesWell, Round;
    if k <= spec.rounds {
      RoundCompletes(w, spec, k, st);
      RoundsComplete(w, spec, k + 1, Round(w, spec, k, st).result.value);
    }
  }

  /** Nothing but a failed command or an answer that does not parse keeps a search from its report, whatever the results say. */
  lemma SearchCompletes(w: World, spec: Spec, baseline: Bytes)
    requires AllGoesWell(w)
    ensures Search(w, spec, baseline).result.Some?
  {
    hide AllGoesWell, Score, RoundsFrom, EvaluateFrom;
    ScoreCompletes(w, spec, baseline, OnBaseline);
    RoundsComplete(w, spec, 1, State(baseline, Score(w, spec, baseline, OnBaseline).result.value, [], 0));
    var final := Decisions(w, spec, baseline).result.value.1.parent;
    EvaluationCompletes(w, spec, baseline, HoldoutBaseline, Test, 0, []);
    EvaluationCompletes(w, spec, final, HoldoutFinal, Test, 0, []);
  }

  // ---- Any such story improves -----------------------------------------------------------

  /** The stage at which the body in force after `k` rounds was judged. */
  function StageAt(rounds: seq<Decision>, k: nat): Stage
    requires k <= |rounds|
  {
    if k == 0 then OnBaseline else if rounds[k - 1].accepted then OnRound(k) else StageAt(rounds, k - 1)
  }

  lemma {:induction false} StoryImproves(w: World, spec: Spec, writes: seq<Write>, baseline: Bytes, initial: Scores, bodies: seq<Bytes>, rounds: seq<Decision>, k: nat)
    requires Told(w, spec, writes, baseline, initial, bodies, rounds) && k <= |rounds|
    ensures var now, parent := ScoresAt(initial, rounds, k), ParentAt(baseline, bodies, rounds, k);
      && JudgedScores(w, spec, writes, parent, StageAt(rounds, k), now)
      && Dominates(initial, now)
      && (if AcceptedIn(rounds[..k]) > 0 then TrainGain(initial, now) else parent == baseline && now == initial)
  {
    hide JudgedScores, ProposedAt, Explains;
    if k > 0 {
      StoryImproves(w, spec, writes, baseline, initial, bodies, rounds, k - 1);
      assert RoundTold(w, spec, writes, baseline, initial, bodies, rounds, k - 1);
      assert rounds[..k][..k - 1] == rounds[..k - 1];
      if rounds[k - 1].accepted {
        DominatesTransitive(initial, ScoresAt(initial, rounds, k - 1), rounds[k - 1].results);
      }
    }
  }
}
