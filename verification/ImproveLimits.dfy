/** Where recording and verification part ways: how long a manifest gets, and what an accepted archive may spell differently. */
module ImproveLimits {
  import opened Common
  import Versions
  import opened ImproveNames
  import opened ImproveSearch
  import opened ImproveReplay
  import opened ImproveTheorems

  // ---- The manifest as text --------------------------------------------------------------

  /** The entries of a manifest as they are printed. */
  function EntriesText(names: seq<string>, hashes: map<string, string>): string
    requires forall n <- names :: n in hashes
  {
    if names == [] then ""
    else
      var n := names[|names| - 1];
      EntriesText(names[..|names| - 1], hashes) + (if |names| == 1 then "" else ", ") + "\"" + n + "\": \"" + hashes[n] + "\""
  }

  function ManifestText(names: seq<string>, hashes: map<string, string>): string
    requires forall n <- names :: n in hashes
  {
    "{\"sha256\": {" + EntriesText(names, hashes) + "}, \"version\": 1}\n"
  }

  lemma {:induction false} EntriesSize(names: seq<string>, hashes: map<string, string>)
    requires forall n <- names :: n in hashes && IsHash(hashes[n])
    ensures |EntriesText(names, hashes)| + 29 == ManifestSize(names)
  {
    if names != [] { EntriesSize(names[..|names| - 1], hashes); }
  }

  /** The size of a manifest, counted entry by entry, is the length of its text. */
  lemma ManifestIsThatLong(names: seq<string>, hashes: map<string, string>)
    requires forall n <- names :: n in hashes && IsHash(hashes[n])
    ensures |ManifestText(names, hashes)| == ManifestSize(names)
  {
    EntriesSize(names, hashes);
  }

  // ---- How many files a run writes -------------------------------------------------------

  function ScoreFiles(spec: Spec): nat {
    4 * (|spec.train| + |spec.validation|)
  }

  /** A proposal, its body, its scores and the decision. */
  function RoundFiles(spec: Spec): nat {
    6 + ScoreFiles(spec)
  }

  function RunFiles(spec: Spec): nat {
    6 + ScoreFiles(spec) + spec.rounds * RoundFiles(spec) + 8 * |spec.test|
  }

  lemma {:induction false} EvaluateCount(w: World, spec: Spec, body: string, stage: Stage, split: Split, i: nat, sofar: seq<Evaluation>)
    requires i <= |spec.Cases(split)| && |sofar| == i
    requires EvaluateFrom(w, spec, body, stage, split, i, sofar).result.Some?
    ensures |EvaluateFrom(w, spec, body, stage, split, i, sofar).writes| == 4 * (|spec.Cases(split)| - i)
    decreases |spec.Cases(split)| - i
  {
    hide RecordOf;
    if i < |spec.Cases(split)| {
      var one := EvaluateOne(w, spec, body, stage, split, i);
      EvaluateCount(w, spec, body, stage, split, i + 1, sofar + [one.result.value]);
    }
  }

  lemma ScoreCount(w: World, spec: Spec, body: string, stage: Stage)
    requires Score(w, spec, body, stage).result.Some?
    ensures |Score(w, spec, body, stage).writes| == ScoreFiles(spec)
  {
    hide EvaluateFrom;
    EvaluateCount(w, spec, body, stage, Train, 0, []);
    EvaluateCount(w, spec, body, stage, Validation, 0, []);
  }

  lemma RoundCount(w: World, spec: Spec, k: nat, st: State)
    requires Sized(spec, st.scores) && Round(w, spec, k, st).result.Some?
    ensures |Round(w, spec, k, st).writes| == RoundFiles(spec)
  {
    hide Score, Decide, Adopt, RecordOf, ScoreFiles;
    ScoreCount(w, spec, ProposeFor(w, spec, k, st).result.value.instructions, OnRound(k));
  }

  lemma {:induction false} RoundsCount(w: World, spec: Spec, k: nat, st: State)
    requires 1 <= k <= spec.rounds + 1 && Sized(spec, st.scores) && RoundsFrom(w, spec, k, st).result.Some?
    ensures |RoundsFrom(w, spec, k, st).writes| == (spec.rounds + 1 - k) * RoundFiles(spec)
    decreases spec.rounds + 1 - k
  {
    hide Round, RoundFiles;
    if k <= spec.rounds {
      RoundCount(w, spec, k, st);
      RoundsCount(w, spec, k + 1, Round(w, spec, k, st).result.value);
      assert (spec.rounds + 1 - k) * RoundFiles(spec) == RoundFiles(spec) + (spec.rounds - k) * RoundFiles(spec);
    }
  }

  /** The exact number of files of a run, from the sizes of its spec alone. */
  lemma RunCount(w: World, raw: Bytes, spec: Spec, baseline: Bytes, report: Report)
    requires Search(w, spec, baseline).result.Some?
    ensures |RunWrites(w, raw, spec, baseline, report)| == RunFiles(spec)
  {
    hide Score, RoundsFrom, EvaluateFrom, ScoreFiles, RoundFiles;
    var st := State(baseline, Score(w, spec, baseline, OnBaseline).result.value, [], 0);
    ScoreCount(w, spec, baseline, OnBaseline);
    RoundsCount(w, spec, 1, st);
    EvaluateCount(w, spec, baseline, HoldoutBaseline, Test, 0, []);
    EvaluateCount(w, spec, FinalOf(w, spec, baseline), HoldoutFinal, Test, 0, []);
  }

  lemma {:induction false} ManifestGrows(names: seq<string>)
    ensures ManifestFrom(names) >= 27 + 72 * |names|
  {
    if names != [] { ManifestGrows(names[..|names| - 1]); }
  }

  /** Every completed, eligible, sealed run with too many cases and rounds is refused by verification, whatever it holds. */
  lemma LargeRunsAreRefused(w: World, sealing: Sealing, raw: Bytes, spec: Spec, baseline: Bytes, report: Report)
    requires w.codec.Lawful() && sealing.Lawful()
    requires Completed(w, raw, spec, baseline, report) && report.Eligible()
    requires Seal(w.codec, sealing, Recorded(w, raw, spec, baseline, report)).Some?
    requires 27 + 72 * RunFiles(spec) > MAX_RECORD
    ensures var files := Recorded(w, raw, spec, baseline, report);
      Verify(w.codec, sealing, files, Seal(w.codec, sealing, files).value) == None
  {
    hide Search, Recorded, RunWrites, AllSmall, Verify, Key, RunFiles;
    ResultOf(w, raw, spec, baseline, report);
    RunCount(w, raw, spec, baseline, report);
    ManifestGrows(KeysOf(RunWrites(w, raw, spec, baseline, report)));
    RecordedRunVerifies(w, sealing, raw, spec, baseline, report);
  }

  // ---- Records that fit, under names that stay short -------------------------------------

  /** Whatever this world is asked and answers, each record fits. */
  ghost predicate Roomy(w: World, spec: Spec) {
    && (forall r: Request :: Small(w.codec.dump(RequestDoc(r))))
    && (forall d: Decision :: Small(w.codec.dump(DecisionDoc(d))))
    && (forall l: Label :: |w.answers(l).stdout| <= MAX_RECORD && |w.answers(l).stderr| <= MAX_RECORD)
    && (forall l: Label :: Small(w.codec.dump(RecordDoc(RecordOf(w, spec, l)))))
  }

  /** A name of a round and a case that this spec has. */
  predicate Near(n: Name, spec: Spec) {
    match n
    case RoundBody(k) => k <= spec.rounds
    case DecisionFile(k) => k <= spec.rounds
    case CallFile(Proposes(k), _) => k <= spec.rounds
    case CallFile(Evaluates(stage, split, i), _) => (stage.OnRound? ==> stage.round <= spec.rounds) && i < |spec.Cases(split)|
    case _ => true
  }

  predicate AllFine(spec: Spec, writes: seq<Write>) {
    forall write <- writes :: Small(write.bytes) && Near(write.name, spec)
  }

  lemma CallFits(w: World, spec: Spec, l: Label, request: Request)
    requires Roomy(w, spec) && Near(CallFile(l, Input), spec)
    ensures AllFine(spec, CallWrites(w, spec, l, request))
  {
    hide RecordOf;
  }

  lemma FineAppend(spec: Spec, a: seq<Write>, b: seq<Write>)
    requires AllFine(spec, a) && AllFine(spec, b)
    ensures AllFine(spec, a + b)
  {
  }

  lemma NothingFits(spec: Spec)
    ensures AllFine(spec, [])
  {
  }

  lemma {:induction false} EvaluateFits(w: World, spec: Spec, body: string, stage: Stage, split: Split, i: nat, sofar: seq<Evaluation>)
    requires i <= |spec.Cases(split)| && |sofar| == i && Roomy(w, spec) && (stage.OnRound? ==> stage.round <= spec.rounds)
    ensures AllFine(spec, EvaluateFrom(w, spec, body, stage, split, i, sofar).writes)
    decreases |spec.Cases(split)| - i
  {
    hide AllFine, Roomy, CallWrites;
    if i == |spec.Cases(split)| {
      assert AllFine(spec, []) by { NothingFits(spec); }
    } else {
      var one := EvaluateOne(w, spec, body, stage, split, i);
      CallFits(w, spec, Evaluates(stage, split, i), Evaluate(body, spec.Cases(split)[i]));
      if one.result.Some? {
        var next := sofar + [one.result.value];
        EvaluateFits(w, spec, body, stage, split, i + 1, next);
        FineAppend(spec, one.writes, EvaluateFrom(w, spec, body, stage, split, i + 1, next).writes);
      }
    }
  }

  lemma ScoreFits(w: World, spec: Spec, body: string, stage: Stage)
    requires Roomy(w, spec) && (stage.OnRound? ==> stage.round <= spec.rounds)
    ensures AllFine(spec, Score(w, spec, body, stage).writes)
  {
    hide EvaluateFrom, Roomy;
    EvaluateFits(w, spec, body, stage, Train, 0, []);
    EvaluateFits(w, spec, body, stage, Validation, 0, []);
  }

  lemma RoundFits(w: World, spec: Spec, k: nat, st: State)
    requires Sized(spec, st.scores) && Roomy(w, spec) && k <= spec.rounds
    ensures AllFine(spec, Round(w, spec, k, st).writes)
  {
    hide Score, Decide, Adopt, RecordOf, AllFine, Roomy, CallWrites;
    var proposed := ProposeFor(w, spec, k, st);
    CallFits(w, spec, Proposes(k), Propose(st.parent, k, FeedbackOf(spec, st.scores)));
    if proposed.result.Some? {
      var p := proposed.result.value;
      var scored := Score(w, spec, p.instructions, OnRound(k));
      var bodyFile := [Write(RoundBody(k), Some(p.instructions))];
      assert AllFine(spec, bodyFile) by { BodyFits(spec, k, p.instructions); }
      ScoreFits(w, spec, p.instructions, OnRound(k));
      FineAppend(spec, proposed.writes, bodyFile);
      FineAppend(spec, proposed.writes + bodyFile, scored.writes);
      if scored.result.Some? {
        var d := Decide(w, st, k, p, scored.result.value);
        DecisionFits(w, spec, k, d);
        FineAppend(spec, proposed.writes + bodyFile + scored.writes, [Write(DecisionFile(k), w.codec.dump(DecisionDoc(d)))]);
      }
    }
  }

  lemma BodyFits(spec: Spec, k: nat, body: Bytes)
    requires k <= spec.rounds && |body| <= MAX_BODY
    ensures AllFine(spec, [Write(RoundBody(k), Some(body))])
  {
  }

  lemma DecisionFits(w: World, spec: Spec, k: nat, d: Decision)
    requires k <= spec.rounds && Roomy(w, spec)
    ensures AllFine(spec, [Write(DecisionFile(k), w.codec.dump(DecisionDoc(d)))])
  {
  }

  lemma {:induction false} RoundsFit(w: World, spec: Spec, k: nat, st: State)
    requires 1 <= k <= spec.rounds + 1 && Sized(spec, st.scores) && Roomy(w, spec)
    ensures AllFine(spec, RoundsFrom(w, spec, k, st).writes)
    decreases spec.rounds + 1 - k
  {
    hide Round, Roomy;
    if k <= spec.rounds {
      RoundFits(w, spec, k, st);
      var one := Round(w, spec, k, st);
      if one.result.Some? { RoundsFit(w, spec, k + 1, one.result.value); }
    }
  }

  lemma SearchFits(w: World, spec: Spec, baseline: Bytes)
    requires Roomy(w, spec) && w.codec.ValidBody(baseline) && Search(w, spec, baseline).result.Some?
    ensures AllFine(spec, Search(w, spec, baseline).writes)
  {
    hide Score, RoundsFrom, EvaluateFrom, Roomy;
    var st := State(baseline, Score(w, spec, baseline, OnBaseline).result.value, [], 0);
    ScoreFits(w, spec, baseline, OnBaseline);
    RoundsFit(w, spec, 1, st);
    EvaluateFits(w, spec, baseline, HoldoutBaseline, Test, 0, []);
    EvaluateFits(w, spec, FinalOf(w, spec, baseline), HoldoutFinal, Test, 0, []);
    FinalIsValid(w, spec, baseline);
  }

  lemma {:induction false} DottedShort(ps: seq<string>)
    requires ps != [] && forall i :: 0 <= i < |ps| ==> |ps[i]| <= 20
    ensures |Dotted(ps)| <= 21 * |ps|
  {
    if |ps| > 1 { DottedShort(ps[1..]); }
  }

  /** With single-digit rounds and cases no name is longer than 105 characters. */
  lemma NearIsShort(n: Name, spec: Spec)
    requires Near(n, spec) && spec.rounds < 10
    requires forall split :: |spec.Cases(split)| <= 10
    ensures |Key(n)| <= 105
  {
    DottedShort(Pieces(n));
  }

  lemma {:induction false} ManifestStaysSmall(names: seq<string>, bound: nat)
    requires forall i :: 0 <= i < |names| ==> |names[i]| <= bound
    ensures ManifestFrom(names) <= 27 + (bound + 72) * |names|
  {
    if names != [] { ManifestStaysSmall(names[..|names| - 1], bound); }
  }

  // ---- A sample run ----------------------------------------------------------------------

  /** One round over `n` train cases; the proposal costs nothing and the baseline costs 1 a case. */
  function SampleSpec(n: nat): Spec {
    Spec(["p"], ["e"], 1, Integer(5), "usd", seq(n, i requires 0 <= i < n => Case(Versions.Decimal(i), "")), [Case("v", "")], [Case("t", "")])
  }

  function Asked(argv: seq<string>): CommandRecord {
    CommandRecord(argv, "/", Integer(5), Some(Integer(0)), None)
  }

  const PLAIN := Context("/", map[])
  const NOTED := Context("/", map["note" := "1"])

  /** How the sample prints: context and records so that they can be told apart when read. */
  function SampleDump(d: Doc): Option<Bytes> {
    match d
    case InputsDoc(_, _, _) => Some("I")
    case ContextDoc(c) => if c == PLAIN then Some("C") else if c == NOTED then Some("N") else None
    case RequestDoc(_) => Some("R")
    case RecordDoc(r) => if r == Asked(["e"]) then Some("E") else if r == Asked(["p"]) then Some("P") else None
    case DecisionDoc(_) => Some("D")
    case ReportDoc(r) => Some(if r.Eligible() then "T" else "U")
  }

  /** `F` is the record of the evaluator with its return code spelled `false` and its timeout `5.0`. */
  function SampleRecord(raw: Bytes): Option<CommandRecord> {
    if raw == "E" then Some(Asked(["e"]))
    else if raw == "P" then Some(Asked(["p"]))
    else if raw == "F" then Some(CommandRecord(["e"], "/", Float(5.0, "5.0"), Some(Boolean(false)), None))
    else None
  }

  function SampleContext(raw: Bytes): Option<Context> {
    if raw == "C" then Some(PLAIN) else if raw == "N" then Some(NOTED) else None
  }

  function SampleEvaluation(raw: Bytes): Option<Evaluation> {
    if raw == "0" then Some(Evaluation(true, Integer(0), ""))
    else if raw == "1" then Some(Evaluation(true, Integer(1), "")) else None
  }

  function Fill(c: char, n: nat): (s: string)
    ensures |s| == n && forall i :: 0 <= i < n ==> s[i] == c
  {
    seq(n, i => c)
  }

  function SampleCodec(n: nat): Codec {
    Codec(raw => if raw == "S" then Some(SampleSpec(n)) else None, raw => true,
          SampleEvaluation, raw => Some(Proposal(raw, "")),
          SampleContext, SampleRecord, raw => if raw == "T" then Some(true) else if raw == "U" then Some(false) else None,
          SampleDump, raw => Fill(if raw == "N" then 'a' else if raw == "F" then 'b' else '0', 64))
  }

  function SampleExit(l: Label): Exit {
    match l
    case Proposes(_) => Exit("new", "", None)
    case Evaluates(stage, _, _) => Exit(if stage.OnRound? || stage.HoldoutFinal? then "0" else "1", "", None)
  }

  function SampleWorld(n: nat): World {
    World(SampleCodec(n), "/", SampleExit)
  }

  lemma SampleIsLawful(n: nat)
    ensures SampleCodec(n).Lawful() && Roomy(SampleWorld(n), SampleSpec(n))
  {
    SampleCodecIsLawful(n);
  }

  lemma SampleCodecIsLawful(n: nat)
    ensures SampleCodec(n).Lawful()
  {
    hide SampleSpec;
  }

  function SampleCost(stage: Stage): int {
    if stage.OnRound? || stage.HoldoutFinal? then 0 else 1
  }

  /** All results pass at the same cost. */
  predicate Uniform(results: seq<Evaluation>, cost: int) {
    forall i :: 0 <= i < |results| ==> results[i].passed && results[i].cost == Integer(cost)
  }

  lemma {:induction false} SampleEvaluates(n: nat, body: string, stage: Stage, split: Split, i: nat, sofar: seq<Evaluation>)
    requires i <= |SampleSpec(n).Cases(split)| && |sofar| == i && Uniform(sofar, SampleCost(stage))
    ensures var r := EvaluateFrom(SampleWorld(n), SampleSpec(n), body, stage, split, i, sofar).result;
      r.Some? && Uniform(r.value, SampleCost(stage))
    decreases |SampleSpec(n).Cases(split)| - i
  {
    hide CallWrites;
    if i < |SampleSpec(n).Cases(split)| {
      var one := EvaluateOne(SampleWorld(n), SampleSpec(n), body, stage, split, i);
      assert one.result == Some(Evaluation(true, Integer(SampleCost(stage)), ""));
      SampleEvaluates(n, body, stage, split, i + 1, sofar + [one.result.value]);
    }
  }

  lemma SampleScores(n: nat, body: string, stage: Stage)
    ensures var r := Score(SampleWorld(n), SampleSpec(n), body, stage).result;
      r.Some? && Uniform(r.value.train, SampleCost(stage)) && Uniform(r.value.validation, SampleCost(stage))
  {
    hide EvaluateFrom, SampleWorld, SampleSpec;
    SampleEvaluates(n, body, stage, Train, 0, []);
    SampleEvaluates(n, body, stage, Validation, 0, []);
  }

  lemma {:induction false} UniformTotal(results: seq<Evaluation>, cost: nat)
    requires Uniform(results, cost)
    ensures Total(results) == cost as real * |results| as real
  {
    if results != [] { UniformTotal(results[..|results| - 1], cost); }
  }

  lemma SampleAccepts(parent: Scores, candidate: Scores)
    requires SameSize(parent, candidate) && parent.train != []
    requires Uniform(parent.train, 1) && Uniform(parent.validation, 1)
    requires Uniform(candidate.train, 0) && Uniform(candidate.validation, 0)
    ensures Gate(parent, candidate).0
  {
    hide Total, Passed;
    UniformTotal(parent.train, 1);
    UniformTotal(parent.validation, 1);
    UniformTotal(candidate.train, 0);
    UniformTotal(candidate.validation, 0);
  }

  lemma SampleRound(n: nat, st: State)
    requires n > 0 && Sized(SampleSpec(n), st.scores) && st.parent == "old" && st.accepted == 0
    requires Uniform(st.scores.train, 1) && Uniform(st.scores.validation, 1)
    ensures var r := Round(SampleWorld(n), SampleSpec(n), 1, st).result; r.Some? && r.value.accepted == 1
  {
    hide Score, Gate, CallWrites, FeedbackOf, SampleSpec;
    assert |SampleSpec(n).train| == n by { SampleSize(n); }
    var w, spec := SampleWorld(n), SampleSpec(n);
    assert ProposeFor(w, spec, 1, st).result == Some(Proposal("new", ""));
    SampleScores(n, "new", OnRound(1));
    SampleAccepts(st.scores, Score(w, spec, "new", OnRound(1)).result.value);
  }

  lemma SampleSize(n: nat)
    ensures var spec := SampleSpec(n); |spec.train| == n && |spec.validation| == 1 && |spec.test| == 1 && spec.rounds == 1
  {
  }

  /** The sample run completes, and its candidate is accepted. */
  lemma SampleCompletes(n: nat)
    requires n > 0
    ensures var w, spec := SampleWorld(n), SampleSpec(n);
      && Search(w, spec, "old").result.Some? && Search(w, spec, "old").result.value.Eligible()
      && Completed(w, "S", spec, "old", Search(w, spec, "old").result.value)
  {
    hide Score, Round, EvaluateFrom, SampleSpec;
    var w, spec := SampleWorld(n), SampleSpec(n);
    SampleSize(n);
    SampleScores(n, "old", OnBaseline);
    var st := State("old", Score(w, spec, "old", OnBaseline).result.value, [], 0);
    SampleRound(n, st);
    var next := Round(w, spec, 1, st).result.value;
    assert RoundsFrom(w, spec, 2, next).result == Some(next);
    SampleEvaluates(n, "old", HoldoutBaseline, Test, 0, []);
    SampleEvaluates(n, next.parent, HoldoutFinal, Test, 0, []);
    SampleFits(n);
  }

  lemma SampleFits(n: nat)
    requires Search(SampleWorld(n), SampleSpec(n), "old").result.Some?
    ensures var w, spec := SampleWorld(n), SampleSpec(n);
      AllSmall(RunWrites(w, "S", spec, "old", Search(w, spec, "old").result.value))
  {
    hide Search, SampleSpec, Roomy, Near;
    SampleIsLawful(n);
    SearchFits(SampleWorld(n), SampleSpec(n), "old");
  }

  // ---- The length of a manifest does not depend on the order of its names ----------------

  function Without(names: seq<string>, i: nat): seq<string>
    requires i < |names|
  {
    names[..i] + names[i + 1..]
  }

  lemma {:induction false} WithoutSize(names: seq<string>, i: nat)
    requires i < |names|
    ensures ManifestFrom(names) == ManifestFrom(Without(names, i)) + |names[i]| + 72
  {
    var n := |names| - 1;
    if i == n {
      assert Without(names, i) == names[..n];
    } else {
      WithoutSize(names[..n], i);
      var rest := Without(names, i);
      assert rest[..|rest| - 1] == Without(names[..n], i) && rest[|rest| - 1] == names[n];
    }
  }

  lemma WithoutLists(names: seq<string>, i: nat, keys: set<string>)
    requires i < |names| && Lists(names, keys)
    ensures Lists(Without(names, i), keys - {names[i]})
  {
    var rest := Without(names, i);
    assert forall j :: 0 <= j < i ==> rest[j] == names[j];
    assert forall j :: i <= j < |rest| ==> rest[j] == names[j + 1];
    forall n ensures n in rest <==> n in keys - {names[i]} {
      if n in keys - {names[i]} {
        var j :| 0 <= j < |names| && names[j] == n;
        assert rest[if j < i then j else j - 1] == n;
      }
    }
  }

  lemma {:induction false} SizeIsOrderFree(a: seq<string>, b: seq<string>, keys: set<string>)
    requires Lists(a, keys) && Lists(b, keys)
    ensures ManifestFrom(a) == ManifestFrom(b) && (a == [] <==> b == [])
    decreases |a|
  {
    hide ManifestFrom, Without;
    assert a != [] ==> a[|a| - 1] in a;
    assert b != [] ==> b[0] in b;
    if a != [] {
      var n := |a| - 1;
      assert a[n] in keys;
      var i :| 0 <= i < |b| && b[i] == a[n];
      WithoutLists(a, n, keys);
      WithoutLists(b, i, keys);
      SizeIsOrderFree(Without(a, n), Without(b, i), keys - {a[n]}) by { ShorterWithout(a, n); }
      WithoutSize(a, n);
      WithoutSize(b, i);
    }
  }

  lemma ShorterWithout(names: seq<string>, i: nat)
    requires i < |names|
    ensures |Without(names, i)| < |names|
  {
  }

  // ---- The failing inputs ----------------------------------------------------------------

  /** Prints two manifests over the same names, at their true length, and reads them back. */
  function SampleSealing(a: map<string, string>, b: map<string, string>, size: nat): Sealing {
    Sealing(m => if m == a then Some(Fill('a', size)) else if m == b then Some(Fill('b', size)) else None,
            raw => if raw == Fill('a', size) then Some(a) else if raw == Fill('b', size) then Some(b) else None)
  }

  lemma SampleSealingIsLawful(a: map<string, string>, b: map<string, string>, names: seq<string>)
    requires Lists(names, a.Keys) && a.Keys == b.Keys
    ensures ManifestSize(names) > 0 && SampleSealing(a, b, ManifestSize(names)).Lawful()
  {
    hide ManifestFrom, Lists;
    assert ManifestSize(names) > 0 by { ManifestGrows(names); }
    assert Fill('a', ManifestSize(names))[0] != Fill('b', ManifestSize(names))[0];
    var sealing := SampleSealing(a, b, ManifestSize(names));
    forall m: map<string, string>, other: seq<string> | sealing.render(m).Some? && Lists(other, m.Keys)
      ensures |sealing.render(m).value| == ManifestSize(other)
    {
      SizeIsOrderFree(names, other, a.Keys);
    }
  }

  /** The failing input: one round over 2,000 train cases completes, is eligible and sealed, and is refused for ever. */
  lemma SealedRunIsRefused()
    ensures var w, spec := SampleWorld(2000), SampleSpec(2000);
      Search(w, spec, "old").result.Some?
      && var report := Search(w, spec, "old").result.value; var files := Recorded(w, "S", spec, "old", report);
      && var sealing := SampleSealing(Hashes(w.codec, files), Hashes(w.codec, files), ManifestSize(KeysOf(RunWrites(w, "S", spec, "old", report))));
      && w.codec.Lawful() && sealing.Lawful()
      && Completed(w, "S", spec, "old", report) && report.Eligible() && Seal(w.codec, sealing, files).Some?
      && Verify(w.codec, sealing, files, Seal(w.codec, sealing, files).value) == None
  {
    hide Search, Recorded, RunWrites, KeysOf, Key, ManifestSize, SampleSpec, SampleCodec, Verify, AllSmall, Lists, Fill;
    var w, spec := SampleWorld(2000), SampleSpec(2000);
    SampleCompletes(2000);
    SampleSize(2000);
    var report := Search(w, spec, "old").result.value;
    var files := Recorded(w, "S", spec, "old", report);
    var names := KeysOf(RunWrites(w, "S", spec, "old", report));
    var hashes := Hashes(w.codec, files);
    var sealing := SampleSealing(hashes, hashes, ManifestSize(names));
    SampleIsLawful(2000);
    RecordedHolds(w, "S", spec, "old", report);
    assert hashes.Keys == files.Keys;
    SampleSealingIsLawful(hashes, hashes, names);
    assert RunFiles(spec) == 16028;
    LargeRunsAreRefused(w, sealing, "S", spec, "old", report);
  }

  /** In a recorded archive every record says what replay asks of it. */
  lemma RecordedRecords(w: World, raw: Bytes, spec: Spec, baseline: Bytes, report: Report, l: Label)
    requires w.codec.Lawful() && Completed(w, raw, spec, baseline, report)
    requires Key(CallFile(l, Command)) in Recorded(w, raw, spec, baseline, report)
    ensures GoodRecord(w.codec, spec, w.cwd, Recorded(w, raw, spec, baseline, report)[Key(CallFile(l, Command))], l)
  {
    hide Search, Recorded, RunWrites, AllSmall, Key, Reaches;
    var files := Recorded(w, raw, spec, baseline, report);
    var writes := RunWrites(w, raw, spec, baseline, report);
    ResultOf(w, raw, spec, baseline, report);
    RecordedHolds(w, raw, spec, baseline, report);
    var i :| 0 <= i < |writes| && Key(writes[i].name) == Key(CallFile(l, Command));
    KeyApart(writes[i].name, CallFile(l, Command));
    RunIsFull(w, raw, spec, baseline, report);
    CallsAreSearched(w, raw, spec, baseline, Context(w.cwd, map[]), report, writes[i]);
    SearchDocumented(w, spec, baseline);
    assert HasAnswer(w, spec, Search(w, spec, baseline).writes, l);
    SearchIsRecorded(w, raw, spec, baseline, report);
    assert Holds(files, Write(CallFile(l, Command), w.codec.dump(RecordDoc(RecordOf(w, spec, l)))));
  }

  const FIRST := Evaluates(OnBaseline, Train, 0)

  /** The sample's archive with a note in its context and the first record spelled `false` and `5.0`. */
  function Respelled(files: Archive): Archive {
    files[Key(CallFile(FIRST, Command)) := "F"][Key(ContextFile) := "N"]
  }

  lemma SampleIsRespelled(n: nat)
    requires n > 0
    ensures var w, spec := SampleWorld(n), SampleSpec(n);
      Search(w, spec, "old").result.Some?
      && var files := Recorded(w, "S", spec, "old", Search(w, spec, "old").result.value);
      SpelledAlike(w.codec, Inputs("S", spec, PLAIN, "old"), files, Respelled(files)) && Respelled(files) != files
  {
    hide Search, Recorded, RunWrites, AllSmall, Key, Reaches, SampleSpec, GoodRecord;
    var w, spec := SampleWorld(n), SampleSpec(n);
    SampleCompletes(n);
    SampleIsLawful(n);
    var report := Search(w, spec, "old").result.value;
    var files := Recorded(w, "S", spec, "old", report);
    SampleKeys(n, report);
    KeyApart(CallFile(FIRST, Command), ContextFile);
    assert "note" in NOTED.more;
    assert w.codec.readContext("N") == Some(NOTED) && w.codec.dump(ContextDoc(NOTED)) == Some("N");
    assert Respelled(files)[Key(ContextFile)] == "N" != "C";
    forall m: Name ensures (Key(m) == Key(ContextFile) ==> m == ContextFile)
      && (Key(m) == Key(CallFile(FIRST, Command)) ==> m == CallFile(FIRST, Command))
    {
      KeyApart(m, ContextFile);
      KeyApart(m, CallFile(FIRST, Command));
    }
    forall l: Label | Key(CallFile(l, Command)) in files
      ensures GoodRecord(w.codec, spec, "/", Respelled(files)[Key(CallFile(l, Command))], l)
    {
      RecordedRecords(w, "S", spec, "old", report, l);
      assert l == FIRST ==> GoodRecord(w.codec, spec, "/", "F", l) by { SampleRecordIsGood(n); }
    }
  }

  lemma SampleRecordIsGood(n: nat)
    ensures GoodRecord(SampleCodec(n), SampleSpec(n), "/", "F", FIRST)
  {
  }

  lemma SampleKeys(n: nat, report: Report)
    requires n > 0 && Completed(SampleWorld(n), "S", SampleSpec(n), "old", report)
    ensures var files := Recorded(SampleWorld(n), "S", SampleSpec(n), "old", report);
      Key(ContextFile) in files && files[Key(ContextFile)] == "C" && Key(CallFile(FIRST, Command)) in files
  {
    hide Search, Recorded, RunWrites, AllSmall, Key, Reaches, SampleSpec, Head, FullWrites;
    var w, spec := SampleWorld(n), SampleSpec(n);
    var files := Recorded(w, "S", spec, "old", report);
    var context := Write(ContextFile, w.codec.dump(ContextDoc(PLAIN)));
    RecordedHolds(w, "S", spec, "old", report);
    RunIsFull(w, "S", spec, "old", report);
    InHead(w, "S", spec, "old", PLAIN);
    InFull(w, "S", spec, "old", PLAIN, report, context);
    assert Holds(files, context);
    SampleAsksFirst(n);
    SearchIsRecorded(w, "S", spec, "old", report);
    var j :| 0 <= j < |Search(w, spec, "old").writes| && Search(w, spec, "old").writes[j].name == CallFile(FIRST, Command);
    assert Holds(files, Search(w, spec, "old").writes[j]);
  }

  lemma SampleAsksFirst(n: nat)
    requires n > 0
    ensures var writes := Search(SampleWorld(n), SampleSpec(n), "old").writes;
      exists j :: 0 <= j < |writes| && writes[j].name == CallFile(FIRST, Command)
  {
    hide SampleSpec, SampleWorld, RoundsFrom, Holdout, RecordOf;
    var w, spec := SampleWorld(n), SampleSpec(n);
    SampleSize(n);
    var first := EvaluateSplit(w, spec, "old", OnBaseline, Train);
    assert |first.writes| >= 4 && first.writes[3].name == CallFile(FIRST, Command);
    assert |Score(w, spec, "old", OnBaseline).writes| >= 4 && Score(w, spec, "old", OnBaseline).writes[3] == first.writes[3];
    assert |Decisions(w, spec, "old").writes| >= 4 && Decisions(w, spec, "old").writes[3] == first.writes[3];
    assert Search(w, spec, "old").writes[3] == first.writes[3];
  }

  /**
   * The failing input for equality: with one train case, the respelled archive under its own manifest is accepted just
   * like the recording it differs from.
   */
  lemma RespelledArchiveIsAccepted()
    ensures var w, spec := SampleWorld(1), SampleSpec(1);
      Search(w, spec, "old").result.Some?
      && var report := Search(w, spec, "old").result.value; var a := Recorded(w, "S", spec, "old", report);
      && var sealing := SampleSealing(Hashes(w.codec, a), Hashes(w.codec, Respelled(a)), ManifestSize(KeysOf(RunWrites(w, "S", spec, "old", report))));
      && w.codec.Lawful() && sealing.Lawful() && Respelled(a) != a
      && Seal(w.codec, sealing, a).Some? && Seal(w.codec, sealing, Respelled(a)).Some?
      && Verify(w.codec, sealing, a, Seal(w.codec, sealing, a).value) == Some(Verified(report, FinalOf(w, spec, "old")))
      && Verify(w.codec, sealing, Respelled(a), Seal(w.codec, sealing, Respelled(a)).value)
           == Some(Verified(report, FinalOf(w, spec, "old")))
  {
    hide Search, Recorded, RunWrites, KeysOf, Key, ManifestSize, SampleSpec, SampleCodec, Verify, AllSmall, Lists, Fill,
      Respelled, FinalOf, SpelledAlike, SealHolds, Premises, Hashes, SampleSealing, Seal;
    var w, spec := SampleWorld(1), SampleSpec(1);
    SampleCompletes(1);
    SampleIsLawful(1);
    var report := Search(w, spec, "old").result.value;
    var a := Recorded(w, "S", spec, "old", report);
    SampleIsRespelled(1);
    var b := Respelled(a);
    var names := KeysOf(RunWrites(w, "S", spec, "old", report));
    RecordedHolds(w, "S", spec, "old", report);
    AlikeKeys(w.codec, Inputs("S", spec, PLAIN, "old"), a, b);
    var size := ManifestSize(names);
    assert size <= MAX_RECORD by { SampleIsSmall(report); }
    SampleSeals(w.codec, a, b, names);
    var sealing := SampleSealing(Hashes(w.codec, a), Hashes(w.codec, b), size);
    RecordedRunVerifies(w, sealing, "S", spec, "old", report);
    var mb := Seal(w.codec, sealing, b).value;
    SampleKeys(1, report);
    RecordedIsReadable(w, "S", spec, "old", report);
    RespelledSeal(a, w.codec, sealing);
    RecordedPremises(w, "S", spec, "old", report);
    SpellingDoesNotMatter(w.codec, sealing, a, Seal(w.codec, sealing, a).value, b, mb);
  }

  lemma SampleSeals(codec: Codec, a: Archive, b: Archive, names: seq<string>)
    requires Lists(names, a.Keys) && a.Keys == b.Keys
    ensures var size := ManifestSize(names); var sealing := SampleSealing(Hashes(codec, a), Hashes(codec, b), size);
      && sealing.Lawful()
      && Seal(codec, sealing, a).Some? && |Seal(codec, sealing, a).value| == size
      && Seal(codec, sealing, b).Some? && |Seal(codec, sealing, b).value| == size
  {
    hide ManifestSize, Lists, Fill;
    assert Hashes(codec, a).Keys == a.Keys && Hashes(codec, b).Keys == b.Keys;
    SampleSealingIsLawful(Hashes(codec, a), Hashes(codec, b), names);
  }

  /** The sample with one train case needs a small manifest. */
  lemma SampleIsSmall(report: Report)
    requires Search(SampleWorld(1), SampleSpec(1), "old").result.Some?
    ensures ManifestSize(KeysOf(RunWrites(SampleWorld(1), "S", SampleSpec(1), "old", report))) <= MAX_RECORD
  {
    hide Search, Key, SampleWorld, Head;
    var w, spec := SampleWorld(1), SampleSpec(1);
    var writes := RunWrites(w, "S", spec, "old", report);
    SampleIsLawful(1);
    assert w.codec == SampleCodec(1) && w.codec.ValidBody("old") by { SampleBody(1); }
    SearchFits(w, spec, "old");
    RunCount(w, "S", spec, "old", report);
    assert RunFiles(spec) == 36;
    forall i | 0 <= i < |writes| ensures |Key(writes[i].name)| <= 105 {
      NamesAreNear(w, spec, writes[i], report);
      NearIsShort(writes[i].name, spec);
    }
    ManifestStaysSmall(KeysOf(writes), 105);
  }

  lemma SampleBody(n: nat)
    ensures SampleWorld(n).codec == SampleCodec(n) && SampleCodec(n).ValidBody("old")
  {
  }

  lemma NamesAreNear(w: World, spec: Spec, write: Write, report: Report)
    requires write in RunWrites(w, "S", spec, "old", report) && AllFine(spec, Search(w, spec, "old").writes)
    ensures Near(write.name, spec)
  {
    hide Search, Head;
    InFull(w, "S", spec, "old", Context(w.cwd, map[]), report, write);
    InHead(w, "S", spec, "old", Context(w.cwd, map[]));
  }

  lemma RecordedIsReadable(w: World, raw: Bytes, spec: Spec, baseline: Bytes, report: Report)
    requires Completed(w, raw, spec, baseline, report)
    ensures var files := Recorded(w, raw, spec, baseline, report); forall n <- files :: |files[n]| <= MAX_RECORD
  {
    hide Recorded, RunWrites, AllSmall, Key, Reaches;
    var files, writes := Recorded(w, raw, spec, baseline, report), RunWrites(w, raw, spec, baseline, report);
    RecordedHolds(w, raw, spec, baseline, report);
    forall n <- files ensures |files[n]| <= MAX_RECORD {
      var i :| 0 <= i < |writes| && Key(writes[i].name) == n;
      assert Holds(files, writes[i]);
    }
  }

  lemma RespelledSeal(a: Archive, codec: Codec, sealing: Sealing)
    requires sealing.Lawful() && Key(ContextFile) in a && Key(CallFile(FIRST, Command)) in a
    requires forall n <- a :: |a[n]| <= MAX_RECORD
    requires Small(Seal(codec, sealing, Respelled(a)))
    ensures SealHolds(codec, sealing, Respelled(a), Seal(codec, sealing, Respelled(a)).value)
  {
    hide Key;
    assert Hashes(codec, Respelled(a)).Keys == Respelled(a).Keys;
  }

  lemma AlikeKeys(codec: Codec, inputs: Inputs, a: Archive, b: Archive)
    requires SpelledAlike(codec, inputs, a, b)
    ensures a.Keys == b.Keys
  {
  }
}
