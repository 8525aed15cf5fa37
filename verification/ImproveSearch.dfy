/**
 * The bounded improvement search as a script: from the answers of its commands it derives every file it writes, in
 * order, and its report. A recording run and a replay run the same script.
 */
module ImproveSearch {
  import opened Common
  import opened ImproveNames

  /** UTF-8 text and file contents; one character is one byte. */
  type Bytes = string

  /** The largest record, and the largest task body, in bytes. */
  const MAX_RECORD := 1024 * 1024
  const MAX_BODY := 64 * 1024

  /** A number as JSON has it: two of them may be equal in value and still be spelled differently. */
  datatype Number = Boolean(b: bool) | Integer(n: int) | Float(value: real, text: string)

  function ValueOf(n: Number): real {
    match n
    case Boolean(b) => if b then 1.0 else 0.0
    case Integer(i) => i as real
    case Float(value, _) => value
  }

  /** A case with the rest of its JSON. */
  datatype Case = Case(id: string, json: string)

  datatype Evaluation = Evaluation(passed: bool, cost: Number, feedback: string)

  datatype Proposal = Proposal(instructions: Bytes, rationale: string)

  datatype Spec = Spec(
    proposer: seq<string>, evaluator: seq<string>, rounds: nat, timeout: Number, costUnit: string,
    train: seq<Case>, validation: seq<Case>, test: seq<Case>)
  {
    function Cases(split: Split): seq<Case> {
      match split
      case Train => train
      case Validation => validation
      case Test => test
    }

    function Argv(l: Label): seq<string> {
      if l.Proposes? then proposer else evaluator
    }
  }

  // ---- Documents -------------------------------------------------------------------------

  datatype Feedback = Feedback(result: Evaluation, id: string)

  datatype Request =
    | Evaluate(instructions: string, case_: Case)
    | Propose(parent: string, round: nat, feedback: seq<Feedback>)

  /** `parent` and `candidate` are digests of the two bodies. */
  datatype Decision = Decision(
    round: nat, parent: string, candidate: string, accepted: bool, reason: string, rationale: string, results: Scores)

  datatype Scores = Scores(train: seq<Evaluation>, validation: seq<Evaluation>)

  datatype Report = Report(
    acceptedCount: nat, baseline: string, final: string, costUnit: string, initial: Scores, rounds: seq<Decision>,
    holdoutBaseline: seq<Evaluation>, holdoutFinal: seq<Evaluation>)
  {
    predicate Eligible() { acceptedCount > 0 }
  }

  /** The context of a run: the working directory, and any further keys an archive may hold beside it. */
  datatype Context = Context(cwd: string, more: map<string, string>)

  /** How a command was run and ended. */
  datatype CommandRecord = CommandRecord(
    argv: seq<string>, cwd: string, timeout: Number, returncode: Option<Number>, error: Option<string>)

  /** Equality of parsed records: numbers count by value, however they are spelled. */
  predicate SameRecord(a: CommandRecord, b: CommandRecord) {
    && a.argv == b.argv && a.cwd == b.cwd && a.error == b.error
    && ValueOf(a.timeout) == ValueOf(b.timeout)
    && (a.returncode.Some? <==> b.returncode.Some?)
    && (a.returncode.Some? ==> ValueOf(a.returncode.value) == ValueOf(b.returncode.value))
  }

  datatype Doc =
    | InputsDoc(train: seq<Case>, validation: seq<Case>, test: seq<Case>)
    | ContextDoc(context: Context) | RequestDoc(request: Request) | RecordDoc(record: CommandRecord)
    | DecisionDoc(decision: Decision) | ReportDoc(report: Report)

  /** Why a command failed, and the exit code if there was one. */
  datatype Failure = Failure(code: Option<Number>, message: string)

  /** How one command ended: its output, and a failure unless it exited with code 0 in time. */
  datatype Exit = Exit(stdout: Bytes, stderr: Bytes, error: Option<Failure>)

  /** One file: its name and what it is to hold, `None` when that text has no UTF-8 form. */
  datatype Write = Write(name: Name, bytes: Option<Bytes>)

  /** How documents are read, printed and digested; a report is read for whether it is complete, and then eligible. */
  datatype Codec = Codec(
    parseSpec: Bytes -> Option<Spec>, validBody: Bytes -> bool,
    parseEvaluation: Bytes -> Option<Evaluation>, parseProposal: Bytes -> Option<Proposal>,
    readContext: Bytes -> Option<Context>, readRecord: Bytes -> Option<CommandRecord>, readReport: Bytes -> Option<bool>,
    dump: Doc -> Option<Bytes>, sha: Bytes -> string)
  {
    /** Reading what was printed gives it back, as long as it is small enough to be read; a digest is a hash. */
    ghost predicate Lawful() {
      && (forall x: Context :: Small(dump(ContextDoc(x))) ==> readContext(dump(ContextDoc(x)).value) == Some(x))
      && (forall x: CommandRecord :: Small(dump(RecordDoc(x))) ==> readRecord(dump(RecordDoc(x)).value) == Some(x))
      && (forall x: Report :: Small(dump(ReportDoc(x))) ==> readReport(dump(ReportDoc(x)).value) == Some(x.Eligible()))
      && (forall raw: Bytes :: IsHash(sha(raw)))
    }

    predicate ValidBody(raw: Bytes) {
      |raw| <= MAX_BODY && validBody(raw)
    }

    function ProposalIn(raw: Bytes): Option<Proposal> {
      match parseProposal(raw)
      case Some(p) => if ValidBody(p.instructions) then Some(p) else None
      case None => None
    }
  }

  /** The record has a UTF-8 form of at most 1 MiB. */
  predicate Small(bytes: Option<Bytes>) {
    bytes.Some? && |bytes.value| <= MAX_RECORD
  }

  /** What the run is given: the codec, the working directory and every command's answer. */
  datatype World = World(codec: Codec, cwd: string, answers: Label -> Exit)

  /** The files a computation writes in order, and its result unless it raises an error. */
  datatype Script<T> = Script(writes: seq<Write>, result: Option<T>)

  // ---- Selection -------------------------------------------------------------------------

  function Total(results: seq<Evaluation>): real {
    if results == [] then 0.0 else Total(results[..|results| - 1]) + ValueOf(results[|results| - 1].cost)
  }

  function Passed(results: seq<Evaluation>): nat {
    if results == [] then 0
    else Passed(results[..|results| - 1]) + if results[|results| - 1].passed then 1 else 0
  }

  predicate Regresses(before: seq<Evaluation>, after: seq<Evaluation>)
    requires |before| == |after|
  {
    exists i :: 0 <= i < |before| && before[i].passed && !after[i].passed
  }

  predicate SameSize(a: Scores, b: Scores) {
    |a.train| == |b.train| && |a.validation| == |b.validation|
  }

  /** Pareto selection on train and validation results: the verdict and its reason. */
  function Gate(parent: Scores, candidate: Scores): (bool, string)
    requires SameSize(parent, candidate)
  {
    if Regresses(parent.train, candidate.train) then (false, "train pass regression")
    else if Total(candidate.train) > Total(parent.train) then (false, "train cost increase")
    else if Regresses(parent.validation, candidate.validation) then (false, "validation pass regression")
    else if Total(candidate.validation) > Total(parent.validation) then (false, "validation cost increase")
    else if Passed(candidate.train) > Passed(parent.train) || Total(candidate.train) < Total(parent.train) then
      (true, "train improvement; both splits Pareto-safe")
    else (false, "no strict train improvement")
  }

  // ---- The script ------------------------------------------------------------------------

  /** What the record of a command says. */
  function RecordOf(w: World, spec: Spec, l: Label): CommandRecord {
    match w.answers(l).error
    case None => CommandRecord(spec.Argv(l), w.cwd, spec.timeout, Some(Integer(0)), None)
    case Some(f) => CommandRecord(spec.Argv(l), w.cwd, spec.timeout, f.code, Some(f.message))
  }

  function CallWrites(w: World, spec: Spec, l: Label, request: Request): seq<Write> {
    [ Write(CallFile(l, Input), w.codec.dump(RequestDoc(request))),
      Write(CallFile(l, Stdout), Some(w.answers(l).stdout)),
      Write(CallFile(l, Stderr), Some(w.answers(l).stderr)),
      Write(CallFile(l, Command), w.codec.dump(RecordDoc(RecordOf(w, spec, l)))) ]
  }

  function EvaluateOne(w: World, spec: Spec, body: string, stage: Stage, split: Split, i: nat): Script<Evaluation>
    requires i < |spec.Cases(split)|
  {
    var l := Evaluates(stage, split, i);
    var writes := CallWrites(w, spec, l, Evaluate(body, spec.Cases(split)[i]));
    Script(writes, if w.answers(l).error.Some? then None else w.codec.parseEvaluation(w.answers(l).stdout))
  }

  /** Evaluates cases `i`, `i + 1`, ... of one split, after the results so far. */
  function EvaluateFrom(w: World, spec: Spec, body: string, stage: Stage, split: Split, i: nat, sofar: seq<Evaluation>)
    : (s: Script<seq<Evaluation>>)
    requires i <= |spec.Cases(split)| && |sofar| == i
    ensures s.result.Some? ==> |s.result.value| == |spec.Cases(split)|
    decreases |spec.Cases(split)| - i
  {
    if i == |spec.Cases(split)| then Script([], Some(sofar))
    else
      var one := EvaluateOne(w, spec, body, stage, split, i);
      if one.result.None? then Script(one.writes, None)
      else
        var rest := EvaluateFrom(w, spec, body, stage, split, i + 1, sofar + [one.result.value]);
        Script(one.writes + rest.writes, rest.result)
  }

  function EvaluateSplit(w: World, spec: Spec, body: string, stage: Stage, split: Split): (s: Script<seq<Evaluation>>)
    ensures s.result.Some? ==> |s.result.value| == |spec.Cases(split)|
  {
    EvaluateFrom(w, spec, body, stage, split, 0, [])
  }

  predicate Sized(spec: Spec, scores: Scores) {
    |scores.train| == |spec.train| && |scores.validation| == |spec.validation|
  }

  function Score(w: World, spec: Spec, body: string, stage: Stage): (s: Script<Scores>)
    ensures s.result.Some? ==> Sized(spec, s.result.value)
  {
    var a := EvaluateSplit(w, spec, body, stage, Train);
    if a.result.None? then Script(a.writes, None)
    else
      var b := EvaluateSplit(w, spec, body, stage, Validation);
      Script(a.writes + b.writes,
             if b.result.None? then None else Some(Scores(a.result.value, b.result.value)))
  }

  /** The search between rounds. */
  datatype State = State(parent: string, scores: Scores, rounds: seq<Decision>, accepted: nat)

  function FeedbackOf(spec: Spec, scores: Scores): seq<Feedback>
    requires Sized(spec, scores)
  {
    seq(|spec.train|, i requires 0 <= i < |spec.train| => Feedback(scores.train[i], spec.train[i].id))
  }

  function Decide(w: World, st: State, k: nat, p: Proposal, candidate: Scores): Decision
    requires SameSize(st.scores, candidate)
  {
    var (accepted, reason) :=
      if p.instructions == st.parent then (false, "identical instructions") else Gate(st.scores, candidate);
    Decision(k, w.codec.sha(st.parent), w.codec.sha(p.instructions), accepted, reason, p.rationale, candidate)
  }

  function Adopt(st: State, d: Decision, body: string): State {
    if d.accepted then State(body, d.results, st.rounds + [d], st.accepted + 1)
    else st.(rounds := st.rounds + [d])
  }

  function ProposeFor(w: World, spec: Spec, k: nat, st: State): Script<Proposal>
    requires Sized(spec, st.scores)
  {
    var l := Proposes(k);
    var writes := CallWrites(w, spec, l, Propose(st.parent, k, FeedbackOf(spec, st.scores)));
    Script(writes, if w.answers(l).error.Some? then None else w.codec.ProposalIn(w.answers(l).stdout))
  }

  function Round(w: World, spec: Spec, k: nat, st: State): (s: Script<State>)
    requires Sized(spec, st.scores)
    ensures s.result.Some? ==> Sized(spec, s.result.value.scores)
  {
    var proposed := ProposeFor(w, spec, k, st);
    if proposed.result.None? then Script(proposed.writes, None)
    else
      var p := proposed.result.value;
      var scored := Score(w, spec, p.instructions, OnRound(k));
      var writes := proposed.writes + [Write(RoundBody(k), Some(p.instructions))] + scored.writes;
      if scored.result.None? then Script(writes, None)
      else
        var d := Decide(w, st, k, p, scored.result.value);
        Script(writes + [Write(DecisionFile(k), w.codec.dump(DecisionDoc(d)))], Some(Adopt(st, d, p.instructions)))
  }

  function RoundsFrom(w: World, spec: Spec, k: nat, st: State): (s: Script<State>)
    requires 1 <= k <= spec.rounds + 1 && Sized(spec, st.scores)
    ensures s.result.Some? ==> Sized(spec, s.result.value.scores)
    decreases spec.rounds + 1 - k
  {
    if k == spec.rounds + 1 then Script([], Some(st))
    else
      var one := Round(w, spec, k, st);
      if one.result.None? then one
      else
        var rest := RoundsFrom(w, spec, k + 1, one.result.value);
        Script(one.writes + rest.writes, rest.result)
  }

  /** The decisions: everything up to the holdout. */
  function Decisions(w: World, spec: Spec, baseline: string): (s: Script<(Scores, State)>)
    ensures s.result.Some? ==> Sized(spec, s.result.value.0) && Sized(spec, s.result.value.1.scores)
  {
    var first := Score(w, spec, baseline, OnBaseline);
    if first.result.None? then Script(first.writes, None)
    else
      var rest := RoundsFrom(w, spec, 1, State(baseline, first.result.value, [], 0));
      Script(first.writes + rest.writes,
             if rest.result.None? then None else Some((first.result.value, rest.result.value)))
  }

  function Holdout(w: World, spec: Spec, baseline: string, final: string): Script<(seq<Evaluation>, seq<Evaluation>)> {
    var a := EvaluateSplit(w, spec, baseline, HoldoutBaseline, Test);
    if a.result.None? then Script(a.writes, None)
    else
      var b := EvaluateSplit(w, spec, final, HoldoutFinal, Test);
      Script(a.writes + b.writes, if b.result.None? then None else Some((a.result.value, b.result.value)))
  }

  function ReportOf(w: World, spec: Spec, baseline: string, initial: Scores, st: State, held: (seq<Evaluation>, seq<Evaluation>)): Report {
    Report(st.accepted, w.codec.sha(baseline), w.codec.sha(st.parent), spec.costUnit, initial, st.rounds, held.0, held.1)
  }

  /** The whole search. */
  function Search(w: World, spec: Spec, baseline: string): Script<Report> {
    var decided := Decisions(w, spec, baseline);
    if decided.result.None? then Script(decided.writes, None)
    else
      var (initial, st) := decided.result.value;
      var held := Holdout(w, spec, baseline, st.parent);
      if held.result.None? then Script(decided.writes + held.writes, None)
      else
        Script(decided.writes + held.writes + [Write(FinalBody, Some(st.parent))],
               Some(ReportOf(w, spec, baseline, initial, st, held.result.value)))
  }

  /** The body the search ends with. */
  function FinalOf(w: World, spec: Spec, baseline: Bytes): Bytes
    requires Search(w, spec, baseline).result.Some?
  {
    Decisions(w, spec, baseline).result.value.1.parent
  }

  // ---- The archive -----------------------------------------------------------------------

  /** What the run's directory holds, by file name, apart from the manifest. */
  type Archive = map<string, Bytes>

  function Head(w: World, rawSpec: Bytes, spec: Spec, baseline: Bytes, context: Context): seq<Write> {
    [ Write(SpecFile, Some(rawSpec)),
      Write(BaselineBody, Some(baseline)),
      Write(InputsFile, w.codec.dump(InputsDoc(spec.train, spec.validation, spec.test))),
      Write(ContextFile, w.codec.dump(ContextDoc(context))) ]
  }

  /** Everything a completed run writes before it seals the archive. */
  function FullWrites(w: World, rawSpec: Bytes, spec: Spec, baseline: Bytes, context: Context, report: Report): seq<Write> {
    Head(w, rawSpec, spec, baseline, context) + Search(w, spec, baseline).writes
      + [Write(ReportFile, w.codec.dump(ReportDoc(report)))]
  }

  function ToArchive(writes: seq<Write>): Archive {
    if writes == [] then map[]
    else ToArchive(writes[..|writes| - 1])[Key(writes[|writes| - 1].name) := writes[|writes| - 1].bytes.GetOr("")]
  }

  function NamesOf(writes: seq<Write>): set<string> {
    set i | 0 <= i < |writes| :: Key(writes[i].name)
  }

  /** Every record fits: it can be printed and is at most 1 MiB. */
  predicate AllSmall(writes: seq<Write>) {
    forall i :: 0 <= i < |writes| ==> Small(writes[i].bytes)
  }

  /** The archive holds this very file. */
  predicate Holds(files: Archive, write: Write) {
    Small(write.bytes) && Key(write.name) in files && files[Key(write.name)] == write.bytes.value
  }

  // ---- Replay ----------------------------------------------------------------------------

  /** A command's record in a sealed archive that says what replay asks of it. */
  predicate GoodRecord(codec: Codec, spec: Spec, cwd: string, raw: Bytes, l: Label) {
    && |raw| <= MAX_RECORD && codec.readRecord(raw).Some?
    && SameRecord(codec.readRecord(raw).value, CommandRecord(spec.Argv(l), cwd, spec.timeout, Some(Integer(0)), None))
  }

  /** The answers a sealed archive holds for its own commands. */
  function ArchivedExit(codec: Codec, spec: Spec, cwd: string, files: Archive, l: Label): Exit {
    var out, err, meta := Key(CallFile(l, Stdout)), Key(CallFile(l, Stderr)), Key(CallFile(l, Command));
    Exit(if out in files then files[out] else "", if err in files then files[err] else "",
         if out in files && meta in files && GoodRecord(codec, spec, cwd, files[meta], l) then None
         else Some(Failure(None, "invalid command evidence")))
  }

  function ReplayWorld(codec: Codec, spec: Spec, cwd: string, files: Archive): World {
    World(codec, cwd, l => ArchivedExit(codec, spec, cwd, files, l))
  }

  /** Replay compares every file it derives but a command's record, read for what it says, and an archived stderr. */
  predicate Compared(n: Name) {
    !(n.CallFile? && (n.part == Stderr || n.part == Command))
  }

  predicate Matches(files: Archive, writes: seq<Write>) {
    forall i :: 0 <= i < |writes| && Compared(writes[i].name) ==> Holds(files, writes[i])
  }

  // ---- The seal --------------------------------------------------------------------------

  /** How a manifest is printed and read; the digests are by file name. */
  datatype Sealing = Sealing(render: map<string, string> -> Option<Bytes>, read: Bytes -> Option<map<string, string>>)
  {
    /** A manifest is read back as printed, if small enough; where nothing needs quoting its length is that of its entries. */
    ghost predicate Lawful() {
      && (forall m :: Small(render(m)) ==> read(render(m).value) == Some(m))
      && (forall m, names :: render(m).Some? && Lists(names, m.Keys) && Unquoted(m) ==> |render(m).value| == ManifestSize(names))
    }
  }

  /** A digest as it is printed: 64 hexadecimal digits. */
  predicate IsHash(s: string) {
    |s| == 64 && PlainText(s)
  }

  predicate Unquoted(hashes: map<string, string>) {
    forall n <- hashes :: PlainText(n) && IsHash(hashes[n])
  }

  /** The names in some order, each once. */
  ghost predicate Lists(names: seq<string>, keys: set<string>) {
    && (forall n :: n in names <==> n in keys)
    && (forall i, j :: 0 <= i < j < |names| ==> names[i] != names[j])
  }

  /** Two quoted texts, a separator and a 64-digit hash each, in a fixed frame. */
  function ManifestSize(names: seq<string>): nat {
    if names == [] then 29 else ManifestFrom(names)
  }

  function ManifestFrom(names: seq<string>): nat {
    if names == [] then 27 else ManifestFrom(names[..|names| - 1]) + |names[|names| - 1]| + 72
  }

  function Hashes(codec: Codec, files: Archive): map<string, string> {
    map n | n in files :: codec.sha(files[n])
  }

  /** The manifest is written without a bound. */
  function Seal(codec: Codec, sealing: Sealing, files: Archive): Option<Bytes> {
    sealing.render(Hashes(codec, files))
  }

  /** The manifest and every file are small enough to be read, and the manifest lists exactly these files. */
  predicate SealHolds(codec: Codec, sealing: Sealing, files: Archive, manifest: Bytes) {
    && |manifest| <= MAX_RECORD && sealing.read(manifest).Some?
    && var hashes := sealing.read(manifest).value;
    && hashes.Keys == files.Keys && forall n <- files :: |files[n]| <= MAX_RECORD && codec.sha(files[n]) == hashes[n]
  }

  /** The archived run's own inputs. */
  datatype Inputs = Inputs(raw: Bytes, spec: Spec, context: Context, baseline: Bytes)

  function Premises(codec: Codec, files: Archive): Option<Inputs> {
    var spec, context, baseline := Key(SpecFile), Key(ContextFile), Key(BaselineBody);
    if spec in files && codec.parseSpec(files[spec]).Some?
      && context in files && codec.readContext(files[context]).Some?
      && baseline in files && codec.ValidBody(files[baseline])
    then Some(Inputs(files[spec], codec.parseSpec(files[spec]).value, codec.readContext(files[context]).value,
                     files[baseline]))
    else None
  }

  /** What an accepted archive returns: the report rebuilt, and the final body. */
  datatype Verified = Verified(report: Report, final: Bytes)

  /** Checks a sealed archive by running its search again on its own answers. */
  function Verify(codec: Codec, sealing: Sealing, files: Archive, manifest: Bytes): Option<Verified> {
    var report, final := Key(ReportFile), Key(FinalBody);
    if !SealHolds(codec, sealing, files, manifest) then None
    else if !(report in files && codec.readReport(files[report]) == Some(true)) then None
    else match Premises(codec, files)
      case None => None
      case Some(Inputs(raw, spec, context, baseline)) =>
        var w := ReplayWorld(codec, spec, context.cwd, files);
        var s := Search(w, spec, baseline);
        if s.result.None? then None
        else
          var full := FullWrites(w, raw, spec, baseline, context, s.result.value);
          if Matches(files, full) && NamesOf(full) == files.Keys && final in files && |files[final]| <= MAX_BODY
          then Some(Verified(s.result.value, files[final])) else None
  }
}
