/** What the improvement workflow promises: replay, monotone selection, an untouched holdout, and safe promotion. */
module ImproveTheorems {
  import opened Common
  import opened ImproveNames
  import opened ImproveSearch
  import opened ImproveReplay
  import opened ImproveStory

  // ---- Record and replay -----------------------------------------------------------------

  /** From a spec file and a baseline that pass their checks, the search of `w` comes to this report. */
  predicate Reaches(w: World, raw: Bytes, spec: Spec, baseline: Bytes, report: Report) {
    && w.codec.parseSpec(raw) == Some(spec) && w.codec.ValidBody(baseline)
    && Search(w, spec, baseline).result == Some(report)
  }

  /** What a run of `w` writes: its context names the working directory and nothing else. */
  function RunWrites(w: World, raw: Bytes, spec: Spec, baseline: Bytes, report: Report): seq<Write> {
    FullWrites(w, raw, spec, baseline, Context(w.cwd, map[]), report)
  }

  /** A completed run: it reaches its report and every record on the way fits. */
  predicate Completed(w: World, raw: Bytes, spec: Spec, baseline: Bytes, report: Report) {
    Reaches(w, raw, spec, baseline, report) && AllSmall(RunWrites(w, raw, spec, baseline, report))
  }

  function Recorded(w: World, raw: Bytes, spec: Spec, baseline: Bytes, report: Report): Archive {
    ToArchive(RunWrites(w, raw, spec, baseline, report))
  }

  /** The names of the files, in the order they are written. */
  function KeysOf(writes: seq<Write>): (keys: seq<string>)
    ensures |keys| == |writes|
  {
    seq(|writes|, i requires 0 <= i < |writes| => Key(writes[i].name))
  }

  /** A recorded archive holds every file of its run, and lists exactly their names. */
  lemma RecordedHolds(w: World, raw: Bytes, spec: Spec, baseline: Bytes, report: Report)
    requires AllSmall(RunWrites(w, raw, spec, baseline, report))
    ensures var files := Recorded(w, raw, spec, baseline, report); var writes := RunWrites(w, raw, spec, baseline, report);
      && (forall write <- writes :: Holds(files, write))
      && files.Keys == NamesOf(writes) && Lists(KeysOf(writes), files.Keys)
  {
    hide Search, ToArchive, Key, RunWrites;
    var writes := RunWrites(w, raw, spec, baseline, report);
    EveryNameOnce(w, raw, spec, baseline, Context(w.cwd, map[]), report);
    assert FreshKeys(writes) by { RunIsFull(w, raw, spec, baseline, report); }
    ArchiveHolds(writes);
    ListsKeys(writes);
  }

  lemma RunIsFull(w: World, raw: Bytes, spec: Spec, baseline: Bytes, report: Report)
    ensures RunWrites(w, raw, spec, baseline, report) == FullWrites(w, raw, spec, baseline, Context(w.cwd, map[]), report)
  {
    hide FullWrites;
  }

  lemma ListsKeys(writes: seq<Write>)
    requires FreshKeys(writes)
    ensures Lists(KeysOf(writes), NamesOf(writes))
  {
    hide Key;
    forall n <- NamesOf(writes) ensures n in KeysOf(writes) {
      var i :| 0 <= i < |writes| && Key(writes[i].name) == n;
      assert KeysOf(writes)[i] == n;
    }
  }

  lemma InFull(w: World, raw: Bytes, spec: Spec, baseline: Bytes, context: Context, report: Report, write: Write)
    ensures write in Search(w, spec, baseline).writes || write in Head(w, raw, spec, baseline, context)
      || write == Write(ReportFile, w.codec.dump(ReportDoc(report)))
      <==> write in FullWrites(w, raw, spec, baseline, context, report)
  {
    hide Search, Head;
  }

  lemma InHead(w: World, raw: Bytes, spec: Spec, baseline: Bytes, context: Context)
    ensures var head := Head(w, raw, spec, baseline, context);
      && head == [Write(SpecFile, Some(raw)), Write(BaselineBody, Some(baseline)),
                  Write(InputsFile, w.codec.dump(InputsDoc(spec.train, spec.validation, spec.test))),
                  Write(ContextFile, w.codec.dump(ContextDoc(context)))]
      && Write(SpecFile, Some(raw)) in head && Write(BaselineBody, Some(baseline)) in head
      && Write(ContextFile, w.codec.dump(ContextDoc(context))) in head
  {
    var head := Head(w, raw, spec, baseline, context);
    assert head[0] == Write(SpecFile, Some(raw)) && head[1] == Write(BaselineBody, Some(baseline));
    assert head[3] == Write(ContextFile, w.codec.dump(ContextDoc(context)));
  }

  /** An archive of a run answers every command of that run as the run was answered. */
  lemma ArchiveAnswers(w: World, raw: Bytes, spec: Spec, baseline: Bytes, report: Report)
    requires w.codec.Lawful() && Completed(w, raw, spec, baseline, report)
    ensures var files := Recorded(w, raw, spec, baseline, report);
      Agree(w, ReplayWorld(w.codec, spec, w.cwd, files), Search(w, spec, baseline).writes)
  {
    hide Search, Recorded, Key, RunWrites, Reaches, AllSmall;
    var files := Recorded(w, raw, spec, baseline, report);
    var writes := Search(w, spec, baseline).writes;
    assert Search(w, spec, baseline).result.Some? by { ResultOf(w, raw, spec, baseline, report); }
    SearchDocumented(w, spec, baseline);
    RecordedHolds(w, raw, spec, baseline, report);
    forall i | 0 <= i < |writes| && writes[i].name.CallFile?
      ensures ArchivedExit(w.codec, spec, w.cwd, files, writes[i].name.call) == w.answers(writes[i].name.call)
    {
      var l := writes[i].name.call;
      assert HasAnswer(w, spec, writes, l);
      SearchIsRecorded(w, raw, spec, baseline, report);
      ExitArchived(w, spec, files, l);
    }
  }

  lemma SearchIsRecorded(w: World, raw: Bytes, spec: Spec, baseline: Bytes, report: Report)
    ensures forall write <- Search(w, spec, baseline).writes :: write in RunWrites(w, raw, spec, baseline, report)
  {
    hide Search, Head, FullWrites;
    forall write <- Search(w, spec, baseline).writes ensures write in RunWrites(w, raw, spec, baseline, report) {
      InFull(w, raw, spec, baseline, Context(w.cwd, map[]), report, write);
    }
  }

  /** A command that went well and whose files are archived is answered from them as it was answered live. */
  lemma ExitArchived(w: World, spec: Spec, files: Archive, l: Label)
    requires w.codec.Lawful() && w.answers(l).error.None?
    requires Holds(files, Write(CallFile(l, Stdout), Some(w.answers(l).stdout)))
    requires Holds(files, Write(CallFile(l, Stderr), Some(w.answers(l).stderr)))
    requires Holds(files, Write(CallFile(l, Command), w.codec.dump(RecordDoc(RecordOf(w, spec, l)))))
    ensures ArchivedExit(w.codec, spec, w.cwd, files, l) == w.answers(l)
  {
    hide Key;
  }

  lemma FinalWritten(w: World, spec: Spec, baseline: Bytes)
    requires Search(w, spec, baseline).result.Some?
    ensures Write(FinalBody, Some(FinalOf(w, spec, baseline))) in Search(w, spec, baseline).writes
  {
    hide Decisions, Holdout;
    var writes := Search(w, spec, baseline).writes;
    assert writes[|writes| - 1] == Write(FinalBody, Some(FinalOf(w, spec, baseline)));
  }

  lemma {:induction false} RoundsStayValid(w: World, spec: Spec, k: nat, st: State)
    requires 1 <= k <= spec.rounds + 1 && Sized(spec, st.scores) && RoundsFrom(w, spec, k, st).result.Some?
    requires w.codec.ValidBody(st.parent)
    ensures w.codec.ValidBody(RoundsFrom(w, spec, k, st).result.value.parent)
    decreases spec.rounds + 1 - k
  {
    hide Score, Gate;
    if k <= spec.rounds { RoundsStayValid(w, spec, k + 1, Round(w, spec, k, st).result.value); }
  }

  /** The final body passed the same checks as the baseline. */
  lemma FinalIsValid(w: World, spec: Spec, baseline: Bytes)
    requires Search(w, spec, baseline).result.Some? && w.codec.ValidBody(baseline)
    ensures w.codec.ValidBody(FinalOf(w, spec, baseline))
  {
    hide Score, RoundsFrom, Holdout;
    RoundsStayValid(w, spec, 1, State(baseline, Score(w, spec, baseline, OnBaseline).result.value, [], 0));
  }

  /** What verification reads of a recorded archive before it replays. */
  lemma RecordedPremises(w: World, raw: Bytes, spec: Spec, baseline: Bytes, report: Report)
    requires w.codec.Lawful() && Completed(w, raw, spec, baseline, report)
    ensures var files := Recorded(w, raw, spec, baseline, report);
      && Premises(w.codec, files) == Some(Inputs(raw, spec, Context(w.cwd, map[]), baseline))
      && Key(ReportFile) in files && w.codec.readReport(files[Key(ReportFile)]) == Some(report.Eligible())
      && Key(FinalBody) in files && files[Key(FinalBody)] == FinalOf(w, spec, baseline) && |files[Key(FinalBody)]| <= MAX_BODY
  {
    hide Search, Recorded, Key, RunWrites, AllSmall, FinalOf, Head, FullWrites;
    var files := Recorded(w, raw, spec, baseline, report);
    var context := Context(w.cwd, map[]);
    RecordedHolds(w, raw, spec, baseline, report);
    RunIsFull(w, raw, spec, baseline, report);
    InHead(w, raw, spec, baseline, context);
    FinalWritten(w, spec, baseline);
    FinalIsValid(w, spec, baseline);
    InFull(w, raw, spec, baseline, context, report, Write(SpecFile, Some(raw)));
    InFull(w, raw, spec, baseline, context, report, Write(BaselineBody, Some(baseline)));
    InFull(w, raw, spec, baseline, context, report, Write(ContextFile, w.codec.dump(ContextDoc(context))));
    InFull(w, raw, spec, baseline, context, report, Write(ReportFile, w.codec.dump(ReportDoc(report))));
    InFull(w, raw, spec, baseline, context, report, Write(FinalBody, Some(FinalOf(w, spec, baseline))));
    assert Holds(files, Write(SpecFile, Some(raw))) && Holds(files, Write(BaselineBody, Some(baseline)));
    assert Holds(files, Write(ContextFile, w.codec.dump(ContextDoc(context))));
    assert Holds(files, Write(ReportFile, w.codec.dump(ReportDoc(report))));
    assert Holds(files, Write(FinalBody, Some(FinalOf(w, spec, baseline))));
  }

  /** A recorded archive's own seal holds exactly when its manifest is small enough to be read. */
  lemma RecordedSeal(w: World, sealing: Sealing, raw: Bytes, spec: Spec, baseline: Bytes, report: Report)
    requires w.codec.Lawful() && sealing.Lawful() && Completed(w, raw, spec, baseline, report)
    requires Seal(w.codec, sealing, Recorded(w, raw, spec, baseline, report)).Some?
    ensures var files := Recorded(w, raw, spec, baseline, report);
      SealHolds(w.codec, sealing, files, Seal(w.codec, sealing, files).value)
      <==> ManifestSize(KeysOf(RunWrites(w, raw, spec, baseline, report))) <= MAX_RECORD
  {
    hide Recorded, Key, RunWrites, AllSmall, KeysOf, Reaches;
    var files := Recorded(w, raw, spec, baseline, report);
    var writes := RunWrites(w, raw, spec, baseline, report);
    RecordedHolds(w, raw, spec, baseline, report);
    var hashes := Hashes(w.codec, files);
    assert hashes.Keys == files.Keys;
    assert Unquoted(hashes) by { RecordedUnquoted(w, writes, files); }
    assert sealing.render(hashes).Some? && Lists(KeysOf(writes), hashes.Keys);
    assert |sealing.render(hashes).value| == ManifestSize(KeysOf(writes));
    forall n <- files ensures |files[n]| <= MAX_RECORD {
      var i :| 0 <= i < |writes| && Key(writes[i].name) == n;
      assert Holds(files, writes[i]);
    }
  }

  lemma RecordedUnquoted(w: World, writes: seq<Write>, files: Archive)
    requires w.codec.Lawful() && files.Keys == NamesOf(writes)
    ensures Unquoted(Hashes(w.codec, files))
  {
    hide Key, IsHash, PlainText;
    forall n <- files ensures PlainText(n) {
      var i :| 0 <= i < |writes| && Key(writes[i].name) == n;
      KeyIsPlain(writes[i].name);
    }
  }

  lemma SameWrites(a: World, b: World, raw: Bytes, spec: Spec, baseline: Bytes, context: Context, report: Report)
    requires Search(a, spec, baseline) == Search(b, spec, baseline) && a.codec == b.codec
    ensures FullWrites(a, raw, spec, baseline, context, report) == FullWrites(b, raw, spec, baseline, context, report)
  {
    hide Search;
  }

  /**
   * A completed, eligible, sealed run is accepted exactly when its manifest is small enough to be read, and then
   * verification rebuilds the identical report and the final body of the run. Sealing sets no such bound.
   */
  lemma RecordedRunVerifies(w: World, sealing: Sealing, raw: Bytes, spec: Spec, baseline: Bytes, report: Report)
    requires w.codec.Lawful() && sealing.Lawful()
    requires Completed(w, raw, spec, baseline, report) && report.Eligible()
    requires Seal(w.codec, sealing, Recorded(w, raw, spec, baseline, report)).Some?
    ensures var files := Recorded(w, raw, spec, baseline, report);
      Verify(w.codec, sealing, files, Seal(w.codec, sealing, files).value) ==
        if ManifestSize(KeysOf(RunWrites(w, raw, spec, baseline, report))) <= MAX_RECORD
        then Some(Verified(report, FinalOf(w, spec, baseline))) else None
  {
    hide Search, Recorded, FinalOf, NamesOf, Key, Premises, SealHolds, FullWrites, AllSmall, KeysOf, ManifestSize;
    var files := Recorded(w, raw, spec, baseline, report);
    RecordedSeal(w, sealing, raw, spec, baseline, report);
    RecordedPremises(w, raw, spec, baseline, report);
    RecordedHolds(w, raw, spec, baseline, report);
    var replay := ReplayWorld(w.codec, spec, w.cwd, files);
    ArchiveAnswers(w, raw, spec, baseline, report);
    SearchAgree(w, replay, spec, baseline);
    SameWrites(w, replay, raw, spec, baseline, Context(w.cwd, map[]), report);
  }

  /** The files a run writes beside those of its search, byte for byte. */
  lemma RecordedHead(w: World, raw: Bytes, spec: Spec, baseline: Bytes, report: Report)
    requires AllSmall(RunWrites(w, raw, spec, baseline, report))
    ensures var files := Recorded(w, raw, spec, baseline, report);
      && Key(SpecFile) in files && files[Key(SpecFile)] == raw
      && Key(BaselineBody) in files && files[Key(BaselineBody)] == baseline
      && Key(InputsFile) in files && Some(files[Key(InputsFile)]) == w.codec.dump(InputsDoc(spec.train, spec.validation, spec.test))
      && Key(ContextFile) in files && Some(files[Key(ContextFile)]) == w.codec.dump(ContextDoc(Context(w.cwd, map[])))
      && Key(ReportFile) in files && Some(files[Key(ReportFile)]) == w.codec.dump(ReportDoc(report))
  {
    hide Search, Recorded, Key, RunWrites, AllSmall, Head, FullWrites;
    var files, context := Recorded(w, raw, spec, baseline, report), Context(w.cwd, map[]);
    var inputs := Write(InputsFile, w.codec.dump(InputsDoc(spec.train, spec.validation, spec.test)));
    var settings, told := Write(ContextFile, w.codec.dump(ContextDoc(context))), Write(ReportFile, w.codec.dump(ReportDoc(report)));
    RecordedHolds(w, raw, spec, baseline, report);
    RunIsFull(w, raw, spec, baseline, report);
    InHead(w, raw, spec, baseline, context);
    assert inputs == Head(w, raw, spec, baseline, context)[2];
    InFull(w, raw, spec, baseline, context, report, Write(SpecFile, Some(raw)));
    InFull(w, raw, spec, baseline, context, report, Write(BaselineBody, Some(baseline)));
    InFull(w, raw, spec, baseline, context, report, inputs);
    InFull(w, raw, spec, baseline, context, report, settings);
    InFull(w, raw, spec, baseline, context, report, told);
    assert Holds(files, Write(SpecFile, Some(raw))) && Holds(files, Write(BaselineBody, Some(baseline)));
    assert Holds(files, inputs) && Holds(files, settings) && Holds(files, told);
  }

  /** What replay asks of a command's record: the very command, and a clean exit. */
  lemma GoodRecordMeaning(codec: Codec, spec: Spec, cwd: string, raw: Bytes, l: Label)
    ensures GoodRecord(codec, spec, cwd, raw, l) <==>
      && |raw| <= 1048576
      && match codec.readRecord(raw)
         case None => false
         case Some(CommandRecord(argv, at, timeout, code, error)) =>
           && argv == (match l case Proposes(_) => spec.proposer case Evaluates(_, _, _) => spec.evaluator)
           && at == cwd && ValueOf(timeout) == ValueOf(spec.timeout)
           && code.Some? && ValueOf(code.value) == 0.0 && error == None
  {
  }

  /** A body is admitted exactly when it passes its check and is at most 64 KiB, and a record is kept exactly up to 1 MiB. */
  lemma SizesExactly(codec: Codec, raw: Bytes)
    ensures codec.ValidBody(raw) <==> codec.validBody(raw) && |raw| < 65537
    ensures Small(Some(raw)) <==> |raw| < 1048577
    ensures !Small(None)
  {
  }

  /** The record a run files of a command is one that replay accepts exactly when the command went well. */
  lemma RecordsTellSuccess(w: World, spec: Spec, l: Label)
    requires w.codec.Lawful() && Small(w.codec.dump(RecordDoc(RecordOf(w, spec, l))))
    ensures GoodRecord(w.codec, spec, w.cwd, w.codec.dump(RecordDoc(RecordOf(w, spec, l))).value, l) <==> w.answers(l).error.None?
    ensures var failed := w.answers(l).error;
      RecordOf(w, spec, l).error == (if failed.Some? then Some(failed.value.message) else None)
  {
  }

  // ---- What an accepted archive determines -----------------------------------------------

  /** The files whose spelling verification leaves open: the context and the commands' records. */
  predicate Free(n: Name) {
    n == ContextFile || (n.CallFile? && n.part == Command)
  }

  lemma VerifiedContents(codec: Codec, sealing: Sealing, files: Archive, manifest: Bytes)
    requires codec.Lawful() && Verify(codec, sealing, files, manifest).Some?
    ensures Premises(codec, files).Some?
    ensures var Inputs(raw, spec, context, baseline) := Premises(codec, files).value;
      var w := ReplayWorld(codec, spec, context.cwd, files); var v := Verify(codec, sealing, files, manifest).value;
      var full := FullWrites(w, raw, spec, baseline, context, v.report);
      && Reaches(w, raw, spec, baseline, v.report) && v.report.Eligible()
      && Matches(files, full) && NamesOf(full) == files.Keys
      && Key(FinalBody) in files && v.final == files[Key(FinalBody)]
  {
    hide Search, NamesOf, FullWrites, Key, SealHolds, Head;
    var Inputs(raw, spec, context, baseline) := Premises(codec, files).value;
    var w := ReplayWorld(codec, spec, context.cwd, files);
    var report := Search(w, spec, baseline).result.value;
    var write := Write(ReportFile, codec.dump(ReportDoc(report)));
    InFull(w, raw, spec, baseline, context, report, write);
    assert Holds(files, write);
  }

  lemma ResultOf(w: World, raw: Bytes, spec: Spec, baseline: Bytes, report: Report)
    requires Reaches(w, raw, spec, baseline, report)
    ensures Search(w, spec, baseline).result == Some(report)
  {
  }

  /** In replay a command's output files are the archive's own, and its record says what was asked. */
  lemma ReplayedCall(codec: Codec, spec: Spec, cwd: string, files: Archive, baseline: Bytes, write: Write)
    requires var w := ReplayWorld(codec, spec, cwd, files);
      Search(w, spec, baseline).result.Some? && write in Search(w, spec, baseline).writes && write.name.CallFile?
    requires Key(write.name) in files && forall n <- files :: |files[n]| <= MAX_RECORD
    ensures write.name.part == Stderr ==> Holds(files, write)
    ensures write.name.part == Command ==> GoodRecord(codec, spec, cwd, files[Key(write.name)], write.name.call)
  {
    hide Search, Key, GoodRecord, RecordOf;
    var w := ReplayWorld(codec, spec, cwd, files);
    var writes := Search(w, spec, baseline).writes;
    SearchDocumented(w, spec, baseline);
    SearchFresh(w, spec, baseline);
    var l := write.name.call;
    var i :| 0 <= i < |writes| && writes[i] == write;
    assert HasAnswer(w, spec, writes, l);
    var j :| 0 <= j < |writes| && writes[j] == Write(CallFile(l, Stderr), Some(w.answers(l).stderr));
    assert write.name.part == Stderr ==> writes[i].name == writes[j].name && i == j;
  }

  lemma CallsAreSearched(w: World, raw: Bytes, spec: Spec, baseline: Bytes, context: Context, report: Report, write: Write)
    requires write in FullWrites(w, raw, spec, baseline, context, report) && write.name.CallFile?
    ensures write in Search(w, spec, baseline).writes
  {
    hide Search, Head, FullWrites;
    InFull(w, raw, spec, baseline, context, report, write);
    InHead(w, raw, spec, baseline, context);
  }

  /** The context is the only file in which two archives of one search can be meant to differ. */
  lemma SameButContext(w: World, raw: Bytes, spec: Spec, baseline: Bytes, a: Context, b: Context, report: Report)
    ensures var u, v := FullWrites(w, raw, spec, baseline, a, report), FullWrites(w, raw, spec, baseline, b, report);
      && |u| == |v| && (forall i :: 0 <= i < |u| ==> u[i].name == v[i].name)
      && (forall i :: 0 <= i < |u| && u[i].name != ContextFile ==> u[i] == v[i])
      && NamesOf(u) == NamesOf(v)
  {
    hide Search, Key, NamesOf;
    var u, v := FullWrites(w, raw, spec, baseline, a, report), FullWrites(w, raw, spec, baseline, b, report);
    assert forall i :: 4 <= i < |u| ==> u[i] == v[i];
    NamesAlike(u, v);
  }

  lemma NamesAlike(u: seq<Write>, v: seq<Write>)
    requires |u| == |v| && forall i :: 0 <= i < |u| ==> u[i].name == v[i].name
    ensures NamesOf(u) == NamesOf(v)
  {
    hide Key;
    forall n ensures n in NamesOf(u) <==> n in NamesOf(v) {
      if n in NamesOf(u) { var i :| 0 <= i < |u| && Key(u[i].name) == n; assert Key(v[i].name) == n; }
      if n in NamesOf(v) { var i :| 0 <= i < |v| && Key(v[i].name) == n; assert Key(u[i].name) == n; }
    }
  }

  /**
   * Conversely, an accepted archive is a run of its own search re-run on its archived answers, whatever its report file
   * claimed: report, final body, the set of names and every file but the context and the commands' records are, byte for
   * byte, what that run writes. A record need only say the same thing, and the context may hold further keys.
   */
  lemma VerifiedArchiveIsARun(codec: Codec, sealing: Sealing, files: Archive, manifest: Bytes)
    requires codec.Lawful() && Verify(codec, sealing, files, manifest).Some?
    ensures Premises(codec, files).Some?
    ensures var Inputs(raw, spec, context, baseline) := Premises(codec, files).value;
      var w := ReplayWorld(codec, spec, context.cwd, files); var v := Verify(codec, sealing, files, manifest).value;
      var writes := RunWrites(w, raw, spec, baseline, v.report);
      && Reaches(w, raw, spec, baseline, v.report) && v.report.Eligible() && v.final == FinalOf(w, spec, baseline)
      && files.Keys == NamesOf(writes)
      && (forall write <- writes :: Key(write.name) in files)
      && (forall write <- writes :: !Free(write.name) ==> Holds(files, write))
      && (forall write <- writes :: write.name.CallFile? && write.name.part == Command ==>
            GoodRecord(codec, spec, context.cwd, files[Key(write.name)], write.name.call))
      && codec.dump(ContextDoc(context)) == Some(files[Key(ContextFile)])
  {
    hide Search, NamesOf, Key, FullWrites, Reaches, Verify, Head, GoodRecord, FinalOf;
    VerifiedContents(codec, sealing, files, manifest);
    var Inputs(raw, spec, context, baseline) := Premises(codec, files).value;
    var w := ReplayWorld(codec, spec, context.cwd, files);
    var v := Verify(codec, sealing, files, manifest).value;
    var full, writes := FullWrites(w, raw, spec, baseline, context, v.report), RunWrites(w, raw, spec, baseline, v.report);
    SameButContext(w, raw, spec, baseline, context, Context(w.cwd, map[]), v.report);
    AllReadable(codec, sealing, files, manifest);
    ResultOf(w, raw, spec, baseline, v.report);
    forall write <- writes
      ensures Key(write.name) in files && (!Free(write.name) ==> Holds(files, write))
      ensures write.name.CallFile? && write.name.part == Command ==>
        GoodRecord(codec, spec, context.cwd, files[Key(write.name)], write.name.call)
    {
      var i :| 0 <= i < |writes| && writes[i] == write;
      NameIn(writes, i);
      assert full[i].name == write.name;
      if write.name.CallFile? {
        CallsAreSearched(w, raw, spec, baseline, context, v.report, write);
        ReplayedCall(codec, spec, context.cwd, files, baseline, write);
      }
    }
    var final := Write(FinalBody, Some(FinalOf(w, spec, baseline)));
    FinalWritten(w, spec, baseline);
    InFull(w, raw, spec, baseline, context, v.report, final);
    assert Holds(files, final);
    InHead(w, raw, spec, baseline, context);
    InFull(w, raw, spec, baseline, context, v.report, Write(ContextFile, codec.dump(ContextDoc(context))));
    assert Holds(files, Write(ContextFile, codec.dump(ContextDoc(context))));
  }

  lemma AllReadable(codec: Codec, sealing: Sealing, files: Archive, manifest: Bytes)
    requires Verify(codec, sealing, files, manifest).Some?
    ensures forall n <- files :: |files[n]| <= MAX_RECORD
  {
    hide Search, FullWrites, Key;
  }

  /** An accepted archive has exactly the files its manifest lists, each of that digest and at most 1 MiB. */
  lemma ManifestBinds(codec: Codec, sealing: Sealing, files: Archive, manifest: Bytes)
    requires Verify(codec, sealing, files, manifest).Some?
    ensures |manifest| <= 1048576 && forall n <- files :: |files[n]| <= 1048576
    ensures match sealing.read(manifest)
      case None => false
      case Some(listed) => forall n: string :: (n in listed <==> n in files) && (n in files ==> listed[n] == codec.sha(files[n]))
  {
    hide Search, FullWrites, Key, Premises, NamesOf, Matches;
  }

  lemma NameIn(writes: seq<Write>, i: nat)
    requires i < |writes|
    ensures Key(writes[i].name) in NamesOf(writes)
  {
    hide Key;
  }

  /** An accepted archive is, file for file, a recording exactly when its context and records are spelled as a run spells them. */
  lemma AcceptedIsRecorded(codec: Codec, sealing: Sealing, files: Archive, manifest: Bytes)
    requires codec.Lawful() && Verify(codec, sealing, files, manifest).Some? && Premises(codec, files).Some?
    ensures var Inputs(raw, spec, context, baseline) := Premises(codec, files).value;
      var w := ReplayWorld(codec, spec, context.cwd, files); var report := Verify(codec, sealing, files, manifest).value.report;
      Completed(w, raw, spec, baseline, report) && files == Recorded(w, raw, spec, baseline, report)
      <==> forall write <- RunWrites(w, raw, spec, baseline, report) :: Free(write.name) ==> Holds(files, write)
  {
    hide Search, NamesOf, Key, RunWrites, Reaches, Verify, GoodRecord, Free, ToArchive;
    VerifiedArchiveIsARun(codec, sealing, files, manifest);
    var Inputs(raw, spec, context, baseline) := Premises(codec, files).value;
    var w := ReplayWorld(codec, spec, context.cwd, files);
    var report := Verify(codec, sealing, files, manifest).value.report;
    var writes := RunWrites(w, raw, spec, baseline, report);
    if Completed(w, raw, spec, baseline, report) && files == Recorded(w, raw, spec, baseline, report) {
      RecordedHolds(w, raw, spec, baseline, report);
    }
    if forall write <- writes :: Free(write.name) ==> Holds(files, write) {
      forall i | 0 <= i < |writes| ensures Holds(files, writes[i]) { assert writes[i] in writes; }
      EveryNameOnce(w, raw, spec, baseline, Context(w.cwd, map[]), report);
      RunIsFull(w, raw, spec, baseline, report);
      ArchiveIsDetermined(files, writes);
    }
  }

  /** Two archives that differ at most in how the context and the records are spelled. */
  ghost predicate SpelledAlike(codec: Codec, inputs: Inputs, a: Archive, b: Archive) {
    && a.Keys == b.Keys
    && (forall n: Name :: Key(n) in a && !Free(n) ==> b[Key(n)] == a[Key(n)])
    && (forall l: Label :: Key(CallFile(l, Command)) in a ==>
          GoodRecord(codec, inputs.spec, inputs.context.cwd, b[Key(CallFile(l, Command))], l))
    && Key(ContextFile) in b && codec.readContext(b[Key(ContextFile)]).Some?
    && codec.readContext(b[Key(ContextFile)]).value.cwd == inputs.context.cwd
    && codec.dump(ContextDoc(codec.readContext(b[Key(ContextFile)]).value)) == Some(b[Key(ContextFile)])
  }

  /** That freedom is real: respelling the context and the records of an accepted archive, and sealing it again, changes nothing. */
  lemma SpellingDoesNotMatter(codec: Codec, sealing: Sealing, a: Archive, ma: Bytes, b: Archive, mb: Bytes)
    requires codec.Lawful() && Verify(codec, sealing, a, ma).Some? && Premises(codec, a).Some?
    requires SealHolds(codec, sealing, b, mb) && SpelledAlike(codec, Premises(codec, a).value, a, b)
    ensures Verify(codec, sealing, b, mb) == Verify(codec, sealing, a, ma)
  {
    hide Search, NamesOf, Key, FullWrites, Head, SealHolds, Premises, SpelledAlike, Matches;
    VerifiedContents(codec, sealing, a, ma);
    var Inputs(raw, spec, context, baseline) := Premises(codec, a).value;
    var report := Verify(codec, sealing, a, ma).value.report;
    RespelledPremises(codec, Premises(codec, a).value, a, b);
    var other := codec.readContext(b[Key(ContextFile)]).value;
    ReadableUnderSeal(codec, sealing, b, mb);
    var w, w' := ReplayWorld(codec, spec, context.cwd, a), ReplayWorld(codec, spec, context.cwd, b);
    RespelledAgree(codec, spec, baseline, raw, context, report, a, b);
    SearchAgree(w, w', spec, baseline);
    SameWrites(w, w', raw, spec, baseline, other, report);
    SameButContext(w, raw, spec, baseline, context, other, report);
    RespelledMatches(w, raw, spec, baseline, context, other, report, a, b);
  }

  lemma ReadableUnderSeal(codec: Codec, sealing: Sealing, files: Archive, manifest: Bytes)
    requires SealHolds(codec, sealing, files, manifest)
    ensures forall n <- files :: |files[n]| <= MAX_RECORD
  {
  }

  /** A respelled archive has the same inputs but for further keys of the context, and the same report and final body. */
  lemma RespelledPremises(codec: Codec, inputs: Inputs, a: Archive, b: Archive)
    requires Premises(codec, a) == Some(inputs) && SpelledAlike(codec, inputs, a, b)
    requires Key(ReportFile) in a && Key(FinalBody) in a
    ensures a.Keys == b.Keys && Key(ContextFile) in b && codec.readContext(b[Key(ContextFile)]).Some?
    ensures var other := codec.readContext(b[Key(ContextFile)]).value;
      && Premises(codec, b) == Some(inputs.(context := other)) && other.cwd == inputs.context.cwd
      && codec.dump(ContextDoc(other)) == Some(b[Key(ContextFile)])
    ensures b[Key(ReportFile)] == a[Key(ReportFile)] && b[Key(FinalBody)] == a[Key(FinalBody)]
    ensures forall n: Name :: Key(n) in a && !Free(n) ==> b[Key(n)] == a[Key(n)]
  {
    hide Key, GoodRecord;
  }

  lemma RespelledAgree(codec: Codec, spec: Spec, baseline: Bytes, raw: Bytes, context: Context, report: Report, a: Archive, b: Archive)
    requires var w := ReplayWorld(codec, spec, context.cwd, a);
      Search(w, spec, baseline).result.Some? && NamesOf(FullWrites(w, raw, spec, baseline, context, report)) == a.Keys
    requires SpelledAlike(codec, Inputs(raw, spec, context, baseline), a, b)
    ensures Agree(ReplayWorld(codec, spec, context.cwd, a), ReplayWorld(codec, spec, context.cwd, b),
                  Search(ReplayWorld(codec, spec, context.cwd, a), spec, baseline).writes)
  {
    hide Search, NamesOf, Key, FullWrites, GoodRecord, RecordOf;
    var w := ReplayWorld(codec, spec, context.cwd, a);
    var writes := Search(w, spec, baseline).writes;
    SearchDocumented(w, spec, baseline);
    forall i | 0 <= i < |writes| && writes[i].name.CallFile?
      ensures ArchivedExit(codec, spec, context.cwd, a, writes[i].name.call)
           == ArchivedExit(codec, spec, context.cwd, b, writes[i].name.call)
    {
      var l := writes[i].name.call;
      assert HasAnswer(w, spec, writes, l);
      assert !Free(CallFile(l, Stdout)) && !Free(CallFile(l, Stderr));
    }
  }

  lemma RespelledMatches(w: World, raw: Bytes, spec: Spec, baseline: Bytes, context: Context, other: Context, report: Report, a: Archive, b: Archive)
    requires Matches(a, FullWrites(w, raw, spec, baseline, context, report))
    requires a.Keys == b.Keys && forall n: Name :: Key(n) in a && !Free(n) ==> b[Key(n)] == a[Key(n)]
    requires Key(ContextFile) in b && |b[Key(ContextFile)]| <= MAX_RECORD
    requires w.codec.dump(ContextDoc(other)) == Some(b[Key(ContextFile)])
    ensures Matches(b, FullWrites(w, raw, spec, baseline, other, report))
  {
    hide Search, Key, NamesOf;
    var u, v := FullWrites(w, raw, spec, baseline, context, report), FullWrites(w, raw, spec, baseline, other, report);
    SameButContext(w, raw, spec, baseline, context, other, report);
    SearchFresh(w, spec, baseline);
    forall i | 0 <= i < |v| && Compared(v[i].name) ensures Holds(b, v[i]) {
      if v[i].name == ContextFile {
        assert i == 3 by { OneContext(w, raw, spec, baseline, other, report, i); }
      } else {
        assert u[i] == v[i] && Holds(a, u[i]);
      }
    }
  }

  lemma OneContext(w: World, raw: Bytes, spec: Spec, baseline: Bytes, context: Context, report: Report, i: nat)
    requires var full := FullWrites(w, raw, spec, baseline, context, report); i < |full| && full[i].name == ContextFile
    ensures i == 3
  {
    hide Search, Key;
    EveryNameOnce(w, raw, spec, baseline, context, report);
    var full := FullWrites(w, raw, spec, baseline, context, report);
    assert full[3].name == ContextFile;
  }

  // ---- Monotone selection ----------------------------------------------------------------

  /**
   * The final body was judged, request by request, and by those results loses no train or validation case the baseline
   * passed, raises neither total cost and, if a candidate was accepted, strictly gains on train.
   */
  ghost predicate Improved(w: World, spec: Spec, writes: seq<Write>, baseline: Bytes, final: Bytes, eligible: bool) {
    exists stage, before, after ::
      && JudgedScores(w, spec, writes, baseline, OnBaseline, before) && JudgedScores(w, spec, writes, final, stage, after)
      && Dominates(before, after)
      && (eligible ==> TrainGain(before, after))
      && (!eligible ==> final == baseline)
  }

  /** Over any number of rounds and any answers the search improves on its baseline, or ends with it. */
  lemma SearchImproves(w: World, spec: Spec, baseline: Bytes)
    requires Search(w, spec, baseline).result.Some?
    ensures Improved(w, spec, Search(w, spec, baseline).writes, baseline, FinalOf(w, spec, baseline),
                     Search(w, spec, baseline).result.value.Eligible())
  {
    hide Search, FinalOf, Dominates, TrainGain, JudgedScores, Told;
    var bodies := SearchTells(w, spec, baseline);
    var r := Search(w, spec, baseline).result.value;
    var n := |r.rounds|;
    StoryImproves(w, spec, Search(w, spec, baseline).writes, baseline, r.initial, bodies, r.rounds, n);
    assert r.rounds[..n] == r.rounds;
    assert JudgedScores(w, spec, Search(w, spec, baseline).writes, baseline, OnBaseline, r.initial) by {
      StoryImproves(w, spec, Search(w, spec, baseline).writes, baseline, r.initial, bodies, r.rounds, 0);
    }
  }

  // ---- The holdout -----------------------------------------------------------------------

  /** The two worlds differ at most in how the test split is answered. */
  ghost predicate SameButHoldout(a: World, b: World) {
    && a.codec == b.codec && a.cwd == b.cwd
    && forall l: Label :: !(l.Evaluates? && l.split == Test) ==> a.answers(l) == b.answers(l)
  }

  /**
   * Holdout non-interference: with the same proposer, train and validation answers, all files up to the holdout, every
   * decision, the final body and eligibility are the same, whatever the test answers are.
   */
  lemma HoldoutDoesNotInterfere(a: World, b: World, spec: Spec, baseline: string)
    requires SameButHoldout(a, b)
    ensures Decisions(a, spec, baseline) == Decisions(b, spec, baseline)
    ensures var ra, rb := Search(a, spec, baseline).result, Search(b, spec, baseline).result;
      ra.Some? && rb.Some? ==>
        && ra.value.rounds == rb.value.rounds && ra.value.final == rb.value.final
        && ra.value.acceptedCount == rb.value.acceptedCount && ra.value.initial == rb.value.initial
        && FinalOf(a, spec, baseline) == FinalOf(b, spec, baseline)
  {
    hide Score, RoundsFrom, Holdout;
    DecisionsFresh(a, spec, baseline);
    DecisionsAgree(a, b, spec, baseline);
  }

  /** A proposer request shows the parent, the round and the train results, and nothing else. */
  lemma ProposerSeesOnlyTraining(w: World, spec: Spec, k: nat, a: State, b: State)
    requires Sized(spec, a.scores) && Sized(spec, b.scores)
    requires a.parent == b.parent && a.scores.train == b.scores.train
    ensures ProposeFor(w, spec, k, a) == ProposeFor(w, spec, k, b)
  {
    assert FeedbackOf(spec, a.scores) == FeedbackOf(spec, b.scores);
  }

  // ---- Promotion -------------------------------------------------------------------------

  /** `promote`: the new content of the target, given what the target held at the two checks. */
  function Promote(codec: Codec, sealing: Sealing, files: Archive, manifest: Bytes, expected: string, seen: Bytes, seenAgain: Bytes)
    : Option<Bytes>
  {
    match Verify(codec, sealing, files, manifest)
    case None => None
    case Some(v) =>
      if expected != v.report.baseline then None
      else if |seen| > MAX_BODY || codec.sha(seen) != expected then None
      else if |seenAgain| > MAX_BODY || codec.sha(seenAgain) != expected then None
      else Some(v.final)
  }

  /** The archive's own files: this request showed this very body and case, and this is what was answered to it, cleanly. */
  ghost predicate FiledAt(codec: Codec, spec: Spec, cwd: string, files: Archive, body: Bytes, stage: Stage, split: Split, i: nat, result: Evaluation)
    requires i < |spec.Cases(split)|
  {
    var l := Evaluates(stage, split, i);
    && Holds(files, Write(CallFile(l, Input), codec.dump(RequestDoc(Evaluate(body, spec.Cases(split)[i])))))
    && Key(CallFile(l, Command)) in files && GoodRecord(codec, spec, cwd, files[Key(CallFile(l, Command))], l)
    && Key(CallFile(l, Stdout)) in files && codec.parseEvaluation(files[Key(CallFile(l, Stdout))]) == Some(result)
  }

  ghost predicate Filed(codec: Codec, spec: Spec, cwd: string, files: Archive, body: Bytes, stage: Stage, split: Split, results: seq<Evaluation>) {
    && |results| == |spec.Cases(split)|
    && forall i :: 0 <= i < |results| ==> FiledAt(codec, spec, cwd, files, body, stage, split, i, results[i])
  }

  ghost predicate FiledScores(codec: Codec, spec: Spec, cwd: string, files: Archive, body: Bytes, stage: Stage, scores: Scores) {
    && Filed(codec, spec, cwd, files, body, stage, Train, scores.train)
    && Filed(codec, spec, cwd, files, body, stage, Validation, scores.validation)
  }

  lemma JudgedIsFiled(codec: Codec, spec: Spec, cwd: string, files: Archive, writes: seq<Write>, body: Bytes, stage: Stage, split: Split, results: seq<Evaluation>)
    requires Judged(ReplayWorld(codec, spec, cwd, files), spec, writes, body, stage, split, results)
    requires forall write <- writes :: Key(write.name) in files && (!Free(write.name) ==> Holds(files, write))
    ensures Filed(codec, spec, cwd, files, body, stage, split, results)
  {
    hide Key, GoodRecord;
    var w := ReplayWorld(codec, spec, cwd, files);
    forall i | 0 <= i < |results| ensures FiledAt(codec, spec, cwd, files, body, stage, split, i, results[i]) {
      assert JudgedAt(w, spec, writes, body, stage, split, i, results[i]);
      assert !Free(CallFile(Evaluates(stage, split, i), Input)) && !Free(CallFile(Evaluates(stage, split, i), Stdout));
    }
  }

  /**
   * Whatever is promoted is the archive's final body, and the archive's own requests and answers show it strictly better on
   * train and no worse on validation than the baseline, whose digest was expected and found at both checks of the target.
   */
  lemma PromotionIsImprovement(codec: Codec, sealing: Sealing, files: Archive, manifest: Bytes, expected: string, seen: Bytes, seenAgain: Bytes)
    returns (stage: Stage, before: Scores, after: Scores)
    requires codec.Lawful() && Promote(codec, sealing, files, manifest, expected, seen, seenAgain).Some?
    ensures Premises(codec, files).Some?
    ensures var Inputs(_, spec, context, baseline) := Premises(codec, files).value;
      var final := Promote(codec, sealing, files, manifest, expected, seen, seenAgain).value;
      && FiledScores(codec, spec, context.cwd, files, baseline, OnBaseline, before)
      && FiledScores(codec, spec, context.cwd, files, final, stage, after)
      && Dominates(before, after) && TrainGain(before, after)
      && Key(FinalBody) in files && final == files[Key(FinalBody)]
      && expected == codec.sha(seen) == codec.sha(seenAgain) == codec.sha(baseline)
  {
    hide Search, Verify, RunWrites, FinalOf, Premises, Holds, GoodRecord, Key, NamesOf, Judged, Filed, Dominates, TrainGain;
    VerifiedArchiveIsARun(codec, sealing, files, manifest);
    var Inputs(raw, spec, context, baseline) := Premises(codec, files).value;
    var w := ReplayWorld(codec, spec, context.cwd, files);
    var v := Verify(codec, sealing, files, manifest).value;
    var writes := Search(w, spec, baseline).writes;
    SearchIsRecorded(w, raw, spec, baseline, v.report);
    SearchImproves(w, spec, baseline);
    BaselineDigest(w, spec, baseline);
    FinalWritten(w, spec, baseline);
    assert Holds(files, Write(FinalBody, Some(v.final)));
    stage, before, after :|
      && JudgedScores(w, spec, writes, baseline, OnBaseline, before) && JudgedScores(w, spec, writes, v.final, stage, after)
      && Dominates(before, after) && TrainGain(before, after);
    JudgedIsFiled(codec, spec, context.cwd, files, writes, baseline, OnBaseline, Train, before.train);
    JudgedIsFiled(codec, spec, context.cwd, files, writes, baseline, OnBaseline, Validation, before.validation);
    JudgedIsFiled(codec, spec, context.cwd, files, writes, v.final, stage, Train, after.train);
    JudgedIsFiled(codec, spec, context.cwd, files, writes, v.final, stage, Validation, after.validation);
    FinalHeld(files, v.final);
  }

  lemma FinalHeld(files: Archive, final: Bytes)
    requires Holds(files, Write(FinalBody, Some(final)))
    ensures Key(FinalBody) in files && files[Key(FinalBody)] == final
  {
    hide Key;
  }

  /** A sealed eligible run is promoted, to its final body, exactly when its manifest fits and the target still holds the baseline's digest. */
  lemma RecordedRunIsPromoted(w: World, sealing: Sealing, raw: Bytes, spec: Spec, baseline: Bytes, report: Report, seen: Bytes, seenAgain: Bytes)
    requires w.codec.Lawful() && sealing.Lawful()
    requires Completed(w, raw, spec, baseline, report) && report.Eligible()
    requires Seal(w.codec, sealing, Recorded(w, raw, spec, baseline, report)).Some?
    ensures var files := Recorded(w, raw, spec, baseline, report);
      Promote(w.codec, sealing, files, Seal(w.codec, sealing, files).value, w.codec.sha(baseline), seen, seenAgain) ==
        if ManifestSize(KeysOf(RunWrites(w, raw, spec, baseline, report))) <= MAX_RECORD
          && (forall target <- [seen, seenAgain] :: |target| <= MAX_BODY && w.codec.sha(target) == w.codec.sha(baseline))
        then Some(FinalOf(w, spec, baseline)) else None
  {
    hide Search, Verify, Recorded, FinalOf, KeysOf, ManifestSize, RunWrites, AllSmall;
    RecordedRunVerifies(w, sealing, raw, spec, baseline, report);
    BaselineDigest(w, spec, baseline);
    assert seen == [seen, seenAgain][0] && seenAgain == [seen, seenAgain][1];
  }

  lemma BaselineDigest(w: World, spec: Spec, baseline: Bytes)
    requires Search(w, spec, baseline).result.Some?
    ensures Search(w, spec, baseline).result.value.baseline == w.codec.sha(baseline)
  {
    hide Decisions, Holdout;
  }
}
