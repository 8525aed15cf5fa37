/** The workflow as it runs: evidence that records or checks each file in turn, and the search loop over it. */
module ImproveRun {
  import opened Common
  import opened ImproveNames
  import opened ImproveSearch
  import opened ImproveReplay
  import opened ImproveTheorems

  // ---- What putting files does -----------------------------------------------------------

  predicate Disjoint(files: Archive, writes: seq<Write>) {
    forall i :: 0 <= i < |writes| ==> Key(writes[i].name) !in files
  }

  /** Recording needs new names and records that fit; replay needs the archived files to be the ones it derives. */
  predicate Admits(replay: bool, files: Archive, writes: seq<Write>) {
    if replay then Matches(files, writes) else FreshKeys(writes) && Disjoint(files, writes) && AllSmall(writes)
  }

  function Store(files: Archive, writes: seq<Write>): Archive {
    if writes == [] then files
    else Store(files, writes[..|writes| - 1])[Key(writes[|writes| - 1].name) := writes[|writes| - 1].bytes.GetOr("")]
  }

  function Stored(replay: bool, files: Archive, writes: seq<Write>): Archive {
    if replay then files else Store(files, writes)
  }

  lemma {:induction false} StoreKeys(files: Archive, writes: seq<Write>)
    ensures Store(files, writes).Keys == files.Keys + NamesOf(writes)
  {
    hide Key;
    if writes != [] {
      StoreKeys(files, writes[..|writes| - 1]);
      NamesStep(writes);
    } else {
      assert NamesOf(writes) == {};
    }
  }

  lemma {:induction false} StoreAppend(files: Archive, a: seq<Write>, b: seq<Write>)
    ensures Store(files, a + b) == Store(Store(files, a), b)
  {
    hide Key;
    if b == [] {
      assert a + b == a;
    } else {
      assert (a + b)[..|a + b| - 1] == a + b[..|b| - 1];
      StoreAppend(files, a, b[..|b| - 1]);
    }
  }

  lemma AdmitsAppend(replay: bool, files: Archive, a: seq<Write>, b: seq<Write>)
    ensures Admits(replay, files, a + b) <==> Admits(replay, files, a) && Admits(replay, Stored(replay, files, a), b)
  {
    hide Key, Store, FreshKeys, Disjoint, AllSmall, Matches;
    if replay {
      MatchesAppend(files, a, b);
    } else {
      StoreKeys(files, a);
      RecordAppend(files, a, b);
      SmallAppend(a, b);
    }
  }

  lemma SmallAppend(a: seq<Write>, b: seq<Write>)
    ensures AllSmall(a + b) <==> AllSmall(a) && AllSmall(b)
  {
    var all := a + b;
    assert forall i :: 0 <= i < |a| ==> all[i] == a[i];
    assert forall i :: 0 <= i < |b| ==> all[|a| + i] == b[i];
  }

  lemma MatchesAppend(files: Archive, a: seq<Write>, b: seq<Write>)
    ensures Matches(files, a + b) <==> Matches(files, a) && Matches(files, b)
  {
    hide Key, Holds;
    var all := a + b;
    assert forall i :: 0 <= i < |a| ==> all[i] == a[i];
    assert forall i :: 0 <= i < |b| ==> all[|a| + i] == b[i];
  }

  lemma RecordAppend(files: Archive, a: seq<Write>, b: seq<Write>)
    requires Store(files, a).Keys == files.Keys + NamesOf(a)
    ensures FreshKeys(a + b) && Disjoint(files, a + b) <==>
      FreshKeys(a) && Disjoint(files, a) && FreshKeys(b) && Disjoint(Store(files, a), b)
  {
    hide Key, Store;
    var all := a + b;
    assert forall i :: 0 <= i < |a| ==> all[i] == a[i];
    assert forall i :: 0 <= i < |b| ==> all[|a| + i] == b[i];
    if FreshKeys(all) && Disjoint(files, all) {
      forall i, j | 0 <= i < j < |b| ensures Key(b[i].name) != Key(b[j].name) {
        assert Key(all[|a| + i].name) != Key(all[|a| + j].name);
      }
      forall i | 0 <= i < |b| ensures Key(b[i].name) !in Store(files, a) {
        assert all[|a| + i] == b[i];
        forall j | 0 <= j < |a| ensures Key(a[j].name) != Key(b[i].name) { assert Key(all[j].name) != Key(all[|a| + i].name); }
      }
    }
    if FreshKeys(a) && Disjoint(files, a) && FreshKeys(b) && Disjoint(Store(files, a), b) {
      forall i, j | 0 <= i < |a| && 0 <= j < |b| ensures Key(a[i].name) != Key(b[j].name) {
        assert Key(a[i].name) in NamesOf(a);
        assert Key(b[j].name) !in Store(files, a);
      }
      forall i | 0 <= i < |all| ensures Key(all[i].name) !in files {
        if i < |a| { assert all[i] == a[i]; } else { assert all[i] == b[i - |a|]; }
      }
    }
  }

  /** How a computation over the evidence must turn out, given the script it carries out. */
  ghost predicate Did<T(!new)>(replay: bool, s: Script<T>, before: Archive, usedBefore: set<string>,
                               after: Archive, usedAfter: set<string>, result: Option<T>)
  {
    && (result.Some? <==> s.result.Some? && Admits(replay, before, s.writes))
    && (result.Some? ==>
          && result == s.result && after == Stored(replay, before, s.writes)
          && usedAfter == usedBefore + NamesOf(s.writes))
  }

  /** Files put so far, on the way through a script. */
  ghost predicate Put(replay: bool, writes: seq<Write>, before: Archive, usedBefore: set<string>, after: Archive, usedAfter: set<string>) {
    Admits(replay, before, writes) && after == Stored(replay, before, writes) && usedAfter == usedBefore + NamesOf(writes)
  }

  lemma PutAppend(replay: bool, a: seq<Write>, b: seq<Write>, f0: Archive, u0: set<string>, f1: Archive, u1: set<string>, f2: Archive, u2: set<string>)
    requires Put(replay, a, f0, u0, f1, u1) && Put(replay, b, f1, u1, f2, u2)
    ensures Put(replay, a + b, f0, u0, f2, u2)
  {
    hide Admits;
    AdmitsAppend(replay, f0, a, b);
    StoreAppend(f0, a, b);
    NamesAppend(a, b);
  }

  lemma NotAdmitted(replay: bool, a: seq<Write>, b: seq<Write>, c: seq<Write>, f0: Archive, u0: set<string>, f1: Archive, u1: set<string>)
    requires Put(replay, a, f0, u0, f1, u1) && !Admits(replay, f1, b)
    ensures !Admits(replay, f0, a + b) && !Admits(replay, f0, a + (b + c))
  {
    hide Admits;
    AdmitsAppend(replay, f0, a, b);
    AdmitsAppend(replay, f1, b, c);
    AdmitsAppend(replay, f0, a, b + c);
  }

  lemma PutNothing(replay: bool, f: Archive, u: set<string>)
    ensures Put(replay, [], f, u, f, u)
  {
    assert NamesOf([]) == {};
  }

  // ---- The evidence ----------------------------------------------------------------------

  class Evidence {
    const replay: bool
    const world: World
    var archive: Archive
    var used: set<string>
    /** The spec whose commands a replay answers. */
    ghost const plan: Spec

    /** In replay the answers are the archive's own. */
    ghost predicate Valid()
      reads this
    {
      replay ==> forall l :: world.answers(l) == ArchivedExit(world.codec, plan, world.cwd, archive, l)
    }

    constructor Record(w: World, spec: Spec)
      ensures !replay && world == w && plan == spec && archive == map[] && used == {} && Valid()
    {
      replay, world, plan, archive, used := false, w, spec, map[], {};
    }

    constructor Replay(codec: Codec, spec: Spec, cwd: string, files: Archive)
      ensures replay && world == ReplayWorld(codec, spec, cwd, files) && plan == spec
      ensures archive == files && used == {} && Valid()
    {
      replay, world, plan, archive, used := true, ReplayWorld(codec, spec, cwd, files), spec, files, {};
    }

    /** Files one record, or checks that the archive holds it. A record that cannot be printed or is too long is refused. */
    method PutFile(n: Name, bytes: Option<Bytes>) returns (ok: bool)
      requires Valid() && (replay ==> Compared(n))
      modifies this
      ensures Valid() && ok == Admits(replay, old(archive), [Write(n, bytes)])
      ensures ok ==> Small(bytes) && Put(replay, [Write(n, bytes)], old(archive), old(used), archive, used)
    {
      hide Key, ArchivedExit;
      ghost var writes := [Write(n, bytes)];
      assert writes[0] == Write(n, bytes);
      if bytes.None? || |bytes.value| > MAX_RECORD {
        assert !Small(writes[0].bytes) && !Holds(archive, writes[0]);
        return false;
      }
      used := used + {Key(n)};
      assert NamesOf(writes) == {Key(n)} by { assert writes[0].name == n; }
      StoreOne(archive, Write(n, bytes));
      if replay {
        ok := Key(n) in archive && archive[Key(n)] == bytes.value;
        assert Holds(archive, writes[0]) == ok;
      } else {
        ok := Key(n) !in archive;
        if ok { archive := archive[Key(n) := bytes.value]; }
      }
    }

    /** Runs a command, or takes its archived answer; `None` is a raised error. */
    method Call(spec: Spec, l: Label, request: Request) returns (out: Option<Bytes>)
      requires Valid() && spec == plan
      modifies this
      ensures Valid()
      ensures out.Some? <==> world.answers(l).error.None? && Admits(replay, old(archive), CallWrites(world, spec, l, request))
      ensures out.Some? ==>
        && out.value == world.answers(l).stdout
        && Put(replay, CallWrites(world, spec, l, request), old(archive), old(used), archive, used)
    {
      hide CallWrites, Admits, Put, ArchivedExit;
      if replay { out := Recall(spec, l, request); } else { out := Execute(spec, l, request); }
    }

    /** The archived answer, if the archive holds this very request and a record that says what was asked. */
    method Recall(spec: Spec, l: Label, request: Request) returns (out: Option<Bytes>)
      requires Valid() && replay && spec == plan
      modifies this`used
      ensures out.Some? <==> world.answers(l).error.None? && Admits(replay, archive, CallWrites(world, spec, l, request))
      ensures out.Some? ==>
        && out.value == world.answers(l).stdout
        && Put(replay, CallWrites(world, spec, l, request), archive, old(used), archive, used)
    {
      hide Key, RecordOf;
      ghost var writes := CallWrites(world, spec, l, request);
      CallNames(world, spec, l, request);
      CallMatches(archive, world, spec, l, request);
      assert world.answers(l) == ArchivedExit(world.codec, plan, world.cwd, archive, l);
      var raw := world.codec.dump(RequestDoc(request));
      if raw.None? || |raw.value| > MAX_RECORD { return None; }
      var input, stdout, command := Key(CallFile(l, Input)), Key(CallFile(l, Stdout)), Key(CallFile(l, Command));
      used := used + {input};
      if !(input in archive && archive[input] == raw.value) { return None; }
      used := used + {stdout, Key(CallFile(l, Stderr)), command};
      if command !in archive || |archive[command]| > MAX_RECORD { return None; }
      var meta := world.codec.readRecord(archive[command]);
      var asked := CommandRecord(spec.Argv(l), world.cwd, spec.timeout, Some(Integer(0)), None);
      if meta.None? || !SameRecord(meta.value, asked) { return None; }
      if stdout !in archive || |archive[stdout]| > MAX_RECORD { return None; }
      return Some(archive[stdout]);
    }

    /** Runs the command and files its request, its output and how it ended. */
    method Execute(spec: Spec, l: Label, request: Request) returns (out: Option<Bytes>)
      requires !replay
      modifies this
      ensures out.Some? <==> world.answers(l).error.None? && Admits(false, old(archive), CallWrites(world, spec, l, request))
      ensures out.Some? ==>
        && out.value == world.answers(l).stdout
        && Put(false, CallWrites(world, spec, l, request), old(archive), old(used), archive, used)
    {
      hide Key, RecordOf, Admits, Put, Stored;
      ghost var f0, u0 := archive, used;
      ghost var writes := CallWrites(world, spec, l, request);
      ghost var a, b, c, d := [writes[0]], [writes[1]], [writes[2]], [writes[3]];
      assert writes == a + b + c + d;
      var exit := world.answers(l);
      AdmitsAppend(false, f0, a, b);
      AdmitsAppend(false, f0, a + b, c);
      AdmitsAppend(false, f0, a + b + c, d);
      var ok := PutFile(CallFile(l, Input), world.codec.dump(RequestDoc(request)));
      if !ok { return None; }
      PutStored(a, f0, u0, archive, used);
      ghost var f1, u1 := archive, used;
      ok := PutFile(CallFile(l, Stdout), Some(exit.stdout));
      if !ok { return None; }
      PutAppend(false, a, b, f0, u0, f1, u1, archive, used);
      PutStored(a + b, f0, u0, archive, used);
      ghost var f2, u2 := archive, used;
      ok := PutFile(CallFile(l, Stderr), Some(exit.stderr));
      if !ok { return None; }
      PutAppend(false, a + b, c, f0, u0, f2, u2, archive, used);
      PutStored(a + b + c, f0, u0, archive, used);
      ghost var f3, u3 := archive, used;
      ok := PutFile(CallFile(l, Command), world.codec.dump(RecordDoc(RecordOf(world, spec, l))));
      if !ok { return None; }
      PutAppend(false, a + b + c, d, f0, u0, f3, u3, archive, used);
      if exit.error.Some? { return None; }
      return Some(exit.stdout);
    }
  }

  /** After files were put, the archive is what putting them makes of it. */
  lemma PutStored(writes: seq<Write>, f0: Archive, u0: set<string>, f1: Archive, u1: set<string>)
    requires Put(false, writes, f0, u0, f1, u1)
    ensures f1 == Stored(false, f0, writes)
  {
    hide Store, Admits, NamesOf;
  }

  /** Of a command's files, replay compares the request and the output. */
  lemma CallMatches(files: Archive, w: World, spec: Spec, l: Label, request: Request)
    ensures Matches(files, CallWrites(w, spec, l, request)) <==>
      && Holds(files, Write(CallFile(l, Input), w.codec.dump(RequestDoc(request))))
      && Holds(files, Write(CallFile(l, Stdout), Some(w.answers(l).stdout)))
  {
    hide Holds, RecordOf;
    var writes := CallWrites(w, spec, l, request);
    assert Compared(writes[0].name) && Compared(writes[1].name);
  }

  lemma CallNames(w: World, spec: Spec, l: Label, request: Request)
    ensures NamesOf(CallWrites(w, spec, l, request)) ==
      {Key(CallFile(l, Input)), Key(CallFile(l, Stdout)), Key(CallFile(l, Stderr)), Key(CallFile(l, Command))}
  {
    hide Key, RecordOf;
    var writes := CallWrites(w, spec, l, request);
    assert writes[0].name == CallFile(l, Input) && writes[1].name == CallFile(l, Stdout);
    assert writes[2].name == CallFile(l, Stderr) && writes[3].name == CallFile(l, Command);
  }

  lemma StoreOne(files: Archive, w: Write)
    ensures Store(files, [w]) == files[Key(w.name) := w.bytes.GetOr("")]
  {
    hide Key;
    assert [w][..0] == [];
  }

  // ---- The search ------------------------------------------------------------------------

  method EvaluateCases(e: Evidence, spec: Spec, body: string, stage: Stage, split: Split) returns (r: Option<seq<Evaluation>>)
    requires e.Valid() && spec == e.plan
    modifies e
    ensures e.Valid()
    ensures Did(e.replay, EvaluateSplit(e.world, spec, body, stage, split), old(e.archive), old(e.used), e.archive, e.used, r)
  {
    hide Admits, CallWrites, Stored, NamesOf, Put, Did, EvaluateOne;
    var results: seq<Evaluation> := [];
    ghost var all := EvaluateSplit(e.world, spec, body, stage, split);
    ghost var done: seq<Write> := [];
    PutNothing(e.replay, e.archive, e.used);
    assert all.writes == [] + all.writes;
    var i := 0;
    while i < |spec.Cases(split)|
      invariant i <= |spec.Cases(split)| && |results| == i && e.Valid()
      invariant var rest := EvaluateFrom(e.world, spec, body, stage, split, i, results);
        all.writes == done + rest.writes && all.result == rest.result
      invariant Put(e.replay, done, old(e.archive), old(e.used), e.archive, e.used)
    {
      ghost var one := EvaluateOne(e.world, spec, body, stage, split, i);
      ghost var rest := EvaluateFrom(e.world, spec, body, stage, split, i, results);
      ghost var f, u := e.archive, e.used;
      var l := Evaluates(stage, split, i);
      var out := e.Call(spec, l, Evaluate(body, spec.Cases(split)[i]));
      OneIsItsCall(e.world, spec, body, stage, split, i);
      if out.None? {
        if one.result.Some? {
          NotAdmitted(e.replay, done, one.writes,
            EvaluateFrom(e.world, spec, body, stage, split, i + 1, results + [one.result.value]).writes,
            old(e.archive), old(e.used), f, u);
        }
        DidNot(e.replay, all, old(e.archive), old(e.used), e.archive, e.used);
        return None;
      }
      var parsed := e.world.codec.parseEvaluation(out.value);
      if parsed.None? {
        DidNot(e.replay, all, old(e.archive), old(e.used), e.archive, e.used);
        return None;
      }
      PutAppend(e.replay, done, one.writes, old(e.archive), old(e.used), f, u, e.archive, e.used);
      ghost var next := EvaluateFrom(e.world, spec, body, stage, split, i + 1, results + [parsed.value]);
      assert done + (one.writes + next.writes) == (done + one.writes) + next.writes;
      done := done + one.writes;
      results := results + [parsed.value];
      i := i + 1;
    }
    assert done + [] == done;
    DidAll(e.replay, all, old(e.archive), old(e.used), e.archive, e.used);
    return Some(results);
  }

  lemma OneIsItsCall(w: World, spec: Spec, body: string, stage: Stage, split: Split, i: nat)
    requires i < |spec.Cases(split)|
    ensures var one, l := EvaluateOne(w, spec, body, stage, split, i), Evaluates(stage, split, i);
      && one.writes == CallWrites(w, spec, l, Evaluate(body, spec.Cases(split)[i]))
      && one.result == if w.answers(l).error.Some? then None else w.codec.parseEvaluation(w.answers(l).stdout)
  {
  }

  lemma DidAll<T(!new)>(replay: bool, s: Script<T>, f0: Archive, u0: set<string>, f1: Archive, u1: set<string>)
    requires s.result.Some? && Put(replay, s.writes, f0, u0, f1, u1)
    ensures Did(replay, s, f0, u0, f1, u1, s.result)
  {
    hide Admits, Stored, NamesOf;
  }

  lemma DidNot<T(!new)>(replay: bool, s: Script<T>, f0: Archive, u0: set<string>, f1: Archive, u1: set<string>)
    requires s.result.None? || !Admits(replay, f0, s.writes)
    ensures Did(replay, s, f0, u0, f1, u1, None)
  {
    hide Admits, Stored, NamesOf;
  }

  method EvaluateBoth(e: Evidence, spec: Spec, body: string, stage: Stage) returns (r: Option<Scores>)
    requires e.Valid() && spec == e.plan
    modifies e
    ensures e.Valid() && Did(e.replay, Score(e.world, spec, body, stage), old(e.archive), old(e.used), e.archive, e.used, r)
  {
    hide Admits, Stored, NamesOf, EvaluateFrom;
    ghost var a := EvaluateSplit(e.world, spec, body, stage, Train);
    ghost var b := EvaluateSplit(e.world, spec, body, stage, Validation);
    var train := EvaluateCases(e, spec, body, stage, Train);
    if train.None? {
      AdmitsAppend(e.replay, old(e.archive), a.writes, b.writes);
      return None;
    }
    ghost var f, u := e.archive, e.used;
    var validation := EvaluateCases(e, spec, body, stage, Validation);
    AdmitsAppend(e.replay, old(e.archive), a.writes, b.writes);
    if validation.None? { return None; }
    PutAppend(e.replay, a.writes, b.writes, old(e.archive), old(e.used), f, u, e.archive, e.used);
    return Some(Scores(train.value, validation.value));
  }

  method PassRegression(before: seq<Evaluation>, after: seq<Evaluation>) returns (found: bool)
    requires |before| == |after|
    ensures found == Regresses(before, after)
  {
    for i := 0 to |before|
      invariant forall j :: 0 <= j < i ==> !(before[j].passed && !after[j].passed)
    {
      if before[i].passed && !after[i].passed { return true; }
    }
    return false;
  }

  method SumUp(results: seq<Evaluation>) returns (total: real, passed: nat)
    ensures total == Total(results) && passed == Passed(results)
  {
    total, passed := 0.0, 0;
    for i := 0 to |results|
      invariant total == Total(results[..i]) && passed == Passed(results[..i])
    {
      assert results[..i + 1][..i] == results[..i];
      total := total + ValueOf(results[i].cost);
      if results[i].passed { passed := passed + 1; }
    }
    assert results[..|results|] == results;
  }

  method RunGate(parent: Scores, candidate: Scores) returns (accepted: bool, reason: string)
    requires SameSize(parent, candidate)
    ensures (accepted, reason) == Gate(parent, candidate)
  {
    var oldTrain, oldPassed := SumUp(parent.train);
    var newTrain, newPassed := SumUp(candidate.train);
    var lost := PassRegression(parent.train, candidate.train);
    if lost { return false, "train pass regression"; }
    if newTrain > oldTrain { return false, "train cost increase"; }
    var oldValidation, _ := SumUp(parent.validation);
    var newValidation, _ := SumUp(candidate.validation);
    lost := PassRegression(parent.validation, candidate.validation);
    if lost { return false, "validation pass regression"; }
    if newValidation > oldValidation { return false, "validation cost increase"; }
    if newPassed > oldPassed || newTrain < oldTrain { return true, "train improvement; both splits Pareto-safe"; }
    return false, "no strict train improvement";
  }

  method RunRound(e: Evidence, spec: Spec, k: nat, st: State) returns (r: Option<State>)
    requires e.Valid() && spec == e.plan && Sized(spec, st.scores)
    modifies e
    ensures e.Valid() && Did(e.replay, Round(e.world, spec, k, st), old(e.archive), old(e.used), e.archive, e.used, r)
  {
    hide Admits, Stored, NamesOf, CallWrites, Score, Gate;
    ghost var w := e.world;
    ghost var f0, u0 := e.archive, e.used;
    ghost var proposed := ProposeFor(w, spec, k, st);
    var out := e.Call(spec, Proposes(k), Propose(st.parent, k, FeedbackOf(spec, st.scores)));
    if out.None? {
      RoundStartsWith(e.replay, w, spec, k, st, f0);
      return None;
    }
    var parsed := e.world.codec.ProposalIn(out.value);
    if parsed.None? { return None; }
    var p := parsed.value;
    ghost var f1, u1 := e.archive, e.used;
    ghost var scored := Score(w, spec, p.instructions, OnRound(k));
    ghost var bodyFile := [Write(RoundBody(k), Some(p.instructions))];
    AdmitsAppend(e.replay, f0, proposed.writes, bodyFile);
    AdmitsAppend(e.replay, f0, proposed.writes + bodyFile, scored.writes);
    var ok := e.PutFile(RoundBody(k), Some(p.instructions));
    if !ok {
      RoundStartsWithBody(e.replay, w, spec, k, st, f0);
      return None;
    }
    PutAppend(e.replay, proposed.writes, bodyFile, f0, u0, f1, u1, e.archive, e.used);
    ghost var f2, u2 := e.archive, e.used;
    var candidate := EvaluateBoth(e, spec, p.instructions, OnRound(k));
    ghost var writes := proposed.writes + bodyFile + scored.writes;
    if candidate.None? {
      if scored.result.Some? {
        AdmitsAppend(e.replay, f0, writes, [Write(DecisionFile(k), w.codec.dump(DecisionDoc(Decide(w, st, k, p, scored.result.value))))]);
      }
      return None;
    }
    PutAppend(e.replay, proposed.writes + bodyFile, scored.writes, f0, u0, f2, u2, e.archive, e.used);
    ghost var f3, u3 := e.archive, e.used;
    var accepted, reason := RunGate(st.scores, candidate.value);
    if p.instructions == st.parent { accepted, reason := false, "identical instructions"; }
    var d := Decision(k, e.world.codec.sha(st.parent), e.world.codec.sha(p.instructions), accepted, reason, p.rationale, candidate.value);
    assert d == Decide(w, st, k, p, candidate.value);
    AdmitsAppend(e.replay, f0, writes, [Write(DecisionFile(k), w.codec.dump(DecisionDoc(d)))]);
    ok := e.PutFile(DecisionFile(k), e.world.codec.dump(DecisionDoc(d)));
    if !ok { return None; }
    PutAppend(e.replay, writes, [Write(DecisionFile(k), w.codec.dump(DecisionDoc(d)))], f0, u0, f3, u3, e.archive, e.used);
    if accepted { return Some(State(p.instructions, candidate.value, st.rounds + [d], st.accepted + 1)); }
    return Some(st.(rounds := st.rounds + [d]));
  }

  lemma RoundStartsWith(replay: bool, w: World, spec: Spec, k: nat, st: State, f: Archive)
    requires Sized(spec, st.scores)
    requires !(w.answers(Proposes(k)).error.None? && Admits(replay, f, ProposeFor(w, spec, k, st).writes))
    ensures !(Round(w, spec, k, st).result.Some? && Admits(replay, f, Round(w, spec, k, st).writes))
  {
    hide Admits, Score, Decide;
    var proposed := ProposeFor(w, spec, k, st);
    if proposed.result.Some? {
      var p := proposed.result.value;
      var bodyFile := [Write(RoundBody(k), Some(p.instructions))];
      var scored := Score(w, spec, p.instructions, OnRound(k));
      AdmitsAppend(replay, f, proposed.writes, bodyFile);
      AdmitsAppend(replay, f, proposed.writes + bodyFile, scored.writes);
      if scored.result.Some? {
        AdmitsAppend(replay, f, proposed.writes + bodyFile + scored.writes,
                     [Write(DecisionFile(k), w.codec.dump(DecisionDoc(Decide(w, st, k, p, scored.result.value))))]);
      }
    }
  }

  lemma RoundStartsWithBody(replay: bool, w: World, spec: Spec, k: nat, st: State, f: Archive)
    requires Sized(spec, st.scores) && ProposeFor(w, spec, k, st).result.Some?
    requires var proposed := ProposeFor(w, spec, k, st);
      !Admits(replay, f, proposed.writes + [Write(RoundBody(k), Some(proposed.result.value.instructions))])
    ensures !Admits(replay, f, Round(w, spec, k, st).writes)
  {
    hide Admits, Score, Decide;
    var proposed := ProposeFor(w, spec, k, st);
    var p := proposed.result.value;
    var bodyFile := [Write(RoundBody(k), Some(p.instructions))];
    var scored := Score(w, spec, p.instructions, OnRound(k));
    AdmitsAppend(replay, f, proposed.writes + bodyFile, scored.writes);
    if scored.result.Some? {
      AdmitsAppend(replay, f, proposed.writes + bodyFile + scored.writes,
                   [Write(DecisionFile(k), w.codec.dump(DecisionDoc(Decide(w, st, k, p, scored.result.value))))]);
    }
  }

  method RunDecisions(e: Evidence, spec: Spec, baseline: string) returns (r: Option<(Scores, State)>)
    requires e.Valid() && spec == e.plan
    modifies e
    ensures e.Valid() && Did(e.replay, Decisions(e.world, spec, baseline), old(e.archive), old(e.used), e.archive, e.used, r)
  {
    hide Admits, Stored, NamesOf, Score, Round;
    ghost var w, f0, u0 := e.world, e.archive, e.used;
    ghost var first := Score(w, spec, baseline, OnBaseline);
    ghost var all := Decisions(w, spec, baseline);
    var scores := EvaluateBoth(e, spec, baseline, OnBaseline);
    if scores.None? {
      if first.result.Some? {
        AdmitsAppend(e.replay, f0, first.writes, RoundsFrom(w, spec, 1, State(baseline, first.result.value, [], 0)).writes);
      }
      return None;
    }
    var st := State(baseline, scores.value, [], 0);
    ghost var done := first.writes;
    var k := 1;
    while k <= spec.rounds
      invariant 1 <= k <= spec.rounds + 1 && Sized(spec, st.scores) && e.Valid()
      invariant var rest := RoundsFrom(w, spec, k, st);
        && all.writes == done + rest.writes
        && all.result == (if rest.result.None? then None else Some((scores.value, rest.result.value)))
      invariant Put(e.replay, done, f0, u0, e.archive, e.used)
    {
      ghost var one := Round(w, spec, k, st);
      ghost var f, u := e.archive, e.used;
      var next := RunRound(e, spec, k, st);
      if next.None? {
        if one.result.Some? {
          NotAdmitted(e.replay, done, one.writes, RoundsFrom(w, spec, k + 1, one.result.value).writes, f0, u0, f, u);
        }
        return None;
      }
      PutAppend(e.replay, done, one.writes, f0, u0, f, u, e.archive, e.used);
      ghost var rest := RoundsFrom(w, spec, k + 1, next.value);
      assert done + (one.writes + rest.writes) == (done + one.writes) + rest.writes;
      done := done + one.writes;
      st := next.value;
      k := k + 1;
    }
    assert done + [] == done;
    return Some((scores.value, st));
  }

  method RunHoldout(e: Evidence, spec: Spec, baseline: string, final: string) returns (r: Option<(seq<Evaluation>, seq<Evaluation>)>)
    requires e.Valid() && spec == e.plan
    modifies e
    ensures e.Valid() && Did(e.replay, Holdout(e.world, spec, baseline, final), old(e.archive), old(e.used), e.archive, e.used, r)
  {
    hide Admits, Stored, NamesOf, EvaluateFrom;
    ghost var a := EvaluateSplit(e.world, spec, baseline, HoldoutBaseline, Test);
    ghost var b := EvaluateSplit(e.world, spec, final, HoldoutFinal, Test);
    AdmitsAppend(e.replay, e.archive, a.writes, b.writes);
    ghost var f0, u0 := e.archive, e.used;
    var first := EvaluateCases(e, spec, baseline, HoldoutBaseline, Test);
    if first.None? { return None; }
    ghost var f, u := e.archive, e.used;
    var second := EvaluateCases(e, spec, final, HoldoutFinal, Test);
    if second.None? { return None; }
    PutAppend(e.replay, a.writes, b.writes, f0, u0, f, u, e.archive, e.used);
    return Some((first.value, second.value));
  }

  method RunSearch(e: Evidence, spec: Spec, baseline: string) returns (r: Option<Report>)
    requires e.Valid() && spec == e.plan
    modifies e
    ensures e.Valid() && Did(e.replay, Search(e.world, spec, baseline), old(e.archive), old(e.used), e.archive, e.used, r)
  {
    hide Admits, Stored, NamesOf, Decisions, Holdout;
    ghost var w, f0, u0 := e.world, e.archive, e.used;
    ghost var decided := Decisions(w, spec, baseline);
    var state := RunDecisions(e, spec, baseline);
    if state.None? {
      if decided.result.Some? {
        var final := decided.result.value.1.parent;
        ghost var held := Holdout(w, spec, baseline, final);
        AdmitsAppend(e.replay, f0, decided.writes, held.writes);
        AdmitsAppend(e.replay, f0, decided.writes + held.writes, [Write(FinalBody, Some(final))]);
      }
      return None;
    }
    var st := state.value.1;
    ghost var f1, u1 := e.archive, e.used;
    ghost var holdout := Holdout(w, spec, baseline, st.parent);
    AdmitsAppend(e.replay, f0, decided.writes, holdout.writes);
    AdmitsAppend(e.replay, f0, decided.writes + holdout.writes, [Write(FinalBody, Some(st.parent))]);
    var held := RunHoldout(e, spec, baseline, st.parent);
    if held.None? { return None; }
    PutAppend(e.replay, decided.writes, holdout.writes, f0, u0, f1, u1, e.archive, e.used);
    ghost var f2, u2 := e.archive, e.used;
    var ok := e.PutFile(FinalBody, Some(st.parent));
    if !ok { return None; }
    PutAppend(e.replay, decided.writes + holdout.writes, [Write(FinalBody, Some(st.parent))], f0, u0, f2, u2, e.archive, e.used);
    return Some(ReportOf(e.world, spec, baseline, state.value.0, st, held.value));
  }

  method PutHead(e: Evidence, raw: Bytes, spec: Spec, baseline: Bytes, context: Context) returns (ok: bool)
    requires e.Valid() && spec == e.plan
    modifies e
    ensures e.Valid() && ok == Admits(e.replay, old(e.archive), Head(e.world, raw, spec, baseline, context))
    ensures ok ==> Put(e.replay, Head(e.world, raw, spec, baseline, context), old(e.archive), old(e.used), e.archive, e.used)
  {
    hide Admits, Stored, NamesOf, ArchivedExit;
    ghost var f0, u0 := e.archive, e.used;
    ghost var head := Head(e.world, raw, spec, baseline, context);
    ghost var a, b, c, d := [head[0]], [head[1]], [head[2]], [head[3]];
    assert head == a + b + c + d;
    AdmitsAppend(e.replay, f0, a, b);
    AdmitsAppend(e.replay, f0, a + b, c);
    AdmitsAppend(e.replay, f0, a + b + c, d);
    ok := e.PutFile(SpecFile, Some(raw));
    if !ok { return; }
    ghost var f1, u1 := e.archive, e.used;
    ok := e.PutFile(BaselineBody, Some(baseline));
    if !ok { return; }
    PutAppend(e.replay, a, b, f0, u0, f1, u1, e.archive, e.used);
    ghost var f2, u2 := e.archive, e.used;
    ok := e.PutFile(InputsFile, e.world.codec.dump(InputsDoc(spec.train, spec.validation, spec.test)));
    if !ok { return; }
    PutAppend(e.replay, a + b, c, f0, u0, f2, u2, e.archive, e.used);
    ghost var f3, u3 := e.archive, e.used;
    ok := e.PutFile(ContextFile, e.world.codec.dump(ContextDoc(context)));
    if !ok { return; }
    PutAppend(e.replay, a + b + c, d, f0, u0, f3, u3, e.archive, e.used);
  }

  /** The head, the search and the report file, recorded or replayed. */
  method RunAll(e: Evidence, raw: Bytes, spec: Spec, baseline: Bytes, context: Context) returns (r: Option<Report>)
    requires e.Valid() && spec == e.plan
    modifies e
    ensures e.Valid()
    ensures var s := Search(e.world, spec, baseline);
      r.Some? <==>
        s.result.Some? && Admits(e.replay, old(e.archive), FullWrites(e.world, raw, spec, baseline, context, s.result.value))
    ensures r.Some? ==>
      && r == Search(e.world, spec, baseline).result
      && Put(e.replay, FullWrites(e.world, raw, spec, baseline, context, r.value), old(e.archive), old(e.used), e.archive, e.used)
  {
    hide Admits, Stored, NamesOf, Search, Head, ArchivedExit;
    ghost var w, f0, u0 := e.world, e.archive, e.used;
    ghost var head, search := Head(w, raw, spec, baseline, context), Search(w, spec, baseline);
    AdmitsAppend(e.replay, f0, head, search.writes);
    if search.result.Some? {
      AdmitsAppend(e.replay, f0, head + search.writes, [Write(ReportFile, w.codec.dump(ReportDoc(search.result.value)))]);
    }
    var ok := PutHead(e, raw, spec, baseline, context);
    if !ok { return None; }
    ghost var f1, u1 := e.archive, e.used;
    r := RunSearch(e, spec, baseline);
    if r.None? { return None; }
    PutAppend(e.replay, head, search.writes, f0, u0, f1, u1, e.archive, e.used);
    ghost var f2, u2 := e.archive, e.used;
    ghost var last := [Write(ReportFile, w.codec.dump(ReportDoc(r.value)))];
    ok := e.PutFile(ReportFile, e.world.codec.dump(ReportDoc(r.value)));
    if !ok { return None; }
    PutAppend(e.replay, head + search.writes, last, f0, u0, f2, u2, e.archive, e.used);
  }

  lemma {:induction false} StoreIsToArchive(writes: seq<Write>)
    ensures Store(map[], writes) == ToArchive(writes)
  {
    hide Key;
    if writes != [] { StoreIsToArchive(writes[..|writes| - 1]); }
  }

  /**
   * `run`: a new archive. It completes and is sealed exactly when spec, baseline and every answer pass their checks, every
   * record on the way can be printed within 1 MiB, and the manifest can be printed.
   */
  method RunRecorded(w: World, sealing: Sealing, raw: Bytes, baseline: Bytes)
    returns (r: Option<Report>, files: Archive, manifest: Bytes)
    ensures r.Some? <==>
      && w.codec.parseSpec(raw).Some? && w.codec.ValidBody(baseline)
      && var spec := w.codec.parseSpec(raw).value; var s := Search(w, spec, baseline);
      && s.result.Some? && AllSmall(RunWrites(w, raw, spec, baseline, s.result.value))
      && Seal(w.codec, sealing, Recorded(w, raw, spec, baseline, s.result.value)).Some?
    ensures r.Some? ==>
      var spec := w.codec.parseSpec(raw).value;
      && Completed(w, raw, spec, baseline, r.value) && files == Recorded(w, raw, spec, baseline, r.value)
      && Seal(w.codec, sealing, files) == Some(manifest)
  {
    hide Search, NamesOf, ToArchive, FullWrites, ArchivedExit, Key;
    files, manifest := map[], "";
    var spec := w.codec.parseSpec(raw);
    if spec.None? || !w.codec.ValidBody(baseline) { return None, files, manifest; }
    var e := new Evidence.Record(w, spec.value);
    ghost var s := Search(w, spec.value, baseline);
    if s.result.Some? {
      EveryNameOnce(w, raw, spec.value, baseline, Context(w.cwd, map[]), s.result.value);
    }
    r := RunAll(e, raw, spec.value, baseline, Context(w.cwd, map[]));
    if r.None? { return; }
    StoreIsToArchive(RunWrites(w, raw, spec.value, baseline, r.value));
    files := e.archive;
    var sealed := Seal(w.codec, sealing, files);
    if sealed.None? { return None, files, manifest; }
    manifest := sealed.value;
  }

  /** The manifest against the directory: same names, and every file readable and as digested. */
  method CheckSeal(codec: Codec, sealing: Sealing, files: Archive, manifest: Bytes) returns (ok: bool)
    ensures ok == SealHolds(codec, sealing, files, manifest)
  {
    if |manifest| > MAX_RECORD { return false; }
    var hashes := sealing.read(manifest);
    if hashes.None? || hashes.value.Keys != files.Keys { return false; }
    var names := files.Keys;
    while names != {}
      invariant names <= files.Keys
      invariant forall n <- files :: n !in names ==> |files[n]| <= MAX_RECORD && codec.sha(files[n]) == hashes.value[n]
      decreases |names|
    {
      var n :| n in names;
      if |files[n]| > MAX_RECORD || codec.sha(files[n]) != hashes.value[n] { return false; }
      names := names - {n};
    }
    return true;
  }

  /** `_verify`: the checks on a sealed archive and the replay of its search. */
  method VerifyArchive(codec: Codec, sealing: Sealing, files: Archive, manifest: Bytes) returns (r: Option<Verified>)
    ensures r == Verify(codec, sealing, files, manifest)
  {
    hide Search, NamesOf, FullWrites, Key, ArchivedExit, SealHolds, Head;
    var sealed := CheckSeal(codec, sealing, files, manifest);
    if !sealed { return None; }
    var report, final := Key(ReportFile), Key(FinalBody);
    if !(report in files && codec.readReport(files[report]) == Some(true)) { return None; }
    var premises := Premises(codec, files);
    if premises.None? { return None; }
    var Inputs(raw, spec, context, baseline) := premises.value;
    var e := new Evidence.Replay(codec, spec, context.cwd, files);
    var rebuilt := RunAll(e, raw, spec, baseline, context);
    if rebuilt.None? || e.used != files.Keys { return None; }
    if final !in files || |files[final]| > MAX_BODY { return None; }
    return Some(Verified(rebuilt.value, files[final]));
  }
}
