/** What an `ask` command line means, stated by position and not by scanning. */
module AskMeaning {
  import opened Common
  import opened AskScan

  /** An earlier `--` that is no option's value makes everything from here on text. */
  predicate Ended(argv: seq<string>, values: set<nat>, k: nat) {
    exists j :: 0 <= j < k && j < |argv| && j !in values && argv[j] == "--"
  }

  /** Argument `k` is read as an option: it looks like one, is not the value of another, and no `--` came before. */
  predicate ReadAt(argv: seq<string>, values: set<nat>, k: nat) {
    k < |argv| && k !in values && IsOption(argv[k]) && !Ended(argv, values, k)
  }

  /** Option `k` has its value in the next argument. */
  predicate TakesNext(argv: seq<string>, e: Env, k: nat)
    requires k < |argv|
  {
    || argv[k] in {"--task", "--resume", "--resume-id", "--output-schema", "--image", "--swarm-file", "--events", "--progress"}
    || (IsSwarm(argv[k]) && e.swarmAt(k) == Some(true) && k + 1 < |argv|)
  }

  /** The values are exactly the arguments that follow an option that takes one. */
  ghost predicate ReadsAs(argv: seq<string>, e: Env, values: set<nat>) {
    forall k :: k in values <==> ValueAt(argv, e, values, k)
  }

  predicate ValueAt(argv: seq<string>, e: Env, values: set<nat>, k: nat) {
    0 < k < |argv| && ReadAt(argv, values, k - 1) && TakesNext(argv, e, k - 1)
  }

  /** The two ways to ask for a swarm. */
  lemma SwarmSpelled(a: string)
    ensures IsSwarm(a) <==> a == "--swarm" || exists v :: a == "--swarm=" + v
  {
    if StartsWith(a, "--swarm=") { assert a == "--swarm=" + a[8..]; }
    forall v ensures StartsWith("--swarm=" + v, "--swarm=") { }
  }

  /** How often `--image` was read before `k`. */
  function ImagesTo(argv: seq<string>, values: set<nat>, k: nat): nat {
    if k == 0 then 0
    else ImagesTo(argv, values, k - 1) + if ReadAt(argv, values, k - 1) && argv[k - 1] == "--image" then 1 else 0
  }

  function FilesTo(argv: seq<string>, values: set<nat>, k: nat): seq<string> {
    if k == 0 then []
    else
      FilesTo(argv, values, k - 1)
        + (if ReadAt(argv, values, k - 1) && argv[k - 1] == "--swarm-file" && k < |argv| then [argv[k]] else [])
  }

  /** The option is a known one, its value is there if it takes one, and it is one of the values it can have. */
  predicate Acceptable(argv: seq<string>, e: Env, values: set<nat>, k: nat)
    requires k < |argv|
  {
    var a, next := argv[k], if k + 1 < |argv| then Some(argv[k + 1]) else None;
    || a in {"--json", "--stdin", "--preset-input", "--no-color", "--continue-recovery", "--steer", "--background", "-B",
             "--print-usage", "--auto", "--yolo", "--ephemeral", "--no-save", "--", "--events=jsonl", "--progress=none", "--progress=auto"}
    || (a in {"--task", "--resume", "--resume-id", "--output-schema"} && next.Some?)
    || (a == "--image" && next.Some? && ImagesTo(argv, values, k) < 16)
    || (a == "--events" && next == Some("jsonl"))
    || (a == "--progress" && (next == Some("none") || next == Some("auto")))
    || (a == "--swarm-file" && next.Some? && e.defined)
    || (IsSwarm(a) && e.swarmAt(k).Some?)
  }

  predicate SeenEphemeral(argv: seq<string>, values: set<nat>, n: nat) {
    exists k :: 0 <= k < n && ReadAt(argv, values, k) && (argv[k] == "--ephemeral" || argv[k] == "--no-save")
  }

  predicate SeenSwarm(argv: seq<string>, values: set<nat>, n: nat) {
    exists k :: 0 <= k < n && ReadAt(argv, values, k) && IsSwarm(argv[k])
  }

  /** What a command line was understood to say is what it says up to `n`, and every option up to there is acceptable. */
  ghost predicate SaysTo(argv: seq<string>, e: Env, f: Facts, n: nat) {
    && (forall k :: 0 <= k < n && ReadAt(argv, f.values, k) ==> Acceptable(argv, e, f.values, k))
    && (f.ephemeral <==> SeenEphemeral(argv, f.values, n))
    && (f.swarm <==> SeenSwarm(argv, f.values, n))
    && f.files == FilesTo(argv, f.values, n)
  }

  ghost predicate Means(argv: seq<string>, e: Env, f: Facts) {
    ReadsAs(argv, e, f.values) && SaysTo(argv, e, f, |argv|)
  }

  // ---- Reading depends on what came before -----------------------------------------------

  predicate AgreeTo(v: set<nat>, w: set<nat>, n: nat) {
    forall k :: 0 <= k < n ==> (k in v <==> k in w)
  }

  lemma ReadAlike(argv: seq<string>, v: set<nat>, w: set<nat>, n: nat, k: nat)
    requires AgreeTo(v, w, n) && k < n
    ensures ReadAt(argv, v, k) == ReadAt(argv, w, k) && Ended(argv, v, k) == Ended(argv, w, k)
  {
    if Ended(argv, v, k) { var j :| 0 <= j < k && j < |argv| && j !in v && argv[j] == "--"; assert j !in w; }
    if Ended(argv, w, k) { var j :| 0 <= j < k && j < |argv| && j !in w && argv[j] == "--"; assert j !in v; }
  }

  lemma {:induction false} CountsAlike(argv: seq<string>, v: set<nat>, w: set<nat>, n: nat, k: nat)
    requires AgreeTo(v, w, n) && k <= n
    ensures ImagesTo(argv, v, k) == ImagesTo(argv, w, k) && FilesTo(argv, v, k) == FilesTo(argv, w, k)
  {
    hide ReadAt;
    if k > 0 {
      CountsAlike(argv, v, w, n, k - 1);
      ReadAlike(argv, v, w, n, k - 1);
    }
  }

  lemma SaysAlike(argv: seq<string>, e: Env, f: Facts, w: set<nat>, n: nat)
    requires AgreeTo(f.values, w, n) && n <= |argv| && SaysTo(argv, e, f, n)
    ensures SaysTo(argv, e, f.(values := w), n)
  {
    hide ReadAt;
    forall k | 0 <= k < n
      ensures ReadAt(argv, f.values, k) == ReadAt(argv, w, k)
      ensures ImagesTo(argv, f.values, k) == ImagesTo(argv, w, k)
    {
      ReadAlike(argv, f.values, w, n, k);
      CountsAlike(argv, f.values, w, n, k);
    }
    CountsAlike(argv, f.values, w, n, n);
  }

  /** A command line can be read in one way only. */
  lemma {:induction false} OneReading(argv: seq<string>, e: Env, v: set<nat>, w: set<nat>, n: nat)
    requires ReadsAs(argv, e, v)
    requires forall k :: 0 <= k < n ==> (k in w <==> ValueAt(argv, e, w, k))
    ensures AgreeTo(v, w, n)
  {
    hide ReadAt, TakesNext;
    if n > 0 {
      OneReading(argv, e, v, w, n - 1);
      var k := n - 1;
      assert (k in v <==> ValueAt(argv, e, v, k)) && (k in w <==> ValueAt(argv, e, w, k));
      if k > 0 { ReadAlike(argv, v, w, k, k - 1); }
    }
  }

  // ---- The scan keeps the meaning --------------------------------------------------------

  /** Before argument `n`, with no `--` yet: what was said so far. */
  ghost predicate SaidTo(argv: seq<string>, e: Env, n: nat, f: Facts, images: nat) {
    && n <= |argv| && (forall k :: k in f.values ==> k < n)
    && (forall k :: 0 <= k < n ==> (k in f.values <==> ValueAt(argv, e, f.values, k)))
    && !Ended(argv, f.values, n)
    && SaysTo(argv, e, f, n) && images == ImagesTo(argv, f.values, n)
  }

  /** And argument `i` is not the value of the option before it. */
  ghost predicate Scanned(argv: seq<string>, e: Env, i: nat, f: Facts, images: nat) {
    SaidTo(argv, e, i, f, images) && !ValueAt(argv, e, f.values, i)
  }

  /** Which `NAME=VALUE` spellings are known. */
  lemma InlineValues(a: string)
    ensures StartsWith("--events=jsonl", "--events=")
    ensures StartsWith("--progress=none", "--progress=") && StartsWith("--progress=auto", "--progress=")
    ensures StartsWith(a, "--events=") ==> (a[|"--events"| + 1..] in {"jsonl"} <==> a == "--events=jsonl")
    ensures StartsWith(a, "--progress=") ==>
      (a[|"--progress"| + 1..] in {"none", "auto"} <==> a == "--progress=none" || a == "--progress=auto")
  {
    if StartsWith(a, "--events=") { assert a == "--events=" + a[9..] && "--events=jsonl" == "--events=" + "jsonl"; }
    if StartsWith(a, "--progress=") {
      assert a == "--progress=" + a[11..];
      assert "--progress=none" == "--progress=" + "none" && "--progress=auto" == "--progress=" + "auto";
    }
  }

  /** The three families of spellings do not meet, and none of their members is any other option. */
  lemma FamiliesApart(a: string)
    ensures StartsWith(a, "--events=") ==>
      !StartsWith(a, "--progress=") && !IsSwarm(a) && |a| >= 9 && a[2] == 'e' && a[3] == 'v'
    ensures StartsWith(a, "--progress=") ==> !IsSwarm(a) && |a| >= 11 && a[2] == 'p' && a[4] == 'o'
    ensures IsSwarm(a) ==> |a| >= 7 && a[2] == 's' && a[3] == 'w' && (|a| == 7 || a[7] == '=')
  {
    PrefixChar(a, "--events=", 2);
    PrefixChar(a, "--events=", 3);
    PrefixChar(a, "--progress=", 2);
    PrefixChar(a, "--progress=", 4);
    PrefixChar(a, "--swarm=", 2);
    PrefixChar(a, "--swarm=", 3);
    PrefixChar(a, "--swarm=", 7);
  }

  /** One option is refused exactly when it is not acceptable, and otherwise has just these effects. */
  ghost predicate OptionSays(argv: seq<string>, e: Env, i: nat, f: Facts, images: nat)
    requires i < |argv|
  {
    var s, a := AskOption(argv, e, i, f, images), argv[i];
    && (s.Reject? <==> !Acceptable(argv, e, f.values, i))
    && (s.Go? ==>
          && s.skip == (if TakesNext(argv, e, i) then 1 else 0) && i + 1 + s.skip <= |argv|
          && s.facts == Facts(
               if TakesNext(argv, e, i) then f.values + {i + 1} else f.values,
               f.ephemeral || a == "--ephemeral" || a == "--no-save", f.swarm || IsSwarm(a),
               if a == "--swarm-file" && i + 1 < |argv| then f.files + [argv[i + 1]] else f.files)
          && s.images == (if a == "--image" then images + 1 else images) && s.raw == (a == "--")
          && (a == "--swarm-file" ==> i + 1 < |argv|))
  }

  lemma SwarmSays(argv: seq<string>, e: Env, i: nat, f: Facts, images: nat)
    requires i < |argv| && IsSwarm(argv[i])
    ensures OptionSays(argv, e, i, f, images)
  {
    hide StartsWith, ImagesTo;
    FamiliesApart(argv[i]);
    InlineValues(argv[i]);
  }

  lemma InlineSays(argv: seq<string>, e: Env, i: nat, f: Facts, images: nat)
    requires i < |argv| && (StartsWith(argv[i], "--events=") || StartsWith(argv[i], "--progress="))
    ensures OptionSays(argv, e, i, f, images)
  {
    hide StartsWith, ImagesTo, IsSwarm;
    FamiliesApart(argv[i]);
    InlineValues(argv[i]);
  }

  lemma PlainSays(argv: seq<string>, e: Env, i: nat, f: Facts, images: nat)
    requires i < |argv| && images == ImagesTo(argv, f.values, i)
    requires !IsSwarm(argv[i]) && !StartsWith(argv[i], "--events=") && !StartsWith(argv[i], "--progress=")
    ensures OptionSays(argv, e, i, f, images)
  {
    hide StartsWith, ImagesTo, IsSwarm;
    InlineValues("");
  }

  lemma OptionMeans(argv: seq<string>, e: Env, i: nat, f: Facts, images: nat)
    requires i < |argv| && images == ImagesTo(argv, f.values, i)
    ensures OptionSays(argv, e, i, f, images)
  {
    hide OptionSays, StartsWith, IsSwarm, ImagesTo;
    if IsSwarm(argv[i]) { SwarmSays(argv, e, i, f, images); }
    else if StartsWith(argv[i], "--events=") || StartsWith(argv[i], "--progress=") { InlineSays(argv, e, i, f, images); }
    else { PlainSays(argv, e, i, f, images); }
  }

  lemma NotEnded(argv: seq<string>, values: set<nat>, i: nat)
    requires i < |argv|
    ensures Ended(argv, values, i + 1) <==> Ended(argv, values, i) || (i !in values && argv[i] == "--")
  {
  }

  lemma SeenStep(argv: seq<string>, values: set<nat>, n: nat)
    requires n < |argv|
    ensures var read, a := ReadAt(argv, values, n), argv[n];
      && SeenEphemeral(argv, values, n + 1) == (SeenEphemeral(argv, values, n) || (read && (a == "--ephemeral" || a == "--no-save")))
      && SeenSwarm(argv, values, n + 1) == (SeenSwarm(argv, values, n) || (read && IsSwarm(a)))
  {
    hide ReadAt, IsSwarm;
  }

  lemma TextStep(argv: seq<string>, e: Env, i: nat, f: Facts, images: nat)
    requires Scanned(argv, e, i, f, images) && i < |argv| && !IsOption(argv[i])
    ensures Scanned(argv, e, i + 1, f, images)
  {
    hide IsSwarm, TakesNext, Acceptable;
    assert !ReadAt(argv, f.values, i);
    NotEnded(argv, f.values, i);
    SeenStep(argv, f.values, i);
  }

  /** An option has been read, but not yet its value. */
  lemma ReadStep(argv: seq<string>, e: Env, i: nat, f: Facts, images: nat, g: Facts)
    requires Scanned(argv, e, i, f, images) && i < |argv| && IsOption(argv[i]) && argv[i] != "--"
    requires Acceptable(argv, e, f.values, i) && (argv[i] == "--swarm-file" ==> i + 1 < |argv|)
    requires var a := argv[i]; g == Facts(f.values, f.ephemeral || a == "--ephemeral" || a == "--no-save",
      f.swarm || IsSwarm(a), if a == "--swarm-file" then f.files + [argv[i + 1]] else f.files)
    ensures SaidTo(argv, e, i + 1, g, if argv[i] == "--image" then images + 1 else images)
  {
    hide IsSwarm, TakesNext, Acceptable, IsOption;
    assert ReadAt(argv, f.values, i);
    NotEnded(argv, f.values, i);
    SeenStep(argv, f.values, i);
  }

  lemma ValueStep(argv: seq<string>, e: Env, i: nat, f: Facts, images: nat)
    requires SaidTo(argv, e, i + 1, f, images) && ValueAt(argv, e, f.values, i + 1)
    ensures Scanned(argv, e, i + 2, f.(values := f.values + {i + 1}), images)
  {
    hide TakesNext, Acceptable, IsOption, SeenEphemeral, SeenSwarm, ReadAt, Ended, SaysTo;
    var v, w := f.values, f.values + {i + 1};
    SaysAlike(argv, e, f, w, i + 1);
    CountsAlike(argv, v, w, i + 1, i + 1);
    forall k | 0 <= k < i + 1 ensures ReadAt(argv, v, k) == ReadAt(argv, w, k) { ReadAlike(argv, v, w, i + 1, k); }
    SkipValue(argv, e, f.(values := w), i + 1);
    EndedAlike(argv, v, w, i + 1);
  }

  lemma EndedAlike(argv: seq<string>, v: set<nat>, w: set<nat>, n: nat)
    requires AgreeTo(v, w, n) && n in w && n < |argv|
    ensures Ended(argv, w, n + 1) == Ended(argv, v, n)
  {
    if Ended(argv, v, n) { var j :| 0 <= j < n && j < |argv| && j !in v && argv[j] == "--"; assert j !in w; }
    if Ended(argv, w, n + 1) { var j :| 0 <= j < n + 1 && j < |argv| && j !in w && argv[j] == "--"; assert j !in v; }
  }

  /** A value says nothing by itself. */
  lemma SkipValue(argv: seq<string>, e: Env, f: Facts, n: nat)
    requires n in f.values && n < |argv| && SaysTo(argv, e, f, n)
    ensures SaysTo(argv, e, f, n + 1) && ImagesTo(argv, f.values, n + 1) == ImagesTo(argv, f.values, n)
    ensures !ReadAt(argv, f.values, n)
  {
    hide Acceptable, IsOption, IsSwarm;
    SeenStep(argv, f.values, n);
  }

  /** After one option: the value it takes joins the values, and both arguments have been read. */
  lemma OptionStep(argv: seq<string>, e: Env, i: nat, f: Facts, images: nat)
    requires Scanned(argv, e, i, f, images) && i < |argv| && IsOption(argv[i])
    requires AskOption(argv, e, i, f, images).Go? && argv[i] != "--"
    ensures var s := AskOption(argv, e, i, f, images);
      !s.raw && i + 1 + s.skip <= |argv| && Scanned(argv, e, i + 1 + s.skip, s.facts, s.images)
  {
    hide AskOption, Acceptable, TakesNext, Ended, SaysTo;
    OptionMeans(argv, e, i, f, images);
    var s := AskOption(argv, e, i, f, images);
    assert ReadAt(argv, f.values, i);
    var g := s.facts.(values := f.values);
    ReadStep(argv, e, i, f, images, g);
    if s.skip == 1 {
      ValueStep(argv, e, i, g, s.images);
      assert s.facts == g.(values := f.values + {i + 1});
    } else {
      assert s.facts == g;
    }
  }

  /** From `--` on nothing more is said. */
  lemma {:induction false} NothingMore(argv: seq<string>, e: Env, f: Facts, i: nat, n: nat)
    requires i < n <= |argv| && i !in f.values && argv[i] == "--"
    requires (forall k <- f.values :: k < i) && SaysTo(argv, e, f, i)
    ensures SaysTo(argv, e, f, n)
  {
    hide IsSwarm, IsOption;
    var k := n - 1;
    DashesAreNoSwarm();
    if k > i {
      NothingMore(argv, e, f, i, k);
      assert Ended(argv, f.values, k);
    }
    SeenStep(argv, f.values, k);
  }

  lemma EndMeans(argv: seq<string>, e: Env, i: nat, f: Facts, images: nat)
    requires Scanned(argv, e, i, f, images) && i < |argv| && argv[i] == "--"
    ensures Means(argv, e, f)
  {
    hide IsSwarm, SaysTo, IsOption;
    NothingMore(argv, e, f, i, |argv|);
    forall k: nat ensures k in f.values <==> ValueAt(argv, e, f.values, k) {
      if k > i + 1 { assert Ended(argv, f.values, k - 1); }
      if k == i + 1 { assert !IsSwarm("--") by { DashesAreNoSwarm(); } }
    }
  }

  lemma DashesAreNoSwarm()
    ensures !IsSwarm("--")
  {
  }

  lemma ScannedValues(argv: seq<string>, e: Env, i: nat, f: Facts, images: nat)
    requires Scanned(argv, e, i, f, images) && i < |argv| && IsOption(argv[i])
    ensures ReadAt(argv, f.values, i) && forall k :: 0 <= k < i + 1 ==> (k in f.values <==> ValueAt(argv, e, f.values, k))
  {
    hide SaysTo, IsOption, Ended;
  }

  lemma MeansAccepts(argv: seq<string>, e: Env, f: Facts, k: nat)
    requires Means(argv, e, f)
    ensures ReadsAs(argv, e, f.values) && (k < |argv| && ReadAt(argv, f.values, k) ==> Acceptable(argv, e, f.values, k))
  {
    hide Acceptable, ReadAt, ReadsAs;
  }

  lemma AcceptableAlike(argv: seq<string>, e: Env, v: set<nat>, w: set<nat>, k: nat)
    requires AgreeTo(v, w, k) && k < |argv|
    ensures Acceptable(argv, e, v, k) == Acceptable(argv, e, w, k)
  {
    hide ReadAt, IsSwarm;
    CountsAlike(argv, v, w, k, k);
  }

  lemma RefusedMeansNothing(argv: seq<string>, e: Env, i: nat, f: Facts, images: nat, g: Facts)
    requires Scanned(argv, e, i, f, images) && i < |argv| && IsOption(argv[i]) && !Acceptable(argv, e, f.values, i)
    ensures !Means(argv, e, g)
  {
    hide IsOption, ReadAt, Acceptable, ValueAt, Scanned, ReadsAs, Means;
    ScannedValues(argv, e, i, f, images);
    if Means(argv, e, g) {
      MeansAccepts(argv, e, g, i);
      OneReading(argv, e, g.values, f.values, i + 1);
      AcceptableAlike(argv, e, g.values, f.values, i);
      ReadAlike(argv, g.values, f.values, i + 1, i);
    }
  }

  lemma {:induction false} ScanMeans(argv: seq<string>, e: Env, i: nat, f: Facts, images: nat)
    requires i <= |argv| && Scanned(argv, e, i, f, images)
    ensures match AskFrom(argv, e, i, f, false, images)
      case Some(all) => Means(argv, e, all)
      case None => forall g :: !Means(argv, e, g)
    decreases |argv| - i
  {
    hide AskOption, Means, Scanned, Acceptable, IsOption;
    if i == |argv| {
      WholeMeans(argv, e, f, images);
    } else if !IsOption(argv[i]) {
      TextStep(argv, e, i, f, images);
      ScanMeans(argv, e, i + 1, f, images);
    } else {
      SaidImages(argv, e, i, f, images);
      OptionMeans(argv, e, i, f, images);
      var s := AskOption(argv, e, i, f, images);
      if s.Reject? {
        forall g ensures !Means(argv, e, g) { RefusedMeansNothing(argv, e, i, f, images, g); }
      } else if argv[i] == "--" {
        EndMeans(argv, e, i, f, images);
        DashesAreNoSwarm();
        assert s.facts == f;
        RawLearnsNothing(argv, e, i + 1, f, s.images);
      } else {
        OptionStep(argv, e, i, f, images);
        ScanMeans(argv, e, i + 1 + s.skip, s.facts, s.images);
      }
    }
  }

  lemma SaidImages(argv: seq<string>, e: Env, i: nat, f: Facts, images: nat)
    requires Scanned(argv, e, i, f, images)
    ensures images == ImagesTo(argv, f.values, i)
  {
  }

  lemma WholeMeans(argv: seq<string>, e: Env, f: Facts, images: nat)
    requires Scanned(argv, e, |argv|, f, images)
    ensures Means(argv, e, f)
  {
    hide SaysTo, ReadAt;
  }

  lemma MeaningIsUnique(argv: seq<string>, e: Env, f: Facts, g: Facts)
    requires Means(argv, e, f) && Means(argv, e, g)
    ensures f == g
  {
    hide ReadAt, TakesNext, Acceptable;
    OneReading(argv, e, f.values, g.values, |argv|);
    assert f.values == g.values by {
      forall k: nat ensures k in f.values <==> k in g.values { assert k in f.values ==> k < |argv|; assert k in g.values ==> k < |argv|; }
    }
  }

  /**
   * The option loop of `ask` understands exactly what a command line means: which arguments are values and which text,
   * the flags, and the files; it reports an error exactly on a command line that means nothing, because an option that is
   * read is unknown, lacks its value, has a wrong one, or is the seventeenth image.
   */
  lemma AskUnderstands(argv: seq<string>, e: Env, f: Facts)
    ensures AskFrom(argv, e, 0, NO_FACTS, false, 0) == Some(f) <==> Means(argv, e, f)
  {
    hide AskFrom, Means;
    assert Scanned(argv, e, 0, NO_FACTS, 0);
    ScanMeans(argv, e, 0, NO_FACTS, 0);
    var r := AskFrom(argv, e, 0, NO_FACTS, false, 0);
    if r.Some? && Means(argv, e, f) { MeaningIsUnique(argv, e, r.value, f); }
  }
}
