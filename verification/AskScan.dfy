/** The two scanners of an `ask` command line: the option loop that runs it and the swarm preflight that ran before. */
module AskScan {
  import opened Common

  predicate StartsWith(a: string, prefix: string) {
    |prefix| <= |a| && a[..|prefix|] == prefix
  }

  /** Options that stand alone. */
  const SWITCHES := {
    "--json", "--stdin", "--preset-input", "--no-color", "--continue-recovery", "--steer", "--background", "-B",
    "--print-usage", "--auto", "--yolo" }

  const EPHEMERAL := {"--ephemeral", "--no-save"}

  predicate IsSwarm(a: string) {
    a == "--swarm" || StartsWith(a, "--swarm=")
  }

  /** Options whose value is the next argument. */
  const VALUED := {"--task", "--resume", "--resume-id", "--output-schema", "--image"}

  /** What a scanner has understood: which arguments are values, which flags were given, which file was selected. */
  datatype Facts = Facts(values: set<nat>, ephemeral: bool, swarm: bool, files: seq<string>)

  const NO_FACTS := Facts({}, false, false, [])

  /**
   * The environment of a scan: whether a validated swarm definition exists, and at each position what the shared swarm
   * option parser says there: invalid, or whether it takes the next argument.
   */
  datatype Env = Env(defined: bool, swarmAt: nat -> Option<bool>)

  function SwarmStep(argv: seq<string>, e: Env, i: nat): Option<nat> {
    match e.swarmAt(i)
    case None => None
    case Some(takes) => Some(if takes && i + 1 < |argv| then 1 else 0)
  }

  // ---- The option loop of `ask` ----------------------------------------------------------

  datatype Step = Reject | Go(facts: Facts, skip: nat, raw: bool, images: nat)

  predicate IsOption(a: string) {
    |a| >= 2 && a[0] == '-'
  }

  /** `--events` and `--progress`: the value follows `=` or is the next argument, and only some values are known. */
  function Inline(argv: seq<string>, i: nat, name: string, allowed: set<string>, f: Facts, images: nat): Step
    requires i < |argv| && (argv[i] == name || StartsWith(argv[i], name + "="))
  {
    var a := argv[i];
    if a == name then
      if i + 1 < |argv| && argv[i + 1] in allowed then Go(f.(values := f.values + {i + 1}), 1, false, images) else Reject
    else if a[|name| + 1..] in allowed then Go(f, 0, false, images) else Reject
  }

  /** One argument of the loop, before `--`. */
  function AskOption(argv: seq<string>, e: Env, i: nat, f: Facts, images: nat): Step
    requires i < |argv|
  {
    var a := argv[i];
    if a in SWITCHES then Go(f, 0, false, images)
    else if a in EPHEMERAL then Go(f.(ephemeral := true), 0, false, images)
    else if a == "--events" || StartsWith(a, "--events=") then Inline(argv, i, "--events", {"jsonl"}, f, images)
    else if a == "--progress" || StartsWith(a, "--progress=") then
      Inline(argv, i, "--progress", {"none", "auto"}, f, images)
    else if IsSwarm(a) then
      match SwarmStep(argv, e, i) {
        case None => Reject
        case Some(n) => Go(f.(swarm := true, values := if n == 1 then f.values + {i + 1} else f.values), n, false, images)
      }
    else if a == "--swarm-file" then
      if i + 1 >= |argv| || !e.defined then Reject
      else Go(f.(files := f.files + [argv[i + 1]], values := f.values + {i + 1}), 1, false, images)
    else if a in VALUED then
      if i + 1 >= |argv| || (a == "--image" && images >= 16) then Reject
      else Go(f.(values := f.values + {i + 1}), 1, false, if a == "--image" then images + 1 else images)
    else if a == "--" then Go(f, 0, true, images)
    else Reject
  }

  /** The loop from argument `i` on; `None` when it reports an error. After `--` everything is text. */
  function AskFrom(argv: seq<string>, e: Env, i: nat, f: Facts, raw: bool, images: nat): Option<Facts>
    decreases |argv| - i
  {
    if i >= |argv| then Some(f)
    else if raw || !IsOption(argv[i]) then AskFrom(argv, e, i + 1, f, raw, images)
    else match AskOption(argv, e, i, f, images)
      case Reject => None
      case Go(f', skip, raw', images') => AskFrom(argv, e, i + 1 + skip, f', raw', images')
  }

  // ---- The swarm preflight ---------------------------------------------------------------

  const SKIPPED := VALUED + {"--events", "--progress"}

  /** One argument of the preflight before `--`: what it learns and how many further arguments it skips. */
  function PreflightOption(argv: seq<string>, e: Env, i: nat, f: Facts, files: nat): Step
    requires i < |argv|
  {
    var a := argv[i];
    if a == "--" then Go(f, 0, true, 0)
    else if IsSwarm(a) then
      match SwarmStep(argv, e, i) {
        case None => Reject
        case Some(n) => Go(f.(swarm := true, values := if n == 1 then f.values + {i + 1} else f.values), n, false, 0)
      }
    else if a == "--swarm-file" then
      if i + 1 >= |argv| || |f.files| + files > 0 then Reject
      else Go(f.(files := f.files + [argv[i + 1]], values := f.values + {i + 1}), 1, false, 0)
    else if a in EPHEMERAL then Go(f.(ephemeral := true), 0, false, 0)
    else if a in SKIPPED then Go(f.(values := f.values + {i + 1}), 1, false, 0)
    else Go(f, 0, false, 0)
  }

  /** The scan from argument `i` on; `files` is 1 when the global options already selected a file. */
  function PreflightFrom(argv: seq<string>, e: Env, i: nat, f: Facts, files: nat): Option<Facts>
    decreases |argv| - i
  {
    if i >= |argv| then Some(f)
    else match PreflightOption(argv, e, i, f, files)
      case Reject => None
      case Go(f', skip, stop, _) => if stop then Some(f') else PreflightFrom(argv, e, i + 1 + skip, f', files)
  }

  // ---- Agreement -------------------------------------------------------------------------

  /** Once raw, the loop learns nothing more. */
  lemma {:induction false} RawLearnsNothing(argv: seq<string>, e: Env, i: nat, f: Facts, images: nat)
    ensures AskFrom(argv, e, i, f, true, images) == Some(f)
    decreases |argv| - i
  {
    if i < |argv| { RawLearnsNothing(argv, e, i + 1, f, images); }
  }

  /** A string shares every character with its prefixes. */
  lemma PrefixChar(a: string, p: string, k: nat)
    ensures StartsWith(a, p) && k < |p| ==> k < |a| && a[k] == p[k]
  {
    assert StartsWith(a, p) && k < |p| ==> a[..|p|][k] == p[k];
  }

  /** Ordinary text means nothing to the preflight either: everything it knows begins with two dashes. */
  lemma TextIsSkipped(argv: seq<string>, e: Env, i: nat, f: Facts, files: nat)
    requires i < |argv| && !IsOption(argv[i])
    ensures PreflightOption(argv, e, i, f, files) == Go(f, 0, false, 0)
  {
    PrefixChar(argv[i], "--swarm=", 0);
  }

  /** On an option the loop accepts, both scanners learn the same and skip the same, unless a file is selected twice. */
  lemma OptionsAgree(argv: seq<string>, e: Env, i: nat, f: Facts, images: nat, files: nat)
    requires i < |argv| && IsOption(argv[i]) && AskOption(argv, e, i, f, images).Go?
    ensures var ask, pre := AskOption(argv, e, i, f, images), PreflightOption(argv, e, i, f, files);
      if argv[i] == "--swarm-file" && |f.files| + files > 0 then pre == Reject
      else pre.Go? && pre.facts == ask.facts && pre.skip == ask.skip && pre.raw == ask.raw
  {
    hide StartsWith, IsOption;
    var a := argv[i];
    if StartsWith(a, "--events=") || StartsWith(a, "--progress=") { InlineIsNothingElse(a); }
    if IsSwarm(a) { SwarmIsNothingElse(a); }
  }

  lemma InlineIsNothingElse(a: string)
    requires StartsWith(a, "--events=") || StartsWith(a, "--progress=")
    ensures !IsSwarm(a) && a != "--" && a != "--swarm-file" && a !in EPHEMERAL && a !in SKIPPED
  {
    PrefixChar(a, "--events=", 2);
    PrefixChar(a, "--events=", 3);
    PrefixChar(a, "--progress=", 2);
    PrefixChar(a, "--swarm=", 2);
    assert a[2] == 'p' || (a[2] == 'e' && a[3] == 'v');
  }

  lemma SwarmIsNothingElse(a: string)
    requires IsSwarm(a)
    ensures a != "--" && a != "--swarm-file" && a !in EPHEMERAL && a !in SKIPPED && a !in SWITCHES
    ensures !StartsWith(a, "--events=") && !StartsWith(a, "--progress=")
  {
    PrefixChar(a, "--swarm=", 2);
    PrefixChar(a, "--swarm=", 3);
    PrefixChar(a, "--swarm=", 7);
    PrefixChar(a, "--events=", 2);
    PrefixChar(a, "--progress=", 2);
    assert a[2] == 's' && a[3] == 'w' && (|a| > 7 ==> a[7] == '=');
  }

  lemma {:induction false} FilesOnlyGrow(argv: seq<string>, e: Env, i: nat, f: Facts, raw: bool, images: nat)
    requires AskFrom(argv, e, i, f, raw, images).Some?
    ensures |AskFrom(argv, e, i, f, raw, images).value.files| >= |f.files|
    decreases |argv| - i
  {
    if i < |argv| {
      if raw || !IsOption(argv[i]) {
        FilesOnlyGrow(argv, e, i + 1, f, raw, images);
      } else {
        var s := AskOption(argv, e, i, f, images);
        FilesOnlyGrow(argv, e, i + 1 + s.skip, s.facts, s.raw, s.images);
      }
    }
  }

  lemma {:induction false} ScannersAgreeFrom(argv: seq<string>, e: Env, i: nat, f: Facts, images: nat, files: nat)
    requires AskFrom(argv, e, i, f, false, images).Some? && files <= 1
    requires |f.files| + files <= 1
    ensures var ask := AskFrom(argv, e, i, f, false, images).value;
      PreflightFrom(argv, e, i, f, files) == if |ask.files| + files <= 1 then Some(ask) else None
    decreases |argv| - i
  {
    if i < |argv| {
      if !IsOption(argv[i]) {
        TextIsSkipped(argv, e, i, f, files);
        ScannersAgreeFrom(argv, e, i + 1, f, images, files);
      } else {
        OptionsAgree(argv, e, i, f, images, files);
        var s := AskOption(argv, e, i, f, images);
        FilesOnlyGrow(argv, e, i + 1 + s.skip, s.facts, s.raw, s.images);
        if argv[i] == "--swarm-file" && |f.files| + files > 0 {
        } else if s.raw {
          RawLearnsNothing(argv, e, i + 1 + s.skip, s.facts, s.images);
        } else {
          ScannersAgreeFrom(argv, e, i + 1 + s.skip, s.facts, s.images, files);
        }
      }
    }
  }

  /**
   * For every command line the `ask` loop accepts, the preflight's scan sees the same arguments as values, the same
   * flags and the same file; the scan stops early exactly when a swarm file is selected more than once.
   */
  lemma ScannersAgree(argv: seq<string>, e: Env, globalFile: bool)
    requires AskFrom(argv, e, 0, NO_FACTS, false, 0).Some?
    ensures var ask := AskFrom(argv, e, 0, NO_FACTS, false, 0).value; var files := if globalFile then 1 else 0;
      PreflightFrom(argv, e, 0, NO_FACTS, files) == if |ask.files| + files <= 1 then Some(ask) else None
  {
    ScannersAgreeFrom(argv, e, 0, NO_FACTS, 0, if globalFile then 1 else 0);
  }

  /** The failing input: the option loop accepts a second swarm file, the preflight does not. */
  lemma SecondFileDiffers(e: Env)
    requires e.defined
    ensures var argv := ["--swarm-file", "a", "--swarm-file", "b"];
      AskFrom(argv, e, 0, NO_FACTS, false, 0).Some? && PreflightFrom(argv, e, 0, NO_FACTS, 0) == None
  {
    var argv := ["--swarm-file", "a", "--swarm-file", "b"];
    var f1 := NO_FACTS.(files := ["a"], values := {1});
    var f2 := f1.(files := ["a", "b"], values := {1, 3});
    PrefixChar("--swarm-file", "--events=", 2);
    PrefixChar("--swarm-file", "--progress=", 2);
    PrefixChar("--swarm-file", "--swarm=", 7);
    assert AskOption(argv, e, 0, NO_FACTS, 0) == Go(f1, 1, false, 0);
    assert AskOption(argv, e, 2, f1, 0) == Go(f2, 1, false, 0);
    assert AskFrom(argv, e, 4, f2, false, 0) == Some(f2);
    assert AskFrom(argv, e, 2, f1, false, 0) == Some(f2);
    assert AskFrom(argv, e, 0, NO_FACTS, false, 0) == Some(f2);
    ScannersAgree(argv, e, false);
  }

  // ---- The whole preflight ---------------------------------------------------------------

  /** What the global options before the command already asked for. */
  datatype Globals = Globals(numeric: bool, file: Option<string>, ephemeral: bool)

  /** Whether a swarm file parses as a manifest, and whether this host and session can lead a swarm at all. */
  datatype Host = Host(readable: string -> bool, native: bool)

  /** The swarm file in force, from the global options or else from the command line. */
  function SelectedFile(g: Globals, files: seq<string>): Option<string> {
    if g.file.Some? then g.file else if files == [] then None else Some(files[0])
  }

  /** The scan and the checks after it; `None` is a refusal, otherwise the facts and the file in force. */
  function Preflight(argv: seq<string>, e: Env, g: Globals, h: Host): Option<(Facts, Option<string>)> {
    match PreflightFrom(argv, e, 0, NO_FACTS, if g.file.Some? then 1 else 0)
    case None => None
    case Some(f) =>
      var file := SelectedFile(g, f.files);
      if file.Some? && (g.numeric || f.swarm) then None
      else if file.Some? && !h.readable(file.value) then None
      else if (file.Some? || g.numeric || f.swarm) && (g.ephemeral || f.ephemeral || !h.native) then None
      else Some((f, file))
  }

  /**
   * For every command line the `ask` loop accepts, the exact reasons for which the preflight refuses it, all in terms of
   * what that loop understood: two swarm files, a file beside a count, an unreadable file, or a swarm in a session that
   * is not saved, or on a host that cannot lead one. Otherwise both understood the same.
   */
  lemma PreflightRefusesExactly(argv: seq<string>, e: Env, g: Globals, h: Host)
    requires AskFrom(argv, e, 0, NO_FACTS, false, 0).Some?
    ensures var ask := AskFrom(argv, e, 0, NO_FACTS, false, 0).value;
      var numeric, fromFile := g.numeric || ask.swarm, g.file.Some? || ask.files != [];
      var refused :=
        || |ask.files| + (if g.file.Some? then 1 else 0) > 1
        || (numeric && fromFile)
        || (fromFile && !h.readable(SelectedFile(g, ask.files).value))
        || ((numeric || fromFile) && (g.ephemeral || ask.ephemeral || !h.native));
      Preflight(argv, e, g, h) == if refused then None else Some((ask, SelectedFile(g, ask.files)))
  {
    hide AskFrom, PreflightFrom;
    ScannersAgree(argv, e, g.file.Some?);
  }

  /** A second failing input: a count beside a file is refused only after the scan. */
  lemma CountBesideFileDiffers(e: Env, h: Host)
    requires e.defined && e.swarmAt(0) == Some(false)
    ensures var argv := ["--swarm", "--swarm-file", "a"]; var g := Globals(false, None, false);
      AskFrom(argv, e, 0, NO_FACTS, false, 0).Some? && PreflightFrom(argv, e, 0, NO_FACTS, 0).Some?
      && Preflight(argv, e, g, h) == None
  {
    var argv := ["--swarm", "--swarm-file", "a"];
    var f1 := NO_FACTS.(swarm := true);
    var f2 := f1.(files := ["a"], values := {2});
    PrefixChar("--swarm-file", "--events=", 2);
    PrefixChar("--swarm-file", "--progress=", 2);
    PrefixChar("--swarm-file", "--swarm=", 7);
    PrefixChar("--swarm", "--events=", 2);
    PrefixChar("--swarm", "--progress=", 2);
    assert AskOption(argv, e, 0, NO_FACTS, 0) == Go(f1, 0, false, 0);
    assert AskOption(argv, e, 1, f1, 0) == Go(f2, 1, false, 0);
    assert AskFrom(argv, e, 3, f2, false, 0) == Some(f2);
    assert AskFrom(argv, e, 1, f1, false, 0) == Some(f2);
    assert AskFrom(argv, e, 0, NO_FACTS, false, 0) == Some(f2);
    PreflightRefusesExactly(argv, e, Globals(false, None, false), h);
    ScannersAgree(argv, e, false);
  }

  // ---- The loops -------------------------------------------------------------------------

  /** The option loop: an index and what it has set so far. */
  method ScanAsk(argv: seq<string>, e: Env) returns (r: Option<Facts>)
    ensures r == AskFrom(argv, e, 0, NO_FACTS, false, 0)
  {
    var facts, raw, images := NO_FACTS, false, 0;
    var i := 0;
    while i < |argv|
      invariant AskFrom(argv, e, 0, NO_FACTS, false, 0) == AskFrom(argv, e, i, facts, raw, images)
      decreases |argv| - i
    {
      if !raw && IsOption(argv[i]) {
        var s := AskOption(argv, e, i, facts, images);
        if s.Reject? { return None; }
        facts, raw, images := s.facts, s.raw, s.images;
        i := i + s.skip;
      }
      i := i + 1;
    }
    r := Some(facts);
  }

  method ScanPreflight(argv: seq<string>, e: Env, globalFile: bool) returns (r: Option<Facts>)
    ensures r == PreflightFrom(argv, e, 0, NO_FACTS, if globalFile then 1 else 0)
  {
    var files: nat := if globalFile then 1 else 0;
    var facts := NO_FACTS;
    var i := 0;
    while i < |argv|
      invariant PreflightFrom(argv, e, 0, NO_FACTS, files) == PreflightFrom(argv, e, i, facts, files)
      decreases |argv| - i
    {
      var s := PreflightOption(argv, e, i, facts, files);
      if s.Reject? { return None; }
      facts := s.facts;
      if s.raw { return Some(facts); }
      i := i + 1 + s.skip;
    }
    r := Some(facts);
  }

  /** `cli_swarm_preflight` for `ask`. */
  method RunPreflight(argv: seq<string>, e: Env, g: Globals, h: Host) returns (r: Option<(Facts, Option<string>)>)
    ensures r == Preflight(argv, e, g, h)
  {
    var facts := ScanPreflight(argv, e, g.file.Some?);
    if facts.None? { return None; }
    var requested := g.numeric || g.file.Some?;
    var numeric, ephemeral, file := g.numeric, g.ephemeral, g.file;
    if facts.value.swarm { requested, numeric := true, true; }
    if facts.value.ephemeral { ephemeral := true; }
    if file.None? && facts.value.files != [] { requested, file := true, Some(facts.value.files[0]); }
    if file.Some? && numeric { return None; }
    if file.Some? && !h.readable(file.value) { return None; }
    if requested && (ephemeral || !h.native) { return None; }
    return Some((facts.value, file));
  }
}
