/** The release planner over an abstract repository: which tag a commit gets, and what repeated planning keeps. */
module Release {
  import opened Common
  import opened Versions

  type Commit = nat

  datatype Tag = Tag(name: string, commit: Commit)

  // ---- Stable tags -----------------------------------------------------------------------

  function VersionText(v: Version): string {
    Decimal(v.major) + "." + Decimal(v.minor) + "." + Decimal(v.patch)
  }

  function TagOf(v: Version): string {
    "v" + VersionText(v)
  }

  /** `X.Y.Z` without leading zeros. */
  function StableText(s: string): Option<Version> {
    match Parts(s)
    case None => None
    case Some((x, y, z)) =>
      if Canonical(x) && Canonical(y) && Canonical(z)
      then Some(Version(Digits(x).value, Digits(y).value, Digits(z).value)) else None
  }

  /** The version of a stable `vX.Y.Z` tag. */
  function ParseStable(tag: string): Option<Version> {
    if tag != "" && tag[0] == 'v' then StableText(tag[1..]) else None
  }

  lemma TextRoundTrip(v: Version)
    ensures StableText(VersionText(v)) == Some(v)
  {
    DecimalIsCanonical(v.major);
    DecimalIsCanonical(v.minor);
    DecimalIsCanonical(v.patch);
    DigitsOfDecimal(v.major);
    DigitsOfDecimal(v.minor);
    DigitsOfDecimal(v.patch);
    DigitsHaveNoDot(Decimal(v.major));
    DigitsHaveNoDot(Decimal(v.minor));
    PartsOf(Decimal(v.major), Decimal(v.minor), Decimal(v.patch));
  }

  lemma TextIsUnique(s: string)
    requires StableText(s).Some?
    ensures s == VersionText(StableText(s).value)
  {
    var (x, y, z) := Parts(s).value;
    PartsJoin(s);
    DecimalOfDigits(x);
    DecimalOfDigits(y);
    DecimalOfDigits(z);
  }

  /** A version has exactly one stable tag name. */
  lemma TagNames(tag: string, v: Version)
    ensures ParseStable(tag) == Some(v) <==> tag == TagOf(v)
  {
    hide StableText, VersionText;
    if ParseStable(tag) == Some(v) {
      TextIsUnique(tag[1..]);
      assert tag == "v" + tag[1..];
    }
    assert TagOf(v)[1..] == VersionText(v);
    TextRoundTrip(v);
  }

  /** The tag of a version is `v` and its three numbers in decimal. */
  lemma TagSpelled(v: Version)
    ensures TagOf(v)[0] == 'v' && Parts(TagOf(v)[1..]) == Some((Decimal(v.major), Decimal(v.minor), Decimal(v.patch)))
    ensures TagOf(Version(1, 20, 3)) == "v1.20.3"
  {
    DigitsOfDecimal(v.major);
    DigitsOfDecimal(v.minor);
    DigitsHaveNoDot(Decimal(v.major));
    DigitsHaveNoDot(Decimal(v.minor));
    PartsOf(Decimal(v.major), Decimal(v.minor), Decimal(v.patch));
    assert TagOf(v)[1..] == VersionText(v);
    assert Decimal(20) == Decimal(2) + ['0'] && Decimal(2) == "2" && Decimal(1) == "1" && Decimal(3) == "3";
  }

  // ---- Order -----------------------------------------------------------------------------

  lemma AtMostTotal(a: Version, b: Version)
    ensures AtMost(a, b) || AtMost(b, a)
  {
  }

  /** The highest stable version among some tags. */
  function Highest(tags: seq<Tag>): Option<Version> {
    if tags == [] then None
    else
      var rest, last := Highest(tags[..|tags| - 1]), ParseStable(tags[|tags| - 1].name);
      if last.None? then rest
      else if rest.None? || AtMost(rest.value, last.value) then last else rest
  }

  lemma {:induction false} HighestMeaning(tags: seq<Tag>)
    ensures match Highest(tags)
      case None => forall i :: 0 <= i < |tags| ==> ParseStable(tags[i].name).None?
      case Some(v) =>
        && (exists i :: 0 <= i < |tags| && ParseStable(tags[i].name) == Some(v))
        && forall i :: 0 <= i < |tags| && ParseStable(tags[i].name).Some? ==> AtMost(ParseStable(tags[i].name).value, v)
  {
    hide ParseStable;
    if tags != [] {
      var front, last := tags[..|tags| - 1], ParseStable(tags[|tags| - 1].name);
      HighestMeaning(front);
      if Highest(tags).Some? {
        if Highest(tags) == last {
          assert ParseStable(tags[|tags| - 1].name) == Highest(tags);
        } else {
          var i :| 0 <= i < |front| && ParseStable(front[i].name) == Highest(tags);
          assert tags[i] == front[i];
        }
      }
      forall i | 0 <= i < |tags| - 1 ensures tags[i] == front[i] { }
    }
  }

  // ---- Bumps -----------------------------------------------------------------------------

  datatype Kind = Patch | Minor | Major

  function Rank(k: Kind): nat {
    match k
    case Patch => 0
    case Minor => 1
    case Major => 2
  }

  /** A major bump of a 0.x version raises the minor instead. */
  function Bump(base: Version, kind: Kind): Version {
    match kind
    case Major =>
      if base.major == 0 then Version(base.major, base.minor + 1, 0) else Version(base.major + 1, 0, 0)
    case Minor => Version(base.major, base.minor + 1, 0)
    case Patch => Version(base.major, base.minor, base.patch + 1)
  }

  lemma BumpGoesUp(base: Version, kind: Kind)
    ensures Below(base, Bump(base, kind))
  {
  }

  /** How far a version that a bump of this kind may give lies above the base; below 1.0.0 a major bump is a minor one. */
  predicate Past(base: Version, kind: Kind, v: Version) {
    match kind
    case Patch => Below(base, v)
    case Major => v.major > base.major || (base.major == 0 == v.major && v.minor > base.minor)
    case Minor => v.major > base.major || (v.major == base.major && v.minor > base.minor)
  }

  /** A bump gives the least version that lies as far above its base as its kind asks. */
  lemma BumpIsLeast(base: Version, kind: Kind, v: Version)
    ensures Below(base, Bump(base, kind)) && Past(base, kind, Bump(base, kind))
    ensures Past(base, kind, v) ==> AtMost(Bump(base, kind), v)
  {
  }

  /** The loop over messages: the kind of the weightiest one. */
  method BumpKind(messages: seq<Kind>) returns (kind: Kind)
    ensures forall i :: 0 <= i < |messages| ==> Rank(messages[i]) <= Rank(kind)
    ensures kind == Patch || kind in messages
    ensures kind == KindOf(messages)
  {
    kind := Patch;
    for i := 0 to |messages|
      invariant forall j :: 0 <= j < i ==> Rank(messages[j]) <= Rank(kind)
      invariant kind == Patch || kind in messages
      invariant kind == KindOf(messages[..i])
    {
      assert messages[..i + 1][..i] == messages[..i];
      if Rank(messages[i]) > Rank(kind) { kind := messages[i]; }
    }
    assert messages[..|messages|] == messages;
  }

  function KindOf(messages: seq<Kind>): Kind {
    if messages == [] then Patch
    else
      var rest, last := KindOf(messages[..|messages| - 1]), messages[|messages| - 1];
      if Rank(last) > Rank(rest) then last else rest
  }

  // ---- Planning --------------------------------------------------------------------------

  /** What `release.json` at a commit asks for; the version is missing when it is not a string. */
  datatype Request = NoFile | File(version: Option<string>)

  /** What git tells about the commit being planned. */
  datatype Facts = Facts(
    ancestors: set<Commit>, request: Request, parentRequest: Request, skips: bool, messages: seq<Kind>)

  datatype Plan = Create(tag: string) | Nothing | Fails

  function CommitOf(tags: seq<Tag>, name: string): Option<Commit> {
    if tags == [] then None
    else if tags[|tags| - 1].name == name then Some(tags[|tags| - 1].commit)
    else CommitOf(tags[..|tags| - 1], name)
  }

  function Merged(tags: seq<Tag>, ancestors: set<Commit>): seq<Tag> {
    if tags == [] then []
    else Merged(tags[..|tags| - 1], ancestors) + if tags[|tags| - 1].commit in ancestors then [tags[|tags| - 1]] else []
  }

  /** The explicit request, if the commit has one. */
  function MetadataPlan(tags: seq<Tag>, c: Commit, f: Facts, newest: Option<Version>): Option<Plan> {
    match f.request
    case NoFile => None
    case File(value) =>
      if value.None? || StableText(value.value).None? then Some(Fails)
      else
        var v := StableText(value.value).value;
        match CommitOf(tags, TagOf(v))
        case Some(tagged) =>
          if newest.Some? && Below(v, newest.value) then Some(Nothing)
          else if tagged == c then Some(Create(TagOf(v)))
          else if tagged in f.ancestors then Some(Nothing)
          else Some(Fails)
        case None =>
          if newest.Some? && AtMost(v, newest.value) then Some(Fails)
          else if f.parentRequest == f.request then Some(Nothing)
          else Some(Create(TagOf(v)))
  }

  function PlanRelease(tags: seq<Tag>, c: Commit, f: Facts, override_: Option<Kind>): Plan {
    var base, newest := Highest(Merged(tags, f.ancestors)), Highest(tags);
    match MetadataPlan(tags, c, f, newest)
    case Some(plan) => plan
    case None =>
      if newest.Some? && (base.None? || Below(base.value, newest.value)) then Nothing
      else if base.Some? && CommitOf(tags, TagOf(base.value)) == Some(c) then Nothing
      else if f.skips || f.messages == [] then Nothing
      else Create(TagOf(Bump(base.GetOr(Version(0, 0, 0)), override_.GetOr(KindOf(f.messages)))))
  }

  /** The commit a name stands for is that of the last tag with the name. */
  lemma {:induction false} CommitOfMeaning(tags: seq<Tag>, name: string)
    ensures match CommitOf(tags, name)
      case None => forall i :: 0 <= i < |tags| ==> tags[i].name != name
      case Some(c) => exists i :: 0 <= i < |tags| && tags[i] == Tag(name, c) && forall j :: i < j < |tags| ==> tags[j].name != name
  {
    if tags != [] && tags[|tags| - 1].name != name {
      var front := tags[..|tags| - 1];
      CommitOfMeaning(front, name);
      if CommitOf(front, name).Some? {
        var i :| 0 <= i < |front| && front[i] == Tag(name, CommitOf(front, name).value)
          && forall j :: i < j < |front| ==> front[j].name != name;
        assert tags[i] == front[i];
        assert forall j :: i < j < |front| ==> tags[j] == front[j];
      } else {
        assert forall j :: 0 <= j < |front| ==> tags[j] == front[j];
      }
    } else if tags != [] {
      assert tags[|tags| - 1] == Tag(name, tags[|tags| - 1].commit);
    }
  }

  lemma {:induction false} MergedAreTags(tags: seq<Tag>, ancestors: set<Commit>)
    ensures forall m :: m in Merged(tags, ancestors) <==> m in tags && m.commit in ancestors
  {
    if tags != [] {
      MergedAreTags(tags[..|tags| - 1], ancestors);
    }
  }

  lemma StableTagIsListed(tags: seq<Tag>, v: Version)
    ensures CommitOf(tags, TagOf(v)).Some? ==> Highest(tags).Some? && AtMost(v, Highest(tags).value)
  {
    hide ParseStable, TagOf, AtMost;
    CommitOfMeaning(tags, TagOf(v));
    HighestMeaning(tags);
    if CommitOf(tags, TagOf(v)).Some? {
      var i :| 0 <= i < |tags| && tags[i].name == TagOf(v);
      TagNames(tags[i].name, v);
    }
  }

  /** A version above every stable tag, or the highest one when its tag already names this very commit. */
  predicate SafeVersion(tags: seq<Tag>, c: Commit, v: Version) {
    || Highest(tags).None?
    || Below(Highest(tags).value, v)
    || (Highest(tags).value == v && CommitOf(tags, TagOf(v)) == Some(c))
  }

  /**
   * Whatever tag the planner returns is at least every stable tag, and equals an existing one only when that tag
   * already points at the planned commit.
   */
  lemma PlannedTagIsSafe(tags: seq<Tag>, c: Commit, f: Facts, override_: Option<Kind>) returns (v: Version)
    requires PlanRelease(tags, c, f, override_).Create?
    ensures PlanRelease(tags, c, f, override_).tag == TagOf(v) && SafeVersion(tags, c, v)
    ensures forall i :: 0 <= i < |tags| && ParseStable(tags[i].name).Some? ==> AtMost(ParseStable(tags[i].name).value, v)
    ensures CommitOf(tags, TagOf(v)).Some? ==> CommitOf(tags, TagOf(v)) == Some(c)
  {
    hide ParseStable, TagOf, StableText, CommitOf;
    var newest := Highest(tags);
    HighestMeaning(tags);
    match f.request
    case File(value) =>
      v := StableText(value.value).value;
      StableTagIsListed(tags, v);
      if newest.Some? { AtMostTotal(v, newest.value); }
    case NoFile =>
      var base := Highest(Merged(tags, f.ancestors));
      if newest.None? {
        MergedHighest(tags, f.ancestors);
      } else {
        MergedHighest(tags, f.ancestors);
        AtMostTotal(base.value, newest.value);
      }
      v := Bump(base.GetOr(Version(0, 0, 0)), override_.GetOr(KindOf(f.messages)));
      BumpGoesUp(base.GetOr(Version(0, 0, 0)), override_.GetOr(KindOf(f.messages)));
      StableTagIsListed(tags, v);
  }

  lemma MergedHighest(tags: seq<Tag>, ancestors: set<Commit>)
    ensures Highest(Merged(tags, ancestors)).Some? ==>
      Highest(tags).Some? && AtMost(Highest(Merged(tags, ancestors)).value, Highest(tags).value)
  {
    hide ParseStable, AtMost;
    var merged := Merged(tags, ancestors);
    MergedAreTags(tags, ancestors);
    HighestMeaning(merged);
    HighestMeaning(tags);
    if Highest(merged).Some? {
      var i :| 0 <= i < |merged| && ParseStable(merged[i].name) == Highest(merged);
      assert merged[i] in tags;
      var j :| 0 <= j < |tags| && tags[j] == merged[i];
    }
  }

  // ---- The plan, exactly -----------------------------------------------------------------

  /** `v` is the newest stable version of the tags on these commits. */
  predicate NewestOn(tags: seq<Tag>, commits: set<Commit>, v: Version) {
    && (exists t <- tags :: t.commit in commits && t.name == TagOf(v))
    && forall t <- tags :: t.commit in commits && ParseStable(t.name).Some? ==> AtMost(ParseStable(t.name).value, v)
  }

  predicate NoneOn(tags: seq<Tag>, commits: set<Commit>) {
    forall t <- tags :: t.commit in commits ==> ParseStable(t.name).None?
  }

  /** Some stable tag names a version above `v`. */
  predicate Superseded(tags: seq<Tag>, v: Version) {
    exists t <- tags :: ParseStable(t.name).Some? && Below(v, ParseStable(t.name).value)
  }

  lemma BaseIs(tags: seq<Tag>, commits: set<Commit>)
    ensures match Highest(Merged(tags, commits))
      case None => NoneOn(tags, commits)
      case Some(v) => NewestOn(tags, commits, v)
  {
    hide ParseStable, TagOf, AtMost;
    var merged := Merged(tags, commits);
    MergedAreTags(tags, commits);
    HighestMeaning(merged);
    forall t <- tags | t.commit in commits ensures exists i :: 0 <= i < |merged| && merged[i] == t { assert t in merged; }
    if Highest(merged).Some? {
      var i :| 0 <= i < |merged| && ParseStable(merged[i].name) == Highest(merged);
      TagNames(merged[i].name, Highest(merged).value);
      assert merged[i] in tags && merged[i].commit in commits;
    }
  }

  lemma SupersededIs(tags: seq<Tag>, v: Version)
    ensures Superseded(tags, v) <==> Highest(tags).Some? && Below(v, Highest(tags).value)
  {
    hide ParseStable;
    HighestMeaning(tags);
    if Superseded(tags, v) {
      var t :| t in tags && ParseStable(t.name).Some? && Below(v, ParseStable(t.name).value);
      var i :| 0 <= i < |tags| && tags[i] == t;
    }
  }

  /**
   * Without a request a commit gets a tag exactly when it does not opt out, there is something to release, the newest
   * release among its ancestors is not superseded anywhere, nor this very commit; and the tag is then the least version
   * as far above that release, or above 0.0.0, as the forced or weightiest kind asks.
   */
  lemma UnrequestedPlan(tags: seq<Tag>, c: Commit, f: Facts, override_: Option<Kind>) returns (base: Option<Version>)
    requires f.request.NoFile?
    ensures if base.Some? then NewestOn(tags, f.ancestors, base.value) else NoneOn(tags, f.ancestors)
    ensures var plan := PlanRelease(tags, c, f, override_); var from := base.GetOr(Version(0, 0, 0));
      && (plan == Nothing || plan.Create?)
      && (plan.Create? <==>
            && !f.skips && f.messages != []
            && (if base.Some? then !Superseded(tags, base.value) && CommitOf(tags, TagOf(base.value)) != Some(c)
                else forall t <- tags :: ParseStable(t.name).None?))
      && (plan.Create? ==> exists v: Version, kind ::
            && plan.tag == TagOf(v) && IsKind(f.messages, override_, kind)
            && Past(from, kind, v) && forall u :: Past(from, kind, u) ==> AtMost(v, u))
  {
    hide ParseStable, TagOf, AtMost, Past, CommitOf, Highest, Superseded, NewestOn, NoneOn;
    base := Highest(Merged(tags, f.ancestors));
    BaseIs(tags, f.ancestors);
    assert Highest(tags).None? <==> forall t <- tags :: ParseStable(t.name).None? by { NoneStable(tags); }
    if base.Some? {
      SupersededIs(tags, base.value);
      MergedHighest(tags, f.ancestors);
    }
    if PlanRelease(tags, c, f, override_).Create? {
      var from, kind := base.GetOr(Version(0, 0, 0)), override_.GetOr(KindOf(f.messages));
      KindOfMeaning(f.messages);
      assert PlanRelease(tags, c, f, override_).tag == TagOf(Bump(from, kind));
      BumpIsLeast(from, kind, from);
      forall u | Past(from, kind, u) ensures AtMost(Bump(from, kind), u) { BumpIsLeast(from, kind, u); }
    }
  }

  lemma NoneStable(tags: seq<Tag>)
    ensures Highest(tags).None? <==> forall t <- tags :: ParseStable(t.name).None?
  {
    hide ParseStable;
    HighestMeaning(tags);
  }

  /** The forced kind, or else the weightiest of the messages'. */
  predicate IsKind(messages: seq<Kind>, override_: Option<Kind>, kind: Kind) {
    if override_.Some? then kind == override_.value
    else (kind == Patch || kind in messages) && forall m <- messages :: Rank(m) <= Rank(kind)
  }

  lemma {:induction false} KindOfMeaning(messages: seq<Kind>)
    ensures KindOf(messages) == Patch || KindOf(messages) in messages
    ensures forall m <- messages :: Rank(m) <= Rank(KindOf(messages))
  {
    if messages != [] { KindOfMeaning(messages[..|messages| - 1]); }
  }

  /**
   * A request for a version: what is not a stable version fails; a version tagged already is retried on its own commit,
   * and gives nothing where it is superseded or released by an ancestor; a new one must not be superseded, and is
   * created by the commit that changes the request.
   */
  lemma RequestedPlan(tags: seq<Tag>, c: Commit, f: Facts, override_: Option<Kind>, v: Version)
    requires f.request.File?
    ensures (forall u :: f.request.version != Some(VersionText(u))) ==> PlanRelease(tags, c, f, override_) == Fails
    ensures f.request.version == Some(VersionText(v)) ==>
      PlanRelease(tags, c, f, override_) ==
        match CommitOf(tags, TagOf(v)) {
          case Some(tagged) =>
            if Superseded(tags, v) then Nothing
            else if tagged == c then Create(TagOf(v))
            else if tagged in f.ancestors then Nothing
            else Fails
          case None =>
            if Superseded(tags, v) then Fails
            else if f.parentRequest == f.request then Nothing
            else Create(TagOf(v))
        }
  {
    hide ParseStable, TagOf, StableText, CommitOf, Highest, VersionText, Superseded, AtMost;
    var value := f.request.version;
    if value.Some? && StableText(value.value).Some? { TextIsUnique(value.value); }
    if value == Some(VersionText(v)) {
      TextRoundTrip(v);
      SupersededIs(tags, v);
      if Highest(tags).Some? {
        if Highest(tags) == Some(v) { StableTagIsThere(tags, v); }
        OneOrOther(v, Highest(tags).value);
      }
    }
  }

  lemma OneOrOther(a: Version, b: Version)
    ensures AtMost(a, b) <==> Below(a, b) || a == b
  {
  }

  /** The highest stable version has its tag. */
  lemma StableTagIsThere(tags: seq<Tag>, v: Version)
    requires Highest(tags) == Some(v)
    ensures CommitOf(tags, TagOf(v)).Some?
  {
    hide ParseStable, TagOf, AtMost;
    HighestMeaning(tags);
    var i :| 0 <= i < |tags| && ParseStable(tags[i].name) == Some(v);
    TagNames(tags[i].name, v);
    CommitOfMeaning(tags, TagOf(v));
  }

  // ---- Repeated planning -----------------------------------------------------------------

  /** One plan carried out to the letter, or a new tag of some other kind cut by hand. */
  datatype Move = Auto(commit: Commit, facts: Facts, override_: Option<Kind>) | ByHand(tag: Tag)

  /** The tag a move writes, if any. Nothing here stops a plan from naming a tag that exists: it would then point elsewhere. */
  function NewTag(tags: seq<Tag>, m: Move): Option<Tag> {
    match m
    case ByHand(tag) => if ParseStable(tag.name).None? && CommitOf(tags, tag.name).None? then Some(tag) else None
    case Auto(c, f, override_) =>
      match PlanRelease(tags, c, f, override_)
      case Create(name) => Some(Tag(name, c))
      case _ => None
  }

  function After(tags: seq<Tag>, moves: seq<Move>): seq<Tag> {
    if moves == [] then tags
    else
      var before := After(tags, moves[..|moves| - 1]);
      match NewTag(before, moves[|moves| - 1])
      case None => before
      case Some(t) => before + [t]
  }

  /** No run of planning and tagging, on any commits, moves or removes a tag. */
  lemma {:induction false} TagsNeverMove(tags: seq<Tag>, moves: seq<Move>, name: string)
    ensures tags <= After(tags, moves)
    ensures CommitOf(tags, name).Some? ==> CommitOf(After(tags, moves), name) == CommitOf(tags, name)
  {
    hide PlanRelease, TagOf, ParseStable, Highest;
    if moves != [] {
      var front, m := moves[..|moves| - 1], moves[|moves| - 1];
      TagsNeverMove(tags, front, name);
      var before := After(tags, front);
      var t := NewTag(before, m);
      if t.Some? {
        assert (before + [t.value])[..|before|] == before;
        if m.Auto? { var v := PlannedTagIsSafe(before, m.commit, m.facts, m.override_); }
      }
    }
  }

  /** The release a planned move makes: its tag is not there yet. */
  predicate Releases(tags: seq<Tag>, m: Move, v: Version) {
    m.Auto? && NewTag(tags, m).Some? && NewTag(tags, m).value.name == TagOf(v) && CommitOf(tags, TagOf(v)).None?
  }

  /** A new release is above every stable tag there is. */
  lemma ReleaseGoesUp(tags: seq<Tag>, m: Move, v: Version)
    requires Releases(tags, m, v)
    ensures Highest(tags).Some? ==> Below(Highest(tags).value, v)
  {
    hide TagOf, ParseStable, Highest, CommitOf;
    var u := PlannedTagIsSafe(tags, m.commit, m.facts, m.override_);
    TagNames(TagOf(v), v);
    TagNames(TagOf(v), u);
  }

  /** Repeated planning and tagging gives strictly increasing versions. */
  lemma ReleasesIncrease(tags: seq<Tag>, moves: seq<Move>, i: nat, j: nat, vi: Version, vj: Version)
    requires i < j < |moves|
    requires Releases(After(tags, moves[..i]), moves[i], vi) && Releases(After(tags, moves[..j]), moves[j], vj)
    ensures Below(vi, vj)
  {
    hide ParseStable, TagOf, Highest, CommitOf, PlanRelease, AtMost;
    var mid := After(tags, moves[..i + 1]);
    assert moves[..i + 1][..i] == moves[..i];
    assert mid == After(tags, moves[..i]) + [NewTag(After(tags, moves[..i]), moves[i]).value];
    AfterSplit(tags, moves[..j], i + 1);
    assert moves[..j][..i + 1] == moves[..i + 1];
    TagsNeverMove(mid, moves[..j][i + 1..], TagOf(vi));
    var late := After(tags, moves[..j]);
    assert late[|mid| - 1].name == TagOf(vi);
    HighestMeaning(late);
    TagNames(TagOf(vi), vi);
    ReleaseGoesUp(late, moves[j], vj);
    BelowAfter(vi, Highest(late).value, vj);
  }

  lemma BelowAfter(a: Version, b: Version, c: Version)
    requires AtMost(a, b) && Below(b, c)
    ensures Below(a, c)
  {
  }

  lemma {:induction false} AfterSplit(tags: seq<Tag>, moves: seq<Move>, k: nat)
    requires k <= |moves|
    ensures After(tags, moves) == After(After(tags, moves[..k]), moves[k..])
    decreases |moves|
  {
    hide NewTag;
    if k == |moves| {
      assert moves[..k] == moves && moves[k..] == [];
    } else {
      var front := moves[..|moves| - 1];
      assert front[..k] == moves[..k] && front[k..] == moves[k..][..|moves| - k - 1];
      AfterSplit(tags, front, k);
    }
  }
}
