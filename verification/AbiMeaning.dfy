/** What an accepted candidate means for the clients of its baseline: promise by promise, and not check by check. */
module AbiMeaning {
  import opened Common
  import opened Versions
  import opened Abi

  // ---- What a valid description is -------------------------------------------------------

  /** Checking each field against the one before it leaves every two fields apart, wherever they stand. */
  lemma ValidStructExactly(s: Struct)
    ensures ValidStruct(s) <==>
      && s.size > 0 && s.alignment > 0 && (exists k :: s.size == k * s.alignment) && 0 < s.minimumSize <= s.size
      && (s.mode.SizedTail? ==> s.appendFrom == Some(s.size))
      && |s.fields| > 0
      && (forall f <- s.fields :: f.size > 0 && 0 <= f.offset && f.offset + f.size <= s.size)
      && (forall i, j :: 0 <= i < j < |s.fields| ==>
            s.fields[i].name != s.fields[j].name && s.fields[i].offset + s.fields[i].size <= s.fields[j].offset)
  {
    if s.size > 0 && s.alignment > 0 { Multiple(s.size, s.alignment); }
    if LaidOut(s.fields, s.size) {
      forall i, j | 0 <= i < j < |s.fields| ensures s.fields[i].offset + s.fields[i].size <= s.fields[j].offset {
        InOrder(s.fields, s.size, i, j);
      }
      forall f <- s.fields ensures f.size > 0 && 0 <= f.offset && f.offset + f.size <= s.size {
        var i :| 0 <= i < |s.fields| && s.fields[i] == f;
        NotNegative(s.fields, s.size, i);
        assert FieldFits(s.fields, i, s.size);
      }
    }
  }

  /** What the comparison asks of a whole description. */
  lemma ValidExactly(d: Description)
    ensures Valid(d) <==>
      && d.major == 1 && d.minor > -1
      && (forall n <- d.exports :: exists s :: d.exports[n] == "LIBTNY_1." + s)
      && (forall n <- d.capacity :: n in d.exports) && (forall n <- d.signatures.exports :: n in d.exports)
      && |d.structs| > 0 && forall n <- d.structs :: ValidStruct(d.structs[n])
  {
    hide ValidStruct;
    forall n <- d.exports ensures IsNode(d.exports[n]) <==> exists s :: d.exports[n] == "LIBTNY_1." + s {
      NodeSpelled(d.exports[n]);
    }
    assert d.capacity.Keys <= d.exports.Keys <==> forall n <- d.capacity :: n in d.exports;
    assert d.signatures.exports.Keys <= d.exports.Keys <==> forall n <- d.signatures.exports :: n in d.exports;
  }

  lemma NodeSpelled(node: string)
    ensures IsNode(node) <==> exists s :: node == "LIBTNY_1." + s
  {
    if IsNode(node) { assert node == "LIBTNY_1." + node[|NODE_PREFIX|..]; }
    forall s ensures ("LIBTNY_1." + s)[..|NODE_PREFIX|] == NODE_PREFIX { }
  }

  lemma Multiple(n: int, m: int)
    requires n > 0 && m > 0
    ensures n % m == 0 <==> exists k :: n == k * m
  {
    if n % m == 0 { assert n == (n / m) * m; }
    if k :| n == k * m { MulMod(k, m); }
  }

  /** A node names a minor version exactly when that number follows the fixed prefix in decimal digits. */
  lemma NodeMinorExactly(node: string, m: nat)
    ensures NodeMinor(node) == Some(m) <==> exists s :: node == "LIBTNY_1." + s && Digits(s) == Some(m)
    ensures NodeMinor("LIBTNY_1." + Decimal(m)) == Some(m)
  {
    DigitsOfDecimal(m);
    if NodeMinor(node).Some? { assert node == "LIBTNY_1." + node[|NODE_PREFIX|..]; }
    forall s ensures ("LIBTNY_1." + s)[|NODE_PREFIX|..] == s { }
  }

  // ---- What clients rely on --------------------------------------------------------------

  /** One thing a client of a release may rely on. */
  datatype Promise =
    | DataModel(text: string) | CallingConvention(text: string) | Policy(text: string) | Major(number: int)
    | Unsupported(names: seq<string>)
    | Soname(text: string) | LinkerName(text: string) | LinuxArchitectures(names: seq<string>) | NodeAt(k: nat, node: string)
    | InstallName(text: string) | MachoCompatibility(text: string) | MachoRule(text: string) | MacosArchitectures(names: seq<string>)
    | Constant(name: string, number: int) | Export(name: string, node: string) | Capacity(name: string, text: string)
    | Signature(name: string, text: string) | Callback(name: string, text: string)
    | Aligned(name: string, number: int) | LeastSize(name: string, number: int) | Room(name: string, number: int)
    | Member(name: string, field: Field)

  /** The two version numbers are the constants nobody may rely on. */
  predicate Promises(d: Description, p: Promise) {
    match p
    case DataModel(t) => d.dataModel == t
    case CallingConvention(t) => d.callingConvention == t
    case Policy(t) => d.compatibility == t
    case Major(n) => d.major == n
    case Unsupported(ns) => d.unsupported == ns
    case Soname(t) => d.linux.soname == t
    case LinkerName(t) => d.linux.linkerName == t
    case LinuxArchitectures(ns) => d.linux.architectures == ns
    case NodeAt(k, node) => k < |d.linux.nodes| && d.linux.nodes[k] == node
    case InstallName(t) => d.macos.installName == t
    case MachoCompatibility(t) => d.macos.compatibility == t
    case MachoRule(t) => d.macos.rule == t
    case MacosArchitectures(ns) => d.macos.architectures == ns
    case Constant(n, v) => n != "TNY_ABI_MINOR" && n != "TNY_ABI_VERSION" && n in d.constants && d.constants[n] == v
    case Export(n, node) => n in d.exports && d.exports[n] == node
    case Capacity(n, t) => n in d.capacity && d.capacity[n] == t
    case Signature(n, t) => n in d.signatures.exports && d.signatures.exports[n] == t
    case Callback(n, t) => n in d.signatures.callbacks && d.signatures.callbacks[n] == t
    case Aligned(n, v) => n in d.structs && d.structs[n].alignment == v
    case LeastSize(n, v) => n in d.structs && d.structs[n].minimumSize == v
    case Room(n, v) => n in d.structs && d.structs[n].size >= v
    case Member(n, f) => n in d.structs && f in d.structs[n].fields
  }

  ghost predicate KeepsPromises(a: Description, b: Description) {
    forall p :: Promises(a, p) ==> Promises(b, p)
  }

  predicate FixedSizesStay(a: Description, b: Description) {
    forall n <- a.structs :: a.structs[n].mode.Fixed? ==> n in b.structs && b.structs[n].size == a.structs[n].size
  }

  /** Versions do not run backwards, and the node list ends at the candidate's own node. */
  predicate VersionsAdvance(a: Description, b: Description) {
    && 0 <= b.minor && a.minor <= b.minor
    && b.linux.nodes != [] && b.linux.nodes[|b.linux.nodes| - 1] == "LIBTNY_1." + Decimal(b.minor)
    && NumericVersion(a.macos.current).Some? && NumericVersion(b.macos.current).Some?
    && !Below(NumericVersion(b.macos.current).value, NumericVersion(a.macos.current).value)
  }

  /** Everything that is new belongs to a later minor version, and new fields stand where the baseline lets them in. */
  ghost predicate Announced(a: Description, b: Description) {
    && (a.minor == b.minor ==>
          && b.constants.Keys <= a.constants.Keys && b.capacity.Keys <= a.capacity.Keys
          && b.signatures.callbacks.Keys <= a.signatures.callbacks.Keys && b.structs.Keys <= a.structs.Keys)
    && (forall n <- b.exports :: n in a.exports || EntersLater(a, b, n))
    && (forall n <- b.capacity :: n in a.capacity || (n in b.exports && n !in a.exports))
    && forall n, f :: n in a.structs && n in b.structs && f in b.structs[n].fields ==>
         (exists g <- a.structs[n].fields :: g.name == f.name)
         || (a.structs[n].appendFrom.Some? && a.structs[n].appendFrom.value <= f.offset)
  }

  /** A new export has a signature and stands at a declared node of a minor version after the baseline's. */
  ghost predicate EntersLater(a: Description, b: Description, n: string)
    requires n in b.exports
  {
    && n in b.signatures.exports && b.exports[n] in b.linux.nodes
    && exists m: nat :: NodeMinor(b.exports[n]) == Some(m) && a.minor < m <= b.minor
  }

  // ---- Acceptance is keeping every promise -----------------------------------------------

  lemma AcceptedKeeps(a: Description, b: Description, p: Promise)
    requires Accepts(a, b) && Promises(a, p)
    ensures Promises(b, p)
  {
    hide Accepts, StructKeeps, FieldNamed, Preserved;
    PlatformKept(a, b);
    EntriesKept(a, b);
    match p
    case NodeAt(k, node) => assert a.linux.nodes <= b.linux.nodes;
    case Export(n, _) => EntryKept(a.exports, b.exports, n);
    case Capacity(n, _) => EntryKept(a.capacity, b.capacity, n);
    case Signature(n, _) => EntryKept(a.signatures.exports, b.signatures.exports, n);
    case Callback(n, _) => EntryKept(a.signatures.callbacks, b.signatures.callbacks, n);
    case Constant(n, _) => ConstantKept(a, b, n);
    case Aligned(n, _) => StructKept(a, b, n);
    case LeastSize(n, _) => StructKept(a, b, n);
    case Room(n, _) => StructKept(a, b, n);
    case Member(n, f) => MemberKept(a, b, n, f);
    case _ =>
  }

  lemma PlatformKept(a: Description, b: Description)
    requires Accepts(a, b)
    ensures b.dataModel == a.dataModel && b.callingConvention == a.callingConvention && b.compatibility == a.compatibility
    ensures b.major == a.major && b.unsupported == a.unsupported
    ensures b.linux.soname == a.linux.soname && b.linux.linkerName == a.linux.linkerName
    ensures b.linux.architectures == a.linux.architectures && a.linux.nodes <= b.linux.nodes
    ensures b.macos.architectures == a.macos.architectures && b.macos.installName == a.macos.installName
    ensures b.macos.compatibility == a.macos.compatibility && b.macos.rule == a.macos.rule
  {
    hide Valid, ConstantsOk, ExportsOk, CapacityOk, SignaturesOk, StructsOk, NumericVersion;
  }

  lemma EntryKept<V>(a: map<string, V>, b: map<string, V>, n: string)
    requires Preserved(a, b) && n in a
    ensures n in b && b[n] == a[n]
  {
  }

  lemma ConstantKept(a: Description, b: Description, n: string)
    requires Accepts(a, b) && n in a.constants && n !in VERSION_CONSTANTS
    ensures n in b.constants && b.constants[n] == a.constants[n]
  {
    hide Valid, LinuxOk, MacosOk, ExportsOk, CapacityOk, SignaturesOk, StructsOk;
  }

  lemma MemberKept(a: Description, b: Description, n: string, f: Field)
    requires Accepts(a, b) && n in a.structs && f in a.structs[n].fields
    ensures n in b.structs && f in b.structs[n].fields
  {
    hide Accepts, FieldNamed;
    StructKept(a, b, n);
    var i :| 0 <= i < |a.structs[n].fields| && a.structs[n].fields[i] == f;
    var j := FieldStays(a.structs[n], b.structs[n], i);
  }

  lemma EntriesKept(a: Description, b: Description)
    requires Accepts(a, b)
    ensures Preserved(a.exports, b.exports) && Preserved(a.capacity, b.capacity)
    ensures Preserved(a.signatures.exports, b.signatures.exports) && Preserved(a.signatures.callbacks, b.signatures.callbacks)
  {
    hide Valid, Preserved, LinuxOk, MacosOk, StructsOk, ConstantsOk;
  }

  lemma StructKept(a: Description, b: Description, n: string)
    requires Accepts(a, b) && n in a.structs
    ensures n in b.structs && StructKeeps(a.structs[n], b.structs[n])
    ensures b.structs[n].size >= a.structs[n].size && b.structs[n].alignment == a.structs[n].alignment
    ensures b.structs[n].minimumSize == a.structs[n].minimumSize
  {
    hide Valid, LinuxOk, MacosOk, ExportsOk, CapacityOk, SignaturesOk, ConstantsOk, StructOk;
    StepKeeps(a.structs[n], b.structs[n]);
  }

  lemma Keep(a: Description, b: Description, p: Promise)
    requires KeepsPromises(a, b) && Promises(a, p)
    ensures Promises(b, p)
  {
  }

  // Section by section, keeping promises and announcing news is what the checks ask.

  lemma PlatformsExactly(a: Description, b: Description)
    requires KeepsPromises(a, b)
    ensures b.dataModel == a.dataModel && b.callingConvention == a.callingConvention && b.compatibility == a.compatibility
    ensures b.major == a.major && b.unsupported == a.unsupported
    ensures VersionsAdvance(a, b) ==> LinuxOk(a, b) && MacosOk(a, b)
  {
    hide NumericVersion, KeepsPromises;
    Keep(a, b, DataModel(a.dataModel));
    Keep(a, b, CallingConvention(a.callingConvention));
    Keep(a, b, Policy(a.compatibility));
    Keep(a, b, Major(a.major));
    Keep(a, b, Unsupported(a.unsupported));
    Keep(a, b, Soname(a.linux.soname));
    Keep(a, b, LinkerName(a.linux.linkerName));
    Keep(a, b, LinuxArchitectures(a.linux.architectures));
    Keep(a, b, InstallName(a.macos.installName));
    Keep(a, b, MachoCompatibility(a.macos.compatibility));
    Keep(a, b, MachoRule(a.macos.rule));
    Keep(a, b, MacosArchitectures(a.macos.architectures));
    assert a.linux.nodes <= b.linux.nodes by { NodesKept(a, b); }
  }

  lemma NodesKept(a: Description, b: Description)
    requires KeepsPromises(a, b)
    ensures a.linux.nodes <= b.linux.nodes
  {
    hide KeepsPromises;
    forall k | 0 <= k < |a.linux.nodes| ensures k < |b.linux.nodes| && b.linux.nodes[k] == a.linux.nodes[k] {
      Keep(a, b, NodeAt(k, a.linux.nodes[k]));
    }
    if |a.linux.nodes| > 0 { Keep(a, b, NodeAt(|a.linux.nodes| - 1, a.linux.nodes[|a.linux.nodes| - 1])); }
  }

  lemma TablesExactly(a: Description, b: Description)
    requires KeepsPromises(a, b) && a.minor <= b.minor && Announced(a, b)
    ensures ConstantsOk(a, b) && ExportsOk(a, b) && CapacityOk(a, b) && SignaturesOk(a, b)
  {
    hide NodeMinor, KeepsPromises, Promises;
    TablesKept(a, b);
    assert a.minor == b.minor ==> !Grows(a.constants, b.constants);
    assert a.minor == b.minor ==> !Grows(a.signatures.callbacks, b.signatures.callbacks);
    assert a.minor == b.minor ==> !Grows(a.capacity, b.capacity);
  }

  lemma TablesKept(a: Description, b: Description)
    requires KeepsPromises(a, b)
    ensures forall n <- a.constants :: n !in VERSION_CONSTANTS ==> n in b.constants && b.constants[n] == a.constants[n]
    ensures Preserved(a.exports, b.exports) && Preserved(a.capacity, b.capacity)
    ensures Preserved(a.signatures.exports, b.signatures.exports) && Preserved(a.signatures.callbacks, b.signatures.callbacks)
  {
    hide KeepsPromises;
    forall n <- a.constants | n !in VERSION_CONSTANTS ensures n in b.constants && b.constants[n] == a.constants[n] {
      Keep(a, b, Constant(n, a.constants[n]));
    }
    forall n <- a.exports ensures n in b.exports && b.exports[n] == a.exports[n] { Keep(a, b, Export(n, a.exports[n])); }
    forall n <- a.capacity ensures n in b.capacity && b.capacity[n] == a.capacity[n] { Keep(a, b, Capacity(n, a.capacity[n])); }
    forall n <- a.signatures.exports
      ensures n in b.signatures.exports && b.signatures.exports[n] == a.signatures.exports[n]
    {
      Keep(a, b, Signature(n, a.signatures.exports[n]));
    }
    forall n <- a.signatures.callbacks
      ensures n in b.signatures.callbacks && b.signatures.callbacks[n] == a.signatures.callbacks[n]
    {
      Keep(a, b, Callback(n, a.signatures.callbacks[n]));
    }
  }

  lemma StructExactly(a: Description, b: Description, n: string)
    requires KeepsPromises(a, b) && Announced(a, b) && FixedSizesStay(a, b) && n in a.structs
    requires n in b.structs ==> DistinctNames(b.structs[n].fields)
    ensures n in b.structs && StructOk(a.structs[n], b.structs[n])
  {
    hide EntersLater, FieldNamed, KeepsPromises;
    var s := a.structs[n];
    Keep(a, b, Aligned(n, s.alignment));
    Keep(a, b, LeastSize(n, s.minimumSize));
    Keep(a, b, Room(n, s.size));
    var t := b.structs[n];
    forall i | 0 <= i < |s.fields| ensures FieldNamed(t.fields, s.fields[i].name) == Some(s.fields[i]) {
      Keep(a, b, Member(n, s.fields[i]));
      var j :| 0 <= j < |t.fields| && t.fields[j] == s.fields[i];
      FieldNamedIs(t.fields, j);
    }
    forall i | 0 <= i < |t.fields| && !HasName(s, t.fields[i].name)
      ensures s.appendFrom.Some? && s.appendFrom.value <= t.fields[i].offset
    {
      assert t.fields[i] in b.structs[n].fields;
    }
  }

  lemma StructsExactly(a: Description, b: Description)
    requires KeepsPromises(a, b) && a.minor <= b.minor && Announced(a, b) && FixedSizesStay(a, b) && Valid(b)
    ensures StructsOk(a, b)
  {
    hide EntersLater, NumericVersion, StructOk, KeepsPromises;
    forall n <- a.structs ensures n in b.structs && StructOk(a.structs[n], b.structs[n]) {
      StructExactly(a, b, n);
    }
    assert a.minor == b.minor ==> !Grows(a.structs, b.structs);
  }

  lemma AcceptedRest(a: Description, b: Description)
    requires Accepts(a, b)
    ensures FixedSizesStay(a, b) && VersionsAdvance(a, b) && Announced(a, b)
  {
    AcceptedVersions(a, b);
    AcceptedNews(a, b);
    AcceptedStructs(a, b);
  }

  lemma AcceptedVersions(a: Description, b: Description)
    requires Accepts(a, b)
    ensures VersionsAdvance(a, b)
  {
    hide ValidStruct, StructsOk, ConstantsOk, ExportsOk, CapacityOk, SignaturesOk, NumericVersion;
  }

  lemma AcceptedNews(a: Description, b: Description)
    requires Accepts(a, b)
    ensures a.minor == b.minor ==>
      && b.constants.Keys <= a.constants.Keys && b.capacity.Keys <= a.capacity.Keys
      && b.signatures.callbacks.Keys <= a.signatures.callbacks.Keys && b.structs.Keys <= a.structs.Keys
    ensures forall n <- b.exports :: n in a.exports || EntersLater(a, b, n)
    ensures forall n <- b.capacity :: n in a.capacity || (n in b.exports && n !in a.exports)
  {
    hide Valid, StructOk, LinuxOk, MacosOk, NodeMinor;
    if a.minor == b.minor {
      forall n <- b.constants ensures n in a.constants { assert !Grows(a.constants, b.constants); }
      forall n <- b.capacity ensures n in a.capacity { assert !Grows(a.capacity, b.capacity); }
      forall n <- b.signatures.callbacks ensures n in a.signatures.callbacks {
        assert !Grows(a.signatures.callbacks, b.signatures.callbacks);
      }
      forall n <- b.structs ensures n in a.structs { assert !Grows(a.structs, b.structs); }
    }
  }

  lemma AcceptedStructs(a: Description, b: Description)
    requires Accepts(a, b)
    ensures FixedSizesStay(a, b)
    ensures forall n, f :: n in a.structs && n in b.structs && f in b.structs[n].fields ==>
      (exists g <- a.structs[n].fields :: g.name == f.name)
      || (a.structs[n].appendFrom.Some? && a.structs[n].appendFrom.value <= f.offset)
  {
    hide Valid, LinuxOk, MacosOk, ConstantsOk, ExportsOk, CapacityOk, SignaturesOk, FieldNamed;
    forall n, f | n in a.structs && n in b.structs && f in b.structs[n].fields
      ensures (exists g <- a.structs[n].fields :: g.name == f.name)
        || (a.structs[n].appendFrom.Some? && a.structs[n].appendFrom.value <= f.offset)
    {
      var i :| 0 <= i < |b.structs[n].fields| && b.structs[n].fields[i] == f;
      if HasName(a.structs[n], f.name) {
        var j :| 0 <= j < |a.structs[n].fields| && a.structs[n].fields[j].name == f.name;
        assert a.structs[n].fields[j] in a.structs[n].fields;
      }
    }
  }

  lemma KeptAll(a: Description, b: Description)
    requires Accepts(a, b)
    ensures KeepsPromises(a, b)
  {
    hide Accepts, Promises;
    forall p | Promises(a, p) ensures Promises(b, p) { AcceptedKeeps(a, b, p); }
  }

  lemma MinorAdvances(a: Description, b: Description)
    requires VersionsAdvance(a, b)
    ensures a.minor <= b.minor
  {
  }

  /** `compare` accepts exactly when every single promise is kept, fixed sizes stay, versions advance and news is announced. */
  lemma AcceptsExactly(a: Description, b: Description)
    ensures Accepts(a, b) <==>
      Valid(b) && KeepsPromises(a, b) && FixedSizesStay(a, b) && VersionsAdvance(a, b) && Announced(a, b)
  {
    hide Valid, KeepsPromises, FixedSizesStay, VersionsAdvance, Announced, LinuxOk, MacosOk, ConstantsOk, ExportsOk, CapacityOk,
      SignaturesOk, StructsOk;
    if Accepts(a, b) {
      KeptAll(a, b);
      AcceptedRest(a, b);
    }
    if Valid(b) && KeepsPromises(a, b) && FixedSizesStay(a, b) && VersionsAdvance(a, b) && Announced(a, b) {
      MinorAdvances(a, b);
      PlatformsExactly(a, b);
      TablesExactly(a, b);
      StructsExactly(a, b);
    }
  }

  /** Along any chain of accepted releases the last one still makes every promise of the first. */
  lemma {:induction false} ChainKeepsPromises(ds: seq<Description>, p: Promise)
    requires |ds| > 0 && IsChain(ds) && Promises(ds[0], p)
    ensures Promises(ds[|ds| - 1], p)
  {
    hide Accepts, Promises;
    if |ds| > 1 {
      AcceptedKeeps(ds[0], ds[1], p);
      assert IsChain(ds[1..]);
      ChainKeepsPromises(ds[1..], p);
    }
  }

  /** The entry is missing, or has another value. */
  predicate Lost<V(==)>(n: string, a: map<string, V>, b: map<string, V>) {
    n in a && (n in b ==> b[n] != a[n])
  }

  predicate StructLost(n: string, a: map<string, Struct>, b: map<string, Struct>) {
    && n in a
    && (n in b ==>
          || b[n].alignment != a[n].alignment || b[n].minimumSize != a[n].minimumSize || b[n].size < a[n].size
          || exists f <- a[n].fields :: f !in b[n].fields)
  }

  /** One changed or missing entry of any table, and the candidate is refused. */
  lemma OneChangeIsRefused(a: Description, b: Description, n: string)
    requires
      || (n != "TNY_ABI_MINOR" && n != "TNY_ABI_VERSION" && Lost(n, a.constants, b.constants))
      || Lost(n, a.exports, b.exports) || Lost(n, a.capacity, b.capacity)
      || Lost(n, a.signatures.exports, b.signatures.exports) || Lost(n, a.signatures.callbacks, b.signatures.callbacks)
      || StructLost(n, a.structs, b.structs)
    ensures !Accepts(a, b)
  {
    hide Accepts, StructLost, Preserved;
    if Accepts(a, b) {
      KeptAll(a, b);
      EntriesKept(a, b);
      StructNotLost(a, b, n);
      if n in a.constants && n !in VERSION_CONSTANTS { ConstantKept(a, b, n); }
      if n in a.exports { EntryKept(a.exports, b.exports, n); }
      if n in a.capacity { EntryKept(a.capacity, b.capacity, n); }
      if n in a.signatures.exports { EntryKept(a.signatures.exports, b.signatures.exports, n); }
      if n in a.signatures.callbacks { EntryKept(a.signatures.callbacks, b.signatures.callbacks, n); }
    }
  }

  lemma StructNotLost(a: Description, b: Description, n: string)
    requires KeepsPromises(a, b)
    ensures !StructLost(n, a.structs, b.structs)
  {
    hide KeepsPromises;
    if n in a.structs {
      var s := a.structs[n];
      Keep(a, b, Aligned(n, s.alignment));
      Keep(a, b, LeastSize(n, s.minimumSize));
      Keep(a, b, Room(n, s.size));
      forall f <- s.fields ensures f in b.structs[n].fields { Keep(a, b, Member(n, f)); }
    }
  }
}
