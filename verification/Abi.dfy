/** ABI descriptions, the compatibility relation `compare` decides between two of them, and how it composes. */
module Abi {
  import opened Common
  import opened Versions

  datatype Mode = Fixed | SizedTail

  /** `extra` stands for any further keys of a field's record, which are compared with the rest. */
  datatype Field = Field(name: string, offset: int, size: int, extra: string)

  datatype Struct = Struct(
    size: int, alignment: int, minimumSize: int, mode: Mode, appendFrom: Option<int>, fields: seq<Field>)

  datatype Linux = Linux(architectures: seq<string>, soname: string, linkerName: string, nodes: seq<string>)

  datatype Macos = Macos(
    architectures: seq<string>, installName: string, compatibility: string, rule: string, current: string)

  datatype Signatures = Signatures(exports: map<string, string>, callbacks: map<string, string>)

  datatype Description = Description(
    major: int, minor: int, dataModel: string, callingConvention: string, compatibility: string,
    linux: Linux, macos: Macos, unsupported: seq<string>,
    constants: map<string, int>, exports: map<string, string>, capacity: map<string, string>,
    signatures: Signatures, structs: map<string, Struct>)

  // ---- Version nodes ---------------------------------------------------------------------

  const NODE_PREFIX := "LIBTNY_1."

  function NodeName(minor: nat): string {
    NODE_PREFIX + Decimal(minor)
  }

  predicate IsNode(node: string) {
    |NODE_PREFIX| <= |node| && node[..|NODE_PREFIX|] == NODE_PREFIX
  }

  function NodeMinor(node: string): Option<nat> {
    if IsNode(node) then Digits(node[|NODE_PREFIX|..]) else None
  }

  // ---- Validity --------------------------------------------------------------------------

  predicate DistinctNames(fields: seq<Field>) {
    forall i, j :: 0 <= i < j < |fields| ==> fields[i].name != fields[j].name
  }

  /** Field `i` has positive size, lies inside the struct and starts after the field before it. */
  predicate FieldFits(fields: seq<Field>, i: nat, size: int)
    requires i < |fields|
  {
    && 0 < fields[i].size && fields[i].offset + fields[i].size <= size
    && (if i == 0 then 0 else fields[i - 1].offset + fields[i - 1].size) <= fields[i].offset
  }

  /** Fields in order, inside the struct, of positive size and not overlapping. */
  predicate LaidOut(fields: seq<Field>, size: int) {
    forall i :: 0 <= i < |fields| ==> FieldFits(fields, i, size)
  }

  predicate ValidStruct(s: Struct) {
    && 0 < s.size && 0 < s.alignment && s.size % s.alignment == 0
    && 0 < s.minimumSize <= s.size
    && (s.mode.SizedTail? ==> s.appendFrom == Some(s.size))
    && s.fields != [] && DistinctNames(s.fields) && LaidOut(s.fields, s.size)
  }

  predicate Valid(d: Description) {
    && d.major == 1 && 0 <= d.minor
    && (forall n <- d.exports :: IsNode(d.exports[n]))
    && d.capacity.Keys <= d.exports.Keys && d.signatures.exports.Keys <= d.exports.Keys
    && d.structs != map[] && forall n <- d.structs :: ValidStruct(d.structs[n])
  }

  // ---- Compatibility ---------------------------------------------------------------------

  /** Every entry of `a` is unchanged in `b`. */
  predicate Preserved<V(==)>(a: map<string, V>, b: map<string, V>) {
    forall n <- a :: n in b && b[n] == a[n]
  }

  predicate Grows<V>(a: map<string, V>, b: map<string, V>) {
    exists n <- b :: n !in a
  }

  const VERSION_CONSTANTS := {"TNY_ABI_MINOR", "TNY_ABI_VERSION"}

  predicate ConstantsOk(a: Description, b: Description) {
    && (forall n <- a.constants :: n !in VERSION_CONSTANTS ==> n in b.constants && b.constants[n] == a.constants[n])
    && (Grows(a.constants, b.constants) ==> a.minor < b.minor)
  }

  predicate ExportsOk(a: Description, b: Description) {
    && Preserved(a.exports, b.exports)
    && forall n <- b.exports :: n !in a.exports ==>
         && NodeMinor(b.exports[n]).Some? && a.minor < NodeMinor(b.exports[n]).value <= b.minor
         && b.exports[n] in b.linux.nodes
         && n in b.signatures.exports
  }

  predicate CapacityOk(a: Description, b: Description) {
    && Preserved(a.capacity, b.capacity)
    && (Grows(a.capacity, b.capacity) ==> a.minor < b.minor)
    && forall n <- b.capacity :: n !in a.capacity ==> n in b.exports && n !in a.exports
  }

  predicate SignaturesOk(a: Description, b: Description) {
    && Preserved(a.signatures.exports, b.signatures.exports)
    && Preserved(a.signatures.callbacks, b.signatures.callbacks)
    && (Grows(a.signatures.callbacks, b.signatures.callbacks) ==> a.minor < b.minor)
  }

  predicate LinuxOk(a: Description, b: Description) {
    && b.linux.architectures == a.linux.architectures
    && b.linux.soname == a.linux.soname && b.linux.linkerName == a.linux.linkerName
    && a.linux.nodes <= b.linux.nodes
    && 0 <= b.minor && b.linux.nodes != [] && b.linux.nodes[|b.linux.nodes| - 1] == NodeName(b.minor)
  }

  predicate MacosOk(a: Description, b: Description) {
    && b.macos.architectures == a.macos.architectures && b.macos.installName == a.macos.installName
    && b.macos.compatibility == a.macos.compatibility && b.macos.rule == a.macos.rule
    && NumericVersion(a.macos.current).Some? && NumericVersion(b.macos.current).Some?
    && AtMost(NumericVersion(a.macos.current).value, NumericVersion(b.macos.current).value)
  }

  predicate HasName(s: Struct, name: string) {
    exists i :: 0 <= i < |s.fields| && s.fields[i].name == name
  }

  /** The last field with this name, as a dictionary keyed by name keeps it. */
  function FieldNamed(fields: seq<Field>, name: string): Option<Field> {
    if fields == [] then None
    else if fields[|fields| - 1].name == name then Some(fields[|fields| - 1])
    else FieldNamed(fields[..|fields| - 1], name)
  }

  predicate StructOk(a: Struct, b: Struct) {
    && b.alignment == a.alignment && b.minimumSize == a.minimumSize
    && (a.mode.Fixed? ==> b.size == a.size) && (a.mode.SizedTail? ==> a.size <= b.size)
    && (forall i :: 0 <= i < |a.fields| ==> FieldNamed(b.fields, a.fields[i].name) == Some(a.fields[i]))
    && (forall i :: 0 <= i < |b.fields| && !HasName(a, b.fields[i].name) ==>
          a.appendFrom.Some? && a.appendFrom.value <= b.fields[i].offset)
  }

  predicate StructsOk(a: Description, b: Description) {
    && (forall n <- a.structs :: n in b.structs && StructOk(a.structs[n], b.structs[n]))
    && (Grows(a.structs, b.structs) ==> a.minor < b.minor)
  }

  /** `compare` finds no error: candidate `b` may follow baseline `a`. */
  predicate Accepts(a: Description, b: Description) {
    && Valid(b)
    && b.dataModel == a.dataModel && b.callingConvention == a.callingConvention && b.compatibility == a.compatibility
    && b.major == a.major && a.minor <= b.minor
    && LinuxOk(a, b) && MacosOk(a, b) && b.unsupported == a.unsupported
    && ConstantsOk(a, b) && ExportsOk(a, b) && CapacityOk(a, b) && SignaturesOk(a, b) && StructsOk(a, b)
  }

  // ---- Structs along two steps -----------------------------------------------------------

  lemma {:induction false} FieldNamedIs(fields: seq<Field>, i: nat)
    requires i < |fields| && DistinctNames(fields)
    ensures FieldNamed(fields, fields[i].name) == Some(fields[i])
  {
    if i < |fields| - 1 { FieldNamedIs(fields[..|fields| - 1], i); }
  }

  lemma {:induction false} FieldNamedFound(fields: seq<Field>, name: string)
    ensures match FieldNamed(fields, name)
      case Some(f) => f.name == name && exists i :: 0 <= i < |fields| && fields[i] == f
      case None => forall i :: 0 <= i < |fields| ==> fields[i].name != name
  {
    if fields != [] && fields[|fields| - 1].name != name {
      FieldNamedFound(fields[..|fields| - 1], name);
      var f := FieldNamed(fields[..|fields| - 1], name);
      if f.Some? {
        var i :| 0 <= i < |fields| - 1 && fields[..|fields| - 1][i] == f.value;
        assert fields[i] == f.value;
      }
    }
  }

  /** A later release may put a new field at this offset. */
  predicate MayAppend(s: Struct, o: int) {
    s.appendFrom.Some? && s.appendFrom.value <= o
  }

  predicate Covered(s: Struct, o: int) {
    exists i :: 0 <= i < |s.fields| && s.fields[i].offset <= o < s.fields[i].offset + s.fields[i].size
  }

  /** Fields in order do not overlap, however far apart they stand. */
  lemma {:induction false} InOrder(fields: seq<Field>, size: int, i: nat, j: nat)
    requires LaidOut(fields, size) && i < j < |fields|
    ensures 0 <= fields[i].offset && fields[i].offset + fields[i].size <= fields[j].offset
    decreases j
  {
    assert FieldFits(fields, i, size) && FieldFits(fields, j, size) && FieldFits(fields, j - 1, size);
    if i < j - 1 { InOrder(fields, size, i, j - 1); } else { NotNegative(fields, size, i); }
  }

  lemma {:induction false} NotNegative(fields: seq<Field>, size: int, i: nat)
    requires LaidOut(fields, size) && i < |fields|
    ensures 0 <= fields[i].offset
  {
    assert FieldFits(fields, i, size);
    if i > 0 { NotNegative(fields, size, i - 1); assert FieldFits(fields, i - 1, size); }
  }

  /** What an accepted step keeps of one struct: its field records as they were, and its size at least. */
  predicate StructKeeps(a: Struct, b: Struct) {
    && a.size <= b.size && b.alignment == a.alignment && b.minimumSize == a.minimumSize
    && (forall i :: 0 <= i < |a.fields| ==> FieldNamed(b.fields, a.fields[i].name) == Some(a.fields[i]))
  }

  /** A field that is kept is a field of the later struct. */
  lemma FieldStays(a: Struct, b: Struct, i: nat) returns (j: nat)
    requires i < |a.fields| && FieldNamed(b.fields, a.fields[i].name) == Some(a.fields[i])
    ensures j < |b.fields| && b.fields[j] == a.fields[i]
  {
    FieldNamedFound(b.fields, a.fields[i].name);
    j :| 0 <= j < |b.fields| && b.fields[j] == a.fields[i];
  }

  lemma NameStays(a: Struct, b: Struct, name: string)
    requires HasName(a, name)
    requires forall i :: 0 <= i < |a.fields| ==> FieldNamed(b.fields, a.fields[i].name) == Some(a.fields[i])
    ensures HasName(b, name)
  {
    var i :| 0 <= i < |a.fields| && a.fields[i].name == name;
    var j := FieldStays(a, b, i);
  }

  lemma KeepsTransitive(a: Struct, b: Struct, c: Struct)
    requires StructKeeps(a, b) && StructKeeps(b, c)
    ensures StructKeeps(a, c)
  {
    forall i | 0 <= i < |a.fields| ensures FieldNamed(c.fields, a.fields[i].name) == Some(a.fields[i]) {
      var j := FieldStays(a, b, i);
    }
  }

  /** A field of `c` that `b` already names is the field `b` has. */
  lemma OldField(b: Struct, c: Struct, i: nat) returns (j: nat)
    requires DistinctNames(c.fields) && i < |c.fields| && HasName(b, c.fields[i].name)
    requires forall j :: 0 <= j < |b.fields| ==> FieldNamed(c.fields, b.fields[j].name) == Some(b.fields[j])
    ensures j < |b.fields| && b.fields[j] == c.fields[i]
  {
    j :| 0 <= j < |b.fields| && b.fields[j].name == c.fields[i].name;
    FieldNamedIs(c.fields, i);
  }

  /**
   * Two accepted steps of one struct make an accepted step exactly when no fixed struct has become growable and grown,
   * and every field new in the second step stands where the first struct would have let it in.
   */
  lemma StructComposes(a: Struct, b: Struct, c: Struct)
    requires StructOk(a, b) && StructOk(b, c) && DistinctNames(c.fields)
    ensures StructOk(a, c) <==>
      && (a.mode.Fixed? && b.mode.SizedTail? ==> c.size == b.size)
      && forall i :: 0 <= i < |c.fields| && !HasName(b, c.fields[i].name) ==> MayAppend(a, c.fields[i].offset)
  {
    forall i | 0 <= i < |a.fields| ensures FieldNamed(c.fields, a.fields[i].name) == Some(a.fields[i]) {
      var j := FieldStays(a, b, i);
    }
    forall i | 0 <= i < |c.fields|
      ensures HasName(b, c.fields[i].name) && !HasName(a, c.fields[i].name) ==> MayAppend(a, c.fields[i].offset)
      ensures HasName(a, c.fields[i].name) ==> HasName(b, c.fields[i].name)
    {
      if HasName(a, c.fields[i].name) { NameStays(a, b, c.fields[i].name); }
      if HasName(b, c.fields[i].name) { var j := OldField(b, c, i); }
    }
  }

  /** Wherever `b` leaves a byte free for a new field, `a` would have let that field in too. */
  predicate Guarded(a: Struct, b: Struct) {
    forall o :: 0 <= o < b.size && MayAppend(b, o) && !Covered(b, o) ==> MayAppend(a, o)
  }

  /** After this step `b` alone can be trusted with every later field and every later size. */
  predicate StructSafe(a: Struct, b: Struct) {
    (a.mode.Fixed? ==> b.mode.Fixed?) && Guarded(a, b)
  }

  lemma NewFieldIsFree(b: Struct, c: Struct, i: nat)
    requires StructOk(b, c) && ValidStruct(c) && i < |c.fields| && !HasName(b, c.fields[i].name)
    ensures 0 <= c.fields[i].offset < c.size && MayAppend(b, c.fields[i].offset) && !Covered(b, c.fields[i].offset)
  {
    hide FieldNamed;
    NotNegative(c.fields, c.size, i);
    assert FieldFits(c.fields, i, c.size);
    forall j | 0 <= j < |b.fields|
      ensures !(b.fields[j].offset <= c.fields[i].offset < b.fields[j].offset + b.fields[j].size)
    {
      var k := FieldStays(b, c, j);
      assert c.fields[k].name != c.fields[i].name;
      if k < i { InOrder(c.fields, c.size, k, i); } else { InOrder(c.fields, c.size, i, k); }
    }
  }

  lemma SafeStructComposes(a: Struct, b: Struct, c: Struct)
    requires ValidStruct(a) && ValidStruct(b) && ValidStruct(c)
    requires StructOk(a, b) && StructOk(b, c) && StructSafe(a, b)
    ensures StructOk(a, c)
  {
    hide FieldNamed, HasName, Covered;
    forall i | 0 <= i < |c.fields| && !HasName(b, c.fields[i].name) ensures MayAppend(a, c.fields[i].offset) {
      NewFieldIsFree(b, c, i);
    }
    StructComposes(a, b, c);
  }

  // ---- Descriptions along two steps ------------------------------------------------------

  lemma PreservedTransitive<V>(a: map<string, V>, b: map<string, V>, c: map<string, V>)
    requires Preserved(a, b) && Preserved(b, c)
    ensures Preserved(a, c)
  {
  }

  lemma GrowthSteps<V>(a: map<string, V>, b: map<string, V>, c: map<string, V>)
    ensures Grows(a, c) ==> Grows(a, b) || Grows(b, c)
  {
    if Grows(a, c) {
      var n :| n in c && n !in a;
      if n in b { assert Grows(a, b); } else { assert Grows(b, c); }
    }
  }

  lemma ConstantsCompose(a: Description, b: Description, c: Description)
    requires a.minor <= b.minor <= c.minor && ConstantsOk(a, b) && ConstantsOk(b, c)
    ensures ConstantsOk(a, c)
  {
    GrowthSteps(a.constants, b.constants, c.constants);
  }

  lemma ExportsCompose(a: Description, b: Description, c: Description)
    requires a.minor <= b.minor <= c.minor && ExportsOk(a, b) && ExportsOk(b, c)
    requires b.linux.nodes <= c.linux.nodes && Preserved(b.signatures.exports, c.signatures.exports)
    ensures ExportsOk(a, c)
  {
    PreservedTransitive(a.exports, b.exports, c.exports);
    forall n <- c.exports | n !in a.exports
      ensures NodeMinor(c.exports[n]).Some? && a.minor < NodeMinor(c.exports[n]).value <= c.minor
        && c.exports[n] in c.linux.nodes && n in c.signatures.exports
    {
      if n in b.exports {
        assert b.exports[n] in b.linux.nodes;
        var k :| 0 <= k < |b.linux.nodes| && b.linux.nodes[k] == b.exports[n];
        assert c.linux.nodes[k] == b.exports[n];
      }
    }
  }

  lemma CapacityCompose(a: Description, b: Description, c: Description)
    requires a.minor <= b.minor <= c.minor && CapacityOk(a, b) && CapacityOk(b, c)
    requires Preserved(a.exports, b.exports) && Preserved(b.exports, c.exports)
    ensures CapacityOk(a, c)
  {
    GrowthSteps(a.capacity, b.capacity, c.capacity);
  }

  lemma SignaturesCompose(a: Description, b: Description, c: Description)
    requires a.minor <= b.minor <= c.minor && SignaturesOk(a, b) && SignaturesOk(b, c)
    ensures SignaturesOk(a, c)
  {
    GrowthSteps(a.signatures.callbacks, b.signatures.callbacks, c.signatures.callbacks);
  }

  lemma PlatformsCompose(a: Description, b: Description, c: Description)
    requires LinuxOk(a, b) && LinuxOk(b, c) && MacosOk(a, b) && MacosOk(b, c)
    ensures LinuxOk(a, c) && MacosOk(a, c)
  {
  }

  /** No struct that was fixed in `a` became growable in `b`. */
  predicate FixedStaysFixed(a: Description, b: Description) {
    forall n <- a.structs :: n in b.structs && a.structs[n].mode.Fixed? ==> b.structs[n].mode.Fixed?
  }

  /** And no struct lets a later release in where it had kept it out. */
  predicate SafeStep(a: Description, b: Description) {
    forall n <- a.structs :: n in b.structs ==> StructSafe(a.structs[n], b.structs[n])
  }

  /** Appending starts where the struct ends. `validate` asks this of growable structs only. */
  predicate Boundaries(d: Description) {
    forall n <- d.structs :: d.structs[n].appendFrom == Some(d.structs[n].size)
  }

  /** Where a description keeps its boundaries at the end of its structs, only the modes matter. */
  lemma BoundariesGuard(a: Description, b: Description)
    requires Boundaries(b)
    ensures SafeStep(a, b) <==> FixedStaysFixed(a, b)
  {
    hide Covered;
  }

  lemma StructsCompose(a: Description, b: Description, c: Description)
    requires a.minor <= b.minor <= c.minor && StructsOk(a, b) && StructsOk(b, c)
    requires Valid(a) && Valid(b) && Valid(c) && SafeStep(a, b)
    ensures StructsOk(a, c)
  {
    hide StructOk, ValidStruct, StructSafe;
    GrowthSteps(a.structs, b.structs, c.structs);
    forall n <- a.structs ensures n in c.structs && StructOk(a.structs[n], c.structs[n]) {
      SafeStructComposes(a.structs[n], b.structs[n], c.structs[n]);
    }
  }

  /** Compatibility composes after every safe step. */
  lemma AcceptanceComposes(a: Description, b: Description, c: Description)
    requires Valid(a) && Accepts(a, b) && Accepts(b, c) && SafeStep(a, b)
    ensures Accepts(a, c)
  {
    hide StructOk, ExportsOk, ConstantsOk, CapacityOk, SignaturesOk, LinuxOk, MacosOk, StructsOk, Valid, SafeStep;
    assert Preserved(a.exports, b.exports) && Preserved(b.exports, c.exports) && b.linux.nodes <= c.linux.nodes
      && Preserved(b.signatures.exports, c.signatures.exports) by { Kept(a, b); Kept(b, c); }
    ConstantsCompose(a, b, c);
    ExportsCompose(a, b, c);
    CapacityCompose(a, b, c);
    SignaturesCompose(a, b, c);
    PlatformsCompose(a, b, c);
    StructsCompose(a, b, c);
  }

  lemma Kept(a: Description, b: Description)
    requires Accepts(a, b)
    ensures Preserved(a.exports, b.exports) && a.linux.nodes <= b.linux.nodes
    ensures Preserved(a.signatures.exports, b.signatures.exports)
  {
  }

  // ---- The exact condition ---------------------------------------------------------------

  /** The next release of a growable struct: one more alignment unit at the end. */
  function Grown(s: Struct): Struct {
    s.(size := s.size + s.alignment, appendFrom := Some(s.size + s.alignment))
  }

  lemma GrownIsNext(s: Struct)
    requires ValidStruct(s) && s.mode.SizedTail?
    ensures ValidStruct(Grown(s)) && StructOk(s, Grown(s))
  {
    assert (s.size + s.alignment) % s.alignment == 0 by { ModAdd(s.size, s.alignment); }
    var size := s.size + s.alignment;
    forall i | 0 <= i < |s.fields| ensures FieldFits(s.fields, i, size) {
      assert FieldFits(s.fields, i, s.size);
    }
    forall i | 0 <= i < |s.fields| ensures FieldNamed(s.fields, s.fields[i].name) == Some(s.fields[i]) {
      FieldNamedIs(s.fields, i);
    }
  }

  lemma ModAdd(x: int, m: int)
    requires 0 < m && x % m == 0
    ensures (x + m) % m == 0
  {
    var q := x / m;
    assert x == q * m;
    assert x + m == (q + 1) * m;
    assert (q + 1) * m % m == 0 by { MulMod(q + 1, m); }
  }

  lemma MulMod(q: int, m: int)
    requires 0 < m
    ensures q * m % m == 0
  {
    var r := q * m % m;
    var d := q * m / m;
    assert q * m == d * m + r;
    assert r == (q - d) * m;
    assert q - d >= 1 ==> (q - d) * m >= m;
    assert q - d <= -1 ==> (q - d) * m <= -m;
  }

  lemma SelfOk(s: Struct)
    requires ValidStruct(s)
    ensures StructOk(s, s)
  {
    forall i | 0 <= i < |s.fields| ensures FieldNamed(s.fields, s.fields[i].name) == Some(s.fields[i]) {
      FieldNamedIs(s.fields, i);
    }
  }

  function WithStruct(d: Description, name: string, s: Struct): Description {
    d.(structs := d.structs[name := s])
  }

  /** Nothing but structs changes from `b` to `c`, and `b` is complete enough to have been accepted itself. */
  lemma OnlyStructsChange(b: Description, c: Description)
    requires c.(structs := b.structs) == b && LinuxOk(b, b) && NumericVersion(b.macos.current).Some?
    ensures LinuxOk(b, c) && MacosOk(b, c) && ConstantsOk(b, c) && ExportsOk(b, c) && CapacityOk(b, c) && SignaturesOk(b, c)
  {
    hide NodeName, NumericVersion, NodeMinor;
  }

  lemma LinuxSelf(a: Description, b: Description)
    requires LinuxOk(a, b)
    ensures LinuxOk(b, b)
  {
  }

  lemma OthersValid(b: Description, c: Description)
    requires Valid(b) && c.(structs := b.structs) == b
    requires c.structs != map[] && forall n <- c.structs :: ValidStruct(c.structs[n])
    ensures Valid(c)
  {
    hide ValidStruct;
  }

  /** A release that only takes one struct a step further is accepted. */
  lemma OneStructFurther(a: Description, b: Description, name: string, s: Struct)
    requires Accepts(a, b) && name in b.structs && ValidStruct(s) && StructOk(b.structs[name], s)
    ensures Accepts(b, WithStruct(b, name, s))
  {
    hide ValidStruct, StructOk, LinuxOk, MacosOk, ConstantsOk, ExportsOk, CapacityOk, SignaturesOk;
    var c := WithStruct(b, name, s);
    forall n <- b.structs ensures n in c.structs && StructOk(b.structs[n], c.structs[n]) && ValidStruct(c.structs[n]) {
      SelfOk(b.structs[n]);
    }
    assert !Grows(b.structs, c.structs);
    assert name in c.structs;
    OthersValid(b, c);
    LinuxSelf(a, b);
    assert NumericVersion(b.macos.current).Some? by { VersionOf(a, b); }
    assert c.(structs := b.structs) == b;
    OnlyStructsChange(b, c);
  }

  lemma VersionOf(a: Description, b: Description)
    requires MacosOk(a, b)
    ensures NumericVersion(b.macos.current).Some?
  {
  }

  function Longest(fields: seq<Field>): (n: nat)
    ensures forall i :: 0 <= i < |fields| ==> |fields[i].name| <= n
  {
    if fields == [] then 0
    else
      var rest, last := Longest(fields[..|fields| - 1]), |fields[|fields| - 1].name|;
      assert forall i :: 0 <= i < |fields| - 1 ==> fields[..|fields| - 1][i] == fields[i];
      if last > rest then last else rest
  }

  /** A one-byte field under a new name. */
  function Byte(s: Struct, o: int): Field {
    Field(seq(Longest(s.fields) + 1, i => 'x'), o, 1, "")
  }

  /** How many leading fields start at or before an offset. */
  function UpTo(fields: seq<Field>, o: int, i: nat): (p: nat)
    requires i <= |fields| && forall j :: 0 <= j < i ==> fields[j].offset <= o
    ensures p <= |fields| && (forall j :: 0 <= j < p ==> fields[j].offset <= o) && (p < |fields| ==> fields[p].offset > o)
    decreases |fields| - i
  {
    if i == |fields| || fields[i].offset > o then i else UpTo(fields, o, i + 1)
  }

  /** The struct with a one-byte field in a free place. */
  function WithByte(s: Struct, o: int): Struct {
    var p := UpTo(s.fields, o, 0);
    s.(fields := s.fields[..p] + [Byte(s, o)] + s.fields[p..])
  }

  lemma ByteFits(s: Struct, o: int)
    requires ValidStruct(s) && 0 <= o < s.size && !Covered(s, o)
    ensures ValidStruct(WithByte(s, o)) && !HasName(s, Byte(s, o).name) && Byte(s, o) in WithByte(s, o).fields
  {
    hide Longest, UpTo;
    var p := UpTo(s.fields, o, 0);
    var fields := WithByte(s, o).fields;
    assert forall i :: 0 <= i < p ==> fields[i] == s.fields[i];
    assert fields[p] == Byte(s, o);
    assert forall i :: p < i < |fields| ==> fields[i] == s.fields[i - 1];
    forall i | 0 <= i < |fields| ensures FieldFits(fields, i, s.size) {
      if i < p {
        assert FieldFits(s.fields, i, s.size);
      } else if i == p {
        assert p > 0 ==> s.fields[p - 1].offset + s.fields[p - 1].size <= o;
      } else {
        assert FieldFits(s.fields, i - 1, s.size);
      }
    }
    forall i, j | 0 <= i < j < |fields| ensures fields[i].name != fields[j].name {
      assert i != p ==> fields[i] == s.fields[if i < p then i else i - 1];
      assert j != p ==> fields[j] == s.fields[if j < p then j else j - 1];
    }
  }

  lemma ByteIsAccepted(s: Struct, o: int)
    requires ValidStruct(s) && 0 <= o < s.size && MayAppend(s, o) && !Covered(s, o)
    ensures ValidStruct(WithByte(s, o)) && StructOk(s, WithByte(s, o))
  {
    hide Longest, UpTo, FieldNamed, Covered, FieldFits;
    ByteFits(s, o);
    var p := UpTo(s.fields, o, 0);
    var c := WithByte(s, o);
    forall i | 0 <= i < |s.fields| ensures FieldNamed(c.fields, s.fields[i].name) == Some(s.fields[i]) {
      var j := if i < p then i else i + 1;
      assert c.fields[j] == s.fields[i];
      FieldNamedIs(c.fields, j);
    }
    forall i | 0 <= i < |c.fields| && i != p ensures HasName(s, c.fields[i].name) {
      assert c.fields[i] == s.fields[if i < p then i else i - 1];
    }
  }

  /** What an unsafe struct can become next, accepted against `b` and not against `a`. */
  lemma UnsafeStructFails(a: Struct, b: Struct) returns (c: Struct)
    requires ValidStruct(a) && ValidStruct(b) && StructOk(a, b) && !StructSafe(a, b)
    ensures ValidStruct(c) && StructOk(b, c) && !StructOk(a, c)
  {
    hide FieldNamed, Covered, FieldFits;
    if a.mode.Fixed? && b.mode.SizedTail? {
      c := Grown(b);
      GrownIsNext(b);
    } else {
      var o :| 0 <= o < b.size && MayAppend(b, o) && !Covered(b, o) && !MayAppend(a, o);
      c := WithByte(b, o);
      ByteIsAccepted(b, o);
      ByteFits(b, o);
      var f := Byte(b, o);
      var i :| 0 <= i < |c.fields| && c.fields[i] == f;
      if HasName(a, f.name) { NameStays(a, b, f.name); }
    }
  }

  /**
   * For an accepted step from `a` to `b` it is safe to forget `a` and compare every later candidate with `b` alone
   * exactly when no fixed struct turned growable and no struct lets a new field in where it had kept it out. The
   * comparison never looks at the candidate's mode or boundary.
   */
  lemma ComposesExactlyWhenSafe(a: Description, b: Description)
    requires Valid(a) && Accepts(a, b)
    ensures SafeStep(a, b) <==> forall c :: Accepts(b, c) ==> Accepts(a, c)
  {
    hide StructOk, ValidStruct, StructSafe, LinuxOk, MacosOk, ConstantsOk, ExportsOk, CapacityOk, SignaturesOk;
    if SafeStep(a, b) {
      forall c | Accepts(b, c) ensures Accepts(a, c) { AcceptanceComposes(a, b, c); }
    } else {
      var n :| n in a.structs && n in b.structs && !StructSafe(a.structs[n], b.structs[n]);
      var s := UnsafeStructFails(a.structs[n], b.structs[n]);
      var c := WithStruct(b, n, s);
      OneStructFurther(a, b, n, s);
      assert c.structs[n] == s && !Accepts(a, c);
    }
  }

  // ---- The failing inputs ----------------------------------------------------------------

  function Sample(s: Struct): Description {
    Description(1, 0, "LP64", "C11", "rules",
      Linux(["x86_64"], "libtny.so.1", "libtny.so", [NodeName(0)]),
      Macos(["arm64"], "@rpath/libtny.1.dylib", "1.0.0", "monotonic", "1.0.0"), [],
      map["OK" := 0], map["tny_open" := NodeName(0)], map[],
      Signatures(map["tny_open" := "int"], map[]), map["tny_bytes" := s])
  }

  /** Sample descriptions are accepted one after the other exactly when their structs are. */
  lemma SampleSteps(s: Struct, t: Struct)
    requires ValidStruct(s) && ValidStruct(t)
    ensures Valid(Sample(s)) && (Accepts(Sample(s), Sample(t)) <==> StructOk(s, t))
  {
    hide ValidStruct, StructOk, NumericVersion, NodeName;
    assert NumericVersion("1.0.0").Some? by { VersionOne(); }
    assert IsNode(NodeName(0)) by { NodeIsNode(); }
    assert "tny_bytes" in Sample(s).structs && "tny_bytes" in Sample(t).structs;
    assert Sample(s).structs["tny_bytes"] == s && Sample(t).structs["tny_bytes"] == t;
    OnlyStructsChange(Sample(s), Sample(t));
  }

  lemma NodeIsNode()
    ensures IsNode(NodeName(0))
  {
  }

  /** The first failing family in one example: fixed, then growable at the same size, then grown. */
  lemma ModeChangeBreaksComposition()
    ensures var f := [Field("ptr", 0, 8, "")];
      var a, b, c := Struct(8, 8, 8, Fixed, Some(8), f), Struct(8, 8, 8, SizedTail, Some(8), f),
        Struct(16, 8, 8, SizedTail, Some(16), f);
      Valid(Sample(a)) && Accepts(Sample(a), Sample(b)) && Accepts(Sample(b), Sample(c)) && !Accepts(Sample(a), Sample(c))
  {
    hide Valid, Accepts, FieldNamed;
    var f := [Field("ptr", 0, 8, "")];
    var a, b, c := Struct(8, 8, 8, Fixed, Some(8), f), Struct(8, 8, 8, SizedTail, Some(8), f),
      Struct(16, 8, 8, SizedTail, Some(16), f);
    FieldNamedIs(f, 0);
    SampleSteps(a, b);
    SampleSteps(b, c);
    SampleSteps(a, c);
    assert f[0].name == "ptr" && HasName(a, "ptr") && HasName(b, "ptr");
  }

  /** The second, with every struct fixed at 16 bytes: the boundary falls from 8 to 4, and a field enters at 4. */
  lemma LowerBoundaryBreaksComposition()
    ensures var f, g, h := Field("f", 0, 4, ""), Field("g", 8, 8, ""), Field("h", 4, 4, "");
      var a, b, c := Struct(16, 8, 8, Fixed, Some(8), [f]), Struct(16, 8, 8, Fixed, Some(4), [f, g]),
        Struct(16, 8, 8, Fixed, Some(4), [f, h, g]);
      Valid(Sample(a)) && Accepts(Sample(a), Sample(b)) && Accepts(Sample(b), Sample(c)) && !Accepts(Sample(a), Sample(c))
  {
    hide Valid, Accepts, FieldNamed;
    var f, g, h := Field("f", 0, 4, ""), Field("g", 8, 8, ""), Field("h", 4, 4, "");
    var a, b, c := Struct(16, 8, 8, Fixed, Some(8), [f]), Struct(16, 8, 8, Fixed, Some(4), [f, g]),
      Struct(16, 8, 8, Fixed, Some(4), [f, h, g]);
    FieldNamedIs([f, g], 0);
    FieldNamedIs([f, h, g], 0);
    FieldNamedIs([f, h, g], 2);
    SampleSteps(a, b);
    SampleSteps(b, c);
    SampleSteps(a, c);
    assert a.fields[0].name == "f" && b.fields[0].name == "f" && b.fields[1].name == "g";
    assert HasName(a, "f") && HasName(b, "f") && HasName(b, "g");
    assert c.fields[1] == h && !HasName(a, "h");
  }

  lemma VersionOne()
    ensures NumericVersion("1.0.0").Some?
  {
    var s := "1.0.0";
    assert DotFrom(s, 1) == 1 && DotFrom(s, 0) == 1;
    assert DotFrom(s, 3) == 3 && DotFrom(s, 2) == 3;
    assert s[..1] == "1" && s[2..3] == "0" && s[4..] == "0";
  }

  // ---- Chains ----------------------------------------------------------------------------

  predicate IsChain(ds: seq<Description>) {
    forall i :: 0 <= i < |ds| - 1 ==> Accepts(ds[i], ds[i + 1])
  }

  /** Step `k` of the chain brought this field into the struct, at or after the boundary the struct had before it. */
  predicate LetIn(ds: seq<Description>, name: string, f: Field, k: int) {
    && 0 <= k < |ds| - 1 && name in ds[k].structs && name in ds[k + 1].structs
    && !HasName(ds[k].structs[name], f.name) && f in ds[k + 1].structs[name].fields
    && MayAppend(ds[k].structs[name], f.offset)
  }

  /**
   * Along any chain of accepted releases, whatever happens to modes and boundaries: every field of the first release
   * keeps its record, no struct shrinks, and every later field was let in by some step, at or after the boundary that
   * stood before that step.
   */
  lemma {:induction false} ChainKeepsLayout(ds: seq<Description>, name: string)
    requires |ds| > 0 && IsChain(ds) && Valid(ds[0]) && name in ds[0].structs
    ensures var last := ds[|ds| - 1];
      && Valid(last) && name in last.structs && StructKeeps(ds[0].structs[name], last.structs[name])
      && forall f <- last.structs[name].fields :: !HasName(ds[0].structs[name], f.name) ==> exists k :: LetIn(ds, name, f, k)
  {
    hide StructKeeps, StructOk, ValidStruct, DistinctNames, LinuxOk, MacosOk, ConstantsOk, ExportsOk, CapacityOk, SignaturesOk,
      HasName, MayAppend;
    var n := |ds| - 1;
    if n == 0 {
      SelfKeeps(ds[0].structs[name]);
    } else {
      var front := ds[..n];
      assert IsChain(front) by {
        forall i | 0 <= i < |front| - 1 ensures Accepts(front[i], front[i + 1]) {
          assert front[i] == ds[i] && front[i + 1] == ds[i + 1];
        }
      }
      ChainKeepsLayout(front, name);
      assert Accepts(ds[n - 1], ds[n]) && front[n - 1] == ds[n - 1];
      var first, was, now := ds[0].structs[name], ds[n - 1].structs[name], ds[n].structs[name];
      StepKeeps(was, now);
      KeepsTransitive(first, was, now);
      forall f <- now.fields | !HasName(first, f.name) ensures exists k :: LetIn(ds, name, f, k) {
        if HasName(was, f.name) {
          FieldWas(was, now, f);
          var k :| LetIn(front, name, f, k);
          assert LetIn(ds, name, f, k);
        } else {
          FieldEnters(was, now, f);
          assert LetIn(ds, name, f, n - 1);
        }
      }
    }
  }

  lemma SelfKeeps(s: Struct)
    requires ValidStruct(s)
    ensures StructKeeps(s, s) && forall f <- s.fields :: HasName(s, f.name)
  {
    SelfOk(s);
  }

  lemma StepKeeps(a: Struct, b: Struct)
    requires StructOk(a, b)
    ensures StructKeeps(a, b)
  {
  }

  lemma FieldWas(a: Struct, b: Struct, f: Field)
    requires StructOk(a, b) && ValidStruct(b) && f in b.fields && HasName(a, f.name)
    ensures f in a.fields
  {
    var i :| 0 <= i < |b.fields| && b.fields[i] == f;
    var j := OldField(a, b, i);
  }

  lemma FieldEnters(a: Struct, b: Struct, f: Field)
    requires StructOk(a, b) && f in b.fields && !HasName(a, f.name)
    ensures MayAppend(a, f.offset)
  {
  }

  /** No later field ever overlaps a field of the first release. */
  lemma LaterFieldsStayClear(ds: seq<Description>, name: string, f: Field, g: Field)
    requires |ds| > 0 && IsChain(ds) && Valid(ds[0]) && name in ds[0].structs
    requires f in ds[0].structs[name].fields && !HasName(ds[0].structs[name], g.name)
    requires name in ds[|ds| - 1].structs && g in ds[|ds| - 1].structs[name].fields
    ensures f.offset + f.size <= g.offset || g.offset + g.size <= f.offset
  {
    hide IsChain, FieldNamed;
    ChainKeepsLayout(ds, name);
    var first, last := ds[0].structs[name], ds[|ds| - 1].structs[name];
    var i :| 0 <= i < |first.fields| && first.fields[i] == f;
    var j := FieldStays(first, last, i);
    var k :| 0 <= k < |last.fields| && last.fields[k] == g;
    assert ValidStruct(last);
    if j < k { InOrder(last.fields, last.size, j, k); }
    if k < j { InOrder(last.fields, last.size, k, j); }
  }

  /** If every release but the last keeps its boundaries at the end of its structs, later fields leave all original bytes alone. */
  lemma BoundariesProtectBytes(ds: seq<Description>, name: string, g: Field)
    requires |ds| > 0 && IsChain(ds) && Valid(ds[0]) && name in ds[0].structs
    requires forall k :: 0 <= k < |ds| - 1 ==> Boundaries(ds[k])
    requires name in ds[|ds| - 1].structs && g in ds[|ds| - 1].structs[name].fields && !HasName(ds[0].structs[name], g.name)
    ensures ds[0].structs[name].size <= g.offset
  {
    hide Accepts, Valid, HasName, FieldNamed;
    ChainKeepsLayout(ds, name);
    var k :| LetIn(ds, name, g, k);
    assert IsChain(ds[..k + 1]);
    ChainKeepsLayout(ds[..k + 1], name);
    assert Boundaries(ds[k]);
  }

  // ---- The checks as loops ---------------------------------------------------------------

  function NamesTo(fields: seq<Field>, i: nat): set<string>
    requires i <= |fields|
  {
    set j | 0 <= j < i :: fields[j].name
  }

  /** The first `i` fields are in order and named apart. */
  predicate Orderly(s: Struct, i: nat)
    requires i <= |s.fields|
  {
    && (forall j, k :: 0 <= j < k < i ==> s.fields[j].name != s.fields[k].name)
    && (forall j :: 0 <= j < i ==> FieldFits(s.fields, j, s.size))
  }

  lemma OrderlyStep(s: Struct, i: nat)
    requires i < |s.fields|
    ensures Orderly(s, i + 1) <==>
      Orderly(s, i) && FieldFits(s.fields, i, s.size) && s.fields[i].name !in NamesTo(s.fields, i)
    ensures NamesTo(s.fields, i + 1) == NamesTo(s.fields, i) + {s.fields[i].name}
  {
    hide FieldFits;
  }

  /** The field loop of `validate`: the positions of the fields it complains about. */
  method CheckFields(s: Struct) returns (bad: seq<nat>)
    ensures bad == [] <==> DistinctNames(s.fields) && LaidOut(s.fields, s.size)
  {
    bad := [];
    var priorEnd := 0;
    var names: set<string> := {};
    for i := 0 to |s.fields|
      invariant bad == [] <==> Orderly(s, i)
      invariant bad == [] ==> names == NamesTo(s.fields, i)
      invariant bad == [] ==> priorEnd == (if i == 0 then 0 else s.fields[i - 1].offset + s.fields[i - 1].size)
    {
      hide Orderly, NamesTo;
      OrderlyStep(s, i);
      var f := s.fields[i];
      if f.name in names || f.offset < priorEnd || f.size <= 0 || f.offset + f.size > s.size {
        bad := bad + [i];
      } else {
        names := names + {f.name};
        priorEnd := f.offset + f.size;
      }
    }
  }

  /** The struct comparison of `compare`: how many complaints it makes. */
  method CompareStruct(a: Struct, b: Struct) returns (complaints: nat)
    ensures complaints == 0 <==> StructOk(a, b)
  {
    complaints := 0;
    if b.alignment != a.alignment { complaints := complaints + 1; }
    if b.minimumSize != a.minimumSize { complaints := complaints + 1; }
    if a.mode.Fixed? && b.size != a.size { complaints := complaints + 1; }
    if a.mode.SizedTail? && b.size < a.size { complaints := complaints + 1; }
    ghost var frame := complaints == 0;
    for i := 0 to |a.fields|
      invariant complaints == 0 <==>
        frame && forall j :: 0 <= j < i ==> FieldNamed(b.fields, a.fields[j].name) == Some(a.fields[j])
    {
      if FieldNamed(b.fields, a.fields[i].name) != Some(a.fields[i]) { complaints := complaints + 1; }
    }
    ghost var kept := complaints == 0;
    for i := 0 to |b.fields|
      invariant complaints == 0 <==>
        kept && forall j :: 0 <= j < i && !HasName(a, b.fields[j].name) ==>
          a.appendFrom.Some? && a.appendFrom.value <= b.fields[j].offset
    {
      if !HasName(a, b.fields[i].name) && (a.appendFrom.None? || b.fields[i].offset < a.appendFrom.value) {
        complaints := complaints + 1;
      }
    }
  }

  /** The struct section of `compare` over all names. */
  method CompareStructs(a: Description, b: Description) returns (complaints: nat)
    ensures complaints == 0 <==> StructsOk(a, b)
  {
    hide StructOk;
    complaints := 0;
    var names := a.structs.Keys;
    while names != {}
      invariant names <= a.structs.Keys
      invariant complaints == 0 <==>
        forall n <- a.structs :: n !in names ==> n in b.structs && StructOk(a.structs[n], b.structs[n])
      decreases |names|
    {
      var n :| n in names;
      if n !in b.structs {
        complaints := complaints + 1;
      } else {
        var more := CompareStruct(a.structs[n], b.structs[n]);
        complaints := complaints + more;
      }
      names := names - {n};
    }
    var added := b.structs.Keys - a.structs.Keys;
    AddedIsGrowth(a.structs, b.structs);
    if added != {} && b.minor <= a.minor { complaints := complaints + 1; }
  }

  /** How many entries of `a` are missing from `b` or changed in it. */
  method Changed<V(==)>(a: map<string, V>, b: map<string, V>) returns (count: nat)
    ensures count == 0 <==> Preserved(a, b)
  {
    count := 0;
    var names := a.Keys;
    while names != {}
      invariant names <= a.Keys
      invariant count == 0 <==> forall n <- a :: n !in names ==> n in b && b[n] == a[n]
      decreases |names|
    {
      var n :| n in names;
      if n !in b || b[n] != a[n] { count := count + 1; }
      names := names - {n};
    }
  }

  lemma AddedIsGrowth<V>(a: map<string, V>, b: map<string, V>)
    ensures Grows(a, b) <==> b.Keys - a.Keys != {}
  {
    if Grows(a, b) {
      var n :| n in b && n !in a;
      assert n in b.Keys - a.Keys;
    }
    if b.Keys - a.Keys != {} {
      var n :| n in b.Keys - a.Keys;
      assert n in b && n !in a;
    }
  }

  method CheckStruct(s: Struct) returns (ok: bool)
    ensures ok == ValidStruct(s)
  {
    if s.size <= 0 || s.alignment <= 0 { return false; }
    if s.size % s.alignment != 0 { return false; }
    if s.minimumSize <= 0 || s.minimumSize > s.size { return false; }
    if s.mode.SizedTail? && s.appendFrom != Some(s.size) { return false; }
    if s.fields == [] { return false; }
    var bad := CheckFields(s);
    return bad == [];
  }

  /** `validate` on the parts that `compare` relies on. */
  method Validate(d: Description) returns (ok: bool)
    ensures ok == Valid(d)
  {
    if d.major != 1 || d.minor < 0 { return false; }
    if !(d.capacity.Keys <= d.exports.Keys) || !(d.signatures.exports.Keys <= d.exports.Keys) { return false; }
    if d.structs == map[] { return false; }
    var names := d.exports.Keys;
    while names != {}
      invariant names <= d.exports.Keys
      invariant forall n <- d.exports :: n !in names ==> IsNode(d.exports[n])
      decreases |names|
    {
      var n :| n in names;
      if !IsNode(d.exports[n]) { return false; }
      names := names - {n};
    }
    names := d.structs.Keys;
    while names != {}
      invariant names <= d.structs.Keys
      invariant forall n <- d.structs :: n !in names ==> ValidStruct(d.structs[n])
      decreases |names|
    {
      var n :| n in names;
      var fits := CheckStruct(d.structs[n]);
      if !fits { return false; }
      names := names - {n};
    }
    return true;
  }

  method CompareConstants(a: Description, b: Description) returns (complaints: nat)
    ensures complaints == 0 <==> ConstantsOk(a, b)
  {
    var kept := a.constants - VERSION_CONSTANTS;
    complaints := Changed(kept, b.constants);
    assert Preserved(kept, b.constants) <==>
      forall n <- a.constants :: n !in VERSION_CONSTANTS ==> n in b.constants && b.constants[n] == a.constants[n];
    AddedIsGrowth(a.constants, b.constants);
    if b.constants.Keys - a.constants.Keys != {} && b.minor <= a.minor { complaints := complaints + 1; }
  }

  method CompareExports(a: Description, b: Description) returns (complaints: nat)
    ensures complaints == 0 <==> ExportsOk(a, b)
  {
    hide NodeMinor;
    complaints := Changed(a.exports, b.exports);
    ghost var kept := complaints == 0;
    var names := b.exports.Keys - a.exports.Keys;
    while names != {}
      invariant names <= b.exports.Keys - a.exports.Keys
      invariant complaints == 0 <==> kept && forall n <- b.exports :: n !in a.exports && n !in names ==>
        && NodeMinor(b.exports[n]).Some? && a.minor < NodeMinor(b.exports[n]).value <= b.minor
        && b.exports[n] in b.linux.nodes && n in b.signatures.exports
      decreases |names|
    {
      var n :| n in names;
      var minor := NodeMinor(b.exports[n]);
      if minor.None? || !(a.minor < minor.value <= b.minor) || b.exports[n] !in b.linux.nodes {
        complaints := complaints + 1;
      }
      if n !in b.signatures.exports { complaints := complaints + 1; }
      names := names - {n};
    }
  }

  method CompareCapacity(a: Description, b: Description) returns (complaints: nat)
    ensures complaints == 0 <==> CapacityOk(a, b)
  {
    complaints := Changed(a.capacity, b.capacity);
    AddedIsGrowth(a.capacity, b.capacity);
    var added := b.capacity.Keys - a.capacity.Keys;
    if added != {} && b.minor <= a.minor { complaints := complaints + 1; }
    var strays := Outside(added, b.exports.Keys - a.exports.Keys);
    complaints := complaints + strays;
    forall n <- added ensures n in b.capacity && n !in a.capacity { }
    forall n <- b.capacity | n !in a.capacity ensures n in added { }
  }

  method Outside(names: set<string>, allowed: set<string>) returns (count: nat)
    ensures count == 0 <==> names <= allowed
  {
    count := 0;
    var rest := names;
    while rest != {}
      invariant rest <= names
      invariant count == 0 <==> names - rest <= allowed
      decreases |rest|
    {
      var n :| n in rest;
      if n !in allowed { count := count + 1; }
      rest := rest - {n};
    }
  }

  /** `compare`: no complaint exactly when the candidate may follow the baseline. */
  method Compare(a: Description, b: Description) returns (complaints: nat)
    ensures complaints == 0 <==> Accepts(a, b)
  {
    hide Valid, LinuxOk, MacosOk, ConstantsOk, ExportsOk, CapacityOk, SignaturesOk, StructsOk;
    var ok := Validate(b);
    if !ok { return 1; }
    complaints := 0;
    if b.dataModel != a.dataModel { complaints := complaints + 1; }
    if b.callingConvention != a.callingConvention { complaints := complaints + 1; }
    if b.compatibility != a.compatibility { complaints := complaints + 1; }
    if b.major != a.major || b.minor < a.minor { complaints := complaints + 1; }
    if !LinuxOk(a, b) { complaints := complaints + 1; }
    if !MacosOk(a, b) { complaints := complaints + 1; }
    if b.unsupported != a.unsupported { complaints := complaints + 1; }
    var constants := CompareConstants(a, b);
    var exports := CompareExports(a, b);
    var capacity := CompareCapacity(a, b);
    var signatures := CompareSignatures(a, b);
    var structs := CompareStructs(a, b);
    complaints := complaints + constants + exports + capacity + signatures + structs;
  }

  method CompareSignatures(a: Description, b: Description) returns (complaints: nat)
    ensures complaints == 0 <==> SignaturesOk(a, b)
  {
    var exports := Changed(a.signatures.exports, b.signatures.exports);
    var callbacks := Changed(a.signatures.callbacks, b.signatures.callbacks);
    complaints := exports + callbacks;
    AddedIsGrowth(a.signatures.callbacks, b.signatures.callbacks);
    if b.signatures.callbacks.Keys - a.signatures.callbacks.Keys != {} && b.minor <= a.minor {
      complaints := complaints + 1;
    }
  }

  // ---- Overlays --------------------------------------------------------------------------

  /** A JSON value as overlays see it: an object, or anything else. */
  datatype Tree = Leaf(value: string) | Node(children: map<string, Tree>)

  /** `_merge`: objects merge key by key, anything else is replaced. */
  function Merge(base: Option<Tree>, changes: Tree): Tree
    decreases changes
  {
    if changes.Leaf? || base.None? || base.value.Leaf? then changes
    else
      var b, c := base.value.children, changes.children;
      Node(map k | k in b.Keys + c.Keys ::
        if k !in c then b[k] else Merge(if k in b then Some(b[k]) else None, c[k]))
  }

  /** The leaf at a path. */
  function LeafAt(t: Tree, path: seq<string>): Option<string>
    decreases |path|
  {
    if path == [] then (if t.Leaf? then Some(t.value) else None)
    else if t.Node? && path[0] in t.children then LeafAt(t.children[path[0]], path[1..])
    else None
  }

  /** Whether an overlay speaks about a path: it holds something there, or replaces something above it. */
  predicate Decides(changes: Tree, path: seq<string>)
    decreases |path|
  {
    || path == [] || changes.Leaf?
    || (path[0] in changes.children && Decides(changes.children[path[0]], path[1..]))
  }

  lemma {:induction false} UndecidedIsAbsent(t: Tree, path: seq<string>)
    ensures !Decides(t, path) ==> LeafAt(t, path) == None
    decreases |path|
  {
    if path != [] && t.Node? && path[0] in t.children {
      UndecidedIsAbsent(t.children[path[0]], path[1..]);
    }
  }

  /** A merged document reads like the overlay wherever the overlay speaks, and like the base everywhere else. */
  lemma {:induction false} MergeReads(base: Tree, changes: Tree, path: seq<string>)
    ensures LeafAt(Merge(Some(base), changes), path) ==
      if Decides(changes, path) then LeafAt(changes, path) else LeafAt(base, path)
    decreases |path|
  {
    UndecidedIsAbsent(changes, path);
    if path != [] && changes.Node? && base.Node? && path[0] in changes.children && path[0] in base.children {
      MergeReads(base.children[path[0]], changes.children[path[0]], path[1..]);
    }
  }
}
