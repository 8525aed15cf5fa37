/** Small types shared by the models. */
module Common {
  datatype Option<+T> = None | Some(value: T) {
    function GetOr(default: T): T {
      if Some? then value else default
    }
  }

  datatype Result<+T, +E> = Ok(value: T) | Err(error: E)

  type uint32 = n: nat | n < 0x1_0000_0000
  type uint64 = n: nat | n < 0x1_0000_0000_0000_0000
}

/** JSON documents as values. `Other` stands for reals, negative numbers and booleans. */
module Json {
  import opened Common

  datatype Json =
    | Null
    | Other
    | Uint(n: uint64)
    | Str(s: string)
    | Arr(items: seq<Json>)
    | Obj(members: seq<Member>)

  datatype Member = Member(key: string, value: Json)

  /** The first member with a key decides what that key holds. */
  lemma {:induction false} LookupFirst(ms: seq<Member>, k: nat)
    requires k < |ms| && forall j :: 0 <= j < k ==> ms[j].key != ms[k].key
    ensures Lookup(ms, ms[k].key) == Some(ms[k].value)
  {
    if k > 0 {
      LookupFirst(ms[1..], k - 1);
    }
  }

  /** The value under the first member with this key, as `yyjson_obj_get` finds it. */
  function Lookup(ms: seq<Member>, key: string): Option<Json> {
    if ms == [] then None
    else if ms[0].key == key then Some(ms[0].value)
    else Lookup(ms[1..], key)
  }

  function Get(v: Json, key: string): Option<Json> {
    if v.Obj? then Lookup(v.members, key) else None
  }

  function GetUint(v: Json, key: string): Option<uint64> {
    match Get(v, key)
    case Some(Uint(n)) => Some(n)
    case _ => None
  }
}

/** Decimal numbers and dotted version triples in text. */
module Versions {
  import opened Common

  predicate IsDigit(c: char) {
    '0' <= c <= '9'
  }

  /** The value of a run of decimal digits. */
  function Digits(s: string): Option<nat> {
    if s == "" then None
    else
      var last := s[|s| - 1];
      if !IsDigit(last) then None
      else if |s| == 1 then Some(last as int - '0' as int)
      else match Digits(s[..|s| - 1])
        case Some(n) => Some(10 * n + (last as int - '0' as int))
        case None => None
  }

  function Decimal(n: nat): (s: string)
    ensures s != ""
  {
    var d := ['0' + (n % 10) as char];
    if n < 10 then d else Decimal(n / 10) + d
  }

  /** Printing a number and reading it back. */
  lemma {:induction false} DigitsOfDecimal(n: nat)
    ensures Digits(Decimal(n)) == Some(n)
  {
    if n >= 10 {
      DigitsOfDecimal(n / 10);
      var s := Decimal(n);
      assert s[..|s| - 1] == Decimal(n / 10);
    }
  }

  /** Decimal digits without a leading zero. */
  predicate Canonical(s: string) {
    Digits(s).Some? && (s == "0" || s[0] != '0')
  }

  lemma {:induction false} DecimalIsCanonical(n: nat)
    ensures Canonical(Decimal(n)) && (n > 0 ==> Decimal(n)[0] != '0')
  {
    DigitsOfDecimal(n);
    if n >= 10 {
      DecimalIsCanonical(n / 10);
      assert Decimal(n)[0] == Decimal(n / 10)[0];
    }
  }

  /** A number has only one canonical spelling. */
  lemma {:induction false} DecimalOfDigits(s: string)
    requires Canonical(s)
    ensures Decimal(Digits(s).value) == s && (s[0] != '0' ==> Digits(s).value > 0)
  {
    var n := |s| - 1;
    if n > 0 {
      assert s[..n][0] == s[0] != '0';
      DecimalOfDigits(s[..n]);
      assert s == s[..n] + [s[n]];
      var high, low := Digits(s[..n]).value, s[n] as int - '0' as int;
      assert (10 * high + low) / 10 == high && (10 * high + low) % 10 == low;
    }
  }

  lemma {:induction false} DigitsHaveNoDot(s: string)
    requires Digits(s).Some?
    ensures forall i :: 0 <= i < |s| ==> s[i] != '.'
  {
    if |s| > 1 {
      DigitsHaveNoDot(s[..|s| - 1]);
      forall i | 0 <= i < |s| ensures s[i] != '.' {
        if i < |s| - 1 { assert s[..|s| - 1][i] == s[i]; }
      }
    }
  }

  datatype Version = Version(major: nat, minor: nat, patch: nat)

  /** First dot at or after `i`, or the length. */
  function DotFrom(s: string, i: nat): (k: nat)
    requires i <= |s|
    ensures i <= k <= |s| && (k < |s| ==> s[k] == '.')
    decreases |s| - i
  {
    if i == |s| || s[i] == '.' then i else DotFrom(s, i + 1)
  }

  /** The text split at its first two dots. */
  function Parts(s: string): Option<(string, string, string)> {
    var a := DotFrom(s, 0);
    if a == |s| then None
    else
      var b := DotFrom(s, a + 1);
      if b == |s| then None else Some((s[..a], s[a + 1..b], s[b + 1..]))
  }

  /** `major.minor.patch` in decimal digits. */
  function NumericVersion(s: string): Option<Version> {
    match Parts(s)
    case None => None
    case Some((x, y, z)) =>
      if Digits(x).Some? && Digits(y).Some? && Digits(z).Some?
      then Some(Version(Digits(x).value, Digits(y).value, Digits(z).value)) else None
  }

  predicate AtMost(a: Version, b: Version) {
    || a.major < b.major
    || (a.major == b.major && (a.minor < b.minor || (a.minor == b.minor && a.patch <= b.patch)))
  }

  predicate Below(a: Version, b: Version) {
    AtMost(a, b) && a != b
  }

  lemma PartsOf(x: string, y: string, z: string)
    requires forall i :: 0 <= i < |x| ==> x[i] != '.'
    requires forall i :: 0 <= i < |y| ==> y[i] != '.'
    ensures Parts(x + "." + y + "." + z) == Some((x, y, z))
  {
    var s := x + "." + y + "." + z;
    DotAt(s, 0, |x|);
    assert forall i :: |x| < i < |x| + 1 + |y| ==> s[i] == y[i - |x| - 1];
    DotAt(s, |x| + 1, |x| + 1 + |y|);
    assert s[..|x|] == x && s[|x| + 1..|x| + 1 + |y|] == y && s[|x| + 1 + |y| + 1..] == z;
  }

  lemma {:induction false} DotAt(s: string, i: nat, k: nat)
    requires i <= k < |s| && s[k] == '.' && forall j :: i <= j < k ==> s[j] != '.'
    ensures DotFrom(s, i) == k
    decreases k - i
  {
    if i < k { DotAt(s, i + 1, k); }
  }

  lemma PartsJoin(s: string)
    requires Parts(s).Some?
    ensures var (x, y, z) := Parts(s).value; s == x + "." + y + "." + z
  {
  }
}
