/** Bytes printed as C string literal lines, and the reading of such text by a C compiler. */
module FreezeLiteral {
  import opened Common

  predicate IsBytes(data: seq<int>) {
    forall i :: 0 <= i < |data| ==> 0 <= data[i] < 256
  }

  // ---- Printing --------------------------------------------------------------------------

  function OctalDigit(n: int): char
    requires 0 <= n < 8
  {
    '0' + n as char
  }

  /** Printable ASCII but for quote, backslash and question mark. */
  predicate Plain(b: int) {
    0x20 <= b < 0x7F && b != '"' as int && b != '\\' as int && b != '?' as int
  }

  function Encode(b: int): string
    requires 0 <= b < 256
  {
    if Plain(b) then [b as char]
    else ['\\', OctalDigit(b / 64), OctalDigit(b / 8 % 8), OctalDigit(b % 8)]
  }

  function EncodeAll(data: seq<int>): string
    requires IsBytes(data)
  {
    if data == [] then "" else Encode(data[0]) + EncodeAll(data[1..])
  }

  const WIDTH := 64

  function Line(chunk: seq<int>): string
    requires IsBytes(chunk)
  {
    "    \"" + EncodeAll(chunk) + "\""
  }

  function Lines(data: seq<int>): seq<string>
    requires IsBytes(data)
  {
    if data == [] then []
    else if |data| <= WIDTH then [Line(data)]
    else [Line(data[..WIDTH])] + Lines(data[WIDTH..])
  }

  /** The lines with a newline between each two. */
  function Join(lines: seq<string>): string {
    if lines == [] then ""
    else if |lines| == 1 then lines[0]
    else lines[0] + "\n" + Join(lines[1..])
  }

  function Literal(data: seq<int>): string
    requires IsBytes(data)
  {
    if data == [] then "    \"\"" else Join(Lines(data))
  }

  // ---- Reading, section 5.1.1.2 of ISO/IEC 9899:2011 -------------------------------------

  /** What a trigraph sequence stands for (section 5.2.1.1). */
  function Trigraph(c: char): Option<char> {
    match c
    case '=' => Some('#')
    case '(' => Some('[')
    case '/' => Some('\\')
    case ')' => Some(']')
    case '\'' => Some('^')
    case '<' => Some('{')
    case '!' => Some('|')
    case '>' => Some('}')
    case '-' => Some('~')
    case _ => None
  }

  /** Phase 1: trigraphs are replaced. */
  function Phase1(s: string): string {
    if s == "" then ""
    else if |s| >= 3 && s[0] == '?' && s[1] == '?' && Trigraph(s[2]).Some? then [Trigraph(s[2]).value] + Phase1(s[3..])
    else [s[0]] + Phase1(s[1..])
  }

  /** Phase 2: a backslash before a newline joins the lines. */
  function Phase2(s: string): string {
    if s == "" then ""
    else if |s| >= 2 && s[0] == '\\' && s[1] == '\n' then Phase2(s[2..])
    else [s[0]] + Phase2(s[1..])
  }

  predicate IsOctal(c: char) { '0' <= c <= '7' }

  /** Length of the longest run of at most `max` octal digits. */
  function OctalRun(s: string, max: nat): (n: nat)
    ensures n <= |s| && n <= max && (0 < max && s != "" && IsOctal(s[0]) ==> 0 < n)
    ensures forall i :: 0 <= i < n ==> IsOctal(s[i])
  {
    if max == 0 || s == "" || !IsOctal(s[0]) then 0 else 1 + OctalRun(s[1..], max - 1)
  }

  function OctalValue(s: string): int
    requires forall i :: 0 <= i < |s| ==> IsOctal(s[i])
  {
    if s == "" then 0 else 8 * OctalValue(s[..|s| - 1]) + (s[|s| - 1] as int - '0' as int)
  }

  function SimpleEscape(c: char): Option<int> {
    match c
    case '\'' => Some(0x27)
    case '"' => Some(0x22)
    case '?' => Some(0x3F)
    case '\\' => Some(0x5C)
    case 'a' => Some(7)
    case 'b' => Some(8)
    case 'f' => Some(12)
    case 'n' => Some(10)
    case 'r' => Some(13)
    case 't' => Some(9)
    case 'v' => Some(11)
    case _ => None
  }

  function HexDigit(c: char): Option<int> {
    if '0' <= c <= '9' then Some(c as int - '0' as int)
    else if 'a' <= c <= 'f' then Some(c as int - 'a' as int + 10)
    else if 'A' <= c <= 'F' then Some(c as int - 'A' as int + 10)
    else None
  }

  /** A hexadecimal escape takes every digit that follows: its value and what remains. */
  function HexRun(s: string, value: int): (r: (int, string))
    ensures |r.1| <= |s|
  {
    if s == "" || HexDigit(s[0]).None? then (value, s) else HexRun(s[1..], 16 * value + HexDigit(s[0]).value)
  }

  /** The byte of an escape sequence after its backslash and what follows it (section 6.4.4.4). */
  function Escape(s: string): (r: Option<(int, string)>)
    ensures r.Some? ==> |r.value.1| < |s|
  {
    if s == "" then None
    else if IsOctal(s[0]) then
      var n := OctalRun(s, 3);
      if 0 <= OctalValue(s[..n]) < 256 then Some((OctalValue(s[..n]), s[n..])) else None
    else if s[0] == 'x' then
      var (value, rest) := HexRun(s[1..], 0);
      if |rest| < |s| - 1 && value < 256 then Some((value, rest)) else None
    else match SimpleEscape(s[0])
      case Some(b) => Some((b, s[1..]))
      case None => None
  }

  /** The inside of a string literal: its bytes and the text after the closing quote. */
  function Body(s: string): (r: Option<(seq<int>, string)>)
    ensures r.Some? ==> |r.value.1| < |s|
    decreases |s|
  {
    if s == "" || s[0] == '\n' then None
    else if s[0] == '"' then Some(([], s[1..]))
    else if s[0] == '\\' then
      match Escape(s[1..])
      case None => None
      case Some((b, rest)) =>
        match Body(rest) {
          case None => None
          case Some((bytes, after)) => Some(([b] + bytes, after))
        }
    else match Body(s[1..])
      case None => None
      case Some((bytes, after)) => Some(([s[0] as int] + bytes, after))
  }

  predicate IsSpace(c: char) {
    c == ' ' || c == '\t' || c == '\n'
  }

  /** A sequence of adjacent string literals: phase 5 reads each, phase 6 concatenates them (section 6.4.5). */
  function Strings(s: string): Option<seq<int>>
    decreases |s|
  {
    if s == "" then Some([])
    else if IsSpace(s[0]) then Strings(s[1..])
    else if s[0] != '"' then None
    else match Body(s[1..])
      case None => None
      case Some((bytes, after)) =>
        match Strings(after)
        case None => None
        case Some(more) => Some(bytes + more)
  }

  /** What a C compiler makes of a sequence of string literals, without the terminating zero. */
  function Compile(text: string): Option<seq<int>> {
    Strings(Phase2(Phase1(text)))
  }

  // ---- The early phases leave the printed text alone -------------------------------------

  /** Not a question mark, and if a backslash then one followed by an octal digit. */
  predicate TameAt(s: string, i: nat)
    requires i < |s|
  {
    s[i] != '?' && (s[i] == '\\' ==> i + 1 < |s| && IsOctal(s[i + 1]))
  }

  predicate Tame(s: string) {
    forall i :: 0 <= i < |s| ==> TameAt(s, i)
  }

  lemma {:induction false} TamePhases(s: string)
    requires Tame(s)
    ensures Phase1(s) == s && Phase2(s) == s
  {
    if s != "" {
      var t := s[1..];
      forall i | 0 <= i < |t| ensures TameAt(t, i) { assert TameAt(s, i + 1); }
      TamePhases(t);
      assert TameAt(s, 0);
      assert s == [s[0]] + t;
    }
  }

  lemma TameAppend(a: string, b: string)
    requires Tame(a) && Tame(b)
    ensures Tame(a + b)
  {
    forall i | 0 <= i < |a + b| ensures TameAt(a + b, i) {
      if i < |a| { assert TameAt(a, i); } else { assert TameAt(b, i - |a|); }
    }
  }

  lemma {:induction false} EncodeTame(data: seq<int>)
    requires IsBytes(data)
    ensures Tame(EncodeAll(data))
  {
    if data != [] {
      EncodeTame(data[1..]);
      TameAppend(Encode(data[0]), EncodeAll(data[1..]));
    }
  }

  lemma LineTame(chunk: seq<int>)
    requires IsBytes(chunk)
    ensures Tame(Line(chunk))
  {
    EncodeTame(chunk);
    TameAppend("    \"", EncodeAll(chunk));
    TameAppend("    \"" + EncodeAll(chunk), "\"");
  }

  lemma {:induction false} JoinTame(lines: seq<string>)
    requires forall i :: 0 <= i < |lines| ==> Tame(lines[i])
    ensures Tame(Join(lines))
  {
    if |lines| > 1 {
      JoinTame(lines[1..]);
      TameAppend(lines[0], "\n");
      TameAppend(lines[0] + "\n", Join(lines[1..]));
    }
  }

  lemma {:induction false} LinesTame(data: seq<int>)
    requires IsBytes(data)
    ensures forall i :: 0 <= i < |Lines(data)| ==> Tame(Lines(data)[i])
  {
    if |data| > WIDTH {
      LineTame(data[..WIDTH]);
      LinesTame(data[WIDTH..]);
    } else if data != [] {
      LineTame(data);
    }
  }

  // ---- Reading back ----------------------------------------------------------------------

  /** Exactly three octal digits are read back whatever follows them. */
  lemma EscapeReadsBack(b: int, rest: string)
    requires 0 <= b < 256 && !Plain(b)
    ensures Escape(Encode(b)[1..] + rest) == Some((b, rest))
  {
    var digits := [OctalDigit(b / 64), OctalDigit(b / 8 % 8), OctalDigit(b % 8)];
    var s := digits + rest;
    assert Encode(b)[1..] == digits;
    assert s[1..][0] == digits[1] && s[1..][1..][0] == digits[2];
    assert OctalRun(s[1..][1..], 1) == 1;
    assert OctalRun(s[1..], 2) == 2;
    assert OctalRun(s, 3) == 3;
    assert s[..3] == digits && s[3..] == rest;
    assert digits[..2][..1] == digits[..1] && digits[..1][..0] == [];
    assert OctalValue(digits[..1]) == b / 64;
    assert OctalValue(digits[..2]) == 8 * (b / 64) + b / 8 % 8;
    assert OctalValue(digits) == b;
  }

  lemma EncodedByteReadsBack(b: int, s: string)
    requires 0 <= b < 256 && Body(s).Some?
    ensures Body(Encode(b) + s) == Some(([b] + Body(s).value.0, Body(s).value.1))
  {
    var t := Encode(b) + s;
    if Plain(b) {
      assert t[1..] == s && t[0] == b as char;
    } else {
      assert t[1..] == Encode(b)[1..] + s;
      EscapeReadsBack(b, s);
    }
  }

  lemma BodyEnds(rest: string)
    ensures Body("\"" + rest) == Some(([], rest))
  {
    assert ("\"" + rest)[1..] == rest;
  }

  lemma {:induction false} BodyReadsBack(data: seq<int>, rest: string)
    requires IsBytes(data)
    ensures Body(EncodeAll(data) + "\"" + rest) == Some((data, rest))
  {
    hide Body, Encode;
    if data == [] {
      BodyEnds(rest);
      assert EncodeAll(data) + "\"" + rest == "\"" + rest;
    } else {
      BodyReadsBack(data[1..], rest);
      var tail := EncodeAll(data[1..]) + "\"" + rest;
      EncodedByteReadsBack(data[0], tail);
      assert EncodeAll(data) + "\"" + rest == Encode(data[0]) + tail;
      assert [data[0]] + data[1..] == data;
    }
  }

  lemma SpaceSkips(c: char, s: string)
    requires IsSpace(c)
    ensures Strings([c] + s) == Strings(s)
  {
    assert ([c] + s)[1..] == s;
  }

  lemma QuotedReadsBack(chunk: seq<int>, rest: string)
    requires IsBytes(chunk)
    ensures Strings("\"" + (EncodeAll(chunk) + "\"" + rest)) ==
      match Strings(rest) { case None => None case Some(more) => Some(chunk + more) }
  {
    hide EncodeAll, Body;
    var inside := EncodeAll(chunk) + "\"" + rest;
    BodyReadsBack(chunk, rest);
    assert ("\"" + inside)[1..] == inside;
  }

  lemma LineReadsBack(chunk: seq<int>, rest: string)
    requires IsBytes(chunk)
    ensures Strings(Line(chunk) + rest) ==
      match Strings(rest) { case None => None case Some(more) => Some(chunk + more) }
  {
    hide EncodeAll, Strings;
    var quoted := "\"" + (EncodeAll(chunk) + "\"" + rest);
    QuotedReadsBack(chunk, rest);
    assert Line(chunk) + rest == [' '] + ([' '] + ([' '] + ([' '] + quoted)));
    SpaceSkips(' ', quoted);
    SpaceSkips(' ', [' '] + quoted);
    SpaceSkips(' ', [' '] + ([' '] + quoted));
    SpaceSkips(' ', [' '] + ([' '] + ([' '] + quoted)));
  }

  lemma {:induction false} LinesReadBack(data: seq<int>)
    requires IsBytes(data)
    ensures Strings(Join(Lines(data))) == Some(data)
  {
    hide Line;
    if |data| > WIDTH {
      var head, tail := data[..WIDTH], data[WIDTH..];
      LinesReadBack(tail);
      assert Lines(data)[1..] == Lines(tail) && |Lines(data)| > 1;
      assert Join(Lines(data)) == Line(head) + ("\n" + Join(Lines(tail)));
      SpaceSkips('\n', Join(Lines(tail)));
      LineReadsBack(head, "\n" + Join(Lines(tail)));
      assert head + tail == data;
    } else if data != [] {
      LineReadsBack(data, "");
      assert Line(data) + "" == Line(data) && data + [] == data;
    }
  }

  /** Every byte string survives: a C compiler reads the printed lines as exactly the bytes they were printed from. */
  lemma LiteralRoundTrip(data: seq<int>)
    requires IsBytes(data)
    ensures Compile(Literal(data)) == Some(data)
  {
    hide Strings;
    if data == [] {
      LineTame([]);
      assert Literal(data) == Line([]) && Line([]) + "" == Line([]);
      TamePhases(Line([]));
      EmptyStrings();
      LineReadsBack(data, "");
      assert data + data == data;
    } else {
      LinesTame(data);
      JoinTame(Lines(data));
      TamePhases(Join(Lines(data)));
      LinesReadBack(data);
    }
  }

  lemma EmptyStrings()
    ensures Strings("") == Some([])
  {
  }

  // ---- What the printer has to mind ------------------------------------------------------

  /** Each byte is printed as itself if it is printable and neither quote, backslash nor question mark, else in three digits. */
  lemma EncodeExactly(b: int)
    requires 0 <= b < 256
    ensures 32 <= b <= 126 && b != 34 && b != 92 && b != 63 <==> |Encode(b)| == 1
    ensures |Encode(b)| == 1 ==> Encode(b)[0] as int == b
    ensures |Encode(b)| != 1 ==>
      && |Encode(b)| == 4 && Encode(b)[0] == '\\' && (forall i :: 1 <= i < 4 ==> '0' <= Encode(b)[i] <= '7')
      && b == 64 * (Encode(b)[1] as int - 48) + 8 * (Encode(b)[2] as int - 48) + (Encode(b)[3] as int - 48)
  {
  }

  /** Lines hold 64 bytes each, the last one what remains. */
  lemma {:induction false} LinesExactly(data: seq<int>, k: nat)
    requires IsBytes(data)
    ensures k < |Lines(data)| <==> 64 * k < |data|
    ensures 64 * k < |data| ==>
      Lines(data)[k] == "    \"" + EncodeAll(data[64 * k..if 64 * (k + 1) <= |data| then 64 * (k + 1) else |data|]) + "\""
    decreases k
  {
    hide EncodeAll;
    if k == 0 || |data| <= WIDTH {
      assert 0 < |data| <= WIDTH ==> data[0..|data|] == data;
    } else {
      var rest := data[WIDTH..];
      LinesExactly(rest, k - 1);
      assert Lines(data) == [Line(data[..WIDTH])] + Lines(rest);
      assert forall end :: 64 * k <= end <= |data| ==> rest[64 * (k - 1)..end - 64] == data[64 * k..end];
    }
  }

  /** The reader knows the escapes of section 6.4.4.4, whatever follows them. */
  lemma EscapesOfTheStandard(rest: string)
    ensures forall k :: 0 <= k < 11 ==>
      Escape(["abfnrtv\\'\"?"[k]] + rest) == Some(([7, 8, 12, 10, 13, 9, 11, 92, 39, 34, 63][k], rest))
    ensures Escape("x4G") == Some((4, "G")) && Escape("xfF") == Some((255, "")) && Escape("xG") == None && Escape("400") == None
  {
    forall k | 0 <= k < 11
      ensures Escape(["abfnrtv\\'\"?"[k]] + rest) == Some(([7, 8, 12, 10, 13, 9, 11, 92, 39, 34, 63][k], rest))
    {
      var s := ["abfnrtv\\'\"?"[k]] + rest;
      assert s[1..] == rest;
    }
    assert "x4G"[1..] == "4G" && "4G"[1..] == "G" && HexRun("G", 4) == (4, "G") && HexRun("4G", 0) == (4, "G");
    assert "xfF"[1..] == "fF" && "fF"[1..] == "F" && "F"[1..] == "" && HexRun("F", 15) == (255, "") && HexRun("fF", 0) == (255, "");
    assert "xG"[1..] == "G" && HexRun("G", 0) == (0, "G");
    var octal := "400";
    assert octal[1..] == "00" && "00"[1..] == "0" && "0"[1..] == "" && OctalRun("0", 1) == 1 && OctalRun("00", 2) == 2;
    assert OctalRun(octal, 3) == 3 && octal[..3] == octal && octal[..2] == "40" && "40"[..1] == "4" && "4"[..0] == "";
    assert OctalValue("4") == 4 && OctalValue("40") == 32 && OctalValue(octal) == 256;
  }

  /** A question mark printed as itself could become part of a trigraph: this literal reads as a single `#`. */
  lemma TrigraphsAreReplaced()
    ensures Compile("\"??=\"") == Some(['#' as int])
  {
    var s := "\"??=\"";
    assert s[1..] == "??=\"" && s[1..][3..] == "\"" && "\""[1..] == "";
    assert Phase1("") == "" && Phase1("\"") == "\"" + "" == "\"";
    assert Phase1("??=\"") == "#" + "\"" == "#\"";
    assert Phase1(s) == "\"" + "#\"" == "\"#\"";
    NoSplice("\"#\"");
    assert "\"#\""[1..] == "#\"" && "#\""[1..] == "\"";
    assert Body("\"") == Some(([], ""));
    var one := [35];
    assert one + [] == one;
    assert Body("#\"") == Some((one, ""));
    assert Strings("\"#\"") == Some([35]);
  }

  lemma {:induction false} NoSplice(s: string)
    requires forall i :: 0 <= i < |s| ==> s[i] != '\\'
    ensures Phase2(s) == s
  {
    if s != "" {
      NoSplice(s[1..]);
      assert s == [s[0]] + s[1..];
    }
  }

  /** Bytes 1 and `1` printed with the shortest escape: the two digits read as the one byte 9. */
  lemma ShortEscapesAbsorbDigits()
    ensures Compile("\"\\11\"") == Some([9])
  {
    var s := "\"\\11\"";
    assert Tame(s);
    TamePhases(s);
    AbsorbedEscape();
    AbsorbedBody();
    hide Phase1, Phase2, Body, Tame;
    assert s[1..] == "\\11\"";
    var nine := [9];
    assert nine + [] == nine;
    assert Strings("") == Some([]);
  }

  lemma AbsorbedEscape()
    ensures Escape("11\"") == Some((9, "\""))
  {
    var s := "11\"";
    assert s[1..] == "1\"" && s[1..][1..] == "\"" && s[2..] == "\"";
    assert OctalRun("\"", 1) == 0 && OctalRun("1\"", 2) == 1 && OctalRun(s, 3) == 2;
    assert s[..2] == "11" && "11"[..1] == "1" && "1"[..0] == "";
    assert OctalValue("1") == 1 && OctalValue("11") == 9;
  }

  lemma AbsorbedBody()
    ensures Body("\\11\"") == Some(([9], ""))
  {
    AbsorbedEscape();
    hide Escape;
    var s := "\\11\"";
    assert s[1..] == "11\"";
    BodyEnds("");
    assert "\"" + "" == "\"";
    var nine := [9];
    assert nine + [] == nine;
  }

  // ---- The printer -----------------------------------------------------------------------

  method PrintChunk(chunk: seq<int>) returns (text: string)
    requires IsBytes(chunk)
    ensures text == EncodeAll(chunk)
  {
    text := "";
    for i := 0 to |chunk|
      invariant text + EncodeAll(chunk[i..]) == EncodeAll(chunk)
    {
      assert chunk[i..][1..] == chunk[i + 1..];
      assert text + (Encode(chunk[i]) + EncodeAll(chunk[i + 1..])) == (text + Encode(chunk[i])) + EncodeAll(chunk[i + 1..]);
      text := text + Encode(chunk[i]);
    }
  }

  lemma LinesStep(data: seq<int>, end: nat)
    requires IsBytes(data) && data != [] && end == (if |data| < WIDTH then |data| else WIDTH)
    ensures Lines(data) == [Line(data[..end])] + Lines(data[end..])
  {
    if |data| <= WIDTH {
      assert data[..end] == data && data[end..] == [];
    }
  }

  method PrintLiteral(data: seq<int>) returns (text: string)
    requires IsBytes(data)
    ensures text == Literal(data) && Compile(text) == Some(data)
  {
    hide Compile, Lines, EncodeAll;
    var lines: seq<string> := [];
    var start := 0;
    assert data[0..] == data;
    while start < |data|
      invariant start <= |data| && lines + Lines(data[start..]) == Lines(data)
    {
      var end := if start + WIDTH <= |data| then start + WIDTH else |data|;
      var chunk := PrintChunk(data[start..end]);
      ghost var rest := data[start..];
      LinesStep(rest, end - start);
      assert rest[..end - start] == data[start..end] && rest[end - start..] == data[end..];
      assert lines + ([Line(data[start..end])] + Lines(data[end..])) == (lines + [Line(data[start..end])]) + Lines(data[end..]);
      lines := lines + ["    \"" + chunk + "\""];
      start := end;
    }
    NoLines(data[start..]);
    assert lines + [] == lines;
    text := if data == [] then "    \"\"" else Join(lines);
    LiteralRoundTrip(data);
  }

  lemma NoLines(data: seq<int>)
    requires data == []
    ensures Lines(data) == []
  {
  }
}
