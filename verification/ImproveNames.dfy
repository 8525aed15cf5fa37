/** The file names of an improvement run: what each file is for, how its name is spelled, and that no two share a name. */
module ImproveNames {
  import opened Common
  import opened Versions

  datatype Split = Train | Validation | Test

  datatype Stage = OnBaseline | OnRound(round: nat) | HoldoutBaseline | HoldoutFinal

  /** One command execution. */
  datatype Label = Evaluates(stage: Stage, split: Split, index: nat) | Proposes(round: nat)

  datatype Part = Input | Stdout | Stderr | Command

  datatype Name =
    | SpecFile | BaselineBody | InputsFile | ContextFile | FinalBody | ReportFile
    | RoundBody(round: nat) | DecisionFile(round: nat) | CallFile(call: Label, part: Part)

  // ---- Spelling --------------------------------------------------------------------------

  function Zeros(n: int): (s: string)
    ensures |s| == if n <= 0 then 0 else n
    ensures forall i :: 0 <= i < |s| ==> s[i] == '0'
  {
    if n <= 0 then "" else Zeros(n - 1) + "0"
  }

  /** A number in decimal with zeros in front up to a width. */
  function Pad(n: nat, width: nat): string {
    Zeros(width - |Decimal(n)|) + Decimal(n)
  }

  function RoundText(k: nat): string { "round-" + Pad(k, 2) }

  function StageText(s: Stage): string {
    match s
    case OnBaseline => "baseline"
    case OnRound(k) => RoundText(k)
    case HoldoutBaseline => "holdout-baseline"
    case HoldoutFinal => "holdout-final"
  }

  function SplitText(s: Split): string {
    match s
    case Train => "train"
    case Validation => "validation"
    case Test => "test"
  }

  function PartTexts(p: Part): seq<string> {
    match p
    case Input => ["input", "json"]
    case Stdout => ["stdout"]
    case Stderr => ["stderr"]
    case Command => ["command", "json"]
  }

  /** The pieces of a name between its dots. */
  function Pieces(n: Name): (ps: seq<string>)
    ensures ps != []
  {
    match n
    case SpecFile => ["spec", "json"]
    case BaselineBody => ["baseline", "md"]
    case InputsFile => ["inputs", "json"]
    case ContextFile => ["context", "json"]
    case FinalBody => ["final", "md"]
    case ReportFile => ["report", "json"]
    case RoundBody(k) => [RoundText(k), "md"]
    case DecisionFile(k) => [RoundText(k), "decision", "json"]
    case CallFile(Evaluates(stage, split, index), part) =>
      [StageText(stage), SplitText(split), Pad(index, 4)] + PartTexts(part)
    case CallFile(Proposes(k), part) => [RoundText(k), "proposal"] + PartTexts(part)
  }

  function Dotted(ps: seq<string>): string
    requires ps != []
  {
    if |ps| == 1 then ps[0] else ps[0] + "." + Dotted(ps[1..])
  }

  /** The name of the file. */
  function Key(n: Name): string {
    Dotted(Pieces(n))
  }

  // ---- No two files share a name ---------------------------------------------------------

  predicate NoDot(s: string) {
    forall i :: 0 <= i < |s| ==> s[i] != '.'
  }

  lemma LastDigit(s: string)
    requires Digits(s).Some?
    ensures IsDigit(s[|s| - 1])
    ensures Digits(s) == if |s| == 1 then Some(s[0] as int - '0' as int)
      else match Digits(s[..|s| - 1]) case None => None case Some(n) => Some(10 * n + (s[|s| - 1] as int - '0' as int))
  {
  }

  lemma OneMoreDigit(s: string, c: char)
    requires IsDigit(c) && s != ""
    ensures Digits(s + [c]) == match Digits(s) case None => None case Some(n) => Some(10 * n + (c as int - '0' as int))
  {
    assert (s + [c])[..|s|] == s;
  }

  lemma {:induction false} ZerosAreZero(n: int)
    requires n > 0
    ensures Digits(Zeros(n)) == Some(0)
  {
    hide Digits;
    if n == 1 {
      assert Zeros(1) == "0";
      assert Digits("0") == Some(0) by { DigitsOfDecimal(0); }
    } else {
      ZerosAreZero(n - 1);
      OneMoreDigit(Zeros(n - 1), '0');
    }
  }

  lemma {:induction false} DigitsAfterZeros(n: int, s: string)
    requires Digits(s).Some?
    ensures Digits(Zeros(n) + s) == Digits(s)
    decreases |s|
  {
    if n <= 0 {
      assert Zeros(n) + s == s;
    } else {
      hide Digits, Zeros;
      LastDigit(s);
      ZerosAreZero(n);
      var front, last := s[..|s| - 1], s[|s| - 1];
      assert Zeros(n) + s == (Zeros(n) + front) + [last];
      OneMoreDigit(Zeros(n) + front, last);
      if |s| == 1 { assert Zeros(n) + front == Zeros(n); } else { DigitsAfterZeros(n, front); }
    }
  }

  /** A padded number reads back as itself and has no dot. */
  lemma PadReads(n: nat, width: nat)
    ensures Digits(Pad(n, width)) == Some(n) && NoDot(Pad(n, width))
  {
    DigitsOfDecimal(n);
    DigitsAfterZeros(width - |Decimal(n)|, Decimal(n));
    DigitsHaveNoDot(Pad(n, width));
  }

  lemma RoundTextApart(j: nat, k: nat)
    ensures RoundText(j) == RoundText(k) ==> j == k
    ensures NoDot(RoundText(k)) && |RoundText(k)| >= 6 && RoundText(k)[0] == 'r' && RoundText(k)[5] == '-'
  {
    PadReads(j, 2);
    PadReads(k, 2);
    assert RoundText(j)[6..] == Pad(j, 2) && RoundText(k)[6..] == Pad(k, 2);
  }

  lemma StageTextApart(a: Stage, b: Stage)
    ensures StageText(a) == StageText(b) ==> a == b
    ensures NoDot(StageText(a))
  {
    hide RoundText;
    RoundTextApart(if a.OnRound? then a.round else 0, if b.OnRound? then b.round else 0);
    RoundTextApart(if b.OnRound? then b.round else 0, if a.OnRound? then a.round else 0);
    assert "baseline"[0] == 'b' && "holdout-baseline"[0] == 'h' && "holdout-final"[0] == 'h';
    assert |"holdout-baseline"| == 16 && |"holdout-final"| == 13;
  }

  lemma SplitTextApart(a: Split, b: Split)
    ensures SplitText(a) == SplitText(b) ==> a == b
    ensures NoDot(SplitText(a)) && SplitText(a) != "proposal"
  {
    assert |"train"| == 5 && |"validation"| == 10 && |"test"| == 4 && |"proposal"| == 8;
  }

  /** The first piece of a dotted name ends at its first dot. */
  lemma FirstPiece(ps: seq<string>)
    requires ps != [] && NoDot(ps[0])
    ensures var s := Dotted(ps);
      && |ps[0]| <= |s| && s[..|ps[0]|] == ps[0]
      && (|ps| == 1 <==> |s| == |ps[0]|)
      && (|ps| > 1 ==> s[|ps[0]|] == '.' && s[|ps[0]| + 1..] == Dotted(ps[1..]))
      && FirstDot(s) == |ps[0]|
  {
    var s := Dotted(ps);
    if |ps| == 1 {
      assert s == ps[0];
      NoDotAt(s, 0);
    } else {
      assert s == ps[0] + "." + Dotted(ps[1..]);
      DotAt(s, 0, |ps[0]|);
    }
  }

  function FirstDot(s: string): nat {
    DotFrom(s, 0)
  }

  lemma {:induction false} NoDotAt(s: string, i: nat)
    requires i <= |s| && NoDot(s)
    ensures DotFrom(s, i) == |s|
    decreases |s| - i
  {
    if i < |s| { NoDotAt(s, i + 1); }
  }

  lemma {:induction false} DottedApart(a: seq<string>, b: seq<string>)
    requires a != [] && b != [] && Dotted(a) == Dotted(b)
    requires NoDots(a) && NoDots(b)
    ensures a == b
  {
    FirstPiece(a);
    FirstPiece(b);
    assert a[0] == b[0];
    if |a| > 1 {
      DottedApart(a[1..], b[1..]);
      assert a == [a[0]] + a[1..] && b == [b[0]] + b[1..];
    }
  }

  predicate NoDots(ps: seq<string>) {
    forall i :: 0 <= i < |ps| ==> NoDot(ps[i])
  }

  lemma PartTextsNoDot(head: seq<string>, p: Part)
    requires NoDots(head)
    ensures NoDots(head + PartTexts(p))
  {
  }

  lemma CallNoDot(l: Label, p: Part)
    ensures NoDots(Pieces(CallFile(l, p)))
  {
    hide RoundText, StageText, SplitText, Pad, PartTexts;
    match l
    case Evaluates(stage, split, index) =>
      StageTextApart(stage, stage);
      SplitTextApart(split, split);
      PadReads(index, 4);
      PartTextsNoDot([StageText(stage), SplitText(split), Pad(index, 4)], p);
    case Proposes(k) =>
      RoundTextApart(k, k);
      PartTextsNoDot([RoundText(k), "proposal"], p);
  }

  lemma PiecesNoDot(n: Name)
    ensures NoDots(Pieces(n))
  {
    hide RoundText;
    if n.CallFile? {
      hide Pieces;
      CallNoDot(n.call, n.part);
    } else {
      var k := if n.RoundBody? || n.DecisionFile? then n.round else 0;
      RoundTextApart(k, k);
    }
  }

  lemma PartTextsApart(a: Part, b: Part)
    ensures PartTexts(a) == PartTexts(b) ==> a == b
  {
    assert "input"[0] == 'i' && "command"[0] == 'c' && "stdout"[3] == 'o' && "stderr"[3] == 'e';
  }

  /** The pieces of a command's file: who ran, and which of its files it is. */
  lemma CallPiecesApart(a: Label, b: Label, p: Part, q: Part)
    ensures Pieces(CallFile(a, p)) == Pieces(CallFile(b, q)) ==> a == b && p == q
  {
    hide RoundText, StageText, SplitText, PartTexts, Pad;
    PartTextsApart(p, q);
    var u, v := Pieces(CallFile(a, p)), Pieces(CallFile(b, q));
    match (a, b)
    case (Evaluates(s, x, i), Evaluates(t, y, j)) =>
      StageTextApart(s, t);
      SplitTextApart(x, y);
      PadReads(i, 4);
      PadReads(j, 4);
      assert u[0] == StageText(s) && v[0] == StageText(t) && u[1] == SplitText(x) && v[1] == SplitText(y);
      assert u[2] == Pad(i, 4) && v[2] == Pad(j, 4);
      assert u[3..] == PartTexts(p) && v[3..] == PartTexts(q);
    case (Proposes(i), Proposes(j)) =>
      RoundTextApart(i, j);
      assert u[0] == RoundText(i) && v[0] == RoundText(j);
      assert u[2..] == PartTexts(p) && v[2..] == PartTexts(q);
    case (Evaluates(s, x, i), Proposes(j)) =>
      SplitTextApart(x, x);
      assert u[1] == SplitText(x) && v[1] == "proposal";
    case (Proposes(i), Evaluates(t, y, j)) =>
      SplitTextApart(y, y);
      assert u[1] == "proposal" && v[1] == SplitText(y);
  }

  /** A file of no command has two pieces, or three with `decision` in the middle; a command's file is neither. */
  lemma OtherPiecesApart(n: Name, l: Label, p: Part)
    requires !n.CallFile?
    ensures Pieces(n) != Pieces(CallFile(l, p))
  {
    hide RoundText, StageText, SplitText, Pad;
    var v := Pieces(CallFile(l, p));
    assert |v| >= 3;
    if n.DecisionFile? {
      assert Pieces(n)[1] == "decision" && |"decision"| == 8 && "decision"[0] == 'd';
      if l.Proposes? { assert v[1] == "proposal" && "proposal"[0] == 'p'; }
    }
  }

  lemma PlainPiecesApart(a: Name, b: Name)
    requires !a.CallFile? && !b.CallFile?
    ensures Pieces(a) == Pieces(b) ==> a == b
  {
    hide RoundText;
    var j := if a.RoundBody? || a.DecisionFile? then a.round else 0;
    var k := if b.RoundBody? || b.DecisionFile? then b.round else 0;
    RoundTextApart(j, k);
    RoundTextApart(k, j);
    assert "spec"[0] == 's' && "baseline"[0] == 'b' && "inputs"[0] == 'i' && "context"[0] == 'c' && "final"[0] == 'f';
    assert "report"[5] == 't' && "report"[0] == 'r';
    assert Pieces(a) == Pieces(b) ==> Pieces(a)[0] == Pieces(b)[0] && |Pieces(a)| == |Pieces(b)|;
    assert Pieces(a) == Pieces(b) ==> Pieces(a)[0][0] == Pieces(b)[0][0];
    assert RoundText(j)[5] == '-' != "report"[5] && RoundText(k)[5] == '-';
    assert Pieces(a) == Pieces(b) && |Pieces(a)[0]| > 5 ==> Pieces(a)[0][5] == Pieces(b)[0][5];
  }

  /** Two files with the same name are the same file. */
  lemma KeyApart(a: Name, b: Name)
    ensures Key(a) == Key(b) ==> a == b
  {
    hide Pieces, Dotted;
    PiecesNoDot(a);
    PiecesNoDot(b);
    if Key(a) == Key(b) { DottedApart(Pieces(a), Pieces(b)); }
    if a.CallFile? && b.CallFile? {
      CallPiecesApart(a.call, b.call, a.part, b.part);
    } else if a.CallFile? {
      OtherPiecesApart(b, a.call, a.part);
    } else if b.CallFile? {
      OtherPiecesApart(a, b.call, b.part);
    } else {
      PlainPiecesApart(a, b);
    }
  }

  // ---- The names, spelled out ------------------------------------------------------------

  /** A padded number is its decimal digits, with zeros in front up to the width. */
  lemma PadExactly(n: nat, width: nat)
    ensures |Pad(n, width)| == if |Decimal(n)| < width then width else |Decimal(n)|
    ensures Digits(Pad(n, width)) == Some(n)
  {
    PadReads(n, width);
  }

  lemma {:induction false} DottedLast(ps: seq<string>, last: string)
    requires ps != []
    ensures Dotted(ps + [last]) == Dotted(ps) + "." + last
  {
    if |ps| == 1 {
      assert (ps + [last])[1..] == [last];
    } else {
      assert (ps + [last])[1..] == ps[1..] + [last];
      DottedLast(ps[1..], last);
      assert ps[0] + "." + (Dotted(ps[1..]) + "." + last) == ps[0] + "." + Dotted(ps[1..]) + "." + last;
    }
  }

  lemma Dots(a: string, b: string, c: string)
    ensures Dotted([a, b]) == a + "." + b
    ensures Dotted([a, b, c]) == a + "." + b + "." + c
  {
    hide Dotted;
    assert Dotted([a]) == a by { OnePiece(a); }
    DottedLast([a], b);
    DottedLast([a, b], c);
    assert [a] + [b] == [a, b] && [a, b] + [c] == [a, b, c];
  }

  lemma OnePiece(a: string)
    ensures Dotted([a]) == a
  {
  }

  function Suffix(p: Part): string {
    match p
    case Input => ".input.json"
    case Stdout => ".stdout"
    case Stderr => ".stderr"
    case Command => ".command.json"
  }

  /** How every file of a run is called. */
  lemma KeySpelled(n: Name)
    ensures Key(n) ==
      match n
      case SpecFile => "spec.json"
      case BaselineBody => "baseline.md"
      case InputsFile => "inputs.json"
      case ContextFile => "context.json"
      case FinalBody => "final.md"
      case ReportFile => "report.json"
      case RoundBody(k) => "round-" + Pad(k, 2) + ".md"
      case DecisionFile(k) => "round-" + Pad(k, 2) + ".decision.json"
      case CallFile(Proposes(k), part) => "round-" + Pad(k, 2) + ".proposal" + Suffix(part)
      case CallFile(Evaluates(stage, split, i), part) =>
        (match stage
         case OnBaseline => "baseline"
         case OnRound(k) => "round-" + Pad(k, 2)
         case HoldoutBaseline => "holdout-baseline"
         case HoldoutFinal => "holdout-final")
        + (match split case Train => ".train." case Validation => ".validation." case Test => ".test.")
        + Pad(i, 4) + Suffix(part)
  {
    hide Pad, Dotted, Suffix, SplitText, PartTexts, Pieces;
    if n.CallFile? { CallSpelled(n.call, n.part); }
    else if n.RoundBody? || n.DecisionFile? { RoundSpelled(n.round); }
    else { FixedSpelled(); }
  }

  lemma FixedSpelled()
    ensures Key(SpecFile) == "spec.json" && Key(InputsFile) == "inputs.json" && Key(ContextFile) == "context.json"
    ensures Key(ReportFile) == "report.json" && Key(BaselineBody) == "baseline.md" && Key(FinalBody) == "final.md"
  {
    hide Dotted;
    Dots("spec", "json", "");
    Dots("inputs", "json", "");
    Dots("context", "json", "");
    Dots("report", "json", "");
    Dots("baseline", "md", "");
    Dots("final", "md", "");
  }

  lemma RoundSpelled(k: nat)
    ensures Key(RoundBody(k)) == RoundText(k) + ".md" && Key(DecisionFile(k)) == RoundText(k) + ".decision.json"
  {
    hide Dotted, RoundText;
    Dots(RoundText(k), "md", "");
    Dots(RoundText(k), "decision", "json");
    assert RoundText(k) + "." + "md" == RoundText(k) + ".md";
    assert RoundText(k) + "." + "decision" + "." + "json" == RoundText(k) + ".decision.json";
  }

  lemma CallSpelled(l: Label, part: Part)
    ensures Key(CallFile(l, part)) ==
      match l
      case Proposes(k) => RoundText(k) + ".proposal" + Suffix(part)
      case Evaluates(stage, split, i) =>
        StageText(stage) + (match split case Train => ".train." case Validation => ".validation." case Test => ".test.")
        + Pad(i, 4) + Suffix(part)
  {
    hide Dotted, Pad, RoundText, StageText, SplitText, Suffix;
    match l
    case Proposes(k) =>
      var a := RoundText(k);
      Dots(a, "proposal", "");
      WithSuffix([a, "proposal"], part);
      assert a + "." + "proposal" == a + ".proposal";
    case Evaluates(stage, split, i) =>
      var a, b, c := StageText(stage), SplitText(split), Pad(i, 4);
      Dots(a, b, c);
      WithSuffix([a, b, c], part);
      assert a + "." + b + "." + c == a + ("." + b + ".") + c;
      SplitBetween(split);
  }

  lemma SplitBetween(split: Split)
    ensures "." + SplitText(split) + "." == match split case Train => ".train." case Validation => ".validation." case Test => ".test."
  {
  }

  lemma WithSuffix(ps: seq<string>, part: Part)
    requires ps != []
    ensures Dotted(ps + PartTexts(part)) == Dotted(ps) + Suffix(part)
  {
    hide Dotted;
    match part
    case Input => TwoMore(ps, "input", "json");
    case Stdout => DottedLast(ps, "stdout");
    case Stderr => DottedLast(ps, "stderr");
    case Command => TwoMore(ps, "command", "json");
  }

  lemma TwoMore(ps: seq<string>, a: string, b: string)
    requires ps != []
    ensures Dotted(ps + [a, b]) == Dotted(ps) + ("." + a + "." + b)
    ensures Dotted(ps + [a]) == Dotted(ps) + ("." + a)
  {
    hide Dotted;
    DottedLast(ps, a);
    DottedLast(ps + [a], b);
    assert ps + [a, b] == ps + [a] + [b];
  }

  // ---- Names need no quoting -------------------------------------------------------------

  predicate PlainChar(c: char) {
    'a' <= c <= 'z' || '0' <= c <= '9' || c == '-' || c == '.'
  }

  /** Text that JSON prints between quotes as it is. */
  predicate PlainText(s: string) {
    forall i :: 0 <= i < |s| ==> PlainChar(s[i])
  }

  predicate AllPlain(ps: seq<string>) {
    forall i :: 0 <= i < |ps| ==> PlainText(ps[i])
  }

  lemma {:induction false} DigitsArePlain(s: string)
    requires Digits(s).Some?
    ensures PlainText(s)
  {
    if |s| > 1 {
      DigitsArePlain(s[..|s| - 1]);
      assert forall i :: 0 <= i < |s| - 1 ==> s[i] == s[..|s| - 1][i];
    }
  }

  lemma RoundIsPlain(k: nat)
    ensures PlainText(RoundText(k))
  {
    PadReads(k, 2);
    DigitsArePlain(Pad(k, 2));
    assert PlainText("round-");
  }

  lemma CallIsPlain(l: Label, p: Part)
    ensures AllPlain(Pieces(CallFile(l, p)))
  {
    hide RoundText, Pad, PlainChar;
    assert AllPlain(PartTexts(p)) by { PartIsPlain(p); }
    match l
    case Evaluates(stage, split, index) =>
      if stage.OnRound? { RoundIsPlain(stage.round); }
      assert PlainText(StageText(stage)) && PlainText(SplitText(split)) by { FixedIsPlain(stage, split); }
      PadReads(index, 4);
      DigitsArePlain(Pad(index, 4));
      AllPlainAppend([StageText(stage), SplitText(split), Pad(index, 4)], PartTexts(p));
    case Proposes(k) =>
      RoundIsPlain(k);
      assert PlainText("proposal") by { FixedIsPlain(OnBaseline, Train); }
      AllPlainAppend([RoundText(k), "proposal"], PartTexts(p));
  }

  lemma AllPlainAppend(a: seq<string>, b: seq<string>)
    requires AllPlain(a) && AllPlain(b)
    ensures AllPlain(a + b)
  {
    hide PlainText;
  }

  lemma PartIsPlain(p: Part)
    ensures AllPlain(PartTexts(p))
  {
  }

  lemma FixedIsPlain(stage: Stage, split: Split)
    ensures !stage.OnRound? ==> PlainText(StageText(stage))
    ensures PlainText(SplitText(split)) && PlainText("proposal")
  {
  }

  lemma {:induction false} DottedIsPlain(ps: seq<string>)
    requires ps != [] && AllPlain(ps)
    ensures PlainText(Dotted(ps))
  {
    if |ps| > 1 { DottedIsPlain(ps[1..]); }
  }

  /** No file name needs quoting in the manifest. */
  lemma KeyIsPlain(n: Name)
    ensures PlainText(Key(n))
  {
    hide RoundText, Dotted;
    if n.CallFile? {
      hide Pieces;
      CallIsPlain(n.call, n.part);
    } else {
      if n.RoundBody? || n.DecisionFile? { RoundIsPlain(n.round); }
    }
    DottedIsPlain(Pieces(n));
  }
}
