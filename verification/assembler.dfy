/** The assembler (`asmbler` in the application): each source line is matched
    against four patterns in turn and encoded as one memory word, and the
    first line no pattern accepts is reported.

    The patterns are regular expressions in the source. Here each is stated
    twice: as a ghost predicate that says which strings the expression
    matches and what its groups capture, and as a scanner that finds the
    match by skipping spaces and digits. `ScanOperandIff`, `ScanBareIff`,
    `ScanLiteralIff` and `TrailerAtIff` show the two agree. */
module Assembler {
  import opened Memory
  import Control
  import Js

  datatype Option<T> = None | Some(value: T)

  /** The mnemonic table: a mnemonic's opcode is its index. */
  const Ops: seq<string> := ["load", "store", "add", "and", "jump", "jumpz", "comp", "lsl"]

  /** The alternatives of the operand pattern and of the bare pattern, in
      the order the expressions list them. */
  const OperandOps: seq<string> := ["load", "store", "add", "and", "jump", "jumpz"]
  const BareOps: seq<string> := ["comp", "lsl"]

  // Character classes

  /** `\s`: the white space and line terminator characters of ECMAScript. */
  predicate IsSpace(c: char)
  {
    c == '\t' || c == '\n' || c == '\U{B}' || c == '\U{C}' || c == '\r' || c == ' '
    || c == '\U{A0}' || c == '\U{1680}' || ('\U{2000}' <= c <= '\U{200A}')
    || c == '\U{2028}' || c == '\U{2029}' || c == '\U{202F}' || c == '\U{205F}'
    || c == '\U{3000}' || c == '\U{FEFF}'
  }

  /** `\d`: an ASCII digit. */
  predicate IsDigit(c: char)
  {
    '0' <= c <= '9'
  }

  /** The characters `.` does not match. */
  predicate IsLineTerminator(c: char)
  {
    c == '\n' || c == '\r' || c == '\U{2028}' || c == '\U{2029}'
  }

  /** The characters from `i` to `j` are spaces. */
  predicate SpacesIn(s: string, i: int, j: int)
    requires 0 <= i <= j <= |s|
  {
    forall k | i <= k < j :: IsSpace(s[k])
  }

  /** The characters from `i` to `j` are digits. */
  predicate DigitsIn(s: string, i: int, j: int)
    requires 0 <= i <= j <= |s|
  {
    forall k | i <= k < j :: IsDigit(s[k])
  }

  /** `\d+` */
  predicate Numeral(s: string)
  {
    |s| > 0 && DigitsIn(s, 0, |s|)
  }

  /** `\/\/.*` runs from `i` to the end. */
  predicate CommentAt(s: string, i: int)
    requires 0 <= i <= |s|
  {
    i + 2 <= |s| && s[i] == '/' && s[i + 1] == '/' && forall k | i + 2 <= k < |s| :: !IsLineTerminator(s[k])
  }

  /** `t` is spelled at index `p` of `s`. */
  predicate Spelled(s: string, p: int, t: string)
  {
    0 <= p && p + |t| <= |s| && s[p..p + |t|] == t
  }

  /** A mnemonic is a non-empty word of lower-case letters. */
  predicate Mnemonic(name: string)
  {
    |name| > 0 && forall i | 0 <= i < |name| :: 'a' <= name[i] <= 'z'
  }

  // The patterns, as the languages they match

  /** `\s*(?:\/\/.*)?$`, the common end of every pattern, matches from `i`. */
  ghost predicate TrailerFrom(s: string, i: int)
    requires 0 <= i <= |s|
  {
    exists p | i <= p <= |s| :: SpacesIn(s, i, p) && (p == |s| || CommentAt(s, p))
  }

  /** `line` splits as spaces, `name` at `p`, spaces, `digits` at `q`, and
      the common end. */
  ghost predicate OperandSplit(line: string, name: string, digits: string, p: int, q: int)
  {
    && 0 <= p && p + |name| <= q && q + |digits| <= |line|
    && SpacesIn(line, 0, p)
    && Spelled(line, p, name)
    && SpacesIn(line, p + |name|, q)
    && Spelled(line, q, digits)
    && TrailerFrom(line, q + |digits|)
  }

  /** `^\s*(load|store|add|and|jump|jumpz)\s*(\d+)\s*(?:\/\/.*)?$` matches
      `line` with `name` and `digits` as its two groups. */
  ghost predicate OperandForm(line: string, name: string, digits: string)
  {
    name in OperandOps && Numeral(digits) && exists p, q :: OperandSplit(line, name, digits, p, q)
  }

  /** `line` splits as spaces, `t` at `p`, and the common end. */
  ghost predicate WordSplit(line: string, t: string, p: int)
  {
    0 <= p && p + |t| <= |line| && SpacesIn(line, 0, p) && Spelled(line, p, t) && TrailerFrom(line, p + |t|)
  }

  /** `^\s*(comp|lsl)\s*(?:\/\/.*)?$` matches `line` with `name` as its group. */
  ghost predicate BareForm(line: string, name: string)
  {
    name in BareOps && exists p :: WordSplit(line, name, p)
  }

  /** `^\s*(\d+)\s*(?:\/\/.*)?$` matches `line` with `digits` as its group. */
  ghost predicate LiteralForm(line: string, digits: string)
  {
    Numeral(digits) && exists p :: WordSplit(line, digits, p)
  }

  /** `^\s*(?:\/\/.*)?$` matches `line`. */
  ghost predicate BlankForm(line: string)
  {
    TrailerFrom(line, 0)
  }

  // The scanner

  /** The first index from `i` on that does not hold a space. */
  function SkipSpaces(s: string, i: nat): (j: nat)
    requires i <= |s|
    ensures i <= j <= |s| && SpacesIn(s, i, j)
    ensures j < |s| ==> !IsSpace(s[j])
    decreases |s| - i
  {
    if i < |s| && IsSpace(s[i]) then SkipSpaces(s, i + 1) else i
  }

  /** The first index from `i` on that does not hold a digit. */
  function SkipDigits(s: string, i: nat): (j: nat)
    requires i <= |s|
    ensures i <= j <= |s| && DigitsIn(s, i, j)
    ensures j < |s| ==> !IsDigit(s[j])
    decreases |s| - i
  {
    if i < |s| && IsDigit(s[i]) then SkipDigits(s, i + 1) else i
  }

  /** The common end of the patterns, scanned from index `i`. */
  predicate TrailerAt(s: string, i: nat)
    requires i <= |s|
  {
    var j := SkipSpaces(s, i);
    j == |s| || CommentAt(s, j)
  }

  /** Where the operand of `name` at `p` starts and ends. */
  function OperandStart(s: string, p: nat, name: string): nat
    requires Spelled(s, p, name)
  {
    SkipSpaces(s, p + |name|)
  }

  function OperandEnd(s: string, p: nat, name: string): nat
    requires Spelled(s, p, name)
  {
    SkipDigits(s, OperandStart(s, p, name))
  }

  /** The operand pattern, scanned with the mnemonic `name` at `p`. */
  predicate OperandScans(s: string, p: nat, name: string)
  {
    Spelled(s, p, name)
    && OperandStart(s, p, name) < OperandEnd(s, p, name)
    && TrailerAt(s, OperandEnd(s, p, name))
  }

  /** The bare pattern, scanned with the mnemonic `name` at `p`. */
  predicate BareScans(s: string, p: nat, name: string)
  {
    Spelled(s, p, name) && TrailerAt(s, p + |name|)
  }

  /** The two mnemonic patterns. */
  datatype Pattern = WithOperand | WithoutOperand

  /** Pattern `pat`, scanned with the mnemonic `name` at `p`. */
  predicate Scans(pat: Pattern, s: string, p: nat, name: string)
  {
    match pat
    case WithOperand => OperandScans(s, p, name)
    case WithoutOperand => BareScans(s, p, name)
  }

  /** The first of `names` with which `pat` scans at `p`, as the regular
      expression engine tries the alternatives in order. */
  function First(names: seq<string>, pat: Pattern, s: string, p: nat): (r: Option<string>)
    ensures r.Some? ==> r.value in names && Scans(pat, s, p, r.value)
    ensures r.None? ==> forall n | n in names :: !Scans(pat, s, p, n)
  {
    if |names| == 0 then None
    else if Scans(pat, s, p, names[0]) then Some(names[0])
    else First(names[1..], pat, s, p)
  }

  /** The operand pattern's groups, if it matches. */
  function ScanOperand(line: string): Option<(string, string)>
  {
    var p := SkipSpaces(line, 0);
    match First(OperandOps, WithOperand, line, p)
    case Some(n) => Some((n, line[OperandStart(line, p, n)..OperandEnd(line, p, n)]))
    case None => None
  }

  /** The bare pattern's group, if it matches. */
  function ScanBare(line: string): Option<string>
  {
    First(BareOps, WithoutOperand, line, SkipSpaces(line, 0))
  }

  /** The literal pattern's group, if it matches. */
  function ScanLiteral(line: string): Option<string>
  {
    var p := SkipSpaces(line, 0);
    var e := SkipDigits(line, p);
    if p < e && TrailerAt(line, e) then Some(line[p..e]) else None
  }

  // Encoding

  function DigitValue(c: char): nat
  {
    if IsDigit(c) then c as int - '0' as int else 0
  }

  /** `parseInt` of a numeral: its decimal value. */
  function Value(digits: string): nat
  {
    if |digits| == 0 then 0
    else 10 * Value(digits[..|digits| - 1]) + DigitValue(digits[|digits| - 1])
  }

  /** `indexOf`: the first index holding `x`, or -1. */
  function IndexOf(s: seq<string>, x: string): (i: int)
    ensures x in s ==> 0 <= i < |s| && s[i] == x && forall j | 0 <= j < i :: s[j] != x
    ensures x !in s ==> i == -1
  {
    if |s| == 0 then -1
    else if s[0] == x then 0
    else var i := IndexOf(s[1..], x); if i == -1 then -1 else i + 1
  }

  /** What a line is, by the first pattern it matches. */
  datatype Line = Operand(op: int, value: nat) | Bare(op: int) | Literal(value: nat) | Blank | Malformed

  function Classify(line: string): Line
  {
    match ScanOperand(line)
    case Some((n, d)) => Operand(IndexOf(Ops, n), Value(d))
    case None =>
      match ScanBare(line)
      case Some(n) => Bare(IndexOf(Ops, n))
      case None =>
        match ScanLiteral(line)
        case Some(d) => Literal(Value(d))
        case None => if TrailerAt(line, 0) then Blank else Malformed
  }

  /** The word a line assembles to: the opcode shifted over the 12-bit
      operand field plus the operand, which is not masked. */
  function Word(l: Line): int
  {
    match l
    case Operand(op, v) => op * 4096 + v
    case Bare(op) => op * 4096
    case Literal(v) => v
    case Blank => 0
    case Malformed => 0
  }

  /** The result: the memory image, or the index of the first bad line. */
  datatype Assembly = Assembled(image: seq<Slot>) | Rejected(line: nat)

  function Max(a: int, b: int): int
  {
    if a < b then b else a
  }

  /** The image before any line is stored: 4096 holes. */
  function Holes(): (image: seq<Slot>)
    ensures |image| == 4096 && forall i | 0 <= i < 4096 :: image[i] == Hole
  {
    seq(4096, _ => Hole)
  }

  /** `res[index] = value` on an array that grows when written one past
      its end. */
  function Store(image: seq<Slot>, i: nat, v: int): (r: seq<Slot>)
    requires i <= |image|
    ensures |r| == Max(|image|, i + 1)
    ensures r[i] == Holds(v)
    ensures forall k | 0 <= k < |image| && k != i :: r[k] == image[k]
  {
    if i < |image| then image[i := Holds(v)] else image + [Holds(v)]
  }

  /** Assemble `lines` from index `i` on, into an image whose slots below `i`
      are already filled. */
  function AssembleFrom(lines: seq<string>, i: nat, image: seq<Slot>): (r: Assembly)
    requires i <= |lines| && |image| == Max(4096, i)
    requires forall k | i <= k < |image| :: image[k] == Hole
    ensures r.Rejected? ==>
      && i <= r.line < |lines| && Classify(lines[r.line]).Malformed?
      && forall k | i <= k < r.line :: !Classify(lines[k]).Malformed?
    ensures r.Assembled? ==> forall k | i <= k < |lines| :: !Classify(lines[k]).Malformed?
    ensures r.Assembled? ==>
      && |r.image| == Max(4096, |lines|)
      && (forall k | 0 <= k < i :: r.image[k] == image[k])
      && (forall k | i <= k < |lines| :: r.image[k] == Holds(Word(Classify(lines[k]))))
      && (forall k | |lines| <= k < |r.image| :: r.image[k] == Hole)
    decreases |lines| - i
  {
    if i == |lines| then Assembled(image)
    else
      var l := Classify(lines[i]);
      if l.Malformed? then Rejected(i)
      else AssembleFrom(lines, i + 1, Store(image, i, Word(l)))
  }

  /** The assembler: on success slot i holds the word of line i and every
      slot past the last line is a hole; otherwise the first line that no
      pattern matches is reported. */
  function Assemble(lines: seq<string>): (r: Assembly)
    ensures r.Rejected? ==>
      && r.line < |lines| && Classify(lines[r.line]).Malformed?
      && forall k | 0 <= k < r.line :: !Classify(lines[k]).Malformed?
    ensures r.Assembled? <==> forall k | 0 <= k < |lines| :: !Classify(lines[k]).Malformed?
    ensures r.Assembled? ==>
      && |r.image| == Max(4096, |lines|)
      && forall k | 0 <= k < |r.image| ::
           r.image[k] == if k < |lines| then Holds(Word(Classify(lines[k]))) else Hole
  {
    AssembleFrom(lines, 0, Holes())
  }

  // The scanner finds exactly the matches of the patterns

  /** Every mnemonic of the table is a lower-case word, the two pattern
      lists are the table's entries in opcode order, and the table is the
      instruction decoder's label list. */
  lemma OpsTable()
    ensures forall n | n in Ops :: Mnemonic(n)
    ensures OperandOps == Ops[..6] && BareOps == Ops[6..]
    ensures forall i, j | 0 <= i < j < |Ops| :: Ops[i] != Ops[j]
    ensures Ops == Control.OpLabels
  {
  }

  /** Skipping spaces from `i` stops at `p` when only spaces lie between
      and `p` holds none. */
  lemma {:induction false} SkipSpacesTo(s: string, i: nat, p: nat)
    requires i <= p <= |s| && SpacesIn(s, i, p)
    requires p < |s| ==> !IsSpace(s[p])
    ensures SkipSpaces(s, i) == p
    decreases p - i
  {
    if i < p {
      SkipSpacesTo(s, i + 1, p);
    }
  }

  /** Skipping digits from `i` stops at `p` when only digits lie between and
      `p` holds none. */
  lemma {:induction false} SkipDigitsTo(s: string, i: nat, p: nat)
    requires i <= p <= |s| && DigitsIn(s, i, p)
    requires p < |s| ==> !IsDigit(s[p])
    ensures SkipDigits(s, i) == p
    decreases p - i
  {
    if i < p {
      SkipDigitsTo(s, i + 1, p);
    }
  }

  /** The common end starts with a space or a slash, if anything. */
  lemma TrailerStart(s: string, i: nat)
    requires i < |s| && TrailerFrom(s, i)
    ensures IsSpace(s[i]) || s[i] == '/'
  {
  }

  /** The common end matches the empty rest of a line. */
  lemma TrailerAtEnd(s: string)
    ensures TrailerFrom(s, |s|)
  {
    assert SpacesIn(s, |s|, |s|);
  }

  /** The scanned end and the pattern's end agree. */
  lemma TrailerAtIff(s: string, i: nat)
    requires i <= |s|
    ensures TrailerAt(s, i) <==> TrailerFrom(s, i)
  {
    if TrailerFrom(s, i) {
      var p :| i <= p <= |s| && SpacesIn(s, i, p) && (p == |s| || CommentAt(s, p));
      SkipSpacesTo(s, i, p);
    }
  }

  /** A longer mnemonic spelled where a shorter one is continues with a
      letter. */
  lemma LongerName(s: string, p: nat, short: string, long: string)
    requires Mnemonic(long) && Spelled(s, p, short) && Spelled(s, p, long) && |short| < |long|
    ensures p + |short| < |s| && 'a' <= s[p + |short|] <= 'z'
  {
    assert s[p + |short|] == s[p..p + |long|][|short|] == long[|short|];
  }

  /** At most one mnemonic scans with a pattern at a given index. */
  lemma ScansUnique(pat: Pattern, s: string, p: nat, n1: string, n2: string)
    requires Mnemonic(n1) && Mnemonic(n2)
    ensures Scans(pat, s, p, n1) && Scans(pat, s, p, n2) ==> n1 == n2
  {
    if |n1| < |n2| {
      ShorterFails(pat, s, p, n1, n2);
    } else if |n2| < |n1| {
      ShorterFails(pat, s, p, n2, n1);
    } else if Spelled(s, p, n1) && Spelled(s, p, n2) {
      assert n1 == s[p..p + |n1|] == n2;
    }
  }

  /** Where a mnemonic is spelled, no shorter one scans: the letter after
      the shorter one is neither a space, a digit nor a slash. */
  lemma ShorterFails(pat: Pattern, s: string, p: nat, short: string, long: string)
    requires Mnemonic(long) && |short| < |long|
    ensures Spelled(s, p, long) ==> !Scans(pat, s, p, short)
  {
    if Spelled(s, p, long) && Spelled(s, p, short) {
      LongerName(s, p, short, long);
      var e := p + |short|;
      SkipSpacesTo(s, e, e);
      if pat.WithOperand? {
        SkipDigitsTo(s, e, e);
      } else {
        assert s[e..][0] == s[e];
      }
    }
  }

  /** `First` returns the one name that scans, when there is exactly one. */
  lemma {:induction false} FirstFinds(names: seq<string>, pat: Pattern, s: string, p: nat, n: string)
    requires n in names && Scans(pat, s, p, n)
    requires forall m | m in names && Scans(pat, s, p, m) :: m == n
    ensures First(names, pat, s, p) == Some(n)
  {
    if names[0] != n {
      FirstFinds(names[1..], pat, s, p, n);
    }
  }

  /** The operand scanner returns exactly the groups the operand pattern
      captures. */
  lemma ScanOperandIff(line: string, name: string, digits: string)
    ensures ScanOperand(line) == Some((name, digits)) <==> OperandForm(line, name, digits)
  {
    if ScanOperand(line) == Some((name, digits)) {
      ScannedOperandSplits(line);
    }
    if OperandForm(line, name, digits) {
      var p, q :| OperandSplit(line, name, digits, p, q);
      OperandSplitScans(line, name, digits, p, q);
    }
  }

  /** What the operand scanner finds is a split of the operand pattern. */
  lemma ScannedOperandSplits(line: string)
    requires ScanOperand(line).Some?
    ensures OperandForm(line, ScanOperand(line).value.0, ScanOperand(line).value.1)
  {
    var p0 := SkipSpaces(line, 0);
    var name := First(OperandOps, WithOperand, line, p0).value;
    var q, e := OperandStart(line, p0, name), OperandEnd(line, p0, name);
    var digits := line[q..e];
    TrailerAtIff(line, e);
    assert OperandSplit(line, name, digits, p0, q);
    forall k | 0 <= k < |digits|
      ensures IsDigit(digits[k])
    {
      assert digits[k] == line[q + k];
    }
  }

  /** A split of the operand pattern is the one the scanner finds. */
  lemma OperandSplitScans(line: string, name: string, digits: string, p: int, q: int)
    requires name in OperandOps && Numeral(digits) && OperandSplit(line, name, digits, p, q)
    ensures ScanOperand(line) == Some((name, digits))
  {
    OpsTable();
    OperandSplitPositions(line, name, digits, p, q);
    forall m | m in OperandOps && Scans(WithOperand, line, p, m)
      ensures m == name
    {
      ScansUnique(WithOperand, line, p, m, name);
    }
    FirstFinds(OperandOps, WithOperand, line, p, name);
  }

  /** The positions of a split of the operand pattern are those the
      scanner computes. */
  lemma OperandSplitPositions(line: string, name: string, digits: string, p: int, q: int)
    requires Mnemonic(name) && Numeral(digits) && OperandSplit(line, name, digits, p, q)
    ensures p == SkipSpaces(line, 0)
    ensures OperandStart(line, p, name) == q && OperandEnd(line, p, name) == q + |digits|
    ensures TrailerAt(line, q + |digits|)
  {
    var e := q + |digits|;
    assert line[p] == line[p..p + |name|][0];
    SkipSpacesTo(line, 0, p);
    assert line[q] == line[q..e][0];
    SkipSpacesTo(line, p + |name|, q);
    forall k | q <= k < e
      ensures IsDigit(line[k])
    {
      assert line[k] == line[q..e][k - q];
    }
    if e < |line| {
      TrailerStart(line, e);
    }
    SkipDigitsTo(line, q, e);
    TrailerAtIff(line, e);
  }

  /** The bare scanner returns exactly the group the bare pattern captures. */
  lemma ScanBareIff(line: string, name: string)
    ensures ScanBare(line) == Some(name) <==> BareForm(line, name)
  {
    var p0 := SkipSpaces(line, 0);
    if ScanBare(line) == Some(name) {
      TrailerAtIff(line, p0 + |name|);
      assert WordSplit(line, name, p0);
    }
    if BareForm(line, name) {
      var p :| WordSplit(line, name, p);
      BareSplitScans(line, name, p);
    }
  }

  /** A split of the bare pattern is the one the scanner finds. */
  lemma BareSplitScans(line: string, name: string, p: int)
    requires name in BareOps && WordSplit(line, name, p)
    ensures ScanBare(line) == Some(name)
  {
    OpsTable();
    assert line[p] == line[p..p + |name|][0];
    SkipSpacesTo(line, 0, p);
    TrailerAtIff(line, p + |name|);
    forall m | m in BareOps && Scans(WithoutOperand, line, p, m)
      ensures m == name
    {
      ScansUnique(WithoutOperand, line, p, m, name);
    }
    FirstFinds(BareOps, WithoutOperand, line, p, name);
  }

  /** The literal scanner returns exactly the group the literal pattern
      captures. */
  lemma ScanLiteralIff(line: string, digits: string)
    ensures ScanLiteral(line) == Some(digits) <==> LiteralForm(line, digits)
  {
    if ScanLiteral(line) == Some(digits) {
      ScannedLiteralSplits(line);
    }
    if LiteralForm(line, digits) {
      var p :| WordSplit(line, digits, p);
      LiteralSplitScans(line, digits, p);
    }
  }

  /** What the literal scanner finds is a split of the literal pattern. */
  lemma ScannedLiteralSplits(line: string)
    requires ScanLiteral(line).Some?
    ensures LiteralForm(line, ScanLiteral(line).value)
  {
    var p0 := SkipSpaces(line, 0);
    var e := SkipDigits(line, p0);
    var digits := line[p0..e];
    TrailerAtIff(line, e);
    assert WordSplit(line, digits, p0);
    forall k | 0 <= k < |digits|
      ensures IsDigit(digits[k])
    {
      assert digits[k] == line[p0 + k];
    }
  }

  /** A split of the literal pattern is the one the scanner finds. */
  lemma LiteralSplitScans(line: string, digits: string, p: int)
    requires Numeral(digits) && WordSplit(line, digits, p)
    ensures ScanLiteral(line) == Some(digits)
  {
    var e := p + |digits|;
    assert line[p] == line[p..e][0];
    SkipSpacesTo(line, 0, p);
    forall k | p <= k < e
      ensures IsDigit(line[k])
    {
      assert line[k] == line[p..e][k - p];
    }
    if e < |line| {
      TrailerStart(line, e);
    }
    SkipDigitsTo(line, p, e);
    TrailerAtIff(line, e);
  }

  // Classification follows the patterns in order

  ghost predicate AnyOperand(line: string)
  {
    exists n, d :: OperandForm(line, n, d)
  }

  ghost predicate AnyBare(line: string)
  {
    exists n :: BareForm(line, n)
  }

  ghost predicate AnyLiteral(line: string)
  {
    exists d :: LiteralForm(line, d)
  }

  /** A line is classified by the first pattern that matches it, with the
      groups that pattern captures; it is malformed exactly when none does. */
  lemma ClassifyAgrees(line: string)
    ensures forall n, d | OperandForm(line, n, d) :: Classify(line) == Operand(IndexOf(Ops, n), Value(d))
    ensures forall n | BareForm(line, n) && !AnyOperand(line) :: Classify(line) == Bare(IndexOf(Ops, n))
    ensures forall d | LiteralForm(line, d) && !AnyOperand(line) && !AnyBare(line) ::
      Classify(line) == Literal(Value(d))
    ensures BlankForm(line) && !AnyOperand(line) && !AnyBare(line) && !AnyLiteral(line) ==> Classify(line) == Blank
    ensures Classify(line).Malformed? <==>
      !AnyOperand(line) && !AnyBare(line) && !AnyLiteral(line) && !BlankForm(line)
  {
    forall n, d | OperandForm(line, n, d)
      ensures ScanOperand(line) == Some((n, d))
    {
      ScanOperandIff(line, n, d);
    }
    if ScanOperand(line).Some? {
      ScanOperandIff(line, ScanOperand(line).value.0, ScanOperand(line).value.1);
    }
    forall n | BareForm(line, n)
      ensures ScanBare(line) == Some(n)
    {
      ScanBareIff(line, n);
    }
    if ScanBare(line).Some? {
      ScanBareIff(line, ScanBare(line).value);
    }
    forall d | LiteralForm(line, d)
      ensures ScanLiteral(line) == Some(d)
    {
      ScanLiteralIff(line, d);
    }
    if ScanLiteral(line).Some? {
      ScanLiteralIff(line, ScanLiteral(line).value);
    }
    TrailerAtIff(line, 0);
  }

  // Disassembly: every classification has a source line

  /** The digit character of `d`. */
  function Digit(d: nat): char
    requires d < 10
  {
    ('0' as int + d) as char
  }

  /** The decimal numeral of `v`. */
  function Digits(v: nat): (s: string)
    ensures Numeral(s) && Value(s) == v
  {
    if v < 10 then [Digit(v)]
    else
      var a := Digits(v / 10);
      assert (a + [Digit(v % 10)])[..|a|] == a;
      a + [Digit(v % 10)]
  }

  /** A classification the assembler can produce from some line. */
  predicate Canonical(l: Line)
  {
    match l
    case Operand(op, _) => 0 <= op < 6
    case Bare(op) => 6 <= op < 8
    case Literal(_) => true
    case Blank => true
    case Malformed => false
  }

  /** A source line for a classification. */
  function Render(l: Line): string
    requires Canonical(l)
  {
    match l
    case Operand(op, v) => Ops[op] + " " + Digits(v)
    case Bare(op) => Ops[op]
    case Literal(v) => Digits(v)
    case Blank => ""
  }

  /** A line that starts, after its spaces, with anything but a letter
      spells no mnemonic there. */
  lemma NoMnemonicAt(names: seq<string>, pat: Pattern, s: string, p: nat)
    requires forall n | n in names :: Mnemonic(n)
    requires p < |s| ==> !('a' <= s[p] <= 'z')
    ensures First(names, pat, s, p) == None
  {
    forall n | n in names
      ensures !Scans(pat, s, p, n)
    {
      if Spelled(s, p, n) {
        assert s[p] == s[p..p + |n|][0] == n[0];
      }
    }
  }

  /** Rendering and classifying a line are inverse. */
  lemma ClassifyRender(l: Line)
    requires Canonical(l)
    ensures Classify(Render(l)) == l
  {
    match l
    case Operand(op, v) => RenderOperand(op, v);
    case Bare(op) => RenderBare(op);
    case Literal(v) => RenderLiteral(v);
    case Blank =>
      OpsTable();
      NoMnemonicAt(OperandOps, WithOperand, "", 0);
      NoMnemonicAt(BareOps, WithoutOperand, "", 0);
  }

  lemma RenderOperand(op: int, v: nat)
    requires 0 <= op < 6
    ensures Classify(Ops[op] + " " + Digits(v)) == Operand(op, v)
  {
    OpsTable();
    var name, ds := Ops[op], Digits(v);
    var line := name + " " + ds;
    assert line[..|name|] == name && line[|name|] == ' ' && line[|name| + 1..] == ds;
    TrailerAtEnd(line);
    assert OperandSplit(line, name, ds, 0, |name| + 1);
    OperandSplitScans(line, name, ds, 0, |name| + 1);
  }

  lemma RenderBare(op: int)
    requires 6 <= op < 8
    ensures Classify(Ops[op]) == Bare(op)
  {
    OpsTable();
    var line := Ops[op];
    SkipSpacesTo(line, 0, 0);
    forall m | m in OperandOps
      ensures !Scans(WithOperand, line, 0, m)
    {
      if Spelled(line, 0, m) {
        assert m == line[..|m|];
      }
    }
    TrailerAtEnd(line);
    assert WordSplit(line, line, 0);
    BareSplitScans(line, line, 0);
  }

  lemma RenderLiteral(v: nat)
    ensures Classify(Digits(v)) == Literal(v)
  {
    OpsTable();
    var line := Digits(v);
    assert IsDigit(line[0]);
    SkipSpacesTo(line, 0, 0);
    NoMnemonicAt(OperandOps, WithOperand, line, 0);
    NoMnemonicAt(BareOps, WithoutOperand, line, 0);
    TrailerAtEnd(line);
    assert WordSplit(line, line, 0);
    LiteralSplitScans(line, line, 0);
  }

  /** Source lines for a sequence of classifications. */
  function Disassemble(ls: seq<Line>): (lines: seq<string>)
    requires forall i | 0 <= i < |ls| :: Canonical(ls[i])
  {
    seq(|ls|, i requires 0 <= i < |ls| => Render(ls[i]))
  }

  /** Each disassembled line classifies back to its classification. */
  lemma DisassembleClassifies(ls: seq<Line>)
    requires forall i | 0 <= i < |ls| :: Canonical(ls[i])
    ensures |Disassemble(ls)| == |ls|
    ensures forall i | 0 <= i < |ls| :: Classify(Disassemble(ls)[i]) == ls[i]
  {
    forall i | 0 <= i < |ls|
      ensures Classify(Disassemble(ls)[i]) == ls[i]
    {
      ClassifyRender(ls[i]);
    }
  }

  /** The image of a program: its words, then holes up to 4096 slots. */
  function Image(ls: seq<Line>): seq<Slot>
  {
    seq(Max(4096, |ls|), k => if 0 <= k < |ls| then Holds(Word(ls[k])) else Hole)
  }

  /** Lines that classify to well-formed lines assemble to those lines'
      image. */
  lemma AssembleClassified(lines: seq<string>, ls: seq<Line>)
    requires |lines| == |ls|
    requires forall i | 0 <= i < |ls| :: Classify(lines[i]) == ls[i] && !ls[i].Malformed?
    ensures Assemble(lines) == Assembled(Image(ls))
  {
    var r := Assemble(lines);
    var image := Image(ls);
    assert r.Assembled?;
    assert |r.image| == |image|;
    forall k | 0 <= k < |image|
      ensures r.image[k] == image[k]
    {
    }
  }

  /** Assembling disassembled lines gives back their image. */
  lemma AssembleDisassembled(ls: seq<Line>)
    requires forall i | 0 <= i < |ls| :: Canonical(ls[i])
    ensures Assemble(Disassemble(ls)) == Assembled(Image(ls))
  {
    DisassembleClassifies(ls);
    AssembleClassified(Disassemble(ls), ls);
  }

  /** A mnemonic with an operand below 4096 assembles to a word whose
      opcode field, as the instruction decoder reads it, names that
      mnemonic, and whose low twelve bits are the operand. */
  lemma WordFields(l: Line)
    requires Canonical(l) && (l.Operand? || l.Bare?)
    requires l.Operand? ==> l.value < 4096
    ensures Control.Opcode(Word(l)) == l.op
    ensures Control.OpLabels[Control.Opcode(Word(l))] == Ops[l.op]
    ensures Js.Rem(Word(l), 4096) == (if l.Operand? then l.value else 0)
  {
    OpsTable();
    Control.OpcodeOfWord(l.op, if l.Operand? then l.value else 0);
  }

  /** The operand is not masked: an operand of 4096 or more carries into
      the opcode field. By `RenderOperand`, `load 4096` classifies as
      `Operand(0, 4096)` and `store 0` as `Operand(1, 0)`: both assemble to
      the same word, which the machine runs as a `store`. */
  lemma OperandNotMasked(op: int, v: nat)
    requires 0 <= op < 5 && 4096 <= v < 8192
    ensures Word(Operand(op, v)) == Word(Operand(op + 1, v - 4096))
    ensures Control.Opcode(Word(Operand(op, v))) == op + 1
  {
    Control.OpcodeOfWord(op + 1, v - 4096);
  }
}
