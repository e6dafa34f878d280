/** Lines of a text, and the tokens that Go's `bufio.Scanner` makes of them.

    A byte is represented by the character with the same code; every result holds
    for all character sequences and so for all byte sequences. */
module Lines {
  import opened Replacement

  type Bytes = seq<char>

  // bufio.MaxScanTokenSize: the buffer that has to hold a line and its '\n'.
  const MAX_SCAN_TOKEN_SIZE := 65536

  ghost predicate NoBreak(s: Bytes) {
    forall i :: 0 <= i < |s| ==> s[i] != '\n'
  }

  /** The length of the first line, its '\n' not counted. */
  function LineLength(s: Bytes): (n: nat)
    ensures n <= |s|
  {
    if s == [] || s[0] == '\n' then 0 else 1 + LineLength(s[1..])
  }

  function FirstLine(s: Bytes): Bytes {
    s[..LineLength(s)]
  }

  function AfterLine(s: Bytes): (t: Bytes)
    ensures s != [] ==> |t| < |s|
  {
    var n := LineLength(s);
    if n < |s| then s[n + 1..] else []
  }

  function DropCarriageReturn(line: Bytes): Bytes {
    if |line| > 0 && line[|line| - 1] == '\r' then line[..|line| - 1] else line
  }

  /** The scanner's buffer cannot hold the first line. A last line without an end
      may fill it, if the reader reports the end of the input together with its last
      bytes (`eof`). */
  predicate TooLong(s: Bytes, eof: bool) {
    LineLength(s) >= MAX_SCAN_TOKEN_SIZE && !(eof && |s| == MAX_SCAN_TOKEN_SIZE)
  }

  /** The tokens that the scanner yields with its default split function: it
      stops for good at the first line that its buffer cannot hold. */
  function ScannedLines(s: Bytes, eof: bool): seq<Bytes>
    decreases |s|
  {
    if s == [] || TooLong(s, eof) then []
    else [DropCarriageReturn(FirstLine(s))] + ScannedLines(AfterLine(s), eof)
  }

  /** What of the text the scanner comes to see. */
  function Scanned(s: Bytes, eof: bool): Bytes
    decreases |s|
  {
    if s == [] || TooLong(s, eof) then []
    else if LineLength(s) == |s| then s
    else Around(FirstLine(s), '\n', Scanned(AfterLine(s), eof))
  }

  /** Every line end taken out: each "\n", and each "\r" that a "\n" or the end of
      the text follows. */
  function StripLineEnds(s: Bytes): Bytes {
    if s == [] then []
    else
      var ends := s[0] == '\n' || (s[0] == '\r' && (|s| == 1 || s[1] == '\n'));
      (if ends then [] else [s[0]]) + StripLineEnds(s[1..])
  }

  /** A "\n" within the `m` characters from position `i`. */
  ghost predicate BreaksWithin(s: Bytes, i: nat, m: nat) {
    exists k :: i <= k < i + m && k < |s| && s[k] == '\n'
  }

  /** The last `m` characters from position `i` are a line of their own. */
  predicate IsLastLine(s: Bytes, i: nat, m: nat) {
    i + m == |s| && (i == 0 || s[i - 1] == '\n')
  }

  /** No stretch of the text as long as the scanner's buffer is without a "\n", but
      for a last line of that length whose end is seen at once. */
  ghost predicate LinesFit(s: Bytes, eof: bool) {
    forall i: nat :: i + MAX_SCAN_TOKEN_SIZE <= |s| ==>
      BreaksWithin(s, i, MAX_SCAN_TOKEN_SIZE) || (eof && IsLastLine(s, i, MAX_SCAN_TOKEN_SIZE))
  }

  // ---- The first line ----

  /** The first line and what follows it make up the text. */
  lemma {:induction false} LineParts(s: Bytes)
    ensures NoBreak(FirstLine(s))
    ensures s == if LineLength(s) < |s| then Around(FirstLine(s), '\n', AfterLine(s)) else FirstLine(s)
  {
    if s != [] && s[0] != '\n' {
      LineParts(s[1..]);
      LineStep(s);
      AroundPrepend([s[0]], FirstLine(s[1..]), '\n', AfterLine(s));
    }
  }

  lemma LineStep(s: Bytes)
    requires s != [] && s[0] != '\n'
    ensures FirstLine(s) == [s[0]] + FirstLine(s[1..])
    ensures AfterLine(s) == AfterLine(s[1..])
  {}

  /** They are the only parts of this form. */
  lemma {:induction false} LineOfParts(line: Bytes, rest: Bytes)
    requires NoBreak(line)
    ensures LineLength(Around(line, '\n', rest)) == |line|
    ensures FirstLine(Around(line, '\n', rest)) == line && AfterLine(Around(line, '\n', rest)) == rest
  {
    var s := Around(line, '\n', rest);
    if line != [] {
      LineOfParts(line[1..], rest);
      AroundTail(line, '\n', rest, 1);
    }
    AroundTail(line, '\n', rest, |line|);
    assert s[|line| + 1..] == rest;
  }

  lemma {:induction false} LineWithoutBreak(line: Bytes)
    requires NoBreak(line)
    ensures LineLength(line) == |line| && FirstLine(line) == line && AfterLine(line) == []
  {
    if line != [] {
      LineWithoutBreak(line[1..]);
    }
  }

  lemma FitByLine(s: Bytes, eof: bool)
    requires s != []
    ensures LinesFit(s, eof) <==> !TooLong(s, eof) && LinesFit(AfterLine(s), eof)
  {
    var n, m, t := LineLength(s), MAX_SCAN_TOKEN_SIZE, AfterLine(s);
    LineParts(s);
    if n >= m {
      forall k | 0 <= k < m ensures s[k] != '\n' {
        assert s[k] == FirstLine(s)[k];
      }
      assert !BreaksWithin(s, 0, m);
    } else if n < |s| {
      assert s[n] == '\n';
      forall i: nat | i + m <= |t| ensures BreaksWithin(t, i, m) <==> BreaksWithin(s, n + 1 + i, m) {
        BreaksShift(s, n + 1, i, m);
      }
      assert forall i: nat :: i + m <= |t| ==> (IsLastLine(t, i, m) <==> IsLastLine(s, n + 1 + i, m));
      if LinesFit(t, eof) {
        forall i: nat | i + m <= |s| ensures BreaksWithin(s, i, m) || (eof && IsLastLine(s, i, m)) {
          if i > n {
            assert BreaksWithin(t, i - n - 1, m) || (eof && IsLastLine(t, i - n - 1, m));
          }
        }
      }
    }
  }

  lemma BreaksShift(s: Bytes, d: nat, i: nat, m: nat)
    requires d <= |s|
    ensures BreaksWithin(s[d..], i, m) <==> BreaksWithin(s, d + i, m)
  {}

  // ---- Stripping a line ----

  lemma DropTail(line: Bytes)
    requires |line| > 0
    ensures DropCarriageReturn(line) ==
      (if |line| == 1 && line[0] == '\r' then [] else [line[0]]) + DropCarriageReturn(line[1..])
  {}

  lemma SecondOfBreak(line: Bytes, rest: Bytes)
    requires line != []
    ensures Around(line, '\n', rest)[1] == if |line| == 1 then '\n' else line[1]
  {}

  lemma {:induction false} StripLine(line: Bytes, rest: Bytes)
    requires NoBreak(line)
    ensures StripLineEnds(Around(line, '\n', rest)) == DropCarriageReturn(line) + StripLineEnds(rest)
  {
    var s := Around(line, '\n', rest);
    if line == [] {
      assert s[1..] == rest;
    } else {
      StripLine(line[1..], rest);
      AroundTail(line, '\n', rest, 1);
      SecondOfBreak(line, rest);
      DropTail(line);
      var kept := if |line| == 1 && line[0] == '\r' then [] else [line[0]];
      Associate(kept, DropCarriageReturn(line[1..]), StripLineEnds(rest));
    }
  }

  lemma {:induction false} StripLastLine(line: Bytes)
    requires NoBreak(line)
    ensures StripLineEnds(line) == DropCarriageReturn(line)
  {
    if line != [] {
      StripLastLine(line[1..]);
      DropTail(line);
    }
  }

  /** The line ends taken out of a text that goes on with something else than "\n". */
  function StripInner(s: Bytes): Bytes {
    if s == [] then []
    else
      var ends := s[0] == '\n' || (s[0] == '\r' && |s| > 1 && s[1] == '\n');
      (if ends then [] else [s[0]]) + StripInner(s[1..])
  }

  lemma {:induction false} StripInFront(a: Bytes, t: Bytes)
    requires t != [] && t[0] != '\n'
    ensures StripLineEnds(a + t) == StripInner(a) + StripLineEnds(t)
  {
    if a == [] {
      assert a + t == t;
    } else {
      var s := a + t;
      assert s[1..] == a[1..] + t;
      StripInFront(a[1..], t);
      assert s[1] == if |a| > 1 then a[1] else t[0];
      var kept := if a[0] == '\n' || (a[0] == '\r' && |a| > 1 && a[1] == '\n') then [] else [a[0]];
      Associate(kept, StripInner(a[1..]), StripLineEnds(t));
    }
  }

  lemma {:induction false} StripBehind(p: Bytes, t: Bytes)
    requires forall i :: 0 <= i < |p| ==> p[i] != '\n' && p[i] != '\r'
    ensures StripLineEnds(p + t) == p + StripLineEnds(t)
  {
    if p == [] {
      assert p + t == t;
    } else {
      assert (p + t)[1..] == p[1..] + t;
      StripBehind(p[1..], t);
      Associate([p[0]], p[1..], StripLineEnds(t));
      assert p == [p[0]] + p[1..];
    }
  }

  /** A stretch without line ends stays where it is. */
  lemma StripAround(a: Bytes, p: Bytes, t: Bytes)
    requires OneLine(p)
    ensures StripLineEnds(a + (p + t)) == StripInner(a) + (p + StripLineEnds(t))
  {
    StripInFront(a, p + t);
    StripBehind(p, t);
  }

  // ---- What the scanner sees ----

  lemma {:induction false} ScannedFits(s: Bytes, eof: bool)
    ensures LinesFit(Scanned(s, eof), eof)
    decreases |s|
  {
    var w := Scanned(s, eof);
    if s != [] && !TooLong(s, eof) {
      LineParts(s);
      if LineLength(s) < |s| {
        ScannedFits(AfterLine(s), eof);
        LineOfParts(FirstLine(s), Scanned(AfterLine(s), eof));
      }
      FitByLine(w, eof);
    }
  }

  /** It sees all of the text exactly if every line fits. */
  lemma {:induction false} ScannedExactly(s: Bytes, eof: bool)
    ensures Scanned(s, eof) == s <==> LinesFit(s, eof)
    decreases |s|
  {
    ScannedFits(s, eof);
    if s != [] {
      FitByLine(s, eof);
      LineParts(s);
      if !TooLong(s, eof) && LineLength(s) < |s| {
        ScannedExactly(AfterLine(s), eof);
      }
    }
  }

  // ---- Line ends, case by case ----

  predicate EndsInReturn(line: Bytes) {
    line != [] && line[|line| - 1] == '\r'
  }

  lemma DropExactly(line: Bytes)
    ensures DropCarriageReturn(line + "\r") == line
    ensures !EndsInReturn(line) ==> DropCarriageReturn(line) == line
  {
    assert (line + "\r")[..|line|] == line;
  }

  /** What is taken out: "\r\n", "\n", and "\r" at the end; and nothing else. */
  lemma StripsExactly(line: Bytes, rest: Bytes)
    requires NoBreak(line)
    ensures StripLineEnds(line + ("\r\n" + rest)) == line + StripLineEnds(rest)
    ensures !EndsInReturn(line) ==> StripLineEnds(line + ("\n" + rest)) == line + StripLineEnds(rest)
    ensures StripLineEnds(line + "\r") == line
    ensures !EndsInReturn(line) ==> StripLineEnds(line) == line
  {
    DropExactly(line);
    StripLine(line + "\r", rest);
    assert line + ("\r\n" + rest) == Around(line + "\r", '\n', rest);
    StripLine(line, rest);
    StripLastLine(line + "\r");
    StripLastLine(line);
  }

  /** The tokens of a text with a first line that ends, in "\r\n" or "\n". */
  lemma TokensExactly(line: Bytes, rest: Bytes, eof: bool)
    requires NoBreak(line)
    ensures ScannedLines(line + ("\n" + rest), eof) ==
      if |line| > 65535 then []
      else [if EndsInReturn(line) then line[..|line| - 1] else line] + ScannedLines(rest, eof)
  {
    LineOfParts(line, rest);
  }

  /** And of one that is all a single line without an end. */
  lemma LastTokenExactly(line: Bytes, eof: bool)
    requires NoBreak(line) && line != []
    ensures ScannedLines(line, eof) ==
      if |line| > 65536 || (|line| == 65536 && !eof) then []
      else [if EndsInReturn(line) then line[..|line| - 1] else line]
  {
    LineWithoutBreak(line);
    assert [DropCarriageReturn(line)] + [] == [DropCarriageReturn(line)];
  }

  // ---- Replacement of a pattern without line ends, line by line ----

  ghost predicate OneLine(p: Bytes) {
    |p| > 0 && forall i :: 0 <= i < |p| ==> p[i] != '\n' && p[i] != '\r'
  }

  /** Rewriting a line and dropping its carriage return commute. */
  lemma DropThenReplace(line: Bytes, p: Bytes, q: Bytes)
    requires OneLine(p) && OneLine(q)
    ensures ReplaceAll(DropCarriageReturn(line), p, q) == DropCarriageReturn(ReplaceAll(line, p, q))
  {
    var n := |line|;
    if n > 0 && line[n - 1] == '\r' {
      var front := line[..n - 1];
      assert line == Around(front, '\r', []);
      ReplaceAround(front, '\r', [], p, q);
      assert Around(ReplaceAll(front, p, q), '\r', []) == ReplaceAll(front, p, q) + ['\r'];
    } else {
      ReplaceForeign(line, '\r', p, q);
    }
  }

  /** The replaced text without line ends starts with its first line, replaced
      on its own and without its carriage return. */
  lemma StripReplacedByLine(s: Bytes, p: Bytes, q: Bytes)
    requires OneLine(p) && OneLine(q) && s != []
    ensures StripLineEnds(ReplaceAll(s, p, q)) ==
      ReplaceAll(DropCarriageReturn(FirstLine(s)), p, q) + StripLineEnds(ReplaceAll(AfterLine(s), p, q))
  {
    var line := FirstLine(s);
    LineParts(s);
    DropThenReplace(line, p, q);
    ReplaceForeign(line, '\n', p, q);
    if LineLength(s) < |s| {
      ReplaceAround(line, '\n', AfterLine(s), p, q);
      StripLine(ReplaceAll(line, p, q), ReplaceAll(AfterLine(s), p, q));
    } else {
      StripLastLine(ReplaceAll(line, p, q));
    }
  }
}
