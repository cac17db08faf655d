/** `text.replace(/^\s+$/gm, '')`, the clean-up `render` applies to the
    composed namespace.

    With the `m` flag `^` matches at the start of the text and after every
    line terminator, `$` at the end and before every line terminator. `\s+`
    is greedy and backtracks: at a line start it takes the longest run of
    whitespace (line terminators included) that ends at the end of the text
    or just before a line terminator. So a whitespace-only line is emptied,
    and a run of blank lines loses all but its last line break. The global
    search resumes after each match and never matches the empty text. */
module BlankLines {
  import opened Text

  /** A JavaScript line terminator. */
  predicate LineTerminator(c: char) {
    c == '\n' || c == '\r' || c == '\U{2028}' || c == '\U{2029}'
  }

  /** The characters `\s` matches: white space and line terminators. */
  predicate Blank(c: char) {
    c == '\t' || c == '\U{0b}' || c == '\U{0c}' || c == ' ' || c == '\U{a0}' || c == '\U{feff}' ||
    c == '\U{1680}' || ('\U{2000}' <= c <= '\U{200a}') || c == '\U{202f}' || c == '\U{205f}' ||
    c == '\U{3000}' || LineTerminator(c)
  }

  /** The length of the run of whitespace `s` starts with. */
  function LeadingBlanks(s: string): (w: nat)
    ensures w <= |s|
    ensures forall i :: 0 <= i < w ==> Blank(s[i])
    ensures w < |s| ==> !Blank(s[w])
  {
    if s == [] || !Blank(s[0]) then 0 else 1 + LeadingBlanks(s[1..])
  }

  /** The last position `j` with `1 <= j < k` holding a line terminator,
      or 0 when there is none. */
  function LastTerminatorBelow(s: string, k: nat): (j: nat)
    requires k <= |s|
    ensures j < k || j == 0
    ensures j > 0 ==> LineTerminator(s[j])
    ensures forall i :: j < i < k && i >= 1 ==> !LineTerminator(s[i])
  {
    if k < 2 then 0
    else if LineTerminator(s[k - 1]) then k - 1
    else LastTerminatorBelow(s, k - 1)
  }

  /** Where `$` may stand in `s`: at its end or before a line terminator. */
  predicate LineEndAt(s: string, j: nat)
    requires j <= |s|
  {
    j == |s| || LineTerminator(s[j])
  }

  /** The end of the match of `\s+$` at the start of `s`, or 0 when `\s+$`
      does not match there. */
  function MatchEnd(s: string): (j: nat)
    ensures j <= |s|
    ensures j > 0 ==> LineEndAt(s, j) && forall i :: 0 <= i < j ==> Blank(s[i])
    ensures forall k :: j < k <= |s| && LineEndAt(s, k) ==> exists i :: 0 <= i < k && !Blank(s[i])
  {
    var w := LeadingBlanks(s);
    if w == |s| then w
    else
      var j := LastTerminatorBelow(s, w);
      assert forall k :: j < k <= |s| && LineEndAt(s, k) ==> w < k && !Blank(s[w]);
      j
  }

  /** Whether `^` matches before position `i` of `s`; `start` says whether
      `s` itself begins a line. */
  predicate LineStartAt(s: string, i: nat, start: bool)
    requires i < |s|
  {
    if i == 0 then start else LineTerminator(s[i - 1])
  }

  /** The global replacement, scanning `s` from its front. */
  function ClearFrom(s: string, start: bool): (r: string)
    ensures |r| <= |s|
    decreases |s|
  {
    if s == [] then []
    else
      var j := if start then MatchEnd(s) else 0;
      if j > 0 then ClearFrom(s[j..], LineTerminator(s[j - 1]))
      else [s[0]] + ClearFrom(s[1..], LineTerminator(s[0]))
  }

  /** `s.replace(/^\s+$/gm, '')`. */
  function ClearBlankLines(s: string): string {
    ClearFrom(s, true)
  }

  /** The characters of `s` that are not whitespace, in order. */
  function NonBlank(s: string): string {
    Filter(s, (c: char) => !Blank(c))
  }

  lemma {:induction false} NonBlankAppend(a: string, b: string)
    ensures NonBlank(a + b) == NonBlank(a) + NonBlank(b)
  {
    if a != [] {
      assert (a + b)[0] == a[0];
      assert (a + b)[1..] == a[1..] + b;
      NonBlankAppend(a[1..], b);
    } else {
      assert a + b == b;
    }
  }

  lemma {:induction false} NonBlankOfBlanks(s: string)
    requires forall i :: 0 <= i < |s| ==> Blank(s[i])
    ensures NonBlank(s) == []
  {
    if s != [] {
      NonBlankOfBlanks(s[1..]);
    }
  }

  /** The replacement removes whitespace only: every other character is
      kept, in order. */
  lemma {:induction false} ClearKeepsNonBlank(s: string, start: bool)
    ensures NonBlank(ClearFrom(s, start)) == NonBlank(s)
    decreases |s|
  {
    if s != [] {
      var j := if start then MatchEnd(s) else 0;
      if j > 0 {
        ClearKeepsNonBlank(s[j..], LineTerminator(s[j - 1]));
        assert s == s[..j] + s[j..];
        NonBlankAppend(s[..j], s[j..]);
        NonBlankOfBlanks(s[..j]);
      } else {
        ClearKeepsNonBlank(s[1..], LineTerminator(s[0]));
        NonBlankAppend([s[0]], ClearFrom(s[1..], LineTerminator(s[0])));
        NonBlankAppend([s[0]], s[1..]);
        assert s == [s[0]] + s[1..];
      }
    }
  }

  lemma ClearBlankLinesKeepsNonBlank(s: string)
    ensures NonBlank(ClearBlankLines(s)) == NonBlank(s)
  {
    ClearKeepsNonBlank(s, true);
  }

  /** A line of `s` that is blank: `^\s+$` matches at position `i`. */
  predicate BlankLineAt(s: string, i: nat, start: bool)
    requires i < |s|
  {
    LineStartAt(s, i, start) && MatchEnd(s[i..]) > 0
  }

  /** Whether `s` has a blank line anywhere. */
  predicate HasBlankLine(s: string, start: bool) {
    exists i :: 0 <= i < |s| && BlankLineAt(s, i, start)
  }

  /** The text comes out unchanged exactly when it has no blank line. */
  lemma {:induction false} ClearUnchangedIff(s: string, start: bool)
    ensures ClearFrom(s, start) == s <==> !HasBlankLine(s, start)
    decreases |s|
  {
    if s != [] {
      var j := if start then MatchEnd(s) else 0;
      if j > 0 {
        assert s[0..] == s;
        assert BlankLineAt(s, 0, start);
        assert |ClearFrom(s, start)| <= |s[j..]| < |s|;
      } else {
        var t := s[1..];
        var st := LineTerminator(s[0]);
        ClearUnchangedIff(t, st);
        assert !BlankLineAt(s, 0, start) by {
          assert s[0..] == s;
        }
        HasBlankLineCons(s, start);
        assert ClearFrom(s, start) == [s[0]] + ClearFrom(t, st);
        assert s == [s[0]] + t;
        ConsInjective(s[0], ClearFrom(t, st), t);
      }
    }
  }

  lemma HasBlankLineCons(s: string, start: bool)
    requires s != [] && !BlankLineAt(s, 0, start)
    ensures HasBlankLine(s, start) <==> HasBlankLine(s[1..], LineTerminator(s[0]))
  {
    var t := s[1..];
    var st := LineTerminator(s[0]);
    if HasBlankLine(t, st) {
      var i :| 0 <= i < |t| && BlankLineAt(t, i, st);
      BlankLineShift(s, i + 1, start);
    }
    if HasBlankLine(s, start) {
      var i :| 0 <= i < |s| && BlankLineAt(s, i, start);
      BlankLineShift(s, i, start);
    }
  }

  lemma ConsInjective(c: char, x: string, y: string)
    ensures [c] + x == [c] + y <==> x == y
  {
    if [c] + x == [c] + y {
      assert x == ([c] + x)[1..];
    }
  }

  /** Dropping the first character shifts every later blank line by one. */
  lemma BlankLineShift(s: string, i: nat, start: bool)
    requires 1 <= i < |s|
    ensures BlankLineAt(s, i, start) <==> BlankLineAt(s[1..], i - 1, LineTerminator(s[0]))
  {
    assert s[i..] == s[1..][i - 1..];
    if i > 1 {
      assert s[i - 1] == s[1..][i - 2];
    }
  }

  lemma ClearBlankLinesUnchangedIff(s: string)
    ensures ClearBlankLines(s) == s <==> !HasBlankLine(s, true)
  {
    ClearUnchangedIff(s, true);
  }
}
