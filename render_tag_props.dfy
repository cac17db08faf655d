/** Properties of the template composer: re-indentation, column measurement,
    the marker, the final trim, and when composition is plain concatenation. */
module RenderTagProps {
  import opened Text
  import opened RenderTag

  /** What a default (untagged) template literal produces: literals and
      values concatenated in order, the marker contributing nothing. */
  function SlotText(slot: Slot): string {
    match slot
    case Val(v) => v
    case OmitNextNewline => ""
  }

  function Interleave(lits: seq<string>, slots: seq<Slot>, k: nat): string
    requires WellFormed(lits, slots) && k <= |slots|
  {
    if k == 0 then lits[0]
    else Interleave(lits, slots, k - 1) + SlotText(slots[k - 1]) + lits[k]
  }

  predicate NoMarker(slots: seq<Slot>) {
    forall k :: 0 <= k < |slots| ==> slots[k].Val?
  }

  // ---------------------------------------------------------------------
  // Re-indentation of substituted values

  /** A value without newlines is substituted unchanged. */
  lemma {:induction false} ReindentSingleLine(v: string, pad: string)
    requires SingleLine(v)
    ensures Reindent(v, pad) == v
  {
    if v != [] {
      assert v[0] != '\n';
      ReindentSingleLine(v[1..], pad);
      assert v == [v[0]] + v[1..];
    }
  }

  /** At column zero the padding is empty and a value is substituted unchanged. */
  lemma {:induction false} ReindentNoPad(v: string)
    ensures Reindent(v, "") == v
  {
    if v != [] {
      ReindentNoPad(v[1..]);
      assert v == [v[0]] + v[1..];
    }
  }

  /** Re-indentation works line by line: the first line of the value is kept,
      every later line gets the padding in front. */
  lemma {:induction false} ReindentLines(v: string, pad: string)
    requires SingleLine(pad)
    ensures Lines(Reindent(v, pad)) == [Lines(v)[0]] + PrefixEach(pad, Lines(v)[1..])
  {
    if v == [] {
      assert Lines(v) == [""];
    } else {
      var rest := Reindent(v[1..], pad);
      ReindentLines(v[1..], pad);
      var lv := Lines(v[1..]);
      if v[0] == '\n' {
        assert Reindent(v, pad) == "\n" + (pad + rest);
        LinesNewline(pad + rest);
        LinesPrefix(pad, rest);
        assert Lines(v) == [""] + lv;
        assert Lines(rest) == [lv[0]] + PrefixEach(pad, lv[1..]);
        assert PrefixEach(pad, lv) == [pad + lv[0]] + PrefixEach(pad, lv[1..]);
        assert Lines(v)[1..] == lv;
      } else {
        assert Reindent(v, pad) == [v[0]] + rest;
        assert SingleLine([v[0]]);
        LinesPrefix([v[0]], rest);
        LinesPrefix([v[0]], v[1..]);
        assert v == [v[0]] + v[1..];
        assert Lines(v) == [[v[0]] + lv[0]] + lv[1..];
      }
    }
  }

  // ---------------------------------------------------------------------
  // Column measurement

  /** The contract of `Indent` determines it. */
  lemma IndentIs(s: string, c: nat)
    requires c <= |s|
    requires forall j :: |s| - c <= j < |s| ==> s[j] != '\n'
    requires c < |s| ==> s[|s| - c - 1] == '\n'
    ensures Indent(s) == c
  {
    LastNewlineSpec(s);
  }

  /** Appending text without a newline moves the column by its length. */
  lemma IndentAppend(a: string, b: string)
    requires SingleLine(b)
    ensures Indent(a + b) == Indent(a) + |b|
  {
    var s := a + b;
    var c := Indent(a) + |b|;
    IndentSpec(a);
    forall j | |s| - c <= j < |s|
      ensures s[j] != '\n'
    {
      if j < |a| {
        assert s[j] == a[j];
      } else {
        assert s[j] == b[j - |a|];
      }
    }
    if c < |s| {
      assert s[|s| - c - 1] == a[|a| - Indent(a) - 1];
    }
    IndentIs(s, c);
  }

  /** After a newline the column is the length of what follows it. */
  lemma IndentAfterNewline(a: string, b: string)
    requires SingleLine(b)
    ensures Indent(a + "\n" + b) == |b|
  {
    IndentIs(a + "\n", 0);
    IndentAppend(a + "\n", b);
  }

  // ---------------------------------------------------------------------
  // The marker

  /** A marker drops a leading run of spaces and the newline after it. */
  lemma MarkerDropsBlankLine(acc: string, k: nat, rest: string)
    ensures Step(acc, OmitNextNewline, Blanks(k) + "\n" + rest) == acc + rest
  {
    var lit := Blanks(k) + "\n" + rest;
    LeadingSpacesSpec(lit);
    assert lit[k] == '\n';
    assert forall j :: 0 <= j < k ==> lit[j] == ' ';
    assert LeadingSpaces(lit) == k;
    assert StripBlankLine(lit) == lit[k + 1..] == rest;
  }

  /** A marker leaves a literal that does not start with `^ *\n` unchanged. */
  lemma MarkerKeepsLiteral(acc: string, lit: string)
    requires !StartsWithBlankLine(lit)
    ensures Step(acc, OmitNextNewline, lit) == acc + lit
  {
    StripBlankLineSpec(lit);
  }

  /** Whatever follows the first newline of the literal is kept untouched. */
  lemma MarkerKeepsAfterFirstNewline(acc: string, lit: string)
    ensures EndsWith(Step(acc, OmitNextNewline, lit), lit[|lit| - |StripBlankLine(lit)|..])
    ensures StartsWithBlankLine(lit) ==>
      |StripBlankLine(lit)| < |lit| && SingleLine(lit[..|lit| - |StripBlankLine(lit)| - 1])
  {
    var r := StripBlankLine(lit);
    StripBlankLineSpec(lit);
    var s := Step(acc, OmitNextNewline, lit);
    assert s == acc + r;
    assert s[|s| - |r|..] == r;
    if StartsWithBlankLine(lit) {
      var head := lit[..|lit| - |r| - 1];
      forall j | 0 <= j < |head|
        ensures head[j] != '\n'
      {
        assert head[j] == lit[j] == ' ';
      }
    }
  }

  // ---------------------------------------------------------------------
  // The final trim

  /** One newline comes off each end, and no more. */
  lemma TrimWrapped(m: string)
    ensures Trim("\n" + m + "\n") == m
  {
    var s := "\n" + m + "\n";
    assert s[1..] == m + "\n";
    assert (m + "\n")[..|m|] == m;
  }

  lemma TrimLeadingOnly(m: string)
    requires !(|m| > 0 && m[|m| - 1] == '\n')
    ensures Trim("\n" + m) == m
  {
    assert ("\n" + m)[1..] == m;
  }

  lemma TrimTrailingOnly(m: string)
    requires !(|m| > 0 && m[0] == '\n')
    ensures Trim(m + "\n") == m
  {
    assert (m + "\n")[..|m|] == m;
    if |m| == 0 {
      assert m + "\n" == "\n";
    } else {
      assert (m + "\n")[0] == m[0];
    }
  }

  lemma TrimUntouched(s: string)
    requires !(|s| > 0 && s[0] == '\n') && !(|s| > 0 && s[|s| - 1] == '\n')
    ensures Trim(s) == s
  {
  }

  // ---------------------------------------------------------------------
  // Composition

  /** A value substituted at the start of a line is appended unchanged. */
  lemma StepAtLineStart(acc: string, v: string, lit: string)
    requires |acc| > 0 && acc[|acc| - 1] == '\n'
    ensures Step(acc, Val(v), lit) == acc + v + lit
  {
    IndentIs(acc, 0);
    assert Pad(0) == "";
    ReindentNoPad(v);
  }

  /** A single-line value is appended unchanged wherever it stands. */
  lemma StepSingleLine(acc: string, v: string, lit: string)
    requires SingleLine(v)
    ensures Step(acc, Val(v), lit) == acc + v + lit
  {
    ReindentSingleLine(v, Pad(Indent(acc)));
  }

  /** With no marker and no multi-line value, composing is concatenating. */
  lemma {:induction false} PlainComposition(lits: seq<string>, slots: seq<Slot>, k: nat)
    requires WellFormed(lits, slots) && k <= |slots|
    requires NoMarker(slots)
    requires forall i :: 0 <= i < |slots| ==> SingleLine(slots[i].text)
    ensures Accumulate(lits, slots, k) == Interleave(lits, slots, k)
  {
    if k > 0 {
      PlainComposition(lits, slots, k - 1);
      StepSingleLine(Accumulate(lits, slots, k - 1), slots[k - 1].text, lits[k]);
    }
  }

  /** `source` on such a template is the untagged template, trimmed. */
  lemma PlainSource(lits: seq<string>, slots: seq<Slot>)
    requires WellFormed(lits, slots)
    requires NoMarker(slots)
    requires forall i :: 0 <= i < |slots| ==> SingleLine(slots[i].text)
    ensures Source(lits, slots) == Trim(Interleave(lits, slots, |slots|))
  {
    PlainComposition(lits, slots, |slots|);
  }

  predicate EndsWithNewline(s: string) {
    |s| > 0 && s[|s| - 1] == '\n'
  }

  /** The untagged template ends with its last literal. */
  lemma InterleaveEnds(lits: seq<string>, slots: seq<Slot>, k: nat)
    requires WellFormed(lits, slots) && k <= |slots|
    ensures EndsWith(Interleave(lits, slots, k), lits[k])
  {
  }

  /** When every slot starts a line, values are inserted unchanged, whatever
      newlines they hold. */
  lemma {:induction false} LineStartComposition(lits: seq<string>, slots: seq<Slot>, k: nat)
    requires WellFormed(lits, slots) && k <= |slots|
    requires NoMarker(slots)
    requires forall i :: 0 <= i < |slots| ==> EndsWithNewline(lits[i])
    ensures Accumulate(lits, slots, k) == Interleave(lits, slots, k)
  {
    if k > 0 {
      LineStartComposition(lits, slots, k - 1);
      var acc := Accumulate(lits, slots, k - 1);
      InterleaveEnds(lits, slots, k - 1);
      assert EndsWithNewline(lits[k - 1]);
      assert acc[|acc| - 1] == lits[k - 1][|lits[k - 1]| - 1];
      StepAtLineStart(acc, slots[k - 1].text, lits[k]);
      assert Accumulate(lits, slots, k) == Step(acc, slots[k - 1], lits[k]);
    }
  }

  /** One step only appends to the text. */
  lemma StepExtends(acc: string, slot: Slot, lit: string)
    ensures StartsWith(Step(acc, slot, lit), acc)
  {
    match slot
    case OmitNextNewline =>
      assert (acc + StripBlankLine(lit))[..|acc|] == acc;
    case Val(v) =>
      assert (acc + Reindent(v, Pad(Indent(acc))) + lit)[..|acc|] == acc;
  }

  /** The composer only appends: earlier text is never rewritten. */
  lemma {:induction false} AccumulateGrows(lits: seq<string>, slots: seq<Slot>, j: nat, k: nat)
    requires WellFormed(lits, slots) && j <= k <= |slots|
    ensures StartsWith(Accumulate(lits, slots, k), Accumulate(lits, slots, j))
    decreases k, 1
  {
    if j == k {
      PrefixRefl(Accumulate(lits, slots, j));
    } else {
      AccumulateGrowsStep(lits, slots, j, k - 1);
    }
  }

  lemma {:induction false} AccumulateGrowsStep(lits: seq<string>, slots: seq<Slot>, j: nat, m: nat)
    requires WellFormed(lits, slots) && j <= m < |slots|
    ensures forall n: nat :: n == m + 1 ==> StartsWith(Accumulate(lits, slots, n), Accumulate(lits, slots, j))
    decreases m + 1, 0
  {
    AccumulateGrows(lits, slots, j, m);
    AccumulateStepExtends(lits, slots, m + 1);
    PrefixTransitive(Accumulate(lits, slots, j), Accumulate(lits, slots, m), Accumulate(lits, slots, m + 1));
  }

  lemma AccumulateStepExtends(lits: seq<string>, slots: seq<Slot>, k: nat)
    requires WellFormed(lits, slots) && 0 < k <= |slots|
    ensures StartsWith(Accumulate(lits, slots, k), Accumulate(lits, slots, k - 1))
  {
    StepExtends(Accumulate(lits, slots, k - 1), slots[k - 1], lits[k]);
  }

  /** The composed text begins with the first character of the first
      literal. */
  lemma AccumulateFirst(lits: seq<string>, slots: seq<Slot>, k: nat)
    requires WellFormed(lits, slots) && k <= |slots| && |lits[0]| > 0
    ensures |Accumulate(lits, slots, k)| > 0 && Accumulate(lits, slots, k)[0] == lits[0][0]
  {
    AccumulateGrows(lits, slots, 0, k);
  }

  lemma PrefixRefl(a: string)
    ensures StartsWith(a, a)
  {
    assert a[..|a|] == a;
  }


  lemma PrefixTransitive(a: string, b: string, c: string)
    requires StartsWith(b, a) && StartsWith(c, b)
    ensures StartsWith(c, a)
  {
    assert c[..|a|] == c[..|b|][..|a|];
  }

  /** A literal that follows a value ends the text accumulated so far. */
  lemma LiteralAfterValueIsKept(lits: seq<string>, slots: seq<Slot>, k: nat)
    requires WellFormed(lits, slots) && 0 < k <= |slots|
    requires slots[k - 1].Val?
    ensures EndsWith(Accumulate(lits, slots, k), lits[k])
  {
  }

  // ---------------------------------------------------------------------
  // The documented behaviour, for all inputs of the documented shape

  /** The padding for a column within the fixed run is that many spaces. */
  lemma PadIsBlanks(n: nat)
    requires n <= SpacesWidth
    ensures Pad(n) == Blanks(n)
  {
  }

  /** A template with one substitution composes in a single step. */
  lemma SourceOfOneSlot(l0: string, slot: Slot, l1: string)
    ensures Source([l0, l1], [slot]) == Trim(Step(l0, slot, l1))
  {
    var lits, slots := [l0, l1], [slot];
    assert Accumulate(lits, slots, 0) == l0;
    assert Accumulate(lits, slots, 1) == Step(l0, slot, l1);
  }

  /** `abc\n   ${'multiline\nsubstitution'}`: the second line of the value is
      indented like the first. */
  lemma IndentsMultilineValue(head: string, n: nat, l1: string, l2: string)
    requires SingleLine(head) && SingleLine(l1) && SingleLine(l2)
    requires |head| > 0 && |l2| > 0 && n <= SpacesWidth
    ensures Source([head + "\n" + Blanks(n), ""], [Val(l1 + "\n" + l2)])
         == (head + "\n" + Blanks(n)) + (l1 + "\n" + Blanks(n) + l2)
  {
    var acc, v, p := head + "\n" + Blanks(n), l1 + "\n" + l2, Blanks(n);
    SourceOfOneSlot(acc, Val(v), "");
    IndentAfterNewline(head, p);
    PadIsBlanks(n);
    ReindentLine(l1, l2, p);
    assert Indent(acc) == n;
    assert Pad(Indent(acc)) == p;
    var body := l1 + "\n" + p + l2;
    assert Reindent(v, Pad(Indent(acc))) == body;
    var out := acc + body;
    assert Step(acc, Val(v), "") == out + "";
    assert out + "" == out;
    assert out[0] == head[0];
    assert out[|out| - 1] == l2[|l2| - 1];
    TrimUntouched(out);
  }

  /** Two lines joined by a newline are re-indented at the newline only. */
  lemma ReindentLine(l1: string, l2: string, p: string)
    requires SingleLine(l1) && SingleLine(l2)
    ensures Reindent(l1 + "\n" + l2, p) == l1 + "\n" + p + l2
  {
    var v := l1 + "\n" + l2;
    ReindentAppendAt(v, p, |l1|);
    assert v[..|l1|] == l1 && v[|l1|..] == "\n" + l2;
    ReindentSingleLine(l1, p);
    ReindentSingleLine(l2, p);
    assert ("\n" + l2)[1..] == l2;
  }

  /** `abc${OMIT_NEXT_NEWLINE}   \nabc`: the marker swallows the spaces and the
      newline. */
  lemma MarkerOmitsBlankLine(a: string, k: nat, b: string)
    requires |a| > 0 && a[0] != '\n' && |b| > 0 && b[|b| - 1] != '\n'
    ensures Source([a, Blanks(k) + "\n" + b], [OmitNextNewline]) == a + b
  {
    SourceOfOneSlot(a, OmitNextNewline, Blanks(k) + "\n" + b);
    MarkerDropsBlankLine(a, k, b);
    TrimUntouched(a + b);
  }

  /** Re-indentation distributes over a split of the value. */
  lemma {:induction false} ReindentAppendAt(v: string, pad: string, n: nat)
    requires n <= |v|
    ensures Reindent(v, pad) == Reindent(v[..n], pad) + Reindent(v[n..], pad)
  {
    if n > 0 {
      ReindentAppendAt(v[1..], pad, n - 1);
      assert v[1..][..n - 1] == v[..n][1..];
      assert v[1..][n - 1..] == v[n..];
    }
  }
}
