/** The two template shapes every declaration of the renderer is built from.

    A declaration opens with its description on a line of its own:
    `source\`\n${comment}\n…\``. The description slot holds either a doc
    comment or the marker, and the rest of the template composes the same
    either way; the comment only puts its own lines in front.

    A member list substituted after four spaces of indentation is
    re-indented, so every line of it starts with those four spaces. */
module TemplateShapes {
  import opened Text
  import opened RenderTag
  import opened RenderTagProps

  /** What a description slot puts in front of a declaration: nothing for
      the marker, the comment and a line break otherwise. */
  function CommentPrefix(c: Slot): string {
    match c
    case OmitNextNewline => ""
    case Val(t) => t + "\n"
  }

  /** The text the description slot leaves before the second literal. */
  function CommentHead(c: Slot): string {
    match c
    case OmitNextNewline => ""
    case Val(t) => "\n" + t
  }

  /** A template whose first literal is a bare line break and whose second
      literal starts a new line: the description line of a declaration. */
  predicate Commented(lits: seq<string>, slots: seq<Slot>) {
    WellFormed(lits, slots) && |slots| >= 1 && lits[0] == "\n" &&
    |lits[1]| > 0 && lits[1][0] == '\n'
  }

  /** Text in front of a line break does not move the column. */
  lemma IndentIgnoresPrefix(h: string, a: string)
    requires '\n' in a
    ensures Indent(h + a) == Indent(a)
  {
    var c := Indent(a);
    IndentSpec(a);
    var j :| 0 <= j < |a| && a[j] == '\n';
    assert j < |a| - c;
    var s := h + a;
    forall i | |s| - c <= i < |s|
      ensures s[i] != '\n'
    {
      assert s[i] == a[i - |h|];
    }
    assert s[|s| - c - 1] == a[|a| - c - 1];
    IndentIs(s, c);
  }

  /** So one step composes the same behind such a prefix. */
  lemma StepIgnoresPrefix(h: string, a: string, slot: Slot, lit: string)
    requires '\n' in a
    ensures Step(h + a, slot, lit) == h + Step(a, slot, lit)
  {
    match slot
    case OmitNextNewline =>
      Regroup3(h, a, StripBlankLine(lit));
    case Val(v) =>
      IndentIgnoresPrefix(h, a);
      Regroup(h, a, Reindent(v, Pad(Indent(a))), lit);
  }

  /** `t` is `s` without its first element, stated index by index so that
      facts flow from the tail to the whole and not back. */
  predicate Shifted<T(==)>(s: seq<T>, t: seq<T>) {
    |t| + 1 == |s| && forall i :: 0 <= i < |t| ==> t[i] == s[i + 1]
  }

  /** A description slot in front of two or five further slots. */
  lemma PrependSlot2(c: Slot, a: Slot, b: Slot)
    ensures [c] + [a, b] == [c, a, b]
  {
  }

  lemma PrependSlot5(c: Slot, a: Slot, b: Slot, d: Slot, e: Slot, f: Slot)
    ensures [c] + [a, b, d, e, f] == [c, a, b, d, e, f]
  {
  }

  lemma ConsShifted<T>(x: T, s: seq<T>)
    ensures Shifted([x] + s, s)
  { }

  /** After the description slot, a commented template runs as the template
      without its first literal and slot, behind the comment. */
  lemma {:induction false} CommentShift(lits: seq<string>, slots: seq<Slot>,
                                        tl: seq<string>, ts: seq<Slot>, k: nat)
    requires Commented(lits, slots) && Shifted(lits, tl) && Shifted(slots, ts)
    requires 0 < k <= |slots|
    ensures Accumulate(lits, slots, k) == CommentHead(slots[0]) + Accumulate(tl, ts, k - 1)
  {
    if k == 1 {
      CommentShiftFirst(lits, slots, tl, ts);
    } else {
      CommentShift(lits, slots, tl, ts, k - 1);
      CommentShiftStep(lits, slots, tl, ts, k);
    }
  }

  /** One more slot keeps the rest of the template behind the comment. */
  lemma CommentShiftStep(lits: seq<string>, slots: seq<Slot>,
                         tl: seq<string>, ts: seq<Slot>, k: nat)
    requires Commented(lits, slots) && Shifted(lits, tl) && Shifted(slots, ts)
    requires 1 < k <= |slots|
    requires Accumulate(lits, slots, k - 1) == CommentHead(slots[0]) + Accumulate(tl, ts, k - 1 - 1)
    ensures Accumulate(lits, slots, k) == CommentHead(slots[0]) + Accumulate(tl, ts, k - 1)
  {
    var h := CommentHead(slots[0]);
    var a := Accumulate(tl, ts, k - 1 - 1);
    var slot, lit := slots[k - 1], lits[k];
    assert |a| > 0 && a[0] == '\n' by { TailStartsLine(lits, slots, tl, ts, k - 1 - 1); }
    assert Accumulate(tl, ts, k - 1) == Step(a, slot, lit) by { TailStep(lits, slots, tl, ts, k); }
    ShiftedStep(Accumulate(lits, slots, k - 1), h, a, slot, lit, Accumulate(tl, ts, k - 1));
  }

  lemma ShiftedStep(p: string, h: string, a: string, slot: Slot, lit: string, q: string)
    requires p == h + a && |a| > 0 && a[0] == '\n' && q == Step(a, slot, lit)
    ensures Step(p, slot, lit) == h + q
  {
    assert '\n' in a by { assert a[0] == '\n'; }
    StepIgnoresPrefix(h, a, slot, lit);
  }

  /** The description slot itself leaves its head in front of the second
      literal. */
  lemma CommentShiftFirst(lits: seq<string>, slots: seq<Slot>, tl: seq<string>, ts: seq<Slot>)
    requires Commented(lits, slots) && Shifted(lits, tl) && Shifted(slots, ts)
    ensures Accumulate(lits, slots, 1) == CommentHead(slots[0]) + Accumulate(tl, ts, 0)
  {
    assert Accumulate(lits, slots, 1) == Step(lits[0], slots[0], lits[1]);
    assert Accumulate(tl, ts, 0) == lits[1] by { assert tl[0] == lits[1]; }
    DescriptionStep(slots[0], lits[1]);
  }

  /** The step for the description slot, after the leading line break. */
  lemma DescriptionStep(c: Slot, lit: string)
    requires |lit| > 0 && lit[0] == '\n'
    ensures Step("\n", c, lit) == CommentHead(c) + lit
  {
    match c
    case OmitNextNewline =>
      assert LeadingSpaces(lit) == 0;
      assert StripBlankLine(lit) == lit[1..];
      assert "\n" + lit[1..] == lit;
    case Val(t) =>
      IndentIs("\n", 0);
      assert Pad(0) == "";
      ReindentNoPad(t);
  }

  /** The rest of a commented template starts with a line break. */
  lemma TailStartsLine(lits: seq<string>, slots: seq<Slot>, tl: seq<string>, ts: seq<Slot>, k: nat)
    requires Commented(lits, slots) && Shifted(lits, tl) && Shifted(slots, ts)
    requires k < |slots|
    ensures |Accumulate(tl, ts, k)| > 0 && Accumulate(tl, ts, k)[0] == '\n'
  {
    assert tl[0] == lits[1];
    AccumulateFirst(tl, ts, k);
  }

  /** One step of the rest of a commented template, in the indices of the
      whole template. */
  lemma TailStep(lits: seq<string>, slots: seq<Slot>, tl: seq<string>, ts: seq<Slot>, k: nat)
    requires Commented(lits, slots) && Shifted(lits, tl) && Shifted(slots, ts)
    requires 1 < k <= |slots|
    ensures Accumulate(tl, ts, k - 1) == Step(Accumulate(tl, ts, k - 1 - 1), slots[k - 1], lits[k])
  {
    assert ts[k - 1 - 1] == slots[k - 1] && tl[k - 1] == lits[k];
  }

  /** The final trim takes the leading line break off the comment instead
      of off the declaration. */
  lemma TrimBehindComment(t: string, a: string)
    requires |a| > 0
    ensures Trim("\n" + t + "\n" + a) == t + "\n" + Trim("\n" + a)
  {
    var s := "\n" + t + "\n" + a;
    assert s[1..] == t + "\n" + a;
    assert ("\n" + a)[1..] == a;
    var u := t + "\n" + a;
    assert u[|u| - 1] == a[|a| - 1];
    if a[|a| - 1] == '\n' {
      assert u[..|u| - 1] == t + "\n" + a[..|a| - 1];
    }
  }

  /** A declaration with a description is the comment, a line break and the
      declaration as it renders without one, the template `tl`, `ts` that
      lacks the first literal and the description slot. */
  lemma CommentedSource(lits: seq<string>, slots: seq<Slot>, tl: seq<string>, ts: seq<Slot>)
    requires Commented(lits, slots) && Shifted(lits, tl) && Shifted(slots, ts)
    requires |Accumulate(tl, ts, |ts|)| >= 2
    ensures Source(lits, slots) == CommentPrefix(slots[0]) + Source(tl, ts)
  {
    CommentShift(lits, slots, tl, ts, |slots|);
    TailStartsLine(lits, slots, tl, ts, |ts|);
    TrimCommentHead(slots[0], Accumulate(tl, ts, |ts|));
  }

  lemma TrimCommentHead(c: Slot, a: string)
    requires |a| >= 2 && a[0] == '\n'
    ensures Trim(CommentHead(c) + a) == CommentPrefix(c) + Trim(a)
  {
    assert a == "\n" + a[1..];
    match c
    case OmitNextNewline =>
      assert CommentHead(c) + a == a;
    case Val(t) =>
      assert CommentHead(c) + a == "\n" + t + "\n" + a[1..];
      TrimBehindComment(t, a[1..]);
  }

  /** Every line of `v` with `p` in front. */
  function Block(p: string, v: string): string {
    Join(PrefixEach(p, Lines(v)), "\n")
  }

  /** A value substituted after the padding `p` at the start of a line is
      indented by `p` on every one of its lines. */
  lemma IndentedValue(p: string, v: string)
    requires SingleLine(p)
    ensures p + Reindent(v, p) == Block(p, v)
  {
    var ls := Lines(v);
    var tail := PrefixEach(p, ls[1..]);
    ReindentLines(v, p);
    JoinOfLines(Reindent(v, p));
    JoinPrefixFirst(p, [ls[0]] + tail);
    assert ([ls[0]] + tail)[1..] == tail;
    assert PrefixEach(p, ls) == [p + ls[0]] + tail;
  }

  /** Four spaces, the indentation of a member inside braces. */
  const Indent4 := "    "

  /** A value substituted after a line break and four spaces. */
  lemma IndentedAfterBrace(a: string, v: string)
    ensures Indent(a + "\n" + Indent4) == 4
    ensures Pad(Indent(a + "\n" + Indent4)) == Indent4
    ensures Indent4 + Reindent(v, Indent4) == Block(Indent4, v)
  {
    IndentAfterNewline(a, Indent4);
    PadIsBlanks(4);
    assert Blanks(4) == Indent4;
    IndentedValue(Indent4, v);
  }

  /** Two substitutions compose in two steps. */
  lemma AccumulateTwo(lits: seq<string>, slots: seq<Slot>)
    requires |lits| == 3 && |slots| == 2
    ensures Accumulate(lits, slots, 2) ==
      Step(Step(lits[0], slots[0], lits[1]), slots[1], lits[2])
  {
    assert Accumulate(lits, slots, 1) == Step(lits[0], slots[0], lits[1]);
  }

  /** Five substitutions compose in five steps. */
  lemma AccumulateFive(lits: seq<string>, slots: seq<Slot>)
    requires |lits| == 6 && |slots| == 5
    ensures Accumulate(lits, slots, 5) ==
      Step(Step(Step(Step(Step(lits[0], slots[0], lits[1]), slots[1], lits[2]),
        slots[2], lits[3]), slots[3], lits[4]), slots[4], lits[5])
  {
    assert Accumulate(lits, slots, 1) == Step(lits[0], slots[0], lits[1]);
    assert Accumulate(lits, slots, 2) == Step(Accumulate(lits, slots, 1), slots[1], lits[2]);
    assert Accumulate(lits, slots, 3) == Step(Accumulate(lits, slots, 2), slots[2], lits[3]);
    assert Accumulate(lits, slots, 4) == Step(Accumulate(lits, slots, 3), slots[3], lits[4]);
  }

  /** A commented template whose remainder composes to `\n m \n` renders
      as `m` behind the comment. */
  lemma CommentedWrapped(lits: seq<string>, slots: seq<Slot>, tl: seq<string>, ts: seq<Slot>, m: string)
    requires Commented(lits, slots) && Shifted(lits, tl) && Shifted(slots, ts)
    requires Accumulate(tl, ts, |ts|) == "\n" + m + "\n"
    ensures Source(lits, slots) == CommentPrefix(slots[0]) + m
  {
    CommentedSource(lits, slots, tl, ts);
    TrimWrapped(m);
  }

  /** The same for a remainder `\n m` that does not end in a line break. */
  lemma CommentedOpen(lits: seq<string>, slots: seq<Slot>, tl: seq<string>, ts: seq<Slot>, m: string)
    requires Commented(lits, slots) && Shifted(lits, tl) && Shifted(slots, ts)
    requires Accumulate(tl, ts, |ts|) == "\n" + m
    requires |m| > 0 && m[|m| - 1] != '\n'
    ensures Source(lits, slots) == CommentPrefix(slots[0]) + m
  {
    CommentedSource(lits, slots, tl, ts);
    TrimLeadingOnly(m);
  }

  /** The same for a template written as its description line `\n${c}`
      followed by the literals `tl` and slots `ts`. */
  lemma CommentedTemplate(c: Slot, tl: seq<string>, ts: seq<Slot>, m: string)
    requires |tl| == |ts| + 1 && |tl[0]| > 0 && tl[0][0] == '\n'
    requires Accumulate(tl, ts, |ts|) == "\n" + m + "\n"
    ensures Source(["\n"] + tl, [c] + ts) == CommentPrefix(c) + m
  {
    ConsShifted("\n", tl);
    ConsShifted(c, ts);
    CommentedWrapped(["\n"] + tl, [c] + ts, tl, ts, m);
  }

  /** The same with a remainder `\n m` that does not end in a line break. */
  lemma CommentedOpenTemplate(c: Slot, tl: seq<string>, ts: seq<Slot>, m: string)
    requires |tl| == |ts| + 1 && |tl[0]| > 0 && tl[0][0] == '\n'
    requires Accumulate(tl, ts, |ts|) == "\n" + m
    requires |m| > 0 && m[|m| - 1] != '\n'
    ensures Source(["\n"] + tl, [c] + ts) == CommentPrefix(c) + m
  {
    ConsShifted("\n", tl);
    ConsShifted(c, ts);
    CommentedOpen(["\n"] + tl, [c] + ts, tl, ts, m);
  }

  /** `source\`\n${v}l1\`` where `p` and `v` are one line and `l1` does
      not end in a line break: the leading line break comes off. */
  lemma OpenTemplate(p: string, v: string, l1: string)
    requires SingleLine(v)
    requires |l1| > 0 && l1[|l1| - 1] != '\n'
    ensures Source(["\n" + p, l1], [Val(v)]) == p + v + l1
  {
    SourceOfOneSlot("\n" + p, Val(v), l1);
    StepSingleLine("\n" + p, v, l1);
    Regroup("\n", p, v, l1);
    LastOfAppend(p + v, l1);
    TrimLeadingOnly(p + v + l1);
  }

  /** The same with a value at the start of a line, of any number of lines. */
  lemma LineStartOpenTemplate(p: string, v: string, l1: string)
    requires |p| > 0 && p[|p| - 1] == '\n'
    requires |l1| > 0 && l1[|l1| - 1] != '\n'
    ensures Source(["\n" + p, l1], [Val(v)]) == p + v + l1
  {
    SourceOfOneSlot("\n" + p, Val(v), l1);
    StepAtLineStart("\n" + p, v, l1);
    Regroup("\n", p, v, l1);
    LastOfAppend(p + v, l1);
    TrimLeadingOnly(p + v + l1);
  }
}
