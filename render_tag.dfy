/** The `source` template tag: an indentation-aware template composer.

    A tagged template with n substitutions hands the tag n + 1 literal
    segments and n slot values. Each slot holds either a value, already turned
    into text by the caller, or the `OMIT_NEXT_NEWLINE` marker. The composer
    appends, slot by slot, the slot's text followed by the next literal:
    newlines inside a value are re-indented to the column at which the value
    starts, and the marker emits nothing and removes a leading `^ *\n` from the
    literal that follows it. Finally one leading and one trailing newline of
    the whole text are removed.

    `Accumulate` and `Source` specify the composer as functions; `Compose` is
    the loop of the tag function itself, proved to compute `Source`. */
module RenderTag {
  import opened Text

  /** One substitution of a template. */
  datatype Slot = Val(text: string) | OmitNextNewline

  /** Length of the fixed run of spaces that indentation is sliced from. */
  const SpacesWidth := 87

  /** The fixed `spaces` string. */
  const Spaces: string := Blanks(SpacesWidth)

  /** A run of `n` spaces. */
  function Blanks(n: nat): (r: string)
    ensures |r| == n
    ensures forall i :: 0 <= i < n ==> r[i] == ' '
  {
    seq(n, _ => ' ')
  }

  function Min(a: nat, b: nat): nat {
    if a <= b then a else b
  }

  /** `spaces.slice(0, n)`: at most the whole fixed run of spaces. */
  function Pad(n: nat): (r: string)
    ensures |r| == Min(n, |Spaces|) && |r| <= SpacesWidth
    ensures forall i :: 0 <= i < |r| ==> r[i] == ' '
    ensures SingleLine(r)
  {
    Spaces[..Min(n, |Spaces|)]
  }

  /** `s.lastIndexOf('\n')`: the position of the last newline, or -1. */
  function LastNewline(s: string): (r: int)
    ensures -1 <= r < |s|
    ensures r >= 0 ==> s[r] == '\n'
  {
    LastNewlineBefore(s, |s|)
  }

  /** The position of the last newline among the first `k` characters. */
  function LastNewlineBefore(s: string, k: nat): (r: int)
    requires k <= |s|
    ensures -1 <= r < k
    ensures r >= 0 ==> s[r] == '\n'
  {
    if k == 0 then -1
    else if s[k - 1] == '\n' then k - 1
    else LastNewlineBefore(s, k - 1)
  }

  /** No newline follows the one `LastNewline` finds. */
  lemma LastNewlineSpec(s: string)
    ensures forall j :: LastNewline(s) < j < |s| ==> s[j] != '\n'
  {
    LastNewlineBeforeSpec(s, |s|);
  }

  lemma {:induction false} LastNewlineBeforeSpec(s: string, k: nat)
    requires k <= |s|
    ensures forall j :: LastNewlineBefore(s, k) < j < k ==> s[j] != '\n'
  {
    if k > 0 && s[k - 1] != '\n' {
      LastNewlineBeforeSpec(s, k - 1);
    }
  }

  /** The column at which text appended to `s` starts: the number of
      characters after the last newline, or all of `s` when it has none. */
  function Indent(s: string): (r: nat)
    ensures r <= |s|
  {
    |s| - LastNewline(s) - 1
  }

  /** The column counts exactly the characters after the last newline. */
  lemma IndentSpec(s: string)
    ensures forall j :: |s| - Indent(s) <= j < |s| ==> s[j] != '\n'
    ensures Indent(s) < |s| ==> s[|s| - Indent(s) - 1] == '\n'
  {
    LastNewlineSpec(s);
  }

  /** `v.replace(/\n/g, '\n' + pad)`. */
  function Reindent(v: string, pad: string): string {
    if v == [] then []
    else (if v[0] == '\n' then "\n" + pad else [v[0]]) + Reindent(v[1..], pad)
  }

  /** The number of spaces `lit` starts with. */
  function LeadingSpaces(lit: string): (k: nat)
    ensures k <= |lit|
    ensures k < |lit| ==> lit[k] != ' '
  {
    SpacesFrom(lit, 0)
  }

  /** The end of the run of spaces that starts at position `i`. */
  function SpacesFrom(lit: string, i: nat): (k: nat)
    requires i <= |lit|
    ensures i <= k <= |lit|
    ensures k < |lit| ==> lit[k] != ' '
    decreases |lit| - i
  {
    if i == |lit| || lit[i] != ' ' then i else SpacesFrom(lit, i + 1)
  }

  /** Everything before that position is a space. */
  lemma LeadingSpacesSpec(lit: string)
    ensures forall j :: 0 <= j < LeadingSpaces(lit) ==> lit[j] == ' '
  {
    SpacesFromSpec(lit, 0);
  }

  lemma {:induction false} SpacesFromSpec(lit: string, i: nat)
    requires i <= |lit|
    ensures forall j :: i <= j < SpacesFrom(lit, i) ==> lit[j] == ' '
    decreases |lit| - i
  {
    if i < |lit| && lit[i] == ' ' {
      SpacesFromSpec(lit, i + 1);
    }
  }

  /** `lit` starts with a run of spaces followed by a newline (`/^ *\n/`). */
  ghost predicate StartsWithBlankLine(lit: string) {
    exists k :: 0 <= k < |lit| && lit[k] == '\n' && forall j :: 0 <= j < k ==> lit[j] == ' '
  }

  /** `lit.replace(/^ *\n/, '')`. */
  function StripBlankLine(lit: string): (r: string)
    ensures |r| <= |lit|
  {
    var k := LeadingSpaces(lit);
    if k < |lit| && lit[k] == '\n' then lit[k + 1..] else lit
  }

  /** The replacement removes a prefix of the literal, and does so exactly
      when the literal starts with spaces and a newline; what it removes is
      those spaces and that newline. */
  lemma StripBlankLineSpec(lit: string)
    ensures var r := StripBlankLine(lit);
      r == lit[|lit| - |r|..] &&
      (r != lit <==> StartsWithBlankLine(lit)) &&
      (r != lit ==> lit[|lit| - |r| - 1] == '\n') &&
      (r != lit ==> forall j :: 0 <= j < |lit| - |r| - 1 ==> lit[j] == ' ')
  {
    var k := LeadingSpaces(lit);
    LeadingSpacesSpec(lit);
    if k < |lit| && lit[k] == '\n' {
      assert StartsWithBlankLine(lit);
    }
  }

  /** `result.replace(/(^\n|\n$)/g, '')`: one newline off the front, then one
      newline off the back of what is left. */
  function Trim(s: string): (r: string)
    ensures s == r || s == "\n" + r || s == r + "\n" || s == "\n" + r + "\n"
  {
    var t := if |s| > 0 && s[0] == '\n' then s[1..] else s;
    if |t| > 0 && t[|t| - 1] == '\n' then t[..|t| - 1] else t
  }

  /** What one iteration of the tag's loop appends to `acc` for `slot`
      followed by the literal `lit`. */
  function Step(acc: string, slot: Slot, lit: string): string {
    match slot
    case OmitNextNewline => acc + StripBlankLine(lit)
    case Val(v) => acc + Reindent(v, Pad(Indent(acc))) + lit
  }

  predicate WellFormed(lits: seq<string>, slots: seq<Slot>) {
    |lits| == |slots| + 1
  }

  /** The text accumulated after the first `k` slots. */
  function Accumulate(lits: seq<string>, slots: seq<Slot>, k: nat): string
    requires WellFormed(lits, slots) && k <= |slots|
  {
    if k == 0 then lits[0]
    else Step(Accumulate(lits, slots, k - 1), slots[k - 1], lits[k])
  }

  /** The value of the tagged template `source`. */
  function Source(lits: seq<string>, slots: seq<Slot>): string
    requires WellFormed(lits, slots)
  {
    Trim(Accumulate(lits, slots, |slots|))
  }

  /** The tag function as the source runs it: a loop that grows `result`. */
  method Compose(lits: seq<string>, slots: seq<Slot>) returns (out: string)
    requires WellFormed(lits, slots)
    ensures out == Source(lits, slots)
  {
    var result := lits[0];
    var i := 0;
    while i < |slots|
      invariant i <= |slots|
      invariant result == Accumulate(lits, slots, i)
    {
      ghost var before := result;
      var indent := |result| - LastNewline(result) - 1;
      assert indent == Indent(before);
      match slots[i] {
        case OmitNextNewline =>
          result := result + StripBlankLine(lits[i + 1]);
        case Val(v) =>
          result := result + Reindent(v, Pad(indent));
          result := result + lits[i + 1];
      }
      assert result == Step(before, slots[i], lits[i + 1]);
      i := i + 1;
    }
    out := Trim(result);
  }
}
