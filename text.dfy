/** Sequence and string helpers shared by the renderer: JavaScript's
    `split('\n')`, `join(sep)`, `filter` and `map`, with the facts the
    rendering proofs rely on. */
module Text {

  datatype Option<+T> = None | Some(value: T) {
    function GetOr(default: T): T {
      match this
      case Some(v) => v
      case None => default
    }
  }

  predicate SingleLine(s: string) {
    '\n' !in s
  }

  predicate AllSingleLine(ls: seq<string>) {
    forall i :: 0 <= i < |ls| ==> SingleLine(ls[i])
  }

  predicate StartsWith(s: string, p: string) {
    |p| <= |s| && s[..|p|] == p
  }

  predicate EndsWith(s: string, p: string) {
    |p| <= |s| && s[|s| - |p|..] == p
  }

  /** One-line pieces make one line. */
  lemma FourSingleLine(a: string, b: string, c: string, d: string)
    requires SingleLine(a) && SingleLine(b) && SingleLine(c) && SingleLine(d)
    ensures SingleLine(a + b + c + d)
  {
  }

  /** Concatenation regrouped to the right, stated over plain variables. */
  lemma Regroup3(a: string, b: string, c: string)
    ensures a + b + c == a + (b + c)
  { }

  lemma Regroup(a: string, b: string, c: string, d: string)
    ensures a + b + c + d == a + (b + c + d)
  {
  }

  lemma RegroupInner(a: string, b: string, c: string, d: string)
    ensures a + (b + c) + d == a + b + c + d
  {
  }

  lemma RegroupMiddle(a: string, b: string, c: string, d: string, e: string)
    ensures a + b + c + d + e == a + (b + c + d) + e
  {
  }

  lemma RegroupSecond(a: string, b: string, c: string, d: string, e: string)
    ensures a + b + c + d + e == a + b + (c + d) + e
  {
  }

  lemma Regroup5(a: string, b: string, c: string, d: string, e: string, f: string)
    ensures a + b + c + (d + e + f) == a + b + (c + d) + e + f
  {
  }

  /** The last character of `a + b` is the last character of `b`. */
  lemma LastOfAppend(a: string, b: string)
    requires |b| > 0
    ensures (a + b)[|a + b| - 1] == b[|b| - 1]
  {
  }

  /** A join starts with its first element and ends with its last. */
  lemma {:induction false} JoinEnds(ls: seq<string>, sep: string)
    requires |ls| >= 1
    ensures StartsWith(Join(ls, sep), ls[0])
    ensures EndsWith(Join(ls, sep), ls[|ls| - 1])
  {
    if |ls| > 1 {
      JoinEnds(ls[1..], sep);
      var rest := Join(ls[1..], sep);
      assert Join(ls, sep) == ls[0] + (sep + rest);
      assert (ls[0] + (sep + rest))[..|ls[0]|] == ls[0];
      var last := ls[|ls| - 1];
      assert last == ls[1..][|ls[1..]| - 1];
      assert (ls[0] + sep + rest)[|ls[0] + sep + rest| - |last|..] == rest[|rest| - |last|..];
    }
  }

  /** Text around a string keeps its ends in place. */
  lemma Enclosed(a: string, x: string, b: string, p: string, q: string)
    requires StartsWith(x, p) && EndsWith(x, q)
    ensures StartsWith(a + x + b, a + p) && EndsWith(a + x + b, q + b)
  {
    var s := a + x + b;
    assert s[..|a| + |p|] == a + x[..|p|];
    assert s[|s| - |q| - |b|..] == x[|x| - |q|..] + b;
  }

  /** Single lines joined by a separator without a newline stay one line. */
  lemma {:induction false} JoinSingleLine(ls: seq<string>, sep: string)
    requires AllSingleLine(ls) && SingleLine(sep)
    ensures SingleLine(Join(ls, sep))
  {
    if |ls| > 1 {
      JoinSingleLine(ls[1..], sep);
      assert SingleLine(ls[0]);
    }
  }

  /** One mismatching character rules a suffix out. */
  lemma NotEndsWith(s: string, x: string, i: nat)
    requires i < |x| && (|x| <= |s| ==> s[|s| - |x| + i] != x[i])
    ensures !EndsWith(s, x)
  {
    if |x| <= |s| {
      assert s[|s| - |x|..][i] == s[|s| - |x| + i];
    }
  }

  /** A common tail can be dropped from both sides of a suffix test. */
  lemma EndsWithAppend(a: string, x: string, b: string)
    ensures EndsWith(a + b, x + b) <==> EndsWith(a, x)
  {
    if |x| <= |a| {
      assert (a + b)[|a + b| - |x + b|..] == a[|a| - |x|..] + b;
    }
    if EndsWith(a + b, x + b) {
      assert (a + b)[|a + b| - |x + b|..][..|x|] == a[|a| - |x|..];
      assert (x + b)[..|x|] == x;
    }
  }

  /** Prefixing every line but the first is the same as prefixing every
      line and putting the prefix in front. */
  lemma PrefixedJoin(p: string, ls: seq<string>)
    requires |ls| >= 1
    ensures p + Join(ls, "\n" + p) == Join(PrefixEach(p, ls), "\n")
  {
    var tail := PrefixEach(p, ls[1..]);
    JoinWithIndentedSeparator(ls, p);
    assert p + Join(ls, "\n" + p) == p + Join([ls[0]] + tail, "\n");
    JoinPrefixFirst(p, [ls[0]] + tail);
    assert ([ls[0]] + tail)[1..] == tail;
    assert PrefixEach(p, ls) == [p + ls[0]] + tail;
  }

  /** `s.split('\n')`: the lines of `s`; there is always at least one. */
  function Lines(s: string): (ls: seq<string>)
    ensures |ls| >= 1
    ensures AllSingleLine(ls)
  {
    if s == [] then [""]
    else
      var rest := Lines(s[1..]);
      if s[0] == '\n' then [""] + rest
      else [[s[0]] + rest[0]] + rest[1..]
  }

  /** `ls.join(sep)`. */
  function Join(ls: seq<string>, sep: string): string {
    if |ls| == 0 then ""
    else if |ls| == 1 then ls[0]
    else ls[0] + sep + Join(ls[1..], sep)
  }

  /** `s.split(sep)` for a non-empty separator: the pieces between the
      occurrences of `sep`, found from left to right. */
  function Split(s: string, sep: string): (r: seq<string>)
    requires |sep| > 0
    ensures |r| >= 1
    decreases |s|
  {
    if s == [] then [""]
    else if |sep| <= |s| && s[..|sep|] == sep then [""] + Split(s[|sep|..], sep)
    else
      var rest := Split(s[1..], sep);
      [[s[0]] + rest[0]] + rest[1..]
  }

  /** A piece without the separator's first character is split off whole. */
  lemma {:induction false} SplitPiece(a: string, sep: string, rest: string)
    requires |sep| > 0 && sep[0] !in a
    ensures Split(a + sep + rest, sep) == [a] + Split(rest, sep)
    decreases |a|
  {
    var s := a + sep + rest;
    if a == [] {
      assert s == sep + rest;
      assert s[..|sep|] == sep;
      assert s[|sep|..] == rest;
    } else {
      assert s[0] == a[0] != sep[0];
      assert s[1..] == a[1..] + sep + rest;
      SplitPiece(a[1..], sep, rest);
      assert [a[0]] + a[1..] == a;
    }
  }

  /** Text without the separator's first character is one piece. */
  lemma {:induction false} SplitWhole(a: string, sep: string)
    requires |sep| > 0 && sep[0] !in a
    ensures Split(a, sep) == [a]
    decreases |a|
  {
    if a != [] {
      assert !(|sep| <= |a| && a[..|sep|] == sep) by {
        if |sep| <= |a| {
          assert a[..|sep|][0] == a[0];
        }
      }
      SplitWhole(a[1..], sep);
      assert [a[0]] + a[1..] == a;
    }
  }

  /** Splitting undoes joining, when no piece holds the separator's first
      character. */
  lemma {:induction false} SplitJoin(ls: seq<string>, sep: string)
    requires |ls| >= 1 && |sep| > 0
    requires forall i :: 0 <= i < |ls| ==> sep[0] !in ls[i]
    ensures Split(Join(ls, sep), sep) == ls
  {
    if |ls| == 1 {
      SplitWhole(ls[0], sep);
    } else {
      SplitJoin(ls[1..], sep);
      SplitPiece(ls[0], sep, Join(ls[1..], sep));
      assert [ls[0]] + ls[1..] == ls;
    }
  }

  /** `ls.map(l => p + l)`. */
  function PrefixEach(p: string, ls: seq<string>): (r: seq<string>)
    ensures |r| == |ls|
    ensures forall i :: 0 <= i < |ls| ==> r[i] == p + ls[i]
  {
    if ls == [] then [] else [p + ls[0]] + PrefixEach(p, ls[1..])
  }

  /** `s.filter(keep)`. */
  function Filter<T>(s: seq<T>, keep: T -> bool): (r: seq<T>)
    ensures |r| <= |s|
    ensures forall i :: 0 <= i < |r| ==> r[i] in s && keep(r[i])
    ensures forall i :: 0 <= i < |s| && keep(s[i]) ==> s[i] in r
  {
    if s == [] then []
    else if keep(s[0]) then [s[0]] + Filter(s[1..], keep)
    else Filter(s[1..], keep)
  }

  /** `s.map(f)`. */
  function Map<A, B>(s: seq<A>, f: A -> B): (r: seq<B>)
    ensures |r| == |s|
    ensures forall i :: 0 <= i < |s| ==> r[i] == f(s[i])
  {
    if s == [] then [] else [f(s[0])] + Map(s[1..], f)
  }

  /** `ss.reduce((memo, x) => memo.concat(x), [])`. */
  function Flatten<T>(ss: seq<seq<T>>): seq<T> {
    if ss == [] then [] else ss[0] + Flatten(ss[1..])
  }

  /** Number of elements of `s` that `keep` accepts. */
  function CountIf<T>(s: seq<T>, keep: T -> bool): nat {
    if s == [] then 0 else (if keep(s[0]) then 1 else 0) + CountIf(s[1..], keep)
  }

  lemma {:induction false} FilterCount<T>(s: seq<T>, keep: T -> bool)
    ensures |Filter(s, keep)| == CountIf(s, keep)
  {
    if s != [] {
      FilterCount(s[1..], keep);
    }
  }

  lemma {:induction false} FlattenLength<T>(ss: seq<seq<T>>)
    ensures |Flatten(ss)| == SumLengths(ss)
  {
    if ss != [] {
      FlattenLength(ss[1..]);
    }
  }

  /** An element of the concatenation comes from one of the parts, and
      every element of every part is in it. */
  lemma {:induction false} FlattenMember<T>(ss: seq<seq<T>>, x: T)
    ensures x in Flatten(ss) <==> exists i :: 0 <= i < |ss| && x in ss[i]
  {
    if ss != [] {
      FlattenMember(ss[1..], x);
      if exists i :: 0 <= i < |ss[1..]| && x in ss[1..][i] {
        var i :| 0 <= i < |ss[1..]| && x in ss[1..][i];
        assert x in ss[i + 1];
      }
      if exists i :: 0 <= i < |ss| && x in ss[i] {
        var i :| 0 <= i < |ss| && x in ss[i];
        if i > 0 {
          assert x in ss[1..][i - 1];
        }
      }
    }
  }

  /** Filters that agree on every element select the same elements. */
  lemma {:induction false} FilterCongruent<T>(s: seq<T>, p: T -> bool, q: T -> bool)
    requires forall i :: 0 <= i < |s| ==> p(s[i]) == q(s[i])
    ensures Filter(s, p) == Filter(s, q)
  {
    if s != [] {
      FilterCongruent(s[1..], p, q);
    }
  }

  /** Filtering keeps order and multiplicity: it splits over a
      concatenation, and a single element is kept or dropped whole. */
  lemma {:induction false} FilterAppend<T>(a: seq<T>, b: seq<T>, keep: T -> bool)
    ensures Filter(a + b, keep) == Filter(a, keep) + Filter(b, keep)
  {
    if a != [] {
      assert (a + b)[1..] == a[1..] + b;
      FilterAppend(a[1..], b, keep);
    } else {
      assert a + b == b;
    }
  }

  lemma FilterOne<T>(x: T, keep: T -> bool)
    ensures Filter([x], keep) == if keep(x) then [x] else []
  {
    assert [x][1..] == [];
  }

  /** Mapping splits over a concatenation. */
  lemma {:induction false} MapAppend<A, B>(a: seq<A>, b: seq<A>, f: A -> B)
    ensures Map(a + b, f) == Map(a, f) + Map(b, f)
  {
    assert |Map(a + b, f)| == |Map(a, f) + Map(b, f)|;
    forall i | 0 <= i < |a| + |b|
      ensures Map(a + b, f)[i] == (Map(a, f) + Map(b, f))[i]
    {
      if i < |a| {
        assert (a + b)[i] == a[i];
      } else {
        assert (a + b)[i] == b[i - |a|];
      }
    }
  }

  /** Joining two non-empty lists: the joins of each, one separator between. */
  lemma {:induction false} JoinAppend(a: seq<string>, b: seq<string>, sep: string)
    requires |a| >= 1 && |b| >= 1
    ensures Join(a + b, sep) == Join(a, sep) + sep + Join(b, sep)
  {
    if |a| == 1 {
      assert (a + b)[0] == a[0];
      assert (a + b)[1..] == b;
    } else {
      assert (a + b)[0] == a[0];
      assert (a + b)[1..] == a[1..] + b;
      JoinAppend(a[1..], b, sep);
      Regroup(a[0], sep, Join(a[1..], sep), sep + Join(b, sep));
      assert a[0] + sep + Join(a[1..], sep) + sep + Join(b, sep)
          == a[0] + sep + (Join(a[1..], sep) + sep + Join(b, sep));
    }
  }

  /** Concatenating splits over a concatenation of lists. */
  lemma {:induction false} FlattenAppend<T>(a: seq<seq<T>>, b: seq<seq<T>>)
    ensures Flatten(a + b) == Flatten(a) + Flatten(b)
  {
    if a != [] {
      assert (a + b)[0] == a[0];
      assert (a + b)[1..] == a[1..] + b;
      FlattenAppend(a[1..], b);
    } else {
      assert a + b == b;
    }
  }

  function SumLengths<T>(ss: seq<seq<T>>): nat {
    if ss == [] then 0 else |ss[0]| + SumLengths(ss[1..])
  }

  /** Joining a list that has a last element. */
  lemma {:induction false} JoinSnoc(ls: seq<string>, b: string, sep: string)
    requires |ls| >= 1
    ensures Join(ls + [b], sep) == Join(ls, sep) + sep + b
  {
    if |ls| == 1 {
      assert ls + [b] == [ls[0], b];
    } else {
      assert (ls + [b])[1..] == ls[1..] + [b];
      JoinSnoc(ls[1..], b, sep);
    }
  }

  /** A line without a newline glued in front of a text extends its first line. */
  lemma {:induction false} LinesPrefix(a: string, t: string)
    requires SingleLine(a)
    ensures Lines(a + t) == [a + Lines(t)[0]] + Lines(t)[1..]
  {
    if a != [] {
      assert (a + t)[1..] == a[1..] + t;
      assert (a + t)[0] == a[0] && a[0] != '\n';
      LinesPrefix(a[1..], t);
      var rest := Lines(a[1..] + t);
      assert rest[0] == a[1..] + Lines(t)[0];
      assert rest[1..] == Lines(t)[1..];
      assert Lines(a + t) == [[a[0]] + rest[0]] + rest[1..];
      assert [a[0]] + (a[1..] + Lines(t)[0]) == a + Lines(t)[0];
    } else {
      assert a + t == t && a + Lines(t)[0] == Lines(t)[0];
      assert Lines(t) == [Lines(t)[0]] + Lines(t)[1..];
    }
  }

  lemma LinesOfSingleLine(a: string)
    requires SingleLine(a)
    ensures Lines(a) == [a]
  {
    LinesPrefix(a, "");
    assert a + "" == a;
  }

  /** Splitting after a newline starts a new line. */
  lemma LinesNewline(t: string)
    ensures Lines("\n" + t) == [""] + Lines(t)
  {
    assert ("\n" + t)[1..] == t;
  }

  /** `split('\n')` undoes `join('\n')` on lines that hold no newline. */
  lemma {:induction false} LinesOfJoin(ls: seq<string>)
    requires |ls| >= 1 && AllSingleLine(ls)
    ensures Lines(Join(ls, "\n")) == ls
  {
    if |ls| == 1 {
      LinesOfSingleLine(ls[0]);
    } else {
      LinesOfJoin(ls[1..]);
      var t := Join(ls[1..], "\n");
      assert Join(ls, "\n") == ls[0] + ("\n" + t);
      LinesPrefix(ls[0], "\n" + t);
      LinesNewline(t);
      assert ls[0] + "" == ls[0];
      assert ls == [ls[0]] + ls[1..];
    }
  }

  /** `join('\n')` undoes `split('\n')`. */
  lemma {:induction false} JoinOfLines(s: string)
    ensures Join(Lines(s), "\n") == s
  {
    if s != [] {
      var rest := Lines(s[1..]);
      JoinOfLines(s[1..]);
      if s[0] == '\n' {
        assert Lines(s) == [""] + rest;
        assert ([""] + rest)[1..] == rest;
        assert s == "\n" + s[1..];
      } else {
        assert Lines(s) == [[s[0]] + rest[0]] + rest[1..];
        if |rest| == 1 {
          assert s == [s[0]] + s[1..];
        } else {
          assert Join(rest, "\n") == rest[0] + "\n" + Join(rest[1..], "\n");
          assert ([[s[0]] + rest[0]] + rest[1..])[1..] == rest[1..];
          assert s == [s[0]] + s[1..];
        }
      }
    }
  }

  /** Joining with `"\n" + p` is joining with `"\n"` after prefixing every
      line but the first with `p`. */
  lemma {:induction false} JoinWithIndentedSeparator(ls: seq<string>, p: string)
    requires |ls| >= 1
    ensures Join(ls, "\n" + p) == Join([ls[0]] + PrefixEach(p, ls[1..]), "\n")
  {
    if |ls| > 1 {
      JoinWithIndentedSeparator(ls[1..], p);
      var tail := PrefixEach(p, ls[1..]);
      assert tail == [p + ls[1]] + PrefixEach(p, ls[2..]);
      assert ls[1..][1..] == ls[2..];
      var inner := Join([ls[1]] + PrefixEach(p, ls[2..]), "\n");
      JoinPrefixFirst(p, [ls[1]] + PrefixEach(p, ls[2..]));
      assert ([ls[1]] + PrefixEach(p, ls[2..]))[1..] == PrefixEach(p, ls[2..]);
      assert ([ls[0]] + tail)[1..] == tail;
    }
  }

  /** Gluing text in front of a join glues it to the first element. */
  lemma {:induction false} JoinPrefixFirst(p: string, ls: seq<string>)
    requires |ls| >= 1
    ensures p + Join(ls, "\n") == Join([p + ls[0]] + ls[1..], "\n")
  {
    var ls' := [p + ls[0]] + ls[1..];
    if |ls| > 1 {
      assert ls'[1..] == ls[1..];
      assert Join(ls', "\n") == (p + ls[0]) + "\n" + Join(ls[1..], "\n");
      assert Join(ls, "\n") == ls[0] + "\n" + Join(ls[1..], "\n");
    } else {
      assert ls' == [p + ls[0]];
    }
  }

  lemma PrefixEachSingleLine(p: string, ls: seq<string>)
    requires SingleLine(p) && AllSingleLine(ls)
    ensures AllSingleLine(PrefixEach(p, ls))
  {
    forall i | 0 <= i < |ls|
      ensures SingleLine(PrefixEach(p, ls)[i])
    {
      assert PrefixEach(p, ls)[i] == p + ls[i];
      assert SingleLine(ls[i]);
    }
  }
}
