/** Taking the kernel banner of /proc/version apart at its parenthesised groups
    (internal/hal/kernel.go). */
module KernelBanner {
  import opened Sequences

  function Delta(c: char): int {
    if c == '(' then 1 else if c == ')' then -1 else 0
  }

  /** Opening minus closing parentheses. */
  function Depth(s: string): int {
    if s == "" then 0 else Depth(s[..|s| - 1]) + Delta(s[|s| - 1])
  }

  function DepthAt(s: string, n: nat): int
    requires n <= |s|
  {
    Depth(s[..n])
  }

  /** No closing parenthesis comes before its opening one. */
  ghost predicate NeverCloses(s: string) {
    forall n :: 0 <= n <= |s| ==> DepthAt(s, n) >= 0
  }

  ghost predicate Balanced(s: string) {
    NeverCloses(s) && Depth(s) == 0
  }

  /** after[n] closes the group that opened just before `after`. */
  ghost predicate Closes(after: string, n: nat) {
    n < |after| && after[n] == ')' && Balanced(after[..n])
  }

  /** The first group of s and what follows it; a group that is never closed runs to the end,
      and without any group everything is rest. */
  ghost predicate FirstGroup(s: string, inner: string, rest: string) {
    var i := IndexOf(s, '(');
    if i < 0 then inner == "" && rest == s
    else
      var after := s[i + 1..];
      || (exists n: nat :: Closes(after, n) && inner == after[..n] && rest == after[n + 1..])
      || (NeverCloses(after) && inner == after && rest == "")
  }

  lemma DepthSnoc(s: string, c: char)
    ensures Depth(s + [c]) == Depth(s) + Delta(c)
  {
    assert (s + [c])[..|s|] == s;
  }

  lemma NeverClosesSnoc(s: string, c: char)
    requires NeverCloses(s) && Depth(s) + Delta(c) >= 0
    ensures NeverCloses(s + [c])
  {
    DepthSnoc(s, c);
    forall n | 0 <= n <= |s| + 1 ensures DepthAt(s + [c], n) >= 0 {
      if n <= |s| {
        assert (s + [c])[..n] == s[..n] && DepthAt(s, n) >= 0;
      } else {
        assert (s + [c])[..n] == s + [c] && s[..|s|] == s && DepthAt(s, |s|) >= 0;
      }
    }
  }

  /** After n characters the group has not been closed; `depth` counts its own opening too. */
  ghost predicate StillOpen(after: string, n: nat, depth: int) {
    n <= |after| && NeverCloses(after[..n]) && depth == 1 + Depth(after[..n])
  }

  lemma StaysOpen(after: string, n: nat, depth: int)
    requires n < |after| && StillOpen(after, n, depth) && depth + Delta(after[n]) >= 1
    ensures StillOpen(after, n + 1, depth + Delta(after[n]))
  {
    assert after[..n + 1] == after[..n] + [after[n]];
    DepthSnoc(after[..n], after[n]);
    NeverClosesSnoc(after[..n], after[n]);
  }

  lemma ClosedGroup(s: string, i: nat, j: nat)
    requires IndexOf(s, '(') == i < j < |s| && s[j] == ')' && StillOpen(s[i + 1..], j - i - 1, 1)
    ensures FirstGroup(s, s[i + 1..j], s[j + 1..])
  {
    var after, n := s[i + 1..], j - i - 1;
    assert Closes(after, n);
    assert s[i + 1..j] == after[..n] && s[j + 1..] == after[n + 1..];
  }

  lemma UnclosedGroup(s: string, i: nat, depth: int)
    requires IndexOf(s, '(') == i < |s| && StillOpen(s[i + 1..], |s| - i - 1, depth)
    ensures FirstGroup(s, s[i + 1..], "")
  {
    assert s[i + 1..][..|s| - i - 1] == s[i + 1..];
  }

  /** firstParen: the contents of the first group and what follows it. */
  method FirstParen(s: string) returns (inner: string, rest: string)
    ensures FirstGroup(s, inner, rest)
  {
    var i := IndexOf(s, '(');
    if i < 0 {
      return "", s;
    }
    ghost var after := s[i + 1..];
    var depth := 0;
    for j := i to |s|
      invariant j == i ==> depth == 0
      invariant j > i ==> depth >= 1 && StillOpen(after, j - i - 1, depth)
    {
      ghost var before := depth;
      if s[j] == '(' {
        depth := depth + 1;
      } else if s[j] == ')' {
        depth := depth - 1;
        if depth == 0 {
          ClosedGroup(s, i, j);
          return s[i + 1..j], s[j + 1..];
        }
      }
      if j > i {
        StaysOpen(after, j - i - 1, before);
      } else {
        assert after[..0] == "";
      }
    }
    UnclosedGroup(s, i, depth);
    return s[i + 1..], "";
  }

  /** A closing parenthesis takes the depth below that of the opening one. */
  lemma ClosingIsBelow(after: string, n: nat)
    requires Closes(after, n)
    ensures Depth(after[..n + 1]) == -1
  {
    assert after[..n + 1] == after[..n] + [')'];
    DepthSnoc(after[..n], ')');
  }

  lemma NotOpenPast(after: string, n: nat, m: nat)
    requires Closes(after, n) && n < m <= |after|
    ensures !NeverCloses(after[..m])
  {
    ClosingIsBelow(after, n);
    assert after[..m][..n + 1] == after[..n + 1];
    assert DepthAt(after[..m], n + 1) == -1;
  }

  lemma ClosesOnce(after: string, n: nat, m: nat)
    requires Closes(after, n) && Closes(after, m)
    ensures n == m
  {
    if n < m {
      NotOpenPast(after, n, m);
    } else if m < n {
      NotOpenPast(after, m, n);
    }
  }

  /** The first group is the shortest balanced one, and so there is only one answer. */
  lemma FirstGroupUnique(s: string, inner: string, rest: string, inner': string, rest': string)
    requires FirstGroup(s, inner, rest) && FirstGroup(s, inner', rest')
    ensures inner == inner' && rest == rest'
  {
    var i := IndexOf(s, '(');
    if i >= 0 {
      var after := s[i + 1..];
      assert after[..|after|] == after;
      if n: nat :| Closes(after, n) && inner == after[..n] && rest == after[n + 1..] {
        ShortestGroup(after, n, inner', rest');
      } else if n: nat :| Closes(after, n) && inner' == after[..n] && rest' == after[n + 1..] {
        ShortestGroup(after, n, inner, rest);
      }
    }
  }

  lemma ShortestGroup(after: string, n: nat, inner: string, rest: string)
    requires Closes(after, n)
    requires (exists m: nat :: Closes(after, m) && inner == after[..m] && rest == after[m + 1..])
      || (NeverCloses(after) && inner == after && rest == "")
    ensures inner == after[..n] && rest == after[n + 1..]
  {
    NotOpenPast(after, n, |after|);
    assert after[..|after|] == after;
    var m: nat :| Closes(after, m) && inner == after[..m] && rest == after[m + 1..];
    ClosesOnce(after, n, m);
  }

  /** The pieces make up the input again. */
  lemma FirstGroupReassembles(s: string, inner: string, rest: string)
    requires FirstGroup(s, inner, rest)
    ensures '(' !in s ==> s == inner + rest
    ensures '(' in s ==>
      var before := s[..IndexOf(s, '(')];
      s == before + "(" + inner + ")" + rest || (s == before + "(" + inner && rest == "")
  {
    var i := IndexOf(s, '(');
    if i >= 0 {
      var after := s[i + 1..];
      assert s == s[..i] + "(" + after;
      if n: nat :| Closes(after, n) && inner == after[..n] && rest == after[n + 1..] {
        Reassemble(s, i, n);
      }
    }
  }

  lemma Reassemble(s: string, i: nat, n: nat)
    requires i + 1 + n < |s| && s[i] == '(' && s[i + 1 + n] == ')'
    ensures s == s[..i] + "(" + s[i + 1..][..n] + ")" + s[i + 1..][n + 1..]
  {
  }

  /** A balanced text in parentheses, after any text without an opening one. */
  lemma GroupOfBalanced(before: string, x: string, rest: string)
    requires '(' !in before && Balanced(x)
    ensures FirstGroup(before + "(" + x + ")" + rest, x, rest)
  {
    var s := before + "(" + x + ")" + rest;
    assert s[..|before|] == before;
    IndexOfIsFirst(s, '(', |before|);
    var after := s[|before| + 1..];
    assert after == x + ")" + rest && after[..|x|] == x && after[|x| + 1..] == rest;
    assert Closes(after, |x|);
  }

  // ---- what is balanced ----

  lemma {:induction false} DepthConcat(a: string, b: string)
    ensures Depth(a + b) == Depth(a) + Depth(b)
  {
    if b == "" {
      assert a + b == a;
    } else {
      DepthConcat(a, ButLast(b));
      DepthSnoc(a + ButLast(b), Last(b));
      assert a + b == (a + ButLast(b)) + [Last(b)];
    }
  }

  lemma BalancedConcat(a: string, b: string)
    requires Balanced(a) && Balanced(b)
    ensures Balanced(a + b)
  {
    DepthConcat(a, b);
    forall n | 0 <= n <= |a + b| ensures DepthAt(a + b, n) >= 0 {
      if n <= |a| {
        assert (a + b)[..n] == a[..n] && DepthAt(a, n) >= 0;
      } else {
        assert (a + b)[..n] == a + b[..n - |a|] && DepthAt(b, n - |a|) >= 0;
        DepthConcat(a, b[..n - |a|]);
      }
    }
  }

  lemma {:induction false} DepthOfPlain(s: string)
    requires '(' !in s && ')' !in s
    ensures Depth(s) == 0
  {
    if s != "" {
      DepthOfPlain(s[..|s| - 1]);
    }
  }

  lemma PlainIsBalanced(s: string)
    requires '(' !in s && ')' !in s
    ensures Balanced(s)
  {
    DepthOfPlain(s);
    forall n | 0 <= n <= |s| ensures DepthAt(s, n) >= 0 {
      DepthOfPlain(s[..n]);
    }
  }

  lemma GroupIsBalanced(x: string)
    requires Balanced(x)
    ensures Balanced("(" + x + ")")
  {
    var s := "(" + x + ")";
    DepthConcat("(", x);
    DepthConcat("(" + x, ")");
    assert Depth("(") == 1 && Depth(")") == -1;
    forall n | 0 <= n <= |s| ensures DepthAt(s, n) >= 0 {
      if 0 < n <= |x| + 1 {
        assert s[..n] == "(" + x[..n - 1] && DepthAt(x, n - 1) >= 0;
        DepthConcat("(", x[..n - 1]);
      } else if n > 0 {
        assert s[..n] == s;
      }
    }
  }

  // ---- the banner ----

  /** The parts Kernel takes a banner apart into, before looking inside them. */
  datatype Parts = Parts(release: string, builder: string, compiler: string, tail: string)

  const PREFIX := "Linux version "

  /** strings.TrimPrefix of the fixed words. */
  function Unprefixed(raw: string): string {
    if PREFIX <= raw then raw[|PREFIX|..] else raw
  }

  /** strings.Cut at the first space. */
  function CutAtSpace(s: string): (string, string) {
    var cut := IndexOf(s, ' ');
    if cut < 0 then (s, "") else (s[..cut], s[cut + 1..])
  }

  /** The next two groups of a text, and what lies between and behind them. */
  ghost predicate TwoGroups(groups: string, k: Parts, more: string) {
    FirstGroup(groups, k.builder, more) && FirstGroup(more, k.compiler, k.tail)
  }

  /** The release is the first word behind the prefix; the builder and the compiler are the
      next two groups. */
  ghost predicate ParsesTo(raw: string, k: Parts) {
    var (release, groups) := CutAtSpace(Unprefixed(raw));
    k.release == release && exists more :: TwoGroups(groups, k, more)
  }

  /** Kernel up to its groups, on the trimmed text of /proc/version. */
  method TakeApart(raw: string) returns (k: Parts)
    ensures ParsesTo(raw, k)
  {
    var (release, groups) := CutAtSpace(Unprefixed(raw));
    var builder, more := FirstParen(groups);
    var compiler, tail := FirstParen(more);
    k := Parts(release, builder, compiler, tail);
    assert TwoGroups(groups, k, more);
  }

  /** "(builder) (compiler)tail" */
  function Groups(k: Parts): string {
    "(" + k.builder + ")" + (" (" + k.compiler + ")" + k.tail)
  }

  function Render(k: Parts): string {
    PREFIX + (k.release + (" " + Groups(k)))
  }

  /** A banner with groups nested to any depth gives back its release, builder, compiler group
      and tail, and nothing else. */
  lemma RenderedParses(k: Parts, parsed: Parts)
    requires ' ' !in k.release && Balanced(k.builder) && Balanced(k.compiler)
    ensures ParsesTo(Render(k), parsed) <==> parsed == k
  {
    RenderedPieces(k);
    RenderedGroups(k.builder, k.compiler, k.tail);
    TwoGroupsUnique(Groups(k), k, " (" + k.compiler + ")" + k.tail, parsed);
  }

  lemma TwoGroupsUnique(groups: string, k: Parts, more: string, parsed: Parts)
    requires TwoGroups(groups, k, more)
    ensures (exists rest :: TwoGroups(groups, parsed, rest)) <==> parsed == k.(release := parsed.release)
  {
    if rest :| TwoGroups(groups, parsed, rest) {
      FirstGroupUnique(groups, k.builder, more, parsed.builder, rest);
      FirstGroupUnique(more, k.compiler, k.tail, parsed.compiler, parsed.tail);
    }
    if parsed == k.(release := parsed.release) {
      assert TwoGroups(groups, parsed, more);
    }
  }

  lemma RenderedPieces(k: Parts)
    requires ' ' !in k.release
    ensures CutAtSpace(Unprefixed(Render(k))) == (k.release, Groups(k))
  {
    var s := k.release + (" " + Groups(k));
    assert (PREFIX + s)[|PREFIX|..] == s;
    assert s[..|k.release|] == k.release && s[|k.release| + 1..] == Groups(k);
    IndexOfIsFirst(s, ' ', |k.release|);
  }

  lemma RenderedGroups(builder: string, compiler: string, tail: string)
    requires Balanced(builder) && Balanced(compiler)
    ensures FirstGroup("(" + builder + ")" + (" (" + compiler + ")" + tail), builder, " (" + compiler + ")" + tail)
    ensures FirstGroup(" (" + compiler + ")" + tail, compiler, tail)
  {
    GroupBehind("", "(", builder, " (" + compiler + ")" + tail);
    GroupBehind(" ", " (", compiler, tail);
  }

  /** GroupOfBalanced with the opening parenthesis written together with what precedes it. */
  lemma GroupBehind(before: string, opening: string, x: string, rest: string)
    requires '(' !in before && opening == before + "(" && Balanced(x)
    ensures FirstGroup(opening + x + ")" + rest, x, rest)
  {
    GroupOfBalanced(before, x, rest);
  }
}
