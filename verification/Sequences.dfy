/** Splitting and joining sequences at a separator: the shape shared by log lines, mount
    tables, route tables, slash-separated paths and dotted addresses. */
module Sequences {

  /** Index of the first occurrence of c, or -1. */
  function IndexOf<T(==)>(s: seq<T>, c: T): (i: int)
    ensures -1 <= i < |s|
    ensures i < 0 <==> c !in s
    ensures i >= 0 ==> s[i] == c && c !in s[..i]
  {
    if s == [] then -1
    else if s[0] == c then 0
    else
      var k := IndexOf(s[1..], c);
      assert k >= 0 ==> s[..k + 1] == [s[0]] + s[1..][..k];
      if k < 0 then -1 else k + 1
  }

  lemma IndexOfIsFirst<T>(s: seq<T>, c: T, i: nat)
    requires i < |s| && s[i] == c && c !in s[..i]
    ensures IndexOf(s, c) == i
  {
    forall j | 0 <= j < i ensures s[j] != c {
      assert s[..i][j] == s[j];
    }
    forall j | 0 <= j < IndexOf(s, c) ensures s[j] != c {
      assert s[..IndexOf(s, c)][j] == s[j];
    }
  }

  /** The pieces between separators; always at least one. */
  function Split<T(==)>(s: seq<T>, c: T): (r: seq<seq<T>>)
    ensures |r| >= 1
  {
    var i := IndexOf(s, c);
    if i < 0 then [s] else [s[..i]] + Split(s[i + 1..], c)
  }

  function Join<T>(parts: seq<seq<T>>, c: T): seq<T> {
    if |parts| == 0 then []
    else if |parts| == 1 then parts[0]
    else parts[0] + [c] + Join(parts[1..], c)
  }

  /** A separator-free head followed by a separator is the first piece. */
  lemma SplitCons<T>(head: seq<T>, tail: seq<T>, c: T)
    requires c !in head
    ensures Split(head + [c] + tail, c) == [head] + Split(tail, c)
  {
    var s := head + [c] + tail;
    assert s[..|head|] == head && s[|head|] == c && s[|head| + 1..] == tail;
    IndexOfIsFirst(s, c, |head|);
  }

  /** Every sequence is one piece, or a first piece, a separator and the rest. */
  lemma Uncons<T>(s: seq<T>, c: T) returns (head: seq<T>, tail: seq<T>)
    ensures c !in head
    ensures c !in s ==> head == s && Split(s, c) == [s]
    ensures c in s ==> s == head + [c] + tail && |tail| < |s| && Split(s, c) == [head] + Split(tail, c)
  {
    var i := IndexOf(s, c);
    if i < 0 {
      head, tail := s, [];
    } else {
      head, tail := s[..i], s[i + 1..];
      assert s == head + [c] + tail;
    }
  }

  /** Splitting loses nothing: the pieces are separator-free and join back to the input. */
  lemma {:induction false} SplitSound<T>(s: seq<T>, c: T)
    ensures forall p :: p in Split(s, c) ==> c !in p
    ensures Join(Split(s, c), c) == s
    decreases |s|
  {
    var head, tail := Uncons(s, c);
    if c in s {
      SplitSound(tail, c);
      JoinCons(head, Split(tail, c), c);
    }
  }

  lemma JoinCons<T>(head: seq<T>, parts: seq<seq<T>>, c: T)
    requires |parts| >= 1
    ensures Join([head] + parts, c) == head + [c] + Join(parts, c)
  {
    assert ([head] + parts)[1..] == parts;
  }

  lemma JoinAfter<T>(front: seq<T>, head: seq<T>, parts: seq<seq<T>>, c: T)
    requires |parts| >= 1
    ensures front + Join([head] + parts, c) == front + head + [c] + Join(parts, c)
  {
    JoinCons(head, parts, c);
  }

  /** A list of separator-free pieces is the only split of its joined text. */
  lemma {:induction false} SplitJoin<T>(parts: seq<seq<T>>, c: T)
    requires |parts| >= 1
    requires forall p :: p in parts ==> c !in p
    ensures Split(Join(parts, c), c) == parts
  {
    assert parts[0] in parts && parts == [parts[0]] + parts[1..];
    if |parts| > 1 {
      SplitJoin(parts[1..], c);
      SplitCons(parts[0], Join(parts[1..], c), c);
    }
  }

  function Last<T>(s: seq<T>): T
    requires |s| > 0
  {
    s[|s| - 1]
  }

  function ButLast<T>(s: seq<T>): seq<T>
    requires |s| > 0
  {
    s[..|s| - 1]
  }

  lemma ButLastAndLast<T>(s: seq<T>)
    requires |s| > 0
    ensures s == ButLast(s) + [Last(s)]
  {
  }

  /** Splitting can resume from the unfinished last piece. */
  lemma {:induction false} SplitConcat<T>(a: seq<T>, b: seq<T>, c: T)
    ensures Split(a + b, c) == ButLast(Split(a, c)) + Split(Last(Split(a, c)) + b, c)
    decreases |a|
  {
    var head, tail := Uncons(a, c);
    if c in a {
      var pieces := Split(tail, c);
      SplitConcat(tail, b, c);
      assert a + b == head + [c] + (tail + b);
      SplitCons(head, tail + b, c);
      ButLastCons(head, pieces);
      Associates([head], ButLast(pieces), Split(Last(pieces) + b, c));
    } else {
      assert ButLast([a]) == [];
    }
  }

  lemma ButLastSnoc<T>(init: seq<T>, last: T)
    ensures ButLast(init + [last]) == init && Last(init + [last]) == last
  {
  }

  /** The same, with the pieces named. */
  lemma SplitResumes<T>(a: seq<T>, b: seq<T>, parts: seq<seq<T>>, piece: seq<T>, c: T)
    requires Split(a, c) == parts + [piece]
    ensures Split(a + b, c) == parts + Split(piece + b, c)
  {
    SplitConcat(a, b, c);
    ButLastSnoc(parts, piece);
  }

  /** A separator cuts a split in two. */
  lemma {:induction false} SplitAt<T>(a: seq<T>, b: seq<T>, c: T)
    ensures Split(a + [c] + b, c) == Split(a, c) + Split(b, c)
    decreases |a|
  {
    var head, tail := Uncons(a, c);
    if c in a {
      var rest := tail + [c] + b;
      assert a + [c] + b == head + [c] + rest;
      SplitCons(head, rest, c);
      SplitAt(tail, b, c);
      Associates([head], Split(tail, c), Split(b, c));
    } else {
      SplitCons(a, b, c);
    }
  }

  lemma Associates<T>(x: seq<T>, y: seq<T>, z: seq<T>)
    ensures x + (y + z) == (x + y) + z
  {
  }

  lemma ButLastCons<T>(head: T, more: seq<T>)
    requires |more| > 0
    ensures Last([head] + more) == Last(more)
    ensures ButLast([head] + more) == [head] + ButLast(more)
  {
  }

  lemma {:induction false} JoinConcat<T>(a: seq<seq<T>>, b: seq<seq<T>>, c: T)
    requires |a| >= 1 && |b| >= 1
    ensures Join(a + b, c) == Join(a, c) + [c] + Join(b, c)
  {
    if |a| == 1 {
      assert a + b == [a[0]] + b;
      JoinCons(a[0], b, c);
    } else {
      assert a + b == [a[0]] + (a[1..] + b) && a == [a[0]] + a[1..];
      JoinConcat(a[1..], b, c);
      JoinCons(a[0], a[1..] + b, c);
    }
  }

  lemma {:induction false} JoinLacks<T>(parts: seq<seq<T>>, c: T, x: T)
    requires x != c
    requires forall p :: p in parts ==> x !in p
    ensures x !in Join(parts, c)
  {
    if |parts| > 0 {
      assert parts[0] in parts;
      JoinLacks(parts[1..], c, x);
    }
  }

  /** The elements kept, in order. */
  function Filter<T>(s: seq<T>, keep: T -> bool): seq<T> {
    if s == [] then [] else (if keep(s[0]) then [s[0]] else []) + Filter(s[1..], keep)
  }

  lemma FilterCons<T>(x: T, s: seq<T>, keep: T -> bool)
    ensures Filter([x] + s, keep) == (if keep(x) then [x] else []) + Filter(s, keep)
  {
    assert ([x] + s)[1..] == s;
  }

  lemma {:induction false} FilterAppend<T>(a: seq<T>, b: seq<T>, keep: T -> bool)
    ensures Filter(a + b, keep) == Filter(a, keep) + Filter(b, keep)
  {
    if a == [] {
      assert a + b == b;
    } else {
      FilterAppend(a[1..], b, keep);
      assert a + b == [a[0]] + (a[1..] + b);
      FilterCons(a[0], a[1..] + b, keep);
      Associates(if keep(a[0]) then [a[0]] else [], Filter(a[1..], keep), Filter(b, keep));
    }
  }

  lemma {:induction false} FilterNone<T>(s: seq<T>, keep: T -> bool)
    requires forall i :: 0 <= i < |s| ==> !keep(s[i])
    ensures Filter(s, keep) == []
  {
    if s != [] {
      FilterNone(s[1..], keep);
    }
  }

  lemma FilterKeepsLast<T>(s: seq<T>, x: T, keep: T -> bool)
    requires keep(x)
    ensures Filter(s + [x], keep) == Filter(s, keep) + [x]
  {
    FilterAppend(s, [x], keep);
    assert [x][1..] == [];
  }

  lemma FilterDropsRest<T>(s: seq<T>, rest: seq<T>, keep: T -> bool)
    requires forall i :: 0 <= i < |rest| ==> !keep(rest[i])
    ensures Filter(s + rest, keep) == Filter(s, keep)
  {
    FilterAppend(s, rest, keep);
    FilterNone(rest, keep);
  }

  /** No two positions hold the same element. */
  ghost predicate NoDuplicates<T>(s: seq<T>) {
    forall i, j :: 0 <= i < j < |s| ==> s[i] != s[j]
  }

  lemma {:induction false} DistinctCount<T>(s: seq<T>, x: T)
    requires NoDuplicates(s)
    ensures multiset(s)[x] <= 1
  {
    if s != [] {
      assert s == s[..|s| - 1] + [s[|s| - 1]];
      DistinctCount(s[..|s| - 1], x);
      if x == s[|s| - 1] {
        assert x !in s[..|s| - 1];
      }
    }
  }

  /** A permutation of distinct elements is distinct. */
  lemma PermutationKeepsDistinct<T>(s: seq<T>, p: seq<T>)
    requires NoDuplicates(s) && multiset(s) == multiset(p)
    ensures NoDuplicates(p)
  {
    forall i, j | 0 <= i < j < |p| ensures p[i] != p[j] {
      assert p == p[..j] + p[j..];
      assert multiset(p)[p[i]] == multiset(p[..j])[p[i]] + multiset(p[j..])[p[i]];
      assert p[i] in p[..j] && p[j] in p[j..];
      DistinctCount(s, p[i]);
    }
  }

  lemma PermutationKeepsElements<T>(s: seq<T>, p: seq<T>)
    requires multiset(s) == multiset(p)
    ensures |s| == |p| && forall x :: x in s <==> x in p
  {
    assert |multiset(s)| == |s| && |multiset(p)| == |p|;
    assert forall x :: x in s <==> x in multiset(s);
    assert forall x :: x in p <==> x in multiset(p);
  }
}
