/** The interfaces that carry a default route, primary first, from the kernel's route table
    (internal/sysinfo/network.go). */
module Routes {
  import opened Options
  import opened Sequences
  import opened Text
  import Decimal

  datatype Route = Route(iface: string, metric: int)

  const MAX_INT: int := 0x7fff_ffff_ffff_ffff
  const MIN_INT: int := -0x8000_0000_0000_0000

  const MAX_UINT: nat := 0xffff_ffff_ffff_ffff

  /** How many digits s starts with. */
  function DigitCount(s: string): (n: nat)
    ensures n <= |s| && Decimal.AllDigits(s[..n]) && (n < |s| ==> !Decimal.IsDigit(s[n]))
  {
    if s == "" || !Decimal.IsDigit(s[0]) then 0 else 1 + DigitCount(s[1..])
  }

  function Clamped(n: int): int {
    if n > MAX_INT then MAX_INT else if n < MIN_INT then MIN_INT else n
  }

  /** The value strconv.Atoi returns on a 64-bit target, the error being ignored: the nearest
      bound for a number out of range, and 0 for text that is no number, unless the digits it
      starts with overflow 64 bits before the bad character is met. */
  function Atoi(s: string): int {
    var digits := if s != "" && (s[0] == '-' || s[0] == '+') then s[1..] else s;
    var n := Decimal.Value(digits[..DigitCount(digits)]);
    if digits == "" || (DigitCount(digits) < |digits| && n <= MAX_UINT) then 0
    else Clamped(if s[0] == '-' then 0 - n else n)
  }

  /** Numbers out of range give the nearest bound; a text that starts with no digit gives 0. */
  lemma AtoiBounds(n: nat)
    ensures n > 9_223_372_036_854_775_807 ==> Atoi(Decimal.Render(n)) == 9_223_372_036_854_775_807
    ensures Atoi("-" + Decimal.Render(n)) ==
      if n <= 9_223_372_036_854_775_808 then 0 - n else 0 - 9_223_372_036_854_775_808
    ensures Atoi("") == 0 && Atoi("x" + Decimal.Render(n)) == 0
  {
    var s := Decimal.Render(n);
    Decimal.RenderCanonical(n);
    assert Decimal.IsDigit(s[0]);
    DigitCountOfDigits(s);
    assert s[..|s|] == s && ("-" + s)[1..] == s;
    assert DigitCount("x" + s) == 0 && ("x" + s)[..0] == "";
  }

  lemma {:induction false} DigitCountOfDigits(s: string)
    requires Decimal.AllDigits(s)
    ensures DigitCount(s) == |s|
  {
    if s != "" {
      DigitCountOfDigits(s[1..]);
    }
  }

  /** A metric the kernel prints is read back. */
  lemma AtoiOfRendered(n: nat)
    requires n <= MAX_INT
    ensures Atoi(Decimal.Render(n)) == n
  {
    var s := Decimal.Render(n);
    Decimal.RenderCanonical(n);
    assert Decimal.IsDigit(s[0]);
    DigitCountOfDigits(s);
    assert s[..|s|] == s;
  }

  /** A line with destination 0.0.0.0, whatever its mask. */
  function ParseRoute(line: string): Option<Route> {
    var f := Fields(line);
    if |f| >= 7 && f[1] == "00000000" then Some(Route(f[0], Atoi(f[6]))) else None
  }

  /** The default routes of some lines, in table order. */
  function RoutesOf(lines: seq<string>): seq<Route> {
    if lines == [] then []
    else
      var before := RoutesOf(lines[..|lines| - 1]);
      match ParseRoute(lines[|lines| - 1])
      case None => before
      case Some(r) => before + [r]
  }

  /** The route table of a file, without its header line. */
  function TableOf(file: string): seq<Route> {
    RoutesOf(Split(file, '\n')[1..])
  }

  // ---- the table as the kernel writes it ----

  /** A row: the fields up to the metric by name, any further ones, and blanks behind. */
  datatype Line = Line(
    iface: string, destination: string, gateway: string, flags: string, refCount: string, uses: string,
    metric: nat, more: seq<string>, pad: string)

  function Words(r: Line): seq<string> {
    [r.iface, r.destination, r.gateway, r.flags, r.refCount, r.uses, Decimal.Render(r.metric)] + r.more
  }

  function LineText(r: Line): string {
    Join(Words(r), '\t') + r.pad
  }

  /** Fields without blanks in them, a metric a signed 64-bit integer can hold. */
  predicate Writable(r: Line) {
    && IsWord(r.iface) && IsWord(r.destination) && IsWord(r.gateway) && IsWord(r.flags)
    && IsWord(r.refCount) && IsWord(r.uses) && AllWords(r.more)
    && r.metric <= 9_223_372_036_854_775_807
    && AllSpace(r.pad) && '\n' !in r.pad
  }

  function LineTexts(rows: seq<Line>): (lines: seq<string>)
    ensures |lines| == |rows|
    ensures forall i :: 0 <= i < |rows| ==> lines[i] == LineText(rows[i])
  {
    if rows == [] then [] else LineTexts(ButLast(rows)) + [LineText(Last(rows))]
  }

  /** The rows to destination 0.0.0.0. */
  function Defaults(rows: seq<Line>): seq<Route> {
    if rows == [] then []
    else
      var r := Last(rows);
      Defaults(ButLast(rows)) + if r.destination == "00000000" then [Route(r.iface, r.metric)] else []
  }

  lemma NumberIsWord(n: nat)
    ensures IsWord(Decimal.Render(n))
  {
    var s := Decimal.Render(n);
    forall i | 0 <= i < |s| ensures !IsSpace(s[i]) {
      assert Decimal.IsDigit(s[i]);
    }
  }

  lemma WordsAreWords(r: Line)
    requires Writable(r)
    ensures AllWords(Words(r))
  {
    NumberIsWord(r.metric);
    forall w | w in Words(r) ensures IsWord(w) {
      if w !in r.more {
        assert w in Words(r)[..7];
      }
    }
  }

  lemma LineParses(r: Line)
    requires Writable(r)
    ensures ParseRoute(LineText(r)) == if r.destination == "00000000" then Some(Route(r.iface, r.metric)) else None
    ensures '\n' !in LineText(r)
  {
    WordsAreWords(r);
    assert IsSpace('\t');
    FieldsOfLine(Words(r), '\t', r.pad);
    AtoiOfRendered(r.metric);
    assert Words(r)[1] == r.destination && Words(r)[0] == r.iface && Words(r)[6] == Decimal.Render(r.metric);
    forall w | w in Words(r) ensures '\n' !in w {
      assert IsWord(w) && IsSpace('\n');
    }
    JoinLacks(Words(r), '\t', '\n');
  }

  /** The fields of a row stand in this order, with a tab between each two. */
  lemma LineSpelledOut(r: Line)
    ensures var known := r.iface + "\t" + r.destination + "\t" + r.gateway + "\t" + r.flags + "\t" + r.refCount
              + "\t" + r.uses + "\t" + Decimal.Render(r.metric);
            LineText(r) == (if r.more == [] then known else known + "\t" + Join(r.more, '\t')) + r.pad
  {
    var metric := Decimal.Render(r.metric);
    var known := [r.iface, r.destination, r.gateway, r.flags, r.refCount, r.uses, metric];
    assert known == [r.iface] + [r.destination, r.gateway, r.flags, r.refCount, r.uses, metric];
    if r.more == [] {
      assert Words(r) == known;
    } else {
      JoinConcat(known, r.more, '\t');
    }
    JoinCons(r.iface, [r.destination, r.gateway, r.flags, r.refCount, r.uses, metric], '\t');
    TabAfter(r.iface + "\t", r.destination, [r.gateway, r.flags, r.refCount, r.uses, metric]);
    TabAfter(r.iface + "\t" + r.destination + "\t", r.gateway, [r.flags, r.refCount, r.uses, metric]);
    var front := r.iface + "\t" + r.destination + "\t" + r.gateway + "\t";
    TabAfter(front, r.flags, [r.refCount, r.uses, metric]);
    TabAfter(front + r.flags + "\t", r.refCount, [r.uses, metric]);
    TabAfter(front + r.flags + "\t" + r.refCount + "\t", r.uses, [metric]);
  }

  lemma TabAfter(front: string, head: string, parts: seq<string>)
    requires |parts| >= 1
    ensures front + Join([head] + parts, '\t') == front + head + "\t" + Join(parts, '\t')
  {
    JoinAfter(front, head, parts, '\t');
  }

  lemma RoutesSnoc(lines: seq<string>, line: string)
    ensures RoutesOf(lines + [line]) ==
      RoutesOf(lines) + match ParseRoute(line) { case None => [] case Some(r) => [r] }
  {
    assert (lines + [line])[..|lines|] == lines;
  }

  lemma {:induction false} RoutesOfLines(rows: seq<Line>)
    requires forall i :: 0 <= i < |rows| ==> Writable(rows[i])
    ensures RoutesOf(LineTexts(rows)) == Defaults(rows)
  {
    if rows != [] {
      RoutesOfLines(ButLast(rows));
      LineParses(Last(rows));
      RoutesSnoc(LineTexts(ButLast(rows)), LineText(Last(rows)));
    }
  }

  lemma NothingBehind(lines: seq<string>)
    ensures RoutesOf(lines + [""]) == RoutesOf(lines)
  {
    RoutesSnoc(lines, "");
  }

  /** A header line and the rows below it: what is listed are exactly the rows whose destination
      is 0.0.0.0, with their interface and metric, in order. */
  lemma TableOfFile(header: string, rows: seq<Line>)
    requires '\n' !in header && forall i :: 0 <= i < |rows| ==> Writable(rows[i])
    ensures TableOf(header + "\n" + FileOf(LineTexts(rows))) == Defaults(rows)
  {
    forall i | 0 <= i < |rows| ensures '\n' !in LineTexts(rows)[i] {
      LineParses(rows[i]);
    }
    FileLines(LineTexts(rows));
    OneLineMore(header, FileOf(LineTexts(rows)), LineTexts(rows) + [""]);
    assert ([header] + (LineTexts(rows) + [""]))[1..] == LineTexts(rows) + [""];
    NothingBehind(LineTexts(rows));
    RoutesOfLines(rows);
  }

  // ---- order ----

  /** Row i comes before row j: smaller metric, or the same metric and earlier in the table. */
  predicate Before(rows: seq<Route>, i: nat, j: nat)
    requires i < |rows| && j < |rows|
  {
    rows[i].metric < rows[j].metric || (rows[i].metric == rows[j].metric && i < j)
  }

  /** Row i is the best row of its interface. */
  ghost predicate IsBest(rows: seq<Route>, i: nat) {
    i < |rows| && forall j :: 0 <= j < |rows| && rows[j].iface == rows[i].iface && j != i ==> Before(rows, i, j)
  }

  ghost predicate Indices(rows: seq<Route>, at: seq<nat>) {
    forall n :: 0 <= n < |at| ==> at[n] < |rows|
  }

  ghost predicate Ascending(rows: seq<Route>, at: seq<nat>) {
    Indices(rows, at) && forall m, n :: 0 <= m < n < |at| ==> Before(rows, at[m], at[n])
  }

  /** out names each interface of the table once, at[n] being the best row of out[n], from the
      best row on. */
  ghost predicate Ranks(rows: seq<Route>, out: seq<string>, at: seq<nat>) {
    && |at| == |out| && Ascending(rows, at)
    && (forall n :: 0 <= n < |out| ==> rows[at[n]].iface == out[n] && IsBest(rows, at[n]))
    && (forall i :: 0 <= i < |rows| ==> rows[i].iface in out)
  }

  /** The rows of `sorted` are those of `rows` at `from`, in ascending order. */
  ghost predicate SortedFrom(rows: seq<Route>, sorted: seq<Route>, from: seq<nat>) {
    && |from| == |sorted| == |rows| && Ascending(rows, from)
    && (forall n :: 0 <= n < |sorted| ==> sorted[n] == rows[from[n]])
    && (forall i :: 0 <= i < |rows| ==> i in from)
  }

  /** One insertion of a stable sort: behind every row whose metric is not greater. */
  method Insert(rows: seq<Route>, sorted: seq<Route>, row: Route) returns (out: seq<Route>)
    requires exists from :: SortedFrom(rows, sorted, from)
    ensures exists from :: SortedFrom(rows + [row], out, from)
  {
    ghost var from :| SortedFrom(rows, sorted, from);
    var k := |sorted|;
    while k > 0 && sorted[k - 1].metric > row.metric
      invariant 0 <= k <= |sorted| && forall n :: k <= n < |sorted| ==> sorted[n].metric > row.metric
    {
      k := k - 1;
    }
    out := sorted[..k] + [row] + sorted[k..];
    Inserted(rows, sorted, from, row, k);
  }

  lemma Inserted(rows: seq<Route>, sorted: seq<Route>, from: seq<nat>, row: Route, k: nat)
    requires SortedFrom(rows, sorted, from) && k <= |sorted|
    requires forall n :: k <= n < |sorted| ==> sorted[n].metric > row.metric
    requires k > 0 ==> sorted[k - 1].metric <= row.metric
    ensures SortedFrom(rows + [row], sorted[..k] + [row] + sorted[k..], from[..k] + [|rows|] + from[k..])
  {
    forall n | 0 <= n < k ensures rows[from[n]].metric <= row.metric {
      assert n < k - 1 ==> Before(rows, from[n], from[k - 1]);
    }
    InsertedAscends(rows, from, row, k);
    InsertedCovers(rows, from, k);
    var all := rows + [row];
    assert forall n :: 0 <= n < |from| ==> all[from[n]] == rows[from[n]];
  }

  lemma InsertedAscends(rows: seq<Route>, from: seq<nat>, row: Route, k: nat)
    requires Ascending(rows, from) && k <= |from|
    requires forall n :: k <= n < |from| ==> rows[from[n]].metric > row.metric
    requires forall n :: 0 <= n < k ==> rows[from[n]].metric <= row.metric
    ensures Ascending(rows + [row], from[..k] + [|rows|] + from[k..])
  {
    var all := rows + [row];
    var at := from[..k] + [|rows|] + from[k..];
    assert forall n :: 0 <= n < k ==> at[n] == from[n];
    assert forall n :: k < n < |at| ==> at[n] == from[n - 1];
    forall m, n | 0 <= m < n < |at| ensures Before(all, at[m], at[n]) {
      if m != k && n != k {
        assert Before(rows, from[if m < k then m else m - 1], from[if n < k then n else n - 1]);
      }
    }
  }

  lemma InsertedCovers(rows: seq<Route>, from: seq<nat>, k: nat)
    requires k <= |from| && forall i :: 0 <= i < |rows| ==> i in from
    ensures forall i :: 0 <= i <= |rows| ==> i in from[..k] + [|rows|] + from[k..]
  {
    var at := from[..k] + [|rows|] + from[k..];
    assert at[k] == |rows|;
    forall i | 0 <= i < |rows| ensures i in at {
      assert i in from;
      var n :| 0 <= n < |from| && from[n] == i;
      assert at[if n < k then n else n + 1] == i;
    }
  }

  /** sort.SliceStable by metric. */
  method SortStable(rows: seq<Route>) returns (sorted: seq<Route>)
    ensures exists from :: SortedFrom(rows, sorted, from)
  {
    sorted := [];
    assert SortedFrom(rows[..0], sorted, []);
    for i := 0 to |rows|
      invariant exists from :: SortedFrom(rows[..i], sorted, from)
    {
      assert rows[..i + 1] == rows[..i] + [rows[i]];
      sorted := Insert(rows[..i], sorted, rows[i]);
    }
    assert rows[..|rows|] == rows;
  }

  /** The first row of each interface in a sorted table is its best row. */
  lemma FirstIsBest(rows: seq<Route>, sorted: seq<Route>, from: seq<nat>, p: nat)
    requires SortedFrom(rows, sorted, from) && p < |sorted|
    requires forall q :: 0 <= q < p ==> sorted[q].iface != sorted[p].iface
    ensures IsBest(rows, from[p])
  {
    forall j | 0 <= j < |rows| && rows[j].iface == rows[from[p]].iface && j != from[p]
      ensures Before(rows, from[p], j)
    {
      assert j in from;
      var q :| 0 <= q < |from| && from[q] == j;
      assert sorted[q].iface == sorted[p].iface;
    }
  }

  method CollectRoutes(file: string) returns (rows: seq<Route>)
    ensures rows == TableOf(file)
  {
    rows := [];
    var lines := Split(file, '\n');
    for i := 1 to |lines|
      invariant rows == RoutesOf(lines[1..i])
    {
      assert lines[1..i + 1][..i - 1] == lines[1..i];
      var f := Fields(lines[i]);
      if |f| >= 7 && f[1] == "00000000" {
        rows := rows + [Route(f[0], Atoi(f[6]))];
      }
    }
    assert lines[1..|lines|] == lines[1..];
  }

  /** DefaultRoutes on the text of /proc/net/route: every interface with a default route, once,
      by its least metric, equal metrics in table order. */
  method DefaultRoutes(file: string) returns (out: seq<string>)
    ensures (exists at :: Ranks(TableOf(file), out, at)) && NoDuplicates(out)
  {
    var rows := CollectRoutes(file);
    var sorted := SortStable(rows);
    ghost var from :| SortedFrom(rows, sorted, from);
    out := [];
    var seen: set<string> := {};
    ghost var firsts: seq<nat> := [];  // where in `sorted` each name of `out` comes from
    for i := 0 to |sorted|
      invariant forall x :: x in seen <==> x in out
      invariant Firsts(sorted, i, out, firsts)
    {
      var r := sorted[i];
      FirstsNext(sorted, i, out, firsts);
      if r.iface !in seen {
        seen := seen + {r.iface};
        out, firsts := out + [r.iface], firsts + [i];
      }
    }
    FirstsRank(rows, sorted, from, out, firsts);
  }

  /** After i rows, out lists the interfaces seen, each with the position where it was first
      seen. */
  ghost predicate Firsts(sorted: seq<Route>, i: nat, out: seq<string>, firsts: seq<nat>) {
    && |firsts| == |out| && i <= |sorted|
    && (forall n :: 0 <= n < |out| ==>
          && firsts[n] < i && sorted[firsts[n]].iface == out[n]
          && (forall q :: 0 <= q < firsts[n] ==> sorted[q].iface != out[n]))
    && (forall m, n :: 0 <= m < n < |out| ==> firsts[m] < firsts[n])
    && (forall q :: 0 <= q < i ==> sorted[q].iface in out)
  }

  lemma FirstsNext(sorted: seq<Route>, i: nat, out: seq<string>, firsts: seq<nat>)
    requires Firsts(sorted, i, out, firsts) && i < |sorted|
    ensures sorted[i].iface in out ==> Firsts(sorted, i + 1, out, firsts)
    ensures sorted[i].iface !in out ==> Firsts(sorted, i + 1, out + [sorted[i].iface], firsts + [i])
  {
    if sorted[i].iface !in out {
      forall q | 0 <= q < i ensures sorted[q].iface != sorted[i].iface {
        assert sorted[q].iface in out;
      }
    }
  }

  lemma FirstsRank(rows: seq<Route>, sorted: seq<Route>, from: seq<nat>, out: seq<string>, firsts: seq<nat>)
    requires SortedFrom(rows, sorted, from) && Firsts(sorted, |sorted|, out, firsts)
    ensures (exists at :: Ranks(rows, out, at)) && NoDuplicates(out)
  {
    var at := seq(|firsts|, n requires 0 <= n < |firsts| => from[firsts[n]]);
    forall n | 0 <= n < |out| ensures IsBest(rows, at[n]) {
      FirstIsBest(rows, sorted, from, firsts[n]);
    }
    forall i | 0 <= i < |rows| ensures rows[i].iface in out {
      assert i in from;
      var q :| 0 <= q < |from| && from[q] == i;
      assert sorted[q].iface in out;
    }
    assert Ranks(rows, out, at);
    forall m, n | 0 <= m < n < |out| ensures out[m] != out[n] {
      assert firsts[m] < firsts[n];
    }
  }

  /** The primary interface carries a default route of least metric. */
  lemma PrimaryHasLeastMetric(rows: seq<Route>, out: seq<string>, at: seq<nat>, i: nat)
    requires Ranks(rows, out, at) && i < |rows|
    ensures |out| > 0 && rows[at[0]].iface == out[0] && rows[at[0]].metric <= rows[i].metric
  {
    assert rows[i].iface in out;
    var n :| 0 <= n < |out| && out[n] == rows[i].iface;
    if n > 0 {
      assert Before(rows, at[0], at[n]);
    }
    if at[n] != i {
      assert IsBest(rows, at[n]) && Before(rows, at[n], i);
    }
  }
}
