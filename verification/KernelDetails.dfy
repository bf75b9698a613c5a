/** What the dashboard shows of the kernel banner: the compiler, the linker and the build line
    inside the groups that KernelBanner takes apart (internal/hal/kernel.go). */
module KernelDetails {
  import opened Sequences
  import opened Text
  import opened KernelBanner

  // ---- compiler and linker ----

  datatype Tools = Tools(triple: string, arch: string, compiler: string, linker: string)

  function TrimSuffix(s: string, suffix: string): string {
    if |suffix| <= |s| && s[|s| - |suffix|..] == suffix then s[..|s| - |suffix|] else s
  }

  /** strings.Cut. */
  function Cut(s: string, sep: string): (string, string) {
    var i := IndexOfSub(s, sep);
    if i < 0 then (s, "") else (s[..i], s[i + |sep|..])
  }

  /** The first three components of a dotted version. */
  function ShortVersion(v: string): string {
    var parts := Split(v, '.');
    if |parts| > 3 then Join(parts[..3], '.') else v
  }

  /** The part of a triple before its first dash; `otherwise` when there is none. */
  function ArchOf(prefix: string, otherwise: string): string {
    if IndexOf(prefix, '-') > 0 then prefix[..IndexOf(prefix, '-')] else otherwise
  }

  /** The compiler's program without its last part. */
  function TripleOf(program: string): string {
    TrimSuffix(TrimSuffix(program, "-gcc"), "-g++")
  }

  const OPENING := " ("

  /** The compiler's name and version, from the group behind its program. */
  ghost predicate CompilerFrom(rest: string, name: string, version: string, compiler: string) {
    FirstGroup(rest, name, version) && compiler == TrimSpace(name + " " + TrimSpace(version))
  }

  /** The linker's program and short version, from the group behind it. */
  ghost predicate LinkerFrom(program: string, rest: string, note: string, version: string, linker: string) {
    FirstGroup(rest, note, version) && linker == TrimSpace(program + " " + ShortVersion(TrimSpace(version)))
  }

  ghost predicate NamesCompiler(cc: string, goarch: string, t: Tools) {
    var i := IndexOfSub(cc, OPENING);
    if i > 0 then
      && t.triple == TripleOf(cc[..i])
      && t.arch == ArchOf(cc[..i], goarch)
      && exists name, version :: CompilerFrom(cc[i..], name, version, t.compiler)
    else
      t.triple == "" && t.arch == goarch && t.compiler == cc
  }

  ghost predicate NamesLinker(ld: string, linker: string) {
    var i := IndexOfSub(ld, OPENING);
    if i > 0 then
      exists note, version :: LinkerFrom(ld[..i], ld[i..], note, version, linker)
    else
      linker == ld
  }

  ghost predicate NamesTools(comp: string, goarch: string, t: Tools) {
    var (cc, ld) := Cut(comp, ", ");
    NamesCompiler(cc, goarch, t) && NamesLinker(ld, t.linker)
  }

  /** parseCompiler. */
  method ParseCompiler(comp: string, goarch: string) returns (t: Tools)
    ensures NamesTools(comp, goarch, t)
  {
    t := Tools("", goarch, "", "");
    var (cc, ld) := Cut(comp, ", ");
    var i := IndexOfSub(cc, OPENING);
    if i > 0 {
      var prefix := cc[..i];
      t := t.(triple := TripleOf(prefix));
      var d := IndexOf(prefix, '-');
      if d > 0 {
        t := t.(arch := prefix[..d]);
      }
      var name, version := FirstParen(cc[i..]);
      t := t.(compiler := TrimSpace(name + " " + TrimSpace(version)));
      assert CompilerFrom(cc[i..], name, version, t.compiler);
    } else if cc != "" {
      t := t.(compiler := cc);
    }
    if ld != "" {
      i := IndexOfSub(ld, OPENING);
      if i > 0 {
        var note, version := FirstParen(ld[i..]);
        t := t.(linker := TrimSpace(ld[..i] + " " + ShortVersion(TrimSpace(version))));
        assert LinkerFrom(ld[..i], ld[i..], note, version, t.linker);
      } else {
        t := t.(linker := ld);
      }
    }
  }

  // ---- the build line ----

  datatype Build = Build(build: string, smp: bool, preempt: string, date: string)

  const WEEKDAYS := {"Mon", "Tue", "Wed", "Thu", "Fri", "Sat", "Sun"}

  /** Where the date starts; the number of fields when there is none. */
  function FirstWeekday(fields: seq<string>): (w: nat)
    ensures w <= |fields|
    ensures forall i :: 0 <= i < w ==> fields[i] !in WEEKDAYS
    ensures w < |fields| ==> fields[w] in WEEKDAYS
  {
    if fields == [] || fields[0] in WEEKDAYS then 0 else 1 + FirstWeekday(fields[1..])
  }

  lemma FirstWeekdayIs(fields: seq<string>, w: nat)
    requires w <= |fields| && (w < |fields| ==> fields[w] in WEEKDAYS)
    requires forall i :: 0 <= i < w ==> fields[i] !in WEEKDAYS
    ensures FirstWeekday(fields) == w
  {
  }

  predicate IsPreempt(f: string) {
    "PREEMPT" <= f
  }

  /** The last preemption flag; empty when there is none. */
  function LastPreempt(fields: seq<string>): string {
    if fields == [] then ""
    else if IsPreempt(Last(fields)) then Last(fields)
    else LastPreempt(ButLast(fields))
  }

  /** The build number in front, the flags up to the first weekday, and the date from there on. */
  function BuildOf(fields: seq<string>, format: string -> string): Build {
    var w := FirstWeekday(fields);
    Build(if w > 0 && "#" <= fields[0] then fields[0] else "",
          "SMP" in fields[..w],
          LastPreempt(fields[..w]),
          if w < |fields| then format(Join(fields[w..], ' ')) else "")
  }

  /** What the loop has gathered from the fields before the date. */
  function Gathered(fields: seq<string>): Build {
    Build(if fields != [] && "#" <= fields[0] then fields[0] else "", "SMP" in fields, LastPreempt(fields), "")
  }

  /** One more field, as the switch of parseTail takes it. */
  lemma GatheredSnoc(before: seq<string>, f: string)
    ensures Gathered(before + [f]) ==
      if before == [] && "#" <= f then Gathered(before).(build := f)
      else if f == "SMP" then Gathered(before).(smp := true)
      else if IsPreempt(f) then Gathered(before).(preempt := f)
      else Gathered(before)
  {
    ButLastSnoc(before, f);
    if before == [] {
      assert before + [f] == [f];
      if "#" <= f {
        assert f[0] == '#';
      }
    }
  }

  /** Build number, preemption flag and the mark of a multiprocessor kernel are no weekdays. */
  lemma NotAWeekday(f: string)
    requires "#" <= f || IsPreempt(f) || f == "SMP"
    ensures f !in WEEKDAYS
  {
    assert f[0] == '#' || f[0] == 'P' || f[1] == 'M';
  }

  lemma GatheredNext(fields: seq<string>, i: nat)
    requires i < |fields|
    ensures Gathered(fields[..i + 1]) ==
      if i == 0 && "#" <= fields[i] then Gathered(fields[..i]).(build := fields[i])
      else if fields[i] == "SMP" then Gathered(fields[..i]).(smp := true)
      else if IsPreempt(fields[i]) then Gathered(fields[..i]).(preempt := fields[i])
      else Gathered(fields[..i])
    ensures (i == 0 && "#" <= fields[i]) || fields[i] == "SMP" || IsPreempt(fields[i]) ==> fields[i] !in WEEKDAYS
  {
    assert fields[..i + 1] == fields[..i] + [fields[i]];
    GatheredSnoc(fields[..i], fields[i]);
    if "#" <= fields[i] || IsPreempt(fields[i]) || fields[i] == "SMP" {
      NotAWeekday(fields[i]);
    }
  }

  lemma BuildEnds(fields: seq<string>, w: nat, format: string -> string)
    requires w == FirstWeekday(fields)
    ensures BuildOf(fields, format) ==
      Gathered(fields[..w]).(date := if w < |fields| then format(Join(fields[w..], ' ')) else "")
  {
  }

  /** parseTail; how a date is shown is a parameter. */
  method ParseTail(t: string, format: string -> string) returns (b: Build)
    ensures b == BuildOf(Fields(t), format)
  {
    var fields := Fields(t);
    b := Build("", false, "", "");
    for i := 0 to |fields|
      invariant b == Gathered(fields[..i]) && i <= FirstWeekday(fields)
    {
      var f := fields[i];
      GatheredNext(fields, i);
      if i == 0 && "#" <= f {
        b := b.(build := f);
      } else if f == "SMP" {
        b := b.(smp := true);
      } else if IsPreempt(f) {
        b := b.(preempt := f);
      } else if f in WEEKDAYS {
        BuildEnds(fields, i, format);
        b := b.(date := format(Join(fields[i..], ' ')));
        return;
      }
    }
    BuildEnds(fields, |fields|, format);
  }

  // ---- the whole banner ----

  datatype Info = Info(release: string, builder: string, tools: Tools, build: Build)

  ghost predicate ShowsParts(k: Parts, goarch: string, format: string -> string, info: Info) {
    && info.release == k.release && info.builder == k.builder
    && NamesTools(k.compiler, goarch, info.tools)
    && info.build == BuildOf(Fields(TrimSpace(k.tail)), format)
  }

  /** What is shown of the text of /proc/version. */
  ghost predicate ShowsKernel(file: string, goarch: string, format: string -> string, info: Info) {
    var raw := TrimSpace(file);
    if raw == "" then info == Info("", "", Tools("", goarch, "", ""), Build("", false, "", ""))
    else exists k :: ParsesTo(raw, k) && ShowsParts(k, goarch, format, info)
  }

  /** Kernel, on the text of /proc/version. */
  method Kernel(file: string, goarch: string, format: string -> string) returns (info: Info)
    ensures ShowsKernel(file, goarch, format, info)
  {
    var raw := TrimSpace(file);
    if raw == "" {
      return Info("", "", Tools("", goarch, "", ""), Build("", false, "", ""));
    }
    var k := TakeApart(raw);
    var tools := ParseCompiler(k.compiler, goarch);
    var build := ParseTail(TrimSpace(k.tail), format);
    info := Info(k.release, k.builder, tools, build);
    assert ShowsParts(k, goarch, format, info);
  }

  // ---- banners as the kernel build writes them ----

  /** "a (x) b" */
  function Grouped(a: string, x: string, b: string): string {
    a + (OPENING + x + ")" + (" " + b))
  }

  /** What a kernel was built with. */
  datatype Toolchain = Toolchain(
    triple: string, name: string, version: string, linker: string, note: string, linkerVersion: string)

  function CompilerText(c: Toolchain): string {
    Grouped(c.triple + "-gcc", c.name, c.version)
  }

  function LinkerText(c: Toolchain): string {
    Grouped(c.linker, c.note, c.linkerVersion)
  }

  function ToolsText(c: Toolchain): string {
    CompilerText(c) + ", " + LinkerText(c)
  }

  /** Neither parenthesis occurs. */
  predicate NoParens(s: string) {
    '(' !in s && ')' !in s
  }

  ghost predicate WellFormed(c: Toolchain) {
    && IsWord(c.triple) && c.triple[0] != '-' && NoParens(c.triple) && TrimSuffix(c.triple, "-g++") == c.triple
    && Balanced(c.name) && c.name != "" && !IsSpace(c.name[0])
    && IsTrimmed(c.version) && Balanced(c.version)
    && ',' !in c.triple && ',' !in c.name && ',' !in c.version
    && IsTrimmed(c.linker) && NoParens(c.linker)
    && Balanced(c.note) && IsWord(c.linkerVersion) && Balanced(c.linkerVersion)
  }

  function ToolsOf(c: Toolchain): Tools {
    Tools(c.triple, ArchOf(c.triple, c.triple), c.name + " " + c.version,
          c.linker + " " + ShortVersion(c.linkerVersion))
  }

  /** A separator is first met where its first character is. */
  lemma FirstAfter(a: string, sep: string, b: string)
    requires sep != "" && sep[0] !in a
    ensures IndexOfSub(a + sep + b, sep) == |a|
  {
    var s := a + sep + b;
    assert s[|a|..|a| + |sep|] == sep;
    forall j | 0 <= j < |a| ensures !MatchAt(s, j, sep) {
      assert s[j] == a[j];
      assert j + |sep| <= |s| ==> s[j..j + |sep|][0] == s[j];
    }
    IndexOfSubIsFirst(s, sep, |a|);
  }

  /** An opening after a text without parentheses is the first one. */
  lemma FirstOpening(a: string, b: string)
    requires NoParens(a)
    ensures IndexOfSub(a + (OPENING + b), OPENING) == |a|
  {
    var s := a + (OPENING + b);
    assert s[|a|..|a| + 2] == OPENING;
    forall j | 0 <= j < |a| ensures !MatchAt(s, j, OPENING) {
      assert s[j + 1] == if j + 1 < |a| then a[j + 1] else ' ';
      assert s[j..j + 2][1] == s[j + 1];
    }
    IndexOfSubIsFirst(s, OPENING, |a|);
  }

  /** A grouped text splits at its opening, and its group and rest are what was put there. */
  lemma GroupedParts(a: string, x: string, b: string)
    requires NoParens(a) && Balanced(x) && IsTrimmed(b)
    ensures IndexOfSub(Grouped(a, x, b), OPENING) == |a|
    ensures Grouped(a, x, b)[..|a|] == a
    ensures FirstGroup(Grouped(a, x, b)[|a|..], x, " " + b)
    ensures TrimSpace(" " + b) == b
  {
    var tail := x + ")" + (" " + b);
    assert Grouped(a, x, b) == a + (OPENING + tail);
    FirstOpening(a, tail);
    assert Grouped(a, x, b)[|a|..] == OPENING + x + ")" + (" " + b);
    GroupBehind(" ", OPENING, x, " " + b);
    TrimOfPadded(" ", b, "");
    assert " " + b + "" == " " + b;
  }

  lemma GroupedIsBalanced(a: string, x: string, b: string)
    requires NoParens(a) && Balanced(x) && Balanced(b)
    ensures Balanced(Grouped(a, x, b))
  {
    var group := "(" + x + ")";
    PlainIsBalanced(a + " ");
    GroupIsBalanced(x);
    PlainIsBalanced(" ");
    BalancedConcat(" ", b);
    BalancedConcat(a + " ", group);
    BalancedConcat((a + " ") + group, " " + b);
    assert Grouped(a, x, b) == ((a + " ") + group) + (" " + b);
  }

  lemma ToolsTextIsBalanced(c: Toolchain)
    requires WellFormed(c)
    ensures Balanced(ToolsText(c))
  {
    GroupedIsBalanced(c.triple + "-gcc", c.name, c.version);
    GroupedIsBalanced(c.linker, c.note, c.linkerVersion);
    PlainIsBalanced(", ");
    BalancedConcat(CompilerText(c), ", ");
    BalancedConcat(CompilerText(c) + ", ", LinkerText(c));
  }

  lemma ArchOfTriple(triple: string, goarch: string)
    requires triple != "" && triple[0] != '-'
    ensures ArchOf(triple + "-gcc", goarch) == ArchOf(triple, triple)
  {
    var i := IndexOf(triple, '-');
    var prefix := triple + "-gcc";
    if i >= 0 {
      assert prefix[..i] == triple[..i];
      IndexOfIsFirst(prefix, '-', i);
    } else {
      assert prefix[..|triple|] == triple;
      IndexOfIsFirst(prefix, '-', |triple|);
    }
  }

  lemma TripleOfPrefix(triple: string)
    requires TrimSuffix(triple, "-g++") == triple
    ensures TripleOf(triple + "-gcc") == triple
  {
    assert (triple + "-gcc")[|triple|..] == "-gcc";
    assert (triple + "-gcc")[..|triple|] == triple;
  }

  lemma TrimmedStays(t: string)
    requires IsTrimmed(t)
    ensures TrimSpace(t) == t
  {
    TrimOfPadded("", t, "");
    assert "" + t + "" == t;
  }

  lemma OnlyCompiler(rest: string, name: string, version: string, compiler: string)
    requires FirstGroup(rest, name, " " + version) && TrimSpace(" " + version) == version
    requires TrimSpace(name + " " + version) == name + " " + version
    ensures (exists n, v :: CompilerFrom(rest, n, v, compiler)) <==> compiler == name + " " + version
  {
    if compiler == name + " " + version {
      assert CompilerFrom(rest, name, " " + version, compiler);
    }
    if n, v :| CompilerFrom(rest, n, v, compiler) {
      FirstGroupUnique(rest, name, " " + version, n, v);
    }
  }

  lemma OnlyLinker(program: string, rest: string, note: string, version: string, linker: string)
    requires FirstGroup(rest, note, " " + version) && TrimSpace(" " + version) == version
    requires TrimSpace(program + " " + ShortVersion(version)) == program + " " + ShortVersion(version)
    ensures (exists n, v :: LinkerFrom(program, rest, n, v, linker))
      <==> linker == program + " " + ShortVersion(version)
  {
    if linker == program + " " + ShortVersion(version) {
      assert LinkerFrom(program, rest, note, " " + version, linker);
    }
    if n, v :| LinkerFrom(program, rest, n, v, linker) {
      FirstGroupUnique(rest, note, " " + version, n, v);
    }
  }

  lemma PrefixHasNoParens(triple: string)
    requires NoParens(triple)
    ensures NoParens(triple + "-gcc")
  {
  }

  lemma PairStays(a: string, b: string)
    requires a != "" && !IsSpace(a[0]) && IsTrimmed(b)
    ensures TrimSpace(a + " " + b) == a + " " + b
  {
    TrimmedStays(a + " " + b);
  }

  lemma CompilerNamed(cc: string, prefix: string, name: string, version: string, goarch: string, t: Tools)
    requires prefix != "" && IndexOfSub(cc, OPENING) == |prefix| <= |cc| && cc[..|prefix|] == prefix
    requires FirstGroup(cc[|prefix|..], name, " " + version) && TrimSpace(" " + version) == version
    requires TrimSpace(name + " " + version) == name + " " + version
    ensures NamesCompiler(cc, goarch, t) <==>
      && t.triple == TripleOf(prefix)
      && t.arch == ArchOf(prefix, goarch) && t.compiler == name + " " + version
  {
    OnlyCompiler(cc[|prefix|..], name, version, t.compiler);
  }

  lemma RenderedCompiler(c: Toolchain, goarch: string, t: Tools)
    requires IsWord(c.triple) && c.triple[0] != '-' && NoParens(c.triple)
    requires TrimSuffix(c.triple, "-g++") == c.triple
    requires Balanced(c.name) && c.name != "" && !IsSpace(c.name[0]) && IsTrimmed(c.version)
    ensures NamesCompiler(CompilerText(c), goarch, t) <==>
      t.triple == c.triple && t.arch == ArchOf(c.triple, c.triple) && t.compiler == c.name + " " + c.version
  {
    PrefixHasNoParens(c.triple);
    GroupedParts(c.triple + "-gcc", c.name, c.version);
    TripleOfPrefix(c.triple);
    ArchOfTriple(c.triple, goarch);
    PairStays(c.name, c.version);
    CompilerNamed(CompilerText(c), c.triple + "-gcc", c.name, c.version, goarch, t);
  }

  /** A shortened version is a beginning of the version. */
  lemma ShortIsWord(v: string)
    requires IsWord(v)
    ensures IsWord(ShortVersion(v))
  {
    var parts := Split(v, '.');
    if |parts| > 3 {
      SplitSound(v, '.');
      JoinConcat(parts[..3], parts[3..], '.');
      assert parts == parts[..3] + parts[3..];
      var short := Join(parts[..3], '.');
      assert short + ['.'] + Join(parts[3..], '.') == v;
      assert forall i :: 0 <= i < |short| ==> short[i] == v[i];
      JoinCons(parts[0], parts[1..3], '.');
      assert parts[..3] == [parts[0]] + parts[1..3];
    }
  }

  lemma WordIsTrimmed(w: string)
    requires IsWord(w)
    ensures IsTrimmed(w)
  {
  }

  lemma RenderedLinker(c: Toolchain, linker: string)
    requires IsTrimmed(c.linker) && NoParens(c.linker) && Balanced(c.note) && IsWord(c.linkerVersion)
    ensures NamesLinker(LinkerText(c), linker) <==> linker == c.linker + " " + ShortVersion(c.linkerVersion)
  {
    WordIsTrimmed(c.linkerVersion);
    GroupedParts(c.linker, c.note, c.linkerVersion);
    ShortIsWord(c.linkerVersion);
    WordIsTrimmed(ShortVersion(c.linkerVersion));
    PairStays(c.linker, ShortVersion(c.linkerVersion));
    OnlyLinker(c.linker, LinkerText(c)[|c.linker|..], c.note, c.linkerVersion, linker);
  }

  /** The compiler group gives back triple, architecture, compiler and linker, and only them. */
  lemma RenderedTools(c: Toolchain, goarch: string, t: Tools)
    requires WellFormed(c)
    ensures NamesTools(ToolsText(c), goarch, t) <==> t == ToolsOf(c)
  {
    FirstAfter(CompilerText(c), ", ", LinkerText(c));
    assert ToolsText(c)[..|CompilerText(c)|] == CompilerText(c);
    assert ToolsText(c)[|CompilerText(c)| + 2..] == LinkerText(c);
    RenderedCompiler(c, goarch, t);
    RenderedLinker(c, t.linker);
  }

  // ---- the build line back ----

  lemma {:induction false} LastPreemptCons(f: string, fields: seq<string>)
    requires !IsPreempt(f)
    ensures LastPreempt([f] + fields) == LastPreempt(fields)
  {
    if fields == [] {
      assert ButLast([f]) == [];
      assert [f] + fields == [f];
    } else {
      ButLastCons(f, fields);
      LastPreemptCons(f, ButLast(fields));
    }
  }

  /** Number, flags and date come back from the line made of them. */
  lemma RenderedBuild(number: string, flags: seq<string>, date: seq<string>, format: string -> string)
    requires "#" <= number && (forall f :: f in flags ==> f !in WEEKDAYS)
    requires date != [] ==> date[0] in WEEKDAYS
    ensures BuildOf([number] + flags + date, format)
         == Build(number, "SMP" in flags, LastPreempt(flags), if date == [] then "" else format(Join(date, ' ')))
  {
    var front := [number] + flags;
    var fields := front + date;
    assert number[0] == '#';
    NotAWeekday(number);
    forall i | 0 <= i < |front| ensures fields[i] !in WEEKDAYS {
      assert fields[i] == if i == 0 then number else flags[i - 1];
    }
    FirstWeekdayIs(fields, |front|);
    assert fields[..|front|] == front && fields[|front|..] == date;
    LastPreemptCons(number, flags);
  }

  // ---- the whole banner back ----

  /** All that a kernel build puts into its banner. */
  datatype Banner = Banner(
    release: string, builder: string, tools: Toolchain, number: string, flags: seq<string>, date: seq<string>)

  function BuildWords(b: Banner): seq<string> {
    [b.number] + b.flags + b.date
  }

  function PartsOf(b: Banner): Parts {
    Parts(b.release, b.builder, ToolsText(b.tools), " " + Join(BuildWords(b), ' '))
  }

  /** The text of /proc/version. */
  function BannerFile(b: Banner): string {
    KernelBanner.Render(PartsOf(b)) + "\n"
  }

  ghost predicate Writable(b: Banner) {
    && ' ' !in b.release && Balanced(b.builder) && WellFormed(b.tools)
    && AllWords(BuildWords(b)) && "#" <= b.number && (forall f :: f in b.flags ==> f !in WEEKDAYS)
    && (b.date != [] ==> b.date[0] in WEEKDAYS)
  }

  function InfoOf(b: Banner, format: string -> string): Info {
    Info(b.release, b.builder, ToolsOf(b.tools),
         Build(b.number, "SMP" in b.flags, LastPreempt(b.flags),
               if b.date == [] then "" else format(Join(b.date, ' '))))
  }

  lemma {:induction false} JoinedIsTrimmed(words: seq<string>)
    requires words != [] && AllWords(words)
    ensures IsTrimmed(Join(words, ' '))
  {
    assert words[0] in words && IsWord(words[0]);
    if |words| == 1 {
      assert Join(words, ' ') == words[0];
    } else {
      var rest := words[1..];
      assert forall w :: w in rest ==> w in words;
      JoinedIsTrimmed(rest);
      JoinCons(words[0], rest, ' ');
      assert words == [words[0]] + rest;
    }
  }

  lemma RawEnds(k: Parts, line: string)
    requires k.tail == " " + line && IsTrimmed(line)
    ensures IsTrimmed(KernelBanner.Render(k))
  {
    var raw := KernelBanner.Render(k);
    assert raw[0] == 'L' && Last(raw) == Last(line);
  }

  lemma FileTrims(b: Banner)
    requires AllWords(BuildWords(b))
    ensures TrimSpace(BannerFile(b)) == KernelBanner.Render(PartsOf(b)) != ""
  {
    var raw := KernelBanner.Render(PartsOf(b));
    JoinedIsTrimmed(BuildWords(b));
    RawEnds(PartsOf(b), Join(BuildWords(b), ' '));
    TrimOfPadded("", raw, "\n");
    assert "" + raw + "\n" == raw + "\n";
  }

  lemma LineFields(words: seq<string>)
    requires words != [] && AllWords(words)
    ensures Fields(TrimSpace(" " + Join(words, ' '))) == words
  {
    var line := Join(words, ' ');
    JoinedIsTrimmed(words);
    TrimOfPadded(" ", line, "");
    assert " " + line + "" == " " + line;
    FieldsOfJoin(words);
  }

  lemma PartsShown(b: Banner, goarch: string, format: string -> string, info: Info)
    requires Writable(b)
    ensures ShowsParts(PartsOf(b), goarch, format, info) <==> info == InfoOf(b, format)
  {
    RenderedTools(b.tools, goarch, info.tools);
    LineFields(BuildWords(b));
    RenderedBuild(b.number, b.flags, b.date, format);
  }

  /** A banner as a kernel build writes it, its groups nested to any depth, is shown as exactly
      what was put into it. */
  lemma RenderedIsShown(b: Banner, goarch: string, format: string -> string, info: Info)
    requires Writable(b)
    ensures ShowsKernel(BannerFile(b), goarch, format, info) <==> info == InfoOf(b, format)
  {
    var raw := KernelBanner.Render(PartsOf(b));
    FileTrims(b);
    ToolsTextIsBalanced(b.tools);
    RenderedParses(PartsOf(b), PartsOf(b));
    PartsShown(b, goarch, format, info);
    if k :| ParsesTo(raw, k) && ShowsParts(k, goarch, format, info) {
      RenderedParses(PartsOf(b), k);
    }
  }

  // ---- the same, letter by letter ----

  lemma GroupedSpelledOut(a: string, x: string, b: string)
    ensures Grouped(a, x, b) == a + " (" + x + ") " + b
  {
    assert ")" + (" " + b) == ") " + b;
    assert OPENING + x + ")" + (" " + b) == OPENING + x + (")" + (" " + b));
    assert a + (OPENING + x + (") " + b)) == a + " (" + x + ") " + b;
  }

  lemma ToolsTextSpelledOut(c: Toolchain)
    ensures ToolsText(c) == c.triple + "-gcc" + " (" + c.name + ") " + c.version + ", "
      + (c.linker + " (" + c.note + ") " + c.linkerVersion)
  {
    GroupedSpelledOut(c.triple + "-gcc", c.name, c.version);
    GroupedSpelledOut(c.linker, c.note, c.linkerVersion);
  }

  /** The text of the file. */
  lemma BannerSpelledOut(b: Banner)
    ensures BannerFile(b) == "Linux version " + b.release + " (" + b.builder + ") (" + ToolsText(b.tools) + ") "
      + Join(BuildWords(b), ' ') + "\n"
  {
    var tools, line := ToolsText(b.tools), Join(BuildWords(b), ' ');
    var groups := "(" + b.builder + ")" + (" (" + tools + ")" + (" " + line));
    assert KernelBanner.Render(PartsOf(b)) == "Linux version " + (b.release + (" " + groups));
    Opening(b.release, b.builder, " (" + tools + ")" + (" " + line));
    Closing(tools, line);
    Chain(b.release, b.builder, tools, line);
  }

  lemma Opening(release: string, builder: string, rest: string)
    ensures "Linux version " + (release + (" " + ("(" + builder + ")" + rest)))
         == "Linux version " + release + " (" + builder + ")" + rest
  {
  }

  lemma Closing(tools: string, line: string)
    ensures " (" + tools + ")" + (" " + line) == " (" + tools + ") " + line
  {
  }

  lemma Chain(release: string, builder: string, tools: string, line: string)
    ensures "Linux version " + release + " (" + builder + ")" + (" (" + tools + ") " + line)
         == "Linux version " + release + " (" + builder + ") (" + tools + ") " + line
  {
  }

  /** Both names of the GNU compilers are taken off. */
  lemma TripleSpelledOut(triple: string)
    ensures TripleOf(triple + "-g++") == triple
    ensures TrimSuffix(triple, "-g++") == triple ==> TripleOf(triple + "-gcc") == triple
  {
    var s := triple + "-g++";
    assert s[|triple|..] == "-g++" && s[..|triple|] == triple;
    assert s[|s| - 1] == '+';
    if TrimSuffix(triple, "-g++") == triple {
      TripleOfPrefix(triple);
    }
  }

  /** The architecture is what stands before the first dash of the triple. */
  lemma ArchSpelledOut(arch: string, rest: string)
    requires arch != "" && '-' !in arch
    ensures ArchOf(arch + "-" + rest, arch + "-" + rest) == arch && ArchOf(arch, arch) == arch
  {
    var triple := arch + "-" + rest;
    assert triple[..|arch|] == arch;
    IndexOfIsFirst(triple, '-', |arch|);
  }

  /** A version of four or more components is cut to three; a shorter one stays. */
  lemma ShortSpelledOut(a: string, b: string, c: string, rest: string)
    requires '.' !in a && '.' !in b && '.' !in c
    ensures ShortVersion(a + "." + b + "." + c + "." + rest) == a + "." + b + "." + c
    ensures ShortVersion(a + "." + b + "." + c) == a + "." + b + "." + c
    ensures ShortVersion(a + "." + b) == a + "." + b && ShortVersion(a) == a
  {
    ThreeParts(a, b, c);
    TwoParts(a, b);
    SplitAt(a + "." + b + "." + c, rest, '.');
    assert Split(a + "." + b + "." + c + "." + rest, '.')[..3] == [a, b, c];
    JoinOfThree(a, b, c);
    assert Split(a, '.') == [a];
  }

  lemma TwoParts(a: string, b: string)
    requires '.' !in a && '.' !in b
    ensures Split(a + "." + b, '.') == [a, b]
  {
    SplitAt(a, b, '.');
    assert Split(a, '.') == [a] && Split(b, '.') == [b];
  }

  lemma ThreeParts(a: string, b: string, c: string)
    requires '.' !in a && '.' !in b && '.' !in c
    ensures Split(a + "." + b + "." + c, '.') == [a, b, c]
  {
    TwoParts(a, b);
    SplitAt(a + "." + b, c, '.');
    assert Split(c, '.') == [c];
  }

  lemma JoinOfThree(a: string, b: string, c: string)
    ensures Join([a, b, c], '.') == a + "." + b + "." + c
  {
    JoinCons(a, [b, c], '.');
    JoinCons(b, [c], '.');
    assert [a] + [b, c] == [a, b, c] && [b] + [c] == [b, c];
    assert a + ['.'] + (b + ['.'] + c) == a + "." + b + "." + c;
  }

  predicate NamesDay(f: string) {
    f == "Mon" || f == "Tue" || f == "Wed" || f == "Thu" || f == "Fri" || f == "Sat" || f == "Sun"
  }

  lemma {:induction false} LastPreemptBehind(before: seq<string>, flag: string, after: seq<string>)
    requires IsPreempt(flag) && forall i :: 0 <= i < |after| ==> !("PREEMPT" <= after[i])
    ensures LastPreempt(before + [flag] + after) == flag
  {
    var all := before + [flag] + after;
    if after == [] {
      assert all == before + [flag];
      ButLastSnoc(before, flag);
    } else {
      LastPreemptBehind(before, flag, ButLast(after));
      assert ButLast(all) == before + [flag] + ButLast(after) && Last(all) == Last(after);
    }
  }

  lemma {:induction false} NoPreempt(flags: seq<string>)
    requires forall i :: 0 <= i < |flags| ==> !("PREEMPT" <= flags[i])
    ensures LastPreempt(flags) == ""
  {
    if flags != [] {
      NoPreempt(ButLast(flags));
      assert !("PREEMPT" <= flags[|flags| - 1]);
    }
  }

  /** A build line: number, flags with the last preemption flag among them, then the date from
      its day on. */
  lemma BuildSpelledOut(number: string, before: seq<string>, x: string, after: seq<string>, day: string,
                        more: seq<string>, format: string -> string)
    requires NamesDay(day) && forall f :: f in before || f in after ==> !NamesDay(f)
    requires forall i :: 0 <= i < |after| ==> !("PREEMPT" <= after[i])
    ensures BuildOf(["#" + number] + (before + ["PREEMPT" + x] + after) + ([day] + more), format)
         == Build("#" + number, "SMP" in before || "SMP" in after, "PREEMPT" + x, format(Join([day] + more, ' ')))
  {
    var flags := before + ["PREEMPT" + x] + after;
    assert IsPreempt("PREEMPT" + x);
    NotAWeekday("PREEMPT" + x);
    assert ("PREEMPT" + x)[0] == 'P';
    forall f | f in flags ensures f !in WEEKDAYS {
    }
    LastPreemptBehind(before, "PREEMPT" + x, after);
    RenderedBuild("#" + number, flags, [day] + more, format);
    assert "SMP" in flags <==> "SMP" in before || "SMP" in after;
  }

  /** The same without a preemption flag and without a date. */
  lemma PlainBuildSpelledOut(number: string, flags: seq<string>, format: string -> string)
    requires forall f :: f in flags ==> !NamesDay(f)
    requires forall i :: 0 <= i < |flags| ==> !("PREEMPT" <= flags[i])
    ensures BuildOf(["#" + number] + flags, format) == Build("#" + number, "SMP" in flags, "", "")
  {
    NoPreempt(flags);
    RenderedBuild("#" + number, flags, [], format);
    assert ["#" + number] + flags + [] == ["#" + number] + flags;
  }
}
