/** The host's mount table: which mount point stands for a device, and the octal escapes of
    /proc/PID/mountinfo (internal/sysinfo/peripherals.go). */
module Mounts {
  import opened Options
  import opened Sequences
  import opened Text

  datatype Mount = Mount(point: string, fstype: string)

  /** A line that parsed: its device number, the root of the mount, and the mount. */
  datatype Entry = Entry(majmin: string, root: string, mount: Mount)

  // ---- escapes ----

  /** The replacements of unescapeMount, leftmost first. */
  function Unescape(s: string): string {
    if s == "" then ""
    else if |s| >= 4 && s[..4] == "\\040" then " " + Unescape(s[4..])
    else if |s| >= 4 && s[..4] == "\\011" then "\t" + Unescape(s[4..])
    else if |s| >= 4 && s[..4] == "\\012" then "\n" + Unescape(s[4..])
    else if |s| >= 4 && s[..4] == "\\134" then "\\" + Unescape(s[4..])
    else [s[0]] + Unescape(s[1..])
  }

  function UnescapeMount(s: string): string {
    if '\\' !in s then s else Unescape(s)
  }

  /** What the kernel writes for one character of a path. */
  function EscapeChar(c: char): (s: string)
    ensures s != ""
  {
    if c == ' ' then "\\040"
    else if c == '\t' then "\\011"
    else if c == '\n' then "\\012"
    else if c == '\\' then "\\134"
    else [c]
  }

  function Escape(s: string): string {
    if s == "" then "" else EscapeChar(s[0]) + Escape(s[1..])
  }

  lemma {:induction false} UnescapeNothing(s: string)
    requires '\\' !in s
    ensures Unescape(s) == s
  {
    if s != "" {
      assert |s| >= 4 ==> s[..4][0] != '\\';
      UnescapeNothing(s[1..]);
    }
  }

  lemma UnescapeFirst(c: char, rest: string)
    ensures Unescape(EscapeChar(c) + rest) == [c] + Unescape(rest)
  {
    var s := EscapeChar(c) + rest;
    if |EscapeChar(c)| == 4 {
      assert s[..4] == EscapeChar(c) && s[4..] == rest;
    } else {
      assert s[0] == c && s[1..] == rest;
      assert |s| >= 4 ==> s[..4][0] == c;
    }
  }

  /** Escaping loses nothing. */
  lemma {:induction false} UnescapeOfEscape(s: string)
    ensures UnescapeMount(Escape(s)) == s
  {
    UnescapeOfEscapeAll(s);
    if '\\' !in Escape(s) {
      UnescapeNothing(Escape(s));
    }
  }

  lemma {:induction false} UnescapeOfEscapeAll(s: string)
    ensures Unescape(Escape(s)) == s
  {
    if s != "" {
      UnescapeOfEscapeAll(s[1..]);
      UnescapeFirst(s[0], Escape(s[1..]));
    }
  }

  /** The four escapes, wherever the first backslash is. */
  lemma {:induction false} EscapesSpelledOut(before: string, rest: string)
    requires '\\' !in before
    ensures UnescapeMount(before + "\\040" + rest) == before + " " + Unescape(rest)
    ensures UnescapeMount(before + "\\011" + rest) == before + "\t" + Unescape(rest)
    ensures UnescapeMount(before + "\\012" + rest) == before + "\n" + Unescape(rest)
    ensures UnescapeMount(before + "\\134" + rest) == before + "\\" + Unescape(rest)
    ensures UnescapeMount(before) == before
  {
    EscapeBehind(before, "\\040", ' ', rest);
    EscapeBehind(before, "\\011", '\t', rest);
    EscapeBehind(before, "\\012", '\n', rest);
    EscapeBehind(before, "\\134", '\\', rest);
  }

  lemma {:induction false} EscapeBehind(before: string, escape: string, c: char, rest: string)
    requires '\\' !in before && |escape| == 4 && escape[0] == '\\' && Unescape(escape + rest) == [c] + Unescape(rest)
    ensures UnescapeMount(before + escape + rest) == before + [c] + Unescape(rest)
  {
    assert (before + escape + rest)[|before|] == '\\';
    PlainFront(before, escape + rest);
    assert before + escape + rest == before + (escape + rest);
    assert before + ([c] + Unescape(rest)) == before + [c] + Unescape(rest);
  }

  lemma PlainFirst(c: char, rest: string)
    requires c != '\\'
    ensures Unescape([c] + rest) == [c] + Unescape(rest)
  {
    var s := [c] + rest;
    assert s[0] == c && s[1..] == rest;
    assert |s| >= 4 ==> s[..4][0] == c;
  }

  lemma {:induction false} PlainFront(before: string, rest: string)
    requires '\\' !in before
    ensures Unescape(before + rest) == before + Unescape(rest)
  {
    if before == "" {
      assert before + rest == rest;
    } else {
      var c, more := before[0], before[1..];
      PlainFront(more, rest);
      PlainFirst(c, more + rest);
      assert c in before && before == [c] + more;
      Associates([c], more, rest);
      Associates([c], more, Unescape(rest));
    }
  }

  /** Whitespace that mountinfo does not escape but strings.Fields splits at. */
  predicate StraySpace(c: char) {
    IsSpace(c) && c != ' ' && c != '\t' && c != '\n'
  }

  predicate NoStraySpace(s: string) {
    forall i :: 0 <= i < |s| ==> !StraySpace(s[i])
  }

  lemma {:induction false} EscapeIsWord(s: string)
    requires NoStraySpace(s)
    ensures forall i :: 0 <= i < |Escape(s)| ==> !IsSpace(Escape(s)[i])
  {
    if s != "" {
      EscapeIsWord(s[1..]);
      assert NoStraySpace(s[1..]);
    }
  }

  lemma {:induction false} UnescapeAddsNoStray(s: string)
    requires forall i :: 0 <= i < |s| ==> !IsSpace(s[i])
    ensures NoStraySpace(Unescape(s))
    decreases |s|
  {
    if s != "" {
      UnescapeAddsNoStray(s[1..]);
      if |s| >= 4 {
        UnescapeAddsNoStray(s[4..]);
      }
    }
  }

  // ---- one line ----

  function ParseLine(line: string): Option<Entry> {
    var sep := IndexOfSub(line, " - ");
    if sep < 0 then None
    else
      var left := Fields(line[..sep]);
      var right := Fields(line[sep + 3..]);
      if |left| < 5 || |right| < 1 then None
      else Some(Entry(left[2], left[3], Mount(UnescapeMount(left[4]), right[0])))
  }

  /** The fields of a mountinfo line. `options` are those between the mount point and the
      separator, `tail` those after the file system type. */
  datatype Record = Record(
    id: string, parent: string, majmin: string, root: string, point: string, options: seq<string>,
    fstype: string, tail: seq<string>)

  function LeftWords(r: Record): seq<string> {
    [r.id, r.parent, r.majmin, r.root, Escape(r.point)] + r.options
  }

  function Render(r: Record): string {
    Join(LeftWords(r), ' ') + " - " + Join([r.fstype] + r.tail, ' ')
  }

  /** The fields of a line stand in this order, with a space between each two. */
  lemma RecordSpelledOut(r: Record)
    ensures var known := r.id + " " + r.parent + " " + r.majmin + " " + r.root + " " + Escape(r.point);
            Render(r) == (if r.options == [] then known else known + " " + Join(r.options, ' '))
              + " - " + (if r.tail == [] then r.fstype else r.fstype + " " + Join(r.tail, ' '))
  {
    var point := Escape(r.point);
    var known := [r.id, r.parent, r.majmin, r.root, point];
    assert known == [r.id] + [r.parent, r.majmin, r.root, point];
    if r.options == [] {
      assert LeftWords(r) == known;
    } else {
      JoinConcat(known, r.options, ' ');
    }
    if r.tail != [] {
      JoinCons(r.fstype, r.tail, ' ');
    }
    JoinCons(r.id, [r.parent, r.majmin, r.root, point], ' ');
    JoinAfter(r.id + " ", r.parent, [r.majmin, r.root, point], ' ');
    JoinAfter(r.id + " " + r.parent + " ", r.majmin, [r.root, point], ' ');
    JoinAfter(r.id + " " + r.parent + " " + r.majmin + " ", r.root, [point], ' ');
  }

  predicate IsField(s: string) {
    IsWord(s) && s != "-"
  }

  /** A record the kernel can write: an absolute mount point, and fields that are fields. */
  predicate WellFormed(r: Record) {
    && IsField(r.id) && IsField(r.parent) && IsField(r.majmin) && IsField(r.root)
    && (forall o :: o in r.options ==> IsField(o))
    && IsWord(r.fstype) && AllWords(r.tail)
    && r.point != "" && r.point[0] == '/'
  }

  /** A field followed by a space starts with a dash and a space only if it is a lone dash. */
  lemma LoneDash(v: string, words: seq<string>, rest: string)
    requires |words| > 0 && words[0] == v && IsField(v)
    ensures var tail := Join(words, ' ') + " - " + rest;
            |tail| >= 2 && !(tail[0] == '-' && tail[1] == ' ')
  {
    var tail := Join(words, ' ') + " - " + rest;
    assert tail[..|v|] == v;
    if |v| > 1 {
      assert tail[1] == v[1];
    } else {
      assert tail[0] == v[0];
    }
  }

  /** Behind the first word the text goes on as that of the others. */
  lemma MatchBehind(w: string, tail: string, i: nat)
    requires |w| < i < |w| + 1 + |tail|
    ensures MatchAt(w + [' '] + tail, i, " - ") <==> MatchAt(tail, i - |w| - 1, " - ")
  {
    var s := w + [' '] + tail;
    var k := i - |w| - 1;
    if i + 3 <= |s| {
      assert s[i..i + 3] == tail[k..k + 3];
    }
  }

  lemma MatchInside(w: string, tail: string, i: nat)
    requires i <= |w| && (i < |w| ==> w[i] != ' ')
    requires i == |w| ==> |tail| >= 2 && !(tail[0] == '-' && tail[1] == ' ')
    ensures !MatchAt(w + [' '] + tail, i, " - ")
  {
    var s := w + [' '] + tail;
    if i < |w| {
      assert i + 3 <= |s| ==> s[i..i + 3][0] == w[i];
    } else {
      assert s[i..i + 3][1] == tail[0] && s[i..i + 3][2] == tail[1];
    }
  }

  /** The separator is not met inside fields none of which is a lone dash. */
  lemma {:induction false} NoEarlySeparator(words: seq<string>, rest: string, i: nat)
    requires |words| > 0 && forall w :: w in words ==> IsField(w)
    requires i < |Join(words, ' ')|
    ensures !MatchAt(Join(words, ' ') + " - " + rest, i, " - ")
    decreases |words|
  {
    var w := words[0];
    var s := Join(words, ' ') + " - " + rest;
    assert w in words;
    if |words| == 1 {
      assert s == w + [' '] + ("- " + rest);
      MatchInside(w, "- " + rest, i);
    } else {
      var tail := Join(words[1..], ' ') + " - " + rest;
      assert s == w + [' '] + tail;
      if i > |w| {
        NoEarlySeparator(words[1..], rest, i - |w| - 1);
        MatchBehind(w, tail, i);
      } else {
        assert words[1] in words;
        LoneDash(words[1], words[1..], rest);
        MatchInside(w, tail, i);
      }
    }
  }

  lemma SeparatorFound(r: Record)
    requires WellFormed(r) && NoStraySpace(r.point)
    ensures IndexOfSub(Render(r), " - ") == |Join(LeftWords(r), ' ')|
    ensures AllWords(LeftWords(r))
  {
    var words := LeftWords(r);
    EscapeIsWord(r.point);
    assert Escape(r.point)[0] == '/';
    forall w | w in words ensures IsField(w) {
      if w !in r.options {
        assert w in [r.id, r.parent, r.majmin, r.root, Escape(r.point)];
      }
    }
    var n := |Join(words, ' ')|;
    var rest := Join([r.fstype] + r.tail, ' ');
    forall j | 0 <= j < n ensures !MatchAt(Render(r), j, " - ") {
      NoEarlySeparator(words, rest, j);
    }
    assert Render(r)[n..n + 3] == " - ";
    IndexOfSubIsFirst(Render(r), " - ", n);
  }

  lemma ParseOfRendered(r: Record)
    requires WellFormed(r) && NoStraySpace(r.point)
    ensures ParseLine(Render(r)) == Some(EntryOf(r))
  {
    SeparatorFound(r);
    var n := |Join(LeftWords(r), ' ')|;
    assert Render(r)[..n] == Join(LeftWords(r), ' ');
    assert Render(r)[n + 3..] == Join([r.fstype] + r.tail, ' ');
    FieldsOfJoin(LeftWords(r));
    FieldsOfJoin([r.fstype] + r.tail);
    UnescapeOfEscape(r.point);
  }

  /** No parsed mount point holds stray whitespace. */
  lemma ParsedHasNoStray(line: string)
    requires ParseLine(line).Some?
    ensures NoStraySpace(ParseLine(line).value.mount.point)
  {
    var left := Fields(line[..IndexOfSub(line, " - ")]);
    FieldsAreWords(line[..IndexOfSub(line, " - ")]);
    assert left[4] in left;
    UnescapeAddsNoStray(left[4]);
    if '\\' !in left[4] {
      UnescapeNothing(left[4]);
    }
  }

  /** A mount point survives being written and read exactly when it has no whitespace besides
      spaces, tabs and newlines; any other is split in two and comes back different. */
  lemma MountPointSurvives(r: Record)
    requires WellFormed(r)
    ensures ParseLine(Render(r)) == Some(EntryOf(r))
       <==> NoStraySpace(r.point)
  {
    if NoStraySpace(r.point) {
      ParseOfRendered(r);
    } else if ParseLine(Render(r)).Some? {
      ParsedHasNoStray(Render(r));
    }
  }

  /** One that does not: a carriage return in the mount point. */
  lemma CarriageReturnIsLost()
    ensures var r := Record("36", "35", "8:1", "/", "/a\rb", [], "ext4", []);
            WellFormed(r) && ParseLine(Render(r)) != Some(EntryOf(r))
  {
    var r := Record("36", "35", "8:1", "/", "/a\rb", [], "ext4", []);
    assert StraySpace(r.point[2]);
    assert !NoStraySpace(r.point);
    MountPointSurvives(r);
  }

  // ---- the table ----

  /** The lines that parse, in order. */
  function Entries(lines: seq<string>): seq<Entry> {
    if lines == [] then []
    else
      var before := Entries(lines[..|lines| - 1]);
      match ParseLine(lines[|lines| - 1])
      case None => before
      case Some(e) => before + [e]
  }

  /** The map after some entries. */
  function Selected(entries: seq<Entry>): map<string, Mount> {
    if entries == [] then map[]
    else
      var before := Selected(entries[..|entries| - 1]);
      var e := entries[|entries| - 1];
      if e.majmin in before && e.root != "/" then before else before[e.majmin := e.mount]
  }

  /** readMounts on the text of a mountinfo file. */
  method ReadMounts(file: string) returns (out: map<string, Mount>)
    ensures out == Selected(Entries(Split(file, '\n')))
  {
    out := map[];
    var lines := Split(file, '\n');
    for i := 0 to |lines|
      invariant out == Selected(Entries(lines[..i]))
    {
      assert lines[..i + 1] == lines[..i] + [lines[i]];
      EntriesSkip(lines[..i], lines[i]);
      var sep := IndexOfSub(lines[i], " - ");
      if sep < 0 {
        continue;
      }
      var left := Fields(lines[i][..sep]);
      var right := Fields(lines[i][sep + 3..]);
      if |left| < 5 || |right| < 1 {
        continue;
      }
      var majmin, root, point, fstype := left[2], left[3], UnescapeMount(left[4]), right[0];
      EntriesSnoc(lines[..i], lines[i]);
      SelectedSnoc(Entries(lines[..i]), Entry(majmin, root, Mount(point, fstype)));
      if majmin in out && root != "/" {
        continue;
      }
      out := out[majmin := Mount(point, fstype)];
    }
    assert lines[..|lines|] == lines;
  }

  lemma EntriesSnoc(lines: seq<string>, line: string)
    requires ParseLine(line).Some?
    ensures Entries(lines + [line]) == Entries(lines) + [ParseLine(line).value]
  {
    assert (lines + [line])[..|lines|] == lines;
  }

  lemma EntriesSkip(lines: seq<string>, line: string)
    ensures ParseLine(line).None? ==> Entries(lines + [line]) == Entries(lines)
  {
    assert (lines + [line])[..|lines|] == lines;
  }

  lemma SelectedSnoc(entries: seq<Entry>, e: Entry)
    ensures Selected(entries + [e]) ==
      if e.majmin in Selected(entries) && e.root != "/" then Selected(entries)
      else Selected(entries)[e.majmin := e.mount]
  {
    assert (entries + [e])[..|entries|] == entries;
  }

  /** entries[i] stands for device k: the last mount of the whole device, or, when there is
      none, the first of its mounts. */
  ghost predicate Chosen(entries: seq<Entry>, k: string, i: nat) {
    && i < |entries| && entries[i].majmin == k
    && if entries[i].root == "/" then
         forall j :: i < j < |entries| && entries[j].majmin == k ==> entries[j].root != "/"
       else
         forall j :: 0 <= j < |entries| && entries[j].majmin == k ==> entries[j].root != "/" && i <= j
  }

  lemma {:induction false} SelectedIsChosen(entries: seq<Entry>, k: string) returns (i: nat)
    requires k in Selected(entries)
    ensures Chosen(entries, k, i) && Selected(entries)[k] == entries[i].mount
  {
    var last := |entries| - 1;
    var init := entries[..last];
    var e := entries[last];
    if e.majmin == k && (k !in Selected(init) || e.root == "/") {
      i := last;
      if k !in Selected(init) {
        NotSelected(init, k);
        assert forall j :: 0 <= j < last ==> init[j] == entries[j];
      }
    } else {
      i := SelectedIsChosen(init, k);
    }
  }

  lemma {:induction false} NotSelected(entries: seq<Entry>, k: string)
    requires k !in Selected(entries)
    ensures forall i :: 0 <= i < |entries| ==> entries[i].majmin != k
  {
    if entries != [] {
      NotSelected(entries[..|entries| - 1], k);
      forall i | 0 <= i < |entries| ensures entries[i].majmin != k {
        if i < |entries| - 1 {
          assert entries[..|entries| - 1][i] == entries[i];
        }
      }
    }
  }

  /** The map holds exactly the chosen mount of every device that has a line. */
  lemma SelectedExactly(entries: seq<Entry>, k: string, m: Mount)
    ensures k in Selected(entries) && Selected(entries)[k] == m
       <==> exists i: nat :: Chosen(entries, k, i) && entries[i].mount == m
  {
    if k in Selected(entries) {
      var i := SelectedIsChosen(entries, k);
      if j: nat :| Chosen(entries, k, j) && entries[j].mount == m {
        assert i == j;
      }
    } else {
      NotSelected(entries, k);
    }
  }

  // ---- a whole file ----

  function RenderAll(records: seq<Record>): (lines: seq<string>)
    ensures |lines| == |records|
    ensures forall i :: 0 <= i < |records| ==> lines[i] == Render(records[i])
  {
    if records == [] then [] else RenderAll(ButLast(records)) + [Render(Last(records))]
  }

  function EntryOf(r: Record): Entry {
    Entry(r.majmin, r.root, Mount(r.point, r.fstype))
  }

  function EntriesOf(records: seq<Record>): seq<Entry> {
    if records == [] then [] else EntriesOf(ButLast(records)) + [EntryOf(Last(records))]
  }

  lemma {:induction false} JoinedWordsLack(words: seq<string>, c: char)
    requires AllWords(words) && IsSpace(c) && c != ' '
    ensures c !in Join(words, ' ')
  {
    forall w | w in words ensures c !in w {
      assert IsWord(w);
    }
    JoinLacks(words, ' ', c);
  }

  lemma RenderedIsOneLine(r: Record)
    requires WellFormed(r) && NoStraySpace(r.point)
    ensures '\n' !in Render(r)
  {
    SeparatorFound(r);
    JoinedWordsLack(LeftWords(r), '\n');
    JoinedWordsLack([r.fstype] + r.tail, '\n');
  }

  /** Records the kernel can write and whose mount points survive. */
  ghost predicate Readable(records: seq<Record>) {
    forall i :: 0 <= i < |records| ==> WellFormed(records[i]) && NoStraySpace(records[i].point)
  }

  /** The entries of the lines the kernel writes. */
  lemma {:induction false} EntriesOfRendered(records: seq<Record>)
    requires Readable(records)
    ensures Entries(RenderAll(records)) == EntriesOf(records)
  {
    if records != [] {
      EntriesOfRendered(ButLast(records));
      ParseOfRendered(Last(records));
      EntriesSnoc(RenderAll(ButLast(records)), Render(Last(records)));
    }
  }

  /** A file the kernel writes is read back record by record; the empty piece behind its last
      newline is no entry. */
  lemma EntriesOfFile(records: seq<Record>)
    requires Readable(records)
    ensures Entries(Split(FileOf(RenderAll(records)), '\n')) == EntriesOf(records)
  {
    forall i | 0 <= i < |records| ensures '\n' !in RenderAll(records)[i] {
      RenderedIsOneLine(records[i]);
    }
    FileLines(RenderAll(records));
    EntriesOfRendered(records);
    NoEntryBehind(RenderAll(records));
  }

  lemma NoEntryBehind(lines: seq<string>)
    ensures Entries(lines + [""]) == Entries(lines)
  {
    assert ParseLine("").None?;
    EntriesSkip(lines, "");
  }
}
