/** The string functions the parsers of kernel tables use: whitespace-separated fields and the
    position of a substring. */
module Text {
  import opened Sequences

  /** unicode.IsSpace. */
  predicate IsSpace(c: char) {
    || c in " \t\n\r" || c == '\U{0B}' || c == '\U{0C}' || c == '\U{85}' || c == '\U{A0}'
    || c == '\U{1680}' || '\U{2000}' <= c <= '\U{200A}' || c == '\U{2028}' || c == '\U{2029}'
    || c == '\U{202F}' || c == '\U{205F}' || c == '\U{3000}'
  }

  /** A field: some text without whitespace. */
  predicate IsWord(s: string) {
    s != "" && forall i :: 0 <= i < |s| ==> !IsSpace(s[i])
  }

  /** How far s runs before its first whitespace. */
  function WordLength(s: string): (n: nat)
    ensures n <= |s|
    ensures forall i :: 0 <= i < n ==> !IsSpace(s[i])
    ensures n < |s| ==> IsSpace(s[n])
  {
    if s == "" || IsSpace(s[0]) then 0 else 1 + WordLength(s[1..])
  }

  lemma {:induction false} WordLengthIs(s: string, n: nat)
    requires n <= |s| && (forall i :: 0 <= i < n ==> !IsSpace(s[i])) && (n < |s| ==> IsSpace(s[n]))
    ensures WordLength(s) == n
  {
    if n > 0 {
      WordLengthIs(s[1..], n - 1);
    }
  }

  /** strings.Fields. */
  function Fields(s: string): seq<string> {
    if s == "" then []
    else if IsSpace(s[0]) then Fields(s[1..])
    else [s[..WordLength(s)]] + Fields(s[WordLength(s)..])
  }

  lemma {:induction false} FieldsAreWords(s: string)
    ensures forall f :: f in Fields(s) ==> IsWord(f)
    decreases |s|
  {
    if s == "" {
    } else if IsSpace(s[0]) {
      FieldsAreWords(s[1..]);
    } else {
      FieldsAreWords(s[WordLength(s)..]);
    }
  }

  predicate AllWords(words: seq<string>) {
    forall w :: w in words ==> IsWord(w)
  }

  lemma FieldsOfWordAndRest(w: string, rest: string)
    requires IsWord(w) && (rest != "" ==> IsSpace(rest[0]))
    ensures Fields(w + rest) == [w] + Fields(rest)
  {
    var s := w + rest;
    WordLengthIs(s, |w|);
    assert s[..|w|] == w && s[|w|..] == rest;
  }

  predicate AllSpace(s: string) {
    forall i :: 0 <= i < |s| ==> IsSpace(s[i])
  }

  lemma {:induction false} FieldsOfSpace(pad: string)
    requires AllSpace(pad)
    ensures Fields(pad) == []
  {
    if pad != "" {
      FieldsOfSpace(pad[1..]);
    }
  }

  lemma OneFieldMore(w: string, sep: char, rest: string, words: seq<string>)
    requires IsWord(w) && IsSpace(sep) && Fields(rest) == words
    ensures Fields(w + ([sep] + rest)) == [w] + words
  {
    FieldsOfWordAndRest(w, [sep] + rest);
    assert ([sep] + rest)[1..] == rest;
  }

  lemma WordsApart(words: seq<string>)
    requires words != [] && AllWords(words)
    ensures IsWord(words[0]) && AllWords(words[1..]) && words == [words[0]] + words[1..]
  {
    assert words[0] in words;
    forall w | w in words[1..] ensures IsWord(w) {
      assert w in words;
    }
  }

  lemma LineApart(w: string, more: seq<string>, sep: char, pad: string)
    requires more != []
    ensures Join([w] + more, sep) + pad == w + ([sep] + (Join(more, sep) + pad))
  {
    JoinCons(w, more, sep);
    assert w + [sep] + Join(more, sep) + pad == w + ([sep] + (Join(more, sep) + pad));
  }

  /** Words with single separators between them, and blanks behind, are the fields of the
      result. */
  lemma {:induction false} FieldsOfLine(words: seq<string>, sep: char, pad: string)
    requires AllWords(words) && IsSpace(sep) && AllSpace(pad)
    ensures Fields(Join(words, sep) + pad) == words
  {
    FieldsOfSpace(pad);
    if words == [] {
      assert Join(words, sep) + pad == pad;
    } else {
      WordsApart(words);
      if |words| == 1 {
        FieldsOfWordAndRest(words[0], pad);
      } else {
        FieldsOfLine(words[1..], sep, pad);
        OneFieldMore(words[0], sep, Join(words[1..], sep) + pad, words[1..]);
        LineApart(words[0], words[1..], sep, pad);
      }
    }
  }

  /** Words joined by single spaces are the fields of the result. */
  lemma FieldsOfJoin(words: seq<string>)
    requires AllWords(words)
    ensures Fields(Join(words, ' ')) == words
  {
    FieldsOfLine(words, ' ', "");
    assert Join(words, ' ') + "" == Join(words, ' ');
  }

  /** Where a text falls apart into fields: at the ASCII blanks and the other space characters
      of Unicode. */
  lemma FieldsSplitAt(c: char)
    ensures Fields(['x', c, 'y']) == ["x", "y"] <==>
      || c in [' ', '\t', '\n', '\r', '\U{0B}', '\U{0C}', '\U{85}', '\U{A0}', '\U{1680}']
      || '\U{2000}' <= c <= '\U{200A}' || c in ['\U{2028}', '\U{2029}', '\U{202F}', '\U{205F}', '\U{3000}']
    ensures Fields(['x', c, 'y']) != ["x", "y"] ==> Fields(['x', c, 'y']) == [['x', c, 'y']]
  {
    var s := ['x', c, 'y'];
    if IsSpace(c) {
      FieldsOfWordAndRest("y", "");
      assert "y" + "" == "y";
      FieldsOfWordAndRest("x", [c, 'y']);
      assert [c, 'y'][1..] == "y";
      assert "x" + [c, 'y'] == s;
    } else {
      FieldsOfWordAndRest(s, "");
      assert s + "" == s;
    }
  }

  /** A text of lines, every one of which ends with a newline. */
  function FileOf(lines: seq<string>): string {
    if lines == [] then "" else lines[0] + "\n" + FileOf(lines[1..])
  }

  lemma OneLineMore(line: string, file: string, lines: seq<string>)
    requires '\n' !in line && Split(file, '\n') == lines
    ensures Split(line + "\n" + file, '\n') == [line] + lines
  {
    SplitAt(line, file, '\n');
    assert Split(line, '\n') == [line];
  }

  lemma {:induction false} FileLines(lines: seq<string>)
    requires forall i :: 0 <= i < |lines| ==> '\n' !in lines[i]
    ensures Split(FileOf(lines), '\n') == lines + [""]
  {
    if lines != [] {
      FileLines(lines[1..]);
      OneLineMore(lines[0], FileOf(lines[1..]), lines[1..] + [""]);
      assert lines == [lines[0]] + lines[1..];
      Associates([lines[0]], lines[1..], [""]);
    }
  }

  predicate MatchAt(s: string, i: nat, sub: string) {
    i + |sub| <= |s| && s[i..i + |sub|] == sub
  }

  /** strings.Index: where sub first occurs, or -1. */
  function IndexOfSub(s: string, sub: string): (i: int)
    ensures -1 <= i <= |s|
    ensures i >= 0 ==> i + |sub| <= |s|
  {
    if MatchAt(s, 0, sub) then 0
    else if s == "" then -1
    else
      var k := IndexOfSub(s[1..], sub);
      if k < 0 then -1 else k + 1
  }

  lemma {:induction false} IndexOfSubIsFirst(s: string, sub: string, i: nat)
    requires MatchAt(s, i, sub) && forall j :: 0 <= j < i ==> !MatchAt(s, j, sub)
    ensures IndexOfSub(s, sub) == i
    decreases i
  {
    if i > 0 {
      assert !MatchAt(s, 0, sub);
      if s != "" {
        assert s[1..][i - 1..i - 1 + |sub|] == s[i..i + |sub|];
        forall j | 0 <= j < i - 1 ensures !MatchAt(s[1..], j, sub) {
          assert !MatchAt(s, j + 1, sub);
          assert j + 1 + |sub| <= |s| ==> s[1..][j..j + |sub|] == s[j + 1..j + 1 + |sub|];
        }
        IndexOfSubIsFirst(s[1..], sub, i - 1);
      }
    }
  }

  function TrimLeft(s: string): string {
    if s != "" && IsSpace(s[0]) then TrimLeft(s[1..]) else s
  }

  function TrimRight(s: string): string {
    if s != "" && IsSpace(Last(s)) then TrimRight(ButLast(s)) else s
  }

  /** strings.TrimSpace. */
  function TrimSpace(s: string): string {
    TrimRight(TrimLeft(s))
  }

  /** Text with something at both of its ends. */
  predicate IsTrimmed(s: string) {
    s != "" && !IsSpace(s[0]) && !IsSpace(Last(s))
  }

  lemma {:induction false} TrimLeftOfPadded(a: string, t: string)
    requires AllSpace(a) && (t != "" ==> !IsSpace(t[0]))
    ensures TrimLeft(a + t) == t
  {
    if a == "" {
      assert a + t == t;
    } else {
      TrimLeftOfPadded(a[1..], t);
      assert (a + t)[1..] == a[1..] + t;
    }
  }

  lemma {:induction false} TrimRightOfPadded(t: string, b: string)
    requires AllSpace(b) && (t != "" ==> !IsSpace(Last(t)))
    ensures TrimRight(t + b) == t
  {
    if b == "" {
      assert t + b == t;
    } else {
      TrimRightOfPadded(t, ButLast(b));
      assert ButLast(t + b) == t + ButLast(b);
    }
  }

  /** Trimming takes the padding away and nothing else. */
  lemma TrimOfPadded(a: string, t: string, b: string)
    requires AllSpace(a) && AllSpace(b) && IsTrimmed(t)
    ensures TrimSpace(a + t + b) == t
  {
    assert a + t + b == a + (t + b);
    TrimLeftOfPadded(a, t + b);
    TrimRightOfPadded(t, b);
  }
}
