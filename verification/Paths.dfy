/** Paths of the file explorer: lexical normalisation, confinement below the root, the write
    policy, upload names and breadcrumbs (internal/files/files.go,
    internal/httpserver/handlers_files.go). A string here is the bytes of a Go string, one
    character each. Symbolic links are not part of this model. */
module Paths {
  import opened Options
  import opened Sequences

  // ---- path/filepath ----

  /** One path element met while cleaning from left to right. */
  function Push(stack: seq<string>, segment: string, rooted: bool): seq<string> {
    if segment == "" || segment == "." then stack
    else if segment != ".." then stack + [segment]
    else if stack != [] && Last(stack) != ".." then ButLast(stack)
    else if rooted then stack
    else stack + [".."]
  }

  function Normalize(segments: seq<string>, rooted: bool): seq<string> {
    if segments == [] then [] else Push(Normalize(ButLast(segments), rooted), Last(segments), rooted)
  }

  predicate IsRooted(path: string) {
    path != "" && path[0] == '/'
  }

  function Assemble(segments: seq<string>, rooted: bool): string {
    if rooted then "/" + Join(segments, '/')
    else if segments == [] then "."
    else Join(segments, '/')
  }

  /** filepath.Clean. */
  function Clean(path: string): string {
    Assemble(Normalize(Split(path, '/'), IsRooted(path)), IsRooted(path))
  }

  /** filepath.Join of two non-empty elements. */
  function JoinPath(a: string, b: string): string {
    Clean(a + "/" + b)
  }

  function NonEmpty(parts: seq<string>): seq<string> {
    if parts == [] then []
    else NonEmpty(ButLast(parts)) + if Last(parts) == "" then [] else [Last(parts)]
  }

  /** filepath.Base. */
  function Base(path: string): string {
    var names := NonEmpty(Split(path, '/'));
    if path == "" then "." else if names == [] then "/" else Last(names)
  }

  // ---- files.Service ----

  function TrimSlash(path: string): string {
    if IsRooted(path) then path[1..] else path
  }

  function CleanUser(userPath: string): string {
    Clean("/" + TrimSlash(userPath))
  }

  /** The elements of a user path once cleaned. */
  function UserSegments(userPath: string): seq<string> {
    Normalize(Split("/" + TrimSlash(userPath), '/'), true)
  }

  function Resolve(root: string, userPath: string): string {
    JoinPath(root, CleanUser(userPath))
  }

  datatype Service = Service(root: string, writable: bool, writeRoots: seq<string>)

  datatype WriteError = WritesDisabled | NotWritable | Restricted

  /** New: an empty root is "/", and writes are confined to /etc and /var. */
  function New(root: string, writable: bool): Service {
    Service(if root == "" then "/" else root, writable, ["/etc", "/var"])
  }

  predicate InWriteRoot(s: Service, clean: string) {
    exists r | r in s.writeRoots :: clean == r || r + "/" <= clean
  }

  predicate HasSuffix(s: string, suffix: string) {
    |suffix| <= |s| && s[|s| - |suffix|..] == suffix
  }

  predicate SensitiveName(base: string) {
    || base in {"shadow", "gshadow", "shadow-", "gshadow-", "id_rsa", "id_dsa", "id_ecdsa", "id_ed25519"}
    || HasSuffix(base, ".key")
    || ("ssh_host_" <= base && HasSuffix(base, "_key"))
  }

  predicate IsSensitive(clean: string) {
    SensitiveName(Base(clean))
  }

  function CheckWrite(s: Service, clean: string): Option<WriteError> {
    if !s.writable then Some(WritesDisabled)
    else if !InWriteRoot(s, clean) then Some(NotWritable)
    else if IsSensitive(clean) then Some(Restricted)
    else None
  }

  predicate CanWrite(s: Service, userPath: string) {
    var clean := CleanUser(userPath);
    s.writable && InWriteRoot(s, clean) && !IsSensitive(clean)
  }

  datatype UploadReply = InvalidName | Denied(error: WriteError) | NotADirectory | WriteTo(dest: string)

  /** Upload up to opening the file; `isDir` says whether the target directory is one. */
  function Upload(s: Service, dirPath: string, filename: string, isDir: bool): UploadReply {
    var cleanDir := CleanUser(dirPath);
    var name := Base(Clean("/" + filename));
    if name == "." || name == "/" || name == "" then InvalidName
    else
      var dest := CleanUser(cleanDir + "/" + name);
      match CheckWrite(s, dest)
      case Some(e) => Denied(e)
      case None => if isDir then WriteTo(dest) else NotADirectory
  }

  // ---- cleaned paths ----

  predicate NormalSegment(s: string) {
    s != "" && s != "." && s != ".." && '/' !in s
  }

  predicate Normal(segments: seq<string>) {
    forall i :: 0 <= i < |segments| ==> NormalSegment(segments[i])
  }

  lemma {:induction false} NormalizeIsNormal(segments: seq<string>)
    requires forall i :: 0 <= i < |segments| ==> '/' !in segments[i]
    ensures Normal(Normalize(segments, true))
  {
    if segments != [] {
      NormalizeIsNormal(ButLast(segments));
    }
  }

  lemma NormalizeSnoc(parts: seq<string>, last: string, rooted: bool)
    ensures Normalize(parts + [last], rooted) == Push(Normalize(parts, rooted), last, rooted)
  {
    assert ButLast(parts + [last]) == parts;
  }

  lemma NonEmptySnoc(parts: seq<string>, last: string)
    ensures NonEmpty(parts + [last]) == NonEmpty(parts) + if last == "" then [] else [last]
  {
    assert ButLast(parts + [last]) == parts;
  }

  lemma NormalButLast(segments: seq<string>)
    requires Normal(segments) && segments != []
    ensures Normal(ButLast(segments)) && NormalSegment(Last(segments))
  {
  }

  /** Normal elements are kept behind whatever came before. */
  lemma {:induction false} NormalizeKeeps(before: seq<string>, segments: seq<string>, rooted: bool)
    requires Normal(segments)
    ensures Normalize(before + segments, rooted) == Normalize(before, rooted) + segments
  {
    if segments == [] {
      assert before + segments == before;
    } else {
      NormalButLast(segments);
      NormalizeKeeps(before, ButLast(segments), rooted);
      KeepOne(before, ButLast(segments), Last(segments), rooted);
      ButLastAndLast(segments);
    }
  }

  lemma KeepOne(before: seq<string>, init: seq<string>, last: string, rooted: bool)
    requires Normalize(before + init, rooted) == Normalize(before, rooted) + init && NormalSegment(last)
    ensures Normalize(before + (init + [last]), rooted) == Normalize(before, rooted) + (init + [last])
  {
    NormalizeSnoc(before + init, last, rooted);
    Associates(before, init, [last]);
    Associates(Normalize(before, rooted), init, [last]);
  }

  lemma {:induction false} NonEmptyKeeps(before: seq<string>, segments: seq<string>)
    requires Normal(segments)
    ensures NonEmpty(before + segments) == NonEmpty(before) + segments
  {
    if segments == [] {
      assert before + segments == before;
    } else {
      NormalButLast(segments);
      NonEmptyKeeps(before, ButLast(segments));
      KeepOneName(before, ButLast(segments), Last(segments));
      ButLastAndLast(segments);
    }
  }

  lemma KeepOneName(before: seq<string>, init: seq<string>, last: string)
    requires NonEmpty(before + init) == NonEmpty(before) + init && last != ""
    ensures NonEmpty(before + (init + [last])) == NonEmpty(before) + (init + [last])
  {
    NonEmptySnoc(before + init, last);
    Associates(before, init, [last]);
    Associates(NonEmpty(before), init, [last]);
  }

  /** The elements of "/a/b" are an empty one and the names. */
  lemma SplitOfAssembled(segments: seq<string>)
    requires Normal(segments)
    ensures Split(Assemble(segments, true), '/') == if segments == [] then ["", ""] else [""] + segments
  {
    SplitAt("", Join(segments, '/'), '/');
    assert Assemble(segments, true) == "" + ['/'] + Join(segments, '/');
    if segments != [] {
      forall p | p in segments ensures '/' !in p {
        var i :| 0 <= i < |segments| && segments[i] == p;
      }
      SplitJoin(segments, '/');
    }
  }

  lemma AssembledElements(segments: seq<string>, rooted: bool)
    requires Normal(segments)
    ensures Normalize(Split(Assemble(segments, true), '/'), rooted) == segments
    ensures NonEmpty(Split(Assemble(segments, true), '/')) == segments
  {
    SplitOfAssembled(segments);
    NormalizeSnoc([], "", rooted);
    NonEmptySnoc([], "");
    assert [] + [""] == [""];
    if segments == [] {
      NormalizeSnoc([""], "", rooted);
      NonEmptySnoc([""], "");
      assert [""] + [""] == ["", ""];
    } else {
      NormalizeKeeps([""], segments, rooted);
      NonEmptyKeeps([""], segments);
    }
  }

  /** A cleaned user path is "/" and some names, none of them empty, "." or "..". */
  lemma CleanUserIsNormal(userPath: string)
    ensures CleanUser(userPath) == Assemble(UserSegments(userPath), true)
    ensures Normal(UserSegments(userPath))
  {
    var path := "/" + TrimSlash(userPath);
    SplitSound(path, '/');
    forall i | 0 <= i < |Split(path, '/')| ensures '/' !in Split(path, '/')[i] {
      assert Split(path, '/')[i] in Split(path, '/');
    }
    NormalizeIsNormal(Split(path, '/'));
  }

  /** Different names give different paths, and cleaning a cleaned path changes nothing. */
  lemma CleanUserFixed(segments: seq<string>)
    requires Normal(segments)
    ensures CleanUser(Assemble(segments, true)) == Assemble(segments, true)
    ensures UserSegments(Assemble(segments, true)) == segments
  {
    var p := Assemble(segments, true);
    assert "/" + TrimSlash(p) == p;
    AssembledElements(segments, true);
  }

  lemma CleanUserIdempotent(userPath: string)
    ensures CleanUser(CleanUser(userPath)) == CleanUser(userPath)
  {
    CleanUserIsNormal(userPath);
    CleanUserFixed(UserSegments(userPath));
  }

  /** Cleaning walks the path: an empty element or "." stays, ".." goes to the parent and not
      above the root, any other element goes to that child. */
  lemma CleaningWalks(userPath: string, element: string)
    requires userPath != "" && '/' !in element
    ensures UserSegments(userPath + "/" + element) ==
      var here := UserSegments(userPath);
      if element == "" || element == "." then here
      else if element != ".." then here + [element]
      else if here == [] then here
      else ButLast(here)
  {
    var path := "/" + TrimSlash(userPath);
    assert "/" + TrimSlash(userPath + "/" + element) == path + ['/'] + element;
    SplitAt(path, element, '/');
    assert Split(element, '/') == [element];
    NormalizeSnoc(Split(path, '/'), element, true);
    CleanUserIsNormal(userPath);
    assert UserSegments(userPath) != [] ==> NormalSegment(Last(UserSegments(userPath)));
  }

  /** The real path is the root's elements followed by those of the cleaned user path: no
      request leaves the root. */
  lemma ResolveStaysBelowRoot(root: string, userPath: string)
    requires root != ""
    ensures Resolve(root, userPath)
         == Assemble(Normalize(Split(root, '/'), IsRooted(root)) + UserSegments(userPath), IsRooted(root))
  {
    var clean := CleanUser(userPath);
    CleanUserIsNormal(userPath);
    assert root + "/" + clean == root + ['/'] + clean;
    SplitAt(root, clean, '/');
    SplitOfAssembled(UserSegments(userPath));
    BehindRoot(Split(root, '/'), UserSegments(userPath), IsRooted(root));
    assert IsRooted(root + "/" + clean) == IsRooted(root);
  }

  lemma BehindRoot(front: seq<string>, segments: seq<string>, rooted: bool)
    requires Normal(segments)
    ensures Normalize(front + if segments == [] then ["", ""] else [""] + segments, rooted)
         == Normalize(front, rooted) + segments
  {
    NormalizeSnoc(front, "", rooted);
    if segments == [] {
      NormalizeSnoc(front + [""], "", rooted);
      assert front + ["", ""] == (front + [""]) + [""];
    } else {
      NormalizeKeeps(front + [""], segments, rooted);
      Associates(front, [""], segments);
    }
  }

  // ---- the write policy ----

  /** The textual test "equal, or starts with root and a slash" is the test on elements. */
  lemma BelowIsElementPrefix(root: seq<string>, segments: seq<string>)
    requires Normal(root) && Normal(segments) && root != []
    ensures Assemble(segments, true) == Assemble(root, true)
         || Assemble(root, true) + "/" <= Assemble(segments, true)
       <==> root <= segments
  {
    var r := Assemble(root, true);
    var s := Assemble(segments, true);
    CleanUserFixed(root);
    CleanUserFixed(segments);
    if r + "/" <= s {
      var rest := s[|r| + 1..];
      assert s == r + ['/'] + rest;
      ElementsBehind(root, segments, rest);
    }
    if root <= segments && root != segments {
      var more := segments[|root|..];
      assert segments == root + more;
      TextBehind(root, more);
    }
  }

  lemma TextBehind(root: seq<string>, more: seq<string>)
    requires root != [] && more != []
    ensures Assemble(root, true) + "/" <= Assemble(root + more, true)
  {
    JoinConcat(root, more, '/');
    assert Assemble(root + more, true) == (Assemble(root, true) + "/") + Join(more, '/');
  }

  lemma ElementsBehind(root: seq<string>, segments: seq<string>, rest: string)
    requires Normal(root) && Normal(segments) && root != []
    requires Assemble(segments, true) == Assemble(root, true) + ['/'] + rest
    ensures root <= segments
  {
    SplitAt(Assemble(root, true), rest, '/');
    SplitOfAssembled(root);
    SplitOfAssembled(segments);
    assert segments == [] ==> [""] + [""] == Split(Assemble(segments, true), '/');
    var more := Split(rest, '/');
    assert (([""] + root) + more)[1] == root[0];
    SameBehindHead("", root, more, segments);
  }

  lemma SameBehindHead(head: string, root: seq<string>, more: seq<string>, segments: seq<string>)
    requires ([head] + root) + more == [head] + segments
    ensures segments == root + more
  {
    assert ([head] + segments)[1..] == segments;
    assert (([head] + root) + more)[1..] == root + more;
  }

  lemma BaseOfAssembled(segments: seq<string>)
    requires Normal(segments)
    ensures Base(Assemble(segments, true)) == if segments == [] then "/" else Last(segments)
  {
    AssembledElements(segments, true);
  }

  lemma DefaultRoots(segments: seq<string>, s: Service)
    requires Normal(segments) && s.writeRoots == ["/etc", "/var"]
    ensures InWriteRoot(s, Assemble(segments, true)) <==> ["etc"] <= segments || ["var"] <= segments
  {
    assert Assemble(["etc"], true) == "/etc" && Assemble(["var"], true) == "/var";
    BelowIsElementPrefix(["etc"], segments);
    BelowIsElementPrefix(["var"], segments);
  }

  /** A name of a secret, with the names spelled out; "ssh_host_key" is the one in which the
      beginning and the ending overlap. */
  lemma SensitiveSpelledOut(base: string)
    ensures SensitiveName(base) <==>
      || base in ["shadow", "gshadow", "shadow-", "gshadow-", "id_rsa", "id_dsa", "id_ecdsa", "id_ed25519"]
      || (exists x :: base == x + ".key")
      || base == "ssh_host_key" || (exists x :: base == "ssh_host_" + x + "_key")
  {
    if HasSuffix(base, ".key") {
      assert base == base[..|base| - 4] + ".key";
    }
    if "ssh_host_" <= base && HasSuffix(base, "_key") {
      HostKey(base);
    }
    if x :| base == x + ".key" {
      assert base[|base| - 4..] == ".key";
    }
    if x :| base == "ssh_host_" + x + "_key" {
      assert base[|base| - 4..] == "_key" && base[..9] == "ssh_host_";
    }
    if base == "ssh_host_key" {
      assert base[..9] == "ssh_host_" && base[8..] == "_key";
    }
  }

  lemma InThree<T>(s: seq<T>, i: nat, j: nat)
    requires i <= j <= |s|
    ensures s == s[..i] + s[i..j] + s[j..]
  {
  }

  lemma HostKey(base: string)
    requires "ssh_host_" <= base && HasSuffix(base, "_key")
    ensures base == "ssh_host_key" || exists x :: base == "ssh_host_" + x + "_key"
  {
    var n := |base|;
    assert base[..9] == "ssh_host_" && base[n - 4..] == "_key";
    if n >= 13 {
      InThree(base, 9, n - 4);
      assert base == "ssh_host_" + base[9..n - 4] + "_key";
    } else {
      assert base[n - 4] == '_' && base[n - 3] == 'k';
      assert base[..9][0] == 's' && base[..9][8] == '_';
      assert base == base[..9] + base[9..] && base[9..] == base[n - 4..][1..];
    }
  }

  /** CanWrite and checkWrite agree, and both mean: writes are on, the first element is etc or
      var, and the last one is no secret's name. */
  lemma WritePolicy(root: string, writable: bool, userPath: string)
    ensures var s := New(root, writable);
            var segments := UserSegments(userPath);
            && (CanWrite(s, userPath) <==> CheckWrite(s, CleanUser(userPath)).None?)
            && (CanWrite(s, userPath) <==>
                  && writable && segments != [] && (segments[0] == "etc" || segments[0] == "var")
                  && Last(segments) !in ["shadow", "gshadow", "shadow-", "gshadow-", "id_rsa", "id_dsa",
                                         "id_ecdsa", "id_ed25519", "ssh_host_key"]
                  && (forall x :: Last(segments) != x + ".key")
                  && (forall x :: Last(segments) != "ssh_host_" + x + "_key"))
  {
    var s := New(root, writable);
    var segments := UserSegments(userPath);
    CleanUserIsNormal(userPath);
    DefaultRoots(segments, s);
    BaseOfAssembled(segments);
    assert ["etc"] <= segments <==> segments != [] && segments[0] == "etc";
    assert ["var"] <= segments <==> segments != [] && segments[0] == "var";
    if segments != [] {
      SensitiveSpelledOut(Last(segments));
    }
  }

  lemma NameBelow(dirPath: string, name: string)
    requires NormalSegment(name)
    ensures UserSegments(dirPath + "/" + name) == UserSegments(dirPath) + [name]
  {
    if dirPath == "" {
      assert "/" + TrimSlash("") == "" + ['/'] + "" && "/" + TrimSlash("/" + name) == "" + ['/'] + name;
      SplitAt("", "", '/');
      SplitAt("", name, '/');
      assert Split("", '/') == [""] && Split(name, '/') == [name];
      NormalizeSnoc([""], "", true);
      NormalizeSnoc([""], name, true);
      NormalizeSnoc([], "", true);
      assert [] + [""] == [""] && dirPath + "/" + name == "/" + name;
    } else {
      CleaningWalks(dirPath, name);
    }
  }

  lemma SensitiveBelow(s: Service, dirPath: string, name: string)
    requires NormalSegment(name) && SensitiveName(name)
    ensures !CanWrite(s, dirPath + "/" + name)
    ensures CheckWrite(s, CleanUser(dirPath + "/" + name)).Some?
  {
    NameBelow(dirPath, name);
    CleanUserIsNormal(dirPath + "/" + name);
    BaseOfAssembled(UserSegments(dirPath + "/" + name));
  }

  /** No service writes a secret, in whatever directory. */
  lemma SecretsAreRefused(s: Service, dirPath: string, name: string)
    requires name in ["shadow", "gshadow", "shadow-", "gshadow-", "id_rsa", "id_dsa", "id_ecdsa", "id_ed25519"]
    ensures !CanWrite(s, dirPath + "/" + name) && CheckWrite(s, CleanUser(dirPath + "/" + name)).Some?
  {
    SensitiveSpelledOut(name);
    SensitiveBelow(s, dirPath, name);
  }

  lemma KeysAreRefused(s: Service, dirPath: string, x: string)
    requires '/' !in x
    ensures !CanWrite(s, dirPath + "/" + (x + ".key"))
    ensures !CanWrite(s, dirPath + "/" + ("ssh_host_" + x + "_key"))
  {
    SensitiveSpelledOut(x + ".key");
    SensitiveSpelledOut("ssh_host_" + x + "_key");
    assert |"ssh_host_" + x + "_key"| > 2 && |x + ".key"| > 2;
    SensitiveBelow(s, dirPath, x + ".key");
    SensitiveBelow(s, dirPath, "ssh_host_" + x + "_key");
  }

  /** An upload is refused as nameless exactly when its file name cleans to nothing; otherwise
      its destination is the last element of that name directly below the cleaned directory,
      and it is accepted only where a write is. */
  lemma UploadLandsInDirectory(s: Service, dirPath: string, filename: string, isDir: bool)
    ensures var names := Normalize(Split("/" + filename, '/'), true);
            var reply := Upload(s, dirPath, filename, isDir);
            && (reply.InvalidName? <==> names == [])
            && (names != [] ==>
                  var segments := UserSegments(dirPath) + [Last(names)];
                  var dest := Assemble(segments, true);
                  && Normal(segments) && CleanUser(dest) == dest
                  && (reply == WriteTo(dest) <==> CheckWrite(s, dest).None? && isDir)
                  && (reply.WriteTo? ==> reply.dest == dest && CanWrite(s, dest)))
  {
    var names := Normalize(Split("/" + filename, '/'), true);
    NamesOf(filename);
    BaseOfAssembled(names);
    if names != [] {
      UploadNamed(s, dirPath, filename, isDir, Last(names));
    }
  }

  lemma UploadNamed(s: Service, dirPath: string, filename: string, isDir: bool, name: string)
    requires NormalSegment(name) && Base(Clean("/" + filename)) == name && name != "/"
    ensures var reply := Upload(s, dirPath, filename, isDir);
            var segments := UserSegments(dirPath) + [name];
            var dest := Assemble(segments, true);
            && !reply.InvalidName? && Normal(segments) && CleanUser(dest) == dest
            && (reply == WriteTo(dest) <==> CheckWrite(s, dest).None? && isDir)
            && (reply.WriteTo? ==> reply.dest == dest && CanWrite(s, dest))
  {
    var dir := UserSegments(dirPath);
    CleanUserIsNormal(dirPath);
    ChildOf(dir, name);
    CleanUserFixed(dir + [name]);
  }

  lemma NamesOf(filename: string)
    ensures var names := Normalize(Split("/" + filename, '/'), true);
            Normal(names) && Clean("/" + filename) == Assemble(names, true)
  {
    SplitSound("/" + filename, '/');
    forall i | 0 <= i < |Split("/" + filename, '/')| ensures '/' !in Split("/" + filename, '/')[i] {
      assert Split("/" + filename, '/')[i] in Split("/" + filename, '/');
    }
    NormalizeIsNormal(Split("/" + filename, '/'));
  }

  /** A name below a cleaned directory, also below "/" where the slash is doubled. */
  lemma ChildOf(dir: seq<string>, name: string)
    requires Normal(dir) && NormalSegment(name)
    ensures CleanUser(Assemble(dir, true) + "/" + name) == Assemble(dir + [name], true)
  {
    var d := Assemble(dir, true);
    var p := d + "/" + name;
    assert "/" + TrimSlash(p) == p && p == d + ['/'] + name;
    SplitAt(d, name, '/');
    SplitOfAssembled(dir);
    assert [name] == Split(name, '/');
    NormalizeKeeps(Split(d, '/'), [name], true);
    AssembledElements(dir, true);
  }

  // ---- breadcrumbs ----

  datatype Crumb = Crumb(name: string, path: string)

  /** string(s[i]): the byte taken for a code point and written as UTF-8 again. */
  function Reencoded(c: char): (s: string)
    ensures |s| == 1 <==> c < '\U{80}'
    ensures |s| == 1 ==> s == [c]
    ensures 1 <= |s| <= 2
  {
    if c < '\U{80}' then [c]
    else [(0xC0 + c as int / 64) as char, (0x80 + c as int % 64) as char]
  }

  function Widened(s: string): string {
    if s == "" then "" else Widened(s[..|s| - 1]) + Reencoded(s[|s| - 1])
  }

  function AllWidened(parts: seq<string>): (r: seq<string>)
    ensures |r| == |parts|
    ensures forall i :: 0 <= i < |parts| ==> r[i] == Widened(parts[i])
  {
    if parts == [] then [] else [Widened(parts[0])] + AllWidened(parts[1..])
  }

  predicate IsAscii(s: string) {
    forall i :: 0 <= i < |s| ==> s[i] < '\U{80}'
  }

  ghost predicate IsTwoOctets(s: string, n: int) {
    && |s| == 2
    && (var high, low := s[0] as int - 192, s[1] as int - 128;
        0 <= high < 4 && 0 <= low < 64 && 64 * high + low == n)
  }

  /** A byte from 128 up comes out as the two octets of UTF-8 for the code point of that value,
      section 3 of RFC 3629. */
  lemma WidenedIsUtf8(c: char)
    requires var n := c as int; 128 <= n && n < 256
    ensures IsTwoOctets(Widened([c]), c as int)
  {
    assert [c][..0] == "";
  }

  lemma WidenedSnoc(s: string, c: char)
    ensures Widened(s + [c]) == Widened(s) + Reencoded(c)
  {
    assert (s + [c])[..|s|] == s;
  }

  lemma {:induction false} WidenedConcat(a: string, b: string)
    ensures Widened(a + b) == Widened(a) + Widened(b)
  {
    if b == "" {
      assert a + b == a;
    } else {
      var front, c := ButLast(b), Last(b);
      ButLastAndLast(b);
      WidenedConcat(a, front);
      WidenedSnoc(a + front, c);
      WidenedSnoc(front, c);
      Associates(a, front, [c]);
      Associates(Widened(a), Widened(front), Reencoded(c));
    }
  }

  /** Re-encoding leaves a text alone exactly when it is ASCII; otherwise it grows. */
  lemma {:induction false} WidenedIsSame(s: string)
    ensures |Widened(s)| >= |s|
    ensures IsAscii(s) ==> Widened(s) == s
    ensures !IsAscii(s) ==> |Widened(s)| > |s|
  {
    if s != "" {
      var front, c := ButLast(s), Last(s);
      ButLastAndLast(s);
      WidenedIsSame(front);
      WidenedSnoc(front, c);
      AsciiSnoc(front, c);
    }
  }

  lemma AsciiSnoc(front: string, c: char)
    ensures IsAscii(front + [c]) <==> IsAscii(front) && |Reencoded(c)| == 1
  {
    assert (front + [c])[|front|] == c;
    forall i | 0 <= i < |front| ensures (front + [c])[i] == front[i] {
    }
  }

  lemma WidenedJoinStep(head: string, tail: string)
    ensures Widened(head + ['/'] + tail) == Widened(head) + ['/'] + Widened(tail)
  {
    WidenedConcat(head + ['/'], tail);
    WidenedSnoc(head, '/');
  }

  lemma {:induction false} WidenedJoin(parts: seq<string>)
    ensures Widened(Join(parts, '/')) == Join(AllWidened(parts), '/')
  {
    if |parts| > 1 {
      var head, rest := parts[0], parts[1..];
      WidenedJoin(rest);
      WidenedJoinStep(head, Join(rest, '/'));
      JoinCons(head, rest, '/');
      JoinCons(Widened(head), AllWidened(rest), '/');
      assert parts == [head] + rest;
    }
  }

  lemma FinishedPiece(parts: seq<string>, piece: string)
    ensures Widened(piece) == "" <==> piece == ""
    ensures AllWidened(NonEmpty(parts + [piece]))
         == AllWidened(NonEmpty(parts)) + if piece == "" then [] else [Widened(piece)]
  {
    WidenedIsSame(piece);
    NonEmptySnoc(parts, piece);
  }

  lemma NextCharacter(s: string, parts: seq<string>, cur: string, c: char, sep: char)
    requires Split(s, sep) == parts + [cur]
    ensures Split(s + [c], sep) == if c == sep then (parts + [cur]) + [""] else parts + [cur + [c]]
  {
    SplitSound(s, sep);
    assert cur in Split(s, sep);
    SplitResumes(s, [c], parts, cur, sep);
    if c == sep {
      SplitCons(cur, "", sep);
      assert cur + [c] + "" == cur + [c];
      assert Split(cur + [c], sep) == [cur] + [""];
      Associates(parts, [cur], [""]);
    }
  }

  /** What the loop of splitNonEmpty knows of the text read so far: its pieces before the
      current one and the current one, and their re-encodings. */
  ghost predicate Scanned(text: string, sep: char, parts: seq<string>, piece: string, out: seq<string>, cur: string) {
    Split(text, sep) == parts + [piece] && out == AllWidened(NonEmpty(parts)) && cur == Widened(piece)
  }

  lemma ScanSeparator(text: string, sep: char, parts: seq<string>, piece: string, out: seq<string>, cur: string)
    requires Scanned(text, sep, parts, piece, out, cur)
    ensures Scanned(text + [sep], sep, parts + [piece], "", out + if cur == "" then [] else [cur], "")
  {
    NextCharacter(text, parts, piece, sep, sep);
    FinishedPiece(parts, piece);
  }

  lemma ScanCharacter(text: string, sep: char, parts: seq<string>, piece: string, out: seq<string>, cur: string,
                      c: char)
    requires Scanned(text, sep, parts, piece, out, cur) && c != sep
    ensures Scanned(text + [c], sep, parts, piece + [c], out, cur + Reencoded(c))
  {
    NextCharacter(text, parts, piece, c, sep);
    WidenedSnoc(piece, c);
  }

  ghost predicate ScannedTo(s: string, i: nat, sep: char, parts: seq<string>, piece: string, out: seq<string>,
                            cur: string)
  {
    i <= |s| && Scanned(s[..i], sep, parts, piece, out, cur)
  }

  lemma ScanNext(s: string, i: nat, sep: char, parts: seq<string>, piece: string, out: seq<string>, cur: string)
    requires i < |s| && ScannedTo(s, i, sep, parts, piece, out, cur)
    ensures s[i] == sep ==> ScannedTo(s, i + 1, sep, parts + [piece], "", out + if cur == "" then [] else [cur], "")
    ensures s[i] != sep ==> ScannedTo(s, i + 1, sep, parts, piece + [s[i]], out, cur + Reencoded(s[i]))
  {
    assert s[..i + 1] == s[..i] + [s[i]];
    if s[i] == sep {
      ScanSeparator(s[..i], sep, parts, piece, out, cur);
    } else {
      ScanCharacter(s[..i], sep, parts, piece, out, cur, s[i]);
    }
  }

  lemma ScanEnd(s: string, sep: char, parts: seq<string>, piece: string, out: seq<string>, cur: string)
    requires ScannedTo(s, |s|, sep, parts, piece, out, cur)
    ensures AllWidened(NonEmpty(Split(s, sep))) == out + if cur == "" then [] else [cur]
  {
    assert s[..|s|] == s;
    FinishedPiece(parts, piece);
  }

  /** splitNonEmpty: the non-empty pieces, each of their bytes re-encoded. */
  method SplitNonEmpty(s: string, sep: char) returns (out: seq<string>)
    ensures out == AllWidened(NonEmpty(Split(s, sep)))
  {
    out := [];
    var cur := "";
    ghost var parts: seq<string> := [];
    ghost var piece := "";
    for i := 0 to |s|
      invariant ScannedTo(s, i, sep, parts, piece, out, cur)
    {
      ScanNext(s, i, sep, parts, piece, out, cur);
      if s[i] == sep {
        if cur != "" {
          out := out + [cur];
        }
        cur := "";
        parts, piece := parts + [piece], "";
        continue;
      }
      cur := cur + Reencoded(s[i]);
      piece := piece + [s[i]];
    }
    ScanEnd(s, sep, parts, piece, out, cur);
    if cur != "" {
      out := out + [cur];
    }
  }

  /** The path of the first n names; empty for none. */
  function PathOf(names: seq<string>, n: nat): string
    requires n <= |names|
  {
    if n == 0 then "" else Assemble(names[..n], true)
  }

  lemma PathOfNext(names: seq<string>, n: nat)
    requires n < |names|
    ensures PathOf(names, n + 1) == PathOf(names, n) + "/" + names[n]
  {
    assert names[..n + 1] == names[..n] + [names[n]];
    if n > 0 {
      JoinConcat(names[..n], [names[n]], '/');
    }
  }

  /** One crumb for the root and one for each name, whose path is the names up to it. */
  ghost predicate LeadsAlong(crumbs: seq<Crumb>, names: seq<string>) {
    && |crumbs| == |names| + 1 && crumbs[0] == Crumb("/", "/")
    && (forall i :: 0 <= i < |names| ==> CrumbAt(crumbs, names, i))
  }

  ghost predicate CrumbAt(crumbs: seq<Crumb>, names: seq<string>, i: nat)
    requires i < |names| && |crumbs| == |names| + 1
  {
    crumbs[i + 1] == Crumb(names[i], PathOf(names, i + 1))
  }

  /** The crumbs the loop has made once it has seen some names. */
  function Trail(names: seq<string>): seq<Crumb> {
    if names == [] then [Crumb("/", "/")] else Trail(ButLast(names)) + [Crumb(Last(names), Assemble(names, true))]
  }

  lemma TrailNext(names: seq<string>, n: nat)
    requires n < |names|
    ensures Trail(names[..n + 1]) == Trail(names[..n]) + [Crumb(names[n], PathOf(names, n + 1))]
  {
    assert ButLast(names[..n + 1]) == names[..n];
  }

  lemma SamePathOf(names: seq<string>, n: nat)
    requires names != [] && n <= |names| - 1
    ensures PathOf(ButLast(names), n) == PathOf(names, n)
  {
    assert ButLast(names)[..n] == names[..n];
  }

  lemma {:induction false} TrailLeadsAlong(names: seq<string>)
    ensures LeadsAlong(Trail(names), names)
  {
    if names != [] {
      TrailLeadsAlong(ButLast(names));
      forall i | 0 <= i < |names| ensures CrumbAt(Trail(names), names, i) {
        if i < |names| - 1 {
          assert CrumbAt(Trail(ButLast(names)), ButLast(names), i);
          SamePathOf(names, i + 1);
        } else {
          assert names[..|names|] == names;
        }
      }
    }
  }

  method Breadcrumbs(p: string) returns (out: seq<Crumb>)
    ensures LeadsAlong(out, AllWidened(NonEmpty(Split(p, '/'))))
  {
    out := [Crumb("/", "/")];
    var acc := "";
    var segs := SplitNonEmpty(p, '/');
    for i := 0 to |segs|
      invariant out == Trail(segs[..i]) && acc == PathOf(segs, i)
    {
      PathOfNext(segs, i);
      TrailNext(segs, i);
      acc := acc + "/" + segs[i];
      out := out + [Crumb(segs[i], acc)];
    }
    assert segs[..|segs|] == segs;
    TrailLeadsAlong(segs);
  }

  /** On a cleaned path the n-th crumb should lead to the path of the first n elements, and it
      does exactly when that path is ASCII: any other byte is taken for a code point of its own
      and comes out as two. */
  lemma CrumbLeadsToPath(userPath: string, n: nat)
    requires 0 < n <= |UserSegments(userPath)|
    ensures var segments := UserSegments(userPath);
            var names := AllWidened(NonEmpty(Split(CleanUser(userPath), '/')));
            && |names| == |segments|
            && (PathOf(names, n) == Assemble(segments[..n], true) <==> IsAscii(Assemble(segments[..n], true)))
            && (n == |segments| ==> Assemble(segments[..n], true) == CleanUser(userPath))
  {
    var segments := UserSegments(userPath);
    CleanUserIsNormal(userPath);
    AssembledElements(segments, true);
    assert segments[..|segments|] == segments;
    assert AllWidened(segments)[..n] == AllWidened(segments[..n]);
    WidenedAssembled(segments[..n]);
    WidenedIsSame(Assemble(segments[..n], true));
  }

  /** So the crumb of any one name that is not ASCII leads elsewhere. */
  lemma OtherCrumbFails(name: string)
    requires NormalSegment(name) && !IsAscii(name)
    ensures CleanUser("/" + name) == "/" + name && NonEmpty(Split("/" + name, '/')) == [name]
    ensures PathOf(AllWidened([name]), 1) != "/" + name
  {
    assert Assemble([name], true) == "/" + name;
    CleanUserFixed([name]);
    AssembledElements([name], true);
    NotAsciiBehind("/", name);
    assert [name][..1] == [name];
    CrumbLeadsToPath("/" + name, 1);
  }

  lemma NotAsciiBehind(a: string, b: string)
    requires !IsAscii(b)
    ensures !IsAscii(a + b)
  {
    var i :| 0 <= i < |b| && b[i] >= '\U{80}';
    assert (a + b)[|a| + i] == b[i];
  }

  /** A directory named with one two-byte character, for one. */
  lemma AccentedCrumbFails()
    ensures var name := [0xC3 as char, 0xA9 as char];
            && CleanUser("/" + name) == "/" + name && NonEmpty(Split("/" + name, '/')) == [name]
            && PathOf(AllWidened([name]), 1) != "/" + name
  {
    var name := [0xC3 as char, 0xA9 as char];
    assert name[0] == 0xC3 as char;
    OtherCrumbFails(name);
  }

  lemma WidenedAssembled(segments: seq<string>)
    ensures Widened(Assemble(segments, true)) == Assemble(AllWidened(segments), true)
  {
    WidenedJoin(segments);
    WidenedConcat("/", Join(segments, '/'));
    WidenedIsSame("/");
  }
}
