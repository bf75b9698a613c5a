/** IPv4 configurations as the operator enters them and as NetworkManager stores them:
    validation, the packed DNS encoding and the rewrite of a connection profile
    (internal/network/edit.go, internal/network/dbus_helpers.go). */
module NetworkConfig {
  import opened Bytes
  import opened Options
  import opened Sequences
  import Decimal

  /** The four bytes of an IPv4 address. */
  datatype Quad = Quad(a: Byte, b: Byte, c: Byte, d: Byte)

  datatype IPv4Config = IPv4Config(
    configMethod: string,
    address: string,
    prefix: nat,
    gateway: string,
    dns: seq<string>)

  datatype ValidateError =
    | BadMethod
    | BadAddress(text: string)
    | BadPrefix
    | BadGateway(text: string)
    | BadDns(text: string)

  // ---- addresses ----

  function Dotted(q: Quad): string {
    Join([Decimal.Render(q.a), Decimal.Render(q.b), Decimal.Render(q.c), Decimal.Render(q.d)], '.')
  }

  /** One field of a dotted quad: decimal, no leading zero, at most 255. */
  predicate IsOctet(s: string) {
    Decimal.Canonical(s) && Decimal.Value(s) < 256
  }

  function ParseDotted(s: string): Option<Quad> {
    var f := Split(s, '.');
    if |f| == 4 && IsOctet(f[0]) && IsOctet(f[1]) && IsOctet(f[2]) && IsOctet(f[3]) then
      Some(Quad(Decimal.Value(f[0]), Decimal.Value(f[1]), Decimal.Value(f[2]), Decimal.Value(f[3])))
    else
      None
  }

  /** net.ParseIP(s).To4(): text with a colon is IPv6 notation, and then To4 accepts the
      IPv4-mapped addresses. How those are written is the library's business: `mapped`. */
  function ParseIP4(s: string, mapped: string -> Option<Quad>): Option<Quad> {
    if ':' in s then mapped(s) else ParseDotted(s)
  }

  lemma OctetOfByte(n: Byte)
    ensures IsOctet(Decimal.Render(n)) && Decimal.Value(Decimal.Render(n)) == n
    ensures '.' !in Decimal.Render(n) && ':' !in Decimal.Render(n)
  {
    Decimal.RenderCanonical(n);
    var s := Decimal.Render(n);
    forall i | 0 <= i < |s| ensures s[i] != '.' && s[i] != ':' {
      assert Decimal.IsDigit(s[i]);
    }
  }

  /** Rendering an address and parsing it back is the identity, for all 2^32 of them. */
  lemma ParseOfDotted(q: Quad)
    ensures ParseDotted(Dotted(q)) == Some(q)
    ensures ':' !in Dotted(q)
  {
    var f := [Decimal.Render(q.a), Decimal.Render(q.b), Decimal.Render(q.c), Decimal.Render(q.d)];
    OctetOfByte(q.a);
    OctetOfByte(q.b);
    OctetOfByte(q.c);
    OctetOfByte(q.d);
    forall p | p in f ensures '.' !in p && ':' !in p {
      var i :| 0 <= i < |f| && f[i] == p;
    }
    SplitJoin(f, '.');
    JoinLacks(f, '.', ':');
  }

  lemma OctetIsRendered(s: string)
    requires IsOctet(s)
    ensures Decimal.Render(Decimal.Value(s)) == s
  {
    Decimal.ValueOfCanonical(s);
  }

  lemma FourParts(f: seq<string>)
    requires |f| == 4
    ensures f == [f[0], f[1], f[2], f[3]]
  {
  }

  /** The dotted quad of an address is the only text that parses to it. */
  lemma DottedOfParse(s: string, q: Quad)
    requires ParseDotted(s) == Some(q)
    ensures Dotted(q) == s
  {
    var f := Split(s, '.');
    SplitSound(s, '.');
    FourParts(f);
    OctetIsRendered(f[0]);
    OctetIsRendered(f[1]);
    OctetIsRendered(f[2]);
    OctetIsRendered(f[3]);
  }

  /** Four numbers below 256 in decimal with dots between them are the address of those bytes. */
  lemma DottedSpelledOut(a: Byte, b: Byte, c: Byte, d: Byte, mapped: string -> Option<Quad>)
    ensures var text := Decimal.Render(a) + "." + Decimal.Render(b) + "." + Decimal.Render(c) + "." + Decimal.Render(d);
            ParseIP4(text, mapped) == Some(Quad(a, b, c, d))
  {
    var fields := [Decimal.Render(a), Decimal.Render(b), Decimal.Render(c), Decimal.Render(d)];
    JoinOfFour(fields[0], fields[1], fields[2], fields[3], '.');
    ParseOfDotted(Quad(a, b, c, d));
  }

  lemma JoinOfFour<T>(w: seq<T>, x: seq<T>, y: seq<T>, z: seq<T>, sep: T)
    ensures Join([w, x, y, z], sep) == w + [sep] + x + [sep] + y + [sep] + z
  {
    JoinCons(w, [x, y, z], sep);
    JoinCons(x, [y, z], sep);
    JoinCons(y, [z], sep);
    assert [w] + [x, y, z] == [w, x, y, z] && [x] + [y, z] == [x, y, z] && [y] + [z] == [y, z];
    assert w + [sep] + (x + [sep] + (y + [sep] + z)) == w + [sep] + x + [sep] + y + [sep] + z;
  }

  // ---- validation ----

  /** Which entry of the list is the first that is no IPv4 address. */
  function FirstBad(list: seq<string>, mapped: string -> Option<Quad>): Option<string> {
    if list == [] then None
    else if ParseIP4(list[0], mapped).None? then Some(list[0])
    else FirstBad(list[1..], mapped)
  }

  function Validate(c: IPv4Config, mapped: string -> Option<Quad>): Option<ValidateError> {
    if c.configMethod == "auto" then None
    else if c.configMethod != "manual" then Some(BadMethod)
    else if ParseIP4(c.address, mapped).None? then Some(BadAddress(c.address))
    else if c.prefix < 1 || c.prefix > 32 then Some(BadPrefix)
    else if c.gateway != "" && ParseIP4(c.gateway, mapped).None? then Some(BadGateway(c.gateway))
    else match FirstBad(c.dns, mapped)
      case Some(d) => Some(BadDns(d))
      case None => None
  }

  lemma {:induction false} FirstBadNone(list: seq<string>, mapped: string -> Option<Quad>)
    ensures FirstBad(list, mapped).None? <==> forall d :: d in list ==> ParseIP4(d, mapped).Some?
  {
    if list != [] {
      FirstBadNone(list[1..], mapped);
      assert forall d :: d in list <==> d == list[0] || d in list[1..];
    }
  }

  /** What passes: DHCP as it is, or a manual configuration all of whose texts are addresses
      and whose prefix is a prefix length; only the gateway may be left out. */
  lemma ValidateAccepts(c: IPv4Config, mapped: string -> Option<Quad>)
    ensures Validate(c, mapped).None? <==>
      || c.configMethod == "auto"
      || (&& c.configMethod == "manual" && 1 <= c.prefix <= 32
          && ParseIP4(c.address, mapped).Some?
          && (c.gateway == "" || ParseIP4(c.gateway, mapped).Some?)
          && (forall d :: d in c.dns ==> ParseIP4(d, mapped).Some?))
  {
    FirstBadNone(c.dns, mapped);
  }

  /** Which complaint a configuration meets first. */
  lemma ValidateBlames(c: IPv4Config, mapped: string -> Option<Quad>)
    ensures Validate(c, mapped) == Some(BadMethod) <==> c.configMethod != "auto" && c.configMethod != "manual"
    ensures Validate(c, mapped) == Some(BadAddress(c.address)) <==>
      c.configMethod == "manual" && ParseIP4(c.address, mapped).None?
    ensures Validate(c, mapped) == Some(BadPrefix) <==>
      c.configMethod == "manual" && ParseIP4(c.address, mapped).Some? && !(1 <= c.prefix <= 32)
    ensures Validate(c, mapped) == Some(BadGateway(c.gateway)) <==>
      && c.configMethod == "manual" && ParseIP4(c.address, mapped).Some? && 1 <= c.prefix <= 32
      && c.gateway != "" && ParseIP4(c.gateway, mapped).None?
  {
  }

  ghost predicate FirstBadAt(list: seq<string>, i: nat, d: string, mapped: string -> Option<Quad>) {
    && i < |list| && list[i] == d && ParseIP4(d, mapped).None?
    && forall j :: 0 <= j < i ==> ParseIP4(list[j], mapped).Some?
  }

  lemma {:induction false} FirstBadIsFirst(list: seq<string>, d: string, mapped: string -> Option<Quad>)
    ensures FirstBad(list, mapped) == Some(d) <==> exists i: nat :: FirstBadAt(list, i, d, mapped)
  {
    if list != [] {
      FirstBadIsFirst(list[1..], d, mapped);
      if ParseIP4(list[0], mapped).None? {
        assert list[0] == d ==> FirstBadAt(list, 0, d, mapped);
      } else {
        if i: nat :| FirstBadAt(list[1..], i, d, mapped) {
          assert FirstBadAt(list, i + 1, d, mapped);
        }
        if i: nat :| FirstBadAt(list, i, d, mapped) {
          assert FirstBadAt(list[1..], i - 1, d, mapped);
        }
      }
    }
  }

  /** A DNS entry is blamed exactly if it is the first that is no IPv4 address and everything
      before the list is right. */
  lemma ValidateBlamesFirstDns(c: IPv4Config, d: string, mapped: string -> Option<Quad>)
    ensures Validate(c, mapped) == Some(BadDns(d)) <==>
      && Validate(c.(dns := []), mapped).None? && c.configMethod == "manual"
      && exists i: nat :: FirstBadAt(c.dns, i, d, mapped)
  {
    FirstBadIsFirst(c.dns, d, mapped);
  }

  // ---- the packed encoding ----

  /** The first byte of the address is the lowest of the number. */
  function Pack(q: Quad): nat {
    q.a + q.b * 0x100 + q.c * 0x1_0000 + q.d * 0x100_0000
  }

  /** The read side: the bytes of a number from the lowest up. */
  function Uint32ToIP(n: nat): string {
    Dotted(Quad(n % 256, n / 0x100 % 256, n / 0x1_0000 % 256, n / 0x100_0000 % 256))
  }

  /** Packing keeps every address apart inside 32 bits, and the read side recovers it. */
  lemma UnpackOfPack(q: Quad)
    ensures Pack(q) < 0x1_0000_0000
    ensures Uint32ToIP(Pack(q)) == Dotted(q)
  {
    var n2 := q.c + 0x100 * q.d;
    var n1 := q.b + 0x100 * n2;
    DivMod256(q.d, 0);
    DivMod256(q.c, q.d);
    DivMod256(q.b, n2);
    DivMod256(q.a, n1);
    ShiftTwice(Pack(q));
    assert Pack(q) == q.a + 0x100 * n1;
  }

  lemma DivMod256(low: Byte, high: nat)
    ensures (low + 0x100 * high) / 0x100 == high && (low + 0x100 * high) % 0x100 == low
  {
  }

  lemma ShiftTwice(n: nat)
    ensures n / 0x1_0000 == n / 0x100 / 0x100
    ensures n / 0x100_0000 == n / 0x100 / 0x100 / 0x100
  {
  }

  /** Every 32-bit number is the packing of the address it decodes to. */
  lemma PackOfUnpack(n: nat)
    requires n < 0x1_0000_0000
    ensures exists q :: ParseDotted(Uint32ToIP(n)) == Some(q) && Pack(q) == n
  {
    ShiftTwice(n);
    var n1 := n / 0x100;
    var n2 := n1 / 0x100;
    var n3 := n2 / 0x100;
    assert n3 < 256;
    var q := Quad(n % 256, n1 % 256, n2 % 256, n3 % 256);
    ParseOfDotted(q);
    PackStep(n, n1, n2, n3);
  }

  lemma PackStep(n: nat, n1: nat, n2: nat, n3: nat)
    requires n1 == n / 0x100 && n2 == n1 / 0x100 && n3 == n2 / 0x100 && n3 < 256
    ensures Pack(Quad(n % 256, n1 % 256, n2 % 256, n3 % 256)) == n
  {
    assert n == n % 256 + 0x100 * n1;
    assert n1 == n1 % 256 + 0x100 * n2;
    assert n2 == n2 % 256 + 0x100 * n3;
  }

  /** What DnsToUint32 computes: the packed addresses of the parsable entries, in order. */
  function Packed(list: seq<string>, mapped: string -> Option<Quad>): seq<nat> {
    if list == [] then []
    else
      var rest := Packed(list[..|list| - 1], mapped);
      match ParseIP4(list[|list| - 1], mapped)
      case Some(q) => rest + [Pack(q)]
      case None => rest
  }

  method DnsToUint32(list: seq<string>, mapped: string -> Option<Quad>) returns (out: seq<nat>)
    ensures out == Packed(list, mapped)
  {
    out := [];
    for i := 0 to |list|
      invariant out == Packed(list[..i], mapped)
    {
      assert list[..i + 1][..i] == list[..i];
      match ParseIP4(list[i], mapped) {
        case None =>
        case Some(q) => out := out + [Pack(q)];
      }
    }
    assert list[..|list|] == list;
  }

  /** Each entry parses and is packed at its own place. */
  ghost predicate PacksEach(list: seq<string>, packed: seq<nat>, mapped: string -> Option<Quad>) {
    && |packed| == |list|
    && forall i :: 0 <= i < |list| ==> PacksOne(list[i], packed[i], mapped)
  }

  ghost predicate PacksOne(d: string, n: nat, mapped: string -> Option<Quad>) {
    ParseIP4(d, mapped).Some? && n == Pack(ParseIP4(d, mapped).value)
  }

  lemma PackedSnoc(list: seq<string>, d: string, mapped: string -> Option<Quad>)
    requires ParseIP4(d, mapped).Some?
    ensures Packed(list + [d], mapped) == Packed(list, mapped) + [Pack(ParseIP4(d, mapped).value)]
  {
    assert (list + [d])[..|list|] == list;
  }

  lemma PacksEachSnoc(list: seq<string>, packed: seq<nat>, d: string, n: nat, mapped: string -> Option<Quad>)
    requires PacksEach(list, packed, mapped) && PacksOne(d, n, mapped)
    ensures PacksEach(list + [d], packed + [n], mapped)
  {
  }

  lemma {:induction false} PackedKeepsAll(list: seq<string>, mapped: string -> Option<Quad>)
    requires forall i :: 0 <= i < |list| ==> ParseIP4(list[i], mapped).Some?
    ensures PacksEach(list, Packed(list, mapped), mapped)
  {
    if list != [] {
      var init, last := list[..|list| - 1], list[|list| - 1];
      PackedKeepsAll(init, mapped);
      PackedSnoc(init, last, mapped);
      PacksEachSnoc(init, Packed(init, mapped), last, Pack(ParseIP4(last, mapped).value), mapped);
      assert list == init + [last];
    }
  }

  /** A text that means an IPv4 address is in canonical form exactly if it is not in IPv6
      notation. */
  lemma CanonicalIffNoColon(s: string, mapped: string -> Option<Quad>)
    requires ParseIP4(s, mapped).Some?
    ensures s == Dotted(ParseIP4(s, mapped).value) <==> ':' !in s
  {
    ParseOfDotted(ParseIP4(s, mapped).value);
    if ':' !in s {
      DottedOfParse(s, ParseDotted(s).value);
    }
  }

  /** The number sent for a DNS entry fits and reads back as the address in canonical form,
      which is the text that was typed exactly if that was not IPv6 notation. */
  ghost predicate Survives(d: string, n: nat, mapped: string -> Option<Quad>) {
    && ParseIP4(d, mapped).Some? && n < 0x1_0000_0000
    && Uint32ToIP(n) == Dotted(ParseIP4(d, mapped).value)
    && (Uint32ToIP(n) == d <==> ':' !in d)
  }

  lemma PackedSurvives(d: string, mapped: string -> Option<Quad>)
    requires ParseIP4(d, mapped).Some?
    ensures Survives(d, Pack(ParseIP4(d, mapped).value), mapped)
  {
    UnpackOfPack(ParseIP4(d, mapped).value);
    CanonicalIffNoColon(d, mapped);
  }

  /** A manual configuration that validates loses no DNS entry: order is kept, each packed
      value fits 32 bits and reads back as the canonical dotted quad, which is the very text
      the operator typed exactly if that was not written in IPv6 notation. */
  lemma ValidatedDnsSurvives(c: IPv4Config, mapped: string -> Option<Quad>)
    requires c.configMethod == "manual" && Validate(c, mapped).None?
    ensures |Packed(c.dns, mapped)| == |c.dns|
    ensures forall i :: 0 <= i < |c.dns| ==> Survives(c.dns[i], Packed(c.dns, mapped)[i], mapped)
  {
    FirstBadNone(c.dns, mapped);
    PackedKeepsAll(c.dns, mapped);
    forall i | 0 <= i < |c.dns| ensures Survives(c.dns[i], Packed(c.dns, mapped)[i], mapped) {
      assert PacksOne(c.dns[i], Packed(c.dns, mapped)[i], mapped);
      PackedSurvives(c.dns[i], mapped);
    }
  }

  // ---- rewriting a connection profile ----

  datatype Variant =
    | Text(text: string)
    | Numbers(numbers: seq<nat>)
    | AddressData(address: string, prefix: nat)
    | Other(id: nat)

  type Section = map<string, Variant>
  type Settings = map<string, Section>

  /** The ipv4 section a configuration asks for. */
  function Ipv4Section(c: IPv4Config, mapped: string -> Option<Quad>): Section {
    if c.configMethod == "auto" then
      map["method" := Text("auto")]
    else
      var dns := Packed(c.dns, mapped);
      map["method" := Text("manual"), "address-data" := AddressData(c.address, c.prefix)]
      + (if c.gateway != "" then map["gateway" := Text(c.gateway)] else map[])
      + (if |dns| > 0 then map["dns" := Numbers(dns)] else map[])
  }

  const STRIPPED := {"addresses", "routes"}

  /** A section without the keys NetworkManager refuses or computes itself. */
  function Stripped(name: string, section: Section): Section {
    if name == "ipv4" || name == "ipv6" then section - STRIPPED
    else if name == "connection" then section - {"timestamp"}
    else section
  }

  /** A profile with its ipv4 section replaced and every section stripped. */
  function Rewritten(settings: Settings, ipv4: Section): Settings {
    map name | name in settings.Keys + {"ipv4"} ::
      Stripped(name, if name == "ipv4" then ipv4 else settings[name])
  }

  method BuildSection(c: IPv4Config, mapped: string -> Option<Quad>) returns (ipv4: Section)
    ensures ipv4 == Ipv4Section(c, mapped)
  {
    ipv4 := map[];
    if c.configMethod == "auto" {
      ipv4 := ipv4["method" := Text("auto")];
    } else {
      ipv4 := ipv4["method" := Text("manual")];
      ipv4 := ipv4["address-data" := AddressData(c.address, c.prefix)];
      if c.gateway != "" {
        ipv4 := ipv4["gateway" := Text(c.gateway)];
      }
      var dns := DnsToUint32(c.dns, mapped);
      if |dns| > 0 {
        ipv4 := ipv4["dns" := Numbers(dns)];
      }
    }
  }

  /** The keys NetworkManager refuses or computes go, first from the address sections, then
      from the connection section. */
  method StripSections(settings: Settings) returns (stripped: Settings)
    ensures stripped.Keys == settings.Keys
    ensures forall name :: name in settings ==> stripped[name] == Stripped(name, settings[name])
  {
    stripped := settings;
    var sections := ["ipv4", "ipv6"];
    for i := 0 to 2
      invariant stripped.Keys == settings.Keys
      invariant forall name :: name in settings ==>
        stripped[name] == if name in sections[..i] then settings[name] - STRIPPED else settings[name]
    {
      assert sections[..i + 1] == sections[..i] + [sections[i]];
      if sections[i] in settings {
        stripped := stripped[sections[i] := stripped[sections[i]] - STRIPPED];
      }
    }
    assert sections[..2] == sections;
    if "connection" in stripped {
      stripped := stripped["connection" := stripped["connection"] - {"timestamp"}];
    }
  }

  /** An ipv4 section that asks for a manual configuration: what its keys say, one by one, with
      one number for each DNS entry, its bytes from the first of the address up. */
  ghost predicate AsksFor(section: Section, c: IPv4Config, mapped: string -> Option<Quad>) {
    && section.Keys == {"method", "address-data"} + (if c.gateway == "" then {} else {"gateway"})
                       + (if c.dns == [] then {} else {"dns"})
    && section["method"] == Text("manual")
    && section["address-data"] == AddressData(c.address, c.prefix)
    && (c.gateway != "" ==> section["gateway"] == Text(c.gateway))
    && (c.dns != [] ==> section["dns"].Numbers? && MeanNumbers(c.dns, section["dns"].numbers, mapped))
  }

  ghost predicate MeanNumbers(list: seq<string>, numbers: seq<nat>, mapped: string -> Option<Quad>) {
    |numbers| == |list| && forall i :: 0 <= i < |list| ==> MeansNumber(list[i], numbers[i], mapped)
  }

  ghost predicate MeansNumber(d: string, n: nat, mapped: string -> Option<Quad>) {
    exists a: Byte, b: Byte, c: Byte, e: Byte ::
      ParseIP4(d, mapped) == Some(Quad(a, b, c, e)) && n == a + 256 * b + 65536 * c + 16777216 * e
  }

  /** A profile of which nothing but the ipv4 section and the keys NetworkManager refuses or
      computes differs from what was read. */
  ghost predicate LeavesRest(sent: Settings, current: Settings) {
    && sent.Keys == current.Keys + {"ipv4"}
    && (forall name :: name in current && name !in ["ipv4", "ipv6", "connection"] ==> sent[name] == current[name])
    && ("ipv6" in current ==> sent["ipv6"] == current["ipv6"] - {"addresses", "routes"})
    && ("connection" in current ==> sent["connection"] == current["connection"] - {"timestamp"})
  }

  lemma PackedMeans(d: string, n: nat, mapped: string -> Option<Quad>)
    requires PacksOne(d, n, mapped)
    ensures MeansNumber(d, n, mapped)
  {
    var q := ParseIP4(d, mapped).value;
    assert ParseIP4(d, mapped) == Some(Quad(q.a, q.b, q.c, q.d));
  }

  lemma PackedMeanTheirEntries(list: seq<string>, mapped: string -> Option<Quad>)
    requires FirstBad(list, mapped).None?
    ensures MeanNumbers(list, Packed(list, mapped), mapped)
  {
    FirstBadNone(list, mapped);
    PackedKeepsAll(list, mapped);
    forall i | 0 <= i < |list| ensures MeansNumber(list[i], Packed(list, mapped)[i], mapped) {
      assert PacksOne(list[i], Packed(list, mapped)[i], mapped);
      PackedMeans(list[i], Packed(list, mapped)[i], mapped);
    }
  }

  lemma SectionKeys(c: IPv4Config, mapped: string -> Option<Quad>)
    requires c.configMethod == "manual" && |Packed(c.dns, mapped)| == |c.dns|
    ensures var section := Stripped("ipv4", Ipv4Section(c, mapped));
            && section.Keys == {"method", "address-data"} + (if c.gateway == "" then {} else {"gateway"})
                               + (if c.dns == [] then {} else {"dns"})
            && section["method"] == Text("manual")
            && section["address-data"] == AddressData(c.address, c.prefix)
            && (c.gateway != "" ==> section["gateway"] == Text(c.gateway))
            && (c.dns != [] ==> section["dns"] == Numbers(Packed(c.dns, mapped)))
  {
  }

  lemma AsksForAll(section: Section, c: IPv4Config, numbers: seq<nat>, mapped: string -> Option<Quad>)
    requires section.Keys == {"method", "address-data"} + (if c.gateway == "" then {} else {"gateway"})
                             + (if c.dns == [] then {} else {"dns"})
    requires section["method"] == Text("manual") && section["address-data"] == AddressData(c.address, c.prefix)
    requires c.gateway != "" ==> section["gateway"] == Text(c.gateway)
    requires c.dns != [] ==> section["dns"] == Numbers(numbers)
    requires MeanNumbers(c.dns, numbers, mapped)
    ensures AsksFor(section, c, mapped)
  {
  }

  lemma SectionAsksFor(c: IPv4Config, mapped: string -> Option<Quad>)
    requires c.configMethod == "manual" && FirstBad(c.dns, mapped).None?
    ensures AsksFor(Stripped("ipv4", Ipv4Section(c, mapped)), c, mapped)
  {
    PackedMeanTheirEntries(c.dns, mapped);
    SectionKeys(c, mapped);
    AsksForAll(Stripped("ipv4", Ipv4Section(c, mapped)), c, Packed(c.dns, mapped), mapped);
  }

  lemma RewrittenLeavesRest(current: Settings, request: Section)
    ensures LeavesRest(Rewritten(current, request), current)
    ensures Rewritten(current, request)["ipv4"] == Stripped("ipv4", request)
  {
  }

  /** What the rewriting of a profile for a valid configuration comes to. */
  lemma RewrittenSpelledOut(current: Settings, c: IPv4Config, mapped: string -> Option<Quad>)
    requires Validate(c, mapped).None?
    ensures var sent := Rewritten(current, Ipv4Section(c, mapped));
            && LeavesRest(sent, current)
            && (c.configMethod == "auto" ==> sent["ipv4"] == map["method" := Text("auto")])
            && (c.configMethod != "auto" ==> AsksFor(sent["ipv4"], c, mapped))
  {
    RewrittenLeavesRest(current, Ipv4Section(c, mapped));
    if c.configMethod != "auto" {
      SectionAsksFor(c, mapped);
    } else {
      assert Stripped("ipv4", Ipv4Section(c, mapped)) == map["method" := Text("auto")];
    }
  }

  /** updateIPv4 between GetSettings and Update. */
  method UpdateSettings(current: Settings, c: IPv4Config, mapped: string -> Option<Quad>)
    returns (settings: Settings)
    ensures settings == Rewritten(current, Ipv4Section(c, mapped))
    ensures Validate(c, mapped).None? ==>
      && LeavesRest(settings, current)
      && (c.configMethod == "auto" ==> settings["ipv4"] == map["method" := Text("auto")])
      && (c.configMethod != "auto" ==> AsksFor(settings["ipv4"], c, mapped))
  {
    var ipv4 := BuildSection(c, mapped);
    settings := StripSections(current["ipv4" := ipv4]);
    if Validate(c, mapped).None? {
      RewrittenSpelledOut(current, c, mapped);
    }
  }

  /** The ipv4 section of the profile that is sent. */
  function SentIpv4(current: Settings, c: IPv4Config, mapped: string -> Option<Quad>): Section {
    Rewritten(current, Ipv4Section(c, mapped))["ipv4"]
  }

  /** The address and the gateway of a valid manual configuration are sent as they were typed,
      which is the canonical form exactly if they were not written in IPv6 notation. */
  lemma AddressSentAsTyped(current: Settings, c: IPv4Config, mapped: string -> Option<Quad>)
    requires c.configMethod == "manual" && Validate(c, mapped).None?
    ensures var sent := SentIpv4(current, c, mapped);
            && "address-data" in sent && sent["address-data"] == AddressData(c.address, c.prefix)
            && ParseIP4(c.address, mapped).Some?
            && (c.address == Dotted(ParseIP4(c.address, mapped).value) <==> ':' !in c.address)
            && ("gateway" in sent <==> c.gateway != "")
            && (c.gateway != "" ==>
                  && sent["gateway"] == Text(c.gateway)
                  && ParseIP4(c.gateway, mapped).Some?
                  && (c.gateway == Dotted(ParseIP4(c.gateway, mapped).value) <==> ':' !in c.gateway))
  {
    RewrittenSpelledOut(current, c, mapped);
    CanonicalIffNoColon(c.address, mapped);
    if c.gateway != "" {
      CanonicalIffNoColon(c.gateway, mapped);
    }
  }

  lemma MappedTextPasses(text: string, mapped: string -> Option<Quad>)
    requires ParseIP4(text, mapped).Some?
    ensures Validate(IPv4Config("manual", text, 24, text, [text]), mapped).None?
  {
    ValidateAccepts(IPv4Config("manual", text, 24, text, [text]), mapped);
  }

  ghost predicate MappedSection(section: Section, text: string, q: Quad) {
    && Dotted(q) != text
    && "address-data" in section && section["address-data"] == AddressData(text, 24)
    && "gateway" in section && section["gateway"] == Text(text)
    && "dns" in section && section["dns"] == Numbers([q.a + 256 * q.b + 65536 * q.c + 16777216 * q.d])
  }

  lemma OneNumber(sent: Section, c: IPv4Config, text: string, q: Quad, mapped: string -> Option<Quad>)
    requires c == IPv4Config("manual", text, 24, text, [text]) && text != ""
    requires AsksFor(sent, c, mapped) && ParseIP4(text, mapped) == Some(q)
    ensures sent["dns"] == Numbers([q.a + 256 * q.b + 65536 * q.c + 16777216 * q.d])
  {
    assert c.dns != [] && MeansNumber(c.dns[0], sent["dns"].numbers[0], mapped);
    assert sent["dns"].numbers == [sent["dns"].numbers[0]];
  }

  /** So a configuration written all over in IPv6 notation passes, and its address and gateway
      leave as typed, though not canonical, while its DNS entry leaves as the number it means. */
  lemma MappedTextSent(current: Settings, text: string, q: Quad, mapped: string -> Option<Quad>)
    requires ':' in text && mapped(text) == Some(q)
    ensures var c := IPv4Config("manual", text, 24, text, [text]);
            Validate(c, mapped).None? && MappedSection(SentIpv4(current, c, mapped), text, q)
  {
    var c := IPv4Config("manual", text, 24, text, [text]);
    MappedTextPasses(text, mapped);
    RewrittenSpelledOut(current, c, mapped);
    OneNumber(SentIpv4(current, c, mapped), c, text, q, mapped);
    CanonicalIffNoColon(text, mapped);
  }

  /** A library that reads one mapped address. */
  function OneMapped(s: string): Option<Quad> {
    if s == "::ffff:10.0.0.1" then Some(Quad(10, 0, 0, 1)) else None
  }

  /** One such configuration. */
  lemma MappedExample(current: Settings)
    ensures var text := "::ffff:10.0.0.1";
            var c := IPv4Config("manual", text, 24, text, [text]);
            Validate(c, OneMapped).None? && MappedSection(SentIpv4(current, c, OneMapped), text, Quad(10, 0, 0, 1))
  {
    var text := "::ffff:10.0.0.1";
    assert text[0] == ':';
    MappedTextSent(current, text, Quad(10, 0, 0, 1), OneMapped);
  }

  /** Applying a second configuration leaves no trace of the first one, and applying the
      same one twice changes nothing more. */
  lemma LastRewriteWins(settings: Settings, first: Section, second: Section)
    ensures Rewritten(Rewritten(settings, first), second) == Rewritten(settings, second)
  {
    var once := Rewritten(settings, first);
    var twice := Rewritten(once, second);
    var direct := Rewritten(settings, second);
    assert once.Keys == settings.Keys + {"ipv4"};
    assert twice.Keys == direct.Keys;
    forall name | name in twice ensures twice[name] == direct[name] {
      if name == "ipv6" {
        assert (settings[name] - STRIPPED) - STRIPPED == settings[name] - STRIPPED;
      } else if name == "connection" {
        assert (settings[name] - {"timestamp"}) - {"timestamp"} == settings[name] - {"timestamp"};
      }
    }
  }
}
