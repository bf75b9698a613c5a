/** Route attributes: the aligned type-length-value records in the data part of a Netlink
    message, section 2.2 of RFC 3549 (internal/sysinfo/can_netlink.go). */
module Netlink {
  import opened Bytes
  import opened Tables

  /** nlaTypeMask keeps the low 14 bits; the other two say nested and network byte order. */
  const TYPE_VALUES: nat := 0x4000

  /** RTA_ALIGN. */
  function Align(n: nat): (m: nat)
    ensures n <= m < n + 4 && m % 4 == 0
  {
    (n + 3) / 4 * 4
  }

  /** A decoded attribute: its type without the flag bits, and its payload. */
  type Content = (nat, seq<Byte>)

  /** The attributes a buffer holds, in order, up to the first that is malformed or cut. */
  function AttrList(b: seq<Byte>): seq<Content>
    decreases |b|
  {
    if |b| < 4 then []
    else
      var alen := GetLE16(b[0..2]);
      if alen < 4 || alen > |b| then []
      else
        var content := (GetLE16(b[2..4]) % TYPE_VALUES, b[4..alen]);
        if Align(alen) >= |b| then [content] else [content] + AttrList(b[Align(alen)..])
  }

  method ParseAttrs(buffer: seq<Byte>) returns (m: map<nat, seq<Byte>>)
    ensures m == LastWins(AttrList(buffer))
  {
    m := map[];
    var b := buffer;
    ghost var done: seq<Content> := [];
    while |b| >= 4
      invariant m == LastWins(done) && Remaining(buffer, done, b)
      decreases |b|
    {
      var alen := GetLE16(b[0..2]);
      var atype := GetLE16(b[2..4]) % TYPE_VALUES;
      if alen < 4 || alen > |b| {
        Stopped(buffer, done, b);
        return;
      }
      Advanced(buffer, done, b);
      LastWinsSnoc(done, (atype, b[4..alen]));
      done := done + [(atype, b[4..alen])];
      m := m[atype := b[4..alen]];
      var adv := Align(alen);
      if adv >= |b| {
        Stopped(buffer, done, []);
        return;
      }
      b := b[adv..];
    }
    Stopped(buffer, done, b);
  }

  /** The attributes of the buffer are those done and those of the rest. */
  ghost predicate Remaining(buffer: seq<Byte>, done: seq<Content>, b: seq<Byte>) {
    AttrList(buffer) == done + AttrList(b)
  }

  lemma Stopped(buffer: seq<Byte>, done: seq<Content>, b: seq<Byte>)
    requires Remaining(buffer, done, b)
    requires |b| < 4 || GetLE16(b[0..2]) < 4 || GetLE16(b[0..2]) > |b|
    ensures AttrList(buffer) == done
  {
    assert done + [] == done;
  }

  lemma Advanced(buffer: seq<Byte>, done: seq<Content>, b: seq<Byte>)
    requires Remaining(buffer, done, b) && |b| >= 4 && 4 <= GetLE16(b[0..2]) <= |b|
    ensures var alen := GetLE16(b[0..2]);
            Remaining(buffer, done + [(GetLE16(b[2..4]) % TYPE_VALUES, b[4..alen])],
                      if Align(alen) >= |b| then [] else b[Align(alen)..])
  {
    var alen := GetLE16(b[0..2]);
    var content := (GetLE16(b[2..4]) % TYPE_VALUES, b[4..alen]);
    var more := AttrList(if Align(alen) >= |b| then [] else b[Align(alen)..]);
    AttrListStep(b);
    assert done + ([content] + more) == done + [content] + more;
  }

  lemma AttrListStep(b: seq<Byte>)
    requires |b| >= 4 && 4 <= GetLE16(b[0..2]) <= |b|
    ensures var alen := GetLE16(b[0..2]);
            AttrList(b) == [(GetLE16(b[2..4]) % TYPE_VALUES, b[4..alen])]
                           + AttrList(if Align(alen) >= |b| then [] else b[Align(alen)..])
  {
  }

  /** On any bytes at all, every payload is a piece of the buffer behind some header. */
  lemma {:induction false} PayloadsAreSubranges(b: seq<Byte>, n: nat)
    requires n < |AttrList(b)|
    ensures exists i, j :: 4 <= i <= j <= |b| && AttrList(b)[n].1 == b[i..j]
    decreases n
  {
    var alen := GetLE16(b[0..2]);
    if n == 0 {
      assert AttrList(b)[0].1 == b[4..alen];
    } else {
      var adv := Align(alen);
      PayloadsAreSubranges(b[adv..], n - 1);
      var i, j :| 4 <= i <= j <= |b| - adv && AttrList(b[adv..])[n - 1].1 == b[adv..][i..j];
      SliceOfTail(b, adv, i, j);
    }
  }

  lemma SliceOfTail(b: seq<Byte>, adv: nat, i: nat, j: nat)
    requires i <= j && adv + j <= |b|
    ensures b[adv..][i..j] == b[adv + i..adv + j]
  {
  }

  // ---- attributes as the kernel writes them ----

  /** An attribute on the wire: `flags` are the two bits above the type, `pad` fills up to the
      next multiple of four with whatever bytes. */
  datatype Attr = Attr(typ: nat, flags: nat, payload: seq<Byte>, pad: seq<Byte>) {
    predicate Valid() {
      && typ < TYPE_VALUES && flags < 4 && |payload| + 4 < 0x1_0000
      && |pad| == Align(|payload|) - |payload|
    }
  }

  function EncodeAttr(a: Attr): (b: seq<Byte>)
    requires a.Valid()
    ensures |b| == 4 + |a.payload| + |a.pad| == Align(4 + |a.payload|)
  {
    LE16(|a.payload| + 4) + LE16(a.typ + TYPE_VALUES * a.flags) + a.payload + a.pad
  }

  predicate Valid(attrs: seq<Attr>) {
    forall a :: a in attrs ==> a.Valid()
  }

  function Encode(attrs: seq<Attr>): seq<Byte>
    requires Valid(attrs)
  {
    if attrs == [] then []
    else
      assert attrs[0] in attrs;
      EncodeAttr(attrs[0]) + Encode(attrs[1..])
  }

  function Contents(attrs: seq<Attr>): (list: seq<Content>)
    ensures |list| == |attrs|
    ensures forall i :: 0 <= i < |attrs| ==> list[i] == (attrs[i].typ, attrs[i].payload)
  {
    if attrs == [] then [] else [(attrs[0].typ, attrs[0].payload)] + Contents(attrs[1..])
  }

  lemma ContentsCons(attrs: seq<Attr>, n: nat)
    requires n < |attrs|
    ensures Contents(attrs[..n + 1]) == [(attrs[0].typ, attrs[0].payload)] + Contents(attrs[1..][..n])
  {
    assert attrs[..n + 1][1..] == attrs[1..][..n];
  }

  /** How many attributes have their header and payload wholly in the first k bytes. */
  function Within(attrs: seq<Attr>, k: nat): (n: nat)
    requires Valid(attrs)
    ensures n <= |attrs|
  {
    if attrs == [] || k < 4 + |attrs[0].payload| then 0
    else
      assert attrs[0] in attrs;
      1 + Within(attrs[1..], if k < |EncodeAttr(attrs[0])| then 0 else k - |EncodeAttr(attrs[0])|)
  }

  lemma EncodedHeader(a: Attr, b: seq<Byte>)
    requires a.Valid() && |b| >= 4 && b[..4] == EncodeAttr(a)[..4]
    ensures GetLE16(b[0..2]) == |a.payload| + 4
    ensures GetLE16(b[2..4]) % TYPE_VALUES == a.typ
  {
    assert b[0..2] == b[..4][0..2] == LE16(|a.payload| + 4) + [];
    assert b[2..4] == b[..4][2..4] == LE16(a.typ + TYPE_VALUES * a.flags) + [];
    LE16RoundTrip(|a.payload| + 4, []);
    LE16RoundTrip(a.typ + TYPE_VALUES * a.flags, []);
  }

  /** The first attribute of a cut buffer. */
  lemma FirstOfTruncated(a: Attr, rest: seq<Byte>, k: nat)
    requires a.Valid() && k <= |EncodeAttr(a) + rest|
    ensures var b := (EncodeAttr(a) + rest)[..k];
            var size := |EncodeAttr(a)|;
            AttrList(b) == if k < 4 + |a.payload| then []
                           else [(a.typ, a.payload)] + AttrList(rest[..if k < size then 0 else k - size])
  {
    var b := (EncodeAttr(a) + rest)[..k];
    var size := |EncodeAttr(a)|;
    if k >= 4 {
      EncodedHeader(a, b);
      if k >= 4 + |a.payload| {
        assert b[4..4 + |a.payload|] == a.payload;
        if k > size {
          assert b[size..] == rest[..k - size];
        }
      }
    }
  }

  /** Cut at any point, an encoded list decodes to exactly the attributes that fit. */
  lemma {:induction false} AttrListOfTruncated(attrs: seq<Attr>, k: nat)
    requires Valid(attrs) && k <= |Encode(attrs)|
    ensures AttrList(Encode(attrs)[..k]) == Contents(attrs[..Within(attrs, k)])
  {
    if attrs != [] {
      var a := attrs[0];
      assert a in attrs;
      var rest := Encode(attrs[1..]);
      var size := |EncodeAttr(a)|;
      FirstOfTruncated(a, rest, k);
      if k >= 4 + |a.payload| {
        var k' := if k < size then 0 else k - size;
        AttrListOfTruncated(attrs[1..], k');
        var n := Within(attrs[1..], k');
        ContentsCons(attrs, n);
      }
    }
  }

  lemma {:induction false} AllWithin(attrs: seq<Attr>)
    requires Valid(attrs)
    ensures Within(attrs, |Encode(attrs)|) == |attrs|
  {
    if attrs != [] {
      assert attrs[0] in attrs;
      AllWithin(attrs[1..]);
    }
  }

  lemma AttrListOfEncoded(attrs: seq<Attr>)
    requires Valid(attrs)
    ensures AttrList(Encode(attrs)) == Contents(attrs)
  {
    AllWithin(attrs);
    AttrListOfTruncated(attrs, |Encode(attrs)|);
    assert Encode(attrs)[..|Encode(attrs)|] == Encode(attrs) && attrs[..|attrs|] == attrs;
  }

  /** attrs lists the entries of m, each once, in some order, with some flags and padding. */
  ghost predicate Arranges(attrs: seq<Attr>, m: map<nat, seq<Byte>>) {
    && Valid(attrs)
    && (forall i, j :: 0 <= i < j < |attrs| ==> attrs[i].typ != attrs[j].typ)
    && (forall i :: 0 <= i < |attrs| ==> attrs[i].typ in m && m[attrs[i].typ] == attrs[i].payload)
    && (forall t :: t in m ==> exists i :: 0 <= i < |attrs| && attrs[i].typ == t)
  }

  /** However the entries are ordered, flagged and padded, parsing gives the map back. */
  lemma ParseOfArranged(attrs: seq<Attr>, m: map<nat, seq<Byte>>)
    requires Arranges(attrs, m)
    ensures LastWins(AttrList(Encode(attrs))) == m
  {
    AttrListOfEncoded(attrs);
    var list := Contents(attrs);
    var parsed := LastWins(list);
    forall t | t in m ensures t in parsed && parsed[t] == m[t] {
      var i :| 0 <= i < |attrs| && attrs[i].typ == t;
      LastWinsAt(list, i);
    }
    forall t | t in parsed ensures t in m {
      var i := LastWinsOnly(list, t);
      assert attrs[i].typ == t;
    }
  }

  /** An attribute byte by byte: length and type with their low byte first, the length counting
      the header, the two highest bits of the type not looked at; the next one starts at the
      next multiple of four. */
  lemma AttributeSpelledOut(l0: Byte, l1: Byte, t0: Byte, t1: Byte, payload: seq<Byte>, pad: seq<Byte>, rest: seq<Byte>)
    requires l0 + 256 * l1 == 4 + |payload|
    requires |pad| < 4 && (4 + |payload| + |pad|) % 4 == 0
    ensures AttrList([l0, l1, t0, t1] + payload + pad + rest)
         == [((t0 + 256 * t1) % 16384, payload)] + AttrList(rest)
  {
    var b := [l0, l1, t0, t1] + payload + pad + rest;
    var n := 4 + |payload|;
    assert b[0..2] == [l0, l1] && b[2..4] == [t0, t1];
    assert b[4..n] == payload;
    assert Align(n) == n + |pad| by {
      AlignIs(n, n + |pad|);
    }
    assert b[n + |pad|..] == rest;
    AttrListStep(b);
  }

  lemma AlignIs(n: nat, m: nat)
    requires n <= m < n + 4 && m % 4 == 0
    ensures Align(n) == m
  {
  }
}
