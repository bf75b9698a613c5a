/** Docker's multiplexed log stream: frames of an 8-byte header and a payload, turned back into
    lines of text (internal/containers/logs.go). */
module DockerLogs {
  import opened Bytes
  import opened Options
  import opened Sequences

  const NEWLINE: Byte := 10

  datatype ReadError = EOF | UnexpectedEOF

  /** The bytes a stream still has to give, read by io.ReadFull. */
  class Reader {
    const data: seq<Byte>
    var pos: nat

    ghost predicate Valid()
      reads this
    {
      pos <= |data|
    }

    function Rest(): seq<Byte>
      requires pos <= |data|
      reads this
    {
      data[pos..]
    }

    constructor (data: seq<Byte>)
      ensures Valid() && Rest() == data
    {
      this.data := data;
      this.pos := 0;
    }

    /** Exactly n bytes, or the error that tells an exhausted stream from a torn read. */
    method ReadFull(n: nat) returns (buf: seq<Byte>, err: Option<ReadError>)
      requires Valid()
      modifies this
      ensures Valid()
      ensures err.None? <==> n <= |old(Rest())|
      ensures err.None? ==> buf == old(Rest())[..n] && Rest() == old(Rest())[n..]
      ensures err.Some? ==> err.value == if old(Rest()) == [] then EOF else UnexpectedEOF
    {
      if n <= |data| - pos {
        buf, err := data[pos..pos + n], None;
        pos := pos + n;
        assert buf == old(Rest())[..n];
      } else {
        buf, err := data[pos..], Some(if pos == |data| then EOF else UnexpectedEOF);
        pos := |data|;
      }
    }
  }

  // ---- what a stream says ----

  /** The complete payloads of a stream, whether it stops where a header should be, and the
      error of the read that stops it. */
  datatype Decoded = Decoded(payloads: seq<seq<Byte>>, atHeader: bool, err: ReadError)

  function Decode(b: seq<Byte>): Decoded
    decreases |b|
  {
    if |b| < 8 then
      Decoded([], true, if b == [] then EOF else UnexpectedEOF)
    else
      var n := GetBE32(b[4..8]);
      if |b| - 8 < n then
        Decoded([], false, if |b| == 8 then EOF else UnexpectedEOF)
      else
        var d := Decode(b[8 + n..]);
        d.(payloads := [b[8..8 + n]] + d.payloads)
  }

  function Flatten(parts: seq<seq<Byte>>): seq<Byte> {
    if parts == [] then [] else parts[0] + Flatten(parts[1..])
  }

  /** The lines a text completes, and what follows its last newline. */
  function Lines(text: seq<Byte>): seq<seq<Byte>> {
    ButLast(Split(text, NEWLINE))
  }

  function Tail(text: seq<Byte>): seq<Byte> {
    Last(Split(text, NEWLINE))
  }

  /** Everything emit is called with. */
  function Emission(d: Decoded): seq<seq<Byte>> {
    var text := Flatten(d.payloads);
    Lines(text) + if d.atHeader && Tail(text) != [] then [Tail(text)] else []
  }

  lemma {:induction false} FlattenSnoc(parts: seq<seq<Byte>>, p: seq<Byte>)
    ensures Flatten(parts + [p]) == Flatten(parts) + p
  {
    if parts == [] {
      assert [p][1..] == [];
    } else {
      assert (parts + [p])[1..] == parts[1..] + [p];
      FlattenSnoc(parts[1..], p);
    }
  }

  // ---- the loop ----

  method IndexByte(b: seq<Byte>, c: Byte) returns (i: int)
    ensures i == IndexOf(b, c)
  {
    for k := 0 to |b|
      invariant c !in b[..k]
    {
      if b[k] == c {
        IndexOfIsFirst(b, c, k);
        return k;
      }
    }
    assert b[..|b|] == b;
    return -1;
  }

  /** Emits the complete lines of the buffer and keeps the rest. */
  method DrainLines(buffer: seq<Byte>) returns (emitted: seq<seq<Byte>>, line: seq<Byte>)
    ensures emitted == Lines(buffer) && line == Tail(buffer)
  {
    emitted, line := [], buffer;
    while true
      invariant Split(buffer, NEWLINE) == emitted + Split(line, NEWLINE)
      decreases |line|
    {
      var i := IndexByte(line, NEWLINE);
      if i < 0 {
        assert Split(line, NEWLINE) == [line];
        break;
      }
      assert Split(line, NEWLINE) == [line[..i]] + Split(line[i + 1..], NEWLINE);
      emitted := emitted + [line[..i]];
      line := line[i + 1..];
    }
  }

  /** StreamLines without a TTY. */
  method StreamLines(r: Reader) returns (emitted: seq<seq<Byte>>, err: ReadError)
    requires r.Valid()
    modifies r
    ensures emitted == Emission(Decode(old(r.Rest())))
    ensures err == Decode(old(r.Rest())).err
  {
    emitted := [];
    var line: seq<Byte> := [];
    ghost var seen: seq<seq<Byte>> := [];
    ghost var all := Decode(r.Rest());
    while true
      invariant r.Valid()
      invariant Remaining(all, seen, r.Rest())
      invariant Split(Flatten(seen), NEWLINE) == emitted + [line]
      decreases |r.Rest()|
    {
      ghost var rest := r.Rest();
      var header, torn := r.ReadFull(8);
      if torn.Some? {
        Stopped(seen, emitted, line, all, rest);
        if |line| > 0 {
          emitted := emitted + [line];
        }
        return emitted, torn.value;
      }
      var n := GetBE32(header[4..8]);
      assert header[4..8] == rest[4..8];
      var payload;
      payload, torn := r.ReadFull(n);
      if torn.Some? {
        Stopped(seen, emitted, line, all, rest);
        return emitted, torn.value;
      }
      assert payload == rest[8..8 + n] && r.Rest() == rest[8 + n..];
      Advanced(all, seen, rest, payload);
      Appended(seen, emitted, line, payload);
      var complete;
      complete, line := DrainLines(line + payload);
      emitted := emitted + complete;
      seen := seen + [payload];
    }
  }

  /** What is decoded in all: the payloads seen so far and those of the rest. */
  ghost predicate Remaining(all: Decoded, seen: seq<seq<Byte>>, rest: seq<Byte>) {
    all == Decode(rest).(payloads := seen + Decode(rest).payloads)
  }

  lemma Advanced(all: Decoded, seen: seq<seq<Byte>>, rest: seq<Byte>, payload: seq<Byte>)
    requires Remaining(all, seen, rest) && |rest| >= 8 && GetBE32(rest[4..8]) <= |rest| - 8
    requires payload == rest[8..8 + GetBE32(rest[4..8])]
    ensures Remaining(all, seen + [payload], rest[8 + GetBE32(rest[4..8])..])
  {
    var more := Decode(rest[8 + GetBE32(rest[4..8])..]).payloads;
    assert seen + ([payload] + more) == seen + [payload] + more;
  }

  /** A stream that gives no further payload has been emitted but for its tail. */
  lemma Stopped(seen: seq<seq<Byte>>, emitted: seq<seq<Byte>>, line: seq<Byte>, all: Decoded, rest: seq<Byte>)
    requires Split(Flatten(seen), NEWLINE) == emitted + [line]
    requires Remaining(all, seen, rest) && Decode(rest).payloads == []
    ensures Emission(all) == emitted + if all.atHeader && line != [] then [line] else []
  {
    assert seen + [] == seen;
    assert ButLast(emitted + [line]) == emitted;
  }

  /** A payload continues the unfinished line. */
  lemma Appended(seen: seq<seq<Byte>>, emitted: seq<seq<Byte>>, line: seq<Byte>, payload: seq<Byte>)
    requires Split(Flatten(seen), NEWLINE) == emitted + [line]
    ensures Split(Flatten(seen + [payload]), NEWLINE)
         == emitted + Lines(line + payload) + [Tail(line + payload)]
  {
    FlattenSnoc(seen, payload);
    SplitResumes(Flatten(seen), payload, emitted, line, NEWLINE);
    ButLastAndLast(Split(line + payload, NEWLINE));
    Associates(emitted, Lines(line + payload), [Tail(line + payload)]);
  }

  // ---- streams as Docker writes them ----

  /** One write of the container: which output it went to, and its bytes. */
  datatype Frame = Frame(stream: Byte, payload: seq<Byte>)

  predicate Encodable(frames: seq<Frame>) {
    forall f :: f in frames ==> |f.payload| < 0x1_0000_0000
  }

  function EncodeFrame(f: Frame): seq<Byte>
    requires |f.payload| < 0x1_0000_0000
  {
    [f.stream, 0, 0, 0] + BE32(|f.payload|) + f.payload
  }

  function Encode(frames: seq<Frame>): seq<Byte>
    requires Encodable(frames)
  {
    if frames == [] then [] else EncodeFrame(frames[0]) + Encode(frames[1..])
  }

  function PayloadsOf(frames: seq<Frame>): seq<seq<Byte>> {
    if frames == [] then [] else [frames[0].payload] + PayloadsOf(frames[1..])
  }

  /** How many frames lie wholly in the first k bytes. */
  function Whole(frames: seq<Frame>, k: nat): (n: nat)
    ensures n <= |frames|
  {
    if frames == [] || k < 8 + |frames[0].payload| then 0
    else 1 + Whole(frames[1..], k - 8 - |frames[0].payload|)
  }

  /** How many of the first k bytes follow those frames. */
  function Leftover(frames: seq<Frame>, k: nat): nat {
    if frames == [] || k < 8 + |frames[0].payload| then k
    else Leftover(frames[1..], k - 8 - |frames[0].payload|)
  }

  lemma DecodeFrame(f: Frame, rest: seq<Byte>)
    requires |f.payload| < 0x1_0000_0000
    ensures Decode(EncodeFrame(f) + rest) == Decode(rest).(payloads := [f.payload] + Decode(rest).payloads)
  {
    var b := EncodeFrame(f) + rest;
    var n := |f.payload|;
    assert b[4..8] == BE32(n) + [];
    BE32RoundTrip(n, []);
    assert b[8..8 + n] == f.payload && b[8 + n..] == rest;
  }

  lemma DecodeTornFrame(f: Frame, k: nat)
    requires |f.payload| < 0x1_0000_0000 && k < |EncodeFrame(f)|
    ensures var d := Decode(EncodeFrame(f)[..k]);
            d.payloads == [] && d.atHeader == (k < 8) && (d.err == EOF <==> k == 0 || k == 8)
  {
    if k >= 8 {
      assert EncodeFrame(f)[..k][4..8] == BE32(|f.payload|) + [];
      BE32RoundTrip(|f.payload|, []);
    }
  }

  lemma EncodePrefix(frames: seq<Frame>, k: nat)
    requires Encodable(frames) && k <= |Encode(frames)| && frames != []
    ensures Encodable(frames[1..]) && |frames[0].payload| < 0x1_0000_0000
    ensures var head := EncodeFrame(frames[0]);
            && |head| == 8 + |frames[0].payload|
            && (k < |head| ==> Encode(frames)[..k] == head[..k])
            && (k >= |head| ==> k - |head| <= |Encode(frames[1..])|)
            && (k >= |head| ==> Encode(frames)[..k] == head + Encode(frames[1..])[..k - |head|])
  {
    assert frames[0] in frames;
  }

  lemma PayloadsCons(frames: seq<Frame>, n: nat)
    requires n < |frames|
    ensures PayloadsOf(frames[..n + 1]) == [frames[0].payload] + PayloadsOf(frames[1..][..n])
  {
    assert frames[..n + 1][1..] == frames[1..][..n];
  }

  /** What the first k bytes of some frames should decode to: the whole frames; stopped at a
      header exactly when fewer than eight bytes are left over; and a plain end exactly when the
      read that fails, of a header or of a payload, meets no byte at all. */
  ghost predicate CutAt(frames: seq<Frame>, k: nat, d: Decoded) {
    && d.payloads == PayloadsOf(frames[..Whole(frames, k)])
    && d.atHeader == (Leftover(frames, k) < 8)
    && (d.err == EOF <==> Leftover(frames, k) == 0 || Leftover(frames, k) == 8)
  }

  lemma CutBehind(frames: seq<Frame>, k: nat, d: Decoded)
    requires frames != [] && k >= 8 + |frames[0].payload|
    requires CutAt(frames[1..], k - 8 - |frames[0].payload|, d)
    ensures CutAt(frames, k, d.(payloads := [frames[0].payload] + d.payloads))
  {
    PayloadsCons(frames, Whole(frames[1..], k - 8 - |frames[0].payload|));
  }

  lemma {:induction false} DecodeTruncated(frames: seq<Frame>, k: nat)
    requires Encodable(frames) && k <= |Encode(frames)|
    ensures CutAt(frames, k, Decode(Encode(frames)[..k]))
  {
    if frames != [] {
      var f := frames[0];
      var size := |EncodeFrame(f)|;
      EncodePrefix(frames, k);
      if k < size {
        DecodeTornFrame(f, k);
      } else {
        var rest := Encode(frames[1..])[..k - size];
        DecodeFrame(f, rest);
        DecodeTruncated(frames[1..], k - size);
        CutBehind(frames, k, Decode(rest));
      }
    }
  }

  /** What a cut stream emits: the newline split of its whole payloads run together, and the
      unfinished last line only when the cut is not inside a payload. */
  lemma EmissionOfTruncated(frames: seq<Frame>, k: nat)
    requires Encodable(frames) && k <= |Encode(frames)|
    ensures var text := Flatten(PayloadsOf(frames[..Whole(frames, k)]));
            Emission(Decode(Encode(frames)[..k]))
            == Lines(text) + if Leftover(frames, k) < 8 && Tail(text) != [] then [Tail(text)] else []
  {
    DecodeTruncated(frames, k);
  }

  lemma {:induction false} WholeOfAll(frames: seq<Frame>)
    requires Encodable(frames)
    ensures Whole(frames, |Encode(frames)|) == |frames| && Leftover(frames, |Encode(frames)|) == 0
  {
    if frames != [] {
      assert frames[0] in frames && Encodable(frames[1..]);
      WholeOfAll(frames[1..]);
    }
  }

  /** How the same text was cut into frames, and which output each went to, does not show. */
  lemma FramingDoesNotShow(fs: seq<Frame>, gs: seq<Frame>)
    requires Encodable(fs) && Encodable(gs)
    requires Flatten(PayloadsOf(fs)) == Flatten(PayloadsOf(gs))
    ensures Emission(Decode(Encode(fs))) == Emission(Decode(Encode(gs)))
  {
    WholeOfAll(fs);
    WholeOfAll(gs);
    EmissionOfTruncated(fs, |Encode(fs)|);
    EmissionOfTruncated(gs, |Encode(gs)|);
    assert Encode(fs)[..|Encode(fs)|] == Encode(fs) && Encode(gs)[..|Encode(gs)|] == Encode(gs);
    assert fs[..|fs|] == fs && gs[..|gs|] == gs;
  }

  /** The lines and the tail of a text are the only newline-free pieces that, with a newline
      after each line, make up the text. */
  lemma LinesAreTheOnlySplit(text: seq<Byte>, lines: seq<seq<Byte>>, tail: seq<Byte>)
    requires NEWLINE !in tail && forall l :: l in lines ==> NEWLINE !in l
    ensures lines == Lines(text) && tail == Tail(text) <==> Join(lines + [tail], NEWLINE) == text
  {
    SplitSound(text, NEWLINE);
    assert Lines(text) + [Tail(text)] == Split(text, NEWLINE);
    if Join(lines + [tail], NEWLINE) == text {
      SplitJoin(lines + [tail], NEWLINE);
      assert ButLast(lines + [tail]) == lines;
    }
  }

  /** A header byte by byte: the output, three bytes that are not looked at, and the length of
      the payload, its highest byte first. */
  lemma HeaderSpelledOut(stream: Byte, x: Byte, y: Byte, z: Byte, a: Byte, b: Byte, c: Byte, d: Byte,
                         payload: seq<Byte>, rest: seq<Byte>)
    requires |payload| == 16777216 * a + 65536 * b + 256 * c + d
    ensures Decode([stream, x, y, z, a, b, c, d] + payload + rest).payloads == [payload] + Decode(rest).payloads
    ensures Decode([stream, x, y, z, a, b, c, d] + payload + rest).err == Decode(rest).err
  {
    var s := [stream, x, y, z, a, b, c, d] + payload + rest;
    var n := |payload|;
    assert s[4..8] == [a, b, c, d];
    assert s[8..8 + n] == payload && s[8 + n..] == rest;
  }

  /** Text without a line feed between two of them is one line. */
  lemma LineSpelledOut(before: seq<Byte>, line: seq<Byte>, rest: seq<Byte>)
    requires 10 !in line
    ensures Lines(before + [10] + line + [10] + rest) == Lines(before + [10]) + [line] + Lines(rest)
    ensures Tail(before + [10] + line + [10] + rest) == Tail(rest)
  {
    SplitAt(before + [10] + line, rest, 10);
    SplitAt(before, line, 10);
    SplitAt(before, [], 10);
    assert Split(line, 10) == [line] && Split<Byte>([], 10) == [[]];
    assert before + [10] + [] == before + [10];
    ButLastAndLast(Split(rest, 10));
    LinesJoin(Split(before, 10), line, Split(rest, 10));
  }

  lemma LinesJoin(p: seq<seq<Byte>>, line: seq<Byte>, q: seq<seq<Byte>>)
    requires |q| > 0
    ensures ButLast((p + [line]) + q) == ButLast(p + [[]]) + [line] + ButLast(q)
    ensures Last((p + [line]) + q) == Last(q)
  {
  }
}
