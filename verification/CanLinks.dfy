/** CAN interfaces as rtnetlink describes them: three levels of nested attributes walked into
    one record per interface (internal/sysinfo/can_netlink.go). */
module CanLinks {
  import opened Bytes
  import opened Options
  import opened Sequences
  import opened Netlink
  import opened Tables

  const RTM_NEWLINK: nat := 16
  const IFINFOMSG_SIZE: nat := 16

  const IFLA_IFNAME: nat := 3
  const IFLA_LINKINFO: nat := 18
  const INFO_KIND: nat := 1
  const INFO_DATA: nat := 2
  const INFO_XSTATS: nat := 3
  const CAN_BITTIMING: nat := 1
  const CAN_CLOCK: nat := 3
  const CAN_STATE: nat := 4
  const CAN_CTRLMODE: nat := 5
  const CAN_RESTART_MS: nat := 6
  const CAN_BERR_COUNTER: nat := 8
  const CAN_DATA_BITTIMING: nat := 9
  const CTRLMODE_FD: nat := 0x20

  /** "can" */
  const KIND_CAN: seq<Byte> := [99, 97, 110]

  const STATE_NAMES: seq<string> :=
    ["ERROR-ACTIVE", "ERROR-WARNING", "ERROR-PASSIVE", "BUS-OFF", "STOPPED", "SLEEPING"]

  datatype CanNL = CanNL(
    state: string, bitrate: nat, samplePoint: real, fd: bool, dataBitrate: nat, clockHz: nat,
    restartMs: nat, busErrTx: nat, busErrRx: nat, busOff: nat, errorWarning: nat,
    errorPassive: nat, arbLost: nat, restarts: nat, busErrors: nat)

  const BLANK := CanNL("", 0, 0.0, false, 0, 0, 0, 0, 0, 0, 0, 0, 0, 0, 0)

  datatype Message = Message(typ: nat, data: seq<Byte>)

  // ---- the walk ----

  /** A Go map of slices gives nil for a key it lacks. */
  function Get(m: map<nat, seq<Byte>>, t: nat): seq<Byte> {
    if t in m then m[t] else []
  }

  function U32(b: seq<Byte>, i: nat): nat
    requires i + 4 <= |b|
  {
    GetLE32(b[i..i + 4])
  }

  /** What a NUL-terminated string attribute says. */
  function CString(b: seq<Byte>): seq<Byte> {
    if IndexOf(b, 0) < 0 then b else b[..IndexOf(b, 0)]
  }

  method Cstr(b: seq<Byte>) returns (s: seq<Byte>)
    ensures s == CString(b)
  {
    for i := 0 to |b|
      invariant 0 !in b[..i]
    {
      if b[i] == 0 {
        IndexOfIsFirst(b, 0, i);
        return b[..i];
      }
    }
    assert b[..|b|] == b;
    return b;
  }

  /** The record that attributes `a` and statistics `xstats` amount to. */
  function CanOf(a: map<nat, seq<Byte>>, xstats: seq<Byte>): CanNL {
    var timing := Get(a, CAN_BITTIMING);
    var dataTiming := Get(a, CAN_DATA_BITTIMING);
    var state := Get(a, CAN_STATE);
    var mode := Get(a, CAN_CTRLMODE);
    var clock := Get(a, CAN_CLOCK);
    var restart := Get(a, CAN_RESTART_MS);
    var berr := Get(a, CAN_BERR_COUNTER);
    CanNL(
      if |state| >= 4 && U32(state, 0) < |STATE_NAMES| then STATE_NAMES[U32(state, 0)] else "",
      if |timing| >= 8 then U32(timing, 0) else 0,
      if |timing| >= 8 then U32(timing, 4) as real / 1000.0 else 0.0,
      |mode| >= 8 && U32(mode, 4) / CTRLMODE_FD % 2 == 1,
      if |dataTiming| >= 4 then U32(dataTiming, 0) else 0,
      if |clock| >= 4 then U32(clock, 0) else 0,
      if |restart| >= 4 then U32(restart, 0) else 0,
      if |berr| >= 4 then GetLE16(berr[0..2]) else 0,
      if |berr| >= 4 then GetLE16(berr[2..4]) else 0,
      if |xstats| >= 24 then U32(xstats, 12) else 0,
      if |xstats| >= 24 then U32(xstats, 4) else 0,
      if |xstats| >= 24 then U32(xstats, 8) else 0,
      if |xstats| >= 24 then U32(xstats, 16) else 0,
      if |xstats| >= 24 then U32(xstats, 20) else 0,
      if |xstats| >= 24 then U32(xstats, 0) else 0)
  }

  /** parseCAN up to the statistics. */
  method ParseFields(a: map<nat, seq<Byte>>) returns (c: CanNL)
    ensures c == CanOf(a, [])
  {
    c := BLANK;
    var bt := Get(a, CAN_BITTIMING);
    if |bt| >= 8 {
      c := c.(bitrate := U32(bt, 0), samplePoint := U32(bt, 4) as real / 1000.0);
    }
    var dbt := Get(a, CAN_DATA_BITTIMING);
    if |dbt| >= 4 {
      c := c.(dataBitrate := U32(dbt, 0));
    }
    var st := Get(a, CAN_STATE);
    if |st| >= 4 {
      var i := U32(st, 0);
      if i < |STATE_NAMES| {
        c := c.(state := STATE_NAMES[i]);
      }
    }
    var cm := Get(a, CAN_CTRLMODE);
    if |cm| >= 8 {
      c := c.(fd := U32(cm, 4) / CTRLMODE_FD % 2 == 1);
    }
    var cl := Get(a, CAN_CLOCK);
    if |cl| >= 4 {
      c := c.(clockHz := U32(cl, 0));
    }
    var rm := Get(a, CAN_RESTART_MS);
    if |rm| >= 4 {
      c := c.(restartMs := U32(rm, 0));
    }
    var be := Get(a, CAN_BERR_COUNTER);
    if |be| >= 4 {
      c := c.(busErrTx := GetLE16(be[0..2]), busErrRx := GetLE16(be[2..4]));
    }
  }

  method ParseCAN(data: seq<Byte>, xstats: seq<Byte>) returns (c: CanNL)
    ensures c == CanOf(LastWins(AttrList(data)), xstats)
  {
    var a := ParseAttrs(data);
    c := ParseFields(a);
    if |xstats| >= 24 {
      c := c.(busErrors := U32(xstats, 0),
              errorWarning := U32(xstats, 4),
              errorPassive := U32(xstats, 8),
              busOff := U32(xstats, 12),
              arbLost := U32(xstats, 16),
              restarts := U32(xstats, 20));
    }
  }

  /** What one message contributes. */
  function CanEntry(m: Message): Option<(seq<Byte>, CanNL)> {
    if m.typ != RTM_NEWLINK || |m.data| < IFINFOMSG_SIZE then None
    else
      var attrs := LastWins(AttrList(m.data[IFINFOMSG_SIZE..]));
      var name := CString(Get(attrs, IFLA_IFNAME));
      if name == [] || IFLA_LINKINFO !in attrs then None
      else
        var info := LastWins(AttrList(attrs[IFLA_LINKINFO]));
        if CString(Get(info, INFO_KIND)) != KIND_CAN then None
        else Some((name, CanOf(LastWins(AttrList(Get(info, INFO_DATA))), Get(info, INFO_XSTATS))))
  }

  /** What the messages contribute, in order. */
  function CanEntries(msgs: seq<Message>): seq<(seq<Byte>, CanNL)> {
    if msgs == [] then []
    else
      var before := CanEntries(msgs[..|msgs| - 1]);
      match CanEntry(msgs[|msgs| - 1])
      case None => before
      case Some(e) => before + [e]
  }

  method CanDetails(msgs: seq<Message>) returns (out: map<seq<Byte>, CanNL>)
    ensures out == LastWins(CanEntries(msgs))
  {
    out := map[];
    for n := 0 to |msgs|
      invariant out == LastWins(CanEntries(msgs[..n]))
    {
      var m := msgs[n];
      assert msgs[..n + 1][..n] == msgs[..n] && msgs[..n + 1][n] == m;
      if m.typ != RTM_NEWLINK || |m.data| < IFINFOMSG_SIZE {
        continue;
      }
      var attrs := ParseAttrs(m.data[IFINFOMSG_SIZE..]);
      var name := Cstr(Get(attrs, IFLA_IFNAME));
      if name == [] || IFLA_LINKINFO !in attrs {
        continue;
      }
      var info := ParseAttrs(attrs[IFLA_LINKINFO]);
      var kind := Cstr(Get(info, INFO_KIND));
      if kind != KIND_CAN {
        continue;
      }
      var c := ParseCAN(Get(info, INFO_DATA), Get(info, INFO_XSTATS));
      LastWinsSnoc(CanEntries(msgs[..n]), (name, c));
      out := out[name := c];
    }
    assert msgs[..|msgs|] == msgs;
  }

  // ---- links as the kernel describes them ----

  datatype Stats = Stats(busErrors: nat, errorWarning: nat, errorPassive: nat, busOff: nat, arbLost: nat, restarts: nat)

  /** What the kernel knows of a CAN link; a field it does not report is None. */
  datatype CanLink = CanLink(
    name: seq<Byte>,
    timing: Option<(nat, nat)>,   // bit rate, sample point in permille
    dataBitrate: Option<nat>,
    state: Option<nat>,
    mode: Option<(nat, nat)>,     // mask, flags
    clock: Option<nat>,
    restartMs: Option<nat>,
    berr: Option<(nat, nat)>,     // transmit, receive
    stats: Option<Stats>)

  predicate Words32(ns: seq<nat>) {
    forall i :: 0 <= i < |ns| ==> ns[i] < 0x1_0000_0000
  }

  function Words(ns: seq<nat>): (b: seq<Byte>)
    requires Words32(ns)
    ensures |b| == 4 * |ns|
  {
    if ns == [] then [] else LE32(ns[0]) + Words(ns[1..])
  }

  function StatWords(s: Stats): seq<nat> {
    [s.busErrors, s.errorWarning, s.errorPassive, s.busOff, s.arbLost, s.restarts]
  }

  predicate Fits(o: Option<nat>) {
    o.Some? ==> o.value < 0x1_0000_0000
  }

  predicate FitsPair(o: Option<(nat, nat)>, bound: nat) {
    o.Some? ==> o.value.0 < bound && o.value.1 < bound
  }

  predicate ValidLink(l: CanLink) {
    && l.name != [] && 0 !in l.name
    && FitsPair(l.timing, 0x1_0000_0000) && FitsPair(l.mode, 0x1_0000_0000) && FitsPair(l.berr, 0x1_0000)
    && Fits(l.dataBitrate) && Fits(l.state) && Fits(l.clock) && Fits(l.restartMs)
    && (l.stats.Some? ==> Words32(StatWords(l.stats.value)))
  }

  /** The attribute is absent, or present and starts with the given words; a newer kernel may
      append further ones. */
  predicate Carries(m: map<nat, seq<Byte>>, t: nat, words: Option<seq<nat>>) {
    match words
    case None => t !in m
    case Some(ns) => t in m && Words32(ns) && Words(ns) <= m[t]
  }

  function One(o: Option<nat>): Option<seq<nat>> {
    match o case None => None case Some(n) => Some([n])
  }

  function Two(o: Option<(nat, nat)>): Option<seq<nat>> {
    match o case None => None case Some(p) => Some([p.0, p.1])
  }

  /** m holds the fields of l as IFLA_CAN attributes, possibly among others. */
  predicate DescribesData(m: map<nat, seq<Byte>>, l: CanLink) {
    && Carries(m, CAN_BITTIMING, Two(l.timing))
    && Carries(m, CAN_DATA_BITTIMING, One(l.dataBitrate))
    && Carries(m, CAN_STATE, One(l.state))
    && Carries(m, CAN_CTRLMODE, Two(l.mode))
    && Carries(m, CAN_CLOCK, One(l.clock))
    && Carries(m, CAN_RESTART_MS, One(l.restartMs))
    && match l.berr
       case None => CAN_BERR_COUNTER !in m
       case Some(p) =>
         && CAN_BERR_COUNTER in m && p.0 < 0x1_0000 && p.1 < 0x1_0000
         && LE16(p.0) + LE16(p.1) <= m[CAN_BERR_COUNTER]
  }

  /** The record the dashboard should get. */
  function Shown(l: CanLink): CanNL {
    CanNL(
      match l.state { case Some(n) => (if n < |STATE_NAMES| then STATE_NAMES[n] else "") case None => "" },
      match l.timing { case Some(p) => p.0 case None => 0 },
      match l.timing { case Some(p) => p.1 as real / 1000.0 case None => 0.0 },
      match l.mode { case Some(p) => p.1 / CTRLMODE_FD % 2 == 1 case None => false },
      match l.dataBitrate { case Some(n) => n case None => 0 },
      match l.clock { case Some(n) => n case None => 0 },
      match l.restartMs { case Some(n) => n case None => 0 },
      match l.berr { case Some(p) => p.0 case None => 0 },
      match l.berr { case Some(p) => p.1 case None => 0 },
      match l.stats { case Some(s) => s.busOff case None => 0 },
      match l.stats { case Some(s) => s.errorWarning case None => 0 },
      match l.stats { case Some(s) => s.errorPassive case None => 0 },
      match l.stats { case Some(s) => s.arbLost case None => 0 },
      match l.stats { case Some(s) => s.restarts case None => 0 },
      match l.stats { case Some(s) => s.busErrors case None => 0 })
  }

  lemma {:induction false} WordAt(ns: seq<nat>, b: seq<Byte>, i: nat)
    requires Words32(ns) && Words(ns) <= b && i < |ns|
    ensures 4 * i + 4 <= |b| && U32(b, 4 * i) == ns[i]
    decreases |ns|
  {
    LE32RoundTrip(ns[0], []);
    if i == 0 {
      assert b[0..4] == LE32(ns[0]) + [];
    } else {
      assert Words(ns)[4..] == Words(ns[1..]) && Words(ns[1..]) <= b[4..];
      WordAt(ns[1..], b[4..], i - 1);
      SliceOfTail(b, 4, 4 * (i - 1), 4 * (i - 1) + 4);
    }
  }

  lemma OneWord(m: map<nat, seq<Byte>>, t: nat, o: Option<nat>)
    requires Carries(m, t, One(o))
    ensures o.None? ==> Get(m, t) == []
    ensures o.Some? ==> |Get(m, t)| >= 4 && U32(Get(m, t), 0) == o.value
  {
    if o.Some? {
      WordAt([o.value], m[t], 0);
    }
  }

  lemma TwoWords(m: map<nat, seq<Byte>>, t: nat, o: Option<(nat, nat)>)
    requires Carries(m, t, Two(o))
    ensures o.None? ==> Get(m, t) == []
    ensures o.Some? ==> |Get(m, t)| >= 8 && U32(Get(m, t), 0) == o.value.0 && U32(Get(m, t), 4) == o.value.1
  {
    if o.Some? {
      WordAt([o.value.0, o.value.1], m[t], 0);
      WordAt([o.value.0, o.value.1], m[t], 1);
    }
  }

  lemma BerrWords(b: seq<Byte>, tx: nat, rx: nat)
    requires tx < 0x1_0000 && rx < 0x1_0000 && LE16(tx) + LE16(rx) <= b
    ensures |b| >= 4 && GetLE16(b[0..2]) == tx && GetLE16(b[2..4]) == rx
  {
    assert b[0..2] == LE16(tx) + [] && b[2..4] == LE16(rx) + [];
    LE16RoundTrip(tx, []);
    LE16RoundTrip(rx, []);
  }

  lemma StatsWords(b: seq<Byte>, s: Stats)
    requires Words32(StatWords(s)) && Words(StatWords(s)) <= b
    ensures |b| >= 24
    ensures U32(b, 0) == s.busErrors && U32(b, 4) == s.errorWarning && U32(b, 8) == s.errorPassive
    ensures U32(b, 12) == s.busOff && U32(b, 16) == s.arbLost && U32(b, 20) == s.restarts
  {
    WordAt(StatWords(s), b, 0);
    WordAt(StatWords(s), b, 1);
    WordAt(StatWords(s), b, 2);
    WordAt(StatWords(s), b, 3);
    WordAt(StatWords(s), b, 4);
    WordAt(StatWords(s), b, 5);
  }

  lemma PairsDescribed(m: map<nat, seq<Byte>>, l: CanLink)
    requires ValidLink(l) && DescribesData(m, l)
    ensures CanOf(m, []).bitrate == Shown(l).bitrate && CanOf(m, []).samplePoint == Shown(l).samplePoint
    ensures CanOf(m, []).fd == Shown(l).fd
    ensures CanOf(m, []).busErrTx == Shown(l).busErrTx && CanOf(m, []).busErrRx == Shown(l).busErrRx
  {
    TwoWords(m, CAN_BITTIMING, l.timing);
    TwoWords(m, CAN_CTRLMODE, l.mode);
    if l.berr.Some? {
      BerrWords(m[CAN_BERR_COUNTER], l.berr.value.0, l.berr.value.1);
    }
  }

  lemma WordsDescribed(m: map<nat, seq<Byte>>, l: CanLink)
    requires ValidLink(l) && DescribesData(m, l)
    ensures CanOf(m, []).state == Shown(l).state && CanOf(m, []).dataBitrate == Shown(l).dataBitrate
    ensures CanOf(m, []).clockHz == Shown(l).clockHz && CanOf(m, []).restartMs == Shown(l).restartMs
  {
    OneWord(m, CAN_DATA_BITTIMING, l.dataBitrate);
    OneWord(m, CAN_STATE, l.state);
    OneWord(m, CAN_CLOCK, l.clock);
    OneWord(m, CAN_RESTART_MS, l.restartMs);
  }

  lemma FieldsDescribed(m: map<nat, seq<Byte>>, l: CanLink)
    requires ValidLink(l) && DescribesData(m, l)
    ensures CanOf(m, []) == Shown(l.(stats := None))
  {
    PairsDescribed(m, l);
    WordsDescribed(m, l);
  }

  /** A record with the statistics filled in. */
  function WithStats(c: CanNL, s: Stats): CanNL {
    c.(busErrors := s.busErrors, errorWarning := s.errorWarning, errorPassive := s.errorPassive,
       busOff := s.busOff, arbLost := s.arbLost, restarts := s.restarts)
  }

  lemma StatsAreApart(m: map<nat, seq<Byte>>, xstats: seq<Byte>, s: Stats)
    requires Words32(StatWords(s)) && Words(StatWords(s)) <= xstats
    ensures CanOf(m, xstats) == WithStats(CanOf(m, []), s)
  {
    StatsWords(xstats, s);
  }

  lemma CanOfDescribed(m: map<nat, seq<Byte>>, xstats: seq<Byte>, l: CanLink)
    requires ValidLink(l) && DescribesData(m, l)
    requires l.stats.None? ==> xstats == []
    requires l.stats.Some? ==> Words(StatWords(l.stats.value)) <= xstats
    ensures CanOf(m, xstats) == Shown(l)
  {
    FieldsDescribed(m, l);
    if l.stats.Some? {
      StatsAreApart(m, xstats, l.stats.value);
    }
  }

  /** A message as it is put together: the attributes of each level in their order, and the
      maps they amount to. */
  datatype Wire = Wire(
    header: seq<Byte>,
    data: seq<Attr>, dataMap: map<nat, seq<Byte>>,
    info: seq<Attr>, infoMap: map<nat, seq<Byte>>,
    top: seq<Attr>, topMap: map<nat, seq<Byte>>)

  /** Three levels of nesting that describe l, the attributes of each in any order, with any
      flag bits, any padding and any further types among them. */
  ghost predicate Describes(w: Wire, l: CanLink) {
    && ValidLink(l) && |w.header| == IFINFOMSG_SIZE
    && Arranges(w.data, w.dataMap) && DescribesData(w.dataMap, l)
    && Arranges(w.info, w.infoMap)
    && INFO_KIND in w.infoMap && w.infoMap[INFO_KIND] == KIND_CAN + [0]
    && INFO_DATA in w.infoMap && w.infoMap[INFO_DATA] == Encode(w.data)
    && (match l.stats
        case None => INFO_XSTATS !in w.infoMap
        case Some(s) => INFO_XSTATS in w.infoMap && Words(StatWords(s)) <= w.infoMap[INFO_XSTATS])
    && Arranges(w.top, w.topMap)
    && IFLA_IFNAME in w.topMap && w.topMap[IFLA_IFNAME] == l.name + [0]
    && IFLA_LINKINFO in w.topMap && w.topMap[IFLA_LINKINFO] == Encode(w.info)
  }

  function MessageOf(w: Wire): Message
    requires Valid(w.top)
  {
    Message(RTM_NEWLINK, w.header + Encode(w.top))
  }

  /** The inner two levels. */
  lemma InnerLevels(l: CanLink, w: Wire)
    requires Describes(w, l)
    ensures CString(Get(w.infoMap, INFO_KIND)) == KIND_CAN
    ensures CanOf(LastWins(AttrList(Get(w.infoMap, INFO_DATA))), Get(w.infoMap, INFO_XSTATS)) == Shown(l)
  {
    ParseOfArranged(w.data, w.dataMap);
    CStringOf(KIND_CAN);
    CanOfDescribed(w.dataMap, Get(w.infoMap, INFO_XSTATS), l);
  }

  /** The walk gives back the name and every field. */
  lemma WalkRecoversLink(l: CanLink, w: Wire)
    requires Describes(w, l)
    ensures CanEntry(MessageOf(w)) == Some((l.name, Shown(l)))
  {
    assert (w.header + Encode(w.top))[IFINFOMSG_SIZE..] == Encode(w.top);
    ParseOfArranged(w.top, w.topMap);
    ParseOfArranged(w.info, w.infoMap);
    CStringOf(l.name);
    InnerLevels(l, w);
  }

  lemma CStringOf(s: seq<Byte>)
    requires 0 !in s
    ensures CString(s + [0]) == s
  {
    assert (s + [0])[..|s|] == s;
    IndexOfIsFirst(s + [0], 0, |s|);
  }

  // ---- a whole dump ----

  /** m describes a CAN link, or it is one of the messages that contribute nothing: other
      types, other kinds of link, links without a name. */
  ghost predicate Says(m: Message, link: Option<CanLink>) {
    match link
    case None => CanEntry(m).None?
    case Some(l) => exists w :: Describes(w, l) && m == MessageOf(w)
  }

  ghost predicate DistinctNames(links: seq<Option<CanLink>>) {
    forall i, j :: 0 <= i < j < |links| && links[i].Some? && links[j].Some? ==>
      links[i].value.name != links[j].value.name
  }

  ghost predicate IsShown(links: seq<Option<CanLink>>, i: nat, name: seq<Byte>, c: CanNL) {
    i < |links| && links[i].Some? && links[i].value.name == name && Shown(links[i].value) == c
  }

  /** Every entry is one link's, and every link has its entry. */
  ghost predicate ShowsLinks(out: map<seq<Byte>, CanNL>, links: seq<Option<CanLink>>) {
    && (forall name :: name in out ==> exists i: nat :: IsShown(links, i, name, out[name]))
    && (forall i :: 0 <= i < |links| && links[i].Some? ==>
          links[i].value.name in out && out[links[i].value.name] == Shown(links[i].value))
  }

  lemma OneMoreLink(out: map<seq<Byte>, CanNL>, links: seq<Option<CanLink>>, l: CanLink)
    requires ShowsLinks(out, links) && DistinctNames(links + [Some(l)])
    ensures ShowsLinks(out[l.name := Shown(l)], links + [Some(l)])
  {
    var more := links + [Some(l)];
    var out' := out[l.name := Shown(l)];
    forall name | name in out' ensures exists i: nat :: IsShown(more, i, name, out'[name]) {
      if name == l.name {
        assert IsShown(more, |links|, name, out'[name]);
      } else {
        var i: nat :| IsShown(links, i, name, out[name]);
        assert IsShown(more, i, name, out'[name]);
      }
    }
    forall i | 0 <= i < |links| && links[i].Some? ensures links[i].value.name != l.name {
      assert more[i] == links[i] && more[|links|] == Some(l);
    }
  }

  lemma NoMoreLink(out: map<seq<Byte>, CanNL>, links: seq<Option<CanLink>>)
    requires ShowsLinks(out, links)
    ensures ShowsLinks(out, links + [None])
  {
    forall name | name in out ensures exists i: nat :: IsShown(links + [None], i, name, out[name]) {
      var i: nat :| IsShown(links, i, name, out[name]);
      assert IsShown(links + [None], i, name, out[name]);
    }
  }

  lemma CanEntriesSnoc(msgs: seq<Message>, m: Message)
    ensures CanEntry(m).None? ==> CanEntries(msgs + [m]) == CanEntries(msgs)
    ensures CanEntry(m).Some? ==> CanEntries(msgs + [m]) == CanEntries(msgs) + [CanEntry(m).value]
  {
    assert (msgs + [m])[..|msgs|] == msgs;
  }

  lemma DumpStep(msgs: seq<Message>, links: seq<Option<CanLink>>, m: Message, link: Option<CanLink>)
    requires ShowsLinks(LastWins(CanEntries(msgs)), links)
    requires Says(m, link) && DistinctNames(links + [link])
    ensures ShowsLinks(LastWins(CanEntries(msgs + [m])), links + [link])
  {
    CanEntriesSnoc(msgs, m);
    match link
    case None => NoMoreLink(LastWins(CanEntries(msgs)), links);
    case Some(l) =>
      var w :| Describes(w, l) && m == MessageOf(w);
      WalkRecoversLink(l, w);
      LastWinsSnoc(CanEntries(msgs), (l.name, Shown(l)));
      OneMoreLink(LastWins(CanEntries(msgs)), links, l);
  }

  ghost predicate AllSay(msgs: seq<Message>, links: seq<Option<CanLink>>) {
    |msgs| == |links| && forall i :: 0 <= i < |msgs| ==> Says(msgs[i], links[i])
  }

  lemma AllButLastSay(msgs: seq<Message>, links: seq<Option<CanLink>>)
    requires msgs != [] && AllSay(msgs, links)
    ensures AllSay(ButLast(msgs), ButLast(links)) && Says(Last(msgs), Last(links))
  {
  }

  /** Messages that describe CAN links of different names, among any others, give exactly the
      table from each name to its record. */
  lemma {:induction false} DumpShowsLinks(msgs: seq<Message>, links: seq<Option<CanLink>>)
    requires AllSay(msgs, links) && DistinctNames(links)
    ensures ShowsLinks(LastWins(CanEntries(msgs)), links)
  {
    if msgs != [] {
      AllButLastSay(msgs, links);
      assert msgs == ButLast(msgs) + [Last(msgs)] && links == ButLast(links) + [Last(links)];
      DumpShowsLinks(ButLast(msgs), ButLast(links));
      DumpStep(ButLast(msgs), ButLast(links), Last(msgs), Last(links));
    }
  }

  // ---- the same, number by number ----

  /** The number of four bytes, the lowest first. */
  function LowFirst(x: int, y: int, z: int, w: int): int {
    x + 256 * y + 65536 * z + 16777216 * w
  }

  /** The four bytes of a word at a place, lowest first. */
  ghost predicate WordIs(b: seq<Byte>, i: nat, n: nat) {
    i + 4 <= |b| && n == LowFirst(b[i], b[i + 1], b[i + 2], b[i + 3])
  }

  lemma WordSpelledOut(b: seq<Byte>, i: nat)
    requires i + 4 <= |b|
    ensures WordIs(b, i, U32(b, i))
  {
    var w := b[i..i + 4];
    assert w[0] == b[i] && w[1] == b[i + 1] && w[2..][0] == b[i + 2] && w[2..][1] == b[i + 3];
  }

  /** A field made of one word of an attribute that is long enough; 0 for any other. */
  ghost predicate Holds(a: map<nat, seq<Byte>>, t: nat, size: nat, i: nat, n: nat)
    requires i + 4 <= size
  {
    if t in a && |a[t]| >= size then WordIs(a[t], i, n) else n == 0
  }

  /** Rates, clock and restart delay, by the attribute numbers of the kernel's interface. */
  lemma RatesSpelledOut(a: map<nat, seq<Byte>>, xstats: seq<Byte>)
    ensures Holds(a, 1, 8, 0, CanOf(a, xstats).bitrate)
    ensures Holds(a, 9, 4, 0, CanOf(a, xstats).dataBitrate)
    ensures Holds(a, 3, 4, 0, CanOf(a, xstats).clockHz)
    ensures Holds(a, 6, 4, 0, CanOf(a, xstats).restartMs)
    ensures exists n :: Holds(a, 1, 8, 4, n) && CanOf(a, xstats).samplePoint * 1000.0 == n as real
  {
    if 1 in a && |a[1]| >= 8 {
      WordSpelledOut(a[1], 0);
      WordSpelledOut(a[1], 4);
      assert Holds(a, 1, 8, 4, U32(a[1], 4));
    } else {
      assert Holds(a, 1, 8, 4, 0);
    }
    if 9 in a && |a[9]| >= 4 {
      WordSpelledOut(a[9], 0);
    }
    if 3 in a && |a[3]| >= 4 {
      WordSpelledOut(a[3], 0);
    }
    if 6 in a && |a[6]| >= 4 {
      WordSpelledOut(a[6], 0);
    }
  }

  /** The state by its number, the FD flag as bit 5 of the mode flags, and the two counters of
      bus errors. */
  lemma StateSpelledOut(a: map<nat, seq<Byte>>, xstats: seq<Byte>)
    ensures 4 in a && |a[4]| >= 4 ==>
      exists n :: WordIs(a[4], 0, n) && CanOf(a, xstats).state ==
        (if n == 0 then "ERROR-ACTIVE" else if n == 1 then "ERROR-WARNING" else if n == 2 then "ERROR-PASSIVE"
         else if n == 3 then "BUS-OFF" else if n == 4 then "STOPPED" else if n == 5 then "SLEEPING" else "")
    ensures 4 !in a || |a[4]| < 4 ==> CanOf(a, xstats).state == ""
    ensures CanOf(a, xstats).fd <==> 5 in a && |a[5]| >= 8 && a[5][4] / 32 % 2 == 1
    ensures 8 in a && |a[8]| >= 4 ==>
      && CanOf(a, xstats).busErrTx == LowFirst(a[8][0], a[8][1], 0, 0)
      && CanOf(a, xstats).busErrRx == LowFirst(a[8][2], a[8][3], 0, 0)
    ensures 8 !in a || |a[8]| < 4 ==> CanOf(a, xstats).busErrTx == 0 && CanOf(a, xstats).busErrRx == 0
  {
    if 4 in a && |a[4]| >= 4 {
      WordSpelledOut(a[4], 0);
    }
    if 5 in a && |a[5]| >= 8 {
      WordSpelledOut(a[5], 4);
      BitFive(a[5][4], a[5][5], a[5][6], a[5][7]);
    }
  }

  lemma QuotientIs(n: nat, q: nat, r: nat)
    requires n == 32 * q + r && r < 32
    ensures n / 32 == q
  {
  }

  lemma EvenAdded(q: nat, k: nat)
    ensures (q + 2 * k) % 2 == q % 2
  {
  }

  lemma BitFive(b0: nat, b1: nat, b2: nat, b3: nat)
    ensures LowFirst(b0, b1, b2, b3) / 32 % 2 == b0 / 32 % 2
  {
    var k := 4 * b1 + 1024 * b2 + 262144 * b3;
    var q, r := b0 / 32, b0 % 32;
    QuotientIs(LowFirst(b0, b1, b2, b3), q + 2 * k, r);
    EvenAdded(q, k);
  }

  /** The device statistics: six words in this order, or nothing when they are cut. */
  lemma StatsSpelledOut(a: map<nat, seq<Byte>>, x: seq<Byte>)
    ensures |x| >= 24 ==>
      && WordIs(x, 0, CanOf(a, x).busErrors) && WordIs(x, 4, CanOf(a, x).errorWarning)
      && WordIs(x, 8, CanOf(a, x).errorPassive) && WordIs(x, 12, CanOf(a, x).busOff)
      && WordIs(x, 16, CanOf(a, x).arbLost) && WordIs(x, 20, CanOf(a, x).restarts)
    ensures |x| < 24 ==>
      && CanOf(a, x).busErrors == CanOf(a, x).errorWarning == CanOf(a, x).errorPassive == 0
      && CanOf(a, x).busOff == CanOf(a, x).arbLost == CanOf(a, x).restarts == 0
  {
    if |x| >= 24 {
      WordSpelledOut(x, 0);
      WordSpelledOut(x, 4);
      WordSpelledOut(x, 8);
      WordSpelledOut(x, 12);
      WordSpelledOut(x, 16);
      WordSpelledOut(x, 20);
    }
  }

  /** Which messages are looked at, and where in them the name, the kind and the two nested
      payloads are: a new-link message (16) with 16 bytes of header, name under 3, link
      information under 18, and in there the kind "can" under 1, data under 2, statistics
      under 3. */
  lemma EntrySpelledOut(header: seq<Byte>, body: seq<Byte>, attrs: map<nat, seq<Byte>>, info: map<nat, seq<Byte>>,
                        name: seq<Byte>)
    requires |header| == 16 && attrs == LastWins(AttrList(body))
    requires 3 in attrs && attrs[3] == name + [0] && 0 !in name && name != []
    requires 18 in attrs && info == LastWins(AttrList(attrs[18]))
    requires 1 in info && info[1] == [99, 97, 110, 0]
    ensures CanEntry(Message(16, header + body)) ==
      Some((name, CanOf(LastWins(AttrList(if 2 in info then info[2] else [])), if 3 in info then info[3] else [])))
  {
    assert (header + body)[16..] == body;
    CStringOf(name);
    CStringOf([99, 97, 110]);
    assert [99, 97, 110] + [0] == [99, 97, 110, 0];
  }

  /** Anything else contributes nothing: another type, a cut header, no name, no link
      information, another kind. */
  lemma OtherMessages(m: Message)
    requires m.typ != 16 || |m.data| < 16
      || (var attrs := LastWins(AttrList(m.data[16..]));
          || 3 !in attrs || attrs[3] == [] || attrs[3][0] == 0 || 18 !in attrs
          || (var info := LastWins(AttrList(attrs[18]));
              1 !in info || !([99, 97, 110] <= info[1])))
    ensures CanEntry(m).None?
  {
    if m.typ == 16 && |m.data| >= 16 {
      var attrs := LastWins(AttrList(m.data[16..]));
      if 3 in attrs && attrs[3] != [] && attrs[3][0] == 0 {
        IndexOfIsFirst(attrs[3], 0, 0);
      } else if 3 in attrs && attrs[3] != [] && 18 in attrs {
        OtherKind(Get(LastWins(AttrList(attrs[18])), 1));
      }
    }
  }

  lemma OtherKind(b: seq<Byte>)
    ensures CString(b) == [99, 97, 110] ==> [99, 97, 110] <= b
  {
  }
}
