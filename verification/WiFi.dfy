/** The Wi-Fi list: one row per network from a scan, and the access point a connection to that
    network will use (internal/network/wifi.go). */
module WiFi {
  import opened Options
  import opened Sequences

  // NM_802_11_AP_FLAGS and NM_802_11_AP_SEC.
  const PRIVACY: bv32 := 0x1
  const KEY_MGMT_PSK: bv32 := 0x100
  const KEY_MGMT_8021X: bv32 := 0x200
  const KEY_MGMT_SAE: bv32 := 0x400
  const KEY_MGMT_OWE: bv32 := 0x800

  /** A scanned access point as its D-Bus properties give it; an empty SSID is hidden. */
  datatype AP = AP(path: string, ssid: string, strength: nat, freq: int, flags: bv32, wpa: bv32, rsn: bv32)

  datatype Row = Row(
    ssid: string, strength: nat, security: string, secured: bool,
    band: string, channel: int, active: bool, saved: bool)

  function Security(flags: bv32, wpa: bv32, rsn: bv32): (string, bool) {
    if rsn & KEY_MGMT_SAE != 0 then ("WPA3", true)
    else if rsn & KEY_MGMT_PSK != 0 then ("WPA2", true)
    else if wpa & KEY_MGMT_PSK != 0 then ("WPA", true)
    else if rsn & KEY_MGMT_8021X != 0 || wpa & KEY_MGMT_8021X != 0 then ("802.1X", true)
    else if rsn & KEY_MGMT_OWE != 0 then ("OWE", false)
    else if flags & PRIVACY != 0 then ("WEP", true)
    else ("Open", false)
  }

  /** The key management NetworkManager is asked for; "" when unsupported. */
  function KeyManagement(rsn: bv32, wpa: bv32): string {
    if rsn & KEY_MGMT_SAE != 0 then "sae"
    else if rsn & KEY_MGMT_PSK != 0 || wpa & KEY_MGMT_PSK != 0 then "wpa-psk"
    else ""
  }

  /** Go's integer division, which truncates. */
  function Quotient(n: int, d: int): int
    requires d > 0
  {
    if n >= 0 then n / d else -((-n) / d)
  }

  function BandChannel(freq: int): (string, int) {
    if freq == 2484 then ("2.4 GHz", 14)
    else if 2412 <= freq <= 2472 then ("2.4 GHz", Quotient(freq - 2407, 5))
    else if 5000 <= freq < 5900 then ("5 GHz", Quotient(freq - 5000, 5))
    else if freq >= 5925 then ("6 GHz", Quotient(freq - 5950, 5))
    else ("\U{2014}", 0)
  }

  function RowOf(ap: AP, active: bool, saved: bool): Row {
    var sec := Security(ap.flags, ap.wpa, ap.rsn);
    var band := BandChannel(ap.freq);
    Row(ap.ssid, ap.strength, sec.0, sec.1, band.0, band.1, active, saved)
  }

  // ---- the same, flag by flag and channel by channel ----

  /** Which label the flags of an access point call for: WPA3, WPA2 and WPA by their key
      management, in this order, then 802.1X, OWE, WEP, and Open when there is nothing. */
  ghost predicate IsLabelled(flags: bv32, wpa: bv32, rsn: bv32, security: string, secured: bool) {
    var wpa3, wpa2, wpa1 := rsn & 0x400 != 0, rsn & 0x100 != 0, wpa & 0x100 != 0;
    var enterprise, owe, wep := rsn & 0x200 != 0 || wpa & 0x200 != 0, rsn & 0x800 != 0, flags & 0x1 != 0;
    var psk := wpa3 || wpa2 || wpa1;
    && (wpa3 ==> security == "WPA3")
    && (!wpa3 && wpa2 ==> security == "WPA2")
    && (!wpa3 && !wpa2 && wpa1 ==> security == "WPA")
    && (!psk && enterprise ==> security == "802.1X")
    && (!psk && !enterprise && owe ==> security == "OWE")
    && (!psk && !enterprise && !owe && wep ==> security == "WEP")
    && (!psk && !enterprise && !owe && !wep ==> security == "Open")
    && (secured <==> security != "OWE" && security != "Open")
  }

  /** Which band and channel a frequency in MHz is; just below 5950 the division truncates
      towards zero. */
  ghost predicate IsChannel(freq: int, band: string, channel: int) {
    && (2412 <= freq <= 2472 ==> band == "2.4 GHz" && 5 * channel <= freq - 2407 < 5 * channel + 5)
    && (freq == 2484 ==> band == "2.4 GHz" && channel == 14)
    && (5000 <= freq < 5900 ==> band == "5 GHz" && 5 * channel <= freq - 5000 < 5 * channel + 5)
    && (freq >= 5950 ==> band == "6 GHz" && 5 * channel <= freq - 5950 < 5 * channel + 5)
    && (5925 <= freq < 5950 ==> band == "6 GHz" && 5 * channel - 5 < freq - 5950 <= 5 * channel)
    && (freq < 2412 || 2472 < freq < 2484 || 2484 < freq < 5000 || 5900 <= freq < 5925 ==>
          band == "\U{2014}" && channel == 0)
  }

  /** The row of a network shows this access point. */
  ghost predicate ShowsAP(ap: AP, row: Row) {
    && row.ssid == ap.ssid && row.strength == ap.strength
    && IsLabelled(ap.flags, ap.wpa, ap.rsn, row.security, row.secured)
    && IsChannel(ap.freq, row.band, row.channel)
  }

  lemma RowShowsAP(ap: AP, active: bool, saved: bool)
    ensures ShowsAP(ap, RowOf(ap, active, saved))
    ensures RowOf(ap, active, saved).active == active && RowOf(ap, active, saved).saved == saved
  {
  }

  /** What is asked of NetworkManager for an access point. */
  ghost predicate AsksKey(ap: AP, secured: bool, keymgmt: string) {
    && (ap.rsn & 0x400 != 0 ==> secured && keymgmt == "sae")
    && (ap.rsn & 0x400 == 0 && (ap.rsn & 0x100 != 0 || ap.wpa & 0x100 != 0) ==> secured && keymgmt == "wpa-psk")
    && (ap.rsn & 0x400 == 0 && ap.rsn & 0x100 == 0 && ap.wpa & 0x100 == 0 ==>
          && keymgmt == ""
          && (secured <==> ap.rsn & 0x200 != 0 || ap.wpa & 0x200 != 0 || (ap.rsn & 0x800 == 0 && ap.flags & 0x1 != 0)))
  }

  /** Nothing of the same name is stronger, and nothing before it as strong. */
  ghost predicate IsStrongest(aps: seq<AP>, i: nat, ssid: string) {
    && i < |aps| && aps[i].ssid == ssid
    && forall j :: 0 <= j < |aps| && aps[j].ssid == ssid ==>
         aps[j].strength < aps[i].strength || (aps[j].strength == aps[i].strength && i <= j)
  }

  // ---- what the list should show ----

  ghost predicate Visible(aps: seq<AP>, ssid: string) {
    exists i :: 0 <= i < |aps| && aps[i].ssid == ssid
  }

  /** aps[i] is the first of the strongest access points of its network. */
  ghost predicate IsBest(aps: seq<AP>, i: nat) {
    && i < |aps|
    && (forall j :: 0 <= j < |aps| && aps[j].ssid == aps[i].ssid ==> aps[j].strength <= aps[i].strength)
    && (forall j :: 0 <= j < i && aps[j].ssid == aps[i].ssid ==> aps[j].strength < aps[i].strength)
  }

  ghost predicate Connected(aps: seq<AP>, active: string, ssid: string) {
    exists i :: 0 <= i < |aps| && aps[i].ssid == ssid && aps[i].path == active
  }

  /** The row a network should have. */
  ghost predicate IsRow(aps: seq<AP>, active: string, saved: set<string>, row: Row) {
    exists i: nat :: IsBest(aps, i) && row == RowOf(aps[i], Connected(aps, active, aps[i].ssid), aps[i].ssid in saved)
  }

  lemma BestIsUnique(aps: seq<AP>, i: nat, j: nat)
    requires IsBest(aps, i) && IsBest(aps, j) && aps[i].ssid == aps[j].ssid
    ensures i == j
  {
  }

  // ---- the fold ----

  /** What the table holds after some access points. */
  ghost predicate Folded(aps: seq<AP>, active: string, saved: set<string>, table: map<string, Row>) {
    && (forall s :: s in table <==> s != "" && Visible(aps, s))
    && (forall s :: s in table ==> table[s].ssid == s && IsRow(aps, active, saved, table[s]))
  }

  /** The table after one more access point. */
  function Merged(table: map<string, Row>, ap: AP, activeAP: string, saved: set<string>): map<string, Row> {
    var w := RowOf(ap, ap.path == activeAP, ap.ssid in saved);
    table[ap.ssid :=
      if ap.ssid !in table then w
      else if w.strength > table[ap.ssid].strength then w.(active := w.active || table[ap.ssid].active)
      else table[ap.ssid].(active := w.active || table[ap.ssid].active)]
  }

  lemma VisibleSnoc(aps: seq<AP>, ap: AP, s: string)
    ensures Visible(aps + [ap], s) <==> Visible(aps, s) || ap.ssid == s
  {
    if Visible(aps, s) {
      var i :| 0 <= i < |aps| && aps[i].ssid == s;
      assert (aps + [ap])[i].ssid == s;
    }
    if ap.ssid == s {
      assert (aps + [ap])[|aps|].ssid == s;
    }
  }

  lemma ConnectedSnoc(aps: seq<AP>, ap: AP, active: string, s: string)
    ensures Connected(aps + [ap], active, s) <==> Connected(aps, active, s) || (ap.ssid == s && ap.path == active)
  {
    if Connected(aps, active, s) {
      var i :| 0 <= i < |aps| && aps[i].ssid == s && aps[i].path == active;
      assert (aps + [ap])[i] == aps[i];
    }
    if ap.ssid == s && ap.path == active {
      assert (aps + [ap])[|aps|] == ap;
    }
  }

  /** An access point of another network does not touch a row. */
  lemma RowOfOthers(aps: seq<AP>, ap: AP, active: string, saved: set<string>, row: Row)
    requires IsRow(aps, active, saved, row) && row.ssid != ap.ssid
    ensures IsRow(aps + [ap], active, saved, row)
  {
    var i: nat :| IsBest(aps, i) && row == RowOf(aps[i], Connected(aps, active, aps[i].ssid), aps[i].ssid in saved);
    ConnectedSnoc(aps, ap, active, row.ssid);
    assert IsBest(aps + [ap], i);
  }

  lemma RowOfFirst(aps: seq<AP>, ap: AP, active: string, saved: set<string>)
    requires !Visible(aps, ap.ssid)
    ensures IsRow(aps + [ap], active, saved, RowOf(ap, ap.path == active, ap.ssid in saved))
  {
    ConnectedSnoc(aps, ap, active, ap.ssid);
    assert IsBest(aps + [ap], |aps|);
  }

  lemma RowOfAnother(aps: seq<AP>, ap: AP, active: string, saved: set<string>, row: Row)
    requires IsRow(aps, active, saved, row) && row.ssid == ap.ssid
    ensures IsRow(aps + [ap], active, saved,
      if ap.strength > row.strength then RowOf(ap, ap.path == active || row.active, ap.ssid in saved)
      else row.(active := ap.path == active || row.active))
  {
    var i: nat :| IsBest(aps, i) && row == RowOf(aps[i], Connected(aps, active, aps[i].ssid), aps[i].ssid in saved);
    ConnectedSnoc(aps, ap, active, ap.ssid);
    if ap.strength > row.strength {
      assert IsBest(aps + [ap], |aps|);
    } else {
      assert IsBest(aps + [ap], i);
    }
  }

  lemma MergedKeeps(aps: seq<AP>, ap: AP, active: string, saved: set<string>, table: map<string, Row>)
    requires Folded(aps, active, saved, table) && ap.ssid != ""
    ensures Folded(aps + [ap], active, saved, Merged(table, ap, active, saved))
  {
    var next := Merged(table, ap, active, saved);
    forall s ensures s in next <==> s != "" && Visible(aps + [ap], s) {
      VisibleSnoc(aps, ap, s);
    }
    forall s | s in next ensures next[s].ssid == s && IsRow(aps + [ap], active, saved, next[s]) {
      if s != ap.ssid {
        RowOfOthers(aps, ap, active, saved, table[s]);
      } else if s in table {
        RowOfAnother(aps, ap, active, saved, table[s]);
      } else {
        RowOfFirst(aps, ap, active, saved);
      }
    }
  }

  lemma HiddenKeeps(aps: seq<AP>, ap: AP, active: string, saved: set<string>, table: map<string, Row>)
    requires Folded(aps, active, saved, table) && ap.ssid == ""
    ensures Folded(aps + [ap], active, saved, table)
  {
    forall s ensures s in table <==> s != "" && Visible(aps + [ap], s) {
      VisibleSnoc(aps, ap, s);
    }
    forall s | s in table ensures IsRow(aps + [ap], active, saved, table[s]) {
      RowOfOthers(aps, ap, active, saved, table[s]);
    }
  }

  // ---- the list ----

  /** Active first, then stronger first. */
  predicate Less(a: Row, b: Row) {
    if a.active != b.active then a.active else a.strength > b.strength
  }

  ghost predicate Sorted(rows: seq<Row>) {
    forall i, j :: 0 <= i < j < |rows| ==> !Less(rows[j], rows[i])
  }

  /** sort.Slice: some permutation with no row before a lesser one. */
  method SortRows(rows: seq<Row>) returns (out: seq<Row>)
    ensures multiset(out) == multiset(rows) && Sorted(out)
  {
    out := [];
    for i := 0 to |rows|
      invariant multiset(out) == multiset(rows[..i]) && Sorted(out)
    {
      assert rows[..i + 1] == rows[..i] + [rows[i]];
      out := Insert(out, rows[i]);
    }
    assert rows[..|rows|] == rows;
  }

  method Insert(sorted: seq<Row>, row: Row) returns (out: seq<Row>)
    requires Sorted(sorted)
    ensures multiset(out) == multiset(sorted) + multiset{row} && Sorted(out)
  {
    var k := 0;
    while k < |sorted| && !Less(row, sorted[k])
      invariant k <= |sorted| && forall j :: 0 <= j < k ==> !Less(row, sorted[j])
    {
      k := k + 1;
    }
    assert sorted == sorted[..k] + sorted[k..];
    out := sorted[..k] + [row] + sorted[k..];
    InsertKeepsSorted(sorted, row, k);
  }

  lemma InsertKeepsSorted(sorted: seq<Row>, row: Row, k: nat)
    requires Sorted(sorted) && k <= |sorted| && (forall j :: 0 <= j < k ==> !Less(row, sorted[j]))
    requires k < |sorted| ==> Less(row, sorted[k])
    ensures Sorted(sorted[..k] + [row] + sorted[k..])
  {
    var out := sorted[..k] + [row] + sorted[k..];
    assert forall j :: 0 <= j < k ==> out[j] == sorted[j];
    assert forall j :: k < j < |out| ==> out[j] == sorted[j - 1];
  }

  /** One row for each visible network with a name, and no other row. */
  ghost predicate OneRowEach(aps: seq<AP>, active: string, saved: set<string>, rows: seq<Row>) {
    && (forall r :: r in rows ==> r.ssid != "" && IsRow(aps, active, saved, r))
    && (forall s :: s != "" && Visible(aps, s) ==> exists r :: r in rows && r.ssid == s)
    && NoDuplicates(rows)
    && (forall r, q :: r in rows && q in rows && r.ssid == q.ssid ==> r == q)
  }

  lemma PermutationKeepsRows(aps: seq<AP>, active: string, saved: set<string>, rows: seq<Row>, out: seq<Row>)
    requires OneRowEach(aps, active, saved, rows) && multiset(rows) == multiset(out)
    ensures OneRowEach(aps, active, saved, out)
  {
    PermutationKeepsDistinct(rows, out);
    PermutationKeepsElements(rows, out);
  }

  /** The row shows the strongest access point of its network; it is active exactly if some
      access point of the network is the active one, and saved exactly if the name is. */
  ghost predicate IsSeen(aps: seq<AP>, activeAP: string, saved: set<string>, row: Row) {
    && (exists i: nat :: IsStrongest(aps, i, row.ssid) && ShowsAP(aps[i], row))
    && (row.active <==> exists i :: 0 <= i < |aps| && aps[i].ssid == row.ssid && aps[i].path == activeAP)
    && (row.saved <==> row.ssid in saved)
  }

  lemma RowIsSeen(aps: seq<AP>, activeAP: string, saved: set<string>, row: Row)
    requires IsRow(aps, activeAP, saved, row)
    ensures IsSeen(aps, activeAP, saved, row)
  {
    var i: nat :| IsBest(aps, i)
      && row == RowOf(aps[i], Connected(aps, activeAP, aps[i].ssid), aps[i].ssid in saved);
    RowShowsAP(aps[i], Connected(aps, activeAP, aps[i].ssid), aps[i].ssid in saved);
    assert IsStrongest(aps, i, row.ssid);
  }

  /** WiFiNetworks on one scan: the list and the name of the connected network. */
  method WiFiNetworks(aps: seq<AP>, activeAP: string, saved: set<string>) returns (out: seq<Row>, active: string)
    ensures OneRowEach(aps, activeAP, saved, out) && Sorted(out)
    ensures forall r :: r in out ==> IsSeen(aps, activeAP, saved, r)
    ensures forall i, j :: 0 <= i < j < |out| ==>
      (out[i].active && !out[j].active) || (out[i].active == out[j].active && out[i].strength >= out[j].strength)
    ensures active != "" ==> Connected(aps, activeAP, active)
    ensures active == "" ==> forall s :: s != "" ==> !Connected(aps, activeAP, s)
  {
    var bySSID: map<string, Row> := map[];
    active := "";
    for i := 0 to |aps|
      invariant Folded(aps[..i], activeAP, saved, bySSID)
      invariant active != "" ==> Connected(aps[..i], activeAP, active)
      invariant active == "" ==> forall s :: s != "" ==> !Connected(aps[..i], activeAP, s)
    {
      var ap := aps[i];
      assert aps[..i + 1] == aps[..i] + [ap];
      ghost var was := active;
      if ap.ssid == "" {
        HiddenKeeps(aps[..i], ap, activeAP, saved, bySSID);
      } else {
        MergedKeeps(aps[..i], ap, activeAP, saved, bySSID);
        var w := RowOf(ap, ap.path == activeAP, ap.ssid in saved);
        if w.active {
          active := ap.ssid;
        }
        bySSID := Merge(bySSID, ap.ssid, w);
      }
      ActiveSoFar(aps[..i], ap, activeAP, was, active);
    }
    assert aps[..|aps|] == aps;
    out := RowsOf(bySSID);
    ghost var rows := out;
    TableRows(aps, activeAP, saved, bySSID, rows);
    out := SortRows(out);
    PermutationKeepsRows(aps, activeAP, saved, rows, out);
    forall r | r in out ensures IsSeen(aps, activeAP, saved, r) {
      RowIsSeen(aps, activeAP, saved, r);
    }
    forall i, j | 0 <= i < j < |out|
      ensures (out[i].active && !out[j].active)
        || (out[i].active == out[j].active && out[i].strength >= out[j].strength)
    {
      assert !Less(out[j], out[i]);
    }
  }

  /** The update of one entry in the loop. */
  method Merge(table: map<string, Row>, ssid: string, w: Row) returns (next: map<string, Row>)
    ensures next == table[ssid :=
      if ssid !in table then w
      else if w.strength > table[ssid].strength then w.(active := w.active || table[ssid].active)
      else table[ssid].(active := w.active || table[ssid].active)]
  {
    next := table;
    if ssid !in table || w.strength > table[ssid].strength {
      next := next[ssid := w.(active := w.active || (ssid in table && table[ssid].active))];
    } else if w.active {
      next := next[ssid := table[ssid].(active := true)];
    }
  }

  lemma ActiveSoFar(aps: seq<AP>, ap: AP, activeAP: string, was: string, active: string)
    requires was != "" ==> Connected(aps, activeAP, was)
    requires was == "" ==> forall s :: s != "" ==> !Connected(aps, activeAP, s)
    requires active == if ap.ssid != "" && ap.path == activeAP then ap.ssid else was
    ensures active != "" ==> Connected(aps + [ap], activeAP, active)
    ensures active == "" ==> forall s :: s != "" ==> !Connected(aps + [ap], activeAP, s)
  {
    ConnectedSnoc(aps, ap, activeAP, active);
    forall s | s != "" ensures Connected(aps + [ap], activeAP, s) <==>
      Connected(aps, activeAP, s) || (ap.ssid == s && ap.path == activeAP)
    {
      ConnectedSnoc(aps, ap, activeAP, s);
    }
  }

  /** The rows of the table, in whatever order the map gives them. */
  method RowsOf(table: map<string, Row>) returns (rows: seq<Row>)
    requires forall s :: s in table ==> table[s].ssid == s
    ensures NoDuplicates(rows) && forall r :: r in rows <==> r.ssid in table && table[r.ssid] == r
  {
    rows := [];
    var left := table.Keys;
    while left != {}
      invariant left <= table.Keys && NoDuplicates(rows)
      invariant forall r :: r in rows <==> r.ssid in table && table[r.ssid] == r && r.ssid !in left
      decreases left
    {
      var s :| s in left;
      left := left - {s};
      assert table[s] !in rows;
      rows := rows + [table[s]];
    }
  }

  lemma TableRows(aps: seq<AP>, active: string, saved: set<string>, table: map<string, Row>, rows: seq<Row>)
    requires Folded(aps, active, saved, table) && NoDuplicates(rows)
    requires forall r :: r in rows <==> r.ssid in table && table[r.ssid] == r
    ensures OneRowEach(aps, active, saved, rows)
  {
    forall s | s != "" && Visible(aps, s) ensures exists r :: r in rows && r.ssid == s {
      assert table[s] in rows;
    }
  }

  // ---- connecting ----

  /** What a connection to ssid uses: path, security and key management of the network's first
      strongest access point. */
  ghost predicate Uses(aps: seq<AP>, i: nat, ssid: string, path: string, secured: bool, keymgmt: string) {
    && IsBest(aps, i) && aps[i].ssid == ssid && path == aps[i].path
    && secured == Security(aps[i].flags, aps[i].wpa, aps[i].rsn).1
    && keymgmt == KeyManagement(aps[i].rsn, aps[i].wpa)
  }

  /** matchAP. */
  method MatchAP(aps: seq<AP>, ssid: string) returns (path: string, secured: bool, keymgmt: string)
    ensures Visible(aps, ssid) ==> exists i: nat :: Uses(aps, i, ssid, path, secured, keymgmt)
    ensures !Visible(aps, ssid) ==> path == "" && !secured && keymgmt == ""
  {
    path, secured, keymgmt := "", false, "";
    var best: int := -1;
    ghost var at: Option<nat> := None;
    for n := 0 to |aps|
      invariant at.None? ==> best == -1 && path == "" && !secured && keymgmt == "" && !Visible(aps[..n], ssid)
      invariant at.Some? ==> Uses(aps[..n], at.value, ssid, path, secured, keymgmt)
      invariant at.Some? ==> best == aps[at.value].strength
    {
      var ap := aps[n];
      assert aps[..n + 1] == aps[..n] + [ap];
      VisibleSnoc(aps[..n], ap, ssid);
      if ap.ssid == ssid && ap.strength > best {
        best := ap.strength;
        secured := Security(ap.flags, ap.wpa, ap.rsn).1;
        keymgmt := KeyManagement(ap.rsn, ap.wpa);
        path, at := ap.path, Some(n);
      }
    }
    assert aps[..|aps|] == aps;
  }

  lemma UnsupportedLabels(flags: bv32, wpa: bv32, rsn: bv32)
    ensures var sec := Security(flags, wpa, rsn);
            sec.1 && KeyManagement(rsn, wpa) == "" <==> sec.0 == "802.1X" || sec.0 == "WEP"
  {
  }

  /** WiFiConnect up to the settings it sends: path, security and key management are those of
      the network's first strongest access point; it refuses a network as unsupported exactly
      when the list shows it as 802.1X or WEP, and asks for a key exactly when the list shows it
      as secured. */
  method PrepareConnect(aps: seq<AP>, ssid: string)
    returns (refused: bool, path: string, secured: bool, keymgmt: string)
    ensures Visible(aps, ssid) ==> exists i: nat :: Uses(aps, i, ssid, path, secured, keymgmt)
    ensures !Visible(aps, ssid) ==> !refused && path == "" && !secured && keymgmt == ""
    ensures Visible(aps, ssid) ==>
      exists i: nat :: IsStrongest(aps, i, ssid) && path == aps[i].path && AsksKey(aps[i], secured, keymgmt)
    ensures refused <==> secured && keymgmt == ""
    ensures forall active, saved, row :: IsRow(aps, active, saved, row) && row.ssid == ssid ==>
      && secured == row.secured
      && (refused <==> row.security == "802.1X" || row.security == "WEP")
  {
    path, secured, keymgmt := MatchAP(aps, ssid);
    refused := secured && keymgmt == "";
    if Visible(aps, ssid) {
      var i: nat :| Uses(aps, i, ssid, path, secured, keymgmt);
      assert IsStrongest(aps, i, ssid) && AsksKey(aps[i], secured, keymgmt);
    }
    forall active, saved, row | IsRow(aps, active, saved, row) && row.ssid == ssid
      ensures secured == row.secured
      ensures refused <==> row.security == "802.1X" || row.security == "WEP"
    {
      var i: nat :| IsBest(aps, i) && row == RowOf(aps[i], Connected(aps, active, aps[i].ssid), aps[i].ssid in saved);
      assert aps[i].ssid == ssid;
      var k: nat :| Uses(aps, k, ssid, path, secured, keymgmt);
      BestIsUnique(aps, i, k);
      UnsupportedLabels(aps[i].flags, aps[i].wpa, aps[i].rsn);
    }
  }
}
