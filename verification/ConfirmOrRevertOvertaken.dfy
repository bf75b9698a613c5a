/** Why a guarded run is not enough for a confirmation: an apply that stalls until its own
    checkpoint has fired may write under the checkpoint of the next one, and the confirmation
    of that one then makes the stalled change permanent. */
module ConfirmOrRevertOvertaken {
  import opened NetworkConfig
  import opened NetworkManager
  import opened ConfirmOrRevert
  import opened ConfirmOrRevertSafety
  import opened ConfirmOrRevertRequests

  /** A guarded run from s to end. */
  ghost predicate Leads(s: State, run: seq<Step>, end: State) {
    IsRun(s, run) && AllGuarded(s, run) && Exec(s, run) == end
  }

  lemma LeadsAppend(s: State, a: seq<Step>, middle: State, b: seq<Step>, end: State)
    requires Leads(s, a, middle) && Leads(middle, b, end)
    ensures Leads(s, a + b, end)
  {
    RunAppend(s, a, b);
    GuardedAppend(s, a, b);
  }

  lemma StepLeads(s: State, step: Step)
    requires Enabled(s, step) && Guarded(s, step)
    ensures Leads(s, [step], Next(s, step))
  {
    assert [step][1..] == [];
  }

  lemma TwoLead(s: State, one: Step, two: Step)
    requires Enabled(s, one) && Guarded(s, one) && Enabled(Next(s, one), two) && Guarded(Next(s, one), two)
    ensures Leads(s, [one, two], Next(Next(s, one), two))
  {
    StepLeads(s, one);
    StepLeads(Next(s, one), two);
    LeadsAppend(s, [one], Next(s, one), [two], Next(Next(s, one), two));
    assert [one] + [two] == [one, two];
  }

  /** Handler h opens a checkpoint and reads the profile. */
  function Opening(h: nat, device: string, request: Section): seq<Step> {
    [Begin(h, device, request), Create(h, Delivered)] + [Read(h, true)]
  }

  ghost function Opened(s: State, h: nat, device: string, request: Section): State
    requires device in s.nm.devices
  {
    var nm := CreateCheckpoint(s.nm, device, WINDOW_SECONDS);
    s.(nm := nm,
       handlers := s.handlers[h := Applying(ReadBack(s.nm.devices[device].profile), device, request, s.nm.next)],
       origin := s.origin[s.nm.next := Origin(nm.live[s.nm.next], request)],
       owner := s.owner[s.nm.next := ByHandler(h, false)])
  }

  lemma CreatingLeads(s: State, h: nat, device: string, request: Section) returns (end: State)
    requires device in s.nm.devices && !Covered(s.nm, device) && h !in s.handlers
    ensures Leads(s, [Begin(h, device, request), Create(h, Delivered)], end)
    ensures end == Opened(s, h, device, request)
                     .(handlers := s.handlers[h := Applying(Created, device, request, s.nm.next)])
  {
    var s1 := Next(s, Begin(h, device, request));
    assert !Covered(s1.nm, device);
    end := Next(s1, Create(h, Delivered));
    TwoLead(s, Begin(h, device, request), Create(h, Delivered));
  }

  lemma OpeningLeads(s: State, h: nat, device: string, request: Section)
    requires device in s.nm.devices && !Covered(s.nm, device) && h !in s.handlers
    ensures Leads(s, Opening(h, device, request), Opened(s, h, device, request))
  {
    var created := CreatingLeads(s, h, device, request);
    StepLeads(created, Read(h, true));
    assert Next(created, Read(h, true)) == Opened(s, h, device, request);
    LeadsAppend(s, [Begin(h, device, request), Create(h, Delivered)], created,
                [Read(h, true)], Opened(s, h, device, request));
  }

  /** Handler h stores the rewritten profile and brings it into force. */
  function Writing(h: nat): seq<Step> {
    [Update(h, Delivered), Activate(h, Delivered)]
  }

  ghost function Written(s: State, h: nat): State
    requires InPhase(s, h) && s.handlers[h].phase.ReadBack?
  {
    var p := s.handlers[h];
    var profile := Rewritten(p.phase.settings, p.request);
    s.(nm := s.nm.(devices := s.nm.devices[p.device := DeviceState(profile, profile)]),
       handlers := s.handlers[h := p.(phase := Activated)])
  }

  lemma WritingLeads(s: State, h: nat, cp: nat)
    requires InPhase(s, h) && s.handlers[h].phase.ReadBack? && Covers(s.nm, cp, s.handlers[h].device)
    ensures Leads(s, Writing(h), Written(s, h))
  {
    var s1 := Next(s, Update(h, Delivered));
    assert Covers(s1.nm, cp, s.handlers[h].device);
    TwoLead(s, Update(h, Delivered), Activate(h, Delivered));
    assert Next(s1, Activate(h, Delivered)) == Written(s, h);
  }

  /** Handler 0 stalls behind its checkpoint until the clock has fired it. */
  function Stalling(device: string, request: Section): seq<Step> {
    Opening(0, device, request) + [Tick(ROLLBACK_WINDOW)]
  }

  ghost function Stalled(s: State, device: string, request: Section): State
    requires device in s.nm.devices
  {
    var ready := Opened(s, 0, device, request);
    ready.(nm := Advance(ready.nm, ROLLBACK_WINDOW))
  }

  lemma StallingLeads(s: State, device: string, request: Section)
    requires Initial(s) && device in s.nm.devices
    ensures Leads(s, Stalling(device, request), Stalled(s, device, request))
    ensures Stalled(s, device, request).nm.live == map[]
    ensures Stalled(s, device, request).nm.devices == s.nm.devices
  {
    assert forall d :: !Covered(s.nm, d);
    var ready := Opened(s, 0, device, request);
    OpeningLeads(s, 0, device, request);
    StepLeads(ready, Tick(ROLLBACK_WINDOW));
    LeadsAppend(s, Opening(0, device, request), ready, [Tick(ROLLBACK_WINDOW)], Stalled(s, device, request));
  }

  /** Handler 1 applies a change of its own and issues a token for it. */
  function Changing(device: string, request: Section): seq<Step> {
    Opening(1, device, request) + Writing(1) + [Issue(1, "token", "user")]
  }

  /** The token for a change of the device under cp is pending. */
  ghost predicate Pends(s: State, device: string, request: Section, cp: nat) {
    && Covers(s.nm, cp, device)
    && cp in s.origin && s.origin[cp].request == request
    && "token" in s.pending && s.pending["token"].checkpoint == cp && s.nm.now <= s.pending["token"].deadline
  }

  lemma IssuePends(s: State, device: string, cp: nat)
    requires InPhase(s, 1) && s.handlers[1].phase.Activated? && s.handlers[1].cp == cp && "token" !in s.issued
    requires Covers(s.nm, cp, device) && cp in s.origin
    ensures var end := Next(s, Issue(1, "token", "user"));
            Pends(end, device, s.origin[cp].request, cp) && end.nm == s.nm
            && end.confirmed == s.confirmed && end.handlers == s.handlers - {1}
  {
  }

  lemma ApplyingLeads(s: State, device: string, request: Section) returns (end: State)
    requires device in s.nm.devices && !Covered(s.nm, device) && 1 !in s.handlers
    ensures Leads(s, Opening(1, device, request) + Writing(1), end)
    ensures Covers(end.nm, s.nm.next, device) && device in end.nm.devices
    ensures s.nm.next in end.origin && end.origin[s.nm.next].request == request
    ensures end.handlers == s.handlers[1 := Applying(Activated, device, request, s.nm.next)]
    ensures end.issued == s.issued && end.confirmed == s.confirmed
  {
    var ready := Opened(s, 1, device, request);
    end := Written(ready, 1);
    OpeningLeads(s, 1, device, request);
    WritingLeads(ready, 1, s.nm.next);
    LeadsAppend(s, Opening(1, device, request), ready, Writing(1), end);
  }

  lemma ChangingLeads(s: State, device: string, request: Section) returns (end: State)
    requires device in s.nm.devices && s.nm.live == map[] && 1 !in s.handlers && "token" !in s.issued
    ensures Leads(s, Changing(device, request), end) && Pends(end, device, request, s.nm.next)
    ensures end.handlers == s.handlers && end.confirmed == s.confirmed && device in end.nm.devices
  {
    assert forall d :: !Covered(s.nm, d);
    var written := ApplyingLeads(s, device, request);
    IssuePends(written, device, s.nm.next);
    end := Next(written, Issue(1, "token", "user"));
    StepLeads(written, Issue(1, "token", "user"));
    LeadsAppend(s, Opening(1, device, request) + Writing(1), written, [Issue(1, "token", "user")], end);
  }

  /** Handler 0 wakes up and writes; then the token of handler 1 comes in to be confirmed. */
  function Overtaking(): seq<Step> {
    Writing(0) + [Take(2, "token", true)]
  }

  lemma OvertakingLeads(s: State, device: string, request: Section, settings: Settings, lost: nat,
                        other: Section, cp: nat) returns (end: State)
    requires s.handlers == map[0 := Applying(ReadBack(settings), device, request, lost)]
    requires device in s.nm.devices && Pends(s, device, other, cp)
    ensures Leads(s, Overtaking(), end)
    ensures 2 in end.handlers && end.handlers[2] == Settling(true, cp) && Covers(end.nm, cp, device)
    ensures cp in end.origin && end.origin[cp].request == other && end.confirmed == s.confirmed
    ensures device in end.nm.devices
    ensures end.nm.devices[device] == DeviceState(Rewritten(settings, request), Rewritten(settings, request))
  {
    var written := Written(s, 0);
    WritingLeads(s, 0, cp);
    end := Next(written, Take(2, "token", true));
    StepLeads(written, Take(2, "token", true));
    LeadsAppend(s, Writing(0), written, [Take(2, "token", true)], end);
  }

  function Overtaken(device: string, first: Section, second: Section): seq<Step> {
    Stalling(device, first) + Changing(device, second) + Overtaking()
  }

  lemma OvertakenEnds(s: State, device: string, first: Section, second: Section)
    requires Initial(s) && device in s.nm.devices
    ensures IsRun(s, Overtaken(device, first, second)) && AllGuarded(s, Overtaken(device, first, second))
    ensures var end := Exec(s, Overtaken(device, first, second));
            && 2 in end.handlers && end.handlers[2].Settling? && end.handlers[2].confirm
            && Covers(end.nm, end.handlers[2].cp, device)
            && end.handlers[2].cp in end.origin && end.origin[end.handlers[2].cp].request == second
            && device in end.nm.devices && end.confirmed == s.nm.devices
            && end.nm.devices[device] == Requested(s.nm.devices[device], first)
  {
    StallingLeads(s, device, first);
    var a := Stalled(s, device, first);
    var b := ChangingLeads(a, device, second);
    var end := OvertakingLeads(b, device, first, s.nm.devices[device].profile, s.nm.next, second, a.nm.next);
    LeadsAppend(s, Stalling(device, first), a, Changing(device, second), b);
    LeadsAppend(s, Stalling(device, first) + Changing(device, second), b, Overtaking(), end);
  }

  /** From every quiet state and for any two requests that differ in effect: the run is guarded,
      so no state of it breaks the promise; but confirming the second request makes the first
      one permanent. One of its writes was foreign. */
  lemma ForeignChangeIsConfirmed(s: State, device: string, first: Section, second: Section)
    requires Initial(s) && device in s.nm.devices
    requires Rewritten(s.nm.devices[device].profile, first) != Rewritten(s.nm.devices[device].profile, second)
    ensures var run := Overtaken(device, first, second);
            && IsRun(s, run) && AllSafe(s, run) && !AllOwn(s, run)
            && Enabled(Exec(s, run), Finish(2, Delivered))
            && Exec(s, run).handlers[2].confirm
            && Exec(s, run).handlers[2].cp in Exec(s, run).origin
            && Exec(s, run).origin[Exec(s, run).handlers[2].cp].request == second
            && var s' := Next(Exec(s, run), Finish(2, Delivered));
               && device in s'.confirmed && device in s'.nm.devices && !Covered(s'.nm, device)
               && s'.nm.devices[device] == s'.confirmed[device] == Requested(s.nm.devices[device], first)
               && s'.confirmed[device] != Requested(s.nm.devices[device], second)
  {
    var run := Overtaken(device, first, second);
    OvertakenEnds(s, device, first, second);
    RunIsSafeIffGuarded(s, run);
    GuardedRunEndsSafe(s, run);
    UncoveredAfter(Exec(s, run).nm, Exec(s, run).handlers[2].cp);
    if AllOwn(s, run) {
      ConfirmKeepsRequest(s, run, 2, Delivered);
      assert false;
    }
  }
}
