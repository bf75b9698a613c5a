/** What the confirm-or-revert protocol guarantees over whole runs. */
module ConfirmOrRevertSafety {
  import opened Sequences
  import opened NetworkConfig
  import opened NetworkManager
  import opened ConfirmOrRevert

  /** A device without a live checkpoint is as last confirmed, and a live checkpoint saves
      that state. */
  ghost predicate Reverts(nm: Nm, confirmed: map<string, DeviceState>) {
    && confirmed.Keys == nm.devices.Keys
    && (forall d :: d in nm.devices && !Covered(nm, d) ==> nm.devices[d] == confirmed[d])
    && (forall cp :: cp in nm.live && nm.live[cp].device in confirmed ==>
          nm.live[cp].saved == confirmed[nm.live[cp].device])
  }

  ghost predicate Safe(s: State) {
    Reverts(s.nm, s.confirmed)
  }

  /** A step that reaches a device's settings. */
  predicate IsWrite(step: Step) {
    (step.Update? || step.Activate?) && !step.outcome.Refused?
  }

  /** A write falls under some live checkpoint of its device, or changes nothing. */
  ghost predicate Guarded(s: State, step: Step)
    requires Enabled(s, step)
  {
    IsWrite(step) ==>
      var d := s.handlers[step.h].device;
      Covered(s.nm, d) || Next(s, step).nm.devices[d] == s.nm.devices[d]
  }

  /** A write is carried out before its own checkpoint runs out. */
  ghost predicate Timely(s: State, step: Step)
    requires Enabled(s, step)
  {
    IsWrite(step) ==>
      var cp := s.handlers[step.h].cp;
      cp in s.origin && s.nm.now < s.origin[cp].checkpoint.expiry
  }

  // ---- what each call of NetworkManager does to the promise ----

  lemma WriteReverts(nm: Nm, confirmed: map<string, DeviceState>, d: string, x: DeviceState)
    requires Reverts(nm, confirmed) && d in nm.devices
    ensures Reverts(nm.(devices := nm.devices[d := x]), confirmed)
       <==> Covered(nm, d) || x == nm.devices[d]
  {
    var nm' := nm.(devices := nm.devices[d := x]);
    assert forall id, e :: Covers(nm', id, e) == Covers(nm, id, e);
    assert forall e :: Covered(nm', e) == Covered(nm, e);
  }

  lemma CreateReverts(nm: Nm, confirmed: map<string, DeviceState>, d: string)
    requires Reverts(nm, confirmed) && WellFormed(nm) && d in nm.devices && !Covered(nm, d)
    ensures Reverts(CreateCheckpoint(nm, d, WINDOW_SECONDS), confirmed)
  {
    var nm' := CreateCheckpoint(nm, d, WINDOW_SECONDS);
    assert forall id, e :: Covers(nm, id, e) ==> Covers(nm', id, e);
  }

  /** Removing a checkpoint leaves every other device as covered as it was. */
  lemma OthersStayCovered(nm: Nm, cp: nat, e: string)
    requires cp in nm.live && e != nm.live[cp].device && Covered(nm, e)
    ensures Covered(DestroyCheckpoint(nm, cp), e)
  {
    var id :| Covers(nm, id, e);
    assert Covers(DestroyCheckpoint(nm, cp), id, e);
  }

  lemma DestroyReverts(nm: Nm, confirmed: map<string, DeviceState>, cp: nat)
    requires Reverts(nm, confirmed) && WellFormed(nm) && cp in nm.live
    ensures var d := nm.live[cp].device;
            Reverts(DestroyCheckpoint(nm, cp), confirmed[d := nm.devices[d]])
  {
    var nm' := DestroyCheckpoint(nm, cp);
    forall e | e in nm.devices && e != nm.live[cp].device && !Covered(nm', e)
      ensures !Covered(nm, e)
    {
      if Covered(nm, e) {
        OthersStayCovered(nm, cp, e);
      }
    }
  }

  lemma RollbackReverts(nm: Nm, confirmed: map<string, DeviceState>, cp: nat)
    requires Reverts(nm, confirmed) && WellFormed(nm)
    ensures Reverts(RollbackCheckpoint(nm, cp), confirmed)
  {
    if cp in nm.live {
      var nm' := RollbackCheckpoint(nm, cp);
      forall e | e in nm.devices && e != nm.live[cp].device && !Covered(nm', e)
        ensures !Covered(nm, e)
      {
        if Covered(nm, e) {
          OthersStayCovered(nm, cp, e);
          var id :| Covers(DestroyCheckpoint(nm, cp), id, e);
          assert Covers(nm', id, e);
        }
      }
    } else {
      assert RollbackCheckpoint(nm, cp) == nm by {
        assert nm.live - {cp} == nm.live;
      }
    }
  }

  lemma AdvanceReverts(nm: Nm, confirmed: map<string, DeviceState>, dt: nat)
    requires Reverts(nm, confirmed)
    ensures Reverts(Advance(nm, dt), confirmed)
  {
    var nm' := Advance(nm, dt);
    forall d | d in nm.devices && !Covered(nm', d) ensures nm'.devices[d] == confirmed[d] {
      if Covered(nm, d) {
        var id :| Covers(nm, id, d);
        assert !Covers(nm', id, d);
        assert Due(nm, nm.now + dt, d, id);
      }
    }
  }

  // ---- one step ----

  lemma CallIsSafe(s: State, h: nat, call: AppCall, outcome: Outcome)
    requires Inv(s) && Safe(s)
    ensures Safe(AfterCall(s, h, call, outcome))
  {
    RollbackReverts(s.nm, s.confirmed, call.cp);
    if call.cp in s.nm.live {
      DestroyReverts(s.nm, s.confirmed, call.cp);
    }
  }

  lemma WriteIsSafeIffGuarded(s: State, step: Step)
    requires Safe(s) && Enabled(s, step) && IsWrite(step)
    ensures Safe(Next(s, step)) <==> Guarded(s, step)
  {
    var d := s.handlers[step.h].device;
    var x := Next(s, step).nm.devices[d];
    WriteReverts(s.nm, s.confirmed, d, x);
    assert Next(s, step).nm == s.nm.(devices := s.nm.devices[d := x]);
  }

  lemma CallStepIsSafe(s: State, step: Step)
    requires Inv(s) && Safe(s) && Enabled(s, step) && (step.Undo? || step.Finish?)
    ensures Safe(Next(s, step))
  {
    var p := s.handlers[step.h];
    var call := if step.Undo? then FailureRollback(p.cp)
                else if p.confirm then ConfirmDestroy(p.cp) else CancelRollback(p.cp);
    CallIsSafe(s, step.h, call, step.outcome);
  }

  lemma QuietStepIsSafe(s: State, step: Step)
    requires Safe(s) && Enabled(s, step)
    requires step.Begin? || step.Read? || step.Issue? || step.Take? || step.Restart?
      || ((step.Update? || step.Activate?) && step.outcome.Refused?)
    ensures Safe(Next(s, step))
  {
    assert Next(s, step).nm == s.nm && Next(s, step).confirmed == s.confirmed;
  }

  lemma CreateIsSafe(s: State, h: nat, outcome: Outcome)
    requires Inv(s) && Safe(s) && Enabled(s, Create(h, outcome))
    ensures Safe(AfterCreate(s, h, outcome))
  {
    if !outcome.Refused? {
      CreateReverts(s.nm, s.confirmed, s.handlers[h].device);
    }
  }

  /** Every step but a write keeps the promise; a write keeps it exactly when guarded. */
  lemma StepIsSafeIffGuarded(s: State, step: Step)
    requires Inv(s) && Safe(s) && Enabled(s, step)
    ensures Safe(Next(s, step)) <==> Guarded(s, step)
  {
    if IsWrite(step) {
      WriteIsSafeIffGuarded(s, step);
    } else if step.Undo? || step.Finish? {
      CallStepIsSafe(s, step);
    } else if step.Tick? {
      AdvanceReverts(s.nm, s.confirmed, step.dt);
    } else if step.Create? {
      CreateIsSafe(s, step.h, step.outcome);
    } else {
      QuietStepIsSafe(s, step);
    }
  }

  /** Until its handler is done with it, a checkpoint is live while the clock is before its
      expiry; so a timely write is guarded by the checkpoint of its own handler. */
  lemma TimelyIsGuarded(s: State, step: Step)
    requires Inv(s) && Enabled(s, step) && Timely(s, step)
    ensures Guarded(s, step)
    ensures IsWrite(step) ==> Covers(s.nm, s.handlers[step.h].cp, s.handlers[step.h].device)
  {
    if IsWrite(step) {
      var p := s.handlers[step.h];
      assert !s.owner[p.cp].Spent?;
      assert Covers(s.nm, p.cp, p.device);
    }
  }

  // ---- whole runs ----

  ghost predicate AllSafe(s: State, run: seq<Step>)
    requires IsRun(s, run)
    decreases |run|
  {
    Safe(s) && (run != [] ==> AllSafe(Next(s, run[0]), run[1..]))
  }

  ghost predicate AllGuarded(s: State, run: seq<Step>)
    requires IsRun(s, run)
    decreases |run|
  {
    run != [] ==> Guarded(s, run[0]) && AllGuarded(Next(s, run[0]), run[1..])
  }

  ghost predicate AllTimely(s: State, run: seq<Step>)
    requires IsRun(s, run)
    decreases |run|
  {
    run != [] ==> Timely(s, run[0]) && AllTimely(Next(s, run[0]), run[1..])
  }

  lemma {:induction false} RunKeepsInv(s: State, run: seq<Step>)
    requires Inv(s) && IsRun(s, run)
    ensures Inv(Exec(s, run))
    decreases |run|
  {
    if run != [] {
      StepKeepsInv(s, run[0]);
      RunKeepsInv(Next(s, run[0]), run[1..]);
    }
  }

  lemma {:induction false} SafeFrom(s: State, run: seq<Step>)
    requires Inv(s) && Safe(s) && IsRun(s, run)
    ensures AllSafe(s, run) <==> AllGuarded(s, run)
    decreases |run|
  {
    if run != [] {
      StepKeepsInv(s, run[0]);
      StepIsSafeIffGuarded(s, run[0]);
      if Guarded(s, run[0]) {
        SafeFrom(Next(s, run[0]), run[1..]);
      }
    }
  }

  lemma {:induction false} GuardedAppend(s: State, a: seq<Step>, b: seq<Step>)
    requires IsRun(s, a) && AllGuarded(s, a) && IsRun(Exec(s, a), b) && AllGuarded(Exec(s, a), b)
    ensures IsRun(s, a + b) && AllGuarded(s, a + b)
    decreases |a|
  {
    RunAppend(s, a, b);
    if a == [] {
      assert a + b == b;
    } else {
      GuardedAppend(Next(s, a[0]), a[1..], b);
      assert (a + b)[1..] == a[1..] + b;
    }
  }

  /** Every state of a run is safe exactly when every write of the run is guarded. */
  lemma RunIsSafeIffGuarded(s: State, run: seq<Step>)
    requires Initial(s) && IsRun(s, run)
    ensures AllSafe(s, run) <==> AllGuarded(s, run)
  {
    InitialInv(s);
    SafeFrom(s, run);
  }

  lemma {:induction false} TimelyGuardsAll(s: State, run: seq<Step>)
    requires Inv(s) && IsRun(s, run) && AllTimely(s, run)
    ensures AllGuarded(s, run)
    decreases |run|
  {
    if run != [] {
      TimelyIsGuarded(s, run[0]);
      StepKeepsInv(s, run[0]);
      TimelyGuardsAll(Next(s, run[0]), run[1..]);
    }
  }

  lemma {:induction false} SafeAtEnd(s: State, run: seq<Step>)
    requires IsRun(s, run) && AllSafe(s, run)
    ensures Safe(Exec(s, run))
    decreases |run|
  {
    if run != [] {
      SafeAtEnd(Next(s, run[0]), run[1..]);
    }
  }

  lemma GuardedRunEndsSafe(s: State, run: seq<Step>)
    requires Initial(s) && IsRun(s, run) && AllGuarded(s, run)
    ensures Inv(Exec(s, run)) && Safe(Exec(s, run))
  {
    InitialInv(s);
    RunIsSafeIffGuarded(s, run);
    SafeAtEnd(s, run);
    RunKeepsInv(s, run);
  }

  /** However handlers, errors, clock ticks and restarts interleave: as long as no write is
      later than its own checkpoint, every state is safe. */
  lemma TimelyRunIsSafe(s: State, run: seq<Step>)
    requires Initial(s) && IsRun(s, run) && AllTimely(s, run)
    ensures AllSafe(s, run) && Safe(Exec(s, run))
  {
    InitialInv(s);
    TimelyGuardsAll(s, run);
    RunIsSafeIffGuarded(s, run);
    SafeAtEnd(s, run);
  }

  lemma ExecCons(s: State, step: Step, rest: seq<Step>)
    requires Enabled(s, step) && IsRun(Next(s, step), rest)
    ensures IsRun(s, [step] + rest) && Exec(s, [step] + rest) == Exec(Next(s, step), rest)
  {
    assert ([step] + rest)[1..] == rest;
  }

  /** A run that opens a checkpoint and stalls until it has fired. */
  function Stall(device: string, request: Section): seq<Step> {
    [Begin(0, device, request)]
    + ([Create(0, Delivered)] + ([Read(0, true)] + ([Tick(ROLLBACK_WINDOW)] + ([Update(0, Delivered)] + []))))
  }

  lemma StallEndsUncovered(s: State, device: string, request: Section)
    requires Initial(s) && device in s.nm.devices
    ensures IsRun(s, Stall(device, request))
    ensures var end := Exec(s, Stall(device, request));
            && device in end.nm.devices
            && end.nm.live == map[] && end.confirmed == s.nm.devices
            && end.nm.devices[device].profile == Rewritten(s.nm.devices[device].profile, request)
  {
    assert forall d :: !Covered(s.nm, d);
    var s1 := Next(s, Begin(0, device, request));
    var s2 := Next(s1, Create(0, Delivered));
    var s3 := Next(s2, Read(0, true));
    var s4 := Next(s3, Tick(ROLLBACK_WINDOW));
    assert s4.nm.live == map[];
    var s5 := Next(s4, Update(0, Delivered));
    ExecCons(s4, Update(0, Delivered), []);
    ExecCons(s3, Tick(ROLLBACK_WINDOW), [Update(0, Delivered)] + []);
    ExecCons(s2, Read(0, true), [Tick(ROLLBACK_WINDOW)] + ([Update(0, Delivered)] + []));
    ExecCons(s1, Create(0, Delivered),
             [Read(0, true)] + ([Tick(ROLLBACK_WINDOW)] + ([Update(0, Delivered)] + [])));
    ExecCons(s, Begin(0, device, request),
             [Create(0, Delivered)]
             + ([Read(0, true)] + ([Tick(ROLLBACK_WINDOW)] + ([Update(0, Delivered)] + []))));
  }

  /** The promise without its condition fails: an apply that stalls until its checkpoint has
      fired and only then writes leaves the device changed with nothing to revert it. */
  lemma StalledApplyIsUnsafe(s: State, device: string, request: Section)
    requires Initial(s) && device in s.nm.devices
    requires Rewritten(s.nm.devices[device].profile, request) != s.nm.devices[device].profile
    ensures IsRun(s, Stall(device, request)) && !AllSafe(s, Stall(device, request))
    ensures var end := Exec(s, Stall(device, request));
            && end.nm.live == map[] && device in end.nm.devices && device in end.confirmed
            && end.nm.devices[device] != end.confirmed[device]
  {
    StallEndsUncovered(s, device, request);
    var end := Exec(s, Stall(device, request));
    assert !Covered(end.nm, device);
    if AllSafe(s, Stall(device, request)) {
      SafeAtEnd(s, Stall(device, request));
    }
  }

  // ---- the window ----

  lemma OnlyCreateAddsOrigin(s: State, step: Step)
    requires Enabled(s, step) && !step.Create?
    ensures Next(s, step).origin == s.origin
  {
  }

  lemma StepKeepsOrigin(s: State, step: Step, cp: nat)
    requires Alive(s) && Enabled(s, step) && cp in s.origin
    ensures cp in Next(s, step).origin && Next(s, step).origin[cp] == s.origin[cp]
  {
    if !step.Create? {
      OnlyCreateAddsOrigin(s, step);
    }
  }

  lemma {:induction false} RunKeepsOrigin(s: State, run: seq<Step>, cp: nat)
    requires Inv(s) && IsRun(s, run) && cp in s.origin
    ensures cp in Exec(s, run).origin && Exec(s, run).origin[cp] == s.origin[cp]
    decreases |run|
  {
    if run != [] {
      StepKeepsInv(s, run[0]);
      StepKeepsOrigin(s, run[0], cp);
      RunKeepsOrigin(Next(s, run[0]), run[1..], cp);
    }
  }

  /** How a handler can make sure of it: it looks at the clock, finds more than some slack left
      before its own checkpoint's expiry, and no more than that slack passes until its write is
      carried out. */
  lemma ComparedIsTimely(s: State, wait: seq<Step>, step: Step, cp: nat, slack: nat)
    requires Inv(s) && IsRun(s, wait) && Enabled(Exec(s, wait), step)
    requires cp in s.origin && s.nm.now + slack < s.origin[cp].checkpoint.expiry
    requires Exec(s, wait).nm.now <= s.nm.now + slack
    requires IsWrite(step) ==> Exec(s, wait).handlers[step.h].cp == cp
    ensures Timely(Exec(s, wait), step)
  {
    RunKeepsOrigin(s, wait, cp);
  }

  /** No checkpoint, and so no unconfirmed change it covers, outlives the window: once the
      clock has moved on by the window, every checkpoint that was live is gone, whatever
      happened meanwhile. */
  lemma NothingOutlivesTheWindow(s0: State, before: seq<Step>, after: seq<Step>)
    requires Initial(s0) && IsRun(s0, before) && IsRun(Exec(s0, before), after)
    requires Exec(Exec(s0, before), after).nm.now >= Exec(s0, before).nm.now + ROLLBACK_WINDOW
    ensures forall cp :: cp in Exec(s0, before).nm.live ==> cp !in Exec(Exec(s0, before), after).nm.live
  {
    var s := Exec(s0, before);
    InitialInv(s0);
    RunKeepsInv(s0, before);
    RunKeepsInv(s, after);
    forall cp | cp in s.nm.live ensures cp !in Exec(s, after).nm.live {
      RunKeepsOrigin(s, after, cp);
    }
  }

  /** After a silence as long as the window every device is as last confirmed, even if the
      gateway died in between. */
  lemma SilenceReverts(s0: State, run: seq<Step>, dt: nat)
    requires Initial(s0) && IsRun(s0, run) && AllGuarded(s0, run) && dt >= ROLLBACK_WINDOW
    ensures var s := Exec(s0, run);
            Advance(s.nm, dt).live == map[] && Advance(s.nm, dt).devices == s.confirmed
  {
    GuardedRunEndsSafe(s0, run);
    var s := Exec(s0, run);
    SilenceFrom(s.nm, s.origin, s.owner, s.confirmed, dt);
  }

  lemma SilenceFrom(nm: Nm, origin: map<nat, Origin>, owner: map<nat, Owner>,
                    confirmed: map<string, DeviceState>, dt: nat)
    requires Lifetimes(nm, origin, owner) && Reverts(nm, confirmed) && dt >= ROLLBACK_WINDOW
    ensures Advance(nm, dt).live == map[] && Advance(nm, dt).devices == confirmed
  {
    var nm' := Advance(nm, dt);
    AdvanceReverts(nm, confirmed, dt);
    assert nm'.live == map[];
    assert forall d :: !Covered(nm', d);
  }

  // ---- tokens and calls, in every run ----

  /** A checkpoint gets at most one destroy or rollback call from the gateway, a token is
      consumed at most once, and the rollback of a failed apply never meets a checkpoint that
      has a token. */
  lemma EachCheckpointIsCalledOnce(s: State, run: seq<Step>)
    requires Initial(s) && IsRun(s, run)
    ensures var end := Exec(s, run);
      && (forall i, j :: 0 <= i < j < |end.calls| ==> end.calls[i].cp != end.calls[j].cp)
      && NoDuplicates(end.consumed)
      && (forall t :: t in end.consumed ==> t in end.issued && t !in end.pending)
      && (forall i, t :: 0 <= i < |end.calls| && end.calls[i].FailureRollback? && t in end.issued ==>
            end.issued[t] != end.calls[i].cp)
  {
    InitialInv(s);
    RunKeepsInv(s, run);
  }

  /** A pending token's checkpoint is live exactly until its expiry; hence a token that
      takePending would report as expired belongs to a checkpoint that has already fired. */
  lemma ExpiredTokenHasFired(s: State, run: seq<Step>, token: string)
    requires Initial(s) && IsRun(s, run) && token in Exec(s, run).pending
    ensures var end := Exec(s, run);
      var change := end.pending[token];
      && change.checkpoint in end.origin
      && (change.checkpoint in end.nm.live <==> end.nm.now < end.origin[change.checkpoint].checkpoint.expiry)
      && (end.nm.now > change.deadline ==> change.checkpoint !in end.nm.live)
  {
    InitialInv(s);
    RunKeepsInv(s, run);
  }
}
