/** What no run changes, however handlers, failures, rollbacks and restarts interleave: of a
    profile everything outside ipv4, but for the keys that every rewriting drops. */
module ConfirmOrRevertScope {
  import opened NetworkConfig
  import opened NetworkManager
  import opened ConfirmOrRevert

  /** The profiles agree outside ipv4, once the dropped keys are left out of account. */
  ghost predicate Kin(a: Settings, b: Settings) {
    forall name :: name != "ipv4" ==> KinAt(a, b, name)
  }

  ghost predicate KinAt(a: Settings, b: Settings, name: string) {
    && (name in a <==> name in b)
    && (name in a ==> Stripped(name, a[name]) == Stripped(name, b[name]))
  }

  /** A device stores kin of what it stored at first, and runs kin of what it ran or stored. */
  ghost predicate Related(x: DeviceState, base: DeviceState) {
    Kin(x.profile, base.profile) && (Kin(x.active, base.active) || Kin(x.active, base.profile))
  }

  lemma StrippedTwice(name: string, section: Section)
    ensures Stripped(name, Stripped(name, section)) == Stripped(name, section)
  {
  }

  lemma RewrittenIsKin(a: Settings, b: Settings, ipv4: Section)
    requires Kin(a, b)
    ensures Kin(Rewritten(a, ipv4), b)
  {
    forall name | name != "ipv4" ensures KinAt(Rewritten(a, ipv4), b, name) {
      assert KinAt(a, b, name);
      if name in a {
        StrippedTwice(name, a[name]);
      }
    }
  }

  lemma KinRewriteAlikeAt(a: Settings, b: Settings, base: Settings, ipv4: Section, name: string)
    requires Kin(a, base) && Kin(b, base)
    ensures name in Rewritten(a, ipv4) <==> name in Rewritten(b, ipv4)
    ensures name in Rewritten(a, ipv4) ==> Rewritten(a, ipv4)[name] == Rewritten(b, ipv4)[name]
  {
    if name != "ipv4" {
      assert KinAt(a, base, name) && KinAt(b, base, name);
    }
  }

  /** Rewriting wipes out what kin profiles may differ in. */
  lemma KinRewriteAlike(a: Settings, b: Settings, base: Settings, ipv4: Section)
    requires Kin(a, base) && Kin(b, base)
    ensures Rewritten(a, ipv4) == Rewritten(b, ipv4)
  {
    var ra, rb := Rewritten(a, ipv4), Rewritten(b, ipv4);
    forall name ensures (name in ra <==> name in rb) && (name in ra ==> ra[name] == rb[name]) {
      KinRewriteAlikeAt(a, b, base, ipv4, name);
    }
    assert ra.Keys == rb.Keys;
  }

  ghost predicate DevicesRelated(devices: map<string, DeviceState>, base: map<string, DeviceState>) {
    devices.Keys == base.Keys && forall d :: d in devices ==> Related(devices[d], base[d])
  }

  ghost predicate SavedRelated(nm: Nm, base: map<string, DeviceState>) {
    forall cp :: cp in nm.live && nm.live[cp].device in base ==>
      Related(nm.live[cp].saved, base[nm.live[cp].device])
  }

  ghost predicate NmRelated(nm: Nm, base: map<string, DeviceState>) {
    DevicesRelated(nm.devices, base) && SavedRelated(nm, base)
  }

  ghost predicate ReadIsKin(p: Handler, base: map<string, DeviceState>) {
    p.Applying? && p.phase.ReadBack? && p.device in base ==> Kin(p.phase.settings, base[p.device].profile)
  }

  ghost predicate Scoped(s: State, base: map<string, DeviceState>) {
    && NmRelated(s.nm, base) && DevicesRelated(s.confirmed, base)
    && forall h :: h in s.handlers ==> ReadIsKin(s.handlers[h], base)
  }

  lemma AdvanceRelated(nm: Nm, dt: nat, base: map<string, DeviceState>)
    requires NmRelated(nm, base)
    ensures NmRelated(Advance(nm, dt), base)
  {
  }

  lemma CreateRelated(nm: Nm, d: string, base: map<string, DeviceState>)
    requires NmRelated(nm, base) && d in nm.devices
    ensures NmRelated(CreateCheckpoint(nm, d, WINDOW_SECONDS), base)
  {
  }

  lemma RollbackRelated(nm: Nm, cp: nat, base: map<string, DeviceState>)
    requires NmRelated(nm, base)
    ensures NmRelated(RollbackCheckpoint(nm, cp), base) && NmRelated(DestroyCheckpoint(nm, cp), base)
  {
  }

  lemma CallStaysScoped(s: State, h: nat, call: AppCall, outcome: Outcome, base: map<string, DeviceState>)
    requires Scoped(s, base)
    ensures Scoped(AfterCall(s, h, call, outcome), base)
  {
    RollbackRelated(s.nm, call.cp, base);
  }

  lemma WriteStaysScoped(s: State, step: Step, base: map<string, DeviceState>)
    requires Scoped(s, base) && Enabled(s, step) && (step.Update? || step.Activate?)
    ensures Scoped(Next(s, step), base)
  {
    var p := s.handlers[step.h];
    assert ReadIsKin(p, base) && Related(s.nm.devices[p.device], base[p.device]);
    if step.Update? {
      RewrittenIsKin(p.phase.settings, base[p.device].profile, p.request);
    }
  }

  lemma ReadStaysScoped(s: State, step: Step, base: map<string, DeviceState>)
    requires Scoped(s, base) && Enabled(s, step) && step.Read?
    ensures Scoped(Next(s, step), base)
  {
    assert Related(s.nm.devices[s.handlers[step.h].device], base[s.handlers[step.h].device]);
  }

  /** The remaining steps leave NetworkManager alone, and no handler comes to hold a profile. */
  lemma OtherStep(s: State, step: Step)
    requires Enabled(s, step) && (step.Begin? || step.Issue? || step.Take? || step.Restart?)
    ensures Next(s, step).nm == s.nm && Next(s, step).confirmed == s.confirmed
    ensures forall h :: h in Next(s, step).handlers && Next(s, step).handlers[h].Applying? ==>
      h in s.handlers && Next(s, step).handlers[h] == s.handlers[h]
  {
  }

  lemma CreateRelatedStep(s: State, h: nat, outcome: Outcome, base: map<string, DeviceState>)
    requires Scoped(s, base) && Enabled(s, Create(h, outcome))
    ensures Scoped(AfterCreate(s, h, outcome), base)
  {
    if !outcome.Refused? {
      CreateRelated(s.nm, s.handlers[h].device, base);
    }
  }

  lemma StepStaysScoped(s: State, step: Step, base: map<string, DeviceState>)
    requires Scoped(s, base) && Enabled(s, step)
    ensures Scoped(Next(s, step), base)
  {
    match step
    case Read(_, _) => ReadStaysScoped(s, step, base);
    case Update(_, _) => WriteStaysScoped(s, step, base);
    case Activate(_, _) => WriteStaysScoped(s, step, base);
    case Create(h, outcome) => CreateRelatedStep(s, h, outcome, base);
    case Tick(dt) => AdvanceRelated(s.nm, dt, base);
    case Undo(h, outcome) => CallStaysScoped(s, h, FailureRollback(s.handlers[h].cp), outcome, base);
    case Finish(h, outcome) =>
      var p := s.handlers[h];
      CallStaysScoped(s, h, if p.confirm then ConfirmDestroy(p.cp) else CancelRollback(p.cp), outcome, base);
    case _ => OtherStep(s, step);
  }

  lemma {:induction false} RunStaysScoped(s: State, run: seq<Step>, base: map<string, DeviceState>)
    requires Scoped(s, base) && IsRun(s, run)
    ensures Scoped(Exec(s, run), base)
    decreases |run|
  {
    if run != [] {
      StepStaysScoped(s, run[0], base);
      RunStaysScoped(Next(s, run[0]), run[1..], base);
    }
  }

  /** In every run, guarded or not, all devices stay, and what each stores, runs, has confirmed
      or would be rolled back to agrees with its beginnings outside ipv4. */
  lemma NothingElseChanges(s: State, run: seq<Step>)
    requires Initial(s) && IsRun(s, run)
    ensures var end := Exec(s, run);
      && DevicesRelated(end.nm.devices, s.nm.devices)
      && DevicesRelated(end.confirmed, s.nm.devices)
      && SavedRelated(end.nm, s.nm.devices)
  {
    assert Scoped(s, s.nm.devices);
    RunStaysScoped(s, run, s.nm.devices);
  }
}
