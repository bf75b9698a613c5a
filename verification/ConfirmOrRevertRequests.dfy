/** What a confirmation makes permanent: exactly the change its token was issued for, as long as
    no handler writes under the checkpoint of another once that one has made its own update. */
module ConfirmOrRevertRequests {
  import opened NetworkConfig
  import opened NetworkManager
  import opened ConfirmOrRevert
  import opened ConfirmOrRevertSafety
  import opened ConfirmOrRevertScope

  /** The saved state with its profile rewritten as requested, stored and in force. */
  function Requested(saved: DeviceState, request: Section): DeviceState {
    var profile := Rewritten(saved.profile, request);
    DeviceState(profile, profile)
  }

  /** How much of the request a device shows at each phase of its handler: nothing is said
      before its own update, which writes the whole profile. */
  predicate Shows(phase: Phase, saved: DeviceState, request: Section, device: DeviceState) {
    match phase
    case Created => true
    case ReadBack(_) => true
    case Updated => device.profile == Rewritten(saved.profile, request)
    case Activated => device == Requested(saved, request)
    case Failing => true
  }

  ghost predicate ShowsRequest(nm: Nm, origin: map<nat, Origin>, cp: nat) {
    cp in nm.live && cp in origin && nm.live[cp].device in nm.devices ==>
      nm.devices[nm.live[cp].device] == Requested(nm.live[cp].saved, origin[cp].request)
  }

  ghost predicate HandlerShows(nm: Nm, origin: map<nat, Origin>, p: Handler) {
    match p
    case Started(_, _) => true
    case Applying(phase, device, request, cp) =>
      cp in nm.live && device in nm.devices ==>
        Shows(phase, nm.live[cp].saved, request, nm.devices[device])
    case Settling(confirm, cp) => confirm ==> ShowsRequest(nm, origin, cp)
  }

  ghost predicate HandlersShow(s: State) {
    forall h :: h in s.handlers ==> HandlerShows(s.nm, s.origin, s.handlers[h])
  }

  ghost predicate TokensShow(s: State) {
    forall t :: t in s.pending ==> ShowsRequest(s.nm, s.origin, s.pending[t].checkpoint)
  }

  ghost predicate AllShow(s: State) {
    HandlersShow(s) && TokensShow(s)
  }

  /** If cp is live afterwards, it was live before and its device was left alone. */
  ghost predicate Undisturbed(nm: Nm, nm': Nm, cp: nat) {
    cp in nm'.live ==>
      && cp in nm.live && nm'.live[cp] == nm.live[cp]
      && nm.live[cp].device in nm.devices && nm.live[cp].device in nm'.devices
      && nm'.devices[nm.live[cp].device] == nm.devices[nm.live[cp].device]
  }

  lemma UndisturbedShows(s: State, nm': Nm, h: nat)
    requires Inv(s) && h in s.handlers && HandlerShows(s.nm, s.origin, s.handlers[h])
    requires !s.handlers[h].Started? ==> Undisturbed(s.nm, nm', s.handlers[h].cp)
    ensures HandlerShows(nm', s.origin, s.handlers[h])
  {
  }

  lemma UndisturbedTokensShow(s: State, nm': Nm)
    requires TokensShow(s)
    requires forall t :: t in s.pending ==> Undisturbed(s.nm, nm', s.pending[t].checkpoint)
    ensures forall t :: t in s.pending ==> ShowsRequest(nm', s.origin, s.pending[t].checkpoint)
  {
  }

  /** A change confined to the device of one checkpoint disturbs no other. */
  lemma OthersUndisturbed(nm: Nm, nm': Nm, cp: nat, other: nat)
    requires WellFormed(nm) && cp in nm.live && other != cp
    requires nm'.devices.Keys == nm.devices.Keys
    requires forall id :: id in nm'.live ==> id in nm.live && nm'.live[id] == nm.live[id]
    requires forall d :: d in nm.devices && d != nm.live[cp].device ==> nm'.devices[d] == nm.devices[d]
    ensures Undisturbed(nm, nm', other)
  {
  }

  lemma CreateShowsHandlers(s: State, h: nat, outcome: Outcome)
    requires Alive(s) && HandlersOwn(s) && HandlersShow(s) && Enabled(s, Create(h, outcome))
    ensures HandlersShow(AfterCreate(s, h, outcome))
  {
  }

  lemma CreateShowsTokens(s: State, h: nat, outcome: Outcome)
    requires Alive(s) && Agrees(s) && TokensShow(s) && Enabled(s, Create(h, outcome))
    ensures TokensShow(AfterCreate(s, h, outcome))
  {
  }

  lemma CreateShows(s: State, h: nat, outcome: Outcome)
    requires Inv(s) && AllShow(s) && Enabled(s, Create(h, outcome))
    ensures AllShow(AfterCreate(s, h, outcome))
  {
    CreateShowsHandlers(s, h, outcome);
    CreateShowsTokens(s, h, outcome);
  }

  /** What a handler read rewrites to the same as what its checkpoint saved. */
  lemma ReadIsAsSaved(s: State, h: nat, base: map<string, DeviceState>)
    requires NmRelated(s.nm, base) && HandlersAgree(s) && Alive(s)
    requires h in s.handlers && s.handlers[h].Applying? && s.handlers[h].phase.ReadBack?
    requires ReadIsKin(s.handlers[h], base) && s.handlers[h].cp in s.nm.live
    ensures Rewritten(s.handlers[h].phase.settings, s.handlers[h].request)
         == Rewritten(s.nm.live[s.handlers[h].cp].saved.profile, s.handlers[h].request)
  {
    var p := s.handlers[h];
    assert s.nm.live[p.cp].device == p.device && p.device in base;
    assert Related(s.nm.live[p.cp].saved, base[p.device]);
    KinRewriteAlike(p.phase.settings, s.nm.live[p.cp].saved.profile, base[p.device].profile, p.request);
  }

  lemma UpdaterShows(s: State, h: nat, outcome: Outcome, base: map<string, DeviceState>)
    requires HandlersAgree(s) && Alive(s) && Scoped(s, base) && Enabled(s, Update(h, outcome))
    ensures HandlerShows(Next(s, Update(h, outcome)).nm, s.origin, Next(s, Update(h, outcome)).handlers[h])
  {
    assert ReadIsKin(s.handlers[h], base);
    if s.handlers[h].cp in s.nm.live {
      ReadIsAsSaved(s, h, base);
    }
  }

  lemma ActivatorShows(s: State, h: nat, outcome: Outcome)
    requires HandlersShow(s) && Enabled(s, Activate(h, outcome))
    ensures HandlerShows(Next(s, Activate(h, outcome)).nm, s.origin, Next(s, Activate(h, outcome)).handlers[h])
  {
    assert HandlerShows(s.nm, s.origin, s.handlers[h]);
  }

  /** The own handler of a write moves on as Shows says. */
  lemma WriterShows(s: State, step: Step, base: map<string, DeviceState>)
    requires HandlersAgree(s) && Alive(s) && HandlersShow(s) && Scoped(s, base) && Enabled(s, step)
    requires step.Read? || step.Update? || step.Activate?
    ensures HandlerShows(Next(s, step).nm, s.origin, Next(s, step).handlers[step.h])
  {
    match step
    case Read(_, _) =>
    case Update(h, outcome) => UpdaterShows(s, h, outcome, base);
    case Activate(h, outcome) => ActivatorShows(s, h, outcome);
  }

  /** A handler that has stored its profile under cp and is about to bring it into force. */
  predicate CountsOnProfile(p: Handler, cp: nat) {
    p.Applying? && p.cp == cp && p.phase.Updated?
  }

  /** A handler whose change under cp is in force, or that is about to confirm it. */
  predicate CountsOnDevice(p: Handler, cp: nat) {
    || (p.Applying? && p.cp == cp && p.phase.Activated?)
    || (p.Settling? && p.cp == cp && p.confirm)
  }

  ghost predicate ProfileClaimed(s: State, cp: nat) {
    exists h :: h in s.handlers && CountsOnProfile(s.handlers[h], cp)
  }

  ghost predicate DeviceClaimed(s: State, cp: nat) {
    || (exists h :: h in s.handlers && CountsOnDevice(s.handlers[h], cp))
    || (exists t :: t in s.pending && s.pending[t].checkpoint == cp)
  }

  /** From x to y, something is lost that somebody counts on under cp. */
  ghost predicate Spoils(s: State, cp: nat, x: DeviceState, y: DeviceState) {
    (y.profile != x.profile && ProfileClaimed(s, cp)) || (y != x && DeviceClaimed(s, cp))
  }

  /** A write that changes a device under the live checkpoint of somebody else's change, from
      that change's own update on. */
  ghost predicate Foreign(s: State, step: Step)
    requires Enabled(s, step)
  {
    && IsWrite(step)
    && var d := s.handlers[step.h].device;
       exists cp ::
         && Covers(s.nm, cp, d) && cp != s.handlers[step.h].cp
         && Spoils(s, cp, s.nm.devices[d], Next(s, step).nm.devices[d])
  }

  /** A write under the own live checkpoint is never foreign: no other covers the device. */
  lemma OwnCoverIsOwn(s: State, step: Step)
    requires WellFormed(s.nm) && Enabled(s, step)
    requires IsWrite(step) ==> Covers(s.nm, s.handlers[step.h].cp, s.handlers[step.h].device)
    ensures !Foreign(s, step)
  {
  }

  lemma TimelyIsOwn(s: State, step: Step)
    requires Inv(s) && Enabled(s, step) && Timely(s, step)
    ensures !Foreign(s, step)
  {
    TimelyIsGuarded(s, step);
    OwnCoverIsOwn(s, step);
  }

  /** What a write leaves of a device on which somebody else has a live checkpoint. */
  lemma OwnWriteSpares(s: State, step: Step, cp: nat)
    requires WellFormed(s.nm) && Enabled(s, step) && (step.Read? || step.Update? || step.Activate?)
    requires !Foreign(s, step) && cp != s.handlers[step.h].cp && cp in s.nm.live
    ensures Next(s, step).nm.live == s.nm.live && Next(s, step).nm.devices.Keys == s.nm.devices.Keys
    ensures var d := s.nm.live[cp].device;
            !Spoils(s, cp, s.nm.devices[d], Next(s, step).nm.devices[d])
  {
    if IsWrite(step) && s.nm.live[cp].device == s.handlers[step.h].device {
      assert Covers(s.nm, cp, s.handlers[step.h].device);
    }
  }

  lemma SparedShows(nm: Nm, nm': Nm, origin: map<nat, Origin>, p: Handler)
    requires HandlerShows(nm, origin, p) && nm'.live == nm.live && nm'.devices.Keys == nm.devices.Keys
    requires !p.Started? && p.cp in nm.live && nm.live[p.cp].device in nm.devices
    requires p.Applying? ==> p.device == nm.live[p.cp].device
    requires CountsOnProfile(p, p.cp) ==>
      nm'.devices[nm.live[p.cp].device].profile == nm.devices[nm.live[p.cp].device].profile
    requires CountsOnDevice(p, p.cp) ==>
      nm'.devices[nm.live[p.cp].device] == nm.devices[nm.live[p.cp].device]
    ensures HandlerShows(nm', origin, p)
  {
  }

  lemma WriteKeepsLive(s: State, step: Step)
    requires Enabled(s, step) && (step.Read? || step.Update? || step.Activate?)
    ensures Next(s, step).nm.live == s.nm.live && Next(s, step).nm.devices.Keys == s.nm.devices.Keys
    ensures Next(s, step).origin == s.origin && Next(s, step).pending == s.pending
    ensures Next(s, step).handlers - {step.h} == s.handlers - {step.h}
  {
  }

  lemma WriteShowsHandler(s: State, step: Step, k: nat)
    requires Inv(s) && HandlersShow(s) && Enabled(s, step) && (step.Read? || step.Update? || step.Activate?)
    requires !Foreign(s, step) && k in s.handlers && k != step.h
    ensures HandlerShows(Next(s, step).nm, s.origin, s.handlers[k])
  {
    assert HandlerShows(s.nm, s.origin, s.handlers[k]);
    WriteKeepsLive(s, step);
    if !s.handlers[k].Started? && s.handlers[k].cp in s.nm.live {
      OwnWriteSpares(s, step, s.handlers[k].cp);
      SparedShows(s.nm, Next(s, step).nm, s.origin, s.handlers[k]);
    }
  }

  lemma WriteShowsToken(s: State, step: Step, t: string)
    requires Inv(s) && TokensShow(s) && Enabled(s, step) && (step.Read? || step.Update? || step.Activate?)
    requires !Foreign(s, step) && t in s.pending
    ensures ShowsRequest(Next(s, step).nm, s.origin, s.pending[t].checkpoint)
  {
    WriteKeepsLive(s, step);
    if s.pending[t].checkpoint in s.nm.live {
      OwnWriteSpares(s, step, s.pending[t].checkpoint);
    }
  }

  lemma WriteShows(s: State, step: Step, base: map<string, DeviceState>)
    requires Inv(s) && AllShow(s) && Scoped(s, base)
    requires Enabled(s, step) && (step.Read? || step.Update? || step.Activate?) && !Foreign(s, step)
    ensures AllShow(Next(s, step))
  {
    var s' := Next(s, step);
    WriteKeepsLive(s, step);
    forall h | h in s'.handlers ensures HandlerShows(s'.nm, s'.origin, s'.handlers[h]) {
      if h == step.h {
        WriterShows(s, step, base);
      } else {
        assert h in s'.handlers - {step.h};
        WriteShowsHandler(s, step, h);
      }
    }
    forall t | t in s.pending ensures ShowsRequest(s'.nm, s.origin, s.pending[t].checkpoint) {
      WriteShowsToken(s, step, t);
    }
  }

  /** What somebody counts on says exactly how the profile, or the device, looks. */
  lemma SpoiltHandler(nm: Nm, nm': Nm, origin: map<nat, Origin>, p: Handler, cp: nat)
    requires HandlerShows(nm, origin, p) && nm'.live == nm.live && nm'.devices.Keys == nm.devices.Keys
    requires cp in nm.live && cp in origin && nm.live[cp].device in nm.devices
    requires p.Applying? ==> p.device == nm.live[cp].device
    requires var x, y := nm.devices[nm.live[cp].device], nm'.devices[nm.live[cp].device];
             (CountsOnProfile(p, cp) && y.profile != x.profile) || (CountsOnDevice(p, cp) && y != x)
    ensures !HandlerShows(nm', origin, p)
  {
  }

  lemma SpoiltBy(s: State, step: Step, cp: nat, k: nat)
    requires Alive(s) && HandlersAgree(s) && HandlersShow(s) && Enabled(s, step) && IsWrite(step)
    requires Covers(s.nm, cp, s.handlers[step.h].device) && k in s.handlers && k != step.h
    requires var d := s.handlers[step.h].device;
             var x, y := s.nm.devices[d], Next(s, step).nm.devices[d];
             || (CountsOnProfile(s.handlers[k], cp) && y.profile != x.profile)
             || (CountsOnDevice(s.handlers[k], cp) && y != x)
    ensures !HandlersShow(Next(s, step))
  {
    WriteKeepsLive(s, step);
    assert k in Next(s, step).handlers - {step.h};
    SpoiltHandler(s.nm, Next(s, step).nm, s.origin, s.handlers[k], cp);
  }

  /** A foreign write leaves somebody's device other than the phase of the change says. */
  lemma ForeignBreaks(s: State, step: Step)
    requires Alive(s) && HandlersAgree(s) && AllShow(s) && Enabled(s, step) && Foreign(s, step)
    ensures !AllShow(Next(s, step))
  {
    var d := s.handlers[step.h].device;
    var x, y := s.nm.devices[d], Next(s, step).nm.devices[d];
    var cp :| Covers(s.nm, cp, d) && cp != s.handlers[step.h].cp && Spoils(s, cp, x, y);
    WriteKeepsLive(s, step);
    if y != x && exists t :: t in s.pending && s.pending[t].checkpoint == cp {
      var t :| t in s.pending && s.pending[t].checkpoint == cp;
      assert ShowsRequest(s.nm, s.origin, cp) && !ShowsRequest(Next(s, step).nm, s.origin, cp);
    } else if y != x && exists k :: k in s.handlers && CountsOnDevice(s.handlers[k], cp) {
      var k :| k in s.handlers && CountsOnDevice(s.handlers[k], cp);
      SpoiltBy(s, step, cp, k);
    } else {
      var k :| k in s.handlers && CountsOnProfile(s.handlers[k], cp);
      SpoiltBy(s, step, cp, k);
    }
  }

  lemma IssueShows(s: State, h: nat, token: string, user: string)
    requires Inv(s) && AllShow(s) && Enabled(s, Issue(h, token, user))
    ensures AllShow(AfterIssue(s, h, token, user))
  {
    assert HandlerShows(s.nm, s.origin, s.handlers[h]);
  }

  lemma TakeShows(s: State, h: nat, token: string, confirm: bool)
    requires AllShow(s) && Enabled(s, Take(h, token, confirm))
    ensures AllShow(AfterTake(s, h, token, confirm))
  {
    if token in s.pending {
      SettlingShows(s, h, s.pending[token].checkpoint, confirm);
    }
    FewerTokensShow(s, s.pending - {token});
  }

  lemma SettlingShows(s: State, h: nat, cp: nat, confirm: bool)
    requires HandlersShow(s) && ShowsRequest(s.nm, s.origin, cp)
    ensures HandlersShow(s.(handlers := s.handlers[h := Settling(confirm, cp)]))
  {
  }

  lemma FewerTokensShow(s: State, pending: map<string, PendingChange>)
    requires TokensShow(s) && forall t :: t in pending ==> t in s.pending && pending[t] == s.pending[t]
    ensures TokensShow(s.(pending := pending))
  {
  }

  lemma CallDisturbsOnlyItself(s: State, h: nat, call: AppCall, outcome: Outcome, cp: nat)
    requires Inv(s) && MayCall(s, h, call) && cp != call.cp
    ensures Undisturbed(s.nm, AfterCall(s, h, call, outcome).nm, cp)
  {
    if call.cp in s.nm.live {
      OthersUndisturbed(s.nm, AfterCall(s, h, call, outcome).nm, call.cp, cp);
    }
  }

  lemma CallShows(s: State, h: nat, call: AppCall, outcome: Outcome)
    requires Inv(s) && AllShow(s) && MayCall(s, h, call)
    ensures AllShow(AfterCall(s, h, call, outcome))
  {
    var s' := AfterCall(s, h, call, outcome);
    forall k | k in s'.handlers ensures HandlerShows(s'.nm, s'.origin, s'.handlers[k]) {
      if !s.handlers[k].Started? {
        CallDisturbsOnlyItself(s, h, call, outcome, s.handlers[k].cp);
      }
      UndisturbedShows(s, s'.nm, k);
    }
    forall t | t in s.pending ensures Undisturbed(s.nm, s'.nm, s.pending[t].checkpoint) {
      CallDisturbsOnlyItself(s, h, call, outcome, s.pending[t].checkpoint);
    }
    UndisturbedTokensShow(s, s'.nm);
  }

  lemma TickShows(s: State, dt: nat)
    requires Inv(s) && AllShow(s)
    ensures AllShow(s.(nm := Advance(s.nm, dt)))
  {
    var nm' := Advance(s.nm, dt);
    forall cp | cp in nm'.live ensures Undisturbed(s.nm, nm', cp) {
      AdvanceSparesCovered(s.nm, dt, cp);
    }
    forall h | h in s.handlers ensures HandlerShows(nm', s.origin, s.handlers[h]) {
      UndisturbedShows(s, nm', h);
    }
    UndisturbedTokensShow(s, nm');
  }

  lemma CallStepShows(s: State, step: Step)
    requires Inv(s) && AllShow(s) && Enabled(s, step) && (step.Undo? || step.Finish?)
    ensures AllShow(Next(s, step))
  {
    var p := s.handlers[step.h];
    var call := if step.Undo? then FailureRollback(p.cp)
                else if p.confirm then ConfirmDestroy(p.cp) else CancelRollback(p.cp);
    CallShows(s, step.h, call, step.outcome);
  }

  lemma QuietStepShows(s: State, step: Step)
    requires AllShow(s) && Enabled(s, step) && (step.Begin? || step.Restart?)
    ensures AllShow(Next(s, step))
  {
  }

  lemma OtherStepShows(s: State, step: Step)
    requires Inv(s) && AllShow(s) && Enabled(s, step) && !(step.Read? || step.Update? || step.Activate?)
    ensures AllShow(Next(s, step))
  {
    match step
    case Create(h, outcome) => CreateShows(s, h, outcome);
    case Issue(h, token, user) => IssueShows(s, h, token, user);
    case Take(h, token, confirm) => TakeShows(s, h, token, confirm);
    case Tick(dt) => TickShows(s, dt);
    case Undo(_, _) => CallStepShows(s, step);
    case Finish(_, _) => CallStepShows(s, step);
    case _ => QuietStepShows(s, step);
  }

  lemma OwnStepShows(s: State, step: Step, base: map<string, DeviceState>)
    requires Inv(s) && AllShow(s) && Scoped(s, base) && Enabled(s, step) && !Foreign(s, step)
    ensures AllShow(Next(s, step))
  {
    if step.Read? || step.Update? || step.Activate? {
      WriteShows(s, step, base);
    } else {
      OtherStepShows(s, step);
    }
  }

  /** Every step but a foreign write leaves each device showing what the phase of its change
      says; a foreign write never does. */
  lemma StepShowsIffOwn(s: State, step: Step, base: map<string, DeviceState>)
    requires Inv(s) && AllShow(s) && Scoped(s, base) && Enabled(s, step)
    ensures AllShow(Next(s, step)) <==> !Foreign(s, step)
  {
    if Foreign(s, step) {
      ForeignBreaks(s, step);
    } else {
      OwnStepShows(s, step, base);
    }
  }

  ghost predicate AllShown(s: State, run: seq<Step>)
    requires IsRun(s, run)
    decreases |run|
  {
    AllShow(s) && (run != [] ==> AllShown(Next(s, run[0]), run[1..]))
  }

  /** No write of the run is foreign. */
  ghost predicate AllOwn(s: State, run: seq<Step>)
    requires IsRun(s, run)
    decreases |run|
  {
    run != [] ==> !Foreign(s, run[0]) && AllOwn(Next(s, run[0]), run[1..])
  }

  lemma {:induction false} ShownFrom(s: State, run: seq<Step>, base: map<string, DeviceState>)
    requires Inv(s) && AllShow(s) && Scoped(s, base) && IsRun(s, run)
    ensures AllShown(s, run) <==> AllOwn(s, run)
    decreases |run|
  {
    if run != [] {
      StepKeepsInv(s, run[0]);
      StepShowsIffOwn(s, run[0], base);
      StepStaysScoped(s, run[0], base);
      if !Foreign(s, run[0]) {
        ShownFrom(Next(s, run[0]), run[1..], base);
      }
    }
  }

  /** From its own update on, every change shows as requested, in every state of a run, exactly
      when no write of the run is foreign. */
  lemma RunShowsIffOwn(s: State, run: seq<Step>)
    requires Initial(s) && IsRun(s, run)
    ensures AllShown(s, run) <==> AllOwn(s, run)
  {
    InitialInv(s);
    ShownFrom(s, run, s.nm.devices);
  }

  lemma {:induction false} ShownAtEnd(s: State, run: seq<Step>)
    requires IsRun(s, run) && AllShown(s, run)
    ensures AllShow(Exec(s, run))
    decreases |run|
  {
    if run != [] {
      ShownAtEnd(Next(s, run[0]), run[1..]);
    }
  }

  /** Writes that come before their own checkpoints' expiries meet both conditions. */
  lemma {:induction false} TimelyRunIsOwn(s: State, run: seq<Step>)
    requires Inv(s) && IsRun(s, run) && AllTimely(s, run)
    ensures AllOwn(s, run) && AllGuarded(s, run)
    decreases |run|
  {
    TimelyGuardsAll(s, run);
    if run != [] {
      TimelyIsOwn(s, run[0]);
      StepKeepsInv(s, run[0]);
      TimelyRunIsOwn(Next(s, run[0]), run[1..]);
    }
  }

  // ---- the three ways a pending change ends ----

  /** Confirmed while its checkpoint lives: the device is uncovered, and its new confirmed
      state is the old one with exactly the requested section rewritten, stored and in force.
      No other device's confirmed state moves. */
  lemma ConfirmKeepsRequest(s0: State, run: seq<Step>, h: nat, outcome: Outcome)
    requires Initial(s0) && IsRun(s0, run) && AllGuarded(s0, run) && AllOwn(s0, run)
    requires Enabled(Exec(s0, run), Finish(h, outcome)) && !outcome.Refused?
    requires Exec(s0, run).handlers[h].confirm && Exec(s0, run).handlers[h].cp in Exec(s0, run).nm.live
    ensures var s := Exec(s0, run);
            var s' := Next(s, Finish(h, outcome));
            var cp := s.handlers[h].cp;
            var d := s.nm.live[cp].device;
            && cp in s.origin && d in s.confirmed && d in s.nm.devices
            && s'.confirmed == s.confirmed[d := Requested(s.confirmed[d], s.origin[cp].request)]
            && s'.nm.devices == s.nm.devices && s'.nm.devices[d] == s'.confirmed[d]
            && !Covered(s'.nm, d)
  {
    GuardedRunEndsSafe(s0, run);
    RunShowsIffOwn(s0, run);
    ShownAtEnd(s0, run);
    ConfirmFrom(Exec(s0, run), h, outcome);
  }

  lemma ConfirmFrom(s: State, h: nat, outcome: Outcome)
    requires Alive(s) && Safe(s) && HandlersShow(s) && Enabled(s, Finish(h, outcome)) && !outcome.Refused?
    requires s.handlers[h].confirm && s.handlers[h].cp in s.nm.live
    ensures var s' := Next(s, Finish(h, outcome));
            var cp := s.handlers[h].cp;
            var d := s.nm.live[cp].device;
            && cp in s.origin && d in s.confirmed && d in s.nm.devices
            && s'.confirmed == s.confirmed[d := Requested(s.confirmed[d], s.origin[cp].request)]
            && s'.nm.devices == s.nm.devices && s'.nm.devices[d] == s'.confirmed[d]
            && !Covered(s'.nm, d)
  {
    assert HandlerShows(s.nm, s.origin, s.handlers[h]);
    UncoveredAfter(s.nm, s.handlers[h].cp);
  }

  lemma UncoveredAfter(nm: Nm, cp: nat)
    requires WellFormed(nm) && cp in nm.live
    ensures !Covered(DestroyCheckpoint(nm, cp), nm.live[cp].device)
    ensures !Covered(RollbackCheckpoint(nm, cp), nm.live[cp].device)
  {
  }

  /** Cancelled while its checkpoint lives: the device is uncovered and back to its last
      confirmed state; nothing else changes. */
  lemma CancelRestoresConfirmed(s0: State, run: seq<Step>, h: nat, outcome: Outcome)
    requires Initial(s0) && IsRun(s0, run) && AllGuarded(s0, run)
    requires Enabled(Exec(s0, run), Finish(h, outcome)) && !outcome.Refused?
    requires !Exec(s0, run).handlers[h].confirm && Exec(s0, run).handlers[h].cp in Exec(s0, run).nm.live
    ensures var s := Exec(s0, run);
            var s' := Next(s, Finish(h, outcome));
            var d := s.nm.live[s.handlers[h].cp].device;
            && d in s.confirmed
            && s'.confirmed == s.confirmed
            && s'.nm.devices == s.nm.devices[d := s.confirmed[d]]
            && !Covered(s'.nm, d)
  {
    GuardedRunEndsSafe(s0, run);
    CancelFrom(Exec(s0, run), h, outcome);
  }

  lemma CancelFrom(s: State, h: nat, outcome: Outcome)
    requires WellFormed(s.nm) && Safe(s) && Enabled(s, Finish(h, outcome)) && !outcome.Refused?
    requires !s.handlers[h].confirm && s.handlers[h].cp in s.nm.live
    ensures var s' := Next(s, Finish(h, outcome));
            var d := s.nm.live[s.handlers[h].cp].device;
            && d in s.confirmed
            && s'.confirmed == s.confirmed
            && s'.nm.devices == s.nm.devices[d := s.confirmed[d]]
            && !Covered(s'.nm, d)
  {
    UncoveredAfter(s.nm, s.handlers[h].cp);
  }

  /** Settled after its checkpoint is gone: the call fails and changes neither a device nor a
      confirmed state, in any run. */
  lemma LateSettlingChangesNothing(s0: State, run: seq<Step>, h: nat, outcome: Outcome)
    requires Initial(s0) && IsRun(s0, run) && Enabled(Exec(s0, run), Finish(h, outcome))
    ensures var s := Exec(s0, run);
            var s' := Next(s, Finish(h, outcome));
            var cp := s.handlers[h].cp;
            && cp in s.origin
            && (cp in s.nm.live <==> s.nm.now < s.origin[cp].checkpoint.expiry)
            && (cp !in s.nm.live ==> s'.nm == s.nm && s'.confirmed == s.confirmed)
  {
    InitialInv(s0);
    RunKeepsInv(s0, run);
  }
}
