/** The confirm-or-revert handlers as the gateway runs them: a `pending` map behind its mutex
    and D-Bus calls to NetworkManager, with the rest of the system free to act between any two
    of them. Every handler is proved to be a run of the protocol. */
module Gateway {
  import opened Options
  import opened Sequences
  import opened NetworkConfig
  import opened NetworkManager
  import Protocol = ConfirmOrRevert
  import opened ConfirmOrRevert
  import opened ConfirmOrRevertSafety
  import opened ConfirmOrRevertWindow

  /** The handler a step belongs to. */
  function Actor(step: Step): Option<nat> {
    if step.Tick? || step.Restart? then None else Some(step.h)
  }

  /** Steps of anyone but h, while the gateway stays up. */
  ghost predicate Others(run: seq<Step>, h: nat) {
    forall i :: 0 <= i < |run| ==> Actor(run[i]) != Some(h) && !run[i].Restart?
  }

  /** What the others cannot do to h: move its handler, or make a device come or go. */
  ghost predicate Steady(s: State, s': State, h: nat) {
    && s'.nm.devices.Keys == s.nm.devices.Keys
    && (h in s'.handlers <==> h in s.handlers)
    && (h in s.handlers ==> s'.handlers[h] == s.handlers[h])
  }

  lemma CallKeepsDevices(s: State, h: nat, call: AppCall, outcome: Outcome)
    ensures AfterCall(s, h, call, outcome).nm.devices.Keys == s.nm.devices.Keys
  {
  }

  lemma WriteKeepsDevices(s: State, step: Step)
    requires Enabled(s, step) && (step.Update? || step.Activate? || step.Create?)
    ensures Next(s, step).nm.devices.Keys == s.nm.devices.Keys
  {
  }

  lemma StepKeepsDevices(s: State, step: Step)
    requires Enabled(s, step)
    ensures Next(s, step).nm.devices.Keys == s.nm.devices.Keys
  {
    match step
    case Update(_, _) => WriteKeepsDevices(s, step);
    case Activate(_, _) => WriteKeepsDevices(s, step);
    case Create(_, _) => WriteKeepsDevices(s, step);
    case Undo(h, outcome) => CallKeepsDevices(s, h, FailureRollback(s.handlers[h].cp), outcome);
    case Finish(h, outcome) =>
      var p := s.handlers[h];
      CallKeepsDevices(s, h, if p.confirm then ConfirmDestroy(p.cp) else CancelRollback(p.cp), outcome);
    case _ =>
  }

  /** A step moves, adds or removes the handler of its actor only. */
  lemma StepKeepsOtherHandlers(s: State, step: Step, h: nat)
    requires Enabled(s, step) && Actor(step) != Some(h) && !step.Restart?
    ensures h in Next(s, step).handlers <==> h in s.handlers
    ensures h in s.handlers ==> Next(s, step).handlers[h] == s.handlers[h]
  {
    var s' := Next(s, step);
    if step.Tick? {
      assert s'.handlers == s.handlers;
    } else {
      assert s'.handlers - {step.h} == s.handlers - {step.h} by {
        OnlyActorMoves(s, step);
      }
      assert h in s.handlers <==> h in s.handlers - {step.h};
      assert h in s'.handlers <==> h in s'.handlers - {step.h};
    }
  }

  lemma OnlyActorMoves(s: State, step: Step)
    requires Enabled(s, step) && Actor(step).Some?
    ensures Next(s, step).handlers - {step.h} == s.handlers - {step.h}
  {
  }

  lemma {:induction false} RunIsSteady(s: State, run: seq<Step>, h: nat)
    requires IsRun(s, run) && Others(run, h)
    ensures Steady(s, Exec(s, run), h)
    decreases |run|
  {
    if run != [] {
      StepKeepsDevices(s, run[0]);
      StepKeepsOtherHandlers(s, run[0], h);
      RunIsSteady(Next(s, run[0]), run[1..], h);
    }
  }

  ghost function IsOf(h: nat): Step -> bool {
    (step: Step) => Actor(step) == Some(h)
  }

  /** The steps of h in a run, in order. */
  ghost function StepsOf(run: seq<Step>, h: nat): seq<Step> {
    Filter(run, IsOf(h))
  }

  /** A step of h among steps of the others. */
  lemma StepsOfAfter(run: seq<Step>, step: Step, others: seq<Step>, h: nat)
    requires Actor(step) == Some(h) && Others(others, h)
    ensures StepsOf(run + [step] + others, h) == StepsOf(run, h) + [step]
  {
    FilterDropsRest(run + [step], others, IsOf(h));
    FilterKeepsLast(run, step, IsOf(h));
  }

  /** What updateIPv4 sends. */
  function UpdateSteps(h: nat, read: bool, update: Outcome): seq<Step> {
    [Read(h, read)] + if read then [Update(h, update)] else []
  }

  function ActivateSteps(h: nat, activate: Outcome, undo: Outcome): seq<Step> {
    [Activate(h, activate)] + if activate.Delivered? then [] else [Undo(h, undo)]
  }

  /** What ApplyIPv4 sends behind updateIPv4. */
  function FinishSteps(h: nat, updated: bool, activate: Outcome, undo: Outcome): seq<Step> {
    if updated then ActivateSteps(h, activate, undo) else [Undo(h, undo)]
  }

  /** What ApplyIPv4 sends behind a checkpoint, its one rollback call included. */
  function UnderSteps(h: nat, read: bool, update: Outcome, activate: Outcome, undo: Outcome): seq<Step> {
    UpdateSteps(h, read, update) + FinishSteps(h, read && update.Delivered?, activate, undo)
  }

  /** All that ApplyIPv4 does for a request that passed its checks. */
  function ApplySteps(h: nat, device: string, request: Section, created: Outcome, read: bool, update: Outcome,
                      activate: Outcome, undo: Outcome): seq<Step>
  {
    [Begin(h, device, request)] + [Create(h, created)]
    + if created.Delivered? then UnderSteps(h, read, update, activate, undo) else []
  }

  /** Whether a pending token is in time is decided by its checkpoint's expiry alone. */
  lemma TokenInTime(start: State, asked: seq<Step>, h: nat, token: string)
    requires Protocol.Inv(start) && token in start.pending && IsRun(start, asked)
    requires start.nm.now <= start.pending[token].deadline ==>
      && h in Exec(start, asked).handlers && Exec(start, asked).handlers[h].Settling?
      && Exec(start, asked).handlers[h].cp == start.pending[token].checkpoint
    ensures var cp := start.pending[token].checkpoint;
            && cp in start.origin
            && (start.nm.now > start.pending[token].deadline ==>
                  Exec(start, asked).nm.now >= start.origin[cp].checkpoint.expiry)
            && (start.nm.now <= start.pending[token].deadline ==>
                  (cp in Exec(start, asked).nm.live <==>
                     Exec(start, asked).nm.now < start.origin[cp].checkpoint.expiry))
  {
    RunMovesClock(start, asked);
    if start.nm.now <= start.pending[token].deadline {
      TakenIsLive(start, asked, h);
    }
  }

  datatype SettleReply = Settled | UnknownToken | CallFailed

  class Server {
    var pending: map<string, PendingChange>
    var nm: Nm
    ghost var book: State

    ghost function Abs(): State
      reads this
    {
      book.(nm := nm, pending := pending)
    }

    ghost predicate InPhaseOf(h: nat, phase: Phase, device: string, request: Section, cp: nat)
      reads this
    {
      h in book.handlers && book.handlers[h] == Applying(phase, device, request, cp)
    }

    constructor (nm: Nm, ghost book: State)
      requires Initial(book.(nm := nm, pending := map[]))
      ensures Initial(Abs()) && this.nm == nm
    {
      this.pending := map[];
      this.nm := nm;
      this.book := book;
    }

    /** Between two calls of a handler any number of steps of the others may happen. */
    method Interleave(ghost h: nat) returns (ghost run: seq<Step>)
      modifies this
      ensures Others(run, h)
      ensures IsRun(old(Abs()), run) && Abs() == Exec(old(Abs()), run)
    {
      run := [];
    }

    // ---- D-Bus calls; `outcome` is how the bus and NetworkManager take them ----

    method CheckpointCreate(ghost h: nat, device: string, outcome: Outcome)
      returns (cp: Option<nat>, ghost step: Step)
      requires h in book.handlers && device in nm.devices
      requires book.handlers[h].Started? && book.handlers[h].device == device
      modifies this
      ensures Enabled(old(Abs()), step) && Abs() == Next(old(Abs()), step)
      ensures step == Create(h, if Covered(old(nm), device) then Refused else outcome)
      ensures nm.devices == old(nm.devices)
      ensures cp.Some? <==> outcome.Delivered? && !Covered(old(nm), device)
      ensures cp.None? ==> h !in Abs().handlers
      ensures cp.Some? ==> InPhaseOf(h, Created, device, old(book.handlers[h].request), cp.value)
    {
      ghost var before := Abs();
      var covered := exists id | id in nm.live :: nm.live[id].device == device;
      assert covered <==> Covered(nm, device) by {
        if Covered(nm, device) {
          var id :| Covers(nm, id, device);
        }
        if covered {
          var id :| id in nm.live && nm.live[id].device == device;
          assert Covers(nm, id, device);
        }
      }
      var reached := !outcome.Refused? && !covered;
      step := Create(h, if reached then outcome else Refused);
      cp := None;
      if reached {
        cp := if outcome.Delivered? then Some(nm.next) else None;
        nm := CreateCheckpoint(nm, device, WINDOW_SECONDS);
      }
      book := Next(before, step);
    }

    method GetSettings(ghost h: nat, device: string, ok: bool)
      returns (settings: Option<Settings>, ghost step: Step)
      requires Protocol.InPhase(Abs(), h)
      requires book.handlers[h].phase.Created? && book.handlers[h].device == device
      modifies this`book
      ensures Enabled(old(Abs()), step) && Abs() == Next(old(Abs()), step)
      ensures step == Read(h, ok) && settings.Some? == ok
      ensures ok ==> settings == Some(nm.devices[device].profile)
    {
      ghost var before := Abs();
      step := Read(h, ok);
      settings := if ok then Some(nm.devices[device].profile) else None;
      book := Next(before, step);
    }

    method SendUpdate(ghost h: nat, device: string, settings: Settings, outcome: Outcome)
      returns (ok: bool, ghost step: Step)
      requires Protocol.InPhase(Abs(), h) && book.handlers[h].phase.ReadBack?
      requires book.handlers[h].device == device
      requires settings == Rewritten(book.handlers[h].phase.settings, book.handlers[h].request)
      modifies this
      ensures Enabled(old(Abs()), step) && Abs() == Next(old(Abs()), step)
      ensures step == Update(h, outcome) && ok == outcome.Delivered?
      ensures nm.devices.Keys == old(nm.devices.Keys)
    {
      ghost var before := Abs();
      step := Update(h, outcome);
      if !outcome.Refused? {
        nm := UpdateProfile(nm, device, settings);
      }
      ok := outcome.Delivered?;
      book := Next(before, step);
    }

    method ActivateConnection(ghost h: nat, device: string, outcome: Outcome)
      returns (ok: bool, ghost step: Step)
      requires Protocol.InPhase(Abs(), h) && book.handlers[h].phase.Updated?
      requires book.handlers[h].device == device
      modifies this
      ensures Enabled(old(Abs()), step) && Abs() == Next(old(Abs()), step)
      ensures step == Activate(h, outcome) && ok == outcome.Delivered?
      ensures nm.devices.Keys == old(nm.devices.Keys)
    {
      ghost var before := Abs();
      step := Activate(h, outcome);
      if !outcome.Refused? {
        nm := ActivateProfile(nm, device);
      }
      ok := outcome.Delivered?;
      book := Next(before, step);
    }

    /** The one destroy or rollback call of a handler that holds cp. */
    method Settle(ghost h: nat, cp: nat, destroy: bool, outcome: Outcome) returns (ok: bool, ghost step: Step)
      requires h in book.handlers && !book.handlers[h].Started? && book.handlers[h].cp == cp
      requires book.handlers[h].Applying? ==> Protocol.InPhase(Abs(), h) && book.handlers[h].phase.Failing?
      requires destroy == (book.handlers[h].Settling? && book.handlers[h].confirm)
      modifies this
      ensures Enabled(old(Abs()), step) && Abs() == Next(old(Abs()), step)
      ensures step == if old(book.handlers[h].Applying?) then Undo(h, outcome) else Finish(h, outcome)
      ensures h !in Abs().handlers
      ensures ok <==> outcome.Delivered? && cp in old(nm.live)
      ensures !outcome.Refused? && cp in old(nm.live) ==>
        nm == if destroy then DestroyCheckpoint(old(nm), cp) else RollbackCheckpoint(old(nm), cp)
      ensures outcome.Refused? || cp !in old(nm.live) ==> nm == old(nm)
    {
      ghost var before := Abs();
      step := if book.handlers[h].Applying? then Undo(h, outcome) else Finish(h, outcome);
      ok := outcome.Delivered? && cp in nm.live;
      if !outcome.Refused? && cp in nm.live {
        nm := if destroy then DestroyCheckpoint(nm, cp) else RollbackCheckpoint(nm, cp);
      }
      book := Next(before, step);
    }

    /** Appends a step of handler h to the run so far and lets the others act. */
    method After(ghost h: nat, ghost start: State, ghost run: seq<Step>, ghost step: Step)
      returns (ghost longer: seq<Step>)
      requires IsRun(start, run)
      requires Enabled(Exec(start, run), step) && Abs() == Next(Exec(start, run), step)
      requires Actor(step) == Some(h)
      modifies this
      ensures IsRun(start, longer) && Abs() == Exec(start, longer)
      ensures Steady(old(Abs()), Abs(), h)
      ensures run + [step] <= longer && StepsOf(longer, h) == StepsOf(run, h) + [step]
    {
      RunSnoc(start, run, step);
      ghost var others := Interleave(h);
      RunIsSteady(Next(Exec(start, run), step), others, h);
      RunAppend(start, run + [step], others);
      StepsOfAfter(run, step, others, h);
      longer := run + [step] + others;
    }

    // ---- the calls of an apply as parts of its run: each call, then the others ----

    method BeginInRun(ghost h: nat, device: string, ghost request: Section, ghost start: State)
      returns (ghost run: seq<Step>)
      requires Abs() == start && h !in book.handlers && device in nm.devices
      modifies this
      ensures IsRun(start, run) && Abs() == Exec(start, run)
      ensures StepsOf(run, h) == [Begin(h, device, request)]
      ensures device in nm.devices && h in book.handlers && book.handlers[h] == Started(device, request)
      ensures run != []
    {
      book := Next(start, Begin(h, device, request));
      run := After(h, start, [], Begin(h, device, request));
    }

    method CreateInRun(ghost h: nat, device: string, ghost request: Section, outcome: Outcome,
                       ghost start: State, ghost before: seq<Step>)
      returns (cp: Option<nat>, ghost created: Outcome, ghost run: seq<Step>)
      requires IsRun(start, before) && Abs() == Exec(start, before) && device in nm.devices
      requires h in book.handlers && book.handlers[h] == Started(device, request)
      modifies this
      ensures IsRun(start, run) && Abs() == Exec(start, run)
      ensures StepsOf(run, h) == StepsOf(before, h) + [Create(h, created)]
      ensures created == if Covered(old(nm), device) then Refused else outcome
      ensures before + [Create(h, created)] <= run
      ensures device in nm.devices && (cp.Some? <==> created.Delivered?)
      ensures cp.None? ==> h !in book.handlers
      ensures cp.Some? ==> InPhaseOf(h, Created, device, request, cp.value)
    {
      ghost var step: Step;
      cp, step := CheckpointCreate(h, device, outcome);
      created := step.outcome;
      run := After(h, start, before, step);
    }

    /** `asked` is the run up to the call. */
    method OpenInRun(ghost h: nat, device: string, ghost request: Section, outcome: Outcome, ghost start: State)
      returns (cp: Option<nat>, ghost created: Outcome, ghost asked: seq<Step>, ghost run: seq<Step>)
      requires Abs() == start && h !in book.handlers && device in nm.devices
      modifies this
      ensures IsRun(start, run) && Abs() == Exec(start, run) && run != []
      ensures StepsOf(run, h) == [Begin(h, device, request)] + [Create(h, created)]
      ensures IsRun(start, asked) && asked + [Create(h, created)] <= run
      ensures created == if Covered(Exec(start, asked).nm, device) then Refused else outcome
      ensures device in nm.devices && (cp.Some? <==> created.Delivered?)
      ensures cp.None? ==> h !in book.handlers
      ensures cp.Some? ==> InPhaseOf(h, Created, device, request, cp.value)
    {
      asked := BeginInRun(h, device, request, start);
      cp, created, run := CreateInRun(h, device, request, outcome, start, asked);
    }

    method ReadInRun(ghost h: nat, device: string, ghost request: Section, ghost cp: nat, ok: bool,
                     ghost start: State, ghost before: seq<Step>)
      returns (settings: Option<Settings>, ghost run: seq<Step>)
      requires IsRun(start, before) && Abs() == Exec(start, before) && device in nm.devices
      requires InPhaseOf(h, Created, device, request, cp)
      modifies this
      ensures IsRun(start, run) && Abs() == Exec(start, run)
      ensures before <= run
      ensures StepsOf(run, h) == StepsOf(before, h) + [Read(h, ok)]
      ensures device in nm.devices && settings.Some? == ok
      ensures ok ==> InPhaseOf(h, ReadBack(settings.value), device, request, cp)
      ensures !ok ==> InPhaseOf(h, Failing, device, request, cp)
    {
      ghost var step: Step;
      settings, step := GetSettings(h, device, ok);
      run := After(h, start, before, step);
    }

    method UpdateInRun(ghost h: nat, device: string, settings: Settings, ghost read: Settings,
                       ghost request: Section, ghost cp: nat, outcome: Outcome,
                       ghost start: State, ghost before: seq<Step>)
      returns (ok: bool, ghost run: seq<Step>)
      requires IsRun(start, before) && Abs() == Exec(start, before) && device in nm.devices
      requires InPhaseOf(h, ReadBack(read), device, request, cp) && settings == Rewritten(read, request)
      modifies this
      ensures IsRun(start, run) && Abs() == Exec(start, run)
      ensures before <= run
      ensures StepsOf(run, h) == StepsOf(before, h) + [Update(h, outcome)]
      ensures device in nm.devices && ok == outcome.Delivered?
      ensures InPhaseOf(h, if ok then Updated else Failing, device, request, cp)
    {
      ghost var step: Step;
      ok, step := SendUpdate(h, device, settings, outcome);
      run := After(h, start, before, step);
    }

    method ActivateInRun(ghost h: nat, device: string, ghost request: Section, ghost cp: nat, outcome: Outcome,
                         ghost start: State, ghost before: seq<Step>)
      returns (ok: bool, ghost run: seq<Step>)
      requires IsRun(start, before) && Abs() == Exec(start, before) && device in nm.devices
      requires InPhaseOf(h, Updated, device, request, cp)
      modifies this
      ensures IsRun(start, run) && Abs() == Exec(start, run)
      ensures before <= run
      ensures StepsOf(run, h) == StepsOf(before, h) + [Activate(h, outcome)]
      ensures device in nm.devices && ok == outcome.Delivered?
      ensures InPhaseOf(h, if ok then Activated else Failing, device, request, cp)
    {
      ghost var step: Step;
      ok, step := ActivateConnection(h, device, outcome);
      run := After(h, start, before, step);
    }

    method UndoInRun(ghost h: nat, device: string, ghost request: Section, id: nat, outcome: Outcome,
                     ghost start: State, ghost before: seq<Step>)
      returns (ghost run: seq<Step>)
      requires IsRun(start, before) && Abs() == Exec(start, before) && device in nm.devices
      requires InPhaseOf(h, Failing, device, request, id)
      modifies this
      ensures IsRun(start, run) && Abs() == Exec(start, run) && h !in book.handlers
      ensures before <= run
      ensures StepsOf(run, h) == StepsOf(before, h) + [Undo(h, outcome)]
    {
      var ok, step := Settle(h, id, false, outcome);
      run := After(h, start, before, step);
    }

    /** updateIPv4: read the profile, rewrite it, store it. */
    method UpdateIPv4(ghost h: nat, device: string, c: IPv4Config, mapped: string -> Option<Quad>,
                      ghost cp: nat, read: bool, update: Outcome, ghost start: State, ghost before: seq<Step>)
      returns (ok: bool, ghost run: seq<Step>)
      requires IsRun(start, before) && Abs() == Exec(start, before) && device in nm.devices
      requires InPhaseOf(h, Created, device, Ipv4Section(c, mapped), cp)
      modifies this
      ensures IsRun(start, run) && Abs() == Exec(start, run)
      ensures before <= run
      ensures StepsOf(run, h) == StepsOf(before, h) + UpdateSteps(h, read, update)
      ensures ok <==> read && update.Delivered?
      ensures device in nm.devices
      ensures InPhaseOf(h, if ok then Updated else Failing, device, Ipv4Section(c, mapped), cp)
    {
      ghost var request := Ipv4Section(c, mapped);
      var settings: Option<Settings>;
      settings, run := ReadInRun(h, device, request, cp, read, start, before);
      ok := false;
      if settings.Some? {
        var rewritten := UpdateSettings(settings.value, c, mapped);
        ok, run := UpdateInRun(h, device, rewritten, settings.value, request, cp, update, start, run);
      }
    }

    /** The part of ApplyIPv4 behind updateIPv4. */
    method FinishApply(ghost h: nat, device: string, ghost request: Section, id: nat, updated: bool,
                       activate: Outcome, undo: Outcome, ghost start: State, ghost before: seq<Step>)
      returns (ok: bool, ghost run: seq<Step>)
      requires IsRun(start, before) && Abs() == Exec(start, before) && device in nm.devices
      requires InPhaseOf(h, if updated then Updated else Failing, device, request, id)
      modifies this
      ensures IsRun(start, run) && Abs() == Exec(start, run)
      ensures before <= run
      ensures StepsOf(run, h) == StepsOf(before, h) + FinishSteps(h, updated, activate, undo)
      ensures ok <==> updated && activate.Delivered?
      ensures ok ==> device in nm.devices && InPhaseOf(h, Activated, device, request, id)
      ensures !ok ==> h !in book.handlers
    {
      ok, run := updated, before;
      if ok {
        ok, run := ActivateInRun(h, device, request, id, activate, start, run);
      }
      if !ok {
        run := UndoInRun(h, device, request, id, undo, start, run);
      }
    }

    /** The part of ApplyIPv4 behind a delivered checkpoint. */
    method ApplyUnder(ghost h: nat, device: string, c: IPv4Config, mapped: string -> Option<Quad>,
                      id: nat, read: bool, update: Outcome, activate: Outcome, undo: Outcome,
                      ghost start: State, ghost before: seq<Step>)
      returns (ok: bool, ghost run: seq<Step>)
      requires IsRun(start, before) && Abs() == Exec(start, before) && device in nm.devices
      requires InPhaseOf(h, Created, device, Ipv4Section(c, mapped), id)
      modifies this
      ensures IsRun(start, run) && Abs() == Exec(start, run)
      ensures before <= run
      ensures StepsOf(run, h) == StepsOf(before, h) + UnderSteps(h, read, update, activate, undo)
      ensures ok <==> read && update.Delivered? && activate.Delivered?
      ensures ok ==> device in nm.devices && InPhaseOf(h, Activated, device, Ipv4Section(c, mapped), id)
      ensures !ok ==> h !in book.handlers
    {
      ghost var request := Ipv4Section(c, mapped);
      var updated: bool;
      updated, run := UpdateIPv4(h, device, c, mapped, id, read, update, start, before);
      ok, run := FinishApply(h, device, request, id, updated, activate, undo, start, run);
      Associates(StepsOf(before, h), UpdateSteps(h, read, update), FinishSteps(h, updated, activate, undo));
    }

    /** The part of ApplyIPv4 behind the reply to CheckpointCreate. */
    method ApplyCreated(ghost h: nat, device: string, c: IPv4Config, mapped: string -> Option<Quad>,
                        id: Option<nat>, read: bool, update: Outcome, activate: Outcome, undo: Outcome,
                        ghost start: State, ghost before: seq<Step>)
      returns (cp: Option<nat>, ghost run: seq<Step>)
      requires IsRun(start, before) && Abs() == Exec(start, before) && device in nm.devices
      requires id.None? ==> h !in book.handlers
      requires id.Some? ==> InPhaseOf(h, Created, device, Ipv4Section(c, mapped), id.value)
      modifies this
      ensures IsRun(start, run) && Abs() == Exec(start, run)
      ensures before <= run
      ensures StepsOf(run, h) ==
        StepsOf(before, h) + if id.Some? then UnderSteps(h, read, update, activate, undo) else []
      ensures cp.Some? <==> id.Some? && read && update.Delivered? && activate.Delivered?
      ensures cp.Some? ==> device in nm.devices
      ensures cp.Some? ==> InPhaseOf(h, Activated, device, Ipv4Section(c, mapped), cp.value)
      ensures cp.None? ==> h !in book.handlers
    {
      cp, run := None, before;
      if id.Some? {
        var ok: bool;
        ok, run := ApplyUnder(h, device, c, mapped, id.value, read, update, activate, undo, start, before);
        cp := if ok then id else None;
      }
    }

    /** ApplyIPv4 for a request that passed its checks. */
    method ApplyChecked(ghost h: nat, device: string, c: IPv4Config, mapped: string -> Option<Quad>,
                        create: Outcome, read: bool, update: Outcome, activate: Outcome, undo: Outcome)
      returns (cp: Option<nat>, ghost created: Outcome, ghost asked: seq<Step>, ghost run: seq<Step>)
      requires h !in book.handlers && device in nm.devices
      modifies this
      ensures IsRun(old(Abs()), run) && Abs() == Exec(old(Abs()), run) && run != []
      ensures IsRun(old(Abs()), asked) && asked + [Create(h, created)] <= run
      ensures created == if Covered(Exec(old(Abs()), asked).nm, device) then Refused else create
      ensures StepsOf(run, h) ==
        ApplySteps(h, device, Ipv4Section(c, mapped), created, read, update, activate, undo)
      ensures cp.Some? <==> created.Delivered? && read && update.Delivered? && activate.Delivered?
      ensures cp.Some? ==> device in nm.devices
      ensures cp.Some? ==> InPhaseOf(h, Activated, device, Ipv4Section(c, mapped), cp.value)
      ensures cp.None? ==> h !in book.handlers
    {
      ghost var start := Abs();
      ghost var request := Ipv4Section(c, mapped);
      var id: Option<nat>;
      id, created, asked, run := OpenInRun(h, device, request, create, start);
      cp, run := ApplyCreated(h, device, c, mapped, id, read, update, activate, undo, start, run);
    }

    /** ApplyIPv4: returns the checkpoint once the change is in force, or undoes what it began.
        The outcome parameters say how each of its calls is taken. Its own part in the run is
        known call by call: nothing for a configuration or a device it cannot use; else the
        request for a checkpoint, which is refused although `create` would have it otherwise
        exactly if the device is covered when it is asked, `asked` being the run up to then; and
        behind a delivered one the whole rest. */
    method ApplyIPv4(ghost h: nat, device: string, c: IPv4Config, mapped: string -> Option<Quad>,
                     reachable: bool, create: Outcome, read: bool, update: Outcome, activate: Outcome,
                     undo: Outcome)
      returns (cp: Option<nat>, ghost created: Outcome, ghost asked: seq<Step>, ghost run: seq<Step>)
      requires h !in book.handlers
      modifies this
      ensures IsRun(old(Abs()), run) && Abs() == Exec(old(Abs()), run)
      ensures run == [] <==> Validate(c, mapped).Some? || !reachable || device !in old(nm.devices)
      ensures IsRun(old(Abs()), asked)
      ensures run != [] ==>
        && asked + [Create(h, created)] <= run
        && created == if Covered(Exec(old(Abs()), asked).nm, device) then Refused else create
      ensures run != [] ==>
        StepsOf(run, h) ==
          ApplySteps(h, device, Ipv4Section(c, mapped), created, read, update, activate, undo)
      ensures cp.Some? <==> run != [] && created.Delivered? && read && update.Delivered? && activate.Delivered?
      ensures cp.Some? ==> device in nm.devices
      ensures cp.Some? ==> InPhaseOf(h, Activated, device, Ipv4Section(c, mapped), cp.value)
      ensures cp.None? ==> h !in book.handlers
    {
      run, asked := [], [];
      cp := None;
      created := Refused;
      if Validate(c, mapped).None? && reachable && device in nm.devices {
        cp, created, asked, run := ApplyChecked(h, device, c, mapped, create, read, update, activate, undo);
      }
    }

    /** takePending, under the mutex. */
    method TakePending(token: string) returns (taken: Option<PendingChange>)
      modifies this`pending
      ensures (pending, taken) == Protocol.TakePending(old(pending), token, nm.now)
    {
      if token !in pending {
        return None;
      }
      var change := pending[token];
      pending := pending - {token};
      if nm.now > change.deadline {
        return None;
      }
      return Some(change);
    }

    /** The rest of handleNetworkApply: the change in force gets a fresh token and a deadline
        of its own, counted from now. */
    method IssueToken(ghost h: nat, device: string, ghost request: Section, cp: nat, token: string, user: string)
      returns (ghost step: Step)
      requires InPhaseOf(h, Activated, device, request, cp) && device in nm.devices
      requires token !in book.issued
      modifies this
      ensures Enabled(old(Abs()), step) && Abs() == Next(old(Abs()), step)
      ensures step == Issue(h, token, user)
      ensures pending == old(pending)[token := PendingChange(cp, device, user, nm.now + 120 * 1_000_000_000)]
      ensures nm == old(nm) && h !in book.handlers
    {
      ghost var before := Abs();
      step := Issue(h, token, user);
      pending := pending[token := PendingChange(cp, device, user, nm.now + ROLLBACK_WINDOW)];
      book := Next(before, step);
    }

    /** The taking of the token as part of a run. */
    method TakeInRun(ghost h: nat, token: string, ghost confirm: bool, ghost start: State)
      returns (taken: Option<PendingChange>, ghost run: seq<Step>)
      requires Abs() == start && h !in book.handlers
      modifies this
      ensures IsRun(start, run) && Abs() == Exec(start, run)
      ensures |run| > 0 && run[0] == Take(h, token, confirm) && StepsOf(run, h) == [Take(h, token, confirm)]
      ensures taken.None? <==> token !in start.pending || start.nm.now > start.pending[token].deadline
      ensures taken.None? ==> h !in book.handlers
      ensures taken.Some? ==> taken.value == start.pending[token]
      ensures taken.Some? ==>
        h in book.handlers && book.handlers[h] == Settling(confirm, taken.value.checkpoint)
    {
      taken := TakePending(token);
      book := Next(start, Take(h, token, confirm));
      run := After(h, start, [], Take(h, token, confirm));
      assert run[0] == ([] + [Take(h, token, confirm)])[0];
    }

    /** The call of a handler that has taken a token. */
    method SettleTaken(ghost h: nat, change: PendingChange, confirm: bool, outcome: Outcome,
                       ghost start: State, ghost before: seq<Step>)
      returns (reply: SettleReply, ghost run: seq<Step>)
      requires IsRun(start, before) && Abs() == Exec(start, before)
      requires h in book.handlers && book.handlers[h] == Settling(confirm, change.checkpoint)
      modifies this
      ensures IsRun(start, run) && Abs() == Exec(start, run)
      ensures h !in book.handlers && before + [Finish(h, outcome)] <= run
      ensures StepsOf(run, h) == StepsOf(before, h) + [Finish(h, outcome)]
      ensures reply == if outcome.Delivered? && change.checkpoint in old(nm.live) then Settled else CallFailed
    {
      var ok, step := Settle(h, change.checkpoint, confirm, outcome);
      run := After(h, start, before, step);
      reply := if ok then Settled else CallFailed;
    }

    /** handleNetworkConfirm and handleNetworkCancel: take the token, let the others act, then
        destroy or roll back its checkpoint. `asked` is the run up to that call; the operator is
        told that it worked exactly if the checkpoint was live then and the reply came back. */
    method SettleToken(ghost h: nat, token: string, confirm: bool, outcome: Outcome)
      returns (reply: SettleReply, ghost asked: seq<Step>, ghost run: seq<Step>)
      requires h !in book.handlers
      modifies this
      ensures IsRun(old(Abs()), run) && Abs() == Exec(old(Abs()), run)
      ensures IsRun(old(Abs()), asked) && h !in book.handlers
      ensures |run| > 0 && run[0] == Take(h, token, confirm)
      ensures reply == UnknownToken <==>
        token !in old(pending) || old(nm.now) > old(pending)[token].deadline
      ensures StepsOf(run, h) ==
        [Take(h, token, confirm)] + if reply == UnknownToken then [] else [Finish(h, outcome)]
      ensures reply != UnknownToken ==> token in old(pending) && asked + [Finish(h, outcome)] <= run
      ensures reply == Settled <==>
        && reply != UnknownToken && outcome.Delivered?
        && old(pending)[token].checkpoint in Exec(old(Abs()), asked).nm.live
      ensures Protocol.Inv(old(Abs())) && token in old(pending) ==>
        && old(pending)[token].checkpoint in old(Abs()).origin
        && (reply == Settled <==>
              && outcome.Delivered?
              && Exec(old(Abs()), asked).nm.now < old(Abs()).origin[old(pending)[token].checkpoint].checkpoint.expiry)
    {
      ghost var start := Abs();
      var taken: Option<PendingChange>;
      taken, run := TakeInRun(h, token, confirm, start);
      asked := run;
      if Protocol.Inv(start) && token in start.pending {
        TokenInTime(start, asked, h, token);
      }
      match taken
      case None => reply := UnknownToken;
      case Some(change) => reply, run := SettleTaken(h, change, confirm, outcome, start, run);
    }

    /** Known within two minutes: whoever created the checkpoint of a pending token and whatever
        happened since, a call carried out less than 120 s after the creation settles it. */
    method SettleInTime(ghost h: nat, token: string, confirm: bool, outcome: Outcome, ghost s0: State,
                        ghost before: seq<Step>, ghost maker: nat, ghost created: Outcome, ghost after: seq<Step>)
      returns (reply: SettleReply, ghost asked: seq<Step>)
      requires h !in book.handlers && token in pending
      requires Initial(s0) && IsRun(s0, before)
      requires Enabled(Exec(s0, before), Create(maker, created)) && !created.Refused?
      requires IsRun(Next(Exec(s0, before), Create(maker, created)), after)
      requires Abs() == Exec(Next(Exec(s0, before), Create(maker, created)), after)
      requires pending[token].checkpoint == Exec(s0, before).nm.next
      modifies this
      ensures IsRun(old(Abs()), asked)
      ensures reply == Settled <==>
        && outcome.Delivered?
        && Exec(old(Abs()), asked).nm.now < Exec(s0, before).nm.now + 120 * 1_000_000_000
    {
      ghost var start := Abs();
      LivesTwoMinutes(s0, before, maker, created, after);
      ghost var run: seq<Step>;
      reply, asked, run := SettleToken(h, token, confirm, outcome);
    }
  }
}
