/** The confirm-or-revert protocol as a step system: handlers of the gateway interleaved at
    every D-Bus call, NetworkManager's clock, and restarts of the gateway
    (internal/httpserver/network_edit.go, internal/network/edit.go). */
module ConfirmOrRevert {
  import opened Clock
  import opened Options
  import opened Sequences
  import opened NetworkConfig
  import opened NetworkManager

  /** rollbackWindow, and the whole seconds of it that ApplyIPv4 hands to NetworkManager. */
  const ROLLBACK_WINDOW: nat := 120 * SECOND
  const WINDOW_SECONDS: nat := ROLLBACK_WINDOW / SECOND

  datatype PendingChange = PendingChange(checkpoint: nat, device: string, user: string, deadline: nat)

  /** How far ApplyIPv4 has come behind its checkpoint. */
  datatype Phase = Created | ReadBack(settings: Settings) | Updated | Activated | Failing

  /** Where a running handler stands: between two of its calls. */
  datatype Handler =
    | Started(device: string, request: Section)
    | Applying(phase: Phase, device: string, request: Section, cp: nat)
    | Settling(confirm: bool, cp: nat)

  /** A destroy or rollback call the gateway sent. */
  datatype AppCall =
    | FailureRollback(cp: nat)
    | ConfirmDestroy(cp: nat)
    | CancelRollback(cp: nat)

  /** Who is entitled to the one call a checkpoint may get, and whether it got a token. */
  datatype Owner =
    | ByHandler(h: nat, tokened: bool)
    | ByToken(token: string)
    | Spent(tokened: bool)
    | Lost
  {
    predicate Tokened() {
      ByToken? || ((ByHandler? || Spent?) && tokened)
    }
  }

  /** What was asked of a checkpoint when it was created. */
  datatype Origin = Origin(checkpoint: Checkpoint, request: Section)

  /** `nm`, `pending` and `handlers` are the running system. The rest is history: the last
      confirmed state of each device, the calls sent, tokens issued and consumed, and for
      every checkpoint ever created its origin and its owner. */
  datatype State = State(
    nm: Nm,
    pending: map<string, PendingChange>,
    handlers: map<nat, Handler>,
    confirmed: map<string, DeviceState>,
    calls: seq<AppCall>,
    issued: map<string, nat>,
    consumed: seq<string>,
    origin: map<nat, Origin>,
    owner: map<nat, Owner>)

  /** How a D-Bus call ends: done, not done, or done although the caller sees an error. */
  datatype Outcome = Delivered | Refused | LostReply

  datatype Step =
    | Begin(h: nat, device: string, request: Section)
    | Create(h: nat, outcome: Outcome)
    | Read(h: nat, ok: bool)
    | Update(h: nat, outcome: Outcome)
    | Activate(h: nat, outcome: Outcome)
    | Issue(h: nat, token: string, user: string)
    | Undo(h: nat, outcome: Outcome)
    | Take(h: nat, token: string, confirm: bool)
    | Finish(h: nat, outcome: Outcome)
    | Tick(dt: nat)
    | Restart

  ghost predicate InPhase(s: State, h: nat) {
    h in s.handlers && s.handlers[h].Applying? && s.handlers[h].device in s.nm.devices
  }

  ghost predicate Enabled(s: State, step: Step) {
    match step
    case Begin(h, device, _) => h !in s.handlers && device in s.nm.devices
    case Create(h, outcome) =>
      && h in s.handlers && s.handlers[h].Started?
      && (outcome != Refused ==>
            s.handlers[h].device in s.nm.devices && !Covered(s.nm, s.handlers[h].device))
    case Read(h, _) => InPhase(s, h) && s.handlers[h].phase.Created?
    case Update(h, _) => InPhase(s, h) && s.handlers[h].phase.ReadBack?
    case Activate(h, _) => InPhase(s, h) && s.handlers[h].phase.Updated?
    case Issue(h, token, _) => InPhase(s, h) && s.handlers[h].phase.Activated? && token !in s.issued
    case Undo(h, _) => InPhase(s, h) && s.handlers[h].phase.Failing?
    case Take(h, _, _) => h !in s.handlers
    case Finish(h, _) => h in s.handlers && s.handlers[h].Settling?
    case Tick(_) => true
    case Restart => true
  }

  /** takePending: the token goes, and an expired change is not handed out. */
  function TakePending(pending: map<string, PendingChange>, token: string, now: nat)
    : (map<string, PendingChange>, Option<PendingChange>)
  {
    if token !in pending then (pending, None)
    else if now > pending[token].deadline then (pending - {token}, None)
    else (pending - {token}, Some(pending[token]))
  }

  ghost function Next(s: State, step: Step): State
    requires Enabled(s, step)
  {
    match step
    case Begin(h, device, request) => s.(handlers := s.handlers[h := Started(device, request)])
    case Create(h, outcome) => AfterCreate(s, h, outcome)
    case Read(h, ok) =>
      var profile := s.nm.devices[s.handlers[h].device].profile;
      InNextPhase(s, h, if ok then ReadBack(profile) else Failing)
    case Update(h, outcome) =>
      var p := s.handlers[h];
      InNextPhase(s, h, if outcome.Delivered? then Updated else Failing)
        .(nm := if outcome.Refused? then s.nm
                else UpdateProfile(s.nm, p.device, Rewritten(p.phase.settings, p.request)))
    case Activate(h, outcome) =>
      InNextPhase(s, h, if outcome.Delivered? then Activated else Failing)
        .(nm := if outcome.Refused? then s.nm else ActivateProfile(s.nm, s.handlers[h].device))
    case Issue(h, token, user) => AfterIssue(s, h, token, user)
    case Undo(h, outcome) => AfterCall(s, h, FailureRollback(s.handlers[h].cp), outcome)
    case Take(h, token, confirm) => AfterTake(s, h, token, confirm)
    case Finish(h, outcome) =>
      var p := s.handlers[h];
      AfterCall(s, h, if p.confirm then ConfirmDestroy(p.cp) else CancelRollback(p.cp), outcome)
    case Tick(dt) => s.(nm := Advance(s.nm, dt))
    case Restart => s.(pending := map[], handlers := map[])
  }

  ghost function InNextPhase(s: State, h: nat, phase: Phase): State
    requires InPhase(s, h)
  {
    s.(handlers := s.handlers[h := s.handlers[h].(phase := phase)])
  }

  ghost function AfterCreate(s: State, h: nat, outcome: Outcome): State
    requires Enabled(s, Create(h, outcome))
  {
    var p := s.handlers[h];
    if outcome.Refused? then
      s.(handlers := s.handlers - {h})
    else
      var id := s.nm.next;
      var nm := CreateCheckpoint(s.nm, p.device, WINDOW_SECONDS);
      s.(nm := nm,
         handlers := if outcome.Delivered? then s.handlers[h := Applying(Created, p.device, p.request, id)]
                     else s.handlers - {h},
         origin := s.origin[id := Origin(nm.live[id], p.request)],
         owner := s.owner[id := if outcome.Delivered? then ByHandler(h, false) else Lost])
  }

  ghost function AfterIssue(s: State, h: nat, token: string, user: string): State
    requires Enabled(s, Issue(h, token, user))
  {
    var p := s.handlers[h];
    s.(pending := s.pending[token := PendingChange(p.cp, p.device, user, s.nm.now + ROLLBACK_WINDOW)],
       handlers := s.handlers - {h},
       issued := s.issued[token := p.cp],
       owner := s.owner[p.cp := ByToken(token)])
  }

  ghost function AfterTake(s: State, h: nat, token: string, confirm: bool): State {
    var (pending, taken) := TakePending(s.pending, token, s.nm.now);
    var s1 := s.(pending := pending,
                 consumed := if token in s.pending then s.consumed + [token] else s.consumed);
    match taken
    case None => s1
    case Some(change) =>
      s1.(handlers := s.handlers[h := Settling(confirm, change.checkpoint)],
          owner := s.owner[change.checkpoint := ByHandler(h, true)])
  }

  /** The handler sends its one destroy or rollback call and is done. */
  ghost function AfterCall(s: State, h: nat, call: AppCall, outcome: Outcome): State {
    var s1 := s.(handlers := s.handlers - {h},
                 calls := s.calls + [call],
                 owner := s.owner[call.cp := Spent(!call.FailureRollback?)]);
    if outcome.Refused? || call.cp !in s.nm.live then s1
    else if call.ConfirmDestroy? then
      var device := s.nm.live[call.cp].device;
      s1.(nm := DestroyCheckpoint(s.nm, call.cp),
          confirmed := if device in s.nm.devices then s.confirmed[device := s.nm.devices[device]]
                       else s.confirmed)
    else
      s1.(nm := RollbackCheckpoint(s.nm, call.cp))
  }

  // ---- runs ----

  ghost predicate Initial(s: State) {
    && s.nm.live == map[] && s.pending == map[] && s.handlers == map[]
    && s.confirmed == s.nm.devices
    && s.calls == [] && s.issued == map[] && s.consumed == [] && s.origin == map[] && s.owner == map[]
  }

  ghost predicate IsRun(s: State, run: seq<Step>)
    decreases |run|
  {
    run != [] ==> Enabled(s, run[0]) && IsRun(Next(s, run[0]), run[1..])
  }

  ghost function Exec(s: State, run: seq<Step>): State
    requires IsRun(s, run)
    decreases |run|
  {
    if run == [] then s else Exec(Next(s, run[0]), run[1..])
  }

  lemma {:induction false} RunAppend(s: State, a: seq<Step>, b: seq<Step>)
    requires IsRun(s, a) && IsRun(Exec(s, a), b)
    ensures IsRun(s, a + b) && Exec(s, a + b) == Exec(Exec(s, a), b)
    decreases |a|
  {
    if a == [] {
      assert a + b == b;
    } else {
      RunAppend(Next(s, a[0]), a[1..], b);
      assert (a + b)[1..] == a[1..] + b;
    }
  }

  lemma RunSnoc(s: State, run: seq<Step>, step: Step)
    requires IsRun(s, run) && Enabled(Exec(s, run), step)
    ensures IsRun(s, run + [step]) && Exec(s, run + [step]) == Next(Exec(s, run), step)
  {
    assert [step][1..] == [];
    RunAppend(s, run, [step]);
  }

  // ---- invariant of every run: each checkpoint has one owner ----

  ghost predicate HandlersOwn(s: State) {
    forall h :: h in s.handlers && !s.handlers[h].Started? ==>
      && s.handlers[h].cp in s.owner
      && s.owner[s.handlers[h].cp] == ByHandler(h, s.handlers[h].Settling?)
  }

  ghost predicate TokensOwn(s: State) {
    forall t :: t in s.pending ==>
      && t in s.issued && s.issued[t] == s.pending[t].checkpoint
      && s.issued[t] in s.owner && s.owner[s.issued[t]] == ByToken(t)
      && t !in s.consumed
  }

  ghost predicate TokensOnce(s: State) {
    && NoDuplicates(s.consumed)
    && (forall t :: t in s.consumed ==> t in s.issued)
    && (forall t :: t in s.issued ==> s.issued[t] in s.owner && s.owner[s.issued[t]].Tokened())
    && (forall t, u :: t in s.issued && u in s.issued && s.issued[t] == s.issued[u] ==> t == u)
  }

  ghost predicate CallsOnce(s: State) {
    && (forall i, j :: 0 <= i < j < |s.calls| ==> s.calls[i].cp != s.calls[j].cp)
    && (forall i :: 0 <= i < |s.calls| ==>
          s.calls[i].cp in s.owner && s.owner[s.calls[i].cp] == Spent(!s.calls[i].FailureRollback?))
  }

  /** Until its one call is sent, a checkpoint is live exactly while the clock is before its
      expiry, and it still says what it said when created. */
  ghost predicate Lifetimes(nm: Nm, origin: map<nat, Origin>, owner: map<nat, Owner>) {
    && WellFormed(nm)
    && owner.Keys == origin.Keys
    && (forall cp :: cp in nm.live ==> cp in origin && nm.live[cp] == origin[cp].checkpoint)
    && (forall cp :: cp in origin ==>
          && cp < nm.next
          && origin[cp].checkpoint.expiry <= nm.now + ROLLBACK_WINDOW
          && (!owner[cp].Spent? && nm.now < origin[cp].checkpoint.expiry ==> cp in nm.live))
  }

  ghost predicate HandlersAgree(s: State) {
    forall h :: h in s.handlers && s.handlers[h].Applying? ==>
      && s.handlers[h].cp in s.origin
      && s.handlers[h].device == s.origin[s.handlers[h].cp].checkpoint.device
      && s.handlers[h].request == s.origin[s.handlers[h].cp].request
  }

  ghost predicate TokensAgree(s: State) {
    forall t :: t in s.pending ==>
      && s.pending[t].checkpoint in s.origin
      && s.origin[s.pending[t].checkpoint].checkpoint.expiry <= s.pending[t].deadline
  }

  ghost predicate Agrees(s: State) {
    HandlersAgree(s) && TokensAgree(s)
  }

  ghost predicate Alive(s: State) {
    Lifetimes(s.nm, s.origin, s.owner)
  }

  ghost predicate Inv(s: State) {
    HandlersOwn(s) && TokensOwn(s) && TokensOnce(s) && CallsOnce(s) && Alive(s) && Agrees(s)
  }

  lemma InitialInv(s: State)
    requires Initial(s)
    ensures Inv(s)
  {
  }

  // The life of a checkpoint under each kind of call, apart from the rest of the state.

  lemma CreateKeepsLifetimes(nm: Nm, origin: map<nat, Origin>, owner: map<nat, Owner>,
                             device: string, request: Section, to: Owner)
    requires Lifetimes(nm, origin, owner) && device in nm.devices && !Covered(nm, device)
    ensures var nm' := CreateCheckpoint(nm, device, WINDOW_SECONDS);
            Lifetimes(nm', origin[nm.next := Origin(nm'.live[nm.next], request)], owner[nm.next := to])
  {
    CreateKeepsWellFormed(nm, device, WINDOW_SECONDS);
  }

  lemma TransferKeepsLifetimes(nm: Nm, origin: map<nat, Origin>, owner: map<nat, Owner>, cp: nat, to: Owner)
    requires Lifetimes(nm, origin, owner) && cp in owner && !owner[cp].Spent?
    ensures Lifetimes(nm, origin, owner[cp := to])
  {
  }

  lemma CallKeepsLifetimes(nm: Nm, origin: map<nat, Origin>, owner: map<nat, Owner>, cp: nat, tokened: bool)
    requires Lifetimes(nm, origin, owner) && cp in owner
    ensures Lifetimes(nm, origin, owner[cp := Spent(tokened)])
    ensures Lifetimes(DestroyCheckpoint(nm, cp), origin, owner[cp := Spent(tokened)])
    ensures Lifetimes(RollbackCheckpoint(nm, cp), origin, owner[cp := Spent(tokened)])
  {
    RollbackKeepsWellFormed(nm, cp);
    assert Lifetimes(nm, origin, owner[cp := Spent(tokened)]);
  }

  lemma AdvanceKeepsLifetimes(nm: Nm, origin: map<nat, Origin>, owner: map<nat, Owner>, dt: nat)
    requires Lifetimes(nm, origin, owner)
    ensures Lifetimes(Advance(nm, dt), origin, owner)
  {
  }

  // One step at a time.

  lemma PhaseKeepsInv(s: State, h: nat, phase: Phase, nm: Nm)
    requires Inv(s) && InPhase(s, h) && nm == s.nm.(devices := nm.devices)
    requires nm.devices.Keys == s.nm.devices.Keys
    ensures Inv(InNextPhase(s, h, phase).(nm := nm))
  {
  }

  /** A new checkpoint is one nobody has heard of. */
  ghost predicate Unknown(s: State, cp: nat) {
    cp !in s.owner && cp !in s.origin && cp !in s.nm.live
  }

  lemma CreateKeepsOwnership(s: State, h: nat, outcome: Outcome)
    requires HandlersOwn(s) && TokensOwn(s) && TokensOnce(s) && CallsOnce(s) && Unknown(s, s.nm.next)
    requires Enabled(s, Create(h, outcome))
    ensures var s' := AfterCreate(s, h, outcome);
            HandlersOwn(s') && TokensOwn(s') && TokensOnce(s') && CallsOnce(s')
  {
  }

  lemma CreateKeepsAgrees(s: State, h: nat, outcome: Outcome)
    requires Agrees(s) && Unknown(s, s.nm.next)
    requires Enabled(s, Create(h, outcome))
    ensures Agrees(AfterCreate(s, h, outcome))
  {
  }

  lemma IssueKeepsOwnership(s: State, h: nat, token: string, user: string)
    requires HandlersOwn(s) && TokensOwn(s) && TokensOnce(s)
    requires Enabled(s, Issue(h, token, user))
    ensures var s' := AfterIssue(s, h, token, user); HandlersOwn(s') && TokensOwn(s')
  {
  }

  lemma IssueKeepsHistory(s: State, h: nat, token: string, user: string)
    requires HandlersOwn(s) && TokensOnce(s) && CallsOnce(s)
    requires Enabled(s, Issue(h, token, user))
    ensures var s' := AfterIssue(s, h, token, user); TokensOnce(s') && CallsOnce(s')
  {
  }

  lemma IssueKeepsAgrees(s: State, h: nat, token: string, user: string)
    requires HandlersOwn(s) && Alive(s) && Agrees(s)
    requires Enabled(s, Issue(h, token, user))
    ensures Agrees(AfterIssue(s, h, token, user))
  {
  }

  lemma TakeKeepsHandlersOwn(s: State, h: nat, token: string, confirm: bool)
    requires HandlersOwn(s) && TokensOwn(s) && Enabled(s, Take(h, token, confirm))
    ensures HandlersOwn(AfterTake(s, h, token, confirm))
  {
  }

  lemma TakeKeepsTokensOwn(s: State, h: nat, token: string, confirm: bool)
    requires TokensOwn(s) && Enabled(s, Take(h, token, confirm))
    ensures TokensOwn(AfterTake(s, h, token, confirm))
  {
  }

  lemma TakeKeepsHistory(s: State, h: nat, token: string, confirm: bool)
    requires TokensOwn(s) && TokensOnce(s) && CallsOnce(s) && Enabled(s, Take(h, token, confirm))
    ensures var s' := AfterTake(s, h, token, confirm); TokensOnce(s') && CallsOnce(s')
  {
  }

  lemma TakeKeepsHandlersAgree(s: State, h: nat, token: string, confirm: bool)
    requires HandlersAgree(s) && Enabled(s, Take(h, token, confirm))
    ensures HandlersAgree(AfterTake(s, h, token, confirm))
  {
  }

  lemma TakeKeepsTokensAgree(s: State, h: nat, token: string, confirm: bool)
    requires TokensAgree(s) && Enabled(s, Take(h, token, confirm))
    ensures TokensAgree(AfterTake(s, h, token, confirm))
  {
  }

  /** The state in which a handler may send its one call. */
  ghost predicate MayCall(s: State, h: nat, call: AppCall) {
    && h in s.handlers && !s.handlers[h].Started? && call.cp == s.handlers[h].cp
    && (call.FailureRollback? <==> s.handlers[h].Applying?)
  }

  lemma CallKeepsOwnership(s: State, h: nat, call: AppCall, outcome: Outcome)
    requires HandlersOwn(s) && TokensOwn(s) && MayCall(s, h, call)
    ensures var s' := AfterCall(s, h, call, outcome); HandlersOwn(s') && TokensOwn(s')
  {
  }

  lemma CallKeepsHistory(s: State, h: nat, call: AppCall, outcome: Outcome)
    requires HandlersOwn(s) && TokensOnce(s) && CallsOnce(s) && MayCall(s, h, call)
    ensures var s' := AfterCall(s, h, call, outcome); TokensOnce(s') && CallsOnce(s')
  {
  }

  lemma CallKeepsAgrees(s: State, h: nat, call: AppCall, outcome: Outcome)
    requires HandlersOwn(s) && Agrees(s) && MayCall(s, h, call)
    ensures Agrees(AfterCall(s, h, call, outcome))
  {
  }

  lemma CallKeepsInv(s: State, h: nat, call: AppCall, outcome: Outcome)
    requires Inv(s) && MayCall(s, h, call)
    ensures Inv(AfterCall(s, h, call, outcome))
  {
    CallKeepsOwnership(s, h, call, outcome);
    CallKeepsHistory(s, h, call, outcome);
    CallKeepsAgrees(s, h, call, outcome);
    CallKeepsLifetimes(s.nm, s.origin, s.owner, call.cp, !call.FailureRollback?);
  }

  lemma CreateKeepsInv(s: State, h: nat, outcome: Outcome)
    requires Inv(s) && Enabled(s, Create(h, outcome))
    ensures Inv(AfterCreate(s, h, outcome))
  {
    var p := s.handlers[h];
    CreateKeepsOwnership(s, h, outcome);
    CreateKeepsAgrees(s, h, outcome);
    if !outcome.Refused? {
      CreateKeepsLifetimes(s.nm, s.origin, s.owner, p.device, p.request,
                           if outcome.Delivered? then ByHandler(h, false) else Lost);
    }
  }

  lemma IssueKeepsInv(s: State, h: nat, token: string, user: string)
    requires Inv(s) && Enabled(s, Issue(h, token, user))
    ensures Inv(AfterIssue(s, h, token, user))
  {
    IssueKeepsOwnership(s, h, token, user);
    IssueKeepsHistory(s, h, token, user);
    IssueKeepsAgrees(s, h, token, user);
    TransferKeepsLifetimes(s.nm, s.origin, s.owner, s.handlers[h].cp, ByToken(token));
  }

  lemma TakeKeepsInv(s: State, h: nat, token: string, confirm: bool)
    requires Inv(s) && Enabled(s, Take(h, token, confirm))
    ensures Inv(AfterTake(s, h, token, confirm))
  {
    TakeKeepsHandlersOwn(s, h, token, confirm);
    TakeKeepsTokensOwn(s, h, token, confirm);
    TakeKeepsHistory(s, h, token, confirm);
    TakeKeepsHandlersAgree(s, h, token, confirm);
    TakeKeepsTokensAgree(s, h, token, confirm);
    if token in s.pending {
      TransferKeepsLifetimes(s.nm, s.origin, s.owner, s.pending[token].checkpoint, ByHandler(h, true));
    }
  }

  lemma TickKeepsInv(s: State, dt: nat)
    requires Inv(s)
    ensures Inv(s.(nm := Advance(s.nm, dt)))
  {
    AdvanceKeepsLifetimes(s.nm, s.origin, s.owner, dt);
  }

  lemma QuietStepKeepsInv(s: State, step: Step)
    requires Inv(s) && Enabled(s, step) && (step.Begin? || step.Restart?)
    ensures Inv(Next(s, step))
  {
  }

  lemma PhaseStepKeepsInv(s: State, step: Step)
    requires Inv(s) && Enabled(s, step) && (step.Read? || step.Update? || step.Activate?)
    ensures Inv(Next(s, step))
  {
    var s' := Next(s, step);
    PhaseKeepsInv(s, step.h, s'.handlers[step.h].phase, s'.nm);
  }

  lemma StepKeepsInv(s: State, step: Step)
    requires Inv(s) && Enabled(s, step)
    ensures Inv(Next(s, step))
  {
    match step
    case Create(h, outcome) => CreateKeepsInv(s, h, outcome);
    case Issue(h, token, user) => IssueKeepsInv(s, h, token, user);
    case Take(h, token, confirm) => TakeKeepsInv(s, h, token, confirm);
    case Begin(_, _, _) => QuietStepKeepsInv(s, step);
    case Tick(dt) => TickKeepsInv(s, dt);
    case Restart => QuietStepKeepsInv(s, step);
    case Read(_, _) => PhaseStepKeepsInv(s, step);
    case Update(_, _) => PhaseStepKeepsInv(s, step);
    case Activate(_, _) => PhaseStepKeepsInv(s, step);
    case Undo(h, outcome) => CallKeepsInv(s, h, FailureRollback(s.handlers[h].cp), outcome);
    case Finish(h, outcome) =>
      var p := s.handlers[h];
      CallKeepsInv(s, h, if p.confirm then ConfirmDestroy(p.cp) else CancelRollback(p.cp), outcome);
  }
}
