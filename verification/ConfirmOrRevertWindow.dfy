/** How long the operator has: two minutes from the creation of the checkpoint, neither more nor
    less, whatever happens in between. */
module ConfirmOrRevertWindow {
  import opened NetworkManager
  import opened ConfirmOrRevert
  import opened ConfirmOrRevertSafety

  /** A destroy or rollback call for cp is among those sent. */
  ghost predicate Called(calls: seq<AppCall>, cp: nat) {
    exists i :: 0 <= i < |calls| && calls[i].cp == cp
  }

  /** A checkpoint counts as settled only through a call. */
  ghost predicate SpentIsCalled(calls: seq<AppCall>, owner: map<nat, Owner>) {
    forall cp :: cp in owner && owner[cp].Spent? ==> Called(calls, cp)
  }

  lemma CallKeepsSpentIsCalled(s: State, h: nat, call: AppCall, outcome: Outcome)
    requires SpentIsCalled(s.calls, s.owner)
    ensures SpentIsCalled(AfterCall(s, h, call, outcome).calls, AfterCall(s, h, call, outcome).owner)
  {
    var s' := AfterCall(s, h, call, outcome);
    forall cp | cp in s'.owner && s'.owner[cp].Spent? ensures Called(s'.calls, cp) {
      if cp == call.cp {
        assert s'.calls[|s.calls|].cp == cp;
      } else {
        var i :| 0 <= i < |s.calls| && s.calls[i].cp == cp;
        assert s'.calls[i].cp == cp;
      }
    }
  }

  lemma OtherKeepsSpentIsCalled(s: State, step: Step)
    requires SpentIsCalled(s.calls, s.owner) && Enabled(s, step) && !step.Undo? && !step.Finish?
    ensures SpentIsCalled(Next(s, step).calls, Next(s, step).owner)
  {
    assert Next(s, step).calls == s.calls;
  }

  lemma {:induction false} RunKeepsSpentIsCalled(s: State, run: seq<Step>)
    requires SpentIsCalled(s.calls, s.owner) && IsRun(s, run)
    ensures SpentIsCalled(Exec(s, run).calls, Exec(s, run).owner)
    decreases |run|
  {
    if run != [] {
      match run[0] {
        case Undo(h, outcome) => CallKeepsSpentIsCalled(s, h, FailureRollback(s.handlers[h].cp), outcome);
        case Finish(h, outcome) =>
          var p := s.handlers[h];
          CallKeepsSpentIsCalled(s, h, if p.confirm then ConfirmDestroy(p.cp) else CancelRollback(p.cp), outcome);
        case _ => OtherKeepsSpentIsCalled(s, run[0]);
      }
      RunKeepsSpentIsCalled(Next(s, run[0]), run[1..]);
    }
  }

  lemma StepMovesClock(s: State, step: Step)
    requires Enabled(s, step)
    ensures s.nm.now <= Next(s, step).nm.now
  {
    match step {
      case Create(h, outcome) => assert AfterCreate(s, h, outcome).nm.now == s.nm.now;
      case Undo(h, outcome) => CallMovesNoClock(s, h, FailureRollback(s.handlers[h].cp), outcome);
      case Finish(h, outcome) =>
        var p := s.handlers[h];
        CallMovesNoClock(s, h, if p.confirm then ConfirmDestroy(p.cp) else CancelRollback(p.cp), outcome);
      case _ =>
    }
  }

  lemma CallMovesNoClock(s: State, h: nat, call: AppCall, outcome: Outcome)
    ensures AfterCall(s, h, call, outcome).nm.now == s.nm.now
  {
  }

  lemma {:induction false} RunMovesClock(s: State, run: seq<Step>)
    requires IsRun(s, run)
    ensures s.nm.now <= Exec(s, run).nm.now
    decreases |run|
  {
    if run != [] {
      StepMovesClock(s, run[0]);
      RunMovesClock(Next(s, run[0]), run[1..]);
    }
  }

  /** A checkpoint NetworkManager was told to create, reply lost or not, covers its device and
      runs out 120 s later. */
  lemma CreateOpensWindow(s: State, h: nat, outcome: Outcome)
    requires Enabled(s, Create(h, outcome)) && !outcome.Refused?
    ensures var s' := Next(s, Create(h, outcome));
            var cp := s.nm.next;
            && Covers(s'.nm, cp, s.handlers[h].device)
            && s'.nm.live[cp].expiry == s.nm.now + 120 * 1_000_000_000
            && s'.nm.live[cp].saved == s.nm.devices[s.handlers[h].device]
            && cp in s'.origin && s'.origin[cp].checkpoint == s'.nm.live[cp]
            && (outcome.Delivered? ==> h in s'.handlers && s'.handlers[h].Applying? && s'.handlers[h].cp == cp)
  {
  }

  /** In every run, as long as no destroy or rollback call has been sent for it, it is live
      exactly while the clock is before those 120 s are over. */
  lemma LivesTwoMinutes(s0: State, before: seq<Step>, h: nat, outcome: Outcome, after: seq<Step>)
    requires Initial(s0) && IsRun(s0, before)
    requires Enabled(Exec(s0, before), Create(h, outcome)) && !outcome.Refused?
    requires IsRun(Next(Exec(s0, before), Create(h, outcome)), after)
    ensures var s := Exec(s0, before);
            var end := Exec(Next(s, Create(h, outcome)), after);
            && Inv(end) && s.nm.next in end.origin
            && end.origin[s.nm.next].checkpoint.expiry == s.nm.now + 120 * 1_000_000_000
            && (!Called(end.calls, s.nm.next) ==>
                  (s.nm.next in end.nm.live <==> end.nm.now < s.nm.now + 120 * 1_000_000_000))
  {
    var s := Exec(s0, before);
    var s1 := Next(s, Create(h, outcome));
    InitialInv(s0);
    RunKeepsInv(s0, before);
    CreateOpensWindow(s, h, outcome);
    StepKeepsInv(s, Create(h, outcome));
    RunKeepsOrigin(s1, after, s.nm.next);
    RunKeepsInv(s1, after);
    RunKeepsSpentIsCalled(s0, before);
    OtherKeepsSpentIsCalled(s, Create(h, outcome));
    RunKeepsSpentIsCalled(s1, after);
  }

  /** The checkpoint of a handler that has taken its token is live exactly before its expiry. */
  lemma TakenIsLive(s: State, run: seq<Step>, h: nat)
    requires Inv(s) && IsRun(s, run)
    requires h in Exec(s, run).handlers && Exec(s, run).handlers[h].Settling?
    requires Exec(s, run).handlers[h].cp in s.origin
    ensures var end := Exec(s, run);
            var cp := end.handlers[h].cp;
            cp in end.nm.live <==> end.nm.now < s.origin[cp].checkpoint.expiry
  {
    RunKeepsOrigin(s, run, Exec(s, run).handlers[h].cp);
    RunKeepsInv(s, run);
  }
}
