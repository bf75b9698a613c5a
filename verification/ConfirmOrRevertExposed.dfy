/** What foreign writes amount to: a run has one exactly if at some point of it a confirmation can
    make permanent something else than was asked, with no further foreign write. */
module ConfirmOrRevertExposed {
  import opened NetworkConfig
  import opened NetworkManager
  import opened ConfirmOrRevert
  import opened ConfirmOrRevertSafety
  import opened ConfirmOrRevertScope
  import opened ConfirmOrRevertRequests

  /** The device under cp is not the saved state with what was asked of cp. */
  ghost predicate IsWrong(nm: Nm, origin: map<nat, Origin>, cp: nat) {
    cp in nm.live && cp in origin && nm.live[cp].device in nm.devices && !ShowsRequest(nm, origin, cp)
  }

  /** h is about to confirm a checkpoint, and that would make something wrong permanent. */
  ghost predicate ConfirmsWrongly(s: State, h: nat) {
    h in s.handlers && s.handlers[h].Settling? && s.handlers[h].confirm && IsWrong(s.nm, s.origin, s.handlers[h].cp)
  }

  ghost predicate LeadsToWrong(s: State, more: seq<Step>, h: nat) {
    IsRun(s, more) && AllOwn(s, more) && ConfirmsWrongly(Exec(s, more), h)
  }

  /** Some continuation without a foreign write comes to such a confirmation. */
  ghost predicate Exposed(s: State) {
    exists more, h :: LeadsToWrong(s, more, h)
  }

  lemma ExposedNow(s: State, h: nat)
    requires ConfirmsWrongly(s, h)
    ensures Exposed(s)
  {
    assert LeadsToWrong(s, [], h);
  }

  lemma ExposedNext(s: State, step: Step)
    requires Enabled(s, step) && !Foreign(s, step) && Exposed(Next(s, step))
    ensures Exposed(s)
  {
    var more, h :| LeadsToWrong(Next(s, step), more, h);
    assert ([step] + more)[1..] == more;
    assert LeadsToWrong(s, [step] + more, h);
  }

  // ---- there is always a next handler and a next token ----

  lemma {:induction false} FreshHandler(taken: set<nat>) returns (h: nat)
    ensures forall k :: k in taken ==> k < h
  {
    if taken == {} {
      h := 0;
    } else {
      var k :| k in taken;
      var bound := FreshHandler(taken - {k});
      h := if k < bound then bound else k + 1;
      assert forall j :: j in taken ==> j == k || j in taken - {k};
    }
  }

  lemma {:induction false} FreshToken(taken: set<string>) returns (token: string)
    ensures forall t :: t in taken ==> |t| < |token|
  {
    if taken == {} {
      token := "";
    } else {
      var t :| t in taken;
      var bound := FreshToken(taken - {t});
      token := if |t| < |bound| then bound else t + "x";
      assert forall u :: u in taken ==> u == t || u in taken - {t};
    }
  }

  // ---- from something wrong to its confirmation ----

  lemma TakingConfirms(s: State, token: string, h: nat)
    requires h !in s.handlers && token in s.pending && s.nm.now <= s.pending[token].deadline
    requires IsWrong(s.nm, s.origin, s.pending[token].checkpoint)
    ensures ConfirmsWrongly(Next(s, Take(h, token, true)), h)
  {
  }

  /** A pending token whose change is wrong: it may come in to be confirmed. */
  lemma WrongTokenExposes(s: State, token: string)
    requires Alive(s) && Agrees(s) && token in s.pending
    requires IsWrong(s.nm, s.origin, s.pending[token].checkpoint)
    ensures Exposed(s)
  {
    var h := FreshHandler(s.handlers.Keys);
    TakingConfirms(s, token, h);
    ExposedNow(Next(s, Take(h, token, true)), h);
    ExposedNext(s, Take(h, token, true));
  }

  lemma IssuingPends(s: State, k: nat, token: string)
    requires InPhase(s, k) && s.handlers[k].phase.Activated? && token !in s.issued
    requires IsWrong(s.nm, s.origin, s.handlers[k].cp)
    ensures var s' := Next(s, Issue(k, token, ""));
            token in s'.pending && IsWrong(s'.nm, s'.origin, s'.pending[token].checkpoint)
  {
  }

  /** A change in force that is wrong: it may get its token. */
  lemma WrongActivatedExposes(s: State, k: nat)
    requires Inv(s) && InPhase(s, k) && s.handlers[k].phase.Activated?
    requires IsWrong(s.nm, s.origin, s.handlers[k].cp)
    ensures Exposed(s)
  {
    var token := FreshToken(s.issued.Keys);
    var step := Issue(k, token, "");
    IssuingPends(s, k, token);
    StepKeepsInv(s, step);
    WrongTokenExposes(Next(s, step), token);
    ExposedNext(s, step);
  }

  lemma ActivatingStaysWrong(s: State, k: nat)
    requires Alive(s) && HandlersAgree(s) && InPhase(s, k) && s.handlers[k].phase.Updated?
    requires s.handlers[k].cp in s.nm.live && s.handlers[k].cp in s.origin
    requires !HandlerShows(s.nm, s.origin, s.handlers[k])
    ensures var s' := Next(s, Activate(k, Delivered));
            && InPhase(s', k) && s'.handlers[k].phase.Activated?
            && IsWrong(s'.nm, s'.origin, s'.handlers[k].cp)
    ensures Covers(s.nm, s.handlers[k].cp, s.handlers[k].device)
  {
  }

  /** A stored profile that is wrong: it may be brought into force. */
  lemma WrongUpdatedExposes(s: State, k: nat)
    requires Inv(s) && InPhase(s, k) && s.handlers[k].phase.Updated? && s.handlers[k].cp in s.nm.live
    requires !HandlerShows(s.nm, s.origin, s.handlers[k])
    ensures Exposed(s)
  {
    var step := Activate(k, Delivered);
    ActivatingStaysWrong(s, k);
    OwnCoverIsOwn(s, step);
    StepKeepsInv(s, step);
    WrongActivatedExposes(Next(s, step), k);
    ExposedNext(s, step);
  }

  /** A handler whose device is not what its phase says. */
  lemma WrongHandlerIs(s: State, k: nat)
    requires Alive(s) && HandlersAgree(s) && k in s.handlers && !HandlerShows(s.nm, s.origin, s.handlers[k])
    ensures !s.handlers[k].Started? && s.handlers[k].cp in s.nm.live && s.handlers[k].cp in s.origin
    ensures s.handlers[k].Settling? ==> ConfirmsWrongly(s, k)
    ensures s.handlers[k].Applying? ==>
      InPhase(s, k) && (s.handlers[k].phase.Updated? || s.handlers[k].phase.Activated?)
    ensures s.handlers[k].Applying? && s.handlers[k].phase.Activated? ==>
      IsWrong(s.nm, s.origin, s.handlers[k].cp)
  {
  }

  lemma WrongHandlerExposes(s: State, k: nat)
    requires Inv(s) && k in s.handlers && !HandlerShows(s.nm, s.origin, s.handlers[k])
    ensures Exposed(s)
  {
    WrongHandlerIs(s, k);
    if s.handlers[k].Settling? {
      ExposedNow(s, k);
    } else if s.handlers[k].phase.Updated? {
      WrongUpdatedExposes(s, k);
    } else {
      WrongActivatedExposes(s, k);
    }
  }

  lemma ShownConfirmsRightly(s: State, h: nat)
    requires HandlersShow(s)
    ensures !ConfirmsWrongly(s, h)
  {
    if h in s.handlers {
      assert HandlerShows(s.nm, s.origin, s.handlers[h]);
    }
  }

  /** As long as the devices show what the phases say, nothing wrong can be confirmed. */
  lemma ShownIsNotExposed(s: State, base: map<string, DeviceState>)
    requires Inv(s) && Scoped(s, base) && AllShow(s)
    ensures !Exposed(s)
  {
    if more, h :| LeadsToWrong(s, more, h) {
      ShownFrom(s, more, base);
      ShownAtEnd(s, more);
      ShownConfirmsRightly(Exec(s, more), h);
    }
  }

  /** And otherwise something can. */
  lemma ExposedIffNotShown(s: State, base: map<string, DeviceState>)
    requires Inv(s) && Scoped(s, base)
    ensures Exposed(s) <==> !AllShow(s)
  {
    if AllShow(s) {
      ShownIsNotExposed(s, base);
    } else if k :| k in s.handlers && !HandlerShows(s.nm, s.origin, s.handlers[k]) {
      WrongHandlerExposes(s, k);
    } else {
      var t :| t in s.pending && !ShowsRequest(s.nm, s.origin, s.pending[t].checkpoint);
      WrongTokenExposes(s, t);
    }
  }

  /** No state of the run is exposed. */
  ghost predicate NeverExposed(s: State, run: seq<Step>)
    requires IsRun(s, run)
    decreases |run|
  {
    !Exposed(s) && (run != [] ==> NeverExposed(Next(s, run[0]), run[1..]))
  }

  lemma {:induction false} NeverExposedFrom(s: State, run: seq<Step>, base: map<string, DeviceState>)
    requires Inv(s) && Scoped(s, base) && IsRun(s, run)
    ensures NeverExposed(s, run) <==> AllShown(s, run)
    decreases |run|
  {
    ExposedIffNotShown(s, base);
    if run != [] {
      StepKeepsInv(s, run[0]);
      StepStaysScoped(s, run[0], base);
      NeverExposedFrom(Next(s, run[0]), run[1..], base);
    }
  }

  /** The exact condition for confirmations to be right: a run has no foreign write if and only
      if at no point of it some continuation without foreign writes confirms a device that is
      not its saved state with exactly the requested section rewritten. */
  lemma OwnIffNeverExposed(s: State, run: seq<Step>)
    requires Initial(s) && IsRun(s, run)
    ensures AllOwn(s, run) <==> NeverExposed(s, run)
  {
    InitialInv(s);
    RunShowsIffOwn(s, run);
    NeverExposedFrom(s, run, s.nm.devices);
  }
}
