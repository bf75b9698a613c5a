/** The GPIO service: SetLine and ReleaseLine under the mutex, ReadLine mostly outside it, and
    the inventory. Every call is proved to be a run of the step system in GpioLines, with
    readers and other processes acting between its kernel calls. */
module GpioService {
  import opened Options
  import opened Sequences
  import opened GpioLines

  datatype SetError = WritesDisabled | InvalidChip | KernelError

  /** What the inventory shows of one line; the value is -1 when unknown. */
  datatype Row = Row(heldByUs: bool, value: int)

  /** A state some run of the system leads to. */
  ghost predicate Reached(s: State) {
    exists s0, run :: Initial(s0) && IsRun(s0, run) && Exec(s0, run) == s
  }

  lemma ReachedInv(s: State)
    requires Reached(s)
    ensures Inv(s)
  {
    var s0, run :| Initial(s0) && IsRun(s0, run) && Exec(s0, run) == s;
    ReachableInv(s0, run);
  }

  lemma ReachedOn(s: State, run: seq<Step>)
    requires Reached(s) && IsRun(s, run)
    ensures Reached(Exec(s, run))
  {
    var s0, before :| Initial(s0) && IsRun(s0, before) && Exec(s0, before) == s;
    RunAppend(s0, before, run);
  }

  /** What `held` says about one line in a reached state. */
  lemma KernelAgrees(s: State, k: string)
    requires Reached(s) && Recorded(s)
    ensures k in s.held ==>
      k !in s.lastRead && k in s.lines && s.lines[k] == Ours(s.held[k].fd, true, s.held[k].value)
    ensures k !in s.held ==> !(k in s.lines && s.lines[k].Ours? && s.lines[k].output)
  {
    ReachedInv(s);
  }

  lemma ReaderOwns(s: State, t: nat)
    requires Reached(s) && t in s.readers
    ensures Owns(s.lines, s.readers[t].key, s.readers[t].fd, false)
    ensures Recorded(s) ==> s.readers[t].key !in s.held
    ensures CloseFd(s.lines, s.readers[t].fd) == s.lines - {s.readers[t].key}
  {
    ReachedInv(s);
    assert Owns(s.lines, s.readers[t].key, s.readers[t].fd, false);
  }

  lemma RunDisjoint(s: State, run: seq<Step>)
    requires Reached(s) && IsRun(s, run)
    ensures Exec(s, run).held.Keys !! Exec(s, run).lastRead.Keys
  {
    ReachedOn(s, run);
    ReachedInv(Exec(s, run));
  }

  /** One more step of t on a run. */
  lemma Record(start: State, run: seq<Step>, step: Step, t: nat)
    requires IsRun(start, run) && Enabled(Exec(start, run), step) && By(step, t)
    ensures IsRun(start, run + [step]) && Exec(start, run + [step]) == Next(Exec(start, run), step)
    ensures StepsOf(run + [step], t) == StepsOf(run, t) + [step]
  {
    OneStepRun(Exec(start, run), step);
    RunAppend(start, run, [step]);
    FilterKeepsLast(run, step, IsOf(t));
  }

  /** Steps of the others on a run. */
  lemma Pass(start: State, run: seq<Step>, others: seq<Step>, t: nat)
    requires IsRun(start, run) && IsRun(Exec(start, run), others) && Others(others, t)
    ensures IsRun(start, run + others) && Exec(start, run + others) == Exec(Exec(start, run), others)
    ensures StepsOf(run + others, t) == StepsOf(run, t)
  {
    RunAppend(start, run, others);
    FilterDropsRest(run, others, IsOf(t));
  }

  /** The kernel call of a SetLine. */
  function SetCall(t: nat, held: bool, fd: nat, done: bool): Step {
    if !done then SetFails(t) else if held then DriveHeld(t) else RequestOutput(t, fd)
  }

  /** The part of a run that is t's own in a SetLine. */
  function SetSteps(t: nat, key: string, value: int, held: bool, fd: nat, done: bool): seq<Step> {
    [LockSet(t, key, value)] + [SetCall(t, held, fd, done)] + if done then [StoreSet(t)] else []
  }

  function ReleaseSteps(t: nat, key: string, held: bool): seq<Step> {
    [LockRelease(t, key)] + if held then [CloseHeld(t), ForgetHeld(t)] else [ReleaseNothing(t)]
  }

  /** In a ReadLine that got the line: the handle is closed whatever happened in between. */
  function ReadSteps(t: nat, key: string, fd: nat, ok: bool, value: int): seq<Step> {
    [RequestInput(t, key, fd)]
    + (if ok then [GetValue(t, value), LockRead(t), StoreRead(t)] else [GetFails(t)])
    + [CloseInput(t)]
  }

  class Service {
    const writable: bool
    var held: map<string, Held>
    var lastRead: map<string, int>
    var lines: map<string, Owner>  // the kernel's table
    var readers: map<nat, Reader>  // the calls of ReadLine in progress
    var critical: Critical  // the mutex

    function Abs(): State
      reads this
    {
      State(lines, held, lastRead, readers, critical)
    }

    constructor (writable: bool, lines: map<string, Owner>)
      requires forall k :: k in lines ==> lines[k].Other?
      ensures Initial(Abs()) && this.writable == writable && this.lines == lines
    {
      this.writable := writable;
      this.lines := lines;
      held, lastRead, readers, critical := map[], map[], map[], Free;
    }

    /** Readers, other threads and other processes act. */
    method Interleave(t: nat) returns (ghost others: seq<Step>)
      modifies this
      ensures IsRun(old(Abs()), others) && Abs() == Exec(old(Abs()), others) && Others(others, t)
    {
      others := [];
    }

    /** While t holds the mutex the others may act between its kernel calls, but cannot touch
        what it relies on. */
    method Yield(t: nat, ghost start: State, ghost run: seq<Step>) returns (ghost longer: seq<Step>)
      requires Reached(start) && IsRun(start, run) && Abs() == Exec(start, run)
      requires Inside(critical, t)
      modifies this
      ensures IsRun(start, longer) && Abs() == Exec(start, longer) && run <= longer
      ensures StepsOf(longer, t) == StepsOf(run, t)
      ensures Frozen(old(Abs()), Abs(), t)
    {
      ghost var others := Interleave(t);
      ReachedOn(start, run);
      ReachedInv(Exec(start, run));
      RunIsFrozen(Exec(start, run), others, t);
      Pass(start, run, others, t);
      longer := run + others;
    }

    /** Outside the mutex the others may do anything but touch t's open line. */
    method Elsewhere(t: nat, ghost start: State, ghost run: seq<Step>) returns (ghost longer: seq<Step>)
      requires Reached(start) && IsRun(start, run) && Abs() == Exec(start, run)
      requires !Inside(critical, t) && t in readers
      modifies this
      ensures IsRun(start, longer) && Abs() == Exec(start, longer)
      ensures StepsOf(longer, t) == StepsOf(run, t)
      ensures !Inside(critical, t) && Undisturbed(old(Abs()), Abs(), t)
    {
      ghost var others := Interleave(t);
      ReachedOn(start, run);
      ReachedInv(Exec(start, run));
      RunLeavesReader(Exec(start, run), others, t);
      RunStaysOutside(Exec(start, run), others, t);
      Pass(start, run, others, t);
      longer := run + others;
    }

    /** Lock: the others act until the mutex is free. */
    method AwaitMutex(t: nat, ghost start: State, ghost run: seq<Step>) returns (ghost longer: seq<Step>)
      requires Reached(start) && IsRun(start, run) && Abs() == Exec(start, run)
      requires !Inside(critical, t) && t in readers
      modifies this
      ensures IsRun(start, longer) && Abs() == Exec(start, longer) && critical.Free?
      ensures StepsOf(longer, t) == StepsOf(run, t)
      ensures Undisturbed(old(Abs()), Abs(), t)
    {
      ReachedOn(start, run);
      ReachedInv(Exec(start, run));
      MutexComesFree(Exec(start, run));
      ghost var others := Rest(Exec(start, run));
      RunLeavesReader(Exec(start, run), others, t);
      Pass(start, run, others, t);
      longer := run + others;
      var s := Exec(Abs(), Rest(Abs()));
      lines, held, lastRead, readers, critical := s.lines, s.held, s.lastRead, s.readers, s.critical;
    }

    // ---- SetLine ----

    /** The end of a SetLine that failed. */
    method GiveUp(t: nat, ghost start: State, ghost before: seq<Step>) returns (ghost run: seq<Step>)
      requires IsRun(start, before) && Abs() == Exec(start, before)
      requires critical.Setting? && critical.t == t
      modifies this`critical
      ensures IsRun(start, run) && Abs() == Exec(start, run) && critical.Free?
      ensures StepsOf(run, t) == StepsOf(before, t) + [SetFails(t)] && before + [SetFails(t)] <= run
    {
      Record(start, before, SetFails(t), t);
      critical, run := Free, before + [SetFails(t)];
    }

    /** SetLine on a line already held: change the value behind its handle. */
    method SetHeld(t: nat, k: string, bit: int, ok: bool, ghost start: State, ghost before: seq<Step>)
      returns (ghost run: seq<Step>)
      requires Reached(start) && IsRun(start, before) && Abs() == Exec(start, before)
      requires critical == Setting(t, k, bit) && k in held
      modifies this
      ensures IsRun(start, run) && Abs() == Exec(start, run) && critical.Free?
      ensures StepsOf(run, t) == StepsOf(before, t) + if ok then [DriveHeld(t), StoreSet(t)] else [SetFails(t)]
      ensures lastRead == old(lastRead) && before + [SetCall(t, true, 0, ok)] <= run
      ensures held == if ok then old(held)[k := Held(old(held)[k].fd, bit)] else old(held)
      ensures !ok ==> lines == old(lines)
    {
      if ok {
        Record(start, before, DriveHeld(t), t);
        lines, critical := DriveFd(lines, held[k].fd, bit), Driven(t, k, bit);
        run := StoreDriven(t, k, bit, start, before + [DriveHeld(t)]);
      } else {
        run := GiveUp(t, start, before);
      }
    }

    /** The rest of SetHeld, once the kernel has changed the value. */
    method StoreDriven(t: nat, k: string, bit: int, ghost start: State, ghost before: seq<Step>)
      returns (ghost run: seq<Step>)
      requires Reached(start) && IsRun(start, before) && Abs() == Exec(start, before)
      requires critical == Driven(t, k, bit) && k in held
      modifies this
      ensures IsRun(start, run) && Abs() == Exec(start, run) && critical.Free?
      ensures StepsOf(run, t) == StepsOf(before, t) + [StoreSet(t)]
      ensures lastRead == old(lastRead) && before <= run
      ensures held == old(held)[k := Held(old(held)[k].fd, bit)]
    {
      run := Yield(t, start, before);
      Record(start, run, StoreSet(t), t);
      held, critical, run := held[k := held[k].(value := bit)], Free, run + [StoreSet(t)];
    }

    /** SetLine on a line not held: request it as output, hold it, forget its last read. */
    method SetFree(t: nat, k: string, bit: int, ok: bool, fd: nat, ghost start: State, ghost before: seq<Step>)
      returns (done: bool, ghost run: seq<Step>)
      requires Reached(start) && IsRun(start, before) && Abs() == Exec(start, before)
      requires critical == Setting(t, k, bit) && k !in held
      modifies this
      ensures IsRun(start, run) && Abs() == Exec(start, run) && critical.Free?
      ensures done <==> ok && k !in old(lines) && !OpenFd(old(lines), fd)
      ensures StepsOf(run, t) ==
        StepsOf(before, t) + if done then [RequestOutput(t, fd), StoreSet(t)] else [SetFails(t)]
      ensures held == if done then old(held)[k := Held(fd, bit)] else old(held)
      ensures lastRead == if done then old(lastRead) - {k} else old(lastRead)
      ensures (!done ==> lines == old(lines)) && before + [SetCall(t, false, fd, done)] <= run
    {
      done := ok && k !in lines && !OpenFd(lines, fd);
      if done {
        Record(start, before, RequestOutput(t, fd), t);
        lines, critical := lines[k := Ours(fd, true, bit)], Granted(t, k, bit, fd);
        run := HoldGranted(t, k, bit, fd, start, before + [RequestOutput(t, fd)]);
      } else {
        run := GiveUp(t, start, before);
      }
    }

    /** The rest of SetFree, once the kernel has granted the line. */
    method HoldGranted(t: nat, k: string, bit: int, fd: nat, ghost start: State, ghost before: seq<Step>)
      returns (ghost run: seq<Step>)
      requires Reached(start) && IsRun(start, before) && Abs() == Exec(start, before)
      requires critical == Granted(t, k, bit, fd)
      modifies this
      ensures IsRun(start, run) && Abs() == Exec(start, run) && critical.Free?
      ensures StepsOf(run, t) == StepsOf(before, t) + [StoreSet(t)] && before <= run
      ensures held == old(held)[k := Held(fd, bit)] && lastRead == old(lastRead) - {k}
    {
      run := Yield(t, start, before);
      Record(start, run, StoreSet(t), t);
      held, lastRead, critical, run := held[k := Held(fd, bit)], lastRead - {k}, Free, run + [StoreSet(t)];
    }

    method LockToSet(t: nat, k: string, value: int, bit: int) returns (ghost run: seq<Step>)
      requires Reached(Abs()) && critical.Free? && bit == Bit(value)
      modifies this
      ensures IsRun(old(Abs()), run) && Abs() == Exec(old(Abs()), run)
      ensures critical == Setting(t, k, bit) && held == old(held) && lastRead == old(lastRead)
      ensures SameOutputs(old(lines), lines)
      ensures StepsOf(run, t) == [LockSet(t, k, value)]
    {
      ghost var start := Abs();
      Record(start, [], LockSet(t, k, value), t);
      critical := Setting(t, k, bit);
      run := Yield(t, start, [] + [LockSet(t, k, value)]);
    }

    /** SetLine under the mutex: as it takes the mutex, then the rest. `asked` is the run up to
        the kernel call. */
    method SetLocked(t: nat, k: string, value: int, ok: bool, fd: nat)
      returns (done: bool, ghost asked: seq<Step>, ghost run: seq<Step>)
      requires Reached(Abs()) && critical.Free?
      modifies this
      ensures IsRun(old(Abs()), run) && Abs() == Exec(old(Abs()), run) && critical.Free?
      ensures StepsOf(run, t) == SetSteps(t, k, value, k in old(held), fd, done)
      ensures IsRun(old(Abs()), asked) && StepsOf(asked, t) == [LockSet(t, k, value)]
      ensures asked + [SetCall(t, k in old(held), fd, done)] <= run
      ensures k in old(held) ==> done == ok
      ensures k !in old(held) ==>
        (done <==> ok && k !in Exec(old(Abs()), asked).lines && !OpenFd(Exec(old(Abs()), asked).lines, fd))
      ensures !done ==>
        held == old(held) && lastRead == old(lastRead) && SameOutputs(old(lines), lines)
      ensures done ==> held == old(held)[k := Held(if k in old(held) then old(held)[k].fd else fd, Bit(value))]
      ensures done ==> lastRead == old(lastRead) - if k in old(held) then {} else {k}
    {
      var bit := if value != 0 then 1 else 0;
      ghost var start := Abs();
      asked := LockToSet(t, k, value, bit);
      if k in held {
        done := ok;
        run := SetHeld(t, k, bit, ok, start, asked);
      } else {
        done, run := SetFree(t, k, bit, ok, fd, start, asked);
      }
    }

    /** SetLine: drives a held line, or requests a free one as output and holds it. `ok` says
        whether the device opens and the ioctl succeeds; `fd` is what the kernel would hand out.
        A held line fails exactly if the ioctl does, any other also if the kernel has given the
        line away when it is asked, `asked` being the run up to that call. A failure leaves both
        maps and every output alone; success leaves the kernel driving what is recorded. */
    method SetLine(t: nat, chip: string, off: nat, value: int, ok: bool, fd: nat)
      returns (err: Option<SetError>, ghost asked: seq<Step>, ghost run: seq<Step>)
      requires Reached(Abs()) && critical.Free?
      modifies this
      ensures IsRun(old(Abs()), run) && Abs() == Exec(old(Abs()), run) && critical.Free?
      ensures IsRun(old(Abs()), asked)
      ensures writable && ValidChip(chip) ==>
        && StepsOf(asked, t) == [LockSet(t, Key(chip, off), value)]
        && asked + [SetCall(t, Key(chip, off) in old(held), fd, err.None?)] <= run
      ensures err == Some(WritesDisabled) <==> !writable
      ensures err == Some(InvalidChip) <==> writable && !ValidChip(chip)
      ensures !writable || !ValidChip(chip) ==> run == []
      ensures writable && ValidChip(chip) ==>
        StepsOf(run, t) == SetSteps(t, Key(chip, off), value, Key(chip, off) in old(held), fd, err.None?)
      ensures writable && ValidChip(chip) && Key(chip, off) in old(held) ==>
        (err == Some(KernelError) <==> !ok)
      ensures writable && ValidChip(chip) && Key(chip, off) !in old(held) ==>
        var met := Exec(old(Abs()), asked).lines;
        (err == Some(KernelError) <==> !ok || Key(chip, off) in met || OpenFd(met, fd))
      ensures err.Some? ==>
        held == old(held) && lastRead == old(lastRead) && SameOutputs(old(lines), lines)
      ensures err.None? ==>
        var k := Key(chip, off);
        && k in held && held == old(held)[k := held[k]]
        && held[k].fd == (if k in old(held) then old(held)[k].fd else fd)
        && lastRead == old(lastRead) - {k}
        && k in lines && lines[k] == Ours(held[k].fd, true, held[k].value)
        && (value != 0 ==> held[k].value == 1) && (value == 0 ==> held[k].value == 0)
    {
      run, asked := [], [];
      if !writable {
        return Some(WritesDisabled), asked, run;
      }
      if !ValidChip(chip) {
        return Some(InvalidChip), asked, run;
      }
      var k := Key(chip, off);
      ghost var start := Abs();
      KernelAgrees(start, k);
      var done: bool;
      done, asked, run := SetLocked(t, k, value, ok, fd);
      ReachedOn(start, run);
      KernelAgrees(Abs(), k);
      err := if done then None else Some(KernelError);
    }

    // ---- ReleaseLine ----

    /** ReleaseLine on a held line. */
    method ReleaseHeld(t: nat, k: string, ghost start: State, ghost before: seq<Step>)
      returns (ghost run: seq<Step>)
      requires Reached(start) && IsRun(start, before) && Abs() == Exec(start, before)
      requires critical == Releasing(t, k) && k in held
      modifies this
      ensures IsRun(start, run) && Abs() == Exec(start, run) && critical.Free?
      ensures StepsOf(run, t) == StepsOf(before, t) + [CloseHeld(t), ForgetHeld(t)]
      ensures held == old(held) - {k} && lastRead == old(lastRead)
    {
      Record(start, before, CloseHeld(t), t);
      lines, critical := CloseFd(lines, held[k].fd), Closed(t, k);
      run := ForgetClosed(t, k, start, before + [CloseHeld(t)]);
    }

    /** The rest of ReleaseHeld, once the handle is closed. */
    method ForgetClosed(t: nat, k: string, ghost start: State, ghost before: seq<Step>)
      returns (ghost run: seq<Step>)
      requires Reached(start) && IsRun(start, before) && Abs() == Exec(start, before)
      requires critical == Closed(t, k)
      modifies this
      ensures IsRun(start, run) && Abs() == Exec(start, run) && critical.Free?
      ensures StepsOf(run, t) == StepsOf(before, t) + [ForgetHeld(t)]
      ensures held == old(held) - {k} && lastRead == old(lastRead)
    {
      run := Yield(t, start, before);
      Record(start, run, ForgetHeld(t), t);
      held, critical, run := held - {k}, Free, run + [ForgetHeld(t)];
    }

    /** ReleaseLine on a line that is not held. */
    method ReleaseUnheld(t: nat, k: string, ghost start: State, ghost before: seq<Step>)
      returns (ghost run: seq<Step>)
      requires IsRun(start, before) && Abs() == Exec(start, before)
      requires critical == Releasing(t, k) && k !in held
      modifies this`critical
      ensures IsRun(start, run) && Abs() == Exec(start, run) && critical.Free?
      ensures StepsOf(run, t) == StepsOf(before, t) + [ReleaseNothing(t)]
    {
      Record(start, before, ReleaseNothing(t), t);
      critical, run := Free, before + [ReleaseNothing(t)];
    }

    method LockToRelease(t: nat, k: string) returns (ghost run: seq<Step>)
      requires Reached(Abs()) && critical.Free?
      modifies this
      ensures IsRun(old(Abs()), run) && Abs() == Exec(old(Abs()), run)
      ensures critical == Releasing(t, k) && held == old(held) && lastRead == old(lastRead)
      ensures StepsOf(run, t) == [LockRelease(t, k)]
    {
      ghost var start := Abs();
      Record(start, [], LockRelease(t, k), t);
      critical := Releasing(t, k);
      run := Yield(t, start, [] + [LockRelease(t, k)]);
    }

    /** ReleaseLine: closes the handle and forgets the line; a line not held is left alone. */
    method ReleaseLine(t: nat, chip: string, off: nat) returns (ghost run: seq<Step>)
      requires Reached(Abs()) && critical.Free?
      modifies this
      ensures IsRun(old(Abs()), run) && Abs() == Exec(old(Abs()), run) && critical.Free?
      ensures StepsOf(run, t) == ReleaseSteps(t, Key(chip, off), Key(chip, off) in old(held))
      ensures held == old(held) - {Key(chip, off)} && lastRead == old(lastRead)
      ensures Key(chip, off) in lines && lines[Key(chip, off)].Ours? ==> !lines[Key(chip, off)].output
    {
      var k := Key(chip, off);
      ghost var start := Abs();
      run := LockToRelease(t, k);
      if k in held {
        run := ReleaseHeld(t, k, start, run);
      } else {
        run := ReleaseUnheld(t, k, start, run);
      }
      ReachedOn(start, run);
      KernelAgrees(Abs(), k);
    }

    // ---- ReadLine: its third piece alone is under the mutex ----

    method ReadRequest(t: nat, chip: string, off: nat, ok: bool, fd: nat) returns (open: bool, ghost run: seq<Step>)
      requires Reached(Abs()) && t !in readers
      modifies this`lines, this`readers
      ensures IsRun(old(Abs()), run) && Abs() == Exec(old(Abs()), run)
      ensures open <==> ValidChip(chip) && ok && Key(chip, off) !in old(lines) && !OpenFd(old(lines), fd)
      ensures !open ==> run == [] && Abs() == old(Abs())
      ensures open ==> StepsOf(run, t) == [RequestInput(t, Key(chip, off), fd)]
      ensures open ==> readers == old(readers)[t := Reader(Key(chip, off), fd, Requested)]
    {
      var k := Key(chip, off);
      run := [];
      open := ValidChip(chip) && ok && k !in lines && !OpenFd(lines, fd);
      if open {
        Record(Abs(), [], RequestInput(t, k, fd), t);
        run := [] + [RequestInput(t, k, fd)];
        lines := lines[k := Ours(fd, false, 0)];
        readers := readers[t := Reader(k, fd, Requested)];
      }
    }

    method ReadValue(t: nat, ok: bool, value: int, ghost start: State, ghost before: seq<Step>)
      returns (v: Option<int>, ghost run: seq<Step>)
      requires IsRun(start, before) && Abs() == Exec(start, before)
      requires t in readers && readers[t].stage.Requested?
      modifies this`readers
      ensures IsRun(start, run) && Abs() == Exec(start, run)
      ensures StepsOf(run, t) == StepsOf(before, t) + [if ok then GetValue(t, value) else GetFails(t)]
      ensures v == if ok then Some(value) else None
      ensures readers == old(readers)[t := old(readers)[t].(stage := if ok then Got(value) else Closing)]
    {
      v := if ok then Some(value) else None;
      ghost var step := if ok then GetValue(t, value) else GetFails(t);
      Record(start, before, step, t);
      run := before + [step];
      readers := readers[t := readers[t].(stage := if ok then Got(value) else Closing)];
    }

    method ReadStore(t: nat, k: string, v: int, ghost start: State, ghost before: seq<Step>)
      returns (ghost run: seq<Step>)
      requires Reached(start) && IsRun(start, before) && Abs() == Exec(start, before)
      requires critical.Free? && t in readers && readers[t].key == k && readers[t].stage == Got(v)
      modifies this
      ensures IsRun(start, run) && Abs() == Exec(start, run) && critical.Free?
      ensures StepsOf(run, t) == StepsOf(before, t) + [LockRead(t), StoreRead(t)]
      ensures lastRead == old(lastRead)[k := v] && held == old(held) && k !in held
      ensures t in readers && readers[t] == old(readers)[t].(stage := Closing)
    {
      ReachedOn(start, before);
      ReaderOwns(Abs(), t);
      Record(start, before, LockRead(t), t);
      critical := Reading(t);
      run := StoreLocked(t, k, v, start, before + [LockRead(t)]);
    }

    /** The rest of ReadStore, under the mutex. */
    method StoreLocked(t: nat, k: string, v: int, ghost start: State, ghost before: seq<Step>)
      returns (ghost run: seq<Step>)
      requires Reached(start) && IsRun(start, before) && Abs() == Exec(start, before)
      requires critical == Reading(t) && t in readers && readers[t].key == k && readers[t].stage == Got(v)
      modifies this
      ensures IsRun(start, run) && Abs() == Exec(start, run) && critical.Free?
      ensures StepsOf(run, t) == StepsOf(before, t) + [StoreRead(t)]
      ensures lastRead == old(lastRead)[k := v] && held == old(held)
      ensures t in readers && readers[t] == old(readers)[t].(stage := Closing)
    {
      run := Yield(t, start, before);
      Record(start, run, StoreRead(t), t);
      lastRead := lastRead[k := v];
      readers := readers[t := readers[t].(stage := Closing)];
      critical, run := Free, run + [StoreRead(t)];
    }

    method ReadClose(t: nat, fd: nat, ghost start: State, ghost before: seq<Step>) returns (ghost run: seq<Step>)
      requires Reached(start) && IsRun(start, before) && Abs() == Exec(start, before)
      requires t in readers && readers[t].stage.Closing? && readers[t].fd == fd
      modifies this`lines, this`readers
      ensures IsRun(start, run) && Abs() == Exec(start, run)
      ensures StepsOf(run, t) == StepsOf(before, t) + [CloseInput(t)]
      ensures lines == old(lines) - {old(readers)[t].key} && readers == old(readers) - {t}
    {
      Record(start, before, CloseInput(t), t);
      ReachedOn(start, before);
      ReaderOwns(Abs(), t);
      run := before + [CloseInput(t)];
      lines := CloseFd(lines, fd);
      readers := readers - {t};
    }

    /** ReadLine from its request to the value: the others act, then the kernel answers. */
    method ReadGot(t: nat, k: string, fd: nat, ok: bool, value: int, ghost start: State, ghost before: seq<Step>)
      returns (v: Option<int>, ghost run: seq<Step>)
      requires Reached(start) && IsRun(start, before) && Abs() == Exec(start, before)
      requires t in readers && readers[t] == Reader(k, fd, Requested) && !Inside(critical, t)
      modifies this
      ensures IsRun(start, run) && Abs() == Exec(start, run)
      ensures StepsOf(run, t) == StepsOf(before, t) + [if ok then GetValue(t, value) else GetFails(t)]
      ensures v == if ok then Some(value) else None
      ensures t in readers && readers[t] == Reader(k, fd, if ok then Got(value) else Closing)
      ensures !Inside(critical, t)
    {
      run := Elsewhere(t, start, before);
      v, run := ReadValue(t, ok, value, start, run);
    }

    /** ReadLine from the value to its record: the others act, the mutex comes free, the value
        goes in. */
    method ReadRecorded(t: nat, k: string, fd: nat, v: int, ghost start: State, ghost before: seq<Step>)
      returns (ghost run: seq<Step>)
      requires Reached(start) && IsRun(start, before) && Abs() == Exec(start, before)
      requires t in readers && readers[t] == Reader(k, fd, Got(v)) && !Inside(critical, t)
      modifies this
      ensures IsRun(start, run) && Abs() == Exec(start, run)
      ensures StepsOf(run, t) == StepsOf(before, t) + [LockRead(t), StoreRead(t)]
      ensures t in readers && readers[t] == Reader(k, fd, Closing) && !Inside(critical, t)
      ensures k in lastRead && lastRead[k] == v
    {
      run := Elsewhere(t, start, before);
      run := AwaitMutex(t, start, run);
      run := ReadStore(t, k, v, start, run);
    }

    /** ReadLine from there to its return: the others act, and the deferred close comes last. */
    method ReadEnd(t: nat, k: string, fd: nat, ghost start: State, ghost before: seq<Step>)
      returns (ghost run: seq<Step>)
      requires Reached(start) && IsRun(start, before) && Abs() == Exec(start, before)
      requires t in readers && readers[t] == Reader(k, fd, Closing) && !Inside(critical, t)
      modifies this
      ensures IsRun(start, run) && Abs() == Exec(start, run)
      ensures StepsOf(run, t) == StepsOf(before, t) + [CloseInput(t)]
      ensures t !in readers && k !in lines
      ensures k in old(lastRead) ==> k in lastRead && lastRead[k] == old(lastRead)[k] && k !in held
    {
      run := Elsewhere(t, start, before);
      RunDisjoint(start, run);
      run := ReadClose(t, fd, start, run);
    }

    /** ReadLine once its handle is open. */
    method ReadOpen(t: nat, k: string, fd: nat, gets: bool, value: int, ghost start: State, ghost before: seq<Step>)
      returns (v: Option<int>, ghost run: seq<Step>)
      requires Reached(start) && IsRun(start, before) && Abs() == Exec(start, before)
      requires t in readers && readers[t] == Reader(k, fd, Requested) && !Inside(critical, t)
      modifies this
      ensures IsRun(start, run) && Abs() == Exec(start, run)
      ensures StepsOf(run, t) ==
        StepsOf(before, t) + (if gets then [GetValue(t, value), LockRead(t), StoreRead(t)] else [GetFails(t)])
        + [CloseInput(t)]
      ensures v == if gets then Some(value) else None
      ensures t !in readers
      ensures v.Some? ==> k in lastRead && lastRead[k] == value && k !in held && k !in lines
    {
      v, run := ReadGot(t, k, fd, gets, value, start, before);
      if v.Some? {
        run := ReadRecorded(t, k, fd, value, start, run);
      }
      run := ReadEnd(t, k, fd, start, run);
    }

    /** ReadLine with the others acting between its calls. It succeeds exactly if the line is
        given out and the value comes. Then, however the others act, the value is what is
        recorded about the line at the end, the line is free and not held; and in any case the
        handle is closed. */
    method ReadLine(t: nat, chip: string, off: nat, opens: bool, fd: nat, gets: bool, value: int)
      returns (v: Option<int>, ghost run: seq<Step>)
      requires Reached(Abs()) && t !in readers && !Inside(critical, t)
      modifies this
      ensures IsRun(old(Abs()), run) && Abs() == Exec(old(Abs()), run)
      ensures var open := ValidChip(chip) && opens && Key(chip, off) !in old(lines) && !OpenFd(old(lines), fd);
              && StepsOf(run, t) == (if open then ReadSteps(t, Key(chip, off), fd, gets, value) else [])
              && v == (if open && gets then Some(value) else None)
      ensures t !in readers
      ensures v.Some? ==>
        && Key(chip, off) in lastRead && lastRead[Key(chip, off)] == value
        && Key(chip, off) !in held && Key(chip, off) !in lines
    {
      ghost var start := Abs();
      var open: bool;
      v := None;
      open, run := ReadRequest(t, chip, off, opens, fd);
      if open {
        v, run := ReadOpen(t, Key(chip, off), fd, gets, value, start, run);
      }
    }

    // ---- inventory ----

    /** The loop of Chips, under the mutex. */
    method ViewRows(t: nat, keys: seq<string>, ghost start: State, ghost before: seq<Step>)
      returns (rows: seq<Row>, ghost run: seq<Step>)
      requires Reached(start) && IsRun(start, before) && Abs() == Exec(start, before)
      requires critical == Viewing(t)
      modifies this
      ensures IsRun(start, run) && Abs() == Exec(start, run) && critical == Viewing(t)
      ensures held == old(held) && lastRead == old(lastRead) && |rows| == |keys|
      ensures forall i :: 0 <= i < |keys| ==> rows[i] == RowOf(keys[i])
    {
      rows, run := [], before;
      for i := 0 to |keys|
        invariant IsRun(start, run) && Abs() == Exec(start, run) && critical == Viewing(t)
        invariant held == old(held) && lastRead == old(lastRead) && |rows| == i
        invariant forall j :: 0 <= j < i ==> rows[j] == RowOf(keys[j])
      {
        run := Yield(t, start, run);
        var row := Row(false, -1);
        if keys[i] in held {
          row := Row(true, held[keys[i]].value);
        } else if keys[i] in lastRead {
          row := Row(false, lastRead[keys[i]]);
        }
        rows := rows + [row];
      }
    }

    function RowOf(key: string): Row
      reads this
    {
      if key in held then Row(true, held[key].value)
      else Row(false, if key in lastRead then lastRead[key] else -1)
    }

    /** Chips, for the lines with the given keys: taken line by line under the mutex while
        readers and other processes go on, and still true of every line when it returns. */
    method Chips(t: nat, keys: seq<string>) returns (rows: seq<Row>, ghost run: seq<Step>)
      requires Reached(Abs()) && critical.Free?
      modifies this
      ensures IsRun(old(Abs()), run) && Abs() == Exec(old(Abs()), run) && critical.Free?
      ensures held == old(held) && lastRead == old(lastRead) && |rows| == |keys|
      ensures forall i :: 0 <= i < |keys| ==>
        && (rows[i].heldByUs <==> keys[i] in lines && lines[keys[i]].Ours? && lines[keys[i]].output)
        && rows[i].value == if rows[i].heldByUs then lines[keys[i]].value
                            else if keys[i] in lastRead then lastRead[keys[i]] else -1
    {
      ghost var start := Abs();
      Record(start, [], LockView(t), t);
      critical := Viewing(t);
      rows, run := ViewRows(t, keys, start, [] + [LockView(t)]);
      Record(start, run, UnlockView(t), t);
      critical, run := Free, run + [UnlockView(t)];
      ReachedOn(start, run);
      forall i | 0 <= i < |keys|
        ensures rows[i].heldByUs <==> keys[i] in lines && lines[keys[i]].Ours? && lines[keys[i]].output
        ensures rows[i].heldByUs ==> rows[i].value == lines[keys[i]].value
      {
        KernelAgrees(Abs(), keys[i]);
      }
    }
  }
}
