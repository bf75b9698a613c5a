/** Ownership of GPIO lines as a step system: the kernel's character device, the service's
    `held` and `lastRead` maps behind its mutex, readers that touch the kernel outside it, and
    other processes (internal/gpio/gpio.go). */
module GpioLines {
  import opened Sequences
  import Decimal

  // ---- keys ----

  /** ^gpiochip[0-9]{1,3}$ */
  predicate ValidChip(chip: string) {
    9 <= |chip| <= 11 && chip[..8] == "gpiochip" && Decimal.AllDigits(chip[8..])
  }

  function Key(chip: string, off: nat): string {
    chip + ":" + Decimal.Render(off)
  }

  /** The chips that are let through: the fixed word and one to three digits. */
  lemma ChipsAreNumbered(chip: string)
    ensures ValidChip(chip) <==>
      exists digits :: chip == "gpiochip" + digits && 1 <= |digits| <= 3
        && forall i :: 0 <= i < |digits| ==> '0' <= digits[i] <= '9'
  {
    if ValidChip(chip) {
      assert chip == "gpiochip" + chip[8..];
      assert forall i :: 0 <= i < |chip[8..]| ==> Decimal.IsDigit(chip[8..][i]);
    }
    if digits :|
      && chip == "gpiochip" + digits && 1 <= |digits| <= 3
      && forall i :: 0 <= i < |digits| ==> '0' <= digits[i] <= '9'
    {
      assert chip[..8] == "gpiochip" && chip[8..] == digits;
    }
  }

  lemma {:induction false} ShortNumber(n: nat, width: nat)
    requires 1 <= width <= 3 && n < (if width == 1 then 10 else if width == 2 then 100 else 1000)
    ensures |Decimal.Render(n)| <= width
  {
    if n >= 10 {
      ShortNumber(n / 10, width - 1);
    }
  }

  /** Every chip of a number below 1000 is let through, and its key is the chip, a colon and
      the offset in decimal. */
  lemma NumberedChipIsValid(n: nat, off: nat)
    requires n < 1000
    ensures ValidChip("gpiochip" + Decimal.Render(n))
    ensures Key("gpiochip" + Decimal.Render(n), off) == "gpiochip" + Decimal.Render(n) + ":" + Decimal.Render(off)
  {
    var digits := Decimal.Render(n);
    ShortNumber(n, 3);
    assert forall i :: 0 <= i < |digits| ==> Decimal.IsDigit(digits[i]);
    ChipsAreNumbered("gpiochip" + digits);
  }

  lemma ColonOnlyAfterChip(chip: string, off: nat, i: nat)
    requires ValidChip(chip) && i < |Key(chip, off)| && i != |chip|
    ensures Key(chip, off)[i] != ':'
  {
    if i < 8 {
      assert chip[..8][i] == "gpiochip"[i];
    } else if i < |chip| {
      assert Decimal.IsDigit(chip[8..][i - 8]);
    } else {
      assert Decimal.IsDigit(Decimal.Render(off)[i - |chip| - 1]);
    }
  }

  /** A valid chip's key names one line, even against chips that were not validated: it has a
      single colon, and offsets render in one way. */
  lemma KeyInjective(chip: string, off: nat, chip': string, off': nat)
    requires ValidChip(chip) && Key(chip, off) == Key(chip', off')
    ensures chip == chip' && off == off'
  {
    assert Key(chip', off')[|chip'|] == ':';
    if |chip'| != |chip| {
      ColonOnlyAfterChip(chip, off, |chip'|);
    }
    assert Key(chip, off)[..|chip|] == chip && Key(chip', off')[..|chip'|] == chip';
    assert Key(chip, off)[|chip| + 1..] == Decimal.Render(off);
    assert Key(chip', off')[|chip'| + 1..] == Decimal.Render(off');
    Decimal.RenderInjective(off, off');
  }

  // ---- state ----

  /** A line the kernel has given out; a line that is not in the map is free. `Ours` is a line
      handle of this process: its descriptor, direction and driven value. */
  datatype Owner = Other | Ours(fd: nat, output: bool, value: int)

  datatype Held = Held(fd: nat, value: int)

  /** ReadLine between its calls: handle open, value read, only the deferred close left. */
  datatype Stage = Requested | Got(value: int) | Closing
  datatype Reader = Reader(key: string, fd: nat, stage: Stage)

  /** Who holds the mutex, and how far it has come inside. */
  datatype Critical =
    | Free
    | Reading(t: nat)
    | Viewing(t: nat)
    | Setting(t: nat, key: string, value: int)
    | Granted(t: nat, key: string, value: int, fd: nat)
    | Driven(t: nat, key: string, value: int)
    | Releasing(t: nat, key: string)
    | Closed(t: nat, key: string)

  datatype State = State(
    lines: map<string, Owner>,
    held: map<string, Held>,
    lastRead: map<string, int>,
    readers: map<nat, Reader>,
    critical: Critical)

  datatype Step =
    | RequestInput(t: nat, key: string, fd: nat)
    | GetValue(t: nat, value: int)
    | GetFails(t: nat)
    | LockRead(t: nat)
    | StoreRead(t: nat)
    | CloseInput(t: nat)
    | LockSet(t: nat, key: string, value: int)
    | SetFails(t: nat)
    | DriveHeld(t: nat)
    | RequestOutput(t: nat, fd: nat)
    | StoreSet(t: nat)
    | LockRelease(t: nat, key: string)
    | ReleaseNothing(t: nat)
    | CloseHeld(t: nat)
    | ForgetHeld(t: nat)
    | LockView(t: nat)
    | UnlockView(t: nat)
    | OtherTakes(key: string)
    | OtherFrees(key: string)

  // ---- the kernel's calls ----

  predicate OpenFd(lines: map<string, Owner>, fd: nat) {
    exists k | k in lines :: lines[k].Ours? && lines[k].fd == fd
  }

  /** close(fd): the line behind the descriptor becomes free. */
  function CloseFd(lines: map<string, Owner>, fd: nat): map<string, Owner> {
    map k | k in lines && !(lines[k].Ours? && lines[k].fd == fd) :: lines[k]
  }

  /** GPIOHANDLE_SET_LINE_VALUES on a descriptor. */
  function DriveFd(lines: map<string, Owner>, fd: nat, value: int): map<string, Owner> {
    map k | k in lines ::
      if lines[k].Ours? && lines[k].fd == fd then lines[k].(value := value) else lines[k]
  }

  // ---- steps ----

  predicate Enabled(s: State, step: Step) {
    match step
    case RequestInput(t, key, fd) => t !in s.readers && key !in s.lines && !OpenFd(s.lines, fd)
    case GetValue(t, _) => t in s.readers && s.readers[t].stage.Requested?
    case GetFails(t) => t in s.readers && s.readers[t].stage.Requested?
    case LockRead(t) => t in s.readers && s.readers[t].stage.Got? && s.critical.Free?
    case StoreRead(t) => t in s.readers && s.readers[t].stage.Got? && s.critical == Reading(t)
    case CloseInput(t) => t in s.readers && s.readers[t].stage.Closing?
    case LockSet(_, _, _) => s.critical.Free?
    case SetFails(t) => s.critical.Setting? && s.critical.t == t
    case DriveHeld(t) => s.critical.Setting? && s.critical.t == t && s.critical.key in s.held
    case RequestOutput(t, fd) =>
      && s.critical.Setting? && s.critical.t == t && s.critical.key !in s.held
      && s.critical.key !in s.lines && !OpenFd(s.lines, fd)
    case StoreSet(t) => (s.critical.Granted? || (s.critical.Driven? && s.critical.key in s.held)) && s.critical.t == t
    case LockRelease(_, _) => s.critical.Free?
    case ReleaseNothing(t) => s.critical.Releasing? && s.critical.t == t && s.critical.key !in s.held
    case CloseHeld(t) => s.critical.Releasing? && s.critical.t == t && s.critical.key in s.held
    case ForgetHeld(t) => s.critical.Closed? && s.critical.t == t
    case LockView(_) => s.critical.Free?
    case UnlockView(t) => s.critical == Viewing(t)
    case OtherTakes(key) => key !in s.lines
    case OtherFrees(key) => key in s.lines && s.lines[key].Other?
  }

  function Bit(value: int): int {
    if value != 0 then 1 else 0
  }

  function Next(s: State, step: Step): State
    requires Enabled(s, step)
  {
    match step
    case RequestInput(t, key, fd) =>
      s.(lines := s.lines[key := Ours(fd, false, 0)], readers := s.readers[t := Reader(key, fd, Requested)])
    case GetValue(t, value) => s.(readers := s.readers[t := s.readers[t].(stage := Got(value))])
    case GetFails(t) => s.(readers := s.readers[t := s.readers[t].(stage := Closing)])
    case LockRead(t) => s.(critical := Reading(t))
    case StoreRead(t) =>
      s.(lastRead := s.lastRead[s.readers[t].key := s.readers[t].stage.value],
         readers := s.readers[t := s.readers[t].(stage := Closing)],
         critical := Free)
    case CloseInput(t) => s.(lines := CloseFd(s.lines, s.readers[t].fd), readers := s.readers - {t})
    case LockSet(t, key, value) => s.(critical := Setting(t, key, Bit(value)))
    case SetFails(_) => s.(critical := Free)
    case DriveHeld(t) =>
      s.(lines := DriveFd(s.lines, s.held[s.critical.key].fd, s.critical.value),
         critical := Driven(t, s.critical.key, s.critical.value))
    case RequestOutput(t, fd) =>
      s.(lines := s.lines[s.critical.key := Ours(fd, true, s.critical.value)],
         critical := Granted(t, s.critical.key, s.critical.value, fd))
    case StoreSet(_) =>
      var k := s.critical.key;
      if s.critical.Granted? then
        s.(held := s.held[k := Held(s.critical.fd, s.critical.value)], lastRead := s.lastRead - {k}, critical := Free)
      else
        s.(held := s.held[k := s.held[k].(value := s.critical.value)], critical := Free)
    case LockRelease(t, key) => s.(critical := Releasing(t, key))
    case ReleaseNothing(_) => s.(critical := Free)
    case CloseHeld(t) =>
      s.(lines := CloseFd(s.lines, s.held[s.critical.key].fd), critical := Closed(t, s.critical.key))
    case ForgetHeld(_) => s.(held := s.held - {s.critical.key}, critical := Free)
    case LockView(t) => s.(critical := Viewing(t))
    case UnlockView(_) => s.(critical := Free)
    case OtherTakes(key) => s.(lines := s.lines[key := Other])
    case OtherFrees(key) => s.(lines := s.lines - {key})
  }

  // ---- invariant ----

  /** The kernel's side: a descriptor stands for one line. */
  ghost predicate DistinctFds(lines: map<string, Owner>) {
    forall j, k :: j in lines && k in lines && lines[j].Ours? && lines[k].Ours? && lines[j].fd == lines[k].fd
      ==> j == k
  }

  ghost predicate Owns(lines: map<string, Owner>, key: string, fd: nat, output: bool) {
    key in lines && lines[key].Ours? && lines[key].fd == fd && lines[key].output == output
  }

  ghost predicate ReadersOwn(s: State) {
    && (forall t :: t in s.readers ==> Owns(s.lines, s.readers[t].key, s.readers[t].fd, false))
    && (forall t, u :: t in s.readers && u in s.readers && s.readers[t].key == s.readers[u].key ==> t == u)
  }

  ghost predicate ReadBy(s: State, t: nat, key: string) {
    t in s.readers && s.readers[t].key == key
  }

  ghost predicate InputsRead(s: State) {
    forall k :: k in s.lines && s.lines[k].Ours? && !s.lines[k].output ==> exists t :: ReadBy(s, t, k)
  }

  /** The value the kernel drives on a held line: the recorded one, except while a new one is
      about to be recorded. */
  function DrivenValue(s: State, key: string): int
    requires key in s.held
  {
    if s.critical.Driven? && s.critical.key == key then s.critical.value else s.held[key].value
  }

  ghost predicate HeldOwn(s: State) {
    forall k :: k in s.held && !(s.critical.Closed? && s.critical.key == k) ==>
      Owns(s.lines, k, s.held[k].fd, true) && s.lines[k].value == DrivenValue(s, k)
  }

  ghost predicate OutputsHeld(s: State) {
    forall k :: k in s.lines && s.lines[k].Ours? && s.lines[k].output ==>
      || (s.critical.Granted? && s.critical.key == k)
      || (k in s.held && !(s.critical.Closed? && s.critical.key == k))
  }

  ghost predicate CriticalOwns(s: State) {
    && (s.critical.Granted? ==>
          && Owns(s.lines, s.critical.key, s.critical.fd, true)
          && s.lines[s.critical.key].value == s.critical.value && s.critical.key !in s.held)
    && (s.critical.Driven? || s.critical.Closed? ==> s.critical.key in s.held)
  }

  /** A reader inside the mutex still has its value to record. */
  ghost predicate ReadingHasValue(s: State) {
    s.critical.Reading? ==> s.critical.t in s.readers && s.readers[s.critical.t].stage.Got?
  }

  ghost predicate Inv(s: State) {
    && DistinctFds(s.lines) && ReadersOwn(s) && InputsRead(s)
    && HeldOwn(s) && OutputsHeld(s) && CriticalOwns(s) && ReadingHasValue(s)
    && s.held.Keys !! s.lastRead.Keys
  }

  ghost predicate Initial(s: State) {
    && s.held == map[] && s.lastRead == map[] && s.readers == map[] && s.critical == Free
    && (forall k :: k in s.lines ==> s.lines[k].Other?)
  }

  lemma StepKeepsDistinctFds(s: State, step: Step)
    requires DistinctFds(s.lines) && Enabled(s, step)
    ensures DistinctFds(Next(s, step).lines)
  {
  }

  /** A step of ReadLine or of another process; the others happen under the mutex of SetLine,
      ReleaseLine or the inventory. */
  predicate Outside(step: Step) {
    || step.RequestInput? || step.GetValue? || step.GetFails? || step.LockRead? || step.StoreRead?
    || step.CloseInput? || step.OtherTakes? || step.OtherFrees?
  }

  lemma OutsideKeepsReaders(s: State, step: Step)
    requires DistinctFds(s.lines) && ReadersOwn(s) && Enabled(s, step) && Outside(step)
    ensures ReadersOwn(Next(s, step))
  {
  }

  lemma InsideKeepsReaders(s: State, step: Step)
    requires DistinctFds(s.lines) && ReadersOwn(s) && HeldOwn(s) && Enabled(s, step) && !Outside(step)
    ensures ReadersOwn(Next(s, step))
  {
  }

  /** An input was there before, or is the one just requested. */
  lemma InputsAreOld(s: State, step: Step, k: string)
    requires Enabled(s, step) && !(step.RequestInput? && step.key == k)
    requires k in Next(s, step).lines && Next(s, step).lines[k].Ours? && !Next(s, step).lines[k].output
    ensures k in s.lines && s.lines[k].Ours? && !s.lines[k].output
  {
  }

  /** A reader keeps its place as long as its line is not given back. */
  lemma ReaderStays(s: State, step: Step, t: nat)
    requires Enabled(s, step) && t in s.readers && Owns(s.lines, s.readers[t].key, s.readers[t].fd, false)
    requires s.readers[t].key in Next(s, step).lines
    ensures ReadBy(Next(s, step), t, s.readers[t].key)
  {
  }

  lemma StepKeepsInputsRead(s: State, step: Step)
    requires ReadersOwn(s) && InputsRead(s) && Enabled(s, step)
    ensures InputsRead(Next(s, step))
  {
    var s' := Next(s, step);
    forall k | k in s'.lines && s'.lines[k].Ours? && !s'.lines[k].output
      ensures exists t :: ReadBy(s', t, k)
    {
      if step.RequestInput? && step.key == k {
        assert ReadBy(s', step.t, k);
      } else {
        InputsAreOld(s, step, k);
        var t :| ReadBy(s, t, k);
        ReaderStays(s, step, t);
      }
    }
  }

  lemma OutsideKeepsHeldOwn(s: State, step: Step)
    requires DistinctFds(s.lines) && ReadersOwn(s) && HeldOwn(s) && Enabled(s, step) && Outside(step)
    ensures HeldOwn(Next(s, step))
  {
  }

  lemma InsideKeepsHeldOwn(s: State, step: Step)
    requires DistinctFds(s.lines) && HeldOwn(s) && CriticalOwns(s) && Enabled(s, step) && !Outside(step)
    ensures HeldOwn(Next(s, step))
  {
  }

  lemma StepKeepsOutputsHeld(s: State, step: Step)
    requires DistinctFds(s.lines) && HeldOwn(s) && OutputsHeld(s) && Enabled(s, step)
    ensures OutputsHeld(Next(s, step))
  {
  }

  lemma StepKeepsCriticalOwns(s: State, step: Step)
    requires DistinctFds(s.lines) && ReadersOwn(s) && CriticalOwns(s) && Enabled(s, step)
    ensures CriticalOwns(Next(s, step))
  {
  }

  lemma StepKeepsReadingHasValue(s: State, step: Step)
    requires ReadingHasValue(s) && Enabled(s, step)
    ensures ReadingHasValue(Next(s, step))
  {
  }

  /** The write of a read value to `lastRead` comes before the deferred close: the line is
      then still an input of this process, so no SetLine can have taken it. */
  lemma StepKeepsDisjoint(s: State, step: Step)
    requires ReadersOwn(s) && HeldOwn(s) && s.held.Keys !! s.lastRead.Keys && Enabled(s, step)
    ensures Next(s, step).held.Keys !! Next(s, step).lastRead.Keys
  {
  }

  lemma StepKeepsInv(s: State, step: Step)
    requires Inv(s) && Enabled(s, step)
    ensures Inv(Next(s, step))
  {
    StepKeepsDistinctFds(s, step);
    if Outside(step) {
      OutsideKeepsReaders(s, step);
      OutsideKeepsHeldOwn(s, step);
    } else {
      InsideKeepsReaders(s, step);
      InsideKeepsHeldOwn(s, step);
    }
    StepKeepsInputsRead(s, step);
    StepKeepsOutputsHeld(s, step);
    StepKeepsCriticalOwns(s, step);
    StepKeepsReadingHasValue(s, step);
    StepKeepsDisjoint(s, step);
  }

  // ---- runs ----

  predicate IsRun(s: State, run: seq<Step>)
    decreases |run|
  {
    run != [] ==> Enabled(s, run[0]) && IsRun(Next(s, run[0]), run[1..])
  }

  function Exec(s: State, run: seq<Step>): State
    requires IsRun(s, run)
    decreases |run|
  {
    if run == [] then s else Exec(Next(s, run[0]), run[1..])
  }

  lemma {:induction false} RunKeepsInv(s: State, run: seq<Step>)
    requires Inv(s) && IsRun(s, run)
    ensures Inv(Exec(s, run))
    decreases |run|
  {
    if run != [] {
      StepKeepsInv(s, run[0]);
      RunKeepsInv(Next(s, run[0]), run[1..]);
    }
  }

  lemma ReachableInv(s: State, run: seq<Step>)
    requires Initial(s) && IsRun(s, run)
    ensures Inv(Exec(s, run))
  {
    RunKeepsInv(s, run);
  }

  lemma {:induction false} RunAppend(s: State, a: seq<Step>, b: seq<Step>)
    requires IsRun(s, a) && IsRun(Exec(s, a), b)
    ensures IsRun(s, a + b) && Exec(s, a + b) == Exec(Exec(s, a), b)
    decreases |a|
  {
    if a == [] {
      assert a + b == b;
    } else {
      RunAppend(Next(s, a[0]), a[1..], b);
      assert (a + b)[1..] == a[1..] + b;
    }
  }

  /** No one is between a call that changes an output and the record of it. */
  predicate Recorded(s: State) {
    !s.critical.Granted? && !s.critical.Driven? && !s.critical.Closed?
  }

  /** `held` is the truth about the kernel: whenever no SetLine or ReleaseLine is halfway
      through its critical section, an entry says what the kernel says, and the kernel gives
      this process no output that `held` does not record. */
  lemma HeldIsExact(s0: State, run: seq<Step>, key: string, fd: nat, value: int)
    requires Initial(s0) && IsRun(s0, run) && Recorded(Exec(s0, run))
    ensures var s := Exec(s0, run);
            key in s.held && s.held[key] == Held(fd, value)
            <==> key in s.lines && s.lines[key] == Ours(fd, true, value)
  {
    ReachableInv(s0, run);
  }

  /** In every reachable state, halfway or not. */
  lemma HeldAndReadDisjoint(s0: State, run: seq<Step>)
    requires Initial(s0) && IsRun(s0, run)
    ensures Exec(s0, run).held.Keys !! Exec(s0, run).lastRead.Keys
  {
    ReachableInv(s0, run);
  }

  lemma RecordedFdsDistinct(s0: State, run: seq<Step>)
    requires Initial(s0) && IsRun(s0, run) && Recorded(Exec(s0, run))
    ensures var s := Exec(s0, run);
      && (forall j, k :: j in s.held && k in s.held && s.held[j].fd == s.held[k].fd ==> j == k)
      && (forall t, k :: t in s.readers && k in s.held ==> s.readers[t].fd != s.held[k].fd)
      && (forall t, u :: t in s.readers && u in s.readers && s.readers[t].fd == s.readers[u].fd ==> t == u)
  {
    ReachableInv(s0, run);
  }

  // ---- counting open line handles ----

  function Handles(lines: map<string, Owner>): set<string> {
    set k | k in lines && lines[k].Ours?
  }

  function ReadKeys(readers: map<nat, Reader>): set<string> {
    set t | t in readers :: readers[t].key
  }

  lemma {:induction false} ReadKeysCount(readers: map<nat, Reader>)
    requires forall t, u :: t in readers && u in readers && readers[t].key == readers[u].key ==> t == u
    ensures |ReadKeys(readers)| == |readers|
    decreases |readers|
  {
    if readers != map[] {
      var t :| t in readers;
      var rest := readers - {t};
      assert |rest| == |readers| - 1 by {
        assert rest.Keys == readers.Keys - {t};
      }
      ReadKeysCount(rest);
      forall k | k in ReadKeys(readers) ensures k in ReadKeys(rest) + {readers[t].key} {
        var u :| u in readers && readers[u].key == k;
        assert u != t ==> u in rest && rest[u].key == k;
      }
      assert ReadKeys(readers) == ReadKeys(rest) + {readers[t].key};
      assert readers[t].key !in ReadKeys(rest);
    } else {
      assert ReadKeys(readers) == {};
    }
  }

  /** No handle leaks and none is lost: the open line handles are the held lines and the reads
      in flight. */
  lemma HandlesAreAccountedFor(s0: State, run: seq<Step>)
    requires Initial(s0) && IsRun(s0, run) && Recorded(Exec(s0, run))
    ensures var s := Exec(s0, run); |Handles(s.lines)| == |s.held| + |s.readers|
  {
    ReachableInv(s0, run);
    var s := Exec(s0, run);
    ReadKeysCount(s.readers);
    assert Handles(s.lines) == s.held.Keys + ReadKeys(s.readers) by {
      forall k | k in Handles(s.lines) ensures k in s.held.Keys + ReadKeys(s.readers) {
        if !s.lines[k].output {
          var t :| ReadBy(s, t, k);
        }
      }
    }
    assert s.held.Keys !! ReadKeys(s.readers);
  }

  // ---- what one call does ----

  /** The deferred close of a read frees exactly the line it took. */
  lemma CloseFreesItsLine(s: State, t: nat)
    requires Inv(s) && Enabled(s, CloseInput(t))
    ensures Next(s, CloseInput(t)).lines == s.lines - {s.readers[t].key}
    ensures Owns(s.lines, s.readers[t].key, s.readers[t].fd, false)
  {
  }

  /** The thread a step belongs to; other processes have none. */
  predicate By(step: Step, t: nat) {
    !step.OtherTakes? && !step.OtherFrees? && step.t == t
  }

  ghost predicate Others(run: seq<Step>, t: nat) {
    forall i :: 0 <= i < |run| ==> !By(run[i], t)
  }

  ghost function IsOf(t: nat): Step -> bool {
    (step: Step) => By(step, t)
  }

  /** The steps of t in a run, in order. */
  ghost function StepsOf(run: seq<Step>, t: nat): seq<Step> {
    Filter(run, IsOf(t))
  }

  /** The same lines are outputs of this process, driven alike. */
  ghost predicate SameOutputs(lines: map<string, Owner>, lines': map<string, Owner>) {
    && (forall k :: k in lines && lines[k].Ours? && lines[k].output ==> k in lines' && lines'[k] == lines[k])
    && (forall k :: k in lines' && lines'[k].Ours? && lines'[k].output ==> k in lines && lines[k] == lines'[k])
  }

  /** What others can do while t holds the mutex: nothing to the maps, to t's reader or to any
      output of this process. */
  ghost predicate Frozen(s: State, s': State, t: nat) {
    && s'.critical == s.critical && s'.held == s.held && s'.lastRead == s.lastRead
    && (t in s.readers <==> t in s'.readers) && (t in s.readers ==> s'.readers[t] == s.readers[t])
    && SameOutputs(s.lines, s'.lines)
  }

  lemma StepIsFrozen(s: State, step: Step, t: nat)
    requires Inv(s) && Enabled(s, step) && !By(step, t) && !s.critical.Free? && s.critical.t == t
    ensures Frozen(s, Next(s, step), t)
  {
  }

  lemma {:induction false} RunIsFrozen(s: State, run: seq<Step>, t: nat)
    requires Inv(s) && IsRun(s, run) && Others(run, t) && !s.critical.Free? && s.critical.t == t
    ensures Frozen(s, Exec(s, run), t)
    decreases |run|
  {
    if run != [] {
      assert !By(run[0], t);
      StepIsFrozen(s, run[0], t);
      StepKeepsInv(s, run[0]);
      RunIsFrozen(Next(s, run[0]), run[1..], t);
    }
  }

  // ---- what a reader can rely on outside the mutex ----

  /** t's reader is as it was, and nothing was recorded about its line. */
  ghost predicate Undisturbed(s: State, s': State, t: nat)
    requires t in s.readers
  {
    && t in s'.readers && s'.readers[t] == s.readers[t]
    && (s.readers[t].key in s'.lastRead <==> s.readers[t].key in s.lastRead)
    && (s.readers[t].key in s.lastRead ==> s'.lastRead[s.readers[t].key] == s.lastRead[s.readers[t].key])
  }

  lemma StepLeavesPlace(s: State, step: Step, t: nat)
    requires Enabled(s, step) && !By(step, t) && t in s.readers
    ensures t in Next(s, step).readers && Next(s, step).readers[t] == s.readers[t]
  {
  }

  lemma OnlyStoresRecord(s: State, step: Step)
    requires Enabled(s, step) && !step.StoreRead? && !step.StoreSet?
    ensures Next(s, step).lastRead == s.lastRead
  {
  }

  /** A store is about another line: no two readers share one, and none is held. */
  lemma StoreIsElsewhere(s: State, step: Step, t: nat)
    requires ReadersOwn(s) && CriticalOwns(s) && Enabled(s, step) && (step.StoreRead? || step.StoreSet?)
    requires !By(step, t) && t in s.readers
    ensures s.readers[t].key in Next(s, step).lastRead <==> s.readers[t].key in s.lastRead
    ensures s.readers[t].key in s.lastRead ==>
      Next(s, step).lastRead[s.readers[t].key] == s.lastRead[s.readers[t].key]
  {
  }

  lemma StepLeavesRecord(s: State, step: Step, t: nat)
    requires ReadersOwn(s) && CriticalOwns(s) && Enabled(s, step) && !By(step, t) && t in s.readers
    ensures s.readers[t].key in Next(s, step).lastRead <==> s.readers[t].key in s.lastRead
    ensures s.readers[t].key in s.lastRead ==>
      Next(s, step).lastRead[s.readers[t].key] == s.lastRead[s.readers[t].key]
  {
    if step.StoreRead? || step.StoreSet? {
      StoreIsElsewhere(s, step, t);
    } else {
      OnlyStoresRecord(s, step);
    }
  }

  /** While t has its line open, no interleaving of the others touches its place or what is
      recorded about the line. */
  lemma {:induction false} RunLeavesReader(s: State, run: seq<Step>, t: nat)
    requires Inv(s) && IsRun(s, run) && Others(run, t) && t in s.readers
    ensures Undisturbed(s, Exec(s, run), t)
    decreases |run|
  {
    if run != [] {
      assert !By(run[0], t);
      StepLeavesPlace(s, run[0], t);
      StepLeavesRecord(s, run[0], t);
      StepKeepsInv(s, run[0]);
      RunLeavesReader(Next(s, run[0]), run[1..], t);
    }
  }

  predicate Inside(critical: Critical, t: nat) {
    !critical.Free? && critical.t == t
  }

  lemma StepStaysOutside(s: State, step: Step, t: nat)
    requires Enabled(s, step) && !By(step, t) && !Inside(s.critical, t)
    ensures !Inside(Next(s, step).critical, t)
  {
  }

  lemma {:induction false} RunStaysOutside(s: State, run: seq<Step>, t: nat)
    requires IsRun(s, run) && Others(run, t) && !Inside(s.critical, t)
    ensures !Inside(Exec(s, run).critical, t)
    decreases |run|
  {
    if run != [] {
      assert !By(run[0], t);
      StepStaysOutside(s, run[0], t);
      RunStaysOutside(Next(s, run[0]), run[1..], t);
    }
  }

  // ---- the mutex comes free ----

  /** What is left to do for whoever is inside; a SetLine gives up if it still can. */
  function Rest(s: State): seq<Step> {
    match s.critical
    case Free => []
    case Reading(t) => [StoreRead(t)]
    case Viewing(t) => [UnlockView(t)]
    case Setting(t, _, _) => [SetFails(t)]
    case Granted(t, _, _, _) => [StoreSet(t)]
    case Driven(t, _, _) => [StoreSet(t)]
    case Releasing(t, key) => if key in s.held then [CloseHeld(t), ForgetHeld(t)] else [ReleaseNothing(t)]
    case Closed(t, _) => [ForgetHeld(t)]
  }

  lemma OneStepRun(s: State, step: Step)
    requires Enabled(s, step)
    ensures IsRun(s, [step]) && Exec(s, [step]) == Next(s, step)
  {
    assert [step][1..] == [];
  }

  lemma ReleaseFinishes(s: State, t: nat)
    requires Enabled(s, CloseHeld(t))
    ensures IsRun(s, [CloseHeld(t), ForgetHeld(t)])
    ensures Exec(s, [CloseHeld(t), ForgetHeld(t)]).critical.Free?
  {
    var s1 := Next(s, CloseHeld(t));
    OneStepRun(s, CloseHeld(t));
    OneStepRun(s1, ForgetHeld(t));
    RunAppend(s, [CloseHeld(t)], [ForgetHeld(t)]);
    assert [CloseHeld(t)] + [ForgetHeld(t)] == [CloseHeld(t), ForgetHeld(t)];
  }

  /** Whoever holds the mutex can always leave it by steps of its own. */
  lemma MutexComesFree(s: State)
    requires CriticalOwns(s) && ReadingHasValue(s)
    ensures IsRun(s, Rest(s)) && Exec(s, Rest(s)).critical.Free?
    ensures forall i :: 0 <= i < |Rest(s)| ==> !s.critical.Free? && By(Rest(s)[i], s.critical.t)
  {
    if s.critical.Releasing? && s.critical.key in s.held {
      ReleaseFinishes(s, s.critical.t);
    } else if !s.critical.Free? {
      OneStepRun(s, Rest(s)[0]);
      assert Rest(s) == [Rest(s)[0]];
    }
  }
}
