// The three blocks as threads: one step is one semaphore or mutex operation, one buffer copy
// or one computation, and any thread may take the next step.
module PipelineThreads {
  import opened Bytes
  import opened Pipeline

  datatype Thread = Io | Est | Ctrl

  datatype IoPc = Fetch | LockFrame | PutFrame | UnlockFrame | GiveSample | TakeDone
                | LockCommand | GetCommand | UnlockCommand | Send | Finished

  datatype EstPc = TakeSample | ELockFrame | GetFrame | EUnlockFrame | Update | Report
                 | LockState | PutState | UnlockState | GiveState

  datatype CtrlPc = TakeState | CountTick | CLockState | GetState | CUnlockState | Solve
                  | CLockCommand | PutCommand | CUnlockCommand | GiveDone

  // Semaphore counts have a limit of one; a mutex is free or held.
  datatype State = State(
    io: IoPc, est: EstPc, ctrl: CtrlPc,
    sample: nat, state: nat, done: nat,
    frameLock: Option<Thread>, stateLock: Option<Thread>, commandLock: Option<Thread>,
    gFrame: Frame, gState: StateVec, gCommand: Command,
    iter: nat, ioFrame: Frame, ioCommand: Command,
    estFrame: Frame, e: Estimator, vec: StateVec,
    tick: nat, ctrlVec: StateVec, work: Workspace, u: Command,
    sent: seq<Command>,
    lost: nat)

  function Initial(b: Blocks): (s: State) {
    State(Fetch, TakeSample, TakeState, 0, 0, 0, None, None, None, b.frame0, b.vec0, b.zero,
          0, b.frame0, b.zero, b.frame0, b.est0, b.vec0, 0, b.vec0, b.work0, b.zero, [], 0)
  }

  // A give at the limit is dropped.
  function Give(count: nat): (c: nat) { if count < 1 then count + 1 else count }

  function Dropped(count: nat): (n: nat) { if count < 1 then 0 else 1 }

  // ---- the code of each block -------------------------------------------------------

  function IoStep(inputs: seq<Option<Frame>>, s: State): (r: Option<State>) {
    match s.io
    case Fetch =>
      if s.iter >= |inputs| then Some(s.(io := Finished))
      else if inputs[s.iter].None? then Some(s.(iter := s.iter + 1))
      else Some(s.(iter := s.iter + 1, ioFrame := inputs[s.iter].value, io := LockFrame))
    case LockFrame => if s.frameLock.Some? then None else Some(s.(frameLock := Some(Io), io := PutFrame))
    case PutFrame => Some(s.(gFrame := s.ioFrame, io := UnlockFrame))
    case UnlockFrame => Some(s.(frameLock := None, io := GiveSample))
    case GiveSample => Some(s.(sample := Give(s.sample), lost := s.lost + Dropped(s.sample), io := TakeDone))
    case TakeDone => if s.done == 0 then None else Some(s.(done := s.done - 1, io := LockCommand))
    case LockCommand => if s.commandLock.Some? then None else Some(s.(commandLock := Some(Io), io := GetCommand))
    case GetCommand => Some(s.(ioCommand := s.gCommand, io := UnlockCommand))
    case UnlockCommand => Some(s.(commandLock := None, io := Send))
    case Send => Some(s.(sent := s.sent + [s.ioCommand], io := Fetch))
    case Finished => None
  }

  function EstStep(b: Blocks, s: State): (r: Option<State>) {
    match s.est
    case TakeSample => if s.sample == 0 then None else Some(s.(sample := s.sample - 1, est := ELockFrame))
    case ELockFrame => if s.frameLock.Some? then None else Some(s.(frameLock := Some(Est), est := GetFrame))
    case GetFrame => Some(s.(estFrame := s.gFrame, est := EUnlockFrame))
    case EUnlockFrame => Some(s.(frameLock := None, est := Update))
    case Update => Some(s.(e := b.update(s.e, s.estFrame), est := Report))
    case Report => Some(s.(vec := b.report(s.e), est := LockState))
    case LockState => if s.stateLock.Some? then None else Some(s.(stateLock := Some(Est), est := PutState))
    case PutState => Some(s.(gState := s.vec, est := UnlockState))
    case UnlockState => Some(s.(stateLock := None, est := GiveState))
    case GiveState => Some(s.(state := Give(s.state), lost := s.lost + Dropped(s.state), est := TakeSample))
  }

  // The tick counter is a 32-bit word.
  function NextTick(tick: nat): (t: nat) { (tick + 1) % 0x1_0000_0000 }

  function CtrlStep(b: Blocks, s: State): (r: Option<State>)
    requires b.div > 0
  {
    match s.ctrl
    case TakeState => if s.state == 0 then None else Some(s.(state := s.state - 1, ctrl := CountTick))
    case CountTick =>
      var t := NextTick(s.tick);
      Some(s.(tick := t, ctrl := if Since(t, b.div) == 0 then CLockState else GiveDone))
    case CLockState => if s.stateLock.Some? then None else Some(s.(stateLock := Some(Ctrl), ctrl := GetState))
    case GetState => Some(s.(ctrlVec := s.gState, ctrl := CUnlockState))
    case CUnlockState => Some(s.(stateLock := None, ctrl := Solve))
    case Solve =>
      var c := b.solve(s.work, s.ctrlVec);
      Some(s.(work := c.0, u := c.1, ctrl := CLockCommand))
    case CLockCommand => if s.commandLock.Some? then None else Some(s.(commandLock := Some(Ctrl), ctrl := PutCommand))
    case PutCommand => Some(s.(gCommand := s.u, ctrl := CUnlockCommand))
    case CUnlockCommand => Some(s.(commandLock := None, ctrl := GiveDone))
    case GiveDone => Some(s.(done := Give(s.done), lost := s.lost + Dropped(s.done), ctrl := TakeState))
  }

  function StepOf(b: Blocks, inputs: seq<Option<Frame>>, s: State, t: Thread): (r: Option<State>)
    requires b.div > 0
  {
    match t
    case Io => IoStep(inputs, s)
    case Est => EstStep(b, s)
    case Ctrl => CtrlStep(b, s)
  }

  // A blocked thread that is picked does nothing.
  function After(b: Blocks, inputs: seq<Option<Frame>>, s: State, t: Thread): (s': State)
    requires b.div > 0
  {
    var r := StepOf(b, inputs, s, t);
    if r.Some? then r.value else s
  }

  function Exec(b: Blocks, inputs: seq<Option<Frame>>, s: State, schedule: seq<Thread>): (s': State)
    requires b.div > 0
    decreases |schedule|
  {
    if schedule == [] then s else Exec(b, inputs, After(b, inputs, s, schedule[0]), schedule[1..])
  }

  // ---- what every reachable state keeps ---------------------------------------------

  function Bit(p: bool): (n: nat) { if p then 1 else 0 }

  // The hand-off token: a pending give, or a block that is past its own take.
  function Tokens(s: State): (n: nat) {
    s.sample + s.state + s.done + Bit(s.io != TakeDone) + Bit(s.est != TakeSample) + Bit(s.ctrl != TakeState)
  }

  // Each mutex is held exactly by the thread inside its critical section.
  ghost predicate LocksMatch(s: State) {
    && s.frameLock == (if s.io.PutFrame? || s.io.UnlockFrame? then Some(Io)
                       else if s.est.GetFrame? || s.est.EUnlockFrame? then Some(Est) else None)
    && s.stateLock == (if s.est.PutState? || s.est.UnlockState? then Some(Est)
                       else if s.ctrl.GetState? || s.ctrl.CUnlockState? then Some(Ctrl) else None)
    && s.commandLock == (if s.io.GetCommand? || s.io.UnlockCommand? then Some(Io)
                         else if s.ctrl.PutCommand? || s.ctrl.CUnlockCommand? then Some(Ctrl) else None)
  }

  // Whether the frame last fetched has been handed over, estimated, counted and solved.
  ghost predicate AwaitsSend(s: State) {
    s.io != Fetch && s.io != Finished
  }

  ghost predicate Estimated(s: State) {
    s.io.Fetch? || s.io.Finished? || s.state == 1 || s.done == 1 || s.ctrl != TakeState
    || s.io.LockCommand? || s.io.GetCommand? || s.io.UnlockCommand? || s.io.Send?
    || s.est.Report? || s.est.LockState? || s.est.PutState? || s.est.UnlockState? || s.est.GiveState?
  }

  ghost predicate Counted(s: State) {
    s.io.Fetch? || s.io.Finished? || s.done == 1
    || s.io.LockCommand? || s.io.GetCommand? || s.io.UnlockCommand? || s.io.Send?
    || (s.ctrl != TakeState && s.ctrl != CountTick)
  }

  // The solver has run for this tick, or need not.
  ghost predicate Solved(s: State) {
    Counted(s) && s.ctrl != CLockState && s.ctrl != GetState && s.ctrl != CUnlockState && s.ctrl != Solve
  }

  // The command in force is in the shared buffer.
  ghost predicate Published(s: State) {
    Solved(s) && s.ctrl != CLockCommand && s.ctrl != PutCommand
  }

  function Upto(fs: seq<Frame>, whole: bool): (r: seq<Frame>) {
    if whole || fs == [] then fs else fs[..|fs| - 1]
  }

  ghost predicate Controlled(b: Blocks, fs: seq<Frame>, s: State)
    requires b.div > 0
  {
    && s.tick == |Upto(fs, Counted(s))|
    && s.work == Control(b, Upto(fs, Solved(s))).0
    && s.gCommand == Control(b, Upto(fs, Published(s))).1
    && (s.ctrl.CLockState? || s.ctrl.GetState? || s.ctrl.CUnlockState? || s.ctrl.Solve? ==> Since(|fs|, b.div) == 0)
    && (s.ctrl.CUnlockState? || s.ctrl.Solve? ==> s.ctrlVec == StateAt(b, fs))
    && (s.ctrl.CLockCommand? || s.ctrl.PutCommand? ==> s.u == Control(b, fs).1)
    && (s.io.UnlockCommand? || s.io.Send? ==> s.ioCommand == Control(b, fs).1)
  }

  ghost predicate Carried(b: Blocks, fs: seq<Frame>, s: State) {
    && (AwaitsSend(s) || s.est != TakeSample || s.ctrl != TakeState ==> fs != [])
    && s.e == EstAfter(b, Upto(fs, Estimated(s)))
    && (AwaitsSend(s) ==> s.ioFrame == fs[|fs| - 1])
    && (AwaitsSend(s) && s.io != LockFrame && s.io != PutFrame ==> s.gFrame == fs[|fs| - 1])
    && (s.est.EUnlockFrame? || s.est.Update? ==> s.estFrame == fs[|fs| - 1])
    && (s.est.LockState? || s.est.PutState? ==> s.vec == StateAt(b, fs))
    && (s.est.UnlockState? || s.est.GiveState? || s.state == 1 || s.ctrl != TakeState ==> s.gState == StateAt(b, fs))
  }

  ghost predicate Handing(s: State) { Tokens(s) == 1 && s.lost == 0 && LocksMatch(s) }

  ghost predicate Sending(b: Blocks, fs: seq<Frame>, s: State)
    requires b.div > 0
  {
    s.sent == Commands(b, Upto(fs, !AwaitsSend(s)))
  }

  ghost predicate Data(b: Blocks, fs: seq<Frame>, s: State)
    requires b.div > 0
  {
    Carried(b, fs, s) && Controlled(b, fs, s) && Sending(b, fs, s)
  }

  ghost predicate Inv(b: Blocks, inputs: seq<Option<Frame>>, s: State)
    requires b.div > 0
  {
    && s.iter <= |inputs| && (s.io.Finished? ==> s.iter == |inputs|)
    && Handing(s) && Data(b, Frames(inputs[..s.iter]), s)
  }

  lemma InitialInv(b: Blocks, inputs: seq<Option<Frame>>)
    requires b.div > 0
    ensures Inv(b, inputs, Initial(b))
  {
  }

  lemma FramesNext(inputs: seq<Option<Frame>>, i: nat)
    requires i < |inputs|
    ensures Frames(inputs[..i + 1]) ==
            if inputs[i].Some? then Frames(inputs[..i]) + [inputs[i].value] else Frames(inputs[..i])
  {
    assert inputs[..i + 1][..i] == inputs[..i];
  }

  // The token: each step moves it on, drops no give and takes only a free mutex.
  lemma IoHanding(inputs: seq<Option<Frame>>, s: State)
    requires Handing(s) && IoStep(inputs, s).Some?
    ensures Handing(IoStep(inputs, s).value)
  {
  }

  lemma EstHanding(b: Blocks, s: State)
    requires Handing(s) && EstStep(b, s).Some?
    ensures Handing(EstStep(b, s).value)
    ensures EstStep(b, s).value.iter == s.iter && EstStep(b, s).value.io == s.io
  {
  }

  lemma CtrlHanding(b: Blocks, s: State)
    requires b.div > 0 && Handing(s) && CtrlStep(b, s).Some?
    ensures Handing(CtrlStep(b, s).value)
    ensures CtrlStep(b, s).value.iter == s.iter && CtrlStep(b, s).value.io == s.io
  {
    hide Since;
  }

  // A new frame: nothing has been done with it yet.
  lemma Fetched(b: Blocks, fs: seq<Frame>, f: Frame, s: State, s': State)
    requires b.div > 0 && Handing(s) && s.io.Fetch? && Data(b, fs, s)
    requires s' == s.(iter := s.iter + 1, ioFrame := f, io := LockFrame)
    ensures Data(b, fs + [f], s')
  {
    UptoSnoc(fs, f);
    hide Upto, EstAfter, Control, Commands, StateAt, Since, LocksMatch;
  }

  lemma UptoSnoc(fs: seq<Frame>, f: Frame)
    ensures Upto(fs, true) == fs
    ensures Upto(fs + [f], true) == fs + [f] && Upto(fs + [f], false) == fs
  {
    assert (fs + [f])[..|fs|] == fs;
  }

  lemma IoCarried(b: Blocks, inputs: seq<Option<Frame>>, fs: seq<Frame>, s: State)
    requires b.div > 0 && Handing(s) && Carried(b, fs, s) && !s.io.Fetch? && IoStep(inputs, s).Some?
    ensures Carried(b, fs, IoStep(inputs, s).value)
  {
    hide EstAfter, LocksMatch;
  }

  lemma IoControlled(b: Blocks, inputs: seq<Option<Frame>>, fs: seq<Frame>, s: State)
    requires b.div > 0 && Handing(s) && Controlled(b, fs, s) && !s.io.Fetch? && IoStep(inputs, s).Some?
    ensures Controlled(b, fs, IoStep(inputs, s).value)
  {
    hide EstAfter, LocksMatch, Control, Since;
  }

  lemma IoSending(b: Blocks, inputs: seq<Option<Frame>>, fs: seq<Frame>, s: State)
    requires b.div > 0 && Handing(s) && Data(b, fs, s) && !s.io.Fetch? && IoStep(inputs, s).Some?
    ensures Sending(b, fs, IoStep(inputs, s).value)
  {
    hide EstAfter, LocksMatch, Control, Since;
  }

  lemma IoData(b: Blocks, inputs: seq<Option<Frame>>, fs: seq<Frame>, s: State)
    requires b.div > 0 && Handing(s) && Data(b, fs, s) && !s.io.Fetch? && IoStep(inputs, s).Some?
    ensures Data(b, fs, IoStep(inputs, s).value)
  {
    hide Carried, Controlled, Sending, Handing, IoStep;
    IoCarried(b, inputs, fs, s);
    IoControlled(b, inputs, fs, s);
    IoSending(b, inputs, fs, s);
  }

  lemma EstCarried(b: Blocks, fs: seq<Frame>, s: State)
    requires b.div > 0 && Handing(s) && Carried(b, fs, s) && EstStep(b, s).Some?
    ensures Carried(b, fs, EstStep(b, s).value)
  {
  }

  lemma EstControlled(b: Blocks, fs: seq<Frame>, s: State)
    requires b.div > 0 && Handing(s) && Controlled(b, fs, s) && Sending(b, fs, s) && EstStep(b, s).Some?
    ensures Controlled(b, fs, EstStep(b, s).value) && Sending(b, fs, EstStep(b, s).value)
  {
  }

  lemma CtrlCarried(b: Blocks, fs: seq<Frame>, s: State)
    requires b.div > 0 && Handing(s) && Carried(b, fs, s) && Sending(b, fs, s) && CtrlStep(b, s).Some?
    ensures Carried(b, fs, CtrlStep(b, s).value) && Sending(b, fs, CtrlStep(b, s).value)
  {
    hide Since, Control;
  }

  lemma TickCounted(b: Blocks, fs: seq<Frame>, s: State)
    requires b.div > 0 && |fs| < 0x8000_0000 && Handing(s) && Data(b, fs, s) && s.ctrl.CountTick?
    ensures Controlled(b, fs, CtrlStep(b, s).value)
  {
    hide Since, EstAfter, Commands, LocksMatch;
  }

  lemma CtrlControlled(b: Blocks, fs: seq<Frame>, s: State)
    requires b.div > 0 && |fs| < 0x8000_0000 && Handing(s) && Data(b, fs, s) && CtrlStep(b, s).Some?
    ensures Controlled(b, fs, CtrlStep(b, s).value)
  {
    hide Since, EstAfter, Commands, LocksMatch;
    if s.ctrl.CountTick? {
      hide Controlled;
      TickCounted(b, fs, s);
    }
  }

  lemma IoKeeps(b: Blocks, inputs: seq<Option<Frame>>, s: State, s': State)
    requires b.div > 0 && Inv(b, inputs, s) && Some(s') == IoStep(inputs, s)
    ensures s'.iter <= |inputs| && (s'.io.Finished? ==> s'.iter == |inputs|)
    ensures Data(b, Frames(inputs[..s'.iter]), s')
  {
    hide Data, Handing, Frames;
    if s.io.Fetch? {
      FetchKeeps(b, inputs, s, s');
    } else {
      IoData(b, inputs, Frames(inputs[..s.iter]), s);
    }
  }

  // CTRL_ITERS is a C int, so the 32-bit tick counter does not wrap.
  lemma StepKeeps(b: Blocks, inputs: seq<Option<Frame>>, s: State, t: Thread)
    requires b.div > 0 && |inputs| < 0x8000_0000 && Inv(b, inputs, s) && StepOf(b, inputs, s, t).Some?
    ensures Inv(b, inputs, StepOf(b, inputs, s, t).value)
  {
    var fs := Frames(inputs[..s.iter]);
    hide Handing, Carried, Controlled, Sending, Frames, IoStep, EstStep, CtrlStep;
    match t
    case Io =>
      IoHanding(inputs, s);
      IoKeeps(b, inputs, s, StepOf(b, inputs, s, t).value);
    case Est =>
      EstHanding(b, s);
      EstCarried(b, fs, s);
      EstControlled(b, fs, s);
    case Ctrl =>
      CtrlHanding(b, s);
      CtrlCarried(b, fs, s);
      CtrlControlled(b, fs, s);
  }

  lemma NoFrame(b: Blocks, fs: seq<Frame>, s: State, s': State)
    requires b.div > 0 && Handing(s) && s.io.Fetch? && Data(b, fs, s)
    requires s' == s.(iter := s.iter + 1) || s' == s.(io := Finished)
    ensures Data(b, fs, s')
  {
  }

  lemma FetchKeeps(b: Blocks, inputs: seq<Option<Frame>>, s: State, s': State)
    requires b.div > 0 && s.iter <= |inputs| && Handing(s) && Data(b, Frames(inputs[..s.iter]), s)
    requires s.io.Fetch? && Some(s') == IoStep(inputs, s)
    ensures s'.iter <= |inputs| && Data(b, Frames(inputs[..s'.iter]), s')
  {
    var fs := Frames(inputs[..s.iter]);
    hide Data, Handing, Frames;
    if s.iter == |inputs| {
      NoFrame(b, fs, s, s');
    } else {
      FramesNext(inputs, s.iter);
      if inputs[s.iter].Some? {
        Fetched(b, fs, inputs[s.iter].value, s, s');
      } else {
        NoFrame(b, fs, s, s');
      }
    }
  }

  // Under every schedule.
  lemma {:induction false} Always(b: Blocks, inputs: seq<Option<Frame>>, s: State, schedule: seq<Thread>)
    requires b.div > 0 && |inputs| < 0x8000_0000 && Inv(b, inputs, s)
    ensures Inv(b, inputs, Exec(b, inputs, s, schedule))
    decreases |schedule|
  {
    hide Inv, StepOf;
    if schedule != [] {
      if StepOf(b, inputs, s, schedule[0]).Some? {
        StepKeeps(b, inputs, s, schedule[0]);
      }
      Always(b, inputs, After(b, inputs, s, schedule[0]), schedule[1..]);
    }
  }

  // ---- what that gives --------------------------------------------------------------

  // One token, no give ever dropped.
  lemma OneToken(b: Blocks, inputs: seq<Option<Frame>>, schedule: seq<Thread>)
    requires b.div > 0 && |inputs| < 0x8000_0000
    ensures var s := Exec(b, inputs, Initial(b), schedule);
            && Tokens(s) == 1 && s.lost == 0
            && (s.io.GiveSample? ==> s.sample == 0) && (s.est.GiveState? ==> s.state == 0)
            && (s.ctrl.GiveDone? ==> s.done == 0)
  {
    InitialInv(b, inputs);
    Always(b, inputs, Initial(b), schedule);
  }

  // At every moment what has been sent is a prefix of the intended commands, for the frames
  // read so far.
  lemma SentSoFar(b: Blocks, inputs: seq<Option<Frame>>, schedule: seq<Thread>)
    requires b.div > 0 && |inputs| < 0x8000_0000
    ensures var s := Exec(b, inputs, Initial(b), schedule);
            && s.iter <= |inputs|
            && s.sent == Commands(b, Upto(Frames(inputs[..s.iter]), !AwaitsSend(s)))
            && (s.io.Finished? ==> s.sent == Commands(b, Frames(inputs)))
  {
    InitialInv(b, inputs);
    Always(b, inputs, Initial(b), schedule);
    var s := Exec(b, inputs, Initial(b), schedule);
    if s.io.Finished? {
      assert inputs[..s.iter] == inputs;
    }
  }

  function Enabled(b: Blocks, inputs: seq<Option<Frame>>, s: State, t: Thread): (p: bool)
    requires b.div > 0
  {
    StepOf(b, inputs, s, t).Some?
  }

  // Until the IO block finishes, exactly one thread can move; after that none can.
  lemma NoDeadlock(b: Blocks, inputs: seq<Option<Frame>>, s: State)
    requires b.div > 0 && Inv(b, inputs, s)
    ensures Bit(Enabled(b, inputs, s, Io)) + Bit(Enabled(b, inputs, s, Est)) + Bit(Enabled(b, inputs, s, Ctrl))
            == Bit(s.io != Finished)
  {
    hide Data;
  }

  // ---- progress ---------------------------------------------------------------------

  function IoLeft(pc: IoPc): (n: nat) {
    match pc
    case LockFrame => 31 case PutFrame => 30 case UnlockFrame => 29 case GiveSample => 28
    case LockCommand => 5 case GetCommand => 4 case UnlockCommand => 3 case Send => 2
    case Fetch => 1 case TakeDone => 0 case Finished => 0
  }

  function EstLeft(pc: EstPc): (n: nat) {
    match pc
    case ELockFrame => 26 case GetFrame => 25 case EUnlockFrame => 24 case Update => 23 case Report => 22
    case LockState => 21 case PutState => 20 case UnlockState => 19 case GiveState => 18 case TakeSample => 0
  }

  function CtrlLeft(pc: CtrlPc): (n: nat) {
    match pc
    case CountTick => 16 case CLockState => 15 case GetState => 14 case CUnlockState => 13 case Solve => 12
    case CLockCommand => 11 case PutCommand => 10 case CUnlockCommand => 9 case GiveDone => 8 case TakeState => 0
  }

  // A bound on the steps left.
  function Left(inputs: seq<Option<Frame>>, s: State): (n: nat)
    requires s.iter <= |inputs|
  {
    (|inputs| - s.iter) * 32 + IoLeft(s.io) + s.sample * 27 + EstLeft(s.est) + s.state * 17 + CtrlLeft(s.ctrl)
    + s.done * 6
  }

  lemma IoProgress(inputs: seq<Option<Frame>>, s: State)
    requires s.iter <= |inputs| && Handing(s) && IoStep(inputs, s).Some?
    ensures var s' := IoStep(inputs, s).value; s'.iter <= |inputs| && Left(inputs, s') < Left(inputs, s)
  {
    hide LocksMatch;
  }

  lemma EstProgress(b: Blocks, inputs: seq<Option<Frame>>, s: State)
    requires s.iter <= |inputs| && Handing(s) && EstStep(b, s).Some?
    ensures var s' := EstStep(b, s).value; s'.iter == s.iter && Left(inputs, s') < Left(inputs, s)
  {
    hide LocksMatch;
  }

  lemma CtrlProgress(b: Blocks, inputs: seq<Option<Frame>>, s: State)
    requires b.div > 0 && s.iter <= |inputs| && Handing(s) && CtrlStep(b, s).Some?
    ensures var s' := CtrlStep(b, s).value; s'.iter == s.iter && Left(inputs, s') < Left(inputs, s)
  {
    hide LocksMatch, Since;
  }

  lemma StepProgress(b: Blocks, inputs: seq<Option<Frame>>, s: State, t: Thread)
    requires b.div > 0 && Inv(b, inputs, s) && StepOf(b, inputs, s, t).Some?
    ensures var s' := StepOf(b, inputs, s, t).value; s'.iter <= |inputs| && Left(inputs, s') < Left(inputs, s)
  {
    hide Data, Handing, Left, IoStep, EstStep, CtrlStep;
    match t
    case Io => IoProgress(inputs, s);
    case Est => EstProgress(b, inputs, s);
    case Ctrl => CtrlProgress(b, inputs, s);
  }

  // Once every thread has had a turn, the one that could move has moved.
  lemma {:induction false} RoundProgress(b: Blocks, inputs: seq<Option<Frame>>, s: State, round: seq<Thread>)
    requires b.div > 0 && |inputs| < 0x8000_0000 && Inv(b, inputs, s)
    ensures Inv(b, inputs, Exec(b, inputs, s, round))
    ensures Left(inputs, Exec(b, inputs, s, round)) <= Left(inputs, s)
    ensures (exists t <- round :: Enabled(b, inputs, s, t)) ==>
              Left(inputs, Exec(b, inputs, s, round)) < Left(inputs, s)
    decreases |round|
  {
    Always(b, inputs, s, round);
    if round != [] {
      var t := round[0];
      if StepOf(b, inputs, s, t).Some? {
        StepKeeps(b, inputs, s, t);
        StepProgress(b, inputs, s, t);
      }
      hide StepOf, Left, Handing, Data, Frames;
      RoundProgress(b, inputs, After(b, inputs, s, t), round[1..]);
    }
  }

  predicate Fair(round: seq<Thread>) { Io in round && Est in round && Ctrl in round }

  function Flat(rounds: seq<seq<Thread>>): (schedule: seq<Thread>) {
    if rounds == [] then [] else rounds[0] + Flat(rounds[1..])
  }

  lemma {:induction false} ExecAppend(b: Blocks, inputs: seq<Option<Frame>>, s: State, p: seq<Thread>, q: seq<Thread>)
    requires b.div > 0
    ensures Exec(b, inputs, s, p + q) == Exec(b, inputs, Exec(b, inputs, s, p), q)
    decreases |p|
  {
    if p == [] {
      assert p + q == q;
    } else {
      assert (p + q)[1..] == p[1..] + q;
      ExecAppend(b, inputs, After(b, inputs, s, p[0]), p[1..], q);
    }
  }

  lemma {:induction false} FairRuns(b: Blocks, inputs: seq<Option<Frame>>, s: State, rounds: seq<seq<Thread>>)
    requires b.div > 0 && |inputs| < 0x8000_0000 && Inv(b, inputs, s)
    requires (forall r <- rounds :: Fair(r)) && |rounds| >= Left(inputs, s)
    ensures Inv(b, inputs, Exec(b, inputs, s, Flat(rounds))) && Exec(b, inputs, s, Flat(rounds)).io.Finished?
    decreases |rounds|
  {
    if s.io.Finished? {
      FinishedStays(b, inputs, s, Flat(rounds));
    } else if rounds == [] {
      NothingLeft(inputs, s);
    } else {
      FairRound(b, inputs, s, rounds[0]);
      hide Inv, Left, Enabled, Exec;
      ExecAppend(b, inputs, s, rounds[0], Flat(rounds[1..]));
      FairRuns(b, inputs, Exec(b, inputs, s, rounds[0]), rounds[1..]);
    }
  }

  lemma FairRound(b: Blocks, inputs: seq<Option<Frame>>, s: State, round: seq<Thread>)
    requires b.div > 0 && |inputs| < 0x8000_0000 && Inv(b, inputs, s) && Fair(round) && !s.io.Finished?
    ensures Inv(b, inputs, Exec(b, inputs, s, round))
    ensures Left(inputs, Exec(b, inputs, s, round)) < Left(inputs, s)
  {
    hide Handing, Data, Left, Exec, StepOf;
    NoDeadlock(b, inputs, s);
    RoundProgress(b, inputs, s, round);
    assert Enabled(b, inputs, s, Io) || Enabled(b, inputs, s, Est) || Enabled(b, inputs, s, Ctrl);
  }

  lemma NothingLeft(inputs: seq<Option<Frame>>, s: State)
    requires s.iter <= |inputs| && Handing(s) && Left(inputs, s) == 0
    ensures s.io.Finished?
  {
  }

  lemma {:induction false} FinishedStays(b: Blocks, inputs: seq<Option<Frame>>, s: State, schedule: seq<Thread>)
    requires b.div > 0 && |inputs| < 0x8000_0000 && Inv(b, inputs, s) && s.io.Finished?
    ensures Exec(b, inputs, s, schedule) == s
    decreases |schedule|
  {
    if schedule != [] {
      NoDeadlock(b, inputs, s);
      assert !Enabled(b, inputs, s, schedule[0]);
      FinishedStays(b, inputs, s, schedule[1..]);
    }
  }

  // Every schedule that gives each thread a turn often enough finishes with exactly the
  // intended commands sent; with a divisor of one they are those of the single loop.
  lemma FairFinishes(b: Blocks, inputs: seq<Option<Frame>>, rounds: seq<seq<Thread>>)
    requires b.div > 0 && |inputs| < 0x8000_0000
    requires (forall r <- rounds :: Io in r && Est in r && Ctrl in r) && |rounds| > 32 * |inputs|
    ensures var s := Exec(b, inputs, Initial(b), Flat(rounds));
            && s.io.Finished? && s.sent == Commands(b, Frames(inputs))
            && (b.div == 1 ==> s.sent == Commands(b.(div := 1), Frames(inputs)))
  {
    InitialInv(b, inputs);
    FairRuns(b, inputs, Initial(b), rounds);
    SentSoFar(b, inputs, Flat(rounds));
  }

  // ---- the single-loop build --------------------------------------------------------

  lemma StartOf(b: Blocks)
    requires b.div == 1
    ensures Frames([]) == [] && EstAfter(b, []) == b.est0 && Control(b, []) == (b.work0, b.zero)
            && Commands(b, []) == []
  {
  }

  lemma OneMoreTick(b: Blocks, fs: seq<Frame>, f: Frame)
    requires b.div == 1
    ensures EstAfter(b, fs + [f]) == b.update(EstAfter(b, fs), f)
    ensures Control(b, fs + [f]) == b.solve(Control(b, fs).0, StateAt(b, fs + [f]))
    ensures Commands(b, fs + [f]) == Commands(b, fs) + [Control(b, fs + [f]).1]
  {
    assert (fs + [f])[..|fs|] == fs;
  }

  method SingleLoop(b: Blocks, inputs: seq<Option<Frame>>) returns (sent: seq<Command>)
    ensures sent == Commands(b.(div := 1), Frames(inputs))
  {
    hide Commands, Control, EstAfter, Frames;
    ghost var b1 := b.(div := 1);
    StartOf(b1);
    var e, work := b.est0, b.work0;
    sent := [];
    for iter := 0 to |inputs|
      invariant sent == Commands(b1, Frames(inputs[..iter]))
      invariant e == EstAfter(b1, Frames(inputs[..iter]))
      invariant work == Control(b1, Frames(inputs[..iter])).0
    {
      FramesNext(inputs, iter);
      ghost var fs := Frames(inputs[..iter]);
      if inputs[iter].None? {
        continue;
      }
      var f := inputs[iter].value;
      OneMoreTick(b1, fs, f);
      assert Frames(inputs[..iter + 1]) == fs + [f];
      e := b.update(e, f);
      var vec := b.report(e);
      var c := b.solve(work, vec);
      work := c.0;
      sent := sent + [c.1];
    }
    assert inputs[..|inputs|] == inputs;
  }
}
