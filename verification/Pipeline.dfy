// The flight controller's three blocks: sensor IO, estimator and control, handing one frame
// round by semaphores, with mutexes around the shared buffers. Any schedule of the three
// threads is allowed.
module Pipeline {
  import opened Bytes
  import opened Arithmetic

  type Frame
  type Estimator
  type StateVec
  type Workspace
  type Command

  // The computations the blocks call; each carries its own state from call to call.
  datatype Blocks = Blocks(
    update: (Estimator, Frame) -> Estimator,
    report: Estimator -> StateVec,
    solve: (Workspace, StateVec) -> (Workspace, Command),
    est0: Estimator, work0: Workspace,
    frame0: Frame, vec0: StateVec, zero: Command,
    div: nat)

  // ---- what the controller is meant to send -----------------------------------------

  // The frames that were read; a failed read is skipped.
  function Frames(inputs: seq<Option<Frame>>): (fs: seq<Frame>)
    ensures |fs| <= |inputs|
  {
    if inputs == [] then [] else
    var before, last := Frames(inputs[..|inputs| - 1]), inputs[|inputs| - 1];
    if last.Some? then before + [last.value] else before
  }

  function EstAfter(b: Blocks, fs: seq<Frame>): (e: Estimator) {
    if fs == [] then b.est0 else b.update(EstAfter(b, fs[..|fs| - 1]), fs[|fs| - 1])
  }

  function StateAt(b: Blocks, fs: seq<Frame>): (v: StateVec) { b.report(EstAfter(b, fs)) }

  // The solver's workspace and the command in force after these frames.
  function Control(b: Blocks, fs: seq<Frame>): (c: (Workspace, Command))
    requires b.div > 0
  {
    if fs == [] then (b.work0, b.zero) else
    var before := Control(b, fs[..|fs| - 1]);
    if Since(|fs|, b.div) == 0 then b.solve(before.0, StateAt(b, fs)) else before
  }

  function Commands(b: Blocks, fs: seq<Frame>): (us: seq<Command>)
    requires b.div > 0
    ensures |us| == |fs|
  {
    if fs == [] then [] else Commands(b, fs[..|fs| - 1]) + [Control(b, fs).1]
  }

  lemma {:induction false} CommandsAt(b: Blocks, fs: seq<Frame>, n: nat)
    requires b.div > 0 && n < |fs|
    ensures Commands(b, fs)[n] == Control(b, fs[..n + 1]).1
  {
    if n + 1 < |fs| {
      CommandsAt(b, fs[..|fs| - 1], n);
      assert fs[..|fs| - 1][..n + 1] == fs[..n + 1];
    } else {
      assert fs[..n + 1] == fs;
    }
  }

  // Tick n counted in whole solves and ticks since the last one.
  function Solves(n: nat, d: nat): (q: nat)
    requires d > 0
  {
    n / d
  }

  function Since(n: nat, d: nat): (r: nat)
    requires d > 0
  {
    n % d
  }

  // The last tick at or before n on which the controller solves; 0 before the first.
  function LastSolve(n: nat, d: nat): (m: nat)
    requires d > 0
  {
    Solves(n, d) * d
  }

  lemma SplitTick(n: nat, d: nat)
    requires d > 0
    ensures n == LastSolve(n, d) + Since(n, d) && Since(n, d) < d
    ensures Since(LastSolve(n, d), d) == 0
    ensures LastSolve(n, d) == 0 <==> n < d
    ensures Since(n, d) != 0 ==> n >= 1 && LastSolve(n - 1, d) == LastSolve(n, d)
  {
    var q, r := Solves(n, d), Since(n, d);
    SplitOf(q, d);
    Parts(n, d);
    if r != 0 {
      PairDivMod(q, r - 1, d);
    }
  }

  lemma Parts(n: nat, d: nat)
    requires d > 0
    ensures n == Solves(n, d) * d + Since(n, d) && Since(n, d) < d
    ensures n < d ==> Solves(n, d) == 0
  {
  }

  lemma SplitOf(q: nat, d: nat)
    requires d > 0
    ensures Since(q * d, d) == 0
    ensures q * d == 0 || q * d >= d
  {
    PairDivMod(q, 0, d);
    if q >= 1 {
      MulMono(1, q, d);
    }
  }

  // Between solves the control state is held.
  lemma {:induction false} ControlHeld(b: Blocks, fs: seq<Frame>)
    requires b.div > 0
    ensures LastSolve(|fs|, b.div) <= |fs|
    ensures Control(b, fs) == Control(b, fs[..LastSolve(|fs|, b.div)])
  {
    var n, m := |fs|, LastSolve(|fs|, b.div);
    SplitTick(n, b.div);
    hide LastSolve, Since;
    if Since(n, b.div) == 0 {
      assert fs[..m] == fs;
    } else {
      ControlHeld(b, fs[..n - 1]);
      assert fs[..n - 1][..m] == fs[..m];
    }
  }

  lemma MultipleIs(n: nat, m: nat, d: nat)
    requires d > 0 && m % d == 0 && m <= n < m + d
    ensures LastSolve(n, d) == m && Since(m, d) == 0 && (m == 0 || m >= d)
  {
    assert m == (m / d) * d;
    PairDivMod(m / d, n - m, d);
    SplitOf(m / d, d);
  }

  // The n-th command (from 1) is the solve made at the last multiple of the divisor, from the
  // estimate of that tick; before the first solve it is zero.
  lemma HeldCommand(b: Blocks, fs: seq<Frame>, n: nat, m: nat)
    requires b.div > 0 && 1 <= n <= |fs|
    requires m % b.div == 0 && m <= n < m + b.div
    ensures Commands(b, fs)[n - 1] ==
            if n < b.div then b.zero else b.solve(Control(b, fs[..m - 1]).0, b.report(EstAfter(b, fs[..m]))).1
  {
    MultipleIs(n, m, b.div);
    assert StateAt(b, fs[..m]) == b.report(EstAfter(b, fs[..m]));
    hide LastSolve, Since, Control, Commands, StateAt;
    SplitTick(n, b.div);
    CommandsAt(b, fs, n - 1);
    ControlHeld(b, fs[..n]);
    assert fs[..n][..m] == fs[..m];
    ControlAtSolve(b, fs[..m]);
    if m > 0 {
      assert fs[..m][..m - 1] == fs[..m - 1];
    }
  }

  // Each solve starts from the workspace the one before it left.
  lemma SolveFollowsSolve(b: Blocks, fs: seq<Frame>)
    requires b.div > 0 && |fs| % b.div == 0 && fs != []
    ensures |fs| >= b.div
    ensures Control(b, fs) == b.solve(Control(b, fs[..|fs| - b.div]).0, b.report(EstAfter(b, fs)))
  {
    var n, m := |fs|, |fs| - b.div;
    MultipleIs(n, n, b.div);
    Earlier(n, b.div);
    MultipleIs(n - 1, m, b.div);
    assert StateAt(b, fs) == b.report(EstAfter(b, fs));
    hide LastSolve, Since, Control, StateAt;
    ControlAtSolve(b, fs);
    ControlHeld(b, fs[..n - 1]);
    assert fs[..n - 1][..m] == fs[..m];
  }

  lemma Earlier(n: nat, d: nat)
    requires d > 0 && n % d == 0 && n >= d
    ensures (n - d) % d == 0
  {
    assert n == (n / d) * d;
    assert n - d == (n / d - 1) * d;
    PairDivMod(n / d - 1, 0, d);
  }

  // The estimate takes in every frame, from the first to the last.
  lemma EstimateNext(b: Blocks, fs: seq<Frame>, f: Frame)
    ensures EstAfter(b, []) == b.est0 && EstAfter(b, fs + [f]) == b.update(EstAfter(b, fs), f)
  {
    assert (fs + [f])[..|fs|] == fs;
  }

  // The frames are the successful reads, in order.
  lemma FramesAre(inputs: seq<Option<Frame>>, f: Frame)
    ensures Frames([]) == []
    ensures Frames(inputs + [None]) == Frames(inputs) && Frames(inputs + [Some(f)]) == Frames(inputs) + [f]
  {
    assert (inputs + [None])[..|inputs|] == inputs;
    assert (inputs + [Some(f)])[..|inputs|] == inputs;
  }

  lemma ControlAtSolve(b: Blocks, fs: seq<Frame>)
    requires b.div > 0
    ensures fs == [] ==> Control(b, fs) == (b.work0, b.zero)
    ensures fs != [] && Since(|fs|, b.div) == 0 ==>
              Control(b, fs) == b.solve(Control(b, fs[..|fs| - 1]).0, StateAt(b, fs))
  {
    hide Since, StateAt;
  }
}
