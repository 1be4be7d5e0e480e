// Every interleaving of the reader and one worker.
module MailboxRuns {
  import opened Bytes
  import opened DronePackets
  import opened DroneLink
  import opened Mailbox

  const OCTETS: nat := 48

  // In a copy, `left` are the octets not copied yet.
  datatype Worker = Spin | Copy(left: set<nat>)

  // `pos` counts the reader's actions so far; `cur` is the worker's own copy of the state and
  // `solved` the copies it has solved for.
  datatype State = State(pos: nat, obs: Obs, flag: bool, worker: Worker, cur: seq<byte>, solved: seq<seq<byte>>)

  datatype Step = ReaderActs | Take | CopyOctet(p: nat) | Solve

  function Initial(obs: Obs, cur: seq<byte>): (s: State)
  {
    State(0, obs, false, Spin, cur, [])
  }

  function OctetOf(w: Word, k: nat): (b: byte) {
    if k == 0 then w.b0 else if k == 1 then w.b1 else if k == 2 then w.b2 else w.b3
  }

  // Octet p of a state in memory.
  function OctetAt(o: Obs, p: nat): (b: byte)
    requires p < OCTETS
  {
    OctetOf(o[p / 4], p % 4)
  }

  function Below(n: nat): (s: set<nat>)
    ensures forall p: nat :: p in s <==> p < n
  {
    if n == 0 then {} else Below(n - 1) + {n - 1}
  }

  // The octets s are the state o in memory.
  predicate Holds(s: seq<byte>, o: Obs) {
    |s| == OCTETS && forall p: nat | p < OCTETS :: s[p] == OctetAt(o, p)
  }

  function Act(s: State, e: Event): (s': State) {
    match e
    case Store(_, j, value) => if j < NSTATES then s.(obs := s.obs[j := value]) else s
    case Publish(_) => s.(flag := true)
  }

  // A step that cannot be taken changes nothing.
  function After(es: seq<Event>, s: State, step: Step): (s': State) {
    match step
    case ReaderActs => if s.pos < |es| then Act(s, es[s.pos]).(pos := s.pos + 1) else s
    case Take => if s.worker.Spin? && s.flag then s.(flag := false, worker := Copy(Below(OCTETS))) else s
    case CopyOctet(p) =>
      if s.worker.Copy? && p in s.worker.left && p < OCTETS && p < |s.cur|
      then s.(cur := s.cur[p := OctetAt(s.obs, p)], worker := Copy(s.worker.left - {p}))
      else s
    case Solve =>
      if s.worker.Copy? && s.worker.left == {} then s.(solved := s.solved + [s.cur], worker := Spin) else s
  }

  function Exec(es: seq<Event>, s: State, steps: seq<Step>): (s': State) {
    if steps == [] then s else After(es, Exec(es, s, steps[..|steps| - 1]), steps[|steps| - 1])
  }

  // ---- what every interleaving keeps ------------------------------------------------

  // States written in full, and words written of the next one.
  function Done(pos: nat): (d: nat) { pos / 13 }

  function Words(pos: nat): (j: nat) { pos % 13 }

  function Bit(p: bool): (n: nat) { if p then 1 else 0 }

  // An octet of the last whole state or, where the next one is already being written, of it.
  ghost predicate Mixed(os: seq<Obs>, pos: nat, p: nat, b: byte)
    requires p < OCTETS
  {
    var d := Done(pos);
    || (1 <= d <= |os| && b == OctetAt(os[d - 1], p))
    || (d < |os| && p / 4 < Words(pos) && b == OctetAt(os[d], p))
  }

  ghost predicate AllMixed(os: seq<Obs>, pos: nat, s: seq<byte>, left: set<nat>) {
    |s| == OCTETS && forall p: nat | p < OCTETS && p !in left :: Mixed(os, pos, p, s[p])
  }

  ghost predicate Memory(os: seq<Obs>, pos: nat, obs: Obs) {
    var d, j := Done(pos), Words(pos);
    && pos <= 13 * |os|
    && (forall i | 0 <= i < j && i < NSTATES :: d < |os| && obs[i] == os[d][i])
    && (1 <= d <= |os| ==> forall i | j <= i < NSTATES :: obs[i] == os[d - 1][i])
  }

  ghost predicate Fresh(os: seq<Obs>, s: State) {
    !s.flag && Done(s.pos) >= 1 ==>
      match s.worker
      case Copy(left) => AllMixed(os, s.pos, s.cur, left)
      case Spin => s.solved != [] && AllMixed(os, s.pos, s.solved[|s.solved| - 1], {})
  }

  ghost predicate Inv(os: seq<Obs>, s: State) {
    && |s.cur| == OCTETS
    && |s.solved| + Bit(s.worker.Copy?) + Bit(s.flag) <= Done(s.pos)
    && Memory(os, s.pos, s.obs) && Fresh(os, s)
  }

  lemma MixedGrows(os: seq<Obs>, pos: nat, p: nat, b: byte)
    requires p < OCTETS && Mixed(os, pos, p, b) && Done(pos + 1) == Done(pos)
    ensures Mixed(os, pos + 1, p, b)
  {
  }

  lemma PosNext(pos: nat)
    ensures Words(pos) < 12 ==> Done(pos + 1) == Done(pos) && Words(pos + 1) == Words(pos) + 1
    ensures Words(pos) >= 12 ==> Words(pos) == 12 && Done(pos + 1) == Done(pos) + 1 && Words(pos + 1) == 0
    ensures pos == 13 * Done(pos) + Words(pos) && Words(pos) < 13
  {
  }

  // Storing a word of the next state.
  lemma StoreKeeps(os: seq<Obs>, s: State, s': State)
    requires Inv(os, s) && Done(s.pos) < |os| && Words(s.pos) < NSTATES
    requires s' == s.(obs := s.obs[Words(s.pos) := os[Done(s.pos)][Words(s.pos)]], pos := s.pos + 1)
    ensures Inv(os, s')
  {
    PosNext(s.pos);
    hide Done, Words, Mixed;
    if !s.flag && Done(s.pos) >= 1 {
      var t := if s.worker.Copy? then s.cur else s.solved[|s.solved| - 1];
      forall p: nat | p < OCTETS && Mixed(os, s.pos, p, t[p]) ensures Mixed(os, s.pos + 1, p, t[p]) {
        MixedGrows(os, s.pos, p, t[p]);
      }
    }
  }

  // Raising the flag after the last word.
  lemma PublishKeeps(os: seq<Obs>, s: State, s': State)
    requires Inv(os, s) && Done(s.pos) < |os| && Words(s.pos) == NSTATES
    requires s' == s.(flag := true, pos := s.pos + 1)
    ensures Inv(os, s')
  {
    PosNext(s.pos);
    hide Done, Words;
  }

  lemma ReaderKeeps(os: seq<Obs>, id: nat, s: State)
    requires Inv(os, s)
    ensures Inv(os, After(Program(id, os), s, ReaderActs))
  {
    var es, d, j := Program(id, os), Done(s.pos), Words(s.pos);
    PosNext(s.pos);
    hide Done, Words, Fresh, Program;
    if d < |os| {
      ProgramAt(id, os, d, j);
      if j < NSTATES {
        StoreKeeps(os, s, After(es, s, ReaderActs));
      } else {
        PublishKeeps(os, s, After(es, s, ReaderActs));
      }
    } else {
      ProgramLength(id, os);
    }
  }

  lemma ProgramLength(id: nat, os: seq<Obs>)
    ensures |Program(id, os)| == 13 * |os|
  {
    if os != [] {
      ProgramAt(id, os, 0, 0);
    }
  }

  // Copying an octet takes it from the last whole state or the one being written.
  lemma CopyKeeps(os: seq<Obs>, es: seq<Event>, s: State, p: nat)
    requires Inv(os, s)
    ensures Inv(os, After(es, s, CopyOctet(p)))
  {
    PosNext(s.pos);
    hide Done, Words;
    if s.worker.Copy? && p in s.worker.left && p < OCTETS && !s.flag && Done(s.pos) >= 1 {
      var i := p / 4;
      assert Mixed(os, s.pos, p, OctetAt(s.obs, p)) by {
        if i < Words(s.pos) {
          assert s.obs[i] == os[Done(s.pos)][i];
        } else {
          assert s.obs[i] == os[Done(s.pos) - 1][i];
        }
      }
    }
  }

  lemma WorkerKeeps(os: seq<Obs>, es: seq<Event>, s: State, step: Step)
    requires Inv(os, s) && (step.Take? || step.Solve?)
    ensures Inv(os, After(es, s, step))
  {
    hide Done, Words, Mixed, Memory;
  }

  lemma StepKeeps(os: seq<Obs>, id: nat, s: State, step: Step)
    requires Inv(os, s)
    ensures Inv(os, After(Program(id, os), s, step))
  {
    hide Inv, Program;
    match step
    case ReaderActs => ReaderKeeps(os, id, s);
    case CopyOctet(p) => CopyKeeps(os, Program(id, os), s, p);
    case Take => WorkerKeeps(os, Program(id, os), s, step);
    case Solve => WorkerKeeps(os, Program(id, os), s, step);
  }

  lemma {:induction false} Always(os: seq<Obs>, id: nat, obs: Obs, cur: seq<byte>, steps: seq<Step>)
    requires |cur| == OCTETS
    ensures Inv(os, Exec(Program(id, os), Initial(obs, cur), steps))
  {
    if steps != [] {
      hide Inv, Program;
      Always(os, id, obs, cur, steps[..|steps| - 1]);
      StepKeeps(os, id, Exec(Program(id, os), Initial(obs, cur), steps[..|steps| - 1]), steps[|steps| - 1]);
    }
  }

  // The words of the state one after the other, each in its own octet order.
  lemma HeldWord(s: seq<byte>, o: Obs, i: nat)
    requires Holds(s, o) && i < 12
    ensures |s| == 48
    ensures s[4 * i] == o[i].b0 && s[4 * i + 1] == o[i].b1 && s[4 * i + 2] == o[i].b2 && s[4 * i + 3] == o[i].b3
  {
    assert s[4 * i] == OctetAt(o, 4 * i) && s[4 * i + 1] == OctetAt(o, 4 * i + 1);
    assert s[4 * i + 2] == OctetAt(o, 4 * i + 2) && s[4 * i + 3] == OctetAt(o, 4 * i + 3);
  }

  // The worker solves at most once for each state, and whenever the reader is between states,
  // the flag is down and the worker is back at its spin, the last solve used exactly the last
  // state written, however torn any earlier copy was.
  lemma LastSolveIsLastState(os: seq<Obs>, id: nat, obs: Obs, cur: seq<byte>, steps: seq<Step>)
    requires |cur| == OCTETS
    ensures
      var s := Exec(Program(id, os), Initial(obs, cur), steps);
      var d := s.pos / 13;
      && |s.solved| <= d <= |os|
      && (s.pos % 13 == 0 && !s.flag && s.worker.Spin? && d >= 1 ==>
            s.solved != [] && Holds(s.solved[|s.solved| - 1], os[d - 1]))
  {
    hide Program, Exec;
    Always(os, id, obs, cur, steps);
    var s := Exec(Program(id, os), Initial(obs, cur), steps);
    PosNext(s.pos);
    var d := Done(s.pos);
    if Words(s.pos) == 0 && !s.flag && s.worker.Spin? && d >= 1 {
      var last, o := s.solved[|s.solved| - 1], os[d - 1];
      forall p: nat | p < OCTETS ensures last[p] == OctetAt(o, p) {
        assert Mixed(os, s.pos, p, last[p]);
      }
    }
  }

  // The same from the wire: the reader's actions are those it takes on the octets of any
  // packets after any prefix without a header.
  lemma LastSolveFromWire(garbage: seq<byte>, packets: seq<seq<Obs>>, id: nat, obs: Obs, cur: seq<byte>,
                          steps: seq<Step>)
    requires HeaderFree(garbage) && AllPackable(packets) && packets != [] && |cur| == OCTETS
    ensures
      var es := Only(DronePackets.Run(Hunt(0), garbage + AllBytes(packets)).events, id);
      var os, s := StatesFor(packets, id), Exec(es, Initial(obs, cur), steps);
      var d := s.pos / 13;
      && |s.solved| <= d <= |os|
      && (s.pos % 13 == 0 && !s.flag && s.worker.Spin? && d >= 1 ==>
            s.solved != [] && Holds(s.solved[|s.solved| - 1], os[d - 1]))
  {
    hide DronePackets.Run, Only, Program, Exec, Holds, StatesFor, AllBytes, AllEvents, HeaderFree;
    StreamReceived(garbage, packets);
    ReaderProgram(packets, id);
    LastSolveIsLastState(StatesFor(packets, id), id, obs, cur, steps);
  }

  // ---- nothing above is empty -------------------------------------------------------

  lemma ExecNext(es: seq<Event>, s: State, steps: seq<Step>, step: Step)
    ensures Exec(es, s, steps + [step]) == After(es, Exec(es, s, steps), step)
  {
    assert (steps + [step])[..|steps|] == steps;
  }

  // The reader's next j actions while the worker waits.
  lemma {:induction false} ReaderWrites(os: seq<Obs>, id: nat, s0: State, before: seq<Step>, k: nat, j: nat)
    returns (steps: seq<Step>)
    requires k < |os| && j <= 13
    requires var s := Exec(Program(id, os), s0, before); s.pos == 13 * k && !s.flag
    ensures var s, s' := Exec(Program(id, os), s0, before), Exec(Program(id, os), s0, steps);
            s' == s.(pos := 13 * k + j, flag := j == 13, obs := s'.obs)
  {
    hide Program, Exec, ActAt;
    if j == 0 {
      steps := before;
    } else {
      var most := ReaderWrites(os, id, s0, before, k, j - 1);
      steps := most + [ReaderActs];
      ExecNext(Program(id, os), s0, most, ReaderActs);
      ProgramAt(id, os, k, j - 1);
      ActAtIs(id, os[k], j - 1);
    }
  }

  lemma ActAtIs(id: nat, o: Obs, i: nat)
    requires i < 13
    ensures ActAt(id, o, i) == if i < 12 then Store(id, i, o[i]) else Publish(id)
  {
  }

  // The worker's first p octets after it has taken the flag.
  lemma {:induction false} WorkerCopies(es: seq<Event>, s0: State, before: seq<Step>, p: nat) returns (steps: seq<Step>)
    requires p <= OCTETS
    requires var s := Exec(es, s0, before); s.flag && s.worker.Spin? && |s.cur| == OCTETS
    ensures var s, s' := Exec(es, s0, before), Exec(es, s0, steps);
            && s' == s.(flag := false, worker := s'.worker, cur := s'.cur)
            && |s'.cur| == OCTETS && s'.worker.Copy? && forall q: nat :: q in s'.worker.left <==> p <= q < OCTETS
  {
    hide Exec, OctetAt;
    if p == 0 {
      steps := before + [Take];
      ExecNext(es, s0, before, Take);
    } else {
      var most := WorkerCopies(es, s0, before, p - 1);
      steps := most + [CopyOctet(p - 1)];
      ExecNext(es, s0, most, CopyOctet(p - 1));
    }
  }

  // There are runs in which the worker solves for each of the states, in order.
  lemma {:induction false} AllSolved(os: seq<Obs>, id: nat, obs: Obs, cur: seq<byte>, k: nat) returns (steps: seq<Step>)
    requires |cur| == OCTETS && k <= |os|
    ensures
      var s := Exec(Program(id, os), Initial(obs, cur), steps);
      && s.pos == 13 * k && !s.flag && s.worker.Spin? && |s.solved| == k
      && forall i | 0 <= i < k :: Holds(s.solved[i], os[i])
  {
    hide Program, Exec, Holds;
    var es, s0 := Program(id, os), Initial(obs, cur);
    if k == 0 {
      steps := [];
      ExecNone(es, s0);
    } else {
      var front := AllSolved(os, id, obs, cur, k - 1);
      var written := ReaderWrites(os, id, s0, front, k - 1, 13);
      Always(os, id, obs, cur, written);
      CopyIsWhole(os, Exec(es, s0, written));
      var copied := WorkerCopies(es, s0, written, OCTETS);
      steps := copied + [Solve];
      ExecNext(es, s0, copied, Solve);
      var s := Exec(es, s0, copied);
      assert s.worker.left == {} by {
        forall q: nat ensures q !in s.worker.left {
        }
      }
      LastSolveIsLastState(os, id, obs, cur, steps);
      Thirteen(k);
    }
  }

  lemma Thirteen(k: nat)
    ensures (13 * k) / 13 == k && (13 * k) % 13 == 0
  {
  }

  lemma ExecNone(es: seq<Event>, s: State)
    ensures Exec(es, s, []) == s
  {
  }

  lemma CopyIsWhole(os: seq<Obs>, s: State)
    requires Inv(os, s)
    ensures |s.cur| == OCTETS
  {
  }
}
