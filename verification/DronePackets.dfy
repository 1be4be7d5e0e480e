// The multi-drone link: the host's state packets and the target's byte reader.
module DronePackets {
  import opened Bytes

  const NUM_DRONES: nat := 4
  const NSTATES: nat := 12
  const HEADER: seq<byte> := [0xDE, 0xAD, 0xBE, 0xEF]

  // The four octets of a float, in memory order, and the state of one drone.
  datatype Word = Word(b0: byte, b1: byte, b2: byte, b3: byte)
  type Obs = s: seq<Word> | |s| == NSTATES witness seq(NSTATES, i => Word(0, 0, 0, 0))

  // ---- the host's packets -----------------------------------------------------------

  function WordBytes(w: Word): (s: seq<byte>) { [w.b0, w.b1, w.b2, w.b3] }

  function WordsBytes(ws: seq<Word>): (s: seq<byte>)
    ensures |s| == 4 * |ws|
  {
    if ws == [] then [] else WordBytes(ws[0]) + WordsBytes(ws[1..])
  }

  function StatesBytes(states: seq<Obs>): (s: seq<byte>)
    ensures |s| == 4 * NSTATES * |states|
  {
    if states == [] then [] else WordsBytes(states[0]) + StatesBytes(states[1..])
  }

  // A packet: header, number of states, states. Packing the number fails above 255.
  predicate Packable(states: seq<Obs>) { |states| < 0x100 }

  function PacketBytes(states: seq<Obs>): (s: seq<byte>)
    requires Packable(states)
  {
    HEADER + [Octet(|states|)] + StatesBytes(states)
  }

  // send_states_all: the packet is grown state by state.
  method SendStatesAll(states: seq<Obs>) returns (packet: Option<seq<byte>>)
    ensures packet == if Packable(states) then Some(PacketBytes(states)) else None
  {
    if |states| >= 0x100 {
      return None;
    }
    var p := HEADER;
    p := p + [Octet(|states|)];
    assert states[0..] == states;
    var i := 0;
    while i < |states|
      invariant i <= |states| && p + StatesBytes(states[i..]) == PacketBytes(states)
    {
      assert states[i..][1..] == states[i + 1..];
      ghost var before := p;
      p := p + WordsBytes(states[i]);
      assert before + (WordsBytes(states[i]) + StatesBytes(states[i + 1..])) == p + StatesBytes(states[i + 1..]);
      i := i + 1;
    }
    assert StatesBytes(states[i..]) == [] && p + [] == p;
    return Some(p);
  }

  // ---- the target's reader ----------------------------------------------------------

  // Where the reader is between two octets.
  datatype Rx = Hunt(matched: nat) | Count | Skip(left: nat) | Read(num: nat, id: nat, j: nat, part: seq<byte>)

  // What it does to the drones' mailboxes.
  datatype Event = Store(id: nat, j: nat, value: Word) | Publish(id: nat)

  datatype Trace = Trace(rx: Rx, events: seq<Event>)

  predicate Legal(rx: Rx) {
    match rx
    case Hunt(matched) => matched < 4
    case Count => true
    case Skip(left) => left > 0
    case Read(num, id, j, part) => id < num <= NUM_DRONES && j < NSTATES && |part| < 4
  }

  // The octet b extends the match, restarts it, or ends it.
  function Matched(matched: nat, b: byte): (m: nat)
    requires matched < 4
  {
    if b == HEADER[matched] then matched + 1 else if b == HEADER[0] then 1 else 0
  }

  function Next(rx: Rx, b: byte): (t: Trace)
    requires Legal(rx)
    ensures Legal(t.rx)
  {
    match rx
    case Hunt(matched) =>
      var m := Matched(matched, b);
      Trace(if m == 4 then Count else Hunt(m), [])
    case Count =>
      var num := b as nat;
      Trace(if num > NUM_DRONES then Skip(num * NSTATES * 4) else if num == 0 then Hunt(0) else Read(num, 0, 0, []), [])
    case Skip(left) => Trace(if left == 1 then Hunt(0) else Skip(left - 1), [])
    case Read(num, id, j, part) =>
      if |part| < 3 then Trace(Read(num, id, j, part + [b]), [])
      else
        var stored := Store(id, j, Word(part[0], part[1], part[2], b));
        if j + 1 < NSTATES then Trace(Read(num, id, j + 1, []), [stored])
        else Trace(if id + 1 < num then Read(num, id + 1, 0, []) else Hunt(0), [stored, Publish(id)])
  }

  function Run(rx: Rx, s: seq<byte>): (t: Trace)
    requires Legal(rx)
    ensures Legal(t.rx)
  {
    if s == [] then Trace(rx, [])
    else
      var before := Run(rx, s[..|s| - 1]);
      var step := Next(before.rx, s[|s| - 1]);
      Trace(step.rx, before.events + step.events)
  }

  lemma RunSnoc(rx: Rx, s: seq<byte>, b: byte)
    requires Legal(rx)
    ensures Run(rx, s + [b]) ==
            var before := Run(rx, s);
            var step := Next(before.rx, b);
            Trace(step.rx, before.events + step.events)
  {
    assert (s + [b])[..|s|] == s;
  }

  lemma {:induction false} RunAppend(rx: Rx, s: seq<byte>, u: seq<byte>)
    requires Legal(rx)
    ensures Run(rx, s + u) == Trace(Run(Run(rx, s).rx, u).rx, Run(rx, s).events + Run(Run(rx, s).rx, u).events)
  {
    hide Next;
    if u == [] {
      assert s + u == s;
    } else {
      var v, b := u[..|u| - 1], u[|u| - 1];
      assert u == v + [b] && s + u == (s + v) + [b];
      RunAppend(rx, s, v);
      RunSnoc(rx, s + v, b);
      RunSnoc(Run(rx, s).rx, v, b);
    }
  }

  lemma OneOctet(input: seq<byte>, pos: nat)
    requires pos < |input|
    ensures Run(Hunt(0), input[..pos + 1]) ==
            var before := Run(Hunt(0), input[..pos]);
            var step := Next(before.rx, input[pos]);
            Trace(step.rx, before.events + step.events)
  {
    assert input[..pos + 1][..pos] == input[..pos];
  }

  // The reader loop of main on a finite stream; it returns where it would wait for ever.
  method ReaderLoop(input: seq<byte>) returns (events: seq<Event>)
    ensures events == Run(Hunt(0), input).events
  {
    hide Run;
    assert input[..|input|] == input;
    events := [];
    var pos, matched := 0, 0;
    EmptyRun(input);
    while true
      invariant pos <= |input| && matched == 0
      invariant Run(Hunt(0), input[..pos]) == Trace(Hunt(0), events)
      decreases |input| - pos
    {
      ghost var start := pos;
      while matched < 4
        invariant start <= pos <= |input| && matched <= 4 && (matched > 0 ==> start < pos)
        invariant Run(Hunt(0), input[..pos]) == Trace(if matched == 4 then Count else Hunt(matched), events)
        decreases |input| - pos
      {
        if pos == |input| {
          return;
        }
        OneOctet(input, pos);
        var rx := input[pos];
        pos := pos + 1;
        matched := if rx == HEADER[matched] then matched + 1 else if rx == HEADER[0] then 1 else 0;
      }
      if pos == |input| {
        return;
      }
      OneOctet(input, pos);
      var num := input[pos] as nat;
      pos := pos + 1;
      if num > NUM_DRONES {
        var skip := num * NSTATES * 4;
        for i := 0 to skip
          invariant start < pos <= |input|
          invariant Run(Hunt(0), input[..pos]) == Trace(if i == skip then Hunt(0) else Skip(skip - i), events)
        {
          if pos == |input| {
            return;
          }
          OneOctet(input, pos);
          pos := pos + 1;
        }
        matched := 0;
        continue;
      }
      for id := 0 to num
        invariant start < pos <= |input|
        invariant Run(Hunt(0), input[..pos]) == Trace(if id == num then Hunt(0) else Read(num, id, 0, []), events)
      {
        var more: bool;
        ghost var last := if id + 1 < num then Read(num, id + 1, 0, []) else Hunt(0);
        for j := 0 to NSTATES
          invariant start < pos <= |input|
          invariant Run(Hunt(0), input[..pos]) ==
                    if j == NSTATES then Trace(last, events + [Publish(id)]) else Trace(Read(num, id, j, []), events)
        {
          more, pos, events := ReadWord(input, pos, events, num, id, j);
          if !more {
            return;
          }
        }
        events := events + [Publish(id)];
      }
      matched := 0;
    }
  }

  lemma EmptyRun(input: seq<byte>)
    ensures Run(Hunt(0), input[..0]) == Trace(Hunt(0), [])
  {
  }

  // One float of a state, octet by octet; false when the stream ends inside it.
  method ReadWord(input: seq<byte>, start: nat, before: seq<Event>, num: nat, id: nat, j: nat)
    returns (more: bool, pos: nat, events: seq<Event>)
    requires start <= |input| && id < num <= NUM_DRONES && j < NSTATES
    requires Run(Hunt(0), input[..start]) == Trace(Read(num, id, j, []), before)
    ensures start <= pos <= |input|
    ensures !more ==> events == Run(Hunt(0), input).events
    ensures more ==>
              Run(Hunt(0), input[..pos]) ==
              if j + 1 < NSTATES then Trace(Read(num, id, j + 1, []), events)
              else Trace(if id + 1 < num then Read(num, id + 1, 0, []) else Hunt(0), events + [Publish(id)])
  {
    hide Run;
    pos, events := start, before;
    var value: seq<byte> := [];
    while |value| < 4
      invariant start <= pos <= |input| && |value| <= 4
      invariant |value| < 4 ==> Run(Hunt(0), input[..pos]) == Trace(Read(num, id, j, value), before)
      invariant |value| == 4 ==>
                  var stored := before + [Store(id, j, Word(value[0], value[1], value[2], value[3]))];
                  Run(Hunt(0), input[..pos]) ==
                  if j + 1 < NSTATES then Trace(Read(num, id, j + 1, []), stored)
                  else Trace(if id + 1 < num then Read(num, id + 1, 0, []) else Hunt(0), stored + [Publish(id)])
      decreases |input| - pos
    {
      if pos == |input| {
        assert input[..pos] == input;
        return false, pos, events;
      }
      OneOctet(input, pos);
      value := value + [input[pos]];
      pos := pos + 1;
    }
    events := events + [Store(id, j, Word(value[0], value[1], value[2], value[3]))];
    return true, pos, events;
  }
}
