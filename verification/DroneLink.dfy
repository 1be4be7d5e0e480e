// From the host's packets to the drones' mailboxes: the reader finds every packet after any
// prefix without a header, and stays aligned.
module DroneLink {
  import opened Bytes
  import opened DronePackets

  // ---- what a packet should do ------------------------------------------------------

  function Stores(id: nat, o: Obs, j: nat): (es: seq<Event>)
    requires j <= NSTATES
    decreases NSTATES - j
  {
    if j == NSTATES then [] else [Store(id, j, o[j])] + Stores(id, o, j + 1)
  }

  function StateEvents(id: nat, o: Obs): (es: seq<Event>) { Stores(id, o, 0) + [Publish(id)] }

  function StatesEvents(states: seq<Obs>, id: nat): (es: seq<Event>)
    requires id <= |states|
    decreases |states| - id
  {
    if id == |states| then [] else StateEvents(id, states[id]) + StatesEvents(states, id + 1)
  }

  // A packet of more states than there are drones is dropped whole.
  function PacketEvents(states: seq<Obs>): (es: seq<Event>) {
    if |states| > NUM_DRONES then [] else StatesEvents(states, 0)
  }

  ghost predicate AllPackable(packets: seq<seq<Obs>>) { forall p <- packets :: Packable(p) }

  function AllBytes(packets: seq<seq<Obs>>): (s: seq<byte>)
    requires AllPackable(packets)
  {
    if packets == [] then [] else AllBytes(packets[..|packets| - 1]) + PacketBytes(packets[|packets| - 1])
  }

  function AllEvents(packets: seq<seq<Obs>>): (es: seq<Event>) {
    if packets == [] then [] else AllEvents(packets[..|packets| - 1]) + PacketEvents(packets[|packets| - 1])
  }

  // ---- one packet -------------------------------------------------------------------

  function AfterWord(num: nat, id: nat, j: nat): (rx: Rx) {
    if j + 1 < NSTATES then Read(num, id, j + 1, []) else if id + 1 < num then Read(num, id + 1, 0, []) else Hunt(0)
  }

  lemma RunOne(rx: Rx, b: byte)
    requires Legal(rx)
    ensures Run(rx, [b]) == Next(rx, b)
  {
    RunSnoc(rx, [], b);
    assert [] + [b] == [b];
    assert [] + Next(rx, b).events == Next(rx, b).events;
  }

  function WordEvents(id: nat, j: nat, w: Word): (es: seq<Event>) {
    if j + 1 < NSTATES then [Store(id, j, w)] else [Store(id, j, w), Publish(id)]
  }

  lemma RunTwo(rx: Rx, s: seq<byte>, b: byte, mid: Rx)
    requires Legal(rx) && Run(rx, s) == Trace(mid, [])
    ensures Run(rx, s + [b]) == Next(mid, b)
  {
    hide Run, Next;
    RunSnoc(rx, s, b);
    assert [] + Next(mid, b).events == Next(mid, b).events;
  }

  lemma PartGrows(num: nat, id: nat, j: nat, part: seq<byte>, b: byte)
    requires Legal(Read(num, id, j, part)) && |part| < 3
    ensures Next(Read(num, id, j, part), b) == Trace(Read(num, id, j, part + [b]), [])
  {
  }

  lemma PartEnds(num: nat, id: nat, j: nat, part: seq<byte>, b: byte)
    requires Legal(Read(num, id, j, part)) && |part| == 3
    ensures Next(Read(num, id, j, part), b) ==
            Trace(AfterWord(num, id, j), WordEvents(id, j, Word(part[0], part[1], part[2], b)))
  {
  }

  lemma WordRun(num: nat, id: nat, j: nat, w: Word)
    requires id < num <= NUM_DRONES && j < NSTATES
    ensures Run(Read(num, id, j, []), WordBytes(w)) == Trace(AfterWord(num, id, j), WordEvents(id, j, w))
  {
    hide Run, Next, WordEvents, AfterWord;
    var rx := Read(num, id, j, []);
    PartGrows(num, id, j, [], w.b0);
    PartGrows(num, id, j, [w.b0], w.b1);
    PartGrows(num, id, j, [w.b0, w.b1], w.b2);
    PartEnds(num, id, j, [w.b0, w.b1, w.b2], w.b3);
    assert [] + [w.b0] == [w.b0];
    assert [w.b0] + [w.b1] == [w.b0, w.b1];
    assert [w.b0, w.b1] + [w.b2] == [w.b0, w.b1, w.b2];
    assert [w.b0, w.b1, w.b2] + [w.b3] == WordBytes(w);
    RunOne(rx, w.b0);
    RunTwo(rx, [w.b0], w.b1, Read(num, id, j, [w.b0]));
    RunTwo(rx, [w.b0, w.b1], w.b2, Read(num, id, j, [w.b0, w.b1]));
    RunTwo(rx, [w.b0, w.b1, w.b2], w.b3, Read(num, id, j, [w.b0, w.b1, w.b2]));
  }

  lemma StoresNext(id: nat, o: Obs, j: nat)
    requires j < NSTATES
    ensures Stores(id, o, j) + [Publish(id)] ==
            if j + 1 < NSTATES then WordEvents(id, j, o[j]) + (Stores(id, o, j + 1) + [Publish(id)])
            else WordEvents(id, j, o[j])
  {
  }

  lemma {:induction false} StateRun(num: nat, id: nat, o: Obs, j: nat)
    requires id < num <= NUM_DRONES && j < NSTATES
    ensures Run(Read(num, id, j, []), WordsBytes(o[j..])) ==
            Trace(AfterWord(num, id, NSTATES - 1), Stores(id, o, j) + [Publish(id)])
    decreases NSTATES - j
  {
    hide Run, WordBytes, WordEvents, Stores;
    var rx := Read(num, id, j, []);
    assert o[j..][1..] == o[j + 1..];
    WordRun(num, id, j, o[j]);
    StoresNext(id, o, j);
    if j + 1 < NSTATES {
      StateRun(num, id, o, j + 1);
      RunAppend(rx, WordBytes(o[j]), WordsBytes(o[j + 1..]));
    } else {
      assert WordBytes(o[j]) + [] == WordBytes(o[j]);
    }
  }

  lemma {:induction false} StatesRun(states: seq<Obs>, id: nat)
    requires id < |states| <= NUM_DRONES
    ensures Run(Read(|states|, id, 0, []), StatesBytes(states[id..])) == Trace(Hunt(0), StatesEvents(states, id))
    decreases |states| - id
  {
    hide Run, WordsBytes;
    var rx := Read(|states|, id, 0, []);
    assert states[id..][1..] == states[id + 1..];
    assert states[id][0..] == states[id];
    StateRun(|states|, id, states[id], 0);
    if id + 1 < |states| {
      StatesRun(states, id + 1);
      RunAppend(rx, WordsBytes(states[id]), StatesBytes(states[id + 1..]));
    } else {
      assert WordsBytes(states[id]) + [] == WordsBytes(states[id]);
      assert StateEvents(id, states[id]) + [] == StateEvents(id, states[id]);
    }
  }

  lemma {:induction false} SkipRun(left: nat, s: seq<byte>)
    requires 0 < left && |s| <= left
    ensures Run(Skip(left), s) == Trace(if |s| == left then Hunt(0) else Skip(left - |s|), [])
  {
    if s != [] {
      SkipRun(left, s[..|s| - 1]);
    }
  }

  // A header is found whatever part of one came before it.
  lemma HeaderRun(matched: nat)
    requires matched < 4
    ensures Run(Hunt(matched), HEADER) == Trace(Count, [])
  {
    var rx := Hunt(matched);
    RunOne(rx, 0xDE);
    RunSnoc(rx, [0xDE], 0xAD);
    assert [0xDE] + [0xAD] == [0xDE, 0xAD];
    RunSnoc(rx, [0xDE, 0xAD], 0xBE);
    assert [0xDE, 0xAD] + [0xBE] == [0xDE, 0xAD, 0xBE];
    RunSnoc(rx, [0xDE, 0xAD, 0xBE], 0xEF);
    assert [0xDE, 0xAD, 0xBE] + [0xEF] == HEADER;
  }

  lemma CountRun(n: nat)
    requires n < 0x100
    ensures Run(Count, [Octet(n)]) ==
            Trace(if n > NUM_DRONES then Skip(n * NSTATES * 4) else if n == 0 then Hunt(0) else Read(n, 0, 0, []), [])
  {
    RunOne(Count, Octet(n));
  }

  lemma BodyRun(states: seq<Obs>)
    requires Packable(states)
    ensures Run(Count, [Octet(|states|)] + StatesBytes(states)) == Trace(Hunt(0), PacketEvents(states))
  {
    hide Run, StatesEvents, Octet, StatesBytes;
    var n := |states|;
    RunAppend(Count, [Octet(n)], StatesBytes(states));
    CountRun(n);
    if n > NUM_DRONES {
      SkipRun(n * NSTATES * 4, StatesBytes(states));
    } else if n == 0 {
      NoStates(states);
    } else {
      assert states[0..] == states;
      StatesRun(states, 0);
    }
  }

  lemma NoStates(states: seq<Obs>)
    requires states == []
    ensures Run(Hunt(0), StatesBytes(states)) == Trace(Hunt(0), []) && PacketEvents(states) == []
  {
  }

  // A packet, from any partial match: exactly its states, in order, and aligned after it.
  lemma PacketRun(matched: nat, states: seq<Obs>)
    requires matched < 4 && Packable(states)
    ensures Run(Hunt(matched), PacketBytes(states)) == Trace(Hunt(0), PacketEvents(states))
  {
    hide Run, PacketEvents;
    var body := [Octet(|states|)] + StatesBytes(states);
    assert PacketBytes(states) == HEADER + body;
    RunAppend(Hunt(matched), HEADER, body);
    HeaderRun(matched);
    BodyRun(states);
  }

  // ---- garbage ----------------------------------------------------------------------

  predicate HeaderAt(g: seq<byte>, i: nat) { i + 4 <= |g| && g[i..i + 4] == HEADER }

  ghost predicate HeaderFree(g: seq<byte>) { forall i | 0 <= i <= |g| :: !HeaderAt(g, i) }

  // g ends with the first k octets of a header.
  ghost predicate EndsWith(g: seq<byte>, k: nat) {
    k <= 4 && k <= |g| && forall j | 0 <= j < k :: g[|g| - k + j] == HEADER[j]
  }

  lemma FreePrefix(v: seq<byte>, b: byte)
    requires HeaderFree(v + [b])
    ensures HeaderFree(v)
  {
    forall i | 0 <= i <= |v| ensures !HeaderAt(v, i) {
      assert !HeaderAt(v + [b], i);
      if i + 4 <= |v| {
        assert v[i..i + 4] == (v + [b])[i..i + 4];
      }
    }
  }

  lemma MatchGrows(v: seq<byte>, b: byte, k: nat)
    requires k < 4 && EndsWith(v, k)
    ensures EndsWith(v + [b], Matched(k, b))
  {
    var g, m := v + [b], Matched(k, b);
    if b == HEADER[k] {
      forall j | 0 <= j < m ensures g[|g| - m + j] == HEADER[j] {
        if j < k {
          assert g[|g| - m + j] == v[|v| - k + j];
        }
      }
    }
  }

  lemma WholeMatch(g: seq<byte>)
    requires EndsWith(g, 4)
    ensures HeaderAt(g, |g| - 4)
  {
    var h := g[|g| - 4..|g|];
    assert h[0] == g[|g| - 4 + 0] && h[1] == g[|g| - 4 + 1] && h[2] == g[|g| - 4 + 2] && h[3] == g[|g| - 4 + 3];
  }

  // The reader's match is a suffix that begins a header, and it never gets to a whole one.
  lemma {:induction false} GarbageRun(g: seq<byte>) returns (k: nat)
    requires HeaderFree(g)
    ensures k < 4 && EndsWith(g, k)
    ensures Run(Hunt(0), g) == Trace(Hunt(k), [])
  {
    hide HeaderAt, EndsWith, HeaderFree;
    if g == [] {
      k := 0;
      EmptyMatch();
    } else {
      var v, b := g[..|g| - 1], g[|g| - 1];
      assert g == v + [b];
      FreePrefix(v, b);
      var before := GarbageRun(v);
      RunTwo(Hunt(0), v, b, Hunt(before));
      MatchGrows(v, b, before);
      k := Matched(before, b);
      NotWhole(g, k);
    }
  }

  lemma EmptyMatch()
    ensures EndsWith([], 0) && Run(Hunt(0), []) == Trace(Hunt(0), [])
  {
  }

  lemma NotWhole(g: seq<byte>, k: nat)
    requires HeaderFree(g) && EndsWith(g, k)
    ensures k < 4
  {
    if k == 4 {
      WholeMatch(g);
    }
  }

  // After any prefix without a header, any packets are received exactly and in order, and the
  // reader is aligned at the end, whatever the states contain.
  lemma StreamReceived(garbage: seq<byte>, packets: seq<seq<Obs>>)
    requires HeaderFree(garbage) && AllPackable(packets) && packets != []
    ensures Run(Hunt(0), garbage + AllBytes(packets)) == Trace(Hunt(0), AllEvents(packets))
  {
    hide Run, PacketEvents, PacketBytes;
    var k := GarbageRun(garbage);
    RunAppend(Hunt(0), garbage, AllBytes(packets));
    FromPartial(k, packets);
  }

  lemma {:induction false} FromPartial(k: nat, packets: seq<seq<Obs>>)
    requires k < 4 && AllPackable(packets) && packets != []
    ensures Run(Hunt(k), AllBytes(packets)) == Trace(Hunt(0), AllEvents(packets))
  {
    hide Run, PacketEvents, PacketBytes;
    var before, last := packets[..|packets| - 1], packets[|packets| - 1];
    if before == [] {
      PacketRun(k, last);
      assert AllBytes(packets) == PacketBytes(last);
      assert AllEvents(packets) == PacketEvents(last);
    } else {
      FromPartial(k, before);
      PacketRun(0, last);
      RunAppend(Hunt(k), AllBytes(before), PacketBytes(last));
    }
  }
}
