// One drone's mailbox: the reader writes its state word by word and raises a flag; the worker
// spins on the flag, copies the state octet by octet in any order, and solves. The two run in
// any interleaving, with no lock.
module Mailbox {
  import opened DronePackets
  import opened DroneLink

  // Twelve words and a flag for each state.
  const ACTS: nat := 13

  // ---- what the reader does to this mailbox -----------------------------------------

  // The states that the packets carry for drone id, in order.
  function StatesFor(packets: seq<seq<Obs>>, id: nat): (os: seq<Obs>) {
    if packets == [] then []
    else
      var before, p := StatesFor(packets[..|packets| - 1], id), packets[|packets| - 1];
      if |p| <= NUM_DRONES && id < |p| then before + [p[id]] else before
  }

  function Program(id: nat, os: seq<Obs>): (es: seq<Event>) {
    if os == [] then [] else Program(id, os[..|os| - 1]) + StateEvents(id, os[|os| - 1])
  }

  // The i-th action of writing one state.
  function ActAt(id: nat, o: Obs, i: nat): (e: Event)
    requires i < ACTS
  {
    if i < NSTATES then Store(id, i, o[i]) else Publish(id)
  }

  lemma {:induction false} StoresAt(id: nat, o: Obs, j: nat)
    requires j <= NSTATES
    ensures |Stores(id, o, j)| == NSTATES - j
    ensures forall i | 0 <= i < NSTATES - j :: Stores(id, o, j)[i] == Store(id, j + i, o[j + i])
    decreases NSTATES - j
  {
    if j < NSTATES {
      StoresAt(id, o, j + 1);
    }
  }

  lemma StateEventsAt(id: nat, o: Obs)
    ensures |StateEvents(id, o)| == ACTS
    ensures forall i | 0 <= i < ACTS :: StateEvents(id, o)[i] == ActAt(id, o, i)
  {
    hide Stores;
    StoresAt(id, o, 0);
  }

  function IdOf(e: Event): (id: nat) { e.id }

  function Only(es: seq<Event>, id: nat): (r: seq<Event>) {
    if es == [] then []
    else if IdOf(es[|es| - 1]) == id then Only(es[..|es| - 1], id) + [es[|es| - 1]]
    else Only(es[..|es| - 1], id)
  }

  lemma {:induction false} OnlyAppend(a: seq<Event>, b: seq<Event>, id: nat)
    ensures Only(a + b, id) == Only(a, id) + Only(b, id)
  {
    if b == [] {
      assert a + b == a;
    } else {
      var c, e := b[..|b| - 1], b[|b| - 1];
      assert (a + b)[..|a + b| - 1] == a + c;
      OnlyAppend(a, c, id);
    }
  }

  lemma {:induction false} OnlyUniform(es: seq<Event>, id: nat, id': nat)
    requires forall e <- es :: IdOf(e) == id'
    ensures Only(es, id) == if id == id' then es else []
  {
    if es != [] {
      OnlyUniform(es[..|es| - 1], id, id');
      assert es[..|es| - 1] + [es[|es| - 1]] == es;
    }
  }

  lemma StateEventsUniform(id: nat, o: Obs)
    ensures forall e <- StateEvents(id, o) :: IdOf(e) == id
  {
    hide StateEvents;
    StateEventsAt(id, o);
  }

  lemma OnlyNone(id: nat)
    ensures Only([], id) == []
  {
  }

  lemma {:induction false} OnlyStates(states: seq<Obs>, from: nat, id: nat)
    requires from <= |states|
    ensures Only(StatesEvents(states, from), id) == if from <= id < |states| then StateEvents(id, states[id]) else []
    decreases |states| - from
  {
    hide StateEvents, Only;
    OnlyNone(id);
    if from < |states| {
      OnlyStates(states, from + 1, id);
      OnlyAppend(StateEvents(from, states[from]), StatesEvents(states, from + 1), id);
      StateEventsUniform(from, states[from]);
      OnlyUniform(StateEvents(from, states[from]), id, from);
    }
  }

  // The reader's actions on mailbox id are the writes of the states its packets carry for it.
  lemma {:induction false} ReaderProgram(packets: seq<seq<Obs>>, id: nat)
    ensures Only(AllEvents(packets), id) == Program(id, StatesFor(packets, id))
  {
    if packets != [] {
      var before, p := packets[..|packets| - 1], packets[|packets| - 1];
      ReaderProgram(before, id);
      OnlyAppend(AllEvents(before), PacketEvents(p), id);
      if |p| <= NUM_DRONES {
        OnlyStates(p, 0, id);
      }
      if |p| <= NUM_DRONES && id < |p| {
        assert StatesFor(packets, id)[..|StatesFor(packets, id)| - 1] == StatesFor(before, id);
      }
    }
  }

  lemma {:induction false} ProgramAt(id: nat, os: seq<Obs>, d: nat, i: nat)
    requires d < |os| && i < ACTS
    ensures |Program(id, os)| == 13 * |os|
    ensures Program(id, os)[13 * d + i] == ActAt(id, os[d], i)
  {
    hide StateEvents, ActAt;
    StateEventsAt(id, os[|os| - 1]);
    if |os| > 1 {
      ProgramAt(id, os[..|os| - 1], if d < |os| - 1 then d else 0, i);
    }
  }
}
