// The packets and the reader's actions, octet by octet and action by action.
module DroneLaws {
  import opened Bytes
  import opened DronePackets
  import opened DroneLink
  import opened Mailbox

  lemma {:induction false} WordOctets(ws: seq<Word>, j: nat)
    requires j < |ws|
    ensures WordsBytes(ws)[4 * j] == ws[j].b0 && WordsBytes(ws)[4 * j + 1] == ws[j].b1
    ensures WordsBytes(ws)[4 * j + 2] == ws[j].b2 && WordsBytes(ws)[4 * j + 3] == ws[j].b3
  {
    if j > 0 {
      WordOctets(ws[1..], j - 1);
    }
  }

  lemma {:induction false} StateOctets(states: seq<Obs>, id: nat, p: nat)
    requires id < |states| && p < 48
    ensures |WordsBytes(states[id])| == 48
    ensures StatesBytes(states)[48 * id + p] == WordsBytes(states[id])[p]
  {
    hide WordsBytes;
    if id > 0 {
      StateOctets(states[1..], id - 1, p);
    }
  }

  lemma WordInStates(states: seq<Obs>, id: nat, j: nat)
    requires id < |states| && j < 12
    ensures
      var s, p := StatesBytes(states), 48 * id + 4 * j;
      && s[p] == states[id][j].b0 && s[p + 1] == states[id][j].b1
      && s[p + 2] == states[id][j].b2 && s[p + 3] == states[id][j].b3
  {
    hide StatesBytes, WordsBytes;
    WordOctets(states[id], j);
    StateOctets(states, id, 4 * j);
    StateOctets(states, id, 4 * j + 1);
    StateOctets(states, id, 4 * j + 2);
    StateOctets(states, id, 4 * j + 3);
  }

  lemma PacketHead(states: seq<Obs>)
    requires |states| <= 255
    ensures
      var s := PacketBytes(states);
      && |s| == 5 + 48 * |states|
      && s[0] == 0xDE && s[1] == 0xAD && s[2] == 0xBE && s[3] == 0xEF && s[4] as nat == |states|
    ensures forall p | 0 <= p < 48 * |states| :: PacketBytes(states)[p + 5] == StatesBytes(states)[p]
  {
    hide StatesBytes;
  }

  // A packet: the header, the number of states, and for each drone in order its twelve floats.
  lemma PacketOctets(states: seq<Obs>, id: nat, j: nat)
    requires |states| <= 255
    ensures
      var s := PacketBytes(states);
      && |s| == 5 + 48 * |states|
      && s[0] == 0xDE && s[1] == 0xAD && s[2] == 0xBE && s[3] == 0xEF && s[4] as nat == |states|
      && (id < |states| && j < 12 ==>
            && s[5 + 48 * id + 4 * j] == states[id][j].b0 && s[5 + 48 * id + 4 * j + 1] == states[id][j].b1
            && s[5 + 48 * id + 4 * j + 2] == states[id][j].b2 && s[5 + 48 * id + 4 * j + 3] == states[id][j].b3)
  {
    hide StatesBytes, PacketBytes;
    PacketHead(states);
    if id < |states| && j < 12 {
      WordInStates(states, id, j);
      var p := 48 * id + 4 * j;
      assert PacketBytes(states)[p + 5] == StatesBytes(states)[p];
      assert PacketBytes(states)[p + 1 + 5] == StatesBytes(states)[p + 1];
      assert PacketBytes(states)[p + 2 + 5] == StatesBytes(states)[p + 2];
      assert PacketBytes(states)[p + 3 + 5] == StatesBytes(states)[p + 3];
    }
  }

  lemma {:induction false} StatesEventsFrom(states: seq<Obs>, from: nat, id: nat, i: nat)
    requires from <= id < |states| && i < 13
    ensures |StatesEvents(states, from)| == 13 * (|states| - from)
    ensures StatesEvents(states, from)[13 * (id - from) + i] == ActAt(id, states[id], i)
    decreases |states| - from
  {
    hide StateEvents, ActAt;
    StateEventsAt(from, states[from]);
    if from + 1 < |states| {
      StatesEventsFrom(states, from + 1, if id > from then id else from + 1, i);
    }
  }

  // What a packet of at most four states does: for each drone, its words in order and then its
  // flag. A larger one does nothing.
  lemma PacketActs(states: seq<Obs>, id: nat, j: nat)
    requires id < |states| && j < 12
    ensures
      var es := PacketEvents(states);
      if |states| > 4 then es == []
      else
        && |es| == 13 * |states|
        && es[13 * id + j] == Store(id, j, states[id][j]) && es[13 * id + 12] == Publish(id)
  {
    hide StatesEvents, StateEvents, Stores, Program, StatesFor, Only;
    StatesEventsFrom(states, 0, id, j);
    StatesEventsFrom(states, 0, id, 12);
  }

  lemma HeaderFreeIff(g: seq<byte>)
    ensures HeaderFree(g) <==>
            forall i | 0 <= i < |g| - 3 ::
              !(g[i] == 0xDE && g[i + 1] == 0xAD && g[i + 2] == 0xBE && g[i + 3] == 0xEF)
  {
    if HeaderFree(g) {
      forall i | 0 <= i < |g| - 3
        ensures !(g[i] == 0xDE && g[i + 1] == 0xAD && g[i + 2] == 0xBE && g[i + 3] == 0xEF)
      {
        assert !HeaderAt(g, i);
        FourOctets(g, i);
      }
    } else {
      var i :| 0 <= i <= |g| && HeaderAt(g, i);
      FourOctets(g, i);
    }
  }

  lemma FourOctets(g: seq<byte>, i: nat)
    requires i + 4 <= |g|
    ensures g[i..i + 4] == [g[i], g[i + 1], g[i + 2], g[i + 3]]
  {
  }

  // A drone's states: one from each packet that has one for it and is not too large.
  lemma StatesForNext(packets: seq<seq<Obs>>, p: seq<Obs>, id: nat)
    ensures StatesFor([], id) == []
    ensures StatesFor(packets + [p], id) ==
            StatesFor(packets, id) + if id < |p| <= 4 then [p[id]] else []
  {
    assert (packets + [p])[..|packets|] == packets;
  }
}
