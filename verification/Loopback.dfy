// The loopback transport: for each session a bounded queue each way, in order.
module Loopback {
  import opened Bytes
  import opened Broker
  import opened LoopbackTraffic

  const MTU: nat := 512

  // The lowest session that polled ready and has a message.
  function Served<M>(ready: seq<bool>, queues: seq<seq<M>>): (r: Option<nat>)
    requires |ready| == |queues|
  {
    ServedFrom(ready, queues, 0)
  }

  function ServedFrom<M>(ready: seq<bool>, queues: seq<seq<M>>, i: nat): (r: Option<nat>)
    requires i <= |ready| == |queues|
    ensures r.Some? ==> i <= r.value < |queues| && ready[r.value] && queues[r.value] != []
    ensures r.Some? ==> forall j | i <= j < r.value :: !(ready[j] && queues[j] != [])
    ensures r.None? ==> forall j | i <= j < |queues| :: !(ready[j] && queues[j] != [])
    decreases |queues| - i
  {
    if i == |queues| then None
    else if ready[i] && queues[i] != [] then Some(i)
    else ServedFrom(ready, queues, i + 1)
  }

  class Queues {
    const toBroker: array<seq<seq<byte>>>
    const toClient: array<seq<seq<byte>>>
    // What has happened to each queue towards a client.
    ghost var history: seq<seq<Event<seq<byte>>>>

    ghost predicate Valid()
      reads this, toBroker, toClient
    {
      && toBroker != toClient && toBroker.Length == SESSIONS && toClient.Length == SESSIONS
      && |history| == SESSIONS
      && forall i | 0 <= i < SESSIONS ::
           |toBroker[i]| <= DEPTH && |toClient[i]| <= DEPTH && Traffic(history[i]).queue == toClient[i]
    }

    constructor ()
      ensures Valid() && fresh(toBroker) && fresh(toClient)
      ensures forall i | 0 <= i < SESSIONS :: toBroker[i] == [] && toClient[i] == [] && history[i] == []
    {
      toBroker := new seq<seq<byte>>[SESSIONS](_ => []);
      toClient := new seq<seq<byte>>[SESSIONS](_ => []);
      history := seq(SESSIONS, i => []);
    }

    // One more event of session idx.
    ghost method Happened(idx: nat, e: Event<seq<byte>>)
      requires idx < |history|
      modifies this`history
      ensures history == old(history)[idx := old(history[idx]) + [e]]
      ensures Traffic(history[idx]) == After(Traffic(old(history[idx])), e)
    {
      TrafficNext(history[idx], e);
      history := history[idx := history[idx] + [e]];
    }

    method Open(idx: int) returns (ok: bool)
      requires Valid()
      modifies this`history, toBroker, toClient
      ensures Valid() && ok == (0 <= idx < 4)
      ensures history == if ok then old(history)[idx := old(history[idx]) + [Purged]] else old(history)
      ensures toBroker[..] == if ok then old(toBroker[..])[idx := []] else old(toBroker[..])
      ensures toClient[..] == if ok then old(toClient[..])[idx := []] else old(toClient[..])
    {
      ok := 0 <= idx < SESSIONS;
      if ok {
        QueueAfter(Traffic(history[idx]), []);
        Happened(idx, Purged);
        toBroker[idx] := [];
        toClient[idx] := [];
      }
    }

    // The client's write: all of the message or, on a bad index, size or a full queue, none.
    method Write(idx: int, buf: seq<byte>) returns (n: nat)
      requires Valid()
      modifies toBroker
      ensures Valid()
      ensures n == if 0 <= idx < 4 && |buf| <= 512 && |old(toBroker[..])[idx]| < 32 then |buf| else 0
      ensures toBroker[..] == if 0 <= idx < 4 && |buf| <= 512 && |old(toBroker[..])[idx]| < 32
                              then old(toBroker[..])[idx := old(toBroker[..])[idx] + [buf]] else old(toBroker[..])
    {
      if !(0 <= idx < SESSIONS) || |buf| > MTU {
        return 0;
      }
      if |toBroker[idx]| >= DEPTH {
        return 0;
      }
      toBroker[idx] := toBroker[idx] + [buf];
      return |buf|;
    }

    // The client's read: the oldest message, cut to the caller's buffer.
    method Read(idx: int, len: nat) returns (data: seq<byte>)
      requires Valid()
      modifies this`history, toClient
      ensures Valid()
      ensures history == if 0 <= idx < SESSIONS then old(history)[idx := old(history[idx]) + [Taken]] else old(history)
      ensures 0 <= idx < SESSIONS && old(toClient[..])[idx] != [] ==>
                Traffic(history[idx]).got == old(Traffic(history[idx]).got) + [old(toClient[..])[idx][0]]
      ensures
        var q := if 0 <= idx < SESSIONS then old(toClient[..])[idx] else [];
        if q == [] then data == [] && toClient[..] == old(toClient[..])
        else data == q[0][..if |q[0]| < len then |q[0]| else len]
             && toClient[..] == old(toClient[..])[idx := q[1..]]
    {
      if !(0 <= idx < SESSIONS) {
        return [];
      }
      QueueAfter(Traffic(history[idx]), []);
      Happened(idx, Taken);
      if toClient[idx] == [] {
        return [];
      }
      var s := toClient[idx][0];
      toClient[idx] := toClient[idx][1..];
      return s[..if |s| < len then |s| else len];
    }

    // The broker takes one message from the lowest session that polled ready and still has
    // one.
    method RecvAny(ready: seq<bool>) returns (from: Option<nat>, message: seq<byte>)
      requires Valid() && |ready| == SESSIONS
      modifies toBroker
      ensures Valid()
      ensures forall i | 0 <= i < 4 ::
                from == Some(i) <==>
                && ready[i] && old(toBroker[..])[i] != []
                && forall j | 0 <= j < i :: !(ready[j] && old(toBroker[..])[j] != [])
      ensures from.None? <==> forall i | 0 <= i < 4 :: !(ready[i] && old(toBroker[..])[i] != [])
      ensures from == Served(ready, old(toBroker[..]))
      ensures from.None? ==> toBroker[..] == old(toBroker[..]) && message == []
      ensures from.Some? ==>
                && message == old(toBroker[..])[from.value][0]
                && toBroker[..] == old(toBroker[..])[from.value := old(toBroker[..])[from.value][1..]]
    {
      message := [];
      for i := 0 to SESSIONS
        invariant toBroker[..] == old(toBroker[..])
        invariant Served(ready, toBroker[..]) == ServedFrom(ready, toBroker[..], i)
      {
        if ready[i] && toBroker[i] != [] {
          message := toBroker[i][0];
          toBroker[i] := toBroker[i][1..];
          return Some(i), message;
        }
      }
      return None, [];
    }

    // The broker's send: whether the message was queued.
    method Send(idx: int, m: seq<byte>) returns (ok: bool)
      requires Valid()
      modifies this`history, toClient
      ensures history ==
              if 0 <= idx < SESSIONS then old(history)[idx := old(history[idx]) + [Sent(m)]] else old(history)
      ensures Valid() && ok == (0 <= idx < 4 && |old(toClient[..])[idx]| < 32)
      ensures toClient[..] == if ok then old(toClient[..])[idx := old(toClient[..])[idx] + [m]] else old(toClient[..])
    {
      ok := 0 <= idx < SESSIONS && |toClient[idx]| < DEPTH;
      if 0 <= idx < SESSIONS {
        QueueAfter(Traffic(history[idx]), m);
        Happened(idx, Sent(m));
      }
      if ok {
        toClient[idx] := toClient[idx] + [m];
      }
    }
  }

  // ---- who is served over time ------------------------------------------------------

  // What arrives for each session before a turn of the broker.
  type Arrivals<M> = a: seq<seq<M>> | |a| == SESSIONS witness seq(SESSIONS, i => [])

  function PutAll<M>(q: seq<M>, ms: seq<M>): (q': seq<M>)
    ensures q <= q'
    ensures q != [] || ms != [] ==> q' != []
    decreases |ms|
  {
    if ms == [] then q else PutAll(Put(q, ms[0]), ms[1..])
  }

  function Arrived<M>(queues: seq<seq<M>>, a: Arrivals<M>): (q: seq<seq<M>>)
    requires |queues| == SESSIONS
    ensures |q| == SESSIONS
  {
    seq(SESSIONS, i requires 0 <= i < SESSIONS => PutAll(queues[i], a[i]))
  }

  // A turn of the broker when every waiting message has been polled.
  function Turn<M>(queues: seq<seq<M>>): (r: Option<nat>)
    requires |queues| == SESSIONS
  {
    Served(seq(SESSIONS, i => true), queues)
  }

  // The queues that turn n finds.
  function Found<M>(queues: seq<seq<M>>, turns: seq<Arrivals<M>>, n: nat): (q: seq<seq<M>>)
    requires |queues| == SESSIONS && n < |turns|
    ensures |q| == SESSIONS
  {
    if n == 0 then Arrived(queues, turns[0])
    else
      var before := Found(queues, turns, n - 1);
      var i := Turn(before);
      Arrived(if i.Some? then before[i.value := before[i.value][1..]] else before, turns[n])
  }

  // A session is served at a turn if and only if it has a message and no lower session has.
  lemma ServedIff<M>(queues: seq<seq<M>>, turns: seq<Arrivals<M>>, n: nat, i: nat)
    requires |queues| == SESSIONS && n < |turns| && i < SESSIONS
    ensures var q := Found(queues, turns, n);
            Turn(q) == Some(i) <==> q[i] != [] && forall j | 0 <= j < i :: q[j] == []
  {
  }

  // As long as session 0 has a new message before each turn, no number of turns serves
  // another, and what waits for another session waits on.
  lemma {:induction false} LowestStarvesOthers<M>(queues: seq<seq<M>>, turns: seq<Arrivals<M>>, n: nat, i: nat)
    requires |queues| == SESSIONS && n < |turns| && 1 <= i < SESSIONS
    requires forall a <- turns :: a[0] != []
    ensures var q := Found(queues, turns, n);
            Turn(q) == Some(0) && q[0] != [] && queues[i] <= q[i]
  {
    hide Served, Turn, Found, Arrived, PutAll;
    assert turns[n] in turns;
    if n > 0 {
      LowestStarvesOthers(queues, turns, n - 1, i);
      FoundNext(queues, turns, n);
      StillWaiting(queues[i], Found(queues, turns, n - 1), turns[n], i);
    } else {
      FoundFirst(queues, turns);
      ArrivedGrows(queues, turns[0], i);
    }
    ServedFirst(Found(queues, turns, n));
  }

  lemma ServedFirst<M>(q: seq<seq<M>>)
    requires |q| == SESSIONS && q[0] != []
    ensures Turn(q) == Some(0)
  {
  }

  lemma StillWaiting<M>(waiting: seq<M>, q: seq<seq<M>>, a: Arrivals<M>, i: nat)
    requires |q| == SESSIONS && q[0] != [] && a[0] != [] && 1 <= i < SESSIONS && waiting <= q[i]
    ensures var q' := Arrived(q[0 := q[0][1..]], a); q'[0] != [] && waiting <= q'[i]
  {
    hide Arrived;
    ArrivedGrows(q[0 := q[0][1..]], a, i);
  }

  lemma ArrivedGrows<M>(queues: seq<seq<M>>, a: Arrivals<M>, i: nat)
    requires |queues| == SESSIONS && a[0] != [] && i < SESSIONS
    ensures Arrived(queues, a)[0] != [] && queues[i] <= Arrived(queues, a)[i]
  {
  }

  lemma FoundFirst<M>(queues: seq<seq<M>>, turns: seq<Arrivals<M>>)
    requires |queues| == SESSIONS && turns != []
    ensures Found(queues, turns, 0) == Arrived(queues, turns[0])
  {
  }

  lemma FoundNext<M>(queues: seq<seq<M>>, turns: seq<Arrivals<M>>, n: nat)
    requires |queues| == SESSIONS && 0 < n < |turns| && Turn(Found(queues, turns, n - 1)) == Some(0)
    requires Found(queues, turns, n - 1)[0] != []
    ensures var q := Found(queues, turns, n - 1);
            Found(queues, turns, n) == Arrived(q[0 := q[0][1..]], turns[n])
  {
    hide Turn, Arrived;
  }
}
