// What a client reads from its queue: the broker's replies to it, in the order built.
module LoopbackReplies {
  import opened Bytes
  import opened Broker
  import opened BrokerRuns
  import opened LoopbackTraffic
  import opened Loopback

  // The replies to one session, in order.
  function ToSession(ps: seq<Posted>, t: nat): (rs: seq<Reply>) {
    if ps == [] then []
    else
      var before, p := ToSession(ps[..|ps| - 1], t), ps[|ps| - 1];
      if p.target == t then before + [p.reply] else before
  }

  // How many of these replies are of a class, acknowledgements aside.
  function OfClass(rs: seq<Reply>, c: Class): (n: nat) {
    if rs == [] then 0
    else
      var r := rs[|rs| - 1];
      OfClass(rs[..|rs| - 1], c) + if !r.body.AckNack? && ClassOf(r.stream) == c then 1 else 0
  }

  lemma ToSessionNext(ps: seq<Posted>, p: Posted, t: nat)
    ensures ToSession([], t) == []
    ensures ToSession(ps + [p], t) == if p.target == t then ToSession(ps, t) + [p.reply] else ToSession(ps, t)
  {
    assert (ps + [p])[..|ps|] == ps;
  }

  lemma OfClassNext(rs: seq<Reply>, r: Reply, c: Class)
    ensures OfClass([], c) == 0
    ensures OfClass(rs + [r], c) == OfClass(rs, c) + if !r.body.AckNack? && ClassOf(r.stream) == c then 1 else 0
  {
    assert (rs + [r])[..|rs|] == rs;
  }

  lemma {:induction false} CountIsOfClass(ps: seq<Posted>, t: nat, c: Class)
    ensures Count(ps, t, c) == OfClass(ToSession(ps, t), c)
  {
    if ps != [] {
      var before, p := ps[..|ps| - 1], ps[|ps| - 1];
      assert ps == before + [p];
      hide ToSession, OfClass, Count, ClassOf;
      CountIsOfClass(before, t, c);
      CountSnoc(before, p, t, c);
      ToSessionNext(before, p, t);
      OfClassNext(ToSession(before, t), p.reply, c);
    }
  }

  ghost predicate NumberedInPlace(rs: seq<Reply>) {
    forall k | 0 <= k < |rs| && !rs[k].body.AckNack? ::
      rs[k].seqNum == Mod16(OfClass(rs[..k], ClassOf(rs[k].stream)))
  }

  lemma OneMoreNumbered(rs: seq<Reply>, r: Reply)
    requires NumberedInPlace(rs)
    requires !r.body.AckNack? ==> r.seqNum == Mod16(OfClass(rs, ClassOf(r.stream)))
    ensures NumberedInPlace(rs + [r])
  {
    hide OfClass, Mod16, ClassOf;
    var all := rs + [r];
    forall k | 0 <= k < |all| && !all[k].body.AckNack?
      ensures all[k].seqNum == Mod16(OfClass(all[..k], ClassOf(all[k].stream)))
    {
      assert all[..k] == if k < |rs| then rs[..k] else rs;
    }
  }

  lemma {:induction false} RepliesNumbered(built: seq<Posted>, since: nat, t: nat, n: nat)
    requires since <= n <= |built| && forall p | since <= p < n :: NumberOk(built, since, t, p)
    ensures NumberedInPlace(ToSession(built[since..n], t))
    decreases n
  {
    hide ToSession, OfClass, Count, ClassOf, Mod16, NumberedInPlace;
    if since < n {
      var before, p := built[since..n - 1], built[n - 1];
      assert built[since..n] == before + [p];
      assert NumberOk(built, since, t, n - 1);
      RepliesNumbered(built, since, t, n - 1);
      ToSessionNext(before, p, t);
      if p.target == t {
        CountIsOfClass(before, t, ClassOf(p.reply.stream));
        OneMoreNumbered(ToSession(before, t), p.reply);
      }
    } else {
      assert built[since..n] == [];
      NothingNumbered(t);
    }
  }

  lemma NothingNumbered(t: nat)
    ensures NumberedInPlace(ToSession([], t))
  {
  }

  // The replies built for session t since it was last created.
  function RepliesSince(b: State, t: nat): (rs: seq<Reply>)
    requires t < |b.since|
  {
    if b.since[t] <= |b.built| then ToSession(b.built[b.since[t]..], t) else []
  }

  // They are all those built from place since[t] on.
  lemma RepliesSinceAre(inputs: seq<Inbound>, t: nat)
    requires (forall i <- inputs :: i.idx < SESSIONS) && t < SESSIONS
    ensures var b := Run(Initial(), inputs);
            && |b.since| == 4 && b.since[t] <= |b.built|
            && RepliesSince(b, t) == ToSession(b.built[b.since[t]..], t)
  {
    RunSound(inputs);
    var b := Run(Initial(), inputs);
    hide Run, Initial, TablesOk, ToSession;
    assert SessionOk(b.sessions[t], b.built, b.since[t], t);
  }

  // The replies as they are queued, in whatever encoding.
  function Wired<M>(wire: Reply -> M, rs: seq<Reply>): (ms: seq<M>) {
    seq(|rs|, i requires 0 <= i < |rs| => wire(rs[i]))
  }

  // After any run of the broker, whatever sessions its messages came from, and in any
  // interleaving of the queue's events, opens and earlier traffic included: the replies built
  // for session t since it was created are sent from place `start` on; what the client has
  // read is, in order, what was sent, with only refused and purged messages missing; and each
  // of the replies it has read carries its place in its stream class modulo 2^16.
  lemma ClientReadsInOrder<M>(inputs: seq<Inbound>, t: nat, wire: Reply -> M, events: seq<Event<M>>, start: nat)
    requires (forall i <- inputs :: i.idx < SESSIONS) && t < SESSIONS
    requires var l := Traffic(events);
             start <= |l.sent| && l.sent[start..] == Wired(wire, RepliesSince(Run(Initial(), inputs), t))
    ensures
      var l, rs := Traffic(events), RepliesSince(Run(Initial(), inputs), t);
      && InOrder(l) && |l.got| <= |l.kept|
      && (forall i | 0 <= i < |l.got| :: l.kept[i] < |l.sent| && l.got[i] == l.sent[l.kept[i]])
      && (forall i | 0 <= i < |l.got| && start <= l.kept[i] :: ReadInPlace(wire, rs, l.got[i], l.kept[i] - start))
  {
    hide Run, Traffic, RepliesSince, Wired, NumberedInPlace, ReadInPlace;
    var l, rs := Traffic(events), RepliesSince(Run(Initial(), inputs), t);
    SinceNumbered(inputs, t);
    TrafficInOrder(events);
    RepliesRead(wire, rs, l, start);
  }

  lemma RepliesRead<M>(wire: Reply -> M, rs: seq<Reply>, l: Link<M>, start: nat)
    requires NumberedInPlace(rs) && Ordered(l) && start <= |l.sent| && l.sent[start..] == Wired(wire, rs)
    ensures forall i | 0 <= i < |l.got| && start <= l.kept[i] :: ReadInPlace(wire, rs, l.got[i], l.kept[i] - start)
  {
    hide Wired, NumberedInPlace, ReadInPlace;
    forall i | 0 <= i < |l.got| && start <= l.kept[i]
      ensures ReadInPlace(wire, rs, l.got[i], l.kept[i] - start)
    {
      ReplyRead(wire, rs, l, start, i);
    }
  }

  lemma ReplyRead<M>(wire: Reply -> M, rs: seq<Reply>, l: Link<M>, start: nat, i: nat)
    requires NumberedInPlace(rs) && Ordered(l) && start <= |l.sent| && l.sent[start..] == Wired(wire, rs)
    requires i < |l.got| && start <= l.kept[i]
    ensures ReadInPlace(wire, rs, l.got[i], l.kept[i] - start)
  {
    var k := l.kept[i] - start;
    assert l.sent[start..][k] == l.sent[l.kept[i]];
  }

  // The message is reply k of rs, and that reply has its place among those of its class.
  ghost predicate ReadInPlace<M>(wire: Reply -> M, rs: seq<Reply>, m: M, k: nat) {
    && k < |rs| && m == wire(rs[k])
    && (!rs[k].body.AckNack? ==> rs[k].seqNum == Mod16(OfClass(rs[..k], ClassOf(rs[k].stream))))
  }

  // What that says of a reply that is not an acknowledgement: which it is, and its number.
  lemma ReadInPlaceMeans<M>(wire: Reply -> M, rs: seq<Reply>, m: M, k: nat)
    requires ReadInPlace(wire, rs, m, k)
    ensures k < |rs| && m == wire(rs[k])
    ensures !rs[k].body.AckNack? ==>
              rs[k].seqNum as nat == OfClass(rs[..k], ClassOf(rs[k].stream)) % 0x1_0000
  {
  }

  lemma SinceNumbered(inputs: seq<Inbound>, t: nat)
    requires (forall i <- inputs :: i.idx < SESSIONS) && t < SESSIONS
    ensures NumberedInPlace(RepliesSince(Run(Initial(), inputs), t))
  {
    RunSound(inputs);
    var b := Run(Initial(), inputs);
    hide Run, Initial;
    assert SessionOk(b.sessions[t], b.built, b.since[t], t);
    RepliesNumbered(b.built, b.since[t], t, |b.built|);
    assert b.built[b.since[t]..|b.built|] == b.built[b.since[t]..];
  }

  // The same of the queues themselves: their history is such traffic, what they hold is what
  // it left, and each read that returned something added its message to `got`.
  lemma QueuesReadInOrder(q: Queues, inputs: seq<Inbound>, t: nat, wire: Reply -> seq<byte>, start: nat)
    requires q.Valid() && (forall i <- inputs :: i.idx < SESSIONS) && t < SESSIONS
    requires var l := Traffic(q.history[t]);
             start <= |l.sent| && l.sent[start..] == Wired(wire, RepliesSince(Run(Initial(), inputs), t))
    ensures
      var l, rs := Traffic(q.history[t]), RepliesSince(Run(Initial(), inputs), t);
      && InOrder(l) && |l.kept| == |l.got| + |q.toClient[t]|
      && (forall i | 0 <= i < |l.got| && start <= l.kept[i] :: ReadInPlace(wire, rs, l.got[i], l.kept[i] - start))
  {
    hide Run, Initial, RepliesSince, Wired, ReadInPlace;
    ClientReadsInOrder(inputs, t, wire, q.history[t], start);
  }
}
