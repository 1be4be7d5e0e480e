// What the broker keeps over every run: its tables, its counters, and who gets a delivery.
module BrokerRuns {
  import opened Bytes
  import opened BrokerTables
  import opened TopicLog
  import opened Broker

  // ---- tables -----------------------------------------------------------------------

  // One slot for each entity, of the table's own kind, created by a real session.
  ghost predicate OwnKind<T>(t: seq<Slot<T>>, kind: byte) {
    Unique(t) && forall s <- t :: s.used ==> Kind(s.id) == kind && s.session < SESSIONS
  }

  ghost predicate TablesOk(b: State) {
    && OwnKind(b.topics, TOPIC) && OwnKind(b.writers, WRITER) && OwnKind(b.readers, READER)
    && forall s <- b.topics :: s.used ==> |s.val| < NAME_SIZE && 0 !in s.val
  }

  lemma RegisteredOwnKind<T>(t: seq<Slot<T>>, session: nat, id: ObjId, v: T, kind: byte)
    requires OwnKind(t, kind) && Kind(id) == kind && session < SESSIONS
    ensures OwnKind(Registered(t, session, id, v), kind)
  {
    RegisterIsUpdate(t, session, id, v, session, id);
    hide Unique, Kind;
  }

  lemma CreatedKeepsTables(b: State, id: ObjId, blob: Option<seq<byte>>)
    requires Shaped(b) && TablesOk(b)
    ensures TablesOk(Created(b, id, blob))
  {
    hide OwnKind, Kind, CdrString, TopicRef;
    if blob.Some? && Kind(id) == TOPIC && CdrString(blob.value, NAME_SIZE).Some? {
      NameIsShort(blob.value, NAME_SIZE);
      RegisteredOwnKind(b.topics, b.cur.idx, id, CdrString(blob.value, NAME_SIZE).value, TOPIC);
    } else if blob.Some? && TopicRef(blob.value).Some? {
      var topic := TopicRef(blob.value).value;
      if Kind(id) == WRITER {
        RegisteredOwnKind(b.writers, b.cur.idx, id, topic, WRITER);
      } else if Kind(id) == READER {
        RegisteredOwnKind(b.readers, b.cur.idx, id, topic, READER);
      }
    }
  }

  lemma NameIsShort(blob: seq<byte>, size: nat)
    requires size > 0 && CdrString(blob, size).Some?
    ensures |CdrString(blob, size).value| < size && 0 !in CdrString(blob, size).value
  {
  }

  // ---- numbers ----------------------------------------------------------------------

  predicate Counts(p: Posted, t: nat, c: Class) {
    p.target == t && !p.reply.body.AckNack? && ClassOf(p.reply.stream) == c
  }

  // Replies of one class to one session.
  function Count(ps: seq<Posted>, t: nat, c: Class): (n: nat) {
    if ps == [] then 0 else Count(ps[..|ps| - 1], t, c) + if Counts(ps[|ps| - 1], t, c) then 1 else 0
  }

  lemma CountSnoc(ps: seq<Posted>, p: Posted, t: nat, c: Class)
    ensures Count(ps + [p], t, c) == Count(ps, t, c) + if Counts(p, t, c) then 1 else 0
  {
    assert (ps + [p])[..|ps|] == ps;
  }

  function Mod16(n: nat): (r: u16) { (n % 0x1_0000) as u16 }

  lemma BumpMod(n: nat)
    ensures Bump(Mod16(n)) == Mod16(n + 1)
  {
  }

  // Counter c of session t holds the number of replies of that class built for the session
  // since it was last created.
  ghost predicate CounterOk(s: Session, built: seq<Posted>, since: nat, t: nat, c: Class) {
    since <= |built| && s.Counter(c) == Mod16(Count(built[since..], t, c))
  }

  // The reply at p carries the number of earlier ones of its class.
  ghost predicate NumberOk(built: seq<Posted>, since: nat, t: nat, p: nat)
    requires since <= p < |built|
  {
    var r := built[p].reply;
    built[p].target == t && !r.body.AckNack? ==> r.seqNum == Mod16(Count(built[since..p], t, ClassOf(r.stream)))
  }

  ghost predicate SessionOk(s: Session, built: seq<Posted>, since: nat, t: nat) {
    && since <= |built|
    && (forall c: Class :: CounterOk(s, built, since, t, c))
    && (forall p | since <= p < |built| :: NumberOk(built, since, t, p))
  }

  ghost predicate Numbered(b: State)
    requires Shaped(b)
  {
    forall t | 0 <= t < SESSIONS :: SessionOk(b.sessions[t], b.built, b.since[t], t)
  }

  // One more reply: it either counts, with the counter's value, or does not.
  lemma OneMoreReply(s: Session, s': Session, built: seq<Posted>, since: nat, t: nat, p: Posted)
    requires SessionOk(s, built, since, t)
    requires p.target != t || p.reply.body.AckNack? ==> s' == s
    requires p.target == t && !p.reply.body.AckNack? ==>
               p.reply.seqNum == s.Counter(ClassOf(p.reply.stream)) && s' == s.Bumped(ClassOf(p.reply.stream))
    ensures SessionOk(s', built + [p], since, t)
  {
    var n := built + [p];
    assert n[since..] == built[since..] + [p];
    forall c: Class ensures CounterOk(s', n, since, t, c) {
      assert CounterOk(s, built, since, t, c);
      CountSnoc(built[since..], p, t, c);
      BumpMod(Count(built[since..], t, c));
    }
    forall q | since <= q < |n| ensures NumberOk(n, since, t, q) {
      assert n[since..q] == built[since..q];
      if q < |built| {
        assert NumberOk(built, since, t, q);
      } else {
        assert built[since..q] == built[since..];
        assert CounterOk(s, built, since, t, ClassOf(p.reply.stream));
      }
    }
  }

  lemma PostNumbered(b: State, target: nat, stream: byte, sessionId: byte, key: Key, body: Body)
    requires Shaped(b) && Numbered(b) && target < SESSIONS && !body.AckNack?
    ensures Numbered(Post(b, target, stream, sessionId, key, body))
  {
    var b' := Post(b, target, stream, sessionId, key, body);
    var p := b'.built[|b.built|];
    assert b'.built == b.built + [p];
    forall t | 0 <= t < SESSIONS ensures SessionOk(b'.sessions[t], b'.built, b'.since[t], t) {
      assert SessionOk(b.sessions[t], b.built, b.since[t], t);
      hide SessionOk;
      OneMoreReply(b.sessions[t], b'.sessions[t], b.built, b.since[t], t, p);
    }
  }

  lemma AcknowledgeNumbered(b: State, firstUnacked: u16, stream: byte)
    requires Shaped(b) && Numbered(b)
    ensures Numbered(Acknowledge(b, firstUnacked, stream))
  {
    var b' := Acknowledge(b, firstUnacked, stream);
    var p := b'.built[|b.built|];
    forall t | 0 <= t < SESSIONS ensures SessionOk(b'.sessions[t], b'.built, b'.since[t], t) {
      assert SessionOk(b.sessions[t], b.built, b.since[t], t);
      hide SessionOk;
      OneMoreReply(b.sessions[t], b'.sessions[t], b.built, b.since[t], t, p);
    }
  }

  lemma CreatedClientNumbered(b: State, key: Key, id: byte)
    requires Shaped(b) && Numbered(b)
    ensures Numbered(CreatedClient(b, key, id))
  {
    var b' := CreatedClient(b, key, id);
    forall t | 0 <= t < SESSIONS ensures SessionOk(b'.sessions[t], b'.built, b'.since[t], t) {
      assert SessionOk(b.sessions[t], b.built, b.since[t], t);
      if t == b.cur.idx {
        assert b.built[|b.built|..] == [];
      }
    }
  }

  // ---- fan-out ----------------------------------------------------------------------

  // A delivery to a reader of session t.
  predicate IsCopy(p: Posted, t: nat, reader: ObjId) {
    p.target == t && p.reply.body.Data? && p.reply.body.reader == reader
  }

  function Copies(ps: seq<Posted>, t: nat, reader: ObjId): (n: nat) {
    if ps == [] then 0 else Copies(ps[..|ps| - 1], t, reader) + if IsCopy(ps[|ps| - 1], t, reader) then 1 else 0
  }

  lemma CopiesSnoc(ps: seq<Posted>, p: Posted, t: nat, reader: ObjId)
    ensures Copies(ps + [p], t, reader) == Copies(ps, t, reader) + if IsCopy(p, t, reader) then 1 else 0
  {
    assert (ps + [p])[..|ps|] == ps;
  }

  // A delivery carries the payload and the target's own session id and key, on its reliable
  // stream.
  predicate Faithful(sessions: seq<Session>, p: Posted, payload: seq<byte>) {
    && p.target < |sessions| && sessions[p.target].active
    && p.reply.body.Data? && p.reply.body.payload == payload
    && p.reply.sessionId == sessions[p.target].id && p.reply.stream == 0x80
    && p.reply.key == KeyOf(sessions[p.target].id, sessions[p.target].key)
  }

  // Reader `reader` of session t is among the first n slots and subscribed to the name.
  ghost predicate WantedBy(b: State, t: nat, reader: ObjId, name: seq<byte>, n: nat)
    requires Shaped(b) && n <= TABLE
  {
    && t < SESSIONS && b.sessions[t].active
    && exists i :: 0 <= i < n && Has(b.readers[i], t, reader) && Reads(b.topics, b.readers[i], name)
  }

  // The same, by lookup.
  predicate Subscribed(b: State, t: nat, reader: ObjId, name: seq<byte>)
    requires Shaped(b)
  {
    && t < SESSIONS && b.sessions[t].active
    && var topic := Lookup(b.readers, t, reader);
       topic.Some? && Lookup(b.topics, t, topic.value) == Some(name)
  }

  lemma WantedIsSubscribed(b: State, t: nat, reader: ObjId, name: seq<byte>)
    requires Shaped(b) && Unique(b.readers)
    ensures WantedBy(b, t, reader, name, TABLE) <==> Subscribed(b, t, reader, name)
  {
    var k := FirstHas(b.readers, t, reader);
    if WantedBy(b, t, reader, name, TABLE) {
      var i :| 0 <= i < TABLE && Has(b.readers[i], t, reader) && Reads(b.topics, b.readers[i], name);
      LookupIs(b.readers, t, reader, i);
    }
    if Subscribed(b, t, reader, name) {
      assert Has(b.readers[k], t, reader) && Reads(b.topics, b.readers[k], name);
    }
  }

  // What deliveries leave alone.
  predicate SameBut(b: State, b': State) {
    && b'.topics == b.topics && b'.writers == b.writers && b'.readers == b.readers && b'.cur == b.cur
    && b'.since == b.since && b'.log == b.log && |b'.sessions| == |b.sessions| && b.built <= b'.built
    && forall t | 0 <= t < |b.sessions| ::
         b'.sessions[t].active == b.sessions[t].active && b'.sessions[t].id == b.sessions[t].id
         && b'.sessions[t].key == b.sessions[t].key
  }

  function NewPosts(b: State, b': State): (ps: seq<Posted>)
    requires b.built <= b'.built
  {
    b'.built[|b.built|..]
  }

  lemma SendOne(b0: State, b: State, target: nat, reader: ObjId, payload: seq<byte>)
    requires Shaped(b0) && Shaped(b) && SameBut(b0, b)
    requires forall p <- NewPosts(b0, b) :: Faithful(b0.sessions, p, payload)
    ensures var b' := SendData(b, target, reader, payload);
            && SameBut(b0, b')
            && (forall p <- NewPosts(b0, b') :: Faithful(b0.sessions, p, payload))
            && (forall t: nat, r: ObjId :: Copies(NewPosts(b0, b'), t, r) == Copies(NewPosts(b0, b), t, r)
                  + if t == target && r == reader && target < SESSIONS && b0.sessions[target].active then 1 else 0)
  {
    var b' := SendData(b, target, reader, payload);
    if target < SESSIONS && b.sessions[target].active {
      var p := b'.built[|b.built|];
      assert NewPosts(b0, b') == NewPosts(b0, b) + [p];
      forall t: nat, r: ObjId
        ensures Copies(NewPosts(b0, b'), t, r)
                == Copies(NewPosts(b0, b), t, r) + if t == target && r == reader then 1 else 0
      {
        CopiesSnoc(NewPosts(b0, b), p, t, r);
      }
    }
  }

  // The fan-out builds exactly one delivery for each subscribed reader and none for any other.
  lemma {:induction false} FanOutExact(b: State, name: seq<byte>, payload: seq<byte>, n: nat)
    requires Shaped(b) && Unique(b.readers) && n <= TABLE
    ensures var b' := FanOut(b, name, payload, n);
            && SameBut(b, b')
            && (forall p <- NewPosts(b, b') :: Faithful(b.sessions, p, payload))
            && (forall t: nat, r: ObjId :: Copies(NewPosts(b, b'), t, r) == if WantedBy(b, t, r, name, n) then 1 else 0)
  {
    if n > 0 {
      FanOutExact(b, name, payload, n - 1);
      var before, s := FanOut(b, name, payload, n - 1), b.readers[n - 1];
      if Reads(b.topics, s, name) {
        SendOne(b, before, s.session, s.id, payload);
      }
      forall t: nat, r: ObjId
        ensures Copies(NewPosts(b, FanOut(b, name, payload, n)), t, r) == if WantedBy(b, t, r, name, n) then 1 else 0
      {
        OneMoreSlot(b, t, r, name, n);
      }
    }
  }

  lemma OneSlot<T>(table: seq<Slot<T>>, t: nat, id: ObjId, i: nat, j: nat)
    requires Unique(table) && i < |table| && j < |table|
    ensures Has(table[i], t, id) && Has(table[j], t, id) ==> i == j
  {
  }

  lemma OneMoreSlot(b: State, t: nat, reader: ObjId, name: seq<byte>, n: nat)
    requires Shaped(b) && Unique(b.readers) && 1 <= n <= TABLE
    ensures var s := b.readers[n - 1];
            var here := Has(s, t, reader) && Reads(b.topics, s, name) && t < SESSIONS && b.sessions[t].active;
            && (WantedBy(b, t, reader, name, n) <==> WantedBy(b, t, reader, name, n - 1) || here)
            && !(WantedBy(b, t, reader, name, n - 1) && here)
  {
    var s := b.readers[n - 1];
    if WantedBy(b, t, reader, name, n - 1) {
      var i :| 0 <= i < n - 1 && Has(b.readers[i], t, reader) && Reads(b.topics, b.readers[i], name);
      OneSlot(b.readers, t, reader, i, n - 1);
    }
  }

  // ---- every run --------------------------------------------------------------------

  ghost predicate Sound(b: State) { Shaped(b) && TablesOk(b) && Numbered(b) }

  lemma InitialSound()
    ensures Sound(Initial())
  {
  }

  lemma SendDataSound(b: State, target: nat, reader: ObjId, payload: seq<byte>)
    requires Sound(b)
    ensures Sound(SendData(b, target, reader, payload))
  {
    if target < SESSIONS && b.sessions[target].active {
      PostNumbered(b, target, 0x80, b.sessions[target].id, b.sessions[target].key, Data(reader, payload));
    }
  }

  lemma {:induction false} FanOutSound(b: State, name: seq<byte>, payload: seq<byte>, n: nat)
    requires Sound(b) && n <= TABLE
    ensures Sound(FanOut(b, name, payload, n))
  {
    hide TablesOk, Numbered, SendData;
    if n > 0 {
      FanOutSound(b, name, payload, n - 1);
      SendDataSound(FanOut(b, name, payload, n - 1), b.readers[n - 1].session, b.readers[n - 1].id, payload);
    }
  }

  lemma AnswerSound(b: State, stream: byte, body: Body)
    requires Sound(b) && !body.AckNack?
    ensures Sound(Answer(b, stream, body))
  {
    PostNumbered(b, b.cur.idx, stream, b.cur.id, b.cur.key, body);
  }

  lemma HandledSound(b: State, sub: Sub)
    requires Sound(b)
    ensures Sound(Handled(b, sub))
  {
    match sub
    case CreateClient(key, id) =>
      CreatedClientNumbered(b, key, id);
      AnswerSound(CreatedClient(b, key, id), 0, StatusAgent(0));
    case Create(request, id, blob) =>
      CreatedKeepsTables(b, id, blob);
      AnswerSound(Created(b, id, blob), StatusStream(b.cur.stream), Status(request, id, 0));
    case GetInfo(request, id) => AnswerSound(b, 0, Info(request, id));
    case Delete(request, id) => AnswerSound(b, StatusStream(b.cur.stream), Status(request, id, 0));
    case WriteData(_, id, payload) => WroteSound(b, id, payload);
    case Heartbeat(_, last, stream) => AcknowledgeNumbered(b, Bump(last), stream);
    case Ignored =>
  }

  lemma WroteSound(b: State, writer: ObjId, payload: seq<byte>)
    requires Sound(b)
    ensures Sound(Wrote(b, writer, payload))
  {
    var name := Published(b, writer);
    if name.Some? {
      FanOutSound(b.(log := b.log + [Record(name.value, payload)]), name.value, payload, TABLE);
    }
  }

  lemma {:induction false} HandledAllSound(b: State, subs: seq<Sub>)
    requires Sound(b)
    ensures Sound(HandledAll(b, subs))
  {
    hide TablesOk, Numbered, Handled;
    if subs != [] {
      HandledAllSound(b, subs[..|subs| - 1]);
      HandledSound(HandledAll(b, subs[..|subs| - 1]), subs[|subs| - 1]);
    }
  }

  lemma ArrivedSound(b: State, idx: nat, m: Message)
    requires Sound(b) && idx < SESSIONS
    ensures Sound(Arrived(b, idx, m))
  {
    var b1 := b.(cur := Current(idx, m.sessionId, if m.sessionId < 0x80 then m.key else NO_KEY, m.stream));
    AcknowledgeNumbered(b1, Bump(m.seqNum), m.stream);
  }

  // A run is its messages one after the other.
  lemma RunNext(b: State, inputs: seq<Inbound>, last: Inbound)
    requires Shaped(b) && (forall i <- inputs :: i.idx < SESSIONS) && last.idx < SESSIONS
    ensures Run(b, []) == b
    ensures Run(b, inputs + [last]) == Received(Run(b, inputs), last.idx, last.message)
  {
    hide Received;
    assert (inputs + [last])[..|inputs|] == inputs;
  }

  // Over every run: one slot for each entity and only its own kind, and every reply numbered
  // by its place in its session and stream class.
  lemma {:induction false} RunSound(inputs: seq<Inbound>)
    requires forall i <- inputs :: i.idx < SESSIONS
    ensures Sound(Run(Initial(), inputs))
  {
    hide Sound, Initial, Received;
    InitialSound();
    if inputs != [] {
      var last := inputs[|inputs| - 1];
      RunSound(inputs[..|inputs| - 1]);
      ReceivedSound(Run(Initial(), inputs[..|inputs| - 1]), last.idx, last.message);
    }
  }

  lemma ReceivedSound(b: State, idx: nat, m: Message)
    requires Sound(b) && idx < SESSIONS
    ensures Sound(Received(b, idx, m))
  {
    ArrivedSound(b, idx, m);
    HandledAllSound(Arrived(b, idx, m), m.subs);
  }

  // ---- the deliveries of a write ----------------------------------------------------

  // A write that resolves logs one record and builds exactly one delivery for each reader of
  // an active session whose topic has, in that session, the same name; one that does not
  // resolve does nothing.
  lemma WriteDelivers(b: State, writer: ObjId, payload: seq<byte>)
    requires Sound(b)
    ensures
      var b', name := Wrote(b, writer, payload), Published(b, writer);
      if name.None? then b' == b
      else
        && SameBut(b.(log := b'.log), b')
        && b'.log == b.log + [Record(name.value, payload)] && |name.value| < NAME_SIZE
        && (forall p <- NewPosts(b, b') :: Faithful(b.sessions, p, payload))
        && (forall t: nat, r: ObjId ::
              Copies(NewPosts(b, b'), t, r) == if Subscribed(b, t, r, name.value) then 1 else 0)
  {
    var name := Published(b, writer);
    if name.Some? {
      PublishedShort(b, writer);
      var b1 := b.(log := b.log + [Record(name.value, payload)]);
      FanOutExact(b1, name.value, payload, TABLE);
      forall t: nat, r: ObjId
        ensures Subscribed(b, t, r, name.value) <==> WantedBy(b1, t, r, name.value, TABLE)
      {
        WantedIsSubscribed(b1, t, r, name.value);
      }
    }
  }

  lemma PublishedShort(b: State, writer: ObjId)
    requires Shaped(b) && TablesOk(b) && Published(b, writer).Some?
    ensures |Published(b, writer).value| < NAME_SIZE
  {
    var topic := Lookup(b.writers, b.cur.idx, writer).value;
    var i := FirstHas(b.topics, b.cur.idx, topic);
    assert b.topics[i] in b.topics;
  }

  // ---- replies to the sender --------------------------------------------------------

  // What the four simple handlers build, for the lemmas below: one reply, to the sender.
  lemma AnsweredOnce(b: State, sub: Sub)
    requires Shaped(b) && (sub.CreateClient? || sub.Create? || sub.GetInfo? || sub.Delete?)
    ensures
      var b' := Handled(b, sub);
      && b.built <= b'.built && |NewPosts(b, b')| == 1
      && var p := NewPosts(b, b')[0];
         && p.target == b.cur.idx && p.reply.sessionId == b'.cur.id
         && p.reply.key == KeyOf(b'.cur.id, b'.cur.key)
         && match sub
            case CreateClient(key, id) =>
              && p.reply.body == StatusAgent(0) && p.reply.stream == 0 && p.reply.seqNum == 0
              && b'.cur.id == id && b'.cur.key == key
              && b'.sessions[b.cur.idx] == Session(true, id, key, 1, 0, 0)
            case Create(request, id, _) => p.reply.body == Status(request, id, 0) && p.reply.stream != 0
            case GetInfo(request, id) => p.reply.body == Info(request, id) && p.reply.stream == 0
            case Delete(request, id) => p.reply.body == Status(request, id, 0) && p.reply.stream != 0
  {
    hide Registered, CdrString, TopicRef, Kind;
  }

  lemma HandledGrows(b: State, sub: Sub)
    requires Sound(b)
    ensures b.built <= Handled(b, sub).built
  {
    if sub.WriteData? {
      WriteDelivers(b, sub.id, sub.payload);
    } else if sub.CreateClient? || sub.Create? || sub.GetInfo? || sub.Delete? {
      AnsweredOnce(b, sub);
    }
  }

  lemma {:induction false} HandledAllGrows(b: State, subs: seq<Sub>)
    requires Sound(b)
    ensures b.built <= HandledAll(b, subs).built
  {
    hide TablesOk, Numbered, Handled;
    if subs != [] {
      HandledAllGrows(b, subs[..|subs| - 1]);
      HandledAllSound(b, subs[..|subs| - 1]);
      HandledGrows(HandledAll(b, subs[..|subs| - 1]), subs[|subs| - 1]);
    }
  }

  // A message on a reliable stream is acknowledged before anything else it causes: the first
  // reply built claims everything up to it, on stream 0 with number 0.
  lemma AcknowledgedFirst(b: State, idx: nat, m: Message)
    requires Sound(b) && idx < SESSIONS && ClassOf(m.stream) == Reliable
    ensures
      var b' := Received(b, idx, m);
      && b.built < b'.built
      && var p := b'.built[|b.built|];
         && p.target == idx && p.reply.body == AckNack(Bump(m.seqNum), m.stream)
         && p.reply.stream == 0 && p.reply.seqNum == 0 && p.reply.sessionId == m.sessionId
  {
    hide TablesOk, Numbered, HandledAll;
    ArrivedSound(b, idx, m);
    HandledAllGrows(Arrived(b, idx, m), m.subs);
  }
}
