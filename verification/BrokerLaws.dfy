// What the broker's operations mean, told by slots, octets and numbers.
module BrokerLaws {
  import opened Bytes
  import opened BrokerTables
  import opened TopicLog
  import opened Broker
  import opened BrokerRuns

  // ---- tables -----------------------------------------------------------------------

  // Looking an entity up finds the value in the slot it is in.
  lemma LookupFinds<T>(t: seq<Slot<T>>, session: nat, id: ObjId, v: T)
    requires Unique(t)
    ensures Lookup(t, session, id) == Some(v) <==>
            exists k :: 0 <= k < |t| && t[k].used && t[k].session == session && t[k].id == id && t[k].val == v
    ensures Lookup(t, session, id) == None <==>
            forall k :: 0 <= k < |t| ==> !(t[k].used && t[k].session == session && t[k].id == id)
  {
    if k :| 0 <= k < |t| && Has(t[k], session, id) {
      LookupIs(t, session, id, k);
      forall j | 0 <= j < |t| && Has(t[j], session, id) ensures j == k {
        LookupIs(t, session, id, j);
      }
    }
  }

  ghost predicate HasRoom<T>(t: seq<Slot<T>>, session: nat, id: ObjId) {
    Lookup(t, session, id).Some? || exists s <- t :: !s.used
  }

  lemma {:induction false} FreeSlotIff<T>(t: seq<Slot<T>>)
    ensures Used(t) < |t| <==> exists s <- t :: !s.used
  {
    if t != [] {
      FreeSlotIff(t[1..]);
      assert t == [t[0]] + t[1..];
    }
  }

  lemma Registers<T>(t: seq<Slot<T>>, session: nat, id: ObjId, v: T, session': nat, id': ObjId)
    requires Unique(t)
    ensures Unique(Registered(t, session, id, v))
    ensures Lookup(Registered(t, session, id, v), session', id') ==
            if session' == session && id' == id && HasRoom(t, session, id) then Some(v) else Lookup(t, session', id')
  {
    hide Registered, Lookup, Unique, Used;
    RegisterIsUpdate(t, session, id, v, session', id');
    FreeSlotIff(t);
  }

  // ---- creation ---------------------------------------------------------------------

  // Creating a reader registers it with the topic its representation begins with.
  lemma CreateReader(b: State, request: u16, id: ObjId, blob: seq<byte>, session: nat, i: ObjId)
    requires Shaped(b) && Unique(b.readers) && id.lo & 0x0F == 6 && |blob| >= 2
    ensures
      var b' := Handled(b, Create(request, id, Some(blob)));
      && b'.topics == b.topics && b'.writers == b.writers && b'.log == b.log
      && Lookup(b'.readers, session, i) ==
         if session == b.cur.idx && i == id && HasRoom(b.readers, b.cur.idx, id) then Some(ObjId(blob[0], blob[1]))
         else Lookup(b.readers, session, i)
  {
    hide Registered, Lookup, Unique, HasRoom;
    Registers(b.readers, b.cur.idx, id, ObjId(blob[0], blob[1]), session, i);
  }

  lemma CreateWriter(b: State, request: u16, id: ObjId, blob: seq<byte>, session: nat, i: ObjId)
    requires Shaped(b) && Unique(b.writers) && id.lo & 0x0F == 5 && |blob| >= 2
    ensures
      var b' := Handled(b, Create(request, id, Some(blob)));
      && b'.topics == b.topics && b'.readers == b.readers && b'.log == b.log
      && Lookup(b'.writers, session, i) ==
         if session == b.cur.idx && i == id && HasRoom(b.writers, b.cur.idx, id) then Some(ObjId(blob[0], blob[1]))
         else Lookup(b.writers, session, i)
  {
    hide Registered, Lookup, Unique, HasRoom;
    Registers(b.writers, b.cur.idx, id, ObjId(blob[0], blob[1]), session, i);
  }

  // The length in front of a string, low octet first.
  function Prefix32(blob: seq<byte>): (n: nat)
    requires |blob| >= 4
  {
    blob[0] as nat + 256 * (blob[1] as nat + 256 * (blob[2] as nat + 256 * blob[3] as nat))
  }

  function Kept(n: nat): (k: nat)
    requires n > 0
  {
    if n - 1 < 63 then n - 1 else 63
  }

  // `name` is the kept characters of the blob's string up to the first zero.
  ghost predicate NameIn(blob: seq<byte>, name: seq<byte>) {
    && |blob| >= 4 && 0 < Prefix32(blob) <= |blob| - 4
    && |name| <= Kept(Prefix32(blob)) && name == blob[4..4 + |name|] && 0 !in name
    && (|name| == Kept(Prefix32(blob)) || blob[4 + |name|] == 0)
  }

  lemma {:induction false} CStringIs(s: seq<byte>, name: seq<byte>)
    requires |name| <= |s| && name == s[..|name|] && 0 !in name && (|name| == |s| || s[|name|] == 0)
    ensures CString(s) == name
  {
    if name != [] {
      assert s[1..][..|name| - 1] == name[1..];
      CStringIs(s[1..], name[1..]);
      assert name == [name[0]] + name[1..];
      assert name[0] == s[0] && s[0] in name;
    }
  }

  lemma CdrStringIs(blob: seq<byte>, name: seq<byte>)
    requires NameIn(blob, name)
    ensures CdrString(blob, 64) == Some(name)
  {
    SameLength(blob);
    hide CString, U32, Prefix32, Kept;
    KeptName(blob, Kept(Prefix32(blob)), name);
    KeptIs(Prefix32(blob));
  }

  lemma KeptIs(n: nat)
    requires n > 0
    ensures Kept(n) == if n < 64 then n - 1 else 63
  {
  }

  lemma KeptName(blob: seq<byte>, kept: nat, name: seq<byte>)
    requires 4 + kept <= |blob| && |name| <= kept && name == blob[4..4 + |name|] && 0 !in name
    requires |name| == kept || blob[4 + |name|] == 0
    ensures CString(blob[4..4 + kept]) == name
  {
    hide CString;
    var s := blob[4..4 + kept];
    assert s[..|name|] == name;
    assert |name| < kept ==> s[|name|] == blob[4 + |name|];
    CStringIs(s, name);
  }

  lemma SameLength(blob: seq<byte>)
    requires |blob| >= 4
    ensures U32(blob) == Prefix32(blob)
  {
  }

  // Creating a topic registers it under its name; a string that is empty or does not fit the
  // blob registers nothing.
  lemma CreateTopic(b: State, request: u16, id: ObjId, blob: seq<byte>, name: seq<byte>, session: nat, i: ObjId)
    requires Shaped(b) && Unique(b.topics) && id.lo & 0x0F == 2 && NameIn(blob, name)
    ensures
      var b' := Handled(b, Create(request, id, Some(blob)));
      && b'.readers == b.readers && b'.writers == b.writers && b'.log == b.log
      && Lookup(b'.topics, session, i) ==
         if session == b.cur.idx && i == id && HasRoom(b.topics, b.cur.idx, id) then Some(name)
         else Lookup(b.topics, session, i)
  {
    hide Registered, Lookup, Unique, HasRoom, CdrString, NameIn;
    CdrStringIs(blob, name);
    Registers(b.topics, b.cur.idx, id, name, session, i);
  }

  // Anything else that is created registers nothing.
  lemma CreateOther(b: State, request: u16, id: ObjId, blob: Option<seq<byte>>)
    requires Shaped(b)
    requires var k := id.lo & 0x0F;
             || blob.None? || !(k == 2 || k == 5 || k == 6)
             || ((k == 5 || k == 6) && |blob.value| < 2)
             || (k == 2 && (|blob.value| < 4 || Prefix32(blob.value) == 0 || |blob.value| - 4 < Prefix32(blob.value)))
    ensures var b' := Handled(b, Create(request, id, blob));
            b'.topics == b.topics && b'.writers == b.writers && b'.readers == b.readers && b'.log == b.log
  {
    if blob.Some? && |blob.value| >= 4 {
      SameLength(blob.value);
    }
    hide Registered, U32, Prefix32, CString;
  }

  // A write is published under the name in the slot of the topic that is in the writer's slot.
  lemma PublishedIs(b: State, writer: ObjId, name: seq<byte>)
    requires Shaped(b) && Unique(b.writers) && Unique(b.topics)
    ensures
      Published(b, writer) == Some(name) <==>
      exists w, t ::
        && 0 <= w < |b.writers| && 0 <= t < |b.topics|
        && b.writers[w].used && b.writers[w].session == b.cur.idx && b.writers[w].id == writer
        && b.topics[t].used && b.topics[t].session == b.cur.idx && b.topics[t].id == b.writers[w].val
        && b.topics[t].val == name
  {
    hide Lookup, Unique;
    var topic := Lookup(b.writers, b.cur.idx, writer);
    if topic.Some? {
      LookupFinds(b.writers, b.cur.idx, writer, topic.value);
      LookupFinds(b.topics, b.cur.idx, topic.value, name);
    }
    forall w | 0 <= w < |b.writers| && Has(b.writers[w], b.cur.idx, writer)
      ensures topic == Some(b.writers[w].val)
    {
      LookupFinds(b.writers, b.cur.idx, writer, b.writers[w].val);
    }
  }

  // A reader is subscribed to a name when its slot holds a topic of its own session, active and
  // among the four, whose slot has that name.
  lemma SubscribedIs(b: State, t: nat, reader: ObjId, name: seq<byte>)
    requires Shaped(b) && Unique(b.readers) && Unique(b.topics)
    ensures
      Subscribed(b, t, reader, name) <==>
      && t < 4 && b.sessions[t].active
      && exists r, k ::
           && 0 <= r < |b.readers| && 0 <= k < |b.topics|
           && b.readers[r].used && b.readers[r].session == t && b.readers[r].id == reader
           && b.topics[k].used && b.topics[k].session == t && b.topics[k].id == b.readers[r].val
           && b.topics[k].val == name
  {
    hide Lookup, Unique;
    var topic := Lookup(b.readers, t, reader);
    if topic.Some? {
      LookupFinds(b.readers, t, reader, topic.value);
      LookupFinds(b.topics, t, topic.value, name);
    }
    forall r | 0 <= r < |b.readers| && Has(b.readers[r], t, reader)
      ensures topic == Some(b.readers[r].val)
    {
      LookupFinds(b.readers, t, reader, b.readers[r].val);
    }
  }

  // ---- headers ----------------------------------------------------------------------

  // Replies to a message echo its header: the session id, its key when it carries one.
  lemma InfoEchoesHeader(b: State, idx: nat, m: Message, request: u16, id: ObjId)
    requires Shaped(b) && idx < 4 && m.subs == [GetInfo(request, id)]
    ensures
      var b' := Received(b, idx, m);
      && |b'.built| >= 1
      && var p := b'.built[|b'.built| - 1];
         && p.target == idx && p.reply.sessionId == m.sessionId && p.reply.stream == 0
         && p.reply.key == (if m.sessionId < 0x80 then Some(m.key) else None)
         && p.reply.body == Info(request, id)
  {
    OneSub(Arrived(b, idx, m), GetInfo(request, id));
  }

  lemma OneSub(b: State, sub: Sub)
    requires Shaped(b)
    ensures HandledAll(b, [sub]) == Handled(b, sub)
  {
    assert [sub][..0] == [];
    assert HandledAll(b, []) == b;
  }

  // The status of a request goes out on the stream it came in on, or on 0x80.
  lemma StatusMirrorsStream(b: State, sub: Sub)
    requires Shaped(b) && (sub.Create? || sub.Delete?)
    ensures
      var b' := Handled(b, sub);
      && |b'.built| == |b.built| + 1 && b'.built[..|b.built|] == b.built
      && var p := b'.built[|b.built|];
         && p.target == b.cur.idx && p.reply.sessionId == b.cur.id
         && p.reply.stream == (if b.cur.stream == 0 then 0x80 else b.cur.stream)
         && p.reply.key == (if b.cur.id < 0x80 then Some(b.cur.key) else None)
         && p.reply.body == Status(sub.request, sub.id, 0)
  {
    hide Registered, CdrString, TopicRef, Kind;
  }

  // Only a creation touches the tables, only a write the log, and only the creation of a client
  // which sessions are active, and their ids and keys.
  lemma OnlyTouches(b: State, sub: Sub, t: nat)
    requires Sound(b) && t < 4
    ensures
      var b' := Handled(b, sub);
      && (!sub.Create? ==> b'.topics == b.topics && b'.writers == b.writers && b'.readers == b.readers)
      && (!sub.WriteData? ==> b'.log == b.log)
      && (!sub.CreateClient? || t != b.cur.idx ==>
            && b'.sessions[t].active == b.sessions[t].active && b'.sessions[t].id == b.sessions[t].id
            && b'.sessions[t].key == b.sessions[t].key)
      && (sub.CreateClient? ==>
            b'.sessions[b.cur.idx].active && b'.sessions[b.cur.idx].id == sub.sessionId
            && b'.sessions[b.cur.idx].key == sub.clientKey)
  {
    if sub.WriteData? {
      WriteDelivers(b, sub.id, sub.payload);
    } else if sub.Create? {
      CreatedKeeps(b, sub.id, sub.blob);
    }
    hide Sound, Created, Wrote, ClassOf, KeyOf, Copies, Faithful, Subscribed;
  }

  // A heartbeat is answered by claiming everything up to its last number.
  lemma HeartbeatClaimsAll(b: State, first: u16, last: u16, stream: byte)
    requires Shaped(b)
    ensures
      var b' := Handled(b, Heartbeat(first, last, stream));
      && b' == b.(built := b'.built) && |b'.built| == |b.built| + 1 && b'.built[..|b.built|] == b.built
      && var p := b'.built[|b.built|];
         && p.target == b.cur.idx && p.reply.sessionId == b.cur.id && p.reply.stream == 0 && p.reply.seqNum == 0
         && p.reply.key == (if b.cur.id < 0x80 then Some(b.cur.key) else None)
         && p.reply.body.AckNack? && p.reply.body.stream == stream
         && p.reply.body.firstUnacked as int == (last as int + 1) % 65536
  {
  }

  // The three stream classes by number.
  lemma ClassByNumber(stream: byte)
    ensures ClassOf(stream) == NoStream <==> stream == 0
    ensures ClassOf(stream) == BestEffort <==> 1 <= stream as int <= 127
    ensures ClassOf(stream) == Reliable <==> 128 <= stream as int
  {
  }

  // ---- what every run keeps ---------------------------------------------------------

  lemma SlotsApart<T>(t: seq<Slot<T>>, i: nat, j: nat)
    requires Unique(t) && i < j < |t| && t[i].used && t[j].used
    ensures t[i].session != t[j].session || t[i].id != t[j].id
  {
  }

  // After any run: every slot in use is of its table's kind and of a real session, and no two
  // slots are the same entity's.
  lemma RunTables(inputs: seq<Inbound>, i: nat, j: nat)
    requires (forall m <- inputs :: m.idx < 4) && i < 8 && j < 8
    ensures
      var b := Run(Initial(), inputs);
      && |b.topics| == 8 && |b.writers| == 8 && |b.readers| == 8
      && (b.topics[i].used ==>
            && b.topics[i].session < 4 && b.topics[i].id.lo & 0x0F == 2
            && |b.topics[i].val| <= 63 && 0 !in b.topics[i].val)
      && (b.writers[i].used ==> b.writers[i].session < 4 && b.writers[i].id.lo & 0x0F == 5)
      && (b.readers[i].used ==> b.readers[i].session < 4 && b.readers[i].id.lo & 0x0F == 6)
      && (i < j && b.topics[i].used && b.topics[j].used ==>
            b.topics[i].session != b.topics[j].session || b.topics[i].id != b.topics[j].id)
      && (i < j && b.writers[i].used && b.writers[j].used ==>
            b.writers[i].session != b.writers[j].session || b.writers[i].id != b.writers[j].id)
      && (i < j && b.readers[i].used && b.readers[j].used ==>
            b.readers[i].session != b.readers[j].session || b.readers[i].id != b.readers[j].id)
  {
    RunSound(inputs);
    hide Run, Unique, Numbered;
    var b := Run(Initial(), inputs);
    assert b.topics[i] in b.topics && b.writers[i] in b.writers && b.readers[i] in b.readers;
    if i < j {
      if b.topics[i].used && b.topics[j].used {
        SlotsApart(b.topics, i, j);
      }
      if b.writers[i].used && b.writers[j].used {
        SlotsApart(b.writers, i, j);
      }
      if b.readers[i].used && b.readers[j].used {
        SlotsApart(b.readers, i, j);
      }
    }
  }

  // The places among the first n replies of those of one class to one session.
  ghost function PlacesOf(ps: seq<Posted>, t: nat, c: Class): (r: set<nat>) {
    set q: nat | q < |ps| && ps[q].target == t && !ps[q].reply.body.AckNack? && ClassOf(ps[q].reply.stream) == c
  }

  lemma PlacesNext(ps: seq<Posted>, t: nat, c: Class)
    requires ps != []
    ensures var n := |ps| - 1;
            PlacesOf(ps, t, c) == PlacesOf(ps[..n], t, c) + (if Counts(ps[n], t, c) then {n} else {})
    ensures |ps| - 1 !in PlacesOf(ps[..|ps| - 1], t, c)
  {
    hide ClassOf;
  }

  lemma {:induction false} CountIsSize(ps: seq<Posted>, t: nat, c: Class)
    ensures Count(ps, t, c) == |PlacesOf(ps, t, c)|
  {
    hide Counts;
    if ps != [] {
      CountIsSize(ps[..|ps| - 1], t, c);
      PlacesNext(ps, t, c);
      hide PlacesOf;
    }
  }

  // After any run: a reply's number is how many of its class its session was sent before it
  // since the session was created, modulo 2^16; acknowledgements do not count.
  lemma RunNumbers(inputs: seq<Inbound>, t: nat, p: nat)
    requires (forall m <- inputs :: m.idx < 4) && t < 4
    ensures
      var b := Run(Initial(), inputs);
      && |b.since| == 4
      && (b.since[t] <= p < |b.built| && b.built[p].target == t && !b.built[p].reply.body.AckNack? ==>
            b.built[p].reply.seqNum as nat
            == |PlacesOf(b.built[b.since[t]..p], t, ClassOf(b.built[p].reply.stream))| % 0x1_0000)
  {
    RunSound(inputs);
    hide Run, TablesOk, PlacesOf, Count;
    var b := Run(Initial(), inputs);
    if b.since[t] <= p < |b.built| && b.built[p].target == t && !b.built[p].reply.body.AckNack? {
      assert SessionOk(b.sessions[t], b.built, b.since[t], t);
      assert NumberOk(b.built, b.since[t], t, p);
      CountIsSize(b.built[b.since[t]..p], t, ClassOf(b.built[p].reply.stream));
    }
  }

  // ---- from creation to delivery ----------------------------------------------------

  function DataReplies(ps: seq<Posted>): (ds: seq<Posted>) {
    if ps == [] then []
    else DataReplies(ps[..|ps| - 1]) + if ps[|ps| - 1].reply.body.Data? then [ps[|ps| - 1]] else []
  }

  lemma DataRepliesNext(ps: seq<Posted>, p: Posted)
    ensures DataReplies(ps + [p]) == DataReplies(ps) + if p.reply.body.Data? then [p] else []
  {
    assert (ps + [p])[..|ps|] == ps;
  }

  // What a client sets up in one message: itself, a topic, a writer and a reader on it, and a
  // first write.
  datatype Setup = Setup(key: Key, id: byte, topic: ObjId, writer: ObjId, reader: ObjId,
                         topicBlob: seq<byte>, writerBlob: seq<byte>, readerBlob: seq<byte>,
                         name: seq<byte>, payload: seq<byte>)

  ghost predicate Proper(u: Setup) {
    && u.topic.lo & 0x0F == 2 && u.writer.lo & 0x0F == 5 && u.reader.lo & 0x0F == 6
    && NameIn(u.topicBlob, u.name)
    && |u.writerBlob| >= 2 && ObjId(u.writerBlob[0], u.writerBlob[1]) == u.topic
    && |u.readerBlob| >= 2 && ObjId(u.readerBlob[0], u.readerBlob[1]) == u.topic
  }

  function SetupSubs(u: Setup, r: u16): (subs: seq<Sub>) {
    [CreateClient(u.key, u.id), Create(r, u.topic, Some(u.topicBlob)), Create(r, u.writer, Some(u.writerBlob)),
     Create(r, u.reader, Some(u.readerBlob)), WriteData(r, u.writer, u.payload)]
  }

  // Session idx is up under its own id and key, and only it.
  predicate Up(b: State, idx: nat, u: Setup) {
    && Shaped(b) && idx < 4 && b.cur.idx == idx
    && b.sessions[idx].active && b.sessions[idx].id == u.id && b.sessions[idx].key == u.key
    && (forall t | 0 <= t < 4 && t != idx :: !b.sessions[t].active)
    && DataReplies(b.built) == [] && b.log == []
  }

  // A creation leaves the sessions up and delivers nothing.
  lemma CreateKeepsUp(b: State, idx: nat, u: Setup, r: u16, id: ObjId, blob: Option<seq<byte>>)
    requires Up(b, idx, u)
    ensures Up(Handled(b, Create(r, id, blob)), idx, u)
  {
    var b' := Handled(b, Create(r, id, blob));
    CreatedKeeps(b, id, blob);
    hide Created, ClassOf, StatusStream, KeyOf, DataReplies;
    assert b'.built == b.built + [b'.built[|b.built|]];
    DataRepliesNext(b.built, b'.built[|b.built|]);
  }

  lemma CreatedKeeps(b: State, id: ObjId, blob: Option<seq<byte>>)
    requires Shaped(b)
    ensures var b' := Created(b, id, blob);
            b'.sessions == b.sessions && b'.cur == b.cur && b'.built == b.built && b'.log == b.log
  {
    hide Registered, CdrString, TopicRef, Kind;
  }

  lemma InitialClosed(t: nat)
    requires t < 4
    ensures !Initial().sessions[t].active
    ensures Initial().built == [] && Initial().log == []
    ensures Initial().topics == Empty([]) && Initial().writers == Empty(ObjId(0, 0))
    ensures Initial().readers == Empty(ObjId(0, 0))
  {
    hide Empty;
  }

  // Before its submessages a message leaves its header and an acknowledgement at most.
  lemma ArrivedIs(b: State, idx: nat, m: Message)
    requires Shaped(b) && idx < 4
    ensures var b' := Arrived(b, idx, m);
            && b' == b.(cur := b'.cur, built := b'.built) && b'.cur.idx == idx
            && (b'.built == b.built
                || exists p: Posted :: b'.built == b.built + [p] && p.reply.body.AckNack?)
  {
    hide ClassOf, KeyOf;
    var b' := Arrived(b, idx, m);
    if |b'.built| > |b.built| {
      var p := b'.built[|b.built|];
      assert b'.built == b.built + [p] && p.reply.body.AckNack?;
    }
  }

  lemma ArrivedFirst(idx: nat, m: Message)
    requires idx < 4
    ensures var b := Arrived(Initial(), idx, m);
            && b == Initial().(cur := b.cur, built := b.built) && b.cur.idx == idx
            && DataReplies(b.built) == []
  {
    InitialClosed(0);
    assert DataReplies([]) == [];
    hide Arrived, Initial, DataReplies;
    ArrivedIs(Initial(), idx, m);
    var b := Arrived(Initial(), idx, m);
    if b.built != [] {
      var p :| b.built == Initial().built + [p] && p.reply.body.AckNack?;
      DataRepliesNext([], p);
    }
  }

  lemma ClientUp(idx: nat, m: Message, u: Setup)
    requires idx < 4
    ensures
      var b := Handled(Arrived(Initial(), idx, m), CreateClient(u.key, u.id));
      && Up(b, idx, u)
      && b.topics == Empty([]) && b.writers == Empty(ObjId(0, 0)) && b.readers == Empty(ObjId(0, 0))
  {
    ArrivedFirst(idx, m);
    forall t: nat | t < 4 ensures !Initial().sessions[t].active {
      InitialClosed(t);
    }
    InitialClosed(0);
    hide Arrived, Initial, DataReplies, Empty, ClassOf, KeyOf;
    var b0 := Arrived(Initial(), idx, m);
    var b := Handled(b0, CreateClient(u.key, u.id));
    assert b.built == b0.built + [b.built[|b0.built|]];
    DataRepliesNext(b0.built, b.built[|b0.built|]);
  }

  // The state after the four creations: each entity is found.
  lemma SetUp(b1: State, idx: nat, u: Setup, r: u16)
    requires Proper(u) && Up(b1, idx, u)
    requires b1.topics == Empty([]) && b1.writers == Empty(ObjId(0, 0)) && b1.readers == Empty(ObjId(0, 0))
    ensures
      var b := HandledAll(b1, [Create(r, u.topic, Some(u.topicBlob)), Create(r, u.writer, Some(u.writerBlob)),
                               Create(r, u.reader, Some(u.readerBlob))]);
      && Up(b, idx, u)
      && Lookup(b.topics, idx, u.topic) == Some(u.name) && Lookup(b.writers, idx, u.writer) == Some(u.topic)
      && forall t, i :: Lookup(b.readers, t, i) == if t == idx && i == u.reader then Some(u.topic) else None
  {
    var c1, c2 := Create(r, u.topic, Some(u.topicBlob)), Create(r, u.writer, Some(u.writerBlob));
    var c3 := Create(r, u.reader, Some(u.readerBlob));
    EmptyTable<seq<byte>>([], idx, u.topic);
    EmptyTable<ObjId>(ObjId(0, 0), idx, u.writer);
    EmptyTable<ObjId>(ObjId(0, 0), idx, u.reader);
    hide Handled, Registered, Lookup, Unique, HasRoom, NameIn, Up, HandledAll, Empty;
    UpIsShaped(b1, idx, u);
    ThreeSubs(b1, c1, c2, c3);
    var b2 := Handled(b1, c1);
    UpIsShaped(b1, idx, u);
    CreateTopic(b1, r, u.topic, u.topicBlob, u.name, idx, u.topic);
    CreateKeepsUp(b1, idx, u, r, u.topic, Some(u.topicBlob));
    UpIsShaped(b2, idx, u);
    var b3 := Handled(b2, c2);
    CreateWriter(b2, r, u.writer, u.writerBlob, idx, u.writer);
    CreateKeepsUp(b2, idx, u, r, u.writer, Some(u.writerBlob));
    UpIsShaped(b3, idx, u);
    forall t, i
      ensures Lookup(Handled(b3, c3).readers, t, i) == if t == idx && i == u.reader then Some(u.topic) else None
    {
      EmptyTable<ObjId>(ObjId(0, 0), t, i);
      CreateReader(b3, r, u.reader, u.readerBlob, t, i);
    }
    CreateReader(b3, r, u.reader, u.readerBlob, idx, u.reader);
    CreateKeepsUp(b3, idx, u, r, u.reader, Some(u.readerBlob));
  }

  lemma UpIsShaped(b: State, idx: nat, u: Setup)
    requires Up(b, idx, u)
    ensures Shaped(b) && b.cur.idx == idx
  {
  }

  lemma EmptyTable<T>(v: T, session: nat, id: ObjId)
    ensures Unique(Empty(v)) && HasRoom(Empty(v), session, id) && Lookup(Empty(v), session, id) == None
  {
    assert !Empty(v)[0].used && Empty(v)[0] in Empty(v);
  }

  lemma SubsNext(b: State, subs: seq<Sub>, sub: Sub)
    requires Shaped(b)
    ensures HandledAll(b, subs + [sub]) == Handled(HandledAll(b, subs), sub)
  {
    assert (subs + [sub])[..|subs|] == subs;
  }

  lemma ThreeSubs(b: State, c1: Sub, c2: Sub, c3: Sub)
    requires Shaped(b)
    ensures HandledAll(b, [c1, c2, c3]) == Handled(Handled(Handled(b, c1), c2), c3)
  {
    hide Handled, HandledAll;
    OneSub(b, c1);
    assert [c1] + [c2] == [c1, c2];
    assert [c1, c2] + [c3] == [c1, c2, c3];
    SubsNext(b, [c1], c2);
    SubsNext(b, [c1, c2], c3);
  }

  lemma {:induction false} HandledAllAppend(b: State, p: seq<Sub>, q: seq<Sub>)
    requires Shaped(b)
    ensures HandledAll(b, p + q) == HandledAll(HandledAll(b, p), q)
    decreases |q|
  {
    hide Handled;
    if q == [] {
      assert p + q == p;
    } else {
      var r, sub := q[..|q| - 1], q[|q| - 1];
      assert p + q == (p + r) + [sub];
      HandledAllAppend(b, p, r);
      SubsNext(b, p + r, sub);
    }
  }

  // ---- the write --------------------------------------------------------------------

  lemma {:induction false} AllCopies(ps: seq<Posted>, t: nat, reader: ObjId)
    requires forall p <- ps :: IsCopy(p, t, reader)
    ensures Copies(ps, t, reader) == |ps| && DataReplies(ps) == ps
  {
    if ps != [] {
      AllCopies(ps[..|ps| - 1], t, reader);
      assert ps[..|ps| - 1] + [ps[|ps| - 1]] == ps;
    }
  }

  lemma {:induction false} CopyCounts(ps: seq<Posted>, p: Posted)
    requires p in ps && p.reply.body.Data?
    ensures Copies(ps, p.target, p.reply.body.reader) >= 1
  {
    if ps[|ps| - 1] != p {
      assert p in ps[..|ps| - 1];
      CopyCounts(ps[..|ps| - 1], p);
    }
  }

  lemma {:induction false} DataRepliesAppend(a: seq<Posted>, b: seq<Posted>)
    ensures DataReplies(a + b) == DataReplies(a) + DataReplies(b)
  {
    if b == [] {
      assert a + b == a;
    } else {
      var c, p := b[..|b| - 1], b[|b| - 1];
      assert a + b == (a + c) + [p];
      DataRepliesAppend(a, c);
      DataRepliesNext(a + c, p);
    }
  }

  // Deliveries counted once for one reader and not at all for any other are one delivery.
  lemma OneCopyOnly(posts: seq<Posted>, sessions: seq<Session>, payload: seq<byte>, t: nat, reader: ObjId)
    requires forall p <- posts :: Faithful(sessions, p, payload)
    requires forall t': nat, r: ObjId :: Copies(posts, t', r) == if t' == t && r == reader then 1 else 0
    ensures |posts| == 1 && DataReplies(posts) == posts && Faithful(sessions, posts[0], payload)
    ensures posts[0].target == t && posts[0].reply.body == Data(reader, payload)
  {
    hide Copies, DataReplies, IsCopy;
    forall p <- posts ensures IsCopy(p, t, reader) {
      CopyCounts(posts, p);
      CopyIs(p);
    }
    AllCopies(posts, t, reader);
    assert posts[0] in posts;
    CopyIs(posts[0]);
  }

  // With one subscribed reader, a write is one delivery to it and one record.
  lemma OneDelivery(b: State, idx: nat, u: Setup, r: u16)
    requires Sound(b) && Up(b, idx, u)
    requires Lookup(b.topics, idx, u.topic) == Some(u.name) && Lookup(b.writers, idx, u.writer) == Some(u.topic)
    requires forall t, i :: Lookup(b.readers, t, i) == if t == idx && i == u.reader then Some(u.topic) else None
    ensures var b' := Handled(b, WriteData(r, u.writer, u.payload));
            && b'.log == [Record(u.name, u.payload)]
            && |DataReplies(b'.built)| == 1
            && DeliversTo(DataReplies(b'.built)[0], idx, u)
  {
    var b' := Wrote(b, u.writer, u.payload);
    WriteDelivers(b, u.writer, u.payload);
    OneSubscribed(b, idx, u);
    hide Sound, Lookup, Wrote, Copies, DataReplies, IsCopy, Published, Subscribed, SameBut, Faithful, Shaped;
    var posts := NewPosts(b, b');
    OneCopyOnly(posts, b.sessions, u.payload, idx, u.reader);
    assert b'.built == b.built + posts;
    DataRepliesAppend(b.built, posts);
    assert [] + posts == posts;
    DeliveredTo(b, posts[0], idx, u);
  }

  lemma OneSubscribed(b: State, idx: nat, u: Setup)
    requires Up(b, idx, u)
    requires Lookup(b.topics, idx, u.topic) == Some(u.name) && Lookup(b.writers, idx, u.writer) == Some(u.topic)
    requires forall t, i :: Lookup(b.readers, t, i) == if t == idx && i == u.reader then Some(u.topic) else None
    ensures Published(b, u.writer) == Some(u.name)
    ensures forall t: nat, i: ObjId :: Subscribed(b, t, i, u.name) <==> t == idx && i == u.reader
  {
    hide Lookup;
  }

  lemma DeliveredTo(b: State, p: Posted, idx: nat, u: Setup)
    requires Up(b, idx, u) && Faithful(b.sessions, p, u.payload)
    requires p.target == idx && p.reply.body == Data(u.reader, u.payload)
    ensures DeliversTo(p, idx, u)
  {
  }

  lemma CopyIs(p: Posted)
    ensures p.reply.body.Data? ==> IsCopy(p, p.target, p.reply.body.reader)
    ensures forall t: nat, r: ObjId ::
              IsCopy(p, t, r) ==> p.target == t && p.reply.body == Data(r, p.reply.body.payload)
  {
  }

  // The delivery: to the reader, under the session's own id and key, on stream 0x80.
  predicate DeliversTo(p: Posted, idx: nat, u: Setup) {
    && p.target == idx && p.reply.sessionId == u.id && p.reply.stream == 0x80
    && p.reply.key == (if u.id < 0x80 then Some(u.key) else None)
    && p.reply.body == Data(u.reader, u.payload)
  }

  function Creations(u: Setup, r: u16): (cs: seq<Sub>) {
    [Create(r, u.topic, Some(u.topicBlob)), Create(r, u.writer, Some(u.writerBlob)),
     Create(r, u.reader, Some(u.readerBlob))]
  }

  lemma SetupIs(u: Setup, r: u16)
    ensures SetupSubs(u, r) ==
            [CreateClient(u.key, u.id)] + Creations(u, r) + [WriteData(r, u.writer, u.payload)]
  {
  }

  lemma SetupInThree(b: State, u: Setup, r: u16)
    requires Shaped(b)
    ensures HandledAll(b, SetupSubs(u, r)) ==
            Handled(HandledAll(Handled(b, CreateClient(u.key, u.id)), Creations(u, r)),
                    WriteData(r, u.writer, u.payload))
  {
    hide Handled, HandledAll, Creations, SetupSubs;
    var c0, cs, w := CreateClient(u.key, u.id), Creations(u, r), WriteData(r, u.writer, u.payload);
    SetupIs(u, r);
    OneSub(b, c0);
    HandledAllAppend(b, [c0], cs);
    SubsNext(b, [c0] + cs, w);
  }

  // After the client and its entities are set up, the state is sound and the entities are found.
  lemma ReadyToWrite(b: State, idx: nat, u: Setup, r: u16)
    requires Sound(b) && Proper(u) && Up(b, idx, u)
    requires b.topics == Empty([]) && b.writers == Empty(ObjId(0, 0)) && b.readers == Empty(ObjId(0, 0))
    ensures var b' := HandledAll(b, Creations(u, r));
            && Sound(b') && Up(b', idx, u)
            && Lookup(b'.topics, idx, u.topic) == Some(u.name) && Lookup(b'.writers, idx, u.writer) == Some(u.topic)
            && forall t, i :: Lookup(b'.readers, t, i) == if t == idx && i == u.reader then Some(u.topic) else None
  {
    hide Handled, HandledAll, Up, Lookup, Sound, Proper, Empty;
    SoundIsShaped(b);
    SetUp(b, idx, u, r);
    HandledAllSound(b, Creations(u, r));
  }

  lemma FirstArrival(idx: nat, m: Message)
    requires idx < 4
    ensures Shaped(Initial())
    ensures var b := Arrived(Initial(), idx, m); Sound(b) && Shaped(b)
    ensures Received(Initial(), idx, m) == HandledAll(Arrived(Initial(), idx, m), m.subs)
  {
    InitialSound();
    hide HandledAll, Arrived, Initial, Sound, Shaped;
    SoundIsShaped(Initial());
    ArrivedSound(Initial(), idx, m);
    SoundIsShaped(Arrived(Initial(), idx, m));
  }

  // From nothing: a client that creates itself, a topic, a writer and a reader on the topic,
  // and writes, gets exactly one delivery, and the log exactly one record.
  lemma FirstWriteDelivered(idx: nat, m: Message, u: Setup, r: u16)
    requires idx < 4 && Proper(u) && m.subs == SetupSubs(u, r)
    ensures var b := Received(Initial(), idx, m);
            && b.log == [Record(u.name, u.payload)]
            && |DataReplies(b.built)| == 1
            && var p := DataReplies(b.built)[0];
               && p.target == idx && p.reply.sessionId == u.id && p.reply.stream == 0x80
               && p.reply.key == (if u.id < 0x80 then Some(u.key) else None)
               && p.reply.body == Data(u.reader, u.payload)
  {
    hide Handled, HandledAll, Arrived, Received, Initial, Up, Lookup, Sound, Proper, DataReplies, Empty,
         SetupSubs, Creations, Shaped;
    FirstArrival(idx, m);
    var b0 := Arrived(Initial(), idx, m);
    ClientUp(idx, m, u);
    HandledSound(b0, CreateClient(u.key, u.id));
    var b1 := Handled(b0, CreateClient(u.key, u.id));
    ReadyToWrite(b1, idx, u, r);
    OneDelivery(HandledAll(b1, Creations(u, r)), idx, u, r);
    SetupInThree(b0, u, r);
  }

  lemma SoundIsShaped(b: State)
    requires Sound(b)
    ensures Shaped(b)
  {
  }
}
