// The broker thread: fixed tables and counters updated in place, one handler for each
// submessage. Each handler is proved to do what the specification of the broker says.
module BrokerThread {
  import opened Bytes
  import opened BrokerTables
  import opened TopicLog
  import opened Broker
  import opened BrokerWire
  import opened BrokerOctets

  // read_cdr_string: copies at most dst.Length - 1 characters and terminates them.
  method ReadCdrString(blob: seq<byte>, dst: array<byte>) returns (ok: bool)
    requires dst.Length > 0
    modifies dst
    ensures ok == CdrString(blob, dst.Length).Some?
    ensures ok ==> Some(CString(dst[..])) == CdrString(blob, dst.Length)
  {
    hide U32;
    if |blob| < 4 {
      return false;
    }
    var len := U32(blob);
    if len == 0 || |blob| - 4 < len {
      return false;
    }
    var copy := if len - 1 < dst.Length - 1 then len - 1 else dst.Length - 1;
    for i := 0 to len
      invariant forall j | 0 <= j < i && j < copy :: dst[j] == blob[4 + j]
    {
      if i < copy {
        dst[i] := blob[4 + i];
      }
    }
    dst[copy] := 0;
    assert dst[..][..copy] == blob[4..4 + copy];
    Terminated(dst[..], copy);
    return true;
  }

  lemma {:induction false} Terminated(s: seq<byte>, n: nat)
    requires n < |s| && s[n] == 0
    ensures CString(s) == CString(s[..n])
  {
    if n > 0 {
      Terminated(s[1..], n - 1);
      assert s[1..][..n - 1] == s[..n][1..];
    }
  }

  class BrokerThread {
    const sessions: array<Session>
    const topics: array<Slot<seq<byte>>>
    const writers: array<Slot<ObjId>>
    const readers: array<Slot<ObjId>>
    var curIdx: nat
    var curId: byte
    var curKey: Key
    var curStream: byte
    // Everything handed to the loopback queues and to the topic log, oldest first.
    var built: seq<Posted>
    var log: seq<Record>
    ghost var since: seq<nat>

    ghost predicate Valid()
      reads this
    {
      && sessions.Length == SESSIONS && |since| == SESSIONS && curIdx < SESSIONS
      && topics.Length == TABLE && writers.Length == TABLE && readers.Length == TABLE
      && writers != readers
    }

    ghost function Model(): (b: State)
      reads this, sessions, topics, writers, readers
    {
      State(sessions[..], topics[..], writers[..], readers[..], Current(curIdx, curId, curKey, curStream),
            built, since, log)
    }

    constructor ()
      ensures Valid() && Model() == Initial()
      ensures fresh(sessions) && fresh(topics) && fresh(writers) && fresh(readers)
    {
      sessions := new Session[SESSIONS](_ => CLOSED);
      topics := new Slot<seq<byte>>[TABLE](_ => Slot(false, 0, ObjId(0, 0), []));
      writers := new Slot<ObjId>[TABLE](_ => Slot(false, 0, ObjId(0, 0), ObjId(0, 0)));
      readers := new Slot<ObjId>[TABLE](_ => Slot(false, 0, ObjId(0, 0), ObjId(0, 0)));
      curIdx, curId, curKey, curStream := 0, 0, NO_KEY, 0;
      built, log := [], [];
      since := seq(SESSIONS, i => 0);
    }

    method NextSeqFor(idx: nat, stream: byte) returns (n: u16)
      requires Valid() && idx < SESSIONS
      modifies sessions
      ensures n == old(sessions[idx]).Counter(ClassOf(stream))
      ensures sessions[..] == old(sessions[..])[idx := old(sessions[idx]).Bumped(ClassOf(stream))]
    {
      var s := sessions[idx];
      if stream == 0 {
        n := s.seqNone;
        sessions[idx] := s.(seqNone := Bump(n));
      } else if stream < 128 {
        n := s.seqBe;
        sessions[idx] := s.(seqBe := Bump(n));
      } else {
        n := s.seqRel;
        sessions[idx] := s.(seqRel := Bump(n));
      }
    }

    // Builds a numbered reply and hands it to a session's queue.
    method PostReply(target: nat, stream: byte, sessionId: byte, key: Key, body: Body)
      requires Valid() && target < SESSIONS
      modifies this`built, sessions
      ensures Valid() && Model() == Post(old(Model()), target, stream, sessionId, key, body)
    {
      var n := NextSeqFor(target, stream);
      built := built + [Posted(target, Reply(sessionId, stream, n, KeyOf(sessionId, key), body))];
    }

    method SendStatusAgent(status: byte)
      requires Valid()
      modifies this`built, sessions
      ensures Valid() && Model() == Answer(old(Model()), 0, StatusAgent(status))
    {
      PostReply(curIdx, 0, curId, curKey, StatusAgent(status));
    }

    method SendStatus(request: u16, id: ObjId, status: byte)
      requires Valid()
      modifies this`built, sessions
      ensures Valid() && Model() == Answer(old(Model()), StatusStream(curStream), Status(request, id, status))
    {
      PostReply(curIdx, if curStream != 0 then curStream else 0x80, curId, curKey, Status(request, id, status));
    }

    method SendInfo(request: u16, id: ObjId)
      requires Valid()
      modifies this`built, sessions
      ensures Valid() && Model() == Answer(old(Model()), 0, Info(request, id))
    {
      PostReply(curIdx, 0, curId, curKey, Info(request, id));
    }

    method SendAckNack(firstUnacked: u16, stream: byte)
      requires Valid()
      modifies this`built
      ensures Valid() && Model() == Acknowledge(old(Model()), firstUnacked, stream)
    {
      built := built + [Posted(curIdx, Reply(curId, 0, 0, KeyOf(curId, curKey), AckNack(firstUnacked, stream)))];
    }

    method SendDataTo(target: nat, reader: ObjId, payload: seq<byte>)
      requires Valid()
      modifies this`built, sessions
      ensures Valid() && Model() == SendData(old(Model()), target, reader, payload)
    {
      if target >= SESSIONS || !sessions[target].active {
        return;
      }
      PostReply(target, 0x80, sessions[target].id, sessions[target].key, Data(reader, payload));
    }

    method HandleCreateClient(key: Key, id: byte)
      requires Valid()
      modifies this, sessions
      ensures Valid() && Model() == Handled(old(Model()), CreateClient(key, id))
    {
      sessions[curIdx] := Session(true, id, key, 0, 0, 0);
      since := since[curIdx := |built|];
      curId, curKey := id, key;
      SendStatusAgent(0);
    }

    method HandleCreate(request: u16, id: ObjId, blob: Option<seq<byte>>)
      requires Valid()
      modifies this`built, sessions, topics, writers, readers
      ensures Valid() && Model() == Handled(old(Model()), Create(request, id, blob))
    {
      hide Registered, CdrString, Post;
      if blob.Some? {
        if Kind(id) == TOPIC {
          var dst := new byte[NAME_SIZE];
          var ok := ReadCdrString(blob.value, dst);
          if ok {
            var _ := Register(topics, curIdx, id, CString(dst[..]));
          }
        } else if Kind(id) == WRITER || Kind(id) == READER {
          var topic := TopicRef(blob.value);
          if topic.Some? {
            if Kind(id) == WRITER {
              var _ := Register(writers, curIdx, id, topic.value);
            } else {
              var _ := Register(readers, curIdx, id, topic.value);
            }
          }
        }
      }
      SendStatus(request, id, 0);
    }

    method HandleWriteData(id: ObjId, payload: seq<byte>)
      requires Valid()
      modifies this`built, this`log, sessions
      ensures Valid() && Model() == Wrote(old(Model()), id, payload)
    {
      hide SendData, FirstHas;
      var w := Find(writers, curIdx, id);
      if w == writers.Length {
        return;
      }
      var s := Find(topics, curIdx, writers[w].val);
      if s == topics.Length {
        return;
      }
      var name := topics[s].val;
      log := log + [Record(name, payload)];
      ghost var b := Model();
      for i := 0 to readers.Length
        invariant Valid() && Model() == FanOut(b, name, payload, i)
        invariant topics[..] == b.topics && readers[..] == b.readers
      {
        if readers[i].used {
          var t := Find(topics, readers[i].session, readers[i].val);
          if t < topics.Length && topics[t].val == name {
            SendDataTo(readers[i].session, readers[i].id, payload);
          }
        }
      }
    }

    method HandleSub(sub: Sub)
      requires Valid()
      modifies this, sessions, topics, writers, readers
      ensures Valid() && Model() == Handled(old(Model()), sub)
    {
      hide Wrote, Created, Answer, CreatedClient;
      match sub
      case CreateClient(key, id) => HandleCreateClient(key, id);
      case Create(request, id, blob) => HandleCreate(request, id, blob);
      case GetInfo(request, id) => SendInfo(request, id);
      case Delete(request, id) => SendStatus(request, id, 0);
      case WriteData(_, id, payload) => HandleWriteData(id, payload);
      case Heartbeat(_, last, stream) => SendAckNack(Bump(last), stream);
      case Ignored =>
    }

    // One turn of the broker's loop, on the octets of a message; one too short is dropped.
    method Receive(idx: nat, data: seq<byte>)
      requires Valid() && idx < SESSIONS && (|data| < 4 || Decodable(data))
      modifies this, sessions, topics, writers, readers
      ensures Valid()
      ensures Model() == if |data| < 4 then old(Model()) else Received(old(Model()), idx, Decoded(data))
    {
      hide Handled, Whole, First, End, Readable, SubOf, Le16, AllReadable, SubsOf;
      if |data| < 4 {
        return;
      }
      var seqNum, key, pos := Le16(data[2], data[3]), NO_KEY, 4;
      if data[0] < 0x80 {
        key := Key(data[4], data[5], data[6], data[7]);
        pos := 8;
      }
      curIdx, curId, curKey, curStream := idx, data[0], key, data[1];
      if curStream >= 128 {
        SendAckNack(Bump(seqNum), curStream);
      }
      HandleSubs(data, pos);
    }

    // The submessages of a message from an offset on.
    method HandleSubs(data: seq<byte>, start: nat)
      requires Valid() && start <= |data| && AllReadable(data, start)
      modifies this, sessions, topics, writers, readers
      ensures Valid() && Model() == HandledAll(old(Model()), SubsOf(data, start))
    {
      hide Handled, Whole, First, End, Readable, SubOf, AllReadable, SubsOf;
      ghost var b, done := Model(), [];
      var pos := start;
      while true
        invariant Valid() && start <= pos <= |data| && AllReadable(data, pos)
        invariant Model() == HandledAll(b, done) && done + SubsOf(data, pos) == SubsOf(data, start)
        decreases |data| - pos
      {
        var next, end := NextSub(data, pos);
        if next.None? {
          SubsNone(data, pos);
          assert done + [] == done;
          return;
        }
        SubsStep(data, pos);
        var sub := SubOf(next.value, |data| - end);
        assert (done + [sub])[..|done|] == done;
        done := done + [sub];
        HandleSub(sub);
        pos := end;
      }
    }
  }
}
