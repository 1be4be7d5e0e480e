// What the broker does with each message: the replies and deliveries it builds, its tables
// and its counters. A message is a header and the submessages the parser frames in it.
module Broker {
  import opened Bytes
  import opened BrokerTables
  import opened TopicLog

  const SESSIONS: nat := 4
  const TABLE: nat := 8
  const NAME_SIZE: nat := 64

  newtype u16 = x: int | 0 <= x < 0x1_0000

  // Unsigned 16-bit increment.
  function Bump(n: u16): (r: u16) { if n == 0xFFFF then 0 else n + 1 }

  datatype Key = Key(k0: byte, k1: byte, k2: byte, k3: byte)

  const NO_KEY := Key(0, 0, 0, 0)

  // ---- inputs -----------------------------------------------------------------------

  // `blob` is the binary representation of the object, when there is a readable one.
  datatype Sub =
    | CreateClient(clientKey: Key, sessionId: byte)
    | Create(request: u16, id: ObjId, blob: Option<seq<byte>>)
    | GetInfo(request: u16, id: ObjId)
    | Delete(request: u16, id: ObjId)
    | WriteData(request: u16, id: ObjId, payload: seq<byte>)
    | Heartbeat(first: u16, last: u16, stream: byte)
    | Ignored

  datatype Message = Message(sessionId: byte, stream: byte, seqNum: u16, key: Key, subs: seq<Sub>)

  // ---- outputs ----------------------------------------------------------------------

  datatype Body =
    | StatusAgent(status: byte)
    | Status(request: u16, id: ObjId, status: byte)
    | Info(request: u16, id: ObjId)
    | Data(reader: ObjId, payload: seq<byte>)
    | AckNack(firstUnacked: u16, stream: byte)

  // The key is on the wire only for session ids below 0x80.
  datatype Reply = Reply(sessionId: byte, stream: byte, seqNum: u16, key: Option<Key>, body: Body)

  // A reply handed to the queue of one session.
  datatype Posted = Posted(target: nat, reply: Reply)

  // ---- state ------------------------------------------------------------------------

  datatype Class = NoStream | BestEffort | Reliable

  function ClassOf(stream: byte): (c: Class) {
    if stream == 0 then NoStream else if stream < 128 then BestEffort else Reliable
  }

  datatype Session = Session(active: bool, id: byte, key: Key, seqNone: u16, seqBe: u16, seqRel: u16) {
    function Counter(c: Class): (n: u16) {
      match c case NoStream => seqNone case BestEffort => seqBe case Reliable => seqRel
    }

    function Bumped(c: Class): (s: Session)
      ensures s.Counter(c) == Bump(Counter(c))
      ensures forall d | d != c :: s.Counter(d) == Counter(d)
      ensures s.active == active && s.id == id && s.key == key
    {
      match c
      case NoStream => this.(seqNone := Bump(seqNone))
      case BestEffort => this.(seqBe := Bump(seqBe))
      case Reliable => this.(seqRel := Bump(seqRel))
    }
  }

  const CLOSED := Session(false, 0, NO_KEY, 0, 0, 0)

  // The message being handled: the queue it came from and the header replies echo.
  datatype Current = Current(idx: nat, id: byte, key: Key, stream: byte)

  // `built` is everything handed to a queue so far, `since[i]` its length when session i was
  // last created, and `log` the topic records written.
  datatype State = State(
    sessions: seq<Session>, topics: seq<Slot<seq<byte>>>, writers: seq<Slot<ObjId>>, readers: seq<Slot<ObjId>>,
    cur: Current, built: seq<Posted>, since: seq<nat>, log: seq<Record>)

  function Empty<T>(v: T): (t: seq<Slot<T>>)
    ensures |t| == TABLE
  {
    seq(TABLE, i => Slot(false, 0, ObjId(0, 0), v))
  }

  function Initial(): (b: State) {
    State(seq(SESSIONS, i => CLOSED), Empty([]), Empty(ObjId(0, 0)), Empty(ObjId(0, 0)),
          Current(0, 0, NO_KEY, 0), [], seq(SESSIONS, i => 0), [])
  }

  predicate Shaped(b: State) {
    && |b.sessions| == SESSIONS && |b.since| == SESSIONS && b.cur.idx < SESSIONS
    && |b.topics| == TABLE && |b.writers| == TABLE && |b.readers| == TABLE
  }

  // ---- replies ----------------------------------------------------------------------

  function KeyOf(sessionId: byte, key: Key): (k: Option<Key>) { if sessionId < 0x80 then Some(key) else None }

  // A reply that takes the next number of its stream class in the target's session.
  function Post(b: State, target: nat, stream: byte, sessionId: byte, key: Key, body: Body): (b': State)
    requires Shaped(b) && target < SESSIONS
    ensures Shaped(b')
  {
    var s := b.sessions[target];
    var c := ClassOf(stream);
    b.(sessions := b.sessions[target := s.Bumped(c)],
       built := b.built + [Posted(target, Reply(sessionId, stream, s.Counter(c), KeyOf(sessionId, key), body))])
  }

  // To the session the current message came from, with the header it carried.
  function Answer(b: State, stream: byte, body: Body): (b': State)
    requires Shaped(b)
    ensures Shaped(b')
  {
    Post(b, b.cur.idx, stream, b.cur.id, b.cur.key, body)
  }

  // Acknowledgements go out on stream 0 with number 0 and take none.
  function Acknowledge(b: State, firstUnacked: u16, stream: byte): (b': State)
    requires Shaped(b)
    ensures Shaped(b')
  {
    var r := Reply(b.cur.id, 0, 0, KeyOf(b.cur.id, b.cur.key), AckNack(firstUnacked, stream));
    b.(built := b.built + [Posted(b.cur.idx, r)])
  }

  function StatusStream(stream: byte): (s: byte) { if stream != 0 then stream else 0x80 }

  // ---- handlers ---------------------------------------------------------------------

  function CreatedClient(b: State, key: Key, id: byte): (b': State)
    requires Shaped(b)
    ensures Shaped(b')
  {
    var i := b.cur.idx;
    b.(sessions := b.sessions[i := Session(true, id, key, 0, 0, 0)],
       since := b.since[i := |b.built|],
       cur := b.cur.(id := id, key := key))
  }

  function Kind(id: ObjId): (k: byte) { id.lo & 0x0F }

  const TOPIC: byte := 2
  const WRITER: byte := 5
  const READER: byte := 6

  // A C string: the octets before the first zero.
  function CString(s: seq<byte>): (r: seq<byte>)
    ensures |r| <= |s|
    ensures 0 !in r
  {
    if s == [] || s[0] == 0 then [] else [s[0]] + CString(s[1..])
  }

  function U32(s: seq<byte>): (n: nat)
    requires |s| >= 4
  {
    s[0] as nat + 0x100 * s[1] as nat + 0x1_0000 * s[2] as nat + 0x100_0000 * s[3] as nat
  }

  // read_cdr_string at the start of a blob: a length that counts the terminator, then the
  // characters, of which at most `size` - 1 are kept.
  function CdrString(blob: seq<byte>, size: nat): (r: Option<seq<byte>>)
    requires size > 0
    ensures r.Some? ==> |r.value| < size && 0 !in r.value
  {
    if |blob| < 4 then None
    else
      var len := U32(blob);
      if len == 0 || |blob| - 4 < len then None
      else Some(CString(blob[4..4 + if len < size then len - 1 else size - 1]))
  }

  // The topic an endpoint's representation names first.
  function TopicRef(blob: seq<byte>): (r: Option<ObjId>) {
    if |blob| < 2 then None else Some(ObjId(blob[0], blob[1]))
  }

  function Created(b: State, id: ObjId, blob: Option<seq<byte>>): (b': State)
    requires Shaped(b)
    ensures Shaped(b')
  {
    if blob.None? then b
    else if Kind(id) == TOPIC then
      var name := CdrString(blob.value, NAME_SIZE);
      if name.None? then b else b.(topics := Registered(b.topics, b.cur.idx, id, name.value))
    else if Kind(id) == WRITER || Kind(id) == READER then
      var topic := TopicRef(blob.value);
      if topic.None? then b
      else if Kind(id) == WRITER then b.(writers := Registered(b.writers, b.cur.idx, id, topic.value))
      else b.(readers := Registered(b.readers, b.cur.idx, id, topic.value))
    else b
  }

  // The name a writer of the current session publishes under.
  function Published(b: State, writer: ObjId): (r: Option<seq<byte>>) {
    var topic := Lookup(b.writers, b.cur.idx, writer);
    if topic.None? then None else Lookup(b.topics, b.cur.idx, topic.value)
  }

  // Whether a reader slot is in use and its topic, in its own session, has this name.
  predicate Reads(topics: seq<Slot<seq<byte>>>, r: Slot<ObjId>, name: seq<byte>) {
    r.used && Lookup(topics, r.session, r.val) == Some(name)
  }

  // Nothing is delivered to a session that is not active.
  function SendData(b: State, target: nat, reader: ObjId, payload: seq<byte>): (b': State)
    requires Shaped(b)
    ensures Shaped(b')
  {
    if target >= SESSIONS || !b.sessions[target].active then b
    else Post(b, target, 0x80, b.sessions[target].id, b.sessions[target].key, Data(reader, payload))
  }

  // Deliveries to the first n slots of the reader table, in order.
  function FanOut(b: State, name: seq<byte>, payload: seq<byte>, n: nat): (b': State)
    requires Shaped(b) && n <= TABLE
    ensures Shaped(b') && b'.readers == b.readers && b'.topics == b.topics
  {
    if n == 0 then b
    else
      var before, r := FanOut(b, name, payload, n - 1), b.readers[n - 1];
      if Reads(b.topics, r, name) then SendData(before, r.session, r.id, payload) else before
  }

  function Wrote(b: State, writer: ObjId, payload: seq<byte>): (b': State)
    requires Shaped(b)
    ensures Shaped(b')
  {
    var name := Published(b, writer);
    if name.None? then b
    else FanOut(b.(log := b.log + [Record(name.value, payload)]), name.value, payload, TABLE)
  }

  function Handled(b: State, sub: Sub): (b': State)
    requires Shaped(b)
    ensures Shaped(b')
  {
    match sub
    case CreateClient(key, id) => Answer(CreatedClient(b, key, id), 0, StatusAgent(0))
    case Create(request, id, blob) => Answer(Created(b, id, blob), StatusStream(b.cur.stream), Status(request, id, 0))
    case GetInfo(request, id) => Answer(b, 0, Info(request, id))
    case Delete(request, id) => Answer(b, StatusStream(b.cur.stream), Status(request, id, 0))
    case WriteData(_, id, payload) => Wrote(b, id, payload)
    case Heartbeat(_, last, stream) => Acknowledge(b, Bump(last), stream)
    case Ignored => b
  }

  function HandledAll(b: State, subs: seq<Sub>): (b': State)
    requires Shaped(b)
    ensures Shaped(b')
  {
    if subs == [] then b else Handled(HandledAll(b, subs[..|subs| - 1]), subs[|subs| - 1])
  }

  function Arrived(b: State, idx: nat, m: Message): (b': State)
    requires Shaped(b) && idx < SESSIONS
    ensures Shaped(b')
  {
    var b1 := b.(cur := Current(idx, m.sessionId, if m.sessionId < 0x80 then m.key else NO_KEY, m.stream));
    if ClassOf(m.stream) == Reliable then Acknowledge(b1, Bump(m.seqNum), m.stream) else b1
  }

  // One message from the queue of session idx.
  function Received(b: State, idx: nat, m: Message): (b': State)
    requires Shaped(b) && idx < SESSIONS
    ensures Shaped(b')
  {
    HandledAll(Arrived(b, idx, m), m.subs)
  }

  datatype Inbound = Inbound(idx: nat, message: Message)

  function Run(b: State, inputs: seq<Inbound>): (b': State)
    requires Shaped(b) && forall i <- inputs :: i.idx < SESSIONS
    ensures Shaped(b')
  {
    if inputs == [] then b
    else
      var last := inputs[|inputs| - 1];
      Received(Run(b, inputs[..|inputs| - 1]), last.idx, last.message)
  }
}
