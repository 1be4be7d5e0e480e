// A message as octets: the header, and what each handler reads from its submessage.
module BrokerOctets {
  import opened Bytes
  import opened BrokerTables
  import opened Broker
  import opened BrokerWire

  // Two octets as a number, low or high octet first.
  function Le16(lo: byte, hi: byte): (n: u16) { U16(lo, hi) as u16 }

  const CREATE_CLIENT: byte := 0
  const CREATE: byte := 1
  const GET_INFO: byte := 2
  const DELETE: byte := 3
  const WRITE_DATA: byte := 7
  const HEARTBEAT: byte := 11
  const IN_BINARY: byte := 3

  // The kinds of object whose representation is read.
  predicate Represented(id: ObjId) { Kind(id) == TOPIC || Kind(id) == WRITER || Kind(id) == READER }

  // The request and object ids in front of every request, the first high octet first.
  function RequestOf(s: seq<byte>): (r: u16)
    requires |s| >= 4
  {
    Le16(s[1], s[0])
  }

  function ObjectOf(s: seq<byte>): (id: ObjId)
    requires |s| >= 4
  {
    ObjId(s[2], s[3])
  }

  // A representation: after the object kind a format, and in the binary one a length on the
  // next multiple of four and the blob.
  predicate BinaryAt(s: seq<byte>) { |s| >= 12 && s[5] == IN_BINARY }

  function BlobSize(s: seq<byte>): (n: nat)
    requires |s| >= 12
  {
    U32(s[8..12])
  }

  // The length field covers what the handler of the submessage reads. `after` is how many
  // octets the message has after it: a blob that does not fit even those is refused.
  predicate Readable(f: Framed, after: nat) {
    var s := f.payload;
    if f.id == CREATE_CLIENT then |s| >= 13
    else if f.id == CREATE then
      && |s| >= 5
      && (Represented(ObjectOf(s)) ==>
            && |s| >= 6
            && (s[5] == IN_BINARY ==>
                  |s| >= 12 && (12 + BlobSize(s) <= |s| || 12 + BlobSize(s) > |s| + after)))
    else if f.id == GET_INFO || f.id == DELETE || f.id == WRITE_DATA then |s| >= 4
    else f.id == HEARTBEAT ==> |s| >= 5
  }

  function BlobOf(s: seq<byte>): (blob: Option<seq<byte>>)
    requires |s| >= 5
  {
    if Represented(ObjectOf(s)) && BinaryAt(s) && 12 + BlobSize(s) <= |s| then Some(s[12..12 + BlobSize(s)]) else None
  }

  function SubOf(f: Framed, after: nat): (sub: Sub)
    requires Readable(f, after)
  {
    var s := f.payload;
    if f.id == CREATE_CLIENT then CreateClient(Key(s[8], s[9], s[10], s[11]), s[12])
    else if f.id == CREATE then Create(RequestOf(s), ObjectOf(s), BlobOf(s))
    else if f.id == GET_INFO then GetInfo(RequestOf(s), ObjectOf(s))
    else if f.id == DELETE then Delete(RequestOf(s), ObjectOf(s))
    else if f.id == WRITE_DATA then WriteData(RequestOf(s), ObjectOf(s), s[4..])
    else if f.id == HEARTBEAT then Heartbeat(Le16(s[0], s[1]), Le16(s[2], s[3]), s[4])
    else Ignored
  }

  predicate AllReadable(data: seq<byte>, off: nat)
    decreases |data| - off
  {
    Whole(data, off) ==> Readable(First(data, off), |data| - End(data, off)) && AllReadable(data, End(data, off))
  }

  function SubsOf(data: seq<byte>, off: nat): (subs: seq<Sub>)
    requires AllReadable(data, off)
    decreases |data| - off
  {
    if !Whole(data, off) then []
    else [SubOf(First(data, off), |data| - End(data, off))] + SubsOf(data, End(data, off))
  }

  function HeaderLength(data: seq<byte>): (n: nat)
    requires |data| >= 1
  {
    if data[0] < 0x80 then 8 else 4
  }

  // A message whose header is complete and whose submessages cover what is read of them.
  predicate Decodable(data: seq<byte>) {
    && |data| >= 4 && |data| >= HeaderLength(data) && AllReadable(data, HeaderLength(data))
  }

  function HeaderKey(data: seq<byte>): (key: Key)
    requires |data| >= 4 && |data| >= HeaderLength(data)
  {
    if data[0] < 0x80 then Key(data[4], data[5], data[6], data[7]) else NO_KEY
  }

  function Decoded(data: seq<byte>): (m: Message)
    requires Decodable(data)
  {
    Message(data[0], data[1], Le16(data[2], data[3]), HeaderKey(data), SubsOf(data, HeaderLength(data)))
  }

  lemma SubsStep(data: seq<byte>, off: nat)
    requires AllReadable(data, off) && Whole(data, off)
    ensures Readable(First(data, off), |data| - End(data, off)) && AllReadable(data, End(data, off))
    ensures SubsOf(data, off) == [SubOf(First(data, off), |data| - End(data, off))] + SubsOf(data, End(data, off))
  {
  }

  lemma SubsNone(data: seq<byte>, off: nat)
    requires !Whole(data, off)
    ensures AllReadable(data, off) && SubsOf(data, off) == []
  {
  }

  // ---- the same, written ------------------------------------------------------------

  function Be(n: u16): (s: seq<byte>)
    ensures |s| == 2
  {
    [High(n as nat), Low(n as nat)]
  }

  function Le(n: u16): (s: seq<byte>)
    ensures |s| == 2
  {
    [Low(n as nat), High(n as nat)]
  }

  function Le32(n: nat): (s: seq<byte>)
    requires n < 0x1_0000
    ensures |s| == 4
  {
    [Low(n), High(n), 0, 0]
  }

  function Request(request: u16, id: ObjId): (s: seq<byte>)
    ensures |s| == 4
  {
    Be(request) + [id.hi, id.lo]
  }

  // Cookie, version and vendor of a client's representation.
  const CLIENT_HEAD: seq<byte> := [0x58, 0x52, 0x43, 0x45, 1, 0, 1, 0x0F]

  function KeyBytes(key: Key): (s: seq<byte>)
    ensures |s| == 4
  {
    [key.k0, key.k1, key.k2, key.k3]
  }

  function Representation(blob: Option<seq<byte>>): (s: seq<byte>)
    requires blob.Some? ==> |blob.value| < 0x1_0000
  {
    if blob.Some? then [IN_BINARY, 0, 0] + Le32(|blob.value|) + blob.value + [0, 0] else [0]
  }

  // A submessage that a client can send: a representation only for the kinds that are read.
  predicate Writable(sub: Sub) {
    match sub
    case Create(_, id, blob) => blob.Some? ==> Represented(id) && |blob.value| < 0xFFF0
    case WriteData(_, _, payload) => |payload| < 0xFFF0
    case _ => true
  }

  function FramedOf(sub: Sub): (f: Framed)
    requires Writable(sub)
    ensures Sendable(f)
  {
    match sub
    case CreateClient(key, id) => Framed(CREATE_CLIENT, 1, CLIENT_HEAD + KeyBytes(key) + [id, 0, 0, 2])
    case Create(request, id, blob) => Framed(CREATE, 1, Request(request, id) + [Kind(id)] + Representation(blob))
    case GetInfo(request, id) => Framed(GET_INFO, 1, Request(request, id))
    case Delete(request, id) => Framed(DELETE, 1, Request(request, id))
    case WriteData(request, id, payload) => Framed(WRITE_DATA, 1, Request(request, id) + payload)
    case Heartbeat(first, last, stream) => Framed(HEARTBEAT, 1, Le(first) + Le(last) + [stream])
    case Ignored => Framed(8, 1, [])
  }

  function FramedAll(subs: seq<Sub>): (fs: seq<Framed>)
    requires forall sub <- subs :: Writable(sub)
    ensures |fs| == |subs| && forall i | 0 <= i < |fs| :: fs[i] == FramedOf(subs[i])
    ensures forall f <- fs :: Sendable(f)
  {
    if subs == [] then [] else [FramedOf(subs[0])] + FramedAll(subs[1..])
  }

  // put_msg_header
  function Header(sessionId: byte, stream: byte, seqNum: u16, key: Key): (s: seq<byte>) {
    [sessionId, stream] + Le(seqNum) + if sessionId < 0x80 then KeyBytes(key) else []
  }

  predicate WritableMessage(m: Message) {
    (m.sessionId >= 0x80 ==> m.key == NO_KEY) && forall sub <- m.subs :: Writable(sub)
  }

  function MessageBytes(m: Message): (s: seq<byte>)
    requires WritableMessage(m)
  {
    var head := Header(m.sessionId, m.stream, m.seqNum, m.key);
    head + Encoded(|head|, FramedAll(m.subs))
  }

  // ---- round trip -------------------------------------------------------------------

  lemma Number16(n: u16)
    ensures Le16(Low(n as nat), High(n as nat)) == n
  {
    LengthRoundTrip(n as nat);
  }

  lemma Number32(n: nat)
    requires n < 0x1_0000
    ensures U32(Le32(n)) == n
  {
    LengthRoundTrip(n);
    hide Low, High;
  }

  lemma RequestRead(request: u16, id: ObjId, tail: seq<byte>)
    ensures var s := Request(request, id) + tail; RequestOf(s) == request && ObjectOf(s) == id
  {
    Number16(request);
    hide Low, High, Le16;
  }

  lemma BlobRead(request: u16, id: ObjId, blob: seq<byte>)
    requires Represented(id) && |blob| < 0xFFF0
    ensures var s := Request(request, id) + [Kind(id)] + Representation(Some(blob));
            BinaryAt(s) && BlobSize(s) == |blob| && 12 + |blob| <= |s| && s[12..12 + |blob|] == blob
  {
    Number32(|blob|);
    hide U32, Le32, Low, High, Kind, Request;
    var head := Request(request, id) + [Kind(id)];
    var s := head + Representation(Some(blob));
    assert s == (head + [IN_BINARY, 0, 0]) + Le32(|blob|) + blob + [0, 0];
    Slices(head + [IN_BINARY, 0, 0], Le32(|blob|), blob, [0, 0]);
    assert s[5] == [IN_BINARY, 0, 0][0];
  }

  lemma Slices<T>(a: seq<T>, b: seq<T>, c: seq<T>, d: seq<T>)
    ensures var s := a + b + c + d;
            && s[|a|..|a| + |b|] == b
            && s[|a| + |b|..|a| + |b| + |c|] == c
  {
  }

  // Whatever is written is read back, whatever comes after it.
  lemma SubRoundTrip(sub: Sub, after: nat)
    requires Writable(sub)
    ensures Readable(FramedOf(sub), after) && SubOf(FramedOf(sub), after) == sub
  {
    hide Le16, Low, High, U32, Kind, Request, Representation;
    match sub
    case CreateClient(key, id) =>
    case Create(request, id, blob) => CreateRoundTrip(request, id, blob, after);
    case GetInfo(request, id) =>
      RequestRead(request, id, []);
      assert Request(request, id) + [] == Request(request, id);
    case Delete(request, id) =>
      RequestRead(request, id, []);
      assert Request(request, id) + [] == Request(request, id);
    case WriteData(request, id, payload) => RequestRead(request, id, payload);
    case Heartbeat(first, last, stream) =>
      Number16(first);
      Number16(last);
    case Ignored =>
  }

  lemma CreateRoundTrip(request: u16, id: ObjId, blob: Option<seq<byte>>, after: nat)
    requires Writable(Create(request, id, blob))
    ensures Readable(FramedOf(Create(request, id, blob)), after)
    ensures SubOf(FramedOf(Create(request, id, blob)), after) == Create(request, id, blob)
  {
    var tail := [Kind(id)] + Representation(blob);
    var s := Request(request, id) + [Kind(id)] + Representation(blob);
    assert s == Request(request, id) + tail;
    RequestRead(request, id, tail);
    hide U32, Low, High, Kind, Request, Le16;
    if blob.Some? {
      BlobRead(request, id, blob.value);
    } else {
      assert s[5] == 0;
    }
  }

  lemma {:induction false} SubsRoundTrip(head: seq<byte>, subs: seq<Sub>)
    requires forall sub <- subs :: Writable(sub)
    ensures var data := head + Encoded(|head|, FramedAll(subs));
            AllReadable(data, |head|) && SubsOf(data, |head|) == subs
    decreases |subs|
  {
    hide Whole, First, One, Aligned, Encoded, FramedOf, Readable, SubOf, AllReadable, SubsOf, FramedAll, End, Writable;
    var fs := FramedAll(subs);
    var data := head + Encoded(|head|, fs);
    FramedAllStep(subs);
    if subs == [] {
      NothingFramed(head);
      NothingWhole(head);
      SubsNone(data, |head|);
    } else {
      var first := One(|head|, fs[0]);
      var tail := Encoded(|head| + |first|, fs[1..]);
      EncodedStep(|head|, fs);
      Joined(head, first, tail);
      OneFramed(head, fs[0], tail);
      SubsRoundTrip(head + first, subs[1..]);
      SubRoundTrip(subs[0], |data| - End(data, |head|));
      OneMoreSub(data, |head|, subs[0], subs[1..]);
    }
  }

  lemma Joined<T>(head: seq<T>, first: seq<T>, tail: seq<T>)
    ensures head + (first + tail) == head + first + tail
  {
  }

  lemma FramedAllStep(subs: seq<Sub>)
    requires forall sub <- subs :: Writable(sub)
    ensures subs == [] ==> FramedAll(subs) == []
    ensures subs != [] ==> FramedAll(subs) != [] && FramedAll(subs)[0] == FramedOf(subs[0])
                           && FramedAll(subs)[1..] == FramedAll(subs[1..])
    ensures forall f <- FramedAll(subs) :: Sendable(f)
  {
  }

  lemma OneFramed(head: seq<byte>, f: Framed, tail: seq<byte>)
    requires Sendable(f)
    ensures var data := head + One(|head|, f) + tail;
            Whole(data, |head|) && First(data, |head|) == f && End(data, |head|) == |head + One(|head|, f)|
  {
    OneIsFirst(head, f, tail);
    hide Whole, First, One, Aligned;
  }

  lemma NothingWhole(head: seq<byte>)
    ensures !Whole(head, |head|)
  {
  }

  lemma OneMoreSub(data: seq<byte>, off: nat, sub: Sub, rest: seq<Sub>)
    requires Whole(data, off)
    requires var f, after := First(data, off), |data| - End(data, off); Readable(f, after) && SubOf(f, after) == sub
    requires AllReadable(data, End(data, off)) && SubsOf(data, End(data, off)) == rest
    ensures AllReadable(data, off) && SubsOf(data, off) == [sub] + rest
  {
    hide Whole, First, Readable, SubOf;
  }

  // Every message a client can write is decoded to itself.
  lemma MessageRoundTrip(m: Message)
    requires WritableMessage(m)
    ensures Decodable(MessageBytes(m)) && Decoded(MessageBytes(m)) == m
  {
    hide AllReadable, SubsOf, Encoded, Low, High, Le16;
    Number16(m.seqNum);
    SubsRoundTrip(Header(m.sessionId, m.stream, m.seqNum, m.key), m.subs);
  }
}
