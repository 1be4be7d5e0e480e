// The formats on the wire, octet by octet.
module WireLaws {
  import opened Bytes
  import opened Crc16
  import opened HdlcFraming
  import TopicLog
  import opened BrokerTables
  import opened Broker
  import opened BrokerWire
  import opened BrokerOctets

  // ---- the CRC ----------------------------------------------------------------------

  lemma Bits(c: bv16, d: bv16)
    requires ShiftBit(ShiftBit(ShiftBit(ShiftBit(ShiftBit(ShiftBit(ShiftBit(ShiftBit(c)))))))) == d
    ensures ShiftBits(c, 8) == d
  {
    hide ShiftBit, ShiftBits;
    BitsNext(c, 0);
    BitsNext(c, 1);
    BitsNext(c, 2);
    BitsNext(c, 3);
    BitsNext(c, 4);
    BitsNext(c, 5);
    BitsNext(c, 6);
    BitsNext(c, 7);
  }

  lemma BitsNext(c: bv16, n: nat)
    ensures ShiftBits(c, 0) == c && ShiftBits(c, n + 1) == ShiftBit(ShiftBits(c, n))
  {
    hide ShiftBit;
  }

  lemma NextOctet(s: seq<byte>, b: byte, c: bv16, d: bv16)
    requires Crc(s) == c && Step(c, b) == d
    ensures Crc(s + [b]) == d
  {
    hide Step;
    assert (s + [b])[..|s|] == s;
  }

  // The check value catalogued for this CRC.
  lemma CheckValue()
    ensures Crc([0x31, 0x32, 0x33, 0x34, 0x35, 0x36, 0x37, 0x38, 0x39]) == 0x29B1
  {
    FirstThree();
    MiddleThree();
    LastThree();
  }

  lemma FirstThree()
    ensures Crc([0x31, 0x32, 0x33]) == 0x5BCE
  {
    hide ShiftBits;
    var s: seq<byte> := [];
    Bits(Xor(0xFFFF, Crc16.High(0x31)), 0xC782);
    NextOctet(s, 0x31, 0xFFFF, 0xC782);
    Bits(Xor(0xC782, Crc16.High(0x32)), 0x3DBA);
    NextOctet(s + [0x31], 0x32, 0xC782, 0x3DBA);
    assert s + [0x31] + [0x32] == s + [0x31, 0x32];
    Bits(Xor(0x3DBA, Crc16.High(0x33)), 0x5BCE);
    NextOctet(s + [0x31, 0x32], 0x33, 0x3DBA, 0x5BCE);
    assert s + [0x31, 0x32] + [0x33] == s + [0x31, 0x32, 0x33];
    assert s + [0x31, 0x32, 0x33] == [0x31, 0x32, 0x33];
  }

  lemma MiddleThree()
    requires Crc([0x31, 0x32, 0x33]) == 0x5BCE
    ensures Crc([0x31, 0x32, 0x33, 0x34, 0x35, 0x36]) == 0x2EF4
  {
    hide ShiftBits, Crc;
    var s: seq<byte> := [0x31, 0x32, 0x33];
    Bits(Xor(0x5BCE, Crc16.High(0x34)), 0x5349);
    NextOctet(s, 0x34, 0x5BCE, 0x5349);
    Bits(Xor(0x5349, Crc16.High(0x35)), 0x4560);
    NextOctet(s + [0x34], 0x35, 0x5349, 0x4560);
    assert s + [0x34] + [0x35] == s + [0x34, 0x35];
    Bits(Xor(0x4560, Crc16.High(0x36)), 0x2EF4);
    NextOctet(s + [0x34, 0x35], 0x36, 0x4560, 0x2EF4);
    assert s + [0x34, 0x35] + [0x36] == s + [0x34, 0x35, 0x36];
    assert s + [0x34, 0x35, 0x36] == [0x31, 0x32, 0x33, 0x34, 0x35, 0x36];
  }

  lemma LastThree()
    requires Crc([0x31, 0x32, 0x33, 0x34, 0x35, 0x36]) == 0x2EF4
    ensures Crc([0x31, 0x32, 0x33, 0x34, 0x35, 0x36, 0x37, 0x38, 0x39]) == 0x29B1
  {
    hide ShiftBits, Crc;
    var s: seq<byte> := [0x31, 0x32, 0x33, 0x34, 0x35, 0x36];
    Bits(Xor(0x2EF4, Crc16.High(0x37)), 0x7718);
    NextOctet(s, 0x37, 0x2EF4, 0x7718);
    Bits(Xor(0x7718, Crc16.High(0x38)), 0xA12B);
    NextOctet(s + [0x37], 0x38, 0x7718, 0xA12B);
    assert s + [0x37] + [0x38] == s + [0x37, 0x38];
    Bits(Xor(0xA12B, Crc16.High(0x39)), 0x29B1);
    NextOctet(s + [0x37, 0x38], 0x39, 0xA12B, 0x29B1);
    assert s + [0x37, 0x38] + [0x39] == s + [0x37, 0x38, 0x39];
    assert s + [0x37, 0x38, 0x39] == [0x31, 0x32, 0x33, 0x34, 0x35, 0x36, 0x37, 0x38, 0x39];
  }

  // ---- frames -----------------------------------------------------------------------

  lemma StuffedOctet(b: byte)
    ensures Stuff(0x7E) == [0x7D, 0x5E] && Stuff(0x7D) == [0x7D, 0x5D]
    ensures b != 0x7E && b != 0x7D ==> Stuff(b) == [b]
  {
    assert FLAG ^ ESC_XOR == 0x5E;
    assert ESC ^ ESC_XOR == 0x5D;
  }

  // A frame is a flag, the stuffed octets of the payload and of its CRC, high octet first, and
  // a flag; in between there is no flag.
  lemma FrameOctets(payload: seq<byte>)
    ensures
      var hi, lo := (Crc(payload) >> 8) as byte, (Crc(payload) & 0xFF) as byte;
      Encode(payload) == [0x7E] + (StuffAll(payload) + (Stuff(hi) + Stuff(lo))) + [0x7E]
    ensures 0x7E !in StuffAll(payload)
  {
    StuffAllHasNoFlag(payload);
    var hi, lo := HighOctet(Crc(payload)), LowOctet(Crc(payload));
    TrailerOctets(Crc(payload));
    hide Crc, Stuff, StuffAll, HighOctet, LowOctet;
    StuffAllAppend(payload, [hi, lo]);
    StuffTwo(hi, lo);
  }

  lemma TrailerOctets(crc: bv16)
    ensures HighOctet(crc) == (crc >> 8) as byte && LowOctet(crc) == (crc & 0xFF) as byte
  {
  }

  lemma StuffTwo(a: byte, b: byte)
    ensures StuffAll([a, b]) == Stuff(a) + Stuff(b)
  {
    hide Stuff, StuffAll;
    StuffedNext([], a);
    StuffedNext([a], b);
    assert [] + [a] == [a];
    assert [a] + [b] == [a, b];
    assert [] + Stuff(a) == Stuff(a);
  }

  // Octet by octet in order.
  lemma StuffedNext(s: seq<byte>, b: byte)
    ensures StuffAll([]) == [] && StuffAll(s + [b]) == StuffAll(s) + Stuff(b)
  {
    assert (s + [b])[..|s|] == s;
  }

  // From outside a frame: delivered exactly when it has an octet and, on the target, at most
  // 1024.
  lemma FrameDelivered(v: Variant, payload: seq<byte>)
    ensures HdlcFraming.Run(v, Out, Encode(payload)).events ==
            if 1 <= |payload| && (v == Target ==> |payload| <= 1024) then [Frame(payload)] else []
  {
    hide Encode, HdlcFraming.Run, Next;
    FrameFromSynced(v, Out, payload);
  }

  // ---- topic records ----------------------------------------------------------------

  // A record is the length of its name, the name and the payload.
  lemma RecordOctets(r: TopicLog.Record)
    requires |r.name| <= 255
    ensures
      var s := TopicLog.Body(r);
      && |s| == 1 + |r.name| + |r.payload| && s[0] as nat == |r.name|
      && s[1..1 + |r.name|] == r.name && s[1 + |r.name|..] == r.payload
  {
  }

  // ---- broker messages --------------------------------------------------------------

  // The header: session id, stream, number low octet first, and below 0x80 the client's key.
  lemma HeaderOctets(data: seq<byte>)
    requires Decodable(data)
    ensures
      var m := Decoded(data);
      && |data| >= 4 && m.sessionId == data[0] && m.stream == data[1]
      && m.seqNum as nat == data[2] as nat + 256 * data[3] as nat
      && if data[0] < 0x80 then
           |data| >= 8 && m.key == Key(data[4], data[5], data[6], data[7]) && m.subs == SubsOf(data, 8)
         else m.key == Key(0, 0, 0, 0) && m.subs == SubsOf(data, 4)
  {
  }

  // A submessage starts on the next multiple of four, with its id and the length of its
  // payload at its start; the next one follows the payload.
  lemma SubmessageOctets(data: seq<byte>, off: nat, p: nat)
    requires off <= p < off + 4 && p % 4 == 0
    ensures Whole(data, off) <==>
            off + 4 <= |data| && p + 4 <= |data| && p + 4 + (data[p + 2] as nat + 256 * data[p + 3] as nat) <= |data|
    ensures Whole(data, off) ==>
              var f, n := First(data, off), data[p + 2] as nat + 256 * data[p + 3] as nat;
              && f.id == data[p] && f.flags == data[p + 1] && f.payload == data[p + 4..p + 4 + n]
              && End(data, off) == p + 4 + n
  {
    Multiples(off, p);
    hide Aligned;
  }

  lemma Multiples(off: nat, p: nat)
    requires off <= p < off + 4 && p % 4 == 0
    ensures p == Aligned(off)
  {
  }

  // What each kind of submessage holds.
  lemma HandlerOctets(f: Framed, after: nat)
    requires Readable(f, after)
    ensures
      var s, sub := f.payload, SubOf(f, after);
      && (f.id == 0 ==> |s| >= 13 && sub == CreateClient(Key(s[8], s[9], s[10], s[11]), s[12]))
      && (f.id == 1 ==> sub.Create?) && (f.id == 2 ==> sub.GetInfo?) && (f.id == 3 ==> sub.Delete?)
      && (f.id == 7 ==> sub.WriteData? && sub.payload == s[4..])
      && (f.id in {1, 2, 3, 7} ==>
            |s| >= 4 && sub.request as nat == 256 * s[0] as nat + s[1] as nat && sub.id == ObjId(s[2], s[3]))
      && (f.id == 11 ==>
            && |s| >= 5 && sub.Heartbeat? && sub.stream == s[4]
            && sub.first as nat == s[0] as nat + 256 * s[1] as nat
            && sub.last as nat == s[2] as nat + 256 * s[3] as nat)
      && (f.id !in {0, 1, 2, 3, 7, 11} ==> sub == Ignored)
  {
    hide BlobOf, Represented;
  }

  // A representation is read for topics, writers and readers, in the binary format 3: its
  // length at octet 8, low octet first, and then its octets.
  lemma BlobOctets(s: seq<byte>)
    requires |s| >= 5
    ensures
      BlobOf(s) ==
      if s[3] & 0x0F in {2, 5, 6} && |s| >= 12 && s[5] == 3 && 12 + Number(s, 8) <= |s|
      then Some(s[12..12 + Number(s, 8)]) else None
  {
    if |s| >= 12 {
      assert s[8..12] == [s[8], s[9], s[10], s[11]];
      NumberIs(s[8], s[9], s[10], s[11]);
    }
    hide U32;
  }

  function Number(s: seq<byte>, i: nat): (n: nat)
    requires i + 4 <= |s|
  {
    s[i] as nat + 256 * (s[i + 1] as nat + 256 * (s[i + 2] as nat + 256 * s[i + 3] as nat))
  }

  lemma NumberIs(a: byte, b: byte, c: byte, d: byte)
    ensures U32([a, b, c, d]) == a as nat + 256 * (b as nat + 256 * (c as nat + 256 * d as nat))
  {
  }
}
