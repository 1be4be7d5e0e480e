// The host's end of the link: the proxy's frame encoder and parser, and the two threads that
// share the target's input under a lock.
module HtifProxy {
  import opened Bytes
  import opened Crc16
  import opened HdlcFraming

  // crc16_ccitt over a host byte string.
  method Crc16OfBytes(data: seq<byte>) returns (crc: bv16)
    ensures crc == Crc(data)
  {
    hide Step;
    crc := INIT;
    for i := 0 to |data|
      invariant crc == Crc(data[..i])
    {
      assert data[..i + 1][..i] == data[..i];
      crc := UpdateCrc(crc, data[i]);
    }
    assert data[..|data|] == data;
  }

  // hdlc_encode
  method HdlcEncode(payload: seq<byte>) returns (out: seq<byte>)
    ensures out == Encode(payload)
  {
    hide Crc;
    var crc := Crc16OfBytes(payload);
    var raw := payload + [HighOctet(crc), LowOctet(crc)];
    out := [FLAG];
    for i := 0 to |raw|
      invariant out == [FLAG] + StuffAll(raw[..i])
    {
      assert raw[..i + 1][..i] == raw[..i];
      var b := raw[i];
      if b == FLAG || b == ESC {
        out := out + [ESC];
        out := out + [b ^ ESC_XOR];
      } else {
        out := out + [b];
      }
    }
    assert raw[..|raw|] == raw;
    out := out + [FLAG];
  }

  // The proxy's parser: an unbounded buffer, and text outside frames passed on.
  class HdlcParser {
    var state: ParserState
    var buf: seq<byte>

    ghost function Model(): (st: State)
      reads this
    {
      match state
      case OutOfFrame => Out
      case InFrame => In(buf)
      case InFrameEsc => Esc(buf)
    }

    constructor ()
      ensures Model() == Out
    {
      state, buf := OutOfFrame, [];
    }

    method Feed(b: byte) returns (events: seq<Event>)
      modifies this
      ensures Next(Proxy, old(Model()), b) == Trace(Model(), events)
    {
      hide Crc;
      events := [];
      match state
      case OutOfFrame =>
        if b == FLAG {
          buf, state := [], InFrame;
        } else {
          events := [Console(b)];
        }
      case InFrame =>
        if b == FLAG {
          if |buf| >= 3 {
            var n := |buf| - 2;
            var payload, trailer := buf[..n], buf[n..];
            var crc := Crc16OfBytes(payload);
            if Word(trailer[0], trailer[1]) == crc {
              events := [Frame(payload)];
            }
          }
          buf, state := [], InFrame;
        } else if b == ESC {
          state := InFrameEsc;
        } else {
          buf := buf + [b];
        }
      case InFrameEsc =>
        buf, state := buf + [b ^ ESC_XOR], InFrame;
    }
  }
}
