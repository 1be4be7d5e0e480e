// How submessages are framed in a message: each starts on a multiple of four octets, with an
// id, flags and a little-endian length.
module BrokerWire {
  import opened Bytes

  datatype Framed = Framed(id: byte, flags: byte, payload: seq<byte>)

  // The next multiple of four.
  function Aligned(off: nat): (p: nat)
    ensures off <= p < off + 4
  {
    off + (4 - off % 4) % 4
  }

  // It is the first multiple of four from off on.
  lemma AlignedIs(off: nat, p: nat)
    requires off <= p <= Aligned(off)
    ensures p == Aligned(off) <==> p % 4 == 0
  {
  }

  lemma ZerosGrow(n: nat)
    ensures Zeros(0) == [] && Zeros(n + 1) == Zeros(n) + [0]
  {
  }

  function U16(lo: byte, hi: byte): (n: nat) { lo as nat + 0x100 * hi as nat }

  function Low(n: nat): (b: byte)
    requires n < 0x1_0000
  {
    Octet(n % 0x100)
  }

  function High(n: nat): (b: byte)
    requires n < 0x1_0000
  {
    Octet(n / 0x100)
  }

  lemma LengthRoundTrip(n: nat)
    requires n < 0x1_0000
    ensures U16(Low(n), High(n)) == n
  {
  }

  // ---- building ---------------------------------------------------------------------

  predicate Sendable(f: Framed) { |f.payload| < 0x1_0000 }

  // The padding and subheader in front of a payload of n octets, in a buffer of length off.
  function Subheader(off: nat, id: byte, flags: byte, n: nat): (s: seq<byte>)
    requires n < 0x1_0000
    ensures |s| == Aligned(off) - off + 4
  {
    Zeros(Aligned(off) - off) + [id, flags, Low(n), High(n)]
  }

  function One(off: nat, f: Framed): (s: seq<byte>)
    requires Sendable(f)
  {
    Subheader(off, f.id, f.flags, |f.payload|) + f.payload
  }

  function Encoded(off: nat, fs: seq<Framed>): (s: seq<byte>)
    requires forall f <- fs :: Sendable(f)
    decreases |fs|
  {
    if fs == [] then []
    else
      var first := One(off, fs[0]);
      first + Encoded(off + |first|, fs[1..])
  }

  // put_subheader: octet by octet to the end of the buffer.
  method PutSubheader(buffer: seq<byte>, id: byte, flags: byte, length: nat) returns (r: seq<byte>)
    requires length < 0x1_0000
    ensures r == buffer + Subheader(|buffer|, id, flags, length)
  {
    hide Low, High, Aligned, Zeros;
    r := buffer;
    var off := |buffer|;
    AlignedIs(|buffer|, off);
    ZerosGrow(0);
    while off % 4 != 0
      invariant |buffer| <= off == |r| <= Aligned(|buffer|)
      invariant r == buffer + Zeros(off - |buffer|)
      decreases Aligned(|buffer|) - off
    {
      AlignedIs(|buffer|, off);
      ZerosGrow(off - |buffer|);
      r := r + [0];
      off := off + 1;
    }
    AlignedIs(|buffer|, off);
    ghost var padded := r;
    r := r + [id];
    r := r + [flags];
    r := r + [Low(length)] + [High(length)];
    assert r == padded + [id, flags, Low(length), High(length)];
  }

  // ---- framing ----------------------------------------------------------------------

  // Whether a whole submessage starts at off, and where it ends.
  predicate Whole(data: seq<byte>, off: nat) {
    var p := Aligned(off);
    && off + 4 <= |data| && p + 4 <= |data|
    && p + 4 + U16(data[p + 2], data[p + 3]) <= |data|
  }

  function First(data: seq<byte>, off: nat): (f: Framed)
    requires Whole(data, off)
  {
    var p := Aligned(off);
    Framed(data[p], data[p + 1], data[p + 4..p + 4 + U16(data[p + 2], data[p + 3])])
  }

  // Where it ends.
  function End(data: seq<byte>, off: nat): (e: nat)
    requires Whole(data, off)
    ensures off < e <= |data|
  {
    Aligned(off) + 4 + |First(data, off).payload|
  }

  function Parsed(data: seq<byte>, off: nat): (fs: seq<Framed>)
    decreases |data| - off
  {
    if !Whole(data, off) then []
    else [First(data, off)] + Parsed(data, End(data, off))
  }

  lemma ParsedStep(data: seq<byte>, off: nat, f: Framed)
    requires Whole(data, off) && f == First(data, off)
    ensures Parsed(data, off) == [f] + Parsed(data, End(data, off))
  {
    hide Aligned, U16, Whole, First, End;
  }

  // The head of the broker's submessage loop: padding octets, subheader, payload; none when
  // no whole submessage is left.
  method NextSub(data: seq<byte>, pos: nat) returns (next: Option<Framed>, end: nat)
    requires pos <= |data|
    ensures next == if Whole(data, pos) then Some(First(data, pos)) else None
    ensures end == if Whole(data, pos) then End(data, pos) else pos
  {
    hide U16, Aligned;
    if |data| - pos < 4 {
      return None, pos;
    }
    var off := pos;
    while off % 4 != 0
      invariant pos <= off <= Aligned(pos)
      decreases Aligned(pos) - off
    {
      AlignedIs(pos, off);
      // With four octets left the padding never runs out, so its error exit is not taken.
      assert off < |data|;
      off := off + 1;
    }
    AlignedIs(pos, off);
    if |data| - off < 4 {
      return None, pos;
    }
    var length := U16(data[off + 2], data[off + 3]);
    if |data| - (off + 4) < length {
      return None, pos;
    }
    return Some(Framed(data[off], data[off + 1], data[off + 4..off + 4 + length])), off + 4 + length;
  }

  // All of them, up to the first that is not whole.
  method ParseSubs(data: seq<byte>, start: nat) returns (fs: seq<Framed>)
    requires start <= |data|
    ensures fs == Parsed(data, start)
  {
    hide Whole, First, Parsed, End;
    fs := [];
    var pos := start;
    while true
      invariant start <= pos <= |data|
      invariant fs + Parsed(data, pos) == Parsed(data, start)
      decreases |data| - pos
    {
      var next, end := NextSub(data, pos);
      if next.None? {
        NoneWhole(data, pos);
        return;
      }
      ParsedStep(data, pos, next.value);
      fs := fs + [next.value];
      pos := end;
    }
  }

  // ---- laws -------------------------------------------------------------------------

  lemma OneIsFirst(head: seq<byte>, f: Framed, tail: seq<byte>)
    requires Sendable(f)
    ensures var data := head + One(|head|, f) + tail;
            Whole(data, |head|) && First(data, |head|) == f
            && Aligned(|head|) + 4 + |f.payload| == |head| + |One(|head|, f)|
  {
    var off, p, n := |head|, Aligned(|head|), |f.payload|;
    LengthRoundTrip(n);
    hide U16, Low, High, Aligned, Zeros;
    var pad, sub := Zeros(p - off), [f.id, f.flags, Low(n), High(n)];
    Regrouped(head, pad, sub, f.payload, tail);
    Layout(head + pad, sub, f.payload, tail);
  }

  lemma Regrouped<T>(head: seq<T>, pad: seq<T>, sub: seq<T>, payload: seq<T>, tail: seq<T>)
    ensures head + (pad + sub + payload) + tail == (head + pad) + sub + payload + tail
  {
  }

  lemma Layout<T>(pre: seq<T>, sub: seq<T>, payload: seq<T>, tail: seq<T>)
    requires |sub| == 4
    ensures var p, data := |pre|, pre + sub + payload + tail;
            && data[p] == sub[0] && data[p + 1] == sub[1] && data[p + 2] == sub[2] && data[p + 3] == sub[3]
            && data[p + 4..p + 4 + |payload|] == payload
  {
  }

  // Whatever is framed is read back, in order, from any starting position.
  lemma {:induction false} FramingRoundTrip(head: seq<byte>, fs: seq<Framed>)
    requires forall f <- fs :: Sendable(f)
    ensures Parsed(head + Encoded(|head|, fs), |head|) == fs
    decreases |fs|
  {
    hide Whole, First, One, Aligned, Parsed, Encoded;
    if fs == [] {
      NothingFramed(head);
    } else {
      var first := One(|head|, fs[0]);
      var tail := Encoded(|head| + |first|, fs[1..]);
      var data := head + Encoded(|head|, fs);
      EncodedStep(|head|, fs);
      OneIsFirst(head, fs[0], tail);
      assert data == head + first + tail;
      ParsedStep(data, |head|, fs[0]);
      FramingRoundTrip(head + first, fs[1..]);
    }
  }

  lemma EncodedStep(off: nat, fs: seq<Framed>)
    requires fs != [] && forall f <- fs :: Sendable(f)
    ensures Encoded(off, fs) == One(off, fs[0]) + Encoded(off + |One(off, fs[0])|, fs[1..])
  {
  }

  lemma NothingFramed(head: seq<byte>)
    ensures Encoded(|head|, []) == [] && Parsed(head, |head|) == [] && head + [] == head
  {
  }

  // Of a message that is cut short, the submessages read are a prefix of the whole one's.
  lemma {:induction false} TruncatedIsPrefix(data: seq<byte>, n: nat, off: nat)
    requires n <= |data|
    ensures Parsed(data[..n], off) <= Parsed(data, off)
    decreases |data| - off
  {
    hide First, Aligned, U16, Parsed;
    if Whole(data[..n], off) {
      WholeIsStable(data, n, off);
      ParsedStep(data[..n], off, First(data, off));
      ParsedStep(data, off, First(data, off));
      FirstInside(data, off);
      TruncatedIsPrefix(data, n, Aligned(off) + 4 + |First(data, off).payload|);
    } else {
      NoneWhole(data[..n], off);
    }
  }

  lemma FirstInside(data: seq<byte>, off: nat)
    requires Whole(data, off)
    ensures off < Aligned(off) + 4 + |First(data, off).payload| <= |data|
  {
    hide Aligned, U16;
  }

  lemma NoneWhole(data: seq<byte>, off: nat)
    requires !Whole(data, off)
    ensures Parsed(data, off) == []
  {
  }

  lemma WholeIsStable(data: seq<byte>, n: nat, off: nat)
    requires n <= |data| && Whole(data[..n], off)
    ensures Whole(data, off) && First(data[..n], off) == First(data, off)
  {
    hide Aligned, U16;
    var p := Aligned(off);
    assert data[..n][p..] == data[p..n];
  }
}
