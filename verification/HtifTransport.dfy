// The target's end of the link: the module-private state of the transport, its octet-driven
// parser over fixed arrays, and the write and read hooks.
module HtifTransport {
  import opened Bytes
  import opened Crc16
  import opened HdlcFraming

  // ---- what a read does, on values --------------------------------------------------

  // The parser, and the payload octets of a decoded frame that no read has returned yet.
  datatype Receiver = Receiver(parser: State, pending: seq<byte>)

  const CLOSED := Receiver(Out, [])

  // One pass of the poll loop: the console had no octet, or it had one. The deadline passes
  // when the list given to a read is used up.
  type Poll = Option<byte>

  datatype ReadResult = ReadResult(rx: Receiver, out: seq<byte>, used: nat)

  function Received(polls: seq<Poll>): (r: seq<byte>) {
    if polls == [] then []
    else Received(polls[..|polls| - 1]) +
         (if polls[|polls| - 1].Some? then [polls[|polls| - 1].value] else [])
  }

  // The payload octets of the frames among some events.
  function Payloads(events: seq<Event>): (r: seq<byte>) {
    if events == [] then []
    else Payloads(events[..|events| - 1]) +
         (if events[|events| - 1].Frame? then events[|events| - 1].payload else [])
  }

  function Drain(rx: Receiver, len: nat, used: nat): (r: ReadResult)
    ensures |r.out| <= len
  {
    var n := if len < |rx.pending| then len else |rx.pending|;
    ReadResult(rx.(pending := rx.pending[n..]), rx.pending[..n], used)
  }

  function PollFrom(rx: Receiver, len: nat, polls: seq<Poll>, i: nat): (r: ReadResult)
    requires i <= |polls|
    ensures i <= r.used <= |polls| && |r.out| <= len
    decreases |polls| - i
  {
    if i == |polls| then ReadResult(rx, [], i)
    else match polls[i]
      case None => PollFrom(rx, len, polls, i + 1)
      case Some(b) =>
        var step := Next(Target, rx.parser, b);
        if step.events == [] then PollFrom(rx.(parser := step.state), len, polls, i + 1)
        else Drain(Receiver(step.state, Payloads(step.events)), len, i + 1)
  }

  function Read(rx: Receiver, len: nat, polls: seq<Poll>): (r: ReadResult)
    ensures r.used <= |polls| && |r.out| <= len
  {
    if rx.pending != [] && len != 0 then Drain(rx, len, 0) else PollFrom(rx, len, polls, 0)
  }

  // ---- no octet is lost or repeated -------------------------------------------------

  lemma PayloadsAppend(a: seq<Event>, b: seq<Event>)
    ensures Payloads(a + b) == Payloads(a) + Payloads(b)
  {
    if b == [] {
      assert a + b == a;
    } else {
      assert (a + b)[..|a + b| - 1] == a + b[..|b| - 1];
      PayloadsAppend(a, b[..|b| - 1]);
    }
  }

  // What the octets of the first n polls decode to.
  ghost function Decoded(rx: Receiver, polls: seq<Poll>, n: nat): (r: Trace)
    requires n <= |polls|
  {
    Run(Target, rx.parser, Received(polls[..n]))
  }

  // The balance of one read: what it returns and what it leaves pending is what was pending
  // and what the octets it consumed decode to.
  ghost predicate Balanced(rx: Receiver, polls: seq<Poll>, r: ReadResult)
    requires r.used <= |polls|
  {
    var decoded := Decoded(rx, polls, r.used);
    && r.rx.parser == decoded.state
    && r.out + r.rx.pending == rx.pending + Payloads(decoded.events)
  }

  lemma TargetStep(st: State, b: byte)
    ensures var e := Next(Target, st, b).events;
            e == [] || (|e| == 1 && e[0].Frame? && e[0].payload == Payloads(e) != [])
  {
    var e := Next(Target, st, b).events;
    if e != [] {
      assert e[..0] == [];
    }
  }

  lemma ReceivedSnoc(polls: seq<Poll>, i: nat)
    requires i < |polls|
    ensures Received(polls[..i + 1]) ==
            Received(polls[..i]) + (if polls[i].Some? then [polls[i].value] else [])
  {
    assert polls[..i + 1][..i] == polls[..i];
  }

  // No frame before the read stops; it stops at a frame or at the deadline; and a frame fills
  // the caller's buffer, the rest being kept.
  ghost predicate StopsAtFrame(rx: Receiver, len: nat, polls: seq<Poll>, r: ReadResult)
    requires r.used <= |polls|
  {
    var payload := Payloads(Decoded(rx, polls, r.used).events);
    && r.rx.parser == Decoded(rx, polls, r.used).state
    && (forall n | 0 <= n < r.used :: Decoded(rx, polls, n).events == [])
    && if Decoded(rx, polls, r.used).events == [] then
         r.used == |polls| && r.out == [] && r.rx.pending == rx.pending
       else
         r.out + r.rx.pending == payload && |r.out| == if len < |payload| then len else |payload|
  }

  lemma DecodedNext(rx: Receiver, polls: seq<Poll>, i: nat)
    requires i < |polls|
    ensures
      var before := Decoded(rx, polls, i);
      Decoded(rx, polls, i + 1) ==
      if polls[i].None? then before
      else var step := Next(Target, before.state, polls[i].value); Trace(step.state, before.events + step.events)
  {
    hide Next, Run, Received;
    ReceivedSnoc(polls, i);
    if polls[i].None? {
      assert Received(polls[..i]) + [] == Received(polls[..i]);
    } else {
      RunSnoc(Target, rx.parser, Received(polls[..i]), polls[i].value);
    }
  }

  lemma {:induction false} PollFromStops(rx0: Receiver, rx: Receiver, len: nat, polls: seq<Poll>, i: nat)
    requires i <= |polls| && rx.pending == rx0.pending
    requires Decoded(rx0, polls, i) == Trace(rx.parser, [])
    requires forall n | 0 <= n < i :: Decoded(rx0, polls, n).events == []
    ensures StopsAtFrame(rx0, len, polls, PollFrom(rx, len, polls, i))
    decreases |polls| - i
  {
    hide Next, Decoded, Payloads;
    if i < |polls| {
      DecodedNext(rx0, polls, i);
      if polls[i].None? {
        PollFromStops(rx0, rx, len, polls, i + 1);
      } else {
        var step := Next(Target, rx.parser, polls[i].value);
        assert [] + step.events == step.events;
        if step.events == [] {
          PollFromStops(rx0, rx.(parser := step.state), len, polls, i + 1);
        }
      }
    }
  }

  // A read with room for an octet loses nothing; one without room loses nothing as long as
  // nothing is pending.
  lemma ReadBalanced(rx: Receiver, len: nat, polls: seq<Poll>)
    requires len != 0 || rx.pending == []
    ensures Balanced(rx, polls, Read(rx, len, polls))
  {
    if rx.pending != [] {
      assert polls[..0] == [];
      assert rx.pending + [] == rx.pending;
    } else {
      assert polls[..0] == [];
      PollFromStops(rx, rx, len, polls, 0);
    }
  }

  // A read returns octets still pending at once, and otherwise polls until a frame is complete
  // or its time is up.
  lemma ReadStops(rx: Receiver, len: nat, polls: seq<Poll>)
    ensures var r := Read(rx, len, polls);
            if rx.pending != [] && len != 0 then
              && r.used == 0 && r.rx.parser == rx.parser && r.out + r.rx.pending == rx.pending
              && |r.out| == if len < |rx.pending| then len else |rx.pending|
            else StopsAtFrame(rx, len, polls, r)
  {
    if rx.pending == [] || len == 0 {
      assert polls[..0] == [];
      PollFromStops(rx, rx, len, polls, 0);
    }
  }

  // The closing flag of a frame replaces whatever was pending.
  lemma OverwritesPending(pending: seq<byte>, payload: seq<byte>)
    requires Deliverable(Target, payload)
    ensures Read(Receiver(In(WithCrc(payload)), pending), 0, [Some(FLAG)]) ==
            ReadResult(Receiver(In([]), payload), [], 1)
  {
    WithCrcAccepted(payload);
    var rx := Receiver(In(WithCrc(payload)), pending);
    assert Next(Target, rx.parser, FLAG) == Trace(In([]), [Frame(payload)]);
    TargetStep(rx.parser, FLAG);
    assert Read(rx, 0, [Some(FLAG)]) == PollFrom(rx, 0, [Some(FLAG)], 0);
  }

  // So the balance holds for whatever the console does exactly when the caller leaves room
  // or nothing is pending.
  lemma ReadBalancedIff(pending: seq<byte>, len: nat)
    ensures (forall parser, polls ::
               Balanced(Receiver(parser, pending), polls, Read(Receiver(parser, pending), len, polls)))
            <==> len != 0 || pending == []
  {
    if len != 0 || pending == [] {
      forall parser, polls
        ensures Balanced(Receiver(parser, pending), polls, Read(Receiver(parser, pending), len, polls))
      {
        ReadBalanced(Receiver(parser, pending), len, polls);
      }
    } else {
      var payload := [0 as byte];
      var parser, polls := In(WithCrc(payload)), [Some(FLAG)];
      OverwritesPending(pending, payload);
      assert polls[..1] == polls;
      assert polls[..0] == [];
      assert Received(polls) == [FLAG];
      RunOne(Target, parser, FLAG);
      WithCrcAccepted(payload);
      assert [Frame(payload)][..0] == [];
      assert Payloads([Frame(payload)]) == payload;
      assert |pending + payload| != |[] + payload|;
      assert !Balanced(Receiver(parser, pending), polls, Read(Receiver(parser, pending), len, polls));
    }
  }

  // ---- any number of reads ----------------------------------------------------------

  datatype Call = Call(len: nat, polls: seq<Poll>)

  datatype Session = Session(rx: Receiver, out: seq<byte>, consumed: seq<byte>)

  function Reads(rx: Receiver, calls: seq<Call>): (r: Session) {
    if calls == [] then Session(rx, [], [])
    else
      var s := Reads(rx, calls[..|calls| - 1]);
      var c := calls[|calls| - 1];
      var r := Read(s.rx, c.len, c.polls);
      Session(r.rx, s.out + r.out, s.consumed + Received(c.polls[..r.used]))
  }

  // Over any sequence of reads that leave room for an octet, the octets returned, followed by
  // those still pending, are the payloads of the frames in the octets consumed, in order.
  lemma {:induction false} ReadsConserve(calls: seq<Call>)
    requires forall c <- calls :: c.len != 0
    ensures var s := Reads(CLOSED, calls);
            var decoded := Run(Target, Out, s.consumed);
            s.rx.parser == decoded.state && s.out + s.rx.pending == Payloads(decoded.events)
  {
    hide Next, Read;
    if calls != [] {
      var before, c := Reads(CLOSED, calls[..|calls| - 1]), calls[|calls| - 1];
      ReadsConserve(calls[..|calls| - 1]);
      ReadBalanced(before.rx, c.len, c.polls);
      var r := Read(before.rx, c.len, c.polls);
      var got := Received(c.polls[..r.used]);
      RunAppend(Target, Out, before.consumed, got);
      PayloadsAppend(Run(Target, Out, before.consumed).events, Run(Target, before.rx.parser, got).events);
      assert before.out + (r.out + r.rx.pending) == (before.out + r.out) + r.rx.pending;
      assert before.out + (before.rx.pending + Payloads(Run(Target, before.rx.parser, got).events))
          == (before.out + before.rx.pending) + Payloads(Run(Target, before.rx.parser, got).events);
    }
  }

  // ---- the module as the source holds it --------------------------------------------

  class Transport {
    var parseState: ParserState
    var parseAccum: array<byte>
    var parseLen: nat
    var stagedPayload: array<byte>
    var stagedLen: nat
    var stagedOff: nat
    // Octets given to the console, oldest first.
    var wire: seq<byte>

    ghost predicate Valid()
      reads this
    {
      && parseAccum.Length == CAPACITY && parseLen <= CAPACITY
      && stagedPayload.Length == MAX_PAYLOAD && stagedOff <= stagedLen <= MAX_PAYLOAD
      && parseAccum != stagedPayload
    }

    ghost function Parser(): (st: State)
      reads this, parseAccum
      requires Valid()
    {
      match parseState
      case OutOfFrame => Out
      case InFrame => In(parseAccum[..parseLen])
      case InFrameEsc => Esc(parseAccum[..parseLen])
    }

    ghost function Model(): (rx: Receiver)
      reads this, parseAccum, stagedPayload
      requires Valid()
    {
      Receiver(Parser(), stagedPayload[stagedOff..stagedLen])
    }

    constructor ()
      ensures Valid() && fresh(parseAccum) && fresh(stagedPayload)
      ensures Model() == CLOSED && wire == []
    {
      parseState, parseLen, stagedLen, stagedOff := OutOfFrame, 0, 0, 0;
      parseAccum := new byte[CAPACITY];
      stagedPayload := new byte[MAX_PAYLOAD];
      wire := [];
    }

    // htif_transport_open: forgets any partial frame and any undelivered payload; on a device
    // that is not ready it fails and leaves them.
    method Open(deviceReady: bool) returns (ok: bool)
      requires Valid()
      modifies this
      ensures Valid() && ok == deviceReady && wire == old(wire)
      ensures Model() == if deviceReady then CLOSED else old(Model())
      ensures parseAccum == old(parseAccum) && stagedPayload == old(stagedPayload)
    {
      if !deviceReady {
        return false;
      }
      parseState, parseLen, stagedLen, stagedOff := OutOfFrame, 0, 0, 0;
      return true;
    }

    method EmitEscaped(b: byte)
      modifies this`wire
      ensures wire == old(wire) + Stuff(b)
    {
      if b == FLAG || b == ESC {
        wire := wire + [ESC];
        wire := wire + [b ^ ESC_XOR];
      } else {
        wire := wire + [b];
      }
    }

    // htif_transport_write: one call is one frame.
    method Write(buf: array<byte>, len: nat) returns (n: nat)
      requires Valid() && len <= buf.Length
      modifies this`wire
      ensures n == len && wire == old(wire) + Encode(buf[..len])
    {
      hide Stuff, Crc, HighOctet, LowOctet;
      wire := wire + [FLAG];
      for i := 0 to len
        invariant wire == old(wire) + [FLAG] + StuffAll(buf[..i])
      {
        assert buf[..i + 1][..i] == buf[..i];
        EmitEscaped(buf[i]);
      }
      var crc := Crc16Ccitt(buf, len);
      EmitEscaped(HighOctet(crc));
      EmitEscaped(LowOctet(crc));
      wire := wire + [FLAG];
      EncodeInSteps(old(wire), buf[..len]);
      return len;
    }

    // feed_parser: one octet, and whether it completed a valid frame.
    method FeedParser(raw: byte) returns (staged: bool)
      requires Valid()
      modifies this`parseState, this`parseLen, this`stagedLen, this`stagedOff, parseAccum, stagedPayload
      ensures Valid()
      ensures var step := Next(Target, old(Parser()), raw);
              && Parser() == step.state
              && staged == (step.events != [])
              && Model().pending == if staged then step.events[0].payload else old(Model().pending)
    {
      hide Crc, Word, Consoles;
      match parseState
      case OutOfFrame =>
        if raw == FLAG {
          parseLen, parseState := 0, InFrame;
        }
        return false;
      case InFrame =>
        if raw == FLAG {
          var ok := false;
          if parseLen >= 3 {
            var plen := parseLen - 2;
            var got := Word(parseAccum[plen], parseAccum[plen + 1]);
            var exp := Crc16Ccitt(parseAccum, plen);
            assert parseAccum[..parseLen][..plen] == parseAccum[..plen];
            if got == exp {
              CopyPrefix(parseAccum, stagedPayload, plen);
              stagedLen, stagedOff, ok := plen, 0, true;
            }
          }
          parseLen, parseState := 0, InFrame;
          return ok;
        }
        if raw == ESC {
          parseState := InFrameEsc;
          return false;
        }
        if parseLen < parseAccum.Length {
          parseAccum[parseLen] := raw;
          parseLen := parseLen + 1;
        } else {
          parseLen, parseState := 0, OutOfFrame;
        }
        return false;
      case InFrameEsc =>
        if parseLen < parseAccum.Length {
          parseAccum[parseLen] := raw ^ ESC_XOR;
          parseLen, parseState := parseLen + 1, InFrame;
        } else {
          parseLen, parseState := 0, OutOfFrame;
        }
        return false;
    }

    // Moves staged octets to the caller's buffer until one of the two runs out.
    method DrainStaged(buf: array<byte>, len: nat) returns (out: nat)
      requires Valid() && len <= buf.Length
      requires buf != parseAccum && buf != stagedPayload
      modifies this`stagedOff, buf
      ensures Valid()
      ensures var r := Drain(old(Model()), len, 0);
              Model() == r.rx && out == |r.out| && buf[..out] == r.out
    {
      out := 0;
      while stagedOff < stagedLen && out < len
        invariant Valid() && out <= len
        invariant old(stagedOff) + out == stagedOff
        invariant buf[..out] == old(stagedPayload[stagedOff..stagedLen])[..out]
      {
        buf[out] := stagedPayload[stagedOff];
        out, stagedOff := out + 1, stagedOff + 1;
      }
    }

    // The poll loop of a read: until a frame is staged or the deadline passes.
    method PollLoop(polls: seq<Poll>, ghost len: nat) returns (staged: bool, used: nat)
      requires Valid()
      modifies this`parseState, this`parseLen, this`stagedLen, this`stagedOff, parseAccum, stagedPayload
      ensures Valid() && used <= |polls|
      ensures PollFrom(old(Model()), len, polls, 0) ==
              if staged then Drain(Model(), len, used) else ReadResult(Model(), [], used)
    {
      hide Next, Drain, Payloads;
      staged, used := false, 0;
      ghost var rx := Model();
      while used < |polls|
        invariant Valid() && used <= |polls| && Model() == rx
        invariant PollFrom(old(Model()), len, polls, 0) == PollFrom(rx, len, polls, used)
      {
        var poll := polls[used];
        used := used + 1;
        if poll.Some? {
          TargetStep(rx.parser, poll.value);
          staged := FeedParser(poll.value);
          rx := Model();
          if staged {
            return;
          }
        }
      }
    }

    // htif_transport_read, for one run of the clock and the console.
    method ReadCall(buf: array<byte>, len: nat, polls: seq<Poll>) returns (out: nat, used: nat)
      requires Valid() && len <= buf.Length
      requires buf != parseAccum && buf != stagedPayload
      modifies this`parseState, this`parseLen, this`stagedLen, this`stagedOff, parseAccum, stagedPayload, buf
      ensures Valid()
      ensures var r := Read(old(Model()), len, polls);
              Model() == r.rx && used == r.used && out == |r.out| && buf[..out] == r.out
    {
      hide Next, PollFrom, Drain, Read, Payloads;
      ghost var rx := Model();
      ReadCases(rx, len, polls);
      used := 0;
      out := DrainStaged(buf, len);
      if out > 0 {
        return;
      }
      assert buf[..0] == [];
      var staged;
      staged, used := PollLoop(polls, len);
      if staged {
        DrainUsed(Model(), len, used);
        out := DrainStaged(buf, len);
      }
    }
  }

  // The two ways through a read.
  lemma ReadCases(rx: Receiver, len: nat, polls: seq<Poll>)
    ensures Read(rx, len, polls) ==
            if |Drain(rx, len, 0).out| > 0 then Drain(rx, len, 0) else PollFrom(rx, len, polls, 0)
    ensures |Drain(rx, len, 0).out| == 0 ==> Drain(rx, len, 0).rx == rx
    ensures Drain(rx, len, 0).used == 0
  {
    hide PollFrom;
  }

  lemma DrainUsed(rx: Receiver, len: nat, used: nat)
    ensures Drain(rx, len, used) == Drain(rx, len, 0).(used := used)
  {
  }

  lemma StuffedTrailer(p: seq<byte>, hi: byte, lo: byte)
    ensures StuffAll(p + [hi, lo]) == StuffAll(p) + Stuff(hi) + Stuff(lo)
  {
    hide Stuff;
    assert (p + [hi, lo])[..|p| + 1] == p + [hi];
    assert (p + [hi])[..|p|] == p;
  }

  lemma Regroup<T>(sent: seq<T>, f: seq<T>, body: seq<T>, hi: seq<T>, lo: seq<T>)
    ensures sent + f + body + hi + lo + f == sent + (f + (body + hi + lo) + f)
  {
  }

  // The pieces a sender emits after `sent`, in the order it emits them.
  lemma EncodeInSteps(sent: seq<byte>, p: seq<byte>)
    ensures sent + [FLAG] + StuffAll(p) + Stuff(HighOctet(Crc(p))) + Stuff(LowOctet(Crc(p))) + [FLAG]
            == sent + Encode(p)
  {
    hide Stuff, StuffAll, Crc, HighOctet, LowOctet;
    var hi, lo := HighOctet(Crc(p)), LowOctet(Crc(p));
    StuffedTrailer(p, hi, lo);
    Regroup(sent, [FLAG], StuffAll(p), Stuff(hi), Stuff(lo));
  }

  method CopyPrefix(src: array<byte>, dst: array<byte>, n: nat)
    requires n <= src.Length && n <= dst.Length && src != dst
    modifies dst
    ensures dst[..n] == src[..n]
  {
    for i := 0 to n
      invariant dst[..i] == src[..i]
    {
      dst[i] := src[i];
    }
  }
}
