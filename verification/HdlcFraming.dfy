// The frame format on the shared console, and what each of its three parsers does with one
// octet. The format takes the octet stuffing of section 4.2 of RFC 1662 and a different CRC.
module HdlcFraming {
  import opened Bytes
  import opened Crc16

  const FLAG: byte := 0x7E
  const ESC: byte := 0x7D
  const ESC_XOR: byte := 0x20

  const MAX_PAYLOAD: nat := 1024
  const CAPACITY: nat := MAX_PAYLOAD + 2

  // ---- sending ----------------------------------------------------------------------

  function Stuff(b: byte): (r: seq<byte>) {
    if b == FLAG || b == ESC then [ESC, b ^ ESC_XOR] else [b]
  }

  function StuffAll(s: seq<byte>): (r: seq<byte>) {
    if s == [] then [] else StuffAll(s[..|s| - 1]) + Stuff(s[|s| - 1])
  }

  function Encode(payload: seq<byte>): (r: seq<byte>) {
    [FLAG] + StuffAll(WithCrc(payload)) + [FLAG]
  }

  function EncodeAll(payloads: seq<seq<byte>>): (r: seq<byte>) {
    if payloads == [] then [] else Encode(payloads[0]) + EncodeAll(payloads[1..])
  }

  lemma StuffAllAppend(s: seq<byte>, t: seq<byte>)
    ensures StuffAll(s + t) == StuffAll(s) + StuffAll(t)
  {
    if t == [] {
      assert s + t == s;
    } else {
      assert (s + t)[..|s + t| - 1] == s + t[..|t| - 1];
      StuffAllAppend(s, t[..|t| - 1]);
    }
  }

  // ---- receiving --------------------------------------------------------------------

  // The parser on the target (bounded buffer, text outside frames dropped), the one in the
  // host proxy, and the one in the log decoder.
  datatype Variant = Target | Proxy | LogDecoder

  datatype State = Out | In(buf: seq<byte>) | Esc(buf: seq<byte>)

  // The same states without the buffer, as the sources name them.
  datatype ParserState = OutOfFrame | InFrame | InFrameEsc

  datatype Event = Console(b: byte) | Frame(payload: seq<byte>)

  datatype Trace = Trace(state: State, events: seq<Event>)

  function Consoles(s: seq<byte>): (r: seq<Event>) {
    if s == [] then [] else Consoles(s[..|s| - 1]) + [Console(s[|s| - 1])]
  }

  predicate Fits(v: Variant, n: nat) { v == Target ==> n <= CAPACITY }

  // A buffer between two flags is a frame when it has a payload and its trailer is right.
  predicate Accepted(buf: seq<byte>) {
    |buf| >= 3 && Word(buf[|buf| - 2], buf[|buf| - 1]) == Crc(buf[..|buf| - 2])
  }

  function Append(v: Variant, buf: seq<byte>, b: byte): (r: Trace) {
    if Fits(v, |buf| + 1) then Trace(In(buf + [b]), []) else Trace(Out, [])
  }

  function Close(v: Variant, buf: seq<byte>): (r: Trace) {
    if Accepted(buf) then
      Trace(if v == LogDecoder then Out else In([]), [Frame(buf[..|buf| - 2])])
    else if v == LogDecoder && |buf| >= 3 then
      Trace(In([]), [Console(FLAG)] + Consoles(buf) + [Console(FLAG)])
    else
      Trace(In([]), [])
  }

  function Next(v: Variant, st: State, b: byte): (r: Trace) {
    match st
    case Out =>
      if b == FLAG then Trace(In([]), [])
      else Trace(Out, if v == Target then [] else [Console(b)])
    case In(buf) =>
      if b == FLAG then Close(v, buf)
      else if b == ESC then Trace(Esc(buf), [])
      else Append(v, buf, b)
    case Esc(buf) =>
      Append(v, buf, b ^ ESC_XOR)
  }

  function Run(v: Variant, st: State, s: seq<byte>): (r: Trace) {
    if s == [] then Trace(st, [])
    else
      var before := Run(v, st, s[..|s| - 1]);
      var step := Next(v, before.state, s[|s| - 1]);
      Trace(step.state, before.events + step.events)
  }

  // Every state a parser can be in: the target's buffer never outgrows its array.
  predicate Reachable(v: Variant, st: State) {
    st.Out? || Fits(v, |st.buf|)
  }

  function Then(a: Trace, b: Trace): (r: Trace) {
    Trace(b.state, a.events + b.events)
  }

  lemma RunEmpty(v: Variant, st: State)
    ensures Run(v, st, []) == Trace(st, [])
  {
  }

  lemma RunSnoc(v: Variant, st: State, s: seq<byte>, b: byte)
    ensures Run(v, st, s + [b]) == Then(Run(v, st, s), Next(v, Run(v, st, s).state, b))
  {
    assert (s + [b])[..|s|] == s;
  }

  lemma {:induction false} RunAppend(v: Variant, st: State, s: seq<byte>, t: seq<byte>)
    ensures Run(v, st, s + t) == Then(Run(v, st, s), Run(v, Run(v, st, s).state, t))
  {
    hide Next, Run;
    if t == [] {
      RunEmpty(v, st);
      RunEmpty(v, Run(v, st, s).state);
      assert s + t == s;
    } else {
      var t', b := t[..|t| - 1], t[|t| - 1];
      var st' := Run(v, st, s).state;
      RunAppend(v, st, s, t');
      assert t' + [b] == t;
      assert s + t == (s + t') + [b];
      RunSnoc(v, st, s + t', b);
      RunSnoc(v, st', t', b);
      var last := Next(v, Run(v, st', t').state, b).events;
      assert Run(v, st, s).events + (Run(v, st', t').events + last)
          == (Run(v, st, s).events + Run(v, st', t').events) + last;
    }
  }

  lemma RunOne(v: Variant, st: State, b: byte)
    ensures Run(v, st, [b]) == Next(v, st, b)
  {
    assert [b][..0] == [];
    assert Run(v, st, []) == Trace(st, []);
  }

  lemma {:induction false} RunReachable(v: Variant, st: State, s: seq<byte>)
    requires Reachable(v, st)
    ensures Reachable(v, Run(v, st, s).state)
  {
    if s != [] {
      RunReachable(v, st, s[..|s| - 1]);
    }
  }

  // A buffer of any length is taken as a frame exactly when it has residue zero.
  lemma AcceptedIffResidue(buf: seq<byte>)
    ensures Accepted(buf) <==> |buf| >= 3 && Crc(buf) == 0
  {
    if |buf| >= 3 {
      var n := |buf| - 2;
      assert buf == buf[..n] + [buf[n], buf[n + 1]];
      ResidueZeroIff(buf[..n], buf[n], buf[n + 1]);
    }
  }

  // ---- one frame --------------------------------------------------------------------

  lemma StuffHasNoFlag(b: byte)
    ensures FLAG !in Stuff(b)
  {
    assert FLAG ^ ESC_XOR == 0x5E;
    assert ESC ^ ESC_XOR == 0x5D;
  }

  lemma StuffAllHasNoFlag(s: seq<byte>)
    ensures FLAG !in StuffAll(s)
  {
    if s != [] {
      StuffAllHasNoFlag(s[..|s| - 1]);
      StuffHasNoFlag(s[|s| - 1]);
    }
  }

  lemma UnstuffOne(v: Variant, buf: seq<byte>, b: byte)
    ensures Run(v, In(buf), Stuff(b)) == Append(v, buf, b)
  {
    if b == FLAG || b == ESC {
      var x := b ^ ESC_XOR;
      assert x ^ ESC_XOR == b;
      assert [ESC, x] == [ESC] + [x];
      RunAppend(v, In(buf), [ESC], [x]);
      RunOne(v, In(buf), ESC);
      RunOne(v, Esc(buf), x);
    } else {
      RunOne(v, In(buf), b);
    }
  }

  // Outside a frame, octets other than the flag are text.
  lemma {:induction false} TextOutside(v: Variant, s: seq<byte>)
    requires FLAG !in s
    ensures Run(v, Out, s) == Trace(Out, if v == Target then [] else Consoles(s))
  {
    if s != [] {
      TextOutside(v, s[..|s| - 1]);
    }
  }

  // Inside a frame, stuffed octets are read back as they were, unless they overflow.
  lemma {:induction false} Unstuff(v: Variant, buf: seq<byte>, s: seq<byte>)
    requires Fits(v, |buf|)
    ensures Run(v, In(buf), StuffAll(s)) ==
            Trace(if Fits(v, |buf| + |s|) then In(buf + s) else Out, [])
  {
    hide Next, Stuff;
    if s == [] {
      assert buf + s == buf;
    } else {
      var t, b := s[..|s| - 1], s[|s| - 1];
      Unstuff(v, buf, t);
      RunAppend(v, In(buf), StuffAll(t), Stuff(b));
      if Fits(v, |buf| + |t|) {
        UnstuffOne(v, buf + t, b);
        assert buf + t + [b] == buf + s;
      } else {
        StuffHasNoFlag(b);
        TextOutside(v, Stuff(b));
      }
    }
  }

  // The payloads a parser can hand over: not empty, and for the target not oversized.
  predicate Deliverable(v: Variant, payload: seq<byte>) {
    payload != [] && (v == Target ==> |payload| <= MAX_PAYLOAD)
  }

  // The states in which a new frame is read from its first octet.
  predicate Synced(st: State) { st == Out || st == In([]) }

  function Delivered(v: Variant, payload: seq<byte>): (r: seq<Event>) {
    if Deliverable(v, payload) then [Frame(payload)] else []
  }

  lemma WithCrcAccepted(payload: seq<byte>)
    ensures Accepted(WithCrc(payload)) <==> payload != []
    ensures WithCrc(payload)[..|payload|] == payload
    ensures |WithCrc(payload)| == |payload| + 2
  {
    WithCrcResidue(payload);
    AcceptedIffResidue(WithCrc(payload));
  }

  // The closing flag of a frame whose body was read whole.
  lemma CloseWhole(v: Variant, payload: seq<byte>)
    requires v == Target ==> |payload| <= MAX_PAYLOAD
    ensures Close(v, WithCrc(payload)).events == Delivered(v, payload)
    ensures Synced(Close(v, WithCrc(payload)).state)
    ensures payload != [] ==> Close(v, WithCrc(payload)).state == if v == LogDecoder then Out else In([])
  {
    WithCrcAccepted(payload);
  }

  // After an opening flag the frame is delivered, whole and once, if it is deliverable.
  lemma BodyDelivers(v: Variant, payload: seq<byte>)
    ensures var r := Run(v, In([]), StuffAll(WithCrc(payload)) + [FLAG]);
            && r.events == Delivered(v, payload) && Synced(r.state)
            && (Deliverable(v, payload) ==> r.state == if v == LogDecoder then Out else In([]))
  {
    var raw := WithCrc(payload);
    WithCrcAccepted(payload);
    RunAppend(v, In([]), StuffAll(raw), [FLAG]);
    Unstuff(v, [], raw);
    assert [] + raw == raw;
    RunOne(v, Run(v, In([]), StuffAll(raw)).state, FLAG);
    if Fits(v, |raw|) {
      CloseWhole(v, payload);
    }
  }

  lemma EncodeParts(v: Variant, st: State, payload: seq<byte>)
    ensures Run(v, st, Encode(payload)) ==
            Then(Next(v, st, FLAG), Run(v, Next(v, st, FLAG).state, StuffAll(WithCrc(payload)) + [FLAG]))
  {
    assert Encode(payload) == [FLAG] + (StuffAll(WithCrc(payload)) + [FLAG]);
    RunAppend(v, st, [FLAG], StuffAll(WithCrc(payload)) + [FLAG]);
    RunOne(v, st, FLAG);
  }

  lemma FrameFromSynced(v: Variant, st: State, payload: seq<byte>)
    requires Synced(st)
    ensures Run(v, st, Encode(payload)).events == Delivered(v, payload)
    ensures Synced(Run(v, st, Encode(payload)).state)
  {
    EncodeParts(v, st, payload);
    assert Next(v, st, FLAG) == Trace(In([]), []);
    BodyDelivers(v, payload);
  }

  // What the receiver reads back is what was sent, so no two payloads share an encoding.
  lemma EncodeInjective(p: seq<byte>, q: seq<byte>)
    requires Encode(p) == Encode(q)
    ensures p == q
  {
    FrameFromSynced(Proxy, Out, p);
    FrameFromSynced(Proxy, Out, q);
  }

  // ---- resynchronisation ------------------------------------------------------------

  // Whatever a parser was doing, the end of any encoded frame leaves it synchronised.
  lemma AnyFrameSyncs(v: Variant, st: State, payload: seq<byte>)
    requires Reachable(v, st)
    ensures Synced(Run(v, st, Encode(payload)).state)
  {
    hide Crc, Stuff, Run, StuffAll, WithCrc, Encode;
    var raw := WithCrc(payload);
    var st1 := Next(v, st, FLAG).state;
    EncodeParts(v, st, payload);
    RunAppend(v, st1, StuffAll(raw), [FLAG]);
    var st2 := Run(v, st1, StuffAll(raw)).state;
    RunOne(v, st2, FLAG);
    if st1.Out? {
      StuffAllHasNoFlag(raw);
      TextOutside(v, StuffAll(raw));
    } else {
      Unstuff(v, st1.buf, raw);
    }
    assert !st2.Esc?;
  }

  function DeliveredAll(v: Variant, payloads: seq<seq<byte>>): (r: seq<Event>) {
    if payloads == [] then [] else Delivered(v, payloads[0]) + DeliveredAll(v, payloads[1..])
  }

  lemma {:induction false} FramesFromSynced(v: Variant, st: State, payloads: seq<seq<byte>>)
    requires Synced(st)
    ensures Run(v, st, EncodeAll(payloads)).events == DeliveredAll(v, payloads)
    ensures Synced(Run(v, st, EncodeAll(payloads)).state)
    decreases |payloads|
  {
    if payloads != [] {
      FrameFromSynced(v, st, payloads[0]);
      RunAppend(v, st, Encode(payloads[0]), EncodeAll(payloads[1..]));
      FramesFromSynced(v, Run(v, st, Encode(payloads[0])).state, payloads[1..]);
    }
  }

  // Whether the opening flag of a frame is read as one: it is not right after an escape, and
  // the log decoder takes it to close a buffer that happens to be a frame.
  predicate OpensFrame(v: Variant, st: State) {
    !st.Esc? && !(v == LogDecoder && st.In? && Accepted(st.buf))
  }

  // What a parser makes of the frame after its opening flag.
  function AfterFlag(v: Variant, st: State, payload: seq<byte>): (r: Trace) {
    Run(v, Next(v, st, FLAG).state, StuffAll(WithCrc(payload)) + [FLAG])
  }

  // The first frame after anything is delivered, and then as the only event after its opening
  // flag, exactly when that flag opens a frame; from every reachable state of every parser.
  lemma FirstFrameKeptIff(v: Variant, st: State, payload: seq<byte>)
    requires Reachable(v, st) && Deliverable(v, payload)
    ensures Run(v, st, Encode(payload)).events == Next(v, st, FLAG).events + AfterFlag(v, st, payload).events
    ensures Frame(payload) in AfterFlag(v, st, payload).events <==> OpensFrame(v, st)
    ensures AfterFlag(v, st, payload).events == [Frame(payload)] <==> OpensFrame(v, st)
  {
    EncodeParts(v, st, payload);
    if OpensFrame(v, st) {
      hide Run, Stuff, StuffAll, WithCrc, Accepted;
      BodyDelivers(v, payload);
    } else if st.Esc? {
      EscapedFlagLoses(v, st.buf, payload);
    } else {
      hide Run, Stuff, StuffAll, WithCrc, Accepted;
      SharedFlagLoses(payload);
    }
  }

  // Read right after an escape, the flag is an octet of the old frame; a longer frame may
  // come out, never this one.
  lemma EscapedFlagLoses(v: Variant, buf: seq<byte>, payload: seq<byte>)
    requires Fits(v, |buf|)
    ensures Frame(payload) !in AfterFlag(v, Esc(buf), payload).events
  {
    var x, raw := FLAG ^ ESC_XOR, WithCrc(payload);
    var st := Next(v, Esc(buf), FLAG).state;
    WithCrcAccepted(payload);
    hide Run, Stuff, StuffAll, WithCrc, Crc, Accepted;
    RunAppend(v, st, StuffAll(raw), [FLAG]);
    RunOne(v, Run(v, st, StuffAll(raw)).state, FLAG);
    if Fits(v, |buf| + 1) {
      Unstuff(v, buf + [x], raw);
      if Fits(v, |buf| + 1 + |raw|) {
        LongerClose(v, buf + [x] + raw, payload);
      }
    } else {
      StuffAllHasNoFlag(raw);
      TextOutside(v, StuffAll(raw));
      ConsolesOnly(StuffAll(raw));
    }
  }

  lemma LongerClose(v: Variant, buf: seq<byte>, payload: seq<byte>)
    requires |buf| > |payload| + 2
    ensures Frame(payload) !in Close(v, buf).events
  {
    hide Accepted;
    ConsolesOnly(buf);
  }

  // Taken for the closing flag of a frame, it leaves the log decoder outside: the octets that
  // follow are text.
  lemma SharedFlagLoses(payload: seq<byte>)
    ensures Run(LogDecoder, Out, StuffAll(WithCrc(payload)) + [FLAG]) ==
            Trace(In([]), Consoles(StuffAll(WithCrc(payload))))
    ensures Frame(payload) !in Consoles(StuffAll(WithCrc(payload)))
  {
    var body := StuffAll(WithCrc(payload));
    StuffAllHasNoFlag(WithCrc(payload));
    TextOutside(LogDecoder, body);
    ConsolesOnly(body);
    hide Run, Consoles;
    RunAppend(LogDecoder, Out, body, [FLAG]);
    RunOne(LogDecoder, Out, FLAG);
  }

  // Both ways to lose it happen. An escape before the flag costs the target a frame of full
  // size without trace.
  lemma FirstFrameCanBeLost(payload: seq<byte>)
    requires |payload| == MAX_PAYLOAD
    ensures Deliverable(Target, payload)
    ensures Run(Target, Out, [FLAG, ESC]).state == Esc([])
    ensures Run(Target, Esc([]), Encode(payload)).events == []
  {
    RunOne(Target, Out, FLAG);
    RunSnoc(Target, Out, [FLAG], ESC);
    assert [FLAG] + [ESC] == [FLAG, ESC];
    hide Run;
    EncodeParts(Target, Esc([]), payload);
    var raw := WithCrc(payload);
    var x := FLAG ^ ESC_XOR;
    RunAppend(Target, In([x]), StuffAll(raw), [FLAG]);
    Unstuff(Target, [x], raw);
    RunOne(Target, Out, FLAG);
    assert [] + [x] == [x];
  }

  // And a frame that lacks its own closing flag costs the log decoder the whole next frame,
  // which the two other parsers deliver.
  lemma FrameAfterUnclosedLost(first: seq<byte>, payload: seq<byte>)
    requires Deliverable(Target, first) && Deliverable(Target, payload)
    ensures var open := [FLAG] + StuffAll(WithCrc(first));
            && Run(LogDecoder, Out, open + Encode(payload)).events
               == [Frame(first)] + Consoles(StuffAll(WithCrc(payload)))
            && Run(Target, Out, open + Encode(payload)).events == [Frame(first), Frame(payload)]
            && Run(Proxy, Out, open + Encode(payload)).events == [Frame(first), Frame(payload)]
  {
    AfterUnclosed(LogDecoder, first, payload);
    AfterUnclosed(Target, first, payload);
    AfterUnclosed(Proxy, first, payload);
    SharedFlagLoses(payload);
    BodyDelivers(Target, payload);
    BodyDelivers(Proxy, payload);
  }

  lemma AfterUnclosed(v: Variant, first: seq<byte>, payload: seq<byte>)
    requires Deliverable(v, first)
    ensures var open := [FLAG] + StuffAll(WithCrc(first));
            Run(v, Out, open + Encode(payload)).events ==
            [Frame(first)] + Run(v, if v == LogDecoder then Out else In([]), StuffAll(WithCrc(payload)) + [FLAG]).events
  {
    var raw := WithCrc(first);
    var open := [FLAG] + StuffAll(raw);
    WithCrcAccepted(first);
    hide Run, Stuff, StuffAll, WithCrc, Accepted, Encode;
    RunAppend(v, Out, open, Encode(payload));
    RunAppend(v, Out, [FLAG], StuffAll(raw));
    RunOne(v, Out, FLAG);
    Unstuff(v, [], raw);
    assert [] + raw == raw;
    EncodeParts(v, In(raw), payload);
  }

  // After any garbage from any state, one frame may be lost, and is not when its flag opens
  // it; of the frames that follow, every deliverable one is handed over, in order, and
  // nothing else is.
  lemma ResyncAfterOneFrame(v: Variant, st: State, garbage: seq<byte>,
                            first: seq<byte>, rest: seq<seq<byte>>)
    requires Reachable(v, st)
    ensures var all := Run(v, st, garbage + Encode(first) + EncodeAll(rest));
            && all.events == Run(v, st, garbage + Encode(first)).events + DeliveredAll(v, rest)
            && Synced(all.state)
    ensures var before := Run(v, st, garbage);
            Run(v, st, garbage + Encode(first)).events ==
            before.events + (Next(v, before.state, FLAG).events + AfterFlag(v, before.state, first).events)
    ensures Deliverable(v, first) ==>
              var mid := Run(v, st, garbage).state;
              (AfterFlag(v, mid, first).events == [Frame(first)] <==> OpensFrame(v, mid))
  {
    var mid := Run(v, st, garbage).state;
    hide Run, Encode, EncodeAll, DeliveredAll, Synced, OpensFrame, Deliverable;
    RunAppend(v, st, garbage, Encode(first));
    RunReachable(v, st, garbage);
    EncodeParts(v, mid, first);
    AnyFrameSyncs(v, mid, first);
    RunAppend(v, st, garbage + Encode(first), EncodeAll(rest));
    FramesFromSynced(v, Run(v, st, garbage + Encode(first)).state, rest);
    if Deliverable(v, first) {
      FirstFrameKeptIff(v, mid, first);
    }
  }

  // A corrupted frame body that differs from a valid one only in two consecutive octets is
  // refused by every parser.
  lemma BurstRefused(v: Variant, pre: seq<byte>, a: byte, b: byte, a': byte, b': byte, post: seq<byte>)
    requires Accepted(pre + [a, b] + post)
    requires a != a' || b != b'
    ensures forall e <- Close(v, pre + [a', b'] + post).events :: e.Console?
  {
    AcceptedIffResidue(pre + [a, b] + post);
    AcceptedIffResidue(pre + [a', b'] + post);
    BurstDetected(pre, a, b, a', b', post);
    ConsolesOnly(pre + [a', b'] + post);
  }

  // So is one that differs by a single burst of at most sixteen bits, wherever it starts.
  lemma ShortBurstRefused(v: Variant, pre: seq<byte>, a: byte, b: byte, d: byte,
                          a': byte, b': byte, d': byte, post: seq<byte>)
    requires Accepted(pre + [a, b, d] + post)
    requires ShortBurst(a ^ a', b ^ b', d ^ d') && (a != a' || b != b' || d != d')
    ensures forall e <- Close(v, pre + [a', b', d'] + post).events :: e.Console?
  {
    hide ShortBurst;
    AcceptedIffResidue(pre + [a, b, d] + post);
    AcceptedIffResidue(pre + [a', b', d'] + post);
    ShortBurstDetected(pre, a, b, d, a', b', d', post);
    ConsolesOnly(pre + [a', b', d'] + post);
  }

  lemma ConsolesOnly(s: seq<byte>)
    ensures forall e <- Consoles(s) :: e.Console?
  {
  }
}
