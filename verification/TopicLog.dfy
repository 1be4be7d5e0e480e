// The topic log: the records the broker writes on the console, and the host-side decoder
// that separates them from console text.
module TopicLog {
  import opened Bytes
  import opened Crc16
  import opened HdlcFraming
  import HtifProxy
  import HtifTransport

  // ---- records ----------------------------------------------------------------------

  datatype Record = Record(name: seq<byte>, payload: seq<byte>)

  const MAX_NAME: nat := 255

  // The octets of a record between its flags, before the CRC: name length, name, payload.
  function Body(r: Record): (s: seq<byte>)
    requires |r.name| <= MAX_NAME
  {
    [Octet(|r.name|)] + r.name + r.payload
  }

  function RecordWire(r: Record): (s: seq<byte>)
    requires |r.name| <= MAX_NAME
  {
    Encode(Body(r))
  }

  // decode_frame, with the name left as octets.
  function DecodeFrame(frame: seq<byte>): (r: Option<Record>) {
    if |frame| < 1 then None
    else
      var n := frame[0] as nat;
      if 1 + n > |frame| then None
      else Some(Record(frame[1..1 + n], frame[1 + n..]))
  }

  // A record is read back as it was, and every frame that decodes is the body of its record.
  lemma BodyRoundTrip(r: Record)
    requires |r.name| <= MAX_NAME
    ensures DecodeFrame(Body(r)) == Some(r)
  {
    var n := |r.name|;
    assert Body(r)[1..1 + n] == r.name;
    assert Body(r)[1 + n..] == r.payload;
  }

  lemma DecodeRoundTrip(frame: seq<byte>)
    requires DecodeFrame(frame).Some?
    ensures |DecodeFrame(frame).value.name| <= MAX_NAME
    ensures Body(DecodeFrame(frame).value) == frame
  {
    var n := frame[0] as nat;
    assert frame == [frame[0]] + frame[1..1 + n] + frame[1 + n..];
    SameValue(Octet(n), frame[0]);
  }

  // ---- the shared console -----------------------------------------------------------

  // What happens on the console: text octets, or a whole record under the console's lock.
  datatype Output = Text(text: seq<byte>) | Topic(record: Record)

  predicate Legal(o: Output) {
    match o
    case Text(text) => FLAG !in text
    case Topic(r) => |r.name| <= MAX_NAME
  }

  function OutputWire(o: Output): (s: seq<byte>)
    requires Legal(o)
  {
    match o
    case Text(text) => text
    case Topic(r) => RecordWire(r)
  }

  function ConsoleWire(os: seq<Output>): (s: seq<byte>)
    requires forall o <- os :: Legal(o)
  {
    if os == [] then [] else ConsoleWire(os[..|os| - 1]) + OutputWire(os[|os| - 1])
  }

  // What the decoder should tell of it.
  function OutputEvents(o: Output): (e: seq<Event>)
    requires Legal(o)
  {
    match o
    case Text(text) => Consoles(text)
    case Topic(r) => [Frame(Body(r))]
  }

  function ConsoleEvents(os: seq<Output>): (e: seq<Event>)
    requires forall o <- os :: Legal(o)
  {
    if os == [] then [] else ConsoleEvents(os[..|os| - 1]) + OutputEvents(os[|os| - 1])
  }

  // After a good frame the decoder is outside again, so text that follows is not swallowed.
  lemma RecordLeavesOutside(payload: seq<byte>)
    requires payload != []
    ensures Run(LogDecoder, Out, Encode(payload)) == Trace(Out, [Frame(payload)])
  {
    hide Crc, Run;
    var raw := WithCrc(payload);
    EncodeParts(LogDecoder, Out, payload);
    RunAppend(LogDecoder, In([]), StuffAll(raw), [FLAG]);
    Unstuff(LogDecoder, [], raw);
    assert [] + raw == raw;
    RunOne(LogDecoder, In(raw), FLAG);
    WithCrcAccepted(payload);
  }

  // Any mixture of records and text free of flags is separated exactly: the text octets as
  // text, the records as frames, all in order.
  lemma {:induction false} ConsoleSeparated(os: seq<Output>)
    requires forall o <- os :: Legal(o)
    ensures Run(LogDecoder, Out, ConsoleWire(os)) == Trace(Out, ConsoleEvents(os))
  {
    hide Next, Run, Encode, Crc, Consoles;
    if os == [] {
      RunEmpty(LogDecoder, Out);
    } else {
      var front, last := os[..|os| - 1], os[|os| - 1];
      ConsoleSeparated(front);
      RunAppend(LogDecoder, Out, ConsoleWire(front), OutputWire(last));
      match last
      case Text(text) => TextOutside(LogDecoder, text);
      case Topic(r) => RecordLeavesOutside(Body(r));
    }
  }

  // The records among some events, as the decoder prints them.
  function Records(events: seq<Event>): (r: seq<Record>) {
    if events == [] then []
    else
      var e := events[|events| - 1];
      Records(events[..|events| - 1]) +
      (if e.Frame? && DecodeFrame(e.payload).Some? then [DecodeFrame(e.payload).value] else [])
  }

  // The text among some events.
  function TextOf(events: seq<Event>): (r: seq<byte>) {
    if events == [] then []
    else
      var e := events[|events| - 1];
      TextOf(events[..|events| - 1]) + (if e.Console? then [e.b] else [])
  }

  lemma RecordsAppend(a: seq<Event>, b: seq<Event>)
    ensures Records(a + b) == Records(a) + Records(b)
    ensures TextOf(a + b) == TextOf(a) + TextOf(b)
  {
    hide DecodeFrame;
    if b == [] {
      assert a + b == a;
    } else {
      assert (a + b)[..|a + b| - 1] == a + b[..|b| - 1];
      RecordsAppend(a, b[..|b| - 1]);
    }
  }

  lemma {:induction false} ConsolesAreText(s: seq<byte>)
    ensures Records(Consoles(s)) == [] && TextOf(Consoles(s)) == s
  {
    if s != [] {
      var front, b := s[..|s| - 1], s[|s| - 1];
      assert front + [b] == s;
      ConsolesNext(front, b);
      hide Consoles, Records, TextOf;
      ConsolesAreText(front);
      RecordsAppend(Consoles(front), [Console(b)]);
      OneConsole(b);
    }
  }

  lemma NoConsoles()
    ensures Consoles([]) == []
  {
  }

  lemma ConsolesNext(s: seq<byte>, b: byte)
    ensures Consoles(s + [b]) == Consoles(s) + [Console(b)]
  {
    assert (s + [b])[..|s|] == s;
  }

  lemma OneConsole(b: byte)
    ensures Records([Console(b)]) == [] && TextOf([Console(b)]) == [b]
  {
    assert [Console(b)][..0] == [];
  }

  function SentRecords(os: seq<Output>): (r: seq<Record>) {
    if os == [] then []
    else SentRecords(os[..|os| - 1]) + (if os[|os| - 1].Topic? then [os[|os| - 1].record] else [])
  }

  function SentText(os: seq<Output>): (r: seq<byte>) {
    if os == [] then []
    else SentText(os[..|os| - 1]) + (if os[|os| - 1].Text? then os[|os| - 1].text else [])
  }

  lemma OneOutput(o: Output)
    requires Legal(o)
    ensures Records(OutputEvents(o)) == (if o.Topic? then [o.record] else [])
    ensures TextOf(OutputEvents(o)) == (if o.Text? then o.text else [])
  {
    hide DecodeFrame, Body;
    match o
    case Text(text) => ConsolesAreText(text);
    case Topic(r) =>
      BodyRoundTrip(r);
      assert OutputEvents(o)[..0] == [];
  }

  // End to end: the decoder recovers the (name, payload) pairs and the console text.
  lemma {:induction false} LogRecovered(os: seq<Output>)
    requires forall o <- os :: Legal(o)
    ensures var events := Run(LogDecoder, Out, ConsoleWire(os)).events;
            Records(events) == SentRecords(os) && TextOf(events) == SentText(os)
  {
    hide Run, OutputEvents, OutputWire;
    ConsoleSeparated(os);
    if os == [] {
    } else {
      var front, last := os[..|os| - 1], os[|os| - 1];
      LogRecovered(front);
      ConsoleSeparated(front);
      RecordsAppend(ConsoleEvents(front), OutputEvents(last));
      OneOutput(last);
    }
  }

  // ---- the emitter ------------------------------------------------------------------

  class Emitter {
    var quiet: bool
    var deviceReady: bool
    // Octets given to the console, oldest first.
    var console: seq<byte>

    constructor (deviceReady: bool)
      ensures this.deviceReady == deviceReady && !quiet && console == []
    {
      this.deviceReady, quiet, console := deviceReady, false, [];
    }

    // htif_emit_crc_byte: one octet, stuffed, outside the CRC.
    method EmitStuffed(b: byte)
      modifies this`console
      ensures console == old(console) + Stuff(b)
    {
      if b == FLAG || b == ESC {
        console := console + [ESC];
        console := console + [b ^ ESC_XOR];
      } else {
        console := console + [b];
      }
    }

    // htif_emit_escaped: one octet, stuffed, and the register advanced by it.
    method EmitEscaped(b: byte, crc: bv16) returns (crc': bv16)
      modifies this`console
      ensures console == old(console) + Stuff(b) && crc' == Step(crc, b)
    {
      crc' := UpdateCrc(crc, b);
      EmitStuffed(b);
    }

    // A run of octets through htif_emit_escaped.
    method EmitAll(s: seq<byte>, ghost done: seq<byte>, crc: bv16) returns (crc': bv16)
      requires crc == Crc(done)
      modifies this`console
      ensures console == old(console) + StuffAll(s) && crc' == Crc(done + s)
    {
      hide Step, Stuff;
      crc' := crc;
      assert done + s[..0] == done;
      for i := 0 to |s|
        invariant console == old(console) + StuffAll(s[..i]) && crc' == Crc(done + s[..i])
      {
        assert s[..i + 1][..i] == s[..i];
        assert (done + s[..i + 1])[..|done| + i] == done + s[..i];
        crc' := EmitEscaped(s[i], crc');
      }
      assert s[..|s|] == s;
    }

    // log_topic_emit. The topic name is a C string: its length counts no terminator.
    method LogTopicEmit(name: seq<byte>, payload: seq<byte>)
      modifies this`console
      ensures console == old(console) +
              (if quiet || !deviceReady || |name| > MAX_NAME then [] else RecordWire(Record(name, payload)))
    {
      hide Step, Stuff, StuffAll, Crc, Encode;
      if quiet || !deviceReady || |name| > MAX_NAME {
        return;
      }
      ghost var head := [Octet(|name|)];
      console := console + [FLAG];
      InitialRegister();
      var crc := EmitAll([Octet(|name|)], [], INIT);
      assert [] + head == head;
      crc := EmitAll(name, head, crc);
      crc := EmitAll(payload, head + name, crc);
      EmitStuffed(HighOctet(crc));
      EmitStuffed(LowOctet(crc));
      console := console + [FLAG];
      StuffedBody(head, name, payload);
      FiveParts(old(console), [FLAG], StuffAll(head), StuffAll(name), StuffAll(payload));
      HtifTransport.EncodeInSteps(old(console), head + name + payload);
    }
  }

  lemma InitialRegister()
    ensures Crc([]) == INIT
  {
  }

  lemma StuffedBody(head: seq<byte>, name: seq<byte>, payload: seq<byte>)
    ensures StuffAll(head + name + payload) == StuffAll(head) + StuffAll(name) + StuffAll(payload)
  {
    StuffAllAppend(head + name, payload);
    StuffAllAppend(head, name);
  }

  lemma FiveParts<T>(sent: seq<T>, f: seq<T>, a: seq<T>, b: seq<T>, c: seq<T>)
    ensures sent + f + a + b + c == sent + f + (a + b + c)
  {
  }

  // ---- the decoder's parser ---------------------------------------------------------

  class HdlcParser {
    var state: ParserState
    var buf: seq<byte>

    ghost function Model(): (st: State)
      reads this
    {
      match state
      case OutOfFrame => Out
      case InFrame => In(buf)
      case InFrameEsc => Esc(buf)
    }

    constructor ()
      ensures Model() == Out
    {
      state, buf := OutOfFrame, [];
    }

    method Feed(b: byte) returns (events: seq<Event>)
      modifies this
      ensures Next(LogDecoder, old(Model()), b) == Trace(Model(), events)
    {
      hide Crc, Word, Consoles;
      events := [];
      match state
      case OutOfFrame =>
        if b == FLAG {
          buf, state := [], InFrame;
        } else {
          events := [Console(b)];
        }
      case InFrame =>
        if b == FLAG {
          var emitted := false;
          if |buf| >= 3 {
            var n := |buf| - 2;
            var payload, trailer := buf[..n], buf[n..];
            var crc := HtifProxy.Crc16OfBytes(payload);
            if Word(trailer[0], trailer[1]) == crc {
              events, emitted := [Frame(payload)], true;
            } else {
              events := [Console(FLAG)];
              NoConsoles();
              var text := buf;
              for i := 0 to |text|
                invariant buf == text && events == [Console(FLAG)] + Consoles(text[..i])
              {
                assert text[..i + 1] == text[..i] + [text[i]];
                ConsolesNext(text[..i], text[i]);
                events := events + [Console(text[i])];
              }
              assert text[..|text|] == text;
              events := events + [Console(FLAG)];
            }
          }
          buf, state := [], if emitted then OutOfFrame else InFrame;
        } else if b == ESC {
          state := InFrameEsc;
        } else {
          buf := buf + [b];
        }
      case InFrameEsc =>
        buf, state := buf + [b ^ ESC_XOR], InFrame;
    }
  }
}
