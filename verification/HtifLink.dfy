// The link as a whole: heartbeats and framed chunks written to the target's input under one
// lock, read back by the target.
module HtifLink {
  import opened Bytes
  import opened Crc16
  import opened HdlcFraming
  import opened HtifTransport

  // What one turn of a host thread writes while it holds the lock.
  datatype Item = Heartbeat | Chunk(data: seq<byte>)

  function Wire(item: Item): (r: seq<byte>) {
    match item
    case Heartbeat => [0]
    case Chunk(data) => Encode(data)
  }

  function WireAll(items: seq<Item>): (r: seq<byte>) {
    if items == [] then [] else WireAll(items[..|items| - 1]) + Wire(items[|items| - 1])
  }

  // The chunks a target can take, one after the other.
  function Content(item: Item): (r: seq<byte>) {
    match item
    case Heartbeat => []
    case Chunk(data) => if Deliverable(Target, data) then data else []
  }

  function ContentAll(items: seq<Item>): (r: seq<byte>) {
    if items == [] then [] else ContentAll(items[..|items| - 1]) + Content(items[|items| - 1])
  }

  // Everything that was sent, chunks the target has no room for included.
  function SentAll(items: seq<Item>): (r: seq<byte>) {
    if items == [] then []
    else SentAll(items[..|items| - 1]) + if items[|items| - 1].Chunk? then items[|items| - 1].data else []
  }

  predicate Small(item: Item) { item.Chunk? ==> |item.data| <= MAX_PAYLOAD }

  ghost predicate AllSmall(items: seq<Item>) { forall item <- items :: Small(item) }

  // The target can take everything that is sent exactly when no chunk exceeds its buffer.
  lemma {:induction false} ContentIsAllIff(items: seq<Item>)
    ensures |ContentAll(items)| <= |SentAll(items)|
    ensures AllSmall(items) ==> ContentAll(items) == SentAll(items)
    ensures !AllSmall(items) ==> |ContentAll(items)| < |SentAll(items)|
  {
    if items != [] {
      var front, last := items[..|items| - 1], items[|items| - 1];
      ContentIsAllIff(front);
      assert items == front + [last];
      assert AllSmall(items) <==> AllSmall(front) && Small(last);
    }
  }

  // ---- heartbeats are never a frame -------------------------------------------------

  lemma ZerosNotAccepted(n: nat)
    ensures !Accepted(Zeros(n))
  {
    AcceptedIffResidue(Zeros(n));
    ZerosKeepRegister(INIT, n);
  }

  // Between items the target is outside a frame or holds a run of heartbeats only.
  ghost predicate Resting(st: State) {
    st == Out || (st.In? && |st.buf| <= CAPACITY && st.buf == Zeros(|st.buf|))
  }

  lemma HeartbeatRests(st: State)
    requires Resting(st)
    ensures Resting(Run(Target, st, Wire(Heartbeat)).state)
    ensures Run(Target, st, Wire(Heartbeat)).events == []
  {
    hide Crc;
    RunOne(Target, st, 0);
    if st.In? && |st.buf| < CAPACITY {
      assert Zeros(|st.buf| + 1) == st.buf + [0];
    }
  }

  // A heartbeat is discarded, as its sender means it to be, exactly outside a frame.
  lemma HeartbeatDiscardedIff(v: Variant, st: State)
    ensures Run(v, st, Wire(Heartbeat)).state == st <==> st.Out?
  {
    RunOne(v, st, 0);
  }

  // After a first frame the target is inside one: there heartbeats gather in its buffer until
  // it is full, and only then are they outside.
  lemma {:induction false} HeartbeatsGather(n: nat)
    ensures Run(Target, In([]), Zeros(n)) == Trace(if n <= CAPACITY then In(Zeros(n)) else Out, [])
  {
    hide Crc, Run;
    if n == 0 {
      RunEmpty(Target, In([]));
    } else {
      HeartbeatsGather(n - 1);
      RunSnoc(Target, In([]), Zeros(n - 1), 0);
    }
  }

  // Such a state is reached by a frame.
  lemma HeartbeatKept(data: seq<byte>)
    requires Deliverable(Target, data)
    ensures Run(Target, Out, Encode(data)).state == In([])
    ensures Run(Target, Out, Encode(data) + Wire(Heartbeat)).state == In([0])
  {
    hide Run, Encode, Crc;
    EncodeParts(Target, Out, data);
    BodyDelivers(Target, data);
    RunAppend(Target, Out, Encode(data), [0]);
    RunOne(Target, In([]), 0);
  }

  lemma ChunkDelivered(st: State, data: seq<byte>)
    requires Resting(st)
    ensures Resting(Run(Target, st, Encode(data)).state)
    ensures Run(Target, st, Encode(data)).events == Delivered(Target, data)
  {
    hide Crc, Run;
    if st.In? {
      ZerosNotAccepted(|st.buf|);
    }
    EncodeParts(Target, st, data);
    assert Next(Target, st, FLAG) == Trace(In([]), []);
    BodyDelivers(Target, data);
  }

  lemma PayloadsOfDelivered(data: seq<byte>)
    ensures Payloads(Delivered(Target, data)) == Content(Chunk(data))
  {
    if Deliverable(Target, data) {
      assert [Frame(data)][..0] == [];
    }
  }

  // The target decodes any mixture of heartbeats and chunks to the chunks, in order.
  lemma {:induction false} ItemsDelivered(items: seq<Item>)
    ensures var r := Run(Target, Out, WireAll(items));
            Resting(r.state) && Payloads(r.events) == ContentAll(items)
  {
    hide Next, Run, Encode, Crc;
    if items == [] {
      RunEmpty(Target, Out);
    } else {
      var front, last := items[..|items| - 1], items[|items| - 1];
      ItemsDelivered(front);
      var st := Run(Target, Out, WireAll(front)).state;
      RunAppend(Target, Out, WireAll(front), Wire(last));
      PayloadsAppend(Run(Target, Out, WireAll(front)).events, Run(Target, st, Wire(last)).events);
      match last
      case Heartbeat => HeartbeatRests(st);
      case Chunk(data) =>
        ChunkDelivered(st, data);
        PayloadsOfDelivered(data);
    }
  }

  // ---- the two writers and their lock -----------------------------------------------

  // The target's input so far, the items whose lock has been released, and the holder of the
  // lock with the number of octets it has written.
  datatype Writers = Writers(input: seq<byte>, released: seq<Item>, holder: Option<(Item, nat)>)

  datatype WriterStep = Acquire(item: Item) | PutOctet | Release

  const IDLE := Writers([], [], None)

  // A step of either thread; one that the lock or the program does not allow changes nothing.
  function WriterNext(w: Writers, step: WriterStep): (r: Writers) {
    match step
    case Acquire(item) =>
      if w.holder.None? then w.(holder := Some((item, 0))) else w
    case PutOctet =>
      if w.holder.Some? && w.holder.value.1 < |Wire(w.holder.value.0)| then
        var (item, n) := w.holder.value;
        w.(input := w.input + [Wire(item)[n]], holder := Some((item, n + 1)))
      else w
    case Release =>
      if w.holder.Some? && w.holder.value.1 == |Wire(w.holder.value.0)| then
        w.(released := w.released + [w.holder.value.0], holder := None)
      else w
  }

  function WriterRun(steps: seq<WriterStep>): (r: Writers) {
    if steps == [] then IDLE else WriterNext(WriterRun(steps[..|steps| - 1]), steps[|steps| - 1])
  }

  // Items in the order their turns began.
  function Begun(w: Writers): (r: seq<Item>) {
    if w.holder.Some? then w.released + [w.holder.value.0] else w.released
  }

  lemma {:induction false} InputIsWholeItems(steps: seq<WriterStep>)
    ensures var w := WriterRun(steps);
            match w.holder
            case None => w.input == WireAll(w.released)
            case Some((item, n)) =>
              n <= |Wire(item)| && w.input == WireAll(w.released) + Wire(item)[..n]
  {
    hide Encode;
    if steps != [] {
      var w, step := WriterRun(steps[..|steps| - 1]), steps[|steps| - 1];
      InputIsWholeItems(steps[..|steps| - 1]);
      if step.Release? && w.holder.Some? && w.holder.value.1 == |Wire(w.holder.value.0)| {
        var item := w.holder.value.0;
        assert (w.released + [item])[..|w.released|] == w.released;
        assert Wire(item)[..|Wire(item)|] == Wire(item);
      } else if step.PutOctet? && w.holder.Some? && w.holder.value.1 < |Wire(w.holder.value.0)| {
        var (item, n) := w.holder.value;
        assert Wire(item)[..n + 1] == Wire(item)[..n] + [Wire(item)[n]];
      }
    }
  }

  lemma InputIsPrefix(steps: seq<WriterStep>)
    ensures var w := WriterRun(steps); w.input <= WireAll(Begun(w))
    ensures var w := WriterRun(steps); w.holder.None? ==> w.input == WireAll(w.released)
  {
    hide Wire;
    InputIsWholeItems(steps);
    var w := WriterRun(steps);
    if w.holder.Some? {
      var (item, n) := w.holder.value;
      assert Begun(w)[..|w.released|] == w.released;
    }
  }

  // ---- end to end -------------------------------------------------------------------

  lemma PayloadsMonotone(s: seq<byte>, t: seq<byte>)
    requires s <= t
    ensures Payloads(Run(Target, Out, s).events) <= Payloads(Run(Target, Out, t).events)
  {
    hide Run;
    assert t == s + t[|s|..];
    RunAppend(Target, Out, s, t[|s|..]);
    PayloadsAppend(Run(Target, Out, s).events, Run(Target, Run(Target, Out, s).state, t[|s|..]).events);
  }

  // However the two writers' turns interleave, and however the reader slices its reads, the
  // octets read are the beginning of the chunks in the order they were sent; once the writers
  // have released the lock, the reader has consumed their octets and nothing is pending, they
  // are the chunks of 1 to 1024 octets whole, and so all that was sent if and only if no chunk
  // was longer.
  lemma LinkDelivers(steps: seq<WriterStep>, calls: seq<Call>)
    requires forall c <- calls :: c.len != 0
    requires Reads(CLOSED, calls).consumed <= WriterRun(steps).input
    ensures var w, s := WriterRun(steps), Reads(CLOSED, calls);
            && s.out <= ContentAll(Begun(w))
            && (w.holder.None? && s.consumed == w.input && s.rx.pending == []
                ==> && s.out == ContentAll(w.released)
                    && (s.out == SentAll(w.released) <==> AllSmall(w.released)))
  {
    hide SentAll, AllSmall, Run, Reads, WriterRun, WireAll, ContentAll;
    var w, s := WriterRun(steps), Reads(CLOSED, calls);
    ReadsConserve(calls);
    InputIsPrefix(steps);
    ItemsDelivered(Begun(w));
    PayloadsMonotone(s.consumed, WireAll(Begun(w)));
    assert s.out <= s.out + s.rx.pending;
    ContentIsAllIff(w.released);
  }

  // ---- nothing above is empty -------------------------------------------------------

  lemma WriterRunNext(steps: seq<WriterStep>, step: WriterStep)
    ensures WriterRun(steps + [step]) == WriterNext(WriterRun(steps), step)
  {
    assert (steps + [step])[..|steps|] == steps;
  }

  // A turn: the lock, the first n octets of the item.
  lemma {:induction false} TurnRuns(before: seq<WriterStep>, item: Item, n: nat) returns (steps: seq<WriterStep>)
    requires WriterRun(before).holder.None? && n <= |Wire(item)|
    ensures var w := WriterRun(before);
            WriterRun(steps) == Writers(w.input + Wire(item)[..n], w.released, Some((item, n)))
  {
    hide WriterRun, Wire;
    var w := WriterRun(before);
    if n == 0 {
      steps := before + [Acquire(item)];
      WriterRunNext(before, Acquire(item));
      assert w.input + Wire(item)[..0] == w.input;
    } else {
      var most := TurnRuns(before, item, n - 1);
      steps := most + [PutOctet];
      WriterRunNext(most, PutOctet);
      assert Wire(item)[..n] == Wire(item)[..n - 1] + [Wire(item)[n - 1]];
    }
  }

  // The writers can send any items in any order.
  lemma {:induction false} AnyOrderSent(items: seq<Item>) returns (steps: seq<WriterStep>)
    ensures WriterRun(steps) == Writers(WireAll(items), items, None)
  {
    hide Wire, WriterRun;
    if items == [] {
      steps := [];
      StartsIdle();
    } else {
      var item := items[|items| - 1];
      var front := AnyOrderSent(items[..|items| - 1]);
      var turn := TurnRuns(front, item, |Wire(item)|);
      steps := turn + [Release];
      WriterRunNext(turn, Release);
      assert Wire(item)[..|Wire(item)|] == Wire(item);
      assert items == items[..|items| - 1] + [item];
    }
  }

  lemma StartsIdle()
    ensures WriterRun([]) == IDLE
  {
  }

  // One octet that the console has, read with room for whatever it completes.
  lemma OctetRead(rx: Receiver, b: byte)
    requires rx.pending == []
    ensures var payload := Payloads(Next(Target, rx.parser, b).events);
            Read(rx, |payload| + 1, [Some(b)]) ==
            ReadResult(Receiver(Next(Target, rx.parser, b).state, []), payload, 1)
  {
    hide Next, Payloads;
    var step := Next(Target, rx.parser, b);
    var payload := Payloads(step.events);
    assert payload[..|payload|] == payload && payload[|payload|..] == [];
    EmptyPayloads();
    assert PollFrom(rx.(parser := step.state), |payload| + 1, [Some(b)], 1) ==
           ReadResult(rx.(parser := step.state), [], 1);
  }

  lemma EmptyPayloads()
    ensures Payloads([]) == []
  {
  }

  lemma ReceivedOne(b: byte)
    ensures Received([Some(b)][..1]) == [b]
  {
    assert [Some(b)][..1] == [Some(b)] && [Some(b)][..0] == [];
  }

  // Any octets can be read to the last, with nothing left pending.
  lemma {:induction false} AllRead(input: seq<byte>) returns (calls: seq<Call>)
    ensures forall c <- calls :: c.len != 0
    ensures Reads(CLOSED, calls).consumed == input && Reads(CLOSED, calls).rx.pending == []
  {
    hide Next, Payloads, Read, Received;
    if input == [] {
      calls := [];
    } else {
      var b := input[|input| - 1];
      var front := AllRead(input[..|input| - 1]);
      var s := Reads(CLOSED, front);
      var c := Call(|Payloads(Next(Target, s.rx.parser, b).events)| + 1, [Some(b)]);
      OctetRead(s.rx, b);
      ReceivedOne(b);
      calls := front + [c];
      assert calls[..|front|] == front;
      assert input == input[..|input| - 1] + [b];
    }
  }

  // So whatever is to be sent, there is a run of the two writers and the reader in which every
  // chunk of 1 to 1024 octets is read.
  lemma LinkCompletes(items: seq<Item>) returns (steps: seq<WriterStep>, calls: seq<Call>)
    ensures (forall c <- calls :: c.len != 0) && Reads(CLOSED, calls).consumed == WriterRun(steps).input
    ensures WriterRun(steps).released == items && WriterRun(steps).holder.None?
    ensures Reads(CLOSED, calls).rx.pending == [] && Reads(CLOSED, calls).out == ContentAll(items)
  {
    steps := AnyOrderSent(items);
    calls := AllRead(WireAll(items));
    LinkDelivers(steps, calls);
  }
}
