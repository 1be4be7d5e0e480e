// From the broker to the capture host: the decoder's output is the broker's own log.
module BrokerLog {
  import opened Bytes
  import opened TopicLog
  import HdlcFraming
  import Broker
  import BrokerRuns

  ghost predicate ShortNames(log: seq<Record>) { forall r <- log :: |r.name| < Broker.NAME_SIZE }

  lemma {:induction false} FanOutLeavesLog(b: Broker.State, name: seq<byte>, payload: seq<byte>, n: nat)
    requires Broker.Shaped(b) && n <= Broker.TABLE
    ensures Broker.FanOut(b, name, payload, n).log == b.log
  {
    if n > 0 {
      FanOutLeavesLog(b, name, payload, n - 1);
    }
  }

  lemma HandledNames(b: Broker.State, sub: Broker.Sub)
    requires BrokerRuns.Sound(b) && ShortNames(b.log)
    ensures ShortNames(Broker.Handled(b, sub).log)
  {
    if sub.WriteData? {
      var name := Broker.Published(b, sub.id);
      if name.Some? {
        BrokerRuns.PublishedShort(b, sub.id);
        var b1 := b.(log := b.log + [Record(name.value, sub.payload)]);
        FanOutLeavesLog(b1, name.value, sub.payload, Broker.TABLE);
      }
    }
  }

  lemma {:induction false} HandledAllNames(b: Broker.State, subs: seq<Broker.Sub>)
    requires BrokerRuns.Sound(b) && ShortNames(b.log)
    ensures ShortNames(Broker.HandledAll(b, subs).log)
  {
    hide Broker.Handled, ShortNames, BrokerRuns.TablesOk, BrokerRuns.Numbered;
    if subs != [] {
      HandledAllNames(b, subs[..|subs| - 1]);
      BrokerRuns.HandledAllSound(b, subs[..|subs| - 1]);
      HandledNames(Broker.HandledAll(b, subs[..|subs| - 1]), subs[|subs| - 1]);
    }
  }

  lemma {:induction false} RunNames(inputs: seq<Broker.Inbound>)
    requires forall i <- inputs :: i.idx < Broker.SESSIONS
    ensures ShortNames(Broker.Run(Broker.Initial(), inputs).log)
  {
    if inputs != [] {
      var last := inputs[|inputs| - 1];
      var b := Broker.Run(Broker.Initial(), inputs[..|inputs| - 1]);
      RunNames(inputs[..|inputs| - 1]);
      BrokerRuns.RunSound(inputs[..|inputs| - 1]);
      BrokerRuns.ArrivedSound(b, last.idx, last.message);
      HandledAllNames(Broker.Arrived(b, last.idx, last.message), last.message.subs);
    }
  }

  // After any run of the broker: if its records went out on a console shared with other text
  // free of flags, the decoder finds exactly those records and exactly that text.
  lemma RunLogDecodes(inputs: seq<Broker.Inbound>, os: seq<Output>)
    requires forall i <- inputs :: i.idx < Broker.SESSIONS
    requires SentRecords(os) == Broker.Run(Broker.Initial(), inputs).log
    requires forall o <- os | o.Text? :: Legal(o)
    ensures forall o <- os :: Legal(o)
    ensures var events := HdlcFraming.Run(HdlcFraming.LogDecoder, HdlcFraming.Out, ConsoleWire(os)).events;
            && Records(events) == Broker.Run(Broker.Initial(), inputs).log
            && TextOf(events) == SentText(os)
  {
    hide Broker.Run, HdlcFraming.Run, Records, ConsoleWire;
    RunNames(inputs);
    NamesLegal(os);
    LogRecovered(os);
  }

  lemma {:induction false} NamesLegal(os: seq<Output>)
    requires ShortNames(SentRecords(os)) && forall o <- os | o.Text? :: Legal(o)
    ensures forall o <- os :: Legal(o)
  {
    if os != [] {
      var before, o := os[..|os| - 1], os[|os| - 1];
      var n := |SentRecords(before)|;
      forall r <- SentRecords(before) ensures |r.name| < Broker.NAME_SIZE {
        assert r in SentRecords(os);
      }
      NamesLegal(before);
      if o.Topic? {
        assert SentRecords(os)[n] == o.record;
        assert o.record in SentRecords(os);
      }
    }
  }
}
