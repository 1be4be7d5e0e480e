// A bounded queue from the broker to one client, over time.
module LoopbackTraffic {
  const DEPTH: nat := 32

  function Put<M>(q: seq<M>, m: M): (q': seq<M>) { if |q| < DEPTH then q + [m] else q }

  // What the broker and the client do to the queue, in any interleaving: a message is offered,
  // the oldest one is taken, or an open purges it.
  datatype Event<M> = Sent(m: M) | Taken | Purged

  // `sent` is every message offered so far and `got` every message the client took. `kept`
  // are the places in `sent` of the messages that found room and were not purged; the client
  // took the first |got| of them.
  datatype Link<M> = Link(queue: seq<M>, sent: seq<M>, kept: seq<nat>, got: seq<M>, failed: set<nat>, purged: set<nat>)

  function Fresh<M>(): (l: Link<M>) { Link([], [], [], [], {}, {}) }

  function Places(s: seq<nat>): (r: set<nat>) { set k | k in s }

  function After<M>(l: Link<M>, e: Event<M>): (l': Link<M>) {
    match e
    case Sent(m) =>
      if |l.queue| < DEPTH then l.(queue := l.queue + [m], sent := l.sent + [m], kept := l.kept + [|l.sent|])
      else l.(sent := l.sent + [m], failed := l.failed + {|l.sent|})
    case Taken =>
      if l.queue == [] then l else l.(queue := l.queue[1..], got := l.got + [l.queue[0]])
    case Purged =>
      if |l.got| <= |l.kept|
      then l.(queue := [], kept := l.kept[..|l.got|], purged := l.purged + Places(l.kept[|l.got|..]))
      else l.(queue := [])
  }

  function Traffic<M>(events: seq<Event<M>>): (l: Link<M>) {
    if events == [] then Fresh() else After(Traffic(events[..|events| - 1]), events[|events| - 1])
  }

  lemma TrafficNext<M>(events: seq<Event<M>>, e: Event<M>)
    ensures Traffic(events + [e]) == After(Traffic(events), e)
  {
    assert (events + [e])[..|events|] == events;
  }

  // What the queue holds after each event.
  lemma QueueAfter<M>(l: Link<M>, m: M)
    ensures After(l, Sent(m)).queue == Put(l.queue, m)
    ensures After(l, Purged).queue == []
    ensures After(l, Taken).queue == if l.queue == [] then [] else l.queue[1..]
    ensures After(l, Taken).got == if l.queue == [] then l.got else l.got + [l.queue[0]]
  {
  }

  // Every message offered is in `sent`; one is refused exactly when 32 wait, and those purged
  // are the ones that waited.
  lemma EventMeans<M>(l: Link<M>, m: M, k: nat)
    requires |l.got| <= |l.kept|
    ensures Traffic<M>([]) == Link([], [], [], [], {}, {})
    ensures var s := After(l, Sent(m));
            && s.sent == l.sent + [m] && s.got == l.got && s.purged == l.purged
            && s.queue == (if |l.queue| < 32 then l.queue + [m] else l.queue)
            && s.failed == (if |l.queue| < 32 then l.failed else l.failed + {|l.sent|})
    ensures var s := After(l, Taken); s.sent == l.sent && s.failed == l.failed && s.purged == l.purged
    ensures var s := After(l, Purged);
            && s.sent == l.sent && s.got == l.got && s.failed == l.failed
            && (k in s.purged <==> k in l.purged || k in l.kept[|l.got|..])
  {
  }

  // What was taken and what is waiting are, in order, messages that were sent.
  ghost predicate Ordered<M>(l: Link<M>) {
    && |l.kept| == |l.got| + |l.queue|
    && (forall i | 0 <= i < |l.kept| :: l.kept[i] < |l.sent|)
    && (forall i, j | 0 <= i < j < |l.kept| :: l.kept[i] < l.kept[j])
    && (forall i | 0 <= i < |l.got| :: l.got[i] == l.sent[l.kept[i]])
    && (forall i | 0 <= i < |l.queue| :: l.queue[i] == l.sent[l.kept[|l.got| + i]])
  }

  // Every message is kept, or was refused by a full queue, or was purged, and only one of
  // these.
  ghost predicate Accounted<M>(l: Link<M>) {
    && (forall k: nat :: k in l.failed ==> k < |l.sent| && k !in l.kept && k !in l.purged)
    && (forall k: nat :: k in l.purged ==> k < |l.sent| && k !in l.kept)
    && (forall k | 0 <= k < |l.sent| :: k in l.failed || k in l.purged || k in l.kept)
  }

  ghost predicate InOrder<M>(l: Link<M>) { Ordered(l) && Accounted(l) }

  lemma {:induction false} TrafficInOrder<M>(events: seq<Event<M>>)
    ensures InOrder(Traffic(events))
  {
    if events != [] {
      hide InOrder, After;
      TrafficInOrder(events[..|events| - 1]);
      AfterInOrder(Traffic(events[..|events| - 1]), events[|events| - 1]);
    } else {
      hide After;
    }
  }

  lemma AfterInOrder<M>(l: Link<M>, e: Event<M>)
    requires InOrder(l)
    ensures InOrder(After(l, e))
  {
    hide Ordered, Accounted, Places;
    match e
    case Sent(m) => SentOrdered(l, m); SentAccounted(l, m);
    case Taken => TakenOrdered(l); TakenAccounted(l);
    case Purged => PurgedOrdered(l); PurgedAccounted(l);
  }

  lemma SentOrdered<M>(l: Link<M>, m: M)
    requires Ordered(l)
    ensures Ordered(After(l, Sent(m)))
  {
  }

  lemma SentAccounted<M>(l: Link<M>, m: M)
    requires InOrder(l)
    ensures Accounted(After(l, Sent(m)))
  {
    var l', n := After(l, Sent(m)), |l.sent|;
    if |l.queue| < DEPTH {
      assert l'.kept[|l.kept|] == n;
      forall k: nat ensures k in l'.kept <==> k in l.kept || k == n {
      }
    }
  }

  lemma TakenOrdered<M>(l: Link<M>)
    requires Ordered(l)
    ensures Ordered(After(l, Taken))
  {
  }

  lemma TakenAccounted<M>(l: Link<M>)
    requires Accounted(l)
    ensures Accounted(After(l, Taken))
  {
  }

  lemma PurgedOrdered<M>(l: Link<M>)
    requires Ordered(l)
    ensures Ordered(After(l, Purged))
  {
  }

  lemma PurgedAccounted<M>(l: Link<M>)
    requires InOrder(l)
    ensures Accounted(After(l, Purged))
  {
    var l', n := After(l, Purged), |l.got|;
    assert l.kept == l.kept[..n] + l.kept[n..];
    forall k: nat | k in l.kept[n..] ensures k !in l.kept[..n] {
      var i :| 0 <= i < |l.kept| - n && l.kept[n..][i] == k;
      assert l.kept[n + i] == k;
    }
  }

  // Between two messages the client took one after the other, and before the first, every
  // message was refused or purged.
  lemma NothingElseMissing<M>(l: Link<M>, i: nat, k: nat)
    requires InOrder(l) && i < |l.got| && (i > 0 ==> l.kept[i - 1] < k) && k < l.kept[i]
    ensures k in l.failed || k in l.purged
  {
    forall j | 0 <= j < |l.kept| ensures l.kept[j] != k {
      assert j < i ==> l.kept[j] <= l.kept[i - 1];
      assert j >= i ==> l.kept[j] >= l.kept[i];
    }
  }

  // When nothing was refused or purged, the client has a prefix of what was sent, and the
  // queue the rest.
  lemma NothingMissing<M>(l: Link<M>)
    requires InOrder(l) && l.failed == {} && l.purged == {}
    ensures l.got + l.queue == l.sent
  {
    KeptAll(l, |l.sent|);
    if l.kept != [] {
      KeptAtLeast(l, |l.kept| - 1);
    }
  }

  lemma {:induction false} KeptAtLeast<M>(l: Link<M>, i: nat)
    requires Ordered(l) && i < |l.kept|
    ensures l.kept[i] >= i
  {
    if i > 0 {
      KeptAtLeast(l, i - 1);
    }
  }

  lemma {:induction false} KeptAll<M>(l: Link<M>, n: nat)
    requires InOrder(l) && l.failed == {} && l.purged == {} && n <= |l.sent|
    ensures n <= |l.kept| && forall k | 0 <= k < n :: l.kept[k] == k
  {
    if n > 0 {
      KeptAll(l, n - 1);
      assert n - 1 in l.kept;
      var j :| 0 <= j < |l.kept| && l.kept[j] == n - 1;
      KeptAtLeast(l, j);
      assert j == n - 1;
    }
  }
}
