/**
 The event bus interleaved: any number of publishers between two sends, of closers between two closes,
 and of drain goroutines. Every step keeps the invariant.
 */
module BusProtocol {
  import opened Prelude
  import opened Bus

  type Thread = nat

  datatype Publishing = Publishing(publication: nat, todo: set<Id>)

  /** A publication and those who were subscribed to its topic when it took the read lock. */
  datatype Publication = Publication(event: Event, audience: set<Id>)

  datatype System = System(
    cap: nat, subs: Subscribers, channels: seq<Channel>, closed: bool, dropped: nat,
    publishing: map<Thread, Publishing>, closing: map<Thread, set<Id>>, published: seq<Publication>, panicked: bool)

  datatype Step =
    | PublishBegin(thread: Thread, event: Event)
    | PublishSend(thread: Thread, id: Id)
    | PublishEnd(thread: Thread)
    | Subscribe(topic: int)
    | Unsubscribe(thread: Thread, id: Id)
    | CloseMark(thread: Thread)
    | CloseChannel(thread: Thread, id: Id)
    | CloseEnd(thread: Thread)
    | Drain(id: Id)

  /** The write lock waits for every publisher; the read lock is held from begin to end. */
  predicate Enabled(s: System, step: Step) {
    match step
    case PublishBegin(t, _) => t !in s.publishing && t !in s.closing
    case PublishSend(t, c) => t in s.publishing && c in s.publishing[t].todo && c < |s.channels| &&
      s.publishing[t].publication < |s.published|
    case PublishEnd(t) => t in s.publishing && s.publishing[t].todo == {}
    case Subscribe(_) => s.publishing == map[]
    case Unsubscribe(t, c) => s.publishing == map[] && t !in s.closing && c < |s.channels|
    case CloseMark(t) => s.publishing == map[] && t !in s.closing
    case CloseChannel(t, c) => t in s.closing && c in s.closing[t] && c < |s.channels|
    case CloseEnd(t) => t in s.closing && s.closing[t] == {}
    case Drain(c) => c < |s.channels| && s.channels[c].buffer != []
  }

  function Next(s: System, step: Step): System
    requires Enabled(s, step)
  {
    match step
    case PublishBegin(t, ev) =>
      var audience := At(s.subs, ev.topic);
      s.(publishing := s.publishing[t := Publishing(|s.published|, audience)],
          published := s.published + [Publication(ev, audience)])
    case PublishSend(t, c) =>
      var p := s.publishing[t];
      var sent := s.(publishing := s.publishing[t := p.(todo := p.todo - {c})],
                     channels := s.channels[c := Send(s.channels[c], s.cap, p.publication,
                         s.published[p.publication].event)]);
      if s.channels[c].closed then s.(panicked := true)
      else if |s.channels[c].buffer| < s.cap then sent
      else sent.(dropped := s.dropped + 1)
    case PublishEnd(t) => s.(publishing := s.publishing - {t})
    case Subscribe(topic) =>
      if s.closed then s
      else s.(channels := s.channels + [NewChannel(topic)], subs := s.subs[topic := At(s.subs, topic) + {|s.channels|}])
    case Unsubscribe(t, c) =>
      var ch := s.channels[c];
      if ch.unsubscribed then s
      else s.(channels := s.channels[c := ch.(unsubscribed := true)],
              subs := Without(s.subs, ch.topic, c),
              closing := s.closing[t := {c}])
    case CloseMark(t) =>
      if s.closed then s
      else s.(closed := true, closing := s.closing[t := Everyone(s.subs)], subs := map[])
    case CloseChannel(t, c) =>
      var ch := s.channels[c];
      var done := s.(closing := s.closing[t := s.closing[t] - {c}]);
      if ch.closeOnce then done
      else if ch.closed then s.(panicked := true)
      else done.(channels := s.channels[c := ch.(closeOnce := true, closed := true)])
    case CloseEnd(t) => s.(closing := s.closing - {t})
    case Drain(c) =>
      var ch := s.channels[c];
      s.(channels := s.channels[c := ch.(buffer := ch.buffer[1..], handed := ch.handed + [ch.buffer[0]])])
  }

  function Start(cap: nat): System { System(cap, map[], [], false, 0, map[], map[], [], false) }

  ghost predicate Leads(s: System, step: Step, next: System) { Enabled(s, step) && Next(s, step) == next }

  ghost predicate CanStep(s: System, next: System) { exists step :: Leads(s, step, next) }

  ghost predicate Follows(states: seq<System>, i: int)
    requires 0 < i < |states|
  { CanStep(states[i - 1], states[i]) }

  ghost predicate Run(states: seq<System>) {
    && states != [] && states[0] == Start(states[0].cap)
    && forall i :: 0 < i < |states| ==> Follows(states, i)
  }

  // ---- The invariant ----

  /** Whoever is out of the map is closed, or a closer still has it in hand. */
  ghost predicate Accounted(subs: Subscribers, ch: Channel, closing: map<Thread, set<Id>>, c: Id) {
    c in At(subs, ch.topic) || ch.closed || exists t :: InHand(closing, t, c)
  }

  predicate InHand(closing: map<Thread, set<Id>>, t: Thread, c: Id) { t in closing && c in closing[t] }

  /** What a closer has in hand is out of the map. */
  ghost predicate ClosingOk(subs: Subscribers, channels: seq<Channel>, closing: map<Thread, set<Id>>) {
    && (forall c :: 0 <= c < |channels| ==> Accounted(subs, channels[c], closing, c))
    && (forall t, c :: InHand(closing, t, c) ==> Retired(subs, channels, c))
  }

  predicate Retired(subs: Subscribers, channels: seq<Channel>, c: Id) {
    c < |channels| && c !in At(subs, channels[c].topic)
  }

  /** A publisher's remaining sends go to subscribers of its own topic. */
  ghost predicate PublisherOk(subs: Subscribers, published: seq<Publication>, p: Publishing) {
    && p.publication < |published|
    && p.todo <= published[p.publication].audience
    && p.todo <= At(subs, published[p.publication].event.topic)
  }

  /** No two threads publish the same publication. */
  ghost predicate OnePublisher(publishing: map<Thread, Publishing>) {
    forall t, u :: t in publishing && u in publishing ==> SamePublication(publishing[t], publishing[u], t, u)
  }

  predicate SamePublication(p: Publishing, q: Publishing, t: Thread, u: Thread) { p.publication == q.publication ==>
    t == u }

  ghost predicate PublishersOk(subs: Subscribers, published: seq<Publication>, publishing: map<Thread, Publishing>) {
    && (forall t :: t in publishing ==> PublisherOk(subs, published, publishing[t]))
    && OnePublisher(publishing)
  }

  ghost predicate Pending(publishing: map<Thread, Publishing>, n: nat, c: Id) {
    exists t :: t in publishing && publishing[t].publication == n && c in publishing[t].todo
  }

  predicate Offered(offers: seq<Offer>, n: nat) { exists i :: 0 <= i < |offers| && offers[i].publication == n }

  /** No publication is offered twice to one channel. */
  predicate NoRepeat(offers: seq<Offer>) {
    forall i, j :: 0 <= i < j < |offers| ==> offers[i].publication != offers[j].publication
  }

  predicate Authentic(published: seq<Publication>, offer: Offer) {
    offer.publication < |published| && offer.event == published[offer.publication].event
  }

  /** A channel was offered exactly the publications it was in the audience of, but for those still on their way. */
  ghost predicate History(published: seq<Publication>, publishing: map<Thread, Publishing>, offers: seq<Offer>, c: Id) {
    && NoRepeat(offers)
    && (forall i :: 0 <= i < |offers| ==> Authentic(published, offers[i]))
    && (forall n :: 0 <= n < |published| ==>
          (Offered(offers, n) <==> c in published[n].audience && !Pending(publishing, n, c)))
  }

  ghost predicate HistoryOk(published: seq<Publication>, publishing: map<Thread, Publishing>, channels: seq<Channel>) {
    forall c :: 0 <= c < |channels| ==> History(published, publishing, channels[c].offers, c)
  }

  predicate AudiencesOk(published: seq<Publication>, channels: nat) {
    forall n :: 0 <= n < |published| ==> forall c :: c in published[n].audience ==> c < channels
  }

  ghost predicate Inv(s: System) {
    && !s.panicked
    && BusOk(s.subs, s.channels, s.closed, s.dropped, s.cap)
    && ClosingOk(s.subs, s.channels, s.closing)
    && PublishersOk(s.subs, s.published, s.publishing)
    && HistoryOk(s.published, s.publishing, s.channels)
    && AudiencesOk(s.published, |s.channels|)
  }

  // ---- Every step keeps the invariant ----

  lemma BeginKeepsHistory(s: System, t: Thread, ev: Event)
    requires Inv(s) && Enabled(s, PublishBegin(t, ev))
    ensures var n := Next(s, PublishBegin(t, ev)); HistoryOk(n.published, n.publishing, n.channels)
  {
    var n := Next(s, PublishBegin(t, ev));
    forall c | 0 <= c < |s.channels| ensures History(n.published, n.publishing, n.channels[c].offers, c) {
      assert History(s.published, s.publishing, s.channels[c].offers, c);
      BeginKeepsOne(s.published, s.publishing, s.channels[c].offers, c, t, Publication(ev, At(s.subs, ev.topic)),
          s.subs);
    }
  }

  lemma BeginKeepsOne(published: seq<Publication>, publishing: map<Thread, Publishing>, offers: seq<Offer>, c: Id,
    t: Thread, p: Publication, subs: Subscribers)
    requires History(published, publishing, offers, c) && PublishersOk(subs, published, publishing) && t !in publishing
    ensures History(published + [p], publishing[t := Publishing(|published|, p.audience)], offers, c)
  {
    var more, busy := published + [p], publishing[t := Publishing(|published|, p.audience)];
    forall i | 0 <= i < |offers| ensures offers[i].publication < |published| {
      assert Authentic(published, offers[i]);
    }
    forall n | 0 <= n < |more| ensures Offered(offers, n) <==> c in more[n].audience && !Pending(busy, n, c) {
      if n < |published| {
        assert Pending(busy, n, c) <==> Pending(publishing, n, c) by {
          if Pending(publishing, n, c) {
            var u :| u in publishing && publishing[u].publication == n && c in publishing[u].todo;
            assert busy[u] == publishing[u];
          }
        }
      } else {
        assert !Offered(offers, n);
        assert c in p.audience ==> busy[t].publication == n && c in busy[t].todo;
      }
    }
    forall i | 0 <= i < |offers| ensures Authentic(more, offers[i]) {
      assert Authentic(published, offers[i]);
    }
  }

  lemma BeginKeepsInv(s: System, t: Thread, ev: Event)
    requires Inv(s) && Enabled(s, PublishBegin(t, ev))
    ensures Inv(Next(s, PublishBegin(t, ev)))
  {
    hide History, Accounted;
    BeginKeepsHistory(s, t, ev);
    var n := Next(s, PublishBegin(t, ev));
    forall c | c in At(s.subs, ev.topic) ensures c < |s.channels| {
      assert OpenFor(s.channels, ev.topic, c);
    }
    forall u | u in n.publishing ensures PublisherOk(n.subs, n.published, n.publishing[u]) {
      if u != t {
        assert PublisherOk(s.subs, s.published, s.publishing[u]);
      }
    }
  }

  /** What a send does to the sender's own channel's history, and to every other one's. */
  lemma SendKeepsHistory(published: seq<Publication>, publishing: map<Thread, Publishing>, offers: seq<Offer>, d: Id,
    t: Thread, c: Id, taken: bool, subs: Subscribers)
    requires History(published, publishing, offers, d) && PublishersOk(subs, published, publishing)
    requires t in publishing && c in publishing[t].todo
    ensures var p := publishing[t];
            var n := p.publication;
            n < |published| &&
            History(published, publishing[t := p.(todo := p.todo - {c})],
                    if d == c then offers + [Offer(n, published[n].event, taken)] else offers, d)
  {
    var p := publishing[t];
    assert PublisherOk(subs, published, p);
    var n := p.publication;
    var left := publishing[t := p.(todo := p.todo - {c})];
    var more := if d == c then offers + [Offer(n, published[n].event, taken)] else offers;
    forall m | 0 <= m < |published| ensures Offered(more, m) <==> d in published[m].audience && !Pending(left, m, d) {
      SendMovesOne(publishing, t, c, m, d);
      if d == c {
        OfferedMore(offers, Offer(n, published[n].event, taken), m);
      }
    }
    assert Pending(publishing, n, c);
    assert d == c ==> !Offered(offers, n);
  }

  lemma OfferedMore(offers: seq<Offer>, o: Offer, m: nat)
    ensures Offered(offers + [o], m) <==> Offered(offers, m) || m == o.publication
  {
    var more := offers + [o];
    if m == o.publication {
      assert more[|offers|].publication == m;
    }
    if i :| 0 <= i < |offers| && offers[i].publication == m {
      assert more[i].publication == m;
    }
  }

  /** Only the sender's own publication stops being on its way, and only to that channel. */
  lemma SendMovesOne(publishing: map<Thread, Publishing>, t: Thread, c: Id, m: nat, d: Id)
    requires t in publishing
    requires OnePublisher(publishing)
    ensures var left := publishing[t := publishing[t].(todo := publishing[t].todo - {c})];
            Pending(left, m, d) <==> Pending(publishing, m, d) && !(m == publishing[t].publication && d == c)
  {
    var left := publishing[t := publishing[t].(todo := publishing[t].todo - {c})];
    if u :| u in publishing && publishing[u].publication == m && d in publishing[u].todo {
      if !(m == publishing[t].publication && d == c) {
        assert u in left && left[u].publication == m && d in left[u].todo;
      }
    }
  }

  lemma SendKeepsInv(s: System, t: Thread, c: Id)
    requires Inv(s) && Enabled(s, PublishSend(t, c))
    ensures Inv(Next(s, PublishSend(t, c)))
  {
    hide History, BusOk, ChannelOk;
    var p := s.publishing[t];
    assert PublisherOk(s.subs, s.published, p);
    var ev := s.published[p.publication].event;
    SubscriberIsOpen(s.subs, s.channels, s.closed, s.dropped, s.cap, ev.topic, c);
    SendKeepsBus(s.subs, s.channels, s.closed, s.dropped, s.cap, c, p.publication, ev);
    var n := Next(s, PublishSend(t, c));
    forall d | 0 <= d < |n.channels| ensures History(n.published, n.publishing, n.channels[d].offers, d) {
      SendKeepsHistory(s.published, s.publishing, s.channels[d].offers, d, t, c, |s.channels[c].buffer| < s.cap,
          s.subs);
    }
    SameShape(s.subs, s.channels, n.channels, s.closing);
    forall u | u in n.publishing ensures PublisherOk(n.subs, n.published, n.publishing[u]) {
      assert PublisherOk(s.subs, s.published, s.publishing[u]);
    }
  }

  lemma SubscriberIsOpen(subs: Subscribers, channels: seq<Channel>, closed: bool, dropped: nat, cap: nat, topic: int,
    c: Id)
    requires BusOk(subs, channels, closed, dropped, cap) && c in At(subs, topic)
    ensures OpenFor(channels, topic, c)
  { }

  /** The closers do not care for what is in the channels. */
  lemma SameShape(subs: Subscribers, channels: seq<Channel>, after: seq<Channel>, closing: map<Thread, set<Id>>)
    requires ClosingOk(subs, channels, closing) && |after| == |channels|
    requires forall c :: 0 <= c < |channels| ==>
                           after[c].topic == channels[c].topic && after[c].closed == channels[c].closed
    ensures ClosingOk(subs, after, closing)
  {
    forall c | 0 <= c < |after| ensures Accounted(subs, after[c], closing, c) {
      assert Accounted(subs, channels[c], closing, c);
    }
    forall t, c | InHand(closing, t, c) ensures Retired(subs, after, c) {
      assert Retired(subs, channels, c);
    }
  }

  lemma EndKeepsInv(s: System, t: Thread)
    requires Inv(s) && Enabled(s, PublishEnd(t))
    ensures Inv(Next(s, PublishEnd(t)))
  {
    hide BusOk, ClosingOk;
    var n := Next(s, PublishEnd(t));
    forall c, m | 0 <= c < |s.channels| && 0 <= m < |s.published|
      ensures Pending(n.publishing, m, c) <==> Pending(s.publishing, m, c) {
      if u :| u in s.publishing && s.publishing[u].publication == m && c in s.publishing[u].todo {
        assert u in n.publishing && n.publishing[u] == s.publishing[u];
      }
    }
    forall c | 0 <= c < |s.channels| ensures History(n.published, n.publishing, n.channels[c].offers, c) {
      assert History(s.published, s.publishing, s.channels[c].offers, c);
    }
  }

  lemma SubscribeKeepsInv(s: System, topic: int)
    requires Inv(s) && Enabled(s, Subscribe(topic))
    ensures Inv(Next(s, Subscribe(topic)))
  {
    hide BusOk, ChannelOk;
    if !s.closed {
      SubscribeKeepsBus(s.subs, s.channels, s.dropped, s.cap, topic);
      var n := Next(s, Subscribe(topic));
      forall c | 0 <= c < |n.channels| ensures History(n.published, n.publishing, n.channels[c].offers, c) {
        if c < |s.channels| {
          assert History(s.published, s.publishing, s.channels[c].offers, c);
        }
      }
      forall c | 0 <= c < |n.channels| ensures Accounted(n.subs, n.channels[c], n.closing, c) {
        if c < |s.channels| {
          assert Accounted(s.subs, s.channels[c], s.closing, c);
        }
      }
      forall t, c | InHand(n.closing, t, c) ensures Retired(n.subs, n.channels, c) {
        assert Retired(s.subs, s.channels, c);
      }
    }
  }

  /** With no publisher inside, a change that leaves the histories keeps them right. */
  lemma SameHistories(published: seq<Publication>, publishing: map<Thread, Publishing>, channels: seq<Channel>,
    after: seq<Channel>)
    requires HistoryOk(published, publishing, channels) && |after| == |channels|
    requires forall c :: 0 <= c < |channels| ==> after[c].offers == channels[c].offers
    ensures HistoryOk(published, publishing, after)
  {
    forall c | 0 <= c < |after| ensures History(published, publishing, after[c].offers, c) {
      assert History(published, publishing, channels[c].offers, c);
    }
  }

  lemma UnsubscribeKeepsInv(s: System, t: Thread, c: Id)
    requires Inv(s) && Enabled(s, Unsubscribe(t, c))
    ensures Inv(Next(s, Unsubscribe(t, c)))
  {
    hide BusOk, History, ChannelOk;
    var n := Next(s, Unsubscribe(t, c));
    var ch := s.channels[c];
    if !ch.unsubscribed {
      GoodChannel(s.subs, s.channels, s.closed, s.dropped, s.cap, c);
      MarkKeepsChannel(ch, s.cap);
      ChangeKeepsBus(s.subs, s.channels, s.closed, s.dropped, s.cap, c, ch.(unsubscribed := true));
      WithoutKeepsBus(s.subs, n.channels, s.closed, s.dropped, s.cap, c);
      SameHistories(s.published, s.publishing, s.channels, n.channels);
      SameShape(s.subs, s.channels, n.channels, s.closing);
      LeaveMap(s.subs, n.subs, n.channels, s.closing, t, c);
    }
  }

  lemma GoodChannel(subs: Subscribers, channels: seq<Channel>, closed: bool, dropped: nat, cap: nat, c: Id)
    requires BusOk(subs, channels, closed, dropped, cap) && c < |channels|
    ensures ChannelOk(channels[c], cap)
  { }

  lemma MarkKeepsChannel(ch: Channel, cap: nat)
    requires ChannelOk(ch, cap)
    ensures ChannelOk(ch.(unsubscribed := true), cap) && ChannelOk(ch.(closeOnce := true, closed := true), cap)
    ensures ch.buffer != [] ==> ChannelOk(ch.(buffer := ch.buffer[1..], handed := ch.handed + [ch.buffer[0]]), cap)
  {
    if ch.buffer != [] {
      assert ch.handed + [ch.buffer[0]] + ch.buffer[1..] == ch.handed + ch.buffer;
    }
  }

  /** What leaves the map goes into its remover's hands. */
  lemma LeaveMap(subs: Subscribers, left: Subscribers, channels: seq<Channel>, closing: map<Thread, set<Id>>,
    t: Thread, c: Id)
    requires ClosingOk(subs, channels, closing) && c < |channels| && t !in closing
    requires forall topic: int :: At(left, topic) == At(subs, topic) - {c}
    ensures ClosingOk(left, channels, closing[t := {c}])
  {
    var more := closing[t := {c}];
    assert InHand(more, t, c);
    forall d | 0 <= d < |channels| ensures Accounted(left, channels[d], more, d) {
      assert Accounted(subs, channels[d], closing, d);
      if u :| InHand(closing, u, d) {
        assert InHand(more, u, d);
      }
    }
    forall u, d | InHand(more, u, d) ensures Retired(left, channels, d) {
      assert u != t ==> InHand(closing, u, d);
      assert u != t ==> Retired(subs, channels, d);
    }
  }

  lemma MarkKeepsInv(s: System, t: Thread)
    requires Inv(s) && Enabled(s, CloseMark(t))
    ensures Inv(Next(s, CloseMark(t)))
  {
    hide History, ChannelOk;
    if !s.closed {
      var n := Next(s, CloseMark(t));
      forall topic: int, c: Id | c in At(s.subs, topic) ensures InHand(n.closing, t, c) && c < |s.channels| {
        assert OpenFor(s.channels, topic, c);
        assert topic in s.subs && c in s.subs[topic];
      }
      forall d | 0 <= d < |s.channels| ensures Accounted(n.subs, n.channels[d], n.closing, d) {
        assert Accounted(s.subs, s.channels[d], s.closing, d);
        if u :| InHand(s.closing, u, d) {
          assert InHand(n.closing, u, d);
        }
        assert d in At(s.subs, s.channels[d].topic) ==> InHand(n.closing, t, d);
      }
      forall u, d | InHand(n.closing, u, d) ensures Retired(n.subs, n.channels, d) {
        if u != t {
          assert InHand(s.closing, u, d);
          assert Retired(s.subs, s.channels, d);
        } else {
          var topic :| topic in s.subs && d in s.subs[topic];
          assert d in At(s.subs, topic);
        }
      }
    }
  }

  lemma CloseKeepsInv(s: System, t: Thread, c: Id)
    requires Inv(s) && Enabled(s, CloseChannel(t, c))
    ensures Inv(Next(s, CloseChannel(t, c)))
  {
    hide History;
    var ch, n := s.channels[c], Next(s, CloseChannel(t, c));
    assert InHand(s.closing, t, c) && Retired(s.subs, s.channels, c);
    GoodChannel(s.subs, s.channels, s.closed, s.dropped, s.cap, c);
    MarkKeepsChannel(ch, s.cap);
    forall topic: int ensures c !in At(s.subs, topic) {
      assert c in At(s.subs, topic) ==> OpenFor(s.channels, topic, c);
    }
    ChangeKeepsBus(s.subs, s.channels, s.closed, s.dropped, s.cap, c, ch.(closeOnce := true, closed := true));
    SameHistories(s.published, s.publishing, s.channels, n.channels);
    PutDown(s.subs, s.channels, n.channels, s.closing, t, c);
  }

  /** A channel that is closed may leave its closer's hands. */
  lemma PutDown(subs: Subscribers, channels: seq<Channel>, after: seq<Channel>, closing: map<Thread, set<Id>>,
    t: Thread, c: Id)
    requires ClosingOk(subs, channels, closing) && InHand(closing, t, c) && c < |channels| == |after|
    requires after[c].closed && after[c].topic == channels[c].topic && forall d :: 0 <= d < |channels| && d != c ==>
             after[d] == channels[d]
    ensures ClosingOk(subs, after, closing[t := closing[t] - {c}])
  {
    var left := closing[t := closing[t] - {c}];
    forall d | 0 <= d < |after| ensures Accounted(subs, after[d], left, d) {
      assert Accounted(subs, channels[d], closing, d);
      if u :| InHand(closing, u, d) {
        assert d != c ==> InHand(left, u, d);
      }
    }
    forall u, d | InHand(left, u, d) ensures Retired(subs, after, d) {
      assert InHand(closing, u, d);
      assert Retired(subs, channels, d);
    }
  }

  lemma CloseEndKeepsInv(s: System, t: Thread)
    requires Inv(s) && Enabled(s, CloseEnd(t))
    ensures Inv(Next(s, CloseEnd(t)))
  {
    hide BusOk, HistoryOk, PublishersOk;
    var n := Next(s, CloseEnd(t));
    forall d | 0 <= d < |s.channels| ensures Accounted(n.subs, n.channels[d], n.closing, d) {
      assert Accounted(s.subs, s.channels[d], s.closing, d);
      if u :| InHand(s.closing, u, d) {
        assert InHand(n.closing, u, d);
      }
    }
    forall u, d | InHand(n.closing, u, d) ensures Retired(n.subs, n.channels, d) {
      assert InHand(s.closing, u, d);
    }
  }

  lemma DrainKeepsInv(s: System, c: Id)
    requires Inv(s) && Enabled(s, Drain(c))
    ensures Inv(Next(s, Drain(c)))
  {
    hide BusOk, History, ChannelOk;
    var ch, n := s.channels[c], Next(s, Drain(c));
    GoodChannel(s.subs, s.channels, s.closed, s.dropped, s.cap, c);
    MarkKeepsChannel(ch, s.cap);
    ChangeKeepsBus(s.subs, s.channels, s.closed, s.dropped, s.cap, c, n.channels[c]);
    SameHistories(s.published, s.publishing, s.channels, n.channels);
    SameShape(s.subs, s.channels, n.channels, s.closing);
  }

  /** A publisher's sends in some order of its audience, with nobody in between. */
  function SendAll(s: System, t: Thread, order: seq<Id>): System {
    if order == [] then s
    else
      var before := SendAll(s, t, order[..|order| - 1]);
      var step := PublishSend(t, order[|order| - 1]);
      if Enabled(before, step) then Next(before, step) else before
  }

  /** Whatever the order, they leave what the method Publish leaves: Reached has one solution. */
  lemma {:induction false} SendsAreUnordered(s: System, t: Thread, order: seq<Id>)
    requires Inv(s) && t in s.publishing && Distinct(order) && forall c :: c in order ==> c in s.publishing[t].todo
    ensures s.publishing[t].publication < |s.published|
    ensures var n, p := SendAll(s, t, order), s.publishing[t];
            && Inv(n) && n.cap == s.cap && n.published == s.published
            && t in n.publishing && n.publishing[t] == p.(todo := p.todo - Listed(order))
            && Reached(s.channels, n.channels, Listed(order), s.cap, p.publication, s.published[p.publication].event)
    decreases |order|
  {
    hide Inv, Reached, Next, Enabled;
    if order == [] {
      SendNone(s, t);
    } else {
      var front, c := order[..|order| - 1], order[|order| - 1];
      SendsAreUnordered(s, t, front);
      assert order == front + [c];
      var before := SendAll(s, t, front);
      OneMoreSend(before, t, c);
      ReachOne(s.channels, before.channels, Listed(front), s.cap, s.publishing[t].publication,
               s.published[s.publishing[t].publication].event, c);
      assert Listed(order) == Listed(front) + {c};
      assert s.publishing[t].todo - Listed(front) - {c} == s.publishing[t].todo - Listed(order);
    }
  }

  function Listed(order: seq<Id>): (r: set<Id>)
    ensures forall c :: c in r <==> c in order
  { set c | c in order :: c }

  lemma SendNone(s: System, t: Thread)
    requires Inv(s) && t in s.publishing
    ensures s.publishing[t].publication < |s.published|
    ensures var p := s.publishing[t];
            && p.(todo := p.todo - Listed([])) == p
            && Reached(s.channels, s.channels, Listed([]), s.cap, p.publication, s.published[p.publication].event)
  {
    assert PublisherOk(s.subs, s.published, s.publishing[t]);
    assert s.publishing[t].todo - Listed([]) == s.publishing[t].todo;
  }

  lemma OneMoreSend(s: System, t: Thread, c: Id)
    requires Inv(s) && t in s.publishing && c in s.publishing[t].todo
    ensures Enabled(s, PublishSend(t, c)) && c < |s.channels| && s.publishing[t].publication < |s.published|
    ensures var n, p := Next(s, PublishSend(t, c)), s.publishing[t];
            && Inv(n) && n.cap == s.cap && n.published == s.published
            && t in n.publishing && n.publishing[t] == p.(todo := p.todo - {c})
            && n.channels == s.channels[c := Send(s.channels[c], s.cap, p.publication,
               s.published[p.publication].event)]
  {
    hide HistoryOk, ClosingOk, BusOk;
    assert PublisherOk(s.subs, s.published, s.publishing[t]);
    SubscriberIsOpen(s.subs, s.channels, s.closed, s.dropped, s.cap,
        s.published[s.publishing[t].publication].event.topic, c);
    SendKeepsInv(s, t, c);
  }

  lemma InvKept(s: System, step: Step)
    requires Inv(s) && Enabled(s, step)
    ensures Inv(Next(s, step))
  {
    hide Inv, Next;
    match step
    case PublishBegin(t, ev) => BeginKeepsInv(s, t, ev);
    case PublishSend(t, c) => SendKeepsInv(s, t, c);
    case PublishEnd(t) => EndKeepsInv(s, t);
    case Subscribe(topic) => SubscribeKeepsInv(s, topic);
    case Unsubscribe(t, c) => UnsubscribeKeepsInv(s, t, c);
    case CloseMark(t) => MarkKeepsInv(s, t);
    case CloseChannel(t, c) => CloseKeepsInv(s, t, c);
    case CloseEnd(t) => CloseEndKeepsInv(s, t);
    case Drain(c) => DrainKeepsInv(s, c);
  }

  lemma {:induction false} RunKeepsInv(states: seq<System>, i: nat)
    requires Run(states) && i < |states|
    ensures Inv(states[i])
  {
    hide Inv, Next;
    if i > 0 {
      RunKeepsInv(states, i - 1);
      assert Follows(states, i);
      var step :| Leads(states[i - 1], step, states[i]);
      InvKept(states[i - 1], step);
    } else {
      StartOk(states[0].cap);
    }
  }

  lemma StartOk(cap: nat)
    ensures Inv(Start(cap))
  { }
}
