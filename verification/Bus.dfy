/**
 The in-process event bus: a bounded buffer per subscriber, drops instead of waiting, and the order
 "out of the map first, closed second" that keeps publishers off closed channels.

 `InMemoryBus` holds the bus as one object with one critical section per method; BusProtocol
 interleaves those sections.

 Subscriptions are numbered in the order they were made. A channel carries its history: what was
 offered to it, and what its goroutine handed to the handler.
 */
module Bus {
  import opened Prelude

  datatype Event = Event(topic: int, payload: int)

  /** One send of a publication at one channel: `taken` when the buffer had room. */
  datatype Offer = Offer(publication: nat, event: Event, taken: bool)

  datatype Channel = Channel(
    topic: int, buffer: seq<Event>, closed: bool, closeOnce: bool, unsubscribed: bool,
    handed: seq<Event>, offers: seq<Offer>)

  type Id = nat
  type Subscribers = map<int, set<Id>>

  function At(subs: Subscribers, topic: int): set<Id> { if topic in subs then subs[topic] else {} }

  function NewChannel(topic: int): Channel { Channel(topic, [], false, false, false, [], []) }

  /** The non-blocking send of one event: into the buffer if there is room, else dropped. */
  function Send(ch: Channel, cap: nat, publication: nat, ev: Event): Channel {
    if |ch.buffer| < cap
    then ch.(buffer := ch.buffer + [ev], offers := ch.offers + [Offer(publication, ev, true)])
    else ch.(offers := ch.offers + [Offer(publication, ev, false)])
  }

  /** The events a channel took, in the order they were offered. */
  function Taken(offers: seq<Offer>): seq<Event> {
    if offers == [] then []
    else
      var last := offers[|offers| - 1];
      Taken(offers[..|offers| - 1]) + if last.taken then [last.event] else []
  }

  function Drops(offers: seq<Offer>): nat {
    if offers == [] then 0
    else Drops(offers[..|offers| - 1]) + if offers[|offers| - 1].taken then 0 else 1
  }

  function AllDrops(channels: seq<Channel>): nat {
    if channels == [] then 0
    else AllDrops(channels[..|channels| - 1]) + Drops(channels[|channels| - 1].offers)
  }

  function AllOffers(channels: seq<Channel>): nat {
    if channels == [] then 0
    else AllOffers(channels[..|channels| - 1]) + |channels[|channels| - 1].offers|
  }

  function AllTaken(channels: seq<Channel>): nat {
    if channels == [] then 0
    else AllTaken(channels[..|channels| - 1]) + |channels[|channels| - 1].handed| + |channels[|channels| - 1].buffer|
  }

  // ---- The bus as an object ----

  /** Subscription `c` listens to topic `t` on an open channel. */
  predicate OpenFor(channels: seq<Channel>, t: int, c: Id) {
    c < |channels| && channels[c].topic == t && !channels[c].closed
  }

  ghost predicate Registered(subs: Subscribers, channels: seq<Channel>) {
    forall t: int, c: Id :: c in At(subs, t) ==> OpenFor(channels, t, c)
  }

  predicate ChannelOk(ch: Channel, cap: nat) {
    && |ch.buffer| <= cap
    && ch.closed == ch.closeOnce
    && ch.handed + ch.buffer == Taken(ch.offers)
    && forall i :: 0 <= i < |ch.offers| ==> ch.offers[i].event.topic == ch.topic
  }

  ghost predicate BusOk(subs: Subscribers, channels: seq<Channel>, closed: bool, dropped: nat, cap: nat) {
    && Registered(subs, channels)
    && dropped == AllDrops(channels)
    && (closed ==> subs == map[])
    && forall c :: 0 <= c < |channels| ==> ChannelOk(channels[c], cap)
  }

  lemma NoHistoryYet(channels: seq<Channel>, ch: Channel)
    requires ch.offers == []
    ensures AllDrops(channels + [ch]) == AllDrops(channels)
  { assert (channels + [ch])[..|channels|] == channels; }

  lemma NewChannelIs(topic: int, cap: nat)
    ensures var ch := NewChannel(topic); ch.topic == topic && !ch.closed && ch.offers == [] && ChannelOk(ch, cap)
  { }

  lemma SubscribeKeepsBus(subs: Subscribers, channels: seq<Channel>, dropped: nat, cap: nat, topic: int)
    requires BusOk(subs, channels, false, dropped, cap)
    ensures BusOk(subs[topic := At(subs, topic) + {|channels|}], channels + [NewChannel(topic)], false, dropped, cap)
  {
    hide ChannelOk, AllDrops, NewChannel, Taken, Drops;
    var more, listed := channels + [NewChannel(topic)], subs[topic := At(subs, topic) + {|channels|}];
    NewChannelIs(topic, cap);
    NoHistoryYet(channels, NewChannel(topic));
    forall t: int, c: Id | c in At(listed, t) ensures OpenFor(more, t, c) {
      assert c in At(subs, t) ==> OpenFor(channels, t, c);
    }
  }

  /** Taking a subscriber out of its topic takes it out of the map. */
  function Without(subs: Subscribers, topic: int, c: Id): Subscribers {
    if topic in subs then subs[topic := subs[topic] - {c}] else subs
  }

  lemma WithoutKeepsBus(subs: Subscribers, channels: seq<Channel>, closed: bool, dropped: nat, cap: nat, c: Id)
    requires BusOk(subs, channels, closed, dropped, cap) && c < |channels|
    ensures var left := Without(subs, channels[c].topic, c);
            && BusOk(left, channels, closed, dropped, cap)
            && forall t: int :: At(left, t) == At(subs, t) - {c}
  {
    var left := Without(subs, channels[c].topic, c);
    forall t: int ensures At(left, t) == At(subs, t) - {c} {
      if c in At(subs, t) {
        assert OpenFor(channels, t, c);
      }
    }
  }

  /** After the sends to `who`: they have the event, and nobody else has. */
  ghost predicate Reached(before: seq<Channel>, after: seq<Channel>, who: set<Id>, cap: nat, n: nat, ev: Event) {
    && |after| == |before|
    && forall c :: 0 <= c < |before| ==> after[c] == if c in who then Send(before[c], cap, n, ev) else before[c]
  }

  lemma ReachOne(before: seq<Channel>, after: seq<Channel>, who: set<Id>, cap: nat, n: nat, ev: Event, c: Id)
    requires Reached(before, after, who, cap, n, ev) && c !in who && c < |after|
    ensures Reached(before, after[c := Send(after[c], cap, n, ev)], who + {c}, cap, n, ev)
  { }

  lemma NobodyReached(before: seq<Channel>, cap: nat, n: nat, ev: Event)
    ensures Reached(before, before, {}, cap, n, ev)
  { }

  /** A send at a subscriber keeps the bus, and the drop counter goes up exactly when the buffer was full. */
  lemma SendKeepsBus(subs: Subscribers, channels: seq<Channel>, closed: bool, dropped: nat, cap: nat, c: Id, n: nat,
    ev: Event)
    requires BusOk(subs, channels, closed, dropped, cap) && c in At(subs, ev.topic)
    ensures c < |channels|
    ensures BusOk(subs, channels[c := Send(channels[c], cap, n, ev)], closed,
                  if |channels[c].buffer| < cap then dropped else dropped + 1, cap)
  {
    hide Taken, Drops;
    SendKeepsChannel(channels[c], cap, n, ev);
    DropsUpdate(channels, c, Send(channels[c], cap, n, ev));
  }

  /** So does every change to a channel that leaves its history and, if it is subscribed, its openness. */
  lemma ChangeKeepsBus(subs: Subscribers, channels: seq<Channel>, closed: bool, dropped: nat, cap: nat, c: Id,
    ch: Channel)
    requires BusOk(subs, channels, closed, dropped, cap) && c < |channels|
    requires ChannelOk(ch, cap) && ch.offers == channels[c].offers && ch.topic == channels[c].topic
    requires ch.closed && !channels[c].closed ==> forall t :: c !in At(subs, t)
    ensures BusOk(subs, channels[c := ch], closed, dropped, cap)
  { DropsUpdate(channels, c, ch); }

  class InMemoryBus {
    var subs: Subscribers
    var channels: seq<Channel>
    var closed: bool
    var dropped: nat
    const cap: nat

    ghost predicate Valid()
      reads this
    {
      BusOk(subs, channels, closed, dropped, cap)
    }

    constructor (buffer: int)
      ensures Valid() && cap == (if buffer > 0 then buffer else 64)
      ensures subs == map[] && channels == [] && !closed && dropped == 0
    {
      subs, channels, closed, dropped := map[], [], false, 0;
      cap := if buffer > 0 then buffer else 64;
    }

    /** Publish: one send at every current subscriber of the event's topic, and at nobody else. */
    method Publish(publication: nat, ev: Event)
      requires Valid()
      modifies this`channels, this`dropped
      ensures Valid() && Reached(old(channels), channels, At(subs, ev.topic), cap, publication, ev)
    {
      hide Reached, BusOk;
      var audience := At(subs, ev.topic);
      var todo := audience;
      NobodyReached(channels, cap, publication, ev);
      assert audience - todo == {};
      while todo != {}
        invariant Valid() && todo <= audience
        invariant Reached(old(channels), channels, audience - todo, cap, publication, ev)
      {
        var c: Id :| c in todo;
        SendKeepsBus(subs, channels, closed, dropped, cap, c, publication, ev);
        ReachOne(old(channels), channels, audience - todo, cap, publication, ev, c);
        if |channels[c].buffer| >= cap {
          dropped := dropped + 1;
        }
        channels := channels[c := Send(channels[c], cap, publication, ev)];
        assert audience - (todo - {c}) == audience - todo + {c};
        todo := todo - {c};
      }
      assert audience - todo == audience;
    }

    /** Subscribe: a fresh open channel under its topic, and nothing at all on a closed bus. */
    method Subscribe(topic: int) returns (id: Option<Id>)
      requires Valid()
      modifies this`subs, this`channels
      ensures Valid() && (id.Some? <==> !closed)
      ensures id.None? ==> subs == old(subs) && channels == old(channels)
      ensures id.Some? ==> id.value == old(|channels|) && channels == old(channels) + [NewChannel(topic)]
      ensures id.Some? ==> subs == old(subs)[topic := At(old(subs), topic) + {id.value}]
    {
      if closed {
        return None;
      }
      id := Some(|channels|);
      SubscribeKeepsBus(subs, channels, dropped, cap, topic);
      subs := subs[topic := At(subs, topic) + {|channels|}];
      channels := channels + [NewChannel(topic)];
    }

    /** The unsubscribe function: out of the map first, then closed, both at most once. */
    method Unsubscribe(c: Id)
      requires Valid() && c < |channels|
      modifies this`subs, this`channels
      ensures Valid() && |channels| == old(|channels|)
      ensures forall d :: 0 <= d < |channels| && d != c ==> channels[d] == old(channels)[d]
      ensures channels[c].offers == old(channels)[c].offers && channels[c].buffer == old(channels)[c].buffer
      ensures channels[c].handed == old(channels)[c].handed
      ensures old(channels)[c].unsubscribed ==> channels == old(channels) && subs == old(subs)
      ensures !old(channels)[c].unsubscribed ==> channels[c].closed && forall t :: c !in At(subs, t)
      ensures forall t :: At(subs, t) - {c} == At(old(subs), t) - {c}
    {
      if channels[c].unsubscribed {
        return;
      }
      ChangeKeepsBus(subs, channels, closed, dropped, cap, c, channels[c].(unsubscribed := true));
      channels := channels[c := channels[c].(unsubscribed := true)];
      WithoutKeepsBus(subs, channels, closed, dropped, cap, c);
      subs := Without(subs, channels[c].topic, c);
      CloseChannel(c);
    }

    /** closeCh: closeOnce stands between two closers of one channel. */
    method CloseChannel(c: Id)
      requires Valid() && c < |channels| && forall t :: c !in At(subs, t)
      modifies this`channels
      ensures Valid() && channels == old(channels)[c := old(channels)[c].(closeOnce := true, closed := true)]
    {
      if !channels[c].closeOnce {
        ChangeKeepsBus(subs, channels, closed, dropped, cap, c, channels[c].(closeOnce := true, closed := true));
        channels := channels[c := channels[c].(closeOnce := true, closed := true)];
      }
    }

    /** Close: marks, empties the map, then closes every channel that was in it. */
    method Close()
      requires Valid()
      modifies this`subs, this`channels, this`closed
      ensures Valid() && closed && |channels| == old(|channels|)
      ensures old(closed) ==> channels == old(channels)
      ensures !old(closed) ==> forall c :: 0 <= c < |channels| ==>
                                 channels[c] == if c in Everyone(old(subs)) then
                                     old(channels)[c].(closeOnce := true, closed := true)
                                                else old(channels)[c]
    {
      if closed {
        return;
      }
      var drained := Everyone(subs);
      closed, subs := true, map[];
      var todo := drained;
      while todo != {}
        invariant Valid() && closed && subs == map[] && |channels| == old(|channels|) && todo <= drained
        invariant forall c :: 0 <= c < |channels| ==>
                    channels[c] == if c in drained - todo then old(channels)[c].(closeOnce := true, closed := true)
                                   else old(channels)[c]
      {
        var c: Id :| c in todo;
        assert exists t :: t in old(subs) && c in old(subs)[t] && OpenFor(old(channels), t, c);
        CloseChannel(c);
        todo := todo - {c};
      }
    }
  }

  /** Every subscriber of every topic. */
  function Everyone(subs: Subscribers): (r: set<Id>)
    ensures forall c :: c in r <==> exists t :: t in subs && c in subs[t]
  { set t, c | t in subs && c in subs[t] :: c }

  // ---- Counting ----

  lemma {:induction false} DropsUpdate(channels: seq<Channel>, c: Id, ch: Channel)
    requires c < |channels|
    ensures AllDrops(channels[c := ch]) == AllDrops(channels) - Drops(channels[c].offers) + Drops(ch.offers)
  {
    var n := |channels| - 1;
    if c < n {
      assert channels[c := ch][..n] == channels[..n][c := ch];
      DropsUpdate(channels[..n], c, ch);
    } else {
      assert channels[c := ch][..n] == channels[..n];
    }
  }

  lemma SendKeepsChannel(ch: Channel, cap: nat, publication: nat, ev: Event)
    requires ChannelOk(ch, cap) && ev.topic == ch.topic
    ensures ChannelOk(Send(ch, cap, publication, ev), cap)
    ensures Drops(Send(ch, cap, publication, ev).offers) == Drops(ch.offers) + if |ch.buffer| < cap then 0 else 1
  {
    var sent := Send(ch, cap, publication, ev);
    assert sent.offers[..|sent.offers| - 1] == ch.offers;
    assert ch.handed + (ch.buffer + [ev]) == ch.handed + ch.buffer + [ev];
  }

  /** Per channel: what was offered was taken or dropped. */
  lemma {:induction false} OffersSplit(offers: seq<Offer>)
    ensures |offers| == |Taken(offers)| + Drops(offers)
  {
    if offers != [] {
      OffersSplit(offers[..|offers| - 1]);
    }
  }

  lemma {:induction false} AllOffersSplit(channels: seq<Channel>, cap: nat)
    requires forall c :: 0 <= c < |channels| ==> ChannelOk(channels[c], cap)
    ensures AllOffers(channels) == AllTaken(channels) + AllDrops(channels)
  {
    if channels != [] {
      AllOffersSplit(channels[..|channels| - 1], cap);
      OffersSplit(channels[|channels| - 1].offers);
    }
  }
}
