/** What the event bus guarantees on every run. */
module BusRuns {
  import opened Prelude
  import opened Bus
  import opened BusProtocol

  /** Nothing panics: no channel is sent to after its close, none is closed twice. */
  lemma NoPanic(states: seq<System>, i: nat)
    requires Run(states) && i < |states|
    ensures !states[i].panicked
    ensures forall t, c :: t in states[i].publishing && c in states[i].publishing[t].todo ==>
                             c < |states[i].channels| && !states[i].channels[c].closed
  {
    RunKeepsInv(states, i);
    var s := states[i];
    forall t, c | t in s.publishing && c in s.publishing[t].todo ensures c < |s.channels| && !s.channels[c].closed {
      assert PublisherOk(s.subs, s.published, s.publishing[t]);
      assert OpenFor(s.channels, s.published[s.publishing[t].publication].event.topic, c);
    }
  }

  function Events(offers: seq<Offer>): seq<Event> { seq(|offers|, i requires 0 <= i < |offers| => offers[i].event) }

  /** `a` is what is left of `b` when some of its elements are struck out. */
  predicate InOrder(a: seq<Event>, b: seq<Event>) {
    if a == [] then true
    else if b == [] then false
    else if a[|a| - 1] == b[|b| - 1] && InOrder(a[..|a| - 1], b[..|b| - 1]) then true
    else InOrder(a, b[..|b| - 1])
  }

  lemma {:induction false} TakenInOrder(offers: seq<Offer>)
    ensures InOrder(Taken(offers), Events(offers))
  {
    if offers != [] {
      var n := |offers| - 1;
      TakenInOrder(offers[..n]);
      assert Events(offers)[..n] == Events(offers[..n]);
      if offers[n].taken {
        assert Taken(offers)[..|Taken(offers)| - 1] == Taken(offers[..n]);
      } else {
        assert Taken(offers) == Taken(offers[..n]);
      }
    }
  }

  /**
   A publication reaches everyone who is subscribed to its topic when it begins, once each and whatever the order,
   and nobody else; then it may end.
   */
  lemma PublishReaches(states: seq<System>, t: Thread, ev: Event, order: seq<Id>)
    requires Run(states) && Enabled(states[|states| - 1], PublishBegin(t, ev)) && Distinct(order)
    requires forall c :: c in order <==> c in At(states[|states| - 1].subs, ev.topic)
    ensures var s := states[|states| - 1];
            var n := SendAll(Next(s, PublishBegin(t, ev)), t, order);
            && Reached(s.channels, n.channels, At(s.subs, ev.topic), s.cap, |s.published|, ev)
            && Enabled(n, PublishEnd(t)) && n.published == s.published + [Publication(ev, At(s.subs, ev.topic))]
  {
    var s := states[|states| - 1];
    RunKeepsInv(states, |states| - 1);
    InvKept(s, PublishBegin(t, ev));
    var begun := Next(s, PublishBegin(t, ev));
    assert begun.publishing[t] == Publishing(|s.published|, At(s.subs, ev.topic)) && begun.channels == s.channels;
    hide Inv, Next, Reached;
    SendsAreUnordered(begun, t, order);
    assert Listed(order) == At(s.subs, ev.topic);
  }

  /**
   What a subscriber has been handed and still has buffered is, in order, a selection of the events
   offered to it; and those are, once each, the publications it was in the audience of, but for the
   ones still on their way. The buffer never outgrows its bound.
   */
  lemma DeliveredInOrder(states: seq<System>, i: nat, c: Id)
    requires Run(states) && i < |states| && c < |states[i].channels|
    ensures var s := states[i];
            var ch := s.channels[c];
            && InOrder(ch.handed + ch.buffer, Events(ch.offers))
            && NoRepeat(ch.offers)
            && (forall n :: 0 <= n < |s.published| ==>
                  (Offered(ch.offers, n) <==> c in s.published[n].audience && !Pending(s.publishing, n, c)))
            && (forall k :: 0 <= k < |ch.offers| ==>
                  Authentic(s.published, ch.offers[k]) && ch.offers[k].event.topic == ch.topic)
            && |ch.buffer| <= s.cap
  {
    hide InOrder, Taken;
    RunKeepsInv(states, i);
    var s := states[i];
    TakenInOrder(s.channels[c].offers);
    assert ChannelOk(s.channels[c], s.cap);
    assert History(s.published, s.publishing, s.channels[c].offers, c);
  }

  /** Every send ever attempted was accepted or counted as dropped. */
  lemma AttemptsAccounted(states: seq<System>, i: nat)
    requires Run(states) && i < |states|
    ensures var s := states[i]; AllOffers(s.channels) == AllTaken(s.channels) + s.dropped
  {
    RunKeepsInv(states, i);
    AllOffersSplit(states[i].channels, states[i].cap);
  }

  /** Once the bus is closed and no closer is at work, every channel ever made is closed. */
  lemma NoLeak(states: seq<System>, i: nat, c: Id)
    requires Run(states) && i < |states| && c < |states[i].channels|
    requires states[i].closed && forall t :: t in states[i].closing ==> states[i].closing[t] == {}
    ensures states[i].channels[c].closed
  {
    RunKeepsInv(states, i);
    var s := states[i];
    assert Accounted(s.subs, s.channels[c], s.closing, c);
  }

  /** A channel only gains history, and from its close on it is offered nothing more. */
  ghost predicate Grows(ch: Channel, later: Channel) {
    && ch.topic == later.topic
    && (ch.closed ==> later.closed && later.offers == ch.offers)
    && ch.offers <= later.offers && ch.handed <= later.handed
  }

  lemma StepGrows(s: System, step: Step, c: Id)
    requires Inv(s) && Enabled(s, step) && c < |s.channels|
    ensures c < |Next(s, step).channels| && Grows(s.channels[c], Next(s, step).channels[c])
  {
    hide BusOk, HistoryOk, ClosingOk, AudiencesOk;
    if step.PublishSend? {
      assert PublisherOk(s.subs, s.published, s.publishing[step.thread]);
      SubscriberIsOpen(s.subs, s.channels, s.closed, s.dropped, s.cap,
          s.published[s.publishing[step.thread].publication].event.topic, step.id);
    }
  }

  lemma {:induction false} ClosedIsFinal(states: seq<System>, i: nat, j: nat, c: Id)
    requires Run(states) && i <= j < |states| && c < |states[i].channels|
    ensures c < |states[j].channels| && Grows(states[i].channels[c], states[j].channels[c])
    decreases j
  {
    hide Inv, Next;
    if i < j {
      ClosedIsFinal(states, i, j - 1, c);
      RunKeepsInv(states, j - 1);
      assert Follows(states, j);
      var step :| Leads(states[j - 1], step, states[j]);
      StepGrows(states[j - 1], step, c);
    }
  }
}
