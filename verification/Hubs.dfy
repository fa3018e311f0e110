/**
 * The fan-out hubs: every operation holds the hub's mutex, so an interleaving of callers is a sequence of operations.
 * Channels are positions in a table; sending to or closing a closed channel would panic, so both require an open one.
 */
module Hubs {
  import opened Wrappers

  const CAPACITY := 16

  datatype Event = Event(kind: string, order: nat)

  datatype Chan = Chan(vendor: nat, buf: seq<Event>, closed: bool)

  /** An event published while the channel was subscribed; full tells that the buffer had no room for it. */
  datatype Offer = Offer(event: Event, full: bool)

  /** What happened on a channel: the stretch of the hub's history it was subscribed for, the offers, what was received. */
  datatype Trace = Trace(since: nat, until: Option<nat>, offers: seq<Offer>, received: seq<Event>, unseen: bool)

  datatype Published = Published(vendor: nat, event: Event)

  datatype Hub = Hub(subs: map<nat, set<nat>>, chans: seq<Chan>, traces: seq<Trace>, history: seq<Published>)

  const EMPTY_HUB: Hub := Hub(map[], [], [], [])

  datatype Step =
    | Subscribe(vendor: nat)
    | Unsubscribe(chan: nat)
    | Receive(chan: nat)
    | Publish(vendor: nat, event: Event)

  // ---------------------------------------------------------------- operations on values

  function SubsOf(subs: map<nat, set<nat>>, vendor: nat): set<nat> {
    if vendor in subs then subs[vendor] else {}
  }

  function SubscribeTo(h: Hub, vendor: nat): Hub {
    Hub(h.subs[vendor := SubsOf(h.subs, vendor) + {|h.chans|}],
        h.chans + [Chan(vendor, [], false)],
        h.traces + [Trace(|h.history|, None, [], [], false)],
        h.history)
  }

  /** The unsubscribe function of a channel may be called again: the channel is then no longer in the set. */
  function UnsubscribeFrom(h: Hub, c: nat): Hub
    requires c < |h.chans| == |h.traces|
  {
    var v := h.chans[c].vendor;
    if c !in SubsOf(h.subs, v) then h
    else
      var rest := SubsOf(h.subs, v) - {c};
      Hub(if rest == {} then h.subs - {v} else h.subs[v := rest],
          h.chans[c := h.chans[c].(closed := true)],
          h.traces[c := h.traces[c].(until := Some(|h.history|))],
          h.history)
  }

  function ReceiveFrom(h: Hub, c: nat): Hub
    requires c < |h.chans| == |h.traces|
  {
    var ch := h.chans[c];
    if ch.buf == [] then h
    else
      h.(chans := h.chans[c := ch.(buf := ch.buf[1..])],
         traces := h.traces[c := h.traces[c].(received := h.traces[c].received + [ch.buf[0]], unseen := false)])
  }

  function SendTo(ch: Chan, ev: Event): Chan {
    if |ch.buf| < CAPACITY then ch.(buf := ch.buf + [ev]) else ch
  }

  function OfferTo(t: Trace, ch: Chan, ev: Event): Trace {
    t.(offers := t.offers + [Offer(ev, |ch.buf| >= CAPACITY)], unseen := true)
  }

  function PublishTo(h: Hub, vendor: nat, ev: Event): Hub
    requires |h.chans| == |h.traces|
  {
    var targets := SubsOf(h.subs, vendor);
    h.(chans := seq(|h.chans|, c requires 0 <= c < |h.chans| => if c in targets then SendTo(h.chans[c], ev) else h.chans[c]),
       traces := seq(|h.chans|, c requires 0 <= c < |h.chans| => if c in targets then OfferTo(h.traces[c], h.chans[c], ev) else h.traces[c]),
       history := h.history + [Published(vendor, ev)])
  }

  /** Steps on channels that nobody was given do not occur; they change nothing. */
  function Next(h: Hub, s: Step): Hub
    requires |h.chans| == |h.traces|
  {
    match s
    case Subscribe(v) => SubscribeTo(h, v)
    case Unsubscribe(c) => if c < |h.chans| then UnsubscribeFrom(h, c) else h
    case Receive(c) => if c < |h.chans| then ReceiveFrom(h, c) else h
    case Publish(v, ev) => PublishTo(h, v, ev)
  }

  // ---------------------------------------------------------------- the invariant

  /** The events that found room. */
  function Kept(offers: seq<Offer>): seq<Event> {
    if offers == [] then []
    else
      var last := offers[|offers| - 1];
      Kept(offers[..|offers| - 1]) + if last.full then [] else [last.event]
  }

  function Offered(offers: seq<Offer>): seq<Event> {
    if offers == [] then [] else Offered(offers[..|offers| - 1]) + [offers[|offers| - 1].event]
  }

  function VendorEvents(history: seq<Published>, vendor: nat): seq<Event> {
    if history == [] then []
    else
      var last := history[|history| - 1];
      VendorEvents(history[..|history| - 1], vendor) + if last.vendor == vendor then [last.event] else []
  }

  ghost predicate Stretch(t: Trace, n: nat) {
    var end := if t.until.Some? then t.until.value else n;
    t.since <= end <= n
  }

  function During(t: Trace, history: seq<Published>): seq<Published>
    requires Stretch(t, |history|)
  {
    history[t.since..if t.until.Some? then t.until.value else |history|]
  }

  /**
   * The stream of a subscriber, received and still buffered, is what its vendor published while it was subscribed, in
   * order, less the events that met a full buffer; and it never has an unseen event without a pending one.
   */
  ghost predicate StreamOk(ch: Chan, t: Trace, history: seq<Published>) {
    && |ch.buf| <= CAPACITY
    && (t.until.Some? <==> ch.closed)
    && Stretch(t, |history|)
    && Offered(t.offers) == VendorEvents(During(t, history), ch.vendor)
    && t.received + ch.buf == Kept(t.offers)
    && (t.unseen ==> ch.buf != [])
  }

  /** A channel is in its vendor's set exactly while it is open, and no vendor has an empty set. */
  ghost predicate SubsOk(h: Hub) {
    && (forall v | v in h.subs :: h.subs[v] != {})
    && (forall v: nat, c: nat :: Subscribed(h.subs, v, c) <==> OpenFor(h.chans, v, c))
  }

  ghost predicate Subscribed(subs: map<nat, set<nat>>, v: nat, c: nat) {
    c in SubsOf(subs, v)
  }

  ghost predicate OpenFor(chans: seq<Chan>, v: nat, c: nat) {
    c < |chans| && chans[c].vendor == v && !chans[c].closed
  }

  ghost predicate HubOk(h: Hub) {
    && |h.chans| == |h.traces|
    && SubsOk(h)
    && forall c: nat | c < |h.chans| :: StreamOk(h.chans[c], h.traces[c], h.history)
  }

  lemma OfferSnoc(offers: seq<Offer>, o: Offer)
    ensures Kept(offers + [o]) == Kept(offers) + if o.full then [] else [o.event]
    ensures Offered(offers + [o]) == Offered(offers) + [o.event]
  {
    assert (offers + [o])[..|offers|] == offers;
  }

  lemma EventsSnoc(history: seq<Published>, p: Published, vendor: nat)
    ensures VendorEvents(history + [p], vendor) == VendorEvents(history, vendor) + if p.vendor == vendor then [p.event] else []
  {
    assert (history + [p])[..|history|] == history;
  }

  /** One more publication lengthens the stretch of an open channel and no other. */
  lemma DuringSnoc(t: Trace, history: seq<Published>, p: Published, vendor: nat)
    requires Stretch(t, |history|)
    ensures Stretch(t, |history + [p]|)
    ensures VendorEvents(During(t, history + [p]), vendor) ==
            VendorEvents(During(t, history), vendor) + if t.until.None? && p.vendor == vendor then [p.event] else []
  {
    var next := history + [p];
    if t.until.Some? {
      assert During(t, next) == During(t, history);
    } else {
      assert During(t, next) == During(t, history) + [p];
      EventsSnoc(During(t, history), p, vendor);
    }
  }

  /** A subscriber of the vendor is offered the event. */
  lemma StreamOffered(ch: Chan, t: Trace, history: seq<Published>, ev: Event)
    requires StreamOk(ch, t, history) && !ch.closed
    ensures StreamOk(SendTo(ch, ev), OfferTo(t, ch, ev), history + [Published(ch.vendor, ev)])
  {
    DuringSnoc(OfferTo(t, ch, ev), history, Published(ch.vendor, ev), ch.vendor);
    OfferSnoc(t.offers, Offer(ev, |ch.buf| >= CAPACITY));
    assert During(OfferTo(t, ch, ev), history) == During(t, history);
    assert t.received + (ch.buf + [ev]) == (t.received + ch.buf) + [ev];
  }

  /** One publication, seen from one channel. */
  lemma StreamAfterPublish(ch: Chan, t: Trace, history: seq<Published>, vendor: nat, ev: Event)
    requires StreamOk(ch, t, history)
    ensures var next := history + [Published(vendor, ev)];
            if ch.vendor == vendor && !ch.closed then StreamOk(SendTo(ch, ev), OfferTo(t, ch, ev), next) else StreamOk(ch, t, next)
  {
    DuringSnoc(t, history, Published(vendor, ev), ch.vendor);
    if ch.vendor == vendor && !ch.closed { StreamOffered(ch, t, history, ev); }
  }

  lemma PublishKeeps(h: Hub, vendor: nat, ev: Event)
    requires HubOk(h)
    ensures HubOk(PublishTo(h, vendor, ev))
  {
    var h' := PublishTo(h, vendor, ev);
    forall v: nat, c: nat ensures Subscribed(h'.subs, v, c) <==> OpenFor(h'.chans, v, c) {
      assert Subscribed(h.subs, v, c) <==> OpenFor(h.chans, v, c);
    }
    forall c: nat | c < |h'.chans| ensures StreamOk(h'.chans[c], h'.traces[c], h'.history) {
      assert Subscribed(h.subs, vendor, c) <==> OpenFor(h.chans, vendor, c);
      StreamAfterPublish(h.chans[c], h.traces[c], h.history, vendor, ev);
    }
  }

  lemma ReceiveKeeps(h: Hub, c: nat)
    requires HubOk(h) && c < |h.chans|
    ensures HubOk(ReceiveFrom(h, c))
  {
    var ch, t := h.chans[c], h.traces[c];
    if ch.buf != [] {
      assert ch.buf == [ch.buf[0]] + ch.buf[1..];
      assert t.received + ch.buf == t.received + [ch.buf[0]] + ch.buf[1..];
      var h' := ReceiveFrom(h, c);
      forall v: nat, d: nat ensures Subscribed(h'.subs, v, d) <==> OpenFor(h'.chans, v, d) {
        assert Subscribed(h.subs, v, d) <==> OpenFor(h.chans, v, d);
      }
    }
  }

  lemma UnsubscribeKeeps(h: Hub, c: nat)
    requires HubOk(h) && c < |h.chans|
    ensures HubOk(UnsubscribeFrom(h, c))
    ensures UnsubscribeFrom(UnsubscribeFrom(h, c), c) == UnsubscribeFrom(h, c)
  {
    var v := h.chans[c].vendor;
    if c in SubsOf(h.subs, v) {
      var h' := UnsubscribeFrom(h, c);
      assert Subscribed(h.subs, v, c) <==> OpenFor(h.chans, v, c);
      assert During(h'.traces[c], h.history) == During(h.traces[c], h.history);
      forall u: nat, d: nat
        ensures Subscribed(h'.subs, u, d) <==> OpenFor(h'.chans, u, d)
      {
        assert Subscribed(h.subs, u, d) <==> OpenFor(h.chans, u, d);
        assert d in SubsOf(h.subs, v) && d != c ==> d in SubsOf(h.subs, v) - {c};
        assert Subscribed(h'.subs, u, d) <==> Subscribed(h.subs, u, d) && !(u == v && d == c);
      }
    }
  }

  lemma SubscribeKeeps(h: Hub, vendor: nat)
    requires HubOk(h)
    ensures HubOk(SubscribeTo(h, vendor))
  {
    var h' := SubscribeTo(h, vendor);
    var n := |h.chans|;
    assert During(h'.traces[n], h'.history) == [];
    forall u: nat, d: nat
      ensures Subscribed(h'.subs, u, d) <==> OpenFor(h'.chans, u, d)
    {
      assert Subscribed(h.subs, u, d) <==> OpenFor(h.chans, u, d);
      assert Subscribed(h'.subs, u, d) <==> Subscribed(h.subs, u, d) || (u == vendor && d == n);
    }
  }

  lemma StepKeeps(h: Hub, s: Step)
    requires HubOk(h)
    ensures HubOk(Next(h, s))
  {
    match s
    case Subscribe(v) => SubscribeKeeps(h, v);
    case Unsubscribe(c) => if c < |h.chans| { UnsubscribeKeeps(h, c); }
    case Receive(c) => if c < |h.chans| { ReceiveKeeps(h, c); }
    case Publish(v, ev) => PublishKeeps(h, v, ev);
  }

  function Run(h: Hub, steps: seq<Step>): Hub
    requires HubOk(h)
    decreases |steps|
  {
    if steps == [] then h
    else
      StepKeeps(h, steps[0]);
      Run(Next(h, steps[0]), steps[1..])
  }

  /** Any interleaving from the empty hub keeps every stream and the subscriber sets in order. */
  lemma {:induction false} EveryInterleaving(h: Hub, steps: seq<Step>)
    requires HubOk(h)
    ensures HubOk(Run(h, steps))
    decreases |steps|
  {
    if steps != [] {
      StepKeeps(h, steps[0]);
      EveryInterleaving(Next(h, steps[0]), steps[1..]);
    }
  }

  /** A subscriber that was never offered an event on a full buffer gets exactly what its vendor published. */
  lemma {:induction false} NoDropNoLoss(offers: seq<Offer>)
    requires forall i | 0 <= i < |offers| :: !offers[i].full
    ensures Kept(offers) == Offered(offers)
  {
    if offers != [] { NoDropNoLoss(offers[..|offers| - 1]); }
  }

  // ---------------------------------------------------------------- the hub object

  class BoardHub {
    var subs: map<nat, set<nat>>
    var chans: seq<Chan>
    ghost var traces: seq<Trace>
    ghost var history: seq<Published>

    ghost function State(): Hub
      reads this
    {
      Hub(subs, chans, traces, history)
    }

    constructor ()
      ensures State() == EMPTY_HUB && HubOk(State())
    {
      subs, chans, traces, history := map[], [], [], [];
    }

    /** close(ch): panics on a closed channel. */
    method Close(c: nat)
      requires c < |chans| == |traces| && !chans[c].closed
      modifies this`chans, this`traces
      ensures chans == old(chans)[c := old(chans)[c].(closed := true)]
      ensures traces == old(traces)[c := old(traces)[c].(until := Some(|history|))]
    {
      chans := chans[c := chans[c].(closed := true)];
      traces := traces[c := traces[c].(until := Some(|history|))];
    }

    /** select { case ch <- ev: default: }: panics on a closed channel. */
    method TrySend(c: nat, ev: Event)
      requires c < |chans| == |traces| && !chans[c].closed
      modifies this`chans, this`traces
      ensures chans == old(chans)[c := SendTo(old(chans)[c], ev)]
      ensures traces == old(traces)[c := OfferTo(old(traces)[c], old(chans)[c], ev)]
    {
      traces := traces[c := OfferTo(traces[c], chans[c], ev)];
      if |chans[c].buf| < CAPACITY {
        chans := chans[c := chans[c].(buf := chans[c].buf + [ev])];
      }
    }

    method Subscribe(vendor: nat) returns (c: nat)
      requires HubOk(State())
      modifies this
      ensures HubOk(State()) && State() == SubscribeTo(old(State()), vendor) && c == old(|chans|)
    {
      SubscribeKeeps(State(), vendor);
      c := |chans|;
      chans := chans + [Chan(vendor, [], false)];
      traces := traces + [Trace(|history|, None, [], [], false)];
      if vendor !in subs { subs := subs[vendor := {}]; }
      subs := subs[vendor := subs[vendor] + {c}];
    }

    method Unsubscribe(c: nat)
      requires HubOk(State()) && c < |chans|
      modifies this
      ensures HubOk(State()) && State() == UnsubscribeFrom(old(State()), c)
    {
      UnsubscribeKeeps(State(), c);
      var vendor := chans[c].vendor;
      if vendor !in subs { return; }
      if c in subs[vendor] {
        assert Subscribed(subs, vendor, c);
        subs := subs[vendor := subs[vendor] - {c}];
        Close(c);
      }
      if subs[vendor] == {} { subs := subs - {vendor}; }
    }

    method Receive(c: nat) returns (ev: Option<Event>)
      requires HubOk(State()) && c < |chans|
      modifies this
      ensures HubOk(State()) && State() == ReceiveFrom(old(State()), c)
      ensures ev == if old(chans)[c].buf == [] then None else Some(old(chans)[c].buf[0])
    {
      ReceiveKeeps(State(), c);
      var buf := chans[c].buf;
      if buf == [] { return None; }
      ev := Some(buf[0]);
      chans := chans[c := chans[c].(buf := buf[1..])];
      traces := traces[c := traces[c].(received := traces[c].received + [buf[0]], unseen := false)];
    }

    /** The subscribers in whatever order the set is iterated; none of them is closed. */
    method SendAll(targets: set<nat>, ev: Event)
      requires |chans| == |traces| && forall c | c in targets :: c < |chans| && !chans[c].closed
      modifies this`chans, this`traces
      ensures |chans| == |traces| == old(|chans|)
      ensures forall c: nat | c < |chans| :: chans[c] == if c in targets then SendTo(old(chans)[c], ev) else old(chans)[c]
      ensures forall c: nat | c < |chans| :: traces[c] == if c in targets then OfferTo(old(traces)[c], old(chans)[c], ev) else old(traces)[c]
    {
      var pending := targets;
      while pending != {}
        invariant pending <= targets && |chans| == |traces| == old(|chans|)
        invariant forall c: nat | c < |chans| ::
                    chans[c] == if c in targets - pending then SendTo(old(chans)[c], ev) else old(chans)[c]
        invariant forall c: nat | c < |chans| ::
                    traces[c] == if c in targets - pending then OfferTo(old(traces)[c], old(chans)[c], ev) else old(traces)[c]
      {
        var c :| c in pending;
        TrySend(c, ev);
        pending := pending - {c};
      }
    }

    method Publish(vendor: nat, ev: Event)
      requires HubOk(State())
      modifies this
      ensures HubOk(State()) && State() == PublishTo(old(State()), vendor, ev)
      ensures |chans| == |old(chans)|
      ensures forall c: nat | c < |chans| ::
                if old(chans)[c].vendor == vendor && !old(chans)[c].closed && |old(chans)[c].buf| < 16
                then chans[c] == old(chans)[c].(buf := old(chans)[c].buf + [ev])
                else chans[c] == old(chans)[c]
    {
      PublishKeeps(State(), vendor, ev);
      var targets := SubsOf(subs, vendor);
      forall c: nat ensures c in targets <==> OpenFor(chans, vendor, c) {
        assert Subscribed(subs, vendor, c) <==> OpenFor(chans, vendor, c);
      }
      SendAll(targets, ev);
      history := history + [Published(vendor, ev)];
      assert chans == PublishTo(old(State()), vendor, ev).chans;
      assert traces == PublishTo(old(State()), vendor, ev).traces;
    }
  }

  // ---------------------------------------------------------------- the broadcast hub

  /** A signal channel with room for one signal. */
  datatype Signal = Signal(pending: bool, closed: bool)

  class MenuHub {
    var subs: set<nat>
    var signals: seq<Signal>
    /** How many broadcasts there have been, and how many each channel's reader knew of when it last refetched. */
    ghost var version: nat
    ghost var seen: seq<nat>

    /** Open channels are the subscribed ones; a subscriber has a pending signal exactly while its data is out of date. */
    ghost predicate Valid()
      reads this
    {
      && |seen| == |signals|
      && (forall c: nat :: c in subs <==> c < |signals| && !signals[c].closed)
      && (forall c: nat | c < |signals| && !signals[c].closed :: seen[c] <= version && (signals[c].pending <==> seen[c] < version))
    }

    constructor ()
      ensures Valid() && subs == {} && signals == [] && version == 0
    {
      subs, signals, version, seen := {}, [], 0, [];
    }

    /** The subscriber fetches before it waits. */
    method Subscribe() returns (c: nat)
      requires Valid()
      modifies this
      ensures Valid() && c == old(|signals|) && version == old(version)
      ensures subs == old(subs) + {c} && signals == old(signals) + [Signal(false, false)] && seen == old(seen) + [version]
    {
      c := |signals|;
      signals := signals + [Signal(false, false)];
      seen := seen + [version];
      subs := subs + {c};
    }

    method Unsubscribe(c: nat)
      requires Valid() && c < |signals|
      modifies this
      ensures Valid() && subs == old(subs) - {c} && version == old(version) && seen == old(seen)
      ensures signals == old(signals)[c := old(signals)[c].(closed := true)]
    {
      if c in subs {
        subs := subs - {c};
        assert !signals[c].closed;
        signals := signals[c := signals[c].(closed := true)];
      }
    }

    /** A reader that gets a signal refetches and then knows of every broadcast so far. */
    method Receive(c: nat) returns (got: bool)
      requires Valid() && c < |signals|
      modifies this
      ensures Valid() && subs == old(subs) && version == old(version) && got == old(signals)[c].pending
      ensures signals == if got then old(signals)[c := old(signals)[c].(pending := false)] else old(signals)
      ensures seen == if got then old(seen)[c := version] else old(seen)
      ensures c in subs ==> seen[c] == version
    {
      got := signals[c].pending;
      if got {
        signals := signals[c := signals[c].(pending := false)];
        seen := seen[c := version];
      }
    }

    /** Afterwards every subscriber has one pending signal, and nobody else's channel has changed. */
    method Broadcast()
      requires Valid()
      modifies this
      ensures Valid() && subs == old(subs) && |signals| == |old(signals)| && version == old(version) + 1 && seen == old(seen)
      ensures forall c | c in subs :: c < |signals| && signals[c] == old(signals)[c].(pending := true)
      ensures forall c: nat | c < |signals| && c !in subs :: signals[c] == old(signals)[c]
    {
      var targets := subs;
      while targets != {}
        invariant targets <= subs == old(subs) && |signals| == |old(signals)| && version == old(version) && seen == old(seen)
        invariant forall c: nat | c < |signals| ::
                    signals[c] == if c in subs - targets then old(signals)[c].(pending := true) else old(signals)[c]
      {
        var c :| c in targets;
        if !signals[c].pending { signals := signals[c := signals[c].(pending := true)]; }
        targets := targets - {c};
      }
      version := version + 1;
    }
  }
}
