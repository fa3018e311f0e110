/** The rolling window of pickups and no-shows per vendor, and the anomaly it opens. */
module OnTimeRate {
  import opened Wrappers

  datatype Event = Event(at: int, pickedUp: bool)

  datatype Config = Config(window: int, threshold: real, highThreshold: real, minSamples: int)

  datatype Severity = Medium | High

  datatype Anomaly = Anomaly(vendor: nat, severity: Severity, total: nat, pickedUp: nat)

  const WEEK := 7 * 24 * 3600

  function WithDefaults(c: Config): Config {
    Config(if c.window <= 0 then WEEK else c.window,
           if c.threshold == 0.0 then 0.95 else c.threshold,
           if c.highThreshold == 0.0 then 0.90 else c.highThreshold,
           if c.minSamples == 0 then 10 else c.minSamples)
  }

  /** The events strictly after the cutoff, in order. */
  function After(events: seq<Event>, cutoff: int): seq<Event> {
    if events == [] then []
    else
      var last := events[|events| - 1];
      After(events[..|events| - 1], cutoff) + if last.at > cutoff then [last] else []
  }

  function PickedUp(events: seq<Event>): nat {
    if events == [] then 0 else PickedUp(events[..|events| - 1]) + if events[|events| - 1].pickedUp then 1 else 0
  }

  function Rate(picked: nat, total: nat): real
    requires total > 0
  {
    picked as real / total as real
  }

  function Verdict(c: Config, vendor: nat, stored: seq<Event>): Option<Anomaly> {
    var total, picked := |stored|, PickedUp(stored);
    if total < c.minSamples || total == 0 || Rate(picked, total) >= c.threshold then None
    else Some(Anomaly(vendor, if Rate(picked, total) < c.highThreshold then High else Medium, total, picked))
  }

  /** Keeps the events after the cutoff at the front of the same array, writing only behind the reader. */
  method Compact(events: array<Event>, cutoff: int) returns (n: nat)
    modifies events
    ensures n <= events.Length && events[..n] == After(old(events[..]), cutoff)
  {
    n := 0;
    ghost var all := events[..];
    for i := 0 to events.Length
      invariant n <= i
      invariant events[..n] == After(all[..i], cutoff)
      invariant forall k | i <= k < events.Length :: events[k] == all[k]
    {
      ghost var kept := events[..n];
      assert all[..i + 1] == all[..i] + [all[i]];
      AfterSnoc(all[..i], all[i], cutoff);
      if events[i].at > cutoff {
        events[n] := events[i];
        n := n + 1;
        assert events[..n] == kept + [all[i]];
      }
    }
    assert all[..events.Length] == all;
  }

  /** Appends the event, compacts in place and copies what is left; the new event is always among it. */
  method Prune(before: seq<Event>, ev: Event, window: int) returns (stored: seq<Event>)
    requires window > 0
    ensures stored == After(before + [ev], ev.at - window) && stored != []
  {
    var events := new Event[|before| + 1](i requires 0 <= i < |before| + 1 => if i < |before| then before[i] else ev);
    assert events[..] == before + [ev];
    var n := Compact(events, ev.at - window);
    NewestStays(before, ev, window);
    stored := events[..n];
  }

  /** The counting loop and the comparison with the thresholds. */
  method Judge(c: Config, vendor: nat, stored: seq<Event>) returns (verdict: Option<Anomaly>)
    requires stored != []
    ensures verdict == Verdict(c, vendor, stored)
  {
    var picked := 0;
    for i := 0 to |stored|
      invariant picked == PickedUp(stored[..i])
    {
      assert stored[..i + 1][..i] == stored[..i];
      if stored[i].pickedUp { picked := picked + 1; }
    }
    assert stored[..|stored|] == stored;
    if |stored| < c.minSamples { return None; }
    var rate := Rate(picked, |stored|);
    if rate >= c.threshold { return None; }
    return Some(Anomaly(vendor, if rate < c.highThreshold then High else Medium, |stored|, picked));
  }

  class Evaluator {
    const config: Config
    var data: map<nat, seq<Event>>
    var anomalies: seq<Anomaly>

    constructor (c: Config)
      ensures config == WithDefaults(c) && data == map[] && anomalies == []
      ensures config.window == (if c.window <= 0 then 604800 else c.window) && config.minSamples == (if c.minSamples == 0 then 10 else c.minSamples)
      ensures config.threshold == (if c.threshold == 0.0 then 0.95 else c.threshold)
      ensures config.highThreshold == (if c.highThreshold == 0.0 then 0.90 else c.highThreshold)
    {
      config, data, anomalies := WithDefaults(c), map[], [];
    }

    /** A message without a vendor is acknowledged and ignored; any other replaces its vendor's window and no other. */
    method Handle(vendor: Option<nat>, pickedUp: bool, now: int)
      requires config.window > 0
      modifies this
      ensures vendor.None? ==> data == old(data) && anomalies == old(anomalies)
      ensures vendor.Some? ==> data == Handled(old(data), vendor.value, Event(now, pickedUp), config.window)
      ensures vendor.Some? ==>
                var verdict := Verdict(config, vendor.value, data[vendor.value]);
                anomalies == if verdict.Some? then old(anomalies) + [verdict.value] else old(anomalies)
    {
      if vendor.None? { return; }
      var v := vendor.value;
      var before := if v in data then data[v] else [];
      var stored := Prune(before, Event(now, pickedUp), config.window);
      data := data[v := stored];
      var verdict := Judge(config, v, stored);
      if verdict.Some? { anomalies := anomalies + [verdict.value]; }
    }
  }

  /** The table after one event. */
  function Handled(data: map<nat, seq<Event>>, vendor: nat, ev: Event, window: int): map<nat, seq<Event>> {
    data[vendor := After((if vendor in data then data[vendor] else []) + [ev], ev.at - window)]
  }

  /** The new event is always in its own window, so the rate never divides by zero. */
  lemma NewestStays(before: seq<Event>, ev: Event, window: int)
    requires window > 0
    ensures var stored := After(before + [ev], ev.at - window); stored != [] && stored[|stored| - 1] == ev
  {
  }

  // ---------------------------------------------------------------- the window is a filter of the history

  datatype Message = Message(vendor: nat, event: Event)

  function Replay(messages: seq<Message>, window: int): map<nat, seq<Event>> {
    if messages == [] then map[]
    else
      var last := messages[|messages| - 1];
      Handled(Replay(messages[..|messages| - 1], window), last.vendor, last.event, window)
  }

  function HistoryOf(messages: seq<Message>, vendor: nat): seq<Event> {
    if messages == [] then []
    else
      var last := messages[|messages| - 1];
      HistoryOf(messages[..|messages| - 1], vendor) + if last.vendor == vendor then [last.event] else []
  }

  ghost predicate ClockForward(messages: seq<Message>) {
    forall i, j | 0 <= i < j < |messages| :: messages[i].event.at <= messages[j].event.at
  }

  lemma {:induction false} AfterAfter(events: seq<Event>, early: int, late: int)
    requires early <= late
    ensures After(After(events, early), late) == After(events, late)
  {
    if events != [] {
      var init, last := events[..|events| - 1], events[|events| - 1];
      AfterAfter(init, early, late);
      var kept := After(init, early);
      if last.at > early {
        assert (kept + [last])[..|kept|] == kept;
      } else {
        assert kept + [] == kept;
      }
    }
  }

  /** Kept are exactly the events later than the cutoff; one at the cutoff is dropped. */
  lemma {:induction false} AfterExactly(events: seq<Event>, cutoff: int, e: Event)
    ensures e in After(events, cutoff) <==> e in events && cutoff < e.at
  {
    if events != [] {
      AfterExactly(events[..|events| - 1], cutoff, e);
      assert events == events[..|events| - 1] + [events[|events| - 1]];
    }
  }

  lemma AfterSnoc(events: seq<Event>, ev: Event, cutoff: int)
    ensures After(events + [ev], cutoff) == After(events, cutoff) + if ev.at > cutoff then [ev] else []
  {
    assert (events + [ev])[..|events|] == events;
  }

  lemma {:induction false} HistoryBefore(messages: seq<Message>, vendor: nat, now: int)
    requires forall i | 0 <= i < |messages| :: messages[i].event.at <= now
    ensures forall i | 0 <= i < |HistoryOf(messages, vendor)| :: HistoryOf(messages, vendor)[i].at <= now
  {
    if messages != [] { HistoryBefore(messages[..|messages| - 1], vendor, now); }
  }

  /** The count is that of the positions picked up. */
  lemma {:induction false} PickedUpCounts(events: seq<Event>)
    ensures PickedUp(events) == |set i | 0 <= i < |events| && events[i].pickedUp|
  {
    if events != [] {
      var n := |events| - 1;
      var init := events[..n];
      PickedUpCounts(init);
      var all, before := set i | 0 <= i < |events| && events[i].pickedUp, set i | 0 <= i < |init| && init[i].pickedUp;
      assert all == before + if events[n].pickedUp then {n} else {};
    }
  }

  /** What a vendor's window should hold: its history after (its last event - window). */
  function Expected(history: seq<Event>, window: int): seq<Event> {
    if history == [] then [] else After(history, history[|history| - 1].at - window)
  }

  lemma StoredIsEnough(history: seq<Event>, ev: Event, window: int)
    requires history != [] ==> history[|history| - 1].at <= ev.at
    ensures After(Expected(history, window), ev.at - window) == After(history, ev.at - window)
  {
    if history != [] {
      var early := history[|history| - 1].at - window;
      AfterAfter(history, early, ev.at - window);
      assert Expected(history, window) == After(history, early);
    }
  }

  lemma KeepsAlike(a: seq<Event>, b: seq<Event>, ev: Event, cutoff: int)
    requires After(a, cutoff) == After(b, cutoff)
    ensures After(a + [ev], cutoff) == After(b + [ev], cutoff)
  {
    AfterSnoc(a, ev, cutoff);
    AfterSnoc(b, ev, cutoff);
  }

  lemma ExpectedSnoc(history: seq<Event>, ev: Event, window: int)
    ensures Expected(history + [ev], window) == After(history + [ev], ev.at - window)
  {
    assert (history + [ev])[|history|] == ev;
  }

  /** Filtering the stored window again is filtering the history with the later cutoff. */
  lemma WindowMoves(history: seq<Event>, ev: Event, window: int)
    requires history != [] ==> history[|history| - 1].at <= ev.at
    ensures After(Expected(history, window) + [ev], ev.at - window) == Expected(history + [ev], window)
  {
    var cutoff, kept := ev.at - window, Expected(history, window);
    StoredIsEnough(history, ev, window);
    KeepsAlike(kept, history, ev, cutoff);
    ExpectedSnoc(history, ev, window);
  }

  ghost predicate WindowHolds(stored: map<nat, seq<Event>>, history: seq<Event>, vendor: nat, window: int) {
    && (vendor in stored <==> history != [])
    && (vendor in stored ==> stored[vendor] == Expected(history, window))
  }

  lemma OwnEvent(stored: map<nat, seq<Event>>, history: seq<Event>, vendor: nat, ev: Event, window: int)
    requires WindowHolds(stored, history, vendor, window)
    requires history != [] ==> history[|history| - 1].at <= ev.at
    ensures WindowHolds(Handled(stored, vendor, ev, window), history + [ev], vendor, window)
  {
    WindowMoves(history, ev, window);
    assert (if vendor in stored then stored[vendor] else []) == Expected(history, window);
  }

  /**
   * While the clock does not go backwards, every vendor's stored window is, in order, the part of its whole history after
   * (its last event - window); vendors without events have no row, and an event of one vendor touches no other.
   */
  lemma {:induction false} WindowIsFilter(messages: seq<Message>, window: int, vendor: nat)
    requires ClockForward(messages)
    ensures WindowHolds(Replay(messages, window), HistoryOf(messages, vendor), vendor, window)
  {
    if messages != [] {
      var init, last := messages[..|messages| - 1], messages[|messages| - 1];
      WindowIsFilter(init, window, vendor);
      var history := HistoryOf(init, vendor);
      if last.vendor == vendor {
        HistoryBefore(init, vendor, last.event.at);
        OwnEvent(Replay(init, window), history, vendor, last.event, window);
      } else {
        assert history + [] == history;
      }
    }
  }

  /** An anomaly opens exactly when the window has enough samples and the picked-up share is below the threshold. */
  lemma OpensExactly(c: Config, vendor: nat, stored: seq<Event>)
    requires stored != []
    ensures Verdict(c, vendor, stored).Some? <==>
            |stored| >= c.minSamples && PickedUp(stored) as real < c.threshold * |stored| as real
  {
    RateBelow(PickedUp(stored), |stored|, c.threshold);
  }

  /** It is about the vendor, tells the counts, and is high exactly when the share is below the high threshold. */
  lemma SeverityExactly(c: Config, vendor: nat, stored: seq<Event>)
    requires stored != [] && Verdict(c, vendor, stored).Some?
    ensures var a := Verdict(c, vendor, stored).value;
            && (a.severity == High <==> PickedUp(stored) as real < c.highThreshold * |stored| as real)
            && a.vendor == vendor && a.total == |stored| && a.pickedUp == PickedUp(stored)
  {
    RateBelow(PickedUp(stored), |stored|, c.highThreshold);
  }

  lemma RateBelow(picked: nat, total: nat, threshold: real)
    requires total > 0
    ensures Rate(picked, total) < threshold <==> picked as real < threshold * total as real
  {
    var rate, t := Rate(picked, total), total as real;
    assert rate * t == picked as real;
    assert (threshold - rate) * t == threshold * t - picked as real;
    if rate < threshold { assert (threshold - rate) * t > 0.0; }
    if rate >= threshold { assert (rate - threshold) * t >= 0.0; }
  }

  /** With the defaults, ten samples open nothing only when all were picked up; nine of ten is medium, fewer is high. */
  lemma DefaultsOnTenSamples(stored: seq<Event>, vendor: nat)
    requires |stored| == 10
    ensures var c := WithDefaults(Config(0, 0.0, 0.0, 0));
            match Verdict(c, vendor, stored)
            case None => PickedUp(stored) >= 10
            case Some(a) => PickedUp(stored) <= 9 && (a.severity == High <==> PickedUp(stored) <= 8)
  {
  }
}
