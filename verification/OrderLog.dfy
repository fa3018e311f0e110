/** The state-event log of every order, the race for an order's closing transition, and the outbox. */
module OrderLog {
  import opened Wrappers
  import opened OrderTypes
  import opened Stock
  import opened OrderDb

  function EventsOf(events: seq<StateEvent>, id: nat): seq<StateEvent> {
    if events == [] then []
    else
      var last := events[|events| - 1];
      EventsOf(events[..|events| - 1], id) + if last.order == id then [last] else []
  }

  /** A path of allowed transitions that starts with the creation as placed. */
  ghost predicate IsPath(es: seq<StateEvent>) {
    && es != [] && es[0].from == None && es[0].to == Placed
    && forall i | 0 < i < |es| :: es[i].from == Some(es[i - 1].to) && CanTransition(es[i - 1].to, es[i].to)
  }

  /** The path ends at the stored status, or one step before it when payroll refunded the order. */
  ghost predicate EndsAt(es: seq<StateEvent>, status: Status)
    requires es != []
  {
    var end := es[|es| - 1].to;
    end == status || (status == Refunded && end in {PickedUp, NoShow})
  }

  ghost predicate OrderLogOk(db: Db, id: nat)
    requires id < |db.orders|
  {
    var es := EventsOf(db.events, id);
    IsPath(es) && EndsAt(es, db.orders[id].status)
  }

  ghost predicate LogOk(db: Db) {
    && (forall id: nat | id < |db.orders| :: OrderLogOk(db, id))
    && (forall i | 0 <= i < |db.events| :: db.events[i].order < |db.orders|)
  }

  // ---------------------------------------------------------------- the filtered log

  lemma EventsSnoc(events: seq<StateEvent>, e: StateEvent, id: nat)
    ensures EventsOf(events + [e], id) == EventsOf(events, id) + if e.order == id then [e] else []
  {
    assert (events + [e])[..|events|] == events;
  }

  lemma {:induction false} NoEvents(events: seq<StateEvent>, id: nat)
    requires forall i | 0 <= i < |events| :: events[i].order != id
    ensures EventsOf(events, id) == []
  {
    if events != [] { NoEvents(events[..|events| - 1], id); }
  }

  /** Appending a stretch with at most one event of the order, at position j. */
  lemma {:induction false} EventsConcat(a: seq<StateEvent>, b: seq<StateEvent>, id: nat)
    ensures EventsOf(a + b, id) == EventsOf(a, id) + EventsOf(b, id)
  {
    if b == [] {
      assert a + b == a;
    } else {
      var init := b[..|b| - 1];
      EventsConcat(a, init, id);
      assert a + b == (a + init) + [b[|b| - 1]];
      EventsSnoc(a + init, b[|b| - 1], id);
    }
  }

  lemma {:induction false} EventsOnce(b: seq<StateEvent>, id: nat, j: nat)
    requires j < |b| && b[j].order == id
    requires forall i | 0 <= i < |b| && i != j :: b[i].order != id
    ensures EventsOf(b, id) == [b[j]]
  {
    var n := |b| - 1;
    if j == n { NoEvents(b[..n], id); } else { EventsOnce(b[..n], id, j); }
  }

  /** One more allowed step keeps the path. */
  lemma PathSnoc(es: seq<StateEvent>, e: StateEvent)
    requires IsPath(es)
    ensures IsPath(es + [e]) <==> e.from == Some(es[|es| - 1].to) && CanTransition(es[|es| - 1].to, e.to)
  {
    var all := es + [e];
    if IsPath(all) {
      assert all[|es|].from == Some(all[|es| - 1].to);
    }
  }

  // ---------------------------------------------------------------- every commit keeps the log

  /** The reads of MarkReady that agree with the stored statuses. */
  ghost predicate FreshReady(db: Db, c: Commit) {
    c.MarkReady? ==>
      forall j | 0 <= j < |c.batch| :: c.batch[j].id < |db.orders| ==> c.batch[j].read.status == db.orders[c.batch[j].id].status
  }

  lemma FlipKeepsLog(db: Db, id: nat, from: Status, to: Status, subject: Subject, action: Action)
    requires LogOk(db) && CanTransition(from, to) && from != Refunded
    requires FlipTx(db, id, from, to, subject, action).Some?
    ensures LogOk(FlipTx(db, id, from, to, subject, action).value)
  {
    var db' := FlipTx(db, id, from, to, subject, action).value;
    var e := StateEvent(id, Some(from), to);
    forall i: nat | i < |db'.orders| ensures OrderLogOk(db', i) {
      EventsSnoc(db.events, e, i);
      assert OrderLogOk(db, i);
      PathSnoc(EventsOf(db.events, i), e);
    }
  }

  lemma PlaceKeepsLog(db: Db, o: Order, action: Action)
    requires LogOk(db) && o.status == Placed && PlaceTx(db, o, action).Some?
    ensures LogOk(PlaceTx(db, o, action).value)
  {
    var db' := PlaceTx(db, o, action).value;
    var n := |db.orders|;
    forall i: nat | i < |db'.orders| ensures OrderLogOk(db', i) {
      EventsSnoc(db.events, StateEvent(n, None, Placed), i);
      if i == n { NoEvents(db.events, n); } else { assert OrderLogOk(db, i); }
    }
  }

  lemma ReadyEvents(db: Db, batch: seq<ReadyRead>, vendor: nat, now: int, id: nat)
    requires CanReady(db, batch, vendor) && id < |db.orders|
    ensures var db' := Readied(db, batch, now);
            && (!Listed(batch, id) ==> EventsOf(db'.events, id) == EventsOf(db.events, id) && db'.orders[id] == db.orders[id])
            && (forall j | 0 <= j < |batch| && batch[j].id == id ::
                  && EventsOf(db'.events, id) == EventsOf(db.events, id) + [StateEvent(id, Some(batch[j].read.status), Ready)]
                  && db'.orders[id].status == Ready)
  {
    var new_ := seq(|batch|, j requires 0 <= j < |batch| => StateEvent(batch[j].id, Some(batch[j].read.status), Ready));
    EventsConcat(db.events, new_, id);
    if !Listed(batch, id) {
      NoEvents(new_, id);
      assert EventsOf(db.events, id) + [] == EventsOf(db.events, id);
    }
    forall j | 0 <= j < |batch| && batch[j].id == id
      ensures EventsOf(db.events + new_, id) == EventsOf(db.events, id) + [StateEvent(id, Some(batch[j].read.status), Ready)]
      ensures Readied(db, batch, now).orders[id].status == Ready
    {
      EventsOnce(new_, id, j);
      assert Listed(batch, id);
    }
  }

  lemma ReadyKeepsLog(db: Db, batch: seq<ReadyRead>, vendor: nat, now: int)
    requires LogOk(db) && CanReady(db, batch, vendor)
    requires forall j | 0 <= j < |batch| :: batch[j].read.status == db.orders[batch[j].id].status
    ensures LogOk(Readied(db, batch, now))
  {
    var db' := Readied(db, batch, now);
    forall i: nat | i < |db'.orders| ensures OrderLogOk(db', i) {
      ReadyEvents(db, batch, vendor, now, i);
      assert OrderLogOk(db, i);
      if Listed(batch, i) {
        var j :| 0 <= j < |batch| && batch[j].id == i;
        PathSnoc(EventsOf(db.events, i), StateEvent(i, Some(batch[j].read.status), Ready));
      }
    }
  }

  /** Each commit whose MarkReady reads are fresh extends every order's path by at most one allowed step. */
  lemma CommitKeepsLog(db: Db, c: Commit)
    requires LogOk(db) && FreshReady(db, c)
    ensures LogOk(Next(db, c))
  {
    if Apply(db, c).Some? {
      var db' := Apply(db, c).value;
      match c
      case Place(o, action) => PlaceKeepsLog(db, o.(status := Placed), action);
      case Cancel(id, read) => FlipKeepsLog(db, id, Placed, Cancelled, OrderCancelled, ActCancel);
        var tx := FlipTx(db, id, Placed, Cancelled, OrderCancelled, ActCancel).value;
        forall i: nat | i < |db'.orders| ensures OrderLogOk(db', i) { assert OrderLogOk(tx, i); }
      case MarkReady(batch, vendor, now) => ReadyKeepsLog(db, batch, vendor, now);
      case Pickup(id) => FlipKeepsLog(db, id, Ready, PickedUp, OrderPickedUp, ActPickedUp);
      case NoShowOne(id) => FlipKeepsLog(db, id, Ready, NoShow, OrderNoShow, ActNoShow);
      case CutoffOne(id) => FlipKeepsLog(db, id, Placed, Cutoff, OrderCutoff, ActCutoff);
      case _ =>
        forall i: nat | i < |db'.orders| ensures OrderLogOk(db', i) { assert OrderLogOk(db, i); }
    }
  }

  /**
   * MarkReady reads the statuses outside its transaction but updates placed and cut-off rows alike: a commit keeps the
   * log a path exactly when every status it read is the one it overwrote.
   */
  lemma StaleReadyExactly(db: Db, batch: seq<ReadyRead>, vendor: nat, now: int)
    requires LogOk(db) && CanReady(db, batch, vendor)
    ensures LogOk(Readied(db, batch, now)) <==> forall j | 0 <= j < |batch| :: batch[j].read.status == db.orders[batch[j].id].status
  {
    if forall j | 0 <= j < |batch| :: batch[j].read.status == db.orders[batch[j].id].status {
      ReadyKeepsLog(db, batch, vendor, now);
    } else {
      var j :| 0 <= j < |batch| && batch[j].read.status != db.orders[batch[j].id].status;
      var id := batch[j].id;
      ReadyEvents(db, batch, vendor, now, id);
      assert OrderLogOk(db, id);
      PathSnoc(EventsOf(db.events, id), StateEvent(id, Some(batch[j].read.status), Ready));
      assert !OrderLogOk(Readied(db, batch, now), id);
    }
  }

  // ---------------------------------------------------------------- whole runs of commits

  /** Every order's log is a path to its status in every state of the run. */
  ghost predicate AlwaysLogged(db: Db, cs: seq<Commit>) {
    forall n | 0 <= n <= |cs| :: LogOk(Run(db, cs[..n]))
  }

  /** Every MarkReady commit that goes through read the statuses it overwrites. */
  ghost predicate ReadyReadsFresh(db: Db, cs: seq<Commit>)
    decreases |cs|
  {
    cs != [] ==> (Apply(db, cs[0]).Some? ==> FreshReady(db, cs[0])) && ReadyReadsFresh(Next(db, cs[0]), cs[1..])
  }

  lemma CommitLogExactly(db: Db, c: Commit)
    requires LogOk(db) && Apply(db, c).Some?
    ensures LogOk(Next(db, c)) <==> FreshReady(db, c)
  {
    if c.MarkReady? {
      StaleReadyExactly(db, c.batch, c.vendor, c.now);
    } else {
      CommitKeepsLog(db, c);
    }
  }

  lemma PrefixCommit(db: Db, cs: seq<Commit>, n: nat)
    requires n < |cs|
    ensures Run(db, cs[..n + 1]) == Run(Next(db, cs[0]), cs[1..][..n])
  {
    assert cs[..n + 1][1..] == cs[1..][..n];
  }

  lemma AlwaysLoggedUnfolds(db: Db, cs: seq<Commit>)
    requires cs != []
    ensures AlwaysLogged(db, cs) <==> LogOk(db) && AlwaysLogged(Next(db, cs[0]), cs[1..])
  {
    var next, rest := Next(db, cs[0]), cs[1..];
    assert Run(db, cs[..0]) == db;
    if AlwaysLogged(db, cs) {
      forall n | 0 <= n <= |rest| ensures LogOk(Run(next, rest[..n])) {
        PrefixCommit(db, cs, n);
        assert LogOk(Run(db, cs[..n + 1]));
      }
    }
    if LogOk(db) && AlwaysLogged(next, rest) {
      forall n | 0 <= n <= |cs| ensures LogOk(Run(db, cs[..n])) {
        if n > 0 {
          PrefixCommit(db, cs, n - 1);
          assert LogOk(Run(next, rest[..n - 1]));
        }
      }
    }
  }

  /**
   * Over every run of commits of concurrent callers, on reads however stale: all logs are paths in all states exactly
   * when each MarkReady commit read the statuses it overwrote.
   */
  lemma {:induction false} LoggedRunExactly(db: Db, cs: seq<Commit>)
    requires LogOk(db)
    ensures AlwaysLogged(db, cs) <==> ReadyReadsFresh(db, cs)
    decreases |cs|
  {
    if cs == [] {
      assert Run(db, []) == db;
    } else {
      var next := Next(db, cs[0]);
      AlwaysLoggedUnfolds(db, cs);
      if Apply(db, cs[0]).Some? { CommitLogExactly(db, cs[0]); }
      if LogOk(next) {
        LoggedRunExactly(next, cs[1..]);
      } else {
        assert Run(next, cs[1..][..0]) == next;
      }
    }
  }

  /** The rank at each position bounds the length of a path. */
  lemma {:induction false} PathRank(es: seq<StateEvent>, i: nat)
    requires IsPath(es) && i < |es|
    ensures Rank(es[i].to) >= i + 1
  {
    if i > 0 {
      PathRank(es, i - 1);
      assert CanTransition(es[i - 1].to, es[i].to);
    }
  }

  /** Status changes of an order after it was placed: its later events, and a refund that wrote none. */
  ghost function StepsAfterPlaced(db: Db, id: nat): int
    requires LogOk(db) && id < |db.orders|
  {
    assert OrderLogOk(db, id);
    var es := EventsOf(db.events, id);
    |es| - 1 + if es[|es| - 1].to != db.orders[id].status then 1 else 0
  }

  lemma AtMostFourSteps(db: Db, id: nat)
    requires LogOk(db) && id < |db.orders|
    ensures StepsAfterPlaced(db, id) <= 4
  {
    assert OrderLogOk(db, id);
    var es := EventsOf(db.events, id);
    PathRank(es, |es| - 1);
  }

  // ---------------------------------------------------------------- races

  predicate Closes(c: Commit, id: nat) {
    match c
    case Cancel(i, _) => i == id
    case Pickup(i) => i == id
    case NoShowOne(i) => i == id
    case _ => false
  }

  function Wins(db: Db, cs: seq<Commit>, id: nat): nat
    decreases |cs|
  {
    if cs == [] then 0
    else (if Closes(cs[0], id) && Apply(db, cs[0]).Some? then 1 else 0) + Wins(Next(db, cs[0]), cs[1..], id)
  }

  /** No commit, on fresh or stale reads, lowers the rank of an order or drops one. */
  lemma CommitRaisesRank(db: Db, c: Commit, id: nat)
    ensures |Next(db, c).orders| >= |db.orders|
    ensures id < |db.orders| ==> Rank(Next(db, c).orders[id].status) >= Rank(db.orders[id].status)
  {
    if c.MarkReady? && Apply(db, c).Some? && id < |db.orders| && Listed(c.batch, id) {
      var j :| 0 <= j < |c.batch| && c.batch[j].id == id;
      assert db.orders[id].status in {Placed, Cutoff};
    }
  }

  /** However many callers race, one Cancel, Pickup or no-show of an order wins at most, and none once it is closed. */
  lemma {:induction false} OneCloserWins(db: Db, cs: seq<Commit>, id: nat)
    ensures Wins(db, cs, id) <= 1
    ensures id < |db.orders| && Rank(db.orders[id].status) >= 4 ==> Wins(db, cs, id) == 0
    decreases |cs|
  {
    if cs != [] {
      CommitRaisesRank(db, cs[0], id);
      OneCloserWins(Next(db, cs[0]), cs[1..], id);
    }
  }

  // ---------------------------------------------------------------- outbox and audit

  function Target(s: Subject): Status {
    match s
    case OrderPlaced => Placed
    case OrderModified => Placed
    case OrderCancelled => Cancelled
    case OrderCutoff => Cutoff
    case OrderReady => Ready
    case OrderPickedUp => PickedUp
    case OrderNoShow => NoShow
  }

  /** The transitions that the outbox announces, in order: modifications announce none. */
  function Announced(outbox: seq<Message>): seq<(nat, Status)> {
    if outbox == [] then []
    else
      var last := outbox[|outbox| - 1];
      Announced(outbox[..|outbox| - 1]) + if last.subject == OrderModified then [] else [(last.order, Target(last.subject))]
  }

  function Happened(events: seq<StateEvent>): seq<(nat, Status)> {
    seq(|events|, i requires 0 <= i < |events| => (events[i].order, events[i].to))
  }

  function ActionOf(a: Action): Subject {
    match a
    case ActPlace => OrderPlaced
    case ActReorder => OrderPlaced
    case ActModify => OrderModified
    case ActCancel => OrderCancelled
    case ActCutoff => OrderCutoff
    case ActReady => OrderReady
    case ActPickedUp => OrderPickedUp
    case ActNoShow => OrderNoShow
  }

  /** The outbox announces exactly the logged transitions in their order, and the audit log mirrors the outbox row by row. */
  ghost predicate Published(db: Db) {
    && Announced(db.outbox) == Happened(db.events)
    && |db.outbox| == |db.audit|
    && forall i | 0 <= i < |db.outbox| :: db.audit[i].order == db.outbox[i].order && ActionOf(db.audit[i].action) == db.outbox[i].subject
  }

  lemma AnnouncedSnoc(outbox: seq<Message>, m: Message)
    ensures Announced(outbox + [m]) == Announced(outbox) + if m.subject == OrderModified then [] else [(m.order, Target(m.subject))]
  {
    assert (outbox + [m])[..|outbox|] == outbox;
  }

  lemma {:induction false} AnnouncedConcat(outbox: seq<Message>, ms: seq<Message>)
    ensures Announced(outbox + ms) == Announced(outbox) + Announced(ms)
  {
    if ms == [] {
      assert outbox + ms == outbox;
    } else {
      var init, last := ms[..|ms| - 1], ms[|ms| - 1];
      AnnouncedConcat(outbox, init);
      assert outbox + ms == (outbox + init) + [last];
      AnnouncedSnoc(outbox + init, last);
    }
  }

  /** Without modifications among them, messages announce one transition each. */
  lemma {:induction false} AnnouncedEach(ms: seq<Message>)
    requires forall i | 0 <= i < |ms| :: ms[i].subject != OrderModified
    ensures |Announced(ms)| == |ms|
    ensures forall i | 0 <= i < |ms| :: Announced(ms)[i] == (ms[i].order, Target(ms[i].subject))
  {
    if ms != [] { AnnouncedEach(ms[..|ms| - 1]); }
  }

  /** One event, one message and one audit row about the same transition. */
  lemma OneMorePublished(db: Db, db': Db, subject: Subject, action: Action, id: nat)
    requires Published(db) && ActionOf(action) == subject
    requires db'.outbox == db.outbox + [Message(subject, id)] && db'.audit == db.audit + [AuditRow(action, id)]
    requires if subject == OrderModified then db'.events == db.events
             else |db'.events| == |db.events| + 1 && db'.events[..|db.events|] == db.events
                  && db'.events[|db.events|].order == id && db'.events[|db.events|].to == Target(subject)
    ensures Published(db')
  {
    AnnouncedSnoc(db.outbox, Message(subject, id));
    if subject == OrderModified {
      assert Announced(db.outbox) + [] == Announced(db.outbox);
    } else {
      assert Happened(db'.events) == Happened(db.events) + [(id, Target(subject))];
    }
  }

  lemma ReadyPublishes(db: Db, batch: seq<ReadyRead>, now: int)
    requires Published(db)
    ensures Published(Readied(db, batch, now))
  {
    var db' := Readied(db, batch, now);
    var ms := seq(|batch|, j requires 0 <= j < |batch| => Message(OrderReady, batch[j].id));
    AnnouncedConcat(db.outbox, ms);
    AnnouncedEach(ms);
    assert Happened(db'.events) == Happened(db.events) + Announced(ms);
  }

  lemma FlipPublishes(db: Db, id: nat, from: Status, to: Status, subject: Subject, action: Action)
    requires Published(db) && FlipTx(db, id, from, to, subject, action).Some?
    requires ActionOf(action) == subject && Target(subject) == to && subject != OrderModified
    ensures Published(FlipTx(db, id, from, to, subject, action).value)
  {
    OneMorePublished(db, FlipTx(db, id, from, to, subject, action).value, subject, action, id);
  }

  lemma PlacePublishes(db: Db, o: Order, action: Action)
    requires Published(db) && action in {ActPlace, ActReorder} && PlaceTx(db, o, action).Some?
    ensures Published(PlaceTx(db, o, action).value)
  {
    OneMorePublished(db, PlaceTx(db, o, action).value, OrderPlaced, action, |db.orders|);
  }

  lemma CancelPublishes(db: Db, id: nat, read: Order)
    requires Published(db) && CancelTx(db, id, read).Some?
    ensures Published(CancelTx(db, id, read).value)
  {
    FlipPublishes(db, id, Placed, Cancelled, OrderCancelled, ActCancel);
  }

  lemma UnloggedCommit(db: Db, c: Commit)
    requires Apply(db, c).Some? && (c.Refund? || c.SetCapacity? || c.SetSoldOut?)
    ensures var db' := Apply(db, c).value; db'.events == db.events && db'.outbox == db.outbox && db'.audit == db.audit
  {
  }

  lemma ModifyPublishes(db: Db, id: nat, read: Order, lines: seq<Line>, notes: string)
    requires Published(db) && ModifyTx(db, id, read, lines, notes).Some?
    ensures Published(ModifyTx(db, id, read, lines, notes).value)
  {
    OneMorePublished(db, ModifyTx(db, id, read, lines, notes).value, OrderModified, ActModify, id);
  }

  /** Each successful commit writes its event, its message and its audit row together; a failed one writes none. */
  lemma CommitPublishes(db: Db, c: Commit)
    requires Published(db)
    requires c.Place? ==> c.action in {ActPlace, ActReorder}
    ensures Published(Next(db, c))
  {
    if Apply(db, c).Some? {
      match c
      case Place(o, action) => PlacePublishes(db, o.(status := Placed), action);
      case Cancel(id, read) => CancelPublishes(db, id, read);
      case Modify(id, read, lines, notes) => ModifyPublishes(db, id, read, lines, notes);
      case MarkReady(batch, vendor, now) => ReadyPublishes(db, batch, now);
      case Pickup(id) => FlipPublishes(db, id, Ready, PickedUp, OrderPickedUp, ActPickedUp);
      case NoShowOne(id) => FlipPublishes(db, id, Ready, NoShow, OrderNoShow, ActNoShow);
      case CutoffOne(id) => FlipPublishes(db, id, Placed, Cutoff, OrderCutoff, ActCutoff);
      case _ => UnloggedCommit(db, c);
    }
  }
}
