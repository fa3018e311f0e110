/** Runs from empty tables in which a commit on an earlier read breaks the stock or the log. */
module OrderCases {
  import opened Wrappers
  import opened OrderTypes
  import opened Stock
  import opened OrderDb
  import opened Conservation
  import opened OrderLog
  import opened Interleaving

  const ROW: Key := Key(7, 20)

  function Units(qty: int): seq<Line> { [Line(7, qty, 100)] }

  function OrderOf(qty: int, status: Status): Order {
    Order(1, 1, 1, 20, status, 100 * qty, "", 0, None, Units(qty))
  }

  /** Three units of item 7 for day 20. */
  const THE_ORDER: Order := OrderOf(3, Placed)

  /** The one order on the one row of capacity ten, whatever the logs say. */
  ghost predicate Holds(db: Db, remain: int, o: Order) {
    db.supplies == map[ROW := Supply(10, remain, false, 0)] && db.orders == [o]
  }

  lemma SingleLine(qty: int, item: nat)
    ensures QtyOf(Units(qty), item) == if item == 7 then qty else 0
    ensures TotalOf(Units(qty)) == 100 * qty
  {
    assert Units(qty)[..0] == [];
    assert TotalOf(Units(qty)) == TotalOf(Units(qty)[..0]) + 100 * qty;
  }

  /** What the order holds is all that is sold. */
  lemma SoldByOne(qty: int, status: Status, k: Key)
    ensures Sold([OrderOf(qty, status)], k) == if k == ROW && status != Cancelled then qty else 0
  {
    assert [OrderOf(qty, status)][..0] == [];
    SingleLine(qty, k.item);
  }

  lemma BalancedExactly(db: Db, remain: int, qty: int, status: Status)
    requires Holds(db, remain, OrderOf(qty, status)) && 0 < qty && 0 <= remain <= 10
    ensures Conserved(db) <==> remain + (if status == Cancelled then 0 else qty) == 10
  {
    forall k: Key ensures Sold(db.orders, k) == if k == ROW && status != Cancelled then qty else 0 {
      SoldByOne(qty, status, k);
    }
    if Conserved(db) { assert ROW in db.supplies; }
  }

  // ---------------------------------------------------------------- the opening

  lemma Placing(db: Db)
    requires db.supplies == map[ROW := Supply(10, 10, false, 0)] && db.orders == []
    ensures Apply(db, OrderDb.Place(THE_ORDER, ActPlace)).Some?
    ensures Holds(Next(db, OrderDb.Place(THE_ORDER, ActPlace)), 7, THE_ORDER)
  {
    forall item: nat ensures QtyOf(Units(3), item) == if item == 7 then 3 else 0 { SingleLine(3, item); }
    assert CanTake(db.supplies, 20, Units(3));
    assert Taken(db.supplies, 20, Units(3)) == map[ROW := Supply(10, 7, false, 0)];
  }

  const EMPTY_WORLD: World := World(EMPTY, map[])

  /** A row of ten is set up, the order is placed, and callers 1 and 2 read it. */
  function Opening(): seq<Move> {
    [ReadRow(0, ROW), SubmitCapacity(0, 10, 0), Direct(OrderDb.Place(THE_ORDER, ActPlace)), ReadOrder(1, 0), ReadOrder(2, 0)]
  }

  lemma {:induction false} MovesAppend(w: World, a: seq<Move>, b: seq<Move>)
    ensures RunMoves(w, a + b) == RunMoves(RunMoves(w, a), b)
    decreases |a|
  {
    if a == [] {
      assert a + b == b;
    } else {
      assert (a + b)[1..] == a[1..] + b;
      MovesAppend(Step(w, a[0]), a[1..], b);
    }
  }

  lemma OneMove(w: World, m: Move)
    ensures RunMoves(w, [m]) == Step(w, m)
  {
    assert [m][1..] == [];
    assert RunMoves(Step(w, m), []) == Step(w, m);
  }

  /** A caller holds the order as it was placed. */
  ghost predicate HasRead(w: World, caller: nat) {
    caller in w.held && w.held[caller].OrderRead? && w.held[caller].id == 0 && w.held[caller].order == THE_ORDER
  }

  lemma Opened()
    ensures var w := RunMoves(EMPTY_WORLD, Opening());
            Holds(w.db, 7, THE_ORDER) && HasRead(w, 1) && HasRead(w, 2)
  {
    var m := Opening();
    var w1 := Step(EMPTY_WORLD, m[0]);
    var w2 := Step(w1, m[1]);
    var w3 := Step(w2, m[2]);
    var w4 := Step(w3, m[3]);
    Placing(w2.db);
    assert m == [m[0]] + ([m[1]] + ([m[2]] + ([m[3]] + [m[4]])));
    MovesAppend(EMPTY_WORLD, [m[0]], [m[1]] + ([m[2]] + ([m[3]] + [m[4]])));
    MovesAppend(w1, [m[1]], [m[2]] + ([m[3]] + [m[4]]));
    MovesAppend(w2, [m[2]], [m[3]] + [m[4]]);
    MovesAppend(w3, [m[3]], [m[4]]);
    OneMove(EMPTY_WORLD, m[0]);
    OneMove(w1, m[1]);
    OneMove(w2, m[2]);
    OneMove(w3, m[3]);
    OneMove(w4, m[4]);
  }

  function End(a: Move, b: Move): World {
    RunMoves(EMPTY_WORLD, Opening() + ([a] + [b]))
  }

  lemma EndIs(a: Move, b: Move)
    ensures End(a, b) == Step(Step(RunMoves(EMPTY_WORLD, Opening()), a), b)
  {
    var w := RunMoves(EMPTY_WORLD, Opening());
    MovesAppend(EMPTY_WORLD, Opening(), [a] + [b]);
    MovesAppend(w, [a], [b]);
    OneMove(w, a);
    OneMove(Step(w, a), b);
  }

  // ---------------------------------------------------------------- two commits on the same read

  function Capped(remain: int): int { Min(remain, 10) }

  lemma ModifiedBy(w: World, caller: nat, remain: int, qty: int, status: Status, desired: int)
    requires Holds(w.db, remain, OrderOf(qty, status)) && HasRead(w, caller)
    requires 0 < desired && desired - 3 <= remain <= 10
    ensures Holds(Step(w, SubmitModify(caller, Units(desired), "")).db, Capped(remain + 3 - desired), OrderOf(desired, status))
    ensures forall a | HasRead(w, a) :: HasRead(Step(w, SubmitModify(caller, Units(desired), "")), a)
  {
    var o, s := THE_ORDER, w.db.supplies;
    forall item: nat ensures NetDelta(o.lines, Units(desired), item) == if item == 7 then desired - 3 else 0 {
      SingleLine(3, item);
      SingleLine(desired, item);
    }
    SingleLine(desired, 7);
    assert CommitBy(w, SubmitModify(caller, Units(desired), "")) == Some(OrderDb.Modify(0, o, Units(desired), ""));
    assert CanNet(s, o.date, o.lines, Units(desired));
    assert Netted(s, o.date, o.lines, Units(desired)) == map[ROW := Supply(10, Capped(remain + 3 - desired), false, 0)];
  }

  lemma CancelledBy(w: World, caller: nat, remain: int, qty: int)
    requires Holds(w.db, remain, OrderOf(qty, Placed)) && HasRead(w, caller)
    ensures Holds(Step(w, SubmitCancel(caller)).db, Capped(remain + 3), OrderOf(qty, Cancelled))
    ensures forall a | HasRead(w, a) :: HasRead(Step(w, SubmitCancel(caller)), a)
  {
    var o, s := THE_ORDER, w.db.supplies;
    forall item: nat ensures QtyOf(Units(3), item) == if item == 7 then 3 else 0 { SingleLine(3, item); }
    assert CommitBy(w, SubmitCancel(caller)) == Some(OrderDb.Cancel(0, o));
    assert Given(s, 20, Units(3)) == map[ROW := Supply(10, Capped(remain + 3), false, 0)];
  }

  /** Both ask for other quantities: the last one's lines stand, and two units are lost: seven left and one sold, of ten. */
  lemma TwoModificationsLoseUnits()
    ensures var db := End(SubmitModify(1, Units(5), ""), SubmitModify(2, Units(1), "")).db;
            Holds(db, 7, OrderOf(1, Placed)) && !Conserved(db)
  {
    Opened();
    var w := RunMoves(EMPTY_WORLD, Opening());
    EndIs(SubmitModify(1, Units(5), ""), SubmitModify(2, Units(1), ""));
    ModifiedBy(w, 1, 7, 3, Placed, 5);
    ModifiedBy(Step(w, SubmitModify(1, Units(5), "")), 2, 5, 5, Placed, 1);
    BalancedExactly(End(SubmitModify(1, Units(5), ""), SubmitModify(2, Units(1), "")).db, 7, 1, Placed);
  }

  /** The order grew to five units before the cancel that read three: two units are never given back. */
  lemma StaleCancelLosesUnits()
    ensures var db := End(SubmitModify(2, Units(5), ""), SubmitCancel(1)).db;
            Holds(db, 8, OrderOf(5, Cancelled)) && !Conserved(db)
  {
    Opened();
    var w := RunMoves(EMPTY_WORLD, Opening());
    EndIs(SubmitModify(2, Units(5), ""), SubmitCancel(1));
    ModifiedBy(w, 2, 7, 3, Placed, 5);
    CancelledBy(Step(w, SubmitModify(2, Units(5), "")), 1, 5, 5);
    BalancedExactly(End(SubmitModify(2, Units(5), ""), SubmitCancel(1)).db, 8, 5, Cancelled);
  }

  /** The order shrank to one unit before the cancel that read three: the cap hides the two units too many. */
  lemma CapHidesStaleCancel()
    ensures var db := End(SubmitModify(2, Units(1), ""), SubmitCancel(1)).db;
            Holds(db, 10, OrderOf(1, Cancelled)) && Conserved(db)
  {
    Opened();
    var w := RunMoves(EMPTY_WORLD, Opening());
    EndIs(SubmitModify(2, Units(1), ""), SubmitCancel(1));
    ModifiedBy(w, 2, 7, 3, Placed, 1);
    CancelledBy(Step(w, SubmitModify(2, Units(1), "")), 1, 9, 1);
    BalancedExactly(End(SubmitModify(2, Units(1), ""), SubmitCancel(1)).db, 10, 1, Cancelled);
  }

  /** The order was cancelled before the modification that read it placed: two units are taken for a cancelled order. */
  lemma ModifyAfterCancelLosesUnits()
    ensures var db := End(SubmitCancel(2), SubmitModify(1, Units(5), "")).db;
            Holds(db, 8, OrderOf(5, Cancelled)) && !Conserved(db)
  {
    Opened();
    var w := RunMoves(EMPTY_WORLD, Opening());
    EndIs(SubmitCancel(2), SubmitModify(1, Units(5), ""));
    CancelledBy(w, 2, 7, 3);
    ModifiedBy(Step(w, SubmitCancel(2)), 1, 10, 3, Cancelled, 5);
    BalancedExactly(End(SubmitCancel(2), SubmitModify(1, Units(5), "")).db, 8, 5, Cancelled);
  }

  // ---------------------------------------------------------------- a cutoff between the read and the commit

  function SetUp(): seq<Commit> {
    [OrderDb.SetCapacity(ROW, None, 10, 0), OrderDb.Place(THE_ORDER, ActPlace)]
  }

  function CutoffThenReady(): seq<Commit> {
    [CutoffOne(0), OrderDb.MarkReady([ReadyRead(0, THE_ORDER)], 1, 0)]
  }

  lemma {:induction false} RunAppend(db: Db, a: seq<Commit>, b: seq<Commit>)
    ensures Run(db, a + b) == Run(Run(db, a), b)
    decreases |a|
  {
    if a == [] {
      assert a + b == b;
    } else {
      assert (a + b)[1..] == a[1..] + b;
      RunAppend(Next(db, a[0]), a[1..], b);
    }
  }

  lemma RunTwo(db: Db, cs: seq<Commit>)
    requires |cs| == 2
    ensures Run(db, cs) == Next(Next(db, cs[0]), cs[1])
  {
    assert cs[1..][1..] == [];
    assert Run(Next(db, cs[0]), cs[1..]) == Run(Next(Next(db, cs[0]), cs[1]), []);
  }

  /** The order has been placed, and nothing else has happened to it. */
  ghost predicate JustPlaced(db: Db) {
    db.orders == [THE_ORDER] && db.events == [StateEvent(0, None, Placed)]
  }

  lemma SetUpPlaces()
    ensures JustPlaced(Run(EMPTY, SetUp()))
  {
    RunTwo(EMPTY, SetUp());
    Placing(Next(EMPTY, SetUp()[0]));
  }

  lemma TwoEvents(a: StateEvent, b: StateEvent)
    requires a.order == 0 && b.order == 0
    ensures EventsOf([a, b], 0) == [a, b]
  {
    assert [a, b][..1] == [a] && [a][..0] == [];
    assert EventsOf([a], 0) == EventsOf([a][..0], 0) + [a];
  }

  /** A step that does not start where the last one ended is no path. */
  lemma BrokenPath(es: seq<StateEvent>, e: StateEvent)
    requires es != [] && e.from != Some(es[|es| - 1].to)
    ensures !IsPath(es + [e])
  {
    var all := es + [e];
    assert all[|es|] == e && all[|es| - 1] == es[|es| - 1];
  }

  lemma ReadyAfterCutoff(db: Db)
    requires db.orders == [OrderOf(3, Cutoff)] && db.events == [StateEvent(0, None, Placed), StateEvent(0, Some(Placed), Cutoff)]
    ensures var db' := Next(db, CutoffThenReady()[1]);
            && db'.events == db.events + [StateEvent(0, Some(Placed), Ready)]
            && |db'.orders| == 1 && db'.orders[0].status == Ready && !LogOk(db')
  {
    var batch := [ReadyRead(0, THE_ORDER)];
    assert batch[0].id == 0;
    assert CanReady(db, batch, 1);
    var db' := Readied(db, batch, 0);
    assert Next(db, CutoffThenReady()[1]) == db';
    TwoEvents(StateEvent(0, None, Placed), StateEvent(0, Some(Placed), Cutoff));
    ReadyEvents(db, batch, 1, 0, 0);
    BrokenPath(db.events, StateEvent(0, Some(Placed), Ready));
    assert !OrderLogOk(db', 0);
  }

  /**
   * The order is placed and read; the cutoff sweep takes it; MarkReady commits on the read. The log then steps from
   * placed to cutoff and again from placed to ready.
   */
  lemma CutoffBreaksLog()
    ensures Run(EMPTY, SetUp()).orders == [THE_ORDER]
    ensures var db := Run(EMPTY, SetUp() + CutoffThenReady());
            && db.events == [StateEvent(0, None, Placed), StateEvent(0, Some(Placed), Cutoff), StateEvent(0, Some(Placed), Ready)]
            && |db.orders| == 1 && db.orders[0].status == Ready && !LogOk(db)
  {
    SetUpPlaces();
    var db := Run(EMPTY, SetUp());
    RunAppend(EMPTY, SetUp(), CutoffThenReady());
    RunTwo(db, CutoffThenReady());
    ReadyAfterCutoff(Next(db, CutoffOne(0)));
  }
}
