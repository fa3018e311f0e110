/**
 * Cancel, Modify and SetCapacity read first and commit later. Here any number of callers hold such reads while
 * others commit, and the question is which interleaved runs keep the stock in balance.
 */
module Interleaving {
  import opened Wrappers
  import opened OrderTypes
  import opened Stock
  import opened OrderDb
  import opened Conservation

  /** What a caller holds between its read and its commit; `overtaken` records that the order was modified or cancelled since. */
  datatype Snapshot =
    | OrderRead(id: nat, order: Order, overtaken: bool)
    | RowRead(key: Key, row: Option<Supply>)

  datatype World = World(db: Db, held: map<nat, Snapshot>)

  datatype Move =
    | ReadOrder(caller: nat, id: nat)
    | ReadRow(caller: nat, key: Key)
    | SubmitCancel(caller: nat)
    | SubmitModify(caller: nat, lines: seq<Line>, notes: string)
    | SubmitCapacity(caller: nat, capacity: int, cutoffAt: int)
    | Direct(commit: Commit)

  function RowOf(db: Db, k: Key): Option<Supply> {
    if k in db.supplies then Some(db.supplies[k]) else None
  }

  function OrderHeld(w: World, caller: nat): Option<Snapshot> {
    if caller in w.held && w.held[caller].OrderRead? && w.held[caller].order.status == Placed then Some(w.held[caller]) else None
  }

  /** The commit that a move sends to the database; the services refuse an order that was not placed when it was read. */
  function CommitBy(w: World, m: Move): Option<Commit> {
    match m
    case ReadOrder(_, _) => None
    case ReadRow(_, _) => None
    case SubmitCancel(caller) =>
      (match OrderHeld(w, caller) case Some(OrderRead(id, order, _)) => Some(Cancel(id, order)) case _ => None)
    case SubmitModify(caller, lines, notes) =>
      (match OrderHeld(w, caller) case Some(OrderRead(id, order, _)) => Some(Modify(id, order, lines, notes)) case _ => None)
    case SubmitCapacity(caller, capacity, cutoffAt) =>
      if caller in w.held && w.held[caller].RowRead?
      then Some(SetCapacity(w.held[caller].key, w.held[caller].row, capacity, cutoffAt)) else None
    case Direct(c) => if c.Cancel? || c.Modify? || c.SetCapacity? then None else Some(c)
  }

  function Overtake(s: Snapshot, id: nat): Snapshot {
    if s.OrderRead? && s.id == id then s.(overtaken := true) else s
  }

  function AfterCommit(w: World, c: Commit): World {
    match Apply(w.db, c)
    case None => w
    case Some(db) =>
      if c.Cancel? || c.Modify? then World(db, map a | a in w.held :: Overtake(w.held[a], c.id)) else World(db, w.held)
  }

  function Step(w: World, m: Move): World {
    match m
    case ReadOrder(caller, id) =>
      if id < |w.db.orders| then w.(held := w.held[caller := OrderRead(id, w.db.orders[id], false)]) else w
    case ReadRow(caller, key) => w.(held := w.held[caller := RowRead(key, RowOf(w.db, key))])
    case _ =>
      match CommitBy(w, m)
      case None => w
      case Some(c) => AfterCommit(w, c)
  }

  // ---------------------------------------------------------------- what every reachable world keeps

  /** An order names only items that have a row on its date. */
  ghost predicate NamesRows(db: Db, o: Order) {
    AllPositive(o.lines) && forall k: Key | k !in db.supplies :: Claimed(o, k) == 0
  }

  /** The reads are of earlier states: same date, rows that exist, rows within the table's constraints. */
  ghost predicate HistoricRead(db: Db, s: Snapshot) {
    match s
    case OrderRead(id, order, overtaken) =>
      && id < |db.orders| && order.date == db.orders[id].date && NamesRows(db, order)
      && (!overtaken ==> order.lines == db.orders[id].lines && (order.status == Placed ==> db.orders[id].status != Cancelled))
    case RowRead(key, row) => row.Some? ==> 0 <= row.value.remain <= row.value.capacity
  }

  ghost predicate Historic(w: World) {
    && WellFormed(w.db)
    && (forall i | 0 <= i < |w.db.orders| :: NamesRows(w.db, w.db.orders[i]))
    && (forall a | a in w.held :: HistoricRead(w.db, w.held[a]))
  }

  /** The exact condition under which the commit of this move leaves the stock in balance. */
  ghost predicate Balanced(w: World, m: Move) {
    match CommitBy(w, m)
    case None => true
    case Some(c) => Apply(w.db, c).Some? ==> BalancedCommit(w.db, c)
  }

  ghost predicate BalancedCommit(db: Db, c: Commit)
    requires Apply(db, c).Some?
  {
    match c
    case Cancel(id, read) =>
      forall k | k in db.supplies ::
        var stored := Held(db.orders[id], k);
        Claimed(read, k) == stored || (stored == Sold(db.orders, k) && Claimed(read, k) > stored)
    case Modify(id, read, lines, notes) => forall k | k in db.supplies :: ReadBalances(db, id, read, lines, k)
    case SetCapacity(k, read, capacity, _) =>
      var readSold := if read.None? then 0 else read.value.capacity - read.value.remain;
      if capacity >= readSold then readSold == Sold(db.orders, k) else capacity == Sold(db.orders, k)
    case _ => true
  }

  lemma NoClaim(lines: seq<Line>, db: Db, date: int, item: nat)
    requires AllPositive(lines) && Key(item, date) !in db.supplies
    requires forall i | 0 <= i < |lines| :: Key(lines[i].item, date) in db.supplies
    ensures QtyOf(lines, item) == 0
  {
    QtyPositive(lines, item);
  }

  /** The lines written by a modification name rows: what they name beyond the old lines has just been taken. */
  lemma ModifyNamesRows(db: Db, id: nat, read: Order, lines: seq<Line>, notes: string)
    requires Apply(db, Modify(id, read, lines, notes)).Some? && NamesRows(db, read)
    ensures forall k: Key | k !in db.supplies && k.date == read.date :: QtyOf(lines, k.item) == 0
  {
    forall i | 0 <= i < |lines| ensures Key(lines[i].item, read.date) in db.supplies {
      var k := Key(lines[i].item, read.date);
      QtyPositive(lines, k.item);
      assert Mentions(lines, k.item);
      assert DeltaFits(db.supplies, read.date, k.item, NetDelta(read.lines, lines, k.item));
      assert k !in db.supplies ==> Claimed(read, k) == 0;
    }
    forall k: Key | k !in db.supplies && k.date == read.date ensures QtyOf(lines, k.item) == 0 {
      NoClaim(lines, db, read.date, k.item);
    }
  }

  lemma PlaceNamesRows(db: Db, o: Order)
    requires CanTake(db.supplies, o.date, o.lines)
    ensures NamesRows(db, o)
  {
    forall k: Key | k !in db.supplies ensures Claimed(o, k) == 0 {
      if k.date == o.date {
        forall i | 0 <= i < |o.lines| ensures Key(o.lines[i].item, o.date) in db.supplies {
          assert CanTakeItem(db.supplies, o.date, o.lines, o.lines[i].item);
        }
        NoClaim(o.lines, db, o.date, k.item);
      }
    }
  }

  /** Rows never disappear, orders keep their date, and lines change only by a modification of the order. */
  lemma CommitHistory(db: Db, c: Commit)
    requires Apply(db, c).Some?
    ensures var db' := Apply(db, c).value;
            && db.supplies.Keys <= db'.supplies.Keys && |db.orders| <= |db'.orders|
            && (forall i | 0 <= i < |db.orders| ::
                  && db'.orders[i].date == db.orders[i].date
                  && (db'.orders[i].lines == db.orders[i].lines || (c.Modify? && c.id == i && db'.orders[i].lines == c.lines))
                  && (db.orders[i].status != Cancelled && db'.orders[i].status == Cancelled ==> c.Cancel? && c.id == i))
            && (|db'.orders| > |db.orders| ==>
                  c.Place? && |db'.orders| == |db.orders| + 1 && db'.orders[|db.orders|] == c.order.(status := Placed))
  {
  }

  lemma NamesMore(db: Db, db': Db, o: Order)
    requires NamesRows(db, o) && db.supplies.Keys <= db'.supplies.Keys
    ensures NamesRows(db', o)
  {
  }

  lemma OrdersNameRows(w: World, c: Commit)
    requires Historic(w) && Apply(w.db, c).Some?
    requires ReadOk(w.db, c)
    ensures var db' := Apply(w.db, c).value;
            forall i | 0 <= i < |db'.orders| :: NamesRows(db', db'.orders[i])
  {
    var db' := Apply(w.db, c).value;
    CommitHistory(w.db, c);
    forall i | 0 <= i < |db'.orders| ensures NamesRows(db', db'.orders[i]) {
      if i == |w.db.orders| {
        PlaceNamesRows(w.db, db'.orders[i]);
        NamesMore(w.db, db', db'.orders[i]);
      } else if db'.orders[i].lines == w.db.orders[i].lines {
        assert NamesRows(w.db, w.db.orders[i]);
      } else {
        ModifyNamesRows(w.db, c.id, c.read, c.lines, c.notes);
      }
    }
  }

  /** What a commit may rely on because its read is of an earlier state. */
  ghost predicate ReadOk(db: Db, c: Commit) {
    match c
    case Modify(id, read, _, _) => id < |db.orders| && NamesRows(db, read) && read.date == db.orders[id].date
    case SetCapacity(_, read, _, _) => read.Some? ==> 0 <= read.value.remain <= read.value.capacity
    case _ => true
  }

  lemma HistoricReadsOk(w: World, m: Move)
    requires Historic(w) && CommitBy(w, m).Some?
    ensures ReadOk(w.db, CommitBy(w, m).value)
  {
    if !m.Direct? { assert HistoricRead(w.db, w.held[m.caller]); }
  }

  lemma CommitKeepsHistoric(w: World, c: Commit)
    requires Historic(w) && Apply(w.db, c).Some? && WellFormed(Apply(w.db, c).value) && ReadOk(w.db, c)
    ensures Historic(AfterCommit(w, c))
  {
    var w' := AfterCommit(w, c);
    CommitHistory(w.db, c);
    OrdersNameRows(w, c);
    forall a | a in w'.held ensures HistoricRead(w'.db, w'.held[a]) {
      assert HistoricRead(w.db, w.held[a]);
      if w.held[a].OrderRead? { NamesMore(w.db, w'.db, w.held[a].order); }
    }
  }

  lemma CommitExactly(db: Db, c: Commit)
    requires Conserved(db) && Apply(db, c).Some? && ReadOk(db, c)
    ensures Conserved(Apply(db, c).value) <==> BalancedCommit(db, c)
  {
    match c
    case Cancel(id, read) => StaleCancelExactly(db, id, read);
    case Modify(id, read, lines, notes) => StaleModifyExactly(db, id, read, lines, notes);
    case SetCapacity(k, read, capacity, cutoffAt) => CapacityExactly(db, k, read, capacity, cutoffAt);
    case _ => CommitConserves(db, c);
  }

  /** From a balanced world, one move leaves it balanced exactly when its commit read what it needed. */
  lemma MoveExactly(w: World, m: Move)
    requires Historic(w) && Conserved(w.db)
    ensures Conserved(Step(w, m).db) <==> Balanced(w, m)
    ensures Balanced(w, m) ==> Historic(Step(w, m))
  {
    var c := CommitBy(w, m);
    if c.Some? && Apply(w.db, c.value).Some? {
      HistoricReadsOk(w, m);
      CommitExactly(w.db, c.value);
      if BalancedCommit(w.db, c.value) { CommitKeepsHistoric(w, c.value); }
    }
  }

  // ---------------------------------------------------------------- whole runs

  function RunMoves(w: World, ms: seq<Move>): World
    decreases |ms|
  {
    if ms == [] then w else RunMoves(Step(w, ms[0]), ms[1..])
  }

  /** The stock is in balance in every state of the run. */
  ghost predicate AlwaysConserved(w: World, ms: seq<Move>) {
    forall n | 0 <= n <= |ms| :: Conserved(RunMoves(w, ms[..n]).db)
  }

  ghost predicate AllBalanced(w: World, ms: seq<Move>)
    decreases |ms|
  {
    ms != [] ==> Balanced(w, ms[0]) && AllBalanced(Step(w, ms[0]), ms[1..])
  }

  lemma AlwaysUnfolds(w: World, ms: seq<Move>)
    requires ms != []
    ensures AlwaysConserved(w, ms) <==> Conserved(w.db) && AlwaysConserved(Step(w, ms[0]), ms[1..])
  {
    assert forall n | 0 <= n < |ms| :: ms[1..][..n] == ms[..n + 1][1..];
    assert forall n | 0 <= n < |ms| :: RunMoves(w, ms[..n + 1]) == RunMoves(Step(w, ms[0]), ms[1..][..n]);
    assert RunMoves(w, ms[..0]) == w;
    if AlwaysConserved(w, ms) {
      forall n | 0 <= n <= |ms[1..]| ensures Conserved(RunMoves(Step(w, ms[0]), ms[1..][..n]).db) {
        assert Conserved(RunMoves(w, ms[..n + 1]).db);
      }
    }
    if Conserved(w.db) && AlwaysConserved(Step(w, ms[0]), ms[1..]) {
      forall n | 0 <= n <= |ms| ensures Conserved(RunMoves(w, ms[..n]).db) {
        if n > 0 { assert Conserved(RunMoves(Step(w, ms[0]), ms[1..][..n - 1]).db); }
      }
    }
  }

  /** Over any interleaving of any number of callers: the stock stays in balance throughout exactly when each commit is balanced. */
  lemma {:induction false} InterleavedRunExactly(w: World, ms: seq<Move>)
    requires Historic(w) && Conserved(w.db)
    ensures AlwaysConserved(w, ms) <==> AllBalanced(w, ms)
    decreases |ms|
  {
    if ms == [] {
      assert RunMoves(w, []) == w;
    } else {
      AlwaysUnfolds(w, ms);
      MoveExactly(w, ms[0]);
      if Balanced(w, ms[0]) {
        InterleavedRunExactly(Step(w, ms[0]), ms[1..]);
      } else {
        assert AlwaysConserved(Step(w, ms[0]), ms[1..]) ==> Conserved(RunMoves(Step(w, ms[0]), ms[1..][..0]).db);
      }
    }
  }

  /**
   * No caller commits on an order that another Cancel or Modify changed after it was read, and no capacity is set from a
   * row that has changed or below the units sold.
   */
  ghost predicate NoneOvertaken(w: World, ms: seq<Move>)
    decreases |ms|
  {
    ms != [] ==>
      && match ms[0] {
           case SubmitCancel(a) => OrderHeld(w, a).Some? ==> !w.held[a].overtaken
           case SubmitModify(a, _, _) => OrderHeld(w, a).Some? ==> !w.held[a].overtaken
           case SubmitCapacity(a, capacity, _) =>
             a in w.held && w.held[a].RowRead? ==>
               w.held[a].row == RowOf(w.db, w.held[a].key) && capacity >= Sold(w.db.orders, w.held[a].key)
           case _ => true
         }
      && NoneOvertaken(Step(w, ms[0]), ms[1..])
  }

  /** Such a run stays in balance, whatever else is interleaved. */
  lemma {:induction false} UndisturbedRunsConserve(w: World, ms: seq<Move>)
    requires Historic(w) && Conserved(w.db) && NoneOvertaken(w, ms)
    ensures Historic(RunMoves(w, ms)) && Conserved(RunMoves(w, ms).db)
    decreases |ms|
  {
    if ms != [] {
      var m := ms[0];
      if CommitBy(w, m).Some? && Apply(w.db, CommitBy(w, m).value).Some? {
        if !m.Direct? { assert HistoricRead(w.db, w.held[m.caller]); }
        CommitConserves(w.db, CommitBy(w, m).value);
      }
      MoveExactly(w, m);
      UndisturbedRunsConserve(Step(w, m), ms[1..]);
    }
  }

  lemma EmptyWorldIsHistoric()
    ensures Historic(World(EMPTY, map[])) && Conserved(EMPTY)
  {
  }
}
