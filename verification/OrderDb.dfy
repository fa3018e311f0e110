/**
 * The tables that the order service writes, and its transactions as commits: each either
 * commits all its writes or (None) leaves the tables as they were.
 */
module OrderDb {
  import opened Wrappers
  import opened OrderTypes
  import opened Stock

  datatype StateEvent = StateEvent(order: nat, from: Option<Status>, to: Status)

  datatype Subject = OrderPlaced | OrderModified | OrderCancelled | OrderCutoff | OrderReady | OrderPickedUp | OrderNoShow

  datatype Message = Message(subject: Subject, order: nat)

  datatype Action = ActPlace | ActReorder | ActModify | ActCancel | ActCutoff | ActReady | ActPickedUp | ActNoShow

  datatype AuditRow = AuditRow(action: Action, order: nat)

  datatype Db = Db(supplies: Supplies, orders: seq<Order>, events: seq<StateEvent>,
                   outbox: seq<Message>, audit: seq<AuditRow>)

  const EMPTY: Db := Db(map[], [], [], [], [])

  /** One order as MarkReady read it before its conditional update. */
  datatype ReadyRead = ReadyRead(id: nat, read: Order)

  datatype Commit =
    | Place(order: Order, action: Action)
    | Cancel(id: nat, read: Order)
    | Modify(id: nat, read: Order, lines: seq<Line>, notes: string)
    | MarkReady(batch: seq<ReadyRead>, vendor: nat, now: int)
    | Pickup(id: nat)
    | NoShowOne(id: nat)
    | CutoffOne(id: nat)
    | Refund(id: nat, from: Status)
    | SetCapacity(key: Key, existing: Option<Supply>, capacity: int, cutoffAt: int)
    | SetSoldOut(key: Key, flag: bool)

  function Logged(db: Db, subject: Subject, action: Action, id: nat): Db {
    db.(outbox := db.outbox + [Message(subject, id)], audit := db.audit + [AuditRow(action, id)])
  }

  function PlaceTx(db: Db, o: Order, action: Action): Option<Db> {
    if !CanTake(db.supplies, o.date, o.lines) then None
    else
      var id := |db.orders|;
      Some(Logged(db.(supplies := Taken(db.supplies, o.date, o.lines),
                      orders := db.orders + [o],
                      events := db.events + [StateEvent(id, None, Placed)]), OrderPlaced, action, id))
  }

  /** The conditional status update, with its state event. */
  function FlipTx(db: Db, id: nat, from: Status, to: Status, subject: Subject, action: Action): Option<Db> {
    if id >= |db.orders| || db.orders[id].status != from then None
    else
      Some(Logged(db.(orders := db.orders[id := db.orders[id].(status := to)],
                      events := db.events + [StateEvent(id, Some(from), to)]), subject, action, id))
  }

  /** Flip to cancelled, then give back the lines that were read before the transaction. */
  function CancelTx(db: Db, id: nat, read: Order): Option<Db> {
    if !AllPositive(read.lines) then None
    else
      match FlipTx(db, id, Placed, Cancelled, OrderCancelled, ActCancel)
      case None => None
      case Some(tx) => Some(tx.(supplies := Given(db.supplies, read.date, read.lines)))
  }

  /** Net delta against the lines read before the transaction; the replacement itself does not look at the status. */
  function ModifyTx(db: Db, id: nat, read: Order, lines: seq<Line>, notes: string): Option<Db> {
    if !CanNet(db.supplies, read.date, read.lines, lines) || id >= |db.orders| || !AllPositive(lines) then None
    else
      Some(Logged(db.(supplies := Netted(db.supplies, read.date, read.lines, lines),
                      orders := db.orders[id := db.orders[id].(lines := lines, total := TotalOf(lines), notes := notes)]),
                  OrderModified, ActModify, id))
  }

  predicate Listed(batch: seq<ReadyRead>, id: nat) {
    exists j | 0 <= j < |batch| :: batch[j].id == id
  }

  /** Every read passes its checks, every row is still placed or cut off, and no order is listed twice. */
  predicate CanReady(db: Db, batch: seq<ReadyRead>, vendor: nat) {
    && (forall j | 0 <= j < |batch| ::
          && batch[j].read.vendor == vendor
          && CanTransition(batch[j].read.status, Ready)
          && batch[j].id < |db.orders|
          && db.orders[batch[j].id].status in {Placed, Cutoff})
    && (forall j, k | 0 <= j < k < |batch| :: batch[j].id != batch[k].id)
  }

  function Readied(db: Db, batch: seq<ReadyRead>, now: int): Db {
    Db(db.supplies,
       seq(|db.orders|, i requires 0 <= i < |db.orders| =>
         if Listed(batch, i) then db.orders[i].(status := Ready, readyAt := Some(now)) else db.orders[i]),
       db.events + seq(|batch|, j requires 0 <= j < |batch| => StateEvent(batch[j].id, Some(batch[j].read.status), Ready)),
       db.outbox + seq(|batch|, j requires 0 <= j < |batch| => Message(OrderReady, batch[j].id)),
       db.audit + seq(|batch|, j requires 0 <= j < |batch| => AuditRow(ActReady, batch[j].id)))
  }

  function MarkReadyTx(db: Db, batch: seq<ReadyRead>, vendor: nat, now: int): Option<Db> {
    if CanReady(db, batch, vendor) then Some(Readied(db, batch, now)) else None
  }

  /** Payroll's conditional update to refunded: it writes no state event and no order message. */
  function RefundTx(db: Db, id: nat, from: Status): Option<Db> {
    if from !in {PickedUp, NoShow} || id >= |db.orders| || db.orders[id].status != from then None
    else Some(db.(orders := db.orders[id := db.orders[id].(status := Refunded)]))
  }

  /** The upsert caps remain at capacity and keeps the stored sold-out flag; the table refuses a negative capacity. */
  function SetCapacityTx(db: Db, k: Key, read: Option<Supply>, capacity: int, cutoffAt: int): Option<Db> {
    var row := WithCapacity(read, capacity, cutoffAt);
    var remain := if k in db.supplies then Min(row.remain, capacity) else row.remain;
    if capacity < 0 || !(0 <= remain <= capacity) then None
    else
      var flag := k in db.supplies && db.supplies[k].soldOut;
      Some(db.(supplies := db.supplies[k := Supply(capacity, remain, flag, cutoffAt)]))
  }

  function SetSoldOutTx(db: Db, k: Key, flag: bool): Option<Db> {
    if k !in db.supplies then None
    else Some(db.(supplies := db.supplies[k := db.supplies[k].(soldOut := flag)]))
  }

  function Apply(db: Db, c: Commit): Option<Db> {
    match c
    case Place(o, action) => PlaceTx(db, o.(status := Placed), action)
    case Cancel(id, read) => CancelTx(db, id, read)
    case Modify(id, read, lines, notes) => ModifyTx(db, id, read, lines, notes)
    case MarkReady(batch, vendor, now) => MarkReadyTx(db, batch, vendor, now)
    case Pickup(id) => FlipTx(db, id, Ready, PickedUp, OrderPickedUp, ActPickedUp)
    case NoShowOne(id) => FlipTx(db, id, Ready, NoShow, OrderNoShow, ActNoShow)
    case CutoffOne(id) => FlipTx(db, id, Placed, Cutoff, OrderCutoff, ActCutoff)
    case Refund(id, from) => RefundTx(db, id, from)
    case SetCapacity(k, read, capacity, cutoffAt) => SetCapacityTx(db, k, read, capacity, cutoffAt)
    case SetSoldOut(k, flag) => SetSoldOutTx(db, k, flag)
  }

  /** A commit that fails rolls back. */
  function Next(db: Db, c: Commit): Db {
    match Apply(db, c)
    case None => db
    case Some(db') => db'
  }

  /** The commits of concurrent callers in the order in which the database took them. */
  function Run(db: Db, cs: seq<Commit>): Db
    decreases |cs|
  {
    if cs == [] then db else Run(Next(db, cs[0]), cs[1..])
  }
}
