/** Orders, their lines and the transition table of the order status. */
module OrderTypes {
  import opened Wrappers

  datatype Status = Draft | Placed | Cutoff | Cancelled | Ready | PickedUp | NoShow | Refunded

  const ALLOWED_TRANSITIONS: map<Status, set<Status>> :=
    map[
      Draft := {Placed, Cancelled},
      Placed := {Cutoff, Ready, Cancelled},
      Cutoff := {Ready, Cancelled},
      Ready := {PickedUp, NoShow},
      PickedUp := {Refunded},
      NoShow := {Refunded},
      Cancelled := {},
      Refunded := {}
    ]

  predicate CanTransition(from: Status, to: Status) {
    from in ALLOWED_TRANSITIONS && to in ALLOWED_TRANSITIONS[from]
  }

  /** Strictly raised by every allowed transition. */
  function Rank(s: Status): nat {
    match s
    case Draft => 0
    case Placed => 1
    case Cutoff => 2
    case Ready => 3
    case PickedUp | NoShow | Cancelled => 4
    case Refunded => 5
  }

  /** The table read backwards: from where each status is reached. */
  lemma ReachedFrom(from: Status, to: Status)
    ensures CanTransition(from, to) <==>
            match to
            case Draft => false
            case Placed => from == Draft
            case Cutoff => from == Placed
            case Cancelled => from == Draft || from == Placed || from == Cutoff
            case Ready => from == Placed || from == Cutoff
            case PickedUp => from == Ready
            case NoShow => from == Ready
            case Refunded => from == PickedUp || from == NoShow
  {
  }

  /** One order_item row: ids are natural numbers, prices are in minor units. */
  datatype Line = Line(item: nat, qty: int, price: int)

  /** An order row with its items; the order's id is its position in the table. */
  datatype Order = Order(user: nat, vendor: nat, plant: nat, date: int, status: Status, total: int,
                         notes: string, cutoffAt: int, readyAt: Option<int>, lines: seq<Line>)

  /** Units of `item` on all lines together. */
  function QtyOf(lines: seq<Line>, item: nat): int {
    if lines == [] then 0
    else
      var last := lines[|lines| - 1];
      QtyOf(lines[..|lines| - 1], item) + if last.item == item then last.qty else 0
  }

  function QtyFn(): Line -> int { (l: Line) => l.qty }

  /** The price of all lines together. */
  function TotalOf(lines: seq<Line>): int {
    if lines == [] then 0
    else TotalOf(lines[..|lines| - 1]) + lines[|lines| - 1].price * lines[|lines| - 1].qty
  }

  predicate AllPositive(lines: seq<Line>) {
    forall i | 0 <= i < |lines| :: lines[i].qty > 0
  }

  predicate Mentions(lines: seq<Line>, item: nat) {
    exists i | 0 <= i < |lines| :: lines[i].item == item
  }

  /** With positive quantities an item has units exactly when some line names it. */
  lemma {:induction false} QtyPositive(lines: seq<Line>, item: nat)
    requires AllPositive(lines)
    ensures QtyOf(lines, item) >= 0
    ensures QtyOf(lines, item) > 0 <==> Mentions(lines, item)
  {
    if lines != [] {
      var init := lines[..|lines| - 1];
      QtyPositive(init, item);
      if Mentions(lines, item) && !Mentions(init, item) {
        assert lines[|lines| - 1].item == item;
      }
      if Mentions(init, item) {
        var i :| 0 <= i < |init| && init[i].item == item;
        assert lines[i].item == item;
      }
    }
  }

  /** Taking one more line adds its quantity to its own item only. */
  lemma QtySnoc(lines: seq<Line>, line: Line, item: nat)
    ensures QtyOf(lines + [line], item) == QtyOf(lines, item) + if line.item == item then line.qty else 0
  {
    assert (lines + [line])[..|lines|] == lines;
  }

  lemma QtyPrefix(lines: seq<Line>, n: nat, item: nat)
    requires n < |lines|
    ensures QtyOf(lines[..n + 1], item) == QtyOf(lines[..n], item) + if lines[n].item == item then lines[n].qty else 0
  {
    assert lines[..n + 1] == lines[..n] + [lines[n]];
    QtySnoc(lines[..n], lines[n], item);
  }
}
