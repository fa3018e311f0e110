/** The merchant's prep sheet: orders grouped by plant, items added up, in first-seen order. */
module PrepSheet {
  import opened Grouping
  import opened OrderTypes

  /** One order as it stands on the sheet. */
  datatype PrepOrder = PrepOrder(id: nat, plant: nat, lines: seq<Line>)

  /** One item row of a section. */
  datatype ItemRow = ItemRow(item: nat, qty: int)

  datatype PlantSection = PlantSection(plant: nat, orderCount: int, portionCount: int, items: seq<ItemRow>, orders: seq<PrepOrder>)

  datatype Sheet = Sheet(totalOrders: int, totalPortions: int, plants: seq<PlantSection>)

  /** What the loop has accumulated for one plant. */
  datatype PlantAcc = PlantAcc(orders: seq<PrepOrder>, itemQty: map<nat, int>, itemSeen: seq<nat>)

  function PlantKey(): PrepOrder -> nat { (o: PrepOrder) => o.plant }

  function ItemKey(): Line -> nat { (l: Line) => l.item }

  function PortionsFn(): PrepOrder -> int { (o: PrepOrder) => SumBy(o.lines, QtyFn()) }

  /** The lines of all orders, one order after the other. */
  function LinesOf(orders: seq<PrepOrder>): seq<Line> {
    if orders == [] then [] else LinesOf(orders[..|orders| - 1]) + orders[|orders| - 1].lines
  }

  /** Units of an item over the given lines. */
  function ItemQty(lines: seq<Line>, item: nat): int {
    SumBy(Group(lines, ItemKey(), item), QtyFn())
  }

  ghost predicate Accumulates(acc: PlantAcc, lines: seq<Line>) {
    && acc.itemSeen == FirstSeen(lines, ItemKey())
    && (forall i: nat :: i in acc.itemQty <==> i in acc.itemSeen)
    && (forall i: nat | i in acc.itemQty :: acc.itemQty[i] == ItemQty(lines, i))
  }

  lemma ItemQtySnoc(lines: seq<Line>, l: Line, item: nat)
    ensures ItemQty(lines + [l], item) == ItemQty(lines, item) + if l.item == item then l.qty else 0
  {
    assert (lines + [l])[..|lines|] == lines;
    var g := Group(lines, ItemKey(), item);
    if l.item == item {
      SumSnoc(g, l, QtyFn());
    } else {
      assert g + [] == g;
    }
  }

  lemma {:induction false} UnseenItem(lines: seq<Line>, item: nat)
    requires item !in FirstSeen(lines, ItemKey())
    ensures ItemQty(lines, item) == 0
  {
    if lines != [] {
      var init, l := lines[..|lines| - 1], lines[|lines| - 1];
      assert lines == init + [l];
      UnseenItem(init, item);
      ItemQtySnoc(init, l, item);
    }
  }

  lemma FirstSeenSnoc(lines: seq<Line>, l: Line)
    ensures FirstSeen(lines + [l], ItemKey()) ==
            if l.item in FirstSeen(lines, ItemKey()) then FirstSeen(lines, ItemKey()) else FirstSeen(lines, ItemKey()) + [l.item]
  {
    assert (lines + [l])[..|lines|] == lines;
  }

  function AddLine(acc: PlantAcc, l: Line): PlantAcc {
    if l.item in acc.itemQty then acc.(itemQty := acc.itemQty[l.item := acc.itemQty[l.item] + l.qty])
    else acc.(itemSeen := acc.itemSeen + [l.item], itemQty := acc.itemQty[l.item := l.qty])
  }

  /** The sums after one more line; an item not seen before had no units. */
  lemma AddLineSums(acc: PlantAcc, lines: seq<Line>, l: Line, i: nat)
    requires i in AddLine(acc, l).itemQty
    requires ItemQty(lines, i) == if i in acc.itemQty then acc.itemQty[i] else 0
    ensures AddLine(acc, l).itemQty[i] == ItemQty(lines + [l], i)
  {
    ItemQtySnoc(lines, l, i);
  }

  lemma AddLineSeen(acc: PlantAcc, lines: seq<Line>, l: Line)
    requires acc.itemSeen == FirstSeen(lines, ItemKey())
    requires l.item in acc.itemQty <==> l.item in acc.itemSeen
    ensures AddLine(acc, l).itemSeen == FirstSeen(lines + [l], ItemKey())
  {
    FirstSeenSnoc(lines, l);
  }

  lemma AddLineKeeps(acc: PlantAcc, lines: seq<Line>, l: Line)
    requires Accumulates(acc, lines)
    ensures Accumulates(AddLine(acc, l), lines + [l])
  {
    AddLineSeen(acc, lines, l);
    if l.item !in acc.itemQty { UnseenItem(lines, l.item); }
    var next := AddLine(acc, l);
    forall i: nat | i in next.itemQty ensures next.itemQty[i] == ItemQty(lines + [l], i) {
      AddLineSums(acc, lines, l, i);
    }
    if l.item !in acc.itemQty {
      assert next.itemSeen == acc.itemSeen + [l.item];
    }
  }

  /** The inner loop over the items of one order. */
  method AddLines(acc: PlantAcc, added: seq<Line>, ghost before: seq<Line>) returns (r: PlantAcc)
    requires Accumulates(acc, before)
    ensures Accumulates(r, before + added) && r.orders == acc.orders
  {
    r := acc;
    assert before + added[..0] == before;
    for i := 0 to |added|
      invariant Accumulates(r, before + added[..i]) && r.orders == acc.orders
    {
      assert before + added[..i + 1] == (before + added[..i]) + [added[i]];
      AddLineKeeps(r, before + added[..i], added[i]);
      r := AddLine(r, added[i]);
    }
    assert added[..|added|] == added;
  }

  /** Every plant seen so far has its own orders and the totals of their lines. */
  ghost predicate GroupedByPlant(orders: seq<PrepOrder>, byPlant: map<nat, PlantAcc>, plantOrder: seq<nat>) {
    && plantOrder == FirstSeen(orders, PlantKey())
    && (forall p: nat :: p in byPlant <==> p in plantOrder)
    && (forall p: nat | p in byPlant ::
          byPlant[p].orders == Group(orders, PlantKey(), p) && Accumulates(byPlant[p], LinesOf(Group(orders, PlantKey(), p))))
  }

  lemma PlantGroupSnoc(orders: seq<PrepOrder>, o: PrepOrder, p: nat)
    ensures var g := Group(orders, PlantKey(), p);
            Group(orders + [o], PlantKey(), p) == if o.plant == p then g + [o] else g
    ensures var g := Group(orders, PlantKey(), p);
            LinesOf(Group(orders + [o], PlantKey(), p)) == if o.plant == p then LinesOf(g) + o.lines else LinesOf(g)
    ensures FirstSeen(orders + [o], PlantKey()) ==
            if o.plant in FirstSeen(orders, PlantKey()) then FirstSeen(orders, PlantKey()) else FirstSeen(orders, PlantKey()) + [o.plant]
  {
    assert (orders + [o])[..|orders|] == orders;
    var g := Group(orders, PlantKey(), p);
    assert (g + [o])[..|g|] == g && g + [] == g;
  }

  lemma {:induction false} UnseenPlant(orders: seq<PrepOrder>, p: nat)
    requires p !in FirstSeen(orders, PlantKey())
    ensures Group(orders, PlantKey(), p) == []
  {
    if orders != [] {
      var init, o := orders[..|orders| - 1], orders[|orders| - 1];
      assert orders == init + [o];
      UnseenPlant(init, p);
      PlantGroupSnoc(init, o, p);
    }
  }

  lemma AddOrderKeeps(orders: seq<PrepOrder>, o: PrepOrder, byPlant: map<nat, PlantAcc>, plantOrder: seq<nat>, acc: PlantAcc)
    requires GroupedByPlant(orders, byPlant, plantOrder)
    requires acc.orders == Group(orders, PlantKey(), o.plant) + [o]
    requires Accumulates(acc, LinesOf(Group(orders, PlantKey(), o.plant)) + o.lines)
    ensures GroupedByPlant(orders + [o], byPlant[o.plant := acc], if o.plant in byPlant then plantOrder else plantOrder + [o.plant])
  {
    var next := byPlant[o.plant := acc];
    PlantGroupSnoc(orders, o, o.plant);
    forall p: nat | p in next
      ensures next[p].orders == Group(orders + [o], PlantKey(), p) && Accumulates(next[p], LinesOf(Group(orders + [o], PlantKey(), p)))
    {
      PlantGroupSnoc(orders, o, p);
      if p != o.plant { assert Accumulates(byPlant[p], LinesOf(Group(orders, PlantKey(), p))); }
    }
  }

  method GroupOrdersByPlant(orders: seq<PrepOrder>) returns (byPlant: map<nat, PlantAcc>, plantOrder: seq<nat>)
    ensures GroupedByPlant(orders, byPlant, plantOrder)
  {
    byPlant, plantOrder := map[], [];
    for i := 0 to |orders|
      invariant GroupedByPlant(orders[..i], byPlant, plantOrder)
    {
      var o := orders[i];
      PrefixSnoc(orders, i);
      if o.plant !in byPlant { UnseenPlant(orders[..i], o.plant); }
      var acc := if o.plant in byPlant then byPlant[o.plant] else PlantAcc([], map[], []);
      var added := AddLines(acc, o.lines, LinesOf(Group(orders[..i], PlantKey(), o.plant)));
      added := added.(orders := added.orders + [o]);
      AddOrderKeeps(orders[..i], o, byPlant, plantOrder, added);
      plantOrder := if o.plant in byPlant then plantOrder else plantOrder + [o.plant];
      byPlant := byPlant[o.plant := added];
    }
    assert orders[..|orders|] == orders;
  }

  // ---------------------------------------------------------------- the sheet

  ghost predicate RowsFor(rows: seq<ItemRow>, seen: seq<nat>, lines: seq<Line>) {
    |rows| == |seen| && forall j | 0 <= j < |rows| :: rows[j] == ItemRow(seen[j], ItemQty(lines, seen[j]))
  }

  lemma RowsSnoc(rows: seq<ItemRow>, seen: seq<nat>, lines: seq<Line>, item: nat)
    requires RowsFor(rows, seen, lines)
    ensures RowsFor(rows + [ItemRow(item, ItemQty(lines, item))], seen + [item], lines)
    ensures GroupSums(lines, ItemKey(), QtyFn(), seen + [item]) == GroupSums(lines, ItemKey(), QtyFn(), seen) + ItemQty(lines, item)
  {
    assert (seen + [item])[..|seen|] == seen;
  }

  /** The item rows of a list of lines: each item once, in first-seen order, with its sum. */
  ghost predicate ItemRows(rows: seq<ItemRow>, lines: seq<Line>) {
    RowsFor(rows, FirstSeen(lines, ItemKey()), lines)
  }

  /** One plant's section: exactly its orders, its items, and the units of all its lines. */
  ghost predicate SectionOk(s: PlantSection, orders: seq<PrepOrder>, plant: nat) {
    var own := Group(orders, PlantKey(), plant);
    && s.plant == plant && s.orders == own && s.orderCount == |own|
    && ItemRows(s.items, LinesOf(own))
    && s.portionCount == SumBy(LinesOf(own), QtyFn()) == SumBy(own, PortionsFn())
  }

  lemma {:induction false} LinesPortions(orders: seq<PrepOrder>)
    ensures SumBy(LinesOf(orders), QtyFn()) == SumBy(orders, PortionsFn())
  {
    if orders != [] {
      LinesPortions(orders[..|orders| - 1]);
      SumConcat(LinesOf(orders[..|orders| - 1]), orders[|orders| - 1].lines, QtyFn());
    }
  }

  /** The rows of the items in first-seen order, and their sum. */
  method ItemTotals(acc: PlantAcc, ghost lines: seq<Line>) returns (items: seq<ItemRow>, portions: int)
    requires Accumulates(acc, lines)
    ensures ItemRows(items, lines)
    ensures portions == GroupSums(lines, ItemKey(), QtyFn(), acc.itemSeen)
  {
    items, portions := [], 0;
    for j := 0 to |acc.itemSeen|
      invariant RowsFor(items, acc.itemSeen[..j], lines)
      invariant portions == GroupSums(lines, ItemKey(), QtyFn(), acc.itemSeen[..j])
    {
      var id := acc.itemSeen[j];
      assert id in acc.itemSeen;
      PrefixSnoc(acc.itemSeen, j);
      RowsSnoc(items, acc.itemSeen[..j], lines, id);
      items := items + [ItemRow(id, acc.itemQty[id])];
      portions := portions + acc.itemQty[id];
    }
    assert acc.itemSeen[..|acc.itemSeen|] == acc.itemSeen;
  }

  method MakeSection(plant: nat, acc: PlantAcc, ghost orders: seq<PrepOrder>) returns (s: PlantSection)
    requires acc.orders == Group(orders, PlantKey(), plant) && Accumulates(acc, LinesOf(acc.orders))
    ensures SectionOk(s, orders, plant)
  {
    ghost var lines := LinesOf(acc.orders);
    var items, portions := ItemTotals(acc, lines);
    assert portions == SumBy(lines, QtyFn()) by {
      FirstSeenLists(lines, ItemKey());
      PartitionSum(lines, ItemKey(), QtyFn(), acc.itemSeen);
    }
    LinesPortions(acc.orders);
    s := PlantSection(plant, |acc.orders|, portions, items, acc.orders);
  }

  function OrderCounts(sections: seq<PlantSection>): int {
    if sections == [] then 0 else OrderCounts(sections[..|sections| - 1]) + sections[|sections| - 1].orderCount
  }

  function PortionCounts(sections: seq<PlantSection>): int {
    if sections == [] then 0 else PortionCounts(sections[..|sections| - 1]) + sections[|sections| - 1].portionCount
  }

  ghost predicate SectionsOk(sections: seq<PlantSection>, orders: seq<PrepOrder>, plants: seq<nat>) {
    |sections| == |plants| && forall j | 0 <= j < |plants| :: SectionOk(sections[j], orders, plants[j])
  }

  function One(): PrepOrder -> int { (o: PrepOrder) => 1 }

  lemma {:induction false} SumOnes(orders: seq<PrepOrder>)
    ensures SumBy(orders, One()) == |orders|
  {
    if orders != [] { SumOnes(orders[..|orders| - 1]); }
  }

  lemma {:induction false} SectionSums(sections: seq<PlantSection>, orders: seq<PrepOrder>, plants: seq<nat>)
    requires SectionsOk(sections, orders, plants)
    ensures OrderCounts(sections) == GroupSums(orders, PlantKey(), One(), plants)
    ensures PortionCounts(sections) == GroupSums(orders, PlantKey(), PortionsFn(), plants)
  {
    if plants != [] {
      var n := |plants| - 1;
      assert SectionsOk(sections[..n], orders, plants[..n]) by {
        forall j | 0 <= j < n ensures SectionOk(sections[..n][j], orders, plants[..n][j]) {
          assert SectionOk(sections[j], orders, plants[j]);
        }
      }
      SectionSums(sections[..n], orders, plants[..n]);
      assert SectionOk(sections[n], orders, plants[n]);
      SumOnes(Group(orders, PlantKey(), plants[n]));
    }
  }

  /**
   * Plants in first-seen order without repeats, each with exactly its own orders; the plants' order counts add up to all
   * orders and their portion counts to the units of all lines.
   */
  method AssemblePrepSheet(orders: seq<PrepOrder>) returns (sheet: Sheet)
    ensures SectionsOk(sheet.plants, orders, FirstSeen(orders, PlantKey()))
    ensures Distinct(FirstSeen(orders, PlantKey()))
    ensures sheet.totalOrders == |orders| == OrderCounts(sheet.plants)
    ensures sheet.totalPortions == PortionCounts(sheet.plants) == SumBy(orders, PortionsFn()) == SumBy(LinesOf(orders), QtyFn())
  {
    var byPlant, plantOrder := GroupOrdersByPlant(orders);
    var total := 0;
    var sections: seq<PlantSection> := [];
    for i := 0 to |plantOrder|
      invariant SectionsOk(sections, orders, plantOrder[..i]) && total == PortionCounts(sections)
    {
      var plant := plantOrder[i];
      assert plant in plantOrder;
      var s := MakeSection(plant, byPlant[plant], orders);
      assert (sections + [s])[..i] == sections;
      PrefixSnoc(plantOrder, i);
      SectionsSnoc(sections, s, orders, plantOrder[..i], plant);
      total := total + s.portionCount;
      sections := sections + [s];
    }
    assert plantOrder[..|plantOrder|] == plantOrder;
    SectionSums(sections, orders, plantOrder);
    FirstSeenLists(orders, PlantKey());
    PartitionSum(orders, PlantKey(), One(), plantOrder);
    PartitionSum(orders, PlantKey(), PortionsFn(), plantOrder);
    SumOnes(orders);
    LinesPortions(orders);
    sheet := Sheet(|orders|, total, sections);
  }

  lemma SectionsSnoc(sections: seq<PlantSection>, s: PlantSection, orders: seq<PrepOrder>, plants: seq<nat>, plant: nat)
    requires SectionsOk(sections, orders, plants) && SectionOk(s, orders, plant)
    ensures SectionsOk(sections + [s], orders, plants + [plant])
  {
    var all, ps := sections + [s], plants + [plant];
    forall j | 0 <= j < |ps| ensures SectionOk(all[j], orders, ps[j]) {
      if j < |plants| { assert SectionOk(sections[j], orders, plants[j]); }
    }
  }

  /** Every order stands in exactly one section, that of its plant. */
  lemma OrderStandsOnce(sheet: Sheet, orders: seq<PrepOrder>, o: PrepOrder, j: nat)
    requires SectionsOk(sheet.plants, orders, FirstSeen(orders, PlantKey())) && j < |sheet.plants|
    ensures o in sheet.plants[j].orders <==> o in orders && o.plant == sheet.plants[j].plant
  {
    assert SectionOk(sheet.plants[j], orders, FirstSeen(orders, PlantKey())[j]);
    InGroup(orders, PlantKey(), sheet.plants[j].plant, o);
  }
}
