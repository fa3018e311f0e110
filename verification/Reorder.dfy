/** Reorder: which lines of an old order can be cloned onto a new day, and the order made of them. */
module Reorder {
  import opened Wrappers
  import opened OrderTypes
  import opened Stock
  import opened Catalog

  datatype Reason = Archived | NoSupply | CutoffHasPassed | OutOfQuota

  datatype Unavailable = Unavailable(item: nat, reason: Reason)

  datatype Verdict = Survives(line: Line) | Drops(unavailable: Unavailable)

  /** The checks in the order of the code; a surviving line gets the current price. */
  function ClassifyOne(cat: Catalog, s: Supplies, day: int, now: int, it: Line): Verdict {
    var k := Key(it.item, day);
    if it.item !in cat.menu || cat.menu[it.item].archived then Drops(Unavailable(it.item, Archived))
    else if k !in s then Drops(Unavailable(it.item, NoSupply))
    else if now >= s[k].cutoffAt then Drops(Unavailable(it.item, CutoffHasPassed))
    else if s[k].remain < it.qty then Drops(Unavailable(it.item, OutOfQuota))
    else Survives(Line(it.item, it.qty, cat.menu[it.item].price))
  }

  function Survivors(cat: Catalog, s: Supplies, day: int, now: int, items: seq<Line>): seq<Line> {
    if items == [] then []
    else
      var rest := Survivors(cat, s, day, now, items[..|items| - 1]);
      match ClassifyOne(cat, s, day, now, items[|items| - 1])
      case Survives(line) => rest + [line]
      case Drops(_) => rest
  }

  function Dropped(cat: Catalog, s: Supplies, day: int, now: int, items: seq<Line>): seq<Unavailable> {
    if items == [] then []
    else
      var rest := Dropped(cat, s, day, now, items[..|items| - 1]);
      match ClassifyOne(cat, s, day, now, items[|items| - 1])
      case Survives(_) => rest
      case Drops(u) => rest + [u]
  }

  // ---------------------------------------------------------------- what can be ordered again

  /** The item can be sold again on the day: on the menu, not archived, with a row before its cutoff and enough left. */
  ghost predicate Sellable(cat: Catalog, s: Supplies, day: int, now: int, l: Line) {
    && l.item in cat.menu && !cat.menu[l.item].archived
    && Key(l.item, day) in s && now < s[Key(l.item, day)].cutoffAt && l.qty <= s[Key(l.item, day)].remain
  }

  /** The first check that the line fails. */
  ghost predicate FailsFor(cat: Catalog, s: Supplies, day: int, now: int, l: Line, reason: Reason) {
    var onMenu := l.item in cat.menu && !cat.menu[l.item].archived;
    var k := Key(l.item, day);
    match reason
    case Archived => !onMenu
    case NoSupply => onMenu && k !in s
    case CutoffHasPassed => onMenu && k in s && s[k].cutoffAt <= now
    case OutOfQuota => onMenu && k in s && now < s[k].cutoffAt && s[k].remain < l.qty
  }

  /** The same item and quantity at the price of today's menu. */
  ghost predicate Repriced(cat: Catalog, l: Line, again: Line) {
    again.item == l.item && again.qty == l.qty && l.item in cat.menu && again.price == cat.menu[l.item].price
  }

  /** The sellable lines in order, repriced, and the others in order, each with the first check that it fails. */
  ghost predicate SortedOut(cat: Catalog, s: Supplies, day: int, now: int, items: seq<Line>, kept: seq<Line>, dropped: seq<Unavailable>)
    decreases |items|
  {
    if items == [] then kept == [] && dropped == []
    else
      var init, l := items[..|items| - 1], items[|items| - 1];
      if Sellable(cat, s, day, now, l)
      then kept != [] && Repriced(cat, l, kept[|kept| - 1]) && SortedOut(cat, s, day, now, init, kept[..|kept| - 1], dropped)
      else && dropped != [] && dropped[|dropped| - 1].item == l.item && FailsFor(cat, s, day, now, l, dropped[|dropped| - 1].reason)
           && SortedOut(cat, s, day, now, init, kept, dropped[..|dropped| - 1])
  }

  /** A line survives exactly when it is sellable, as itself at the current price; otherwise the first failing check is told. */
  lemma ClassifyExactly(cat: Catalog, s: Supplies, day: int, now: int, l: Line)
    ensures var v := ClassifyOne(cat, s, day, now, l);
            && (v.Survives? <==> Sellable(cat, s, day, now, l))
            && (v.Survives? ==> Repriced(cat, l, v.line))
            && (v.Drops? ==> v.unavailable.item == l.item && FailsFor(cat, s, day, now, l, v.unavailable.reason))
  {
  }

  lemma {:induction false} SurvivorsExactly(cat: Catalog, s: Supplies, day: int, now: int, items: seq<Line>)
    ensures SortedOut(cat, s, day, now, items, Survivors(cat, s, day, now, items), Dropped(cat, s, day, now, items))
  {
    if items != [] {
      var init, l := items[..|items| - 1], items[|items| - 1];
      SurvivorsExactly(cat, s, day, now, init);
      ClassifyExactly(cat, s, day, now, l);
      var kept, dropped := Survivors(cat, s, day, now, init), Dropped(cat, s, day, now, init);
      match ClassifyOne(cat, s, day, now, l)
      case Survives(line) => assert (kept + [line])[..|kept|] == kept;
      case Drops(u) => assert (dropped + [u])[..|dropped|] == dropped;
    }
  }

  /** There is one way to sort the lines out. */
  lemma {:induction false} SortedOutUnique(cat: Catalog, s: Supplies, day: int, now: int, items: seq<Line>,
                                           k1: seq<Line>, d1: seq<Unavailable>, k2: seq<Line>, d2: seq<Unavailable>)
    requires SortedOut(cat, s, day, now, items, k1, d1) && SortedOut(cat, s, day, now, items, k2, d2)
    ensures k1 == k2 && d1 == d2
    decreases |items|
  {
    if items != [] {
      var init, l := items[..|items| - 1], items[|items| - 1];
      if Sellable(cat, s, day, now, l) {
        SortedOutUnique(cat, s, day, now, init, k1[..|k1| - 1], d1, k2[..|k2| - 1], d2);
        assert k1 == k1[..|k1| - 1] + [k1[|k1| - 1]] && k2 == k2[..|k2| - 1] + [k2[|k2| - 1]];
      } else {
        SortedOutUnique(cat, s, day, now, init, k1, d1[..|d1| - 1], k2, d2[..|d2| - 1]);
        assert d1 == d1[..|d1| - 1] + [d1[|d1| - 1]] && d2 == d2[..|d2| - 1] + [d2[|d2| - 1]];
      }
    }
  }

  method ClassifyItems(cat: Catalog, s: Supplies, day: int, now: int, items: seq<Line>)
    returns (survivors: seq<Line>, unavailable: seq<Unavailable>)
    ensures survivors == Survivors(cat, s, day, now, items)
    ensures unavailable == Dropped(cat, s, day, now, items)
    ensures SortedOut(cat, s, day, now, items, survivors, unavailable)
  {
    SurvivorsExactly(cat, s, day, now, items);
    survivors, unavailable := [], [];
    for i := 0 to |items|
      invariant survivors == Survivors(cat, s, day, now, items[..i])
      invariant unavailable == Dropped(cat, s, day, now, items[..i])
    {
      assert items[..i + 1][..i] == items[..i];
      match ClassifyOne(cat, s, day, now, items[i]) {
        case Drops(u) => unavailable := unavailable + [u];
        case Survives(line) => survivors := survivors + [line];
      }
    }
    assert items[..|items|] == items;
  }

  /** The price loop of buildReorderOrder. */
  method TotalPrice(lines: seq<Line>) returns (total: int)
    ensures total == TotalOf(lines)
  {
    total := 0;
    for i := 0 to |lines|
      invariant total == TotalOf(lines[..i])
    {
      assert lines[..i + 1][..i] == lines[..i];
      total := total + lines[i].price * lines[i].qty;
    }
    assert lines[..|lines|] == lines;
  }

  // ---------------------------------------------------------------- no line is lost

  function ItemsOf(lines: seq<Line>): seq<nat> {
    seq(|lines|, i requires 0 <= i < |lines| => lines[i].item)
  }

  function ItemsOfDropped(us: seq<Unavailable>): seq<nat> {
    seq(|us|, i requires 0 <= i < |us| => us[i].item)
  }

  /** `whole` is an interleaving of a and b that keeps the order of both. */
  ghost predicate Interleaves(a: seq<nat>, b: seq<nat>, whole: seq<nat>)
    decreases |whole|
  {
    if whole == [] then a == [] && b == []
    else
      var init, last := whole[..|whole| - 1], whole[|whole| - 1];
      || (a != [] && a[|a| - 1] == last && Interleaves(a[..|a| - 1], b, init))
      || (b != [] && b[|b| - 1] == last && Interleaves(a, b[..|b| - 1], init))
  }

  lemma OneMoreLine(a: seq<nat>, b: seq<nat>, whole: seq<nat>, x: nat)
    requires Interleaves(a, b, whole)
    ensures Interleaves(a + [x], b, whole + [x]) && Interleaves(a, b + [x], whole + [x])
  {
    assert (whole + [x])[..|whole|] == whole && (a + [x])[..|a|] == a && (b + [x])[..|b|] == b;
  }

  lemma ItemsSnoc(lines: seq<Line>, l: Line)
    ensures ItemsOf(lines + [l]) == ItemsOf(lines) + [l.item]
  {
  }

  lemma DroppedSnoc(us: seq<Unavailable>, u: Unavailable)
    ensures ItemsOfDropped(us + [u]) == ItemsOfDropped(us) + [u.item]
  {
  }

  /** The last line goes to the one list or to the other. */
  lemma LastLine(cat: Catalog, s: Supplies, day: int, now: int, items: seq<Line>)
    requires items != []
    ensures var init, x := items[..|items| - 1], items[|items| - 1].item;
            var a, b := Survivors(cat, s, day, now, items), Dropped(cat, s, day, now, items);
            var a', b' := Survivors(cat, s, day, now, init), Dropped(cat, s, day, now, init);
            && ItemsOf(items) == ItemsOf(init) + [x]
            && ((ItemsOf(a) == ItemsOf(a') + [x] && |a| == |a'| + 1 && b == b') || (a == a' && ItemsOfDropped(b) == ItemsOfDropped(b') + [x] && |b| == |b'| + 1))
  {
    var init, it := items[..|items| - 1], items[|items| - 1];
    ItemsSnoc(init, it);
    assert items == init + [it];
    match ClassifyOne(cat, s, day, now, it)
    case Survives(line) => ItemsSnoc(Survivors(cat, s, day, now, init), line);
    case Drops(u) => DroppedSnoc(Dropped(cat, s, day, now, init), u);
  }

  /** Survivors and unavailable lines are complementary in-order subsequences of the source. */
  lemma {:induction false} NoLineLost(cat: Catalog, s: Supplies, day: int, now: int, items: seq<Line>)
    ensures Interleaves(ItemsOf(Survivors(cat, s, day, now, items)), ItemsOfDropped(Dropped(cat, s, day, now, items)), ItemsOf(items))
    ensures |Survivors(cat, s, day, now, items)| + |Dropped(cat, s, day, now, items)| == |items|
  {
    if items != [] {
      var init, x := items[..|items| - 1], items[|items| - 1].item;
      NoLineLost(cat, s, day, now, init);
      LastLine(cat, s, day, now, items);
      OneMoreLine(ItemsOf(Survivors(cat, s, day, now, init)), ItemsOfDropped(Dropped(cat, s, day, now, init)), ItemsOf(init), x);
    }
  }

  /** A survivor is a source line that passed every check, at the current price. */
  lemma {:induction false} SurvivorPasses(cat: Catalog, s: Supplies, day: int, now: int, items: seq<Line>, j: nat)
    requires j < |Survivors(cat, s, day, now, items)|
    ensures var line := Survivors(cat, s, day, now, items)[j];
            && (exists i :: 0 <= i < |items| && Sellable(cat, s, day, now, items[i]) && Repriced(cat, items[i], line))
            && Sellable(cat, s, day, now, line) && line.price == cat.menu[line.item].price
  {
    var init, l := items[..|items| - 1], items[|items| - 1];
    if j < |Survivors(cat, s, day, now, init)| {
      SurvivorPasses(cat, s, day, now, init, j);
      var line := Survivors(cat, s, day, now, items)[j];
      var i :| 0 <= i < |init| && Sellable(cat, s, day, now, init[i]) && Repriced(cat, init[i], line);
      assert Sellable(cat, s, day, now, items[i]) && Repriced(cat, items[i], line);
    } else {
      ClassifyExactly(cat, s, day, now, l);
      assert Sellable(cat, s, day, now, items[|items| - 1]);
    }
  }

  lemma SurvivorsPositive(cat: Catalog, s: Supplies, day: int, now: int, items: seq<Line>)
    requires AllPositive(items)
    ensures AllPositive(Survivors(cat, s, day, now, items))
  {
    var lines := Survivors(cat, s, day, now, items);
    forall j | 0 <= j < |lines| ensures lines[j].qty > 0 {
      SurvivorPasses(cat, s, day, now, items, j);
    }
  }

  ghost predicate DistinctItems(lines: seq<Line>) {
    forall i, j | 0 <= i < j < |lines| :: lines[i].item != lines[j].item
  }

  /** Units of one item on lines that name it once. */
  lemma {:induction false} QtyOfOnce(lines: seq<Line>, j: nat)
    requires j < |lines| && forall i | 0 <= i < |lines| && i != j :: lines[i].item != lines[j].item
    ensures QtyOf(lines, lines[j].item) == lines[j].qty
  {
    var n := |lines| - 1;
    if j == n {
      QtyUnmentioned(lines[..n], lines[j].item);
    } else {
      QtyOfOnce(lines[..n], j);
    }
  }

  /**
   * The per-line check before the transaction does not look at the sold-out flag nor add up repeated items: run alone, the
   * decrements succeed exactly when no survivor is flagged and the sum for each item fits.
   */
  lemma SurvivorsFitExactly(cat: Catalog, s: Supplies, day: int, now: int, items: seq<Line>)
    requires AllPositive(items)
    ensures var lines := Survivors(cat, s, day, now, items);
            CanTake(s, day, lines) <==>
            forall j | 0 <= j < |lines| ::
              && Key(lines[j].item, day) in s && !s[Key(lines[j].item, day)].soldOut
              && QtyOf(lines, lines[j].item) <= s[Key(lines[j].item, day)].remain
  {
    SurvivorsPositive(cat, s, day, now, items);
    var lines := Survivors(cat, s, day, now, items);
    assert forall j | 0 <= j < |lines| :: CanTakeItem(s, day, lines, lines[j].item) <==>
        Key(lines[j].item, day) in s && !s[Key(lines[j].item, day)].soldOut && QtyOf(lines, lines[j].item) <= s[Key(lines[j].item, day)].remain;
  }

  /** With distinct items and no flag the pre-check is enough. */
  lemma DistinctSurvivorsFit(cat: Catalog, s: Supplies, day: int, now: int, items: seq<Line>)
    requires AllPositive(items)
    requires var lines := Survivors(cat, s, day, now, items);
             DistinctItems(lines) && forall j | 0 <= j < |lines| && Key(lines[j].item, day) in s :: !s[Key(lines[j].item, day)].soldOut
    ensures CanTake(s, day, Survivors(cat, s, day, now, items))
  {
    SurvivorsFitExactly(cat, s, day, now, items);
    var lines := Survivors(cat, s, day, now, items);
    forall j | 0 <= j < |lines|
      ensures && Key(lines[j].item, day) in s && !s[Key(lines[j].item, day)].soldOut
              && QtyOf(lines, lines[j].item) <= s[Key(lines[j].item, day)].remain
    {
      SurvivorPasses(cat, s, day, now, items, j);
      QtyOfOnce(lines, j);
    }
  }

  /** Two lines of three units of one item both pass against five units, and the order is then refused. */
  lemma RepeatedItemRefused()
    ensures var cat := Catalog(map[7 := MenuItem(1, 100, false)], map[], map[]);
            var s := map[Key(7, 20) := Supply(5, 5, false, 50)];
            var items := [Line(7, 3, 90), Line(7, 3, 90)];
            && Dropped(cat, s, 20, 10, items) == []
            && Survivors(cat, s, 20, 10, items) == [Line(7, 3, 100), Line(7, 3, 100)]
            && !CanTake(s, 20, Survivors(cat, s, 20, 10, items))
  {
    var cat := Catalog(map[7 := MenuItem(1, 100, false)], map[], map[]);
    var s := map[Key(7, 20) := Supply(5, 5, false, 50)];
    var a, b := Line(7, 3, 90), Line(7, 3, 100);
    assert [a, a][..1] == [a] && [a][..0] == [];
    assert Survivors(cat, s, 20, 10, [a]) == [b];
    assert [b, b][..1] == [b] && [b][..0] == [];
    QtySnoc([], b, 7);
    QtySnoc([b], b, 7);
    assert [] + [b] == [b] && [b] + [b] == [b, b];
    assert !CanTakeItem(s, 20, [b, b], [b, b][0].item);
  }
}
