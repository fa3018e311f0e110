/** The meal_supply table: the conditional decrement, the capped restore, and the loops that apply them. */
module Stock {
  import opened Wrappers
  import opened OrderTypes

  datatype Key = Key(item: nat, date: int)

  datatype Supply = Supply(capacity: int, remain: int, soldOut: bool, cutoffAt: int)

  type Supplies = map<Key, Supply>

  datatype StockError = BadQuantity | SupplyNotFound | OutOfStock

  /** The CHECK constraints of the table: remain is within [0, capacity] on every row. */
  ghost predicate Bounded(s: Supplies) {
    forall k | k in s :: 0 <= s[k].remain <= s[k].capacity
  }

  /** UPDATE ... SET remain = remain - n WHERE remain >= n AND sold_out = false. */
  function DecrementTx(s: Supplies, k: Key, n: int): Result<Supplies, StockError> {
    if n <= 0 then Failure(BadQuantity)
    else if k !in s then Failure(SupplyNotFound)
    else if s[k].remain < n || s[k].soldOut then Failure(OutOfStock)
    else Success(s[k := s[k].(remain := s[k].remain - n)])
  }

  /** UPDATE ... SET remain = LEAST(remain + n, capacity); a missing row is silently skipped. */
  function RestoreTx(s: Supplies, k: Key, n: int): Result<Supplies, StockError> {
    if n <= 0 then Failure(BadQuantity)
    else if k !in s then Success(s)
    else Success(s[k := s[k].(remain := Min(s[k].remain + n, s[k].capacity))])
  }

  function Min(a: int, b: int): int { if a <= b then a else b }

  // ---------------------------------------------------------------- taking every line of an order

  predicate CanTakeItem(s: Supplies, date: int, lines: seq<Line>, item: nat) {
    var k := Key(item, date);
    k in s && !s[k].soldOut && QtyOf(lines, item) <= s[k].remain
  }

  /** Every quantity is positive and every item named has room for the sum of its lines. */
  predicate CanTake(s: Supplies, date: int, lines: seq<Line>) {
    AllPositive(lines) && forall i | 0 <= i < |lines| :: CanTakeItem(s, date, lines, lines[i].item)
  }

  function Taken(s: Supplies, date: int, lines: seq<Line>): Supplies {
    map k | k in s :: if k.date == date then s[k].(remain := s[k].remain - QtyOf(lines, k.item)) else s[k]
  }

  /** The error of the first line that does not fit behind the lines before it. */
  ghost predicate FailsFirstAt(s: Supplies, date: int, lines: seq<Line>, i: nat, e: StockError) {
    && i < |lines|
    && CanTake(s, date, lines[..i])
    && DecrementTx(Taken(s, date, lines[..i]), Key(lines[i].item, date), lines[i].qty) == Failure(e)
  }

  lemma TakeOneMore(s: Supplies, date: int, lines: seq<Line>, n: nat)
    requires n < |lines| && CanTake(s, date, lines[..n])
    ensures var d := DecrementTx(Taken(s, date, lines[..n]), Key(lines[n].item, date), lines[n].qty);
            && (d.Success? <==> CanTake(s, date, lines[..n + 1]))
            && (d.Success? ==> d.value == Taken(s, date, lines[..n + 1]))
  {
    var pre, post := lines[..n], lines[..n + 1];
    assert post == pre + [lines[n]];
    forall item: nat ensures QtyOf(post, item) == QtyOf(pre, item) + if lines[n].item == item then lines[n].qty else 0 {
      QtyPrefix(lines, n, item);
    }
    if lines[n].qty > 0 {
      QtyPositive(pre, lines[n].item);
      if CanTakeItem(s, date, post, lines[n].item) {
        forall i | 0 <= i < |post| ensures CanTakeItem(s, date, post, post[i].item) {
          if i < n { assert pre[i] == post[i]; }
        }
      } else {
        assert post[n].item == lines[n].item;
      }
    } else {
      assert post[n].qty <= 0;
    }
  }

  /** A longer list cannot fit when a prefix does not. */
  lemma TakePrefix(s: Supplies, date: int, lines: seq<Line>, n: nat)
    requires n <= |lines| && CanTake(s, date, lines)
    ensures CanTake(s, date, lines[..n])
    decreases |lines| - n
  {
    if n == |lines| {
      assert lines[..n] == lines;
    } else {
      TakePrefix(s, date, lines, n + 1);
      var pre, post := lines[..n], lines[..n + 1];
      forall i | 0 <= i < n ensures CanTakeItem(s, date, pre, pre[i].item) {
        assert post[i] == pre[i];
        QtyPrefix(lines, n, pre[i].item);
        assert post[n].qty > 0;
      }
      assert forall i | 0 <= i < n :: pre[i] == post[i];
    }
  }

  /** The decrement loop shared by Place and Reorder. */
  method TakeLines(s: Supplies, date: int, lines: seq<Line>) returns (r: Result<Supplies, StockError>)
    ensures r.Success? <==> CanTake(s, date, lines)
    ensures r.Success? ==> r.value == Taken(s, date, lines)
    ensures r.Failure? ==> exists i :: FailsFirstAt(s, date, lines, i, r.error)
  {
    var tx := s;
    for i := 0 to |lines|
      invariant CanTake(s, date, lines[..i])
      invariant tx == Taken(s, date, lines[..i])
    {
      TakeOneMore(s, date, lines, i);
      var d := DecrementTx(tx, Key(lines[i].item, date), lines[i].qty);
      if d.Failure? {
        if CanTake(s, date, lines) { TakePrefix(s, date, lines, i + 1); }
        assert FailsFirstAt(s, date, lines, i, d.error);
        return Failure(d.error);
      }
      tx := d.value;
    }
    assert lines[..|lines|] == lines;
    return Success(tx);
  }

  // ---------------------------------------------------------------- giving every line back

  function Given(s: Supplies, date: int, lines: seq<Line>): Supplies {
    map k | k in s ::
      if k.date == date && QtyOf(lines, k.item) > 0
      then s[k].(remain := Min(s[k].remain + QtyOf(lines, k.item), s[k].capacity))
      else s[k]
  }

  /** The restore loop of Cancel: it fails only on a quantity that is not positive. */
  method GiveLines(s: Supplies, date: int, lines: seq<Line>) returns (r: Result<Supplies, StockError>)
    ensures r.Success? <==> AllPositive(lines)
    ensures r.Success? ==> r.value == Given(s, date, lines)
    ensures r.Failure? ==> r.error == BadQuantity
  {
    var tx := s;
    for i := 0 to |lines|
      invariant AllPositive(lines[..i])
      invariant tx == Given(s, date, lines[..i])
    {
      var d := RestoreTx(tx, Key(lines[i].item, date), lines[i].qty);
      if d.Failure? { return Failure(d.error); }
      forall item: nat
        ensures QtyOf(lines[..i + 1], item) == QtyOf(lines[..i], item) + if lines[i].item == item then lines[i].qty else 0
        ensures QtyOf(lines[..i], item) >= 0
      {
        QtyPrefix(lines, i, item);
        QtyPositive(lines[..i], item);
      }
      tx := d.value;
    }
    assert lines[..|lines|] == lines;
    return Success(tx);
  }

  // ---------------------------------------------------------------- the net delta of a modification

  function NetDelta(current: seq<Line>, desired: seq<Line>, item: nat): int {
    QtyOf(desired, item) - QtyOf(current, item)
  }

  /** desired - current per item, over the items that either list names. */
  method QuotaDeltaForModify(current: seq<Line>, desired: seq<Line>) returns (delta: map<nat, int>)
    ensures forall item :: item in delta <==> Mentions(current, item) || Mentions(desired, item)
    ensures forall item | item in delta :: delta[item] == NetDelta(current, desired, item)
  {
    delta := map[];
    for i := 0 to |current|
      invariant forall item :: item in delta <==> Mentions(current[..i], item)
      invariant forall item: nat :: QtyOf(current[..i], item) == if item in delta then -delta[item] else 0
    {
      var it := current[i];
      forall item: nat ensures QtyOf(current[..i + 1], item) == QtyOf(current[..i], item) + if it.item == item then it.qty else 0 {
        QtyPrefix(current, i, item);
      }
      MentionsPrefix(current, i);
      delta := delta[it.item := (if it.item in delta then delta[it.item] else 0) - it.qty];
    }
    assert current[..|current|] == current;
    for i := 0 to |desired|
      invariant forall item :: item in delta <==> Mentions(current, item) || Mentions(desired[..i], item)
      invariant forall item: nat :: NetDelta(current, desired[..i], item) == if item in delta then delta[item] else 0
    {
      var it := desired[i];
      forall item: nat ensures QtyOf(desired[..i + 1], item) == QtyOf(desired[..i], item) + if it.item == item then it.qty else 0 {
        QtyPrefix(desired, i, item);
      }
      MentionsPrefix(desired, i);
      delta := delta[it.item := (if it.item in delta then delta[it.item] else 0) + it.qty];
    }
    assert desired[..|desired|] == desired;
  }

  lemma MentionsPrefix(lines: seq<Line>, n: nat)
    requires n < |lines|
    ensures forall item :: Mentions(lines[..n + 1], item) <==> Mentions(lines[..n], item) || lines[n].item == item
  {
    var pre, post := lines[..n], lines[..n + 1];
    forall item ensures Mentions(post, item) <==> Mentions(pre, item) || lines[n].item == item {
      if Mentions(pre, item) {
        var i :| 0 <= i < |pre| && pre[i].item == item;
        assert post[i].item == item;
      }
      if lines[n].item == item { assert post[n].item == item; }
      if Mentions(post, item) && lines[n].item != item {
        var i :| 0 <= i < |post| && post[i].item == item;
        assert pre[i].item == item;
      }
    }
  }

  predicate DeltaFits(s: Supplies, date: int, item: nat, d: int) {
    d > 0 ==> Key(item, date) in s && !s[Key(item, date)].soldOut && d <= s[Key(item, date)].remain
  }

  function Shift(p: Supply, d: int): Supply {
    if d > 0 then p.(remain := p.remain - d)
    else if d < 0 then p.(remain := Min(p.remain - d, p.capacity))
    else p
  }

  function Shifted(s: Supplies, date: int, delta: map<nat, int>, done: set<nat>): Supplies {
    map k | k in s :: if k.date == date && k.item in delta && k.item in done then Shift(s[k], delta[k.item]) else s[k]
  }

  /** Applies the delta in whatever order the map is iterated; on failure the transaction is rolled back. */
  method ApplyQuotaDelta(s: Supplies, date: int, delta: map<nat, int>) returns (r: Result<Supplies, StockError>)
    ensures r.Success? <==> forall item | item in delta :: DeltaFits(s, date, item, delta[item])
    ensures r.Success? ==> r.value == Shifted(s, date, delta, delta.Keys)
  {
    var tx := s;
    var pending := delta.Keys;
    while pending != {}
      invariant pending <= delta.Keys
      invariant forall item | item in delta.Keys - pending :: DeltaFits(s, date, item, delta[item])
      invariant tx == Shifted(s, date, delta, delta.Keys - pending)
    {
      var item :| item in pending;
      var d := delta[item];
      var k := Key(item, date);
      if d > 0 {
        var q := DecrementTx(tx, k, d);
        if q.Failure? { return Failure(q.error); }
        tx := q.value;
      } else if d < 0 {
        var q := RestoreTx(tx, k, -d);
        tx := q.value;
      }
      pending := pending - {item};
    }
    return Success(tx);
  }

  predicate CanNet(s: Supplies, date: int, current: seq<Line>, desired: seq<Line>) {
    && (forall i | 0 <= i < |current| :: DeltaFits(s, date, current[i].item, NetDelta(current, desired, current[i].item)))
    && (forall i | 0 <= i < |desired| :: DeltaFits(s, date, desired[i].item, NetDelta(current, desired, desired[i].item)))
  }

  function Netted(s: Supplies, date: int, current: seq<Line>, desired: seq<Line>): Supplies {
    map k | k in s :: if k.date == date then Shift(s[k], NetDelta(current, desired, k.item)) else s[k]
  }

  /** An item that no line names has no units. */
  lemma {:induction false} QtyUnmentioned(lines: seq<Line>, item: nat)
    requires !Mentions(lines, item)
    ensures QtyOf(lines, item) == 0
  {
    if lines != [] {
      var init := lines[..|lines| - 1];
      assert forall i | 0 <= i < |init| :: init[i] == lines[i];
      assert lines[|lines| - 1].item != item;
      QtyUnmentioned(init, item);
    }
  }

  /** The two methods of Modify together, stated on the lists alone. */
  method ApplyModification(s: Supplies, date: int, current: seq<Line>, desired: seq<Line>) returns (r: Result<Supplies, StockError>)
    ensures r.Success? <==> CanNet(s, date, current, desired)
    ensures r.Success? ==> r.value == Netted(s, date, current, desired)
  {
    var delta := QuotaDeltaForModify(current, desired);
    r := ApplyQuotaDelta(s, date, delta);
    assert (forall item | item in delta :: DeltaFits(s, date, item, delta[item])) <==> CanNet(s, date, current, desired) by {
      if CanNet(s, date, current, desired) {
        forall item | item in delta ensures DeltaFits(s, date, item, delta[item]) {
          if Mentions(current, item) {
            var i :| 0 <= i < |current| && current[i].item == item;
          } else {
            var i :| 0 <= i < |desired| && desired[i].item == item;
          }
        }
      }
      if forall item | item in delta :: DeltaFits(s, date, item, delta[item]) {
        forall i | 0 <= i < |current| ensures DeltaFits(s, date, current[i].item, NetDelta(current, desired, current[i].item)) {
          assert Mentions(current, current[i].item);
        }
        forall i | 0 <= i < |desired| ensures DeltaFits(s, date, desired[i].item, NetDelta(current, desired, desired[i].item)) {
          assert Mentions(desired, desired[i].item);
        }
      }
    }
    if r.Success? {
      forall k | k in s && k.date == date && k.item !in delta ensures NetDelta(current, desired, k.item) == 0 {
        QtyUnmentioned(current, k.item);
        QtyUnmentioned(desired, k.item);
      }
    }
  }

  // ---------------------------------------------------------------- net delta against release-then-take

  /** The rows account for the units of `current`: giving them back meets no cap. */
  ghost predicate Accounted(s: Supplies, date: int, current: seq<Line>) {
    forall k | k in s && k.date == date :: QtyOf(current, k.item) <= s[k].capacity - s[k].remain
  }

  /** Every desired item has a row that still sells. */
  ghost predicate StillSold(s: Supplies, date: int, desired: seq<Line>) {
    forall i | 0 <= i < |desired| :: Key(desired[i].item, date) in s && !s[Key(desired[i].item, date)].soldOut
  }

  /** The net delta leaves remain + current - desired on every row of the date and nothing else changes. */
  lemma NettedRow(s: Supplies, date: int, current: seq<Line>, desired: seq<Line>, k: Key)
    requires Accounted(s, date, current) && AllPositive(desired) && k in s
    ensures k.date == date ==>
              Netted(s, date, current, desired)[k] == s[k].(remain := s[k].remain + QtyOf(current, k.item) - QtyOf(desired, k.item))
    ensures k.date != date ==> Netted(s, date, current, desired)[k] == s[k]
  {
    QtyPositive(desired, k.item);
  }

  /** The net delta succeeds exactly when every item that grows has a selling row with remain + current >= desired. */
  lemma NetSucceedsExactly(s: Supplies, date: int, current: seq<Line>, desired: seq<Line>)
    ensures CanNet(s, date, current, desired) <==>
            forall item: nat | QtyOf(desired, item) > QtyOf(current, item) ::
              var k := Key(item, date);
              k in s && !s[k].soldOut && s[k].remain + QtyOf(current, item) >= QtyOf(desired, item)
  {
    if CanNet(s, date, current, desired) {
      forall item: nat | QtyOf(desired, item) > QtyOf(current, item)
        ensures DeltaFits(s, date, item, NetDelta(current, desired, item))
      {
        if Mentions(current, item) {
          var i :| 0 <= i < |current| && current[i].item == item;
        } else if Mentions(desired, item) {
          var i :| 0 <= i < |desired| && desired[i].item == item;
        } else {
          QtyUnmentioned(current, item);
          QtyUnmentioned(desired, item);
        }
      }
    }
  }

  /** Row by row the net delta is releasing and taking. */
  lemma NettedIsTaken(s: Supplies, date: int, current: seq<Line>, desired: seq<Line>)
    requires AllPositive(current) && AllPositive(desired) && Accounted(s, date, current)
    ensures Netted(s, date, current, desired) == Taken(Given(s, date, current), date, desired)
  {
    forall k | k in s ensures Netted(s, date, current, desired)[k] == Taken(Given(s, date, current), date, desired)[k] {
      NettedRow(s, date, current, desired, k);
      QtyPositive(current, k.item);
    }
  }

  /** An item's row after everything is released: it sells as before and has the units given back on top. */
  lemma GivenRow(s: Supplies, date: int, current: seq<Line>, item: nat)
    requires AllPositive(current) && Accounted(s, date, current)
    ensures var k, g := Key(item, date), Given(s, date, current);
            && (k in g <==> k in s)
            && (k in s ==> g[k].soldOut == s[k].soldOut && g[k].remain == s[k].remain + QtyOf(current, item))
  {
    QtyPositive(current, item);
  }

  lemma NetThenTake(s: Supplies, date: int, current: seq<Line>, desired: seq<Line>)
    requires AllPositive(current) && AllPositive(desired) && Accounted(s, date, current) && Bounded(s)
    requires CanNet(s, date, current, desired) && StillSold(s, date, desired)
    ensures CanTake(Given(s, date, current), date, desired)
  {
    NetSucceedsExactly(s, date, current, desired);
    forall i | 0 <= i < |desired| ensures CanTakeItem(Given(s, date, current), date, desired, desired[i].item) {
      GivenRow(s, date, current, desired[i].item);
    }
  }

  lemma TakeThenNet(s: Supplies, date: int, current: seq<Line>, desired: seq<Line>)
    requires AllPositive(current) && AllPositive(desired) && Accounted(s, date, current)
    requires CanTake(Given(s, date, current), date, desired)
    ensures CanNet(s, date, current, desired) && StillSold(s, date, desired)
  {
    var g := Given(s, date, current);
    forall i | 0 <= i < |desired| ensures Key(desired[i].item, date) in s && !s[Key(desired[i].item, date)].soldOut {
      GivenRow(s, date, current, desired[i].item);
      assert CanTakeItem(g, date, desired, desired[i].item);
    }
    forall item: nat | QtyOf(desired, item) > QtyOf(current, item)
      ensures Key(item, date) in s && !s[Key(item, date)].soldOut
      ensures s[Key(item, date)].remain + QtyOf(current, item) >= QtyOf(desired, item)
    {
      GivenRow(s, date, current, item);
      QtyPositive(current, item);
      QtyPositive(desired, item);
      var i :| 0 <= i < |desired| && desired[i].item == item;
      assert CanTakeItem(g, date, desired, desired[i].item);
    }
    NetSucceedsExactly(s, date, current, desired);
  }

  /**
   * Release everything, then take everything: whenever that succeeds the net delta succeeds with the same rows.
   * The net delta also succeeds on lists whose kept or shrinking items no longer sell, and only there do the two part.
   */
  lemma NetRefinesReleaseThenTake(s: Supplies, date: int, current: seq<Line>, desired: seq<Line>)
    requires AllPositive(current) && AllPositive(desired) && Accounted(s, date, current)
    requires Bounded(s)
    ensures CanTake(Given(s, date, current), date, desired) <==> CanNet(s, date, current, desired) && StillSold(s, date, desired)
    ensures Netted(s, date, current, desired) == Taken(Given(s, date, current), date, desired)
  {
    NettedIsTaken(s, date, current, desired);
    if CanTake(Given(s, date, current), date, desired) { TakeThenNet(s, date, current, desired); }
    if CanNet(s, date, current, desired) && StillSold(s, date, desired) { NetThenTake(s, date, current, desired); }
  }

  // ---------------------------------------------------------------- capacity

  /** The row SetCapacity writes from the row it read: sold units stay sold, clamped at zero. */
  function WithCapacity(existing: Option<Supply>, capacity: int, cutoffAt: int): Supply {
    match existing
    case None => Supply(capacity, capacity, false, cutoffAt)
    case Some(p) =>
      var sold := p.capacity - p.remain;
      Supply(capacity, if capacity - sold < 0 then 0 else capacity - sold, p.soldOut, cutoffAt)
  }

  /**
   * Two capacity changes in a row are the last one alone exactly when the first covers the units sold,
   * or the second is no larger than the first: otherwise the clamp has forgotten part of the deficit.
   */
  lemma CapacitiesCompose(p: Supply, first: int, second: int, cutoffAt: int)
    requires 0 <= p.remain <= p.capacity && 0 <= first && 0 <= second
    ensures WithCapacity(Some(WithCapacity(Some(p), first, cutoffAt)), second, cutoffAt) == WithCapacity(Some(p), second, cutoffAt)
            <==> (first >= p.capacity - p.remain || second <= first)
  {
  }

  /** Ten sold of ten; lowering to five and raising back to ten offers five units that are already sold. */
  lemma ClampForgetsDeficit()
    ensures var p := Supply(10, 0, false, 0);
            && WithCapacity(Some(WithCapacity(Some(p), 5, 0)), 10, 0).remain == 5
            && WithCapacity(Some(p), 10, 0).remain == 0
  {
  }
}
