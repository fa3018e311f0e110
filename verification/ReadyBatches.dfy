/** Splitting the orders that can be marked ready into one-vendor batches of bounded size. */
module ReadyBatches {
  import opened Grouping
  import opened LunchRecords

  datatype ReadyBatch = ReadyBatch(vendor: nat, orderIds: seq<nat>)

  /** The ids of the orders whose status is unknown, placed or cut off. */
  function EligibleIds(orders: seq<OrderRecord>): seq<nat> {
    if orders == [] then []
    else
      var o := orders[|orders| - 1];
      EligibleIds(orders[..|orders| - 1]) + if o.state != Other then [o.id] else []
  }

  function VendorIds(orders: seq<OrderRecord>, v: nat): seq<nat> {
    if orders == [] then []
    else
      var o := orders[|orders| - 1];
      VendorIds(orders[..|orders| - 1], v) + if o.state != Other && o.vendor == v then [o.id] else []
  }

  function AllIds(batches: seq<ReadyBatch>): seq<nat> {
    if batches == [] then [] else AllIds(batches[..|batches| - 1]) + batches[|batches| - 1].orderIds
  }

  /** Order k has the id and can still be marked ready: no status yet, placed or cut off. */
  ghost predicate EligibleAt(orders: seq<OrderRecord>, k: int, id: nat) {
    0 <= k < |orders| && orders[k].id == id && orders[k].state in {Blank, Placed, Cutoff}
  }

  lemma {:induction false} EligibleExactly(orders: seq<OrderRecord>, id: nat)
    ensures id in EligibleIds(orders) <==> exists k :: EligibleAt(orders, k, id)
  {
    if orders != [] {
      var n := |orders| - 1;
      EligibleExactly(orders[..n], id);
      assert forall k :: EligibleAt(orders[..n], k, id) ==> EligibleAt(orders, k, id);
      assert forall k :: EligibleAt(orders, k, id) && k < n ==> EligibleAt(orders[..n], k, id);
      assert id == orders[n].id && orders[n].state != Other <==> EligibleAt(orders, n, id);
    }
  }

  /** A vendor's ids are those of its own eligible orders. */
  lemma {:induction false} VendorIdsExactly(orders: seq<OrderRecord>, v: nat, id: nat)
    ensures id in VendorIds(orders, v) <==> exists k :: EligibleAt(orders, k, id) && orders[k].vendor == v
  {
    if orders != [] {
      var n := |orders| - 1;
      VendorIdsExactly(orders[..n], v, id);
      assert forall k :: EligibleAt(orders[..n], k, id) ==> EligibleAt(orders, k, id) && orders[k].vendor == orders[..n][k].vendor;
      assert forall k :: EligibleAt(orders, k, id) && k < n ==> EligibleAt(orders[..n], k, id);
      assert id == orders[n].id && orders[n].state != Other <==> EligibleAt(orders, n, id);
    }
  }

  ghost predicate AllAtMost(xs: seq<nat>, bound: nat) {
    forall i | 0 <= i < |xs| :: xs[i] <= bound
  }

  ghost predicate Ascending(xs: seq<nat>) {
    xs != [] ==> Ascending(xs[..|xs| - 1]) && AllAtMost(xs[..|xs| - 1], xs[|xs| - 1])
  }

  lemma {:induction false} AscendingMeans(xs: seq<nat>, i: nat, j: nat)
    requires Ascending(xs) && i < j < |xs|
    ensures xs[i] <= xs[j]
  {
    if j < |xs| - 1 { AscendingMeans(xs[..|xs| - 1], i, j); }
  }

  function CeilDiv(n: nat, size: nat): nat
    requires size > 0
  {
    if n == 0 then 0 else if n <= size then 1 else 1 + CeilDiv(n - size, size)
  }

  lemma {:induction false} CeilDivIsCeiling(n: nat, size: nat)
    requires size > 0
    ensures (CeilDiv(n, size) - 1) * size < n <= CeilDiv(n, size) * size || (n == 0 && CeilDiv(n, size) == 0)
  {
    if n > size {
      CeilDivIsCeiling(n - size, size);
      var c := CeilDiv(n - size, size);
      assert (c + 1) * size == c * size + size && c * size == (c - 1) * size + size;
    }
  }

  /** A vendor's batches: its ids in ascending order, cut into full batches with only the last one possibly short. */
  ghost predicate CutsUp(batches: seq<ReadyBatch>, v: nat, ids: seq<nat>, size: nat)
    requires size > 0
  {
    && (forall b | 0 <= b < |batches| :: batches[b].vendor == v && 1 <= |batches[b].orderIds| <= size)
    && (forall b | 0 <= b < |batches| - 1 :: |batches[b].orderIds| == size)
    && Ascending(AllIds(batches)) && multiset(AllIds(batches)) == multiset(ids)
    && |batches| == CeilDiv(|ids|, size)
  }

  // ---------------------------------------------------------------- the library sort

  function Insert(xs: seq<nat>, x: nat): seq<nat> {
    if xs == [] || xs[|xs| - 1] <= x then xs + [x]
    else Insert(xs[..|xs| - 1], x) + [xs[|xs| - 1]]
  }

  lemma {:induction false} InsertMultiset(xs: seq<nat>, x: nat)
    ensures multiset(Insert(xs, x)) == multiset(xs) + multiset{x}
  {
    if xs != [] && xs[|xs| - 1] > x {
      var init, last := xs[..|xs| - 1], xs[|xs| - 1];
      InsertMultiset(init, x);
      assert xs == init + [last];
    }
  }

  lemma {:induction false} InsertAtMost(xs: seq<nat>, x: nat, bound: nat)
    requires AllAtMost(xs, bound) && x <= bound
    ensures AllAtMost(Insert(xs, x), bound)
  {
    if xs != [] && xs[|xs| - 1] > x { InsertAtMost(xs[..|xs| - 1], x, bound); }
  }

  lemma {:induction false} InsertAscends(xs: seq<nat>, x: nat)
    requires Ascending(xs)
    ensures Ascending(Insert(xs, x))
  {
    if xs == [] || xs[|xs| - 1] <= x {
      assert (xs + [x])[..|xs|] == xs;
    } else {
      var init, last := xs[..|xs| - 1], xs[|xs| - 1];
      InsertAscends(init, x);
      InsertAtMost(init, x, last);
      var r := Insert(init, x);
      assert (r + [last])[..|r|] == r;
    }
  }

  function Sorted(xs: seq<nat>): seq<nat> {
    if xs == [] then [] else Insert(Sorted(xs[..|xs| - 1]), xs[|xs| - 1])
  }

  lemma {:induction false} SortedOk(xs: seq<nat>)
    ensures Ascending(Sorted(xs)) && multiset(Sorted(xs)) == multiset(xs) && |Sorted(xs)| == |xs|
  {
    if xs != [] {
      var init, last := xs[..|xs| - 1], xs[|xs| - 1];
      assert xs == init + [last];
      SortedOk(init);
      InsertAscends(Sorted(init), last);
      InsertMultiset(Sorted(init), last);
      assert |Sorted(xs)| == |multiset(Sorted(xs))| == |multiset(xs)| == |xs|;
    }
  }

  // ---------------------------------------------------------------- cutting

  lemma AllIdsSnoc(batches: seq<ReadyBatch>, b: ReadyBatch)
    ensures AllIds(batches + [b]) == AllIds(batches) + b.orderIds
  {
    assert (batches + [b])[..|batches|] == batches;
  }

  lemma CeilDivStep(n: nat, start: nat, size: nat, made: nat)
    requires size > 0 && start < n && made + CeilDiv(n - start, size) == CeilDiv(n, size)
    ensures var end := if start + size > n then n else start + size;
            made + 1 + CeilDiv(n - end, size) == CeilDiv(n, size)
  {
  }

  method CutBatches(v: nat, ids: seq<nat>, size: nat) returns (batches: seq<ReadyBatch>)
    requires size > 0
    ensures AllIds(batches) == ids && |batches| == CeilDiv(|ids|, size)
    ensures forall b | 0 <= b < |batches| :: batches[b].vendor == v && 1 <= |batches[b].orderIds| <= size
    ensures forall b | 0 <= b < |batches| - 1 :: |batches[b].orderIds| == size
  {
    batches := [];
    var start := 0;
    while start < |ids|
      invariant 0 <= start <= |ids| && AllIds(batches) == ids[..start]
      invariant |batches| + CeilDiv(|ids| - start, size) == CeilDiv(|ids|, size)
      invariant forall b | 0 <= b < |batches| :: batches[b].vendor == v && 1 <= |batches[b].orderIds| <= size
      invariant forall b | 0 <= b < |batches| && (start < |ids| || b < |batches| - 1) :: |batches[b].orderIds| == size
    {
      var end := start + size;
      if end > |ids| { end := |ids|; }
      CeilDivStep(|ids|, start, size, |batches|);
      AllIdsSnoc(batches, ReadyBatch(v, ids[start..end]));
      assert ids[..end] == ids[..start] + ids[start..end];
      batches := batches + [ReadyBatch(v, ids[start..end])];
      start := end;
    }
    assert ids[..|ids|] == ids;
  }

  method SortAndCut(v: nat, ids: seq<nat>, size: nat) returns (batches: seq<ReadyBatch>)
    requires size > 0
    ensures CutsUp(batches, v, ids, size)
  {
    SortedOk(ids);
    batches := CutBatches(v, Sorted(ids), size);
  }

  // ---------------------------------------------------------------- all vendors

  function Flatten(segments: seq<seq<ReadyBatch>>): seq<ReadyBatch> {
    if segments == [] then [] else Flatten(segments[..|segments| - 1]) + segments[|segments| - 1]
  }

  lemma {:induction false} AllIdsConcat(a: seq<ReadyBatch>, b: seq<ReadyBatch>)
    ensures AllIds(a + b) == AllIds(a) + AllIds(b)
  {
    if b == [] {
      assert a + b == a;
    } else {
      assert (a + b)[..|a + b| - 1] == a + b[..|b| - 1];
      AllIdsConcat(a, b[..|b| - 1]);
    }
  }

  /** The number of batches over the vendors handled so far. */
  function BatchCount(orders: seq<OrderRecord>, vendors: seq<nat>, size: nat): nat
    requires size > 0
  {
    if vendors == [] then 0
    else BatchCount(orders, vendors[..|vendors| - 1], size) + CeilDiv(|VendorIds(orders, vendors[|vendors| - 1])|, size)
  }

  function ConcatIds(orders: seq<OrderRecord>, vendors: seq<nat>): seq<nat> {
    if vendors == [] then [] else ConcatIds(orders, vendors[..|vendors| - 1]) + VendorIds(orders, vendors[|vendors| - 1])
  }

  lemma {:induction false} ConcatIdsSnoc(orders: seq<OrderRecord>, o: OrderRecord, vendors: seq<nat>)
    requires Distinct(vendors)
    ensures multiset(ConcatIds(orders + [o], vendors)) ==
            multiset(ConcatIds(orders, vendors)) + if o.state != Other && o.vendor in vendors then multiset{o.id} else multiset{}
  {
    if vendors != [] {
      var rest, v := vendors[..|vendors| - 1], vendors[|vendors| - 1];
      assert vendors == rest + [v];
      ConcatIdsSnoc(orders, o, rest);
      assert (orders + [o])[..|orders|] == orders;
    }
  }

  lemma {:induction false} ConcatIdsEmpty(vendors: seq<nat>)
    ensures ConcatIds([], vendors) == []
  {
    if vendors != [] { ConcatIdsEmpty(vendors[..|vendors| - 1]); }
  }

  /** The vendors' ids together are the eligible ids. */
  lemma {:induction false} EligibleCovered(orders: seq<OrderRecord>, vendors: seq<nat>)
    requires Distinct(vendors)
    requires forall i | 0 <= i < |orders| && orders[i].state != Other :: orders[i].vendor in vendors
    ensures multiset(ConcatIds(orders, vendors)) == multiset(EligibleIds(orders))
  {
    if orders == [] {
      ConcatIdsEmpty(vendors);
    } else {
      var init, o := orders[..|orders| - 1], orders[|orders| - 1];
      assert orders == init + [o];
      EligibleCovered(init, vendors);
      ConcatIdsSnoc(init, o, vendors);
    }
  }

  lemma {:induction false} ActiveVendor(orders: seq<OrderRecord>, i: nat)
    requires i < |orders| && orders[i].state != Other
    ensures VendorIds(orders, orders[i].vendor) != []
  {
    if i < |orders| - 1 { ActiveVendor(orders[..|orders| - 1], i); }
  }

  /** The map from each vendor with eligible orders to their ids in order. */
  ghost predicate GroupedFor(orders: seq<OrderRecord>, grouped: map<nat, seq<nat>>) {
    forall v: nat :: VendorIds(orders, v) == (if v in grouped then grouped[v] else []) && (v in grouped ==> grouped[v] != [])
  }

  method GroupByVendor(orders: seq<OrderRecord>) returns (grouped: map<nat, seq<nat>>)
    ensures GroupedFor(orders, grouped)
  {
    grouped := map[];
    for i := 0 to |orders|
      invariant GroupedFor(orders[..i], grouped)
    {
      var o := orders[i];
      assert orders[..i + 1] == orders[..i] + [o];
      GroupedSnoc(orders[..i], o, grouped);
      if o.state != Other {
        grouped := grouped[o.vendor := (if o.vendor in grouped then grouped[o.vendor] else []) + [o.id]];
      }
    }
    assert orders[..|orders|] == orders;
  }

  lemma GroupedSnoc(orders: seq<OrderRecord>, o: OrderRecord, grouped: map<nat, seq<nat>>)
    requires GroupedFor(orders, grouped)
    ensures GroupedFor(orders + [o],
                       if o.state == Other then grouped
                       else grouped[o.vendor := (if o.vendor in grouped then grouped[o.vendor] else []) + [o.id]])
  {
    var next := if o.state == Other then grouped
                else grouped[o.vendor := (if o.vendor in grouped then grouped[o.vendor] else []) + [o.id]];
    forall v: nat
      ensures VendorIds(orders + [o], v) == (if v in next then next[v] else []) && (v in next ==> next[v] != [])
    {
      VendorIdsSnoc(orders, o, v);
      var ids := VendorIds(orders, v);
      assert ids + [] == ids;
    }
  }

  lemma VendorIdsSnoc(orders: seq<OrderRecord>, o: OrderRecord, v: nat)
    ensures VendorIds(orders + [o], v) == VendorIds(orders, v) + if o.state != Other && o.vendor == v then [o.id] else []
  {
    assert (orders + [o])[..|orders|] == orders;
  }

  /** Exactly the vendors with eligible orders. */
  ghost predicate ListsActive(orders: seq<OrderRecord>, vendors: seq<nat>) {
    forall v: nat :: v in vendors <==> VendorIds(orders, v) != []
  }

  /** One segment per vendor, each that vendor's ids cut up. */
  ghost predicate CutPerVendor(orders: seq<OrderRecord>, vendors: seq<nat>, segments: seq<seq<ReadyBatch>>, size: nat)
    requires size > 0
  {
    |segments| == |vendors| && forall j | 0 <= j < |vendors| :: CutsUp(segments[j], vendors[j], VendorIds(orders, vendors[j]), size)
  }

  /** The segments together hold every listed vendor's ids, in the expected number of batches. */
  lemma {:induction false} SegmentsCover(orders: seq<OrderRecord>, vendors: seq<nat>, segments: seq<seq<ReadyBatch>>, size: nat)
    requires size > 0 && CutPerVendor(orders, vendors, segments, size)
    ensures multiset(AllIds(Flatten(segments))) == multiset(ConcatIds(orders, vendors))
    ensures |Flatten(segments)| == BatchCount(orders, vendors, size)
  {
    if vendors != [] {
      var n := |vendors| - 1;
      SegmentsCover(orders, vendors[..n], segments[..n], size);
      AllIdsConcat(Flatten(segments[..n]), segments[n]);
      assert CutsUp(segments[n], vendors[n], VendorIds(orders, vendors[n]), size);
    }
  }

  /**
   * Every eligible order in exactly one batch; vendors in ascending order, each vendor's ids in ascending order cut into
   * full batches with only the last one possibly short; the number of batches is the sum of the rounded-up quotients.
   */
  method BuildReadyBatches(orders: seq<OrderRecord>, size: nat)
    returns (out: seq<ReadyBatch>, ghost vendors: seq<nat>, ghost segments: seq<seq<ReadyBatch>>)
    requires size > 0
    ensures Ascending(vendors) && Distinct(vendors) && ListsActive(orders, vendors)
    ensures out == Flatten(segments) && CutPerVendor(orders, vendors, segments, size)
    ensures multiset(AllIds(out)) == multiset(EligibleIds(orders))
    ensures |out| == BatchCount(orders, vendors, size)
  {
    var grouped := GroupByVendor(orders);
    var keys := KeysOf(grouped);
    SortedDistinct(keys);
    vendors := Sorted(keys);
    out, segments := BatchesFor(orders, grouped, Sorted(keys), size);
    SegmentsCover(orders, vendors, segments, size);
    forall i | 0 <= i < |orders| && orders[i].state != Other ensures orders[i].vendor in vendors {
      ActiveVendor(orders, i);
    }
    EligibleCovered(orders, vendors);
  }

  method BatchesFor(orders: seq<OrderRecord>, grouped: map<nat, seq<nat>>, vendors: seq<nat>, size: nat)
    returns (out: seq<ReadyBatch>, ghost segments: seq<seq<ReadyBatch>>)
    requires size > 0 && GroupedFor(orders, grouped)
    requires forall i | 0 <= i < |vendors| :: vendors[i] in grouped
    ensures out == Flatten(segments) && CutPerVendor(orders, vendors, segments, size)
  {
    out, segments := [], [];
    for i := 0 to |vendors|
      invariant out == Flatten(segments) && CutPerVendor(orders, vendors[..i], segments, size)
    {
      var v := vendors[i];
      var batches := SortAndCut(v, grouped[v], size);
      PrefixSnoc(vendors, i);
      assert VendorIds(orders, v) == grouped[v];
      PerVendorSnoc(orders, vendors[..i], v, segments, batches, size);
      out := out + batches;
      segments := segments + [batches];
    }
    assert vendors[..|vendors|] == vendors;
  }

  lemma PerVendorSnoc(orders: seq<OrderRecord>, done: seq<nat>, v: nat, segments: seq<seq<ReadyBatch>>, batches: seq<ReadyBatch>, size: nat)
    requires size > 0 && CutPerVendor(orders, done, segments, size) && CutsUp(batches, v, VendorIds(orders, v), size)
    ensures CutPerVendor(orders, done + [v], segments + [batches], size)
    ensures Flatten(segments + [batches]) == Flatten(segments) + batches
  {
    var vendors, all := done + [v], segments + [batches];
    assert all[..|segments|] == segments;
    forall j | 0 <= j < |vendors| ensures CutsUp(all[j], vendors[j], VendorIds(orders, vendors[j]), size) {
      if j < |done| { assert CutsUp(segments[j], done[j], VendorIds(orders, done[j]), size); }
    }
  }

  method KeysOf(grouped: map<nat, seq<nat>>) returns (keys: seq<nat>)
    ensures Distinct(keys) && forall v: nat :: v in keys <==> v in grouped
  {
    keys := [];
    var pending := grouped.Keys;
    while pending != {}
      invariant pending <= grouped.Keys
      invariant Distinct(keys) && forall v :: v in keys <==> v in grouped.Keys - pending
    {
      var v :| v in pending;
      DistinctSnoc(keys, v);
      keys := keys + [v];
      pending := pending - {v};
    }
  }

  lemma SortedDistinct(xs: seq<nat>)
    requires Distinct(xs)
    ensures Ascending(Sorted(xs)) && Distinct(Sorted(xs)) && forall x :: x in Sorted(xs) <==> x in xs
  {
    SortedOk(xs);
    var s := Sorted(xs);
    assert forall x :: x in s <==> x in multiset(s);
    assert forall x :: x in xs <==> x in multiset(xs);
    forall i, j | 0 <= i < j < |s| ensures s[i] != s[j] {
      if s[i] == s[j] {
        TwiceCounted(s, i, j);
        OnceCounted(xs, s[i]);
        assert false;
      }
    }
  }

  lemma TwiceCounted(xs: seq<nat>, i: nat, j: nat)
    requires i < j < |xs| && xs[i] == xs[j]
    ensures multiset(xs)[xs[i]] >= 2
  {
    assert xs == xs[..i] + [xs[i]] + xs[i + 1..j] + [xs[j]] + xs[j + 1..];
  }

  lemma {:induction false} OnceCounted(xs: seq<nat>, x: nat)
    requires Distinct(xs)
    ensures multiset(xs)[x] <= 1
    ensures x !in xs ==> multiset(xs)[x] == 0
  {
    if xs != [] {
      var init := xs[..|xs| - 1];
      assert xs == init + [xs[|xs| - 1]];
      OnceCounted(init, x);
    }
  }
}
