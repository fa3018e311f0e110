/** The recommender's ranking and the pages cut from it. */
module Recommend {
  import opened Grouping

  datatype Meta = Meta(id: nat, name: string, unitPrice: int, vendor: nat)

  datatype Inputs = Inputs(popularity: map<nat, real>, affinity: map<nat, real>, favorites: set<nat>, alpha: real)

  /** known: the vendor is in the user's history, which selects the reason shown. */
  datatype Chip = Chip(id: nat, name: string, unitPrice: int, vendor: nat, score: real, known: bool)

  predicate Eligible(inputs: Inputs, it: Meta) {
    it.id !in inputs.favorites && it.id in inputs.popularity
  }

  function ChipOf(inputs: Inputs, it: Meta): Chip
    requires it.id in inputs.popularity
  {
    var aff := if it.vendor in inputs.affinity then inputs.affinity[it.vendor] else 0.0;
    Chip(it.id, it.name, it.unitPrice, it.vendor, inputs.popularity[it.id] * (1.0 + inputs.alpha * aff), aff > 0.0)
  }

  /** How much the user likes the vendor; an unknown vendor not at all. */
  function Liking(inputs: Inputs, vendor: nat): real {
    if vendor in inputs.affinity then inputs.affinity[vendor] else 0.0
  }

  /**
   * The chip is that of the item, which is popular and no favourite: its own fields, a score that adds alpha times the
   * liking times the popularity to the popularity, and the familiar-vendor reason exactly for a liked vendor.
   */
  ghost predicate Stands(inputs: Inputs, it: Meta, c: Chip) {
    && it.id in inputs.popularity && it.id !in inputs.favorites
    && c.id == it.id && c.name == it.name && c.unitPrice == it.unitPrice && c.vendor == it.vendor
    && c.score == inputs.popularity[it.id] + inputs.alpha * Liking(inputs, it.vendor) * inputs.popularity[it.id]
    && (c.known <==> Liking(inputs, it.vendor) > 0.0)
  }

  lemma ScoreExpands(pop: real, alpha: real, liking: real)
    ensures pop * (1.0 + alpha * liking) == pop + alpha * liking * pop
  {
  }

  lemma StandsExactly(inputs: Inputs, it: Meta, c: Chip)
    ensures Stands(inputs, it, c) <==> Eligible(inputs, it) && c == ChipOf(inputs, it)
  {
    if it.id in inputs.popularity { ScoreExpands(inputs.popularity[it.id], inputs.alpha, Liking(inputs, it.vendor)); }
  }

  /** Score descending, then id ascending. */
  predicate Before(a: Chip, b: Chip) {
    a.score > b.score || (a.score == b.score && a.id < b.id)
  }

  ghost predicate DistinctIds(items: seq<Meta>) {
    forall i, j | 0 <= i < j < |items| :: items[i].id != items[j].id
  }

  ghost predicate AllBefore(chips: seq<Chip>, last: Chip) {
    forall c :: c in chips ==> Before(c, last)
  }

  ghost predicate Ordered(chips: seq<Chip>) {
    chips != [] ==> Ordered(chips[..|chips| - 1]) && AllBefore(chips[..|chips| - 1], chips[|chips| - 1])
  }

  lemma {:induction false} OrderedMeans(chips: seq<Chip>, i: nat, j: nat)
    requires Ordered(chips) && i < j < |chips|
    ensures Before(chips[i], chips[j])
  {
    if j < |chips| - 1 {
      OrderedMeans(chips[..|chips| - 1], i, j);
    } else {
      assert chips[i] in chips[..|chips| - 1];
    }
  }

  // ---------------------------------------------------------------- ranking

  function Candidates(inputs: Inputs, items: seq<Meta>): seq<Chip> {
    if items == [] then []
    else
      var last := items[|items| - 1];
      Candidates(inputs, items[..|items| - 1]) + if Eligible(inputs, last) then [ChipOf(inputs, last)] else []
  }

  /** Stable insertion: behind every chip that does not come after it. */
  function Insert(chips: seq<Chip>, c: Chip): seq<Chip> {
    if chips == [] || !Before(c, chips[|chips| - 1]) then chips + [c]
    else Insert(chips[..|chips| - 1], c) + [chips[|chips| - 1]]
  }

  function StableSort(chips: seq<Chip>): seq<Chip> {
    if chips == [] then [] else Insert(StableSort(chips[..|chips| - 1]), chips[|chips| - 1])
  }

  function Ranked(inputs: Inputs, items: seq<Meta>): seq<Chip> {
    StableSort(Candidates(inputs, items))
  }

  /** The loop, the sort and the limit of Score. */
  method Score(inputs: Inputs, items: seq<Meta>, limit: int) returns (out: seq<Chip>)
    ensures out == if 0 < limit < |Ranked(inputs, items)| then Ranked(inputs, items)[..limit] else Ranked(inputs, items)
    ensures DistinctIds(items) ==> forall i, j | 0 <= i < j < |out| :: out[i].score > out[j].score || (out[i].score == out[j].score && out[i].id < out[j].id)
    ensures DistinctIds(items) ==> forall c | c in out :: IsCandidate(inputs, items, c)
    ensures DistinctIds(items) && (limit <= 0 || |out| < limit) ==> forall c :: IsCandidate(inputs, items, c) ==> c in out
    ensures limit > 0 ==> |out| <= limit
  {
    if DistinctIds(items) {
      RankedExactly(inputs, items);
      RankedInOrder(inputs, items);
    }
    out := [];
    for i := 0 to |items|
      invariant out == Candidates(inputs, items[..i])
    {
      assert items[..i + 1][..i] == items[..i];
      var it := items[i];
      if it.id in inputs.favorites { continue; }
      if it.id !in inputs.popularity { continue; }
      out := out + [ChipOf(inputs, it)];
    }
    assert items[..|items|] == items;
    out := StableSort(out);
    if limit > 0 && |out| > limit { out := out[..limit]; }
  }

  lemma InInitOrLast(a: seq<Chip>, c: Chip)
    requires a != []
    ensures c in a <==> c in a[..|a| - 1] || c == a[|a| - 1]
  {
    assert a == a[..|a| - 1] + [a[|a| - 1]];
  }

  lemma {:induction false} InsertMembers(chips: seq<Chip>, c: Chip, x: Chip)
    ensures x in Insert(chips, c) <==> x in chips || x == c
  {
    if chips != [] && Before(c, chips[|chips| - 1]) {
      InsertMembers(chips[..|chips| - 1], c, x);
      assert chips == chips[..|chips| - 1] + [chips[|chips| - 1]];
    }
  }

  lemma {:induction false} InsertOrdered(chips: seq<Chip>, c: Chip)
    requires Ordered(chips) && forall x | x in chips :: x.id != c.id
    ensures Ordered(Insert(chips, c))
  {
    if chips == [] || !Before(c, chips[|chips| - 1]) {
      assert (chips + [c])[..|chips|] == chips;
      forall x | x in chips ensures Before(x, c) {
        InInitOrLast(chips, x);
        InInitOrLast(chips, chips[|chips| - 1]);
      }
    } else {
      var init, last := chips[..|chips| - 1], chips[|chips| - 1];
      forall x | x in init ensures x.id != c.id { InInitOrLast(chips, x); }
      InsertOrdered(init, c);
      var r := Insert(init, c);
      assert (r + [last])[..|r|] == r;
      forall x | x in r ensures Before(x, last) {
        InsertMembers(init, c, x);
      }
    }
  }

  /** c is the chip of a popular non-favourite of the list. */
  ghost predicate IsCandidate(inputs: Inputs, items: seq<Meta>, c: Chip) {
    exists it :: it in items && Stands(inputs, it, c)
  }

  lemma {:induction false} CandidateMembers(inputs: Inputs, items: seq<Meta>, c: Chip)
    ensures c in Candidates(inputs, items) <==> IsCandidate(inputs, items, c)
  {
    if items != [] {
      var init, last := items[..|items| - 1], items[|items| - 1];
      CandidateMembers(inputs, init, c);
      assert items == init + [last];
      if IsCandidate(inputs, init, c) {
        var it :| it in init && Stands(inputs, it, c);
        assert it in items;
      }
      StandsExactly(inputs, last, c);
      if Stands(inputs, last, c) { assert last in items; }
      if IsCandidate(inputs, items, c) {
        var it :| it in items && Stands(inputs, it, c);
        assert it in init || it == last;
      }
    }
  }

  /** The ranking of distinct items is strictly ordered and contains exactly the popular non-favourites. */
  lemma {:induction false} RankedExactly(inputs: Inputs, items: seq<Meta>)
    requires DistinctIds(items)
    ensures Ordered(Ranked(inputs, items))
    ensures forall c :: c in Ranked(inputs, items) <==> IsCandidate(inputs, items, c)
  {
    CandidatesDistinct(inputs, items);
    SortOrdered(Candidates(inputs, items));
    forall c ensures c in Ranked(inputs, items) <==> IsCandidate(inputs, items, c) {
      CandidateMembers(inputs, items, c);
    }
  }

  /** By score from high to low, and by id from low to high where scores are equal. */
  lemma RankedInOrder(inputs: Inputs, items: seq<Meta>)
    requires DistinctIds(items)
    ensures var all := Ranked(inputs, items);
            forall i, j | 0 <= i < j < |all| :: all[i].score > all[j].score || (all[i].score == all[j].score && all[i].id < all[j].id)
  {
    RankedExactly(inputs, items);
    var all := Ranked(inputs, items);
    forall i, j | 0 <= i < j < |all| ensures all[i].score > all[j].score || (all[i].score == all[j].score && all[i].id < all[j].id) {
      OrderedMeans(all, i, j);
    }
  }

  lemma LikingRaises(pop: real, alpha: real, more: real, less: real)
    requires pop > 0.0 && alpha > 0.0 && more > less
    ensures pop + alpha * more * pop > pop + alpha * less * pop
  {
    assert alpha * more * pop - alpha * less * pop == alpha * ((more - less) * pop);
    assert (more - less) * pop > 0.0;
    assert alpha * ((more - less) * pop) > 0.0;
  }

  lemma LikedScoresHigher(inputs: Inputs, items: seq<Meta>, a: Chip, b: Chip)
    requires IsCandidate(inputs, items, a) && IsCandidate(inputs, items, b) && inputs.alpha > 0.0
    requires a.id in inputs.popularity && b.id in inputs.popularity && inputs.popularity[a.id] == inputs.popularity[b.id] > 0.0
    requires Liking(inputs, a.vendor) > Liking(inputs, b.vendor)
    ensures a.score > b.score
  {
    var x :| x in items && Stands(inputs, x, a);
    var y :| y in items && Stands(inputs, y, b);
    LikingRaises(inputs.popularity[a.id], inputs.alpha, Liking(inputs, a.vendor), Liking(inputs, b.vendor));
  }

  /** Of two equally popular chips the one whose vendor the user likes more comes first. */
  lemma LikedVendorFirst(inputs: Inputs, items: seq<Meta>, i: nat, j: nat)
    requires DistinctIds(items) && inputs.alpha > 0.0
    requires i < |Ranked(inputs, items)| && j < |Ranked(inputs, items)|
    requires var a, b := Ranked(inputs, items)[i], Ranked(inputs, items)[j];
             && a.id in inputs.popularity && b.id in inputs.popularity
             && inputs.popularity[a.id] == inputs.popularity[b.id] > 0.0
             && Liking(inputs, a.vendor) > Liking(inputs, b.vendor)
    ensures i < j
  {
    var all := Ranked(inputs, items);
    var a, b := all[i], all[j];
    RankedExactly(inputs, items);
    RankedInOrder(inputs, items);
    LikedScoresHigher(inputs, items, a, b);
  }

  ghost predicate DistinctChips(chips: seq<Chip>) {
    chips != [] ==>
      DistinctChips(chips[..|chips| - 1]) && forall c | c in chips[..|chips| - 1] :: c.id != chips[|chips| - 1].id
  }

  lemma {:induction false} SortOrdered(chips: seq<Chip>)
    requires DistinctChips(chips)
    ensures Ordered(StableSort(chips)) && forall c :: c in StableSort(chips) <==> c in chips
  {
    if chips != [] {
      var init, last := chips[..|chips| - 1], chips[|chips| - 1];
      SortOrdered(init);
      InsertOrdered(StableSort(init), last);
      assert chips == init + [last];
      forall c ensures c in StableSort(chips) <==> c in chips {
        InsertMembers(StableSort(init), last, c);
      }
    }
  }

  lemma {:induction false} CandidatesDistinct(inputs: Inputs, items: seq<Meta>)
    requires DistinctIds(items)
    ensures DistinctChips(Candidates(inputs, items))
  {
    if items != [] {
      var init, last := items[..|items| - 1], items[|items| - 1];
      CandidatesDistinct(inputs, init);
      var chips := Candidates(inputs, init);
      assert Eligible(inputs, last) ==> (chips + [ChipOf(inputs, last)])[..|chips|] == chips;
      assert chips + [] == chips;
      forall x | x in chips ensures x.id != last.id {
        CandidateIds(inputs, init, x);
        var k :| 0 <= k < |init| && init[k].id == x.id;
        assert items[k].id != last.id;
      }
    }
  }

  lemma CandidateIds(inputs: Inputs, items: seq<Meta>, x: Chip)
    requires x in Candidates(inputs, items)
    ensures exists k :: 0 <= k < |items| && items[k].id == x.id
  {
    CandidateMembers(inputs, items, x);
    var it :| it in items && Stands(inputs, it, x);
    var k :| 0 <= k < |items| && items[k] == it;
  }

  /** The last chip of a ranking comes after all others. */
  lemma SameLast(a: seq<Chip>, b: seq<Chip>)
    requires a != [] && b != [] && Ordered(a) && Ordered(b)
    requires a[|a| - 1] in b && b[|b| - 1] in a
    ensures a[|a| - 1] == b[|b| - 1]
  {
    var x, y := a[|a| - 1], b[|b| - 1];
    assert a == a[..|a| - 1] + [x] && b == b[..|b| - 1] + [y];
  }

  ghost predicate SameMembers(a: seq<Chip>, b: seq<Chip>) {
    forall c :: c in a <==> c in b
  }

  lemma WithoutLast(a: seq<Chip>, b: seq<Chip>)
    requires a != [] && b != [] && SameMembers(a, b) && a[|a| - 1] == b[|b| - 1]
    requires AllBefore(a[..|a| - 1], a[|a| - 1]) && AllBefore(b[..|b| - 1], b[|b| - 1])
    ensures SameMembers(a[..|a| - 1], b[..|b| - 1])
  {
    var a', b' := a[..|a| - 1], b[..|b| - 1];
    assert !Before(a[|a| - 1], a[|a| - 1]);
    forall c ensures c in a' <==> c in b' {
      InInitOrLast(a, c);
      InInitOrLast(b, c);
    }
  }

  lemma NonEmptyTogether(a: seq<Chip>, b: seq<Chip>)
    requires SameMembers(a, b)
    ensures a != [] <==> b != []
  {
    if a != [] { assert a[0] in b; }
    if b != [] { assert b[0] in a; }
  }

  /** A strict ranking is determined by its members. */
  lemma {:induction false} RankingUnique(a: seq<Chip>, b: seq<Chip>)
    requires Ordered(a) && Ordered(b) && SameMembers(a, b)
    ensures a == b
  {
    NonEmptyTogether(a, b);
    if a != [] {
      SameLast(a, b);
      WithoutLast(a, b);
      RankingUnique(a[..|a| - 1], b[..|b| - 1]);
      assert a == a[..|a| - 1] + [a[|a| - 1]];
    }
  }

  ghost predicate SameItems(a: seq<Meta>, b: seq<Meta>) {
    DistinctIds(a) && DistinctIds(b) && forall it :: it in a <==> it in b
  }

  /** The caller lists the items in map order: any order of the same items gives the same ranking. */
  lemma RankedPermutationInvariant(inputs: Inputs, a: seq<Meta>, b: seq<Meta>)
    requires SameItems(a, b)
    ensures Ranked(inputs, a) == Ranked(inputs, b)
  {
    RankedExactly(inputs, a);
    RankedExactly(inputs, b);
    forall c ensures c in Ranked(inputs, a) <==> c in Ranked(inputs, b) {
      if IsCandidate(inputs, a, c) {
        var it :| it in a && Stands(inputs, it, c);
        assert it in b;
      }
      if IsCandidate(inputs, b, c) {
        var it :| it in b && Stands(inputs, it, c);
        assert it in a;
      }
    }
    RankingUnique(Ranked(inputs, a), Ranked(inputs, b));
  }

  // ---------------------------------------------------------------- pages

  datatype Page = Page(chips: seq<Chip>, next: int)

  /** next is -1 when there is no further page. */
  function PageAt(all: seq<Chip>, offset: int, limit: int): Page
    requires limit > 0
  {
    var start := if offset < 0 then 0 else offset;
    if start >= |all| then Page([], -1)
    else
      var end := if start + limit > |all| then |all| else start + limit;
      Page(all[start..end], if end < |all| then end else -1)
  }

  /** A non-positive limit means the configured one, or five. */
  function EffectiveLimit(limit: int, configured: int): int {
    if limit > 0 then limit else if configured > 0 then configured else 5
  }

  method RecommendChips(inputs: Inputs, items: seq<Meta>, offset: int, limit: int, configured: int) returns (page: Page)
    ensures page == PageAt(Ranked(inputs, items), offset, EffectiveLimit(limit, configured))
    ensures var all, from := Ranked(inputs, items), if offset < 0 then 0 else offset;
            var size := if limit > 0 then limit else if configured > 0 then configured else 5;
            && (from >= |all| ==> page.chips == [] && page.next == -1)
            && (from < |all| <= from + size ==> page.chips == all[from..] && page.next == -1)
            && (from + size < |all| ==> page.chips == all[from..from + size] && page.next == from + size)
  {
    var size := limit;
    if size <= 0 {
      size := 5;
      if configured > 0 { size := configured; }
    }
    if |inputs.popularity| == 0 {
      NothingPopular(inputs, items);
      return Page([], -1);
    }
    var all := Score(inputs, items, 0);
    var start := offset;
    if start < 0 { start := 0; }
    if start >= |all| { return Page([], -1); }
    var end := start + size;
    if end > |all| { end := |all|; }
    var next := -1;
    if end < |all| { next := end; }
    return Page(all[start..end], next);
  }

  lemma {:induction false} NothingPopular(inputs: Inputs, items: seq<Meta>)
    requires inputs.popularity == map[]
    ensures Candidates(inputs, items) == []
  {
    if items != [] { NothingPopular(inputs, items[..|items| - 1]); }
  }

  /** Follows next from one page to the following; each call ranks its own listing of the items. */
  function FollowPages(inputs: Inputs, listing: nat -> seq<Meta>, call: nat, offset: int, limit: int, whole: seq<Chip>): seq<Chip>
    requires limit > 0 && 0 <= offset
    requires forall n: nat :: Ranked(inputs, listing(n)) == whole
    decreases |whole| - offset
  {
    var page := PageAt(Ranked(inputs, listing(call)), offset, limit);
    page.chips + if page.next == -1 then [] else FollowPages(inputs, listing, call + 1, page.next, limit, whole)
  }

  /** What is left from an offset is its page and what is left from the next offset, further on. */
  lemma PageSplits(all: seq<Chip>, offset: int, limit: int)
    requires limit > 0 && 0 <= offset <= |all|
    ensures var page := PageAt(all, offset, limit);
            if page.next == -1 then page.chips == all[offset..]
            else offset < page.next < |all| && all[offset..] == page.chips + all[page.next..]
  {
  }

  lemma {:induction false} FollowFrom(inputs: Inputs, listing: nat -> seq<Meta>, call: nat, offset: int, limit: int, whole: seq<Chip>)
    requires limit > 0 && 0 <= offset <= |whole|
    requires forall n: nat :: Ranked(inputs, listing(n)) == whole
    ensures FollowPages(inputs, listing, call, offset, limit, whole) == whole[offset..]
    decreases |whole| - offset
  {
    assert Ranked(inputs, listing(call)) == whole;
    PageSplits(whole, offset, limit);
    var page := PageAt(whole, offset, limit);
    if page.next != -1 { FollowFrom(inputs, listing, call + 1, page.next, limit, whole); }
  }

  /** From offset 0 the pages join to the whole ranking, with no gap and no overlap, though every call lists the items anew. */
  lemma PagesJoinToRanking(inputs: Inputs, items: seq<Meta>, listing: nat -> seq<Meta>, limit: int)
    requires limit > 0 && forall n: nat :: SameItems(listing(n), items)
    ensures forall n: nat :: Ranked(inputs, listing(n)) == Ranked(inputs, items)
    ensures FollowPages(inputs, listing, 0, 0, limit, Ranked(inputs, items)) == Ranked(inputs, items)
  {
    forall n: nat ensures Ranked(inputs, listing(n)) == Ranked(inputs, items) {
      RankedPermutationInvariant(inputs, listing(n), items);
    }
    FollowFrom(inputs, listing, 0, 0, limit, Ranked(inputs, items));
  }

  // ---------------------------------------------------------------- affinity

  ghost predicate ListsAllKeys(keys: seq<nat>, m: map<nat, real>) {
    Distinct(keys) && forall k :: k in keys <==> k in m
  }

  function SumOver(keys: seq<nat>, m: map<nat, real>): real {
    if keys == [] then 0.0
    else SumOver(keys[..|keys| - 1], m) + if keys[|keys| - 1] in m then m[keys[|keys| - 1]] else 0.0
  }

  function Ratio(v: real, sum: real): real
    requires sum != 0.0
  {
    v / sum
  }

  lemma RatioAdds(a: real, b: real, sum: real)
    requires sum != 0.0
    ensures Ratio(a, sum) + Ratio(b, sum) == Ratio(a + b, sum) && Ratio(0.0, sum) == 0.0 && Ratio(sum, sum) == 1.0
  {
    assert Ratio(sum, sum) == sum / sum == 1.0;
  }

  function Scaled(raw: map<nat, real>, sum: real): map<nat, real>
    requires sum != 0.0
  {
    map k | k in raw :: Ratio(raw[k], sum)
  }

  lemma {:induction false} ScaledSum(keys: seq<nat>, raw: map<nat, real>, sum: real)
    requires sum != 0.0 && forall k | k in keys :: k in raw
    ensures SumOver(keys, Scaled(raw, sum)) == Ratio(SumOver(keys, raw), sum)
  {
    if keys == [] {
      RatioAdds(0.0, 0.0, sum);
    } else {
      var init, last := keys[..|keys| - 1], keys[|keys| - 1];
      assert forall k | k in init :: k in keys;
      assert last in keys;
      ScaledSum(init, raw, sum);
      RatioAdds(SumOver(init, raw), raw[last], sum);
    }
  }

  /** For the keys in some order: weights in the proportions of the raw counts that add up to one, or none for a zero sum. */
  ghost predicate Normalised(keys: seq<nat>, raw: map<nat, real>, out: map<nat, real>) {
    && ListsAllKeys(keys, raw)
    && if SumOver(keys, raw) == 0.0 then out == map[] else out == Scaled(raw, SumOver(keys, raw)) && SumOver(keys, out) == 1.0
  }

  /** The two loops over the map, each in an arbitrary order. */
  method NormaliseAffinity(raw: map<nat, real>) returns (out: map<nat, real>)
    ensures exists keys: seq<nat> :: Normalised(keys, raw, out)
  {
    var pending, sum := raw.Keys, 0.0;
    ghost var keys: seq<nat> := [];
    while pending != {}
      invariant pending <= raw.Keys
      invariant Distinct(keys)
      invariant forall k :: k in keys <==> k in raw.Keys - pending
      invariant sum == SumOver(keys, raw)
    {
      var k :| k in pending;
      DistinctSnoc(keys, k);
      assert (keys + [k])[..|keys|] == keys;
      sum := sum + raw[k];
      keys := keys + [k];
      pending := pending - {k};
    }
    if sum == 0.0 {
      assert Normalised(keys, raw, map[]);
      return map[];
    }
    out := Scaled(raw, sum);
    ScaledSum(keys, raw, sum);
    RatioAdds(0.0, 0.0, sum);
    assert Normalised(keys, raw, out);
  }
}
