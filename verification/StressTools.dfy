/** The stress driver's ring of recent order ids and its weighted scenario picker; the nearest-rank percentile. */
module StressTools {
  import opened Wrappers

  // ---------------------------------------------------------------- the ring

  /** Position i behind the head, wrapped once. */
  function Slot(head: nat, i: nat, n: nat): int {
    if head + i < n then head + i else head + i - n
  }

  lemma ProductBounds(n: nat, q: nat)
    ensures q == 0 ==> n * q == 0
    ensures q >= 2 ==> n * q >= 2 * n
  {
    if q >= 2 { assert n * q == n * (q - 2) + 2 * n; }
  }

  /** The remainder that the code takes. */
  method Wrap(x: nat, n: nat) returns (r: nat)
    requires 0 < n && x < 2 * n
    ensures r == Slot(0, x, n)
  {
    var q := x / n;
    r := x % n;
    assert x == n * q + r;
    ProductBounds(n, q);
  }

  function Unrolled(cells: seq<nat>, head: nat, size: nat): seq<nat>
    requires head < |cells| && size <= |cells|
  {
    seq(size, i requires 0 <= i < size => cells[Slot(head, i, |cells|)])
  }

  function Pushed(contents: seq<nat>, capacity: nat, id: nat): seq<nat> {
    if |contents| < capacity || contents == [] then contents + [id] else contents[1..] + [id]
  }

  lemma AppendsInPlace(cells: seq<nat>, head: nat, size: nat, id: nat)
    requires head < |cells| && size < |cells|
    ensures Unrolled(cells[Slot(head, size, |cells|) := id], head, size + 1) == Unrolled(cells, head, size) + [id]
  {
  }

  lemma OverwritesOldest(cells: seq<nat>, head: nat, id: nat)
    requires head < |cells|
    ensures Unrolled(cells[head := id], Slot(head, 1, |cells|), |cells|) == Unrolled(cells, head, |cells|)[1..] + [id]
  {
  }

  class OrderRing {
    var buf: array<nat>
    var head: nat
    var size: nat

    ghost predicate Valid()
      reads this
    {
      0 < buf.Length && head < buf.Length && size <= buf.Length
    }

    /** Oldest first. */
    ghost function Contents(): seq<nat>
      requires Valid()
      reads this, buf
    {
      Unrolled(buf[..], head, size)
    }

    constructor (capacity: nat)
      requires capacity > 0
      ensures Valid() && fresh(buf) && buf.Length == capacity && Contents() == []
    {
      buf := new nat[capacity](_ => 0);
      head, size := 0, 0;
    }

    /** Appends; when the ring is full the oldest id makes room. */
    method Push(id: nat)
      requires Valid()
      modifies this, buf
      ensures Valid() && buf == old(buf)
      ensures Contents() == Pushed(old(Contents()), buf.Length, id)
    {
      var at := Wrap(head + size, buf.Length);
      ghost var cells := buf[..];
      buf[at] := id;
      assert buf[..] == cells[at := id];
      if size < buf.Length {
        AppendsInPlace(cells, head, size, id);
        size := size + 1;
      } else {
        OverwritesOldest(cells, head, id);
        head := Wrap(head + 1, buf.Length);
      }
    }

    /** Removes and returns the newest id. */
    method Pop() returns (id: Option<nat>)
      requires Valid()
      modifies this`size
      ensures Valid() && buf == old(buf)
      ensures old(Contents()) == [] ==> id == None && Contents() == []
      ensures old(Contents()) != [] ==> id == Some(old(Contents())[|old(Contents())| - 1]) && Contents() == old(Contents())[..|old(Contents())| - 1]
    {
      if size == 0 { return None; }
      size := size - 1;
      var at := Wrap(head + size, buf.Length);
      id := Some(buf[at]);
    }

    method Peek() returns (id: Option<nat>)
      requires Valid()
      ensures id == if Contents() == [] then None else Some(Contents()[|Contents()| - 1])
    {
      if size == 0 { return None; }
      var at := Wrap(head + size - 1, buf.Length);
      id := Some(buf[at]);
    }
  }

  // ---------------------------------------------------------------- the ring against the stack

  datatype RingStep = PushId(id: nat) | PopId | PeekId

  function Newest(ids: seq<nat>): Option<nat> {
    if ids == [] then None else Some(ids[|ids| - 1])
  }

  function Popped(ids: seq<nat>): seq<nat> {
    if ids == [] then [] else ids[..|ids| - 1]
  }

  /** What a step leaves in a buffer of the capacity; None means no bound. */
  function AfterStep(ids: seq<nat>, capacity: Option<nat>, s: RingStep): seq<nat> {
    match s
    case PushId(id) => if capacity.Some? then Pushed(ids, capacity.value, id) else ids + [id]
    case PopId => Popped(ids)
    case PeekId => ids
  }

  /** What the steps return, one answer each; a push returns nothing. */
  function Answers(ids: seq<nat>, capacity: Option<nat>, steps: seq<RingStep>): seq<Option<nat>>
    decreases |steps|
  {
    if steps == [] then []
    else [if steps[0].PushId? then None else Newest(ids)] + Answers(AfterStep(ids, capacity, steps[0]), capacity, steps[1..])
  }

  ghost predicate IsSuffix(a: seq<nat>, b: seq<nat>) {
    |a| <= |b| && a == b[|b| - |a|..]
  }

  /** No step pushes onto a full ring. */
  ghost predicate NeverFull(ids: seq<nat>, capacity: nat, steps: seq<RingStep>)
    decreases |steps|
  {
    steps != [] ==>
      (steps[0].PushId? ==> |ids| < capacity) && NeverFull(AfterStep(ids, Some(capacity), steps[0]), capacity, steps[1..])
  }

  lemma StepKeepsTop(contents: seq<nat>, stack: seq<nat>, capacity: nat, s: RingStep)
    requires capacity > 0 && |contents| <= capacity && IsSuffix(contents, stack)
    ensures |AfterStep(contents, Some(capacity), s)| <= capacity
    ensures IsSuffix(AfterStep(contents, Some(capacity), s), AfterStep(stack, None, s))
    ensures Newest(contents).Some? ==> Newest(contents) == Newest(stack)
  {
  }

  /**
   * In every run each id that the ring returns is the one the unbounded stack of the same steps returns; it may return
   * none where the stack still has one, but only after a push onto the full ring.
   */
  lemma {:induction false} RingAnswersLikeStack(contents: seq<nat>, stack: seq<nat>, capacity: nat, steps: seq<RingStep>)
    requires capacity > 0 && |contents| <= capacity && IsSuffix(contents, stack)
    ensures |Answers(contents, Some(capacity), steps)| == |Answers(stack, None, steps)| == |steps|
    ensures forall k | 0 <= k < |steps| && Answers(contents, Some(capacity), steps)[k].Some? ::
              Answers(contents, Some(capacity), steps)[k] == Answers(stack, None, steps)[k]
    ensures contents == stack && NeverFull(contents, capacity, steps) ==> Answers(contents, Some(capacity), steps) == Answers(stack, None, steps)
    decreases |steps|
  {
    if steps != [] {
      var c, t := AfterStep(contents, Some(capacity), steps[0]), AfterStep(stack, None, steps[0]);
      StepKeepsTop(contents, stack, capacity, steps[0]);
      RingAnswersLikeStack(c, t, capacity, steps[1..]);
      var ring, rest := Answers(contents, Some(capacity), steps), Answers(c, Some(capacity), steps[1..]);
      forall k | 0 <= k < |steps| && ring[k].Some? ensures ring[k] == Answers(stack, None, steps)[k] {
        if k > 0 { assert ring[k] == rest[k - 1] && Answers(stack, None, steps)[k] == Answers(t, None, steps[1..])[k - 1]; }
      }
    }
  }

  // ---------------------------------------------------------------- the picker

  function Total(weights: seq<nat>): nat {
    if weights == [] then 0 else Total(weights[..|weights| - 1]) + weights[|weights| - 1]
  }

  lemma TotalStep(weights: seq<nat>, i: nat)
    requires i < |weights|
    ensures Total(weights[..i + 1]) == Total(weights[..i]) + weights[i]
  {
    var head := weights[..i + 1];
    assert head[..|head| - 1] == weights[..i];
  }

  lemma {:induction false} TotalPrefix(weights: seq<nat>, i: nat)
    requires i <= |weights|
    ensures Total(weights[..i]) <= Total(weights)
  {
    if i == |weights| {
      assert weights[..i] == weights;
    } else {
      assert weights[..|weights| - 1][..i] == weights[..i];
      TotalPrefix(weights[..|weights| - 1], i);
    }
  }

  /** Draw n falls into the stretch of scenario i. */
  predicate Picks(weights: seq<nat>, n: nat, i: nat) {
    i < |weights| && Total(weights[..i]) <= n < Total(weights[..i + 1])
  }

  /** The loop that subtracts weights; what stands after it is reached exactly for a draw outside the total. */
  method Pick(weights: seq<nat>, draw: nat) returns (i: nat, fallback: bool)
    requires weights != []
    ensures fallback <==> draw >= Total(weights)
    ensures if fallback then i == |weights| - 1 else Picks(weights, draw, i)
  {
    var n := draw;
    i := 0;
    while i < |weights|
      invariant i <= |weights|
      invariant 0 <= n && draw == n + Total(weights[..i])
    {
      TotalStep(weights, i);
      if n < weights[i] {
        TotalPrefix(weights, i + 1);
        return i, false;
      }
      n := n - weights[i];
      i := i + 1;
    }
    assert weights[..|weights|] == weights;
    return |weights| - 1, true;
  }

  lemma {:induction false} TotalMonotone(weights: seq<nat>, i: nat, j: nat)
    requires i <= j <= |weights|
    ensures Total(weights[..i]) <= Total(weights[..j])
  {
    TotalPrefix(weights[..j], i);
    assert weights[..j][..i] == weights[..i];
  }

  /** A draw picks one scenario only. */
  lemma PicksOne(weights: seq<nat>, n: nat, i: nat, j: nat)
    requires Picks(weights, n, i) && Picks(weights, n, j)
    ensures i == j
  {
    if i + 1 <= j || j + 1 <= i { TotalMonotone(weights, if i < j then i + 1 else j + 1, if i < j then j else i); }
  }

  /** How many of the draws 0 .. n-1 pick scenario i. */
  function Draws(weights: seq<nat>, i: nat, n: nat): nat {
    if n == 0 then 0 else Draws(weights, i, n - 1) + if Picks(weights, n - 1, i) then 1 else 0
  }

  lemma {:induction false} DrawsUpTo(weights: seq<nat>, i: nat, n: nat)
    requires i < |weights|
    ensures var lo, hi := Total(weights[..i]), Total(weights[..i + 1]);
            lo <= hi && Draws(weights, i, n) == if n <= lo then 0 else if n <= hi then n - lo else hi - lo
  {
    TotalStep(weights, i);
    if n > 0 { DrawsUpTo(weights, i, n - 1); }
  }

  /** Each scenario is picked by exactly its weight of the total draws. */
  lemma PickedByWeight(weights: seq<nat>, i: nat)
    requires i < |weights|
    ensures Draws(weights, i, Total(weights)) == weights[i]
  {
    DrawsUpTo(weights, i, Total(weights));
    TotalPrefix(weights, i + 1);
    TotalStep(weights, i);
  }

  // ---------------------------------------------------------------- percentiles

  ghost predicate SortedAscending(xs: seq<int>) {
    forall i, j | 0 <= i <= j < |xs| :: xs[i] <= xs[j]
  }

  function Ceil(r: real): int { -((-r).Floor) }

  method Percentile(xs: seq<int>, p: real) returns (v: int)
    ensures xs == [] ==> v == 0
    ensures xs != [] ==> exists idx: nat :: NearestRank(xs, p, idx) && v == xs[idx]
  {
    if |xs| == 0 { return 0; }
    var idx := Ceil(p * |xs| as real) - 1;
    if idx < 0 { idx := 0; }
    if idx >= |xs| { idx := |xs| - 1; }
    assert NearestRank(xs, p, idx);
    return xs[idx];
  }

  /** The index, clamped into the list. */
  ghost predicate NearestRank(xs: seq<int>, p: real, idx: nat) {
    idx < |xs| &&
    var raw := Ceil(p * |xs| as real) - 1;
    idx == if raw < 0 then 0 else if raw >= |xs| then |xs| - 1 else raw
  }

  function AtMost(xs: seq<int>, v: int): nat {
    if xs == [] then 0 else AtMost(xs[..|xs| - 1], v) + if xs[|xs| - 1] <= v then 1 else 0
  }

  function Below(xs: seq<int>, v: int): nat {
    if xs == [] then 0 else Below(xs[..|xs| - 1], v) + if xs[|xs| - 1] < v then 1 else 0
  }

  lemma {:induction false} CountsAround(xs: seq<int>, idx: nat, v: int)
    requires forall i | 0 <= i < |xs| :: (i <= idx ==> xs[i] <= v) && (i >= idx ==> xs[i] >= v)
    ensures AtMost(xs, v) >= if |xs| <= idx then |xs| else idx + 1
    ensures Below(xs, v) <= idx && Below(xs, v) <= |xs|
  {
    if xs != [] { CountsAround(xs[..|xs| - 1], idx, v); }
  }

  /** For 0 < p <= 1 at least a share p of the samples is at most the value, and a share less than p is below it. */
  lemma PercentileMeans(xs: seq<int>, p: real, idx: nat)
    requires SortedAscending(xs) && NearestRank(xs, p, idx) && 0.0 < p <= 1.0
    ensures AtMost(xs, xs[idx]) as real >= p * |xs| as real
    ensures Below(xs, xs[idx]) as real < p * |xs| as real
  {
    var share := p * |xs| as real;
    assert 0.0 < share <= |xs| as real;
    CountsAround(xs, idx, xs[idx]);
    assert idx == Ceil(share) - 1;
  }
}
