/** The batches, seen as what they stand for: a queue of single copies. */
module FifoQueue {
  import opened Prelude
  import opened Batches
  import opened BatchLaws

  datatype Copy = Copy(lot: LotId, unitCost: Option<nat>)

  function Copies(n: int, c: Copy): (r: seq<Copy>)
    ensures |r| == Max(n, 0) && forall x :: x in r ==> x == c
    decreases Max(n, 0)
  {
    if n <= 0 then [] else [c] + Copies(n - 1, c)
  }

  /** Every copy on the shelf, first to leave first. */
  function Queue(lots: seq<Lot>): seq<Copy> {
    if lots == [] then []
    else Copies(lots[0].qtyLeft, Copy(lots[0].id, lots[0].unitCost)) + Queue(lots[1..])
  }

  /** The copies a list of takes stands for. */
  function CopiesTaken(takes: seq<Take>): seq<Copy> {
    if takes == [] then []
    else if takes[0].lot.None? then CopiesTaken(takes[1..])
    else Copies(takes[0].qty, Copy(takes[0].lot.value, takes[0].unitCost)) + CopiesTaken(takes[1..])
  }

  lemma {:induction false} CopiesSplit(n: int, k: int, c: Copy)
    requires 0 <= k <= n
    ensures Copies(n, c)[..k] == Copies(k, c) && Copies(n, c)[k..] == Copies(n - k, c)
  {
    var all, front, back := Copies(n, c), Copies(k, c), Copies(n - k, c);
    forall i | 0 <= i < k
      ensures all[i] == front[i]
    {
      assert all[i] in all && front[i] in front;
    }
    forall i | 0 <= i < n - k
      ensures all[k + i] == back[i]
    {
      assert all[k + i] in all && back[i] in back;
    }
  }

  lemma CutInFront<T>(a: seq<T>, b: seq<T>, m: nat)
    requires m <= |a|
    ensures (a + b)[m..] == a[m..] + b && (a + b)[..m] == a[..m]
  {}

  lemma CutBehind<T>(a: seq<T>, b: seq<T>, m: nat)
    requires |a| <= m <= |a| + |b|
    ensures (a + b)[m..] == b[m - |a|..] && (a + b)[..m] == a + b[..m - |a|]
  {}

  lemma {:induction false} QueueLength(lots: seq<Lot>)
    requires NonNegative(lots)
    ensures |Queue(lots)| == Total(lots)
  {
    if lots != [] {
      QueueLength(lots[1..]);
      assert lots[0] in lots;
    }
  }

  ghost predicate TakesFirst(lots: seq<Lot>, need: int) {
    var (after, takes, unmet) := TakeFrom(lots, need);
    var q := Queue(lots);
    var m := Min(need, |q|);
    && need >= 0
    && Queue(after) == q[m..]
    && CopiesTaken(takes) == q[..m]
    && unmet == need - m
  }

  /** `consume` removes exactly the first `min(need, total)` copies of the queue, and lists them. */
  lemma {:induction false} ConsumeIsQueue(lots: seq<Lot>, need: int)
    requires NonNegative(lots) && need >= 0
    ensures TakesFirst(lots, need)
  {
    if lots != [] && need > 0 {
      assert lots[0] in lots;
      TakeStep(lots, need);
      var take := OldestTake(lots, need);
      ConsumeIsQueue(lots[1..], need - take);
      OldestFirst(lots, need);
    }
  }

  lemma OldestFirst(lots: seq<Lot>, need: int)
    requires lots != [] && need > 0 && 0 <= lots[0].qtyLeft
    requires TakesFirst(lots[1..], need - OldestTake(lots, need))
    ensures TakesFirst(lots, need)
  {
    var c := Copy(lots[0].id, lots[0].unitCost);
    var head, tail := Copies(lots[0].qtyLeft, c), Queue(lots[1..]);
    var take := OldestTake(lots, need);
    var (rest, takes, _) := TakeFrom(lots[1..], need - take);
    TakeStep(lots, need);
    CopiesSplit(lots[0].qtyLeft, take, c);
    TakenCopies(lots, need);
    var m := Min(need, |head + tail|);
    if take < lots[0].qtyLeft {
      CutInFront(head, tail, m);
      assert tail[..0] == [] && tail[0..] == tail;
    } else {
      CutBehind(head, tail, m);
      assert head[take..] == [] && head[..take] == head;
    }
  }

  lemma TakenCopies(lots: seq<Lot>, need: int)
    requires lots != [] && need > 0
    ensures var take := OldestTake(lots, need);
            CopiesTaken(TakeFrom(lots, need).1) ==
            Copies(take, Copy(lots[0].id, lots[0].unitCost)) + CopiesTaken(TakeFrom(lots[1..], need - take).1)
  {
    TakeStep(lots, need);
    var rest := CopiesTaken(TakeFrom(lots[1..], need - OldestTake(lots, need)).1);
    assert [] + rest == rest;
  }

  function Value(copies: seq<Copy>): int {
    if copies == [] then 0
    else (if copies[0].unitCost.Some? then copies[0].unitCost.value else 0) + Value(copies[1..])
  }

  lemma {:induction false} ValueAppend(a: seq<Copy>, b: seq<Copy>)
    ensures Value(a + b) == Value(a) + Value(b)
  {
    if a == [] {
      assert a + b == b;
    } else {
      ValueAppend(a[1..], b);
      assert (a + b)[1..] == a[1..] + b;
    }
  }

  /** Two sales in a row leave the batches of one sale of both quantities. */
  ghost predicate SellsTwice(lots: seq<Lot>, a: int, b: int) {
    TakeFrom(TakeFrom(lots, a).0, b).0 == TakeFrom(lots, a + b).0
  }

  lemma {:induction false} ConsumeTwice(lots: seq<Lot>, a: int, b: int)
    requires NonNegative(lots) && a >= 0 && b >= 0
    ensures SellsTwice(lots, a, b)
  {
    if lots != [] && a > 0 && b > 0 {
      assert lots[0] in lots;
      var takeA, take := OldestTake(lots, a), OldestTake(lots, a + b);
      ConsumeTwice(lots[1..], a - takeA, b - (take - takeA));
      SellsTwiceStep(lots, a, b);
    } else {
      SellsTwiceBase(lots, a, b);
    }
  }

  lemma SellsTwiceBase(lots: seq<Lot>, a: int, b: int)
    requires a >= 0 && b >= 0 && (lots == [] || a == 0 || b == 0)
    ensures SellsTwice(lots, a, b)
  {}

  lemma SellsTwiceStep(lots: seq<Lot>, a: int, b: int)
    requires lots != [] && a > 0 && b > 0 && 0 <= lots[0].qtyLeft
    requires var takeA, take := OldestTake(lots, a), OldestTake(lots, a + b);
             SellsTwice(lots[1..], a - takeA, b - (take - takeA))
    ensures SellsTwice(lots, a, b)
  {
    OldestTwice(lots, a, b);
    var takeA, take := OldestTake(lots, a), OldestTake(lots, a + b);
    assert a - takeA + (b - (take - takeA)) == a + b - take;
  }

  lemma OldestTwice(lots: seq<Lot>, a: int, b: int)
    requires lots != [] && a > 0 && b > 0 && 0 <= lots[0].qtyLeft
    ensures var takeA, take := OldestTake(lots, a), OldestTake(lots, a + b);
            && 0 <= takeA <= a && 0 <= take - takeA <= b
            && TakeFrom(TakeFrom(lots, a).0, b).0 ==
               [lots[0].(qtyLeft := lots[0].qtyLeft - take)]
               + TakeFrom(TakeFrom(lots[1..], a - takeA).0, b - (take - takeA)).0
            && TakeFrom(lots, a + b).0 ==
               [lots[0].(qtyLeft := lots[0].qtyLeft - take)] + TakeFrom(lots[1..], a + b - take).0
  {
    TakeStep(lots, a);
    TakeStep(lots, a + b);
    var mid := TakeFrom(lots, a).0;
    TakeStep(mid, b);
    assert mid[0] == lots[0].(qtyLeft := lots[0].qtyLeft - OldestTake(lots, a));
    assert mid[1..] == TakeFrom(lots[1..], a - OldestTake(lots, a)).0;
  }

  /** Selling `a` and then `b` copies, against selling `a + b` at once: same batches, same copies, same cost. */
  lemma ConsumeTwiceSameCost(lots: seq<Lot>, a: int, b: int)
    requires NonNegative(lots) && a >= 0 && b >= 0
    ensures var (mid, first, _) := TakeFrom(lots, a);
            var (after, second, _) := TakeFrom(mid, b);
            var (whole, both, _) := TakeFrom(lots, a + b);
            && after == whole
            && CopiesTaken(first) + CopiesTaken(second) == CopiesTaken(both)
            && Value(CopiesTaken(first)) + Value(CopiesTaken(second)) == Value(CopiesTaken(both))
  {
    var mid := TakeFrom(lots, a).0;
    TakeKeepsNonNegative(lots, a);
    ConsumeTwice(lots, a, b);
    ConsumeIsQueue(lots, a);
    ConsumeIsQueue(mid, b);
    ConsumeIsQueue(lots, a + b);
    TwoSlices(Queue(lots), a, b);
    ValueAppend(CopiesTaken(TakeFrom(lots, a).1), CopiesTaken(TakeFrom(mid, b).1));
  }

  lemma TwoSlices<T>(q: seq<T>, a: nat, b: nat)
    ensures var m := Min(a, |q|);
            var rest := q[m..];
            q[..m] + rest[..Min(b, |rest|)] == q[..Min(a + b, |q|)]
  {}
}
