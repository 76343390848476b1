/** What taking from and giving back to the batches keeps. */
module BatchLaws {
  import opened Prelude
  import opened Batches

  /** The same batch, apart from how many copies it has left. */
  predicate SameBatch(a: Lot, b: Lot) {
    a.(qtyLeft := b.qtyLeft) == b
  }

  ghost predicate SameBatches(a: seq<Lot>, b: seq<Lot>) {
    |a| == |b| && forall i :: 0 <= i < |a| ==> SameBatch(a[i], b[i])
  }

  lemma SameBatchesCons(a: seq<Lot>, b: seq<Lot>, head: Lot)
    requires a != [] && SameBatch(a[0], head) && SameBatches(a[1..], b)
    ensures SameBatches(a, [head] + b)
  {
    var whole := [head] + b;
    forall i | 0 <= i < |a|
      ensures SameBatch(a[i], whole[i])
    {
      if i > 0 {
        assert SameBatch(a[1..][i - 1], b[i - 1]);
      }
    }
  }

  ghost predicate NonNegative(lots: seq<Lot>) {
    forall l :: l in lots ==> 0 <= l.qtyLeft
  }

  // ─── taking ───

  /** What a sale of `need` copies takes from the oldest batch. */
  function OldestTake(lots: seq<Lot>, need: int): int
    requires lots != []
  {
    if lots[0].qtyLeft <= 0 then 0 else Min(need, lots[0].qtyLeft)
  }

  /** One step of `TakeFrom`, its two branches read as one. */
  lemma TakeStep(lots: seq<Lot>, need: int)
    requires lots != [] && need > 0
    ensures var take := OldestTake(lots, need);
            var (rest, takes, unmet) := TakeFrom(lots[1..], need - take);
            var head := if take == 0 then [] else [Take(Some(lots[0].id), take, lots[0].unitCost)];
            && TakeFrom(lots, need) == ([lots[0].(qtyLeft := lots[0].qtyLeft - take)] + rest, head + takes, unmet)
            && 0 <= take
            && (0 <= lots[0].qtyLeft ==> take == Min(need, lots[0].qtyLeft))
  {
    var takes := TakeFrom(lots[1..], need - OldestTake(lots, need)).1;
    assert [] + takes == takes;
  }

  lemma {:induction false} TakeKeepsBatches(lots: seq<Lot>, need: int)
    requires NonNegative(lots)
    ensures SameBatches(lots, TakeFrom(lots, need).0)
  {
    if lots != [] && need > 0 {
      var take := OldestTake(lots, need);
      TakeStep(lots, need);
      TakeKeepsBatches(lots[1..], need - take);
      SameBatchesCons(lots, TakeFrom(lots[1..], need - take).0, lots[0].(qtyLeft := lots[0].qtyLeft - take));
    }
  }

  lemma {:induction false} TakeKeepsNonNegative(lots: seq<Lot>, need: int)
    requires NonNegative(lots)
    ensures NonNegative(TakeFrom(lots, need).0)
  {
    if lots != [] && need > 0 {
      TakeStep(lots, need);
      TakeKeepsNonNegative(lots[1..], need - OldestTake(lots, need));
    }
  }

  /** Taking moves copies: what the takes list is what the batches lost, batch by batch. */
  lemma {:induction false} TakeAccounts(lots: seq<Lot>, need: int)
    requires NonNegative(lots) && need >= 0
    ensures var (after, takes, unmet) := TakeFrom(lots, need);
            && Total(after) == Total(lots) - Min(need, Total(lots))
            && Taken(takes) == Min(need, Total(lots))
            && unmet == need - Min(need, Total(lots))
            && Total(lots) >= 0
  {
    if lots != [] {
      NonNegativeTotal(lots[1..]);
      if need > 0 {
        var take := OldestTake(lots, need);
        TakeStep(lots, need);
        assert 0 <= lots[0].qtyLeft && NonNegative(lots[1..]);
        hide NonNegative, OldestTake, TakeFrom;
        TakeAccounts(lots[1..], need - take);
      }
    }
  }

  lemma {:induction false} NonNegativeTotal(lots: seq<Lot>)
    requires NonNegative(lots)
    ensures Total(lots) >= 0
  {
    if lots != [] {
      NonNegativeTotal(lots[1..]);
    }
  }

  lemma {:induction false} TakeAccountsPerBatch(lots: seq<Lot>, need: int, id: LotId)
    requires NonNegative(lots)
    ensures var (after, takes, _) := TakeFrom(lots, need);
            && Left(after, id) == Left(lots, id) - TakenOf(takes, id)
            && Arrived(after, id) == Arrived(lots, id)
  {
    if lots != [] && need > 0 {
      var take := OldestTake(lots, need);
      TakeStep(lots, need);
      TakeAccountsPerBatch(lots[1..], need - take, id);
    }
  }

  lemma {:induction false} OutAppend(a: seq<Use>, b: seq<Use>, order: OrderId, id: LotId)
    ensures Out(a + b, id) == Out(a, id) + Out(b, id)
    ensures OutWith(a + b, order, id) == OutWith(a, order, id) + OutWith(b, order, id)
    ensures Outstanding(a + b, order) == Outstanding(a, order) + Outstanding(b, order)
  {
    if b == [] {
      assert a + b == a;
    } else {
      var n := |b| - 1;
      OutAppend(a, b[..n], order, id);
      assert (a + b)[..|a + b| - 1] == a + b[..n];
      assert (a + b)[|a + b| - 1] == b[n];
    }
  }

  /** The rows written for an order record exactly what it took. */
  lemma {:induction false} UsesRecordTakes(takes: seq<Take>, order: OrderId, id: LotId)
    requires forall t :: t in takes ==> t.lot.Some? && 0 < t.qty
    ensures var uses := UsesOf(takes, order);
            && Out(uses, id) == TakenOf(takes, id)
            && OutWith(uses, order, id) == TakenOf(takes, id)
            && Outstanding(uses, order) == Taken(takes)
            && forall u :: u in uses ==> UseOk(u) && u.order == order && u.returned == 0
  {
    if takes != [] {
      var head := [Use(takes[0].lot.value, order, takes[0].qty, takes[0].unitCost, 0)];
      UsesRecordTakes(takes[1..], order, id);
      OutAppend(head, UsesOf(takes[1..], order), order, id);
      OneUse(head[0], order, id);
    }
  }

  lemma OutLast(older: seq<Use>, u: Use, order: OrderId, id: LotId)
    ensures Out(older + [u], id) == Out(older, id) + if u.lotId == id then u.qty - u.returned else 0
    ensures OutWith(older + [u], order, id) ==
            OutWith(older, order, id) + if u.order == order && u.lotId == id then u.qty - u.returned else 0
    ensures Outstanding(older + [u], order) ==
            Outstanding(older, order) + if u.order == order then u.qty - u.returned else 0
  {
    OutAppend(older, [u], order, id);
    OneUse(u, order, id);
  }

  lemma OneUse(u: Use, order: OrderId, id: LotId)
    ensures Out([u], id) == if u.lotId == id then u.qty - u.returned else 0
    ensures OutWith([u], order, id) == if u.order == order && u.lotId == id then u.qty - u.returned else 0
    ensures Outstanding([u], order) == if u.order == order then u.qty - u.returned else 0
  {
    assert [u][..0] == [];
  }

  /** A sale keeps the batch table sound, whether or not an order is recorded. */
  lemma TakeKeepsSound(lots: seq<Lot>, uses: seq<Use>, need: int, order: OrderId)
    requires Sound(lots, uses)
    ensures var (after, takes, _) := TakeFrom(lots, need);
            Sound(after, uses) && Sound(after, uses + UsesOf(takes, order))
  {
    var (after, takes, _) := TakeFrom(lots, need);
    TakeKeepsBatches(lots, need);
    SameBatchesDistinct(lots, after);
    TakeKeepsNonNegative(lots, need);
    forall id: LotId
      ensures Accounted(after, uses, id) && Accounted(after, uses + UsesOf(takes, order), id)
    {
      assert Accounted(lots, uses, id);
      TakeAccountsPerBatch(lots, need, id);
      UsesRecordTakes(takes, order, id);
      OutAppend(uses, UsesOf(takes, order), order, id);
      TakenOfNonNegative(takes, id);
    }
    UsesRecordTakes(takes, order, 0);
  }

  lemma {:induction false} TakenOfNonNegative(takes: seq<Take>, id: LotId)
    requires forall t :: t in takes ==> 0 < t.qty
    ensures 0 <= TakenOf(takes, id)
  {
    if takes != [] {
      TakenOfNonNegative(takes[1..], id);
    }
  }

  // ─── giving back ───

  lemma {:induction false} AbsentLot(lots: seq<Lot>, id: LotId)
    requires forall l :: l in lots ==> l.id != id
    ensures Left(lots, id) == 0 && Arrived(lots, id) == 0
  {
    if lots != [] {
      AbsentLot(lots[1..], id);
    }
  }

  /** With room in the batch, the clamp does not bite and exactly `n` copies come back. */
  lemma {:induction false} AddBackAccounts(lots: seq<Lot>, id: LotId, n: int)
    requires DistinctIds(lots) && NonNegative(lots)
    requires 0 < n && Left(lots, id) + n <= Arrived(lots, id)
    ensures var after := AddBack(lots, id, n);
            && SameBatches(lots, after) && NonNegative(after)
            && Total(after) == Total(lots) + n
            && Left(after, id) == Left(lots, id) + n
  {
    if lots != [] {
      if lots[0].id == id {
        assert forall l :: l in lots[1..] ==> l.id != id;
        AbsentLot(lots[1..], id);
      } else {
        AddBackAccounts(lots[1..], id, n);
        SameBatchesCons(lots, AddBack(lots[1..], id, n), lots[0]);
      }
    }
  }

  lemma {:induction false} AddBackOtherBatch(lots: seq<Lot>, id: LotId, n: int, other: LotId)
    ensures Arrived(AddBack(lots, id, n), other) == Arrived(lots, other)
    ensures other != id ==> Left(AddBack(lots, id, n), other) == Left(lots, other)
  {
    if lots != [] && lots[0].id != id {
      AddBackOtherBatch(lots[1..], id, n, other);
    }
  }

  lemma {:induction false} OutNonNegative(uses: seq<Use>, order: OrderId, id: LotId)
    requires forall u :: u in uses ==> UseOk(u)
    ensures 0 <= OutWith(uses, order, id) <= Out(uses, id)
    ensures OutWith(uses, order, id) <= Outstanding(uses, order)
  {
    if uses != [] {
      OutNonNegative(uses[..|uses| - 1], order, id);
      assert UseOk(uses[|uses| - 1]);
    }
  }

  lemma {:induction false} LeftNonNegative(lots: seq<Lot>, id: LotId)
    requires NonNegative(lots)
    ensures 0 <= Left(lots, id)
  {
    if lots != [] {
      LeftNonNegative(lots[1..], id);
    }
  }

  /** Giving back what the newest consumption still has out leaves the older ones sound. */
  lemma BackFromNewest(lots: seq<Lot>, uses: seq<Use>, back: int)
    requires Sound(lots, uses) && uses != []
    requires var u := uses[|uses| - 1]; 0 < back <= u.qty - u.returned
    ensures var u := uses[|uses| - 1];
            && Left(lots, u.lotId) + back <= Arrived(lots, u.lotId)
            && Sound(AddBack(lots, u.lotId, back), uses[..|uses| - 1])
  {
    var u := uses[|uses| - 1];
    var older := uses[..|uses| - 1];
    assert Accounted(lots, uses, u.lotId);
    OutNonNegative(older, u.order, u.lotId);
    AddBackAccounts(lots, u.lotId, back);
    var after := AddBack(lots, u.lotId, back);
    SameBatchesDistinct(lots, after);
    forall id: LotId
      ensures Accounted(after, older, id)
    {
      assert Accounted(lots, uses, id);
      AddBackOtherBatch(lots, u.lotId, back, id);
    }
  }

  lemma SameBatchesDistinct(a: seq<Lot>, b: seq<Lot>)
    requires SameBatches(a, b) && DistinctIds(a)
    ensures DistinctIds(b)
  {
    forall i, j | 0 <= i < j < |b|
      ensures b[i].id != b[j].id
    {
      assert SameBatch(a[i], b[i]) && SameBatch(a[j], b[j]);
    }
  }

  lemma OlderSound(lots: seq<Lot>, uses: seq<Use>)
    requires Sound(lots, uses) && uses != []
    ensures Sound(lots, uses[..|uses| - 1])
  {
    var older := uses[..|uses| - 1];
    assert UseOk(uses[|uses| - 1]);
    forall id: LotId
      ensures Accounted(lots, older, id)
    {
      assert Accounted(lots, uses, id);
    }
  }

  /** What a return of `left` copies puts back through the newest consumption. */
  function NewestBack(uses: seq<Use>, order: OrderId, left: int): int
    requires uses != []
  {
    var u := uses[|uses| - 1];
    if u.order == order then Max(0, Min(left, u.qty - u.returned)) else 0
  }

  function Refill(lots: seq<Lot>, id: LotId, back: int): seq<Lot> {
    if back == 0 then lots else AddBack(lots, id, back)
  }

  /** One step of `GiveBack`, its two branches read as one. */
  lemma GiveBackStep(lots: seq<Lot>, uses: seq<Use>, order: OrderId, left: int)
    requires uses != [] && left > 0
    ensures var n := |uses| - 1;
            var u := uses[n];
            var back := NewestBack(uses, order, left);
            var (lots', older, left') := GiveBack(Refill(lots, u.lotId, back), uses[..n], order, left - back);
            GiveBack(lots, uses, order, left) == (lots', older + [u.(returned := u.returned + back)], left')
  {}

  lemma RefillSound(lots: seq<Lot>, uses: seq<Use>, order: OrderId, left: int)
    requires Sound(lots, uses) && uses != [] && left > 0
    ensures var u := uses[|uses| - 1];
            var back := NewestBack(uses, order, left);
            var filled := Refill(lots, u.lotId, back);
            && 0 <= back <= Min(left, u.qty - u.returned)
            && Sound(filled, uses[..|uses| - 1])
            && SameBatches(lots, filled)
            && Total(filled) == Total(lots) + back
  {
    var u := uses[|uses| - 1];
    assert UseOk(u);
    var back := NewestBack(uses, order, left);
    if back == 0 {
      OlderSound(lots, uses);
    } else {
      BackFromNewest(lots, uses, back);
      AddBackAccounts(lots, u.lotId, back);
    }
  }

  lemma RefillPerBatch(lots: seq<Lot>, uses: seq<Use>, order: OrderId, left: int, id: LotId)
    requires Sound(lots, uses) && uses != [] && left > 0
    ensures var u := uses[|uses| - 1];
            var back := NewestBack(uses, order, left);
            var filled := Refill(lots, u.lotId, back);
            && Arrived(filled, id) == Arrived(lots, id)
            && Left(filled, id) == Left(lots, id) + if id == u.lotId then back else 0
  {
    var u := uses[|uses| - 1];
    assert UseOk(u);
    var back := NewestBack(uses, order, left);
    if back > 0 {
      BackFromNewest(lots, uses, back);
      AddBackAccounts(lots, u.lotId, back);
      AddBackOtherBatch(lots, u.lotId, back, id);
    }
  }

  /** A return moves copies, batch by batch, from "out with the order" to "left". */
  lemma {:induction false} GiveBackPerBatch(lots: seq<Lot>, uses: seq<Use>, order: OrderId, left: int, id: LotId)
    requires Sound(lots, uses)
    ensures var (lots', uses', _) := GiveBack(lots, uses, order, left);
            && Left(lots', id) + Out(uses', id) == Left(lots, id) + Out(uses, id)
            && Left(lots', id) + OutWith(uses', order, id) == Left(lots, id) + OutWith(uses, order, id)
            && Arrived(lots', id) == Arrived(lots, id)
    decreases |uses|
  {
    hide Sound;
    if uses != [] && left > 0 {
      hide Refill, NewestBack, GiveBack, Left, Arrived;
      var n := |uses| - 1;
      var u := uses[n];
      var back := NewestBack(uses, order, left);
      var filled := Refill(lots, u.lotId, back);
      GiveBackStep(lots, uses, order, left);
      RefillSound(lots, uses, order, left);
      RefillPerBatch(lots, uses, order, left, id);
      GiveBackPerBatch(filled, uses[..n], order, left - back, id);
      OutLast(GiveBack(filled, uses[..n], order, left - back).1, u.(returned := u.returned + back), order, id);
    }
  }

  /** The same consumption, apart from how much of it came back. */
  predicate SameUse(a: Use, b: Use) {
    a.(returned := b.returned) == b
  }

  ghost predicate SameUses(a: seq<Use>, b: seq<Use>) {
    |a| == |b| && forall i :: 0 <= i < |a| ==> SameUse(a[i], b[i])
  }

  lemma SameUsesLast(a: seq<Use>, older: seq<Use>, last: Use)
    requires a != [] && SameUses(a[..|a| - 1], older) && SameUse(a[|a| - 1], last)
    requires UsesOk(older) && UseOk(last)
    ensures SameUses(a, older + [last]) && UsesOk(older + [last])
  {
    var whole := older + [last];
    forall i | 0 <= i < |a|
      ensures SameUse(a[i], whole[i])
    {
      if i < |a| - 1 {
        assert SameUse(a[..|a| - 1][i], older[i]);
      }
    }
  }

  ghost predicate UsesOk(uses: seq<Use>) {
    forall u :: u in uses ==> UseOk(u)
  }

  /** A return only ever changes how much of a row is marked returned. */
  lemma {:induction false} GiveBackKeepsUses(lots: seq<Lot>, uses: seq<Use>, order: OrderId, left: int)
    requires UsesOk(uses)
    ensures SameUses(uses, GiveBack(lots, uses, order, left).1) && UsesOk(GiveBack(lots, uses, order, left).1)
    decreases |uses|
  {
    if uses != [] && left > 0 {
      var n := |uses| - 1;
      var u := uses[n];
      assert UseOk(u);
      var back := NewestBack(uses, order, left);
      GiveBackStep(lots, uses, order, left);
      var filled := Refill(lots, u.lotId, back);
      GiveBackKeepsUses(filled, uses[..n], order, left - back);
      SameUsesLast(uses, GiveBack(filled, uses[..n], order, left - back).1, u.(returned := u.returned + back));
    }
  }

  /** A return leaves what other orders have out alone. */
  lemma {:induction false} GiveBackOtherOrders(lots: seq<Lot>, uses: seq<Use>, order: OrderId, left: int,
                                                 other: OrderId, id: LotId)
    requires other != order
    ensures OutWith(GiveBack(lots, uses, order, left).1, other, id) == OutWith(uses, other, id)
    ensures Outstanding(GiveBack(lots, uses, order, left).1, other) == Outstanding(uses, other)
    decreases |uses|
  {
    if uses != [] && left > 0 {
      var n := |uses| - 1;
      var u := uses[n];
      var back := NewestBack(uses, order, left);
      var filled := Refill(lots, u.lotId, back);
      GiveBackStep(lots, uses, order, left);
      GiveBackOtherOrders(filled, uses[..n], order, left - back, other, id);
      OutLast(GiveBack(filled, uses[..n], order, left - back).1, u.(returned := u.returned + back), other, id);
    }
  }

  /** A return keeps the batch table sound; `Sound` is what makes the clamp in it idle. */
  lemma GiveBackKeepsSound(lots: seq<Lot>, uses: seq<Use>, order: OrderId, left: int)
    requires Sound(lots, uses)
    ensures Sound(GiveBack(lots, uses, order, left).0, GiveBack(lots, uses, order, left).1)
    ensures SameBatches(lots, GiveBack(lots, uses, order, left).0)
  {
    var (lots', uses', _) := GiveBack(lots, uses, order, left);
    GiveBackTotals(lots, uses, order, left);
    GiveBackKeepsBatches(lots, uses, order, left);
    SameBatchesDistinct(lots, lots');
    GiveBackKeepsUses(lots, uses, order, left);
    forall id: LotId
      ensures Accounted(lots', uses', id)
    {
      assert Accounted(lots, uses, id);
      GiveBackPerBatch(lots, uses, order, left, id);
    }
  }

  /** A return changes nothing about a batch but how many copies are left of it. */
  lemma {:induction false} GiveBackKeepsBatches(lots: seq<Lot>, uses: seq<Use>, order: OrderId, left: int)
    requires Sound(lots, uses)
    ensures SameBatches(lots, GiveBack(lots, uses, order, left).0)
    decreases |uses|
  {
    hide Sound;
    if uses != [] && left > 0 {
      var n := |uses| - 1;
      var back := NewestBack(uses, order, left);
      var filled := Refill(lots, uses[n].lotId, back);
      GiveBackStep(lots, uses, order, left);
      RefillSound(lots, uses, order, left);
      GiveBackKeepsBatches(filled, uses[..n], order, left - back);
      SameBatchesChain(lots, filled, GiveBack(filled, uses[..n], order, left - back).0);
    }
  }

  /** How many copies a return finds a batch for. */
  lemma {:induction false} GiveBackTotals(lots: seq<Lot>, uses: seq<Use>, order: OrderId, left: int)
    requires Sound(lots, uses)
    ensures var (lots', _, left') := GiveBack(lots, uses, order, left);
            NonNegative(lots') && Total(lots') == Total(lots) + (left - left')
    decreases |uses|
  {
    if uses != [] && left > 0 {
      var n := |uses| - 1;
      var back := NewestBack(uses, order, left);
      var filled := Refill(lots, uses[n].lotId, back);
      GiveBackStep(lots, uses, order, left);
      RefillSound(lots, uses, order, left);
      GiveBackTotals(filled, uses[..n], order, left - back);
    }
  }

  /** A return finds a batch for exactly what the order still has out, up to the quantity returned. */
  lemma {:induction false} GiveBackOutstanding(lots: seq<Lot>, uses: seq<Use>, order: OrderId, left: int)
    requires UsesOk(uses) && left >= 0
    ensures var (_, uses', left') := GiveBack(lots, uses, order, left);
            && 0 <= Outstanding(uses, order)
            && left - left' == Min(left, Outstanding(uses, order))
            && Outstanding(uses', order) == Outstanding(uses, order) - (left - left')
    decreases |uses|
  {
    OutstandingNonNegative(uses, order);
    if uses != [] && left > 0 {
      var n := |uses| - 1;
      var u := uses[n];
      assert UseOk(u);
      var back := NewestBack(uses, order, left);
      var filled := Refill(lots, u.lotId, back);
      GiveBackStep(lots, uses, order, left);
      GiveBackOutstanding(filled, uses[..n], order, left - back);
      OutLast(GiveBack(filled, uses[..n], order, left - back).1, u.(returned := u.returned + back), order, 0);
    }
  }

  // ─── the clamp on a return ───

  function AddFreely(lots: seq<Lot>, id: LotId, n: int): seq<Lot> {
    if lots == [] then []
    else if lots[0].id == id then [lots[0].(qtyLeft := lots[0].qtyLeft + n)] + lots[1..]
    else [lots[0]] + AddFreely(lots[1..], id, n)
  }

  /** `GiveBack` without its LEAST(…, qty_in). */
  function GiveBackFreely(lots: seq<Lot>, uses: seq<Use>, order: OrderId, left: int): (seq<Lot>, seq<Use>, int)
    decreases |uses|
  {
    if uses == [] || left <= 0 then (lots, uses, left)
    else
      var n := |uses| - 1;
      var u := uses[n];
      var back := NewestBack(uses, order, left);
      var filled := if back == 0 then lots else AddFreely(lots, u.lotId, back);
      var (lots', uses', left') := GiveBackFreely(filled, uses[..n], order, left - back);
      (lots', uses' + [u.(returned := u.returned + back)], left')
  }

  lemma {:induction false} RoomNeedsNoClamp(lots: seq<Lot>, id: LotId, n: int)
    requires DistinctIds(lots) && Left(lots, id) + n <= Arrived(lots, id)
    ensures AddBack(lots, id, n) == AddFreely(lots, id, n)
  {
    if lots != [] {
      if lots[0].id == id {
        assert forall l :: l in lots[1..] ==> l.id != id;
        AbsentLot(lots[1..], id);
      } else {
        RoomNeedsNoClamp(lots[1..], id, n);
      }
    }
  }

  lemma RefillUnclamped(lots: seq<Lot>, uses: seq<Use>, order: OrderId, left: int)
    requires Sound(lots, uses) && uses != [] && left > 0
    ensures var u := uses[|uses| - 1];
            var back := NewestBack(uses, order, left);
            Refill(lots, u.lotId, back) == if back == 0 then lots else AddFreely(lots, u.lotId, back)
  {
    var u := uses[|uses| - 1];
    assert UseOk(u);
    var back := NewestBack(uses, order, left);
    if back > 0 {
      BackFromNewest(lots, uses, back);
      RoomNeedsNoClamp(lots, u.lotId, back);
    }
  }

  predicate WithinArrival(lots: seq<Lot>) {
    forall l :: l in lots ==> l.qtyLeft <= l.qtyIn
  }

  lemma {:induction false} AddWithinArrival(lots: seq<Lot>, id: LotId, n: int)
    requires WithinArrival(lots)
    ensures WithinArrival(AddBack(lots, id, n))
  {
    if lots != [] && lots[0].id != id {
      AddWithinArrival(lots[1..], id, n);
    }
  }

  /** Whatever the consumptions claim, a return never fills a batch above what arrived with it. */
  lemma {:induction false} ReturnWithinArrival(lots: seq<Lot>, uses: seq<Use>, order: OrderId, left: int)
    requires WithinArrival(lots)
    ensures WithinArrival(GiveBack(lots, uses, order, left).0)
    decreases |uses|
  {
    if uses != [] && left > 0 {
      var n := |uses| - 1;
      var back := NewestBack(uses, order, left);
      AddWithinArrival(lots, uses[n].lotId, back);
      ReturnWithinArrival(Refill(lots, uses[n].lotId, back), uses[..n], order, left - back);
      GiveBackStep(lots, uses, order, left);
    }
  }

  /** On a sound table the clamp of a return never changes a value. */
  lemma {:induction false} ReturnNeverClamped(lots: seq<Lot>, uses: seq<Use>, order: OrderId, left: int)
    requires Sound(lots, uses)
    ensures GiveBack(lots, uses, order, left) == GiveBackFreely(lots, uses, order, left)
    decreases |uses|
  {
    hide Sound;
    if uses != [] && left > 0 {
      var n := |uses| - 1;
      var back := NewestBack(uses, order, left);
      var filled := Refill(lots, uses[n].lotId, back);
      RefillUnclamped(lots, uses, order, left);
      RefillSound(lots, uses, order, left);
      ReturnNeverClamped(filled, uses[..n], order, left - back);
      GiveBackStep(lots, uses, order, left);
    }
  }

  lemma {:induction false} OutstandingNonNegative(uses: seq<Use>, order: OrderId)
    requires UsesOk(uses)
    ensures 0 <= Outstanding(uses, order)
  {
    if uses != [] {
      OutstandingNonNegative(uses[..|uses| - 1], order);
      assert UseOk(uses[|uses| - 1]);
    }
  }

  lemma SameBatchesChain(a: seq<Lot>, b: seq<Lot>, c: seq<Lot>)
    requires SameBatches(a, b) && SameBatches(b, c)
    ensures SameBatches(a, c)
  {
    forall i | 0 <= i < |a|
      ensures SameBatch(a[i], c[i])
    {
      assert SameBatch(a[i], b[i]) && SameBatch(b[i], c[i]);
    }
  }

  /** Returning everything an order has out leaves nothing out with it. */
  lemma {:induction false} NothingOutstanding(uses: seq<Use>, order: OrderId, id: LotId)
    requires (forall u :: u in uses ==> UseOk(u)) && Outstanding(uses, order) <= 0
    ensures OutWith(uses, order, id) == 0
  {
    OutNonNegative(uses, order, id);
  }

  /** Batches that agree on everything but stock, and on the stock of every id, are equal. */
  lemma {:induction false} SameLeftSameLots(a: seq<Lot>, b: seq<Lot>)
    requires SameBatches(a, b) && DistinctIds(a)
    requires forall id: LotId :: Left(a, id) == Left(b, id)
    ensures a == b
  {
    if a != [] {
      var id := a[0].id;
      assert SameBatch(a[0], b[0]);
      SameBatchesDistinct(a, b);
      AbsentLot(a[1..], id);
      AbsentLot(b[1..], id);
      assert Left(a, id) == Left(b, id);
      forall other: LotId
        ensures Left(a[1..], other) == Left(b[1..], other)
      {
        assert Left(a, other) == Left(b, other);
      }
      SameLeftSameLots(a[1..], b[1..]);
      assert a == [a[0]] + a[1..] && b == [b[0]] + b[1..];
    }
  }

  // ─── arrivals ───

  lemma {:induction false} ArriveAccounts(lots: seq<Lot>, lot: Lot, id: LotId)
    ensures Total(Arrive(lots, lot)) == Total(lots) + lot.qtyLeft
    ensures Left(Arrive(lots, lot), id) == Left(lots, id) + if lot.id == id then lot.qtyLeft else 0
    ensures Arrived(Arrive(lots, lot), id) == Arrived(lots, id) + if lot.id == id then lot.qtyIn else 0
  {
    if lots != [] && Earlier(lots[0], lot) {
      ArriveAccounts(lots[1..], lot, id);
    }
  }

  lemma {:induction false} ArriveDistinct(lots: seq<Lot>, lot: Lot)
    requires DistinctIds(lots) && forall l :: l in lots ==> l.id != lot.id
    ensures DistinctIds(Arrive(lots, lot))
  {
    if lots != [] && Earlier(lots[0], lot) {
      ArriveDistinct(lots[1..], lot);
      var rest := Arrive(lots[1..], lot);
      forall j | 0 <= j < |rest|
        ensures rest[j].id != lots[0].id
      {
        assert rest[j] in rest;
      }
    }
  }

  lemma {:induction false} ArriveInOrder(lots: seq<Lot>, lot: Lot)
    requires InSellingOrder(lots) && forall l :: l in lots ==> l.id != lot.id
    ensures InSellingOrder(Arrive(lots, lot))
  {
    if lots != [] && Earlier(lots[0], lot) {
      ArriveInOrder(lots[1..], lot);
      var rest := Arrive(lots[1..], lot);
      forall j | 0 <= j < |rest|
        ensures Earlier(lots[0], rest[j])
      {
        assert rest[j] in rest;
      }
    } else if lots != [] {
      assert lots[0] in lots;
    }
  }

  /** A fresh batch keeps the table sound. */
  lemma ArriveKeepsSound(lots: seq<Lot>, uses: seq<Use>, lot: Lot)
    requires Sound(lots, uses) && 0 <= lot.qtyLeft <= lot.qtyIn
    requires forall l :: l in lots ==> l.id != lot.id
    ensures Sound(Arrive(lots, lot), uses)
  {
    ArriveDistinct(lots, lot);
    forall id: LotId
      ensures Accounted(Arrive(lots, lot), uses, id)
    {
      assert Accounted(lots, uses, id);
      ArriveAccounts(lots, lot, id);
    }
  }
}
