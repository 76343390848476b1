/**
 * The return round trip: what an order took goes back into the batches it came
 * from, whatever other orders did in between.
 */
module Returns {
  import opened Prelude
  import opened Batches
  import opened BatchLaws
  import opened Shelf
  import opened ShelfLaws

  /** The call neither sells to this order nor takes anything back from it. */
  predicate SparesOrder(e: Event, order: OrderId) {
    e.DoFulfill? || e.DoRestock? ==> e.order != Some(order)
  }

  predicate AllSpareOrder(events: seq<Event>, order: OrderId) {
    forall i :: 0 <= i < |events| ==> SparesOrder(events[i], order)
  }

  /** The copies of one batch that went out with the order, and all it still has out. */
  ghost predicate SameOut(a: seq<Use>, b: seq<Use>, order: OrderId) {
    && Outstanding(a, order) == Outstanding(b, order)
    && forall id: LotId :: OutWith(a, order, id) == OutWith(b, order, id)
  }

  // ─── other orders leave an order's copies alone ───

  lemma OtherUsesAppended(uses: seq<Use>, takes: seq<Take>, other: OrderId, order: OrderId)
    requires other != order && forall t :: t in takes ==> t.lot.Some? && 0 < t.qty
    ensures SameOut(uses + UsesOf(takes, other), uses, order)
  {
    var added := UsesOf(takes, other);
    forall id: LotId
      ensures OutWith(uses + added, order, id) == OutWith(uses, order, id)
      ensures Outstanding(uses + added, order) == Outstanding(uses, order)
    {
      UsesRecordTakes(takes, other, id);
      OutAppend(uses, added, order, id);
      NoneOut(added, order, id);
    }
    assert OutWith(uses + added, order, 0) == OutWith(uses, order, 0);
  }

  lemma {:induction false} NoneOut(uses: seq<Use>, order: OrderId, id: LotId)
    requires forall u :: u in uses ==> u.order != order
    ensures OutWith(uses, order, id) == 0 && Outstanding(uses, order) == 0
  {
    if uses != [] {
      NoneOut(uses[..|uses| - 1], order, id);
      assert uses[|uses| - 1] in uses;
    }
  }

  lemma ConsumeSparesOrder(s: Stock, qty: int, who: Option<OrderId>, order: OrderId)
    requires who != Some(order)
    ensures SameOut(Consume(s, qty, who).0.uses, s.uses, order)
  {
    if who.Some? {
      OtherUsesAppended(s.uses, TakeFrom(s.lots, qty).1, who.value, order);
    }
  }

  lemma UnconsumeSparesOrder(s: Stock, qty: int, who: Option<OrderId>, now: int, order: OrderId)
    requires who != Some(order)
    ensures SameOut(Unconsume(s, qty, who, now).uses, s.uses, order)
  {
    if who.Some? {
      forall id: LotId
        ensures OutWith(GiveBack(s.lots, s.uses, who.value, qty).1, order, id) == OutWith(s.uses, order, id)
      {
        GiveBackOtherOrders(s.lots, s.uses, who.value, qty, order, id);
      }
      GiveBackOtherOrders(s.lots, s.uses, who.value, qty, order, 0);
    }
  }

  lemma StepSparesOrder(s: Stock, e: Event, order: OrderId)
    requires SparesOrder(e, order)
    ensures SameOut(Next(s, e).uses, s.uses, order)
  {
    if Step(s, e).Ok? {
      UsesAfter(s, e);
      if e.DoFulfill? {
        ConsumeSparesOrder(s, e.qty, e.order, order);
      } else if e.DoRestock? {
        UnconsumeSparesOrder(s, e.qty, e.order, e.now, order);
      }
    }
  }

  /** Only sales to an order and returns touch the consumption rows. */
  lemma UsesAfter(s: Stock, e: Event)
    requires Step(s, e).Ok?
    ensures Next(s, e).uses ==
            if e.DoFulfill? then Consume(s, e.qty, e.order).0.uses
            else if e.DoRestock? then Unconsume(s, e.qty, e.order, e.now).uses
            else s.uses
  {
    match e
    case DoReserve(_, _) =>
    case DoRelease(_, _) =>
    case DoFulfill(qty, order) => FulfillTables(s, qty, order);
    case DoRestock(qty, order, now) =>
    case DoAddBatch(_, _, _, _) =>
    case DoSetOnHand(onHand, kind, now) => CountKeepsUses(s, onHand, kind, now);
  }

  lemma CountKeepsUses(s: Stock, onHand: int, kind: MoveKind, now: int)
    requires SetOnHand(s, onHand, kind, now).Ok?
    ensures SetOnHand(s, onHand, kind, now).value.uses == s.uses
  {}

  lemma {:induction false} RunSparesOrder(s: Stock, events: seq<Event>, order: OrderId)
    requires AllSpareOrder(events, order)
    ensures SameOut(Run(s, events).uses, s.uses, order)
    decreases |events|
  {
    if events != [] {
      assert SparesOrder(events[0], order);
      StepSparesOrder(s, events[0], order);
      RunSparesOrder(Next(s, events[0]), events[1..], order);
    }
  }

  // ─── the sale and the return ───

  /** A sale without shortfall records, batch by batch, exactly what each batch lost. */
  lemma SaleRecords(s: Stock, qty: int, order: OrderId, id: LotId)
    requires Valid(s) && 0 < qty <= Total(s.lots) && Fulfill(s, qty, Some(order)).Ok?
    requires Outstanding(s.uses, order) == 0
    ensures var sold := Fulfill(s, qty, Some(order)).value;
            && OutWith(sold.uses, order, id) == Left(s.lots, id) - Left(sold.lots, id)
            && Outstanding(sold.uses, order) == qty
  {
    var sold := Fulfill(s, qty, Some(order)).value;
    var takes := TakeFrom(s.lots, qty).1;
    TakeAccounts(s.lots, qty);
    TakeAccountsPerBatch(s.lots, qty, id);
    UsesRecordTakes(takes, order, id);
    OutAppend(s.uses, UsesOf(takes, order), order, id);
    NothingOutstanding(s.uses, order, id);
    assert sold.uses == s.uses + UsesOf(takes, order);
  }

  /** A return of exactly what an order has out needs no new batch. */
  lemma FullReturn(s: Stock, qty: int, order: OrderId, now: int)
    requires Valid(s) && 0 < qty && Outstanding(s.uses, order) == qty
    ensures Restock(s, qty, Some(order), now).Ok?
    ensures var back := Restock(s, qty, Some(order), now).value;
            && SameBatches(s.lots, back.lots)
            && Outstanding(back.uses, order) == 0
            && forall id: LotId :: Left(back.lots, id) == Left(s.lots, id) + OutWith(s.uses, order, id)
  {
    GiveBackTotals(s.lots, s.uses, order, qty);
    GiveBackKeepsBatches(s.lots, s.uses, order, qty);
    GiveBackOutstanding(s.lots, s.uses, order, qty);
    GiveBackKeepsUses(s.lots, s.uses, order, qty);
    var (lots, uses, left) := GiveBack(s.lots, s.uses, order, qty);
    RestockTables(s, qty, order, now);
    forall id: LotId
      ensures Left(lots, id) == Left(s.lots, id) + OutWith(s.uses, order, id)
    {
      GiveBackPerBatch(s.lots, s.uses, order, qty, id);
      NothingOutstanding(uses, order, id);
    }
  }

  lemma RestockTables(s: Stock, qty: int, order: OrderId, now: int)
    requires RowAllowed(s) && 0 < qty
    requires GiveBack(s.lots, s.uses, order, qty).2 <= 0
    ensures Restock(s, qty, Some(order), now).Ok?
    ensures var back := Restock(s, qty, Some(order), now).value;
            && back.lots == GiveBack(s.lots, s.uses, order, qty).0
            && back.uses == GiveBack(s.lots, s.uses, order, qty).1
            && back.cost == CurrentCost(back.lots, s.cost)
            && back.onHand == s.onHand + qty
            && back.sold == Max(s.sold - qty, 0)
  {}

  /** `back` is `later` with, in every batch, exactly the copies that are in `before` and not in `sold`. */
  ghost predicate GivesBackTheSale(before: seq<Lot>, sold: seq<Lot>, later: seq<Lot>, back: seq<Lot>) {
    && SameBatches(later, back)
    && forall id: LotId :: Left(back, id) - Left(later, id) == Left(before, id) - Left(sold, id)
  }

  /**
   * The round trip: an order's only sale of a product, covered by batches;
   * then any calls for other orders, counts and deliveries; then a return of
   * the same quantity.  The return gives every batch exactly the copies this
   * sale took from it, and opens no other batch.
   */
  lemma ReturnRestoresBatches(s: Stock, qty: int, order: OrderId, between: seq<Event>, now: int)
    requires Valid(s) && 0 < qty <= Total(s.lots) && Outstanding(s.uses, order) == 0
    requires Fulfill(s, qty, Some(order)).Ok? && AllSpareOrder(between, order)
    ensures var sold := Fulfill(s, qty, Some(order)).value;
            var later := Run(sold, between);
            var r := Restock(later, qty, Some(order), now);
            && r.Ok?
            && GivesBackTheSale(s.lots, sold.lots, later.lots, r.value.lots)
            && Outstanding(r.value.uses, order) == 0
  {
    var sold := Fulfill(s, qty, Some(order)).value;
    var later := Run(sold, between);
    FulfillEffect(s, qty, Some(order));
    RunKeepsValid(sold, between);
    RunSparesOrder(sold, between, order);
    SaleRecords(s, qty, order, 0);
    FullReturn(later, qty, order, now);
    forall id: LotId
      ensures Left(Restock(later, qty, Some(order), now).value.lots, id) - Left(later.lots, id)
           == Left(s.lots, id) - Left(sold.lots, id)
    {
      SaleRecords(s, qty, order, id);
      assert OutWith(later.uses, order, id) == OutWith(sold.uses, order, id);
    }
  }

  // ─── a return in parts ───

  lemma {:induction false} AddBackTwice(lots: seq<Lot>, id: LotId, a: int, b: int)
    requires 0 <= a && 0 <= b
    ensures AddBack(AddBack(lots, id, a), id, b) == AddBack(lots, id, a + b)
  {
    if lots != [] && lots[0].id != id {
      AddBackTwice(lots[1..], id, a, b);
    }
  }

  /** What returning `a` and then `b` copies leaves, against returning `a + b`: tables and leftovers. */
  ghost predicate ReturnsTwice(lots: seq<Lot>, uses: seq<Use>, order: OrderId, a: int, b: int) {
    var (mid, marked, over) := GiveBack(lots, uses, order, a);
    var (after, twice, left) := GiveBack(mid, marked, order, b);
    GiveBack(lots, uses, order, a + b) == (after, twice, over + left)
  }

  /** A return that ends inside the newest consumption. */
  lemma PartOfNewest(lots: seq<Lot>, uses: seq<Use>, order: OrderId, a: int)
    requires uses != [] && 0 < a
    requires var u := uses[|uses| - 1]; u.order == order && a <= u.qty - u.returned
    ensures var n := |uses| - 1;
            var u := uses[n];
            GiveBack(lots, uses, order, a)
            == (AddBack(lots, u.lotId, a), uses[..n] + [u.(returned := u.returned + a)], 0)
  {}

  lemma BackFromNewestTwice(uses: seq<Use>, marked: seq<Use>, order: OrderId, a: int, b: int)
    requires uses != [] && marked != [] && 0 < a && 0 < b
    requires var u := uses[|uses| - 1];
             && u.order == order && a <= u.qty - u.returned
             && marked[|marked| - 1] == u.(returned := u.returned + a)
    ensures NewestBack(uses, order, a + b) == a + NewestBack(marked, order, b) && 0 <= NewestBack(marked, order, b)
  {}

  /** Refilling twice from the newest consumption is refilling once. */
  lemma RefillTwice(lots: seq<Lot>, id: LotId, a: int, more: int)
    requires 0 < a && 0 <= more
    ensures Refill(AddBack(lots, id, a), id, more) == Refill(lots, id, a + more)
  {
    AddBackTwice(lots, id, a, more);
  }

  /** The first part ends inside the newest consumption: the second part goes on there. */
  lemma TwiceWithinNewest(lots: seq<Lot>, uses: seq<Use>, order: OrderId, a: int, b: int)
    requires uses != [] && 0 < a && 0 < b
    requires var u := uses[|uses| - 1]; u.order == order && a <= u.qty - u.returned
    ensures ReturnsTwice(lots, uses, order, a, b)
  {
    var n := |uses| - 1;
    var u := uses[n];
    var mid, marked := AddBack(lots, u.lotId, a), uses[..n] + [u.(returned := u.returned + a)];
    assert marked[..n] == uses[..n] && marked[n] == u.(returned := u.returned + a);
    PartOfNewest(lots, uses, order, a);
    BackFromNewestTwice(uses, marked, order, a, b);
    hide GiveBack, NewestBack, Refill, AddBack;
    var more := NewestBack(marked, order, b);
    var (after, older, left) := GiveBack(Refill(mid, u.lotId, more), uses[..n], order, b - more);
    var u' := u.(returned := u.returned + a + more);
    assert GiveBack(mid, marked, order, b) == (after, older + [u'], left) by {
      GiveBackStep(mid, marked, order, b);
    }
    assert GiveBack(lots, uses, order, a + b) == (after, older + [u'], left) by {
      GiveBackStep(lots, uses, order, a + b);
      RefillTwice(lots, u.lotId, a, more);
      assert a + b - (a + more) == b - more;
    }
  }

  /** A consumption with nothing left for the order is passed over. */
  lemma ExhaustedLast(lots: seq<Lot>, older: seq<Use>, u: Use, order: OrderId, left: int)
    requires 0 < left && (u.order == order ==> u.qty <= u.returned)
    ensures var (lots', older', over) := GiveBack(lots, older, order, left);
            GiveBack(lots, older + [u], order, left) == (lots', older' + [u], over)
  {
    var uses := older + [u];
    assert uses[..|uses| - 1] == older && uses[|uses| - 1] == u;
  }

  /** The first part goes past the newest consumption, which has nothing left for the second. */
  lemma TwiceBeyondNewest(lots: seq<Lot>, uses: seq<Use>, order: OrderId, a: int, b: int, back: int)
    requires uses != [] && 0 < a && 0 < b && 0 <= back
    requires var u := uses[|uses| - 1];
             && back == NewestBack(uses, order, a) == NewestBack(uses, order, a + b)
             && (u.order == order ==> back == u.qty - u.returned)
    requires ReturnsTwice(Refill(lots, uses[|uses| - 1].lotId, back), uses[..|uses| - 1], order, a - back, b)
    ensures ReturnsTwice(lots, uses, order, a, b)
  {
    var n := |uses| - 1;
    var u := uses[n];
    var filled := Refill(lots, u.lotId, back);
    var u' := u.(returned := u.returned + back);
    var (mid, marked, over) := GiveBack(filled, uses[..n], order, a - back);
    var (after, twice, left) := GiveBack(mid, marked, order, b);
    hide GiveBack, NewestBack, Refill;
    assert GiveBack(filled, uses[..n], order, a + b - back) == (after, twice, over + left) by {
      assert a - back + b == a + b - back;
    }
    assert GiveBack(lots, uses, order, a) == (mid, marked + [u'], over) by {
      GiveBackStep(lots, uses, order, a);
    }
    assert GiveBack(lots, uses, order, a + b) == (after, twice + [u'], over + left) by {
      GiveBackStep(lots, uses, order, a + b);
    }
    ExhaustedLast(mid, marked, u', order, b);
  }

  /** Returning an order's copies in two parts leaves the batches and the consumptions of returning them at once. */
  lemma {:induction false} ReturnTwiceSameTables(lots: seq<Lot>, uses: seq<Use>, order: OrderId, a: int, b: int)
    requires UsesOk(uses) && 0 <= a && 0 <= b
    ensures ReturnsTwice(lots, uses, order, a, b)
    decreases |uses|
  {
    if uses != [] && 0 < a && 0 < b {
      var n := |uses| - 1;
      var u := uses[n];
      assert UseOk(u);
      var back := NewestBack(uses, order, a);
      if u.order == order && a <= u.qty - u.returned {
        TwiceWithinNewest(lots, uses, order, a, b);
      } else {
        assert back == NewestBack(uses, order, a + b);
        ReturnTwiceSameTables(Refill(lots, u.lotId, back), uses[..n], order, a - back, b);
        TwiceBeyondNewest(lots, uses, order, a, b, back);
      }
    }
  }

  /**
   * A return in two parts, while the order has that much out, leaves the
   * batches, the consumptions and the counters of one return of the whole.
   */
  lemma ReturnInParts(s: Stock, a: int, b: int, order: OrderId, first: int, second: int, once: int)
    requires Valid(s) && 0 < a && 0 < b && a + b <= Outstanding(s.uses, order)
    ensures Restock(s, a, Some(order), first).Ok?
    ensures var mid := Restock(s, a, Some(order), first).value;
            var parts, whole := Restock(mid, b, Some(order), second), Restock(s, a + b, Some(order), once);
            && parts.Ok? && whole.Ok?
            && parts.value.lots == whole.value.lots && parts.value.uses == whole.value.uses
            && parts.value.onHand == whole.value.onHand && parts.value.reserved == whole.value.reserved
            && parts.value.sold == whole.value.sold && parts.value.nextLot == whole.value.nextLot
  {
    PartTables(s, a, order, first);
    PartTables(s, a + b, order, once);
    var mid := Restock(s, a, Some(order), first).value;
    GiveBackOutstanding(s.lots, s.uses, order, a);
    RestockEffect(s, a, Some(order), first);
    ReturnTwiceSameTables(s.lots, s.uses, order, a, b);
    PartTables(mid, b, order, second);
  }

  lemma PartTables(s: Stock, qty: int, order: OrderId, now: int)
    requires Valid(s) && 0 < qty <= Outstanding(s.uses, order)
    ensures Restock(s, qty, Some(order), now).Ok?
    ensures var back := Restock(s, qty, Some(order), now).value;
            && (back.lots, back.uses, 0) == GiveBack(s.lots, s.uses, order, qty)
            && back.onHand == s.onHand + qty && back.reserved == s.reserved
            && back.sold == Max(s.sold - qty, 0) && back.nextLot == s.nextLot
  {
    GiveBackOutstanding(s.lots, s.uses, order, qty);
  }

  // ─── an immediate return ───

  /** The cost price is the average of the costed copies on the shelf, when there are any. */
  ghost predicate CostCurrent(s: Stock) {
    s.cost == CurrentCost(s.lots, s.cost)
  }

  lemma {:induction false} SaleKeepsUncosted(lots: seq<Lot>, qty: int)
    requires CostedQty(lots) == 0
    ensures CostedQty(TakeFrom(lots, qty).0) == 0
  {
    if lots != [] && qty > 0 {
      TakeStep(lots, qty);
      SaleKeepsUncosted(lots[1..], qty - OldestTake(lots, qty));
    }
  }

  lemma FulfillTables(s: Stock, qty: int, order: Option<OrderId>)
    requires Fulfill(s, qty, order).Ok?
    ensures var sold := Fulfill(s, qty, order).value;
            && sold.lots == TakeFrom(s.lots, qty).0
            && sold.uses == Consume(s, qty, order).0.uses
            && sold.cost == CurrentCost(sold.lots, s.cost)
            && sold.onHand == s.onHand - qty && sold.sold == s.sold + qty
  {}

  /** The tables after a sale that batches cover and its immediate return, seen one state at a time. */
  lemma BatchesComeBack(s: Stock, sold: Stock, back: Stock, qty: int, order: OrderId, now: int)
    requires Valid(s) && 0 < qty <= Total(s.lots) && Outstanding(s.uses, order) == 0
    requires Fulfill(s, qty, Some(order)) == Ok(sold) && Restock(sold, qty, Some(order), now) == Ok(back)
    ensures back.lots == s.lots
  {
    ReturnRestoresBatches(s, qty, order, [], now);
    assert Run(sold, []) == sold;
    FulfillTables(s, qty, Some(order));
    TakeKeepsBatches(s.lots, qty);
    EqualBatches(s.lots, sold.lots, back.lots);
  }

  lemma EqualBatches(before: seq<Lot>, sold: seq<Lot>, back: seq<Lot>)
    requires SameBatches(before, sold) && DistinctIds(before) && GivesBackTheSale(before, sold, sold, back)
    ensures back == before
  {
    SameBatchesChain(before, sold, back);
    SameLeftSameLots(before, back);
  }

  lemma CountersComeBack(s: Stock, qty: int, order: OrderId, now: int)
    requires Valid(s) && 0 < qty && Fulfill(s, qty, Some(order)).Ok?
    ensures var sold := Fulfill(s, qty, Some(order)).value;
            && RowAllowed(sold)
            && Restock(sold, qty, Some(order), now).Ok?
            && Restock(sold, qty, Some(order), now).value.onHand == s.onHand
            && Restock(sold, qty, Some(order), now).value.sold == s.sold
  {
    hide Consume, Unconsume, BatchesOk;
  }

  /** A return leaves the cost price at the average of the shelf, or as it was. */
  lemma RestockCost(s: Stock, qty: int, order: Option<OrderId>, now: int)
    requires Restock(s, qty, order, now).Ok?
    ensures var back := Restock(s, qty, order, now).value; back.cost == CurrentCost(back.lots, s.cost)
  {}

  lemma CostComesBack(lots: seq<Lot>, qty: int, cost: Option<nat>)
    ensures var after := CurrentCost(TakeFrom(lots, qty).0, cost);
            CurrentCost(lots, after) == cost <==> cost == CurrentCost(lots, cost)
  {
    if CostedQty(lots) == 0 {
      SaleKeepsUncosted(lots, qty);
    }
  }

  /**
   * Sold and at once returned: batches, on-hand count and sold count are as
   * before, and so is the cost price if and only if it was the average of the
   * shelf before.
   */
  lemma ImmediateReturnUndoesSale(s: Stock, qty: int, order: OrderId, now: int)
    requires Valid(s) && 0 < qty <= Total(s.lots) && Outstanding(s.uses, order) == 0
    requires Fulfill(s, qty, Some(order)).Ok?
    ensures var sold := Fulfill(s, qty, Some(order)).value;
            var r := Restock(sold, qty, Some(order), now);
            && r.Ok?
            && r.value.lots == s.lots
            && r.value.onHand == s.onHand
            && r.value.sold == s.sold
            && (r.value.cost == s.cost <==> CostCurrent(s))
  {
    var sold := Fulfill(s, qty, Some(order)).value;
    CountersComeBack(s, qty, order, now);
    var back := Restock(sold, qty, Some(order), now).value;
    BatchesComeBack(s, sold, back, qty, order, now);
    FulfillTables(s, qty, Some(order));
    RestockCost(sold, qty, Some(order), now);
    CostComesBack(s.lots, qty, s.cost);
  }
}
