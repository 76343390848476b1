/** What each call of the inventory answers, and what it leaves alone. */
module Answers {
  import opened Prelude
  import opened Batches
  import opened BatchLaws
  import opened FifoQueue
  import opened Shelf
  import opened ShelfLaws
  import opened Returns
  import opened CostLaws
  import opened Lines
  import opened Calls
  import Money

  // ─── one product ───

  /** What a reservation answers. */
  lemma ReserveAnswers(s: Stock, qty: int, order: Option<OrderId>)
    requires RowAllowed(s)
    ensures var r, free := Step(s, DoReserve(qty, order)), s.onHand - s.reserved;
            if qty <= 0 then r == Err(QtyInvalid)
            else if s.deleted then r == Err(Insufficient)
            else if s.backorder || qty <= free then r.Ok?
            else r == Err(if s.tracked then Insufficient else CheckViolation)
  {}

  /** What a sale answers: a product without backorder is refused at its guard, one with it by the database. */
  lemma SaleAnswers(s: Stock, qty: int, order: Option<OrderId>)
    requires RowAllowed(s)
    ensures var r := Step(s, DoFulfill(qty, order));
            if qty <= 0 then r == Err(QtyInvalid)
            else if qty <= s.onHand then r.Ok?
            else r == Err(if s.backorder then CheckViolation else FulfilFailed)
  {}

  /** A release and a return of a positive quantity always go through. */
  lemma GivingBackAnswers(s: Stock, qty: int, order: Option<OrderId>, now: int)
    requires RowAllowed(s)
    ensures var freed, back := Step(s, DoRelease(qty, order)), Step(s, DoRestock(qty, order, now));
            if qty <= 0 then freed == back == Err(QtyInvalid) else freed.Ok? && back.Ok?
  {}

  /** What a delivery answers. */
  lemma DeliveryAnswers(s: Stock, qty: int, unitCost: Option<real>, received: int, now: int)
    requires RowAllowed(s)
    ensures var r := Step(s, DoAddBatch(qty, unitCost, received, now));
            if qty <= 0 then r == Err(QtyInvalid)
            else if unitCost.Some? && unitCost.value <= -0.5 then r == Err(CheckViolation)
            else r.Ok?
  {}

  /** What a count answers: it may not go below zero, nor below what is reserved unless it changes nothing. */
  lemma CountAnswers(s: Stock, onHand: int, kind: MoveKind, now: int)
    requires RowAllowed(s)
    ensures var r := Step(s, DoSetOnHand(onHand, kind, now));
            if onHand < 0 then r == Err(NegativeStock)
            else if onHand == s.onHand then r == Ok(s)
            else if onHand < s.reserved then r == Err(BelowReserved)
            else r.Ok? && r.value.onHand == onHand
  {
    if 0 <= onHand < s.onHand && s.reserved <= onHand {
      CountDownIsConsume(s, onHand, kind, now, s.onHand - onHand);
    }
  }

  /** A reservation or release touches the reserved counter and the ledger, nothing else. */
  lemma HoldsTouchOnlyReserved(s: Stock, e: Event)
    requires (e.DoReserve? || e.DoRelease?) && Step(s, e).Ok?
    ensures Next(s, e) == s.(reserved := Next(s, e).reserved, moves := Next(s, e).moves)
    ensures Next(s, e).reserved == if e.DoReserve? then s.reserved + e.qty else Max(0, s.reserved - e.qty)
  {}

  /** Only a sale to an order stamps a cost, and only on that order. */
  lemma OnlyItsSaleStamps(s: Stock, e: Event, order: OrderId)
    requires !(e.DoFulfill? && e.order == Some(order))
    ensures order in Next(s, e).stamped <==> order in s.stamped
    ensures order in s.stamped ==> Next(s, e).stamped[order] == s.stamped[order]
  {
    hide TakeFrom, GiveBack, UsesOf, RowAllowed, CurrentCost, AllCosted, HalfUp, Arrive;
  }

  /** A sale that takes a copy of unknown cost stamps nothing. */
  lemma UnknownCostStampsNothing(s: Stock, qty: int, order: OrderId)
    requires 0 < qty && Fulfill(s, qty, Some(order)).Ok? && TakeFrom(s.lots, qty).2 <= 0
    requires exists i :: 0 <= i < |TakeFrom(s.lots, qty).1| && TakeFrom(s.lots, qty).1[i].unitCost == None
    ensures Fulfill(s, qty, Some(order)).value.stamped == s.stamped
  {}

  // ─── batches and consumptions ───

  lemma {:induction false} TakesKnowTheirBatch(lots: seq<Lot>, need: int, t: Take)
    requires t in TakeFrom(lots, need).1
    ensures exists l :: l in lots && t.lot == Some(l.id) && t.unitCost == l.unitCost && 0 < t.qty <= l.qtyLeft
  {
    if lots != [] && need > 0 {
      TakeStep(lots, need);
      var take := OldestTake(lots, need);
      var rest := TakeFrom(lots[1..], need - take).1;
      if t in rest {
        TakesKnowTheirBatch(lots[1..], need - take, t);
        var l :| l in lots[1..] && t.lot == Some(l.id) && t.unitCost == l.unitCost && 0 < t.qty <= l.qtyLeft;
        assert l in lots;
      } else {
        assert t == Take(Some(lots[0].id), take, lots[0].unitCost);
        assert lots[0] in lots;
      }
    }
  }

  lemma {:induction false} RowsAreTakes(takes: seq<Take>, order: OrderId, u: Use)
    requires u in UsesOf(takes, order)
    ensures u.order == order && u.returned == 0
    ensures exists t :: t in takes && t.lot == Some(u.lotId) && t.unitCost == u.unitCost && t.qty == u.qty
  {
    if takes != [] {
      if u in UsesOf(takes[1..], order) {
        RowsAreTakes(takes[1..], order, u);
        var t :| t in takes[1..] && t.lot == Some(u.lotId) && t.unitCost == u.unitCost && t.qty == u.qty;
        assert t in takes;
      } else {
        assert takes[0] in takes;
      }
    }
  }

  /** Each consumption a sale adds is of its order, all out, and carries the cost of the batch it names. */
  lemma ConsumptionsCarryTheirCost(s: Stock, qty: int, order: OrderId, u: Use)
    requires Fulfill(s, qty, Some(order)).Ok?
    requires u in Fulfill(s, qty, Some(order)).value.uses && u !in s.uses
    ensures u.order == order && u.returned == 0
    ensures exists l :: l in s.lots && l.id == u.lotId && l.unitCost == u.unitCost && 0 < u.qty <= l.qtyLeft
  {
    FulfillTables(s, qty, Some(order));
    var takes := TakeFrom(s.lots, qty).1;
    assert u in UsesOf(takes, order);
    RowsAreTakes(takes, order, u);
    var t :| t in takes && t.lot == Some(u.lotId) && t.unitCost == u.unitCost && t.qty == u.qty;
    TakesKnowTheirBatch(s.lots, qty, t);
  }

  /** A return touches a consumption only once every newer one of the order has come back whole. */
  lemma {:induction false} NewestComesBackFirst(lots: seq<Lot>, uses: seq<Use>, order: OrderId, left: int,
                                                  i: nat, j: nat)
    requires UsesOk(uses) && i < j < |uses| && uses[j].order == order
    requires GiveBack(lots, uses, order, left).1[i].returned != uses[i].returned
    ensures GiveBack(lots, uses, order, left).1[j].returned == uses[j].qty
    decreases |uses|
  {
    if uses != [] && left > 0 {
      var n := |uses| - 1;
      var back := NewestBack(uses, order, left);
      var filled := Refill(lots, uses[n].lotId, back);
      GiveBackStep(lots, uses, order, left);
      assert UseOk(uses[n]);
      hide GiveBack, Refill;
      NothingMoreBack(filled, uses[..n], order, left - back);
      if j < n {
        NewestComesBackFirst(filled, uses[..n], order, left - back, i, j);
      }
    }
  }

  lemma NothingMoreBack(lots: seq<Lot>, uses: seq<Use>, order: OrderId, left: int)
    ensures left <= 0 ==> GiveBack(lots, uses, order, left).1 == uses
  {}

  /** How many of some copies have a known cost. */
  function Costed(copies: seq<Copy>): nat {
    if copies == [] then 0 else (if copies[0].unitCost.Some? then 1 else 0) + Costed(copies[1..])
  }

  lemma {:induction false} CountedAppend(a: seq<Copy>, b: seq<Copy>)
    ensures Costed(a + b) == Costed(a) + Costed(b)
  {
    if a == [] {
      assert a + b == b;
    } else {
      CountedAppend(a[1..], b);
      assert (a + b)[1..] == a[1..] + b;
    }
  }

  lemma {:induction false} CostedCopies(n: int, c: Copy)
    ensures Costed(Copies(n, c)) == if c.unitCost.Some? then Max(n, 0) else 0
    decreases Max(n, 0)
  {
    if n > 0 {
      CostedCopies(n - 1, c);
    }
  }

  /** The sums behind the cost price are over single copies: how many on the shelf have a cost, and what they cost. */
  lemma {:induction false} CostSumsAreOverCopies(lots: seq<Lot>)
    requires NonNegative(lots)
    ensures CostedQty(lots) == Costed(Queue(lots)) && CostedValue(lots) == Value(Queue(lots))
  {
    if lots != [] {
      var l := lots[0];
      var c := Copy(l.id, l.unitCost);
      assert l in lots;
      CostSumsAreOverCopies(lots[1..]);
      CostedCopies(l.qtyLeft, c);
      CopiesValue(l.qtyLeft, c);
      CountedAppend(Copies(l.qtyLeft, c), Queue(lots[1..]));
      ValueAppend(Copies(l.qtyLeft, c), Queue(lots[1..]));
    }
  }

  // ─── several products ───

  /** What a line on its own answers when its product does not exist. */
  lemma MissingProductAnswers(db: Db, op: LineOp, l: Line, order: Option<OrderId>)
    requires l.product !in db
    ensures ApplyLine(db, op, l, order) ==
            if op.Reserving? then Err(NotFound) else if op.Fulfilling? then Err(FulfilFailed) else Ok(db)
  {}

  lemma {:induction false} PositiveLinesAnswer(db: Db, op: LineOp, lines: seq<Line>, order: Option<OrderId>)
    requires AllPositive(lines)
    ensures ApplyLines(db, op, lines, order) != Err(QtyInvalid)
    decreases |lines|
  {
    if lines != [] {
      var r := ApplyLine(db, op, lines[0], order);
      if r.Ok? {
        PositiveLinesAnswer(r.value, op, lines[1..], order);
      }
    }
  }

  /** A call is refused for its quantities, before any line is tried, exactly when one of them is not positive. */
  lemma InvalidQuantityAnswers(db: Db, op: LineOp, lines: seq<Line>, order: Option<OrderId>)
    ensures CallLines(db, op, lines, order) == Err(QtyInvalid) <==> exists i :: 0 <= i < |lines| && lines[i].qty <= 0
  {
    if AllPositive(lines) {
      MergeIsMerge(lines);
      PositiveLinesAnswer(db, op, Merge(lines), order);
    }
  }

  /** A delivery for a product: its refusals, and that no other product is touched. */
  lemma DeliverAnswers(db: Db, p: ProductId, qty: int, unitCost: Option<real>, received: int, now: int)
    ensures var r := CallStep(db, Deliver(p, qty, unitCost, received, now));
            if qty <= 0 then r == Err(QtyInvalid)
            else if p !in db then r == Err(NotFound)
            else r.Ok? ==> r.value == db[p := Next(db[p], DoAddBatch(qty, unitCost, received, now))]
  {
    hide RefreshCost, NewLot, Log, RowAllowed;
  }

  /** A count of a product, likewise. */
  lemma CountCallAnswers(db: Db, p: ProductId, onHand: int, kind: MoveKind, now: int)
    ensures var r := CallStep(db, Count(p, onHand, kind, now));
            if onHand < 0 then r == Err(NegativeStock)
            else if p !in db then r == Err(NotFound)
            else r.Ok? ==> r.value == db[p := Next(db[p], DoSetOnHand(onHand, kind, now))]
  {
    hide SetOnHand;
  }

  lemma FirstStands(db: Db, op: LineOp, lines: seq<Line>, order: Option<OrderId>)
    requires lines != [] && Stands(db, op, lines[0], order)
    ensures ApplyLines(db, op, lines, order)
         == ApplyLines(ApplyLine(db, op, lines[0], order).value, op, lines[1..], order)
  {
    hide ApplyLine;
  }

  lemma FirstFails(db: Db, op: LineOp, lines: seq<Line>, order: Option<OrderId>)
    requires lines != [] && !Stands(db, op, lines[0], order)
    ensures ApplyLines(db, op, lines, order) == Err(ApplyLine(db, op, lines[0], order).error)
  {
    hide ApplyLine;
  }

  /** The first lines all stand, and line `k` does not. */
  predicate FailsFirst(db: Db, op: LineOp, lines: seq<Line>, order: Option<OrderId>, k: nat) {
    && Increasing(lines) && k < |lines| && !Stands(db, op, lines[k], order)
    && forall i :: 0 <= i < k ==> Stands(db, op, lines[i], order)
  }

  lemma RestFailsFirst(db: Db, op: LineOp, lines: seq<Line>, order: Option<OrderId>, k: nat)
    requires FailsFirst(db, op, lines, order, k) && 0 < k && Stands(db, op, lines[0], order)
    ensures var mid := ApplyLine(db, op, lines[0], order).value;
            && FailsFirst(mid, op, lines[1..], order, k - 1)
            && ApplyLine(mid, op, lines[k], order) == ApplyLine(db, op, lines[k], order)
  {
    hide ApplyLine;
    RestUnmoved(db, op, lines, order);
    SameAnswer(db, op, lines[0], lines[k], order);
    hide Stands;
    assert lines[1..][k - 1] == lines[k];
  }

  /** A call fails with the answer of the first of its merged lines that fails. */
  lemma {:induction false} FirstFailureAnswers(db: Db, op: LineOp, lines: seq<Line>, order: Option<OrderId>, k: nat)
    requires FailsFirst(db, op, lines, order, k)
    ensures ApplyLines(db, op, lines, order) == Err(ApplyLine(db, op, lines[k], order).error)
    decreases |lines|
  {
    hide ApplyLine;
    if k == 0 {
      FirstFails(db, op, lines, order);
    } else {
      RestFailsFirst(db, op, lines, order, k);
      FirstStands(db, op, lines, order);
      FirstFailureAnswers(ApplyLine(db, op, lines[0], order).value, op, lines[1..], order, k - 1);
    }
  }

  lemma SameAnswer(db: Db, op: LineOp, l: Line, m: Line, order: Option<OrderId>)
    requires Stands(db, op, l, order) && !Stands(db, op, m, order) && l.product != m.product
    ensures var mid := ApplyLine(db, op, l, order).value;
            !Stands(mid, op, m, order) && ApplyLine(mid, op, m, order) == ApplyLine(db, op, m, order)
  {
    hide Step;
  }

  /** Releases and returns of positive quantities go through whatever their products, missing ones included. */
  lemma GivingBackLinesStand(db: Db, lines: seq<Line>, order: Option<OrderId>, now: int)
    requires AllPositive(lines) && forall p :: p in db ==> RowAllowed(db[p])
    ensures CallLines(db, Releasing, lines, order).Ok? && CallLines(db, Restocking(now), lines, order).Ok?
  {
    CallStandsIff(db, Releasing, lines, order);
    CallStandsIff(db, Restocking(now), lines, order);
    forall i | 0 <= i < |lines|
      ensures Stands(db, Releasing, Whole(lines, lines[i].product), order)
      ensures Stands(db, Restocking(now), Whole(lines, lines[i].product), order)
    {
      QtyOfPresent(lines, lines[i].product);
      if lines[i].product in db {
        GivingBackAnswers(db[lines[i].product], QtyOf(lines, lines[i].product), order, now);
      }
    }
  }
}
