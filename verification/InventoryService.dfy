/**
 * The inventory service over its tables, updated row by row.
 *
 * Each public method is one call inside a transaction that is rolled back when
 * the call throws; its result is the thrown error, if any.  Every method is
 * proved against the functions of `Shelf` and `Calls`, about which the
 * properties are proved.
 */
module InventoryService {
  import opened Prelude
  import opened Batches
  import opened Lines
  import opened Shelf
  import opened Calls
  import Money

  /** Adds up lines per product and sorts the products. */
  method MergeLines(lines: seq<Line>) returns (r: Result<seq<Line>, Error>)
    ensures r == if AllPositive(lines) then Ok(Merge(lines)) else Err(QtyInvalid)
    ensures r.Ok? ==> IsMerge(lines, r.value)
  {
    var entries: seq<Line> := [];
    for i := 0 to |lines|
      invariant AllPositive(lines[..i])
      invariant entries == Entries(lines[..i])
    {
      if lines[i].qty <= 0 {
        return Err(QtyInvalid);
      }
      entries := AddEntry(entries, lines[i]);
      assert lines[..i + 1][..i] == lines[..i];
    }
    assert lines[..|lines|] == lines;
    MergeIsMerge(lines);
    return Ok(SortLines(entries));
  }

  const DEFAULT_LOW: int := 5

  /** A product that a sale left at or below its low-stock threshold. */
  datatype LowStockHit = LowStockHit(product: ProductId, onHand: int, threshold: int)

  function Threshold(low: map<ProductId, int>, p: ProductId): int {
    if p in low then low[p] else DEFAULT_LOW
  }

  predicate IsLow(db: Db, low: map<ProductId, int>, p: ProductId) {
    p in db && db[p].onHand <= Threshold(low, p)
  }

  /** The hits among some lines, as the tables stand. */
  function LowHits(db: Db, low: map<ProductId, int>, lines: seq<Line>): seq<LowStockHit> {
    if lines == [] then []
    else
      var p := lines[|lines| - 1].product;
      LowHits(db, low, lines[..|lines| - 1])
      + if IsLow(db, low, p) then [LowStockHit(p, db[p].onHand, Threshold(low, p))] else []
  }

  /** The hits are exactly the lines' products with no more copies than their threshold, five unless another is set. */
  lemma {:induction false} LowHitsExactly(db: Db, low: map<ProductId, int>, lines: seq<Line>, hit: LowStockHit)
    ensures hit in LowHits(db, low, lines) <==>
            exists l :: l in lines && l.product == hit.product && hit.product in db
              && hit.onHand == db[hit.product].onHand
              && hit.threshold == (if hit.product in low then low[hit.product] else 5) && hit.onHand <= hit.threshold
  {
    if lines != [] {
      var n := |lines| - 1;
      LowHitsExactly(db, low, lines[..n], hit);
      assert lines == lines[..n] + [lines[n]];
    }
  }

  /** They come in the order of the lines, each product once. */
  lemma {:induction false} LowHitsAscend(db: Db, low: map<ProductId, int>, lines: seq<Line>)
    requires Increasing(lines)
    ensures forall i, j :: 0 <= i < j < |LowHits(db, low, lines)| ==>
              LowHits(db, low, lines)[i].product < LowHits(db, low, lines)[j].product
  {
    if lines != [] {
      var n := |lines| - 1;
      var before := LowHits(db, low, lines[..n]);
      LowHitsAscend(db, low, lines[..n]);
      forall i | 0 <= i < |before|
        ensures before[i].product < lines[n].product
      {
        LowHitsExactly(db, low, lines[..n], before[i]);
      }
    }
  }

  /** Changing another product changes no hit. */
  lemma {:induction false} OtherHits(db: Db, low: map<ProductId, int>, lines: seq<Line>, p: ProductId, s: Stock)
    requires forall l :: l in lines ==> l.product != p
    ensures LowHits(db[p := s], low, lines) == LowHits(db, low, lines)
  {
    if lines != [] {
      OtherHits(db, low, lines[..|lines| - 1], p, s);
    }
  }

  lemma NextHit(before: Db, after: Db, low: map<ProductId, int>, lines: seq<Line>, i: nat)
    requires Increasing(lines) && i < |lines| && lines[i].product in after
    requires after == before[lines[i].product := after[lines[i].product]]
    ensures var p := lines[i].product;
            LowHits(after, low, lines[..i + 1]) ==
            LowHits(before, low, lines[..i])
            + if IsLow(after, low, p) then [LowStockHit(p, after[p].onHand, Threshold(low, p))] else []
  {
    var p := lines[i].product;
    assert lines[..i + 1][..i] == lines[..i];
    forall l | l in lines[..i]
      ensures l.product != p
    {
      var j :| 0 <= j < i && lines[j] == l;
    }
    OtherHits(before, low, lines[..i], p, after[p]);
  }

  class InventoryService {
    var shelves: map<ProductId, Stock>
    /** the low-stock thresholds that differ from the default */
    const low: map<ProductId, int>

    constructor (low: map<ProductId, int>)
      ensures shelves == map[] && this.low == low
    {
      shelves, this.low := map[], low;
    }

    method LowHit(p: ProductId) returns (hit: seq<LowStockHit>)
      requires p in shelves
      ensures hit == if IsLow(shelves, low, p) then [LowStockHit(p, shelves[p].onHand, Threshold(low, p))] else []
    {
      var threshold := if p in low then low[p] else DEFAULT_LOW;
      hit := if shelves[p].onHand <= threshold then [LowStockHit(p, shelves[p].onHand, threshold)] else [];
    }

    // ─── internals ───

    method LogMove(p: ProductId, kind: MoveKind, onHandDelta: int, reservedDelta: int, unitCost: Option<nat>,
                   order: Option<OrderId>)
      requires p in shelves
      modifies this
      ensures shelves == old(shelves)[p := Log(old(shelves)[p], kind, onHandDelta, reservedDelta, unitCost, order)]
    {
      var row := shelves[p];
      var move := Move(kind, onHandDelta, reservedDelta, unitCost, row.onHand, order);
      shelves := shelves[p := row.(moves := row.moves + [move])];
    }

    method UpdateCost(p: ProductId)
      requires p in shelves
      modifies this
      ensures shelves == old(shelves)[p := RefreshCost(old(shelves)[p])]
    {
      var avg := AverageCost(shelves[p].lots);
      if avg.Some? {
        shelves := shelves[p := shelves[p].(cost := avg)];
      }
    }

    method CreateLot(p: ProductId, qty: int, unitCost: Option<nat>, received: int, now: int)
      requires p in shelves
      modifies this
      ensures shelves == old(shelves)[p := NewLot(old(shelves)[p], qty, unitCost, received, now)]
    {
      var row := shelves[p];
      shelves := shelves[p := row.(
        lots := Arrive(row.lots, Lot(row.nextLot, received, now, unitCost, qty, qty)),
        nextLot := row.nextLot + 1)];
    }

    /** `take` copies leave the i-th batch row, with a consumption row when an order is known. */
    method SellFromRow(p: ProductId, i: nat, take: int, order: Option<OrderId>)
      requires p in shelves && i < |shelves[p].lots|
      modifies this
      ensures shelves == old(shelves)[p := SoldFromRow(old(shelves)[p], i, take, order)]
    {
      var row := shelves[p];
      var lot := row.lots[i];
      shelves := shelves[p := row.(lots := row.lots[i := lot.(qtyLeft := lot.qtyLeft - take)])];
      if order.Some? {
        shelves := shelves[p := shelves[p].(uses := row.uses + [Use(lot.id, order.value, take, lot.unitCost, 0)])];
      }
    }

    /** Takes copies from the oldest batches first, one batch row at a time. */
    method ConsumeLots(p: ProductId, qty: int, order: Option<OrderId>) returns (used: seq<Take>)
      requires p in shelves
      modifies this
      ensures shelves == old(shelves)[p := Consume(old(shelves)[p], qty, order).0]
      ensures used == Consume(old(shelves)[p], qty, order).1
    {
      hide Consume, TakeFrom, UsesOf, RefreshCost;
      ghost var before := shelves[p];
      var rows := shelves[p].lots;
      used := [];
      var need := qty;
      var i := 0;
      ConsumeBegins(before, qty, order);
      while i < |rows|
        invariant p in shelves && shelves == old(shelves)[p := shelves[p]]
        invariant HalfConsumed(before, shelves[p], i, used, need, qty, order)
      {
        if need <= 0 {
          break;
        }
        var lot := rows[i];
        if lot.qtyLeft > 0 {
          ConsumeTakes(before, shelves[p], i, used, need, qty, order);
          assert shelves[p].lots[i..][0] == before.lots[i..][0];
          var take := Min(need, lot.qtyLeft);
          SellFromRow(p, i, take, order);
          used := used + [Take(Some(lot.id), take, lot.unitCost)];
          need := need - take;
        } else {
          ConsumeSkips(before, shelves[p], i, used, need, qty, order);
        }
        i := i + 1;
      }
      ConsumeEnds(before, shelves[p], i, used, need, qty, order);
      if need > 0 {
        used := used + [Take(None, need, shelves[p].cost)];
      }
      UpdateCost(p);
    }

    /** Puts copies back into the batches an order took them from, newest consumption first. */
    method UnconsumeLots(p: ProductId, qty: int, order: Option<OrderId>, now: int)
      requires p in shelves
      modifies this
      ensures shelves == old(shelves)[p := Unconsume(old(shelves)[p], qty, order, now)]
    {
      var left := qty;
      if order.Some? {
        left := GiveBackRows(p, qty, order.value);
      }
      if left > 0 {
        CreateLot(p, left, shelves[p].cost, now, now);
      }
      UpdateCost(p);
    }

    /** Marks `back` copies of the i-th consumption row returned and refills its batch. */
    method RefillFromRow(p: ProductId, i: nat, back: int)
      requires p in shelves && i < |shelves[p].uses|
      modifies this
      ensures shelves == old(shelves)[p := RefilledFromRow(old(shelves)[p], i, back)]
    {
      var row := shelves[p];
      var u := row.uses[i];
      shelves := shelves[p := row.(uses := row.uses[i := u.(returned := u.returned + back)])];
      shelves := shelves[p := shelves[p].(lots := AddBack(shelves[p].lots, u.lotId, back))];
    }

    method GiveBackRows(p: ProductId, qty: int, order: OrderId) returns (left: int)
      requires p in shelves
      modifies this
      ensures var (lots, uses, rest) := GiveBack(old(shelves)[p].lots, old(shelves)[p].uses, order, qty);
              && shelves == old(shelves)[p := old(shelves)[p].(lots := lots, uses := uses)]
              && left == rest
    {
      hide GiveBack, AddBack;
      ghost var before := shelves[p];
      var rows := shelves[p].uses;
      left := qty;
      var i := |rows|;
      GiveBackBegins(before, order, qty);
      while i > 0
        invariant p in shelves && shelves == old(shelves)[p := shelves[p]]
        invariant HalfGiven(before, shelves[p], i, order, left, qty)
      {
        if left <= 0 {
          break;
        }
        var u := rows[i - 1];
        var back := Min(left, u.qty - u.returned);
        if u.order == order && back > 0 {
          GiveBackRefills(before, shelves[p], i, order, left, qty);
          RefillFromRow(p, i - 1, back);
          left := left - back;
        } else {
          GiveBackSkips(before, shelves[p], i, order, left, qty);
        }
        i := i - 1;
      }
      GiveBackEnds(before, shelves[p], i, order, left, qty);
    }

    method Stamp(p: ProductId, order: OrderId, used: seq<Take>)
      requires p in shelves && forall t :: t in used ==> 0 < t.qty
      modifies this
      ensures shelves == old(shelves)[p := StampOrderCost(old(shelves)[p], order, used)]
    {
      if used == [] || !AllCosted(used) {
        return;
      }
      var units := Taken(used);
      var avg := HalfUp(UsedValue(used), units);
      shelves := shelves[p := shelves[p].(stamped := shelves[p].stamped[order := avg])];
    }

    // ─── the public calls ───

    /** The guarded update of the reserved counter, logged. */
    method SetReserved(p: ProductId, reserved: int, kind: MoveKind, delta: int, order: Option<OrderId>)
      requires p in shelves
      modifies this
      ensures shelves == old(shelves)[p := Log(old(shelves)[p].(reserved := reserved), kind, 0, delta, None, order)]
    {
      shelves := shelves[p := shelves[p].(reserved := reserved)];
      LogMove(p, kind, 0, delta, None, order);
    }

    method Reserve(lines: seq<Line>, order: Option<OrderId>) returns (thrown: Option<Error>)
      modifies this
      ensures Outcome(old(shelves), shelves, thrown, CallLines(old(shelves), Reserving, lines, order))
    {
      hide ApplyLines, Log, RowAllowed;
      var before := shelves;
      var merged := MergeLines(lines);
      if merged.Err? {
        return Some(merged.error);
      }
      var todo := merged.value;
      assert todo[0..] == todo && Increasing(todo) && AllPositive(todo);
      hide IsMerge;
      for i := 0 to |todo|
        invariant ApplyLines(before, Reserving, todo, order) == ApplyLines(shelves, Reserving, todo[i..], order)
      {
        var p, qty := todo[i].product, todo[i].qty;
        ghost var sofar := shelves;
        if p !in shelves {
          LineFailed(before, sofar, Reserving, todo, i, order, NotFound);
          shelves := before;
          return Some(NotFound);
        }
        var row := shelves[p];
        if row.deleted || !(!row.tracked || row.backorder || row.onHand - row.reserved >= qty) {
          LineFailed(before, sofar, Reserving, todo, i, order, Insufficient);
          shelves := before;
          return Some(Insufficient);
        }
        if !RowAllowed(row.(reserved := row.reserved + qty)) {
          LineFailed(before, sofar, Reserving, todo, i, order, CheckViolation);
          shelves := before;
          return Some(CheckViolation);
        }
        SetReserved(p, row.reserved + qty, OrderReserve, qty, order);
        LineDone(before, sofar, Reserving, todo, i, order, shelves);
      }
      AllDone(before, shelves, Reserving, todo, order);
      return None;
    }

    method Release(lines: seq<Line>, order: Option<OrderId>) returns (thrown: Option<Error>)
      modifies this
      ensures Outcome(old(shelves), shelves, thrown, CallLines(old(shelves), Releasing, lines, order))
    {
      hide ApplyLines, Log, RowAllowed;
      var before := shelves;
      var merged := MergeLines(lines);
      if merged.Err? {
        return Some(merged.error);
      }
      var todo := merged.value;
      assert todo[0..] == todo && Increasing(todo) && AllPositive(todo);
      hide IsMerge;
      for i := 0 to |todo|
        invariant ApplyLines(before, Releasing, todo, order) == ApplyLines(shelves, Releasing, todo[i..], order)
      {
        var p, qty := todo[i].product, todo[i].qty;
        ghost var sofar := shelves;
        if p in shelves {
          var reserved := Max(shelves[p].reserved - qty, 0);
          if !RowAllowed(shelves[p].(reserved := reserved)) {
            LineFailed(before, sofar, Releasing, todo, i, order, CheckViolation);
            shelves := before;
            return Some(CheckViolation);
          }
          SetReserved(p, reserved, OrderRelease, -qty, order);
        }
        LineDone(before, sofar, Releasing, todo, i, order, shelves);
      }
      AllDone(before, shelves, Releasing, todo, order);
      return None;
    }

    /** Copies of one product leave with the courier; the row has passed its guard and its constraints. */
    method FulfillOne(p: ProductId, qty: int, order: Option<OrderId>)
      requires p in shelves && 0 < qty && Shelf.Fulfill(shelves[p], qty, order).Ok?
      modifies this
      ensures shelves == old(shelves)[p := Shelf.Fulfill(old(shelves)[p], qty, order).value]
    {
      var row := shelves[p];
      var left := Shipped(row, qty);
      shelves := shelves[p := left];
      LogMove(p, OrderFulfill, -qty, -qty, None, order);
      ghost var logged := Log(left, OrderFulfill, -qty, -qty, None, order);
      assert shelves == old(shelves)[p := logged];
      var used := ConsumeLots(p, qty, order);
      assert shelves == old(shelves)[p := Consume(logged, qty, order).0];
      FulfillIs(row, qty, order, logged);
      if order.Some? {
        Stamp(p, order.value, used);
      }
    }

    /** Returns the products that ended at or below their threshold, in the order of the merged lines. */
    method Fulfill(lines: seq<Line>, order: Option<OrderId>) returns (thrown: Option<Error>, hits: seq<LowStockHit>)
      modifies this
      ensures Outcome(old(shelves), shelves, thrown, CallLines(old(shelves), Fulfilling, lines, order))
      ensures hits == if thrown.None? then LowHits(shelves, low, Merge(lines)) else []
    {
      hits := [];
      var before := shelves;
      var merged := MergeLines(lines);
      if merged.Err? {
        return Some(merged.error), [];
      }
      var todo := merged.value;
      assert LowHits(shelves, low, todo[..0]) == [] && todo[0..] == todo && Increasing(todo) && AllPositive(todo);
      hide IsMerge, ApplyLines, Shelf.Fulfill, RowAllowed, LowHits, IsLow, Threshold;
      for i := 0 to |todo|
        invariant ApplyLines(before, Fulfilling, todo, order) == ApplyLines(shelves, Fulfilling, todo[i..], order)
        invariant hits == LowHits(shelves, low, todo[..i])
      {
        var p, qty := todo[i].product, todo[i].qty;
        ghost var sofar := shelves;
        if p in shelves {
          FulfilOutcome(shelves[p], qty, order);
        }
        if p !in shelves || !(shelves[p].backorder || shelves[p].onHand >= qty) {
          LineFailed(before, sofar, Fulfilling, todo, i, order, FulfilFailed);
          shelves := before;
          return Some(FulfilFailed), [];
        }
        if !RowAllowed(Shipped(shelves[p], qty)) {
          LineFailed(before, sofar, Fulfilling, todo, i, order, CheckViolation);
          shelves := before;
          return Some(CheckViolation), [];
        }
        FulfillOne(p, qty, order);
        LineDone(before, sofar, Fulfilling, todo, i, order, shelves);
        NextHit(sofar, shelves, low, todo, i);
        var hit := LowHit(p);
        hits := hits + hit;
      }
      AllDone(before, shelves, Fulfilling, todo, order);
      assert todo[..|todo|] == todo;
      return None, hits;
    }

    method RestockOne(p: ProductId, qty: int, order: Option<OrderId>, now: int)
      requires p in shelves && 0 < qty && Shelf.Restock(shelves[p], qty, order, now).Ok?
      modifies this
      ensures shelves == old(shelves)[p := Shelf.Restock(old(shelves)[p], qty, order, now).value]
    {
      var row := shelves[p];
      shelves := shelves[p := row.(onHand := row.onHand + qty, sold := Max(row.sold - qty, 0))];
      LogMove(p, ReturnRestock, qty, 0, None, order);
      UnconsumeLots(p, qty, order, now);
    }

    method Restock(lines: seq<Line>, order: Option<OrderId>, now: int) returns (thrown: Option<Error>)
      modifies this
      ensures Outcome(old(shelves), shelves, thrown, CallLines(old(shelves), Restocking(now), lines, order))
    {
      hide ApplyLines, Unconsume, Log, RowAllowed;
      var before := shelves;
      var merged := MergeLines(lines);
      if merged.Err? {
        return Some(merged.error);
      }
      var todo := merged.value;
      assert todo[0..] == todo && Increasing(todo) && AllPositive(todo);
      hide IsMerge;
      for i := 0 to |todo|
        invariant ApplyLines(before, Restocking(now), todo, order)
               == ApplyLines(shelves, Restocking(now), todo[i..], order)
      {
        var p, qty := todo[i].product, todo[i].qty;
        ghost var sofar := shelves;
        if p in shelves {
          var row := shelves[p];
          if !RowAllowed(row.(onHand := row.onHand + qty, sold := Max(row.sold - qty, 0))) {
            LineFailed(before, sofar, Restocking(now), todo, i, order, CheckViolation);
            shelves := before;
            return Some(CheckViolation);
          }
          RestockOne(p, qty, order, now);
        }
        LineDone(before, sofar, Restocking(now), todo, i, order, shelves);
      }
      AllDone(before, shelves, Restocking(now), todo, order);
      return None;
    }

    method AddBatch(p: ProductId, qty: int, unitCost: Option<real>, received: int, now: int)
      returns (thrown: Option<Error>)
      modifies this
      ensures Outcome(old(shelves), shelves, thrown, CallStep(old(shelves), Deliver(p, qty, unitCost, received, now)))
    {
      if qty <= 0 {
        return Some(QtyInvalid);
      }
      if p !in shelves {
        return Some(NotFound);
      }
      var row := shelves[p];
      if !RowAllowed(row.(onHand := row.onHand + qty)) || (unitCost.Some? && Money.Round2(unitCost.value) < 0) {
        return Some(CheckViolation);
      }
      shelves := shelves[p := row.(onHand := row.onHand + qty)];
      var cost := if unitCost.Some? then Some(Money.Round2(unitCost.value) as nat) else row.cost;
      LogMove(p, PurchaseReceipt, qty, 0, cost, None);
      CreateLot(p, qty, cost, received, now);
      UpdateCost(p);
      assert shelves == old(shelves)[p := shelves[p]];
      return None;
    }

    /** Goods from a supplier: a batch at the purchase's cost, received now. */
    method Receive(p: ProductId, qty: int, unitCost: real, now: int) returns (thrown: Option<Error>)
      modifies this
      ensures Outcome(old(shelves), shelves, thrown, CallStep(old(shelves), Deliver(p, qty, Some(unitCost), now, now)))
    {
      thrown := AddBatch(p, qty, Some(unitCost), now, now);
    }

    method SetOnHand(p: ProductId, onHand: int, given: Option<MoveKind>, now: int) returns (thrown: Option<Error>)
      modifies this
      ensures var kind := if given.Some? then given.value else Adjustment;
              Outcome(old(shelves), shelves, thrown, CallStep(old(shelves), Count(p, onHand, kind, now)))
    {
      hide Consume, NewLot, RefreshCost, RowAllowed;
      if onHand < 0 {
        return Some(NegativeStock);
      }
      if p !in shelves {
        return Some(NotFound);
      }
      var row := shelves[p];
      var delta := onHand - row.onHand;
      if delta == 0 {
        assert shelves == shelves[p := row];
        return None;
      }
      if onHand < row.reserved {
        return Some(BelowReserved);
      }
      if !RowAllowed(row.(onHand := onHand)) {
        return Some(CheckViolation);
      }
      shelves := shelves[p := row.(onHand := onHand)];
      LogMove(p, if given.Some? then given.value else Adjustment, delta, 0, None, None);
      if delta > 0 {
        CreateLot(p, delta, shelves[p].cost, now, now);
      } else {
        var _ := ConsumeLots(p, -delta, None);
      }
      UpdateCost(p);
      assert shelves == old(shelves)[p := shelves[p]];
      return None;
    }
  }

  /** A call either returns and the tables are those of `expected`, or throws its error and changes nothing. */
  predicate Outcome(before: Db, after: Db, thrown: Option<Error>, expected: Result<Db, Error>) {
    match thrown
    case None => expected == Ok(after)
    case Some(e) => expected == Err(e) && after == before
  }

  /** One line done: what is left of the call is the lines behind it. */
  lemma LineDone(before: Db, sofar: Db, op: LineOp, todo: seq<Line>, i: nat, order: Option<OrderId>, next: Db)
    requires i < |todo| && ApplyLines(before, op, todo, order) == ApplyLines(sofar, op, todo[i..], order)
    requires ApplyLine(sofar, op, todo[i], order) == Ok(next)
    ensures ApplyLines(before, op, todo, order) == ApplyLines(next, op, todo[i + 1..], order)
  {
    hide ApplyLine;
    assert todo[i..][0] == todo[i] && todo[i..][1..] == todo[i + 1..];
  }

  /** One line failed: so does the call. */
  lemma LineFailed(before: Db, sofar: Db, op: LineOp, todo: seq<Line>, i: nat, order: Option<OrderId>, e: Error)
    requires i < |todo| && ApplyLines(before, op, todo, order) == ApplyLines(sofar, op, todo[i..], order)
    requires ApplyLine(sofar, op, todo[i], order) == Err(e)
    ensures ApplyLines(before, op, todo, order) == Err(e)
  {
    hide ApplyLine;
    assert todo[i..][0] == todo[i];
  }

  lemma AllDone(before: Db, sofar: Db, op: LineOp, todo: seq<Line>, order: Option<OrderId>)
    requires ApplyLines(before, op, todo, order) == ApplyLines(sofar, op, todo[|todo|..], order)
    ensures ApplyLines(before, op, todo, order) == Ok(sofar)
  {}

  /** The counters of a row after a sale. */
  function Shipped(row: Stock, qty: int): Stock {
    row.(onHand := row.onHand - qty, reserved := Max(row.reserved - qty, 0), sold := row.sold + qty)
  }

  /** A sale fails at its guard, or at the constraints, or goes through. */
  lemma FulfilOutcome(row: Stock, qty: int, order: Option<OrderId>)
    ensures var guarded := row.backorder || row.onHand >= qty;
            var left := Shipped(row, qty);
            && (!guarded ==> Shelf.Fulfill(row, qty, order) == Err(FulfilFailed))
            && (guarded && !RowAllowed(left) ==> Shelf.Fulfill(row, qty, order) == Err(CheckViolation))
            && (guarded && RowAllowed(left) ==> Shelf.Fulfill(row, qty, order).Ok?)
  {}

  lemma FulfillIs(row: Stock, qty: int, order: Option<OrderId>, logged: Stock)
    requires Shelf.Fulfill(row, qty, order).Ok?
    requires logged == Log(Shipped(row, qty), OrderFulfill, -qty, -qty, None, order)
    ensures var (sold, used) := Consume(logged, qty, order);
            Shelf.Fulfill(row, qty, order) == Ok(if order.Some? then StampOrderCost(sold, order.value, used) else sold)
  {}

  // ─── the two loops over rows ───

  function SoldFromRow(s: Stock, i: nat, take: int, order: Option<OrderId>): Stock
    requires i < |s.lots|
  {
    var lot := s.lots[i];
    s.(lots := s.lots[i := lot.(qtyLeft := lot.qtyLeft - take)],
       uses := if order.Some? then s.uses + [Use(lot.id, order.value, take, lot.unitCost, 0)] else s.uses)
  }

  function RefilledFromRow(s: Stock, i: nat, back: int): Stock
    requires i < |s.uses|
  {
    var u := s.uses[i];
    s.(uses := s.uses[i := u.(returned := u.returned + back)], lots := AddBack(s.lots, u.lotId, back))
  }

  function TakenSoFar(done: seq<Lot>, used: seq<Take>, rest: (seq<Lot>, seq<Take>, int)): (seq<Lot>, seq<Take>, int) {
    (done + rest.0, used + rest.1, rest.2)
  }

  function GivenSoFar(rest: (seq<Lot>, seq<Use>, int), newer: seq<Use>): (seq<Lot>, seq<Use>, int) {
    (rest.0, rest.1 + newer, rest.2)
  }

  /** The first `i` batch rows are dealt with, and what is still to do is a sale from the others. */
  ghost predicate HalfConsumed(before: Stock, s: Stock, i: int, used: seq<Take>, need: int, qty: int,
                               order: Option<OrderId>) {
    && 0 <= i <= |before.lots| == |s.lots|
    && s.lots[i..] == before.lots[i..]
    && s == before.(lots := s.lots, uses := s.uses)
    && s.uses == before.uses + (if order.Some? then UsesOf(used, order.value) else [])
    && TakeFrom(before.lots, qty) == TakenSoFar(s.lots[..i], used, TakeFrom(before.lots[i..], need))
  }

  lemma ConsumeBegins(before: Stock, qty: int, order: Option<OrderId>)
    ensures HalfConsumed(before, before, 0, [], qty, qty, order)
  {
    assert before.lots[0..] == before.lots;
    var (lots, takes, _) := TakeFrom(before.lots, qty);
    assert before.lots[..0] + lots == lots && [] + takes == takes;
  }

  /** One row of the walk over the batches. */
  lemma TakeOneRow(done: seq<Lot>, used: seq<Take>, rows: seq<Lot>, need: int)
    requires rows != [] && need > 0
    ensures var lot := rows[0];
            var take := Min(need, lot.qtyLeft);
            TakenSoFar(done, used, TakeFrom(rows, need)) ==
            if lot.qtyLeft > 0 then
              TakenSoFar(done + [lot.(qtyLeft := lot.qtyLeft - take)], used + [Take(Some(lot.id), take, lot.unitCost)],
                         TakeFrom(rows[1..], need - take))
            else
              TakenSoFar(done + [lot], used, TakeFrom(rows[1..], need))
  {
    var lot := rows[0];
    var take := if lot.qtyLeft > 0 then Min(need, lot.qtyLeft) else 0;
    var (rest, takes, _) := TakeFrom(rows[1..], need - take);
    var lot', t := lot.(qtyLeft := lot.qtyLeft - take), Take(Some(lot.id), take, lot.unitCost);
    assert done + ([lot'] + rest) == done + [lot'] + rest;
    assert used + ([t] + takes) == used + [t] + takes;
  }

  lemma ConsumeTakes(before: Stock, s: Stock, i: nat, used: seq<Take>, need: int, qty: int, order: Option<OrderId>)
    requires HalfConsumed(before, s, i, used, need, qty, order) && i < |before.lots| && need > 0
    requires before.lots[i].qtyLeft > 0
    ensures var lot := before.lots[i];
            var take := Min(need, lot.qtyLeft);
            HalfConsumed(before, SoldFromRow(s, i, take, order), i + 1,
                         used + [Take(Some(lot.id), take, lot.unitCost)], need - take, qty, order)
  {
    hide TakeFrom, TakenSoFar, UsesOf;
    var lot := before.lots[i];
    assert s.lots[i..][0] == before.lots[i..][0];
    assert before.lots[i..][1..] == before.lots[i + 1..] && s.lots[i..][1..] == s.lots[i + 1..];
    TakeOneRow(s.lots[..i], used, before.lots[i..], need);
    var take := Min(need, lot.qtyLeft);
    var s' := SoldFromRow(s, i, take, order);
    assert s'.lots[..i + 1] == s.lots[..i] + [lot.(qtyLeft := lot.qtyLeft - take)];
    assert s'.lots[i + 1..] == s.lots[i + 1..];
    if order.Some? {
      UsesOfSnoc(used, Take(Some(lot.id), take, lot.unitCost), order.value);
    }
  }

  lemma ConsumeSkips(before: Stock, s: Stock, i: nat, used: seq<Take>, need: int, qty: int, order: Option<OrderId>)
    requires HalfConsumed(before, s, i, used, need, qty, order) && i < |before.lots| && need > 0
    requires before.lots[i].qtyLeft <= 0
    ensures HalfConsumed(before, s, i + 1, used, need, qty, order)
  {
    hide TakeFrom;
    assert s.lots[i..][0] == before.lots[i..][0];
    assert before.lots[i..][1..] == before.lots[i + 1..] && s.lots[i..][1..] == s.lots[i + 1..];
    TakeOneRow(s.lots[..i], used, before.lots[i..], need);
    assert s.lots[..i + 1] == s.lots[..i] + [before.lots[i]];
  }

  lemma ConsumeEnds(before: Stock, s: Stock, i: nat, used: seq<Take>, need: int, qty: int, order: Option<OrderId>)
    requires HalfConsumed(before, s, i, used, need, qty, order) && (i == |before.lots| || need <= 0)
    ensures var used' := if need > 0 then used + [Take(None, need, s.cost)] else used;
            Consume(before, qty, order) == (RefreshCost(s), used')
  {
    var rest := before.lots[i..];
    assert TakeFrom(rest, need) == (rest, [], need);
    assert s.lots == s.lots[..i] + rest;
    assert used + [] == used;
    assert TakeFrom(before.lots, qty) == (s.lots, used, need);
    assert order.None? ==> s.uses == before.uses;
  }

  /** The consumption rows from `i` on are dealt with, and what is still to do is a return to the others. */
  ghost predicate HalfGiven(before: Stock, s: Stock, i: int, order: OrderId, left: int, qty: int) {
    && 0 <= i <= |before.uses| == |s.uses|
    && s.uses[..i] == before.uses[..i]
    && s == before.(lots := s.lots, uses := s.uses)
    && GiveBack(before.lots, before.uses, order, qty) ==
       GivenSoFar(GiveBack(s.lots, before.uses[..i], order, left), s.uses[i..])
  }

  lemma GiveBackBegins(before: Stock, order: OrderId, qty: int)
    ensures HalfGiven(before, before, |before.uses|, order, qty, qty)
  {
    var rows := before.uses;
    assert rows[..|rows|] == rows && rows[|rows|..] == [];
    var uses := GiveBack(before.lots, rows, order, qty).1;
    assert uses + [] == uses;
  }

  /** One row of the walk back over the consumptions: it refills its batch … */
  lemma GiveOneRow(lots: seq<Lot>, older: seq<Use>, u: Use, order: OrderId, left: int, newer: seq<Use>)
    requires left > 0 && u.order == order && u.qty > u.returned
    ensures var back := Min(left, u.qty - u.returned);
            GivenSoFar(GiveBack(lots, older + [u], order, left), newer) ==
            GivenSoFar(GiveBack(AddBack(lots, u.lotId, back), older, order, left - back),
                       [u.(returned := u.returned + back)] + newer)
  {
    var rows := older + [u];
    assert rows[..|rows| - 1] == older;
    var back := Min(left, u.qty - u.returned);
    var uses := GiveBack(AddBack(lots, u.lotId, back), older, order, left - back).1;
    var u' := u.(returned := u.returned + back);
    assert (uses + [u']) + newer == uses + ([u'] + newer);
  }

  /** … or it is another order's, or has nothing left to give. */
  lemma PassOneRow(lots: seq<Lot>, older: seq<Use>, u: Use, order: OrderId, left: int, newer: seq<Use>)
    requires left > 0 && (u.order != order || u.qty <= u.returned)
    ensures GivenSoFar(GiveBack(lots, older + [u], order, left), newer) ==
            GivenSoFar(GiveBack(lots, older, order, left), [u] + newer)
  {
    var rows := older + [u];
    assert rows[..|rows| - 1] == older;
    var uses := GiveBack(lots, older, order, left).1;
    assert (uses + [u]) + newer == uses + ([u] + newer);
  }

  lemma LastOfPrefix(a: seq<Use>, b: seq<Use>, i: nat)
    requires 0 < i <= |a| == |b| && a[..i] == b[..i]
    ensures a[i - 1] == b[i - 1] && a[..i - 1] == b[..i - 1]
    ensures a[..i] == a[..i - 1] + [a[i - 1]]
    ensures b[i - 1..] == [b[i - 1]] + b[i..]
  {
    assert a[..i][i - 1] == b[..i][i - 1];
    assert a[..i][..i - 1] == a[..i - 1] && b[..i][..i - 1] == b[..i - 1];
  }

  lemma GiveBackRefills(before: Stock, s: Stock, i: nat, order: OrderId, left: int, qty: int)
    requires HalfGiven(before, s, i, order, left, qty) && i > 0 && left > 0
    requires before.uses[i - 1].order == order && before.uses[i - 1].qty > before.uses[i - 1].returned
    ensures s.uses[i - 1] == before.uses[i - 1]
    ensures var u := before.uses[i - 1];
            var back := Min(left, u.qty - u.returned);
            HalfGiven(before, RefilledFromRow(s, i - 1, back), i - 1, order, left - back, qty)
  {
    hide GiveBack;
    var u := before.uses[i - 1];
    var back := Min(left, u.qty - u.returned);
    LastOfPrefix(before.uses, s.uses, i);
    GiveOneRow(s.lots, before.uses[..i - 1], u, order, left, s.uses[i..]);
    MarkRow(s.uses, i - 1, u.(returned := u.returned + back));
  }

  lemma MarkRow(uses: seq<Use>, i: nat, u: Use)
    requires i < |uses|
    ensures uses[i := u][..i] == uses[..i] && uses[i := u][i..] == [u] + uses[i + 1..]
  {}

  lemma GiveBackSkips(before: Stock, s: Stock, i: nat, order: OrderId, left: int, qty: int)
    requires HalfGiven(before, s, i, order, left, qty) && i > 0 && left > 0
    requires before.uses[i - 1].order != order || before.uses[i - 1].qty <= before.uses[i - 1].returned
    ensures HalfGiven(before, s, i - 1, order, left, qty)
  {
    hide GiveBack;
    LastOfPrefix(before.uses, s.uses, i);
    PassOneRow(s.lots, before.uses[..i - 1], before.uses[i - 1], order, left, s.uses[i..]);
  }

  lemma GiveBackEnds(before: Stock, s: Stock, i: nat, order: OrderId, left: int, qty: int)
    requires HalfGiven(before, s, i, order, left, qty) && (i == 0 || left <= 0)
    ensures GiveBack(before.lots, before.uses, order, qty) == (s.lots, s.uses, left)
  {
    assert s.uses == s.uses[..i] + s.uses[i..];
  }

  lemma {:induction false} UsesOfSnoc(takes: seq<Take>, t: Take, order: OrderId)
    requires t.lot.Some?
    ensures UsesOf(takes + [t], order) == UsesOf(takes, order) + [Use(t.lot.value, order, t.qty, t.unitCost, 0)]
  {
    if takes == [] {
      assert takes + [t] == [t];
    } else {
      UsesOfSnoc(takes[1..], t, order);
      assert (takes + [t])[1..] == takes[1..] + [t];
    }
  }
}
