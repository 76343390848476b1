/**
 * One product's stock: its counters, its movement ledger, its batches and what
 * orders took from them, and every change the inventory service can make.
 *
 * A change is a function to `Result`: an `Err` is a thrown error, after which
 * the caller's transaction is rolled back and the old value still stands.
 */
module Shelf {
  import opened Prelude
  import opened Batches
  import Money

  datatype Error =
    | QtyInvalid
    | NotFound
    | Insufficient
    | FulfilFailed
    | NegativeStock
    | BelowReserved
    | CheckViolation

  datatype MoveKind =
    | Opening
    | PurchaseReceipt
    | OrderReserve
    | OrderRelease
    | OrderFulfill
    | ReturnRestock
    | Adjustment
    | Damage
    | WriteOff

  /** One row of the append-only movement ledger. */
  datatype Move = Move(
    kind: MoveKind,
    onHandDelta: int,
    reservedDelta: int,
    unitCost: Option<nat>,
    balanceAfter: int,
    order: Option<OrderId>)

  datatype Stock = Stock(
    deleted: bool,
    tracked: bool,
    backorder: bool,
    onHand: int,
    reserved: int,
    sold: int,
    cost: Option<nat>,
    moves: seq<Move>,
    lots: seq<Lot>,
    uses: seq<Use>,
    /** unit cost written on the lines of each order */
    stamped: map<OrderId, nat>,
    nextLot: LotId)

  /** The CHECK constraints on the counters: a row that breaks them is refused by the database. */
  predicate RowAllowed(s: Stock) {
    && 0 <= s.onHand
    && 0 <= s.reserved
    && (s.backorder || s.reserved <= s.onHand)
  }

  // ─── money ───

  /** num / den to the nearest whole, a half upwards (SQL `round`). */
  function HalfUp(num: nat, den: nat): nat
    requires den > 0
  {
    (2 * num + den) / (2 * den)
  }

  function CostedQty(lots: seq<Lot>): (n: nat) {
    if lots == [] then 0
    else (if lots[0].qtyLeft > 0 && lots[0].unitCost.Some? then lots[0].qtyLeft else 0) + CostedQty(lots[1..])
  }

  function CostedValue(lots: seq<Lot>): (n: nat) {
    if lots == [] then 0
    else (if lots[0].qtyLeft > 0 && lots[0].unitCost.Some? then lots[0].unitCost.value * lots[0].qtyLeft else 0)
         + CostedValue(lots[1..])
  }

  function AverageCost(lots: seq<Lot>): Option<nat> {
    if CostedQty(lots) == 0 then None else Some(HalfUp(CostedValue(lots), CostedQty(lots)))
  }

  /** The cost price after a look at the batches: unchanged when no costed copy is on the shelf. */
  function CurrentCost(lots: seq<Lot>, before: Option<nat>): Option<nat> {
    var avg := AverageCost(lots);
    if avg.Some? then avg else before
  }

  function RefreshCost(s: Stock): Stock {
    s.(cost := CurrentCost(s.lots, s.cost))
  }

  predicate AllCosted(used: seq<Take>) {
    forall i :: 0 <= i < |used| ==> used[i].unitCost.Some?
  }

  function UsedValue(used: seq<Take>): (v: int)
    ensures (forall t :: t in used ==> 0 < t.qty) ==> v >= 0
  {
    if used == [] then 0
    else (if used[0].unitCost.Some? then used[0].unitCost.value * used[0].qty else 0) + UsedValue(used[1..])
  }

  function StampOrderCost(s: Stock, order: OrderId, used: seq<Take>): Stock
    requires forall t :: t in used ==> 0 < t.qty
  {
    if used == [] || !AllCosted(used) then s
    else s.(stamped := s.stamped[order := HalfUp(UsedValue(used), Taken(used))])
  }

  // ─── internals ───

  function Log(s: Stock, kind: MoveKind, onHandDelta: int, reservedDelta: int, unitCost: Option<nat>,
               order: Option<OrderId>): Stock {
    s.(moves := s.moves + [Move(kind, onHandDelta, reservedDelta, unitCost, s.onHand, order)])
  }

  function NewLot(s: Stock, qty: int, unitCost: Option<nat>, received: int, now: int): Stock {
    s.(lots := Arrive(s.lots, Lot(s.nextLot, received, now, unitCost, qty, qty)), nextLot := s.nextLot + 1)
  }

  /** Copies leave the oldest batches; `used` says which, and what no batch knew about. */
  function Consume(s: Stock, qty: int, order: Option<OrderId>): (r: (Stock, seq<Take>))
    ensures forall t :: t in r.1 ==> 0 < t.qty
    ensures r.0 == s.(lots := r.0.lots, uses := r.0.uses, cost := r.0.cost)
  {
    var (lots, takes, unmet) := TakeFrom(s.lots, qty);
    var uses := if order.Some? then s.uses + UsesOf(takes, order.value) else s.uses;
    var used := if unmet > 0 then takes + [Take(None, unmet, s.cost)] else takes;
    (RefreshCost(s.(lots := lots, uses := uses)), used)
  }

  function Unconsume(s: Stock, qty: int, order: Option<OrderId>, now: int): (r: Stock)
    ensures r == s.(lots := r.lots, uses := r.uses, cost := r.cost, nextLot := r.nextLot)
  {
    var (lots, uses, left) := if order.Some? then GiveBack(s.lots, s.uses, order.value, qty) else (s.lots, s.uses, qty);
    var refilled := s.(lots := lots, uses := uses);
    RefreshCost(if left > 0 then NewLot(refilled, left, s.cost, now, now) else refilled)
  }

  // ─── the public changes, one product at a time ───

  function Reserve(s: Stock, qty: int, order: Option<OrderId>): Result<Stock, Error> {
    if s.deleted || !(!s.tracked || s.backorder || s.onHand - s.reserved >= qty) then Err(Insufficient)
    else
      var s1 := s.(reserved := s.reserved + qty);
      if !RowAllowed(s1) then Err(CheckViolation)
      else Ok(Log(s1, OrderReserve, 0, qty, None, order))
  }

  function Release(s: Stock, qty: int, order: Option<OrderId>): Result<Stock, Error> {
    var s1 := s.(reserved := Max(s.reserved - qty, 0));
    if !RowAllowed(s1) then Err(CheckViolation)
    else Ok(Log(s1, OrderRelease, 0, -qty, None, order))
  }

  function Fulfill(s: Stock, qty: int, order: Option<OrderId>): Result<Stock, Error> {
    if !(s.backorder || s.onHand >= qty) then Err(FulfilFailed)
    else
      var s1 := s.(onHand := s.onHand - qty, reserved := Max(s.reserved - qty, 0), sold := s.sold + qty);
      if !RowAllowed(s1) then Err(CheckViolation)
      else
        var (s2, used) := Consume(Log(s1, OrderFulfill, -qty, -qty, None, order), qty, order);
        Ok(if order.Some? then StampOrderCost(s2, order.value, used) else s2)
  }

  function Restock(s: Stock, qty: int, order: Option<OrderId>, now: int): Result<Stock, Error> {
    var s1 := s.(onHand := s.onHand + qty, sold := Max(s.sold - qty, 0));
    if !RowAllowed(s1) then Err(CheckViolation)
    else Ok(Unconsume(Log(s1, ReturnRestock, qty, 0, None, order), qty, order, now))
  }

  /** A batch with its own cost, or at the product's cost price when none is given. */
  function AddBatch(s: Stock, qty: int, unitCost: Option<real>, received: int, now: int): Result<Stock, Error> {
    if qty <= 0 then Err(QtyInvalid)
    else
      var s1 := s.(onHand := s.onHand + qty);
      if !RowAllowed(s1) || (unitCost.Some? && Money.Round2(unitCost.value) < 0) then Err(CheckViolation)
      else
        var cost := if unitCost.Some? then Some(Money.Round2(unitCost.value) as nat) else s.cost;
        Ok(RefreshCost(NewLot(Log(s1, PurchaseReceipt, qty, 0, cost, None), qty, cost, received, now)))
  }

  /** A count, written to the ledger under the kind its caller names. */
  function SetOnHand(s: Stock, onHand: int, kind: MoveKind, now: int): Result<Stock, Error> {
    if onHand < 0 then Err(NegativeStock)
    else
      var delta := onHand - s.onHand;
      if delta == 0 then Ok(s)
      else if onHand < s.reserved then Err(BelowReserved)
      else
        var s1 := s.(onHand := onHand);
        if !RowAllowed(s1) then Err(CheckViolation)
        else
          var s2 := Log(s1, kind, delta, 0, None, None);
          Ok(RefreshCost(if delta > 0 then NewLot(s2, delta, s.cost, now, now) else Consume(s2, -delta, None).0))
  }

  // ─── runs ───

  datatype Event =
    | DoReserve(qty: int, order: Option<OrderId>)
    | DoRelease(qty: int, order: Option<OrderId>)
    | DoFulfill(qty: int, order: Option<OrderId>)
    | DoRestock(qty: int, order: Option<OrderId>, now: int)
    | DoAddBatch(qty: int, unitCost: Option<real>, received: int, now: int)
    | DoSetOnHand(onHand: int, kind: MoveKind, now: int)

  function Step(s: Stock, e: Event): Result<Stock, Error> {
    match e
    case DoReserve(qty, order) => if qty <= 0 then Err(QtyInvalid) else Reserve(s, qty, order)
    case DoRelease(qty, order) => if qty <= 0 then Err(QtyInvalid) else Release(s, qty, order)
    case DoFulfill(qty, order) => if qty <= 0 then Err(QtyInvalid) else Fulfill(s, qty, order)
    case DoRestock(qty, order, now) => if qty <= 0 then Err(QtyInvalid) else Restock(s, qty, order, now)
    case DoAddBatch(qty, unitCost, received, now) => AddBatch(s, qty, unitCost, received, now)
    case DoSetOnHand(onHand, kind, now) => SetOnHand(s, onHand, kind, now)
  }

  /** A failed call is rolled back. */
  function Next(s: Stock, e: Event): Stock {
    var r := Step(s, e);
    if r.Ok? then r.value else s
  }

  function Run(s: Stock, events: seq<Event>): Stock
    decreases |events|
  {
    if events == [] then s else Run(Next(s, events[0]), events[1..])
  }
}
