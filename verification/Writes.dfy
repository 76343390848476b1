/**
 * What a call writes besides the counters: its row in the ledger, the batch it
 * opens, and what a delivery makes of the cost price.
 */
module Writes {
  import opened Prelude
  import opened Batches
  import opened BatchLaws
  import opened Shelf
  import opened ShelfLaws
  import opened CostLaws
  import Money

  // ─── the ledger row ───

  function KindOf(e: Event): MoveKind {
    match e
    case DoReserve(_, _) => OrderReserve
    case DoRelease(_, _) => OrderRelease
    case DoFulfill(_, _) => OrderFulfill
    case DoRestock(_, _, _) => ReturnRestock
    case DoAddBatch(_, _, _, _) => PurchaseReceipt
    case DoSetOnHand(_, kind, _) => kind
  }

  function OrderOf(e: Event): Option<OrderId> {
    if e.DoAddBatch? || e.DoSetOnHand? then None else e.order
  }

  /** What a delivered copy costs: the stated cost rounded to paisa, or the cost price of the product. */
  function DeliveryCost(s: Stock, unitCost: Option<real>): Option<nat>
    requires unitCost.Some? ==> Money.Round2(unitCost.value) >= 0
  {
    if unitCost.Some? then Some(Money.Round2(unitCost.value) as nat) else s.cost
  }

  predicate Changes(s: Stock, e: Event) {
    Step(s, e).Ok? && (e.DoSetOnHand? ==> e.onHand != s.onHand)
  }

  ghost predicate AddsRow(s: Stock, s': Stock, kind: MoveKind, onHandDelta: int, reservedDelta: int,
                          unitCost: Option<nat>, order: Option<OrderId>) {
    s'.moves == s.moves + [Move(kind, onHandDelta, reservedDelta, unitCost, s'.onHand, order)]
  }

  lemma SaleRow(s: Stock, qty: int, order: Option<OrderId>)
    requires Fulfill(s, qty, order).Ok?
    ensures AddsRow(s, Fulfill(s, qty, order).value, OrderFulfill, -qty, -qty, None, order)
  {}

  lemma ReturnRow(s: Stock, qty: int, order: Option<OrderId>, now: int)
    requires Restock(s, qty, order, now).Ok?
    ensures AddsRow(s, Restock(s, qty, order, now).value, ReturnRestock, qty, 0, None, order)
  {}

  lemma DeliveryRow(s: Stock, qty: int, unitCost: Option<real>, received: int, now: int)
    requires AddBatch(s, qty, unitCost, received, now).Ok?
    ensures unitCost.Some? ==> Money.Round2(unitCost.value) >= 0
    ensures AddsRow(s, AddBatch(s, qty, unitCost, received, now).value,
                    PurchaseReceipt, qty, 0, DeliveryCost(s, unitCost), None)
  {}

  lemma CountRow(s: Stock, onHand: int, kind: MoveKind, now: int)
    requires SetOnHand(s, onHand, kind, now).Ok? && onHand != s.onHand
    ensures AddsRow(s, SetOnHand(s, onHand, kind, now).value, kind, onHand - s.onHand, 0, None, None)
  {
    if onHand < s.onHand {
      CountDownIsConsume(s, onHand, kind, now, s.onHand - onHand);
    }
  }

  /** Only a delivery's row says what a copy cost. */
  function CostLogged(s: Stock, e: Event): Option<nat>
    requires e.DoAddBatch? && e.unitCost.Some? ==> Money.Round2(e.unitCost.value) >= 0
  {
    if e.DoAddBatch? then DeliveryCost(s, e.unitCost) else None
  }

  /** Every call that changes something writes one ledger row, of its own kind and order and with its own deltas. */
  lemma OneRowPerCall(s: Stock, e: Event)
    requires Changes(s, e)
    ensures e.DoAddBatch? && e.unitCost.Some? ==> Money.Round2(e.unitCost.value) >= 0
    ensures AddsRow(s, Step(s, e).value, KindOf(e), OnHandChange(s, e), ReservedLogged(e), CostLogged(s, e), OrderOf(e))
  {
    match e
    case DoReserve(qty, order) =>
    case DoRelease(qty, order) =>
    case DoFulfill(qty, order) => SaleRow(s, qty, order);
    case DoRestock(qty, order, now) => ReturnRow(s, qty, order, now);
    case DoAddBatch(qty, unitCost, received, now) => DeliveryRow(s, qty, unitCost, received, now);
    case DoSetOnHand(onHand, kind, now) => CountRow(s, onHand, kind, now);
  }

  /** The row a call that changes something writes. */
  function RowOf(s: Stock, e: Event): Move
    requires e.DoAddBatch? && e.unitCost.Some? ==> Money.Round2(e.unitCost.value) >= 0
  {
    Move(KindOf(e), OnHandChange(s, e), ReservedLogged(e), CostLogged(s, e), s.onHand + OnHandChange(s, e), OrderOf(e))
  }

  /** The rows of a run: one for each call that succeeds and changes something, in the order of the calls. */
  function Rows(s: Stock, events: seq<Event>): seq<Move>
    decreases |events|
  {
    if events == [] then []
    else
      var e := events[0];
      (if Changes(s, e) then OneRowPerCall(s, e); [RowOf(s, e)] else []) + Rows(Next(s, e), events[1..])
  }

  /** The ledger after any run is the ledger before and the rows of the run, nothing else and nothing rewritten. */
  lemma {:induction false} LedgerIsHistory(s: Stock, events: seq<Event>)
    requires Valid(s)
    ensures Run(s, events).moves == s.moves + Rows(s, events)
    decreases |events|
  {
    if events != [] {
      var e := events[0];
      StepKeepsValid(s, e);
      StepWrites(s, e);
      LedgerIsHistory(Next(s, e), events[1..]);
    }
  }

  lemma StepWrites(s: Stock, e: Event)
    requires Valid(s)
    ensures !Changes(s, e) ==> Next(s, e).moves == s.moves
    ensures Changes(s, e) ==>
              && (e.DoAddBatch? && e.unitCost.Some? ==> Money.Round2(e.unitCost.value) >= 0)
              && Next(s, e).moves == s.moves + [RowOf(s, e)]
  {
    if Changes(s, e) {
      OneRowPerCall(s, e);
      StepEffect(s, e);
    }
  }

  // ─── the batch that is opened ───

  /** `after` is `before` with one more batch somewhere. */
  ghost predicate OneMore(before: seq<Lot>, lot: Lot, after: seq<Lot>) {
    exists k :: 0 <= k <= |before| && after == before[..k] + [lot] + before[k..]
  }

  lemma {:induction false} ArriveIsOneMore(lots: seq<Lot>, lot: Lot)
    ensures OneMore(lots, lot, Arrive(lots, lot))
  {
    var after := Arrive(lots, lot);
    if lots != [] && Earlier(lots[0], lot) {
      var rest := lots[1..];
      ArriveIsOneMore(rest, lot);
      var k :| 0 <= k <= |rest| && Arrive(rest, lot) == rest[..k] + [lot] + rest[k..];
      assert after == lots[..k + 1] + [lot] + lots[k + 1..];
    } else {
      assert after == lots[..0] + [lot] + lots[0..];
    }
  }

  /** A delivery opens one batch, in its place in selling order, and touches no other. */
  lemma DeliveryOpensOneBatch(s: Stock, qty: int, unitCost: Option<real>, received: int, now: int)
    requires AddBatch(s, qty, unitCost, received, now).Ok?
    ensures unitCost.Some? ==> Money.Round2(unitCost.value) >= 0
    ensures var s' := AddBatch(s, qty, unitCost, received, now).value;
            && OneMore(s.lots, Lot(s.nextLot, received, now, DeliveryCost(s, unitCost), qty, qty), s'.lots)
            && (InSellingOrder(s.lots) && (forall l :: l in s.lots ==> l.id < s.nextLot) ==> InSellingOrder(s'.lots))
            && s'.uses == s.uses && s'.nextLot == s.nextLot + 1
  {
    var lot := Lot(s.nextLot, received, now, DeliveryCost(s, unitCost), qty, qty);
    ArriveIsOneMore(s.lots, lot);
    if InSellingOrder(s.lots) && forall l :: l in s.lots ==> l.id < s.nextLot {
      ArriveInOrder(s.lots, lot);
    }
  }

  /** A count upwards opens one batch of the copies found, dated now and at the cost price. */
  lemma CountUpOpensOneBatch(s: Stock, onHand: int, kind: MoveKind, now: int)
    requires onHand > s.onHand && SetOnHand(s, onHand, kind, now).Ok?
    ensures var s' := SetOnHand(s, onHand, kind, now).value;
            var found := onHand - s.onHand;
            && OneMore(s.lots, Lot(s.nextLot, now, now, s.cost, found, found), s'.lots)
            && s'.uses == s.uses && s'.nextLot == s.nextLot + 1
  {
    var found := onHand - s.onHand;
    ArriveIsOneMore(s.lots, Lot(s.nextLot, now, now, s.cost, found, found));
  }

  /** What the order still has out; nothing when no order is named. */
  function StillOut(s: Stock, order: Option<OrderId>): int {
    if order.Some? then Outstanding(s.uses, order.value) else 0
  }

  /**
   * A return refills batches as far as the order has copies out.  Copies
   * beyond that open one batch, dated now and at the cost price; without them
   * no batch is opened.
   */
  lemma ReturnBeyondKnownOpensOneBatch(s: Stock, qty: int, order: Option<OrderId>, now: int)
    returns (refilled: seq<Lot>)
    requires Valid(s) && 0 < qty && Restock(s, qty, order, now).Ok?
    ensures SameBatches(s.lots, refilled) && 0 <= StillOut(s, order)
    ensures Total(refilled) == Total(s.lots) + Min(qty, StillOut(s, order))
    ensures OpensFor(refilled, s, qty - Min(qty, StillOut(s, order)), now, Restock(s, qty, order, now).value.lots)
  {
    var extra;
    refilled, extra := Refilled(s, qty, order);
    RestockOpens(s, qty, order, now, refilled, extra);
  }

  /** The batches a return refills, and how many copies it finds no batch for. */
  lemma Refilled(s: Stock, qty: int, order: Option<OrderId>) returns (refilled: seq<Lot>, extra: int)
    requires Valid(s) && 0 < qty
    ensures GivesBack(s, qty, order, refilled, extra)
    ensures SameBatches(s.lots, refilled) && 0 <= StillOut(s, order)
    ensures Total(refilled) == Total(s.lots) + Min(qty, StillOut(s, order))
    ensures extra == qty - Min(qty, StillOut(s, order))
  {
    refilled, extra := s.lots, qty;
    if order.Some? {
      GiveBackTotals(s.lots, s.uses, order.value, qty);
      GiveBackKeepsBatches(s.lots, s.uses, order.value, qty);
      GiveBackOutstanding(s.lots, s.uses, order.value, qty);
      var (lots, _, left) := GiveBack(s.lots, s.uses, order.value, qty);
      refilled, extra := lots, left;
    }
  }

  predicate GivesBack(s: Stock, qty: int, order: Option<OrderId>, refilled: seq<Lot>, extra: int) {
    match order
    case None => refilled == s.lots && extra == qty
    case Some(o) => var (lots, _, left) := GiveBack(s.lots, s.uses, o, qty); refilled == lots && extra == left
  }

  /** No batch for no copies, one for some. */
  ghost predicate OpensFor(refilled: seq<Lot>, s: Stock, extra: int, now: int, after: seq<Lot>) {
    if extra <= 0 then after == refilled
    else OneMore(refilled, Lot(s.nextLot, now, now, s.cost, extra, extra), after)
  }

  lemma RestockOpens(s: Stock, qty: int, order: Option<OrderId>, now: int, refilled: seq<Lot>, extra: int)
    requires Restock(s, qty, order, now).Ok? && GivesBack(s, qty, order, refilled, extra)
    ensures OpensFor(refilled, s, extra, now, Restock(s, qty, order, now).value.lots)
  {
    ArriveIsOneMore(refilled, Lot(s.nextLot, now, now, s.cost, extra, extra));
  }

  // ─── the cost price ───

  /** The rounded average cost of the costed copies in the batches and `qty` more at `unitCost`. */
  function Averaged(lots: seq<Lot>, unitCost: nat, qty: nat): Option<int>
    requires 0 < qty
  {
    Some(Money.Round2((CostedValue(lots) + unitCost * qty) as real / (CostedQty(lots) + qty) as real))
  }

  /** A delivery at a cost makes the cost price the rounded average of what was on the shelf and what arrived. */
  lemma DeliveryAverages(s: Stock, qty: int, unitCost: real, received: int, now: int)
    requires Valid(s) && AddBatch(s, qty, Some(unitCost), received, now).Ok?
    ensures 0 < qty && Money.Round2(unitCost) >= 0
    ensures AddBatch(s, qty, Some(unitCost), received, now).value.cost
         == Averaged(s.lots, Money.Round2(unitCost), qty)
  {
    var lot := Lot(s.nextLot, received, now, Some(Money.Round2(unitCost) as nat), qty, qty);
    ArrivalAverages(s.lots, lot, s.cost);
  }

  lemma ArrivalAverages(lots: seq<Lot>, lot: Lot, before: Option<nat>)
    requires lot.unitCost.Some? && 0 < lot.qtyLeft
    ensures CurrentCost(Arrive(lots, lot), before)
         == Averaged(lots, lot.unitCost.value, lot.qtyLeft)
  {
    ArriveCost(lots, lot);
    HalfUpIsRound2(CostedValue(lots) + lot.unitCost.value * lot.qtyLeft, CostedQty(lots) + lot.qtyLeft);
  }

  // ─── the sold count ───

  function SoldChange(e: Event): int {
    match e
    case DoFulfill(qty, _) => qty
    case DoRestock(qty, _, _) => -qty
    case _ => 0
  }

  /**
   * The sold count is sales less returns, cut at zero: exactly so while no
   * more is returned than was counted as sold.
   */
  lemma SoldFollowsIff(s: Stock, e: Event)
    requires Valid(s) && 0 <= s.sold && Step(s, e).Ok?
    ensures Next(s, e).sold == Max(0, s.sold + SoldChange(e))
    ensures Next(s, e).sold == s.sold + SoldChange(e) <==> (e.DoRestock? ==> e.qty <= s.sold)
  {
    OkCallsArePositive(s, e);
    if e.DoSetOnHand? && e.onHand < s.onHand {
      CountDownIsConsume(s, e.onHand, e.kind, e.now, s.onHand - e.onHand);
    }
  }
}
