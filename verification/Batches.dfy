/**
 * Dated batches of one product (`stock_lots`) and what orders took from them
 * (`stock_lot_consumptions`), as values.
 *
 * The batches of a product are kept in the order the shop sells them: oldest
 * arrival first, then creation time, then id.
 */
module Batches {
  import opened Prelude

  type LotId = nat
  type OrderId = nat

  datatype Lot = Lot(id: LotId, received: int, created: int, unitCost: Option<nat>, qtyIn: int, qtyLeft: int)

  /** Copies of one batch that left with one order. */
  datatype Use = Use(lotId: LotId, order: OrderId, qty: int, unitCost: Option<nat>, returned: int)

  /** One line of what `consume` reports; `lot` is None for copies no batch knew about. */
  datatype Take = Take(lot: Option<LotId>, qty: int, unitCost: Option<nat>)

  // ─── taking ───

  /** The batches after `need` copies left them, what left each, and how many were found in none. */
  function TakeFrom(lots: seq<Lot>, need: int): (r: (seq<Lot>, seq<Take>, int))
    ensures |r.0| == |lots|
    ensures forall t :: t in r.1 ==> 0 < t.qty && t.lot.Some?
  {
    if lots == [] || need <= 0 then (lots, [], need)
    else if lots[0].qtyLeft <= 0 then
      var (rest, takes, unmet) := TakeFrom(lots[1..], need);
      ([lots[0]] + rest, takes, unmet)
    else
      var take := Min(need, lots[0].qtyLeft);
      var (rest, takes, unmet) := TakeFrom(lots[1..], need - take);
      ([lots[0].(qtyLeft := lots[0].qtyLeft - take)] + rest,
       [Take(Some(lots[0].id), take, lots[0].unitCost)] + takes,
       unmet)
  }

  /** The consumption rows an order's takes leave behind. */
  function UsesOf(takes: seq<Take>, order: OrderId): (uses: seq<Use>)
    ensures |uses| <= |takes|
  {
    if takes == [] then []
    else if takes[0].lot.None? then UsesOf(takes[1..], order)
    else [Use(takes[0].lot.value, order, takes[0].qty, takes[0].unitCost, 0)] + UsesOf(takes[1..], order)
  }

  // ─── giving back ───

  /** `n` more copies in the batch `id`, never above what the batch once held. */
  function AddBack(lots: seq<Lot>, id: LotId, n: int): (r: seq<Lot>)
    ensures |r| == |lots|
  {
    if lots == [] then []
    else if lots[0].id == id then
      [lots[0].(qtyLeft := Min(lots[0].qtyLeft + n, lots[0].qtyIn))] + lots[1..]
    else
      [lots[0]] + AddBack(lots[1..], id, n)
  }

  /** A return walks the order's consumptions newest first and refills the batches they name. */
  function GiveBack(lots: seq<Lot>, uses: seq<Use>, order: OrderId, left: int): (r: (seq<Lot>, seq<Use>, int))
    ensures |r.0| == |lots| && |r.1| == |uses|
    decreases |uses|
  {
    if uses == [] || left <= 0 then (lots, uses, left)
    else
      var n := |uses| - 1;
      var u := uses[n];
      var back := Min(left, u.qty - u.returned);
      if u.order != order || back <= 0 then
        var (lots', uses', left') := GiveBack(lots, uses[..n], order, left);
        (lots', uses' + [u], left')
      else
        var (lots', uses', left') := GiveBack(AddBack(lots, u.lotId, back), uses[..n], order, left - back);
        (lots', uses' + [u.(returned := u.returned + back)], left')
  }

  // ─── arrivals ───

  predicate Earlier(a: Lot, b: Lot) {
    a.received < b.received
    || (a.received == b.received && a.created < b.created)
    || (a.received == b.received && a.created == b.created && a.id < b.id)
  }

  /** A new batch takes its place in selling order. */
  function Arrive(lots: seq<Lot>, lot: Lot): (r: seq<Lot>)
    ensures |r| == |lots| + 1
    ensures forall l :: l in r <==> l in lots || l == lot
  {
    if lots != [] && Earlier(lots[0], lot) then [lots[0]] + Arrive(lots[1..], lot)
    else [lot] + lots
  }

  ghost predicate InSellingOrder(lots: seq<Lot>) {
    forall i, j :: 0 <= i < j < |lots| ==> Earlier(lots[i], lots[j])
  }

  // ─── counting ───

  /** Copies the batches know about. */
  function Total(lots: seq<Lot>): int {
    if lots == [] then 0 else lots[0].qtyLeft + Total(lots[1..])
  }

  /** Copies left in the batch `id`. */
  function Left(lots: seq<Lot>, id: LotId): int {
    if lots == [] then 0 else (if lots[0].id == id then lots[0].qtyLeft else 0) + Left(lots[1..], id)
  }

  /** Copies the batch `id` arrived with. */
  function Arrived(lots: seq<Lot>, id: LotId): int {
    if lots == [] then 0 else (if lots[0].id == id then lots[0].qtyIn else 0) + Arrived(lots[1..], id)
  }

  /** Copies of batch `id` that are out with any order. */
  function Out(uses: seq<Use>, id: LotId): int {
    if uses == [] then 0
    else
      var u := uses[|uses| - 1];
      Out(uses[..|uses| - 1], id) + if u.lotId == id then u.qty - u.returned else 0
  }

  /** Copies of batch `id` that are out with this order. */
  function OutWith(uses: seq<Use>, order: OrderId, id: LotId): int {
    if uses == [] then 0
    else
      var u := uses[|uses| - 1];
      OutWith(uses[..|uses| - 1], order, id) + if u.order == order && u.lotId == id then u.qty - u.returned else 0
  }

  /** Copies out with this order, over all batches. */
  function Outstanding(uses: seq<Use>, order: OrderId): int {
    if uses == [] then 0
    else
      var u := uses[|uses| - 1];
      Outstanding(uses[..|uses| - 1], order) + if u.order == order then u.qty - u.returned else 0
  }

  function Taken(takes: seq<Take>): (n: int)
    ensures (forall t :: t in takes ==> 0 < t.qty) ==> n >= 0 && (takes != [] ==> n > 0)
  {
    if takes == [] then 0 else takes[0].qty + Taken(takes[1..])
  }

  function TakenOf(takes: seq<Take>, id: LotId): int {
    if takes == [] then 0
    else (if takes[0].lot == Some(id) then takes[0].qty else 0) + TakenOf(takes[1..], id)
  }

  // ─── what is true of every batch table ───

  ghost predicate DistinctIds(lots: seq<Lot>) {
    forall i, j :: 0 <= i < j < |lots| ==> lots[i].id != lots[j].id
  }

  ghost predicate UseOk(u: Use) {
    0 < u.qty && 0 <= u.returned <= u.qty
  }

  ghost predicate Accounted(lots: seq<Lot>, uses: seq<Use>, id: LotId) {
    Left(lots, id) + Out(uses, id) <= Arrived(lots, id)
  }

  /**
   * Every batch holds a non-negative number of copies, and the copies left in
   * it plus those out with orders are no more than arrived with it.
   */
  ghost predicate Sound(lots: seq<Lot>, uses: seq<Use>) {
    && DistinctIds(lots)
    && (forall l :: l in lots ==> 0 <= l.qtyLeft)
    && (forall u :: u in uses ==> UseOk(u))
    && (forall id: LotId :: Accounted(lots, uses, id))
  }
}
