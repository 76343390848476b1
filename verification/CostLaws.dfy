/** The cost price of a product, and the unit cost stamped on an order. */
module CostLaws {
  import opened Prelude
  import opened Batches
  import opened BatchLaws
  import opened Shelf
  import opened ShelfLaws
  import opened Returns
  import opened FifoQueue
  import opened Reals
  import Money

  // ─── rounding ───

  lemma StrictlyLess(a: int, b: int, d: int)
    requires d > 0
    ensures a < b ==> a * d + d <= b * d
    ensures a <= b ==> a * d <= b * d
  {
    if a < b {
      assert (b - a - 1) * d >= 0;
      assert b * d == (b - a - 1) * d + a * d + d;
    }
  }

  lemma HalfUpBounds(num: nat, den: nat)
    requires den > 0
    ensures var h := HalfUp(num, den); 2 * (h * den) <= 2 * num + den < 2 * (h * den) + 2 * den
  {
    var h := HalfUp(num, den);
    var r := (2 * num + den) % (2 * den);
    assert 2 * num + den == (2 * den) * h + r;
    assert (2 * den) * h == 2 * (h * den);
  }

  /** The number whose rounding bracket a quotient falls in is its rounding. */
  lemma HalfUpUnique(num: nat, den: nat, h: nat)
    requires den > 0 && 2 * (h * den) <= 2 * num + den < 2 * (h * den) + 2 * den
    ensures HalfUp(num, den) == h
  {
    HalfUpBounds(num, den);
    StrictlyLess(HalfUp(num, den), h, den);
    StrictlyLess(h, HalfUp(num, den), den);
  }

  /** A rounded average lies between any two whole bounds of the exact one. */
  lemma HalfUpBetween(num: nat, den: nat, low: nat, high: nat)
    requires den > 0 && low * den <= num <= high * den
    ensures low <= HalfUp(num, den) <= high
  {
    HalfUpBounds(num, den);
    StrictlyLess(HalfUp(num, den), low, den);
    StrictlyLess(high, HalfUp(num, den), den);
  }

  /** The integer rounding of the cost columns is the money rounding of the exact quotient. */
  lemma HalfUpIsRound2(num: nat, den: nat)
    requires den > 0
    ensures HalfUp(num, den) == Money.Round2(num as real / den as real)
  {
    HalfUpBounds(num, den);
    var h, d, v := HalfUp(num, den), den as real, num as real / den as real;
    QuotientTimes(num as real, d);
    Bracketed(h, num, den, v);
    NonNegativeQuotient(num as real, d);
  }

  lemma Bracketed(h: nat, num: nat, den: nat, v: real)
    requires den > 0 && v * den as real == num as real
    requires 2 * (h * den) <= 2 * num + den < 2 * (h * den) + 2 * den
    ensures h as real - 0.5 <= v < h as real + 0.5
  {
    var d, p := den as real, h * den;
    assert p as real == h as real * d;
    var above, below := v - h as real + 0.5, h as real + 0.5 - v;
    Distribute(v, h as real, 0.5, d);
    Distribute(h as real, v, 0.5, d);
    SignOfProduct(above, d);
    SignOfProduct(below, d);
  }

  lemma Distribute(a: real, b: real, c: real, d: real)
    ensures (a - b + c) * d == a * d - b * d + c * d
    ensures (a + c - b) * d == a * d - b * d + c * d
  {}

  // ─── the cached cost price ───

  /** The calls that look at the batches and refresh the cost price: those that succeed and move copies. */
  predicate Refreshes(s: Stock, e: Event) {
    Step(s, e).Ok? && !e.DoReserve? && !e.DoRelease? && (e.DoSetOnHand? ==> e.onHand != s.onHand)
  }

  /** A refreshed cost price is the average of the shelf, whatever it was before. */
  lemma RefreshedIsCurrent(lots: seq<Lot>, before: Option<nat>)
    ensures CurrentCost(lots, before) == CurrentCost(lots, CurrentCost(lots, before))
  {}

  /**
   * After a call the cost price is the average of the shelf if and only if the
   * call refreshed it or it was before: a cost price entered by hand stays
   * until copies move.
   */
  lemma StepCostCurrentIff(s: Stock, e: Event)
    ensures CostCurrent(Next(s, e)) <==> Refreshes(s, e) || CostCurrent(s)
  {
    if Refreshes(s, e) {
      var s' := Next(s, e);
      match e
      case DoFulfill(qty, order) => FulfillTables(s, qty, order);
      case DoRestock(qty, order, now) => RestockCost(s, qty, order, now);
      case DoAddBatch(qty, unitCost, received, now) =>
      case DoSetOnHand(onHand, kind, now) =>
      RefreshedIsCurrent(s'.lots, s.cost);
    }
  }

  predicate EverRefreshes(s: Stock, events: seq<Event>)
    decreases |events|
  {
    events != [] && (Refreshes(s, events[0]) || EverRefreshes(Next(s, events[0]), events[1..]))
  }

  lemma {:induction false} RunCostCurrentIff(s: Stock, events: seq<Event>)
    ensures CostCurrent(Run(s, events)) <==> EverRefreshes(s, events) || CostCurrent(s)
    decreases |events|
  {
    if events != [] {
      StepCostCurrentIff(s, events[0]);
      RunCostCurrentIff(Next(s, events[0]), events[1..]);
    }
  }

  predicate OnShelf(l: Lot) {
    l.qtyLeft > 0 && l.unitCost.Some?
  }

  lemma {:induction false} NothingCosted(lots: seq<Lot>)
    requires forall l :: l in lots ==> !OnShelf(l)
    ensures CostedQty(lots) == 0
  {
    if lots != [] {
      assert lots[0] in lots;
      NothingCosted(lots[1..]);
    }
  }

  /** A call that leaves no copy of known cost on the shelf leaves the cost price as it was. */
  lemma PriceStaysWithoutCosts(s: Stock, e: Event)
    requires forall l :: l in Next(s, e).lots ==> !OnShelf(l)
    ensures Next(s, e).cost == s.cost
  {
    NothingCosted(Next(s, e).lots);
    if Refreshes(s, e) {
      match e
      case DoFulfill(qty, order) => FulfillTables(s, qty, order);
      case DoRestock(qty, order, now) => RestockCost(s, qty, order, now);
      case DoAddBatch(qty, unitCost, received, now) =>
      case DoSetOnHand(onHand, kind, now) =>
    }
  }

  ghost predicate CostsWithin(lots: seq<Lot>, low: nat, high: nat) {
    forall l :: l in lots && OnShelf(l) ==> low <= l.unitCost.value <= high
  }

  lemma ValueGrows(low: nat, c: nat, high: nat, q: nat, rest: nat)
    requires low <= c <= high
    ensures low * (q + rest) - low * rest <= c * q <= high * (q + rest) - high * rest
  {
    assert low * (q + rest) == low * q + low * rest;
    assert high * (q + rest) == high * q + high * rest;
    assert low * q <= c * q && c * q <= high * q;
  }

  lemma {:induction false} ValueWithin(lots: seq<Lot>, low: nat, high: nat)
    requires CostsWithin(lots, low, high)
    ensures low * CostedQty(lots) <= CostedValue(lots) <= high * CostedQty(lots)
  {
    if lots != [] {
      ValueWithin(lots[1..], low, high);
      var l := lots[0];
      if OnShelf(l) {
        assert l in lots;
        ValueGrows(low, l.unitCost.value, high, l.qtyLeft, CostedQty(lots[1..]));
      }
    }
  }

  /**
   * After any run that moved copies, or that began with a current cost price,
   * while a costed copy is on the shelf, the cost price is the half-up rounded
   * weighted average of those copies, and so lies between the cheapest and the
   * dearest of them.
   */
  lemma CostPriceIsAverage(s: Stock, events: seq<Event>, low: nat, high: nat)
    requires EverRefreshes(s, events) || CostCurrent(s)
    requires CostedQty(Run(s, events).lots) > 0 && CostsWithin(Run(s, events).lots, low, high)
    ensures var lots := Run(s, events).lots;
            && Run(s, events).cost.Some?
            && Run(s, events).cost.value == Money.Round2(CostedValue(lots) as real / CostedQty(lots) as real)
            && low <= Run(s, events).cost.value <= high
  {
    var lots := Run(s, events).lots;
    RunCostCurrentIff(s, events);
    ValueWithin(lots, low, high);
    HalfUpBetween(CostedValue(lots), CostedQty(lots), low, high);
    HalfUpIsRound2(CostedValue(lots), CostedQty(lots));
  }

  lemma {:induction false} ArriveCost(lots: seq<Lot>, lot: Lot)
    ensures CostedQty(Arrive(lots, lot)) == CostedQty(lots) + if OnShelf(lot) then lot.qtyLeft else 0
    ensures CostedValue(Arrive(lots, lot))
         == CostedValue(lots) + if OnShelf(lot) then lot.unitCost.value * lot.qtyLeft else 0
  {
    if lots != [] && Earlier(lots[0], lot) {
      ArriveCost(lots[1..], lot);
    }
  }

  /** Adding `q` copies at the rounded average `c` of `n` copies worth `v` leaves the rounded average at `c`. */
  lemma RoundedAverageIsStable(v: nat, n: nat, c: nat, q: nat)
    requires n + q > 0 && (if n == 0 then v == 0 else c == HalfUp(v, n))
    ensures HalfUp(v + c * q, n + q) == c
  {
    if n > 0 {
      HalfUpBounds(v, n);
    }
    assert c * (n + q) == c * n + c * q;
    HalfUpUnique(v + c * q, n + q, c);
  }

  /** Copies that arrive at the current cost price leave the cost price where it is. */
  lemma ArrivalAtCostPriceIsNeutral(s: Stock, lot: Lot)
    requires CostCurrent(s) && lot.unitCost == s.cost && lot.qtyLeft > 0
    ensures CurrentCost(Arrive(s.lots, lot), s.cost) == s.cost
  {
    ArriveCost(s.lots, lot);
    if s.cost.Some? {
      if CostedQty(s.lots) == 0 {
        NoCostedCopies(s.lots);
      }
      RoundedAverageIsStable(CostedValue(s.lots), CostedQty(s.lots), s.cost.value, lot.qtyLeft);
    }
  }

  lemma {:induction false} NoCostedCopies(lots: seq<Lot>)
    requires CostedQty(lots) == 0
    ensures CostedValue(lots) == 0
  {
    if lots != [] {
      NoCostedCopies(lots[1..]);
    }
  }

  /** A delivery entered without a cost, or a count upwards, does not move the cost price. */
  lemma UncostedArrivalKeepsCostPrice(s: Stock, e: Event)
    requires CostCurrent(s) && Step(s, e).Ok?
    requires (e.DoAddBatch? && e.unitCost.None?) || (e.DoSetOnHand? && e.onHand >= s.onHand)
    ensures Next(s, e).cost == s.cost
  {
    if e.DoAddBatch? {
      ArrivalAtCostPriceIsNeutral(s, Lot(s.nextLot, e.received, e.now, s.cost, e.qty, e.qty));
    } else if e.onHand > s.onHand {
      var delta := e.onHand - s.onHand;
      ArrivalAtCostPriceIsNeutral(s, Lot(s.nextLot, e.now, e.now, s.cost, delta, delta));
    }
  }

  // ─── the stamped order cost ───

  /** What the copies of a sale cost, copy by copy. */
  lemma {:induction false} UsedValueIsCopyValue(takes: seq<Take>)
    requires forall t :: t in takes ==> 0 < t.qty && t.lot.Some?
    ensures UsedValue(takes) == Value(CopiesTaken(takes))
    ensures Taken(takes) == |CopiesTaken(takes)|
  {
    if takes != [] {
      var t := takes[0];
      var c := Copy(t.lot.value, t.unitCost);
      assert t in takes;
      UsedValueIsCopyValue(takes[1..]);
      CopiesValue(t.qty, c);
      ValueAppend(Copies(t.qty, c), CopiesTaken(takes[1..]));
    }
  }

  lemma {:induction false} CopiesValue(n: nat, c: Copy)
    ensures Value(Copies(n, c)) == if c.unitCost.Some? then c.unitCost.value * n else 0
  {
    if n > 0 {
      CopiesValue(n - 1, c);
      if c.unitCost.Some? {
        assert c.unitCost.value * n == c.unitCost.value + c.unitCost.value * (n - 1);
      }
    }
  }

  /** A unit cost times the units is off an exact cost by at most half a paisa per unit. */
  predicate WithinHalfAPaisa(unitCost: nat, units: int, exact: int) {
    -units <= 2 * (unitCost * units - exact) <= units
  }

  lemma RoundedUnitCost(value: nat, units: nat)
    requires units > 0
    ensures WithinHalfAPaisa(HalfUp(value, units), units, value)
  {
    HalfUpBounds(value, units);
  }

  /**
   * A sale covered by costed batches stamps the order with a unit cost which,
   * over the units sold, is off the cost of the very copies that left the
   * queue by at most half a paisa per unit.
   */
  lemma StampedCostIsFifoCost(s: Stock, qty: int, order: OrderId)
    requires Valid(s) && 0 < qty <= Total(s.lots) && Fulfill(s, qty, Some(order)).Ok?
    requires AllCosted(TakeFrom(s.lots, qty).1)
    ensures var sold := Fulfill(s, qty, Some(order)).value;
            && qty <= |Queue(s.lots)|
            && order in sold.stamped && sold.stamped == s.stamped[order := sold.stamped[order]]
            && WithinHalfAPaisa(sold.stamped[order], qty, Value(Queue(s.lots)[..qty]))
  {
    var takes := TakeFrom(s.lots, qty).1;
    CostOfSale(s.lots, qty);
    StampOf(s, qty, order);
    RoundedUnitCost(UsedValue(takes), qty);
  }

  /** The takes of a sale are worth the copies that left the queue. */
  lemma CostOfSale(lots: seq<Lot>, qty: int)
    requires NonNegative(lots) && 0 <= qty
    ensures var (_, takes, unmet) := TakeFrom(lots, qty);
            var m := Min(qty, |Queue(lots)|);
            && |Queue(lots)| == Total(lots)
            && UsedValue(takes) == Value(Queue(lots)[..m])
            && Taken(takes) == m && unmet == qty - m
  {
    ConsumeIsQueue(lots, qty);
    QueueLength(lots);
    UsedValueIsCopyValue(TakeFrom(lots, qty).1);
  }

  lemma StampOf(s: Stock, qty: int, order: OrderId)
    requires 0 < qty && Fulfill(s, qty, Some(order)).Ok?
    requires TakeFrom(s.lots, qty).2 <= 0 && AllCosted(TakeFrom(s.lots, qty).1) && Taken(TakeFrom(s.lots, qty).1) == qty
    ensures var sold := Fulfill(s, qty, Some(order)).value;
            order in sold.stamped && sold.stamped[order] == HalfUp(UsedValue(TakeFrom(s.lots, qty).1), qty)
  {}

  /**
   * With a shortfall the missing copies are costed at the cost price of before
   * the sale; a copy without a known cost leaves the order's stamps alone.
   */
  lemma ShortfallStamp(s: Stock, qty: int, order: OrderId)
    requires Valid(s) && Total(s.lots) < qty && Fulfill(s, qty, Some(order)).Ok?
    ensures var sold := Fulfill(s, qty, Some(order)).value;
            if s.cost.Some? && AllCosted(TakeFrom(s.lots, qty).1) then
              && order in sold.stamped
              && WithinHalfAPaisa(sold.stamped[order], qty, Value(Queue(s.lots)) + s.cost.value * (qty - Total(s.lots)))
            else sold.stamped == s.stamped
  {
    var (_, takes, unmet) := TakeFrom(s.lots, qty);
    NonNegativeTotal(s.lots);
    CostOfSale(s.lots, qty);
    assert Queue(s.lots)[..|Queue(s.lots)|] == Queue(s.lots);
    var extra := Take(None, unmet, s.cost);
    var used := takes + [extra];
    UsedAppend(takes, extra);
    CostedAppend(takes, extra);
    ShortStampOf(s, qty, order, used);
    if AllCosted(used) {
      RoundedUnitCost(UsedValue(used), qty);
    }
  }

  lemma CostedAppend(takes: seq<Take>, t: Take)
    ensures AllCosted(takes + [t]) <==> AllCosted(takes) && t.unitCost.Some?
  {
    var used := takes + [t];
    assert used[|takes|] == t;
    assert forall i :: 0 <= i < |takes| ==> used[i] == takes[i];
  }

  lemma ShortStampOf(s: Stock, qty: int, order: OrderId, used: seq<Take>)
    requires 0 < qty && Fulfill(s, qty, Some(order)).Ok? && TakeFrom(s.lots, qty).2 > 0
    requires used == TakeFrom(s.lots, qty).1 + [Take(None, TakeFrom(s.lots, qty).2, s.cost)] && Taken(used) == qty
    ensures var sold := Fulfill(s, qty, Some(order)).value;
            sold.stamped == if AllCosted(used) then s.stamped[order := HalfUp(UsedValue(used), qty)] else s.stamped
  {}

  lemma {:induction false} UsedAppend(takes: seq<Take>, t: Take)
    ensures Taken(takes + [t]) == Taken(takes) + t.qty
    ensures UsedValue(takes + [t]) == UsedValue(takes) + if t.unitCost.Some? then t.unitCost.value * t.qty else 0
  {
    if takes == [] {
      assert takes + [t] == [t];
    } else {
      UsedAppend(takes[1..], t);
      assert (takes + [t])[1..] == takes[1..] + [t];
    }
  }
}
