/** What every change to a product's stock keeps, and when the database refuses one. */
module ShelfLaws {
  import opened Prelude
  import opened Batches
  import opened BatchLaws
  import opened Shelf
  import Money

  // ─── the invariant ───

  ghost predicate BatchesOk(s: Stock) {
    && Sound(s.lots, s.uses)
    && InSellingOrder(s.lots)
    && forall l :: l in s.lots ==> l.id < s.nextLot
  }

  ghost predicate Valid(s: Stock) {
    RowAllowed(s) && 0 <= s.sold && BatchesOk(s)
  }

  lemma SameBatchesKeepOrder(a: seq<Lot>, b: seq<Lot>, next: LotId)
    requires SameBatches(a, b)
    ensures InSellingOrder(a) ==> InSellingOrder(b)
    ensures (forall l :: l in a ==> l.id < next) ==> forall l :: l in b ==> l.id < next
  {
    if InSellingOrder(a) {
      forall i, j | 0 <= i < j < |b|
        ensures Earlier(b[i], b[j])
      {
        assert SameBatch(a[i], b[i]) && SameBatch(a[j], b[j]);
      }
    }
    if forall l :: l in a ==> l.id < next {
      forall i | 0 <= i < |b|
        ensures b[i].id < next
      {
        assert SameBatch(a[i], b[i]) && a[i] in a;
      }
    }
  }

  lemma ConsumeKeeps(s: Stock, qty: int, order: Option<OrderId>)
    requires BatchesOk(s) && qty >= 0
    ensures BatchesOk(Consume(s, qty, order).0)
    ensures Total(Consume(s, qty, order).0.lots) == Total(s.lots) - Min(qty, Total(s.lots))
  {
    var lots := TakeFrom(s.lots, qty).0;
    TakeKeepsSound(s.lots, s.uses, qty, if order.Some? then order.value else 0);
    TakeKeepsBatches(s.lots, qty);
    SameBatchesKeepOrder(s.lots, lots, s.nextLot);
    TakeAccounts(s.lots, qty);
  }

  lemma NewLotKeeps(s: Stock, qty: int, unitCost: Option<nat>, received: int, now: int)
    requires BatchesOk(s) && qty >= 0
    ensures BatchesOk(NewLot(s, qty, unitCost, received, now))
    ensures Total(NewLot(s, qty, unitCost, received, now).lots) == Total(s.lots) + qty
  {
    var lot := Lot(s.nextLot, received, now, unitCost, qty, qty);
    assert forall l :: l in s.lots ==> l.id != lot.id;
    ArriveKeepsSound(s.lots, s.uses, lot);
    ArriveInOrder(s.lots, lot);
    ArriveAccounts(s.lots, lot, 0);
  }

  lemma UnconsumeKeeps(s: Stock, qty: int, order: Option<OrderId>, now: int)
    requires BatchesOk(s) && qty >= 0
    ensures BatchesOk(Unconsume(s, qty, order, now))
    ensures Total(Unconsume(s, qty, order, now).lots) == Total(s.lots) + qty
  {
    var refilled, left := s, qty;
    if order.Some? {
      var (lots, uses, rest) := GiveBack(s.lots, s.uses, order.value, qty);
      GiveBackKeepsSound(s.lots, s.uses, order.value, qty);
      GiveBackTotals(s.lots, s.uses, order.value, qty);
      GiveBackKeepsBatches(s.lots, s.uses, order.value, qty);
      GiveBackOutstanding(s.lots, s.uses, order.value, qty);
      SameBatchesKeepOrder(s.lots, lots, s.nextLot);
      refilled, left := s.(lots := lots, uses := uses), rest;
    }
    if left > 0 {
      NewLotKeeps(refilled, left, s.cost, now, now);
    }
  }

  /** What one successful call does to the counters, the ledger and the copies the batches know. */
  ghost predicate Effect(s: Stock, s': Stock, onHandDelta: int, reserved: int, loggedReserved: int, known: int) {
    && Valid(s')
    && s'.onHand == s.onHand + onHandDelta
    && s'.reserved == reserved
    && s'.backorder == s.backorder && s'.tracked == s.tracked && s'.deleted == s.deleted
    && Total(s'.lots) == Total(s.lots) + known
    && exists m :: s'.moves == s.moves + [m] && m.onHandDelta == onHandDelta
         && m.reservedDelta == loggedReserved && m.balanceAfter == s'.onHand
  }

  lemma SameTables(a: Stock, b: Stock)
    requires BatchesOk(a) && b.lots == a.lots && b.uses == a.uses && b.nextLot == a.nextLot
    ensures BatchesOk(b)
  {}

  lemma ReserveEffect(s: Stock, qty: int, order: Option<OrderId>)
    requires Valid(s) && qty > 0 && Reserve(s, qty, order).Ok?
    ensures Effect(s, Reserve(s, qty, order).value, 0, s.reserved + qty, qty, 0)
  {
    var s' := Reserve(s, qty, order).value;
    var m := Move(OrderReserve, 0, qty, None, s.onHand, order);
    assert s'.moves == s.moves + [m];
  }

  lemma ReleaseEffect(s: Stock, qty: int, order: Option<OrderId>)
    requires Valid(s) && qty > 0 && Release(s, qty, order).Ok?
    ensures Effect(s, Release(s, qty, order).value, 0, Max(s.reserved - qty, 0), -qty, 0)
  {
    var s' := Release(s, qty, order).value;
    var m := Move(OrderRelease, 0, -qty, None, s.onHand, order);
    assert s'.moves == s.moves + [m];
  }

  lemma FulfillEffect(s: Stock, qty: int, order: Option<OrderId>)
    requires Valid(s) && qty > 0 && Fulfill(s, qty, order).Ok?
    ensures Effect(s, Fulfill(s, qty, order).value, -qty, Max(s.reserved - qty, 0), -qty, -Min(qty, Total(s.lots)))
  {
    hide BatchesOk, TakeFrom;
    var s' := Fulfill(s, qty, order).value;
    var m := Move(OrderFulfill, -qty, -qty, None, s.onHand - qty, order);
    assert s'.moves == s.moves + [m];
    ConsumeKeeps(s, qty, order);
    var c := Consume(s, qty, order).0;
    SameTables(c, s');
  }

  lemma RestockEffect(s: Stock, qty: int, order: Option<OrderId>, now: int)
    requires Valid(s) && qty > 0 && Restock(s, qty, order, now).Ok?
    ensures Effect(s, Restock(s, qty, order, now).value, qty, s.reserved, 0, qty)
  {
    hide BatchesOk, GiveBack;
    var s' := Restock(s, qty, order, now).value;
    var m := Move(ReturnRestock, qty, 0, None, s.onHand + qty, order);
    assert s'.moves == s.moves + [m];
    UnconsumeKeeps(s, qty, order, now);
    var c := Unconsume(s, qty, order, now);
    SameTables(c, s');
  }

  lemma AddBatchEffect(s: Stock, qty: int, unitCost: Option<real>, received: int, now: int)
    requires Valid(s) && AddBatch(s, qty, unitCost, received, now).Ok?
    ensures Effect(s, AddBatch(s, qty, unitCost, received, now).value, qty, s.reserved, 0, qty)
  {
    hide BatchesOk;
    var s' := AddBatch(s, qty, unitCost, received, now).value;
    var cost := if unitCost.Some? then Some(Money.Round2(unitCost.value) as nat) else s.cost;
    var m := Move(PurchaseReceipt, qty, 0, cost, s.onHand + qty, None);
    assert s'.moves == s.moves + [m];
    NewLotKeeps(s, qty, cost, received, now);
    var c := NewLot(s, qty, cost, received, now);
    SameTables(c, s');
  }

  lemma CountUpEffect(s: Stock, onHand: int, kind: MoveKind, now: int)
    requires Valid(s) && onHand > s.onHand && SetOnHand(s, onHand, kind, now).Ok?
    ensures var delta := onHand - s.onHand;
            Effect(s, SetOnHand(s, onHand, kind, now).value, delta, s.reserved, 0, delta)
  {
    hide BatchesOk;
    var delta := onHand - s.onHand;
    var s' := SetOnHand(s, onHand, kind, now).value;
    var m := Move(kind, delta, 0, None, onHand, None);
    assert s'.moves == s.moves + [m];
    NewLotKeeps(s, delta, s.cost, now, now);
    SameTables(NewLot(s, delta, s.cost, now, now), s');
  }

  /** A count downwards is a sale without an order, as far as the batches go. */
  lemma CountDownIsConsume(s: Stock, onHand: int, kind: MoveKind, now: int, out: int)
    requires out == s.onHand - onHand && 0 < out && SetOnHand(s, onHand, kind, now).Ok?
    ensures var s' := SetOnHand(s, onHand, kind, now).value;
            var c := Consume(s, out, None).0;
            && s'.lots == c.lots && s'.uses == c.uses && s'.nextLot == c.nextLot
            && s'.onHand == onHand && s'.reserved == s.reserved && s'.sold == s.sold
            && s'.backorder == s.backorder && s'.tracked == s.tracked && s'.deleted == s.deleted
            && s'.moves == s.moves + [Move(kind, -out, 0, None, onHand, None)]
            && RowAllowed(s')
  {
    assert -(onHand - s.onHand) == out;
  }

  lemma CountDownEffect(s: Stock, onHand: int, kind: MoveKind, now: int)
    requires Valid(s) && onHand < s.onHand && SetOnHand(s, onHand, kind, now).Ok?
    ensures var out := s.onHand - onHand;
            Effect(s, SetOnHand(s, onHand, kind, now).value, -out, s.reserved, 0, -Min(out, Total(s.lots)))
  {
    hide BatchesOk, TakeFrom;
    var out := s.onHand - onHand;
    CountDownIsConsume(s, onHand, kind, now, out);
    ConsumeKeeps(s, out, None);
    var s' := SetOnHand(s, onHand, kind, now).value;
    SameTables(Consume(s, out, None).0, s');
  }

  /** The on-hand change a successful call makes. */
  function OnHandChange(s: Stock, e: Event): int {
    match e
    case DoReserve(_, _) => 0
    case DoRelease(_, _) => 0
    case DoFulfill(qty, _) => -qty
    case DoRestock(qty, _, _) => qty
    case DoAddBatch(qty, _, _, _) => qty
    case DoSetOnHand(onHand, _, _) => onHand - s.onHand
  }

  function ReservedAfter(s: Stock, e: Event): int {
    match e
    case DoReserve(qty, _) => s.reserved + qty
    case DoRelease(qty, _) => Max(s.reserved - qty, 0)
    case DoFulfill(qty, _) => Max(s.reserved - qty, 0)
    case _ => s.reserved
  }

  /** What the ledger row of the call says about reservations. */
  function ReservedLogged(e: Event): int {
    match e
    case DoReserve(qty, _) => qty
    case DoRelease(qty, _) => -qty
    case DoFulfill(qty, _) => -qty
    case _ => 0
  }

  /** How many copies the batches gain (or lose) by a successful call. */
  function KnownChange(s: Stock, e: Event): int {
    var d := OnHandChange(s, e);
    if d >= 0 then d else -Min(-d, Total(s.lots))
  }

  /** Everything a successful call does, except when a count finds what was expected. */
  lemma StepEffect(s: Stock, e: Event)
    requires Valid(s) && Step(s, e).Ok?
    ensures (Next(s, e) == s && e.DoSetOnHand? && e.onHand == s.onHand)
         || Effect(s, Next(s, e), OnHandChange(s, e), ReservedAfter(s, e), ReservedLogged(e), KnownChange(s, e))
  {
    var s' := Step(s, e).value;
    NonNegativeTotal(s.lots);
    hide Effect, BatchesOk, Reserve, Release, Fulfill, Restock, AddBatch;
    match e
    case DoReserve(qty, order) =>
      ReserveEffect(s, qty, order);
      assert Effect(s, s', 0, s.reserved + qty, qty, 0);
    case DoRelease(qty, order) =>
      ReleaseEffect(s, qty, order);
      assert Effect(s, s', 0, Max(s.reserved - qty, 0), -qty, 0);
    case DoFulfill(qty, order) =>
      FulfillEffect(s, qty, order);
      assert Effect(s, s', -qty, Max(s.reserved - qty, 0), -qty, -Min(qty, Total(s.lots)));
    case DoRestock(qty, order, now) =>
      RestockEffect(s, qty, order, now);
      assert Effect(s, s', qty, s.reserved, 0, qty);
    case DoAddBatch(qty, unitCost, received, now) =>
      AddBatchEffect(s, qty, unitCost, received, now);
      assert Effect(s, s', qty, s.reserved, 0, qty);
    case DoSetOnHand(onHand, kind, now) =>
      if onHand > s.onHand {
        CountUpEffect(s, onHand, kind, now);
        assert Effect(s, s', onHand - s.onHand, s.reserved, 0, onHand - s.onHand);
      } else if onHand < s.onHand {
        CountDownEffect(s, onHand, kind, now);
        assert Effect(s, s', onHand - s.onHand, s.reserved, 0, -Min(s.onHand - onHand, Total(s.lots)));
      }
  }

  /**
   * Every call keeps the invariant: counters within their constraints, no
   * batch below zero, and for each batch the copies left plus the copies out
   * with orders at most what arrived.
   */
  lemma StepKeepsValid(s: Stock, e: Event)
    requires Valid(s)
    ensures Valid(Next(s, e))
  {
    if Step(s, e).Ok? {
      StepEffect(s, e);
    }
  }

  lemma {:induction false} RunKeepsValid(s: Stock, events: seq<Event>)
    requires Valid(s)
    ensures Valid(Run(s, events))
    decreases |events|
  {
    if events != [] {
      StepKeepsValid(s, events[0]);
      RunKeepsValid(Next(s, events[0]), events[1..]);
    }
  }

  /** In every state of every run a batch never holds less than nothing or more than arrived. */
  lemma BatchNeverOverfull(s: Stock, events: seq<Event>, l: Lot)
    requires Valid(s) && l in Run(s, events).lots
    ensures 0 <= l.qtyLeft <= l.qtyIn
  {
    var after := Run(s, events);
    RunKeepsValid(s, events);
    assert Accounted(after.lots, after.uses, l.id);
    OutNonNegative(after.uses, 0, l.id);
    PresentLot(after.lots, l);
  }

  lemma {:induction false} PresentLot(lots: seq<Lot>, l: Lot)
    requires DistinctIds(lots) && l in lots
    ensures Left(lots, l.id) == l.qtyLeft && Arrived(lots, l.id) == l.qtyIn
  {
    if lots[0] == l {
      AbsentLot(lots[1..], l.id);
    } else {
      var i :| 0 <= i < |lots| && lots[i] == l;
      assert lots[1..][i - 1] == l;
      PresentLot(lots[1..], l);
    }
  }

  // ─── conservation ───

  /** Copies on the shelf that no batch knows about. */
  function Unknown(s: Stock): int {
    s.onHand - Total(s.lots)
  }

  /** Copies this call hands out although no batch holds them. */
  function Shortfall(s: Stock, e: Event): int {
    if Step(s, e).Err? then 0
    else if e.DoFulfill? then Max(0, e.qty - Total(s.lots))
    else if e.DoSetOnHand? && e.onHand < s.onHand then Max(0, s.onHand - e.onHand - Total(s.lots))
    else 0
  }

  function TotalShortfall(s: Stock, events: seq<Event>): int
    decreases |events|
  {
    if events == [] then 0 else Shortfall(s, events[0]) + TotalShortfall(Next(s, events[0]), events[1..])
  }

  lemma StepConserves(s: Stock, e: Event)
    requires Valid(s)
    ensures Unknown(Next(s, e)) + Shortfall(s, e) == Unknown(s)
    ensures 0 <= Shortfall(s, e)
    ensures 0 <= Unknown(s) ==> 0 <= Unknown(Next(s, e))
  {
    if Step(s, e).Ok? {
      StepEffect(s, e);
      OkCallsArePositive(s, e);
      NonNegativeTotal(s.lots);
      NonNegativeTotal(Next(s, e).lots);
    }
  }

  /** A call that succeeds moves a positive quantity, and hands over no more than the shelf holds. */
  lemma OkCallsArePositive(s: Stock, e: Event)
    requires RowAllowed(s) && Step(s, e).Ok?
    ensures e.DoSetOnHand? ==> 0 <= e.onHand
    ensures !e.DoSetOnHand? ==> 0 < e.qty
    ensures e.DoFulfill? ==> e.qty <= s.onHand
  {}

  /** Over any run, copies no batch knows about only ever leave as shortfall. */
  lemma {:induction false} RunConserves(s: Stock, events: seq<Event>)
    requires Valid(s)
    ensures Unknown(Run(s, events)) + TotalShortfall(s, events) == Unknown(s)
    ensures 0 <= TotalShortfall(s, events)
    ensures 0 <= Unknown(s) ==> 0 <= Unknown(Run(s, events))
    decreases |events|
  {
    if events != [] {
      StepKeepsValid(s, events[0]);
      StepConserves(s, events[0]);
      RunConserves(Next(s, events[0]), events[1..]);
    }
  }

  /** A shelf whose batches account for every copy stays that way, with no shortfall ever. */
  lemma CleanShelfStaysClean(s: Stock, events: seq<Event>)
    requires Valid(s) && s.onHand == Total(s.lots)
    ensures Run(s, events).onHand == Total(Run(s, events).lots)
    ensures TotalShortfall(s, events) == 0
  {
    RunConserves(s, events);
  }

  // ─── when a call is refused ───

  /** A reservation stands exactly when the copies are free, or the product may be backordered. */
  lemma ReserveSucceedsIff(s: Stock, qty: int, order: Option<OrderId>)
    requires RowAllowed(s) && qty > 0
    ensures Reserve(s, qty, order).Ok? <==> !s.deleted && (s.backorder || s.onHand - s.reserved >= qty)
    ensures Reserve(s, qty, order) == Err(CheckViolation) <==>
            !s.deleted && !s.tracked && !s.backorder && s.onHand - s.reserved < qty
  {}

  /**
   * Copies can be handed over exactly when the shelf holds them, whatever
   * `backorder` says: past the guard of a backorder product the database still
   * refuses a negative count.
   */
  lemma FulfillSucceedsIff(s: Stock, qty: int, order: Option<OrderId>)
    requires RowAllowed(s) && qty > 0
    ensures Fulfill(s, qty, order).Ok? <==> qty <= s.onHand
    ensures Fulfill(s, qty, order) == Err(CheckViolation) <==> s.backorder && s.onHand < qty
  {}

  /** Nothing but those two, and a negative purchase cost, ever runs into a constraint. */
  lemma ConstraintHitIff(s: Stock, e: Event)
    requires RowAllowed(s)
    ensures Step(s, e) == Err(CheckViolation) <==>
            || (e.DoReserve? && e.qty > 0 && !s.deleted && !s.tracked && !s.backorder && s.onHand - s.reserved < e.qty)
            || (e.DoFulfill? && e.qty > 0 && s.backorder && s.onHand < e.qty)
            || (e.DoAddBatch? && e.qty > 0 && e.unitCost.Some? && Money.Round2(e.unitCost.value) < 0)
  {}

  // ─── the ledger ───

  function OnHandSum(moves: seq<Move>): int {
    if moves == [] then 0 else OnHandSum(moves[..|moves| - 1]) + moves[|moves| - 1].onHandDelta
  }

  function ReservedSum(moves: seq<Move>): int {
    if moves == [] then 0 else ReservedSum(moves[..|moves| - 1]) + moves[|moves| - 1].reservedDelta
  }

  /** Each row's balance is the opening balance plus every on-hand delta up to it. */
  ghost predicate Balanced(opening: int, moves: seq<Move>) {
    forall k :: 0 < k <= |moves| ==> moves[k - 1].balanceAfter == opening + OnHandSum(moves[..k])
  }

  ghost predicate LedgerTells(opening: int, s: Stock) {
    s.onHand == opening + OnHandSum(s.moves) && Balanced(opening, s.moves)
  }

  lemma AppendKeepsBalance(opening: int, moves: seq<Move>, m: Move)
    requires Balanced(opening, moves) && m.balanceAfter == opening + OnHandSum(moves) + m.onHandDelta
    ensures Balanced(opening, moves + [m])
    ensures OnHandSum(moves + [m]) == OnHandSum(moves) + m.onHandDelta
  {
    var all := moves + [m];
    assert all[..|all| - 1] == moves;
    forall k | 0 < k <= |all|
      ensures all[k - 1].balanceAfter == opening + OnHandSum(all[..k])
    {
      if k <= |moves| {
        assert all[..k] == moves[..k];
      } else {
        assert all[..k] == all;
      }
    }
  }

  lemma StepLogs(opening: int, s: Stock, e: Event)
    requires Valid(s) && LedgerTells(opening, s)
    ensures LedgerTells(opening, Next(s, e)) && s.moves <= Next(s, e).moves
  {
    if Step(s, e).Ok? {
      StepEffect(s, e);
      var s' := Next(s, e);
      if s' != s {
        var m :| s'.moves == s.moves + [m] && m.onHandDelta == OnHandChange(s, e) && m.balanceAfter == s'.onHand;
        AppendKeepsBalance(opening, s.moves, m);
      }
    }
  }

  /** The ledger is append-only and always adds up to the on-hand count, row by row. */
  lemma {:induction false} LedgerAddsUp(opening: int, s: Stock, events: seq<Event>)
    requires Valid(s) && LedgerTells(opening, s)
    ensures LedgerTells(opening, Run(s, events))
    ensures s.moves <= Run(s, events).moves
    decreases |events|
  {
    if events != [] {
      var s' := Next(s, events[0]);
      StepKeepsValid(s, events[0]);
      StepLogs(opening, s, events[0]);
      LedgerAddsUp(opening, s', events[1..]);
    }
  }

  /**
   * The reserved column of the ledger follows the counter exactly when no call
   * gives back more than is reserved: the counter is clamped at zero, the row
   * is not.
   */
  lemma ReservedLedgerFollowsIff(s: Stock, e: Event)
    requires Valid(s) && Step(s, e).Ok?
    ensures Next(s, e).reserved - ReservedSum(Next(s, e).moves) == s.reserved - ReservedSum(s.moves) <==>
            (e.DoRelease? || e.DoFulfill? ==> e.qty <= s.reserved)
  {
    StepEffect(s, e);
    OkCallsArePositive(s, e);
    var s' := Next(s, e);
    if s' != s {
      var m :| s'.moves == s.moves + [m] && m.reservedDelta == ReservedLogged(e);
      ReservedSumAppend(s.moves, m);
    }
  }

  lemma ReservedSumAppend(moves: seq<Move>, m: Move)
    ensures ReservedSum(moves + [m]) == ReservedSum(moves) + m.reservedDelta
  {
    assert (moves + [m])[..|moves|] == moves;
  }
}
