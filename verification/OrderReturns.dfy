/** The return round trip of a whole order, through the service. */
module OrderReturns {
  import opened Prelude
  import opened Batches
  import opened Lines
  import opened Shelf
  import opened ShelfLaws
  import opened Returns
  import opened Calls

  /** The call neither sells to the order nor returns anything of it. */
  predicate CallSparesOrder(c: Call, order: OrderId) {
    c.OnLines? && (c.op.Fulfilling? || c.op.Restocking?) ==> c.order != Some(order)
  }

  predicate CallsSpareOrder(calls: seq<Call>, order: OrderId) {
    forall i :: 0 <= i < |calls| ==> CallSparesOrder(calls[i], order)
  }

  lemma {:induction false} EventsSpareOrder(db: Db, calls: seq<Call>, p: ProductId, order: OrderId)
    requires CallsSpareOrder(calls, order)
    ensures AllSpareOrder(EventsOver(db, calls, p), order)
    decreases |calls|
  {
    if calls != [] {
      assert CallSparesOrder(calls[0], order);
      EventsSpareOrder(CallNext(db, calls[0]), calls[1..], p, order);
    }
  }

  ghost predicate AllValid(db: Db) {
    forall p :: p in db ==> Valid(db[p])
  }

  lemma RestockAllowed(s: Stock, qty: int, order: Option<OrderId>, now: int)
    requires RowAllowed(s) && 0 < qty
    ensures Restock(s, qty, order, now).Ok?
  {}

  /** A return is never refused. */
  lemma {:induction false} ReturnNeverRefused(db: Db, lines: seq<Line>, order: Option<OrderId>, now: int)
    requires Increasing(lines) && AllPositive(lines)
    requires forall i :: 0 <= i < |lines| && lines[i].product in db ==> RowAllowed(db[lines[i].product])
    ensures ApplyLines(db, Restocking(now), lines, order).Ok?
    decreases |lines|
  {
    if lines != [] {
      var l := lines[0];
      if l.product in db {
        RestockAllowed(db[l.product], l.qty, order, now);
      }
      var mid := ApplyLine(db, Restocking(now), l, order).value;
      forall i | 0 <= i < |lines[1..]| && lines[1..][i].product in mid
        ensures RowAllowed(mid[lines[1..][i].product])
      {
        assert lines[1..][i] == lines[i + 1] && lines[0].product < lines[i + 1].product;
      }
      ReturnNeverRefused(mid, lines[1..], order, now);
    }
  }

  /** A successful multi-line call does to a product what its merged quantity asks for. */
  lemma LinesForProduct(db: Db, op: LineOp, lines: seq<Line>, order: Option<OrderId>, p: ProductId)
    requires AllPositive(lines) && p in db && Mentions(Merge(lines), p) && CallLines(db, op, lines, order).Ok?
    ensures var db' := CallLines(db, op, lines, order).value;
            && p in db'
            && 0 < QtyOf(lines, p)
            && Step(db[p], LineEvent(op, QtyOf(lines, p), order)) == Ok(db'[p])
  {
    var merged := Merge(lines);
    MergeIsMerge(lines);
    LinesPerProduct(db, op, merged, order, p);
    assert QtyOf(merged, p) == QtyOf(lines, p);
    QtyOfPresent(merged, p);
  }

  /**
   * An order is handed over, other calls follow in any number and order, and
   * the order comes back whole: the return is accepted, and for each of its
   * products every batch regains exactly the copies the order took from it.
   */
  lemma OrderReturnRestoresBatches(db: Db, lines: seq<Line>, order: OrderId, between: seq<Call>, now: int, p: ProductId)
    requires AllPositive(lines) && AllValid(db) && CallsSpareOrder(between, order)
    requires CallLines(db, Fulfilling, lines, Some(order)).Ok?
    requires p in db && Mentions(Merge(lines), p)
    requires QtyOf(lines, p) <= Total(db[p].lots) && Outstanding(db[p].uses, order) == 0
    ensures var sold := CallLines(db, Fulfilling, lines, Some(order)).value;
            var later := CallRun(sold, between);
            var r := CallLines(later, Restocking(now), lines, Some(order));
            && p in sold && p in later && r.Ok? && p in r.value
            && GivesBackTheSale(db[p].lots, sold[p].lots, later[p].lots, r.value[p].lots)
  {
    var qty := QtyOf(lines, p);
    var sold := CallLines(db, Fulfilling, lines, Some(order)).value;
    var later := CallRun(sold, between);
    LinesForProduct(db, Fulfilling, lines, Some(order), p);
    RunPerProduct(sold, between, p);
    EventsSpareOrder(sold, between, p, order);
    LaterValid(db, lines, order, between);
    WholeReturnAccepted(later, lines, order, now);
    LinesForProduct(later, Restocking(now), lines, Some(order), p);
    var r := CallLines(later, Restocking(now), lines, Some(order));
    LineIsSale(db[p], qty, Some(order));
    LineIsReturn(later[p], qty, Some(order), now);
    RoundTrip(db[p], sold[p], EventsOver(sold, between, p), later[p], r.value[p], qty, order, now);
  }

  lemma LineIsSale(s: Stock, qty: int, order: Option<OrderId>)
    requires 0 < qty
    ensures Step(s, LineEvent(Fulfilling, qty, order)) == Fulfill(s, qty, order)
  {}

  lemma LineIsReturn(s: Stock, qty: int, order: Option<OrderId>, now: int)
    requires 0 < qty
    ensures Step(s, LineEvent(Restocking(now), qty, order)) == Restock(s, qty, order, now)
  {}

  /** `ReturnRestoresBatches`, told by the four states it is about. */
  lemma RoundTrip(s: Stock, sold: Stock, between: seq<Event>, later: Stock, back: Stock, qty: int, order: OrderId,
                  now: int)
    requires Valid(s) && 0 < qty <= Total(s.lots) && Outstanding(s.uses, order) == 0 && AllSpareOrder(between, order)
    requires Fulfill(s, qty, Some(order)) == Ok(sold)
    requires later == Run(sold, between)
    requires Restock(later, qty, Some(order), now) == Ok(back)
    ensures GivesBackTheSale(s.lots, sold.lots, later.lots, back.lots)
  {
    ReturnRestoresBatches(s, qty, order, between, now);
  }

  lemma WholeReturnAccepted(db: Db, lines: seq<Line>, order: OrderId, now: int)
    requires AllPositive(lines) && AllValid(db)
    ensures CallLines(db, Restocking(now), lines, Some(order)).Ok?
  {
    MergeIsMerge(lines);
    ReturnNeverRefused(db, Merge(lines), Some(order), now);
  }

  lemma LaterValid(db: Db, lines: seq<Line>, order: OrderId, between: seq<Call>)
    requires AllPositive(lines) && AllValid(db) && CallLines(db, Fulfilling, lines, Some(order)).Ok?
    ensures AllValid(CallRun(CallLines(db, Fulfilling, lines, Some(order)).value, between))
  {
    var first := OnLines(Fulfilling, lines, Some(order));
    var sold := CallLines(db, Fulfilling, lines, Some(order)).value;
    CallKeepsValid(db, first);
    assert CallNext(db, first) == sold;
    RunKeepsAllValid(sold, between);
  }

  lemma {:induction false} ApplyKeepsProducts(db: Db, op: LineOp, lines: seq<Line>, order: Option<OrderId>)
    requires ApplyLines(db, op, lines, order).Ok?
    ensures ApplyLines(db, op, lines, order).value.Keys == db.Keys
    decreases |lines|
  {
    if lines != [] {
      ApplyKeepsProducts(ApplyLine(db, op, lines[0], order).value, op, lines[1..], order);
    }
  }

  lemma CallKeepsValid(db: Db, c: Call)
    requires AllValid(db)
    ensures AllValid(CallNext(db, c)) && CallNext(db, c).Keys == db.Keys
  {
    if CallStep(db, c).Ok? && c.OnLines? {
      ApplyKeepsProducts(db, c.op, Merge(c.lines), c.order);
    }
    forall p | p in CallNext(db, c)
      ensures Valid(CallNext(db, c)[p])
    {
      CallPerProduct(db, c, p);
      RunKeepsValid(db[p], EventsFor(db, c, p));
    }
  }

  lemma {:induction false} RunKeepsAllValid(db: Db, calls: seq<Call>)
    requires AllValid(db)
    ensures AllValid(CallRun(db, calls)) && CallRun(db, calls).Keys == db.Keys
    decreases |calls|
  {
    if calls != [] {
      CallKeepsValid(db, calls[0]);
      RunKeepsAllValid(CallNext(db, calls[0]), calls[1..]);
    }
  }
}
