/** Which copies leave first, told by the dates of the batches. */
module OldestFirst {
  import opened Prelude
  import opened Batches
  import opened BatchLaws
  import opened Lines
  import opened Shelf
  import opened ShelfLaws
  import opened Returns
  import opened Calls
  import opened OrderReturns

  /** `a` arrived first: received before `b`, or at one time and created before, or both alike with a smaller id. */
  predicate ArrivedFirst(a: Lot, b: Lot) {
    || a.received < b.received
    || (a.received == b.received && a.created < b.created)
    || (a.received == b.received && a.created == b.created && a.id < b.id)
  }

  /** In every state of every run the batches stand by date of arrival, then of creation, then by id. */
  lemma BatchesStandByDate(s: Stock, events: seq<Event>, i: nat, j: nat)
    requires Valid(s) && i < j < |Run(s, events).lots|
    ensures ArrivedFirst(Run(s, events).lots[i], Run(s, events).lots[j])
  {
    RunKeepsValid(s, events);
  }

  lemma NothingMore(lots: seq<Lot>, need: int)
    ensures need <= 0 ==> TakeFrom(lots, need).0 == lots
  {}

  /** A batch is touched only once the batches in front of it are empty. */
  lemma {:induction false} FrontFirst(lots: seq<Lot>, need: int, i: nat, j: nat)
    requires NonNegative(lots) && i < j < |lots|
    requires TakeFrom(lots, need).0[j].qtyLeft < lots[j].qtyLeft
    ensures TakeFrom(lots, need).0[i].qtyLeft == 0
  {
    NothingMore(lots, need);
    hide TakeFrom;
    if need > 0 {
      var take := OldestTake(lots, need);
      TakeStep(lots, need);
      assert lots[0] in lots;
      NothingMore(lots[1..], need - take);
      if i > 0 {
        FrontFirst(lots[1..], need - take, i - 1, j - 1);
      }
    }
  }

  /** A sale, or a count downwards. */
  predicate TakesCopies(s: Stock, e: Event) {
    Step(s, e).Ok? && (e.DoFulfill? || (e.DoSetOnHand? && e.onHand < s.onHand))
  }

  lemma WhatLeaves(s: Stock, e: Event) returns (qty: int)
    requires Valid(s) && TakesCopies(s, e)
    ensures Next(s, e).lots == TakeFrom(s.lots, qty).0
  {
    if e.DoFulfill? {
      qty := e.qty;
      FulfillTables(s, qty, e.order);
    } else {
      qty := s.onHand - e.onHand;
      CountDownIsConsume(s, e.onHand, e.kind, e.now, qty);
    }
  }

  lemma SameBatchAt(before: seq<Lot>, after: seq<Lot>, l: Lot, l': Lot) returns (i: nat)
    requires SameBatches(before, after) && DistinctIds(before)
    requires l in before && l' in after && l.id == l'.id
    ensures i < |before| && before[i] == l && after[i] == l'
  {
    i :| 0 <= i < |before| && before[i] == l;
    var j :| 0 <= j < |after| && after[j] == l';
    assert SameBatch(before[j], after[j]);
  }

  lemma StandsInFront(lots: seq<Lot>, i: nat, j: nat)
    requires InSellingOrder(lots) && i < |lots| && j < |lots| && ArrivedFirst(lots[i], lots[j])
    ensures i < j
  {}

  /**
   * The oldest copies leave first, after any run: when a sale or a count
   * downwards takes a copy from a batch, every batch that arrived before it is
   * empty.
   */
  lemma OldestCopiesLeaveFirst(origin: Stock, events: seq<Event>, e: Event, a: Lot, b: Lot, a': Lot, b': Lot)
    requires Valid(origin) && TakesCopies(Run(origin, events), e)
    requires a in Run(origin, events).lots && b in Run(origin, events).lots && ArrivedFirst(a, b)
    requires a' in Next(Run(origin, events), e).lots && a'.id == a.id
    requires b' in Next(Run(origin, events), e).lots && b'.id == b.id && b'.qtyLeft < b.qtyLeft
    ensures a'.qtyLeft == 0
  {
    var s := Run(origin, events);
    RunKeepsValid(origin, events);
    var qty := WhatLeaves(s, e);
    TakeKeepsBatches(s.lots, qty);
    var i := SameBatchAt(s.lots, Next(s, e).lots, a, a');
    var j := SameBatchAt(s.lots, Next(s, e).lots, b, b');
    StandsInFront(s.lots, i, j);
    FrontFirst(s.lots, qty, i, j);
  }

  /** The same of a whole order handed over by the service, after any run of its calls. */
  lemma OrdersTakeOldestCopies(origin: Db, calls: seq<Call>, lines: seq<Line>, order: Option<OrderId>, p: ProductId,
                               a: Lot, b: Lot, a': Lot, b': Lot)
    requires p in origin && Valid(origin[p]) && AllPositive(lines)
    requires var db := CallRun(origin, calls); CallLines(db, Fulfilling, lines, order).Ok? && p in db
    requires Mentions(Merge(lines), p)
    requires var db := CallRun(origin, calls);
             var db' := CallLines(db, Fulfilling, lines, order).value;
             && a in db[p].lots && b in db[p].lots && ArrivedFirst(a, b)
             && p in db' && a' in db'[p].lots && a'.id == a.id
             && b' in db'[p].lots && b'.id == b.id && b'.qtyLeft < b.qtyLeft
    ensures a'.qtyLeft == 0
  {
    var db := CallRun(origin, calls);
    LinesForProduct(db, Fulfilling, lines, order, p);
    RunPerProduct(origin, calls, p);
    OldestCopiesLeaveFirst(origin[p], EventsOver(origin, calls, p), DoFulfill(QtyOf(lines, p), order), a, b, a', b');
  }
}
