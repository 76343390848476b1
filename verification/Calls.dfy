/** Whole calls of the inventory service: several products, all or nothing. */
module Calls {
  import opened Prelude
  import opened Batches
  import opened Lines
  import opened Shelf
  import opened ShelfLaws

  /** Every product's stock. */
  type Db = map<ProductId, Stock>

  datatype LineOp = Reserving | Releasing | Fulfilling | Restocking(now: int)

  function LineEvent(op: LineOp, qty: int, order: Option<OrderId>): Event {
    match op
    case Reserving => DoReserve(qty, order)
    case Releasing => DoRelease(qty, order)
    case Fulfilling => DoFulfill(qty, order)
    case Restocking(now) => DoRestock(qty, order, now)
  }

  /** One line.  A product that does not exist fails a reservation or a sale and is skipped otherwise. */
  function ApplyLine(db: Db, op: LineOp, l: Line, order: Option<OrderId>): Result<Db, Error> {
    if l.product !in db then
      match op
      case Reserving => Err(NotFound)
      case Fulfilling => Err(FulfilFailed)
      case _ => Ok(db)
    else
      var r := Step(db[l.product], LineEvent(op, l.qty, order));
      if r.Ok? then Ok(db[l.product := r.value]) else Err(r.error)
  }

  function ApplyLines(db: Db, op: LineOp, lines: seq<Line>, order: Option<OrderId>): Result<Db, Error>
    decreases |lines|
  {
    if lines == [] then Ok(db)
    else
      var r := ApplyLine(db, op, lines[0], order);
      if r.Err? then r else ApplyLines(r.value, op, lines[1..], order)
  }

  function CallLines(db: Db, op: LineOp, lines: seq<Line>, order: Option<OrderId>): Result<Db, Error> {
    if !AllPositive(lines) then Err(QtyInvalid) else ApplyLines(db, op, Merge(lines), order)
  }

  datatype Call =
    | OnLines(op: LineOp, lines: seq<Line>, order: Option<OrderId>)
    | Deliver(product: ProductId, qty: int, unitCost: Option<real>, received: int, now: int)
    | Count(product: ProductId, onHand: int, kind: MoveKind, now: int)

  function CallStep(db: Db, c: Call): Result<Db, Error> {
    match c
    case OnLines(op, lines, order) => CallLines(db, op, lines, order)
    case Deliver(p, qty, unitCost, received, now) =>
      if qty <= 0 then Err(QtyInvalid)
      else if p !in db then Err(NotFound)
      else
        var r := AddBatch(db[p], qty, unitCost, received, now);
        if r.Ok? then Ok(db[p := r.value]) else Err(r.error)
    case Count(p, onHand, kind, now) =>
      if onHand < 0 then Err(NegativeStock)
      else if p !in db then Err(NotFound)
      else
        var r := SetOnHand(db[p], onHand, kind, now);
        if r.Ok? then Ok(db[p := r.value]) else Err(r.error)
  }

  function CallNext(db: Db, c: Call): Db {
    var r := CallStep(db, c);
    if r.Ok? then r.value else db
  }

  function CallRun(db: Db, calls: seq<Call>): Db
    decreases |calls|
  {
    if calls == [] then db else CallRun(CallNext(db, calls[0]), calls[1..])
  }

  // ─── a call is one step, or nothing, for each product ───

  predicate Mentions(lines: seq<Line>, p: ProductId) {
    exists i :: 0 <= i < |lines| && lines[i].product == p
  }

  lemma LinePerProduct(db: Db, op: LineOp, l: Line, order: Option<OrderId>, p: ProductId)
    requires p in db && ApplyLine(db, op, l, order).Ok?
    ensures var db' := ApplyLine(db, op, l, order).value;
            && p in db'
            && (l.product == p ==> Step(db[p], LineEvent(op, l.qty, order)) == Ok(db'[p]))
            && (l.product != p ==> db'[p] == db[p])
  {}

  /** What lines that ask `qty` of a product, or do not name it, make of its stock. */
  predicate Asked(s: Stock, op: LineOp, named: bool, qty: int, order: Option<OrderId>, s': Stock) {
    if named then Step(s, LineEvent(op, qty, order)) == Ok(s') else s' == s
  }

  /** What a list of increasing lines does to one product: the line that names it, or nothing. */
  lemma {:induction false} LinesPerProduct(db: Db, op: LineOp, lines: seq<Line>, order: Option<OrderId>, p: ProductId)
    requires p in db && Increasing(lines) && AllPositive(lines)
    requires ApplyLines(db, op, lines, order).Ok?
    ensures p in ApplyLines(db, op, lines, order).value
    ensures Asked(db[p], op, Mentions(lines, p), QtyOf(lines, p), order, ApplyLines(db, op, lines, order).value[p])
    decreases |lines|
  {
    if lines != [] {
      var l, rest := lines[0], lines[1..];
      var mid := ApplyLine(db, op, l, order).value;
      LinePerProduct(db, op, l, order, p);
      HeadTail(lines);
      LinesPerProduct(mid, op, rest, order, p);
      LinesHead(lines, p);
    }
  }

  /** A product is named by the first line, which then says it all, or by the others. */
  lemma LinesHead(lines: seq<Line>, p: ProductId)
    requires lines != [] && Increasing(lines) && AllPositive(lines)
    ensures lines[0].product == p ==> Mentions(lines, p) && !Mentions(lines[1..], p) && QtyOf(lines, p) == lines[0].qty
    ensures lines[0].product != p ==>
              (Mentions(lines, p) <==> Mentions(lines[1..], p)) && QtyOf(lines, p) == QtyOf(lines[1..], p)
  {
    MentionsHead(lines, p);
    HeadTail(lines);
    QtyOfCons(lines[0], lines[1..], p);
    if lines[0].product == p {
      NotMentioned(lines[1..], p);
    }
  }

  lemma MentionsHead(lines: seq<Line>, p: ProductId)
    requires lines != [] && Increasing(lines)
    ensures Mentions(lines, p) <==> lines[0].product == p || Mentions(lines[1..], p)
    ensures lines[0].product == p ==> !Mentions(lines[1..], p)
  {
    var rest := lines[1..];
    if Mentions(rest, p) {
      var i :| 0 <= i < |rest| && rest[i].product == p;
      assert lines[i + 1].product == p;
    }
    if Mentions(lines, p) {
      var i :| 0 <= i < |lines| && lines[i].product == p;
      if i > 0 {
        assert rest[i - 1].product == p;
      }
    }
  }

  lemma NotMentioned(lines: seq<Line>, p: ProductId)
    requires AllPositive(lines) && !Mentions(lines, p)
    ensures QtyOf(lines, p) == 0
  {
    QtyOfPresent(lines, p);
  }

  /** The events one product sees in a call. */
  function EventsFor(db: Db, c: Call, p: ProductId): seq<Event> {
    if CallStep(db, c).Err? then []
    else match c
      case OnLines(op, lines, order) =>
        if Mentions(Merge(lines), p) then [LineEvent(op, QtyOf(lines, p), order)] else []
      case Deliver(q, qty, unitCost, received, now) => if p == q then [DoAddBatch(qty, unitCost, received, now)] else []
      case Count(q, onHand, kind, now) => if p == q then [DoSetOnHand(onHand, kind, now)] else []
  }

  lemma CallPerProduct(db: Db, c: Call, p: ProductId)
    requires p in db
    ensures p in CallNext(db, c)
    ensures CallNext(db, c)[p] == Run(db[p], EventsFor(db, c, p))
  {
    if CallStep(db, c).Ok? && c.OnLines? {
      MergeIsMerge(c.lines);
      LinesPerProduct(db, c.op, Merge(c.lines), c.order, p);
      assert QtyOf(Merge(c.lines), p) == QtyOf(c.lines, p);
    }
    OneEvent(db[p]);
  }

  lemma OneEvent(s: Stock)
    ensures Run(s, []) == s
    ensures forall e :: Run(s, [e]) == Next(s, e)
  {
    forall e
      ensures Run(s, [e]) == Next(s, e)
    {
      assert [e][1..] == [];
    }
  }

  function EventsOver(db: Db, calls: seq<Call>, p: ProductId): seq<Event>
    decreases |calls|
  {
    if calls == [] then [] else EventsFor(db, calls[0], p) + EventsOver(CallNext(db, calls[0]), calls[1..], p)
  }

  lemma {:induction false} RunAppend(s: Stock, a: seq<Event>, b: seq<Event>)
    ensures Run(s, a + b) == Run(Run(s, a), b)
    decreases |a|
  {
    if a == [] {
      assert a + b == b;
    } else {
      RunAppend(Next(s, a[0]), a[1..], b);
      assert (a + b)[1..] == a[1..] + b;
    }
  }

  /**
   * Any run of service calls is, product by product, a run of single-product
   * events: everything proved of `Run` holds of each product under the service.
   */
  lemma {:induction false} RunPerProduct(db: Db, calls: seq<Call>, p: ProductId)
    requires p in db
    ensures p in CallRun(db, calls)
    ensures CallRun(db, calls)[p] == Run(db[p], EventsOver(db, calls, p))
    decreases |calls|
  {
    if calls != [] {
      CallPerProduct(db, calls[0], p);
      RunPerProduct(CallNext(db, calls[0]), calls[1..], p);
      RunAppend(db[p], EventsFor(db, calls[0], p), EventsOver(CallNext(db, calls[0]), calls[1..], p));
    }
  }

  /** After any run of service calls a clean shelf is still accounted for, copy by copy. */
  lemma ServiceKeepsShelvesClean(db: Db, calls: seq<Call>, p: ProductId)
    requires p in db && Valid(db[p]) && db[p].onHand == Total(db[p].lots)
    ensures p in CallRun(db, calls) && Valid(CallRun(db, calls)[p])
    ensures CallRun(db, calls)[p].onHand == Total(CallRun(db, calls)[p].lots)
  {
    RunPerProduct(db, calls, p);
    RunKeepsValid(db[p], EventsOver(db, calls, p));
    CleanShelfStaysClean(db[p], EventsOver(db, calls, p));
  }

  // ─── when a multi-line call stands ───

  /** The line would not fail on its own. */
  predicate Stands(db: Db, op: LineOp, l: Line, order: Option<OrderId>) {
    ApplyLine(db, op, l, order).Ok?
  }

  /** A line leaves the other products' lines as they stand. */
  lemma OtherLineUnmoved(db: Db, op: LineOp, l: Line, m: Line, order: Option<OrderId>)
    requires Stands(db, op, l, order) && l.product != m.product
    ensures Stands(ApplyLine(db, op, l, order).value, op, m, order) <==> Stands(db, op, m, order)
  {
    hide Step;
  }

  lemma {:induction false} LinesStandIff(db: Db, op: LineOp, lines: seq<Line>, order: Option<OrderId>)
    requires Increasing(lines)
    ensures ApplyLines(db, op, lines, order).Ok? <==> forall i :: 0 <= i < |lines| ==> Stands(db, op, lines[i], order)
    decreases |lines|
  {
    hide ApplyLine;
    if lines != [] && Stands(db, op, lines[0], order) {
      var mid := ApplyLine(db, op, lines[0], order).value;
      RestUnmoved(db, op, lines, order);
      HeadTail(lines);
      LinesStandIff(mid, op, lines[1..], order);
      ShiftedStands(db, mid, op, lines, order);
    }
  }

  lemma RestUnmoved(db: Db, op: LineOp, lines: seq<Line>, order: Option<OrderId>)
    requires Increasing(lines) && lines != [] && Stands(db, op, lines[0], order)
    ensures var mid, rest := ApplyLine(db, op, lines[0], order).value, lines[1..];
            forall i :: 0 <= i < |rest| ==> (Stands(mid, op, rest[i], order) <==> Stands(db, op, lines[i + 1], order))
  {
    var mid, rest := ApplyLine(db, op, lines[0], order).value, lines[1..];
    hide Step;
    forall i | 0 <= i < |rest|
      ensures Stands(mid, op, rest[i], order) <==> Stands(db, op, lines[i + 1], order)
    {
      assert rest[i] == lines[i + 1] && lines[0].product < lines[i + 1].product;
      OtherLineUnmoved(db, op, lines[0], rest[i], order);
    }
  }

  lemma ShiftedStands(db: Db, mid: Db, op: LineOp, lines: seq<Line>, order: Option<OrderId>)
    requires lines != [] && Stands(db, op, lines[0], order)
    requires forall i :: 0 <= i < |lines[1..]| ==>
               (Stands(mid, op, lines[1..][i], order) <==> Stands(db, op, lines[i + 1], order))
    ensures (forall i :: 0 <= i < |lines| ==> Stands(db, op, lines[i], order))
       <==> (forall i :: 0 <= i < |lines[1..]| ==> Stands(mid, op, lines[1..][i], order))
  {
    hide Stands;
    if forall i :: 0 <= i < |lines[1..]| ==> Stands(mid, op, lines[1..][i], order) {
      forall i | 0 <= i < |lines|
        ensures Stands(db, op, lines[i], order)
      {
        if i > 0 {
          assert Stands(mid, op, lines[1..][i - 1], order);
        }
      }
    }
  }

  /** All the copies of a product that the lines ask for. */
  function Whole(lines: seq<Line>, p: ProductId): Line {
    Line(p, QtyOf(lines, p))
  }

  /** A call goes through exactly when, product by product, the whole of its lines would. */
  lemma CallStandsIff(db: Db, op: LineOp, lines: seq<Line>, order: Option<OrderId>)
    requires AllPositive(lines)
    ensures CallLines(db, op, lines, order).Ok? <==>
            forall i :: 0 <= i < |lines| ==> Stands(db, op, Whole(lines, lines[i].product), order)
  {
    var merged := Merge(lines);
    MergeIsMerge(lines);
    LinesStandIff(db, op, merged, order);
    hide Stands;
    forall i | 0 <= i < |lines|
      ensures exists k :: 0 <= k < |merged| && merged[k] == Whole(lines, lines[i].product)
    {
      var k := MergedAt(lines, i);
      assert merged[k] == Whole(lines, lines[i].product);
    }
    forall k | 0 <= k < |merged|
      ensures exists i :: 0 <= i < |lines| && merged[k] == Whole(lines, lines[i].product)
    {
      var i := AskedFor(lines, k);
      assert merged[k] == Whole(lines, lines[i].product);
    }
  }

  /** Where a line went in the merge. */
  lemma MergedAt(lines: seq<Line>, i: nat) returns (k: nat)
    requires AllPositive(lines) && i < |lines|
    ensures k < |Merge(lines)| && Merge(lines)[k] == Whole(lines, lines[i].product)
  {
    var p, merged := lines[i].product, Merge(lines);
    MergeIsMerge(lines);
    QtyOfPresent(lines, p);
    QtyOfPresent(merged, p);
    assert QtyOf(merged, p) == QtyOf(lines, p);
    k :| 0 <= k < |merged| && merged[k].product == p;
    MergedQty(merged, k);
  }

  /** A line that asked for a merged product. */
  lemma AskedFor(lines: seq<Line>, k: nat) returns (i: nat)
    requires AllPositive(lines) && k < |Merge(lines)|
    ensures i < |lines| && Merge(lines)[k] == Whole(lines, lines[i].product)
  {
    var merged := Merge(lines);
    MergeIsMerge(lines);
    var p := merged[k].product;
    QtyOfPresent(lines, p);
    QtyOfPresent(merged, p);
    assert QtyOf(merged, p) == QtyOf(lines, p);
    MergedQty(merged, k);
    i :| 0 <= i < |lines| && lines[i].product == p;
  }

  /** The merged quantity of a product can be held for an order. */
  predicate CanHold(db: Db, p: ProductId, qty: int) {
    p in db && !db[p].deleted && (db[p].backorder || db[p].onHand - db[p].reserved >= qty)
  }

  /** An order can be reserved exactly when, product by product, the sum of its lines can be held. */
  lemma ReservationStandsIff(db: Db, lines: seq<Line>, order: Option<OrderId>)
    requires AllPositive(lines)
    requires forall p :: p in db ==> RowAllowed(db[p])
    ensures CallLines(db, Reserving, lines, order).Ok? <==>
            forall i :: 0 <= i < |lines| ==> CanHold(db, lines[i].product, QtyOf(lines, lines[i].product))
  {
    CallStandsIff(db, Reserving, lines, order);
    forall i | 0 <= i < |lines|
      ensures Stands(db, Reserving, Whole(lines, lines[i].product), order)
         <==> CanHold(db, lines[i].product, QtyOf(lines, lines[i].product))
    {
      ReserveLineIff(db, lines, lines[i].product, order);
    }
    hide Stands, CanHold;
  }

  lemma ReserveLineIff(db: Db, lines: seq<Line>, p: ProductId, order: Option<OrderId>)
    requires AllPositive(lines) && Mentions(lines, p) && (p in db ==> RowAllowed(db[p]))
    ensures Stands(db, Reserving, Whole(lines, p), order) <==> CanHold(db, p, QtyOf(lines, p))
  {
    QtyOfPresent(lines, p);
    if p in db {
      ReserveSucceedsIff(db[p], QtyOf(lines, p), order);
    }
  }

  /** The shelf holds the merged quantity of a product. */
  predicate OnShelves(db: Db, p: ProductId, qty: int) {
    p in db && qty <= db[p].onHand
  }

  /** An order can be handed over exactly when, product by product, the shelf holds the sum of its lines. */
  lemma FulfilmentStandsIff(db: Db, lines: seq<Line>, order: Option<OrderId>)
    requires AllPositive(lines)
    requires forall p :: p in db ==> RowAllowed(db[p])
    ensures CallLines(db, Fulfilling, lines, order).Ok? <==>
            forall i :: 0 <= i < |lines| ==> OnShelves(db, lines[i].product, QtyOf(lines, lines[i].product))
  {
    CallStandsIff(db, Fulfilling, lines, order);
    forall i | 0 <= i < |lines|
      ensures Stands(db, Fulfilling, Whole(lines, lines[i].product), order)
         <==> OnShelves(db, lines[i].product, QtyOf(lines, lines[i].product))
    {
      FulfilLineIff(db, lines, lines[i].product, order);
    }
    hide Stands, OnShelves;
  }

  lemma FulfilLineIff(db: Db, lines: seq<Line>, p: ProductId, order: Option<OrderId>)
    requires AllPositive(lines) && Mentions(lines, p) && (p in db ==> RowAllowed(db[p]))
    ensures Stands(db, Fulfilling, Whole(lines, p), order) <==> OnShelves(db, p, QtyOf(lines, p))
  {
    QtyOfPresent(lines, p);
    if p in db {
      FulfillSucceedsIff(db[p], QtyOf(lines, p), order);
    }
  }

  lemma {:induction false} MergedQty(merged: seq<Line>, k: nat)
    requires Increasing(merged) && AllPositive(merged) && k < |merged|
    ensures QtyOf(merged, merged[k].product) == merged[k].qty
  {
    var n := |merged| - 1;
    if k == n {
      OnlyLast(merged);
    } else {
      MergedQty(merged[..n], k);
    }
  }

  /** The lines of two carts that differ only in order reserve, or fail to, alike. */
  lemma OrderOfLinesIsIrrelevant(db: Db, op: LineOp, a: seq<Line>, b: seq<Line>, order: Option<OrderId>)
    requires AllPositive(a) && AllPositive(b) && multiset(a) == multiset(b)
    ensures CallLines(db, op, a, order) == CallLines(db, op, b, order)
  {
    MergeIgnoresOrder(a, b, []);
  }
}
