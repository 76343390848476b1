/** Reservations through the whole service: several products, several orders. */
module OrderHolds {
  import opened Prelude
  import opened Batches
  import opened Lines
  import opened Shelf
  import opened ShelfLaws
  import opened Holds
  import opened Calls
  import opened OrderReturns

  /** For each product, how many copies each order holds. */
  type Books = map<ProductId, HoldBook>

  function BookOf(books: Books, p: ProductId): HoldBook {
    if p in books then books[p] else map[]
  }

  /** The book of one product after a call: an event for it moves the hold of the caller. */
  function BookAfterCall(book: HoldBook, db: Db, c: Call, p: ProductId): HoldBook
    requires p in db
  {
    var events := EventsFor(db, c, p);
    if events == [] then book else BookAfter(book, db[p], events[0])
  }

  function BooksAfter(books: Books, db: Db, c: Call): Books {
    map p | p in db :: BookAfterCall(BookOf(books, p), db, c, p)
  }

  function BooksAfterAll(books: Books, db: Db, calls: seq<Call>): Books
    decreases |calls|
  {
    if calls == [] then books else BooksAfterAll(BooksAfter(books, db, calls[0]), CallNext(db, calls[0]), calls[1..])
  }

  /** The order holds all it asks of this product. */
  predicate HoldsLine(books: Books, lines: seq<Line>, p: ProductId, order: Option<OrderId>) {
    QtyOf(lines, p) <= Held(BookOf(books, p), order)
  }

  /** A call releases and hands over only what its order holds. */
  predicate OnlyHeldLines(books: Books, c: Call) {
    c.OnLines? && (c.op.Releasing? || c.op.Fulfilling?) ==>
      forall i :: 0 <= i < |c.lines| ==> HoldsLine(books, c.lines, c.lines[i].product, c.order)
  }

  predicate ServiceDisciplined(books: Books, db: Db, calls: seq<Call>)
    decreases |calls|
  {
    calls == [] ||
    (OnlyHeldLines(books, calls[0])
     && ServiceDisciplined(BooksAfter(books, db, calls[0]), CallNext(db, calls[0]), calls[1..]))
  }

  /** For every product that is not backordered, the reserved counter is the sum of the open holds. */
  ghost predicate BooksTell(books: Books, db: Db) {
    forall p :: p in db && !db[p].backorder ==> BookTells(BookOf(books, p), db[p])
  }

  lemma EventIsHeld(books: Books, db: Db, c: Call, p: ProductId)
    requires OnlyHeldLines(books, c) && p in db && EventsFor(db, c, p) != []
    ensures |EventsFor(db, c, p)| == 1 && OnlyWhatIsHeld(BookOf(books, p), EventsFor(db, c, p)[0])
  {
    if c.OnLines? && (c.op.Releasing? || c.op.Fulfilling?) {
      var k :| 0 <= k < |Merge(c.lines)| && Merge(c.lines)[k].product == p;
      var i := AskedFor(c.lines, k);
      assert HoldsLine(books, c.lines, c.lines[i].product, c.order);
    }
  }

  lemma BookFollows(books: Books, db: Db, c: Call, p: ProductId)
    requires OnlyHeldLines(books, c) && p in db && Valid(db[p])
    requires !db[p].backorder && BookTells(BookOf(books, p), db[p])
    ensures p in CallNext(db, c) && !CallNext(db, c)[p].backorder
    ensures BookTells(BookOf(BooksAfter(books, db, c), p), CallNext(db, c)[p])
  {
    CallPerProduct(db, c, p);
    OneEvent(db[p]);
    var events := EventsFor(db, c, p);
    if events != [] {
      EventIsHeld(books, db, c, p);
      assert events == [events[0]];
      DisciplinedStep(BookOf(books, p), db[p], events[0]);
    }
  }

  /** No call turns backorder on. */
  lemma BackorderStays(db: Db, c: Call, p: ProductId)
    requires p in db && Valid(db[p])
    ensures p in CallNext(db, c) && CallNext(db, c)[p].backorder == db[p].backorder
  {
    CallPerProduct(db, c, p);
    OneEvent(db[p]);
    var events := EventsFor(db, c, p);
    if events != [] {
      assert events == [events[0]];
      if Step(db[p], events[0]).Ok? {
        StepEffect(db[p], events[0]);
      }
    }
  }

  lemma BooksFollow(books: Books, db: Db, c: Call)
    requires AllValid(db) && BooksTell(books, db) && OnlyHeldLines(books, c)
    ensures BooksTell(BooksAfter(books, db, c), CallNext(db, c))
  {
    CallKeepsValid(db, c);
    forall p | p in CallNext(db, c) && !CallNext(db, c)[p].backorder
      ensures BookTells(BookOf(BooksAfter(books, db, c), p), CallNext(db, c)[p])
    {
      BackorderStays(db, c, p);
      BookFollows(books, db, c, p);
    }
  }

  /**
   * Hold safety of the service.  While orders release and hand over only what
   * they hold, after any run of calls over any products the reserved counter
   * of every product without backorder is the sum of the open holds, and the
   * shelf covers it.
   */
  lemma {:induction false} ServiceHoldSafety(books: Books, db: Db, calls: seq<Call>)
    requires AllValid(db) && BooksTell(books, db) && ServiceDisciplined(books, db, calls)
    ensures AllValid(CallRun(db, calls)) && BooksTell(BooksAfterAll(books, db, calls), CallRun(db, calls))
    ensures forall p :: p in CallRun(db, calls) && !CallRun(db, calls)[p].backorder ==>
              TotalHeld(BookOf(BooksAfterAll(books, db, calls), p)) <= CallRun(db, calls)[p].onHand
    decreases |calls|
  {
    if calls != [] {
      BooksFollow(books, db, calls[0]);
      CallKeepsValid(db, calls[0]);
      ServiceHoldSafety(BooksAfter(books, db, calls[0]), CallNext(db, calls[0]), calls[1..]);
    }
  }

  /** An order that holds every product it asks for is always handed over whole. */
  lemma HeldOrderIsHandedOver(books: Books, db: Db, lines: seq<Line>, order: Option<OrderId>)
    requires AllValid(db) && BooksTell(books, db) && AllPositive(lines)
    requires forall i :: 0 <= i < |lines| ==> lines[i].product in db && !db[lines[i].product].backorder
    requires OnlyHeldLines(books, OnLines(Fulfilling, lines, order))
    ensures CallLines(db, Fulfilling, lines, order).Ok?
  {
    FulfilmentStandsIff(db, lines, order);
    forall i | 0 <= i < |lines|
      ensures OnShelves(db, lines[i].product, QtyOf(lines, lines[i].product))
    {
      var p := lines[i].product;
      assert HoldsLine(books, lines, p, order) && BookTells(BookOf(books, p), db[p]);
      TotalHeldUpdate(BookOf(books, p), order, 0);
    }
  }
}
