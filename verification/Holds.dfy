/**
 * Reservations, seen from the orders that hold them.
 *
 * The service keeps one number per product.  This module adds a record of how
 * many copies each order holds, and shows that the number is its sum as long
 * as nobody gives back more than they hold.
 */
module Holds {
  import opened Prelude
  import opened Batches
  import opened Shelf
  import opened ShelfLaws

  /** Who holds copies: an order, or a caller that named none. */
  type Holder = Option<OrderId>
  type HoldBook = map<Holder, nat>

  function Held(book: HoldBook, who: Holder): nat {
    if who in book then book[who] else 0
  }

  ghost function TotalHeld(book: HoldBook): nat
    decreases |book|
  {
    if book == map[] then 0
    else
      var who :| who in book;
      book[who] + TotalHeld(book - {who})
  }

  /** The total does not depend on the order in which holders are counted. */
  lemma {:induction false} TotalHeldPick(book: HoldBook, who: Holder)
    requires who in book
    ensures TotalHeld(book) == book[who] + TotalHeld(book - {who})
    decreases |book|
  {
    var first :| first in book && TotalHeld(book) == book[first] + TotalHeld(book - {first});
    if first != who {
      var rest, without := book - {first}, book - {who};
      TotalHeldPick(rest, who);
      TotalHeldPick(without, first);
      assert rest - {who} == without - {first};
    }
  }

  lemma TotalHeldUpdate(book: HoldBook, who: Holder, n: nat)
    ensures TotalHeld(book[who := n]) == TotalHeld(book) - Held(book, who) + n
    ensures Held(book, who) <= TotalHeld(book)
  {
    var after := book[who := n];
    TotalHeldPick(after, who);
    assert after - {who} == book - {who};
    if who in book {
      TotalHeldPick(book, who);
    } else {
      assert book - {who} == book;
    }
  }

  /** The book after a call: a successful one moves the hold of the caller. */
  function BookAfter(book: HoldBook, s: Stock, e: Event): HoldBook {
    if Step(s, e).Err? then book
    else match e
      case DoReserve(qty, who) => book[who := Held(book, who) + Max(qty, 0)]
      case DoRelease(qty, who) => book[who := Max(Held(book, who) - qty, 0)]
      case DoFulfill(qty, who) => book[who := Max(Held(book, who) - qty, 0)]
      case _ => book
  }

  /** Release and fulfil only what the caller holds. */
  predicate OnlyWhatIsHeld(book: HoldBook, e: Event) {
    e.DoRelease? || e.DoFulfill? ==> e.qty <= Held(book, e.order)
  }

  ghost predicate Disciplined(book: HoldBook, s: Stock, events: seq<Event>)
    decreases |events|
  {
    events == [] ||
    (OnlyWhatIsHeld(book, events[0]) && Disciplined(BookAfter(book, s, events[0]), Next(s, events[0]), events[1..]))
  }

  ghost predicate BookTells(book: HoldBook, s: Stock) {
    s.reserved == TotalHeld(book)
  }

  /**
   * What hold safety says of one call: the reservation is covered by the
   * shelf, giving back or handing over a held quantity is never refused and
   * never clamped, and the ledger's reserved column stays exact.
   */
  ghost predicate SafeStep(book: HoldBook, s: Stock, e: Event) {
    && BookTells(book, s)
    && 0 <= s.reserved <= s.onHand
    && ((e.DoRelease? || e.DoFulfill?) && 0 < e.qty ==> Step(s, e).Ok? && e.qty <= s.reserved)
    && (Step(s, e).Ok? ==> Next(s, e).reserved - ReservedSum(Next(s, e).moves) == s.reserved - ReservedSum(s.moves))
  }

  ghost predicate SafeRun(book: HoldBook, s: Stock, events: seq<Event>)
    decreases |events|
  {
    events == [] ||
    (SafeStep(book, s, events[0]) && SafeRun(BookAfter(book, s, events[0]), Next(s, events[0]), events[1..]))
  }

  lemma DisciplinedStep(book: HoldBook, s: Stock, e: Event)
    requires Valid(s) && !s.backorder && BookTells(book, s) && OnlyWhatIsHeld(book, e)
    ensures SafeStep(book, s, e)
    ensures BookTells(BookAfter(book, s, e), Next(s, e)) && !Next(s, e).backorder
  {
    if e.DoReserve? || e.DoRelease? || e.DoFulfill? {
      TotalHeldUpdate(book, e.order, Held(BookAfter(book, s, e), e.order));
    }
    if Step(s, e).Ok? {
      StepEffect(s, e);
      OkCallsArePositive(s, e);
      ReservedLedgerFollowsIff(s, e);
    }
  }

  /** Hold safety, over every run in which callers give back only what they hold. */
  lemma {:induction false} HoldSafety(book: HoldBook, s: Stock, events: seq<Event>)
    requires Valid(s) && !s.backorder && BookTells(book, s)
    requires Disciplined(book, s, events)
    ensures SafeRun(book, s, events)
    ensures 0 <= Run(s, events).reserved <= Run(s, events).onHand
    decreases |events|
  {
    if events != [] {
      var e := events[0];
      DisciplinedStep(book, s, e);
      StepKeepsValid(s, e);
      HoldSafety(BookAfter(book, s, e), Next(s, e), events[1..]);
    }
  }
}
