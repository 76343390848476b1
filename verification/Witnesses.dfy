/** One small input for each promise the code does not keep; the exact conditions are proved in the laws. */
module Witnesses {
  import opened Prelude
  import opened Shelf
  import opened ShelfLaws
  import Money
  import AllocationLaws
  import Csv
  import Desc

  function EmptyShelf(tracked: bool, backorder: bool): Stock {
    Stock(false, tracked, backorder, 0, 0, 0, None, [], [], [], map[], 0)
  }

  lemma EmptyShelfIsValid(tracked: bool, backorder: bool)
    ensures Valid(EmptyShelf(tracked, backorder))
  {}

  /** A release of a copy nobody holds leaves the counter at zero and the ledger at minus one. */
  lemma ReleaseOfNothingDrifts()
    ensures var s := EmptyShelf(true, false);
            var s' := Next(s, DoRelease(1, None));
            Valid(s) && s'.reserved == 0 && ReservedSum(s'.moves) == -1
  {
    EmptyShelfIsValid(true, false);
    var s' := Next(EmptyShelf(true, false), DoRelease(1, None));
    assert s'.moves == [Move(OrderRelease, 0, -1, None, 0, None)];
  }

  /** A backorder product can be promised from an empty shelf, but not handed over. */
  lemma BackorderStopsAtEmptyShelf()
    ensures var s := EmptyShelf(true, true);
            Reserve(s, 1, None).Ok? && Fulfill(Reserve(s, 1, None).value, 1, None) == Err(CheckViolation)
  {}

  /** A product whose stock is not tracked cannot be reserved from an empty shelf. */
  lemma UntrackedStopsAtEmptyShelf()
    ensures Reserve(EmptyShelf(false, false), 1, None) == Err(CheckViolation)
  {}

  /** Minus one paisa over two equal weights comes out as nothing. */
  lemma NegativeTotalIsLost()
    ensures Money.SumInt(Money.Allocation(-1.0, [1.0, 1.0])) != Money.Round2(-1.0)
  {
    var w := [1.0, 1.0];
    assert w[1..] == [1.0] && w[1..][1..] == [];
    assert Money.Sum(w) == 2.0;
    assert Money.Shares(-1, w)[0] == Money.Share(-1, 1.0, 2.0) == -0.5;
    assert Money.Fracs(Money.Shares(-1, w))[0] == -0.5;
    AllocationLaws.AllocationAddsUp(-1.0, w);
  }

  /** A total over no weights is lost. */
  lemma TotalOverNothingIsLost()
    ensures Money.SumInt(Money.Allocation(1.0, [])) == 0 && Money.Round2(1.0) == 1
  {}

  /** A row without cells reads back as a row with one empty cell, and so does a table without rows. */
  lemma EmptyRowReadsBackAsEmptyCell()
    ensures Csv.Decode(Csv.Print([[]])) == Some([[""]]) && Csv.Decode(Csv.Print([])) == Some([[""]])
  {
    assert Csv.Print([[]]) == Csv.BOM && Csv.Print([]) == Csv.BOM;
    assert Csv.BOM[1..] == "";
    var none: Csv.Record := [];
    assert none + [""] == [""];
  }

  /** A point without text is dropped. */
  lemma EmptyPointIsDropped()
    ensures var d := Desc.DescParts("", [""]); Desc.Parse(Desc.JoinDesc(d)) != d
  {
    var d := Desc.DescParts("", [""]);
    assert !Desc.CleanPoint(d.points[0]);
    Desc.RoundTripIffCanonical(d);
  }
}
