/**
 * Order lines and how the inventory service merges them.
 *
 * Product ids are numbered in the order the service sorts them in.
 */
module Lines {

  type ProductId = nat

  datatype Line = Line(product: ProductId, qty: int)

  predicate AllPositive(lines: seq<Line>) {
    forall i :: 0 <= i < |lines| ==> 0 < lines[i].qty
  }

  /** Copies of one product asked for by all the lines together. */
  function QtyOf(lines: seq<Line>, p: ProductId): int {
    if lines == [] then 0
    else QtyOf(lines[..|lines| - 1], p) + if lines[|lines| - 1].product == p then lines[|lines| - 1].qty else 0
  }

  predicate Increasing(lines: seq<Line>) {
    forall i, j :: 0 <= i < j < |lines| ==> lines[i].product < lines[j].product
  }

  /** One positive line per product, products in increasing order, no copy lost or added. */
  ghost predicate IsMerge(lines: seq<Line>, merged: seq<Line>) {
    && Increasing(merged)
    && AllPositive(merged)
    && forall p: ProductId :: QtyOf(merged, p) == QtyOf(lines, p)
  }

  // ─── the merge ───

  /** `map.set(id, (map.get(id) ?? 0) + qty)` on the entries of a Map, kept in insertion order. */
  function AddEntry(entries: seq<Line>, l: Line): seq<Line> {
    if entries == [] then [l]
    else if entries[0].product == l.product then [Line(l.product, entries[0].qty + l.qty)] + entries[1..]
    else [entries[0]] + AddEntry(entries[1..], l)
  }

  function Entries(lines: seq<Line>): seq<Line> {
    if lines == [] then [] else AddEntry(Entries(lines[..|lines| - 1]), lines[|lines| - 1])
  }

  function InsertSorted(lines: seq<Line>, l: Line): seq<Line> {
    if lines != [] && lines[0].product < l.product then [lines[0]] + InsertSorted(lines[1..], l) else [l] + lines
  }

  function SortLines(lines: seq<Line>): seq<Line> {
    if lines == [] then [] else InsertSorted(SortLines(lines[..|lines| - 1]), lines[|lines| - 1])
  }

  function Merge(lines: seq<Line>): seq<Line> {
    SortLines(Entries(lines))
  }

  // ─── it is one ───

  predicate Distinct(lines: seq<Line>) {
    forall i, j :: 0 <= i < j < |lines| ==> lines[i].product != lines[j].product
  }

  lemma {:induction false} QtyOfAppend(a: seq<Line>, b: seq<Line>, p: ProductId)
    ensures QtyOf(a + b, p) == QtyOf(a, p) + QtyOf(b, p)
  {
    if b == [] {
      assert a + b == a;
    } else {
      var n := |b| - 1;
      QtyOfAppend(a, b[..n], p);
      assert (a + b)[..|a + b| - 1] == a + b[..n];
    }
  }

  lemma QtyOfCons(l: Line, rest: seq<Line>, p: ProductId)
    ensures QtyOf([l] + rest, p) == QtyOf(rest, p) + if l.product == p then l.qty else 0
  {
    QtyOfAppend([l], rest, p);
    assert [l][..0] == [];
  }

  lemma HeadTail(lines: seq<Line>)
    requires lines != []
    ensures lines == [lines[0]] + lines[1..]
  {}

  lemma {:induction false} AddEntryQty(entries: seq<Line>, l: Line, p: ProductId)
    ensures QtyOf(AddEntry(entries, l), p) == QtyOf(entries, p) + if l.product == p then l.qty else 0
  {
    if entries == [] {
      QtyOfCons(l, [], p);
      assert [l] + [] == [l];
    } else {
      HeadTail(entries);
      QtyOfCons(entries[0], entries[1..], p);
      if entries[0].product == l.product {
        QtyOfCons(Line(l.product, entries[0].qty + l.qty), entries[1..], p);
      } else {
        AddEntryQty(entries[1..], l, p);
        QtyOfCons(entries[0], AddEntry(entries[1..], l), p);
      }
    }
  }

  /** Merging a line in names no product that was not named before, but its own. */
  lemma {:induction false} AddEntryProducts(entries: seq<Line>, l: Line, x: Line)
    requires x in AddEntry(entries, l) && x.product != l.product
    ensures x in entries
  {
    if entries != [] && entries[0].product != l.product {
      if x != entries[0] {
        AddEntryProducts(entries[1..], l, x);
      }
    }
  }

  lemma {:induction false} AddEntryShape(entries: seq<Line>, l: Line)
    requires Distinct(entries) && AllPositive(entries) && 0 < l.qty
    ensures Distinct(AddEntry(entries, l)) && AllPositive(AddEntry(entries, l))
  {
    if entries != [] && entries[0].product != l.product {
      var rest := AddEntry(entries[1..], l);
      AddEntryShape(entries[1..], l);
      forall j | 0 <= j < |rest|
        ensures rest[j].product != entries[0].product
      {
        if rest[j].product != l.product {
          AddEntryProducts(entries[1..], l, rest[j]);
        }
      }
    }
  }

  lemma {:induction false} EntriesShape(lines: seq<Line>)
    requires AllPositive(lines)
    ensures Distinct(Entries(lines)) && AllPositive(Entries(lines))
  {
    if lines != [] {
      EntriesShape(lines[..|lines| - 1]);
      AddEntryShape(Entries(lines[..|lines| - 1]), lines[|lines| - 1]);
    }
  }

  lemma {:induction false} EntriesQty(lines: seq<Line>, p: ProductId)
    ensures QtyOf(Entries(lines), p) == QtyOf(lines, p)
  {
    if lines != [] {
      EntriesQty(lines[..|lines| - 1], p);
      AddEntryQty(Entries(lines[..|lines| - 1]), lines[|lines| - 1], p);
    }
  }

  lemma {:induction false} InsertSortedShape(lines: seq<Line>, l: Line)
    requires Increasing(lines) && AllPositive(lines) && 0 < l.qty
    requires forall x :: x in lines ==> x.product != l.product
    ensures Increasing(InsertSorted(lines, l)) && AllPositive(InsertSorted(lines, l))
    ensures forall x :: x in InsertSorted(lines, l) <==> x in lines || x == l
  {
    if lines != [] && lines[0].product < l.product {
      var rest := InsertSorted(lines[1..], l);
      InsertSortedShape(lines[1..], l);
      forall j | 0 <= j < |rest|
        ensures lines[0].product < rest[j].product
      {
        assert rest[j] in rest;
      }
      HeadTail(lines);
    } else if lines != [] {
      assert lines[0] in lines;
    }
  }

  lemma {:induction false} InsertSortedQty(lines: seq<Line>, l: Line, p: ProductId)
    ensures QtyOf(InsertSorted(lines, l), p) == QtyOf(lines, p) + if l.product == p then l.qty else 0
  {
    if lines != [] && lines[0].product < l.product {
      HeadTail(lines);
      InsertSortedQty(lines[1..], l, p);
      QtyOfCons(lines[0], lines[1..], p);
      QtyOfCons(lines[0], InsertSorted(lines[1..], l), p);
    } else {
      QtyOfCons(l, lines, p);
    }
  }

  lemma {:induction false} SortLinesShape(lines: seq<Line>)
    requires Distinct(lines) && AllPositive(lines)
    ensures Increasing(SortLines(lines)) && AllPositive(SortLines(lines))
    ensures forall x :: x in SortLines(lines) <==> x in lines
  {
    if lines != [] {
      var n := |lines| - 1;
      SortLinesShape(lines[..n]);
      assert lines == lines[..n] + [lines[n]];
      InsertSortedShape(SortLines(lines[..n]), lines[n]);
    }
  }

  lemma {:induction false} SortLinesQty(lines: seq<Line>, p: ProductId)
    ensures QtyOf(SortLines(lines), p) == QtyOf(lines, p)
  {
    if lines != [] {
      SortLinesQty(lines[..|lines| - 1], p);
      InsertSortedQty(SortLines(lines[..|lines| - 1]), lines[|lines| - 1], p);
    }
  }

  lemma MergeIsMerge(lines: seq<Line>)
    requires AllPositive(lines)
    ensures IsMerge(lines, Merge(lines))
  {
    EntriesShape(lines);
    SortLinesShape(Entries(lines));
    forall p: ProductId
      ensures QtyOf(Merge(lines), p) == QtyOf(lines, p)
    {
      EntriesQty(lines, p);
      SortLinesQty(Entries(lines), p);
    }
  }

  // ─── there is only one ───

  lemma {:induction false} QtyOfPresent(lines: seq<Line>, p: ProductId)
    requires AllPositive(lines)
    ensures 0 <= QtyOf(lines, p)
    ensures 0 < QtyOf(lines, p) <==> exists i :: 0 <= i < |lines| && lines[i].product == p
  {
    if lines != [] {
      var n := |lines| - 1;
      QtyOfPresent(lines[..n], p);
      if exists i :: 0 <= i < n && lines[..n][i].product == p {
        var i :| 0 <= i < n && lines[..n][i].product == p;
        assert lines[i].product == p;
      }
      if i :| 0 <= i < |lines| && lines[i].product == p {
        if i < n {
          assert lines[..n][i].product == p;
        }
      }
    }
  }

  lemma {:induction false} MergeUnique(a: seq<Line>, b: seq<Line>)
    requires Increasing(a) && AllPositive(a) && Increasing(b) && AllPositive(b)
    requires forall p: ProductId :: QtyOf(a, p) == QtyOf(b, p)
    ensures a == b
  {
    if a == [] || b == [] {
      if a != [] {
        QtyOfPresent(a, a[0].product);
        QtyOfPresent(b, a[0].product);
      } else if b != [] {
        QtyOfPresent(a, b[0].product);
        QtyOfPresent(b, b[0].product);
      }
    } else {
      var n, m := |a| - 1, |b| - 1;
      LastNotAbove(a, b);
      LastNotAbove(b, a);
      var p := a[n].product;
      OnlyLast(a);
      OnlyLast(b);
      assert QtyOf(a, p) == QtyOf(b, p);
      forall q: ProductId
        ensures QtyOf(a[..n], q) == QtyOf(b[..m], q)
      {
        assert QtyOf(a, q) == QtyOf(b, q);
      }
      MergeUnique(a[..n], b[..m]);
      assert a == a[..n] + [a[n]] && b == b[..m] + [b[m]];
    }
  }

  lemma LastNotAbove(a: seq<Line>, b: seq<Line>)
    requires a != [] && b != [] && AllPositive(a) && AllPositive(b) && Increasing(b)
    requires forall p: ProductId :: QtyOf(a, p) == QtyOf(b, p)
    ensures a[|a| - 1].product <= b[|b| - 1].product
  {
    var p := a[|a| - 1].product;
    QtyOfPresent(a, p);
    QtyOfPresent(b, p);
    assert QtyOf(a, p) == QtyOf(b, p);
    var i :| 0 <= i < |b| && b[i].product == p;
  }

  lemma OnlyLast(a: seq<Line>)
    requires a != [] && Increasing(a) && AllPositive(a)
    ensures QtyOf(a, a[|a| - 1].product) == a[|a| - 1].qty
  {
    var n := |a| - 1;
    QtyOfPresent(a[..n], a[n].product);
    assert forall i :: 0 <= i < n ==> a[..n][i].product == a[i].product < a[n].product;
  }

  lemma TakeOut(lines: seq<Line>, k: nat, p: ProductId)
    requires k < |lines|
    ensures var rest := lines[..k] + lines[k + 1..];
            && multiset(lines) == multiset(rest) + multiset{lines[k]}
            && QtyOf(lines, p) == QtyOf(rest, p) + if lines[k].product == p then lines[k].qty else 0
  {
    var l := lines[k];
    assert lines == lines[..k] + ([l] + lines[k + 1..]);
    QtyOfAppend(lines[..k], [l] + lines[k + 1..], p);
    QtyOfCons(l, lines[k + 1..], p);
    QtyOfAppend(lines[..k], lines[k + 1..], p);
  }

  lemma SameWithoutOne(x: multiset<Line>, y: multiset<Line>, l: Line)
    requires x + multiset{l} == y + multiset{l}
    ensures x == y
  {
    assert x == (x + multiset{l}) - multiset{l};
    assert y == (y + multiset{l}) - multiset{l};
  }

  lemma {:induction false} QtyOfPermutation(a: seq<Line>, b: seq<Line>, p: ProductId)
    requires multiset(a) == multiset(b)
    ensures QtyOf(a, p) == QtyOf(b, p)
    decreases |a|
  {
    if a == [] {
      assert |multiset(b)| == 0;
    } else {
      var l := a[0];
      assert l in multiset(b);
      var k :| 0 <= k < |b| && b[k] == l;
      TakeOut(a, 0, p);
      TakeOut(b, k, p);
      var a', b' := a[..0] + a[1..], b[..k] + b[k + 1..];
      SameWithoutOne(multiset(a'), multiset(b'), l);
      QtyOfPermutation(a', b', p);
    }
  }

  /** The merge does not depend on the order of the lines, and is the only list with its properties. */
  lemma MergeIgnoresOrder(a: seq<Line>, b: seq<Line>, merged: seq<Line>)
    requires AllPositive(a) && AllPositive(b) && multiset(a) == multiset(b)
    ensures Merge(a) == Merge(b)
    ensures IsMerge(a, merged) ==> merged == Merge(b)
  {
    MergeIsMerge(a);
    MergeIsMerge(b);
    forall p: ProductId
      ensures QtyOf(a, p) == QtyOf(b, p)
    {
      QtyOfPermutation(a, b, p);
    }
    MergeUnique(Merge(a), Merge(b));
    if IsMerge(a, merged) {
      MergeUnique(merged, Merge(b));
    }
  }
}
