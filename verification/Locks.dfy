/**
 * Row locks of concurrent transactions that each make one multi-line stock
 * call.  A call locks one product row after the other in the order of its
 * merged lines and keeps every lock until its transaction ends.
 */
module Locks {
  import opened Lines

  /** A transaction: the rows it locks, in order, and how many it has so far. */
  datatype Txn = Txn(rows: seq<ProductId>, got: nat)

  type System = seq<Txn>

  predicate Done(t: Txn) {
    t.got >= |t.rows|
  }

  /** The rows of a merged call. */
  function RowsOf(merged: seq<Line>): (rows: seq<ProductId>)
    ensures |rows| == |merged| && forall i :: 0 <= i < |rows| ==> rows[i] == merged[i].product
  {
    seq(|merged|, i requires 0 <= i < |merged| => merged[i].product)
  }

  predicate Ascending(rows: seq<ProductId>) {
    forall i, j :: 0 <= i < j < |rows| ==> rows[i] < rows[j]
  }

  /** The rows a stock call locks come in strictly ascending order. */
  lemma CallLocksAscending(lines: seq<Line>)
    requires AllPositive(lines)
    ensures Ascending(RowsOf(Merge(lines)))
  {
    MergeIsMerge(lines);
  }

  predicate Holds(t: Txn, row: ProductId) {
    exists i :: 0 <= i < t.got && i < |t.rows| && t.rows[i] == row
  }

  predicate Free(sys: System, row: ProductId) {
    forall k :: 0 <= k < |sys| ==> !Holds(sys[k], row)
  }

  /** The transaction `a` waits for a row that `b` holds. */
  predicate WaitsFor(sys: System, a: nat, b: nat)
    requires a < |sys| && b < |sys|
  {
    !Done(sys[a]) && Holds(sys[b], sys[a].rows[sys[a].got])
  }

  // ─── steps ───

  datatype Move = Begin(rows: seq<ProductId>) | Lock(k: nat) | Finish(k: nat) | Abort(k: nat)

  /**
   * A new transaction; one more lock; the end of a transaction that has all its
   * locks; or, at any moment, a rollback: a line that fails, a timeout.  Both
   * ends free every row at once.
   */
  predicate CanMove(sys: System, m: Move) {
    match m
    case Begin(rows) => Ascending(rows)
    case Lock(k) => k < |sys| && !Done(sys[k]) && Free(sys, sys[k].rows[sys[k].got])
    case Finish(k) => k < |sys| && Done(sys[k])
    case Abort(k) => k < |sys|
  }

  function After(sys: System, m: Move): System
    requires CanMove(sys, m)
  {
    match m
    case Begin(rows) => sys + [Txn(rows, 0)]
    case Lock(k) => sys[k := sys[k].(got := sys[k].got + 1)]
    case Finish(k) => sys[..k] + sys[k + 1..]
    case Abort(k) => sys[..k] + sys[k + 1..]
  }

  predicate Legal(sys: System, moves: seq<Move>)
    decreases |moves|
  {
    moves == [] || (CanMove(sys, moves[0]) && Legal(After(sys, moves[0]), moves[1..]))
  }

  function AfterAll(sys: System, moves: seq<Move>): System
    requires Legal(sys, moves)
    decreases |moves|
  {
    if moves == [] then sys else AfterAll(After(sys, moves[0]), moves[1..])
  }

  predicate AllAscending(sys: System) {
    forall k :: 0 <= k < |sys| ==> Ascending(sys[k].rows)
  }

  lemma {:induction false} StaysAscending(sys: System, moves: seq<Move>)
    requires Legal(sys, moves) && AllAscending(sys)
    ensures AllAscending(AfterAll(sys, moves))
    decreases |moves|
  {
    if moves != [] {
      StaysAscending(After(sys, moves[0]), moves[1..]);
    }
  }

  /** No row is held by two transactions. */
  ghost predicate Exclusive(sys: System) {
    forall a, b, row :: 0 <= a < b < |sys| && Holds(sys[a], row) ==> !Holds(sys[b], row)
  }

  lemma MoveKeepsExclusive(sys: System, m: Move)
    requires Exclusive(sys) && CanMove(sys, m)
    ensures Exclusive(After(sys, m))
  {
    var sys' := After(sys, m);
    forall a, b, row | 0 <= a < b < |sys'| && Holds(sys'[a], row)
      ensures !Holds(sys'[b], row)
    {
      match m
      case Begin(rows) =>
      case Lock(k) =>
        OneMoreRow(sys[k], row);
        assert Free(sys, sys[k].rows[sys[k].got]);
      case Finish(k) =>
      case Abort(k) =>
    }
  }

  lemma OneMoreRow(t: Txn, row: ProductId)
    requires !Done(t)
    ensures Holds(t.(got := t.got + 1), row) ==> Holds(t, row) || row == t.rows[t.got]
  {}

  /** In every reachable state a row has at most one holder. */
  lemma {:induction false} StaysExclusive(sys: System, moves: seq<Move>)
    requires Legal(sys, moves) && Exclusive(sys)
    ensures Exclusive(AfterAll(sys, moves))
    decreases |moves|
  {
    if moves != [] {
      MoveKeepsExclusive(sys, moves[0]);
      StaysExclusive(After(sys, moves[0]), moves[1..]);
    }
  }

  /** A rollback is possible at any moment; like a finish it frees every row of its transaction and no other. */
  lemma EndsFreeRows(sys: System, k: nat, row: ProductId)
    requires Exclusive(sys) && k < |sys|
    ensures CanMove(sys, Abort(k)) && (sys[k].got >= |sys[k].rows| ==> CanMove(sys, Finish(k)))
    ensures CanMove(sys, Finish(k)) ==> After(sys, Finish(k)) == After(sys, Abort(k))
    ensures Free(After(sys, Abort(k)), row) <==> Free(sys, row) || Holds(sys[k], row)
  {
    var sys' := After(sys, Abort(k));
    assert forall i :: 0 <= i < k ==> sys'[i] == sys[i];
    assert forall i :: k < i < |sys| ==> sys'[i - 1] == sys[i];
  }

  // ─── no circular wait ───

  /** Consecutive members of `cycle` wait for each other, and the last waits for the first. */
  ghost predicate CircularWait(sys: System, cycle: seq<nat>) {
    && cycle != []
    && (forall i :: 0 <= i < |cycle| ==> cycle[i] < |sys|)
    && (forall i :: 0 <= i < |cycle| - 1 ==> WaitsFor(sys, cycle[i], cycle[i + 1]))
    && WaitsFor(sys, cycle[|cycle| - 1], cycle[0])
  }

  /** The row a transaction waits for lies below the row its blocker waits for. */
  lemma WaitsUpwards(sys: System, a: nat, b: nat)
    requires AllAscending(sys) && a < |sys| && b < |sys| && WaitsFor(sys, a, b) && !Done(sys[b])
    ensures sys[a].rows[sys[a].got] < sys[b].rows[sys[b].got]
  {
    var row := sys[a].rows[sys[a].got];
    var i :| 0 <= i < sys[b].got && i < |sys[b].rows| && sys[b].rows[i] == row;
    assert Ascending(sys[b].rows);
  }

  lemma {:induction false} WantsGrow(sys: System, cycle: seq<nat>, i: nat)
    requires AllAscending(sys) && CircularWait(sys, cycle) && i < |cycle|
    ensures !Done(sys[cycle[i]]) && !Done(sys[cycle[0]])
    ensures sys[cycle[0]].rows[sys[cycle[0]].got] <= sys[cycle[i]].rows[sys[cycle[i]].got]
  {
    assert !Done(sys[cycle[|cycle| - 1]]);
    if |cycle| > 1 {
      assert WaitsFor(sys, cycle[0], cycle[1]);
    }
    if i > 0 {
      WantsGrow(sys, cycle, i - 1);
      assert WaitsFor(sys, cycle[i - 1], cycle[i]);
      if i < |cycle| - 1 {
        assert WaitsFor(sys, cycle[i], cycle[i + 1]);
      }
      WaitsUpwards(sys, cycle[i - 1], cycle[i]);
    }
  }

  /** However the transactions interleave, they never wait for each other in a circle. */
  lemma NoCircularWait(moves: seq<Move>, cycle: seq<nat>)
    requires Legal([], moves)
    ensures !CircularWait(AfterAll([], moves), cycle)
  {
    var sys := AfterAll([], moves);
    StaysAscending([], moves);
    if CircularWait(sys, cycle) {
      WantsGrow(sys, cycle, |cycle| - 1);
      WaitsUpwards(sys, cycle[|cycle| - 1], cycle[0]);
      assert false;
    }
  }

  // ─── somebody can always move ───

  /** Among the waiting transactions, the one that waits for the highest row. */
  lemma {:induction false} HighestWanted(sys: System, n: nat) returns (k: nat)
    requires n <= |sys| && exists i :: 0 <= i < n && !Done(sys[i])
    ensures k < n && !Done(sys[k])
    ensures forall i :: 0 <= i < n && !Done(sys[i]) ==> sys[i].rows[sys[i].got] <= sys[k].rows[sys[k].got]
  {
    if exists i :: 0 <= i < n - 1 && !Done(sys[i]) {
      k := HighestWanted(sys, n - 1);
      if !Done(sys[n - 1]) && sys[n - 1].rows[sys[n - 1].got] > sys[k].rows[sys[k].got] {
        k := n - 1;
      }
    } else {
      k := n - 1;
    }
  }

  /** While any transaction is open, one of them can take its next lock or finish: no deadlock. */
  lemma SomebodyCanMove(moves: seq<Move>)
    requires Legal([], moves) && AfterAll([], moves) != []
    ensures exists k: nat :: CanMove(AfterAll([], moves), Lock(k)) || CanMove(AfterAll([], moves), Finish(k))
  {
    var sys := AfterAll([], moves);
    StaysAscending([], moves);
    if k :| 0 <= k < |sys| && Done(sys[k]) {
      assert CanMove(sys, Finish(k));
    } else {
      assert !Done(sys[0]);
      var k := HighestWanted(sys, |sys|);
      var row := sys[k].rows[sys[k].got];
      forall b | 0 <= b < |sys|
        ensures !Holds(sys[b], row)
      {
        if Holds(sys[b], row) {
          WaitsUpwards(sys, k, b);
          assert false;
        }
      }
      assert CanMove(sys, Lock(k));
    }
  }
}
