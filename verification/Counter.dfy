/**
 * Human document numbers.  A transaction takes a number by incrementing its
 * scope's row and keeps the row locked until it commits or rolls back.
 */
module Counter {
  import opened Text

  datatype Scope = Order | Invoice | Receipt | CreditNote | Purchase

  /** A row of `document_counters`. */
  datatype Row = Row(prefix: string, next: nat, padding: nat)

  function Default(scope: Scope): Row {
    match scope
    case Order => Row("CLO-", 2042, 4)
    case Invoice => Row("INV-", 1, 6)
    case Receipt => Row("RCT-", 1, 6)
    case CreditNote => Row("CRN-", 1, 6)
    case Purchase => Row("PUR-", 101, 6)
  }

  type TxId = nat
  datatype Number = Number(scope: Scope, value: nat)

  /** An open transaction: its own, uncommitted versions of the rows it locked, and the numbers it took. */
  datatype Open = Open(rows: map<Scope, Row>, taken: seq<Number>)

  datatype Database = Database(rows: map<Scope, Row>, open: map<TxId, Open>, committed: seq<Number>)

  datatype Step = Next(tx: TxId, scope: Scope) | Commit(tx: TxId) | Rollback(tx: TxId)

  function OpenOf(db: Database, tx: TxId): Open {
    if tx in db.open then db.open[tx] else Open(map[], [])
  }

  /** The row as the transaction sees it: its own version, the committed one, or a freshly inserted default. */
  function RowSeen(db: Database, tx: TxId, scope: Scope): Row {
    if scope in OpenOf(db, tx).rows then OpenOf(db, tx).rows[scope]
    else if scope in db.rows then db.rows[scope]
    else Default(scope)
  }

  /** `next` returns once no other open transaction holds the row. */
  predicate Enabled(db: Database, s: Step) {
    s.Next? ==> forall other :: other in db.open && other != s.tx ==> s.scope !in db.open[other].rows
  }

  function After(db: Database, s: Step): Database {
    match s
    case Next(tx, scope) =>
      var row := RowSeen(db, tx, scope);
      var mine := OpenOf(db, tx);
      db.(open := db.open[tx := Open(mine.rows[scope := row.(next := row.next + 1)],
                                     mine.taken + [Number(scope, row.next)])])
    case Commit(tx) =>
      Database(db.rows + OpenOf(db, tx).rows, db.open - {tx}, db.committed + OpenOf(db, tx).taken)
    case Rollback(tx) =>
      db.(open := db.open - {tx})
  }

  ghost predicate Legal(db: Database, steps: seq<Step>)
    decreases |steps|
  {
    steps == [] || (Enabled(db, steps[0]) && Legal(After(db, steps[0]), steps[1..]))
  }

  function AfterAll(db: Database, steps: seq<Step>): Database
    decreases |steps|
  {
    if steps == [] then db else AfterAll(After(db, steps[0]), steps[1..])
  }

  // ─── gaplessness ───

  /** The values of one scope among some numbers, in order. */
  function ValuesOf(numbers: seq<Number>, scope: Scope): seq<nat> {
    if numbers == [] then []
    else
      var n := |numbers| - 1;
      ValuesOf(numbers[..n], scope) + if numbers[n].scope == scope then [numbers[n].value] else []
  }

  lemma {:induction false} ValuesOfAppend(a: seq<Number>, b: seq<Number>, scope: Scope)
    ensures ValuesOf(a + b, scope) == ValuesOf(a, scope) + ValuesOf(b, scope)
  {
    if b == [] {
      assert a + b == a;
    } else {
      var n := |b| - 1;
      ValuesOfAppend(a, b[..n], scope);
      assert (a + b)[..|a + b| - 1] == a + b[..n];
    }
  }

  function Range(from: nat, to: nat): (r: seq<nat>)
    requires from <= to
    ensures |r| == to - from && forall i :: 0 <= i < |r| ==> r[i] == from + i
  {
    seq(to - from, i => from + i)
  }

  /** The first number a scope will ever give out from this database. */
  function Start(db: Database, scope: Scope): nat {
    if scope in db.rows then db.rows[scope].next else Default(scope).next
  }

  function CommittedRow(db: Database, scope: Scope): Row {
    if scope in db.rows then db.rows[scope] else Default(scope)
  }

  /** The transaction's numbers of the scope run on from the row `base` to its own version of it. */
  ghost predicate RunsOn(base: Row, t: Open, scope: Scope) {
    if scope in t.rows then
      && base.next < t.rows[scope].next
      && t.rows[scope] == base.(next := t.rows[scope].next)
      && ValuesOf(t.taken, scope) == Range(base.next, t.rows[scope].next)
    else ValuesOf(t.taken, scope) == []
  }

  ghost predicate HolderExact(db: Database, tx: TxId, scope: Scope)
    requires tx in db.open
  {
    RunsOn(CommittedRow(db, scope), db.open[tx], scope)
  }

  /** The committed numbers of a scope, and its committed row, run without gap from the first number. */
  ghost predicate CommittedExact(origin: Database, db: Database, scope: Scope) {
    && Start(origin, scope) <= CommittedRow(db, scope).next
    && CommittedRow(db, scope) == CommittedRow(origin, scope).(next := CommittedRow(db, scope).next)
    && ValuesOf(db.committed, scope) == Range(Start(origin, scope), CommittedRow(db, scope).next)
  }

  /**
   * The committed numbers of each scope run without gap or repeat from the
   * first one to the committed counter; at most one open transaction holds
   * the scope, and the numbers it took run on from there.
   */
  ghost predicate Gapless(origin: Database, db: Database, scope: Scope) {
    && CommittedExact(origin, db, scope)
    && (forall tx :: tx in db.open ==> HolderExact(db, tx, scope))
    && OneHolder(db, scope)
  }

  ghost predicate OneHolder(db: Database, scope: Scope) {
    forall a, b :: a in db.open && b in db.open && a != b && scope in db.open[a].rows ==> scope !in db.open[b].rows
  }

  lemma NextKeepsOneHolder(db: Database, tx: TxId, taken: Scope, scope: Scope)
    requires OneHolder(db, scope) && Enabled(db, Next(tx, taken))
    ensures OneHolder(After(db, Next(tx, taken)), scope)
  {}

  lemma NextKeepsGapless(origin: Database, db: Database, tx: TxId, taken: Scope, scope: Scope)
    requires Gapless(origin, db, scope) && Enabled(db, Next(tx, taken))
    ensures Gapless(origin, After(db, Next(tx, taken)), scope)
  {
    var db' := After(db, Next(tx, taken));
    NextKeepsOneHolder(db, tx, taken, scope);
    TakerExact(db, tx, taken, scope);
    forall other | other in db'.open && other != tx
      ensures HolderExact(db', other, scope)
    {
      BystanderExact(db, tx, taken, other, scope);
    }
  }

  lemma BystanderExact(db: Database, tx: TxId, taken: Scope, other: TxId, scope: Scope)
    requires other in db.open && other != tx && HolderExact(db, other, scope)
    ensures HolderExact(After(db, Next(tx, taken)), other, scope)
  {}

  lemma NothingTakenYet(base: Row, scope: Scope)
    ensures RunsOn(base, Open(map[], []), scope)
  {}

  /** The transaction that takes a number goes on exactly where it, or the committed counter, stood. */
  lemma TakerExact(db: Database, tx: TxId, taken: Scope, scope: Scope)
    requires tx in db.open ==> HolderExact(db, tx, scope)
    ensures HolderExact(After(db, Next(tx, taken)), tx, scope)
  {
    NothingTakenYet(CommittedRow(db, scope), scope);
    hide RunsOn, ValuesOf, Default;
    TakeRunsOn(CommittedRow(db, scope), OpenOf(db, tx), RowSeen(db, tx, taken), taken, scope);
  }

  lemma TakeRunsOn(base: Row, t: Open, row: Row, taken: Scope, scope: Scope)
    requires RunsOn(base, t, scope)
    requires taken == scope ==> row == if scope in t.rows then t.rows[scope] else base
    ensures RunsOn(base, Open(t.rows[taken := row.(next := row.next + 1)], t.taken + [Number(taken, row.next)]), scope)
  {
    TakenValues(t.taken, Number(taken, row.next), scope);
    RangeGrows(base.next, row.next);
  }

  lemma TakenValues(numbers: seq<Number>, n: Number, scope: Scope)
    ensures ValuesOf(numbers + [n], scope) == ValuesOf(numbers, scope) + if n.scope == scope then [n.value] else []
  {
    assert (numbers + [n])[..|numbers|] == numbers;
  }

  lemma RangeGrows(from: nat, to: nat)
    ensures from <= to ==> Range(from, to + 1) == Range(from, to) + [to]
  {}

  lemma RangesJoin(a: nat, b: nat, c: nat)
    requires a <= b <= c
    ensures Range(a, b) + Range(b, c) == Range(a, c)
  {}

  /** A commit leaves the other holders where they were: none of them holds a row it writes. */
  lemma OthersAfterCommit(db: Database, tx: TxId, other: TxId, scope: Scope)
    requires other in db.open && other != tx && HolderExact(db, other, scope) && OneHolder(db, scope)
    ensures other in After(db, Commit(tx)).open && HolderExact(After(db, Commit(tx)), other, scope)
  {
    hide ValuesOf, Range, Default;
  }

  /** The numbers of the committing transaction run on from the committed ones. */
  lemma CommitExtends(origin: Database, db: Database, tx: TxId, scope: Scope)
    requires CommittedExact(origin, db, scope) && (tx in db.open ==> HolderExact(db, tx, scope))
    ensures CommittedExact(origin, After(db, Commit(tx)), scope)
  {
    var mine, base := OpenOf(db, tx), CommittedRow(db, scope);
    ValuesOfAppend(db.committed, mine.taken, scope);
    if scope in mine.rows {
      RangesJoin(Start(origin, scope), base.next, mine.rows[scope].next);
    }
  }

  lemma CommitKeepsGapless(origin: Database, db: Database, tx: TxId, scope: Scope)
    requires Gapless(origin, db, scope)
    ensures Gapless(origin, After(db, Commit(tx)), scope)
  {
    CommitExtends(origin, db, tx, scope);
    forall other | other in After(db, Commit(tx)).open
      ensures HolderExact(After(db, Commit(tx)), other, scope)
    {
      assert HolderExact(db, other, scope);
      OthersAfterCommit(db, tx, other, scope);
    }
    hide HolderExact, CommittedExact;
  }

  lemma StepKeepsGapless(origin: Database, db: Database, s: Step, scope: Scope)
    requires Gapless(origin, db, scope) && Enabled(db, s)
    ensures Gapless(origin, After(db, s), scope)
  {
    match s
    case Next(tx, taken) => NextKeepsGapless(origin, db, tx, taken, scope);
    case Commit(tx) => CommitKeepsGapless(origin, db, tx, scope);
    case Rollback(tx) =>
      var db' := After(db, s);
      forall other | other in db'.open
        ensures HolderExact(db', other, scope)
      {
        assert HolderExact(db, other, scope);
      }
  }

  lemma {:induction false} RunKeepsGapless(origin: Database, db: Database, steps: seq<Step>, scope: Scope)
    requires Gapless(origin, db, scope) && Legal(db, steps)
    ensures Gapless(origin, AfterAll(db, steps), scope)
    decreases |steps|
  {
    if steps != [] {
      StepKeepsGapless(origin, db, steps[0], scope);
      RunKeepsGapless(origin, After(db, steps[0]), steps[1..], scope);
    }
  }

  /** A database at rest: no open transaction, nothing given out yet in this run. */
  predicate AtRest(db: Database) {
    db.open == map[] && db.committed == []
  }

  /**
   * However transactions interleave, commit and roll back, the numbers of the
   * committed ones in a scope are start, start + 1, … up to the counter, each
   * exactly once and in commit order.
   */
  lemma CommittedNumbersAreGapless(origin: Database, steps: seq<Step>, scope: Scope)
    requires AtRest(origin) && Legal(origin, steps)
    ensures var db := AfterAll(origin, steps);
            && Start(origin, scope) <= CommittedRow(db, scope).next
            && ValuesOf(db.committed, scope) == Range(Start(origin, scope), CommittedRow(db, scope).next)
  {
    assert Gapless(origin, origin, scope);
    RunKeepsGapless(origin, origin, steps, scope);
  }

  // ─── who gets which number ───

  /** An open transaction has taken a number of the scope. */
  predicate HasTaken(db: Database, tx: TxId, scope: Scope) {
    tx in db.open && exists i :: 0 <= i < |db.open[tx].taken| && db.open[tx].taken[i].scope == scope
  }

  lemma {:induction false} SomeValue(numbers: seq<Number>, scope: Scope)
    ensures ValuesOf(numbers, scope) != [] <==> exists i :: 0 <= i < |numbers| && numbers[i].scope == scope
  {
    if numbers != [] {
      var n := |numbers| - 1;
      SomeValue(numbers[..n], scope);
      assert forall i :: 0 <= i < n ==> numbers[..n][i] == numbers[i];
    }
  }

  /** The numbers a transaction has taken so far. */
  function TakenBy(db: Database, tx: TxId): seq<Number> {
    if tx in db.open then db.open[tx].taken else []
  }

  /** `tx` takes the number behind the committed ones and its own; the others keep theirs. */
  predicate Takes(origin: Database, db: Database, tx: TxId, scope: Scope, db': Database) {
    var before := |ValuesOf(db.committed, scope)| + |ValuesOf(TakenBy(db, tx), scope)|;
    && TakenBy(db', tx) == TakenBy(db, tx) + [Number(scope, Start(origin, scope) + before)]
    && db'.open.Keys == db.open.Keys + {tx}
    && (forall other :: other in db.open && other != tx ==> db'.open[other] == db.open[other])
    && db'.committed == db.committed && db'.rows == db.rows
  }

  /** Whoever holds the row of a scope has taken a number of it. */
  lemma HoldersHaveTaken(db: Database, tx: TxId, scope: Scope)
    requires tx in db.open && HolderExact(db, tx, scope)
    ensures HasTaken(db, tx, scope) <==> scope in db.open[tx].rows
  {
    SomeValue(db.open[tx].taken, scope);
    hide ValuesOf;
  }

  lemma TakesOne(origin: Database, db: Database, tx: TxId, scope: Scope)
    requires CommittedExact(origin, db, scope) && (tx in db.open ==> HolderExact(db, tx, scope))
    ensures Takes(origin, db, tx, scope, After(db, Next(tx, scope)))
  {
    assert ValuesOf([], scope) == [];
    hide ValuesOf, Default;
  }

  /**
   * In every reachable state the next number of a scope can be taken exactly
   * while no other open transaction has taken one; it follows those committed
   * and those the transaction has taken itself, and nothing else changes.
   */
  lemma NextNumber(origin: Database, steps: seq<Step>, tx: TxId, scope: Scope)
    requires AtRest(origin) && Legal(origin, steps)
    ensures var db := AfterAll(origin, steps);
            && (Enabled(db, Next(tx, scope)) <==>
                  forall other :: other in db.open && other != tx ==> !HasTaken(db, other, scope))
            && Takes(origin, db, tx, scope, After(db, Next(tx, scope)))
  {
    var db := AfterAll(origin, steps);
    assert Gapless(origin, origin, scope);
    RunKeepsGapless(origin, origin, steps, scope);
    TakesOne(origin, db, tx, scope);
    hide HolderExact, CommittedExact, HasTaken, Takes, After;
    forall other | other in db.open
      ensures HasTaken(db, other, scope) <==> scope in db.open[other].rows
    {
      HoldersHaveTaken(db, other, scope);
    }
  }

  /** A commit publishes exactly the numbers its transaction took, a rollback none; both can always be done. */
  lemma EndsOfTransactions(db: Database, tx: TxId)
    ensures Enabled(db, Commit(tx)) && Enabled(db, Rollback(tx))
    ensures After(db, Commit(tx)).committed == db.committed + TakenBy(db, tx)
    ensures After(db, Rollback(tx)).committed == db.committed && After(db, Rollback(tx)).rows == db.rows
    ensures After(db, Commit(tx)).open == After(db, Rollback(tx)).open == db.open - {tx}
  {}

  // ─── the printed strings ───

  /** What `next` prints for a number of a scope. */
  function Printed(db: Database, n: Number): string {
    PadNo(CommittedRow(db, n.scope).prefix, n.value, CommittedRow(db, n.scope).padding)
  }

  /** Whoever takes a number, and whenever, it is printed with the scope's own prefix and padding. */
  lemma TakenNumberIsPrinted(origin: Database, steps: seq<Step>, tx: TxId, scope: Scope)
    requires AtRest(origin) && Legal(origin, steps)
    ensures var row := RowSeen(AfterAll(origin, steps), tx, scope);
            PadNo(row.prefix, row.next, row.padding) == Printed(origin, Number(scope, row.next))
  {
    var db := AfterAll(origin, steps);
    assert Gapless(origin, origin, scope);
    RunKeepsGapless(origin, origin, steps, scope);
    if tx in db.open {
      assert HolderExact(db, tx, scope);
    }
  }

  /** Two committed numbers of one scope print differently, even past the padding. */
  lemma PrintedNumbersDiffer(origin: Database, steps: seq<Step>, scope: Scope, i: nat, j: nat)
    requires AtRest(origin) && Legal(origin, steps)
    requires i < j < |ValuesOf(AfterAll(origin, steps).committed, scope)|
    ensures var values := ValuesOf(AfterAll(origin, steps).committed, scope);
            Printed(origin, Number(scope, values[i])) != Printed(origin, Number(scope, values[j]))
  {
    CommittedNumbersAreGapless(origin, steps, scope);
    var values := ValuesOf(AfterAll(origin, steps).committed, scope);
    var row := CommittedRow(origin, scope);
    PadNoInjective(row.prefix, values[i], values[j], row.padding, row.padding);
  }

  /** With the shipped prefixes, no two documents of any kind ever print alike. */
  lemma ScopesNeverCollide(a: Number, b: Number)
    requires a != b
    ensures Printed(Database(map[], map[], []), a) != Printed(Database(map[], map[], []), b)
  {
    var db := Database(map[], map[], []);
    if a.scope == b.scope {
      var row := Default(a.scope);
      PadNoInjective(row.prefix, a.value, b.value, row.padding, row.padding);
    } else {
      PrefixOfPrinted(a);
      PrefixOfPrinted(b);
      assert Default(a.scope).prefix[..3] != Default(b.scope).prefix[..3] by {
        assert Default(a.scope).prefix[0] != Default(b.scope).prefix[0]
            || Default(a.scope).prefix[1] != Default(b.scope).prefix[1];
      }
    }
  }

  /** The first number of each kind of document in a fresh database, and what comes right after it. */
  lemma FirstNumbers()
    ensures FirstPrinted(Order) == "CLO-2042" && FirstPrinted(Invoice) == "INV-000001"
    ensures FirstPrinted(Receipt) == "RCT-000001" && FirstPrinted(CreditNote) == "CRN-000001"
    ensures FirstPrinted(Purchase) == "PUR-000101"
  {
    SomeDigits();
    Padded();
    hide PadStart, Digits;
  }

  lemma Padded()
    ensures PadStart("1", 6) == "000001" && PadStart("101", 6) == "000101" && PadStart("2042", 4) == "2042"
  {
    assert Zeros(3) == "000";
    assert Zeros(5) == "00000";
  }

  /** What the first `next` of a scope prints in a fresh database. */
  function FirstPrinted(scope: Scope): string {
    var row := RowSeen(Database(map[], map[], []), 0, scope);
    PadNo(row.prefix, row.next, row.padding)
  }

  lemma SomeDigits()
    ensures Digits(1) == "1" && Digits(101) == "101" && Digits(2042) == "2042"
  {
    assert Digits(2) == "2" && Digits(20) == "20" && Digits(204) == "204";
    assert Digits(10) == "10";
  }

  lemma PrefixOfPrinted(n: Number)
    ensures |Printed(Database(map[], map[], []), n)| >= 3
    ensures Printed(Database(map[], map[], []), n)[..3] == Default(n.scope).prefix[..3]
  {}

  // ─── the service ───

  class DocumentCounterService {
    var rows: map<Scope, Row>
    var open: map<TxId, Open>
    ghost var committed: seq<Number>

    ghost function State(): Database
      reads this
    {
      Database(rows, open, committed)
    }

    /** Takes the next number: insert the row if it is missing, then lock and increment it. */
    method Take(tx: TxId, scope: Scope) returns (printed: string)
      requires Enabled(State(), Next(tx, scope))
      modifies this
      ensures State() == After(old(State()), Next(tx, scope))
      ensures printed == PadNo(RowSeen(old(State()), tx, scope).prefix, RowSeen(old(State()), tx, scope).next,
                               RowSeen(old(State()), tx, scope).padding)
    {
      if tx !in open {
        open := open[tx := Open(map[], [])];
      }
      var mine := open[tx];
      if scope !in mine.rows {
        var inserted := if scope in rows then rows[scope] else Default(scope);
        mine := mine.(rows := mine.rows[scope := inserted]);
      }
      var row := mine.rows[scope];
      mine := mine.(rows := mine.rows[scope := row.(next := row.next + 1)]);
      open := open[tx := mine.(taken := mine.taken + [Number(scope, row.next)])];
      printed := PadNo(row.prefix, row.next, row.padding);
      assert mine.rows == OpenOf(old(State()), tx).rows[scope := row.(next := row.next + 1)];
      assert State().open == After(old(State()), Next(tx, scope)).open;
    }

    method CommitTx(tx: TxId)
      modifies this
      ensures State() == After(old(State()), Commit(tx))
    {
      if tx in open {
        rows := rows + open[tx].rows;
        committed := committed + open[tx].taken;
        open := open - {tx};
      } else {
        assert open - {tx} == open;
      }
    }

    method RollbackTx(tx: TxId)
      modifies this
      ensures State() == After(old(State()), Rollback(tx))
    {
      open := open - {tx};
    }
  }
}
