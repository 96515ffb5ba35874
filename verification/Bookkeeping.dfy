/** The applied list in memory against the rows of a schema's bookkeeping table: when they
    come apart, and what becomes of a row that was lost. */
module Bookkeeping {
  import opened Wrappers
  import opened Provisioning
  import opened Migrations
  import opened Rollback
  import opened RoundTrip
  import Slices

  /** The rows of a table after these statements. */
  function Rows(rows: seq<string>, trace: seq<Exec>): seq<string>
    decreases |trace|
  {
    if trace == [] then rows else Rows(RowsBy(rows, trace[0].stmt), trace[1..])
  }

  /** They are the rows of the replayed database, whatever its data. */
  lemma {:induction false} RowsAreReplayed<D>(sem: (D, string) -> D, db: Db<D>, trace: seq<Exec>)
    ensures Replay(sem, db, trace).rows == Rows(db.rows, trace)
    decreases |trace|
  {
    if trace != [] {
      RowsAreReplayed(sem, Effect(sem, db, trace[0].stmt), trace[1..]);
    }
  }

  lemma {:induction false} RowsAppend(rows: seq<string>, a: seq<Exec>, b: seq<Exec>)
    ensures Rows(rows, a + b) == Rows(Rows(rows, a), b)
    decreases |a|
  {
    if a == [] {
      assert a + b == b;
    } else {
      assert (a + b)[1..] == a[1..] + b;
      RowsAppend(RowsBy(rows, a[0].stmt), a[1..], b);
    }
  }

  /** A schema's table, from the rows it had before the trace began. */
  function Table(rows: seq<string>, st: State, s: string): seq<string> {
    Rows(rows, OnSchema(st.trace, s))
  }

  // ----- a script that records -----

  /** Every id that the script adds to the list, but the template's, has its row inserted next,
      and no other row is touched. */
  ghost predicate Records(schema: string, script: seq<Action>) {
    && (forall i | 0 <= i < |script| && Announces(script[i]) ::
          i + 1 < |script| && script[i + 1] == Do(MetaInsert(schema, script[i].revision)))
    && (forall i | 0 <= i < |script| :: !script[i].Unmark? && (script[i].Do? ==> !script[i].stmt.MetaDelete?))
    && (forall i | 0 <= i < |script| && script[i].Do? && script[i].stmt.MetaInsert? ::
          i > 0 && script[i - 1] == Mark(script[i].stmt.revision) && Announces(script[i - 1]))
  }

  predicate Announces(a: Action) {
    a.Mark? && a.revision != TEMPLATE
  }

  /** The ids that have rows: all but the template's. */
  function WithRows(ids: seq<string>): (r: seq<string>)
    ensures forall id | id in r :: id in ids
    decreases |ids|
  {
    if ids == [] then []
    else if ids[|ids| - 1] == TEMPLATE then WithRows(ids[..|ids| - 1])
    else WithRows(ids[..|ids| - 1]) + [ids[|ids| - 1]]
  }

  lemma WithRowsOneMore(ids: seq<string>, id: string)
    ensures WithRows(ids + [id]) == if id == TEMPLATE then WithRows(ids) else WithRows(ids) + [id]
  {
    assert (ids + [id])[..|ids|] == ids;
  }

  lemma RecordsAppend(schema: string, a: seq<Action>, b: seq<Action>)
    requires Records(schema, a) && Records(schema, b)
    ensures Records(schema, a + b)
  {
    var c := a + b;
    forall i | 0 <= i < |c|
      ensures c[i] == if i < |a| then a[i] else b[i - |a|]
      ensures Announces(c[i]) ==> i + 1 < |c| && c[i + 1] == Do(MetaInsert(schema, c[i].revision))
      ensures c[i].Do? && c[i].stmt.MetaInsert? ==>
                i > 0 && c[i - 1] == Mark(c[i].stmt.revision) && Announces(c[i - 1])
    {
      if i < |a| {
        assert c[i] == a[i];
      } else {
        assert c[i] == b[i - |a|];
      }
    }
  }

  lemma OneUpRecords(schema: string, r: Revision)
    ensures Records(schema, OneUp(schema, r))
  {
    RecordsAppend(schema, Dos(Statements(r.upSql)), RecordScript(schema, r.id));
  }

  lemma {:induction false} UpRecords(schema: string, revisions: seq<Revision>)
    ensures Records(schema, UpScript(schema, revisions))
    decreases |revisions|
  {
    if revisions != [] {
      OneUpRecords(schema, revisions[0]);
      UpRecords(schema, revisions[1..]);
      RecordsAppend(schema, OneUp(schema, revisions[0]), UpScript(schema, revisions[1..]));
    }
  }

  lemma MigrateRecords(schema: string, pending: seq<Revision>)
    ensures Records(schema, MigrateScript(schema, pending))
  {
    if pending != [] {
      UpRecords(schema, pending);
      RecordsAppend(schema, [Do(MetaDdl(schema))], UpScript(schema, pending));
    }
  }

  /** What action n - 1 has put into the list whose row is still to come. */
  function Owed(script: seq<Action>, n: nat): seq<string>
    requires n <= |script|
  {
    if n > 0 && Announces(script[n - 1]) then [script[n - 1].revision] else []
  }

  lemma OneMoreMark(ids: seq<string>, script: seq<Action>, n: nat)
    requires n < |script|
    ensures Marked(ids, script[..n + 1]) == MarkedBy(Marked(ids, script[..n]), script[n])
  {
    assert script[..n + 1] == script[..n] + [script[n]];
    MarkedAppends(ids, script[..n], [script[n]]);
    assert [script[n]][1..] == [];
  }

  /** The rows after the performed part of a script. */
  function RowsAfter(rows: seq<string>, schema: string, script: seq<Action>): seq<string> {
    Rows(rows, TraceOf(schema, script))
  }

  function RowsByAction(rows: seq<string>, a: Action): seq<string> {
    if a.Do? then RowsBy(rows, a.stmt) else rows
  }

  lemma RowsOfAction(rows: seq<string>, schema: string, a: Action)
    ensures RowsAfter(rows, schema, [a]) == RowsByAction(rows, a)
  {
    assert [a][1..] == [];
    if a.Do? {
      var t := [Exec(schema, a.stmt)];
      assert TraceOf(schema, [a]) == t && t[1..] == [];
      assert Rows(rows, t) == Rows(RowsBy(rows, t[0].stmt), t[1..]);
    } else {
      assert TraceOf(schema, [a]) == [];
    }
  }

  lemma OneMoreRow(rows: seq<string>, schema: string, script: seq<Action>, n: nat)
    requires n < |script|
    ensures RowsAfter(rows, schema, script[..n + 1]) == RowsByAction(RowsAfter(rows, schema, script[..n]), script[n])
  {
    assert script[..n + 1] == script[..n] + [script[n]];
    TraceOfAppends(schema, script[..n], [script[n]]);
    RowsAppend(rows, TraceOf(schema, script[..n]), TraceOf(schema, [script[n]]));
    RowsOfAction(RowsAfter(rows, schema, script[..n]), schema, script[n]);
  }

  /** A row is inserted exactly when one is owed, and it is that one. */
  lemma OwedComesNext(schema: string, script: seq<Action>, n: nat)
    requires Records(schema, script) && n < |script|
    ensures !script[n].Unmark? && (script[n].Do? ==> !script[n].stmt.MetaDelete?)
    ensures script[n].Do? && script[n].stmt.MetaInsert? <==> Owed(script, n) != []
    ensures script[n].Do? && script[n].stmt.MetaInsert? ==> Owed(script, n) == [script[n].stmt.revision]
  {
  }

  /** The template's id, which no row follows. */
  function Unannounced(a: Action): seq<string> {
    if a == Mark(TEMPLATE) then [TEMPLATE] else []
  }

  /** After n actions the list has grown by some ids and the table by their rows, but for one
      id whose row comes next. */
  lemma {:induction false} ListAheadByOne(ids: seq<string>, rows: seq<string>, schema: string, script: seq<Action>, n: nat)
    returns (added: seq<string>)
    requires Records(schema, script) && n <= |script|
    ensures RowsAfter(rows, schema, script[..n]) == rows + WithRows(added)
    ensures Marked(ids, script[..n]) == ids + added + Owed(script, n)
    decreases n
  {
    added := [];
    if n > 0 {
      var before := ListAheadByOne(ids, rows, schema, script, n - 1);
      added := before + Owed(script, n - 1) + Unannounced(script[n - 1]);
      OneMoreAhead(ids, rows, before, schema, script, n - 1);
    } else {
      assert script[..0] == [] && ids + [] + [] == ids && rows + [] == rows;
    }
  }

  lemma OneMoreAhead(
    ids: seq<string>, rows: seq<string>, before: seq<string>, schema: string, script: seq<Action>, n: nat)
    requires Records(schema, script) && n < |script|
    requires RowsAfter(rows, schema, script[..n]) == rows + WithRows(before)
    requires Marked(ids, script[..n]) == ids + before + Owed(script, n)
    ensures var added := before + Owed(script, n) + Unannounced(script[n]);
            && RowsAfter(rows, schema, script[..n + 1]) == rows + WithRows(added)
            && Marked(ids, script[..n + 1]) == ids + added + Owed(script, n + 1)
  {
    OneMoreMark(ids, script, n);
    OneMoreRow(rows, schema, script, n);
    RowsStep(rows, before, schema, script, n);
    MarksStep(ids, before, schema, script, n);
  }

  lemma RowsStep(rows: seq<string>, before: seq<string>, schema: string, script: seq<Action>, n: nat)
    requires Records(schema, script) && n < |script|
    ensures RowsByAction(rows + WithRows(before), script[n]) ==
              rows + WithRows(before + Owed(script, n) + Unannounced(script[n]))
  {
    var owed := Owed(script, n);
    OwedComesNext(schema, script, n);
    WithRowsOf(before, owed, script[n]);
    Slices.Associative(rows, WithRows(before), owed);
    assert rows + WithRows(before) + [] == rows + WithRows(before);
  }

  lemma WithRowsOf(before: seq<string>, owed: seq<string>, a: Action)
    requires |owed| <= 1 && forall id | id in owed :: id != TEMPLATE
    ensures WithRows(before + owed + Unannounced(a)) == WithRows(before) + owed
  {
    if owed == [] {
      assert before + owed == before && WithRows(before) + owed == WithRows(before);
    } else {
      assert owed[0] in owed && owed == [owed[0]];
      WithRowsOneMore(before, owed[0]);
    }
    if a == Mark(TEMPLATE) {
      WithRowsOneMore(before + owed, TEMPLATE);
    } else {
      assert before + owed + [] == before + owed;
    }
  }

  lemma MarksStep(ids: seq<string>, before: seq<string>, schema: string, script: seq<Action>, n: nat)
    requires Records(schema, script) && n < |script|
    ensures MarkedBy(ids + before + Owed(script, n), script[n]) ==
              ids + (before + Owed(script, n) + Unannounced(script[n])) + Owed(script, n + 1)
  {
    var a, b := ids + before + Owed(script, n), Unannounced(script[n]) + Owed(script, n + 1);
    OwedComesNext(schema, script, n);
    assert MarkedBy(a, script[n]) == a + b by {
      if !script[n].Mark? {
        assert b == [] && a + [] == a;
      }
    }
    assert a + b == ids + (before + Owed(script, n) + Unannounced(script[n])) + Owed(script, n + 1);
  }

  // ----- one run of migrate_all -----

  /** The statement that stopped the run was the insertion of a row of this schema. */
  ghost predicate LostRow(revisions: seq<Revision>, st: State, schemas: seq<string>, s: string, k: nat, n: nat) {
    && k < |schemas| && schemas[k] == s && SafeSchemaName(s)
    && var script := MigrateScript(s, Pending(revisions, Applied(st, s)));
       n < |script| && script[n].Do? && script[n].stmt.MetaInsert?
  }

  /** The list and the table of a schema after part of its migration script. */
  lemma PartOfMigration(
    revisions: seq<Revision>, before: State, after: State, s: string, n: nat, rows: seq<string>) returns (added: seq<string>)
    requires var script := MigrateScript(s, Pending(revisions, Applied(before, s)));
             && n <= |script|
             && Applied(after, s) == Marked(Applied(before, s), script[..n])
             && OnSchema(after.trace, s) == OnSchema(before.trace, s) + TraceOf(s, script[..n])
    ensures Table(rows, after, s) == Table(rows, before, s) + WithRows(added)
    ensures var script := MigrateScript(s, Pending(revisions, Applied(before, s)));
            && Applied(after, s) == Applied(before, s) + added + Owed(script, n)
            && Records(s, script)
  {
    var pending := Pending(revisions, Applied(before, s));
    MigrateRecords(s, pending);
    added := ListAheadByOne(Applied(before, s), Table(rows, before, s), s, MigrateScript(s, pending), n);
    RowsAppend(rows, OnSchema(before.trace, s), TraceOf(s, MigrateScript(s, pending)[..n]));
  }

  /** Whatever a run of migrate_all does, to any schema: its list grows by some ids and its
      table by their rows, unless the run was stopped at the insertion of one of its rows; then
      the list has that one id more. Only the template has no row. */
  lemma ListAgainstTable(
    faults: Faults, revisions: seq<Revision>, st: State, schemas: seq<string>, s: string, rows: seq<string>)
    returns (k: nat, n: nat, added: seq<string>)
    ensures StopsAt(revisions, st, schemas, MigrateAll(faults, revisions, st, schemas), k, n)
    ensures var after := MigrateAll(faults, revisions, st, schemas).st;
            && Table(rows, after, s) == Table(rows, st, s) + WithRows(added)
            && (Applied(after, s) == Applied(st, s) + added <==> !LostRow(revisions, st, schemas, s, k, n))
            && (LostRow(revisions, st, schemas, s, k, n) ==>
                  Applied(after, s) == Applied(st, s) + added
                                       + [MigrateScript(s, Pending(revisions, Applied(st, s)))[n].stmt.revision])
  {
    var m := MigrateAll(faults, revisions, st, schemas);
    k, n := MigrateAllStops(faults, revisions, st, schemas);
    FateOf(revisions, st, schemas, m, k, n, s);
    if s in schemas[..k] {
      added := WholeMigration(revisions, st, m.st, s, rows);
    } else if k < |schemas| && schemas[k] == s && SafeSchemaName(s) {
      added := StoppedMigration(revisions, st, m, s, n, rows);
    } else {
      added := [];
      UntouchedGrowsNothing(st, m.st, s, rows);
    }
  }

  /** The list against the table of the schema at which a run stops. */
  lemma StoppedMigration(revisions: seq<Revision>, st: State, m: Migration, s: string, n: nat, rows: seq<string>)
    returns (added: seq<string>)
    requires SafeSchemaName(s) && StoppedIn(revisions, st, m, s, n)
    ensures Table(rows, m.st, s) == Table(rows, st, s) + WithRows(added)
    ensures var a := MigrateScript(s, Pending(revisions, Applied(st, s)))[n];
            && (Applied(m.st, s) == Applied(st, s) + added <==> !a.stmt.MetaInsert?)
            && (a.stmt.MetaInsert? ==> Applied(m.st, s) == Applied(st, s) + added + [a.stmt.revision])
  {
    var script := MigrateScript(s, Pending(revisions, Applied(st, s)));
    added := PartOfMigration(revisions, st, m.st, s, n, rows);
    OwedComesNext(s, script, n);
    SameLength(Applied(st, s) + added, Owed(script, n));
  }

  lemma UntouchedGrowsNothing(st: State, after: State, s: string, rows: seq<string>)
    requires Untouched(st, after, s)
    ensures Applied(after, s) == Applied(st, s) + [] && Table(rows, after, s) == Table(rows, st, s) + WithRows([])
  {
    assert Applied(st, s) + [] == Applied(st, s) && Table(rows, st, s) + [] == Table(rows, st, s);
  }

  lemma SameLength(a: seq<string>, b: seq<string>)
    ensures a + b == a <==> b == []
  {
    assert |a + b| == |a| + |b|;
    if b == [] {
      assert a + b == a;
    }
  }

  lemma WholeMigration(
    revisions: seq<Revision>, before: State, after: State, s: string, rows: seq<string>) returns (added: seq<string>)
    requires Migrated(revisions, before, after, s)
    ensures Table(rows, after, s) == Table(rows, before, s) + WithRows(added)
    ensures Applied(after, s) == Applied(before, s) + added
  {
    var pending := Pending(revisions, Applied(before, s));
    var script := MigrateScript(s, pending);
    assert script[..|script|] == script;
    MigrateMarks(Applied(before, s), s, pending);
    added := PartOfMigration(revisions, before, after, s, |script|, rows);
    assert Owed(script, |script|) == [];
    assert Applied(before, s) + added + [] == Applied(before, s) + added;
  }

  lemma InRevisionIsNoRow(s: string, pending: seq<Revision>, n: nat, m: nat)
    requires InRevision(s, pending, n, m)
    ensures UpScript(s, pending)[n].Do? && UpScript(s, pending)[n].stmt.Sql?
  {
    var script, done := UpScript(s, pending), UpScript(s, pending[..m]);
    var texts := Dos(Statements(pending[m].upSql));
    assert script[n] == script[..n + 1][n] == texts[n - |done|];
  }

  /** A failed run: the first m pending revisions are in the list of the schema at the stop,
      and their rows are in its table too if and only if what failed was not the last of them. */
  lemma TableFollowsExactly(
    faults: Faults, revisions: seq<Revision>, st: State, schemas: seq<string>, rows: seq<string>)
    returns (k: nat, n: nat, m: nat)
    requires MigrateAll(faults, revisions, st, schemas).result == Err(ExecutionFailed)
    ensures StopsAt(revisions, st, schemas, MigrateAll(faults, revisions, st, schemas), k, n) && k < |schemas|
    ensures var s, after := schemas[k], MigrateAll(faults, revisions, st, schemas).st;
            var pending := Pending(revisions, Applied(st, s));
            && m <= |pending| && StopsInside(s, pending, n, m)
            && Applied(after, s) == Applied(st, s) + Ids(pending[..m])
            && (Table(rows, after, s) == Table(rows, st, s) + WithRows(Ids(pending[..m])) <==>
                  !StopsAtRowOf(s, pending, n, m))
            && (StopsAtRowOf(s, pending, n, m) ==>
                  m > 0 && Table(rows, after, s) == Table(rows, st, s) + WithRows(Ids(pending[..m - 1])))
  {
    k, n, m := FailureKeepsAPrefix(faults, revisions, st, schemas);
    var s, after := schemas[k], MigrateAll(faults, revisions, st, schemas).st;
    var pending := Pending(revisions, Applied(st, s));
    var added := PartOfMigration(revisions, st, after, s, n, rows);
    AddedRows(Applied(st, s), s, pending, n, m, added);
    RowsDiffer(Table(rows, st, s), s, pending, n, m, added);
  }

  ghost predicate StopsAtRowOf(s: string, pending: seq<Revision>, n: nat, m: nat) {
    n > 0 && AtRow(s, pending, n - 1, m)
  }

  lemma OwedAtStop(s: string, pending: seq<Revision>, n: nat, m: nat)
    requires n < |MigrateScript(s, pending)| && Records(s, MigrateScript(s, pending)) && StopsInside(s, pending, n, m)
    ensures StopsAtRowOf(s, pending, n, m) ==>
              0 < m <= |pending| && Owed(MigrateScript(s, pending), n) == [pending[m - 1].id] && pending[m - 1].id != TEMPLATE
    ensures !StopsAtRowOf(s, pending, n, m) ==> Owed(MigrateScript(s, pending), n) == []
  {
    var script := MigrateScript(s, pending);
    OwedComesNext(s, script, n);
    if n > 0 {
      assert script[n] == UpScript(s, pending)[n - 1];
      if !AtRow(s, pending, n - 1, m) {
        InRevisionIsNoRow(s, pending, n - 1, m);
      }
    }
  }

  lemma AddedRows(ids: seq<string>, s: string, pending: seq<Revision>, n: nat, m: nat, added: seq<string>)
    requires n < |MigrateScript(s, pending)| && Records(s, MigrateScript(s, pending))
    requires m <= |pending| && StopsInside(s, pending, n, m)
    requires ids + added + Owed(MigrateScript(s, pending), n) == ids + Ids(pending[..m])
    ensures StopsAtRowOf(s, pending, n, m) ==> m > 0
    ensures added == Ids(pending[..if StopsAtRowOf(s, pending, n, m) then m - 1 else m])
  {
    var owed := Owed(MigrateScript(s, pending), n);
    OwedAtStop(s, pending, n, m);
    Slices.Associative(ids, added, owed);
    SameTail(ids, added + owed, Ids(pending[..m]));
    if StopsAtRowOf(s, pending, n, m) {
      IdsShift(pending, m - 1);
      SameFront(added, Ids(pending[..m - 1]), pending[m - 1].id);
    } else {
      assert added + [] == added;
    }
  }

  lemma SameFront(a: seq<string>, b: seq<string>, last: string)
    requires a + [last] == b + [last]
    ensures a == b
  {
    assert |a + [last]| == |a| + 1 && |b + [last]| == |b| + 1;
    assert a == (a + [last])[..|a|] && b == (b + [last])[..|b|];
  }

  lemma RowsDiffer(rows: seq<string>, s: string, pending: seq<Revision>, n: nat, m: nat, added: seq<string>)
    requires n < |MigrateScript(s, pending)| && Records(s, MigrateScript(s, pending))
    requires m <= |pending| && StopsInside(s, pending, n, m) && (StopsAtRowOf(s, pending, n, m) ==> m > 0)
    requires added == Ids(pending[..if StopsAtRowOf(s, pending, n, m) then m - 1 else m])
    ensures rows + WithRows(added) == rows + WithRows(Ids(pending[..m])) <==> !StopsAtRowOf(s, pending, n, m)
  {
    if StopsAtRowOf(s, pending, n, m) {
      OwedAtStop(s, pending, n, m);
      IdsShift(pending, m - 1);
      WithRowsOneMore(added, pending[m - 1].id);
      assert |rows + WithRows(added)| + 1 == |rows + WithRows(Ids(pending[..m]))|;
    }
  }

  lemma SameTail(a: seq<string>, b: seq<string>, c: seq<string>)
    requires a + b == a + c
    ensures b == c
  {
    assert b == (a + b)[|a|..] && c == (a + c)[|a|..];
  }

  ghost predicate DistinctIds(revisions: seq<Revision>) {
    forall i, j | 0 <= i < j < |revisions| :: revisions[i].id != revisions[j].id
  }

  lemma {:induction false} PendingComesFrom(revisions: seq<Revision>, applied: seq<string>, i: nat) returns (j: nat)
    requires i < |Pending(revisions, applied)|
    ensures j < |revisions| && Pending(revisions, applied)[i] == revisions[j]
    decreases |revisions|
  {
    if revisions[0].id in applied {
      j := PendingComesFrom(revisions[1..], applied, i);
      j := j + 1;
    } else if i == 0 {
      j := 0;
    } else {
      j := PendingComesFrom(revisions[1..], applied, i - 1);
      j := j + 1;
    }
  }

  lemma {:induction false} PendingIsDistinct(revisions: seq<Revision>, applied: seq<string>)
    requires DistinctIds(revisions)
    ensures DistinctIds(Pending(revisions, applied))
    decreases |revisions|
  {
    if revisions != [] {
      var rest := Pending(revisions[1..], applied);
      PendingIsDistinct(revisions[1..], applied);
      forall i: nat | i < |rest|
        ensures rest[i].id != revisions[0].id
      {
        var j := PendingComesFrom(revisions[1..], applied, i);
      }
    }
  }

  /** A run stopped at a row leaves an id in the list whose row the table lacks, unless the id
      was pending twice and the row is that of its second turn. */
  lemma FailedRowIsMissing(
    faults: Faults, revisions: seq<Revision>, st: State, schemas: seq<string>, rows: seq<string>)
    returns (k: nat, n: nat, m: nat)
    requires MigrateAll(faults, revisions, st, schemas).result == Err(ExecutionFailed)
    requires forall s, id | id in Table(rows, st, s) :: id in Applied(st, s)
    ensures StopsAt(revisions, st, schemas, MigrateAll(faults, revisions, st, schemas), k, n) && k < |schemas|
    ensures m <= |Pending(revisions, Applied(st, schemas[k]))|
    ensures var s, pending := schemas[k], Pending(revisions, Applied(st, schemas[k]));
            StopsAtRowOf(s, pending, n, m) ==>
              && m > 0
              && (Missing(rows, MigrateAll(faults, revisions, st, schemas).st, s, pending[m - 1].id) <==>
                    pending[m - 1].id !in Ids(pending[..m - 1]))
              && (DistinctIds(revisions) ==> pending[m - 1].id !in Ids(pending[..m - 1]))
    ensures StopsInside(schemas[k], Pending(revisions, Applied(st, schemas[k])), n, m)
  {
    k, n, m := TableFollowsExactly(faults, revisions, st, schemas, rows);
    var s := schemas[k];
    var pending := Pending(revisions, Applied(st, s));
    if StopsAtRowOf(s, pending, n, m) {
      MigrateRecords(s, pending);
      OwedAtStop(s, pending, n, m);
      PendingIsNotApplied(revisions, Applied(st, s));
      LastIsNew(Applied(st, s), Table(rows, st, s), pending, m);
      if DistinctIds(revisions) {
        PendingIsDistinct(revisions, Applied(st, s));
      }
    }
  }

  lemma LastIsNew(ids: seq<string>, rows: seq<string>, pending: seq<Revision>, m: nat)
    requires 0 < m <= |pending| && pending[m - 1].id != TEMPLATE
    requires forall i | 0 <= i < |pending| :: pending[i].id !in ids
    requires forall id | id in rows :: id in ids
    ensures pending[m - 1].id in ids + Ids(pending[..m])
    ensures pending[m - 1].id in rows + WithRows(Ids(pending[..m - 1])) <==> pending[m - 1].id in Ids(pending[..m - 1])
  {
    assert Ids(pending[..m])[m - 1] == pending[m - 1].id;
    if pending[m - 1].id in Ids(pending[..m - 1]) {
      HasRow(Ids(pending[..m - 1]), pending[m - 1].id);
    }
  }

  lemma {:induction false} HasRow(ids: seq<string>, id: string)
    requires id in ids && id != TEMPLATE
    ensures id in WithRows(ids)
    decreases |ids|
  {
    if ids[|ids| - 1] != id {
      HasRow(ids[..|ids| - 1], id);
    }
  }

  // ----- later runs -----

  datatype Call = Call(faults: Faults, revisions: seq<Revision>, schemas: seq<string>)

  /** The state after any number of later migrations, with any executors, revisions and
      schemas, whether they return or raise. */
  function After(st: State, calls: seq<Call>): State
    decreases |calls|
  {
    if calls == [] then st
    else After(MigrateAll(calls[0].faults, calls[0].revisions, st, calls[0].schemas).st, calls[1..])
  }

  /** The list holds an id whose row the table lacks. */
  ghost predicate Missing(rows: seq<string>, st: State, s: string, id: string) {
    id in Applied(st, s) && id !in Table(rows, st, s)
  }

  lemma {:induction false} NotInserted(rows: seq<string>, schema: string, script: seq<Action>, id: string)
    requires id !in rows && Do(MetaInsert(schema, id)) !in script
    requires forall i | 0 <= i < |script| && script[i].Do? ::
               !script[i].stmt.MetaDelete? && (script[i].stmt.MetaInsert? ==> script[i].stmt.schema == schema)
    ensures id !in RowsAfter(rows, schema, script)
    decreases |script|
  {
    if script != [] {
      if script[0].Do? {
        assert script[0] in script;
        var t := TraceOf(schema, script);
        assert t[1..] == TraceOf(schema, script[1..]);
      }
      NotInserted(RowsByAction(rows, script[0]), schema, script[1..], id);
    }
  }

  lemma {:induction false} UpTouchesOwnTable(schema: string, revisions: seq<Revision>)
    ensures forall i | 0 <= i < |UpScript(schema, revisions)| && UpScript(schema, revisions)[i].Do? ::
              var stmt := UpScript(schema, revisions)[i].stmt;
              !stmt.MetaDelete? && (stmt.MetaInsert? ==> stmt.schema == schema)
    decreases |revisions|
  {
    if revisions != [] {
      UpTouchesOwnTable(schema, revisions[1..]);
      assert UpScript(schema, revisions) == OneUp(schema, revisions[0]) + UpScript(schema, revisions[1..]);
    }
  }

  /** Part of a migration of the schema inserts no row for an id that its list holds. */
  lemma PartInsertsNothingKnown(
    revisions: seq<Revision>, applied: seq<string>, rows: seq<string>, s: string, id: string, n: nat)
    requires id in applied && id !in rows && n <= |MigrateScript(s, Pending(revisions, applied))|
    ensures id !in RowsAfter(rows, s, MigrateScript(s, Pending(revisions, applied))[..n])
  {
    var script := MigrateScript(s, Pending(revisions, applied));
    RecordedIsNeverInserted(revisions, applied, s, id);
    UpTouchesOwnTable(s, Pending(revisions, applied));
    forall i | 0 <= i < n
      ensures script[..n][i] == script[i] && script[i] in script
    {
    }
    NotInserted(rows, s, script[..n], id);
  }

  lemma StaysMissing(
    faults: Faults, revisions: seq<Revision>, st: State, schemas: seq<string>, rows: seq<string>, s: string, id: string)
    requires Missing(rows, st, s, id)
    ensures Missing(rows, MigrateAll(faults, revisions, st, schemas).st, s, id)
  {
    var m := MigrateAll(faults, revisions, st, schemas);
    var k, n := MigrateAllStops(faults, revisions, st, schemas);
    FateOf(revisions, st, schemas, m, k, n, s);
    if s in schemas[..k] {
      MigratedStaysMissing(revisions, st, m.st, rows, s, id);
    } else if k < |schemas| && schemas[k] == s {
      StoppedStaysMissing(revisions, st, m, rows, s, id, n);
    }
  }

  lemma MigratedStaysMissing(revisions: seq<Revision>, st: State, after: State, rows: seq<string>, s: string, id: string)
    requires Missing(rows, st, s, id) && Migrated(revisions, st, after, s)
    ensures Missing(rows, after, s, id)
  {
    var script := MigrateScript(s, Pending(revisions, Applied(st, s)));
    assert script[..|script|] == script;
    PartStaysMissing(revisions, st, after, rows, s, id, |script|);
  }

  lemma StoppedStaysMissing(
    revisions: seq<Revision>, st: State, m: Migration, rows: seq<string>, s: string, id: string, n: nat)
    requires Missing(rows, st, s, id) && StoppedIn(revisions, st, m, s, n)
    ensures Missing(rows, m.st, s, id)
  {
    if SafeSchemaName(s) {
      MarksKeep(Applied(st, s), s, Pending(revisions, Applied(st, s)), n, id);
      PartStaysMissing(revisions, st, m.st, rows, s, id, n);
    }
  }

  lemma MarksKeep(ids: seq<string>, s: string, pending: seq<Revision>, n: nat, id: string)
    requires id in ids && n < |MigrateScript(s, pending)| && MigrateScript(s, pending)[n].Do?
    ensures id in Marked(ids, MigrateScript(s, pending)[..n])
  {
    var m := MigrationStopsInside(s, ids, pending, n);
  }

  lemma PartStaysMissing(
    revisions: seq<Revision>, before: State, after: State, rows: seq<string>, s: string, id: string, n: nat)
    requires Missing(rows, before, s, id) && id in Applied(after, s)
    requires n <= |MigrateScript(s, Pending(revisions, Applied(before, s)))|
    requires OnSchema(after.trace, s) ==
               OnSchema(before.trace, s) + TraceOf(s, MigrateScript(s, Pending(revisions, Applied(before, s)))[..n])
    ensures Missing(rows, after, s, id)
  {
    var script := MigrateScript(s, Pending(revisions, Applied(before, s)));
    RowsAppend(rows, OnSchema(before.trace, s), TraceOf(s, script[..n]));
    PartInsertsNothingKnown(revisions, Applied(before, s), Table(rows, before, s), s, id, n);
  }

  /** A row that the table lacks for an id in the list stays missing through every later run
      of migrate_all. */
  lemma {:induction false} MissingForGood(st: State, calls: seq<Call>, rows: seq<string>, s: string, id: string)
    requires Missing(rows, st, s, id)
    ensures Missing(rows, After(st, calls), s, id)
    decreases |calls|
  {
    if calls != [] {
      var c := calls[0];
      StaysMissing(c.faults, c.revisions, st, c.schemas, rows, s, id);
      MissingForGood(MigrateAll(c.faults, c.revisions, st, c.schemas).st, calls[1..], rows, s, id);
    }
  }

  // ----- rollbacks -----

  lemma RowsAfterBoth(rows: seq<string>, schema: string, a: seq<Action>, b: seq<Action>)
    ensures RowsAfter(rows, schema, a + b) == RowsAfter(RowsAfter(rows, schema, a), schema, b)
  {
    TraceOfAppends(schema, a, b);
    RowsAppend(rows, TraceOf(schema, a), TraceOf(schema, b));
  }

  lemma {:induction false} TextsTouchNoRow(rows: seq<string>, schema: string, script: seq<Action>)
    requires forall i | 0 <= i < |script| :: script[i].Do? && script[i].stmt.Sql?
    ensures RowsAfter(rows, schema, script) == rows
    decreases |script|
  {
    if script != [] {
      var t := TraceOf(schema, script);
      assert t[1..] == TraceOf(schema, script[1..]) && RowsBy(rows, t[0].stmt) == rows;
      TextsTouchNoRow(rows, schema, script[1..]);
    }
  }

  lemma UndoRows(revisions: seq<Revision>, schema: string, id: string, rows: seq<string>)
    requires CanUndo(revisions, id)
    ensures RowsAfter(rows, schema, UndoScript(revisions, schema, id)) == RemoveFirst(rows, id)
  {
    var texts := Dos(Statements(ById(revisions, id).value.downSql));
    var tail := [Do(MetaDelete(schema, id)), Unmark(id)];
    assert UndoScript(revisions, schema, id) == texts + tail && tail == [Do(MetaDelete(schema, id))] + [Unmark(id)];
    RowsAfterBoth(rows, schema, texts, tail);
    TextsTouchNoRow(rows, schema, texts);
    RowsAfterBoth(rows, schema, [Do(MetaDelete(schema, id))], [Unmark(id)]);
    RowsOfAction(rows, schema, Do(MetaDelete(schema, id)));
    RowsOfAction(RemoveFirst(rows, id), schema, Unmark(id));
  }

  /** Where the undoing of a revision can stop, its row is still there. */
  lemma PartialUndoRows(revisions: seq<Revision>, schema: string, id: string, rows: seq<string>, k: nat)
    requires k < |UndoScript(revisions, schema, id)| && !UndoScript(revisions, schema, id)[k].Unmark?
    ensures RowsAfter(rows, schema, UndoScript(revisions, schema, id)[..k]) == rows
  {
    TextsTouchNoRow(rows, schema, UndoScript(revisions, schema, id)[..k]);
  }

  lemma {:induction false} DownRows(revisions: seq<Revision>, schema: string, undo: seq<string>, rows: seq<string>)
    requires AllUndoable(revisions, undo)
    ensures RowsAfter(rows, schema, DownScript(revisions, schema, undo)) == RemoveAll(rows, undo)
    decreases |undo|
  {
    if undo != [] {
      RowsAfterBoth(rows, schema, UndoScript(revisions, schema, undo[0]), DownScript(revisions, schema, undo[1..]));
      UndoRows(revisions, schema, undo[0], rows);
      DownRows(revisions, schema, undo[1..], RemoveFirst(rows, undo[0]));
    }
  }

  /** The rows when a rollback stops while undoing revision u. */
  lemma StoppedRows(revisions: seq<Revision>, schema: string, undo: seq<string>, rows: seq<string>, n: nat, u: nat)
    requires InUndo(revisions, schema, undo, n, u) && !DownScript(revisions, schema, undo)[n].Unmark?
    requires NoRefusal(DownScript(revisions, schema, undo), n)
    ensures RowsAfter(rows, schema, DownScript(revisions, schema, undo)[..n]) == RemoveAll(rows, undo[..u])
  {
    var done, next := DownScript(revisions, schema, undo[..u]), UndoScript(revisions, schema, undo[u]);
    var k := n - |done|;
    PartBefore(DownScript(revisions, schema, undo), n, done, next);
    NoRefusalSplits(done, next[..k], n);
    DownRefuses(revisions, schema, undo[..u]);
    RowsAfterBoth(rows, schema, done, next[..k]);
    DownRows(revisions, schema, undo[..u], rows);
    PartialUndoRows(revisions, schema, undo[u], RemoveAll(rows, undo[..u]), k);
  }

  /** A rollback never lets the list and the table come apart: whether it returns, fails or is
      refused on the way, both lose the same revisions, those that were undone completely; the
      tables of other schemas stay as they are. */
  lemma RollbackTakesBoth(
    faults: Faults, revisions: seq<Revision>, st: State, schema: string, target: string, rows: seq<string>)
    returns (u: nat)
    requires SafeSchemaName(schema) && (target == "" || target in Applied(st, schema))
    ensures var m, undo := Downgrade(faults, revisions, st, schema, target), ToUndo(Applied(st, schema), target);
            && u <= |undo| && (m.result.Ok? ==> u == |undo|)
            && Applied(m.st, schema) == RemoveAll(Applied(st, schema), undo[..u])
            && Table(rows, m.st, schema) == RemoveAll(Table(rows, st, schema), undo[..u])
            && forall s | s != schema :: Table(rows, m.st, s) == Table(rows, st, s)
  {
    var undo := ToUndo(Applied(st, schema), target);
    var n: nat;
    u, n := DowngradeRollsBack(faults, revisions, st, schema, target);
    var after := Downgrade(faults, revisions, st, schema, target).st;
    OtherTables(st, after, schema, rows);
    OwnTable(st, after, schema, DownScript(revisions, schema, undo)[..n], rows);
    PerformedRows(faults, revisions, st.(active := schema), schema, undo, Table(rows, st, schema), u);
  }

  lemma OtherTables(st: State, after: State, schema: string, rows: seq<string>)
    requires forall s | s != schema :: Untouched(st, after, s)
    ensures forall s | s != schema :: Table(rows, after, s) == Table(rows, st, s)
  {
    forall s | s != schema
      ensures Table(rows, after, s) == Table(rows, st, s)
    {
      assert Untouched(st, after, s);
    }
  }

  lemma OwnTable(st: State, after: State, schema: string, script: seq<Action>, rows: seq<string>)
    requires OnSchema(after.trace, schema) == OnSchema(st.trace, schema) + TraceOf(schema, script)
    ensures Table(rows, after, schema) == RowsAfter(Table(rows, st, schema), schema, script)
  {
    RowsAppend(rows, OnSchema(st.trace, schema), TraceOf(schema, script));
  }

  /** The rows after the performed part of a rollback. */
  lemma PerformedRows(
    faults: Faults, revisions: seq<Revision>, st: State, schema: string, undo: seq<string>, rows: seq<string>, u: nat)
    requires var script := DownScript(revisions, schema, undo);
             var n := RunScript(faults, st, schema, script).1;
             if n == |script| then u == |undo| else InUndo(revisions, schema, undo, n, u)
    ensures var script := DownScript(revisions, schema, undo);
            u <= |undo| && RowsAfter(rows, schema, script[..RunScript(faults, st, schema, script).1]) == RemoveAll(rows, undo[..u])
  {
    var script := DownScript(revisions, schema, undo);
    var n := RunScript(faults, st, schema, script).1;
    ScriptMarks(faults, st, schema, script);
    if n == |script| {
      assert script[..n] == script && undo[..u] == undo;
      DownRefuses(revisions, schema, undo);
      DownRows(revisions, schema, undo, rows);
    } else {
      StoppedRows(revisions, schema, undo, rows, n, u);
    }
  }

  // ----- such a run -----

  lemma {:induction false} RunsWithoutFault(faults: Faults, st: State, schema: string, script: seq<Action>)
    requires forall i | 0 <= i < |script| :: script[i].Do?
    requires forall i | st.attempts <= i < st.attempts + |script| :: !faults(i)
    ensures var (st1, n) := RunScript(faults, st, schema, script);
            n == |script| && st1.attempts == st.attempts + |script|
    decreases |script|
  {
    if script != [] {
      RunsWithoutFault(faults, Perform(faults, st, schema, script[0]).0, schema, script[1..]);
    }
  }

  /** The executor that fails once: at the row of the first revision. */
  function FailsAtRow(r: Revision): Faults {
    i => i == |Statements(r.upSql)| + 1
  }

  lemma RowFails(st: State, schema: string, r: Revision, ddl: seq<Action>, texts: seq<Action>)
    requires r.id != TEMPLATE && st.attempts == 0
    requires ddl == [Do(MetaDdl(schema))] && texts == Dos(Statements(r.upSql))
    ensures var script := ddl + texts + RecordScript(schema, r.id);
            RunScript(FailsAtRow(r), st, schema, script).1 == |script| - 1
  {
    var f, front := FailsAtRow(r), ddl + texts;
    var record := RecordScript(schema, r.id);
    RunsWithoutFault(f, st, schema, front);
    var mid := RunScript(f, st, schema, front).0;
    RunAppends(f, st, schema, front, record);
    var marked := Perform(f, mid, schema, Mark(r.id)).0;
    assert record[1..] == [Do(MetaInsert(schema, r.id))];
    assert RunScript(f, marked, schema, record[1..]).1 == 0;
  }

  /** A new provisioner and a migration of one schema whose first row fails. */
  lemma FirstRowIsLost(schema: string, r: Revision)
    requires SafeSchemaName(schema) && r.id != TEMPLATE
    ensures var m := MigrateAll(FailsAtRow(r), [r], New(), [schema]);
            m.result == Err(ExecutionFailed) && Missing([], m.st, schema, r.id)
  {
    var ddl, texts := [Do(MetaDdl(schema))], Dos(Statements(r.upSql));
    var script := MigrateScript(schema, [r]);
    OnePending(schema, r);
    assert script == ddl + texts + RecordScript(schema, r.id);
    RowFails(New().(active := schema), schema, r, ddl, texts);
    FirstSchema(FailsAtRow(r), [r], New(), schema);
    StoppedBeforeRow(schema, r, MigrateAll(FailsAtRow(r), [r], New(), [schema]).st);
  }

  /** A provisioner that has done nothing. */
  function New(): State {
    State(map[], "", [], 0)
  }

  lemma OnePending(schema: string, r: Revision)
    ensures Pending([r], Applied(New(), schema)) == [r] && UpScript(schema, [r]) == OneUp(schema, r)
  {
    assert [r][1..] == [] && Pending([r][1..], []) == [] && [r] + [] == [r];
    assert UpScript(schema, [r][1..]) == [] && OneUp(schema, r) + [] == OneUp(schema, r);
  }

  lemma StoppedBeforeRow(schema: string, r: Revision, after: State)
    requires r.id != TEMPLATE
    requires Interrupted([r], New(), after, schema, |MigrateScript(schema, [r])| - 1)
    ensures Missing([], after, schema, r.id)
  {
    OnePending(schema, r);
    var script := MigrateScript(schema, [r]);
    var n := |script| - 1;
    var front := [Do(MetaDdl(schema))] + Dos(Statements(r.upSql));
    assert script[..n] == front + [Mark(r.id)];
    var added := PartOfMigration([r], New(), after, schema, n, []);
    MarkedAppends([], front, [Mark(r.id)]);
    StatementsMarkNothing([], front);
    assert [Mark(r.id)][1..] == [];
    assert Applied(after, schema) == [r.id];
    assert |added| == 0;
  }

  /** Any revision can lose its row: a new schema, one migration, one failure, and the row is
      missing through every later migration. */
  lemma RowCanBeLost(schema: string, r: Revision, calls: seq<Call>)
    requires SafeSchemaName(schema) && r.id != TEMPLATE
    ensures var m := MigrateAll(FailsAtRow(r), [r], New(), [schema]);
            m.result == Err(ExecutionFailed) && Missing([], After(m.st, calls), schema, r.id)
  {
    FirstRowIsLost(schema, r);
    MissingForGood(MigrateAll(FailsAtRow(r), [r], New(), [schema]).st, calls, [], schema, r.id);
  }
}
