/** A schema's database through migrations and rollbacks: when every down artifact undoes its
    up artifact, rolling back restores the data, the bookkeeping table and the list. */
module RoundTrip {
  import opened Wrappers
  import opened Text
  import opened Provisioning
  import opened Migrations
  import opened Rollback

  /** The data of one schema and the rows of its bookkeeping table. */
  datatype Db<D> = Db(data: D, rows: seq<string>)

  function Effect<D>(sem: (D, string) -> D, db: Db<D>, stmt: Stmt): Db<D> {
    Db(if stmt.Sql? then sem(db.data, stmt.text) else db.data, RowsBy(db.rows, stmt))
  }

  function Replay<D>(sem: (D, string) -> D, db: Db<D>, trace: seq<Exec>): Db<D>
    decreases |trace|
  {
    if trace == [] then db else Replay(sem, Effect(sem, db, trace[0].stmt), trace[1..])
  }

  function ApplyAll<D>(sem: (D, string) -> D, data: D, texts: seq<string>): D
    decreases |texts|
  {
    if texts == [] then data else ApplyAll(sem, sem(data, texts[0]), texts[1..])
  }

  /** The data once these revisions have been applied in order. */
  function UpData<D>(sem: (D, string) -> D, data: D, revisions: seq<Revision>): D
    decreases |revisions|
  {
    if revisions == [] then data
    else
      var n := |revisions| - 1;
      ApplyAll(sem, UpData(sem, data, revisions[..n]), Statements(revisions[n].upSql))
  }

  lemma {:induction false} ReplayAppends<D>(sem: (D, string) -> D, db: Db<D>, a: seq<Exec>, b: seq<Exec>)
    ensures Replay(sem, db, a + b) == Replay(sem, Replay(sem, db, a), b)
    decreases |a|
  {
    if a == [] {
      assert a + b == b;
    } else {
      assert (a + b)[1..] == a[1..] + b;
      ReplayAppends(sem, Effect(sem, db, a[0].stmt), a[1..], b);
    }
  }

  /** The effect of a script that is performed to its end. */
  function Played<D>(sem: (D, string) -> D, db: Db<D>, schema: string, script: seq<Action>): Db<D> {
    Replay(sem, db, TraceOf(schema, script))
  }

  lemma PlayedAppends<D>(
    sem: (D, string) -> D, db: Db<D>, schema: string, a: seq<Action>, b: seq<Action>)
    ensures Played(sem, db, schema, a + b) == Played(sem, Played(sem, db, schema, a), schema, b)
  {
    TraceOfAppends(schema, a, b);
    ReplayAppends(sem, db, TraceOf(schema, a), TraceOf(schema, b));
  }

  lemma PlayedStatement<D>(sem: (D, string) -> D, db: Db<D>, schema: string, stmt: Stmt)
    ensures Played(sem, db, schema, [Do(stmt)]) == Effect(sem, db, stmt)
  {
    var t := [Exec(schema, stmt)];
    assert [Do(stmt)][1..] == [];
    assert TraceOf(schema, [Do(stmt)]) == t;
    assert t[1..] == [];
    assert Replay(sem, db, t) == Replay(sem, Effect(sem, db, t[0].stmt), t[1..]);
  }

  lemma PlayedMark<D>(sem: (D, string) -> D, db: Db<D>, schema: string, a: Action)
    requires a.Mark? || a.Unmark?
    ensures Played(sem, db, schema, [a]) == db
  {
    assert [a][1..] == [];
    assert TraceOf(schema, [a]) == [];
  }

  lemma {:induction false} PlayedTexts<D>(sem: (D, string) -> D, db: Db<D>, schema: string, texts: seq<string>)
    ensures Played(sem, db, schema, Dos(texts)) == Db(ApplyAll(sem, db.data, texts), db.rows)
    decreases |texts|
  {
    if texts != [] {
      var first := Do(Sql(texts[0]));
      assert Dos(texts) == [first] + Dos(texts[1..]);
      PlayedAppends(sem, db, schema, [first], Dos(texts[1..]));
      PlayedStatement(sem, db, schema, first.stmt);
      PlayedTexts(sem, Effect(sem, db, first.stmt), schema, texts[1..]);
    }
  }

  // ----- the setting of a round trip -----

  /** A schema whose list was `base` and whose database was `origin` before any of these
      revisions; `start` is its database before the trace begins. */
  datatype Setup<!D> = Setup(
    sem: (D, string) -> D, revisions: seq<Revision>, base: seq<string>, start: Db<D>, origin: Db<D>)

  /** Down undoes up on the data that revision i finds. */
  predicate UndoesAt<D(==)>(x: Setup<D>, i: nat)
    requires i < |x.revisions|
  {
    var r, data := x.revisions[i], UpData(x.sem, x.origin.data, x.revisions[..i]);
    ApplyAll(x.sem, ApplyAll(x.sem, data, Statements(r.upSql)), Statements(r.downSql)) == data
  }

  ghost predicate IdsAreRegular(revisions: seq<Revision>) {
    forall i | 0 <= i < |revisions| :: revisions[i].id != TEMPLATE && revisions[i].id != ""
  }

  /** Revision ids ascend, after whatever the list and the table held before, and each down
      artifact undoes its up artifact where it is applied. */
  ghost predicate WellFormed<D>(x: Setup<D>) {
    && Ascending(x.base + Ids(x.revisions)) && Ascending(x.origin.rows + Ids(x.revisions))
    && IdsAreRegular(x.revisions)
    && forall i | 0 <= i < |x.revisions| :: UndoesAt(x, i)
  }

  function ListAt<D>(x: Setup<D>, j: nat): seq<string>
    requires j <= |x.revisions|
  {
    x.base + Ids(x.revisions[..j])
  }

  function DbAt<D>(x: Setup<D>, j: nat): Db<D>
    requires j <= |x.revisions|
  {
    Db(UpData(x.sem, x.origin.data, x.revisions[..j]), x.origin.rows + Ids(x.revisions[..j]))
  }

  /** The schema is right after its j-th revision: list, data and table. */
  ghost predicate AtRevision<D>(x: Setup<D>, st: State, s: string, j: nat) {
    && j <= |x.revisions|
    && Applied(st, s) == ListAt(x, j)
    && Replay(x.sem, x.start, OnSchema(st.trace, s)) == DbAt(x, j)
  }

  // ----- up -----

  lemma IdsShift(revisions: seq<Revision>, j: nat)
    requires j < |revisions|
    ensures Ids(revisions[..j + 1]) == Ids(revisions[..j]) + [revisions[j].id]
  {
  }

  lemma OneUpPlayed<D>(x: Setup<D>, schema: string, j: nat)
    requires WellFormed(x) && j < |x.revisions|
    ensures Played(x.sem, DbAt(x, j), schema, OneUp(schema, x.revisions[j])) == DbAt(x, j + 1)
  {
    var r, db := x.revisions[j], DbAt(x, j);
    var texts, row := Dos(Statements(r.upSql)), Do(MetaInsert(schema, r.id));
    assert RecordScript(schema, r.id) == [Mark(r.id)] + [row];
    PlayedAppends(x.sem, db, schema, texts, RecordScript(schema, r.id));
    PlayedTexts(x.sem, db, schema, Statements(r.upSql));
    var db1 := Played(x.sem, db, schema, texts);
    PlayedAppends(x.sem, db1, schema, [Mark(r.id)], [row]);
    PlayedMark(x.sem, db1, schema, Mark(r.id));
    PlayedStatement(x.sem, db1, schema, row.stmt);
    assert x.revisions[..j + 1][..j] == x.revisions[..j];
    IdsShift(x.revisions, j);
    assert x.origin.rows + Ids(x.revisions[..j]) + [r.id] == x.origin.rows + Ids(x.revisions[..j + 1]);
  }

  lemma {:induction false} UpPlayed<D>(x: Setup<D>, schema: string, j: nat)
    requires WellFormed(x) && j <= |x.revisions|
    ensures Played(x.sem, DbAt(x, j), schema, UpScript(schema, x.revisions[j..])) == DbAt(x, |x.revisions|)
    decreases |x.revisions| - j
  {
    if j == |x.revisions| {
      assert x.revisions[j..] == [];
    } else {
      var rest := x.revisions[j..];
      assert rest[0] == x.revisions[j] && rest[1..] == x.revisions[j + 1..];
      PlayedAppends(x.sem, DbAt(x, j), schema, OneUp(schema, x.revisions[j]), UpScript(schema, rest[1..]));
      OneUpPlayed(x, schema, j);
      UpPlayed(x, schema, j + 1);
    }
  }

  lemma IdsAreDistinct(prefix: seq<string>, ids: seq<string>, i: nat)
    requires Ascending(prefix + ids) && i < |ids|
    ensures ids[i] !in prefix && forall k | 0 <= k < |ids| && ids[k] == ids[i] :: k == i
  {
    var all := prefix + ids;
    assert all[|prefix| + i] == ids[i];
    forall k | 0 <= k < |all| && k != |prefix| + i
      ensures all[k] != ids[i]
    {
      LessIsIrreflexive(ids[i]);
      if k < |prefix| + i {
        assert Less(all[k], all[|prefix| + i]);
      } else {
        assert Less(all[|prefix| + i], all[k]);
      }
    }
    assert forall k | 0 <= k < |prefix| :: prefix[k] == all[k];
    assert forall k | 0 <= k < |ids| :: ids[k] == all[|prefix| + k];
  }

  /** What is pending after the first j revisions is the rest of them, in order. */
  lemma {:induction false} PendingIsRest(revisions: seq<Revision>, applied: seq<string>, j: nat)
    requires j <= |revisions|
    requires forall i | 0 <= i < |revisions| :: revisions[i].id in applied <==> i < j
    ensures Pending(revisions, applied) == revisions[j..]
    decreases |revisions|
  {
    if revisions != [] {
      forall i | 0 <= i < |revisions| - 1
        ensures revisions[1..][i].id in applied <==> i < (if j == 0 then 0 else j - 1)
      {
        assert revisions[1..][i] == revisions[i + 1];
      }
      PendingIsRest(revisions[1..], applied, if j == 0 then 0 else j - 1);
    }
  }

  lemma PendingAt<D>(x: Setup<D>, j: nat)
    requires WellFormed(x) && j <= |x.revisions|
    ensures Pending(x.revisions, ListAt(x, j)) == x.revisions[j..]
  {
    forall i | 0 <= i < |x.revisions|
      ensures x.revisions[i].id in ListAt(x, j) <==> i < j
    {
      var all, ids := ListAt(x, j), Ids(x.revisions);
      IdsAreDistinct(x.base, ids, i);
      if i < j {
        assert all[|x.base| + i] == ids[i];
      } else {
        forall k | 0 <= k < |all|
          ensures all[k] != ids[i]
        {
          assert all[k] == if k < |x.base| then x.base[k] else ids[k - |x.base|];
        }
      }
    }
    PendingIsRest(x.revisions, ListAt(x, j), j);
  }

  /** A completed migration brings the schema right after its last revision. */
  lemma MigrateReachesLatest<D>(
    x: Setup<D>, faults: Faults, st: State, schemas: seq<string>, s: string, j: nat)
    requires WellFormed(x) && AtRevision(x, st, s, j) && s in schemas
    requires MigrateAll(faults, x.revisions, st, schemas).result.Ok?
    ensures AtRevision(x, MigrateAll(faults, x.revisions, st, schemas).st, s, |x.revisions|)
  {
    var done := MigrateAll(faults, x.revisions, st, schemas).st;
    MigrateAllCompletes(faults, x.revisions, st, schemas, faults);
    assert Migrated(x.revisions, st, done, s);
    PendingAt(x, j);
    MigratedList(x, j);
    ReplayAppends(x.sem, x.start, OnSchema(st.trace, s), TraceOf(s, MigrateScript(s, x.revisions[j..])));
    MigratePlayed(x, s, j);
  }

  lemma MigratedList<D>(x: Setup<D>, j: nat)
    requires j <= |x.revisions|
    ensures ListAt(x, j) + Ids(x.revisions[j..]) == ListAt(x, |x.revisions|)
  {
  }

  lemma MigratePlayed<D>(x: Setup<D>, schema: string, j: nat)
    requires WellFormed(x) && j <= |x.revisions|
    ensures Played(x.sem, DbAt(x, j), schema, MigrateScript(schema, x.revisions[j..])) == DbAt(x, |x.revisions|)
  {
    var rest := x.revisions[j..];
    UpPlayed(x, schema, j);
    if rest != [] {
      PlayedAppends(x.sem, DbAt(x, j), schema, [Do(MetaDdl(schema))], UpScript(schema, rest));
      PlayedStatement(x.sem, DbAt(x, j), schema, MetaDdl(schema));
    }
  }

  // ----- down -----

  lemma {:induction false} ByIdAt(revisions: seq<Revision>, prefix: seq<string>, j: nat)
    requires Ascending(prefix + Ids(revisions)) && j < |revisions|
    ensures ById(revisions, revisions[j].id) == Some(revisions[j])
    decreases |revisions|
  {
    var n := |revisions| - 1;
    IdsAreDistinct(prefix, Ids(revisions), j);
    if j < n {
      assert Ids(revisions)[n] != Ids(revisions)[j];
      assert prefix + Ids(revisions[..n]) == (prefix + Ids(revisions))[..|prefix| + n];
      ByIdAt(revisions[..n], prefix, j);
    }
  }

  lemma OneDownPlayed<D>(x: Setup<D>, schema: string, j: nat)
    requires WellFormed(x) && 0 < j <= |x.revisions| && CanUndo(x.revisions, x.revisions[j - 1].id)
    ensures Played(x.sem, DbAt(x, j), schema, UndoScript(x.revisions, schema, x.revisions[j - 1].id)) == DbAt(x, j - 1)
  {
    var r, db := x.revisions[j - 1], DbAt(x, j);
    var texts, row := Dos(Statements(r.downSql)), Do(MetaDelete(schema, r.id));
    ByIdAt(x.revisions, x.base, j - 1);
    assert UndoScript(x.revisions, schema, r.id) == texts + ([row] + [Unmark(r.id)]);
    PlayedAppends(x.sem, db, schema, texts, [row] + [Unmark(r.id)]);
    PlayedTexts(x.sem, db, schema, Statements(r.downSql));
    var db1 := Played(x.sem, db, schema, texts);
    PlayedAppends(x.sem, db1, schema, [row], [Unmark(r.id)]);
    PlayedStatement(x.sem, db1, schema, row.stmt);
    PlayedMark(x.sem, Effect(x.sem, db1, row.stmt), schema, Unmark(r.id));
    assert x.revisions[..j][..j - 1] == x.revisions[..j - 1];
    assert UndoesAt(x, j - 1);
    RowRemoved(x, j);
  }

  lemma RowRemoved<D>(x: Setup<D>, j: nat)
    requires WellFormed(x) && 0 < j <= |x.revisions|
    ensures RemoveFirst(DbAt(x, j).rows, x.revisions[j - 1].id) == DbAt(x, j - 1).rows
  {
    var all := x.origin.rows + Ids(x.revisions);
    var rows := DbAt(x, j).rows;
    assert rows == all[..|x.origin.rows| + j];
    assert Ascending(rows);
    RemoveLast(rows);
    assert rows[..|rows| - 1] == DbAt(x, j - 1).rows;
  }

  /** These are the revisions from the j-th down, newest first, and each can be undone. */
  ghost predicate Backwards<D>(x: Setup<D>, j: nat, undo: seq<string>) {
    && |undo| <= j <= |x.revisions|
    && forall i | 0 <= i < |undo| :: undo[i] == x.revisions[j - 1 - i].id && CanUndo(x.revisions, undo[i])
  }

  lemma NewestGoesBackwards<D>(x: Setup<D>, j: nat, c: nat)
    requires c <= j <= |x.revisions| && AllUndoable(x.revisions, Newest(ListAt(x, j), c))
    ensures Backwards(x, j, Newest(ListAt(x, j), c))
  {
    var ids := ListAt(x, j);
    forall i | 0 <= i < c
      ensures Newest(ids, c)[i] == x.revisions[j - 1 - i].id
    {
      NewestAt(ids, c, i);
      assert ids[|ids| - 1 - i] == x.revisions[j - 1 - i].id;
    }
  }

  lemma BackwardsShorter<D>(x: Setup<D>, j: nat, undo: seq<string>)
    requires undo != [] && Backwards(x, j, undo)
    ensures Backwards(x, j - 1, undo[1..])
  {
    assert forall i | 0 <= i < |undo| - 1 :: undo[1..][i] == undo[i + 1];
  }

  /** The effect of undoing these revisions one after the other. */
  function Undone<D>(sem: (D, string) -> D, db: Db<D>, revisions: seq<Revision>, schema: string, undo: seq<string>): Db<D>
    decreases |undo|
  {
    if undo == [] then db
    else Undone(sem, Played(sem, db, schema, UndoScript(revisions, schema, undo[0])), revisions, schema, undo[1..])
  }

  lemma {:induction false} DownScriptUndoes<D>(
    sem: (D, string) -> D, db: Db<D>, revisions: seq<Revision>, schema: string, undo: seq<string>)
    ensures Played(sem, db, schema, DownScript(revisions, schema, undo)) == Undone(sem, db, revisions, schema, undo)
    decreases |undo|
  {
    if undo != [] {
      var head := UndoScript(revisions, schema, undo[0]);
      PlayedAppends(sem, db, schema, head, DownScript(revisions, schema, undo[1..]));
      DownScriptUndoes(sem, Played(sem, db, schema, head), revisions, schema, undo[1..]);
    }
  }

  /** Undoing the j-th revision right after it leads back to before it. */
  ghost predicate StepsBack<D>(x: Setup<D>, schema: string, j: nat)
    requires 0 < j <= |x.revisions|
  {
    var id := x.revisions[j - 1].id;
    CanUndo(x.revisions, id) ==> Played(x.sem, DbAt(x, j), schema, UndoScript(x.revisions, schema, id)) == DbAt(x, j - 1)
  }

  lemma {:induction false} UndoneSteps<D>(x: Setup<D>, schema: string, j: nat, undo: seq<string>)
    requires Backwards(x, j, undo) && forall i | 0 < i <= j :: StepsBack(x, schema, i)
    ensures Undone(x.sem, DbAt(x, j), x.revisions, schema, undo) == DbAt(x, j - |undo|)
    decreases |undo|
  {
    if undo != [] {
      BackwardsShorter(x, j, undo);
      assert StepsBack(x, schema, j);
      UndoneSteps(x, schema, j - 1, undo[1..]);
    }
  }

  lemma UndoneReaches<D>(x: Setup<D>, schema: string, j: nat, undo: seq<string>)
    requires WellFormed(x) && Backwards(x, j, undo)
    ensures Undone(x.sem, DbAt(x, j), x.revisions, schema, undo) == DbAt(x, j - |undo|)
  {
    forall i | 0 < i <= j
      ensures StepsBack(x, schema, i)
    {
      if CanUndo(x.revisions, x.revisions[i - 1].id) {
        OneDownPlayed(x, schema, i);
      }
    }
    UndoneSteps(x, schema, j, undo);
  }

  /** What to pass to downgrade for the state right after the j-th revision. */
  function TargetOf<D>(x: Setup<D>, j: nat): string
    requires j <= |x.revisions|
  {
    var ids := ListAt(x, j);
    if ids == [] then "" else ids[|ids| - 1]
  }

  lemma TailAfterTarget<D>(x: Setup<D>, j: nat, t: nat, i: nat)
    requires WellFormed(x) && t <= j <= |x.revisions| && i < |ListAt(x, j)|
    ensures Less(TargetOf(x, t), ListAt(x, j)[i]) <==> i >= |x.base| + t
  {
    var all, target, n := x.base + Ids(x.revisions), TargetOf(x, t), |x.base| + t;
    assert ListAt(x, j)[i] == all[i];
    if n == 0 {
      assert all[i] == x.revisions[i].id;
    } else {
      assert target == all[n - 1];
      LessIsIrreflexive(target);
      if i < n - 1 {
        assert Less(all[i], all[n - 1]);
        if Less(target, all[i]) {
          LessIsTransitive(target, all[i], target);
        }
      } else if i > n - 1 {
        assert Less(all[n - 1], all[i]);
      }
    }
  }

  /** A rollback to an earlier revision that returns leaves the list, the data and the table
      as they were right after that revision. */
  lemma DowngradeReachesTarget<D>(
    x: Setup<D>, faults: Faults, st: State, s: string, j: nat, t: nat)
    requires WellFormed(x) && AtRevision(x, st, s, j) && t <= j
    requires Downgrade(faults, x.revisions, st, s, TargetOf(x, t)).result.Ok?
    ensures AtRevision(x, Downgrade(faults, x.revisions, st, s, TargetOf(x, t)).st, s, t)
  {
    var target := TargetOf(x, t);
    ListIsAscending(x, j);
    TargetIsListed(x, j, t);
    DowngradeWasNotRefused(faults, x.revisions, st, s, target);
    var c, u, n := AscendingRollsBack(faults, x.revisions, st, s, target);
    TailIsAll(x, j, t, c);
    RolledBackPlayed(x, st, Downgrade(faults, x.revisions, st, s, target), s, j, c, n);
    ListShortens(x, j, t);
  }

  lemma ListShortens<D>(x: Setup<D>, j: nat, t: nat)
    requires t <= j <= |x.revisions|
    ensures ListAt(x, j)[..|ListAt(x, j)| - (j - t)] == ListAt(x, t)
  {
  }

  lemma {:induction false} RolledBackPlayed<D>(
    x: Setup<D>, st: State, m: Migration, s: string, j: nat, c: nat, n: nat)
    requires WellFormed(x) && AtRevision(x, st, s, j) && c <= j && AllUndoable(x.revisions, Newest(ListAt(x, j), c))
    requires var script := DownScript(x.revisions, s, Newest(ListAt(x, j), c));
             n == |script| && OnSchema(m.st.trace, s) == OnSchema(st.trace, s) + TraceOf(s, script[..n])
    ensures Replay(x.sem, x.start, OnSchema(m.st.trace, s)) == DbAt(x, j - c)
  {
    var script := DownScript(x.revisions, s, Newest(ListAt(x, j), c));
    assert script[..n] == script;
    DownScriptUndoes(x.sem, DbAt(x, j), x.revisions, s, Newest(ListAt(x, j), c));
    NewestGoesBackwards(x, j, c);
    UndoneReaches(x, s, j, Newest(ListAt(x, j), c));
    ReplayAppends(x.sem, x.start, OnSchema(st.trace, s), TraceOf(s, script));
  }

  lemma TargetIsListed<D>(x: Setup<D>, j: nat, t: nat)
    requires t <= j <= |x.revisions|
    ensures TargetOf(x, t) == "" || TargetOf(x, t) in ListAt(x, j)
  {
    var n := |ListAt(x, t)|;
    if n > 0 {
      assert ListAt(x, j)[n - 1] == ListAt(x, t)[n - 1];
    }
  }

  lemma ListIsAscending<D>(x: Setup<D>, j: nat)
    requires WellFormed(x) && j <= |x.revisions|
    ensures Ascending(ListAt(x, j))
  {
    assert ListAt(x, j) == (x.base + Ids(x.revisions))[..|x.base| + j];
  }

  lemma TailIsAll<D>(x: Setup<D>, j: nat, t: nat, c: nat)
    requires WellFormed(x) && t <= j <= |x.revisions| && c <= |ListAt(x, j)|
    requires forall i | 0 <= i < |ListAt(x, j)| - c :: !Less(TargetOf(x, t), ListAt(x, j)[i])
    requires forall i | |ListAt(x, j)| - c <= i < |ListAt(x, j)| :: Less(TargetOf(x, t), ListAt(x, j)[i])
    ensures c == j - t
  {
    var k := |ListAt(x, j)| - c;
    if k < |ListAt(x, j)| {
      TailAfterTarget(x, j, t, k);
    }
    if k > 0 {
      TailAfterTarget(x, j, t, k - 1);
    }
  }

  lemma DowngradeWasNotRefused(
    faults: Faults, revisions: seq<Revision>, st: State, s: string, target: string)
    requires Downgrade(faults, revisions, st, s, target).result.Ok?
    ensures AllUndoable(revisions, ToUndo(Applied(st, s), target)) && SafeSchemaName(s)
  {
    var script := DownScript(revisions, s, ToUndo(Applied(st, s), target));
    ScriptMarks(faults, st.(active := s), s, script);
    assert NoRefusal(script, |script|);
    DownRefuses(revisions, s, ToUndo(Applied(st, s), target));
  }

  /** Migrating fully, rolling back to any applied revision and migrating again, whatever
      else the runs migrate: the schema is right after its last revision, right after the
      target, and right after its last revision again. */
  lemma MigrationsRoundTrip<D>(
    x: Setup<D>, f1: Faults, f2: Faults, f3: Faults, st: State, schemas: seq<string>, s: string, j: nat, t: nat)
    requires WellFormed(x) && AtRevision(x, st, s, j) && s in schemas && t <= |x.revisions|
    requires var m1 := MigrateAll(f1, x.revisions, st, schemas);
             var m2 := Downgrade(f2, x.revisions, m1.st, s, TargetOf(x, t));
             m1.result.Ok? && m2.result.Ok? && MigrateAll(f3, x.revisions, m2.st, schemas).result.Ok?
    ensures var m1 := MigrateAll(f1, x.revisions, st, schemas);
            var m2 := Downgrade(f2, x.revisions, m1.st, s, TargetOf(x, t));
            && AtRevision(x, m1.st, s, |x.revisions|)
            && AtRevision(x, m2.st, s, t)
            && AtRevision(x, MigrateAll(f3, x.revisions, m2.st, schemas).st, s, |x.revisions|)
  {
    var m1 := MigrateAll(f1, x.revisions, st, schemas);
    MigrateReachesLatest(x, f1, st, schemas, s, j);
    DowngradeReachesTarget(x, f2, m1.st, s, |x.revisions|, t);
    MigrateReachesLatest(x, f3, Downgrade(f2, x.revisions, m1.st, s, TargetOf(x, t)).st, schemas, s, t);
  }

  lemma TailIsUndoable<D>(x: Setup<D>, t: nat)
    requires WellFormed(x) && t <= |x.revisions| && forall i | 0 <= i < |x.revisions| :: x.revisions[i].downSql != ""
    ensures AllUndoable(x.revisions, Newest(ListAt(x, |x.revisions|), |x.revisions| - t))
  {
    var n, ids := |x.revisions|, ListAt(x, |x.revisions|);
    var undo := Newest(ids, n - t);
    forall i | 0 <= i < |undo|
      ensures CanUndo(x.revisions, undo[i])
    {
      NewestAt(ids, n - t, i);
      assert ids[|ids| - 1 - i] == x.revisions[n - 1 - i].id;
      ByIdAt(x.revisions, x.base, n - 1 - i);
    }
  }

  /** A rollback from the latest revision returns when the executor does not fail and every
      revision has a down artifact. */
  lemma DowngradeReturns<D>(x: Setup<D>, faults: Faults, st: State, s: string, t: nat)
    requires WellFormed(x) && AtRevision(x, st, s, |x.revisions|) && t <= |x.revisions|
    requires Faultless(faults) && SafeSchemaName(s) && forall i | 0 <= i < |x.revisions| :: x.revisions[i].downSql != ""
    ensures Downgrade(faults, x.revisions, st, s, TargetOf(x, t)).result.Ok?
  {
    ListIsAscending(x, |x.revisions|);
    TargetIsListed(x, |x.revisions|, t);
    var c := ToUndoIsNewest(Applied(st, s), TargetOf(x, t));
    TailIsAll(x, |x.revisions|, t, c);
    TailIsUndoable(x, t);
    DowngradeCompletesExactly(faults, x.revisions, st, s, TargetOf(x, t));
  }

  /** The round trip does happen: with safe names, down artifacts and an executor that does
      not fail, all three calls return and visit these states. */
  lemma FaultlessRoundTrip<D>(
    x: Setup<D>, faults: Faults, st: State, schemas: seq<string>, s: string, j: nat, t: nat)
    requires WellFormed(x) && AtRevision(x, st, s, j) && s in schemas && t <= |x.revisions|
    requires Faultless(faults) && (forall name | name in schemas :: SafeSchemaName(name))
    requires forall i | 0 <= i < |x.revisions| :: x.revisions[i].downSql != ""
    ensures var m1 := MigrateAll(faults, x.revisions, st, schemas);
            var m2 := Downgrade(faults, x.revisions, m1.st, s, TargetOf(x, t));
            var m3 := MigrateAll(faults, x.revisions, m2.st, schemas);
            && m1.result.Ok? && AtRevision(x, m1.st, s, |x.revisions|)
            && m2.result.Ok? && AtRevision(x, m2.st, s, t)
            && m3.result.Ok? && AtRevision(x, m3.st, s, |x.revisions|)
  {
    var m1 := MigrateAll(faults, x.revisions, st, schemas);
    var m2 := Downgrade(faults, x.revisions, m1.st, s, TargetOf(x, t));
    MigrateAllCompletesExactly(faults, x.revisions, st, schemas);
    MigrateReachesLatest(x, faults, st, schemas, s, j);
    DowngradeReturns(x, faults, m1.st, s, t);
    MigrateAllCompletesExactly(faults, x.revisions, m2.st, schemas);
    MigrationsRoundTrip(x, faults, faults, faults, st, schemas, s, j, t);
  }

  // ----- an ordinary revision -----

  /** A database as its set of tables, with one statement that creates a table and one that
      drops it. */
  function Tables(tables: set<string>, text: string): set<string> {
    if text == "C" then tables + {"t"} else if text == "D" then tables - {"t"} else tables
  }

  /** Creating a table and dropping it qualifies: down undoes up where it is applied, though
      not on a database that already has the table. */
  lemma CreateAndDropQualifies(r: Revision, start: Db<set<string>>)
    requires r.upSql == "C" && r.downSql == "D" && r.id != TEMPLATE && r.id != ""
    ensures "t" !in start.data && start.rows == [] ==> WellFormed(Setup(Tables, [r], [], start, start))
    ensures ApplyAll(Tables, ApplyAll(Tables, {"t"}, Statements(r.upSql)), Statements(r.downSql)) != {"t"}
  {
    OneStatement('C');
    OneStatement('D');
    assert ["C"][1..] == [] && ["D"][1..] == [];
    var x := Setup(Tables, [r], [], start, start);
    assert x.revisions[..0] == [];
    assert ApplyAll(Tables, {"t"}, ["C"]) == {"t"} && ApplyAll(Tables, {"t"}, ["D"]) == {};
    assert ApplyAll(Tables, start.data, ["C"]) == start.data + {"t"};
    assert ApplyAll(Tables, start.data + {"t"}, ["D"]) == start.data + {"t"} - {"t"};
  }

  lemma OneStatement(c: char)
    requires c != ';' && !IsSpace(c)
    ensures Statements([c]) == [[c]]
  {
    assert [c][1..] == [] && [] + [c] == [c];
    assert Statements([c]) == Statements([c][1..], [] + [c]) == Stripped([c]);
    assert StripLeft([c]) == [c] && StripRight([c]) == [c];
  }
}
