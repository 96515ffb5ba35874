/** The provisioner object and the executor it is given, statement by statement. */
module Provisioner {
  import opened Wrappers
  import opened Provisioning
  import opened Migrations
  import opened Rollback

  /** The injected SQL executor: it keeps what it executed and raises on some attempts. */
  class Executor {
    const fails: Faults
    var trace: seq<Exec>
    var attempts: nat

    constructor (fails: Faults)
      ensures trace == [] && attempts == 0 && this.fails == fails
    {
      this.fails, trace, attempts := fails, [], 0;
    }

    method Run(active: string, stmt: Stmt) returns (ok: bool)
      modifies this
      ensures attempts == old(attempts) + 1
      ensures ok <==> !fails(old(attempts))
      ensures trace == if ok then old(trace) + [Exec(active, stmt)] else old(trace)
    {
      ok := !fails(attempts);
      attempts := attempts + 1;
      if ok {
        trace := trace + [Exec(active, stmt)];
      }
    }
  }

  /** From one state a script led to another, to its end or not. */
  ghost predicate Ran(f: Faults, from: State, schema: string, script: seq<Action>, to: State, ok: bool) {
    var (st, n) := RunScript(f, from, schema, script);
    st == to && (ok <==> n == |script|)
  }

  lemma RanNothing(f: Faults, st: State, schema: string)
    ensures Ran(f, st, schema, [], st, true)
  {
  }

  lemma RanOn(
    f: Faults, from: State, schema: string, a: seq<Action>, mid: State, b: seq<Action>, to: State, ok: bool)
    requires Ran(f, from, schema, a, mid, true) && Ran(f, mid, schema, b, to, ok)
    ensures Ran(f, from, schema, a + b, to, ok)
  {
    RunAppends(f, from, schema, a, b);
  }

  lemma RanNoFurther(
    f: Faults, from: State, schema: string, a: seq<Action>, to: State, b: seq<Action>)
    requires Ran(f, from, schema, a, to, false)
    ensures Ran(f, from, schema, a + b, to, false)
    ensures RunScript(f, from, schema, a + b).1 == RunScript(f, from, schema, a).1
  {
    RunAppends(f, from, schema, a, b);
  }

  lemma OneAction(f: Faults, from: State, schema: string, a: Action)
    ensures Ran(f, from, schema, [a], Perform(f, from, schema, a).0, Perform(f, from, schema, a).1)
  {
    assert [a][1..] == [];
  }

  lemma {:induction false} UpScriptAppends(schema: string, a: seq<Revision>, b: seq<Revision>)
    ensures UpScript(schema, a + b) == UpScript(schema, a) + UpScript(schema, b)
    decreases |a|
  {
    if a == [] {
      assert a + b == b;
    } else {
      assert (a + b)[1..] == a[1..] + b;
      UpScriptAppends(schema, a[1..], b);
    }
  }

  lemma UpScriptSplits(schema: string, revisions: seq<Revision>, i: nat)
    requires i < |revisions|
    ensures UpScript(schema, revisions[..i + 1]) == UpScript(schema, revisions[..i]) + OneUp(schema, revisions[i])
    ensures UpScript(schema, revisions) == UpScript(schema, revisions[..i + 1]) + UpScript(schema, revisions[i + 1..])
  {
    assert revisions[..i + 1] == revisions[..i] + [revisions[i]];
    assert revisions == revisions[..i + 1] + revisions[i + 1..];
    assert [revisions[i]][1..] == [];
    assert UpScript(schema, [revisions[i]]) == OneUp(schema, revisions[i]) + [];
    UpScriptAppends(schema, revisions[..i], [revisions[i]]);
    UpScriptAppends(schema, revisions[..i + 1], revisions[i + 1..]);
  }

  lemma {:induction false} DownScriptAppends(revisions: seq<Revision>, schema: string, a: seq<string>, b: seq<string>)
    ensures DownScript(revisions, schema, a + b) == DownScript(revisions, schema, a) + DownScript(revisions, schema, b)
    decreases |a|
  {
    if a == [] {
      assert a + b == b;
    } else {
      assert (a + b)[1..] == a[1..] + b;
      DownScriptAppends(revisions, schema, a[1..], b);
    }
  }

  lemma DownScriptAt(revisions: seq<Revision>, schema: string, undo: seq<string>, i: nat)
    requires i < |undo|
    ensures DownScript(revisions, schema, undo[..i + 1])
         == DownScript(revisions, schema, undo[..i]) + UndoScript(revisions, schema, undo[i])
    ensures DownScript(revisions, schema, undo)
         == DownScript(revisions, schema, undo[..i + 1]) + DownScript(revisions, schema, undo[i + 1..])
  {
    assert undo[..i + 1] == undo[..i] + [undo[i]];
    assert undo == undo[..i + 1] + undo[i + 1..];
    assert [undo[i]][1..] == [];
    assert DownScript(revisions, schema, [undo[i]]) == UndoScript(revisions, schema, undo[i]) + [];
    DownScriptAppends(revisions, schema, undo[..i], [undo[i]]);
    DownScriptAppends(revisions, schema, undo[..i + 1], undo[i + 1..]);
  }

  /** One visit of a run: what migrate_all does with one schema. */
  ghost predicate Visited(
    f: Faults, revisions: seq<Revision>, before: State, schema: string, after: State, r: Result<nat, ProvisioningError>)
  {
    if !SafeSchemaName(schema) then r == Err(UnsafeSchemaName) && after == before
    else
      var pending := Pending(revisions, Applied(before, schema));
      if pending == [] then r == Ok(0) && after == before
      else
        && Ran(f, before.(active := schema), schema, MigrateScript(schema, pending), after, r.Ok?)
        && r == if r.Ok? then Ok(|pending|) else Err(ExecutionFailed)
  }

  lemma VisitsOneMore(
    f: Faults, revisions: seq<Revision>, from: State, visited: seq<string>, schema: string, st: State, count: nat,
    after: State, r: Result<nat, ProvisioningError>)
    requires MigrateAll(f, revisions, from, visited) == Migration(st, Ok(count)) && Visited(f, revisions, st, schema, after, r)
    ensures MigrateAll(f, revisions, from, visited + [schema]) == Counted(Migration(after, r), count)
  {
    OneMoreSchema(f, revisions, from, visited, schema, st, count);
  }

  class SchemaProvisioner {
    const templateSql: string
    const revisions: seq<Revision>
    const executor: Executor
    var activeSchema: string
    var applied: map<string, seq<string>>

    constructor (templateSql: string, revisions: seq<Revision>, executor: Executor)
      ensures this.templateSql == templateSql && this.revisions == revisions && this.executor == executor
      ensures State() == Provisioning.State.State(map[], "", executor.trace, executor.attempts)
    {
      this.templateSql, this.revisions, this.executor := templateSql, revisions, executor;
      activeSchema, applied := "", map[];
    }

    function State(): Provisioning.State
      reads this, executor
    {
      Provisioning.State.State(applied, activeSchema, executor.trace, executor.attempts)
    }

    method Execute(schema: string, stmt: Stmt) returns (ok: bool)
      modifies this, executor
      ensures Ran(executor.fails, old(State()), schema, [Do(stmt)], State(), ok)
    {
      OneAction(executor.fails, State(), schema, Do(stmt));
      ok := executor.Run(activeSchema, stmt);
    }

    /** Executes the statements of an artifact up to the first failure. */
    method ExecuteAll(schema: string, sql: string) returns (ok: bool)
      modifies this, executor
      ensures Ran(executor.fails, old(State()), schema, Dos(Statements(sql)), State(), ok)
    {
      var texts := Statements(sql);
      ghost var from, script := State(), Dos(texts);
      for i := 0 to |texts|
        invariant Ran(executor.fails, from, schema, script[..i], State(), true)
      {
        ghost var before := State();
        ok := Execute(schema, Sql(texts[i]));
        RanOn(executor.fails, from, schema, script[..i], before, [script[i]], State(), ok);
        assert script[..i] + [script[i]] == script[..i + 1];
        if !ok {
          RanNoFurther(executor.fails, from, schema, script[..i + 1], State(), script[i + 1..]);
          assert script[..i + 1] + script[i + 1..] == script;
          return;
        }
      }
      assert script[..|texts|] == script;
      ok := true;
    }

    /** The list is extended before the row is inserted. */
    method Record(schema: string, id: string) returns (ok: bool)
      modifies this, executor
      ensures Ran(executor.fails, old(State()), schema, RecordScript(schema, id), State(), ok)
    {
      ghost var from := State();
      OneAction(executor.fails, from, schema, Mark(id));
      applied := applied[schema := (if schema in applied then applied[schema] else []) + [id]];
      ghost var mid := State();
      if id != TEMPLATE {
        ok := Execute(schema, MetaInsert(schema, id));
        RanOn(executor.fails, from, schema, [Mark(id)], mid, [Do(MetaInsert(schema, id))], State(), ok);
      } else {
        ok := true;
        RanNothing(executor.fails, mid, schema);
        RanOn(executor.fails, from, schema, [Mark(id)], mid, [], mid, true);
      }
    }

    method CreateTenantSchema(schema: string) returns (error: Option<ProvisioningError>)
      modifies this, executor
      ensures (State(), error) == Provisioning.CreateTenantSchema(executor.fails, templateSql, old(State()), schema)
    {
      if !SafeSchemaName(schema) {
        return Some(UnsafeSchemaName);
      }
      if templateSql == "" {
        return Some(NoTemplate);
      }
      activeSchema := schema;
      ghost var from := State();
      ghost var create, texts, record := [Do(CreateSchema(schema))], Dos(Statements(templateSql)), RecordScript(schema, TEMPLATE);
      assert CreateScript(schema, templateSql) == create + texts + record == create + (texts + record);
      var ok := Execute(schema, CreateSchema(schema));
      ghost var afterCreate := State();
      if !ok {
        RanNoFurther(executor.fails, from, schema, create, State(), texts + record);
        return Some(ExecutionFailed);
      }
      ok := ExecuteAll(schema, templateSql);
      ghost var afterTexts := State();
      RanOn(executor.fails, from, schema, create, afterCreate, texts, afterTexts, ok);
      if !ok {
        RanNoFurther(executor.fails, from, schema, create + texts, State(), record);
        return Some(ExecutionFailed);
      }
      ok := Record(schema, TEMPLATE);
      RanOn(executor.fails, from, schema, create + texts, afterTexts, record, State(), ok);
      return if ok then None else Some(ExecutionFailed);
    }

    /** The statements of one revision and its record. */
    method RunUp(schema: string, r: Revision) returns (ok: bool)
      modifies this, executor
      ensures Ran(executor.fails, old(State()), schema, OneUp(schema, r), State(), ok)
    {
      ghost var from, texts := State(), Dos(Statements(r.upSql));
      ok := ExecuteAll(schema, r.upSql);
      ghost var mid := State();
      if !ok {
        RanNoFurther(executor.fails, from, schema, texts, mid, RecordScript(schema, r.id));
        return;
      }
      ok := Record(schema, r.id);
      RanOn(executor.fails, from, schema, texts, mid, RecordScript(schema, r.id), State(), ok);
    }

    /** The body of migrate_all's loop for a schema with something pending. */
    method MigrateSchema(schema: string, pending: seq<Revision>) returns (ok: bool, recorded: nat)
      requires pending != []
      modifies this, executor
      ensures Ran(executor.fails, old(State()).(active := schema), schema, MigrateScript(schema, pending), State(), ok)
      ensures ok ==> recorded == |pending|
    {
      activeSchema := schema;
      ghost var from, ddl := State(), [Do(MetaDdl(schema))];
      recorded := 0;
      ok := Execute(schema, MetaDdl(schema));
      if !ok {
        RanNoFurther(executor.fails, from, schema, ddl, State(), UpScript(schema, pending));
        return;
      }
      ghost var mid := State();
      RanNothing(executor.fails, mid, schema);
      for i := 0 to |pending|
        invariant Ran(executor.fails, mid, schema, UpScript(schema, pending[..i]), State(), true)
        invariant recorded == i
      {
        ghost var before := State();
        UpScriptSplits(schema, pending, i);
        ok := RunUp(schema, pending[i]);
        RanOn(executor.fails, mid, schema, UpScript(schema, pending[..i]), before, OneUp(schema, pending[i]), State(), ok);
        if !ok {
          RanNoFurther(executor.fails, mid, schema, UpScript(schema, pending[..i + 1]), State(), UpScript(schema, pending[i + 1..]));
          RanOn(executor.fails, from, schema, ddl, mid, UpScript(schema, pending), State(), false);
          return;
        }
        recorded := recorded + 1;
      }
      assert pending[..|pending|] == pending;
      RanOn(executor.fails, from, schema, ddl, mid, UpScript(schema, pending), State(), true);
      ok := true;
    }

    /** The body of migrate_all's loop: the error that stops the run, or how many revisions
        it recorded. */
    method Visit(schema: string) returns (r: Result<nat, ProvisioningError>)
      modifies this, executor
      ensures Visited(executor.fails, revisions, old(State()), schema, State(), r)
    {
      if !SafeSchemaName(schema) {
        return Err(UnsafeSchemaName);
      }
      var pending := Pending(revisions, if schema in applied then applied[schema] else []);
      if pending == [] {
        return Ok(0);
      }
      var ok, recorded := MigrateSchema(schema, pending);
      return if ok then Ok(recorded) else Err(ExecutionFailed);
    }

    method MigrateAll(schemas: seq<string>) returns (r: Result<nat, ProvisioningError>)
      modifies this, executor
      ensures Migration(State(), r) == Provisioning.MigrateAll(executor.fails, revisions, old(State()), schemas)
    {
      ghost var from := State();
      var count := 0;
      for i := 0 to |schemas|
        invariant Provisioning.MigrateAll(executor.fails, revisions, from, schemas[..i]) == Migration(State(), Ok(count))
      {
        ghost var before := State();
        var visited := Visit(schemas[i]);
        VisitsOneMore(executor.fails, revisions, from, schemas[..i], schemas[i], before, count, State(), visited);
        assert schemas[..i] + [schemas[i]] == schemas[..i + 1];
        if visited.Err? {
          RaisesEarly(executor.fails, revisions, from, schemas[..i + 1], schemas[i + 1..]);
          assert schemas[..i + 1] + schemas[i + 1..] == schemas;
          return visited;
        }
        count := count + visited.value;
      }
      assert schemas[..|schemas|] == schemas;
      return Ok(count);
    }

    /** The body of downgrade's loop for a revision with a down artifact. */
    method UndoRevision(schema: string, r: Revision) returns (ok: bool)
      modifies this, executor
      ensures Ran(executor.fails, old(State()), schema,
                  Dos(Statements(r.downSql)) + [Do(MetaDelete(schema, r.id)), Unmark(r.id)], State(), ok)
    {
      ghost var from, texts := State(), Dos(Statements(r.downSql));
      ghost var row, unmark := [Do(MetaDelete(schema, r.id))], [Unmark(r.id)];
      assert texts + [Do(MetaDelete(schema, r.id)), Unmark(r.id)] == texts + (row + unmark) == texts + row + unmark;
      ok := ExecuteAll(schema, r.downSql);
      ghost var afterTexts := State();
      if !ok {
        RanNoFurther(executor.fails, from, schema, texts, State(), row + unmark);
        return;
      }
      ok := Execute(schema, MetaDelete(schema, r.id));
      ghost var afterRow := State();
      RanOn(executor.fails, from, schema, texts, afterTexts, row, afterRow, ok);
      if !ok {
        RanNoFurther(executor.fails, from, schema, texts + row, State(), unmark);
        return;
      }
      OneAction(executor.fails, afterRow, schema, Unmark(r.id));
      if schema in applied {
        applied := applied[schema := RemoveFirst(applied[schema], r.id)];
      }
      RanOn(executor.fails, from, schema, texts + row, afterRow, unmark, State(), true);
    }

    /** Undoes one revision, or refuses before anything of it runs. */
    method Undo(schema: string, id: string) returns (error: Option<ProvisioningError>)
      modifies this, executor
      ensures error.None? ==> Ran(executor.fails, old(State()), schema, UndoScript(revisions, schema, id), State(), true)
      ensures error.Some? && error.value == NoDownArtifact ==>
                State() == old(State()) && UndoScript(revisions, schema, id) == [Refuse]
      ensures error.Some? && error.value != NoDownArtifact ==>
                && error.value == ExecutionFailed
                && Ran(executor.fails, old(State()), schema, UndoScript(revisions, schema, id), State(), false)
                && NoRefusal(UndoScript(revisions, schema, id), |UndoScript(revisions, schema, id)|)
    {
      var revision := ById(revisions, id);
      if revision.None? || revision.value.downSql == "" {
        return Some(NoDownArtifact);
      }
      ByIdNamed(revisions, id);
      UndoRefuses(revisions, schema, id);
      var ok := UndoRevision(schema, revision.value);
      return if ok then None else Some(ExecutionFailed);
    }

    method Downgrade(schema: string, target: string) returns (r: Result<nat, ProvisioningError>)
      modifies this, executor
      ensures Migration(State(), r) == Provisioning.Downgrade(executor.fails, revisions, old(State()), schema, target)
    {
      if !SafeSchemaName(schema) {
        return Err(UnsafeSchemaName);
      }
      var ids := if schema in applied then applied[schema] else [];
      if target !in ids && target != "" {
        return Err(TargetNotApplied);
      }
      activeSchema := schema;
      r := UndoAll(schema, ToUndo(ids, target));
    }

    method UndoAll(schema: string, undo: seq<string>) returns (r: Result<nat, ProvisioningError>)
      modifies this, executor
      ensures var script := DownScript(revisions, schema, undo);
              var (st, n) := RunScript(executor.fails, old(State()), schema, script);
              && State() == st
              && r == if n == |script| then Ok(|undo|)
                      else if script[n].Refuse? then Err(NoDownArtifact)
                      else Err(ExecutionFailed)
    {
      var undone := 0;
      ghost var from := State();
      RanNothing(executor.fails, from, schema);
      for i := 0 to |undo|
        invariant Ran(executor.fails, from, schema, DownScript(revisions, schema, undo[..i]), State(), true)
        invariant undone == i
      {
        ghost var before, done := State(), DownScript(revisions, schema, undo[..i]);
        ghost var next, later := UndoScript(revisions, schema, undo[i]), DownScript(revisions, schema, undo[i + 1..]);
        DownScriptAt(revisions, schema, undo, i);
        var error := Undo(schema, undo[i]);
        if error == Some(NoDownArtifact) {
          StopsAtRefusal(executor.fails, from, schema, done, State(), later);
          return Err(NoDownArtifact);
        }
        RanOn(executor.fails, from, schema, done, before, next, State(), error.None?);
        if error.Some? {
          RanNoFurther(executor.fails, from, schema, done + next, State(), later);
          StopsAtStatement(executor.fails, from, schema, done, next, later);
          return Err(ExecutionFailed);
        }
        undone := undone + 1;
      }
      assert undo[..|undo|] == undo;
      return Ok(undone);
    }
  }

  lemma {:induction false} ByIdNamed(revisions: seq<Revision>, id: string)
    ensures ById(revisions, id).Some? ==> ById(revisions, id).value.id == id
    decreases |revisions|
  {
    if revisions != [] {
      ByIdNamed(revisions[..|revisions| - 1], id);
    }
  }

  lemma StopsAtRefusal(
    f: Faults, from: State, schema: string, done: seq<Action>, to: State, later: seq<Action>)
    requires Ran(f, from, schema, done, to, true)
    ensures RunScript(f, from, schema, done + [Refuse] + later) == (to, |done|)
    ensures (done + [Refuse] + later)[|done|] == Refuse
  {
    OneAction(f, to, schema, Refuse);
    RanOn(f, from, schema, done, to, [Refuse], to, false);
    RunAppends(f, from, schema, done, [Refuse]);
    RanNoFurther(f, from, schema, done + [Refuse], to, later);
  }

  /** A script that completed its first part and stopped in a part without refusals stopped
      at a statement. */
  lemma StopsAtStatement(
    f: Faults, from: State, schema: string, done: seq<Action>, next: seq<Action>, later: seq<Action>)
    requires RunScript(f, from, schema, done).1 == |done| && RunScript(f, from, schema, done + next).1 < |done + next|
    requires NoRefusal(next, |next|)
    ensures var n := RunScript(f, from, schema, done + next + later).1;
            n < |done + next + later| && (done + next + later)[n].Do?
  {
    var n := RunScript(f, from, schema, done + next).1;
    RunAppends(f, from, schema, done, next);
    RunAppends(f, from, schema, done + next, later);
    ScriptMarks(f, from, schema, done + next);
    assert (done + next)[n] == next[n - |done|];
    assert (done + next + later)[n] == (done + next)[n];
  }
}
