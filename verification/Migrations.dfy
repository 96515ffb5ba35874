/** What migrate_all does to a whole set of tenant schemas, whether it completes or an
    executor failure stops it. */
module Migrations {
  import opened Wrappers
  import opened Provisioning
  import Slices

  // ----- one schema's part of a trace -----

  /** The statements executed while a schema was active. */
  function OnSchema(trace: seq<Exec>, schema: string): seq<Exec>
    decreases |trace|
  {
    if trace == [] then []
    else if trace[0].active == schema then [trace[0]] + OnSchema(trace[1..], schema)
    else OnSchema(trace[1..], schema)
  }

  lemma {:induction false} OnSchemaAppends(a: seq<Exec>, b: seq<Exec>, schema: string)
    ensures OnSchema(a + b, schema) == OnSchema(a, schema) + OnSchema(b, schema)
    decreases |a|
  {
    if a == [] {
      assert a + b == b;
    } else {
      assert (a + b)[1..] == a[1..] + b;
      OnSchemaAppends(a[1..], b, schema);
    }
  }

  lemma {:induction false} OnSchemaOfScript(active: string, script: seq<Action>, schema: string)
    ensures OnSchema(TraceOf(active, script), schema) == if active == schema then TraceOf(active, script) else []
    decreases |script|
  {
    if script != [] {
      var first := if script[0].Do? then [Exec(active, script[0].stmt)] else [];
      OnSchemaAppends(first, TraceOf(active, script[1..]), schema);
      OnSchemaOfScript(active, script[1..], schema);
      assert first != [] ==> first[1..] == [];
    }
  }

  /** A script adds its performed part to its own schema's trace and nothing to any other. */
  lemma ScriptOnSchema(faults: Faults, st: State, schema: string, script: seq<Action>, s: string)
    requires st.active == schema
    ensures var (st1, n) := RunScript(faults, st, schema, script);
            OnSchema(st1.trace, s) == OnSchema(st.trace, s) + if s == schema then TraceOf(schema, script[..n]) else []
  {
    var n := RunScript(faults, st, schema, script).1;
    ScriptTrace(faults, st, schema, script);
    OnSchemaAppends(st.trace, TraceOf(schema, script[..n]), s);
    OnSchemaOfScript(schema, script[..n], s);
  }

  // ----- pending revisions -----

  /** The list of a schema once everything pending has been recorded. */
  function Full(revisions: seq<Revision>, applied: seq<string>): seq<string> {
    applied + Ids(Pending(revisions, applied))
  }

  lemma {:induction false} NothingPending(revisions: seq<Revision>, applied: seq<string>)
    requires forall i | 0 <= i < |revisions| :: revisions[i].id in applied
    ensures Pending(revisions, applied) == []
    decreases |revisions|
  {
    if revisions != [] {
      NothingPending(revisions[1..], applied);
    }
  }

  lemma {:induction false} PendingCovers(revisions: seq<Revision>, applied: seq<string>, i: nat)
    requires i < |revisions|
    ensures revisions[i].id in applied || revisions[i] in Pending(revisions, applied)
    decreases |revisions|
  {
    if i > 0 {
      PendingCovers(revisions[1..], applied, i - 1);
    }
  }

  /** Recording what is pending leaves nothing pending. */
  lemma FullHasNothingPending(revisions: seq<Revision>, applied: seq<string>)
    ensures Pending(revisions, Full(revisions, applied)) == []
  {
    var pending := Pending(revisions, applied);
    forall i | 0 <= i < |revisions|
      ensures revisions[i].id in Full(revisions, applied)
    {
      PendingCovers(revisions, applied, i);
      if revisions[i].id !in applied {
        var j :| 0 <= j < |pending| && pending[j] == revisions[i];
        assert Full(revisions, applied)[|applied| + j] == revisions[i].id;
      }
    }
    NothingPending(revisions, Full(revisions, applied));
  }

  // ----- what a migration script records -----

  lemma {:induction false} StatementsMarkNothing(ids: seq<string>, script: seq<Action>)
    requires forall i | 0 <= i < |script| :: script[i].Do?
    ensures Marked(ids, script) == ids
    decreases |script|
  {
    if script != [] {
      StatementsMarkNothing(ids, script[1..]);
    }
  }

  lemma RecordMarks(ids: seq<string>, schema: string, id: string)
    ensures Marked(ids, RecordScript(schema, id)) == ids + [id]
  {
    var row := if id != TEMPLATE then [Do(MetaInsert(schema, id))] else [];
    MarkedAppends(ids, [Mark(id)], row);
    assert [Mark(id)][1..] == [];
    StatementsMarkNothing(ids + [id], row);
  }

  function OneUp(schema: string, r: Revision): seq<Action> {
    Dos(Statements(r.upSql)) + RecordScript(schema, r.id)
  }

  lemma OneUpMarks(ids: seq<string>, schema: string, r: Revision)
    ensures Marked(ids, OneUp(schema, r)) == ids + [r.id]
  {
    var texts := Dos(Statements(r.upSql));
    MarkedAppends(ids, texts, RecordScript(schema, r.id));
    StatementsMarkNothing(ids, texts);
    RecordMarks(ids, schema, r.id);
  }

  lemma IdsAfterFirst(revisions: seq<Revision>, m: nat)
    requires m < |revisions|
    ensures Ids(revisions[..m + 1]) == [revisions[0].id] + Ids(revisions[1..][..m])
    ensures m == |revisions| - 1 ==> Ids(revisions) == [revisions[0].id] + Ids(revisions[1..])
  {
  }

  lemma {:induction false} UpMarks(ids: seq<string>, schema: string, revisions: seq<Revision>)
    ensures Marked(ids, UpScript(schema, revisions)) == ids + Ids(revisions)
    decreases |revisions|
  {
    if revisions == [] {
      assert ids + [] == ids;
    } else {
      MarkedAppends(ids, OneUp(schema, revisions[0]), UpScript(schema, revisions[1..]));
      OneUpMarks(ids, schema, revisions[0]);
      UpMarks(ids + [revisions[0].id], schema, revisions[1..]);
      IdsAfterFirst(revisions, |revisions| - 1);
      Slices.Associative(ids, [revisions[0].id], Ids(revisions[1..]));
    }
  }

  lemma MigrateMarks(ids: seq<string>, schema: string, pending: seq<Revision>)
    ensures Marked(ids, MigrateScript(schema, pending)) == ids + Ids(pending)
  {
    if pending == [] {
      assert ids + [] == ids;
    } else {
      MarkedAppends(ids, [Do(MetaDdl(schema))], UpScript(schema, pending));
      StatementsMarkNothing(ids, [Do(MetaDdl(schema))]);
      UpMarks(ids, schema, pending);
    }
  }

  /** The first m revisions are done and recorded, and part of revision m's own statements. */
  ghost predicate InRevision(schema: string, revisions: seq<Revision>, n: nat, m: nat) {
    && m < |revisions|
    && LiesIn(UpScript(schema, revisions), n, UpScript(schema, revisions[..m]), Dos(Statements(revisions[m].upSql)))
  }

  /** Revision m - 1 has run and is in the list; its row is what comes next. */
  ghost predicate AtRow(schema: string, revisions: seq<Revision>, n: nat, m: nat) {
    && n < |UpScript(schema, revisions)| && 0 < m <= |revisions|
    && UpScript(schema, revisions)[n] == Do(MetaInsert(schema, revisions[m - 1].id))
    && UpScript(schema, revisions)[..n + 1] == UpScript(schema, revisions[..m])
  }

  lemma UpScriptShifts(schema: string, revisions: seq<Revision>, m: nat)
    requires m < |revisions|
    ensures UpScript(schema, revisions[..m + 1]) == OneUp(schema, revisions[0]) + UpScript(schema, revisions[1..][..m])
  {
    assert revisions[..m + 1][1..] == revisions[1..][..m];
  }

  /** An up script can stop only inside the statements of a revision or at its row, and the
      list then holds exactly the revisions before that point. */
  lemma {:induction false} UpStopsInside(schema: string, ids: seq<string>, revisions: seq<Revision>, n: nat)
    returns (m: nat)
    requires n < |UpScript(schema, revisions)| && UpScript(schema, revisions)[n].Do?
    ensures InRevision(schema, revisions, n, m) || AtRow(schema, revisions, n, m)
    ensures Marked(ids, UpScript(schema, revisions)[..n]) == ids + Ids(revisions[..m])
    decreases |revisions|
  {
    var head := OneUp(schema, revisions[0]);
    if n < |Statements(revisions[0].upSql)| {
      m := 0;
      StopsInFirst(schema, ids, revisions, n);
    } else if n < |head| {
      m := 1;
      StopsAtRow(schema, ids, revisions, n);
    } else {
      assert UpScript(schema, revisions) == head + UpScript(schema, revisions[1..]);
      var m1 := UpStopsInside(schema, ids + [revisions[0].id], revisions[1..], n - |head|);
      m := m1 + 1;
      if InRevision(schema, revisions[1..], n - |head|, m1) {
        InLaterRevision(schema, revisions, n, m1);
      } else {
        AtLaterRow(schema, revisions, n, m1);
      }
      MarksShift(schema, ids, revisions, n, m1);
    }
  }

  lemma MarksShift(schema: string, ids: seq<string>, revisions: seq<Revision>, n: nat, m: nat)
    requires revisions != [] && |OneUp(schema, revisions[0])| <= n <= |UpScript(schema, revisions)| && m < |revisions|
    requires Marked(ids + [revisions[0].id], UpScript(schema, revisions[1..])[..n - |OneUp(schema, revisions[0])|])
          == ids + [revisions[0].id] + Ids(revisions[1..][..m])
    ensures Marked(ids, UpScript(schema, revisions)[..n]) == ids + Ids(revisions[..m + 1])
  {
    var r := revisions[0];
    PrefixMarks(ids, OneUp(schema, r), UpScript(schema, revisions[1..]), n);
    OneUpMarks(ids, schema, r);
    IdsAfterFirst(revisions, m);
    Slices.Associative(ids, [r.id], Ids(revisions[1..][..m]));
  }

  lemma PrefixMarks(ids: seq<string>, head: seq<Action>, rest: seq<Action>, n: nat)
    requires |head| <= n <= |head| + |rest|
    ensures Marked(ids, (head + rest)[..n]) == Marked(Marked(ids, head), rest[..n - |head|])
  {
    assert (head + rest)[..n] == head + rest[..n - |head|];
    MarkedAppends(ids, head, rest[..n - |head|]);
  }

  lemma StopsInFirst(schema: string, ids: seq<string>, revisions: seq<Revision>, n: nat)
    requires revisions != [] && n < |Statements(revisions[0].upSql)|
    ensures InRevision(schema, revisions, n, 0)
    ensures Marked(ids, UpScript(schema, revisions)[..n]) == ids + Ids(revisions[..0])
  {
    var script, texts := UpScript(schema, revisions), Dos(Statements(revisions[0].upSql));
    var rest := RecordScript(schema, revisions[0].id) + UpScript(schema, revisions[1..]);
    assert script == texts + rest;
    assert revisions[..0] == [];
    LiesInFirst(texts, rest, n);
    StatementsMarkNothing(ids, script[..n]);
    assert ids + Ids(revisions[..0]) == ids;
  }

  lemma StopsAtRow(schema: string, ids: seq<string>, revisions: seq<Revision>, n: nat)
    requires revisions != [] && n < |UpScript(schema, revisions)| && UpScript(schema, revisions)[n].Do?
    requires |Dos(Statements(revisions[0].upSql))| <= n < |OneUp(schema, revisions[0])|
    ensures AtRow(schema, revisions, n, 1)
    ensures Marked(ids, UpScript(schema, revisions)[..n]) == ids + Ids(revisions[..1])
  {
    var r, script := revisions[0], UpScript(schema, revisions);
    var texts := Dos(Statements(r.upSql));
    var head := OneUp(schema, r);
    assert script == head + UpScript(schema, revisions[1..]);
    assert head[|texts|] == Mark(r.id);
    assert script[..n] == texts + [Mark(r.id)];
    MarkedAppends(ids, texts, [Mark(r.id)]);
    StatementsMarkNothing(ids, texts);
    assert [Mark(r.id)][1..] == [];
    UpScriptShifts(schema, revisions, 0);
    assert UpScript(schema, revisions[1..][..0]) == [];
    assert head + [] == head;
    assert Ids(revisions[..1]) == [r.id];
  }

  lemma InLaterRevision(schema: string, revisions: seq<Revision>, n: nat, m: nat)
    requires revisions != [] && n >= |OneUp(schema, revisions[0])|
    requires InRevision(schema, revisions[1..], n - |OneUp(schema, revisions[0])|, m)
    ensures InRevision(schema, revisions, n, m + 1)
  {
    var head, rest := OneUp(schema, revisions[0]), UpScript(schema, revisions[1..]);
    UpScriptShifts(schema, revisions, m);
    LiesInShifts(head, rest, n - |head|, UpScript(schema, revisions[1..][..m]), Dos(Statements(revisions[m + 1].upSql)));
  }

  lemma AtLaterRow(schema: string, revisions: seq<Revision>, n: nat, m: nat)
    requires revisions != [] && n >= |OneUp(schema, revisions[0])|
    requires AtRow(schema, revisions[1..], n - |OneUp(schema, revisions[0])|, m)
    ensures AtRow(schema, revisions, n, m + 1)
  {
    var head, rest := OneUp(schema, revisions[0]), UpScript(schema, revisions[1..]);
    UpScriptShifts(schema, revisions, m);
    Slices.TakeOfAppend(head, rest, n + 1);
    assert revisions[1..][m - 1] == revisions[m];
  }

  // ----- one run over many schemas -----

  /** The schema's pending revisions all ran and were recorded, as if it were alone. */
  ghost predicate Migrated(revisions: seq<Revision>, before: State, after: State, s: string) {
    && Applied(after, s) == Full(revisions, Applied(before, s))
    && OnSchema(after.trace, s) ==
       OnSchema(before.trace, s) + TraceOf(s, MigrateScript(s, Pending(revisions, Applied(before, s))))
  }

  ghost predicate Untouched(before: State, after: State, s: string) {
    Applied(after, s) == Applied(before, s) && OnSchema(after.trace, s) == OnSchema(before.trace, s)
  }

  /** The schema's script stopped at its n-th action, a statement that the executor failed. */
  ghost predicate Interrupted(revisions: seq<Revision>, before: State, after: State, s: string, n: nat) {
    var script := MigrateScript(s, Pending(revisions, Applied(before, s)));
    && n < |script| && script[n].Do?
    && Applied(after, s) == Marked(Applied(before, s), script[..n])
    && OnSchema(after.trace, s) == OnSchema(before.trace, s) + TraceOf(s, script[..n])
  }

  lemma {:induction false} UpHasNoRefusal(schema: string, revisions: seq<Revision>)
    ensures forall i | 0 <= i < |UpScript(schema, revisions)| :: !UpScript(schema, revisions)[i].Refuse?
    decreases |revisions|
  {
    if revisions != [] {
      UpHasNoRefusal(schema, revisions[1..]);
      assert UpScript(schema, revisions) == OneUp(schema, revisions[0]) + UpScript(schema, revisions[1..]);
    }
  }

  /** The first schema of a run: migrated, interrupted or with nothing to do, and no other
      schema is touched meanwhile. */
  lemma FirstSchema(faults: Faults, revisions: seq<Revision>, st: State, h: string)
    requires Pending(revisions, Applied(st, h)) != []
    ensures var script := MigrateScript(h, Pending(revisions, Applied(st, h)));
            var (st1, n) := RunScript(faults, st.(active := h), h, script);
            && (n == |script| ==> Migrated(revisions, st, st1, h))
            && (n < |script| ==> Interrupted(revisions, st, st1, h, n))
            && OthersUntouched(st, st1, [h])
  {
    var pending := Pending(revisions, Applied(st, h));
    var script, st0 := MigrateScript(h, pending), st.(active := h);
    var (st1, n) := RunScript(faults, st0, h, script);
    ScriptMarks(faults, st0, h, script);
    ScriptOnSchema(faults, st0, h, script, h);
    MigrateMarks(Applied(st, h), h, pending);
    UpHasNoRefusal(h, pending);
    assert script[..|script|] == script;
    forall s | s != h
      ensures Untouched(st, st1, s)
    {
      ScriptOnSchema(faults, st0, h, script, s);
    }
  }

  lemma NothingToDo(revisions: seq<Revision>, st: State, s: string)
    requires Pending(revisions, Applied(st, s)) == []
    ensures Migrated(revisions, st, st, s)
  {
    assert Applied(st, s) + [] == Applied(st, s);
    assert OnSchema(st.trace, s) + [] == OnSchema(st.trace, s);
  }

  /** Once migrated, a schema stays as it is through a later visit. */
  lemma MigratedTwice(revisions: seq<Revision>, a: State, b: State, c: State, s: string)
    requires Migrated(revisions, a, b, s) && (Migrated(revisions, b, c, s) || Untouched(b, c, s))
    ensures Migrated(revisions, a, c, s)
  {
    FullHasNothingPending(revisions, Applied(a, s));
    assert Applied(b, s) + [] == Applied(b, s);
    assert OnSchema(b.trace, s) + [] == OnSchema(b.trace, s);
  }

  ghost predicate AllMigrated(revisions: seq<Revision>, before: State, after: State, schemas: seq<string>) {
    forall s | s in schemas :: Migrated(revisions, before, after, s)
  }

  ghost predicate OthersUntouched(before: State, after: State, schemas: seq<string>) {
    forall s | s !in schemas :: Untouched(before, after, s)
  }

  /** A run that did not get past this schema: its name was refused, or its script was
      interrupted at the n-th action. */
  ghost predicate StoppedIn(revisions: seq<Revision>, st: State, m: Migration, s: string, n: nat) {
    if SafeSchemaName(s) then m.result == Err(ExecutionFailed) && Interrupted(revisions, st, m.st, s, n)
    else m.result == Err(UnsafeSchemaName) && Untouched(st, m.st, s)
  }

  /** Where a run over many schemas stands when it returns or raises: the first k schemas
      are fully migrated, schema k was refused or interrupted at its n-th action, and no
      other schema has been touched. */
  ghost predicate StopsAt(revisions: seq<Revision>, st: State, schemas: seq<string>, m: Migration, k: nat, n: nat) {
    && k <= |schemas|
    && (m.result.Ok? <==> k == |schemas|)
    && AllMigrated(revisions, st, m.st, schemas[..k])
    && OthersUntouched(st, m.st, if k < |schemas| then schemas[..k + 1] else schemas)
    && (k < |schemas| ==> schemas[k] !in schemas[..k] && StoppedIn(revisions, st, m, schemas[k], n))
  }

  lemma {:induction false} MigrateAllStops(faults: Faults, revisions: seq<Revision>, st: State, schemas: seq<string>)
    returns (k: nat, n: nat)
    ensures StopsAt(revisions, st, schemas, MigrateAll(faults, revisions, st, schemas), k, n)
    decreases |schemas|
  {
    k, n := 0, 0;
    if schemas != [] {
      var first := MigrateOne(faults, revisions, st, schemas[0]);
      n := OneSchema(faults, revisions, st, schemas[0]);
      if first.result.Ok? {
        k, n := MigrateAllStops(faults, revisions, first.st, schemas[1..]);
        StopsOneLater(revisions, st, first.st, schemas, MigrateAll(faults, revisions, first.st, schemas[1..]), k, n,
                      MigrateAll(faults, revisions, st, schemas));
        k := k + 1;
      } else {
        StopsAtFirst(revisions, st, schemas, first, n);
      }
    }
  }

  /** One schema of a run is migrated, or is where it stops. */
  lemma OneSchema(faults: Faults, revisions: seq<Revision>, st: State, h: string) returns (n: nat)
    ensures var first := MigrateOne(faults, revisions, st, h);
            && OthersUntouched(st, first.st, [h])
            && (first.result.Ok? ==> SafeSchemaName(h) && Migrated(revisions, st, first.st, h))
            && (first.result.Err? ==> StoppedIn(revisions, st, first, h, n))
  {
    n := 0;
    if SafeSchemaName(h) {
      var pending := Pending(revisions, Applied(st, h));
      if pending == [] {
        NothingToDo(revisions, st, h);
      } else {
        FirstSchema(faults, revisions, st, h);
        n := RunScript(faults, st.(active := h), h, MigrateScript(h, pending)).1;
      }
    }
  }

  lemma StopsAtFirst(revisions: seq<Revision>, st: State, schemas: seq<string>, m: Migration, n: nat)
    requires schemas != [] && m.result.Err?
    requires OthersUntouched(st, m.st, [schemas[0]]) && StoppedIn(revisions, st, m, schemas[0], n)
    ensures StopsAt(revisions, st, schemas, m, 0, n)
  {
    assert schemas[..1] == [schemas[0]] && schemas[..0] == [];
  }

  /** What a run that stops there has done to one schema. */
  lemma FateOf(revisions: seq<Revision>, st: State, schemas: seq<string>, m: Migration, k: nat, n: nat, s: string)
    requires StopsAt(revisions, st, schemas, m, k, n)
    ensures s in schemas[..k] ==> Migrated(revisions, st, m.st, s) && !(k < |schemas| && schemas[k] == s)
    ensures k < |schemas| && schemas[k] == s ==> StoppedIn(revisions, st, m, s, n)
    ensures s !in schemas[..k] && !(k < |schemas| && schemas[k] == s) ==> Untouched(st, m.st, s)
  {
    if k < |schemas| {
      assert schemas[..k + 1] == schemas[..k] + [schemas[k]];
    } else {
      assert schemas[..k] == schemas;
    }
  }

  /** A later part of a run, seen from before its first schema. */
  lemma MigratedLater(revisions: seq<Revision>, st: State, mid: State, after: State, h: string, rest: seq<string>)
    requires Migrated(revisions, st, mid, h) && OthersUntouched(st, mid, [h])
    requires AllMigrated(revisions, mid, after, rest) && (h !in rest ==> Untouched(mid, after, h))
    ensures AllMigrated(revisions, st, after, [h] + rest)
  {
    forall s | s in [h] + rest
      ensures Migrated(revisions, st, after, s)
    {
      if s == h {
        MigratedTwice(revisions, st, mid, after, h);
      } else {
        assert Untouched(st, mid, s);
      }
    }
  }

  lemma UntouchedLater(st: State, mid: State, after: State, h: string, rest: seq<string>)
    requires OthersUntouched(st, mid, [h]) && OthersUntouched(mid, after, rest)
    ensures OthersUntouched(st, after, [h] + rest)
  {
    forall s | s !in [h] + rest
      ensures Untouched(st, after, s)
    {
      assert Untouched(st, mid, s) && Untouched(mid, after, s);
    }
  }

  lemma StoppedLater(revisions: seq<Revision>, st: State, mid: State, m: Migration, s: string, n: nat)
    requires Untouched(st, mid, s) && StoppedIn(revisions, mid, m, s, n)
    ensures StoppedIn(revisions, st, m, s, n)
  {
  }

  /** A schema with nothing pending cannot be where a run stops. */
  lemma StopsElsewhere(revisions: seq<Revision>, st: State, mid: State, m: Migration, h: string, s: string, n: nat)
    requires SafeSchemaName(h) && Migrated(revisions, st, mid, h) && StoppedIn(revisions, mid, m, s, n)
    ensures s != h
  {
    FullHasNothingPending(revisions, Applied(st, h));
    assert MigrateScript(h, Pending(revisions, Applied(mid, h))) == [];
  }

  lemma StopsOneLater(
    revisions: seq<Revision>, st: State, mid: State, schemas: seq<string>, m: Migration, k: nat, n: nat, r: Migration)
    requires r.st == m.st && (r.result == m.result || (r.result.Ok? && m.result.Ok?))
    requires schemas != [] && SafeSchemaName(schemas[0])
    requires Migrated(revisions, st, mid, schemas[0]) && OthersUntouched(st, mid, [schemas[0]])
    requires StopsAt(revisions, mid, schemas[1..], m, k, n)
    ensures StopsAt(revisions, st, schemas, r, k + 1, n)
  {
    var h, rest := schemas[0], schemas[1..];
    Slices.TakeFromHead(schemas, k);
    if k < |rest| {
      Slices.TakeFromHead(schemas, k + 1);
      StopsElsewhere(revisions, st, mid, m, h, rest[k], n);
      assert Untouched(st, mid, rest[k]);
      StoppedLater(revisions, st, mid, m, rest[k], n);
      UntouchedLater(st, mid, m.st, h, rest[..k + 1]);
    } else {
      Slices.WholeFromHead(schemas);
      UntouchedLater(st, mid, m.st, h, rest);
    }
    MigratedLater(revisions, st, mid, m.st, h, rest[..k]);
  }

  /** A completed run leaves every named schema as if it had been migrated alone, with
      nothing pending, and every other schema alone; running again executes nothing. */
  lemma MigrateAllCompletes(
    faults: Faults, revisions: seq<Revision>, st: State, schemas: seq<string>, later: Faults)
    requires MigrateAll(faults, revisions, st, schemas).result.Ok?
    ensures var done := MigrateAll(faults, revisions, st, schemas).st;
            && (forall s | s in schemas :: Migrated(revisions, st, done, s) && Pending(revisions, Applied(done, s)) == [])
            && (forall s | s !in schemas :: Untouched(st, done, s))
            && MigrateAll(later, revisions, done, schemas) == Migration(done, Ok(0))
  {
    var done := MigrateAll(faults, revisions, st, schemas).st;
    var k, n := MigrateAllStops(faults, revisions, st, schemas);
    assert schemas[..k] == schemas;
    forall s | s in schemas
      ensures Pending(revisions, Applied(done, s)) == []
    {
      assert Migrated(revisions, st, done, s);
      FullHasNothingPending(revisions, Applied(st, s));
    }
    AllSafe(faults, revisions, st, schemas);
    NothingLeftToRun(later, revisions, done, schemas);
  }

  lemma {:induction false} AllSafe(faults: Faults, revisions: seq<Revision>, st: State, schemas: seq<string>)
    requires MigrateAll(faults, revisions, st, schemas).result.Ok?
    ensures forall s | s in schemas :: SafeSchemaName(s)
    decreases |schemas|
  {
    if schemas != [] {
      var h := schemas[0];
      var pending := Pending(revisions, Applied(st, h));
      AllSafe(faults, revisions,
              if pending == [] then st else RunScript(faults, st.(active := h), h, MigrateScript(h, pending)).0, schemas[1..]);
      assert schemas == [h] + schemas[1..];
    }
  }

  lemma {:induction false} NothingLeftToRun(faults: Faults, revisions: seq<Revision>, st: State, schemas: seq<string>)
    requires forall s | s in schemas :: SafeSchemaName(s) && Pending(revisions, Applied(st, s)) == []
    ensures MigrateAll(faults, revisions, st, schemas) == Migration(st, Ok(0))
    decreases |schemas|
  {
    if schemas != [] {
      NothingLeftToRun(faults, revisions, st, schemas[1..]);
    }
  }

  // ----- one more schema -----

  /** A run over schemas with any visit. */
  function Runs(visit: (State, string) -> Migration, st: State, schemas: seq<string>): Migration
    decreases |schemas|
  {
    if schemas == [] then Migration(st, Ok(0))
    else
      var first := visit(st, schemas[0]);
      match first.result
      case Err(_) => first
      case Ok(n) => Counted(Runs(visit, first.st, schemas[1..]), n)
  }

  function VisitOf(f: Faults, revisions: seq<Revision>): (State, string) -> Migration {
    (st, schema) => MigrateOne(f, revisions, st, schema)
  }

  lemma {:induction false} MigrateAllRuns(f: Faults, revisions: seq<Revision>, st: State, schemas: seq<string>)
    ensures MigrateAll(f, revisions, st, schemas) == Runs(VisitOf(f, revisions), st, schemas)
    decreases |schemas|
  {
    if schemas != [] {
      MigrateAllRuns(f, revisions, MigrateOne(f, revisions, st, schemas[0]).st, schemas[1..]);
    }
  }

  /** One more schema at the end of a run that got there. */
  lemma {:induction false} OneMoreVisit(
    visit: (State, string) -> Migration, from: State, visited: seq<string>, schema: string, st: State, count: nat)
    requires Runs(visit, from, visited) == Migration(st, Ok(count))
    ensures Runs(visit, from, visited + [schema]) == Counted(visit(st, schema), count)
    decreases |visited|
  {
    if visited == [] {
      assert visited + [schema] == [schema] && [schema][1..] == [];
    } else {
      var first := visit(from, visited[0]);
      assert (visited + [schema])[1..] == visited[1..] + [schema];
      OneMoreVisit(visit, first.st, visited[1..], schema, st, count - first.result.value);
    }
  }

  lemma OneMoreSchema(
    f: Faults, revisions: seq<Revision>, from: State, visited: seq<string>, schema: string, st: State, count: nat)
    requires MigrateAll(f, revisions, from, visited) == Migration(st, Ok(count))
    ensures MigrateAll(f, revisions, from, visited + [schema]) == Counted(MigrateOne(f, revisions, st, schema), count)
  {
    MigrateAllRuns(f, revisions, from, visited);
    MigrateAllRuns(f, revisions, from, visited + [schema]);
    OneMoreVisit(VisitOf(f, revisions), from, visited, schema, st, count);
  }

  /** A run that raised does not depend on the schemas it did not reach. */
  lemma {:induction false} RaisesEarly(
    f: Faults, revisions: seq<Revision>, from: State, visited: seq<string>, later: seq<string>)
    requires MigrateAll(f, revisions, from, visited).result.Err?
    ensures MigrateAll(f, revisions, from, visited + later) == MigrateAll(f, revisions, from, visited)
    decreases |visited|
  {
    var first := MigrateOne(f, revisions, from, visited[0]);
    assert (visited + later)[1..] == visited[1..] + later;
    if first.result.Ok? {
      RaisesEarly(f, revisions, first.st, visited[1..], later);
    }
  }

  /** The revisions that are pending over all these schemas but the ones seen, each schema
      counted once. */
  function PendingTotal(revisions: seq<Revision>, st: State, schemas: seq<string>, seen: set<string> := {}): nat
    decreases |schemas|
  {
    if schemas == [] then 0
    else
      var h, rest := schemas[0], PendingTotal(revisions, st, schemas[1..], seen + {schemas[0]});
      if h in seen then rest else |Pending(revisions, Applied(st, h))| + rest
  }

  /** Once a schema has nothing pending it counts like one that was seen. */
  lemma {:induction false} SeenLikeMigrated(
    revisions: seq<Revision>, a: State, b: State, h: string, schemas: seq<string>, seen: set<string>)
    requires Pending(revisions, Applied(b, h)) == [] && OthersUntouched(a, b, [h])
    ensures PendingTotal(revisions, b, schemas, seen) == PendingTotal(revisions, a, schemas, {h} + seen)
    decreases |schemas|
  {
    if schemas != [] {
      var s := schemas[0];
      assert ({h} + seen) + {s} == {h} + (seen + {s});
      SeenLikeMigrated(revisions, a, b, h, schemas[1..], seen + {s});
      assert s != h ==> Untouched(a, b, s);
    }
  }

  lemma VisitCounts(faults: Faults, revisions: seq<Revision>, st: State, h: string)
    requires MigrateOne(faults, revisions, st, h).result.Ok?
    ensures var first := MigrateOne(faults, revisions, st, h);
            && first.result.value == |Pending(revisions, Applied(st, h))|
            && Pending(revisions, Applied(first.st, h)) == [] && OthersUntouched(st, first.st, [h])
  {
    if Pending(revisions, Applied(st, h)) != [] {
      FirstSchema(faults, revisions, st, h);
      FullHasNothingPending(revisions, Applied(st, h));
    }
  }

  /** The returned count is the number of revisions that were pending, all of them recorded,
      whatever schemas are named and however often. */
  lemma {:induction false} MigrateAllCounts(faults: Faults, revisions: seq<Revision>, st: State, schemas: seq<string>)
    requires MigrateAll(faults, revisions, st, schemas).result.Ok?
    ensures MigrateAll(faults, revisions, st, schemas).result.value == PendingTotal(revisions, st, schemas)
    decreases |schemas|
  {
    if schemas != [] {
      var h, first := schemas[0], MigrateOne(faults, revisions, st, schemas[0]);
      VisitCounts(faults, revisions, st, h);
      MigrateAllCounts(faults, revisions, first.st, schemas[1..]);
      SeenLikeMigrated(revisions, st, first.st, h, schemas[1..], {});
      assert {h} + {} == {} + {h};
    }
  }

  /** With an executor that never fails, a run completes exactly when every name is safe. */
  lemma MigrateAllCompletesExactly(
    faults: Faults, revisions: seq<Revision>, st: State, schemas: seq<string>)
    requires Faultless(faults)
    ensures MigrateAll(faults, revisions, st, schemas).result.Ok? <==> forall s | s in schemas :: SafeSchemaName(s)
  {
    var m := MigrateAll(faults, revisions, st, schemas);
    if m.result.Ok? {
      AllSafe(faults, revisions, st, schemas);
    } else if forall s | s in schemas :: SafeSchemaName(s) {
      NoFailure(faults, revisions, st, schemas);
      assert false;
    }
  }

  lemma {:induction false} NoFailure(faults: Faults, revisions: seq<Revision>, st: State, schemas: seq<string>)
    requires Faultless(faults) && forall s | s in schemas :: SafeSchemaName(s)
    ensures MigrateAll(faults, revisions, st, schemas).result.Ok?
    decreases |schemas|
  {
    if schemas != [] {
      var h := schemas[0];
      var pending := Pending(revisions, Applied(st, h));
      if pending == [] {
        NoFailure(faults, revisions, st, schemas[1..]);
      } else {
        var script := MigrateScript(h, pending);
        UpHasNoRefusal(h, pending);
        FaultlessScriptCompletes(faults, st.(active := h), h, script);
        NoFailure(faults, revisions, RunScript(faults, st.(active := h), h, script).0, schemas[1..]);
      }
    }
  }

  /** Pending are the revisions that the list does not name, in their order. */
  lemma {:induction false} PendingExactly(revisions: seq<Revision>, applied: seq<string>, r: Revision)
    ensures r in Pending(revisions, applied) <==> r in revisions && r.id !in applied
    ensures forall more :: Pending(revisions + more, applied) == Pending(revisions, applied) + Pending(more, applied)
    decreases |revisions|
  {
    forall more
      ensures Pending(revisions + more, applied) == Pending(revisions, applied) + Pending(more, applied)
    {
      PendingAppends(revisions, more, applied);
    }
    if revisions != [] {
      PendingExactly(revisions[1..], applied, r);
    }
  }

  lemma {:induction false} PendingAppends(a: seq<Revision>, b: seq<Revision>, applied: seq<string>)
    ensures Pending(a + b, applied) == Pending(a, applied) + Pending(b, applied)
    decreases |a|
  {
    if a == [] {
      assert a + b == b;
    } else {
      assert (a + b)[1..] == a[1..] + b;
      PendingAppends(a[1..], b, applied);
      Slices.Associative([a[0]], Pending(a[1..], applied), Pending(b, applied));
    }
  }

  // ----- what an executor failure leaves -----

  /** Action n of a migration is its bookkeeping DDL, or lies in an up script as above. */
  ghost predicate StopsInside(schema: string, pending: seq<Revision>, n: nat, m: nat) {
    if n == 0 then m == 0 else InRevision(schema, pending, n - 1, m) || AtRow(schema, pending, n - 1, m)
  }

  lemma MigrationStopsInside(schema: string, ids: seq<string>, pending: seq<Revision>, n: nat)
    returns (m: nat)
    requires n < |MigrateScript(schema, pending)| && MigrateScript(schema, pending)[n].Do?
    ensures m <= |pending| && StopsInside(schema, pending, n, m)
    ensures Marked(ids, MigrateScript(schema, pending)[..n]) == ids + Ids(pending[..m])
  {
    if n == 0 {
      m := 0;
      NothingRecorded(ids, pending, MigrateScript(schema, pending));
    } else {
      m := StopsAfterDdl(schema, ids, pending, n);
    }
  }

  lemma StopsAfterDdl(schema: string, ids: seq<string>, pending: seq<Revision>, n: nat)
    returns (m: nat)
    requires 0 < n < |MigrateScript(schema, pending)| && MigrateScript(schema, pending)[n].Do?
    ensures m <= |pending| && (InRevision(schema, pending, n - 1, m) || AtRow(schema, pending, n - 1, m))
    ensures Marked(ids, MigrateScript(schema, pending)[..n]) == ids + Ids(pending[..m])
  {
    AfterDdl(schema, pending, n);
    m := UpStopsInside(schema, ids, pending, n - 1);
    MarksAfterDdl(schema, ids, pending, n);
  }

  lemma AfterDdl(schema: string, pending: seq<Revision>, n: nat)
    requires 0 < n < |MigrateScript(schema, pending)|
    ensures pending != [] && n - 1 < |UpScript(schema, pending)|
    ensures MigrateScript(schema, pending)[n] == UpScript(schema, pending)[n - 1]
  {
  }

  lemma NothingRecorded(ids: seq<string>, pending: seq<Revision>, script: seq<Action>)
    ensures Marked(ids, script[..0]) == ids + Ids(pending[..0])
  {
    assert script[..0] == [] && ids + Ids(pending[..0]) == ids;
  }

  lemma MarksAfterDdl(schema: string, ids: seq<string>, pending: seq<Revision>, n: nat)
    requires pending != [] && 0 < n <= |MigrateScript(schema, pending)|
    ensures Marked(ids, MigrateScript(schema, pending)[..n]) == Marked(ids, UpScript(schema, pending)[..n - 1])
  {
    PrefixMarks(ids, [Do(MetaDdl(schema))], UpScript(schema, pending), n);
    StatementsMarkNothing(ids, [Do(MetaDdl(schema))]);
  }

  /** The failing schema k: its list is the old one and the first m pending revisions. All
      statements of those ran. What failed is a statement of revision m, the first of all
      (the bookkeeping table), or the row of revision m - 1. */
  lemma FailureKeepsAPrefix(faults: Faults, revisions: seq<Revision>, st: State, schemas: seq<string>)
    returns (k: nat, n: nat, m: nat)
    requires MigrateAll(faults, revisions, st, schemas).result == Err(ExecutionFailed)
    ensures StopsAt(revisions, st, schemas, MigrateAll(faults, revisions, st, schemas), k, n) && k < |schemas|
    ensures var s := schemas[k];
            var pending := Pending(revisions, Applied(st, s));
            && m <= |pending|
            && Applied(MigrateAll(faults, revisions, st, schemas).st, s) == Applied(st, s) + Ids(pending[..m])
            && StopsInside(s, pending, n, m)
  {
    k, n := MigrateAllStops(faults, revisions, st, schemas);
    m := MigrationStopsInside(schemas[k], Applied(st, schemas[k]), Pending(revisions, Applied(st, schemas[k])), n);
  }

  lemma {:induction false} UpInsertsOnlyPending(schema: string, revisions: seq<Revision>, id: string)
    requires forall i | 0 <= i < |revisions| :: revisions[i].id != id
    ensures Do(MetaInsert(schema, id)) !in UpScript(schema, revisions)
    decreases |revisions|
  {
    if revisions != [] {
      UpInsertsOnlyPending(schema, revisions[1..], id);
      assert UpScript(schema, revisions) == OneUp(schema, revisions[0]) + UpScript(schema, revisions[1..]);
      assert Do(MetaInsert(schema, id)) !in Dos(Statements(revisions[0].upSql));
    }
  }

  lemma {:induction false} PendingIsNotApplied(revisions: seq<Revision>, applied: seq<string>)
    ensures forall i | 0 <= i < |Pending(revisions, applied)| :: Pending(revisions, applied)[i].id !in applied
    decreases |revisions|
  {
    if revisions != [] {
      PendingIsNotApplied(revisions[1..], applied);
    }
  }

  /** A revision in the list is never run or inserted again: after a failed row, the table
      lacks that row through every later migration. */
  lemma RecordedIsNeverInserted(revisions: seq<Revision>, applied: seq<string>, schema: string, id: string)
    requires id in applied
    ensures Do(MetaInsert(schema, id)) !in MigrateScript(schema, Pending(revisions, applied))
  {
    PendingIsNotApplied(revisions, applied);
    UpInsertsOnlyPending(schema, Pending(revisions, applied), id);
  }

  // ----- creation -----

  lemma {:induction false} TraceOfStatements(schema: string, script: seq<Action>)
    requires forall i | 0 <= i < |script| :: script[i].Do?
    ensures |TraceOf(schema, script)| == |script|
    ensures forall i | 0 <= i < |script| :: TraceOf(schema, script)[i] == Exec(schema, script[i].stmt)
    decreases |script|
  {
    if script != [] {
      TraceOfStatements(schema, script[1..]);
    }
  }

  /** The executed statements are CREATE SCHEMA and then the first of these texts, in order. */
  ghost predicate Creates(schema: string, texts: seq<string>, done: seq<Exec>) {
    && |done| <= |texts| + 1
    && forall i | 0 <= i < |done| :: done[i] == Exec(schema, if i == 0 then CreateSchema(schema) else Sql(texts[i - 1]))
  }

  /** What the creation of a schema executes, and what it records: the template exactly when
      all statements ran. */
  lemma CreationExecutes(faults: Faults, templateSql: string, st: State, schema: string) returns (done: seq<Exec>)
    ensures var (st1, error) := CreateTenantSchema(faults, templateSql, st, schema);
            && (error == Some(UnsafeSchemaName) <==> !SafeSchemaName(schema))
            && (error == Some(NoTemplate) <==> SafeSchemaName(schema) && templateSql == "")
            && (error in {Some(UnsafeSchemaName), Some(NoTemplate)} ==> st1 == st)
    ensures SafeSchemaName(schema) && templateSql != "" ==>
              var (st1, error) := CreateTenantSchema(faults, templateSql, st, schema);
              var texts := Statements(templateSql);
              && Creates(schema, texts, done) && OnSchema(st1.trace, schema) == OnSchema(st.trace, schema) + done
              && error == (if |done| == |texts| + 1 then None else Some(ExecutionFailed))
              && Applied(st1, schema) == Applied(st, schema) + (if error == None then [TEMPLATE] else [])
              && forall s | s != schema :: Untouched(st, st1, s)
  {
    done := [];
    if SafeSchemaName(schema) && templateSql != "" {
      done := CreationTrace(faults, Statements(templateSql), st.(active := schema), schema);
      var script := CreateScript(schema, templateSql);
      assert script == [Do(CreateSchema(schema))] + Dos(Statements(templateSql)) + [Mark(TEMPLATE)];
      forall s | s != schema
        ensures Untouched(st, RunScript(faults, st.(active := schema), schema, script).0, s)
      {
        ScriptOnSchema(faults, st.(active := schema), schema, script, s);
        ScriptMarks(faults, st.(active := schema), schema, script);
        assert OnSchema(st.trace, s) + [] == OnSchema(st.trace, s);
      }
    }
  }

  lemma CreationTrace(faults: Faults, texts: seq<string>, st: State, schema: string) returns (done: seq<Exec>)
    requires st.active == schema
    ensures var script := [Do(CreateSchema(schema))] + Dos(texts) + [Mark(TEMPLATE)];
            var (st1, n) := RunScript(faults, st, schema, script);
            && Creates(schema, texts, done) && OnSchema(st1.trace, schema) == OnSchema(st.trace, schema) + done
            && (n == |script| <==> |done| == |texts| + 1)
            && Applied(st1, schema) == Applied(st, schema) + (if n == |script| then [TEMPLATE] else [])
  {
    var front := [Do(CreateSchema(schema))] + Dos(texts);
    var script := front + [Mark(TEMPLATE)];
    var n := RunScript(faults, st, schema, script).1;
    ScriptMarks(faults, st, schema, script);
    ScriptOnSchema(faults, st, schema, script, schema);
    if n == |script| {
      assert script[..n] == script;
      TraceOfAppends(schema, front, [Mark(TEMPLATE)]);
      MarkedAppends(Applied(st, schema), front, [Mark(TEMPLATE)]);
      StatementsMarkNothing(Applied(st, schema), front);
      TraceOfStatements(schema, front);
      assert [Mark(TEMPLATE)][1..] == [];
      done := TraceOf(schema, front);
    } else {
      assert script[..n] == front[..n];
      StatementsMarkNothing(Applied(st, schema), front[..n]);
      TraceOfStatements(schema, front[..n]);
      done := TraceOf(schema, front[..n]);
    }
  }
}
