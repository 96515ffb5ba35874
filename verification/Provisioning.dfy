/** The schema provisioner: per-schema migrations and rollbacks over an executor that may
    fail at any statement.

    What an operation does to one schema is written as a script of actions; an operation
    performs its script up to the first action that fails. */
module Provisioning {
  import opened Wrappers
  import opened Text
  import Slices

  datatype Revision = Revision(id: string, upSql: string, downSql: string)

  /** A statement handed to the executor: artifact SQL as opaque text, or one of the
      bookkeeping statements. */
  datatype Stmt =
    | Sql(text: string)
    | CreateSchema(schema: string)
    | MetaDdl(schema: string)
    | MetaInsert(schema: string, revision: string)
    | MetaDelete(schema: string, revision: string)

  /** An executed statement with the active schema at that time. */
  datatype Exec = Exec(active: string, stmt: Stmt)

  datatype ProvisioningError = UnsafeSchemaName | NoTemplate | ExecutionFailed | TargetNotApplied | NoDownArtifact

  /** The bookkeeping in memory, the executed statements, and how many were attempted. */
  datatype State = State(applied: map<string, seq<string>>, active: string, trace: seq<Exec>, attempts: nat)

  /** Which attempts the executor fails. */
  type Faults = nat -> bool

  const TEMPLATE := "000_template"

  // ----- statements and names -----

  predicate IsSpace(c: char) {
    c == ' ' || c == '\t' || c == '\n' || c == '\r'
  }

  function StripLeft(s: string): string {
    if s != "" && IsSpace(s[0]) then StripLeft(s[1..]) else s
  }

  function StripRight(s: string): string {
    if s != "" && IsSpace(s[|s| - 1]) then StripRight(s[..|s| - 1]) else s
  }

  /** Splits on every semicolon, strips the pieces and drops the empty ones. */
  function Statements(sql: string, piece: string := ""): seq<string>
    decreases |sql|
  {
    if sql == "" then Stripped(piece)
    else if sql[0] == ';' then Stripped(piece) + Statements(sql[1..], "")
    else Statements(sql[1..], piece + [sql[0]])
  }

  function Stripped(piece: string): seq<string> {
    var s := StripRight(StripLeft(piece));
    if s == "" then [] else [s]
  }

  /** A text of two parts yields the statements of the first, then those of the second. */
  lemma {:induction false} StatementsOfParts(a: string, b: string, piece: string := "")
    ensures Statements(a + ";" + b, piece) == Statements(a, piece) + Statements(b)
    decreases |a|
  {
    var sql := a + ";" + b;
    if a == "" {
      assert sql[1..] == b && sql[0] == ';';
    } else {
      assert sql[0] == a[0] && sql[1..] == a[1..] + ";" + b;
      if a[0] == ';' {
        StatementsOfParts(a[1..], b, "");
        Slices.Associative(Stripped(piece), Statements(a[1..], ""), Statements(b));
      } else {
        StatementsOfParts(a[1..], b, piece + [a[0]]);
      }
    }
  }

  lemma {:induction false} StatementsWithoutSemicolon(text: string, piece: string := "")
    requires ';' !in text
    ensures Statements(text, piece) == Stripped(piece + text)
    decreases |text|
  {
    if text == "" {
      assert piece + text == piece;
    } else {
      assert text[0] in text && piece + [text[0]] + text[1..] == piece + text;
      StatementsWithoutSemicolon(text[1..], piece + [text[0]]);
    }
  }

  predicate Blank(s: string) {
    forall c | c in s :: IsSpace(c)
  }

  lemma {:induction false} StripLeftIs(s: string) returns (left: string)
    ensures s == left + StripLeft(s) && Blank(left)
    ensures StripLeft(s) != "" ==> !IsSpace(StripLeft(s)[0])
  {
    left := "";
    if s != "" && IsSpace(s[0]) {
      var rest := StripLeftIs(s[1..]);
      left := [s[0]] + rest;
      assert s == [s[0]] + s[1..];
    }
  }

  lemma {:induction false} StripRightIs(s: string) returns (right: string)
    ensures s == StripRight(s) + right && Blank(right)
    ensures var p := StripRight(s); p != "" ==> !IsSpace(p[|p| - 1]) && p[0] == s[0]
  {
    right := "";
    if s != "" && IsSpace(s[|s| - 1]) {
      var n := |s| - 1;
      var rest := StripRightIs(s[..n]);
      right := rest + [s[n]];
      assert s == s[..n] + [s[n]];
    }
  }

  /** A text without semicolons yields nothing when it is blank, and otherwise the one statement
      that is left when the blanks around it are taken away. */
  lemma OneStatementAtMost(text: string) returns (left: string, p: string, right: string)
    requires ';' !in text
    ensures text == left + p + right && Blank(left) && Blank(right)
    ensures p == "" <==> Blank(text)
    ensures p != "" ==> !IsSpace(p[0]) && !IsSpace(p[|p| - 1])
    ensures Statements(text) == if Blank(text) then [] else [p]
  {
    StatementsWithoutSemicolon(text);
    assert "" + text == text;
    left := StripLeftIs(text);
    right := StripRightIs(StripLeft(text));
    p := StripRight(StripLeft(text));
    assert p != "" ==> p[0] in text;
  }

  /** tenant_ and 32 lower-case hexadecimal digits. */
  predicate SafeSchemaName(schema: string) {
    && |schema| == 39 && schema[..7] == "tenant_"
    && forall i | 7 <= i < 39 :: '0' <= schema[i] <= '9' || 'a' <= schema[i] <= 'f'
  }

  predicate TenantKey(hex: string) {
    |hex| == 32 && forall c | c in hex :: c in "0123456789abcdef"
  }

  lemma HexDigits(c: char)
    ensures c in "0123456789abcdef" <==> '0' <= c <= '9' || 'a' <= c <= 'f'
  {
    var digits := "0123456789abcdef";
    if '0' <= c <= '9' {
      assert digits[c as int - '0' as int] == c;
    } else if 'a' <= c <= 'f' {
      assert digits[10 + c as int - 'a' as int] == c;
    }
  }

  /** The safe names are the tenant keys behind the prefix, and nothing else. */
  lemma SafeNamesExactly(schema: string)
    ensures SafeSchemaName(schema) <==> exists hex :: TenantKey(hex) && schema == "tenant_" + hex
  {
    if SafeSchemaName(schema) {
      var hex := schema[7..];
      forall c | c in hex
        ensures c in "0123456789abcdef"
      {
        HexDigits(c);
      }
      assert TenantKey(hex) && schema == "tenant_" + hex;
    }
    if hex :| TenantKey(hex) && schema == "tenant_" + hex {
      forall i | 7 <= i < 39
        ensures '0' <= schema[i] <= '9' || 'a' <= schema[i] <= 'f'
      {
        assert schema[i] == hex[i - 7];
        HexDigits(hex[i - 7]);
      }
    }
  }

  // ----- scripts -----

  datatype Action = Do(stmt: Stmt) | Mark(revision: string) | Unmark(revision: string) | Refuse

  function Applied(st: State, schema: string): seq<string> {
    if schema in st.applied then st.applied[schema] else []
  }

  function RemoveFirst(ids: seq<string>, id: string): seq<string> {
    if ids == [] then [] else if ids[0] == id then ids[1..] else [ids[0]] + RemoveFirst(ids[1..], id)
  }

  /** What a statement makes of the rows of its schema's bookkeeping table. */
  function RowsBy(rows: seq<string>, stmt: Stmt): seq<string> {
    match stmt
    case MetaInsert(_, id) => rows + [id]
    case MetaDelete(_, id) => RemoveFirst(rows, id)
    case _ => rows
  }

  /** One action on a schema; whether it succeeded. */
  function Perform(faults: Faults, st: State, schema: string, a: Action): (State, bool) {
    match a
    case Do(stmt) =>
      if faults(st.attempts) then (st.(attempts := st.attempts + 1), false)
      else (st.(trace := st.trace + [Exec(st.active, stmt)], attempts := st.attempts + 1), true)
    case Mark(id) => (st.(applied := st.applied[schema := Applied(st, schema) + [id]]), true)
    case Unmark(id) =>
      (if schema in st.applied then st.(applied := st.applied[schema := RemoveFirst(st.applied[schema], id)]) else st, true)
    case Refuse => (st, false)
  }

  /** Performs a script up to the first failure: the state, and how many actions succeeded. */
  function RunScript(faults: Faults, st: State, schema: string, script: seq<Action>): (r: (State, nat))
    ensures r.1 <= |script|
    decreases |script|
  {
    if script == [] then (st, 0)
    else
      var (st1, ok) := Perform(faults, st, schema, script[0]);
      if !ok then (st1, 0)
      else
        var (st2, n) := RunScript(faults, st1, schema, script[1..]);
        (st2, n + 1)
  }

  /** What a performed script adds to the trace. */
  function TraceOf(active: string, script: seq<Action>): seq<Exec>
    decreases |script|
  {
    if script == [] then []
    else if script[0].Do? then [Exec(active, script[0].stmt)] + TraceOf(active, script[1..])
    else TraceOf(active, script[1..])
  }

  /** What a performed action makes of the applied list. */
  function MarkedBy(ids: seq<string>, a: Action): seq<string> {
    match a
    case Mark(id) => ids + [id]
    case Unmark(id) => RemoveFirst(ids, id)
    case _ => ids
  }

  function Marked(ids: seq<string>, script: seq<Action>): seq<string>
    decreases |script|
  {
    if script == [] then ids else Marked(MarkedBy(ids, script[0]), script[1..])
  }

  lemma ActionEffect(faults: Faults, st: State, schema: string, a: Action)
    ensures var (st1, ok) := Perform(faults, st, schema, a);
            && st1.active == st.active
            && (ok ==> st1.trace == st.trace + TraceOf(st.active, [a]) && Applied(st1, schema) == MarkedBy(Applied(st, schema), a))
            && (!ok ==> (a.Do? || a.Refuse?) && st1.trace == st.trace && st1.applied == st.applied)
            && (forall s | s != schema :: Applied(st1, s) == Applied(st, s))
  {
    assert TraceOf(st.active, [a][1..]) == [];
    assert st.trace + [] == st.trace;
  }

  /** A script leaves its own schema's list as its performed part says, the other schemas
      alone, and stops only at a statement or a refusal. */
  lemma {:induction false} ScriptMarks(faults: Faults, st: State, schema: string, script: seq<Action>)
    ensures var (st1, n) := RunScript(faults, st, schema, script);
            && Applied(st1, schema) == Marked(Applied(st, schema), script[..n])
            && st1.active == st.active
            && (forall s | s != schema :: Applied(st1, s) == Applied(st, s))
            && (forall i | 0 <= i < n :: !script[i].Refuse?)
            && (n < |script| ==> script[n].Do? || script[n].Refuse?)
    decreases |script|
  {
    if script != [] {
      ActionEffect(faults, st, schema, script[0]);
      var (st1, ok) := Perform(faults, st, schema, script[0]);
      if ok {
        ScriptMarks(faults, st1, schema, script[1..]);
        var n := RunScript(faults, st1, schema, script[1..]).1;
        assert script[..n + 1][1..] == script[1..][..n];
      }
    }
  }

  /** A script executes exactly the statements of its performed part, in order. */
  lemma {:induction false} ScriptTrace(faults: Faults, st: State, schema: string, script: seq<Action>)
    ensures var (st1, n) := RunScript(faults, st, schema, script);
            st1.trace == st.trace + TraceOf(st.active, script[..n])
    decreases |script|
  {
    if script != [] {
      ActionEffect(faults, st, schema, script[0]);
      var (st1, ok) := Perform(faults, st, schema, script[0]);
      if ok {
        ScriptTrace(faults, st1, schema, script[1..]);
        var n := RunScript(faults, st1, schema, script[1..]).1;
        assert script[..n + 1][1..] == script[1..][..n];
        assert [script[0]][1..] == [];
        assert TraceOf(st.active, script[..n + 1]) == TraceOf(st.active, [script[0]]) + TraceOf(st.active, script[1..][..n]);
      } else {
        assert script[..0] == [];
      }
    }
  }

  /** Two scripts one after the other: the second runs when the first completes. */
  lemma {:induction false} RunAppends(faults: Faults, st: State, schema: string, a: seq<Action>, b: seq<Action>)
    ensures var (st1, n) := RunScript(faults, st, schema, a);
            RunScript(faults, st, schema, a + b) ==
              if n < |a| then (st1, n)
              else var (st2, m) := RunScript(faults, st1, schema, b); (st2, |a| + m)
    decreases |a|
  {
    if a == [] {
      assert a + b == b;
    } else {
      assert (a + b)[1..] == a[1..] + b;
      var (st1, ok) := Perform(faults, st, schema, a[0]);
      if ok {
        RunAppends(faults, st1, schema, a[1..], b);
      }
    }
  }

  lemma {:induction false} TraceOfAppends(active: string, a: seq<Action>, b: seq<Action>)
    ensures TraceOf(active, a + b) == TraceOf(active, a) + TraceOf(active, b)
    decreases |a|
  {
    if a == [] {
      assert a + b == b;
    } else {
      assert (a + b)[1..] == a[1..] + b;
      TraceOfAppends(active, a[1..], b);
    }
  }

  lemma {:induction false} MarkedAppends(ids: seq<string>, a: seq<Action>, b: seq<Action>)
    ensures Marked(ids, a + b) == Marked(Marked(ids, a), b)
    decreases |a|
  {
    if a == [] {
      assert a + b == b;
    } else {
      assert (a + b)[1..] == a[1..] + b;
      MarkedAppends(MarkedBy(ids, a[0]), a[1..], b);
    }
  }

  /** Action n of a script comes when `done` is complete and lies in the part `next`. */
  ghost predicate LiesIn(script: seq<Action>, n: nat, done: seq<Action>, next: seq<Action>) {
    && n < |script| && |done| <= n < |done| + |next|
    && script[..n + 1] == done + next[..n + 1 - |done|]
  }

  lemma LiesInShifts(head: seq<Action>, rest: seq<Action>, n: nat, done: seq<Action>, next: seq<Action>)
    requires LiesIn(rest, n, done, next)
    ensures LiesIn(head + rest, |head| + n, head + done, next)
  {
    var k := |head| + n + 1 - |head + done|;
    assert (head + rest)[..|head| + n + 1] == head + rest[..n + 1];
    assert head + (done + next[..k]) == head + done + next[..k];
  }

  lemma LiesInFirst(head: seq<Action>, rest: seq<Action>, n: nat)
    requires n < |head|
    ensures LiesIn(head + rest, n, [], head)
  {
    assert (head + rest)[..n + 1] == head[..n + 1];
    assert [] + head[..n + 1] == head[..n + 1];
  }

  ghost predicate Faultless(faults: Faults) {
    forall i :: !faults(i)
  }

  /** An executor without faults completes every script without a refusal. */
  lemma {:induction false} FaultlessScriptCompletes(faults: Faults, st: State, schema: string, script: seq<Action>)
    requires Faultless(faults) && forall i | 0 <= i < |script| :: !script[i].Refuse?
    ensures RunScript(faults, st, schema, script).1 == |script|
    decreases |script|
  {
    if script != [] {
      FaultlessScriptCompletes(faults, Perform(faults, st, schema, script[0]).0, schema, script[1..]);
    }
  }

  function Dos(texts: seq<string>): (script: seq<Action>)
    ensures |script| == |texts| && forall i | 0 <= i < |script| :: script[i] == Do(Sql(texts[i]))
  {
    seq(|texts|, i requires 0 <= i < |texts| => Do(Sql(texts[i])))
  }

  /** _record: the list is extended before the row is inserted. */
  function RecordScript(schema: string, id: string): seq<Action> {
    [Mark(id)] + if id != TEMPLATE then [Do(MetaInsert(schema, id))] else []
  }

  function UpScript(schema: string, revisions: seq<Revision>): seq<Action>
    decreases |revisions|
  {
    if revisions == [] then []
    else Dos(Statements(revisions[0].upSql)) + RecordScript(schema, revisions[0].id) + UpScript(schema, revisions[1..])
  }

  /** The migration of one schema: nothing at all when nothing is pending. */
  function MigrateScript(schema: string, pending: seq<Revision>): seq<Action> {
    if pending == [] then [] else [Do(MetaDdl(schema))] + UpScript(schema, pending)
  }

  function Ids(revisions: seq<Revision>): (ids: seq<string>)
    ensures |ids| == |revisions| && forall i | 0 <= i < |ids| :: ids[i] == revisions[i].id
  {
    seq(|revisions|, i requires 0 <= i < |revisions| => revisions[i].id)
  }

  /** The revisions that are not applied yet, in order. */
  function Pending(revisions: seq<Revision>, applied: seq<string>): seq<Revision>
    decreases |revisions|
  {
    if revisions == [] then []
    else if revisions[0].id in applied then Pending(revisions[1..], applied)
    else [revisions[0]] + Pending(revisions[1..], applied)
  }

  // ----- migrate_all -----

  datatype Migration = Migration(st: State, result: Result<nat, ProvisioningError>)

  /** A migration result with the revisions already counted. */
  function Counted(m: Migration, count: nat): Migration {
    match m.result
    case Err(e) => m
    case Ok(more) => Migration(m.st, Ok(count + more))
  }

  /** What migrate_all does with one schema. */
  function MigrateOne(faults: Faults, revisions: seq<Revision>, st: State, schema: string): Migration {
    if !SafeSchemaName(schema) then Migration(st, Err(UnsafeSchemaName))
    else
      var pending := Pending(revisions, Applied(st, schema));
      if pending == [] then Migration(st, Ok(0))
      else
        var script := MigrateScript(schema, pending);
        var (st1, n) := RunScript(faults, st.(active := schema), schema, script);
        Migration(st1, if n < |script| then Err(ExecutionFailed) else Ok(|pending|))
  }

  function MigrateAll(faults: Faults, revisions: seq<Revision>, st: State, schemas: seq<string>): Migration
    decreases |schemas|
  {
    if schemas == [] then Migration(st, Ok(0))
    else
      var first := MigrateOne(faults, revisions, st, schemas[0]);
      match first.result
      case Err(_) => first
      case Ok(n) => Counted(MigrateAll(faults, revisions, first.st, schemas[1..]), n)
  }

  // ----- downgrade -----

  /** by_id: the last revision with an id. */
  function ById(revisions: seq<Revision>, id: string): Option<Revision>
    decreases |revisions|
  {
    if revisions == [] then None
    else if revisions[|revisions| - 1].id == id then Some(revisions[|revisions| - 1])
    else ById(revisions[..|revisions| - 1], id)
  }

  /** An id names its last revision. */
  lemma {:induction false} ByIdExactly(revisions: seq<Revision>, id: string)
    ensures ById(revisions, id) == None <==> forall i | 0 <= i < |revisions| :: revisions[i].id != id
    ensures ById(revisions, id).Some? ==>
              exists i :: 0 <= i < |revisions| && revisions[i] == ById(revisions, id).value && revisions[i].id == id
                          && forall j | i < j < |revisions| :: revisions[j].id != id
    decreases |revisions|
  {
    if revisions != [] && revisions[|revisions| - 1].id != id {
      ByIdExactly(revisions[..|revisions| - 1], id);
    }
  }

  /** The applied revisions after the target, newest first. */
  function ToUndo(applied: seq<string>, target: string): seq<string>
    decreases |applied|
  {
    if applied == [] then []
    else
      var last, older := applied[|applied| - 1], ToUndo(applied[..|applied| - 1], target);
      if Less(target, last) then [last] + older else older
  }

  function UndoScript(revisions: seq<Revision>, schema: string, id: string): seq<Action> {
    match ById(revisions, id)
    case None => [Refuse]
    case Some(r) =>
      if r.downSql == "" then [Refuse]
      else Dos(Statements(r.downSql)) + [Do(MetaDelete(schema, id)), Unmark(id)]
  }

  function DownScript(revisions: seq<Revision>, schema: string, undo: seq<string>): seq<Action>
    decreases |undo|
  {
    if undo == [] then [] else UndoScript(revisions, schema, undo[0]) + DownScript(revisions, schema, undo[1..])
  }

  function Downgrade(faults: Faults, revisions: seq<Revision>, st: State, schema: string, target: string): Migration {
    var applied := Applied(st, schema);
    if !SafeSchemaName(schema) then Migration(st, Err(UnsafeSchemaName))
    else if target !in applied && target != "" then Migration(st, Err(TargetNotApplied))
    else
      var undo := ToUndo(applied, target);
      var script := DownScript(revisions, schema, undo);
      var (st1, n) := RunScript(faults, st.(active := schema), schema, script);
      Migration(st1, if n == |script| then Ok(|undo|)
                     else if script[n].Refuse? then Err(NoDownArtifact)
                     else Err(ExecutionFailed))
  }

  // ----- create_tenant_schema -----

  function CreateScript(schema: string, templateSql: string): seq<Action> {
    [Do(CreateSchema(schema))] + Dos(Statements(templateSql)) + RecordScript(schema, TEMPLATE)
  }

  function CreateTenantSchema(faults: Faults, templateSql: string, st: State, schema: string): (State, Option<ProvisioningError>) {
    if !SafeSchemaName(schema) then (st, Some(UnsafeSchemaName))
    else if templateSql == "" then (st, Some(NoTemplate))
    else
      var script := CreateScript(schema, templateSql);
      var (st1, n) := RunScript(faults, st.(active := schema), schema, script);
      (st1, if n == |script| then None else Some(ExecutionFailed))
  }
}
