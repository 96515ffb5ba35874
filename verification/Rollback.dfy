/** What downgrade leaves behind, and the round trip of a schema's data and bookkeeping table
    through migrations and rollbacks. */
module Rollback {
  import opened Wrappers
  import opened Text
  import opened Provisioning
  import opened Migrations
  import Slices

  ghost predicate Ascending(ids: seq<string>) {
    forall i, j | 0 <= i < j < |ids| :: Less(ids[i], ids[j])
  }

  function Reversed(ids: seq<string>): (r: seq<string>)
    ensures |r| == |ids|
    decreases |ids|
  {
    if ids == [] then [] else [ids[|ids| - 1]] + Reversed(ids[..|ids| - 1])
  }

  /** The newest c revisions, newest first. */
  function Newest(ids: seq<string>, c: nat): (r: seq<string>)
    requires c <= |ids|
    ensures |r| == c
  {
    Reversed(ids[|ids| - c..])
  }

  lemma NewestSplits(ids: seq<string>, c: nat)
    requires 0 < c <= |ids|
    ensures Newest(ids, c) == [ids[|ids| - 1]] + Newest(ids[..|ids| - 1], c - 1)
  {
    var tail, shorter := ids[|ids| - c..], ids[..|ids| - 1];
    assert tail[c - 1] == ids[|ids| - 1] && tail[..c - 1] == shorter[|shorter| - (c - 1)..];
  }

  /** The newest c ids are those after the target. */
  ghost predicate TailAfter(ids: seq<string>, target: string, c: nat) {
    && c <= |ids|
    && (forall i | 0 <= i < |ids| - c :: !Less(target, ids[i]))
    && (forall i | |ids| - c <= i < |ids| :: Less(target, ids[i]))
  }

  /** In an ascending list the revisions to undo are the newest ones, newest first. */
  lemma {:induction false} ToUndoIsNewest(applied: seq<string>, target: string) returns (c: nat)
    requires Ascending(applied)
    ensures TailAfter(applied, target, c) && ToUndo(applied, target) == Newest(applied, c)
    decreases |applied|
  {
    c := 0;
    if applied != [] {
      var n := |applied| - 1;
      ShorterIsAscending(applied);
      c := ToUndoIsNewest(applied[..n], target);
      if Less(target, applied[n]) {
        TailGrows(applied, target, c);
        c := c + 1;
        NewestSplits(applied, c);
      } else {
        TailStaysEmpty(applied, target, c);
      }
    }
  }

  lemma TailGrows(ids: seq<string>, target: string, c: nat)
    requires ids != [] && TailAfter(ids[..|ids| - 1], target, c) && Less(target, ids[|ids| - 1])
    ensures TailAfter(ids, target, c + 1)
  {
    assert forall i | 0 <= i < |ids| - 1 :: ids[..|ids| - 1][i] == ids[i];
  }

  lemma TailStaysEmpty(ids: seq<string>, target: string, c: nat)
    requires ids != [] && Ascending(ids) && TailAfter(ids[..|ids| - 1], target, c) && !Less(target, ids[|ids| - 1])
    ensures c == 0 && TailAfter(ids, target, 0)
  {
    var n := |ids| - 1;
    assert forall i | 0 <= i < n :: ids[..n][i] == ids[i];
    if c > 0 {
      assert Less(target, ids[..n][n - c]) && Less(ids[n - c], ids[n]);
      LessIsTransitive(target, ids[n - c], ids[n]);
    }
  }

  lemma ShorterIsAscending(ids: seq<string>)
    requires ids != [] && Ascending(ids)
    ensures Ascending(ids[..|ids| - 1])
  {
  }

  // ----- where a rollback can stop -----

  lemma {:induction false} RemoveLast(ids: seq<string>)
    requires ids != [] && Ascending(ids)
    ensures RemoveFirst(ids, ids[|ids| - 1]) == ids[..|ids| - 1]
    decreases |ids|
  {
    var n := |ids| - 1;
    if n > 0 {
      assert Less(ids[0], ids[n]);
      LessIsIrreflexive(ids[0]);
      assert ids[1..][n - 1] == ids[n];
      RemoveLast(ids[1..]);
      assert ids[..n] == [ids[0]] + ids[1..][..n - 1];
    }
  }

  /** The list after removing ids one by one, the first occurrence of each. */
  function RemoveAll(ids: seq<string>, undo: seq<string>): seq<string>
    decreases |undo|
  {
    if undo == [] then ids else RemoveAll(RemoveFirst(ids, undo[0]), undo[1..])
  }

  lemma {:induction false} RemoveNewest(ids: seq<string>, u: nat)
    requires Ascending(ids) && u <= |ids|
    ensures RemoveAll(ids, Newest(ids, u)) == ids[..|ids| - u]
    decreases u
  {
    if u == 0 {
      assert ids[|ids|..] == [] && ids[..|ids|] == ids;
    } else {
      NewestSplits(ids, u);
      RemoveLast(ids);
      ShorterIsAscending(ids);
      RemoveNewest(ids[..|ids| - 1], u - 1);
      Slices.TakeOfTake(ids, |ids| - u, |ids| - 1);
    }
  }

  /** The revisions of a list that are not after the target, in order. */
  function UpTo(ids: seq<string>, target: string): seq<string>
    decreases |ids|
  {
    if ids == [] then []
    else if Less(target, ids[0]) then UpTo(ids[1..], target)
    else [ids[0]] + UpTo(ids[1..], target)
  }

  /** The revisions after the target, with their multiplicities. */
  function Later(ids: seq<string>, target: string): multiset<string>
    decreases |ids|
  {
    if ids == [] then multiset{}
    else if Less(target, ids[0]) then multiset{ids[0]} + Later(ids[1..], target)
    else Later(ids[1..], target)
  }

  lemma {:induction false} LaterOneMore(ids: seq<string>, id: string, target: string)
    ensures Later(ids + [id], target) == Later(ids, target) + if Less(target, id) then multiset{id} else multiset{}
    decreases |ids|
  {
    if ids == [] {
      assert [id][1..] == [] && ids + [id] == [id];
    } else {
      assert (ids + [id])[1..] == ids[1..] + [id];
      LaterOneMore(ids[1..], id, target);
    }
  }

  lemma {:induction false} ToUndoIsLater(ids: seq<string>, target: string)
    ensures multiset(ToUndo(ids, target)) == Later(ids, target)
    decreases |ids|
  {
    if ids != [] {
      var n := |ids| - 1;
      assert ids == ids[..n] + [ids[n]];
      ToUndoIsLater(ids[..n], target);
      LaterOneMore(ids[..n], ids[n], target);
    }
  }

  /** Removing one later revision leaves the others. */
  lemma {:induction false} RemoveOneLater(ids: seq<string>, id: string, target: string)
    requires id in Later(ids, target)
    ensures Later(RemoveFirst(ids, id), target) == Later(ids, target) - multiset{id}
    ensures UpTo(RemoveFirst(ids, id), target) == UpTo(ids, target)
    decreases |ids|
  {
    if ids[0] == id {
      IsLater(ids, id, target);
    } else {
      RemoveOneLater(ids[1..], id, target);
      assert ([ids[0]] + RemoveFirst(ids[1..], id))[1..] == RemoveFirst(ids[1..], id);
    }
  }

  lemma {:induction false} IsLater(ids: seq<string>, id: string, target: string)
    requires id in Later(ids, target)
    ensures Less(target, id)
    decreases |ids|
  {
    if ids[0] != id || !Less(target, id) {
      IsLater(ids[1..], id, target);
    }
  }

  /** Removing all later revisions, in any order, leaves the list up to the target. */
  lemma {:induction false} RemoveAllLater(ids: seq<string>, undo: seq<string>, target: string)
    requires multiset(undo) == Later(ids, target)
    ensures RemoveAll(ids, undo) == UpTo(ids, target)
    decreases |undo|
  {
    if undo == [] {
      NothingLater(ids, target);
    } else {
      assert undo == [undo[0]] + undo[1..];
      RemoveOneLater(ids, undo[0], target);
      RemoveAllLater(RemoveFirst(ids, undo[0]), undo[1..], target);
    }
  }

  lemma {:induction false} NothingLater(ids: seq<string>, target: string)
    requires Later(ids, target) == multiset{}
    ensures UpTo(ids, target) == ids
    decreases |ids|
  {
    if ids != [] {
      assert !Less(target, ids[0]);
      NothingLater(ids[1..], target);
    }
  }

  lemma LeavesUpToTarget(ids: seq<string>, target: string, done: seq<string>)
    requires done <= ToUndo(ids, target)
    ensures |done| == |ToUndo(ids, target)| ==> RemoveAll(ids, done) == UpTo(ids, target)
  {
    if |done| == |ToUndo(ids, target)| {
      assert done == ToUndo(ids, target);
      ToUndoIsLater(ids, target);
      RemoveAllLater(ids, done, target);
    }
  }

  ghost predicate NoRefusal(script: seq<Action>, n: nat)
    requires n <= |script|
  {
    forall i | 0 <= i < n :: !script[i].Refuse?
  }

  lemma NoRefusalSplits(head: seq<Action>, rest: seq<Action>, n: nat)
    requires |head| <= n <= |head| + |rest| && NoRefusal(head + rest, n)
    ensures NoRefusal(head, |head|) && NoRefusal(rest, n - |head|)
  {
    assert forall i | 0 <= i < |head| :: head[i] == (head + rest)[i];
    assert forall i | 0 <= i < n - |head| :: rest[i] == (head + rest)[i + |head|];
  }

  lemma UndoMarks(revisions: seq<Revision>, schema: string, id: string, ids: seq<string>)
    requires NoRefusal(UndoScript(revisions, schema, id), |UndoScript(revisions, schema, id)|)
    ensures Marked(ids, UndoScript(revisions, schema, id)) == RemoveFirst(ids, id)
  {
    var script := UndoScript(revisions, schema, id);
    assert !script[0].Refuse?;
    var front := script[..|script| - 1];
    assert script == front + [Unmark(id)];
    MarkedAppends(ids, front, [Unmark(id)]);
    StatementsMarkNothing(ids, front);
    assert [Unmark(id)][1..] == [];
  }

  lemma PartialUndoMarks(revisions: seq<Revision>, schema: string, id: string, ids: seq<string>, n: nat)
    requires n < |UndoScript(revisions, schema, id)| && NoRefusal(UndoScript(revisions, schema, id), n)
    ensures Marked(ids, UndoScript(revisions, schema, id)[..n]) == ids
  {
    StatementsMarkNothing(ids, UndoScript(revisions, schema, id)[..n]);
  }

  /** The first u revisions are undone completely, and part of the next one. */
  ghost predicate InUndo(revisions: seq<Revision>, schema: string, undo: seq<string>, n: nat, u: nat) {
    && u < |undo|
    && LiesIn(DownScript(revisions, schema, undo), n, DownScript(revisions, schema, undo[..u]),
              UndoScript(revisions, schema, undo[u]))
  }

  lemma InLaterUndo(revisions: seq<Revision>, schema: string, undo: seq<string>, n: nat, u: nat)
    requires undo != [] && InUndo(revisions, schema, undo[1..], n, u)
    ensures InUndo(revisions, schema, undo, |UndoScript(revisions, schema, undo[0])| + n, u + 1)
  {
    assert undo[..u + 1][1..] == undo[1..][..u];
    LiesInShifts(UndoScript(revisions, schema, undo[0]), DownScript(revisions, schema, undo[1..]), n,
                 DownScript(revisions, schema, undo[1..][..u]), UndoScript(revisions, schema, undo[u + 1]));
  }

  lemma InFirstUndo(revisions: seq<Revision>, schema: string, undo: seq<string>, n: nat)
    requires undo != [] && n < |UndoScript(revisions, schema, undo[0])|
    ensures InUndo(revisions, schema, undo, n, 0)
  {
    assert undo[..0] == [];
    LiesInFirst(UndoScript(revisions, schema, undo[0]), DownScript(revisions, schema, undo[1..]), n);
  }

  /** A rollback that runs to its end removes what it undid. */
  lemma {:induction false} DownMarks(revisions: seq<Revision>, schema: string, ids: seq<string>, undo: seq<string>)
    requires NoRefusal(DownScript(revisions, schema, undo), |DownScript(revisions, schema, undo)|)
    ensures Marked(ids, DownScript(revisions, schema, undo)) == RemoveAll(ids, undo)
    decreases |undo|
  {
    if undo != [] {
      var head, rest := UndoScript(revisions, schema, undo[0]), DownScript(revisions, schema, undo[1..]);
      NoRefusalSplits(head, rest, |head| + |rest|);
      MarkedAppends(ids, head, rest);
      UndoMarks(revisions, schema, undo[0], ids);
      DownMarks(revisions, schema, RemoveFirst(ids, undo[0]), undo[1..]);
    }
  }

  lemma {:induction false} NewestOfNewest(ids: seq<string>, c: nat, u: nat)
    requires u <= c <= |ids|
    ensures Newest(ids, c)[..u] == Newest(ids, u)
    decreases u
  {
    if u == 0 {
      assert ids[|ids|..] == [];
    } else {
      NewestSplits(ids, c);
      NewestSplits(ids, u);
      NewestOfNewest(ids[..|ids| - 1], c - 1, u - 1);
    }
  }

  /** Every action of a rollback lies in the undoing of one revision. */
  lemma {:induction false} DownStopsInside(revisions: seq<Revision>, schema: string, undo: seq<string>, n: nat)
    returns (u: nat)
    requires n < |DownScript(revisions, schema, undo)|
    ensures InUndo(revisions, schema, undo, n, u)
    decreases |undo|
  {
    var head := |UndoScript(revisions, schema, undo[0])|;
    if n < head {
      u := 0;
      InFirstUndo(revisions, schema, undo, n);
    } else {
      var u1 := DownStopsInside(revisions, schema, undo[1..], n - head);
      u := u1 + 1;
      InLaterUndo(revisions, schema, undo, n - head, u1);
    }
  }

  /** A rollback that stops while undoing a revision has removed exactly the ones before it. */
  lemma StoppedMarks(
    revisions: seq<Revision>, schema: string, ids: seq<string>, undo: seq<string>, n: nat, u: nat)
    requires InUndo(revisions, schema, undo, n, u) && NoRefusal(DownScript(revisions, schema, undo), n)
    ensures Marked(ids, DownScript(revisions, schema, undo)[..n]) == RemoveAll(ids, undo[..u])
  {
    var done, next := DownScript(revisions, schema, undo[..u]), UndoScript(revisions, schema, undo[u]);
    var k := n - |done|;
    PartBefore(DownScript(revisions, schema, undo), n, done, next);
    NoRefusalSplits(done, next[..k], n);
    DownMarks(revisions, schema, ids, undo[..u]);
    PartMarks(revisions, schema, RemoveAll(ids, undo[..u]), undo[u], k);
    MarkedAppends(ids, done, next[..k]);
  }

  lemma PartMarks(revisions: seq<Revision>, schema: string, ids: seq<string>, id: string, k: nat)
    requires k < |UndoScript(revisions, schema, id)| && NoRefusal(UndoScript(revisions, schema, id)[..k], k)
    ensures Marked(ids, UndoScript(revisions, schema, id)[..k]) == ids
  {
    var next := UndoScript(revisions, schema, id);
    assert forall i | 0 <= i < k :: next[..k][i] == next[i];
    PartialUndoMarks(revisions, schema, id, ids, k);
  }

  lemma PartBefore(script: seq<Action>, n: nat, done: seq<Action>, next: seq<Action>)
    requires LiesIn(script, n, done, next) && NoRefusal(script, n)
    ensures script[..n] == done + next[..n - |done|] && script[n] == next[n - |done|]
    ensures NoRefusal(done + next[..n - |done|], n)
  {
    var k := n - |done|;
    assert script[..n] == script[..n + 1][..n];
    assert (done + next[..k + 1])[..n] == done + next[..k];
    assert script[n] == script[..n + 1][n];
    assert forall i | 0 <= i < n :: (done + next[..k])[i] == script[i];
  }

  // ----- one downgrade -----

  /** What a downgrade does. The first u of the revisions to undo are out of the list, each
      undone completely; all of them when it returns, and then what is left is the list up to
      the target. Otherwise it stopped inside the undoing of the next one: at a statement the
      executor failed, or before anything of it ran, for want of a down artifact. Other schemas
      are untouched. */
  ghost predicate RolledBack(
    revisions: seq<Revision>, st: State, m: Migration, schema: string, target: string, u: nat, n: nat) {
    var ids := Applied(st, schema);
    var undo := ToUndo(ids, target);
    var script := DownScript(revisions, schema, undo);
    && u <= |undo| && n <= |script|
    && Applied(m.st, schema) == RemoveAll(ids, undo[..u])
    && OnSchema(m.st.trace, schema) == OnSchema(st.trace, schema) + TraceOf(schema, script[..n])
    && (forall s | s != schema :: Untouched(st, m.st, s))
    && (m.result.Ok? <==> n == |script|)
    && (m.result.Ok? ==> u == |undo| && m.result.value == |undo| && Applied(m.st, schema) == UpTo(ids, target))
    && (m.result.Err? ==>
          && InUndo(revisions, schema, undo, n, u)
          && (m.result.error == NoDownArtifact <==> script[n].Refuse?)
          && (m.result.error == ExecutionFailed <==> script[n].Do?))
  }

  lemma DowngradeRollsBack(
    faults: Faults, revisions: seq<Revision>, st: State, schema: string, target: string)
    returns (u: nat, n: nat)
    requires SafeSchemaName(schema) && (target == "" || target in Applied(st, schema))
    ensures n == RunScript(faults, st.(active := schema), schema,
                           DownScript(revisions, schema, ToUndo(Applied(st, schema), target))).1
    ensures RolledBack(revisions, st, Downgrade(faults, revisions, st, schema, target), schema, target, u, n)
  {
    var ids := Applied(st, schema);
    var undo := ToUndo(ids, target);
    n := RunScript(faults, st.(active := schema), schema, DownScript(revisions, schema, undo)).1;
    u := DownListAfter(faults, revisions, st, schema, undo);
    DownTraceAfter(faults, st, schema, DownScript(revisions, schema, undo));
    LeavesUpToTarget(ids, target, undo[..u]);
  }

  lemma DownListAfter(
    faults: Faults, revisions: seq<Revision>, st: State, schema: string, undo: seq<string>) returns (u: nat)
    ensures var ids, script := Applied(st, schema), DownScript(revisions, schema, undo);
            var (st1, n) := RunScript(faults, st.(active := schema), schema, script);
            && u <= |undo| && Applied(st1, schema) == RemoveAll(ids, undo[..u])
            && (n == |script| ==> u == |undo|)
            && (n < |script| ==> InUndo(revisions, schema, undo, n, u) && (script[n].Do? || script[n].Refuse?))
  {
    var ids, script := Applied(st, schema), DownScript(revisions, schema, undo);
    var n := RunScript(faults, st.(active := schema), schema, script).1;
    ScriptMarks(faults, st.(active := schema), schema, script);
    if n == |script| {
      u := |undo|;
      assert script[..n] == script && undo[..u] == undo;
      DownMarks(revisions, schema, ids, undo);
    } else {
      u := DownStopsInside(revisions, schema, undo, n);
      StoppedMarks(revisions, schema, ids, undo, n, u);
    }
  }

  /** On an ascending list the revisions to undo are its newest c, and what is left is the list
      without the newest u: a prefix. */
  lemma AscendingRollsBack(
    faults: Faults, revisions: seq<Revision>, st: State, schema: string, target: string)
    returns (c: nat, u: nat, n: nat)
    requires SafeSchemaName(schema) && (target == "" || target in Applied(st, schema))
    requires Ascending(Applied(st, schema))
    ensures RolledBack(revisions, st, Downgrade(faults, revisions, st, schema, target), schema, target, u, n)
    ensures var ids := Applied(st, schema);
            && u <= c && TailAfter(ids, target, c) && ToUndo(ids, target) == Newest(ids, c)
            && Applied(Downgrade(faults, revisions, st, schema, target).st, schema) == ids[..|ids| - u]
  {
    c := ToUndoIsNewest(Applied(st, schema), target);
    u, n := DowngradeRollsBack(faults, revisions, st, schema, target);
    NewestOfNewest(Applied(st, schema), c, u);
    RemoveNewest(Applied(st, schema), u);
  }

  /** A revision added late, between two that are applied, comes last in the list: then a
      rollback to it leaves no prefix. */
  lemma LateRevisionComesLast(r1: Revision, r2: Revision, r3: Revision)
    requires Less(r1.id, r2.id) && Less(r2.id, r3.id)
    ensures var ids := [r1.id, r3.id] + Ids(Pending([r1, r2, r3], [r1.id, r3.id]));
            && Ids(Pending([r1, r3], [])) == [r1.id, r3.id]
            && ids == [r1.id, r3.id, r2.id] && !Ascending(ids)
            && ToUndo(ids, r2.id) == [r3.id] && UpTo(ids, r2.id) == [r1.id, r2.id]
  {
    LessIsIrreflexive(r2.id);
    LessIsAsymmetric(r1.id, r2.id);
    LessIsAsymmetric(r2.id, r3.id);
    LateIsPending(r1, r2, r3);
    LateIsUndone(r1.id, r2.id, r3.id);
    assert [r1.id, r3.id, r2.id][1] == r3.id;
  }

  lemma LateIsPending(r1: Revision, r2: Revision, r3: Revision)
    requires r1.id != r2.id && r2.id != r3.id
    ensures Ids(Pending([r1, r3], [])) == [r1.id, r3.id]
    ensures Ids(Pending([r1, r2, r3], [r1.id, r3.id])) == [r2.id]
  {
    assert [r1, r2, r3][1..] == [r2, r3] && [r2, r3][1..] == [r3] && [r1, r3][1..] == [r3] && [r3][1..] == [];
    var two := [r1.id, r3.id];
    assert two[0] == r1.id && two[1] == r3.id;
    assert Pending([r3][1..], two) == [] && Pending([r3], two) == [];
    assert Pending([r3], []) == [r3];
    assert Pending([r2, r3], [r1.id, r3.id]) == [r2];
  }

  lemma LateIsUndone(a: string, b: string, c: string)
    requires Less(b, c) && !Less(b, a) && !Less(b, b)
    ensures ToUndo([a, c, b], b) == [c] && UpTo([a, c, b], b) == [a, b]
  {
    assert [a, c, b][..2] == [a, c] && [a, c][..1] == [a] && [a][..0] == [];
    assert ToUndo([a, c][..1], b) == [];
    assert [a, c][1] == c && ToUndo([a, c], b) == [c] + [] == [c];
    assert [a, c, b][1..] == [c, b] && [c, b][1..] == [b] && [b][1..] == [];
    assert UpTo([b], b) == [b] && UpTo([c, b], b) == [b];
  }

  lemma DownTraceAfter(faults: Faults, st: State, schema: string, script: seq<Action>)
    ensures var (st1, n) := RunScript(faults, st.(active := schema), schema, script);
            && OnSchema(st1.trace, schema) == OnSchema(st.trace, schema) + TraceOf(schema, script[..n])
            && forall s | s != schema :: Untouched(st, st1, s)
  {
    var st0 := st.(active := schema);
    var st1 := RunScript(faults, st0, schema, script).0;
    ScriptMarks(faults, st0, schema, script);
    ScriptOnSchema(faults, st0, schema, script, schema);
    forall s | s != schema
      ensures Untouched(st, st1, s)
    {
      ScriptOnSchema(faults, st0, schema, script, s);
      assert Applied(st0, s) == Applied(st, s);
      assert OnSchema(st.trace, s) + [] == OnSchema(st.trace, s);
    }
  }

  // ----- when a rollback is refused -----

  /** A rollback is refused, and does nothing, exactly for an unsafe name or for a target other
      than "" that is not applied. */
  lemma DowngradeRefuses(faults: Faults, revisions: seq<Revision>, st: State, schema: string, target: string)
    ensures var m := Downgrade(faults, revisions, st, schema, target);
            && (m.result == Err(UnsafeSchemaName) <==> !SafeSchemaName(schema))
            && (m.result == Err(TargetNotApplied) <==>
                  SafeSchemaName(schema) && target != "" && target !in Applied(st, schema))
            && (m.result in {Err(UnsafeSchemaName), Err(TargetNotApplied)} ==> m.st == st)
  {
  }

  /** The revision has a usable down artifact. */
  predicate CanUndo(revisions: seq<Revision>, id: string) {
    ById(revisions, id).Some? && ById(revisions, id).value.downSql != ""
  }

  lemma UndoRefuses(revisions: seq<Revision>, schema: string, id: string)
    ensures CanUndo(revisions, id) <==>
              NoRefusal(UndoScript(revisions, schema, id), |UndoScript(revisions, schema, id)|)
  {
    if !CanUndo(revisions, id) {
      assert UndoScript(revisions, schema, id)[0] == Refuse;
    }
  }

  lemma {:induction false} FaultlessStopsAtRefusal(faults: Faults, st: State, schema: string, script: seq<Action>)
    requires Faultless(faults)
    ensures var n := RunScript(faults, st, schema, script).1; n < |script| ==> script[n].Refuse?
    decreases |script|
  {
    if script != [] && !script[0].Refuse? {
      FaultlessStopsAtRefusal(faults, Perform(faults, st, schema, script[0]).0, schema, script[1..]);
    }
  }

  lemma FaultlessCompletesExactly(faults: Faults, st: State, schema: string, script: seq<Action>)
    requires Faultless(faults)
    ensures RunScript(faults, st, schema, script).1 == |script| <==> NoRefusal(script, |script|)
  {
    var n := RunScript(faults, st, schema, script).1;
    FaultlessStopsAtRefusal(faults, st, schema, script);
    ScriptMarks(faults, st, schema, script);
    assert n < |script| ==> !NoRefusal(script, |script|);
  }

  ghost predicate AllUndoable(revisions: seq<Revision>, undo: seq<string>) {
    forall i | 0 <= i < |undo| :: CanUndo(revisions, undo[i])
  }

  lemma {:induction false} DownRefuses(revisions: seq<Revision>, schema: string, undo: seq<string>)
    ensures AllUndoable(revisions, undo) <==>
              NoRefusal(DownScript(revisions, schema, undo), |DownScript(revisions, schema, undo)|)
    decreases |undo|
  {
    if undo != [] {
      var head, rest := UndoScript(revisions, schema, undo[0]), DownScript(revisions, schema, undo[1..]);
      UndoRefuses(revisions, schema, undo[0]);
      DownRefuses(revisions, schema, undo[1..]);
      if NoRefusal(head + rest, |head + rest|) {
        NoRefusalSplits(head, rest, |head + rest|);
        assert forall i | 0 < i < |undo| :: undo[i] == undo[1..][i - 1];
      } else {
        assert undo[1..] != [] ==> undo[1..][0] == undo[1];
      }
    }
  }

  /** With an executor that never fails, a rollback to an applied target returns exactly when
      every revision after the target has a down artifact. */
  lemma DowngradeCompletesExactly(
    faults: Faults, revisions: seq<Revision>, st: State, schema: string, target: string)
    requires Faultless(faults) && SafeSchemaName(schema) && (target == "" || target in Applied(st, schema))
    ensures Downgrade(faults, revisions, st, schema, target).result.Ok? <==>
              AllUndoable(revisions, ToUndo(Applied(st, schema), target))
  {
    var undo := ToUndo(Applied(st, schema), target);
    DownRefuses(revisions, schema, undo);
    FaultlessCompletesExactly(faults, st.(active := schema), schema, DownScript(revisions, schema, undo));
  }

  lemma {:induction false} NewestAt(ids: seq<string>, c: nat, i: nat)
    requires i < c <= |ids|
    ensures Newest(ids, c)[i] == ids[|ids| - 1 - i]
    decreases i
  {
    NewestSplits(ids, c);
    if i > 0 {
      NewestAt(ids[..|ids| - 1], c - 1, i - 1);
    }
  }

  lemma {:induction false} ToUndoEverything(ids: seq<string>)
    requires "" !in ids
    ensures ToUndo(ids, "") == Reversed(ids)
    decreases |ids|
  {
    if ids != [] {
      var n := |ids| - 1;
      assert ids[n] in ids && forall id | id in ids[..n] :: id in ids;
      ToUndoEverything(ids[..n]);
    }
  }

  lemma {:induction false} ReversedEndsWithFirst(id: string, ids: seq<string>)
    ensures Reversed([id] + ids) == Reversed(ids) + [id]
    decreases |ids|
  {
    var all := [id] + ids;
    if ids == [] {
      assert all == [id] && all[..0] == [];
    } else {
      assert all[..|all| - 1] == [id] + ids[..|ids| - 1];
      ReversedEndsWithFirst(id, ids[..|ids| - 1]);
    }
  }

  lemma {:induction false} ReversedHolds(ids: seq<string>)
    ensures multiset(Reversed(ids)) == multiset(ids)
    decreases |ids|
  {
    if ids != [] {
      ReversedHolds(ids[..|ids| - 1]);
      LastApart(ids);
    }
  }

  lemma LastApart(ids: seq<string>)
    requires ids != []
    ensures multiset(ids) == multiset(ids[..|ids| - 1]) + multiset{ids[|ids| - 1]}
  {
    assert ids == ids[..|ids| - 1] + [ids[|ids| - 1]];
  }

  lemma {:induction false} RemoveBehind(id: string, ids: seq<string>, undo: seq<string>)
    requires id !in undo
    ensures RemoveAll([id] + ids, undo) == [id] + RemoveAll(ids, undo)
    decreases |undo|
  {
    if undo != [] {
      assert ([id] + ids)[1..] == ids;
      RemoveBehind(id, RemoveFirst(ids, undo[0]), undo[1..]);
    }
  }

  lemma {:induction false} NothingUpToEmpty(ids: seq<string>)
    requires "" !in ids
    ensures UpTo(ids, "") == []
    decreases |ids|
  {
    if ids != [] {
      NothingUpToEmpty(ids[1..]);
    }
  }

  /** Removing everything but the first id. */
  lemma RemoveAllButFirst(id: string, ids: seq<string>)
    requires id !in ids && "" !in ids
    ensures RemoveAll([id] + ids, Reversed(ids)) == [id]
  {
    ReversedHolds(ids);
    assert id !in multiset(Reversed(ids));
    RemoveBehind(id, ids, Reversed(ids));
    ToUndoEverything(ids);
    LeavesUpToTarget(ids, "", Reversed(ids));
    NothingUpToEmpty(ids);
  }

  /** Rolling back to "" on a schema that recorded the template: every other revision is
      undone and removed, and then the call raises, since the template has no down artifact. */
  lemma TemplateBlocksEmptyTarget(
    faults: Faults, revisions: seq<Revision>, st: State, schema: string, ids: seq<string>)
    requires Faultless(faults) && SafeSchemaName(schema)
    requires Applied(st, schema) == [TEMPLATE] + ids && "" !in ids
    requires !CanUndo(revisions, TEMPLATE) && forall i | 0 <= i < |ids| :: CanUndo(revisions, ids[i])
    ensures var m := Downgrade(faults, revisions, st, schema, "");
            && m.result == Err(NoDownArtifact) && Applied(m.st, schema) == [TEMPLATE]
            && OnSchema(m.st.trace, schema) ==
               OnSchema(st.trace, schema) + TraceOf(schema, DownScript(revisions, schema, Reversed(ids)))
  {
    var undo := Reversed(ids) + [TEMPLATE];
    var u, n := DowngradeRollsBack(faults, revisions, st, schema, "");
    ToUndoEverything([TEMPLATE] + ids);
    ReversedEndsWithFirst(TEMPLATE, ids);
    FaultlessStopsAtRefusal(faults, st.(active := schema), schema, DownScript(revisions, schema, undo));
    StopsAtTemplate(faults, revisions, st, schema, ids, n);
    StopsBeforeLast(revisions, schema, ids, undo, n, u);
    RemoveAllButFirst(TEMPLATE, ids);
  }

  lemma StopsAtTemplate(
    faults: Faults, revisions: seq<Revision>, st: State, schema: string, ids: seq<string>, n: nat)
    requires Faultless(faults) && SafeSchemaName(schema) && !CanUndo(revisions, TEMPLATE)
    requires ToUndo(Applied(st, schema), "") == Reversed(ids) + [TEMPLATE]
    ensures Downgrade(faults, revisions, st, schema, "").result.Err?
  {
    var undo := Reversed(ids) + [TEMPLATE];
    assert undo[|ids|] == TEMPLATE;
    DowngradeCompletesExactly(faults, revisions, st, schema, "");
  }

  lemma EarlierIsUndoable(revisions: seq<Revision>, ids: seq<string>, u: nat)
    requires u < |ids| && forall i | 0 <= i < |ids| :: CanUndo(revisions, ids[i])
    ensures CanUndo(revisions, Reversed(ids)[u])
  {
    ReversedHolds(ids);
    assert Reversed(ids)[u] in multiset(Reversed(ids));
  }

  /** A refusal inside the undoing of revision u comes before anything of it. */
  lemma StopsBeforeLast(
    revisions: seq<Revision>, schema: string, ids: seq<string>, undo: seq<string>, n: nat, u: nat)
    requires undo == Reversed(ids) + [TEMPLATE] && InUndo(revisions, schema, undo, n, u)
    requires forall i | 0 <= i < |ids| :: CanUndo(revisions, ids[i])
    requires DownScript(revisions, schema, undo)[n].Refuse? && !CanUndo(revisions, TEMPLATE)
    ensures u == |ids| && undo[..u] == Reversed(ids)
    ensures DownScript(revisions, schema, undo)[..n] == DownScript(revisions, schema, Reversed(ids))
  {
    var script, done := DownScript(revisions, schema, undo), DownScript(revisions, schema, undo[..u]);
    var next := UndoScript(revisions, schema, undo[u]);
    assert script[n] == script[..n + 1][n] == next[n - |done|];
    UndoRefuses(revisions, schema, undo[u]);
    if u < |ids| {
      EarlierIsUndoable(revisions, ids, u);
    }
    assert script[..n] == script[..n + 1][..n] == done;
  }
}
