/** The target database: what a statement does to it, and what a change means. */
module Store {
  import opened Wrappers
  import opened Connector
  import opened Text
  import opened Sql
  import opened SqlGen

  /** The rows of a table under their key, a row restricted to the key columns. */
  type Rows = map<Row, Row>
  type Db = map<TableRef, Rows>

  /** The key columns of every table. */
  type Catalog = map<TableRef, set<string>>

  // ---- Running a statement ----

  function Cell(row: Row, col: string): Value {
    if col in row then row[col] else Null
  }

  predicate Bound(params: seq<nat>, args: seq<Value>) {
    forall p :: p in params ==> 1 <= p <= |args|
  }

  function Bind(cols: seq<string>, params: seq<nat>, args: seq<Value>): Row
    requires |cols| == |params| && Bound(params, args)
  {
    if cols == [] then map[]
    else
      assert params[0] in params && forall p :: p in params[1..] ==> p in params;
      Bind(cols[1..], params[1..], args)[cols[0] := args[params[0] - 1]]
  }

  function Assign(sets: seq<(string, string)>, excluded: Row, row: Row): Row {
    if sets == [] then row else Assign(sets[1..], excluded, row[sets[0].0 := Cell(excluded, sets[0].1)])
  }

  /** Assignments a server accepts: no column twice, and here no key column. */
  predicate Assignable(action: Action, key: set<string>) {
    action.DoUpdate? ==>
      && Distinct(seq(|action.sets|, i requires 0 <= i < |action.sets| => action.sets[i].0))
      && forall s :: s in action.sets ==> s.0 !in key
  }

  /** SQL comparison: NULL equals nothing. */
  predicate Matches(row: Row, filter: seq<(string, nat)>, args: seq<Value>) {
    forall f :: f in filter ==>
      1 <= f.1 <= |args| && Cell(row, f.0) != Null && Cell(row, f.0) == args[f.1 - 1]
  }

  predicate NoNull(k: Row) {
    forall c :: c in k ==> k[c] != Null
  }

  /** The conflict clause: `k` is taken or it is not. */
  function InsertRow(rows: Rows, k: Row, row: Row, action: Action): Rows {
    if k !in rows then rows[k := row]
    else if action.DoNothing? then rows
    else rows[k := Assign(action.sets, row, rows[k])]
  }

  function ExecInsert(cat: Catalog, db: Db, s: Stmt, args: seq<Value>): Option<Db>
    requires s.InsertInto?
  {
    if !(s.into in cat && s.into in db && |s.cols| == |s.params| && Distinct(s.cols) && Bound(s.params, args))
    then None
    else
      var key := cat[s.into];
      var row := Bind(s.cols, s.params, args);
      var k := Restrict(row, key);
      if !(Elements(s.conflict) == key && Assignable(s.action, key) && k.Keys == key && NoNull(k)) then None
      else Some(db[s.into := InsertRow(db[s.into], k, row, s.action)])
  }

  function Remaining(rows: Rows, filter: seq<(string, nat)>, args: seq<Value>): Rows {
    map k | k in rows && !Matches(rows[k], filter, args) :: rows[k]
  }

  function ExecDelete(cat: Catalog, db: Db, s: Stmt, args: seq<Value>): Option<Db>
    requires s.DeleteFrom?
  {
    if !(s.from in cat && s.from in db && forall f :: f in s.filter ==> 1 <= f.1 <= |args|) then None
    else Some(db[s.from := Remaining(db[s.from], s.filter, args)])
  }

  /** None is a statement the server refuses: a syntax error, or one of its checks. */
  function Exec(cat: Catalog, db: Db, text: string, args: seq<Value>): Option<Db> {
    var s :- Parse(text);
    if s.InsertInto? then ExecInsert(cat, db, s, args) else ExecDelete(cat, db, s, args)
  }

  // ---- The meaning of a change, on maps ----

  function RowsOf(db: Db, t: TableRef): Rows {
    if t in db then db[t] else map[]
  }

  function Upserted(rows: Rows, k: Row, after: Row): Rows {
    rows[k := if k in rows then rows[k] + after else after]
  }

  function ApplyToRows(rows: Rows, ch: Change): Rows {
    if IsUpsert(ch) then Upserted(rows, ch.pk, ch.after)
    else if ch.op == Delete then rows - {ch.pk}
    else rows
  }

  /** The row under one key, if any, and what a change to that key makes of it. */
  function At(rows: Rows, k: Row): Option<Row> {
    if k in rows then Some(rows[k]) else None
  }

  function ChangedRow(row: Option<Row>, ch: Change): Option<Row> {
    if IsUpsert(ch) then Some(if row.Some? then row.value + ch.after else ch.after)
    else if ch.op == Delete then None
    else row
  }

  lemma ApplyAt(rows: Rows, ch: Change, k: Row)
    ensures At(ApplyToRows(rows, ch), k) == if k == ch.pk then ChangedRow(At(rows, k), ch) else At(rows, k)
  {}

  lemma SameRows(a: Rows, b: Rows)
    requires forall k :: At(a, k) == At(b, k)
    ensures a == b
  {
    forall k ensures (k in a <==> k in b) && (k in a ==> a[k] == b[k]) {
      assert At(a, k) == At(b, k);
    }
  }

  function ApplyChange(db: Db, ch: Change): Db {
    db[Ref(ch) := ApplyToRows(RowsOf(db, Ref(ch)), ch)]
  }

  function ApplyAll(db: Db, log: seq<Change>): Db
    decreases log
  {
    if log == [] then db else ApplyAll(ApplyChange(db, log[0]), log[1..])
  }

  lemma {:induction false} ApplyAllAppend(db: Db, a: seq<Change>, b: seq<Change>)
    ensures ApplyAll(db, a + b) == ApplyAll(ApplyAll(db, a), b)
    decreases a
  {
    if a == [] {
      assert a + b == b;
    } else {
      assert (a + b)[1..] == a[1..] + b;
      ApplyAllAppend(ApplyChange(db, a[0]), a[1..], b);
    }
  }

  lemma ApplyAllSnoc(db: Db, log: seq<Change>)
    requires log != []
    ensures ApplyAll(db, log) == ApplyChange(ApplyAll(db, log[..|log| - 1]), log[|log| - 1])
  {
    var n := |log| - 1;
    var last := [log[n]];
    assert log == log[..n] + last && last[1..] == [];
    ApplyAllAppend(db, log[..n], last);
  }

  // ---- Well-formedness: the contract on Change and on the target ----

  /** A row is filed under its own key, and no key column is NULL. */
  ghost predicate Filed(key: set<string>, k: Row, row: Row) {
    k.Keys == key && NoNull(k) && Restrict(row, key) == k
  }

  ghost predicate ValidRows(key: set<string>, rows: Rows) {
    forall k :: k in rows ==> Filed(key, k, rows[k])
  }

  ghost predicate ValidDb(cat: Catalog, db: Db) {
    db.Keys == cat.Keys && forall t :: t in db ==> ValidRows(cat[t], db[t])
  }

  /** connector.go: PK is always populated and identifies the row. */
  ghost predicate WellFormed(cat: Catalog, ch: Change) {
    && Ref(ch) in cat && ch.pk.Keys == cat[Ref(ch)] && ch.pk.Keys != {}
    && !ch.op.Other?
    && (IsUpsert(ch) ==> Restrict(ch.after, ch.pk.Keys) == ch.pk && NoNull(ch.pk))
    && ch.table != "" && "" !in ch.pk && (IsUpsert(ch) ==> "" !in ch.after)
  }

  lemma OverlayKeepsKey(prior: Row, after: Row, k: Row)
    requires Restrict(prior, k.Keys) == k && Restrict(after, k.Keys) == k
    ensures Restrict(prior + after, k.Keys) == k
  {
    forall c | c in k ensures c in prior && prior[c] == k[c] && c in after && after[c] == k[c] {
      assert c in Restrict(prior, k.Keys) && c in Restrict(after, k.Keys);
    }
  }

  lemma ApplyToRowsValid(key: set<string>, rows: Rows, ch: Change)
    requires ValidRows(key, rows) && ch.pk.Keys == key
    requires IsUpsert(ch) ==> Restrict(ch.after, key) == ch.pk && NoNull(ch.pk)
    ensures ValidRows(key, ApplyToRows(rows, ch))
  {
    if IsUpsert(ch) && ch.pk in rows {
      assert Filed(key, ch.pk, rows[ch.pk]);
      OverlayKeepsKey(rows[ch.pk], ch.after, ch.pk);
    }
  }

  lemma ApplyChangeValid(cat: Catalog, db: Db, ch: Change)
    requires ValidDb(cat, db) && WellFormed(cat, ch)
    ensures ValidDb(cat, ApplyChange(db, ch))
  {
    ApplyToRowsValid(cat[Ref(ch)], db[Ref(ch)], ch);
  }

  // ---- The compile step preserves meaning ----

  function Picked(row: Row, cols: seq<string>): seq<Value>
    requires forall c :: c in cols ==> c in row
  {
    seq(|cols|, i requires 0 <= i < |cols| => row[cols[i]])
  }

  lemma {:induction false} BindRestricts(cols: seq<string>, params: seq<nat>, args: seq<Value>, m: Row)
    requires |cols| == |params| && Bound(params, args)
    requires forall i :: 0 <= i < |cols| ==>
      1 <= params[i] <= |args| && cols[i] in m && args[params[i] - 1] == m[cols[i]]
    ensures Bind(cols, params, args) == Restrict(m, Elements(cols))
  {
    if cols != [] {
      BindRestricts(cols[1..], params[1..], args, m);
      assert Elements(cols) == {cols[0]} + Elements(cols[1..]);
    }
  }

  lemma {:induction false} AssignOverlays(cols: seq<string>, excluded: Row, row: Row)
    requires forall c :: c in cols ==> c in excluded
    ensures Assign(Sets(cols), excluded, row) == row + Restrict(excluded, Elements(cols))
  {
    if cols != [] {
      assert Sets(cols)[1..] == Sets(cols[1..]);
      AssignOverlays(cols[1..], excluded, row[cols[0] := excluded[cols[0]]]);
      assert Elements(cols) == {cols[0]} + Elements(cols[1..]);
    }
  }

  lemma {:induction false} NonKeyDistinct(cols: seq<string>, pks: seq<string>)
    requires Distinct(cols)
    ensures Distinct(NonKey(cols, pks))
  {
    if cols != [] {
      NonKeyDistinct(cols[1..], pks);
      NonKeyMembers(cols[1..], pks);
      var rest := NonKey(cols[1..], pks);
      assert cols[0] !in cols[1..];
    }
  }

  /** The map-level reading of the two branches agree: DO NOTHING is the same
      upsert, because `after` then holds nothing but the key. */
  lemma OverlayNonKey(prior: Row, after: Row, k: Row)
    requires Restrict(prior, k.Keys) == k && Restrict(after, k.Keys) == k
    ensures prior + Restrict(after, after.Keys - k.Keys) == prior + after
  {
    forall c | c in k ensures c in prior && c in after && prior[c] == after[c] {
      assert c in Restrict(prior, k.Keys) && c in Restrict(after, k.Keys);
    }
  }

  lemma AssignableNonKey(cols: seq<string>, pks: seq<string>)
    requires Distinct(cols)
    ensures Assignable(ActionOf(NonKey(cols, pks)), Elements(pks))
  {
    var sets := NonKey(cols, pks);
    NonKeyMembers(cols, pks);
    NonKeyDistinct(cols, pks);
    assert forall i :: 0 <= i < |sets| ==> Sets(sets)[i].0 == sets[i] && sets[i] in sets;
  }

  lemma SetListOverlays(prior: Row, after: Row, k: Row, cols: seq<string>, pks: seq<string>)
    requires Filed(k.Keys, k, prior) && Restrict(after, k.Keys) == k
    requires Elements(cols) == after.Keys && Elements(pks) == k.Keys
    ensures Assign(Sets(NonKey(cols, pks)), after, prior) == prior + after
  {
    var sets := NonKey(cols, pks);
    NonKeyMembers(cols, pks);
    forall c ensures c in sets <==> c in after.Keys - k.Keys {
      assert c in cols <==> c in Elements(cols);
      assert c in pks <==> c in Elements(pks);
    }
    assert Elements(sets) == after.Keys - k.Keys;
    AssignOverlays(sets, after, prior);
    OverlayNonKey(prior, after, k);
  }

  lemma NothingToSet(excluded: Row, row: Row)
    ensures Assign(Sets([]), excluded, row) == row
  {
    assert Sets([]) == [];
  }

  /** What the conflict clause makes of the old row, DO NOTHING or not. */
  lemma ConflictMeaning(row: Row, k: Row, after: Row, cols: seq<string>, pks: seq<string>)
    requires Filed(k.Keys, k, row) && Restrict(after, k.Keys) == k
    requires Elements(cols) == after.Keys && Elements(pks) == k.Keys
    ensures var action := ActionOf(NonKey(cols, pks));
      (if action.DoNothing? then row else Assign(action.sets, after, row)) == row + after
  {
    SetListOverlays(row, after, k, cols, pks);
    NothingToSet(after, row);
  }

  lemma InsertRowMeaning(rows: Rows, k: Row, after: Row, cols: seq<string>, pks: seq<string>)
    requires ValidRows(k.Keys, rows) && Restrict(after, k.Keys) == k
    requires Elements(cols) == after.Keys && Elements(pks) == k.Keys
    ensures InsertRow(rows, k, after, ActionOf(NonKey(cols, pks))) == Upserted(rows, k, after)
  {
    if k in rows {
      assert Filed(k.Keys, k, rows[k]);
      ConflictMeaning(rows[k], k, after, cols, pks);
      assert Upserted(rows, k, after) == rows[k := rows[k] + after];
      assert rows[k := rows[k]] == rows;
    }
  }

  lemma NumbersBound(n: nat, args: seq<Value>)
    requires n == |args|
    ensures Bound(Numbers(n), args)
  {}

  lemma RestrictWhole(row: Row)
    ensures Restrict(row, row.Keys) == row
  {}

  lemma PickedAt(row: Row, cols: seq<string>, i: nat)
    requires (forall c :: c in cols ==> c in row) && i < |cols|
    ensures Numbers(|cols|)[i] == i + 1 && cols[i] in row && Picked(row, cols)[i] == row[cols[i]]
  {
    assert cols[i] in cols;
  }

  /** Positional arguments bind every column to its own value. */
  lemma BindsPicked(row: Row, cols: seq<string>)
    requires forall c :: c in cols ==> c in row
    ensures Bound(Numbers(|cols|), Picked(row, cols))
    ensures Bind(cols, Numbers(|cols|), Picked(row, cols)) == Restrict(row, Elements(cols))
  {
    var n, args := |cols|, Picked(row, cols);
    var params := Numbers(n);
    NumbersBound(n, args);
    forall i | 0 <= i < n ensures 1 <= params[i] <= |args| && cols[i] in row && args[params[i] - 1] == row[cols[i]] {
      PickedAt(row, cols, i);
    }
    BindRestricts(cols, params, args, row);
  }

  lemma BindsAfter(row: Row, cols: seq<string>)
    requires Elements(cols) == row.Keys && forall c :: c in cols ==> c in row
    ensures Bound(Numbers(|cols|), Picked(row, cols)) && Bind(cols, Numbers(|cols|), Picked(row, cols)) == row
  {
    BindsPicked(row, cols);
    RestrictWhole(row);
  }

  lemma UpsertMeaning(cat: Catalog, db: Db, ch: Change, cols: seq<string>, pks: seq<string>)
    requires ValidDb(cat, db) && WellFormed(cat, ch) && IsUpsert(ch)
    requires Distinct(cols) && Elements(cols) == ch.after.Keys && Elements(pks) == ch.pk.Keys
    ensures ExecInsert(cat, db, UpsertStmt(ch.schema, ch.table, cols, pks), Picked(ch.after, cols))
         == Some(ApplyChange(db, ch))
  {
    forall c | c in cols ensures c in ch.after {
      assert c in Elements(cols);
    }
    BindsAfter(ch.after, cols);
    AssignableNonKey(cols, pks);
    InsertRowMeaning(db[Ref(ch)], ch.pk, ch.after, cols, pks);
  }

  /** The server takes an upsert if and only if PK names the key columns of the table and
      After has a value, not NULL, for each of them. */
  lemma UpsertAccepted(cat: Catalog, db: Db, ch: Change, cols: seq<string>, pks: seq<string>)
    requires Ref(ch) in cat && Ref(ch) in db && Distinct(cols)
    requires Elements(cols) == ch.after.Keys && Elements(pks) == ch.pk.Keys && forall c :: c in cols ==> c in ch.after
    ensures var key := cat[Ref(ch)];
      ExecInsert(cat, db, UpsertStmt(ch.schema, ch.table, cols, pks), Picked(ch.after, cols)).Some?
      <==> ch.pk.Keys == key && forall c :: c in key ==> Cell(ch.after, c) != Null
  {
    var key := cat[Ref(ch)];
    BindsAfter(ch.after, cols);
    AssignableNonKey(cols, pks);
    var k := Restrict(ch.after, key);
    assert k.Keys == key && NoNull(k) <==> forall c :: c in key ==> c in ch.after && ch.after[c] != Null;
  }

  /** A comparison with NULL, on either side, holds of no row. */
  lemma NullMatchesNothing(row: Row, filter: seq<(string, nat)>, args: seq<Value>, i: nat)
    requires i < |filter| && 1 <= filter[i].1 <= |args|
    requires Cell(row, filter[i].0) == Null || args[filter[i].1 - 1] == Null
    ensures !Matches(row, filter, args)
  {
    assert filter[i] in filter;
  }

  /** WHERE over all key columns selects exactly the row filed under the key. */
  lemma MatchesKey(key: set<string>, k: Row, row: Row, pk: Row, pks: seq<string>)
    requires Filed(key, k, row) && pk.Keys == key && Elements(pks) == key
    ensures Matches(row, Tests(pks), Picked(pk, pks)) <==> k == pk
  {
    var tests, args := Tests(pks), Picked(pk, pks);
    forall c | c in key ensures c in row && row[c] == k[c] && row[c] != Null {
      assert c in Restrict(row, key);
    }
    if Matches(row, tests, args) {
      forall c | c in key ensures k[c] == pk[c] {
        var i :| 0 <= i < |pks| && pks[i] == c;
        assert tests[i] in tests;
      }
    }
  }

  lemma SameRemaining(rows: Rows, tests: seq<(string, nat)>, args: seq<Value>, pk: Row)
    requires forall k :: k in rows ==> (Matches(rows[k], tests, args) <==> k == pk)
    ensures Remaining(rows, tests, args) == rows - {pk}
  {}

  lemma RemainingMeaning(key: set<string>, rows: Rows, pk: Row, pks: seq<string>)
    requires ValidRows(key, rows) && pk.Keys == key && Elements(pks) == key
    ensures Remaining(rows, Tests(pks), Picked(pk, pks)) == rows - {pk}
  {
    var tests, args := Tests(pks), Picked(pk, pks);
    forall k | k in rows ensures Matches(rows[k], tests, args) <==> k == pk {
      assert Filed(key, k, rows[k]);
      MatchesKey(key, k, rows[k], pk, pks);
    }
    SameRemaining(rows, tests, args, pk);
  }

  lemma DeleteMeaning(cat: Catalog, db: Db, ch: Change, pks: seq<string>)
    requires ValidDb(cat, db) && WellFormed(cat, ch) && ch.op == Delete && Elements(pks) == ch.pk.Keys
    ensures ExecDelete(cat, db, DeleteStmt(ch.schema, ch.table, pks), Picked(ch.pk, pks)) == Some(ApplyChange(db, ch))
  {
    RemainingMeaning(cat[Ref(ch)], db[Ref(ch)], ch.pk, pks);
  }
}
