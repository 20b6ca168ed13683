/** The Postgres writer: internal/connector/postgres/apply.go and Connector.Apply. */
module Postgres {
  import opened Wrappers
  import opened Connector
  import opened Text
  import opened Sql
  import opened SqlGen
  import opened Store
  import opened Replay

  /** A query string and its positional arguments. */
  datatype Query = Query(text: string, args: seq<Value>)

  // ---- Specification: the statement of a change, and running them in order ----

  /** What a change compiles to; None for an operation code the writer does not know. */
  ghost function Compile(ch: Change): Option<Query> {
    var cols, pks := Listing(ch.after.Keys), Listing(ch.pk.Keys);
    ListingPicks(ch.after);
    ListingPicks(ch.pk);
    if IsUpsert(ch) then Some(Query(UpsertText(ch.schema, ch.table, cols, pks), Picked(ch.after, cols)))
    else if ch.op == Delete then Some(Query(DeleteText(ch.schema, ch.table, pks), Picked(ch.pk, pks)))
    else None
  }

  lemma ListingPicks(row: Row)
    ensures forall c :: c in Listing(row.Keys) <==> c in row
  {
    var cols := Listing(row.Keys);
    assert forall c :: c in cols <==> c in Elements(cols);
  }

  function ExecQuery(cat: Catalog, db: Db, q: Query): Option<Db> {
    Exec(cat, db, q.text, q.args)
  }

  /** The tables after running a batch in order, and the statements sent. */
  ghost function Run(cat: Catalog, db: Db, batch: seq<Change>): Option<(Db, seq<Query>)>
    decreases batch
  {
    if batch == [] then Some((db, []))
    else
      var n := |batch| - 1;
      var prior :- Run(cat, db, batch[..n]);
      var q :- Compile(batch[n]);
      var next :- ExecQuery(cat, prior.0, q);
      Some((next, prior.1 + [q]))
  }

  lemma UpsertNamed(cat: Catalog, ch: Change)
    requires WellFormed(cat, ch) && IsUpsert(ch)
    ensures Named(Listing(ch.after.Keys)) && Named(Listing(ch.pk.Keys))
  {
    ListingPicks(ch.after);
    ListingPicks(ch.pk);
    var c :| c in ch.pk;
    assert c in Restrict(ch.after, ch.pk.Keys);
    assert c in Listing(ch.after.Keys) && c in Listing(ch.pk.Keys);
  }

  lemma ExecParsed(cat: Catalog, db: Db, q: Query)
    ensures ExecQuery(cat, db, q) ==
      var s :- Parse(q.text);
      if s.InsertInto? then Store.ExecInsert(cat, db, s, q.args) else Store.ExecDelete(cat, db, s, q.args)
  {}

  lemma UpsertCompiled(cat: Catalog, db: Db, ch: Change)
    requires ValidDb(cat, db) && WellFormed(cat, ch) && IsUpsert(ch)
    ensures ExecQuery(cat, db, Compile(ch).value) == Some(ApplyChange(db, ch))
  {
    var cols, pks := Listing(ch.after.Keys), Listing(ch.pk.Keys);
    UpsertNamed(cat, ch);
    ListingPicks(ch.after);
    UpsertRoundTrip(ch.schema, ch.table, cols, pks);
    ExecParsed(cat, db, Compile(ch).value);
    UpsertMeaning(cat, db, ch, cols, pks);
  }

  lemma DeleteCompiled(cat: Catalog, db: Db, ch: Change)
    requires ValidDb(cat, db) && WellFormed(cat, ch) && ch.op == Delete
    ensures ExecQuery(cat, db, Compile(ch).value) == Some(ApplyChange(db, ch))
  {
    var pks := Listing(ch.pk.Keys);
    ListingPicks(ch.pk);
    var c :| c in ch.pk;
    DeleteRoundTrip(ch.schema, ch.table, pks);
    ExecParsed(cat, db, Compile(ch).value);
    DeleteMeaning(cat, db, ch, pks);
  }

  /** Generated SQL means the change: the server runs the text of every well-formed
      change, and the row-level effect is the map-level one. */
  lemma CompilePreservesMeaning(cat: Catalog, db: Db, ch: Change)
    requires ValidDb(cat, db) && WellFormed(cat, ch)
    ensures Compile(ch).Some? && ExecQuery(cat, db, Compile(ch).value) == Some(ApplyChange(db, ch))
  {
    if IsUpsert(ch) {
      UpsertCompiled(cat, db, ch);
    } else {
      DeleteCompiled(cat, db, ch);
    }
  }

  lemma KnownOps(ch: Change)
    ensures Compile(ch).None? <==> ch.op != Insert && ch.op != Update && ch.op != Delete
  {}

  ghost predicate WellFormedBatch(cat: Catalog, batch: seq<Change>) {
    forall ch :: ch in batch ==> WellFormed(cat, ch)
  }

  lemma {:induction false} RunPreservesMeaning(cat: Catalog, db: Db, batch: seq<Change>)
    requires ValidDb(cat, db) && WellFormedBatch(cat, batch)
    ensures Run(cat, db, batch).Some? && Run(cat, db, batch).value.0 == ApplyAll(db, batch)
    ensures ValidDb(cat, ApplyAll(db, batch))
    decreases batch
  {
    if batch != [] {
      var n := |batch| - 1;
      RunPreservesMeaning(cat, db, batch[..n]);
      var prior := ApplyAll(db, batch[..n]);
      CompilePreservesMeaning(cat, prior, batch[n]);
      ApplyChangeValid(cat, prior, batch[n]);
      ApplyAllSnoc(db, batch);
    }
  }

  // ---- The database as the writer sees it: dbPool and dbTx ----

  /** What the server tells the client about COMMIT, and what it did. */
  datatype CommitOutcome = Committed | NotCommitted | CommittedUnreported

  /** The server. `sent` holds the statements of the current transaction; the other
      fields say what will go wrong in it, statement by statement. */
  class Pool {
    const cat: Catalog
    var db: Db
    var sent: seq<Query>
    const beginFails: bool
    const execFails: seq<bool>
    const commit: CommitOutcome

    constructor (cat: Catalog, db: Db, beginFails: bool, execFails: seq<bool>, commit: CommitOutcome)
      ensures this.cat == cat && this.db == db && sent == []
      ensures this.beginFails == beginFails && this.execFails == execFails && this.commit == commit
    {
      this.cat, this.db, sent := cat, db, [];
      this.beginFails, this.execFails, this.commit := beginFails, execFails, commit;
    }

    predicate FailsAt(i: nat) {
      i < |execFails| && execFails[i]
    }

    /** Nothing but COMMIT can go wrong. */
    ghost predicate Faultless() {
      !beginFails && forall i :: !FailsAt(i)
    }

    method Begin() returns (tx: Option<Tx>)
      modifies this`sent
      ensures tx.None? <==> beginFails
      ensures if tx.None? then sent == old(sent)
              else fresh(tx.value) && tx.value.pool == this && tx.value.work == db && sent == []
    {
      if beginFails {
        return None;
      }
      sent := [];
      var t := new Tx(this);
      tx := Some(t);
    }
  }

  class Tx {
    const pool: Pool
    var work: Db            // the tables as this transaction sees them

    constructor (pool: Pool)
      ensures this.pool == pool && work == pool.db
    {
      this.pool, work := pool, pool.db;
    }

    ghost predicate Fails(q: Query)
      reads this, pool
    {
      pool.FailsAt(|pool.sent|) || ExecQuery(pool.cat, work, q).None?
    }

    method Exec(text: string, args: seq<Value>) returns (ok: bool)
      modifies this, pool`sent
      ensures pool.sent == old(pool.sent) + [Query(text, args)]
      ensures ok == !old(Fails(Query(text, args)))
      ensures if ok then Some(work) == Store.Exec(pool.cat, old(work), text, args) else work == old(work)
    {
      var injected := pool.FailsAt(|pool.sent|);
      var result := Store.Exec(pool.cat, work, text, args);
      pool.sent := pool.sent + [Query(text, args)];
      ok := !injected && result.Some?;
      if ok {
        work := result.value;
      }
    }

    method Commit() returns (ok: bool)
      modifies pool`db
      ensures ok == pool.commit.Committed?
      ensures pool.db == if pool.commit.NotCommitted? then old(pool.db) else work
    {
      if !pool.commit.NotCommitted? {
        pool.db := work;
      }
      ok := pool.commit.Committed?;
    }
  }

  // ---- apply.go ----

  /** sortedKeys: the keys in whatever order the map yields them, then sorted. */
  method SortedKeys(m: Row) returns (keys: seq<string>)
    ensures keys == Listing(m.Keys)
  {
    keys := [];
    var rest := m.Keys;
    while rest != {}
      invariant Distinct(keys) && Elements(keys) == m.Keys - rest && rest <= m.Keys
      decreases rest
    {
      var k :| k in rest;
      assert k !in keys by {
        assert k !in Elements(keys);
      }
      assert Elements(keys + [k]) == Elements(keys) + {k};
      keys := keys + [k];
      rest := rest - {k};
    }
    keys := SortStrings(keys);
    SortedIsUnique(keys, Listing(m.Keys));
  }

  lemma {:induction false} NonKeyAppend(cols: seq<string>, pks: seq<string>, col: string)
    ensures NonKey(cols + [col], pks) == NonKey(cols, pks) + NonKey([col], pks)
  {
    if cols == [] {
      assert [] + [col] == [col];
    } else {
      assert (cols + [col])[1..] == cols[1..] + [col];
      NonKeyAppend(cols[1..], pks, col);
    }
  }

  method SetList(cols: seq<string>, pkCols: seq<string>) returns (setClauses: seq<string>)
    ensures setClauses == SetClauses(NonKey(cols, pkCols))
  {
    var pkSet: set<string> := {};
    for i := 0 to |pkCols|
      invariant pkSet == Elements(pkCols[..i])
    {
      pkSet := pkSet + {pkCols[i]};
      assert pkCols[..i + 1] == pkCols[..i] + [pkCols[i]];
    }
    assert pkCols[..|pkCols|] == pkCols;
    setClauses := [];
    for i := 0 to |cols|
      invariant setClauses == SetClauses(NonKey(cols[..i], pkCols))
    {
      assert cols[..i + 1] == cols[..i] + [cols[i]];
      NonKeyAppend(cols[..i], pkCols, cols[i]);
      if cols[i] !in pkSet {
        setClauses := setClauses + [SetClause(cols[i])];
      }
    }
    assert cols[..|cols|] == cols;
  }

  method QuoteAll(cols: seq<string>) returns (quoted: seq<string>)
    ensures quoted == QuotedAll(cols)
  {
    quoted := [];
    for i := 0 to |cols|
      invariant quoted == QuotedAll(cols[..i])
    {
      quoted := quoted + [QuoteIdent(cols[i])];
    }
    assert cols[..|cols|] == cols;
  }

  method PositionalArgs(row: Row, cols: seq<string>) returns (placeholders: seq<string>, vals: seq<Value>)
    requires forall c :: c in cols ==> c in row
    ensures placeholders == Placeholders(|cols|) && vals == Picked(row, cols)
  {
    placeholders, vals := [], [];
    for i := 0 to |cols|
      invariant placeholders == Placeholders(i)
      invariant |vals| == i && forall j :: 0 <= j < i ==> vals[j] == row[cols[j]]
    {
      placeholders := placeholders + [Placeholder(i + 1)];
      vals := vals + [row[cols[i]]];
    }
  }

  /** The text and arguments execUpsert hands to the transaction. */
  method BuildUpsert(ch: Change) returns (sql: string, vals: seq<Value>)
    requires IsUpsert(ch)
    ensures Compile(ch) == Some(Query(sql, vals))
  {
    var cols := SortedKeys(ch.after);
    var pkCols := SortedKeys(ch.pk);
    ListingPicks(ch.after);
    var placeholders;
    placeholders, vals := PositionalArgs(ch.after, cols);
    var setClauses := SetList(cols, pkCols);
    var quotedPKs := QuoteAll(pkCols);
    var quotedCols := QuoteAll(cols);
    var table := QuoteTable(ch.schema, ch.table);
    var action := if |setClauses| == 0 then ") DO NOTHING" else ") DO UPDATE SET " + Join(setClauses, ", ");
    assert action == ActionText(NonKey(cols, pkCols));
    sql := "INSERT INTO " + (table + (" (" + (Join(quotedCols, ", ") + (") VALUES (" +
      (Join(placeholders, ", ") + (") ON CONFLICT (" + (Join(quotedPKs, ", ") + action)))))));
  }

  method WhereList(pk: Row, pkCols: seq<string>) returns (whereClauses: seq<string>, vals: seq<Value>)
    requires forall c :: c in pkCols ==> c in pk
    ensures whereClauses == TestClauses(pkCols) && vals == Picked(pk, pkCols)
  {
    whereClauses, vals := [], [];
    for i := 0 to |pkCols|
      invariant |whereClauses| == i && forall j :: 0 <= j < i ==> whereClauses[j] == TestClause(pkCols[j], j + 1)
      invariant |vals| == i && forall j :: 0 <= j < i ==> vals[j] == pk[pkCols[j]]
    {
      whereClauses := whereClauses + [TestClause(pkCols[i], i + 1)];
      vals := vals + [pk[pkCols[i]]];
    }
  }

  /** The text and arguments execDelete hands to the transaction. */
  method BuildDelete(ch: Change) returns (sql: string, vals: seq<Value>)
    requires ch.op == Delete
    ensures Compile(ch) == Some(Query(sql, vals))
  {
    var pkCols := SortedKeys(ch.pk);
    ListingPicks(ch.pk);
    var whereClauses;
    whereClauses, vals := WhereList(ch.pk, pkCols);
    sql := "DELETE FROM " + (QuoteTable(ch.schema, ch.table) + (" WHERE " + Join(whereClauses, " AND ")));
  }

  method ExecUpsert(tx: Tx, ch: Change) returns (ok: bool)
    requires IsUpsert(ch)
    modifies tx, tx.pool`sent
    ensures tx.pool.sent == old(tx.pool.sent) + [Compile(ch).value]
    ensures ok == !old(tx.Fails(Compile(ch).value))
    ensures if ok then Some(tx.work) == ExecQuery(tx.pool.cat, old(tx.work), Compile(ch).value)
            else tx.work == old(tx.work)
  {
    var sql, vals := BuildUpsert(ch);
    ok := tx.Exec(sql, vals);
  }

  method ExecDelete(tx: Tx, ch: Change) returns (ok: bool)
    requires ch.op == Delete
    modifies tx, tx.pool`sent
    ensures tx.pool.sent == old(tx.pool.sent) + [Compile(ch).value]
    ensures ok == !old(tx.Fails(Compile(ch).value))
    ensures if ok then Some(tx.work) == ExecQuery(tx.pool.cat, old(tx.work), Compile(ch).value)
            else tx.work == old(tx.work)
  {
    var sql, vals := BuildDelete(ch);
    ok := tx.Exec(sql, vals);
  }

  /** The statement a change leads to, if its operation code is known. */
  ghost function Attempted(ch: Change): seq<Query> {
    if Compile(ch).Some? then [Compile(ch).value] else []
  }

  /** The run stopped at change `i`: everything before it ran, it failed for a
      reason, and nothing after it was sent. */
  ghost predicate Stopped(pool: Pool, start: Db, batch: seq<Change>, i: nat, sent: seq<Query>) {
    && i < |batch| && i <= |sent|
    && var prior := Run(pool.cat, start, batch[..i]);
    && prior.Some? && prior.value.1 == sent[..i] && sent[i..] == Attempted(batch[i])
    && forall q :: q in sent[i..] ==> pool.FailsAt(i) || ExecQuery(pool.cat, prior.value.0, q).None?
  }

  /** On well-formed changes no statement is refused: only a fault stops a batch. */
  lemma OnlyFaultsStop(pool: Pool, start: Db, batch: seq<Change>, i: nat, sent: seq<Query>)
    requires ValidDb(pool.cat, start) && WellFormedBatch(pool.cat, batch)
    ensures Stopped(pool, start, batch, i, sent) ==> pool.FailsAt(i)
  {
    if Stopped(pool, start, batch, i, sent) {
      assert batch[i] in batch && forall ch :: ch in batch[..i] ==> ch in batch;
      RunPreservesMeaning(pool.cat, start, batch[..i]);
      CompilePreservesMeaning(pool.cat, ApplyAll(start, batch[..i]), batch[i]);
      assert Attempted(batch[i]) == [Compile(batch[i]).value];
      assert Compile(batch[i]).value in sent[i..];
    }
  }

  lemma {:induction false} RunStep(cat: Catalog, start: Db, batch: seq<Change>, i: nat)
    requires i < |batch|
    ensures Run(cat, start, batch[..i + 1]) ==
      var prior :- Run(cat, start, batch[..i]);
      var q :- Compile(batch[i]);
      var next :- ExecQuery(cat, prior.0, q);
      Some((next, prior.1 + [q]))
  {
    assert batch[..i + 1][..i] == batch[..i];
  }

  lemma {:induction false} StepFails(cat: Catalog, start: Db, batch: seq<Change>, i: nat)
    requires i < |batch|
    ensures Run(cat, start, batch[..i]).None? || batch[i].op.Other? ==> Run(cat, start, batch[..i + 1]).None?
  {
    KnownOps(batch[i]);
    RunStep(cat, start, batch, i);
  }

  lemma {:induction false} Persists(failed: seq<bool>, i: nat, m: nat)
    requires i <= m < |failed| && failed[i]
    requires forall j :: 0 <= j < |failed| - 1 && failed[j] ==> failed[j + 1]
    ensures failed[m]
    decreases m
  {
    if i < m {
      Persists(failed, i, m - 1);
    }
  }

  ghost predicate Fails(cat: Catalog, start: Db, batch: seq<Change>, j: nat) {
    j <= |batch| && Run(cat, start, batch[..j]).None?
  }

  lemma {:induction false} FailsOn(cat: Catalog, start: Db, batch: seq<Change>, j: nat)
    requires j < |batch| && (Fails(cat, start, batch, j) || batch[j].op.Other?)
    ensures Fails(cat, start, batch, j + 1)
  {
    StepFails(cat, start, batch, j);
  }

  lemma {:induction false} FailsAtEnd(cat: Catalog, start: Db, batch: seq<Change>)
    requires Fails(cat, start, batch, |batch|)
    ensures Run(cat, start, batch).None?
  {
    assert batch[..|batch|] == batch;
  }

  ghost function FailedPrefixes(cat: Catalog, start: Db, batch: seq<Change>): (r: seq<bool>)
    ensures |r| == |batch| + 1 && forall j :: 0 <= j <= |batch| ==> r[j] == Fails(cat, start, batch, j)
  {
    seq(|batch| + 1, j requires 0 <= j => Fails(cat, start, batch, j))
  }

  /** An operation code other than the three fails its batch, whatever else is in it. */
  lemma {:induction false} UnknownOpFails(cat: Catalog, start: Db, batch: seq<Change>, i: nat)
    requires i < |batch| && batch[i].op.Other?
    ensures Run(cat, start, batch).None?
  {
    forall j | 0 <= j < |batch| && (Fails(cat, start, batch, j) || j == i) ensures Fails(cat, start, batch, j + 1) {
      FailsOn(cat, start, batch, j);
    }
    Persists(FailedPrefixes(cat, start, batch), i + 1, |batch|);
    FailsAtEnd(cat, start, batch);
  }

  lemma SplitAt(sent: seq<Query>, more: seq<Query>)
    ensures (sent + more)[..|sent|] == sent && (sent + more)[|sent|..] == more
  {}

  /** One turn of applyBatch's switch. */
  method ExecChange(tx: Tx, ch: Change) returns (ok: bool)
    modifies tx, tx.pool`sent
    ensures ok == (Compile(ch).Some? && !old(tx.Fails(Compile(ch).value)))
    ensures tx.pool.sent == old(tx.pool.sent) + Attempted(ch)
    ensures if ok then ExecQuery(tx.pool.cat, old(tx.work), Compile(ch).value) == Some(tx.work)
            else tx.work == old(tx.work)
  {
    match ch.op
    case Insert | Update => ok := ExecUpsert(tx, ch);
    case Delete => ok := ExecDelete(tx, ch);
    case Other(_) => ok := false;
  }

  /** applyBatch: the changes in order, up to the first that fails. */
  method ApplyBatch(tx: Tx, batch: seq<Change>) returns (err: Option<nat>)
    requires tx.pool.sent == []
    modifies tx, tx.pool`sent
    ensures err.None? ==> Run(tx.pool.cat, old(tx.work), batch) == Some((tx.work, tx.pool.sent))
    ensures err.Some? ==> Stopped(tx.pool, old(tx.work), batch, err.value, tx.pool.sent)
  {
    for i := 0 to |batch|
      invariant |tx.pool.sent| == i && Run(tx.pool.cat, old(tx.work), batch[..i]) == Some((tx.work, tx.pool.sent))
    {
      ghost var sent := tx.pool.sent;
      var ok := ExecChange(tx, batch[i]);
      if !ok {
        SplitAt(sent, Attempted(batch[i]));
        return Some(i);
      }
      RunStep(tx.pool.cat, old(tx.work), batch, i);
    }
    assert batch[..|batch|] == batch;
    err := None;
  }

  datatype ApplyError = BeginFailed | ChangeFailed(index: nat) | CommitFailed

  /** Every statement of the batch was sent, and the server took each of them. */
  ghost predicate Sent(pool: Pool, start: Db, batch: seq<Change>)
    reads pool
  {
    Run(pool.cat, start, batch).Some? && pool.sent == Run(pool.cat, start, batch).value.1
  }

  ghost predicate Landed(pool: Pool, start: Db, batch: seq<Change>)
    reads pool
  {
    Sent(pool, start, batch) && pool.db == Run(pool.cat, start, batch).value.0
  }

  /** What the rest of the system may rely on: all of the batch or none of it, and all
      of it if Apply says so. An error does not mean that nothing landed. */
  ghost predicate Outcome(db: Db, batch: seq<Change>, after: Db, ok: bool) {
    && (after == db || after == ApplyAll(db, batch))
    && (ok ==> after == ApplyAll(db, batch))
  }

  /** Connector.Apply: one transaction, rolled back on the first error. */
  method Apply(pool: Pool, batch: seq<Change>) returns (err: Option<ApplyError>)
    modifies pool
    ensures batch == [] ==> err.None? && pool.db == old(pool.db) && pool.sent == old(pool.sent)
    ensures err.None? && batch != [] ==> pool.commit.Committed? && Landed(pool, old(pool.db), batch)
    ensures err == Some(BeginFailed) <==> batch != [] && pool.beginFails
    ensures err.Some? && !err.value.CommitFailed? ==> pool.db == old(pool.db)
    ensures err.Some? && err.value.ChangeFailed? ==>
      Stopped(pool, old(pool.db), batch, err.value.index, pool.sent)
    ensures err == Some(CommitFailed) ==> !pool.commit.Committed? && Sent(pool, old(pool.db), batch)
    ensures err == Some(CommitFailed) ==>
      if pool.commit.NotCommitted? then pool.db == old(pool.db) else Landed(pool, old(pool.db), batch)
    ensures ValidDb(pool.cat, old(pool.db)) && WellFormedBatch(pool.cat, batch) ==>
      && Outcome(old(pool.db), batch, pool.db, err.None?)
      && (err.Some? && err.value.ChangeFailed? ==> pool.FailsAt(err.value.index))
      && (batch != [] && pool.Faultless() ==>
            && (err.None? <==> pool.commit.Committed?)
            && pool.db == if pool.commit.NotCommitted? then old(pool.db) else ApplyAll(old(pool.db), batch))
  {
    if |batch| == 0 {
      return None;
    }
    var begun := pool.Begin();
    if begun.None? {
      return Some(BeginFailed);
    }
    var tx := begun.value;
    var failed := ApplyBatch(tx, batch);
    if failed.Some? {
      if ValidDb(pool.cat, pool.db) && WellFormedBatch(pool.cat, batch) {
        OnlyFaultsStop(pool, pool.db, batch, failed.value, pool.sent);
      }
      return Some(ChangeFailed(failed.value));
    }
    if ValidDb(pool.cat, pool.db) && WellFormedBatch(pool.cat, batch) {
      RunPreservesMeaning(pool.cat, pool.db, batch);
    }
    var ok := tx.Commit();
    err := if ok then None else Some(CommitFailed);
  }
}
