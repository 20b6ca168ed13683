/** The resumable table scan of internal/connector/sqlserver/initialsync.go. */
module InitialSync {
  import opened Wrappers
  import opened Connector
  import opened Text
  import opened Store

  // ---- scanTable ----

  /** SELECT * with an optional `WHERE [col] > @lastpk` and an ORDER BY list. A key column
      missing from the cursor binds NULL, as reading a Go map does. */
  datatype Query = Query(above: Option<(string, Value)>, orderBy: seq<string>)

  function QueryFor(pkCols: seq<string>, lastPK: Option<Row>): Query {
    Query(if lastPK.Some? && |pkCols| == 1 then Some((pkCols[0], Cell(lastPK.value, pkCols[0]))) else None, pkCols)
  }

  method ScanTable(pkCols: seq<string>, lastPK: Option<Row>) returns (q: Query)
    ensures q == QueryFor(pkCols, lastPK)
  {
    q := Query(None, []);
    if lastPK.Some? && |pkCols| == 1 {
      q := q.(above := Some((pkCols[0], Cell(lastPK.value, pkCols[0]))));
    }
    if |pkCols| > 0 {
      q := q.(orderBy := [pkCols[0]]);
      for i := 1 to |pkCols|
        invariant q == QueryFor(pkCols, lastPK).(orderBy := pkCols[..i])
      {
        q := q.(orderBy := q.orderBy + [pkCols[i]]);
      }
    }
  }

  // ---- rowStream ----

  datatype Fetch = Got(row: Row) | EOF | Broken

  function RowOf(cols: seq<string>, vals: seq<Value>): Row
    requires |cols| == |vals|
  {
    if cols == [] then map[] else RowOf(cols[..|cols| - 1], vals[..|cols| - 1])[cols[|cols| - 1] := vals[|cols| - 1]]
  }

  /** The row maps every column to its own value; of two equal names the later one wins. */
  lemma {:induction false} RowOfCells(cols: seq<string>, vals: seq<Value>, i: nat)
    requires i < |cols| == |vals| && cols[i] !in cols[i + 1..]
    ensures cols[i] in RowOf(cols, vals) && RowOf(cols, vals)[cols[i]] == vals[i]
  {
    var n := |cols| - 1;
    if i < n {
      assert cols[n] == cols[i + 1..][n - i - 1];
      assert cols[..n][i + 1..] == cols[i + 1..][..n - i - 1];
      RowOfCells(cols[..n], vals[..n], i);
    }
  }

  lemma {:induction false} RowOfKeys(cols: seq<string>, vals: seq<Value>)
    requires |cols| == |vals|
    ensures RowOf(cols, vals).Keys == Elements(cols)
  {
    if cols != [] {
      var n := |cols| - 1;
      RowOfKeys(cols[..n], vals[..n]);
      assert cols == cols[..n] + [cols[n]];
    }
  }

  /** An open result set; `breaksAt` is where the connection is lost, if it is. */
  class RowStream {
    const columns: seq<string>
    const data: seq<seq<Value>>
    const breaksAt: Option<nat>
    var pos: nat

    constructor (columns: seq<string>, data: seq<seq<Value>>, breaksAt: Option<nat>)
      ensures this.columns == columns && this.data == data && this.breaksAt == breaksAt && pos == 0
    {
      this.columns, this.data, this.breaksAt, pos := columns, data, breaksAt, 0;
    }

    method Next() returns (r: Fetch)
      requires forall i :: 0 <= i < |data| ==> |data[i]| == |columns|
      requires pos <= |data|
      modifies this
      ensures r == if breaksAt == Some(old(pos)) then Broken
                   else if old(pos) == |data| then EOF
                   else Got(RowOf(columns, data[old(pos)]))
      ensures pos == old(pos) + if r.Got? then 1 else 0
    {
      if breaksAt == Some(pos) {
        return Broken;
      }
      if pos == |data| {
        return EOF;
      }
      var vals, row := data[pos], map[];
      for i := 0 to |columns|
        invariant row == RowOf(columns[..i], vals[..i])
      {
        row := row[columns[i] := vals[i]];
        assert columns[..i + 1][..i] == columns[..i] && vals[..i + 1][..i] == vals[..i];
      }
      assert columns[..|columns|] == columns && vals[..|columns|] == vals;
      pos := pos + 1;
      r := Got(row);
    }
  }

  // ---- What the database answers ----

  type Order = (Value, Value) -> bool

  /** The database's order on key values; a collation may put distinct values level. */
  ghost predicate StrictOrder(less: Order) {
    && (forall a :: !less(a, a))
    && (forall a, b, c :: less(a, b) && less(b, c) ==> less(a, c))
  }

  predicate Passes(less: Order, q: Query, row: Row) {
    q.above.Some? ==>
      var (col, v) := q.above.value;
      v != Null && Cell(row, col) != Null && less(v, Cell(row, col))
  }

  /** Strictly before, on the first of the columns where the two are not level. */
  predicate Before(less: Order, cols: seq<string>, r: Row, s: Row) {
    cols != [] &&
    (less(Cell(r, cols[0]), Cell(s, cols[0]))
     || (!less(Cell(s, cols[0]), Cell(r, cols[0])) && Before(less, cols[1..], r, s)))
  }

  ghost predicate SortedBy(less: Order, rows: seq<Row>, cols: seq<string>) {
    forall i, j :: 0 <= i < j < |rows| ==> !Before(less, cols, rows[j], rows[i])
  }

  /** Every matching row once, in the order asked for. */
  ghost predicate Answers(less: Order, q: Query, table: set<Row>, res: seq<Row>) {
    && Distinct(res)
    && (forall r :: r in res <==> r in table && Passes(less, q, r))
    && SortedBy(less, res, q.orderBy)
  }

  ghost predicate SameKey(less: Order, pkCols: seq<string>, r: Row, s: Row) {
    forall c :: c in pkCols ==> !less(Cell(r, c), Cell(s, c)) && !less(Cell(s, c), Cell(r, c))
  }

  /** A primary key: never NULL, and no two rows are level on all its columns. */
  ghost predicate PrimaryKey(less: Order, table: set<Row>, pkCols: seq<string>) {
    && (forall r, c :: r in table && c in pkCols ==> Cell(r, c) != Null)
    && (forall r, s :: r in table && s in table && SameKey(less, pkCols, r, s) ==> r == s)
  }

  // ---- Runs: sessions, each resumed from the last delivered key ----

  /** One call of InitialSync: its result set, and how many rows of it were delivered
      before the interruption (all of them when the stream reached EOF). */
  datatype Session = Session(res: seq<Row>, taken: nat)

  predicate Finished(s: Session) {
    s.taken == |s.res|
  }

  function AllRows(columns: seq<string>, data: seq<seq<Value>>): seq<Row>
    requires forall i :: 0 <= i < |data| ==> |data[i]| == |columns|
  {
    seq(|data|, i requires 0 <= i < |data| => RowOf(columns, data[i]))
  }

  /** The loop the RowStream interface documents for its callers: Next until io.EOF or an
      error, or until the caller has enough. What it yields is a session. */
  method Consume(stream: RowStream, limit: nat) returns (rows: seq<Row>, eof: bool)
    requires stream.pos == 0 && forall i :: 0 <= i < |stream.data| ==> |stream.data[i]| == |stream.columns|
    modifies stream
    ensures var s := Session(AllRows(stream.columns, stream.data), |rows|);
      s.taken <= |s.res| && rows == s.res[..s.taken] && (eof ==> Finished(s))
    ensures |rows| <= limit && (!eof ==> |rows| == limit || stream.breaksAt == Some(|rows|))
    ensures forall r :: r in rows ==> r.Keys == Elements(stream.columns)
  {
    rows, eof := [], false;
    ghost var all := AllRows(stream.columns, stream.data);
    while |rows| < limit
      invariant |rows| <= limit && stream.pos == |rows| <= |stream.data| && rows == all[..|rows|]
      invariant forall r :: r in rows ==> r.Keys == Elements(stream.columns)
      decreases limit - |rows|
    {
      var r := stream.Next();
      match r
      case EOF =>
        eof := true;
        return;
      case Broken => return;
      case Got(row) =>
        RowOfKeys(stream.columns, stream.data[|rows|]);
        rows := rows + [row];
    }
  }

  function CursorAfter(pkCols: seq<string>, delivered: seq<Row>): Option<Row> {
    if delivered == [] then None else Some(Restrict(delivered[|delivered| - 1], Elements(pkCols)))
  }

  ghost predicate Resumes(less: Order, table: set<Row>, pkCols: seq<string>, delivered: seq<Row>, s: Session) {
    s.taken <= |s.res| && Answers(less, QueryFor(pkCols, CursorAfter(pkCols, delivered)), table, s.res)
  }

  ghost predicate Runs(less: Order, table: set<Row>, pkCols: seq<string>, delivered: seq<Row>, sessions: seq<Session>)
    decreases sessions
  {
    sessions != [] ==>
      && Resumes(less, table, pkCols, delivered, sessions[0])
      && Runs(less, table, pkCols, delivered + sessions[0].res[..sessions[0].taken], sessions[1..])
  }

  /** What all sessions delivered, one after the other. */
  function Deliveries(sessions: seq<Session>): seq<Row> {
    if sessions == [] then []
    else
      var s := sessions[0];
      (if s.taken <= |s.res| then s.res[..s.taken] else s.res) + Deliveries(sessions[1..])
  }

  /** An initial segment of the sorted table: in order, and nothing below is missing. */
  ghost predicate Segment(less: Order, table: set<Row>, col: string, rows: seq<Row>) {
    && (forall i, j :: 0 <= i < j < |rows| ==> less(Cell(rows[i], col), Cell(rows[j], col)))
    && (forall r, s :: r in rows && s in table && less(Cell(s, col), Cell(r, col)) ==> s in rows)
  }

  lemma {:induction false} Comparable(less: Order, cols: seq<string>, r: Row, s: Row)
    requires !SameKey(less, cols, r, s)
    ensures Before(less, cols, r, s) || Before(less, cols, s, r)
  {
    if !less(Cell(r, cols[0]), Cell(s, cols[0])) && !less(Cell(s, cols[0]), Cell(r, cols[0])) {
      Comparable(less, cols[1..], r, s);
    }
  }

  /** Rows are returned in primary key order, whatever the number of key columns. */
  lemma SessionAscends(less: Order, table: set<Row>, pkCols: seq<string>, delivered: seq<Row>, s: Session)
    requires PrimaryKey(less, table, pkCols) && Resumes(less, table, pkCols, delivered, s)
    ensures forall i, j :: 0 <= i < j < |s.res| ==> Before(less, pkCols, s.res[i], s.res[j])
  {
    forall i, j | 0 <= i < j < |s.res| ensures Before(less, pkCols, s.res[i], s.res[j]) {
      assert s.res[i] != s.res[j] && s.res[i] in s.res && s.res[j] in s.res;
      Comparable(less, pkCols, s.res[i], s.res[j]);
    }
  }

  lemma OneColumn(less: Order, col: string, r: Row, s: Row)
    ensures Before(less, [col], r, s) <==> less(Cell(r, col), Cell(s, col))
  {
    assert [col][1..] == [];
  }

  /** A one-column result set is strictly increasing and skips nothing it may hold. */
  lemma AnswerIsSegment(less: Order, q: Query, table: set<Row>, col: string, res: seq<Row>, n: nat)
    requires StrictOrder(less) && PrimaryKey(less, table, [col]) && n <= |res|
    requires q.orderBy == [col] && Answers(less, q, table, res)
    ensures forall i, j :: 0 <= i < j < |res| ==> less(Cell(res[i], col), Cell(res[j], col))
    ensures forall r, s :: r in res[..n] && s in res && less(Cell(s, col), Cell(r, col)) ==> s in res[..n]
  {
    forall i, j | 0 <= i < j < |res| ensures less(Cell(res[i], col), Cell(res[j], col)) {
      assert res[i] != res[j] && res[i] in res && res[j] in res;
      assert !SameKey(less, [col], res[i], res[j]);
      OneColumn(less, col, res[j], res[i]);
    }
    forall r, s | r in res[..n] && s in res && less(Cell(s, col), Cell(r, col)) ensures s in res[..n] {
      var i :| 0 <= i < n && res[..n][i] == r;
      var j :| 0 <= j < |res| && res[j] == s;
      assert j < i;
      assert res[..n][j] == s;
    }
  }

  /** What a resumed one-column query selects: the rows above all that was delivered. */
  lemma ResumeSelects(less: Order, table: set<Row>, col: string, delivered: seq<Row>, s: Session)
    requires StrictOrder(less) && PrimaryKey(less, table, [col]) && delivered != []
    requires (forall r :: r in delivered ==> r in table) && Segment(less, table, col, delivered)
    requires Resumes(less, table, [col], delivered, s)
    ensures forall d, r :: d in delivered && r in s.res ==> less(Cell(d, col), Cell(r, col))
    ensures forall r :: r in table ==> r in delivered || r in s.res
  {
    var last := delivered[|delivered| - 1];
    var q := QueryFor([col], CursorAfter([col], delivered));
    assert last in delivered && q.above == Some((col, Cell(last, col)));
    forall r | r in table ensures r in delivered || r in s.res {
      assert SameKey(less, [col], r, last) ==> r == last;
    }
    forall d, r | d in delivered && r in s.res ensures less(Cell(d, col), Cell(r, col)) {
      assert Passes(less, q, r) && less(Cell(last, col), Cell(r, col));
      var i :| 0 <= i < |delivered| && delivered[i] == d;
      assert i < |delivered| - 1 ==> less(Cell(d, col), Cell(last, col));
    }
  }

  lemma SegmentsJoin(less: Order, table: set<Row>, col: string, a: seq<Row>, b: seq<Row>, res: seq<Row>)
    requires Segment(less, table, col, a)
    requires forall i, j :: 0 <= i < j < |b| ==> less(Cell(b[i], col), Cell(b[j], col))
    requires forall r, s :: r in b && s in res && less(Cell(s, col), Cell(r, col)) ==> s in b
    requires forall d, r :: d in a && r in b ==> less(Cell(d, col), Cell(r, col))
    requires forall r :: r in table ==> r in a || r in res
    ensures Segment(less, table, col, a + b)
  {
    var all := a + b;
    forall i, j | 0 <= i < j < |all| ensures less(Cell(all[i], col), Cell(all[j], col)) {
      if i < |a| <= j {
        assert a[i] in a && b[j - |a|] in b;
      }
    }
  }

  /** A resumed one-column scan goes on where the deliveries stopped. */
  lemma ResumeExtends(less: Order, table: set<Row>, col: string, delivered: seq<Row>, s: Session)
    requires StrictOrder(less) && PrimaryKey(less, table, [col])
    requires (forall r :: r in delivered ==> r in table) && Segment(less, table, col, delivered)
    requires Resumes(less, table, [col], delivered, s)
    ensures Segment(less, table, col, delivered + s.res[..s.taken])
    ensures forall r :: r in s.res ==> r !in delivered
    ensures forall r :: r in table ==> r in delivered || r in s.res
  {
    AnswerIsSegment(less, QueryFor([col], CursorAfter([col], delivered)), table, col, s.res, s.taken);
    if delivered != [] {
      ResumeSelects(less, table, col, delivered, s);
    }
    SegmentsJoin(less, table, col, delivered, s.res[..s.taken], s.res);
  }

  /** Any other key: the cursor is ignored, and the scan starts over. */
  lemma CompositeStartsOver(less: Order, table: set<Row>, pkCols: seq<string>, delivered: seq<Row>, s: Session)
    requires |pkCols| != 1 && Resumes(less, table, pkCols, delivered, s)
    ensures Elements(s.res) == table
  {}

  /** InitialSync is documented to skip the rows at or below LastPK. After an interrupted
      session, it does so exactly when the key has one column. */
  lemma SkipsDelivered(less: Order, table: set<Row>, pkCols: seq<string>, first: Session, s: Session)
    requires StrictOrder(less) && PrimaryKey(less, table, pkCols) && first.taken > 0
    requires Resumes(less, table, pkCols, [], first) && Resumes(less, table, pkCols, first.res[..first.taken], s)
    ensures (forall r :: r in s.res ==> r !in first.res[..first.taken]) <==> |pkCols| == 1
  {
    var delivered := first.res[..first.taken];
    assert delivered[0] in delivered && delivered[0] in first.res;
    if |pkCols| == 1 {
      assert pkCols == [pkCols[0]] && [] + delivered == delivered;
      ResumeExtends(less, table, pkCols[0], [], first);
      ResumeExtends(less, table, pkCols[0], delivered, s);
    } else {
      CompositeStartsOver(less, table, pkCols, delivered, s);
    }
  }

  /** What holds of the deliveries at any time: rows of the table and, for a one-column
      key, an initial segment of it. */
  ghost predicate Sound(less: Order, table: set<Row>, pkCols: seq<string>, delivered: seq<Row>) {
    && (forall r :: r in delivered ==> r in table)
    && (|pkCols| == 1 ==> Segment(less, table, pkCols[0], delivered))
  }

  lemma SessionSound(less: Order, table: set<Row>, pkCols: seq<string>, delivered: seq<Row>, s: Session)
    requires StrictOrder(less) && PrimaryKey(less, table, pkCols)
    requires Sound(less, table, pkCols, delivered) && Resumes(less, table, pkCols, delivered, s)
    ensures Sound(less, table, pkCols, delivered + s.res[..s.taken])
    ensures Finished(s) ==> forall r :: r in table ==> r in delivered + s.res[..s.taken]
  {
    assert forall r :: r in s.res[..s.taken] ==> r in s.res;
    if |pkCols| == 1 {
      assert pkCols == [pkCols[0]];
      ResumeExtends(less, table, pkCols[0], delivered, s);
    } else {
      CompositeStartsOver(less, table, pkCols, delivered, s);
      assert forall r :: r in table ==> r in Elements(s.res);
    }
    assert Finished(s) ==> s.res[..s.taken] == s.res;
  }

  /** Whatever the key, what is delivered are rows of the table, and all of them once a
      session has finished. */
  lemma {:induction false} EveryRow(less: Order, table: set<Row>, pkCols: seq<string>,
      delivered: seq<Row>, sessions: seq<Session>)
    requires StrictOrder(less) && PrimaryKey(less, table, pkCols) && Runs(less, table, pkCols, delivered, sessions)
    requires Sound(less, table, pkCols, delivered)
    ensures var all := delivered + Deliveries(sessions);
      && Sound(less, table, pkCols, all)
      && ((exists s :: s in sessions && Finished(s)) ==> Elements(all) == table)
    decreases sessions
  {
    if sessions == [] {
      assert delivered + [] == delivered;
    } else {
      var s := sessions[0];
      var more, rest := s.res[..s.taken], Deliveries(sessions[1..]);
      SessionSound(less, table, pkCols, delivered, s);
      EveryRow(less, table, pkCols, delivered + more, sessions[1..]);
      assert (delivered + more) + rest == delivered + (more + rest);
      assert Finished(s) ==> forall r :: r in table ==> r in (delivered + more) + rest;
      assert forall f :: f in sessions <==> f == s || f in sessions[1..];
    }
  }

  lemma SegmentDistinct(less: Order, table: set<Row>, col: string, rows: seq<Row>)
    requires StrictOrder(less) && Segment(less, table, col, rows)
    ensures Distinct(rows)
  {
    forall i, j | 0 <= i < j < |rows| ensures rows[i] != rows[j] {
      assert less(Cell(rows[i], col), Cell(rows[j], col));
    }
  }

  /** One key column, any interruptions: the deliveries are strictly ascending, so no row
      comes twice, and nothing below a delivered row is missing; once a session finishes
      they are the sorted table. */
  lemma SingleKeyExactlyOnce(less: Order, table: set<Row>, col: string, sessions: seq<Session>)
    requires StrictOrder(less) && PrimaryKey(less, table, [col]) && Runs(less, table, [col], [], sessions)
    ensures Distinct(Deliveries(sessions)) && Segment(less, table, col, Deliveries(sessions))
    ensures forall r :: r in Deliveries(sessions) ==> r in table
    ensures (exists s :: s in sessions && Finished(s)) ==> Elements(Deliveries(sessions)) == table
  {
    var all := Deliveries(sessions);
    EveryRow(less, table, [col], [], sessions);
    assert [] + all == all;
    SegmentDistinct(less, table, col, all);
  }

  // ---- Writing the deliveries ----

  /** A delivered row as the insert the writer expects. */
  function Inserts(t: TableRef, key: set<string>, rows: seq<Row>): seq<Change> {
    if rows == [] then []
    else [Change(t.schema, t.name, Insert, Restrict(rows[0], key), rows[0])] + Inserts(t, key, rows[1..])
  }

  /** The table as the target files it. */
  ghost predicate Files(rows: Rows, key: set<string>, table: set<Row>) {
    && (forall k :: k in rows ==> rows[k] in table && Restrict(rows[k], key) == k)
    && (forall r :: r in table ==> Restrict(r, key) in rows && rows[Restrict(r, key)] == r)
  }

  lemma SameRestriction(less: Order, table: set<Row>, pkCols: seq<string>, r: Row, s: Row)
    requires StrictOrder(less) && PrimaryKey(less, table, pkCols) && r in table && s in table
    requires Restrict(r, Elements(pkCols)) == Restrict(s, Elements(pkCols))
    ensures r == s
  {
    var k, l := Restrict(r, Elements(pkCols)), Restrict(s, Elements(pkCols));
    forall c | c in pkCols ensures Cell(r, c) == Cell(s, c) {
      assert Cell(r, c) == Cell(k, c) && Cell(s, c) == Cell(l, c);
    }
    assert SameKey(less, pkCols, r, s);
  }

  /** Repeated rows upsert onto themselves. */
  lemma {:induction false} InsertsFile(less: Order, table: set<Row>, pkCols: seq<string>, t: TableRef, db: Db,
      done: set<Row>, rows: seq<Row>)
    requires StrictOrder(less) && PrimaryKey(less, table, pkCols)
    requires Files(RowsOf(db, t), Elements(pkCols), done) && done <= table && Elements(rows) <= table
    ensures Files(RowsOf(ApplyAll(db, Inserts(t, Elements(pkCols), rows)), t), Elements(pkCols), done + Elements(rows))
    decreases rows
  {
    var key := Elements(pkCols);
    if rows == [] {
      assert done + Elements(rows) == done;
    } else {
      var r, rest := rows[0], Inserts(t, key, rows[1..]);
      var ch := Change(t.schema, t.name, Insert, Restrict(r, key), r);
      var next := ApplyChange(db, ch);
      assert r in rows;
      assert RowsOf(next, t) == Upserted(RowsOf(db, t), ch.pk, r);
      forall s | s in done && Restrict(s, key) == ch.pk ensures s == r {
        SameRestriction(less, table, pkCols, s, r);
      }
      assert r + r == r;
      assert Files(RowsOf(next, t), key, done + {r});
      InsertsFile(less, table, pkCols, t, next, done + {r}, rows[1..]);
      assert ([ch] + rest)[1..] == rest;
      assert done + Elements(rows) == (done + {r}) + Elements(rows[1..]);
    }
  }

  /** Any key, any interruptions: once a session has finished, upserting the deliveries
      into an empty table leaves exactly the source table, though rows may come twice. */
  lemma SyncCopiesTable(less: Order, table: set<Row>, pkCols: seq<string>, sessions: seq<Session>, t: TableRef, db: Db)
    requires StrictOrder(less) && PrimaryKey(less, table, pkCols) && Runs(less, table, pkCols, [], sessions)
    requires (exists s :: s in sessions && Finished(s)) && RowsOf(db, t) == map[]
    ensures Files(RowsOf(ApplyAll(db, Inserts(t, Elements(pkCols), Deliveries(sessions))), t), Elements(pkCols), table)
  {
    var all := Deliveries(sessions);
    EveryRow(less, table, pkCols, [], sessions);
    assert [] + all == all;
    InsertsFile(less, table, pkCols, t, db, {}, all);
    assert {} + Elements(all) == table;
  }
}
