/** What the change streams promise: nothing skipped, and a target that converges. */
module StreamProperties {
  import opened Wrappers
  import opened Connector
  import opened Text
  import opened Store
  import opened Replay
  import opened ChangeStream

  // ---- Projection on one table ----

  function Project(cs: seq<Change>, t: TableRef): seq<Change> {
    if cs == [] then [] else (if Ref(cs[0]) == t then [cs[0]] else []) + Project(cs[1..], t)
  }

  lemma {:induction false} ProjectConcat(a: seq<Change>, b: seq<Change>, t: TableRef)
    ensures Project(a + b, t) == Project(a, t) + Project(b, t)
  {
    if a == [] {
      assert a + b == b;
    } else {
      assert (a + b)[1..] == a[1..] + b;
      ProjectConcat(a[1..], b, t);
    }
  }

  lemma {:induction false} ProjectScanned(rows: seq<Raw>, of: TableRef, t: TableRef)
    ensures Project(Scanned(rows, of), t) == if of == t then Scanned(rows, of) else []
  {
    if rows != [] {
      ProjectScanned(rows[1..], of, t);
      var first := ScanRaw(rows[0], of);
      ProjectConcat(first, Scanned(rows[1..], of), t);
      if first != [] {
        assert first[1..] == [];
      }
    }
  }

  function Times(tables: seq<TableRef>, t: TableRef): nat {
    if tables == [] then 0 else (if tables[0] == t then 1 else 0) + Times(tables[1..], t)
  }

  /** A part that holds a table's slice as often as the table is listed. */
  predicate Holds(part: seq<Change>, slice: seq<Change>, times: nat) {
    && (times == 0 || slice == [] ==> part == [])
    && (times == 1 ==> part == slice)
    && (times > 1 ==> |part| >= |slice| + |slice|)
  }

  lemma {:induction false} ProjectWindow(log: seq<Entry>, tables: seq<TableRef>, from: nat, to: nat, t: TableRef)
    ensures Holds(Project(Window(log, tables, from, to), t), TableChanges(log, t, from, to), Times(tables, t))
  {
    if tables != [] {
      var first, rest := TableChanges(log, tables[0], from, to), Window(log, tables[1..], from, to);
      ProjectWindow(log, tables[1..], from, to, t);
      ProjectScanned(Slice(log, tables[0], from, to), tables[0], t);
      ProjectConcat(first, rest, t);
      assert [] + Project(rest, t) == Project(rest, t) && first + [] == first;
    }
  }

  predicate Increasing(from: nat, marks: seq<nat>)
    decreases marks
  {
    marks == [] || (from < marks[0] && Increasing(marks[0], marks[1..]))
  }

  lemma {:induction false} ProjectWindows(log: seq<Entry>, tables: seq<TableRef>, from: nat, marks: seq<nat>,
      t: TableRef)
    requires Ordered(log) && Increasing(from, marks)
    ensures from <= LastMark(from, marks)
    ensures Holds(Project(Windows(log, tables, from, marks), t),
                  TableChanges(log, t, from, LastMark(from, marks)), Times(tables, t))
    decreases marks
  {
    if marks == [] {
      SliceEmpty(log, t, from, from);
    } else {
      var last := LastMark(from, marks);
      ProjectWindows(log, tables, marks[0], marks[1..], t);
      ProjectWindow(log, tables, from, marks[0], t);
      ProjectConcat(Window(log, tables, from, marks[0]), Windows(log, tables, marks[0], marks[1..]), t);
      SlicesAdjoin(log, t, from, marks[0], last);
      ScannedConcat(Slice(log, t, from, marks[0]), Slice(log, t, marks[0], last), t);
    }
  }

  lemma {:induction false} WindowAdvances(log: seq<Entry>, tables: seq<TableRef>, from: nat, to: nat)
    requires Window(log, tables, from, to) != []
    ensures from < to
  {
    if tables != [] {
      if TableChanges(log, tables[0], from, to) == [] {
        WindowAdvances(log, tables[1..], from, to);
      } else if from >= to {
        SliceEmpty(log, tables[0], from, to);
      }
    }
  }

  lemma {:induction false} MarksIncrease(log: seq<Entry>, names: seq<string>, tables: seq<TableRef>, s: Stream,
      polls: seq<Poll>)
    requires Splits(names, tables) && AllCdc(polls)
    ensures Increasing(s.cursor, Marks(log, names, s, polls))
    decreases polls
  {
    if polls != [] {
      var fetched := FetchNext(log, names, s.cursor, polls[0]);
      var s1 := NextOf(s, fetched).1;
      MarksIncrease(log, names, tables, s1, polls[1..]);
      NextConserves(log, names, tables, s, polls[0]);
      if s.pending == [] && fetched.Some? && fetched.value.0 != [] {
        WindowAdvances(log, tables, s.cursor, s1.cursor);
        var later := Marks(log, names, s1, polls[1..]);
        assert ([s1.cursor] + later)[1..] == later;
      } else {
        var later := Marks(log, names, s1, polls[1..]);
        assert [] + later == later;
      }
    }
  }

  /** Nothing skipped, nothing twice: for every run of Next on a fresh stream and every
      table, what was returned and what is buffered is the table's exact log slice from
      the start cursor to the current one, in order, if and only if the table is listed
      once or there is nothing in the slice. */
  lemma EveryTableExactly(log: seq<Entry>, names: seq<string>, tables: seq<TableRef>, start: nat, polls: seq<Poll>,
      t: TableRef)
    requires Ordered(log) && Splits(names, tables) && AllCdc(polls)
    ensures var (got, s) := Drain(log, names, Stream(start, []), polls);
      var part, slice := Project(got + s.pending, t), TableChanges(log, t, start, s.cursor);
      start <= s.cursor && (part == slice <==> Times(tables, t) == 1 || slice == [])
  {
    var s0 := Stream(start, []);
    WindowInvariant(log, names, tables, s0, polls);
    MarksIncrease(log, names, tables, s0, polls);
    var marks := Marks(log, names, s0, polls);
    ProjectWindows(log, tables, start, marks, t);
    assert [] + Windows(log, tables, start, marks) == Windows(log, tables, start, marks);
  }

  lemma {:induction false} WindowsConcat(log: seq<Entry>, tables: seq<TableRef>, from: nat, a: seq<nat>, b: seq<nat>)
    ensures Windows(log, tables, from, a + b)
         == Windows(log, tables, from, a) + Windows(log, tables, LastMark(from, a), b)
    decreases a
  {
    if a == [] {
      assert a + b == b;
    } else {
      assert (a + b)[1..] == a[1..] + b;
      WindowsConcat(log, tables, a[0], a[1..], b);
    }
  }

  /** Giving up a stream and resuming from Cursor() loses exactly what was buffered:
      the two runs together miss nothing if and only if the buffer was empty. */
  lemma ResumeLosesPending(log: seq<Entry>, names: seq<string>, tables: seq<TableRef>, start: nat,
      first: seq<Poll>, second: seq<Poll>)
    requires Splits(names, tables) && AllCdc(first) && AllCdc(second)
    ensures var (got1, s1) := Drain(log, names, Stream(start, []), first);
      var (got2, s2) := Drain(log, names, Stream(s1.cursor, []), second);
      var all := Windows(log, tables, start,
        Marks(log, names, Stream(start, []), first) + Marks(log, names, Stream(s1.cursor, []), second));
      && (got1 + s1.pending) + (got2 + s2.pending) == all
      && (got1 + (got2 + s2.pending) == all <==> s1.pending == [])
  {
    var s0 := Stream(start, []);
    var (got1, s1) := Drain(log, names, s0, first);
    var resumed := Stream(s1.cursor, []);
    WindowInvariant(log, names, tables, s0, first);
    WindowInvariant(log, names, tables, resumed, second);
    var (got2, s2) := Drain(log, names, resumed, second);
    WindowsConcat(log, tables, start, Marks(log, names, s0, first), Marks(log, names, resumed, second));
    assert forall w: seq<Change> :: [] + w == w && w + [] == w;
    assert |got1 + (got2 + s2.pending)| + |s1.pending| == |(got1 + s1.pending) + (got2 + s2.pending)|;
  }

  /** Cursor() is documented as the position of the last returned change. It is not: it
      moves when a window is fetched. Here the change returned is at 1, the cursor at 2. */
  lemma CursorRunsAhead() returns (log: seq<Entry>, names: seq<string>, p: Poll)
    ensures |log| == 2 && log[0].lsn == 1
    ensures var (got, s) := NextOf(Stream(0, []), FetchNext(log, names, 0, p));
      var t := TableRef("d", "t");
      Delivered(got) == ScanRaw(log[0].raw, t) && s.cursor == 2 && s.pending == ScanRaw(log[1].raw, t)
  {
    var t := TableRef("d", "t");
    var a, b := Raw(2, map["id" := Int(1)]), Raw(2, map["id" := Int(2)]);
    log, names, p := [Entry(1, t, a), Entry(2, t, b)], ["d.t"], CdcPoll(Some(2), {});
    var name := names[0];
    assert name[1..][0] == '.' && Dot(name[1..]) == 0 && Dot(name) == 1;
    assert name[..1] == "d" && name[2..] == "t";
    assert SplitTable(name) == Some(t);
    assert log[1..] == [Entry(2, t, b)] && log[1..][1..] == [];
    assert Slice(log, t, 0, 2) == [a] + Slice(log[1..], t, 0, 2);
    assert Slice(log[1..], t, 0, 2) == [b];
    ScannedOne(a, t);
    ScannedOne(b, t);
    ScannedConcat([a], [b], t);
    assert [a] + [b] == [a, b];
    assert AnswersFrom(log, p, 1, names, 0) == Some([]);
    var w := Scanned([a, b], t);
    assert AnswersFrom(log, p, 0, names, 0) == Some(w + []);
    assert w + [] == w && w[1..] == ScanRaw(b, t);
  }

  // ---- Order between tables does not matter ----

  function RowsAll(rows: Rows, log: seq<Change>): Rows
    decreases log
  {
    if log == [] then rows else RowsAll(ApplyToRows(rows, log[0]), log[1..])
  }

  /** A table sees only its own changes. */
  lemma {:induction false} TableView(db: Db, log: seq<Change>, t: TableRef)
    ensures RowsOf(ApplyAll(db, log), t) == RowsAll(RowsOf(db, t), Project(log, t))
    ensures t in ApplyAll(db, log) <==> t in db || exists x :: x in log && Ref(x) == t
    decreases log
  {
    if log != [] {
      TableView(ApplyChange(db, log[0]), log[1..], t);
      var rest := Project(log[1..], t);
      assert ([log[0]] + rest)[1..] == rest && [] + rest == rest;
      assert forall x :: x in log <==> x == log[0] || x in log[1..];
    }
  }

  /** The changes of a window, per subscribed table instead of in commit order. */
  function PerTable(window: seq<Change>, tables: seq<TableRef>): seq<Change> {
    if tables == [] then [] else Project(window, tables[0]) + PerTable(window, tables[1..])
  }

  lemma {:induction false} ProjectTwice(log: seq<Change>, of: TableRef, t: TableRef)
    ensures Project(Project(log, of), t) == if of == t then Project(log, t) else []
  {
    if log != [] {
      ProjectTwice(log[1..], of, t);
      var rest := Project(log[1..], of);
      assert ([log[0]] + rest)[1..] == rest && [] + rest == rest;
      assert forall w: seq<Change> :: [] + w == w;
    }
  }

  lemma {:induction false} ProjectMembers(log: seq<Change>, t: TableRef)
    ensures forall x :: x in Project(log, t) <==> x in log && Ref(x) == t
  {
    if log != [] {
      ProjectMembers(log[1..], t);
    }
  }

  lemma {:induction false} ProjectNone(log: seq<Change>, t: TableRef)
    requires forall x :: x in log ==> Ref(x) != t
    ensures Project(log, t) == []
  {
    if log != [] {
      ProjectNone(log[1..], t);
    }
  }

  lemma {:induction false} RowsAllConcat(rows: Rows, a: seq<Change>, b: seq<Change>)
    ensures RowsAll(rows, a + b) == RowsAll(RowsAll(rows, a), b)
    decreases a
  {
    if a == [] {
      assert a + b == b;
    } else {
      assert (a + b)[1..] == a[1..] + b;
      RowsAllConcat(ApplyToRows(rows, a[0]), a[1..], b);
    }
  }

  lemma RowsAllIdempotent(rows: Rows, log: seq<Change>, t: TableRef)
    ensures var own := Project(log, t); RowsAll(RowsAll(rows, own), own) == RowsAll(rows, own)
  {
    var own, db := Project(log, t), map[t := rows];
    ProjectTwice(log, t, t);
    Idempotent(db, own);
    TableView(db, own, t);
    TableView(ApplyAll(db, own), own, t);
  }

  /** However often a table is listed, its rows end up as after one in-order pass. */
  lemma {:induction false} PerTableView(rows: Rows, window: seq<Change>, tables: seq<TableRef>, t: TableRef)
    ensures RowsAll(rows, Project(PerTable(window, tables), t)) ==
      if t in tables then RowsAll(rows, Project(window, t)) else rows
    decreases tables
  {
    if tables != [] {
      var own, rest := Project(window, tables[0]), PerTable(window, tables[1..]);
      ProjectConcat(own, rest, t);
      ProjectTwice(window, tables[0], t);
      RowsAllConcat(rows, Project(own, t), Project(rest, t));
      PerTableView(RowsAll(rows, Project(own, t)), window, tables[1..], t);
      if tables[0] == t {
        RowsAllIdempotent(rows, window, t);
      }
    }
  }

  lemma {:induction false} PerTableMembers(window: seq<Change>, tables: seq<TableRef>)
    ensures forall x :: x in PerTable(window, tables) <==> x in window && Ref(x) in tables
  {
    if tables != [] {
      ProjectMembers(window, tables[0]);
      PerTableMembers(window, tables[1..]);
    }
  }

  /** Delivering a window table by table, even with a table listed twice, leaves the
      target as delivering it in global commit order does. */
  lemma TableOrderHarmless(db: Db, window: seq<Change>, tables: seq<TableRef>)
    requires forall x :: x in window ==> Ref(x) in tables
    ensures ApplyAll(db, PerTable(window, tables)) == ApplyAll(db, window)
  {
    var left, right := ApplyAll(db, PerTable(window, tables)), ApplyAll(db, window);
    PerTableMembers(window, tables);
    forall t ensures (t in left <==> t in right) && RowsOf(left, t) == RowsOf(right, t) {
      TableView(db, PerTable(window, tables), t);
      TableView(db, window, t);
      PerTableView(RowsOf(db, t), window, tables, t);
      if t !in tables {
        ProjectNone(window, t);
      }
    }
    forall t | t in left ensures left[t] == right[t] {
      assert RowsOf(left, t) == RowsOf(right, t);
    }
  }

  // ---- Windows of the log against its commit order ----

  function CommittedOne(e: Entry, tables: seq<TableRef>, from: nat, to: nat): seq<Change> {
    if e.table in tables && from < e.lsn <= to then ScanRaw(e.raw, e.table) else []
  }

  /** The changes of the subscribed tables with from < lsn <= to, in commit order. */
  function Committed(log: seq<Entry>, tables: seq<TableRef>, from: nat, to: nat): seq<Change> {
    if log == [] then []
    else
      CommittedOne(log[0], tables, from, to) + Committed(log[1..], tables, from, to)
  }

  lemma {:induction false} CommittedEmpty(log: seq<Entry>, tables: seq<TableRef>, from: nat, to: nat)
    requires forall i :: 0 <= i < |log| ==> !(from < log[i].lsn <= to)
    ensures Committed(log, tables, from, to) == []
  {
    if log != [] {
      CommittedEmpty(log[1..], tables, from, to);
    }
  }

  lemma OneAdjoins(e: Entry, tables: seq<TableRef>, a: nat, b: nat, c: nat, first: seq<Change>, later: seq<Change>)
    requires a <= b <= c && (e.lsn > b ==> first == [])
    ensures (CommittedOne(e, tables, a, b) + first) + (CommittedOne(e, tables, b, c) + later)
         == CommittedOne(e, tables, a, c) + (first + later)
  {
    if e.lsn > b {
      assert CommittedOne(e, tables, a, b) == [] && CommittedOne(e, tables, a, c) == CommittedOne(e, tables, b, c);
    } else {
      assert CommittedOne(e, tables, b, c) == [] && CommittedOne(e, tables, a, c) == CommittedOne(e, tables, a, b);
    }
  }

  lemma {:induction false} CommittedAdjoin(log: seq<Entry>, tables: seq<TableRef>, a: nat, b: nat, c: nat)
    requires Ordered(log) && a <= b <= c
    ensures Committed(log, tables, a, b) + Committed(log, tables, b, c) == Committed(log, tables, a, c)
  {
    if log != [] {
      CommittedAdjoin(log[1..], tables, a, b, c);
      if log[0].lsn > b {
        CommittedEmpty(log[1..], tables, a, b);
      }
      OneAdjoins(log[0], tables, a, b, c, Committed(log[1..], tables, a, b), Committed(log[1..], tables, b, c));
    }
  }

  lemma {:induction false} ProjectCommitted(log: seq<Entry>, tables: seq<TableRef>, from: nat, to: nat, t: TableRef)
    ensures Project(Committed(log, tables, from, to), t) == if t in tables then TableChanges(log, t, from, to) else []
  {
    if log != [] {
      var e, rest := log[0], Committed(log[1..], tables, from, to);
      ProjectCommitted(log[1..], tables, from, to, t);
      if e.table in tables && from < e.lsn <= to {
        ScannedOne(e.raw, e.table);
        ProjectConcat(ScanRaw(e.raw, e.table), rest, t);
        ProjectScanned([e.raw], e.table, t);
        ScannedConcat([e.raw], Slice(log[1..], t, from, to), t);
      }
      assert forall w: seq<Change> :: [] + w == w;
      assert forall w: seq<Raw> :: [] + w == w;
    }
  }

  lemma {:induction false} CommittedMembers(log: seq<Entry>, tables: seq<TableRef>, from: nat, to: nat)
    ensures forall x :: x in Committed(log, tables, from, to) ==> Ref(x) in tables
  {
    if log != [] {
      CommittedMembers(log[1..], tables, from, to);
    }
  }

  lemma {:induction false} WindowIsPerTable(log: seq<Entry>, all: seq<TableRef>, tables: seq<TableRef>, from: nat,
      to: nat)
    requires forall t :: t in tables ==> t in all
    ensures Window(log, tables, from, to) == PerTable(Committed(log, all, from, to), tables)
  {
    if tables != [] {
      ProjectCommitted(log, all, from, to, tables[0]);
      WindowIsPerTable(log, all, tables[1..], from, to);
    }
  }

  /** Scanned changes with their keys filled in, by any rule that keeps the table. */
  function Keyed(fill: Change -> Change, cs: seq<Change>): seq<Change> {
    if cs == [] then [] else [fill(cs[0])] + Keyed(fill, cs[1..])
  }

  ghost predicate KeepsTable(fill: Change -> Change) {
    forall c :: Ref(fill(c)) == Ref(c)
  }

  lemma {:induction false} KeyedConcat(fill: Change -> Change, a: seq<Change>, b: seq<Change>)
    ensures Keyed(fill, a + b) == Keyed(fill, a) + Keyed(fill, b)
  {
    if a == [] {
      assert a + b == b;
    } else {
      assert (a + b)[1..] == a[1..] + b;
      KeyedConcat(fill, a[1..], b);
    }
  }

  lemma {:induction false} KeyedProject(fill: Change -> Change, cs: seq<Change>, t: TableRef)
    requires KeepsTable(fill)
    ensures Keyed(fill, Project(cs, t)) == Project(Keyed(fill, cs), t)
  {
    if cs != [] {
      var rest := Project(cs[1..], t);
      KeyedProject(fill, cs[1..], t);
      assert Keyed(fill, cs)[1..] == Keyed(fill, cs[1..]);
      assert ([cs[0]] + rest)[1..] == rest && [] + rest == rest;
    }
  }

  lemma {:induction false} KeyedPerTable(fill: Change -> Change, cs: seq<Change>, tables: seq<TableRef>)
    requires KeepsTable(fill)
    ensures Keyed(fill, PerTable(cs, tables)) == PerTable(Keyed(fill, cs), tables)
  {
    if tables != [] {
      KeyedConcat(fill, Project(cs, tables[0]), PerTable(cs, tables[1..]));
      KeyedProject(fill, cs, tables[0]);
      KeyedPerTable(fill, cs, tables[1..]);
    }
  }

  lemma {:induction false} KeyedMembers(fill: Change -> Change, cs: seq<Change>, tables: seq<TableRef>)
    requires KeepsTable(fill) && forall x :: x in cs ==> Ref(x) in tables
    ensures forall x :: x in Keyed(fill, cs) ==> Ref(x) in tables
  {
    if cs != [] {
      assert cs[0] in cs;
      KeyedMembers(fill, cs[1..], tables);
    }
  }

  /** One window, with keys: table by table or in commit order, the target is the same. */
  lemma WindowInCommitOrder(fill: Change -> Change, db: Db, log: seq<Entry>, tables: seq<TableRef>, from: nat, to: nat)
    requires KeepsTable(fill)
    ensures ApplyAll(db, Keyed(fill, Window(log, tables, from, to)))
         == ApplyAll(db, Keyed(fill, Committed(log, tables, from, to)))
  {
    var first := Committed(log, tables, from, to);
    WindowIsPerTable(log, tables, tables, from, to);
    CommittedMembers(log, tables, from, to);
    KeyedPerTable(fill, first, tables);
    KeyedMembers(fill, first, tables);
    TableOrderHarmless(db, Keyed(fill, first), tables);
  }

  lemma {:induction false} WindowsInCommitOrder(fill: Change -> Change, db: Db, log: seq<Entry>, tables: seq<TableRef>,
      from: nat, marks: seq<nat>)
    requires KeepsTable(fill) && Ordered(log) && Increasing(from, marks)
    ensures from <= LastMark(from, marks)
    ensures ApplyAll(db, Keyed(fill, Windows(log, tables, from, marks)))
         == ApplyAll(db, Keyed(fill, Committed(log, tables, from, LastMark(from, marks))))
    decreases marks
  {
    if marks == [] {
      CommittedEmpty(log, tables, from, from);
    } else {
      var m, last := marks[0], LastMark(from, marks);
      var window, windows := Window(log, tables, from, m), Windows(log, tables, m, marks[1..]);
      var first, later := Committed(log, tables, from, m), Committed(log, tables, m, last);
      WindowInCommitOrder(fill, db, log, tables, from, m);
      WindowsInCommitOrder(fill, ApplyAll(db, Keyed(fill, first)), log, tables, m, marks[1..]);
      CommittedAdjoin(log, tables, from, m, last);
      KeyedConcat(fill, window, windows);
      KeyedConcat(fill, first, later);
      ApplyAllAppend(db, Keyed(fill, window), Keyed(fill, windows));
      ApplyAllAppend(db, Keyed(fill, first), Keyed(fill, later));
    }
  }

  /** For every run of Next, even with a table listed twice, and however the missing keys
      are filled in: applying what was returned and what is buffered leaves the target as
      the log does in its own commit order. */
  lemma RunInCommitOrder(fill: Change -> Change, db: Db, log: seq<Entry>, names: seq<string>, tables: seq<TableRef>,
      start: nat, polls: seq<Poll>)
    requires KeepsTable(fill) && Ordered(log) && Splits(names, tables) && AllCdc(polls)
    ensures var (got, s) := Drain(log, names, Stream(start, []), polls);
      ApplyAll(db, Keyed(fill, got + s.pending)) == ApplyAll(db, Keyed(fill, Committed(log, tables, start, s.cursor)))
  {
    var s0 := Stream(start, []);
    var marks := Marks(log, names, s0, polls);
    WindowInvariant(log, names, tables, s0, polls);
    MarksIncrease(log, names, tables, s0, polls);
    WindowsInCommitOrder(fill, db, log, tables, start, marks);
    assert [] + Windows(log, tables, start, marks) == Windows(log, tables, start, marks);
  }

  // ---- What the operation codes mean ----

  /** A log entry at the source: 2 and 4 are the row as it is after an insert or update,
      1 is the row that was deleted, and 3, the row before an update, is no change. */
  function RawEffect(rows: Rows, key: set<string>, r: Raw): Rows {
    var k := Restrict(r.data, key);
    if r.op == 2 || r.op == 4 then rows[k := r.data] else if r.op == 1 then rows - {k} else rows
  }

  function RawAll(rows: Rows, key: set<string>, raws: seq<Raw>): Rows
    decreases raws
  {
    if raws == [] then rows else RawAll(RawEffect(rows, key, raws[0]), key, raws[1..])
  }

  /** The key of a scanned change, taken from the row it carries. */
  function WithKey(keys: map<TableRef, set<string>>, c: Change): Change {
    if Ref(c) !in keys then c
    else c.(pk := Restrict(if c.op == Delete then c.pk else c.after, keys[Ref(c)]))
  }

  function Filling(keys: map<TableRef, set<string>>): Change -> Change {
    (c: Change) => WithKey(keys, c)
  }

  /** Every row of the table has a value, or NULL, for each of its columns. */
  ghost predicate WholeRows(cols: set<string>, rows: Rows) {
    forall k :: k in rows ==> rows[k].Keys == cols
  }

  lemma RawMeaning(keys: map<TableRef, set<string>>, cols: set<string>, rows: Rows, r: Raw, t: TableRef)
    requires t in keys && WholeRows(cols, rows) && r.data.Keys == cols
    ensures RowsAll(rows, Keyed(Filling(keys), ScanRaw(r, t))) == RawEffect(rows, keys[t], r)
    ensures WholeRows(cols, RawEffect(rows, keys[t], r))
    ensures r.op == 2 <==> exists c :: ScanRaw(r, t) == [c] && c.op == Insert
    ensures r.op == 4 <==> exists c :: ScanRaw(r, t) == [c] && c.op == Update
  {
    var k := Restrict(r.data, keys[t]);
    var scanned := ScanRaw(r, t);
    if scanned != [] {
      assert ScanRaw(r, t) == [scanned[0]];
      assert scanned[1..] == [] && Keyed(Filling(keys), scanned)[1..] == [];
      assert scanned[0].op != Delete && k in rows ==> rows[k] + r.data == r.data;
    }
  }

  lemma {:induction false} ScannedMeaning(keys: map<TableRef, set<string>>, cols: set<string>, rows: Rows,
      raws: seq<Raw>, t: TableRef)
    requires t in keys && WholeRows(cols, rows) && forall r :: r in raws ==> r.data.Keys == cols
    ensures RowsAll(rows, Keyed(Filling(keys), Scanned(raws, t))) == RawAll(rows, keys[t], raws)
    decreases raws
  {
    if raws != [] {
      var fill := Filling(keys);
      assert raws[0] in raws;
      RawMeaning(keys, cols, rows, raws[0], t);
      KeyedConcat(fill, ScanRaw(raws[0], t), Scanned(raws[1..], t));
      RowsAllConcat(rows, Keyed(fill, ScanRaw(raws[0], t)), Keyed(fill, Scanned(raws[1..], t)));
      ScannedMeaning(keys, cols, RawEffect(rows, keys[t], raws[0]), raws[1..], t);
    }
  }

  /** The source's table once the log is written up to a position. */
  function SourceAt(log: seq<Entry>, t: TableRef, key: set<string>, init: Rows, at: nat): Rows
    decreases log
  {
    if log == [] then init
    else
      SourceAt(log[1..], t, key,
               if log[0].table == t && log[0].lsn <= at then RawEffect(init, key, log[0].raw) else init, at)
  }

  lemma {:induction false} SourceBefore(log: seq<Entry>, t: TableRef, key: set<string>, init: Rows, at: nat)
    requires forall i :: 0 <= i < |log| ==> log[i].lsn > at
    ensures SourceAt(log, t, key, init, at) == init
  {
    if log != [] {
      SourceBefore(log[1..], t, key, init, at);
    }
  }

  /** The slice between two positions leads from one state of the source to the other. */
  lemma {:induction false} SliceLeads(log: seq<Entry>, t: TableRef, key: set<string>, init: Rows, a: nat, b: nat)
    requires Ordered(log) && a <= b
    ensures RawAll(SourceAt(log, t, key, init, a), key, Slice(log, t, a, b)) == SourceAt(log, t, key, init, b)
    decreases log
  {
    if log != [] {
      var e := log[0];
      if e.lsn <= a {
        SliceLeads(log[1..], t, key, if e.table == t then RawEffect(init, key, e.raw) else init, a, b);
        assert [] + Slice(log[1..], t, a, b) == Slice(log[1..], t, a, b);
      } else {
        SourceBefore(log[1..], t, key, init, a);
        if e.table == t && e.lsn <= b {
          var next := RawEffect(init, key, e.raw);
          SourceBefore(log[1..], t, key, next, a);
          SliceLeads(log[1..], t, key, next, a, b);
          assert ([e.raw] + Slice(log[1..], t, a, b))[1..] == Slice(log[1..], t, a, b);
        } else {
          SliceLeads(log[1..], t, key, init, a, b);
          assert [] + Slice(log[1..], t, a, b) == Slice(log[1..], t, a, b);
        }
      }
    }
  }

  /** The entries of a table hold whole rows. */
  ghost predicate WholeLog(log: seq<Entry>, t: TableRef, cols: set<string>) {
    forall i :: 0 <= i < |log| && log[i].table == t ==> log[i].raw.data.Keys == cols
  }

  lemma {:induction false} SliceIsWhole(log: seq<Entry>, t: TableRef, cols: set<string>, a: nat, b: nat)
    requires WholeLog(log, t, cols)
    ensures forall r :: r in Slice(log, t, a, b) ==> r.data.Keys == cols
  {
    if log != [] {
      assert forall i :: 0 <= i < |log[1..]| ==> log[1..][i] == log[i + 1];
      SliceIsWhole(log[1..], t, cols, a, b);
    }
  }

  lemma {:induction false} SourceIsWhole(log: seq<Entry>, t: TableRef, cols: set<string>,
      key: set<string>, init: Rows, at: nat)
    requires WholeLog(log, t, cols) && WholeRows(cols, init)
    ensures WholeRows(cols, SourceAt(log, t, key, init, at))
    decreases log
  {
    if log != [] {
      var e := log[0];
      assert forall i :: 0 <= i < |log[1..]| ==> log[1..][i] == log[i + 1];
      SourceIsWhole(log[1..], t, cols, key,
                    if e.table == t && e.lsn <= at then RawEffect(init, key, e.raw) else init, at);
    }
  }

  /** For every run of Next and every subscribed table, keys filled in: what was returned
      and what is buffered brings a target that shows the source as it was at the start
      position to the source as it is at the cursor. */
  lemma RunFollowsSource(keys: map<TableRef, set<string>>, cols: set<string>, db: Db, init: Rows, log: seq<Entry>,
      names: seq<string>, tables: seq<TableRef>, start: nat, polls: seq<Poll>, t: TableRef)
    requires Ordered(log) && Splits(names, tables) && AllCdc(polls)
    requires t in tables && t in keys && WholeLog(log, t, cols) && WholeRows(cols, init)
    requires RowsOf(db, t) == SourceAt(log, t, keys[t], init, start)
    ensures var (got, s) := Drain(log, names, Stream(start, []), polls);
      RowsOf(ApplyAll(db, Keyed(Filling(keys), got + s.pending)), t) == SourceAt(log, t, keys[t], init, s.cursor)
  {
    var fill, s := Filling(keys), Drain(log, names, Stream(start, []), polls).1;
    var committed := Committed(log, tables, start, s.cursor);
    RunInCommitOrder(fill, db, log, names, tables, start, polls);
    EveryTableExactly(log, names, tables, start, polls, t);
    TableView(db, Keyed(fill, committed), t);
    KeyedProject(fill, committed, t);
    ProjectCommitted(log, tables, start, s.cursor, t);
    SourceIsWhole(log, t, cols, keys[t], init, start);
    SliceIsWhole(log, t, cols, start, s.cursor);
    ScannedMeaning(keys, cols, RowsOf(db, t), Slice(log, t, start, s.cursor), t);
    SliceLeads(log, t, keys[t], init, start, s.cursor);
  }
}
