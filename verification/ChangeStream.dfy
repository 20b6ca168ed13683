/** The change streams of internal/connector/sqlserver/changes.go. */
module ChangeStream {
  import opened Wrappers
  import opened Connector
  import opened Store

  // ---- splitTable: strings.SplitN(table, ".", 2) ----

  function Dot(s: string): (i: nat)
    ensures i <= |s|
  {
    if s == "" || s[0] == '.' then 0 else 1 + Dot(s[1..])
  }

  function SplitTable(s: string): Option<TableRef> {
    var i := Dot(s);
    if i == 0 || i + 1 >= |s| then None else Some(TableRef(s[..i], s[i + 1..]))
  }

  lemma {:induction false} DotIsFirst(a: string, b: string)
    requires '.' !in a
    ensures Dot(a + "." + b) == |a|
  {
    if a == "" {
      assert a + "." + b == "." + b;
    } else {
      assert (a + "." + b)[1..] == a[1..] + "." + b;
      DotIsFirst(a[1..], b);
    }
  }

  lemma {:induction false} NoDotBefore(s: string)
    ensures '.' !in s[..Dot(s)] && (Dot(s) < |s| ==> s[Dot(s)] == '.')
  {
    if s != "" && s[0] != '.' {
      NoDotBefore(s[1..]);
      assert s[..Dot(s)] == [s[0]] + s[1..][..Dot(s[1..])];
    }
  }

  /** A name splits if and only if it is two non-empty parts around its first dot. */
  lemma SplitsAtFirstDot(s: string, a: string, b: string)
    ensures SplitTable(s) == Some(TableRef(a, b)) <==> a != "" && b != "" && '.' !in a && s == a + "." + b
  {
    var i := Dot(s);
    NoDotBefore(s);
    if i < |s| {
      assert s == s[..i] + "." + s[i + 1..];
    }
    if '.' !in a && s == a + "." + b {
      DotIsFirst(a, b);
      assert s[..|a|] == a && s[|a| + 1..] == b;
    }
  }

  // ---- CDC rows to changes ----

  /** A row of the CDC function: __$operation, and the columns after the two meta columns. */
  datatype Raw = Raw(op: int, data: Row)

  function ScanRaw(r: Raw, t: TableRef): seq<Change> {
    match r.op
    case 2 => [Change(t.schema, t.name, Insert, map[], r.data)]
    case 1 => [Change(t.schema, t.name, Delete, r.data, map[])]
    case 4 => [Change(t.schema, t.name, Update, map[], r.data)]
    case _ => []
  }

  function Scanned(rows: seq<Raw>, t: TableRef): seq<Change> {
    if rows == [] then [] else ScanRaw(rows[0], t) + Scanned(rows[1..], t)
  }

  /** scanCDCRows; `broken` says after how many rows it fails, if it does: at a row that
      does not scan, or with the connection. */
  method ScanCDCRows(rows: seq<Raw>, t: TableRef, broken: Option<nat>) returns (changes: Option<seq<Change>>)
    ensures changes == if broken.Some? && broken.value <= |rows| then None else Some(Scanned(rows, t))
  {
    var all := [];
    for i := 0 to |rows|
      invariant all == Scanned(rows[..i], t)
      invariant broken.Some? ==> broken.value >= i
    {
      if broken == Some(i) {
        return None;
      }
      var data := rows[i].data;
      ScannedConcat(rows[..i], [rows[i]], t);
      ScannedOne(rows[i], t);
      assert rows[..i + 1] == rows[..i] + [rows[i]];
      match rows[i].op
      case 2 => all := all + [Change(t.schema, t.name, Insert, map[], data)];
      case 1 => all := all + [Change(t.schema, t.name, Delete, data, map[])];
      case 4 => all := all + [Change(t.schema, t.name, Update, map[], data)];
      case _ => assert all + [] == all;
    }
    assert rows[..|rows|] == rows;
    changes := if broken == Some(|rows|) then None else Some(all);
  }

  lemma ScannedOne(r: Raw, t: TableRef)
    ensures Scanned([r], t) == ScanRaw(r, t)
  {
    assert [r][1..] == [];
  }

  lemma {:induction false} ScannedConcat(a: seq<Raw>, b: seq<Raw>, t: TableRef)
    ensures Scanned(a + b, t) == Scanned(a, t) + Scanned(b, t)
  {
    if a == [] {
      assert a + b == b;
    } else {
      assert (a + b)[1..] == a[1..] + b;
      ScannedConcat(a[1..], b, t);
    }
  }

  // ---- The log behind the stream ----

  datatype Entry = Entry(lsn: nat, table: TableRef, raw: Raw)

  ghost predicate Ordered(log: seq<Entry>) {
    forall i, j :: 0 <= i < j < |log| ==> log[i].lsn <= log[j].lsn
  }

  /** The rows of one table with from < lsn <= to, in log order. */
  function Slice(log: seq<Entry>, t: TableRef, from: nat, to: nat): seq<Raw> {
    if log == [] then []
    else (if log[0].table == t && from < log[0].lsn <= to then [log[0].raw] else []) + Slice(log[1..], t, from, to)
  }

  lemma {:induction false} SliceEmpty(log: seq<Entry>, t: TableRef, from: nat, to: nat)
    requires forall i :: 0 <= i < |log| ==> !(from < log[i].lsn <= to)
    ensures Slice(log, t, from, to) == []
  {
    if log != [] {
      SliceEmpty(log[1..], t, from, to);
    }
  }

  /** Adjoining slices are one slice. */
  lemma {:induction false} SlicesAdjoin(log: seq<Entry>, t: TableRef, a: nat, b: nat, c: nat)
    requires Ordered(log) && a <= b <= c
    ensures Slice(log, t, a, b) + Slice(log, t, b, c) == Slice(log, t, a, c)
  {
    if log != [] {
      SlicesAdjoin(log[1..], t, a, b, c);
      if log[0].lsn > b {
        SliceEmpty(log[1..], t, a, b);
      }
    }
  }

  // ---- fetchCDC and fetchCT ----

  /** What the database answers during one fetch: its current position (None: the query
      failed) and, per table, the rows or a failure. CDC answers from the log, between
      the cursor and the position; Change Tracking answers as of whenever it is asked. */
  datatype Poll =
    | CdcPoll(position: Option<nat>, fails: set<nat>)
    | CtPoll(position: Option<nat>, answers: seq<Option<seq<Change>>>)

  function TableChanges(log: seq<Entry>, t: TableRef, from: nat, to: nat): seq<Change> {
    Scanned(Slice(log, t, from, to), t)
  }

  function Answer(log: seq<Entry>, p: Poll, i: nat, name: string, cursor: nat): Option<seq<Change>> {
    var t :- SplitTable(name);
    match p
    case CdcPoll(pos, fails) =>
      if i in fails || pos.None? then None else Some(TableChanges(log, t, cursor, pos.value))
    case CtPoll(_, answers) => if i < |answers| then answers[i] else None
  }

  /** The answers for the tables from the i-th on, end to end. */
  function AnswersFrom(log: seq<Entry>, p: Poll, i: nat, names: seq<string>, cursor: nat): Option<seq<Change>>
    requires i <= |names|
    decreases |names| - i
  {
    if i == |names| then Some([])
    else
      var first :- Answer(log, p, i, names[i], cursor);
      var rest :- AnswersFrom(log, p, i + 1, names, cursor);
      Some(first + rest)
  }

  predicate NothingNew(p: Poll, cursor: nat)
    requires p.position.Some?
  {
    if p.CdcPoll? then p.position.value == cursor else p.position.value <= cursor
  }

  /** None for an error, else the changes and the new cursor. */
  function FetchNext(log: seq<Entry>, names: seq<string>, cursor: nat, p: Poll): Option<(seq<Change>, nat)> {
    var position :- p.position;
    if NothingNew(p, cursor) then Some(([], cursor))
    else
      var all :- AnswersFrom(log, p, 0, names, cursor);
      Some((all, position))
  }

  /** The i-th table can be asked: its name splits, and the database answers. */
  predicate Answered(p: Poll, i: nat, name: string) {
    SplitTable(name).Some? &&
    match p
    case CdcPoll(position, fails) => position.Some? && i !in fails
    case CtPoll(_, answers) => i < |answers| && answers[i].Some?
  }

  lemma {:induction false} AnswersIfAnswered(log: seq<Entry>, p: Poll, i: nat, names: seq<string>, cursor: nat)
    requires i <= |names|
    ensures AnswersFrom(log, p, i, names, cursor).Some? <==> forall j :: i <= j < |names| ==> Answered(p, j, names[j])
    decreases |names| - i
  {
    if i < |names| {
      AnswersIfAnswered(log, p, i + 1, names, cursor);
      assert Answered(p, i, names[i]) <==> Answer(log, p, i, names[i], cursor).Some?;
    }
  }

  /** The first n answers, end to end. */
  function EndToEnd(answers: seq<Option<seq<Change>>>, n: nat): seq<Change> {
    if n == 0 then []
    else EndToEnd(answers, n - 1) + if n <= |answers| && answers[n - 1].Some? then answers[n - 1].value else []
  }

  lemma {:induction false} AnswersEndToEnd(p: Poll, i: nat, names: seq<string>, cursor: nat)
    requires p.CtPoll? && i <= |names| <= |p.answers|
    requires forall j :: i <= j < |names| ==> SplitTable(names[j]).Some? && p.answers[j].Some?
    ensures AnswersFrom([], p, i, names, cursor).Some?
    ensures EndToEnd(p.answers, |names|) == EndToEnd(p.answers, i) + AnswersFrom([], p, i, names, cursor).value
    decreases |names| - i
  {
    var before := EndToEnd(p.answers, i);
    if i == |names| {
      assert before + [] == before;
    } else {
      AnswersEndToEnd(p, i + 1, names, cursor);
      var first, rest := p.answers[i].value, AnswersFrom([], p, i + 1, names, cursor).value;
      assert EndToEnd(p.answers, i + 1) == before + first;
      assert (before + first) + rest == before + (first + rest);
    }
  }

  /** There is something to ask for: CDC compares positions, Change Tracking orders them. */
  predicate Newer(p: Poll, cursor: nat)
    requires p.position.Some?
  {
    if p.CdcPoll? then p.position.value != cursor else p.position.value > cursor
  }

  /** When a fetch fails, when it has nothing to do, and what it brings otherwise. */
  lemma FetchOutcome(log: seq<Entry>, names: seq<string>, cursor: nat, p: Poll)
    ensures var r := FetchNext(log, names, cursor, p);
      var all := forall i :: 0 <= i < |names| ==> Answered(p, i, names[i]);
      && (r.None? <==> p.position.None? || (Newer(p, cursor) && !all))
      && (p.position.Some? && !Newer(p, cursor) ==> r == Some(([], cursor)))
      && (p.position.Some? && Newer(p, cursor) && all ==> r.Some? && r.value.1 == p.position.value)
  {
    AnswersIfAnswered(log, p, 0, names, cursor);
  }

  /** Change Tracking: a newer version is fetched, all answers end to end. */
  lemma FetchesNewerVersion(names: seq<string>, cursor: nat, p: Poll)
    requires p.CtPoll? && p.position.Some? && p.position.value > cursor && |names| <= |p.answers|
    requires forall i :: 0 <= i < |names| ==> SplitTable(names[i]).Some? && p.answers[i].Some?
    ensures FetchNext([], names, cursor, p) == Some((EndToEnd(p.answers, |names|), p.position.value))
  {
    AnswersEndToEnd(p, 0, names, cursor);
    var all := AnswersFrom([], p, 0, names, cursor).value;
    assert [] + all == all;
  }

  // ---- Next ----

  datatype Got = Returned(change: Change) | Failed | Interrupted

  /** One call of Next: what it returns, and the cursor and buffer it leaves. */
  datatype Stream = Stream(cursor: nat, pending: seq<Change>)

  function NextOf(s: Stream, fetched: Option<(seq<Change>, nat)>): (Got, Stream) {
    if s.pending != [] then (Returned(s.pending[0]), s.(pending := s.pending[1..]))
    else match fetched
      case None => (Failed, s)
      case Some((changes, cursor)) =>
        if changes == [] then (Interrupted, s) else (Returned(changes[0]), Stream(cursor, changes[1..]))
  }

  class ChangeStream {
    const log: seq<Entry>
    const tables: seq<string>
    var cursor: nat
    var pending: seq<Change>

    ghost function View(): Stream
      reads this
    {
      Stream(cursor, pending)
    }

    constructor (log: seq<Entry>, tables: seq<string>, cursor: nat)
      ensures this.log == log && this.tables == tables && View() == Stream(cursor, [])
    {
      this.log, this.tables, this.cursor, pending := log, tables, cursor, [];
    }

    /** fetchCDC, fetchCT: the position first, then table by table. */
    method Fetch(p: Poll) returns (r: Option<(seq<Change>, nat)>)
      ensures r == FetchNext(log, tables, cursor, p)
    {
      if p.position.None? {
        return None;
      }
      if NothingNew(p, cursor) {
        return Some(([], cursor));
      }
      var all := [];
      assert forall cs: seq<Change> :: [] + cs == cs;
      for i := 0 to |tables|
        invariant AnswersFrom(log, p, 0, tables, cursor) == Prefixed(all, AnswersFrom(log, p, i, tables, cursor))
      {
        var changes := Answer(log, p, i, tables[i], cursor);
        if changes.None? {
          return None;
        }
        PrefixedTwice(all, changes.value, AnswersFrom(log, p, i + 1, tables, cursor));
        all := all + changes.value;
      }
      assert all + [] == all;
      r := Some((all, p.position.value));
    }

    /** Next. With nothing to return it waits, and only cancellation ends the wait. */
    method Next(p: Poll) returns (got: Got)
      modifies this
      ensures (got, View()) == NextOf(old(View()), FetchNext(log, tables, old(cursor), p))
    {
      while true
        invariant unchanged(this) || (old(pending) == [] && pending != []
          && FetchNext(log, tables, old(cursor), p) == Some((pending, cursor)))
        decreases if pending == [] then 1 else 0
      {
        if pending != [] {
          got := Returned(pending[0]);
          pending := pending[1..];
          return;
        }
        var r := Fetch(p);
        if r.None? {
          return Failed;
        }
        var (changes, newCursor) := r.value;
        if |changes| > 0 {
          cursor, pending := newCursor, changes;
          continue;
        }
        return Interrupted;
      }
    }
  }

  /** Changes: from a cursor, or (None) from the current position, which is asked for
      (None: the query failed). `probed` says whether Probe has found a mechanism. */
  method Changes(log: seq<Entry>, tables: seq<string>, probed: bool, from: Option<nat>, current: Option<nat>)
    returns (r: Option<ChangeStream>)
    ensures r.None? <==> !probed || (from.None? && current.None?)
    ensures r.Some? ==>
      && fresh(r.value) && r.value.log == log && r.value.tables == tables
      && r.value.View() == Stream(if from.Some? then from.value else current.value, [])
  {
    if !probed {
      return None;
    }
    var start := from;
    if from.None? {
      if current.None? {
        return None;
      }
      start := current;
    }
    var cs := new ChangeStream(log, tables, start.value);
    r := Some(cs);
  }

  function Prefixed(all: seq<Change>, rest: Option<seq<Change>>): Option<seq<Change>> {
    if rest.None? then None else Some(all + rest.value)
  }

  lemma PrefixedTwice(a: seq<Change>, b: seq<Change>, rest: Option<seq<Change>>)
    ensures Prefixed(a, Prefixed(b, rest)) == Prefixed(a + b, rest)
  {
    if rest.Some? {
      assert a + (b + rest.value) == (a + b) + rest.value;
    }
  }

  // ---- Runs of Next over a CDC log ----

  /** The changes a sequence of calls returns, and where it leaves the stream. */
  function Drain(log: seq<Entry>, names: seq<string>, s: Stream, polls: seq<Poll>): (seq<Change>, Stream)
    decreases polls
  {
    if polls == [] then ([], s)
    else
      var (got, s1) := NextOf(s, FetchNext(log, names, s.cursor, polls[0]));
      var (rest, s2) := Drain(log, names, s1, polls[1..]);
      (Delivered(got) + rest, s2)
  }

  /** The positions the cursor moved to, one per window fetched. */
  function Marks(log: seq<Entry>, names: seq<string>, s: Stream, polls: seq<Poll>): seq<nat>
    decreases polls
  {
    if polls == [] then []
    else
      var fetched := FetchNext(log, names, s.cursor, polls[0]);
      (if s.pending == [] && fetched.Some? && fetched.value.0 != [] then [fetched.value.1] else [])
      + Marks(log, names, NextOf(s, fetched).1, polls[1..])
  }

  /** One window: table by table, each table's part its log slice in order. */
  function Window(log: seq<Entry>, tables: seq<TableRef>, from: nat, to: nat): seq<Change> {
    if tables == [] then [] else TableChanges(log, tables[0], from, to) + Window(log, tables[1..], from, to)
  }

  /** Adjoining windows: from `from` to the first mark, from there to the next, ... */
  function Windows(log: seq<Entry>, tables: seq<TableRef>, from: nat, marks: seq<nat>): seq<Change>
    decreases marks
  {
    if marks == [] then [] else Window(log, tables, from, marks[0]) + Windows(log, tables, marks[0], marks[1..])
  }

  function LastMark(from: nat, marks: seq<nat>): nat {
    if marks == [] then from else marks[|marks| - 1]
  }

  ghost predicate Splits(names: seq<string>, tables: seq<TableRef>) {
    |names| == |tables| && forall i :: 0 <= i < |names| ==> SplitTable(names[i]) == Some(tables[i])
  }

  ghost predicate AllCdc(polls: seq<Poll>) {
    forall p :: p in polls ==> p.CdcPoll?
  }

  lemma {:induction false} AnswersAreWindow(log: seq<Entry>, p: Poll, i: nat, names: seq<string>,
      tables: seq<TableRef>, cursor: nat)
    requires i <= |names| && Splits(names, tables) && p.CdcPoll? && p.position.Some?
    ensures AnswersFrom(log, p, i, names, cursor).Some? ==>
      AnswersFrom(log, p, i, names, cursor).value == Window(log, tables[i..], cursor, p.position.value)
    decreases |names| - i
  {
    if i < |names| {
      assert tables[i..][1..] == tables[i + 1..];
      AnswersAreWindow(log, p, i + 1, names, tables, cursor);
    }
  }

  function Delivered(got: Got): seq<Change> {
    if got.Returned? then [got.change] else []
  }

  /** CDC: any other position is fetched, the window from the cursor to it. */
  lemma FetchesOtherPosition(log: seq<Entry>, names: seq<string>, tables: seq<TableRef>, cursor: nat, p: Poll)
    requires p.CdcPoll? && p.position.Some? && p.position.value != cursor && Splits(names, tables)
    requires forall i :: 0 <= i < |names| ==> i !in p.fails
    ensures FetchNext(log, names, cursor, p) == Some((Window(log, tables, cursor, p.position.value), p.position.value))
  {
    AnswersIfAnswered(log, p, 0, names, cursor);
    AnswersAreWindow(log, p, 0, names, tables, cursor);
    assert tables[0..] == tables;
  }

  /** What one call of Next comes to: an error only for a failed fetch, a wait only for an
      empty one, and else the oldest change not yet returned. */
  lemma NextOutcome(log: seq<Entry>, names: seq<string>, s: Stream, p: Poll)
    ensures var fetched := FetchNext(log, names, s.cursor, p);
      var (got, s1) := NextOf(s, fetched);
      && (got == Failed <==> s.pending == [] && fetched.None?)
      && (got == Interrupted <==> s.pending == [] && fetched.Some? && fetched.value.0 == [])
      && (got.Returned? ==> [got.change] + s1.pending == if s.pending != [] then s.pending else fetched.value.0)
      && (!got.Returned? ==> s1 == s)
  {}

  /** One call: what it adds to the books is what it fetched. */
  lemma NextConserves(log: seq<Entry>, names: seq<string>, tables: seq<TableRef>, s: Stream, p: Poll)
    requires Splits(names, tables) && p.CdcPoll?
    ensures var fetched := FetchNext(log, names, s.cursor, p);
      var (got, s1) := NextOf(s, fetched);
      if s.pending == [] && fetched.Some? && fetched.value.0 != [] then
        s1.cursor == fetched.value.1 && Delivered(got) + s1.pending == Window(log, tables, s.cursor, s1.cursor)
      else s1.cursor == s.cursor && Delivered(got) + s1.pending == s.pending
  {
    if p.position.Some? {
      AnswersAreWindow(log, p, 0, names, tables, s.cursor);
      assert tables[0..] == tables;
    }
  }

  lemma WindowsStep(log: seq<Entry>, tables: seq<TableRef>, from: nat, mark: nat, later: seq<nat>)
    ensures Windows(log, tables, from, [mark] + later)
         == Window(log, tables, from, mark) + Windows(log, tables, mark, later)
    ensures LastMark(from, [mark] + later) == LastMark(mark, later)
  {
    assert ([mark] + later)[1..] == later;
  }

  lemma Splice(first: seq<Change>, rest: seq<Change>, pending: seq<Change>, more: seq<Change>, windows: seq<Change>)
    requires rest + pending == more + windows
    ensures (first + rest) + pending == (first + more) + windows
  {
    assert (first + rest) + pending == first + (rest + pending);
    assert (first + more) + windows == first + (more + windows);
  }

  /** The window invariant, for every run of Next: what was buffered, followed by the
      adjoining windows fetched, is what was returned followed by what is buffered. */
  lemma {:induction false} WindowInvariant(log: seq<Entry>, names: seq<string>, tables: seq<TableRef>, s: Stream,
      polls: seq<Poll>)
    requires Splits(names, tables) && AllCdc(polls)
    ensures var (got, s') := Drain(log, names, s, polls);
      var marks := Marks(log, names, s, polls);
      got + s'.pending == s.pending + Windows(log, tables, s.cursor, marks) && s'.cursor == LastMark(s.cursor, marks)
    decreases polls
  {
    if polls != [] {
      var fetched := FetchNext(log, names, s.cursor, polls[0]);
      var (got, s1) := NextOf(s, fetched);
      var (rest, s2) := Drain(log, names, s1, polls[1..]);
      var later := Marks(log, names, s1, polls[1..]);
      WindowInvariant(log, names, tables, s1, polls[1..]);
      NextConserves(log, names, tables, s, polls[0]);
      Splice(Delivered(got), rest, s2.pending, s1.pending, Windows(log, tables, s1.cursor, later));
      if s.pending == [] && fetched.Some? && fetched.value.0 != [] {
        WindowsStep(log, tables, s.cursor, s1.cursor, later);
        var all := Windows(log, tables, s.cursor, [s1.cursor] + later);
        assert [] + all == all;
      } else {
        assert [] + later == later;
      }
    }
  }
}
