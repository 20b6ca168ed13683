/** Change Tracking windows overlap, and converge all the same. */
module ChangeTracking {
  import opened Wrappers
  import opened Connector
  import opened Text
  import opened Store
  import opened ChangeStream
  import opened StreamProperties

  /** The source: `hist[v]` is the change that made version v + 1. */
  datatype Source = Source(init: Db, hist: seq<Change>)

  function Snapshot(src: Source, v: nat, t: TableRef): Rows
    requires v <= |src.hist|
  {
    RowsOf(ApplyAll(src.init, src.hist[..v]), t)
  }

  ghost predicate Touches(src: Source, from: nat, v: nat, t: TableRef, k: Row)
    requires v <= |src.hist|
  {
    exists i :: from <= i < v && Ref(src.hist[i]) == t && src.hist[i].pk == k
  }

  /** A net change carries its row as it is at the time of the query: whole, or gone. */
  predicate Carries(x: Change, rows: Rows) {
    if x.pk in rows then IsUpsert(x) && x.after == rows[x.pk] else x.op == Delete
  }

  /** CHANGETABLE(CHANGES t, from) asked at version v: one net change for every key
      touched since `from`, joined with the current rows. */
  ghost predicate IsNet(res: seq<Change>, src: Source, t: TableRef, from: nat, v: nat)
    requires v <= |src.hist|
  {
    && (forall x :: x in res ==> Ref(x) == t && Carries(x, Snapshot(src, v, t)) && Touches(src, from, v, t, x.pk))
    && (forall k :: Touches(src, from, v, t, k) ==> exists x :: x in res && x.pk == k)
  }

  /** Replaying net changes sets exactly the keys they name to their current rows. */
  lemma {:induction false} NetSets(rows: Rows, res: seq<Change>, goal: Rows, cols: set<string>, k: Row)
    requires WholeRows(cols, rows) && WholeRows(cols, goal) && forall x :: x in res ==> Carries(x, goal)
    ensures At(RowsAll(rows, res), k) == if exists x :: x in res && x.pk == k then At(goal, k) else At(rows, k)
    decreases res
  {
    if res != [] {
      var x := res[0];
      assert x in res && Carries(x, goal);
      ApplyAt(rows, x, k);
      var next := ApplyToRows(rows, x);
      if x.pk in goal && x.pk in rows {
        assert rows[x.pk] + x.after == x.after;
      }
      NetSets(next, res[1..], goal, cols, k);
      assert forall y :: y in res <==> y == x || y in res[1..];
    }
  }

  lemma {:induction false} UntouchedStays(src: Source, t: TableRef, from: nat, v: nat, k: Row)
    requires from <= v <= |src.hist| && !Touches(src, from, v, t, k)
    ensures At(Snapshot(src, from, t), k) == At(Snapshot(src, v, t), k)
    decreases v
  {
    if from < v {
      var ch := src.hist[v - 1];
      UntouchedStays(src, t, from, v - 1, k);
      assert src.hist[..v] == src.hist[..v - 1] + [ch];
      ApplyAllAppend(src.init, src.hist[..v - 1], [ch]);
      var prior := ApplyAll(src.init, src.hist[..v - 1]);
      assert [ch][1..] == [] && ApplyAll(prior, [ch]) == ApplyChange(prior, ch);
      ApplyAt(RowsOf(prior, t), ch, k);
    }
  }

  /** One table, one window: a target that shows the source at some version not older
      than the cursor shows it, after the window, at the version of the window. */
  lemma NetConverges(src: Source, t: TableRef, cols: set<string>, rows: Rows, res: seq<Change>, from: nat,
      was: nat, now: nat)
    requires from <= was <= now <= |src.hist| && rows == Snapshot(src, was, t)
    requires WholeRows(cols, rows) && WholeRows(cols, Snapshot(src, now, t)) && IsNet(res, src, t, from, now)
    ensures RowsAll(rows, res) == Snapshot(src, now, t)
  {
    var goal := Snapshot(src, now, t);
    forall k ensures At(RowsAll(rows, res), k) == At(goal, k) {
      NetSets(rows, res, goal, cols, k);
      if !Touches(src, from, now, t, k) {
        UntouchedStays(src, t, was, now, k);
      }
    }
    SameRows(RowsAll(rows, res), goal);
  }

  // ---- A fetch over all tables, and a run of fetches ----

  /** Column sets of the subscribed tables, at every version. */
  ghost predicate Whole(src: Source, tables: seq<TableRef>, cols: map<TableRef, set<string>>) {
    forall i, v :: 0 <= i < |tables| && 0 <= v <= |src.hist| ==>
      tables[i] in cols && WholeRows(cols[tables[i]], Snapshot(src, v, tables[i]))
  }

  /** The version at which each table was last asked; a table may be listed twice. */
  type Versions = map<TableRef, nat>

  /** The position is read first, then the tables are asked in turn: asked[i] is the
      version of the source when the i-th question is answered. */
  ghost predicate Honest(src: Source, tables: seq<TableRef>, cursor: nat, last: Versions, p: Poll, asked: seq<nat>) {
    && |asked| == |tables|
    && (forall i :: 0 <= i < |tables| ==> asked[i] <= |src.hist|)
    && (forall i :: 0 <= i < |tables| && tables[i] in last ==> last[tables[i]] <= asked[i])
    && (forall i, j :: 0 <= i < j < |tables| ==> asked[i] <= asked[j])
    && p.CtPoll?
    && (p.position.Some? ==> forall i :: 0 <= i < |tables| ==> p.position.value <= asked[i])
    && (forall i :: 0 <= i < |tables| && i < |p.answers| && p.answers[i].Some? ==>
          IsNet(p.answers[i].value, src, tables[i], cursor, asked[i]))
  }

  /** The target shows each table as it was at last[t], which the cursor has not passed. */
  ghost predicate Shows(src: Source, tables: seq<TableRef>, target: Db, cursor: nat, last: Versions) {
    forall t :: t in tables ==>
      t in last && cursor <= last[t] <= |src.hist| && RowsOf(target, t) == Snapshot(src, last[t], t)
  }

  /** The versions after the tables from the i-th on have been asked. */
  function Asked(last: Versions, tables: seq<TableRef>, asked: seq<nat>, i: nat): Versions
    requires i <= |tables| == |asked|
    decreases |tables| - i
  {
    if i == |tables| then last else Asked(last[tables[i] := asked[i]], tables, asked, i + 1)
  }

  lemma {:induction false} AskedIsLate(last: Versions, tables: seq<TableRef>, asked: seq<nat>, i: nat, least: nat)
    requires i <= |tables| == |asked|
    requires forall j :: i <= j < |tables| ==> least <= asked[j]
    ensures forall t :: t in tables[i..] ==> t in Asked(last, tables, asked, i)
    ensures forall t :: t in Asked(last, tables, asked, i) && (t in tables[i..] || (t in last && least <= last[t])) ==>
      least <= Asked(last, tables, asked, i)[t]
    decreases |tables| - i
  {
    if i < |tables| {
      AskedIsLate(last[tables[i] := asked[i]], tables, asked, i + 1, least);
      AskedKeeps(last[tables[i] := asked[i]], tables, asked, i + 1);
      assert forall t :: t in tables[i..] <==> t == tables[i] || t in tables[i + 1..];
    }
  }

  lemma {:induction false} AskedKeeps(last: Versions, tables: seq<TableRef>, asked: seq<nat>, i: nat)
    requires i <= |tables| == |asked|
    ensures forall t :: t in last ==> t in Asked(last, tables, asked, i)
    decreases |tables| - i
  {
    if i < |tables| {
      AskedKeeps(last[tables[i] := asked[i]], tables, asked, i + 1);
    }
  }

  lemma {:induction false} ProjectOwn(res: seq<Change>, of: TableRef, t: TableRef)
    requires forall x :: x in res ==> Ref(x) == of
    ensures Project(res, t) == if of == t then res else []
  {
    if res != [] {
      assert res[0] in res;
      ProjectOwn(res[1..], of, t);
    }
  }

  lemma AnswersSplit(p: Poll, names: seq<string>, cursor: nat, i: nat)
    requires i < |names| && p.CtPoll? && AnswersFrom([], p, i, names, cursor).Some?
    ensures i < |p.answers| && p.answers[i].Some? && AnswersFrom([], p, i + 1, names, cursor).Some?
    ensures AnswersFrom([], p, i, names, cursor).value
         == p.answers[i].value + AnswersFrom([], p, i + 1, names, cursor).value
  {}

  /** One answer moves its own table on, and no other. */
  lemma AnswerShows(src: Source, tables: seq<TableRef>, cols: map<TableRef, set<string>>, target: Db,
      cursor: nat, last: Versions, i: nat, res: seq<Change>, now: nat)
    requires i < |tables| && Whole(src, tables, cols) && Shows(src, tables, target, cursor, last)
    requires now <= |src.hist| && last[tables[i]] <= now && IsNet(res, src, tables[i], cursor, now)
    ensures Shows(src, tables, ApplyAll(target, res), cursor, last[tables[i] := now])
  {
    var own := tables[i];
    NetConverges(src, own, cols[own], RowsOf(target, own), res, cursor, last[own], now);
    forall t | t in tables
      ensures RowsOf(ApplyAll(target, res), t) == Snapshot(src, if t == own then now else last[t], t)
    {
      TableView(target, res, t);
      ProjectOwn(res, own, t);
    }
  }

  lemma {:induction false} AnswersShow(src: Source, names: seq<string>, tables: seq<TableRef>,
      cols: map<TableRef, set<string>>, target: Db, cursor: nat, last: Versions, p: Poll, asked: seq<nat>, i: nat)
    requires i <= |tables| == |names| && Whole(src, tables, cols)
    requires Shows(src, tables, target, cursor, last) && |asked| == |tables| && p.CtPoll?
    requires forall j :: i <= j < |tables| ==> last[tables[j]] <= asked[j] <= |src.hist|
    requires forall j, k :: i <= j < k < |tables| ==> asked[j] <= asked[k]
    requires forall j :: i <= j < |tables| && j < |p.answers| && p.answers[j].Some? ==>
      IsNet(p.answers[j].value, src, tables[j], cursor, asked[j])
    requires AnswersFrom([], p, i, names, cursor).Some?
    ensures Shows(src, tables, ApplyAll(target, AnswersFrom([], p, i, names, cursor).value), cursor,
                  Asked(last, tables, asked, i))
    decreases |tables| - i
  {
    if i < |tables| {
      AnswersSplit(p, names, cursor, i);
      var first := p.answers[i].value;
      var next := ApplyAll(target, first);
      AnswerShows(src, tables, cols, target, cursor, last, i, first, asked[i]);
      AnswersShow(src, names, tables, cols, next, cursor, last[tables[i] := asked[i]], p, asked, i + 1);
      ApplyAllAppend(target, first, AnswersFrom([], p, i + 1, names, cursor).value);
    }
  }

  /** One fetch keeps the target in step, whatever overlaps with earlier windows and
      however often a table is listed. */
  lemma FetchShows(src: Source, names: seq<string>, tables: seq<TableRef>, cols: map<TableRef, set<string>>,
      target: Db, cursor: nat, last: Versions, p: Poll, asked: seq<nat>)
    requires Splits(names, tables) && Whole(src, tables, cols)
    requires Shows(src, tables, target, cursor, last) && Honest(src, tables, cursor, last, p, asked)
    requires p.position.Some? && !NothingNew(p, cursor) && AnswersFrom([], p, 0, names, cursor).Some?
    ensures Shows(src, tables, ApplyAll(target, AnswersFrom([], p, 0, names, cursor).value), p.position.value,
                  Asked(last, tables, asked, 0))
  {
    AnswersShow(src, names, tables, cols, target, cursor, last, p, asked, 0);
    AskedIsLate(last, tables, asked, 0, p.position.value);
    assert tables[0..] == tables;
  }

  /** The versions the target shows after a call of Next. */
  function Shown(names: seq<string>, tables: seq<TableRef>, s: Stream, last: Versions, p: Poll,
      asked: seq<nat>): Versions
    requires |tables| == |asked|
  {
    var fetched := FetchNext([], names, s.cursor, p);
    if s.pending == [] && fetched.Some? && fetched.value.0 != [] then Asked(last, tables, asked, 0) else last
  }

  /** Every poll of a run is honest about the cursor it meets. */
  ghost predicate HonestRun(src: Source, names: seq<string>, tables: seq<TableRef>, s: Stream, last: Versions,
      polls: seq<Poll>, asked: seq<seq<nat>>)
    decreases polls
  {
    |polls| == |asked| && (polls != [] ==>
      && Honest(src, tables, s.cursor, last, polls[0], asked[0])
      && HonestRun(src, names, tables, NextOf(s, FetchNext([], names, s.cursor, polls[0])).1,
                   Shown(names, tables, s, last, polls[0], asked[0]), polls[1..], asked[1..]))
  }

  /** The versions the target shows after a run. */
  ghost function ShownAfter(src: Source, names: seq<string>, tables: seq<TableRef>, s: Stream, last: Versions,
      polls: seq<Poll>, asked: seq<seq<nat>>): Versions
    requires HonestRun(src, names, tables, s, last, polls, asked)
    decreases polls
  {
    if polls == [] then last
    else
      ShownAfter(src, names, tables, NextOf(s, FetchNext([], names, s.cursor, polls[0])).1,
                 Shown(names, tables, s, last, polls[0], asked[0]), polls[1..], asked[1..])
  }

  lemma NextShows(src: Source, names: seq<string>, tables: seq<TableRef>, cols: map<TableRef, set<string>>,
      target: Db, s: Stream, last: Versions, p: Poll, asked: seq<nat>)
    requires Splits(names, tables) && Whole(src, tables, cols)
    requires Shows(src, tables, ApplyAll(target, s.pending), s.cursor, last)
    requires Honest(src, tables, s.cursor, last, p, asked)
    ensures var (got, s1) := NextOf(s, FetchNext([], names, s.cursor, p));
      Shows(src, tables, ApplyAll(ApplyAll(target, Delivered(got)), s1.pending), s1.cursor,
            Shown(names, tables, s, last, p, asked))
  {
    var fetched := FetchNext([], names, s.cursor, p);
    var (got, s1) := NextOf(s, fetched);
    ApplyAllAppend(target, Delivered(got), s1.pending);
    if s.pending == [] && fetched.Some? && fetched.value.0 != [] {
      FetchShows(src, names, tables, cols, target, s.cursor, last, p, asked);
      assert Delivered(got) + s1.pending == fetched.value.0;
    } else {
      assert Delivered(got) + s1.pending == s.pending;
    }
  }

  lemma {:induction false} RunShows(src: Source, names: seq<string>, tables: seq<TableRef>,
      cols: map<TableRef, set<string>>, target: Db, s: Stream, last: Versions, polls: seq<Poll>, asked: seq<seq<nat>>)
    requires Splits(names, tables) && Whole(src, tables, cols)
    requires Shows(src, tables, ApplyAll(target, s.pending), s.cursor, last)
    requires HonestRun(src, names, tables, s, last, polls, asked)
    ensures var (got, s') := Drain([], names, s, polls);
      Shows(src, tables, ApplyAll(target, got + s'.pending), s'.cursor,
            ShownAfter(src, names, tables, s, last, polls, asked))
    decreases polls
  {
    if polls == [] {
      assert [] + s.pending == s.pending;
    } else {
      var (got, s1) := NextOf(s, FetchNext([], names, s.cursor, polls[0]));
      var (rest, s2) := Drain([], names, s1, polls[1..]);
      NextShows(src, names, tables, cols, target, s, last, polls[0], asked[0]);
      var next := ApplyAll(target, Delivered(got));
      var shown := Shown(names, tables, s, last, polls[0], asked[0]);
      RunShows(src, names, tables, cols, next, s1, shown, polls[1..], asked[1..]);
      ApplyAllAppend(target, Delivered(got), rest + s2.pending);
      assert (Delivered(got) + rest) + s2.pending == Delivered(got) + (rest + s2.pending);
    }
  }

  // ---- A run keeps up ----

  /** A call that finds a newer version, an answer for every table, and something in them. */
  ghost predicate Brings(names: seq<string>, s: Stream, p: Poll) {
    && s.pending == [] && p.CtPoll? && p.position.Some? && p.position.value > s.cursor && |names| <= |p.answers|
    && (forall i :: 0 <= i < |names| ==> SplitTable(names[i]).Some? && p.answers[i].Some?)
    && EndToEnd(p.answers, |names|) != []
  }

  lemma {:induction false} CursorAdvances(names: seq<string>, s: Stream, polls: seq<Poll>)
    requires forall p :: p in polls ==> p.CtPoll?
    ensures Drain([], names, s, polls).1.cursor >= s.cursor
    decreases polls
  {
    if polls != [] {
      assert polls[0] in polls;
      CursorAdvances(names, NextOf(s, FetchNext([], names, s.cursor, polls[0])).1, polls[1..]);
    }
  }

  /** After such a call, the cursor is at or past the version it found. */
  lemma {:induction false} CursorKeepsUp(names: seq<string>, s: Stream, polls: seq<Poll>, i: nat)
    requires i < |polls| && forall p :: p in polls ==> p.CtPoll?
    requires Brings(names, Drain([], names, s, polls[..i]).1, polls[i])
    ensures Drain([], names, s, polls).1.cursor >= polls[i].position.value
    decreases i
  {
    assert polls[0] in polls;
    var next := NextOf(s, FetchNext([], names, s.cursor, polls[0])).1;
    if i == 0 {
      FetchesNewerVersion(names, s.cursor, polls[0]);
      CursorAdvances(names, next, polls[1..]);
    } else {
      assert polls[..i][0] == polls[0] && polls[..i][1..] == polls[1..][..i - 1];
      CursorKeepsUp(names, next, polls[1..], i - 1);
    }
  }

  lemma {:induction false} HonestPolls(src: Source, names: seq<string>, tables: seq<TableRef>, s: Stream,
      last: Versions, polls: seq<Poll>, asked: seq<seq<nat>>)
    requires HonestRun(src, names, tables, s, last, polls, asked)
    ensures forall p :: p in polls ==> p.CtPoll?
    decreases polls
  {
    if polls != [] {
      HonestPolls(src, names, tables, NextOf(s, FetchNext([], names, s.cursor, polls[0])).1,
                  Shown(names, tables, s, last, polls[0], asked[0]), polls[1..], asked[1..]);
    }
  }

  /** Overlapping windows converge: in every run, applying what Next returned and what it
      still buffers leaves each table as the source had it at the last question; no table
      is behind the cursor, and none is behind a version at which a call found changes. */
  lemma RunConverges(src: Source, names: seq<string>, tables: seq<TableRef>,
      cols: map<TableRef, set<string>>, target: Db, s: Stream, last: Versions, polls: seq<Poll>, asked: seq<seq<nat>>)
    requires Splits(names, tables) && Whole(src, tables, cols)
    requires Shows(src, tables, ApplyAll(target, s.pending), s.cursor, last)
    requires HonestRun(src, names, tables, s, last, polls, asked)
    ensures var (got, s') := Drain([], names, s, polls);
      var shown := ShownAfter(src, names, tables, s, last, polls, asked);
      && Shows(src, tables, ApplyAll(target, got + s'.pending), s'.cursor, shown)
      && forall i :: 0 <= i < |polls| && Brings(names, Drain([], names, s, polls[..i]).1, polls[i]) ==>
           forall t :: t in tables ==> polls[i].position.value <= shown[t]
  {
    RunShows(src, names, tables, cols, target, s, last, polls, asked);
    HonestPolls(src, names, tables, s, last, polls, asked);
    forall i | 0 <= i < |polls| && Brings(names, Drain([], names, s, polls[..i]).1, polls[i])
      ensures polls[i].position.value <= Drain([], names, s, polls).1.cursor
    {
      CursorKeepsUp(names, s, polls, i);
    }
  }
}
