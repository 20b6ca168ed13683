/** The algebra at-least-once delivery rests on. None of it needs well-formedness. */
module Replay {
  import opened Connector
  import opened Store

  lemma OverlayBand(a: Row, b: Row, c: Row)
    ensures ((c + a) + b) + a == (c + b) + a && (c + a) + a == c + a
    ensures (a + b) + a == b + a && a + a == a
  {}

  /** Doing x, then o, then x again is doing o, then x: whatever the first x did is
      redone or undone by what follows. Absorption is this law, iterated. */
  lemma BandRows(rows: Rows, x: Change, o: Change)
    ensures ApplyToRows(ApplyToRows(ApplyToRows(rows, x), o), x) == ApplyToRows(ApplyToRows(rows, o), x)
  {
    var once, other := ApplyToRows(rows, x), ApplyToRows(rows, o);
    var mixed := ApplyToRows(once, o);
    forall k ensures At(ApplyToRows(mixed, x), k) == At(ApplyToRows(other, x), k) {
      ApplyAt(rows, x, k);
      ApplyAt(rows, o, k);
      ApplyAt(once, o, k);
      ApplyAt(mixed, x, k);
      ApplyAt(other, x, k);
      OverlayBand(x.after, o.after, if k in rows then rows[k] else map[]);
    }
    SameRows(ApplyToRows(mixed, x), ApplyToRows(other, x));
  }

  lemma RepeatRows(rows: Rows, x: Change)
    ensures ApplyToRows(ApplyToRows(rows, x), x) == ApplyToRows(rows, x)
  {
    if IsUpsert(x) {
      assert x.after + x.after == x.after;
      if x.pk in rows {
        assert (rows[x.pk] + x.after) + x.after == rows[x.pk] + x.after;
      }
    }
  }

  lemma Band(db: Db, x: Change, o: Change)
    ensures ApplyChange(ApplyChange(ApplyChange(db, x), o), x) == ApplyChange(ApplyChange(db, o), x)
  {
    var rows := RowsOf(db, Ref(x));
    if Ref(x) == Ref(o) {
      BandRows(rows, x, o);
    } else {
      RepeatRows(rows, x);
      assert RowsOf(ApplyChange(ApplyChange(db, x), o), Ref(x)) == ApplyToRows(rows, x);
      assert RowsOf(ApplyChange(db, o), Ref(x)) == rows;
    }
  }

  /** A change that occurs in `ops` may be applied beforehand, unnoticed. */
  lemma {:induction false} Absorb(db: Db, x: Change, ops: seq<Change>)
    requires x in ops
    ensures ApplyAll(ApplyChange(db, x), ops) == ApplyAll(db, ops)
    decreases ops
  {
    var o, rest := ops[0], ops[1..];
    if x in rest {
      Absorb(ApplyChange(ApplyChange(db, x), o), x, rest);
      Band(db, x, o);
      Absorb(ApplyChange(db, o), x, rest);
    } else {
      RepeatRows(RowsOf(db, Ref(x)), x);
      assert ApplyChange(ApplyChange(db, x), x) == ApplyChange(db, x);
    }
  }

  lemma {:induction false} AbsorbAll(db: Db, prior: seq<Change>, ops: seq<Change>)
    requires forall x :: x in prior ==> x in ops
    ensures ApplyAll(ApplyAll(db, prior), ops) == ApplyAll(db, ops)
    decreases prior
  {
    if prior != [] {
      AbsorbAll(ApplyChange(db, prior[0]), prior[1..], ops);
      Absorb(db, prior[0], ops);
    }
  }

  /** Applying a batch twice is applying it once. */
  lemma Idempotent(db: Db, batch: seq<Change>)
    ensures ApplyAll(ApplyAll(db, batch), batch) == ApplyAll(db, batch)
  {
    AbsorbAll(db, batch, batch);
  }

  // ---- Replay from earlier positions ----

  /** One move of a delivery: hand over the next change, or go back to a position. */
  datatype Move = Forward | Back(pos: nat)

  /** A move that is not possible (past the end, or not backwards) does nothing. */
  function Deliver(log: seq<Change>, db: Db, pos: nat, moves: seq<Move>): (r: (Db, nat))
    requires pos <= |log|
    ensures r.1 <= |log|
    decreases moves
  {
    if moves == [] then (db, pos)
    else match moves[0]
      case Forward =>
        if pos < |log| then Deliver(log, ApplyChange(db, log[pos]), pos + 1, moves[1..])
        else Deliver(log, db, pos, moves[1..])
      case Back(p) => Deliver(log, db, if p <= pos then p else pos, moves[1..])
  }

  function Ahead(n: nat): seq<Move> {
    if n == 0 then [] else [Forward] + Ahead(n - 1)
  }

  lemma {:induction false} Advances(log: seq<Change>, db: Db, pos: nat, n: nat, rest: seq<Move>)
    requires pos + n <= |log|
    ensures Deliver(log, db, pos, Ahead(n) + rest) == Deliver(log, ApplyAll(db, log[pos..pos + n]), pos + n, rest)
    decreases n
  {
    if n == 0 {
      assert Ahead(0) + rest == rest;
    } else {
      assert (Ahead(n) + rest)[0] == Forward && (Ahead(n) + rest)[1..] == Ahead(n - 1) + rest;
      assert log[pos..pos + n][1..] == log[pos + 1..pos + n];
      Advances(log, ApplyChange(db, log[pos]), pos + 1, n - 1, rest);
    }
  }

  lemma JumpsBack(log: seq<Change>, db: Db, pos: nat, j: nat, rest: seq<Move>)
    requires j <= pos <= |log|
    ensures Deliver(log, db, pos, [Back(j)] + rest) == Deliver(log, db, j, rest)
  {
    assert ([Back(j)] + rest)[1..] == rest;
  }

  lemma RunsOn(log: seq<Change>, db: Db, j: nat)
    requires j <= |log|
    ensures Deliver(log, db, j, Ahead(|log| - j)) == (ApplyAll(db, log[j..]), |log|)
  {
    var rest := Ahead(|log| - j);
    assert rest + [] == rest && log[j..j + (|log| - j)] == log[j..];
    Advances(log, db, j, |log| - j, []);
  }

  /** What a jump does: a trace that delivers i changes, goes back to position j and runs
      to the end applies the first i changes and then everything from j on. */
  lemma JumpReplays(log: seq<Change>, start: Db, i: nat, j: nat)
    requires j <= i <= |log|
    ensures Deliver(log, start, 0, Ahead(i) + ([Back(j)] + Ahead(|log| - j)))
         == (ApplyAll(start, log[..i] + log[j..]), |log|)
  {
    var rest, db := Ahead(|log| - j), ApplyAll(start, log[..i]);
    assert log[0..i] == log[..i];
    Advances(log, start, 0, i, [Back(j)] + rest);
    JumpsBack(log, db, i, j, rest);
    RunsOn(log, db, j);
    ApplyAllAppend(start, log[..i], log[j..]);
  }

  /** From here, and from any earlier position, the log leads to the same end. */
  ghost predicate Converging(log: seq<Change>, start: Db, db: Db, pos: nat)
    requires pos <= |log|
  {
    forall j :: 0 <= j <= pos ==> ApplyAll(db, log[j..]) == ApplyAll(start, log)
  }

  lemma ForwardConverges(log: seq<Change>, start: Db, db: Db, pos: nat)
    requires pos < |log| && Converging(log, start, db, pos)
    ensures Converging(log, start, ApplyChange(db, log[pos]), pos + 1)
  {
    forall j | 0 <= j <= pos + 1 ensures ApplyAll(ApplyChange(db, log[pos]), log[j..]) == ApplyAll(start, log) {
      if j <= pos {
        assert log[pos] == log[j..][pos - j];
        Absorb(db, log[pos], log[j..]);
      } else {
        assert log[pos..][0] == log[pos] && log[pos..][1..] == log[j..];
      }
    }
  }

  lemma {:induction false} DeliverConverging(log: seq<Change>, start: Db, db: Db, pos: nat, moves: seq<Move>)
    requires pos <= |log| && Converging(log, start, db, pos)
    ensures var (db', pos') := Deliver(log, db, pos, moves); Converging(log, start, db', pos')
    decreases moves
  {
    if moves != [] {
      match moves[0]
      case Forward =>
        if pos < |log| {
          ForwardConverges(log, start, db, pos);
          DeliverConverging(log, start, ApplyChange(db, log[pos]), pos + 1, moves[1..]);
        } else {
          DeliverConverging(log, start, db, pos, moves[1..]);
        }
      case Back(p) => DeliverConverging(log, start, db, if p <= pos then p else pos, moves[1..]);
    }
  }

  /** Replay convergence: at every point of every delivery, finishing the log from
      there or from any earlier position gives the in-order result; a delivery that
      is at the end has it already. */
  lemma ReplayConverges(log: seq<Change>, start: Db, moves: seq<Move>, j: nat)
    requires j <= Deliver(log, start, 0, moves).1
    ensures ApplyAll(Deliver(log, start, 0, moves).0, log[j..]) == ApplyAll(start, log)
    ensures Deliver(log, start, 0, moves).1 == |log| ==> Deliver(log, start, 0, moves).0 == ApplyAll(start, log)
  {
    assert log[0..] == log;
    DeliverConverging(log, start, start, 0, moves);
    assert log[|log|..] == [];
  }
}
