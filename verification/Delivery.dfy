/** The whole delivery path as one machine: a stop-and-wait caller, the dialer, an
    unreliable connection, the listener and the writer behind it. */
module Delivery {
  import opened Wrappers
  import opened Connector
  import opened Store
  import opened Replay
  import opened Transport
  import D = Dialing
  import L = Listener
  import Postgres

  /** What stays fixed: the batches the caller has to deliver, and both configurations. */
  datatype World = World(start: Db, batches: seq<ChangeBatch>, node: string,
                         subscribe: seq<string>, published: L.Published)

  datatype SinkPhase = AwaitingHello | Serving | Refused

  datatype Frame = Up(msg: Msg) | Down(msg: Msg)

  /** One connection. `up` and `down` are the frames on the wire, oldest first; `recvCh`
      and `recvErr` are the dialer's channels; `trace` is every frame ever written. */
  datatype Conn = Conn(sink: SinkPhase, up: seq<Msg>, down: seq<Msg>,
                       recvCh: seq<Msg>, recvErr: bool, trace: seq<Frame>)

  /** `stale` holds batches that reached the sink over connections the dialer has given
      up; their handlers may still apply them. `acked` counts the Acks consumed. */
  datatype Sys = Sys(dialer: D.State, conn: Option<Conn>, stale: seq<ChangeBatch>,
                     db: Db, acked: nat, waiting: bool)

  /** One step of one participant, environment choices included. `landed`: the
      transaction committed, whatever the client was told. */
  datatype Action =
    | CallerSends | CallerTakesAck | CallerTakesNack
    | Dial | SinkGreets(sent: bool) | SourceGreeted | HangUp
    | Reads | ReadBreaks
    | Vanishes(ups: nat, downs: nat)
    | Selects(e: D.Event)
    | Writes(ok: bool, arrives: bool)
    | Serves(landed: bool, ok: bool, reason: string)
    | StaleServes(landed: bool)
    | StaleDies

  const RECV_CAPACITY := 4

  function Batches(frames: seq<Msg>): seq<ChangeBatch> {
    if frames == [] then []
    else (if frames[0].Batch? then [frames[0].batch] else []) + Batches(frames[1..])
  }

  function Commit(db: Db, b: ChangeBatch, landed: bool): Db {
    if landed then ApplyAll(db, b.changes) else db
  }

  /** The dialer returns from runOnce; what is on the wire may still reach the sink. */
  function Drop(s: Sys): Sys {
    if s.conn.None? then s
    else s.(conn := None,
            stale := s.stale + if s.conn.value.sink.Serving? then Batches(s.conn.value.up) else [])
  }

  /** Steps of the caller: one batch at a time, again on a Nack, the next on an Ack. */
  function Calls(w: World, s: Sys, a: Action): Sys {
    match a
    case CallerSends =>
      if !s.waiting && s.acked < |w.batches| && |s.dialer.send| < D.CAPACITY then
        s.(dialer := D.Step(s.dialer, D.Enqueue(w.batches[s.acked])), waiting := true)
      else s
    case CallerTakesAck =>
      if s.waiting && s.dialer.acks != [] then
        s.(dialer := D.Step(s.dialer, D.TakeAck), acked := s.acked + 1, waiting := false)
      else s
    case CallerTakesNack =>
      if s.waiting && s.dialer.nacks != [] then
        s.(dialer := D.Step(s.dialer, D.TakeNack), waiting := false)
      else s
    case _ => s
  }

  /** Steps on the current connection that leave it in place or give it up. */
  function Connects(w: World, s: Sys, c: Conn, a: Action): Sys {
    match a
    case SinkGreets(sent) =>
      if c.sink.AwaitingHello? && c.up != [] then
        var m := L.Answer(w.published, c.up[0]);
        var read := c.(up := c.up[1..]);
        var c' := if sent then read.(down := c.down + [m], trace := c.trace + [Down(m)]) else read;
        s.(conn := Some(c'.(sink := if sent && m.accepted then Serving else Refused)))
      else s
    case SourceGreeted =>
      if s.dialer.stage.Offline? && c.down != [] then
        if c.down[0].HelloAck? && c.down[0].accepted then
          s.(dialer := D.Step(s.dialer, D.Open), conn := Some(c.(down := c.down[1..])))
        else Drop(s)
      else s
    case HangUp => if s.dialer.stage.Offline? then Drop(s) else s
    case Reads =>
      if !s.dialer.stage.Offline? && !c.recvErr && c.down != [] && |c.recvCh| < RECV_CAPACITY then
        s.(conn := Some(c.(down := c.down[1..], recvCh := c.recvCh + [c.down[0]])))
      else s
    case ReadBreaks =>
      if s.dialer.stage.Offline? then s else s.(conn := Some(c.(recvErr := true)))
    case Vanishes(ups, downs) =>
      if ups <= |c.up| && downs <= |c.down| then
        s.(conn := Some(c.(up := c.up[..ups], down := c.down[..downs])))
      else s
    case _ => s
  }

  /** Steps of the stream goroutine. A write that fails may have arrived all the same. */
  function Streams(s: Sys, c: Conn, a: Action): Sys {
    match a
    case Selects(Cancelled) =>
      if s.dialer.stage.Selecting? then Drop(s.(dialer := D.Step(s.dialer, D.Cancelled))) else s
    case Selects(ReadFailed) =>
      if s.dialer.stage.Selecting? && c.recvErr then Drop(s.(dialer := D.Step(s.dialer, D.ReadFailed))) else s
    case Selects(Received(_)) =>
      if s.dialer.stage.Selecting? && c.recvCh != [] then
        s.(dialer := D.Step(s.dialer, D.Received(c.recvCh[0])), conn := Some(c.(recvCh := c.recvCh[1..])))
      else s
    case Selects(Take) => s.(dialer := D.Step(s.dialer, D.Take))
    case Writes(ok, arrives) =>
      if s.dialer.stage.Writing? && s.dialer.inflight.Some? then
        var m := Batch(s.dialer.inflight.value);
        var c' := c.(up := if arrives then c.up + [m] else c.up, trace := c.trace + [Up(m)]);
        var s' := s.(dialer := D.Step(s.dialer, D.Wrote(ok)), conn := Some(c'));
        if ok then s' else Drop(s')
      else s
    case _ => s
  }

  /** The batch the current connection's handler has to apply next, if any. */
  function Served(s: Sys): Option<ChangeBatch> {
    if s.conn.Some? && s.conn.value.sink.Serving? && s.conn.value.up != [] && s.conn.value.up[0].Batch?
    then Some(s.conn.value.up[0].batch) else None
  }

  /** Steps of the sink's handlers: Apply, then exactly one reply. */
  function Handles(s: Sys, a: Action): Sys {
    match a
    case Serves(landed, ok, reason) =>
      if Served(s).Some? && (ok ==> landed) then
        var c, b := s.conn.value, s.conn.value.up[0].batch;
        var m := if ok then Ack(b.id) else Nack(b.id, reason);
        s.(db := Commit(s.db, b, landed),
           conn := Some(c.(up := c.up[1..], down := c.down + [m], trace := c.trace + [Down(m)])))
      else s
    case StaleServes(landed) =>
      if s.stale != [] then s.(db := Commit(s.db, s.stale[0], landed), stale := s.stale[1..]) else s
    case StaleDies => if s.stale != [] then s.(stale := s.stale[1..]) else s
    case _ => s
  }

  function Dials(w: World, s: Sys): Sys {
    if s.conn.None? && s.dialer.stage.Offline? then
      var m := Hello(w.node, w.subscribe);
      s.(conn := Some(Conn(AwaitingHello, [m], [], [], false, [Up(m)])))
    else s
  }

  /** Any step of any participant. An action that is not possible in a state leaves it
      as it is. */
  function Free(w: World, s: Sys, a: Action): Sys {
    match a
    case CallerSends | CallerTakesAck | CallerTakesNack => Calls(w, s, a)
    case Dial => Dials(w, s)
    case SinkGreets(_) | SourceGreeted | HangUp | Reads | ReadBreaks | Vanishes(_, _) =>
      if s.conn.Some? then Connects(w, s, s.conn.value, a) else s
    case Selects(_) | Writes(_, _) => if s.conn.Some? then Streams(s, s.conn.value, a) else s
    case Serves(_, _, _) | StaleServes(_) | StaleDies => Handles(s, a)
  }

  /** The rule on old handlers, which nothing in the code enforces: the handler of a new
      connection applies a batch only if no older handler still holds a different one. */
  predicate Permitted(s: Sys, a: Action) {
    a.Serves? && Served(s).Some? ==> forall x :: x in s.stale ==> x == Served(s).value
  }

  function Do(w: World, s: Sys, a: Action): Sys {
    if Permitted(s, a) then Free(w, s, a) else s
  }

  function Run(w: World, s: Sys, actions: seq<Action>): Sys
    decreases actions
  {
    if actions == [] then s else Run(w, Do(w, s, actions[0]), actions[1..])
  }

  function Initial(w: World): Sys {
    Sys(D.FRESH, None, [], w.start, 0, false)
  }

  // ---- The invariant ----

  /** The target after the first k batches, in order. */
  function Upto(w: World, k: nat): Db
    requires k <= |w.batches|
  {
    if k == 0 then w.start else ApplyAll(Upto(w, k - 1), w.batches[k - 1].changes)
  }

  function Greeting(w: World): Msg {
    Hello(w.node, w.subscribe)
  }

  /** The handshake part of a connection: what is on its wire before streaming starts. */
  ghost predicate Shaken(w: World, s: Sys) {
    match s.conn
    case None => s.dialer.stage.Offline?
    case Some(c) =>
      var answer := L.Answer(w.published, Greeting(w));
      match c.sink
      case AwaitingHello =>
        s.dialer.stage.Offline? && c.up in {[], [Greeting(w)]} && c.down == [] && c.recvCh == []
      case Refused =>
        s.dialer.stage.Offline? && c.up == [] && c.recvCh == [] && c.down in {[], [answer]}
        && (c.down != [] ==> !answer.accepted)
      case Serving =>
        answer.accepted && (s.dialer.stage.Offline? ==> c.up == [] && c.recvCh == [] && c.down in {[], [answer]})
  }

  predicate Quiet(s: Sys) {
    s.dialer.stage.Offline? || s.conn.None?
    || (s.conn.value.up == [] && s.conn.value.down == [] && s.conn.value.recvCh == [])
  }

  predicate Replies(m: Msg, b: ChangeBatch) {
    m == Ack(b.id) || (m.Nack? && m.id == b.id)
  }

  /** The outstanding batch is in the target, and old handlers hold nothing else. */
  ghost predicate Settled(w: World, b: ChangeBatch, s: Sys)
    requires s.acked < |w.batches|
  {
    s.db == Upto(w, s.acked + 1) && forall x :: x in s.stale ==> x == b
  }

  /** Of the batches old handlers hold, the j-th is the outstanding one; or it and all
      before it are the one acknowledged last, and nothing later has landed. */
  ghost predicate Harmless(w: World, stale: seq<ChangeBatch>, acked: nat, db: Db, j: nat)
    requires j < |stale| && acked <= |w.batches|
  {
    (acked < |w.batches| && stale[j] == w.batches[acked]) || Over(w, stale, acked, db, j)
  }

  ghost predicate Over(w: World, stale: seq<ChangeBatch>, acked: nat, db: Db, j: nat)
    requires j < |stale| && acked <= |w.batches|
  {
    acked > 0 && db == Upto(w, acked) && forall i :: 0 <= i <= j ==> stale[i] == w.batches[acked - 1]
  }

  ghost predicate Held(w: World, stale: seq<ChangeBatch>, acked: nat, db: Db)
    requires acked <= |w.batches|
  {
    forall j :: 0 <= j < |stale| ==> Harmless(w, stale, acked, db, j)
  }

  lemma OverFirst(w: World, stale: seq<ChangeBatch>, acked: nat, db: Db, j: nat)
    requires j < |stale| && acked <= |w.batches|
    ensures Over(w, stale, acked, db, j) ==> Over(w, stale, acked, db, 0)
  {}

  lemma HeldAppends(w: World, stale: seq<ChangeBatch>, acked: nat, db: Db, more: seq<ChangeBatch>)
    requires acked < |w.batches| && Held(w, stale, acked, db) && forall x :: x in more ==> x == w.batches[acked]
    ensures Held(w, stale + more, acked, db)
  {
    forall j | 0 <= j < |stale + more| ensures Harmless(w, stale + more, acked, db, j) {
      if j < |stale| {
        assert Harmless(w, stale, acked, db, j);
      } else {
        assert (stale + more)[j] == more[j - |stale|] && more[j - |stale|] in more;
      }
    }
  }

  lemma HeldPops(w: World, stale: seq<ChangeBatch>, acked: nat, db: Db)
    requires acked <= |w.batches| && Held(w, stale, acked, db) && stale != []
    ensures Held(w, stale[1..], acked, db)
  {
    forall j | 0 <= j < |stale[1..]| ensures Harmless(w, stale[1..], acked, db, j) {
      assert Harmless(w, stale, acked, db, j + 1);
    }
  }

  /** All copies of one batch: before its Ack is consumed, and after. */
  lemma HeldSame(w: World, stale: seq<ChangeBatch>, acked: nat, db: Db)
    requires acked < |w.batches| && forall x :: x in stale ==> x == w.batches[acked]
    ensures Held(w, stale, acked, db)
    ensures db == Upto(w, acked + 1) ==> Held(w, stale, acked + 1, db)
  {
    assert forall j :: 0 <= j < |stale| ==> stale[j] in stale;
  }

  /** A late copy changes nothing, or lands the outstanding batch. */
  lemma HeldLands(w: World, stale: seq<ChangeBatch>, acked: nat, db: Db)
    requires acked <= |w.batches| && Held(w, stale, acked, db) && stale != []
    requires db == Upto(w, acked) || (acked < |w.batches| && db == Upto(w, acked + 1))
    ensures var after := Commit(db, stale[0], true);
      && Held(w, stale[1..], acked, after)
      && (after == db || (acked < |w.batches| && after == Upto(w, acked + 1)))
  {
    HeldPops(w, stale, acked, db);
    assert Harmless(w, stale, acked, db, 0);
    if Over(w, stale, acked, db, 0) {
      Idempotent(Upto(w, acked - 1), w.batches[acked - 1].changes);
    } else {
      Idempotent(Upto(w, acked), w.batches[acked].changes);
      forall x | x in stale[1..] ensures x == w.batches[acked] {
        var j :| 0 <= j < |stale[1..]| && stale[1..][j] == x;
        assert Harmless(w, stale, acked, db, j + 1);
        OverFirst(w, stale, acked, db, j + 1);
      }
      HeldSame(w, stale[1..], acked, Commit(db, stale[0], true));
    }
  }

  ghost predicate InQueue(b: ChangeBatch, s: Sys) {
    s.dialer.send == [b] && s.dialer.inflight.None? && s.dialer.acks == [] && s.dialer.nacks == []
    && Quiet(s) && !s.dialer.stage.Writing?
  }

  /** A batch in flight is on its way, or its one reply is, or either got lost. */
  ghost predicate InFlight(w: World, b: ChangeBatch, s: Sys)
    requires s.acked < |w.batches|
  {
    && s.dialer.send == [] && s.dialer.inflight == Some(b) && s.dialer.acks == [] && s.dialer.nacks == []
    && s.conn.Some? && !s.dialer.stage.Offline?
    && var c := s.conn.value;
    && (s.dialer.stage.Writing? ==> Quiet(s))
    && (Quiet(s)
        || (c.up == [Batch(b)] && c.down == [] && c.recvCh == [])
        || (c.up == [] && |c.down + c.recvCh| == 1 && Replies((c.down + c.recvCh)[0], b)
            && ((c.down + c.recvCh)[0].Ack? ==> Settled(w, b, s))))
  }

  ghost predicate Answered(w: World, b: ChangeBatch, s: Sys)
    requires s.acked < |w.batches|
  {
    && s.dialer.send == [] && s.dialer.inflight.None? && Quiet(s) && !s.dialer.stage.Writing?
    && ((s.dialer.acks == [Ack(b.id)] && s.dialer.nacks == [] && Settled(w, b, s))
        || (s.dialer.acks == [] && |s.dialer.nacks| == 1 && s.dialer.nacks[0].Nack? && s.dialer.nacks[0].id == b.id))
  }

  ghost predicate Idle(s: Sys) {
    s.dialer.send == [] && s.dialer.inflight.None? && s.dialer.acks == [] && s.dialer.nacks == []
    && Quiet(s) && !s.dialer.stage.Writing?
  }

  ghost predicate Landed(w: World, s: Sys)
    requires s.acked <= |w.batches|
  {
    s.db == Upto(w, s.acked) || (s.acked < |w.batches| && s.db == Upto(w, s.acked + 1))
  }

  ghost predicate Inv(w: World, s: Sys) {
    && s.acked <= |w.batches| && (s.waiting ==> s.acked < |w.batches|)
    && Held(w, s.stale, s.acked, s.db)
    && !s.dialer.stage.Blocked?
    && Landed(w, s) && Shaken(w, s)
    && if s.waiting then
         var b := w.batches[s.acked];
         InQueue(b, s) || InFlight(w, b, s) || Answered(w, b, s)
       else Idle(s)
  }

  lemma CallsKeep(w: World, s: Sys, a: Action)
    requires Inv(w, s)
    ensures Inv(w, Calls(w, s, a))
  {
    if s.waiting && s.dialer.acks != [] {
      HeldSame(w, s.stale, s.acked, s.db);
    }
  }

  lemma DialsKeep(w: World, s: Sys)
    requires Inv(w, s)
    ensures Inv(w, Dials(w, s))
  {}

  lemma GreetsKeep(w: World, s: Sys, sent: bool)
    requires Inv(w, s) && s.conn.Some?
    ensures Inv(w, Connects(w, s, s.conn.value, SinkGreets(sent)))
  {
    var answer := [L.Answer(w.published, Greeting(w))];
    assert s.conn.value.down == [] ==> s.conn.value.down + answer == answer;
  }

  lemma GreetedKeep(w: World, s: Sys)
    requires Inv(w, s) && s.conn.Some?
    ensures Inv(w, Connects(w, s, s.conn.value, SourceGreeted))
  {
    assert s.stale + [] == s.stale;
  }

  lemma HangUpKeeps(w: World, s: Sys)
    requires Inv(w, s) && s.conn.Some?
    ensures Inv(w, Connects(w, s, s.conn.value, HangUp))
  {
    assert s.stale + [] == s.stale;
  }

  lemma ReadsKeep(w: World, s: Sys)
    requires Inv(w, s) && s.conn.Some?
    ensures Inv(w, Connects(w, s, s.conn.value, Reads))
  {}

  lemma ReadBreaksKeeps(w: World, s: Sys)
    requires Inv(w, s) && s.conn.Some?
    ensures Inv(w, Connects(w, s, s.conn.value, ReadBreaks))
  {}

  lemma VanishesKeeps(w: World, s: Sys, ups: nat, downs: nat)
    requires Inv(w, s) && s.conn.Some?
    ensures Inv(w, Connects(w, s, s.conn.value, Vanishes(ups, downs)))
  {
    var c := s.conn.value;
    if ups <= |c.up| && downs <= |c.down| {
      assert c.up[..ups] == if ups == 0 then [] else c.up;
      assert c.down[..downs] == if downs == 0 then [] else c.down;
    }
  }

  /** Giving up a connection: what is in flight goes back to the (empty) queue, what is
      on the wire can only be the outstanding batch. */
  lemma ClosingKeeps(w: World, s: Sys)
    requires Inv(w, s) && s.conn.Some? && !s.dialer.stage.Offline?
    ensures Inv(w, Drop(s.(dialer := D.Close(s.dialer))))
  {
    var s' := Drop(s.(dialer := D.Close(s.dialer)));
    if s.dialer.inflight.Some? {
      assert [] + [s.dialer.inflight.value] == [s.dialer.inflight.value];
    }
    WireIsOutstanding(w, s);
    if s.waiting {
      HeldAppends(w, s.stale, s.acked, s.db, Batches(s.conn.value.up));
    } else {
      assert Batches(s.conn.value.up) == [] && s.stale + [] == s.stale;
    }
  }

  lemma WireIsOutstanding(w: World, s: Sys)
    requires Inv(w, s) && s.conn.Some? && !s.dialer.stage.Offline?
    ensures forall x :: x in Batches(s.conn.value.up) ==> s.waiting && x == w.batches[s.acked]
  {
    if s.conn.value.up != [] {
      assert s.conn.value.up == [Batch(w.batches[s.acked])];
    }
  }

  lemma CancelKeeps(w: World, s: Sys)
    requires Inv(w, s) && s.conn.Some?
    ensures Inv(w, Streams(s, s.conn.value, Selects(D.Cancelled)))
  {
    if s.dialer.stage.Selecting? {
      ClosingKeeps(w, s);
    }
  }

  lemma ReadFailedKeeps(w: World, s: Sys)
    requires Inv(w, s) && s.conn.Some?
    ensures Inv(w, Streams(s, s.conn.value, Selects(D.ReadFailed)))
  {
    if s.dialer.stage.Selecting? {
      ClosingKeeps(w, s);
    }
  }

  lemma ReceivedKeeps(w: World, s: Sys, m: Msg)
    requires Inv(w, s) && s.conn.Some?
    ensures Inv(w, Streams(s, s.conn.value, Selects(D.Received(m))))
  {}

  lemma TakeKeeps(w: World, s: Sys)
    requires Inv(w, s) && s.conn.Some?
    ensures Inv(w, Streams(s, s.conn.value, Selects(D.Take)))
  {}

  lemma WrittenKeeps(w: World, s: Sys, arrives: bool)
    requires Inv(w, s) && s.conn.Some?
    ensures Inv(w, Streams(s, s.conn.value, Writes(true, arrives)))
  {}

  lemma WritesKeep(w: World, s: Sys, ok: bool, arrives: bool)
    requires Inv(w, s) && s.conn.Some?
    ensures Inv(w, Streams(s, s.conn.value, Writes(ok, arrives)))
  {
    WrittenKeeps(w, s, arrives);
    if s.dialer.stage.Writing? && s.dialer.inflight.Some? && !ok {
      ClosingKeeps(w, Streams(s, s.conn.value, Writes(true, arrives)));
    }
  }

  lemma ServesKeep(w: World, s: Sys, landed: bool, ok: bool, reason: string)
    requires Inv(w, s) && Permitted(s, Serves(landed, ok, reason))
    ensures Inv(w, Handles(s, Serves(landed, ok, reason)))
  {
    if s.waiting {
      var b := w.batches[s.acked];
      Idempotent(Upto(w, s.acked), b.changes);
      if Served(s) == Some(b) {
        HeldSame(w, s.stale, s.acked, Commit(s.db, b, landed));
      }
    }
  }

  lemma StaleServesKeep(w: World, s: Sys, landed: bool)
    requires Inv(w, s) && s.stale != []
    ensures Inv(w, Handles(s, StaleServes(landed)))
  {
    HeldLands(w, s.stale, s.acked, s.db);
    HeldPops(w, s.stale, s.acked, s.db);
    assert forall x :: x in s.stale[1..] ==> x in s.stale;
  }

  lemma StaleDiesKeeps(w: World, s: Sys)
    requires Inv(w, s) && s.stale != []
    ensures Inv(w, Handles(s, StaleDies))
  {
    HeldPops(w, s.stale, s.acked, s.db);
    assert forall x :: x in s.stale[1..] ==> x in s.stale;
  }

  lemma HandlesKeep(w: World, s: Sys, a: Action)
    requires Inv(w, s) && Permitted(s, a)
    ensures Inv(w, Handles(s, a))
  {
    match a
    case Serves(landed, ok, reason) => ServesKeep(w, s, landed, ok, reason);
    case StaleServes(landed) =>
      if s.stale != [] {
        StaleServesKeep(w, s, landed);
      }
    case StaleDies =>
      if s.stale != [] {
        StaleDiesKeeps(w, s);
      }
    case _ =>
  }

  lemma ConnectsKeep(w: World, s: Sys, a: Action)
    requires Inv(w, s) && s.conn.Some?
    ensures Inv(w, Connects(w, s, s.conn.value, a))
  {
    match a
    case SinkGreets(sent) => GreetsKeep(w, s, sent);
    case SourceGreeted => GreetedKeep(w, s);
    case HangUp => HangUpKeeps(w, s);
    case Reads => ReadsKeep(w, s);
    case ReadBreaks => ReadBreaksKeeps(w, s);
    case Vanishes(ups, downs) => VanishesKeeps(w, s, ups, downs);
    case _ =>
  }

  lemma StreamsKeep(w: World, s: Sys, a: Action)
    requires Inv(w, s) && s.conn.Some?
    ensures Inv(w, Streams(s, s.conn.value, a))
  {
    match a
    case Selects(Cancelled) => CancelKeeps(w, s);
    case Selects(ReadFailed) => ReadFailedKeeps(w, s);
    case Selects(Take) => TakeKeeps(w, s);
    case Selects(Received(m)) => ReceivedKeeps(w, s, m);
    case Writes(ok, arrives) => WritesKeep(w, s, ok, arrives);
    case _ =>
  }

  lemma FreeKeeps(w: World, s: Sys, a: Action)
    requires Inv(w, s) && Permitted(s, a)
    ensures Inv(w, Free(w, s, a))
  {
    match a
    case CallerSends | CallerTakesAck | CallerTakesNack => CallsKeep(w, s, a);
    case Dial => DialsKeep(w, s);
    case Serves(_, _, _) | StaleServes(_) | StaleDies => HandlesKeep(w, s, a);
    case _ =>
      if s.conn.Some? {
        ConnectsKeep(w, s, a);
        StreamsKeep(w, s, a);
      }
  }

  lemma DoKeeps(w: World, s: Sys, a: Action)
    requires Inv(w, s)
    ensures Inv(w, Do(w, s, a))
  {
    if Permitted(s, a) {
      FreeKeeps(w, s, a);
    }
  }

  lemma {:induction false} RunKeeps(w: World, s: Sys, actions: seq<Action>)
    requires Inv(w, s)
    ensures Inv(w, Run(w, s, actions))
    decreases actions
  {
    if actions != [] {
      DoKeeps(w, s, actions[0]);
      RunKeeps(w, Do(w, s, actions[0]), actions[1..]);
    }
  }

  // ---- What holds in every reachable state ----

  function Reach(w: World, actions: seq<Action>): Sys {
    Run(w, Initial(w), actions)
  }

  lemma ReachKeeps(w: World, actions: seq<Action>)
    ensures Inv(w, Reach(w, actions))
  {
    RunKeeps(w, Initial(w), actions);
  }

  function Changes(batches: seq<ChangeBatch>): seq<Change> {
    if batches == [] then [] else Changes(batches[..|batches| - 1]) + batches[|batches| - 1].changes
  }

  lemma {:induction false} UptoIsInOrder(w: World, k: nat)
    requires k <= |w.batches|
    ensures Upto(w, k) == ApplyAll(w.start, Changes(w.batches[..k]))
  {
    if k > 0 {
      UptoIsInOrder(w, k - 1);
      assert w.batches[..k][..k - 1] == w.batches[..k - 1];
      ApplyAllAppend(w.start, Changes(w.batches[..k - 1]), w.batches[k - 1].changes);
    }
  }

  /** The target is the first `acked` batches applied in order, or the first `acked` + 1,
      and all of them when all were acknowledged. */
  ghost predicate InOrder(w: World, s: Sys) {
    var n := |w.batches|;
    && s.acked <= n
    && (s.db == ApplyAll(w.start, Changes(w.batches[..s.acked]))
        || (s.acked < n && s.db == ApplyAll(w.start, Changes(w.batches[..s.acked + 1]))))
    && (s.acked == n ==> s.db == ApplyAll(w.start, Changes(w.batches)))
  }

  /** Exactly-once effect over at-least-once delivery: whatever was lost, repeated,
      refused or committed without a report, a caller that has consumed a Acks finds the
      first a batches applied in order, or the first a + 1, and nothing else. */
  lemma ExactlyOnceEffect(w: World, actions: seq<Action>)
    ensures InOrder(w, Reach(w, actions))
  {
    var s := Reach(w, actions);
    ReachKeeps(w, actions);
    UptoIsInOrder(w, s.acked);
    if s.acked < |w.batches| {
      UptoIsInOrder(w, s.acked + 1);
    }
    assert w.batches[..|w.batches|] == w.batches;
  }

  /** Custody: the outstanding batch is in exactly one place, the dialer never blocks
      delivering a reply, and putting a batch back always finds room. */
  lemma Custody(w: World, actions: seq<Action>)
    ensures var s := Reach(w, actions); var d := s.dialer;
      && |d.send| + (if d.inflight.Some? then 1 else 0) + |d.acks| + |d.nacks| == (if s.waiting then 1 else 0)
      && (s.waiting ==> s.acked < |w.batches|)
      && (d.nacks != [] ==> s.acked < |w.batches| && d.nacks[0].Nack? && d.nacks[0].id == w.batches[s.acked].id)
      && (d.send != [] ==> d.send == [w.batches[s.acked]])
      && (d.inflight.Some? ==> d.inflight.value == w.batches[s.acked] && |d.send| < D.CAPACITY)
      && !d.stage.Blocked?
  {
    ReachKeeps(w, actions);
  }

  /** An Ack the caller can receive, now or once it was read. */
  predicate AckUnderway(s: Sys, ack: Msg) {
    ack.Ack? && (ack in s.dialer.acks
      || (s.conn.Some? && !s.dialer.stage.Offline? && (ack in s.conn.value.down || ack in s.conn.value.recvCh)))
  }

  lemma AckInState(w: World, s: Sys, ack: Msg)
    requires Inv(w, s) && AckUnderway(s, ack)
    ensures s.waiting && s.acked < |w.batches| && ack.id == w.batches[s.acked].id && s.db == Upto(w, s.acked + 1)
  {
    if ack in s.dialer.acks {
      assert s.dialer.acks == [ack];
    } else {
      var c := s.conn.value;
      assert ack in c.down + c.recvCh;
      assert (c.down + c.recvCh)[0] == ack;
    }
  }

  /** Ack matching without an id check: an Ack underway names the batch the caller is
      waiting for, and that batch is already in the target. */
  lemma AckMatches(w: World, actions: seq<Action>, ack: Msg)
    requires AckUnderway(Reach(w, actions), ack)
    ensures var s := Reach(w, actions);
      s.waiting && s.acked < |w.batches| && ack.id == w.batches[s.acked].id
      && s.db == ApplyAll(w.start, Changes(w.batches[..s.acked + 1]))
  {
    var s := Reach(w, actions);
    ReachKeeps(w, actions);
    AckInState(w, s, ack);
    UptoIsInOrder(w, s.acked + 1);
  }

  /** The effects a handler step may have are those that Apply's Outcome allows. */
  lemma HandlerIsApply(db: Db, b: ChangeBatch, after: Db, ok: bool)
    ensures Postgres.Outcome(db, b.changes, after, ok) <==>
      exists landed :: (ok ==> landed) && after == Commit(db, b, landed)
  {
    assert Commit(db, b, true) == ApplyAll(db, b.changes) && Commit(db, b, false) == db;
  }

  /** The handler the listener documents: Apply, then one reply. Its effect on a valid
      target is that of a step Serves, and what COMMIT does decides which: each pair of
      `landed` and `ok` with ok ==> landed is one outcome of COMMIT. */
  method Handle(pool: Postgres.Pool, b: ChangeBatch, reason: string) returns (reply: Msg)
    requires ValidDb(pool.cat, pool.db) && Postgres.WellFormedBatch(pool.cat, b.changes)
    modifies pool
    ensures Replies(reply, b)
    ensures exists landed :: (reply.Ack? ==> landed) && pool.db == Commit(old(pool.db), b, landed)
    ensures b.changes != [] && pool.Faultless() ==>
      && reply.Ack? == pool.commit.Committed?
      && pool.db == Commit(old(pool.db), b, !pool.commit.NotCommitted?)
  {
    var err := Postgres.Apply(pool, b.changes);
    HandlerIsApply(old(pool.db), b, pool.db, err.None?);
    reply := if err.None? then Ack(b.id) else Nack(b.id, reason);
  }

  /** Every batch keeps the contract on changes. */
  ghost predicate Prepared(w: World, cat: Catalog) {
    ValidDb(cat, w.start) && forall b :: b in w.batches ==> Postgres.WellFormedBatch(cat, b.changes)
  }

  lemma {:induction false} UptoValid(w: World, cat: Catalog, k: nat)
    requires Prepared(w, cat) && k <= |w.batches|
    ensures ValidDb(cat, Upto(w, k))
  {
    if k > 0 {
      UptoValid(w, cat, k - 1);
      assert w.batches[k - 1] in w.batches;
      Postgres.RunPreservesMeaning(cat, Upto(w, k - 1), w.batches[k - 1].changes);
    }
  }

  /** Down to the text: in every reachable state the SQL generated for any batch is
      accepted by the server and does to the target what a handler step does. */
  lemma SqlRunsAsModelled(w: World, cat: Catalog, actions: seq<Action>, b: ChangeBatch)
    requires Prepared(w, cat) && b in w.batches
    ensures var db := Reach(w, actions).db;
      && ValidDb(cat, db)
      && Postgres.Run(cat, db, b.changes).Some? && Postgres.Run(cat, db, b.changes).value.0 == Commit(db, b, true)
  {
    var s := Reach(w, actions);
    ReachKeeps(w, actions);
    UptoValid(w, cat, s.acked);
    if s.acked < |w.batches| {
      UptoValid(w, cat, s.acked + 1);
    }
    Postgres.RunPreservesMeaning(cat, s.db, b.changes);
  }

  // ---- The shape of a connection ----

  /** Hello, the answer to it, then batches and their replies in turn, if accepted. */
  ghost predicate Shaped(w: World, trace: seq<Frame>) {
    && trace != [] && trace[0] == Up(Greeting(w))
    && (|trace| > 1 ==> trace[1] == Down(L.Answer(w.published, Greeting(w))))
    && (|trace| > 2 ==> L.AllPublished(w.published, w.subscribe))
    && forall i :: 2 <= i < |trace| ==> Follows(trace, i)
  }

  ghost predicate Follows(trace: seq<Frame>, i: nat)
    requires 2 <= i < |trace|
  {
    if i % 2 == 0 then trace[i].Up? && trace[i].msg.Batch?
    else trace[i - 1].Up? && trace[i - 1].msg.Batch? && trace[i].Down? && Replies(trace[i].msg, trace[i - 1].msg.batch)
  }

  ghost predicate Traced(w: World, s: Sys) {
    s.conn.Some? ==>
      var c := s.conn.value;
      var n := |c.trace|;
      && Shaped(w, c.trace)
      && (c.sink.AwaitingHello? ==> n == 1)
      && (c.sink.Refused? ==> n <= 2)
      && (c.sink.Serving? ==> n >= 2 && (s.dialer.stage.Offline? ==> n == 2))
      && (!s.dialer.stage.Offline? ==>
            && (c.up != [] ==> n % 2 == 1 && n > 2 && c.trace[n - 1] == Up(c.up[0]))
            && (s.dialer.stage.Writing? || s.dialer.inflight.None? || c.down != [] || c.recvCh != [] ==> n % 2 == 0))
  }

  lemma {:induction false} ShapeExtends(w: World, trace: seq<Frame>, f: Frame)
    requires Shaped(w, trace) && |trace| >= 2 && L.AllPublished(w.published, w.subscribe)
    requires Follows(trace + [f], |trace|)
    ensures Shaped(w, trace + [f])
  {
    forall i | 2 <= i < |trace| + 1 ensures Follows(trace + [f], i) {
      if i < |trace| {
        assert Follows(trace, i);
      }
    }
  }

  lemma ServesTraced(w: World, s: Sys, a: Action)
    requires Inv(w, s) && Traced(w, s)
    ensures Traced(w, Handles(s, a))
  {
    if a.Serves? && Handles(s, a) != s {
      var c := s.conn.value;
      ShapeExtends(w, c.trace, Down(if a.ok then Ack(c.up[0].batch.id) else Nack(c.up[0].batch.id, a.reason)));
    }
  }

  lemma WritesTraced(w: World, s: Sys, ok: bool, arrives: bool)
    requires Inv(w, s) && Traced(w, s) && s.conn.Some?
    ensures Traced(w, Streams(s, s.conn.value, Writes(ok, arrives)))
  {
    if s.dialer.stage.Writing? {
      ShapeExtends(w, s.conn.value.trace, Up(Batch(s.dialer.inflight.value)));
    }
  }

  lemma TakeTraced(w: World, s: Sys)
    requires Inv(w, s) && Traced(w, s) && s.conn.Some?
    ensures Traced(w, Streams(s, s.conn.value, Selects(D.Take)))
  {}

  lemma StreamsTraced(w: World, s: Sys, a: Action)
    requires Inv(w, s) && Traced(w, s) && s.conn.Some?
    ensures Traced(w, Streams(s, s.conn.value, a))
  {
    match a
    case Writes(ok, arrives) => WritesTraced(w, s, ok, arrives);
    case Selects(Take) => TakeTraced(w, s);
    case _ =>
  }

  lemma ConnectsTraced(w: World, s: Sys, a: Action)
    requires Inv(w, s) && Traced(w, s) && s.conn.Some?
    ensures Traced(w, Connects(w, s, s.conn.value, a))
  {}

  lemma DoTraced(w: World, s: Sys, a: Action)
    requires Inv(w, s) && Traced(w, s)
    ensures Traced(w, Do(w, s, a))
  {
    ServesTraced(w, s, a);
    if s.conn.Some? {
      StreamsTraced(w, s, a);
      ConnectsTraced(w, s, a);
    }
  }

  lemma {:induction false} RunTraced(w: World, s: Sys, actions: seq<Action>)
    requires Inv(w, s) && Traced(w, s)
    ensures Traced(w, Run(w, s, actions))
    decreases actions
  {
    if actions != [] {
      DoTraced(w, s, actions[0]);
      DoKeeps(w, s, actions[0]);
      RunTraced(w, Do(w, s, actions[0]), actions[1..]);
    }
  }

  /** Protocol shape, on every connection at every moment: the frames written so far are
      Hello, its HelloAck, and then batches and replies in turn, and those only if every
      subscribed table is published. A handler sees a batch only then. The frame that is
      being written, even if the write is going to fail, keeps the shape. */
  lemma ProtocolShape(w: World, actions: seq<Action>)
    ensures var s := Reach(w, actions);
      s.conn.Some? ==>
        && Shaped(w, s.conn.value.trace)
        && (s.conn.value.sink.Serving? ==> L.AllPublished(w.published, w.subscribe))
        && (!s.conn.value.sink.Serving? ==> Batches(s.conn.value.up) == [])
        && (s.dialer.stage.Writing? ==>
              s.dialer.inflight.Some? && Shaped(w, s.conn.value.trace + [Up(Batch(s.dialer.inflight.value))]))
  {
    var s := Reach(w, actions);
    RunTraced(w, Initial(w), actions);
    ReachKeeps(w, actions);
    if s.conn.Some? && s.dialer.stage.Writing? {
      WritesTraced(w, s, true, false);
    }
  }

  /** Nothing has happened at the sink, and nothing can be under way to it. */
  ghost predicate Untouched(w: World, s: Sys) {
    && s.acked == 0 && s.db == w.start && s.stale == []
    && s.dialer.stage.Offline? && s.dialer.acks == [] && s.dialer.nacks == []
  }

  lemma {:induction false} RunUntouched(w: World, s: Sys, actions: seq<Action>)
    requires Inv(w, s) && Untouched(w, s) && !L.AllPublished(w.published, w.subscribe)
    ensures Untouched(w, Run(w, s, actions))
    decreases actions
  {
    if actions != [] {
      DoKeeps(w, s, actions[0]);
      DoUntouched(w, s, actions[0]);
      RunUntouched(w, Do(w, s, actions[0]), actions[1..]);
    }
  }

  lemma DoUntouched(w: World, s: Sys, a: Action)
    requires Inv(w, s) && Untouched(w, s) && !L.AllPublished(w.published, w.subscribe)
    ensures Untouched(w, Do(w, s, a))
  {}

  /** A subscription that is not published delivers nothing, however often it is retried. */
  lemma RefusedDeliversNothing(w: World, actions: seq<Action>)
    requires !L.AllPublished(w.published, w.subscribe)
    ensures Reach(w, actions).acked == 0 && Reach(w, actions).db == w.start
  {
    RunUntouched(w, Initial(w), actions);
  }
}
