/** Runs of the delivery machine: it can deliver, the faults it is about happen in it, it
    recovers from all of them, and its rule on old handlers is needed. */
module Runs {
  import opened Wrappers
  import opened Connector
  import opened Store
  import opened Replay
  import opened Transport
  import opened Delivery
  import D = Dialing
  import L = Listener

  lemma {:induction false} RunConcat(w: World, s: Sys, a: seq<Action>, b: seq<Action>)
    ensures Run(w, s, a + b) == Run(w, Run(w, s, a), b)
    decreases a
  {
    if a == [] {
      assert a + b == b;
    } else {
      assert (a + b)[1..] == a[1..] + b;
      RunConcat(w, Do(w, s, a[0]), a[1..], b);
    }
  }

  lemma RunChain(w: World, s: Sys, a: seq<Action>, s1: Sys, b: seq<Action>, s2: Sys)
    requires Run(w, s, a) == s1 && Run(w, s1, b) == s2
    ensures Run(w, s, a + b) == s2
  {
    RunConcat(w, s, a, b);
  }

  lemma RunStep(w: World, s: Sys, a: Action)
    ensures Run(w, s, [a]) == Do(w, s, a)
  {
    assert [a][1..] == [];
  }

  /** A run of the machine without the rule. */
  function FreeRun(w: World, s: Sys, actions: seq<Action>): Sys
    decreases actions
  {
    if actions == [] then s else FreeRun(w, Free(w, s, actions[0]), actions[1..])
  }

  lemma {:induction false} FreeRunConcat(w: World, s: Sys, a: seq<Action>, b: seq<Action>)
    ensures FreeRun(w, s, a + b) == FreeRun(w, FreeRun(w, s, a), b)
    decreases a
  {
    if a == [] {
      assert a + b == b;
    } else {
      assert (a + b)[1..] == a[1..] + b;
      FreeRunConcat(w, Free(w, s, a[0]), a[1..], b);
    }
  }

  // ---- An undisturbed delivery ----

  /** Nothing outstanding and k batches acknowledged; old handlers hold `stale`. */
  function Rest(k: nat, stale: seq<ChangeBatch>, db: Db): Sys {
    Sys(D.FRESH, None, stale, db, k, false)
  }

  function Ready(w: World, k: nat, stale: seq<ChangeBatch>): Sys
    requires k <= |w.batches|
  {
    Rest(k, stale, Upto(w, k))
  }

  /** The connection after the handshake, after the batch was served, and its frames. */
  function Opened(w: World): Conn {
    Conn(Serving, [], [], [], false, [Up(Greeting(w)), Down(L.Answer(w.published, Greeting(w)))])
  }

  function Exchanged(w: World, b: ChangeBatch, reply: Msg): Conn {
    Opened(w).(trace := Opened(w).trace + [Up(Batch(b)), Down(reply)])
  }

  /** The stations of one undisturbed delivery: each state, and the action that leads on.
      `db` is the target before the batch is served, which may hold the batch already. */
  function Station(w: World, k: nat, stale: seq<ChangeBatch>, db: Db, i: nat): Sys
    requires k < |w.batches| && i <= 11
  {
    var b := w.batches[k];
    var queued := D.State([b], [], [], D.Offline, None);
    var flying := D.State([], [], [], D.Selecting, Some(b));
    var greeting := Conn(AwaitingHello, [Greeting(w)], [], [], false, [Up(Greeting(w))]);
    var answer, over := L.Answer(w.published, Greeting(w)), Exchanged(w, b, Ack(b.id));
    match i
    case 0 => Rest(k, stale, db)
    case 1 => Sys(queued, None, stale, db, k, true)
    case 2 => Sys(queued, Some(greeting), stale, db, k, true)
    case 3 => Sys(queued, Some(Opened(w).(down := [answer])), stale, db, k, true)
    case 4 => Sys(queued.(stage := D.Selecting), Some(Opened(w)), stale, db, k, true)
    case 5 => Sys(flying.(stage := D.Writing), Some(Opened(w)), stale, db, k, true)
    case 6 =>
      Sys(flying, Some(Opened(w).(up := [Batch(b)], trace := Opened(w).trace + [Up(Batch(b))])), stale, db, k, true)
    case 7 => Replied(w, k, stale, Upto(w, k + 1), Ack(b.id))
    case 8 => Sys(flying, Some(over.(recvCh := [Ack(b.id)])), stale, Upto(w, k + 1), k, true)
    case 9 => Sys(flying.(inflight := None, acks := [Ack(b.id)]), Some(over), stale, Upto(w, k + 1), k, true)
    case 10 => Sys(flying.(inflight := None), Some(over), stale, Upto(w, k + 1), k + 1, false)
    case _ => Rest(k + 1, stale, Upto(w, k + 1))
  }

  /** The handler has served the batch, and its reply is on the wire. */
  function Replied(w: World, k: nat, stale: seq<ChangeBatch>, db: Db, reply: Msg): Sys
    requires k < |w.batches|
  {
    var b := w.batches[k];
    Sys(D.State([], [], [], D.Selecting, Some(b)), Some(Exchanged(w, b, reply).(down := [reply])), stale, db, k, true)
  }

  const SMOOTH: seq<Action> := [CallerSends, Dial, SinkGreets(true), SourceGreeted, Selects(D.Take), Writes(true, true),
    Serves(true, true, ""), Reads, Selects(D.Received(Ack(0))), CallerTakesAck, Selects(D.Cancelled)]

  /** The target holds the first k batches, or the next one as well. */
  ghost predicate Before(w: World, k: nat, db: Db)
    requires k < |w.batches|
  {
    db == Upto(w, k) || db == Upto(w, k + 1)
  }

  ghost predicate OnlyCopies(w: World, k: nat, stale: seq<ChangeBatch>)
    requires k < |w.batches|
  {
    forall x :: x in stale ==> x == w.batches[k]
  }

  lemma SameSys(a: Sys, b: Sys)
    requires a.dialer.send == b.dialer.send && a.dialer.acks == b.dialer.acks && a.dialer.nacks == b.dialer.nacks
    requires a.dialer.stage == b.dialer.stage && a.dialer.inflight == b.dialer.inflight
    requires a.conn.Some? == b.conn.Some?
    requires a.conn.Some? ==>
      && a.conn.value.up == b.conn.value.up && a.conn.value.down == b.conn.value.down
      && a.conn.value.recvCh == b.conn.value.recvCh && a.conn.value.trace == b.conn.value.trace
      && a.conn.value.sink == b.conn.value.sink && a.conn.value.recvErr == b.conn.value.recvErr
    requires a.stale == b.stale && a.db == b.db && a.acked == b.acked && a.waiting == b.waiting
    ensures a == b
  {}

  /** The action at station i leads to station i + 1. */
  ghost predicate Leads(w: World, k: nat, stale: seq<ChangeBatch>, db: Db, i: nat)
    requires k < |w.batches| && i < 11
  {
    Free(w, Station(w, k, stale, db, i), SMOOTH[i]) == Station(w, k, stale, db, i + 1)
  }

  lemma {:induction false} Connecting(w: World, k: nat, stale: seq<ChangeBatch>, db: Db, i: nat)
    requires k < |w.batches| && 0 <= i <= 1 && L.AllPublished(w.published, w.subscribe)
    ensures Leads(w, k, stale, db, i)
  {
    SameSys(Free(w, Station(w, k, stale, db, i), SMOOTH[i]), Station(w, k, stale, db, i + 1));
  }

  lemma {:induction false} Answering(w: World, k: nat, stale: seq<ChangeBatch>, db: Db)
    requires k < |w.batches| && L.AllPublished(w.published, w.subscribe)
    ensures Leads(w, k, stale, db, 2)
  {
    SameSys(Free(w, Station(w, k, stale, db, 2), SMOOTH[2]), Station(w, k, stale, db, 3));
  }

  lemma {:induction false} Shaking(w: World, k: nat, stale: seq<ChangeBatch>, db: Db)
    requires k < |w.batches| && L.AllPublished(w.published, w.subscribe)
    ensures Leads(w, k, stale, db, 3)
  {
    SameSys(Free(w, Station(w, k, stale, db, 3), SMOOTH[3]), Station(w, k, stale, db, 4));
  }

  lemma {:induction false} Taking(w: World, k: nat, stale: seq<ChangeBatch>, db: Db)
    requires k < |w.batches|
    ensures Leads(w, k, stale, db, 4)
  {
    SameSys(Free(w, Station(w, k, stale, db, 4), SMOOTH[4]), Station(w, k, stale, db, 5));
  }

  lemma {:induction false} Sending(w: World, k: nat, stale: seq<ChangeBatch>, db: Db)
    requires k < |w.batches|
    ensures Leads(w, k, stale, db, 5)
  {
    SameSys(Free(w, Station(w, k, stale, db, 5), SMOOTH[5]), Station(w, k, stale, db, 6));
  }

  lemma LandsOnce(w: World, k: nat, db: Db)
    requires k < |w.batches| && Before(w, k, db)
    ensures Commit(db, w.batches[k], true) == Upto(w, k + 1) && Commit(db, w.batches[k], false) == db
  {
    Idempotent(Upto(w, k), w.batches[k].changes);
  }

  lemma {:induction false} HandlerReplies(w: World, k: nat, stale: seq<ChangeBatch>, db: Db, landed: bool, ok: bool,
      reason: string, reply: Msg)
    requires k < |w.batches| && (ok ==> landed)
    requires reply == if ok then Ack(w.batches[k].id) else Nack(w.batches[k].id, reason)
    ensures Free(w, Station(w, k, stale, db, 6), Serves(landed, ok, reason))
         == Replied(w, k, stale, Commit(db, w.batches[k], landed), reply)
  {
    var b, shaken := w.batches[k], Opened(w).trace;
    assert (shaken + [Up(Batch(b))]) + [Down(reply)] == shaken + [Up(Batch(b)), Down(reply)];
    assert [] + [reply] == [reply] && [Batch(b)][1..] == [];
    SameSys(Free(w, Station(w, k, stale, db, 6), Serves(landed, ok, reason)),
            Replied(w, k, stale, Commit(db, b, landed), reply));
  }

  /** A handler step, with every outcome of COMMIT: the batch lands or not, and the reply
      says Ack only if it landed. */
  lemma {:induction false} HandlerStep(w: World, k: nat, stale: seq<ChangeBatch>, db: Db, landed: bool, ok: bool,
      reason: string)
    requires k < |w.batches| && Before(w, k, db) && (ok ==> landed)
    ensures var b := w.batches[k];
      Free(w, Station(w, k, stale, db, 6), Serves(landed, ok, reason))
      == Replied(w, k, stale, if landed then Upto(w, k + 1) else db, if ok then Ack(b.id) else Nack(b.id, reason))
  {
    var b := w.batches[k];
    LandsOnce(w, k, db);
    HandlerReplies(w, k, stale, db, landed, ok, reason, if ok then Ack(b.id) else Nack(b.id, reason));
  }

  lemma Applying(w: World, k: nat, stale: seq<ChangeBatch>, db: Db)
    requires k < |w.batches| && Before(w, k, db)
    ensures Leads(w, k, stale, db, 6)
  {
    HandlerStep(w, k, stale, db, true, true, "");
  }

  lemma {:induction false} Reading(w: World, k: nat, stale: seq<ChangeBatch>, db: Db)
    requires k < |w.batches|
    ensures Leads(w, k, stale, db, 7)
  {
    SameSys(Free(w, Station(w, k, stale, db, 7), SMOOTH[7]), Station(w, k, stale, db, 8));
  }

  lemma {:induction false} Routing(w: World, k: nat, stale: seq<ChangeBatch>, db: Db)
    requires k < |w.batches|
    ensures Leads(w, k, stale, db, 8)
  {
    SameSys(Free(w, Station(w, k, stale, db, 8), SMOOTH[8]), Station(w, k, stale, db, 9));
  }

  lemma {:induction false} Acknowledging(w: World, k: nat, stale: seq<ChangeBatch>, db: Db)
    requires k < |w.batches|
    ensures Leads(w, k, stale, db, 9)
  {
    SameSys(Free(w, Station(w, k, stale, db, 9), SMOOTH[9]), Station(w, k, stale, db, 10));
  }

  lemma {:induction false} Leaving(w: World, k: nat, stale: seq<ChangeBatch>, db: Db)
    requires k < |w.batches|
    ensures Leads(w, k, stale, db, 10)
  {
    assert stale + [] == stale;
  }

  lemma Advances(w: World, k: nat, stale: seq<ChangeBatch>, db: Db, i: nat)
    requires k < |w.batches| && i < 11 && Before(w, k, db) && L.AllPublished(w.published, w.subscribe)
    ensures Leads(w, k, stale, db, i)
  {
    match i
    case 0 | 1 => Connecting(w, k, stale, db, i);
    case 2 => Answering(w, k, stale, db);
    case 3 => Shaking(w, k, stale, db);
    case 4 => Taking(w, k, stale, db);
    case 5 => Sending(w, k, stale, db);
    case 6 => Applying(w, k, stale, db);
    case 7 => Reading(w, k, stale, db);
    case 8 => Routing(w, k, stale, db);
    case 9 => Acknowledging(w, k, stale, db);
    case _ => Leaving(w, k, stale, db);
  }

  /** The actions from station i to station j. With no old handler about that holds
      another batch, the rule on them permits each. */
  lemma {:induction false} Along(w: World, k: nat, stale: seq<ChangeBatch>, db: Db, i: nat, j: nat)
    requires k < |w.batches| && i <= j <= 11 && Before(w, k, db) && L.AllPublished(w.published, w.subscribe)
    ensures FreeRun(w, Station(w, k, stale, db, i), SMOOTH[i..j]) == Station(w, k, stale, db, j)
    ensures OnlyCopies(w, k, stale) ==> Run(w, Station(w, k, stale, db, i), SMOOTH[i..j]) == Station(w, k, stale, db, j)
    decreases j - i
  {
    if i < j {
      Advances(w, k, stale, db, i);
      assert SMOOTH[i..j][0] == SMOOTH[i] && SMOOTH[i..j][1..] == SMOOTH[i + 1..j];
      assert OnlyCopies(w, k, stale) ==> Permitted(Station(w, k, stale, db, i), SMOOTH[i]);
      Along(w, k, stale, db, i + 1, j);
    }
  }

  lemma OneDelivery(w: World, k: nat, stale: seq<ChangeBatch>, db: Db)
    requires k < |w.batches| && Before(w, k, db) && L.AllPublished(w.published, w.subscribe)
    ensures FreeRun(w, Rest(k, stale, db), SMOOTH[0..11]) == Ready(w, k + 1, stale)
    ensures OnlyCopies(w, k, stale) ==> Run(w, Rest(k, stale, db), SMOOTH[0..11]) == Ready(w, k + 1, stale)
  {
    Along(w, k, stale, db, 0, 11);
  }

  function Deliveries(one: seq<Action>, n: nat): seq<Action> {
    if n == 0 then [] else Deliveries(one, n - 1) + one
  }

  lemma {:induction false} Repeated(w: World, one: seq<Action>, k: nat, n: nat)
    requires k + n <= |w.batches|
    requires forall i :: k <= i < k + n ==> Run(w, Ready(w, i, []), one) == Ready(w, i + 1, [])
    ensures Run(w, Ready(w, k, []), Deliveries(one, n)) == Ready(w, k + n, [])
    decreases n
  {
    if n > 0 {
      Repeated(w, one, k, n - 1);
      RunConcat(w, Ready(w, k, []), Deliveries(one, n - 1), one);
    }
  }

  /** The machine can deliver everything, so the theorems about it are not about nothing. */
  lemma CanDeliver(w: World, k: nat, n: nat)
    requires k + n <= |w.batches| && L.AllPublished(w.published, w.subscribe)
    ensures Run(w, Ready(w, k, []), Deliveries(SMOOTH[0..11], n)) == Ready(w, k + n, [])
    ensures k == 0 ==> Ready(w, k, []) == Initial(w)
  {
    forall i | k <= i < k + n ensures Run(w, Ready(w, i, []), SMOOTH[0..11]) == Ready(w, i + 1, []) {
      OneDelivery(w, i, [], Upto(w, i));
    }
    Repeated(w, SMOOTH[0..11], k, n);
  }

  // ---- Faults ----

  /** The caller receives a Nack, and the connection ends. */
  function Nacked(): seq<Action> {
    [Reads, Selects(D.Received(Ack(0))), CallerTakesNack, Selects(D.Cancelled)]
  }

  lemma {:induction false} NackReturns(w: World, k: nat, stale: seq<ChangeBatch>, db: Db, reason: string)
    requires k < |w.batches|
    ensures Run(w, Replied(w, k, stale, db, Nack(w.batches[k].id, reason)), Nacked()) == Rest(k, stale, db)
  {
    var b := w.batches[k];
    var nack := Nack(b.id, reason);
    var c := Exchanged(w, b, nack);
    var s0 := Replied(w, k, stale, db, nack);
    var s1 := Sys(D.State([], [], [], D.Selecting, Some(b)), Some(c.(recvCh := [nack])), stale, db, k, true);
    var s2 := Sys(D.State([], [], [nack], D.Selecting, None), Some(c), stale, db, k, true);
    var s3 := Sys(D.State([], [], [], D.Selecting, None), Some(c), stale, db, k, false);
    SameSys(Do(w, s0, Reads), s1);
    SameSys(Do(w, s1, Selects(D.Received(Ack(0)))), s2);
    SameSys(Do(w, s2, CallerTakesNack), s3);
    assert stale + [] == stale;
    SameSys(Do(w, s3, Selects(D.Cancelled)), Rest(k, stale, db));
    Four(w, s0, Reads, s1, Selects(D.Received(Ack(0))), s2, CallerTakesNack, s3, Selects(D.Cancelled),
         Rest(k, stale, db));
  }

  lemma Four(w: World, s0: Sys, a: Action, s1: Sys, b: Action, s2: Sys, c: Action, s3: Sys, d: Action, s4: Sys)
    requires Do(w, s0, a) == s1 && Do(w, s1, b) == s2 && Do(w, s2, c) == s3 && Do(w, s3, d) == s4
    ensures Run(w, s0, [a, b, c, d]) == s4
  {
    RunStep(w, s0, a);
    RunStep(w, s1, b);
    RunStep(w, s2, c);
    RunStep(w, s3, d);
    RunChain(w, s0, [a], s1, [b], s2);
    RunChain(w, s0, [a] + [b], s2, [c], s3);
    RunChain(w, s0, ([a] + [b]) + [c], s3, [d], s4);
    assert (([a] + [b]) + [c]) + [d] == [a, b, c, d];
  }

  /** A COMMIT that fails, or that lands and reports an error: the caller still waits, the
      batch is in the target or not, and a Nack is under way. */
  lemma RefusedOrUnreported(w: World, k: nat, landed: bool, reason: string)
    requires k < |w.batches| && L.AllPublished(w.published, w.subscribe)
    ensures var s := Run(w, Ready(w, k, []), SMOOTH[0..6] + [Serves(landed, false, reason)]);
      && s.acked == k && s.waiting && s.db == Upto(w, if landed then k + 1 else k)
      && s.conn.Some? && s.conn.value.down == [Nack(w.batches[k].id, reason)]
      && s == Replied(w, k, [], s.db, Nack(w.batches[k].id, reason))
  {
    var db := Upto(w, k);
    Along(w, k, [], db, 0, 6);
    HandlerStep(w, k, [], db, landed, false, reason);
    var s := Station(w, k, [], db, 6);
    var a := Serves(landed, false, reason);
    RunStep(w, s, a);
    RunChain(w, Ready(w, k, []), SMOOTH[0..6], s, [a], Do(w, s, a));
  }

  /** And the batch, sent again after the Nack, is in the target once. */
  lemma NackedThenDelivered(w: World, k: nat, landed: bool, reason: string)
    requires k < |w.batches| && L.AllPublished(w.published, w.subscribe)
    ensures Run(w, Ready(w, k, []), (SMOOTH[0..6] + [Serves(landed, false, reason)]) + (Nacked() + SMOOTH[0..11]))
         == Ready(w, k + 1, [])
  {
    var first := SMOOTH[0..6] + [Serves(landed, false, reason)];
    var s := Run(w, Ready(w, k, []), first);
    RefusedOrUnreported(w, k, landed, reason);
    NackReturns(w, k, [], s.db, reason);
    OneDelivery(w, k, [], s.db);
    RunChain(w, s, Nacked(), Rest(k, [], s.db), SMOOTH[0..11], Ready(w, k + 1, []));
    RunChain(w, Ready(w, k, []), first, s, Nacked() + SMOOTH[0..11], Ready(w, k + 1, []));
  }

  /** Everything on the wire is lost, the reader notices, and the stream ends. */
  function Cut(): seq<Action> {
    [Vanishes(0, 0), ReadBreaks, Selects(D.ReadFailed)]
  }

  /** A stream whose batch is in flight, and a wire that is cut: the batch is queued again. */
  lemma {:induction false} CutRequeues(w: World, k: nat, stale: seq<ChangeBatch>, db: Db, c: Conn)
    requires k < |w.batches| && c.sink == Serving
    ensures var b := w.batches[k];
      Run(w, Sys(D.State([], [], [], D.Selecting, Some(b)), Some(c), stale, db, k, true), Cut())
      == Station(w, k, stale, db, 1)
  {
    var b := w.batches[k];
    var flying := D.State([], [], [], D.Selecting, Some(b));
    var c1 := c.(up := [], down := []);
    var s0 := Sys(flying, Some(c), stale, db, k, true);
    var s1 := Sys(flying, Some(c1), stale, db, k, true);
    var s2 := Sys(flying, Some(c1.(recvErr := true)), stale, db, k, true);
    SameSys(Do(w, s0, Vanishes(0, 0)), s1);
    SameSys(Do(w, s1, ReadBreaks), s2);
    assert stale + [] == stale && [] + [b] == [b];
    SameSys(Do(w, s2, Selects(D.ReadFailed)), Station(w, k, stale, db, 1));
    RunStep(w, s0, Vanishes(0, 0));
    RunStep(w, s1, ReadBreaks);
    RunStep(w, s2, Selects(D.ReadFailed));
    RunChain(w, s0, [Vanishes(0, 0)], s1, [ReadBreaks], s2);
    RunChain(w, s0, [Vanishes(0, 0)] + [ReadBreaks], s2, [Selects(D.ReadFailed)], Station(w, k, stale, db, 1));
    assert ([Vanishes(0, 0)] + [ReadBreaks]) + [Selects(D.ReadFailed)] == Cut();
  }

  /** The batch is lost on its way, before the handler served it. */
  lemma LosesBatch(w: World, k: nat, stale: seq<ChangeBatch>, db: Db)
    requires k < |w.batches|
    ensures Run(w, Station(w, k, stale, db, 6), Cut()) == Station(w, k, stale, db, 1)
  {
    CutRequeues(w, k, stale, db, Station(w, k, stale, db, 6).conn.value);
  }

  /** The Ack is lost on its way: the batch has landed, and is sent again all the same. */
  lemma LosesAck(w: World, k: nat, stale: seq<ChangeBatch>, db: Db)
    requires k < |w.batches|
    ensures Run(w, Station(w, k, stale, db, 7), Cut()) == Station(w, k, stale, Upto(w, k + 1), 1)
  {
    CutRequeues(w, k, stale, Upto(w, k + 1), Station(w, k, stale, db, 7).conn.value);
  }

  /** The Ack was read, but the stream is cancelled before it is routed. */
  lemma {:induction false} DropsAckRead(w: World, k: nat, stale: seq<ChangeBatch>, db: Db)
    requires k < |w.batches|
    ensures Run(w, Station(w, k, stale, db, 8), [Selects(D.Cancelled)]) == Station(w, k, stale, Upto(w, k + 1), 1)
  {
    var b := w.batches[k];
    assert stale + [] == stale && [] + [b] == [b];
    RunStep(w, Station(w, k, stale, db, 8), Selects(D.Cancelled));
    SameSys(Do(w, Station(w, k, stale, db, 8), Selects(D.Cancelled)), Station(w, k, stale, Upto(w, k + 1), 1));
  }

  /** A write fails. Its frame may have arrived, and is then with an old handler. */
  lemma {:induction false} FailsToWrite(w: World, k: nat, stale: seq<ChangeBatch>, db: Db, arrives: bool)
    requires k < |w.batches|
    ensures Free(w, Station(w, k, stale, db, 5), Writes(false, arrives))
         == Station(w, k, stale + if arrives then [w.batches[k]] else [], db, 1)
  {
    var b := w.batches[k];
    assert Batches([Batch(b)]) == [b] by {
      assert [Batch(b)][1..] == [];
    }
    assert [] + [b] == [b] && [] + [Batch(b)] == [Batch(b)];
    SameSys(Free(w, Station(w, k, stale, db, 5), Writes(false, arrives)),
            Station(w, k, stale + if arrives then [b] else [], db, 1));
  }

  /** A write succeeds, and its frame never arrives. */
  lemma {:induction false} WritesInVain(w: World, k: nat, stale: seq<ChangeBatch>, db: Db)
    requires k < |w.batches|
    ensures Run(w, Station(w, k, stale, db, 5), [Writes(true, false)] + Cut()) == Station(w, k, stale, db, 1)
  {
    var s := Station(w, k, stale, db, 6);
    var s1 := s.(conn := Some(s.conn.value.(up := [])));
    SameSys(Do(w, Station(w, k, stale, db, 5), Writes(true, false)), s1);
    RunStep(w, Station(w, k, stale, db, 5), Writes(true, false));
    CutRequeues(w, k, stale, db, s1.conn.value);
    RunChain(w, Station(w, k, stale, db, 5), [Writes(true, false)], s1, Cut(), Station(w, k, stale, db, 1));
  }

  /** A station, and what is lost there: the frame of a failing or of a successful write,
      the batch on the wire, the Ack on the wire, or the Ack already read. */
  predicate IsLoss(stop: nat, loss: seq<Action>) {
    match stop
    case 5 => loss == [Writes(false, false)] || loss == [Writes(true, false)] + Cut()
    case 6 | 7 => loss == Cut()
    case 8 => loss == [Selects(D.Cancelled)]
    case _ => false
  }

  lemma Loses(w: World, k: nat, db: Db, stop: nat, loss: seq<Action>)
    requires k < |w.batches|
    requires IsLoss(stop, loss)
    ensures Run(w, Station(w, k, [], db, stop), loss)
         == Station(w, k, [], if stop >= 7 then Upto(w, k + 1) else db, 1)
  {
    if stop == 6 {
      LosesBatch(w, k, [], db);
    } else if stop == 7 {
      LosesAck(w, k, [], db);
    } else if stop == 8 {
      DropsAckRead(w, k, [], db);
    } else if loss == [Writes(false, false)] {
      FailsToWrite(w, k, [], db, false);
      RunStep(w, Station(w, k, [], db, 5), Writes(false, false));
    } else {
      WritesInVain(w, k, [], db);
    }
  }

  /** After each of these losses the batch is delivered once more, and is in the target
      once. */
  lemma LostThenDelivered(w: World, k: nat, stop: nat, loss: seq<Action>)
    requires k < |w.batches| && L.AllPublished(w.published, w.subscribe)
    requires IsLoss(stop, loss)
    ensures Run(w, Ready(w, k, []), SMOOTH[0..stop] + (loss + SMOOTH[1..11])) == Ready(w, k + 1, [])
  {
    var db := Upto(w, k);
    var after := if stop >= 7 then Upto(w, k + 1) else db;
    Along(w, k, [], db, 0, stop);
    Loses(w, k, db, stop, loss);
    Along(w, k, [], after, 1, 11);
    RunChain(w, Station(w, k, [], db, stop), loss, Station(w, k, [], after, 1), SMOOTH[1..11], Ready(w, k + 1, []));
    RunChain(w, Ready(w, k, []), SMOOTH[0..stop], Station(w, k, [], db, stop), loss + SMOOTH[1..11],
             Ready(w, k + 1, []));
  }

  lemma Strands(w: World, k: nat)
    requires k < |w.batches| && L.AllPublished(w.published, w.subscribe)
    ensures Run(w, Ready(w, k, []), SMOOTH[0..5] + [Writes(false, true)])
         == Station(w, k, [w.batches[k]], Upto(w, k), 1)
  {
    var b, db := w.batches[k], Upto(w, k);
    var s, s1 := Station(w, k, [], db, 5), Station(w, k, [b], db, 1);
    Along(w, k, [], db, 0, 5);
    FailsToWrite(w, k, [], db, true);
    assert [] + [b] == [b];
    RunStep(w, s, Writes(false, true));
    RunChain(w, Ready(w, k, []), SMOOTH[0..5], s, [Writes(false, true)], s1);
  }

  lemma LateCopy(w: World, k: nat)
    requires k < |w.batches|
    ensures Run(w, Ready(w, k + 1, [w.batches[k]]), [StaleServes(true)]) == Ready(w, k + 1, [])
  {
    var b := w.batches[k];
    LandsOnce(w, k, Upto(w, k + 1));
    assert [b][1..] == [];
    RunStep(w, Ready(w, k + 1, [b]), StaleServes(true));
  }

  /** A copy that an old handler holds while the batch is delivered anew, and applies when
      that is over: the rule on old handlers permits it, and it changes nothing. */
  lemma LateCopyHarmless(w: World, k: nat)
    requires k < |w.batches| && L.AllPublished(w.published, w.subscribe)
    ensures Run(w, Ready(w, k, []), ((SMOOTH[0..5] + [Writes(false, true)]) + SMOOTH[1..11]) + [StaleServes(true)])
         == Ready(w, k + 1, [])
  {
    var b, strand := w.batches[k], SMOOTH[0..5] + [Writes(false, true)];
    Strands(w, k);
    Along(w, k, [b], Upto(w, k), 1, 11);
    LateCopy(w, k);
    RunChain(w, Ready(w, k, []), strand, Station(w, k, [b], Upto(w, k), 1), SMOOTH[1..11], Ready(w, k + 1, [b]));
    RunChain(w, Ready(w, k, []), strand + SMOOTH[1..11], Ready(w, k + 1, [b]), [StaleServes(true)],
             Ready(w, k + 1, []));
  }

  /** The reader runs at most four messages ahead of the stream. */
  lemma {:induction false} ReaderHoldsFour(w: World, s: Sys, m: Msg)
    requires s.dialer.stage.Selecting? && s.conn.Some? && !s.conn.value.recvErr && s.conn.value.down == [m]
    ensures var next := Do(w, s, Reads);
      next.conn.Some? && next.conn.value.recvCh
      == if |s.conn.value.recvCh| < 4 then s.conn.value.recvCh + [m] else s.conn.value.recvCh
  {
    assert [m][0] == m;
  }

  // ---- Recovery ----

  /** The dialer gives up its connection, wherever it is. */
  lemma Disconnects(w: World, s: Sys) returns (more: seq<Action>)
    requires Inv(w, s)
    ensures Inv(w, Run(w, s, more)) && Run(w, s, more).conn.None?
  {
    more := [];
    if s.conn.Some? {
      var a := if s.dialer.stage.Offline? then HangUp
               else if s.dialer.stage.Writing? then Writes(false, false) else Selects(D.Cancelled);
      more := [a];
      RunStep(w, s, a);
      DoKeeps(w, s, a);
    }
  }

  /** Old handlers die. */
  lemma {:induction false} Clears(w: World, s: Sys) returns (more: seq<Action>)
    requires Inv(w, s) && s.conn.None?
    ensures Inv(w, Run(w, s, more)) && Run(w, s, more).conn.None? && Run(w, s, more).stale == []
    decreases |s.stale|
  {
    more := [];
    if s.stale != [] {
      DoKeeps(w, s, StaleDies);
      RunStep(w, s, StaleDies);
      var rest := Clears(w, Do(w, s, StaleDies));
      RunConcat(w, s, [StaleDies], rest);
      more := [StaleDies] + rest;
    }
  }

  /** Then the caller is at rest or has its batch queued, perhaps after taking a reply. */
  lemma Consumes(w: World, s: Sys) returns (more: seq<Action>, k: nat, db: Db)
    requires Inv(w, s) && s.conn.None? && s.stale == []
    ensures k <= |w.batches| && (if k < |w.batches| then Before(w, k, db) else db == Upto(w, k))
    ensures Run(w, s, more) == Rest(k, [], db) || (k < |w.batches| && Run(w, s, more) == Station(w, k, [], db, 1))
  {
    more, k, db := [], s.acked, s.db;
    if s.dialer.acks != [] {
      more, k := [CallerTakesAck], s.acked + 1;
      RunStep(w, s, CallerTakesAck);
      SameSys(Do(w, s, CallerTakesAck), Rest(k, [], db));
    } else if s.dialer.nacks != [] {
      more := [CallerTakesNack];
      RunStep(w, s, CallerTakesNack);
      SameSys(Do(w, s, CallerTakesNack), Rest(k, [], db));
    } else if s.waiting {
      SameSys(s, Station(w, k, [], db, 1));
    } else {
      SameSys(s, Rest(k, [], db));
    }
  }

  lemma {:induction false} Delivering(w: World, k: nat, n: nat) returns (more: seq<Action>)
    requires k + n <= |w.batches| && L.AllPublished(w.published, w.subscribe)
    ensures Run(w, Ready(w, k, []), more) == Ready(w, k + n, [])
  {
    more := Deliveries(SMOOTH[0..11], n);
    CanDeliver(w, k, n);
  }

  lemma {:induction false} Onward(w: World, s: Sys, a: seq<Action>, k: nat) returns (more: seq<Action>)
    requires k <= |w.batches| && Run(w, s, a) == Ready(w, k, []) && L.AllPublished(w.published, w.subscribe)
    ensures Run(w, s, more) == Ready(w, |w.batches|, [])
  {
    var n := |w.batches|;
    more := Delivering(w, k, n - k);
    var s1 := Ready(w, k, []);
    RunChain(w, s, a, s1, more, Ready(w, n, []));
    more := a + more;
  }

  lemma Finishes(w: World, s: Sys, k: nat, db: Db) returns (more: seq<Action>)
    requires k <= |w.batches| && L.AllPublished(w.published, w.subscribe)
    requires if k < |w.batches| then Before(w, k, db) else db == Upto(w, k)
    requires s == Rest(k, [], db) || (k < |w.batches| && s == Station(w, k, [], db, 1))
    ensures Run(w, s, more) == Ready(w, |w.batches|, [])
  {
    if k == |w.batches| {
      more := [];
    } else if s == Rest(k, [], db) {
      OneDelivery(w, k, [], db);
      more := Onward(w, s, SMOOTH[0..11], k + 1);
    } else {
      Along(w, k, [], db, 1, 11);
      more := Onward(w, s, SMOOTH[1..11], k + 1);
    }
  }

  /** Whatever has happened, in every reachable state there is a way on to the end: every
      batch acknowledged, the target complete, and nothing left over. */
  lemma Recovers(w: World, actions: seq<Action>) returns (more: seq<Action>)
    requires L.AllPublished(w.published, w.subscribe)
    ensures Reach(w, actions + more) == Ready(w, |w.batches|, [])
  {
    var s, end := Reach(w, actions), Ready(w, |w.batches|, []);
    ReachKeeps(w, actions);
    var a := Disconnects(w, s);
    var s1 := Run(w, s, a);
    var b := Clears(w, s1);
    var s2 := Run(w, s1, b);
    var c, k, db := Consumes(w, s2);
    var d := Finishes(w, Run(w, s2, c), k, db);
    RunChain(w, s2, c, Run(w, s2, c), d, end);
    RunChain(w, s1, b, s2, c + d, end);
    RunChain(w, s, a, s1, b + (c + d), end);
    more := a + (b + (c + d));
    RunChain(w, Initial(w), actions, s, more, end);
  }

  // ---- The rule on old handlers is needed ----

  lemma Chain(w: World, s: Sys, a: seq<Action>, s1: Sys, b: seq<Action>, s2: Sys)
    requires FreeRun(w, s, a) == s1 && FreeRun(w, s1, b) == s2
    ensures FreeRun(w, s, a + b) == s2
  {
    FreeRunConcat(w, s, a, b);
  }

  lemma ChainStep(w: World, s: Sys, a: seq<Action>, s1: Sys, e: Action, s2: Sys)
    requires FreeRun(w, s, a) == s1 && Free(w, s1, e) == s2
    ensures FreeRun(w, s, a + [e]) == s2
  {
    FreeRunConcat(w, s, a, [e]);
    assert [e][1..] == [];
  }

  lemma Stranded(w: World)
    requires w.batches != [] && L.AllPublished(w.published, w.subscribe)
    ensures FreeRun(w, Initial(w), SMOOTH[0..5] + [Writes(false, true)]) 
         == Station(w, 0, [w.batches[0]], w.start, 1)
  {
    Along(w, 0, [], w.start, 0, 5);
    FailsToWrite(w, 0, [], w.start, true);
    assert [] + [w.batches[0]] == [w.batches[0]];
    ChainStep(w, Initial(w), SMOOTH[0..5], Station(w, 0, [], w.start, 5), Writes(false, true),
              Station(w, 0, [w.batches[0]], w.start, 1));
  }

  lemma FreeLateCopy(w: World, b: ChangeBatch)
    requires |w.batches| >= 2
    ensures Free(w, Ready(w, 2, [b]), StaleServes(true)) == Ready(w, 2, []).(db := Commit(Upto(w, 2), b, true))
  {
    assert [b][1..] == [];
  }

  /** The first batch is stranded and delivered again, the second is delivered, and then
      the old handler applies the first. */
  const LATE: seq<Action> :=
    ((SMOOTH[0..5] + [Writes(false, true)]) + SMOOTH[1..11]) + SMOOTH[0..11] + [StaleServes(true)]

  lemma LateRun(w: World)
    requires |w.batches| >= 2 && L.AllPublished(w.published, w.subscribe)
    ensures FreeRun(w, Initial(w), LATE) == Ready(w, 2, []).(db := Commit(Upto(w, 2), w.batches[0], true))
  {
    var b, strand := w.batches[0], SMOOTH[0..5] + [Writes(false, true)];
    Stranded(w);
    Along(w, 0, [b], w.start, 1, 11);
    Chain(w, Initial(w), strand, Station(w, 0, [b], w.start, 1), SMOOTH[1..11], Ready(w, 1, [b]));
    OneDelivery(w, 1, [b], Upto(w, 1));
    Chain(w, Initial(w), strand + SMOOTH[1..11], Ready(w, 1, [b]), SMOOTH[0..11], Ready(w, 2, [b]));
    FreeLateCopy(w, b);
    ChainStep(w, Initial(w), (strand + SMOOTH[1..11]) + SMOOTH[0..11], Ready(w, 2, [b]), StaleServes(true),
              Ready(w, 2, []).(db := Commit(Upto(w, 2), b, true)));
  }

  /** Without the rule there is a run in which every batch was acknowledged and the target
      is right if and only if the first batch, applied again after the second, changes
      nothing. */
  lemma LateHandlerBreaksOrder(w: World)
    requires |w.batches| == 2 && L.AllPublished(w.published, w.subscribe)
    ensures var s := FreeRun(w, Initial(w), LATE);
      && s.acked == 2 && s.db == ApplyAll(Upto(w, 2), w.batches[0].changes)
      && (InOrder(w, s) <==> ApplyAll(Upto(w, 2), w.batches[0].changes) == Upto(w, 2))
  {
    LateRun(w);
    UptoIsInOrder(w, 2);
    assert w.batches[..2] == w.batches;
  }

  lemma ApplyOne(db: Db, ch: Change)
    ensures ApplyAll(db, [ch]) == ApplyChange(db, ch)
  {
    assert [ch][1..] == [];
  }

  lemma TwoUpdates() returns (w: World)
    ensures |w.batches| == 2 && L.AllPublished(w.published, w.subscribe)
    ensures ApplyAll(Upto(w, 2), w.batches[0].changes) != Upto(w, 2)
  {
    var t, k := TableRef("public", "t"), map["id" := Int(1)];
    var one := Change("public", "t", Update, k, map["id" := Int(1), "v" := Int(1)]);
    var two := Change("public", "t", Update, k, map["id" := Int(1), "v" := Int(2)]);
    w := World(map[t := map[]], [ChangeBatch(1, [one]), ChangeBatch(2, [two])], "node", [], map[]);
    var first, second := Upto(w, 1), Upto(w, 2);
    ApplyOne(w.start, one);
    ApplyOne(first, two);
    ApplyOne(second, one);
    var late := ApplyAll(second, w.batches[0].changes);
    assert late[t][k]["v"] == Int(1) && second[t][k]["v"] == Int(2);
  }

  /** And there are batches for which it does change something. */
  lemma LateHandlerExample() returns (w: World)
    ensures |w.batches| == 2 && !InOrder(w, FreeRun(w, Initial(w), LATE))
  {
    w := TwoUpdates();
    LateHandlerBreaksOrder(w);
  }
}
