/** The source side of internal/transport/dialer.go, step by step, for any caller. */
module Dialing {
  import opened Wrappers
  import opened Transport

  /** Capacity of the send, Acks and Nacks channels. */
  const CAPACITY := 16

  /** Where the goroutine running `stream` is. */
  datatype Stage =
    | Offline            // not streaming
    | Selecting          // at the select
    | Writing            // inside conn.Send with a batch
    | Blocked(reply: Msg) // at `d.Acks <- m` or `d.Nacks <- m`, the channel being full

  datatype State = State(send: seq<ChangeBatch>, acks: seq<Msg>, nacks: seq<Msg>,
                         stage: Stage, inflight: Option<ChangeBatch>)

  /** One atomic action of the stream goroutine or of a caller. The environment
      chooses; an action that is not possible in a state leaves it as it is. */
  datatype Event =
    | Open                     // a handshake was accepted, stream begins
    | Enqueue(batch: ChangeBatch) // SendBatch
    | TakeAck                  // <-d.Acks
    | TakeNack                 // <-d.Nacks
    | Cancelled                // select: <-ctx.Done()
    | ReadFailed               // select: <-recvErr
    | Received(msg: Msg)       // select: <-recvCh
    | Take                     // select: <-d.send
    | Wrote(ok: bool)          // conn.Send returns

  function Requeued(send: seq<ChangeBatch>, b: ChangeBatch): seq<ChangeBatch> {
    if |send| < CAPACITY then send + [b] else send
  }

  /** The connection is over: an in-flight batch goes to the back of the queue. */
  function Close(s: State): State {
    s.(send := if s.inflight.Some? then Requeued(s.send, s.inflight.value) else s.send,
       stage := Offline, inflight := None)
  }

  function Receive(s: State, m: Msg): State {
    match m
    case Ack(_) =>
      if |s.acks| < CAPACITY then s.(inflight := None, acks := s.acks + [m])
      else s.(inflight := None, stage := Blocked(m))
    case Nack(_, _) =>
      if |s.nacks| < CAPACITY then s.(inflight := None, nacks := s.nacks + [m])
      else s.(inflight := None, stage := Blocked(m))
    case _ => s
  }

  function Step(s: State, e: Event): State {
    match e
    case Open => if s.stage.Offline? then s.(stage := Selecting, inflight := None) else s
    case Enqueue(b) => s.(send := Requeued(s.send, b))
    case TakeAck =>
      if s.acks == [] then s
      else if s.stage.Blocked? && s.stage.reply.Ack? then
        s.(acks := s.acks[1..] + [s.stage.reply], stage := Selecting)
      else s.(acks := s.acks[1..])
    case TakeNack =>
      if s.nacks == [] then s
      else if s.stage.Blocked? && s.stage.reply.Nack? then
        s.(nacks := s.nacks[1..] + [s.stage.reply], stage := Selecting)
      else s.(nacks := s.nacks[1..])
    case Cancelled | ReadFailed => if s.stage.Selecting? then Close(s) else s
    case Received(m) => if s.stage.Selecting? then Receive(s, m) else s
    case Take =>
      if s.stage.Selecting? && s.send != [] then
        s.(send := s.send[1..], inflight := Some(s.send[0]), stage := Writing)
      else s
    case Wrote(ok) =>
      if !s.stage.Writing? then s else if ok then s.(stage := Selecting) else Close(s)
  }

  function Steps(s: State, events: seq<Event>): State
    decreases events
  {
    if events == [] then s else Steps(Step(s, events[0]), events[1..])
  }

  const FRESH := State([], [], [], Offline, None)

  // ---- The ledger: where every accepted batch is ----

  /** The books for one batch `b`, any batch. `unacked` is what was handed to the current
      connection and not yet answered, oldest first. A reply is for the oldest; it should
      carry its id, which the dialer does not check. The numbers count how often `b` was
      accepted by SendBatch, answered by a reply of its own, and lost otherwise. */
  datatype Ledger = Ledger(unacked: seq<ChangeBatch>, overlapped: bool, overflowed: bool, mismatched: bool,
                           accepted: int, answered: int, lost: int)

  const EMPTY := Ledger([], false, false, false, 0, 0, 0)

  predicate Closes(s: State, e: Event) {
    (s.stage.Selecting? && (e.Cancelled? || e.ReadFailed?)) || (s.stage.Writing? && e == Wrote(false))
  }

  predicate Takes(s: State, e: Event) {
    e.Take? && s.stage.Selecting? && s.send != []
  }

  predicate Answers(unacked: seq<ChangeBatch>, s: State, e: Event) {
    e.Received? && IsReply(e.msg) && s.stage.Selecting? && unacked != []
  }

  function Unacked(unacked: seq<ChangeBatch>, s: State, e: Event): seq<ChangeBatch> {
    if Closes(s, e) then []
    else if Takes(s, e) then unacked + [s.send[0]]
    else if Answers(unacked, s, e) then unacked[1..]
    else unacked
  }

  /** The reply names the batch it is for. */
  predicate Own(unacked: seq<ChangeBatch>, e: Event)
    requires unacked != [] && e.Received? && IsReply(e.msg)
  {
    e.msg.id == unacked[0].id
  }

  function Count(s: seq<ChangeBatch>, b: ChangeBatch): nat {
    if s == [] then 0 else (if s[0] == b then 1 else 0) + Count(s[1..], b)
  }

  predicate Keeps(s: State) {
    s.inflight.Some? && |s.send| < CAPACITY
  }

  /** How many `b` a connection closing in state `s` takes with it. */
  function Gone(unacked: seq<ChangeBatch>, s: State, b: ChangeBatch): int {
    Count(unacked, b) - if Keeps(s) && s.inflight.value == b then 1 else 0
  }

  function Record(l: Ledger, s: State, e: Event, b: ChangeBatch): Ledger {
    Ledger(
      Unacked(l.unacked, s, e),
      l.overlapped || (Takes(s, e) && l.unacked != []),
      l.overflowed || (Closes(s, e) && s.inflight.Some? && !Keeps(s)),
      l.mismatched || (Answers(l.unacked, s, e) && !Own(l.unacked, e)),
      l.accepted + if e == Enqueue(b) && |s.send| < CAPACITY then 1 else 0,
      l.answered + if Answers(l.unacked, s, e) && l.unacked[0] == b && Own(l.unacked, e) then 1 else 0,
      l.lost + if Closes(s, e) then Gone(l.unacked, s, b)
               else if Answers(l.unacked, s, e) && l.unacked[0] == b && !Own(l.unacked, e) then 1 else 0)
  }

  function Recorded(l: Ledger, s: State, events: seq<Event>, b: ChangeBatch): Ledger
    decreases events
  {
    if events == [] then l else Recorded(Record(l, s, events[0], b), Step(s, events[0]), events[1..], b)
  }

  /** The in-flight batch is the youngest unacknowledged one; without overlap, the only one. */
  ghost predicate Tracked(unacked: seq<ChangeBatch>, overlapped: bool, s: State) {
    && |s.send| <= CAPACITY
    && (s.stage.Offline? ==> unacked == [] && s.inflight.None?)
    && (s.inflight.Some? ==> unacked != [] && unacked[|unacked| - 1] == s.inflight.value)
    && (!overlapped ==> |unacked| <= 1 && (unacked != [] ==> s.inflight.Some?))
  }

  ghost predicate Balanced(l: Ledger, s: State, b: ChangeBatch) {
    && Tracked(l.unacked, l.overlapped, s)
    && l.accepted == Count(s.send, b) + Count(l.unacked, b) + l.answered + l.lost
    && l.lost >= 0
    && (l.lost > 0 ==> l.overlapped || l.overflowed || l.mismatched)
  }

  lemma {:induction false} CountAppend(s: seq<ChangeBatch>, x: ChangeBatch, b: ChangeBatch)
    ensures Count(s + [x], b) == Count(s, b) + if x == b then 1 else 0
  {
    if s == [] {
      assert s + [x] == [x];
    } else {
      assert (s + [x])[1..] == s[1..] + [x];
      CountAppend(s[1..], x, b);
    }
  }

  lemma StepTracked(unacked: seq<ChangeBatch>, overlapped: bool, s: State, e: Event)
    requires Tracked(unacked, overlapped, s)
    ensures Tracked(Unacked(unacked, s, e), overlapped || (Takes(s, e) && unacked != []), Step(s, e))
  {}

  /** A closing connection takes the unacknowledged batches but the one it requeues. */
  lemma GoneIs(unacked: seq<ChangeBatch>, overlapped: bool, s: State, b: ChangeBatch)
    requires Tracked(unacked, overlapped, s)
    ensures Gone(unacked, s, b) == if Keeps(s) then Count(unacked[..|unacked| - 1], b) else Count(unacked, b)
    ensures Count(Close(s).send, b) + Gone(unacked, s, b) == Count(s.send, b) + Count(unacked, b)
  {
    if Keeps(s) {
      assert unacked == unacked[..|unacked| - 1] + [s.inflight.value];
      CountAppend(unacked[..|unacked| - 1], s.inflight.value, b);
      CountAppend(s.send, s.inflight.value, b);
    }
  }

  lemma OpenCounts(unacked: seq<ChangeBatch>, s: State, e: Event, b: ChangeBatch)
    requires !Closes(s, e)
    ensures Count(Step(s, e).send, b) + Count(Unacked(unacked, s, e), b) == Count(s.send, b) + Count(unacked, b)
      + (if e == Enqueue(b) && |s.send| < CAPACITY then 1 else 0)
      - (if Answers(unacked, s, e) && unacked[0] == b then 1 else 0)
  {
    if Takes(s, e) {
      CountAppend(unacked, s.send[0], b);
    } else if e.Enqueue? {
      CountAppend(s.send, e.batch, b);
    } else {
      assert Step(s, e).send == s.send;
      assert Answers(unacked, s, e) ==> Count(unacked, b) == Count(unacked[1..], b) + if unacked[0] == b then 1 else 0;
    }
  }

  lemma ClosingBalanced(l: Ledger, s: State, e: Event, b: ChangeBatch)
    requires Balanced(l, s, b) && Closes(s, e)
    ensures Balanced(Record(l, s, e, b), Step(s, e), b)
  {
    GoneIs(l.unacked, l.overlapped, s, b);
    assert Step(s, e) == Close(s);
  }

  lemma StayingBalanced(l: Ledger, s: State, e: Event, b: ChangeBatch)
    requires Balanced(l, s, b) && !Closes(s, e)
    ensures Balanced(Record(l, s, e, b), Step(s, e), b)
  {
    StepTracked(l.unacked, l.overlapped, s, e);
    OpenCounts(l.unacked, s, e, b);
  }

  lemma RecordBalanced(l: Ledger, s: State, e: Event, b: ChangeBatch)
    requires Balanced(l, s, b)
    ensures Balanced(Record(l, s, e, b), Step(s, e), b)
  {
    if Closes(s, e) {
      ClosingBalanced(l, s, e, b);
    } else {
      StayingBalanced(l, s, e, b);
    }
  }

  lemma {:induction false} RecordedBalanced(l: Ledger, s: State, events: seq<Event>, b: ChangeBatch)
    requires Balanced(l, s, b)
    ensures Balanced(Recorded(l, s, events, b), Steps(s, events), b)
    decreases events
  {
    if events != [] {
      RecordBalanced(l, s, events[0], b);
      RecordedBalanced(Record(l, s, events[0], b), Step(s, events[0]), events[1..], b);
    }
  }

  /** Conservation, for every caller, schedule and batch: what SendBatch accepted is
      queued, written and unanswered, answered by its own reply, or lost; and if every
      reply names the batch it is for, nothing is lost unless two batches were
      unacknowledged on one connection or a requeue met a full queue. */
  lemma Conservation(events: seq<Event>, b: ChangeBatch)
    ensures var l, s := Recorded(EMPTY, FRESH, events, b), Steps(FRESH, events);
      && l.accepted == Count(s.send, b) + Count(l.unacked, b) + l.answered + l.lost
      && l.lost >= 0 && (l.lost > 0 ==> l.overlapped || l.overflowed || l.mismatched)
  {
    RecordedBalanced(EMPTY, FRESH, events, b);
  }

  /** What a run has outstanding on the connection; the same books for every batch. */
  function Outstanding(unacked: seq<ChangeBatch>, s: State, events: seq<Event>): seq<ChangeBatch>
    decreases events
  {
    if events == [] then unacked
    else Outstanding(Unacked(unacked, s, events[0]), Step(s, events[0]), events[1..])
  }

  lemma {:induction false} OutstandingTracked(unacked: seq<ChangeBatch>, overlapped: bool, s: State, events: seq<Event>)
    returns (o: bool)
    requires Tracked(unacked, overlapped, s)
    ensures Tracked(Outstanding(unacked, s, events), o, Steps(s, events))
    decreases events
  {
    o := overlapped;
    if events != [] {
      StepTracked(unacked, overlapped, s, events[0]);
      o := OutstandingTracked(Unacked(unacked, s, events[0]), overlapped || (Takes(s, events[0]) && unacked != []),
                              Step(s, events[0]), events[1..]);
    }
  }

  ghost predicate LosesNothing(unacked: seq<ChangeBatch>, s: State) {
    forall b :: Gone(unacked, s, b) == 0
  }

  /** The exact loss of one connection: closing it loses nothing if and only if nothing
      was unacknowledged, or one batch was, it is still in flight, and there is room. */
  lemma ExactLoss(events: seq<Event>)
    ensures var u, s := Outstanding([], FRESH, events), Steps(FRESH, events);
      LosesNothing(u, s) <==> u == [] || (|u| == 1 && Keeps(s))
  {
    var u, s := Outstanding([], FRESH, events), Steps(FRESH, events);
    var overlapped := OutstandingTracked([], false, FRESH, events);
    if u == [] || (|u| == 1 && Keeps(s)) {
      forall b ensures Gone(u, s, b) == 0 {
        GoneIs(u, overlapped, s, b);
      }
    } else {
      GoneIs(u, overlapped, s, u[0]);
      assert Keeps(s) ==> u[..|u| - 1][0] == u[0];
      assert Gone(u, s, u[0]) > 0;
    }
  }

  // ---- One connection attempt, and the backoff loop around it ----

  /** What happens around one call of runOnce: what the caller does until the handshake
      is over (backoff included), whether the dial and the Hello get through, the first
      message read (if any), and the schedule of the stream. */
  datatype Attempt = Attempt(meanwhile: seq<Event>, dialed: bool, greeted: bool, first: Option<Msg>, events: seq<Event>)

  predicate FromCaller(e: Event) {
    e.Enqueue? || e.TakeAck? || e.TakeNack?
  }

  function CallerSteps(s: State, events: seq<Event>): (r: State)
    requires s.stage.Offline?
    ensures r.stage.Offline?
    decreases events
  {
    if events == [] then s
    else CallerSteps(if FromCaller(events[0]) then Step(s, events[0]) else s, events[1..])
  }

  predicate Accepted(a: Attempt) {
    a.dialed && a.greeted && a.first.Some? && a.first.value.HelloAck? && a.first.value.accepted
  }

  /** A stream goes on until the connection ends or the schedule does. */
  function StreamEnd(s: State, events: seq<Event>): State
    decreases events
  {
    if events == [] || s.stage.Offline? then s else StreamEnd(Step(s, events[0]), events[1..])
  }

  /** The batches that stream hands to conn.Send. */
  function Written(s: State, events: seq<Event>): seq<Msg>
    decreases events
  {
    if events == [] || s.stage.Offline? then []
    else (if Takes(s, events[0]) then [Batch(s.send[0])] else []) + Written(Step(s, events[0]), events[1..])
  }

  function AfterAttempt(s: State, a: Attempt): State
    requires s.stage.Offline?
  {
    var ready := CallerSteps(s, a.meanwhile);
    if Accepted(a) then StreamEnd(Step(ready, Open), a.events) else ready
  }

  /** Attempts follow each other as long as each has ended. */
  function AfterAttempts(s: State, attempts: seq<Attempt>): State
    decreases attempts
  {
    if attempts == [] || !s.stage.Offline? then s else AfterAttempts(AfterAttempt(s, attempts[0]), attempts[1..])
  }

  lemma {:induction false} StreamEndIsSteps(s: State, events: seq<Event>) returns (used: nat)
    ensures used <= |events| && StreamEnd(s, events) == Steps(s, events[..used])
    decreases events
  {
    used := 0;
    if events != [] && !s.stage.Offline? {
      used := StreamEndIsSteps(Step(s, events[0]), events[1..]);
      used := used + 1;
      assert events[..used][1..] == events[1..][..used - 1];
    }
  }

  lemma {:induction false} StepsConcat(s: State, a: seq<Event>, b: seq<Event>)
    ensures Steps(s, a + b) == Steps(Steps(s, a), b)
    decreases a
  {
    if a == [] {
      assert a + b == b;
    } else {
      assert (a + b)[1..] == a[1..] + b;
      StepsConcat(Step(s, a[0]), a[1..], b);
    }
  }

  lemma {:induction false} CallerStepsAreSteps(s: State, meanwhile: seq<Event>) returns (events: seq<Event>)
    requires s.stage.Offline?
    ensures CallerSteps(s, meanwhile) == Steps(s, events)
    decreases meanwhile
  {
    events := [];
    if meanwhile != [] {
      var e := meanwhile[0];
      if FromCaller(e) {
        events := CallerStepsAreSteps(Step(s, e), meanwhile[1..]);
        assert ([e] + events)[1..] == events;
        events := [e] + events;
      } else {
        events := CallerStepsAreSteps(s, meanwhile[1..]);
      }
    }
  }

  lemma AttemptIsSteps(s: State, a: Attempt) returns (events: seq<Event>)
    requires s.stage.Offline?
    ensures AfterAttempt(s, a) == Steps(s, events)
  {
    var ready := CallerSteps(s, a.meanwhile);
    events := CallerStepsAreSteps(s, a.meanwhile);
    if Accepted(a) {
      var used := StreamEndIsSteps(Step(ready, Open), a.events);
      var stream := [Open] + a.events[..used];
      assert stream[1..] == a.events[..used];
      StepsConcat(s, events, stream);
      events := events + stream;
    }
  }

  /** The loop of Run is one run of the events above: whatever is proved of every
      schedule holds of every sequence of connections. */
  lemma {:induction false} AttemptsAreSteps(s: State, attempts: seq<Attempt>) returns (events: seq<Event>)
    ensures AfterAttempts(s, attempts) == Steps(s, events)
    decreases attempts
  {
    events := [];
    if attempts != [] && s.stage.Offline? {
      var first := AttemptIsSteps(s, attempts[0]);
      var rest := AttemptsAreSteps(AfterAttempt(s, attempts[0]), attempts[1..]);
      events := first + rest;
      StepsConcat(s, first, rest);
    }
  }

  /** Attempts that do not reach the stream, refusals by the sink included, change nothing
      and are followed by the next: a batch that SendBatch accepted stays queued, unwritten. */
  lemma {:induction false} FailedAttemptsRetried(s: State, failed: seq<Attempt>, a: Attempt)
    requires s.stage.Offline?
    requires forall f :: f in failed ==> f.meanwhile == []
    requires forall f :: f in failed ==>
      (!f.dialed || !f.greeted || f.first.None? || !f.first.value.HelloAck? || !f.first.value.accepted)
    ensures AfterAttempts(s, failed) == s && AfterAttempts(s, failed + [a]) == AfterAttempts(s, [a])
    decreases failed
  {
    if failed == [] {
      assert [] + [a] == [a];
    } else {
      assert failed[0] in failed && AfterAttempt(s, failed[0]) == s;
      assert (failed + [a])[1..] == failed[1..] + [a];
      FailedAttemptsRetried(s, failed[1..], a);
    }
  }

  const DELAYS: seq<nat> := [1, 2, 4, 8, 16, 32, 60]

  /** Seconds waited in all before connection attempt n + 1. */
  function TotalWait(n: nat): nat {
    if n == 0 then 0 else TotalWait(n - 1) + DELAYS[if n <= |DELAYS| then n - 1 else |DELAYS| - 1]
  }

  function Pow2(n: nat): nat {
    if n == 0 then 1 else 2 * Pow2(n - 1)
  }

  /** The documented sequence 1, 2, 4, ..., 32, then 60 for ever, in closed form. */
  lemma {:induction false} TotalWaitClosedForm(n: nat)
    ensures TotalWait(n) == if n <= 6 then Pow2(n) - 1 else 63 + 60 * (n - 6)
  {
    if n > 0 {
      TotalWaitClosedForm(n - 1);
      assert Pow2(1) == 2 && Pow2(2) == 4 && Pow2(3) == 8 && Pow2(4) == 16 && Pow2(5) == 32 && Pow2(6) == 64;
    }
  }

  /** No spinning: attempts made within T seconds are few. */
  lemma NoSpinning(attempts: nat, T: nat)
    requires attempts > 0 && TotalWait(attempts - 1) <= T && T >= 63
    ensures attempts <= 7 + (T - 63) / 60
  {
    TotalWaitClosedForm(attempts - 1);
  }

  // ---- The Dialer itself ----

  /** The fields of `Dialer` are the three channels; `stage` and `inflight` stand for
      the program counter and the local of the goroutine inside `stream`. */
  class Dialer {
    var send: seq<ChangeBatch>
    var acks: seq<Msg>
    var nacks: seq<Msg>
    var stage: Stage
    var inflight: Option<ChangeBatch>
    const node: string
    const subscribe: seq<string>

    ghost function View(): State
      reads this
    {
      State(send, acks, nacks, stage, inflight)
    }

    constructor (node: string, subscribe: seq<string>)
      ensures View() == FRESH && this.node == node && this.subscribe == subscribe
    {
      send, acks, nacks, stage, inflight := [], [], [], Offline, None;
      this.node, this.subscribe := node, subscribe;
    }

    /** Blocks (reports false) while the queue is full. */
    method SendBatch(b: ChangeBatch) returns (ok: bool)
      modifies this
      ensures View() == Step(old(View()), Enqueue(b))
      ensures ok == (|old(send)| < CAPACITY)
    {
      ok := |send| < CAPACITY;
      if ok {
        send := send + [b];
      }
    }

    /** The caller receives from Acks; a sender blocked on the full channel gets through. */
    method TakeAck() returns (ack: Option<Msg>)
      modifies this
      ensures View() == Step(old(View()), Event.TakeAck)
      ensures ack == if old(acks) == [] then None else Some(old(acks)[0])
    {
      ack := None;
      if acks != [] {
        ack := Some(acks[0]);
        acks := acks[1..];
        if stage.Blocked? && stage.reply.Ack? {
          acks, stage := acks + [stage.reply], Selecting;
        }
      }
    }

    method TakeNack() returns (nack: Option<Msg>)
      modifies this
      ensures View() == Step(old(View()), Event.TakeNack)
      ensures nack == if old(nacks) == [] then None else Some(old(nacks)[0])
    {
      nack := None;
      if nacks != [] {
        nack := Some(nacks[0]);
        nacks := nacks[1..];
        if stage.Blocked? && stage.reply.Nack? {
          nacks, stage := nacks + [stage.reply], Selecting;
        }
      }
    }

    method Requeue(b: ChangeBatch)
      modifies this`send
      ensures send == Requeued(old(send), b)
    {
      if |send| < CAPACITY {
        send := send + [b];
      }
    }

    /** `return err` out of stream, with the in-flight batch put back. */
    method Leave()
      modifies this
      ensures View() == Close(old(View()))
    {
      if inflight.Some? {
        Requeue(inflight.value);
      }
      stage, inflight := Offline, None;
    }

    method Route(m: Msg)
      requires stage.Selecting?
      modifies this
      ensures View() == Receive(old(View()), m)
    {
      match m
      case Ack(_) =>
        inflight := None;
        if |acks| < CAPACITY { acks := acks + [m]; } else { stage := Blocked(m); }
      case Nack(_, _) =>
        inflight := None;
        if |nacks| < CAPACITY { nacks := nacks + [m]; } else { stage := Blocked(m); }
      case _ =>
    }

    /** One turn of the select loop, or of the caller beside it. */
    method Turn(e: Event) returns (wire: seq<Msg>)
      requires !stage.Offline?
      modifies this
      ensures View() == Step(old(View()), e)
      ensures wire == if Takes(old(View()), e) then [Batch(old(send)[0])] else []
    {
      wire := [];
      match e
      case Open =>
      case Enqueue(b) => var _ := SendBatch(b);
      case TakeAck => var _ := TakeAck();
      case TakeNack => var _ := TakeNack();
      case Cancelled | ReadFailed =>
        if stage.Selecting? {
          Leave();
        }
      case Received(m) =>
        if stage.Selecting? {
          Route(m);
        }
      case Take =>
        if stage.Selecting? && send != [] {
          wire := [Batch(send[0])];
          inflight, send, stage := Some(send[0]), send[1..], Writing;
        }
      case Wrote(ok) =>
        if stage.Writing? {
          if ok {
            stage := Selecting;
          } else {
            Leave();
          }
        }
    }

    /** stream: the select loop, driven by a schedule of what happens to it and to the
        channels; it returns when the connection ends. `wire` is what it sent. */
    method Stream(events: seq<Event>) returns (wire: seq<Msg>)
      requires stage.Offline?
      modifies this
      ensures View() == StreamEnd(Step(old(View()), Open), events)
      ensures wire == Written(Step(old(View()), Open), events)
    {
      ghost var start := Step(View(), Open);
      stage, inflight, wire := Selecting, None, [];
      for i := 0 to |events|
        invariant StreamEnd(start, events) == StreamEnd(View(), events[i..])
        invariant Written(start, events) == wire + Written(View(), events[i..])
        invariant !stage.Offline?
      {
        assert events[i..][1..] == events[i + 1..];
        ghost var was := View();
        var sent := Turn(events[i]);
        assert Written(was, events[i..]) == sent + Written(View(), events[i + 1..]);
        wire := wire + sent;
        if stage.Offline? {
          return;
        }
      }
    }

    /** The caller's side of the channels while no connection is streaming. */
    method Meanwhile(events: seq<Event>)
      requires stage.Offline?
      modifies this
      ensures View() == CallerSteps(old(View()), events)
    {
      ghost var start := View();
      assert events[0..] == events;
      for i := 0 to |events|
        invariant stage.Offline? && CallerSteps(start, events) == CallerSteps(View(), events[i..])
      {
        assert events[i..][1..] == events[i + 1..];
        match events[i]
        case Enqueue(b) => var _ := SendBatch(b);
        case TakeAck => var _ := TakeAck();
        case TakeNack => var _ := TakeNack();
        case _ =>
      }
    }

    /** runOnce: dial, Hello, HelloAck, stream. Until an accepting HelloAck was read
        nothing but the Hello is written and the queue is not touched. */
    method RunOnce(a: Attempt) returns (wire: seq<Msg>)
      requires stage.Offline?
      modifies this
      ensures View() == AfterAttempt(old(View()), a)
      ensures !a.dialed ==> wire == []
      ensures a.dialed && (!a.greeted || a.first.None? || !a.first.value.HelloAck? || !a.first.value.accepted) ==>
        wire == [Hello(node, subscribe)] && View() == CallerSteps(old(View()), a.meanwhile)
      ensures a.dialed && a.greeted && a.first.Some? && a.first.value.HelloAck? && a.first.value.accepted ==>
        var start := Step(CallerSteps(old(View()), a.meanwhile), Open);
        wire == [Hello(node, subscribe)] + Written(start, a.events) && View() == StreamEnd(start, a.events)
    {
      Meanwhile(a.meanwhile);
      wire := [];
      if !a.dialed {
        return;
      }
      wire := [Hello(node, subscribe)];
      if !a.greeted {
        return;
      }
      match a.first
      case None => return;
      case Some(m) =>
        if !m.HelloAck? {
          return;
        }
        if !m.accepted {
          return;
        }
        var batches := Stream(a.events);
        wire := wire + batches;
    }

    /** Run: attempts separated by backoff, up to the point where the context is
        cancelled or the last attempt is still streaming. `waited` is in seconds. */
    method Run(attempts: seq<Attempt>) returns (made: nat, waited: nat)
      requires stage.Offline?
      modifies this
      ensures View() == AfterAttempts(old(View()), attempts)
      ensures made <= |attempts| && (made < |attempts| ==> !stage.Offline?)
      ensures waited == if made == 0 then 0 else TotalWait(made - 1)
    {
      made, waited := 0, 0;
      assert attempts[0..] == attempts;
      while made < |attempts| && stage.Offline?
        invariant made <= |attempts|
        invariant waited == if made == 0 then 0 else TotalWait(made - 1)
        invariant AfterAttempts(old(View()), attempts) == AfterAttempts(View(), attempts[made..])
      {
        if made > 0 {
          var idx := made - 1;
          if idx >= |DELAYS| {
            idx := |DELAYS| - 1;
          }
          waited := waited + DELAYS[idx];
        }
        var _ := RunOnce(attempts[made]);
        assert attempts[made..][1..] == attempts[made + 1..];
        made := made + 1;
      }
    }
  }
}
