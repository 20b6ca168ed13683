/** What the dialer's channels do, for every caller and every schedule: they are first in,
    first out, they hold sixteen, and the frames of a stream are what leaves the queue. */
module Channels {
  import opened Wrappers
  import opened Transport
  import opened Dialing

  // ---- The send queue ----

  /** What a step puts into the queue: a batch from SendBatch, or the in-flight batch of a
      stream that ends, if one of the sixteen places is free. */
  function Entering(s: State, e: Event): seq<ChangeBatch> {
    if |s.send| >= 16 then []
    else match e
      case Enqueue(b) => [b]
      case Cancelled | ReadFailed =>
        if s.stage == Selecting && s.inflight.Some? then [s.inflight.value] else []
      case Wrote(ok) =>
        if s.stage == Writing && !ok && s.inflight.Some? then [s.inflight.value] else []
      case _ => []
  }

  /** What a step takes out of it: the select's send branch takes the oldest. */
  function Leaving(s: State, e: Event): seq<ChangeBatch> {
    if e == Take && s.stage == Selecting && s.send != [] then [s.send[0]] else []
  }

  function Entered(s: State, events: seq<Event>): seq<ChangeBatch>
    decreases events
  {
    if events == [] then [] else Entering(s, events[0]) + Entered(Step(s, events[0]), events[1..])
  }

  function Left(s: State, events: seq<Event>): seq<ChangeBatch>
    decreases events
  {
    if events == [] then [] else Leaving(s, events[0]) + Left(Step(s, events[0]), events[1..])
  }

  lemma QueueStep(s: State, e: Event)
    ensures s.send + Entering(s, e) == Leaving(s, e) + Step(s, e).send
  {}

  /** Two stretches of a first-in, first-out channel are one. */
  lemma Regroup<T>(held: seq<T>, enter: seq<T>, leave: seq<T>, next: seq<T>, enters: seq<T>, leaves: seq<T>,
      last: seq<T>)
    requires held + enter == leave + next && next + enters == leaves + last
    ensures held + (enter + enters) == (leave + leaves) + last
  {
    assert held + (enter + enters) == (held + enter) + enters;
    assert (leave + next) + enters == leave + (next + enters);
    assert leave + (leaves + last) == (leave + leaves) + last;
  }

  /** First in, first out: in every run, the queue followed by what entered it is what
      left it, in time order, followed by the queue. */
  lemma {:induction false} QueueIsFifo(s: State, events: seq<Event>)
    ensures s.send + Entered(s, events) == Left(s, events) + Steps(s, events).send
    decreases events
  {
    if events != [] {
      var e, next := events[0], Step(s, events[0]);
      QueueStep(s, e);
      QueueIsFifo(next, events[1..]);
      Regroup(s.send, Entering(s, e), Leaving(s, e), next.send,
              Entered(next, events[1..]), Left(next, events[1..]), Steps(s, events).send);
    }
  }

  function Frames(batches: seq<ChangeBatch>): seq<Msg> {
    if batches == [] then [] else [Batch(batches[0])] + Frames(batches[1..])
  }

  lemma {:induction false} FramesConcat(a: seq<ChangeBatch>, b: seq<ChangeBatch>)
    ensures Frames(a + b) == Frames(a) + Frames(b)
  {
    if a == [] {
      assert a + b == b;
    } else {
      assert (a + b)[1..] == a[1..] + b;
      FramesConcat(a[1..], b);
    }
  }

  /** A stream writes what leaves the queue, in that order, and writes nothing once it
      has ended: the steps of the schedule that it takes are those before its end. */
  lemma {:induction false} WrittenLeft(s: State, events: seq<Event>) returns (used: nat)
    ensures used <= |events| && StreamEnd(s, events) == Steps(s, events[..used])
    ensures used < |events| ==> Steps(s, events[..used]).stage == Offline
    ensures Written(s, events) == Frames(Left(s, events[..used]))
    decreases events
  {
    used := 0;
    if events != [] && s.stage != Offline {
      var next := Step(s, events[0]);
      used := WrittenLeft(next, events[1..]);
      used := used + 1;
      assert events[..used][1..] == events[1..][..used - 1];
      FramesConcat(Leaving(s, events[0]), Left(next, events[1..][..used - 1]));
      FramesOne(s, events[0]);
    }
  }

  lemma FramesOne(s: State, e: Event)
    ensures Frames(Leaving(s, e))
      == if e == Take && s.stage == Selecting && s.send != [] then [Batch(s.send[0])] else []
  {
    if e == Take && s.stage == Selecting && s.send != [] {
      assert [s.send[0]][1..] == [];
    }
  }

  // ---- Acks and Nacks ----

  /** The replies on their way to the caller; a sender that blocks holds one more. */
  function AcksHeld(s: State): seq<Msg> {
    s.acks + if s.stage.Blocked? && s.stage.reply.Ack? then [s.stage.reply] else []
  }

  function NacksHeld(s: State): seq<Msg> {
    s.nacks + if s.stage.Blocked? && s.stage.reply.Nack? then [s.stage.reply] else []
  }

  function AckReading(s: State, e: Event): seq<Msg> {
    if e.Received? && s.stage == Selecting && e.msg.Ack? then [e.msg] else []
  }

  function AckTaking(s: State, e: Event): seq<Msg> {
    if e == TakeAck && s.acks != [] then [s.acks[0]] else []
  }

  function AcksRead(s: State, events: seq<Event>): seq<Msg>
    decreases events
  {
    if events == [] then [] else AckReading(s, events[0]) + AcksRead(Step(s, events[0]), events[1..])
  }

  function AcksTaken(s: State, events: seq<Event>): seq<Msg>
    decreases events
  {
    if events == [] then [] else AckTaking(s, events[0]) + AcksTaken(Step(s, events[0]), events[1..])
  }

  function NackReading(s: State, e: Event): seq<Msg> {
    if e.Received? && s.stage == Selecting && e.msg.Nack? then [e.msg] else []
  }

  function NackTaking(s: State, e: Event): seq<Msg> {
    if e == TakeNack && s.nacks != [] then [s.nacks[0]] else []
  }

  function NacksRead(s: State, events: seq<Event>): seq<Msg>
    decreases events
  {
    if events == [] then [] else NackReading(s, events[0]) + NacksRead(Step(s, events[0]), events[1..])
  }

  function NacksTaken(s: State, events: seq<Event>): seq<Msg>
    decreases events
  {
    if events == [] then [] else NackTaking(s, events[0]) + NacksTaken(Step(s, events[0]), events[1..])
  }

  /** A channel of sixteen is full when its sender blocks. */
  ghost predicate Bounded(s: State) {
    && |s.send| <= 16 && |s.acks| <= 16 && |s.nacks| <= 16
    && (s.stage.Blocked? ==>
          && (s.stage.reply.Ack? || s.stage.reply.Nack?)
          && (s.stage.reply.Ack? ==> |s.acks| == 16) && (s.stage.reply.Nack? ==> |s.nacks| == 16))
  }

  lemma {:induction false} StaysBounded(s: State, events: seq<Event>)
    requires Bounded(s)
    ensures Bounded(Steps(s, events))
    decreases events
  {
    if events != [] {
      StaysBounded(Step(s, events[0]), events[1..]);
    }
  }

  /** Sixteen fit: SendBatch is refused, and a reply blocks the stream, exactly when
      sixteen are waiting. */
  lemma SixteenFit(s: State, b: ChangeBatch, m: Msg)
    requires Bounded(s)
    ensures Step(s, Enqueue(b)).send == if |s.send| < 16 then s.send + [b] else s.send
    ensures s.stage == Selecting && m.Ack? ==> (Step(s, Received(m)).stage.Blocked? <==> |s.acks| == 16)
    ensures s.stage == Selecting && m.Nack? ==> (Step(s, Received(m)).stage.Blocked? <==> |s.nacks| == 16)
  {}

  lemma AckStep(s: State, e: Event)
    requires Bounded(s)
    ensures AcksHeld(s) + AckReading(s, e) == AckTaking(s, e) + AcksHeld(Step(s, e))
  {}

  /** Every Ack read reaches Acks, in order, and nothing else does. */
  lemma {:induction false} AcksAreFifo(s: State, events: seq<Event>)
    requires Bounded(s)
    ensures AcksHeld(s) + AcksRead(s, events) == AcksTaken(s, events) + AcksHeld(Steps(s, events))
    decreases events
  {
    if events != [] {
      var e, next := events[0], Step(s, events[0]);
      StaysBounded(s, [e]);
      assert [e][1..] == [];
      AckStep(s, e);
      AcksAreFifo(next, events[1..]);
      Regroup(AcksHeld(s), AckReading(s, e), AckTaking(s, e), AcksHeld(next),
              AcksRead(next, events[1..]), AcksTaken(next, events[1..]), AcksHeld(Steps(s, events)));
    }
  }

  lemma NackStep(s: State, e: Event)
    requires Bounded(s)
    ensures NacksHeld(s) + NackReading(s, e) == NackTaking(s, e) + NacksHeld(Step(s, e))
  {}

  /** Every Nack read reaches Nacks, in order, and nothing else does. */
  lemma {:induction false} NacksAreFifo(s: State, events: seq<Event>)
    requires Bounded(s)
    ensures NacksHeld(s) + NacksRead(s, events) == NacksTaken(s, events) + NacksHeld(Steps(s, events))
    decreases events
  {
    if events != [] {
      var e, next := events[0], Step(s, events[0]);
      StaysBounded(s, [e]);
      assert [e][1..] == [];
      NackStep(s, e);
      NacksAreFifo(next, events[1..]);
      Regroup(NacksHeld(s), NackReading(s, e), NackTaking(s, e), NacksHeld(next),
              NacksRead(next, events[1..]), NacksTaken(next, events[1..]), NacksHeld(Steps(s, events)));
    }
  }

  // ---- Between connections ----

  /** While no stream is running, the caller has its channels all the same. */
  lemma {:induction false} CallerIsServed(s: State, events: seq<Event>)
    requires s.stage.Offline? && forall e :: e in events ==> e.Enqueue? || e == TakeAck || e == TakeNack
    ensures CallerSteps(s, events) == Steps(s, events)
    decreases events
  {
    if events != [] {
      assert events[0] in events;
      CallerIsServed(Step(s, events[0]), events[1..]);
    }
  }

  /** An attempt streams if and only if the dial and the Hello got through and the first
      message was a HelloAck that accepts. */
  lemma StreamsIfAccepted(s: State, a: Attempt)
    requires s.stage.Offline? && a.events == []
    ensures AfterAttempt(s, a).stage == Selecting <==>
      a.dialed && a.greeted && a.first.Some? && exists r :: a.first.value == HelloAck(true, r)
    ensures AfterAttempt(s, a).send == CallerSteps(s, a.meanwhile).send
  {
    if a.first.Some? && a.first.value.HelloAck? && a.first.value.accepted {
      assert a.first.value == HelloAck(true, a.first.value.reason);
    }
  }

  /** A refused attempt, or one that fails earlier, leaves the channels as the caller's
      own steps leave them, whatever the schedule of its stream was. */
  lemma RefusedDoesNotStream(s: State, a: Attempt)
    requires s.stage.Offline?
    requires !a.dialed || !a.greeted || a.first.None? || !a.first.value.HelloAck? || !a.first.value.accepted
    ensures AfterAttempt(s, a) == CallerSteps(s, a.meanwhile) && AfterAttempt(s, a).stage == Offline
  {}

  // ---- Reading the ledger ----

  /** Replies to `id` that a stream reads. */
  function RepliesRead(s: State, events: seq<Event>, id: nat): nat
    decreases events
  {
    if events == [] then 0
    else
      var e := events[0];
      (if e.Received? && s.stage == Selecting && (e.msg.Ack? || e.msg.Nack?) && e.msg.id == id then 1 else 0)
      + RepliesRead(Step(s, e), events[1..], id)
  }

  /** A batch counts as answered at most as often as replies with its id were read. */
  lemma {:induction false} AnsweredByReplies(l: Ledger, s: State, events: seq<Event>, b: ChangeBatch)
    ensures l.answered <= Recorded(l, s, events, b).answered <= l.answered + RepliesRead(s, events, b.id)
    decreases events
  {
    if events != [] {
      AnsweredByReplies(Record(l, s, events[0], b), Step(s, events[0]), events[1..], b);
    }
  }

  /** The books of one batch that is sent and answered: by a reply of its own it counts as
      answered, by another's as lost, and the mismatch is noted. */
  lemma AnswerIsBooked(b: ChangeBatch, m: Msg)
    requires IsReply(m)
    ensures var l := Recorded(EMPTY, FRESH, [Enqueue(b), Open, Take, Wrote(true)] + [Received(m)], b);
      && l.accepted == 1 && l.unacked == [] && !l.overlapped && !l.overflowed
      && l.answered == (if m.id == b.id then 1 else 0) && l.lost == (if m.id == b.id then 0 else 1)
      && (l.mismatched <==> m.id != b.id)
  {
    var sent := State([], [], [], Selecting, Some(b));
    var l := Ledger([b], false, false, false, 1, 0, 0);
    SentOne(b, [Received(m)]);
    assert [Received(m)][1..] == [] && [b][1..] == [];
    assert Recorded(l, sent, [Received(m)], b) == Record(l, sent, Received(m), b);
  }

  lemma SentOne(b: ChangeBatch, rest: seq<Event>)
    ensures Recorded(EMPTY, FRESH, [Enqueue(b), Open, Take, Wrote(true)] + rest, b)
         == Recorded(Ledger([b], false, false, false, 1, 0, 0), State([], [], [], Selecting, Some(b)), rest, b)
  {
    var queued := State([b], [], [], Offline, None);
    var l := Ledger([], false, false, false, 1, 0, 0);
    BookOne(EMPTY, FRESH, Enqueue(b), [Open, Take, Wrote(true)] + rest, b, l, queued);
    BookOne(l, queued, Open, [Take, Wrote(true)] + rest, b, l, queued.(stage := Selecting));
    var l1, taken := l.(unacked := [b]), State([], [], [], Writing, Some(b));
    BookOne(l, queued.(stage := Selecting), Take, [Wrote(true)] + rest, b, l1, taken);
    BookOne(l1, taken, Wrote(true), rest, b, l1, taken.(stage := Selecting));
    assert [Enqueue(b), Open, Take, Wrote(true)] + rest == [Enqueue(b)] + ([Open, Take, Wrote(true)] + rest);
    assert [Open, Take, Wrote(true)] + rest == [Open] + ([Take, Wrote(true)] + rest);
    assert [Take, Wrote(true)] + rest == [Take] + ([Wrote(true)] + rest);
  }

  lemma BookOne(l: Ledger, s: State, e: Event, rest: seq<Event>, b: ChangeBatch, l1: Ledger, s1: State)
    requires Record(l, s, e, b) == l1 && Step(s, e) == s1
    ensures Recorded(l, s, [e] + rest, b) == Recorded(l1, s1, rest, b)
  {
    assert ([e] + rest)[1..] == rest;
  }
}
