/** The sink side of the handshake: handleWS of internal/transport/listener.go. */
module Listener {
  import opened Wrappers
  import opened Transport

  type Published = map<string, bool>

  predicate IsPublished(published: Published, table: string) {
    table in published && published[table]
  }

  predicate AllPublished(published: Published, tables: seq<string>) {
    forall t :: t in tables ==> IsPublished(published, t)
  }

  /** The answer to the first message, whatever it is. */
  function Answer(published: Published, first: Msg): (r: Msg)
    ensures r.HelloAck?
    ensures r.accepted <==> first.Hello? && forall t :: t in first.subscribe ==> t in published && published[t]
    ensures r.accepted ==> r.reason == ""
    ensures !first.Hello? ==> r.reason == "expected Hello as first message"
  {
    if !first.Hello? then HelloAck(false, "expected Hello as first message")
    else FirstRefusal(published, first.subscribe)
  }

  function FirstRefusal(published: Published, tables: seq<string>): (r: Msg)
    ensures r.HelloAck? && (r.accepted <==> AllPublished(published, tables)) && (r.accepted ==> r.reason == "")
  {
    if tables == [] then HelloAck(true, "")
    else if !IsPublished(published, tables[0]) then HelloAck(false, Reason(tables[0]))
    else FirstRefusal(published, tables[1..])
  }

  function Reason(table: string): string {
    "table not published: " + table
  }

  /** A refusal names the first table that is not published. */
  lemma {:induction false} RefusalNamesFirst(published: Published, tables: seq<string>) returns (i: nat)
    requires !AllPublished(published, tables)
    ensures i < |tables| && !IsPublished(published, tables[i]) && AllPublished(published, tables[..i])
    ensures FirstRefusal(published, tables) == HelloAck(false, "table not published: " + tables[i])
  {
    i := 0;
    if IsPublished(published, tables[0]) {
      i := RefusalNamesFirst(published, tables[1..]);
      i := i + 1;
      assert tables[..i] == [tables[0]] + tables[1..][..i - 1];
    }
  }

  /** handleWS up to the handler: `upgraded` says whether the request became a WebSocket,
      `first` is what Recv returned (None: an error), `sendOk` whether the HelloAck could
      be written, `handler` whether one is configured. */
  method HandleWS(published: Published, upgraded: bool, first: Option<Msg>, sendOk: bool, handler: bool)
    returns (sent: Option<Msg>, dispatched: bool)
    ensures sent == if upgraded && first.Some? then Some(Answer(published, first.value)) else None
    ensures dispatched <==>
      && upgraded && sendOk && handler && first.Some? && first.value.Hello?
      && AllPublished(published, first.value.subscribe)
  {
    sent, dispatched := None, false;
    if !upgraded {
      return;
    }
    if first.None? {
      return;
    }
    var msg := first.value;
    if !msg.Hello? {
      sent := Some(HelloAck(false, "expected Hello as first message"));
      return;
    }
    var tables := msg.subscribe;
    assert tables[0..] == tables;
    for i := 0 to |tables|
      invariant FirstRefusal(published, tables) == FirstRefusal(published, tables[i..])
    {
      if !IsPublished(published, tables[i]) {
        sent := Some(HelloAck(false, Reason(tables[i])));
        return;
      }
      assert tables[i..][1..] == tables[i + 1..];
    }
    sent := Some(HelloAck(true, ""));
    if !sendOk {
      return;
    }
    dispatched := handler;
  }
}
