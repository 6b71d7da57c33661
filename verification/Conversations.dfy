/**
 The conversation multiplexer as a transition system: callers of SendHttpRequest, one
 read pump per connection, and the client program at the far end.  A step is one critical
 section, one channel operation or one message operation; steps of all goroutines
 interleave freely, connections may drop and lose what was in flight, and a timeout or a
 cancellation may strike at any moment.
 */
module Conversations {
  import opened Protocol
  import HostMaps
  import opened RecentWindow

  datatype CallError = SendError | TimedOut | Cancelled

  // Where one call of SendHttpRequest stands.
  datatype Phase =
    | New                              // id and channel made, not yet in `pending`
    | Sending                          // registered, request not yet written
    | Waiting                          // in the select
    | Failing(error: CallError)        // about to delete its id from `pending`
    | Got(response: HttpResponseData)  // received, counter not yet incremented
    | Counted(response: HttpResponseData)  // counted, request not yet recorded
    | Returned(outcome: Result<HttpResponseData, CallError>)

  // Bookkeeping only, read by no guard: who may still send on the call's channel.
  datatype Token =
    | Unissued
    | InPending
    | Held(reader: nat, response: HttpResponseData)
    | Spent(response: HttpResponseData)
    | Revoked

  // Bookkeeping only: what became of the call's request message.
  datatype Request = Unsent | Dispatched | Executed(exec: nat)

  // `buffer` is the call's channel, made with room for one response; `sends` counts every
  // send on it.
  datatype Call = Call(
    id: Uuid, client: nat, user: UserId, request: HttpRequestData, phase: Phase,
    buffer: seq<HttpResponseData>, sends: nat, token: Token, fate: Request)

  datatype Reader =
    | Idle
    | Routing(id: Uuid, response: HttpResponseData)     // decoded, `mu` not yet taken
    | Delivering(call: nat, response: HttpResponseData) // took a channel, not yet sent
    | Ended

  // Host to client.
  datatype Down = Info | Ask(id: Uuid, request: HttpRequestData)

  // Client to host.  Junk is whatever the read pump skips: an undecodable command, another
  // command type, an undecodable payload.
  datatype Up = Junk | Answer(id: Uuid, response: HttpResponseData)

  // One connection, past or present.  `requests` is the counter shown in the portal.
  datatype Client = Client(user: UserId, requests: nat, open: bool, down: seq<Down>, up: seq<Up>, reader: Reader)

  datatype Run =
    | Running
    | Answered(response: HttpResponseData)
    | Written(response: HttpResponseData)
    | Failed(produced: Option<HttpResponseData>)

  // One run of the client's `handle`.
  datatype Exec = Exec(client: nat, id: Uuid, request: HttpRequestData, run: Run)

  // What happened under `mu` to the pending map, in lock order.
  datatype Event = Registered(id: Uuid) | Inbound(id: Uuid, response: HttpResponseData) | Withdrawn(id: Uuid)

  // `issued` (the ids ever generated), `log` and `events` are history.
  datatype State = State(
    clients: seq<Client>, calls: seq<Call>, execs: seq<Exec>, pending: map<Uuid, nat>,
    recent: Recent, issued: map<Uuid, nat>, log: seq<Entry>, events: seq<Event>)

  datatype Step =
    // SendHttpRequest
    | Begin(id: Uuid, client: nat, request: HttpRequestData)
    | Enter(call: nat)
    | Send(call: nat)
    | FailSend(call: nat, arrived: bool)
    | Receive(call: nat)
    | GiveUp(call: nat, error: CallError)
    | Cleanup(call: nat)
    | Count(call: nat)
    | Log(call: nat, time: int)
    // handleConn, readPump
    | Connect(user: UserId)
    | PushInfo(client: nat)
    | Read(client: nat)
    | Route(client: nat)
    | Deliver(client: nat)
    | EndRead(client: nat)
    // the client program
    | TakeRequest(client: nat)
    | Handle(exec: nat, response: HttpResponseData)
    | Reply(exec: nat, arrived: bool)
    // the network; Inject is a message no client program of this repository wrote
    | Disconnect(client: nat, keepDown: nat, keepUp: nat)
    | Inject(client: nat, message: Up)

  predicate InPhase(s: State, k: nat, phase: Phase) {
    k < |s.calls| && s.calls[k].phase == phase
  }

  predicate IsOpen(s: State, c: nat) { c < |s.clients| && s.clients[c].open }

  predicate Enabled(s: State, step: Step) {
    match step
    case Begin(id, c, _) => id !in s.issued && c < |s.clients|
    case Enter(k) => InPhase(s, k, New)
    case Send(k) => InPhase(s, k, Sending) && IsOpen(s, s.calls[k].client)
    // an erroneous write may still have reached the peer
    case FailSend(k, arrived) =>
      && InPhase(s, k, Sending) && s.calls[k].client < |s.clients|
      && (arrived ==> IsOpen(s, s.calls[k].client))
    case Receive(k) => InPhase(s, k, Waiting) && s.calls[k].buffer != []
    case GiveUp(k, e) => InPhase(s, k, Waiting) && e != SendError
    case Cleanup(k) => k < |s.calls| && s.calls[k].phase.Failing?
    case Count(k) => k < |s.calls| && s.calls[k].phase.Got? && s.calls[k].client < |s.clients|
    case Log(k, _) => k < |s.calls| && s.calls[k].phase.Counted?
    case Connect(_) => true
    case PushInfo(c) => IsOpen(s, c)
    case Read(c) => c < |s.clients| && s.clients[c].reader == Idle && s.clients[c].up != []
    case Route(c) => c < |s.clients| && s.clients[c].reader.Routing?
    case Deliver(c) =>
      && c < |s.clients| && s.clients[c].reader.Delivering?
      && s.clients[c].reader.call < |s.calls|
      && |s.calls[s.clients[c].reader.call].buffer| < 1
    case EndRead(c) => c < |s.clients| && !s.clients[c].open && s.clients[c].reader == Idle
    case TakeRequest(c) => c < |s.clients| && s.clients[c].down != []
    case Handle(e, _) => e < |s.execs| && s.execs[e].run == Running
    // without an answer, or on an erroneous write, nothing arrives
    case Reply(e, arrived) =>
      && e < |s.execs| && (s.execs[e].run.Running? || s.execs[e].run.Answered?)
      && (arrived ==> s.execs[e].run.Answered? && IsOpen(s, s.execs[e].client))
    case Disconnect(c, keepDown, keepUp) =>
      IsOpen(s, c) && keepDown <= |s.clients[c].down| && keepUp <= |s.clients[c].up|
    case Inject(c, _) => IsOpen(s, c)
  }

  function Phased(call: Call, phase: Phase): Call { call.(phase := phase) }

  function WithDown(c: Client, message: Down): Client { c.(down := c.down + [message]) }

  function WithUp(c: Client, message: Up): Client { c.(up := c.up + [message]) }

  // The response a run of `handle` has produced, if any.
  function Produced(run: Run): Option<HttpResponseData> {
    match run
    case Running => None
    case Answered(response) => Some(response)
    case Written(response) => Some(response)
    case Failed(produced) => produced
  }

  // Steps of one SendHttpRequest.

  function DoBegin(s: State, id: Uuid, c: nat, request: HttpRequestData): State
    requires c < |s.clients|
  {
    s.(calls := s.calls + [Call(id, c, s.clients[c].user, request, New, [], 0, Unissued, Unsent)],
       issued := s.issued[id := |s.calls|])
  }

  function DoEnter(s: State, k: nat): State
    requires k < |s.calls|
  {
    s.(calls := s.calls[k := s.calls[k].(phase := Sending, token := InPending)],
       pending := HostMaps.Register(s.pending, s.calls[k].id, k),
       events := s.events + [Registered(s.calls[k].id)])
  }

  // The write is over, with or without an error; the request is on its way or not.
  function DoSend(s: State, k: nat, phase: Phase, arrived: bool): State
    requires k < |s.calls| && s.calls[k].client < |s.clients|
  {
    var call := s.calls[k];
    if arrived then
      s.(calls := s.calls[k := call.(phase := phase, fate := Dispatched)],
         clients := s.clients[call.client := WithDown(s.clients[call.client], Ask(call.id, call.request))])
    else s.(calls := s.calls[k := Phased(call, phase)])
  }

  function DoReceive(s: State, k: nat): State
    requires k < |s.calls| && s.calls[k].buffer != []
  {
    s.(calls := s.calls[k := s.calls[k].(phase := Got(s.calls[k].buffer[0]), buffer := s.calls[k].buffer[1..])])
  }

  function DoGiveUp(s: State, k: nat, error: CallError): State
    requires k < |s.calls|
  {
    s.(calls := s.calls[k := Phased(s.calls[k], Failing(error))])
  }

  function DoCleanup(s: State, k: nat): State
    requires k < |s.calls| && s.calls[k].phase.Failing?
  {
    var call := s.calls[k];
    var token := if call.token == InPending then Revoked else call.token;
    s.(calls := s.calls[k := call.(phase := Returned(Err(call.phase.error)), token := token)],
       pending := HostMaps.Forget(s.pending, call.id),
       events := s.events + [Withdrawn(call.id)])
  }

  function DoCount(s: State, k: nat): State
    requires k < |s.calls| && s.calls[k].phase.Got? && s.calls[k].client < |s.clients|
  {
    var c := s.calls[k].client;
    s.(calls := s.calls[k := Phased(s.calls[k], Counted(s.calls[k].phase.response))],
       clients := s.clients[c := s.clients[c].(requests := s.clients[c].requests + 1)])
  }

  function DoLog(s: State, k: nat, time: int): State
    requires k < |s.calls| && s.calls[k].phase.Counted?
  {
    var call := s.calls[k];
    var row := LiveRequest(time, call.request.verb, call.request.path, call.phase.response.statusCode);
    s.(calls := s.calls[k := Phased(call, Returned(Ok(call.phase.response)))],
       recent := Record(s.recent, call.user, row),
       log := s.log + [Entry(call.user, row)])
  }

  // Steps of handleConn and readPump.

  function DoConnect(s: State, user: UserId): State {
    s.(clients := s.clients + [Client(user, 0, true, [], [], Idle)])
  }

  function DoPushInfo(s: State, c: nat): State
    requires c < |s.clients|
  {
    s.(clients := s.clients[c := WithDown(s.clients[c], Info)])
  }

  function DoRead(s: State, c: nat): State
    requires c < |s.clients| && s.clients[c].up != []
  {
    var reader := match s.clients[c].up[0] case Junk => Idle case Answer(id, response) => Routing(id, response);
    s.(clients := s.clients[c := s.clients[c].(up := s.clients[c].up[1..], reader := reader)])
  }

  // The critical section of the read pump: look the id up and remove it.
  function DoRoute(s: State, c: nat): State
    requires c < |s.clients| && s.clients[c].reader.Routing?
  {
    var Routing(id, response) := s.clients[c].reader;
    var (taken, rest) := HostMaps.Take(s.pending, id);
    var events := s.events + [Inbound(id, response)];
    if taken.Some? && taken.value < |s.calls| then
      var k := taken.value;
      s.(pending := rest, events := events,
         clients := s.clients[c := s.clients[c].(reader := Delivering(k, response))],
         calls := s.calls[k := s.calls[k].(token := Held(c, response))])
    else
      s.(pending := rest, events := events, clients := s.clients[c := s.clients[c].(reader := Idle)])
  }

  // The channel send, outside the lock.
  function DoDeliver(s: State, c: nat): State
    requires c < |s.clients| && s.clients[c].reader.Delivering? && s.clients[c].reader.call < |s.calls|
  {
    var Delivering(k, response) := s.clients[c].reader;
    var call := s.calls[k];
    s.(clients := s.clients[c := s.clients[c].(reader := Idle)],
       calls := s.calls[k := call.(buffer := call.buffer + [response], sends := call.sends + 1,
                                   token := Spent(response))])
  }

  function DoEndRead(s: State, c: nat): State
    requires c < |s.clients|
  {
    s.(clients := s.clients[c := s.clients[c].(reader := Ended)])
  }

  // Steps of the client program.

  // The read loop takes the next message; a request starts one run of `handle`.
  function DoTakeRequest(s: State, c: nat): State
    requires c < |s.clients| && s.clients[c].down != []
  {
    var s' := s.(clients := s.clients[c := s.clients[c].(down := s.clients[c].down[1..])]);
    match s.clients[c].down[0]
    case Info => s'
    case Ask(id, request) =>
      var started := s'.(execs := s.execs + [Exec(c, id, request, Running)]);
      if id in s.issued && s.issued[id] < |s.calls| then
        var k := s.issued[id];
        started.(calls := s.calls[k := s.calls[k].(fate := Executed(|s.execs|))])
      else started
  }

  function DoHandle(s: State, e: nat, response: HttpResponseData): State
    requires e < |s.execs|
  {
    s.(execs := s.execs[e := s.execs[e].(run := Answered(response))])
  }

  // The reply carries the request's own conversation id.
  function DoReply(s: State, e: nat, arrived: bool): State
    requires e < |s.execs| && (arrived ==> s.execs[e].run.Answered? && s.execs[e].client < |s.clients|)
  {
    var x := s.execs[e];
    if arrived then
      s.(execs := s.execs[e := x.(run := Written(x.run.response))],
         clients := s.clients[x.client := WithUp(s.clients[x.client], Answer(x.id, x.run.response))])
    else s.(execs := s.execs[e := x.(run := Failed(Produced(x.run)))])
  }

  // Steps of the network.

  function DoDisconnect(s: State, c: nat, keepDown: nat, keepUp: nat): State
    requires c < |s.clients| && keepDown <= |s.clients[c].down| && keepUp <= |s.clients[c].up|
  {
    s.(clients := s.clients[c := s.clients[c].(open := false, down := s.clients[c].down[..keepDown],
                                               up := s.clients[c].up[..keepUp])])
  }

  function DoInject(s: State, c: nat, message: Up): State
    requires c < |s.clients|
  {
    s.(clients := s.clients[c := WithUp(s.clients[c], message)])
  }

  function Apply(s: State, step: Step): State
    requires Enabled(s, step)
  {
    match step
    case Begin(id, c, request) => DoBegin(s, id, c, request)
    case Enter(k) => DoEnter(s, k)
    case Send(k) => DoSend(s, k, Waiting, true)
    case FailSend(k, arrived) => DoSend(s, k, Failing(SendError), arrived)
    case Receive(k) => DoReceive(s, k)
    case GiveUp(k, error) => DoGiveUp(s, k, error)
    case Cleanup(k) => DoCleanup(s, k)
    case Count(k) => DoCount(s, k)
    case Log(k, time) => DoLog(s, k, time)
    case Connect(user) => DoConnect(s, user)
    case PushInfo(c) => DoPushInfo(s, c)
    case Read(c) => DoRead(s, c)
    case Route(c) => DoRoute(s, c)
    case Deliver(c) => DoDeliver(s, c)
    case EndRead(c) => DoEndRead(s, c)
    case TakeRequest(c) => DoTakeRequest(s, c)
    case Handle(e, response) => DoHandle(s, e, response)
    case Reply(e, arrived) => DoReply(s, e, arrived)
    case Disconnect(c, keepDown, keepUp) => DoDisconnect(s, c, keepDown, keepUp)
    case Inject(c, message) => DoInject(s, c, message)
  }

  const INITIAL := State([], [], [], map[], map[], map[], [], [])

  predicate Valid(s: State, steps: seq<Step>)
    decreases |steps|
  {
    steps == [] || (Enabled(s, steps[0]) && Valid(Apply(s, steps[0]), steps[1..]))
  }

  function After(s: State, steps: seq<Step>): State
    requires Valid(s, steps)
    decreases |steps|
  {
    if steps == [] then s else After(Apply(s, steps[0]), steps[1..])
  }

  // A run, then another from where it ended, is a run.
  lemma {:induction false} RunsJoin(s: State, first: seq<Step>, second: seq<Step>)
    requires Valid(s, first) && Valid(After(s, first), second)
    ensures Valid(s, first + second)
    ensures After(s, first + second) == After(After(s, first), second)
    decreases |first|
  {
    if first == [] {
      assert first + second == second;
    } else {
      var joined, step, s' := first + second, first[0], Apply(s, first[0]);
      assert joined[0] == step && joined[1..] == first[1..] + second;
      assert Valid(s', first[1..]) && After(s, first) == After(s', first[1..]);
      RunsJoin(s', first[1..], second);
      assert Valid(s', joined[1..]);
      assert Valid(s, joined) && After(s, joined) == After(s', joined[1..]);
    }
  }

  lemma OneStep(s: State, step: Step)
    requires Enabled(s, step)
    ensures Valid(s, [step]) && After(s, [step]) == Apply(s, step)
  {
    assert [step][1..] == [];
  }

  // Reachable whatever the peers send.
  ghost predicate Reachable(s: State) {
    exists steps :: Valid(INITIAL, steps) && After(INITIAL, steps) == s
  }

  // Is the step an injection of just this answer?
  predicate Injects(step: Step, id: Uuid, response: HttpResponseData) {
    step.Inject? && step.message == Answer(id, response)
  }

  predicate Unforged(steps: seq<Step>, id: Uuid, response: HttpResponseData) {
    forall i | 0 <= i < |steps| :: !Injects(steps[i], id, response)
  }

  // Reachable whatever the peers send, but for this one answer.
  ghost predicate ReachableUnforged(s: State, id: Uuid, response: HttpResponseData) {
    exists steps :: Unforged(steps, id, response) && Valid(INITIAL, steps) && After(INITIAL, steps) == s
  }

  lemma StepIsReachable(s: State, step: Step)
    requires Reachable(s) && Enabled(s, step)
    ensures Reachable(Apply(s, step))
  {
    var steps :| Valid(INITIAL, steps) && After(INITIAL, steps) == s;
    OneStep(s, step);
    RunsJoin(INITIAL, steps, [step]);
  }
}
