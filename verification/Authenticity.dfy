/**
 Whose response is it?  A response under an id, unless it was injected just so, is nowhere
 in the system before a run of `handle` on the request that id was issued for produced it.
 */
module Authenticity {
  import opened Protocol
  import opened Conversations
  import opened ConversationInvariants
  import opened Requests

  // Some run of `handle`, on the request issued under `id`, produced this response.
  ghost predicate Authentic(s: State, id: Uuid, response: HttpResponseData) {
    && Issued(s, id)
    && Issuer(s, id).fate.Executed?
    && Issuer(s, id).fate.exec < |s.execs|
    && Produced(s.execs[Issuer(s, id).fate.exec].run) == Some(response)
  }

  // The response under that id is not on connection c, nor with its read pump.
  ghost predicate NotOnWire(s: State, c: nat, id: Uuid, response: HttpResponseData)
    requires c < |s.clients|
  {
    Answer(id, response) !in s.clients[c].up && s.clients[c].reader != Routing(id, response)
  }

  predicate Carries(token: Token, response: HttpResponseData) {
    (token.Held? || token.Spent?) && token.response == response
  }

  // Call k, if it is the one with that id, has not been given the response.
  ghost predicate NotGiven(s: State, k: nat, id: Uuid, response: HttpResponseData)
    requires k < |s.calls|
  {
    s.calls[k].id == id ==> !Carries(s.calls[k].token, response)
  }

  ghost predicate Absent(s: State, id: Uuid, response: HttpResponseData) {
    && (forall c: nat | c < |s.clients| :: NotOnWire(s, c, id, response))
    && (forall k: nat | k < |s.calls| :: NotGiven(s, k, id, response))
  }

  ghost predicate Vouched(s: State, id: Uuid, response: HttpResponseData) {
    Authentic(s, id, response) || Absent(s, id, response)
  }

  // Ids, executed fates and produced responses are never lost.
  ghost predicate Remembers(s: State, s': State) {
    && |s.calls| <= |s'.calls| && |s.execs| <= |s'.execs|
    && (forall id | id in s.issued :: id in s'.issued && s'.issued[id] == s.issued[id])
    && (forall k: nat | k < |s.calls| && s.calls[k].fate.Executed? :: s'.calls[k].fate == s.calls[k].fate)
    && (forall e: nat | e < |s.execs| && Produced(s.execs[e].run).Some? ::
          Produced(s'.execs[e].run) == Produced(s.execs[e].run))
  }

  lemma AuthenticStays(s: State, s': State, id: Uuid, response: HttpResponseData)
    requires Remembers(s, s') && Authentic(s, id, response)
    ensures Authentic(s', id, response)
  {
    var e := Issuer(s, id).fate.exec;
    assert Produced(s.execs[e].run).Some?;
  }

  lemma SendRemembers(s: State, k: nat, phase: Phase, arrived: bool)
    requires RequestsOk(s) && InPhase(s, k, Sending) && s.calls[k].client < |s.clients|
    ensures Remembers(s, DoSend(s, k, phase, arrived))
  {
    assert FateSound(s, k);
  }

  lemma TakeRemembers(s: State, c: nat)
    requires RequestsOk(s) && c < |s.clients| && s.clients[c].down != []
    ensures Remembers(s, DoTakeRequest(s, c))
  {
    assert QueueSound(s, c);
    var first := s.clients[c].down[0];
    if first.Ask? { assert AskSound(s, c, first.id, first.request); }
  }

  lemma CallerRemembers(s: State, step: Step)
    requires Enabled(s, step)
    requires step.Begin? || step.Enter? || step.Receive? || step.GiveUp? || step.Cleanup? || step.Count? || step.Log?
    ensures Remembers(s, Apply(s, step))
  {}

  lemma HostRemembers(s: State, step: Step)
    requires Enabled(s, step)
    requires step.Connect? || step.PushInfo? || step.Read? || step.Route? || step.Deliver? || step.EndRead?
    ensures Remembers(s, Apply(s, step))
  {}

  lemma RemoteRemembers(s: State, step: Step)
    requires Enabled(s, step) && (step.Handle? || step.Reply? || step.Disconnect? || step.Inject?)
    ensures Remembers(s, Apply(s, step))
  {}

  lemma StepRemembers(s: State, step: Step)
    requires HostOk(s) && RequestsOk(s) && Enabled(s, step)
    ensures Remembers(s, Apply(s, step))
  {
    if step.Send? {
      SendRemembers(s, step.call, Waiting, true);
    } else if step.FailSend? {
      SendRemembers(s, step.call, Failing(SendError), step.arrived);
    } else if step.TakeRequest? {
      TakeRemembers(s, step.client);
    } else if step.Handle? || step.Reply? || step.Disconnect? || step.Inject? {
      RemoteRemembers(s, step);
    } else if step.Connect? || step.PushInfo? || step.Read? || step.Route? || step.Deliver? || step.EndRead? {
      HostRemembers(s, step);
    } else {
      CallerRemembers(s, step);
    }
  }

  // No message was added to the wires, and no token gained a response.
  ghost predicate NothingNew(s: State, s': State) {
    && |s.clients| <= |s'.clients| && |s.calls| <= |s'.calls|
    && (forall c: nat | c < |s.clients| :: s'.clients[c].up <= s.clients[c].up &&
          (s'.clients[c].reader == s.clients[c].reader || !s'.clients[c].reader.Routing?))
    && (forall c: nat | |s.clients| <= c < |s'.clients| :: s'.clients[c].up == [] && s'.clients[c].reader == Idle)
    && (forall k: nat | k < |s.calls| :: s'.calls[k].id == s.calls[k].id &&
          (s'.calls[k].token == s.calls[k].token || !(s'.calls[k].token.Held? || s'.calls[k].token.Spent?)))
    && (forall k: nat | |s.calls| <= k < |s'.calls| :: s'.calls[k].token == Unissued)
  }

  lemma NothingNewKeepsAbsent(s: State, s': State, id: Uuid, response: HttpResponseData)
    requires Absent(s, id, response) && NothingNew(s, s')
    ensures Absent(s', id, response)
  {
    forall c: nat | c < |s'.clients| ensures NotOnWire(s', c, id, response) {
      assert c < |s.clients| ==> NotOnWire(s, c, id, response);
    }
    forall k: nat | k < |s'.calls| ensures NotGiven(s', k, id, response) {
      assert k < |s.calls| ==> NotGiven(s, k, id, response);
    }
  }

  lemma ReadKeepsAbsent(s: State, c: nat, id: Uuid, response: HttpResponseData)
    requires Absent(s, id, response) && c < |s.clients| && s.clients[c].up != []
    ensures Absent(DoRead(s, c), id, response)
  {
    var s' := DoRead(s, c);
    forall d: nat | d < |s'.clients| ensures NotOnWire(s', d, id, response) { assert NotOnWire(s, d, id, response); }
    forall k: nat | k < |s'.calls| ensures NotGiven(s', k, id, response) { assert NotGiven(s, k, id, response); }
  }

  lemma RouteKeepsAbsent(s: State, c: nat, id: Uuid, response: HttpResponseData)
    requires HostOk(s) && Absent(s, id, response) && c < |s.clients| && s.clients[c].reader.Routing?
    ensures Absent(DoRoute(s, c), id, response)
  {
    var s' := DoRoute(s, c);
    assert IdSound(s, s.clients[c].reader.id) && NotOnWire(s, c, id, response);
    forall d: nat | d < |s'.clients| ensures NotOnWire(s', d, id, response) { assert NotOnWire(s, d, id, response); }
    forall k: nat | k < |s'.calls| ensures NotGiven(s', k, id, response) { assert NotGiven(s, k, id, response); }
  }

  lemma DeliverKeepsAbsent(s: State, c: nat, id: Uuid, response: HttpResponseData)
    requires HostOk(s) && Absent(s, id, response) && c < |s.clients| && s.clients[c].reader.Delivering?
    requires s.clients[c].reader.call < |s.calls|
    ensures Absent(DoDeliver(s, c), id, response)
  {
    var s' := DoDeliver(s, c);
    assert ReaderSound(s, c);
    forall d: nat | d < |s'.clients| ensures NotOnWire(s', d, id, response) { assert NotOnWire(s, d, id, response); }
    forall k: nat | k < |s'.calls| ensures NotGiven(s', k, id, response) { assert NotGiven(s, k, id, response); }
  }

  // Another message arrives on connection c; nothing else changes on the wires or in tokens.
  lemma ArrivalKeepsAbsent(s: State, s': State, c: nat, message: Up, id: Uuid, response: HttpResponseData)
    requires Absent(s, id, response) && message != Answer(id, response)
    requires s'.calls == s.calls && c < |s.clients| && s'.clients == s.clients[c := WithUp(s.clients[c], message)]
    ensures Absent(s', id, response)
  {
    forall d: nat | d < |s'.clients| ensures NotOnWire(s', d, id, response) { assert NotOnWire(s, d, id, response); }
    forall k: nat | k < |s'.calls| ensures NotGiven(s', k, id, response) { assert NotGiven(s, k, id, response); }
  }

  // The client program replies with nothing but what `handle` produced under the id.
  lemma ReplyKeepsAbsent(s: State, e: nat, arrived: bool, id: Uuid, response: HttpResponseData)
    requires HostOk(s) && RequestsOk(s) && Enabled(s, Reply(e, arrived))
    requires Absent(s, id, response) && !Authentic(s, id, response)
    ensures Absent(DoReply(s, e, arrived), id, response)
  {
    var x := s.execs[e];
    assert ExecSound(s, e);
    if arrived {
      ArrivalKeepsAbsent(s, DoReply(s, e, arrived), x.client, Answer(x.id, x.run.response), id, response);
    } else {
      NothingNewKeepsAbsent(s, DoReply(s, e, arrived), id, response);
    }
  }

  lemma SendAddsNothing(s: State, k: nat, phase: Phase, arrived: bool)
    requires InPhase(s, k, Sending) && s.calls[k].client < |s.clients|
    ensures NothingNew(s, DoSend(s, k, phase, arrived))
  {}

  lemma CallerAddsNothing(s: State, step: Step)
    requires Enabled(s, step)
    requires step.Begin? || step.Enter? || step.Receive? || step.GiveUp? || step.Cleanup? || step.Count? || step.Log?
    ensures NothingNew(s, Apply(s, step))
  {}

  lemma HostAddsNothing(s: State, step: Step)
    requires Enabled(s, step) && (step.Connect? || step.PushInfo? || step.EndRead?)
    ensures NothingNew(s, Apply(s, step))
  {}

  lemma RemoteAddsNothing(s: State, step: Step)
    requires Enabled(s, step) && (step.TakeRequest? || step.Handle? || step.Disconnect?)
    ensures NothingNew(s, Apply(s, step))
  {}

  lemma QuietStepKeepsAbsent(s: State, step: Step, id: Uuid, response: HttpResponseData)
    requires Absent(s, id, response) && Enabled(s, step)
    requires !(step.Read? || step.Route? || step.Deliver? || step.Reply? || step.Inject?)
    ensures Absent(Apply(s, step), id, response)
  {
    var s' := Apply(s, step);
    assert NothingNew(s, s') by {
      if step.Send? {
        SendAddsNothing(s, step.call, Waiting, true);
      } else if step.FailSend? {
        SendAddsNothing(s, step.call, Failing(SendError), step.arrived);
      } else if step.TakeRequest? || step.Handle? || step.Disconnect? {
        RemoteAddsNothing(s, step);
      } else if step.Connect? || step.PushInfo? || step.EndRead? {
        HostAddsNothing(s, step);
      } else {
        CallerAddsNothing(s, step);
      }
    }
    NothingNewKeepsAbsent(s, s', id, response);
  }

  // Whatever else is injected, a step keeps the response vouched for, unless the step
  // injects that very response under that very id.
  lemma StepKeepsVouched(s: State, step: Step, id: Uuid, response: HttpResponseData)
    requires HostOk(s) && RequestsOk(s) && Vouched(s, id, response) && Enabled(s, step)
    requires !Injects(step, id, response)
    ensures Vouched(Apply(s, step), id, response)
  {
    if Authentic(s, id, response) {
      StepRemembers(s, step);
      AuthenticStays(s, Apply(s, step), id, response);
    } else {
      StepFromAbsent(s, step, id, response);
    }
  }

  lemma StepFromAbsent(s: State, step: Step, id: Uuid, response: HttpResponseData)
    requires HostOk(s) && RequestsOk(s) && Absent(s, id, response) && !Authentic(s, id, response) && Enabled(s, step)
    requires !Injects(step, id, response)
    ensures Absent(Apply(s, step), id, response)
  {
    if step.Read? {
      ReadKeepsAbsent(s, step.client, id, response);
    } else if step.Route? {
      RouteKeepsAbsent(s, step.client, id, response);
    } else if step.Deliver? {
      DeliverKeepsAbsent(s, step.client, id, response);
    } else if step.Reply? {
      ReplyKeepsAbsent(s, step.exec, step.arrived, id, response);
    } else if step.Inject? {
      ArrivalKeepsAbsent(s, Apply(s, step), step.client, step.message, id, response);
    } else {
      QuietStepKeepsAbsent(s, step, id, response);
    }
  }
}
