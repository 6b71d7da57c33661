/**
 The form the pending map replaced: every waiter is shown every event, and keeps the first
 response that carries its id.  Here the map is shown to give each call that response.
 */
module Broadcast {
  import opened Protocol
  import opened Conversations
  import opened ConversationInvariants

  datatype Waiter = Deaf | Listening | Heard(response: HttpResponseData) | Left

  // One waiter looks at one event.
  function Inspect(w: Waiter, id: Uuid, event: Event): Waiter {
    match event
    case Registered(i) => if i == id && w == Deaf then Listening else w
    case Inbound(i, response) => if i == id && w == Listening then Heard(response) else w
    case Withdrawn(i) => if i == id && w == Listening then Left else w
  }

  // The waiter for `id` after every event has been shown to it.
  function Shown(id: Uuid, events: seq<Event>): Waiter {
    if events == [] then Deaf
    else Inspect(Shown(id, events[..|events| - 1]), id, events[|events| - 1])
  }

  lemma ShownSnoc(id: Uuid, events: seq<Event>, event: Event)
    ensures Shown(id, events + [event]) == Inspect(Shown(id, events), id, event)
  {
    assert (events + [event])[..|events|] == events;
  }

  // What a call's token means to the broadcast form.
  function View(token: Token): Waiter {
    match token
    case Unissued => Deaf
    case InPending => Listening
    case Held(_, response) => Heard(response)
    case Spent(response) => Heard(response)
    case Revoked => Left
  }

  ghost predicate CallShown(s: State, k: nat)
    requires k < |s.calls|
  {
    View(s.calls[k].token) == Shown(s.calls[k].id, s.events)
  }

  ghost predicate FreshIsDeaf(s: State, id: Uuid) { id !in s.issued ==> Shown(id, s.events) == Deaf }

  ghost predicate Agrees(s: State) {
    && (forall k: nat | k < |s.calls| :: CallShown(s, k))
    && (forall id :: FreshIsDeaf(s, id))
  }

  // No event, and no token changes its meaning.
  lemma SilentStepAgrees(s: State, s': State)
    requires Agrees(s) && s'.events == s.events && s'.issued == s.issued && |s'.calls| == |s.calls|
    requires forall k: nat | k < |s.calls| ::
               s'.calls[k].id == s.calls[k].id && View(s'.calls[k].token) == View(s.calls[k].token)
    ensures Agrees(s')
  {
    forall k: nat | k < |s'.calls| ensures CallShown(s', k) { assert CallShown(s, k); }
    forall id ensures FreshIsDeaf(s', id) { assert FreshIsDeaf(s, id); }
  }

  // One event, inspected by every waiter.
  lemma EventStepAgrees(s: State, s': State, event: Event)
    requires Agrees(s) && s'.events == s.events + [event] && s'.issued == s.issued && |s'.calls| == |s.calls|
    requires event.Registered? ==> event.id in s.issued
    requires forall k: nat | k < |s.calls| ::
               s'.calls[k].id == s.calls[k].id &&
               View(s'.calls[k].token) == Inspect(View(s.calls[k].token), s.calls[k].id, event)
    ensures Agrees(s')
  {
    forall k: nat | k < |s'.calls| ensures CallShown(s', k) {
      assert CallShown(s, k);
      ShownSnoc(s.calls[k].id, s.events, event);
    }
    forall id ensures FreshIsDeaf(s', id) {
      assert FreshIsDeaf(s, id);
      ShownSnoc(id, s.events, event);
    }
  }

  lemma BeginAgrees(s: State, id: Uuid, c: nat, request: HttpRequestData)
    requires HostOk(s) && Agrees(s) && id !in s.issued && c < |s.clients|
    ensures Agrees(DoBegin(s, id, c, request))
  {
    var s' := DoBegin(s, id, c, request);
    assert FreshIsDeaf(s, id);
    forall k: nat | k < |s'.calls| ensures CallShown(s', k) {
      assert k < |s.calls| ==> CallShown(s, k);
    }
    forall i ensures FreshIsDeaf(s', i) { assert FreshIsDeaf(s, i); }
  }

  lemma EnterAgrees(s: State, k: nat)
    requires HostOk(s) && Agrees(s) && InPhase(s, k, New)
    ensures Agrees(DoEnter(s, k))
  {
    assert CallSound(s, k);
    forall j: nat | j < |s.calls| && j != k ensures s.calls[j].id != s.calls[k].id { IdsDiffer(s, j, k); }
    EventStepAgrees(s, DoEnter(s, k), Registered(s.calls[k].id));
  }

  lemma CleanupAgrees(s: State, k: nat)
    requires HostOk(s) && Agrees(s) && k < |s.calls| && s.calls[k].phase.Failing?
    ensures Agrees(DoCleanup(s, k))
  {
    assert CallSound(s, k);
    forall j: nat | j < |s.calls| && j != k ensures s.calls[j].id != s.calls[k].id { IdsDiffer(s, j, k); }
    EventStepAgrees(s, DoCleanup(s, k), Withdrawn(s.calls[k].id));
  }

  lemma RouteAgrees(s: State, c: nat)
    requires HostOk(s) && Agrees(s) && c < |s.clients| && s.clients[c].reader.Routing?
    ensures Agrees(DoRoute(s, c))
  {
    var Routing(id, response) := s.clients[c].reader;
    var s' := DoRoute(s, c);
    assert IdSound(s, id);
    forall k: nat | k < |s.calls|
      ensures s'.calls[k].id == s.calls[k].id
      ensures View(s'.calls[k].token) == Inspect(View(s.calls[k].token), s.calls[k].id, Inbound(id, response))
    {
      assert CallSound(s, k);
    }
    EventStepAgrees(s, s', Inbound(id, response));
  }

  lemma DeliverAgrees(s: State, c: nat)
    requires HostOk(s) && Agrees(s)
    requires c < |s.clients| && s.clients[c].reader.Delivering? && s.clients[c].reader.call < |s.calls|
    ensures Agrees(DoDeliver(s, c))
  {
    assert ReaderSound(s, c);
    SilentStepAgrees(s, DoDeliver(s, c));
  }

  predicate IsSilent(step: Step) {
    !(step.Begin? || step.Enter? || step.Cleanup? || step.Route? || step.Deliver?)
  }

  lemma SilentStep(s: State, step: Step)
    requires Enabled(s, step) && IsSilent(step)
    ensures var s' := Apply(s, step);
            && s'.events == s.events && s'.issued == s.issued && |s'.calls| == |s.calls|
            && forall k: nat | k < |s.calls| :: s'.calls[k].id == s.calls[k].id && s'.calls[k].token == s.calls[k].token
  {}

  lemma StepAgrees(s: State, step: Step)
    requires HostOk(s) && Agrees(s) && Enabled(s, step)
    ensures Agrees(Apply(s, step))
  {
    if step.Begin? {
      BeginAgrees(s, step.id, step.client, step.request);
    } else if step.Enter? {
      EnterAgrees(s, step.call);
    } else if step.Cleanup? {
      CleanupAgrees(s, step.call);
    } else if step.Route? {
      RouteAgrees(s, step.client);
    } else if step.Deliver? {
      DeliverAgrees(s, step.client);
    } else {
      SilentStep(s, step);
      SilentStepAgrees(s, Apply(s, step));
    }
  }

  // What "first match wins" means: the event at j is the first to carry the id between the
  // one registration at i and any withdrawal.

  predicate Touches(event: Event, id: Uuid) { event.id == id && !event.Registered? }

  ghost predicate Opens(id: Uuid, events: seq<Event>, i: nat) {
    i < |events| && events[i] == Registered(id) && forall m | 0 <= m < i :: events[m] != Registered(id)
  }

  ghost predicate FirstAnswer(id: Uuid, events: seq<Event>, i: nat, j: nat, response: HttpResponseData) {
    && Opens(id, events, i)
    && i < j < |events| && events[j] == Inbound(id, response)
    && forall m | i < m < j :: !Touches(events[m], id)
  }

  ghost predicate StillOpen(id: Uuid, events: seq<Event>, i: nat) {
    Opens(id, events, i) && forall m | i < m < |events| :: !Touches(events[m], id)
  }

  lemma {:induction false} ShownMeansFirstAnswer(id: Uuid, events: seq<Event>, response: HttpResponseData)
    ensures Shown(id, events) == Deaf <==> forall m | 0 <= m < |events| :: events[m] != Registered(id)
    ensures Shown(id, events) == Listening <==> exists i: nat :: StillOpen(id, events, i)
    ensures Shown(id, events) == Heard(response) <==> exists i: nat, j: nat :: FirstAnswer(id, events, i, j, response)
  {
    if events != [] {
      var front, event := events[..|events| - 1], events[|events| - 1];
      ShownMeansFirstAnswer(id, front, response);
      if event.Inbound? { ShownMeansFirstAnswer(id, front, event.response); }
      LastEvent(id, front, event, response);
      assert front + [event] == events;
    }
  }

  lemma LastEvent(id: Uuid, front: seq<Event>, event: Event, response: HttpResponseData)
    requires Shown(id, front) == Deaf <==> forall m | 0 <= m < |front| :: front[m] != Registered(id)
    requires Shown(id, front) == Listening <==> exists i: nat :: StillOpen(id, front, i)
    requires Shown(id, front) == Heard(response) <==> exists i: nat, j: nat :: FirstAnswer(id, front, i, j, response)
    ensures var events := front + [event];
            && (Shown(id, events) == Deaf <==> forall m | 0 <= m < |events| :: events[m] != Registered(id))
            && (Shown(id, events) == Listening <==> exists i: nat :: StillOpen(id, events, i))
            && (Shown(id, events) == Heard(response) <==>
                  exists i: nat, j: nat :: FirstAnswer(id, events, i, j, response))
  {
    var events := front + [event];
    ShownSnoc(id, front, event);
    assert forall m | 0 <= m < |front| :: events[m] == front[m];
    assert events[|front|] == event;
    // openings of the longer history
    assert forall i: nat | i < |front| :: Opens(id, events, i) <==> Opens(id, front, i);
    assert Opens(id, events, |front|) <==> event == Registered(id) && Shown(id, front) == Deaf;
    assert forall i: nat | i < |front| :: StillOpen(id, events, i) <==> StillOpen(id, front, i) && !Touches(event, id);
    assert forall i: nat, j: nat | j < |front| ::
             FirstAnswer(id, events, i, j, response) <==> FirstAnswer(id, front, i, j, response);
    assert forall i: nat :: FirstAnswer(id, events, i, |front|, response) <==>
                            StillOpen(id, front, i) && event == Inbound(id, response);
    if Shown(id, events) == Listening {
      if Shown(id, front) == Listening {
        var i: nat :| StillOpen(id, front, i);
        assert StillOpen(id, events, i);
      } else {
        assert StillOpen(id, events, |front|);
      }
    }
    if i: nat :| StillOpen(id, events, i) {
      assert i < |front| ==> StillOpen(id, front, i);
    }
    if Shown(id, events) == Heard(response) {
      if Shown(id, front) == Heard(response) {
        var i: nat, j: nat :| FirstAnswer(id, front, i, j, response);
        assert FirstAnswer(id, events, i, j, response);
      } else {
        var i: nat :| StillOpen(id, front, i);
        assert FirstAnswer(id, events, i, |front|, response);
      }
    }
    if i: nat, j: nat :| FirstAnswer(id, events, i, j, response) {
      assert j < |front| ==> FirstAnswer(id, front, i, j, response);
      assert j == |front| ==> StillOpen(id, front, i);
    }
  }
}
