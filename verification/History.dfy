/**
 What a run leaves behind, told from its steps: who connected, what was called and for whom,
 which rows were recorded, how calls failed, and what became of every message.
 */
module History {
  import opened Protocol
  import opened RecentWindow
  import opened Conversations
  import opened ConversationInvariants
  import opened RequestCounts
  import opened ConversationTheorems

  // The steps of one kind, in order.
  function Only(steps: seq<Step>, kind: Step -> bool): seq<Step>
    decreases |steps|
  {
    if steps == [] then [] else (if kind(steps[0]) then [steps[0]] else []) + Only(steps[1..], kind)
  }

  lemma {:induction false} OnlyIsOfKind(steps: seq<Step>, kind: Step -> bool)
    ensures forall i | 0 <= i < |Only(steps, kind)| :: kind(Only(steps, kind)[i]) && Only(steps, kind)[i] in steps
    decreases |steps|
  {
    if steps != [] { OnlyIsOfKind(steps[1..], kind); }
  }

  function Connects(steps: seq<Step>): seq<Step> { Only(steps, (step: Step) => step.Connect?) }

  function Begins(steps: seq<Step>): seq<Step> { Only(steps, (step: Step) => step.Begin?) }

  function Logs(steps: seq<Step>): seq<Step> { Only(steps, (step: Step) => step.Log?) }

  // Connections keep their user, calls what they were begun with.
  ghost predicate Keeps(s: State, s': State) {
    && |s.clients| <= |s'.clients| && |s.calls| <= |s'.calls|
    && (forall c: nat | c < |s.clients| :: s'.clients[c].user == s.clients[c].user)
    && (forall k: nat | k < |s.calls| :: SameCall(s.calls[k], s'.calls[k]))
  }

  predicate SameCall(call: Call, call': Call) {
    call'.id == call.id && call'.client == call.client && call'.user == call.user && call'.request == call.request
  }

  ghost predicate Adds(s: State, step: Step, s': State) {
    && Keeps(s, s')
    && |s'.clients| == |s.clients| + (if step.Connect? then 1 else 0)
    && |s'.calls| == |s.calls| + (if step.Begin? then 1 else 0)
    && (step.Connect? ==> s'.clients[|s.clients|].user == step.user)
    && (step.Begin? ==> BegunAs(s'.calls[|s.calls|], step))
  }

  predicate BegunAs(call: Call, step: Step) {
    step.Begin? && call.id == step.id && call.client == step.client && call.request == step.request
  }

  lemma BeginningsAdd(s: State, step: Step)
    requires Enabled(s, step) && (step.Begin? || step.Connect? || step.PushInfo? || step.Read? || step.EndRead?)
    ensures Adds(s, step, Apply(s, step))
  {}

  lemma CallerAdds(s: State, step: Step)
    requires Enabled(s, step)
    requires step.Enter? || step.Receive? || step.GiveUp? || step.Cleanup? || step.Log?
    ensures Adds(s, step, Apply(s, step))
  {}

  lemma WriterAdds(s: State, step: Step)
    requires Enabled(s, step) && (step.Send? || step.FailSend? || step.Count?)
    ensures Adds(s, step, Apply(s, step))
  {}

  lemma PumpAdds(s: State, step: Step)
    requires Enabled(s, step) && (step.Route? || step.Deliver?)
    ensures Adds(s, step, Apply(s, step))
  {}

  lemma RemoteAdds(s: State, step: Step)
    requires Enabled(s, step) && (step.TakeRequest? || step.Handle? || step.Reply?)
    ensures Adds(s, step, Apply(s, step))
  {}

  lemma NetworkAdds(s: State, step: Step)
    requires Enabled(s, step) && (step.Disconnect? || step.Inject?)
    ensures Adds(s, step, Apply(s, step))
  {}

  lemma StepAdds(s: State, step: Step)
    requires Enabled(s, step)
    ensures Adds(s, step, Apply(s, step))
  {
    if step.Begin? || step.Connect? || step.PushInfo? || step.Read? || step.EndRead? {
      BeginningsAdd(s, step);
    } else if step.Route? || step.Deliver? {
      PumpAdds(s, step);
    } else if step.TakeRequest? || step.Handle? || step.Reply? {
      RemoteAdds(s, step);
    } else if step.Disconnect? || step.Inject? {
      NetworkAdds(s, step);
    } else if step.Send? || step.FailSend? || step.Count? {
      WriterAdds(s, step);
    } else {
      CallerAdds(s, step);
    }
  }

  // From s to t one connection was added for each of these Connect steps, and one call for
  // each of these Begin steps, in order.
  ghost predicate Added(s: State, connects: seq<Step>, begins: seq<Step>, t: State) {
    && Keeps(s, t)
    && |t.clients| == |s.clients| + |connects| && |t.calls| == |s.calls| + |begins|
    && (forall i | 0 <= i < |connects| ::
          connects[i].Connect? && t.clients[|s.clients| + i].user == connects[i].user)
    && (forall i | 0 <= i < |begins| :: BegunAs(t.calls[|s.calls| + i], begins[i]))
  }

  lemma AddedFirst(s: State, step: Step, s': State, connects: seq<Step>, begins: seq<Step>, t: State)
    requires Adds(s, step, s') && Added(s', connects, begins, t)
    ensures Added(s, (if step.Connect? then [step] else []) + connects,
                  (if step.Begin? then [step] else []) + begins, t)
  {
    if step.Connect? { assert t.clients[|s.clients|].user == s'.clients[|s.clients|].user; }
    if step.Begin? { assert SameCall(s'.calls[|s.calls|], t.calls[|s.calls|]); }
  }

  lemma {:induction false} RunAdds(s: State, steps: seq<Step>)
    requires Valid(s, steps)
    ensures Added(s, Connects(steps), Begins(steps), After(s, steps))
    decreases |steps|
  {
    if steps != [] {
      var s' := Apply(s, steps[0]);
      StepAdds(s, steps[0]);
      RunAdds(s', steps[1..]);
      AddedFirst(s, steps[0], s', Connects(steps[1..]), Begins(steps[1..]), After(s', steps[1..]));
    }
  }

  // The connections of a run are its Connect steps, each with the user who connected.
  lemma ConnectionsAreTheirUsers(steps: seq<Step>, c: nat)
    requires Valid(INITIAL, steps)
    ensures |After(INITIAL, steps).clients| == |Connects(steps)|
    ensures c < |Connects(steps)| ==> Connects(steps)[c] == Connect(After(INITIAL, steps).clients[c].user)
  {
    RunAdds(INITIAL, steps);
    assert INITIAL.clients == [];
  }

  // The calls of a run are its Begin steps, each made for the user of the connection it
  // addresses.
  lemma CallsAreTheirBegins(steps: seq<Step>, k: nat)
    requires Valid(INITIAL, steps)
    ensures |After(INITIAL, steps).calls| == |Begins(steps)|
    ensures k < |Begins(steps)| ==>
              var call := After(INITIAL, steps).calls[k];
              && Begins(steps)[k] == Begin(call.id, call.client, call.request)
              && call.client < |Connects(steps)| && Connects(steps)[call.client] == Connect(call.user)
  {
    RunAdds(INITIAL, steps);
    RunKeepsGood(INITIAL, steps);
    assert INITIAL.calls == [] && INITIAL.clients == [];
    var s := After(INITIAL, steps);
    if k < |Begins(steps)| {
      assert CallSound(s, k);
      ConnectionsAreTheirUsers(steps, s.calls[k].client);
    }
  }

  // Rows.

  // The row is the one that this Log step records: of its call, as it then returned.
  ghost predicate RowIs(s: State, entry: Entry, step: Step) {
    && step.Log? && step.call < |s.calls|
    && var call := s.calls[step.call];
       && call.phase.Returned? && call.phase.outcome.Ok?
       && entry.user == call.user
       && entry.request == LiveRequest(step.time, call.request.verb, call.request.path,
                                       call.phase.outcome.value.statusCode)
  }

  lemma {:induction false} RunLeavesReturned(s: State, steps: seq<Step>, k: nat)
    requires Valid(s, steps) && k < |s.calls| && s.calls[k].phase.Returned?
    ensures k < |After(s, steps).calls| && After(s, steps).calls[k].phase == s.calls[k].phase
    decreases |steps|
  {
    if steps != [] {
      StepLeavesReturned(s, steps[0]);
      RunLeavesReturned(Apply(s, steps[0]), steps[1..], k);
    }
  }

  lemma LoggedOnce(s: State, step: Step)
    requires Enabled(s, step)
    ensures var s' := Apply(s, step);
            if step.Log? then |s'.log| == |s.log| + 1 && s.log <= s'.log && RowIs(s', s'.log[|s.log|], step)
            else s'.log == s.log
  {}

  lemma RowStays(s: State, steps: seq<Step>, entry: Entry, step: Step)
    requires Valid(s, steps) && RowIs(s, entry, step)
    ensures RowIs(After(s, steps), entry, step)
  {
    RunLeavesReturned(s, steps, step.call);
    RunAdds(s, steps);
    assert SameCall(s.calls[step.call], After(s, steps).calls[step.call]);
  }

  lemma {:induction false} RunLogs(s: State, steps: seq<Step>)
    requires Valid(s, steps)
    ensures var t := After(s, steps);
            && |t.log| == |s.log| + |Logs(steps)| && s.log <= t.log
            && forall i | 0 <= i < |Logs(steps)| :: RowIs(t, t.log[|s.log| + i], Logs(steps)[i])
    decreases |steps|
  {
    if steps != [] {
      LoggedOnce(s, steps[0]);
      var s' := Apply(s, steps[0]);
      RunLogs(s', steps[1..]);
      if steps[0].Log? {
        RowStays(s', steps[1..], s'.log[|s.log|], steps[0]);
      }
    }
  }

  // The rows of a run are its Log steps, in order: each has the time of the step, what its
  // call asked for and was answered, and the user who connected the tunnel it went over.
  lemma RowsAreTheirLogs(steps: seq<Step>, i: nat)
    requires Valid(INITIAL, steps)
    ensures var s := After(INITIAL, steps);
            && |s.log| == |Logs(steps)|
            && (i < |s.log| ==>
                  && RowIs(s, s.log[i], Logs(steps)[i])
                  && var c := s.calls[Logs(steps)[i].call].client;
                     c < |Connects(steps)| && Connects(steps)[c] == Connect(s.log[i].user))
  {
    RunLogs(INITIAL, steps);
    RunAdds(INITIAL, steps);
    assert INITIAL.log == [] && INITIAL.calls == [];
    if i < |Logs(steps)| {
      CallsAreTheirBegins(steps, Logs(steps)[i].call);
    }
  }

  // Failures.

  ghost predicate FailsWith(s: State, k: nat, error: CallError) {
    k < |s.calls| && (s.calls[k].phase == Failing(error) || s.calls[k].phase == Returned(Err(error)))
  }

  // A failed write gives SendError, the timer or the context what the select saw.
  predicate Causes(step: Step, k: nat, error: CallError) {
    step == GiveUp(k, error) || (step.FailSend? && step.call == k && error == SendError)
  }

  lemma WriterFailsWith(s: State, step: Step, k: nat, error: CallError)
    requires Enabled(s, step) && (step.Begin? || step.Enter? || step.Send? || step.FailSend?)
    ensures FailsWith(Apply(s, step), k, error) <==> FailsWith(s, k, error) || Causes(step, k, error)
  {}

  lemma CallerFailsWith(s: State, step: Step, k: nat, error: CallError)
    requires Enabled(s, step)
    requires step.Receive? || step.GiveUp? || step.Cleanup? || step.Count? || step.Log?
    ensures FailsWith(Apply(s, step), k, error) <==> FailsWith(s, k, error) || Causes(step, k, error)
  {}

  lemma OtherFailsWith(s: State, step: Step, k: nat, error: CallError)
    requires Enabled(s, step)
    requires step.Connect? || step.PushInfo? || step.Read? || step.Route? || step.Deliver? || step.EndRead?
          || step.TakeRequest? || step.Handle? || step.Reply? || step.Disconnect? || step.Inject?
    ensures FailsWith(Apply(s, step), k, error) <==> FailsWith(s, k, error)
  {}

  lemma StepFailsWith(s: State, step: Step, k: nat, error: CallError)
    requires Enabled(s, step)
    ensures FailsWith(Apply(s, step), k, error) <==> FailsWith(s, k, error) || Causes(step, k, error)
  {
    if step.Begin? || step.Enter? || step.Send? || step.FailSend? {
      WriterFailsWith(s, step, k, error);
    } else if step.Receive? || step.GiveUp? || step.Cleanup? || step.Count? || step.Log? {
      CallerFailsWith(s, step, k, error);
    } else {
      OtherFailsWith(s, step, k, error);
    }
  }

  lemma {:induction false} RunFailsWith(s: State, steps: seq<Step>, k: nat, error: CallError)
    requires Valid(s, steps)
    ensures FailsWith(After(s, steps), k, error) <==>
            FailsWith(s, k, error) || exists i :: 0 <= i < |steps| && Causes(steps[i], k, error)
    decreases |steps|
  {
    if steps != [] {
      var rest := steps[1..];
      StepFailsWith(s, steps[0], k, error);
      RunFailsWith(Apply(s, steps[0]), rest, k, error);
      assert forall i | 0 <= i < |rest| :: rest[i] == steps[i + 1];
      if i :| 0 <= i < |rest| && Causes(rest[i], k, error) {
        assert Causes(steps[i + 1], k, error);
      }
      if i :| 0 <= i < |steps| && Causes(steps[i], k, error) {
        assert i > 0 ==> Causes(rest[i - 1], k, error);
      }
    }
  }

  // The error of a failed call says what ended it.
  lemma ErrorIsItsCause(steps: seq<Step>, k: nat, error: CallError)
    requires Valid(INITIAL, steps)
    ensures FailsWith(After(INITIAL, steps), k, error)
            <==> exists i :: 0 <= i < |steps| && Causes(steps[i], k, error)
  {
    RunFailsWith(INITIAL, steps, k, error);
    assert !FailsWith(INITIAL, k, error);
  }

  // Events.

  // What a step does to the pending map, as an event.
  function EventOf(s: State, step: Step): seq<Event> {
    if step.Enter? && step.call < |s.calls| then [Registered(s.calls[step.call].id)]
    else if step.Cleanup? && step.call < |s.calls| then [Withdrawn(s.calls[step.call].id)]
    else if step.Route? && step.client < |s.clients| && s.clients[step.client].reader.Routing? then
      [Inbound(s.clients[step.client].reader.id, s.clients[step.client].reader.response)]
    else []
  }

  function EventsIn(s: State, steps: seq<Step>): seq<Event>
    requires Valid(s, steps)
    decreases |steps|
  {
    if steps == [] then [] else EventOf(s, steps[0]) + EventsIn(Apply(s, steps[0]), steps[1..])
  }

  lemma StepRecordsEvent(s: State, step: Step)
    requires Enabled(s, step)
    ensures Apply(s, step).events == s.events + EventOf(s, step)
  {}

  // The events a state remembers are those of the run that led there, in order: every
  // registration, every withdrawal, and every answer read from any connection.
  lemma {:induction false} EventsAreRemembered(s: State, steps: seq<Step>)
    requires Valid(s, steps)
    ensures After(s, steps).events == s.events + EventsIn(s, steps)
    decreases |steps|
  {
    if steps != [] {
      StepRecordsEvent(s, steps[0]);
      EventsAreRemembered(Apply(s, steps[0]), steps[1..]);
    }
  }

  // Connections open when they connect, and stay so until they are cut, for good.

  ghost predicate Cuts(s: State, step: Step, s': State, c: nat) {
    IsOpen(s', c) <==>
    (IsOpen(s, c) || (step.Connect? && c == |s.clients|)) && !(step.Disconnect? && step.client == c)
  }

  lemma CallerCuts(s: State, step: Step, c: nat)
    requires Enabled(s, step)
    requires step.Begin? || step.Enter? || step.Send? || step.FailSend? || step.Receive? || step.GiveUp?
          || step.Cleanup? || step.Count? || step.Log?
    ensures Cuts(s, step, Apply(s, step), c)
  {}

  lemma OtherCuts(s: State, step: Step, c: nat)
    requires Enabled(s, step)
    requires step.Connect? || step.PushInfo? || step.Read? || step.Route? || step.Deliver? || step.EndRead?
          || step.TakeRequest? || step.Handle? || step.Reply? || step.Disconnect? || step.Inject?
    ensures Cuts(s, step, Apply(s, step), c)
  {}

  lemma StepCuts(s: State, step: Step, c: nat)
    requires Enabled(s, step)
    ensures Cuts(s, step, Apply(s, step), c)
  {
    if step.Begin? || step.Enter? || step.Send? || step.FailSend? || step.Receive? || step.GiveUp?
       || step.Cleanup? || step.Count? || step.Log? {
      CallerCuts(s, step, c);
    } else {
      OtherCuts(s, step, c);
    }
  }

  lemma {:induction false} RunCuts(s: State, steps: seq<Step>, c: nat)
    requires Valid(s, steps) && c < |s.clients|
    ensures c < |After(s, steps).clients|
    ensures IsOpen(After(s, steps), c) <==>
            IsOpen(s, c) && forall i | 0 <= i < |steps| :: !(steps[i].Disconnect? && steps[i].client == c)
    decreases |steps|
  {
    if steps != [] {
      var rest := steps[1..];
      StepCuts(s, steps[0], c);
      StepAdds(s, steps[0]);
      RunCuts(Apply(s, steps[0]), rest, c);
      assert forall i | 0 <= i < |rest| :: rest[i] == steps[i + 1];
      assert forall i | 0 < i < |steps| :: steps[i] == rest[i - 1];
    }
  }

  // Once cut, a connection is never written to again.
  lemma CutForGood(s: State, steps: seq<Step>, c: nat)
    requires Valid(s, steps) && c < |s.clients| && !IsOpen(s, c)
    ensures !IsOpen(After(s, steps), c)
    ensures forall k: nat | InPhase(After(s, steps), k, Sending) && After(s, steps).calls[k].client == c ::
              !Enabled(After(s, steps), Send(k)) && !Enabled(After(s, steps), FailSend(k, true))
  {
    RunCuts(s, steps, c);
  }
}
