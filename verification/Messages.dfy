/**
 What becomes of every message: each comes once, unchanged and in order, or is lost in the
 tail of a connection that is cut.
 */
module Messages {
  import opened Protocol
  import opened Conversations
  import opened ConversationInvariants
  import opened ConversationTheorems
  import opened History

  // The messages that a step writes to connection c: the connection's own information, or a
  // request under its call's id.
  function Written(s: State, step: Step, c: nat): seq<Down> {
    if step == PushInfo(c) then [Info]
    else if
      && (step.Send? || (step.FailSend? && step.arrived))
      && step.call < |s.calls| && s.calls[step.call].client == c
    then [Ask(s.calls[step.call].id, s.calls[step.call].request)]
    else []
  }

  function DownOf(s: State, c: nat): seq<Down> { if c < |s.clients| then s.clients[c].down else [] }

  // Those that the client takes off it, and those that are lost when it is cut.
  function Taken(s: State, step: Step, c: nat): seq<Down> {
    if step == TakeRequest(c) && DownOf(s, c) != [] then [DownOf(s, c)[0]] else []
  }

  function LostDown(s: State, step: Step, c: nat): seq<Down> {
    if step.Disconnect? && step.client == c && step.keepDown <= |DownOf(s, c)| then DownOf(s, c)[step.keepDown..]
    else []
  }

  // The messages that arrive from connection c: a reply under its request's id, or another.
  function Arrived(s: State, step: Step, c: nat): seq<Up> {
    if step.Inject? && step.client == c then [step.message]
    else if
      && step.Reply? && step.arrived && step.exec < |s.execs|
      && s.execs[step.exec].client == c && s.execs[step.exec].run.Answered?
    then [Answer(s.execs[step.exec].id, s.execs[step.exec].run.response)]
    else []
  }

  function UpOf(s: State, c: nat): seq<Up> { if c < |s.clients| then s.clients[c].up else [] }

  function Heard(s: State, step: Step, c: nat): seq<Up> {
    if step == Read(c) && UpOf(s, c) != [] then [UpOf(s, c)[0]] else []
  }

  function LostUp(s: State, step: Step, c: nat): seq<Up> {
    if step.Disconnect? && step.client == c && step.keepUp <= |UpOf(s, c)| then UpOf(s, c)[step.keepUp..]
    else []
  }

  // A queue before and after: what comes joins the end, what goes leaves the front, what is
  // lost leaves the end.
  ghost predicate Joins<T>(queue: seq<T>, comes: seq<T>, goes: seq<T>, queue': seq<T>, lost: seq<T>) {
    queue + comes == goes + queue' + lost
  }

  lemma StillJoins<T>(queue: seq<T>)
    ensures Joins(queue, [], [], queue, [])
  {
    assert queue + [] == queue && [] + queue + [] == queue;
  }

  lemma ComingJoins<T>(queue: seq<T>, message: T)
    ensures Joins(queue, [message], [], queue + [message], [])
  {
    assert [] + (queue + [message]) + [] == queue + [message];
  }

  lemma GoingJoins<T>(queue: seq<T>)
    requires queue != []
    ensures Joins(queue, [], [queue[0]], queue[1..], [])
  {
    assert queue + [] == queue && [queue[0]] + queue[1..] + [] == queue;
  }

  lemma CutJoins<T>(queue: seq<T>, keep: nat)
    requires keep <= |queue|
    ensures Joins(queue, [], [], queue[..keep], queue[keep..])
  {
    assert queue + [] == queue && [] + queue[..keep] + queue[keep..] == queue;
  }

  // One step's effect on the two queues of connection c.

  ghost predicate FlowsDown(s: State, step: Step, s': State, c: nat) {
    Joins(DownOf(s, c), Written(s, step, c), Taken(s, step, c), DownOf(s', c), LostDown(s, step, c))
  }

  ghost predicate FlowsUp(s: State, step: Step, s': State, c: nat) {
    Joins(UpOf(s, c), Arrived(s, step, c), Heard(s, step, c), UpOf(s', c), LostUp(s, step, c))
  }

  ghost predicate StillDown(s: State, step: Step, s': State, c: nat) {
    && DownOf(s', c) == DownOf(s, c)
    && Written(s, step, c) == [] && Taken(s, step, c) == [] && LostDown(s, step, c) == []
  }

  ghost predicate StillUp(s: State, step: Step, s': State, c: nat) {
    && UpOf(s', c) == UpOf(s, c)
    && Arrived(s, step, c) == [] && Heard(s, step, c) == [] && LostUp(s, step, c) == []
  }

  lemma CallerIsStill(s: State, step: Step, c: nat)
    requires Enabled(s, step)
    requires step.Begin? || step.Enter? || step.Receive? || step.GiveUp? || step.Cleanup? || step.Count? || step.Log?
    ensures StillDown(s, step, Apply(s, step), c) && StillUp(s, step, Apply(s, step), c)
  {}

  lemma PumpIsStill(s: State, step: Step, c: nat)
    requires Enabled(s, step) && (step.Route? || step.Deliver?)
    ensures StillDown(s, step, Apply(s, step), c) && StillUp(s, step, Apply(s, step), c)
  {}

  lemma RestIsStill(s: State, step: Step, c: nat)
    requires Enabled(s, step) && (step.Connect? || step.EndRead? || step.Handle?)
    ensures StillDown(s, step, Apply(s, step), c) && StillUp(s, step, Apply(s, step), c)
  {}

  lemma WriterIsStill(s: State, step: Step, c: nat)
    requires Enabled(s, step) && (step.Send? || step.FailSend? || step.PushInfo? || step.TakeRequest?)
    ensures StillUp(s, step, Apply(s, step), c)
  {}

  lemma ReaderIsStill(s: State, step: Step, c: nat)
    requires Enabled(s, step) && (step.Read? || step.Reply? || step.Inject?)
    ensures StillDown(s, step, Apply(s, step), c)
  {}

  lemma WriterFlows(s: State, step: Step, c: nat)
    requires Enabled(s, step) && (step.Send? || step.FailSend? || step.PushInfo?)
    ensures FlowsDown(s, step, Apply(s, step), c)
  {
    var queue, written := DownOf(s, c), Written(s, step, c);
    assert DownOf(Apply(s, step), c) == if written == [] then queue else queue + [written[0]];
    StillJoins(queue);
    if written != [] { ComingJoins(queue, written[0]); }
  }

  lemma TakerFlows(s: State, step: Step, c: nat)
    requires Enabled(s, step) && step.TakeRequest?
    ensures FlowsDown(s, step, Apply(s, step), c)
  {
    var queue := DownOf(s, c);
    assert DownOf(Apply(s, step), c) == if step.client == c then queue[1..] else queue;
    if step.client == c {
      GoingJoins(queue);
    } else {
      StillJoins(queue);
    }
  }

  lemma ReaderFlows(s: State, step: Step, c: nat)
    requires Enabled(s, step) && step.Read?
    ensures FlowsUp(s, step, Apply(s, step), c)
  {
    var queue := UpOf(s, c);
    assert UpOf(Apply(s, step), c) == if step.client == c then queue[1..] else queue;
    if step.client == c {
      GoingJoins(queue);
    } else {
      StillJoins(queue);
    }
  }

  lemma ReplierFlows(s: State, step: Step, c: nat)
    requires HostOk(s) && Enabled(s, step) && (step.Reply? || step.Inject?)
    ensures FlowsUp(s, step, Apply(s, step), c)
  {
    var queue, arrived := UpOf(s, c), Arrived(s, step, c);
    assert UpOf(Apply(s, step), c) == if arrived == [] then queue else queue + [arrived[0]];
    StillJoins(queue);
    if arrived != [] { ComingJoins(queue, arrived[0]); }
  }

  lemma CutFlows(s: State, step: Step, c: nat)
    requires Enabled(s, step) && step.Disconnect?
    ensures FlowsDown(s, step, Apply(s, step), c) && FlowsUp(s, step, Apply(s, step), c)
  {
    if step.client == c {
      CutJoins(DownOf(s, c), step.keepDown);
      CutJoins(UpOf(s, c), step.keepUp);
    } else {
      StillJoins(DownOf(s, c));
      StillJoins(UpOf(s, c));
    }
  }

  lemma StepFlowsDown(s: State, step: Step, c: nat)
    requires Enabled(s, step)
    ensures FlowsDown(s, step, Apply(s, step), c)
  {
    StillJoins(DownOf(s, c));
    if step.Send? || step.FailSend? || step.PushInfo? {
      WriterFlows(s, step, c);
    } else if step.TakeRequest? {
      TakerFlows(s, step, c);
    } else if step.Disconnect? {
      CutFlows(s, step, c);
    } else if step.Read? || step.Reply? || step.Inject? {
      ReaderIsStill(s, step, c);
    } else if step.Route? || step.Deliver? {
      PumpIsStill(s, step, c);
    } else if step.Connect? || step.EndRead? || step.Handle? {
      RestIsStill(s, step, c);
    } else {
      CallerIsStill(s, step, c);
    }
  }

  lemma StepFlowsUp(s: State, step: Step, c: nat)
    requires HostOk(s) && Enabled(s, step)
    ensures FlowsUp(s, step, Apply(s, step), c)
  {
    StillJoins(UpOf(s, c));
    if step.Read? {
      ReaderFlows(s, step, c);
    } else if step.Reply? || step.Inject? {
      ReplierFlows(s, step, c);
    } else if step.Disconnect? {
      CutFlows(s, step, c);
    } else if step.Send? || step.FailSend? || step.PushInfo? || step.TakeRequest? {
      WriterIsStill(s, step, c);
    } else if step.Route? || step.Deliver? {
      PumpIsStill(s, step, c);
    } else if step.Connect? || step.EndRead? || step.Handle? {
      RestIsStill(s, step, c);
    } else {
      CallerIsStill(s, step, c);
    }
  }

  // What the steps of a run give, in order, each in the state it is taken in.
  function Gathered<T>(s: State, steps: seq<Step>, given: (State, Step) -> seq<T>): seq<T>
    requires Valid(s, steps)
    decreases |steps|
  {
    if steps == [] then [] else given(s, steps[0]) + Gathered(Apply(s, steps[0]), steps[1..], given)
  }

  // The four ways in and out of a connection's queues, over a run.

  function AllWritten(s: State, steps: seq<Step>, c: nat): seq<Down>
    requires Valid(s, steps)
  {
    Gathered(s, steps, (t: State, step: Step) => Written(t, step, c))
  }

  function AllTaken(s: State, steps: seq<Step>, c: nat): seq<Down>
    requires Valid(s, steps)
  {
    Gathered(s, steps, (t: State, step: Step) => Taken(t, step, c))
  }

  function AllLostDown(s: State, steps: seq<Step>, c: nat): seq<Down>
    requires Valid(s, steps)
  {
    Gathered(s, steps, (t: State, step: Step) => LostDown(t, step, c))
  }

  function AllArrived(s: State, steps: seq<Step>, c: nat): seq<Up>
    requires Valid(s, steps)
  {
    Gathered(s, steps, (t: State, step: Step) => Arrived(t, step, c))
  }

  function AllHeard(s: State, steps: seq<Step>, c: nat): seq<Up>
    requires Valid(s, steps)
  {
    Gathered(s, steps, (t: State, step: Step) => Heard(t, step, c))
  }

  function AllLostUp(s: State, steps: seq<Step>, c: nat): seq<Up>
    requires Valid(s, steps)
  {
    Gathered(s, steps, (t: State, step: Step) => LostUp(t, step, c))
  }

  // A closed connection gains and loses nothing more.
  lemma ClosedIsStill(s: State, step: Step, c: nat)
    requires Enabled(s, step) && c < |s.clients| && !IsOpen(s, c)
    ensures Written(s, step, c) == [] && LostDown(s, step, c) == []
    ensures Arrived(s, step, c) == [] && LostUp(s, step, c) == []
  {}

  lemma {:induction false} ClosedStaysStill(s: State, steps: seq<Step>, c: nat)
    requires Valid(s, steps) && c < |s.clients| && !IsOpen(s, c)
    ensures AllWritten(s, steps, c) == [] && AllLostDown(s, steps, c) == []
    ensures AllArrived(s, steps, c) == [] && AllLostUp(s, steps, c) == []
    decreases |steps|
  {
    if steps != [] {
      ClosedIsStill(s, steps[0], c);
      StepCuts(s, steps[0], c);
      StepAdds(s, steps[0]);
      ClosedStaysStill(Apply(s, steps[0]), steps[1..], c);
    }
  }

  // Two stretches of a run come together: nothing joins a queue after it was cut.
  lemma JoinsTwice<T>(queue: seq<T>, comes: seq<T>, goes: seq<T>, queue': seq<T>, lost: seq<T>,
                      later: seq<T>, went: seq<T>, rest: seq<T>, gone: seq<T>)
    requires Joins(queue, comes, goes, queue', lost) && Joins(queue', later, went, rest, gone)
    requires lost != [] ==> later == [] && gone == []
    ensures Joins(queue, comes + later, goes + went, rest, lost + gone)
  {
    if lost == [] {
      calc {
        queue + (comes + later);
      ==
        (queue + comes) + later;
      ==
        goes + (queue' + later);
      ==
        goes + (went + rest + gone);
      ==
        (goes + went) + rest + ([] + gone);
      }
    } else {
      assert comes + later == comes && lost + gone == lost;
      assert queue' + later == queue' && went + rest + gone == went + rest;
      assert goes + (went + rest) + lost == (goes + went) + rest + lost;
    }
  }

  lemma {:induction false} DownRuns(s: State, steps: seq<Step>, c: nat)
    requires Valid(s, steps)
    ensures Joins(DownOf(s, c), AllWritten(s, steps, c), AllTaken(s, steps, c), DownOf(After(s, steps), c),
                  AllLostDown(s, steps, c))
    decreases |steps|
  {
    if steps == [] {
      StillJoins(DownOf(s, c));
    } else {
      var step, s', rest := steps[0], Apply(s, steps[0]), steps[1..];
      StepFlowsDown(s, step, c);
      DownRuns(s', rest, c);
      if LostDown(s, step, c) != [] {
        StepCuts(s, step, c);
        ClosedStaysStill(s', rest, c);
      }
      JoinsTwice(DownOf(s, c), Written(s, step, c), Taken(s, step, c), DownOf(s', c), LostDown(s, step, c),
                 AllWritten(s', rest, c), AllTaken(s', rest, c), DownOf(After(s', rest), c), AllLostDown(s', rest, c));
    }
  }

  lemma {:induction false} UpRuns(s: State, steps: seq<Step>, c: nat)
    requires Good(s) && Valid(s, steps)
    ensures Joins(UpOf(s, c), AllArrived(s, steps, c), AllHeard(s, steps, c), UpOf(After(s, steps), c),
                  AllLostUp(s, steps, c))
    decreases |steps|
  {
    if steps == [] {
      StillJoins(UpOf(s, c));
    } else {
      var step, s', rest := steps[0], Apply(s, steps[0]), steps[1..];
      StepFlowsUp(s, step, c);
      StepKeepsGood(s, step);
      UpRuns(s', rest, c);
      if LostUp(s, step, c) != [] {
        StepCuts(s, step, c);
        ClosedStaysStill(s', rest, c);
      }
      JoinsTwice(UpOf(s, c), Arrived(s, step, c), Heard(s, step, c), UpOf(s', c), LostUp(s, step, c),
                 AllArrived(s', rest, c), AllHeard(s', rest, c), UpOf(After(s', rest), c), AllLostUp(s', rest, c));
    }
  }

  // Messages come once, unchanged and in order: on every connection, in both directions, what
  // was ever written is what was taken off, then what is still on its way, then what was lost
  // when the connection was cut.
  lemma MessagesAreConserved(steps: seq<Step>, c: nat)
    requires Valid(INITIAL, steps)
    ensures AllWritten(INITIAL, steps, c)
         == AllTaken(INITIAL, steps, c) + DownOf(After(INITIAL, steps), c) + AllLostDown(INITIAL, steps, c)
    ensures AllArrived(INITIAL, steps, c)
         == AllHeard(INITIAL, steps, c) + UpOf(After(INITIAL, steps), c) + AllLostUp(INITIAL, steps, c)
  {
    DownRuns(INITIAL, steps, c);
    UpRuns(INITIAL, steps, c);
    assert DownOf(INITIAL, c) == [] && UpOf(INITIAL, c) == [];
    assert [] + AllWritten(INITIAL, steps, c) == AllWritten(INITIAL, steps, c);
    assert [] + AllArrived(INITIAL, steps, c) == AllArrived(INITIAL, steps, c);
  }
}
