/**
 What can still happen: no caller is ever stuck, an answer that was heard can be returned,
 and a call on an open connection can come back with whatever `handle` makes of it.
 */
module Progress {
  import opened Protocol
  import opened Conversations
  import opened ConversationInvariants
  import opened Broadcast
  import opened Requests
  import opened Authenticity
  import opened ConversationTheorems

  // The steps of a schedule, all of one kind, and where it leads.
  ghost predicate Leads(s: State, steps: seq<Step>, kind: Step -> bool, s': State) {
    Valid(s, steps) && After(s, steps) == s' && forall i | 0 <= i < |steps| :: kind(steps[i])
  }

  lemma StepLeads(s: State, step: Step, kind: Step -> bool)
    requires Enabled(s, step) && kind(step)
    ensures Leads(s, [step], kind, Apply(s, step))
  {
    OneStep(s, step);
  }

  lemma LeadsJoin(s: State, first: seq<Step>, t: State, second: seq<Step>, kind: Step -> bool, u: State)
    requires Leads(s, first, kind, t) && Leads(t, second, kind, u)
    ensures Leads(s, first + second, kind, u)
  {
    RunsJoin(s, first, second);
  }

  // Steps of call k's own caller.
  function OwnStep(k: nat): Step -> bool {
    (step: Step) =>
      && (step.Enter? || step.FailSend? || step.GiveUp? || step.Cleanup? || step.Count? || step.Log?)
      && step.call == k
  }

  // The step by which call k can always go on, without help from any other goroutine.
  function NextOf(s: State, k: nat): Step
    requires k < |s.calls| && !s.calls[k].phase.Returned?
  {
    match s.calls[k].phase
    case New => Enter(k)
    case Sending => FailSend(k, false)
    case Waiting => GiveUp(k, TimedOut)
    case Failing(_) => Cleanup(k)
    case Got(_) => Count(k)
    case Counted(_) => Step.Log(k, 0)
  }

  function Remaining(phase: Phase): nat {
    match phase
    case New => 3
    case Sending => 2
    case Waiting => 2
    case Failing(_) => 1
    case Got(_) => 2
    case Counted(_) => 1
    case Returned(_) => 0
  }

  lemma NextOfAdvances(s: State, k: nat)
    requires Good(s) && k < |s.calls| && !s.calls[k].phase.Returned?
    ensures Enabled(s, NextOf(s, k)) && OwnStep(k)(NextOf(s, k))
    ensures var s' := Apply(s, NextOf(s, k));
            k < |s'.calls| && Remaining(s'.calls[k].phase) < Remaining(s.calls[k].phase)
  {
    assert CallSound(s, k);
  }

  lemma {:induction false} CallerReturns(s: State, k: nat) returns (steps: seq<Step>, s': State)
    requires Good(s) && k < |s.calls|
    ensures Leads(s, steps, OwnStep(k), s') && k < |s'.calls| && s'.calls[k].phase.Returned?
    decreases Remaining(s.calls[k].phase)
  {
    steps, s' := [], s;
    if !s.calls[k].phase.Returned? {
      var step := NextOf(s, k);
      NextOfAdvances(s, k);
      StepKeepsGood(s, step);
      StepLeads(s, step, OwnStep(k));
      var rest;
      rest, s' := CallerReturns(Apply(s, step), k);
      LeadsJoin(s, [step], Apply(s, step), rest, OwnStep(k), s');
      steps := [step] + rest;
    }
  }

  // No caller is ever stuck: from every reachable state its own steps alone, at worst a
  // failing write or the timeout, bring its call to an end.
  lemma CallerCanAlwaysGoOn(s: State, k: nat)
    requires Reachable(s) && k < |s.calls|
    ensures exists steps, s' :: Leads(s, steps, OwnStep(k), s') && k < |s'.calls| && s'.calls[k].phase.Returned?
  {
    ReachableIsGood(s);
    var steps, s' := CallerReturns(s, k);
  }

  // A call can fail in each of the ways there are: its write may fail, and once it waits, its
  // timer may fire or its context be cancelled.
  lemma CallCanFailWith(s: State, k: nat, error: CallError)
    requires Reachable(s) && InPhase(s, k, if error == SendError then Sending else Waiting)
    ensures exists steps, s' :: Leads(s, steps, OwnStep(k), s') && InPhase(s', k, Returned(Err(error)))
  {
    ReachableIsGood(s);
    assert CallSound(s, k);
    var first := if error == SendError then FailSend(k, false) else GiveUp(k, error);
    var failing := Apply(s, first);
    StepLeads(s, first, OwnStep(k));
    StepLeads(failing, Cleanup(k), OwnStep(k));
    LeadsJoin(s, [first], failing, [Cleanup(k)], OwnStep(k), Apply(failing, Cleanup(k)));
  }

  // Steps of connection c's own read pump.
  function PumpStepOf(c: nat): Step -> bool {
    (step: Step) => (step.Route? || step.Deliver? || step.EndRead?) && step.client == c
  }

  function PumpDistance(reader: Reader): nat {
    match reader
    case Routing(_, _) => 3
    case Delivering(_, _) => 2
    case Idle => 1
    case Ended => 0
  }

  lemma {:induction false} PumpEnds(s: State, c: nat) returns (steps: seq<Step>, s': State)
    requires Good(s) && c < |s.clients| && !s.clients[c].open
    ensures Leads(s, steps, PumpStepOf(c), s') && c < |s'.clients| && s'.clients[c].reader == Ended
    decreases PumpDistance(s.clients[c].reader)
  {
    steps, s' := [], s;
    if s.clients[c].reader != Ended {
      assert ReaderSound(s, c);
      var step := match s.clients[c].reader
        case Routing(_, _) => Route(c)
        case Delivering(_, _) => Deliver(c)
        case _ => EndRead(c);
      PumpStepIsOnward(s, c, step);
      StepLeads(s, step, PumpStepOf(c));
      StepKeepsGood(s, step);
      var rest;
      rest, s' := PumpEnds(Apply(s, step), c);
      LeadsJoin(s, [step], Apply(s, step), rest, PumpStepOf(c), s');
      steps := [step] + rest;
    }
  }

  lemma PumpStepIsOnward(s: State, c: nat, step: Step)
    requires Good(s) && c < |s.clients| && !s.clients[c].open
    requires match s.clients[c].reader
             case Routing(_, _) => step == Route(c)
             case Delivering(_, _) => step == Deliver(c)
             case Idle => step == EndRead(c)
             case Ended => false
    ensures Enabled(s, step)
    ensures var s' := Apply(s, step);
            && c < |s'.clients| && !s'.clients[c].open
            && match s.clients[c].reader
               case Routing(_, _) => s'.clients[c].reader.Delivering? || s'.clients[c].reader == Idle
               case Delivering(_, _) => s'.clients[c].reader == Idle
               case _ => s'.clients[c].reader == Ended
  {
    assert ReaderSound(s, c);
    if s.clients[c].reader.Delivering? { assert CallSound(s, s.clients[c].reader.call); }
  }

  // Once its connection is cut, a read pump can come to its end by itself.
  lemma CutPumpCanEnd(s: State, c: nat)
    requires Reachable(s) && c < |s.clients| && !s.clients[c].open
    ensures exists steps, s' ::
              Leads(s, steps, PumpStepOf(c), s') && c < |s'.clients| && s'.clients[c].reader == Ended
  {
    ReachableIsGood(s);
    var steps, s' := PumpEnds(s, c);
  }

  // Steps by which an answer already routed reaches its caller and is recorded.
  function Finishing(): Step -> bool {
    (step: Step) => step.Deliver? || step.Receive? || step.Count? || step.Log?
  }

  // Steps in which nothing fails, nothing is given up and nobody is impersonated.
  function Smooth(): Step -> bool {
    (step: Step) =>
      || step.Enter? || step.Send? || step.TakeRequest? || step.Handle? || (step.Reply? && step.arrived)
      || step.Read? || step.Route? || step.Deliver? || step.Receive? || step.Count? || step.Log?
  }

  lemma BufferedIsReturned(s: State, k: nat, response: HttpResponseData) returns (steps: seq<Step>, s': State)
    requires Good(s) && InPhase(s, k, Waiting) && s.calls[k].token == Spent(response)
    ensures Leads(s, steps, Finishing(), s') && k < |s'.calls| && s'.calls[k].phase == Returned(Ok(response))
  {
    assert CallSound(s, k);
    var s1 := Apply(s, Receive(k));
    var s2 := Apply(s1, Count(k));
    s' := Apply(s2, Step.Log(k, 0));
    StepLeads(s, Receive(k), Finishing());
    StepLeads(s1, Count(k), Finishing());
    StepLeads(s2, Step.Log(k, 0), Finishing());
    LeadsJoin(s, [Receive(k)], s1, [Count(k)], Finishing(), s2);
    steps := [Receive(k)] + [Count(k)] + [Step.Log(k, 0)];
    LeadsJoin(s, [Receive(k)] + [Count(k)], s2, [Step.Log(k, 0)], Finishing(), s');
  }

  lemma HeardReturns(s: State, k: nat, response: HttpResponseData) returns (steps: seq<Step>, s': State)
    requires Good(s) && InPhase(s, k, Waiting) && Shown(s.calls[k].id, s.events) == Heard(response)
    ensures Leads(s, steps, Finishing(), s') && k < |s'.calls| && s'.calls[k].phase == Returned(Ok(response))
  {
    assert CallSound(s, k) && CallShown(s, k);
    var token := s.calls[k].token;
    if token.Held? {
      var step := Deliver(token.reader);
      StepKeepsGood(s, step);
      StepLeads(s, step, Finishing());
      var rest;
      rest, s' := BufferedIsReturned(Apply(s, step), k, response);
      LeadsJoin(s, [step], Apply(s, step), rest, Finishing(), s');
      steps := [step] + rest;
    } else {
      steps, s' := BufferedIsReturned(s, k, response);
    }
  }

  // An answer heard while the caller waits can be returned: the read pump that took it, if
  // it has not sent it yet, and the caller are all it takes.
  lemma HeardCanBeReturned(s: State, k: nat, response: HttpResponseData)
    requires Reachable(s) && InPhase(s, k, Waiting) && Shown(s.calls[k].id, s.events) == Heard(response)
    ensures exists steps, s' :: Leads(s, steps, Finishing(), s')
                             && k < |s'.calls| && s'.calls[k].phase == Returned(Ok(response))
  {
    ReachableIsGood(s);
    var steps, s' := HeardReturns(s, k, response);
  }

  // A connection that is open has a read pump at work.
  ghost predicate OpenIsRead(s: State) {
    forall c: nat | c < |s.clients| && s.clients[c].open :: s.clients[c].reader != Ended
  }

  lemma StepKeepsOpenRead(s: State, step: Step)
    requires OpenIsRead(s) && Enabled(s, step)
    ensures OpenIsRead(Apply(s, step))
  {}

  lemma {:induction false} RunKeepsOpenRead(s: State, steps: seq<Step>)
    requires OpenIsRead(s) && Valid(s, steps)
    ensures OpenIsRead(After(s, steps))
    decreases |steps|
  {
    if steps != [] {
      StepKeepsOpenRead(s, steps[0]);
      RunKeepsOpenRead(Apply(s, steps[0]), steps[1..]);
    }
  }

  // No answer under that id is on connection c or with its read pump.
  ghost predicate Unanswered(s: State, c: nat, id: Uuid)
    requires c < |s.clients|
  {
    && (forall i | 0 <= i < |s.clients[c].up| :: s.clients[c].up[i].Answer? ==> s.clients[c].up[i].id != id)
    && (s.clients[c].reader.Routing? ==> s.clients[c].reader.id != id)
  }

  // Call k is about to be written to connection c, where nothing answers it yet.
  ghost predicate AboutToSend(s: State, k: nat, c: nat) {
    && Good(s) && InPhase(s, k, Sending) && s.calls[k].client == c && s.calls[k].token == InPending
    && IsOpen(s, c) && s.clients[c].reader != Ended && Unanswered(s, c, s.calls[k].id)
  }

  // The next move of c's read pump, while there is one.
  function PumpStep(s: State, c: nat): Step
    requires c < |s.clients|
  {
    match s.clients[c].reader
    case Routing(_, _) => Route(c)
    case Delivering(_, _) => Deliver(c)
    case _ => Read(c)
  }

  function Backlog(client: Client): nat {
    3 * |client.up| + if client.reader.Routing? then 2 else if client.reader.Delivering? then 1 else 0
  }

  // The pump's move leaves a call alone that it has no answer for.
  lemma PumpPasses(s: State, k: nat, c: nat)
    requires AboutToSend(s, k, c) && Backlog(s.clients[c]) > 0
    ensures Enabled(s, PumpStep(s, c))
    ensures var s' := Apply(s, PumpStep(s, c)); AboutToSend(s', k, c) && Backlog(s'.clients[c]) < Backlog(s.clients[c])
  {
    assert ReaderSound(s, c) && CallSound(s, k);
    if s.clients[c].reader.Delivering? {
      assert CallSound(s, s.clients[c].reader.call);
    }
    if s.clients[c].reader.Routing? {
      assert IdSound(s, s.clients[c].reader.id);
    }
    StepKeepsGood(s, PumpStep(s, c));
  }

  lemma {:induction false} DrainUp(s: State, k: nat, c: nat) returns (steps: seq<Step>, s': State)
    requires AboutToSend(s, k, c)
    ensures Leads(s, steps, Smooth(), s') && AboutToSend(s', k, c) && Backlog(s'.clients[c]) == 0
    decreases Backlog(s.clients[c])
  {
    steps, s' := [], s;
    if Backlog(s.clients[c]) > 0 {
      var step := PumpStep(s, c);
      PumpPasses(s, k, c);
      StepLeads(s, step, Smooth());
      var rest;
      rest, s' := DrainUp(Apply(s, step), k, c);
      LeadsJoin(s, [step], Apply(s, step), rest, Smooth(), s');
      steps := [step] + rest;
    }
  }

  // The client takes a request; it is not the one that has not been written.
  lemma TakePasses(s: State, k: nat, c: nat)
    requires AboutToSend(s, k, c) && s.clients[c].down != []
    ensures var s' := Apply(s, TakeRequest(c));
            && AboutToSend(s', k, c) && s'.clients[c] == s.clients[c].(down := s.clients[c].down[1..])
  {
    assert QueueSound(s, c) && CallSound(s, k) && FateSound(s, k);
    var first := s.clients[c].down[0];
    if first.Ask? { assert AskSound(s, c, first.id, first.request) && IdSound(s, first.id); }
    StepKeepsGood(s, TakeRequest(c));
  }

  lemma {:induction false} DrainDown(s: State, k: nat, c: nat) returns (steps: seq<Step>, s': State)
    requires AboutToSend(s, k, c) && Backlog(s.clients[c]) == 0
    ensures Leads(s, steps, Smooth(), s') && AboutToSend(s', k, c)
    ensures Backlog(s'.clients[c]) == 0 && s'.clients[c].down == []
    decreases |s.clients[c].down|
  {
    steps, s' := [], s;
    if s.clients[c].down != [] {
      TakePasses(s, k, c);
      StepLeads(s, TakeRequest(c), Smooth());
      var rest;
      rest, s' := DrainDown(Apply(s, TakeRequest(c)), k, c);
      LeadsJoin(s, [TakeRequest(c)], Apply(s, TakeRequest(c)), rest, Smooth(), s');
      steps := [TakeRequest(c)] + rest;
    }
  }

  // Two smooth steps in a row.
  lemma Two(s: State, a: Step, b: Step)
    requires Good(s) && Enabled(s, a) && Smooth()(a) && Enabled(Apply(s, a), b) && Smooth()(b)
    ensures Leads(s, [a] + [b], Smooth(), Apply(Apply(s, a), b)) && Good(Apply(Apply(s, a), b))
  {
    StepKeepsGood(s, a);
    StepKeepsGood(Apply(s, a), b);
    StepLeads(s, a, Smooth());
    StepLeads(Apply(s, a), b, Smooth());
    LeadsJoin(s, [a], Apply(s, a), [b], Smooth(), Apply(Apply(s, a), b));
  }

  // The request of call k is all there is on connection c.
  ghost predicate Written(s: State, k: nat, c: nat) {
    && Good(s) && InPhase(s, k, Waiting) && s.calls[k].token == InPending && s.calls[k].client == c
    && IsOpen(s, c) && s.clients[c].reader == Idle && s.clients[c].up == []
    && s.clients[c].down == [Ask(s.calls[k].id, s.calls[k].request)]
  }

  // Run e of `handle` works on it, and the connection is quiet.
  ghost predicate BeingHandled(s: State, k: nat, c: nat, e: nat) {
    && Good(s) && InPhase(s, k, Waiting) && s.calls[k].token == InPending && s.calls[k].client == c
    && IsOpen(s, c) && s.clients[c].reader == Idle && s.clients[c].up == []
    && e < |s.execs| && s.execs[e] == Exec(c, s.calls[k].id, s.calls[k].request, Running)
  }

  lemma SendWrites(s: State, k: nat, c: nat)
    requires AboutToSend(s, k, c) && Backlog(s.clients[c]) == 0 && s.clients[c].down == []
    ensures Written(Apply(s, Send(k)), k, c)
  {
    assert CallSound(s, k);
    StepKeepsGood(s, Send(k));
  }

  lemma TakeStartsRun(s: State, k: nat, c: nat)
    requires Written(s, k, c)
    ensures BeingHandled(Apply(s, TakeRequest(c)), k, c, |s.execs|)
  {
    assert CallSound(s, k);
    StepKeepsGood(s, TakeRequest(c));
  }

  // Everything else out of the way, the request is written, taken, handled and answered.
  lemma AskAndAnswer(s: State, k: nat, c: nat, response: HttpResponseData) returns (steps: seq<Step>, s': State)
    requires AboutToSend(s, k, c) && Backlog(s.clients[c]) == 0 && s.clients[c].down == []
    ensures Leads(s, steps, Smooth(), s') && AnswerIsIn(s', k, c, response)
  {
    SendWrites(s, k, c);
    var written := Apply(s, Send(k));
    TakeStartsRun(written, k, c);
    Two(s, Send(k), TakeRequest(c));
    var taken, e := Apply(written, TakeRequest(c)), |written.execs|;
    HandleAndReply(taken, k, c, e, response);
    s' := Apply(Apply(taken, Handle(e, response)), Reply(e, true));
    steps := [Send(k)] + [TakeRequest(c)] + ([Handle(e, response)] + [Reply(e, true)]);
    LeadsJoin(s, [Send(k)] + [TakeRequest(c)], taken, [Handle(e, response)] + [Reply(e, true)], Smooth(), s');
  }

  // The answer to call k is all there is for c's read pump.
  ghost predicate AnswerIsIn(s: State, k: nat, c: nat, response: HttpResponseData) {
    && Good(s) && InPhase(s, k, Waiting) && s.calls[k].token == InPending
    && c < |s.clients| && s.clients[c].reader == Idle && s.clients[c].up == [Answer(s.calls[k].id, response)]
  }

  lemma HandleAndReply(s: State, k: nat, c: nat, e: nat, response: HttpResponseData)
    requires BeingHandled(s, k, c, e)
    ensures var a, b := Handle(e, response), Reply(e, true);
            && Enabled(s, a) && Enabled(Apply(s, a), b)
            && Leads(s, [a] + [b], Smooth(), Apply(Apply(s, a), b))
            && AnswerIsIn(Apply(Apply(s, a), b), k, c, response)
  {
    Two(s, Handle(e, response), Reply(e, true));
  }

  // The answer is read and routed to the caller.
  lemma ReadAndRoute(s: State, k: nat, c: nat, response: HttpResponseData) returns (steps: seq<Step>, s': State)
    requires AnswerIsIn(s, k, c, response)
    ensures Leads(s, steps, Smooth(), s') && Good(s')
    ensures InPhase(s', k, Waiting) && s'.calls[k].token == Held(c, response)
  {
    assert CallSound(s, k);
    Two(s, Read(c), Route(c));
    steps, s' := [Read(c)] + [Route(c)], Apply(Apply(s, Read(c)), Route(c));
  }

  lemma AnswerComesBack(s: State, k: nat, c: nat, response: HttpResponseData) returns (steps: seq<Step>, s': State)
    requires AboutToSend(s, k, c) && Backlog(s.clients[c]) == 0 && s.clients[c].down == []
    ensures Leads(s, steps, Smooth(), s') && k < |s'.calls| && s'.calls[k].phase == Returned(Ok(response))
  {
    var s1, s2, rest;
    steps, s1 := AskAndAnswer(s, k, c, response);
    rest, s2 := ReadAndRoute(s1, k, c, response);
    LeadsJoin(s, steps, s1, rest, Smooth(), s2);
    steps := steps + rest;
    assert CallShown(s2, k);
    rest, s' := HeardReturns(s2, k, response);
    assert Leads(s2, rest, Smooth(), s');
    LeadsJoin(s, steps, s2, rest, Smooth(), s');
    steps := steps + rest;
  }

  lemma SendingComesBack(s: State, k: nat, c: nat, response: HttpResponseData) returns (steps: seq<Step>, s': State)
    requires AboutToSend(s, k, c)
    ensures Leads(s, steps, Smooth(), s') && k < |s'.calls| && s'.calls[k].phase == Returned(Ok(response))
  {
    var s1, s2, rest;
    steps, s1 := DrainUp(s, k, c);
    rest, s2 := DrainDown(s1, k, c);
    LeadsJoin(s, steps, s1, rest, Smooth(), s2);
    steps := steps + rest;
    rest, s' := AnswerComesBack(s2, k, c, response);
    LeadsJoin(s, steps, s2, rest, Smooth(), s');
    steps := steps + rest;
  }

  // Whatever else is queued on its connection, and whatever `handle` makes of its request,
  // a call not yet written to an open connection can come back with just that response,
  // without an error, a timeout or a forgery on the way.
  lemma AnyResponseCanBeReturned(s: State, k: nat, response: HttpResponseData)
    requires Reachable(s) && (InPhase(s, k, New) || InPhase(s, k, Sending))
    requires IsOpen(s, s.calls[k].client) && Unanswered(s, s.calls[k].client, s.calls[k].id)
    requires InPhase(s, k, Sending) ==> s.calls[k].id in s.pending
    ensures exists steps, s' :: Leads(s, steps, Smooth(), s')
                             && k < |s'.calls| && s'.calls[k].phase == Returned(Ok(response))
  {
    ReachableIsGood(s);
    var id := s.calls[k].id;
    assert CallSound(s, k) && IdSound(s, id);
    assert id in s.pending ==> CallSound(s, s.pending[id]);
    var run :| Valid(INITIAL, run) && After(INITIAL, run) == s;
    RunKeepsOpenRead(INITIAL, run);
    var c := s.calls[k].client;
    if InPhase(s, k, Sending) {
      var steps, s' := SendingComesBack(s, k, c, response);
    } else {
      var entered := Apply(s, Enter(k));
      StepKeepsGood(s, Enter(k));
      StepLeads(s, Enter(k), Smooth());
      var rest, s' := SendingComesBack(entered, k, c, response);
      LeadsJoin(s, [Enter(k)], entered, rest, Smooth(), s');
    }
  }

  // An answer does not precede its request: with none forged under its id, a call not yet
  // written has no answer on any connection, and is still listening once registered.
  lemma UnwrittenIsUnanswered(s: State, k: nat, c: nat)
    requires (InPhase(s, k, New) || InPhase(s, k, Sending)) && c < |s.clients|
    requires forall response :: ReachableUnforged(s, s.calls[k].id, response)
    ensures Unanswered(s, c, s.calls[k].id)
    ensures InPhase(s, k, Sending) ==> s.calls[k].id in s.pending
  {
    var id, call := s.calls[k].id, s.calls[k];
    assert CallSound(s, k) by {
      var any := HttpResponseData(200, [], map[], map[]);
      assert ReachableUnforged(s, id, any);
      UnforgedIsVouched(s, id, any);
    }
    forall response ensures NotOnWire(s, c, id, response) && !Carries(call.token, response) {
      assert ReachableUnforged(s, id, response);
      UnforgedIsVouched(s, id, response);
      assert CallSound(s, k) && FateSound(s, k) && NotGiven(s, k, id, response);
    }
    forall i | 0 <= i < |s.clients[c].up| && s.clients[c].up[i].Answer? ensures s.clients[c].up[i].id != id {
      assert NotOnWire(s, c, id, s.clients[c].up[i].response);
    }
    assert s.clients[c].reader.Routing? ==> NotOnWire(s, c, id, s.clients[c].reader.response);
    assert (call.token.Held? || call.token.Spent?) ==> Carries(call.token, call.token.response);
  }

  // A reachable state with one connection, one call and no run of `handle`.
  ghost predicate Alone(s: State, phase: Phase, buffer: seq<HttpResponseData>, pending: map<Uuid, nat>, up: seq<Up>,
                        reader: Reader) {
    && Reachable(s) && s.execs == [] && |s.calls| == |s.clients| == 1 && s.pending == pending
    && s.calls[0].id == "a" && s.calls[0].client == 0
    && s.calls[0].phase == phase && s.calls[0].buffer == buffer
    && s.clients[0].open && s.clients[0].up == up && s.clients[0].reader == reader
  }

  lemma CallIsRegistered(request: HttpRequestData) returns (s: State)
    ensures Alone(s, Sending, [], map["a" := 0], [], Idle)
  {
    assert Valid(INITIAL, []) && After(INITIAL, []) == INITIAL;
    StepIsReachable(INITIAL, Connect(0));
    s := Apply(INITIAL, Connect(0));
    StepIsReachable(s, Begin("a", 0, request));
    s := Apply(s, Begin("a", 0, request));
    StepIsReachable(s, Enter(0));
    s := Apply(s, Enter(0));
  }

  lemma ForgeryArrives(s: State, response: HttpResponseData) returns (s': State)
    requires Alone(s, Sending, [], map["a" := 0], [], Idle)
    ensures Alone(s', Waiting, [], map["a" := 0], [Answer("a", response)], Idle)
  {
    StepIsReachable(s, Inject(0, Answer("a", response)));
    s' := Apply(s, Inject(0, Answer("a", response)));
    StepIsReachable(s', Send(0));
    s' := Apply(s', Send(0));
  }

  lemma ForgeryIsRouted(s: State, response: HttpResponseData) returns (s': State)
    requires Alone(s, Waiting, [], map["a" := 0], [Answer("a", response)], Idle)
    ensures Alone(s', Waiting, [], map[], [], Delivering(0, response))
  {
    StepIsReachable(s, Read(0));
    s' := Apply(s, Read(0));
    StepIsReachable(s', Route(0));
    s' := Apply(s', Route(0));
  }

  lemma ForgeryIsReceived(s: State, response: HttpResponseData) returns (s': State)
    requires Alone(s, Waiting, [], map[], [], Delivering(0, response))
    ensures Alone(s', Got(response), [], map[], [], Idle)
  {
    StepIsReachable(s, Deliver(0));
    s' := Apply(s, Deliver(0));
    StepIsReachable(s', Receive(0));
    s' := Apply(s', Receive(0));
  }

  // The read pump does not check who answers.  Here a message under the call's own id is on
  // the connection before the request is, and the caller returns it although `handle` never
  // ran: `NoCrossedWires` needs that answer not to be forged.
  lemma ForgedAnswerIsReturned(request: HttpRequestData, response: HttpResponseData)
    ensures exists s :: Reachable(s) && InPhase(s, 0, Returned(Ok(response))) && s.execs == []
  {
    var s := CallIsRegistered(request);
    s := ForgeryArrives(s, response);
    s := ForgeryIsRouted(s, response);
    s := ForgeryIsReceived(s, response);
    StepIsReachable(s, Count(0));
    s := Apply(s, Count(0));
    StepIsReachable(s, Step.Log(0, 0));
    s := Apply(s, Step.Log(0, 0));
    assert InPhase(s, 0, Returned(Ok(response)));
  }
}
