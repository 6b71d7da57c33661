/** What holds of every reachable state of the conversation multiplexer. */
module ConversationTheorems {
  import opened Protocol
  import opened Sums
  import opened RecentWindow
  import opened Conversations
  import opened ConversationInvariants
  import opened Broadcast
  import opened Requests
  import opened Authenticity
  import opened RequestCounts

  ghost predicate Good(s: State) { HostOk(s) && Agrees(s) && RequestsOk(s) && AllCountsOk(s) }

  lemma StepKeepsGood(s: State, step: Step)
    requires Good(s) && Enabled(s, step)
    ensures Good(Apply(s, step))
  {
    StepKeepsHost(s, step);
    StepAgrees(s, step);
    StepKeepsRequests(s, step);
    StepKeepsCounts(s, step);
  }

  lemma {:induction false} RunKeepsGood(s: State, steps: seq<Step>)
    requires Good(s) && Valid(s, steps)
    ensures Good(After(s, steps))
    decreases |steps|
  {
    if steps != [] {
      StepKeepsGood(s, steps[0]);
      RunKeepsGood(Apply(s, steps[0]), steps[1..]);
    }
  }

  lemma {:induction false} RunKeepsVouched(s: State, steps: seq<Step>, id: Uuid, response: HttpResponseData)
    requires Good(s) && Vouched(s, id, response) && Valid(s, steps) && Unforged(steps, id, response)
    ensures Vouched(After(s, steps), id, response)
    decreases |steps|
  {
    if steps != [] {
      StepKeepsGood(s, steps[0]);
      StepKeepsVouched(s, steps[0], id, response);
      assert Unforged(steps[1..], id, response);
      RunKeepsVouched(Apply(s, steps[0]), steps[1..], id, response);
    }
  }

  lemma ReachableIsGood(s: State)
    requires Reachable(s)
    ensures Good(s)
  {
    var steps :| Valid(INITIAL, steps) && After(INITIAL, steps) == s;
    RunKeepsGood(INITIAL, steps);
  }

  // Where the right to send on a call's channel can be, read off the state alone.
  datatype Place = Unregistered | InMap | WithPump(client: nat) | Used | Abandoned

  ghost predicate TokenAt(s: State, k: nat, place: Place)
    requires k < |s.calls|
  {
    match place
    case Unregistered => s.calls[k].phase == New
    case InMap => exists id :: id in s.pending && s.pending[id] == k
    case WithPump(c) => c < |s.clients| && s.clients[c].reader.Delivering? && s.clients[c].reader.call == k
    case Used => s.calls[k].sends >= 1
    case Abandoned => Shown(s.calls[k].id, s.events) == Left
  }

  // The place a call's bookkeeping token stands for.
  function PlaceOf(token: Token): Place {
    match token
    case Unissued => Unregistered
    case InPending => InMap
    case Held(c, _) => WithPump(c)
    case Spent(_) => Used
    case Revoked => Abandoned
  }

  lemma TokenAtIsItsPlace(s: State, k: nat, place: Place)
    requires Good(s) && k < |s.calls|
    ensures TokenAt(s, k, place) <==> place == PlaceOf(s.calls[k].token)
  {
    assert CallSound(s, k) && CallShown(s, k);
    if place.WithPump? && TokenAt(s, k, place) { assert ReaderSound(s, place.client); }
    if place.InMap? && TokenAt(s, k, place) {
      var id :| id in s.pending && s.pending[id] == k;
      assert IdSound(s, id);
    }
  }

  // The token is in exactly one place, so each channel is sent on at most once, ever.
  lemma TokenIsInOnePlace(s: State, k: nat)
    requires Reachable(s) && k < |s.calls|
    ensures exists place :: TokenAt(s, k, place)
    ensures forall p, q | TokenAt(s, k, p) && TokenAt(s, k, q) :: p == q
    ensures s.calls[k].sends <= 1
  {
    ReachableIsGood(s);
    assert CallSound(s, k);
    TokenAtIsItsPlace(s, k, PlaceOf(s.calls[k].token));
    forall p, q | TokenAt(s, k, p) && TokenAt(s, k, q) ensures p == q {
      TokenAtIsItsPlace(s, k, p);
      TokenAtIsItsPlace(s, k, q);
    }
  }

  // Whatever the peers send, a read pump about to send on a channel finds room.
  lemma ReadPumpNeverBlocks(s: State, c: nat)
    requires Reachable(s) && c < |s.clients| && s.clients[c].reader.Delivering?
    ensures Enabled(s, Deliver(c))
  {
    ReachableIsGood(s);
    assert ReaderSound(s, c);
    assert CallSound(s, s.clients[c].reader.call);
  }

  predicate InProgress(phase: Phase) { phase == Sending || phase == Waiting || phase.Failing? }

  // `pending` holds only ids of calls still in progress.
  lemma PendingIsInProgress(s: State, id: Uuid)
    requires Reachable(s) && id in s.pending
    ensures s.pending[id] < |s.calls|
    ensures s.calls[s.pending[id]].id == id && InProgress(s.calls[s.pending[id]].phase)
  {
    ReachableIsGood(s);
    assert IdSound(s, id) && CallSound(s, s.pending[id]);
  }

  // With no call in progress nothing is pending, whatever connections dropped meanwhile.
  lemma NothingLeaks(s: State)
    requires Reachable(s)
    requires forall k: nat | k < |s.calls| :: !InProgress(s.calls[k].phase)
    ensures s.pending == map[]
  {
    forall id | id in s.pending ensures false { PendingIsInProgress(s, id); }
  }

  // Once a call has returned, nothing that happens later changes its outcome or brings its
  // id back.
  lemma {:induction false} ReturnedIsFinal(s: State, steps: seq<Step>, k: nat)
    requires Good(s) && Valid(s, steps) && k < |s.calls| && s.calls[k].phase.Returned?
    ensures k < |After(s, steps).calls|
    ensures After(s, steps).calls[k].id == s.calls[k].id && After(s, steps).calls[k].phase == s.calls[k].phase
    ensures s.calls[k].id !in After(s, steps).pending
    decreases |steps|
  {
    if steps == [] {
      var id := s.calls[k].id;
      assert CallSound(s, k) && IdSound(s, id);
      assert id in s.pending ==> CallSound(s, s.pending[id]);
    } else {
      StepKeepsGood(s, steps[0]);
      StepLeavesReturned(s, steps[0]);
      ReturnedIsFinal(Apply(s, steps[0]), steps[1..], k);
    }
  }

  // A step changes the id of no call, and the phase of none that has returned.
  ghost predicate LeavesReturned(s: State, s': State) {
    |s.calls| <= |s'.calls| &&
    forall k: nat | k < |s.calls| && s.calls[k].phase.Returned? ::
      s'.calls[k].id == s.calls[k].id && s'.calls[k].phase == s.calls[k].phase
  }

  lemma CallerLeavesReturned(s: State, step: Step)
    requires Enabled(s, step)
    requires step.Begin? || step.Enter? || step.Send? || step.FailSend? || step.Receive?
          || step.GiveUp? || step.Cleanup? || step.Count? || step.Log?
    ensures LeavesReturned(s, Apply(s, step))
  {}

  lemma HostLeavesReturned(s: State, step: Step)
    requires Enabled(s, step)
    requires step.Connect? || step.PushInfo? || step.Read? || step.Route? || step.Deliver? || step.EndRead?
    ensures LeavesReturned(s, Apply(s, step))
  {}

  lemma RemoteLeavesReturned(s: State, step: Step)
    requires Enabled(s, step)
    requires step.TakeRequest? || step.Handle? || step.Reply? || step.Disconnect? || step.Inject?
    ensures LeavesReturned(s, Apply(s, step))
  {}

  lemma StepLeavesReturned(s: State, step: Step)
    requires Enabled(s, step)
    ensures LeavesReturned(s, Apply(s, step))
  {
    if step.TakeRequest? || step.Handle? || step.Reply? || step.Disconnect? || step.Inject? {
      RemoteLeavesReturned(s, step);
    } else if step.Connect? || step.PushInfo? || step.Read? || step.Route? || step.Deliver? || step.EndRead? {
      HostLeavesReturned(s, step);
    } else {
      CallerLeavesReturned(s, step);
    }
  }

  lemma EndedCallNeverReturnsToPending(s: State, steps: seq<Step>, k: nat)
    requires Reachable(s) && Valid(s, steps) && k < |s.calls| && s.calls[k].phase.Returned?
    ensures s.calls[k].id !in s.pending
    ensures s.calls[k].id !in After(s, steps).pending
  {
    ReachableIsGood(s);
    ReturnedIsFinal(s, [], k);
    ReturnedIsFinal(s, steps, k);
  }

  // The map says of every id, at every moment, what the broadcast form says.
  lemma PendingMeansListening(s: State, id: Uuid)
    requires Reachable(s)
    ensures id in s.pending <==> Shown(id, s.events) == Listening
  {
    ReachableIsGood(s);
    assert IdSound(s, id) && FreshIsDeaf(s, id);
    if id in s.issued {
      assert CallSound(s, s.issued[id]) && CallShown(s, s.issued[id]);
    }
    if id in s.pending {
      assert CallSound(s, s.pending[id]) && CallShown(s, s.pending[id]);
    }
  }

  // A call returns the first response with its id, in lock order, after its registration
  // and before any withdrawal: just what the broadcast form would give it.
  lemma ReturnsFirstAnswer(s: State, k: nat, response: HttpResponseData)
    requires Reachable(s) && k < |s.calls| && s.calls[k].phase == Returned(Ok(response))
    ensures Shown(s.calls[k].id, s.events) == Heard(response)
    ensures exists i: nat, j: nat :: FirstAnswer(s.calls[k].id, s.events, i, j, response)
  {
    ReachableIsGood(s);
    assert CallSound(s, k) && CallShown(s, k);
    ShownMeansFirstAnswer(s.calls[k].id, s.events, response);
  }

  // Each call causes at most one run of the client's `handle`, and none while its request
  // is still on the wire; this holds across losses and reconnects.
  lemma AtMostOneRun(s: State, d: nat, e: nat)
    requires Reachable(s) && d < |s.execs| && e < |s.execs| && s.execs[d].id == s.execs[e].id
    ensures d == e
    ensures forall c: nat, i | c < |s.clients| && 0 <= i < |s.clients[c].down| ::
              s.clients[c].down[i] != Ask(s.execs[e].id, s.execs[e].request)
  {
    ReachableIsGood(s);
    assert ExecSound(s, d) && ExecSound(s, e);
    forall c: nat, i | c < |s.clients| && 0 <= i < |s.clients[c].down|
      ensures s.clients[c].down[i] != Ask(s.execs[e].id, s.execs[e].request)
    {
      assert QueueSound(s, c);
      if s.clients[c].down[i].Ask? {
        assert AskSound(s, c, s.clients[c].down[i].id, s.clients[c].down[i].request);
      }
    }
  }

  // e is a run of `handle`, on the connection call k addressed and on call k's request.
  predicate Serves(s: State, e: nat, k: nat)
    requires k < |s.calls|
  {
    && e < |s.execs|
    && s.execs[e].id == s.calls[k].id
    && s.execs[e].client == s.calls[k].client
    && s.execs[e].request == s.calls[k].request
  }

  lemma UnforgedIsVouched(s: State, id: Uuid, response: HttpResponseData)
    requires ReachableUnforged(s, id, response)
    ensures Good(s) && Vouched(s, id, response)
  {
    var steps :| Unforged(steps, id, response) && Valid(INITIAL, steps) && After(INITIAL, steps) == s;
    assert Absent(INITIAL, id, response);
    RunKeepsGood(INITIAL, steps);
    RunKeepsVouched(INITIAL, steps, id, response);
  }

  // No crossed wires: a response returned by a call is the one that the single run of
  // `handle` on that call's request, at the addressed client, produced.  Peers may send
  // whatever they like, but for that very answer.
  lemma NoCrossedWires(s: State, k: nat, response: HttpResponseData)
    requires k < |s.calls| && s.calls[k].phase == Returned(Ok(response))
    requires ReachableUnforged(s, s.calls[k].id, response)
    ensures exists e: nat :: Serves(s, e, k) && Produced(s.execs[e].run) == Some(response)
    ensures forall d: nat, e: nat | d < |s.execs| && e < |s.execs| &&
              s.execs[d].id == s.execs[e].id == s.calls[k].id :: d == e
  {
    var id := s.calls[k].id;
    UnforgedIsVouched(s, id, response);
    assert CallSound(s, k);
    assert !Absent(s, id, response) by {
      assert Carries(s.calls[k].token, response);
      assert Absent(s, id, response) ==> NotGiven(s, k, id, response);
    }
    assert FateSound(s, k);
    var e := s.calls[k].fate.exec;
    assert ExecSound(s, e);
    assert Serves(s, e, k);
    forall d: nat, e: nat | d < |s.execs| && e < |s.execs| && s.execs[d].id == s.execs[e].id == id ensures d == e {
      assert ExecSound(s, d) && ExecSound(s, e);
    }
  }

  // For every user, the counters of all connections past and present add up to the rows
  // ever recorded plus the callers between the two steps; rows are the successful calls.
  lemma RequestCountsAreConserved(s: State, u: UserId)
    requires Reachable(s)
    ensures Total(s.clients, RequestsOf(u)) == |RowsOf(s.log, u)| + Total(s.calls, Between(u))
    ensures |RowsOf(s.log, u)| == Total(s.calls, Succeeded(u))
  {
    ReachableIsGood(s);
    assert CountsOk(s, u);
  }

  lemma {:induction false} RunKeepsCounters(s: State, steps: seq<Step>)
    requires Good(s) && CountersOk(s) && Valid(s, steps)
    ensures CountersOk(After(s, steps))
    decreases |steps|
  {
    if steps != [] {
      StepKeepsGood(s, steps[0]);
      StepKeepsCounters(s, steps[0]);
      RunKeepsCounters(Apply(s, steps[0]), steps[1..]);
    }
  }

  // Each connection's counter is the number of its own calls that were answered: those
  // returned with a response and those about to be recorded.
  lemma CounterIsItsCalls(s: State, c: nat)
    requires Reachable(s) && c < |s.clients|
    ensures s.clients[c].requests == Total(s.calls, AnsweredOn(c))
  {
    var steps :| Valid(INITIAL, steps) && After(INITIAL, steps) == s;
    RunKeepsCounters(INITIAL, steps);
    assert CounterOk(s, c);
  }

  // Every recorded row shows some successful call's own user, verb, path and status.
  lemma RowsAreSuccessfulCalls(s: State, i: nat)
    requires Reachable(s) && i < |s.log|
    ensures exists k: nat :: LogsCall(s, k, s.log[i])
  {
    ReachableIsGood(s);
    assert RowSound(s, i);
  }

  // The portal's answer is that of the unbounded log, in every reachable state.
  lemma PortalShowsNewest(s: State, u: UserId, limit: int)
    requires Reachable(s)
    ensures IsNewest(RowsOf(s.log, u), limit, 100, Reported(s.recent, u, limit))
  {
    ReachableIsGood(s);
    MirrorReportsNewest(s.recent, s.log, u, limit);
  }
}
