/**
 What every step of `Conversations` keeps, whoever is at the far end of the connections.
 */
module ConversationInvariants {
  import opened Protocol
  import opened Conversations
  import opened RecentWindow
  import HostMaps

  predicate HasResponse(phase: Phase, response: HttpResponseData) {
    phase == Got(response) || phase == Counted(response) || phase == Returned(Ok(response))
  }

  predicate HasAnyResponse(phase: Phase) {
    phase.Got? || phase.Counted? || (phase.Returned? && phase.outcome.Ok?)
  }

  // How a call's phase, channel, send count and token agree.
  predicate CallOk(call: Call) {
    && (call.phase == New <==> call.token == Unissued)
    && call.sends == (if call.token.Spent? then 1 else 0)
    && (match call.token
        case Spent(response) => if HasResponse(call.phase, response) then call.buffer == []
                                else call.buffer == [response] && !HasAnyResponse(call.phase)
        case _ => call.buffer == [] && !HasAnyResponse(call.phase))
    && (call.token == Revoked ==> call.phase.Returned?)
    && (call.phase.Returned? ==> call.token != InPending)
  }

  // Call k is known under its id, addresses a known connection, and its token is where it
  // says: in `pending`, or with a read pump about to send.
  ghost predicate CallSound(s: State, k: nat)
    requires k < |s.calls|
  {
    var call := s.calls[k];
    && call.id in s.issued && s.issued[call.id] == k
    && call.client < |s.clients| && s.clients[call.client].user == call.user
    && (call.token == InPending ==> call.id in s.pending && s.pending[call.id] == k)
    && (call.token.Held? ==>
          call.token.reader < |s.clients| && s.clients[call.token.reader].reader == Delivering(k, call.token.response))
    && CallOk(call)
  }

  // A read pump about to send is the one holder of that call's token.
  ghost predicate ReaderSound(s: State, c: nat)
    requires c < |s.clients|
  {
    var reader := s.clients[c].reader;
    reader.Delivering? ==> reader.call < |s.calls| && s.calls[reader.call].token == Held(c, reader.response)
  }

  // `pending` and the issued ids lead to the calls that bear them.
  ghost predicate IdSound(s: State, id: Uuid) {
    && (id in s.issued ==> s.issued[id] < |s.calls| && s.calls[s.issued[id]].id == id)
    && (id in s.pending ==>
          s.pending[id] < |s.calls| && s.calls[s.pending[id]].id == id && s.calls[s.pending[id]].token == InPending)
  }

  ghost predicate HostOk(s: State) {
    && (forall k: nat | k < |s.calls| :: CallSound(s, k))
    && (forall c: nat | c < |s.clients| :: ReaderSound(s, c))
    && (forall id :: IdSound(s, id))
  }

  // Two calls never share an id.
  lemma IdsDiffer(s: State, j: nat, k: nat)
    requires HostOk(s) && j < |s.calls| && k < |s.calls| && j != k
    ensures s.calls[j].id != s.calls[k].id
  {
    assert CallSound(s, j) && CallSound(s, k);
  }

  // Everything about a call that the host's invariant speaks of.
  function Core(call: Call): Call { call.(fate := Unsent) }

  // Known connections keep their user and their read pump's position, new ones are idle.
  ghost predicate SameReaders(s: State, s': State) {
    && |s.clients| <= |s'.clients|
    && (forall c: nat | c < |s.clients| ::
          s'.clients[c].user == s.clients[c].user && s'.clients[c].reader == s.clients[c].reader)
    && (forall c: nat | |s.clients| <= c < |s'.clients| :: s'.clients[c].reader == Idle)
  }

  ghost predicate SameMaps(s: State, s': State) { s'.pending == s.pending && s'.issued == s.issued }

  // Only call k may have moved, keeping its identity and its token.
  ghost predicate Moved(s: State, s': State, k: nat)
    requires k < |s.calls|
  {
    && |s'.calls| == |s.calls|
    && (forall j: nat | j < |s.calls| && j != k :: Core(s'.calls[j]) == Core(s.calls[j]))
    && s'.calls[k].id == s.calls[k].id && s'.calls[k].client == s.calls[k].client
    && s'.calls[k].user == s.calls[k].user && s'.calls[k].token == s.calls[k].token
    && CallOk(s'.calls[k])
  }

  ghost predicate AllStill(s: State, s': State) {
    |s'.calls| == |s.calls| && forall j: nat | j < |s.calls| :: Core(s'.calls[j]) == Core(s.calls[j])
  }

  lemma StillKeepsCall(s: State, s': State, k: nat)
    requires k < |s.calls| && k < |s'.calls| && CallSound(s, k)
    requires SameReaders(s, s') && SameMaps(s, s') && Core(s'.calls[k]) == Core(s.calls[k])
    ensures CallSound(s', k)
  {
    var call, call' := s.calls[k], s'.calls[k];
    assert call'.id == Core(call).id && call'.client == Core(call).client && call'.user == Core(call).user;
    assert call'.token == Core(call).token;
    assert CallOk(call') == CallOk(Core(call)) == CallOk(call);
  }

  lemma QuietKeepsHost(s: State, s': State)
    requires HostOk(s) && SameReaders(s, s') && SameMaps(s, s') && AllStill(s, s')
    ensures HostOk(s')
  {
    forall k: nat | k < |s'.calls| ensures CallSound(s', k) {
      assert CallSound(s, k);
      StillKeepsCall(s, s', k);
    }
    SameTokensKeepRest(s, s');
  }

  lemma SameTokensKeepRest(s: State, s': State)
    requires HostOk(s) && SameReaders(s, s') && SameMaps(s, s') && |s'.calls| == |s.calls|
    requires forall j: nat | j < |s.calls| :: s'.calls[j].token == s.calls[j].token && s'.calls[j].id == s.calls[j].id
    ensures forall c: nat | c < |s'.clients| :: ReaderSound(s', c)
    ensures forall id :: IdSound(s', id)
  {
    forall c: nat | c < |s'.clients| ensures ReaderSound(s', c) {
      assert c < |s.clients| ==> ReaderSound(s, c);
    }
    forall id ensures IdSound(s', id) {
      assert IdSound(s, id);
    }
  }

  lemma MovedKeepsHost(s: State, s': State, k: nat)
    requires HostOk(s) && k < |s.calls| && Moved(s, s', k) && SameReaders(s, s') && SameMaps(s, s')
    ensures HostOk(s')
  {
    forall j: nat | j < |s'.calls| ensures CallSound(s', j) {
      assert CallSound(s, j);
      if j != k { StillKeepsCall(s, s', j); }
    }
    forall j: nat | j < |s.calls| ensures s'.calls[j].token == s.calls[j].token && s'.calls[j].id == s.calls[j].id {
      if j != k {
        assert Core(s'.calls[j]).token == Core(s.calls[j]).token && Core(s'.calls[j]).id == Core(s.calls[j]).id;
      }
    }
    SameTokensKeepRest(s, s');
  }

  lemma BeginKeepsHost(s: State, id: Uuid, c: nat, request: HttpRequestData)
    requires HostOk(s) && id !in s.issued && c < |s.clients|
    ensures HostOk(DoBegin(s, id, c, request))
  {
    var s' := DoBegin(s, id, c, request);
    forall k: nat | k < |s'.calls| ensures CallSound(s', k) {
      assert k < |s.calls| ==> CallSound(s, k);
    }
    forall c: nat | c < |s'.clients| ensures ReaderSound(s', c) {
      assert ReaderSound(s, c);
    }
    forall id' ensures IdSound(s', id') {
      assert IdSound(s, id');
    }
  }

  lemma EnterKeepsHost(s: State, k: nat)
    requires HostOk(s) && InPhase(s, k, New)
    ensures HostOk(DoEnter(s, k))
  {
    var s' := DoEnter(s, k);
    assert CallSound(s, k);
    forall j: nat | j < |s'.calls| ensures CallSound(s', j) {
      assert CallSound(s, j);
    }
    forall c: nat | c < |s'.clients| ensures ReaderSound(s', c) {
      assert ReaderSound(s, c);
    }
    forall id ensures IdSound(s', id) {
      assert IdSound(s, id);
    }
  }

  lemma CleanupKeepsHost(s: State, k: nat)
    requires HostOk(s) && k < |s.calls| && s.calls[k].phase.Failing?
    ensures HostOk(DoCleanup(s, k))
  {
    var s' := DoCleanup(s, k);
    assert CallSound(s, k);
    forall j: nat | j < |s'.calls| ensures CallSound(s', j) {
      assert CallSound(s, j);
    }
    forall c: nat | c < |s'.clients| ensures ReaderSound(s', c) {
      assert ReaderSound(s, c);
    }
    forall id ensures IdSound(s', id) {
      assert IdSound(s, id);
    }
  }

  // Only read pump c has moved, and it was and is not about to send.
  lemma ReaderMoveKeepsHost(s: State, s': State, c: nat)
    requires HostOk(s) && c < |s.clients| == |s'.clients| && SameMaps(s, s') && s'.calls == s.calls
    requires forall d: nat | d < |s.clients| && d != c :: s'.clients[d] == s.clients[d]
    requires s'.clients[c].user == s.clients[c].user
    requires !s.clients[c].reader.Delivering? && !s'.clients[c].reader.Delivering?
    ensures HostOk(s')
  {
    forall k: nat | k < |s'.calls| ensures CallSound(s', k) {
      assert CallSound(s, k);
    }
    forall d: nat | d < |s'.clients| ensures ReaderSound(s', d) {
      assert ReaderSound(s, d);
    }
    forall id ensures IdSound(s', id) {
      assert IdSound(s, id);
    }
  }

  lemma RouteKeepsHost(s: State, c: nat)
    requires HostOk(s) && c < |s.clients| && s.clients[c].reader.Routing?
    ensures HostOk(DoRoute(s, c))
  {
    var s' := DoRoute(s, c);
    var id0 := s.clients[c].reader.id;
    assert IdSound(s, id0);
    if id0 !in s.pending {
      assert s'.pending == s.pending;
      ReaderMoveKeepsHost(s, s', c);
    } else {
      RouteTakesToken(s, c);
    }
  }

  lemma RouteTakesToken(s: State, c: nat)
    requires HostOk(s) && c < |s.clients| && s.clients[c].reader.Routing?
    requires s.clients[c].reader.id in s.pending
    ensures HostOk(DoRoute(s, c))
  {
    var s' := DoRoute(s, c);
    var id0 := s.clients[c].reader.id;
    assert IdSound(s, id0);
    var k0 := s.pending[id0];
    assert CallSound(s, k0);
    forall k: nat | k < |s'.calls| ensures CallSound(s', k) {
      assert CallSound(s, k);
    }
    forall d: nat | d < |s'.clients| ensures ReaderSound(s', d) {
      assert ReaderSound(s, d);
    }
    forall id ensures IdSound(s', id) {
      assert IdSound(s, id);
    }
  }

  lemma DeliverKeepsHost(s: State, c: nat)
    requires HostOk(s) && c < |s.clients| && s.clients[c].reader.Delivering? && s.clients[c].reader.call < |s.calls|
    ensures HostOk(DoDeliver(s, c))
  {
    var s' := DoDeliver(s, c);
    assert ReaderSound(s, c);
    assert CallSound(s, s.clients[c].reader.call);
    forall k: nat | k < |s'.calls| ensures CallSound(s', k) {
      assert CallSound(s, k);
    }
    forall d: nat | d < |s'.clients| ensures ReaderSound(s', d) {
      assert ReaderSound(s, d);
    }
    forall id ensures IdSound(s', id) {
      assert IdSound(s, id);
    }
  }

  lemma SendKeepsHost(s: State, k: nat, phase: Phase, arrived: bool)
    requires HostOk(s) && InPhase(s, k, Sending) && s.calls[k].client < |s.clients|
    requires phase == Waiting || phase.Failing?
    ensures HostOk(DoSend(s, k, phase, arrived))
  {
    assert CallSound(s, k);
    MovedKeepsHost(s, DoSend(s, k, phase, arrived), k);
  }

  lemma CallerKeepsHost(s: State, step: Step)
    requires HostOk(s) && Enabled(s, step)
    requires step.Receive? || step.GiveUp? || step.Count? || step.Log?
    ensures HostOk(Apply(s, step))
  {
    assert CallSound(s, step.call);
    MovedKeepsHost(s, Apply(s, step), step.call);
  }

  lemma RemoteKeepsHost(s: State, step: Step)
    requires HostOk(s) && Enabled(s, step)
    requires step.Connect? || step.PushInfo? || step.TakeRequest? || step.Handle? || step.Reply?
          || step.Disconnect? || step.Inject?
    ensures HostOk(Apply(s, step))
  {
    QuietKeepsHost(s, Apply(s, step));
  }

  lemma StepKeepsHost(s: State, step: Step)
    requires HostOk(s) && Enabled(s, step)
    ensures HostOk(Apply(s, step))
  {
    if step.Begin? {
      BeginKeepsHost(s, step.id, step.client, step.request);
    } else if step.Enter? {
      EnterKeepsHost(s, step.call);
    } else if step.Send? {
      assert CallSound(s, step.call);
      SendKeepsHost(s, step.call, Waiting, true);
    } else if step.FailSend? {
      SendKeepsHost(s, step.call, Failing(SendError), step.arrived);
    } else if step.Cleanup? {
      CleanupKeepsHost(s, step.call);
    } else if step.Route? {
      RouteKeepsHost(s, step.client);
    } else if step.Deliver? {
      DeliverKeepsHost(s, step.client);
    } else if step.Read? || step.EndRead? {
      ReaderMoveKeepsHost(s, Apply(s, step), step.client);
    } else if step.Receive? || step.GiveUp? || step.Count? || step.Log? {
      CallerKeepsHost(s, step);
    } else {
      RemoteKeepsHost(s, step);
    }
  }
}
