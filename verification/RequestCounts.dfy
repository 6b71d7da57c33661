/**
 Conservation of request counts: the per-connection counters, the recorded rows and the
 callers between the two always add up.
 */
module RequestCounts {
  import opened Protocol
  import opened Sums
  import opened RecentWindow
  import opened Conversations
  import opened ConversationInvariants

  // The counter of a connection, if it is user u's.
  function RequestsOf(u: UserId): Client -> int {
    (c: Client) => if c.user == u then c.requests else 0
  }

  // Is this a call for user u, counted and not yet recorded?
  function Between(u: UserId): Call -> int {
    (call: Call) => if call.user == u && call.phase.Counted? then 1 else 0
  }

  // Is this a call for user u that returned a response?
  function Succeeded(u: UserId): Call -> int {
    (call: Call) => if call.user == u && call.phase.Returned? && call.phase.outcome.Ok? then 1 else 0
  }

  ghost predicate CountsOk(s: State, u: UserId) {
    && Total(s.clients, RequestsOf(u)) == |RowsOf(s.log, u)| + Total(s.calls, Between(u))
    && |RowsOf(s.log, u)| == Total(s.calls, Succeeded(u))
  }

  // The log entry is that of call k, which returned a response.
  predicate LogsCall(s: State, k: nat, entry: Entry) {
    && k < |s.calls|
    && s.calls[k].phase.Returned? && s.calls[k].phase.outcome.Ok?
    && entry.user == s.calls[k].user
    && entry.request.verb == s.calls[k].request.verb
    && entry.request.path == s.calls[k].request.path
    && entry.request.status == s.calls[k].phase.outcome.value.statusCode
  }

  ghost predicate RowSound(s: State, i: nat)
    requires i < |s.log|
  {
    exists k: nat :: LogsCall(s, k, s.log[i])
  }

  ghost predicate AllCountsOk(s: State) {
    && Mirrors(s.recent, s.log)
    && (forall u :: CountsOk(s, u))
    && (forall i: nat | i < |s.log| :: RowSound(s, i))
  }

  // Calls that have returned a response stay as they are, so the rows stay theirs.
  lemma RowsStay(s: State, s': State)
    requires forall i: nat | i < |s.log| :: RowSound(s, i)
    requires |s.calls| <= |s'.calls| && s.log <= s'.log
    requires forall k: nat | k < |s.calls| && s.calls[k].phase.Returned? && s.calls[k].phase.outcome.Ok? ::
               && s'.calls[k].phase == s.calls[k].phase
               && s'.calls[k].user == s.calls[k].user && s'.calls[k].request == s.calls[k].request
    ensures forall i: nat | i < |s.log| :: RowSound(s', i)
  {
    forall i: nat | i < |s.log| ensures RowSound(s', i) {
      assert RowSound(s, i);
      var k: nat :| LogsCall(s, k, s.log[i]);
      assert LogsCall(s', k, s'.log[i]);
    }
  }

  // No counter, record or counting phase has changed.
  ghost predicate CountsAlike(s: State, s': State) {
    && s'.log == s.log && s'.recent == s.recent
    && |s'.clients| == |s.clients| && |s'.calls| == |s.calls|
    && (forall c: nat | c < |s.clients| ::
          s'.clients[c].user == s.clients[c].user && s'.clients[c].requests == s.clients[c].requests)
    && (forall k: nat | k < |s.calls| :: SamePlace(s.calls[k], s'.calls[k]))
  }

  predicate SamePlace(call: Call, call': Call) {
    && call'.user == call.user && call'.client == call.client && call'.request == call.request
    && call'.phase.Counted? == call.phase.Counted?
    && (call'.phase.Returned? && call'.phase.outcome.Ok? <==> call.phase.Returned? && call.phase.outcome.Ok?)
    && (call.phase.Returned? && call.phase.outcome.Ok? ==> call'.phase == call.phase)
  }

  lemma AlikeKeepsCounts(s: State, s': State)
    requires AllCountsOk(s) && CountsAlike(s, s')
    ensures AllCountsOk(s')
  {
    forall k: nat | k < |s.calls| ensures SamePlace(s.calls[k], s'.calls[k]) {}
    RowsStay(s, s');
    forall u ensures CountsOk(s', u) {
      assert CountsOk(s, u);
      TotalSame(s.clients, s'.clients, RequestsOf(u));
      forall i | 0 <= i < |s.calls|
        ensures Between(u)(s.calls[i]) == Between(u)(s'.calls[i])
        ensures Succeeded(u)(s.calls[i]) == Succeeded(u)(s'.calls[i])
      {
        assert SamePlace(s.calls[i], s'.calls[i]);
      }
      TotalSame(s.calls, s'.calls, Between(u));
      TotalSame(s.calls, s'.calls, Succeeded(u));
    }
  }

  lemma BeginKeepsCounts(s: State, id: Uuid, c: nat, request: HttpRequestData)
    requires AllCountsOk(s) && c < |s.clients|
    ensures AllCountsOk(DoBegin(s, id, c, request))
  {
    var s' := DoBegin(s, id, c, request);
    RowsStay(s, s');
    forall u ensures CountsOk(s', u) {
      assert CountsOk(s, u);
      TotalSnoc(s.calls, s'.calls[|s.calls|], Between(u));
      TotalSnoc(s.calls, s'.calls[|s.calls|], Succeeded(u));
    }
  }

  lemma ConnectKeepsCounts(s: State, user: UserId)
    requires AllCountsOk(s)
    ensures AllCountsOk(DoConnect(s, user))
  {
    var s' := DoConnect(s, user);
    RowsStay(s, s');
    forall u ensures CountsOk(s', u) {
      assert CountsOk(s, u);
      TotalSnoc(s.clients, s'.clients[|s.clients|], RequestsOf(u));
    }
  }

  lemma CountKeepsCounts(s: State, k: nat)
    requires HostOk(s) && AllCountsOk(s) && Enabled(s, Count(k))
    ensures AllCountsOk(DoCount(s, k))
  {
    var s' := DoCount(s, k);
    RowsStay(s, s');
    var c := s.calls[k].client;
    assert CallSound(s, k);
    forall u ensures CountsOk(s', u) {
      assert CountsOk(s, u);
      TotalUpdate(s.clients, c, s'.clients[c], RequestsOf(u));
      TotalUpdate(s.calls, k, s'.calls[k], Between(u));
      TotalUpdate(s.calls, k, s'.calls[k], Succeeded(u));
    }
  }

  lemma LogKeepsRows(s: State, k: nat, time: int)
    requires AllCountsOk(s) && Enabled(s, Step.Log(k, time))
    ensures var s' := DoLog(s, k, time); forall i: nat | i < |s'.log| :: RowSound(s', i)
  {
    var s' := DoLog(s, k, time);
    RowsStay(s, s');
    assert LogsCall(s', k, s'.log[|s.log|]);
  }

  lemma LogKeepsTotals(s: State, k: nat, time: int, u: UserId)
    requires CountsOk(s, u) && Enabled(s, Step.Log(k, time))
    ensures CountsOk(DoLog(s, k, time), u)
  {
    var s' := DoLog(s, k, time);
    assert s'.log[..|s.log|] == s.log;
    TotalUpdate(s.calls, k, s'.calls[k], Between(u));
    TotalUpdate(s.calls, k, s'.calls[k], Succeeded(u));
  }

  lemma LogKeepsCounts(s: State, k: nat, time: int)
    requires AllCountsOk(s) && Enabled(s, Step.Log(k, time))
    ensures AllCountsOk(DoLog(s, k, time))
  {
    var s' := DoLog(s, k, time);
    var entry := s'.log[|s.log|];
    RecordMirrors(s.recent, s.log, entry.user, entry.request);
    LogKeepsRows(s, k, time);
    forall u ensures CountsOk(s', u) {
      assert CountsOk(s, u);
      LogKeepsTotals(s, k, time, u);
    }
  }

  lemma SendIsAlike(s: State, k: nat, phase: Phase, arrived: bool)
    requires InPhase(s, k, Sending) && s.calls[k].client < |s.clients| && (phase == Waiting || phase.Failing?)
    ensures CountsAlike(s, DoSend(s, k, phase, arrived))
  {}

  lemma CallerIsAlike(s: State, step: Step)
    requires Enabled(s, step) && (step.Enter? || step.Receive? || step.GiveUp? || step.Cleanup?)
    ensures CountsAlike(s, Apply(s, step))
  {}

  lemma HostIsAlike(s: State, step: Step)
    requires Enabled(s, step) && (step.PushInfo? || step.Read? || step.Route? || step.Deliver? || step.EndRead?)
    requires step.Deliver? ==> HostOk(s)
    ensures CountsAlike(s, Apply(s, step))
  {}

  lemma TakeIsAlike(s: State, c: nat)
    requires c < |s.clients| && s.clients[c].down != []
    ensures CountsAlike(s, DoTakeRequest(s, c))
  {}

  lemma RemoteIsAlike(s: State, step: Step)
    requires Enabled(s, step) && (step.Handle? || step.Reply? || step.Disconnect? || step.Inject?)
    ensures CountsAlike(s, Apply(s, step))
  {}

  // A step other than these leaves counters, records and counting phases alone.
  lemma StepIsAlike(s: State, step: Step)
    requires HostOk(s) && Enabled(s, step) && !step.Begin? && !step.Connect? && !step.Count? && !step.Log?
    ensures CountsAlike(s, Apply(s, step))
  {
    if step.Send? {
      SendIsAlike(s, step.call, Waiting, true);
    } else if step.FailSend? {
      SendIsAlike(s, step.call, Failing(SendError), step.arrived);
    } else if step.Enter? || step.Receive? || step.GiveUp? || step.Cleanup? {
      CallerIsAlike(s, step);
    } else if step.PushInfo? || step.Read? || step.Route? || step.Deliver? || step.EndRead? {
      HostIsAlike(s, step);
    } else if step.TakeRequest? {
      TakeIsAlike(s, step.client);
    } else {
      RemoteIsAlike(s, step);
    }
  }

  lemma StepKeepsCounts(s: State, step: Step)
    requires HostOk(s) && AllCountsOk(s) && Enabled(s, step)
    ensures AllCountsOk(Apply(s, step))
  {
    if step.Begin? {
      BeginKeepsCounts(s, step.id, step.client, step.request);
    } else if step.Connect? {
      ConnectKeepsCounts(s, step.user);
    } else if step.Count? {
      CountKeepsCounts(s, step.call);
    } else if step.Log? {
      LogKeepsCounts(s, step.call, step.time);
    } else {
      StepIsAlike(s, step);
      AlikeKeepsCounts(s, Apply(s, step));
    }
  }

  // Each connection's own counter.

  // Is this a call to connection c that was answered and counted?
  function AnsweredOn(c: nat): Call -> int {
    (call: Call) =>
      if call.client == c && (call.phase.Counted? || (call.phase.Returned? && call.phase.outcome.Ok?)) then 1 else 0
  }

  ghost predicate CounterOk(s: State, c: nat)
    requires c < |s.clients|
  {
    s.clients[c].requests == Total(s.calls, AnsweredOn(c))
  }

  ghost predicate CountersOk(s: State) { forall c: nat | c < |s.clients| :: CounterOk(s, c) }

  lemma ConnectKeepsCounters(s: State, user: UserId)
    requires HostOk(s) && CountersOk(s)
    ensures CountersOk(DoConnect(s, user))
  {
    var s' := DoConnect(s, user);
    forall c: nat | c < |s'.clients| ensures CounterOk(s', c) {
      if c < |s.clients| {
        assert CounterOk(s, c);
      } else {
        forall i | 0 <= i < |s.calls| ensures AnsweredOn(c)(s.calls[i]) == 0 { assert CallSound(s, i); }
        TotalIsNonNegative(s.calls, AnsweredOn(c));
      }
    }
  }

  lemma CallKeepsCounters(s: State, step: Step)
    requires CountersOk(s) && Enabled(s, step) && (step.Begin? || step.Count? || step.Log?)
    ensures CountersOk(Apply(s, step))
  {
    var s' := Apply(s, step);
    forall c: nat | c < |s'.clients| ensures CounterOk(s', c) {
      assert CounterOk(s, c);
      if step.Begin? {
        TotalSnoc(s.calls, s'.calls[|s.calls|], AnsweredOn(c));
      } else {
        TotalUpdate(s.calls, step.call, s'.calls[step.call], AnsweredOn(c));
      }
    }
  }

  lemma AlikeKeepsCounters(s: State, s': State)
    requires CountersOk(s) && CountsAlike(s, s')
    ensures CountersOk(s')
  {
    forall c: nat | c < |s'.clients| ensures CounterOk(s', c) {
      assert CounterOk(s, c);
      forall i | 0 <= i < |s.calls| ensures AnsweredOn(c)(s.calls[i]) == AnsweredOn(c)(s'.calls[i]) {
        assert SamePlace(s.calls[i], s'.calls[i]);
      }
      TotalSame(s.calls, s'.calls, AnsweredOn(c));
    }
  }

  lemma StepKeepsCounters(s: State, step: Step)
    requires HostOk(s) && CountersOk(s) && Enabled(s, step)
    ensures CountersOk(Apply(s, step))
  {
    if step.Connect? {
      ConnectKeepsCounters(s, step.user);
    } else if step.Begin? || step.Count? || step.Log? {
      CallKeepsCounters(s, step);
    } else {
      StepIsAlike(s, step);
      AlikeKeepsCounters(s, Apply(s, step));
    }
  }
}
