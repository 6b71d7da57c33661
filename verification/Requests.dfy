/**
 What becomes of a call's request message: it is written at most once, and runs the
 client's `handle` at most once, across losses, disconnects and reconnects.
 */
module Requests {
  import opened Protocol
  import opened Conversations
  import opened ConversationInvariants

  // The call that issued `id`.
  predicate Issued(s: State, id: Uuid) { id in s.issued && s.issued[id] < |s.calls| }

  function Issuer(s: State, id: Uuid): Call
    requires Issued(s, id)
  {
    s.calls[s.issued[id]]
  }

  // A request under way to connection c is its issuer's, addressed to c, and not yet executed.
  ghost predicate AskSound(s: State, c: nat, id: Uuid, request: HttpRequestData) {
    && Issued(s, id)
    && Issuer(s, id).client == c && Issuer(s, id).request == request && Issuer(s, id).fate == Dispatched
  }

  ghost predicate QueueSound(s: State, c: nat)
    requires c < |s.clients|
  {
    var down := s.clients[c].down;
    && (forall i | 0 <= i < |down| && down[i].Ask? :: AskSound(s, c, down[i].id, down[i].request))
    && (forall i, j | 0 <= i < j < |down| && down[i].Ask? && down[j].Ask? :: down[i].id != down[j].id)
  }

  // A run of `handle` on connection c works on the request that its issuer sent to c, and
  // is the only run for that id.
  ghost predicate ExecSound(s: State, e: nat)
    requires e < |s.execs|
  {
    var x := s.execs[e];
    && x.client < |s.clients|
    && Issued(s, x.id)
    && Issuer(s, x.id).client == x.client && Issuer(s, x.id).request == x.request && Issuer(s, x.id).fate == Executed(e)
  }

  ghost predicate FateSound(s: State, k: nat)
    requires k < |s.calls|
  {
    var call := s.calls[k];
    && (call.phase == New || call.phase == Sending ==> call.fate == Unsent)
    && (call.fate.Executed? ==> call.fate.exec < |s.execs| && s.execs[call.fate.exec].id == call.id)
  }

  ghost predicate RequestsOk(s: State) {
    && (forall c: nat | c < |s.clients| :: QueueSound(s, c))
    && (forall e: nat | e < |s.execs| :: ExecSound(s, e))
    && (forall k: nat | k < |s.calls| :: FateSound(s, k))
  }

  // Requests, runs and their fates are as before; no call went back to before its write.
  ghost predicate SameCalls(s: State, s': State) {
    && s'.issued == s.issued && |s'.calls| == |s.calls|
    && (forall k: nat | k < |s.calls| ::
          && s'.calls[k].id == s.calls[k].id && s'.calls[k].client == s.calls[k].client
          && s'.calls[k].request == s.calls[k].request && s'.calls[k].fate == s.calls[k].fate
          && (s'.calls[k].phase == New || s'.calls[k].phase == Sending ==>
                s.calls[k].phase == New || s.calls[k].phase == Sending))
  }

  ghost predicate SameExecs(s: State, s': State) {
    && |s'.execs| == |s.execs|
    && (forall e: nat | e < |s.execs| ::
          && s'.execs[e].client == s.execs[e].client
          && s'.execs[e].id == s.execs[e].id && s'.execs[e].request == s.execs[e].request)
  }

  // Queues of requests may be cut short or gain an Info, but nothing else.
  predicate NoNewAsk(before: seq<Down>, after: seq<Down>) {
    after <= before || after == before + [Info]
  }

  ghost predicate NoNewAsks(s: State, s': State) {
    && |s.clients| <= |s'.clients|
    && (forall c: nat | c < |s.clients| :: NoNewAsk(s.clients[c].down, s'.clients[c].down))
    && (forall c: nat | |s.clients| <= c < |s'.clients| :: s'.clients[c].down == [])
  }

  lemma QuietKeepsRequests(s: State, s': State)
    requires RequestsOk(s) && SameCalls(s, s') && SameExecs(s, s') && NoNewAsks(s, s')
    ensures RequestsOk(s')
  {
    forall c: nat | c < |s'.clients| ensures QueueSound(s', c) {
      if c < |s.clients| {
        assert QueueSound(s, c);
        var down, down' := s.clients[c].down, s'.clients[c].down;
        forall i | 0 <= i < |down'| && down'[i].Ask? ensures AskSound(s', c, down'[i].id, down'[i].request) {
          assert down'[i] == down[i] && AskSound(s, c, down[i].id, down[i].request);
        }
      }
    }
    forall e: nat | e < |s'.execs| ensures ExecSound(s', e) { assert ExecSound(s, e); }
    forall k: nat | k < |s'.calls| ensures FateSound(s', k) { assert FateSound(s, k); }
  }

  lemma BeginKeepsRequests(s: State, id: Uuid, c: nat, request: HttpRequestData)
    requires HostOk(s) && RequestsOk(s) && id !in s.issued && c < |s.clients|
    ensures RequestsOk(DoBegin(s, id, c, request))
  {
    var s' := DoBegin(s, id, c, request);
    forall d: nat | d < |s'.clients| ensures QueueSound(s', d) {
      assert QueueSound(s, d);
      var down := s.clients[d].down;
      forall i | 0 <= i < |down| && down[i].Ask? ensures AskSound(s', d, down[i].id, down[i].request) {
        assert AskSound(s, d, down[i].id, down[i].request);
      }
    }
    forall e: nat | e < |s'.execs| ensures ExecSound(s', e) { assert ExecSound(s, e); }
    forall k: nat | k < |s'.calls| ensures FateSound(s', k) { assert k < |s.calls| ==> FateSound(s, k); }
  }

  lemma SendKeepsRequests(s: State, k: nat, phase: Phase)
    requires HostOk(s) && RequestsOk(s) && InPhase(s, k, Sending) && s.calls[k].client < |s.clients|
    requires phase == Waiting || phase.Failing?
    ensures RequestsOk(DoSend(s, k, phase, true))
  {
    var s' := DoSend(s, k, phase, true);
    assert CallSound(s, k) && FateSound(s, k);
    forall c: nat | c < |s'.clients| ensures QueueSound(s', c) {
      assert QueueSound(s, c);
      var down, down' := s.clients[c].down, s'.clients[c].down;
      forall i | 0 <= i < |down| && down[i].Ask?
        ensures AskSound(s', c, down[i].id, down[i].request) && down[i].id != s.calls[k].id
      {
        assert AskSound(s, c, down[i].id, down[i].request);
      }
      forall i | 0 <= i < |down'| && down'[i].Ask? ensures AskSound(s', c, down'[i].id, down'[i].request) {
        assert i < |down| ==> down'[i] == down[i];
      }
    }
    forall e: nat | e < |s'.execs| ensures ExecSound(s', e) { assert ExecSound(s, e); }
    forall j: nat | j < |s'.calls| ensures FateSound(s', j) { assert FateSound(s, j); }
  }

  lemma TakeKeepsQueue(s: State, c: nat, d: nat)
    requires HostOk(s) && RequestsOk(s) && c < |s.clients| && s.clients[c].down != [] && d < |s.clients|
    ensures QueueSound(DoTakeRequest(s, c), d)
  {
    var s' := DoTakeRequest(s, c);
    var first := s.clients[c].down[0];
    assert QueueSound(s, c) && QueueSound(s, d);
    if first.Ask? { assert AskSound(s, c, first.id, first.request) && IdSound(s, first.id); }
    var down, down' := s.clients[d].down, s'.clients[d].down;
    assert down' == if d == c then down[1..] else down;
    forall i | 0 <= i < |down'| && down'[i].Ask? ensures AskSound(s', d, down'[i].id, down'[i].request) {
      var from := if d == c then i + 1 else i;
      assert down'[i] == down[from];
      var id := down[from].id;
      assert AskSound(s, d, id, down[from].request) && IdSound(s, id);
      assert first.Ask? ==> first.id != id;
    }
  }

  lemma TakeKeepsRequests(s: State, c: nat)
    requires HostOk(s) && RequestsOk(s) && c < |s.clients| && s.clients[c].down != []
    ensures RequestsOk(DoTakeRequest(s, c))
  {
    var s' := DoTakeRequest(s, c);
    var first := s.clients[c].down[0];
    assert QueueSound(s, c);
    if first.Ask? { assert AskSound(s, c, first.id, first.request) && IdSound(s, first.id); }
    forall d: nat | d < |s'.clients| ensures QueueSound(s', d) { TakeKeepsQueue(s, c, d); }
    forall e: nat | e < |s'.execs| ensures ExecSound(s', e) { assert e < |s.execs| ==> ExecSound(s, e); }
    forall k: nat | k < |s'.calls| ensures FateSound(s', k) { assert FateSound(s, k); }
  }

  lemma LostSendIsQuiet(s: State, k: nat)
    requires InPhase(s, k, Sending) && s.calls[k].client < |s.clients|
    ensures var s' := DoSend(s, k, Failing(SendError), false); SameCalls(s, s') && SameExecs(s, s') && NoNewAsks(s, s')
  {}

  lemma CallerIsQuiet(s: State, step: Step)
    requires Enabled(s, step)
    requires step.Enter? || step.Receive? || step.GiveUp? || step.Cleanup? || step.Count? || step.Log?
    ensures SameCalls(s, Apply(s, step)) && SameExecs(s, Apply(s, step)) && NoNewAsks(s, Apply(s, step))
  {}

  lemma HostIsQuiet(s: State, step: Step)
    requires Enabled(s, step)
    requires step.Connect? || step.PushInfo? || step.Read? || step.Route? || step.Deliver? || step.EndRead?
    ensures SameCalls(s, Apply(s, step)) && SameExecs(s, Apply(s, step)) && NoNewAsks(s, Apply(s, step))
  {}

  lemma RemoteIsQuiet(s: State, step: Step)
    requires Enabled(s, step)
    requires step.Handle? || step.Reply? || step.Disconnect? || step.Inject?
    ensures SameCalls(s, Apply(s, step)) && SameExecs(s, Apply(s, step)) && NoNewAsks(s, Apply(s, step))
  {}

  lemma QuietStepKeepsRequests(s: State, step: Step)
    requires RequestsOk(s) && Enabled(s, step)
    requires !(step.Begin? || step.Send? || step.TakeRequest? || (step.FailSend? && step.arrived))
    ensures RequestsOk(Apply(s, step))
  {
    var s' := Apply(s, step);
    assert SameCalls(s, s') && SameExecs(s, s') && NoNewAsks(s, s') by {
      if step.Handle? || step.Reply? || step.Disconnect? || step.Inject? {
        RemoteIsQuiet(s, step);
      } else if step.Connect? || step.PushInfo? || step.Read? || step.Route? || step.Deliver? || step.EndRead? {
        HostIsQuiet(s, step);
      } else if step.FailSend? {
        LostSendIsQuiet(s, step.call);
      } else {
        CallerIsQuiet(s, step);
      }
    }
    QuietKeepsRequests(s, s');
  }

  lemma StepKeepsRequests(s: State, step: Step)
    requires HostOk(s) && RequestsOk(s) && Enabled(s, step)
    ensures RequestsOk(Apply(s, step))
  {
    if step.Begin? {
      BeginKeepsRequests(s, step.id, step.client, step.request);
    } else if step.Send? {
      SendKeepsRequests(s, step.call, Waiting);
    } else if step.FailSend? && step.arrived {
      SendKeepsRequests(s, step.call, Failing(SendError));
    } else if step.TakeRequest? {
      TakeKeepsRequests(s, step.client);
    } else {
      QuietStepKeepsRequests(s, step);
    }
  }
}
