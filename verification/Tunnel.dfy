/**
 Leases, routing and conversations run together: a handler's connection exists from the
 moment it publishes, gives its lease back only after its read pump has ended, and each
 forwarded request goes to the connection its Host header was resolved to.
 */
module Tunnel {
  import opened Ascii
  import opened Protocol
  import Lease
  import opened Conversations
  import opened RecentWindow
  import ConversationInvariants
  import ConversationTheorems
  import History
  import Progress
  import opened HttpServer

  // One lookup by the HTTP listener: the Host header and the handler it resolved to.
  datatype Route = Route(host: string, handler: nat)

  // `connOf` gives each published handler's connection; `routes` are the lookups made, and
  // routeOf[k] is the one that led to call k.
  datatype State = State(
    lease: Lease.State, conv: Conversations.State, connOf: map<nat, nat>, routes: seq<Route>,
    routeOf: seq<nat>)

  datatype Step =
    | Leasing(lease: Lease.Step)
    | GoLive(h: nat, user: UserId)
    | Conversing(conv: Conversations.Step)
    | LookUp(host: string, h: nat)
    | Forward(route: nat, id: Uuid, request: HttpRequestData)

  predicate PumpHasEnded(s: State, h: nat) {
    h in s.connOf && s.connOf[h] < |s.conv.clients| && s.conv.clients[s.connOf[h]].reader == Ended
  }

  ghost predicate Enabled(s: State, step: Step) {
    match step
    case Leasing(l) =>
      && !l.Publish? && Lease.Enabled(s.lease, l)
      && (l.Drop? ==> PumpHasEnded(s, l.h))
    case GoLive(h, user) => Lease.Enabled(s.lease, Lease.Publish(h))
    case Conversing(c) => !c.Begin? && !c.Connect? && Conversations.Enabled(s.conv, c)
    case LookUp(host, h) => CanResolve(s.lease.clients, None, host, Some(h))
    case Forward(r, id, request) =>
      && r < |s.routes| && s.routes[r].handler in s.connOf
      && Conversations.Enabled(s.conv, Begin(id, s.connOf[s.routes[r].handler], request))
  }

  ghost function Apply(s: State, step: Step): State
    requires Enabled(s, step)
  {
    match step
    case Leasing(l) => s.(lease := Lease.Apply(s.lease, l))
    case GoLive(h, user) =>
      s.(lease := Lease.Apply(s.lease, Lease.Publish(h)), conv := Conversations.Apply(s.conv, Connect(user)),
         connOf := s.connOf[h := |s.conv.clients|])
    case Conversing(c) => s.(conv := Conversations.Apply(s.conv, c))
    case LookUp(host, h) => s.(routes := s.routes + [Route.Route(host, h)])
    case Forward(r, id, request) =>
      s.(conv := Conversations.Apply(s.conv, Begin(id, s.connOf[s.routes[r].handler], request)),
         routeOf := s.routeOf + [r])
  }

  ghost predicate Valid(s: State, steps: seq<Step>)
    decreases |steps|
  {
    steps == [] || (Enabled(s, steps[0]) && Valid(Apply(s, steps[0]), steps[1..]))
  }

  ghost function After(s: State, steps: seq<Step>): State
    requires Valid(s, steps)
    decreases |steps|
  {
    if steps == [] then s else After(Apply(s, steps[0]), steps[1..])
  }

  function Initial(pool: seq<string>): State { State.State(Lease.Initial(pool), Conversations.INITIAL, map[], [], []) }

  lemma {:induction false} LastStep(s: State, steps: seq<Step>)
    requires steps != [] && Valid(s, steps)
    ensures var front, last := steps[..|steps| - 1], steps[|steps| - 1];
            && Valid(s, front) && Enabled(After(s, front), last)
            && After(s, steps) == Apply(After(s, front), last)
    decreases |steps|
  {
    var front := steps[..|steps| - 1];
    if |steps| == 1 {
      assert steps[1..] == [];
    } else {
      assert steps[1..][..|steps| - 2] == front[1..];
      LastStep(Apply(s, steps[0]), steps[1..]);
    }
  }

  lemma ConversationStepReachable(s: Conversations.State, step: Conversations.Step, id: Uuid,
                                  response: HttpResponseData)
    requires ReachableUnforged(s, id, response) && Conversations.Enabled(s, step) && !Injects(step, id, response)
    ensures ReachableUnforged(Conversations.Apply(s, step), id, response)
  {
    var steps :|
      Unforged(steps, id, response) && Conversations.Valid(INITIAL, steps) && Conversations.After(INITIAL, steps) == s;
    OneStep(s, step);
    RunsJoin(INITIAL, steps, [step]);
    assert Unforged(steps + [step], id, response);
  }

  predicate WasLive(s: State, h: nat) { Lease.At(s.lease, h, Lease.Live) || Lease.At(s.lease, h, Lease.Gone) }

  ghost predicate CallSound(s: State, k: nat)
    requires k < |s.conv.calls| == |s.routeOf|
  {
    && s.routeOf[k] < |s.routes|
    && s.routes[s.routeOf[k]].handler in s.connOf
    && s.conv.calls[k].client == s.connOf[s.routes[s.routeOf[k]].handler]
  }

  // Each published handler has a connection of its own, looked up handlers are published,
  // and each call goes to the connection of the handler its header was resolved to.
  ghost predicate Inv(s: State) {
    && Lease.Reachable(s.lease)
    && |s.conv.calls| == |s.routeOf|
    && (forall h | h in s.connOf :: WasLive(s, h) && s.connOf[h] < |s.conv.clients|)
    && (forall h: nat | Lease.At(s.lease, h, Lease.Live) :: h in s.connOf)
    && (forall g, h | g in s.connOf && h in s.connOf && g != h :: s.connOf[g] != s.connOf[h])
    && (forall r: nat | r < |s.routes| :: s.routes[r].handler in s.connOf)
    && (forall k: nat | k < |s.conv.calls| :: CallSound(s, k))
  }

  // The step of the multiplexer that a joint step takes, if any.
  function ConvStep(s: State, step: Step): Option<Conversations.Step> {
    match step
    case GoLive(_, user) => Some(Connect(user))
    case Conversing(c) => Some(c)
    case Forward(r, id, request) =>
      if r < |s.routes| && s.routes[r].handler in s.connOf then
        Some(Begin(id, s.connOf[s.routes[r].handler], request))
      else None
    case _ => None
  }

  lemma ConvStepApplies(s: State, step: Step)
    requires Enabled(s, step)
    ensures match ConvStep(s, step)
            case None => Apply(s, step).conv == s.conv
            case Some(c) => Conversations.Enabled(s.conv, c) && Apply(s, step).conv == Conversations.Apply(s.conv, c)
  {}

  lemma ConvStepAdds(s: State, step: Step)
    requires Enabled(s, step)
    ensures if ConvStep(s, step).Some? then History.Adds(s.conv, ConvStep(s, step).value, Apply(s, step).conv)
            else Apply(s, step).conv == s.conv
  {
    ConvStepApplies(s, step);
    if ConvStep(s, step).Some? { History.StepAdds(s.conv, ConvStep(s, step).value); }
  }

  // What a step leaves as it was: lookups made, connections of handlers, calls started.
  ghost predicate Extends(s: State, s': State) {
    && s.routes <= s'.routes && s.routeOf <= s'.routeOf
    && (forall h | h in s.connOf :: h in s'.connOf && s'.connOf[h] == s.connOf[h])
    && |s.conv.calls| <= |s'.conv.calls|
    && forall k: nat | k < |s.conv.calls| :: History.SameCall(s.conv.calls[k], s'.conv.calls[k])
  }

  lemma StepExtends(s: State, step: Step)
    requires Inv(s) && Enabled(s, step)
    ensures Extends(s, Apply(s, step))
  {
    ConvStepAdds(s, step);
    assert step.GoLive? ==> step.h !in s.connOf;
  }

  lemma ExtendsKeepsCall(s: State, s': State, k: nat)
    requires |s.conv.calls| == |s.routeOf| && |s'.conv.calls| == |s'.routeOf| && Extends(s, s')
    requires k < |s.conv.calls| && CallSound(s, k)
    ensures CallSound(s', k)
  {}

  lemma LeaseKeepsLive(s: State, s': State, step: Lease.Step)
    requires Lease.Enabled(s.lease, step) && s'.lease == Lease.Apply(s.lease, step)
    ensures forall h: nat | WasLive(s, h) :: WasLive(s', h)
    ensures forall h: nat | Lease.At(s'.lease, h, Lease.Live) ::
              Lease.At(s.lease, h, Lease.Live) || step == Lease.Publish(h)
  {}

  // Handler h is live, and under the name the Host header begins with it is the one holder;
  // a local label may stand for any live handler.
  ghost predicate Answers(s: Lease.State, host: string, h: nat) {
    var segment := FirstLabel(host);
    && Lease.At(s, h, Lease.Live)
    && (!IsLocal(segment) ==>
          && EqualFold(s.handlers[h].name, segment)
          && forall g: nat | Lease.Holds(s, g) && EqualFold(s.handlers[g].name, segment) :: g == h)
  }

  lemma LookedUpAnswers(s: Lease.State, host: string, h: nat)
    requires Lease.Reachable(s) && CanResolve(s.clients, None, host, Some(h))
    ensures Answers(s, host, h)
  {
    var name := FirstLabel(host);
    if IsLocal(name) {
      LocalAnswersAreLive(s, host, Some(h));
    } else {
      Lease.LookupFindsTheLiveHolder(s, name, h);
      Lease.LeaseOwnership(s);
      forall g: nat | Lease.Holds(s, g) && EqualFold(s.handlers[g].name, name) ensures g == h {
        LowerDecidesEqualFold(s.handlers[g].name, name);
        LowerDecidesEqualFold(s.handlers[h].name, name);
        assert Lease.Key(s, g) == Lease.Key(s, h);
      }
    }
  }

  lemma LeaseStepKeepsInv(s: State, step: Step)
    requires Inv(s) && Enabled(s, step) && (step.Leasing? || step.GoLive?)
    ensures Inv(Apply(s, step))
  {
    var s', lease := Apply(s, step), if step.Leasing? then step.lease else Lease.Publish(step.h);
    StepExtends(s, step);
    Lease.StepIsReachable(s.lease, lease);
    LeaseKeepsLive(s, s', lease);
    forall k: nat | k < |s'.conv.calls| ensures CallSound(s', k) { ExtendsKeepsCall(s, s', k); }
  }

  lemma OtherStepKeepsInv(s: State, step: Step)
    requires Inv(s) && Enabled(s, step) && !step.Leasing? && !step.GoLive?
    ensures Inv(Apply(s, step))
  {
    var s' := Apply(s, step);
    StepExtends(s, step);
    if step.Conversing? {
      ConvStepAdds(s, step);
    } else if step.LookUp? {
      LookedUpAnswers(s.lease, step.host, step.h);
    }
    forall k: nat | k < |s'.conv.calls| ensures CallSound(s', k) {
      if k < |s.conv.calls| { ExtendsKeepsCall(s, s', k); }
    }
  }

  lemma StepKeepsInv(s: State, step: Step)
    requires Inv(s) && Enabled(s, step)
    ensures Inv(Apply(s, step))
  {
    if step.Leasing? || step.GoLive? {
      LeaseStepKeepsInv(s, step);
    } else {
      OtherStepKeepsInv(s, step);
    }
  }

  lemma InitialInv(pool: seq<string>)
    ensures Inv(Initial(pool))
  {
    var s := Initial(pool);
    assert Lease.Valid(s.lease, []) && Lease.After(s.lease, []) == s.lease;
  }

  lemma {:induction false} RunKeepsInv(s: State, steps: seq<Step>)
    requires Inv(s) && Valid(s, steps)
    ensures Inv(After(s, steps))
    decreases |steps|
  {
    if steps != [] {
      StepKeepsInv(s, steps[0]);
      RunKeepsInv(Apply(s, steps[0]), steps[1..]);
    }
  }

  // Step i of the run made the r-th lookup, with this result, which was right at that moment.
  ghost predicate LookedUpAt(s: State, steps: seq<Step>, i: nat, r: nat, route: Route) {
    && i < |steps| && steps[i] == LookUp(route.host, route.handler)
    && Valid(s, steps[..i])
    && |After(s, steps[..i]).routes| == r
    && Answers(After(s, steps[..i]).lease, route.host, route.handler)
  }

  // Step j of the run started call k, with the request and for the lookup it bears.
  ghost predicate ForwardedAt(s: State, steps: seq<Step>, j: nat, k: nat, r: nat, call: Call) {
    && j < |steps| && steps[j] == Forward(r, call.id, call.request)
    && Valid(s, steps[..j])
    && |After(s, steps[..j]).conv.calls| == k
  }

  ghost predicate RouteRecorded(s: State, steps: seq<Step>, r: nat)
    requires Valid(s, steps) && r < |After(s, steps).routes|
  {
    exists i: nat :: LookedUpAt(s, steps, i, r, After(s, steps).routes[r])
  }

  ghost predicate CallRecorded(s: State, steps: seq<Step>, k: nat)
    requires Valid(s, steps)
  {
    var t := After(s, steps);
    && k < |t.conv.calls| && k < |t.routeOf| && t.routeOf[k] < |t.routes|
    && exists i: nat, j: nat ::
         && i < j
         && LookedUpAt(s, steps, i, t.routeOf[k], t.routes[t.routeOf[k]])
         && ForwardedAt(s, steps, j, k, t.routeOf[k], t.conv.calls[k])
  }

  lemma EarlierLookup(s: State, front: seq<Step>, steps: seq<Step>, i: nat, r: nat, route: Route)
    requires front <= steps && LookedUpAt(s, front, i, r, route)
    ensures LookedUpAt(s, steps, i, r, route)
  {
    assert steps[..i] == front[..i];
  }

  lemma EarlierForward(s: State, front: seq<Step>, steps: seq<Step>, j: nat, k: nat, r: nat, call: Call, call': Call)
    requires front <= steps && ForwardedAt(s, front, j, k, r, call)
    requires call'.id == call.id && call'.request == call.request
    ensures ForwardedAt(s, steps, j, k, r, call')
  {
    assert steps[..j] == front[..j];
  }

  // What a step adds: a lookup that was right, or a call with the request and for the
  // lookup that the step names.
  ghost predicate Grows(s: State, step: Step, s': State) {
    && Extends(s, s')
    && (|s'.routes| == |s.routes| || AddsRoute(s, step, s'))
    && (|s'.conv.calls| == |s.conv.calls| || AddsCall(s, step, s'))
  }

  ghost predicate AddsRoute(s: State, step: Step, s': State) {
    && step.LookUp? && s'.routes == s.routes + [Route.Route(step.host, step.h)]
    && Answers(s.lease, step.host, step.h)
  }

  ghost predicate AddsCall(s: State, step: Step, s': State) {
    var k := |s.conv.calls|;
    && step.Forward? && step.route < |s.routes|
    && |s'.conv.calls| == k + 1 && k < |s'.routeOf| && s'.routeOf[k] == step.route
    && s'.conv.calls[k].id == step.id && s'.conv.calls[k].request == step.request
  }

  lemma StepGrows(s: State, step: Step)
    requires Inv(s) && Enabled(s, step)
    ensures Grows(s, step, Apply(s, step))
  {
    StepExtends(s, step);
    if step.Conversing? {
      ConvStepAdds(s, step);
    } else if step.LookUp? {
      LookedUpAnswers(s.lease, step.host, step.h);
    }
  }

  lemma RunGrows(s: State, steps: seq<Step>)
    requires Inv(s) && Valid(s, steps) && steps != []
    ensures Valid(s, steps[..|steps| - 1])
    ensures Grows(After(s, steps[..|steps| - 1]), steps[|steps| - 1], After(s, steps))
  {
    LastStep(s, steps);
    RunKeepsInv(s, steps[..|steps| - 1]);
    StepGrows(After(s, steps[..|steps| - 1]), steps[|steps| - 1]);
  }

  // Every lookup on record was made in the run, and gave the holder of that moment.
  lemma {:induction false} RouteIsRecorded(s: State, steps: seq<Step>, r: nat)
    requires Inv(s) && s.routes == [] && Valid(s, steps) && r < |After(s, steps).routes|
    ensures RouteRecorded(s, steps, r)
    decreases |steps|
  {
    if steps != [] {
      var front := steps[..|steps| - 1];
      RunGrows(s, steps);
      var before, after := After(s, front), After(s, steps);
      if r < |before.routes| {
        RouteIsRecorded(s, front, r);
        var i: nat :| LookedUpAt(s, front, i, r, before.routes[r]);
        EarlierLookup(s, front, steps, i, r, after.routes[r]);
      } else {
        assert LookedUpAt(s, steps, |front|, r, after.routes[r]);
      }
    }
  }

  lemma OldCallIsRecorded(s: State, front: seq<Step>, steps: seq<Step>, k: nat)
    requires front <= steps && Valid(s, front) && Valid(s, steps) && Extends(After(s, front), After(s, steps))
    requires CallRecorded(s, front, k)
    ensures CallRecorded(s, steps, k)
  {
    var before, after := After(s, front), After(s, steps);
    var r := before.routeOf[k];
    var i: nat, j: nat :| i < j && LookedUpAt(s, front, i, r, before.routes[r])
                       && ForwardedAt(s, front, j, k, r, before.conv.calls[k]);
    assert after.routeOf[k] == r && after.routes[r] == before.routes[r];
    EarlierLookup(s, front, steps, i, r, after.routes[r]);
    EarlierForward(s, front, steps, j, k, r, before.conv.calls[k], after.conv.calls[k]);
  }

  lemma NewCallFrom(s: State, front: seq<Step>, steps: seq<Step>, k: nat, before: State, after: State, step: Step)
    requires Inv(s) && s.routes == [] && Valid(s, steps) && Valid(s, front)
    requires front < steps && front == steps[..|front|] && steps[|front|] == step
    requires After(s, front) == before && After(s, steps) == after && |before.conv.calls| == k
    requires AddsCall(before, step, after) && Extends(before, after)
    ensures CallRecorded(s, steps, k)
  {
    var r := step.route;
    RouteIsRecorded(s, front, r);
    var i: nat :| LookedUpAt(s, front, i, r, before.routes[r]);
    assert after.routes[r] == before.routes[r] && after.routeOf[k] == r;
    EarlierLookup(s, front, steps, i, r, after.routes[r]);
    assert i < |front|;
    assert ForwardedAt(s, steps, |front|, k, r, after.conv.calls[k]);
  }

  lemma NewCallIsRecorded(s: State, front: seq<Step>, steps: seq<Step>, k: nat)
    requires Inv(s) && s.routes == [] && Valid(s, steps) && steps != [] && front == steps[..|steps| - 1]
    requires Valid(s, front) && Grows(After(s, front), steps[|front|], After(s, steps))
    requires |After(s, front).conv.calls| == k < |After(s, steps).conv.calls|
    ensures CallRecorded(s, steps, k)
  {
    var before, after, step := After(s, front), After(s, steps), steps[|front|];
    assert AddsCall(before, step, after) && Extends(before, after);
    NewCallFrom(s, front, steps, k, before, after, step);
  }

  // Every call was started in the run, after the lookup it bears.
  lemma {:induction false} CallIsRecorded(s: State, steps: seq<Step>, k: nat)
    requires Inv(s) && s.routes == [] && s.conv.calls == [] && Valid(s, steps) && k < |After(s, steps).conv.calls|
    ensures CallRecorded(s, steps, k)
    decreases |steps|
  {
    if steps != [] {
      var front := steps[..|steps| - 1];
      RunGrows(s, steps);
      if k < |After(s, front).conv.calls| {
        CallIsRecorded(s, front, k);
        OldCallIsRecorded(s, front, steps, k);
      } else {
        NewCallIsRecorded(s, front, steps, k);
      }
    }
  }

  // Does the step put just this answer on a connection?
  predicate Forges(step: Step, id: Uuid, response: HttpResponseData) {
    step.Conversing? && Injects(step.conv, id, response)
  }

  lemma {:induction false} ConversationIsReachable(s: State, steps: seq<Step>, id: Uuid, response: HttpResponseData)
    requires ReachableUnforged(s.conv, id, response) && Valid(s, steps)
    requires forall i | 0 <= i < |steps| :: !Forges(steps[i], id, response)
    ensures ReachableUnforged(After(s, steps).conv, id, response)
    decreases |steps|
  {
    if steps != [] {
      var step, s' := steps[0], Apply(s, steps[0]);
      assert !Forges(step, id, response);
      if step.GoLive? {
        ConversationStepReachable(s.conv, Connect(step.user), id, response);
      } else if step.Conversing? {
        ConversationStepReachable(s.conv, step.conv, id, response);
      } else if step.Forward? {
        var client := s.connOf[s.routes[step.route].handler];
        ConversationStepReachable(s.conv, Begin(step.id, client, step.request), id, response);
      }
      ConversationIsReachable(s', steps[1..], id, response);
    }
  }

  // What was looked up can be forwarded to at any later moment, under a fresh id, even if
  // the handler has given its name back since.
  lemma LookedUpCanBeForwarded(pool: seq<string>, steps: seq<Step>, r: nat, id: Uuid, request: HttpRequestData)
    requires Valid(Initial(pool), steps)
    requires r < |After(Initial(pool), steps).routes| && id !in After(Initial(pool), steps).conv.issued
    ensures Enabled(After(Initial(pool), steps), Forward(r, id, request))
  {
    InitialInv(pool);
    RunKeepsInv(Initial(pool), steps);
  }

  // End to end.  A response returned by a call was produced by `handle`, on that very
  // request, at the connection of one handler and of no other: the one that was live, and
  // the one holder of the name, at the moment when the Host header that led to the call was
  // looked up.  Clients may send whatever they like, but for that very answer.
  lemma ServedByTheNameHolder(pool: seq<string>, steps: seq<Step>, k: nat, response: HttpResponseData)
    requires Valid(Initial(pool), steps)
    requires var calls := After(Initial(pool), steps).conv.calls;
             && k < |calls| && calls[k].phase == Returned(Ok(response))
             && forall i | 0 <= i < |steps| :: !Forges(steps[i], calls[k].id, response)
    ensures CallRecorded(Initial(pool), steps, k)
    ensures var s := After(Initial(pool), steps);
            var h := s.routes[s.routeOf[k]].handler;
            && h in s.connOf
            && (exists e: nat :: ConversationTheorems.Serves(s.conv, e, k)
                              && Produced(s.conv.execs[e].run) == Some(response)
                              && s.conv.execs[e].client == s.connOf[h])
            && (forall g | g in s.connOf && s.connOf[g] == s.connOf[h] :: g == h)
  {
    var s, id := After(Initial(pool), steps), After(Initial(pool), steps).conv.calls[k].id;
    InitialInv(pool);
    RunKeepsInv(Initial(pool), steps);
    CallIsRecorded(Initial(pool), steps, k);
    assert CallSound(s, k);
    assert ReachableUnforged(INITIAL, id, response) by {
      assert Unforged([], id, response);
      assert Conversations.Valid(INITIAL, []) && Conversations.After(INITIAL, []) == INITIAL;
    }
    ConversationIsReachable(Initial(pool), steps, id, response);
    ConversationTheorems.NoCrossedWires(s.conv, k, response);
  }

  // Users.

  // Handler h is published, with a connection of this user.
  ghost predicate ConnectedAs(s: State, h: nat, user: UserId) {
    h in s.connOf && s.connOf[h] < |s.conv.clients| && s.conv.clients[s.connOf[h]].user == user
  }

  lemma StepConnects(s: State, step: Step, h: nat, user: UserId)
    requires Inv(s) && Enabled(s, step)
    ensures ConnectedAs(Apply(s, step), h, user) <==> ConnectedAs(s, h, user) || step == GoLive(h, user)
  {
    ConvStepAdds(s, step);
    assert step.GoLive? ==> step.h !in s.connOf;
  }

  lemma {:induction false} RunConnects(s: State, steps: seq<Step>, h: nat, user: UserId)
    requires Inv(s) && Valid(s, steps)
    ensures ConnectedAs(After(s, steps), h, user) <==>
            ConnectedAs(s, h, user) || exists j :: 0 <= j < |steps| && steps[j] == GoLive(h, user)
    decreases |steps|
  {
    if steps != [] {
      var rest := steps[1..];
      StepConnects(s, steps[0], h, user);
      StepKeepsInv(s, steps[0]);
      RunConnects(Apply(s, steps[0]), rest, h, user);
      if j :| 0 <= j < |rest| && rest[j] == GoLive(h, user) {
        assert steps[j + 1] == GoLive(h, user);
      }
      if j :| 0 <= j < |steps| && steps[j] == GoLive(h, user) {
        assert j > 0 ==> rest[j - 1] == GoLive(h, user);
      }
    }
  }

  // A handler's connection is the user's who went live on it.
  lemma ConnectionsBearTheirUsers(pool: seq<string>, steps: seq<Step>, h: nat, user: UserId)
    requires Valid(Initial(pool), steps)
    ensures ConnectedAs(After(Initial(pool), steps), h, user)
            <==> exists j :: 0 <= j < |steps| && steps[j] == GoLive(h, user)
  {
    InitialInv(pool);
    RunConnects(Initial(pool), steps, h, user);
  }

  // The multiplexer's part of a joint run.
  ghost function ConvSteps(s: State, steps: seq<Step>): seq<Conversations.Step>
    requires Valid(s, steps)
    decreases |steps|
  {
    if steps == [] then []
    else if ConvStep(s, steps[0]).None? then ConvSteps(Apply(s, steps[0]), steps[1..])
    else [ConvStep(s, steps[0]).value] + ConvSteps(Apply(s, steps[0]), steps[1..])
  }

  lemma {:induction false} ConvRuns(s: State, steps: seq<Step>)
    requires Valid(s, steps)
    ensures Conversations.Valid(s.conv, ConvSteps(s, steps))
    ensures Conversations.After(s.conv, ConvSteps(s, steps)) == After(s, steps).conv
    decreases |steps|
  {
    if steps != [] {
      var s' := Apply(s, steps[0]);
      ConvStepApplies(s, steps[0]);
      ConvRuns(s', steps[1..]);
      if ConvStep(s, steps[0]).Some? {
        OneStep(s.conv, ConvStep(s, steps[0]).value);
        RunsJoin(s.conv, [ConvStep(s, steps[0]).value], ConvSteps(s', steps[1..]));
      }
    }
  }

  // The row is that of call k, which went to the handler on which the row's user went live.
  ghost predicate RowBears(s: State, steps: seq<Step>, entry: Entry, k: nat, time: int) {
    && History.RowIs(s.conv, entry, Conversations.Step.Log(k, time))
    && k < |s.routeOf| && s.routeOf[k] < |s.routes|
    && exists j :: 0 <= j < |steps| && steps[j] == GoLive(s.routes[s.routeOf[k]].handler, entry.user)
  }

  // Whoever reads a row of the portal is the user who connected the tunnel that the request
  // went through.
  lemma RowsBearTheirUsers(pool: seq<string>, steps: seq<Step>, i: nat)
    requires Valid(Initial(pool), steps) && i < |After(Initial(pool), steps).conv.log|
    ensures var s := After(Initial(pool), steps);
            exists k: nat, time :: RowBears(s, steps, s.conv.log[i], k, time)
  {
    var s, conv := After(Initial(pool), steps), ConvSteps(Initial(pool), steps);
    ConvRuns(Initial(pool), steps);
    History.RunLogs(INITIAL, conv);
    RowHasHandler(pool, steps, s.conv.log[i], History.Logs(conv)[i]);
  }

  lemma RowHasHandler(pool: seq<string>, steps: seq<Step>, entry: Entry, logStep: Conversations.Step)
    requires Valid(Initial(pool), steps) && History.RowIs(After(Initial(pool), steps).conv, entry, logStep)
    ensures RowBears(After(Initial(pool), steps), steps, entry, logStep.call, logStep.time)
  {
    var s, k := After(Initial(pool), steps), logStep.call;
    InitialInv(pool);
    RunKeepsInv(Initial(pool), steps);
    assert CallSound(s, k);
    ConvRuns(Initial(pool), steps);
    ConversationTheorems.RunKeepsGood(INITIAL, ConvSteps(Initial(pool), steps));
    assert ConversationInvariants.CallSound(s.conv, k);
    ConnectionsBearTheirUsers(pool, steps, s.routes[s.routeOf[k]].handler, entry.user);
  }

  // A name is given back only after its read pump has ended.

  ghost predicate PumpsOk(s: State) {
    forall h | h in s.connOf && Lease.At(s.lease, h, Lease.Gone) :: PumpHasEnded(s, h)
  }

  ghost predicate EndedIn(s: Conversations.State, c: nat) { c < |s.clients| && s.clients[c].reader == Ended }

  lemma CallerLeavesEnded(s: Conversations.State, step: Conversations.Step, c: nat)
    requires Conversations.Enabled(s, step) && EndedIn(s, c)
    requires step.Begin? || step.Enter? || step.Send? || step.FailSend? || step.Receive? || step.GiveUp?
          || step.Cleanup? || step.Count? || step.Log?
    ensures EndedIn(Conversations.Apply(s, step), c)
  {}

  lemma OtherLeavesEnded(s: Conversations.State, step: Conversations.Step, c: nat)
    requires Conversations.Enabled(s, step) && EndedIn(s, c)
    requires step.Connect? || step.PushInfo? || step.Read? || step.Route? || step.Deliver? || step.EndRead?
          || step.TakeRequest? || step.Handle? || step.Reply? || step.Disconnect? || step.Inject?
    ensures EndedIn(Conversations.Apply(s, step), c)
  {}

  lemma EndedStays(s: Conversations.State, step: Conversations.Step, c: nat)
    requires Conversations.Enabled(s, step) && EndedIn(s, c)
    ensures EndedIn(Conversations.Apply(s, step), c)
  {
    if step.Begin? || step.Enter? || step.Send? || step.FailSend? || step.Receive? || step.GiveUp?
       || step.Cleanup? || step.Count? || step.Log? {
      CallerLeavesEnded(s, step, c);
    } else {
      OtherLeavesEnded(s, step, c);
    }
  }

  lemma StepKeepsPumps(s: State, step: Step)
    requires Inv(s) && PumpsOk(s) && Enabled(s, step)
    ensures PumpsOk(Apply(s, step))
  {
    var s' := Apply(s, step);
    ConvStepApplies(s, step);
    forall h | h in s'.connOf && Lease.At(s'.lease, h, Lease.Gone) ensures PumpHasEnded(s', h) {
      StepExtends(s, step);
      if PumpHasEnded(s, h) && ConvStep(s, step).Some? {
        EndedStays(s.conv, ConvStep(s, step).value, s.connOf[h]);
      }
    }
  }

  lemma {:induction false} RunKeepsPumps(s: State, steps: seq<Step>)
    requires Inv(s) && PumpsOk(s) && Valid(s, steps)
    ensures PumpsOk(After(s, steps))
    decreases |steps|
  {
    if steps != [] {
      StepKeepsPumps(s, steps[0]);
      StepKeepsInv(s, steps[0]);
      RunKeepsPumps(Apply(s, steps[0]), steps[1..]);
    }
  }

  // While a published handler's read pump runs the handler keeps its name, so nobody else is
  // given it.
  lemma NameOutlivesPump(pool: seq<string>, steps: seq<Step>, h: nat)
    requires Valid(Initial(pool), steps) && h in After(Initial(pool), steps).connOf
    ensures var s := After(Initial(pool), steps);
            !PumpHasEnded(s, h) ==>
              && Lease.At(s.lease, h, Lease.Live)
              && forall g: nat | Lease.Holds(s.lease, g) && g != h ::
                   !EqualFold(s.lease.handlers[g].name, s.lease.handlers[h].name)
  {
    var s := After(Initial(pool), steps);
    InitialInv(pool);
    RunKeepsInv(Initial(pool), steps);
    RunKeepsPumps(Initial(pool), steps);
    Lease.LeaseOwnership(s.lease);
  }

  // What can still happen.

  // Steps of the multiplexer, taken in a joint run.
  function Lifted(steps: seq<Conversations.Step>): seq<Step> {
    if steps == [] then [] else [Conversing(steps[0])] + Lifted(steps[1..])
  }

  lemma {:induction false} LiftedRuns(s: State, steps: seq<Conversations.Step>)
    requires Conversations.Valid(s.conv, steps)
    requires forall i | 0 <= i < |steps| :: !steps[i].Begin? && !steps[i].Connect?
    ensures Valid(s, Lifted(steps))
    ensures After(s, Lifted(steps)) == s.(conv := Conversations.After(s.conv, steps))
    decreases |steps|
  {
    if steps != [] {
      var s' := Apply(s, Conversing(steps[0]));
      assert Lifted(steps)[1..] == Lifted(steps[1..]);
      LiftedRuns(s', steps[1..]);
    }
  }

  lemma {:induction false} RunsJoinUp(s: State, first: seq<Step>, second: seq<Step>)
    requires Valid(s, first) && Valid(After(s, first), second)
    ensures Valid(s, first + second)
    ensures After(s, first + second) == After(After(s, first), second)
    decreases |first|
  {
    if first == [] {
      assert first + second == second;
    } else {
      assert (first + second)[1..] == first[1..] + second;
      RunsJoinUp(Apply(s, first[0]), first[1..], second);
    }
  }

  lemma OneStepUp(s: State, step: Step)
    requires Enabled(s, step)
    ensures Valid(s, [step]) && After(s, [step]) == Apply(s, step)
  {
    assert [step][1..] == [];
  }

  lemma ConvIsReachable(pool: seq<string>, steps: seq<Step>)
    requires Valid(Initial(pool), steps)
    ensures Conversations.Reachable(After(Initial(pool), steps).conv)
  {
    ConvRuns(Initial(pool), steps);
  }

  // Only the multiplexer has moved.
  ghost predicate Converses(s: State, steps: seq<Step>, conv: Conversations.State) {
    Valid(s, steps) && After(s, steps) == s.(conv := conv)
  }

  lemma PumpCanEnd(s: State, c: nat)
    requires Conversations.Reachable(s.conv) && c < |s.conv.clients| && !s.conv.clients[c].open
    ensures exists more, conv ::
              Converses(s, more, conv) && c < |conv.clients| && conv.clients[c].reader == Ended
  {
    Progress.CutPumpCanEnd(s.conv, c);
    var pump, conv :| Progress.Leads(s.conv, pump, Progress.PumpStepOf(c), conv)
                   && c < |conv.clients| && conv.clients[c].reader == Ended;
    assert forall i | 0 <= i < |pump| :: Progress.PumpStepOf(c)(pump[i]);
    LiftedRuns(s, pump);
    assert Converses(s, Lifted(pump), conv);
  }

  lemma CallCanBeAnswered(s: State, k: nat, response: HttpResponseData)
    requires Conversations.Reachable(s.conv) && InPhase(s.conv, k, New)
    requires IsOpen(s.conv, s.conv.calls[k].client)
    requires Progress.Unanswered(s.conv, s.conv.calls[k].client, s.conv.calls[k].id)
    ensures exists more, conv :: Converses(s, more, conv) && InPhase(conv, k, Returned(Ok(response)))
  {
    Progress.AnyResponseCanBeReturned(s.conv, k, response);
    var answer, conv :| Progress.Leads(s.conv, answer, Progress.Smooth(), conv)
                     && k < |conv.calls| && conv.calls[k].phase == Returned(Ok(response));
    assert forall i | 0 <= i < |answer| :: Progress.Smooth()(answer[i]);
    LiftedRuns(s, answer);
    assert Converses(s, Lifted(answer), conv);
  }

  // Once the connection of a live handler is cut, its read pump can end and the handler give
  // its name back, whatever else is going on; then the name is free.
  lemma CutNameComesFree(pool: seq<string>, steps: seq<Step>, h: nat)
    requires Valid(Initial(pool), steps)
    requires var s := After(Initial(pool), steps);
             Lease.At(s.lease, h, Lease.Live) && h in s.connOf && !IsOpen(s.conv, s.connOf[h])
    ensures var s := After(Initial(pool), steps);
            exists more ::
              && Valid(s, more) && Lease.At(After(s, more).lease, h, Lease.Gone)
              && Lease.Key(s.lease, h) !in After(s, more).lease.clients
  {
    var s := After(Initial(pool), steps);
    InitialInv(pool);
    RunKeepsInv(Initial(pool), steps);
    ConvIsReachable(pool, steps);
    var c := s.connOf[h];
    PumpCanEnd(s, c);
    var pump, conv :| Converses(s, pump, conv) && c < |conv.clients| && conv.clients[c].reader == Ended;
    DropFrees(s.(conv := conv), h);
    RunsJoinUp(s, pump, [Leasing(Lease.Drop(h))]);
    assert Valid(s, pump + [Leasing(Lease.Drop(h))]);
  }

  lemma DropFrees(s: State, h: nat)
    requires Lease.Reachable(s.lease) && Lease.At(s.lease, h, Lease.Live) && PumpHasEnded(s, h)
    ensures var drop := [Leasing(Lease.Drop(h))];
            && Valid(s, drop) && Lease.At(After(s, drop).lease, h, Lease.Gone)
            && Lease.Key(s.lease, h) !in After(s, drop).lease.clients
  {
    Lease.RemovalTakesOwnEntry(s.lease, Lease.Drop(h));
    OneStepUp(s, Leasing(Lease.Drop(h)));
  }

  function Begun(s: State, host: string, h: nat, id: Uuid, request: HttpRequestData): State
    requires h in s.connOf && s.connOf[h] < |s.conv.clients|
  {
    s.(conv := DoBegin(s.conv, id, s.connOf[h], request), routes := s.routes + [Route.Route(host, h)],
       routeOf := s.routeOf + [|s.routes|])
  }

  lemma LookThenForward(s: State, host: string, h: nat, id: Uuid, request: HttpRequestData)
    requires CanResolve(s.lease.clients, None, host, Some(h)) && id !in s.conv.issued
    requires h in s.connOf && s.connOf[h] < |s.conv.clients|
    ensures var steps := [LookUp(host, h), Forward(|s.routes|, id, request)];
            Valid(s, steps) && After(s, steps) == Begun(s, host, h, id, request)
  {
    var look, forwarding := LookUp(host, h), Forward(|s.routes|, id, request);
    OneStepUp(s, look);
    OneStepUp(Apply(s, look), forwarding);
    RunsJoinUp(s, [look], [forwarding]);
    assert [look] + [forwarding] == [look, forwarding];
  }

  // End to end, the other way round: whenever a Host header leads to a handler whose
  // connection is open, a request for it, under a fresh id that nobody answers beforehand, can
  // come back with whatever response `handle` makes.
  lemma HostHeaderCanBeAnswered(pool: seq<string>, steps: seq<Step>, host: string, h: nat, id: Uuid,
                                request: HttpRequestData, response: HttpResponseData)
    requires Valid(Initial(pool), steps)
    requires var s := After(Initial(pool), steps);
             && CanResolve(s.lease.clients, None, host, Some(h)) && id !in s.conv.issued
             && h in s.connOf && IsOpen(s.conv, s.connOf[h]) && Progress.Unanswered(s.conv, s.connOf[h], id)
    ensures var s := After(Initial(pool), steps);
            var first := [LookUp(host, h), Forward(|s.routes|, id, request)];
            exists more ::
              && Valid(s, first + more)
              && InPhase(After(s, first + more).conv, |s.conv.calls|, Returned(Ok(response)))
  {
    var s := After(Initial(pool), steps);
    var first, begun := [LookUp(host, h), Forward(|s.routes|, id, request)], Begun(s, host, h, id, request);
    LookThenForward(s, host, h, id, request);
    ConvIsReachable(pool, steps);
    StepIsReachable(s.conv, Begin(id, s.connOf[h], request));
    CallCanBeAnswered(begun, |s.conv.calls|, response);
    var more, conv :| Converses(begun, more, conv) && InPhase(conv, |s.conv.calls|, Returned(Ok(response)));
    RunsJoinUp(s, first, more);
  }
}
