/**
 Subdomain leases as a transition system.  Any number of connection handlers run at
 once; one step is one critical section of one handler.  Steps of different handlers
 interleave freely.
 */
module Lease {
  import opened Ascii
  import opened Protocol
  import opened Allocation
  import HostMaps

  // Where a connection handler stands between two critical sections.
  datatype Stage =
    | Arrived       // authenticated, no name yet
    | Rejected      // no name could be assigned
    | Reserved      // holds a name through the nil placeholder
    | AcceptFailed  // WebSocket upgrade failed, releaseName not yet run
    | Live          // published, read pump running
    | Gone          // name given back

  datatype Handler = Handler(requested: string, name: string, stage: Stage)

  // A map value of None is the nil placeholder, Some(h) is handler h's published client.
  datatype State = State(pool: seq<string>, clients: map<string, Option<nat>>, handlers: seq<Handler>)

  datatype Step =
    | Arrive(requested: string)
    | Assign(h: nat, draws: seq<Draw>, answer: Option<string>)
    | FailAccept(h: nat)
    | Release(h: nat)
    | Publish(h: nat)
    | Drop(h: nat)

  predicate At(s: State, h: nat, stage: Stage) {
    h < |s.handlers| && s.handlers[h].stage == stage
  }

  ghost predicate Enabled(s: State, step: Step) {
    match step
    case Arrive(_) => true
    case Assign(h, draws, answer) =>
      && At(s, h, Arrived)
      && |draws| == ATTEMPTS
      && Assigned(s.pool, s.clients.Keys, s.handlers[h].requested, draws, answer)
    case FailAccept(h) => At(s, h, Reserved)
    case Release(h) => At(s, h, AcceptFailed)
    case Publish(h) => At(s, h, Reserved)
    case Drop(h) => At(s, h, Live)
  }

  function Move(s: State, h: nat, stage: Stage): seq<Handler>
    requires h < |s.handlers|
  {
    s.handlers[h := s.handlers[h].(stage := stage)]
  }

  ghost function Apply(s: State, step: Step): State
    requires Enabled(s, step)
  {
    match step
    case Arrive(requested) => s.(handlers := s.handlers + [Handler(requested, "", Arrived)])
    case Assign(h, _, None) => s.(handlers := Move(s, h, Rejected))
    case Assign(h, _, Some(name)) =>
      s.(clients := HostMaps.Reserve(s.clients, Some(name), None),
         handlers := s.handlers[h := s.handlers[h].(name := name, stage := Reserved)])
    case FailAccept(h) => s.(handlers := Move(s, h, AcceptFailed))
    case Release(h) =>
      s.(clients := HostMaps.RemoveIf(s.clients, s.handlers[h].name, None), handlers := Move(s, h, Gone))
    case Publish(h) =>
      s.(clients := HostMaps.Publish(s.clients, s.handlers[h].name, Some(h)), handlers := Move(s, h, Live))
    case Drop(h) =>
      s.(clients := HostMaps.RemoveIf(s.clients, s.handlers[h].name, Some(h)), handlers := Move(s, h, Gone))
  }

  ghost predicate Valid(s: State, steps: seq<Step>)
    decreases |steps|
  {
    steps == [] || (Enabled(s, steps[0]) && Valid(Apply(s, steps[0]), steps[1..]))
  }

  ghost function After(s: State, steps: seq<Step>): State
    requires Valid(s, steps)
    decreases |steps|
  {
    if steps == [] then s else After(Apply(s, steps[0]), steps[1..])
  }

  // A run, then another from where it ended, is a run.
  lemma {:induction false} RunsJoin(s: State, first: seq<Step>, second: seq<Step>)
    requires Valid(s, first) && Valid(After(s, first), second)
    ensures Valid(s, first + second)
    ensures After(s, first + second) == After(After(s, first), second)
    decreases |first|
  {
    if first == [] {
      assert first + second == second;
    } else {
      assert (first + second)[1..] == first[1..] + second;
      RunsJoin(Apply(s, first[0]), first[1..], second);
    }
  }

  lemma OneStep(s: State, step: Step)
    requires Enabled(s, step)
    ensures Valid(s, [step]) && After(s, [step]) == Apply(s, step)
  {
    assert [step][1..] == [];
  }

  function Initial(pool: seq<string>): State { State(pool, map[], []) }

  // s can be reached by a host configured with its pool.
  ghost predicate Reachable(s: State) {
    exists steps :: Valid(Initial(s.pool), steps) && After(Initial(s.pool), steps) == s
  }

  lemma StepIsReachable(s: State, step: Step)
    requires Reachable(s) && Enabled(s, step)
    ensures Reachable(Apply(s, step))
  {
    var steps :| Valid(Initial(s.pool), steps) && After(Initial(s.pool), steps) == s;
    OneStep(s, step);
    RunsJoin(Initial(s.pool), steps, [step]);
    assert Apply(s, step).pool == s.pool;
  }

  // Handler h holds its name: reserved and not yet given back.
  predicate Holds(s: State, h: nat) {
    && h < |s.handlers|
    && (s.handlers[h].stage == Reserved || s.handlers[h].stage == AcceptFailed || s.handlers[h].stage == Live)
  }

  function Key(s: State, h: nat): string
    requires h < |s.handlers|
  {
    Lower(s.handlers[h].name)
  }

  predicate HolderOf(s: State, h: nat, key: string) { Holds(s, h) && Key(s, h) == key }

  // What the map must say about handler h: its placeholder, or its published client.
  function Entry(s: State, h: nat): Option<nat>
    requires Holds(s, h)
  {
    if s.handlers[h].stage == Live then Some(h) else None
  }

  ghost predicate Owned(s: State) {
    && (forall h: nat | Holds(s, h) :: Key(s, h) in s.clients && s.clients[Key(s, h)] == Entry(s, h))
    && (forall g: nat, h: nat | Holds(s, g) && Holds(s, h) && g != h :: Key(s, g) != Key(s, h))
    && (forall key | key in s.clients :: exists h: nat :: HolderOf(s, h, key))
  }

  ghost predicate InPool(s: State) {
    s.pool != [] ==> forall key | key in s.clients :: key in LowerSet(s.pool)
  }

  function LowerSet(pool: seq<string>): set<string> {
    set i | 0 <= i < |pool| :: Lower(pool[i])
  }

  lemma StepKeepsHolders(s: State, step: Step, key: string)
    requires Owned(s) && Enabled(s, step)
    requires key in Apply(s, step).clients
    ensures exists h: nat :: HolderOf(Apply(s, step), h, key)
  {
    var s' := Apply(s, step);
    if step.Assign? && step.answer.Some? && key == Lower(step.answer.value) {
      assert HolderOf(s', step.h, key);
    } else {
      assert key in s.clients by {
        if step.Publish? { assert Holds(s, step.h); }
      }
      var h: nat :| HolderOf(s, h, key);
      if !step.Arrive? && step.h == h {
        assert s.clients[Key(s, h)] == Entry(s, h);
      }
      assert HolderOf(s', h, key);
    }
  }

  // A name is assigned only while no handler holds it.
  lemma AssignedKeyIsNew(s: State, step: Step)
    requires Owned(s) && Enabled(s, step) && step.Assign? && step.answer.Some?
    ensures Lower(step.answer.value) !in s.clients
    ensures forall g: nat | Holds(s, g) :: Key(s, g) != Lower(step.answer.value)
  {
    AssignedIsFree(s.pool, s.clients.Keys, s.handlers[step.h].requested, step.draws, step.answer.value);
  }

  // A holder either held its name before the step or has just been assigned it.
  lemma HolderBefore(s: State, step: Step, g: nat)
    requires Enabled(s, step) && Holds(Apply(s, step), g)
    ensures (Holds(s, g) && Key(Apply(s, step), g) == Key(s, g))
         || (step.Assign? && step.h == g && step.answer.Some? && Key(Apply(s, step), g) == Lower(step.answer.value))
  {}

  lemma StepKeepsEntry(s: State, step: Step, g: nat)
    requires Owned(s) && Enabled(s, step) && Holds(Apply(s, step), g)
    ensures var s' := Apply(s, step); Key(s', g) in s'.clients && s'.clients[Key(s', g)] == Entry(s', g)
  {
    HolderBefore(s, step, g);
    if step.Assign? && step.answer.Some? {
      AssignedKeyIsNew(s, step);
      if g != step.h { assert Holds(s, g) && s.clients[Key(s, g)] == Entry(s, g); }
    } else {
      assert Holds(s, g) && Key(s, g) in s.clients && s.clients[Key(s, g)] == Entry(s, g);
      OthersKeepEntry(s, step, g);
    }
  }

  // A handler's entry survives any other handler's step.
  lemma OthersKeepEntry(s: State, step: Step, g: nat)
    requires Owned(s) && Enabled(s, step) && Holds(s, g)
    requires if g == HandlerOf(step) then step.FailAccept? || step.Publish? else !(step.Assign? && step.answer.Some?)
    ensures Key(s, g) in Apply(s, step).clients
    ensures g != HandlerOf(step) ==> Apply(s, step).clients[Key(s, g)] == s.clients[Key(s, g)]
  {
    assert Key(s, g) in s.clients;
    if g != HandlerOf(step) && (step.Release? || step.Publish? || step.Drop?) {
      assert Holds(s, step.h) && Key(s, g) != Key(s, step.h);
    }
  }

  lemma StepKeepsDistinct(s: State, step: Step, g: nat, h: nat)
    requires Owned(s) && Enabled(s, step) && g != h
    requires Holds(Apply(s, step), g) && Holds(Apply(s, step), h)
    ensures Key(Apply(s, step), g) != Key(Apply(s, step), h)
  {
    if step.Assign? && step.answer.Some? { AssignedKeyIsNew(s, step); }
    HolderBefore(s, step, g);
    HolderBefore(s, step, h);
  }

  lemma StepKeepsOwned(s: State, step: Step)
    requires Owned(s) && Enabled(s, step)
    ensures Owned(Apply(s, step))
  {
    var s' := Apply(s, step);
    forall g: nat | Holds(s', g) ensures Key(s', g) in s'.clients && s'.clients[Key(s', g)] == Entry(s', g) {
      StepKeepsEntry(s, step, g);
    }
    forall g: nat, h: nat | Holds(s', g) && Holds(s', h) && g != h ensures Key(s', g) != Key(s', h) {
      StepKeepsDistinct(s, step, g, h);
    }
    forall key | key in s'.clients ensures exists h: nat :: HolderOf(s', h, key) {
      StepKeepsHolders(s, step, key);
    }
  }

  // The acting handler, or -1 when a new one arrives.
  function HandlerOf(step: Step): int {
    if step.Arrive? then -1 else step.h
  }

  lemma StepKeepsInPool(s: State, step: Step)
    requires InPool(s) && Owned(s) && Enabled(s, step)
    ensures InPool(Apply(s, step))
  {
    if s.pool != [] && step.Assign? && step.answer.Some? {
      AssignedIsFree(s.pool, s.clients.Keys, s.handlers[step.h].requested, step.draws, step.answer.value);
      var i :| 0 <= i < |s.pool| && s.pool[i] == step.answer.value;
    }
    if step.Publish? { assert Holds(s, step.h); }
  }

  lemma {:induction false} RunKeepsInvariant(s: State, steps: seq<Step>)
    requires Owned(s) && InPool(s) && Valid(s, steps)
    ensures Owned(After(s, steps)) && InPool(After(s, steps)) && After(s, steps).pool == s.pool
    decreases |steps|
  {
    if steps != [] {
      StepKeepsOwned(s, steps[0]);
      StepKeepsInPool(s, steps[0]);
      RunKeepsInvariant(Apply(s, steps[0]), steps[1..]);
    }
  }

  // In every reachable state the keys of `clients` match, one to one, the handlers
  // between reservation and release; two connections never share a name, ignoring case.
  lemma LeaseOwnership(s: State)
    requires Reachable(s)
    ensures Owned(s)
    ensures forall g: nat, h: nat | Holds(s, g) && Holds(s, h) && g != h ::
              !EqualFold(s.handlers[g].name, s.handlers[h].name)
  {
    var steps :| Valid(Initial(s.pool), steps) && After(Initial(s.pool), steps) == s;
    RunKeepsInvariant(Initial(s.pool), steps);
    forall g: nat, h: nat | Holds(s, g) && Holds(s, h) && g != h
      ensures !EqualFold(s.handlers[g].name, s.handlers[h].name)
    {
      LowerDecidesEqualFold(s.handlers[g].name, s.handlers[h].name);
    }
  }

  // Publishing overwrites the handler's own placeholder and nothing else.
  lemma PublishOverwritesOwnPlaceholder(s: State, h: nat)
    requires Reachable(s) && Enabled(s, Publish(h))
    ensures Key(s, h) in s.clients && s.clients[Key(s, h)] == None
    ensures Apply(s, Publish(h)).clients.Keys == s.clients.Keys
    ensures forall g: nat | Holds(s, g) && g != h ::
              Key(s, g) in s.clients && Apply(s, Publish(h)).clients[Key(s, g)] == Entry(s, g)
  {
    LeaseOwnership(s);
    assert Holds(s, h);
    assert s.clients[Key(s, h)] == Entry(s, h);
    assert Apply(s, Publish(h)).clients.Keys == s.clients.Keys;
  }

  // The guards in releaseName and dropClient are always true: exactly the handler's own
  // entry goes, however its steps interleaved with other handlers reusing names.
  lemma RemovalTakesOwnEntry(s: State, step: Step)
    requires Reachable(s) && (step.Release? || step.Drop?) && Enabled(s, step)
    ensures Key(s, step.h) in s.clients
    ensures Apply(s, step).clients == s.clients - {Key(s, step.h)}
    ensures forall g: nat | Holds(s, g) && g != step.h ::
              Key(s, g) in Apply(s, step).clients && Apply(s, step).clients[Key(s, g)] == Entry(s, g)
  {
    LeaseOwnership(s);
    assert Holds(s, step.h);
    assert s.clients[Key(s, step.h)] == Entry(s, step.h);
  }

  // GetClient finds handler h under a name exactly when h is live under that name,
  // whatever the letter case.
  lemma LookupFindsTheLiveHolder(s: State, name: string, h: nat)
    requires Reachable(s)
    ensures HostMaps.Lookup(s.clients, name, None) == Some(h)
            <==> At(s, h, Live) && EqualFold(s.handlers[h].name, name)
  {
    LeaseOwnership(s);
    if At(s, h, Live) {
      assert Holds(s, h);
      assert s.clients[Key(s, h)] == Entry(s, h);
      LowerDecidesEqualFold(s.handlers[h].name, name);
    }
    if Lower(name) in s.clients {
      var g: nat :| HolderOf(s, g, Lower(name));
      assert s.clients[Key(s, g)] == Entry(s, g);
      LowerDecidesEqualFold(s.handlers[g].name, name);
    }
  }

  // With a pool, held names never outnumber the pool's case-insensitively distinct ones.
  lemma HeldNamesFitThePool(s: State)
    requires Reachable(s) && s.pool != []
    ensures s.clients.Keys <= LowerSet(s.pool)
    ensures |s.clients| <= |LowerSet(s.pool)|
  {
    var steps :| Valid(Initial(s.pool), steps) && After(Initial(s.pool), steps) == s;
    RunKeepsInvariant(Initial(s.pool), steps);
    SubsetIsSmaller(s.clients.Keys, LowerSet(s.pool));
  }

  // Steps of handler h that end its lease: the upgrade fails, the name is released, or the
  // client is dropped.
  function EndingOf(h: nat): Step -> bool {
    (step: Step) => (step.FailAccept? || step.Release? || step.Drop?) && step.h == h
  }

  ghost predicate CanLeave(s: State, h: nat, steps: seq<Step>) {
    && Valid(s, steps) && (forall i | 0 <= i < |steps| :: EndingOf(h)(steps[i]))
    && At(After(s, steps), h, Gone) && Key(After(s, steps), h) !in After(s, steps).clients
  }

  lemma RemovalLeaves(s: State, h: nat, step: Step)
    requires Reachable(s) && Enabled(s, step) && (step == Release(h) || step == Drop(h))
    ensures CanLeave(s, h, [step])
  {
    RemovalTakesOwnEntry(s, step);
    OneStep(s, step);
    assert Key(Apply(s, step), h) == Key(s, h);
  }

  // Whoever holds a name can give it back by its own steps, and then it is free for others.
  lemma EveryHolderCanLeave(s: State, h: nat)
    requires Reachable(s) && Holds(s, h)
    ensures exists steps :: CanLeave(s, h, steps)
  {
    if s.handlers[h].stage == Reserved {
      var failed := Apply(s, FailAccept(h));
      StepIsReachable(s, FailAccept(h));
      RemovalLeaves(failed, h, Release(h));
      OneStep(s, FailAccept(h));
      RunsJoin(s, [FailAccept(h)], [Release(h)]);
      assert CanLeave(s, h, [FailAccept(h)] + [Release(h)]);
    } else {
      RemovalLeaves(s, h, if s.handlers[h].stage == Live then Drop(h) else Release(h));
    }
  }

  // An arrived handler can always be given its answer.
  lemma EveryArrivalIsAnswered(s: State, h: nat, draws: seq<Draw>)
    requires At(s, h, Arrived) && |draws| == 1000
    ensures exists answer :: Enabled(s, Assign(h, draws, answer))
  {
    AssignedExists(s.pool, s.clients.Keys, s.handlers[h].requested, draws);
    var answer :| Assigned(s.pool, s.clients.Keys, s.handlers[h].requested, draws, answer);
    assert Enabled(s, Assign(h, draws, answer));
  }

  // Handlers and the steps of a run.

  // What each arriving connection asked for, in order.
  function Requests(steps: seq<Step>): seq<string>
    decreases |steps|
  {
    if steps == [] then []
    else (if steps[0].Arrive? then [steps[0].requested] else []) + Requests(steps[1..])
  }

  lemma StepArrives(s: State, step: Step)
    requires Enabled(s, step)
    ensures var s' := Apply(s, step);
            && |s'.handlers| == |s.handlers| + (if step.Arrive? then 1 else 0)
            && (step.Arrive? ==> s'.handlers[|s.handlers|].requested == step.requested)
            && forall h: nat | h < |s.handlers| :: s'.handlers[h].requested == s.handlers[h].requested
  {}

  lemma {:induction false} RunArrives(s: State, steps: seq<Step>)
    requires Valid(s, steps)
    ensures var t := After(s, steps);
            && |t.handlers| == |s.handlers| + |Requests(steps)|
            && (forall h: nat | h < |s.handlers| :: t.handlers[h].requested == s.handlers[h].requested)
            && forall i | 0 <= i < |Requests(steps)| :: t.handlers[|s.handlers| + i].requested == Requests(steps)[i]
    decreases |steps|
  {
    if steps != [] {
      StepArrives(s, steps[0]);
      RunArrives(Apply(s, steps[0]), steps[1..]);
    }
  }

  // Handler h was given this name.
  predicate Named(s: State, h: nat, name: string) {
    && h < |s.handlers| && s.handlers[h].name == name
    && s.handlers[h].stage != Arrived && s.handlers[h].stage != Rejected
  }

  predicate Names(step: Step, h: nat, name: string) { step.Assign? && step.h == h && step.answer == Some(name) }

  lemma StepNames(s: State, step: Step, h: nat, name: string)
    requires Enabled(s, step)
    ensures Named(Apply(s, step), h, name) <==> Named(s, h, name) || Names(step, h, name)
  {}

  lemma {:induction false} RunNames(s: State, steps: seq<Step>, h: nat, name: string)
    requires Valid(s, steps)
    ensures Named(After(s, steps), h, name) <==>
            Named(s, h, name) || exists j :: 0 <= j < |steps| && Names(steps[j], h, name)
    decreases |steps|
  {
    if steps != [] {
      var rest := steps[1..];
      StepNames(s, steps[0], h, name);
      RunNames(Apply(s, steps[0]), rest, h, name);
      if j :| 0 <= j < |rest| && Names(rest[j], h, name) {
        assert Names(steps[j + 1], h, name);
      }
      if j :| 0 <= j < |steps| && Names(steps[j], h, name) {
        assert j > 0 ==> Names(rest[j - 1], h, name);
      }
    }
  }

  // The handlers of a run are its arrivals, in order, each asking for what it asked for; and
  // a handler's name is the one it was assigned, spelled as the policy spelled it.
  lemma HandlersAreTheirArrivals(pool: seq<string>, steps: seq<Step>, h: nat, name: string)
    requires Valid(Initial(pool), steps)
    ensures var s := After(Initial(pool), steps);
            && |s.handlers| == |Requests(steps)|
            && (h < |s.handlers| ==> s.handlers[h].requested == Requests(steps)[h])
            && (Named(s, h, name) <==> exists j :: 0 <= j < |steps| && Names(steps[j], h, name))
  {
    RunArrives(Initial(pool), steps);
    RunNames(Initial(pool), steps, h, name);
    assert Initial(pool).handlers == [];
  }
}
