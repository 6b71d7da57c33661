/**
 The client's `serve`: a read loop that starts one handler per request, at most 100 at a
 time, a keepalive pinger, and the drain when the loop ends.  Goroutines interleave
 freely; the context may be cancelled and the connection may die at any moment.
 */
module ClientServe {
  import opened Sums

  const MAX_CONCURRENT := 100

  datatype Loop =
    | Reading
    | Acquiring  // has a request, waits for a slot or for cancellation
    | Acquired   // took a slot, handler not yet started
    | Breaking   // left the loop, has not cancelled and closed yet
    | Draining   // in wg.Wait
    | Returned

  datatype Stage =
    | Handling   // in handle
    | WantsWrite // has an answer, waits for the write mutex
    | Writing    // holds the write mutex
    | Leaving    // done, slot not yet released
    | Released   // slot released, wg.Done not yet called
    | Finished

  // `slots` is the number of tokens in the `sem` channel, `wg` the wait group's counter,
  // `writer` the holder of the write mutex; `writes` counts the writes begun, as history.
  datatype State = State(
    loop: Loop, slots: nat, wg: int, pinger: bool, writer: int, handlers: seq<Stage>,
    cancelled: bool, closed: bool, writes: nat)

  const NOBODY := -1

  const INITIAL := State(Reading, 0, 1, true, NOBODY, [], false, false, 0)

  datatype Step =
    | ReadRequest | ReadOther | ReadFails | TakeSlot | SeeCancel | Spawn | Close | Return
    | Abandon(h: nat) | Answer(h: nat) | StartWrite(h: nat) | EndWrite(h: nat)
    | FailWrite(h: nat) | ReleaseSlot(h: nat) | Finish(h: nat)
    | PingFails | PingerExits
    | Cancel

  predicate At(s: State, h: nat, stage: Stage) { h < |s.handlers| && s.handlers[h] == stage }

  predicate Enabled(s: State, step: Step) {
    match step
    case ReadRequest => s.loop == Reading
    case ReadOther => s.loop == Reading
    case ReadFails => s.loop == Reading
    case TakeSlot => s.loop == Acquiring && s.slots < MAX_CONCURRENT
    case SeeCancel => s.loop == Acquiring && s.cancelled
    case Spawn => s.loop == Acquired
    case Close => s.loop == Breaking
    case Return => s.loop == Draining && s.wg == 0
    // handle returns an error, as it does once the context is cancelled
    case Abandon(h) => At(s, h, Handling)
    case Answer(h) => At(s, h, Handling)
    case StartWrite(h) => At(s, h, WantsWrite) && s.writer == NOBODY
    case EndWrite(h) => At(s, h, Writing)
    // the connection is closed, the context cancelled, or the write timed out
    case FailWrite(h) => At(s, h, Writing)
    case ReleaseSlot(h) => At(s, h, Leaving) && s.slots > 0
    case Finish(h) => At(s, h, Released)
    case PingFails => s.pinger && !s.cancelled
    case PingerExits => s.pinger && (s.cancelled || s.closed)
    case Cancel => true
  }

  function Apply(s: State, step: Step): State
    requires Enabled(s, step)
  {
    match step
    case ReadRequest => s.(loop := Acquiring)
    case ReadOther => s
    case ReadFails => s.(loop := Breaking)
    case TakeSlot => s.(loop := Acquired, slots := s.slots + 1)
    case SeeCancel => s.(loop := Breaking)
    case Spawn => s.(loop := Reading, wg := s.wg + 1, handlers := s.handlers + [Handling])
    case Close => s.(loop := Draining, cancelled := true, closed := true)
    case Return => s.(loop := Returned)
    case Abandon(h) => s.(handlers := s.handlers[h := Leaving])
    case Answer(h) => s.(handlers := s.handlers[h := WantsWrite])
    case StartWrite(h) => s.(handlers := s.handlers[h := Writing], writer := h, writes := s.writes + 1)
    case EndWrite(h) => s.(handlers := s.handlers[h := Leaving], writer := NOBODY)
    case FailWrite(h) => s.(handlers := s.handlers[h := Leaving], writer := NOBODY)
    case ReleaseSlot(h) => s.(handlers := s.handlers[h := Released], slots := s.slots - 1)
    case Finish(h) => s.(handlers := s.handlers[h := Finished], wg := s.wg - 1)
    case PingFails => s.(closed := true)
    case PingerExits => s.(pinger := false, wg := s.wg - 1)
    case Cancel => s.(cancelled := true)
  }

  predicate Valid(s: State, steps: seq<Step>)
    decreases |steps|
  {
    steps == [] || (Enabled(s, steps[0]) && Valid(Apply(s, steps[0]), steps[1..]))
  }

  function After(s: State, steps: seq<Step>): State
    requires Valid(s, steps)
    decreases |steps|
  {
    if steps == [] then s else After(Apply(s, steps[0]), steps[1..])
  }

  ghost predicate Reachable(s: State) {
    exists steps :: Valid(INITIAL, steps) && After(INITIAL, steps) == s
  }

  // A handler that has not released its slot.
  function Occupies(): Stage -> int {
    (stage: Stage) => if stage == Released || stage == Finished then 0 else 1
  }

  // A handler that has not told the wait group it is done.
  function Unfinished(): Stage -> int {
    (stage: Stage) => if stage == Finished then 0 else 1
  }

  predicate Inv(s: State) {
    && s.slots == Total(s.handlers, Occupies()) + (if s.loop == Acquired then 1 else 0)
    && s.slots <= MAX_CONCURRENT
    && s.wg == Total(s.handlers, Unfinished()) + (if s.pinger then 1 else 0)
    && (forall h: nat | h < |s.handlers| :: s.handlers[h] == Writing <==> s.writer == h)
    && -1 <= s.writer < |s.handlers|
    && (s.loop == Returned ==> s.wg == 0)
    && (s.loop == Draining || s.loop == Returned ==> s.cancelled && s.closed)
  }

  // One handler's stage changes, and the counters follow it.
  lemma StageKeepsInv(s: State, h: nat, stage: Stage, s': State)
    requires Inv(s) && h < |s.handlers| && s.handlers[h] != Finished
    requires s'.loop == s.loop && s'.pinger == s.pinger && s'.cancelled == s.cancelled && s'.closed == s.closed
    requires s'.handlers == s.handlers[h := stage]
    requires s'.slots == s.slots - Occupies()(s.handlers[h]) + Occupies()(stage) <= s.slots
    requires s'.wg == s.wg - 1 + Unfinished()(stage)
    requires s'.writer == if stage == Writing then h else if s.handlers[h] == Writing then NOBODY else s.writer
    requires stage == Writing ==> s.writer == NOBODY
    ensures Inv(s')
  {
    TotalUpdate(s.handlers, h, stage, Occupies());
    TotalUpdate(s.handlers, h, stage, Unfinished());
    TotalIsNonNegative(s.handlers, Unfinished());
    assert Unfinished()(s.handlers[h]) == 1;
  }

  predicate MovesHandler(step: Step) {
    || step.Abandon? || step.Answer? || step.StartWrite? || step.EndWrite? || step.FailWrite?
    || step.ReleaseSlot? || step.Finish?
  }

  lemma HandlerStepKeepsInv(s: State, step: Step)
    requires Inv(s) && Enabled(s, step)
    requires MovesHandler(step)
    ensures Inv(Apply(s, step))
  {
    var s' := Apply(s, step);
    StageKeepsInv(s, step.h, s'.handlers[step.h], s');
  }

  lemma SpawnKeepsInv(s: State)
    requires Inv(s) && Enabled(s, Spawn)
    ensures Inv(Apply(s, Spawn))
  {
    TotalSnoc(s.handlers, Handling, Occupies());
    TotalSnoc(s.handlers, Handling, Unfinished());
  }

  // The handlers stand still while the loop, the pinger or the context moves.
  lemma LoopStepKeepsInv(s: State, step: Step)
    requires Inv(s) && Enabled(s, step) && Apply(s, step).handlers == s.handlers
    requires !MovesHandler(step)
    ensures Inv(Apply(s, step))
  {
    TotalIsNonNegative(s.handlers, Unfinished());
  }

  lemma StepKeepsInv(s: State, step: Step)
    requires Inv(s) && Enabled(s, step)
    ensures Inv(Apply(s, step))
  {
    if MovesHandler(step) {
      HandlerStepKeepsInv(s, step);
    } else if step.Spawn? {
      SpawnKeepsInv(s);
    } else {
      LoopStepKeepsInv(s, step);
    }
  }

  lemma {:induction false} RunKeepsInv(s: State, steps: seq<Step>)
    requires Inv(s) && Valid(s, steps)
    ensures Inv(After(s, steps))
    decreases |steps|
  {
    if steps != [] {
      StepKeepsInv(s, steps[0]);
      RunKeepsInv(Apply(s, steps[0]), steps[1..]);
    }
  }

  lemma ReachableInv(s: State)
    requires Reachable(s)
    ensures Inv(s)
  {
    var steps :| Valid(INITIAL, steps) && After(INITIAL, steps) == s;
    RunKeepsInv(INITIAL, steps);
  }

  // Occupied slots are the handlers that have not released theirs, plus one between taking
  // a slot and starting its handler; never more than 100.  Releasing never blocks.
  lemma SlotsMatchHandlers(s: State)
    requires Reachable(s)
    ensures s.slots == Total(s.handlers, Occupies()) + (if s.loop == Acquired then 1 else 0)
    ensures s.slots <= 100
    ensures Enabled(s, TakeSlot) <==> s.loop == Acquiring && s.slots < 100
    ensures forall h: nat | At(s, h, Leaving) :: Enabled(s, ReleaseSlot(h))
  {
    ReachableInv(s);
    TotalIsNonNegative(s.handlers, Occupies());
    forall h: nat | At(s, h, Leaving) ensures Enabled(s, ReleaseSlot(h)) {
      assert Occupies()(s.handlers[h]) == 1;
    }
  }

  // At most one handler writes at a time.
  lemma OneWriter(s: State, g: nat, h: nat)
    requires Reachable(s) && At(s, g, Writing) && At(s, h, Writing)
    ensures g == h
  {
    ReachableInv(s);
  }

  lemma ReturnedIsEmpty(s: State)
    requires Inv(s) && s.loop == Returned
    ensures s.slots == 0 && !s.pinger && forall h: nat | h < |s.handlers| :: s.handlers[h] == Finished
  {
    TotalIsNonNegative(s.handlers, Unfinished());
    assert forall h: nat | h < |s.handlers| :: Unfinished()(s.handlers[h]) == 0;
    TotalIsNonNegative(s.handlers, Occupies());
    assert forall h: nat | h < |s.handlers| :: Occupies()(s.handlers[h]) == 0;
  }

  lemma {:induction false} ReturnedStaysQuiet(s: State, steps: seq<Step>)
    requires Inv(s) && s.loop == Returned && Valid(s, steps)
    ensures After(s, steps).loop == Returned && After(s, steps).writes == s.writes
    ensures After(s, steps).handlers == s.handlers
    decreases |steps|
  {
    if steps != [] {
      ReturnedIsEmpty(s);
      StepKeepsInv(s, steps[0]);
      ReturnedStaysQuiet(Apply(s, steps[0]), steps[1..]);
    }
  }

  // When serve returns every slot is free, no handler runs and the connection is closed;
  // and whatever happens later, no write ever begins on it and no handler starts.
  lemma DrainIsComplete(s: State, steps: seq<Step>)
    requires Reachable(s) && s.loop == Returned && Valid(s, steps)
    ensures s.slots == 0 && !s.pinger && s.closed
    ensures forall h: nat | h < |s.handlers| :: s.handlers[h] == Finished
    ensures After(s, steps).writes == s.writes && After(s, steps).handlers == s.handlers
  {
    ReachableInv(s);
    ReturnedIsEmpty(s);
    ReturnedStaysQuiet(s, steps);
  }

  // How far a handler is from the end.
  function Distance(): Stage -> int {
    (stage: Stage) =>
      match stage
      case Handling => 5
      case WantsWrite => 4
      case Writing => 3
      case Leaving => 2
      case Released => 1
      case Finished => 0
  }

  // A step by which a handler or the pinger winds down: handle gives up, a write that had to
  // wait its turn begins, a write fails, and what was taken is given back.
  predicate WindsDown(step: Step) {
    || step.Abandon? || step.StartWrite? || step.FailWrite? || step.ReleaseSlot?
    || step.Finish? || step.PingerExits? || step.Return?
  }

  // The one thing handler h can do next, given that no handler it waits for is writing.
  function NextOf(s: State, h: nat): Step
    requires h < |s.handlers| && s.handlers[h] != Finished
  {
    match s.handlers[h]
    case Handling => Abandon(h)
    case WantsWrite => StartWrite(h)
    case Writing => FailWrite(h)
    case Leaving => ReleaseSlot(h)
    case Released => Finish(h)
  }

  // Whoever holds the write mutex goes first, then anyone not yet finished.
  ghost function Chosen(s: State): (h: nat)
    requires Inv(s) && exists g: nat :: g < |s.handlers| && s.handlers[g] != Finished
    ensures h < |s.handlers| && s.handlers[h] != Finished && Enabled(s, NextOf(s, h))
  {
    TotalIsNonNegative(s.handlers, Occupies());
    var h: nat :| h < |s.handlers| && s.handlers[h] != Finished;
    var chosen := if s.writer == NOBODY then h else s.writer;
    assert s.handlers[chosen] == Leaving ==> Occupies()(s.handlers[chosen]) == 1;
    chosen
  }

  // Once draining, serve can always come to its return by winding down: a handler waiting
  // for the write mutex gets it after the writer's write has failed, and no slot or wait
  // group holds it up.
  lemma {:induction false} DrainCanEnd(s: State) returns (steps: seq<Step>)
    requires Inv(s) && s.loop == Draining
    ensures Valid(s, steps) && After(s, steps).loop == Returned
    ensures forall i | 0 <= i < |steps| :: WindsDown(steps[i])
    decreases s.pinger, DistanceOf(s)
  {
    var step;
    if s.pinger {
      step := PingerExits;
    } else if exists g: nat :: g < |s.handlers| && s.handlers[g] != Finished {
      var h := Chosen(s);
      step := NextOf(s, h);
      StepTowardsEnd(s, h);
    } else {
      TotalIsNonNegative(s.handlers, Unfinished());
      step := Return;
    }
    StepKeepsInv(s, step);
    var rest := [];
    if step != Return {
      rest := DrainCanEnd(Apply(s, step));
    }
    steps := [step] + rest;
    assert steps[1..] == rest;
  }

  function DistanceOf(s: State): nat {
    TotalIsNonNegative(s.handlers, Distance());
    Total(s.handlers, Distance())
  }

  lemma StepTowardsEnd(s: State, h: nat)
    requires h < |s.handlers| && s.handlers[h] != Finished && Enabled(s, NextOf(s, h))
    ensures DistanceOf(Apply(s, NextOf(s, h))) < DistanceOf(s)
    ensures Apply(s, NextOf(s, h)).pinger == s.pinger && Apply(s, NextOf(s, h)).loop == s.loop
  {
    TotalUpdate(s.handlers, h, Apply(s, NextOf(s, h)).handlers[h], Distance());
  }

  // A handler waiting for the write mutex can do nothing else: its next step, if any, is to
  // take the mutex, and that only while nobody writes.
  lemma WaitingForMutexIsStuck(s: State, step: Step, h: nat)
    requires Reachable(s) && At(s, h, WantsWrite) && Enabled(s, step)
    ensures h < |Apply(s, step).handlers|
    ensures Apply(s, step).handlers[h] != WantsWrite ==>
              step == StartWrite(h) && forall g: nat | g < |s.handlers| :: s.handlers[g] != Writing
  {
    ReachableInv(s);
  }

  lemma DrainingAlwaysReturns(s: State)
    requires Reachable(s) && s.loop == Draining
    ensures exists steps :: Valid(s, steps) && After(s, steps).loop == Returned
                         && forall i | 0 <= i < |steps| :: WindsDown(steps[i])
  {
    ReachableInv(s);
    var steps := DrainCanEnd(s);
  }

  // What is left of a drain: the stages handlers have to go, the pinger and the return.
  function Remaining(s: State): nat {
    DistanceOf(s) + (if s.pinger then 1 else 0) + if s.loop == Draining then 1 else 0
  }

  lemma DrainStepsForward(s: State, step: Step)
    requires Inv(s) && (s.loop == Draining || s.loop == Returned) && Enabled(s, step) && step != Cancel
    ensures var s' := Apply(s, step);
            (s'.loop == Draining || s'.loop == Returned) && Remaining(s') < Remaining(s)
  {
    if MovesHandler(step) { TotalUpdate(s.handlers, step.h, Apply(s, step).handlers[step.h], Distance()); }
  }

  // Nor can serve linger: whatever the goroutines do, every step of a drain (a repeated
  // cancellation apart) uses up some of what is left, so it returns on every schedule.
  lemma {:induction false} DrainRunsAreShort(s: State, steps: seq<Step>)
    requires Inv(s) && (s.loop == Draining || s.loop == Returned) && Valid(s, steps)
    requires forall i | 0 <= i < |steps| :: steps[i] != Cancel
    ensures |steps| + Remaining(After(s, steps)) <= Remaining(s)
    decreases |steps|
  {
    if steps != [] {
      DrainStepsForward(s, steps[0]);
      StepKeepsInv(s, steps[0]);
      DrainRunsAreShort(Apply(s, steps[0]), steps[1..]);
    }
  }

  // A drain that can go no further has returned.
  lemma EveryDrainReturns(s: State, steps: seq<Step>)
    requires Reachable(s) && s.loop == Draining && Valid(s, steps)
    requires forall i | 0 <= i < |steps| :: steps[i] != Cancel
    ensures |steps| <= Remaining(s)
    ensures After(s, steps).loop != Returned ==> exists step :: Enabled(After(s, steps), step) && step != Cancel
  {
    ReachableInv(s);
    DrainRunsAreShort(s, steps);
    RunKeepsInv(s, steps);
    StaysDraining(s, steps);
    if After(s, steps).loop == Draining {
      var rest := DrainCanEnd(After(s, steps));
      assert Enabled(After(s, steps), rest[0]) && WindsDown(rest[0]);
    }
  }

  lemma {:induction false} StaysDraining(s: State, steps: seq<Step>)
    requires Valid(s, steps) && (s.loop == Draining || s.loop == Returned)
    ensures After(s, steps).loop == Draining || After(s, steps).loop == Returned
    decreases |steps|
  {
    if steps != [] { StaysDraining(Apply(s, steps[0]), steps[1..]); }
  }

  // Where every request goes: how the number of handlers at each stage follows from the
  // steps of a run.

  function Count(steps: seq<Step>, kind: Step -> bool): nat
    decreases |steps|
  {
    if steps == [] then 0 else (if kind(steps[0]) then 1 else 0) + Count(steps[1..], kind)
  }

  predicate ReadsRequest(step: Step) { step.ReadRequest? }

  predicate SeesCancel(step: Step) { step.SeeCancel? }

  predicate Spawns(step: Step) { step.Spawn? }

  predicate Answers(step: Step) { step.Answer? }

  predicate StartsWrite(step: Step) { step.StartWrite? }

  function Is(stage: Stage): Stage -> int { (other: Stage) => if other == stage then 1 else 0 }

  function Enters(stage: Stage): Step -> bool {
    (step: Step) =>
      match stage
      case Handling => step.Spawn?
      case WantsWrite => step.Answer?
      case Writing => step.StartWrite?
      case Leaving => step.Abandon? || step.EndWrite? || step.FailWrite?
      case Released => step.ReleaseSlot?
      case Finished => step.Finish?
  }

  function Leaves(stage: Stage): Step -> bool {
    (step: Step) =>
      match stage
      case Handling => step.Answer? || step.Abandon?
      case WantsWrite => step.StartWrite?
      case Writing => step.EndWrite? || step.FailWrite?
      case Leaving => step.ReleaseSlot?
      case Released => step.Finish?
      case Finished => false
  }

  ghost predicate Flows(s: State, step: Step, s': State, stage: Stage) {
    Total(s'.handlers, Is(stage))
      == Total(s.handlers, Is(stage))
         + (if Enters(stage)(step) then 1 else 0) - (if Leaves(stage)(step) then 1 else 0)
  }

  // The stages between which a step moves its handler.
  function Ends(step: Step): (Stage, Stage)
    requires MovesHandler(step)
  {
    match step
    case Abandon(_) => (Handling, Leaving)
    case Answer(_) => (Handling, WantsWrite)
    case StartWrite(_) => (WantsWrite, Writing)
    case EndWrite(_) => (Writing, Leaving)
    case FailWrite(_) => (Writing, Leaving)
    case ReleaseSlot(_) => (Leaving, Released)
    case Finish(_) => (Released, Finished)
  }

  lemma StepMoves(s: State, step: Step)
    requires Enabled(s, step) && MovesHandler(step)
    ensures step.h < |s.handlers| && s.handlers[step.h] == Ends(step).0
    ensures Apply(s, step).handlers == s.handlers[step.h := Ends(step).1]
  {}

  lemma EndsFlow(step: Step, stage: Stage)
    requires MovesHandler(step)
    ensures Is(stage)(Ends(step).1) - Is(stage)(Ends(step).0)
         == (if Enters(stage)(step) then 1 else 0) - (if Leaves(stage)(step) then 1 else 0)
  {}

  lemma HandlerFlow(s: State, step: Step, stage: Stage)
    requires Enabled(s, step) && MovesHandler(step)
    ensures Flows(s, step, Apply(s, step), stage)
  {
    StepMoves(s, step);
    EndsFlow(step, stage);
    TotalUpdate(s.handlers, step.h, Ends(step).1, Is(stage));
  }

  lemma StepFlow(s: State, step: Step, stage: Stage)
    requires Enabled(s, step)
    ensures Flows(s, step, Apply(s, step), stage)
  {
    if MovesHandler(step) {
      HandlerFlow(s, step, stage);
    } else if step.Spawn? {
      TotalSnoc(s.handlers, Handling, Is(stage));
    } else {
      assert Apply(s, step).handlers == s.handlers;
    }
  }

  // The handlers at a stage are those that were there and those that came, less those that
  // went on.
  lemma {:induction false} FlowIsConserved(s: State, steps: seq<Step>, stage: Stage)
    requires Valid(s, steps)
    ensures Total(After(s, steps).handlers, Is(stage))
         == Total(s.handlers, Is(stage)) + Count(steps, Enters(stage)) - Count(steps, Leaves(stage))
    decreases |steps|
  {
    if steps != [] {
      StepFlow(s, steps[0], stage);
      FlowIsConserved(Apply(s, steps[0]), steps[1..], stage);
    }
  }

  lemma {:induction false} WritesAreCounted(s: State, steps: seq<Step>)
    requires Valid(s, steps)
    ensures After(s, steps).writes == s.writes + Count(steps, StartsWrite)
    ensures |After(s, steps).handlers| == |s.handlers| + Count(steps, Spawns)
    decreases |steps|
  {
    if steps != [] { WritesAreCounted(Apply(s, steps[0]), steps[1..]); }
  }

  function InHand(s: State): int { if s.loop == Acquiring || s.loop == Acquired then 1 else 0 }

  lemma {:induction false} ReadsAreCounted(s: State, steps: seq<Step>)
    requires Valid(s, steps)
    ensures InHand(After(s, steps))
            + Count(steps, Spawns) + Count(steps, SeesCancel)
         == InHand(s) + Count(steps, ReadsRequest)
    decreases |steps|
  {
    if steps != [] { ReadsAreCounted(Apply(s, steps[0]), steps[1..]); }
  }

  lemma {:induction false} SameCount(steps: seq<Step>, kind: Step -> bool, other: Step -> bool)
    requires forall step :: kind(step) == other(step)
    ensures Count(steps, kind) == Count(steps, other)
    decreases |steps|
  {
    if steps != [] { SameCount(steps[1..], kind, other); }
  }

  // In every run each request read is started as a handler, unless cancellation was seen
  // first or it is still in hand; and each answer of `handle` has had its write begun, or its
  // handler is waiting for the mutex.
  lemma EveryAnswerIsWritten(steps: seq<Step>)
    requires Valid(INITIAL, steps)
    ensures var s := After(INITIAL, steps);
            && Count(steps, Answers) == s.writes + Total(s.handlers, Is(WantsWrite))
            && Count(steps, ReadsRequest)
                 == |s.handlers| + Count(steps, SeesCancel) + InHand(s)
  {
    FlowIsConserved(INITIAL, steps, WantsWrite);
    WritesAreCounted(INITIAL, steps);
    ReadsAreCounted(INITIAL, steps);
    SameCount(steps, Enters(WantsWrite), Answers);
    SameCount(steps, Leaves(WantsWrite), StartsWrite);
  }

  // The context is cancelled by whoever started serve, or when the loop has ended; the
  // connection is closed by a failed ping, or when the loop has ended.
  lemma {:induction false} CancelledAndClosed(s: State, steps: seq<Step>)
    requires Valid(s, steps)
    ensures After(s, steps).cancelled <==> s.cancelled || Cancel in steps || Close in steps
    ensures After(s, steps).closed <==> s.closed || PingFails in steps || Close in steps
    decreases |steps|
  {
    if steps != [] {
      CancelledAndClosed(Apply(s, steps[0]), steps[1..]);
      assert forall step :: step in steps <==> step == steps[0] || step in steps[1..];
    }
  }

  lemma {:induction false} UncancelledIsNotSeen(s: State, steps: seq<Step>)
    requires Valid(s, steps) && Cancel !in steps
    requires s.cancelled ==> s.loop == Draining || s.loop == Returned
    ensures SeeCancel !in steps
    decreases |steps|
  {
    if steps != [] { UncancelledIsNotSeen(Apply(s, steps[0]), steps[1..]); }
  }

  // A request that was read is dropped only in a run that was cancelled from outside.
  lemma OnlyCancellationDropsRequests(steps: seq<Step>)
    requires Valid(INITIAL, steps) && SeeCancel in steps
    ensures Cancel in steps
  {
    if Cancel !in steps { UncancelledIsNotSeen(INITIAL, steps); }
  }

  // A request can be served.

  ghost predicate Leads(s: State, steps: seq<Step>, s': State) {
    Valid(s, steps) && After(s, steps) == s' && forall i | 0 <= i < |steps| :: Serves(steps[i])
  }

  // A step in which nothing fails, is given up or cancelled.
  predicate Serves(step: Step) {
    || step.ReadRequest? || step.TakeSlot? || step.Spawn? || step.Answer? || step.StartWrite? || step.EndWrite?
    || step.ReleaseSlot? || step.Finish?
  }

  lemma {:induction false} LeadsJoin(s: State, first: seq<Step>, t: State, second: seq<Step>, u: State)
    requires Leads(s, first, t) && Leads(t, second, u)
    ensures Leads(s, first + second, u)
    decreases |first|
  {
    if first == [] {
      assert first + second == second;
    } else {
      assert (first + second)[1..] == first[1..] + second;
      LeadsJoin(Apply(s, first[0]), first[1..], t, second, u);
    }
  }

  lemma StepLeads(s: State, step: Step)
    requires Inv(s) && Enabled(s, step) && Serves(step)
    ensures Leads(s, [step], Apply(s, step)) && Inv(Apply(s, step))
  {
    assert [step][1..] == [];
    StepKeepsInv(s, step);
  }

  lemma Then(s: State, steps: seq<Step>, t: State, step: Step) returns (more: seq<Step>, u: State)
    requires Leads(s, steps, t) && Inv(t) && Enabled(t, step) && Serves(step)
    ensures more == steps + [step] && u == Apply(t, step) && Leads(s, more, u) && Inv(u)
  {
    StepLeads(t, step);
    LeadsJoin(s, steps, t, [step], Apply(t, step));
    more, u := steps + [step], Apply(t, step);
  }

  // How handler h goes on when all goes well.
  function Onward(s: State, h: nat): Step
    requires h < |s.handlers| && s.handlers[h] != Finished
  {
    match s.handlers[h]
    case Handling => Answer(h)
    case WantsWrite => StartWrite(h)
    case Writing => EndWrite(h)
    case Leaving => ReleaseSlot(h)
    case Released => Finish(h)
  }

  // With every slot taken some handler can go on towards giving its slot back.
  ghost function Blocking(s: State): (h: nat)
    requires Inv(s) && s.loop == Acquiring && s.slots > 0
    ensures h < |s.handlers| && Occupies()(s.handlers[h]) == 1 && Enabled(s, Onward(s, h))
  {
    TotalIsNonNegative(s.handlers, Occupies());
    var h: nat :| h < |s.handlers| && Occupies()(s.handlers[h]) != 0;
    if s.writer == NOBODY then h else s.writer
  }

  lemma OnwardIsNearer(s: State, h: nat)
    requires h < |s.handlers| && s.handlers[h] != Finished && Enabled(s, Onward(s, h))
    ensures DistanceOf(Apply(s, Onward(s, h))) < DistanceOf(s)
    ensures Apply(s, Onward(s, h)).loop == s.loop && |Apply(s, Onward(s, h)).handlers| == |s.handlers|
    ensures Apply(s, Onward(s, h)).writes >= s.writes && Serves(Onward(s, h))
  {
    TotalUpdate(s.handlers, h, Apply(s, Onward(s, h)).handlers[h], Distance());
  }

  lemma {:induction false} SlotFrees(s: State) returns (steps: seq<Step>, s': State)
    requires Inv(s) && s.loop == Acquiring
    ensures Leads(s, steps, s') && Inv(s') && s'.loop == Acquiring && s'.slots < 100
    ensures |s'.handlers| == |s.handlers| && s'.writes >= s.writes
    decreases DistanceOf(s)
  {
    steps, s' := [], s;
    if s.slots >= 100 {
      var h := Blocking(s);
      var step := Onward(s, h);
      OnwardIsNearer(s, h);
      StepLeads(s, step);
      var rest;
      rest, s' := SlotFrees(Apply(s, step));
      LeadsJoin(s, [step], Apply(s, step), rest, s');
      steps := [step] + rest;
    }
  }

  function WriteSteps(h: nat): seq<Step> { [Answer(h), StartWrite(h), EndWrite(h)] }

  lemma HandlerWrites(s: State, h: nat) returns (s': State)
    requires Inv(s) && s.loop == Reading && At(s, h, Handling) && s.writer == NOBODY
    ensures Leads(s, WriteSteps(h), s') && Inv(s') && s'.loop == Reading
    ensures |s'.handlers| == |s.handlers| && At(s', h, Leaving) && s'.writes == s.writes + 1
  {
    var steps := [Answer(h)];
    StepLeads(s, Answer(h));
    s' := Apply(s, Answer(h));
    steps, s' := Then(s, steps, s', StartWrite(h));
    steps, s' := Then(s, steps, s', EndWrite(h));
    assert steps == WriteSteps(h);
  }

  lemma HandlerLeaves(s: State, h: nat) returns (s': State)
    requires Inv(s) && s.loop == Reading && At(s, h, Leaving)
    ensures Leads(s, [ReleaseSlot(h), Finish(h)], s') && s'.loop == Reading
    ensures |s'.handlers| == |s.handlers| && At(s', h, Finished) && s'.writes == s.writes
  {
    TotalIsNonNegative(s.handlers, Occupies());
    assert Occupies()(s.handlers[h]) == 1;
    var steps := [ReleaseSlot(h)];
    StepLeads(s, ReleaseSlot(h));
    s' := Apply(s, ReleaseSlot(h));
    steps, s' := Then(s, steps, s', Finish(h));
    assert steps == [ReleaseSlot(h), Finish(h)];
  }

  // From the moment it is started, a handler can have its answer written.
  lemma HandlerServes(s: State, h: nat) returns (s': State)
    requires Inv(s) && s.loop == Reading && At(s, h, Handling) && s.writer == NOBODY
    ensures Leads(s, WriteSteps(h) + [ReleaseSlot(h), Finish(h)], s') && s'.loop == Reading
    ensures |s'.handlers| == |s.handlers| && At(s', h, Finished) && s'.writes == s.writes + 1
  {
    var t := HandlerWrites(s, h);
    s' := HandlerLeaves(t, h);
    LeadsJoin(s, WriteSteps(h), t, [ReleaseSlot(h), Finish(h)], s');
  }

  // Reading goes on to a started handler once a slot is free.
  lemma SlotStarts(s: State) returns (s': State)
    requires Inv(s) && s.loop == Acquiring && s.slots < 100
    ensures Leads(s, [TakeSlot, Spawn], s') && Inv(s') && s'.loop == Reading && s'.writer == s.writer
    ensures s'.handlers == s.handlers + [Handling] && s'.writes == s.writes
  {
    StepLeads(s, TakeSlot);
    var steps;
    steps, s' := Then(s, [TakeSlot], Apply(s, TakeSlot), Spawn);
    assert steps == [TakeSlot, Spawn];
  }

  lemma MutexFrees(s: State, h: nat) returns (steps: seq<Step>, s': State)
    requires Inv(s) && s.loop == Reading && At(s, h, Handling)
    ensures Leads(s, steps, s') && Inv(s') && s'.loop == Reading && At(s', h, Handling) && s'.writer == NOBODY
    ensures |s'.handlers| == |s.handlers| && s'.writes == s.writes
  {
    steps, s' := [], s;
    if s.writer != NOBODY {
      StepLeads(s, EndWrite(s.writer));
      steps, s' := [EndWrite(s.writer)], Apply(s, EndWrite(s.writer));
    }
  }

  // Whenever serve is reading, the next request can be read, given a slot, handled and
  // written without anything failing, given up or cancelled on the way; however many slots
  // are taken, and whoever is writing.
  lemma RequestCanBeServed(s: State)
    requires Reachable(s) && s.loop == Reading
    ensures exists steps, s' ::
              && Leads(s, steps, s') && s'.loop == Reading && s'.writes > s.writes
              && |s'.handlers| == |s.handlers| + 1 && At(s', |s.handlers|, Finished)
              && StartWrite(|s.handlers|) in steps && EndWrite(|s.handlers|) in steps
  {
    ReachableInv(s);
    StepLeads(s, ReadRequest);
    var reading, h := Apply(s, ReadRequest), |s.handlers|;
    var steps, t := SlotFrees(reading);
    LeadsJoin(s, [ReadRequest], reading, steps, t);
    steps := [ReadRequest] + steps;
    var started := SlotStarts(t);
    LeadsJoin(s, steps, t, [TakeSlot, Spawn], started);
    steps := steps + [TakeSlot, Spawn];
    var more, free := MutexFrees(started, h);
    LeadsJoin(s, steps, started, more, free);
    steps := steps + more;
    var served := HandlerServes(free, h);
    LeadsJoin(s, steps, free, WriteSteps(h) + [ReleaseSlot(h), Finish(h)], served);
    steps := steps + (WriteSteps(h) + [ReleaseSlot(h), Finish(h)]);
    assert StartWrite(h) in WriteSteps(h) && EndWrite(h) in WriteSteps(h);
  }

  function DirectSteps(h: nat): seq<Step> {
    [ReadRequest] + [TakeSlot, Spawn] + (WriteSteps(h) + [ReleaseSlot(h), Finish(h)])
  }

  // With a slot free and nobody writing it takes just these steps, and one write.
  lemma RequestIsServedDirectly(s: State)
    requires Reachable(s) && s.loop == Reading && s.slots < 100 && s.writer == NOBODY
    ensures exists s' ::
              && Leads(s, DirectSteps(|s.handlers|), s') && s'.loop == Reading && s'.writes == s.writes + 1
              && |s'.handlers| == |s.handlers| + 1 && At(s', |s.handlers|, Finished)
  {
    ReachableInv(s);
    StepLeads(s, ReadRequest);
    var reading, h := Apply(s, ReadRequest), |s.handlers|;
    var started := SlotStarts(reading);
    LeadsJoin(s, [ReadRequest], reading, [TakeSlot, Spawn], started);
    var served := HandlerServes(started, h);
    LeadsJoin(s, [ReadRequest] + [TakeSlot, Spawn], started, WriteSteps(h) + [ReleaseSlot(h), Finish(h)], served);
  }
}
