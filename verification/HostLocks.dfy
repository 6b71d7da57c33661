/**
 The host's locks.  Every routine of `internal/host/tunnel.go` is written down as the list
 of lock and channel operations it performs and of the shared data it touches; a machine runs
 any number of such lists at once.  No two goroutines ever touch the same data at the same
 time unless both only read it, and from every reachable state every goroutine that wants a
 lock can be given it by letting only the holders in its way run on.
 */
module HostLocks {

  // Mutexes other than the RWMutex `mu`: the two of the host and one per connection.
  datatype Mutex = Rng | Req | Conn(client: nat)

  // What goroutines share: the two maps, the recent rows, the random source, and each
  // connection's write side.
  datatype Field = Clients | Pending | Rows | Random | Wire(client: nat)

  datatype Access = Read(field: Field) | Write(field: Field)

  // Locking an RWMutex for writing is two operations: announce, which keeps new readers
  // out, then enter, once the readers inside have left.
  datatype Op =
    | Announce | EnterMu | LeaveMu
    | RLock | RUnlock
    | Lock(mutex: Mutex) | Unlock(mutex: Mutex)
    | Touch(access: Access)
    | ChannelOp

  type Program = seq<Op>

  // What a goroutine holds, as far as the discipline below distinguishes.
  datatype Holding = Nothing | MuAnnounced | MuHeld | MuAndRng | Reading | One(mutex: Mutex)

  // Does holding h allow the access?
  predicate Guards(h: Holding, access: Access) {
    match access.field
    case Clients => h == MuHeld || (h == Reading && access.Read?)
    case Pending => h == MuHeld
    case Rows => h == One(Req)
    case Random => h == MuAndRng
    case Wire(c) => h == One(Conn(c))
  }

  // The one discipline: `rngMu` only inside `mu`, nothing else nested, every access under its
  // lock, no lock held across a channel operation.  False: the operation breaks it.
  function Next(h: Holding, op: Op): (bool, Holding) {
    match op
    case Announce => (h == Nothing, MuAnnounced)
    case EnterMu => (h == MuAnnounced, MuHeld)
    case LeaveMu => (h == MuHeld, Nothing)
    case RLock => (h == Nothing, Reading)
    case RUnlock => (h == Reading, Nothing)
    case Lock(m) => if m == Rng then (h == MuHeld, MuAndRng) else (h == Nothing, One(m))
    case Unlock(m) => if m == Rng then (h == MuAndRng, MuHeld) else (h == One(m), Nothing)
    case Touch(access) => (Guards(h, access), h)
    case ChannelOp => (h == Nothing, Nothing)
  }

  // The program keeps the discipline from h on, and ends holding nothing.
  predicate Disciplined(h: Holding, program: Program)
    decreases |program|
  {
    if program == [] then h == Nothing
    else Next(h, program[0]).0 && Disciplined(Next(h, program[0]).1, program[1..])
  }

  // Critical sections as the source writes them.

  function Touches(accesses: seq<Access>): Program {
    if accesses == [] then [] else [Touch(accesses[0])] + Touches(accesses[1..])
  }

  function MuSection(accesses: seq<Access>): Program { [Announce, EnterMu] + (Touches(accesses) + [LeaveMu]) }

  function ReadSection(accesses: seq<Access>): Program { [RLock] + (Touches(accesses) + [RUnlock]) }

  function MutexSection(m: Mutex, accesses: seq<Access>): Program { [Lock(m)] + (Touches(accesses) + [Unlock(m)]) }

  function Repeated(access: Access, n: nat): seq<Access> {
    if n == 0 then [] else [access] + Repeated(access, n - 1)
  }

  // One round of the random search: two numbers are drawn, then the name is looked up.
  const ATTEMPT: Program :=
    MutexSection(Rng, [Write(Random)]) + (MutexSection(Rng, [Write(Random)]) + [Touch(Read(Clients))])

  function Attempts(n: nat): Program { if n == 0 then [] else ATTEMPT + Attempts(n - 1) }

  // How a search for a name went: names looked up without drawing, rounds of drawing, and
  // whether a free one was found and reserved.
  datatype Search = Search(lookups: nat, attempts: nat, found: bool)

  function Reserving(found: bool): seq<Access> { if found then [Write(Clients)] else [] }

  function AssignSection(a: Search): Program {
    [Announce, EnterMu] +
    (Touches(Repeated(Read(Clients), a.lookups)) + (Attempts(a.attempts) + (Touches(Reserving(a.found)) + [LeaveMu])))
  }

  // releaseName and dropClient: look the entry up, and delete it if it is one's own.
  function RemoveSection(own: bool): Program {
    MuSection([Read(Clients)] + if own then [Write(Clients)] else [])
  }

  // readPump: for each response a lookup, and if someone waits for it a removal and, outside
  // the lock, a channel send.
  function PumpLoop(routed: seq<bool>): Program {
    if routed == [] then []
    else
      MuSection([Read(Pending)] + if routed[0] then [Write(Pending)] else []) +
      ((if routed[0] then [ChannelOp] else []) + PumpLoop(routed[1..]))
  }

  function SendSection(c: nat): Program { MutexSection(Conn(c), [Write(Wire(c))]) }

  // The routines that goroutines of the host run.
  datatype Routine =
    | RejectedConn(search: Search)
    | UnacceptedConn(search: Search, own: bool)
    | ServedConn(search: Search, client: nat, info: bool, routed: seq<bool>, own: bool)
    | FailedSend(client: nat)
    | AnsweredCall(client: nat)
    | AbandonedCall(client: nat)
    | Lookup(entries: nat)   // GetClient, GetAnyClient, ActiveByUser, AllActive
    | Recent                 // RecentRequests

  function Call(c: nat, ending: Program): Program {
    MuSection([Write(Pending)]) + (SendSection(c) + ending)
  }

  function ProgramOf(r: Routine): Program {
    match r
    case RejectedConn(a) => AssignSection(a)
    case UnacceptedConn(a, own) => AssignSection(a) + RemoveSection(own)
    case ServedConn(a, c, info, routed, own) =>
      AssignSection(a) +
      (MuSection([Write(Clients)]) + ((if info then SendSection(c) else []) + (PumpLoop(routed) + RemoveSection(own))))
    case FailedSend(c) => Call(c, MuSection([Write(Pending)]))
    case AnsweredCall(c) => Call(c, [ChannelOp] + MutexSection(Req, [Read(Rows), Write(Rows)]))
    case AbandonedCall(c) => Call(c, [ChannelOp] + MuSection([Write(Pending)]))
    case Lookup(n) => ReadSection(Repeated(Read(Clients), n))
    case Recent => MutexSection(Req, [Read(Rows)])
  }

  lemma {:induction false} DisciplinedConcat(h: Holding, p: Program, q: Program)
    requires Disciplined(h, p) && Disciplined(Nothing, q)
    ensures Disciplined(h, p + q)
    decreases |p|
  {
    if p == [] {
      assert p + q == q;
    } else {
      assert (p + q)[1..] == p[1..] + q && (p + q)[0] == p[0];
      DisciplinedConcat(Next(h, p[0]).1, p[1..], q);
    }
  }

  // One allowed operation, then a disciplined rest.
  lemma DisciplinedCons(h: Holding, op: Op, rest: Program)
    requires Next(h, op).0 && Disciplined(Next(h, op).1, rest)
    ensures Disciplined(h, [op] + rest)
  {
    assert ([op] + rest)[1..] == rest && ([op] + rest)[0] == op;
  }

  lemma {:induction false} TouchesKeep(h: Holding, accesses: seq<Access>, rest: Program)
    requires forall i | 0 <= i < |accesses| :: Guards(h, accesses[i])
    requires Disciplined(h, rest)
    ensures Disciplined(h, Touches(accesses) + rest)
  {
    if accesses == [] {
      assert Touches(accesses) + rest == rest;
    } else {
      TouchesKeep(h, accesses[1..], rest);
      DisciplinedCons(h, Touch(accesses[0]), Touches(accesses[1..]) + rest);
      assert Touches(accesses) + rest == [Touch(accesses[0])] + (Touches(accesses[1..]) + rest);
    }
  }

  lemma LastUnlocks(h: Holding, op: Op)
    requires Next(h, op) == (true, Nothing)
    ensures Disciplined(h, [op])
  {
    assert [op][1..] == [];
  }

  lemma EntersMu(rest: Program)
    requires Disciplined(MuHeld, rest)
    ensures Disciplined(Nothing, [Announce, EnterMu] + rest)
  {
    DisciplinedCons(MuAnnounced, EnterMu, rest);
    DisciplinedCons(Nothing, Announce, [EnterMu] + rest);
    assert [Announce] + ([EnterMu] + rest) == [Announce, EnterMu] + rest;
  }

  lemma MuIsDisciplined(accesses: seq<Access>)
    requires forall i | 0 <= i < |accesses| :: Guards(MuHeld, accesses[i])
    ensures Disciplined(Nothing, MuSection(accesses))
  {
    LastUnlocks(MuHeld, LeaveMu);
    TouchesKeep(MuHeld, accesses, [LeaveMu]);
    EntersMu(Touches(accesses) + [LeaveMu]);
  }

  lemma ReadIsDisciplined(accesses: seq<Access>)
    requires forall i | 0 <= i < |accesses| :: Guards(Reading, accesses[i])
    ensures Disciplined(Nothing, ReadSection(accesses))
  {
    LastUnlocks(Reading, RUnlock);
    TouchesKeep(Reading, accesses, [RUnlock]);
    DisciplinedCons(Nothing, RLock, Touches(accesses) + [RUnlock]);
  }

  lemma MutexIsDisciplined(m: Mutex, accesses: seq<Access>)
    requires m != Rng && forall i | 0 <= i < |accesses| :: Guards(One(m), accesses[i])
    ensures Disciplined(Nothing, MutexSection(m, accesses))
  {
    LastUnlocks(One(m), Unlock(m));
    TouchesKeep(One(m), accesses, [Unlock(m)]);
    DisciplinedCons(Nothing, Lock(m), Touches(accesses) + [Unlock(m)]);
  }

  // A draw inside `mu`, then the rest of what happens there.
  lemma DrawKeeps(rest: Program)
    requires Disciplined(MuHeld, rest)
    ensures Disciplined(MuHeld, MutexSection(Rng, [Write(Random)]) + rest)
  {
    var draw := [Write(Random)];
    DisciplinedCons(MuAndRng, Unlock(Rng), rest);
    TouchesKeep(MuAndRng, draw, [Unlock(Rng)] + rest);
    DisciplinedCons(MuHeld, Lock(Rng), Touches(draw) + ([Unlock(Rng)] + rest));
    assert MutexSection(Rng, draw) + rest == [Lock(Rng)] + (Touches(draw) + ([Unlock(Rng)] + rest));
  }

  lemma AttemptKeeps(rest: Program)
    requires Disciplined(MuHeld, rest)
    ensures Disciplined(MuHeld, ATTEMPT + rest)
  {
    var draw, look := MutexSection(Rng, [Write(Random)]), [Touch(Read(Clients))];
    DisciplinedCons(MuHeld, Touch(Read(Clients)), rest);
    DrawKeeps(look + rest);
    DrawKeeps(draw + (look + rest));
    assert ATTEMPT + rest == draw + (draw + (look + rest));
  }

  lemma {:induction false} AttemptsKeep(n: nat, rest: Program)
    requires Disciplined(MuHeld, rest)
    ensures Disciplined(MuHeld, Attempts(n) + rest)
  {
    if n == 0 {
      assert Attempts(n) + rest == rest;
    } else {
      AttemptsKeep(n - 1, rest);
      AttemptKeeps(Attempts(n - 1) + rest);
      assert Attempts(n) + rest == ATTEMPT + (Attempts(n - 1) + rest);
    }
  }

  lemma {:induction false} RepeatedIs(access: Access, n: nat)
    ensures forall i | 0 <= i < |Repeated(access, n)| :: Repeated(access, n)[i] == access
  {
    if n > 0 { RepeatedIs(access, n - 1); }
  }

  lemma AssignIsDisciplined(a: Search)
    ensures Disciplined(Nothing, AssignSection(a))
  {
    LastUnlocks(MuHeld, LeaveMu);
    TouchesKeep(MuHeld, Reserving(a.found), [LeaveMu]);
    AttemptsKeep(a.attempts, Touches(Reserving(a.found)) + [LeaveMu]);
    RepeatedIs(Read(Clients), a.lookups);
    TouchesKeep(MuHeld, Repeated(Read(Clients), a.lookups),
                Attempts(a.attempts) + (Touches(Reserving(a.found)) + [LeaveMu]));
    EntersMu(Touches(Repeated(Read(Clients), a.lookups)) +
             (Attempts(a.attempts) + (Touches(Reserving(a.found)) + [LeaveMu])));
  }

  lemma {:induction false} PumpIsDisciplined(routed: seq<bool>)
    ensures Disciplined(Nothing, PumpLoop(routed))
  {
    if routed != [] {
      PumpIsDisciplined(routed[1..]);
      if routed[0] {
        DisciplinedCons(Nothing, ChannelOp, PumpLoop(routed[1..]));
      } else {
        assert [] + PumpLoop(routed[1..]) == PumpLoop(routed[1..]);
      }
      var accesses := [Read(Pending)] + if routed[0] then [Write(Pending)] else [];
      MuIsDisciplined(accesses);
      DisciplinedConcat(Nothing, MuSection(accesses),
                        (if routed[0] then [ChannelOp] else []) + PumpLoop(routed[1..]));
    }
  }

  lemma CallIsDisciplined(c: nat, ending: Program)
    requires Disciplined(Nothing, ending)
    ensures Disciplined(Nothing, Call(c, ending))
  {
    MutexIsDisciplined(Conn(c), [Write(Wire(c))]);
    DisciplinedConcat(Nothing, SendSection(c), ending);
    MuIsDisciplined([Write(Pending)]);
    DisciplinedConcat(Nothing, MuSection([Write(Pending)]), SendSection(c) + ending);
  }

  lemma ServedIsDisciplined(a: Search, c: nat, info: bool, routed: seq<bool>, own: bool)
    ensures Disciplined(Nothing, ProgramOf(ServedConn(a, c, info, routed, own)))
  {
    AssignIsDisciplined(a);
    MuIsDisciplined([Write(Clients)]);
    MuIsDisciplined([Read(Clients)] + if own then [Write(Clients)] else []);
    PumpIsDisciplined(routed);
    MutexIsDisciplined(Conn(c), [Write(Wire(c))]);
    var tail := PumpLoop(routed) + RemoveSection(own);
    DisciplinedConcat(Nothing, PumpLoop(routed), RemoveSection(own));
    var greeting := if info then SendSection(c) else [];
    DisciplinedConcat(Nothing, greeting, tail);
    DisciplinedConcat(Nothing, MuSection([Write(Clients)]), greeting + tail);
    DisciplinedConcat(Nothing, AssignSection(a), MuSection([Write(Clients)]) + (greeting + tail));
  }

  // Every routine of the host keeps the discipline.
  lemma RoutinesAreDisciplined(r: Routine)
    ensures Disciplined(Nothing, ProgramOf(r))
  {
    match r
    case RejectedConn(a) => AssignIsDisciplined(a);
    case UnacceptedConn(a, own) =>
      AssignIsDisciplined(a);
      MuIsDisciplined([Read(Clients)] + if own then [Write(Clients)] else []);
      DisciplinedConcat(Nothing, AssignSection(a), RemoveSection(own));
    case ServedConn(a, c, info, routed, own) => ServedIsDisciplined(a, c, info, routed, own);
    case FailedSend(c) =>
      MuIsDisciplined([Write(Pending)]);
      CallIsDisciplined(c, MuSection([Write(Pending)]));
    case AnsweredCall(c) =>
      MutexIsDisciplined(Req, [Read(Rows), Write(Rows)]);
      DisciplinedCons(Nothing, ChannelOp, MutexSection(Req, [Read(Rows), Write(Rows)]));
      CallIsDisciplined(c, [ChannelOp] + MutexSection(Req, [Read(Rows), Write(Rows)]));
    case AbandonedCall(c) =>
      MuIsDisciplined([Write(Pending)]);
      DisciplinedCons(Nothing, ChannelOp, MuSection([Write(Pending)]));
      CallIsDisciplined(c, [ChannelOp] + MuSection([Write(Pending)]));
    case Lookup(n) =>
      RepeatedIs(Read(Clients), n);
      ReadIsDisciplined(Repeated(Read(Clients), n));
    case Recent => MutexIsDisciplined(Req, [Read(Rows)]);
  }

  // What a routine does besides locking.

  function Effects(p: Program): Program {
    if p == [] then [] else EffectOf(p[0]) + Effects(p[1..])
  }

  function EffectOf(op: Op): Program { if op.Touch? || op.ChannelOp? then [op] else [] }

  lemma {:induction false} EffectsConcat(p: Program, q: Program)
    ensures Effects(p + q) == Effects(p) + Effects(q)
  {
    if p == [] {
      assert p + q == q;
    } else {
      var tail := p[1..];
      assert (p + q)[1..] == tail + q && (p + q)[0] == p[0];
      EffectsConcat(tail, q);
      assert EffectOf(p[0]) + (Effects(tail) + Effects(q)) == (EffectOf(p[0]) + Effects(tail)) + Effects(q);
    }
  }

  lemma {:induction false} EffectsOfTouches(accesses: seq<Access>)
    ensures Effects(Touches(accesses)) == Touches(accesses)
  {
    if accesses != [] {
      EffectsConcat([Touch(accesses[0])], Touches(accesses[1..]));
      assert [Touch(accesses[0])][1..] == [];
      EffectsOfTouches(accesses[1..]);
    }
  }

  lemma EffectsOfOne(op: Op)
    ensures Effects([op]) == EffectOf(op)
  {
    assert [op][1..] == [];
  }

  lemma EffectsAround(before: Program, accesses: seq<Access>, after: Op)
    requires Effects(before) == [] && Effects([after]) == []
    ensures Effects(before + (Touches(accesses) + [after])) == Touches(accesses)
  {
    EffectsOfTouches(accesses);
    EffectsConcat(Touches(accesses), [after]);
    EffectsConcat(before, Touches(accesses) + [after]);
  }

  lemma EnteringHasNoEffect()
    ensures Effects([Announce, EnterMu]) == []
  {
    EffectsOfOne(Announce);
    EffectsOfOne(EnterMu);
    EffectsConcat([Announce], [EnterMu]);
    assert [Announce] + [EnterMu] == [Announce, EnterMu];
  }

  // Locks around accesses leave the accesses.

  lemma EffectsOfMu(accesses: seq<Access>)
    ensures Effects(MuSection(accesses)) == Touches(accesses)
  {
    EnteringHasNoEffect();
    EffectsOfOne(LeaveMu);
    EffectsAround([Announce, EnterMu], accesses, LeaveMu);
  }

  lemma EffectsOfMutex(m: Mutex, accesses: seq<Access>)
    ensures Effects(MutexSection(m, accesses)) == Touches(accesses)
  {
    EffectsOfOne(Lock(m));
    EffectsOfOne(Unlock(m));
    EffectsAround([Lock(m)], accesses, Unlock(m));
  }

  lemma EffectsOfRead(accesses: seq<Access>)
    ensures Effects(ReadSection(accesses)) == Touches(accesses)
  {
    EffectsOfOne(RLock);
    EffectsOfOne(RUnlock);
    EffectsAround([RLock], accesses, RUnlock);
  }

  lemma TouchesOne(x: Access)
    ensures Touches([x]) == [Touch(x)]
  {
    assert [x][1..] == [] && Touches([]) == [];
  }

  lemma TouchesTwo(x: Access, y: Access)
    ensures Touches([x, y]) == [Touch(x), Touch(y)]
  {
    TouchesOne(y);
    assert [x, y][1..] == [y];
    assert Touches([x, y]) == [Touch(x)] + Touches([y]);
  }

  // The effects of one call of SendHttpRequest: its registration, its request, and then
  // either its withdrawal, or what it received and the row it recorded.
  lemma CallEffects(c: nat, ending: Program)
    ensures Effects(Call(c, ending)) == [Touch(Write(Pending)), Touch(Write(Wire(c)))] + Effects(ending)
  {
    EffectsOfMu([Write(Pending)]);
    EffectsOfMutex(Conn(c), [Write(Wire(c))]);
    EffectsConcat(SendSection(c), ending);
    EffectsConcat(MuSection([Write(Pending)]), SendSection(c) + ending);
    TouchesOne(Write(Pending));
    TouchesOne(Write(Wire(c)));
  }

  lemma FailedSendDoes(c: nat)
    ensures Effects(ProgramOf(FailedSend(c)))
         == [Touch(Write(Pending)), Touch(Write(Wire(c))), Touch(Write(Pending))]
  {
    CallEffects(c, MuSection([Write(Pending)]));
    EffectsOfMu([Write(Pending)]);
    TouchesOne(Write(Pending));
  }

  lemma AnsweredCallDoes(c: nat)
    ensures Effects(ProgramOf(AnsweredCall(c)))
         == [Touch(Write(Pending)), Touch(Write(Wire(c))), ChannelOp, Touch(Read(Rows)), Touch(Write(Rows))]
  {
    var record := MutexSection(Req, [Read(Rows), Write(Rows)]);
    CallEffects(c, [ChannelOp] + record);
    EffectsOfMutex(Req, [Read(Rows), Write(Rows)]);
    EffectsOfOne(ChannelOp);
    EffectsConcat([ChannelOp], record);
    TouchesTwo(Read(Rows), Write(Rows));
  }

  lemma AbandonedCallDoes(c: nat)
    ensures Effects(ProgramOf(AbandonedCall(c)))
         == [Touch(Write(Pending)), Touch(Write(Wire(c))), ChannelOp, Touch(Write(Pending))]
  {
    var withdraw := MuSection([Write(Pending)]);
    CallEffects(c, [ChannelOp] + withdraw);
    EffectsOfMu([Write(Pending)]);
    EffectsOfOne(ChannelOp);
    EffectsConcat([ChannelOp], withdraw);
    TouchesOne(Write(Pending));
  }

  // The effects of a search, of the read loop and of giving a name back.

  function SearchEffects(a: Search): Program {
    Touches(Repeated(Read(Clients), a.lookups)) + RoundEffects(a.attempts) +
    if a.found then [Touch(Write(Clients))] else []
  }

  function RoundEffects(n: nat): Program {
    if n == 0 then []
    else [Touch(Write(Random)), Touch(Write(Random)), Touch(Read(Clients))] + RoundEffects(n - 1)
  }

  function LoopEffects(routed: seq<bool>): Program {
    if routed == [] then []
    else
      (if routed[0] then [Touch(Read(Pending)), Touch(Write(Pending)), ChannelOp] else [Touch(Read(Pending))]) +
      LoopEffects(routed[1..])
  }

  function LeaveEffects(own: bool): Program {
    if own then [Touch(Read(Clients)), Touch(Write(Clients))] else [Touch(Read(Clients))]
  }

  lemma {:induction false} AttemptsDo(n: nat)
    ensures Effects(Attempts(n)) == RoundEffects(n)
  {
    if n > 0 {
      AttemptsDo(n - 1);
      var draw, look := MutexSection(Rng, [Write(Random)]), [Touch(Read(Clients))];
      EffectsOfMutex(Rng, [Write(Random)]);
      TouchesOne(Write(Random));
      EffectsOfOne(Touch(Read(Clients)));
      EffectsConcat(draw, look);
      EffectsConcat(draw, draw + look);
      EffectsConcat(ATTEMPT, Attempts(n - 1));
    }
  }

  lemma SearchDoes(a: Search)
    ensures Effects(AssignSection(a)) == SearchEffects(a)
  {
    var looked, reserved := Repeated(Read(Clients), a.lookups), Reserving(a.found);
    EnteringHasNoEffect();
    AttemptsDo(a.attempts);
    EffectsOfTouches(looked);
    TouchesOne(Write(Clients));
    EffectsOfTouches(reserved);
    EffectsOfOne(LeaveMu);
    var end := Touches(reserved) + [LeaveMu];
    EffectsConcat(Touches(reserved), [LeaveMu]);
    EffectsConcat(Attempts(a.attempts), end);
    EffectsConcat(Touches(looked), Attempts(a.attempts) + end);
    EffectsConcat([Announce, EnterMu], Touches(looked) + (Attempts(a.attempts) + end));
  }

  lemma {:induction false} LoopDoes(routed: seq<bool>)
    ensures Effects(PumpLoop(routed)) == LoopEffects(routed)
  {
    if routed != [] {
      LoopDoes(routed[1..]);
      var accesses := [Read(Pending)] + if routed[0] then [Write(Pending)] else [];
      var send := if routed[0] then [ChannelOp] else [];
      EffectsOfMu(accesses);
      TouchesOne(Read(Pending));
      TouchesTwo(Read(Pending), Write(Pending));
      assert routed[0] ==> accesses == [Read(Pending), Write(Pending)];
      assert !routed[0] ==> accesses == [Read(Pending)];
      EffectsOfOne(ChannelOp);
      EffectsConcat(send, PumpLoop(routed[1..]));
      EffectsConcat(MuSection(accesses), send + PumpLoop(routed[1..]));
    }
  }

  lemma LeavingDoes(own: bool)
    ensures Effects(RemoveSection(own)) == LeaveEffects(own)
  {
    var accesses := [Read(Clients)] + if own then [Write(Clients)] else [];
    EffectsOfMu(accesses);
    TouchesOne(Read(Clients));
    TouchesTwo(Read(Clients), Write(Clients));
    assert own ==> accesses == [Read(Clients), Write(Clients)];
    assert !own ==> accesses == [Read(Clients)];
  }

  lemma RefusedDo(a: Search, own: bool)
    ensures Effects(ProgramOf(RejectedConn(a))) == SearchEffects(a)
    ensures Effects(ProgramOf(UnacceptedConn(a, own))) == SearchEffects(a) + LeaveEffects(own)
  {
    SearchDoes(a);
    LeavingDoes(own);
    EffectsConcat(AssignSection(a), RemoveSection(own));
  }

  function HelloEffects(c: nat, info: bool): Program { if info then [Touch(Write(Wire(c)))] else [] }

  // What a connection does in its life: search, publish, say hello if a domain is known,
  // serve its read loop, and leave.
  lemma ServedConnDoes(a: Search, c: nat, info: bool, routed: seq<bool>, own: bool)
    ensures Effects(ProgramOf(ServedConn(a, c, info, routed, own)))
         == SearchEffects(a) +
            ([Touch(Write(Clients))] + (HelloEffects(c, info) + (LoopEffects(routed) + LeaveEffects(own))))
  {
    var publish, hello := MuSection([Write(Clients)]), if info then SendSection(c) else [];
    var loop := PumpLoop(routed) + RemoveSection(own);
    LoopAndLeave(routed, own);
    assert Effects(hello) == HelloEffects(c, info) by {
      EffectsOfMutex(Conn(c), [Write(Wire(c))]);
      TouchesOne(Write(Wire(c)));
    }
    assert Effects(publish) == [Touch(Write(Clients))] by {
      EffectsOfMu([Write(Clients)]);
      TouchesOne(Write(Clients));
    }
    SearchDoes(a);
    EffectsConcat(hello, loop);
    EffectsConcat(publish, hello + loop);
    EffectsConcat(AssignSection(a), publish + (hello + loop));
  }

  lemma LoopAndLeave(routed: seq<bool>, own: bool)
    ensures Effects(PumpLoop(routed) + RemoveSection(own)) == LoopEffects(routed) + LeaveEffects(own)
  {
    LoopDoes(routed);
    LeavingDoes(own);
    EffectsConcat(PumpLoop(routed), RemoveSection(own));
  }

  lemma LookupDoes(n: nat)
    ensures Effects(ProgramOf(Lookup(n))) == Touches(Repeated(Read(Clients), n))
  {
    var accesses := Repeated(Read(Clients), n);
    EffectsOfRead(accesses);
  }

  lemma RecentDoes()
    ensures Effects(ProgramOf(Recent)) == [Touch(Read(Rows))]
  {
    EffectsOfMutex(Req, [Read(Rows)]);
    TouchesOne(Read(Rows));
  }

  // The machine.

  datatype Goroutine = Goroutine(rest: Program, holding: Holding)

  // `writer` has announced itself on `mu` or is inside; `owners` holds each locked mutex.
  datatype State = State(gs: seq<Goroutine>, writer: int, readers: set<nat>, owners: map<Mutex, nat>)

  const NOBODY := -1

  const INITIAL := State([], NOBODY, {}, map[])

  predicate HasNext(s: State, g: nat) { g < |s.gs| && s.gs[g].rest != [] }

  function Op1(s: State, g: nat): Op
    requires HasNext(s, g)
  {
    s.gs[g].rest[0]
  }

  // May goroutine g perform its next operation now?  A network write can always complete or
  // fail.  A channel operation may go on at once or never: no result below rests on one.
  predicate CanStep(s: State, g: nat) {
    && HasNext(s, g)
    && match Op1(s, g)
       case Announce => s.writer == NOBODY
       case EnterMu => s.readers == {}
       case RLock => s.writer == NOBODY
       case Lock(m) => m !in s.owners
       case _ => true
  }

  function Step(s: State, g: nat): State
    requires CanStep(s, g)
  {
    var op := Op1(s, g);
    var gs := s.gs[g := Goroutine(s.gs[g].rest[1..], Next(s.gs[g].holding, op).1)];
    match op
    case Announce => s.(gs := gs, writer := g)
    case LeaveMu => s.(gs := gs, writer := NOBODY)
    case RLock => s.(gs := gs, readers := s.readers + {g})
    case RUnlock => s.(gs := gs, readers := s.readers - {g})
    case Lock(m) => s.(gs := gs, owners := s.owners[m := g])
    case Unlock(m) => s.(gs := gs, owners := s.owners - {m})
    case _ => s.(gs := gs)
  }

  function Spawn(s: State, r: Routine): State {
    s.(gs := s.gs + [Goroutine(ProgramOf(r), Nothing)])
  }

  datatype Event = Start(routine: Routine) | Advance(g: nat)

  predicate CanHappen(s: State, e: Event) {
    match e case Start(_) => true case Advance(g) => CanStep(s, g)
  }

  function Happen(s: State, e: Event): State
    requires CanHappen(s, e)
  {
    match e case Start(r) => Spawn(s, r) case Advance(g) => Step(s, g)
  }

  predicate Valid(s: State, events: seq<Event>)
    decreases |events|
  {
    events == [] || (CanHappen(s, events[0]) && Valid(Happen(s, events[0]), events[1..]))
  }

  function After(s: State, events: seq<Event>): State
    requires Valid(s, events)
    decreases |events|
  {
    if events == [] then s else After(Happen(s, events[0]), events[1..])
  }

  ghost predicate Reachable(s: State) {
    exists events :: Valid(INITIAL, events) && After(INITIAL, events) == s
  }

  predicate HoldsMu(h: Holding) { h == MuAnnounced || h == MuHeld || h == MuAndRng }

  predicate HoldsMutex(h: Holding, m: Mutex) { if m == Rng then h == MuAndRng else h == One(m) }

  // Goroutine g's holdings agree with the locks, and the rest of its program is disciplined.
  ghost predicate Sound(s: State, g: nat)
    requires g < |s.gs|
  {
    var h := s.gs[g].holding;
    && Disciplined(h, s.gs[g].rest)
    && (HoldsMu(h) <==> s.writer == g)
    && (h == MuHeld || h == MuAndRng ==> s.readers == {})
    && (h == Reading <==> g in s.readers)
    && (forall m :: HoldsMutex(h, m) <==> m in s.owners && s.owners[m] == g)
  }

  ghost predicate Inv(s: State) {
    && (forall g: nat | g < |s.gs| :: Sound(s, g))
    && -1 <= s.writer < |s.gs|
    && (forall g | g in s.readers :: g < |s.gs|)
    && (forall m | m in s.owners :: s.owners[m] < |s.gs|)
  }

  lemma StepKeepsInv(s: State, g: nat)
    requires Inv(s) && CanStep(s, g)
    ensures Inv(Step(s, g))
  {
    var s' := Step(s, g);
    assert Sound(s, g);
    forall k: nat | k < |s'.gs| ensures Sound(s', k) {
      assert Sound(s, k);
    }
  }

  lemma SpawnKeepsInv(s: State, r: Routine)
    requires Inv(s)
    ensures Inv(Spawn(s, r))
  {
    var s' := Spawn(s, r);
    RoutinesAreDisciplined(r);
    forall k: nat | k < |s'.gs| ensures Sound(s', k) {
      assert k < |s.gs| ==> Sound(s, k);
    }
  }

  lemma {:induction false} RunKeepsInv(s: State, events: seq<Event>)
    requires Inv(s) && Valid(s, events)
    ensures Inv(After(s, events))
    decreases |events|
  {
    if events != [] {
      if events[0].Start? {
        SpawnKeepsInv(s, events[0].routine);
      } else {
        StepKeepsInv(s, events[0].g);
      }
      RunKeepsInv(Happen(s, events[0]), events[1..]);
    }
  }

  // A schedule in which only goroutines other than g run, each holding a lock when it does,
  // and none through a channel operation, which might block.
  ghost predicate HoldersRun(s: State, g: nat, schedule: seq<nat>)
    decreases |schedule|
  {
    schedule == [] ||
    (var w := schedule[0];
     && w != g && CanStep(s, w) && s.gs[w].holding != Nothing && Op1(s, w) != ChannelOp
     && HoldersRun(Step(s, w), g, schedule[1..]))
  }

  ghost function Ran(s: State, g: nat, schedule: seq<nat>): State
    requires HoldersRun(s, g, schedule)
    decreases |schedule|
  {
    if schedule == [] then s else Ran(Step(s, schedule[0]), g, schedule[1..])
  }

  lemma {:induction false} RanConcat(s: State, g: nat, a: seq<nat>, b: seq<nat>)
    requires HoldersRun(s, g, a) && HoldersRun(Ran(s, g, a), g, b)
    ensures HoldersRun(s, g, a + b) && Ran(s, g, a + b) == Ran(Ran(s, g, a), g, b)
    decreases |a|
  {
    if a == [] {
      assert a + b == b;
    } else {
      assert (a + b)[1..] == a[1..] + b && (a + b)[0] == a[0];
      RanConcat(Step(s, a[0]), g, a[1..], b);
    }
  }

  lemma StepThen(s: State, g: nat, w: nat, rest: seq<nat>)
    requires w != g && CanStep(s, w) && s.gs[w].holding != Nothing && Op1(s, w) != ChannelOp
    requires HoldersRun(Step(s, w), g, rest)
    ensures HoldersRun(s, g, [w] + rest) && Ran(s, g, [w] + rest) == Ran(Step(s, w), g, rest)
  {
    assert ([w] + rest)[1..] == rest && ([w] + rest)[0] == w;
  }

  // The writer inside `mu` can run on until it leaves.
  lemma {:induction false} WriterLeaves(s: State, g: nat) returns (schedule: seq<nat>)
    requires Inv(s) && 0 <= s.writer && s.writer != g < |s.gs|
    requires s.gs[s.writer].holding == MuHeld || s.gs[s.writer].holding == MuAndRng
    ensures HoldersRun(s, g, schedule)
    ensures var t := Ran(s, g, schedule); Inv(t) && |t.gs| == |s.gs| && t.gs[g] == s.gs[g] && t.writer == NOBODY
    decreases |s.gs[s.writer].rest|
  {
    var w: nat := s.writer;
    assert Sound(s, w);
    assert Rng in s.owners ==> Sound(s, s.owners[Rng]);
    assert CanStep(s, w);
    StepKeepsInv(s, w);
    var t := Step(s, w);
    if t.writer == NOBODY {
      schedule := [];
    } else {
      schedule := WriterLeaves(t, g);
    }
    StepThen(s, g, w, schedule);
    schedule := [w] + schedule;
  }

  // The owner of a mutex other than rngMu can run on until it unlocks it.
  lemma {:induction false} OwnerUnlocks(s: State, g: nat, m: Mutex) returns (schedule: seq<nat>)
    requires Inv(s) && m != Rng && m in s.owners && s.owners[m] != g < |s.gs|
    ensures HoldersRun(s, g, schedule)
    ensures var t := Ran(s, g, schedule); Inv(t) && |t.gs| == |s.gs| && t.gs[g] == s.gs[g] && m !in t.owners
    decreases |s.gs[s.owners[m]].rest|
  {
    var w := s.owners[m];
    assert Sound(s, w);
    StepKeepsInv(s, w);
    var t := Step(s, w);
    if m !in t.owners {
      schedule := [];
    } else {
      schedule := OwnerUnlocks(t, g, m);
    }
    StepThen(s, g, w, schedule);
    schedule := [w] + schedule;
  }

  // A reader inside `mu` can run on until it leaves; nobody else moves.
  lemma {:induction false} ReaderLeaves(s: State, g: nat, w: nat) returns (schedule: seq<nat>)
    requires Inv(s) && g < |s.gs| && w != g && w in s.readers
    ensures HoldersRun(s, g, schedule)
    ensures var t := Ran(s, g, schedule);
            && Inv(t) && |t.gs| == |s.gs| && t.readers == s.readers - {w} && t.writer == s.writer
            && forall k: nat | k < |s.gs| && k != w :: t.gs[k] == s.gs[k]
    decreases |s.gs[w].rest|
  {
    assert Sound(s, w);
    StepKeepsInv(s, w);
    var t := Step(s, w);
    if w !in t.readers {
      schedule := [];
    } else {
      assert t.readers == s.readers;
      schedule := ReaderLeaves(t, g, w);
    }
    StepThen(s, g, w, schedule);
    schedule := [w] + schedule;
  }

  // The readers of `mu` can all leave; nobody else moves.
  lemma {:induction false} ReadersLeave(s: State, g: nat) returns (schedule: seq<nat>)
    requires Inv(s) && g < |s.gs| && g !in s.readers
    ensures HoldersRun(s, g, schedule)
    ensures var t := Ran(s, g, schedule);
            && Inv(t) && |t.gs| == |s.gs| && t.readers == {} && t.writer == s.writer
            && forall k: nat | k < |s.gs| && k !in s.readers :: t.gs[k] == s.gs[k]
    decreases |s.readers|
  {
    if s.readers == {} {
      schedule := [];
    } else {
      var w :| w in s.readers;
      assert Sound(s, w);
      var first := ReaderLeaves(s, g, w);
      var rest := ReadersLeave(Ran(s, g, first), g);
      RanConcat(s, g, first, rest);
      schedule := first + rest;
    }
  }

  // Whoever keeps others out of `mu` can run on until the way is free.
  lemma MuClears(s: State, g: nat) returns (schedule: seq<nat>)
    requires Inv(s) && g < |s.gs| && s.gs[g].holding == Nothing
    ensures HoldersRun(s, g, schedule)
    ensures var t := Ran(s, g, schedule); Inv(t) && |t.gs| == |s.gs| && t.gs[g] == s.gs[g] && t.writer == NOBODY
  {
    assert Sound(s, g);
    if s.writer == NOBODY {
      return [];
    }
    var w: nat := s.writer;
    assert Sound(s, w);
    if s.gs[w].holding == MuAnnounced {
      var first := ReadersLeave(s, g);
      var t := Ran(s, g, first);
      assert Sound(t, w) && CanStep(t, w);
      StepKeepsInv(t, w);
      var u := Step(t, w);
      assert u.writer == w && u.gs[w].holding == MuHeld;
      var onward := WriterLeaves(u, g);
      StepThen(t, g, w, onward);
      RanConcat(s, g, first, [w] + onward);
      schedule := first + ([w] + onward);
    } else {
      schedule := WriterLeaves(s, g);
    }
  }

  // Does g stand before an operation that acquires a lock?
  predicate WantsLock(s: State, g: nat) {
    HasNext(s, g) && (Op1(s, g) == Announce || Op1(s, g) == EnterMu || Op1(s, g) == RLock || Op1(s, g).Lock?)
  }

  lemma LockClears(s: State, g: nat) returns (schedule: seq<nat>)
    requires Inv(s) && WantsLock(s, g)
    ensures HoldersRun(s, g, schedule)
    ensures CanStep(Ran(s, g, schedule), g) && Ran(s, g, schedule).gs[g] == s.gs[g]
  {
    assert Sound(s, g);
    match Op1(s, g)
    case Announce => schedule := MuClears(s, g);
    case RLock => schedule := MuClears(s, g);
    case EnterMu => schedule := ReadersLeave(s, g);
    case Lock(m) =>
      assert m in s.owners ==> Sound(s, s.owners[m]);
      if m == Rng || m !in s.owners {
        schedule := [];
      } else {
        schedule := OwnerUnlocks(s, g, m);
      }
  }

  // In every reachable state, whoever stands before a lock gets it after some schedule in
  // which only holders in its way run on: there is no deadlock, not even a partial one.
  lemma EveryLockCanBeTaken(s: State, g: nat)
    requires Reachable(s) && WantsLock(s, g)
    ensures exists schedule :: HoldersRun(s, g, schedule) && CanStep(Ran(s, g, schedule), g)
                            && Ran(s, g, schedule).gs[g] == s.gs[g]
  {
    var events :| Valid(INITIAL, events) && After(INITIAL, events) == s;
    RunKeepsInv(INITIAL, events);
    var schedule := LockClears(s, g);
  }

  // Mutual exclusion, and the one nesting: whoever is inside `mu` for writing is alone
  // there, and `rngMu` is only ever held by it.
  lemma LocksExclude(s: State, g: nat, h: nat)
    requires Reachable(s) && g < |s.gs| && h < |s.gs| && g != h
    requires s.gs[g].holding == MuHeld || s.gs[g].holding == MuAndRng
    ensures !HoldsMu(s.gs[h].holding) && s.gs[h].holding != Reading
    ensures Rng in s.owners ==> s.owners[Rng] == g
  {
    var events :| Valid(INITIAL, events) && After(INITIAL, events) == s;
    RunKeepsInv(INITIAL, events);
    assert Sound(s, g) && Sound(s, h);
    assert Rng in s.owners ==> Sound(s, s.owners[Rng]);
  }

  lemma OneOwner(s: State, g: nat, h: nat, m: Mutex)
    requires Inv(s) && g < |s.gs| && h < |s.gs| && g != h
    ensures !HoldsMutex(s.gs[g].holding, m) || !HoldsMutex(s.gs[h].holding, m)
  {
    assert Sound(s, g) && Sound(s, h);
  }

  // No data race: two goroutines about to touch the same data both only read it.
  lemma NoDataRace(s: State, g: nat, h: nat)
    requires Reachable(s) && g != h && HasNext(s, g) && HasNext(s, h)
    requires Op1(s, g).Touch? && Op1(s, h).Touch? && Op1(s, g).access.field == Op1(s, h).access.field
    ensures Op1(s, g).access.Read? && Op1(s, h).access.Read?
  {
    var events :| Valid(INITIAL, events) && After(INITIAL, events) == s;
    RunKeepsInv(INITIAL, events);
    assert Sound(s, g) && Sound(s, h);
    var m := match Op1(s, g).access.field case Wire(c) => Conn(c) case Random => Rng case _ => Req;
    OneOwner(s, g, h, m);
  }
}
