/** One mutex per room, created on demand (internal/mutex.go), one atomic action at a time. */
module RoomMutex {
  import opened Prelude

  type Goroutine = nat
  type MutexID = nat

  /** Where a goroutine is inside Lock or Unlock.  InMap* hold the map mutex. */
  datatype PC =
    | Running
    | LockWantsMap(room: RoomID) | LockInMap(room: RoomID) | LockWantsRoom(room: RoomID, mu: MutexID)
    | UnlockWantsMap(room: RoomID) | UnlockInMap(room: RoomID) | UnlockHasMutex(room: RoomID, mu: MutexID)

  /** `held` are the rooms whose Lock has returned and whose Unlock has not. */
  datatype Thread = Thread(pc: PC, held: set<RoomID>)

  datatype State = State(
    mapHolder: Option<Goroutine>,
    roomToMu: map<RoomID, MutexID>,
    nextMu: MutexID,
    locked: set<MutexID>,
    threads: map<Goroutine, Thread>,
    panicked: bool)

  datatype Step =
    | CallLock(g: Goroutine, room: RoomID)
    | CallUnlock(g: Goroutine, room: RoomID)
    | TakeMap(g: Goroutine)
    | LeaveMap(g: Goroutine)
    | TakeRoom(g: Goroutine)
    | ReleaseRoom(g: Goroutine)

  ghost predicate Init(s: State) {
    && s.mapHolder == None && s.roomToMu == map[] && s.locked == {} && !s.panicked
    && forall g :: g in s.threads ==> s.threads[g] == Thread(Running, {})
  }

  /** Callers unlock only what they have locked; every other guard is a Go mutex waiting. */
  predicate Enabled(s: State, step: Step) {
    && step.g in s.threads
    && var th := s.threads[step.g];
       match step
       case CallLock(_, _) => th.pc == Running
       case CallUnlock(_, room) => th.pc == Running && room in th.held
       case TakeMap(_) => (th.pc.LockWantsMap? || th.pc.UnlockWantsMap?) && s.mapHolder == None
       case LeaveMap(_) => th.pc.LockInMap? || th.pc.UnlockInMap?
       case TakeRoom(_) => th.pc.LockWantsRoom? && th.pc.mu !in s.locked
       case ReleaseRoom(_) => th.pc.UnlockHasMutex?
  }

  function Goto(s: State, g: Goroutine, pc: PC): State
    requires g in s.threads
  {
    s.(threads := s.threads[g := s.threads[g].(pc := pc)])
  }

  function Next(s: State, step: Step): State
    requires Enabled(s, step)
  {
    var g := step.g;
    var th := s.threads[g];
    match step
    case CallLock(_, room) => Goto(s, g, LockWantsMap(room))
    case CallUnlock(_, room) => Goto(s, g, UnlockWantsMap(room))
    case TakeMap(_) =>
      Goto(s, g, if th.pc.LockWantsMap? then LockInMap(th.pc.room) else UnlockInMap(th.pc.room)).(mapHolder := Some(g))
    case LeaveMap(_) =>
      var room := th.pc.room;
      if th.pc.LockInMap? then
        var mu := if room in s.roomToMu then s.roomToMu[room] else s.nextMu;
        Goto(s, g, LockWantsRoom(room, mu)).(mapHolder := None, roomToMu := s.roomToMu[room := mu],
                                             nextMu := if room in s.roomToMu then s.nextMu else s.nextMu + 1)
      else if room in s.roomToMu then
        Goto(s, g, UnlockHasMutex(room, s.roomToMu[room])).(mapHolder := None)
      else
        s.(panicked := true)
    case TakeRoom(_) =>
      s.(locked := s.locked + {th.pc.mu}, threads := s.threads[g := Thread(Running, th.held + {th.pc.room})])
    case ReleaseRoom(_) =>
      if th.pc.mu in s.locked then
        s.(locked := s.locked - {th.pc.mu}, threads := s.threads[g := Thread(Running, th.held - {th.pc.room})])
      else
        s.(panicked := true)
  }

  ghost predicate GoodThread(s: State, g: Goroutine)
    requires g in s.threads
  {
    var th := s.threads[g];
    && (s.mapHolder == Some(g) <==> th.pc.LockInMap? || th.pc.UnlockInMap?)
    && (forall room :: room in th.held ==> room in s.roomToMu && s.roomToMu[room] in s.locked)
    && (th.pc.UnlockWantsMap? || th.pc.UnlockInMap? || th.pc.UnlockHasMutex? ==> th.pc.room in th.held)
    && (th.pc.LockWantsRoom? || th.pc.UnlockHasMutex? ==>
          th.pc.room in s.roomToMu && s.roomToMu[th.pc.room] == th.pc.mu)
  }

  /** Someone holds the room whose mutex this is. */
  ghost predicate HasHolder(s: State, mu: MutexID) {
    exists g, room :: g in s.threads && room in s.threads[g].held && room in s.roomToMu && s.roomToMu[room] == mu
  }

  ghost predicate Inv(s: State) {
    && !s.panicked
    && (forall g :: g in s.threads ==> GoodThread(s, g))
    && (s.mapHolder.Some? ==> s.mapHolder.value in s.threads)
    && (forall g, h :: g in s.threads && h in s.threads && g != h ==> s.threads[g].held !! s.threads[h].held)
    && (forall r :: r in s.roomToMu ==> s.roomToMu[r] < s.nextMu)
    && (forall r, r' :: r in s.roomToMu && r' in s.roomToMu && s.roomToMu[r] == s.roomToMu[r'] ==> r == r')
    && (forall mu :: mu in s.locked ==> HasHolder(s, mu))
  }

  lemma ThreadsStayGood(s: State, step: Step)
    requires Inv(s) && Enabled(s, step)
    ensures !Next(s, step).panicked
    ensures forall g :: g in s.threads ==> GoodThread(Next(s, step), g)
  {
    var s' := Next(s, step);
    assert GoodThread(s, step.g);
    forall g | g in s.threads
      ensures GoodThread(s', g)
    {
      assert GoodThread(s, g);
    }
  }

  lemma LocksStayHeld(s: State, step: Step)
    requires Inv(s) && Enabled(s, step)
    ensures forall mu :: mu in Next(s, step).locked ==> HasHolder(Next(s, step), mu)
  {
    var s' := Next(s, step);
    assert GoodThread(s, step.g);
    forall mu | mu in s'.locked
      ensures HasHolder(s', mu)
    {
      if mu in s.locked {
        assert HasHolder(s, mu);
        var g, room :| g in s.threads && room in s.threads[g].held && room in s.roomToMu && s.roomToMu[room] == mu;
        StillHeld(s, step, g, room);
      } else {
        var room := s.threads[step.g].pc.room;
        assert room in s'.threads[step.g].held && room in s'.roomToMu;
      }
    }
  }

  /** Only releasing a room's mutex takes the room away from its holder. */
  lemma StillHeld(s: State, step: Step, g: Goroutine, room: RoomID)
    requires Enabled(s, step) && GoodThread(s, step.g)
    requires g in s.threads && room in s.threads[g].held && room in s.roomToMu
    requires s.roomToMu[room] in Next(s, step).locked
    ensures HasHolder(Next(s, step), s.roomToMu[room])
  {
    var s' := Next(s, step);
    assert g in s'.threads && room in s'.threads[g].held && room in s'.roomToMu;
  }

  lemma HeldStaysDisjoint(s: State, step: Step)
    requires Inv(s) && Enabled(s, step)
    ensures var s' := Next(s, step);
            forall g, h :: g in s'.threads && h in s'.threads && g != h ==> s'.threads[g].held !! s'.threads[h].held
  {
    assert forall g :: g in s.threads ==> GoodThread(s, g);
  }

  lemma NextKeepsInv(s: State, step: Step)
    requires Inv(s) && Enabled(s, step)
    ensures Inv(Next(s, step))
  {
    ThreadsStayGood(s, step);
    LocksStayHeld(s, step);
    HeldStaysDisjoint(s, step);
  }

  ghost predicate IsRun(states: seq<State>, steps: seq<Step>) {
    && |states| == |steps| + 1
    && Init(states[0])
    && forall k :: 0 <= k < |steps| ==> Enabled(states[k], steps[k]) && states[k + 1] == Next(states[k], steps[k])
  }

  lemma {:induction false} RunKeepsInv(states: seq<State>, steps: seq<Step>, n: nat)
    requires IsRun(states, steps) && n < |states|
    ensures Inv(states[n])
  {
    if n > 0 {
      RunKeepsInv(states, steps, n - 1);
      NextKeepsInv(states[n - 1], steps[n - 1]);
    }
  }

  /** In every interleaving: nobody else is inside a room's lock, Unlock never panics, and the
      holder of the map mutex waits for nothing. */
  lemma MutualExclusion(states: seq<State>, steps: seq<Step>, n: nat)
    requires IsRun(states, steps) && n < |states|
    ensures !states[n].panicked
    ensures forall g, h :: g in states[n].threads && h in states[n].threads && g != h ==>
              states[n].threads[g].held !! states[n].threads[h].held
    ensures states[n].mapHolder.Some? ==> Enabled(states[n], LeaveMap(states[n].mapHolder.value))
  {
    RunKeepsInv(states, steps, n);
    if states[n].mapHolder.Some? { assert GoodThread(states[n], states[n].mapHolder.value); }
  }

  /** In every interleaving a goroutine comes out of Lock holding the room it asked for, whose mutex was
      free and is now locked, and out of Unlock without it, and with that mutex free; nobody else's
      rooms change. */
  lemma LockTakesUnlockFrees(states: seq<State>, steps: seq<Step>, n: nat)
    requires IsRun(states, steps) && n < |steps|
    ensures steps[n].g in states[n].threads && states[n + 1].threads.Keys == states[n].threads.Keys
    ensures forall h :: h in states[n].threads && h != steps[n].g ==> states[n + 1].threads[h] == states[n].threads[h]
    ensures var s, s', g := states[n], states[n + 1], steps[n].g;
            var th, th' := s.threads[g], s'.threads[g];
            match steps[n]
            case CallLock(_, room) => th'.pc == LockWantsMap(room) && th'.held == th.held && s'.locked == s.locked
            case CallUnlock(_, room) =>
              room in th.held && th'.pc == UnlockWantsMap(room) && th'.held == th.held && s'.locked == s.locked
            case TakeMap(_) =>
              && s.mapHolder == None && s'.mapHolder == Some(g) && th.pc != Running && th'.pc != Running
              && th'.pc.room == th.pc.room && Locking(th'.pc) == Locking(th.pc)
              && th'.held == th.held && s'.locked == s.locked
            case LeaveMap(_) =>
              && s.mapHolder == Some(g) && s'.mapHolder == None && th.pc != Running && th'.pc != Running
              && th'.pc.room == th.pc.room && Locking(th'.pc) == Locking(th.pc)
              && th'.held == th.held && s'.locked == s.locked
            case TakeRoom(_) =>
              && th.pc.LockWantsRoom? && th.pc.room in s.roomToMu && s.roomToMu[th.pc.room] !in s.locked
              && th' == Thread(Running, th.held + {th.pc.room}) && s'.locked == s.locked + {s.roomToMu[th.pc.room]}
            case ReleaseRoom(_) =>
              && th.pc.UnlockHasMutex? && th.pc.room in s.roomToMu && s.roomToMu[th.pc.room] in s.locked
              && th' == Thread(Running, th.held - {th.pc.room}) && s'.locked == s.locked - {s.roomToMu[th.pc.room]}
  {
    RunKeepsInv(states, steps, n);
    assert GoodThread(states[n], steps[n].g);
  }

  lemma MutexStays(s: State, step: Step, s': State, room: RoomID)
    requires Enabled(s, step) && s' == Next(s, step) && room in s.roomToMu
    ensures room in s'.roomToMu && s'.roomToMu[room] == s.roomToMu[room]
  {
  }

  /** A room's mutex is never replaced once created. */
  lemma {:induction false} MutexIsStable(states: seq<State>, steps: seq<Step>, i: nat, j: nat, room: RoomID)
    requires IsRun(states, steps) && i <= j < |states| && room in states[i].roomToMu
    ensures room in states[j].roomToMu && states[j].roomToMu[room] == states[i].roomToMu[room]
  {
    if i < j {
      MutexIsStable(states, steps, i, j - 1, room);
      MutexStays(states[j - 1], steps[j - 1], states[j], room);
    }
  }

  // ---- no deadlock for callers that lock rooms in increasing order ----

  /** Whoever calls Lock holds only rooms of a lower rank; one room at a time is a special case. */
  ghost predicate InOrder(states: seq<State>, steps: seq<Step>, rank: RoomID -> nat)
    requires IsRun(states, steps)
  {
    forall k :: 0 <= k < |steps| && steps[k].CallLock? ==>
      steps[k].g in states[k].threads && Below(states[k].threads[steps[k].g].held, steps[k].room, rank)
  }

  ghost predicate Below(held: set<RoomID>, room: RoomID, rank: RoomID -> nat) {
    forall h :: h in held ==> rank(h) < rank(room)
  }

  predicate Locking(pc: PC) {
    pc.LockWantsMap? || pc.LockInMap? || pc.LockWantsRoom?
  }

  ghost predicate LocksUpward(s: State, rank: RoomID -> nat) {
    forall g :: g in s.threads && Locking(s.threads[g].pc) ==> Below(s.threads[g].held, s.threads[g].pc.room, rank)
  }

  lemma {:induction false} RunLocksUpward(states: seq<State>, steps: seq<Step>, rank: RoomID -> nat, n: nat)
    requires IsRun(states, steps) && InOrder(states, steps, rank) && n < |states|
    ensures LocksUpward(states[n], rank)
  {
    if n > 0 {
      RunLocksUpward(states, steps, rank, n - 1);
      assert Enabled(states[n - 1], steps[n - 1]) && states[n] == Next(states[n - 1], steps[n - 1]);
    }
  }

  /** No waiting goroutine waits for a room above `top`. */
  ghost predicate Under(threads: map<Goroutine, Thread>, rank: RoomID -> nat, top: nat) {
    forall g :: g in threads && threads[g].pc.LockWantsRoom? ==> rank(threads[g].pc.room) <= top
  }

  lemma {:induction false} SomeTop(threads: map<Goroutine, Thread>, rank: RoomID -> nat) returns (top: nat)
    ensures Under(threads, rank, top)
    decreases |threads|
  {
    top := 0;
    if threads != map[] {
      var g :| g in threads;
      var rest := threads - {g};
      assert threads.Keys == rest.Keys + {g};
      top := SomeTop(rest, rank);
      if threads[g].pc.LockWantsRoom? && rank(threads[g].pc.room) > top { top := rank(threads[g].pc.room); }
      assert forall h :: h in threads ==> h == g || (h in rest && rest[h] == threads[h]);
    }
  }

  /** Follows the wait from holder to holder, each time to a room of a higher rank. */
  lemma {:induction false} WaitEnds(s: State, rank: RoomID -> nat, top: nat, g: Goroutine) returns (step: Step)
    requires Inv(s) && LocksUpward(s, rank) && Under(s.threads, rank, top)
    requires g in s.threads && s.threads[g].pc.LockWantsRoom?
    ensures Enabled(s, step) && !step.CallLock?
    decreases top - rank(s.threads[g].pc.room)
  {
    var room, mu := s.threads[g].pc.room, s.threads[g].pc.mu;
    assert GoodThread(s, g);
    if mu !in s.locked {
      step := TakeRoom(g);
    } else {
      assert HasHolder(s, mu);
      var h, r :| h in s.threads && r in s.threads[h].held && r in s.roomToMu && s.roomToMu[r] == mu;
      assert GoodThread(s, h) && r == room;
      match s.threads[h].pc
      case Running => step := CallUnlock(h, room);
      case LockWantsRoom(_, _) => step := WaitEnds(s, rank, top, h);
      case _ => step := OthersMove(s, h);
    }
  }

  /** Whoever is inside Lock or Unlock, some goroutine can always take a step that is not a
      new call to Lock: the wait always ends at a goroutine that waits for nothing. */
  lemma SomeoneMoves(states: seq<State>, steps: seq<Step>, rank: RoomID -> nat, n: nat, g: Goroutine)
    returns (step: Step)
    requires IsRun(states, steps) && InOrder(states, steps, rank) && n < |states|
    requires g in states[n].threads && states[n].threads[g].pc != Running
    ensures Enabled(states[n], step) && !step.CallLock?
  {
    var s := states[n];
    RunKeepsInv(states, steps, n);
    if s.threads[g].pc.LockWantsRoom? {
      RunLocksUpward(states, steps, rank, n);
      var top := SomeTop(s.threads, rank);
      step := WaitEnds(s, rank, top, g);
    } else {
      step := OthersMove(s, g);
    }
  }

  /** Whoever does not wait for a room is not kept waiting. */
  lemma OthersMove(s: State, g: Goroutine) returns (step: Step)
    requires Inv(s) && g in s.threads && s.threads[g].pc != Running && !s.threads[g].pc.LockWantsRoom?
    ensures Enabled(s, step) && !step.CallLock?
  {
    match s.threads[g].pc
    case LockInMap(_) => step := LeaveMap(g);
    case UnlockInMap(_) => step := LeaveMap(g);
    case UnlockHasMutex(_, _) => step := ReleaseRoom(g);
    case LockWantsMap(_) => step := MapWaitEnds(s, g);
    case UnlockWantsMap(_) => step := MapWaitEnds(s, g);
  }

  lemma MapWaitEnds(s: State, g: Goroutine) returns (step: Step)
    requires Inv(s) && g in s.threads && (s.threads[g].pc.LockWantsMap? || s.threads[g].pc.UnlockWantsMap?)
    ensures Enabled(s, step) && !step.CallLock?
  {
    if s.mapHolder == None {
      step := TakeMap(g);
    } else {
      step := LeaveMap(s.mapHolder.value);
      assert GoodThread(s, s.mapHolder.value);
    }
  }

  lemma RunOn(states: seq<State>, steps: seq<Step>, step: Step)
    requires IsRun(states, steps) && Enabled(states[|steps|], step)
    ensures IsRun(states + [Next(states[|steps|], step)], steps + [step])
  {
  }

  /** A goroutine calls Lock and gets as far as the room's mutex. */
  lemma AskForRoom(states: seq<State>, steps: seq<Step>, g: Goroutine, room: RoomID)
    returns (states': seq<State>, steps': seq<Step>)
    requires IsRun(states, steps) && states[|steps|].mapHolder == None
    requires g in states[|steps|].threads && states[|steps|].threads[g].pc == Running
    ensures IsRun(states', steps') && states <= states'
    ensures steps' == steps + [CallLock(g, room), TakeMap(g), LeaveMap(g)]
    ensures var s, s' := states[|steps|], states'[|steps'|];
            && s'.mapHolder == None && s'.locked == s.locked && room in s'.roomToMu
            && s'.threads == s.threads[g := Thread(LockWantsRoom(room, s'.roomToMu[room]), s.threads[g].held)]
            && (forall r :: r in s.roomToMu ==> r in s'.roomToMu && s'.roomToMu[r] == s.roomToMu[r])
  {
    var s := states[|steps|];
    RunOn(states, steps, CallLock(g, room));
    var s1 := Next(s, CallLock(g, room));
    RunOn(states + [s1], steps + [CallLock(g, room)], TakeMap(g));
    var s2 := Next(s1, TakeMap(g));
    RunOn(states + [s1] + [s2], steps + [CallLock(g, room)] + [TakeMap(g)], LeaveMap(g));
    states' := states + [s1] + [s2] + [Next(s2, LeaveMap(g))];
    steps' := steps + [CallLock(g, room)] + [TakeMap(g)] + [LeaveMap(g)];
  }

  /** A goroutine locks a room that nobody holds. */
  lemma GetRoom(states: seq<State>, steps: seq<Step>, g: Goroutine, room: RoomID)
    returns (states': seq<State>, steps': seq<Step>)
    requires IsRun(states, steps) && states[|steps|].mapHolder == None
    requires g in states[|steps|].threads && states[|steps|].threads[g].pc == Running
    requires forall h :: h in states[|steps|].threads ==> room !in states[|steps|].threads[h].held
    ensures IsRun(states', steps') && states <= states' && steps <= steps'
    ensures var s, s' := states[|steps|], states'[|steps'|];
            && s'.mapHolder == None && room in s'.roomToMu && s'.roomToMu[room] in s'.locked && s.locked <= s'.locked
            && s'.threads == s.threads[g := Thread(Running, s.threads[g].held + {room})]
            && (forall r :: r in s.roomToMu ==> r in s'.roomToMu && s'.roomToMu[r] == s.roomToMu[r])
  {
    var s := states[|steps|];
    states', steps' := AskForRoom(states, steps, g, room);
    var s1 := states'[|steps'|];
    RunKeepsInv(states', steps', |steps'|);
    assert s1.roomToMu[room] in s1.locked ==> HasHolder(s1, s1.roomToMu[room]);
    RunOn(states', steps', TakeRoom(g));
    states', steps' := states' + [Next(s1, TakeRoom(g))], steps' + [TakeRoom(g)];
  }

  /** Nobody in the state can take any step. */
  ghost predicate Deadlocked(s: State) {
    s.threads != map[] && forall step :: !Enabled(s, step)
  }

  function Successor(g: nat, n: nat): nat {
    if g + 1 < n then g + 1 else 0
  }

  /** Goroutine `g` holds its room if it is among the first `m`, and waits for the next one's if it is
      among the first `w`. */
  ghost predicate Placed(th: Thread, rooms: seq<RoomID>, g: nat, m: nat, w: nat)
    requires g < |rooms|
  {
    && th.held == (if g < m then {rooms[g]} else {})
    && if g < w then th.pc.LockWantsRoom? && th.pc.room == rooms[Successor(g, |rooms|)] else th.pc == Running
  }

  ghost predicate InCycle(s: State, rooms: seq<RoomID>, m: nat, w: nat) {
    && s.mapHolder == None
    && (forall g :: g in s.threads <==> 0 <= g < |rooms|)
    && (forall g :: 0 <= g < |rooms| ==> Placed(s.threads[g], rooms, g, m, w))
  }

  ghost function IdleThreads(n: nat): (r: map<Goroutine, Thread>)
    ensures forall g :: (g in r <==> 0 <= g < n) && (g in r ==> r[g] == Thread(Running, {}))
  {
    if n == 0 then map[] else IdleThreads(n - 1)[n - 1 := Thread(Running, {})]
  }

  lemma {:induction false} EachTakesOne(rooms: seq<RoomID>, m: nat) returns (states: seq<State>, steps: seq<Step>)
    requires Distinct(rooms) && m <= |rooms|
    ensures IsRun(states, steps) && InCycle(states[|steps|], rooms, m, 0)
  {
    if m == 0 {
      states, steps := [State(None, map[], 0, {}, IdleThreads(|rooms|), false)], [];
    } else {
      states, steps := EachTakesOne(rooms, m - 1);
      var s := states[|steps|];
      assert forall g :: g in s.threads ==>
               Placed(s.threads[g], rooms, g, m - 1, 0) && rooms[m - 1] !in s.threads[g].held;
      states, steps := GetRoom(states, steps, m - 1, rooms[m - 1]);
      OneMorePlaced(s.threads, states[|steps|].threads, rooms, m - 1, m - 1, m, 0, 0);
    }
  }

  /** When one goroutine moves to its place the others stay in theirs. */
  lemma OneMorePlaced(threads: map<Goroutine, Thread>, threads': map<Goroutine, Thread>, rooms: seq<RoomID>, g: nat,
                      m: nat, m': nat, w: nat, w': nat)
    requires g < |rooms| && (forall h :: h in threads <==> 0 <= h < |rooms|)
    requires forall h :: 0 <= h < |rooms| ==> Placed(threads[h], rooms, h, m, w)
    requires g in threads' && threads' == threads[g := threads'[g]] && Placed(threads'[g], rooms, g, m', w')
    requires (m' == m || (m == g && m' == g + 1)) && (w' == w || (w == g && w' == g + 1))
    ensures forall h :: 0 <= h < |rooms| ==> Placed(threads'[h], rooms, h, m', w')
  {
    forall h | 0 <= h < |rooms|
      ensures Placed(threads'[h], rooms, h, m', w')
    {
      assert Placed(threads[h], rooms, h, m, w);
    }
  }

  lemma {:induction false} EachWantsNext(rooms: seq<RoomID>, w: nat) returns (states: seq<State>, steps: seq<Step>)
    requires Distinct(rooms) && w <= |rooms|
    ensures IsRun(states, steps) && InCycle(states[|steps|], rooms, |rooms|, w)
  {
    if w == 0 {
      states, steps := EachTakesOne(rooms, |rooms|);
    } else {
      states, steps := EachWantsNext(rooms, w - 1);
      var s := states[|steps|];
      assert Placed(s.threads[w - 1], rooms, w - 1, |rooms|, w - 1);
      states, steps := AskForRoom(states, steps, w - 1, rooms[Successor(w - 1, |rooms|)]);
      OneMorePlaced(s.threads, states[|steps|].threads, rooms, w - 1, |rooms|, |rooms|, w - 1, w);
    }
  }

  lemma CycleIsStuck(s: State, rooms: seq<RoomID>, step: Step)
    requires Inv(s) && InCycle(s, rooms, |rooms|, |rooms|)
    ensures !Enabled(s, step)
  {
    var g := step.g;
    if g in s.threads {
      var next := Successor(g, |rooms|);
      assert Placed(s.threads[g], rooms, g, |rooms|, |rooms|) && Placed(s.threads[next], rooms, next, |rooms|, |rooms|);
      assert GoodThread(s, g) && GoodThread(s, next) && rooms[next] in s.threads[next].held;
    }
  }

  /** The order is needed: along any cycle of distinct rooms, each goroutine holding one and locking
      the next, everybody waits for ever. */
  lemma CyclesDeadlock(rooms: seq<RoomID>) returns (states: seq<State>, steps: seq<Step>)
    requires Distinct(rooms) && rooms != []
    ensures IsRun(states, steps) && Deadlocked(states[|steps|])
    ensures InCycle(states[|steps|], rooms, |rooms|, |rooms|)
  {
    states, steps := EachWantsNext(rooms, |rooms|);
    RunKeepsInv(states, steps, |steps|);
    var s := states[|steps|];
    assert 0 in s.threads;
    forall step
      ensures !Enabled(s, step)
    {
      CycleIsStuck(s, rooms, step);
    }
  }

  /** In particular a goroutine that locks a room it already holds waits for itself. */
  lemma RelockingDeadlocks(room: RoomID) returns (states: seq<State>, steps: seq<Step>)
    ensures IsRun(states, steps) && Deadlocked(states[|steps|])
    ensures states[|steps|].threads.Keys == {0}
  {
    states, steps := CyclesDeadlock([room]);
    assert forall g :: g in states[|steps|].threads <==> g == 0;
  }

  /** And two goroutines that lock two rooms in opposite orders wait for each other, although each
      locks every room once. */
  lemma CrossLockingDeadlocks(a: RoomID, b: RoomID) returns (states: seq<State>, steps: seq<Step>)
    requires a != b
    ensures IsRun(states, steps) && Deadlocked(states[|steps|])
    ensures var s := states[|steps|];
            && s.threads.Keys == {0, 1} && s.threads[0].held == {a} && s.threads[1].held == {b}
            && s.threads[0].pc.LockWantsRoom? && s.threads[0].pc.room == b
            && s.threads[1].pc.LockWantsRoom? && s.threads[1].pc.room == a
  {
    states, steps := CyclesDeadlock([a, b]);
    var threads := states[|steps|].threads;
    assert forall g :: g in threads <==> g == 0 || g == 1;
    assert Placed(threads[0], [a, b], 0, 2, 2) && Placed(threads[1], [a, b], 1, 2, 2);
  }
}
