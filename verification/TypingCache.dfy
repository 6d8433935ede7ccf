/** The typing cache of the EDU server: a versioned index whose entries expire by timers. */
module TypingCache {
  import opened Prelude

  type UserID = string
  type TimerID = nat

  /** Fired means that the callback goroutine exists but has not taken the lock yet. */
  datatype TimerState = Armed | Fired | Finished | Stopped

  /** `registered` once addUser has stored the timer; `tooEarly` when its callback had already
      run to its end by then. */
  datatype Timer = Timer(room: RoomID, user: UserID, state: TimerState, registered: bool, tooEarly: bool)

  datatype RoomData = RoomData(syncPosition: int, userSet: map<UserID, TimerID>)

  datatype Cache = Cache(latest: int, data: map<RoomID, RoomData>, timers: map<TimerID, Timer>)

  const NEW := Cache(0, map[], map[])

  function Typing(c: Cache, room: RoomID): (users: set<UserID>) {
    if room in c.data then c.data[room].userSet.Keys else {}
  }

  function Stop(timers: map<TimerID, Timer>, t: TimerID): map<TimerID, Timer> {
    if t in timers && timers[t].state == Armed then timers[t := timers[t].(state := Stopped)] else timers
  }

  function Arm(c: Cache, user: UserID, room: RoomID, t: TimerID): Cache {
    c.(timers := c.timers[t := Timer(room, user, Armed, false, false)])
  }

  function AddUser(c: Cache, t: TimerID): Cache
    requires t in c.timers
  {
    var Timer(room, user, state, _, _) := c.timers[t];
    var users := if room in c.data then c.data[room].userSet else map[];
    var stopped := if user in users then Stop(c.timers, users[user]) else c.timers;
    Cache(c.latest + 1,
          c.data[room := RoomData(c.latest + 1, users[user := t])],
          stopped[t := Timer(room, user, state, true, state == Finished)])
  }

  function RemoveUser(c: Cache, user: UserID, room: RoomID): Cache {
    if user in Typing(c, room) then
      var users := c.data[room].userSet;
      Cache(c.latest + 1, c.data[room := RoomData(c.latest + 1, users - {user})], Stop(c.timers, users[user]))
    else c
  }

  function Finish(c: Cache, t: TimerID): Cache
    requires t in c.timers
  {
    var c' := RemoveUser(c, c.timers[t].user, c.timers[t].room);
    if t in c'.timers then c'.(timers := c'.timers[t := c'.timers[t].(state := Finished)]) else c'
  }

  /** Everything that can happen to the cache, one critical section or runtime event at a time. */
  datatype Step =
    | DoArm(user: UserID, room: RoomID, t: TimerID)
    | DoAddUser(t: TimerID)
    | DoRemoveUser(user: UserID, room: RoomID)
    | DoFire(t: TimerID)
    | DoCallback(t: TimerID)

  predicate Enabled(c: Cache, step: Step) {
    match step
    case DoArm(_, _, t) => t !in c.timers
    case DoAddUser(t) => t in c.timers && !c.timers[t].registered
    case DoRemoveUser(_, _) => true
    case DoFire(t) => t in c.timers && c.timers[t].state == Armed
    case DoCallback(t) => t in c.timers && c.timers[t].state == Fired
  }

  function Next(c: Cache, step: Step): Cache
    requires Enabled(c, step)
  {
    match step
    case DoArm(user, room, t) => Arm(c, user, room, t)
    case DoAddUser(t) => AddUser(c, t)
    case DoRemoveUser(user, room) => RemoveUser(c, user, room)
    case DoFire(t) => c.(timers := c.timers[t := c.timers[t].(state := Fired)])
    case DoCallback(t) => Finish(c, t)
  }

  /** The step writes the room's typing set: it adds someone, or removes someone who is there. */
  predicate Touches(c: Cache, step: Step, room: RoomID)
    requires Enabled(c, step)
  {
    match step
    case DoAddUser(t) => c.timers[t].room == room
    case DoRemoveUser(user, r) => r == room && user in Typing(c, room)
    case DoCallback(t) => c.timers[t].room == room && c.timers[t].user in Typing(c, room)
    case _ => false
  }

  /** The stored timer of a slot belongs to that slot, and will still expire it unless its
      callback had already come and gone when it was stored. */
  ghost predicate GoodSlot(c: Cache, room: RoomID, user: UserID)
    requires room in c.data && user in c.data[room].userSet
  {
    var t := c.data[room].userSet[user];
    && t in c.timers
    && c.timers[t].room == room && c.timers[t].user == user && c.timers[t].registered
    && (c.timers[t].state in {Armed, Fired} <==> !c.timers[t].tooEarly)
  }

  ghost predicate GoodTimer(c: Cache, t: TimerID)
    requires t in c.timers
  {
    var timer := c.timers[t];
    && (timer.registered && timer.state == Armed ==>
          timer.user in Typing(c, timer.room) && c.data[timer.room].userSet[timer.user] == t)
    && (timer.tooEarly ==> timer.registered && timer.state == Finished)
    && (timer.state == Stopped ==> timer.registered)
  }

  ghost predicate GoodPositions(c: Cache) {
    && 0 <= c.latest
    && (forall r :: r in c.data ==> 1 <= c.data[r].syncPosition <= c.latest)
    && (forall r, r' :: r in c.data && r' in c.data && c.data[r].syncPosition == c.data[r'].syncPosition ==> r == r')
  }

  ghost predicate Inv(c: Cache) {
    && GoodPositions(c)
    && (forall r, u :: r in c.data && u in c.data[r].userSet ==> GoodSlot(c, r, u))
    && (forall t :: t in c.timers ==> GoodTimer(c, t))
  }

  lemma AddUserKeepsSlots(c: Cache, t: TimerID)
    requires Inv(c) && Enabled(c, DoAddUser(t))
    ensures var c' := AddUser(c, t); forall r, u :: r in c'.data && u in c'.data[r].userSet ==> GoodSlot(c', r, u)
  {
    var c', timer := AddUser(c, t), c.timers[t];
    assert GoodTimer(c, t);
    forall r, u | r in c'.data && u in c'.data[r].userSet
      ensures GoodSlot(c', r, u)
    {
      if !(r == timer.room && u == timer.user) { assert GoodSlot(c, r, u); }
    }
  }

  lemma AddUserKeepsInv(c: Cache, t: TimerID)
    requires Inv(c) && Enabled(c, DoAddUser(t))
    ensures Inv(AddUser(c, t))
  {
    var c' := AddUser(c, t);
    AddUserKeepsSlots(c, t);
    forall t' | t' in c'.timers
      ensures GoodTimer(c', t')
    {
      assert GoodTimer(c, t');
    }
  }

  lemma RemoveUserKeepsInv(c: Cache, user: UserID, room: RoomID)
    requires Inv(c)
    ensures Inv(RemoveUser(c, user, room))
  {
    var c' := RemoveUser(c, user, room);
    forall r, u | r in c'.data && u in c'.data[r].userSet
      ensures GoodSlot(c', r, u)
    {
      assert GoodSlot(c, r, u);
      if user in Typing(c, room) { assert GoodSlot(c, room, user); }
    }
    forall t | t in c'.timers
      ensures GoodTimer(c', t)
    {
      assert GoodTimer(c, t);
      if user in Typing(c, room) { assert GoodSlot(c, room, user); }
    }
  }

  /** Moving on the state of a timer is harmless while nobody is typing in its slot, and so is
      letting an armed timer fire. */
  lemma TimerMoves(c: Cache, t: TimerID, state: TimerState)
    requires Inv(c) && t in c.timers
    requires (c.timers[t].state, state) in {(Armed, Fired), (Fired, Finished)}
    requires state == Finished ==> c.timers[t].user !in Typing(c, c.timers[t].room)
    ensures Inv(c.(timers := c.timers[t := c.timers[t].(state := state)]))
  {
    var c' := c.(timers := c.timers[t := c.timers[t].(state := state)]);
    forall r, u | r in c'.data && u in c'.data[r].userSet
      ensures GoodSlot(c', r, u)
    {
      assert GoodSlot(c, r, u);
    }
    forall t' | t' in c'.timers
      ensures GoodTimer(c', t')
    {
      assert GoodTimer(c, t');
    }
  }

  lemma NextKeepsInv(c: Cache, step: Step)
    requires Inv(c) && Enabled(c, step)
    ensures Inv(Next(c, step))
  {
    match step
    case DoArm(user, room, t) =>
      var c' := Arm(c, user, room, t);
      assert forall r, u :: r in c'.data && u in c'.data[r].userSet ==> GoodSlot(c, r, u) && GoodSlot(c', r, u);
      assert forall t' :: t' in c.timers ==> GoodTimer(c, t') && GoodTimer(c', t');
    case DoAddUser(t) => AddUserKeepsInv(c, t);
    case DoRemoveUser(user, room) => RemoveUserKeepsInv(c, user, room);
    case DoFire(t) => TimerMoves(c, t, Fired);
    case DoCallback(t) =>
      RemoveUserKeepsInv(c, c.timers[t].user, c.timers[t].room);
      TimerMoves(RemoveUser(c, c.timers[t].user, c.timers[t].room), t, Finished);
  }

  ghost predicate IsRun(states: seq<Cache>, steps: seq<Step>) {
    && |states| == |steps| + 1
    && states[0] == NEW
    && forall k :: 0 <= k < |steps| ==> Enabled(states[k], steps[k]) && states[k + 1] == Next(states[k], steps[k])
  }

  lemma {:induction false} RunKeepsInv(states: seq<Cache>, steps: seq<Step>, k: nat)
    requires IsRun(states, steps) && k < |states|
    ensures Inv(states[k])
  {
    if k > 0 {
      RunKeepsInv(states, steps, k - 1);
      NextKeepsInv(states[k - 1], steps[k - 1]);
    }
  }

  /** In every reachable state the index is consistent: positions lie in 1..latest and are
      unshared, an armed registered timer sits in its own slot, and a typing user's timer belongs
      to them and is still going to expire them exactly if it had not run before it was stored. */
  lemma IndexIsConsistent(states: seq<Cache>, steps: seq<Step>, k: nat)
    requires IsRun(states, steps) && k < |states|
    ensures GoodPositions(states[k])
    ensures forall t ::
              t in states[k].timers && states[k].timers[t].registered && states[k].timers[t].state == Armed ==>
              var timer := states[k].timers[t];
              timer.user in Typing(states[k], timer.room) && states[k].data[timer.room].userSet[timer.user] == t
    ensures forall r, u :: r in states[k].data && u in states[k].data[r].userSet ==> GoodSlot(states[k], r, u)
  {
    RunKeepsInv(states, steps, k);
    forall t | t in states[k].timers && states[k].timers[t].registered && states[k].timers[t].state == Armed
      ensures var timer := states[k].timers[t];
              timer.user in Typing(states[k], timer.room) && states[k].data[timer.room].userSet[timer.user] == t
    {
      assert GoodTimer(states[k], t);
    }
  }

  predicate UpdatedAfter(c: Cache, room: RoomID, position: int) {
    room in c.data && c.data[room].syncPosition > position
  }

  /** Some step between moments `i` and `j` wrote the room. */
  ghost predicate Written(states: seq<Cache>, steps: seq<Step>, i: nat, j: nat, room: RoomID)
    requires IsRun(states, steps) && j < |states|
  {
    exists k :: i <= k < j && Enabled(states[k], steps[k]) && Touches(states[k], steps[k], room)
  }

  /** Reading with the position of an earlier moment tells exactly whether the room was written
      since, and an unwritten room has the typing users it had then. */
  lemma {:induction false} IncrementalRead(states: seq<Cache>, steps: seq<Step>, i: nat, j: nat, room: RoomID)
    requires IsRun(states, steps) && i <= j < |states|
    ensures UpdatedAfter(states[j], room, states[i].latest) <==> Written(states, steps, i, j, room)
    ensures !UpdatedAfter(states[j], room, states[i].latest) ==> Typing(states[j], room) == Typing(states[i], room)
    ensures states[i].latest <= states[j].latest
  {
    if i < j {
      IncrementalRead(states, steps, i, j - 1, room);
      var c, step := states[j - 1], steps[j - 1];
      var c' := states[j];
      WritesMovePosition(c, step, c', room);
      WrittenExtends(states, steps, i, j, room);
    } else {
      RunKeepsInv(states, steps, j);
    }
  }

  lemma WrittenExtends(states: seq<Cache>, steps: seq<Step>, i: nat, j: nat, room: RoomID)
    requires IsRun(states, steps) && i < j < |states|
    ensures Written(states, steps, i, j, room) <==>
            Written(states, steps, i, j - 1, room) || Touches(states[j - 1], steps[j - 1], room)
  {
    if Touches(states[j - 1], steps[j - 1], room) {
      assert i <= j - 1 < j && Enabled(states[j - 1], steps[j - 1]);
    }
  }

  /** A step that touches a room gives it a fresh latest position; any other leaves it alone. */
  lemma WritesMovePosition(c: Cache, step: Step, c': Cache, room: RoomID)
    requires Enabled(c, step) && c' == Next(c, step)
    ensures if Touches(c, step, room)
            then c'.latest == c.latest + 1 && room in c'.data && c'.data[room].syncPosition == c'.latest
            else c.latest <= c'.latest && (room in c'.data <==> room in c.data) &&
                 (room in c.data ==> c'.data[room] == c.data[room])
  {
  }

  /** The steps make a run that ends in `c`. */
  ghost predicate Leads(steps: seq<Step>, c: Cache) {
    exists states :: IsRun(states, steps) && states[|steps|] == c
  }

  /** A registered timer that fires is the one in its slot. */
  lemma FiringTimerOwnsItsSlot(states: seq<Cache>, steps: seq<Step>, f: nat, t: TimerID)
    requires IsRun(states, steps) && f < |states| && Enabled(states[f], DoFire(t)) && states[f].timers[t].registered
    ensures SlotOf(states[f], states[f].timers[t].room, states[f].timers[t].user) == Some(t)
  {
    RunKeepsInv(states, steps, f);
    assert GoodTimer(states[f], t);
  }

  // ---- how long an entry lasts ----

  function SlotOf(c: Cache, room: RoomID, user: UserID): (t: Option<TimerID>) {
    if user in Typing(c, room) then Some(c.data[room].userSet[user]) else None
  }

  /** The step stores a timer for the user. */
  predicate AddsTo(c: Cache, step: Step, room: RoomID, user: UserID)
    requires Enabled(c, step)
  {
    step.DoAddUser? && c.timers[step.t].room == room && c.timers[step.t].user == user
  }

  /** The step adds the user, or removes them when they are there. */
  predicate WritesSlot(c: Cache, step: Step, room: RoomID, user: UserID)
    requires Enabled(c, step)
  {
    match step
    case DoAddUser(_) => AddsTo(c, step, room, user)
    case DoRemoveUser(u, r) => r == room && u == user && user in Typing(c, room)
    case DoCallback(t) => c.timers[t].room == room && c.timers[t].user == user && user in Typing(c, room)
    case _ => false
  }

  ghost predicate SlotWritten(states: seq<Cache>, steps: seq<Step>, i: nat, j: nat, room: RoomID, user: UserID)
    requires IsRun(states, steps) && j < |states|
  {
    exists k :: i <= k < j && Enabled(states[k], steps[k]) && WritesSlot(states[k], steps[k], room, user)
  }

  lemma SlotAfter(c: Cache, step: Step, c': Cache, room: RoomID, user: UserID)
    requires Enabled(c, step) && c' == Next(c, step)
    ensures SlotOf(c', room, user) ==
            if !WritesSlot(c, step, room, user) then SlotOf(c, room, user)
            else if step.DoAddUser? then Some(step.t) else None
  {
  }

  lemma SlotWrittenExtends(states: seq<Cache>, steps: seq<Step>, i: nat, j: nat, room: RoomID, user: UserID)
    requires IsRun(states, steps) && i < j < |states|
    ensures SlotWritten(states, steps, i, j, room, user) <==>
            SlotWritten(states, steps, i, j - 1, room, user) || WritesSlot(states[j - 1], steps[j - 1], room, user)
  {
    if WritesSlot(states[j - 1], steps[j - 1], room, user) {
      assert i <= j - 1 < j && Enabled(states[j - 1], steps[j - 1]);
    }
  }

  /** A timer is stored at most once and never changes its slot. */
  lemma TimerKeepsItsSlot(c: Cache, step: Step, c': Cache, t: TimerID)
    requires Enabled(c, step) && c' == Next(c, step) && t in c.timers
    ensures t in c'.timers && c'.timers[t].room == c.timers[t].room && c'.timers[t].user == c.timers[t].user
    ensures c.timers[t].registered ==> c'.timers[t].registered && step != DoAddUser(t)
  {
  }

  lemma {:induction false} RunKeepsTimer(states: seq<Cache>, steps: seq<Step>, i: nat, j: nat, t: TimerID)
    requires IsRun(states, steps) && i <= j < |states| && t in states[i].timers
    ensures t in states[j].timers
    ensures states[j].timers[t].room == states[i].timers[t].room && states[j].timers[t].user == states[i].timers[t].user
    ensures states[i].timers[t].registered ==> states[j].timers[t].registered
  {
    if i < j {
      RunKeepsTimer(states, steps, i, j - 1, t);
      TimerKeepsItsSlot(states[j - 1], steps[j - 1], states[j], t);
    }
  }

  /** An unwritten slot is what it was. */
  lemma {:induction false} UnwrittenSlotStays(states: seq<Cache>, steps: seq<Step>, i: nat, j: nat,
                                              room: RoomID, user: UserID)
    requires IsRun(states, steps) && i <= j < |states|
    ensures !SlotWritten(states, steps, i, j, room, user) ==>
              SlotOf(states[j], room, user) == SlotOf(states[i], room, user)
  {
    if i < j {
      SlotWrittenExtends(states, steps, i, j, room, user);
      UnwrittenSlotStays(states, steps, i, j - 1, room, user);
      SlotAfter(states[j - 1], steps[j - 1], states[j], room, user);
    }
  }

  /** A stored timer is still the one in its slot if and only if nobody wrote the slot since. */
  lemma {:induction false} EntryLastsUntilWritten(states: seq<Cache>, steps: seq<Step>, i: nat, j: nat,
                                                  room: RoomID, user: UserID, t: TimerID)
    requires IsRun(states, steps) && i <= j < |states| && SlotOf(states[i], room, user) == Some(t)
    ensures SlotOf(states[j], room, user) == Some(t) <==> !SlotWritten(states, steps, i, j, room, user)
  {
    if i < j {
      EntryLastsUntilWritten(states, steps, i, j - 1, room, user, t);
      SlotWrittenExtends(states, steps, i, j, room, user);
      SlotAfter(states[j - 1], steps[j - 1], states[j], room, user);
      RunKeepsInv(states, steps, i);
      assert GoodSlot(states[i], room, user);
      RunKeepsTimer(states, steps, i, j - 1, t);
      TimerKeepsItsSlot(states[j - 1], steps[j - 1], states[j], t);
    }
  }

  /** The latest write of the slot before `j`, at or after `i`, is the one at `k`. */
  ghost predicate LatestWrite(states: seq<Cache>, steps: seq<Step>, i: nat, k: nat, j: nat, room: RoomID, user: UserID)
    requires IsRun(states, steps) && j < |states|
  {
    && i <= k < j && WritesSlot(states[k], steps[k], room, user)
    && !SlotWritten(states, steps, k + 1, j, room, user)
  }

  lemma {:induction false} FindLatestWrite(states: seq<Cache>, steps: seq<Step>, i: nat, j: nat,
                                           room: RoomID, user: UserID)
    returns (k: nat)
    requires IsRun(states, steps) && i <= j < |states| && SlotWritten(states, steps, i, j, room, user)
    ensures LatestWrite(states, steps, i, k, j, room, user)
  {
    SlotWrittenExtends(states, steps, i, j, room, user);
    if WritesSlot(states[j - 1], steps[j - 1], room, user) {
      k := j - 1;
    } else {
      k := FindLatestWrite(states, steps, i, j - 1, room, user);
      SlotWrittenExtends(states, steps, k + 1, j, room, user);
    }
  }

  /** The latest write decides: the slot holds the timer it added, or nothing. */
  lemma LatestWriteDecides(states: seq<Cache>, steps: seq<Step>, i: nat, k: nat, j: nat, room: RoomID, user: UserID)
    requires IsRun(states, steps) && j < |states| && LatestWrite(states, steps, i, k, j, room, user)
    ensures SlotOf(states[j], room, user) == if steps[k].DoAddUser? then Some(steps[k].t) else None
  {
    UnwrittenSlotStays(states, steps, k + 1, j, room, user);
    SlotAfter(states[k], steps[k], states[k + 1], room, user);
  }

  /** The callback of `t` removes the entry of `t'`. */
  ghost predicate Removes(c: Cache, t: TimerID, t': TimerID)
    requires Enabled(c, DoCallback(t))
  {
    var room, user := c.timers[t].room, c.timers[t].user;
    SlotOf(c, room, user) == Some(t') && SlotOf(Next(c, DoCallback(t)), room, user) == None
  }

  /** What the callback of a timer that fired at `f` removes at `j`, exactly, whether or not the
      timer had been stored when it fired: the entry that the latest write of the slot since added;
      without such a write, the entry that was there at the firing; and otherwise nothing. */
  lemma CallbackRemovesExactly(states: seq<Cache>, steps: seq<Step>, f: nat, j: nat, t: TimerID,
                               room: RoomID, user: UserID, t': TimerID)
    requires IsRun(states, steps) && f < j < |steps| && steps[f] == DoFire(t) && steps[j] == DoCallback(t)
    requires Enabled(states[f], steps[f]) && Enabled(states[j], steps[j])
    requires states[f].timers[t].room == room && states[f].timers[t].user == user
    ensures Removes(states[j], t, t') <==>
            if SlotWritten(states, steps, f, j, room, user)
            then exists k: nat :: LatestWrite(states, steps, f, k, j, room, user) && steps[k] == DoAddUser(t')
            else SlotOf(states[f], room, user) == Some(t')
  {
    RunKeepsTimer(states, steps, f, j, t);
    SlotAfter(states[j], steps[j], states[j + 1], room, user);
    if SlotWritten(states, steps, f, j, room, user) {
      var k := FindLatestWrite(states, steps, f, j, room, user);
      LatestWriteDecides(states, steps, f, k, j, room, user);
      OnlyOneIsLatest(states, steps, f, k, j, room, user);
    } else {
      UnwrittenSlotStays(states, steps, f, j, room, user);
    }
  }

  /** For a timer that was stored when it fired: its callback removes its own entry if and only if
      the slot was not written since, and another timer's if and only if the latest write since
      added one. */
  lemma StaleExactly(states: seq<Cache>, steps: seq<Step>, f: nat, j: nat, t: TimerID, room: RoomID, user: UserID)
    requires IsRun(states, steps) && f < j < |steps| && steps[f] == DoFire(t) && steps[j] == DoCallback(t)
    requires Enabled(states[f], steps[f]) && Enabled(states[j], steps[j])
    requires var timer := states[f].timers[t]; timer.registered && timer.room == room && timer.user == user
    ensures Removes(states[j], t, t) <==> !SlotWritten(states, steps, f, j, room, user)
    ensures (exists t' :: t' != t && Removes(states[j], t, t')) <==>
            (exists k: nat :: LatestWrite(states, steps, f, k, j, room, user) && steps[k].DoAddUser?)
  {
    FiringTimerOwnsItsSlot(states, steps, f, t);
    EntryLastsUntilWritten(states, steps, f, j, room, user, t);
    RunKeepsTimer(states, steps, f, j, t);
    forall t'
      ensures Removes(states[j], t, t') <==>
              if SlotWritten(states, steps, f, j, room, user)
              then exists k: nat :: LatestWrite(states, steps, f, k, j, room, user) && steps[k] == DoAddUser(t')
              else t' == t
    {
      CallbackRemovesExactly(states, steps, f, j, t, room, user, t');
    }
    forall k: nat | LatestWrite(states, steps, f, k, j, room, user) && steps[k].DoAddUser?
      ensures steps[k].t != t && Removes(states[j], t, steps[k].t)
    {
      LatestWriteDecides(states, steps, f, k, j, room, user);
      assert Enabled(states[k], steps[k]) && SlotWritten(states, steps, f, j, room, user);
    }
  }

  lemma OnlyOneIsLatest(states: seq<Cache>, steps: seq<Step>, i: nat, k: nat, j: nat, room: RoomID, user: UserID)
    requires IsRun(states, steps) && j < |states| && LatestWrite(states, steps, i, k, j, room, user)
    ensures forall k': nat :: LatestWrite(states, steps, i, k', j, room, user) ==> k' == k
  {
    forall k': nat | LatestWrite(states, steps, i, k', j, room, user)
      ensures k' == k
    {
      assert Enabled(states[k], steps[k]) && Enabled(states[k'], steps[k']);
    }
  }

  /** The window is real: a firing that waits for the lock removes the entry of a fresh timer. */
  lemma StaleFiringRemovesFreshEntry(room: RoomID, user: UserID) returns (steps: seq<Step>, c: Cache)
    ensures Leads(steps, c)
    ensures steps == [DoArm(user, room, 0), DoAddUser(0), DoFire(0), DoArm(user, room, 1), DoAddUser(1), DoCallback(0)]
    ensures user !in Typing(c, room) && 1 in c.timers && c.timers[1].state == Stopped
  {
    var c1 := Next(NEW, DoArm(user, room, 0));
    var c2 := Next(c1, DoAddUser(0));
    var c3 := Next(c2, DoFire(0));
    assert c3 == Cache(1, map[room := RoomData(1, map[user := 0])], map[0 := Timer(room, user, Fired, true, false)]);
    var c4 := Next(c3, DoArm(user, room, 1));
    var c5 := Next(c4, DoAddUser(1));
    assert c5.data[room].userSet == map[user := 1];
    c := Next(c5, DoCallback(0));
    steps := [DoArm(user, room, 0), DoAddUser(0), DoFire(0), DoArm(user, room, 1), DoAddUser(1), DoCallback(0)];
    assert IsRun([NEW, c1, c2, c3, c4, c5, c], steps);
  }

  /** A timer can fire before it is stored; its callback then removes the entry of an older timer,
      although nobody wrote the slot since the firing. */
  lemma EarlyFiringRemovesOlderEntry(room: RoomID, user: UserID) returns (states: seq<Cache>, steps: seq<Step>)
    ensures steps == [DoArm(user, room, 0), DoAddUser(0), DoArm(user, room, 1), DoFire(1), DoCallback(1)]
    ensures IsRun(states, steps) && !SlotWritten(states, steps, 3, 4, room, user)
    ensures Enabled(states[4], DoCallback(1)) && Removes(states[4], 1, 0)
  {
    var c1 := Next(NEW, DoArm(user, room, 0));
    var c2 := Next(c1, DoAddUser(0));
    var c3 := Next(c2, DoArm(user, room, 1));
    var c4 := Next(c3, DoFire(1));
    assert c4.data == map[room := RoomData(1, map[user := 0])];
    assert c4.timers[1] == Timer(room, user, Fired, false, false);
    var c5 := Next(c4, DoCallback(1));
    steps := [DoArm(user, room, 0), DoAddUser(0), DoArm(user, room, 1), DoFire(1), DoCallback(1)];
    states := [NEW, c1, c2, c3, c4, c5];
    assert IsRun(states, steps);
  }

  /** A timer is armed before it is stored, so its callback can come too early; the user is then
      typing with a timer that will never fire. */
  lemma EarlyCallbackStrandsUser(room: RoomID, user: UserID) returns (steps: seq<Step>, c: Cache)
    ensures Leads(steps, c)
    ensures steps == [DoArm(user, room, 0), DoFire(0), DoCallback(0), DoAddUser(0)]
    ensures user in Typing(c, room)
    ensures forall t :: !Enabled(c, DoFire(t)) && !Enabled(c, DoCallback(t))
  {
    var c1 := Next(NEW, DoArm(user, room, 0));
    var c2 := Next(c1, DoFire(0));
    var c3 := Next(c2, DoCallback(0));
    c := Next(c3, DoAddUser(0));
    steps := [DoArm(user, room, 0), DoFire(0), DoCallback(0), DoAddUser(0)];
    assert IsRun([NEW, c1, c2, c3, c], steps);
  }

  /** Stopping the timer that is replaced leaves the new one alone. */
  lemma NewTimerIsInNoSlot(c: Cache, t: TimerID, room: RoomID, user: UserID)
    requires Inv(c) && Enabled(c, DoAddUser(t))
    ensures user in Typing(c, room) ==> c.data[room].userSet[user] != t
  {
    if user in Typing(c, room) { assert GoodSlot(c, room, user); }
  }

  /** The cache as the server holds it; `timers` stands for the runtime's timers. */
  class EDUCache {
    var latestSyncPosition: int
    var data: map<RoomID, RoomData>
    var timers: map<TimerID, Timer>

    ghost function View(): Cache
      reads this
    {
      Cache(latestSyncPosition, data, timers)
    }

    constructor ()
      ensures View() == NEW
    {
      latestSyncPosition, data, timers := 0, map[], map[];
    }

    /** time.AfterFunc, outside the lock. */
    method ArmTimer(userID: UserID, roomID: RoomID, t: TimerID)
      requires t !in timers
      modifies this`timers
      ensures View() == Next(old(View()), DoArm(userID, roomID, t))
    {
      timers := timers[t := Timer(roomID, userID, Armed, false, false)];
    }

    method StopTimer(t: TimerID)
      modifies this`timers
      ensures timers == Stop(old(timers), t)
    {
      if t in timers && timers[t].state == Armed {
        timers := timers[t := timers[t].(state := Stopped)];
      }
    }

    method AddUser(userID: UserID, roomID: RoomID, expiryTimer: TimerID) returns (position: int)
      requires Enabled(View(), DoAddUser(expiryTimer))
      requires timers[expiryTimer].user == userID && timers[expiryTimer].room == roomID
      requires Inv(View())
      modifies this
      ensures View() == Next(old(View()), DoAddUser(expiryTimer))
      ensures position == latestSyncPosition
    {
      NewTimerIsInNoSlot(View(), expiryTimer, roomID, userID);
      latestSyncPosition := latestSyncPosition + 1;
      if roomID !in data {
        data := data[roomID := RoomData(latestSyncPosition, map[])];
      } else {
        data := data[roomID := data[roomID].(syncPosition := latestSyncPosition)];
      }
      if userID in data[roomID].userSet {
        StopTimer(data[roomID].userSet[userID]);
      }
      data := data[roomID := data[roomID].(userSet := data[roomID].userSet[userID := expiryTimer])];
      var timer := timers[expiryTimer];
      timers := timers[expiryTimer := timer.(registered := true, tooEarly := timer.state == Finished)];
      position := latestSyncPosition;
    }

    method RemoveUser(userID: UserID, roomID: RoomID) returns (position: int)
      modifies this
      ensures View() == Next(old(View()), DoRemoveUser(userID, roomID))
      ensures position == latestSyncPosition
    {
      if roomID !in data { return latestSyncPosition; }
      if userID !in data[roomID].userSet { return latestSyncPosition; }
      StopTimer(data[roomID].userSet[userID]);
      data := data[roomID := data[roomID].(userSet := data[roomID].userSet - {userID})];
      latestSyncPosition := latestSyncPosition + 1;
      data := data[roomID := data[roomID].(syncPosition := latestSyncPosition)];
      position := latestSyncPosition;
    }

    /** The body of an expired timer's callback, up to the notification it sends. */
    method RunCallback(t: TimerID) returns (position: int)
      requires Enabled(View(), DoCallback(t))
      modifies this
      ensures View() == Next(old(View()), DoCallback(t))
      ensures position == latestSyncPosition
    {
      position := RemoveUser(timers[t].user, timers[t].room);
      timers := timers[t := timers[t].(state := Finished)];
    }

    /** `until` is the time left before the expiry; nothing happens when it has passed. */
    method AddTypingUser(userID: UserID, roomID: RoomID, until: int, t: TimerID) returns (position: int)
      requires t !in timers && Inv(View())
      modifies this
      ensures Inv(View()) && position == latestSyncPosition
      ensures until <= 0 ==> View() == old(View())
      ensures until > 0 ==> Typing(View(), roomID) == Typing(old(View()), roomID) + {userID} &&
                            UpdatedAfter(View(), roomID, old(latestSyncPosition))
    {
      if until > 0 {
        NextKeepsInv(View(), DoArm(userID, roomID, t));
        ArmTimer(userID, roomID, t);
        NextKeepsInv(View(), DoAddUser(t));
        position := AddUser(userID, roomID, t);
      } else {
        position := latestSyncPosition;
      }
    }

    /** An update is reported with exactly the typing users, in no particular order. */
    method GetTypingUsersIfUpdatedAfter(roomID: RoomID, position: int) returns (users: seq<UserID>, updated: bool)
      ensures updated == UpdatedAfter(View(), roomID, position)
      ensures Distinct(users)
      ensures ToSet(users) == if updated then Typing(View(), roomID) else {}
    {
      users, updated := [], false;
      if roomID in data && data[roomID].syncPosition > position {
        updated := true;
        users := Enumerate(data[roomID].userSet.Keys);
      }
    }

    /** Position 0 is before every position in use, so this is always the full set. */
    method GetTypingUsers(roomID: RoomID) returns (users: seq<UserID>)
      requires Inv(View())
      ensures Distinct(users) && ToSet(users) == Typing(View(), roomID)
    {
      var updated;
      users, updated := GetTypingUsersIfUpdatedAfter(roomID, 0);
    }
  }
}
