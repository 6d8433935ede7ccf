/** Fetching public rooms from many servers at once (cmd/dendritejs/publicrooms.go): senders, a
    closer and a fan-in loop around one buffered channel, one atomic action at a time. */
module PublicRoomsFanIn {
  import opened Prelude

  const LIMIT := 200

  /** What each homeserver answers: a list of that many rooms, or an error. */
  type Answers = seq<Option<nat>>

  /** Room number `index` of the list of homeserver `sender`. */
  datatype Room = Room(sender: nat, index: nat)

  /** `sent` rooms have gone into the channel so far. */
  datatype Sender = Querying | Sending(sent: nat) | Exited(sent: nat)

  datatype Reason = ChannelClosed | LimitReached | TimedOut | HungUp

  datatype Loop = Looping | Ended(why: Reason)

  datatype State = State(
    senders: seq<Sender>,
    roomCh: seq<Room>,
    closed: bool,
    done: bool,
    publicRooms: seq<Room>,
    loop: Loop,
    panicked: bool)

  datatype Step =
    | Answer(i: nat) | Send(i: nat) | Interrupt(i: nat) | Finish(i: nat)
    | CloseRooms
    | Receive | SeeClosed | SeeLimit | Timeout | HangUp
    | CloseDone

  function Length(a: Answers, i: nat): nat
    requires i < |a|
  {
    if a[i].Some? then a[i].value else 0
  }

  predicate MayReceive(s: State) {
    s.loop == Looping && |s.publicRooms| < LIMIT
  }

  predicate Enabled(a: Answers, s: State, step: Step) {
    match step
    case Answer(i) => i < |s.senders| && s.senders[i] == Querying
    case Send(i) =>
      i < |s.senders| && i < |a| && s.senders[i].Sending? && s.senders[i].sent < Length(a, i) && |s.roomCh| < LIMIT
    case Interrupt(i) =>
      i < |s.senders| && i < |a| && s.senders[i].Sending? && s.senders[i].sent < Length(a, i) && s.done
    case Finish(i) => i < |s.senders| && i < |a| && s.senders[i].Sending? && s.senders[i].sent >= Length(a, i)
    case CloseRooms => !s.closed && forall i :: 0 <= i < |s.senders| ==> s.senders[i].Exited?
    case Receive => MayReceive(s) && s.roomCh != []
    case SeeClosed => MayReceive(s) && s.roomCh == [] && s.closed
    case SeeLimit => s.loop == Looping && |s.publicRooms| >= LIMIT
    case Timeout => MayReceive(s)
    case HangUp => MayReceive(s)
    case CloseDone => s.loop.Ended? && !s.done
  }

  function Next(a: Answers, s: State, step: Step): State
    requires |s.senders| == |a| && Enabled(a, s, step)
  {
    match step
    case Answer(i) => s.(senders := s.senders[i := if a[i].Some? then Sending(0) else Exited(0)])
    case Send(i) =>
      if s.closed then s.(panicked := true)
      else s.(senders := s.senders[i := Sending(s.senders[i].sent + 1)],
              roomCh := s.roomCh + [Room(i, s.senders[i].sent)])
    case Interrupt(i) => s.(senders := s.senders[i := Exited(s.senders[i].sent)])
    case Finish(i) => s.(senders := s.senders[i := Exited(s.senders[i].sent)])
    case CloseRooms => s.(closed := true)
    case Receive => s.(publicRooms := s.publicRooms + [s.roomCh[0]], roomCh := s.roomCh[1..])
    case SeeClosed => s.(loop := Ended(ChannelClosed))
    case SeeLimit => s.(loop := Ended(LimitReached))
    case Timeout => s.(loop := Ended(TimedOut))
    case HangUp => s.(loop := Ended(HungUp))
    case CloseDone => s.(done := true)
  }

  ghost predicate Init(a: Answers, s: State) {
    && s == State(s.senders, [], false, false, [], Looping, false)
    && |s.senders| == |a| && forall i :: 0 <= i < |a| ==> s.senders[i] == Querying
  }

  /** The positions in its own list of the rooms that came from one server. */
  ghost function From(rooms: seq<Room>, i: nat): (r: seq<nat>) {
    if rooms == [] then []
    else
      var last := rooms[|rooms| - 1];
      From(rooms[..|rooms| - 1], i) + if last.sender == i then [last.index] else []
  }

  /** 0, 1, ..., n - 1. */
  ghost function FirstN(n: nat): (r: seq<nat>)
    ensures |r| == n
  {
    seq(n, k => k)
  }

  lemma {:induction false} FromConcat(x: seq<Room>, y: seq<Room>, i: nat)
    ensures From(x + y, i) == From(x, i) + From(y, i)
  {
    if y == [] {
      assert x + y == x;
    } else {
      var y' := y[..|y| - 1];
      assert (x + y)[..|x + y| - 1] == x + y';
      FromConcat(x, y', i);
    }
  }

  ghost function SentBy(s: State, i: nat): (n: nat)
    requires i < |s.senders|
  {
    if s.senders[i].Querying? then 0 else s.senders[i].sent
  }

  ghost predicate GoodSender(a: Answers, s: State, i: nat)
    requires i < |s.senders| == |a|
  {
    && SentBy(s, i) <= Length(a, i) && (s.senders[i].Sending? ==> a[i].Some?)
    && From(s.publicRooms + s.roomCh, i) == FirstN(SentBy(s, i))
    && (s.senders[i].Exited? && !s.done ==> SentBy(s, i) == Length(a, i))
    && (s.closed ==> s.senders[i].Exited?)
    && (s.loop == Ended(ChannelClosed) ==> s.senders[i].Exited? && SentBy(s, i) == Length(a, i))
  }

  ghost predicate Inv(a: Answers, s: State) {
    && |s.senders| == |a|
    && !s.panicked
    && |s.publicRooms| <= LIMIT
    && |s.roomCh| <= LIMIT
    && (s.done ==> s.loop.Ended?)
    && (s.loop == Ended(ChannelClosed) ==> s.closed && s.roomCh == [])
    && (s.loop == Ended(LimitReached) ==> |s.publicRooms| == LIMIT)
    && (forall room :: room in s.publicRooms || room in s.roomCh ==> room.sender < |a|)
    && (forall i :: 0 <= i < |a| ==> GoodSender(a, s, i))
  }

  lemma FromAppend(rooms: seq<Room>, room: Room, i: nat)
    ensures From(rooms + [room], i) == From(rooms, i) + if room.sender == i then [room.index] else []
  {
    assert (rooms + [room])[..|rooms|] == rooms;
  }

  lemma OneMoreSent(rooms: seq<Room>, room: Room, i: nat, n: nat)
    requires From(rooms, i) == FirstN(n) && (room.sender == i ==> room.index == n)
    ensures From(rooms + [room], i) == FirstN(if room.sender == i then n + 1 else n)
  {
    FromAppend(rooms, room, i);
    assert FirstN(n) + [n] == FirstN(n + 1);
  }

  lemma SendKeepsGood(a: Answers, s: State, j: nat, i: nat)
    requires |s.senders| == |a| && Enabled(a, s, Send(j)) && i < |a|
    requires GoodSender(a, s, j) && GoodSender(a, s, i)
    ensures !s.closed && GoodSender(a, Next(a, s, Send(j)), i)
  {
    var all, room := s.publicRooms + s.roomCh, Room(j, s.senders[j].sent);
    assert s.publicRooms + (s.roomCh + [room]) == all + [room];
    OneMoreSent(all, room, i, SentBy(s, i));
  }

  lemma NextKeepsInv(a: Answers, s: State, step: Step)
    requires Inv(a, s) && Enabled(a, s, step)
    ensures Inv(a, Next(a, s, step))
  {
    var s' := Next(a, s, step);
    if step.Receive? { assert s'.publicRooms + s'.roomCh == s.publicRooms + s.roomCh; }
    if step.Send? {
      assert GoodSender(a, s, step.i);
      SendKeepsGood(a, s, step.i, step.i);
    }
    forall i | 0 <= i < |a|
      ensures GoodSender(a, s', i)
    {
      assert GoodSender(a, s, i);
      if step.Send? { SendKeepsGood(a, s, step.i, i); }
    }
  }

  ghost predicate IsRun(a: Answers, states: seq<State>, steps: seq<Step>) {
    && |states| == |steps| + 1
    && Init(a, states[0])
    && (forall k :: 0 <= k < |states| ==> |states[k].senders| == |a|) // one goroutine per homeserver
    && (forall k :: 0 <= k < |steps| ==>
          Enabled(a, states[k], steps[k]) && states[k + 1] == Next(a, states[k], steps[k]))
  }

  lemma {:induction false} RunKeepsInv(a: Answers, states: seq<State>, steps: seq<Step>, n: nat)
    requires IsRun(a, states, steps) && n < |states|
    ensures Inv(a, states[n])
  {
    if n > 0 {
      RunKeepsInv(a, states, steps, n - 1);
      NextKeepsInv(a, states[n - 1], steps[n - 1]);
    } else {
      assert forall i :: 0 <= i < |a| ==> GoodSender(a, states[0], i);
    }
  }

  lemma {:induction false} PrefixOfFirstN(x: seq<nat>, y: seq<nat>, n: nat)
    requires x + y == FirstN(n)
    ensures x == FirstN(|x|)
  {
    assert x == (x + y)[..|x|];
  }

  /** In every interleaving: nothing is sent on the closed channel, at most 200 rooms come back,
      the rooms of each server are an in-order prefix of its list, and the whole list when the
      loop ended because the channel was closed. */
  lemma FanInIsFaithful(a: Answers, states: seq<State>, steps: seq<Step>, n: nat, i: nat)
    requires IsRun(a, states, steps) && n < |states| && i < |a|
    ensures !states[n].panicked && |states[n].publicRooms| <= 200
    ensures states[n].loop == Ended(LimitReached) ==> |states[n].publicRooms| == 200
    ensures forall room :: room in states[n].publicRooms ==> room.sender < |a|
    ensures From(states[n].publicRooms, i) <= FirstN(Length(a, i))
    ensures states[n].loop == Ended(ChannelClosed) ==> From(states[n].publicRooms, i) == FirstN(Length(a, i))
  {
    RunKeepsInv(a, states, steps, n);
    var s := states[n];
    assert GoodSender(a, s, i);
    FromConcat(s.publicRooms, s.roomCh, i);
    PrefixOfFirstN(From(s.publicRooms, i), From(s.roomCh, i), SentBy(s, i));
  }

  /** In every interleaving the loop takes the rooms in the order in which they went into the channel,
      until there are 200, the channel is closed and empty, time is up or the client is gone; each of
      these ends it, and only then is `done` closed.  The channel is closed once all senders are out. */
  lemma LoopEnds(a: Answers, states: seq<State>, steps: seq<Step>, n: nat)
    requires IsRun(a, states, steps) && n < |steps|
    ensures var s, s' := states[n], states[n + 1];
            match steps[n]
            case Receive =>
              && |s.publicRooms| < 200 && s.loop == Looping
              && s'.publicRooms + s'.roomCh == s.publicRooms + s.roomCh && |s'.publicRooms| == |s.publicRooms| + 1
              && s' == s.(publicRooms := s'.publicRooms, roomCh := s'.roomCh)
            case SeeClosed =>
              |s.publicRooms| < 200 && s.roomCh == [] && s.closed && s' == s.(loop := Ended(ChannelClosed))
            case SeeLimit => |s.publicRooms| == 200 && s' == s.(loop := Ended(LimitReached))
            case Timeout => |s.publicRooms| < 200 && s' == s.(loop := Ended(TimedOut))
            case HangUp => |s.publicRooms| < 200 && s' == s.(loop := Ended(HungUp))
            case CloseDone => s.loop != Looping && !s.done && s' == s.(done := true)
            case CloseRooms =>
              && !s.closed && s' == s.(closed := true)
              && forall i :: 0 <= i < |s.senders| ==> s.senders[i].Exited?
            case _ => s'.publicRooms == s.publicRooms && s'.loop == s.loop && s'.done == s.done && s'.closed == s.closed
  {
    RunKeepsInv(a, states, steps, n);
    var s := states[n];
    if steps[n] == Receive { assert s.roomCh == [s.roomCh[0]] + s.roomCh[1..]; }
    if steps[n].Send? { assert GoodSender(a, s, steps[n].i); }
  }

  /** And a sender goes through its answer, if it got one, room by room; it is out at the end of its
      list, or earlier if `done` is closed. */
  lemma SenderGoesThrough(a: Answers, states: seq<State>, steps: seq<Step>, n: nat, i: nat)
    requires IsRun(a, states, steps) && n < |steps| && i < |a|
    ensures var s, s', from, to := states[n], states[n + 1], states[n].senders[i], states[n + 1].senders[i];
            if steps[n] == Answer(i) then
              from == Querying && to == (if a[i].Some? then Sending(0) else Exited(0)) && s'.roomCh == s.roomCh
            else if steps[n] == Send(i) then
              && from.Sending? && a[i].Some? && from.sent < a[i].value && !s.closed && |s.roomCh| < 200
              && to == Sending(from.sent + 1) && s'.roomCh == s.roomCh + [Room(i, from.sent)]
            else if steps[n] == Finish(i) then
              from.Sending? && a[i] == Some(from.sent) && to == Exited(from.sent) && s'.roomCh == s.roomCh
            else if steps[n] == Interrupt(i) then
              from.Sending? && s.done && to == Exited(from.sent) && s'.roomCh == s.roomCh
            else
              to == from
  {
    RunKeepsInv(a, states, steps, n);
    assert GoodSender(a, states[n], i);
  }

  /** What is left to do for the senders, counted down by their every step. */
  ghost function Remaining(a: Answers, senders: seq<Sender>): (r: nat)
    requires |senders| <= |a|
  {
    if senders == [] then 0
    else
      var i := |senders| - 1;
      Remaining(a, senders[..i]) + match senders[i]
        case Querying => Length(a, i) + 2
        case Sending(sent) => if sent < Length(a, i) then Length(a, i) - sent + 1 else 1
        case Exited(_) => 0
  }

  lemma {:induction false} RemainingDrops(a: Answers, senders: seq<Sender>, i: nat, x: Sender)
    requires i < |senders| <= |a|
    requires match x
             case Querying => false
             case Sending(n) =>
               (senders[i] == Querying && n == 0) || (n > 0 && senders[i] == Sending(n - 1) && n <= Length(a, i))
             case Exited(_) => !senders[i].Exited?
    ensures Remaining(a, senders[i := x]) < Remaining(a, senders)
  {
    var k := |senders| - 1;
    if i == k {
      assert senders[i := x][..k] == senders[..k];
    } else {
      assert senders[i := x][..k] == senders[..k][i := x];
      RemainingDrops(a, senders[..k], i, x);
    }
  }

  /** Once `done` is closed no sender can stay blocked, so nothing leaks: a sender that has its
      answer can always move, and each of its moves brings the end closer. */
  lemma NoSenderStaysBlocked(a: Answers, states: seq<State>, steps: seq<Step>, n: nat, i: nat)
    requires IsRun(a, states, steps) && n < |states| && i < |a|
    requires states[n].done && states[n].senders[i].Sending?
    ensures Enabled(a, states[n], Interrupt(i)) || Enabled(a, states[n], Finish(i))
    ensures forall step :: Enabled(a, states[n], step) && step in {Send(i), Interrupt(i), Finish(i)} ==>
              Remaining(a, Next(a, states[n], step).senders) < Remaining(a, states[n].senders)
  {
    RunKeepsInv(a, states, steps, n);
    var s := states[n];
    assert GoodSender(a, s, i);
    forall step | Enabled(a, s, step) && step in {Send(i), Interrupt(i), Finish(i)}
      ensures Remaining(a, Next(a, s, step).senders) < Remaining(a, s.senders)
    {
      RemainingDrops(a, s.senders, i, Next(a, s, step).senders[i]);
    }
  }
}
