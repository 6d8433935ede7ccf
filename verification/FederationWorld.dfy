/** What surrounds a federation transaction: the roomserver, the remote servers and the event
    library (federationapi/routing/send.go, roomserver/api/wrapper.go). */
module FederationWorld {
  import opened Prelude
  import opened FederationEvents

  datatype Error =
    | TxDone | ConnDone | NotAllowed | VerifySigError | RoomNotFound | MissingPrevEvents | Other
    | Panicked // an index out of range, which ends the request
    | Unfinished // a loop that is still running when we stop watching it
    | Wrapped(cause: Error)

  datatype Kind = KindOutlier | KindOld | KindNew

  /** An input to the roomserver. */
  datatype Input = Input(kind: Kind, event: Event, hasState: bool, stateEventIDs: seq<EventID>)

  datatype StateIDs = StateIDs(stateEventIDs: seq<EventID>, authEventIDs: seq<EventID>)

  datatype AuthCheck = Allowed | MissingAuthEvent(id: EventID) | Refused(error: Error)

  /** An answer to /event. */
  datatype EventReply = Failed | NoPDUs | Unreadable | Parsed(event: Event)

  datatype Missing = Missing(roomExists: bool, auths: seq<EventID>, prevs: seq<EventID>)

  /** Everything that will ever be answered: one arbitrary function per kind of request, of the
      moment and of what is asked.  A walk over servers has one moment and numbers its attempts.
      `stateAfter` is None when the roomserver fails or lacks the event; `accepts` is the error for
      a batch of inputs. */
  datatype Answers = Answers(
    events: (nat, seq<EventID>) -> Result<seq<Event>, Error>,
    stateAfter: (nat, EventID) -> Option<seq<Event>>,
    missing: (nat, Event) -> Result<Missing, Error>,
    latest: nat -> Result<seq<EventID>, Error>,
    serversInRoom: nat -> Option<seq<ServerName>>,
    event: (nat, nat, ServerName, EventID) -> EventReply,
    stateIDs: (nat, EventID) -> Result<StateIDs, Error>,
    state: (nat, EventID) -> Result<RespState, Error>,
    missingEvents: (nat, nat, ServerName, seq<EventID>, EventID) -> Option<seq<Event>>,
    resolve: (nat, seq<Event>, seq<Event>) -> Result<seq<Event>, Error>,
    allowed: (Event, seq<Event>) -> AuthCheck,
    accepts: (nat, seq<Input>) -> Option<Error>)
  {
    /** The first event of a walk that asks for one event, from attempt `i` on. */
    function FirstEvent(t: nat, servers: seq<ServerName>, i: nat, id: EventID): (r: Option<Event>)
      decreases |servers| - i
    {
      if i >= |servers| then None
      else if event(t, i, servers[i], id).Parsed? then Some(event(t, i, servers[i], id).event)
      else FirstEvent(t, servers, i + 1, id)
    }

    /** The same for a walk that an answer without PDUs brings to an end. */
    function FirstPDU(t: nat, servers: seq<ServerName>, i: nat, id: EventID): (r: EventReply)
      decreases |servers| - i
    {
      if i >= |servers| then Failed
      else if event(t, i, servers[i], id).Failed? || event(t, i, servers[i], id).Unreadable?
      then FirstPDU(t, servers, i + 1, id)
      else event(t, i, servers[i], id)
    }

    /** The roomserver answers with the event before `to`. */
    ghost predicate Returns(to: nat, ev: Event) {
      || (exists t, ids :: 0 <= t < to && events(t, ids).Ok? && ev in events(t, ids).value)
      || (exists t, id :: 0 <= t < to && stateAfter(t, id).Some? && ev in stateAfter(t, id).value)
    }

    /** A walk over some servers comes to the event before `to`. */
    ghost predicate Finds(to: nat, ev: Event) {
      exists t, servers, id :: 0 <= t < to && FirstEvent(t, servers, 0, id) == Some(ev)
    }

    /** The first answer of a walk that asks for the events between `earliest` and `latest`. */
    function FirstMissing(t: nat, servers: seq<ServerName>, i: nat, earliest: seq<EventID>, last: EventID)
      : (r: Option<seq<Event>>)
      decreases |servers| - i
    {
      if i >= |servers| then None
      else if missingEvents(t, i, servers[i], earliest, last).Some? then missingEvents(t, i, servers[i], earliest, last)
      else FirstMissing(t, servers, i + 1, earliest, last)
    }
  }

  /** Asking takes a moment each.  Recorded are the events that the roomserver has returned and those
      that walks have found, the inputs that were given and those that were taken, and the IDs that
      were looked up at remote servers. */
  class World {
    const answers: Answers
    var clock: nat
    ghost var returned: set<Event>
    ghost var found: set<Event>
    ghost var taken: set<Event>
    ghost var looked: seq<EventID>
    var inputs: seq<Input>

    constructor (answers: Answers)
      ensures this.answers == answers && clock == 0 && Honest()
      ensures returned == {} && found == {} && taken == {} && looked == [] && inputs == []
    {
      this.answers, clock, returned, found, taken, looked, inputs := answers, 0, {}, {}, {}, [], [];
    }

    /** What is recorded as returned or found was answered. */
    ghost predicate Honest()
      reads this`clock, this`returned, this`found
    {
      && (forall ev {:trigger answers.Returns(clock, ev)} :: ev in returned ==> answers.Returns(clock, ev))
      && (forall ev {:trigger answers.Finds(clock, ev)} :: ev in found ==> answers.Finds(clock, ev))
    }

    ghost function ReturnedIDs(): (r: set<EventID>)
      reads this`returned
    {
      set ev | ev in returned :: ev.id
    }

    method AdvanceTo(t: nat)
      requires Honest() && clock <= t
      modifies this`clock
      ensures clock == t && Honest()
    {
      forall ev | ev in returned
        ensures answers.Returns(t, ev)
      {
        assert answers.Returns(clock, ev);
      }
      forall ev | ev in found
        ensures answers.Finds(t, ev)
      {
        assert answers.Finds(clock, ev);
      }
      clock := t;
    }

    /** Takes a moment. */
    method Tick() returns (t: nat)
      requires Honest()
      modifies this`clock
      ensures t == old(clock) && clock == t + 1 && Honest()
    {
      t := clock;
      AdvanceTo(clock + 1);
    }

    ghost method NoteFound(events: set<Event>)
      requires Honest() && forall ev :: ev in events ==> answers.Finds(clock, ev)
      modifies this`found
      ensures found == old(found) + events && Honest()
    {
      found := found + events;
    }

    /** Time passes in which others find events. */
    method Absorb(t: nat, ghost events: set<Event>)
      requires Honest() && clock <= t && forall ev :: ev in events ==> answers.Finds(t, ev)
      modifies this`clock, this`found
      ensures clock == t && found == old(found) + events && Honest()
    {
      AdvanceTo(t);
      NoteFound(events);
    }

    method QueryEventsByID(ids: seq<EventID>) returns (r: Result<seq<Event>, Error>)
      requires Honest()
      modifies this`clock, this`returned
      ensures Honest() && clock == old(clock) + 1 && r == answers.events(old(clock), ids)
      ensures returned == old(returned) + if r.Ok? then ToSet(r.value) else {}
    {
      var t := Tick();
      r := answers.events(t, ids);
      if r.Ok? { returned := returned + ToSet(r.value); }
    }

    method QueryStateAfterEvents(id: EventID) returns (r: Option<seq<Event>>)
      requires Honest()
      modifies this`clock, this`returned
      ensures Honest() && clock == old(clock) + 1 && r == answers.stateAfter(old(clock), id)
      ensures returned == old(returned) + if r.Some? then ToSet(r.value) else {}
    {
      var t := Tick();
      r := answers.stateAfter(t, id);
      if r.Some? { returned := returned + ToSet(r.value); }
    }

    /** A batch that fails may have been taken in part. */
    method InputRoomEvents(batch: seq<Input>) returns (err: Option<Error>)
      requires Honest()
      modifies this`clock, this`inputs, this`taken
      ensures Honest() && old(inputs) <= inputs
      ensures clock == old(clock) + 1 && err == answers.accepts(old(clock), batch)
      ensures err.None? ==> inputs == old(inputs) + batch && taken == old(taken) + EventsOf(batch)
      ensures err.Some? ==> old(inputs) <= inputs <= old(inputs) + batch && taken == old(taken)
    {
      var t := Tick();
      err := answers.accepts(t, batch);
      var k :| 0 <= k <= |batch|;
      inputs := inputs + if err.None? then batch else batch[..k];
      taken := taken + if err.None? then EventsOf(batch) else {};
    }

    method SendEvents(kind: Kind, events: seq<Event>) returns (err: Option<Error>)
      requires Honest()
      modifies this`clock, this`inputs, this`taken
      ensures Honest() && old(inputs) <= inputs
      ensures clock == old(clock) + 1 && err == answers.accepts(old(clock), Plain(kind, events))
      ensures err.None? ==> inputs == old(inputs) + Plain(kind, events)
      ensures err.Some? ==> inputs <= old(inputs) + Plain(kind, events)
      ensures old(taken) <= taken && (err.None? ==> forall e :: e in events ==> e in taken)
    {
      err := InputRoomEvents(Plain(kind, events));
      if err.None? { PlainEvents(kind, events); }
    }

    /** Hands over the state of `event` as outliers, except what the roomserver is known to have,
        and then the event itself.  Nothing is sent if the state cannot be put in auth order, which
        needs a cycle or an auth event that is not in it. */
    method SendEventWithState(kind: Kind, state: RespState, event: Event, have: set<EventID>)
      returns (err: Option<Error>, ghost outliers: seq<Event>)
      requires Honest()
      modifies this`clock, this`inputs, this`taken
      ensures Honest() && old(inputs) <= inputs
      ensures old(clock) <= clock <= old(clock) + 1 && old(taken) <= taken
      ensures err.None? ==> inputs == old(inputs) + WithState(kind, outliers, event, state) && event in taken
      ensures clock > old(clock) ==> err == answers.accepts(old(clock), WithState(kind, outliers, event, state))
      ensures clock > old(clock) ==> SendsAllBut(outliers, state, have) && Backed(outliers, have)
      ensures clock == old(clock) ==> err == Some(Other) && !Orderable(state) && inputs == old(inputs)
      ensures inputs <= old(inputs) + WithState(kind, outliers, event, state)
    {
      outliers := [];
      var unknown, ok := OutliersFor(state, have);
      if !ok { return Some(Other), outliers; }
      outliers := unknown;
      var stateEventIDs := ListIDs(state.stateEvents);
      var batch := Plain(KindOutlier, unknown) + [Input(kind, event, true, stateEventIDs)];
      err := InputRoomEvents(batch);
      assert batch[|unknown|].event == event;
    }
  }

  /** The state and auth events name each other in a way that can be ordered. */
  ghost predicate Orderable(state: RespState) {
    var all := state.authEvents + state.stateEvents;
    Acyclic(all, Auths()) && AuthsWithin(all, EventIDs(all))
  }

  /** The outliers to send, unless the state cannot be put in auth order. */
  method OutliersFor(state: RespState, have: set<EventID>) returns (outliers: seq<Event>, ok: bool)
    ensures ok ==> SendsAllBut(outliers, state, have) && Backed(outliers, have)
    ensures Orderable(state) ==> ok
  {
    var ordered := InAuthOrder(state);
    if ordered.None? { return [], false; }
    outliers := Unknown(ordered.value, have);
    ok := true;
  }

  /** The events that are not in `have`, in order. */
  method Unknown(all: seq<Event>, have: set<EventID>) returns (r: seq<Event>)
    requires RefsFirst(all, Auths()) && AuthsWithin(all, EventIDs(all)) && UniqueIDs(all)
    ensures EventIDs(r) == EventIDs(all) - have && Backed(r, have)
    ensures UniqueIDs(r) && forall e :: e in r ==> e in all
  {
    r := [];
    for i := 0 to |all|
      invariant EventIDs(r) == EventIDs(all[..i]) - have && Backed(r, have)
      invariant UniqueIDs(r) && forall e :: e in r ==> e in all[..i]
    {
      assert all[..i + 1] == all[..i] + [all[i]];
      IDsAppend(all[..i], all[i]);
      if all[i].id !in have {
        IDsAppend(r, all[i]);
        AuthsComeFirst(all, i);
        BackedByOneMore(r, have, all[i]);
        r := r + [all[i]];
      }
    }
    assert all[..|all|] == all;
  }

  method ListIDs(events: seq<Event>) returns (r: seq<EventID>)
    ensures r == IDsOf(events)
  {
    r := [];
    for i := 0 to |events|
      invariant |r| == i && forall k :: 0 <= k < i ==> r[k] == events[k].id
    {
      r := r + [events[i].id];
    }
  }

  function Plain(kind: Kind, events: seq<Event>): (r: seq<Input>)
    ensures |r| == |events| && forall i :: 0 <= i < |r| ==> r[i] == Input(kind, events[i], false, [])
  {
    seq(|events|, i requires 0 <= i < |events| => Input(kind, events[i], false, []))
  }

  lemma InTurn(inputs: seq<Input>, first: seq<Input>, second: seq<Input>)
    ensures inputs + first + second == inputs + (first + second)
  {
  }

  lemma PlainAppend(inputs: seq<Input>, kind: Kind, events: seq<Event>, e: Event)
    ensures inputs + Plain(kind, events) + Plain(kind, [e]) == inputs + Plain(kind, events + [e])
  {
    assert Plain(kind, events) + Plain(kind, [e]) == Plain(kind, events + [e]);
    InTurn(inputs, Plain(kind, events), Plain(kind, [e]));
  }

  /** The outliers, and then an event with its state. */
  ghost function WithState(kind: Kind, outliers: seq<Event>, event: Event, state: RespState): (r: seq<Input>) {
    Plain(KindOutlier, outliers) + [Input(kind, event, true, IDsOf(state.stateEvents))]
  }

  ghost function EventsOf(batch: seq<Input>): (r: set<Event>) {
    set i | 0 <= i < |batch| :: batch[i].event
  }

  lemma PlainEvents(kind: Kind, events: seq<Event>)
    ensures forall e :: e in events ==> e in EventsOf(Plain(kind, events))
  {
    forall e | e in events
      ensures e in EventsOf(Plain(kind, events))
    {
      var i :| 0 <= i < |events| && events[i] == e;
      assert Plain(kind, events)[i].event == e;
    }
  }

  ghost function IDsOf(events: seq<Event>): (r: seq<EventID>)
    ensures |r| == |events| && forall i :: 0 <= i < |r| ==> r[i] == events[i].id
  {
    seq(|events|, i requires 0 <= i < |events| => events[i].id)
  }

  lemma ListedIDs(s: seq<Event>)
    ensures ToSet(IDsOf(s)) == EventIDs(s)
  {
    forall id | id in EventIDs(s)
      ensures id in IDsOf(s)
    {
      var i :| 0 <= i < |s| && s[i].id == id;
      assert IDsOf(s)[i] == id;
    }
  }

  /** The outliers are the state and auth events minus those in `have`, one per ID. */
  ghost predicate SendsAllBut(outliers: seq<Event>, state: RespState, have: set<EventID>) {
    && EventIDs(outliers) == EventIDs(state.stateEvents) + EventIDs(state.authEvents) - have
    && UniqueIDs(outliers) && forall e :: e in outliers ==> e in state.authEvents + state.stateEvents
  }

  /** Each event's auth events are in `have` or listed before it. */
  ghost predicate Backed(events: seq<Event>, have: set<EventID>) {
    forall i :: 0 <= i < |events| ==> BackedAt(events, have, i)
  }

  ghost predicate BackedAt(events: seq<Event>, have: set<EventID>, i: nat)
    requires i < |events|
  {
    NamesWithin(events[i], have + EventIDs(events[..i]))
  }

  lemma AuthsComeFirst(all: seq<Event>, i: nat)
    requires RefsFirst(all, Auths()) && i < |all|
    requires AuthsWithin(all, EventIDs(all))
    ensures NamesWithin(all[i], EventIDs(all[..i]))
  {
    forall a | a in all[i].auths
      ensures a in EventIDs(all[..i])
    {
      assert all[i] in all && NamesWithin(all[i], EventIDs(all));
      var e :| e in all && e.id == a;
      var j :| 0 <= j < |all| && all[j] == e;
      assert j < i;
      assert all[j] in all[..i];
    }
  }

  lemma MoreKnown(events: seq<Event>, have: set<EventID>, more: set<EventID>)
    requires Backed(events, have) && have <= more
    ensures Backed(events, more)
  {
    forall i | 0 <= i < |events|
      ensures BackedAt(events, more, i)
    {
      assert BackedAt(events, have, i);
    }
  }

  lemma BackedByOneMore(events: seq<Event>, have: set<EventID>, e: Event)
    requires Backed(events, have) && NamesWithin(e, have + EventIDs(events))
    ensures Backed(events + [e], have)
  {
    var s := events + [e];
    forall i | 0 <= i < |s|
      ensures BackedAt(s, have, i)
    {
      assert s[..i] == events[..i];
      if i == |events| {
        assert events[..i] == events;
      } else {
        assert s[i] == events[i] && BackedAt(events, have, i);
      }
    }
  }
}
