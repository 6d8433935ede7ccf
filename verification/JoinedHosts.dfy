/** Which servers were in the room at an event (federationsender/consumers/roomserver.go). */
module JoinedHosts {
  import opened Prelude
  import opened StateDeltas

  /** A state event as far as membership is concerned.  `membership` is None when the content
      cannot be read. */
  datatype Event = Event(id: EventID, kind: string, stateKey: Option<string>, membership: Option<string>)

  datatype JoinedHost = JoinedHost(memberEventID: EventID, serverName: ServerName)

  datatype Failure = BadMembership | BadUserID | QueryFailed | MissingState | PeeksFailed

  /** The domain of a user ID, or None when the ID is malformed. */
  type Splitter = string -> Option<ServerName>

  /** A roomserver answer to "give me these events". */
  type EventQuery = seq<EventID> -> Result<seq<Event>, Failure>

  predicate IsMember(e: Event) {
    e.kind == "m.room.member" && e.stateKey.Some?
  }

  predicate IsJoin(e: Event) {
    IsMember(e) && e.membership == Some("join")
  }

  /** Events that make joinedHostsFromEvents give up. */
  predicate Malformed(e: Event, split: Splitter) {
    IsMember(e) && (e.membership.None? || (IsJoin(e) && split(e.stateKey.value).None?))
  }

  /** `server` has a join member event among the events named in `ids`. */
  ghost predicate HasJoin(ids: set<EventID>, known: map<EventID, Event>, split: Splitter, server: ServerName) {
    exists id :: id in ids && id in known && IsJoin(known[id]) && split(known[id].stateKey.value) == Some(server)
  }

  /** `known` lists each event under its own ID. */
  ghost predicate FiledByID(known: map<EventID, Event>) {
    forall id :: id in known ==> known[id].id == id
  }

  /** The roomserver answers only with events it was asked for, as they really are. */
  ghost predicate Honest(query: EventQuery, known: map<EventID, Event>) {
    forall ids, e :: query(ids).Ok? && e in query(ids).value ==> e.id in ids && e.id in known && known[e.id] == e
  }

  /** The roomserver answered, and with every event it was asked for. */
  ghost predicate Complete(query: EventQuery, ids: seq<EventID>) {
    query(ids).Ok? && forall id :: id in ids ==> exists e :: e in query(ids).value && e.id == id
  }

  /** The database's joined hosts are exactly the joins of the state `s`. */
  ghost predicate MatchesState(hosts: seq<JoinedHost>, s: set<EventID>, known: map<EventID, Event>, split: Splitter) {
    && (forall h :: h in hosts ==>
          h.memberEventID in s && HasJoin({h.memberEventID}, known, split, h.serverName))
    && (forall id, server :: id in s && HasJoin({id}, known, split, server) ==> JoinedHost(id, server) in hosts)
  }

  /** Joins found in a list of events; fails exactly when some event is malformed. */
  method JoinedHostsFromEvents(evs: seq<Event>, split: Splitter) returns (r: Result<seq<JoinedHost>, Failure>)
    ensures r.Err? <==> exists e :: e in evs && Malformed(e, split)
    ensures r.Ok? ==> forall id, server :: JoinedHost(id, server) in r.value <==>
              exists e :: e in evs && e.id == id && IsJoin(e) && split(e.stateKey.value) == Some(server)
  {
    var hosts: seq<JoinedHost> := [];
    for i := 0 to |evs|
      invariant forall e :: e in evs[..i] ==> !Malformed(e, split)
      invariant forall id, server :: JoinedHost(id, server) in hosts <==>
                  exists e :: e in evs[..i] && e.id == id && IsJoin(e) && split(e.stateKey.value) == Some(server)
    {
      var ev := evs[i];
      assert evs[..i + 1] == evs[..i] + [ev];
      if ev.kind != "m.room.member" || ev.stateKey.None? { continue; }
      assert ev in evs;
      if ev.membership.None? { return Err(BadMembership); }
      if ev.membership.value != "join" { continue; }
      var server := split(ev.stateKey.value);
      if server.None? { return Err(BadUserID); }
      hosts := hosts + [JoinedHost(ev.id, server.value)];
    }
    assert evs[..|evs|] == evs;
    return Ok(hosts);
  }

  /** A list of IDs without those in `have`, in order. */
  ghost function Without(ids: seq<EventID>, have: set<EventID>): (r: seq<EventID>) {
    if ids == [] then []
    else Without(ids[..|ids| - 1], have) + if ids[|ids| - 1] in have then [] else [ids[|ids| - 1]]
  }

  /** Each ID is looked at on its own, and the order is kept. */
  lemma {:induction false} WithoutInTurn(x: seq<EventID>, y: seq<EventID>, id: EventID, have: set<EventID>)
    ensures Without(x + y, have) == Without(x, have) + Without(y, have)
    ensures Without([], have) == [] && Without([id], have) == if id in have then [] else [id]
  {
    assert [id][..0] == [];
    if y == [] {
      assert x + y == x;
    } else {
      assert (x + y)[..|x + y| - 1] == x + y[..|y| - 1];
      WithoutInTurn(x, y[..|y| - 1], id, have);
    }
  }

  function IDs(events: seq<Event>): (r: set<EventID>) {
    set e | e in events :: e.id
  }

  /** The required IDs that no event in `events` carries, in their original order. */
  method MissingEventsFrom(events: seq<Event>, required: seq<EventID>) returns (missing: seq<EventID>)
    ensures missing == Without(required, IDs(events))
    ensures forall id :: id in missing <==> id in required && id !in IDs(events)
  {
    var have: set<EventID> := {};
    for i := 0 to |events|
      invariant have == IDs(events[..i])
    {
      assert events[..i + 1] == events[..i] + [events[i]];
      have := have + {events[i].id};
    }
    assert events[..|events|] == events;
    missing := [];
    for i := 0 to |required|
      invariant missing == Without(required[..i], have)
      invariant forall id :: id in missing <==> id in required[..i] && id !in have
    {
      assert required[..i + 1][..i] == required[..i];
      assert required[..i + 1] == required[..i] + [required[i]];
      if required[i] !in have {
        missing := missing + [required[i]];
      }
    }
    assert required[..|required|] == required;
  }

  /** All but the event itself, which need not be asked for. */
  lemma {:induction false} OthersRemain(ids: seq<EventID>, id: EventID)
    ensures forall x :: x in Without(ids, {id}) <==> x in ids && x != id
    ensures id !in ids ==> Without(ids, {id}) == Without(ids, {})
  {
    if ids != [] {
      assert ids == ids[..|ids| - 1] + [ids[|ids| - 1]];
      OthersRemain(ids[..|ids| - 1], id);
    }
  }

  /** The roomserver was asked for some of these events, and did not give them all. */
  ghost predicate InVain(ids: set<EventID>, query: EventQuery) {
    exists asked :: asked != [] && ToSet(asked) <= ids && !Complete(query, asked)
  }

  lemma AskedInVain(ids: seq<EventID>, id: EventID, query: EventQuery)
    requires Without(ids, {id}) != [] && !Complete(query, Without(ids, {id}))
    ensures InVain(ToSet(ids) - {id}, query)
  {
    OthersRemain(ids, id);
  }

  /** On success the result holds the true event for every wanted ID and nothing else. */
  method LookupStateEvents(adds: seq<EventID>, event: Event, query: EventQuery, ghost known: map<EventID, Event>)
    returns (r: Result<seq<Event>, Failure>)
    requires Honest(query, known)
    requires event.id in known && known[event.id] == event
    ensures r.Ok? ==> forall e :: e in r.value <==> e.id in adds && e.id in known && known[e.id] == e
    ensures r.Ok? ==> ToSet(adds) <= known.Keys
    ensures r.Err? <==> Without(adds, {event.id}) != [] && !Complete(query, Without(adds, {event.id}))
  {
    OthersRemain(adds, event.id);
    if |adds| == 0 { return Ok([]); }
    if |adds| == 1 && adds[0] == event.id { return Ok([event]); }
    var result: seq<Event> := if event.id in adds then [event] else [];
    assert IDs(result) == if event.id in adds then {event.id} else {};
    var missing := MissingEventsFrom(result, adds);
    if |missing| == 0 {
      assert forall id :: id in adds ==> id == event.id;
      return Ok(result);
    }
    r := QueryMissing(adds, result, missing, query, known);
  }

  /** Asks for what is still missing; there is no other way to fail than an incomplete answer. */
  method QueryMissing(adds: seq<EventID>, had: seq<Event>, missing: seq<EventID>, query: EventQuery,
                      ghost known: map<EventID, Event>)
    returns (r: Result<seq<Event>, Failure>)
    requires Honest(query, known)
    requires forall id :: id in missing <==> id in adds && id !in IDs(had)
    requires forall e :: e in had ==> e.id in adds && e.id in known && known[e.id] == e
    ensures r.Ok? ==> forall e :: e in r.value <==> e.id in adds && e.id in known && known[e.id] == e
    ensures r.Ok? ==> ToSet(adds) <= known.Keys
    ensures r.Ok? <==> Complete(query, missing)
  {
    var resp := query(missing);
    if resp.Err? { return Err(resp.error); }
    var result := had + resp.value;
    assert IDs(result) == IDs(had) + IDs(resp.value);
    var lacking := MissingEventsFrom(result, adds);
    if |lacking| != 0 {
      assert lacking[0] in missing && lacking[0] !in IDs(resp.value);
      return Err(MissingState);
    }
    forall id | id in adds
      ensures id in known && known[id] in result
    {
      assert id !in lacking;
    }
    return Ok(result);
  }

  ghost predicate HostAmong(hosts: seq<JoinedHost>, without: set<EventID>, server: ServerName) {
    exists h :: h in hosts && h.memberEventID !in without && h.serverName == server
  }

  /** The joins of the state before the event are the old joins that survive the combined
      removals plus the joins among the combined additions. */
  lemma JoinsSplit(hosts: seq<JoinedHost>, added: seq<JoinedHost>, s: set<EventID>, d: Deltas,
                   adds: set<EventID>, removes: set<EventID>,
                   known: map<EventID, Event>, split: Splitter, server: ServerName)
    requires MatchesState(hosts, s, known, split)
    requires IsNetDelta(s, d, adds, removes)
    requires forall id, server :: JoinedHost(id, server) in added <==> id in adds && HasJoin({id}, known, split, server)
    ensures HasJoin(Apply(s, d), known, split, server) <==>
            HostAmong(hosts, removes, server) || HostAmong(added, {}, server)
  {
    if HasJoin(Apply(s, d), known, split, server) {
      var id :| id in Apply(s, d) && id in known && IsJoin(known[id])
               && split(known[id].stateKey.value) == Some(server);
      assert id in {id} && HasJoin({id}, known, split, server);
      assert JoinedHost(id, server) in if id in s then hosts else added;
    }
    if HostAmong(hosts, removes, server) {
      var h :| h in hosts && h.memberEventID !in removes && h.serverName == server;
      assert h.memberEventID in Apply(s, d) && HasJoin({h.memberEventID}, known, split, server);
    }
    if HostAmong(added, {}, server) {
      var h :| h in added && h.serverName == server;
      assert h == JoinedHost(h.memberEventID, server);
    }
  }

  /** Everything a notification about a new event carries that this computation reads. */
  datatype Output = Output(event: Event, deltas: Deltas)

  /** The destinations of an event: when the deltas fit the old current state `s`, they are
      without duplicates exactly the servers joined in the state before the event, plus the
      peeking servers. */
  method JoinedHostsAtEvent(ore: Output, hosts: seq<JoinedHost>, query: EventQuery,
                            peeks: Result<seq<ServerName>, Failure>, split: Splitter,
                            ghost s: set<EventID>, ghost known: map<EventID, Event>)
    returns (r: Result<seq<ServerName>, Failure>)
    requires Honest(query, known) && FiledByID(known)
    requires ore.event.id in known && known[ore.event.id] == ore.event
    requires MatchesState(hosts, s, known, split)
    requires Fits(s, ore.deltas)
    ensures r.Ok? ==> peeks.Ok? && Distinct(r.value)
    ensures r.Ok? ==> forall server :: server in r.value <==>
              HasJoin(Apply(s, ore.deltas), known, split, server) || server in peeks.value
    ensures r.Ok? ==> forall id :: id in Apply(s, ore.deltas) - s ==> id in known && !Malformed(known[id], split)
    ensures r.Err? ==>
              || peeks.Err?
              || InVain(Apply(s, ore.deltas) - s - {ore.event.id}, query)
              || (exists id :: id in Apply(s, ore.deltas) - s && id in known && Malformed(known[id], split))
  {
    var adds, removes := CombineDeltas(ore.deltas);
    assert IsNetDelta(s, ore.deltas, ToSet(adds), ToSet(removes));
    var events := LookupStateEvents(adds, ore.event, query, known);
    if events.Err? {
      AskedInVain(adds, ore.event.id, query);
      return Err(events.error);
    }
    var added := JoinedHostsFromEvents(events.value, split);
    if added.Err? { return Err(added.error); }
    assert forall id, server :: JoinedHost(id, server) in added.value <==>
             id in adds && HasJoin({id}, known, split, server);

    var joined: set<ServerName> := {};
    for i := 0 to |hosts|
      invariant forall server :: server in joined <==> HostAmong(hosts[..i], ToSet(removes), server)
    {
      assert hosts[..i + 1] == hosts[..i] + [hosts[i]];
      if hosts[i].memberEventID !in removes {
        joined := joined + {hosts[i].serverName};
      }
    }
    assert hosts[..|hosts|] == hosts;
    ghost var kept := joined;
    for i := 0 to |added.value|
      invariant forall server :: server in joined <==>
                  server in kept || HostAmong(added.value[..i], {}, server)
    {
      assert added.value[..i + 1] == added.value[..i] + [added.value[i]];
      joined := joined + {added.value[i].serverName};
    }
    assert added.value[..|added.value|] == added.value;
    if peeks.Err? { return Err(PeeksFailed); }
    joined := joined + ToSet(peeks.value);
    forall server
      ensures HasJoin(Apply(s, ore.deltas), known, split, server) <==>
              HostAmong(hosts, ToSet(removes), server) || HostAmong(added.value, {}, server)
    {
      JoinsSplit(hosts, added.value, s, ore.deltas, ToSet(adds), ToSet(removes), known, split, server);
    }
    var result := Enumerate(joined);
    assert forall server :: server in result <==> server in ToSet(result);
    r := Ok(result);
  }
}
