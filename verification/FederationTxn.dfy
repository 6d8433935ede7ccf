/** Processing a federation transaction (federationapi/routing/send.go): the event cache, the
    lookups that fill it, and the order in which a gap in a room's history is closed. */
module FederationTxn {
  import opened Prelude
  import opened FederationEvents
  import opened FederationWorld
  import opened StateAfterEvent
  import opened GapFilling
  import FetchPool

  /** Of the errors only TxDone ends the transaction, without a fallthrough from ConnDone; and so does
      a panic. */
  predicate IsProcessingErrorFatal(err: Error) {
    err == TxDone || err == Panicked
  }

  function Max(x: nat, y: nat): nat { if x > y then x else y }

  function ServersNamed(answers: Answers, origin: ServerName, t: nat): (r: seq<ServerName>) {
    [origin] + if answers.serversInRoom(t).Some? then answers.serversInRoom(t).value else []
  }

  /** If all listed IDs are cached nothing is dropped. */
  lemma {:induction false} RestrictAll(ids: seq<EventID>, have: Cache, r: seq<Event>)
    requires |r| == |ids| && forall k :: 0 <= k < |r| ==> CachedAs(have, ids[k], r[k])
    ensures Restrict(ids, have) == r
  {
    if ids != [] {
      var n := |ids| - 1;
      RestrictAll(ids[..n], have, r[..n]);
      assert r == r[..n] + [r[n]];
    }
  }

  ghost predicate CachedAs(have: Cache, id: EventID, ev: Event) {
    id in have && have[id] == ev
  }

  lemma CachedInOrder(events: seq<Event>, have: Cache, r: seq<Event>)
    requires KeyedByID(have) && |r| == |events| && forall k :: 0 <= k < |r| ==> CachedAs(have, events[k].id, r[k])
    ensures r == Restrict(IDsOf(events), have) && IDsOf(r) == IDsOf(events) && EventIDs(r) == EventIDs(events)
  {
    RestrictAll(IDsOf(events), have, r);
    ListedIDs(events);
    ListedIDs(r);
  }

  lemma {:induction false} CachedAllGrows(have: Cache, events: seq<Event>)
    ensures Within(have, CachedAll(have, events)) && CachedAll(have, events).Keys == have.Keys + EventIDs(events)
  {
    if events != [] {
      var init, last := events[..|events| - 1], events[|events| - 1];
      CachedAllGrows(have, init);
      IDsAppend(init, last);
      assert events == init + [last];
    }
  }

  /** One more auth event that the check found missing. */
  lemma RepairedOneMore(w: Window, extremity: Event, resolved: seq<Event>, state: seq<Event>, ev: Event)
    requires Repaired(w, extremity, resolved, state)
    requires var check := w.answers.allowed(extremity, state); check.MissingAuthEvent? && LookedUp(w, check.id, ev)
    ensures Repaired(w, extremity, resolved, state + [ev])
  {
    var state' := state + [ev];
    forall k | |resolved| <= k < |state'|
      ensures SuppliedAt(w, extremity, state', k)
    {
      assert state'[..k] == state[..k];
      if k < |state| {
        assert SuppliedAt(w, extremity, state, k);
      } else {
        assert state[..k] == state;
      }
    }
  }

  lemma ReturnedByID(events: seq<Event>, returned: set<Event>)
    requires ToSet(events) <= returned
    ensures EventIDs(events) <= set ev | ev in returned :: ev.id
  {
    forall id | id in EventIDs(events)
      ensures id in set ev | ev in returned :: ev.id
    {
      var ev :| ev in events && ev.id == id;
      assert ev in ToSet(events);
    }
  }

  /** The genuine events that came back to the pool. */
  ghost function FoundBy(w: Window, q: FetchPool.Pool): (r: set<Event>)
    requires w.servers.Some?
  {
    set a | a in q.answered && NetOf(w).Good(a.0, a.1) :: NetOf(w).found(a.0, a.1).value
  }

  ghost function NetOf(w: Window): FetchPool.Net
    requires w.servers.Some?
  {
    Lookups(w.answers, w.servers.value, w.genuine)
  }

  /** A lookup is a walk over the servers. */
  function Lookups(answers: Answers, servers: seq<ServerName>, genuine: Event -> bool): FetchPool.Net {
    FetchPool.Net((t: nat, id: EventID) => answers.FirstEvent(t, servers, 0, id), genuine)
  }

  /** What a finished pool has found, and what it has not. */
  lemma PoolFindings(w: Window, q: FetchPool.Pool, missing: seq<EventID>, start: nat, have: Cache, marked: set<EventID>)
    requires w.servers.Some? && w.from <= start && w.to == q.clock
    requires FetchPool.GrewByLookups(NetOf(w), q, have, marked)
    requires forall a :: a in q.answered ==> a.1 in missing && start <= a.0 < q.clock
    requires forall id :: id in missing ==> FetchPool.Settled(NetOf(w), q, id, start)
    ensures forall ev :: ev in FoundBy(w, q) ==> w.answers.Finds(w.to, ev)
    ensures q.marked <= marked + GenuineIDs(FoundBy(w, q), w.genuine)
    ensures forall x :: x in q.have && x !in have ==> q.have[x] in FoundBy(w, q) && w.genuine(q.have[x])
    ensures GrewBy(w, missing, have, q.have)
    ensures forall x :: x in missing && x !in q.have ==> w.Unavailable(x)
  {
    var net := NetOf(w);
    forall ev | ev in FoundBy(w, q)
      ensures w.answers.Finds(w.to, ev)
    {
      var a :| a in q.answered && net.Good(a.0, a.1) && net.found(a.0, a.1).value == ev;
      assert w.answers.FirstEvent(a.0, w.servers.value, 0, a.1) == Some(ev);
    }
    forall id | id in q.marked && id !in marked
      ensures id in GenuineIDs(FoundBy(w, q), w.genuine)
    {
      var ev :| FetchPool.Supplied(net, q, ev) && ev.id == id;
      var t, x :| (t, x) in q.answered && net.Good(t, x) && net.found(t, x).value == ev;
      assert ev in FoundBy(w, q);
    }
    forall x | x in q.have && x !in have
      ensures q.have[x] in FoundBy(w, q) && w.genuine(q.have[x]) && FoundFor(w, missing, q.have[x])
    {
      var t, id :| (t, id) in q.answered && net.Good(t, id) && net.found(t, id).value == q.have[x];
      assert (t, id).1 in missing && w.FoundAt(t, id, q.have[x]);
    }
    forall x | x in missing && x !in q.have
      ensures w.Unavailable(x)
    {
      assert FetchPool.Settled(net, q, x, start);
      var t :| && (t, x) in q.answered && start <= t < q.clock
               && (net.Good(t, x) ==> net.found(t, x).value.id in q.have);
      assert w.Walked(t, x, net.found(t, x));
    }
  }

  /** The pool on the missing IDs, and what it comes to in the window that it leaves behind. */
  method RunWorkers(answers: Answers, servers: seq<ServerName>, genuine: Event -> bool, missing: set<EventID>,
                    have: Cache, marked: set<EventID>, start: nat, ghost w: Window)
    returns (have': Cache, marked': set<EventID>, lookups: seq<EventID>, workers: nat, clock: nat,
             ghost found: set<Event>)
    requires missing != {} && KeyedByID(have)
    requires w == Window(answers, Some(servers), genuine, w.from, start) && w.from <= start
    ensures start <= clock && KeyedByID(have') && marked <= marked' <= marked + GenuineIDs(found, genuine)
    ensures Distinct(lookups) && ToSet(lookups) == missing
    ensures 1 <= workers <= CONCURRENT_REQUESTS && workers <= |lookups|
    ensures forall ev :: ev in found ==> answers.Finds(clock, ev)
    ensures forall x :: x in have' && x !in have ==> x in marked' && have'[x] in found && genuine(have'[x])
    ensures GrewBy(w.(to := clock), lookups, have, have')
    ensures forall x :: x in missing && x !in have' ==> w.(to := clock).Unavailable(x)
  {
    var pending := Enumerate(missing);
    var missingCount := Count(missing, pending);
    assert pending != [] by { assert ToSet<EventID>([]) == {}; }
    workers := if missingCount < CONCURRENT_REQUESTS then missingCount else CONCURRENT_REQUESTS;
    var pool := FetchPool.Fetch(Lookups(answers, servers, genuine), pending, workers, have, marked, start);
    PoolFindings(w.(to := pool.clock), pool, pending, start, have, marked);
    have', marked', lookups, clock := pool.have, pool.marked, pool.looked, pool.clock;
    found := FoundBy(w.(to := pool.clock), pool);
    assert forall x :: x in missing ==> x in pending;
  }

  ghost function GenuineIDs(events: set<Event>, genuine: Event -> bool): (r: set<EventID>) {
    set ev | ev in events && genuine(ev) :: ev.id
  }

  lemma MoreGenuine(events: set<Event>, more: set<Event>, genuine: Event -> bool)
    requires events <= more
    ensures GenuineIDs(events, genuine) <= GenuineIDs(more, genuine)
  {
  }

  lemma BothIDs(x: seq<Event>, y: seq<Event>)
    ensures EventIDs(x + y) == EventIDs(x) + EventIDs(y)
  {
  }

  lemma OneMoreEvent(state: seq<Event>, i: nat, cache: Cache)
    requires i < |state|
    ensures AuthList(state[..i + 1], cache) == AuthList(state[..i], cache) + Restrict(state[i].auths, cache)
    ensures AuthsOf(state[..i + 1]) == AuthsOf(state[..i]) + ToSet(state[i].auths)
  {
    assert state[..i + 1] == state[..i] + [state[i]] && state[..i + 1][..i] == state[..i];
  }

  /** The size of a set, by any list of it. */
  method Count(s: set<EventID>, ghost list: seq<EventID>) returns (n: nat)
    requires Distinct(list) && ToSet(list) == s
    ensures n == |list|
  {
    DistinctSize(list);
    n := |s|;
  }

  /** One incoming transaction and its cache. */
  class TxnReq {
    const world: World
    const origin: ServerName
    const genuine: Event -> bool // the signature check
    var haveEvents: Cache
    var newEvents: set<EventID>
    var servers: Option<seq<ServerName>>
    ghost var serversAt: nat // when the roomserver was asked for them

    /** The servers to ask are the origin and those that the roomserver named. */
    ghost predicate Connected()
      reads this`servers, this`serversAt, world`clock, world`returned, world`found
    {
      && world.Honest()
      && (servers.Some? ==> serversAt < world.clock && servers.value == ServersNamed(world.answers, origin, serversAt))
    }

    /** Each cached event is filed under its own ID.  Either the roomserver has returned that event, or
        a walk has found it, it is marked new and its signature is good. */
    ghost predicate Valid()
      reads this, world
    {
      && Connected() && KeyedByID(haveEvents)
      && forall id :: id in haveEvents ==> Cacheable(haveEvents[id])
    }

    ghost predicate Cacheable(ev: Event)
      reads this, world
    {
      ev in world.returned || (ev in world.found && ev.id in newEvents && genuine(ev))
    }

    ghost predicate AllCacheable(events: seq<Event>)
      reads this, world
    {
      forall e :: e in events ==> Cacheable(e)
    }

    /** Whom to ask does not change once it is known. */
    twostate predicate SameServers()
      reads this
    {
      old(servers).Some? ==> servers == old(servers) && serversAt == old(serversAt)
    }

    /** Nothing learnt is ever lost. */
    twostate predicate Grows()
      reads this, world
    {
      && old(world.clock) <= world.clock && old(world.returned) <= world.returned && old(world.found) <= world.found
      && old(world.taken) <= world.taken && old(world.inputs) <= world.inputs
      && SameServers()
      && old(newEvents) <= newEvents && Within(old(haveEvents), haveEvents)
    }

    /** What the transaction has been told since a moment. */
    ghost function Since(from: nat): Window
      reads this, world
    {
      Window(world.answers, servers, genuine, from, world.clock)
    }

    constructor (origin: ServerName, world: World, genuine: Event -> bool)
      requires world.Honest()
      ensures Valid() && this.world == world && this.origin == origin && this.genuine == genuine
      ensures haveEvents == map[] && newEvents == {} && servers == None
    {
      this.world, this.origin, this.genuine := world, origin, genuine;
      haveEvents, newEvents, servers := map[], {}, None;
    }

    /** Names only events that the roomserver itself has returned. */
    method HaveEventIDs() returns (r: set<EventID>)
      requires Valid()
      ensures r == haveEvents.Keys - newEvents
      ensures r <= world.ReturnedIDs()
    {
      r := {};
      var ids := Enumerate(haveEvents.Keys);
      for i := 0 to |ids|
        invariant r == ToSet(ids[..i]) - newEvents
      {
        assert ids[..i + 1] == ids[..i] + [ids[i]];
        if ids[i] in newEvents { continue; }
        r := r + {ids[i]};
      }
      assert ids[..|ids|] == ids;
    }

    method CacheAndReturn(ev: Event) returns (r: Event)
      requires Valid() && Cacheable(ev)
      modifies this`haveEvents
      ensures Valid() && haveEvents == Cached(old(haveEvents), ev)
      ensures r == haveEvents[ev.id]
    {
      if ev.id in haveEvents { return haveEvents[ev.id]; }
      haveEvents := haveEvents[ev.id := ev];
      r := ev;
    }

    /** The list found for the first room is kept for the whole transaction. */
    method GetServers() returns (r: seq<ServerName>)
      requires Connected()
      modifies this`servers, this`serversAt, world`clock
      ensures Connected() && servers == Some(r) && SameServers()
      ensures old(servers).Some? ==> world.clock == old(world.clock)
      ensures old(servers).None? ==>
                && world.clock == old(world.clock) + 1 && r != [] && r[0] == origin
                && var joined := world.answers.serversInRoom(old(world.clock));
                   r[1..] == if joined.Some? then joined.value else []
    {
      if servers.Some? { return servers.value; }
      r := [origin];
      var t := world.Tick();
      var joined := world.answers.serversInRoom(t);
      if joined.Some? { r := r + joined.value; }
      servers, serversAt := Some(r), t;
    }

    /** Asks one server after the other for an event and believes the first that has it. */
    method AskForEvent(id: EventID) returns (found: Option<Event>)
      requires Connected()
      modifies this`servers, this`serversAt, world`clock, world`looked, world`found
      ensures Connected() && SameServers() && old(world.clock) < world.clock <= old(world.clock) + 2
      ensures Since(old(world.clock)).Walked(world.clock - 1, id, found)
      ensures world.looked == old(world.looked) + [id]
      ensures world.found == old(world.found) + if found.Some? then {found.value} else {}
    {
      var candidates := GetServers();
      var t := world.Tick();
      world.looked := world.looked + [id];
      found := None;
      for i := 0 to |candidates|
        invariant found.None?
        invariant world.answers.FirstEvent(t, candidates, 0, id) == world.answers.FirstEvent(t, candidates, i, id)
      {
        var reply := world.answers.event(t, i, candidates[i], id);
        if reply.Parsed? {
          found := Some(reply.event);
          break;
        }
      }
      if found.Some? {
        assert world.answers.Finds(world.clock, found.value);
        world.NoteFound({found.value});
      }
    }

    /** A lookup prefers the roomserver if it is told to.  A remotely fetched event has its signature
        checked and is marked new before anyone can cache it. */
    method LookupEvent(id: EventID, localFirst: bool) returns (r: Result<Event, Error>, ghost found: Option<Event>)
      requires Valid()
      modifies this`newEvents, this`servers, this`serversAt, world`clock, world`returned, world`found, world`looked
      ensures Valid() && Grows() && old(world.clock) < world.clock <= old(world.clock) + 3
      ensures r.Ok? ==> Cacheable(r.value)
      ensures var local := world.answers.events(old(world.clock), [id]);
              if localFirst && local.Ok? && |local.value| == 1 then
                && r == Ok(local.value[0]) && r.value in world.returned
                && newEvents == old(newEvents) && world.looked == old(world.looked)
              else
                && Since(old(world.clock)).Walked(world.clock - 1, id, found)
                && (found.None? ==> r == Err(Other))
                && (found.Some? && genuine(found.value) ==> r == Ok(found.value))
                && (found.Some? && !genuine(found.value) ==> r == Err(VerifySigError))
                && newEvents == old(newEvents) + (if r.Ok? then {r.value.id} else {})
                && world.looked == old(world.looked) + [id] && (localFirst ==> world.clock > old(world.clock) + 1)
      ensures !localFirst ==> world.returned == old(world.returned)
    {
      found := None;
      if localFirst {
        var local := world.QueryEventsByID([id]);
        if local.Ok? && |local.value| == 1 {
          assert local.value[0] in local.value;
          r := Ok(local.value[0]);
          return;
        }
      }
      var answer := AskForEvent(id);
      found := answer;
      if answer.None? { r := Err(Other); return; }
      if !genuine(answer.value) { r := Err(VerifySigError); return; }
      newEvents := newEvents + {answer.value.id};
      r := Ok(answer.value);
    }

    /** The lists of /state_ids restricted, in order, to what is cached. */
    method CreateRespStateFromStateIDs(ids: StateIDs) returns (r: RespState)
      ensures r.stateEvents == Restrict(ids.stateEventIDs, haveEvents)
      ensures r.authEvents == Restrict(ids.authEventIDs, haveEvents)
    {
      var stateEvents := Pick(ids.stateEventIDs);
      var authEvents := Pick(ids.authEventIDs);
      r := RespState(stateEvents, authEvents);
    }

    method Pick(ids: seq<EventID>) returns (r: seq<Event>)
      ensures r == Restrict(ids, haveEvents)
    {
      r := [];
      for i := 0 to |ids|
        invariant r == Restrict(ids[..i], haveEvents)
      {
        assert ids[..i + 1][..i] == ids[..i];
        if ids[i] in haveEvents {
          r := r + [haveEvents[ids[i]]];
        }
      }
      assert ids[..|ids|] == ids;
    }

    /** Caches a roomserver answer, sharing what is cached already. */
    method CacheAll(events: seq<Event>) returns (r: seq<Event>)
      requires Valid() && ToSet(events) <= world.returned
      modifies this`haveEvents
      ensures Valid() && haveEvents == CachedAll(old(haveEvents), events)
      ensures Within(old(haveEvents), haveEvents) && haveEvents.Keys == old(haveEvents).Keys + EventIDs(events)
      ensures r == Restrict(IDsOf(events), haveEvents) && IDsOf(r) == IDsOf(events) && EventIDs(r) == EventIDs(events)
    {
      r := [];
      for i := 0 to |events|
        invariant Valid() && haveEvents == CachedAll(old(haveEvents), events[..i])
        invariant |r| == i && forall k :: 0 <= k < i ==> CachedAs(haveEvents, events[k].id, r[k])
      {
        assert events[i] in ToSet(events);
        assert events[..i + 1][..i] == events[..i];
        var cached := CacheAndReturn(events[i]);
        r := r + [cached];
      }
      assert events[..|events|] == events;
      CachedAllGrows(old(haveEvents), events);
      CachedInOrder(events, haveEvents, r);
    }

    /** The cached events of a list of IDs, and the IDs that are not cached. */
    method Split(ids: seq<EventID>) returns (events: seq<Event>, missing: set<EventID>)
      requires Valid()
      ensures events == Restrict(ids, haveEvents) && missing == ToSet(ids) - haveEvents.Keys
      ensures EventIDs(events) <= haveEvents.Keys
    {
      events, missing := [], {};
      for k := 0 to |ids|
        invariant events == Restrict(ids[..k], haveEvents) && missing == ToSet(ids[..k]) - haveEvents.Keys
        invariant EventIDs(events) <= haveEvents.Keys
      {
        assert ids[..k + 1] == ids[..k] + [ids[k]];
        assert ids[..k + 1][..k] == ids[..k];
        if ids[k] in haveEvents {
          IDsAppend(events, haveEvents[ids[k]]);
          events := events + [haveEvents[ids[k]]];
        } else {
          missing := missing + {ids[k]};
        }
      }
      assert ids[..|ids|] == ids;
    }

    /** The auth events of a state: those cached, and the IDs that are not. */
    method CollectAuthEvents(state: seq<Event>) returns (auths: seq<Event>, missing: set<EventID>)
      requires Valid()
      ensures auths == AuthList(state, haveEvents) && missing == AuthsOf(state) - haveEvents.Keys
      ensures EventIDs(auths) <= haveEvents.Keys
    {
      auths, missing := [], {};
      for i := 0 to |state|
        invariant auths == AuthList(state[..i], haveEvents) && EventIDs(auths) <= haveEvents.Keys
        invariant missing == AuthsOf(state[..i]) - haveEvents.Keys
      {
        var ids := state[i].auths;
        var more, unknown := Split(ids);
        OneMoreEvent(state, i, haveEvents);
        BothIDs(auths, more);
        auths, missing := auths + more, missing + unknown;
      }
      assert state[..|state|] == state;
    }

    /** The auth events of a cached state, from the cache and from the roomserver. */
    method LocalAuthEvents(state: seq<Event>) returns (r: Option<seq<Event>>)
      requires Valid()
      modifies this`haveEvents, world`clock, world`returned
      ensures Valid() && Grows()
      ensures LocalAuths(world.answers, old(world.clock), state, old(haveEvents), r, haveEvents)
      ensures r.Some? ==> EventIDs(r.value) <= haveEvents.Keys
    {
      var authEvents, missing := CollectAuthEvents(state);
      if missing == {} { return Some(authEvents); }
      var list := Enumerate(missing);
      var queried := world.QueryEventsByID(list);
      if queried.Err? { return None; }
      var more := CacheAll(queried.value);
      BothIDs(authEvents, more);
      r := Some(authEvents + more);
    }

    /** Caches a state that the roomserver answered with, and finds its auth events. */
    method CacheState(events: seq<Event>) returns (r: Option<RespState>)
      requires Valid() && ToSet(events) <= world.returned
      modifies this`haveEvents, world`clock, world`returned
      ensures Valid() && Grows()
      ensures var cache := CachedAll(old(haveEvents), events);
              && LocalAuths(world.answers, old(world.clock), Restrict(IDsOf(events), cache), cache,
                            if r.Some? then Some(r.value.authEvents) else None, haveEvents)
              && (r.Some? ==> r.value.stateEvents == Restrict(IDsOf(events), cache))
      ensures r.Some? ==> IDsOf(r.value.stateEvents) == IDsOf(events)
      ensures r.Some? ==> EventIDs(r.value.stateEvents) <= world.ReturnedIDs()
      ensures r.Some? ==> EventIDs(r.value.authEvents) <= haveEvents.Keys
    {
      var stateEvents := CacheAll(events);
      var authEvents := LocalAuthEvents(stateEvents);
      r := if authEvents.Some? then Some(RespState(stateEvents, authEvents.value)) else None;
      ReturnedByID(events, world.returned);
    }

    /** A state snapshot from our own roomserver: the state it answered with, in order and shared with
        the cache, and the auth events of it.  None if and only if it could not answer. */
    method LookupStateAfterEventLocally(id: EventID) returns (r: Option<RespState>)
      requires Valid()
      modifies this`haveEvents, world`clock, world`returned
      ensures Valid() && Grows() && old(world.clock) < world.clock
      ensures r.Some? ==> LocalState(world.answers, old(world.clock), id, old(haveEvents), haveEvents, r.value)
      ensures r.Some? ==> EventIDs(r.value.stateEvents) <= world.ReturnedIDs()
      ensures r.Some? ==> EventIDs(r.value.authEvents) <= haveEvents.Keys
      ensures r.None? ==> NotLocal(Since(old(world.clock)), old(world.clock), id, old(haveEvents), haveEvents)
    {
      var res := world.QueryStateAfterEvents(id);
      r := None;
      if res.Some? {
        r := CacheState(res.value);
        LocalOrNot(Since(old(world.clock)), old(world.clock), id, old(haveEvents), haveEvents, r);
      }
    }

    /** The wanted IDs that are not cached, as a set and in order. */
    method ListMissing(want: seq<EventID>) returns (missing: set<EventID>, list: seq<EventID>)
      ensures missing == ToSet(want) - haveEvents.Keys && list == Unseen(want, haveEvents.Keys)
    {
      missing, list := {}, [];
      for i := 0 to |want|
        invariant missing == ToSet(want[..i]) - haveEvents.Keys
        invariant list == Unseen(want[..i], haveEvents.Keys)
      {
        assert want[..i + 1] == want[..i] + [want[i]];
        assert want[..i + 1][..i] == want[..i];
        if want[i] !in haveEvents && want[i] !in missing {
          missing := missing + {want[i]};
          list := list + [want[i]];
        }
      }
      assert want[..|want|] == want;
    }

    /** Which of the wanted IDs are neither cached nor known to the roomserver, which is asked for
        all that are not cached. */
    method WorkOutMissing(want: seq<EventID>) returns (missing: set<EventID>, err: Option<Error>)
      requires Valid()
      modifies this`haveEvents, world`clock, world`returned
      ensures Valid() && Grows() && world.clock == old(world.clock) + 1
      ensures match world.answers.events(old(world.clock), Unseen(want, old(haveEvents).Keys))
              case Err(error) => err == Some(error) && haveEvents == old(haveEvents)
              case Ok(events) =>
                && err == None && haveEvents == CachedAll(old(haveEvents), events)
                && missing == ToSet(want) - haveEvents.Keys
                && haveEvents.Keys == old(haveEvents).Keys + EventIDs(events)
    {
      var missingEventList;
      missing, missingEventList := ListMissing(want);
      var res := world.QueryEventsByID(missingEventList);
      if res.Err? { return missing, Some(res.error); }
      var cached := CacheAll(res.value);
      missing := missing - EventIDs(res.value);
      err := None;
    }

    /** Lets up to eight workers loose on the IDs that are missing.  The cache grows by genuine events
        that were found for them, and an ID is still missing afterwards only if no server gave a
        genuine event for it. */
    method FetchMissing(missing: set<EventID>, ghost from: nat) returns (lookups: seq<EventID>, workers: nat)
      requires Valid() && missing != {} && from <= world.clock
      modifies this, world`clock, world`looked, world`found
      ensures Valid() && Grows()
      ensures Distinct(lookups) && ToSet(lookups) == missing
      ensures newEvents <= old(newEvents) + GenuineIDs(world.found, genuine)
      ensures world.looked == old(world.looked) + lookups
      ensures 1 <= workers <= CONCURRENT_REQUESTS && workers <= |lookups|
      ensures GrewBy(Since(from), lookups, old(haveEvents), haveEvents)
      ensures forall x :: x in missing && x !in haveEvents ==> Since(from).Unavailable(x)
    {
      var serversToAsk := GetServers();
      lookups, workers := FetchFrom(serversToAsk, missing, from);
    }

    method FetchFrom(serversToAsk: seq<ServerName>, missing: set<EventID>, ghost from: nat)
      returns (lookups: seq<EventID>, workers: nat)
      requires Valid() && missing != {} && from <= world.clock && servers == Some(serversToAsk)
      modifies this`haveEvents, this`newEvents, world`clock, world`looked, world`found
      ensures Valid() && Grows()
      ensures Distinct(lookups) && ToSet(lookups) == missing
      ensures newEvents <= old(newEvents) + GenuineIDs(world.found, genuine)
      ensures world.looked == old(world.looked) + lookups
      ensures 1 <= workers <= CONCURRENT_REQUESTS && workers <= |lookups|
      ensures GrewBy(Since(from), lookups, old(haveEvents), haveEvents)
      ensures forall x :: x in missing && x !in haveEvents ==> Since(from).Unavailable(x)
    {
      var have, marked, clock;
      ghost var found;
      have, marked, lookups, workers, clock, found :=
        RunWorkers(world.answers, serversToAsk, genuine, missing, haveEvents, newEvents, world.clock, Since(from));
      world.Absorb(clock, found);
      MoreGenuine(found, world.found, genuine);
      haveEvents, newEvents := have, marked;
      world.looked := world.looked + lookups;
    }

    /** Asks for the state before an event by IDs, and works out what to do about it. */
    method MakePlan(id: EventID)
      returns (r: Result<StateIDs, Error>, missing: set<EventID>, fallBack: bool, ghost plan: Plan)
      requires Valid()
      modifies this`haveEvents, world`clock, world`returned
      ensures Valid() && Grows() && old(world.clock) < world.clock
      ensures plan == PlanFor(world.answers, old(world.clock), id, old(haveEvents).Keys)
      ensures r.Err? ==> plan == GiveUp(r.error) && haveEvents == old(haveEvents)
      ensures r.Ok? ==>
                && world.clock == old(world.clock) + 2 && !plan.GiveUp? && plan.ids == r.value
                && (plan.FallBack? <==> fallBack) && haveEvents == CachedAll(old(haveEvents), plan.events)
                && (plan.Collect? ==> missing == ToSet(plan.missing) == ToSet(Want(r.value)) - haveEvents.Keys)
    {
      missing, fallBack := {}, false;
      plan := PlanFor(world.answers, world.clock, id, haveEvents.Keys);
      var t := world.Tick();
      r := world.answers.stateIDs(t, id);
      if r.Err? { return; }
      var wantIDs := r.value.stateEventIDs + r.value.authEventIDs;
      var left, err := WorkOutMissing(wantIDs);
      if err.Some? {
        r := Err(err.value);
        return;
      }
      missing := left;
      var missingCount := Count(missing, Unseen(wantIDs, haveEvents.Keys));
      fallBack := missingCount > CONCURRENT_REQUESTS && missingCount > |wantIDs| / 2;
    }

    /** Fetches what is missing, and makes a state of what is cached then. */
    method CollectState(ids: StateIDs, missing: set<EventID>, ghost from: nat)
      returns (r: RespState, lookups: seq<EventID>)
      requires Valid() && from <= world.clock
      modifies this, world`clock, world`looked, world`found
      ensures Valid() && Grows() && r == Restricted(ids, haveEvents)
      ensures GrewBy(Since(from), lookups, old(haveEvents), haveEvents)
      ensures Distinct(lookups) && ToSet(lookups) == missing
      ensures newEvents <= old(newEvents) + GenuineIDs(world.found, genuine)
      ensures world.looked == old(world.looked) + lookups
      ensures forall x :: x in missing && x !in haveEvents ==> Since(from).Unavailable(x)
    {
      lookups := [];
      if missing != {} {
        var workers;
        lookups, workers := FetchMissing(missing, from);
      }
      r := CreateRespStateFromStateIDs(ids);
    }

    method LookupMissingStateViaState(id: EventID) returns (r: Result<RespState, Error>)
      requires world.Honest()
      modifies world`clock
      ensures world.Honest() && world.clock == old(world.clock) + 1 && r == world.answers.state(old(world.clock), id)
    {
      var t := world.Tick();
      r := world.answers.state(t, id);
    }

    /** The state before an event.  Every ID that is still missing after asking the roomserver is
        looked up exactly once, however the workers interleave, and there are at most max(8, half
        the wanted IDs) lookups; unless too many are missing, when /state is asked instead. */
    method LookupMissingStateViaStateIDs(id: EventID, ghost from: nat)
      returns (r: Result<RespState, Error>, lookups: seq<EventID>)
      requires Valid() && from <= world.clock
      modifies this, world`clock, world`returned, world`found, world`looked
      ensures Valid() && Grows() && old(world.clock) < world.clock
      ensures StateBefore(Since(from), old(world.clock), id, old(haveEvents), haveEvents, r)
      ensures newEvents <= old(newEvents) + GenuineIDs(world.found, genuine)
      ensures world.looked == old(world.looked) + lookups
      ensures var plan := PlanFor(world.answers, old(world.clock), id, old(haveEvents).Keys);
              if plan.Collect? then LooksUpOnce(lookups, plan) else lookups == []
    {
      lookups := [];
      var ids, missing, fallBack;
      ghost var plan;
      ids, missing, fallBack, plan := MakePlan(id);
      if ids.Err? {
        r := Err(ids.error);
        return;
      }
      if fallBack {
        r := LookupMissingStateViaState(id);
        return;
      }
      var state;
      state, lookups := CollectState(ids.value, missing, from);
      r := Ok(state);
      CountLookups(lookups, plan);
      GrewByIDs(Since(from), lookups, plan.missing, CachedAll(old(haveEvents), plan.events), haveEvents);
    }

    method LookupStateBeforeEvent(id: EventID, ghost from: nat) returns (r: Result<RespState, Error>)
      requires Valid() && from <= world.clock
      modifies this, world`clock, world`returned, world`found, world`looked
      ensures Valid() && Grows()
      ensures StateBefore(Since(from), old(world.clock), id, old(haveEvents), haveEvents, r)
    {
      var lookups;
      r, lookups := LookupMissingStateViaStateIDs(id, from);
    }

    /** The state after an event.  From the roomserver it is taken as it is; otherwise it is the
        state before with the fetched event put in at its key, and unchanged when that event is not
        a state event or its signature is bad. */
    method LookupStateAfterEvent(id: EventID)
      returns (r: Result<Snapshot, Error>, ghost ev: Evidence, ghost why: NoState)
      requires Valid()
      modifies this, world`clock, world`returned, world`found, world`looked
      ensures Valid() && Grows()
      ensures r.Ok? ==> Explains(Since(old(world.clock)), haveEvents, ev, id, r.value)
      ensures r.Err? ==> Lacks(Since(old(world.clock)), id, why, r.error)
      ensures r.Ok? && r.value.trustworthy ==> EventIDs(r.value.state.stateEvents) <= world.ReturnedIDs()
      ensures r.Ok? && ev.FromRemote? ==> (OnePerKey(r.value.state.stateEvents) <==> OnePerKey(ev.before.stateEvents))
      ensures r.Ok? && ev.FromRemote? && genuine(ev.found) ==> ev.found.id in newEvents && ev.found.id in haveEvents
    {
      ghost var from, first := world.clock, haveEvents;
      why := BeforeUnknown(0, first, 0, first, first);
      var local := LookupStateAfterEventLocally(id);
      ev := FromRoomserver(from, first, haveEvents);
      if local.Some? { r := Ok(Snapshot(local.value, true)); return; }
      r, ev, why := LookupStateRemotely(id, from, first);
    }

    /** The remote half: the state before the event, and then the event itself. */
    method LookupStateRemotely(id: EventID, ghost from: nat, ghost first: Cache)
      returns (r: Result<Snapshot, Error>, ghost ev: Evidence, ghost why: NoState)
      requires Valid() && NotLocal(Since(from), from, id, first, haveEvents)
      modifies this, world`clock, world`returned, world`found, world`looked
      ensures Valid() && Grows()
      ensures r.Ok? ==> !r.value.trustworthy && Explains(Since(from), haveEvents, ev, id, r.value)
      ensures r.Err? ==> Lacks(Since(from), id, why, r.error)
      ensures r.Ok? ==> ev.FromRemote? && (OnePerKey(r.value.state.stateEvents) <==> OnePerKey(ev.before.stateEvents))
      ensures r.Ok? && genuine(ev.found) ==> ev.found.id in newEvents && ev.found.id in haveEvents
    {
      ghost var t, start, w := world.clock, haveEvents, Since(from);
      var state := LookupStateBeforeEvent(id, from);
      NotLocalLasts(w, Since(from), from, id, first, start);
      if state.Ok? {
        r, ev, why := AddToStateBefore(id, state.value, from, first, t, start);
      } else {
        why, ev := BeforeUnknown(from, first, t, start, haveEvents), FromRoomserver(0, first, haveEvents);
        r := Err(Wrapped(state.error));
        assert Lacks(Since(from), id, why, r.error);
      }
    }

    method AddToStateBefore(id: EventID, before: RespState, ghost from: nat, ghost first: Cache, ghost t: nat,
                            ghost start: Cache)
      returns (r: Result<Snapshot, Error>, ghost ev: Evidence, ghost why: NoState)
      requires Valid() && from <= world.clock && NotLocal(Since(from), from, id, first, start)
      requires StateBefore(Since(from), t, id, start, haveEvents, Ok(before))
      modifies this, world`clock, world`returned, world`found, world`looked
      ensures Valid() && Grows()
      ensures r.Ok? ==> !r.value.trustworthy && Explains(Since(from), haveEvents, ev, id, r.value)
      ensures r.Err? ==> Lacks(Since(from), id, why, r.error)
      ensures r.Ok? ==> ev.FromRemote? && (OnePerKey(r.value.state.stateEvents) <==> OnePerKey(ev.before.stateEvents))
      ensures r.Ok? && genuine(ev.found) ==> ev.found.id in newEvents && ev.found.id in haveEvents
    {
      ghost var w, cache := Since(from), haveEvents;
      ghost var at, found;
      r, at, found := AddFetchedEvent(id, before, from);
      why, ev := EventUnknown(from, first, t, start, cache, before, at), FromRoomserver(0, first, cache);
      StateBeforeLasts(w, Since(from), t, id, start, cache, Ok(before));
      NotLocalLasts(w, Since(from), from, id, first, start);
      if r.Ok? { ev := FromRemote(from, first, t, start, cache, before, at, found.value); }
    }

    /** Fetches the event and puts it into the state before it, unless its signature is bad. */
    method AddFetchedEvent(id: EventID, before: RespState, ghost from: nat)
      returns (r: Result<Snapshot, Error>, ghost at: nat, ghost found: Option<Event>)
      requires Valid() && from <= world.clock
      modifies this, world`clock, world`returned, world`found, world`looked
      ensures Valid() && Grows() && Since(from).Walked(at, id, found)
      ensures r.Err? <==> found.None?
      ensures r.Err? ==> r.error == Wrapped(Other)
      ensures r.Ok? ==> r.value == Snapshot(After(before, if genuine(found.value) then found else None), false)
      ensures r.Ok? ==> (OnePerKey(r.value.state.stateEvents) <==> OnePerKey(before.stateEvents))
      ensures r.Ok? && genuine(found.value) ==> found.value.id in newEvents && found.value.id in haveEvents
      ensures haveEvents ==
              if r.Ok? && genuine(found.value) then Cached(old(haveEvents), found.value) else old(haveEvents)
    {
      var h;
      h, found := LookupEvent(id, false);
      at := world.clock - 1;
      if h.Err? {
        r := if h.error == VerifySigError then Ok(Snapshot(before, false)) else Err(Wrapped(h.error));
        return;
      }
      var cached := CacheAndReturn(h.value);
      var stateEvents := AddToState(before.stateEvents, h.value);
      if h.value.stateKey.Some? { KeepsOnePerKey(before.stateEvents, h.value); }
      r := Ok(Snapshot(RespState(stateEvents, before.authEvents), false));
    }

    /** Resolves the collected states and checks the extremity against the result, fetching auth
        events that the check finds missing (`retries` bounds how often it does). */
    method ResolveStatesAndCheck(states: seq<Snapshot>, extremity: Event, retries: nat)
      returns (r: Result<RespState, Error>, ghost at: nat, ghost tried: seq<Event>)
      requires Valid()
      modifies this`newEvents, this`servers, this`serversAt, world`clock, world`returned, world`found, world`looked
      ensures Valid() && Grows()
      ensures r.Ok? ==> Resolves(Since(old(world.clock)), states, extremity, at, r.value)
      ensures r.Err? ==> Conflicts(Since(old(world.clock)), states, extremity, at, tried, retries, r.error)
      ensures r.Ok? ==>
                var resolved := world.answers.resolve(at, AllStates(states), AllAuths(states)).value;
                AllCacheable(r.value.stateEvents[|resolved|..])
    {
      tried := [];
      var authEventList: seq<Event>, stateEventList: seq<Event> := [], [];
      for i := 0 to |states|
        invariant authEventList == AllAuths(states[..i]) && stateEventList == AllStates(states[..i])
      {
        assert states[..i + 1][..i] == states[..i];
        authEventList := authEventList + states[i].state.authEvents;
        stateEventList := stateEventList + states[i].state.stateEvents;
      }
      assert states[..|states|] == states;
      var t := world.Tick();
      at := t;
      var resolved := world.answers.resolve(t, stateEventList, authEventList);
      if resolved.Err? { r := Err(resolved.error); return; }
      var stateEvents;
      stateEvents, tried := RepairState(resolved.value, extremity, retries, t);
      r := if stateEvents.Ok? then Ok(RespState(stateEvents.value, authEventList)) else Err(stateEvents.error);
    }

    /** Looks for an auth event that the check found missing, first in the roomserver. */
    method LookupAuthEvent(id: EventID, ghost from: nat) returns (r: Result<Event, Error>)
      requires Valid() && from <= world.clock
      modifies this`newEvents, this`servers, this`serversAt, world`clock, world`returned, world`found, world`looked
      ensures Valid() && Grows()
      ensures r.Ok? ==> LookedUp(Since(from), id, r.value) && Cacheable(r.value)
      ensures r.Err? ==> if r.error == VerifySigError then BadlySigned(Since(from), id)
                         else r.error == Other && Lost(Since(from), id)
    {
      ghost var t := world.clock;
      ghost var found;
      r, found := LookupEvent(id, true);
      ghost var w := Since(from);
      if NotHeld(w, t, id) {
        assert w.Walked(world.clock - 1, id, found);
        assert AskedOthers(w, id, found);
      } else {
        assert w.answers.events(t, [id]).value == [r.value];
        assert HeldAt(w, t, id, r.value);
      }
    }

    /** The loop that looks up what the check finds missing. */
    method RepairState(resolved: seq<Event>, extremity: Event, retries: nat, ghost from: nat)
      returns (r: Result<seq<Event>, Error>, ghost tried: seq<Event>)
      requires Valid() && from < world.clock
      modifies this`newEvents, this`servers, this`serversAt, world`clock, world`returned, world`found, world`looked
      ensures Valid() && Grows()
      ensures Repaired(Since(from), extremity, resolved, tried)
      ensures r.Ok? ==> r.value == tried && Passes(Since(from), extremity, tried)
      ensures r.Err? ==> Stuck(Since(from), extremity, resolved, tried, retries, r.error)
      ensures AllCacheable(tried[|resolved|..])
    {
      var stateEvents := resolved;
      var check := world.answers.allowed(extremity, stateEvents);
      for i := 0 to retries
        invariant Valid() && Grows() && |stateEvents| == |resolved| + i
        invariant Repaired(Since(from), extremity, resolved, stateEvents)
        invariant check == world.answers.allowed(extremity, stateEvents) && AllCacheable(stateEvents[|resolved|..])
      {
        if !check.MissingAuthEvent? { break; }
        ghost var w := Since(from);
        var h := LookupAuthEvent(check.id, from);
        RepairLasts(w, Since(from), extremity, resolved, stateEvents);
        tried := stateEvents;
        if h.Err? {
          r := if h.error == VerifySigError then Ok(stateEvents) else Err(Wrapped(h.error));
          return;
        }
        RepairedOneMore(Since(from), extremity, resolved, stateEvents, h.value);
        assert (stateEvents + [h.value])[|resolved|..] == stateEvents[|resolved|..] + [h.value];
        stateEvents := stateEvents + [h.value];
        check := world.answers.allowed(extremity, stateEvents);
      }
      tried := stateEvents;
      r := match check
        case Allowed => Ok(stateEvents)
        case MissingAuthEvent(_) => Err(Unfinished)
        case Refused(error) => Err(error);
    }

    /** The first server that answers is believed.  Success means that the ordered answer holds at
        least one of the pushed event's prev_events. */
    method GetMissingEvents(e: Event) returns (r: Result<seq<Event>, Error>, ghost gap: Gap, ghost cause: GapCause)
      requires Valid()
      modifies this`servers, this`serversAt, world`clock
      ensures Valid() && Grows()
      ensures r.Ok? ==> Answered(Since(old(world.clock)), gap, e) && gap.fetched == r.value
      ensures r.Err? ==> GapHindered(Since(old(world.clock)), haveEvents, e, cause, r.error)
      ensures r.Err? ==> Early(cause)
    {
      gap := NoGap();
      var t := world.Tick();
      cause := LatestUnknown(t);
      var latest := world.answers.latest(t);
      if latest.Err? { r := Err(latest.error); return; }
      var answer;
      ghost var at;
      answer, at := AskForMissingEvents(latest.value, e.id);
      if answer.None? {
        cause := NobodyAnswered(t, at);
        r := Err(MissingPrevEvents);
        return;
      }
      var newEvents, left := Order(answer.value, Prevs());
      var hasPrevEvent := HasPrevEvent(newEvents, e.prevs);
      if !hasPrevEvent {
        cause := AnswerUseless(t, at, answer.value);
        r := Err(MissingPrevEvents);
        return;
      }
      gap := NoGap().(latestAt := t, answerAt := at, answer := answer.value, fetched := newEvents);
      r := Ok(newEvents);
    }

    /** Asks one server after the other for what comes before an event. */
    method AskForMissingEvents(earliest: seq<EventID>, last: EventID) returns (r: Option<seq<Event>>, ghost at: nat)
      requires Connected()
      modifies this`servers, this`serversAt, world`clock
      ensures Connected() && SameServers() && servers.Some?
      ensures old(world.clock) <= at < world.clock
      ensures r == world.answers.FirstMissing(at, servers.value, 0, earliest, last)
    {
      var candidates := GetServers();
      var t := world.Tick();
      at := t;
      r := None;
      for i := 0 to |candidates|
        invariant r.None?
        invariant world.answers.FirstMissing(t, candidates, 0, earliest, last) ==
                  world.answers.FirstMissing(t, candidates, i, earliest, last)
      {
        r := world.answers.missingEvents(t, i, candidates[i], earliest, last);
        if r.Some? { break; }
      }
    }

    /** The states after all prev_events of the backwards extremity; `why` and its index tell which
        one could not be had. */
    method StatesAfter(prevs: seq<EventID>)
      returns (states: seq<Snapshot>, err: Option<Error>, ghost evidence: seq<Evidence>, ghost why: NoState)
      requires Valid()
      modifies this, world`clock, world`returned, world`found, world`looked
      ensures Valid() && Grows()
      ensures err.None? ==> StatesExplained(Since(old(world.clock)), haveEvents, prevs, states, evidence)
      ensures err.Some? ==>
                && |states| < |prevs| && Lacks(Since(old(world.clock)), prevs[|states|], why, err.value)
                && StatesExplained(Since(old(world.clock)), haveEvents, prevs[..|states|], states, evidence)
    {
      states, evidence, why, err := [], [], BeforeUnknown(0, map[], 0, map[], map[]), None;
      ghost var from := world.clock;
      while |states| < |prevs| && err.None?
        invariant Valid() && Grows() && |states| <= |prevs|
        invariant StatesExplained(Since(from), haveEvents, prevs[..|states|], states, evidence)
        invariant err.Some? ==> |states| < |prevs| && Lacks(Since(from), prevs[|states|], why, err.value)
        decreases |prevs| - |states|, err.None?
      {
        states, err, evidence, why := NextStateAfter(prevs, states, evidence, from);
      }
      assert prevs[..|prevs|] == prevs;
    }

    /** The state after the next prev_event. */
    method NextStateAfter(prevs: seq<EventID>, states: seq<Snapshot>, ghost evidence: seq<Evidence>, ghost from: nat)
      returns (states': seq<Snapshot>, err: Option<Error>, ghost evidence': seq<Evidence>, ghost why: NoState)
      requires Valid() && from <= world.clock && |states| < |prevs|
      requires StatesExplained(Since(from), haveEvents, prevs[..|states|], states, evidence)
      modifies this, world`clock, world`returned, world`found, world`looked
      ensures Valid() && Grows() && |states'| == |states| + (if err.None? then 1 else 0)
      ensures StatesExplained(Since(from), haveEvents, prevs[..|states'|], states', evidence')
      ensures err.Some? ==> Lacks(Since(from), prevs[|states'|], why, err.value)
    {
      ghost var w, have := Since(from), haveEvents;
      var r;
      ghost var ev;
      r, ev, why := LookupStateAfterEvent(prevs[|states|]);
      if r.Err? {
        StoppedThere(w, Since(w.to), Since(from), have, haveEvents, prevs, states, evidence, why, r.error);
        states', err, evidence' := states, Some(r.error), evidence;
      } else {
        OneMoreExplained(w, Since(w.to), Since(from), have, haveEvents, prevs, states, evidence, ev, r.value);
        states', err, evidence' := states + [r.value], None, evidence + [ev];
      }
    }

    /** A single trustworthy state is used as it is; anything else is resolved; no state at all is
        acceptable only at the room's creation. */
    method ResolvedState(states: seq<Snapshot>, extremity: Event)
      returns (r: Result<RespState, Error>, ghost at: nat, ghost tried: seq<Event>, ghost retries: nat)
      requires Valid()
      modifies this`newEvents, this`servers, this`serversAt, world`clock, world`returned, world`found, world`looked
      ensures Valid() && Grows()
      ensures r.Ok? ==> Baseline(Since(old(world.clock)), states, extremity, at, r.value)
      ensures states == [] ==> (r.Ok? <==> extremity.kind == "m.room.create" && extremity.stateKey == Some(""))
      ensures states == [] && r.Ok? ==> r.value == RespState([], [])
      ensures r.Err? && states == [] ==> !IsCreate(extremity) && r.error == Other
      ensures r.Err? && states != [] ==>
                && !(|states| == 1 && states[0].trustworthy)
                && Conflicts(Since(old(world.clock)), states, extremity, at, tried, retries, r.error)
    {
      at, tried, retries := 0, [], 0;
      if |states| == 0 {
        r := if IsCreate(extremity) then Ok(RespState([], [])) else Err(Other);
      } else if |states| == 1 && states[0].trustworthy {
        r := Ok(states[0].state);
      } else {
        var tries: nat := *;
        retries := tries;
        r, at, tried := ResolveStatesAndCheck(states, extremity, tries);
      }
    }

    /** Finds the missing events and the state before the oldest of them. */
    method PlanGap(e: Event)
      returns (err: Option<Error>, fetched: seq<Event>, state: RespState, ghost gap: Gap, ghost cause: GapCause)
      requires Valid()
      modifies this, world`clock, world`returned, world`found, world`looked
      ensures Valid() && Grows()
      ensures err.None? ==>
                Closes(Since(old(world.clock)), haveEvents, gap, e) && gap.fetched == fetched && gap.state == state
      ensures err.Some? ==> GapHindered(Since(old(world.clock)), haveEvents, e, cause, err.value)
      ensures err.Some? ==> Early(cause)
    {
      ghost var from := world.clock;
      fetched, state := [], RespState([], []);
      var missing;
      missing, gap, cause := GetMissingEvents(e);
      if missing.Err? { err := Some(missing.error); return; }
      fetched := missing.value;
      err, state, gap, cause := StateAtOldest(fetched, e, gap, from);
    }

    /** The state before the oldest fetched event. */
    method StateAtOldest(fetched: seq<Event>, e: Event, ghost found: Gap, ghost from: nat)
      returns (err: Option<Error>, state: RespState, ghost gap: Gap, ghost cause: GapCause)
      requires Valid() && from <= world.clock && Answered(Since(from), found, e) && found.fetched == fetched
      modifies this, world`clock, world`returned, world`found, world`looked
      ensures Valid() && Grows()
      ensures err.None? ==> Closes(Since(from), haveEvents, gap, e) && gap.fetched == fetched && gap.state == state
      ensures err.Some? ==> GapHindered(Since(from), haveEvents, e, cause, err.value)
      ensures err.Some? ==> Early(cause)
    {
      gap, state := found, RespState([], []);
      ghost var w0 := Since(from);
      var states;
      ghost var evidence, why;
      states, err, evidence, why := StatesAfter(fetched[0].prevs);
      ghost var w1, have1 := Since(from), haveEvents;
      AnswerLasts(w0, w1, gap, e);
      gap := gap.(states := states, evidence := evidence);
      if err.Some? {
        LackLasts(Since(w0.to), w1, fetched[0].prevs[|states|], why, err.value);
        StatesStayExplained(Since(w0.to), w1, have1, have1, fetched[0].prevs[..|states|], states, evidence);
        cause := StateUnknown(gap, why);
        return;
      }
      StatesStayExplained(Since(w0.to), w1, have1, have1, fetched[0].prevs, states, evidence);
      err, state, gap, cause := ResolveOldest(fetched, states, e, gap, from);
    }

    /** Resolves the states after the oldest event's prev_events. */
    method ResolveOldest(fetched: seq<Event>, states: seq<Snapshot>, e: Event, ghost found: Gap, ghost from: nat)
      returns (err: Option<Error>, state: RespState, ghost gap: Gap, ghost cause: GapCause)
      requires Valid() && from <= world.clock && Answered(Since(from), found, e)
      requires found.fetched == fetched && found.states == states
      requires StatesExplained(Since(from), haveEvents, fetched[0].prevs, states, found.evidence)
      modifies this`newEvents, this`servers, this`serversAt, world`clock, world`returned, world`found, world`looked
      ensures Valid() && Grows()
      ensures err.None? ==> Closes(Since(from), haveEvents, gap, e) && gap.fetched == fetched && gap.state == state
      ensures err.Some? ==> GapHindered(Since(from), haveEvents, e, cause, err.value)
      ensures err.Some? ==> Early(cause)
    {
      state, gap, cause := RespState([], []), found, NoBeginning(found);
      ghost var w := Since(from);
      var resolved;
      ghost var at, tried, retries;
      resolved, at, tried, retries := ResolvedState(states, fetched[0]);
      AnswerLasts(w, Since(from), gap, e);
      StatesStayExplained(w, Since(from), haveEvents, haveEvents, fetched[0].prevs, states, gap.evidence);
      gap := gap.(resolvedAt := at);
      if resolved.Err? {
        if states != [] {
          ConflictLasts(Since(w.to), Since(from), states, fetched[0], at, tried, retries, resolved.error);
          cause := InConflict(gap, tried, retries);
        }
        err := Some(resolved.error);
        return;
      }
      BaselineLasts(Since(w.to), Since(from), states, fetched[0], at, resolved.value);
      err, state := None, resolved.value;
      gap := gap.(state := state);
    }

    /** Sends the oldest event with its state, and then the rest. */
    method DeliverGap(fetched: seq<Event>, state: RespState, e: Event, ghost found: Gap, ghost from: nat)
      returns (err: Option<Error>, ghost gap: Gap, ghost cause: GapCause)
      requires Valid() && from <= world.clock && Closes(Since(from), haveEvents, found, e)
      requires found.fetched == fetched && found.state == state
      modifies world`clock, world`inputs, world`taken
      ensures Valid() && Grows()
      ensures err.None? ==> Closes(Since(from), haveEvents, gap, e) && e in world.taken
      ensures err.None? ==> world.inputs == old(world.inputs) + Delivery(gap, e)
      ensures err.None? ==> SendsAllBut(gap.outliers, gap.state, haveEvents.Keys - newEvents)
      ensures err.None? ==> Backed(gap.outliers, haveEvents.Keys - newEvents)
      ensures err.Some? ==> GapHindered(Since(from), haveEvents, e, cause, err.value)
      ensures err.Some? ==> GivenInVain(cause, e, world.inputs[|old(world.inputs)|..])
    {
      err, gap, cause := SendOldest(fetched, state, e, found, from);
      if err.Some? { return; }
      ghost var middle := world.inputs;
      err, cause := SendRest(fetched, e, gap, from);
      ghost var first := WithState(KindOld, gap.outliers, fetched[0], state);
      InTurn(old(world.inputs), first, Plain(KindOld, fetched[1..] + [e]));
      if err.Some? {
        BetweenBatches(old(world.inputs), first, Plain(KindOld, fetched[1..] + [e]), middle, world.inputs);
      }
    }

    method SendOldest(fetched: seq<Event>, state: RespState, e: Event, ghost found: Gap, ghost from: nat)
      returns (err: Option<Error>, ghost gap: Gap, ghost cause: GapCause)
      requires Valid() && from <= world.clock && Closes(Since(from), haveEvents, found, e)
      requires found.fetched == fetched && found.state == state
      modifies world`clock, world`inputs, world`taken
      ensures Valid() && Grows() && gap == found.(outliers := gap.outliers)
      ensures err.None? ==> Closes(Since(from), haveEvents, gap, e)
      ensures err.None? ==> world.inputs == old(world.inputs) + WithState(KindOld, gap.outliers, fetched[0], state)
      ensures err.None? ==> SendsAllBut(gap.outliers, gap.state, haveEvents.Keys - newEvents)
      ensures err.None? ==> Backed(gap.outliers, haveEvents.Keys - newEvents)
      ensures err.Some? ==> GapHindered(Since(from), haveEvents, e, cause, err.value)
      ensures err.Some? ==> GivenInVain(cause, e, world.inputs[|old(world.inputs)|..])
    {
      ghost var w := Since(from);
      var have := HaveEventIDs();
      ghost var outliers;
      err, outliers := world.SendEventWithState(KindOld, state, fetched[0], have);
      gap := found.(outliers := outliers);
      StillClosed(w, Since(from), haveEvents, found, e, outliers);
      cause := if world.clock == w.to then NotOrderable(gap) else OldestRefused(gap, w.to);
      if err.Some? {
        PartOfBatch(old(world.inputs), WithState(KindOld, outliers, fetched[0], state), world.inputs);
        err := Some(Wrapped(err.value));
      }
    }

    method SendRest(fetched: seq<Event>, e: Event, ghost gap: Gap, ghost from: nat)
      returns (err: Option<Error>, ghost cause: GapCause)
      requires Valid() && from <= world.clock && Closes(Since(from), haveEvents, gap, e) && gap.fetched == fetched
      modifies world`clock, world`inputs, world`taken
      ensures Valid() && Grows()
      ensures err.None? ==> Closes(Since(from), haveEvents, gap, e) && e in world.taken
      ensures err.None? ==> world.inputs == old(world.inputs) + Plain(KindOld, fetched[1..] + [e])
      ensures err.Some? ==> GapHindered(Since(from), haveEvents, e, cause, err.value)
      ensures err.Some? ==> cause.RestRefused? && cause.gap == gap
      ensures err.Some? ==> world.inputs <= old(world.inputs) + Plain(KindOld, fetched[1..] + [e])
    {
      ghost var w := Since(from);
      cause := RestRefused(gap, w.to);
      err := world.SendEvents(KindOld, fetched[1..] + [e]);
      StillClosed(w, Since(from), haveEvents, gap, e, gap.outliers);
      if err.Some? { err := Some(Wrapped(err.value)); return; }
      assert e in fetched[1..] + [e];
    }

    /** Closes the gap before a pushed event.  On success the roomserver has been given, in this
        order: the outliers it lacked, the oldest fetched event with its state, the other fetched
        events, and the pushed event.  A failure has a cause. */
    method ProcessEventWithMissingState(e: Event) returns (err: Option<Error>, ghost gap: Gap, ghost cause: GapCause)
      requires Valid()
      modifies this, world
      ensures Valid() && Grows()
      ensures err.None? ==> Closes(Since(old(world.clock)), haveEvents, gap, e) && e in world.taken
      ensures err.None? ==> world.inputs == old(world.inputs) + Delivery(gap, e)
      ensures err.None? ==> SendsAllBut(gap.outliers, gap.state, haveEvents.Keys - newEvents)
      ensures err.None? ==> Backed(gap.outliers, haveEvents.Keys - newEvents)
      ensures err.None? ==> haveEvents.Keys - newEvents <= world.ReturnedIDs()
      ensures err.Some? ==> GapHindered(Since(old(world.clock)), haveEvents, e, cause, err.value)
      ensures err.Some? ==> GivenInVain(cause, e, world.inputs[|old(world.inputs)|..])
    {
      ghost var from := world.clock;
      var fetched, state;
      err, fetched, state, gap, cause := PlanGap(e);
      if err.Some? {
        assert world.inputs[|old(world.inputs)|..] == [];
        return;
      }
      err, gap, cause := DeliverGap(fetched, state, e, gap, from);
    }

    /** Sends one outlier per missing auth event, or fails. */
    method RetrieveMissingAuthEvents(missing: seq<EventID>)
      returns (err: Option<Error>, ghost asked: seq<EventID>, ghost got: seq<Event>, ghost why: NoAuth)
      requires Valid()
      modifies this`servers, this`serversAt, world`clock, world`looked, world`inputs, world`taken
      ensures Valid() && Grows()
      ensures err.None? ==> Retrieved(Since(old(world.clock)), missing, asked, got)
      ensures err.None? ==> world.inputs == old(world.inputs) + Plain(KindOutlier, got)
      ensures err.Some? ==> NotRetrieved(Since(old(world.clock)), missing, why, err.value)
      ensures err.Some? ==> SomeRetrieved(Since(old(world.clock)), missing, asked, got)
      ensures err.Some? ==> world.inputs <= old(world.inputs) + Plain(KindOutlier, got)
      ensures err.Some? ==> |got| <= |world.inputs| - |old(world.inputs)| + 1
    {
      ghost var from := world.clock;
      asked, got, why, err := [], [], AuthUnknown(0, []), None;
      var left := ToSet(missing);
      var todo := Enumerate(left);
      var i := 0;
      while i < |todo| && err.None?
        invariant Valid() && Grows() && 0 <= i <= |todo|
        invariant err.None? ==>
                    && PartlyRetrieved(Since(from), missing, ToSet(todo[..i]), left, asked, got)
                    && world.inputs == old(world.inputs) + Plain(KindOutlier, got)
        invariant err.Some? ==>
                    StoppedRetrieving(Since(from), missing, asked, got, why, err.value, old(world.inputs), world.inputs)
        decreases |todo| - i, err.None?
      {
        left, err, asked, got, why := RetrieveNext(missing, todo, i, left, from, old(world.inputs), asked, got);
        i := i + 1;
      }
      if err.None? && left != {} {
        assert todo[..|todo|] == todo;
        why := WhoIsLost(Since(from), missing, left, asked, got);
        SomeAreRetrieved(Since(from), Since(from), missing, ToSet(todo), left, asked, got, [], None);
        err := Some(Wrapped(Other));
      } else if err.None? {
        assert todo[..|todo|] == todo;
      }
    }

    /** The next of the missing auth events. */
    method RetrieveNext(ghost missing: seq<EventID>, todo: seq<EventID>, i: nat, left: set<EventID>, ghost from: nat,
                        ghost inputs: seq<Input>, ghost asked: seq<EventID>, ghost got: seq<Event>)
      returns (left': set<EventID>, err: Option<Error>, ghost asked': seq<EventID>, ghost got': seq<Event>,
               ghost why: NoAuth)
      requires Valid() && from <= world.clock && i < |todo| && Distinct(todo) && ToSet(todo) == ToSet(missing)
      requires PartlyRetrieved(Since(from), missing, ToSet(todo[..i]), left, asked, got)
      requires world.inputs == inputs + Plain(KindOutlier, got)
      modifies this`servers, this`serversAt, world`clock, world`looked, world`inputs, world`taken
      ensures Valid() && Grows()
      ensures err.None? ==> PartlyRetrieved(Since(from), missing, ToSet(todo[..i + 1]), left', asked', got')
      ensures err.None? ==> world.inputs == inputs + Plain(KindOutlier, got')
      ensures err.Some? ==> StoppedRetrieving(Since(from), missing, asked', got', why, err.value, inputs, world.inputs)
    {
      assert todo[i] in ToSet(todo) && todo[i] !in todo[..i];
      assert ToSet(todo[..i + 1]) == ToSet(todo[..i]) + {todo[i]};
      ghost var w := Since(from);
      var ev;
      ev, err, why := RetrieveAuthEvent(todo[i], from);
      left', asked', got' := left, asked, got;
      if err.Some? {
        SomeAreRetrieved(w, Since(from), missing, ToSet(todo[..i]), left, asked, got, todo[i], ev);
      } else {
        OneMoreTried(w, Since(from), missing, ToSet(todo[..i]), left, asked, got, todo[i], ev);
      }
      if ev.Some? {
        PlainAppend(inputs, KindOutlier, got, ev.value);
        left', asked', got' := left - {todo[i]}, asked + [todo[i]], got + [ev.value];
      }
    }

    /** Asks one server after the other for an auth event, and takes the first PDU of the first answer
        that it can read, even if there is none. */
    method AskForAuthEvent(id: EventID) returns (r: EventReply)
      requires Connected()
      modifies this`servers, this`serversAt, world`clock, world`looked
      ensures Connected() && SameServers() && old(world.clock) < world.clock
      ensures Asked(Since(old(world.clock)), world.clock - 1, id, r)
      ensures world.looked == old(world.looked) + [id]
      ensures r.Failed? || r.NoPDUs? || r.Parsed?
    {
      var candidates := GetServers();
      var t := world.Tick();
      world.looked := world.looked + [id];
      r := Failed;
      for i := 0 to |candidates|
        invariant r == Failed
        invariant world.answers.FirstPDU(t, candidates, 0, id) == world.answers.FirstPDU(t, candidates, i, id)
      {
        var reply := world.answers.event(t, i, candidates[i], id);
        if reply.NoPDUs? || reply.Parsed? {
          r := reply;
          break;
        }
      }
    }

    /** Gets one auth event from the first server that has it, and sends it as an outlier. */
    method RetrieveAuthEvent(id: EventID, ghost from: nat)
      returns (ev: Option<Event>, err: Option<Error>, ghost why: NoAuth)
      requires Connected() && from <= world.clock
      modifies this`servers, this`serversAt, world`clock, world`looked, world`inputs, world`taken
      ensures Connected() && SameServers() && old(world.clock) < world.clock
      ensures old(world.taken) <= world.taken && old(world.inputs) <= world.inputs
      ensures err.None? && ev.None? ==> Nowhere(Since(from), id) && world.inputs == old(world.inputs)
      ensures ev.Some? ==> Fetched(Since(from), id, ev.value)
      ensures err.Some? && ev.None? ==> world.inputs == old(world.inputs)
      ensures ev.Some? ==> world.inputs <= old(world.inputs) + Plain(KindOutlier, [ev.value])
      ensures err.None? && ev.Some? ==> world.inputs == old(world.inputs) + Plain(KindOutlier, [ev.value])
      ensures err.Some? ==> why.id == id && NotRetrieved(Since(from), [id], why, err.value)
    {
      ev, err := None, None;
      var reply := AskForAuthEvent(id);
      ghost var at := world.clock - 1;
      assert Asked(Since(from), at, id, reply);
      why := AuthPanics(at, id);
      if reply.NoPDUs? { err := Some(Panicked); return; }
      if reply.Parsed? {
        ev := Some(reply.event);
        var serr := world.InputRoomEvents(Plain(KindOutlier, [reply.event]));
        assert Asked(Since(from), at, id, reply);
        why := AuthRefused(world.clock - 1, id, reply.event);
        if serr.Some? { err := Some(Wrapped(Wrapped(serr.value))); }
      }
    }

    /** On success the roomserver has been given the missing auth events as outliers and then the
        event, either alone or at the end of a closed gap; a failure has a cause. */
    method ProcessEvent(e: Event)
      returns (err: Option<Error>, ghost asked: seq<EventID>, ghost auths: seq<Event>, ghost gap: Option<Gap>,
               ghost cause: Cause)
      requires Valid()
      modifies this, world
      ensures Valid() && Grows()
      ensures err.None? ==> Processed(Since(old(world.clock)), haveEvents, old(world.clock), e, asked, auths, gap)
      ensures err.None? ==> world.inputs == old(world.inputs) + Plain(KindOutlier, auths) + Given(gap, e)
      ensures err.None? ==> e in world.taken
      ensures err.None? && gap.Some? ==> SendsAllBut(gap.value.outliers, gap.value.state, haveEvents.Keys - newEvents)
      ensures err.None? && gap.Some? ==> Backed(gap.value.outliers, world.ReturnedIDs())
      ensures err.Some? ==> Hindered(Since(old(world.clock)), haveEvents, e, cause, err.value)
      ensures err.Some? ==> Wasted(cause, e, world.inputs[|old(world.inputs)|..])
    {
      asked, auths, gap := [], [], None;
      var t := world.Tick();
      var res := world.answers.missing(t, e);
      if res.Err? {
        err, cause := Some(Wrapped(res.error)), QueryFailed(t);
      } else if !res.value.roomExists {
        err, cause := Some(RoomNotFound), RoomUnknown(t);
      } else {
        err, asked, auths, gap, cause := ProcessKnownEvent(e, res.value.auths, res.value.prevs, t);
      }
    }

    /** The event of a room that exists, of which the roomserver lacks these auth events and prev_events. */
    method ProcessKnownEvent(e: Event, missingAuths: seq<EventID>, missingPrevs: seq<EventID>, ghost t: nat)
      returns (err: Option<Error>, ghost asked: seq<EventID>, ghost auths: seq<Event>, ghost gap: Option<Gap>,
               ghost cause: Cause)
      requires Valid() && t < world.clock && Told(Since(t), t, e)
      requires missingAuths == world.answers.missing(t, e).value.auths
      requires missingPrevs == world.answers.missing(t, e).value.prevs
      modifies this, world
      ensures Valid() && Grows()
      ensures err.None? ==> Processed(Since(t), haveEvents, t, e, asked, auths, gap)
      ensures err.None? ==> world.inputs == old(world.inputs) + Plain(KindOutlier, auths) + Given(gap, e)
      ensures err.None? ==> e in world.taken
      ensures err.None? && gap.Some? ==> SendsAllBut(gap.value.outliers, gap.value.state, haveEvents.Keys - newEvents)
      ensures err.None? && gap.Some? ==> Backed(gap.value.outliers, world.ReturnedIDs())
      ensures err.Some? ==> Hindered(Since(t), haveEvents, e, cause, err.value)
      ensures err.Some? ==> Wasted(cause, e, world.inputs[|old(world.inputs)|..])
    {
      gap := None;
      ghost var why;
      err, asked, auths, why := ProvideAuthEvents(missingAuths, t);
      cause := NoAuths(t, asked, auths, why);
      if err.Some? {
        PartOfBatch(old(world.inputs), Plain(KindOutlier, auths), world.inputs);
      } else {
        ghost var w, middle := Since(t), world.inputs;
        err, gap, cause := SendPushedEvent(e, |missingPrevs| > 0, t, asked, auths);
        RetrievalLasts(w, Since(t), missingAuths, asked, auths);
        if err.Some? { AfterBatch(old(world.inputs), Plain(KindOutlier, auths), middle, world.inputs); }
      }
    }

    /** Retrieves the missing auth events of an event, if there are any. */
    method ProvideAuthEvents(missing: seq<EventID>, ghost from: nat)
      returns (err: Option<Error>, ghost asked: seq<EventID>, ghost auths: seq<Event>, ghost why: NoAuth)
      requires Valid() && from <= world.clock
      modifies this`servers, this`serversAt, world`clock, world`looked, world`inputs, world`taken
      ensures Valid() && Grows()
      ensures err.None? ==> Retrieved(Since(from), missing, asked, auths)
      ensures err.None? ==> world.inputs == old(world.inputs) + Plain(KindOutlier, auths)
      ensures err.Some? ==> NotRetrieved(Since(from), missing, why, err.value)
      ensures err.Some? ==> SomeRetrieved(Since(from), missing, asked, auths)
      ensures err.Some? ==> world.inputs <= old(world.inputs) + Plain(KindOutlier, auths)
      ensures err.Some? ==> |auths| <= |world.inputs| - |old(world.inputs)| + 1
    {
      ghost var t := world.clock;
      err, asked, auths, why := None, [], [], AuthUnknown(0, []);
      if |missing| > 0 {
        err, asked, auths, why := RetrieveMissingAuthEvents(missing);
        if err.Some? {
          RetrievalFailureLasts(Since(t), Since(from), missing, why, err.value);
          StillFetched(Since(t), Since(from), asked, auths);
        } else {
          RetrievalLasts(Since(t), Since(from), missing, asked, auths);
        }
      }
    }

    /** The event alone, or with the gap before it. */
    method SendPushedEvent(e: Event, missingPrevs: bool, ghost from: nat, ghost asked: seq<EventID>,
                           ghost auths: seq<Event>)
      returns (err: Option<Error>, ghost gap: Option<Gap>, ghost cause: Cause)
      requires Valid() && from <= world.clock
      modifies this, world
      ensures Valid() && Grows()
      ensures err.None? ==> (gap.Some? <==> missingPrevs)
      ensures err.None? && gap.Some? ==> Closes(Since(from), haveEvents, gap.value, e)
      ensures err.None? ==> world.inputs == old(world.inputs) + Given(gap, e) && e in world.taken
      ensures err.None? && gap.Some? ==> SendsAllBut(gap.value.outliers, gap.value.state, haveEvents.Keys - newEvents)
      ensures err.None? && gap.Some? ==> Backed(gap.value.outliers, world.ReturnedIDs())
      ensures err.Some? ==>
                HinderedAfter(Since(from), haveEvents, e, cause, err.value, from, asked, auths, missingPrevs)
      ensures err.Some? ==> WastedAfter(cause, e, world.inputs[|old(world.inputs)|..])
    {
      ghost var t := world.clock;
      gap := None;
      if missingPrevs {
        ghost var filled, why;
        err, filled, why := ProcessEventWithMissingState(e);
        cause := NoPrevs(from, asked, auths, why);
        if err.None? {
          gap := Some(filled);
          ClosedStaysClosed(Since(t), Since(from), haveEvents, haveEvents, filled, e);
          MoreKnown(filled.outliers, haveEvents.Keys - newEvents, world.ReturnedIDs());
        } else {
          GapCauseLasts(Since(t), Since(from), haveEvents, haveEvents, e, why, err.value);
        }
      } else {
        err := world.SendEvents(KindNew, [e]);
        cause := EventRefused(from, asked, auths, t);
        assert e in [e];
        if err.Some? { PartOfBatch(old(world.inputs), Plain(KindNew, [e]), world.inputs); }
      }
    }

    /** `errs` are the outcomes of the PDUs in turn, and `sent` what the roomserver was given for each.
        Each outcome is what the answers call for, and is reported under its event ID, rejected
        events like accepted ones; an accepted PDU was taken by the roomserver; and only a fatal
        error ends the transaction before its last PDU. */
    method ProcessTransaction(pdus: seq<Event>)
      returns (results: map<EventID, Option<Error>>, fatal: bool, ghost errs: seq<Option<Error>>,
               ghost sent: seq<seq<Input>>)
      requires Valid()
      modifies this, world
      ensures Valid() && Grows()
      ensures Accounted(Since(old(world.clock)), haveEvents, world.taken, old(world.inputs), world.inputs,
                        pdus, errs, sent)
      ensures Ran(pdus, errs, results, fatal) && (!fatal ==> |errs| == |pdus|)
      ensures TxDoneEnds(errs, fatal)
    {
      results, fatal, errs, sent := map[], false, [], [];
      ghost var from := world.clock;
      NothingRan(pdus);
      var i := 0;
      while i < |pdus| && !fatal
        invariant Valid() && Grows() && i == |errs| <= |pdus|
        invariant Accounted(Since(from), haveEvents, world.taken, old(world.inputs), world.inputs, pdus, errs, sent)
        invariant Ran(pdus, errs, results, fatal)
        decreases |pdus| - i
      {
        results, fatal, errs, sent := ProcessNext(pdus, i, results, from, old(world.inputs), errs, sent);
        i := i + 1;
      }
      RanToTxDone(pdus, errs, results, fatal);
    }

    /** The next PDU of a transaction that began at `from`. */
    method ProcessNext(pdus: seq<Event>, i: nat, results: map<EventID, Option<Error>>, ghost from: nat,
                       ghost inputs: seq<Input>, ghost errs: seq<Option<Error>>, ghost sent: seq<seq<Input>>)
      returns (results': map<EventID, Option<Error>>, fatal: bool, ghost errs': seq<Option<Error>>,
               ghost sent': seq<seq<Input>>)
      requires Valid() && from <= world.clock && i == |errs| < |pdus| && Ran(pdus, errs, results, false)
      requires Accounted(Since(from), haveEvents, world.taken, inputs, world.inputs, pdus, errs, sent)
      modifies this, world
      ensures Valid() && Grows() && |errs'| == i + 1
      ensures Accounted(Since(from), haveEvents, world.taken, inputs, world.inputs, pdus, errs', sent')
      ensures Ran(pdus, errs', results', fatal)
    {
      ghost var t, w, have, taken := world.clock, Since(from), haveEvents, world.taken;
      ghost var batch;
      var err;
      err, batch := ProcessPDU(pdus[i]);
      OutcomeStaysJustified(Since(t), Since(from), haveEvents, haveEvents, pdus[i], err, batch);
      OneMoreJustified(w, Since(from), have, haveEvents, taken, world.taken, pdus, errs, sent, err, batch);
      SentOneMore(inputs, sent, batch);
      errs', sent' := errs + [err], sent + [batch];
      RanOneMore(pdus, errs, results, err);
      fatal := err.Some? && IsProcessingErrorFatal(err.value);
      results' := results;
      if !fatal {
        results' := results[pdus[i].id := if err == Some(NotAllowed) then None else err];
      }
    }

    /** One PDU, with what the roomserver was given for it. */
    method ProcessPDU(e: Event) returns (err: Option<Error>, ghost batch: seq<Input>)
      requires Valid()
      modifies this, world
      ensures Valid() && Grows() && Justified(Since(old(world.clock)), haveEvents, e, err, batch)
      ensures world.inputs == old(world.inputs) + batch && (err.None? ==> e in world.taken)
    {
      ghost var asked, auths, gap, cause;
      err, asked, auths, gap, cause := ProcessEvent(e);
      batch := world.inputs[|old(world.inputs)|..];
      if err.None? {
        InTurn(old(world.inputs), Plain(KindOutlier, auths), Given(gap, e));
        assert batch == Plain(KindOutlier, auths) + Given(gap, e);
      }
    }
  }

  /** Retrieval failed, after some were retrieved and sent as outliers; the last may have been refused. */
  ghost predicate StoppedRetrieving(w: Window, missing: seq<EventID>, asked: seq<EventID>, got: seq<Event>, why: NoAuth,
                                    err: Error, inputs: seq<Input>, inputs': seq<Input>)
  {
    && NotRetrieved(w, missing, why, err) && SomeRetrieved(w, missing, asked, got)
    && inputs' <= inputs + Plain(KindOutlier, got) && |got| <= |inputs'| - |inputs| + 1
  }

  /** What goes wrong once the auth events are there. */
  ghost predicate HinderedAfter(w: Window, have: Cache, e: Event, cause: Cause, err: Error, t: nat, asked: seq<EventID>,
                                auths: seq<Event>, missingPrevs: bool)
  {
    match cause
    case NoPrevs(t', asked', auths', gap) =>
      missingPrevs && (t', asked', auths') == (t, asked, auths) && GapHindered(w, have, e, gap, err)
    case EventRefused(t', asked', auths', at) =>
      !missingPrevs && (t', asked', auths') == (t, asked, auths) && Refuses(w, at, Plain(KindNew, [e]), err)
    case _ => false
  }

  ghost predicate WastedAfter(cause: Cause, e: Event, sent: seq<Input>) {
    match cause
    case NoPrevs(_, _, _, gap) => GivenInVain(gap, e, sent)
    case EventRefused(_, _, _, _) => sent <= Plain(KindNew, [e])
    case _ => false
  }

  /** A part of a batch is all that was added. */
  lemma PartOfBatch(inputs: seq<Input>, batch: seq<Input>, inputs': seq<Input>)
    requires inputs <= inputs' <= inputs + batch
    ensures inputs'[|inputs|..] <= batch
  {
    assert inputs' == (inputs + batch)[..|inputs'|];
  }

  /** First all of one batch, and then something more. */
  lemma AfterBatch(inputs: seq<Input>, batch: seq<Input>, middle: seq<Input>, inputs': seq<Input>)
    requires middle == inputs + batch && middle <= inputs'
    ensures batch <= inputs'[|inputs|..] && inputs'[|inputs|..][|batch|..] == inputs'[|middle|..]
    ensures inputs'[|inputs|..] == batch + inputs'[|middle|..]
  {
    assert inputs'[..|middle|] == middle;
  }

  lemma BetweenBatches(inputs: seq<Input>, first: seq<Input>, second: seq<Input>, middle: seq<Input>,
                       inputs': seq<Input>)
    requires middle == inputs + first && middle <= inputs' <= middle + second
    ensures first <= inputs'[|inputs|..] <= first + second
  {
    AfterBatch(inputs, first, middle, inputs');
    PartOfBatch(middle, second, inputs');
  }

  ghost predicate IsFatal(err: Option<Error>) {
    err == Some(TxDone) || err == Some(Panicked)
  }

  /** Of the first `n` PDUs no later one has the same ID. */
  ghost predicate LastOfItsID(pdus: seq<Event>, n: nat, i: nat) {
    i < n <= |pdus| && forall j :: i < j < n ==> pdus[j].id != pdus[i].id
  }

  /** The ID of each PDU so far is reported, and no other, with the outcome of the last PDU that has
      it; a rejected event is reported like an accepted one. */
  ghost predicate Reported(pdus: seq<Event>, errs: seq<Option<Error>>, results: map<EventID, Option<Error>>)
    requires |errs| <= |pdus|
  {
    && results.Keys == EventIDs(pdus[..|errs|])
    && forall i: nat {:trigger LastOfItsID(pdus, |errs|, i)} :: LastOfItsID(pdus, |errs|, i) ==>
         && pdus[i].id in results
         && results[pdus[i].id] == if errs[i] == Some(NotAllowed) then None else errs[i]
  }

  /** Only the last outcome can be fatal, and then it ends the transaction; all others are reported. */
  ghost predicate Ran(pdus: seq<Event>, errs: seq<Option<Error>>, results: map<EventID, Option<Error>>, fatal: bool) {
    && |errs| <= |pdus|
    && (forall i :: 0 <= i < |errs| - 1 ==> !IsFatal(errs[i]))
    && (fatal <==> errs != [] && IsFatal(errs[|errs| - 1]))
    && Reported(pdus, if fatal then errs[..|errs| - 1] else errs, results)
  }

  /** The error of a closed database transaction is the last outcome there is; that of a lost database
      connection does not end anything. */
  ghost predicate TxDoneEnds(errs: seq<Option<Error>>, fatal: bool) {
    && (forall i :: 0 <= i < |errs| && errs[i] == Some(TxDone) ==> fatal && i == |errs| - 1)
    && (errs != [] && errs[|errs| - 1] == Some(ConnDone) ==> !fatal)
  }

  lemma RanToTxDone(pdus: seq<Event>, errs: seq<Option<Error>>, results: map<EventID, Option<Error>>, fatal: bool)
    requires Ran(pdus, errs, results, fatal)
    ensures TxDoneEnds(errs, fatal)
  {
  }

  lemma NothingRan(pdus: seq<Event>)
    ensures Ran(pdus, [], map[], false)
  {
    assert EventIDs(pdus[..0]) == {};
  }

  lemma RanOneMore(pdus: seq<Event>, errs: seq<Option<Error>>, results: map<EventID, Option<Error>>, err: Option<Error>)
    requires |errs| < |pdus| && Ran(pdus, errs, results, false)
    ensures var results' := results[pdus[|errs|].id := if err == Some(NotAllowed) then None else err];
            Ran(pdus, errs + [err], if IsFatal(err) then results else results', IsFatal(err))
  {
    ReportOneMore(pdus, errs, results, err);
    assert (errs + [err])[..|errs|] == errs;
  }

  lemma SentOneMore(inputs: seq<Input>, sent: seq<seq<Input>>, batch: seq<Input>)
    ensures inputs + InSequence(sent) + batch == inputs + InSequence(sent + [batch])
  {
    assert (sent + [batch])[..|sent|] == sent;
    InTurn(inputs, InSequence(sent), batch);
  }

  lemma ReportOneMore(pdus: seq<Event>, errs: seq<Option<Error>>, results: map<EventID, Option<Error>>,
                      err: Option<Error>)
    requires |errs| < |pdus| && Reported(pdus, errs, results)
    ensures var results' := results[pdus[|errs|].id := if err == Some(NotAllowed) then None else err];
            Reported(pdus, errs + [err], results')
  {
    var n, errs' := |errs|, errs + [err];
    var results' := results[pdus[n].id := if err == Some(NotAllowed) then None else err];
    assert pdus[..n + 1] == pdus[..n] + [pdus[n]];
    BothIDs(pdus[..n], [pdus[n]]);
    assert results'.Keys == results.Keys + EventIDs([pdus[n]]);
    forall i: nat | LastOfItsID(pdus, |errs'|, i)
      ensures pdus[i].id in results'
      ensures results'[pdus[i].id] == if errs'[i] == Some(NotAllowed) then None else errs'[i]
    {
      if i < n { assert LastOfItsID(pdus, n, i) && pdus[n].id != pdus[i].id; }
    }
  }

  lemma GrewByIDs(w: Window, ids: seq<EventID>, ids': seq<EventID>, start: Cache, cache: Cache)
    requires GrewBy(w, ids, start, cache) && ToSet(ids) == ToSet(ids')
    ensures GrewBy(w, ids', start, cache)
  {
    forall x | x in cache && x !in start
      ensures FoundFor(w, ids', cache[x])
    {
      var t, id :| id in ids && w.FoundAt(t, id, cache[x]) && w.genuine(cache[x]);
      assert id in ToSet(ids);
    }
  }

  lemma CountLookups(lookups: seq<EventID>, plan: Plan)
    requires plan.Collect? && Distinct(plan.missing) && !TooMany(|plan.missing|, |Want(plan.ids)|)
    requires Distinct(lookups) && ToSet(lookups) == ToSet(plan.missing)
    ensures LooksUpOnce(lookups, plan)
  {
    DistinctSize(lookups);
    DistinctSize(plan.missing);
  }

  /** The missing IDs are looked up once each, and they are not too many. */
  ghost predicate LooksUpOnce(lookups: seq<EventID>, plan: Plan)
    requires plan.Collect?
  {
    && Distinct(lookups) && ToSet(lookups) == ToSet(plan.missing)
    && |lookups| <= Max(CONCURRENT_REQUESTS, |Want(plan.ids)| / 2)
  }

  ghost function NoGap(): Gap {
    Gap(0, 0, [], [], [], [], 0, RespState([], []), [])
  }

  /** The labelled double loop over prev_events and fetched events. */
  method HasPrevEvent(events: seq<Event>, prevs: seq<EventID>) returns (found: bool)
    ensures found <==> exists p :: p in prevs && p in EventIDs(events)
    ensures found ==> events != []
  {
    for i := 0 to |prevs|
      invariant forall k :: 0 <= k < i ==> prevs[k] !in EventIDs(events)
    {
      for j := 0 to |events|
        invariant forall k :: 0 <= k < j ==> events[k].id != prevs[i]
      {
        if events[j].id == prevs[i] {
          assert prevs[i] in prevs && prevs[i] in EventIDs(events);
          return true;
        }
      }
    }
    return false;
  }
}
