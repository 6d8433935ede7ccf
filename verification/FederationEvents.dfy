/** Events and their orderings, as the federation code sees them. */
module FederationEvents {
  import opened Prelude

  datatype Event = Event(id: EventID, kind: string, stateKey: Option<string>, prevs: seq<EventID>, auths: seq<EventID>)

  datatype RespState = RespState(stateEvents: seq<Event>, authEvents: seq<Event>)

  /** The haveEvents map of a transaction. */
  type Cache = map<EventID, Event>

  function EventIDs(s: seq<Event>): (r: set<EventID>) {
    set e | e in s :: e.id
  }

  lemma IDsAppend(s: seq<Event>, e: Event)
    ensures EventIDs(s + [e]) == EventIDs(s) + {e.id}
  {
  }

  ghost predicate UniqueIDs(s: seq<Event>) {
    forall i, j :: 0 <= i < j < |s| ==> s[i].id != s[j].id
  }

  ghost predicate KeyedByID(have: Cache) {
    forall id :: id in have ==> have[id].id == id
  }

  /** Everything in the first cache is in the second. */
  ghost predicate Within(have: Cache, more: Cache) {
    forall id :: id in have ==> id in more && more[id] == have[id]
  }

  /** cacheAndReturn: the first event seen under an ID stays. */
  function Cached(have: Cache, ev: Event): Cache {
    if ev.id in have then have else have[ev.id := ev]
  }

  type Refs = Event -> seq<EventID>

  function Prevs(): Refs { (e: Event) => e.prevs }

  function Auths(): Refs { (e: Event) => e.auths }

  /** No event names itself or an event at a later position. */
  ghost predicate RefsFirst(s: seq<Event>, refs: Refs) {
    forall i, j :: 0 <= i <= j < |s| ==> s[j].id !in refs(s[i])
  }

  function Ready(left: Cache, refs: Refs): set<EventID> {
    set id | id in left && forall ref :: ref in refs(left[id]) ==> ref !in left
  }

  /** Every non-empty group of the events has a member that refers to nobody in the group. */
  ghost predicate Acyclic(events: seq<Event>, refs: Refs) {
    forall group: set<EventID> {:trigger HasRoot(events, refs, group)} ::
      group != {} && group <= EventIDs(events) ==> HasRoot(events, refs, group)
  }

  ghost predicate HasRoot(events: seq<Event>, refs: Refs, group: set<EventID>) {
    exists id {:trigger IsRoot(events, refs, group, id)} :: id in group && IsRoot(events, refs, group, id)
  }

  ghost predicate IsRoot(events: seq<Event>, refs: Refs, group: set<EventID>, id: EventID) {
    forall e, ref :: e in events && e.id == id && ref in refs(e) ==> ref !in group
  }

  /** The events in `left` can still be appended to `out` without breaking the order. */
  ghost predicate Ordering(out: seq<Event>, left: Cache, refs: Refs, events: seq<Event>) {
    && KeyedByID(left) && (forall id :: id in left ==> left[id] in events)
    && EventIDs(out) !! left.Keys && EventIDs(out) + left.Keys == EventIDs(events)
    && UniqueIDs(out) && RefsFirst(out, refs)
    && (forall i, id :: 0 <= i < |out| && id in left ==> id !in refs(out[i]))
    && (forall e :: e in out ==> e in events)
  }

  lemma TakeReady(out: seq<Event>, left: Cache, refs: Refs, events: seq<Event>, id: EventID)
    requires Ordering(out, left, refs, events) && id in Ready(left, refs)
    ensures Ordering(out + [left[id]], left - {id}, refs, events)
  {
    var e := left[id];
    assert EventIDs(out + [e]) == EventIDs(out) + {id};
    assert forall k :: 0 <= k < |out| ==> out[k].id in EventIDs(out);
  }

  /** Stands for the library's topological sorts: every event once, after the listed events it
      refers to.  Only events that cyclic references hold back can be left over. */
  method Order(events: seq<Event>, refs: Refs) returns (out: seq<Event>, left: Cache)
    ensures UniqueIDs(out) && RefsFirst(out, refs)
    ensures EventIDs(out) !! left.Keys && EventIDs(out) + left.Keys == EventIDs(events)
    ensures forall e :: e in out ==> e in events
    ensures Acyclic(events, refs) ==> left == map[]
  {
    left := ByID(events);
    out := [];
    while Ready(left, refs) != {}
      invariant Ordering(out, left, refs, events)
      decreases left.Keys
    {
      var id :| id in Ready(left, refs);
      TakeReady(out, left, refs, events, id);
      out, left := out + [left[id]], left - {id};
    }
    RootIsReady(left, refs, events);
  }

  lemma RootIsReady(left: Cache, refs: Refs, events: seq<Event>)
    requires KeyedByID(left) && left.Keys <= EventIDs(events) && forall id :: id in left ==> left[id] in events
    ensures left != map[] && Acyclic(events, refs) ==> Ready(left, refs) != {}
  {
    if left != map[] && Acyclic(events, refs) {
      assert HasRoot(events, refs, left.Keys);
      var id :| id in left.Keys && IsRoot(events, refs, left.Keys, id);
      assert left[id] in events && id in Ready(left, refs);
    }
  }

  method ByID(events: seq<Event>) returns (m: Cache)
    ensures KeyedByID(m) && m.Keys == EventIDs(events)
    ensures forall id :: id in m ==> m[id] in events
  {
    m := map[];
    for i := 0 to |events|
      invariant KeyedByID(m) && m.Keys == EventIDs(events[..i])
      invariant forall id :: id in m ==> m[id] in events
    {
      assert events[..i + 1] == events[..i] + [events[i]];
      m := m[events[i].id := events[i]];
    }
    assert events[..|events|] == events;
  }

  predicate NamesWithin(e: Event, ids: set<EventID>) {
    forall a :: a in e.auths ==> a in ids
  }

  predicate AuthsWithin(events: seq<Event>, ids: set<EventID>) {
    forall e :: e in events ==> NamesWithin(e, ids)
  }

  /** Stands for RespState.Events: state and auth events together, each once and after all of its
      auth events; None when an auth event is missing or the references form a cycle. */
  method InAuthOrder(state: RespState) returns (r: Option<seq<Event>>)
    ensures r.Some? ==> UniqueIDs(r.value) && RefsFirst(r.value, Auths())
    ensures r.Some? ==> EventIDs(r.value) == EventIDs(state.stateEvents) + EventIDs(state.authEvents)
    ensures r.Some? ==> AuthsWithin(r.value, EventIDs(r.value))
    ensures r.Some? ==> forall e :: e in r.value ==> e in state.authEvents + state.stateEvents
    ensures var all := state.authEvents + state.stateEvents;
            Acyclic(all, Auths()) && AuthsWithin(all, EventIDs(all)) ==> r.Some?
  {
    var all := state.authEvents + state.stateEvents;
    var ids := EventIDs(all);
    assert ids == EventIDs(state.stateEvents) + EventIDs(state.authEvents);
    if !AuthsWithin(all, ids) { return None; }
    var out, left := Order(all, Auths());
    if left != map[] { return None; }
    r := Some(out);
  }
}
