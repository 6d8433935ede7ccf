/** What the recursive functions in the contracts of the federation code mean, said without them:
    by positions, by first occurrences and by element. */
module FederationLaws {
  import opened Prelude
  import opened FederationEvents
  import opened FederationWorld
  import opened StateAfterEvent
  import opened GapFilling

  // ---- walks over servers ----

  /** The server at position `k` is the first at or after `i` that has the event. */
  ghost predicate FirstToHave(a: Answers, t: nat, servers: seq<ServerName>, i: nat, k: nat, id: EventID) {
    && i <= k < |servers| && a.event(t, k, servers[k], id).Parsed?
    && forall j :: i <= j < k ==> !a.event(t, j, servers[j], id).Parsed?
  }

  /** A walk comes to what the first server that has the event gave, and to nothing if and only if
      no server has it. */
  lemma {:induction false} WalkFindsFirst(a: Answers, t: nat, servers: seq<ServerName>, i: nat, id: EventID)
    ensures a.FirstEvent(t, servers, i, id).None? <==>
            forall k :: i <= k < |servers| ==> !a.event(t, k, servers[k], id).Parsed?
    ensures forall k: nat :: FirstToHave(a, t, servers, i, k, id) ==>
              a.FirstEvent(t, servers, i, id) == Some(a.event(t, k, servers[k], id).event)
    decreases |servers| - i
  {
    if i < |servers| && !a.event(t, i, servers[i], id).Parsed? {
      WalkFindsFirst(a, t, servers, i + 1, id);
      forall k: nat | FirstToHave(a, t, servers, i, k, id)
        ensures FirstToHave(a, t, servers, i + 1, k, id)
      {
      }
    }
  }

  /** The answer ends a walk for an auth event. */
  predicate Stops(r: EventReply) {
    r.Parsed? || r.NoPDUs?
  }

  /** The same for a walk that an answer without PDUs ends as well. */
  ghost predicate FirstToAnswer(a: Answers, t: nat, servers: seq<ServerName>, i: nat, k: nat, id: EventID) {
    && i <= k < |servers| && Stops(a.event(t, k, servers[k], id))
    && forall j :: i <= j < k ==> !Stops(a.event(t, j, servers[j], id))
  }

  lemma {:induction false} WalkStopsAtFirst(a: Answers, t: nat, servers: seq<ServerName>, i: nat, id: EventID)
    ensures a.FirstPDU(t, servers, i, id) == Failed <==>
            forall k :: i <= k < |servers| ==> !Stops(a.event(t, k, servers[k], id))
    ensures forall k: nat :: FirstToAnswer(a, t, servers, i, k, id) ==>
              a.FirstPDU(t, servers, i, id) == a.event(t, k, servers[k], id)
    decreases |servers| - i
  {
    if i < |servers| && !Stops(a.event(t, i, servers[i], id)) {
      WalkStopsAtFirst(a, t, servers, i + 1, id);
      forall k: nat | FirstToAnswer(a, t, servers, i, k, id)
        ensures FirstToAnswer(a, t, servers, i + 1, k, id)
      {
      }
    }
  }

  ghost predicate FirstToTell(a: Answers, t: nat, servers: seq<ServerName>, i: nat, k: nat, earliest: seq<EventID>,
                              last: EventID)
  {
    && i <= k < |servers| && a.missingEvents(t, k, servers[k], earliest, last).Some?
    && forall j :: i <= j < k ==> a.missingEvents(t, j, servers[j], earliest, last).None?
  }

  /** And for the events before an event: the first server that answers is believed. */
  lemma {:induction false} FirstTellerIsBelieved(a: Answers, t: nat, servers: seq<ServerName>, i: nat,
                                                 earliest: seq<EventID>, last: EventID)
    ensures a.FirstMissing(t, servers, i, earliest, last).None? <==>
            forall k :: i <= k < |servers| ==> a.missingEvents(t, k, servers[k], earliest, last).None?
    ensures forall k: nat :: FirstToTell(a, t, servers, i, k, earliest, last) ==>
              a.FirstMissing(t, servers, i, earliest, last) == a.missingEvents(t, k, servers[k], earliest, last)
    decreases |servers| - i
  {
    if i < |servers| && a.missingEvents(t, i, servers[i], earliest, last).None? {
      FirstTellerIsBelieved(a, t, servers, i + 1, earliest, last);
      forall k: nat | FirstToTell(a, t, servers, i, k, earliest, last)
        ensures FirstToTell(a, t, servers, i + 1, k, earliest, last)
      {
      }
    }
  }

  // ---- lists restricted to the cache ----

  ghost predicate Rising(at: seq<nat>) {
    forall i, j :: 0 <= i < j < |at| ==> at[i] < at[j]
  }

  /** The restriction has one event for each position whose ID is cached, in order. */
  lemma {:induction false} RestrictByPosition(ids: seq<EventID>, have: Cache) returns (at: seq<nat>)
    ensures Rising(at) && |at| == |Restrict(ids, have)|
    ensures forall k :: 0 <= k < |at| ==>
              at[k] < |ids| && ids[at[k]] in have && Restrict(ids, have)[k] == have[ids[at[k]]]
    ensures forall i: nat :: i < |ids| && ids[i] in have ==> i in at
  {
    at := [];
    if ids != [] {
      var n := |ids| - 1;
      at := RestrictByPosition(ids[..n], have);
      if ids[n] in have { at := at + [n]; }
      forall i: nat | i < |ids| && ids[i] in have
        ensures i in at
      {
        if i < n { assert ids[..n][i] == ids[i]; }
      }
    }
  }

  /** The auth events of a state are those of its parts in turn, and those of one event are its list
      restricted to the cache. */
  lemma {:induction false} AuthsInTurn(x: seq<Event>, y: seq<Event>, e: Event, cache: Cache)
    ensures AuthList(x + y, cache) == AuthList(x, cache) + AuthList(y, cache)
    ensures AuthList([e], cache) == Restrict(e.auths, cache) && AuthList([], cache) == []
  {
    assert [e][..0] == [];
    if y == [] {
      assert x + y == x;
    } else {
      var y' := y[..|y| - 1];
      assert (x + y)[..|x + y| - 1] == x + y';
      AuthsInTurn(x, y', e, cache);
    }
  }

  /** Position `i` is the first at which its ID occurs, and the ID is not known. */
  ghost predicate FirstUnknown(want: seq<EventID>, known: set<EventID>, i: nat) {
    i < |want| && want[i] !in known && forall j :: 0 <= j < i ==> want[j] != want[i]
  }

  lemma UnknownInPrefix(want: seq<EventID>, known: set<EventID>, n: nat, i: nat)
    requires i < n <= |want|
    ensures FirstUnknown(want[..n], known, i) <==> FirstUnknown(want, known, i)
  {
    assert forall j :: 0 <= j <= i ==> want[..n][j] == want[j];
  }

  /** The unseen IDs are those at the first positions of unknown IDs, in order. */
  lemma {:induction false} UnseenByPosition(want: seq<EventID>, known: set<EventID>) returns (at: seq<nat>)
    ensures Rising(at) && |at| == |Unseen(want, known)|
    ensures forall k :: 0 <= k < |at| ==> FirstUnknown(want, known, at[k]) && Unseen(want, known)[k] == want[at[k]]
    ensures forall i: nat :: FirstUnknown(want, known, i) ==> i in at
  {
    at := [];
    if want != [] {
      var n := |want| - 1;
      var init := want[..n];
      at := UnseenByPosition(init, known);
      forall i: nat | i < n
        ensures FirstUnknown(init, known, i) <==> FirstUnknown(want, known, i)
      {
        UnknownInPrefix(want, known, n, i);
      }
      assert want[n] in Unseen(init, known) <==> want[n] in ToSet(init) - known;
      if FirstUnknown(want, known, n) { at := at + [n]; }
    }
  }

  /** The first event listed under an ID. */
  ghost predicate FirstWithID(events: seq<Event>, id: EventID, i: nat) {
    i < |events| && events[i].id == id && forall j :: 0 <= j < i ==> events[j].id != id
  }

  /** What was cached stays; an ID that was not cached gets the first event listed under it; nothing
      else is cached. */
  lemma {:induction false} FirstCachedStays(have: Cache, events: seq<Event>, id: EventID)
    ensures id in have ==> id in CachedAll(have, events) && CachedAll(have, events)[id] == have[id]
    ensures id !in have ==> (id in CachedAll(have, events) <==> id in EventIDs(events))
    ensures forall i: nat :: id !in have && FirstWithID(events, id, i) ==>
              id in CachedAll(have, events) && CachedAll(have, events)[id] == events[i]
  {
    if events != [] {
      var n := |events| - 1;
      var init := events[..n];
      FirstCachedStays(have, init, id);
      assert events == init + [events[n]];
      IDsAppend(init, events[n]);
      forall i: nat | id !in have && FirstWithID(events, id, i)
        ensures id in CachedAll(have, events) && CachedAll(have, events)[id] == events[i]
      {
        if i < n {
          assert FirstWithID(init, id, i);
        } else {
          assert id !in EventIDs(init);
        }
      }
    }
  }

  // ---- the plan for missing state ----

  /** The whole state is asked for exactly if more than eight events are missing and more than half of
      those wanted; otherwise exactly the missing ones are collected. */
  lemma PlanIsExact(answers: Answers, t: nat, id: EventID, known: set<EventID>, ids: StateIDs, events: seq<Event>)
    requires answers.stateIDs(t, id) == Ok(ids)
    requires answers.events(t + 1, Unseen(ids.stateEventIDs + ids.authEventIDs, known)) == Ok(events)
    ensures var want := ids.stateEventIDs + ids.authEventIDs;
            var missing := ToSet(want) - (known + EventIDs(events));
            && (PlanFor(answers, t, id, known) == FallBack(ids, events) <==> |missing| > 8 && |missing| > |want| / 2)
            && (PlanFor(answers, t, id, known).Collect? <==> |missing| <= 8 || |missing| <= |want| / 2)
            && (PlanFor(answers, t, id, known).Collect? ==> ToSet(PlanFor(answers, t, id, known).missing) == missing)
  {
    DistinctSize(Unseen(ids.stateEventIDs + ids.authEventIDs, known + EventIDs(events)));
  }

  /** Without one of the two answers the lookup fails with its error. */
  lemma PlanFails(answers: Answers, t: nat, id: EventID, known: set<EventID>)
    ensures answers.stateIDs(t, id).Err? ==> PlanFor(answers, t, id, known) == GiveUp(answers.stateIDs(t, id).error)
    ensures answers.stateIDs(t, id).Ok? ==>
              var ids := answers.stateIDs(t, id).value;
              var queried := answers.events(t + 1, Unseen(ids.stateEventIDs + ids.authEventIDs, known));
              queried.Err? ==> PlanFor(answers, t, id, known) == GiveUp(queried.error)
  {
  }

  // ---- states after events ----

  /** The state after an event, read by type and state key: the event at its own key, and everything
      else as before; only a state event makes a difference. */
  lemma AfterByKey(before: RespState, ev: Event, kind: string, key: string)
    ensures After(before, None) == before
    ensures ev.stateKey.None? ==> After(before, Some(ev)) == before
    ensures ev.stateKey.Some? ==>
              && After(before, Some(ev)).authEvents == before.authEvents
              && At(After(before, Some(ev)).stateEvents, kind, key) ==
                   if ev.kind == kind && ev.stateKey == Some(key) then Some(ev) else At(before.stateEvents, kind, key)
  {
    if ev.stateKey.Some? { UpdatesOneKey(before.stateEvents, ev, kind, key); }
  }

  /** All collected states, one after the other. */
  lemma {:induction false} StatesInTurn(x: seq<Snapshot>, y: seq<Snapshot>, s: Snapshot)
    ensures AllAuths(x + y) == AllAuths(x) + AllAuths(y) && AllStates(x + y) == AllStates(x) + AllStates(y)
    ensures AllAuths([s]) == s.state.authEvents && AllStates([s]) == s.state.stateEvents
    ensures AllAuths([]) == [] && AllStates([]) == []
  {
    assert [s][..0] == [];
    if y == [] {
      assert x + y == x;
    } else {
      var y' := y[..|y| - 1];
      assert (x + y)[..|x + y| - 1] == x + y';
      StatesInTurn(x, y', s);
    }
  }

  // ---- what the roomserver is given ----

  lemma {:induction false} BatchesInTurn(x: seq<seq<Input>>, y: seq<seq<Input>>, batch: seq<Input>)
    ensures InSequence(x + y) == InSequence(x) + InSequence(y)
    ensures InSequence([batch]) == batch && InSequence([]) == []
  {
    assert [batch][..0] == [];
    if y == [] {
      assert x + y == x;
    } else {
      var y' := y[..|y| - 1];
      assert (x + y)[..|x + y| - 1] == x + y';
      BatchesInTurn(x, y', batch);
    }
  }

  /** An event without a gap is given alone and as new. */
  lemma AloneIsNew(e: Event)
    ensures Given(None, e) == [Input(KindNew, e, false, [])]
  {
  }
}
