/** What it means to close a gap in a room's history, in terms of what was answered: the state
    before and after an event, its resolution, the delivery, and every way to fail
    (federationapi/routing/send.go). */
module GapFilling {
  import opened Prelude
  import opened FederationEvents
  import opened FederationWorld
  import opened StateAfterEvent

  /** What a transaction was told between two moments, and whom it asked. */
  datatype Window =
    Window(answers: Answers, servers: Option<seq<ServerName>>, genuine: Event -> bool, from: nat, to: nat)
  {
    ghost predicate During(t: nat) { from <= t < to }

    /** The walk over the servers at `t` gave this for the event; None when nobody had it. */
    ghost predicate Walked(t: nat, id: EventID, found: Option<Event>) {
      During(t) && servers.Some? && answers.FirstEvent(t, servers.value, 0, id) == found
    }

    ghost predicate FoundAt(t: nat, id: EventID, ev: Event) { Walked(t, id, Some(ev)) }

    /** A walk for the event failed, or gave something that may not stand for it. */
    ghost predicate Unavailable(id: EventID) {
      exists t, found :: Walked(t, id, found) && (found.None? || !genuine(found.value) || found.value.id != id)
    }
  }

  /** The second window reaches at least as far, in the same transaction. */
  ghost predicate Wider(w: Window, w': Window) {
    && w'.answers == w.answers && w'.genuine == w.genuine && w'.from <= w.from && w.to <= w'.to
    && (w.servers.Some? ==> w'.servers == w.servers)
  }

  // ---- the cache ----

  /** Caching one event after the other. */
  ghost function CachedAll(have: Cache, events: seq<Event>): Cache {
    if events == [] then have else Cached(CachedAll(have, events[..|events| - 1]), events[|events| - 1])
  }

  /** A genuine event that a walk gave when one of the IDs was looked up. */
  ghost predicate FoundFor(w: Window, ids: seq<EventID>, ev: Event) {
    exists t, id :: id in ids && w.FoundAt(t, id, ev) && w.genuine(ev)
  }

  /** The cache has grown by such events only. */
  ghost predicate GrewBy(w: Window, ids: seq<EventID>, start: Cache, cache: Cache) {
    Within(start, cache) && forall x :: x in cache && x !in start ==> FoundFor(w, ids, cache[x])
  }

  // ---- the state before an event ----

  /** A list of IDs restricted, in order, to the cached ones. */
  ghost function Restrict(ids: seq<EventID>, have: Cache): (r: seq<Event>) {
    if ids == [] then []
    else
      var last := ids[|ids| - 1];
      Restrict(ids[..|ids| - 1], have) + if last in have then [have[last]] else []
  }

  ghost function Restricted(ids: StateIDs, have: Cache): (r: RespState) {
    RespState(Restrict(ids.stateEventIDs, have), Restrict(ids.authEventIDs, have))
  }

  ghost function Want(ids: StateIDs): (r: seq<EventID>) { ids.stateEventIDs + ids.authEventIDs }

  /** The IDs that are not known, each where it first occurs. */
  ghost function Unseen(want: seq<EventID>, known: set<EventID>): (r: seq<EventID>)
    ensures ToSet(r) == ToSet(want) - known && Distinct(r) && |r| <= |want|
  {
    if want == [] then []
    else
      var init, last := want[..|want| - 1], want[|want| - 1];
      assert ToSet(want) == ToSet(init) + {last} by { assert want == init + [last]; }
      var r := Unseen(init, known);
      if last in known || last in r then r
      else
        assert ToSet(r + [last]) == ToSet(r) + {last};
        r + [last]
  }

  const CONCURRENT_REQUESTS := 8

  /** Over half of the wanted events, and more than there are workers. */
  predicate TooMany(missing: nat, wanted: nat) {
    missing > CONCURRENT_REQUESTS && missing > wanted / 2
  }

  /** `events` is the roomserver's answer for the IDs that were not cached. */
  datatype Plan =
    | GiveUp(error: Error)
    | FallBack(ids: StateIDs, events: seq<Event>)
    | Collect(ids: StateIDs, events: seq<Event>, missing: seq<EventID>)

  /** What the answers at `t` and just after call for, when the IDs in `known` are cached: to fail,
      to ask for the whole state, or to look up what is missing. */
  ghost function PlanFor(answers: Answers, t: nat, id: EventID, known: set<EventID>): Plan {
    match answers.stateIDs(t, id)
    case Err(error) => GiveUp(error)
    case Ok(ids) => PlanWith(ids, known, answers.events(t + 1, Unseen(Want(ids), known)))
  }

  ghost function PlanWith(ids: StateIDs, known: set<EventID>, answer: Result<seq<Event>, Error>): Plan {
    match answer
    case Err(error) => GiveUp(error)
    case Ok(events) =>
      var missing := Unseen(Want(ids), known + EventIDs(events));
      if TooMany(|missing|, |Want(ids)|) then FallBack(ids, events) else Collect(ids, events, missing)
  }

  /** The state before an event as the answers from `t` on have it, when `start` was cached at first
      and `cache` in the end: /state if it is asked for the whole, and otherwise the /state_ids
      lists without the IDs for which a walk over all servers gave no genuine event.  What was
      cached in between is what the roomserver answered, and what the walks gave. */
  ghost predicate StateBefore(w: Window, t: nat, id: EventID, start: Cache, cache: Cache, r: Result<RespState, Error>) {
    && w.During(t)
    && match PlanFor(w.answers, t, id, start.Keys)
       case GiveUp(error) => r == Err(error) && cache == start
       case FallBack(_, events) => r == w.answers.state(t + 2, id) && cache == CachedAll(start, events)
       case Collect(ids, events, missing) =>
         && r == Ok(Restricted(ids, cache)) && GrewBy(w, missing, CachedAll(start, events), cache)
         && ToSet(Want(ids)) - ToSet(missing) <= cache.Keys
         && forall x :: x in missing && x !in cache ==> w.Unavailable(x)
  }

  // ---- the state after an event ----

  /** `trustworthy` when it came from our own roomserver. */
  datatype Snapshot = Snapshot(state: RespState, trustworthy: bool)

  ghost function AuthsOf(events: seq<Event>): (r: set<EventID>) {
    set e, a | e in events && a in e.auths :: a
  }

  /** The cached auth events of a state, in the order in which its events name them. */
  ghost function AuthList(state: seq<Event>, cache: Cache): (r: seq<Event>) {
    if state == [] then []
    else AuthList(state[..|state| - 1], cache) + Restrict(state[|state| - 1].auths, cache)
  }

  /** The auth events of a state: those cached, and what the roomserver gives for the others; None
      when it fails.  `cache` was cached at first, and `final` in the end. */
  ghost predicate LocalAuths(answers: Answers, t: nat, state: seq<Event>, cache: Cache, r: Option<seq<Event>>,
                             final: Cache)
  {
    var missing := AuthsOf(state) - cache.Keys;
    if missing == {} then r == Some(AuthList(state, cache)) && final == cache
    else exists list ::
      ToSet(list) == missing && WithQuery(answers.events(t, list), AuthList(state, cache), cache, r, final)
  }

  ghost predicate WithQuery(answer: Result<seq<Event>, Error>, cached: seq<Event>, cache: Cache, r: Option<seq<Event>>,
                            final: Cache)
  {
    match answer
    case Err(_) => r == None && final == cache
    case Ok(events) => final == CachedAll(cache, events) && r == Some(cached + Restrict(IDsOf(events), final))
  }

  /** The roomserver's own state, shared with the cache, with the auth events of it. */
  ghost predicate LocalState(answers: Answers, t: nat, id: EventID, start: Cache, final: Cache, state: RespState) {
    && answers.stateAfter(t, id).Some?
    && var events := answers.stateAfter(t, id).value;
       var cache := CachedAll(start, events);
       && state.stateEvents == Restrict(IDsOf(events), cache) && IDsOf(state.stateEvents) == IDsOf(events)
       && LocalAuths(answers, t + 1, state.stateEvents, cache, Some(state.authEvents), final)
  }

  /** The roomserver has no state after the event, or failed to give auth events of it. */
  ghost predicate NotLocal(w: Window, t: nat, id: EventID, start: Cache, final: Cache) {
    && w.During(t)
    && match w.answers.stateAfter(t, id)
       case None => final == start
       case Some(events) =>
         var cache := CachedAll(start, events);
         LocalAuths(w.answers, t + 1, Restrict(IDsOf(events), cache), cache, None, final)
  }

  /** The state that the roomserver answered with is its own, or its auth events are missing. */
  lemma LocalOrNot(w: Window, t: nat, id: EventID, start: Cache, final: Cache, r: Option<RespState>)
    requires w.During(t) && w.answers.stateAfter(t, id).Some?
    requires var events := w.answers.stateAfter(t, id).value;
             var cache := CachedAll(start, events);
             && LocalAuths(w.answers, t + 1, Restrict(IDsOf(events), cache), cache,
                           if r.Some? then Some(r.value.authEvents) else None, final)
             && (r.Some? ==> r.value.stateEvents == Restrict(IDsOf(events), cache))
             && (r.Some? ==> IDsOf(r.value.stateEvents) == IDsOf(events))
    ensures r.Some? ==> LocalState(w.answers, t, id, start, final, r.value)
    ensures r.None? ==> NotLocal(w, t, id, start, final)
  {
  }

  /** From the state before and the event that was fetched. */
  ghost function After(before: RespState, added: Option<Event>): RespState {
    if added.Some? && added.value.stateKey.Some?
    then before.(stateEvents := WithEvent(before.stateEvents, added.value)) else before
  }

  /** How a state after an event was come by: from the roomserver, asked at `local` when `first` was
      cached; or from the state before the event, asked for at `t` when `start` was cached, and from
      the event, looked up at `at`.  In the end `cache` was cached. */
  datatype Evidence =
    | FromRoomserver(local: nat, first: Cache, cache: Cache)
    | FromRemote(local: nat, first: Cache, t: nat, start: Cache, cache: Cache, before: RespState, at: nat, found: Event)

  ghost predicate Explains(w: Window, have: Cache, ev: Evidence, id: EventID, s: Snapshot) {
    && Within(ev.cache, have)
    && match ev
       case FromRoomserver(local, first, cache) =>
         s.trustworthy && w.During(local) && LocalState(w.answers, local, id, first, cache, s.state)
       case FromRemote(local, first, t, start, cache, before, at, found) =>
         && !s.trustworthy && NotLocal(w, local, id, first, start)
         && StateBefore(w, t, id, start, cache, Ok(before))
         && w.FoundAt(at, id, found)
         && s.state == After(before, if w.genuine(found) then Some(found) else None)
  }

  /** Why there is no state after an event: the roomserver has none, and either the state before the
      event is not known, or the event is found nowhere. */
  datatype NoState =
    | BeforeUnknown(local: nat, first: Cache, t: nat, start: Cache, cache: Cache)
    | EventUnknown(local: nat, first: Cache, t: nat, start: Cache, cache: Cache, before: RespState, at: nat)

  ghost predicate Lacks(w: Window, id: EventID, why: NoState, err: Error) {
    && NotLocal(w, why.local, id, why.first, why.start) && err.Wrapped?
    && match why
       case BeforeUnknown(_, _, t, start, cache) => StateBefore(w, t, id, start, cache, Err(err.cause))
       case EventUnknown(_, _, t, start, cache, before, at) =>
         StateBefore(w, t, id, start, cache, Ok(before)) && err.cause == Other && w.Walked(at, id, None)
  }

  // ---- resolving the states after all prev_events ----

  ghost function AllAuths(states: seq<Snapshot>): (r: seq<Event>) {
    if states == [] then [] else AllAuths(states[..|states| - 1]) + states[|states| - 1].state.authEvents
  }

  ghost function AllStates(states: seq<Snapshot>): (r: seq<Event>) {
    if states == [] then [] else AllStates(states[..|states| - 1]) + states[|states| - 1].state.stateEvents
  }

  /** The roomserver was asked for the event at `t` and did not have it. */
  ghost predicate NotHeld(w: Window, t: nat, id: EventID) {
    w.During(t) && !(w.answers.events(t, [id]).Ok? && |w.answers.events(t, [id]).value| == 1)
  }

  /** A lookup that asked the roomserver first, in vain, and then the servers, who came to this. */
  ghost predicate AskedOthers(w: Window, id: EventID, found: Option<Event>) {
    exists t, u :: NotHeld(w, t, id) && t < u <= t + 2 && w.Walked(u, id, found)
  }

  ghost predicate HeldAt(w: Window, t: nat, id: EventID, ev: Event) {
    w.During(t) && w.answers.events(t, [id]) == Ok([ev])
  }

  /** The roomserver gave the event when it was looked up by its ID; or it did not have it, and a
      server gave it with a good signature. */
  ghost predicate LookedUp(w: Window, id: EventID, ev: Event) {
    (exists t :: HeldAt(w, t, id, ev)) || (AskedOthers(w, id, Some(ev)) && w.genuine(ev))
  }

  /** The event at `k` was looked up because the check found it missing in the state so far. */
  ghost predicate SuppliedAt(w: Window, extremity: Event, state: seq<Event>, k: nat)
    requires k < |state|
  {
    var check := w.answers.allowed(extremity, state[..k]);
    check.MissingAuthEvent? && LookedUp(w, check.id, state[k])
  }

  /** The state is the resolved one followed by auth events that were found missing in turn. */
  ghost predicate Repaired(w: Window, extremity: Event, resolved: seq<Event>, state: seq<Event>) {
    resolved <= state && forall k :: |resolved| <= k < |state| ==> SuppliedAt(w, extremity, state, k)
  }

  /** The roomserver lacked the event, and the copy that a server gave has a bad signature. */
  ghost predicate BadlySigned(w: Window, id: EventID) {
    exists ev :: AskedOthers(w, id, Some(ev)) && !w.genuine(ev)
  }

  /** The state allows the event, or lacks an auth event of which only a badly signed copy was found. */
  ghost predicate Passes(w: Window, extremity: Event, state: seq<Event>) {
    match w.answers.allowed(extremity, state)
    case Allowed => true
    case MissingAuthEvent(id) => BadlySigned(w, id)
    case Refused(_) => false
  }

  ghost predicate Resolves(w: Window, states: seq<Snapshot>, extremity: Event, at: nat, state: RespState) {
    && w.During(at) && w.answers.resolve(at, AllStates(states), AllAuths(states)).Ok?
    && Repaired(w, extremity, w.answers.resolve(at, AllStates(states), AllAuths(states)).value, state.stateEvents)
    && Passes(w, extremity, state.stateEvents)
    && state.authEvents == AllAuths(states)
  }

  /** The roomserver lacked the event, and so did every server. */
  ghost predicate Lost(w: Window, id: EventID) {
    AskedOthers(w, id, None)
  }

  /** Why repairing the resolved state stopped at `tried`: it refuses the event, or an auth event
      that it lacks was not found; or it did not stop within `retries` rounds. */
  ghost predicate Stuck(w: Window, extremity: Event, resolved: seq<Event>, tried: seq<Event>, retries: nat, err: Error)
  {
    match w.answers.allowed(extremity, tried)
    case Allowed => false
    case Refused(error) => err == error
    case MissingAuthEvent(id) =>
      || (err == Wrapped(Other) && Lost(w, id))
      || (err == Unfinished && |tried| == |resolved| + retries)
  }

  /** Why the states could not be resolved: the library failed, or the repair did. */
  ghost predicate Conflicts(w: Window, states: seq<Snapshot>, extremity: Event, at: nat, tried: seq<Event>,
                            retries: nat, err: Error)
  {
    && w.During(at)
    && match w.answers.resolve(at, AllStates(states), AllAuths(states))
       case Err(error) => err == error
       case Ok(resolved) =>
         Repaired(w, extremity, resolved, tried) && Stuck(w, extremity, resolved, tried, retries, err)
  }

  predicate IsCreate(e: Event) {
    e.kind == "m.room.create" && e.stateKey == Some("")
  }

  /** Where the state that is sent with the oldest fetched event comes from. */
  ghost predicate Baseline(w: Window, states: seq<Snapshot>, extremity: Event, at: nat, state: RespState) {
    if |states| == 0 then IsCreate(extremity) && state == RespState([], [])
    else if |states| == 1 && states[0].trustworthy then state == states[0].state
    else Resolves(w, states, extremity, at, state)
  }

  // ---- closing the gap ----

  /** How a gap was closed: who was asked when and what the first answer was, that answer in order,
      the states after the oldest event's prev_events and how they were come by, the state made
      from them and when they were resolved, and the outliers sent for it. */
  datatype Gap = Gap(
    latestAt: nat,
    answerAt: nat,
    answer: seq<Event>,
    fetched: seq<Event>,
    states: seq<Snapshot>,
    evidence: seq<Evidence>,
    resolvedAt: nat,
    state: RespState,
    outliers: seq<Event>)

  /** A non-empty list, each event once and after the listed events it names as prev, with one of
      the pushed event's prev_events in it. */
  ghost predicate FillsGap(fetched: seq<Event>, e: Event) {
    && fetched != [] && UniqueIDs(fetched) && RefsFirst(fetched, Prevs())
    && exists p :: p in e.prevs && p in EventIDs(fetched)
  }

  /** The list holds only events of the answer, and all of them unless their references are cyclic. */
  ghost predicate OrdersAnswer(fetched: seq<Event>, answer: seq<Event>) {
    && (forall e :: e in fetched ==> e in answer)
    && (Acyclic(answer, Prevs()) ==> EventIDs(fetched) == EventIDs(answer))
  }

  /** The first answer to the question for what lies between the newest known events, asked for at
      `latestAt`, and the pushed event. */
  ghost predicate FirstAnswer(w: Window, latestAt: nat, answerAt: nat, e: Event, answer: Option<seq<Event>>) {
    && w.During(latestAt) && w.During(answerAt) && w.servers.Some? && w.answers.latest(latestAt).Ok?
    && w.answers.FirstMissing(answerAt, w.servers.value, 0, w.answers.latest(latestAt).value, e.id) == answer
  }

  ghost predicate Answered(w: Window, gap: Gap, e: Event) {
    && FirstAnswer(w, gap.latestAt, gap.answerAt, e, Some(gap.answer))
    && FillsGap(gap.fetched, e) && OrdersAnswer(gap.fetched, gap.answer)
  }

  /** Each state is the one after the prev_event at its place. */
  ghost predicate StatesExplained(w: Window, have: Cache, prevs: seq<EventID>, states: seq<Snapshot>,
                                  evidence: seq<Evidence>)
  {
    && |states| == |evidence| == |prevs|
    && forall i :: 0 <= i < |prevs| ==> Explains(w, have, evidence[i], prevs[i], states[i])
  }

  ghost predicate Closes(w: Window, have: Cache, gap: Gap, e: Event) {
    && Answered(w, gap, e)
    && StatesExplained(w, have, gap.fetched[0].prevs, gap.states, gap.evidence)
    && Baseline(w, gap.states, gap.fetched[0], gap.resolvedAt, gap.state)
  }

  /** What the roomserver receives when a gap is closed. */
  ghost function Delivery(gap: Gap, e: Event): (r: seq<Input>)
    requires gap.fetched != []
  {
    WithState(KindOld, gap.outliers, gap.fetched[0], gap.state) + Plain(KindOld, gap.fetched[1..] + [e])
  }

  ghost function Given(gap: Option<Gap>, e: Event): (r: seq<Input>)
    requires gap.Some? ==> gap.value.fetched != []
  {
    if gap.None? then Plain(KindNew, [e]) else Delivery(gap.value, e)
  }

  /** In a delivery the oldest fetched event comes first after the outliers and is the only one with
      state, the other fetched events follow once each and after every fetched event they name as
      prev, and the pushed event is last. */
  lemma GapFilledInOrder(gap: Gap, e: Event)
    requires FillsGap(gap.fetched, e)
    ensures var d, n, m := Delivery(gap, e), |gap.outliers|, |gap.fetched|;
            && |d| == n + m + 1
            && (forall i :: 0 <= i < n ==> d[i] == Input(KindOutlier, gap.outliers[i], false, []))
            && (forall i :: n <= i < n + m ==>
                  d[i].kind == KindOld && d[i].event == gap.fetched[i - n] && (d[i].hasState <==> i == n))
            && d[n].stateEventIDs == IDsOf(gap.state.stateEvents)
            && d[n + m] == Input(KindOld, e, false, [])
    ensures var d, n, m := Delivery(gap, e), |gap.outliers|, |gap.fetched|;
            forall i, p :: n <= i < n + m && p in gap.fetched[i - n].prevs && p in EventIDs(gap.fetched) ==>
              GivenBefore(d, n, i, p)
  {
    var d, n, m := Delivery(gap, e), |gap.outliers|, |gap.fetched|;
    forall i, p | n <= i < n + m && p in gap.fetched[i - n].prevs && p in EventIDs(gap.fetched)
      ensures GivenBefore(d, n, i, p)
    {
      var j := EarlierPrev(gap.fetched, i - n, p);
      assert d[n + j].event == gap.fetched[j];
    }
  }

  /** The event `p` is among the inputs at positions n..i. */
  ghost predicate GivenBefore(d: seq<Input>, n: nat, i: nat, p: EventID)
    requires i <= |d|
  {
    exists j :: n <= j < i && d[j].event.id == p
  }

  lemma EarlierPrev(fetched: seq<Event>, i: nat, p: EventID) returns (j: nat)
    requires RefsFirst(fetched, Prevs()) && i < |fetched| && p in fetched[i].prevs && p in EventIDs(fetched)
    ensures j < i && fetched[j].id == p
  {
    var f :| f in fetched && f.id == p;
    j :| 0 <= j < |fetched| && fetched[j] == f;
  }

  // ---- missing auth events ----

  /** What a walk for a missing auth event came to. */
  ghost predicate Asked(w: Window, t: nat, id: EventID, reply: EventReply) {
    w.During(t) && w.servers.Some? && w.answers.FirstPDU(t, w.servers.value, 0, id) == reply
  }

  ghost predicate Fetched(w: Window, id: EventID, ev: Event) {
    exists t :: Asked(w, t, id, Parsed(ev))
  }

  /** The events are what the servers gave for the missing IDs, each ID once. */
  ghost predicate Retrieved(w: Window, missing: seq<EventID>, asked: seq<EventID>, got: seq<Event>) {
    && Distinct(asked) && ToSet(asked) == ToSet(missing) && |got| == |asked|
    && forall i :: 0 <= i < |got| ==> Fetched(w, asked[i], got[i])
  }

  /** Some of them. */
  ghost predicate SomeRetrieved(w: Window, missing: seq<EventID>, asked: seq<EventID>, got: seq<Event>) {
    && Distinct(asked) && ToSet(asked) <= ToSet(missing) && |got| == |asked|
    && forall i :: 0 <= i < |got| ==> Fetched(w, asked[i], got[i])
  }

  /** Nobody had the auth event. */
  ghost predicate Nowhere(w: Window, id: EventID) {
    exists t :: Asked(w, t, id, Failed)
  }

  /** Of the missing IDs those in `tried` were looked for; `left` are all that are not had. */
  ghost predicate PartlyRetrieved(w: Window, missing: seq<EventID>, tried: set<EventID>, left: set<EventID>,
                                  asked: seq<EventID>, got: seq<Event>)
  {
    && Distinct(asked) && ToSet(asked) + left == ToSet(missing) && ToSet(asked) <= tried && |got| == |asked|
    && (forall i :: 0 <= i < |got| ==> Fetched(w, asked[i], got[i]))
    && forall id :: id in left * tried ==> Nowhere(w, id)
  }

  /** The roomserver refused these inputs with this error. */
  ghost predicate Refuses(w: Window, at: nat, batch: seq<Input>, err: Error) {
    w.During(at) && w.answers.accepts(at, batch) == Some(err)
  }

  /** Why missing auth events were not retrieved: nobody has one, or a server answered without PDUs,
      of which the code takes the first; or the roomserver refused one. */
  datatype NoAuth =
    | AuthUnknown(at: nat, id: EventID)
    | AuthPanics(at: nat, id: EventID)
    | AuthRefused(at: nat, id: EventID, ev: Event)

  ghost predicate NotRetrieved(w: Window, missing: seq<EventID>, why: NoAuth, err: Error) {
    && why.id in missing
    && match why
       case AuthUnknown(at, id) => Asked(w, at, id, Failed) && err == Wrapped(Other)
       case AuthPanics(at, id) => Asked(w, at, id, NoPDUs) && err == Panicked
       case AuthRefused(at, id, ev) =>
         && Fetched(w, id, ev) && err.Wrapped? && err.cause.Wrapped?
         && Refuses(w, at, Plain(KindOutlier, [ev]), err.cause.cause)
  }

  // ---- the outcome of a pushed event ----

  /** What the roomserver lacked for the event at `t` was had: its missing auth events, and the gap
      before it if a prev_event was missing. */
  ghost predicate Processed(w: Window, have: Cache, t: nat, e: Event, asked: seq<EventID>, auths: seq<Event>,
                            gap: Option<Gap>)
  {
    && Told(w, t, e) && Retrieved(w, w.answers.missing(t, e).value.auths, asked, auths)
    && (gap.Some? <==> w.answers.missing(t, e).value.prevs != [])
    && (gap.Some? ==> Closes(w, have, gap.value, e))
  }

  /** Every way to fail in closing the gap before an event, and in processing the event. */
  datatype GapCause =
    | LatestUnknown(t: nat)
    | NobodyAnswered(t: nat, at: nat)
    | AnswerUseless(t: nat, at: nat, answer: seq<Event>)
    | StateUnknown(gap: Gap, why: NoState)
    | NoBeginning(gap: Gap)
    | InConflict(gap: Gap, tried: seq<Event>, retries: nat)
    | NotOrderable(gap: Gap)
    | OldestRefused(gap: Gap, at: nat)
    | RestRefused(gap: Gap, at: nat)

  /** `asked` and `auths` are the missing auth events that were had by then. */
  datatype Cause =
    | QueryFailed(t: nat)
    | RoomUnknown(t: nat)
    | NoAuths(t: nat, asked: seq<EventID>, auths: seq<Event>, why: NoAuth)
    | NoPrevs(t: nat, asked: seq<EventID>, auths: seq<Event>, gap: GapCause)
    | EventRefused(t: nat, asked: seq<EventID>, auths: seq<Event>, at: nat)

  /** The gap was given up before anything was sent. */
  predicate Early(cause: GapCause) {
    !cause.OldestRefused? && !cause.RestRefused?
  }

  ghost predicate GapHindered(w: Window, have: Cache, e: Event, cause: GapCause, err: Error) {
    match cause
    case LatestUnknown(t) => w.During(t) && w.answers.latest(t) == Err(err)
    case NobodyAnswered(t, at) => FirstAnswer(w, t, at, e, None) && err == MissingPrevEvents
    case AnswerUseless(t, at, answer) =>
      && FirstAnswer(w, t, at, e, Some(answer)) && err == MissingPrevEvents
      && (Acyclic(answer, Prevs()) ==> forall p :: p in e.prevs ==> p !in EventIDs(answer))
    case StateUnknown(gap, why) =>
      && Answered(w, gap, e) && |gap.states| < |gap.fetched[0].prevs|
      && StatesExplained(w, have, gap.fetched[0].prevs[..|gap.states|], gap.states, gap.evidence)
      && Lacks(w, gap.fetched[0].prevs[|gap.states|], why, err)
    case NoBeginning(gap) =>
      Answered(w, gap, e) && gap.fetched[0].prevs == [] && !IsCreate(gap.fetched[0]) && err == Other
    case InConflict(gap, tried, retries) =>
      && Answered(w, gap, e) && StatesExplained(w, have, gap.fetched[0].prevs, gap.states, gap.evidence)
      && !(|gap.states| == 1 && gap.states[0].trustworthy)
      && Conflicts(w, gap.states, gap.fetched[0], gap.resolvedAt, tried, retries, err)
    case NotOrderable(gap) => Closes(w, have, gap, e) && !Orderable(gap.state) && err == Wrapped(Other)
    case OldestRefused(gap, at) =>
      && Closes(w, have, gap, e) && err.Wrapped?
      && Refuses(w, at, WithState(KindOld, gap.outliers, gap.fetched[0], gap.state), err.cause)
    case RestRefused(gap, at) =>
      && Closes(w, have, gap, e) && err.Wrapped?
      && Refuses(w, at, Plain(KindOld, gap.fetched[1..] + [e]), err.cause)
  }

  /** The roomserver knows the room and said at `t` what it lacks for the event. */
  ghost predicate Told(w: Window, t: nat, e: Event) {
    w.During(t) && w.answers.missing(t, e).Ok? && w.answers.missing(t, e).value.roomExists
  }

  ghost predicate Hindered(w: Window, have: Cache, e: Event, cause: Cause, err: Error) {
    match cause
    case QueryFailed(t) => w.During(t) && err.Wrapped? && w.answers.missing(t, e) == Err(err.cause)
    case RoomUnknown(t) =>
      && w.During(t) && w.answers.missing(t, e).Ok? && !w.answers.missing(t, e).value.roomExists
      && err == RoomNotFound
    case NoAuths(t, asked, auths, why) =>
      && Told(w, t, e) && SomeRetrieved(w, w.answers.missing(t, e).value.auths, asked, auths)
      && NotRetrieved(w, w.answers.missing(t, e).value.auths, why, err)
    case NoPrevs(t, asked, auths, gap) =>
      && Told(w, t, e) && Retrieved(w, w.answers.missing(t, e).value.auths, asked, auths)
      && w.answers.missing(t, e).value.prevs != [] && GapHindered(w, have, e, gap, err)
    case EventRefused(t, asked, auths, at) =>
      && Told(w, t, e) && Retrieved(w, w.answers.missing(t, e).value.auths, asked, auths)
      && w.answers.missing(t, e).value.prevs == [] && Refuses(w, at, Plain(KindNew, [e]), err)
  }

  /** What the roomserver was given for a gap that was not closed: nothing, unless it refused a batch,
      of which it may then have taken a part. */
  ghost predicate GivenInVain(cause: GapCause, e: Event, sent: seq<Input>) {
    match cause
    case OldestRefused(gap, _) =>
      gap.fetched != [] && sent <= WithState(KindOld, gap.outliers, gap.fetched[0], gap.state)
    case RestRefused(gap, _) =>
      gap.fetched != [] && WithState(KindOld, gap.outliers, gap.fetched[0], gap.state) <= sent <= Delivery(gap, e)
    case _ => sent == []
  }

  /** And for an event that was not processed: the auth events that were had, as outliers, of which
      the last may have been refused; and what was given for the gap or of the event itself. */
  ghost predicate Wasted(cause: Cause, e: Event, sent: seq<Input>) {
    match cause
    case QueryFailed(_) => sent == []
    case RoomUnknown(_) => sent == []
    case NoAuths(_, _, auths, _) => sent <= Plain(KindOutlier, auths) && |auths| <= |sent| + 1
    case NoPrevs(_, _, auths, gap) => Plain(KindOutlier, auths) <= sent && GivenInVain(gap, e, sent[|auths|..])
    case EventRefused(_, _, auths, _) =>
      Plain(KindOutlier, auths) <= sent <= Plain(KindOutlier, auths) + Plain(KindNew, [e])
  }

  /** The outcome of a pushed event is what the answers call for, and so is what the roomserver was
      given for it. */
  ghost predicate Justified(w: Window, have: Cache, e: Event, err: Option<Error>, sent: seq<Input>) {
    match err
    case None =>
      exists t, asked, auths, gap ::
        Processed(w, have, t, e, asked, auths, gap) && sent == Plain(KindOutlier, auths) + Given(gap, e)
    case Some(error) => exists cause :: Hindered(w, have, e, cause, error) && Wasted(cause, e, sent)
  }

  /** The outcomes so far are what the answers call for, and the roomserver took what was accepted. */
  ghost predicate AllJustified(w: Window, have: Cache, taken: set<Event>, pdus: seq<Event>, errs: seq<Option<Error>>,
                               sent: seq<seq<Input>>)
  {
    && |errs| == |sent| <= |pdus|
    && forall i :: 0 <= i < |errs| ==>
         Justified(w, have, pdus[i], errs[i], sent[i]) && (errs[i].None? ==> pdus[i] in taken)
  }

  /** The batches one after the other. */
  ghost function InSequence(sent: seq<seq<Input>>): (r: seq<Input>) {
    if sent == [] then [] else InSequence(sent[..|sent| - 1]) + sent[|sent| - 1]
  }

  /** And the inputs are what was sent for each PDU, in turn. */
  ghost predicate Accounted(w: Window, have: Cache, taken: set<Event>, inputs: seq<Input>, inputs': seq<Input>,
                            pdus: seq<Event>, errs: seq<Option<Error>>, sent: seq<seq<Input>>)
  {
    AllJustified(w, have, taken, pdus, errs, sent) && inputs' == inputs + InSequence(sent)
  }

  // ---- what was explained stays explained ----

  lemma StateBeforeLasts(w: Window, w': Window, t: nat, id: EventID, start: Cache, cache: Cache,
                         r: Result<RespState, Error>)
    requires StateBefore(w, t, id, start, cache, r) && Wider(w, w')
    ensures StateBefore(w', t, id, start, cache, r)
  {
    forall x | w.Unavailable(x)
      ensures w'.Unavailable(x)
    {
      var t', found :| w.Walked(t', x, found) && (found.None? || !w.genuine(found.value) || found.value.id != x);
      assert w'.Walked(t', x, found);
    }
    forall ids, ev | FoundFor(w, ids, ev)
      ensures FoundFor(w', ids, ev)
    {
      var t', x :| x in ids && w.FoundAt(t', x, ev) && w.genuine(ev);
      assert w'.FoundAt(t', x, ev);
    }
  }

  lemma NotLocalLasts(w: Window, w': Window, t: nat, id: EventID, start: Cache, final: Cache)
    requires NotLocal(w, t, id, start, final) && Wider(w, w')
    ensures NotLocal(w', t, id, start, final)
  {
  }

  lemma LackLasts(w: Window, w': Window, id: EventID, why: NoState, err: Error)
    requires Lacks(w, id, why, err) && Wider(w, w')
    ensures Lacks(w', id, why, err)
  {
    var before := if why.BeforeUnknown? then Err(err.cause) else Ok(why.before);
    StateBeforeLasts(w, w', why.t, id, why.start, why.cache, before);
  }

  lemma ExplanationLasts(w: Window, w': Window, have: Cache, have': Cache, ev: Evidence, id: EventID, s: Snapshot)
    requires Explains(w, have, ev, id, s) && Wider(w, w') && Within(have, have')
    ensures Explains(w', have', ev, id, s)
  {
    if ev.FromRemote? {
      StateBeforeLasts(w, w', ev.t, id, ev.start, ev.cache, Ok(ev.before));
    }
  }

  lemma StatesStayExplained(w: Window, w': Window, have: Cache, have': Cache, prevs: seq<EventID>,
                            states: seq<Snapshot>, evidence: seq<Evidence>)
    requires StatesExplained(w, have, prevs, states, evidence) && Wider(w, w') && Within(have, have')
    ensures StatesExplained(w', have', prevs, states, evidence)
  {
    forall i | 0 <= i < |prevs|
      ensures Explains(w', have', evidence[i], prevs[i], states[i])
    {
      ExplanationLasts(w, w', have, have', evidence[i], prevs[i], states[i]);
    }
  }

  lemma OneMoreExplained(w: Window, w1: Window, w': Window, have: Cache, have': Cache, prevs: seq<EventID>,
                         states: seq<Snapshot>, evidence: seq<Evidence>, ev: Evidence, s: Snapshot)
    requires |states| < |prevs| && StatesExplained(w, have, prevs[..|states|], states, evidence)
    requires Explains(w1, have', ev, prevs[|states|], s) && Wider(w, w') && Wider(w1, w') && Within(have, have')
    ensures StatesExplained(w', have', prevs[..|states| + 1], states + [s], evidence + [ev])
  {
    StatesStayExplained(w, w', have, have', prevs[..|states|], states, evidence);
    ExplanationLasts(w1, w', have', have', ev, prevs[|states|], s);
  }

  lemma StoppedThere(w: Window, w1: Window, w': Window, have: Cache, have': Cache, prevs: seq<EventID>,
                     states: seq<Snapshot>, evidence: seq<Evidence>, why: NoState, err: Error)
    requires |states| < |prevs| && StatesExplained(w, have, prevs[..|states|], states, evidence)
    requires Lacks(w1, prevs[|states|], why, err) && Wider(w, w') && Wider(w1, w') && Within(have, have')
    ensures StatesExplained(w', have', prevs[..|states|], states, evidence) && Lacks(w', prevs[|states|], why, err)
  {
    StatesStayExplained(w, w', have, have', prevs[..|states|], states, evidence);
    LackLasts(w1, w', prevs[|states|], why, err);
  }

  lemma AskingLasts(w: Window, w': Window, id: EventID, found: Option<Event>)
    requires AskedOthers(w, id, found) && Wider(w, w')
    ensures AskedOthers(w', id, found)
  {
    var t, u :| NotHeld(w, t, id) && t < u <= t + 2 && w.Walked(u, id, found);
    assert NotHeld(w', t, id) && w'.Walked(u, id, found);
  }

  lemma LookupLasts(w: Window, w': Window, id: EventID, ev: Event)
    requires LookedUp(w, id, ev) && Wider(w, w')
    ensures LookedUp(w', id, ev)
  {
    if exists t :: HeldAt(w, t, id, ev) {
      var t :| HeldAt(w, t, id, ev);
      assert HeldAt(w', t, id, ev);
    } else {
      AskingLasts(w, w', id, Some(ev));
    }
  }

  lemma RepairLasts(w: Window, w': Window, extremity: Event, resolved: seq<Event>, state: seq<Event>)
    requires Repaired(w, extremity, resolved, state) && Wider(w, w')
    ensures Repaired(w', extremity, resolved, state)
  {
    forall k | |resolved| <= k < |state|
      ensures SuppliedAt(w', extremity, state, k)
    {
      assert SuppliedAt(w, extremity, state, k);
      LookupLasts(w, w', w.answers.allowed(extremity, state[..k]).id, state[k]);
    }
  }

  lemma PassLasts(w: Window, w': Window, extremity: Event, state: seq<Event>)
    requires Passes(w, extremity, state) && Wider(w, w')
    ensures Passes(w', extremity, state)
  {
    var check := w.answers.allowed(extremity, state);
    if check.MissingAuthEvent? {
      var ev :| AskedOthers(w, check.id, Some(ev)) && !w.genuine(ev);
      AskingLasts(w, w', check.id, Some(ev));
    }
  }

  lemma BaselineLasts(w: Window, w': Window, states: seq<Snapshot>, extremity: Event, at: nat, state: RespState)
    requires Baseline(w, states, extremity, at, state) && Wider(w, w')
    ensures Baseline(w', states, extremity, at, state)
  {
    if !(|states| == 0 || (|states| == 1 && states[0].trustworthy)) {
      var resolved := w.answers.resolve(at, AllStates(states), AllAuths(states)).value;
      RepairLasts(w, w', extremity, resolved, state.stateEvents);
      PassLasts(w, w', extremity, state.stateEvents);
    }
  }

  lemma ConflictLasts(w: Window, w': Window, states: seq<Snapshot>, extremity: Event, at: nat, tried: seq<Event>,
                      retries: nat, err: Error)
    requires Conflicts(w, states, extremity, at, tried, retries, err) && Wider(w, w')
    ensures Conflicts(w', states, extremity, at, tried, retries, err)
  {
    var resolved := w.answers.resolve(at, AllStates(states), AllAuths(states));
    if resolved.Ok? {
      RepairLasts(w, w', extremity, resolved.value, tried);
      var check := w.answers.allowed(extremity, tried);
      if check.MissingAuthEvent? && Lost(w, check.id) { AskingLasts(w, w', check.id, None); }
    }
  }

  lemma ClosedStaysClosed(w: Window, w': Window, have: Cache, have': Cache, gap: Gap, e: Event)
    requires Closes(w, have, gap, e) && Wider(w, w') && Within(have, have')
    ensures Closes(w', have', gap, e)
  {
    StatesStayExplained(w, w', have, have', gap.fetched[0].prevs, gap.states, gap.evidence);
    BaselineLasts(w, w', gap.states, gap.fetched[0], gap.resolvedAt, gap.state);
  }

  lemma StillClosed(w: Window, w': Window, have: Cache, gap: Gap, e: Event, outliers: seq<Event>)
    requires Closes(w, have, gap, e) && Wider(w, w')
    ensures Closes(w', have, gap.(outliers := outliers), e)
  {
    ClosedStaysClosed(w, w', have, have, gap, e);
  }

  lemma AnswerLasts(w: Window, w': Window, gap: Gap, e: Event)
    requires Answered(w, gap, e) && Wider(w, w')
    ensures Answered(w', gap, e)
  {
  }

  lemma FetchLasts(w: Window, w': Window, id: EventID, ev: Event)
    requires Fetched(w, id, ev) && Wider(w, w')
    ensures Fetched(w', id, ev)
  {
    var t :| Asked(w, t, id, Parsed(ev));
    assert Asked(w', t, id, Parsed(ev));
  }

  lemma StillFetched(w: Window, w': Window, asked: seq<EventID>, got: seq<Event>)
    requires |asked| == |got| && (forall i :: 0 <= i < |got| ==> Fetched(w, asked[i], got[i])) && Wider(w, w')
    ensures forall i :: 0 <= i < |got| ==> Fetched(w', asked[i], got[i])
  {
    forall i | 0 <= i < |got|
      ensures Fetched(w', asked[i], got[i])
    {
      FetchLasts(w, w', asked[i], got[i]);
    }
  }

  lemma StillNowhere(w: Window, w': Window, ids: set<EventID>)
    requires (forall id :: id in ids ==> Nowhere(w, id)) && Wider(w, w')
    ensures forall id :: id in ids ==> Nowhere(w', id)
  {
    forall id | id in ids
      ensures Nowhere(w', id)
    {
      var t :| Asked(w, t, id, Failed);
      assert Asked(w', t, id, Failed);
    }
  }

  lemma OneMoreTried(w: Window, w': Window, missing: seq<EventID>, tried: set<EventID>, left: set<EventID>,
                     asked: seq<EventID>, got: seq<Event>, id: EventID, ev: Option<Event>)
    requires PartlyRetrieved(w, missing, tried, left, asked, got) && Wider(w, w')
    requires id !in tried && id in ToSet(missing)
    requires if ev.Some? then Fetched(w', id, ev.value) else Nowhere(w', id)
    ensures if ev.Some? then PartlyRetrieved(w', missing, tried + {id}, left - {id}, asked + [id], got + [ev.value])
            else PartlyRetrieved(w', missing, tried + {id}, left, asked, got)
  {
    StillFetched(w, w', asked, got);
    StillNowhere(w, w', left * tried);
    assert ToSet(asked + [id]) == ToSet(asked) + {id};
  }

  /** Those retrieved before, and the last one if it was found. */
  lemma SomeAreRetrieved(w: Window, w': Window, missing: seq<EventID>, tried: set<EventID>, left: set<EventID>,
                         asked: seq<EventID>, got: seq<Event>, id: EventID, ev: Option<Event>)
    requires PartlyRetrieved(w, missing, tried, left, asked, got) && Wider(w, w')
    requires ev.Some? ==> id !in tried && id in ToSet(missing) && Fetched(w', id, ev.value)
    ensures if ev.Some? then SomeRetrieved(w', missing, asked + [id], got + [ev.value])
            else SomeRetrieved(w', missing, asked, got)
  {
    StillFetched(w, w', asked, got);
    assert ToSet(asked + [id]) == ToSet(asked) + {id};
  }

  lemma RetrievalLasts(w: Window, w': Window, missing: seq<EventID>, asked: seq<EventID>, got: seq<Event>)
    requires Retrieved(w, missing, asked, got) && Wider(w, w')
    ensures Retrieved(w', missing, asked, got)
  {
    StillFetched(w, w', asked, got);
  }

  /** If all were tried, those left were lost. */
  lemma WhoIsLost(w: Window, missing: seq<EventID>, left: set<EventID>, asked: seq<EventID>, got: seq<Event>)
    returns (why: NoAuth)
    requires PartlyRetrieved(w, missing, ToSet(missing), left, asked, got) && left != {}
    ensures NotRetrieved(w, missing, why, Wrapped(Other))
  {
    var x :| x in left;
    assert x in left * ToSet(missing);
    var at :| Asked(w, at, x, Failed);
    why := AuthUnknown(at, x);
  }

  lemma RetrievalFailureLasts(w: Window, w': Window, missing: seq<EventID>, why: NoAuth, err: Error)
    requires NotRetrieved(w, missing, why, err) && Wider(w, w')
    ensures NotRetrieved(w', missing, why, err)
  {
    if why.AuthRefused? { FetchLasts(w, w', why.id, why.ev); }
  }

  lemma GapCauseLasts(w: Window, w': Window, have: Cache, have': Cache, e: Event, cause: GapCause, err: Error)
    requires GapHindered(w, have, e, cause, err) && Wider(w, w') && Within(have, have')
    ensures GapHindered(w', have', e, cause, err)
  {
    match cause
    case StateUnknown(gap, why) =>
      var n := |gap.states|;
      StatesStayExplained(w, w', have, have', gap.fetched[0].prevs[..n], gap.states, gap.evidence);
      LackLasts(w, w', gap.fetched[0].prevs[n], why, err);
    case InConflict(gap, tried, retries) =>
      StatesStayExplained(w, w', have, have', gap.fetched[0].prevs, gap.states, gap.evidence);
      ConflictLasts(w, w', gap.states, gap.fetched[0], gap.resolvedAt, tried, retries, err);
    case NotOrderable(gap) => ClosedStaysClosed(w, w', have, have', gap, e);
    case OldestRefused(gap, _) => ClosedStaysClosed(w, w', have, have', gap, e);
    case RestRefused(gap, _) => ClosedStaysClosed(w, w', have, have', gap, e);
    case _ =>
  }

  lemma CauseLasts(w: Window, w': Window, have: Cache, have': Cache, e: Event, cause: Cause, err: Error)
    requires Hindered(w, have, e, cause, err) && Wider(w, w') && Within(have, have')
    ensures Hindered(w', have', e, cause, err)
  {
    match cause
    case QueryFailed(_) =>
    case RoomUnknown(_) =>
    case NoAuths(t, asked, auths, why) =>
      RetrievalFailureLasts(w, w', w.answers.missing(t, e).value.auths, why, err);
      StillFetched(w, w', asked, auths);
    case EventRefused(_, asked, auths, _) => StillFetched(w, w', asked, auths);
    case NoPrevs(_, asked, auths, gap) =>
      StillFetched(w, w', asked, auths);
      GapCauseLasts(w, w', have, have', e, gap, err);
  }

  lemma OutcomeStaysJustified(w: Window, w': Window, have: Cache, have': Cache, e: Event, err: Option<Error>,
                              sent: seq<Input>)
    requires Justified(w, have, e, err, sent) && Wider(w, w') && Within(have, have')
    ensures Justified(w', have', e, err, sent)
  {
    if err.Some? {
      var cause :| Hindered(w, have, e, cause, err.value) && Wasted(cause, e, sent);
      CauseLasts(w, w', have, have', e, cause, err.value);
    } else {
      var t, asked, auths, gap :|
        Processed(w, have, t, e, asked, auths, gap) && sent == Plain(KindOutlier, auths) + Given(gap, e);
      RetrievalLasts(w, w', w.answers.missing(t, e).value.auths, asked, auths);
      if gap.Some? { ClosedStaysClosed(w, w', have, have', gap.value, e); }
      assert Processed(w', have', t, e, asked, auths, gap);
    }
  }

  lemma OneMoreJustified(w: Window, w': Window, have: Cache, have': Cache, taken: set<Event>, taken': set<Event>,
                         pdus: seq<Event>, errs: seq<Option<Error>>, sent: seq<seq<Input>>,
                         err: Option<Error>, batch: seq<Input>)
    requires AllJustified(w, have, taken, pdus, errs, sent) && |errs| < |pdus|
    requires Wider(w, w') && Within(have, have') && taken <= taken'
    requires Justified(w', have', pdus[|errs|], err, batch) && (err.None? ==> pdus[|errs|] in taken')
    ensures AllJustified(w', have', taken', pdus, errs + [err], sent + [batch])
  {
    forall k | 0 <= k < |errs|
      ensures Justified(w', have', pdus[k], errs[k], sent[k])
    {
      OutcomeStaysJustified(w, w', have, have', pdus[k], errs[k], sent[k]);
    }
  }

  // ---- the oldest event and its state ----

  /** The state that is sent with the oldest fetched event allows it, with three exceptions: an auth
      event that is missing is not in the roomserver and was found only badly signed; the
      roomserver's own state is used unchecked; and so is the empty state at the room's creation.
      This reads off the cases of Closes; that every gap the code closes satisfies Closes is what
      FederationTxn.TxnReq.ProcessEventWithMissingState ensures. */
  lemma OldestIsAllowed(w: Window, have: Cache, gap: Gap, e: Event)
    requires Closes(w, have, gap, e)
    ensures var check := w.answers.allowed(gap.fetched[0], gap.state.stateEvents);
            || check == Allowed
            || (|gap.states| == 0 && IsCreate(gap.fetched[0]) && gap.state == RespState([], []))
            || (|gap.states| == 1 && gap.states[0].trustworthy && gap.state == gap.states[0].state)
            || (check.MissingAuthEvent? && BadlySigned(w, check.id))
  {
  }
}
