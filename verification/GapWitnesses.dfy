/** Concrete answers under which the state sent with the oldest fetched event does not allow it, one
    per exception that GapFilling.OldestIsAllowed names, and answers under which the search for
    missing auth events goes on for ever (federationapi/routing/send.go). */
module GapWitnesses {
  import opened Prelude
  import opened FederationEvents
  import opened FederationWorld
  import opened GapFilling
  import opened FederationTxn

  const PUSHED := Event("$pushed", "m.room.message", None, ["$oldest"], [])
  const FORGED := Event("$auth", "m.room.power_levels", Some(""), [], [])

  function Message(prevs: seq<EventID>): Event { Event("$oldest", "m.room.message", None, prevs, []) }

  function Create(): Event { Event("$oldest", "m.room.create", Some(""), [], []) }

  /** The roomserver answers queries for events with `held` and knows the empty state after every
      event, the missing events are `oldest`, every server answers with FORGED, and the check always
      comes to the same. */
  function Scene(oldest: Event, held: seq<Event>, check: AuthCheck): Answers {
    Answers((_, _) => Ok(held), (_, _) => Some([]), (_, _) => Ok(Missing(true, [], ["$oldest"])), _ => Ok([]),
            _ => None, (_, _, _, _) => Parsed(FORGED), (_, _) => Err(Other), (_, _) => Err(Other),
            (_, _, _, _, _) => Some([oldest]), (_, _, _) => Ok([]), (_, _) => check, (_, _) => None)
  }

  const EMPTY := RespState([], [])

  // ---- gaps that are closed although the check does not allow the oldest event ----

  /** What is told in a scene where nobody's signature is good. */
  function InScene(oldest: Event, held: seq<Event>, check: AuthCheck): Window {
    Window(Scene(oldest, held, check), Some(["remote"]), _ => false, 0, 10)
  }

  function GapIn(oldest: Event): Gap {
    var n := |oldest.prevs|;
    Gap(0, 1, [oldest], [oldest], seq(n, _ => Snapshot(EMPTY, true)), seq(n, _ => FromRoomserver(2, map[], map[])),
        3, EMPTY, [])
  }

  /** All but the last step: the gap is answered, and the states after its prev_events are known. */
  lemma SceneIsAnswered(oldest: Event, held: seq<Event>, check: AuthCheck)
    requires oldest.id == "$oldest" && "$oldest" !in oldest.prevs
    ensures var w, gap := InScene(oldest, held, check), GapIn(oldest);
            Answered(w, gap, PUSHED) && StatesExplained(w, map[], oldest.prevs, gap.states, gap.evidence)
  {
    var w, gap := InScene(oldest, held, check), GapIn(oldest);
    assert gap.fetched[0].id in EventIDs(gap.fetched) && "$oldest" in PUSHED.prevs;
    assert w.answers.FirstMissing(1, ["remote"], 0, [], PUSHED.id) == Some([oldest]);
    assert AuthsOf([]) == {};
    forall i | 0 <= i < |oldest.prevs|
      ensures Explains(w, map[], gap.evidence[i], oldest.prevs[i], gap.states[i])
    {
      assert LocalState(w.answers, 2, oldest.prevs[i], map[], map[], EMPTY);
    }
  }

  /** The roomserver's own state is not checked. */
  lemma OwnStateMayRefuse()
    ensures var oldest := Message(["$prev"]);
            var w, gap := InScene(oldest, [], Refused(NotAllowed)), GapIn(oldest);
            Closes(w, map[], gap, PUSHED) && w.answers.allowed(oldest, gap.state.stateEvents) == Refused(NotAllowed)
  {
    SceneIsAnswered(Message(["$prev"]), [], Refused(NotAllowed));
  }

  /** A create event is not checked against the empty state. */
  lemma CreationMayBeRefused()
    ensures var w, gap := InScene(Create(), [], Refused(NotAllowed)), GapIn(Create());
            Closes(w, map[], gap, PUSHED) && w.answers.allowed(Create(), gap.state.stateEvents) == Refused(NotAllowed)
  {
    SceneIsAnswered(Create(), [], Refused(NotAllowed));
  }

  /** A badly signed copy of an auth event that the roomserver lacks lets the state pass without it. */
  lemma BadSignaturePasses()
    ensures var oldest := Message(["$one", "$two"]);
            var w, gap := InScene(oldest, [], MissingAuthEvent("$auth")), GapIn(oldest);
            && Closes(w, map[], gap, PUSHED)
            && w.answers.allowed(oldest, gap.state.stateEvents) == MissingAuthEvent("$auth")
  {
    var oldest := Message(["$one", "$two"]);
    var w, gap := InScene(oldest, [], MissingAuthEvent("$auth")), GapIn(oldest);
    SceneIsAnswered(oldest, [], MissingAuthEvent("$auth"));
    assert w.answers.FirstEvent(5, ["remote"], 0, "$auth") == Some(FORGED);
    assert NotHeld(w, 4, "$auth") && w.Walked(5, "$auth", Some(FORGED));
  }

  // ---- the code in these scenes ----

  /** Whoever is asked first gives FORGED, and nobody's signature is good. */
  lemma EverybodyForges(w: Window, oldest: Event, held: seq<Event>, check: AuthCheck, found: Option<Event>)
    requires w.answers == Scene(oldest, held, check) && !w.genuine(FORGED)
    requires w.servers.Some? ==> w.servers.value != []
    ensures AskedOthers(w, "$auth", found) ==> found == Some(FORGED) && |held| != 1
  {
    if AskedOthers(w, "$auth", found) {
      var t, u :| NotHeld(w, t, "$auth") && t < u <= t + 2 && w.Walked(u, "$auth", found);
      assert w.answers.event(u, 0, w.servers.value[0], "$auth") == Parsed(FORGED);
    }
  }

  /** Two states that have to be resolved. */
  const STATES := [Snapshot(EMPTY, true), Snapshot(EMPTY, true)]

  lemma {:induction false} NothingToResolve(states: seq<Snapshot>)
    requires forall s :: s in states ==> s.state == EMPTY
    ensures AllAuths(states) == [] && AllStates(states) == []
  {
    if states != [] {
      assert states[|states| - 1] in states;
      NothingToResolve(states[..|states| - 1]);
    }
  }

  /** The state is returned although it lacks the auth event that the check asks for. */
  method BadSignatureIsSent(retries: nat) returns (r: Result<RespState, Error>)
    requires retries >= 1
    ensures r == Ok(EMPTY)
  {
    var oldest := Message(["$one", "$two"]);
    var world := new World(Scene(oldest, [], MissingAuthEvent("$auth")));
    var txn := new TxnReq("remote", world, _ => false);
    ghost var at, tried;
    r, at, tried := txn.ResolveStatesAndCheck(STATES, oldest, retries);
    NothingToResolve(STATES);
    ghost var w := txn.Since(0);
    ghost var state := if r.Ok? then r.value.stateEvents else tried;
    if state != [] {
      assert SuppliedAt(w, oldest, state, 0);
      EverybodyForges(w, oldest, [], MissingAuthEvent("$auth"), Some(state[0]));
    }
    EverybodyForges(w, oldest, [], MissingAuthEvent("$auth"), None);
  }

  /** If the check reports the same auth event missing whatever is added, and the roomserver has an
      event for it, the loop is unfinished after any number of rounds. */
  method RepairNeedNotEnd(retries: nat) returns (r: Result<RespState, Error>)
    ensures r == Err(Unfinished)
  {
    var oldest := Message(["$one", "$two"]);
    var world := new World(Scene(oldest, [FORGED], MissingAuthEvent("$auth")));
    var txn := new TxnReq("remote", world, _ => false);
    ghost var at, tried;
    r, at, tried := txn.ResolveStatesAndCheck(STATES, oldest, retries);
    NothingToResolve(STATES);
    ghost var w := txn.Since(0);
    EverybodyForges(w, oldest, [FORGED], MissingAuthEvent("$auth"), None);
    forall ev
      ensures !AskedOthers(w, "$auth", Some(ev))
    {
      EverybodyForges(w, oldest, [FORGED], MissingAuthEvent("$auth"), Some(ev));
    }
  }

  // ---- a whole run ----

  /** The scene of OwnStateMayRefuse, from the roomserver's side and the servers'. */
  ghost predicate Refusing(w: Window) {
    w.answers == Scene(Message(["$prev"]), [], Refused(NotAllowed)) && (w.servers.Some? ==> w.servers.value != [])
  }

  /** In it the state after every event is known locally, and is empty. */
  lemma AlwaysLocal(w: Window, t: nat, id: EventID, start: Cache, final: Cache)
    requires Refusing(w)
    ensures !NotLocal(w, t, id, start, final)
    ensures forall state :: LocalState(w.answers, t, id, start, final, state) ==> state == EMPTY
  {
    assert AuthsOf([]) == {};
  }

  lemma OneState(w: Window, have: Cache, ev: Evidence, id: EventID, s: Snapshot)
    requires Refusing(w) && Explains(w, have, ev, id, s)
    ensures s == Snapshot(EMPTY, true)
  {
    match ev
    case FromRoomserver(local, first, cache) => AlwaysLocal(w, local, id, first, cache);
    case FromRemote(local, first, _, start, _, _, _, _) => AlwaysLocal(w, local, id, first, start);
  }

  /** The only answer is the oldest event, which is in order by itself. */
  lemma OneAnswer(w: Window, t: nat, at: nat, answer: Option<seq<Event>>)
    requires Refusing(w) && FirstAnswer(w, t, at, PUSHED, answer)
    ensures answer == Some([Message(["$prev"])])
  {
    var oldest := Message(["$prev"]);
    assert w.answers.missingEvents(at, 0, w.servers.value[0], [], PUSHED.id) == Some([oldest]);
  }

  lemma OneEventIsAcyclic()
    ensures Acyclic([Message(["$prev"])], Prevs()) && "$oldest" in EventIDs([Message(["$prev"])])
  {
    var events := [Message(["$prev"])];
    assert events[0] in events;
    forall group: set<EventID> | group != {} && group <= EventIDs(events)
      ensures HasRoot(events, Prevs(), group)
    {
      var id :| id in group;
      assert EventIDs(events) == {"$oldest"} && "$prev" !in group;
      assert IsRoot(events, Prevs(), group, id);
    }
  }

  lemma TheFetched(w: Window, gap: Gap)
    requires Refusing(w) && Answered(w, gap, PUSHED)
    ensures gap.fetched == [Message(["$prev"])]
  {
    OneAnswer(w, gap.latestAt, gap.answerAt, Some(gap.answer));
    var oldest := Message(["$prev"]);
    assert forall i :: 0 <= i < |gap.fetched| ==> gap.fetched[i] in gap.fetched && gap.fetched[i] == oldest;
    assert |gap.fetched| > 1 ==> gap.fetched[0].id == gap.fetched[1].id;
  }

  lemma TheState(w: Window, have: Cache, gap: Gap)
    requires Refusing(w) && Closes(w, have, gap, PUSHED)
    ensures gap.fetched == [Message(["$prev"])] && gap.state == EMPTY
  {
    TheFetched(w, gap);
    OneState(w, have, gap.evidence[0], "$prev", gap.states[0]);
  }

  lemma EmptyIsOrderable()
    ensures Orderable(EMPTY)
  {
    assert EventIDs([]) == {};
  }

  /** Nothing can go wrong. */
  lemma NoCause(w: Window, have: Cache, cause: GapCause, err: Error)
    requires Refusing(w)
    ensures !GapHindered(w, have, PUSHED, cause, err)
  {
    if GapHindered(w, have, PUSHED, cause, err) {
      match cause
      case LatestUnknown(_) => assert false;
      case NobodyAnswered(t, at) =>
        OneAnswer(w, t, at, None);
        assert false;
      case AnswerUseless(t, at, answer) =>
        OneAnswer(w, t, at, Some(answer));
        OneEventIsAcyclic();
        assert false;
      case StateUnknown(gap, why) =>
        TheFetched(w, gap);
        AlwaysLocal(w, why.local, gap.fetched[0].prevs[|gap.states|], why.first, why.start);
        assert false;
      case NoBeginning(gap) =>
        TheFetched(w, gap);
        assert false;
      case InConflict(gap, _, _) =>
        TheFetched(w, gap);
        OneState(w, have, gap.evidence[0], "$prev", gap.states[0]);
        assert false;
      case NotOrderable(gap) =>
        TheState(w, have, gap);
        EmptyIsOrderable();
        assert false;
      case OldestRefused(_, _) => assert false;
      case RestRefused(_, _) => assert false;
    }
  }

  /** The whole way: the gap is closed, and the oldest event is delivered with a state that refuses it. */
  method OwnStateIsSent() returns (err: Option<Error>, inputs: seq<Input>)
    ensures err.None?
    ensures inputs == [Input(KindOld, Message(["$prev"]), true, []), Input(KindOld, PUSHED, false, [])]
  {
    var world := new World(Scene(Message(["$prev"]), [], Refused(NotAllowed)));
    var txn := new TxnReq("remote", world, _ => false);
    ghost var gap, cause;
    err, gap, cause := txn.ProcessEventWithMissingState(PUSHED);
    inputs := world.inputs;
    ghost var w := txn.Since(0);
    if err.Some? {
      NoCause(w, txn.haveEvents, cause, err.value);
    } else {
      TheState(w, txn.haveEvents, gap);
      assert gap.outliers != [] ==> gap.outliers[0].id in EventIDs(gap.outliers);
    }
  }
}
