/** Adding an event to a room state held as a list (federationapi/routing/send.go). */
module StateAfterEvent {
  import opened Prelude
  import opened FederationEvents

  predicate SameKey(a: Event, b: Event) {
    a.stateKey.Some? && a.stateKey == b.stateKey && a.kind == b.kind
  }

  /** The event at a state key: the first one listed. */
  function At(state: seq<Event>, kind: string, key: string): (r: Option<Event>) {
    if state == [] then None
    else if state[0].kind == kind && state[0].stateKey == Some(key) then Some(state[0])
    else At(state[1..], kind, key)
  }

  /** It is listed and no event before it has that key; there is none exactly if none is listed. */
  lemma {:induction false} AtIsFirst(state: seq<Event>, kind: string, key: string, i: nat)
    requires i < |state| && state[i].kind == kind && state[i].stateKey == Some(key)
    requires forall j :: 0 <= j < i ==> !(state[j].kind == kind && state[j].stateKey == Some(key))
    ensures At(state, kind, key) == Some(state[i])
  {
    if i > 0 { AtIsFirst(state[1..], kind, key, i - 1); }
  }

  lemma {:induction false} AtIsListed(state: seq<Event>, kind: string, key: string)
    ensures At(state, kind, key).None? <==>
            forall j :: 0 <= j < |state| ==> !(state[j].kind == kind && state[j].stateKey == Some(key))
  {
    if state != [] {
      AtIsListed(state[1..], kind, key);
      assert forall j :: 0 < j < |state| ==> state[j] == state[1..][j - 1];
      assert forall j :: 0 <= j < |state[1..]| ==> state[1..][j] == state[j + 1];
    }
  }

  ghost predicate OnePerKey(state: seq<Event>) {
    forall i, j :: 0 <= i < j < |state| ==> !SameKey(state[i], state[j])
  }

  /** Replace the first event with the same key, or append. */
  ghost function WithEvent(state: seq<Event>, h: Event): (r: seq<Event>) {
    if state == [] then [h]
    else if SameKey(h, state[0]) then [h] + state[1..]
    else [state[0]] + WithEvent(state[1..], h)
  }

  /** The first event with that kind and state key gives way, in its place; without one the new event
      goes last. */
  lemma {:induction false} WithEventByPosition(state: seq<Event>, h: Event, i: nat)
    requires h.stateKey.Some? && i <= |state|
    requires forall j :: 0 <= j < i ==> !(state[j].kind == h.kind && state[j].stateKey == h.stateKey)
    requires i < |state| ==> state[i].kind == h.kind && state[i].stateKey == h.stateKey
    ensures WithEvent(state, h) == if i < |state| then state[i := h] else state + [h]
  {
    if i > 0 {
      WithEventByPosition(state[1..], h, i - 1);
      assert state == [state[0]] + state[1..];
    } else if state != [] {
      assert state[0 := h] == [h] + state[1..];
    }
  }

  /** The loop of lookupStateAfterEvent; an event that is not a state event changes nothing. */
  method AddToState(state: seq<Event>, h: Event) returns (r: seq<Event>)
    ensures r == if h.stateKey.Some? then WithEvent(state, h) else state
  {
    r := state;
    if h.stateKey.None? { return; }
    for i := 0 to |state|
      invariant r == state
      invariant WithEvent(state, h) == state[..i] + WithEvent(state[i..], h)
    {
      assert state[i..][0] == state[i] && state[i..][1..] == state[i + 1..];
      if state[i].kind == h.kind && state[i].stateKey == h.stateKey {
        r := r[i := h];
        assert r == state[..i] + ([h] + state[i + 1..]);
        return;
      }
      assert state[..i] + ([state[i]] + WithEvent(state[i + 1..], h)) == state[..i + 1] + WithEvent(state[i + 1..], h);
    }
    r := r + [h];
  }

  /** The state after the event is the state before, updated at the event's key only. */
  lemma {:induction false} UpdatesOneKey(state: seq<Event>, h: Event, kind: string, key: string)
    requires h.stateKey.Some?
    ensures At(WithEvent(state, h), kind, key) ==
            if kind == h.kind && Some(key) == h.stateKey then Some(h) else At(state, kind, key)
  {
    if state != [] && !SameKey(h, state[0]) {
      UpdatesOneKey(state[1..], h, kind, key);
      assert WithEvent(state, h)[1..] == WithEvent(state[1..], h);
    }
  }

  lemma {:induction false} MembersAfter(state: seq<Event>, h: Event)
    requires h.stateKey.Some?
    ensures h in WithEvent(state, h)
    ensures forall e :: e in WithEvent(state, h) ==> e == h || e in state
    ensures forall e :: e in state && !SameKey(h, e) ==> e in WithEvent(state, h)
  {
    if state != [] {
      assert state == [state[0]] + state[1..];
      MembersAfter(state[1..], h);
    }
  }

  lemma ConsOnePerKey(e: Event, s: seq<Event>)
    ensures OnePerKey([e] + s) <==> OnePerKey(s) && forall x :: x in s ==> !SameKey(e, x)
  {
    if OnePerKey([e] + s) {
      forall i, j | 0 <= i < j < |s|
        ensures !SameKey(s[i], s[j])
      {
        assert s[i] == ([e] + s)[i + 1] && s[j] == ([e] + s)[j + 1];
      }
      forall x | x in s
        ensures !SameKey(e, x)
      {
        var k :| 0 <= k < |s| && s[k] == x;
        assert ([e] + s)[0] == e && ([e] + s)[k + 1] == x;
      }
    }
  }

  /** The list holds one event per key afterwards exactly if it did before. */
  lemma {:induction false} KeepsOnePerKey(state: seq<Event>, h: Event)
    requires h.stateKey.Some?
    ensures OnePerKey(WithEvent(state, h)) <==> OnePerKey(state)
  {
    if state != [] {
      var first, rest := state[0], state[1..];
      assert state == [first] + rest;
      ConsOnePerKey(first, rest);
      if SameKey(h, first) {
        ConsOnePerKey(h, rest);
      } else {
        KeepsOnePerKey(rest, h);
        ConsOnePerKey(first, WithEvent(rest, h));
        MembersAfter(rest, h);
      }
    }
  }
}
