/** The per-caller rate limiter of the client API, one atomic action at a time. */
module RateLimiter {
  import opened Prelude

  type Caller = string
  type ChanID = nat
  type RequestID = nat

  datatype Params = Params(requestThreshold: nat, cooloffDuration: nat)

  /** A token channel of capacity requestThreshold.  `owner` is the caller it was made for. */
  datatype Chan = Chan(owner: Caller, tokens: nat, closed: bool)

  /** Where a request is inside rateLimit; every one of these holds cleanMutex for reading. */
  datatype PC = Entered | Missed | Holding(ch: ChanID) | Replied

  datatype Request = Request(caller: Caller, pc: PC)

  /** An accepted request.  Its goroutine takes the token back some time after `at` + cooloff. */
  datatype Accept = Accept(caller: Caller, ch: ChanID, at: int)

  /** `owed` holds the accepted requests whose token has not been drained yet. */
  datatype State = State(
    now: int,
    limits: map<Caller, ChanID>,
    chans: map<ChanID, Chan>,
    requests: map<RequestID, Request>,
    accepts: seq<Accept>,
    owed: set<nat>,
    panicked: bool)

  const NEW := State(0, map[], map[], map[], [], {}, false)

  datatype Step =
    | Enter(r: RequestID, caller: Caller)
    | Lookup(r: RequestID)
    | Create(r: RequestID, ch: ChanID)
    | TrySend(r: RequestID)
    | Leave(r: RequestID)
    | Drain(i: nat)
    | Clean
    | Tick

  predicate At(s: State, r: RequestID, pc: PC) {
    r in s.requests && s.requests[r].pc == pc
  }

  /** A drain may run once its time has come, and only then does it try to receive. */
  predicate Due(p: Params, s: State, i: nat) {
    i in s.owed && i < |s.accepts| && s.accepts[i].at + p.cooloffDuration <= s.now
  }

  /** A receive blocks on an open channel without tokens. */
  predicate CanReceive(s: State, ch: ChanID) {
    ch in s.chans && (s.chans[ch].closed || s.chans[ch].tokens > 0)
  }

  predicate Enabled(p: Params, s: State, step: Step) {
    match step
    case Enter(r, _) => r !in s.requests
    case Lookup(r) => At(s, r, Entered)
    case Create(r, ch) => At(s, r, Missed) && ch !in s.chans
    case TrySend(r) => r in s.requests && s.requests[r].pc.Holding? && s.requests[r].pc.ch in s.chans
    case Leave(r) => At(s, r, Replied)
    case Drain(i) => Due(p, s, i) && CanReceive(s, s.accepts[i].ch)
    case Clean => s.requests == map[] // the cleaner's write lock waits for every reader
    case Tick => true
  }

  predicate Idle(s: State, k: Caller) {
    k in s.limits && s.limits[k] in s.chans && s.chans[s.limits[k]].tokens == 0
  }

  function Cleaned(s: State): State {
    var emptied := set k | k in s.limits && Idle(s, k) :: s.limits[k];
    s.(limits := map k | k in s.limits && !Idle(s, k) :: s.limits[k],
       chans := map ch | ch in s.chans :: if ch in emptied then s.chans[ch].(closed := true) else s.chans[ch],
       panicked := s.panicked || exists ch :: ch in emptied && ch in s.chans && s.chans[ch].closed)
  }

  function Sent(p: Params, s: State, r: RequestID): State
    requires Enabled(p, s, TrySend(r))
  {
    var Request(caller, Holding(ch)) := s.requests[r];
    var c := s.chans[ch];
    var replied := s.requests[r := Request(caller, Replied)];
    if c.closed then
      s.(panicked := true)
    else if c.tokens < p.requestThreshold then
      s.(requests := replied,
         chans := s.chans[ch := c.(tokens := c.tokens + 1)],
         accepts := s.accepts + [Accept(caller, ch, s.now)],
         owed := s.owed + {|s.accepts|})
    else
      s.(requests := replied)
  }

  function Next(p: Params, s: State, step: Step): State
    requires Enabled(p, s, step)
  {
    match step
    case Enter(r, caller) => s.(requests := s.requests[r := Request(caller, Entered)])
    case Lookup(r) =>
      var caller := s.requests[r].caller;
      var pc := if caller in s.limits then Holding(s.limits[caller]) else Missed;
      s.(requests := s.requests[r := Request(caller, pc)])
    case Create(r, ch) =>
      var caller := s.requests[r].caller;
      s.(chans := s.chans[ch := Chan(caller, 0, false)],
         limits := s.limits[caller := ch],
         requests := s.requests[r := Request(caller, Holding(ch))])
    case TrySend(r) => Sent(p, s, r)
    case Leave(r) => s.(requests := s.requests - {r})
    case Drain(i) =>
      var ch := s.accepts[i].ch;
      var c := s.chans[ch];
      s.(owed := s.owed - {i},
         chans := s.chans[ch := c.(tokens := if c.tokens > 0 then c.tokens - 1 else 0)])
    case Clean => Cleaned(s)
    case Tick => s.(now := s.now + 1)
  }

  // ---- what holds in every interleaving ----

  /** The undrained tokens of one channel. */
  ghost function OwedOn(s: State, ch: ChanID): (r: set<nat>) {
    set i | i in s.owed && i < |s.accepts| && s.accepts[i].ch == ch
  }

  ghost predicate Open(s: State, ch: ChanID, owner: Caller) {
    ch in s.chans && !s.chans[ch].closed && s.chans[ch].owner == owner
  }

  ghost predicate GoodAccept(p: Params, s: State, i: nat)
    requires i < |s.accepts|
  {
    && s.accepts[i].at <= s.now
    && (i in s.owed ==> s.accepts[i].ch in s.chans && s.chans[s.accepts[i].ch].owner == s.accepts[i].caller)
    && (i !in s.owed ==> s.accepts[i].at + p.cooloffDuration <= s.now)
  }

  ghost predicate GoodChan(p: Params, s: State, ch: ChanID)
    requires ch in s.chans
  {
    && s.chans[ch].tokens == |OwedOn(s, ch)| <= p.requestThreshold
    && (s.chans[ch].closed ==> s.chans[ch].tokens == 0)
  }

  ghost predicate Inv(p: Params, s: State) {
    && !s.panicked
    && (forall k :: k in s.limits ==> Open(s, s.limits[k], k))
    && (forall r :: r in s.requests && s.requests[r].pc.Holding? ==>
          Open(s, s.requests[r].pc.ch, s.requests[r].caller))
    && (forall ch :: ch in s.chans ==> GoodChan(p, s, ch))
    && (forall i :: 0 <= i < |s.accepts| ==> GoodAccept(p, s, i))
    && (forall i :: i in s.owed ==> i < |s.accepts|)
  }

  lemma SentKeepsInv(p: Params, s: State, r: RequestID)
    requires Inv(p, s) && Enabled(p, s, TrySend(r))
    ensures Inv(p, Sent(p, s, r))
  {
    var s', ch := Sent(p, s, r), s.requests[r].pc.ch;
    if s.chans[ch].tokens < p.requestThreshold {
      AcceptKeepsDebts(p, s, s', ch, s.requests[r].caller);
    } else {
      SameTokens(p, s, s');
    }
  }

  lemma AcceptKeepsDebts(p: Params, s: State, s': State, ch: ChanID, caller: Caller)
    requires Inv(p, s) && ch in s.chans && s.chans[ch].tokens < p.requestThreshold && Open(s, ch, caller)
    requires s'.now == s.now && s'.accepts == s.accepts + [Accept(caller, ch, s.now)]
    requires s'.owed == s.owed + {|s.accepts|}
    requires s'.chans == s.chans[ch := s.chans[ch].(tokens := s.chans[ch].tokens + 1)]
    ensures forall c :: c in s'.chans ==> GoodChan(p, s', c)
    ensures forall i :: 0 <= i < |s'.accepts| ==> GoodAccept(p, s', i)
  {
    forall c | c in s'.chans
      ensures GoodChan(p, s', c)
    {
      assert GoodChan(p, s, c);
      OwedAfterAccept(s, s', c);
    }
    forall i | 0 <= i < |s'.accepts|
      ensures GoodAccept(p, s', i)
    {
      AcceptStaysGood(p, s, s', ch, caller, i);
    }
  }

  lemma AcceptStaysGood(p: Params, s: State, s': State, ch: ChanID, caller: Caller, i: nat)
    requires i <= |s.accepts| && (i < |s.accepts| ==> GoodAccept(p, s, i)) && Open(s, ch, caller)
    requires s'.now == s.now && s'.accepts == s.accepts + [Accept(caller, ch, s.now)]
    requires s'.owed == s.owed + {|s.accepts|}
    requires s'.chans == s.chans[ch := s.chans[ch].(tokens := s.chans[ch].tokens + 1)]
    ensures GoodAccept(p, s', i)
  {
  }

  lemma OwedAfterAccept(s: State, s': State, c: ChanID)
    requires |s'.accepts| == |s.accepts| + 1 && s.accepts == s'.accepts[..|s.accepts|]
    requires s'.owed == s.owed + {|s.accepts|}
    requires forall i :: i in s.owed ==> i < |s.accepts|
    ensures OwedOn(s', c) == OwedOn(s, c) + if s'.accepts[|s.accepts|].ch == c then {|s.accepts|} else {}
  {
    assert forall i :: 0 <= i < |s.accepts| ==> s'.accepts[i] == s.accepts[i];
  }

  /** A step that leaves tokens and debts alone keeps the channel facts. */
  lemma SameTokens(p: Params, s: State, s': State)
    requires Inv(p, s)
    requires s'.accepts == s.accepts && s'.owed == s.owed && s'.now >= s.now
    requires s.chans.Keys <= s'.chans.Keys
    requires forall ch :: ch in s.chans ==>
               s'.chans[ch].tokens == s.chans[ch].tokens && s'.chans[ch].owner == s.chans[ch].owner
    requires forall ch :: ch in s.chans && s'.chans[ch].closed ==> s.chans[ch].tokens == 0
    requires forall ch :: ch in s'.chans && ch !in s.chans ==> s'.chans[ch].tokens == 0
    ensures forall ch :: ch in s'.chans ==> GoodChan(p, s', ch)
    ensures forall i :: 0 <= i < |s'.accepts| ==> GoodAccept(p, s', i)
  {
    forall ch | ch in s'.chans
      ensures GoodChan(p, s', ch)
    {
      assert OwedOn(s', ch) == OwedOn(s, ch);
      if ch in s.chans {
        assert GoodChan(p, s, ch);
      } else {
        assert forall i :: i in s.owed ==> GoodAccept(p, s, i);
        assert OwedOn(s, ch) == {};
      }
    }
    forall i | 0 <= i < |s'.accepts|
      ensures GoodAccept(p, s', i)
    {
      assert GoodAccept(p, s, i);
    }
  }

  lemma DrainKeepsInv(p: Params, s: State, i: nat)
    requires Inv(p, s) && Enabled(p, s, Drain(i))
    ensures Inv(p, Next(p, s, Drain(i)))
  {
    var s', ch := Next(p, s, Drain(i)), s.accepts[i].ch;
    assert OwedOn(s', ch) == OwedOn(s, ch) - {i};
    forall c | c in s'.chans
      ensures GoodChan(p, s', c)
    {
      assert GoodChan(p, s, c);
      if c != ch { assert OwedOn(s', c) == OwedOn(s, c); }
    }
    forall j | 0 <= j < |s'.accepts|
      ensures GoodAccept(p, s', j)
    {
      assert GoodAccept(p, s, j);
    }
  }

  lemma CleanKeepsInv(p: Params, s: State)
    requires Inv(p, s) && Enabled(p, s, Clean)
    ensures Inv(p, Cleaned(s))
  {
    SameTokens(p, s, Cleaned(s));
  }

  lemma CreateKeepsInv(p: Params, s: State, r: RequestID, ch: ChanID)
    requires Inv(p, s) && Enabled(p, s, Create(r, ch))
    ensures Inv(p, Next(p, s, Create(r, ch)))
  {
    SameTokens(p, s, Next(p, s, Create(r, ch)));
  }

  lemma NextKeepsInv(p: Params, s: State, step: Step)
    requires Inv(p, s) && Enabled(p, s, step)
    ensures Inv(p, Next(p, s, step))
  {
    match step
    case TrySend(r) => SentKeepsInv(p, s, r);
    case Drain(i) => DrainKeepsInv(p, s, i);
    case Clean => CleanKeepsInv(p, s);
    case Create(r, ch) => CreateKeepsInv(p, s, r, ch);
    case _ => SameTokens(p, s, Next(p, s, step));
  }

  ghost predicate IsRun(p: Params, states: seq<State>, steps: seq<Step>) {
    && |states| == |steps| + 1
    && states[0] == NEW
    && forall k :: 0 <= k < |steps| ==> Enabled(p, states[k], steps[k]) && states[k + 1] == Next(p, states[k], steps[k])
  }

  lemma {:induction false} RunKeepsInv(p: Params, states: seq<State>, steps: seq<Step>, n: nat)
    requires IsRun(p, states, steps) && n < |states|
    ensures Inv(p, states[n])
  {
    if n > 0 {
      RunKeepsInv(p, states, steps, n - 1);
      NextKeepsInv(p, states[n - 1], steps[n - 1]);
    }
  }

  /** In every interleaving: no send or close ever hits a closed channel, every channel holds one
      token per outstanding drain, and a drain whose time has come never blocks. */
  lemma ChannelsAreSafe(p: Params, states: seq<State>, steps: seq<Step>, n: nat)
    requires IsRun(p, states, steps) && n < |states|
    ensures !states[n].panicked
    ensures forall ch :: ch in states[n].chans ==>
              states[n].chans[ch].tokens == |OwedOn(states[n], ch)| <= p.requestThreshold
    ensures forall ch :: ch in states[n].chans && states[n].chans[ch].closed ==>
              && OwedOn(states[n], ch) == {}
              && (forall r :: r in states[n].requests ==> states[n].requests[r].pc != Holding(ch))
              && (forall k :: k in states[n].limits ==> states[n].limits[k] != ch)
    ensures forall i: nat :: Due(p, states[n], i) ==> Enabled(p, states[n], Drain(i))
  {
    RunKeepsInv(p, states, steps, n);
    var s := states[n];
    assert forall ch :: ch in s.chans ==> GoodChan(p, s, ch);
    forall i: nat | Due(p, s, i)
      ensures Enabled(p, s, Drain(i))
    {
      assert GoodAccept(p, s, i) && GoodChan(p, s, s.accepts[i].ch);
      assert i in OwedOn(s, s.accepts[i].ch);
    }
  }

  /** In every interleaving a request that reaches its channel is answered: accepted, with a token owed
      on that channel, exactly if fewer than requestThreshold are owed there; otherwise refused,
      because that many accepted requests of the same caller have not been drained. */
  lemma TrySendDecides(p: Params, states: seq<State>, steps: seq<Step>, n: nat, r: RequestID)
    requires IsRun(p, states, steps) && n < |steps| && steps[n] == TrySend(r)
    ensures r in states[n].requests && states[n].requests[r].pc.Holding?
    ensures var s, s' := states[n], states[n + 1];
            var Request(caller, Holding(ch)) := s.requests[r];
            && s'.requests == s.requests[r := Request(caller, Replied)]
            && s'.limits == s.limits && s'.now == s.now && s'.chans.Keys == s.chans.Keys
            && (forall c :: c in s.chans && c != ch ==> s'.chans[c] == s.chans[c])
            && if |OwedOn(s, ch)| < p.requestThreshold then
                 && s'.accepts == s.accepts + [Accept(caller, ch, s.now)] && s'.owed == s.owed + {|s.accepts|}
                 && OwedOn(s', ch) == OwedOn(s, ch) + {|s.accepts|}
               else
                 && s'.accepts == s.accepts && s'.owed == s.owed && s'.chans == s.chans
                 && |OwedOn(s, ch)| == p.requestThreshold
                 && forall i :: i in OwedOn(s, ch) ==> s.accepts[i].caller == caller
  {
    RunKeepsInv(p, states, steps, n);
    var s, s', ch := states[n], states[n + 1], states[n].requests[r].pc.ch;
    assert GoodChan(p, s, ch);
    if |OwedOn(s, ch)| < p.requestThreshold { OwedAfterAccept(s, s', ch); }
    assert forall i :: i in OwedOn(s, ch) ==> GoodAccept(p, s, i);
  }

  /** Requests come and go, and time passes, without any other change; nobody leaves unanswered. */
  lemma EnterLeaveTick(p: Params, states: seq<State>, steps: seq<Step>, n: nat)
    requires IsRun(p, states, steps) && n < |steps|
    ensures var s, s' := states[n], states[n + 1];
            match steps[n]
            case Enter(r, caller) =>
              r !in s.requests && s' == s.(requests := s'.requests) &&
              s'.requests == s.requests[r := Request(caller, Entered)]
            case Leave(r) =>
              r in s.requests && s.requests[r].pc == Replied && s' == s.(requests := s'.requests) &&
              s'.requests == s.requests - {r}
            case Tick => s' == s.(now := s.now + 1)
            case _ => true
  {
  }

  /** A request finds the open channel of its own caller, or makes one; nobody else's changes. */
  lemma RequestGetsItsChannel(p: Params, states: seq<State>, steps: seq<Step>, n: nat, r: RequestID)
    requires IsRun(p, states, steps) && n < |steps| && (steps[n] == Lookup(r) || (steps[n].Create? && steps[n].r == r))
    ensures r in states[n].requests && r in states[n + 1].requests
    ensures var s, s' := states[n], states[n + 1];
            var caller := s.requests[r].caller;
            && s'.requests == s.requests[r := s'.requests[r]] && s'.requests[r].caller == caller
            && s'.accepts == s.accepts && s'.owed == s.owed && s'.now == s.now
            && (s'.requests[r].pc == Missed <==> caller !in s'.limits)
            && (s'.requests[r].pc != Missed ==>
                  && s'.requests[r].pc == Holding(s'.limits[caller]) && Open(s', s'.limits[caller], caller)
                  && (caller in s.limits && steps[n].Lookup? ==> s'.limits[caller] == s.limits[caller]))
            && (forall k :: k != caller ==>
                  (k in s'.limits <==> k in s.limits) && (k in s.limits ==> s'.limits[k] == s.limits[k]))
            && (forall c :: c in s.chans ==> c in s'.chans && s'.chans[c] == s.chans[c])
            && (steps[n].Lookup? ==> s'.chans == s.chans)
            && (steps[n].Create? ==> s'.limits[caller] !in s.chans && s'.chans[s'.limits[caller]].tokens == 0)
  {
    RunKeepsInv(p, states, steps, n);
    var s := states[n];
    assert s.requests[r].caller in s.limits ==> Open(s, s.limits[s.requests[r].caller], s.requests[r].caller);
  }

  /** A drain takes one token from the channel it was put into, and from no other. */
  lemma DrainTakesOne(p: Params, states: seq<State>, steps: seq<Step>, n: nat, i: nat)
    requires IsRun(p, states, steps) && n < |steps| && steps[n] == Drain(i)
    ensures i < |states[n].accepts| && i in states[n].owed
    ensures var s, s', ch := states[n], states[n + 1], states[n].accepts[i].ch;
            && s.accepts[i].at + p.cooloffDuration <= s.now
            && s'.accepts == s.accepts && s'.owed == s.owed - {i} && s'.now == s.now
            && s'.requests == s.requests && s'.limits == s.limits
            && s'.chans.Keys == s.chans.Keys && ch in s.chans && !s.chans[ch].closed
            && s'.chans[ch] == Chan(s.accepts[i].caller, s.chans[ch].tokens - 1, false)
            && forall c :: c in s.chans && c != ch ==> s'.chans[c] == s.chans[c]
  {
    RunKeepsInv(p, states, steps, n);
    var s, ch := states[n], states[n].accepts[i].ch;
    assert GoodAccept(p, s, i) && GoodChan(p, s, ch);
    assert i in OwedOn(s, ch);
  }

  /** Cleaning happens while no request is inside, and forgets exactly the callers that owe nothing on
      their channel, closing it. */
  lemma CleanDropsIdle(p: Params, states: seq<State>, steps: seq<Step>, n: nat)
    requires IsRun(p, states, steps) && n < |steps| && steps[n] == Clean
    ensures var s, s' := states[n], states[n + 1];
            && s.requests == s'.requests == map[]
            && s'.accepts == s.accepts && s'.owed == s.owed && s'.now == s.now
            && (forall k :: k in s'.limits <==> k in s.limits && OwedOn(s, s.limits[k]) != {})
            && (forall k :: k in s'.limits ==> s'.limits[k] == s.limits[k])
            && s'.chans.Keys == s.chans.Keys
            && (forall ch :: ch in s.chans ==>
                  s'.chans[ch].owner == s.chans[ch].owner && s'.chans[ch].tokens == s.chans[ch].tokens)
            && (forall ch :: ch in s.chans ==>
                  (s'.chans[ch].closed <==>
                   s.chans[ch].closed || exists k :: k in s.limits && s.limits[k] == ch && k !in s'.limits))
  {
    RunKeepsInv(p, states, steps, n);
    var s := states[n];
    forall k | k in s.limits
      ensures s.limits[k] in s.chans && (Idle(s, k) <==> OwedOn(s, s.limits[k]) == {})
    {
      assert Open(s, s.limits[k], k) && GoodChan(p, s, s.limits[k]);
    }
  }

  // ---- the bound per caller ----

  ghost predicate IsMiss(s: State, r: RequestID, k: Caller) {
    r in s.requests && s.requests[r] == Request(k, Missed)
  }

  /** At most one request of the caller is between a failed lookup and storing its channel. */
  ghost predicate OneMiss(s: State, k: Caller) {
    forall r, r' :: IsMiss(s, r, k) && IsMiss(s, r', k) ==> r == r'
  }

  /** Accepted requests of a caller up to `i` that are younger than one cooloff at that point. */
  ghost function Recent(p: Params, s: State, k: Caller, i: nat): (r: set<nat>)
    requires i < |s.accepts|
  {
    set j | 0 <= j <= i && s.accepts[j].caller == k && s.accepts[j].at > s.accepts[i].at - p.cooloffDuration
  }

  /** Accepted requests of a caller in the window [from, from + cooloff). */
  ghost function InWindow(p: Params, s: State, k: Caller, from: int): (r: set<nat>) {
    set j | 0 <= j < |s.accepts| && s.accepts[j].caller == k && from <= s.accepts[j].at < from + p.cooloffDuration
  }

  /** With non-overlapping first requests the caller's debts all sit in its current channel. */
  ghost predicate OneChannel(s: State, k: Caller) {
    && (forall i :: i in s.owed && i < |s.accepts| && s.accepts[i].caller == k ==>
          k in s.limits && s.accepts[i].ch == s.limits[k])
    && (forall r :: r in s.requests && s.requests[r].caller == k && s.requests[r].pc.Holding? ==>
          k in s.limits && s.requests[r].pc.ch == s.limits[k])
    && (forall r :: IsMiss(s, r, k) ==> k !in s.limits)
  }

  ghost predicate Bounded(p: Params, s: State, k: Caller) {
    forall i :: 0 <= i < |s.accepts| && s.accepts[i].caller == k ==> |Recent(p, s, k, i)| <= p.requestThreshold
  }

  lemma {:induction false} SubsetSize(a: set<nat>, b: set<nat>)
    requires a <= b
    ensures |a| <= |b|
  {
    if a != {} {
      var x :| x in a;
      SubsetSize(a - {x}, b - {x});
    }
  }

  lemma OneChannelKept(p: Params, s: State, step: Step, k: Caller)
    requires Inv(p, s) && Enabled(p, s, step) && OneChannel(s, k) && OneMiss(s, k)
    ensures OneChannel(Next(p, s, step), k)
  {
    var s' := Next(p, s, step);
    if step.Clean? && k in s.limits && Idle(s, k) {
      assert GoodChan(p, s, s.limits[k]);
      assert OwedOn(s, s.limits[k]) == {};
      assert forall i :: i in s.owed && s.accepts[i].ch == s.limits[k] ==> i in OwedOn(s, s.limits[k]);
    }
    if step.Create? && s.requests[step.r].caller == k { assert IsMiss(s, step.r, k); }
    forall r | IsMiss(s', r, k)
      ensures k !in s'.limits
    {
      if step != Lookup(r) { assert IsMiss(s, r, k); }
    }
  }

  /** The newest accepted request finds every younger one of its caller still owed, in one channel. */
  lemma NewestIsBounded(p: Params, s: State, k: Caller, n: nat)
    requires Inv(p, s) && OneChannel(s, k)
    requires n == |s.accepts| - 1 && s.accepts[n].caller == k && s.accepts[n].at == s.now && n in s.owed
    ensures |Recent(p, s, k, n)| <= p.requestThreshold
  {
    var ch := s.accepts[n].ch;
    forall j | j in Recent(p, s, k, n)
      ensures j in OwedOn(s, ch)
    {
      assert GoodAccept(p, s, j);
    }
    SubsetSize(Recent(p, s, k, n), OwedOn(s, ch));
    assert GoodAccept(p, s, n) && GoodChan(p, s, ch);
  }

  lemma AcceptStaysBounded(p: Params, s: State, r: RequestID, k: Caller)
    requires Inv(p, s) && Enabled(p, s, TrySend(r)) && OneChannel(s, k) && OneMiss(s, k) && Bounded(p, s, k)
    ensures Bounded(p, Sent(p, s, r), k)
  {
    var s', n := Sent(p, s, r), |s.accepts|;
    SentKeepsInv(p, s, r);
    OneChannelKept(p, s, TrySend(r), k);
    forall i | 0 <= i < |s'.accepts| && s'.accepts[i].caller == k
      ensures |Recent(p, s', k, i)| <= p.requestThreshold
    {
      if i < n {
        RecentInPrefix(p, s, s', k, i);
      } else {
        NewestIsBounded(p, s', k, i);
      }
    }
  }

  lemma RecentInPrefix(p: Params, s: State, s': State, k: Caller, i: nat)
    requires i < |s.accepts| && s.accepts <= s'.accepts
    ensures Recent(p, s', k, i) == Recent(p, s, k, i)
  {
    assert forall j :: 0 <= j <= i ==> s'.accepts[j] == s.accepts[j];
  }

  lemma {:induction false} RunStaysBounded(p: Params, states: seq<State>, steps: seq<Step>, k: Caller, n: nat)
    requires IsRun(p, states, steps) && n < |states|
    requires forall m :: 0 <= m < |states| ==> OneMiss(states[m], k)
    ensures OneChannel(states[n], k) && Bounded(p, states[n], k)
  {
    if n > 0 {
      var s, step := states[n - 1], steps[n - 1];
      RunStaysBounded(p, states, steps, k, n - 1);
      RunKeepsInv(p, states, steps, n - 1);
      OneChannelKept(p, s, step, k);
      if step.TrySend? {
        AcceptStaysBounded(p, s, step.r, k);
      } else {
        SameLogStaysBounded(p, s, states[n], k);
      }
    }
  }

  lemma SameLogStaysBounded(p: Params, s: State, s': State, k: Caller)
    requires Bounded(p, s, k) && s'.accepts == s.accepts
    ensures Bounded(p, s', k)
  {
    forall i | 0 <= i < |s'.accepts| && s'.accepts[i].caller == k
      ensures |Recent(p, s', k, i)| <= p.requestThreshold
    {
      assert Recent(p, s', k, i) == Recent(p, s, k, i);
    }
  }

  lemma {:induction false} Greatest(a: set<nat>) returns (m: nat)
    requires a != {}
    ensures m in a && forall x :: x in a ==> x <= m
  {
    var y :| y in a;
    var rest := a - {y};
    m := y;
    if rest == {} {
      assert forall x :: x in a ==> x == y by { assert a == {y} + rest; }
    } else {
      var m' := Greatest(rest);
      m := if m' > y then m' else y;
      assert forall x :: x in a ==> x == y || x in rest;
    }
  }

  /** For a caller whose first requests never overlap, no window of one cooloff holds more than
      requestThreshold accepted requests, whenever cleaning and draining happen. */
  lemma CallerIsLimited(p: Params, states: seq<State>, steps: seq<Step>, k: Caller, n: nat, from: int)
    requires IsRun(p, states, steps) && n < |states|
    requires forall m :: 0 <= m < |states| ==> OneMiss(states[m], k)
    ensures |InWindow(p, states[n], k, from)| <= p.requestThreshold
  {
    RunStaysBounded(p, states, steps, k, n);
    var s := states[n];
    var window := InWindow(p, s, k, from);
    if window != {} {
      var i := Greatest(window);
      assert window <= Recent(p, s, k, i);
      SubsetSize(window, Recent(p, s, k, i));
    }
  }

  // ---- why the bound needs non-overlapping first requests ----

  /** A finite run from one state to another. */
  ghost predicate IsPath(p: Params, states: seq<State>, steps: seq<Step>) {
    && |states| == |steps| + 1
    && forall k :: 0 <= k < |steps| ==> Enabled(p, states[k], steps[k]) && states[k + 1] == Next(p, states[k], steps[k])
  }

  ghost predicate LeadsTo(p: Params, s: State, s': State) {
    exists states, steps :: IsPath(p, states, steps) && states[0] == s && states[|steps|] == s'
  }

  lemma LeadsToSelf(p: Params, s: State)
    ensures LeadsTo(p, s, s)
  {
    assert IsPath(p, [s], []) && [s][0] == s;
  }

  lemma LeadsOn(p: Params, s: State, s': State, step: Step)
    requires LeadsTo(p, s, s') && Enabled(p, s', step)
    ensures LeadsTo(p, s, Next(p, s', step))
  {
    var states, steps :| IsPath(p, states, steps) && states[0] == s && states[|steps|] == s';
    var states', steps' := states + [Next(p, s', step)], steps + [step];
    assert IsPath(p, states', steps') && states'[0] == s && states'[|steps'|] == Next(p, s', step);
  }

  lemma Fresh(used: set<nat>) returns (x: nat)
    ensures x !in used
  {
    x := 0;
    if used != {} {
      var m := Greatest(used);
      x := m + 1;
    }
  }

  /** `n` requests of the caller were accepted on channel `ch` since `s0`, at one instant, and request
      `r` has missed and is still waiting. */
  ghost predicate Filling(s0: State, s: State, k: Caller, r: RequestID, ch: ChanID, n: nat) {
    && s.now == s0.now && IsMiss(s, r, k)
    && k in s.limits && s.limits[k] == ch && ch in s.chans && s.chans[ch] == Chan(k, n, false)
    && s.accepts == s0.accepts + seq(n, _ => Accept(k, ch, s0.now))
  }

  /** The first of the two makes a channel. */
  lemma BeginFilling(p: Params, s: State, k: Caller, first: RequestID, r: RequestID) returns (s': State, ch: ChanID)
    requires IsMiss(s, first, k) && IsMiss(s, r, k) && first != r
    ensures LeadsTo(p, s, s') && Filling(s, s', k, r, ch, 0)
    ensures At(s', first, Holding(ch)) && s'.requests[first].caller == k
  {
    ch := Fresh(s.chans.Keys);
    LeadsToSelf(p, s);
    LeadsOn(p, s, s, Create(first, ch));
    s' := Next(p, s, Create(first, ch));
    assert s.accepts + seq(0, _ => Accept(k, ch, s.now)) == s.accepts;
  }

  /** A request that holds a channel with room is accepted. */
  lemma FillOneMore(p: Params, s0: State, s: State, k: Caller, x: RequestID, r: RequestID, ch: ChanID, n: nat)
    returns (s': State)
    requires LeadsTo(p, s0, s) && Filling(s0, s, k, r, ch, n) && n < p.requestThreshold
    requires At(s, x, Holding(ch)) && s.requests[x].caller == k
    ensures LeadsTo(p, s0, s') && Filling(s0, s', k, r, ch, n + 1)
  {
    LeadsOn(p, s0, s, TrySend(x));
    s' := Next(p, s, TrySend(x));
    var a := Accept(k, ch, s0.now);
    assert s0.accepts + seq(n, _ => a) + [a] == s0.accepts + seq(n + 1, _ => a);
  }

  lemma NewRequest(p: Params, s0: State, s: State, k: Caller, r: RequestID, ch: ChanID, n: nat)
    returns (s': State, x: RequestID)
    requires LeadsTo(p, s0, s) && Filling(s0, s, k, r, ch, n)
    ensures LeadsTo(p, s0, s') && Filling(s0, s', k, r, ch, n)
    ensures At(s', x, Holding(ch)) && s'.requests[x].caller == k
  {
    x := Fresh(s.requests.Keys);
    LeadsOn(p, s0, s, Enter(x, k));
    s' := Next(p, s, Enter(x, k));
    LeadsOn(p, s0, s', Lookup(x));
    s' := Next(p, s', Lookup(x));
  }

  lemma {:induction false} Fill(p: Params, s: State, k: Caller, first: RequestID, r: RequestID, n: nat)
    returns (s': State, ch: ChanID)
    requires IsMiss(s, first, k) && IsMiss(s, r, k) && first != r && 1 <= n <= p.requestThreshold
    ensures LeadsTo(p, s, s') && Filling(s, s', k, r, ch, n)
  {
    if n == 1 {
      s', ch := BeginFilling(p, s, k, first, r);
      s' := FillOneMore(p, s, s', k, first, r, ch, 0);
    } else {
      s', ch := Fill(p, s, k, first, r, n - 1);
      var x;
      s', x := NewRequest(p, s, s', k, r, ch, n - 1);
      s' := FillOneMore(p, s, s', k, x, r, ch, n - 1);
    }
  }

  ghost function Range(from: nat, n: nat): (r: set<nat>)
    ensures |r| == n && forall i :: i in r <==> from <= i < from + n
  {
    if n == 0 then {} else Range(from, n - 1) + {from + n - 1}
  }

  /** The newest `n` accepted requests, if they all are of one caller and one instant, lie in one window. */
  lemma NewestInWindow(p: Params, s: State, k: Caller, from: nat, n: nat)
    requires from + n == |s.accepts| && p.cooloffDuration >= 1
    requires forall i :: from <= i < |s.accepts| ==> s.accepts[i].caller == k && s.accepts[i].at == s.now
    ensures |InWindow(p, s, k, s.now)| >= n
    ensures from == 0 ==> |InWindow(p, s, k, s.now)| == n
  {
    assert Range(from, n) <= InWindow(p, s, k, s.now);
    SubsetSize(Range(from, n), InWindow(p, s, k, s.now));
    if from == 0 { assert InWindow(p, s, k, s.now) == Range(0, n); }
  }

  /** Lookup and creation are separate critical sections.  From every state in which two first
      requests of a caller overlap, a state can be reached without time passing in which one request
      more than the threshold was accepted at one instant: the discipline that CallerIsLimited asks
      for cannot be relaxed anywhere. */
  lemma OverlapBreaksLimit(p: Params, s: State, k: Caller, first: RequestID, second: RequestID) returns (s': State)
    requires IsMiss(s, first, k) && IsMiss(s, second, k) && first != second
    requires p.requestThreshold >= 1 && p.cooloffDuration >= 1
    ensures LeadsTo(p, s, s') && s'.now == s.now
    ensures |InWindow(p, s', k, s'.now)| > p.requestThreshold
    ensures s.accepts == [] ==> |InWindow(p, s', k, s'.now)| == p.requestThreshold + 1
  {
    var n, ch := p.requestThreshold, 0;
    s', ch := Fill(p, s, k, first, second, n);
    var other := Fresh(s'.chans.Keys);
    LeadsOn(p, s, s', Create(second, other));
    s' := Next(p, s', Create(second, other));
    LeadsOn(p, s, s', TrySend(second));
    s' := Next(p, s', TrySend(second));
    NewestInWindow(p, s', k, |s.accepts|, n + 1);
  }

  /** And such a state can be reached from the beginning, for every caller. */
  lemma OverlapExceedsLimit(p: Params, k: Caller) returns (s: State)
    requires p.requestThreshold >= 1 && p.cooloffDuration >= 1
    ensures exists overlapping :: LeadsTo(p, NEW, overlapping) && !OneMiss(overlapping, k) && LeadsTo(p, overlapping, s)
    ensures |InWindow(p, s, k, s.now)| == p.requestThreshold + 1
  {
    var o := NEW;
    LeadsToSelf(p, NEW);
    LeadsOn(p, NEW, o, Enter(0, k));
    o := Next(p, o, Enter(0, k));
    LeadsOn(p, NEW, o, Lookup(0));
    o := Next(p, o, Lookup(0));
    LeadsOn(p, NEW, o, Enter(1, k));
    o := Next(p, o, Enter(1, k));
    LeadsOn(p, NEW, o, Lookup(1));
    o := Next(p, o, Lookup(1));
    assert IsMiss(o, 0, k) && IsMiss(o, 1, k);
    s := OverlapBreaksLimit(p, o, k, 0, 1);
  }
}
