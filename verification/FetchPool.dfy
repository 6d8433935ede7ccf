/** The worker pool that fetches missing state events (federationapi/routing/send.go). */
module FetchPool {
  import opened Prelude
  import opened FederationEvents

  /** What a lookup of an ID yields when it is answered at a given moment, None when every server
      failed; the event need not carry the ID that was asked for.  `genuine` is the signature check. */
  datatype Net = Net(found: (nat, EventID) -> Option<Event>, genuine: Event -> bool) {
    ghost predicate Good(t: nat, id: EventID) {
      found(t, id).Some? && genuine(found(t, id).value)
    }
  }

  /** Fetched means that the event has been marked new and is about to be cached. */
  datatype Worker = Ready | Fetching(id: EventID) | Fetched(event: Event) | Done

  /** `looked` lists the IDs taken from the queue, one lookup each, and `answered` the lookups that
      have come back, with their moments; `have` and `marked` are the transaction's haveEvents and
      newEvents. */
  datatype Pool = Pool(
    pending: seq<EventID>,
    workers: seq<Worker>,
    looked: seq<EventID>,
    answered: set<(nat, EventID)>,
    have: Cache,
    marked: set<EventID>,
    clock: nat)

  function Start(missing: seq<EventID>, n: nat, have: Cache, marked: set<EventID>, clock: nat): Pool {
    Pool(missing, seq(n, _ => Worker.Ready), [], {}, have, marked, clock)
  }

  predicate Enabled(p: Pool, w: nat) {
    w < |p.workers| && p.workers[w] != Done
  }

  /** One atomic action of worker `w`. */
  function Advance(net: Net, p: Pool, w: nat): Pool
    requires Enabled(p, w)
  {
    match p.workers[w]
    case Ready =>
      if p.pending == [] then p.(workers := p.workers[w := Done])
      else p.(pending := p.pending[1..], looked := p.looked + [p.pending[0]],
              workers := p.workers[w := Fetching(p.pending[0])])
    case Fetching(id) =>
      var answer := net.found(p.clock, id);
      var p' := p.(clock := p.clock + 1, answered := p.answered + {(p.clock, id)});
      if answer.None? || !net.genuine(answer.value) then p'.(workers := p.workers[w := Worker.Ready])
      else p'.(marked := p.marked + {answer.value.id}, workers := p.workers[w := Fetched(answer.value)])
    case Fetched(ev) => p.(have := Cached(p.have, ev), workers := p.workers[w := Worker.Ready])
  }

  /** The event came back from a lookup, and its signature is good. */
  ghost predicate Supplied(net: Net, p: Pool, ev: Event) {
    exists t, id :: (t, id) in p.answered && net.Good(t, id) && net.found(t, id).value == ev
  }

  ghost predicate SuppliedID(net: Net, p: Pool, id: EventID) {
    exists ev :: Supplied(net, p, ev) && ev.id == id
  }

  ghost predicate Working(p: Pool, state: Worker) {
    exists w :: 0 <= w < |p.workers| && p.workers[w] == state
  }

  ghost predicate HasAnswer(p: Pool, id: EventID) {
    exists t :: (t, id) in p.answered
  }

  /** A good answer is in the cache by its own ID, or on its way there. */
  ghost predicate Kept(net: Net, p: Pool, t: nat, id: EventID) {
    net.Good(t, id) ==> var ev := net.found(t, id).value; ev.id in p.have || Working(p, Fetched(ev))
  }

  /** What the pool keeps about its cache, relative to the one it started from. */
  ghost predicate CacheInv(net: Net, p: Pool, have: Cache, marked: set<EventID>) {
    && KeyedByID(p.have) && Within(have, p.have) && marked <= p.marked
    && (forall id :: id in p.marked && id !in marked ==> SuppliedID(net, p, id))
    && (forall id :: id in p.have && id !in have ==> id in p.marked && Supplied(net, p, p.have[id]))
    && (forall w :: 0 <= w < |p.workers| && p.workers[w].Fetched? ==>
          p.workers[w].event.id in p.marked && Supplied(net, p, p.workers[w].event))
  }

  /** What it keeps about its lookups. */
  ghost predicate LookupInv(net: Net, p: Pool, missing: seq<EventID>, start: nat) {
    && p.looked + p.pending == missing && start <= p.clock
    && (forall id :: id in p.looked ==> Working(p, Fetching(id)) || HasAnswer(p, id))
    && (forall a :: a in p.answered ==> a.1 in missing && start <= a.0 < p.clock && Kept(net, p, a.0, a.1))
    && (forall w :: 0 <= w < |p.workers| && p.workers[w].Fetching? ==> p.workers[w].id in missing)
    && (forall w :: 0 <= w < |p.workers| && p.workers[w] == Done ==> p.pending == [])
  }

  ghost predicate Inv(net: Net, p: Pool, missing: seq<EventID>, have: Cache, marked: set<EventID>, start: nat) {
    CacheInv(net, p, have, marked) && LookupInv(net, p, missing, start)
  }

  lemma AdvanceKeepsCache(net: Net, p: Pool, w: nat, have: Cache, marked: set<EventID>)
    requires CacheInv(net, p, have, marked) && Enabled(p, w)
    ensures CacheInv(net, Advance(net, p, w), have, marked)
  {
    var p' := Advance(net, p, w);
    forall ev | Supplied(net, p, ev)
      ensures Supplied(net, p', ev)
    {
      var t, id :| (t, id) in p.answered && net.Good(t, id) && net.found(t, id).value == ev;
      assert (t, id) in p'.answered;
    }
    forall id | SuppliedID(net, p, id)
      ensures SuppliedID(net, p', id)
    {
      var ev :| Supplied(net, p, ev) && ev.id == id;
      assert Supplied(net, p', ev);
    }
    if p.workers[w].Fetching? {
      assert (p.clock, p.workers[w].id) in p'.answered;
      if p'.workers[w].Fetched? { assert Supplied(net, p', p'.workers[w].event); }
    }
  }

  /** Whoever else was at work still is, and only an answer ends a lookup. */
  lemma OthersKeepWorking(net: Net, p: Pool, w: nat, state: Worker)
    requires Enabled(p, w) && Working(p, state)
    ensures p.workers[w] != state ==> Working(Advance(net, p, w), state)
  {
    var v :| 0 <= v < |p.workers| && p.workers[v] == state;
    if p.workers[w] != state { assert Advance(net, p, w).workers[v] == state; }
  }

  lemma AnswersStayKept(net: Net, p: Pool, w: nat, t: nat, id: EventID)
    requires Enabled(p, w) && Kept(net, p, t, id)
    ensures Kept(net, Advance(net, p, w), t, id)
  {
    if net.Good(t, id) && Working(p, Fetched(net.found(t, id).value)) {
      OthersKeepWorking(net, p, w, Fetched(net.found(t, id).value));
    }
  }

  lemma LookupsStayTracked(net: Net, p: Pool, w: nat, id: EventID)
    requires Enabled(p, w) && (Working(p, Fetching(id)) || HasAnswer(p, id))
    ensures var p' := Advance(net, p, w); Working(p', Fetching(id)) || HasAnswer(p', id)
  {
    var p' := Advance(net, p, w);
    if HasAnswer(p, id) {
      var t :| (t, id) in p.answered;
      assert (t, id) in p'.answered;
    } else if p.workers[w] == Fetching(id) {
      assert (p.clock, id) in p'.answered;
    } else {
      OthersKeepWorking(net, p, w, Fetching(id));
    }
  }

  lemma AdvanceKeepsLookups(net: Net, p: Pool, w: nat, missing: seq<EventID>, start: nat)
    requires LookupInv(net, p, missing, start) && Enabled(p, w)
    ensures LookupInv(net, Advance(net, p, w), missing, start)
  {
    var p' := Advance(net, p, w);
    assert p'.looked + p'.pending == p.looked + p.pending;
    if p.workers[w].Ready? && p.pending != [] { assert (p.looked + p.pending)[|p.looked|] == p.pending[0]; }
    assert Working(p', p'.workers[w]);
    forall id | id in p'.looked
      ensures Working(p', Fetching(id)) || HasAnswer(p', id)
    {
      if id in p.looked { LookupsStayTracked(net, p, w, id); }
    }
    forall a | a in p'.answered
      ensures a.1 in missing && start <= a.0 < p'.clock && Kept(net, p', a.0, a.1)
    {
      if a in p.answered { AnswersStayKept(net, p, w, a.0, a.1); }
    }
  }

  lemma AdvanceKeepsInv(net: Net, p: Pool, w: nat, missing: seq<EventID>, have: Cache, marked: set<EventID>, start: nat)
    requires Inv(net, p, missing, have, marked, start) && Enabled(p, w)
    ensures Inv(net, Advance(net, p, w), missing, have, marked, start)
    ensures Work(Advance(net, p, w)) < Work(p) && |Advance(net, p, w).workers| == |p.workers|
  {
    AdvanceKeepsCache(net, p, w, have, marked);
    AdvanceKeepsLookups(net, p, w, missing, start);
    WorkOfUpdate(p.workers, w, Advance(net, p, w).workers[w]);
  }

  // Every action uses up work, so every schedule ends.

  ghost function WorkerWork(w: Worker): nat {
    match w case Ready => 1 case Fetching(_) => 3 case Fetched(_) => 2 case Done => 0
  }

  ghost function WorkersWork(ws: seq<Worker>): nat {
    if ws == [] then 0 else WorkerWork(ws[|ws| - 1]) + WorkersWork(ws[..|ws| - 1])
  }

  ghost function Work(p: Pool): nat {
    3 * |p.pending| + WorkersWork(p.workers)
  }

  lemma {:induction false} WorkOfUpdate(ws: seq<Worker>, w: nat, x: Worker)
    requires w < |ws|
    ensures WorkersWork(ws[w := x]) == WorkersWork(ws) - WorkerWork(ws[w]) + WorkerWork(x)
  {
    var n := |ws| - 1;
    if w == n {
      assert ws[w := x][..n] == ws[..n];
    } else {
      assert ws[w := x][..n] == ws[..n][w := x];
      WorkOfUpdate(ws[..n], w, x);
    }
  }

  /** A schedule says which worker moves. */
  ghost predicate Plays(net: Net, p: Pool, schedule: seq<nat>, q: Pool)
    decreases |schedule|
  {
    if schedule == [] then q == p
    else Enabled(p, schedule[0]) && Plays(net, Advance(net, p, schedule[0]), schedule[1..], q)
  }

  lemma {:induction false} PlayKeepsInv(net: Net, p: Pool, schedule: seq<nat>, q: Pool,
                                        missing: seq<EventID>, have: Cache, marked: set<EventID>, start: nat)
    requires Plays(net, p, schedule, q) && Inv(net, p, missing, have, marked, start)
    ensures Inv(net, q, missing, have, marked, start) && |q.workers| == |p.workers|
    ensures |schedule| <= Work(p)
    decreases |schedule|
  {
    if schedule != [] {
      AdvanceKeepsInv(net, p, schedule[0], missing, have, marked, start);
      PlayKeepsInv(net, Advance(net, p, schedule[0]), schedule[1..], q, missing, have, marked, start);
    }
  }

  predicate AllDone(p: Pool) {
    forall w :: 0 <= w < |p.workers| ==> p.workers[w] == Done
  }

  /** The cache has grown by events that came back from lookups with a good signature, each under
      its own ID and marked new. */
  ghost predicate GrewByLookups(net: Net, q: Pool, have: Cache, marked: set<EventID>) {
    && KeyedByID(q.have) && Within(have, q.have) && marked <= q.marked
    && (forall id :: id in q.marked && id !in marked ==> SuppliedID(net, q, id))
    && forall id :: id in q.have && id !in have ==> id in q.marked && Supplied(net, q, q.have[id])
  }

  /** The lookup of an ID was answered in the time of the pool, and if the answer was good it is in
      the cache. */
  ghost predicate Settled(net: Net, q: Pool, id: EventID, start: nat) {
    exists t ::
      (t, id) in q.answered && start <= t < q.clock && (net.Good(t, id) ==> net.found(t, id).value.id in q.have)
  }

  /** Once all workers are done nothing is in flight. */
  lemma DoneIsSettled(net: Net, q: Pool, missing: seq<EventID>, start: nat, id: EventID)
    requires LookupInv(net, q, missing, start) && AllDone(q) && |q.workers| > 0 && id in missing
    ensures q.looked == missing && Settled(net, q, id, start)
  {
    assert q.workers[0] == Done;
    assert q.looked == missing;
    var t :| (t, id) in q.answered;
    assert Kept(net, q, t, id);
  }

  /** However the workers interleave and whatever the network answers: at every moment the cache has
      grown only by genuine answers marked new, and the queue is looked up front to back; and when
      all workers are done every missing ID has been looked up exactly once and is settled. */
  lemma EveryScheduleIsSound(net: Net, missing: seq<EventID>, n: nat, have: Cache, marked: set<EventID>, start: nat,
                             schedule: seq<nat>, q: Pool)
    requires KeyedByID(have) && Plays(net, Start(missing, n, have, marked, start), schedule, q)
    ensures GrewByLookups(net, q, have, marked) && q.looked <= missing
    ensures forall a :: a in q.answered ==> a.1 in missing && start <= a.0 < q.clock
    ensures n > 0 && AllDone(q) ==> q.looked == missing && forall id :: id in missing ==> Settled(net, q, id, start)
  {
    PlayKeepsInv(net, Start(missing, n, have, marked, start), schedule, q, missing, have, marked, start);
    if n > 0 && AllDone(q) {
      assert q.workers[0] == Done;
      forall id | id in missing
        ensures Settled(net, q, id, start)
      {
        DoneIsSettled(net, q, missing, start, id);
      }
    }
  }

  /** Runs the pool to its end under an arbitrary schedule. */
  method Fetch(net: Net, missing: seq<EventID>, n: nat, have: Cache, marked: set<EventID>, start: nat) returns (q: Pool)
    requires KeyedByID(have) && n > 0
    ensures GrewByLookups(net, q, have, marked) && q.looked == missing && start <= q.clock
    ensures forall a :: a in q.answered ==> a.1 in missing && start <= a.0 < q.clock
    ensures forall id :: id in missing ==> Settled(net, q, id, start)
  {
    q := Start(missing, n, have, marked, start);
    while !AllDone(q)
      invariant Inv(net, q, missing, have, marked, start) && |q.workers| == n
      decreases Work(q)
    {
      ghost var busy :| 0 <= busy < |q.workers| && q.workers[busy] != Done;
      assert Enabled(q, busy);
      var w: nat :| Enabled(q, w);
      AdvanceKeepsInv(net, q, w, missing, have, marked, start);
      q := Advance(net, q, w);
    }
    assert q.workers[0] == Done;
    forall id | id in missing
      ensures Settled(net, q, id, start)
    {
      DoneIsSettled(net, q, missing, start, id);
    }
  }
}
