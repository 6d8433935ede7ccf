/** Consuming an append-only log across crashes and restarts (internal/consumers.go). */
module LogConsumer {
  import opened Prelude

  type Partition = int

  /** sarama.OffsetOldest: start at the beginning of the stream. */
  const OFFSET_OLDEST := -2

  datatype PartitionOffset = PartitionOffset(partition: Partition, offset: int)

  datatype Failure = CannotConsume

  /** The last offset stored for a partition, if any. */
  ghost function LastStored(stored: seq<PartitionOffset>, p: Partition): (r: Option<int>) {
    if stored == [] then None
    else if stored[|stored| - 1].partition == p then Some(stored[|stored| - 1].offset)
    else LastStored(stored[..|stored| - 1], p)
  }

  /** Where an offset was stored for a partition, and no other after it. */
  ghost predicate StoredLastAt(stored: seq<PartitionOffset>, p: Partition, i: nat) {
    && i < |stored| && stored[i].partition == p
    && forall j :: i < j < |stored| ==> stored[j].partition != p
  }

  /** It is there exactly if one was stored, and then it is the last one. */
  lemma {:induction false} LastStoredIsLast(stored: seq<PartitionOffset>, p: Partition)
    ensures LastStored(stored, p).None? <==> forall i :: 0 <= i < |stored| ==> stored[i].partition != p
    ensures forall i: nat :: StoredLastAt(stored, p, i) ==> LastStored(stored, p) == Some(stored[i].offset)
    ensures LastStored(stored, p).Some? ==> exists i: nat :: StoredLastAt(stored, p, i)
  {
    if stored != [] {
      var n := |stored| - 1;
      LastStoredIsLast(stored[..n], p);
      if stored[n].partition == p {
        assert StoredLastAt(stored, p, n);
      } else {
        forall i: nat
          ensures StoredLastAt(stored, p, i) <==> StoredLastAt(stored[..n], p, i)
        {
        }
      }
    }
  }

  function StartOffset(stored: Option<int>): int {
    if stored.Some? then 1 + stored.value else OFFSET_OLDEST
  }

  ghost predicate Wanted(partitions: seq<Partition>, stored: seq<PartitionOffset>, p: Partition) {
    p in partitions || LastStored(stored, p).Some?
  }

  ghost predicate Opens(canOpen: (Partition, int) -> bool, stored: seq<PartitionOffset>, p: Partition) {
    canOpen(p, StartOffset(LastStored(stored, p)))
  }

  /** Opens one consumer per listed or stored partition, just after its stored offset or else at
      the oldest message; if one cannot be opened, none stays open. */
  method StartOffsets(partitions: seq<Partition>, stored: seq<PartitionOffset>, canOpen: (Partition, int) -> bool)
    returns (r: Result<map<Partition, int>, Failure>, open: set<Partition>)
    ensures r.Ok? <==> forall p :: Wanted(partitions, stored, p) ==> Opens(canOpen, stored, p)
    ensures r.Ok? ==> open == r.value.Keys
    ensures r.Ok? ==> forall p :: p in r.value <==> Wanted(partitions, stored, p)
    ensures r.Ok? ==> forall p :: p in r.value ==> r.value[p] == StartOffset(LastStored(stored, p))
    ensures r.Err? ==> open == {}
  {
    var offsets: map<Partition, int> := map[];
    for i := 0 to |partitions|
      invariant offsets.Keys == ToSet(partitions[..i])
      invariant forall p :: p in offsets ==> offsets[p] == OFFSET_OLDEST
    {
      assert partitions[..i + 1] == partitions[..i] + [partitions[i]];
      offsets := offsets[partitions[i] := OFFSET_OLDEST];
    }
    assert partitions[..|partitions|] == partitions;
    for i := 0 to |stored|
      invariant forall p :: p in offsets <==> Wanted(partitions, stored[..i], p)
      invariant forall p :: p in offsets ==> offsets[p] == StartOffset(LastStored(stored[..i], p))
    {
      assert stored[..i + 1][..i] == stored[..i];
      offsets := offsets[stored[i].partition := 1 + stored[i].offset];
    }
    assert stored[..|stored|] == stored;
    open := {};
    var todo := Enumerate(offsets.Keys);
    for i := 0 to |todo|
      invariant open == ToSet(todo[..i])
      invariant forall p :: p in open ==> Opens(canOpen, stored, p)
    {
      assert todo[..i + 1] == todo[..i] + [todo[i]];
      assert todo[i] in ToSet(todo);
      if !canOpen(todo[i], offsets[todo[i]]) {
        assert !Opens(canOpen, stored, todo[i]);
        return Err(CannotConsume), {};
      }
      open := open + {todo[i]};
    }
    assert todo[..|todo|] == todo;
    r := Ok(offsets);
  }

  // ---- runs with crashes ----

  /** Unsaved means that message `pos` has been processed and its offset not yet stored. */
  datatype Mode = Down | Reading(pos: nat) | Unsaved(pos: nat, shutdown: bool)

  /** One partition: the offsets in its log, the stored offset, its consumer, and the offsets of
      the messages handed to ProcessMessage so far. */
  datatype Part = Part(log: seq<int>, stored: Option<int>, mode: Mode, processed: seq<int>)

  datatype State = State(parts: map<Partition, Part>, crashes: nat)

  /** Stop is a graceful end of one consumer between messages; Crash takes the whole process. */
  datatype Step =
    | Append(p: Partition, offset: int)
    | Start
    | Process(p: Partition, shutdown: bool)
    | Save(p: Partition)
    | Stop(p: Partition)
    | Crash

  predicate Increasing(log: seq<int>) {
    forall i, j :: 0 <= i < j < |log| ==> log[i] < log[j]
  }

  /** How many messages come before an offset: where a consumer opened at it begins. */
  function FirstAt(log: seq<int>, offset: int): (n: nat)
    ensures n <= |log|
    ensures forall i :: 0 <= i < n ==> log[i] < offset
    ensures n < |log| ==> log[n] >= offset
  {
    if log == [] || log[0] >= offset then 0 else 1 + FirstAt(log[1..], offset)
  }

  /** Where the client library begins: -2 asks for the oldest message and -1 for those yet to come. */
  function OpenAt(log: seq<int>, offset: int): (n: nat)
    ensures n <= |log|
  {
    if offset == -2 then 0 else if offset == -1 then |log| else FirstAt(log, offset)
  }

  function StartPos(part: Part): nat {
    OpenAt(part.log, StartOffset(part.stored))
  }

  /** The step concerns this partition: starting and crashing concern them all. */
  predicate Affects(step: Step, p: Partition) {
    step.Start? || step.Crash? || step.p == p
  }

  predicate CanMove(part: Part, step: Step) {
    match step
    case Append(_, offset) => 0 <= offset && (|part.log| > 0 ==> part.log[|part.log| - 1] < offset)
    case Start => part.mode == Down
    case Process(_, _) => part.mode.Reading? && part.mode.pos < |part.log|
    case Save(_) => part.mode.Unsaved? && part.mode.pos < |part.log|
    case Stop(_) => part.mode.Reading?
    case Crash => true
  }

  function Moved(part: Part, step: Step): Part
    requires CanMove(part, step)
  {
    match step
    case Append(_, offset) => part.(log := part.log + [offset])
    case Start => part.(mode := Reading(StartPos(part)))
    case Process(_, shutdown) =>
      part.(mode := Unsaved(part.mode.pos, shutdown), processed := part.processed + [part.log[part.mode.pos]])
    case Save(_) =>
      part.(stored := Some(part.log[part.mode.pos]),
            mode := if part.mode.shutdown then Down else Reading(part.mode.pos + 1))
    case Stop(_) => part.(mode := Down)
    case Crash => part.(mode := Down)
  }

  predicate Enabled(s: State, step: Step) {
    && (forall p :: p in s.parts && Affects(step, p) ==> CanMove(s.parts[p], step))
    && (step.Start? || step.Crash? || step.p in s.parts)
  }

  function Next(s: State, step: Step): State
    requires Enabled(s, step)
  {
    State(map p | p in s.parts :: if Affects(step, p) then Moved(s.parts[p], step) else s.parts[p],
          if step.Crash? then s.crashes + 1 else s.crashes)
  }

  /** The history with every immediate repetition dropped. */
  ghost function Dedupe(h: seq<int>): (d: seq<int>)
    ensures |d| <= |h| && (h != [] ==> d != [] && d[|d| - 1] == h[|h| - 1])
  {
    if |h| <= 1 then h
    else if h[|h| - 1] == h[|h| - 2] then Dedupe(h[..|h| - 1])
    else Dedupe(h[..|h| - 1]) + [h[|h| - 1]]
  }

  lemma DedupeAppend(h: seq<int>, x: int)
    ensures Dedupe(h + [x]) == if h != [] && h[|h| - 1] == x then Dedupe(h) else Dedupe(h) + [x]
  {
    assert (h + [x])[..|h|] == h;
  }

  /** Messages whose offset has been stored. */
  function Saved(part: Part): nat {
    StartPos(part)
  }

  /** Messages `0..done` of the log were processed, `0..saved` of them stored; at most one is not
      saved, and it is about to be repeated unless it is the one in flight. */
  ghost predicate Counts(mode: Mode, saved: nat, done: nat) {
    && (done == saved || done == saved + 1)
    && (mode.Reading? ==> mode.pos == saved)
    && (mode.Unsaved? ==> mode.pos == saved && done == saved + 1)
  }

  ghost function ToRepeat(mode: Mode, saved: nat, done: nat): nat {
    if done == saved + 1 && !mode.Unsaved? then 1 else 0
  }

  /** The stored offset is that of the last saved message. */
  ghost predicate GoodStore(part: Part) {
    && Increasing(part.log) && (forall i :: 0 <= i < |part.log| ==> 0 <= part.log[i])
    && (part.stored.Some? ==> Saved(part) > 0 && part.log[Saved(part) - 1] == part.stored.value)
  }

  /** The history is a prefix of the log up to repetitions, and each repetition cost a crash. */
  ghost predicate GoodHistory(h: seq<int>, log: seq<int>, mode: Mode, saved: nat, crashes: nat) {
    var done := |Dedupe(h)|;
    && Dedupe(h) <= log
    && Counts(mode, saved, done)
    && |h| - done + ToRepeat(mode, saved, done) <= crashes
  }

  ghost predicate GoodPart(part: Part, crashes: nat) {
    GoodStore(part) && GoodHistory(part.processed, part.log, part.mode, Saved(part), crashes)
  }

  /** The last message in a prefix of the log tells how long the prefix is. */
  lemma LastTells(d: seq<int>, log: seq<int>, m: nat)
    requires Increasing(log) && d <= log && m < |log| && (|d| == m || |d| == m + 1)
    ensures d != [] && d[|d| - 1] == log[m] <==> |d| == m + 1
    ensures |d| == m ==> d + [log[m]] == log[..m + 1]
    ensures |d| == m + 1 ==> d == log[..m + 1]
  {
    assert d == log[..|d|];
    if |d| == m && m > 0 { assert log[m - 1] < log[m]; }
  }

  /** Processing message `m` again, or for the first time, leaves the history a prefix of the log. */
  lemma HistoryGrows(h: seq<int>, log: seq<int>, m: nat)
    requires Increasing(log) && Dedupe(h) <= log && m < |log|
    requires |Dedupe(h)| == m || |Dedupe(h)| == m + 1
    ensures Dedupe(h + [log[m]]) == log[..m + 1]
  {
    DedupeAppend(h, log[m]);
    LastTells(Dedupe(h), log, m);
  }

  lemma ProcessKeepsGood(part: Part, crashes: nat, shutdown: bool)
    requires GoodPart(part, crashes) && part.mode.Reading? && part.mode.pos < |part.log|
    ensures GoodPart(part.(mode := Unsaved(part.mode.pos, shutdown),
                           processed := part.processed + [part.log[part.mode.pos]]), crashes)
  {
    var m := part.mode.pos;
    var part' := part.(mode := Unsaved(m, shutdown), processed := part.processed + [part.log[m]]);
    HistoryGrows(part.processed, part.log, m);
    assert Saved(part') == Saved(part) && GoodStore(part');
    assert |Dedupe(part'.processed)| == m + 1;
    assert GoodHistory(part'.processed, part'.log, part'.mode, Saved(part'), crashes);
  }

  /** Reopening just after a logged offset begins at the next message. */
  lemma FirstAfter(log: seq<int>, m: nat)
    requires Increasing(log) && 0 < m <= |log| && 0 <= log[m - 1]
    ensures OpenAt(log, 1 + log[m - 1]) == m
  {
    assert forall i :: 0 <= i < m ==> log[i] <= log[m - 1];
    assert m < |log| ==> log[m] > log[m - 1];
  }

  lemma SaveKeepsGood(part: Part, crashes: nat, mode: Mode)
    requires GoodPart(part, crashes) && part.mode.Unsaved? && part.mode.pos < |part.log|
    requires mode == Down || mode == Reading(part.mode.pos + 1)
    ensures GoodPart(part.(stored := Some(part.log[part.mode.pos]), mode := mode), crashes)
  {
    FirstAfter(part.log, part.mode.pos + 1);
  }

  lemma AppendKeepsGood(part: Part, crashes: nat, offset: int)
    requires GoodPart(part, crashes) && 0 <= offset
    requires |part.log| > 0 ==> part.log[|part.log| - 1] < offset
    ensures GoodPart(part.(log := part.log + [offset]), crashes)
  {
    var log', m := part.log + [offset], Saved(part);
    assert Increasing(log') && part.log <= log';
    if part.stored.Some? {
      assert log'[m - 1] == part.stored.value;
      FirstAfter(log', m);
    }
  }

  /** Going down or coming up moves nothing but the consumer. */
  lemma ModeKeepsGood(part: Part, crashes: nat, mode: Mode, crashes': nat)
    requires GoodPart(part, crashes)
    requires mode == Down || (part.mode == Down && mode == Reading(StartPos(part)))
    requires crashes' == crashes + 1 || (crashes' == crashes && !part.mode.Unsaved?)
    ensures GoodPart(part.(mode := mode), crashes')
  {
    assert Saved(part.(mode := mode)) == Saved(part);
  }

  ghost predicate Inv(s: State) {
    forall p :: p in s.parts ==> GoodPart(s.parts[p], s.crashes)
  }

  lemma MovedKeepsGood(part: Part, crashes: nat, step: Step)
    requires GoodPart(part, crashes) && CanMove(part, step)
    ensures GoodPart(Moved(part, step), if step.Crash? then crashes + 1 else crashes)
  {
    match step
    case Append(_, offset) => AppendKeepsGood(part, crashes, offset);
    case Process(_, shutdown) => ProcessKeepsGood(part, crashes, shutdown);
    case Save(_) => SaveKeepsGood(part, crashes, Moved(part, step).mode);
    case Stop(_) => ModeKeepsGood(part, crashes, Down, crashes);
    case Crash => ModeKeepsGood(part, crashes, Down, crashes + 1);
    case Start => ModeKeepsGood(part, crashes, Reading(StartPos(part)), crashes);
  }

  lemma NextKeepsInv(s: State, step: Step)
    requires Inv(s) && Enabled(s, step)
    ensures Inv(Next(s, step))
  {
    forall q | q in Next(s, step).parts
      ensures GoodPart(Next(s, step).parts[q], Next(s, step).crashes)
    {
      if Affects(step, q) { MovedKeepsGood(s.parts[q], s.crashes, step); }
    }
  }

  ghost predicate Init(s: State) {
    s.crashes == 0 && forall p :: p in s.parts ==> s.parts[p] == Part([], None, Down, [])
  }

  ghost predicate IsRun(states: seq<State>, steps: seq<Step>) {
    && |states| == |steps| + 1
    && Init(states[0])
    && forall k :: 0 <= k < |steps| ==> Enabled(states[k], steps[k]) && states[k + 1] == Next(states[k], steps[k])
  }

  lemma {:induction false} RunKeepsInv(states: seq<State>, steps: seq<Step>, n: nat)
    requires IsRun(states, steps) && n < |states|
    ensures Inv(states[n])
  {
    if n > 0 {
      RunKeepsInv(states, steps, n - 1);
      NextKeepsInv(states[n - 1], steps[n - 1]);
    }
  }

  /** From the first, to the next or to the same again. */
  ghost predicate NoneSkipped(pos: seq<nat>) {
    && (pos != [] ==> pos[0] == 0)
    && forall i, j :: 0 <= i && j == i + 1 && j < |pos| ==> pos[j] == pos[i] || pos[j] == pos[i] + 1
  }

  /** The messages of a history are the ones at these positions of the log. */
  ghost predicate Located(pos: seq<nat>, h: seq<int>, log: seq<int>) {
    |pos| == |h| && forall i :: 0 <= i < |pos| ==> pos[i] < |log| && h[i] == log[pos[i]]
  }

  lemma OneMorePosition(pos: seq<nat>, m: nat, h: seq<int>, x: int, log: seq<int>)
    requires NoneSkipped(pos) && Located(pos, h, log) && m < |log| && x == log[m]
    requires if pos == [] then m == 0 else m == pos[|pos| - 1] || m == pos[|pos| - 1] + 1
    ensures NoneSkipped(pos + [m]) && Located(pos + [m], h + [x], log)
  {
  }

  lemma DedupeLast(g: seq<int>, x: int, log: seq<int>)
    requires Dedupe(g + [x]) <= log
    ensures Dedupe(g) <= log && Dedupe(g + [x]) != [] && x == log[|Dedupe(g + [x])| - 1]
    ensures |Dedupe(g + [x])| == |Dedupe(g)| + 1 || (g != [] && |Dedupe(g + [x])| == |Dedupe(g)|)
  {
    var d := Dedupe(g);
    DedupeAppend(g, x);
    if g != [] && g[|g| - 1] == x {
      assert d[|d| - 1] == x;
    } else {
      assert d <= d + [x];
    }
  }

  /** A history that is a prefix of the log up to repetitions goes through the log from its first
      message, to the next message or to the same again. */
  lemma {:induction false} Positions(h: seq<int>, log: seq<int>) returns (pos: seq<nat>)
    requires Dedupe(h) <= log
    ensures Located(pos, h, log) && NoneSkipped(pos) && (pos != [] ==> pos[|pos| - 1] == |Dedupe(h)| - 1)
  {
    pos := [];
    if h != [] {
      var g, x := h[..|h| - 1], h[|h| - 1];
      assert h == g + [x];
      DedupeLast(g, x, log);
      var m := |Dedupe(h)| - 1;
      pos := Positions(g, log);
      OneMorePosition(pos, m, g, x, log);
      pos := pos + [m];
    }
  }

  /** Over any sequence of crashes and restarts a partition's messages are processed in log order:
      `pos` are their positions, which begin at 0 and never skip one.  The stored offset is that of
      the last but one message at the earliest and never runs ahead, and each crash costs at most one
      repetition. */
  lemma AtLeastOnceInOrder(states: seq<State>, steps: seq<Step>, n: nat, p: Partition) returns (pos: seq<nat>)
    requires IsRun(states, steps) && n < |states| && p in states[n].parts
    ensures Located(pos, states[n].parts[p].processed, states[n].parts[p].log) && NoneSkipped(pos)
    ensures var part, done := states[n].parts[p], if pos == [] then 0 else pos[|pos| - 1] + 1;
            && Saved(part) <= done <= Saved(part) + 1 && |part.processed| <= done + states[n].crashes
            && (part.stored.None? ==> Saved(part) == 0)
            && (part.stored.Some? ==> 0 < Saved(part) <= |part.log| && part.log[Saved(part) - 1] == part.stored.value)
  {
    RunKeepsInv(states, steps, n);
    pos := Positions(states[n].parts[p].processed, states[n].parts[p].log);
  }

  /** In every run the message processed is the first that is not saved; saving it stores its offset
      and moves on to the next, unless the consumer was told to shut down; and a restart begins at
      the first that is not saved. */
  lemma ConsumerGoesOn(states: seq<State>, steps: seq<Step>, n: nat, p: Partition)
    requires IsRun(states, steps) && n < |steps| && p in states[n].parts
    ensures p in states[n + 1].parts
    ensures var part, part' := states[n].parts[p], states[n + 1].parts[p];
            match steps[n]
            case Append(q, offset) => part' == if q == p then part.(log := part.log + [offset]) else part
            case Start => part.mode == Down && part' == part.(mode := Reading(Saved(part)))
            case Process(q, shutdown) =>
              if q != p then part' == part else
                && Saved(part) < |part.log| && part'.processed == part.processed + [part.log[Saved(part)]]
                && part'.mode == Unsaved(Saved(part), shutdown) && part'.stored == part.stored && part'.log == part.log
            case Save(q) =>
              if q != p then part' == part else
                && part.mode.Unsaved? && part.processed != []
                && part'.stored == Some(part.processed[|part.processed| - 1])
                && Saved(part') == Saved(part) + 1
                && part'.mode == (if part.mode.shutdown then Down else Reading(Saved(part')))
                && part'.processed == part.processed && part'.log == part.log
            case Stop(q) => part' == if q == p then part.(mode := Down) else part
            case Crash => part' == part.(mode := Down) && states[n + 1].crashes == states[n].crashes + 1
  {
    RunKeepsInv(states, steps, n);
    RunKeepsInv(states, steps, n + 1);
    var part := states[n].parts[p];
    assert GoodPart(part, states[n].crashes);
    if steps[n] == Save(p) {
      FirstAfter(part.log, part.mode.pos + 1);
      LastTells(Dedupe(part.processed), part.log, part.mode.pos);
    }
  }
}
