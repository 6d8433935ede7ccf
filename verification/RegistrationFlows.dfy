/** Interactive-auth stages of a registration (clientapi/routing/register.go): deciding whether a
    flow is complete, and the session store that feeds the decision. */
module RegistrationFlows {
  import opened Prelude

  type Stage = string
  type SessionID = string

  const PASSWORD: Stage := "m.login.password"
  const DUMMY: Stage := "m.login.dummy"
  const SHARED_SECRET: Stage := "org.matrix.login.shared_secret"
  const RECAPTCHA: Stage := "m.login.recaptcha"

  // ---- deciding one flow ----

  /** Go's `<` on strings. */
  predicate Less(a: string, b: string) {
    b != [] && (a == [] || a[0] < b[0] || (a[0] == b[0] && Less(a[1..], b[1..])))
  }

  lemma {:induction false} LessIsTotal(a: string, b: string)
    ensures Less(a, b) || Less(b, a) || a == b
    ensures !(Less(a, b) && (Less(b, a) || a == b))
  {
    if a != [] && b != [] {
      LessIsTotal(a[1..], b[1..]);
      if a[1..] == b[1..] && a[0] == b[0] { assert a == [a[0]] + a[1..] == [b[0]] + b[1..] == b; }
    }
  }

  lemma {:induction false} LessIsTransitive(a: string, b: string, c: string)
    requires Less(a, b) && Less(b, c)
    ensures Less(a, c)
  {
    if a != [] && a[0] == b[0] == c[0] { LessIsTransitive(a[1..], b[1..], c[1..]); }
  }

  ghost predicate Sorted(s: seq<Stage>) {
    forall i, j :: 0 <= i < j < |s| ==> !Less(s[j], s[i])
  }

  function Insert(x: Stage, s: seq<Stage>): (r: seq<Stage>)
    requires Sorted(s)
    ensures Sorted(r) && multiset(r) == multiset(s) + multiset{x}
  {
    if s == [] then [x]
    else if !Less(s[0], x) then
      assert multiset([x] + s) == multiset(s) + multiset{x};
      InsertedFirst(x, s);
      [x] + s
    else
      var t := Insert(x, s[1..]);
      assert s == [s[0]] + s[1..];
      InsertedLater(x, s, t);
      [s[0]] + t
  }

  lemma InsertedFirst(x: Stage, s: seq<Stage>)
    requires Sorted(s) && s != [] && !Less(s[0], x)
    ensures Sorted([x] + s)
  {
    var r := [x] + s;
    forall i, j | 0 <= i < j < |r|
      ensures !Less(r[j], r[i])
    {
      if i == 0 && j > 1 && Less(s[j - 1], x) {
        LessIsTotal(s[0], s[j - 1]);
        if Less(s[0], s[j - 1]) { LessIsTransitive(s[0], s[j - 1], x); }
      }
    }
  }

  lemma InsertedLater(x: Stage, s: seq<Stage>, t: seq<Stage>)
    requires s != [] && Sorted(s) && Less(s[0], x) && Sorted(t) && multiset(t) == multiset(s[1..]) + multiset{x}
    ensures Sorted([s[0]] + t)
  {
    forall y | y in t
      ensures !Less(y, s[0])
    {
      assert y in multiset(t);
      LessIsTotal(s[0], x);
    }
  }

  /** Stands for sort.Slice on a copy: the sorted permutation. */
  function SortStages(s: seq<Stage>): (r: seq<Stage>)
    ensures Sorted(r) && multiset(r) == multiset(s)
  {
    if s == [] then []
    else
      assert s == [s[0]] + s[1..];
      Insert(s[0], SortStages(s[1..]))
  }

  lemma DropFirst(s: seq<Stage>)
    requires s != []
    ensures multiset(s) == multiset{s[0]} + multiset(s[1..])
  {
    assert s == [s[0]] + s[1..];
  }

  /** A completed stage that is not the required one is not needed any more. */
  lemma SkipIsHarmless(completed: seq<Stage>, required: seq<Stage>)
    requires completed != [] && required != [] && Sorted(completed) && Sorted(required)
    requires completed[0] != required[0]
    ensures multiset(required) <= multiset(completed) <==> multiset(required) <= multiset(completed[1..])
  {
    DropFirst(completed);
    if multiset(required) <= multiset(completed) {
      assert required[0] in multiset(completed);
      LessIsTotal(completed[0], required[0]);
      assert completed[0] !in required;
    }
  }

  lemma MatchIsExact(completed: seq<Stage>, required: seq<Stage>)
    requires completed != [] && required != [] && completed[0] == required[0]
    ensures multiset(required) <= multiset(completed) <==> multiset(required[1..]) <= multiset(completed[1..])
  {
    DropFirst(completed);
    DropFirst(required);
    if multiset(required) <= multiset(completed) {
      forall y
        ensures multiset(required[1..])[y] <= multiset(completed[1..])[y]
      {
        assert multiset(required)[y] <= multiset(completed)[y];
      }
    }
  }

  ghost predicate Included(required: seq<Stage>, completed: seq<Stage>) {
    multiset(required) <= multiset(completed)
  }

  /** One round of the merge decides nothing it should not. */
  lemma MergeStep(completed: seq<Stage>, required: seq<Stage>, i: nat, j: nat)
    requires Sorted(completed) && Sorted(required) && i < |completed| && j < |required|
    ensures Included(required[j..], completed[i..]) <==>
            Included(required[if completed[i] == required[j] then j + 1 else j..], completed[i + 1..])
  {
    assert completed[i..][1..] == completed[i + 1..] && required[j..][1..] == required[j + 1..];
    if completed[i] == required[j] {
      MatchIsExact(completed[i..], required[j..]);
    } else {
      SkipIsHarmless(completed[i..], required[j..]);
    }
  }

  /** Nothing left to require, or nothing left to meet it with. */
  lemma MergeEnds(completed: seq<Stage>, required: seq<Stage>)
    ensures required == [] ==> Included(required, completed)
    ensures required != [] && completed == [] ==> !Included(required, completed)
  {
    if required != [] { assert required[0] in multiset(required); }
  }

  /** The greedy merge over sorted lists. */
  method Merge(completed: seq<Stage>, required: seq<Stage>) returns (ok: bool)
    requires Sorted(completed) && Sorted(required)
    ensures ok <==> Included(required, completed)
  {
    var i, j := 0, 0;
    assert completed[0..] == completed && required[0..] == required;
    while j < |required|
      invariant 0 <= i <= |completed| && 0 <= j <= |required|
      invariant Included(required, completed) <==> Included(required[j..], completed[i..])
      decreases |completed| - i
    {
      if i >= |completed| {
        MergeEnds(completed[i..], required[j..]);
        return false;
      }
      MergeStep(completed, required, i, j);
      if completed[i] == required[j] {
        j := j + 1;
      }
      i := i + 1;
    }
    MergeEnds(completed[i..], required[j..]);
    return true;
  }

  /** A flow is satisfied exactly when every required stage was completed as often as it is
      required, in whatever order. */
  method CheckFlows(completedStages: seq<Stage>, requiredStages: seq<Stage>) returns (ok: bool)
    ensures ok <==> multiset(requiredStages) <= multiset(completedStages)
  {
    ok := Merge(SortStages(completedStages), SortStages(requiredStages));
  }

  ghost predicate Covers(stages: seq<Stage>, flows: seq<seq<Stage>>) {
    exists flow :: flow in flows && multiset(flow) <= multiset(stages)
  }

  /** Any one of the allowed flows is enough. */
  method CheckFlowCompleted(stages: seq<Stage>, flows: seq<seq<Stage>>) returns (ok: bool)
    ensures ok <==> Covers(stages, flows)
  {
    for k := 0 to |flows|
      invariant forall flow :: flow in flows[..k] ==> !(multiset(flow) <= multiset(stages))
    {
      var covered := CheckFlows(stages, flows[k]);
      if covered { return true; }
      assert flows[..k + 1] == flows[..k] + [flows[k]];
    }
    assert flows[..|flows|] == flows;
    return false;
  }

  // ---- the session store ----

  type Sessions = map<SessionID, seq<Stage>>

  function Stages(sessions: Sessions, id: SessionID): (r: seq<Stage>) {
    if id in sessions then sessions[id] else []
  }

  function Record(sessions: Sessions, id: SessionID, stage: Stage): Sessions {
    if stage in Stages(sessions, id) then sessions else sessions[id := Stages(sessions, id) + [stage]]
  }

  datatype Config = Config(registrationDisabled: bool, hasAppServices: bool, flows: seq<seq<Stage>>)

  datatype MacCheck = MacValid | MacWrong | MacFailed

  /** A registration request, with the answers of the outside checks it would trigger. */
  datatype Request = Request(session: SessionID, authType: string, asAppService: bool,
                             exclusiveUsername: bool, captchaOk: bool, mac: MacCheck)

  datatype Outcome =
    | AppServiceRegistration | Forbidden | UsernameReserved | BadCaptcha | MacError | MacIncorrect | Unimplemented
    | CompleteRegistration | MoreStages(completed: seq<Stage>)

  /** The part before the session store is consulted: a reply, or a stage to record. */
  datatype Gate = Reply(outcome: Outcome) | Proceed(stage: Option<Stage>)

  function CheckRequest(cfg: Config, r: Request): Gate {
    if r.asAppService then Reply(AppServiceRegistration)
    else if cfg.registrationDisabled && r.authType != SHARED_SECRET then Reply(Forbidden)
    else if cfg.hasAppServices && r.exclusiveUsername then Reply(UsernameReserved)
    else if r.authType == RECAPTCHA then (if r.captchaOk then Proceed(Some(RECAPTCHA)) else Reply(BadCaptcha))
    else if r.authType == SHARED_SECRET then
      match r.mac
      case MacFailed => Reply(MacError)
      case MacWrong => Reply(MacIncorrect)
      case MacValid => Proceed(Some(SHARED_SECRET))
    else if r.authType == DUMMY then Proceed(Some(DUMMY))
    else if r.authType == "" then Proceed(None)
    else Reply(Unimplemented)
  }

  function Recorded(sessions: Sessions, id: SessionID, stage: Option<Stage>): Sessions {
    if stage.Some? then Record(sessions, id, stage.value) else sessions
  }

  /** A request that is not turned away before its stage is looked at. */
  predicate Admitted(cfg: Config, r: Request) {
    && !r.asAppService
    && (cfg.registrationDisabled ==> r.authType == "org.matrix.login.shared_secret")
    && !(cfg.hasAppServices && r.exclusiveUsername)
  }

  /** A stage that a request completes: the one it names, if what that stage asks for is there. */
  predicate Completes(cfg: Config, r: Request, stage: Stage) {
    && Admitted(cfg, r) && r.authType == stage
    && (|| stage == "m.login.dummy"
        || (stage == "m.login.recaptcha" && r.captchaOk)
        || (stage == "org.matrix.login.shared_secret" && r.mac == MacValid))
  }

  /** Recorded at the end, unless it was there. */
  ghost predicate StageAdded(before: Sessions, after: Sessions, id: SessionID, stage: Stage) {
    if stage in Stages(before, id) then after == before else after == before[id := Stages(before, id) + [stage]]
  }

  /** What each reply tells about the request and the session store: a refused request changes
      nothing; any other records the stage it completes, registers an account exactly when the session
      then covers an allowed flow, and otherwise says what is complete so far. */
  ghost predicate Handled(cfg: Config, r: Request, before: Sessions, after: Sessions, o: Outcome) {
    HandledAs(cfg, r, before, after, o, Covers(Stages(after, r.session), cfg.flows))
  }

  ghost predicate HandledAs(cfg: Config, r: Request, before: Sessions, after: Sessions, o: Outcome, covered: bool) {
    if o.CompleteRegistration? || o.MoreStages? then
      && (|| (Admitted(cfg, r) && r.authType == "" && after == before)
          || (Completes(cfg, r, r.authType) && StageAdded(before, after, r.session, r.authType)))
      && o == if covered then CompleteRegistration else MoreStages(Stages(after, r.session))
    else
      after == before && Refused(cfg, r, o)
  }

  /** Which request gets which refusal. */
  predicate Refused(cfg: Config, r: Request, o: Outcome) {
    match o
    case AppServiceRegistration => r.asAppService
    case Forbidden => !r.asAppService && cfg.registrationDisabled && r.authType != "org.matrix.login.shared_secret"
    case UsernameReserved =>
      && !r.asAppService && (cfg.registrationDisabled ==> r.authType == "org.matrix.login.shared_secret")
      && cfg.hasAppServices && r.exclusiveUsername
    case BadCaptcha => Admitted(cfg, r) && r.authType == "m.login.recaptcha" && !r.captchaOk
    case MacError => Admitted(cfg, r) && r.authType == "org.matrix.login.shared_secret" && r.mac == MacFailed
    case MacIncorrect => Admitted(cfg, r) && r.authType == "org.matrix.login.shared_secret" && r.mac == MacWrong
    case Unimplemented =>
      && Admitted(cfg, r)
      && r.authType !in {"", "m.login.dummy", "m.login.recaptcha", "org.matrix.login.shared_secret"}
    case _ => false
  }

  /** The branches taken for a request are the ones its reply tells of. */
  lemma GateExactly(cfg: Config, r: Request)
    ensures match CheckRequest(cfg, r)
            case Reply(outcome) => Refused(cfg, r, outcome)
            case Proceed(None) => Admitted(cfg, r) && r.authType == ""
            case Proceed(Some(stage)) => Completes(cfg, r, stage)
  {
  }

  /** A request is refused in one way only, or not at all. */
  lemma GateIsDecided(cfg: Config, r: Request, o: Outcome)
    ensures Refused(cfg, r, o) ==> CheckRequest(cfg, r) == Reply(o)
    ensures Admitted(cfg, r) && r.authType == "" ==> CheckRequest(cfg, r) == Proceed(None)
    ensures Completes(cfg, r, r.authType) ==> CheckRequest(cfg, r) == Proceed(Some(r.authType))
  {
  }

  lemma HandledByGate(cfg: Config, r: Request, before: Sessions, after: Sessions, o: Outcome, covered: bool)
    requires HandledAs(cfg, r, before, after, o, covered)
    ensures match CheckRequest(cfg, r)
            case Reply(outcome) => o == outcome && after == before
            case Proceed(stage) =>
              && after == Recorded(before, r.session, stage)
              && o == if covered then CompleteRegistration else MoreStages(Stages(after, r.session))
  {
    GateIsDecided(cfg, r, o);
  }

  /** The cases exclude each other, so the request and the store determine the reply. */
  lemma HandledIsDetermined(cfg: Config, r: Request, before: Sessions, x: Sessions, o: Outcome, y: Sessions, u: Outcome)
    requires Handled(cfg, r, before, x, o) && Handled(cfg, r, before, y, u)
    ensures o == u && x == y
  {
    HandledByGate(cfg, r, before, x, o, Covers(Stages(x, r.session), cfg.flows));
    HandledByGate(cfg, r, before, y, u, Covers(Stages(y, r.session), cfg.flows));
  }

  class SessionsDict {
    var sessions: Sessions

    constructor ()
      ensures sessions == map[]
    {
      sessions := map[];
    }

    method GetCompletedStages(id: SessionID) returns (r: seq<Stage>)
      ensures r == Stages(sessions, id)
    {
      if id in sessions { return sessions[id]; }
      return [];
    }

    method AddCompletedSessionStage(id: SessionID, stage: Stage)
      modifies this
      ensures sessions == Record(old(sessions), id, stage) && StageAdded(old(sessions), sessions, id, stage)
    {
      var current := if id in sessions then sessions[id] else [];
      for i := 0 to |current|
        invariant stage !in current[..i]
        invariant sessions == old(sessions)
      {
        if current[i] == stage { return; }
      }
      assert current[..|current|] == current;
      sessions := sessions[id := current + [stage]];
    }

    /** One request served without interruption. */
    method HandleRegistrationFlow(cfg: Config, r: Request) returns (o: Outcome)
      modifies this
      ensures Handled(cfg, r, old(sessions), sessions, o)
    {
      if r.asAppService { return AppServiceRegistration; }
      if cfg.registrationDisabled && r.authType != SHARED_SECRET { return Forbidden; }
      if cfg.hasAppServices && r.exclusiveUsername { return UsernameReserved; }
      if r.authType == RECAPTCHA {
        if !r.captchaOk { return BadCaptcha; }
        AddCompletedSessionStage(r.session, RECAPTCHA);
      } else if r.authType == SHARED_SECRET {
        match r.mac
        case MacFailed => return MacError;
        case MacWrong => return MacIncorrect;
        case MacValid => AddCompletedSessionStage(r.session, SHARED_SECRET);
      } else if r.authType == DUMMY {
        AddCompletedSessionStage(r.session, DUMMY);
      } else if r.authType != "" {
        return Unimplemented;
      }
      var stages := GetCompletedStages(r.session);
      var complete := CheckFlowCompleted(stages, cfg.flows);
      if complete { return CompleteRegistration; }
      return MoreStages(stages);
    }
  }

  // ---- interleaved requests ----

  type RequestID = nat

  datatype Completion = Completion(session: SessionID, stages: seq<Stage>)

  /** `waiting` requests have recorded their stage and not yet read the store back; `log` lists
      every stage recorded so far. */
  datatype State = State(
    sessions: Sessions,
    waiting: map<RequestID, SessionID>,
    log: seq<(SessionID, Stage)>,
    registered: seq<Completion>)

  const NEW := State(map[], map[], [], [])

  /** RecordElsewhere is the recaptcha fallback page or a password change, which share the store. */
  datatype Step =
    | Begin(id: RequestID, r: Request)
    | End(id: RequestID)
    | RecordElsewhere(session: SessionID, stage: Stage)

  predicate Enabled(s: State, step: Step) {
    match step
    case Begin(id, _) => id !in s.waiting
    case End(id) => id in s.waiting
    case RecordElsewhere(_, stage) => stage == RECAPTCHA || stage == PASSWORD
  }

  function LogStage(s: State, id: SessionID, stage: Stage): State {
    s.(sessions := Record(s.sessions, id, stage), log := s.log + [(id, stage)])
  }

  ghost function Next(cfg: Config, s: State, step: Step): State
    requires Enabled(s, step)
  {
    match step
    case Begin(id, r) => (
      match CheckRequest(cfg, r)
      case Reply(_) => s
      case Proceed(stage) =>
        var s' := if stage.Some? then LogStage(s, r.session, stage.value) else s;
        s'.(waiting := s'.waiting[id := r.session]))
    case End(id) =>
      var stages := Stages(s.sessions, s.waiting[id]);
      var s' := s.(waiting := s.waiting - {id});
      if Covers(stages, cfg.flows) then s'.(registered := s.registered + [Completion(s.waiting[id], stages)]) else s'
    case RecordElsewhere(session, stage) => LogStage(s, session, stage)
  }

  ghost predicate IsRun(cfg: Config, states: seq<State>, steps: seq<Step>) {
    && |states| == |steps| + 1
    && states[0] == NEW
    && forall k :: 0 <= k < |steps| ==> Enabled(states[k], steps[k]) && states[k + 1] == Next(cfg, states[k], steps[k])
  }

  /** A request that is begun and, unless it was refused, ended. */
  ghost function Served(cfg: Config, s: State, id: RequestID, r: Request): State
    requires id !in s.waiting
  {
    var s' := Next(cfg, s, Begin(id, r));
    if id in s'.waiting then Next(cfg, s', End(id)) else s'
  }

  /** Serving a request without interruption is its beginning followed by its end: the same sessions,
      and a registration exactly when the reply says so. */
  lemma HandledIsServed(cfg: Config, s: State, id: RequestID, r: Request, after: Sessions, o: Outcome)
    requires id !in s.waiting && Handled(cfg, r, s.sessions, after, o)
    ensures var s' := Served(cfg, s, id, r);
            && s'.sessions == after && s'.waiting == s.waiting
            && s'.registered == s.registered +
                  (if o == CompleteRegistration then [Completion(r.session, Stages(after, r.session))] else [])
  {
    HandledByGate(cfg, r, s.sessions, after, o, Covers(Stages(after, r.session), cfg.flows));
    var s' := Next(cfg, s, Begin(id, r));
    if id in s'.waiting { assert s'.waiting - {id} == s.waiting; }
  }

  ghost predicate GoodSession(s: State, id: SessionID) {
    && Distinct(Stages(s.sessions, id))
    && forall stage :: stage in Stages(s.sessions, id) <==> (id, stage) in s.log
  }

  ghost predicate GoodCompletion(cfg: Config, s: State, c: Completion) {
    Covers(c.stages, cfg.flows) && c.stages <= Stages(s.sessions, c.session)
  }

  ghost predicate Inv(cfg: Config, s: State) {
    && (forall id :: GoodSession(s, id))
    && (forall c :: c in s.registered ==> GoodCompletion(cfg, s, c))
  }

  lemma NextKeepsInv(cfg: Config, s: State, step: Step)
    requires Inv(cfg, s) && Enabled(s, step)
    ensures Inv(cfg, Next(cfg, s, step))
  {
    var s' := Next(cfg, s, step);
    forall id
      ensures GoodSession(s', id)
    {
      assert GoodSession(s, id);
    }
    forall c | c in s'.registered
      ensures GoodCompletion(cfg, s', c)
    {
      if c in s.registered {
        assert GoodCompletion(cfg, s, c);
        NextGrows(cfg, s, step, c.session);
      }
    }
  }

  lemma NextGrows(cfg: Config, s: State, step: Step, id: SessionID)
    requires Enabled(s, step)
    ensures Stages(s.sessions, id) <= Stages(Next(cfg, s, step).sessions, id)
  {
  }

  lemma {:induction false} RunKeepsInv(cfg: Config, states: seq<State>, steps: seq<Step>, n: nat)
    requires IsRun(cfg, states, steps) && n < |states|
    ensures Inv(cfg, states[n])
  {
    if n > 0 {
      RunKeepsInv(cfg, states, steps, n - 1);
      NextKeepsInv(cfg, states[n - 1], steps[n - 1]);
    }
  }

  /** A session's stages never shrink or change order. */
  lemma {:induction false} StagesOnlyGrow(cfg: Config, states: seq<State>, steps: seq<Step>, i: nat, j: nat,
                                          id: SessionID)
    requires IsRun(cfg, states, steps) && i <= j < |states|
    ensures Stages(states[i].sessions, id) <= Stages(states[j].sessions, id)
  {
    if i < j {
      StagesOnlyGrow(cfg, states, steps, i, j - 1, id);
      NextGrows(cfg, states[j - 1], steps[j - 1], id);
    }
  }

  /** Over every trace of interleaved requests: a session's stages are duplicate-free and exactly
      those recorded for it; an account was registered only in a session whose recorded stages
      cover an allowed flow, and one that repeats no stage. */
  lemma OnlyCompleteFlowsRegister(cfg: Config, states: seq<State>, steps: seq<Step>, n: nat, id: SessionID)
    requires IsRun(cfg, states, steps) && n < |states|
    ensures Distinct(Stages(states[n].sessions, id))
    ensures forall stage :: stage in Stages(states[n].sessions, id) <==> (id, stage) in states[n].log
    ensures forall c :: c in states[n].registered ==>
              exists flow :: && flow in cfg.flows && Distinct(flow)
                             && forall stage :: stage in flow ==> (c.session, stage) in states[n].log
  {
    RunKeepsInv(cfg, states, steps, n);
    var s := states[n];
    assert GoodSession(s, id);
    forall c | c in s.registered
      ensures exists flow ::
                flow in cfg.flows && Distinct(flow) && forall stage :: stage in flow ==> (c.session, stage) in s.log
    {
      assert GoodCompletion(cfg, s, c) && GoodSession(s, c.session);
      var flow :| flow in cfg.flows && multiset(flow) <= multiset(c.stages);
      PrefixDistinct(c.stages, Stages(s.sessions, c.session));
      CoveredByDistinct(flow, c.stages);
    }
  }

  lemma PrefixDistinct(x: seq<Stage>, y: seq<Stage>)
    requires x <= y && Distinct(y)
    ensures Distinct(x)
  {
    assert forall i :: 0 <= i < |x| ==> x[i] == y[i];
  }

  /** What earns a session a stage: a request of it that completes the stage, or the recaptcha page or
      a password change. */
  predicate Earns(cfg: Config, step: Step, session: SessionID, stage: Stage) {
    match step
    case Begin(_, r) => r.session == session && Completes(cfg, r, stage)
    case RecordElsewhere(session', stage') =>
      session' == session && stage' == stage && (stage == "m.login.recaptcha" || stage == "m.login.password")
    case End(_) => false
  }

  ghost predicate Earned(cfg: Config, steps: seq<Step>, n: nat, session: SessionID, stage: Stage)
    requires n <= |steps|
  {
    exists k :: 0 <= k < n && Earns(cfg, steps[k], session, stage)
  }

  /** One step logs exactly the stage that it earns. */
  lemma NextLogs(cfg: Config, s: State, step: Step, session: SessionID, stage: Stage)
    requires Enabled(s, step)
    ensures (session, stage) in Next(cfg, s, step).log <==>
            (session, stage) in s.log || Earns(cfg, step, session, stage)
  {
  }

  /** Over every trace a session has a stage exactly if an earlier step earned it. */
  lemma {:induction false} StagesAreEarned(cfg: Config, states: seq<State>, steps: seq<Step>, n: nat,
                                           session: SessionID, stage: Stage)
    requires IsRun(cfg, states, steps) && n < |states|
    ensures (session, stage) in states[n].log <==> Earned(cfg, steps, n, session, stage)
    ensures stage in Stages(states[n].sessions, session) <==> Earned(cfg, steps, n, session, stage)
  {
    if n > 0 {
      StagesAreEarned(cfg, states, steps, n - 1, session, stage);
      NextLogs(cfg, states[n - 1], steps[n - 1], session, stage);
      if Earned(cfg, steps, n, session, stage) {
        var k :| 0 <= k < n && Earns(cfg, steps[k], session, stage);
        assert k < n - 1 ==> Earned(cfg, steps, n - 1, session, stage);
      }
    }
    RunKeepsInv(cfg, states, steps, n);
    assert GoodSession(states[n], session);
  }

  /** A flow that repeats no stage, every stage of which was earned. */
  ghost predicate FlowEarned(cfg: Config, steps: seq<Step>, n: nat, session: SessionID, flow: seq<Stage>)
    requires n <= |steps|
  {
    Distinct(flow) && forall stage :: stage in flow ==> Earned(cfg, steps, n, session, stage)
  }

  /** The end of a request registers an account exactly if an allowed flow was earned by then. */
  lemma EndRegistersExactly(cfg: Config, states: seq<State>, steps: seq<Step>, n: nat, id: RequestID)
    requires IsRun(cfg, states, steps) && n < |steps| && steps[n] == End(id)
    ensures id in states[n].waiting
    ensures var s, s', session := states[n], states[n + 1], states[n].waiting[id];
            && s'.sessions == s.sessions && s'.log == s.log && s'.waiting == s.waiting - {id}
            && s'.registered == s.registered +
                  if exists flow :: flow in cfg.flows && FlowEarned(cfg, steps, n, session, flow)
                  then [Completion(session, Stages(s.sessions, session))] else []
  {
    var session := states[n].waiting[id];
    var stages := Stages(states[n].sessions, session);
    RunKeepsInv(cfg, states, steps, n);
    assert GoodSession(states[n], session);
    forall flow: seq<Stage>
      ensures multiset(flow) <= multiset(stages) <==> FlowEarned(cfg, steps, n, session, flow)
    {
      InclusionByMembers(flow, stages);
      forall stage
        ensures stage in stages <==> Earned(cfg, steps, n, session, stage)
      {
        StagesAreEarned(cfg, states, steps, n, session, stage);
      }
    }
  }

  /** A request is waiting only between its beginning and its end, if it was not refused. */
  lemma {:induction false} WaitingWasAdmitted(cfg: Config, states: seq<State>, steps: seq<Step>, n: nat, id: RequestID)
    returns (k: nat)
    requires IsRun(cfg, states, steps) && n < |states| && id in states[n].waiting
    ensures k < n && steps[k].Begin? && steps[k].id == id && steps[k].r.session == states[n].waiting[id]
    ensures Admitted(cfg, steps[k].r) && (steps[k].r.authType == "" || Completes(cfg, steps[k].r, steps[k].r.authType))
    ensures forall m :: k < m < n ==> steps[m] != End(id)
  {
    var step := steps[n - 1];
    if step.Begin? && step.id == id {
      k := n - 1;
    } else {
      k := WaitingWasAdmitted(cfg, states, steps, n - 1, id);
    }
  }

  lemma InclusionByMembers(flow: seq<Stage>, stages: seq<Stage>)
    requires Distinct(stages)
    ensures multiset(flow) <= multiset(stages) <==> Distinct(flow) && forall stage :: stage in flow ==> stage in stages
  {
    if multiset(flow) <= multiset(stages) {
      CoveredByDistinct(flow, stages);
    } else if Distinct(flow) {
      var x :| multiset(flow)[x] > multiset(stages)[x];
      CountsOnce(flow, x);
      assert x in flow && x !in stages;
    }
  }

  /** In a duplicate-free list every element counts once. */
  lemma {:induction false} CountsOnce(s: seq<Stage>, x: Stage)
    requires Distinct(s)
    ensures multiset(s)[x] <= 1
  {
    if s != [] {
      DropFirst(s);
      CountsOnce(s[1..], x);
      assert s[0] !in s[1..];
    }
  }

  lemma {:induction false} CoveredByDistinct(flow: seq<Stage>, stages: seq<Stage>)
    requires multiset(flow) <= multiset(stages) && Distinct(stages)
    ensures Distinct(flow)
    ensures forall stage :: stage in flow ==> stage in stages
  {
    forall stage | stage in flow
      ensures stage in stages
    {
      assert stage in multiset(flow);
    }
    forall i, j | 0 <= i < j < |flow|
      ensures flow[i] != flow[j]
    {
      CountsOnce(stages, flow[i]);
      assert flow == flow[..i] + [flow[i]] + flow[i + 1..j] + [flow[j]] + flow[j + 1..];
    }
  }
}
