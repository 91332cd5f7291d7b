/** The health monitor over whole runs: reports, evaluations and any number of recoveries, each cut into its locked regions
    and the hooks between them, in any interleaving and at any times. */
module HealthRuns {
  import opened ComponentHealth

  datatype Outcome = Installed | Refused | Stale

  /** How far a call to Recover has come. */
  datatype Stage = Begun | Cleaned | StartFailed | Started | Connected | Ended(outcome: Outcome)

  /** replaced is the generation it set out to replace; called, processId and cleaned are history: the start hook was
      called, the valid process it gave (or 0), and the cleanup hook was called for that process. */
  datatype Recovery = Recovery(name: string, replaced: nat, stage: Stage, called: bool, processId: int, cleaned: bool)

  datatype State = State(components: map<string, Component>, log: seq<Transition>, recoveries: seq<Recovery>)

  function Empty(): State {
    State(map[], [], [])
  }

  datatype Action =
    | Register(name: string, processId: int, generation: nat, policy: Policy, t: int)
    | Heartbeat(name: string, generation: nat, sequence: nat, t: int)
    | Progress(name: string, generation: nat, sequence: nat, t: int)
    | Backlog(name: string, generation: nat, depth: nat)
    | Misses(name: string, generation: nat, misses: nat)
    | Evaluate(order: seq<string>, probes: map<string, Probe>, t: int)
    | Recover(name: string, t: int)
    | CleanUp(i: nat)
    | Start(i: nat, processId: int)
    | Connect(i: nat)
    | Fail(i: nat, t: int, detail: string)
    | Finish(i: nat, t: int)

  predicate ValidRegistration(name: string, processId: int, generation: nat, policy: Policy) {
    name != "" && processId >= 0 && 0 < generation < GENERATION_LIMIT && ValidPolicy(policy)
  }

  /** An order in which a loop may visit the components. */
  predicate Enumerates(order: seq<string>, names: set<string>) {
    && (forall i :: 0 <= i < |order| ==> order[i] in names)
    && (forall n :: n in names ==> n in order)
    && (forall i, j :: 0 <= i < j < |order| ==> order[i] != order[j])
  }

  predicate InStage(s: State, i: nat, stage: Stage) {
    i < |s.recoveries| && s.recoveries[i].stage == stage && s.recoveries[i].name in s.components
  }

  predicate Enabled(s: State, a: Action) {
    match a
    case Register(name, processId, generation, policy, _) =>
      ValidRegistration(name, processId, generation, policy) && name !in s.components
    case Heartbeat(name, _, _, _) => name in s.components
    case Progress(name, _, _, _) => name in s.components
    case Backlog(name, _, _) => name in s.components
    case Misses(name, _, _) => name in s.components
    case Evaluate(order, _, _) => Enumerates(order, s.components.Keys)
    case Recover(name, _) => name in s.components && MayRecover(s.components[name])
    case CleanUp(i) => InStage(s, i, Begun)
    case Start(i, _) => InStage(s, i, Cleaned)
    case Connect(i) => InStage(s, i, Started)
    case Fail(i, _, _) => InStage(s, i, Begun) || InStage(s, i, Cleaned) || InStage(s, i, StartFailed) || InStage(s, i, Started)
    case Finish(i, _) => InStage(s, i, Connected)
  }

  /** One component changed, and its transitions logged. */
  function Put(s: State, name: string, change: Change): State {
    s.(components := s.components[name := change.0], log := s.log + change.1)
  }

  function Advance(s: State, i: nat, r: Recovery): State
    requires i < |s.recoveries|
  {
    s.(recoveries := s.recoveries[i := r])
  }

  /** The loop of Evaluate. */
  function EvaluateAll(s: State, order: seq<string>, probes: map<string, Probe>, t: int): State
    requires forall i :: 0 <= i < |order| ==> order[i] in s.components
    decreases |order|
  {
    if order == [] then s
    else EvaluateAll(Put(s, order[0], EvaluateOne(order[0], s.components[order[0]], probes, t)), order[1..], probes, t)
  }

  function FailStep(s: State, i: nat, t: int, detail: string): State
    requires i < |s.recoveries| && s.recoveries[i].name in s.components
  {
    var r := s.recoveries[i];
    Put(Advance(s, i, r.(stage := Ended(Refused), cleaned := r.stage.Started?)), r.name,
        FailOf(r.name, s.components[r.name], r.replaced, t, detail))
  }

  function FinishStep(s: State, i: nat, t: int): State
    requires i < |s.recoveries| && s.recoveries[i].name in s.components
  {
    var r := s.recoveries[i];
    var c := s.components[r.name];
    if MayInstall(c, r.replaced)
    then Put(Advance(s, i, r.(stage := Ended(Installed))), r.name, InstallOf(r.name, c, r.processId, t))
    else Advance(s, i, r.(stage := Ended(Stale)))
  }

  function RecoverStep(s: State, name: string, t: int): State
    requires name in s.components
  {
    var c := s.components[name];
    Put(s.(recoveries := s.recoveries + [Recovery(name, c.generation, Begun, false, 0, false)]), name, BeginOf(name, c, t))
  }

  function Apply(s: State, a: Action): State
    requires Enabled(s, a)
  {
    match a
    case Register(name, processId, generation, policy, t) =>
      s.(components := s.components[name := Registered(processId, generation, policy, t)])
    case Heartbeat(name, generation, sequence, t) =>
      Put(s, name, HeartbeatOf(name, s.components[name], generation, sequence, t).0)
    case Progress(name, generation, sequence, t) =>
      Put(s, name, (ProgressOf(s.components[name], generation, sequence, t).0, []))
    case Backlog(name, generation, depth) => Put(s, name, (BacklogOf(s.components[name], generation, depth).0, []))
    case Misses(name, generation, misses) => Put(s, name, (MissesOf(s.components[name], generation, misses).0, []))
    case Evaluate(order, probes, t) => EvaluateAll(s, order, probes, t)
    case Recover(name, t) => RecoverStep(s, name, t)
    case CleanUp(i) => Advance(s, i, s.recoveries[i].(stage := Cleaned))
    case Start(i, p) =>
      var r := s.recoveries[i].(called := true);
      Advance(s, i, if p > 0 then r.(stage := Started, processId := p) else r.(stage := StartFailed))
    case Connect(i) => Advance(s, i, s.recoveries[i].(stage := Connected))
    case Fail(i, t, detail) => FailStep(s, i, t, detail)
    case Finish(i, t) => FinishStep(s, i, t)
  }

  predicate Legal(s: State, run: seq<Action>)
    decreases |run|
  {
    run == [] || (Enabled(s, run[0]) && Legal(Apply(s, run[0]), run[1..]))
  }

  function After(s: State, run: seq<Action>): State
    requires Legal(s, run)
    decreases |run|
  {
    if run == [] then s else After(Apply(s, run[0]), run[1..])
  }

  // ----- the log -----

  /** Read backwards, the entries of the log for this component are an unbroken chain of lawful edges from Starting to the
      given state. */
  predicate Reaches(log: seq<Transition>, name: string, state: Health)
    decreases |log|
  {
    if log == [] then state.Starting?
    else
      var last := log[|log| - 1];
      if last.component != name then Reaches(log[..|log| - 1], name, state)
      else last.current == state && Edge(last.previous, state) && Reaches(log[..|log| - 1], name, last.previous)
  }

  /** The last entry of the log for this component, if there is one. */
  function LastOf(log: seq<Transition>, name: string): seq<Transition> {
    if log == [] then []
    else if log[|log| - 1].component == name then [log[|log| - 1]]
    else LastOf(log[..|log| - 1], name)
  }

  /** It is where the component stands now. */
  predicate UpToDate(log: seq<Transition>, name: string, c: Component) {
    LastOf(log, name) != [] ==> Tells(LastOf(log, name)[0], c)
  }

  ghost predicate LogOk(components: map<string, Component>, log: seq<Transition>) {
    && (forall n :: n in components ==> Reaches(log, n, components[n].state) && UpToDate(log, n, components[n]))
    && (forall i :: 0 <= i < |log| ==> log[i].component in components)
  }

  lemma ReachesMore(log: seq<Transition>, name: string, c: Component, change: Change, n: string, state: Health)
    requires Logged(name, c, change) && Reaches(log, n, state)
    ensures n != name ==> Reaches(log + change.1, n, state) && LastOf(log + change.1, n) == LastOf(log, n)
    ensures n == name && state == c.state ==> Reaches(log + change.1, n, change.0.state)
    ensures n == name && UpToDate(log, n, c) ==> UpToDate(log + change.1, n, change.0)
  {
    var more := log + change.1;
    if change.1 == [] {
      assert more == log;
    } else {
      assert more[..|more| - 1] == log;
    }
  }

  lemma PutLog(s: State, name: string, change: Change)
    requires LogOk(s.components, s.log) && name in s.components && Logged(name, s.components[name], change)
    ensures LogOk(Put(s, name, change).components, Put(s, name, change).log)
  {
    hide Reaches, Logged, LastOf, Tells;
    var r := Put(s, name, change);
    forall n | n in r.components
      ensures Reaches(r.log, n, r.components[n].state) && UpToDate(r.log, n, r.components[n])
    {
      ReachesMore(s.log, name, s.components[name], change, n, s.components[n].state);
    }
    assert forall i :: 0 <= i < |change.1| ==> change.1[i].component == name by { LoggedNames(name, s.components[name], change); }
  }

  lemma LoggedNames(name: string, c: Component, change: Change)
    requires Logged(name, c, change)
    ensures forall i :: 0 <= i < |change.1| ==> change.1[i].component == name
  {
  }

  lemma {:induction false} UnknownIsStarting(log: seq<Transition>, name: string)
    requires forall i :: 0 <= i < |log| ==> log[i].component != name
    ensures Reaches(log, name, Starting) && LastOf(log, name) == []
  {
    if log != [] {
      UnknownIsStarting(log[..|log| - 1], name);
    }
  }

  // ----- counting recoveries -----

  datatype Kind = Any | StartCalled | Succeeded

  predicate Matches(r: Recovery, name: string, k: Kind) {
    r.name == name && (k.StartCalled? ==> r.called) && (k.Succeeded? ==> r.stage == Ended(Installed))
  }

  function Tally(rs: seq<Recovery>, name: string, k: Kind): nat {
    if rs == [] then 0
    else Tally(rs[..|rs| - 1], name, k) + if Matches(rs[|rs| - 1], name, k) then 1 else 0
  }

  lemma {:induction false} TallyUpdate(rs: seq<Recovery>, i: nat, r: Recovery, name: string, k: Kind)
    requires i < |rs|
    ensures Tally(rs[i := r], name, k)
         == Tally(rs, name, k) - (if Matches(rs[i], name, k) then 1 else 0) + (if Matches(r, name, k) then 1 else 0)
  {
    hide Matches;
    var front := rs[..|rs| - 1];
    if i == |rs| - 1 {
      assert rs[i := r][..|rs| - 1] == front;
    } else {
      TallyUpdate(front, i, r, name, k);
      assert rs[i := r][..|rs| - 1] == front[i := r];
    }
  }

  lemma TallyAppend(rs: seq<Recovery>, r: Recovery, name: string, k: Kind)
    ensures Tally(rs + [r], name, k) == Tally(rs, name, k) + if Matches(r, name, k) then 1 else 0
  {
    assert (rs + [r])[..|rs|] == rs;
  }

  lemma {:induction false} TallyAtMost(rs: seq<Recovery>, name: string, k: Kind)
    ensures Tally(rs, name, k) <= Tally(rs, name, Any)
  {
    if rs != [] {
      TallyAtMost(rs[..|rs| - 1], name, k);
    }
  }

  lemma {:induction false} TallyNone(rs: seq<Recovery>, name: string, k: Kind)
    requires forall i :: 0 <= i < |rs| ==> rs[i].name != name
    ensures Tally(rs, name, k) == 0
  {
    if rs != [] {
      TallyNone(rs[..|rs| - 1], name, k);
    }
  }

  /** Attempts are counted, limited and never given back, and the generation says how many of them succeeded and never
      wraps around. */
  predicate Counted(c: Component, rs: seq<Recovery>, name: string) {
    && c.generation < GENERATION_LIMIT
    && c.attempts == Tally(rs, name, Any) <= c.policy.maxRestartAttempts
    && c.generation == c.first + Tally(rs, name, Succeeded)
  }

  ghost predicate CountsOk(s: State) {
    forall n :: n in s.components ==> Counted(s.components[n], s.recoveries, n)
  }

  // ----- recoveries in progress -----

  predicate Down(c: Component) {
    c.state.Failed? || c.state.Recovering?
  }

  predicate HistoryOk(r: Recovery) {
    match r.stage
    case Begun | Cleaned => !r.called && r.processId == 0 && !r.cleaned
    case StartFailed => r.called && r.processId == 0 && !r.cleaned
    case Started | Connected => r.called && r.processId > 0 && !r.cleaned
    case Ended(Refused) => r.processId >= 0 && (r.processId > 0 <==> r.cleaned)
    case Ended(_) => r.called && r.processId > 0 && !r.cleaned
  }

  /** A recovery against its component: it replaces the present generation or an earlier one; while it is under way and the
      generation is still the one it replaces, the component is down; if it succeeded, the generation has moved on, and as
      long as its own generation is the present one, so is its process. */
  predicate RecoveryOk(r: Recovery, c: Component) {
    && HistoryOk(r) && r.replaced <= c.generation && r.replaced + 1 < GENERATION_LIMIT
    && (!r.stage.Ended? && r.replaced == c.generation ==> Down(c))
    && (r.stage == Ended(Installed) ==>
          r.replaced < c.generation && (r.replaced + 1 == c.generation ==> c.processId == r.processId))
  }

  /** Two recoveries of one component do not both succeed in replacing one generation. */
  predicate Apart(a: Recovery, b: Recovery) {
    a.name == b.name && a.stage == Ended(Installed) && b.stage == Ended(Installed) ==> a.replaced != b.replaced
  }

  ghost predicate RecoveriesOk(s: State) {
    && (forall i :: 0 <= i < |s.recoveries| ==>
          s.recoveries[i].name in s.components && RecoveryOk(s.recoveries[i], s.components[s.recoveries[i].name]))
    && (forall i, j :: 0 <= i < j < |s.recoveries| ==> Apart(s.recoveries[i], s.recoveries[j]))
  }

  ghost predicate Inv(s: State) {
    LogOk(s.components, s.log) && CountsOk(s) && RecoveriesOk(s)
  }

  lemma EmptyHolds()
    ensures Inv(Empty())
  {
  }

  // ----- every step keeps the invariant -----

  /** A change of one component that leaves its generation, attempts and process alone and does not put a component that is
      down back on its feet. */
  predicate Quiet(c: Component, d: Component) {
    && d.generation == c.generation && d.attempts == c.attempts && d.policy == c.policy && d.first == c.first
    && d.processId == c.processId && (Down(c) ==> Down(d))
  }

  lemma QuietKeeps(s: State, name: string, change: Change)
    requires Inv(s) && name in s.components && Logged(name, s.components[name], change) && Quiet(s.components[name], change.0)
    ensures Inv(Put(s, name, change))
  {
    hide Reaches, LastOf, Logged, Tally;
    PutLog(s, name, change);
  }

  lemma ReportsAreQuiet(name: string, c: Component, generation: nat, n: nat, t: int)
    ensures Quiet(c, HeartbeatOf(name, c, generation, n, t).0.0) && Quiet(c, ProgressOf(c, generation, n, t).0)
    ensures Quiet(c, BacklogOf(c, generation, n).0) && Quiet(c, MissesOf(c, generation, n).0)
  {
  }

  lemma EvaluateIsQuiet(name: string, c: Component, probes: map<string, Probe>, t: int)
    ensures Quiet(c, EvaluateOne(name, c, probes, t).0)
  {
    hide Judge, TransitionTo, Dead, Edge;
    EvaluateIsLawful(name, c, probes, t);
    var v := Judge(c, Dead(c, probes, name), t);
    if v.Move? {
      TransitionShape(name, c, v.state, v.reason, t, v.detail);
    }
  }

  lemma {:induction false} EvaluateKeeps(s: State, order: seq<string>, probes: map<string, Probe>, t: int)
    requires Inv(s) && forall i :: 0 <= i < |order| ==> order[i] in s.components
    ensures Inv(EvaluateAll(s, order, probes, t))
    decreases |order|
  {
    hide Inv, EvaluateOne, Logged, Quiet;
    if order != [] {
      var c := s.components[order[0]];
      EvaluateIsLawful(order[0], c, probes, t);
      EvaluateIsQuiet(order[0], c, probes, t);
      QuietKeeps(s, order[0], EvaluateOne(order[0], c, probes, t));
      EvaluateKeeps(Put(s, order[0], EvaluateOne(order[0], c, probes, t)), order[1..], probes, t);
    }
  }

  lemma RegisterKeeps(s: State, name: string, c: Component)
    requires Inv(s) && name !in s.components && c.state.Starting? && c.attempts == 0
    requires c.first == c.generation < GENERATION_LIMIT
    ensures Inv(s.(components := s.components[name := c]))
  {
    hide Reaches, LastOf, Tally, RecoveryOk;
    UnknownIsStarting(s.log, name);
    TallyNone(s.recoveries, name, Any);
    TallyNone(s.recoveries, name, Succeeded);
  }

  /** A recovery moves on without touching its component. */
  lemma AdvanceKeeps(s: State, i: nat, r: Recovery)
    requires Inv(s) && i < |s.recoveries| && r.name == s.recoveries[i].name && r.replaced == s.recoveries[i].replaced
    requires HistoryOk(r) && r.stage != Ended(Installed)
    requires !s.recoveries[i].stage.Ended?
    ensures Inv(Advance(s, i, r))
  {
    hide Reaches, LastOf, Tally, HistoryOk;
    var u := Advance(s, i, r);
    forall n | n in u.components
      ensures Counted(u.components[n], u.recoveries, n)
    {
      TallyUpdate(s.recoveries, i, r, n, Any);
      TallyUpdate(s.recoveries, i, r, n, Succeeded);
    }
  }

  lemma FailKeeps(s: State, i: nat, t: int, detail: string)
    requires Inv(s) && Enabled(s, Fail(i, t, detail))
    ensures Inv(FailStep(s, i, t, detail))
  {
    hide Inv, Logged, TransitionTo;
    var r := s.recoveries[i];
    var c := s.components[r.name];
    RecoveryAt(s, i);
    AdvanceKeeps(s, i, r.(stage := Ended(Refused), cleaned := r.stage.Started?));
    RecoveryIsLawful(r.name, c, r.replaced, 0, t, detail);
    TransitionShape(r.name, c, Failed, RecoveryFailed, t, detail);
    QuietKeeps(Advance(s, i, r.(stage := Ended(Refused), cleaned := r.stage.Started?)), r.name,
               FailOf(r.name, c, r.replaced, t, detail));
  }

  lemma RecoveryAt(s: State, i: nat)
    requires Inv(s) && i < |s.recoveries|
    ensures s.recoveries[i].name in s.components
    ensures RecoveryOk(s.recoveries[i], s.components[s.recoveries[i].name])
  {
    hide Reaches, LastOf, Tally, RecoveryOk;
  }

  lemma RecoverKeeps(s: State, name: string, t: int)
    requires Inv(s) && Enabled(s, Recover(name, t))
    ensures Inv(RecoverStep(s, name, t))
  {
    hide Reaches, LastOf, Tally, Logged, BeginOf;
    var c := s.components[name];
    RecoveryIsLawful(name, c, 0, 0, t, "");
    BeginIsTame(name, c, t);
    PutLog(s, name, BeginOf(name, c, t));
    var r := Recovery(name, c.generation, Begun, false, 0, false);
    var u := RecoverStep(s, name, t);
    forall n | n in u.components
      ensures Counted(u.components[n], u.recoveries, n)
    {
      TallyAppend(s.recoveries, r, n, Any);
      TallyAppend(s.recoveries, r, n, Succeeded);
    }
  }

  lemma BeginIsTame(name: string, c: Component, t: int)
    ensures var d := BeginOf(name, c, t).0;
            && d.state.Recovering? && d.attempts == c.attempts + 1 && d.processId == c.processId
            && d.generation == c.generation && d.first == c.first && d.policy == c.policy
  {
  }

  lemma InstallIsTame(name: string, c: Component, p: int, t: int)
    ensures var d := InstallOf(name, c, p, t).0;
            && d.attempts == c.attempts && d.processId == p
            && d.generation == c.generation + 1 && d.first == c.first && d.policy == c.policy
  {
  }

  lemma FinishKeeps(s: State, i: nat, t: int)
    requires Inv(s) && Enabled(s, Finish(i, t))
    ensures Inv(FinishStep(s, i, t))
  {
    var r := s.recoveries[i];
    var c := s.components[r.name];
    if MayInstall(c, r.replaced) {
      InstallKeeps(s, i, t);
    } else {
      hide Inv;
      RecoveryAt(s, i);
      AdvanceKeeps(s, i, r.(stage := Ended(Stale)));
    }
  }

  lemma InstallsApart(s: State, i: nat, t: int)
    requires RecoveriesOk(s) && InStage(s, i, Connected)
    requires MayInstall(s.components[s.recoveries[i].name], s.recoveries[i].replaced)
    ensures RecoveriesOk(FinishStep(s, i, t))
  {
    hide InstallOf;
    var r := s.recoveries[i];
    InstallIsTame(r.name, s.components[r.name], r.processId, t);
  }

  lemma InstallKeeps(s: State, i: nat, t: int)
    requires Inv(s) && Enabled(s, Finish(i, t)) && MayInstall(s.components[s.recoveries[i].name], s.recoveries[i].replaced)
    ensures Inv(FinishStep(s, i, t))
  {
    hide Reaches, LastOf, Tally, Logged, InstallOf, LogOk, RecoveriesOk;
    var r := s.recoveries[i];
    var c := s.components[r.name];
    RecoveryIsLawful(r.name, c, r.replaced, r.processId, t, "");
    InstallIsTame(r.name, c, r.processId, t);
    PutLog(s, r.name, InstallOf(r.name, c, r.processId, t));
    RecoveryAt(s, i);
    InstallsApart(s, i, t);
    var u := FinishStep(s, i, t);
    forall n | n in u.components
      ensures Counted(u.components[n], u.recoveries, n)
    {
      TallyUpdate(s.recoveries, i, r.(stage := Ended(Installed)), n, Any);
      TallyUpdate(s.recoveries, i, r.(stage := Ended(Installed)), n, Succeeded);
    }
  }

  lemma StepKeeps(s: State, a: Action)
    requires Inv(s) && Enabled(s, a)
    ensures Inv(Apply(s, a))
  {
    hide Inv, Logged, Quiet, HeartbeatOf, ProgressOf, BacklogOf, MissesOf, EvaluateAll, FailStep, FinishStep, RecoverStep,
         MayRecover;
    match a
    case Register(name, processId, generation, policy, t) =>
      RegisterKeeps(s, name, Registered(processId, generation, policy, t));
    case Heartbeat(name, generation, sequence, t) =>
      ReportsAreLawful(name, s.components[name], generation, sequence, t);
      ReportsAreQuiet(name, s.components[name], generation, sequence, t);
      QuietKeeps(s, name, HeartbeatOf(name, s.components[name], generation, sequence, t).0);
    case Progress(name, generation, sequence, t) =>
      ReportsAreLawful(name, s.components[name], generation, sequence, t);
      ReportsAreQuiet(name, s.components[name], generation, sequence, t);
      QuietKeeps(s, name, (ProgressOf(s.components[name], generation, sequence, t).0, []));
    case Backlog(name, generation, depth) =>
      ReportsAreLawful(name, s.components[name], generation, depth, 0);
      ReportsAreQuiet(name, s.components[name], generation, depth, 0);
      QuietKeeps(s, name, (BacklogOf(s.components[name], generation, depth).0, []));
    case Misses(name, generation, misses) =>
      ReportsAreLawful(name, s.components[name], generation, misses, 0);
      ReportsAreQuiet(name, s.components[name], generation, misses, 0);
      QuietKeeps(s, name, (MissesOf(s.components[name], generation, misses).0, []));
    case Evaluate(order, probes, t) => EvaluateKeeps(s, order, probes, t);
    case Recover(name, t) => RecoverKeeps(s, name, t);
    case CleanUp(i) =>
      RecoveryAt(s, i);
      AdvanceKeeps(s, i, s.recoveries[i].(stage := Cleaned));
    case Start(i, p) =>
      RecoveryAt(s, i);
      AdvanceKeeps(s, i, Apply(s, a).recoveries[i]);
    case Connect(i) =>
      RecoveryAt(s, i);
      AdvanceKeeps(s, i, s.recoveries[i].(stage := Connected));
    case Fail(i, t, detail) => FailKeeps(s, i, t, detail);
    case Finish(i, t) => FinishKeeps(s, i, t);
  }
}
