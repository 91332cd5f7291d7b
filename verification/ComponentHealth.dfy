/** The record the health monitor keeps of one component, and what each report does to it. */
module ComponentHealth {

  datatype Health = Starting | Running | Degraded | Failed | Recovering

  datatype Reason =
    | NoReason | HeartbeatLost | ProcessExited | NoProgress | BacklogExceeded | DeadlineMissesExceeded | RecoveryFailed

  datatype Policy = Policy(
    heartbeatTimeout: int, noProgressTimeout: int, maxBacklog: nat, maxDeadlineMisses: nat,
    restartBackoff: int, recoveryTimeout: int, maxRestartAttempts: nat)

  predicate ValidPolicy(p: Policy) {
    && p.heartbeatTimeout > 0 && p.noProgressTimeout > 0 && p.restartBackoff >= 0
    && p.recoveryTimeout > 0 && p.maxRestartAttempts != 0
  }

  /** Generations are 64-bit numbers. */
  const GENERATION_LIMIT: nat := 0x1_0000_0000_0000_0000

  type Generation = n: nat | n < GENERATION_LIMIT

  /** first is history: the generation the component was registered with. */
  datatype Component = Component(
    first: nat, processId: int, generation: nat, state: Health, reason: Reason,
    lastSeen: int, lastProgress: int, lastTransition: int, heartbeat: nat, progress: nat, backlog: nat, misses: nat,
    attempts: nat, policy: Policy, detail: string)

  datatype Transition = Transition(
    component: string, generation: nat, previous: Health, current: Health, reason: Reason, at: int, detail: string)

  /** A component after a locked region, and the transitions that region logged for it. */
  type Change = (Component, seq<Transition>)

  predicate TimedOut(now: int, last: int, timeout: int) {
    now > last && now - last > timeout
  }

  /** TransitionLocked. */
  function TransitionTo(name: string, c: Component, state: Health, reason: Reason, t: int, detail: string): Change {
    if c.state == state && c.reason == reason && c.detail == detail then (c, [])
    else (c.(state := state, reason := reason, lastTransition := t, detail := detail),
          [Transition(name, c.generation, c.state, state, reason, t, detail)])
  }

  function Registered(processId: int, generation: nat, policy: Policy, t: int): Component {
    Component(generation, processId, generation, Starting, NoReason, t, t, t, 0, 0, 0, 0, 0, policy, "awaiting first heartbeat")
  }

  datatype Report = Accepted | StaleGeneration | Regressed | NotFound

  function HeartbeatOf(name: string, c: Component, generation: nat, sequence: nat, t: int): (Change, Report) {
    if generation != c.generation then ((c, []), StaleGeneration)
    else if sequence < c.heartbeat then ((c, []), Regressed)
    else
      var d := c.(heartbeat := sequence, lastSeen := t);
      (if d.state.Starting? then TransitionTo(name, d, Running, NoReason, t, "first heartbeat observed") else (d, []),
       Accepted)
  }

  function ProgressOf(c: Component, generation: nat, sequence: nat, t: int): (Component, Report) {
    if generation != c.generation then (c, StaleGeneration)
    else if sequence < c.progress then (c, Regressed)
    else (if sequence > c.progress then c.(progress := sequence, lastProgress := t) else c, Accepted)
  }

  function BacklogOf(c: Component, generation: nat, depth: nat): (Component, Report) {
    if generation != c.generation then (c, StaleGeneration) else (c.(backlog := depth), Accepted)
  }

  function MissesOf(c: Component, generation: nat, misses: nat): (Component, Report) {
    if generation != c.generation then (c, StaleGeneration) else (c.(misses := misses), Accepted)
  }

  /** What a process probe said of the process of an incarnation. */
  datatype Probe = Probe(processId: int, generation: nat, alive: bool)

  predicate Dead(c: Component, probes: map<string, Probe>, name: string) {
    name in probes && probes[name].processId == c.processId && probes[name].generation == c.generation
    && !probes[name].alive
  }

  datatype Verdict = Keep | Move(state: Health, reason: Reason, detail: string)

  /** What the body of the loop of Evaluate decides about a component. */
  function Judge(c: Component, dead: bool, t: int): Verdict {
    if c.state.Failed? then Keep
    else if dead then Move(Failed, ProcessExited, "process probe reports that the component exited")
    else if c.state.Recovering? then
      if TimedOut(t, c.lastTransition, c.policy.recoveryTimeout) then
        Move(Failed, RecoveryFailed, "recovery did not complete before its timeout")
      else Keep
    else if TimedOut(t, c.lastSeen, c.policy.heartbeatTimeout) then
      Move(Failed, HeartbeatLost, "heartbeat timeout expired")
    else if TimedOut(t, c.lastProgress, c.policy.noProgressTimeout) then
      Move(Failed, NoProgress, "progress sequence did not advance")
    else if c.backlog > c.policy.maxBacklog then
      Move(Degraded, BacklogExceeded, "reported backlog exceeds policy")
    else if c.misses > c.policy.maxDeadlineMisses then
      Move(Degraded, DeadlineMissesExceeded, "reported deadline misses exceed policy")
    else if c.state.Degraded? then Move(Running, NoReason, "degradation signals cleared")
    else Keep
  }

  function EvaluateOne(name: string, c: Component, probes: map<string, Probe>, t: int): Change {
    match Judge(c, Dead(c, probes, name), t)
    case Keep => (c, [])
    case Move(state, reason, detail) => TransitionTo(name, c, state, reason, t, detail)
  }

  /** Recover, first region: whether it may begin, and the component then. */
  predicate MayRecover(c: Component) {
    c.state.Failed? && c.attempts < c.policy.maxRestartAttempts && c.generation + 1 < GENERATION_LIMIT
  }

  function BeginOf(name: string, c: Component, t: int): Change {
    TransitionTo(name, c.(attempts := c.attempts + 1), Recovering, c.reason, t, "recovery hooks are running")
  }

  /** The fail lambda of Recover. */
  function FailOf(name: string, c: Component, replaced: nat, t: int, detail: string): Change {
    if c.generation == replaced then TransitionTo(name, c, Failed, RecoveryFailed, t, detail) else (c, [])
  }

  predicate MayInstall(c: Component, replaced: nat) {
    c.generation == replaced && c.state.Recovering?
  }

  /** Recover, last region. */
  function InstallOf(name: string, c: Component, processId: int, t: int): Change {
    TransitionTo(name,
      c.(processId := processId, generation := c.generation + 1, lastSeen := t, lastProgress := t,
         heartbeat := 0, progress := 0, backlog := 0, misses := 0),
      Starting, NoReason, t, "restart complete; awaiting heartbeat")
  }

  // ----- what Evaluate decides -----

  predicate Silent(c: Component, t: int) {
    TimedOut(t, c.lastSeen, c.policy.heartbeatTimeout) || TimedOut(t, c.lastProgress, c.policy.noProgressTimeout)
  }

  predicate Overloaded(c: Component) {
    c.backlog > c.policy.maxBacklog || c.misses > c.policy.maxDeadlineMisses
  }

  /** After Evaluate a component that counts as working is within every limit, a degraded one is over a load limit but not
      silent, and a recovering one is within its recovery time. */
  predicate Judged(c: Component, t: int) {
    match c.state
    case Starting | Running => !Silent(c, t) && !Overloaded(c)
    case Degraded => !Silent(c, t) && Overloaded(c)
    case Recovering => !TimedOut(t, c.lastTransition, c.policy.recoveryTimeout)
    case Failed => true
  }

  /** And it is failed exactly when it was, or its process is gone, or its recovery or its signs of life are overdue. */
  predicate Failing(c: Component, probes: map<string, Probe>, name: string, t: int) {
    || c.state.Failed?
    || Dead(c, probes, name)
    || (if c.state.Recovering? then TimedOut(t, c.lastTransition, c.policy.recoveryTimeout) else Silent(c, t))
  }

  lemma JudgeIsRight(c: Component, dead: bool, t: int)
    ensures var v := Judge(c, dead, t);
            var h := if v.Keep? then c.state else v.state;
            && (h.Failed? <==> c.state.Failed? || dead
                               || if c.state.Recovering? then TimedOut(t, c.lastTransition, c.policy.recoveryTimeout)
                                  else Silent(c, t))
            && (h.Recovering? <==> c.state.Recovering? && !h.Failed?)
            && (h.Starting? <==> c.state.Starting? && !h.Failed? && !Overloaded(c))
            && (h.Degraded? <==> !h.Failed? && !h.Recovering? && Overloaded(c))
    ensures var v := Judge(c, dead, t);
            v.Move? ==> !c.state.Failed? && Edge(c.state, v.state) && (v.state.Failed? || v.state.Degraded? || v.state.Running?)
  {
  }

  /** Which reason Evaluate gives, in the order of the source: a dead process, an overdue recovery, no heartbeat, no
      progress, too long a backlog, too many misses. */
  lemma ReasonIsFirst(name: string, c: Component, probes: map<string, Probe>, t: int)
    ensures var d := EvaluateOne(name, c, probes, t).0;
            var p := c.policy;
            var noBeat := t > c.lastSeen && t - c.lastSeen > p.heartbeatTimeout;
            var noProgress := t > c.lastProgress && t - c.lastProgress > p.noProgressTimeout;
            var late := t > c.lastTransition && t - c.lastTransition > p.recoveryTimeout;
            if c.state.Failed? then d == c
            else if Dead(c, probes, name) then d.state.Failed? && d.reason.ProcessExited?
            else if c.state.Recovering? then (if late then d.state.Failed? && d.reason.RecoveryFailed? else d == c)
            else if noBeat then d.state.Failed? && d.reason.HeartbeatLost?
            else if noProgress then d.state.Failed? && d.reason.NoProgress?
            else if c.backlog > p.maxBacklog then d.state.Degraded? && d.reason.BacklogExceeded?
            else if c.misses > p.maxDeadlineMisses then d.state.Degraded? && d.reason.DeadlineMissesExceeded?
            else if c.state.Degraded? then d.state.Running? && d.reason.NoReason?
            else d == c
  {
    hide TransitionTo, Dead;
    var v := Judge(c, Dead(c, probes, name), t);
    if v.Move? {
      TransitionShape(name, c, v.state, v.reason, t, v.detail);
    }
  }

  /** What a transition leaves as it was, and what it does not. */
  lemma TransitionShape(name: string, c: Component, state: Health, reason: Reason, t: int, detail: string)
    ensures var (d, log) := TransitionTo(name, c, state, reason, t, detail);
            && d.state == state && d.reason == reason && d.detail == detail
            && d == c.(state := d.state, reason := d.reason, lastTransition := d.lastTransition, detail := d.detail)
            && (state != c.state ==> log != []) && (log != [] ==> d.lastTransition == t)
            && (Edge(c.state, state) ==> Logged(name, c, (d, log)))
  {
  }

  lemma EvaluateJudges(name: string, c: Component, probes: map<string, Probe>, t: int)
    ensures var d := EvaluateOne(name, c, probes, t).0;
            && Judged(d, t)
            && (d.state.Failed? <==> Failing(c, probes, name, t))
            && (d.state.Recovering? <==> c.state.Recovering? && !Failing(c, probes, name, t))
            && (d.state.Starting? <==> c.state.Starting? && !Failing(c, probes, name, t) && !Overloaded(c))
  {
    hide Judge, TransitionTo, Dead, TimedOut, Edge;
    var dead := Dead(c, probes, name);
    JudgeIsRight(c, dead, t);
    var v := Judge(c, dead, t);
    if v.Move? {
      TransitionShape(name, c, v.state, v.reason, t, v.detail);
    }
  }

  lemma JudgeSettles(c: Component, dead: bool, t: int, d: Component)
    requires Judge(c, dead, t).Move?
    requires var v := Judge(c, dead, t);
             d == c.(state := v.state, reason := v.reason, lastTransition := d.lastTransition, detail := v.detail)
    ensures Judge(d, dead, t) in [Keep, Judge(c, dead, t)]
  {
  }

  /** Evaluating again at the same time with the same probes finds nothing more to say. */
  lemma EvaluateSettles(name: string, c: Component, probes: map<string, Probe>, t: int)
    ensures var d := EvaluateOne(name, c, probes, t).0;
            EvaluateOne(name, d, probes, t) == (d, [])
  {
    hide Judge;
    var v := Judge(c, Dead(c, probes, name), t);
    if v.Move? {
      TransitionShape(name, c, v.state, v.reason, t, v.detail);
      JudgeSettles(c, Dead(c, probes, name), t, EvaluateOne(name, c, probes, t).0);
    }
  }

  // ----- the transition diagram -----

  /** Every edge that any region may log. Failed is left only for Recovering, which is entered only from Failed; a new
      incarnation starts only from Recovering. */
  predicate Edge(previous: Health, current: Health) {
    match previous
    case Starting => current.Running? || current.Degraded? || current.Failed?
    case Running => current.Degraded? || current.Failed?
    case Degraded => current.Degraded? || current.Running? || current.Failed?
    case Failed => current.Failed? || current.Recovering?
    case Recovering => current.Failed? || current.Starting?
  }

  /** The entry tells the state, the reason, the detail and the time of the last transition of the component. */
  predicate Tells(e: Transition, d: Component) {
    e.current == d.state && e.reason == d.reason && e.detail == d.detail && e.at == d.lastTransition
  }

  predicate SameStanding(c: Component, d: Component) {
    d.state == c.state && d.reason == c.reason && d.detail == c.detail && d.lastTransition == c.lastTransition
  }

  /** The change is faithful to what it logs: nothing logged and the standing as it was, or one lawful edge from the old
      state to the new with all that is new about it, filed under the component's name and its generation. */
  predicate Logged(name: string, c: Component, change: Change) {
    var (d, log) := change;
    || (log == [] && SameStanding(c, d))
    || (|log| == 1 && log[0].component == name && log[0].previous == c.state && Tells(log[0], d)
        && log[0].generation == d.generation && Edge(c.state, d.state))
  }

  /** Generations never fall, and within one the heartbeat and progress sequences never do; limits and the registration
      stay. */
  predicate Ordered(c: Component, d: Component) {
    && d.generation >= c.generation && d.attempts >= c.attempts && d.policy == c.policy && d.first == c.first
    && (d.generation == c.generation ==> d.heartbeat >= c.heartbeat && d.progress >= c.progress)
  }

  lemma ReportsAreLawful(name: string, c: Component, generation: nat, n: nat, t: int)
    ensures var ch := HeartbeatOf(name, c, generation, n, t).0;
            Logged(name, c, ch) && Ordered(c, ch.0) && ch.0.generation == c.generation && ch.0.attempts == c.attempts
    ensures var d := ProgressOf(c, generation, n, t).0;
            Logged(name, c, (d, [])) && Ordered(c, d) && d.generation == c.generation && d.attempts == c.attempts
    ensures var d := BacklogOf(c, generation, n).0;
            Logged(name, c, (d, [])) && Ordered(c, d) && d.generation == c.generation && d.attempts == c.attempts
    ensures var d := MissesOf(c, generation, n).0;
            Logged(name, c, (d, [])) && Ordered(c, d) && d.generation == c.generation && d.attempts == c.attempts
  {
  }

  lemma EvaluateIsLawful(name: string, c: Component, probes: map<string, Probe>, t: int)
    ensures var ch := EvaluateOne(name, c, probes, t);
            Logged(name, c, ch) && Ordered(c, ch.0) && ch.0.generation == c.generation && ch.0.attempts == c.attempts
    ensures c.state.Failed? ==> EvaluateOne(name, c, probes, t).0 == c
    ensures c.state.Recovering? ==> var h := EvaluateOne(name, c, probes, t).0.state; h.Recovering? || h.Failed?
  {
    hide Judge, TransitionTo, Dead, TimedOut, Edge, Silent;
    var dead := Dead(c, probes, name);
    JudgeIsRight(c, dead, t);
    var v := Judge(c, dead, t);
    if v.Move? {
      TransitionShape(name, c, v.state, v.reason, t, v.detail);
    }
  }

  lemma RecoveryIsLawful(name: string, c: Component, replaced: nat, processId: int, t: int, detail: string)
    ensures MayRecover(c) ==>
              var ch := BeginOf(name, c, t);
              && Logged(name, c, ch) && Ordered(c, ch.0) && ch.0.generation == c.generation
              && ch.0.attempts == c.attempts + 1 && ch.0.state.Recovering?
    ensures (c.generation == replaced ==> c.state.Failed? || c.state.Recovering?) ==>
              var ch := FailOf(name, c, replaced, t, detail);
              && Logged(name, c, ch) && Ordered(c, ch.0) && ch.0.generation == c.generation && ch.0.attempts == c.attempts
              && (ch.0.state.Failed? || ch.0 == c)
    ensures MayInstall(c, replaced) ==>
              var ch := InstallOf(name, c, processId, t);
              && Logged(name, c, ch) && Ordered(c, ch.0) && ch.0.generation == c.generation + 1
              && ch.0.attempts == c.attempts && ch.0.state.Starting? && ch.0.processId == processId
  {
  }
}
