/** The health monitor as an object: a table of components and a log of transitions, both updated in place under one
    mutex. */
module HealthMonitor {
  import opened ComponentHealth
  import HealthRuns

  datatype Registration = Done | Invalid | Exists

  datatype Refusal = Granted | NoHooks | Unknown | NotFailed | Exhausted | GenerationOverflow

  /** What a hook reports: success, or the detail of its failure. */
  datatype Answer = Fine | Wrong(detail: string)

  /** What the three hooks and the clock do during one call to Recover, in the order in which it asks them. */
  datatype Course = Course(
    cleanup: Answer, backoffTooLong: bool, lateBeforeStart: bool, start: Answer, processId: int, lateAfterStart: bool,
    reconnect: Answer)

  /** The first thing that goes wrong. */
  function Trouble(h: Course): Answer {
    if h.cleanup.Wrong? then h.cleanup
    else if h.backoffTooLong then Wrong("recovery deadline expires during backoff")
    else if h.lateBeforeStart then Wrong("recovery timed out before restart")
    else if h.start.Wrong? then h.start
    else if h.processId <= 0 then Wrong("start hook returned an invalid process id")
    else if h.lateAfterStart then Wrong("recovery timed out after restart")
    else h.reconnect
  }

  datatype Ending = NotBegun(why: Refusal) | Broken(detail: string) | Overtaken | Renewed

  class Monitor {
    var components: map<string, Component>
    var transitions: seq<Transition>

    /** The calls to Recover, finished and under way; their locals in the source. */
    ghost var recoveries: seq<HealthRuns.Recovery>

    ghost function Now(): HealthRuns.State
      reads this
    {
      HealthRuns.State(components, transitions, recoveries)
    }

    constructor ()
      ensures Now() == HealthRuns.Empty()
    {
      components, transitions, recoveries := map[], [], [];
    }

    /** TransitionLocked on a component of the table. */
    method Transit(name: string, state: Health, reason: Reason, t: int, detail: string) returns (emitted: seq<Transition>)
      requires name in components
      modifies this`components, this`transitions
      ensures emitted == TransitionTo(name, old(components)[name], state, reason, t, detail).1
      ensures Now() == HealthRuns.Put(old(Now()), name, TransitionTo(name, old(components)[name], state, reason, t, detail))
    {
      var c := components[name];
      emitted := [];
      if c.state == state && c.reason == reason && c.detail == detail {
        assert components[name := c] == components;
        return;
      }
      emitted := [Transition(name, c.generation, c.state, state, reason, t, detail)];
      components := components[name := c.(state := state, reason := reason, lastTransition := t, detail := detail)];
      transitions := transitions + emitted;
    }

    method Register(name: string, processId: int, generation: Generation, policy: Policy, t: int) returns (r: Registration)
      modifies this`components, this`transitions
      ensures r.Invalid? <==> !HealthRuns.ValidRegistration(name, processId, generation, policy)
      ensures r.Exists? <==> !r.Invalid? && name in old(components)
      ensures !r.Done? ==> Now() == old(Now())
      ensures r.Done? ==>
                && HealthRuns.Enabled(old(Now()), HealthRuns.Register(name, processId, generation, policy, t))
                && Now() == HealthRuns.Apply(old(Now()), HealthRuns.Register(name, processId, generation, policy, t))
    {
      if name == "" || processId < 0 || generation == 0 || !ValidPolicy(policy) {
        return Invalid;
      }
      if name in components {
        return Exists;
      }
      components := components[name := Registered(processId, generation, policy, t)];
      return Done;
    }

    method Heartbeat(name: string, generation: nat, sequence: nat, t: int) returns (r: Report)
      modifies this`components, this`transitions
      ensures r.NotFound? <==> name !in old(components)
      ensures r.NotFound? ==> Now() == old(Now())
      ensures !r.NotFound? ==>
                && r == HeartbeatOf(name, old(components)[name], generation, sequence, t).1
                && Now() == HealthRuns.Apply(old(Now()), HealthRuns.Heartbeat(name, generation, sequence, t))
    {
      if name !in components {
        return NotFound;
      }
      var c := components[name];
      assert components[name := c] == components;
      if generation != c.generation {
        return StaleGeneration;
      }
      if sequence < c.heartbeat {
        return Regressed;
      }
      components := components[name := c.(heartbeat := sequence, lastSeen := t)];
      if c.state.Starting? {
        var _ := Transit(name, Running, NoReason, t, "first heartbeat observed");
      }
      return Accepted;
    }

    method Progress(name: string, generation: nat, sequence: nat, t: int) returns (r: Report)
      modifies this`components, this`transitions
      ensures r.NotFound? <==> name !in old(components)
      ensures r.NotFound? ==> Now() == old(Now())
      ensures !r.NotFound? ==>
                && r == ProgressOf(old(components)[name], generation, sequence, t).1
                && Now() == HealthRuns.Apply(old(Now()), HealthRuns.Progress(name, generation, sequence, t))
    {
      if name !in components {
        return NotFound;
      }
      var c := components[name];
      assert components[name := c] == components;
      if generation != c.generation {
        return StaleGeneration;
      }
      if sequence < c.progress {
        return Regressed;
      }
      if sequence > c.progress {
        components := components[name := c.(progress := sequence, lastProgress := t)];
      }
      return Accepted;
    }

    method ReportBacklog(name: string, generation: nat, depth: nat) returns (r: Report)
      modifies this`components, this`transitions
      ensures r.NotFound? <==> name !in old(components)
      ensures r.NotFound? ==> Now() == old(Now())
      ensures !r.NotFound? ==>
                && r == BacklogOf(old(components)[name], generation, depth).1
                && Now() == HealthRuns.Apply(old(Now()), HealthRuns.Backlog(name, generation, depth))
    {
      if name !in components {
        return NotFound;
      }
      assert components[name := components[name]] == components;
      if generation != components[name].generation {
        return StaleGeneration;
      }
      components := components[name := components[name].(backlog := depth)];
      return Accepted;
    }

    method ReportDeadlineMisses(name: string, generation: nat, misses: nat) returns (r: Report)
      modifies this`components, this`transitions
      ensures r.NotFound? <==> name !in old(components)
      ensures r.NotFound? ==> Now() == old(Now())
      ensures !r.NotFound? ==>
                && r == MissesOf(old(components)[name], generation, misses).1
                && Now() == HealthRuns.Apply(old(Now()), HealthRuns.Misses(name, generation, misses))
    {
      if name !in components {
        return NotFound;
      }
      assert components[name := components[name]] == components;
      if generation != components[name].generation {
        return StaleGeneration;
      }
      components := components[name := components[name].(misses := misses)];
      return Accepted;
    }

    /** Evaluate, second region: the loop over the table in whatever order it yields. */
    method Evaluate(probes: map<string, Probe>, t: int) returns (emitted: seq<Transition>, ghost order: seq<string>)
      modifies this`components, this`transitions
      ensures HealthRuns.Enumerates(order, old(components).Keys)
      ensures Now() == HealthRuns.Apply(old(Now()), HealthRuns.Evaluate(order, probes, t))
      ensures transitions == old(transitions) + emitted
    {
      hide EvaluateOne, HealthRuns.Put, HealthRuns.Apply, Visited, HealthRuns.Enumerates;
      emitted, order := [], [];
      ghost var start := Now();
      NoneVisited(start, probes, t);
      var left := components.Keys;
      while left != {}
        invariant Visited(start, Now(), order, left, probes, t)
        invariant transitions == start.log + emitted
        decreases |left|
      {
        var name :| name in left;
        OneVisited(start, Now(), order, left, probes, t, name);
        var more := EvaluateComponent(name, probes, t);
        emitted := emitted + more;
        left, order := left - {name}, order + [name];
      }
      AllVisited(start, Now(), order, probes, t);
    }

    /** One round of the loop: the first finding that applies decides. */
    method EvaluateComponent(name: string, probes: map<string, Probe>, t: int) returns (emitted: seq<Transition>)
      requires name in components
      modifies this`components, this`transitions
      ensures Now() == HealthRuns.Put(old(Now()), name, EvaluateOne(name, old(components)[name], probes, t))
      ensures components.Keys == old(components).Keys
      ensures transitions == old(transitions) + emitted
    {
      hide TransitionTo;
      var c := components[name];
      emitted := [];
      assert components[name := c] == components;
      if c.state.Failed? {
      } else if name in probes && probes[name].processId == c.processId && probes[name].generation == c.generation
                && !probes[name].alive {
        emitted := Transit(name, Failed, ProcessExited, t, "process probe reports that the component exited");
      } else if c.state.Recovering? {
        if TimedOut(t, c.lastTransition, c.policy.recoveryTimeout) {
          emitted := Transit(name, Failed, RecoveryFailed, t, "recovery did not complete before its timeout");
        }
      } else if TimedOut(t, c.lastSeen, c.policy.heartbeatTimeout) {
        emitted := Transit(name, Failed, HeartbeatLost, t, "heartbeat timeout expired");
      } else if TimedOut(t, c.lastProgress, c.policy.noProgressTimeout) {
        emitted := Transit(name, Failed, NoProgress, t, "progress sequence did not advance");
      } else if c.backlog > c.policy.maxBacklog {
        emitted := Transit(name, Degraded, BacklogExceeded, t, "reported backlog exceeds policy");
      } else if c.misses > c.policy.maxDeadlineMisses {
        emitted := Transit(name, Degraded, DeadlineMissesExceeded, t, "reported deadline misses exceed policy");
      } else if c.state.Degraded? {
        emitted := Transit(name, Running, NoReason, t, "degradation signals cleared");
      }
    }

    /** Recover, first region. */
    method BeginRecovery(name: string, t: int) returns (r: Refusal, replaced: nat, ghost i: nat)
      modifies this
      ensures r.Unknown? <==> name !in old(components)
      ensures r.Granted? <==> name in old(components) && MayRecover(old(components)[name])
      ensures r.GenerationOverflow? ==> old(components)[name].generation + 1 >= GENERATION_LIMIT
      ensures !r.Granted? ==> Now() == old(Now())
      ensures r.Granted? ==>
                && replaced == old(components)[name].generation && i == |old(recoveries)|
                && Now() == HealthRuns.Apply(old(Now()), HealthRuns.Recover(name, t))
                && Local(i, name, replaced, 0, HealthRuns.Begun) && MayInstall(components[name], replaced)
                && components[name].generation == replaced
    {
      replaced, i := 0, |recoveries|;
      if name !in components {
        return Unknown, 0, i;
      }
      var c := components[name];
      if !c.state.Failed? {
        return NotFailed, 0, i;
      }
      if c.attempts >= c.policy.maxRestartAttempts {
        return Exhausted, 0, i;
      }
      if c.generation + 1 >= GENERATION_LIMIT {
        return GenerationOverflow, 0, i;
      }
      components := components[name := c.(attempts := c.attempts + 1)];
      var _ := Transit(name, Recovering, c.reason, t, "recovery hooks are running");
      recoveries := recoveries + [HealthRuns.Recovery(name, c.generation, HealthRuns.Begun, false, 0, false)];
      return Granted, c.generation, i;
    }

    /** The locals of call i to Recover. */
    ghost predicate Local(i: nat, name: string, replaced: nat, processId: int, stage: HealthRuns.Stage)
      reads this
    {
      && HealthRuns.InStage(Now(), i, stage) && recoveries[i].name == name && recoveries[i].replaced == replaced
      && recoveries[i].processId == processId
    }

    /** The cleanup hook has succeeded. */
    ghost method AfterCleanup(i: nat, name: string, replaced: nat)
      requires Local(i, name, replaced, 0, HealthRuns.Begun)
      modifies this`recoveries
      ensures Now() == HealthRuns.Apply(old(Now()), HealthRuns.CleanUp(i))
      ensures Local(i, name, replaced, 0, HealthRuns.Cleaned)
    {
      recoveries := recoveries[i := recoveries[i].(stage := HealthRuns.Cleaned)];
    }

    /** The start hook has returned; a failure and an invalid process count as none. */
    ghost method AfterStart(i: nat, name: string, replaced: nat, processId: int)
      requires Local(i, name, replaced, 0, HealthRuns.Cleaned)
      modifies this`recoveries
      ensures Now() == HealthRuns.Apply(old(Now()), HealthRuns.Start(i, processId))
      ensures if processId > 0 then Local(i, name, replaced, processId, HealthRuns.Started)
              else Local(i, name, replaced, 0, HealthRuns.StartFailed)
    {
      var r := recoveries[i].(called := true);
      recoveries := recoveries[i := if processId > 0 then r.(stage := HealthRuns.Started, processId := processId)
                                    else r.(stage := HealthRuns.StartFailed)];
    }

    /** The reconnect hook has succeeded. */
    ghost method AfterReconnect(i: nat, name: string, replaced: nat, processId: int)
      requires Local(i, name, replaced, processId, HealthRuns.Started)
      modifies this`recoveries
      ensures Now() == HealthRuns.Apply(old(Now()), HealthRuns.Connect(i))
      ensures Local(i, name, replaced, processId, HealthRuns.Connected)
    {
      recoveries := recoveries[i := recoveries[i].(stage := HealthRuns.Connected)];
    }

    /** The fail lambda of Recover; components are never removed, so the lookup succeeds. */
    method FailRecovery(ghost i: nat, name: string, replaced: nat, t: int, detail: string)
      requires HealthRuns.Enabled(Now(), HealthRuns.Fail(i, t, detail))
      requires recoveries[i].name == name && recoveries[i].replaced == replaced
      modifies this
      ensures Now() == HealthRuns.Apply(old(Now()), HealthRuns.Fail(i, t, detail))
      ensures name in components && components[name].generation == old(components)[name].generation
      ensures components[name].generation == replaced ==> components[name].state.Failed?
    {
      assert components[name := components[name]] == components;
      if components[name].generation == replaced {
        var _ := Transit(name, Failed, RecoveryFailed, t, detail);
      }
      ghost var r := recoveries[i];
      recoveries := recoveries[i := r.(stage := HealthRuns.Ended(HealthRuns.Refused), cleaned := r.stage.Started?)];
    }

    /** Recover, last region. */
    method Install(ghost i: nat, name: string, replaced: nat, processId: int, t: int) returns (ok: bool)
      requires Local(i, name, replaced, processId, HealthRuns.Connected)
      modifies this
      ensures ok <==> MayInstall(old(components)[name], replaced)
      ensures Now() == HealthRuns.Apply(old(Now()), HealthRuns.Finish(i, t))
      ensures ok ==> name in components && components[name].state.Starting?
                     && components[name].generation == replaced + 1 && components[name].processId == processId
    {
      var c := components[name];
      if c.generation != replaced || !c.state.Recovering? {
        recoveries := recoveries[i := recoveries[i].(stage := HealthRuns.Ended(HealthRuns.Stale))];
        return false;
      }
      components := components[name :=
        c.(processId := processId, generation := replaced + 1, lastSeen := t, lastProgress := t,
           heartbeat := 0, progress := 0, backlog := 0, misses := 0)];
      var _ := Transit(name, Starting, NoReason, t, "restart complete; awaiting heartbeat");
      recoveries := recoveries[i := recoveries[i].(stage := HealthRuns.Ended(HealthRuns.Installed))];
      return true;
    }
  
    /** Recover as one call that nothing interrupts: a run of the model from the regions above. It renews the component
        exactly if all hooks are given, it may be recovered and nothing goes wrong; once begun it otherwise leaves the
        component failed with the first trouble. */
    method Recover(name: string, hooksGiven: bool, h: Course, begin: int, end: int)
      returns (r: Ending, ghost run: seq<HealthRuns.Action>)
      modifies this
      ensures HealthRuns.Legal(old(Now()), run) && Now() == HealthRuns.After(old(Now()), run)
      ensures r.NotBegun? <==> !(hooksGiven && name in old(components) && MayRecover(old(components)[name]))
      ensures r.NotBegun? ==> Now() == old(Now())
      ensures !r.NotBegun? ==>
                && name in components
                && var c := components[name];
                   if Trouble(h).Fine? then
                     && r.Renewed? && c.state.Starting? && c.processId == h.processId
                     && c.generation == old(components)[name].generation + 1
                   else r == Broken(Trouble(h).detail) && c.state.Failed?
                        && c.generation == old(components)[name].generation
    {
      hide HealthRuns.Apply, HealthRuns.Legal, HealthRuns.After, MayRecover, MayInstall, Trouble;
      ghost var s := Now();
      run := [];
      Stay(s);
      if !hooksGiven {
        return NotBegun(NoHooks), run;
      }
      var why, replaced;
      ghost var i;
      why, replaced, i := BeginRecovery(name, begin);
      if !why.Granted? {
        return NotBegun(why), run;
      }
      AfterOne(s, run, HealthRuns.Recover(name, begin));
      run := run + [HealthRuns.Recover(name, begin)];
      var trouble := h.cleanup;
      CleanupFirst(h);
      if trouble.Fine? {
        AfterOne(s, run, HealthRuns.CleanUp(i));
        AfterCleanup(i, name, replaced);
        run := run + [HealthRuns.CleanUp(i)];
        ghost var more;
        trouble, more := RunStart(i, name, replaced, h, s, run);
        run := run + more;
      }
      if trouble.Wrong? {
        AfterOne(s, run, HealthRuns.Fail(i, end, trouble.detail));
        FailRecovery(i, name, replaced, end, trouble.detail);
        run := run + [HealthRuns.Fail(i, end, trouble.detail)];
        return Broken(trouble.detail), run;
      }
      AfterOne(s, run, HealthRuns.Finish(i, end));
      var ok := Install(i, name, replaced, h.processId, end);
      run := run + [HealthRuns.Finish(i, end)];
      return if ok then Renewed else Overtaken, run;
    }

    /** From the backoff to the reconnect hook. */
    method RunStart(ghost i: nat, name: string, replaced: nat, h: Course, ghost s: HealthRuns.State,
                    ghost run: seq<HealthRuns.Action>)
      returns (trouble: Answer, ghost more: seq<HealthRuns.Action>)
      requires h.cleanup.Fine? && Local(i, name, replaced, 0, HealthRuns.Cleaned)
      requires HealthRuns.Legal(s, run) && HealthRuns.After(s, run) == Now()
      modifies this`recoveries
      ensures trouble == Trouble(h)
      ensures HealthRuns.Legal(s, run + more) && HealthRuns.After(s, run + more) == Now()
      ensures if trouble.Fine? then Local(i, name, replaced, h.processId, HealthRuns.Connected)
              else HealthRuns.Enabled(Now(), HealthRuns.Fail(i, 0, ""))
                   && recoveries[i].name == name && recoveries[i].replaced == replaced
    {
      hide HealthRuns.Apply, HealthRuns.Legal, HealthRuns.After;
      more := [];
      assert run + more == run;
      if h.backoffTooLong {
        return Wrong("recovery deadline expires during backoff"), more;
      }
      if h.lateBeforeStart {
        return Wrong("recovery timed out before restart"), more;
      }
      ghost var p := if h.start.Fine? then h.processId else 0;
      AfterOne(s, run, HealthRuns.Start(i, p));
      AfterStart(i, name, replaced, p);
      more := [HealthRuns.Start(i, p)];
      if h.start.Wrong? {
        return h.start, more;
      }
      if h.processId <= 0 {
        return Wrong("start hook returned an invalid process id"), more;
      }
      if h.lateAfterStart {
        return Wrong("recovery timed out after restart"), more;
      }
      if h.reconnect.Wrong? {
        return h.reconnect, more;
      }
      AfterOne(s, run + more, HealthRuns.Connect(i));
      AfterReconnect(i, name, replaced, h.processId);
      assert run + more + [HealthRuns.Connect(i)] == run + (more + [HealthRuns.Connect(i)]);
      more := more + [HealthRuns.Connect(i)];
      return Fine, more;
    }
  }

  lemma CleanupFirst(h: Course)
    ensures h.cleanup.Wrong? ==> Trouble(h) == h.cleanup
  {
  }

  lemma Stay(s: HealthRuns.State)
    ensures HealthRuns.Legal(s, []) && HealthRuns.After(s, []) == s
  {
  }

  lemma {:induction false} AfterOne(s: HealthRuns.State, run: seq<HealthRuns.Action>, a: HealthRuns.Action)
    requires HealthRuns.Legal(s, run) && HealthRuns.Enabled(HealthRuns.After(s, run), a)
    ensures HealthRuns.Legal(s, run + [a])
    ensures HealthRuns.After(s, run + [a]) == HealthRuns.Apply(HealthRuns.After(s, run), a)
    decreases |run|
  {
    hide HealthRuns.Apply, HealthRuns.Enabled;
    if run == [] {
      assert run + [a] == [a] && [a][1..] == [];
    } else {
      AfterOne(HealthRuns.Apply(s, run[0]), run[1..], a);
      assert (run + [a])[1..] == run[1..] + [a];
    }
  }

  /** The loop of Evaluate when it has visited the components in order and those in left are still to come. */
  ghost predicate Visited(
    start: HealthRuns.State, now: HealthRuns.State, order: seq<string>, left: set<string>, probes: map<string, Probe>, t: int)
  {
    && left <= start.components.Keys == now.components.Keys
    && HealthRuns.Enumerates(order, start.components.Keys - left)
    && now == HealthRuns.EvaluateAll(start, order, probes, t)
  }

  lemma NoneVisited(s: HealthRuns.State, probes: map<string, Probe>, t: int)
    ensures Visited(s, s, [], s.components.Keys, probes, t)
  {
    assert s.components.Keys - s.components.Keys == {};
  }

  lemma OneVisited(
    start: HealthRuns.State, now: HealthRuns.State, order: seq<string>, left: set<string>, probes: map<string, Probe>, t: int,
    name: string)
    requires Visited(start, now, order, left, probes, t) && name in left
    ensures name in now.components
    ensures Visited(start, HealthRuns.Put(now, name, EvaluateOne(name, now.components[name], probes, t)), order + [name],
                    left - {name}, probes, t)
  {
    hide EvaluateOne, HealthRuns.Enumerates, HealthRuns.EvaluateAll;
    EnumeratesWithin(order, start.components.Keys - left);
    OneMore(start, order, probes, t, name);
    EnumeratesMore(order, start.components.Keys - left, name);
    assert start.components.Keys - (left - {name}) == start.components.Keys - left + {name};
    EnumeratesWithin(order + [name], start.components.Keys - (left - {name}));
  }

  lemma AllVisited(
    start: HealthRuns.State, now: HealthRuns.State, order: seq<string>, probes: map<string, Probe>, t: int)
    requires Visited(start, now, order, {}, probes, t)
    ensures HealthRuns.Enumerates(order, start.components.Keys)
    ensures now == HealthRuns.Apply(start, HealthRuns.Evaluate(order, probes, t))
  {
    assert start.components.Keys - {} == start.components.Keys;
  }

  lemma EnumeratesWithin(order: seq<string>, names: set<string>)
    requires HealthRuns.Enumerates(order, names)
    ensures forall i :: 0 <= i < |order| ==> order[i] in names
  {
  }

  lemma EnumeratesMore(order: seq<string>, names: set<string>, name: string)
    requires HealthRuns.Enumerates(order, names) && name !in names
    ensures HealthRuns.Enumerates(order + [name], names + {name})
  {
    assert name == (order + [name])[|order|];
    assert forall n :: n in order ==> n in order + [name];
  }

  lemma {:induction false} OneMore(s: HealthRuns.State, order: seq<string>, probes: map<string, Probe>, t: int, name: string)
    requires name in s.components && forall i :: 0 <= i < |order| ==> order[i] in s.components
    ensures var r := HealthRuns.EvaluateAll(s, order, probes, t);
            && name in r.components
            && HealthRuns.EvaluateAll(s, order + [name], probes, t)
               == HealthRuns.Put(r, name, EvaluateOne(name, r.components[name], probes, t))
    decreases |order|
  {
    hide EvaluateOne;
    if order == [] {
      assert order + [name] == [name] && [name][1..] == [];
    } else {
      var u := HealthRuns.Put(s, order[0], EvaluateOne(order[0], s.components[order[0]], probes, t));
      OneMore(u, order[1..], probes, t, name);
      assert (order + [name])[1..] == order[1..] + [name];
    }
  }
}
