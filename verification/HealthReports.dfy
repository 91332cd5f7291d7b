/** What the health monitor knows of a component is what was reported: its signs of life, its load and the start of its
    recovery, told from the actions of the run. */
module HealthReports {
  import opened ComponentHealth
  import opened HealthRuns
  import opened HealthGuarantees

  /** What the actions of a run have said of a component: the incarnation and its process, the last heartbeat and the last
      rise of progress with their times, the last load reports, the last Recover and how many there were, and the limits it was registered with. */
  datatype Signs = Signs(
    generation: nat, processId: int, beat: nat, seen: int, level: nat, progressed: int, backlog: nat, misses: nat,
    recovered: int, attempts: nat, policy: Policy)

  /** The signs after one more action. Reports count if they name the present generation and their sequence does not fall;
      progress counts only if it rises; and a recovery that installs its process begins a new incarnation afresh. */
  function Sign(s: State, a: Action, name: string, was: Signs): Signs
    requires Enabled(s, a)
  {
    match a
    case Heartbeat(n, g, q, t) =>
      if n == name && g == was.generation && q >= was.beat then was.(beat := q, seen := t) else was
    case Progress(n, g, q, t) =>
      if n == name && g == was.generation && q > was.level then was.(level := q, progressed := t) else was
    case Backlog(n, g, depth) => if n == name && g == was.generation then was.(backlog := depth) else was
    case Misses(n, g, misses) => if n == name && g == was.generation then was.(misses := misses) else was
    case Recover(n, t) => if n == name then was.(recovered := t, attempts := was.attempts + 1) else was
    case Finish(i, t) =>
      if s.recoveries[i].name == name && MayInstall(s.components[name], s.recoveries[i].replaced)
      then Signs(was.generation + 1, s.recoveries[i].processId, 0, t, 0, t, 0, 0, was.recovered, was.attempts, was.policy)
      else was
    case _ => was
  }

  /** The signs of a component after a run from a state in which it was not registered. */
  function SignsAfter(s: State, run: seq<Action>, name: string, was: seq<Signs>): seq<Signs>
    requires Legal(s, run)
    decreases |run|
  {
    if run == [] then was
    else
      var a := run[0];
      var now := if was != [] then [Sign(s, a, name, was[0])]
                 else if a.Register? && a.name == name
                 then [Signs(a.generation, a.processId, 0, a.t, 0, a.t, 0, 0, a.t, 0, a.policy)]
                 else [];
      SignsAfter(Apply(s, a), run[1..], name, now)
  }

  predicate Shows(c: Component, g: Signs) {
    && c.generation == g.generation && c.processId == g.processId && c.heartbeat == g.beat && c.lastSeen == g.seen
    && c.progress == g.level && c.lastProgress == g.progressed && c.backlog == g.backlog && c.misses == g.misses
    && c.attempts == g.attempts && c.policy == g.policy && ValidPolicy(g.policy)
     && (c.state.Recovering? ==> c.lastTransition == g.recovered)
  }

  predicate Known(s: State, name: string, was: seq<Signs>) {
    |was| <= 1 && (name in s.components <==> was != []) && (was != [] ==> Shows(s.components[name], was[0]))
  }

  /** A transition other than to Recovering shows no other signs. */
  lemma TransitionShows(name: string, c: Component, state: Health, reason: Reason, t: int, detail: string, g: Signs)
    requires Shows(c, g)
    ensures !state.Recovering? ==> Shows(TransitionTo(name, c, state, reason, t, detail).0, g)
    ensures !c.state.Recovering? ==>
              Shows(TransitionTo(name, c, state, reason, t, detail).0, g.(recovered := t))
  {
  }

  lemma EvaluateShows(s: State, a: Action, name: string, g: Signs)
    requires Enabled(s, a) && a.Evaluate? && name in s.components && Shows(s.components[name], g)
    ensures name in Apply(s, a).components && Shows(Apply(s, a).components[name], g)
  {
    hide EvaluateAll, Enumerates, TransitionTo, Dead, Shows, Judge, Edge;
    var c := s.components[name];
    OrderIsWhole(a.order, s.components.Keys, name);
    EvaluatePointwise(s, a.order, a.probes, a.t, name);
    JudgeIsRight(c, Dead(c, a.probes, name), a.t);
    var v := Judge(c, Dead(c, a.probes, name), a.t);
    if v.Move? {
      TransitionShows(name, c, v.state, v.reason, a.t, v.detail, g);
    }
  }

  lemma RecoveryShows(s: State, a: Action, name: string, g: Signs)
    requires Inv(s) && Enabled(s, a) && (a.Recover? || a.Fail? || a.Finish?)
    requires name in s.components && Shows(s.components[name], g)
    ensures name in Apply(s, a).components && Shows(Apply(s, a).components[name], Sign(s, a, name, g))
  {
    hide Inv;
    if !a.Recover? {
      RecoveryAt(s, a.i);
    }
  }

  lemma ReportShows(s: State, a: Action, name: string, g: Signs)
    requires Enabled(s, a) && !a.Evaluate? && !a.Recover? && !a.Fail? && !a.Finish?
    requires name in s.components && Shows(s.components[name], g)
    ensures name in Apply(s, a).components && Shows(Apply(s, a).components[name], Sign(s, a, name, g))
  {
  }

  lemma StepShows(s: State, a: Action, name: string, was: seq<Signs>)
    requires Inv(s) && Enabled(s, a) && Known(s, name, was)
    ensures Known(Apply(s, a), name, SignsAfter(s, [a], name, was))
  {
    hide Inv, Shows, Sign, Apply;
    assert [a][1..] == [];
    OneStep(s, a);
    if was != [] {
      if a.Evaluate? {
        EvaluateShows(s, a, name, was[0]);
        EvaluateSigns(s, a, name, was[0]);
      } else if a.Recover? || a.Fail? || a.Finish? {
        RecoveryShows(s, a, name, was[0]);
      } else {
        ReportShows(s, a, name, was[0]);
      }
    } else {
      NewShows(s, a, name);
    }
  }

  lemma OneStep(s: State, a: Action)
    requires Enabled(s, a)
    ensures Legal(s, [a])
  {
    hide Apply, Enabled;
    assert [a][1..] == [];
  }

  lemma EvaluateSigns(s: State, a: Action, name: string, g: Signs)
    requires Enabled(s, a) && a.Evaluate?
    ensures Sign(s, a, name, g) == g
  {
  }

  lemma NewShows(s: State, a: Action, name: string)
    requires Inv(s) && Enabled(s, a) && name !in s.components
    ensures name in Apply(s, a).components <==> a.Register? && a.name == name
    ensures a.Register? && a.name == name ==>
              Shows(Apply(s, a).components[name], Signs(a.generation, a.processId, 0, a.t, 0, a.t, 0, 0, a.t, 0, a.policy))
  {
    hide Inv, EvaluateAll, Enumerates, TransitionTo, HeartbeatOf, ProgressOf;
    if a.Evaluate? {
      OrderIsWhole(a.order, s.components.Keys, name);
      EvaluatePointwise(s, a.order, a.probes, a.t, name);
    }
  }

  lemma {:induction false} RunShows(s: State, run: seq<Action>, name: string, was: seq<Signs>)
    requires Inv(s) && Legal(s, run) && Known(s, name, was)
    ensures Known(After(s, run), name, SignsAfter(s, run, name, was))
    decreases |run|
  {
    hide Inv, Apply, Enabled, Known, Sign;
    if run != [] {
      StepKeeps(s, run[0]);
      StepShows(s, run[0], name, was);
      assert [run[0]][1..] == [];
      RunShows(Apply(s, run[0]), run[1..], name, SignsAfter(s, [run[0]], name, was));
    }
  }

  /** In every reachable state a registered component shows exactly what the run has reported of it. */
  lemma MonitorShowsReports(run: seq<Action>, name: string)
    requires Reachable(run)
    ensures var s := After(Empty(), run);
            var g := SignsAfter(Empty(), run, name, []);
            && (name in s.components <==> g != [])
            && (name in s.components ==> Shows(s.components[name], g[0]))
  {
    hide Inv, Legal, After, SignsAfter, Shows;
    EmptyHolds();
    RunShows(Empty(), run, name, []);
  }

  /** And Evaluate judges it by those reports alone, in numbers. A failed component stays failed. One whose present process
      was probed and found dead is failed. At time t a recovering one is failed exactly if its last Recover is further back
      than its recovery timeout; a working one exactly if its last heartbeat or its last progress is further back than its
      limits, and otherwise it is degraded exactly if its last reported backlog or misses exceed theirs. */
  lemma EvaluateGoesByReports(run: seq<Action>, order: seq<string>, probes: map<string, Probe>, t: int, name: string)
    requires Reachable(run) && Enabled(After(Empty(), run), Action.Evaluate(order, probes, t))
    requires name in After(Empty(), run).components
    ensures var s := After(Empty(), run);
            var u := Apply(s, Action.Evaluate(order, probes, t));
            && SignsAfter(Empty(), run, name, []) != [] && name in u.components
            && var g := SignsAfter(Empty(), run, name, [])[0];
               var was, state := s.components[name].state, u.components[name].state;
               var dead := name in probes && probes[name] == Probe(g.processId, g.generation, false);
               var silent := t > g.seen + g.policy.heartbeatTimeout || t > g.progressed + g.policy.noProgressTimeout;
               var loaded := g.backlog > g.policy.maxBacklog || g.misses > g.policy.maxDeadlineMisses;
               if was.Failed? || dead then state.Failed?
               else if was.Recovering? then
                 state == if t > g.recovered + g.policy.recoveryTimeout then Failed else Recovering
               else (state.Failed? <==> silent) && (state.Degraded? <==> !silent && loaded)
                    && (state.Starting? <==> was.Starting? && !silent && !loaded)
  {
    hide Inv, Legal, After, SignsAfter, EvaluateAll, Enumerates, EvaluateOne;
    var s := After(Empty(), run);
    MonitorShowsReports(run, name);
    OrderIsWhole(order, s.components.Keys, name);
    EvaluatePointwise(s, order, probes, t, name);
    ReasonIsFirst(name, s.components[name], probes, t);
  }

  /** What a report is answered, in numbers: it is accepted exactly if it names the present generation and its sequence is
      not below the last one; a stale generation is told apart from a sequence that fell. The first heartbeat accepted from
      a starting component makes it run, and no report changes the state otherwise. */
  lemma ReportsAreAnswered(run: seq<Action>, name: string, generation: nat, n: nat, t: int)
    requires Reachable(run) && name in After(Empty(), run).components
    ensures SignsAfter(Empty(), run, name, []) != []
    ensures var c := After(Empty(), run).components[name];
            var g := SignsAfter(Empty(), run, name, [])[0];
            var beat, level := HeartbeatOf(name, c, generation, n, t), ProgressOf(c, generation, n, t);
            var backlog, misses := BacklogOf(c, generation, n), MissesOf(c, generation, n);
            && (beat.1.Accepted? <==> generation == g.generation && n >= g.beat)
            && (beat.1.StaleGeneration? <==> generation != g.generation)
            && (beat.1.Regressed? <==> generation == g.generation && n < g.beat)
            && beat.0.0.state == (if c.state.Starting? && beat.1.Accepted? then Running else c.state)
            && (level.1.Accepted? <==> generation == g.generation && n >= g.level)
            && (level.1.StaleGeneration? <==> generation != g.generation)
            && (level.1.Regressed? <==> generation == g.generation && n < g.level)
            && (backlog.1.Accepted? <==> generation == g.generation)
            && (backlog.1.StaleGeneration? <==> generation != g.generation)
            && (misses.1.Accepted? <==> generation == g.generation)
            && (misses.1.StaleGeneration? <==> generation != g.generation)
            && level.0.state == c.state && backlog.0.state == c.state && misses.0.state == c.state
  {
    hide Inv, Legal, After, SignsAfter;
    MonitorShowsReports(run, name);
  }

  /** Recover makes a failed component recovering and keeps the reason it failed for. */
  lemma RecoveryKeepsReason(run: seq<Action>, name: string, t: int)
    requires Reachable(run) && Enabled(After(Empty(), run), Action.Recover(name, t))
    ensures var s := After(Empty(), run);
            var u := Apply(s, Action.Recover(name, t));
            && name in u.components && u.components[name].state.Recovering?
            && u.components[name].reason == s.components[name].reason
            && |u.log| == |s.log| + 1
  {
    hide Inv, Legal, After;
  }

  /** Recover may begin exactly if the component is failed, has been recovered less often
      than its policy allows and has a number left for a new incarnation. */
  lemma RecoveryMayBeginIff(run: seq<Action>, name: string, t: int)
    requires Reachable(run) && name in After(Empty(), run).components
    ensures SignsAfter(Empty(), run, name, []) != []
    ensures var s := After(Empty(), run);
            var g := SignsAfter(Empty(), run, name, [])[0];
            Enabled(s, Action.Recover(name, t)) <==>
              && s.components[name].state.Failed? && g.attempts < g.policy.maxRestartAttempts
              && g.generation < 0xffff_ffff_ffff_ffff
  {
    hide Inv, Legal, After, SignsAfter;
    MonitorShowsReports(run, name);
  }
}
