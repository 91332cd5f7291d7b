/** What the health monitor guarantees in every reachable state, whatever the interleaving. */
module HealthGuarantees {
  import opened ComponentHealth
  import opened HealthRuns

  predicate Reachable(run: seq<Action>) {
    Legal(Empty(), run)
  }

  lemma {:induction false} RunKeeps(s: State, run: seq<Action>)
    requires Inv(s) && Legal(s, run)
    ensures Inv(After(s, run))
    decreases |run|
  {
    hide Inv, Apply, Enabled;
    if run != [] {
      StepKeeps(s, run[0]);
      RunKeeps(Apply(s, run[0]), run[1..]);
    }
  }

  lemma ReachableHolds(run: seq<Action>)
    requires Reachable(run)
    ensures Inv(After(Empty(), run))
  {
    hide Inv;
    EmptyHolds();
    RunKeeps(Empty(), run);
  }

  /** The transition log of every component is an unbroken chain of lawful edges from Starting to its present state: Failed
      is left only for Recovering, Recovering is entered only from Failed, and a new incarnation begins only there. The last
      entry tells its state, reason, detail and time of transition. */
  lemma LogIsUnbroken(run: seq<Action>, name: string)
    requires Reachable(run)
    ensures var s := After(Empty(), run);
            name in s.components ==>
              && Reaches(s.log, name, s.components[name].state)
              && (LastOf(s.log, name) != [] ==> Tells(LastOf(s.log, name)[0], s.components[name]))
  {
    hide Legal, After, Reaches, LastOf, Tells;
    ReachableHolds(run);
  }

  /** The generation of a component is the one it was registered with plus its successful recoveries, each of which made a
      generation of its own; calls of the start hook never exceed the attempts, nor those the policy. */
  lemma RecoveriesAreCounted(run: seq<Action>, name: string)
    requires Reachable(run)
    ensures var s := After(Empty(), run);
            name in s.components ==>
              var c := s.components[name];
              && c.generation == c.first + Tally(s.recoveries, name, Succeeded)
              && Tally(s.recoveries, name, StartCalled) <= c.attempts <= c.policy.maxRestartAttempts
  {
    hide Legal, After, Reaches, Tally;
    ReachableHolds(run);
    var s := After(Empty(), run);
    if name in s.components {
      assert Counted(s.components[name], s.recoveries, name);
      TallyAtMost(s.recoveries, name, StartCalled);
    }
  }

  /** No two successful recoveries of a component replaced the same generation, and the process of the present generation
      is the one that the recovery which made it started. */
  lemma SuccessesAreDistinct(run: seq<Action>, i: nat, j: nat)
    requires Reachable(run)
    ensures var s := After(Empty(), run);
            i < j < |s.recoveries| && s.recoveries[i].name == s.recoveries[j].name
            && s.recoveries[i].stage == Ended(Installed) && s.recoveries[j].stage == Ended(Installed) ==>
              s.recoveries[i].replaced != s.recoveries[j].replaced
    ensures var s := After(Empty(), run);
            i < |s.recoveries| && s.recoveries[i].stage == Ended(Installed) ==>
              && s.recoveries[i].name in s.components
              && var c := s.components[s.recoveries[i].name];
                 && s.recoveries[i].replaced + 1 <= c.generation
                 && (s.recoveries[i].replaced + 1 == c.generation ==> c.processId == s.recoveries[i].processId)
  {
    hide Legal, After, Reaches, Tally, HistoryOk;
    ReachableHolds(run);
    var s := After(Empty(), run);
    if i < j < |s.recoveries| {
      assert Apart(s.recoveries[i], s.recoveries[j]);
    }
    if i < |s.recoveries| {
      RecoveryAt(s, i);
    }
  }

  // ----- order -----

  ghost predicate AllOrdered(s: State, r: State) {
    forall n :: n in s.components ==> n in r.components && Ordered(s.components[n], r.components[n])
  }

  lemma PutOrders(s: State, u: State, name: string, change: Change)
    requires name in s.components && Ordered(s.components[name], change.0) && u.components == s.components
    ensures AllOrdered(s, Put(u, name, change))
  {
  }

  lemma OrderedChain(a: State, b: State, c: State)
    requires AllOrdered(a, b) && AllOrdered(b, c)
    ensures AllOrdered(a, c)
  {
    forall n | n in a.components
      ensures n in c.components && Ordered(a.components[n], c.components[n])
    {
      assert Ordered(a.components[n], b.components[n]) && Ordered(b.components[n], c.components[n]);
    }
  }

  lemma {:induction false} EvaluateOrders(s: State, order: seq<string>, probes: map<string, Probe>, t: int)
    requires forall i :: 0 <= i < |order| ==> order[i] in s.components
    ensures AllOrdered(s, EvaluateAll(s, order, probes, t))
    decreases |order|
  {
    hide EvaluateOne, AllOrdered, Logged;
    if order == [] {
      Unchanged(s, s);
    } else {
      var change := EvaluateOne(order[0], s.components[order[0]], probes, t);
      EvaluateIsLawful(order[0], s.components[order[0]], probes, t);
      PutOrders(s, s, order[0], change);
      EvaluateOrders(Put(s, order[0], change), order[1..], probes, t);
      OrderedChain(s, Put(s, order[0], change), EvaluateAll(s, order, probes, t));
    }
  }

  lemma Unchanged(s: State, u: State)
    requires forall n :: n in s.components ==> n in u.components && u.components[n] == s.components[n]
    ensures AllOrdered(s, u)
  {
  }

  lemma StepOrders(s: State, a: Action)
    requires Inv(s) && Enabled(s, a)
    ensures AllOrdered(s, Apply(s, a))
  {
    hide AllOrdered, Inv, Logged, HeartbeatOf, ProgressOf, BacklogOf, MissesOf, EvaluateAll, BeginOf, InstallOf, FailOf;
    match a
    case Register(_, _, _, _, _) => Unchanged(s, Apply(s, a));
    case Heartbeat(name, generation, sequence, t) =>
      ReportsAreLawful(name, s.components[name], generation, sequence, t);
      PutOrders(s, s, name, HeartbeatOf(name, s.components[name], generation, sequence, t).0);
    case Progress(name, generation, sequence, t) =>
      ReportsAreLawful(name, s.components[name], generation, sequence, t);
      PutOrders(s, s, name, (ProgressOf(s.components[name], generation, sequence, t).0, []));
    case Backlog(name, generation, depth) =>
      ReportsAreLawful(name, s.components[name], generation, depth, 0);
      PutOrders(s, s, name, (BacklogOf(s.components[name], generation, depth).0, []));
    case Misses(name, generation, misses) =>
      ReportsAreLawful(name, s.components[name], generation, misses, 0);
      PutOrders(s, s, name, (MissesOf(s.components[name], generation, misses).0, []));
    case Evaluate(order, probes, t) => EvaluateOrders(s, order, probes, t);
    case Recover(name, t) =>
      RecoveryIsLawful(name, s.components[name], 0, 0, t, "");
      var r := Recovery(name, s.components[name].generation, Begun, false, 0, false);
      PutOrders(s, s.(recoveries := s.recoveries + [r]), name, BeginOf(name, s.components[name], t));
    case CleanUp(i) => Unchanged(s, Apply(s, a));
    case Start(i, _) => Unchanged(s, Apply(s, a));
    case Connect(i) => Unchanged(s, Apply(s, a));
    case Fail(i, t, detail) => FailOrders(s, i, t, detail);
    case Finish(i, t) => FinishOrders(s, i, t);
  }

  lemma FailOrders(s: State, i: nat, t: int, detail: string)
    requires Inv(s) && Enabled(s, Fail(i, t, detail))
    ensures AllOrdered(s, FailStep(s, i, t, detail))
  {
    hide AllOrdered, Inv, Logged, FailOf;
    var r := s.recoveries[i];
    RecoveryAt(s, i);
    RecoveryIsLawful(r.name, s.components[r.name], r.replaced, 0, t, detail);
    PutOrders(s, Advance(s, i, r.(stage := Ended(Refused), cleaned := r.stage.Started?)), r.name,
              FailOf(r.name, s.components[r.name], r.replaced, t, detail));
  }

  lemma FinishOrders(s: State, i: nat, t: int)
    requires Inv(s) && Enabled(s, Finish(i, t))
    ensures AllOrdered(s, FinishStep(s, i, t))
  {
    hide AllOrdered, Inv, Logged, InstallOf;
    var r := s.recoveries[i];
    if MayInstall(s.components[r.name], r.replaced) {
      RecoveryIsLawful(r.name, s.components[r.name], r.replaced, r.processId, t, "");
      PutOrders(s, Advance(s, i, r.(stage := Ended(Installed))), r.name,
                InstallOf(r.name, s.components[r.name], r.processId, t));
    } else {
      Unchanged(s, FinishStep(s, i, t));
    }
  }

  /** However a run goes on, generations never fall, and as long as the generation is the same its heartbeat and progress
      sequences do not fall either. */
  lemma {:induction false} SequencesNeverFall(s: State, run: seq<Action>)
    requires Inv(s) && Legal(s, run)
    ensures AllOrdered(s, After(s, run))
    decreases |run|
  {
    hide AllOrdered, Inv, Apply, Enabled;
    if run == [] {
      Unchanged(s, s);
    } else {
      var u := Apply(s, run[0]);
      StepKeeps(s, run[0]);
      StepOrders(s, run[0]);
      SequencesNeverFall(u, run[1..]);
      OrderedChain(s, u, After(s, run));
    }
  }

  // ----- Evaluate -----

  lemma {:induction false} EvaluatePointwise(s: State, order: seq<string>, probes: map<string, Probe>, t: int, name: string)
    requires forall i :: 0 <= i < |order| ==> order[i] in s.components
    requires forall i, j :: 0 <= i < j < |order| ==> order[i] != order[j]
    ensures var r := EvaluateAll(s, order, probes, t);
            && r.components.Keys == s.components.Keys && r.recoveries == s.recoveries
            && (name in s.components ==>
                  r.components[name] == if name in order then EvaluateOne(name, s.components[name], probes, t).0
                                        else s.components[name])
    decreases |order|
  {
    hide EvaluateOne;
    if order != [] {
      var u := Put(s, order[0], EvaluateOne(order[0], s.components[order[0]], probes, t));
      EvaluatePointwise(u, order[1..], probes, t, name);
      assert name in order <==> name == order[0] || name in order[1..];
    }
  }

  /** Whatever the order of the loop, after Evaluate every component counted as working is within all its limits, every
      degraded one is over one of them, and a component is failed exactly if it was or its signs of life, its process or
      its recovery have run out. */
  lemma EvaluateIsSound(s: State, order: seq<string>, probes: map<string, Probe>, t: int, name: string)
    requires Enumerates(order, s.components.Keys)
    ensures var r := EvaluateAll(s, order, probes, t);
            && r.components.Keys == s.components.Keys
            && (name in s.components ==>
                  && Judged(r.components[name], t)
                  && (r.components[name].state.Failed? <==> Failing(s.components[name], probes, name, t)))
  {
    hide EvaluateOne, Judged, Failing;
    EvaluatePointwise(s, order, probes, t, name);
    if name in s.components {
      EvaluateJudges(name, s.components[name], probes, t);
    }
  }

  lemma {:induction false} SettledStays(s: State, order: seq<string>, probes: map<string, Probe>, t: int)
    requires forall i :: 0 <= i < |order| ==> order[i] in s.components
    requires forall n :: n in s.components ==> EvaluateOne(n, s.components[n], probes, t) == (s.components[n], [])
    ensures EvaluateAll(s, order, probes, t) == s
    decreases |order|
  {
    hide EvaluateOne;
    if order != [] {
      var u := Put(s, order[0], EvaluateOne(order[0], s.components[order[0]], probes, t));
      assert u.components == s.components && u.log == s.log;
      SettledStays(u, order[1..], probes, t);
    }
  }

  /** Evaluating twice with the same findings is evaluating once: the second pass logs nothing, even in another order. */
  lemma EvaluateIsIdempotent(s: State, order: seq<string>, again: seq<string>, probes: map<string, Probe>, t: int)
    requires Enumerates(order, s.components.Keys) && Enumerates(again, s.components.Keys)
    ensures var r := EvaluateAll(s, order, probes, t);
            r.components.Keys == s.components.Keys && EvaluateAll(r, again, probes, t) == r
  {
    hide EvaluateOne;
    var r := EvaluateAll(s, order, probes, t);
    EvaluatePointwise(s, order, probes, t, "");
    forall n | n in r.components
      ensures EvaluateOne(n, r.components[n], probes, t) == (r.components[n], [])
    {
      EvaluatePointwise(s, order, probes, t, n);
      EvaluateSettles(n, s.components[n], probes, t);
    }
    SettledStays(r, again, probes, t);
  }

  // ----- started processes -----

  /** A recovery that has returned, started a process, and neither installed it nor had it cleaned up. */
  predicate Orphaned(r: Recovery) {
    r.stage.Ended? && r.processId > 0 && r.stage.outcome != Installed && !r.cleaned
  }

  /** A recovery leaves a started process behind exactly when its last region finds that the component has moved on. */
  lemma OrphanedIffStale(run: seq<Action>, i: nat)
    requires Reachable(run)
    ensures var s := After(Empty(), run);
            i < |s.recoveries| ==> (Orphaned(s.recoveries[i]) <==> s.recoveries[i].stage == Ended(Stale))
  {
    hide Legal, After, Inv;
    ReachableHolds(run);
    var s := After(Empty(), run);
    if i < |s.recoveries| {
      RecoveryAt(s, i);
    }
  }

  /** The step that decides: at its last region a recovery's process is installed if and only if the component is still at
      the generation it set out to replace and still recovering; otherwise the process is left behind. */
  lemma FinishOrphansIff(s: State, i: nat, t: int)
    requires Inv(s) && Enabled(s, Finish(i, t))
    ensures var u := FinishStep(s, i, t);
            && i < |u.recoveries|
            && (Orphaned(u.recoveries[i]) <==> !MayInstall(s.components[s.recoveries[i].name], s.recoveries[i].replaced))
            && (!Orphaned(u.recoveries[i]) <==> u.recoveries[i].stage == Ended(Installed))
  {
    hide Inv, InstallOf;
    RecoveryAt(s, i);
  }

  // ----- which runs leave a process behind -----

  /** How a component stands towards a recovery of its generation g: still recovering at g, failed at g, or beyond g. */
  datatype Standing = Held | Dropped | Superseded

  /** What one action does to that standing, told by the action alone: Evaluate drops a recovering component whose process
      is found dead or whose recovery is overdue, a failing recovery of generation g drops it, another recovery of g that
      comes to its end supersedes it, and a new Recover takes a dropped one up again. */
  function Stand(s: State, a: Action, name: string, g: nat, was: Standing): Standing
    requires Enabled(s, a)
  {
    match was
    case Superseded => Superseded
    case Dropped => if a.Recover? && a.name == name then Held else Dropped
    case Held =>
      match a
      case Evaluate(_, probes, t) =>
        if name in s.components && (Dead(s.components[name], probes, name)
                                    || TimedOut(t, s.components[name].lastTransition,
                                                s.components[name].policy.recoveryTimeout))
        then Dropped else Held
      case Fail(j, _, _) => if Concerns(s.recoveries[j], name, g) then Dropped else Held
      case Finish(j, _) => if Concerns(s.recoveries[j], name, g) then Superseded else Held
      case _ => Held
  }

  predicate Concerns(r: Recovery, name: string, g: nat) {
    r.name == name && r.replaced == g
  }

  function StandingAfter(s: State, run: seq<Action>, name: string, g: nat, was: Standing): Standing
    requires Legal(s, run)
    decreases |run|
  {
    if run == [] then was
    else StandingAfter(Apply(s, run[0]), run[1..], name, g, Stand(s, run[0], name, g, was))
  }

  predicate Stands(s: State, name: string, g: nat, st: Standing) {
    && name in s.components
    && match st
       case Held => MayInstall(s.components[name], g)
       case Dropped => s.components[name].generation == g && s.components[name].state.Failed?
       case Superseded => s.components[name].generation > g
  }

  lemma EvaluateStands(s: State, a: Action, name: string, g: nat, was: Standing)
    requires Enabled(s, a) && a.Evaluate? && Stands(s, name, g, was)
    ensures Stands(Apply(s, a), name, g, Stand(s, a, name, g, was))
  {
    hide EvaluateAll, EvaluateOne, Enumerates, TimedOut, Dead, Judged, Silent;
    OrderIsWhole(a.order, s.components.Keys, name);
    EvaluatePointwise(s, a.order, a.probes, a.t, name);
    EvaluateJudges(name, s.components[name], a.probes, a.t);
    EvaluateIsLawful(name, s.components[name], a.probes, a.t);
  }

  lemma OrderIsWhole(order: seq<string>, names: set<string>, name: string)
    requires Enumerates(order, names)
    ensures name in names ==> name in order
    ensures forall i :: 0 <= i < |order| ==> order[i] in names
    ensures forall i, j :: 0 <= i < j < |order| ==> order[i] != order[j]
  {
  }

  lemma RecoveryStands(s: State, a: Action, name: string, g: nat, was: Standing)
    requires Inv(s) && Enabled(s, a) && (a.Recover? || a.Fail? || a.Finish?) && Stands(s, name, g, was)
    ensures Stands(Apply(s, a), name, g, Stand(s, a, name, g, was))
  {
    hide Inv, Logged, Edge;
    if !a.Recover? {
      RecoveryAt(s, a.i);
    }
  }

  lemma ReportStands(s: State, a: Action, name: string, g: nat, was: Standing)
    requires Enabled(s, a) && !a.Evaluate? && !a.Recover? && !a.Fail? && !a.Finish? && Stands(s, name, g, was)
    ensures Stands(Apply(s, a), name, g, Stand(s, a, name, g, was))
  {
  }

  lemma {:induction false} RunStands(s: State, run: seq<Action>, name: string, g: nat, was: Standing)
    requires Inv(s) && Legal(s, run) && Stands(s, name, g, was)
    ensures Stands(After(s, run), name, g, StandingAfter(s, run, name, g, was))
    decreases |run|
  {
    hide Inv, Apply, Enabled, Stand, Stands;
    if run != [] {
      var a := run[0];
      if a.Evaluate? {
        EvaluateStands(s, a, name, g, was);
      } else if a.Recover? || a.Fail? || a.Finish? {
        RecoveryStands(s, a, name, g, was);
      } else {
        ReportStands(s, a, name, g, was);
      }
      StepKeeps(s, a);
      RunStands(Apply(s, a), run[1..], name, g, Stand(s, a, name, g, was));
    }
  }

  lemma StepRemembers(s: State, a: Action, i: nat)
    requires Enabled(s, a) && i < |s.recoveries|
    ensures var u := Apply(s, a);
            i < |u.recoveries| && u.recoveries[i].name == s.recoveries[i].name
            && u.recoveries[i].replaced == s.recoveries[i].replaced
  {
    hide EvaluateOne, EvaluateAll, Enumerates, TransitionTo;
    if a.Evaluate? {
      OrderIsWhole(a.order, s.components.Keys, "");
      EvaluatePointwise(s, a.order, a.probes, a.t, "");
    }
  }

  lemma {:induction false} RunRemembers(s: State, run: seq<Action>, i: nat)
    requires Legal(s, run) && i < |s.recoveries|
    ensures var u := After(s, run);
            i < |u.recoveries| && u.recoveries[i].name == s.recoveries[i].name
            && u.recoveries[i].replaced == s.recoveries[i].replaced
    decreases |run|
  {
    hide Apply, Enabled;
    if run != [] {
      StepRemembers(s, run[0], i);
      RunRemembers(Apply(s, run[0]), run[1..], i);
    }
  }

  /** Exactly which runs leave a process behind: from the Recover that begins a recovery to the Finish that ends it, the
      actions in between decide. Its process is left behind if and only if some Evaluate or failing recovery dropped the
      component and no later Recover took it up again, or another recovery of the same generation came to its end first. */
  lemma OrphanedIffOvertaken(before: seq<Action>, name: string, t0: int, run: seq<Action>, t: int)
    requires Reachable(before) && Enabled(After(Empty(), before), Recover(name, t0))
    requires Legal(Apply(After(Empty(), before), Recover(name, t0)), run)
    requires var s := After(Empty(), before);
             Enabled(After(Apply(s, Recover(name, t0)), run), Finish(|s.recoveries|, t))
    ensures var s := After(Empty(), before);
            var u := Apply(s, Recover(name, t0));
            var v := FinishStep(After(u, run), |s.recoveries|, t);
            && |s.recoveries| < |v.recoveries|
            && (Orphaned(v.recoveries[|s.recoveries|])
                <==> StandingAfter(u, run, name, s.components[name].generation, Held) != Held)
  {
    hide Inv, Legal, After, StandingAfter, Orphaned, FinishStep;
    var s := After(Empty(), before);
    var i, g := |s.recoveries|, s.components[name].generation;
    ReachableHolds(before);
    StepKeeps(s, Recover(name, t0));
    var u := Apply(s, Recover(name, t0));
    BeginIsTame(name, s.components[name], t0);
    RunKeeps(u, run);
    RunStands(u, run, name, g, Held);
    RunRemembers(u, run, i);
    FinishOrphansIff(After(u, run), i, t);
  }

  lemma One(s: State, a: Action, rest: seq<Action>)
    requires Enabled(s, a) && Legal(Apply(s, a), rest)
    ensures Legal(s, [a] + rest) && After(s, [a] + rest) == After(Apply(s, a), rest)
  {
    hide Enabled, Apply;
    assert ([a] + rest)[1..] == rest;
  }

  predicate Alone(s: State, c: Component, rs: seq<Recovery>) {
    s.components == map["a" := c] && s.recoveries == rs
  }

  lemma EvaluateAlone(s: State, c: Component, rs: seq<Recovery>, t: int)
    requires Alone(s, c, rs)
    ensures Enabled(s, Action.Evaluate(["a"], map[], t))
    ensures Alone(Apply(s, Action.Evaluate(["a"], map[], t)), EvaluateOne("a", c, map[], t).0, rs)
  {
    hide EvaluateOne;
    assert "a" in ["a"];
    EvaluatePointwise(s, ["a"], map[], t, "a");
  }

  lemma RecoverAlone(s: State, c: Component, t: int)
    requires Alone(s, c, []) && MayRecover(c)
    ensures Enabled(s, Recover("a", t))
    ensures Alone(Apply(s, Recover("a", t)), BeginOf("a", c, t).0,
                  [Recovery("a", c.generation, Begun, false, 0, false)])
  {
    hide BeginOf;
  }

  /** The hooks run without incident. */
  lemma HooksAlone(s: State, c: Component, g: nat, rest: seq<Action>)
    requires Alone(s, c, [Recovery("a", g, Begun, false, 0, false)])
    requires Legal(s.(recoveries := [Recovery("a", g, Connected, true, 7, false)]), rest)
    ensures Legal(s, [CleanUp(0), Start(0, 7), Connect(0)] + rest)
    ensures After(s, [CleanUp(0), Start(0, 7), Connect(0)] + rest)
         == After(s.(recoveries := [Recovery("a", g, Connected, true, 7, false)]), rest)
  {
    hide Legal, After;
    var s1 := Apply(s, CleanUp(0));
    var s2 := Apply(s1, Start(0, 7));
    assert Apply(s2, Connect(0)) == s.(recoveries := [Recovery("a", g, Connected, true, 7, false)]);
    One(s2, Connect(0), rest);
    One(s1, Start(0, 7), [Connect(0)] + rest);
    One(s, CleanUp(0), [Start(0, 7)] + ([Connect(0)] + rest));
    assert [CleanUp(0)] + ([Start(0, 7)] + ([Connect(0)] + rest)) == [CleanUp(0), Start(0, 7), Connect(0)] + rest;
  }

  lemma StaleAlone(s: State, c: Component, g: nat, t: int)
    requires Alone(s, c, [Recovery("a", g, Connected, true, 7, false)]) && c.state.Failed?
    ensures Legal(s, [Finish(0, t)])
    ensures Alone(After(s, [Finish(0, t)]), c, [Recovery("a", g, Ended(Stale), true, 7, false)])
  {
    assert [Finish(0, t)][1..] == [];
  }

  /** It does happen: a recovery that takes longer than its timeout is failed by Evaluate while its hooks run, and its
      process is never cleaned up. */
  lemma OrphanHappens() returns (run: seq<Action>)
    ensures Reachable(run)
    ensures var s := After(Empty(), run);
            |s.recoveries| == 1 && Orphaned(s.recoveries[0]) && s.recoveries[0].processId == 7
            && "a" in s.components && s.components["a"].state.Failed?
  {
    hide Legal, After, Apply, Enabled, EvaluateOne, BeginOf;
    var policy := Policy(1, 1, 0, 0, 0, 1, 1);
    var c1 := Registered(0, 1, policy, 0);
    var c2 := EvaluateOne("a", c1, map[], 10).0;
    var c3 := BeginOf("a", c2, 10).0;
    var c4 := EvaluateOne("a", c3, map[], 20).0;
    Course(policy);
    var register := Register("a", 0, 1, policy, 0);
    var first, second := Action.Evaluate(["a"], map[], 10), Action.Evaluate(["a"], map[], 20);
    RegisterAlone(policy);
    var s1 := Apply(Empty(), register);
    EvaluateAlone(s1, c1, [], 10);
    var s2 := Apply(s1, first);
    RecoverAlone(s2, c2, 10);
    var s3 := Apply(s2, Recover("a", 10));
    var s4 := s3.(recoveries := [Recovery("a", 1, Connected, true, 7, false)]);
    EvaluateAlone(s4, c3, s4.recoveries, 20);
    var s5 := Apply(s4, second);
    StaleAlone(s5, c4, 1, 20);
    One(s4, second, [Finish(0, 20)]);
    var tail := [second] + [Finish(0, 20)];
    HooksAlone(s3, c3, 1, tail);
    tail := [CleanUp(0), Start(0, 7), Connect(0)] + tail;
    One(s2, Recover("a", 10), tail);
    One(s1, first, [Recover("a", 10)] + tail);
    One(Empty(), register, [first] + ([Recover("a", 10)] + tail));
    run := [register] + ([first] + ([Recover("a", 10)] + tail));
  }

  lemma RegisterAlone(policy: Policy)
    requires ValidPolicy(policy)
    ensures Enabled(Empty(), Register("a", 0, 1, policy, 0))
    ensures Alone(Apply(Empty(), Register("a", 0, 1, policy, 0)), Registered(0, 1, policy, 0), [])
  {
  }

  /** Silent since 0, the component is failed at 10; recovering since 10 with a timeout of 1, it is failed again at 20. */
  lemma Course(policy: Policy)
    requires policy == Policy(1, 1, 0, 0, 0, 1, 1)
    ensures var c2 := EvaluateOne("a", Registered(0, 1, policy, 0), map[], 10).0;
            && MayRecover(c2) && c2.generation == 1
            && EvaluateOne("a", BeginOf("a", c2, 10).0, map[], 20).0.state.Failed?
  {
  }
}
