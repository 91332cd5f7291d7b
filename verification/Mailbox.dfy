/** Subscriptions and services as mailboxes: callbacks of one mailbox never overlap, and no wakeup is lost if and only if
    the callback group has room for the capacities of all its tasks. */
module Mailbox {
  import opened Subscription
  import opened Tasks
  import opened Runtime

  /** The thread is inside ProcessOne of the subscription or service t, the Notify at its end included. */
  predicate InProcess(th: Thread, t: nat) {
    || (th.Running? && th.job.task == t && !th.at.Done?)
    || (th.Calling? && th.task == t && th.next.ToCallback?)
  }

  function Tokens(s: State, t: nat): nat {
    Count(s.threads, IsToken(t)) + Jobs(s.queue, t)
  }

  /** A lost wakeup: an open subscription or service holds messages and marks itself scheduled, the executor runs, and yet
      no thread and no job is there to process them. */
  predicate Lost(c: Config, s: State, t: nat)
    requires t < |s.subs|
  {
    s.running && !s.subs[t].closed && s.subs[t].scheduled && s.subs[t].queue != [] && Tokens(s, t) == 0
  }

  lemma {:induction false} CountTwo(threads: seq<Thread>, i: nat, j: nat, q: Query)
    requires i < j < |threads| && Match(threads[i], q) && Match(threads[j], q)
    ensures Count(threads, q) >= 2
  {
    hide Match;
    if i > 0 {
      CountTwo(threads[1..], i - 1, j - 1, q);
    } else {
      CountHas(threads[1..], j - 1, q);
    }
  }

  /** The executor's ledger, at every moment of every run: each release of a task has exactly one fate, the reservations
      are exactly the jobs not yet dispatched and never exceed the capacity (so a job that is dispatched always finds its
      own reservation to give back), and every deadline miss is a warning, a degradation or a drop. */
  lemma ExecutorLedger(c: Config, application: nat, workers: nat, run: seq<Action>, u: nat)
    requires ValidConfig(c) && Legal(c, Init(c, application, workers), run) && u < |c.tasks|
    ensures var s := After(c, Init(c, application, workers), run);
            && u < |s.tasks| && |s.queue| <= c.groupCapacity
            && var t := s.tasks[u];
               var pending := Count(s.threads, IsReserved(u)) + Jobs(s.queue, u) + Count(s.threads, IsPopped(u));
               && t.queued == pending <= c.tasks[u].capacity
               && t.releases == t.overflows + t.refusals + pending + t.started + t.drops + t.discards
               && t.started == t.finished + Count(s.threads, IsRunning(u))
               && t.misses == t.warnings + t.degrades + t.drops <= t.finished + t.drops
  {
    hide Count, Jobs, Legal, After;
    Reachable(c, application, workers, run);
    var s := After(c, Init(c, application, workers), run);
    assert Good(c.tasks[u], ViewOf(s, u));
  }

  /** The books of a mailbox, at every moment of every run: what was taken and what is queued are, in order, messages that
      were received; the queue never outgrows its bound and its reported depth is its length; and while it is open every
      message received was delivered, is being delivered, is queued or was dropped for want of room, and every call
      admitted was answered, is being handled, is queued or was withdrawn by its caller. */
  lemma MailboxBooks(c: Config, application: nat, workers: nat, run: seq<Action>, t: nat)
    requires ValidConfig(c) && Legal(c, Init(c, application, workers), run) && HasMail(c, t)
    ensures var s := After(c, Init(c, application, workers), run);
            && t < |s.subs|
            && var sub := s.subs[t];
               var inFlight := Count(s.threads, IsInFlight(t));
               && Within(sub.taken + sub.queue, sub.received)
               && |sub.queue| == sub.queueDepth <= c.tasks[t].use.sub.queueCapacity
               && sub.droppedMessages == sub.overflows + sub.throws && |sub.taken| == sub.deliveredMessages + inFlight
               && (!sub.closed ==>
                     sub.receivedMessages
                     == sub.deliveredMessages + inFlight + |sub.queue| + sub.overflows + sub.withdrawn)
               && (if c.tasks[t].use.Subscribed? then sub.withdrawn == 0 else sub.overflows == 0)
               && (!sub.closed && c.tasks[t].use.sub.policy.DropOldest? ==> Suffix(sub.queue, sub.received))
               && (sub.closed ==> sub.queue == [])
  {
    hide Count, Jobs, Legal, After, Within, Accounts;
    Reachable(c, application, workers, run);
    var s := After(c, Init(c, application, workers), run);
    assert Good(c.tasks[t], ViewOf(s, t));
  }

  lemma StepKeepsMail(c: Config, s: State, a: Action, t: nat)
    requires ValidConfig(c) && Shaped(c, s) && Enabled(c, s, a) && HasMail(c, t)
    requires c.tasks[t].use.sub.policy.DropNewest?
    ensures var s' := Apply(c, s, a);
            && t < |s'.subs| && (s.subs[t].closed ==> s'.subs[t].closed)
            && (!s'.subs[t].closed ==> s.subs[t].taken + s.subs[t].queue <= s'.subs[t].taken + s'.subs[t].queue)
  {
    hide AcceptOf, FinishOf, DispatchOf, ApplyEnqueue, KnownJobs;
    var sub := s.subs[t];
    if a.AcceptMessage? && a.task == t {
      AcceptInNumbers(c.tasks[t].use.sub, sub, a.message);
      assert sub.taken + (sub.queue + [a.message]) == sub.taken + sub.queue + [a.message];
    } else if a.TakeMessage? && sub.queue != [] {
      assert sub.taken + [sub.queue[0]] + sub.queue[1..] == sub.taken + sub.queue;
    } else if a.Number? || a.Reserve? || a.Push? {
      EnqueueKeepsMail(c, s, a);
    }
  }

  /** Under DropNewest nothing that was once kept is ever given up: while the subscription is open, what it has taken and
      still holds only grows at the end. */
  lemma {:induction false} KeptIsNeverLost(c: Config, s: State, run: seq<Action>, t: nat)
    requires ValidConfig(c) && Inv(c, s) && Legal(c, s, run) && HasMail(c, t) && c.tasks[t].use.sub.policy.DropNewest?
    ensures t < |s.subs| && t < |After(c, s, run).subs|
    ensures var u, v := s.subs[t], After(c, s, run).subs[t];
            (u.closed ==> v.closed) && (!v.closed ==> u.taken + u.queue <= v.taken + v.queue)
    decreases |run|
  {
    hide Inv, Apply, Enabled, Shaped;
    ShapeOfInv(c, s);
    if run != [] {
      StepKeepsMail(c, s, run[0], t);
      StepKeeps(c, s, run[0]);
      KeptIsNeverLost(c, Apply(c, s, run[0]), run[1..], t);
    }
  }

  /** With any number of workers, at every moment of every run, whatever is closed, cancelled or stopped, and however
      small the group: no two threads are inside ProcessOne of one subscription or service. */
  lemma CallbacksNeverOverlap(c: Config, application: nat, workers: nat, run: seq<Action>, t: nat, i: nat, j: nat)
    requires ValidConfig(c) && Legal(c, Init(c, application, workers), run) && HasMail(c, t)
    requires i < j < |After(c, Init(c, application, workers), run).threads|
    ensures var s := After(c, Init(c, application, workers), run);
            !(InProcess(s.threads[i], t) && InProcess(s.threads[j], t))
  {
    hide Count, Jobs, Legal, After, Accounts, Books, Unique, Shaped;
    var s := After(c, Init(c, application, workers), run);
    Reachable(c, application, workers, run);
    ShapeOfInv(c, s);
    assert Good(c.tasks[t], ViewOf(s, t));
    if InProcess(s.threads[i], t) && InProcess(s.threads[j], t) {
      CountTwo(s.threads, i, j, IsToken(t));
    }
  }

  /** If the group has room for the capacities of all its tasks, then while the executor runs every open subscription
      or service that holds messages is scheduled and has exactly one activation, and its bookkeeping is exact. */
  lemma NoLostWakeup(c: Config, application: nat, workers: nat, run: seq<Action>, t: nat)
    requires ValidConfig(c) && Legal(c, Init(c, application, workers), run) && HasMail(c, t)
    requires SumCapacity(c.tasks) <= c.groupCapacity
    ensures var s := After(c, Init(c, application, workers), run);
            && t < |s.subs|
            && (s.running && !s.subs[t].closed ==>
                  && Tokens(s, t) == One(s.subs[t].scheduled)
                  && (s.subs[t].queue != [] ==> s.subs[t].scheduled)
                  && Books(c.tasks[t].use.sub, s.subs[t], Count(s.threads, IsInFlight(t))))
  {
    hide Books, Accounts, Shaped, Unique;
    var s := After(c, Init(c, application, workers), run);
    Reachable(c, application, workers, run);
    ShapeOfInv(c, s);
    assert Good(c.tasks[t], ViewOf(s, t));
  }

  lemma ShapeOfInv(c: Config, s: State)
    requires Inv(c, s)
    ensures |s.tasks| == |s.subs| == |c.tasks|
  {
  }

  /** The same condition makes every Notify of an open mailbox succeed, in each of the three regions it crosses. */
  lemma NotifySucceeds(c: Config, application: nat, workers: nat, run: seq<Action>, a: Action)
    requires ValidConfig(c) && Legal(c, Init(c, application, workers), run)
    requires SumCapacity(c.tasks) <= c.groupCapacity
    requires var s := After(c, Init(c, application, workers), run);
             && s.running && Shaped(c, s) && Enabled(c, s, a) && (a.Number? || a.Reserve? || a.Push?)
             && HasMail(c, s.threads[a.who].task) && !s.subs[s.threads[a.who].task].closed
    ensures var s := After(c, Init(c, application, workers), run);
            var s' := Apply(c, s, a);
            if a.Push? then
              && |s'.queue| == |s.queue| + 1 && s'.queue[|s.queue|].task == s.threads[a.who].task
              && s'.threads[a.who] == Return(s.threads[a.who], true)
            else s'.threads[a.who].Calling? && s'.threads[a.who].stage != s.threads[a.who].stage
  {
    var s := After(c, Init(c, application, workers), run);
    Reachable(c, application, workers, run);
    var t := s.threads[a.who].task;
    assert Good(c.tasks[t], ViewOf(s, t));
    hide Books, Count, Jobs, Unique;
    if a.Reserve? {
      TokenReserves(c, s, a.who);
    } else if a.Push? {
      Holds(c, s, a.who);
      ReservationHasRoom(c, s, a.who);
    }
  }

  /** Every job handed to a worker comes before every job left waiting: by a higher priority, with the same priority by an
      earlier release, and with the same release by a smaller number. */
  lemma DispatchIsMostUrgent(c: Config, application: nat, workers: nat, run: seq<Action>, who: nat, k: nat, i: nat)
    requires ValidConfig(c) && Legal(c, Init(c, application, workers), run)
    requires var s := After(c, Init(c, application, workers), run);
             Shaped(c, s) && Enabled(c, s, Pop(who, k)) && i < |s.queue| - 1
    ensures var s := After(c, Init(c, application, workers), run);
            var s' := Apply(c, s, Pop(who, k));
            && s'.threads[who].Popped? && |s'.queue| == |s.queue| - 1
            && var job, other := s'.threads[who].popped, s'.queue[i];
               && job.task < |c.tasks| && other.task < |c.tasks|
               && var p, q := c.tasks[job.task].priority, c.tasks[other.task].priority;
                  || p > q
                  || (p == q && job.release < other.release)
                  || (p == q && job.release == other.release && job.sequence < other.sequence)
  {
    hide LessUrgent;
    var s := After(c, Init(c, application, workers), run);
    Reachable(c, application, workers, run);
    var j := if i < k then i else i + 1;
    TopIsStrict(c.tasks, s.queue, k, j);
    UrgencyInNumbers(c.tasks, s.queue[j], s.queue[k]);
  }

  // ----- a lost wakeup is never made good -----

  lemma LostStep(c: Config, s: State, a: Action, t: nat)
    requires ValidConfig(c) && Inv(c, s) && HasMail(c, t) && Enabled(c, s, a) && Lost(c, s, t)
    ensures var s' := Apply(c, s, a);
            && t < |s'.subs| && s'.subs[t].taken == s.subs[t].taken
            && (s'.running && !s'.subs[t].closed ==> Lost(c, s', t))
  {
    StepShaped(c, s, a);
    NoTokenActs(c, s, a, t);
    LostView(c, s, a, t);
  }

  /** The thread that a step moves, if it moves one. */
  function Acting(s: State, a: Action): nat {
    match a
    case CloseSub(_) | CancelTask(_) | StopExecutor | StopGroup => |s.threads|
    case _ => a.who
  }

  lemma NoTokenActs(c: Config, s: State, a: Action, t: nat)
    requires Shaped(c, s) && Enabled(c, s, a) && Tokens(s, t) == 0
    ensures Acting(s, a) < |s.threads| ==> !Match(s.threads[Acting(s, a)], IsToken(t))
    ensures a.Pop? ==> s.queue[a.index].task != t
  {
    hide Match, Count, Jobs;
    var who := Acting(s, a);
    if who < |s.threads| && Match(s.threads[who], IsToken(t)) {
      CountHas(s.threads, who, IsToken(t));
    }
    if a.Pop? {
      JobsRemove(s.queue, a.index, t);
    }
  }

  lemma LostView(c: Config, s: State, a: Action, t: nat)
    requires ValidConfig(c) && Shaped(c, s) && HasMail(c, t) && Enabled(c, s, a) && Lost(c, s, t)
    requires Acting(s, a) < |s.threads| ==> !Match(s.threads[Acting(s, a)], IsToken(t))
    requires a.Pop? ==> s.queue[a.index].task != t
    ensures var s' := Apply(c, s, a);
            && t < |s'.subs| && s'.subs[t].taken == s.subs[t].taken
            && (s'.running && !s'.subs[t].closed ==> Lost(c, s', t))
  {
    hide Count, Jobs, ReserveOf, DispatchOf, FinishOf, GiveBack;
    var s', who := Apply(c, s, a), Acting(s, a);
    if who < |s.threads| {
      CountUpdate(s.threads, who, s'.threads[who], IsToken(t));
    }
    if a.Pop? {
      JobsRemove(s.queue, a.index, t);
    }
    if a.Push? && |s'.queue| > |s.queue| {
      JobsAppend(s.queue, s'.queue[|s.queue|], t);
    }
  }

  /** Once a wakeup is lost, nothing but Close or Stop changes that: no later message of that mailbox is ever handed
      to its callback. */
  lemma {:induction false} LostForEver(c: Config, s: State, run: seq<Action>, t: nat)
    requires ValidConfig(c) && Inv(c, s) && HasMail(c, t) && Legal(c, s, run) && Lost(c, s, t)
    requires After(c, s, run).running
    requires t < |After(c, s, run).subs| && !After(c, s, run).subs[t].closed
    ensures Lost(c, After(c, s, run), t) && After(c, s, run).subs[t].taken == s.subs[t].taken
    decreases |run|
  {
    hide Inv, Apply, Enabled, Shaped, Lost;
    if run != [] {
      StepKeeps(c, s, run[0]);
      LostStep(c, s, run[0], t);
      var s1 := Apply(c, s, run[0]);
      EndsOpen(c, s1, run[1..], t);
      LostForEver(c, s1, run[1..], t);
    }
  }

  /** What runs at the end ran, and what is open at the end was open, before. */
  lemma {:induction false} EndsOpen(c: Config, s: State, run: seq<Action>, t: nat)
    requires Legal(c, s, run) && t < |s.subs| && t < |After(c, s, run).subs|
    requires After(c, s, run).running && !After(c, s, run).subs[t].closed
    ensures s.running && !s.subs[t].closed
    decreases |run|
  {
    hide Apply, Enabled, Shaped;
    if run != [] {
      ClosedStays(c, s, run[0], t);
      EndsOpen(c, Apply(c, s, run[0]), run[1..], t);
    }
  }

  lemma ClosedStays(c: Config, s: State, a: Action, t: nat)
    requires Shaped(c, s) && Enabled(c, s, a) && t < |s.subs|
    ensures var s' := Apply(c, s, a);
            && t < |s'.subs| && (s'.running ==> s.running) && (s.subs[t].closed ==> s'.subs[t].closed)
  {
    hide ReserveOf, DispatchOf, FinishOf, GiveBack;
  }

  // ----- an overcommitted group loses one -----

  lemma {:induction false} RunConcat(c: Config, s: State, r: seq<Action>, q: seq<Action>)
    requires Legal(c, s, r) && Legal(c, After(c, s, r), q)
    ensures Legal(c, s, r + q) && After(c, s, r + q) == After(c, After(c, s, r), q)
    decreases |r|
  {
    hide Apply, Enabled, Shaped;
    if r == [] {
      assert r + q == q;
    } else {
      RunConcat(c, Apply(c, s, r[0]), r[1..], q);
      assert (r + q)[1..] == r[1..] + q;
    }
  }

  lemma RunOne(c: Config, s: State, a: Action)
    requires Shaped(c, s) && Enabled(c, s, a)
    ensures Legal(c, s, [a]) && After(c, s, [a]) == Apply(c, s, a)
  {
    hide Apply, Enabled, Shaped;
    assert [a][1..] == [];
  }

  /** Three actions of one thread take its call through Enqueue, when there is room everywhere. */
  lemma EnqueueRun(c: Config, s: State, who: nat) returns (run: seq<Action>)
    requires Shaped(c, s) && At(s, who) && s.running && s.threads[who].Calling? && s.threads[who].stage.Entering?
    requires var t := s.threads[who].task;
             !s.tasks[t].cancelled && s.tasks[t].queued < c.tasks[t].capacity && |s.queue| < c.groupCapacity
    ensures Legal(c, s, run) && Shaped(c, After(c, s, run))
    ensures var s', th := After(c, s, run), s.threads[who];
            && s'.running && s'.subs == s.subs && s'.threads == s.threads[who := Return(th, true)]
            && s'.queue == s.queue + [Job(th.task, th.release, s.nextSequence)]
            && s'.tasks == s.tasks[th.task := ReserveOf(c.tasks[th.task], s.tasks[th.task]).0]
  {
    var s1 := Apply(c, s, Number(who));
    StepShaped(c, s, Number(who));
    RunOne(c, s, Number(who));
    var s2 := Apply(c, s1, Reserve(who));
    StepShaped(c, s1, Reserve(who));
    RunOne(c, s1, Reserve(who));
    StepShaped(c, s2, Push(who));
    RunOne(c, s2, Push(who));
    RunConcat(c, s, [Number(who)], [Reserve(who)]);
    RunConcat(c, s, [Number(who)] + [Reserve(who)], [Push(who)]);
    run := [Number(who)] + [Reserve(who)] + [Push(who)];
  }

  /** Worker w is in the callback of t, one more message waits for t, and every other task has exactly its jobs in the
      queue; application thread 0 is free to add more. */
  predicate Filling(c: Config, s: State, t: nat, w: nat) {
    && Shaped(c, s) && s.running && HasMail(c, t)
    && 0 < w < |s.threads| && s.threads[0].Free?
    && (forall i :: 0 <= i < |s.threads| && i != w ==> s.threads[i].Free? || s.threads[i].Waiting?)
    && s.threads[w].Running? && s.threads[w].job.task == t && s.threads[w].at.InCallback?
    && !s.subs[t].closed && s.subs[t].scheduled && s.subs[t].queue != []
    && (forall u :: 0 <= u < |c.tasks| ==>
          && !s.tasks[u].cancelled && s.tasks[u].queued == Jobs(s.queue, u)
          && (u != t && HasMail(c, u) && s.tasks[u].queued == 0 ==> s.subs[u] == Fresh()))
    && Jobs(s.queue, t) == 0
  }

  /** Some other task still has capacity while the queue is shorter than the capacities of the others together. */
  lemma {:induction false} FindRoom(c: Config, queue: seq<Job>, t: nat, n: nat) returns (u: nat)
    requires n <= |c.tasks| && t < |c.tasks| && c.tasks[t].capacity == 1 && Jobs(queue, t) == 0
    requires SumJobs(queue, n) + One(t < n) < SumFront(c.tasks, n)
    ensures u < n && u != t && Jobs(queue, u) < c.tasks[u].capacity
    decreases n
  {
    hide Jobs;
    if n - 1 != t && Jobs(queue, n - 1) < c.tasks[n - 1].capacity {
      u := n - 1;
    } else {
      u := FindRoom(c, queue, t, n - 1);
    }
  }

  /** One more job of another task changes nothing else that Filling speaks of. */
  lemma Refilled(c: Config, s: State, s': State, t: nat, w: nat, job: Job)
    requires Filling(c, s, t, w) && Shaped(c, s') && s'.running && s'.threads == s.threads
    requires job.task < |c.tasks| && job.task != t && s'.queue == s.queue + [job]
    requires s.tasks[job.task].queued < c.tasks[job.task].capacity
    requires s'.tasks == s.tasks[job.task := ReserveOf(c.tasks[job.task], s.tasks[job.task]).0]
    requires forall v :: 0 <= v < |c.tasks| && v != job.task ==> s'.subs[v] == s.subs[v]
    ensures Filling(c, s', t, w)
  {
    hide Jobs;
    JobsAppend(s.queue, job, t);
    forall v | 0 <= v < |c.tasks|
      ensures && !s'.tasks[v].cancelled && s'.tasks[v].queued == Jobs(s'.queue, v)
              && (v != t && HasMail(c, v) && s'.tasks[v].queued == 0 ==> s'.subs[v] == Fresh())
    {
      JobsAppend(s.queue, job, v);
    }
  }

  lemma FillOne(c: Config, s: State, t: nat, w: nat) returns (run: seq<Action>)
    requires ValidConfig(c) && Filling(c, s, t, w)
    requires |s.queue| < c.groupCapacity < SumCapacity(c.tasks)
    ensures Legal(c, s, run) && Filling(c, After(c, s, run), t, w)
    ensures |After(c, s, run).queue| == |s.queue| + 1
  {
    hide Jobs, Count;
    SumJobsAll(s.queue, |c.tasks|);
    SumFrontAll(c.tasks);
    var u := FindRoom(c, s.queue, t, |c.tasks|);
    run := FillWith(c, s, t, w, u);
  }

  lemma FillWith(c: Config, s: State, t: nat, w: nat, u: nat) returns (run: seq<Action>)
    requires ValidConfig(c) && Filling(c, s, t, w) && |s.queue| < c.groupCapacity
    requires u < |c.tasks| && u != t && Jobs(s.queue, u) < c.tasks[u].capacity
    ensures Legal(c, s, run) && Filling(c, After(c, s, run), t, w)
    ensures |After(c, s, run).queue| == |s.queue| + 1
  {
    hide Jobs, Count, ReserveOf;
    var a := if HasMail(c, u) then AcceptMessage(0, u, 0, 0) else Notify(0, u, 0);
    StepShaped(c, s, a);
    RunOne(c, s, a);
    var s1 := Apply(c, s, a);
    assert s1.threads[0].Calling? && s1.threads[0].task == u && s1.queue == s.queue && s1.tasks == s.tasks;
    var more := EnqueueRun(c, s1, 0);
    RunConcat(c, s, [a], more);
    run := [a] + more;
    var s' := After(c, s, run);
    assert s'.threads == s.threads;
    Refilled(c, s, s', t, w, s'.queue[|s.queue|]);
  }

  lemma {:induction false} FillUp(c: Config, s: State, t: nat, w: nat) returns (run: seq<Action>)
    requires ValidConfig(c) && Filling(c, s, t, w)
    requires |s.queue| <= c.groupCapacity < SumCapacity(c.tasks)
    ensures Legal(c, s, run) && Filling(c, After(c, s, run), t, w)
    ensures |After(c, s, run).queue| == c.groupCapacity
    decreases c.groupCapacity - |s.queue|
  {
    hide Filling;
    if |s.queue| == c.groupCapacity {
      run := [];
    } else {
      var first := FillOne(c, s, t, w);
      var rest := FillUp(c, After(c, s, first), t, w);
      RunConcat(c, s, first, rest);
      run := first + rest;
    }
  }

  /** From the start to a worker in the callback of t with one more message waiting. */
  lemma Begin(c: Config, application: nat, workers: nat, t: nat) returns (run: seq<Action>, w: nat)
    requires ValidConfig(c) && HasMail(c, t) && application > 0 && workers > 0
    ensures Legal(c, Init(c, application, workers), run)
    ensures Filling(c, After(c, Init(c, application, workers), run), t, w)
    ensures |After(c, Init(c, application, workers), run).queue| == 0
  {
    hide AcceptOf, ReserveOf, Apply, Enabled, After, Legal, Filling, Good, Armed, Jobs;
    var s0 := Init(c, application, workers);
    w := application;
    InitHolds(c, application, workers);
    var a := AcceptMessage(0, t, 0, 0);
    FirstMessage(c, s0, t);
    RunOne(c, s0, a);
    var s1 := Apply(c, s0, a);
    var r := EnqueueRun(c, s1, 0);
    RunConcat(c, s0, [a], r);
    var more := Deliver(c, After(c, s1, r), t, w);
    RunConcat(c, s0, [a] + r, more);
    run := [a] + r + more;
  }

  lemma FirstMessage(c: Config, s: State, t: nat)
    requires ValidConfig(c) && Shaped(c, s) && HasMail(c, t) && At(s, 0) && s.threads[0].Free? && s.subs[t] == Fresh()
    ensures Enabled(c, s, AcceptMessage(0, t, 0, 0)) && Shaped(c, Apply(c, s, AcceptMessage(0, t, 0, 0)))
    ensures var s' := Apply(c, s, AcceptMessage(0, t, 0, 0));
            && s'.threads == s.threads[0 := Calling(t, 0, Entering, ToAccept(0))] && s'.tasks == s.tasks
            && s'.subs == s.subs[t := AcceptOf(c.tasks[t].use.sub, Fresh(), 0).0] && s'.queue == s.queue
            && s'.running == s.running && s'.nextSequence == s.nextSequence
  {
    StepShaped(c, s, AcceptMessage(0, t, 0, 0));
  }

  lemma Deliver(c: Config, s: State, t: nat, w: nat) returns (run: seq<Action>)
    requires ValidConfig(c) && Shaped(c, s) && HasMail(c, t) && s.running
    requires 0 < w < |s.threads| && s.threads[w].Waiting? && s.threads[0].Free?
    requires forall i :: 0 <= i < |s.threads| ==> s.threads[i].Free? || s.threads[i].Waiting?
    requires |s.queue| == 1 && s.queue[0].task == t
    requires s.subs[t] == AcceptOf(c.tasks[t].use.sub, Fresh(), 0).0
    requires forall u :: 0 <= u < |c.tasks| ==>
               s.tasks[u] == (if u == t then ReserveOf(c.tasks[t], NewTask()).0 else NewTask())
               && (u != t ==> s.subs[u] == Fresh())
    ensures Legal(c, s, run) && Filling(c, After(c, s, run), t, w) && After(c, s, run).queue == []
  {
    var r := PopAndTake(c, s, t, w);
    var s1 := After(c, s, r);
    var a := AcceptMessage(0, t, 1, 0);
    StepShaped(c, s1, a);
    RunOne(c, s1, a);
    RunConcat(c, s, r, [a]);
    run := r + [a];
  }

  lemma PopAndTake(c: Config, s: State, t: nat, w: nat) returns (run: seq<Action>)
    requires ValidConfig(c) && Shaped(c, s) && HasMail(c, t) && s.running
    requires w < |s.threads| && s.threads[w].Waiting? && |s.queue| == 1 && s.queue[0].task == t
    requires s.subs[t] == AcceptOf(c.tasks[t].use.sub, Fresh(), 0).0
    requires s.tasks[t] == ReserveOf(c.tasks[t], NewTask()).0
    ensures Legal(c, s, run) && Shaped(c, After(c, s, run))
    ensures var s' := After(c, s, run);
            && s'.running && s'.queue == [] && s'.threads == s.threads[w := Running(s.queue[0], InCallback(0))]
            && s'.tasks == s.tasks[t := s'.tasks[t]] && s'.tasks[t].queued == 0 && !s'.tasks[t].cancelled
            && s'.subs == s.subs[t := Take(s.subs[t]).0]
  {
    var pop, dispatch, take := Pop(w, 0), Dispatch(w, 0), TakeMessage(w);
    var s1 := Apply(c, s, pop);
    StepShaped(c, s, pop);
    RunOne(c, s, pop);
    var s2 := Apply(c, s1, dispatch);
    StepShaped(c, s1, dispatch);
    RunOne(c, s1, dispatch);
    RunConcat(c, s, [pop], [dispatch]);
    StepShaped(c, s2, take);
    RunOne(c, s2, take);
    RunConcat(c, s, [pop] + [dispatch], [take]);
    run := [pop] + [dispatch] + [take];
  }

  /** A full group refuses the re-arm of ProcessOne, which nobody notices. */
  lemma Refuse(c: Config, s: State, t: nat, w: nat) returns (run: seq<Action>)
    requires ValidConfig(c) && Filling(c, s, t, w) && |s.queue| >= c.groupCapacity && !s.groupStopping
    ensures Legal(c, s, run) && t < |After(c, s, run).subs| && Lost(c, After(c, s, run), t)
  {
    hide Jobs, Count;
    var s1 := Apply(c, s, EndCallback(w, false));
    StepShaped(c, s, EndCallback(w, false));
    RunOne(c, s, EndCallback(w, false));
    var s2 := Apply(c, s1, CountMessage(w));
    StepShaped(c, s1, CountMessage(w));
    RunOne(c, s1, CountMessage(w));
    var s3 := Apply(c, s2, CheckMore(w, 0));
    StepShaped(c, s2, CheckMore(w, 0));
    RunOne(c, s2, CheckMore(w, 0));
    var r := [EndCallback(w, false)] + [CountMessage(w)] + [CheckMore(w, 0)];
    RunConcat(c, s, [EndCallback(w, false)], [CountMessage(w)]);
    RunConcat(c, s, [EndCallback(w, false)] + [CountMessage(w)], [CheckMore(w, 0)]);
    var more := RefusedEnqueue(c, s3, w);
    RunConcat(c, s, r, more);
    run := r + more;
    var s' := After(c, s, run);
    CountNone(s'.threads, IsToken(t));
  }

  lemma RefusedEnqueue(c: Config, s: State, who: nat) returns (run: seq<Action>)
    requires Shaped(c, s) && At(s, who) && s.running && s.threads[who].Calling? && s.threads[who].stage.Entering?
    requires var t := s.threads[who].task;
             !s.tasks[t].cancelled && s.tasks[t].queued < c.tasks[t].capacity && |s.queue| >= c.groupCapacity
    ensures Legal(c, s, run)
    ensures var s', th := After(c, s, run), s.threads[who];
            && s'.running && s'.subs == s.subs && s'.queue == s.queue
            && s'.threads == s.threads[who := Return(th, false)]
  {
    var s1 := Apply(c, s, Number(who));
    StepShaped(c, s, Number(who));
    RunOne(c, s, Number(who));
    var s2 := Apply(c, s1, Reserve(who));
    StepShaped(c, s1, Reserve(who));
    RunOne(c, s1, Reserve(who));
    RunOne(c, s2, Push(who));
    RunConcat(c, s, [Number(who)], [Reserve(who)]);
    RunConcat(c, s, [Number(who)] + [Reserve(who)], [Push(who)]);
    run := [Number(who)] + [Reserve(who)] + [Push(who)];
  }

  lemma {:induction false} CountNone(threads: seq<Thread>, q: Query)
    requires forall i :: 0 <= i < |threads| ==> !Match(threads[i], q)
    ensures Count(threads, q) == 0
  {
    hide Match;
    if threads != [] {
      CountNone(threads[1..], q);
    }
  }

  ghost predicate NeverLoses(c: Config, application: nat, workers: nat, t: nat) {
    forall run :: Legal(c, Init(c, application, workers), run) ==>
      var s := After(c, Init(c, application, workers), run); t < |s.subs| && !Lost(c, s, t)
  }

  /** No run ever loses a wakeup of t exactly when the capacities of all tasks of the group together fit the queue of
      the group. */
  lemma WakeupsAreSafeIffCapacityFits(c: Config, application: nat, workers: nat, t: nat)
    requires ValidConfig(c) && HasMail(c, t) && application > 0 && workers > 0
    ensures NeverLoses(c, application, workers, t) <==> SumCapacity(c.tasks) <= c.groupCapacity
  {
    if SumCapacity(c.tasks) <= c.groupCapacity {
      forall run | Legal(c, Init(c, application, workers), run)
        ensures var s := After(c, Init(c, application, workers), run); t < |s.subs| && !Lost(c, s, t)
      {
        hide Books;
        NoLostWakeup(c, application, workers, run, t);
      }
    } else {
      var run := LoseWakeup(c, application, workers, t);
    }
  }

  lemma LoseWakeup(c: Config, application: nat, workers: nat, t: nat) returns (run: seq<Action>)
    requires ValidConfig(c) && HasMail(c, t) && application > 0 && workers > 0
    requires c.groupCapacity < SumCapacity(c.tasks)
    ensures Legal(c, Init(c, application, workers), run)
    ensures var s := After(c, Init(c, application, workers), run); t < |s.subs| && Lost(c, s, t)
  {
    hide Filling, Lost, Init;
    var s0 := Init(c, application, workers);
    var first, w := Begin(c, application, workers, t);
    var second := FillUp(c, After(c, s0, first), t, w);
    RunConcat(c, s0, first, second);
    var s := After(c, s0, first + second);
    NotStopping(c, s, t, w);
    var third := Refuse(c, s, t, w);
    RunConcat(c, s0, first + second, third);
    run := first + second + third;
  }

  lemma NotStopping(c: Config, s: State, t: nat, w: nat)
    requires Filling(c, s, t, w)
    ensures !s.groupStopping
  {
  }
}
