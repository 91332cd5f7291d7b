/** The statistics of the executor's tasks and of its mailboxes counted from the events of a run: what was released,
    refused, started, finished and failed, which deadlines were missed, and what was received, dropped and delivered. */
module TaskCounters {
  import Service
  import opened Subscription
  import opened Tasks
  import opened Runtime

  datatype Counts = Counts(
    releases: nat, overflows: nat, started: nat, finished: nat, failures: nat, misses: nat, warnings: nat, degrades: nat,
    drops: nat)

  function CountsOf(t: Task): Counts {
    Counts(t.releases, t.overflows, t.started, t.finished, t.failures, t.misses, t.warnings, t.degrades, t.drops)
  }

  function Nothing(): Counts {
    Counts(0, 0, 0, 0, 0, 0, 0, 0, 0)
  }

  function Add(a: Counts, b: Counts): Counts {
    Counts(a.releases + b.releases, a.overflows + b.overflows, a.started + b.started, a.finished + b.finished,
           a.failures + b.failures, a.misses + b.misses, a.warnings + b.warnings, a.degrades + b.degrades, a.drops + b.drops)
  }

  /** What one action adds to the counts of task u, in numbers. A release that finds the task's reservations used up, or one
      with a reservation that finds the group full, is an overflow. A job taken up more than its deadline after its release
      is dropped if the policy says so. One that ends more than its deadline after its release is a miss: a degradation if
      the policy says so and a warning otherwise. */
  function Event(c: Config, s: State, a: Action, u: nat): Counts
    requires Shaped(c, s) && Enabled(c, s, a) && u < |c.tasks|
  {
    var t, deadline := s.tasks[u], c.tasks[u].deadline;
    match a
    case Reserve(who) =>
      if s.threads[who].task != u || t.cancelled then Nothing()
      else Nothing().(releases := 1, overflows := if t.queued < c.tasks[u].capacity then 0 else 1)
    case Push(who) =>
      if s.threads[who].task != u || s.groupStopping || |s.queue| < c.groupCapacity then Nothing()
      else Nothing().(overflows := 1)
    case Dispatch(who, now) =>
      var th := s.threads[who];
      if th.popped.task != u || t.cancelled || th.stopping then Nothing()
      else if deadline > 0 && now - th.popped.release > deadline && c.tasks[u].policy.Drop?
      then Nothing().(misses := 1, drops := 1)
      else Nothing().(started := 1)
    case Finish(who, now, failed) =>
      var th := s.threads[who];
      if th.job.task != u then Nothing()
      else
        var done := Nothing().(finished := 1, failures := if failed then 1 else 0);
        if deadline == 0 || now - th.job.release <= deadline then done
        else if c.tasks[u].policy.Degrade? then done.(misses := 1, degrades := 1)
        else done.(misses := 1, warnings := 1)
    case _ => Nothing()
  }

  function Events(c: Config, s: State, run: seq<Action>, u: nat): Counts
    requires Legal(c, s, run) && u < |c.tasks|
    decreases |run|
  {
    if run == [] then Nothing()
    else Add(Event(c, s, run[0], u), Events(c, Apply(c, s, run[0]), run[1..], u))
  }

  lemma EnqueueCounts(c: Config, s: State, a: Action, u: nat)
    requires Shaped(c, s) && Enabled(c, s, a) && u < |c.tasks| && (a.Number? || a.Reserve? || a.Push?)
    requires a.Push? ==> s.tasks[s.threads[a.who].task].queued > 0
    ensures u < |Apply(c, s, a).tasks|
    ensures CountsOf(Apply(c, s, a).tasks[u]) == Add(CountsOf(s.tasks[u]), Event(c, s, a, u))
  {
    hide KnownJobs, Return;
    assert ShapedThread(c, s, s.threads[a.who]);
  }

  lemma OtherCounts(c: Config, s: State, a: Action, u: nat)
    requires Shaped(c, s) && Enabled(c, s, a) && u < |c.tasks| && !a.Number? && !a.Reserve? && !a.Push?
    ensures u < |Apply(c, s, a).tasks|
    ensures CountsOf(Apply(c, s, a).tasks[u]) == Add(CountsOf(s.tasks[u]), Event(c, s, a, u))
  {
    hide AcceptOf, Take, Check, CloseOf, GiveUp, Returned, ApplyEnqueue, KnownJobs;
  }

  lemma StepCounts(c: Config, s: State, a: Action, u: nat)
    requires Inv(c, s) && Enabled(c, s, a) && u < |c.tasks|
    ensures u < |Apply(c, s, a).tasks|
    ensures CountsOf(Apply(c, s, a).tasks[u]) == Add(CountsOf(s.tasks[u]), Event(c, s, a, u))
  {
    hide Apply, Event;
    if a.Number? || a.Reserve? || a.Push? {
      if a.Push? {
        Holds(c, s, a.who);
      }
      EnqueueCounts(c, s, a, u);
    } else {
      OtherCounts(c, s, a, u);
    }
  }

  /** The statistics of a task are the sum of the events of the run: a job is dropped or counted as a miss exactly when it
      was taken up or ended more than its deadline after its release. */
  lemma {:induction false} CountersAreEvents(c: Config, s: State, run: seq<Action>, u: nat)
    requires ValidConfig(c) && Inv(c, s) && Legal(c, s, run) && u < |c.tasks|
    ensures u < |s.tasks| && u < |After(c, s, run).tasks|
    ensures CountsOf(After(c, s, run).tasks[u]) == Add(CountsOf(s.tasks[u]), Events(c, s, run, u))
    decreases |run|
  {
    hide Inv, Apply, Enabled, Event;
    TasksOfInv(c, s);
    if run != [] {
      StepCounts(c, s, run[0], u);
      StepKeeps(c, s, run[0]);
      CountersAreEvents(c, Apply(c, s, run[0]), run[1..], u);
    }
  }

  lemma TasksOfInv(c: Config, s: State)
    requires Inv(c, s)
    ensures |s.tasks| == |c.tasks| && Shaped(c, s)
  {
  }

  // ----- the switches -----

  /** Some action of the run cancelled the task. */
  predicate Cancels(run: seq<Action>, u: nat) {
    exists i :: 0 <= i < |run| && run[i] == CancelTask(u)
  }

  lemma StepSwitches(c: Config, s: State, a: Action, u: nat)
    requires Shaped(c, s) && Enabled(c, s, a) && u < |c.tasks|
    ensures var s' := Apply(c, s, a);
            && u < |s'.tasks| && (s'.tasks[u].cancelled <==> s.tasks[u].cancelled || a == CancelTask(u))
            && (s'.running <==> s.running && a != StopExecutor)
            && (s'.groupStopping <==> s.groupStopping || a == StopGroup)
  {
    hide AcceptOf, Take, Check, CloseOf, GiveUp, Returned, KnownJobs, Return, ApplyEnqueue;
    if a.Number? || a.Reserve? || a.Push? {
      EnqueueSwitches(c, s, a, u);
    }
  }

  lemma EnqueueSwitches(c: Config, s: State, a: Action, u: nat)
    requires Shaped(c, s) && Enabled(c, s, a) && u < |c.tasks| && (a.Number? || a.Reserve? || a.Push?)
    ensures var s' := ApplyEnqueue(c, s, a);
            && u < |s'.tasks| && s'.tasks[u].cancelled == s.tasks[u].cancelled
            && s'.running == s.running && s'.groupStopping == s.groupStopping
  {
    hide KnownJobs, Return;
    assert ShapedThread(c, s, s.threads[a.who]);
  }

  /** A task is cancelled exactly if the run cancelled it, the executor runs exactly until it is stopped, and its group stops
      exactly when it is told to. */
  lemma {:induction false} SwitchesAreActions(c: Config, s: State, run: seq<Action>, u: nat)
    requires Legal(c, s, run) && Shaped(c, s) && u < |c.tasks|
    ensures var s' := After(c, s, run);
            && u < |s'.tasks| && (s'.tasks[u].cancelled <==> s.tasks[u].cancelled || Cancels(run, u))
            && (s'.running <==> s.running && StopExecutor !in run)
            && (s'.groupStopping <==> s.groupStopping || StopGroup in run)
    decreases |run|
  {
    hide Apply, Enabled, Shaped;
    TasksOfShape(c, s);
    if run != [] {
      StepSwitches(c, s, run[0], u);
      StepShaped(c, s, run[0]);
      SwitchesAreActions(c, Apply(c, s, run[0]), run[1..], u);
      CancelsFirst(run, u);
      assert run == [run[0]] + run[1..];
    }
  }

  lemma TasksOfShape(c: Config, s: State)
    requires Shaped(c, s)
    ensures |s.tasks| == |c.tasks|
  {
  }

  lemma CancelsFirst(run: seq<Action>, u: nat)
    requires run != []
    ensures Cancels(run, u) <==> run[0] == CancelTask(u) || Cancels(run[1..], u)
  {
    if Cancels(run[1..], u) {
      var i :| 0 <= i < |run[1..]| && run[1..][i] == CancelTask(u);
      assert run[i + 1] == CancelTask(u);
    }
    if Cancels(run, u) && run[0] != CancelTask(u) {
      var i :| 0 <= i < |run| && run[i] == CancelTask(u);
      assert run[1..][i - 1] == CancelTask(u);
    }
  }

  // ----- the mailboxes -----

  datatype Mail = Mail(received: nat, dropped: nat, delivered: nat)

  function MailOf(sub: Sub): Mail {
    Mail(sub.receivedMessages, sub.droppedMessages, sub.deliveredMessages)
  }

  function AddMail(a: Mail, b: Mail): Mail {
    Mail(a.received + b.received, a.dropped + b.dropped, a.delivered + b.delivered)
  }

  /** What one action adds to the statistics of mailbox t, in numbers. A message that arrives while it is open is received,
      and dropped besides if the queue is full; a service does not count what it turns away. A callback of a subscription
      that throws drops its message too; and every message whose callback has ended is delivered, thrown or not. */
  function MailEvent(c: Config, s: State, a: Action, t: nat): Mail
    requires Shaped(c, s) && Enabled(c, s, a) && HasMail(c, t)
  {
    var use, sub := c.tasks[t].use, s.subs[t];
    match a
    case AcceptMessage(_, u, _, _) =>
      var full := |sub.queue| >= use.sub.queueCapacity;
      if u != t || sub.closed || (full && use.Serving?) then Mail(0, 0, 0) else Mail(1, if full then 1 else 0, 0)
    case EndCallback(who, threw) =>
      Mail(0, if s.threads[who].job.task == t && threw && use.Subscribed? then 1 else 0, 0)
    case CountMessage(who) => Mail(0, 0, if s.threads[who].job.task == t then 1 else 0)
    case _ => Mail(0, 0, 0)
  }

  function MailEvents(c: Config, s: State, run: seq<Action>, t: nat): Mail
    requires Legal(c, s, run) && HasMail(c, t)
    decreases |run|
  {
    if run == [] then Mail(0, 0, 0)
    else AddMail(MailEvent(c, s, run[0], t), MailEvents(c, Apply(c, s, run[0]), run[1..], t))
  }

  /** The longest the queue of mailbox t has been since the run began. */
  function Longest(c: Config, s: State, run: seq<Action>, t: nat): nat
    requires Legal(c, s, run) && t < |c.tasks| && t < |s.subs|
    decreases |run|
  {
    if run == [] then |s.subs[t].queue|
    else
      StepShaped(c, s, run[0]);
      Max(|s.subs[t].queue|, Longest(c, Apply(c, s, run[0]), run[1..], t))
  }

  lemma StepMail(c: Config, s: State, a: Action, t: nat)
    requires ValidConfig(c) && Shaped(c, s) && Enabled(c, s, a) && HasMail(c, t)
    ensures t < |Apply(c, s, a).subs|
    ensures MailOf(Apply(c, s, a).subs[t]) == AddMail(MailOf(s.subs[t]), MailEvent(c, s, a, t))
  {
    hide FinishOf, DispatchOf, ApplyEnqueue, KnownJobs;
    if a.Number? || a.Reserve? || a.Push? {
      EnqueueKeepsMail(c, s, a);
    }
  }

  lemma StepLongest(c: Config, s: State, a: Action, t: nat)
    requires ValidConfig(c) && Shaped(c, s) && Enabled(c, s, a) && HasMail(c, t)
    requires |s.subs[t].queue| <= s.subs[t].highWatermark
    ensures t < |Apply(c, s, a).subs|
    ensures Apply(c, s, a).subs[t].highWatermark == Max(s.subs[t].highWatermark, |Apply(c, s, a).subs[t].queue|)
  {
    hide FinishOf, DispatchOf, ApplyEnqueue, KnownJobs, Service.Erase;
    if a.Number? || a.Reserve? || a.Push? {
      EnqueueKeepsMail(c, s, a);
    }
    if a.ClearScheduled? {
      Service.EraseBag(s.subs[t].queue, s.threads[a.who].message);
    }
  }

  lemma MailOfInv(c: Config, s: State, t: nat)
    requires Inv(c, s) && HasMail(c, t)
    ensures Shaped(c, s) && t < |s.subs| && |s.subs[t].queue| <= s.subs[t].highWatermark
  {
    hide Accounts, Count, Jobs, Within;
    assert Good(c.tasks[t], ViewOf(s, t));
  }

  /** The statistics of a mailbox are the events of the run: how much was received, dropped and delivered, and the high
      watermark is the longest its queue has ever been. */
  lemma {:induction false} MailIsEvents(c: Config, s: State, run: seq<Action>, t: nat)
    requires ValidConfig(c) && Inv(c, s) && Legal(c, s, run) && HasMail(c, t)
    ensures t < |s.subs| && t < |After(c, s, run).subs|
    ensures MailOf(After(c, s, run).subs[t]) == AddMail(MailOf(s.subs[t]), MailEvents(c, s, run, t))
    ensures After(c, s, run).subs[t].highWatermark == Max(s.subs[t].highWatermark, Longest(c, s, run, t))
    decreases |run|
  {
    hide Inv, Apply, Enabled, Shaped, MailEvent;
    MailOfInv(c, s, t);
    if run != [] {
      StepMail(c, s, run[0], t);
      StepLongest(c, s, run[0], t);
      StepKeeps(c, s, run[0]);
      MailIsEvents(c, Apply(c, s, run[0]), run[1..], t);
    }
  }
}
