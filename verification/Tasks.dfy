/** One task of the executor: its reservations, its counters and its deadline policy, one function per region of its
    mutex; and the order in which jobs are dispatched. */
module Tasks {
  import opened Subscription

  datatype DeadlinePolicy = Warn | Degrade | Drop

  /** Plain tasks may be notified by anyone; the others belong to a subscription or to a service, which keep a mailbox. */
  datatype TaskUse = Plain | Subscribed(sub: SubConfig) | Serving(sub: SubConfig)

  datatype TaskConfig = TaskConfig(priority: int, deadline: nat, capacity: nat, policy: DeadlinePolicy, use: TaskUse)

  datatype Job = Job(task: nat, release: int, sequence: nat)

  /** The last two components are history: releases turned away because the group was stopping, and jobs thrown away
      at dispatch because of a cancel or a stop. */
  datatype Task = Task(
    cancelled: bool, queued: nat, releases: nat, overflows: nat, started: nat, finished: nat, failures: nat,
    misses: nat, warnings: nat, degrades: nat, drops: nat, refusals: nat, discards: nat)

  function NewTask(): Task {
    Task(false, 0, 0, 0, 0, 0, 0, 0, 0, 0, 0, 0, 0)
  }

  datatype Reservation = Cancelled | Full | Granted
  datatype Verdict = Discarded | Late | Started

  /** Enqueue under the task mutex. */
  function ReserveOf(c: TaskConfig, t: Task): (Task, Reservation) {
    if t.cancelled then (t, Cancelled)
    else if t.queued >= c.capacity then (t.(releases := t.releases + 1, overflows := t.overflows + 1), Full)
    else (t.(releases := t.releases + 1, queued := t.queued + 1), Granted)
  }

  /** Enqueue giving a reservation back, to a stopping group or to a full one. */
  function GiveBack(t: Task, stopping: bool): Task
    requires t.queued > 0
  {
    if stopping then t.(queued := t.queued - 1, refusals := t.refusals + 1)
    else t.(queued := t.queued - 1, overflows := t.overflows + 1)
  }

  predicate Expired(c: TaskConfig, release: int, now: int) {
    c.deadline > 0 && now > release + c.deadline
  }

  /** The worker's first look at a popped job. */
  function DispatchOf(c: TaskConfig, t: Task, release: int, stopping: bool, now: int): (Task, Verdict) {
    var held := if t.queued > 0 then t.(queued := t.queued - 1) else t;
    if t.cancelled || stopping then (held.(discards := t.discards + 1), Discarded)
    else if Expired(c, release, now) && c.policy.Drop? then
      (held.(misses := t.misses + 1, drops := t.drops + 1), Late)
    else (held.(started := t.started + 1), Started)
  }

  /** The worker after the callback. A missed deadline under Drop counts as a warning here: the job did run. */
  function FinishOf(c: TaskConfig, t: Task, release: int, now: int, failed: bool): Task {
    var done := t.(finished := t.finished + 1, failures := t.failures + (if failed then 1 else 0));
    if !Expired(c, release, now) then done
    else if c.policy.Degrade? then done.(misses := t.misses + 1, degrades := t.degrades + 1)
    else done.(misses := t.misses + 1, warnings := t.warnings + 1)
  }

  /** Every release is accounted for once: overflowed, refused, reserved, waiting, popped, started, dropped late or
      discarded. Reservations are exactly the jobs not yet dispatched and never exceed the task's capacity. */
  predicate Accounts(c: TaskConfig, t: Task, reserved: nat, waiting: nat, popped: nat, running: nat) {
    && t.queued == reserved + waiting + popped <= c.capacity
    && t.releases == t.overflows + t.refusals + reserved + waiting + popped + t.started + t.drops + t.discards
    && t.started == t.finished + running
    && t.misses == t.warnings + t.degrades + t.drops
    && t.warnings + t.degrades <= t.finished
    && (!c.policy.Drop? ==> t.drops == 0) && (!c.policy.Degrade? ==> t.degrades == 0)
    && t.failures <= t.finished
  }

  // ----- dispatch order -----

  /** HigherPriorityFirst: a is less urgent than b. */
  predicate LessUrgent(configs: seq<TaskConfig>, a: Job, b: Job)
    requires a.task < |configs| && b.task < |configs|
  {
    var p, q := configs[a.task].priority, configs[b.task].priority;
    if p != q then p < q
    else if a.release != b.release then a.release > b.release
    else a.sequence > b.sequence
  }

  predicate KnownJobs(configs: seq<TaskConfig>, queue: seq<Job>) {
    forall i :: 0 <= i < |queue| ==> queue[i].task < |configs|
  }

  predicate DistinctJobs(queue: seq<Job>) {
    forall i, j :: 0 <= i < j < |queue| ==> queue[i].sequence != queue[j].sequence
  }

  /** What priority_queue::top promises: no waiting job is more urgent. */
  predicate Top(configs: seq<TaskConfig>, queue: seq<Job>, k: nat)
    requires KnownJobs(configs, queue)
  {
    k < |queue| && forall i :: 0 <= i < |queue| ==> !LessUrgent(configs, queue[k], queue[i])
  }

  /** The order in numbers: the higher priority first, then the earlier release, then the smaller sequence number. */
  lemma UrgencyInNumbers(configs: seq<TaskConfig>, a: Job, b: Job)
    requires a.task < |configs| && b.task < |configs|
    ensures var p, q := configs[a.task].priority, configs[b.task].priority;
            LessUrgent(configs, a, b) <==>
              || q > p
              || (q == p && b.release < a.release)
              || (q == p && b.release == a.release && b.sequence < a.sequence)
  {
  }

  /** With distinct sequence numbers the order is strict and total, so the top is the one job more urgent than every
      other. */
  lemma OrderIsTotal(configs: seq<TaskConfig>, a: Job, b: Job, d: Job)
    requires a.task < |configs| && b.task < |configs| && d.task < |configs|
    ensures !LessUrgent(configs, a, a)
    ensures LessUrgent(configs, a, b) && LessUrgent(configs, b, d) ==> LessUrgent(configs, a, d)
    ensures a.sequence != b.sequence ==> (LessUrgent(configs, a, b) <==> !LessUrgent(configs, b, a))
  {
  }

  lemma TopIsStrict(configs: seq<TaskConfig>, queue: seq<Job>, k: nat, i: nat)
    requires KnownJobs(configs, queue) && DistinctJobs(queue) && Top(configs, queue, k) && i < |queue| && i != k
    ensures LessUrgent(configs, queue[i], queue[k])
  {
    OrderIsTotal(configs, queue[i], queue[k], queue[k]);
  }

  class TaskState {
    const config: TaskConfig
    var cancelled: bool
    var queued: nat
    var releases: nat
    var overflows: nat
    var started: nat
    var finished: nat
    var failures: nat
    var misses: nat
    var warnings: nat
    var degrades: nat
    var drops: nat
    ghost var refusals: nat
    ghost var discards: nat

    ghost function Now(): Task
      reads this
    {
      Task(cancelled, queued, releases, overflows, started, finished, failures, misses, warnings, degrades, drops,
           refusals, discards)
    }

    constructor (config: TaskConfig)
      ensures this.config == config && Now() == NewTask()
    {
      this.config := config;
      cancelled, queued, releases, overflows, started, finished := false, 0, 0, 0, 0, 0;
      failures, misses, warnings, degrades, drops, refusals, discards := 0, 0, 0, 0, 0, 0, 0;
    }

    method Reserve() returns (r: Reservation)
      modifies this
      ensures (Now(), r) == ReserveOf(config, old(Now()))
    {
      if cancelled {
        return Cancelled;
      }
      releases := releases + 1;
      if queued >= config.capacity {
        overflows := overflows + 1;
        return Full;
      }
      queued := queued + 1;
      return Granted;
    }

    method Return(stopping: bool)
      requires queued > 0
      modifies this
      ensures Now() == GiveBack(old(Now()), stopping)
    {
      queued := queued - 1;
      if stopping {
        refusals := refusals + 1;
      } else {
        overflows := overflows + 1;
      }
    }

    method Dispatch(release: int, stopping: bool, now: int) returns (v: Verdict)
      modifies this
      ensures (Now(), v) == DispatchOf(config, old(Now()), release, stopping, now)
    {
      if queued > 0 {
        queued := queued - 1;
      }
      if cancelled || stopping {
        discards := discards + 1;
        return Discarded;
      }
      if config.deadline > 0 && now > release + config.deadline && config.policy == Drop {
        misses := misses + 1;
        drops := drops + 1;
        return Late;
      }
      started := started + 1;
      return Started;
    }

    method Finish(release: int, now: int, failed: bool)
      modifies this
      ensures Now() == FinishOf(config, old(Now()), release, now, failed)
    {
      finished := finished + 1;
      if failed {
        failures := failures + 1;
      }
      if config.deadline > 0 && now > release + config.deadline {
        misses := misses + 1;
        match config.policy {
          case Warn => warnings := warnings + 1;
          case Degrade => degrades := degrades + 1;
          case Drop => warnings := warnings + 1;
        }
      }
    }

    method Cancel()
      modifies this
      ensures Now() == old(Now()).(cancelled := true)
    {
      cancelled := true;
    }
  }
}
