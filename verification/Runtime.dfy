/** One callback group of the executor with its worker threads, its tasks and the subscriptions and services that drive
    them, as a state machine over all threads, one action per region of a mutex. */
module Runtime {
  import Service
  import opened Subscription
  import opened Tasks

  /** Progress of a thread inside Enqueue: called, numbered, and holding a reservation. */
  datatype Stage = Entering | Numbered(sequence: nat) | Reserved(sequence: nat)

  /** Where the thread goes when Enqueue returns. */
  datatype Next = ToFree | ToAccept(message: MessageId) | ToCallback(job: Job)

  /** Progress of a worker inside a callback; a plain callback uses only the first and the last. */
  datatype Point = AtTop | InCallback(message: MessageId) | AtCount | AtCheck | Done

  /** A thread outside the runtime, in Enqueue, in Accept after a refused Notify, and the four places of a worker. */
  datatype Thread =
    | Free
    | Calling(task: nat, release: int, stage: Stage, next: Next)
    | AcceptFailed(failed: nat, message: MessageId)
    | Waiting
    | Popped(popped: Job, stopping: bool)
    | Running(job: Job, at: Point)

  datatype Config = Config(tasks: seq<TaskConfig>, groupCapacity: nat)

  datatype State = State(
    running: bool, groupStopping: bool, nextSequence: nat, queue: seq<Job>,
    tasks: seq<Task>, subs: seq<Sub>, threads: seq<Thread>)

  datatype Action =
    | Notify(who: nat, task: nat, release: int)
    | AcceptMessage(who: nat, task: nat, message: MessageId, release: int)
    | Number(who: nat) | Reserve(who: nat) | Push(who: nat) | ClearScheduled(who: nat)
    | Pop(who: nat, index: nat) | Dispatch(who: nat, now: int)
    | RunPlain(who: nat) | TakeMessage(who: nat) | EndCallback(who: nat, threw: bool)
    | CountMessage(who: nat) | CheckMore(who: nat, release: int)
    | Finish(who: nat, now: int, failed: bool)
    | CloseSub(task: nat) | CancelTask(task: nat) | StopExecutor | StopGroup

  /** The task belongs to a subscription or a service. */
  predicate HasMail(c: Config, t: nat) {
    t < |c.tasks| && !c.tasks[t].use.Plain?
  }

  /** Node::CreateSubscriber and Node::CreateService give their task capacity one and leave the deadline policy at Warn. */
  predicate ValidConfig(c: Config) {
    && c.groupCapacity > 0
    && (forall t :: 0 <= t < |c.tasks| ==> c.tasks[t].capacity > 0)
    && (forall t :: 0 <= t < |c.tasks| && !c.tasks[t].use.Plain? ==>
          && c.tasks[t].capacity == 1 && c.tasks[t].policy.Warn? && c.tasks[t].use.sub.queueCapacity > 0
          && (c.tasks[t].use.Subscribed? ==> !c.tasks[t].use.sub.policy.Refuse?)
          && (c.tasks[t].use.Serving? ==> c.tasks[t].use.sub == SubConfig(Service.QUEUE_CAPACITY, Refuse)))
  }

  /** A started executor with fresh tasks and subscriptions, some threads of the application and some workers. */
  function Init(c: Config, application: nat, workers: nat): State {
    State(true, false, 1, [], seq(|c.tasks|, _ => NewTask()), seq(|c.tasks|, _ => Fresh()),
          seq(application, _ => Free) + seq(workers, _ => Waiting))
  }

  function Return(th: Thread, ok: bool): Thread
    requires th.Calling?
  {
    match th.next
    case ToFree => Free
    case ToAccept(m) => if ok then Free else AcceptFailed(th.task, m)
    case ToCallback(job) => Running(job, Done)
  }

  predicate At(s: State, who: nat) {
    who < |s.threads|
  }

  predicate Enabled(c: Config, s: State, a: Action) {
    match a
    case Notify(who, t, _) => At(s, who) && s.threads[who].Free? && t < |c.tasks| && !HasMail(c, t)
    case AcceptMessage(who, t, m, _) =>
      && At(s, who) && s.threads[who].Free? && HasMail(c, t)
      && (c.tasks[t].use.Serving? ==> t < |s.subs| && m == |s.subs[t].received|)
    case Number(who) => At(s, who) && s.threads[who].Calling? && s.threads[who].stage.Entering?
    case Reserve(who) => At(s, who) && s.threads[who].Calling? && s.threads[who].stage.Numbered?
    case Push(who) => At(s, who) && s.threads[who].Calling? && s.threads[who].stage.Reserved?
    case ClearScheduled(who) => At(s, who) && s.threads[who].AcceptFailed?
    case Pop(who, k) =>
      At(s, who) && s.threads[who].Waiting? && KnownJobs(c.tasks, s.queue) && Top(c.tasks, s.queue, k)
    case Dispatch(who, _) => At(s, who) && s.threads[who].Popped?
    case RunPlain(who) =>
      At(s, who) && s.threads[who].Running? && s.threads[who].at.AtTop? && !HasMail(c, s.threads[who].job.task)
    case TakeMessage(who) =>
      At(s, who) && s.threads[who].Running? && s.threads[who].at.AtTop? && HasMail(c, s.threads[who].job.task)
    case EndCallback(who, _) => At(s, who) && s.threads[who].Running? && s.threads[who].at.InCallback?
    case CountMessage(who) => At(s, who) && s.threads[who].Running? && s.threads[who].at.AtCount?
    case CheckMore(who, _) => At(s, who) && s.threads[who].Running? && s.threads[who].at.AtCheck?
    case Finish(who, _, _) => At(s, who) && s.threads[who].Running? && s.threads[who].at.Done?
    case CloseSub(t) => HasMail(c, t)
    case CancelTask(t) => t < |c.tasks| && (HasMail(c, t) ==> t < |s.subs| && s.subs[t].closed)
    case StopExecutor => true
    case StopGroup => !s.running
  }

  /** Tasks and subscriptions exist for every configured task, and every thread is at a place that exists. */
  predicate Shaped(c: Config, s: State) {
    && |s.tasks| == |s.subs| == |c.tasks|
    && (forall i :: 0 <= i < |s.threads| ==> ShapedThread(c, s, s.threads[i]))
    && KnownJobs(c.tasks, s.queue)
    && (s.groupStopping ==> !s.running)
  }

  predicate ShapedThread(c: Config, s: State, th: Thread) {
    match th
    case Calling(t, _, stage, next) =>
      && t < |c.tasks| && (next.ToFree? <==> !HasMail(c, t)) && (next.ToCallback? ==> next.job.task == t)
    case AcceptFailed(t, _) => HasMail(c, t)
    case Popped(job, stopping) => job.task < |c.tasks| && (stopping ==> s.groupStopping)
    case Running(job, at) => job.task < |c.tasks| && (!HasMail(c, job.task) ==> at.AtTop? || at.Done?)
    case _ => true
  }

  function Set(s: State, who: nat, th: Thread): State
    requires At(s, who)
  {
    s.(threads := s.threads[who := th])
  }

  function SetTask(s: State, t: nat, task: Task): State
    requires t < |s.tasks|
  {
    s.(tasks := s.tasks[t := task])
  }

  function SetSub(s: State, t: nat, sub: Sub): State
    requires t < |s.subs|
  {
    s.(subs := s.subs[t := sub])
  }

  function Remove(queue: seq<Job>, k: nat): seq<Job>
    requires k < |queue|
  {
    queue[..k] + queue[k + 1..]
  }

  /** A subscriber counts a callback that threw; a service turns it into an answer. */
  function Returned(use: TaskUse, sub: Sub, threw: bool): Sub {
    if threw && use.Subscribed? then CallbackThrew(sub) else sub
  }

  function ApplyEnqueue(c: Config, s: State, a: Action): State
    requires Shaped(c, s) && Enabled(c, s, a) && (a.Number? || a.Reserve? || a.Push?)
  {
    var who := a.who;
    var th := s.threads[who];
    var t := th.task;
    match a
    case Number(_) =>
      if !s.running then Set(s, who, Return(th, false))
      else Set(s.(nextSequence := s.nextSequence + 1), who, th.(stage := Numbered(s.nextSequence)))
    case Reserve(_) =>
      var (task, r) := ReserveOf(c.tasks[t], s.tasks[t]);
      Set(SetTask(s, t, task), who,
          if r.Granted? then th.(stage := Reserved(th.stage.sequence)) else Return(th, false))
    case Push(_) =>
      if s.tasks[t].queued == 0 then s
      else if s.groupStopping then Set(SetTask(s, t, GiveBack(s.tasks[t], true)), who, Return(th, false))
      else if |s.queue| >= c.groupCapacity then Set(SetTask(s, t, GiveBack(s.tasks[t], false)), who, Return(th, false))
      else Set(s.(queue := s.queue + [Job(t, th.release, th.stage.sequence)]), who, Return(th, true))
  }

  function Apply(c: Config, s: State, a: Action): State
    requires Shaped(c, s) && Enabled(c, s, a)
  {
    match a
    case Notify(who, t, release) => Set(s, who, Calling(t, release, Entering, ToFree))
    case AcceptMessage(who, t, m, release) =>
      var (sub, notify) := AcceptOf(c.tasks[t].use.sub, s.subs[t], m);
      Set(SetSub(s, t, sub), who, if notify then Calling(t, release, Entering, ToAccept(m)) else Free)
    case Number(_) => ApplyEnqueue(c, s, a)
    case Reserve(_) => ApplyEnqueue(c, s, a)
    case Push(_) => ApplyEnqueue(c, s, a)
    case ClearScheduled(who) =>
      var t := s.threads[who].failed;
      Set(SetSub(s, t, GiveUp(c.tasks[t].use.sub, s.subs[t], s.threads[who].message)), who, Free)
    case Pop(who, k) =>
      Set(s.(queue := Remove(s.queue, k)), who, Popped(s.queue[k], s.groupStopping))
    case Dispatch(who, now) =>
      var th := s.threads[who];
      var t := th.popped.task;
      var (task, v) := DispatchOf(c.tasks[t], s.tasks[t], th.popped.release, th.stopping, now);
      Set(SetTask(s, t, task), who, if v.Started? then Running(th.popped, AtTop) else Waiting)
    case RunPlain(who) => Set(s, who, s.threads[who].(at := Done))
    case TakeMessage(who) =>
      var t := s.threads[who].job.task;
      var (sub, message) := Take(s.subs[t]);
      Set(SetSub(s, t, sub), who, s.threads[who].(at := if message == [] then Done else InCallback(message[0])))
    case EndCallback(who, threw) =>
      var t := s.threads[who].job.task;
      Set(SetSub(s, t, Returned(c.tasks[t].use, s.subs[t], threw)), who, s.threads[who].(at := AtCount))
    case CountMessage(who) =>
      var t := s.threads[who].job.task;
      Set(SetSub(s, t, CountDelivered(s.subs[t])), who, s.threads[who].(at := AtCheck))
    case CheckMore(who, release) =>
      var job := s.threads[who].job;
      var (sub, notify) := Check(s.subs[job.task]);
      Set(SetSub(s, job.task, sub), who,
          if notify then Calling(job.task, release, Entering, ToCallback(job)) else Running(job, Done))
    case Finish(who, now, failed) =>
      var job := s.threads[who].job;
      Set(SetTask(s, job.task, FinishOf(c.tasks[job.task], s.tasks[job.task], job.release, now, failed)), who, Waiting)
    case CloseSub(t) => SetSub(s, t, CloseOf(s.subs[t]))
    case CancelTask(t) => SetTask(s, t, s.tasks[t].(cancelled := true))
    case StopExecutor => s.(running := false)
    case StopGroup => s.(groupStopping := true)
  }

  lemma EnqueueKeepsMail(c: Config, s: State, a: Action)
    requires Shaped(c, s) && Enabled(c, s, a) && (a.Number? || a.Reserve? || a.Push?)
    ensures ApplyEnqueue(c, s, a).subs == s.subs
  {
  }

  // ----- counting threads and jobs -----

  datatype Query =
    | IsReserved(task: nat) | IsPopped(task: nat) | IsRunning(task: nat)
    | IsToken(task: nat) | IsInFlight(task: nat) | IsFailed(task: nat)

  /** A token is the right and the duty to process the queue of a subscription: a call to Enqueue for its task, a popped
      job, or a callback that has not yet made up its mind about scheduled. */
  predicate Match(th: Thread, q: Query) {
    match q
    case IsReserved(t) => th.Calling? && th.task == t && th.stage.Reserved?
    case IsPopped(t) => th.Popped? && th.popped.task == t
    case IsRunning(t) =>
      (th.Running? && th.job.task == t) || (th.Calling? && th.next.ToCallback? && th.next.job.task == t)
    case IsToken(t) =>
      || (th.Calling? && th.task == t) || (th.AcceptFailed? && th.failed == t) || (th.Popped? && th.popped.task == t)
      || (th.Running? && th.job.task == t && !th.at.Done?)
    case IsInFlight(t) => th.Running? && th.job.task == t && (th.at.InCallback? || th.at.AtCount?)
    case IsFailed(t) => th.AcceptFailed? && th.failed == t
  }

  function One(b: bool): nat {
    if b then 1 else 0
  }

  function Count(threads: seq<Thread>, q: Query): nat {
    if threads == [] then 0 else One(Match(threads[0], q)) + Count(threads[1..], q)
  }

  function Jobs(queue: seq<Job>, t: nat): nat {
    if queue == [] then 0 else One(queue[0].task == t) + Jobs(queue[1..], t)
  }

  lemma {:induction false} CountUpdate(threads: seq<Thread>, who: nat, th: Thread, q: Query)
    requires who < |threads|
    ensures Count(threads[who := th], q) + One(Match(threads[who], q)) == Count(threads, q) + One(Match(th, q))
  {
    hide Match;
    if who == 0 {
      assert threads[who := th][1..] == threads[1..];
    } else {
      CountUpdate(threads[1..], who - 1, th, q);
      assert threads[who := th][1..] == threads[1..][who - 1 := th];
    }
  }

  lemma {:induction false} CountHas(threads: seq<Thread>, who: nat, q: Query)
    requires who < |threads| && Match(threads[who], q)
    ensures Count(threads, q) >= 1
  {
    hide Match;
    if who > 0 {
      CountHas(threads[1..], who - 1, q);
    }
  }

  lemma {:induction false} JobsAppend(queue: seq<Job>, job: Job, t: nat)
    ensures Jobs(queue + [job], t) == Jobs(queue, t) + One(job.task == t)
  {
    if queue == [] {
      assert queue + [job] == [job];
    } else {
      JobsAppend(queue[1..], job, t);
      assert (queue + [job])[1..] == queue[1..] + [job];
    }
  }

  lemma {:induction false} JobsRemove(queue: seq<Job>, k: nat, t: nat)
    requires k < |queue|
    ensures Jobs(Remove(queue, k), t) + One(queue[k].task == t) == Jobs(queue, t)
  {
    if k == 0 {
      assert Remove(queue, 0) == queue[1..];
    } else {
      JobsRemove(queue[1..], k - 1, t);
      assert Remove(queue, k)[1..] == Remove(queue[1..], k - 1);
    }
  }

  // ----- one task at a time -----

  /** Everything the invariant says about one task is a statement about this view of the state. */
  datatype View = View(
    task: Task, sub: Sub, reserved: nat, waiting: nat, popped: nat, running: nat,
    tokens: nat, inFlight: nat, failed: nat)

  function ViewOf(s: State, t: nat): View
    requires t < |s.tasks| && t < |s.subs|
  {
    View(s.tasks[t], s.subs[t],
         Count(s.threads, IsReserved(t)), Jobs(s.queue, t), Count(s.threads, IsPopped(t)),
         Count(s.threads, IsRunning(t)), Count(s.threads, IsToken(t)) + Jobs(s.queue, t),
         Count(s.threads, IsInFlight(t)), Count(s.threads, IsFailed(t)))
  }

  /** The executor's ledger; for a subscription also its books, and at most one token: none while it is open and not
      scheduled. */
  predicate Good(c: TaskConfig, v: View) {
    && Accounts(c, v.task, v.reserved, v.waiting, v.popped, v.running)
    && (!c.use.Plain? ==>
          && Books(c.use.sub, v.sub, v.inFlight)
          && v.tokens <= 1 && (!v.sub.closed && !v.sub.scheduled ==> v.tokens == 0)
          && (!v.sub.closed ==> !v.task.cancelled))
  }

  /** While the executor runs: an open subscription with messages is scheduled, and scheduled means exactly one token. */
  predicate Armed(c: TaskConfig, v: View) {
    !c.use.Plain? && !v.sub.closed ==>
      && v.failed == 0 && v.tokens == One(v.sub.scheduled) && (v.sub.queue != [] ==> v.sub.scheduled)
  }

  /** A change of one thread seen from one task. */
  lemma ViewOfSet(s: State, who: nat, th: Thread, t: nat)
    requires At(s, who) && t < |s.tasks| && t < |s.subs|
    ensures var v, w, x := ViewOf(s, t), ViewOf(Set(s, who, th), t), s.threads[who];
            && w.task == v.task && w.sub == v.sub && w.waiting == v.waiting
            && w.reserved + One(Match(x, IsReserved(t))) == v.reserved + One(Match(th, IsReserved(t)))
            && w.popped + One(Match(x, IsPopped(t))) == v.popped + One(Match(th, IsPopped(t)))
            && w.running + One(Match(x, IsRunning(t))) == v.running + One(Match(th, IsRunning(t)))
            && w.tokens + One(Match(x, IsToken(t))) == v.tokens + One(Match(th, IsToken(t)))
            && w.inFlight + One(Match(x, IsInFlight(t))) == v.inFlight + One(Match(th, IsInFlight(t)))
            && w.failed + One(Match(x, IsFailed(t))) == v.failed + One(Match(th, IsFailed(t)))
  {
    hide Match, Count, Jobs;
    CountUpdate(s.threads, who, th, IsReserved(t));
    CountUpdate(s.threads, who, th, IsPopped(t));
    CountUpdate(s.threads, who, th, IsRunning(t));
    CountUpdate(s.threads, who, th, IsToken(t));
    CountUpdate(s.threads, who, th, IsInFlight(t));
    CountUpdate(s.threads, who, th, IsFailed(t));
  }

  lemma {:induction false} TokenParts(threads: seq<Thread>, t: nat)
    ensures Count(threads, IsReserved(t)) + Count(threads, IsPopped(t)) <= Count(threads, IsToken(t))
  {
    if threads != [] {
      TokenParts(threads[1..], t);
    }
  }

  /** A thread that holds a token but no reservation leaves at most the other tokens to hold reservations. */
  lemma TokenPartsBut(threads: seq<Thread>, who: nat, t: nat)
    requires who < |threads| && Match(threads[who], IsToken(t))
    requires !Match(threads[who], IsReserved(t)) && !Match(threads[who], IsPopped(t))
    ensures Count(threads, IsReserved(t)) + Count(threads, IsPopped(t)) + 1 <= Count(threads, IsToken(t))
  {
    hide Count;
    CountUpdate(threads, who, Free, IsReserved(t));
    CountUpdate(threads, who, Free, IsPopped(t));
    CountUpdate(threads, who, Free, IsToken(t));
    TokenParts(threads[who := Free], t);
  }

  // ----- the group has room for every reservation -----

  function SumCapacity(tasks: seq<TaskConfig>): nat {
    if tasks == [] then 0 else tasks[0].capacity + SumCapacity(tasks[1..])
  }

  function SumJobs(queue: seq<Job>, n: nat): nat {
    if n == 0 then 0 else SumJobs(queue, n - 1) + Jobs(queue, n - 1)
  }

  function SumFront(tasks: seq<TaskConfig>, n: nat): nat
    requires n <= |tasks|
  {
    if n == 0 then 0 else SumFront(tasks, n - 1) + tasks[n - 1].capacity
  }

  lemma {:induction false} SumFrontShift(tasks: seq<TaskConfig>, n: nat)
    requires 0 < |tasks| && n < |tasks|
    ensures SumFront(tasks, n + 1) == tasks[0].capacity + SumFront(tasks[1..], n)
  {
    if n > 0 {
      SumFrontShift(tasks, n - 1);
    }
  }

  lemma {:induction false} SumFrontAll(tasks: seq<TaskConfig>)
    ensures SumFront(tasks, |tasks|) == SumCapacity(tasks)
  {
    if tasks != [] {
      SumFrontShift(tasks, |tasks| - 1);
      SumFrontAll(tasks[1..]);
    }
  }

  lemma {:induction false} SumJobsStep(queue: seq<Job>, n: nat)
    requires queue != []
    ensures SumJobs(queue, n) == SumJobs(queue[1..], n) + One(queue[0].task < n)
    decreases n
  {
    if n > 0 {
      SumJobsStep(queue, n - 1);
    }
  }

  lemma {:induction false} SumJobsAll(queue: seq<Job>, n: nat)
    requires forall i :: 0 <= i < |queue| ==> queue[i].task < n
    ensures SumJobs(queue, n) == |queue|
    decreases queue
  {
    if queue == [] {
      SumJobsNone(n);
    } else {
      SumJobsStep(queue, n);
      SumJobsAll(queue[1..], n);
    }
  }

  lemma {:induction false} SumJobsNone(n: nat)
    ensures SumJobs([], n) == 0
  {
    if n > 0 {
      SumJobsNone(n - 1);
    }
  }

  lemma {:induction false} JobsFit(c: Config, s: State, n: nat, spare: nat)
    requires Shaped(c, s) && n <= |c.tasks|
    requires forall u :: 0 <= u < n ==> Jobs(s.queue, u) + One(u == spare) <= c.tasks[u].capacity
    ensures SumJobs(s.queue, n) + One(spare < n) <= SumFront(c.tasks, n)
    decreases n
  {
    hide Jobs, ShapedThread;
    if n > 0 {
      JobsFit(c, s, n - 1, spare);
    }
  }

  /** Whoever holds a reservation finds room in a group that has room for every task's capacity. */
  lemma ReservationHasRoom(c: Config, s: State, who: nat)
    requires Shaped(c, s) && At(s, who) && s.threads[who].Calling? && s.threads[who].stage.Reserved?
    requires forall u :: 0 <= u < |c.tasks| ==> Good(c.tasks[u], ViewOf(s, u))
    requires SumCapacity(c.tasks) <= c.groupCapacity
    ensures |s.queue| < c.groupCapacity
  {
    var t := s.threads[who].task;
    CountHas(s.threads, who, IsReserved(t));
    forall u | 0 <= u < |c.tasks|
      ensures Jobs(s.queue, u) + One(u == t) <= c.tasks[u].capacity
    {
      hide Count, Jobs, Books;
      assert Good(c.tasks[u], ViewOf(s, u));
    }
    JobsFit(c, s, |c.tasks|, t);
    SumJobsAll(s.queue, |c.tasks|);
    SumFrontAll(c.tasks);
  }

  // ----- every step keeps every task good -----

  /** Nothing about the thread concerns another task. */
  predicate About(th: Thread, t: nat) {
    match th
    case Calling(u, _, _, next) => u == t && (next.ToCallback? ==> next.job.task == t)
    case AcceptFailed(u, _) => u == t
    case Popped(job, _) => job.task == t
    case Running(job, _) => job.task == t
    case _ => true
  }

  lemma Elsewhere(s: State, who: nat, th: Thread, t: nat, u: nat)
    requires At(s, who) && u < |s.tasks| && u < |s.subs| && u != t && About(s.threads[who], t) && About(th, t)
    ensures ViewOf(Set(s, who, th), u) == ViewOf(s, u)
  {
    hide Count, Jobs;
    ViewOfSet(s, who, th, u);
  }

  /** What every step has to show about every task u: it stays good, and stays armed while the executor runs. */
  predicate Kept(c: Config, s: State, s': State, u: nat)
    requires u < |c.tasks| && |s.tasks| == |s.subs| == |s'.tasks| == |s'.subs| == |c.tasks|
  {
    && (Good(c.tasks[u], ViewOf(s, u)) ==> Good(c.tasks[u], ViewOf(s', u)))
    && (Good(c.tasks[u], ViewOf(s, u)) && Armed(c.tasks[u], ViewOf(s, u)) ==> Armed(c.tasks[u], ViewOf(s', u)))
  }

  lemma StepNotify(c: Config, s: State, a: Action, u: nat)
    requires Shaped(c, s) && Enabled(c, s, a) && a.Notify? && u < |c.tasks|
    ensures Kept(c, s, Apply(c, s, a), u)
  {
    hide Count, Jobs, Books, Accounts;
    ViewOfSet(s, a.who, Calling(a.task, a.release, Entering, ToFree), u);
  }

  lemma StepAccept(c: Config, s: State, a: Action, u: nat)
    requires ValidConfig(c) && Shaped(c, s) && Enabled(c, s, a) && a.AcceptMessage? && u < |c.tasks|
    ensures Kept(c, s, Apply(c, s, a), u)
  {
    hide Count, Jobs, Books, Accounts;
    var t := a.task;
    var (sub, notify) := AcceptOf(c.tasks[t].use.sub, s.subs[t], a.message);
    var next := if notify then Calling(t, a.release, Entering, ToAccept(a.message)) else Free;
    ViewOfSet(SetSub(s, t, sub), a.who, next, u);
    if u == t && Good(c.tasks[u], ViewOf(s, u)) {
      AcceptKeeps(c.tasks[u].use.sub, s.subs[u], a.message, ViewOf(s, u).inFlight);
    }
  }

  lemma StepNumber(c: Config, s: State, a: Action, u: nat)
    requires Shaped(c, s) && Enabled(c, s, a) && a.Number? && u < |c.tasks| && s.running
    ensures Kept(c, s, Apply(c, s, a), u)
  {
    hide Count, Jobs, Books, Accounts;
    var th := s.threads[a.who];
    ViewOfSet(s.(nextSequence := s.nextSequence + 1), a.who, th.(stage := Numbered(s.nextSequence)), u);
  }

  /** A call that ends in refusal before or instead of a reservation. */
  lemma StepRefused(c: Config, s: State, who: nat, u: nat)
    requires Shaped(c, s) && At(s, who) && s.threads[who].Calling? && !s.threads[who].stage.Reserved? && u < |c.tasks|
    ensures Good(c.tasks[u], ViewOf(s, u)) ==> Good(c.tasks[u], ViewOf(Set(s, who, Return(s.threads[who], false)), u))
  {
    hide Count, Jobs, Books, Accounts;
    ViewOfSet(s, who, Return(s.threads[who], false), u);
  }

  lemma ReserveAccounts(c: TaskConfig, v: View)
    requires Accounts(c, v.task, v.reserved, v.waiting, v.popped, v.running)
    ensures var (task, r) := ReserveOf(c, v.task);
            Accounts(c, task, v.reserved + One(r.Granted?), v.waiting, v.popped, v.running)
  {
  }

  /** Reserve keeps every task good; and the holder of a subscription's only token is granted its reservation. */
  lemma StepReserve(c: Config, s: State, a: Action, u: nat)
    requires ValidConfig(c) && Shaped(c, s) && Enabled(c, s, a) && a.Reserve? && u < |c.tasks|
    ensures Kept(c, s, Apply(c, s, a), u)
  {
    hide Count, Jobs, Books, Accounts, ValidConfig;
    var th := s.threads[a.who];
    var t := th.task;
    var (task, r) := ReserveOf(c.tasks[t], s.tasks[t]);
    var next := if r.Granted? then th.(stage := Reserved(th.stage.sequence)) else Return(th, false);
    if u != t {
      Elsewhere(SetTask(s, t, task), a.who, next, t, u);
    } else if Good(c.tasks[t], ViewOf(s, t)) {
      ReserveSelf(c, s, a.who);
    }
  }

  lemma ReserveSelf(c: Config, s: State, who: nat)
    requires ValidConfig(c) && Shaped(c, s) && Enabled(c, s, Reserve(who))
    requires Good(c.tasks[s.threads[who].task], ViewOf(s, s.threads[who].task))
    ensures Kept(c, s, Apply(c, s, Reserve(who)), s.threads[who].task)
  {
    hide Count, Jobs, Books, Accounts, ValidConfig;
    var th := s.threads[who];
    var t := th.task;
    ReserveAccounts(c.tasks[t], ViewOf(s, t));
    var (task, r) := ReserveOf(c.tasks[t], s.tasks[t]);
    var next := if r.Granted? then th.(stage := Reserved(th.stage.sequence)) else Return(th, false);
    ViewOfSet(SetTask(s, t, task), who, next, t);
    if HasMail(c, t) && !s.subs[t].closed {
      TokenReserves(c, s, who);
    }
  }

  lemma TokenReserves(c: Config, s: State, who: nat)
    requires ValidConfig(c) && Shaped(c, s) && Enabled(c, s, Reserve(who))
    requires HasMail(c, s.threads[who].task) && !s.subs[s.threads[who].task].closed
    requires Good(c.tasks[s.threads[who].task], ViewOf(s, s.threads[who].task))
    ensures var t := s.threads[who].task; ReserveOf(c.tasks[t], s.tasks[t]).1.Granted?
  {
    TokenPartsBut(s.threads, who, s.threads[who].task);
    hide Count, Jobs, Books;
  }

  /** Push keeps every task good, and armed if it finds room. */
  lemma StepPush(c: Config, s: State, a: Action, u: nat)
    requires Shaped(c, s) && Enabled(c, s, a) && a.Push? && u < |c.tasks| && Good(c.tasks[u], ViewOf(s, u))
    requires s.tasks[s.threads[a.who].task].queued > 0
    ensures Good(c.tasks[u], ViewOf(Apply(c, s, a), u))
    ensures !s.groupStopping && |s.queue| < c.groupCapacity ==> Kept(c, s, Apply(c, s, a), u)
  {
    hide Count, Jobs, Books, Accounts;
    var th := s.threads[a.who];
    if s.groupStopping || |s.queue| >= c.groupCapacity {
      PushRefused(c, s, a.who, u);
    } else {
      var job := Job(th.task, th.release, th.stage.sequence);
      JobsAppend(s.queue, job, u);
      ViewOfSet(s.(queue := s.queue + [job]), a.who, Return(th, true), u);
      PushAccounts(c.tasks[u], ViewOf(s, u));
    }
  }

  lemma PushAccounts(c: TaskConfig, v: View)
    requires Accounts(c, v.task, v.reserved, v.waiting, v.popped, v.running)
    ensures v.reserved > 0 ==> Accounts(c, v.task, v.reserved - 1, v.waiting + 1, v.popped, v.running)
    ensures v.waiting > 0 ==> Accounts(c, v.task, v.reserved, v.waiting - 1, v.popped + 1, v.running)
    ensures v.reserved > 0 && v.task.queued > 0 ==>
              && Accounts(c, GiveBack(v.task, true), v.reserved - 1, v.waiting, v.popped, v.running)
              && Accounts(c, GiveBack(v.task, false), v.reserved - 1, v.waiting, v.popped, v.running)
  {
  }

  lemma PushRefused(c: Config, s: State, who: nat, u: nat)
    requires Shaped(c, s) && Enabled(c, s, Push(who)) && u < |c.tasks| && s.tasks[s.threads[who].task].queued > 0
    requires Good(c.tasks[u], ViewOf(s, u))
    ensures var th := s.threads[who];
            var s1 := SetTask(s, th.task, GiveBack(s.tasks[th.task], s.groupStopping));
            Good(c.tasks[u], ViewOf(Set(s1, who, Return(th, false)), u))
  {
    var th := s.threads[who];
    hide Count, Jobs, Good;
    if u != th.task {
      Elsewhere(SetTask(s, th.task, GiveBack(s.tasks[th.task], s.groupStopping)), who, Return(th, false), th.task, u);
    } else {
      PushRefusedSelf(c, s, who);
    }
  }

  lemma PushRefusedSelf(c: Config, s: State, who: nat)
    requires Shaped(c, s) && Enabled(c, s, Push(who)) && s.tasks[s.threads[who].task].queued > 0
    requires Good(c.tasks[s.threads[who].task], ViewOf(s, s.threads[who].task))
    ensures var th := s.threads[who];
            var s1 := SetTask(s, th.task, GiveBack(s.tasks[th.task], s.groupStopping));
            Good(c.tasks[th.task], ViewOf(Set(s1, who, Return(th, false)), th.task))
  {
    var th := s.threads[who];
    hide Count, Jobs, Books, Accounts;
    CountHas(s.threads, who, IsReserved(th.task));
    PushAccounts(c.tasks[th.task], ViewOf(s, th.task));
    var s1 := SetTask(s, th.task, GiveBack(s.tasks[th.task], s.groupStopping));
    ViewOfSet(s1, who, Return(th, false), th.task);
  }

  lemma StepPop(c: Config, s: State, a: Action, u: nat)
    requires Shaped(c, s) && Enabled(c, s, a) && a.Pop? && u < |c.tasks|
    ensures Kept(c, s, Apply(c, s, a), u)
  {
    hide Count, Jobs, Books, Accounts;
    JobsRemove(s.queue, a.index, u);
    ViewOfSet(s.(queue := Remove(s.queue, a.index)), a.who, Popped(s.queue[a.index], s.groupStopping), u);
    if Good(c.tasks[u], ViewOf(s, u)) {
      PushAccounts(c.tasks[u], ViewOf(s, u));
    }
  }

  lemma DispatchAccounts(c: TaskConfig, v: View, release: int, stopping: bool, now: int)
    requires Accounts(c, v.task, v.reserved, v.waiting, v.popped, v.running) && v.popped > 0
    ensures var (task, d) := DispatchOf(c, v.task, release, stopping, now);
            Accounts(c, task, v.reserved, v.waiting, v.popped - 1, v.running + One(d.Started?))
  {
  }

  lemma StepDispatch(c: Config, s: State, a: Action, u: nat)
    requires ValidConfig(c) && Shaped(c, s) && Enabled(c, s, a) && a.Dispatch? && u < |c.tasks|
    ensures Good(c.tasks[u], ViewOf(s, u)) ==> Good(c.tasks[u], ViewOf(Apply(c, s, a), u))
    ensures s.running ==> Kept(c, s, Apply(c, s, a), u)
  {
    hide Count, Jobs, Books, Accounts, ValidConfig;
    var th := s.threads[a.who];
    var t := th.popped.task;
    if u != t {
      var (task, v) := DispatchOf(c.tasks[t], s.tasks[t], th.popped.release, th.stopping, a.now);
      Elsewhere(SetTask(s, t, task), a.who, if v.Started? then Running(th.popped, AtTop) else Waiting, t, u);
    } else if Good(c.tasks[u], ViewOf(s, u)) {
      DispatchSelf(c, s, a);
    }
  }

  lemma DispatchSelf(c: Config, s: State, a: Action)
    requires ValidConfig(c) && Shaped(c, s) && Enabled(c, s, a) && a.Dispatch?
    requires var t := s.threads[a.who].popped.task; Good(c.tasks[t], ViewOf(s, t))
    ensures var t := s.threads[a.who].popped.task;
            Good(c.tasks[t], ViewOf(Apply(c, s, a), t)) && (s.running ==> Kept(c, s, Apply(c, s, a), t))
  {
    hide Count, Jobs, Books, Accounts;
    var th := s.threads[a.who];
    var t := th.popped.task;
    CountHas(s.threads, a.who, IsPopped(t));
    CountHas(s.threads, a.who, IsToken(t));
    DispatchAccounts(c.tasks[t], ViewOf(s, t), th.popped.release, th.stopping, a.now);
    var (task, v) := DispatchOf(c.tasks[t], s.tasks[t], th.popped.release, th.stopping, a.now);
    ViewOfSet(SetTask(s, t, task), a.who, if v.Started? then Running(th.popped, AtTop) else Waiting, t);
  }

  lemma StepRunPlain(c: Config, s: State, a: Action, u: nat)
    requires Shaped(c, s) && Enabled(c, s, a) && a.RunPlain? && u < |c.tasks|
    ensures Kept(c, s, Apply(c, s, a), u)
  {
    hide Count, Jobs, Books, Accounts;
    ViewOfSet(s, a.who, s.threads[a.who].(at := Done), u);
  }

  lemma StepTake(c: Config, s: State, a: Action, u: nat)
    requires Shaped(c, s) && Enabled(c, s, a) && a.TakeMessage? && u < |c.tasks|
    ensures Kept(c, s, Apply(c, s, a), u)
  {
    hide Count, Jobs, Books, Accounts;
    var th := s.threads[a.who];
    var t := th.job.task;
    var (sub, message) := Take(s.subs[t]);
    var s1, next := SetSub(s, t, sub), th.(at := if message == [] then Done else InCallback(message[0]));
    if u != t {
      Elsewhere(s1, a.who, next, t, u);
    } else if Good(c.tasks[u], ViewOf(s, u)) {
      TakeKeeps(c.tasks[t].use.sub, s.subs[t], ViewOf(s, t).inFlight);
      ViewOfSet(s1, a.who, next, u);
    }
  }

  lemma StepEndCallback(c: Config, s: State, a: Action, u: nat)
    requires Shaped(c, s) && Enabled(c, s, a) && a.EndCallback? && u < |c.tasks|
    ensures Kept(c, s, Apply(c, s, a), u)
  {
    hide Count, Jobs, Books, Accounts;
    var th := s.threads[a.who];
    var t := th.job.task;
    var s1 := SetSub(s, t, Returned(c.tasks[t].use, s.subs[t], a.threw));
    if u != t {
      Elsewhere(s1, a.who, th.(at := AtCount), t, u);
    } else if Good(c.tasks[u], ViewOf(s, u)) {
      BooksThrew(c.tasks[t].use.sub, s.subs[t], ViewOf(s, t).inFlight);
      ViewOfSet(s1, a.who, th.(at := AtCount), u);
    }
  }

  lemma StepCount(c: Config, s: State, a: Action, u: nat)
    requires Shaped(c, s) && Enabled(c, s, a) && a.CountMessage? && u < |c.tasks|
    ensures Kept(c, s, Apply(c, s, a), u)
  {
    hide Count, Jobs, Books, Accounts;
    var th := s.threads[a.who];
    var t := th.job.task;
    CountHas(s.threads, a.who, IsInFlight(t));
    var s1 := SetSub(s, t, CountDelivered(s.subs[t]));
    if u != t {
      Elsewhere(s1, a.who, th.(at := AtCheck), t, u);
    } else if Good(c.tasks[u], ViewOf(s, u)) {
      BooksCounted(c.tasks[t].use.sub, s.subs[t], ViewOf(s, t).inFlight);
      ViewOfSet(s1, a.who, th.(at := AtCheck), u);
    }
  }

  lemma StepCheck(c: Config, s: State, a: Action, u: nat)
    requires Shaped(c, s) && Enabled(c, s, a) && a.CheckMore? && u < |c.tasks|
    ensures Kept(c, s, Apply(c, s, a), u)
  {
    hide Count, Jobs, Books, Accounts;
    var th := s.threads[a.who];
    var t := th.job.task;
    var (sub, notify) := Check(s.subs[t]);
    var s1 := SetSub(s, t, sub);
    var next := if notify then Calling(t, a.release, Entering, ToCallback(th.job)) else Running(th.job, Done);
    if u != t {
      Elsewhere(s1, a.who, next, t, u);
    } else if Good(c.tasks[u], ViewOf(s, u)) {
      BooksChecked(c.tasks[t].use.sub, s.subs[t], ViewOf(s, t).inFlight);
      ViewOfSet(s1, a.who, next, u);
    }
  }

  lemma BooksThrew(c: SubConfig, s: Sub, inFlight: nat)
    requires Books(c, s, inFlight)
    ensures Books(c, CallbackThrew(s), inFlight)
  {
  }

  lemma BooksCounted(c: SubConfig, s: Sub, inFlight: nat)
    requires Books(c, s, inFlight) && inFlight > 0
    ensures Books(c, CountDelivered(s), inFlight - 1)
  {
  }

  lemma BooksChecked(c: SubConfig, s: Sub, inFlight: nat)
    requires Books(c, s, inFlight)
    ensures Books(c, Check(s).0, inFlight)
  {
  }

  lemma FinishAccounts(c: TaskConfig, v: View, release: int, now: int, failed: bool)
    requires Accounts(c, v.task, v.reserved, v.waiting, v.popped, v.running) && v.running > 0
    ensures Accounts(c, FinishOf(c, v.task, release, now, failed), v.reserved, v.waiting, v.popped, v.running - 1)
  {
  }

  lemma StepFinish(c: Config, s: State, a: Action, u: nat)
    requires Shaped(c, s) && Enabled(c, s, a) && a.Finish? && u < |c.tasks|
    ensures Kept(c, s, Apply(c, s, a), u)
  {
    var job := s.threads[a.who].job;
    hide Count, Jobs, Good;
    if u != job.task {
      var task := FinishOf(c.tasks[job.task], s.tasks[job.task], job.release, a.now, a.failed);
      Elsewhere(SetTask(s, job.task, task), a.who, Waiting, job.task, u);
    } else {
      FinishSelf(c, s, a);
    }
  }

  lemma FinishSelf(c: Config, s: State, a: Action)
    requires Shaped(c, s) && Enabled(c, s, a) && a.Finish?
    ensures Kept(c, s, Apply(c, s, a), s.threads[a.who].job.task)
  {
    var job := s.threads[a.who].job;
    var u := job.task;
    hide Count, Jobs, Books, Accounts, FinishOf, Apply;
    FinishIs(c, s, a);
    if Good(c.tasks[u], ViewOf(s, u)) {
      CountHas(s.threads, a.who, IsRunning(u));
      var task := FinishOf(c.tasks[u], s.tasks[u], job.release, a.now, a.failed);
      FinishAccounts(c.tasks[u], ViewOf(s, u), job.release, a.now, a.failed);
      FinishKeepsFlag(c.tasks[u], s.tasks[u], job.release, a.now, a.failed);
      ViewOfSet(SetTask(s, u, task), a.who, Waiting, u);
    }
  }

  lemma FinishIs(c: Config, s: State, a: Action)
    requires Shaped(c, s) && Enabled(c, s, a) && a.Finish?
    ensures var job := s.threads[a.who].job;
            var task := FinishOf(c.tasks[job.task], s.tasks[job.task], job.release, a.now, a.failed);
            Apply(c, s, a) == Set(SetTask(s, job.task, task), a.who, Waiting)
  {
    hide FinishOf;
  }

  lemma FinishKeepsFlag(c: TaskConfig, t: Task, release: int, now: int, failed: bool)
    ensures FinishOf(c, t, release, now, failed).cancelled == t.cancelled
  {
  }

  lemma StepClear(c: Config, s: State, a: Action, u: nat)
    requires Shaped(c, s) && Enabled(c, s, a) && a.ClearScheduled? && u < |c.tasks|
    ensures Kept(c, s, Apply(c, s, a), u)
  {
    var t := s.threads[a.who].failed;
    hide Count, Jobs, Books, Accounts;
    CountHas(s.threads, a.who, IsFailed(t));
    CountHas(s.threads, a.who, IsToken(t));
    var m := s.threads[a.who].message;
    var s1 := SetSub(s, t, GiveUp(c.tasks[t].use.sub, s.subs[t], m));
    if u != t {
      Elsewhere(s1, a.who, Free, t, u);
    } else if Good(c.tasks[u], ViewOf(s, u)) {
      GiveUpKeeps(c.tasks[t].use.sub, s.subs[t], m, ViewOf(s, t).inFlight);
      ViewOfSet(s1, a.who, Free, u);
    }
  }

  lemma StepClose(c: Config, s: State, a: Action, u: nat)
    requires Shaped(c, s) && Enabled(c, s, a) && (a.CloseSub? || a.CancelTask?) && u < |c.tasks|
    ensures Kept(c, s, Apply(c, s, a), u)
  {
    hide Count, Jobs, Books;
    if u == a.task && a.CloseSub? && Good(c.tasks[u], ViewOf(s, u)) {
      CloseKeeps(c.tasks[u].use.sub, s.subs[u], ViewOf(s, u).inFlight);
    }
  }

  // ----- the whole invariant, over whole runs -----

  /** Jobs and numbered calls carry distinct sequence numbers, all of them given out already. */
  predicate HasNumber(th: Thread) {
    th.Calling? && !th.stage.Entering?
  }

  predicate Unique(s: State) {
    && DistinctJobs(s.queue)
    && (forall i :: 0 <= i < |s.queue| ==> s.queue[i].sequence < s.nextSequence)
    && (forall i :: 0 <= i < |s.threads| && HasNumber(s.threads[i]) ==> s.threads[i].stage.sequence < s.nextSequence)
    && (forall i, j :: 0 <= i < |s.threads| && 0 <= j < |s.queue| && HasNumber(s.threads[i]) ==>
          s.threads[i].stage.sequence != s.queue[j].sequence)
    && (forall i, j :: 0 <= i < j < |s.threads| && HasNumber(s.threads[i]) && HasNumber(s.threads[j]) ==>
          s.threads[i].stage.sequence != s.threads[j].stage.sequence)
  }

  predicate Inv(c: Config, s: State) {
    && Shaped(c, s) && Unique(s) && |s.queue| <= c.groupCapacity
    && (forall u :: 0 <= u < |c.tasks| ==> Good(c.tasks[u], ViewOf(s, u)))
    && (s.running && SumCapacity(c.tasks) <= c.groupCapacity ==>
          forall u :: 0 <= u < |c.tasks| ==> Armed(c.tasks[u], ViewOf(s, u)))
  }

  lemma StepShaped(c: Config, s: State, a: Action)
    requires Shaped(c, s) && Enabled(c, s, a)
    ensures Shaped(c, Apply(c, s, a))
  {
    hide Shaped, Apply;
    if a.Number? || a.Reserve? || a.Push? {
      EnqueueShaped(c, s, a);
    } else {
      OtherShaped(c, s, a);
    }
  }

  lemma EnqueueShaped(c: Config, s: State, a: Action)
    requires Shaped(c, s) && Enabled(c, s, a) && (a.Number? || a.Reserve? || a.Push?)
    ensures Shaped(c, Apply(c, s, a))
  {
    hide ReserveOf, GiveBack;
    var s' := Apply(c, s, a);
    forall i | 0 <= i < |s'.threads|
      ensures ShapedThread(c, s', s'.threads[i])
    {
      assert ShapedThread(c, s, s.threads[i]);
    }
  }

  lemma OtherShaped(c: Config, s: State, a: Action)
    requires Shaped(c, s) && Enabled(c, s, a) && !a.Number? && !a.Reserve? && !a.Push?
    ensures Shaped(c, Apply(c, s, a))
  {
    hide AcceptOf, Take, Check, CloseOf, FinishOf, DispatchOf, ApplyEnqueue;
    var s' := Apply(c, s, a);
    forall i | 0 <= i < |s'.threads|
      ensures ShapedThread(c, s', s'.threads[i])
    {
      assert ShapedThread(c, s, s.threads[i]);
    }
  }

  lemma UniqueSet(s: State, who: nat, th: Thread)
    requires Unique(s) && At(s, who)
    requires HasNumber(th) ==> HasNumber(s.threads[who]) && th.stage.sequence == s.threads[who].stage.sequence
    ensures Unique(Set(s, who, th))
  {
  }

  lemma UniqueNumber(s: State, who: nat, th: Thread)
    requires Unique(s) && At(s, who) && th.Calling? && th.stage == Numbered(s.nextSequence)
    ensures Unique(Set(s.(nextSequence := s.nextSequence + 1), who, th))
  {
  }

  lemma UniquePush(s: State, who: nat, job: Job, th: Thread)
    requires Unique(s) && At(s, who) && HasNumber(s.threads[who]) && job.sequence == s.threads[who].stage.sequence
    requires !HasNumber(th)
    ensures Unique(Set(s.(queue := s.queue + [job]), who, th))
  {
    UniqueSet(s, who, th);
  }

  lemma UniquePop(s: State, who: nat, k: nat, th: Thread)
    requires Unique(s) && At(s, who) && k < |s.queue| && !HasNumber(th)
    ensures Unique(Set(s.(queue := Remove(s.queue, k)), who, th))
  {
    UniqueSet(s, who, th);
  }

  lemma UniqueIgnores(s: State, s': State)
    requires Unique(s) && s'.queue == s.queue && s'.threads == s.threads && s'.nextSequence == s.nextSequence
    ensures Unique(s')
  {
  }

  /** The state before a step changed its thread, when the step touches neither the queue nor the numbering. */
  predicate OnlyThread(s: State, s': State, who: nat) {
    && At(s, who) && |s'.threads| == |s.threads| && s'.threads == s.threads[who := s'.threads[who]]
    && s'.queue == s.queue && s'.nextSequence == s.nextSequence
    && (HasNumber(s'.threads[who]) ==>
          HasNumber(s.threads[who]) && s'.threads[who].stage.sequence == s.threads[who].stage.sequence)
  }

  lemma OnlyThreadIsUnique(s: State, s': State, who: nat)
    requires Unique(s) && OnlyThread(s, s', who)
    ensures Unique(s')
  {
    hide Unique;
    UniqueSet(s, who, s'.threads[who]);
    UniqueIgnores(Set(s, who, s'.threads[who]), s');
  }

  lemma EnqueueUnique(c: Config, s: State, a: Action)
    requires Shaped(c, s) && Enabled(c, s, a) && Unique(s) && |s.queue| <= c.groupCapacity
    requires a.Number? || a.Reserve? || a.Push?
    ensures Unique(Apply(c, s, a)) && |Apply(c, s, a).queue| <= c.groupCapacity
  {
    hide ReserveOf, GiveBack, Unique, ShapedThread;
    var s', who := Apply(c, s, a), a.who;
    assert ShapedThread(c, s, s.threads[who]);
    if a.Number? && s.running {
      UniqueNumber(s, who, s'.threads[who]);
    } else if a.Push? && |s'.queue| > |s.queue| {
      UniquePush(s, who, s'.queue[|s.queue|], s'.threads[who]);
    } else {
      OnlyThreadIsUnique(s, s', who);
    }
  }

  lemma StepUnique(c: Config, s: State, a: Action)
    requires Shaped(c, s) && Enabled(c, s, a) && Unique(s) && |s.queue| <= c.groupCapacity
    ensures Unique(Apply(c, s, a)) && |Apply(c, s, a).queue| <= c.groupCapacity
  {
    hide AcceptOf, Take, Check, CloseOf, FinishOf, DispatchOf, Unique, ShapedThread, KnownJobs, ApplyEnqueue;
    var s' := Apply(c, s, a);
    if a.Number? || a.Reserve? || a.Push? {
      EnqueueUnique(c, s, a);
    } else if a.CloseSub? || a.CancelTask? || a.StopExecutor? || a.StopGroup? {
      UniqueIgnores(s, s');
    } else if a.Pop? {
      UniquePop(s, a.who, a.index, s'.threads[a.who]);
    } else {
      OnlyThreadIsUnique(s, s', a.who);
    }
  }

  lemma StepKept(c: Config, s: State, a: Action, u: nat)
    requires ValidConfig(c) && Inv(c, s) && Enabled(c, s, a) && u < |c.tasks|
    ensures var s' := Apply(c, s, a);
            && |s'.tasks| == |s'.subs| == |c.tasks| && Good(c.tasks[u], ViewOf(s', u))
            && (s'.running && SumCapacity(c.tasks) <= c.groupCapacity ==> Armed(c.tasks[u], ViewOf(s', u)))
  {
    hide Good, Armed, Unique, ViewOf;
    assert Good(c.tasks[u], ViewOf(s, u));
    match a
    case Notify(_, _, _) => StepNotify(c, s, a, u);
    case AcceptMessage(_, _, _, _) => StepAccept(c, s, a, u);
    case Number(who) => if s.running { StepNumber(c, s, a, u); } else { StepRefused(c, s, who, u); }
    case Reserve(_) => StepReserve(c, s, a, u);
    case Push(who) =>
      Holds(c, s, who);
      StepPush(c, s, a, u);
      if s.running && SumCapacity(c.tasks) <= c.groupCapacity {
        ReservationHasRoom(c, s, who);
      }
    case ClearScheduled(_) => StepClear(c, s, a, u);
    case Pop(_, _) => StepPop(c, s, a, u);
    case Dispatch(_, _) => StepDispatch(c, s, a, u);
    case RunPlain(_) => StepRunPlain(c, s, a, u);
    case TakeMessage(_) => StepTake(c, s, a, u);
    case EndCallback(_, _) => StepEndCallback(c, s, a, u);
    case CountMessage(_) => StepCount(c, s, a, u);
    case CheckMore(_, _) => StepCheck(c, s, a, u);
    case Finish(_, _, _) => StepFinish(c, s, a, u);
    case CloseSub(_) => StepClose(c, s, a, u);
    case CancelTask(_) => StepClose(c, s, a, u);
    case StopExecutor => SameView(s, Apply(c, s, a), u);
    case StopGroup => SameView(s, Apply(c, s, a), u);
  }

  lemma SameView(s: State, s': State, u: nat)
    requires u < |s.tasks| && u < |s.subs|
    requires s'.tasks == s.tasks && s'.subs == s.subs && s'.threads == s.threads && s'.queue == s.queue
    ensures ViewOf(s', u) == ViewOf(s, u)
  {
  }

  lemma Holds(c: Config, s: State, who: nat)
    requires Inv(c, s) && Enabled(c, s, Push(who))
    ensures s.tasks[s.threads[who].task].queued > 0
  {
    var t := s.threads[who].task;
    CountHas(s.threads, who, IsReserved(t));
    assert Good(c.tasks[t], ViewOf(s, t));
  }

  lemma StepKeeps(c: Config, s: State, a: Action)
    requires ValidConfig(c) && Inv(c, s) && Enabled(c, s, a)
    ensures Inv(c, Apply(c, s, a))
  {
    var s' := Apply(c, s, a);
    StepShaped(c, s, a);
    StepUnique(c, s, a);
    forall u | 0 <= u < |c.tasks|
      ensures Good(c.tasks[u], ViewOf(s', u))
      ensures s'.running && SumCapacity(c.tasks) <= c.groupCapacity ==> Armed(c.tasks[u], ViewOf(s', u))
    {
      hide Inv, Good, Armed, ViewOf;
      StepKept(c, s, a, u);
    }
  }

  predicate Legal(c: Config, s: State, run: seq<Action>)
    decreases |run|
  {
    run == [] || (Shaped(c, s) && Enabled(c, s, run[0]) && Legal(c, Apply(c, s, run[0]), run[1..]))
  }

  function After(c: Config, s: State, run: seq<Action>): State
    requires Legal(c, s, run)
    decreases |run|
  {
    if run == [] then s else After(c, Apply(c, s, run[0]), run[1..])
  }

  lemma {:induction false} RunKeeps(c: Config, s: State, run: seq<Action>)
    requires ValidConfig(c) && Inv(c, s) && Legal(c, s, run)
    ensures Inv(c, After(c, s, run))
    decreases |run|
  {
    hide Inv, Apply, Enabled, Shaped;
    if run != [] {
      StepKeeps(c, s, run[0]);
      RunKeeps(c, Apply(c, s, run[0]), run[1..]);
    }
  }

  lemma {:induction false} CountIdle(threads: seq<Thread>, q: Query)
    requires forall i :: 0 <= i < |threads| ==> threads[i].Free? || threads[i].Waiting?
    ensures Count(threads, q) == 0
  {
    if threads != [] {
      CountIdle(threads[1..], q);
    }
  }

  lemma InitHolds(c: Config, application: nat, workers: nat)
    requires ValidConfig(c)
    ensures Inv(c, Init(c, application, workers))
  {
    var s := Init(c, application, workers);
    forall u | 0 <= u < |c.tasks|
      ensures Good(c.tasks[u], ViewOf(s, u)) && Armed(c.tasks[u], ViewOf(s, u))
    {
      hide Count;
      CountIdle(s.threads, IsReserved(u));
      CountIdle(s.threads, IsPopped(u));
      CountIdle(s.threads, IsRunning(u));
      CountIdle(s.threads, IsToken(u));
      CountIdle(s.threads, IsInFlight(u));
      CountIdle(s.threads, IsFailed(u));
    }
  }

  lemma Reachable(c: Config, application: nat, workers: nat, run: seq<Action>)
    requires ValidConfig(c) && Legal(c, Init(c, application, workers), run)
    ensures Inv(c, After(c, Init(c, application, workers), run))
  {
    hide Inv, Init, After, Legal;
    InitHolds(c, application, workers);
    RunKeeps(c, Init(c, application, workers), run);
  }
}
