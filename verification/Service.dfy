/** A service of a node: the bounded queue of pending calls and the promises of their callers, one action per region of
    its mutex. The executor is free: a Notify may succeed or fail, and ProcessOne may run at any time on any number of
    threads. */
module Service {

  const QUEUE_CAPACITY: nat := 64

  datatype Answer = Handled | ClosedAnswer

  /** Calls are numbered as they are admitted. handling, draining and checking are the locals of threads in ProcessOne
      and Close; notifying are the callers inside Notify. The last three are history: what each promise was set to,
      calls withdrawn by their callers, and what was queued when Close ran. */
  datatype State = State(
    closed: bool, scheduled: bool, queue: seq<nat>,
    notifying: seq<nat>, handling: seq<nat>, checking: nat, draining: seq<nat>,
    answers: seq<seq<Answer>>, withdrawn: set<nat>, closing: seq<nat>)

  datatype Admission = Admitted(call: nat, notify: bool) | Expired | RefusedClosed | QueueFull

  datatype Action =
    | Invoke | NotifyDone(caller: nat) | NotifyFailed(caller: nat)
    | TakeCall | Fulfil(handler: nat) | CheckAgain | Close | DrainOne

  function Init(): State {
    State(false, false, [], [], [], 0, [], [], {}, [])
  }

  function Without(s: seq<nat>, i: nat): seq<nat>
    requires i < |s|
  {
    s[..i] + s[i + 1..]
  }

  /** The queue after its first occurrence of x is erased, if there is one. */
  function Erase(s: seq<nat>, x: nat): seq<nat> {
    if s == [] then [] else if s[0] == x then s[1..] else [s[0]] + Erase(s[1..], x)
  }

  function InvokeOf(s: State): (State, Admission) {
    if s.closed then (s, RefusedClosed)
    else if |s.queue| >= QUEUE_CAPACITY then (s, QueueFull)
    else
      var call := |s.answers|;
      (s.(queue := s.queue + [call], answers := s.answers + [[]], scheduled := true,
       notifying := if s.scheduled then s.notifying else s.notifying + [call]),
       Admitted(call, !s.scheduled))
  }

  /** Invoke after a refused Notify: take the call back, unless somebody else has it by now. */
  function WithdrawOf(s: State, call: nat): State {
    var q := Erase(s.queue, call);
    s.(queue := q, scheduled := if q == [] then false else s.scheduled,
    withdrawn := if call in s.queue then s.withdrawn + {call} else s.withdrawn)
  }

  function TakeOf(s: State): State {
    if s.closed || s.queue == [] then s.(scheduled := false)
    else s.(queue := s.queue[1..], handling := s.handling + [s.queue[0]])
  }

  function SetValue(s: State, call: nat, a: Answer): State
    requires call < |s.answers|
  {
    s.(answers := s.answers[call := s.answers[call] + [a]])
  }

  function CheckOf(s: State): State {
    if s.closed || s.queue == [] then s.(scheduled := false) else s
  }

  function CloseOf(s: State): State {
    if s.closed then s
    else s.(closed := true, scheduled := false, queue := [], draining := s.queue, closing := s.queue)
  }

  predicate Enabled(s: State, a: Action) {
    match a
    case NotifyDone(i) => i < |s.notifying|
    case NotifyFailed(i) => i < |s.notifying|
    case Fulfil(i) => i < |s.handling| && s.handling[i] < |s.answers|
    case CheckAgain => s.checking > 0
    case DrainOne => s.draining != [] && s.draining[0] < |s.answers|
    case _ => true
  }

  function Apply(s: State, a: Action): State
    requires Enabled(s, a)
  {
    match a
    case Invoke => InvokeOf(s).0
    case NotifyDone(i) => s.(notifying := Without(s.notifying, i))
    case NotifyFailed(i) => WithdrawOf(s, s.notifying[i]).(notifying := Without(s.notifying, i))
    case TakeCall => TakeOf(s)
    case Fulfil(i) =>
      SetValue(s, s.handling[i], Handled).(handling := Without(s.handling, i), checking := s.checking + 1)
    case CheckAgain => CheckOf(s).(checking := s.checking - 1)
    case Close => CloseOf(s)
    case DrainOne => SetValue(s, s.draining[0], ClosedAnswer).(draining := s.draining[1..])
  }

  // ----- every admitted call has exactly one owner -----

  /** How many hands hold call: the queue, handlers, the drain of Close, its withdrawing caller, and the answers its
      promise has received. */
  function Owners(s: State, call: nat): nat
    requires call < |s.answers|
  {
    multiset(s.queue)[call] + multiset(s.handling)[call] + multiset(s.draining)[call]
    + (if call in s.withdrawn then 1 else 0) + |s.answers[call]|
  }

  predicate Known(s: State, calls: seq<nat>) {
    forall i :: 0 <= i < |calls| ==> calls[i] < |s.answers|
  }

  predicate Inv(s: State) {
    && (forall call :: 0 <= call < |s.answers| ==> Owners(s, call) == 1)
    && Known(s, s.queue) && Known(s, s.handling) && Known(s, s.draining) && Known(s, s.notifying)
    && Known(s, s.closing) && (forall call :: call in s.withdrawn ==> call < |s.answers|)
    && |s.queue| <= QUEUE_CAPACITY
    && (s.closed ==> s.queue == [])
    && (!s.closed ==> s.draining == [] && s.closing == [])
    && (forall i :: 0 <= i < |s.closing| ==>
          s.closing[i] in s.draining || s.answers[s.closing[i]] == [ClosedAnswer])
  }

  lemma {:induction false} EraseBag(s: seq<nat>, x: nat)
    ensures x in s ==> multiset(s) == multiset(Erase(s, x)) + multiset{x}
    ensures x !in s ==> Erase(s, x) == s
    ensures |Erase(s, x)| <= |s|
  {
    if s != [] {
      assert s == [s[0]] + s[1..];
      if s[0] != x {
        EraseBag(s[1..], x);
      }
    }
  }

  lemma {:induction false} EraseBelow(s: seq<nat>, x: nat, n: nat)
    requires forall i :: 0 <= i < |s| ==> s[i] < n
    ensures forall i :: 0 <= i < |Erase(s, x)| ==> Erase(s, x)[i] < n
  {
    if s != [] && s[0] != x {
      EraseBelow(s[1..], x, n);
    }
  }

  lemma WithoutBag(s: seq<nat>, i: nat)
    requires i < |s|
    ensures multiset(s) == multiset(Without(s, i)) + multiset{s[i]}
  {
    assert s == s[..i] + [s[i]] + s[i + 1..];
  }

  lemma FrontBag(s: seq<nat>)
    requires s != []
    ensures multiset(s) == multiset(s[1..]) + multiset{s[0]}
  {
    assert s == [s[0]] + s[1..];
  }

  lemma InvokeKeeps(s: State)
    requires Inv(s)
    ensures Inv(InvokeOf(s).0)
  {
    if !s.closed && |s.queue| < QUEUE_CAPACITY {
      var t, call := InvokeOf(s).0, |s.answers|;
      NotThere(s, s.queue, call);
      NotThere(s, s.handling, call);
      NotThere(s, s.draining, call);
      forall c | 0 <= c < |t.answers|
        ensures Owners(t, c) == 1
      {
        if c < call {
          assert Owners(s, c) == 1;
        }
      }
    }
  }

  lemma NotThere(s: State, calls: seq<nat>, call: nat)
    requires Known(s, calls) && call >= |s.answers|
    ensures multiset(calls)[call] == 0
  {
    assert call !in calls;
  }

  lemma WithdrawKeeps(s: State, i: nat)
    requires Inv(s) && i < |s.notifying|
    ensures Inv(Apply(s, NotifyFailed(i)))
  {
    hide Erase;
    var call := s.notifying[i];
    var t := Apply(s, NotifyFailed(i));
    EraseBag(s.queue, call);
    EraseBelow(s.queue, call, |s.answers|);
    assert call in s.queue ==> multiset(s.queue)[call] >= 1;
    forall c | 0 <= c < |t.answers|
      ensures Owners(t, c) == 1
    {
      assert Owners(s, c) == 1;
    }
  }

  lemma TakeKeeps(s: State)
    requires Inv(s)
    ensures Inv(TakeOf(s))
  {
    var t := TakeOf(s);
    if !s.closed && s.queue != [] {
      FrontBag(s.queue);
      forall c | 0 <= c < |t.answers|
        ensures Owners(t, c) == 1
      {
        assert Owners(s, c) == 1;
      }
    } else {
      forall c | 0 <= c < |t.answers|
        ensures Owners(t, c) == 1
      {
        assert Owners(s, c) == 1;
      }
    }
  }

  lemma FulfilKeeps(s: State, i: nat)
    requires Inv(s) && Enabled(s, Fulfil(i))
    ensures Inv(Apply(s, Fulfil(i))) && s.answers[s.handling[i]] == []
  {
    var call, t := s.handling[i], Apply(s, Fulfil(i));
    WithoutBag(s.handling, i);
    assert Owners(s, call) == 1;
    assert multiset(s.handling)[call] >= 1;
    forall c | 0 <= c < |t.answers|
      ensures Owners(t, c) == 1
    {
      assert Owners(s, c) == 1;
    }
  }

  lemma DrainKeeps(s: State)
    requires Inv(s) && Enabled(s, DrainOne)
    ensures Inv(Apply(s, DrainOne)) && s.answers[s.draining[0]] == []
  {
    var call, t := s.draining[0], Apply(s, DrainOne);
    FrontBag(s.draining);
    assert Owners(s, call) == 1;
    assert multiset(s.draining)[call] >= 1;
    forall c | 0 <= c < |t.answers|
      ensures Owners(t, c) == 1
    {
      assert Owners(s, c) == 1;
    }
    forall k | 0 <= k < |t.closing|
      ensures t.closing[k] in t.draining || t.answers[t.closing[k]] == [ClosedAnswer]
    {
      assert s.closing[k] in s.draining || s.answers[s.closing[k]] == [ClosedAnswer];
    }
  }

  lemma CloseKeeps(s: State)
    requires Inv(s)
    ensures Inv(CloseOf(s))
  {
    var t := CloseOf(s);
    if !s.closed {
      forall c | 0 <= c < |t.answers|
        ensures Owners(t, c) == 1
      {
        assert Owners(s, c) == 1;
      }
    }
  }

  lemma StepKeeps(s: State, a: Action)
    requires Inv(s) && Enabled(s, a)
    ensures Inv(Apply(s, a))
  {
    match a
    case Invoke => InvokeKeeps(s);
    case NotifyFailed(i) => WithdrawKeeps(s, i);
    case TakeCall => TakeKeeps(s);
    case Fulfil(i) => FulfilKeeps(s, i);
    case Close => CloseKeeps(s);
    case DrainOne => DrainKeeps(s);
    case NotifyDone(i) => SameCalls(s, Apply(s, a));
    case CheckAgain => SameCalls(s, Apply(s, a));
  }

  lemma SameCalls(s: State, t: State)
    requires Inv(s)
    requires t.queue == s.queue && t.handling == s.handling && t.draining == s.draining && t.answers == s.answers
    requires t.withdrawn == s.withdrawn && t.closing == s.closing && t.closed == s.closed && Known(t, t.notifying)
    ensures Inv(t)
  {
    forall c | 0 <= c < |t.answers|
      ensures Owners(t, c) == 1
    {
      assert Owners(s, c) == 1;
    }
  }

  predicate Legal(s: State, run: seq<Action>)
    decreases |run|
  {
    run == [] || (Enabled(s, run[0]) && Legal(Apply(s, run[0]), run[1..]))
  }

  function After(s: State, run: seq<Action>): State
    requires Legal(s, run)
    decreases |run|
  {
    if run == [] then s else After(Apply(s, run[0]), run[1..])
  }

  lemma {:induction false} RunKeeps(s: State, run: seq<Action>)
    requires Inv(s) && Legal(s, run)
    ensures Inv(After(s, run))
    decreases |run|
  {
    hide Inv, Apply, Enabled;
    if run != [] {
      StepKeeps(s, run[0]);
      RunKeeps(Apply(s, run[0]), run[1..]);
    }
  }

  /** At every moment of every run: the queue holds at most 64 calls; every admitted call is in exactly one hand, so no
      promise is ever set twice, and a thread about to set one finds it unset; and once closed the queue stays empty
      and, when the drain is over, every call that Close found queued has been answered Closed and nothing else. */
  lemma EveryCallHasOneOwner(run: seq<Action>, call: nat)
    requires Legal(Init(), run) && call < |After(Init(), run).answers|
    ensures var s := After(Init(), run);
            && |s.queue| <= QUEUE_CAPACITY && Owners(s, call) == 1 && |s.answers[call]| <= 1
            && (call in s.handling || call in s.draining ==> s.answers[call] == [])
            && (s.closed ==> s.queue == [])
            && (s.draining == [] && call in s.closing ==> s.answers[call] == [ClosedAnswer])
  {
    hide Legal, After;
    RunKeeps(Init(), run);
    var s := After(Init(), run);
    assert Owners(s, call) == 1;
    if call in s.handling {
      assert multiset(s.handling)[call] >= 1;
    }
    if call in s.draining {
      assert multiset(s.draining)[call] >= 1;
    }
  }

  /** The loop of Close: every call of the list is answered Closed. */
  function DrainAll(answers: seq<seq<Answer>>, calls: seq<nat>): (r: seq<seq<Answer>>)
    requires forall i :: 0 <= i < |calls| ==> calls[i] < |answers|
    ensures |r| == |answers|
    decreases calls
  {
    if calls == [] then answers
    else DrainAll(answers[calls[0] := answers[calls[0]] + [ClosedAnswer]], calls[1..])
  }

  /** Draining without interruption is a run of DrainOne actions. */
  lemma {:induction false} DrainIsRun(s: State) returns (run: seq<Action>)
    requires Known(s, s.draining)
    ensures Legal(s, run) && After(s, run) == s.(draining := [], answers := DrainAll(s.answers, s.draining))
    decreases |s.draining|
  {
    if s.draining == [] {
      run := [];
    } else {
      var t := Apply(s, DrainOne);
      var more := DrainIsRun(t);
      run := [DrainOne] + more;
      assert run[1..] == more;
    }
  }

  /** std::find. */
  method Find(s: seq<nat>, x: nat) returns (i: nat)
    ensures i <= |s| && (i < |s| ==> s[i] == x)
    ensures forall j :: 0 <= j < i ==> s[j] != x
  {
    i := 0;
    while i < |s| && s[i] != x
      invariant i <= |s| && forall j :: 0 <= j < i ==> s[j] != x
    {
      i := i + 1;
    }
  }

  lemma {:induction false} EraseAt(s: seq<nat>, x: nat, i: nat)
    requires i <= |s| && (i < |s| ==> s[i] == x) && forall j :: 0 <= j < i ==> s[j] != x
    ensures Erase(s, x) == if i < |s| then s[..i] + s[i + 1..] else s
    ensures x in s <==> i < |s|
  {
    if i > 0 {
      EraseAt(s[1..], x, i - 1);
      assert s == [s[0]] + s[1..];
      if i < |s| {
        assert s[..i] + s[i + 1..] == [s[0]] + (s[1..][..i - 1] + s[1..][i..]);
      }
    }
  }

  class ServiceState {
    var closed: bool
    var scheduled: bool
    var queue: seq<nat>
    var answers: seq<seq<Answer>>
    ghost var notifying: seq<nat>
    ghost var handling: seq<nat>
    ghost var checking: nat
    ghost var withdrawn: set<nat>
    ghost var closing: seq<nat>

    /** The state when no thread is inside the drain of Close. */
    ghost function Now(): State
      reads this
    {
      State(closed, scheduled, queue, notifying, handling, checking, [], answers, withdrawn, closing)
    }

    constructor ()
      ensures Now() == Init()
    {
      closed, scheduled, queue, answers := false, false, [], [];
      notifying, handling, checking, withdrawn, closing := [], [], 0, {}, [];
    }

    /** A call whose deadline has passed is turned away before the mutex is taken. */
    method Invoke(expired: bool) returns (r: Admission)
      modifies this
      ensures expired ==> (Now(), r) == (old(Now()), Expired)
      ensures !expired ==> (Now(), r) == InvokeOf(old(Now()))
    {
      if expired {
        return Expired;
      }
      if closed {
        return RefusedClosed;
      }
      if |queue| >= QUEUE_CAPACITY {
        return QueueFull;
      }
      var call := |answers|;
      answers := answers + [[]];
      queue := queue + [call];
      var notify := !scheduled;
      if notify {
        scheduled := true;
        notifying := notifying + [call];
      }
      return Admitted(call, notify);
    }

    /** The failure path of Invoke: find the call in the queue and erase it. */
    method Withdraw(call: nat)
      modifies this
      ensures Now() == WithdrawOf(old(Now()), call)
    {
      var i := Find(queue, call);
      EraseAt(queue, call, i);
      if i < |queue| {
        withdrawn := withdrawn + {call};
        queue := queue[..i] + queue[i + 1..];
      }
      if queue == [] {
        scheduled := false;
      }
    }

    method Take() returns (call: seq<nat>)
      modifies this
      ensures Now() == TakeOf(old(Now()))
      ensures call == if old(closed) || old(queue) == [] then [] else [old(queue)[0]]
    {
      if closed || queue == [] {
        scheduled := false;
        return [];
      }
      call := [queue[0]];
      handling := handling + call;
      queue := queue[1..];
    }

    method Check() returns (notify: bool)
      modifies this
      ensures Now() == CheckOf(old(Now())) && notify == !(closed || queue == [])
    {
      if closed || queue == [] {
        scheduled := false;
        return false;
      }
      return true;
    }

    /** Close and its drain, taken as one. */
    method Close()
      requires forall i :: 0 <= i < |queue| ==> queue[i] < |answers|
      modifies this
      ensures old(closed) ==> Now() == old(Now())
      ensures !old(closed) ==>
                Now() == CloseOf(old(Now())).(draining := [], answers := DrainAll(old(answers), old(queue)))
    {
      if closed {
        return;
      }
      closed, scheduled := true, false;
      var pending := queue;
      closing := queue;
      queue := [];
      for i := 0 to |pending|
        invariant closed && !scheduled && queue == [] && closing == pending == old(queue) && |answers| == |old(answers)|
        invariant unchanged(`notifying) && unchanged(`handling) && unchanged(`checking) && unchanged(`withdrawn)
        invariant DrainAll(answers, pending[i..]) == DrainAll(old(answers), pending)
      {
        assert pending[i..][1..] == pending[i + 1..];
        answers := answers[pending[i] := answers[pending[i]] + [ClosedAnswer]];
      }
    }
  }
}
