/** A subscription or a service seen as a mailbox: its bounded queue, its scheduled flag and its counters, one function per
    region of its mutex. Messages and calls are known by an identity. */
module Subscription {
  import Service

  type MessageId = nat

  /** Refuse is the way of a service: a call that finds the queue full is turned away and leaves no trace. */
  datatype OverflowPolicy = DropNewest | DropOldest | Refuse

  datatype SubConfig = SubConfig(queueCapacity: nat, policy: OverflowPolicy)

  type SubscriberConfig = c: SubConfig | !c.policy.Refuse? witness SubConfig(1, DropNewest)

  /** The last five components are history: everything received, everything handed to ProcessOne, messages lost to a
      full queue, callbacks that threw, and calls withdrawn by their callers. */
  datatype Sub = Sub(
    closed: bool, scheduled: bool, queue: seq<MessageId>,
    receivedMessages: nat, droppedMessages: nat, deliveredMessages: nat, queueDepth: nat, highWatermark: nat,
    received: seq<MessageId>, taken: seq<MessageId>, overflows: nat, throws: nat, withdrawn: nat)

  function Fresh(): Sub {
    Sub(false, false, [], 0, 0, 0, 0, 0, [], [], 0, 0, 0)
  }

  function Max(a: nat, b: nat): nat {
    if a < b then b else a
  }

  /** Accept, and whether the caller now owes the executor a Notify. */
  function AcceptOf(c: SubConfig, s: Sub, m: MessageId): (Sub, bool) {
    if s.closed || (c.policy.Refuse? && |s.queue| >= c.queueCapacity) then (s, false)
    else
      var full := |s.queue| >= c.queueCapacity;
      var seen := s.(receivedMessages := s.receivedMessages + 1, received := s.received + [m],
                  droppedMessages := s.droppedMessages + (if full then 1 else 0),
                  overflows := s.overflows + (if full then 1 else 0));
      if full && c.policy.DropNewest? then (seen, false)
      else
        var kept := if full && s.queue != [] then s.queue[1..] else s.queue;
        var q := kept + [m];
        (seen.(queue := q, queueDepth := |q|, highWatermark := Max(s.highWatermark, |q|), scheduled := true),
         !s.scheduled)
  }

  /** After a refused Notify a subscriber only clears its flag. */
  function Unschedule(s: Sub): Sub {
    s.(scheduled := false)
  }

  /** After a refused Notify the caller of a service takes its call back, unless somebody else has it by now, and clears
      the flag only if that leaves nothing queued. */
  function Withdraw(s: Sub, m: MessageId): Sub {
    var q := Service.Erase(s.queue, m);
    s.(queue := q, queueDepth := |q|, scheduled := if q == [] then false else s.scheduled,
    withdrawn := s.withdrawn + if m in s.queue then 1 else 0)
  }

  function GiveUp(c: SubConfig, s: Sub, m: MessageId): Sub {
    if c.policy.Refuse? then Withdraw(s, m) else Unschedule(s)
  }

  /** The head of ProcessOne: the message to hand to the callback, if any. */
  function Take(s: Sub): (r: (Sub, seq<MessageId>))
    ensures |r.1| <= 1
  {
    if s.closed || s.queue == [] then (s.(scheduled := false), [])
    else (s.(queue := s.queue[1..], queueDepth := |s.queue| - 1, taken := s.taken + [s.queue[0]]), [s.queue[0]])
  }

  function CallbackThrew(s: Sub): Sub {
    s.(droppedMessages := s.droppedMessages + 1, throws := s.throws + 1)
  }

  function CountDelivered(s: Sub): Sub {
    s.(deliveredMessages := s.deliveredMessages + 1)
  }

  /** The tail of ProcessOne, and whether it notifies again. */
  function Check(s: Sub): (Sub, bool) {
    if s.closed || s.queue == [] then (s.(scheduled := false), false) else (s, true)
  }

  function CloseOf(s: Sub): Sub {
    if s.closed then s else s.(closed := true, queue := [], queueDepth := 0, scheduled := false)
  }

  // ----- what the queue keeps of what was received -----

  /** a is b with some elements left out. */
  predicate Within(a: seq<MessageId>, b: seq<MessageId>)
    decreases b
  {
    if b == [] then a == []
    else if a != [] && a[0] == b[0] then Within(a[1..], b[1..])
    else Within(a, b[1..])
  }

  predicate Suffix(a: seq<MessageId>, b: seq<MessageId>) {
    |a| <= |b| && b[|b| - |a|..] == a
  }

  /** In order and without invention; under DropOldest the queue is always the latest of what was received; and the
      counters, where inFlight is the number of messages taken and not yet counted as delivered. */
  predicate Books(c: SubConfig, s: Sub, inFlight: nat) {
    && |s.queue| == s.queueDepth <= c.queueCapacity && s.queueDepth <= s.highWatermark <= c.queueCapacity
    && s.receivedMessages == |s.received|
    && |s.taken| == s.deliveredMessages + inFlight
    && s.droppedMessages == s.overflows + s.throws
    && Within(s.taken + s.queue, s.received)
    && (!s.closed ==> |s.received| == s.deliveredMessages + inFlight + |s.queue| + s.overflows + s.withdrawn)
    && (if c.policy.Refuse? then s.overflows == 0 else s.withdrawn == 0)
    && (!s.closed && c.policy.DropOldest? ==> Suffix(s.queue, s.received))
    && (s.closed ==> s.queue == [] && !s.scheduled)
  }

  lemma {:induction false} WithinAppend(a: seq<MessageId>, b: seq<MessageId>, m: MessageId)
    requires Within(a, b)
    ensures Within(a + [m], b + [m]) && Within(a, b + [m])
    decreases b
  {
    if b == [] {
      assert a + [m] == [m] && b + [m] == [m] && [m][1..] == [];
    } else {
      assert (b + [m])[1..] == b[1..] + [m];
      if a != [] && a[0] == b[0] {
        WithinAppend(a[1..], b[1..], m);
        assert (a + [m])[1..] == a[1..] + [m];
      } else {
        WithinAppend(a, b[1..], m);
        if a == [] && m == b[0] {
          EmptyWithin(b[1..] + [m]);
          assert ([] + [m])[1..] == [];
        }
      }
    }
  }

  lemma {:induction false} EmptyWithin(b: seq<MessageId>)
    ensures Within([], b)
    decreases b
  {
    if b != [] {
      EmptyWithin(b[1..]);
    }
  }

  /** Dropping one more element keeps the order. */
  lemma {:induction false} WithinDrop(a: seq<MessageId>, b: seq<MessageId>, i: nat)
    requires Within(a, b) && i < |a|
    ensures Within(a[..i] + a[i + 1..], b)
    decreases b
  {
    if a[0] == b[0] {
      if i == 0 {
        assert a[..0] + a[1..] == a[1..];
        WithinSkip(a[1..], b);
      } else {
        WithinDrop(a[1..], b[1..], i - 1);
        assert (a[..i] + a[i + 1..])[1..] == a[1..][..i - 1] + a[1..][i..];
      }
    } else {
      WithinDrop(a, b[1..], i);
      WithinSkip(a[..i] + a[i + 1..], b);
    }
  }

  lemma {:induction false} WithinSkip(a: seq<MessageId>, b: seq<MessageId>)
    requires b != [] && Within(a, b[1..])
    ensures Within(a, b)
    decreases b, 0
  {
    if a != [] && a[0] == b[0] {
      WithinTail(a, b[1..]);
    }
  }

  lemma {:induction false} WithinTail(a: seq<MessageId>, b: seq<MessageId>)
    requires a != [] && Within(a, b)
    ensures Within(a[1..], b)
    decreases b, 1
  {
    if b != [] {
      if a[0] == b[0] {
        WithinSkip(a[1..], b);
      } else {
        WithinTail(a, b[1..]);
        WithinSkip(a[1..], b);
      }
    }
  }

  lemma WithinAccept(taken: seq<MessageId>, queue: seq<MessageId>, received: seq<MessageId>, m: MessageId)
    requires Within(taken + queue, received)
    ensures Within(taken + queue, received + [m])
    ensures Within(taken + (queue + [m]), received + [m])
    ensures queue != [] ==> Within(taken + (queue[1..] + [m]), received + [m])
  {
    hide Within;
    var all := taken + (queue + [m]);
    WithinAppend(taken + queue, received, m);
    assert taken + queue + [m] == all;
    if queue != [] {
      WithinDrop(all, received + [m], |taken|);
      assert all[..|taken|] + all[|taken| + 1..] == taken + (queue[1..] + [m]);
    }
  }

  lemma SuffixAccept(queue: seq<MessageId>, received: seq<MessageId>, m: MessageId)
    requires Suffix(queue, received)
    ensures Suffix(queue + [m], received + [m])
    ensures queue != [] ==> Suffix(queue[1..] + [m], received + [m])
  {
    var n, r := |received| - |queue|, received + [m];
    assert r[n..] == received[n..] + [m];
    if queue != [] {
      assert r[n + 1..] == r[n..][1..];
    }
  }

  lemma AcceptKeeps(c: SubConfig, s: Sub, m: MessageId, inFlight: nat)
    requires c.queueCapacity > 0 && Books(c, s, inFlight)
    ensures Books(c, AcceptOf(c, s, m).0, inFlight)
  {
    hide Within, Suffix;
    if !s.closed {
      WithinAccept(s.taken, s.queue, s.received, m);
      if c.policy.DropOldest? {
        SuffixAccept(s.queue, s.received, m);
      }
    }
  }

  /** What Accept does, in numbers: with room the message is queued last; without, DropOldest gives up the first queued one
      for it, DropNewest gives up the message itself, and a service turns it away uncounted. A Notify is due exactly when a
      message was queued in a mailbox that was not scheduled. */
  lemma AcceptInNumbers(c: SubConfig, s: Sub, m: MessageId)
    requires c.queueCapacity > 0
    ensures var (t, notify) := AcceptOf(c, s, m);
            var room := |s.queue| < c.queueCapacity;
            var queued := !s.closed && (room || c.policy.DropOldest?);
            && t.queue == (if !queued then s.queue else if room then s.queue + [m] else s.queue[1..] + [m])
            && (notify <==> queued && !s.scheduled) && (t.scheduled <==> s.scheduled || queued)
            && t.receivedMessages == s.receivedMessages + (if s.closed || (!room && c.policy.Refuse?) then 0 else 1)
            && t.droppedMessages == s.droppedMessages + (if s.closed || room || c.policy.Refuse? then 0 else 1)
            && t.taken == s.taken && t.closed == s.closed && t.deliveredMessages == s.deliveredMessages
  {
  }

  lemma TakeKeeps(c: SubConfig, s: Sub, inFlight: nat)
    requires Books(c, s, inFlight)
    ensures Books(c, Take(s).0, inFlight + |Take(s).1|)
  {
    hide Within;
    if !s.closed && s.queue != [] {
      assert s.taken + [s.queue[0]] + s.queue[1..] == s.taken + s.queue;
    }
  }

  lemma {:induction false} WithinFront(a: seq<MessageId>, d: seq<MessageId>, b: seq<MessageId>)
    requires Within(a + d, b)
    ensures Within(a, b)
    decreases |d|
  {
    if d == [] {
      assert a + d == a;
    } else {
      WithinDrop(a + d, b, |a|);
      assert (a + d)[..|a|] + (a + d)[|a| + 1..] == a + d[1..];
      WithinFront(a, d[1..], b);
    }
  }

  lemma CloseKeeps(c: SubConfig, s: Sub, inFlight: nat)
    requires Books(c, s, inFlight)
    ensures Books(c, CloseOf(s), inFlight)
  {
    hide Within;
    WithinFront(s.taken, s.queue, s.received);
    assert s.taken + [] == s.taken;
  }

  lemma GiveUpKeeps(c: SubConfig, s: Sub, m: MessageId, inFlight: nat)
    requires Books(c, s, inFlight)
    ensures Books(c, GiveUp(c, s, m), inFlight)
  {
    hide Within;
    if c.policy.Refuse? {
      if m in s.queue {
        var i := ErasedAt(s.queue, m);
        var all := s.taken + s.queue;
        WithinDrop(all, s.received, |s.taken| + i);
        assert all[..|s.taken| + i] + all[|s.taken| + i + 1..] == s.taken + Service.Erase(s.queue, m);
      } else {
        Service.EraseBag(s.queue, m);
      }
    }
  }

  lemma {:induction false} ErasedAt(s: seq<nat>, x: nat) returns (i: nat)
    requires x in s
    ensures i < |s| && s[i] == x && Service.Erase(s, x) == s[..i] + s[i + 1..]
  {
    if s[0] == x {
      i := 0;
    } else {
      var j := ErasedAt(s[1..], x);
      i := j + 1;
      assert s[..i] == [s[0]] + s[1..][..j] && s[i + 1..] == s[1..][j + 1..];
    }
  }

  // ----- a refusing mailbox is a service -----

  predicate SameQueue(s: Sub, v: Service.State) {
    s.closed == v.closed && s.scheduled == v.scheduled && s.queue == v.queue
  }

  /** Region by region, a mailbox with the policy and the capacity of a service does to its queue and its flags what the
      service does, and asks for a Notify when the service does. */
  lemma MailboxIsService(s: Sub, v: Service.State, m: MessageId)
    requires SameQueue(s, v)
    ensures var (t, notify) := AcceptOf(SubConfig(Service.QUEUE_CAPACITY, Refuse), s, |v.answers|);
            var (w, r) := Service.InvokeOf(v);
            SameQueue(t, w) && (notify <==> r.Admitted? && r.notify)
    ensures SameQueue(Withdraw(s, m), Service.WithdrawOf(v, m))
    ensures SameQueue(Take(s).0, Service.TakeOf(v))
    ensures SameQueue(Check(s).0, Service.CheckOf(v)) && (Check(s).1 <==> !v.closed && v.queue != [])
    ensures SameQueue(CloseOf(s), Service.CloseOf(v))
  {
  }

  class Subscriber {
    const config: SubscriberConfig
    var closed: bool
    var scheduled: bool
    var queue: seq<MessageId>
    var receivedMessages: nat
    var droppedMessages: nat
    var deliveredMessages: nat
    var queueDepth: nat
    var highWatermark: nat
    ghost var received: seq<MessageId>
    ghost var taken: seq<MessageId>
    ghost var overflows: nat
    ghost var throws: nat
    ghost var withdrawn: nat

    ghost function Now(): Sub
      reads this
    {
      Sub(closed, scheduled, queue, receivedMessages, droppedMessages, deliveredMessages, queueDepth, highWatermark,
          received, taken, overflows, throws, withdrawn)
    }

    constructor (config: SubscriberConfig)
      ensures this.config == config && Now() == Fresh()
    {
      this.config := config;
      closed, scheduled, queue := false, false, [];
      receivedMessages, droppedMessages, deliveredMessages, queueDepth, highWatermark := 0, 0, 0, 0, 0;
      received, taken, overflows, throws, withdrawn := [], [], 0, 0, 0;
    }

    method Accept(m: MessageId) returns (notify: bool)
      modifies this
      ensures (Now(), notify) == AcceptOf(config, old(Now()), m)
    {
      notify := false;
      if closed {
        return;
      }
      receivedMessages := receivedMessages + 1;
      received := received + [m];
      if |queue| >= config.queueCapacity {
        droppedMessages := droppedMessages + 1;
        overflows := overflows + 1;
        if config.policy == DropNewest {
          return;
        }
        if queue != [] {
          queue := queue[1..];
        }
      }
      queue := queue + [m];
      queueDepth := |queue|;
      highWatermark := Max(highWatermark, |queue|);
      if !scheduled {
        scheduled := true;
        notify := true;
      }
    }

    method NotifyRefused()
      modifies this
      ensures Now() == Unschedule(old(Now()))
    {
      scheduled := false;
    }

    method TakeOne() returns (message: seq<MessageId>)
      modifies this
      ensures (Now(), message) == Take(old(Now()))
    {
      if closed || queue == [] {
        scheduled := false;
        return [];
      }
      message := [queue[0]];
      taken := taken + message;
      queue := queue[1..];
      queueDepth := |queue|;
    }

    method AfterCallback(threw: bool)
      modifies this
      ensures Now() == if threw then CallbackThrew(old(Now())) else old(Now())
    {
      if threw {
        droppedMessages := droppedMessages + 1;
        throws := throws + 1;
      }
    }

    method Delivered()
      modifies this
      ensures Now() == CountDelivered(old(Now()))
    {
      deliveredMessages := deliveredMessages + 1;
    }

    method CheckAgain() returns (notify: bool)
      modifies this
      ensures (Now(), notify) == Check(old(Now()))
    {
      if closed || queue == [] {
        scheduled := false;
        return false;
      }
      return true;
    }

    method Close()
      modifies this
      ensures Now() == CloseOf(old(Now()))
    {
      if closed {
        return;
      }
      closed := true;
      queue := [];
      queueDepth := 0;
      scheduled := false;
    }
  }
}
