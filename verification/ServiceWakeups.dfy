/** The service together with its activations: a Notify that succeeds leaves one with the executor, and ProcessOne runs only
    by using one up. Whether a Notify succeeds is part of the run. */
module ServiceWakeups {
  import opened Service

  datatype World = World(service: State, activations: nat)

  /** One action of the service; rearmed says whether the Notify at the end of ProcessOne, if there is one, succeeds. */
  datatype Move = Move(action: Action, rearmed: bool)

  function Fresh(): World {
    World(Init(), 0)
  }

  predicate Rearms(s: State, a: Action) {
    a.CheckAgain? && !s.closed && s.queue != []
  }

  predicate Able(w: World, m: Move) {
    Enabled(w.service, m.action) && (m.action.TakeCall? ==> w.activations > 0)
  }

  function Next(w: World, m: Move): World
    requires Able(w, m)
  {
    World(Apply(w.service, m.action),
          match m.action
          case NotifyDone(_) => w.activations + 1
          case TakeCall => w.activations - 1
          case CheckAgain => if Rearms(w.service, m.action) && m.rearmed then w.activations + 1 else w.activations
          case _ => w.activations)
  }

  predicate Possible(w: World, run: seq<Move>)
    decreases |run|
  {
    run == [] || (Able(w, run[0]) && Possible(Next(w, run[0]), run[1..]))
  }

  function Final(w: World, run: seq<Move>): World
    requires Possible(w, run)
    decreases |run|
  {
    if run == [] then w else Final(Next(w, run[0]), run[1..])
  }

  /** Everything that will still look at the queue: activations, callers inside Notify and threads inside ProcessOne. */
  function Tokens(w: World): nat {
    w.activations + |w.service.notifying| + |w.service.handling| + w.service.checking
  }

  /** While the service is open, it is scheduled exactly if there is one token, and there is never a second; and with calls
      queued it is scheduled. */
  predicate Awake(w: World) {
    !w.service.closed ==>
      && Tokens(w) == (if w.service.scheduled then 1 else 0)
      && (w.service.queue != [] ==> w.service.scheduled)
  }

  /** Calls are queued in an open service that takes itself for scheduled, and nothing will ever look at them. */
  predicate Stranded(w: World) {
    !w.service.closed && w.service.scheduled && w.service.queue != [] && Tokens(w) == 0
  }

  // ----- at most one at a time, whatever happens -----

  /** There is never a second token, and none while the service is open and not scheduled. */
  predicate Single(w: World) {
    Tokens(w) <= 1 && (!w.service.closed && !w.service.scheduled ==> Tokens(w) == 0)
  }

  lemma MoveKeepsSingle(w: World, m: Move)
    requires Single(w) && Able(w, m)
    ensures Single(Next(w, m))
  {
  }

  lemma {:induction false} RunKeepsSingle(w: World, run: seq<Move>)
    requires Single(w) && Possible(w, run)
    ensures Single(Final(w, run))
    decreases |run|
  {
    hide Able, Next, Single;
    if run != [] {
      MoveKeepsSingle(w, run[0]);
      RunKeepsSingle(Next(w, run[0]), run[1..]);
    }
  }

  /** At every moment of every run, whichever Notify calls succeed, at most one thread is inside ProcessOne: the handler
      never overlaps itself. */
  lemma HandlerNeverOverlaps(run: seq<Move>)
    requires Possible(Fresh(), run)
    ensures var s := Final(Fresh(), run).service; |s.handling| + s.checking <= 1
  {
    hide Possible, Final;
    RunKeepsSingle(Fresh(), run);
  }

  // ----- exactly which moves strand the service -----

  /** The moves that break the promise: while the service is open, a refused Notify of a caller whose withdrawal leaves
      other calls queued, and a refused Notify at the end of ProcessOne. */
  predicate Breaks(w: World, m: Move)
    requires Able(w, m)
  {
    var s := w.service;
    !s.closed && match m.action
                 case NotifyFailed(caller) => Erase(s.queue, s.notifying[caller]) != []
                 case CheckAgain => s.queue != [] && !m.rearmed
                 case _ => false
  }

  lemma MoveStrandsIff(w: World, m: Move)
    requires Awake(w) && Able(w, m)
    ensures Stranded(Next(w, m)) <==> Breaks(w, m)
    ensures Awake(Next(w, m)) <==> !Breaks(w, m)
  {
  }

  /** Some moment of the run, its end included, finds the service stranded. */
  predicate EverStranded(w: World, run: seq<Move>)
    requires Possible(w, run)
    decreases |run|
  {
    Stranded(w) || (run != [] && EverStranded(Next(w, run[0]), run[1..]))
  }

  predicate AlwaysAwake(w: World, run: seq<Move>)
    requires Possible(w, run)
    decreases |run|
  {
    Awake(w) && (run != [] ==> AlwaysAwake(Next(w, run[0]), run[1..]))
  }

  predicate EverBreaks(w: World, run: seq<Move>)
    requires Possible(w, run)
    decreases |run|
  {
    run != [] && (Breaks(w, run[0]) || EverBreaks(Next(w, run[0]), run[1..]))
  }

  /** The exact condition, over whole runs: a run strands its queued calls at some moment if and only if one of its moves
      is a breaking one; and otherwise at every moment an open service with calls queued has exactly one token. */
  lemma {:induction false} StrandedIffBroken(w: World, run: seq<Move>)
    requires Awake(w) && Possible(w, run)
    ensures EverStranded(w, run) <==> EverBreaks(w, run)
    ensures AlwaysAwake(w, run) <==> !EverBreaks(w, run)
    decreases |run|
  {
    hide Able, Next, Awake, Breaks, Stranded;
    AwakeIsNotStranded(w);
    if run != [] {
      var v := Next(w, run[0]);
      MoveStrandsIff(w, run[0]);
      if Awake(v) {
        StrandedIffBroken(v, run[1..]);
      } else {
        StartsStranded(v, run[1..]);
      }
    }
  }

  lemma AwakeIsNotStranded(w: World)
    ensures Awake(w) ==> !Stranded(w)
  {
  }

  lemma StartsStranded(w: World, run: seq<Move>)
    requires Possible(w, run)
    ensures Stranded(w) ==> EverStranded(w, run)
    ensures !Awake(w) ==> !AlwaysAwake(w, run)
  {
  }

  lemma StrandedMove(w: World, m: Move)
    requires Inv(w.service) && Stranded(w) && Able(w, m) && !m.action.Close?
    ensures var v := Next(w, m);
            Stranded(v) && w.service.queue <= v.service.queue && v.service.handling == []
            && w.service.answers <= v.service.answers
  {
  }

  /** And stranded it stays: until Close no later call wakes it, and none of the queued calls is ever answered. */
  lemma {:induction false} StrandedForEver(w: World, run: seq<Move>)
    requires Inv(w.service) && Stranded(w) && Possible(w, run) && forall i :: 0 <= i < |run| ==> !run[i].action.Close?
    ensures var v := Final(w, run);
            Stranded(v) && w.service.queue <= v.service.queue && w.service.answers <= v.service.answers
    decreases |run|
  {
    hide Inv, Apply, Enabled, Stranded;
    if run != [] {
      StrandedMove(w, run[0]);
      StepKeeps(w.service, run[0].action);
      StrandedForEver(Next(w, run[0]), run[1..]);
    }
  }

  /** Both kinds happen. It takes three steps when two calls arrive and the Notify of the first is refused. */
  lemma CallsGetStranded() returns (run: seq<Move>)
    ensures Possible(Fresh(), run) && Stranded(Final(Fresh(), run))
    ensures Final(Fresh(), run).service.queue == [1]
  {
    var call, refused := Move(Invoke, false), Move(NotifyFailed(0), false);
    var w1 := Next(Fresh(), call);
    var w2 := Next(w1, call);
    assert w2.service.queue == [0, 1] && w2.service.notifying == [0];
    assert Erase([0, 1], 0) == [1];
    var w3 := Next(w2, refused);
    assert w3.service.notifying == [];
    Front(w2, refused, []);
    Front(w1, call, [refused] + []);
    Front(Fresh(), call, [call] + ([refused] + []));
    run := [call] + ([call] + ([refused] + []));
  }

  /** And six when the first call is served and the Notify that should keep the second going is refused. */
  lemma RearmGetsLost() returns (run: seq<Move>)
    ensures Possible(Fresh(), run) && Stranded(Final(Fresh(), run))
    ensures forall i :: 0 <= i < |run| ==> !run[i].action.NotifyFailed?
  {
    var call, done := Move(Invoke, false), Move(NotifyDone(0), false);
    var w1 := Next(Fresh(), call);
    var w2 := Next(w1, call);
    assert w2.service.queue == [0, 1] && w2.service.notifying == [0] && w2.service.answers == [[], []];
    var w3 := Next(w2, done);
    assert w3.service.notifying == [] && w3.activations == 1;
    var tail := ServeOne(w3);
    Front(w2, done, tail);
    Front(w1, call, [done] + tail);
    Front(Fresh(), call, [call] + ([done] + tail));
    run := [call] + ([call] + ([done] + tail));
  }

  lemma ServeOne(w: World) returns (run: seq<Move>)
    requires w.service.queue == [0, 1] && w.service.answers == [[], []] && w.activations == 1
    requires !w.service.closed && w.service.scheduled
    requires w.service.notifying == [] && w.service.handling == [] && w.service.checking == 0
    ensures Possible(w, run) && Stranded(Final(w, run))
    ensures forall i :: 0 <= i < |run| ==> !run[i].action.NotifyFailed?
  {
    var take, fulfil, check := Move(TakeCall, false), Move(Fulfil(0), false), Move(CheckAgain, false);
    var w1 := Next(w, take);
    assert w1.service.queue == [1] && w1.service.handling == [0];
    var w2 := Next(w1, fulfil);
    assert w2.service.handling == [] && w2.service.checking == 1;
    var w3 := Next(w2, check);
    assert w3.activations == 0 && w3.service.checking == 0;
    Front(w2, check, []);
    Front(w1, fulfil, [check] + []);
    Front(w, take, [fulfil] + ([check] + []));
    run := [take] + ([fulfil] + ([check] + []));
  }

  lemma Front(w: World, m: Move, rest: seq<Move>)
    requires Able(w, m) && Possible(Next(w, m), rest)
    ensures Possible(w, [m] + rest) && Final(w, [m] + rest) == Final(Next(w, m), rest)
  {
    hide Able, Next;
    assert ([m] + rest)[1..] == rest;
  }
}
