/** What becomes of the calls of a service, told from the actions of a run: which are admitted, in which order they are
    served, what each is answered and which are taken back. */
module ServiceOutcomes {
  import opened Service

  /** Calls are numbered as they are admitted, so a rising queue is in the order of admission. */
  predicate Rising(q: seq<nat>) {
    forall i, j :: 0 <= i < j < |q| ==> q[i] < q[j]
  }

  /** Only calls that Close found queued are drained or answered Closed. */
  predicate OnlyClosing(s: State) {
    && (forall i :: 0 <= i < |s.draining| ==> s.draining[i] in s.closing)
    && (forall call :: 0 <= call < |s.answers| && ClosedAnswer in s.answers[call] ==> call in s.closing)
  }

  lemma {:induction false} EraseRises(s: seq<nat>, x: nat, low: int)
    requires Rising(s) && (s != [] ==> low < s[0])
    ensures Rising(Erase(s, x)) && (Erase(s, x) != [] ==> low < Erase(s, x)[0])
    decreases s
  {
    if s != [] && s[0] != x {
      RisingTail(s);
      EraseRises(s[1..], x, s[0]);
      RisingFront(s[0], Erase(s[1..], x));
    } else if s != [] {
      RisingTail(s);
    }
  }

  lemma RisingTail(s: seq<nat>)
    requires Rising(s) && s != []
    ensures Rising(s[1..]) && (|s| > 1 ==> s[0] < s[1..][0])
  {
  }

  lemma RisingFront(n: nat, s: seq<nat>)
    requires Rising(s) && (s != [] ==> n < s[0])
    ensures Rising([n] + s)
  {
  }

  lemma StepRises(s: State, a: Action)
    requires Inv(s) && Enabled(s, a) && Rising(s.queue)
    ensures Rising(Apply(s, a).queue)
  {
    hide Owners;
    if a.NotifyFailed? {
      EraseRises(s.queue, s.notifying[a.caller], -1);
    }
  }

  lemma StepCloses(s: State, a: Action)
    requires Inv(s) && Enabled(s, a) && OnlyClosing(s)
    ensures OnlyClosing(Apply(s, a))
    ensures Apply(s, a).closed <==> s.closed || a.Close?
  {
    hide Owners, Erase;
  }

  lemma {:induction false} RunCloses(s: State, run: seq<Action>)
    requires Inv(s) && Legal(s, run) && Rising(s.queue) && OnlyClosing(s)
    ensures var t := After(s, run);
            Inv(t) && Rising(t.queue) && OnlyClosing(t) && (t.closed <==> s.closed || Close in run)
    decreases |run|
  {
    hide Inv, Apply, Enabled, OnlyClosing, Rising;
    if run != [] {
      StepKeeps(s, run[0]);
      StepRises(s, run[0]);
      StepCloses(s, run[0]);
      RunCloses(Apply(s, run[0]), run[1..]);
      assert run == [run[0]] + run[1..];
    }
  }

  lemma Reached(run: seq<Action>)
    requires Legal(Init(), run)
    ensures var t := After(Init(), run);
            Inv(t) && Rising(t.queue) && OnlyClosing(t) && (t.closed <==> Close in run)
  {
    hide Legal, After;
    RunCloses(Init(), run);
  }

  /** Invoke at any moment of any run, in numbers: refused once the run has closed the service, refused while 64 calls wait,
      and otherwise admitted as the next call, at the back of the queue, with a Notify due exactly if none was under way.
      A refusal changes nothing. */
  lemma AdmittedIffRoom(run: seq<Action>)
    requires Legal(Init(), run)
    ensures var s := After(Init(), run);
            var (t, r) := InvokeOf(s);
            && (r.RefusedClosed? <==> Close in run)
            && (r.QueueFull? <==> Close !in run && |s.queue| == 64)
            && (r.Admitted? <==> Close !in run && |s.queue| < 64)
            && (!r.Admitted? ==> t == s)
            && (r.Admitted? ==> r.call == |s.answers| && t.queue == s.queue + [r.call] && t.answers == s.answers + [[]])
            && (r.Admitted? ==> (r.notify <==> !s.scheduled) && t.scheduled)
  {
    hide Legal, After;
    Reached(run);
  }

  /** ProcessOne takes the call that was admitted first of those still waiting, and no other. */
  lemma OldestIsTaken(run: seq<Action>)
    requires Legal(Init(), run)
    ensures var s := After(Init(), run);
            var t := Apply(s, TakeCall);
            if s.queue == [] then t.queue == [] && t.handling == s.handling
            else && |t.handling| == |s.handling| + 1 && t.handling[..|s.handling|] == s.handling
                 && var call := t.handling[|s.handling|];
                    && call in s.queue
                    && forall other :: other in s.queue && other != call ==> call < other && other in t.queue
  {
    hide Legal, After;
    Reached(run);
    var s := After(Init(), run);
    if s.queue != [] {
      assert s.queue == [s.queue[0]] + s.queue[1..];
    }
  }

  // ----- what each call is answered -----

  /** The answer that one action gives to call: Handled by the thread that handles it, Closed by the drain of Close. */
  function Given(s: State, a: Action, call: nat): seq<Answer>
    requires Enabled(s, a)
  {
    match a
    case Fulfil(i) => if s.handling[i] == call then [Handled] else []
    case DrainOne => if s.draining[0] == call then [ClosedAnswer] else []
    case _ => []
  }

  /** The failed Notify that takes call out of the queue. */
  predicate TakesBack(s: State, a: Action, call: nat)
    requires Enabled(s, a)
  {
    a.NotifyFailed? && s.notifying[a.caller] == call && call in s.queue
  }

  function AllGiven(s: State, run: seq<Action>, call: nat): seq<Answer>
    requires Legal(s, run)
    decreases |run|
  {
    if run == [] then [] else Given(s, run[0], call) + AllGiven(Apply(s, run[0]), run[1..], call)
  }

  predicate TakenBack(s: State, run: seq<Action>, call: nat)
    requires Legal(s, run)
    decreases |run|
  {
    run != [] && (TakesBack(s, run[0], call) || TakenBack(Apply(s, run[0]), run[1..], call))
  }

  function AnswersTo(s: State, call: nat): seq<Answer> {
    if call < |s.answers| then s.answers[call] else []
  }

  lemma StepAnswers(s: State, a: Action, call: nat)
    requires Enabled(s, a)
    ensures AnswersTo(Apply(s, a), call) == AnswersTo(s, call) + Given(s, a, call)
    ensures call in Apply(s, a).withdrawn <==> call in s.withdrawn || TakesBack(s, a, call)
  {
    hide Erase;
  }

  lemma {:induction false} RunAnswers(s: State, run: seq<Action>, call: nat)
    requires Legal(s, run)
    ensures AnswersTo(After(s, run), call) == AnswersTo(s, call) + AllGiven(s, run, call)
    ensures call in After(s, run).withdrawn <==> call in s.withdrawn || TakenBack(s, run, call)
    decreases |run|
  {
    hide Apply, Enabled, AnswersTo, Given, TakesBack;
    if run != [] {
      StepAnswers(s, run[0], call);
      RunAnswers(Apply(s, run[0]), run[1..], call);
    }
  }

  /** The fate of every admitted call at every moment of every run. Its promise holds what the run gave it, at most once;
      it is Closed exactly if Close found it queued and has drained it; it was taken back exactly if its own caller's
      Notify failed while it was queued; and once nothing is queued, handled or drained, it was either answered or taken
      back, and never both. */
  lemma CallsAreSettled(run: seq<Action>, call: nat)
    requires Legal(Init(), run) && call < |After(Init(), run).answers|
    ensures var s := After(Init(), run);
            && s.answers[call] == AllGiven(Init(), run, call) && |s.answers[call]| <= 1
            && (s.answers[call] == [ClosedAnswer] <==> call in s.closing && call !in s.draining)
            && (call in s.withdrawn <==> TakenBack(Init(), run, call))
            && (s.queue == [] && s.handling == [] && s.draining == [] ==>
                  (call in s.withdrawn <==> s.answers[call] == []))
  {
    hide Legal, After, AllGiven, TakenBack;
    RunAnswers(Init(), run, call);
    Reached(run);
    EveryCallHasOneOwner(run, call);
    var s := After(Init(), run);
    if call in s.closing {
      var k :| 0 <= k < |s.closing| && s.closing[k] == call;
      assert s.closing[k] in s.draining || s.answers[s.closing[k]] == [ClosedAnswer];
    }
  }
}
