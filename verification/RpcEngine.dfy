/** Any number of DDS request/response engines on one network. The network keeps every sample ever written and hands any of
    them to any reader of its topic any number of times, in any order, or never; topics are an arbitrary hash of the
    service name, so that different services may share one. */
module RpcEngine {
  import opened Bytes
  import opened TraceFormat
  import opened RpcChannel
  import opened RpcWire
  import opened RpcClient

  /** One dispatch of a request by a service endpoint, and what came of it. */
  datatype Execution = Execution(
    service: string, guid: nat, id: nat, request: Message, maxPayload: nat, outcome: Result)

  /** A response on the network; origin is history, not part of the sample. */
  datatype Sent = Sent(sample: ResponseSample, origin: Execution)

  /** executions and origins are history: every dispatch, and the dispatch that completed a given request of a given
      engine. */
  datatype World = World(
    clients: map<nat, Client>, requests: set<RequestSample>, responses: set<Sent>, executions: set<Execution>,
    origins: map<(nat, nat), Execution>)

  datatype Action =
    | Join(guid: nat, maxPayload: nat)
    | Own(guid: nat, step: Step)
    | Send(guid: nat, id: nat, budget: nat)
    | Dispatch(request: RequestSample, service: string, maxPayload: nat, outcome: Result)
    | Receive(guid: nat, service: string, response: Sent)

  function Empty(): World {
    World(map[], {}, {}, {}, map[])
  }

  predicate Enabled(topic: string -> nat, w: World, a: Action) {
    match a
    case Join(guid, _) => guid !in w.clients
    case Own(guid, step) => guid in w.clients && !step.Write? && !step.Deliver? && RpcClient.Enabled(w.clients[guid], step)
    case Send(guid, id, budget) => guid in w.clients && budget != 0 && RpcClient.Enabled(w.clients[guid], Write(id))
    case Dispatch(request, service, maxPayload, outcome) =>
      && request in w.requests && ValidServiceName(service) && ValidOutcome(outcome)
      && Accepts(service, maxPayload, request)
    case Receive(guid, service, response) =>
      && guid in w.clients && service in w.clients[guid].channels
      && response in w.responses && topic(response.origin.service) == topic(service)
  }

  function Run(e: Execution): Sent {
    Sent(BuildResponse(e.service, e.guid, e.id, e.maxPayload, e.outcome), e)
  }

  function Apply(topic: string -> nat, w: World, a: Action): World
    requires Enabled(topic, w, a)
  {
    match a
    case Join(guid, maxPayload) => w.(clients := w.clients[guid := NewClient(maxPayload)])
    case Own(guid, step) => w.(clients := w.clients[guid := RpcClient.Apply(w.clients[guid], step)])
    case Send(guid, id, budget) =>
      var call := w.clients[guid].calls[id];
      w.(clients := w.clients[guid := RpcClient.Apply(w.clients[guid], Write(id))],
         requests := w.requests + {BuildRequest(call.service, guid, id, budget, call.request)})
    case Dispatch(request, service, maxPayload, outcome) =>
      var e := Execution(service, request.guid, request.id, request.message, maxPayload, outcome);
      w.(executions := w.executions + {e}, responses := w.responses + {Run(e)})
    case Receive(guid, service, response) =>
      var c := w.clients[guid];
      var id := response.sample.id;
      match ReadResponse(service, guid, c.maxPayload, response.sample)
      case None => w
      case Some(r) =>
        w.(clients := w.clients[guid := RpcClient.Apply(c, Deliver(service, id, r))],
           origins := if id in c.channels[service].pending then w.origins[(guid, id) := response.origin] else w.origins)
  }

  predicate Legal(topic: string -> nat, w: World, run: seq<Action>)
    decreases |run|
  {
    run == [] || (Enabled(topic, w, run[0]) && Legal(topic, Apply(topic, w, run[0]), run[1..]))
  }

  function After(topic: string -> nat, w: World, run: seq<Action>): World
    requires Legal(topic, w, run)
    decreases |run|
  {
    if run == [] then w else After(topic, Apply(topic, w, run[0]), run[1..])
  }

  /** The call that an identity names made this request of this service. */
  predicate Asked(w: World, guid: nat, id: nat, service: string, request: Message) {
    && guid in w.clients && id in w.clients[guid].calls
    && w.clients[guid].calls[id].service == service && w.clients[guid].calls[id].request == request
  }

  predicate RequestOk(w: World, s: RequestSample) {
    && s.guid in w.clients && s.id in w.clients[s.guid].calls
    && var call := w.clients[s.guid].calls[s.id];
       ValidServiceName(call.service) && s == BuildRequest(call.service, s.guid, s.id, s.budget, call.request)
  }

  predicate ExecutionOk(w: World, e: Execution) {
    ValidServiceName(e.service) && ValidOutcome(e.outcome) && e.id != 0 && Asked(w, e.guid, e.id, e.service, e.request)
  }

  predicate ResponseOk(w: World, p: Sent) {
    p.origin in w.executions && p == Run(p.origin)
  }

  predicate Swept(w: World, guid: nat, service: string) {
    guid in w.clients && service in w.clients[guid].channels && w.clients[guid].channels[service].swept
  }

  /** Where a result in a channel's table came from. */
  predicate Explained(w: World, guid: nat, service: string, id: nat, r: Result) {
    || (r == ChannelClosed() && Swept(w, guid, service))
    || ((guid, id) in w.origins
        && var e := w.origins[(guid, id)];
           e in w.executions && e.guid == guid && e.id == id && e.service == service
           && r == Reported(e.outcome, e.maxPayload))
  }

  ghost predicate Inv(w: World) {
    && (forall g :: g in w.clients ==> Local(w.clients[g]))
    && (forall s :: s in w.requests ==> RequestOk(w, s))
    && (forall e :: e in w.executions ==> ExecutionOk(w, e))
    && (forall p :: p in w.responses ==> ResponseOk(w, p))
    && (forall g, s, id :: g in w.clients && s in w.clients[g].channels && id in w.clients[g].channels[s].results ==>
          Explained(w, g, s, id, w.clients[g].channels[s].results[id]))
  }

  /** What no step of the world takes back. */
  ghost predicate Grown(w: World, v: World) {
    && (forall g :: g in w.clients ==> g in v.clients && Extends(w.clients[g], v.clients[g]))
    && w.executions <= v.executions
  }

  lemma ExtendsSelf(c: Client)
    ensures Extends(c, c)
  {
  }

  lemma ExtendsChain(b: Client, c: Client, d: Client)
    requires Extends(b, c) && Extends(c, d)
    ensures Extends(b, d)
  {
    forall s | s in b.channels
      ensures s in d.channels && Grows(b.channels[s], d.channels[s])
    {
      assert Grows(b.channels[s], c.channels[s]) && Grows(c.channels[s], d.channels[s]);
    }
  }

  /** The facts about the network outlive any change of one client that takes nothing back. */
  lemma NetworkStays(w: World, v: World)
    requires Grown(w, v) && w.executions == v.executions
    ensures forall s :: RequestOk(w, s) ==> RequestOk(v, s)
    ensures forall e :: ExecutionOk(w, e) ==> ExecutionOk(v, e)
    ensures forall p :: ResponseOk(w, p) ==> ResponseOk(v, p)
  {
    hide BuildRequest, BuildResponse, ValidServiceName, ValidOutcome, Grows;
  }

  lemma Replaced(w: World, g: nat, d: Client)
    requires Inv(w) && (g in w.clients ==> Extends(w.clients[g], d))
    ensures Grown(w, w.(clients := w.clients[g := d]))
  {
    hide Extends, Local, RequestOk, ExecutionOk, ResponseOk, Explained;
    forall k | k in w.clients
      ensures Extends(w.clients[k], w.clients[g := d][k])
    {
      ExtendsSelf(w.clients[k]);
    }
  }

  /** A step of one client that puts nothing but the closing result in its tables. */
  lemma OwnKeeps(w: World, g: nat, d: Client)
    requires Inv(w) && Local(d) && (g in w.clients ==> Extends(w.clients[g], d))
    requires forall s, id :: s in d.channels && id in d.channels[s].results ==>
               || (d.channels[s].results[id] == ChannelClosed() && d.channels[s].swept)
               || (g in w.clients && s in w.clients[g].channels && id in w.clients[g].channels[s].results
                   && w.clients[g].channels[s].results[id] == d.channels[s].results[id])
    ensures Inv(w.(clients := w.clients[g := d]))
  {
    hide Local, RequestOk, ExecutionOk, ResponseOk, Extends;
    var v := w.(clients := w.clients[g := d]);
    Replaced(w, g, d);
    NetworkStays(w, v);
    SweptStays(w, v);
  }

  lemma SweptStays(w: World, v: World)
    requires Grown(w, v)
    ensures forall g, s :: Swept(w, g, s) ==> Swept(v, g, s)
  {
    hide Extends;
    forall g, s | Swept(w, g, s)
      ensures Swept(v, g, s)
    {
      SweptForGood(w.clients[g], v.clients[g], s);
    }
  }

  lemma OnlyClosings(c: Client, a: Step)
    requires Local(c) && RpcClient.Enabled(c, a) && !a.Deliver?
    ensures var d := RpcClient.Apply(c, a);
            forall s, id :: s in d.channels && id in d.channels[s].results ==>
              || (d.channels[s].results[id] == ChannelClosed() && d.channels[s].swept)
              || (s in c.channels && id in c.channels[s].results && c.channels[s].results[id] == d.channels[s].results[id])
  {
    hide Local, ValidServiceName, ValidMessage, Refusal, Reason;
  }

  lemma SendKeeps(topic: string -> nat, w: World, g: nat, id: nat, budget: nat)
    requires Inv(w) && Enabled(topic, w, Send(g, id, budget))
    ensures Inv(Apply(topic, w, Send(g, id, budget)))
  {
    hide Local, RequestOk, ExecutionOk, ResponseOk, Explained, Extends, BuildRequest, ValidServiceName;
    var c := w.clients[g];
    var d := RpcClient.Apply(c, Write(id));
    StepKeepsLocal(c, Write(id));
    StepExtends(c, Write(id));
    OnlyClosings(c, Write(id));
    OwnKeeps(w, g, d);
    var u := w.(clients := w.clients[g := d]);
    var v := Apply(topic, w, Send(g, id, budget));
    assert d.calls[id].service == c.calls[id].service && d.calls[id].request == c.calls[id].request;
    SameClients(u, v);
    BuiltIsOk(v, g, id, budget);
  }

  lemma BuiltIsOk(w: World, g: nat, id: nat, budget: nat)
    requires g in w.clients && Local(w.clients[g]) && id in w.clients[g].calls
    ensures var call := w.clients[g].calls[id];
            RequestOk(w, BuildRequest(call.service, g, id, budget, call.request))
  {
  }

  /** Only the clients and the executions matter to the facts about the network, and the origins to those about results. */
  lemma SameClients(u: World, v: World)
    requires u.clients == v.clients && u.executions == v.executions && u.origins == v.origins
    ensures forall s :: RequestOk(u, s) <==> RequestOk(v, s)
    ensures forall e :: ExecutionOk(u, e) <==> ExecutionOk(v, e)
    ensures forall p :: ResponseOk(u, p) <==> ResponseOk(v, p)
    ensures forall g, s, id, r :: Explained(u, g, s, id, r) <==> Explained(v, g, s, id, r)
  {
  }

  /** A dispatched request is one that the identity in it really made. */
  lemma DispatchIsAsked(w: World, s: RequestSample, service: string, maxPayload: nat, outcome: Result)
    requires RequestOk(w, s) && Accepts(service, maxPayload, s) && ValidServiceName(service) && ValidOutcome(outcome)
    ensures ExecutionOk(w, Execution(service, s.guid, s.id, s.message, maxPayload, outcome))
  {
    hide Accepts, ValidServiceName, ValidOutcome;
    var call := w.clients[s.guid].calls[s.id];
    AcceptsRequest(call.service, s.guid, s.id, s.budget, call.request, service, maxPayload);
  }

  lemma DispatchKeeps(topic: string -> nat, w: World, a: Action)
    requires Inv(w) && a.Dispatch? && Enabled(topic, w, a)
    ensures Inv(Apply(topic, w, a))
  {
    hide Local, Accepts, ValidServiceName, ValidOutcome, BuildResponse, BuildRequest, RequestOk, Reported;
    var v := Apply(topic, w, a);
    DispatchIsAsked(w, a.request, a.service, a.maxPayload, a.outcome);
    assert forall s :: RequestOk(w, s) ==> RequestOk(v, s) by { RequestsStay(w, v); }
  }

  lemma RequestsStay(w: World, v: World)
    requires v.clients == w.clients
    ensures forall s :: RequestOk(w, s) ==> RequestOk(v, s)
  {
  }

  /** A response read by a channel answers a request of that engine and that service. */
  lemma ReadIsOwn(w: World, g: nat, service: string, maxPayload: nat, p: Sent)
    requires ResponseOk(w, p) && ExecutionOk(w, p.origin)
    ensures var r := ReadResponse(service, g, maxPayload, p.sample);
            r.Some? ==>
              && p.origin.service == service && p.origin.guid == g && p.origin.id == p.sample.id
              && r.value == Reported(p.origin.outcome, p.origin.maxPayload)
  {
    hide ReadResponse, Reported, ValidServiceName, ValidOutcome;
    var e := p.origin;
    ReadOfResponse(e.service, e.guid, e.id, e.maxPayload, e.outcome, service, g, maxPayload);
  }

  lemma ReceiveKeeps(topic: string -> nat, w: World, g: nat, service: string, p: Sent, r: Result)
    requires Inv(w) && Enabled(topic, w, Receive(g, service, p))
    requires ReadResponse(service, g, w.clients[g].maxPayload, p.sample) == Some(r)
    ensures Inv(Apply(topic, w, Receive(g, service, p)))
  {
    hide Local, RequestOk, ExecutionOk, Extends, ReadResponse, Reported, ResponseOk;
    var c := w.clients[g];
    var id := p.sample.id;
    var d := RpcClient.Apply(c, Deliver(service, id, r));
    var v := Apply(topic, w, Receive(g, service, p));
    OriginRan(w, p);
    ReadIsOwn(w, g, service, c.maxPayload, p);
    StepKeepsLocal(c, Deliver(service, id, r));
    StepExtends(c, Deliver(service, id, r));
    Replaced(w, g, d);
    assert Grown(w, v);
    NetworkStays(w, v);
    SweptStays(w, v);
    forall k, s, i | k in v.clients && s in v.clients[k].channels && i in v.clients[k].channels[s].results
      ensures Explained(v, k, s, i, v.clients[k].channels[s].results[i])
    {
      if k != g || i != id || id !in c.channels[service].pending {
        assert Explained(w, k, s, i, v.clients[k].channels[s].results[i]);
      } else {
        OneHome(d, s, service, id);
      }
    }
  }

  lemma OriginRan(w: World, p: Sent)
    requires ResponseOk(w, p)
    ensures p.origin in w.executions
  {
  }

  lemma OneHome(c: Client, s: string, t: string, id: nat)
    requires Local(c) && s in c.channels && t in c.channels
    requires id in c.channels[s].results && id in c.channels[t].results
    ensures s == t
  {
    assert Belongs(c, id, s) && Belongs(c, id, t);
  }

  lemma JoinKeeps(w: World, g: nat, maxPayload: nat)
    requires Inv(w) && g !in w.clients
    ensures Inv(w.(clients := w.clients[g := NewClient(maxPayload)]))
  {
    hide Inv, Local;
    NewIsLocal(maxPayload);
    OwnKeeps(w, g, NewClient(maxPayload));
  }

  lemma OwnStepKeeps(w: World, g: nat, a: Step)
    requires Inv(w) && g in w.clients && RpcClient.Enabled(w.clients[g], a) && !a.Deliver?
    ensures Inv(w.(clients := w.clients[g := RpcClient.Apply(w.clients[g], a)]))
  {
    hide Local, RequestOk, ExecutionOk, ResponseOk, Explained, RpcClient.Apply, RpcClient.Enabled, Extends;
    StepKeepsLocal(w.clients[g], a);
    StepExtends(w.clients[g], a);
    OnlyClosings(w.clients[g], a);
    OwnKeeps(w, g, RpcClient.Apply(w.clients[g], a));
  }

  lemma StepKeeps(topic: string -> nat, w: World, a: Action)
    requires Inv(w) && Enabled(topic, w, a)
    ensures Inv(Apply(topic, w, a))
  {
    hide Inv, ReadResponse, Accepts, RpcClient.Apply, RpcClient.Enabled, BuildRequest, Run;
    match a
    case Join(guid, maxPayload) => JoinKeeps(w, guid, maxPayload);
    case Own(guid, step) => OwnStepKeeps(w, guid, step);
    case Send(guid, id, budget) => SendKeeps(topic, w, guid, id, budget);
    case Dispatch(_, _, _, _) => DispatchKeeps(topic, w, a);
    case Receive(guid, service, p) =>
      match ReadResponse(service, guid, w.clients[guid].maxPayload, p.sample)
      case None =>
      case Some(r) => ReceiveKeeps(topic, w, guid, service, p, r);
  }

  lemma StepGrows(topic: string -> nat, w: World, a: Action)
    requires Inv(w) && Enabled(topic, w, a)
    ensures Grown(w, Apply(topic, w, a))
  {
    hide Inv, Extends, ReadResponse, Accepts, RpcClient.Apply, BuildRequest, Run;
    var v := Apply(topic, w, a);
    forall g | g in w.clients
      ensures g in v.clients && Extends(w.clients[g], v.clients[g])
    {
      ExtendsSelf(w.clients[g]);
      ClientIsLocal(w, g);
      match a
      case Own(guid, step) =>
        if g == guid {
          StepExtends(w.clients[g], step);
        }
      case Send(guid, id, _) =>
        if g == guid {
          StepExtends(w.clients[g], Write(id));
        }
      case Receive(guid, service, p) =>
        var r := ReadResponse(service, guid, w.clients[guid].maxPayload, p.sample);
        if g == guid && r.Some? {
          StepExtends(w.clients[g], Deliver(service, p.sample.id, r.value));
        }
      case _ =>
    }
  }

  lemma ClientIsLocal(w: World, g: nat)
    requires Inv(w) && g in w.clients
    ensures Local(w.clients[g])
  {
    hide Local, RequestOk, ExecutionOk, ResponseOk, Explained;
  }

  lemma {:induction false} RunKeeps(topic: string -> nat, w: World, run: seq<Action>)
    requires Inv(w) && Legal(topic, w, run)
    ensures Inv(After(topic, w, run)) && Grown(w, After(topic, w, run))
    decreases |run|
  {
    hide Inv, Extends, Enabled, Apply;
    if run == [] {
      forall g | g in w.clients
        ensures Extends(w.clients[g], w.clients[g])
      {
        ExtendsSelf(w.clients[g]);
      }
    } else {
      var v := Apply(topic, w, run[0]);
      StepKeeps(topic, w, run[0]);
      StepGrows(topic, w, run[0]);
      RunKeeps(topic, v, run[1..]);
      var u := After(topic, v, run[1..]);
      forall g | g in w.clients
        ensures g in u.clients && Extends(w.clients[g], u.clients[g])
      {
        ExtendsChain(w.clients[g], v.clients[g], u.clients[g]);
      }
    }
  }

  predicate Reachable(topic: string -> nat, run: seq<Action>) {
    Legal(topic, Empty(), run)
  }

  lemma EmptyHolds()
    ensures Inv(Empty())
  {
  }

  /** Whatever Request returns from its table is either status 4 from the closing of its own channel, which has then
      happened, or what one dispatch of this very request, by an endpoint of this very service, reported; whatever samples
      were lost, repeated, reordered or shared a topic. */
  lemma ResponsesAreCorrelated(topic: string -> nat, run: seq<Action>, g: nat, id: nat)
    requires Reachable(topic, run)
    ensures var w := After(topic, Empty(), run);
            g in w.clients && id in w.clients[g].calls && w.clients[g].calls[id].phase.Answered? ==>
              var call := w.clients[g].calls[id];
              || (call.phase.result.Failure? && call.phase.result.code == 4 && Swept(w, g, call.service))
              || exists e :: e in w.executions && e.guid == g && e.id == id && e.service == call.service
                             && e.request == call.request && Tells(e.outcome, e.maxPayload, call.phase.result)
  {
    hide Inv, Legal, After, Tells, Swept;
    EmptyHolds();
    RunKeeps(topic, Empty(), run);
    AnswerIsExplained(After(topic, Empty(), run), g, id);
  }

  lemma AnswerIsExplained(w: World, g: nat, id: nat)
    requires Inv(w)
    ensures g in w.clients && id in w.clients[g].calls && w.clients[g].calls[id].phase.Answered? ==>
              var call := w.clients[g].calls[id];
              || (call.phase.result.Failure? && call.phase.result.code == 4 && Swept(w, g, call.service))
              || exists e :: e in w.executions && e.guid == g && e.id == id && e.service == call.service
                             && e.request == call.request && Tells(e.outcome, e.maxPayload, call.phase.result)
  {
    hide Reported, Tells, Local, Swept;
    if g in w.clients && id in w.clients[g].calls && w.clients[g].calls[id].phase.Answered? {
      HomeOk(w.clients[g], id);
      var call := w.clients[g].calls[id];
      assert Explained(w, g, call.service, id, call.phase.result);
      if call.phase.result != ChannelClosed() || !Swept(w, g, call.service) {
        var e := w.origins[(g, id)];
        assert ExecutionOk(w, e);
        ReportedTells(e.outcome, e.maxPayload);
      }
    }
  }

  /** A message returned to a caller is the message a handler returned for that caller's request, unchanged. */
  lemma SuccessIsGenuine(topic: string -> nat, run: seq<Action>, g: nat, id: nat, m: Message)
    requires Reachable(topic, run)
    ensures var w := After(topic, Empty(), run);
            g in w.clients && id in w.clients[g].calls && w.clients[g].calls[id].phase == Answered(Success(m)) ==>
              var call := w.clients[g].calls[id];
              exists e :: e in w.executions && e.guid == g && e.id == id && e.service == call.service
                          && e.request == call.request && e.outcome == Success(m)
  {
    ResponsesAreCorrelated(topic, run, g, id);
  }

  // ----- why a call fails -----

  function FailedWith(w: World, g: nat, id: nat): Option<nat> {
    if g in w.clients then RpcClient.FailedWith(w.clients[g], id) else None
  }

  function FailCode(topic: string -> nat, w: World, a: Action, g: nat, id: nat): Option<nat>
    requires Enabled(topic, w, a)
  {
    if a.Own? && a.guid == g then RpcClient.FailCode(w.clients[g], a.step, id) else None
  }

  /** The code of the first step of the run that makes the call fail, if there is one. */
  function FirstFailure(topic: string -> nat, w: World, run: seq<Action>, g: nat, id: nat): Option<nat>
    requires Legal(topic, w, run)
    decreases |run|
  {
    if run == [] then None
    else if FailCode(topic, w, run[0], g, id).Some? then FailCode(topic, w, run[0], g, id)
    else FirstFailure(topic, Apply(topic, w, run[0]), run[1..], g, id)
  }

  lemma StepFailsOnly(topic: string -> nat, w: World, a: Action, g: nat, id: nat)
    requires Inv(w) && Enabled(topic, w, a) && FailedWith(w, g, id).None?
    ensures FailedWith(Apply(topic, w, a), g, id) == FailCode(topic, w, a, g, id)
  {
    hide Inv, RpcClient.Apply, RpcClient.FailedWith, ReadResponse, Accepts, BuildRequest, Run;
    if g in w.clients {
      ClientIsLocal(w, g);
      match a
      case Own(guid, step) =>
        if g == guid {
          StepFails(w.clients[g], step, id);
        }
      case Send(guid, k, _) =>
        if g == guid {
          StepFails(w.clients[g], Write(k), id);
        }
      case Receive(guid, service, p) =>
        var r := ReadResponse(service, guid, w.clients[guid].maxPayload, p.sample);
        if g == guid && r.Some? {
          StepFails(w.clients[g], Deliver(service, p.sample.id, r.value), id);
        }
      case _ =>
    } else if a.Join? && a.guid == g {
      NewHasNoFailure(a.maxPayload, id);
    }
  }

  lemma NewHasNoFailure(maxPayload: nat, id: nat)
    ensures RpcClient.FailedWith(NewClient(maxPayload), id).None?
  {
  }

  /** A call fails with a code during a run exactly if a step of the run makes it fail so: with 5 when its time is up, with
      4 when its channel is closed, and with the code of a failed write; and the first such step decides for good. */
  lemma {:induction false} FailsExactlyIf(topic: string -> nat, w: World, run: seq<Action>, g: nat, id: nat)
    requires Inv(w) && Legal(topic, w, run) && FailedWith(w, g, id).None?
    ensures FailedWith(After(topic, w, run), g, id) == FirstFailure(topic, w, run, g, id)
    decreases |run|
  {
    hide Inv, Enabled, Apply, RpcClient.FailedWith, FailCode, Extends;
    if run != [] {
      var v := Apply(topic, w, run[0]);
      StepKeeps(topic, w, run[0]);
      StepFailsOnly(topic, w, run[0], g, id);
      if FailCode(topic, w, run[0], g, id).Some? {
        RunKeeps(topic, v, run[1..]);
        FailureStays(v.clients[g], After(topic, v, run[1..]).clients[g], id);
      } else {
        FailsExactlyIf(topic, v, run[1..], g, id);
      }
    }
  }

  lemma StepSettles(topic: string -> nat, w: World, a: Action, g: nat, id: nat, r: Result)
    requires Inv(w) && Enabled(topic, w, a) && g in w.clients && Settled(w.clients[g], id, r)
    ensures g in Apply(topic, w, a).clients && Settled(Apply(topic, w, a).clients[g], id, r)
  {
    hide Inv, RpcClient.Apply, Settled, ReadResponse, Accepts, BuildRequest, Run;
    ClientIsLocal(w, g);
    match a
    case Own(guid, step) =>
      if g == guid {
        RpcClient.StepSettles(w.clients[g], step, id, r);
      }
    case Send(guid, k, _) =>
      if g == guid {
        RpcClient.StepSettles(w.clients[g], Write(k), id, r);
      }
    case Receive(guid, service, p) =>
      var read := ReadResponse(service, guid, w.clients[guid].maxPayload, p.sample);
      if g == guid && read.Some? {
        RpcClient.StepSettles(w.clients[g], Deliver(service, p.sample.id, read.value), id, r);
      }
    case _ =>
  }

  /** A result that has arrived is never given up: once it is in the table of a written call, that call does not time out or
      fail at any later moment, and it returns nothing else. */
  lemma {:induction false} ArrivedIsReturned(topic: string -> nat, w: World, run: seq<Action>, g: nat, id: nat, r: Result)
    requires Inv(w) && Legal(topic, w, run) && g in w.clients && Settled(w.clients[g], id, r)
    ensures var v := After(topic, w, run);
            && g in v.clients && Settled(v.clients[g], id, r) && FailedWith(v, g, id).None?
    decreases |run|
  {
    hide Inv, Enabled, Apply;
    if run != [] {
      StepKeeps(topic, w, run[0]);
      StepSettles(topic, w, run[0], g, id, r);
      ArrivedIsReturned(topic, Apply(topic, w, run[0]), run[1..], g, id, r);
    }
  }

  /** At most once: a result in a table, and the return of a call, are what they were at every later moment. */
  lemma CompletedOnce(topic: string -> nat, run: seq<Action>, more: seq<Action>, g: nat, id: nat)
    requires Reachable(topic, run) && Legal(topic, After(topic, Empty(), run), more)
    ensures var w := After(topic, Empty(), run);
            var v := After(topic, w, more);
            g in w.clients && id in w.clients[g].calls ==>
              && g in v.clients && id in v.clients[g].calls
              && var was := w.clients[g].calls[id];
                 var now := v.clients[g].calls[id];
                 && now.service == was.service && now.request == was.request
                 && was.service in w.clients[g].channels && was.service in v.clients[g].channels
                 && (was.phase.Answered? || was.phase.Failed? ==> now.phase == was.phase)
                 && (id in w.clients[g].channels[was.service].results ==>
                       && id in v.clients[g].channels[was.service].results
                       && v.clients[g].channels[was.service].results[id] == w.clients[g].channels[was.service].results[id])
  {
    hide Inv, Local;
    EmptyHolds();
    RunKeeps(topic, Empty(), run);
    var w := After(topic, Empty(), run);
    RunKeeps(topic, w, more);
    if g in w.clients && id in w.clients[g].calls {
      ClientIsLocal(w, g);
      HomeOk(w.clients[g], id);
    }
  }

  /** No leak: a channel's table holds exactly the calls that are under way and not yet completed. */
  lemma PendingIsExact(topic: string -> nat, run: seq<Action>, g: nat, service: string, id: nat)
    requires Reachable(topic, run)
    ensures var w := After(topic, Empty(), run);
            g in w.clients && service in w.clients[g].channels ==>
              var c := w.clients[g];
              id in c.channels[service].pending <==>
                Belongs(c, id, service) && Active(c.calls[id].phase) && id !in c.channels[service].results
  {
    EmptyHolds();
    RunKeeps(topic, Empty(), run);
    var w := After(topic, Empty(), run);
    if g in w.clients && service in w.clients[g].channels && id in w.clients[g].calls {
      HomeOk(w.clients[g], id);
    }
  }

  /** Exactly the right responses complete a call: one for this engine, this service and a request that is still waiting,
      whose message fits; and then with what the handler's outcome means. Every other one (a repetition, a late answer,
      another client's, another service's) leaves the whole world as it is. */
  lemma ReceiveIsExact(topic: string -> nat, w: World, g: nat, service: string, p: Sent)
    requires Inv(w) && Enabled(topic, w, Receive(g, service, p))
    ensures var v := Apply(topic, w, Receive(g, service, p));
            var e := p.origin;
            var c := w.clients[g];
            var tooLarge := && e.outcome.Success? && e.outcome.message.envelope.version == 1
                            && c.maxPayload < |e.outcome.message.payload| <= e.maxPayload;
            if e.guid == g && e.service == service && e.id in c.channels[service].pending && !tooLarge
            then && g in v.clients && service in v.clients[g].channels
                 && e.id !in v.clients[g].channels[service].pending
                 && e.id in v.clients[g].channels[service].results
                 && var r := v.clients[g].channels[service].results[e.id];
                    && Tells(e.outcome, e.maxPayload, r)
                    && v.clients[g].channels[service].results == c.channels[service].results[e.id := r]
            else v == w
  {
    hide Inv, ReadResponse, ValidServiceName, ValidOutcome;
    var e := p.origin;
    var c := w.clients[g];
    ResponseIsKnown(w, p);
    ReadOfResponse(e.service, e.guid, e.id, e.maxPayload, e.outcome, service, g, c.maxPayload);
    if e.id !in c.channels[service].pending {
      assert c.channels[service := c.channels[service]] == c.channels;
      assert w.clients[g := c] == w.clients;
    }
  }

  lemma ResponseIsKnown(w: World, p: Sent)
    requires Inv(w) && p in w.responses
    ensures ResponseOk(w, p) && ExecutionOk(w, p.origin)
  {
    hide Local, RequestOk, Explained, ExecutionOk;
    OriginRan(w, p);
  }

  /** Once CloseClient has cleared a channel, at every later moment its table is empty and every call still waiting on it
      has its result, so no caller waits for ever. */
  lemma ClosedChannelWakesAll(topic: string -> nat, run: seq<Action>, more: seq<Action>, g: nat, service: string, id: nat)
    requires Reachable(topic, run) && Legal(topic, After(topic, Empty(), run), more)
    ensures var w := After(topic, Empty(), run);
            var v := After(topic, w, more);
            g in w.clients && service in w.clients[g].channels && w.clients[g].channels[service].swept ==>
              && g in v.clients && service in v.clients[g].channels
              && var c := v.clients[g];
                 && c.channels[service].pending == {}
                 && (Belongs(c, id, service) && c.calls[id].phase.Written? ==> RpcClient.Enabled(c, Finish(id)))
  {
    hide Inv, Local, Legal, After, Extends;
    EmptyHolds();
    RunKeeps(topic, Empty(), run);
    var w := After(topic, Empty(), run);
    RunKeeps(topic, w, more);
    var v := After(topic, w, more);
    if g in w.clients && service in w.clients[g].channels && w.clients[g].channels[service].swept {
      SweptForGood(w.clients[g], v.clients[g], service);
      ClientIsLocal(v, g);
      ServiceOk(v.clients[g], service);
    }
  }

  lemma SweptForGood(c: Client, d: Client, service: string)
    requires Extends(c, d) && service in c.channels && c.channels[service].swept
    ensures service in d.channels && d.channels[service].swept
  {
  }
}
