/** The requesting side of one DDS request/response engine: its channels, its request counter and the calls in progress. A
    step is one region of a mutex, so a run is any interleaving of the calling threads, the receivers and Close. */
module RpcClient {
  import opened Bytes
  import opened TraceFormat
  import opened RpcChannel
  import opened RpcWire

  /** How far a call to Request has come. Answered takes the result left in the table; Failed is every other return. */
  datatype Phase = Entered | Inserted | Written | Failed(code: nat, detail: string) | Answered(result: Result)

  datatype Call = Call(service: string, request: Message, phase: Phase)

  datatype Client = Client(
    maxPayload: nat, closed: bool, nextId: nat, channels: map<string, Channel>, calls: map<nat, Call>)

  function NewClient(maxPayload: nat): Client {
    Client(maxPayload, false, 1, map[], map[])
  }

  datatype Why = Expired | Gone | WriteError(code: nat, detail: string)

  datatype Step =
    | Enter(service: string, request: Message)
    | Insert(id: nat)
    | Abort(id: nat, why: Why)
    | Write(id: nat)
    | Deliver(service: string, id: nat, result: Result)
    | GiveUp(id: nat)
    | Finish(id: nat)
    | CloseEngine
    | Shut(service: string)
    | Sweep(service: string)

  /** The first checks of Request: what it returns at once, if anything. */
  function Refusal(c: Client, service: string, request: Message, expired: bool): Option<Result> {
    if !ValidServiceName(service) || !ValidMessage(request, c.maxPayload) then
      Some(Failure(1, "invalid DDS RPC service, envelope, or payload"))
    else if expired then Some(Failure(TIMEOUT, "DDS RPC deadline already expired"))
    else if c.closed then Some(Failure(CLOSED, "DDS RPC engine is closed"))
    else None
  }

  predicate At(c: Client, id: nat, p: Phase) {
    id in c.calls && c.calls[id].phase == p && c.calls[id].service in c.channels
  }

  function Home(c: Client, id: nat): Channel
    requires id in c.calls && c.calls[id].service in c.channels
  {
    c.channels[c.calls[id].service]
  }

  predicate Enabled(c: Client, a: Step) {
    match a
    case Enter(service, request) => Refusal(c, service, request, false).None?
    case Insert(id) => At(c, id, Entered)
    case Abort(id, why) =>
      && At(c, id, Inserted)
      && (why.Gone? ==> Home(c, id).closed)
      && (why.WriteError? ==> !Home(c, id).closed && 0 < why.code <= INTERNAL)
    case Write(id) => At(c, id, Inserted) && !Home(c, id).closed
    case Deliver(service, id, _) => service in c.channels
    case GiveUp(id) => At(c, id, Written) && id !in Home(c, id).results
    case Finish(id) => At(c, id, Written) && id in Home(c, id).results
    case CloseEngine => !c.closed
    case Shut(service) => c.closed && service in c.channels && !c.channels[service].closed
    case Sweep(service) => service in c.channels && c.channels[service].closed && !c.channels[service].swept
  }

  function Reason(why: Why): Phase {
    match why
    case Expired => Failed(TIMEOUT, "DDS RPC deadline expired before write")
    case Gone => Failed(CLOSED, "DDS RPC client channel is closed")
    case WriteError(code, detail) => Failed(code, detail)
  }

  function Entry(r: Insertion): Phase {
    match r
    case Waiting => Inserted
    case ChannelGone => Failed(CLOSED, "DDS RPC client channel is closed")
    case Collided => Failed(INTERNAL, "DDS RPC request id collided")
  }

  function Moved(c: Client, id: nat, p: Phase, ch: Channel): Client
    requires id in c.calls
  {
    c.(calls := c.calls[id := c.calls[id].(phase := p)], channels := c.channels[c.calls[id].service := ch])
  }

  function Apply(c: Client, a: Step): Client
    requires Enabled(c, a)
  {
    match a
    case Enter(service, request) =>
      c.(nextId := c.nextId + 1, calls := c.calls[c.nextId := Call(service, request, Entered)],
         channels := if service in c.channels then c.channels else c.channels[service := NewChannel()])
    case Insert(id) =>
      var (ch, r) := InsertOf(Home(c, id), id);
      Moved(c, id, Entry(r), ch)
    case Abort(id, why) => Moved(c, id, Reason(why), RemoveOf(Home(c, id), id))
    case Write(id) => Moved(c, id, Written, Home(c, id))
    case Deliver(service, id, r) => c.(channels := c.channels[service := CompleteOf(c.channels[service], id, r).0])
    case GiveUp(id) =>
      Moved(c, id, Failed(TIMEOUT, "DDS RPC response deadline expired"), RemoveOf(Home(c, id), id))
    case Finish(id) => Moved(c, id, Answered(Home(c, id).results[id]), Home(c, id))
    case CloseEngine => c.(closed := true)
    case Shut(service) => c.(channels := c.channels[service := c.channels[service].(closed := true)])
    case Sweep(service) => c.(channels := c.channels[service := SweepOf(c.channels[service])])
  }

  predicate Active(p: Phase) {
    p.Inserted? || p.Written?
  }

  /** A call against its channel's table: an active call is waiting exactly while it has no result, and a call that has
      returned is not waiting. */
  predicate CallOk(id: nat, call: Call, ch: Channel) {
    && (id in ch.pending ==> Active(call.phase))
    && (Active(call.phase) ==> (id in ch.pending <==> id !in ch.results))
    && (call.phase.Entered? ==> id !in ch.results)
    && (call.phase.Answered? ==> id in ch.results && ch.results[id] == call.phase.result)
  }

  predicate Belongs(c: Client, id: nat, service: string) {
    id in c.calls && c.calls[id].service == service
  }

  ghost predicate Local(c: Client) {
    && c.nextId > 0
    && (forall id :: id in c.calls ==>
          && 0 < id < c.nextId && ValidServiceName(c.calls[id].service) && ValidMessage(c.calls[id].request, c.maxPayload)
          && c.calls[id].service in c.channels && CallOk(id, c.calls[id], Home(c, id)))
    && (forall id :: 0 < id < c.nextId ==> id in c.calls)
    && (forall s :: s in c.channels ==> Sound(c.channels[s]) && (c.channels[s].closed ==> c.closed))
    && (forall s, id :: s in c.channels && id in c.channels[s].pending ==> Belongs(c, id, s))
    && (forall s, id :: s in c.channels && id in c.channels[s].results ==> Belongs(c, id, s))
  }

  lemma NewIsLocal(maxPayload: nat)
    ensures Local(NewClient(maxPayload))
  {
  }

  /** ch differs from was at most in what it says of one identifier. */
  ghost predicate SameButAt(was: Channel, ch: Channel, id: nat) {
    && ch.closed == was.closed && ch.swept == was.swept
    && (forall k :: k != id ==> (k in ch.pending <==> k in was.pending))
    && ch.results == was.results
  }

  lemma MovedKeeps(c: Client, id: nat, p: Phase, ch: Channel)
    requires Local(c) && id in c.calls && SameButAt(Home(c, id), ch, id)
    requires Sound(ch) && CallOk(id, c.calls[id].(phase := p), ch)
    ensures Local(Moved(c, id, p, ch))
  {
    hide CallOk, ValidServiceName, ValidMessage, Sound;
    var d := Moved(c, id, p, ch);
    forall k | k in d.calls
      ensures CallOk(k, d.calls[k], Home(d, k))
    {
      if k != id {
        Undisturbed(k, c.calls[k], Home(c, k), Home(d, k), id);
      }
    }
  }

  lemma Undisturbed(k: nat, call: Call, was: Channel, ch: Channel, id: nat)
    requires CallOk(k, call, was) && k != id
    ensures SameButAt(was, ch, id) || ch == was ==> CallOk(k, call, ch)
  {
  }

  lemma ChannelKeeps(c: Client, s: string, ch: Channel)
    requires Local(c) && s in c.channels && Sound(ch) && (ch.closed ==> c.closed)
    requires ch.pending <= c.channels[s].pending
    requires ch.results.Keys <= c.channels[s].results.Keys + c.channels[s].pending
    requires forall id :: id in c.calls && c.calls[id].service == s ==> CallOk(id, c.calls[id], ch)
    ensures Local(c.(channels := c.channels[s := ch]))
  {
    hide CallOk, ValidServiceName, ValidMessage, Sound;
  }

  lemma NewCallOk(id: nat, call: Call, ch: Channel)
    requires call.phase.Entered? && id !in ch.pending && id !in ch.results
    ensures CallOk(id, call, ch)
  {
  }

  lemma NewIsSound()
    ensures Sound(NewChannel())
  {
  }

  lemma EnterKeeps(c: Client, service: string, request: Message)
    requires Local(c) && Enabled(c, Enter(service, request))
    ensures Local(Apply(c, Enter(service, request)))
  {
    hide ValidServiceName, ValidMessage, CallOk, Sound;
    var d := Apply(c, Enter(service, request));
    var id := c.nextId;
    assert id !in c.calls;
    assert service in c.channels ==> !Belongs(c, id, service);
    assert id !in Home(d, id).pending && id !in Home(d, id).results;
    NewCallOk(id, d.calls[id], Home(d, id));
    forall s | s in d.channels
      ensures Sound(d.channels[s]) && (d.channels[s].closed ==> d.closed)
    {
      if s !in c.channels {
        NewIsSound();
      }
    }
  }

  lemma StepKeepsLocal(c: Client, a: Step)
    requires Local(c) && Enabled(c, a)
    ensures Local(Apply(c, a))
  {
    hide Local, ValidServiceName, ValidMessage;
    match a
    case Enter(service, request) => EnterKeeps(c, service, request);
    case Insert(id) =>
      HomeOk(c, id);
      InsertNeverCollides(c, id);
      MovedKeeps(c, id, Apply(c, a).calls[id].phase, InsertOf(Home(c, id), id).0);
    case Abort(id, why) =>
      HomeOk(c, id);
      MovedKeeps(c, id, Reason(why), RemoveOf(Home(c, id), id));
    case Write(id) =>
      HomeOk(c, id);
      MovedKeeps(c, id, Written, Home(c, id));
    case GiveUp(id) =>
      HomeOk(c, id);
      MovedKeeps(c, id, Apply(c, a).calls[id].phase, RemoveOf(Home(c, id), id));
    case Finish(id) =>
      HomeOk(c, id);
      MovedKeeps(c, id, Apply(c, a).calls[id].phase, Home(c, id));
    case CloseEngine => CloseKeeps(c);
    case Deliver(service, id, r) =>
      ServiceOk(c, service);
      ChannelKeeps(c, service, CompleteOf(c.channels[service], id, r).0);
    case Shut(service) =>
      ServiceOk(c, service);
      ChannelKeeps(c, service, c.channels[service].(closed := true));
    case Sweep(service) =>
      ServiceOk(c, service);
      ChannelKeeps(c, service, SweepOf(c.channels[service]));
  }

  lemma HomeOk(c: Client, id: nat)
    requires Local(c) && id in c.calls
    ensures c.calls[id].service in c.channels && CallOk(id, c.calls[id], Home(c, id)) && Sound(Home(c, id))
  {
    hide CallOk, ValidServiceName, ValidMessage, Sound;
  }

  /** Identifiers are never given out twice, so no request finds its own in the table. */
  lemma InsertNeverCollides(c: Client, id: nat)
    requires Local(c) && Enabled(c, Insert(id))
    ensures InsertOf(Home(c, id), id).1 == if Home(c, id).closed then ChannelGone else Waiting
  {
    hide Local;
    HomeOk(c, id);
  }

  lemma ServiceOk(c: Client, s: string)
    requires Local(c) && s in c.channels
    ensures Sound(c.channels[s]) && (c.channels[s].closed ==> c.closed)
    ensures forall id :: id in c.calls && c.calls[id].service == s ==> CallOk(id, c.calls[id], c.channels[s])
  {
    hide CallOk, ValidServiceName, ValidMessage, Sound;
  }

  lemma CloseKeeps(c: Client)
    requires Local(c)
    ensures Local(c.(closed := true))
  {
    hide CallOk, ValidServiceName, ValidMessage, Sound;
    var d := c.(closed := true);
    assert forall id :: id in d.calls && c.calls[id].service in c.channels ==> Home(d, id) == Home(c, id);
    assert forall s, id :: Belongs(c, id, s) <==> Belongs(d, id, s);
  }

  ghost predicate Grows(was: Channel, ch: Channel) {
    && (was.swept ==> ch.swept)
    && forall id :: id in was.results ==> id in ch.results && ch.results[id] == was.results[id]
  }

  /** What no step takes back: a call's service and request, a result once it is in the table, and a return. */
  ghost predicate Extends(c: Client, d: Client) {
    && d.maxPayload == c.maxPayload
    && (forall id :: id in c.calls ==>
          && id in d.calls && d.calls[id].service == c.calls[id].service && d.calls[id].request == c.calls[id].request
          && (c.calls[id].phase.Failed? || c.calls[id].phase.Answered? ==> d.calls[id].phase == c.calls[id].phase))
    && (forall s :: s in c.channels ==>
          s in d.channels && Grows(c.channels[s], d.channels[s]))
  }

  lemma MovedExtends(c: Client, id: nat, p: Phase, ch: Channel)
    requires Local(c) && id in c.calls && Grows(Home(c, id), ch)
    requires !c.calls[id].phase.Failed? && !c.calls[id].phase.Answered?
    ensures Extends(c, Moved(c, id, p, ch))
  {
    hide CallOk, ValidServiceName, ValidMessage, Sound;
  }

  lemma ChannelExtends(c: Client, s: string, ch: Channel)
    requires Local(c) && s in c.channels && Grows(c.channels[s], ch)
    ensures Extends(c, c.(channels := c.channels[s := ch]))
  {
    hide Local;
  }

  lemma EnterExtends(c: Client, service: string, request: Message)
    requires Local(c) && Enabled(c, Enter(service, request))
    ensures Extends(c, Apply(c, Enter(service, request)))
  {
    hide CallOk, ValidServiceName, ValidMessage, Sound;
    assert c.nextId !in c.calls;
  }

  lemma StepExtends(c: Client, a: Step)
    requires Local(c) && Enabled(c, a)
    ensures Extends(c, Apply(c, a))
  {
    hide Extends, Local, ValidServiceName, ValidMessage, Refusal;
    match a
    case Enter(service, request) => EnterExtends(c, service, request);
    case Insert(id) => MovedExtends(c, id, Apply(c, a).calls[id].phase, InsertOf(Home(c, id), id).0);
    case Abort(id, why) => MovedExtends(c, id, Reason(why), RemoveOf(Home(c, id), id));
    case Write(id) => MovedExtends(c, id, Written, Home(c, id));
    case GiveUp(id) => MovedExtends(c, id, Apply(c, a).calls[id].phase, RemoveOf(Home(c, id), id));
    case Finish(id) => MovedExtends(c, id, Apply(c, a).calls[id].phase, Home(c, id));
    case CloseEngine => CloseExtends(c);
    case Deliver(service, id, r) =>
      ServiceOk(c, service);
      ChannelExtends(c, service, CompleteOf(c.channels[service], id, r).0);
    case Shut(service) => ChannelExtends(c, service, c.channels[service].(closed := true));
    case Sweep(service) =>
      ServiceOk(c, service);
      ChannelExtends(c, service, SweepOf(c.channels[service]));
  }

  lemma CloseExtends(c: Client)
    ensures Extends(c, c.(closed := true))
  {
  }

  // ----- why a call fails -----

  /** Requests are numbered from 1 without a gap, so a number is never used again. */
  lemma NumbersAreConsecutive(c: Client, service: string, request: Message)
    requires Local(c) && Enabled(c, Enter(service, request))
    ensures var d := Apply(c, Enter(service, request));
            && (forall id: nat :: id in c.calls <==> 1 <= id <= |c.calls|)
            && d.calls == c.calls[|c.calls| + 1 := Call(service, request, Entered)]
  {
    hide CallOk, ValidServiceName, ValidMessage, Sound;
    CountUp(c.calls.Keys, c.nextId - 1);
    assert |c.calls| == |c.calls.Keys|;
  }

  lemma {:induction false} CountUp(ids: set<nat>, n: nat)
    requires forall id: nat :: id in ids <==> 0 < id <= n
    ensures |ids| == n
  {
    if n == 0 {
      assert ids == {};
    } else {
      CountUp(ids - {n}, n - 1);
      assert ids == (ids - {n}) + {n};
    }
  }

  /** What Request returns at once, in numbers: 1 for a bad name or message, 5 for a deadline already past, 4 for a closed
      engine. */
  lemma RefusalInNumbers(c: Client, service: string, request: Message, expired: bool)
    ensures var bad := || |service| == 0 || |service| > 128 || '\0' in service
                       || request.envelope.version != 1 || |request.payload| > c.maxPayload;
            var r := Refusal(c, service, request, expired);
            if bad then r.Some? && r.value.Failure? && r.value.code == 1
            else if expired then r.Some? && r.value.Failure? && r.value.code == 5
            else if c.closed then r.Some? && r.value.Failure? && r.value.code == 4
            else r.None?
  {
  }

  /** The code with which the step makes call id fail, if it does: 5 when its time is up, 4 when its channel is closed, and
      the code of a failed write. */
  function FailCode(c: Client, a: Step, id: nat): Option<nat>
    requires Enabled(c, a)
  {
    match a
    case Insert(k) => if k == id && Home(c, k).closed then Some(4) else None
    case Abort(k, why) =>
      if k != id then None else Some(match why case Expired => 5 case Gone => 4 case WriteError(e, _) => e)
    case GiveUp(k) => if k == id then Some(5) else None
    case _ => None
  }

  function FailedWith(c: Client, id: nat): Option<nat> {
    if id in c.calls && c.calls[id].phase.Failed? then Some(c.calls[id].phase.code) else None
  }

  lemma StepFails(c: Client, a: Step, id: nat)
    requires Local(c) && Enabled(c, a) && FailedWith(c, id).None?
    ensures FailedWith(Apply(c, a), id) == FailCode(c, a, id)
  {
    hide Local, ValidServiceName, ValidMessage;
    if a.Insert? {
      InsertNeverCollides(c, a.id);
    }
  }

  lemma FailureStays(c: Client, d: Client, id: nat)
    requires Extends(c, d) && FailedWith(c, id).Some?
    ensures FailedWith(d, id) == FailedWith(c, id)
  {
  }

  /** A written call whose result r is in the table: it waits to return it, or has returned it. */
  predicate Settled(c: Client, id: nat, r: Result) {
    && id in c.calls && c.calls[id].service in c.channels
    && id in Home(c, id).results && Home(c, id).results[id] == r
    && (c.calls[id].phase.Written? || c.calls[id].phase == Answered(r))
  }

  lemma StepSettles(c: Client, a: Step, id: nat, r: Result)
    requires Local(c) && Enabled(c, a) && Settled(c, id, r)
    ensures Settled(Apply(c, a), id, r)
  {
    hide Local, ValidServiceName, ValidMessage, Reason, Refusal;
    HomeOk(c, id);
    StepExtends(c, a);
    if a.Enter? {
      NumbersRise(c, id);
    }
  }

  lemma NumbersRise(c: Client, id: nat)
    requires Local(c) && id in c.calls
    ensures id < c.nextId
  {
    hide CallOk, ValidServiceName, ValidMessage, Sound;
  }
}
