/** The asynchronous recorder as a state machine, one action per region of its mutex, and what is on disk at every
    moment of every run. */
module TraceRecorder {
  import opened Bytes
  import opened TraceFormat
  import opened TraceReplay

  datatype OverflowPolicy = Block | DropNewest

  datatype Config = Config(
    queueCapacity: nat, limits: TraceLimits, policy: OverflowPolicy, synchronizeOnStop: bool, info: TraceFileInfo)

  /** The arguments of one Record call, with the clock it read before taking the lock. */
  datatype Offer = Offer(channel: seq<Byte>, messageType: seq<Byte>, message: Message, captureNow: U64)

  datatype Status = Ok | InvalidArgument | Internal | Closed | Dropped | Timeout | TransportError

  /** Where the writer thread is: waiting, holding a record it has not written, having written it but not counted
      it, past its loop, and gone. */
  datatype Writer = Idle | Holding(record: PendingRecord) | Wrote(record: PendingRecord) | Leaving | Gone

  datatype Stats = Stats(
    accepted: nat, written: nat, dropped: nat, timeouts: nat, ioErrors: nat, bytesWritten: nat,
    queueDepth: nat, highWatermark: nat, stopping: bool, stopped: bool)

  /** The last four components are history: accepted records in order, those wholly on file, whether FailWriter ran,
      and how many calls were refused for a full queue. */
  datatype State = State(
    queue: seq<PendingRecord>, writer: Writer, file: seq<Byte>, nextSequence: U64, lastOffset: U64,
    stopping: bool, writerOk: bool, stats: Stats, blocked: seq<Offer>,
    accepted: seq<PendingRecord>, onFile: seq<PendingRecord>, aborted: bool, refused: nat)

  datatype Action =
    | Enter(offer: Offer) | Wake(caller: nat) | Expire(caller: nat)
    | Take | Write | Commit | Fail(written: nat) | Leave | Finish(syncError: bool, closeError: bool)
    | Stop

  predicate ValidConfig(c: Config) {
    c.queueCapacity > 0 && ValidLimits(c.limits)
  }

  function Init(c: Config): State {
    State([], Idle, BuildFileHeader(c.info), 1, 0, false, true,
          Stats(0, 0, 0, 0, 0, HEADER_BYTES, 0, 0, false, false), [], [], [], false, 0)
  }

  predicate OfferAllowed(c: Config, o: Offer) {
    && 0 < |o.channel| <= c.limits.maxChannelBytes
    && 0 < |o.messageType| <= c.limits.maxMessageTypeBytes
    && |o.message.payload| <= c.limits.maxPayloadBytes
  }

  function Offset(c: Config, s: State, o: Offer): U64 {
    var captured := if o.captureNow >= c.info.monotonicStartNs then o.captureNow - c.info.monotonicStartNs else 0;
    if captured < s.lastOffset then s.lastOffset else captured
  }

  function Max(a: nat, b: nat): nat {
    if a < b then b else a
  }

  /** The end of Record: number the record, stamp it and queue it. */
  function Admit(c: Config, s: State, o: Offer): State {
    var r := PendingRecord(s.nextSequence, Offset(c, s, o), o.channel, o.messageType, o.message);
    var q := s.queue + [r];
    s.(queue := q, nextSequence := Successor(s.nextSequence), lastOffset := r.monotonicOffsetNs,
    stats := s.stats.(accepted := s.stats.accepted + 1, queueDepth := |q|,
    highWatermark := Max(s.stats.highWatermark, |q|)),
    accepted := s.accepted + [r])
  }

  /** Record up to its wait; no status means that the caller now waits on a full queue. */
  function EnterOf(c: Config, s: State, o: Offer): (State, Option<Status>) {
    if !OfferAllowed(c, o) then (s, Some(InvalidArgument))
    else if s.stopping then (s, Some(Closed))
    else if !s.writerOk then (s, Some(TransportError))
    else if |s.queue| < c.queueCapacity then (Admit(c, s, o), Some(Ok))
    else if c.policy.DropNewest? then
      (s.(stats := s.stats.(dropped := s.stats.dropped + 1), refused := s.refused + 1), Some(Dropped))
    else (s.(blocked := s.blocked + [o]), None)
  }

  /** What a waiting caller waits for. */
  predicate Awake(c: Config, s: State) {
    s.stopping || !s.writerOk || |s.queue| < c.queueCapacity
  }

  function Without(blocked: seq<Offer>, i: nat): seq<Offer>
    requires i < |blocked|
  {
    blocked[..i] + blocked[i + 1..]
  }

  function WakeOf(c: Config, s: State, i: nat): (State, Status)
    requires i < |s.blocked|
  {
    var rest := s.(blocked := Without(s.blocked, i));
    if s.stopping then (rest, Closed)
    else if !s.writerOk then (rest, TransportError)
    else (Admit(c, rest, s.blocked[i]), Ok)
  }

  predicate Enabled(c: Config, s: State, a: Action) {
    match a
    case Enter(_) => true
    case Wake(i) => i < |s.blocked| && Awake(c, s)
    case Expire(i) => i < |s.blocked| && !Awake(c, s)
    case Take => s.writer.Idle? && s.queue != []
    case Write => s.writer.Holding?
    case Commit => s.writer.Wrote?
    case Fail(n) => s.writer.Holding? && n < TotalSize(s.writer.record)
    case Leave => s.writer.Idle? && s.queue == [] && s.stopping
    case Finish(sync, _) => s.writer.Leaving? && (sync ==> c.synchronizeOnStop)
    case Stop => true
  }

  /** FailWriter. */
  function Failure(s: State): State
    requires s.writer.Holding?
  {
    s.(queue := [], writer := Leaving, stopping := true, writerOk := false, aborted := true,
    stats := s.stats.(ioErrors := s.stats.ioErrors + 1, dropped := s.stats.dropped + |s.queue| + 1,
    queueDepth := 0, stopping := true))
  }

  function Apply(c: Config, s: State, a: Action): State
    requires Enabled(c, s, a)
  {
    match a
    case Enter(o) => EnterOf(c, s, o).0
    case Wake(i) => WakeOf(c, s, i).0
    case Expire(i) => s.(blocked := Without(s.blocked, i), stats := s.stats.(timeouts := s.stats.timeouts + 1))
    case Take => s.(queue := s.queue[1..], writer := Holding(s.queue[0]),
                 stats := s.stats.(queueDepth := |s.queue| - 1))
    case Write => s.(writer := Wrote(s.writer.record), file := s.file + Serialize(s.writer.record),
                  onFile := s.onFile + [s.writer.record])
    case Commit => s.(writer := Idle,
                   stats := s.stats.(written := s.stats.written + 1,
                   bytesWritten := s.stats.bytesWritten + TotalSize(s.writer.record)))
    case Fail(n) => Failure(s.(file := s.file + Serialize(s.writer.record)[..n]))
    case Leave => s.(writer := Leaving)
    case Finish(sync, close) =>
      var late := s.writerOk && (sync || close);
      s.(writer := Gone, writerOk := s.writerOk && !late,
      stats := s.stats.(ioErrors := s.stats.ioErrors + (if late then 1 else 0), stopped := true, stopping := true))
    case Stop => if s.stopping then s else s.(stopping := true, stats := s.stats.(stopping := true))
  }

  // ----- runs -----

  predicate Legal(c: Config, s: State, run: seq<Action>)
    decreases |run|
  {
    run == [] || (Enabled(c, s, run[0]) && Legal(c, Apply(c, s, run[0]), run[1..]))
  }

  function After(c: Config, s: State, run: seq<Action>): State
    requires Legal(c, s, run)
    decreases |run|
  {
    if run == [] then s else After(c, Apply(c, s, run[0]), run[1..])
  }

  /** The offers whose Record call returned Ok during a run, in the order of acceptance. */
  function Oks(c: Config, s: State, run: seq<Action>): seq<Offer>
    requires Legal(c, s, run)
    decreases |run|
  {
    if run == [] then []
    else
      var more := Oks(c, Apply(c, s, run[0]), run[1..]);
      match run[0]
      case Enter(o) => if EnterOf(c, s, o).1 == Some(Ok) then [o] + more else more
      case Wake(i) => if WakeOf(c, s, i).1 == Ok then [s.blocked[i]] + more else more
      case _ => more
  }

  // ----- invariant -----

  function InFlight(w: Writer): seq<PendingRecord> {
    if w.Holding? then [w.record] else []
  }

  function Busy(w: Writer): nat {
    if w.Holding? || w.Wrote? then 1 else 0
  }

  function LastOffset(rs: seq<PendingRecord>): U64 {
    if rs == [] then 0 else rs[|rs| - 1].monotonicOffsetNs
  }

  /** Accepted records are numbered 1, 2, ... with offsets that never fall, and fit the limits. */
  predicate Numbering(c: Config, s: State) {
    && Playable(s.accepted, c.limits) && Sequenced(s.accepted, 1, 0)
    && s.nextSequence == (|s.accepted| + 1) % TWO64 && s.lastOffset == LastOffset(s.accepted)
  }

  /** Until FailWriter runs nothing accepted is lost, and the file holds exactly the records written; after it the file
      still is a front part of what would have been written. */
  predicate OnDisk(c: Config, s: State) {
    && s.file <= BuildFileHeader(c.info) + Concat(s.accepted) && HEADER_BYTES <= |s.file|
    && (!s.aborted ==> s.accepted == s.onFile + InFlight(s.writer) + s.queue)
    && (!s.aborted ==> s.file == BuildFileHeader(c.info) + Concat(s.onFile))
  }

  /** accepted + refused = written + dropped + queued + in flight, and the other counters. */
  predicate Ledger(c: Config, s: State) {
    && s.stats.accepted == |s.accepted|
    && |s.accepted| + s.refused == s.stats.written + s.stats.dropped + |s.queue| + Busy(s.writer)
    && (!s.aborted ==> s.stats.dropped == s.refused)
    && s.stats.queueDepth == |s.queue| <= s.stats.highWatermark <= c.queueCapacity
    && (!s.aborted ==> s.stats.bytesWritten + (if s.writer.Wrote? then TotalSize(s.writer.record) else 0) == |s.file|)
  }

  predicate Phases(s: State) {
    && (s.writer.Leaving? || s.writer.Gone? ==> s.stopping && s.queue == [])
    && (s.aborted ==> (s.writer.Leaving? || s.writer.Gone?) && !s.writerOk)
    && (!s.writerOk ==> s.stopping)
    && s.stats.stopped == s.writer.Gone? && s.stats.stopping == s.stopping
  }

  predicate Waiters(c: Config, s: State) {
    forall i :: 0 <= i < |s.blocked| ==> OfferAllowed(c, s.blocked[i])
  }

  predicate Inv(c: Config, s: State) {
    Numbering(c, s) && OnDisk(c, s) && Ledger(c, s) && Phases(s) && Waiters(c, s)
  }

  // ----- steps -----

  lemma {:induction false} ConcatExtend(rs: seq<PendingRecord>, r: PendingRecord)
    ensures Concat(rs + [r]) == Concat(rs) + Serialize(r)
  {
    hide Serialize;
    if rs == [] {
      assert rs + [r] == [r] && [r][1..] == [];
    } else {
      ConcatExtend(rs[1..], r);
      assert (rs + [r])[1..] == rs[1..] + [r];
    }
  }

  lemma {:induction false} SequencedExtend(rs: seq<PendingRecord>, r: PendingRecord, first: U64, floor: U64)
    requires Sequenced(rs, first, floor) && r.recordSequence == (first + |rs|) % TWO64
    requires r.monotonicOffsetNs >= if rs == [] then floor else LastOffset(rs)
    ensures Sequenced(rs + [r], first, floor)
    decreases rs
  {
    if rs == [] {
      assert rs + [r] == [r] && [r][1..] == [];
    } else {
      assert (Successor(first) + |rs[1..]|) % TWO64 == (first + |rs|) % TWO64;
      SequencedExtend(rs[1..], r, Successor(first), rs[0].monotonicOffsetNs);
      assert (rs + [r])[1..] == rs[1..] + [r];
    }
  }

  lemma AllowedIsEncodable(c: Config, r: PendingRecord)
    requires ValidConfig(c) && Allowed(r, c.limits)
    ensures Encodable(r)
  {
  }

  lemma AdmitNumbering(c: Config, s: State, o: Offer)
    requires ValidConfig(c) && Numbering(c, s) && OfferAllowed(c, o)
    ensures Numbering(c, Admit(c, s, o))
  {
    hide Sequenced;
    var t := Admit(c, s, o);
    var r := t.accepted[|s.accepted|];
    AllowedIsEncodable(c, r);
    SequencedExtend(s.accepted, r, 1, 0);
    assert (1 + |s.accepted|) % TWO64 == s.nextSequence;
    assert (s.nextSequence + 1) % TWO64 == (|s.accepted| + 2) % TWO64;
  }

  lemma AdmitOnDisk(c: Config, s: State, o: Offer)
    requires OnDisk(c, s)
    ensures OnDisk(c, Admit(c, s, o))
  {
    hide Serialize, Concat, BuildFileHeader;
    var t := Admit(c, s, o);
    var r := t.accepted[|s.accepted|];
    ConcatExtend(s.accepted, r);
    var h := BuildFileHeader(c.info);
    assert h + Concat(t.accepted) == h + Concat(s.accepted) + Serialize(r);
    assert s.onFile + InFlight(s.writer) + t.queue == s.onFile + InFlight(s.writer) + s.queue + [r];
  }

  lemma AdmitKeeps(c: Config, s: State, o: Offer)
    requires ValidConfig(c) && Inv(c, s) && OfferAllowed(c, o)
    requires !s.stopping && s.writerOk && |s.queue| < c.queueCapacity
    ensures Inv(c, Admit(c, s, o))
  {
    hide Numbering, OnDisk;
    AdmitNumbering(c, s, o);
    AdmitOnDisk(c, s, o);
  }

  lemma WriteKeeps(c: Config, s: State)
    requires Inv(c, s) && Enabled(c, s, Write)
    ensures Inv(c, Apply(c, s, Write))
  {
    hide Serialize, Concat, BuildFileHeader, Sequenced;
    var t := Apply(c, s, Write);
    var r, h := s.writer.record, BuildFileHeader(c.info);
    ConcatExtend(s.onFile, r);
    assert t.file == h + Concat(t.onFile);
    assert s.accepted == t.onFile + [] + s.queue;
    assert t.onFile == s.accepted[..|t.onFile|];
    ConcatPrefix(s.accepted, |t.onFile|);
  }

  lemma FailKeeps(c: Config, s: State, n: nat)
    requires Inv(c, s) && Enabled(c, s, Fail(n))
    ensures Inv(c, Apply(c, s, Fail(n)))
  {
    hide Serialize, Concat, BuildFileHeader, Sequenced;
    WriteKeeps(c, s);
    var t, u := Apply(c, s, Fail(n)), Apply(c, s, Write);
    assert t.file == u.file[..|t.file|];
  }

  lemma EnterKeeps(c: Config, s: State, a: Action)
    requires ValidConfig(c) && Inv(c, s) && Enabled(c, s, a) && (a.Enter? || a.Wake?)
    ensures Inv(c, Apply(c, s, a))
  {
    hide Serialize, Concat, BuildFileHeader, Sequenced, Admit;
    if a.Enter? {
      if EnterOf(c, s, a.offer).1 == Some(Ok) {
        AdmitKeeps(c, s, a.offer);
      }
    } else if WakeOf(c, s, a.caller).1 == Ok {
      AdmitKeeps(c, s.(blocked := Without(s.blocked, a.caller)), s.blocked[a.caller]);
    }
  }

  lemma OtherKeeps(c: Config, s: State, a: Action)
    requires Inv(c, s) && Enabled(c, s, a) && !a.Enter? && !a.Wake? && !a.Write? && !a.Fail?
    ensures Inv(c, Apply(c, s, a))
  {
    hide Serialize, Concat, BuildFileHeader, Sequenced, Admit;
    if a.Take? {
      assert s.onFile + [s.queue[0]] + s.queue[1..] == s.onFile + [] + s.queue;
    }
  }

  lemma StepKeeps(c: Config, s: State, a: Action)
    requires ValidConfig(c) && Inv(c, s) && Enabled(c, s, a)
    ensures Inv(c, Apply(c, s, a))
  {
    hide Inv, Apply;
    match a
    case Enter(_) => EnterKeeps(c, s, a);
    case Wake(_) => EnterKeeps(c, s, a);
    case Write => WriteKeeps(c, s);
    case Fail(n) => FailKeeps(c, s, n);
    case _ => OtherKeeps(c, s, a);
  }

  lemma {:induction false} RunKeeps(c: Config, s: State, run: seq<Action>)
    requires ValidConfig(c) && Inv(c, s) && Legal(c, s, run)
    ensures Inv(c, After(c, s, run))
    decreases |run|
  {
    hide Inv, Apply, Enabled;
    if run != [] {
      StepKeeps(c, s, run[0]);
      RunKeeps(c, Apply(c, s, run[0]), run[1..]);
    }
  }

  lemma InitHolds(c: Config)
    ensures Inv(c, Init(c))
  {
    hide BuildFileHeader;
    assert BuildFileHeader(c.info) + [] == BuildFileHeader(c.info);
  }

  // ----- what was accepted is what was offered -----

  predicate Carries(r: PendingRecord, o: Offer) {
    r.channel == o.channel && r.messageType == o.messageType && r.message == o.message
  }

  predicate CarriesAll(rs: seq<PendingRecord>, os: seq<Offer>) {
    |rs| == |os| && forall i :: 0 <= i < |rs| ==> Carries(rs[i], os[i])
  }

  lemma StepAccepts(c: Config, s: State, a: Action)
    requires Enabled(c, s, a)
    ensures var oks, t := Oks(c, s, [a]), Apply(c, s, a);
            && s.accepted <= t.accepted && CarriesAll(t.accepted[|s.accepted|..], oks)
  {
    hide Serialize;
    assert [a][1..] == [];
  }

  lemma {:induction false} RunAccepts(c: Config, s: State, run: seq<Action>)
    requires Legal(c, s, run)
    ensures s.accepted <= After(c, s, run).accepted
    ensures CarriesAll(After(c, s, run).accepted[|s.accepted|..], Oks(c, s, run))
    decreases |run|
  {
    hide Apply, Enabled, EnterOf, WakeOf;
    if run != [] {
      var a := run[0];
      var t := Apply(c, s, a);
      StepAccepts(c, s, a);
      RunAccepts(c, t, run[1..]);
      var final, oks, more := After(c, s, run).accepted, Oks(c, s, [a]), Oks(c, t, run[1..]);
      assert [a][1..] == [];
      assert oks + more == Oks(c, s, run);
      assert final[|s.accepted|..] == t.accepted[|s.accepted|..] + final[|t.accepted|..];
    }
  }

  // ----- when it was recorded -----

  /** Nanoseconds from the start of the recording to the moment the caller read the clock; none if it was before. */
  function Elapsed(c: Config, o: Offer): (n: nat)
    ensures o.captureNow >= c.info.monotonicStartNs ==> c.info.monotonicStartNs + n == o.captureNow
    ensures o.captureNow <= c.info.monotonicStartNs ==> n == 0
  {
    if o.captureNow <= c.info.monotonicStartNs then 0 else o.captureNow - c.info.monotonicStartNs
  }

  /** The offsets of records accepted for these offers in this order after an offset of floor. */
  function Offsets(c: Config, os: seq<Offer>, floor: nat): (r: seq<nat>)
    ensures |r| == |os|
  {
    if os == [] then [] else [Max(Elapsed(c, os[0]), floor)] + Offsets(c, os[1..], Max(Elapsed(c, os[0]), floor))
  }

  function OffsetsOf(rs: seq<PendingRecord>): (r: seq<nat>)
    ensures |r| == |rs| && forall i :: 0 <= i < |rs| ==> r[i] == rs[i].monotonicOffsetNs
  {
    seq(|rs|, i requires 0 <= i < |rs| => rs[i].monotonicOffsetNs)
  }

  /** The latest capture time, since the start, of the offers up to the i-th. */
  predicate Latest(c: Config, os: seq<Offer>, i: nat, n: nat)
    requires i < |os|
  {
    && (forall j :: 0 <= j <= i ==> n >= Elapsed(c, os[j]))
    && (exists j :: 0 <= j <= i && n == Elapsed(c, os[j]))
  }

  /** Every record is stamped with the latest capture time of the offers accepted up to it. */
  predicate Timed(c: Config, rs: seq<PendingRecord>, os: seq<Offer>) {
    |rs| == |os| && forall i :: 0 <= i < |rs| ==> Latest(c, os, i, rs[i].monotonicOffsetNs)
  }

  lemma StepOffsets(c: Config, s: State, a: Action)
    requires Enabled(c, s, a)
    ensures var t := Apply(c, s, a);
            var oks := Oks(c, s, [a]);
            && s.accepted <= t.accepted && OffsetsOf(t.accepted[|s.accepted|..]) == Offsets(c, oks, s.lastOffset)
            && |oks| <= 1 && t.lastOffset == if oks == [] then s.lastOffset else Max(Elapsed(c, oks[0]), s.lastOffset)
  {
    hide Serialize;
    assert [a][1..] == [];
  }

  lemma {:induction false} RunOffsets(c: Config, s: State, run: seq<Action>)
    requires Legal(c, s, run)
    ensures s.accepted <= After(c, s, run).accepted
    ensures OffsetsOf(After(c, s, run).accepted[|s.accepted|..]) == Offsets(c, Oks(c, s, run), s.lastOffset)
    decreases |run|
  {
    hide Apply, Enabled, EnterOf, WakeOf;
    if run != [] {
      var a := run[0];
      var t := Apply(c, s, a);
      StepOffsets(c, s, a);
      RunOffsets(c, t, run[1..]);
      var final, oks, more := After(c, s, run).accepted, Oks(c, s, [a]), Oks(c, t, run[1..]);
      assert [a][1..] == [];
      assert oks + more == Oks(c, s, run);
      assert final[|s.accepted|..] == t.accepted[|s.accepted|..] + final[|t.accepted|..];
      if oks != [] {
        assert oks == [oks[0]] && (oks + more)[1..] == more && oks[1..] == [];
      }
    }
  }

  lemma {:induction false} OffsetsAreLatest(c: Config, os: seq<Offer>, floor: nat, i: nat) returns (k: nat)
    requires i < |os|
    ensures Offsets(c, os, floor)[i] >= floor && forall j :: 0 <= j <= i ==> Offsets(c, os, floor)[i] >= Elapsed(c, os[j])
    ensures k <= i + 1 && Offsets(c, os, floor)[i] == if k == i + 1 then floor else Elapsed(c, os[k])
    decreases os
  {
    hide Elapsed;
    var first := Max(Elapsed(c, os[0]), floor);
    if i == 0 {
      k := if first == floor then 1 else 0;
    } else {
      var m := OffsetsAreLatest(c, os[1..], first, i - 1);
      k := if m < i then m + 1 else if first == floor then i + 1 else 0;
      forall j | 0 <= j <= i
        ensures Offsets(c, os, floor)[i] >= Elapsed(c, os[j])
      {
        assert j > 0 ==> os[j] == os[1..][j - 1];
      }
    }
  }

  lemma OffsetsAreTimed(c: Config, rs: seq<PendingRecord>, os: seq<Offer>)
    requires OffsetsOf(rs) == Offsets(c, os, 0)
    ensures Timed(c, rs, os)
  {
    hide Elapsed, Offsets;
    assert |rs| == |OffsetsOf(rs)| == |os|;
    forall i | 0 <= i < |rs|
      ensures Latest(c, os, i, rs[i].monotonicOffsetNs)
    {
      var k := OffsetsAreLatest(c, os, 0, i);
      assert rs[i].monotonicOffsetNs == OffsetsOf(rs)[i] == Offsets(c, os, 0)[i];
      var j := if k == i + 1 then i else k;
      assert rs[i].monotonicOffsetNs == Elapsed(c, os[j]);
    }
  }

  // ----- what Record answers -----

  /** Somebody called Stop, or the writer failed. */
  predicate Ended(run: seq<Action>) {
    exists i :: 0 <= i < |run| && (run[i].Stop? || run[i].Fail?)
  }

  lemma {:induction false} StoppingIffEnded(c: Config, s: State, run: seq<Action>)
    requires Legal(c, s, run)
    ensures After(c, s, run).stopping <==> s.stopping || Ended(run)
    decreases |run|
  {
    hide Apply, Enabled;
    if run != [] {
      StepStops(c, s, run[0]);
      StoppingIffEnded(c, Apply(c, s, run[0]), run[1..]);
      if Ended(run[1..]) {
        var i :| 0 <= i < |run[1..]| && (run[1..][i].Stop? || run[1..][i].Fail?);
        assert run[i + 1] == run[1..][i];
      }
      if Ended(run) && !run[0].Stop? && !run[0].Fail? {
        var i :| 0 <= i < |run| && (run[i].Stop? || run[i].Fail?);
        assert run[i] == run[1..][i - 1];
      }
    }
  }

  lemma StepStops(c: Config, s: State, a: Action)
    requires Enabled(c, s, a)
    ensures Apply(c, s, a).stopping <==> s.stopping || a.Stop? || a.Fail?
  {
    hide Serialize, TotalSize, Offset, Without, OfferAllowed;
  }

  /** The answer of a Record call at any moment of any run, from its arguments, the run so far and the room left: it is
      invalid by its sizes, closed after a Stop or a failure of the writer, and otherwise accepted if there is room and
      dropped or made to wait, by the policy, if there is none. */
  lemma RecordAnswers(c: Config, run: seq<Action>, o: Offer)
    requires ValidConfig(c) && Legal(c, Init(c), run)
    ensures var s := After(c, Init(c), run);
            var l := c.limits;
            var fits := && 1 <= |o.channel| <= l.maxChannelBytes && 1 <= |o.messageType| <= l.maxMessageTypeBytes
                        && |o.message.payload| <= l.maxPayloadBytes;
            EnterOf(c, s, o).1
            == if !fits then Some(InvalidArgument) else if Ended(run) then Some(Closed)
               else if |s.queue| < c.queueCapacity then Some(Ok) else if c.policy.DropNewest? then Some(Dropped)
               else None
  {
    hide Legal, After, Numbering, OnDisk, Ledger, Waiters, Admit, Ended;
    InitHolds(c);
    RunKeeps(c, Init(c), run);
    StoppingIffEnded(c, Init(c), run);
  }

  // ----- record, then replay -----

  predicate NoSmaller(a: TraceLimits, b: TraceLimits) {
    && a.maxChannelBytes <= b.maxChannelBytes && a.maxMessageTypeBytes <= b.maxMessageTypeBytes
    && a.maxPayloadBytes <= b.maxPayloadBytes
  }

  /** The recorder's ledger, at every moment of every run: every record accepted, and every one refused because the queue
      was full, is written, counted as dropped, queued or in the writer's hands, and the queue keeps to its bound. */
  lemma LedgerBalances(c: Config, run: seq<Action>)
    requires ValidConfig(c) && Legal(c, Init(c), run)
    ensures var s := After(c, Init(c), run);
            && s.stats.accepted == |s.accepted|
            && s.stats.accepted + s.refused == s.stats.written + s.stats.dropped + |s.queue| + Busy(s.writer)
            && s.stats.queueDepth == |s.queue| <= s.stats.highWatermark <= c.queueCapacity
  {
    hide Legal, After, Numbering, OnDisk, Phases, Waiters;
    InitHolds(c);
    RunKeeps(c, Init(c), run);
  }

  /** Whatever the interleaving of Record calls, writer steps and Stop: when the writer is gone with an Ok status, which
      is when Stop returns Ok, the file opens with the recorder's clocks and replays exactly the messages whose Record
      call returned Ok, in the order of acceptance, numbered from 1, each stamped with the latest capture time up to it,
      then a clean end. */
  lemma RecordThenReplay(c: Config, run: seq<Action>, limits: TraceLimits)
    requires ValidConfig(c) && Legal(c, Init(c), run) && NoSmaller(c.limits, limits)
    requires After(c, Init(c), run).writer.Gone? && After(c, Init(c), run).writerOk
    ensures var s := After(c, Init(c), run);
            && OpenAndReadHeader(s.file) == Opened(c.info)
            && |s.file| >= HEADER_BYTES && Open(s.file, limits) == (Stamp(s.accepted), Finished)
            && CarriesAll(s.accepted, Oks(c, Init(c), run)) && Sequenced(s.accepted, 1, 0)
            && Timed(c, s.accepted, Oks(c, Init(c), run))
            && s.stats.written == s.stats.accepted == |s.accepted| && s.stats.dropped == s.refused
  {
    hide Serialize, Concat, BuildFileHeader, Sequenced, Feed, OpenAndReadHeader, Stamp, Timed, Offsets;
    var s := After(c, Init(c), run);
    InitHolds(c);
    RunKeeps(c, Init(c), run);
    RunAccepts(c, Init(c), run);
    RunOffsets(c, Init(c), run);
    assert s.accepted[0..] == s.accepted;
    OffsetsAreTimed(c, s.accepted, Oks(c, Init(c), run));
    OpenedIffBuilt(s.file, c.info);
    var h := BuildFileHeader(c.info);
    assert s.accepted == s.onFile + [] + [] == s.onFile;
    assert s.file[HEADER_BYTES..] == Concat(s.accepted);
    ReplayOfTrace(s.accepted, limits, 1, 0);
  }

  /** A crash at any moment, even in the middle of a write, and even if the file then loses any part of its tail after
      the header: the replay delivers a front part of the accepted records, then ends cleanly or with one truncation
      error. */
  lemma CrashThenReplay(c: Config, run: seq<Action>, cut: nat, limits: TraceLimits) returns (whole: nat)
    requires ValidConfig(c) && Legal(c, Init(c), run) && NoSmaller(c.limits, limits)
    requires HEADER_BYTES <= cut <= |After(c, Init(c), run).file|
    ensures var s := After(c, Init(c), run);
            var (ts, last) := Open(s.file[..cut], limits);
            && OpenAndReadHeader(s.file[..cut]) == Opened(c.info)
            && whole <= |s.accepted| && ts == Stamp(s.accepted[..whole])
            && last in {Finished, Failed(HeaderTruncated), Failed(BodyTruncated)}
            && (!s.aborted && cut == |s.file| ==> last == Finished && whole == |s.onFile|)
  {
    hide Serialize, Concat, BuildFileHeader, Sequenced, Feed, OpenAndReadHeader, Stamp;
    var s := After(c, Init(c), run);
    InitHolds(c);
    RunKeeps(c, Init(c), run);
    OpenedIffBuilt(s.file[..cut], c.info);
    var h, all := BuildFileHeader(c.info), Concat(s.accepted);
    assert s.file[..cut] == (h + all)[..cut];
    assert s.file[..cut][HEADER_BYTES..] == all[..cut - HEADER_BYTES];
    whole := ReplayOfCut(s.accepted, cut - HEADER_BYTES, limits, 1, 0);
    if !s.aborted && cut == |s.file| {
      assert s.accepted[..|s.onFile|] == s.onFile;
      WholeIsUnique(s.accepted, whole, |s.onFile|);
    }
  }

  /** Records are not empty, so the number of whole records before a record boundary is determined. */
  lemma WholeIsUnique(rs: seq<PendingRecord>, a: nat, b: nat)
    requires a <= |rs| && b <= |rs| && |Concat(rs[..a])| <= |Concat(rs[..b])|
    requires a < |rs| ==> |Concat(rs[..b])| < |Concat(rs[..a + 1])|
    ensures a == b
  {
    hide Concat;
    if a < b {
      ConcatGrows(rs, a + 1, b);
    } else {
      ConcatGrows(rs, b, a);
    }
  }

  lemma {:induction false} ConcatGrows(rs: seq<PendingRecord>, a: nat, b: nat)
    requires a <= b <= |rs|
    ensures |Concat(rs[..a])| + (b - a) <= |Concat(rs[..b])|
    decreases rs
  {
    hide Serialize;
    if a > 0 {
      ConcatGrows(rs[1..], a - 1, b - 1);
      assert rs[..a][1..] == rs[1..][..a - 1] && rs[..b][1..] == rs[1..][..b - 1];
    } else if b > 0 {
      ConcatGrows(rs[1..], 0, b - 1);
      assert rs[..0] == [] && rs[1..][..0] == [] && rs[..b][1..] == rs[1..][..b - 1];
    }
  }

  // ----- the recorder as an object -----

  datatype WriteResult = Interrupted | WriteError | Moved(count: nat)

  /** WriteAll over the answers of successive write calls: all of the bytes, or a proper front part and failure. Answers
      run out only as a failure, and none claims more than was asked for. */
  method WriteAll(file: seq<Byte>, bytes: seq<Byte>, answers: seq<WriteResult>)
    returns (result: seq<Byte>, ok: bool, written: nat)
    ensures written <= |bytes| && result == file + bytes[..written]
    ensures ok <==> written == |bytes|
  {
    written, result := 0, file;
    var i := 0;
    while written < |bytes| && i < |answers|
      invariant 0 <= i <= |answers| && written <= |bytes| && result == file + bytes[..written]
    {
      match answers[i] {
        case Interrupted =>
        case WriteError => return result, false, written;
        case Moved(n) =>
          if n == 0 {
            return result, false, written;
          }
          var count := if n <= |bytes| - written then n else |bytes| - written;
          result := result + bytes[written..written + count];
          assert bytes[..written] + bytes[written..written + count] == bytes[..written + count];
          written := written + count;
      }
      i := i + 1;
    }
    ok := written == |bytes|;
  }

  class Recorder {
    const config: Config
    var queue: seq<PendingRecord>
    var writer: Writer
    var file: seq<Byte>
    var nextSequence: U64
    var lastOffset: U64
    var stopping: bool
    var writerOk: bool
    var stats: Stats
    var blocked: seq<Offer>
    ghost var accepted: seq<PendingRecord>
    ghost var onFile: seq<PendingRecord>
    ghost var aborted: bool
    ghost var refused: nat

    ghost function Now(): State
      reads this
    {
      State(queue, writer, file, nextSequence, lastOffset, stopping, writerOk, stats, blocked,
            accepted, onFile, aborted, refused)
    }

    constructor (config: Config)
      requires ValidConfig(config)
      ensures this.config == config && Now() == Init(config)
    {
      this.config := config;
      queue, writer, file := [], Idle, BuildFileHeader(config.info);
      nextSequence, lastOffset, stopping, writerOk := 1, 0, false, true;
      stats := Stats(0, 0, 0, 0, 0, HEADER_BYTES, 0, 0, false, false);
      blocked, accepted, onFile, aborted, refused := [], [], [], false, 0;
    }

    /** The tail of Record, under the lock. */
    method Push(o: Offer)
      modifies this
      ensures Now() == Admit(config, old(Now()), o)
    {
      var captured := 0;
      if o.captureNow >= config.info.monotonicStartNs {
        captured := o.captureNow - config.info.monotonicStartNs;
      }
      var offset := if captured < lastOffset then lastOffset else captured;
      lastOffset := offset;
      var record := PendingRecord(nextSequence, offset, o.channel, o.messageType, o.message);
      nextSequence := Successor(nextSequence);
      queue := queue + [record];
      accepted := accepted + [record];
      stats := stats.(accepted := stats.accepted + 1, queueDepth := |queue|,
                      highWatermark := Max(stats.highWatermark, |queue|));
    }

    /** Record until it returns or has to wait; copying the message may fail for want of memory. */
    method Record(o: Offer, copied: bool) returns (status: Option<Status>)
      modifies this
      ensures copied || !OfferAllowed(config, o) ==> (Now(), status) == EnterOf(config, old(Now()), o)
      ensures !copied && OfferAllowed(config, o) ==> (Now(), status) == (old(Now()), Some(Internal))
    {
      hide Admit;
      if |o.channel| == 0 || |o.messageType| == 0
         || |o.channel| > config.limits.maxChannelBytes || |o.messageType| > config.limits.maxMessageTypeBytes
         || |o.message.payload| > config.limits.maxPayloadBytes {
        return Some(InvalidArgument);
      }
      if !copied {
        return Some(Internal);
      }
      if stopping {
        return Some(Closed);
      }
      if !writerOk {
        return Some(TransportError);
      }
      if |queue| >= config.queueCapacity {
        if config.policy.DropNewest? {
          stats := stats.(dropped := stats.dropped + 1);
          refused := refused + 1;
          return Some(Dropped);
        }
        blocked := blocked + [o];
        return None;
      }
      Push(o);
      return Some(Ok);
    }

    /** A waiting Record call that found its condition true. */
    method Resume(caller: nat) returns (status: Status)
      requires Enabled(config, Now(), Wake(caller))
      modifies this
      ensures (Now(), status) == WakeOf(config, old(Now()), caller)
    {
      hide Admit;
      var offer := blocked[caller];
      blocked := Without(blocked, caller);
      if stopping {
        return Closed;
      }
      if !writerOk {
        return TransportError;
      }
      Push(offer);
      return Ok;
    }

    /** The writer takes the oldest record. */
    method TakeOne()
      requires Enabled(config, Now(), Take)
      modifies this
      ensures Now() == Apply(config, old(Now()), Take)
    {
      hide Serialize;
      writer := Holding(queue[0]);
      queue := queue[1..];
      stats := stats.(queueDepth := |queue|);
    }

    /** The writer serializes and writes the record it holds; on a failure it runs FailWriter. */
    method WriteHeld(answers: seq<WriteResult>) returns (ok: bool, written: nat)
      requires writer.Holding?
      modifies this
      ensures ok ==> Now() == Apply(config, old(Now()), Write)
      ensures !ok ==> written < TotalSize(old(writer.record)) && Now() == Apply(config, old(Now()), Fail(written))
    {
      hide Serialize, Failure;
      var record := writer.record;
      var serialized := SerializeRecord(record);
      var result := file;
      ok, written := false, 0;
      if serialized.Some? {
        result, ok, written := WriteAll(file, serialized.value, answers);
      }
      assert result == file + Serialize(record)[..written];
      file := result;
      if ok {
        assert Serialize(record)[..written] == Serialize(record);
        onFile := onFile + [record];
        writer := Wrote(record);
      } else {
        FailWriter();
      }
    }

    /** Gives up the record in hand and the whole queue, and shuts the recorder. */
    method FailWriter()
      requires writer.Holding?
      modifies this
      ensures Now() == Failure(old(Now()))
    {
      stats := stats.(ioErrors := stats.ioErrors + 1, dropped := stats.dropped + |queue| + 1, queueDepth := 0,
                      stopping := true);
      queue := [];
      writerOk, stopping, aborted := false, true, true;
      writer := Leaving;
    }

    /** The writer counts the record it wrote. */
    method CommitOne()
      requires writer.Wrote?
      modifies this
      ensures Now() == Apply(config, old(Now()), Commit)
    {
      hide Serialize;
      stats := stats.(written := stats.written + 1, bytesWritten := stats.bytesWritten + TotalSize(writer.record));
      writer := Idle;
    }

    /** The end of the writer loop: synchronize, close, and publish the final status. */
    method FinishWriter(syncError: bool, closeError: bool)
      requires Enabled(config, Now(), Finish(syncError, closeError))
      modifies this
      ensures Now() == Apply(config, old(Now()), Finish(syncError, closeError))
    {
      hide Serialize;
      if writerOk && (syncError || closeError) {
        stats := stats.(ioErrors := stats.ioErrors + 1);
        writerOk := false;
      }
      writer := Gone;
      stats := stats.(stopped := true, stopping := true);
    }

    /** Stop: closes the door at once; its status is final when the writer is gone, and a timeout before that. */
    method Stop() returns (status: Status)
      modifies this
      ensures Now() == Apply(config, old(Now()), Action.Stop)
      ensures status == if !writer.Gone? then Timeout else if writerOk then Ok else TransportError
    {
      hide Serialize;
      if !stopping {
        stopping := true;
        stats := stats.(stopping := true);
      }
      if !writer.Gone? {
        return Timeout;
      }
      return if writerOk then Ok else TransportError;
    }
  }
}
