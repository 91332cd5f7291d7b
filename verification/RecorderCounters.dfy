/** The statistics of the recorder counted from the events of a run. */
module RecorderCounters {
  import opened Bytes
  import opened TraceFormat
  import opened TraceReplay
  import opened TraceRecorder

  datatype Counts = Counts(accepted: nat, written: nat, dropped: nat, timeouts: nat, ioErrors: nat, bytes: nat)

  function CountsOf(st: Stats): Counts {
    Counts(st.accepted, st.written, st.dropped, st.timeouts, st.ioErrors, st.bytesWritten)
  }

  function Nothing(): Counts {
    Counts(0, 0, 0, 0, 0, 0)
  }

  function Add(a: Counts, b: Counts): Counts {
    Counts(a.accepted + b.accepted, a.written + b.written, a.dropped + b.dropped, a.timeouts + b.timeouts,
           a.ioErrors + b.ioErrors, a.bytes + b.bytes)
  }

  /** What one action adds, in numbers. A good record is accepted if there is room and dropped if there is none and the
      policy says so; a caller that waits is accepted when it wakes to a running recorder, or times out. A record counts
      as written with all its bytes once the writer has written it. A failed write loses it and everything queued, and
      counts one error; so does a recorder that was well until its file failed to synchronise or to close. */
  function Event(c: Config, s: State, a: Action): Counts
    requires Enabled(c, s, a)
  {
    match a
    case Enter(o) =>
      if !OfferAllowed(c, o) || s.stopping then Nothing()
      else if |s.queue| < c.queueCapacity then Nothing().(accepted := 1)
      else if c.policy.DropNewest? then Nothing().(dropped := 1)
      else Nothing()
    case Wake(_) => if s.stopping then Nothing() else Nothing().(accepted := 1)
    case Expire(_) => Nothing().(timeouts := 1)
    case Commit =>
      var r := s.writer.record;
      Nothing().(written := 1, bytes := 116 + |r.channel| + |r.messageType| + |r.message.payload|)
    case Fail(_) => Nothing().(dropped := |s.queue| + 1, ioErrors := 1)
    case Finish(syncError, closeError) =>
      if !s.aborted && (syncError || closeError) then Nothing().(ioErrors := 1) else Nothing()
    case _ => Nothing()
  }

  function Events(c: Config, s: State, run: seq<Action>): Counts
    requires Legal(c, s, run)
    decreases |run|
  {
    if run == [] then Nothing() else Add(Event(c, s, run[0]), Events(c, Apply(c, s, run[0]), run[1..]))
  }

  /** The longest the queue has been since the run began. */
  function Longest(c: Config, s: State, run: seq<Action>): nat
    requires Legal(c, s, run)
    decreases |run|
  {
    if run == [] then |s.queue| else Max(|s.queue|, Longest(c, Apply(c, s, run[0]), run[1..]))
  }

  /** Until the writer is gone the recorder is well exactly if FailWriter has not run. */
  predicate Sane(s: State) {
    && (!s.writerOk ==> s.stopping) && (!s.writer.Gone? ==> (s.writerOk <==> !s.aborted))
    && |s.queue| <= s.stats.highWatermark
  }

  lemma StepCounts(c: Config, s: State, a: Action)
    requires Enabled(c, s, a) && Sane(s)
    ensures CountsOf(Apply(c, s, a).stats) == Add(CountsOf(s.stats), Event(c, s, a))
    ensures Apply(c, s, a).stats.highWatermark == Max(s.stats.highWatermark, |Apply(c, s, a).queue|)
  {
    hide Serialize, OfferAllowed, Offset, Successor;
  }

  lemma {:induction false} RunCounts(c: Config, s: State, run: seq<Action>)
    requires ValidConfig(c) && Inv(c, s) && Legal(c, s, run) && Sane(s)
    ensures CountsOf(After(c, s, run).stats) == Add(CountsOf(s.stats), Events(c, s, run))
    ensures After(c, s, run).stats.highWatermark == Max(s.stats.highWatermark, Longest(c, s, run))
    decreases |run|
  {
    hide Inv, Apply, Enabled, Event;
    if run != [] {
      StepCounts(c, s, run[0]);
      StepKeeps(c, s, run[0]);
      StaysSane(c, s, run[0]);
      RunCounts(c, Apply(c, s, run[0]), run[1..]);
    }
  }

  lemma StaysSane(c: Config, s: State, a: Action)
    requires ValidConfig(c) && Inv(c, s) && Enabled(c, s, a) && Sane(s)
    ensures Sane(Apply(c, s, a))
  {
    hide Serialize, OfferAllowed, Offset, Numbering, OnDisk, Concat, TotalSize;
  }

  /** From the start of the recorder its statistics are the events of the run, and 40 bytes of file header besides; the high
      watermark is the longest its queue has ever been. */
  lemma CountersAreEvents(c: Config, run: seq<Action>)
    requires ValidConfig(c) && Legal(c, Init(c), run)
    ensures var st := After(c, Init(c), run).stats;
            && CountsOf(st) == Add(Counts(0, 0, 0, 0, 0, 40), Events(c, Init(c), run))
            && st.highWatermark == Longest(c, Init(c), run)
  {
    hide Inv, Legal, After, Events, Longest;
    InitHolds(c);
    RunCounts(c, Init(c), run);
  }
}
