/** The streaming replayer: opening a trace file, delivering its records one by one, and what damage does to it. */
module TraceReplay {
  import Crc32
  import opened Bytes
  import opened TraceFormat

  // ----- file header -----

  datatype TraceFileInfo = TraceFileInfo(wallClockStartNs: U64, monotonicStartNs: U64)

  datatype Opened = Opened(info: TraceFileInfo) | TruncatedHeader | WrongMagic | Unsupported | HeaderChecksum

  const HEADER_BYTES: nat := 40

  /** ARTRACE1 */
  function FileMagic(): (s: seq<Byte>)
    ensures |s| == 8
  {
    [0x41, 0x52, 0x54, 0x52, 0x41, 0x43, 0x45, 0x31]
  }

  /** format version, header size, wall clock, monotonic clock, reserved */
  function HeaderWidths(): (w: seq<nat>)
    ensures |w| == 5
  {
    [2, 2, 8, 8, 8]
  }

  lemma HeaderSizes()
    ensures Sum(HeaderWidths()) == 28
  {
    SumConcat([2, 2], [8, 8, 8]);
    SumOfThree(8, 8, 8);
    assert HeaderWidths() == [2, 2] + [8, 8, 8] && [2, 2][1..] == [2];
    assert Sum([2]) == 2;
  }

  function HeaderBody(info: TraceFileInfo): (s: seq<Byte>)
    ensures |s| == 36
  {
    HeaderSizes();
    FileMagic() + Encode(HeaderWidths(), [1, HEADER_BYTES, info.wallClockStartNs, info.monotonicStartNs, 0])
  }

  function BuildFileHeader(info: TraceFileInfo): (s: seq<Byte>)
    ensures |s| == HEADER_BYTES
  {
    HeaderBody(info) + ChecksumBytes(HeaderBody(info))
  }

  lemma HeaderShaped(s: seq<Byte>)
    requires |s| == Sum(HeaderWidths())
    ensures var v := Decode(HeaderWidths(), s); v[2] < TWO64 && v[3] < TWO64
  {
    hide Decode, Encode;
    EncodeOfDecode(HeaderWidths(), s);
    PowValues();
  }

  function OpenAndReadHeader(file: seq<Byte>): Opened {
    if |file| < HEADER_BYTES then TruncatedHeader
    else if file[..8] != FileMagic() then WrongMagic
    else
      HeaderSizes();
      var v := Decode(HeaderWidths(), file[8..36]);
      HeaderShaped(file[8..36]);
      if v[0] != 1 || v[1] != HEADER_BYTES || v[4] != 0 then Unsupported
      else if Number(ChecksumBytes(file[..36])) != Number(file[36..HEADER_BYTES]) then HeaderChecksum
      else Opened(TraceFileInfo(v[2], v[3]))
  }

  /** A file opens exactly when it begins with a header that BuildFileHeader writes, and then with its clocks. */
  lemma OpenedIffBuilt(file: seq<Byte>, info: TraceFileInfo)
    ensures OpenAndReadHeader(file) == Opened(info) <==> BuildFileHeader(info) <= file
  {
    hide Decode, Encode, Number, ChecksumBytes, FileMagic;
    if |file| >= HEADER_BYTES {
      HeaderSizes();
      PowValues();
      var values := [1, HEADER_BYTES, info.wallClockStartNs, info.monotonicStartNs, 0];
      DecodeOfEncode(HeaderWidths(), values);
      EncodeOfDecode(HeaderWidths(), file[8..36]);
      assert file[..36] == file[..8] + file[8..36];
      assert file[..HEADER_BYTES] == file[..36] + file[36..HEADER_BYTES];
      FourBytes(file[36..HEADER_BYTES]);
      FourBytes(ChecksumBytes(file[..36]));
      if OpenAndReadHeader(file) == Opened(info) {
        assert Decode(HeaderWidths(), file[8..36]) == values;
        assert file[..36] == HeaderBody(info);
      }
      if BuildFileHeader(info) <= file {
        assert file[..HEADER_BYTES] == BuildFileHeader(info);
        assert file[..36] == BuildFileHeader(info)[..36] == HeaderBody(info);
        assert file[..8] == HeaderBody(info)[..8] && file[8..36] == HeaderBody(info)[8..];
        assert file[36..HEADER_BYTES] == BuildFileHeader(info)[36..];
      }
    }
  }

  // ----- replay -----

  datatype ReplayStats = ReplayStats(
    recordsRead: nat, payloadBytes: nat, checksumMismatches: nat, sequenceMismatches: nat,
    truncatedRecords: nat, formatErrors: nat)

  datatype ReplayState = ReplayState(
    position: nat, expectedSequence: U64, lastOffsetNs: U64, eof: bool, terminalError: Option<TraceError>,
    stats: ReplayStats)

  datatype Outcome = Delivered(traceRecord: TraceRecord) | Finished | Failed(error: TraceError)

  function Initial(): ReplayState {
    ReplayState(HEADER_BYTES, 1, 0, false, None, ReplayStats(0, 0, 0, 0, 0, 0))
  }

  function CountError(stats: ReplayStats, e: TraceError): ReplayStats {
    match e
    case HeaderTruncated | BodyTruncated => stats.(truncatedRecords := stats.truncatedRecords + 1)
    case ChecksumMismatch => stats.(checksumMismatches := stats.checksumMismatches + 1)
    case SequenceMismatch => stats.(sequenceMismatches := stats.sequenceMismatches + 1)
    case _ => stats.(formatErrors := stats.formatErrors + 1)
  }

  function Successor(n: U64): U64 {
    (n + 1) % TWO64
  }

  predicate InOrder(r: PendingRecord, expected: U64, floor: U64) {
    r.recordSequence == expected && (r.recordSequence > 1 ==> r.monotonicOffsetNs >= floor)
  }

  /** NextLocked. The stream position after a refused record is not kept: it is never read before Reset. */
  function NextOf(file: seq<Byte>, limits: TraceLimits, s: ReplayState): (ReplayState, Outcome)
    requires s.position <= |file|
  {
    if s.terminalError.Some? then (s, Failed(s.terminalError.value))
    else if s.eof then (s, Finished)
    else match Parse(file[s.position..], limits)
      case EndOfFile => (s.(eof := true), Finished)
      case Bad(e) => (s.(terminalError := Some(e), stats := CountError(s.stats, e)), Failed(e))
      case Good(t, size) =>
        if !InOrder(t.record, s.expectedSequence, s.lastOffsetNs) then
          (s.(terminalError := Some(SequenceMismatch), stats := CountError(s.stats, SequenceMismatch)),
           Failed(SequenceMismatch))
        else
          (ReplayState(s.position + size, Successor(s.expectedSequence), t.record.monotonicOffsetNs, false, None,
                  s.stats.(recordsRead := s.stats.recordsRead + 1,
                  payloadBytes := s.stats.payloadBytes + |t.record.message.payload|)),
           Delivered(t))
  }

  /** Everything that a live replayer still delivers, and how it ends, as a function of the bytes left. */
  function Feed(input: seq<Byte>, limits: TraceLimits, expected: U64, floor: U64): (seq<TraceRecord>, Outcome)
    decreases |input|
  {
    match Parse(input, limits)
    case EndOfFile => ([], Finished)
    case Bad(e) => ([], Failed(e))
    case Good(t, size) =>
      if !InOrder(t.record, expected, floor) then ([], Failed(SequenceMismatch))
      else
        ParsedSize(input, limits);
        var (more, last) := Feed(input[size..], limits, Successor(expected), t.record.monotonicOffsetNs);
        ([t] + more, last)
  }

  lemma ParsedSize(input: seq<Byte>, limits: TraceLimits)
    ensures Parse(input, limits).Good? ==> MINIMUM_BYTES <= Parse(input, limits).size <= |input|
  {
    hide FieldsOf, Number, ChecksumBytes;
  }

  /** The same for a replayer in any state: one at its end or in error only repeats that. */
  function FeedFrom(file: seq<Byte>, limits: TraceLimits, s: ReplayState): (seq<TraceRecord>, Outcome)
    requires s.position <= |file|
  {
    if s.terminalError.Some? then ([], Failed(s.terminalError.value))
    else if s.eof then ([], Finished)
    else Feed(file[s.position..], limits, s.expectedSequence, s.lastOffsetNs)
  }

  /** Calling Next until it delivers no more gives exactly what Feed promises. */
  lemma NextFeeds(file: seq<Byte>, limits: TraceLimits, s: ReplayState)
    requires s.position <= |file|
    ensures var (after, outcome) := NextOf(file, limits, s);
            var promised := FeedFrom(file, limits, s);
            if outcome.Delivered? then
              && s.position < after.position <= |file|
              && promised == ([outcome.traceRecord] + FeedFrom(file, limits, after).0, FeedFrom(file, limits, after).1)
            else promised == ([], outcome)
  {
    hide Parse, CountError, InOrder;
    var input := file[s.position..];
    ParsedSize(input, limits);
    var p := Parse(input, limits);
    if p.Good? {
      assert input[p.size..] == file[s.position + p.size..];
    }
  }

  function Open(file: seq<Byte>, limits: TraceLimits): (seq<TraceRecord>, Outcome)
    requires |file| >= HEADER_BYTES
  {
    Feed(file[HEADER_BYTES..], limits, 1, 0)
  }

  /** Once Next has failed or finished it repeats that answer for ever and the replayer does not change again, whatever
      becomes of the file meanwhile. */
  lemma EndIsSticky(file: seq<Byte>, later: seq<Byte>, limits: TraceLimits, s: ReplayState)
    requires s.position <= |file| && s.position <= |later|
    ensures var (after, outcome) := NextOf(file, limits, s);
            !outcome.Delivered? ==> after.position <= |later| && NextOf(later, limits, after) == (after, outcome)
  {
    hide Parse;
  }

  class Replayer {
    const file: seq<Byte>
    const limits: TraceLimits
    var position: nat
    var expectedSequence: U64
    var lastOffsetNs: U64
    var eof: bool
    var terminalError: Option<TraceError>
    var stats: ReplayStats

    ghost predicate Valid()
      reads this
    {
      HEADER_BYTES <= position <= |file|
    }

    ghost function State(): ReplayState
      reads this
    {
      ReplayState(position, expectedSequence, lastOffsetNs, eof, terminalError, stats)
    }

    constructor (file: seq<Byte>, limits: TraceLimits)
      requires OpenAndReadHeader(file).Opened?
      ensures Valid() && State() == Initial() && this.file == file && this.limits == limits
    {
      this.file := file;
      this.limits := limits;
      position := HEADER_BYTES;
      expectedSequence, lastOffsetNs, eof, terminalError := 1, 0, false, None;
      stats := ReplayStats(0, 0, 0, 0, 0, 0);
    }

    method Next() returns (outcome: Outcome)
      requires Valid()
      modifies this
      ensures Valid()
      ensures (State(), outcome) == NextOf(file, limits, old(State()))
    {
      hide Parse;
      if terminalError.Some? {
        return Failed(terminalError.value);
      }
      if eof {
        return Finished;
      }
      ParsedSize(file[position..], limits);
      match Parse(file[position..], limits) {
        case EndOfFile =>
          eof := true;
          return Finished;
        case Bad(e) =>
          stats := CountError(stats, e);
          terminalError := Some(e);
          return Failed(e);
        case Good(t, size) =>
          if t.record.recordSequence != expectedSequence
             || (t.record.recordSequence > 1 && t.record.monotonicOffsetNs < lastOffsetNs) {
            stats := stats.(sequenceMismatches := stats.sequenceMismatches + 1);
            terminalError := Some(SequenceMismatch);
            return Failed(SequenceMismatch);
          }
          position := position + size;
          expectedSequence := Successor(expectedSequence);
          lastOffsetNs := t.record.monotonicOffsetNs;
          stats := stats.(recordsRead := stats.recordsRead + 1,
                          payloadBytes := stats.payloadBytes + |t.record.message.payload|);
          return Delivered(t);
      }
    }

    method Reset()
      requires Valid()
      modifies this
      ensures Valid() && State() == Initial()
    {
      position := HEADER_BYTES;
      expectedSequence, lastOffsetNs, eof, terminalError := 1, 0, false, None;
      stats := ReplayStats(0, 0, 0, 0, 0, 0);
    }

    /** Replay without timing: hands records to the callback until it refuses one or the trace ends. What was
        handed over is a prefix of what Feed promises, all of it unless the callback stopped the replay. */
    method Replay(accepts: TraceRecord -> bool) returns (handed: seq<TraceRecord>, stopped: bool, last: Outcome)
      requires Valid()
      modifies this
      ensures Valid()
      ensures var promised := FeedFrom(file, limits, old(State()));
              && handed <= promised.0
              && (!stopped ==> (handed, last) == promised && forall t :: t in handed ==> accepts(t))
              && (stopped ==> last.Delivered? && handed != [] && handed[|handed| - 1] == last.traceRecord
                              && !accepts(last.traceRecord))
    {
      hide NextOf, FeedFrom;
      handed, stopped := [], false;
      ghost var promised := FeedFrom(file, limits, State());
      assert handed + promised.0 == promised.0;
      while true
        invariant Valid()
        invariant promised == (handed + FeedFrom(file, limits, State()).0, FeedFrom(file, limits, State()).1)
        invariant forall t :: t in handed ==> accepts(t)
        decreases |file| - position
      {
        ghost var rest := FeedFrom(file, limits, State()).0;
        NextFeeds(file, limits, State());
        last := Next();
        if !last.Delivered? {
          assert handed + [] == handed;
          return;
        }
        assert handed + rest == handed + [last.traceRecord] + FeedFrom(file, limits, State()).0;
        handed := handed + [last.traceRecord];
        if !accepts(last.traceRecord) {
          stopped := true;
          return;
        }
      }
    }
  }

  // ----- traces -----

  function Concat(rs: seq<PendingRecord>): seq<Byte> {
    if rs == [] then [] else Serialize(rs[0]) + Concat(rs[1..])
  }

  function Stamp(rs: seq<PendingRecord>): (ts: seq<TraceRecord>)
    ensures |ts| == |rs|
  {
    if rs == [] then [] else [TraceRecord(rs[0], ChecksumOf(rs[0]))] + Stamp(rs[1..])
  }

  /** Numbered from first upward, with offsets that never fall. */
  predicate Sequenced(rs: seq<PendingRecord>, first: U64, floor: U64) {
    rs == [] ||
    (rs[0].recordSequence == first && rs[0].monotonicOffsetNs >= floor
     && Sequenced(rs[1..], Successor(first), rs[0].monotonicOffsetNs))
  }

  predicate Playable(rs: seq<PendingRecord>, limits: TraceLimits) {
    forall i :: 0 <= i < |rs| ==> Encodable(rs[i]) && Allowed(rs[i], limits)
  }

  lemma FeedFirst(r: PendingRecord, rest: seq<Byte>, limits: TraceLimits, first: U64, floor: U64)
    requires Encodable(r) && Allowed(r, limits) && r.recordSequence == first
    requires r.recordSequence > 1 ==> r.monotonicOffsetNs >= floor
    ensures var (more, last) := Feed(rest, limits, Successor(first), r.monotonicOffsetNs);
            Feed(Serialize(r) + rest, limits, first, floor) == ([TraceRecord(r, ChecksumOf(r))] + more, last)
  {
    hide Feed, Parse, Serialize, Encodable, Allowed, ChecksumOf, TotalSize;
    ParseOfSerialize(r, rest, limits);
    assert (Serialize(r) + rest)[TotalSize(r)..] == rest;
    FeedGood(Serialize(r) + rest, limits, first, floor, TraceRecord(r, ChecksumOf(r)), TotalSize(r));
  }

  lemma FeedGood(input: seq<Byte>, limits: TraceLimits, expected: U64, floor: U64, t: TraceRecord, size: nat)
    requires Parse(input, limits) == Good(t, size) && size <= |input| && InOrder(t.record, expected, floor)
    ensures var (more, last) := Feed(input[size..], limits, Successor(expected), t.record.monotonicOffsetNs);
            Feed(input, limits, expected, floor) == ([t] + more, last)
  {
    hide Parse;
  }

  /** Every record of a trace, cut at any byte, is delivered if it lies before the cut; then a clean end if the cut
      is between records, and otherwise one truncation error. */
  lemma {:induction false} ReplayOfCut(rs: seq<PendingRecord>, cut: nat, limits: TraceLimits, first: U64, floor: U64)
    returns (whole: nat)
    requires Playable(rs, limits) && Sequenced(rs, first, floor) && cut <= |Concat(rs)|
    ensures whole <= |rs| && |Concat(rs[..whole])| <= cut
    ensures whole < |rs| ==> cut < |Concat(rs[..whole + 1])|
    ensures Feed(Concat(rs)[..cut], limits, first, floor).0 == Stamp(rs[..whole])
    ensures var last := Feed(Concat(rs)[..cut], limits, first, floor).1;
            if cut == |Concat(rs[..whole])| then last == Finished
            else last == Failed(HeaderTruncated) || last == Failed(BodyTruncated)
    decreases |rs|
  {
    hide Parse, Feed, Serialize, Encodable, Allowed, ChecksumOf;
    if rs == [] || cut < TotalSize(rs[0]) {
      whole := 0;
      assert rs[..0] == [];
      if cut == 0 {
        EmptyInput(limits);
        assert Concat(rs)[..0] == [];
      } else {
        assert Concat(rs)[..cut] == Serialize(rs[0])[..cut];
        ParseOfCut(rs[0], cut, limits);
      }
      FeedEnds(Concat(rs)[..cut], limits, first, floor);
      if rs != [] {
        assert rs[..1] == [rs[0]] && [rs[0]][1..] == [];
      }
    } else {
      var n := TotalSize(rs[0]);
      var tail := Concat(rs[1..])[..cut - n];
      var w := ReplayOfCut(rs[1..], cut - n, limits, Successor(first), rs[0].monotonicOffsetNs);
      whole := w + 1;
      assert Concat(rs)[..cut] == Serialize(rs[0]) + tail;
      FeedFirst(rs[0], tail, limits, first, floor);
      assert rs[..whole][1..] == rs[1..][..w];
      if whole < |rs| {
        assert rs[..whole + 1][1..] == rs[1..][..w + 1];
      }
    }
  }

  lemma EmptyInput(limits: TraceLimits)
    ensures Parse([], limits) == EndOfFile
  {
  }

  /** An undamaged trace is delivered whole and in order, then ends cleanly. */
  lemma ReplayOfTrace(rs: seq<PendingRecord>, limits: TraceLimits, first: U64, floor: U64)
    requires Playable(rs, limits) && Sequenced(rs, first, floor)
    ensures Feed(Concat(rs), limits, first, floor) == (Stamp(rs), Finished)
  {
    hide Feed, Concat, Stamp, Playable, Sequenced;
    var n := |Concat(rs)|;
    var whole := ReplayOfCut(rs, n, limits, first, floor);
    assert Concat(rs)[..n] == Concat(rs);
    if whole < |rs| {
      ConcatPrefix(rs, whole + 1);
    }
    assert rs[..|rs|] == rs;
  }

  lemma {:induction false} ConcatPrefix(rs: seq<PendingRecord>, k: nat)
    requires k <= |rs|
    ensures Concat(rs[..k]) <= Concat(rs)
  {
    hide Serialize;
    if k > 0 {
      ConcatPrefix(rs[1..], k - 1);
      assert rs[..k][1..] == rs[1..][..k - 1];
    }
  }

  function Records(ts: seq<TraceRecord>): seq<PendingRecord> {
    if ts == [] then [] else [ts[0].record] + Records(ts[1..])
  }

  /** Whatever a file holds, the records delivered from it are a front part of its bytes exactly as the serializer
      writes them, and all of its bytes if the replay ended cleanly. */
  lemma {:induction false} DeliveredIsSerialized(input: seq<Byte>, limits: TraceLimits, first: U64, floor: U64)
    ensures var (ts, last) := Feed(input, limits, first, floor);
            && Concat(Records(ts)) <= input && Playable(Records(ts), limits) && ts == Stamp(Records(ts))
            && (last.Finished? ==> Concat(Records(ts)) == input) && !last.Delivered?
    decreases |input|
  {
    hide Parse, Serialize, Encodable, Allowed, ChecksumOf;
    match Parse(input, limits) {
      case EndOfFile =>
        OnlyEmptyEnds(input, limits);
      case Bad(_) =>
      case Good(t, size) =>
        SerializeOfParse(input, limits);
        ParsedSize(input, limits);
        if InOrder(t.record, first, floor) {
          DeliveredIsSerialized(input[size..], limits, Successor(first), t.record.monotonicOffsetNs);
          var more := Feed(input[size..], limits, Successor(first), t.record.monotonicOffsetNs).0;
          assert ([t] + more)[1..] == more;
          assert input == input[..size] + input[size..];
          assert Records([t] + more)[1..] == Records(more);
        }
    }
  }

  /** Whatever a file holds, the records delivered from it are numbered without a gap from the first expected number on, and
      their offsets do not fall, except that a record with number 1 may start afresh. */
  lemma {:induction false} DeliveredInOrder(input: seq<Byte>, limits: TraceLimits, first: U64, floor: U64, i: nat)
    requires i < |Feed(input, limits, first, floor).0|
    ensures var ts := Feed(input, limits, first, floor).0;
            && ts[i].record.recordSequence == (first + i) % TWO64
            && (ts[i].record.recordSequence > 1 ==>
                  ts[i].record.monotonicOffsetNs >= if i == 0 then floor else ts[i - 1].record.monotonicOffsetNs)
    decreases |input|
  {
    hide Parse, Feed;
    var size := FeedHead(input, limits, first, floor);
    if i > 0 {
      var t := Feed(input, limits, first, floor).0[0];
      DeliveredInOrder(input[size..], limits, Successor(first), t.record.monotonicOffsetNs, i - 1);
      NumberAfter(first, i);
    }
  }

  lemma NumberAfter(first: U64, i: nat)
    requires i > 0
    ensures (Successor(first) + (i - 1)) % TWO64 == (first + i) % TWO64
  {
  }

  lemma FeedHead(input: seq<Byte>, limits: TraceLimits, first: U64, floor: U64) returns (size: nat)
    requires |Feed(input, limits, first, floor).0| > 0
    ensures 0 < size <= |input|
    ensures var ts := Feed(input, limits, first, floor).0;
            && ts[0].record.recordSequence == first
            && (first > 1 ==> ts[0].record.monotonicOffsetNs >= floor)
            && ts[1..] == Feed(input[size..], limits, Successor(first), ts[0].record.monotonicOffsetNs).0
  {
    hide Parse;
    size := Parse(input, limits).size;
    ParsedSize(input, limits);
  }

  /** A whole record with another number than the one expected, or one after the first whose offset falls, ends the replay
      with a sequence error after everything before it; a gap and a repetition alike. */
  lemma {:induction false} OutOfOrderIsRefused(
    rs: seq<PendingRecord>, r: PendingRecord, rest: seq<Byte>, limits: TraceLimits, first: U64, floor: U64)
    requires Playable(rs, limits) && Sequenced(rs, first, floor) && Encodable(r) && Allowed(r, limits)
    requires var last := if rs == [] then floor else rs[|rs| - 1].monotonicOffsetNs;
             r.recordSequence != (first + |rs|) % TWO64 || (r.recordSequence > 1 && r.monotonicOffsetNs < last)
    ensures Feed(Concat(rs) + (Serialize(r) + rest), limits, first, floor) == (Stamp(rs), Failed(SequenceMismatch))
    decreases |rs|
  {
    hide Feed, Serialize, Encodable, Allowed, ChecksumOf;
    var tail := Serialize(r) + rest;
    if rs == [] {
      assert Concat(rs) + tail == tail;
      RefusedFirst(r, rest, limits, first, floor);
    } else {
      assert (Successor(first) + |rs[1..]|) % TWO64 == (first + |rs|) % TWO64;
      OutOfOrderIsRefused(rs[1..], r, rest, limits, Successor(first), rs[0].monotonicOffsetNs);
      assert Concat(rs) + tail == Serialize(rs[0]) + (Concat(rs[1..]) + tail);
      FeedFirst(rs[0], Concat(rs[1..]) + tail, limits, first, floor);
    }
  }

  lemma RefusedFirst(r: PendingRecord, rest: seq<Byte>, limits: TraceLimits, first: U64, floor: U64)
    requires Encodable(r) && Allowed(r, limits)
    requires r.recordSequence != first || (r.recordSequence > 1 && r.monotonicOffsetNs < floor)
    ensures Feed(Serialize(r) + rest, limits, first, floor) == ([], Failed(SequenceMismatch))
  {
    hide Parse, Serialize, Encodable, Allowed, ChecksumOf, TotalSize;
    ParseOfSerialize(r, rest, limits);
  }

  /** What a Next that is not repeated counts: a record and its payload, or one fault: truncation, a wrong checksum, a wrong
      number, or any other fault of the format. */
  lemma ErrorsAreCounted(file: seq<Byte>, limits: TraceLimits, s: ReplayState)
    requires s.position <= |file| && s.terminalError.None? && !s.eof
    ensures var (after, outcome) := NextOf(file, limits, s);
            var u, v := s.stats, after.stats;
            && v.truncatedRecords == u.truncatedRecords
                 + (if outcome == Failed(HeaderTruncated) || outcome == Failed(BodyTruncated) then 1 else 0)
            && v.checksumMismatches == u.checksumMismatches + (if outcome == Failed(ChecksumMismatch) then 1 else 0)
            && v.sequenceMismatches == u.sequenceMismatches + (if outcome == Failed(SequenceMismatch) then 1 else 0)
            && v.recordsRead == u.recordsRead + (if outcome.Delivered? then 1 else 0)
            && v.payloadBytes == u.payloadBytes + (if outcome.Delivered? then |outcome.traceRecord.record.message.payload| else 0)
            && (outcome.Failed? ==> v.truncatedRecords + v.checksumMismatches + v.sequenceMismatches + v.formatErrors
                                    == u.truncatedRecords + u.checksumMismatches + u.sequenceMismatches + u.formatErrors + 1)
            && (!outcome.Failed? ==> v.formatErrors == u.formatErrors)
  {
    hide Parse;
  }

  /** The file header in absolute offsets: version, size, the two clocks, a zero and the checksum. */
  lemma HeaderLayout(info: TraceFileInfo)
    ensures var p := BuildFileHeader(info);
            && |p| == 40 && p[0..8] == FileMagic() && HasAt(p, 8, 2, 1) && HasAt(p, 10, 2, 40)
            && HasAt(p, 12, 8, info.wallClockStartNs) && HasAt(p, 20, 8, info.monotonicStartNs) && HasAt(p, 28, 8, 0)
            && p[36..] == Crc32.WordBytes(Crc32.Checksum(p[..36]))
  {
    var p, w := BuildFileHeader(info), HeaderWidths();
    var v: seq<nat> := [1, HEADER_BYTES, info.wallClockStartNs, info.monotonicStartNs, 0];
    HeaderSizes();
    HeaderOffsets();
    hide Encode, Sum, HasAt, ChecksumBytes, Crc32.Checksum, Crc32.WordBytes;
    assert p[..36] == HeaderBody(info);
    assert p[8..36] == Encode(w, v);
    TableAt(p, 8, w, v, 0, 0);
    TableAt(p, 8, w, v, 1, 2);
    TableAt(p, 8, w, v, 2, 4);
    TableAt(p, 8, w, v, 3, 12);
    TableAt(p, 8, w, v, 4, 20);
    ChecksumIs(p[..36]);
  }

  lemma ChecksumIs(body: seq<Byte>)
    ensures ChecksumBytes(body) == Crc32.WordBytes(Crc32.Checksum(body))
  {
  }

  lemma HeaderOffsets()
    ensures var w := HeaderWidths();
            Sum(w[..0]) == 0 && Sum(w[..1]) == 2 && Sum(w[..2]) == 4 && Sum(w[..3]) == 12 && Sum(w[..4]) == 20
  {
    var w := HeaderWidths();
    assert w[..0] == [] && Sum([]) == 0;
    hide Sum;
    SumStep(w, 0);
    SumStep(w, 1);
    SumStep(w, 2);
    SumStep(w, 3);
  }

  lemma OnlyEmptyEnds(input: seq<Byte>, limits: TraceLimits)
    requires Parse(input, limits).EndOfFile?
    ensures input == []
  {
  }

  /** Overwriting at most four consecutive bytes anywhere in a trace, with anything, stops the replayer with an error
      at the first record touched; every record before it is delivered unchanged. */
  lemma {:induction false} ReplayOfBurst(rs: seq<PendingRecord>, y: seq<Byte>, at: nat, n: nat, limits: TraceLimits,
                                         first: U64, floor: U64)
    returns (touched: nat)
    requires Playable(rs, limits) && Sequenced(rs, first, floor)
    requires |y| == |Concat(rs)| && n <= 4 && at + n <= |y| && y != Concat(rs)
    requires y[..at] == Concat(rs)[..at] && y[at + n..] == Concat(rs)[at + n..]
    ensures touched < |rs| && Concat(rs[..touched]) <= y && !(Concat(rs[..touched + 1]) <= y)
    ensures Feed(y, limits, first, floor).0 == Stamp(rs[..touched])
    ensures Feed(y, limits, first, floor).1.Failed?
    decreases |rs|
  {
    hide Parse, Feed, Serialize, Encodable, Allowed, ChecksumOf;
    var x, tail := Serialize(rs[0]), Concat(rs[1..]);
    assert Concat(rs) == x + tail;
    var head, rest := y[..|x|], y[|x|..];
    assert y == head + rest;
    if head == x {
      SplitTail(x, tail, y, at, n);
      var from := if at <= |x| then 0 else at - |x|;
      var t := ReplayOfBurst(rs[1..], rest, from, at + n - |x| - from, limits,
                             Successor(first), rs[0].monotonicOffsetNs);
      touched := t + 1;
      BurstLater(rs, rest, t, limits, first, floor);
    } else {
      touched := 0;
      BurstInFirst(rs[0], tail, y, at, n, limits, first, floor);
      assert rs[..0] == [] && rs[..1] == [rs[0]] && [rs[0]][1..] == [];
      assert Concat(rs[..1]) == x;
    }
  }

  lemma BurstLater(rs: seq<PendingRecord>, rest: seq<Byte>, t: nat, limits: TraceLimits, first: U64, floor: U64)
    requires rs != [] && Playable(rs, limits) && Sequenced(rs, first, floor) && t < |rs[1..]|
    requires Concat(rs[1..][..t]) <= rest && !(Concat(rs[1..][..t + 1]) <= rest)
    requires var feed := Feed(rest, limits, Successor(first), rs[0].monotonicOffsetNs);
             feed.0 == Stamp(rs[1..][..t]) && feed.1.Failed?
    ensures var y := Serialize(rs[0]) + rest;
            && Concat(rs[..t + 1]) <= y && !(Concat(rs[..t + 2]) <= y)
            && Feed(y, limits, first, floor).0 == Stamp(rs[..t + 1]) && Feed(y, limits, first, floor).1.Failed?
  {
    hide Feed, Serialize, Encodable, Allowed, ChecksumOf;
    var x := Serialize(rs[0]);
    FeedFirst(rs[0], rest, limits, first, floor);
    assert rs[..t + 1][1..] == rs[1..][..t] && rs[..t + 2][1..] == rs[1..][..t + 1];
    PrefixUnder(x, Concat(rs[1..][..t]), rest);
    PrefixUnder(x, Concat(rs[1..][..t + 1]), rest);
  }

  lemma BurstInFirst(r: PendingRecord, tail: seq<Byte>, y: seq<Byte>, at: nat, n: nat, limits: TraceLimits,
                     first: U64, floor: U64)
    requires Encodable(r) && Allowed(r, limits)
    requires |y| == |Serialize(r) + tail| && n <= 4 && at + n <= |y| && y[..|Serialize(r)|] != Serialize(r)
    requires y[..at] == (Serialize(r) + tail)[..at] && y[at + n..] == (Serialize(r) + tail)[at + n..]
    ensures !(Serialize(r) <= y)
    ensures Feed(y, limits, first, floor).0 == [] && Feed(y, limits, first, floor).1.Failed?
  {
    hide Parse, Feed, Serialize, Encodable, Allowed, ChecksumOf;
    var x := Serialize(r);
    var head, rest := y[..|x|], y[|x|..];
    assert y == head + rest;
    SplitHead(x, tail, y, at, n);
    ParseOfBurst(r, head, at, if at + n <= |x| then n else |x| - at, rest, limits);
    FeedEnds(y, limits, first, floor);
  }

  lemma FeedEnds(input: seq<Byte>, limits: TraceLimits, first: U64, floor: U64)
    requires !Parse(input, limits).Good?
    ensures Feed(input, limits, first, floor)
            == ([], if Parse(input, limits).Bad? then Failed(Parse(input, limits).error) else Finished)
  {
    hide Parse;
  }

  lemma PrefixUnder(x: seq<Byte>, c: seq<Byte>, rest: seq<Byte>)
    ensures x + c <= x + rest <==> c <= rest
  {
    assert (x + c)[|x|..] == c && (x + rest)[|x|..] == rest;
    if x + c <= x + rest {
      assert forall i :: 0 <= i < |c| ==> c[i] == (x + c)[|x| + i] == (x + rest)[|x| + i] == rest[i];
    }
  }

  /** A window that lies wholly in one part leaves the other part alone. */
  lemma WindowOutside(x: seq<Byte>, tail: seq<Byte>, y: seq<Byte>, at: nat, n: nat)
    requires |y| == |x + tail| && at + n <= |y|
    requires y[..at] == (x + tail)[..at] && y[at + n..] == (x + tail)[at + n..]
    ensures at + n <= |x| ==> y[|x|..] == tail
    ensures at >= |x| ==> y[..|x|] == x
  {
    var size, z := |x|, x + tail;
    assert z[..size] == x && z[size..] == tail;
    if at + n <= size {
      SameSlice(y, z, at, n, size, |y|);
    }
    if at >= size {
      SameSlice(y, z, at, n, 0, size);
      assert y[0..size] == y[..size] && z[0..size] == z[..size];
    }
  }

  /** A change that leaves the first part alone is a change of the second part, in the rest of its window. */
  lemma SplitTail(x: seq<Byte>, tail: seq<Byte>, y: seq<Byte>, at: nat, n: nat)
    requires |y| == |x + tail| && at + n <= |y| && y != x + tail && y[..|x|] == x
    requires y[..at] == (x + tail)[..at] && y[at + n..] == (x + tail)[at + n..]
    ensures at + n > |x|
    ensures var rest, from := y[|x|..], if at <= |x| then 0 else at - |x|;
            var len := at + n - |x| - from;
            && len <= n && from + len <= |rest| && rest != tail
            && rest[..from] == tail[..from] && rest[from + len..] == tail[from + len..]
  {
    var size, z := |x|, x + tail;
    assert y == y[..size] + y[size..];
    WindowOutside(x, tail, y, at, n);
    var rest, from := y[size..], if at <= size then 0 else at - size;
    var len := at + n - size - from;
    assert rest[from + len..] == y[at + n..] && tail[from + len..] == z[at + n..];
    assert rest[..from] == y[size..size + from] && tail[..from] == z[size..size + from];
    if at > size {
      SameSlice(y, z, at, n, size, at);
    }
  }

  /** A change of the first part starts in it, and what of the window lies there is the whole of that change. */
  lemma SplitHead(x: seq<Byte>, tail: seq<Byte>, y: seq<Byte>, at: nat, n: nat)
    requires |y| == |x + tail| && at + n <= |y| && y[..|x|] != x
    requires y[..at] == (x + tail)[..at] && y[at + n..] == (x + tail)[at + n..]
    ensures at < |x|
    ensures var head, len := y[..|x|], if at + n <= |x| then n else |x| - at;
            head[..at] == x[..at] && head[at + len..] == x[at + len..]
  {
    var size, z := |x|, x + tail;
    assert z[..size] == x;
    WindowOutside(x, tail, y, at, n);
    assert y[..size][..at] == y[..at] && x[..at] == z[..at];
    if at + n <= size {
      SameSlice(y, z, at, n, at + n, size);
      assert y[..size][at + n..] == y[at + n..size] && x[at + n..] == z[at + n..size];
    }
  }
}
