/** The record format of a trace file: the serializer, the parser, and that each is the inverse of the other. */
module TraceFormat {
  import opened Bytes
  import Crc32

  datatype Envelope = Envelope(
    version: U16, traceId: U64, spanId: U64, parentSpanId: U64, sequence: U64,
    sourceTimestampNs: U64, publishTimestampNs: U64, sourceGeneration: U64, priority: I32)

  datatype Message = Message(envelope: Envelope, payload: seq<Byte>)

  datatype PendingRecord = PendingRecord(
    recordSequence: U64, monotonicOffsetNs: U64,
    channel: seq<Byte>, messageType: seq<Byte>, message: Message)

  datatype TraceRecord = TraceRecord(record: PendingRecord, checksum: U32)

  datatype TraceLimits = TraceLimits(maxChannelBytes: nat, maxMessageTypeBytes: nat, maxPayloadBytes: nat)

  datatype TraceError =
    | HeaderTruncated | Framing | LimitsExceeded | LengthsDisagree
    | BodyTruncated | ChecksumMismatch | SequenceMismatch

  datatype Parsed = EndOfFile | Bad(error: TraceError) | Good(traceRecord: TraceRecord, size: nat)

  const RECORD_MAGIC: U32 := 0x31524341
  const FIXED_BYTES: nat := 112
  const MINIMUM_BYTES: nat := 116

  // The fixed part is three tables of numbers: the frame (magic, version, flags, total, record sequence, offset,
  // envelope version, reserved, priority), the seven identifiers of the envelope, and the three sizes.

  function FrameWidths(): (w: seq<nat>)
    ensures |w| == 9
  {
    [4, 2, 2, 8, 8, 8, 2, 2, 4]
  }

  function IdWidths(): (w: seq<nat>)
    ensures |w| == 7
  {
    [8, 8, 8, 8, 8, 8, 8]
  }

  function SizeWidths(): (w: seq<nat>)
    ensures |w| == 3
  {
    [4, 4, 8]
  }

  lemma TableSizes()
    ensures Sum(FrameWidths()) == 40 && Sum(IdWidths()) == 56 && Sum(SizeWidths()) == 16
    ensures Sum(FrameWidths()[..3]) == 8
  {
    FrameSizes();
    IdSizes();
    SumOfThree(4, 4, 8);
  }

  lemma SumOfThree(a: nat, b: nat, c: nat)
    ensures Sum([a, b, c]) == a + b + c
  {
    assert [a, b, c][1..] == [b, c] && [b, c][1..] == [c];
    assert Sum([c]) == c && Sum([b, c]) == b + c;
  }

  lemma FrameSizes()
    ensures Sum(FrameWidths()) == 40 && Sum(FrameWidths()[..3]) == 8
  {
    hide Sum;
    var w := FrameWidths();
    SumConcat([4, 2, 2], [8, 8, 8]);
    SumConcat([4, 2, 2] + [8, 8, 8], [2, 2, 4]);
    SumOfThree(4, 2, 2);
    SumOfThree(8, 8, 8);
    SumOfThree(2, 2, 4);
    assert w == [4, 2, 2] + [8, 8, 8] + [2, 2, 4] && w[..3] == [4, 2, 2];
  }

  lemma IdSizes()
    ensures Sum(IdWidths()) == 56
  {
    SumConcat([8, 8, 8], [8, 8, 8]);
    SumConcat([8, 8, 8] + [8, 8, 8], [8]);
    SumOfThree(8, 8, 8);
    assert IdWidths() == [8, 8, 8] + [8, 8, 8] + [8];
  }

  function PriorityBits(p: I32): U32 {
    if p >= 0 then p else p + TWO32
  }

  function PriorityOf(bits: U32): I32 {
    if bits < 0x8000_0000 then bits else bits - TWO32
  }

  function TotalSize(r: PendingRecord): nat {
    MINIMUM_BYTES + |r.channel| + |r.messageType| + |r.message.payload|
  }

  function FrameValues(r: PendingRecord): (v: seq<nat>)
    ensures |v| == 9
  {
    [RECORD_MAGIC, 1, 0, TotalSize(r), r.recordSequence, r.monotonicOffsetNs,
     r.message.envelope.version, 0, PriorityBits(r.message.envelope.priority)]
  }

  function IdValues(e: Envelope): (v: seq<nat>)
    ensures |v| == 7
  {
    [e.traceId, e.spanId, e.parentSpanId, e.sequence, e.sourceTimestampNs, e.publishTimestampNs, e.sourceGeneration]
  }

  function SizeValues(r: PendingRecord): (v: seq<nat>)
    ensures |v| == 3
  {
    [|r.channel| % TWO32, |r.messageType| % TWO32, |r.message.payload|]
  }

  function Fixed(r: PendingRecord): (s: seq<Byte>)
    ensures |s| == FIXED_BYTES
  {
    TableSizes();
    Encode(FrameWidths(), FrameValues(r)) + Encode(IdWidths(), IdValues(r.message.envelope))
    + Encode(SizeWidths(), SizeValues(r))
  }

  function Body(r: PendingRecord): seq<Byte> {
    Fixed(r) + r.channel + r.messageType + r.message.payload
  }

  function ChecksumBytes(body: seq<Byte>): (s: seq<Byte>)
    ensures |s| == 4
  {
    Crc32.WordBytes(Crc32.Checksum(body))
  }

  function Serialize(r: PendingRecord): (s: seq<Byte>)
    ensures |s| == TotalSize(r)
  {
    Body(r) + ChecksumBytes(Body(r))
  }

  function ChecksumOf(r: PendingRecord): U32 {
    FourBytes(ChecksumBytes(Body(r)));
    Number(ChecksumBytes(Body(r)))
  }

  lemma FourBytes(s: seq<Byte>)
    requires |s| == 4
    ensures Number(s) < TWO32
    ensures LittleEndian(Number(s), 4) == s
  {
    LittleEndianOfNumber(s);
    PowValues();
  }

  /** Sizes that the 32-bit and 64-bit length fields can hold. */
  predicate Encodable(r: PendingRecord) {
    |r.channel| < TWO32 && |r.messageType| < TWO32 && TotalSize(r) < TWO64
  }

  predicate Allowed(r: PendingRecord, limits: TraceLimits) {
    && 0 < |r.channel| <= limits.maxChannelBytes
    && 0 < |r.messageType| <= limits.maxMessageTypeBytes
    && |r.message.payload| <= limits.maxPayloadBytes
  }

  /** ValidateLimits: positive, the names encodable in 32 bits, and the largest record within a stream size. */
  predicate ValidLimits(limits: TraceLimits) {
    && 0 < limits.maxChannelBytes < TWO32
    && 0 < limits.maxMessageTypeBytes < TWO32
    && 0 < limits.maxPayloadBytes
    && MINIMUM_BYTES + limits.maxChannelBytes + limits.maxMessageTypeBytes + limits.maxPayloadBytes
       < 0x8000_0000_0000_0000
  }

  // ----- parser -----

  datatype Fields = Fields(frame: seq<nat>, ids: seq<nat>, sizes: seq<nat>)

  predicate Shaped(f: Fields) {
    && |f.frame| == 9 && |f.ids| == 7 && |f.sizes| == 3
    && f.frame[3] < TWO64 && f.frame[4] < TWO64 && f.frame[5] < TWO64 && f.frame[6] < 0x1_0000 && f.frame[8] < TWO32
    && (forall i :: 0 <= i < 7 ==> f.ids[i] < TWO64)
    && f.sizes[0] < TWO32 && f.sizes[1] < TWO32 && f.sizes[2] < TWO64
  }

  lemma FieldsShaped(frame: seq<Byte>, ids: seq<Byte>, sizes: seq<Byte>)
    requires |frame| == Sum(FrameWidths()) && |ids| == Sum(IdWidths()) && |sizes| == Sum(SizeWidths())
    ensures Shaped(Fields(Decode(FrameWidths(), frame), Decode(IdWidths(), ids), Decode(SizeWidths(), sizes)))
  {
    hide Decode, Encode;
    PowValues();
    EncodeOfDecode(FrameWidths(), frame);
    EncodeOfDecode(IdWidths(), ids);
    EncodeOfDecode(SizeWidths(), sizes);
  }

  /** The numbers of the fixed part, read in order. */
  function FieldsOf(input: seq<Byte>): (f: Fields)
    requires |input| >= FIXED_BYTES
    ensures Shaped(f)
  {
    TableSizes();
    FieldsShaped(input[..40], input[40..96], input[96..FIXED_BYTES]);
    Fields(Decode(FrameWidths(), input[..40]), Decode(IdWidths(), input[40..96]),
           Decode(SizeWidths(), input[96..FIXED_BYTES]))
  }

  predicate Framed(f: Fields)
    requires Shaped(f)
  {
    f.frame[0] == RECORD_MAGIC && f.frame[1] == 1 && f.frame[2] == 0 && f.frame[7] == 0 && f.frame[3] >= MINIMUM_BYTES
  }

  predicate SizesAllowed(f: Fields, limits: TraceLimits)
    requires Shaped(f)
  {
    && 0 < f.sizes[0] <= limits.maxChannelBytes
    && 0 < f.sizes[1] <= limits.maxMessageTypeBytes
    && f.sizes[2] <= limits.maxPayloadBytes
  }

  function ExpectedTotal(f: Fields): nat
    requires Shaped(f)
  {
    MINIMUM_BYTES + f.sizes[0] + f.sizes[1] + f.sizes[2]
  }

  function EnvelopeOf(f: Fields): Envelope
    requires Shaped(f)
  {
    Envelope(f.frame[6], f.ids[0], f.ids[1], f.ids[2], f.ids[3], f.ids[4], f.ids[5], f.ids[6], PriorityOf(f.frame[8]))
  }

  /** The record with the given header fields whose variable part starts at FIXED_BYTES of input. */
  function RecordOf(f: Fields, input: seq<Byte>): PendingRecord
    requires Shaped(f) && ExpectedTotal(f) <= |input|
  {
    var c := FIXED_BYTES + f.sizes[0];
    var t := c + f.sizes[1];
    PendingRecord(f.frame[4], f.frame[5], input[FIXED_BYTES..c], input[c..t],
                  Message(EnvelopeOf(f), input[t..t + f.sizes[2]]))
  }

  /** NextLocked up to its sequence check, on what is left of the stream. */
  function Parse(input: seq<Byte>, limits: TraceLimits): Parsed {
    if |input| == 0 then EndOfFile
    else if |input| < FIXED_BYTES then Bad(HeaderTruncated)
    else
      var f := FieldsOf(input);
      var total := f.frame[3];
      if !Framed(f) then Bad(Framing)
      else if !SizesAllowed(f, limits) then Bad(LimitsExceeded)
      else if total != ExpectedTotal(f) then Bad(LengthsDisagree)
      else if |input| < total then Bad(BodyTruncated)
      else if Number(input[total - 4..total]) != Number(ChecksumBytes(input[..total - 4])) then Bad(ChecksumMismatch)
      else
        FourBytes(input[total - 4..total]);
        Good(TraceRecord(RecordOf(f, input), Number(input[total - 4..total])), total)
  }

  // ----- serializer -----

  /** Appends field k of a table. */
  method AppendField(output: seq<Byte>, value: nat, width: nat,
                     ghost before: seq<Byte>, ghost widths: seq<nat>, ghost values: seq<nat>, ghost k: nat)
    returns (result: seq<Byte>)
    requires |values| == |widths| && k < |widths| && value == values[k] && width == widths[k]
    requires output == before + Encode(widths[..k], values[..k])
    ensures result == before + Encode(widths[..k + 1], values[..k + 1])
  {
    hide Encode, LittleEndian;
    EncodeExtend(widths[..k], values[..k], width, value);
    assert widths[..k] + [width] == widths[..k + 1] && values[..k] + [value] == values[..k + 1];
    result := Append(output, value, width);
  }

  method AppendFrame(before: seq<Byte>, r: PendingRecord) returns (output: seq<Byte>)
    ensures output == before + Encode(FrameWidths(), FrameValues(r))
  {
    hide Encode, PriorityBits, TotalSize;
    ghost var w, v := FrameWidths(), FrameValues(r);
    output := before;
    EmptyTable(w, v);
    output := AppendField(output, RECORD_MAGIC, 4, before, w, v, 0);
    output := AppendField(output, 1, 2, before, w, v, 1);
    output := AppendField(output, 0, 2, before, w, v, 2);
    output := AppendField(output, TotalSize(r), 8, before, w, v, 3);
    output := AppendField(output, r.recordSequence, 8, before, w, v, 4);
    output := AppendField(output, r.monotonicOffsetNs, 8, before, w, v, 5);
    output := AppendField(output, r.message.envelope.version, 2, before, w, v, 6);
    output := AppendField(output, 0, 2, before, w, v, 7);
    output := AppendField(output, PriorityBits(r.message.envelope.priority), 4, before, w, v, 8);
    assert w[..9] == w && v[..9] == v;
  }

  lemma EmptyTable(widths: seq<nat>, values: seq<nat>)
    requires |widths| == |values|
    ensures Encode(widths[..0], values[..0]) == []
  {
  }

  method AppendIds(before: seq<Byte>, e: Envelope) returns (output: seq<Byte>)
    ensures output == before + Encode(IdWidths(), IdValues(e))
  {
    hide Encode;
    ghost var w, v := IdWidths(), IdValues(e);
    output := before;
    EmptyTable(w, v);
    output := AppendField(output, e.traceId, 8, before, w, v, 0);
    output := AppendField(output, e.spanId, 8, before, w, v, 1);
    output := AppendField(output, e.parentSpanId, 8, before, w, v, 2);
    output := AppendField(output, e.sequence, 8, before, w, v, 3);
    output := AppendField(output, e.sourceTimestampNs, 8, before, w, v, 4);
    output := AppendField(output, e.publishTimestampNs, 8, before, w, v, 5);
    output := AppendField(output, e.sourceGeneration, 8, before, w, v, 6);
    assert w[..7] == w && v[..7] == v;
  }

  method AppendSizes(before: seq<Byte>, r: PendingRecord) returns (output: seq<Byte>)
    ensures output == before + Encode(SizeWidths(), SizeValues(r))
  {
    hide Encode;
    ghost var w, v := SizeWidths(), SizeValues(r);
    output := before;
    EmptyTable(w, v);
    output := AppendField(output, |r.channel| % TWO32, 4, before, w, v, 0);
    output := AppendField(output, |r.messageType| % TWO32, 4, before, w, v, 1);
    output := AppendField(output, |r.message.payload|, 8, before, w, v, 2);
    assert w[..3] == w && v[..3] == v;
  }

  method AppendFixed(r: PendingRecord) returns (output: seq<Byte>)
    ensures output == Fixed(r)
  {
    hide Encode, FrameValues, IdValues, SizeValues, FrameWidths, IdWidths, SizeWidths;
    output := AppendFrame([], r);
    output := AppendIds(output, r.message.envelope);
    output := AppendSizes(output, r);
  }

  /** SerializeRecord: fails only when the total size does not fit the 64-bit size type. */
  method SerializeRecord(r: PendingRecord) returns (result: Option<seq<Byte>>)
    ensures result.Some? <==> TotalSize(r) < TWO64
    ensures result.Some? ==> result.value == Serialize(r)
  {
    hide Fixed, Number, LittleEndian, Crc32.WordBytes, Crc32.Checksum;
    if TotalSize(r) >= TWO64 {
      return None;
    }
    var output := AppendFixed(r);
    output := output + r.channel;
    output := output + r.messageType;
    output := output + r.message.payload;
    var crc := Crc32.Compute(output);
    FourBytes(Crc32.WordBytes(crc));
    output := Append(output, Number(Crc32.WordBytes(crc)), 4);
    return Some(output);
  }

  // ----- the two directions -----

  lemma ValuesFit(r: PendingRecord)
    requires Encodable(r)
    ensures Fit(FrameWidths(), FrameValues(r))
    ensures Fit(IdWidths(), IdValues(r.message.envelope))
    ensures Fit(SizeWidths(), SizeValues(r))
  {
    PowValues();
  }

  /** The fixed part of a serialized record, whatever follows it, decodes to the numbers written. */
  lemma FieldsOfSerialize(r: PendingRecord, input: seq<Byte>)
    requires Encodable(r) && FIXED_BYTES <= |input| && input[..FIXED_BYTES] == Fixed(r)
    ensures FieldsOf(input) == Fields(FrameValues(r), IdValues(r.message.envelope), SizeValues(r))
  {
    hide Encode, Decode, FrameValues, IdValues, SizeValues, FrameWidths, IdWidths, SizeWidths;
    TableSizes();
    ValuesFit(r);
    DecodeOfEncode(FrameWidths(), FrameValues(r));
    DecodeOfEncode(IdWidths(), IdValues(r.message.envelope));
    DecodeOfEncode(SizeWidths(), SizeValues(r));
    var fixed := input[..FIXED_BYTES];
    assert input[..40] == fixed[..40] == Encode(FrameWidths(), FrameValues(r));
    assert input[40..96] == fixed[40..96] == Encode(IdWidths(), IdValues(r.message.envelope));
    assert input[96..FIXED_BYTES] == fixed[96..] == Encode(SizeWidths(), SizeValues(r));
  }

  /** Whatever follows it in the stream, a serialized record parses back to itself and to its own length. */
  lemma ParseOfSerialize(r: PendingRecord, rest: seq<Byte>, limits: TraceLimits)
    requires Encodable(r) && Allowed(r, limits)
    ensures Parse(Serialize(r) + rest, limits) == Good(TraceRecord(r, ChecksumOf(r)), TotalSize(r))
  {
    hide Fixed, FieldsOf, Number, ChecksumBytes, Serialize;
    var input, total := Serialize(r) + rest, TotalSize(r);
    SerializedParts(r, rest);
    FieldsOfSerialize(r, input);
  }

  lemma SerializedParts(r: PendingRecord, rest: seq<Byte>)
    ensures var input, total := Serialize(r) + rest, TotalSize(r);
            var c, t := FIXED_BYTES + |r.channel|, FIXED_BYTES + |r.channel| + |r.messageType|;
            && input[..FIXED_BYTES] == Fixed(r)
            && input[FIXED_BYTES..c] == r.channel && input[c..t] == r.messageType
            && input[t..total - 4] == r.message.payload
            && input[..total - 4] == Body(r) && input[total - 4..total] == ChecksumBytes(Body(r))
  {
    hide Fixed, ChecksumBytes;
  }

  lemma FieldsDetermineFixed(input: seq<Byte>, r: PendingRecord)
    requires |input| >= FIXED_BYTES
    requires FieldsOf(input) == Fields(FrameValues(r), IdValues(r.message.envelope), SizeValues(r))
    ensures input[..FIXED_BYTES] == Fixed(r)
  {
    hide Encode, Decode, FrameValues, IdValues, SizeValues, FrameWidths, IdWidths, SizeWidths;
    TableSizes();
    EncodeOfDecode(FrameWidths(), input[..40]);
    EncodeOfDecode(IdWidths(), input[40..96]);
    EncodeOfDecode(SizeWidths(), input[96..FIXED_BYTES]);
    assert input[..FIXED_BYTES] == input[..40] + input[40..96] + input[96..FIXED_BYTES];
  }

  lemma ValuesOfRecord(f: Fields, input: seq<Byte>)
    requires Shaped(f) && Framed(f) && f.frame[3] == ExpectedTotal(f) <= |input|
    ensures var r := RecordOf(f, input);
            f == Fields(FrameValues(r), IdValues(r.message.envelope), SizeValues(r))
  {
  }

  lemma BodyOfFields(f: Fields, input: seq<Byte>)
    requires |input| >= FIXED_BYTES && FieldsOf(input) == f
    requires Shaped(f) && Framed(f) && f.frame[3] == ExpectedTotal(f) <= |input|
    ensures var r := RecordOf(f, input);
            f.frame[3] == TotalSize(r) && f.frame[3] >= 4 && input[..f.frame[3] - 4] == Body(r)
  {
    hide Fixed, FieldsOf, FrameValues, IdValues, SizeValues, EnvelopeOf;
    var total := f.frame[3];
    var r := RecordOf(f, input);
    ValuesOfRecord(f, input);
    FieldsDetermineFixed(input, r);
    var c := FIXED_BYTES + f.sizes[0];
    var t := c + f.sizes[1];
    assert input[..total - 4] == input[..FIXED_BYTES] + input[FIXED_BYTES..c] + input[c..t] + input[t..total - 4];
  }

  lemma RecordFits(f: Fields, input: seq<Byte>, limits: TraceLimits)
    requires Shaped(f) && SizesAllowed(f, limits) && f.frame[3] == ExpectedTotal(f) <= |input|
    ensures Encodable(RecordOf(f, input)) && Allowed(RecordOf(f, input), limits)
  {
    hide EnvelopeOf;
  }

  lemma SameNumber(a: seq<Byte>, b: seq<Byte>)
    requires |a| == |b| == 4 && Number(a) == Number(b)
    ensures a == b
  {
    hide Number, LittleEndian;
    FourBytes(a);
    FourBytes(b);
  }

  /** The parser accepts nothing but what the serializer writes. */
  lemma SerializeOfParse(input: seq<Byte>, limits: TraceLimits)
    requires Parse(input, limits).Good?
    ensures var p := Parse(input, limits);
            && Encodable(p.traceRecord.record) && Allowed(p.traceRecord.record, limits)
            && p.size == TotalSize(p.traceRecord.record) <= |input|
            && input[..p.size] == Serialize(p.traceRecord.record)
            && p.traceRecord.checksum == ChecksumOf(p.traceRecord.record)
  {
    hide Body, FieldsOf, Number, ChecksumBytes, EnvelopeOf, RecordOf, Encodable, Allowed;
    var f := FieldsOf(input);
    var total := f.frame[3];
    var r := RecordOf(f, input);
    BodyOfFields(f, input);
    RecordFits(f, input, limits);
    SameNumber(input[total - 4..total], ChecksumBytes(Body(r)));
    assert input[..total] == input[..total - 4] + input[total - 4..total];
  }

  // ----- damage to one record -----

  /** A record cut short is reported as truncated, in its header or in its body, never as something else. */
  lemma ParseOfCut(r: PendingRecord, k: nat, limits: TraceLimits)
    requires Encodable(r) && Allowed(r, limits) && 0 < k < TotalSize(r)
    ensures Parse(Serialize(r)[..k], limits) == Bad(if k < FIXED_BYTES then HeaderTruncated else BodyTruncated)
  {
    hide Fixed, FieldsOf, Number, ChecksumBytes, Serialize;
    if k >= FIXED_BYTES {
      SerializedParts(r, []);
      assert Serialize(r) + [] == Serialize(r);
      assert Serialize(r)[..k][..FIXED_BYTES] == Serialize(r)[..FIXED_BYTES];
      FieldsOfSerialize(r, Serialize(r)[..k]);
    }
  }

  lemma TotalField(input: seq<Byte>)
    requires |input| >= FIXED_BYTES
    ensures FieldsOf(input).frame[3] == Number(input[8..16])
  {
    hide Decode, Number;
    TableSizes();
    DecodeAt(FrameWidths(), input[..40], 3);
    assert input[..40][8..16] == input[8..16];
  }

  /** A change confined to four bytes cannot move both the total and the sizes, so a parse that accepted it would
      still cover exactly the bytes of the original record. */
  lemma ChangeKeepsExtent(input: seq<Byte>, y: seq<Byte>, at: nat, n: nat)
    requires |input| == |y| >= FIXED_BYTES && n <= 4 && at + n <= |input|
    requires input[..at] == y[..at] && input[at + n..] == y[at + n..]
    requires FieldsOf(input).frame[3] == ExpectedTotal(FieldsOf(input))
    requires FieldsOf(y).frame[3] == ExpectedTotal(FieldsOf(y))
    ensures FieldsOf(y).frame[3] == FieldsOf(input).frame[3]
  {
    hide Decode, Number;
    TotalField(input);
    TotalField(y);
    if at + n <= 8 || 16 <= at {
      assert input[8..16] == y[8..16] by { SameSlice(input, y, at, n, 8, 16); }
    } else {
      assert input[96..FIXED_BYTES] == y[96..FIXED_BYTES] by { SameSlice(input, y, at, n, 96, FIXED_BYTES); }
    }
  }

  lemma SameSlice(x: seq<Byte>, y: seq<Byte>, at: nat, n: nat, lo: nat, hi: nat)
    requires |x| == |y| && at + n <= |x| && lo <= hi <= |x|
    requires x[..at] == y[..at] && x[at + n..] == y[at + n..]
    requires hi <= at || at + n <= lo
    ensures x[lo..hi] == y[lo..hi]
  {
    forall i | lo <= i < hi
      ensures x[i] == y[i]
    {
      if hi <= at {
        assert x[i] == x[..at][i] && y[i] == y[..at][i];
      } else {
        assert x[i] == x[at + n..][i - at - n] && y[i] == y[at + n..][i - at - n];
      }
    }
  }

  lemma GoodIsChecked(input: seq<Byte>, limits: TraceLimits)
    requires Parse(input, limits).Good?
    ensures var n := Parse(input, limits).size;
            && MINIMUM_BYTES <= n <= |input| && n == FieldsOf(input).frame[3] == ExpectedTotal(FieldsOf(input))
            && Number(ChecksumBytes(input[..n - 4])) == Number(input[n - 4..n])
  {
    hide FieldsOf, Number, ChecksumBytes;
  }

  lemma GoodHasResidue(input: seq<Byte>, limits: TraceLimits)
    requires Parse(input, limits).Good?
    ensures var n := Parse(input, limits).size;
            && MINIMUM_BYTES <= n <= |input| && n == FieldsOf(input).frame[3] == ExpectedTotal(FieldsOf(input))
            && Crc32.Register(Crc32.INITIAL, input[..n]) == Crc32.Residue()
  {
    hide FieldsOf, Number, Parse, ExpectedTotal, Crc32.WordBytes, Crc32.Checksum, Crc32.Register, Crc32.Residue;
    var n := Parse(input, limits).size;
    GoodIsChecked(input, limits);
    FourBytes(input[n - 4..n]);
    FourBytes(ChecksumBytes(input[..n - 4]));
    Crc32.ChecksumIsResidue(input[..n - 4], input[n - 4..n]);
    assert input[..n] == input[..n - 4] + input[n - 4..n];
  }

  /** Changing at most four consecutive bytes anywhere in a record, its checksum field included, makes the
      parser refuse it, whatever the new bytes are and whatever follows the record. */
  lemma ParseOfBurst(r: PendingRecord, y: seq<Byte>, at: nat, n: nat, rest: seq<Byte>, limits: TraceLimits)
    requires Encodable(r) && Allowed(r, limits)
    requires |y| == TotalSize(r) && n <= 4 && at + n <= |y| && y != Serialize(r)
    requires y[..at] == Serialize(r)[..at] && y[at + n..] == Serialize(r)[at + n..]
    ensures Parse(y + rest, limits).Bad?
  {
    hide Serialize, FieldsOf, Parse, Allowed, Encodable, TotalSize, Crc32.Register, Crc32.Residue;
    var x, input := Serialize(r), Serialize(r) + rest;
    if Parse(y + rest, limits).Good? {
      ParseOfSerialize(r, rest, limits);
      GoodHasResidue(input, limits);
      GoodHasResidue(y + rest, limits);
      SameAfterExtension(x, y, at, n, rest);
      ChangeKeepsExtent(input, y + rest, at, n);
      assert input[..|x|] == x && (y + rest)[..|x|] == y;
      BurstMovesRegister(x, y, at, n);
    } else {
      assert |y + rest| > 0;
      NonemptyIsNotEnd(y + rest, limits);
    }
  }

  lemma NonemptyIsNotEnd(input: seq<Byte>, limits: TraceLimits)
    requires |input| > 0
    ensures !Parse(input, limits).EndOfFile?
  {
  }

  lemma SameAfterExtension(x: seq<Byte>, y: seq<Byte>, at: nat, n: nat, rest: seq<Byte>)
    requires |x| == |y| && at + n <= |x| && x[..at] == y[..at] && x[at + n..] == y[at + n..]
    ensures (x + rest)[..at] == (y + rest)[..at]
    ensures (x + rest)[at + n..] == (y + rest)[at + n..]
  {
    assert (x + rest)[..at] == x[..at] && (y + rest)[..at] == y[..at];
    assert (x + rest)[at + n..] == x[at + n..] + rest && (y + rest)[at + n..] == y[at + n..] + rest;
  }

  lemma BurstMovesRegister(x: seq<Byte>, y: seq<Byte>, at: nat, n: nat)
    requires |x| == |y| && n <= 4 && at + n <= |x| && x != y
    requires x[..at] == y[..at] && x[at + n..] == y[at + n..]
    ensures Crc32.Register(Crc32.INITIAL, x) != Crc32.Register(Crc32.INITIAL, y)
  {
    hide Crc32.Register;
    assert x == x[..at] + x[at..at + n] + x[at + n..];
    assert y == y[..at] + y[at..at + n] + y[at + n..];
    Crc32.BurstDetected(x[..at], x[at..at + n], y[at..at + n], x[at + n..]);
  }

  // ----- the layout in absolute offsets -----

  /** The bytes from at on are this number, little-endian. */
  predicate HasAt(p: seq<Byte>, at: nat, width: nat, value: nat) {
    at + width <= |p| && p[at..at + width] == LittleEndian(value, width)
  }

  lemma TableAt(p: seq<Byte>, base: nat, widths: seq<nat>, values: seq<nat>, k: nat, at: nat)
    requires |widths| == |values| && k < |widths| && Sum(widths[..k]) == at
    requires base + Sum(widths) <= |p| && p[base..base + Sum(widths)] == Encode(widths, values)
    ensures HasAt(p, base + at, widths[k], values[k])
  {
    hide Encode, Sum, LittleEndian;
    EncodeAt(widths, values, k);
    SliceOfSlice(p, base, base + Sum(widths), at, at + widths[k]);
  }

  lemma FrameOffsets()
    ensures var w := FrameWidths();
            && Sum(w[..0]) == 0 && Sum(w[..1]) == 4 && Sum(w[..2]) == 6 && Sum(w[..3]) == 8 && Sum(w[..4]) == 16
            && Sum(w[..5]) == 24 && Sum(w[..6]) == 32 && Sum(w[..7]) == 34 && Sum(w[..8]) == 36
  {
    var w := FrameWidths();
    assert w[..0] == [] && Sum([]) == 0;
    hide Sum;
    SumStep(w, 0);
    SumStep(w, 1);
    SumStep(w, 2);
    SumStep(w, 3);
    SumStep(w, 4);
    SumStep(w, 5);
    SumStep(w, 6);
    SumStep(w, 7);
  }

  lemma IdOffsets()
    ensures var w := IdWidths();
            && Sum(w[..0]) == 0 && Sum(w[..1]) == 8 && Sum(w[..2]) == 16 && Sum(w[..3]) == 24 && Sum(w[..4]) == 32
            && Sum(w[..5]) == 40 && Sum(w[..6]) == 48
  {
    var w := IdWidths();
    assert w[..0] == [] && Sum([]) == 0;
    hide Sum;
    SumStep(w, 0);
    SumStep(w, 1);
    SumStep(w, 2);
    SumStep(w, 3);
    SumStep(w, 4);
    SumStep(w, 5);
  }

  lemma SizeOffsets()
    ensures var w := SizeWidths(); Sum(w[..0]) == 0 && Sum(w[..1]) == 4 && Sum(w[..2]) == 8
  {
    var w := SizeWidths();
    assert w[..0] == [] && Sum([]) == 0;
    hide Sum;
    SumStep(w, 0);
    SumStep(w, 1);
  }

  lemma TablesAt(r: PendingRecord)
    ensures var p := Serialize(r);
            && p[0..40] == Encode(FrameWidths(), FrameValues(r))
            && p[40..96] == Encode(IdWidths(), IdValues(r.message.envelope))
            && p[96..112] == Encode(SizeWidths(), SizeValues(r))
  {
    hide Encode, FrameValues, IdValues, SizeValues, FrameWidths, IdWidths, SizeWidths, ChecksumBytes;
    TableSizes();
  }

  /** Where the frame of a record is: the magic number, the version, no flags, the total size, the number and the offset of
      the record, the envelope version, two zero bytes and the priority as a 32-bit two's complement. */
  lemma FrameLayout(r: PendingRecord)
    ensures var p, e := Serialize(r), r.message.envelope;
            && HasAt(p, 0, 4, 0x31524341) && HasAt(p, 4, 2, 1) && HasAt(p, 6, 2, 0)
            && HasAt(p, 8, 8, 116 + |r.channel| + |r.messageType| + |r.message.payload|)
            && HasAt(p, 16, 8, r.recordSequence) && HasAt(p, 24, 8, r.monotonicOffsetNs)
            && HasAt(p, 32, 2, e.version) && HasAt(p, 34, 2, 0)
            && HasAt(p, 36, 4, if e.priority < 0 then e.priority + 0x1_0000_0000 else e.priority)
  {
    hide Encode, Sum, Serialize, HasAt;
    TablesAt(r);
    TableSizes();
    FrameOffsets();
    var p, w, v := Serialize(r), FrameWidths(), FrameValues(r);
    TableAt(p, 0, w, v, 0, 0);
    TableAt(p, 0, w, v, 1, 4);
    TableAt(p, 0, w, v, 2, 6);
    TableAt(p, 0, w, v, 3, 8);
    TableAt(p, 0, w, v, 4, 16);
    TableAt(p, 0, w, v, 5, 24);
    TableAt(p, 0, w, v, 6, 32);
    TableAt(p, 0, w, v, 7, 34);
    TableAt(p, 0, w, v, 8, 36);
  }

  /** Where the identifiers of the envelope are, and the three sizes. */
  lemma EnvelopeLayout(r: PendingRecord)
    ensures var p, e := Serialize(r), r.message.envelope;
            && HasAt(p, 40, 8, e.traceId) && HasAt(p, 48, 8, e.spanId) && HasAt(p, 56, 8, e.parentSpanId)
            && HasAt(p, 64, 8, e.sequence) && HasAt(p, 72, 8, e.sourceTimestampNs)
            && HasAt(p, 80, 8, e.publishTimestampNs) && HasAt(p, 88, 8, e.sourceGeneration)
  {
    hide Encode, Sum, Serialize, HasAt;
    TablesAt(r);
    TableSizes();
    IdOffsets();
    var p, w, v := Serialize(r), IdWidths(), IdValues(r.message.envelope);
    TableAt(p, 40, w, v, 0, 0);
    TableAt(p, 40, w, v, 1, 8);
    TableAt(p, 40, w, v, 2, 16);
    TableAt(p, 40, w, v, 3, 24);
    TableAt(p, 40, w, v, 4, 32);
    TableAt(p, 40, w, v, 5, 40);
    TableAt(p, 40, w, v, 6, 48);
  }

  lemma SizesLayout(r: PendingRecord)
    requires Encodable(r)
    ensures var p := Serialize(r);
            HasAt(p, 96, 4, |r.channel|) && HasAt(p, 100, 4, |r.messageType|) && HasAt(p, 104, 8, |r.message.payload|)
  {
    hide Encode, Sum, Serialize, HasAt;
    TablesAt(r);
    TableSizes();
    SizeOffsets();
    var p, w, v := Serialize(r), SizeWidths(), SizeValues(r);
    TableAt(p, 96, w, v, 0, 0);
    TableAt(p, 96, w, v, 1, 4);
    TableAt(p, 96, w, v, 2, 8);
  }

  /** And the texts: channel, message type and payload from byte 112 on, then the checksum of all before it. */
  lemma TextsLayout(r: PendingRecord)
    ensures var p := Serialize(r);
            var c := 112 + |r.channel|;
            var t := c + |r.messageType|;
            var n := t + |r.message.payload|;
            && |p| == n + 4 && p[112..c] == r.channel && p[c..t] == r.messageType && p[t..n] == r.message.payload
            && p[n..] == Crc32.WordBytes(Crc32.Checksum(p[..n]))
  {
    hide Serialize, Fixed;
    SerializedParts(r, []);
    assert Serialize(r) + [] == Serialize(r);
    var total := TotalSize(r);
    assert Serialize(r)[total - 4..] == Serialize(r)[total - 4..total];
  }

  lemma ReadAt(input: seq<Byte>, base: nat, widths: seq<nat>, k: nat, at: nat)
    requires base + Sum(widths) <= |input| && k < |widths| && Sum(widths[..k]) == at
    ensures at + widths[k] <= Sum(widths)
    ensures Decode(widths, input[base..base + Sum(widths)])[k] == Number(input[base + at..base + at + widths[k]])
  {
    hide Decode, Sum, Number;
    DecodeAt(widths, input[base..base + Sum(widths)], k);
    SliceOfSlice(input, base, base + Sum(widths), at, at + widths[k]);
  }

  lemma FieldsInPlace(input: seq<Byte>)
    requires |input| >= FIXED_BYTES
    ensures var f := FieldsOf(input);
            && f.frame[0] == Number(input[0..4]) && f.frame[1] == Number(input[4..6]) && f.frame[2] == Number(input[6..8])
            && f.frame[3] == Number(input[8..16]) && f.frame[7] == Number(input[34..36])
            && f.sizes[0] == Number(input[96..100]) && f.sizes[1] == Number(input[100..104])
            && f.sizes[2] == Number(input[104..112])
  {
    hide Decode, Sum, Number;
    TableSizes();
    FrameOffsets();
    SizeOffsets();
    var w, z := FrameWidths(), SizeWidths();
    assert input[..40] == input[0..40];
    ReadAt(input, 0, w, 0, 0);
    ReadAt(input, 0, w, 1, 4);
    ReadAt(input, 0, w, 2, 6);
    ReadAt(input, 0, w, 3, 8);
    ReadAt(input, 0, w, 7, 34);
    ReadAt(input, 96, z, 0, 0);
    ReadAt(input, 96, z, 1, 4);
    ReadAt(input, 96, z, 2, 8);
  }

  /** Which error a stream gives, in the order in which they are found and from the bytes in place: too short for a fixed
      part, a wrong magic number, version, flags, reserved bytes or total below 116, a size over its limit, sizes that do
      not add up to the total, too short for the total, and a wrong checksum. Without any of these it is a record. */
  lemma FirstErrorIsReported(input: seq<Byte>, limits: TraceLimits)
    requires |input| >= 112
    ensures var total, c := Number(input[8..16]), Number(input[96..100]);
            var t, p := Number(input[100..104]), Number(input[104..112]);
            var badFrame := || Number(input[0..4]) != 0x31524341 || Number(input[4..6]) != 1 || Number(input[6..8]) != 0
                            || Number(input[34..36]) != 0 || total < 116;
            var badSizes := || c == 0 || c > limits.maxChannelBytes || t == 0 || t > limits.maxMessageTypeBytes
                            || p > limits.maxPayloadBytes;
            && (Parse(input, limits) == Bad(Framing) <==> badFrame)
            && (!badFrame ==>
              && (Parse(input, limits) == Bad(LimitsExceeded) <==> badSizes)
              && (Parse(input, limits) == Bad(LengthsDisagree) <==> !badSizes && total != 116 + c + t + p)
              && (!badSizes && total == 116 + c + t + p ==>
                    && (Parse(input, limits) == Bad(BodyTruncated) <==> |input| < total)
                    && (Parse(input, limits).Good? ==> Parse(input, limits).size == total)
                    && (|input| >= total && !Parse(input, limits).Good? ==> Parse(input, limits) == Bad(ChecksumMismatch))))
  {
    hide FieldsOf, Number, ChecksumBytes, RecordOf;
    FieldsInPlace(input);
  }
}
