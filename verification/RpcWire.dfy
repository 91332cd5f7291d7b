/** The request and response samples of the DDS request/response engine, with their fixed-size text fields. */
module RpcWire {
  import opened Bytes
  import opened TraceFormat
  import opened RpcChannel

  const NUL: char := '\0'
  const PROTOCOL: nat := 1
  const ENVELOPE_VERSION: nat := 1
  const NAME_BYTES: nat := 128
  const DETAIL_BYTES: nat := 1024

  predicate ValidServiceName(name: string) {
    0 < |name| <= NAME_BYTES && NUL !in name
  }

  predicate ValidMessage(m: Message, maxPayload: nat) {
    m.envelope.version == ENVELOPE_VERSION && |m.payload| <= maxPayload
  }

  /** CopyBoundedString into a zeroed buffer of the given size: the text and then NULs; a text that does not leave room for
      one NUL is not copied at all. */
  function CopyBounded(text: string, size: nat): (buffer: string)
    ensures |buffer| == size
    ensures |text| < size ==> text <= buffer && buffer[|text|] == NUL
    ensures |text| >= size ==> forall i :: 0 <= i < size ==> buffer[i] == NUL
  {
    if |text| < size then text + seq(size - |text|, _ => NUL) else seq(size, _ => NUL)
  }

  /** ReadBoundedString: what precedes the first NUL. */
  function ReadBounded(buffer: string): (text: Option<string>)
    ensures text.Some? <==> NUL in buffer
    ensures text.Some? ==> text.value <= buffer && NUL !in text.value
    ensures text.Some? ==> |text.value| < |buffer| && buffer[|text.value|] == NUL
  {
    if buffer == [] then None
    else if buffer[0] == NUL then Some([])
    else match ReadBounded(buffer[1..])
      case None => None
      case Some(rest) => Some([buffer[0]] + rest)
  }

  /** The part of a text that survives a NUL-terminated buffer. */
  function UpToNul(text: string): (r: string)
    ensures r <= text && NUL !in r
    ensures |r| == |text| || text[|r|] == NUL
  {
    if text == [] || text[0] == NUL then [] else [text[0]] + UpToNul(text[1..])
  }

  lemma {:induction false} NoNulIsWhole(text: string)
    requires NUL !in text
    ensures UpToNul(text) == text
  {
    var r := UpToNul(text);
    assert forall i :: 0 <= i < |text| ==> text[i] != NUL;
    assert r == text[..|r|];
  }

  /** The first NUL is where it is, however it was found. */
  lemma FirstNulIsUnique(buffer: string, a: string, b: string)
    requires a <= buffer && b <= buffer && NUL !in a && NUL !in b
    requires |a| < |buffer| && |b| < |buffer| && buffer[|a|] == NUL && buffer[|b|] == NUL
    ensures a == b
  {
    assert forall i :: 0 <= i < |a| ==> buffer[i] == a[i] != NUL;
    assert forall i :: 0 <= i < |b| ==> buffer[i] == b[i] != NUL;
    assert |a| == |b|;
    assert a == buffer[..|a|] && b == buffer[..|b|];
  }

  /** Copying into a buffer and reading back keeps the text up to its first NUL. */
  lemma ReadOfCopy(text: string, size: nat)
    requires |text| < size
    ensures ReadBounded(CopyBounded(text, size)) == Some(UpToNul(text))
  {
    var buffer := CopyBounded(text, size);
    var r := UpToNul(text);
    assert buffer[|r|] == NUL;
    assert NUL in buffer;
    FirstNulIsUnique(buffer, ReadBounded(buffer).value, r);
  }

  datatype RequestSample = RequestSample(
    protocol: nat, name: string, guid: nat, id: nat, budget: nat, message: Message)

  datatype ResponseSample = ResponseSample(
    protocol: nat, name: string, guid: nat, id: nat, code: nat, detail: string, message: Message)

  function NoMessage(): Message {
    Message(Envelope(0, 0, 0, 0, 0, 0, 0, 0, 0), [])
  }

  function BuildRequest(service: string, guid: nat, id: nat, budget: nat, m: Message): RequestSample
  {
    RequestSample(PROTOCOL, CopyBounded(service, NAME_BYTES + 1), guid, id, budget, m)
  }

  /** ReceiveRequests up to the dispatch: whether an endpoint of this service takes the sample. */
  predicate Accepts(service: string, maxPayload: nat, s: RequestSample) {
    && ReadBounded(s.name) == Some(service)
    && s.protocol == PROTOCOL && s.guid != 0 && s.id != 0 && s.budget != 0
    && ValidMessage(s.message, maxPayload)
  }

  /** What the handler's outcome becomes: an invalid message is reported as an internal error, and the detail text is cut
      to its maximum. */
  function Answer(outcome: Result, maxPayload: nat): Result {
    match outcome
    case Success(m) =>
      if ValidMessage(m, maxPayload) then outcome
      else Failure(INTERNAL, "DDS RPC service returned an invalid response")
    case Failure(code, detail) =>
      Failure(code, if |detail| > DETAIL_BYTES then detail[..DETAIL_BYTES] else detail)
  }

  /** ReceiveRequests after the dispatch: the response sample. */
  function BuildResponse(service: string, guid: nat, id: nat, maxPayload: nat, outcome: Result): ResponseSample
  {
    var name := CopyBounded(service, NAME_BYTES + 1);
    match Answer(outcome, maxPayload)
    case Success(m) => ResponseSample(PROTOCOL, name, guid, id, 0, CopyBounded("", DETAIL_BYTES + 1), m)
    case Failure(code, detail) =>
      ResponseSample(PROTOCOL, name, guid, id, code, CopyBounded(detail, DETAIL_BYTES + 1), NoMessage())
  }

  /** ReceiveResponses up to the table lookup: what the sample says to a client channel, or nothing when it is dropped. */
  function ReadResponse(service: string, guid: nat, maxPayload: nat, s: ResponseSample): Option<Result> {
    if ReadBounded(s.name) != Some(service) || ReadBounded(s.detail).None? then None
    else if s.protocol != PROTOCOL || s.guid != guid || s.id == 0 || s.code > INTERNAL then None
    else if s.code == 0 then (if ValidMessage(s.message, maxPayload) then Some(Success(s.message)) else None)
    else Some(Failure(s.code, ReadBounded(s.detail).value))
  }

  /** What a caller may receive for a handler's outcome: the same message, or the same code with the detail cut to 1024
      characters and at its first NUL. */
  function Reported(outcome: Result, maxPayload: nat): Result {
    match Answer(outcome, maxPayload)
    case Success(m) => Success(m)
    case Failure(code, detail) => Failure(code, UpToNul(detail))
  }

  /** What the handler's outcome means to the caller, in numbers: a version 1 message within the server's limit is that
      message, any other message is the internal error 12, and a failure keeps its code and the longest front part of its
      detail that has no NUL and at most 1024 characters. */
  predicate Tells(outcome: Result, maxPayload: nat, r: Result) {
    match outcome
    case Success(m) =>
      if m.envelope.version == 1 && |m.payload| <= maxPayload then r == Success(m) else r.Failure? && r.code == 12
    case Failure(code, d) =>
      && r.Failure? && r.code == code && r.detail <= d && |r.detail| <= 1024 && '\0' !in r.detail
      && (|r.detail| == |d| || |r.detail| == 1024 || d[|r.detail|] == '\0')
  }

  lemma ReportedTells(outcome: Result, maxPayload: nat)
    ensures Tells(outcome, maxPayload, Reported(outcome, maxPayload))
  {
    if outcome.Failure? {
      var d := outcome.detail;
      var cut := if |d| > DETAIL_BYTES then d[..DETAIL_BYTES] else d;
      var r := UpToNul(cut);
      assert r <= cut <= d;
      assert |r| < |cut| ==> d[|r|] == cut[|r|];
    }
  }

  /** A status an endpoint can hold: never Ok, and one of the enumeration. */
  predicate ValidOutcome(r: Result) {
    r.Failure? ==> 0 < r.code <= INTERNAL
  }

  /** The name filter is exact: a sample built for one service is read as that service and as no other, whichever topic it
      came in on. */
  lemma NameIsExact(service: string)
    requires ValidServiceName(service)
    ensures ReadBounded(CopyBounded(service, NAME_BYTES + 1)) == Some(service)
  {
    ReadOfCopy(service, NAME_BYTES + 1);
    NoNulIsWhole(service);
  }

  /** The response codec round trip: a channel reads a response exactly when it carries its service and its identity, and
      then reads the handler's outcome as reported; only a message too large for the reader is dropped. */
  lemma ReadOfResponse(
    service: string, guid: nat, id: nat, serverMax: nat, outcome: Result, reader: string, readerGuid: nat, readerMax: nat)
    requires ValidServiceName(service) && id != 0 && ValidOutcome(outcome)
    ensures var r := ReadResponse(reader, readerGuid, readerMax, BuildResponse(service, guid, id, serverMax, outcome));
            var reported := Reported(outcome, serverMax);
            && (r.Some? ==> r.value == reported && Tells(outcome, serverMax, r.value))
            && (r.Some? <==> reader == service && readerGuid == guid
                             && (reported.Success? ==> |reported.message.payload| <= readerMax))
  {
    hide ReadBounded, UpToNul, Tells;
    ReportedTells(outcome, serverMax);
    NameIsExact(service);
    ReadOfCopy("", DETAIL_BYTES + 1);
    var answer := Answer(outcome, serverMax);
    if answer.Failure? {
      ReadOfCopy(answer.detail, DETAIL_BYTES + 1);
    }
  }

  /** So between an endpoint and the channel that asked: a good message within both limits arrives as it is, one that is too
      large for the channel alone is dropped, and everything else arrives as the failure that it is. */
  lemma ResponseInNumbers(
    service: string, guid: nat, id: nat, serverMax: nat, outcome: Result, readerMax: nat)
    requires ValidServiceName(service) && id != 0 && ValidOutcome(outcome)
    ensures var r := ReadResponse(service, guid, readerMax, BuildResponse(service, guid, id, serverMax, outcome));
            if outcome.Success? && outcome.message.envelope.version == 1 && |outcome.message.payload| <= serverMax then
              r == if |outcome.message.payload| <= readerMax then Some(outcome) else None
            else r.Some? && Tells(outcome, serverMax, r.value)
  {
    hide ReadResponse, BuildResponse;
    ReadOfResponse(service, guid, id, serverMax, outcome, service, guid, readerMax);
  }

  /** The request codec: an endpoint takes a request exactly when it serves that service, the identity is set, time is left
      and the message fits. */
  lemma AcceptsRequest(service: string, guid: nat, id: nat, budget: nat, m: Message, server: string, serverMax: nat)
    requires ValidServiceName(service)
    ensures Accepts(server, serverMax, BuildRequest(service, guid, id, budget, m))
       <==> server == service && guid != 0 && id != 0 && budget != 0 && ValidMessage(m, serverMax)
  {
    hide ReadBounded;
    NameIsExact(service);
  }

  /** Both samples in numbers: protocol 1, the name in 129 characters ended by NULs, the identity as it was asked, status 0
      for a message and the code for a failure. A sample of another protocol says nothing to either side. */
  lemma SamplesInNumbers(service: string, guid: nat, id: nat, budget: nat, m: Message, maxPayload: nat, outcome: Result)
    requires ValidServiceName(service)
    ensures var s := BuildRequest(service, guid, id, budget, m);
            && s.protocol == 1 && |s.name| == 129 && service <= s.name && s.name[|service|] == '\0'
            && s.guid == guid && s.id == id && s.budget == budget && s.message == m
    ensures var s := BuildResponse(service, guid, id, maxPayload, outcome);
            && s.protocol == 1 && |s.name| == 129 && service <= s.name && s.name[|service|] == '\0'
            && s.guid == guid && s.id == id && |s.detail| == 1025
            && match outcome
               case Failure(code, _) => s.code == code
               case Success(r) =>
                 if r.envelope.version == 1 && |r.payload| <= maxPayload then s.code == 0 && s.message == r else s.code == 12
  {
  }

  lemma OtherProtocols(service: string, guid: nat, maxPayload: nat, request: RequestSample, response: ResponseSample)
    ensures request.protocol != 1 ==> !Accepts(service, maxPayload, request)
    ensures response.protocol != 1 ==> ReadResponse(service, guid, maxPayload, response).None?
  {
  }
}
