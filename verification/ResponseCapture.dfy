/**
  What the audit response writer keeps of a response, for every way the handler may cut it into writes:
  a detection prefix of fixed size, or a capture that takes a write whole or not at all.
*/
module ResponseCapture {
  import opened Options

  type Byte = b: int | 0 <= b < 256

  const DETECTION_SIZE := 512
  const STATUS_OK := 200
  const OPEN_BRACE: Byte := 0x7B
  const SPACE: Byte := 0x20

  /** `maxDataSize` is never negative in a validated configuration. */
  datatype Config = Config(includeResponseData: bool, detectErrors: bool, maxDataSize: nat)

  function Take<T>(s: seq<T>, n: nat): seq<T>
  {
    if |s| <= n then s else s[..n]
  }

  function Concat(chunks: seq<seq<Byte>>): seq<Byte>
  {
    if chunks == [] then [] else chunks[0] + Concat(chunks[1..])
  }

  /** One write into the capture buffer. */
  function Captured(max: nat, buffer: seq<Byte>, data: seq<Byte>): seq<Byte>
  {
    if |buffer| + |data| <= max then buffer + data else buffer
  }

  function CapturedAll(max: nat, buffer: seq<Byte>, chunks: seq<seq<Byte>>): seq<Byte>
    decreases |chunks|
  {
    if chunks == [] then buffer else CapturedAll(max, Captured(max, buffer, chunks[0]), chunks[1..])
  }

  /** One write into the detection buffer. */
  function Detected(buffer: seq<Byte>, data: seq<Byte>): seq<Byte>
  {
    if |buffer| < DETECTION_SIZE then buffer + Take(data, DETECTION_SIZE - |buffer|) else buffer
  }

  function DetectedAll(buffer: seq<Byte>, chunks: seq<seq<Byte>>): seq<Byte>
    decreases |chunks|
  {
    if chunks == [] then buffer else DetectedAll(Detected(buffer, chunks[0]), chunks[1..])
  }

  /** What a handler does with its response writer. */
  datatype Op = WriteHeader(code: int) | Write(data: seq<Byte>)

  class ResponseWriter {
    const config: Config
    var statusCode: int
    var body: Option<seq<Byte>>
    var errorDetectionBody: Option<seq<Byte>>
    /** What the wrapped writer has received. */
    var forwarded: seq<Op>

    /** As the middleware sets it up: the two buffers are never both there. */
    constructor (config: Config)
      ensures this.config == config && statusCode == STATUS_OK && forwarded == []
      ensures body == if config.includeResponseData then Some([]) else None
      ensures errorDetectionBody == if config.detectErrors && !config.includeResponseData then Some([]) else None
    {
      this.config := config;
      statusCode, forwarded := STATUS_OK, [];
      body := if config.includeResponseData then Some([]) else None;
      errorDetectionBody := if config.detectErrors && !config.includeResponseData then Some([]) else None;
    }

    method WriteHeader(code: int)
      modifies this`statusCode, this`forwarded
      ensures statusCode == code && forwarded == old(forwarded) + [Op.WriteHeader(code)]
    {
      statusCode := code;
      forwarded := forwarded + [Op.WriteHeader(code)];
    }

    method Write(data: seq<Byte>)
      modifies this`body, this`errorDetectionBody, this`forwarded
      ensures body == if config.includeResponseData && old(body).Some?
                      then Some(Captured(config.maxDataSize, old(body).value, data)) else old(body)
      ensures errorDetectionBody == if old(errorDetectionBody).Some?
                                    then Some(Detected(old(errorDetectionBody).value, data)) else None
      ensures forwarded == old(forwarded) + [Op.Write(data)]
    {
      if config.includeResponseData && body.Some? {
        if |body.value| + |data| <= config.maxDataSize {
          body := Some(body.value + data);
        }
      }
      if errorDetectionBody.Some? && |errorDetectionBody.value| < DETECTION_SIZE {
        var remaining := DETECTION_SIZE - |errorDetectionBody.value|;
        if |data| <= remaining {
          errorDetectionBody := Some(errorDetectionBody.value + data);
        } else {
          errorDetectionBody := Some(errorDetectionBody.value + data[..remaining]);
        }
      }
      forwarded := forwarded + [Op.Write(data)];
    }

    /** The prefix `detectApplicationError` inspects; empty when it inspects nothing. */
    method DetectionPrefix() returns (prefix: seq<Byte>)
      ensures prefix == if body.Some? && body.value != [] then Take(body.value, DETECTION_SIZE)
                        else if errorDetectionBody.Some? then errorDetectionBody.value else []
    {
      prefix := [];
      if body.Some? && |body.value| > 0 {
        prefix := body.value;
        if |prefix| > DETECTION_SIZE {
          prefix := prefix[..DETECTION_SIZE];
        }
      } else if errorDetectionBody.Some? && |errorDetectionBody.value| > 0 {
        prefix := errorDetectionBody.value;
      }
    }

    /** `detectApplicationError`: the bytes handed to the JSON-RPC parser, if they look like an object. */
    method DetectApplicationError() returns (handed: Option<seq<Byte>>)
      ensures handed == Parsable(if body.Some? && body.value != [] then Take(body.value, DETECTION_SIZE)
                                 else if errorDetectionBody.Some? then errorDetectionBody.value else [])
    {
      var prefix := DetectionPrefix();
      if |prefix| > 0 && prefix[0] == OPEN_BRACE {
        return Some(prefix);
      }
      return None;
    }

    /**
      The part of `logAuditEvent` that settles the outcome. `denied` is the mark the authorization
      middleware may have left, `hasError` what the JSON-RPC parser finds in the bytes it is handed.
    */
    method SettleOutcome(denied: bool, hasError: seq<Byte> -> bool)
      returns (outcome: AuditOutcome, handed: Option<seq<Byte>>)
      ensures handed == if config.detectErrors && StatusOutcome(statusCode, denied).Success?
                        then Parsable(if body.Some? && body.value != [] then Take(body.value, DETECTION_SIZE)
                                      else if errorDetectionBody.Some? then errorDetectionBody.value else [])
                        else None
      ensures outcome == if handed.Some? && hasError(handed.value) then ApplicationError
                         else StatusOutcome(statusCode, denied)
    {
      outcome := DetermineOutcome(statusCode);
      if denied {
        outcome := Denied;
      }
      handed := None;
      if outcome.Success? && config.detectErrors {
        handed := DetectApplicationError();
        if handed.Some? && hasError(handed.value) {
          outcome := ApplicationError;
        }
      }
    }
  }

  datatype AuditOutcome = Success | Denied | Failure | Error | ApplicationError

  function DetermineOutcome(status: int): AuditOutcome
  {
    if 200 <= status < 300 then Success
    else if status == 401 || status == 403 then Denied
    else if 400 <= status < 500 then Failure
    else if status >= 500 then Error
    else Success
  }

  /** The outcome before the response is looked at. */
  function StatusOutcome(status: int, denied: bool): AuditOutcome
  {
    if denied then Denied else DetermineOutcome(status)
  }

  /** Which statuses stand for what; the denial mark overrides them. */
  lemma OutcomeClasses(status: int, denied: bool)
    ensures var o := StatusOutcome(status, denied);
            && (o == Denied <==> denied || status == 401 || status == 403)
            && (o == Failure <==> !denied && 400 <= status < 500 && status != 401 && status != 403)
            && (o == Error <==> !denied && status >= 500)
            && (o == Success <==> !denied && status < 400)
            && o != ApplicationError
  {
  }

  function Parsable(prefix: seq<Byte>): Option<seq<Byte>>
  {
    if prefix != [] && prefix[0] == OPEN_BRACE then Some(prefix) else None
  }

  // ----- A whole response -----

  function ChunkOf(op: Op): seq<seq<Byte>>
  {
    if op.Write? then [op.data] else []
  }

  /** The data written, write by write. */
  function Chunks(ops: seq<Op>): seq<seq<Byte>>
  {
    if ops == [] then [] else ChunkOf(ops[0]) + Chunks(ops[1..])
  }

  /** The status recorded last. */
  function LastStatus(before: int, ops: seq<Op>): int
    decreases |ops|
  {
    if ops == [] then before
    else LastStatus(if ops[0].WriteHeader? then ops[0].code else before, ops[1..])
  }

  /** From a place on where no header is written, the status is that of the header just before it, or the first. */
  lemma {:induction false} LastStatusIsLast(before: int, ops: seq<Op>, n: nat)
    requires n <= |ops| && forall j :: n <= j < |ops| ==> !ops[j].WriteHeader?
    requires n > 0 ==> ops[n - 1].WriteHeader?
    ensures LastStatus(before, ops) == if n == 0 then before else ops[n - 1].code
    decreases |ops|
  {
    if ops != [] {
      var first := if ops[0].WriteHeader? then ops[0].code else before;
      LastStatusIsLast(first, ops[1..], if n <= 1 then 0 else n - 1);
    }
  }

  function BodyAfter(c: Config, body: Option<seq<Byte>>, chunks: seq<seq<Byte>>): Option<seq<Byte>>
  {
    if c.includeResponseData && body.Some? then Some(CapturedAll(c.maxDataSize, body.value, chunks)) else body
  }

  function PrefixAfter(prefix: Option<seq<Byte>>, chunks: seq<seq<Byte>>): Option<seq<Byte>>
  {
    if prefix.Some? then Some(DetectedAll(prefix.value, chunks)) else None
  }

  lemma OneChunk(c: Config, body: Option<seq<Byte>>, prefix: Option<seq<Byte>>, data: seq<Byte>)
    ensures BodyAfter(c, body, [data]) == if c.includeResponseData && body.Some?
                                          then Some(Captured(c.maxDataSize, body.value, data)) else body
    ensures PrefixAfter(prefix, [data]) == if prefix.Some? then Some(Detected(prefix.value, data)) else None
  {
    var none := [data][1..];
    assert none == [];
    if body.Some? {
      var taken := Captured(c.maxDataSize, body.value, data);
      assert CapturedAll(c.maxDataSize, taken, none) == taken;
    }
    if prefix.Some? {
      var taken := Detected(prefix.value, data);
      assert DetectedAll(taken, none) == taken;
    }
  }

  /** One more chunk in front is one more write first. */
  lemma ChunkFirst(c: Config, body: Option<seq<Byte>>, prefix: Option<seq<Byte>>, op: Op, chunks: seq<seq<Byte>>)
    ensures BodyAfter(c, BodyAfter(c, body, ChunkOf(op)), chunks) == BodyAfter(c, body, ChunkOf(op) + chunks)
    ensures PrefixAfter(PrefixAfter(prefix, ChunkOf(op)), chunks) == PrefixAfter(prefix, ChunkOf(op) + chunks)
  {
    if op.Write? {
      assert (ChunkOf(op) + chunks)[0] == op.data && (ChunkOf(op) + chunks)[1..] == chunks;
      OneChunk(c, body, prefix, op.data);
    } else {
      assert ChunkOf(op) + chunks == chunks;
    }
  }

  method Perform(rw: ResponseWriter, op: Op)
    modifies rw
    ensures rw.forwarded == old(rw.forwarded) + [op]
    ensures rw.body == BodyAfter(rw.config, old(rw.body), ChunkOf(op))
    ensures rw.errorDetectionBody == PrefixAfter(old(rw.errorDetectionBody), ChunkOf(op))
    ensures rw.statusCode == if op.WriteHeader? then op.code else old(rw.statusCode)
  {
    match op {
      case WriteHeader(code) => rw.WriteHeader(code);
      case Write(data) =>
        OneChunk(rw.config, rw.body, rw.errorDetectionBody, data);
        rw.Write(data);
    }
  }

  /** The writer after all operations of a handler: each is passed on as it came. */
  method Handle(rw: ResponseWriter, ops: seq<Op>)
    modifies rw
    ensures rw.forwarded == old(rw.forwarded) + ops
    ensures rw.body == BodyAfter(rw.config, old(rw.body), Chunks(ops))
    ensures rw.errorDetectionBody == PrefixAfter(old(rw.errorDetectionBody), Chunks(ops))
    ensures rw.statusCode == LastStatus(old(rw.statusCode), ops)
    decreases |ops|
  {
    if ops != [] {
      Perform(rw, ops[0]);
      ChunkFirst(rw.config, old(rw.body), old(rw.errorDetectionBody), ops[0], Chunks(ops[1..]));
      Handle(rw, ops[1..]);
      assert [ops[0]] + ops[1..] == ops;
    }
  }

  /** What error detection may look at, by capture mode. */
  function Inspected(c: Config, chunks: seq<seq<Byte>>): seq<Byte>
  {
    if c.includeResponseData then Take(CapturedAll(c.maxDataSize, [], chunks), DETECTION_SIZE)
    else Take(Concat(chunks), DETECTION_SIZE)
  }

  /** What the parser is handed: nothing unless detection is on and the status stands for success. */
  function Handed(c: Config, status: int, denied: bool, chunks: seq<seq<Byte>>): Option<seq<Byte>>
  {
    if c.detectErrors && StatusOutcome(status, denied).Success? then Parsable(Inspected(c, chunks)) else None
  }

  /** The outcome the audit event reports. */
  function Reported(c: Config, status: int, denied: bool, hasError: seq<Byte> -> bool,
                    chunks: seq<seq<Byte>>): AuditOutcome
  {
    var handed := Handed(c, status, denied, chunks);
    if handed.Some? && hasError(handed.value) then ApplicationError else StatusOutcome(status, denied)
  }

  /** The response is looked at only for a success with detection on; otherwise the status stands. */
  lemma StatusStands(c: Config, status: int, denied: bool, hasError: seq<Byte> -> bool, chunks: seq<seq<Byte>>)
    requires !c.detectErrors || denied || status >= 400 || forall bytes :: !hasError(bytes)
    ensures Reported(c, status, denied, hasError, chunks) == StatusOutcome(status, denied)
    ensures !c.detectErrors || denied || status >= 400 ==> Handed(c, status, denied, chunks) == None
  {
  }

  /** The middleware around a handler: what the client gets, what the parser is handed, what is reported. */
  method ServeResponse(c: Config, ops: seq<Op>, denied: bool, hasError: seq<Byte> -> bool)
    returns (sent: seq<Op>, handed: Option<seq<Byte>>, outcome: AuditOutcome)
    ensures sent == ops
    ensures handed == Handed(c, LastStatus(STATUS_OK, ops), denied, Chunks(ops))
    ensures outcome == Reported(c, LastStatus(STATUS_OK, ops), denied, hasError, Chunks(ops))
  {
    var rw := new ResponseWriter(c);
    Handle(rw, ops);
    sent := rw.forwarded;
    outcome, handed := rw.SettleOutcome(denied, hasError);
    DetectionIsPrefix(Chunks(ops));
  }

  // ----- The detection buffer -----

  /** One write keeps the buffer a prefix of the response so far. */
  lemma DetectedIsPrefix(buffer: seq<Byte>, data: seq<Byte>, rest: seq<Byte>)
    requires |buffer| <= DETECTION_SIZE
    ensures Take(Detected(buffer, data) + rest, DETECTION_SIZE) == Take(buffer + (data + rest), DETECTION_SIZE)
  {
    var n := DETECTION_SIZE - |buffer|;
    assert buffer + (data + rest) == buffer + data + rest;
    if |data| <= n {
      assert Detected(buffer, data) == buffer + data;
    } else {
      assert Detected(buffer, data) == buffer + data[..n];
      assert (buffer + data + rest)[..DETECTION_SIZE] == buffer + data[..n];
    }
  }

  lemma {:induction false} DetectionFrom(buffer: seq<Byte>, chunks: seq<seq<Byte>>)
    requires |buffer| <= DETECTION_SIZE
    ensures DetectedAll(buffer, chunks) == Take(buffer + Concat(chunks), DETECTION_SIZE)
    decreases |chunks|
  {
    if chunks == [] {
      assert buffer + [] == buffer;
    } else {
      DetectionFrom(Detected(buffer, chunks[0]), chunks[1..]);
      DetectedIsPrefix(buffer, chunks[0], Concat(chunks[1..]));
    }
  }

  /** However the response is cut, the detection buffer is exactly its first bytes. */
  lemma DetectionIsPrefix(chunks: seq<seq<Byte>>)
    ensures DetectedAll([], chunks) == Take(Concat(chunks), DETECTION_SIZE)
  {
    DetectionFrom([], chunks);
    assert [] + Concat(chunks) == Concat(chunks);
  }

  // ----- The capture buffer -----

  /** How much has been captured when the first write does not fit, or in the end. */
  function Kept(max: nat, done: nat, chunks: seq<seq<Byte>>): nat
    decreases |chunks|
  {
    if chunks == [] || done + |chunks[0]| > max then done
    else Kept(max, done + |chunks[0]|, chunks[1..])
  }

  /** Some write does not fit. */
  predicate Skips(max: nat, done: nat, chunks: seq<seq<Byte>>)
    decreases |chunks|
  {
    chunks != [] && (done + |chunks[0]| > max || Skips(max, done + |chunks[0]|, chunks[1..]))
  }

  /** The capture only grows and stays within its bound. */
  lemma {:induction false} CaptureGrows(max: nat, buffer: seq<Byte>, chunks: seq<seq<Byte>>)
    requires |buffer| <= max
    ensures buffer <= CapturedAll(max, buffer, chunks) && |CapturedAll(max, buffer, chunks)| <= max
    decreases |chunks|
  {
    if chunks != [] {
      CaptureGrows(max, Captured(max, buffer, chunks[0]), chunks[1..]);
    }
  }

  /** Up to the first write that does not fit, the capture is the response. */
  lemma {:induction false} KeptIsCommon(max: nat, buffer: seq<Byte>, chunks: seq<seq<Byte>>)
    requires |buffer| <= max
    ensures var k := Kept(max, |buffer|, chunks);
            var all := buffer + Concat(chunks); var got := CapturedAll(max, buffer, chunks);
            && k <= |got| <= max && k <= |all| && got[..k] == all[..k]
            && (Skips(max, |buffer|, chunks) ==> |all| > k)
            && (!Skips(max, |buffer|, chunks) ==> got == all)
    decreases |chunks|
  {
    if chunks == [] {
      assert buffer + [] == buffer;
    } else if |buffer| + |chunks[0]| > max {
      CaptureGrows(max, buffer, chunks[1..]);
      assert (buffer + Concat(chunks))[..|buffer|] == buffer;
    } else {
      KeptIsCommon(max, buffer + chunks[0], chunks[1..]);
      assert buffer + chunks[0] + Concat(chunks[1..]) == buffer + Concat(chunks);
    }
  }

  /** The same from an empty buffer. */
  lemma KeptFromStart(max: nat, chunks: seq<seq<Byte>>)
    ensures Kept(max, 0, chunks) <= |CapturedAll(max, [], chunks)| <= max && Kept(max, 0, chunks) <= |Concat(chunks)|
    ensures CapturedAll(max, [], chunks)[..Kept(max, 0, chunks)] == Concat(chunks)[..Kept(max, 0, chunks)]
    ensures Skips(max, 0, chunks) ==> |Concat(chunks)| > Kept(max, 0, chunks)
    ensures !Skips(max, 0, chunks) ==> CapturedAll(max, [], chunks) == Concat(chunks)
  {
    KeptIsCommon(max, [], chunks);
    assert [] + Concat(chunks) == Concat(chunks);
  }

  lemma {:induction false} SkipsWhenTooLong(max: nat, done: nat, chunks: seq<seq<Byte>>)
    requires done <= max
    ensures Skips(max, done, chunks) <==> done + |Concat(chunks)| > max
    decreases |chunks|
  {
    if chunks != [] && done + |chunks[0]| <= max {
      SkipsWhenTooLong(max, done + |chunks[0]|, chunks[1..]);
    }
  }

  /** The capture never exceeds the limit, and it is the whole response exactly when the response fits. */
  lemma CaptureIsWhole(max: nat, chunks: seq<seq<Byte>>)
    ensures |CapturedAll(max, [], chunks)| <= max
    ensures CapturedAll(max, [], chunks) == Concat(chunks) <==> |Concat(chunks)| <= max
  {
    KeptFromStart(max, chunks);
    SkipsWhenTooLong(max, 0, chunks);
  }

  // ----- Exactly when the capture can be trusted as a prefix -----

  predicate SameShape(chunks: seq<seq<Byte>>, others: seq<seq<Byte>>)
  {
    |chunks| == |others| && forall i :: 0 <= i < |chunks| ==> |chunks[i]| == |others[i]|
  }

  lemma {:induction false} SameLengths(max: nat, a: seq<Byte>, b: seq<Byte>,
                                       chunks: seq<seq<Byte>>, others: seq<seq<Byte>>)
    requires SameShape(chunks, others) && |a| == |b|
    ensures |CapturedAll(max, a, chunks)| == |CapturedAll(max, b, others)|
    ensures Kept(max, |a|, chunks) == Kept(max, |b|, others)
    ensures Skips(max, |a|, chunks) <==> Skips(max, |b|, others)
    decreases |chunks|
  {
    if chunks != [] {
      SameLengths(max, Captured(max, a, chunks[0]), Captured(max, b, others[0]), chunks[1..], others[1..]);
    }
  }

  /** The bytes cut into writes of the same lengths. */
  function Cut(bytes: seq<Byte>, shape: seq<seq<Byte>>): (chunks: seq<seq<Byte>>)
    requires |bytes| == |Concat(shape)|
    ensures SameShape(shape, chunks) && Concat(chunks) == bytes
    decreases |shape|
  {
    if shape == [] then []
    else
      var n := |shape[0]|;
      assert bytes == bytes[..n] + bytes[n..];
      [bytes[..n]] + Cut(bytes[n..], shape[1..])
  }

  /** White space of JSON. */
  predicate IsBlank(b: Byte)
  {
    b == SPACE || b == 0x09 || b == 0x0A || b == 0x0D
  }

  predicate Blank(s: seq<Byte>)
  {
    forall i :: 0 <= i < |s| ==> IsBlank(s[i])
  }

  function Spaces(n: nat): (s: seq<Byte>)
    ensures |s| == n && Blank(s)
  {
    seq(n, _ => SPACE)
  }

  /** How many bytes are not blank. */
  function Ink(s: seq<Byte>): (n: nat)
    ensures n <= |s|
  {
    if s == [] then 0 else (if IsBlank(s[0]) then 0 else 1) + Ink(s[1..])
  }

  lemma {:induction false} InkConcat(a: seq<Byte>, b: seq<Byte>)
    ensures Ink(a + b) == Ink(a) + Ink(b)
  {
    if a == [] {
      assert a + b == b;
    } else {
      assert (a + b)[1..] == a[1..] + b;
      InkConcat(a[1..], b);
    }
  }

  lemma {:induction false} NoInk(s: seq<Byte>)
    ensures Ink(s) == 0 <==> Blank(s)
  {
    if s != [] {
      NoInk(s[1..]);
      assert Blank(s) <==> IsBlank(s[0]) && Blank(s[1..]) by {
        assert s == [s[0]] + s[1..];
      }
    }
  }

  /** Nothing is captured that was not written. */
  lemma {:induction false} CaptureAddsNothing(max: nat, buffer: seq<Byte>, chunks: seq<seq<Byte>>)
    ensures Ink(CapturedAll(max, buffer, chunks)) <= Ink(buffer) + Ink(Concat(chunks))
    ensures |CapturedAll(max, buffer, chunks)| <= |buffer| + |Concat(chunks)|
    decreases |chunks|
  {
    if chunks != [] {
      CaptureAddsNothing(max, Captured(max, buffer, chunks[0]), chunks[1..]);
      InkConcat(buffer, chunks[0]);
      InkConcat(chunks[0], Concat(chunks[1..]));
    }
  }

  /** The first write that does not fit is lost for good, and it starts where the captured prefix ends. */
  lemma {:induction false} SkippedInk(max: nat, buffer: seq<Byte>, chunks: seq<seq<Byte>>)
    requires |buffer| <= max && Skips(max, |buffer|, chunks)
    ensures var k := Kept(max, |buffer|, chunks); var all := buffer + Concat(chunks);
            k < |all| && (!IsBlank(all[k]) ==> Ink(CapturedAll(max, buffer, chunks)) < Ink(all))
    decreases |chunks|
  {
    if |buffer| + |chunks[0]| > max {
      SkippedHere(max, buffer, chunks);
    } else {
      var longer := buffer + chunks[0];
      SkippedInk(max, longer, chunks[1..]);
      assert longer + Concat(chunks[1..]) == buffer + Concat(chunks);
    }
  }

  lemma SkippedHere(max: nat, buffer: seq<Byte>, chunks: seq<seq<Byte>>)
    requires |buffer| <= max && chunks != [] && |buffer| + |chunks[0]| > max
    ensures var all := buffer + Concat(chunks);
            !IsBlank(all[|buffer|]) ==> Ink(CapturedAll(max, buffer, chunks)) < Ink(all)
  {
    CaptureAddsNothing(max, buffer, chunks[1..]);
    InkConcat(buffer, Concat(chunks));
    InkConcat(chunks[0], Concat(chunks[1..]));
    assert (buffer + Concat(chunks))[|buffer|] == chunks[0][0];
  }

  /** Bytes for this shape that lose something when captured, given one that is not blank where the first gap is. */
  lemma GapWitness(max: nat, chunks: seq<seq<Byte>>, bytes: seq<Byte>) returns (others: seq<seq<Byte>>)
    requires Skips(max, 0, chunks) && |bytes| == |Concat(chunks)|
    requires Kept(max, 0, chunks) < |bytes| && !IsBlank(bytes[Kept(max, 0, chunks)])
    ensures SameShape(chunks, others) && Concat(others) == bytes
    ensures Ink(CapturedAll(max, [], others)) < Ink(bytes)
  {
    others := Cut(bytes, chunks);
    SameLengths(max, [], [], chunks, others);
    SkippedInk(max, [], others);
    assert [] + bytes == bytes;
  }

  ghost predicate AlwaysPrefix(max: nat, chunks: seq<seq<Byte>>)
  {
    forall others :: SameShape(chunks, others) ==> CapturedAll(max, [], others) <= Concat(others)
  }

  /** No write that brings something fits any more. */
  predicate NoneFits(max: nat, done: nat, chunks: seq<seq<Byte>>)
  {
    forall i :: 0 <= i < |chunks| ==> |chunks[i]| == 0 || done + |chunks[i]| > max
  }

  /** After the first write that does not fit, every later one is empty or does not fit either. */
  predicate NoneAfterSkip(max: nat, done: nat, chunks: seq<seq<Byte>>)
    decreases |chunks|
  {
    chunks == [] ||
    if done + |chunks[0]| > max then NoneFits(max, done, chunks[1..])
    else NoneAfterSkip(max, done + |chunks[0]|, chunks[1..])
  }

  lemma {:induction false} NothingTakenExactly(max: nat, buffer: seq<Byte>, chunks: seq<seq<Byte>>)
    requires |buffer| <= max
    ensures NoneFits(max, |buffer|, chunks) <==> |CapturedAll(max, buffer, chunks)| == |buffer|
    decreases |chunks|
  {
    if chunks != [] {
      var taken := Captured(max, buffer, chunks[0]);
      CaptureGrows(max, taken, chunks[1..]);
      if |taken| == |buffer| {
        NothingTakenExactly(max, taken, chunks[1..]);
        assert forall i :: 0 <= i < |chunks[1..]| ==> chunks[1..][i] == chunks[i + 1];
        assert forall i :: 0 < i < |chunks| ==> chunks[i] == chunks[1..][i - 1];
      }
    }
  }

  lemma {:induction false} KeptAllExactly(max: nat, buffer: seq<Byte>, chunks: seq<seq<Byte>>)
    requires |buffer| <= max
    ensures NoneAfterSkip(max, |buffer|, chunks)
            <==> |CapturedAll(max, buffer, chunks)| == Kept(max, |buffer|, chunks)
    decreases |chunks|
  {
    if chunks == [] {
    } else if |buffer| + |chunks[0]| > max {
      NothingTakenExactly(max, buffer, chunks[1..]);
    } else {
      KeptAllExactly(max, buffer + chunks[0], chunks[1..]);
    }
  }

  /** Without a skipped write everything is kept. */
  lemma {:induction false} WholeIsKept(max: nat, buffer: seq<Byte>, chunks: seq<seq<Byte>>)
    ensures !Skips(max, |buffer|, chunks) ==> Kept(max, |buffer|, chunks) == |CapturedAll(max, buffer, chunks)|
    decreases |chunks|
  {
    if chunks != [] {
      WholeIsKept(max, Captured(max, buffer, chunks[0]), chunks[1..]);
    }
  }

  /** A response that is blank but for the byte at the first gap. */
  lemma BlankButForTheGap(max: nat, chunks: seq<seq<Byte>>) returns (others: seq<seq<Byte>>)
    requires Skips(max, 0, chunks) && Kept(max, 0, chunks) < |CapturedAll(max, [], chunks)|
    ensures SameShape(chunks, others) && !(CapturedAll(max, [], others) <= Concat(others))
  {
    KeptFromStart(max, chunks);
    var k, n := Kept(max, 0, chunks), |Concat(chunks)|;
    var before, after := Spaces(k) + [OPEN_BRACE], Spaces(n - k - 1);
    var bytes := before + after;
    assert bytes[k] == OPEN_BRACE;
    others := GapWitness(max, chunks, bytes);
    InkConcat(Spaces(k), [OPEN_BRACE]);
    InkConcat(before, after);
    NoInk(Spaces(k));
    NoInk(after);
    NoInk(CapturedAll(max, [], others));
    SameLengths(max, [], [], chunks, others);
  }

  /**
    The captured body is a prefix of the response, whatever its bytes, exactly when the lengths of the
    writes are such that nothing fits any more after the first write that did not; a later, smaller
    write leaves a gap in the record.
  */
  lemma CaptureIsPrefixExactly(max: nat, chunks: seq<seq<Byte>>)
    ensures AlwaysPrefix(max, chunks) <==> NoneAfterSkip(max, 0, chunks)
  {
    KeptAllExactly(max, [], chunks);
    if NoneAfterSkip(max, 0, chunks) {
      forall others | SameShape(chunks, others) ensures CapturedAll(max, [], others) <= Concat(others) {
        SameLengths(max, [], [], chunks, others);
        KeptFromStart(max, others);
      }
    } else {
      WholeIsKept(max, [], chunks);
      KeptFromStart(max, chunks);
      var others := BlankButForTheGap(max, chunks);
    }
  }

  /** A gap: with room for one byte, two bytes are dropped and the byte after them is kept. */
  lemma CaptureGap(a: Byte, b: Byte, d: Byte)
    requires d != a
    ensures CapturedAll(1, [], [[a, b], [d]]) == [d] && Concat([[a, b], [d]]) == [a, b, d]
    ensures !(CapturedAll(1, [], [[a, b], [d]]) <= Concat([[a, b], [d]]))
  {
    assert CapturedAll(1, [], [[a, b], [d]]) == CapturedAll(1, [], [[d]]) == CapturedAll(1, [d], []);
    assert Concat([[a, b], [d]]) == [a, b] + Concat([[d]]) && Concat([[d]]) == [d] + Concat([]);
  }
}
