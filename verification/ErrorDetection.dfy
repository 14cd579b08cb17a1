/**
  Which JSON-RPC errors the audit event reports. Detection hands a bounded part of the response to a JSON
  parser, which reads complete values only; the part is the start of the response, or, with capture on,
  the start of what was captured.
*/
module ErrorDetection {
  import opened Options
  import opened ResponseCapture

  // ----- What the parser makes of its bytes -----

  const CLOSE_BRACE: Byte := 0x7D

  /** The start of the shortest error answer, an object whose member `error` is an empty object. */
  const ENVELOPE: seq<Byte> := [0x7B, 0x22, 0x65, 0x72, 0x72, 0x6F, 0x72, 0x22, 0x3A, 0x7B, 0x7D]

  const SHORTEST_ERROR := 12

  /** That answer, with blanks before its last brace and after it. */
  function Answer(inside: nat, after: nat): seq<Byte>
  {
    ENVELOPE + Spaces(inside) + [CLOSE_BRACE] + Spaces(after)
  }

  /**
    What is used of `ParseMCPResponse`: it finds the error in the shortest answer however that is padded,
    finds none in less ink than that answer has, and reads complete values only, so that an answer cut
    short is still read exactly when nothing but blanks is cut off.
  */
  ghost predicate ReadsAnswers(hasError: seq<Byte> -> bool)
  {
    && (forall inside, after :: hasError(Answer(inside, after)))
    && (forall bytes :: hasError(bytes) ==> Ink(bytes) >= SHORTEST_ERROR)
    && (forall bytes, n :: 0 <= n <= |bytes| && hasError(bytes) ==> (hasError(bytes[..n]) <==> Blank(bytes[n..])))
  }

  lemma AnswerInk(inside: nat, after: nat)
    ensures Ink(Answer(inside, after)) == SHORTEST_ERROR
  {
    var a, b := ENVELOPE + Spaces(inside), ENVELOPE + Spaces(inside) + [CLOSE_BRACE];
    EnvelopeInk();
    InkConcat(ENVELOPE, Spaces(inside));
    InkConcat(a, [CLOSE_BRACE]);
    InkConcat(b, Spaces(after));
    NoInk(Spaces(inside));
    NoInk(Spaces(after));
  }

  predicate NoBlank(s: seq<Byte>)
  {
    forall i :: 0 <= i < |s| ==> !IsBlank(s[i])
  }

  lemma {:induction false} AllInk(s: seq<Byte>)
    requires NoBlank(s)
    ensures Ink(s) == |s|
  {
    if s != [] { AllInk(s[1..]); }
  }

  lemma EnvelopeIsInk(envelope: seq<Byte>)
    requires envelope == ENVELOPE
    ensures |envelope| == SHORTEST_ERROR - 1 && NoBlank(envelope)
  {
  }

  lemma EnvelopeInk()
    ensures Ink(ENVELOPE) == SHORTEST_ERROR - 1
  {
    var envelope := ENVELOPE;
    EnvelopeIsInk(envelope);
    AllInk(envelope);
  }

  // ----- Which errors are reported -----

  lemma OneWrite(answer: seq<Byte>)
    ensures Concat([answer]) == answer
  {
    var chunks := [answer];
    assert chunks[1..] == [] && Concat(chunks) == answer + Concat(chunks[1..]);
  }

  /**
    An error answer that reaches the record whole is reported exactly when it starts with its brace and
    nothing but blanks lies beyond the detection prefix.
  */
  lemma ErrorIsReportedExactly(c: Config, status: int, hasError: seq<Byte> -> bool, chunks: seq<seq<Byte>>)
    requires ReadsAnswers(hasError) && hasError(Concat(chunks))
    requires c.detectErrors && StatusOutcome(status, false).Success?
    requires c.includeResponseData ==> |Concat(chunks)| <= c.maxDataSize
    ensures var answer := Concat(chunks);
            answer != [] &&
            (Reported(c, status, false, hasError, chunks) == ApplicationError
             <==> answer[0] == OPEN_BRACE && (|answer| <= DETECTION_SIZE || Blank(answer[DETECTION_SIZE..])))
  {
    var answer := Concat(chunks);
    CaptureIsWhole(c.maxDataSize, chunks);
    assert Inspected(c, chunks) == Take(answer, DETECTION_SIZE);
    if |answer| > DETECTION_SIZE {
      assert hasError(answer[..DETECTION_SIZE]) <==> Blank(answer[DETECTION_SIZE..]);
    }
  }

  /** A long error is missed in either mode: here its last brace lies beyond the detection prefix. */
  lemma LongErrorIsMissed(c: Config, hasError: seq<Byte> -> bool, inside: nat)
    requires ReadsAnswers(hasError) && c.detectErrors && inside >= DETECTION_SIZE
    requires c.includeResponseData ==> inside + SHORTEST_ERROR <= c.maxDataSize
    ensures hasError(Answer(inside, 0)) && Reported(c, STATUS_OK, false, hasError, [Answer(inside, 0)]) == Success
  {
    var answer := Answer(inside, 0);
    OneWrite(answer);
    ErrorIsReportedExactly(c, STATUS_OK, hasError, [answer]);
    assert answer[DETECTION_SIZE..][|answer| - 1 - DETECTION_SIZE] == CLOSE_BRACE;
  }

  // ----- Exactly when the two capture modes report the same outcome -----

  /** With and without capture of the response, for a response cut this way. */
  predicate ModesAgree(max: nat, status: int, denied: bool, hasError: seq<Byte> -> bool, chunks: seq<seq<Byte>>)
  {
    Reported(Config(true, true, max), status, denied, hasError, chunks)
    == Reported(Config(false, true, max), status, denied, hasError, chunks)
  }

  /** The same whatever the bytes are. */
  ghost predicate ModesAlwaysAgree(max: nat, status: int, denied: bool, hasError: seq<Byte> -> bool,
                                   chunks: seq<seq<Byte>>)
  {
    forall others :: SameShape(chunks, others) ==> ModesAgree(max, status, denied, hasError, others)
  }

  lemma CommonPrefix(a: seq<Byte>, b: seq<Byte>, k: nat)
    requires DETECTION_SIZE <= k <= |a| && k <= |b| && a[..k] == b[..k]
    ensures Take(a, DETECTION_SIZE) == Take(b, DETECTION_SIZE)
  {
    assert a[..k][..DETECTION_SIZE] == a[..DETECTION_SIZE];
    assert b[..k][..DETECTION_SIZE] == b[..DETECTION_SIZE];
  }

  /** Both modes look at the same bytes when the response fits or what was kept fills the prefix. */
  lemma SameBytesInspected(max: nat, chunks: seq<seq<Byte>>)
    requires |Concat(chunks)| <= max || Kept(max, 0, chunks) >= DETECTION_SIZE
    ensures Inspected(Config(true, true, max), chunks) == Inspected(Config(false, true, max), chunks)
  {
    SkipsWhenTooLong(max, 0, chunks);
    KeptFromStart(max, chunks);
    if Skips(max, 0, chunks) {
      CommonPrefix(CapturedAll(max, [], chunks), Concat(chunks), Kept(max, 0, chunks));
    }
  }

  lemma {:induction false} SameShapeSameLength(chunks: seq<seq<Byte>>, others: seq<seq<Byte>>)
    requires SameShape(chunks, others)
    ensures |Concat(chunks)| == |Concat(others)|
    decreases |chunks|
  {
    if chunks != [] {
      SameShapeSameLength(chunks[1..], others[1..]);
    }
  }

  /** A response shorter than the shortest error is no error in either mode. */
  lemma ShortResponse(c: Config, hasError: seq<Byte> -> bool, chunks: seq<seq<Byte>>)
    requires ReadsAnswers(hasError) && |Concat(chunks)| < SHORTEST_ERROR
    ensures !hasError(Inspected(c, chunks))
  {
    CaptureAddsNothing(c.maxDataSize, [], chunks);
  }

  lemma {:induction false} TakeInk(s: seq<Byte>, n: nat)
    ensures Ink(Take(s, n)) <= Ink(s)
  {
    if |s| > n {
      InkConcat(s[..n], s[n..]);
      assert s[..n] + s[n..] == s;
    }
  }

  /** A padded answer has ink at its first places and at its last brace, and nowhere else. */
  lemma AnswerLayout(inside: nat, after: nat, answer: seq<Byte>)
    requires answer == Answer(inside, after)
    ensures |answer| == SHORTEST_ERROR + inside + after && answer[0] == OPEN_BRACE
    ensures !IsBlank(answer[SHORTEST_ERROR - 1 + inside])
    ensures forall i :: 0 <= i < SHORTEST_ERROR - 1 ==> !IsBlank(answer[i])
    ensures forall i :: SHORTEST_ERROR + inside <= i < |answer| ==> IsBlank(answer[i])
  {
    EnvelopeIsInk(ENVELOPE);
  }

  /** An answer of this length with ink at this place, which the parser finds in the detection prefix. */
  lemma AnswerWithInkAt(hasError: seq<Byte> -> bool, n: nat, k: nat) returns (answer: seq<Byte>)
    requires ReadsAnswers(hasError) && SHORTEST_ERROR <= n && k < n && k < DETECTION_SIZE
    ensures |answer| == n && !IsBlank(answer[k]) && answer[0] == OPEN_BRACE
    ensures Ink(answer) == SHORTEST_ERROR && hasError(Take(answer, DETECTION_SIZE))
  {
    var inside := if k < SHORTEST_ERROR then 0 else k - SHORTEST_ERROR + 1;
    answer := Answer(inside, n - SHORTEST_ERROR - inside);
    AnswerLayout(inside, n - SHORTEST_ERROR - inside, answer);
    AnswerInk(inside, n - SHORTEST_ERROR - inside);
    if n > DETECTION_SIZE {
      assert hasError(answer[..DETECTION_SIZE]) <==> Blank(answer[DETECTION_SIZE..]);
    }
  }

  /** Otherwise some response of the same shape is an error that only the mode without capture finds. */
  lemma CaptureLosesAnError(max: nat, hasError: seq<Byte> -> bool, chunks: seq<seq<Byte>>)
      returns (others: seq<seq<Byte>>)
    requires ReadsAnswers(hasError) && |Concat(chunks)| >= SHORTEST_ERROR
    requires |Concat(chunks)| > max && Kept(max, 0, chunks) < DETECTION_SIZE
    ensures SameShape(chunks, others)
    ensures var read := Inspected(Config(false, true, max), others); Parsable(read) == Some(read) && hasError(read)
    ensures !hasError(Inspected(Config(true, true, max), others))
  {
    SkipsWhenTooLong(max, 0, chunks);
    KeptFromStart(max, chunks);
    var answer := AnswerWithInkAt(hasError, |Concat(chunks)|, Kept(max, 0, chunks));
    others := GapWitness(max, chunks, answer);
    TakeInk(CapturedAll(max, [], others), DETECTION_SIZE);
  }

  /**
    Turning capture on leaves the reported outcome as it is, whatever the response holds, exactly when the
    status decides alone, the response is too short for an error, it fits, or the first write that does not
    fit lies beyond the detection prefix.
  */
  lemma ModesAgreeExactly(max: nat, status: int, denied: bool, hasError: seq<Byte> -> bool, chunks: seq<seq<Byte>>)
    requires ReadsAnswers(hasError)
    ensures ModesAlwaysAgree(max, status, denied, hasError, chunks)
            <==> !StatusOutcome(status, denied).Success? || |Concat(chunks)| < SHORTEST_ERROR
                 || |Concat(chunks)| <= max || Kept(max, 0, chunks) >= DETECTION_SIZE
  {
    if !StatusOutcome(status, denied).Success? || |Concat(chunks)| < SHORTEST_ERROR
       || |Concat(chunks)| <= max || Kept(max, 0, chunks) >= DETECTION_SIZE {
      forall others | SameShape(chunks, others) ensures ModesAgree(max, status, denied, hasError, others) {
        SameShapeSameLength(chunks, others);
        SameLengths(max, [], [], chunks, others);
        if |Concat(chunks)| < SHORTEST_ERROR {
          ShortResponse(Config(true, true, max), hasError, others);
          ShortResponse(Config(false, true, max), hasError, others);
        } else if StatusOutcome(status, denied).Success? {
          SameBytesInspected(max, others);
        }
      }
    } else {
      var others := CaptureLosesAnError(max, hasError, chunks);
      assert !ModesAgree(max, status, denied, hasError, others);
    }
  }

  /** Any error answer that the prefix holds and the capture does not: with capture it is taken for a success. */
  lemma CaptureHidesError(max: nat, answer: seq<Byte>, hasError: seq<Byte> -> bool)
    requires max < |answer| <= DETECTION_SIZE && answer[0] == OPEN_BRACE && hasError(answer)
    ensures Reported(Config(true, true, max), STATUS_OK, false, hasError, [answer]) == Success
    ensures Reported(Config(false, true, max), STATUS_OK, false, hasError, [answer]) == ApplicationError
  {
    OneWrite(answer);
    assert CapturedAll(max, [], [answer]) == CapturedAll(max, [], []) == [];
  }

  // ----- The parser's contract has a model -----

  /** Blanks, the last brace, blanks. */
  predicate Closes(s: seq<Byte>)
  {
    s != [] && if s[0] == CLOSE_BRACE then Blank(s[1..]) else IsBlank(s[0]) && Closes(s[1..])
  }

  predicate IsAnswer(s: seq<Byte>)
  {
    |s| >= SHORTEST_ERROR && s[..SHORTEST_ERROR - 1] == ENVELOPE && Closes(s[SHORTEST_ERROR - 1..])
  }

  lemma {:induction false} PaddedCloses(inside: nat, after: nat)
    ensures Closes(Spaces(inside) + [CLOSE_BRACE] + Spaces(after))
  {
    var s := Spaces(inside) + [CLOSE_BRACE] + Spaces(after);
    if inside == 0 {
      assert s[0] == CLOSE_BRACE && s[1..] == Spaces(after);
    } else {
      PaddedCloses(inside - 1, after);
      assert s[0] == SPACE && s[1..] == Spaces(inside - 1) + [CLOSE_BRACE] + Spaces(after);
    }
  }

  lemma {:induction false} ClosesInk(s: seq<Byte>)
    requires Closes(s)
    ensures Ink(s) >= 1
  {
    if s[0] != CLOSE_BRACE { ClosesInk(s[1..]); }
  }

  lemma {:induction false} ClosesCut(s: seq<Byte>, n: nat)
    requires Closes(s) && n <= |s|
    ensures Closes(s[..n]) <==> Blank(s[n..])
  {
    if n == 0 {
      ClosesInk(s);
      NoInk(s);
      assert s[0..] == s;
    } else if s[0] == CLOSE_BRACE {
      assert s[..n][1..] == s[1..n];
      assert Blank(s[1..n]) && Blank(s[n..]) by {
        assert forall i :: 0 <= i < n - 1 ==> s[1..n][i] == s[1..][i];
        assert forall i :: 0 <= i < |s| - n ==> s[n..][i] == s[1..][n - 1 + i];
      }
    } else {
      ClosesCut(s[1..], n - 1);
      assert s[..n][1..] == s[1..][..n - 1] && s[1..][n - 1..] == s[n..];
    }
  }

  lemma AnswerCut(s: seq<Byte>, n: nat)
    requires IsAnswer(s) && n <= |s|
    ensures IsAnswer(s[..n]) <==> Blank(s[n..])
  {
    var body := s[SHORTEST_ERROR - 1..];
    if n < SHORTEST_ERROR {
      ClosesInk(body);
      NoInk(body);
      assert forall i :: 0 <= i < |body| ==> body[i] == s[n..][SHORTEST_ERROR - 1 - n + i];
    } else {
      ClosesCut(body, n - SHORTEST_ERROR + 1);
      assert s[..n][..SHORTEST_ERROR - 1] == s[..SHORTEST_ERROR - 1];
      assert s[..n][SHORTEST_ERROR - 1..] == body[..n - SHORTEST_ERROR + 1];
      assert s[n..] == body[n - SHORTEST_ERROR + 1..];
    }
  }

  lemma AnswerCounts(s: seq<Byte>)
    requires IsAnswer(s)
    ensures Ink(s) >= SHORTEST_ERROR
  {
    EnvelopeInk();
    ClosesInk(s[SHORTEST_ERROR - 1..]);
    InkConcat(s[..SHORTEST_ERROR - 1], s[SHORTEST_ERROR - 1..]);
    assert s[..SHORTEST_ERROR - 1] + s[SHORTEST_ERROR - 1..] == s;
  }

  lemma IsAnswerAnswer(inside: nat, after: nat)
    ensures IsAnswer(Answer(inside, after))
  {
    var s := Answer(inside, after);
    PaddedCloses(inside, after);
    assert s[..SHORTEST_ERROR - 1] == ENVELOPE;
    assert s[SHORTEST_ERROR - 1..] == Spaces(inside) + [CLOSE_BRACE] + Spaces(after);
  }

  /** A parser that knows only the padded shortest answers meets the contract. */
  lemma AnswersCanBeRead() returns (hasError: seq<Byte> -> bool)
    ensures ReadsAnswers(hasError)
  {
    hasError := (bytes: seq<Byte>) => IsAnswer(bytes);
    forall inside, after ensures hasError(Answer(inside, after)) {
      IsAnswerAnswer(inside, after);
    }
    forall bytes | hasError(bytes) ensures Ink(bytes) >= SHORTEST_ERROR {
      AnswerCounts(bytes);
    }
    forall bytes, n | 0 <= n <= |bytes| && hasError(bytes) ensures hasError(bytes[..n]) <==> Blank(bytes[n..]) {
      AnswerCut(bytes, n);
    }
  }
}
