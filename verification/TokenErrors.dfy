/**
  Token-endpoint failures and their classification.

  A Go error is a tree: `Unwrap() error` gives one cause, `fmt.Errorf` with two `%w` verbs gives two.
  `errors.Is` and `errors.AsType` walk that tree depth first, the node itself before its causes.
  Each node carries the text its `Error()` method returns; nothing ties that text to the causes
  except for the nodes built by `Errorf`.
*/
module TokenErrors {
  import opened Options

  /** What a single node is; `Retrieve` is `*oauth2.RetrieveError`, whose `Response` may be nil. */
  datatype Kind =
    | Plain
    | Canceled
    | DeadlineExceeded
    | Retrieve(response: Option<int>, errorCode: string)
    | Dns
    | Op
    | Syscall
    | Errno(errnoTimeout: bool)
    | NetError(netTimeout: bool)

  datatype Err =
    | Leaf(kind: Kind, text: string)
    | Wrapped(kind: Kind, text: string, inner: Err)
    | Joined(kind: Kind, text: string, first: Err, second: Err)

  const TOO_MANY_REQUESTS := 429
  const PARSE_JSON := "oauth2: cannot parse json"
  const PARSE_RESPONSE := "oauth2: cannot parse response"

  predicate IsCanceledKind(k: Kind) { k.Canceled? }
  predicate IsDeadlineExceededKind(k: Kind) { k.DeadlineExceeded? }
  predicate IsRetrieveKind(k: Kind) { k.Retrieve? }
  predicate IsDnsKind(k: Kind) { k.Dns? }
  predicate IsOpKind(k: Kind) { k.Op? }
  predicate IsSyscallKind(k: Kind) { k.Syscall? }
  predicate IsErrnoKind(k: Kind) { k.Errno? }

  /** `errors.AsType`: the first node, depth first, whose kind is wanted. */
  function Find(e: Err, want: Kind -> bool): Option<Err>
  {
    if want(e.kind) then Some(e)
    else match e
      case Leaf(_, _) => None
      case Wrapped(_, _, inner) => Find(inner, want)
      case Joined(_, _, first, second) =>
        var left := Find(first, want);
        if left.Some? then left else Find(second, want)
  }

  predicate Has(e: Err, want: Kind -> bool)
  {
    Find(e, want).Some?
  }

  /** `errors.Is(err, context.Canceled) || errors.Is(err, context.DeadlineExceeded)` */
  predicate IsContext(e: Err)
  {
    Has(e, IsCanceledKind) || Has(e, IsDeadlineExceededKind)
  }

  function FindRetrieve(e: Err): Option<Err>
  {
    Find(e, IsRetrieveKind)
  }

  predicate ImplementsNetError(k: Kind)
  {
    k.NetError? || k.Errno? || k.Dns? || k.Op? || k.DeadlineExceeded?
  }

  predicate TimedOut(k: Kind)
  {
    match k
    case NetError(timeout) => timeout
    case Errno(timeout) => timeout
    case DeadlineExceeded => true
    case _ => false
  }

  predicate MatchesAt(s: string, part: string, i: nat)
  {
    i + |part| <= |s| && s[i..i + |part|] == part
  }

  /** `strings.Contains` */
  predicate Contains(s: string, part: string)
  {
    exists i :: 0 <= i <= |s| && MatchesAt(s, part, i)
  }

  predicate IsParseError(e: Err)
  {
    Contains(e.text, PARSE_JSON) || Contains(e.text, PARSE_RESPONSE)
  }

  predicate IsTransientRetrieve(k: Kind)
    requires k.Retrieve?
  {
    match k.response
    case None => false
    case Some(status) => status >= 500 || status == TOO_MANY_REQUESTS || k.errorCode == ""
  }

  lemma FindMatches(e: Err, want: Kind -> bool)
    ensures Has(e, want) ==> want(Find(e, want).value.kind)
  {
  }

  /** `isTransientNetworkError` */
  predicate IsTransient(e: Err)
  {
    if IsContext(e) then false
    else
      var retrieve := FindRetrieve(e);
      if retrieve.Some? then
        FindMatches(e, IsRetrieveKind);
        IsTransientRetrieve(retrieve.value.kind)
      else if IsParseError(e) then true
      else if Has(e, IsDnsKind) then true
      else
        var op := Find(e, IsOpKind);
        if op.Some? then
          Has(op.value, IsSyscallKind) || Has(op.value, IsErrnoKind)
        else
          var net := Find(e, ImplementsNetError);
          net.Some? && TimedOut(net.value.kind)
  }

  /** `isPermanentTokenEndpointError` */
  predicate IsPermanent(e: Err)
  {
    var retrieve := FindRetrieve(e);
    if retrieve.None? then false
    else
      FindMatches(e, IsRetrieveKind);
      retrieve.value.kind.response.Some? && !IsTransientRetrieve(retrieve.value.kind)
  }

  /** `fmt.Errorf(prefix + "%w", e)` */
  function Errorf(prefix: string, e: Err): Err
  {
    Wrapped(Plain, prefix + e.text, e)
  }

  /** Any number of `%w` wrappers, the first prefix outermost. */
  function Rewrap(prefixes: seq<string>, e: Err): Err
  {
    if prefixes == [] then e else Errorf(prefixes[0], Rewrap(prefixes[1..], e))
  }

  /** The error `fastFailIfAuthRetrying` hands to a caller inside the window. */
  function FastFail(stamp: string, cached: Option<Err>): Err
  {
    match cached
    case None => Leaf(Plain, "auth retrying since " + stamp)
    case Some(e) => Errorf("auth retrying since " + stamp + ": ", e)
  }

  // ----- Properties -----

  /** The nodes of an error, each before its causes and the first cause before the second. */
  function Nodes(e: Err): seq<Err>
  {
    [e] + match e
          case Leaf(_, _) => []
          case Wrapped(_, _, inner) => Nodes(inner)
          case Joined(_, _, first, second) => Nodes(first) + Nodes(second)
  }

  /** The first node of a wanted kind in a list. */
  function FirstOf(nodes: seq<Err>, want: Kind -> bool): Option<Err>
  {
    if nodes == [] then None
    else if want(nodes[0].kind) then Some(nodes[0])
    else FirstOf(nodes[1..], want)
  }

  lemma {:induction false} FirstOfConcat(a: seq<Err>, b: seq<Err>, want: Kind -> bool)
    ensures FirstOf(a + b, want) == OrElse(FirstOf(a, want), FirstOf(b, want))
  {
    if a == [] {
      assert a + b == b;
    } else {
      assert (a + b)[1..] == a[1..] + b;
      FirstOfConcat(a[1..], b, want);
    }
  }

  /** The search finds the first node in that order, so it finds one exactly when there is one. */
  lemma {:induction false} FindIsFirst(e: Err, want: Kind -> bool)
    ensures Find(e, want) == FirstOf(Nodes(e), want)
  {
    var below := Nodes(e)[1..];
    assert Nodes(e) == [e] + below;
    match e
    case Leaf(_, _) =>
    case Wrapped(_, _, inner) =>
      assert below == Nodes(inner);
      FindIsFirst(inner, want);
    case Joined(_, _, first, second) =>
      assert below == Nodes(first) + Nodes(second);
      FindIsFirst(first, want);
      FindIsFirst(second, want);
      FirstOfConcat(Nodes(first), Nodes(second), want);
  }

  /**
    The verdict on every error tree, rule by rule: an ended context is never transient; otherwise an answer
    of the endpoint decides by status and code; otherwise an unreadable answer or a failed name lookup,
    wherever it sits in the tree, is transient; otherwise the first failed operation decides by whether an
    operating-system error lies in it; otherwise the first network error decides by its timeout.
  */
  lemma TransientRules(e: Err)
    ensures IsContext(e) ==> !IsTransient(e)
    ensures FindRetrieve(e).Some? ==> FindRetrieve(e).value.kind.Retrieve?
    ensures !IsContext(e) && FindRetrieve(e).Some? ==>
              var k := FindRetrieve(e).value.kind;
              IsTransient(e) <==>
                k.response.Some? && (k.response.value >= 500 || k.response.value == 429 || k.errorCode == "")
    ensures !IsContext(e) && FindRetrieve(e).None? ==>
              && (Contains(e.text, "oauth2: cannot parse json") ==> IsTransient(e))
              && (Contains(e.text, "oauth2: cannot parse response") ==> IsTransient(e))
              && (Has(e, IsDnsKind) ==> IsTransient(e))
    ensures Unmarked(e) && !Has(e, IsDnsKind) && Has(e, IsOpKind) ==>
              (IsTransient(e) <==> FromTheSystem(Find(e, IsOpKind).value))
    ensures Unmarked(e) && !Has(e, IsDnsKind) && !Has(e, IsOpKind) ==>
              (IsTransient(e) <==> var net := Find(e, IsTimerKind);
                                   net.Some? && (net.value.kind == NetError(true) || net.value.kind == Errno(true)))
  {
    FindMatches(e, IsRetrieveKind);
    if Unmarked(e) && !Has(e, IsDnsKind) && !Has(e, IsOpKind) {
      NetErrorKinds(e);
    }
  }

  /** No rule before those on the network applies. */
  predicate Unmarked(e: Err)
  {
    && !IsContext(e) && FindRetrieve(e).None?
    && !Contains(e.text, "oauth2: cannot parse json") && !Contains(e.text, "oauth2: cannot parse response")
  }

  lemma {:induction false} FirstOfExists(nodes: seq<Err>, want: Kind -> bool)
    ensures FirstOf(nodes, want).Some? <==> exists i :: 0 <= i < |nodes| && want(nodes[i].kind)
  {
    if nodes != [] {
      FirstOfExists(nodes[1..], want);
      assert forall i :: 0 < i < |nodes| ==> nodes[i] == nodes[1..][i - 1];
    }
  }

  /** A context error is one with a cancellation or an exceeded deadline anywhere in its tree. */
  lemma ContextExactly(e: Err)
    ensures IsContext(e) <==>
              exists i :: 0 <= i < |Nodes(e)| && (Nodes(e)[i].kind.Canceled? || Nodes(e)[i].kind.DeadlineExceeded?)
  {
    FindIsFirst(e, IsCanceledKind);
    FindIsFirst(e, IsDeadlineExceededKind);
    FirstOfExists(Nodes(e), IsCanceledKind);
    FirstOfExists(Nodes(e), IsDeadlineExceededKind);
  }

  predicate FromTheSystem(cause: Err)
  {
    Has(cause, IsSyscallKind) || Has(cause, IsErrnoKind)
  }

  /** The kinds that implement `net.Error`, apart from those with a rule of their own. */
  predicate IsTimerKind(k: Kind)
  {
    k.NetError? || k.Errno?
  }

  lemma {:induction false} NetErrorKinds(e: Err)
    requires !Has(e, IsDnsKind) && !Has(e, IsOpKind) && !Has(e, IsDeadlineExceededKind)
    ensures Find(e, ImplementsNetError) == Find(e, IsTimerKind)
    ensures Has(e, IsTimerKind) ==> IsTimerKind(Find(e, IsTimerKind).value.kind)
  {
    match e
    case Leaf(_, _) =>
    case Wrapped(k, _, inner) =>
      if !IsTimerKind(k) { NetErrorKinds(inner); }
    case Joined(k, _, first, second) =>
      if !IsTimerKind(k) {
        NetErrorKinds(first);
        NetErrorKinds(second);
      }
  }

  /** The two verdicts never hold of one error. */
  lemma PermanentNeverTransient(e: Err)
    ensures !(IsPermanent(e) && IsTransient(e))
    ensures IsContext(e) ==> !IsTransient(e)
  {
  }

  /**
    On the branch of `*oauth2.RetrieveError` the two classifiers are documented as strict inverses.
    They are exactly when a response is attached and the error is not a cancelled wait around a
    response that would by itself be transient.
  */
  lemma InverseOnRetrieve(e: Err)
    requires FindRetrieve(e).Some?
    ensures FindRetrieve(e).value.kind.Retrieve?
    ensures var k := FindRetrieve(e).value.kind;
            (IsPermanent(e) <==> !IsTransient(e))
            <==> k.response.Some? && !(IsContext(e) && IsTransientRetrieve(k))
  {
    FindMatches(e, IsRetrieveKind);
  }

  /**
    The inverse fails in one way only: neither verdict is given, and that for exactly two classes of
    token-endpoint errors, those without a response and those whose wait was cancelled around a
    response that would by itself be transient.
  */
  lemma NeitherVerdictExactly(e: Err)
    requires FindRetrieve(e).Some?
    ensures FindRetrieve(e).value.kind.Retrieve?
    ensures var k := FindRetrieve(e).value.kind;
            !IsPermanent(e) && !IsTransient(e) <==> k.response.None? || (IsContext(e) && IsTransientRetrieve(k))
  {
    FindMatches(e, IsRetrieveKind);
  }

  /** Any error whose first token-endpoint node has no response, under whatever wrapping. */
  lemma NoResponseIsNeither(e: Err)
    requires FindRetrieve(e).Some? && FindRetrieve(e).value.kind.Retrieve?
    requires FindRetrieve(e).value.kind.response.None?
    ensures !IsTransient(e) && !IsPermanent(e)
  {
    NeitherVerdictExactly(e);
  }

  /** A cancelled wait joined with a transient answer: the answer alone is transient, the pair has no verdict. */
  lemma CancelledAnswerIsNeither(status: int, code: string, text: string)
    requires status >= 500 || status == TOO_MANY_REQUESTS || code == ""
    ensures var answer := Leaf(Retrieve(Some(status), code), text);
            var e := Joined(Plain, text, Leaf(Canceled, text), answer);
            && IsTransient(answer) && FindRetrieve(e) == Some(answer)
            && !IsTransient(e) && !IsPermanent(e)
  {
    var answer := Leaf(Retrieve(Some(status), code), text);
    var e := Joined(Plain, text, Leaf(Canceled, text), answer);
    assert FindRetrieve(answer) == Some(answer) && Find(Leaf(Canceled, text), IsRetrieveKind) == None;
    assert Has(Leaf(Canceled, text), IsCanceledKind);
    NeitherVerdictExactly(e);
  }

  lemma ContainsLater(prefix: string, s: string, part: string)
    requires Contains(s, part)
    ensures Contains(prefix + s, part)
  {
    var i :| 0 <= i <= |s| && MatchesAt(s, part, i);
    var j := |prefix| + i;
    assert (prefix + s)[j..j + |part|] == s[i..i + |part|];
    assert MatchesAt(prefix + s, part, j);
  }

  lemma ContainsAfterPrefix(prefix: string, s: string, part: string)
    requires |part| > 0 && part[0] !in prefix && Contains(prefix + s, part)
    ensures Contains(s, part)
  {
    var j :| 0 <= j <= |prefix + s| && MatchesAt(prefix + s, part, j);
    assert (prefix + s)[j] == part[0];
    var i := j - |prefix|;
    assert s[i..i + |part|] == (prefix + s)[j..j + |part|];
    assert MatchesAt(s, part, i);
  }

  /** The text cannot start a parse-error marker. */
  predicate Silent(prefix: string)
  {
    'o' !in prefix
  }

  lemma ParseErrorStays(prefix: string, e: Err)
    ensures IsParseError(e) ==> IsParseError(Errorf(prefix, e))
    ensures Silent(prefix) && IsParseError(Errorf(prefix, e)) ==> IsParseError(e)
  {
    if Contains(e.text, PARSE_JSON) { ContainsLater(prefix, e.text, PARSE_JSON); }
    if Contains(e.text, PARSE_RESPONSE) { ContainsLater(prefix, e.text, PARSE_RESPONSE); }
    if Silent(prefix) && Contains(prefix + e.text, PARSE_JSON) {
      ContainsAfterPrefix(prefix, e.text, PARSE_JSON);
    }
    if Silent(prefix) && Contains(prefix + e.text, PARSE_RESPONSE) {
      ContainsAfterPrefix(prefix, e.text, PARSE_RESPONSE);
    }
  }

  /**
    What one `%w` wrapper does, whatever its text: it keeps permanence and the end of a context both ways,
    and it never makes a transient error less. It changes a verdict exactly where no earlier rule decides
    and the texts together spell a parse-error marker, which then makes the error transient.
  */
  lemma ErrorfVerdicts(prefix: string, e: Err)
    ensures IsPermanent(Errorf(prefix, e)) <==> IsPermanent(e)
    ensures IsContext(Errorf(prefix, e)) <==> IsContext(e)
    ensures IsTransient(e) ==> IsTransient(Errorf(prefix, e))
    ensures IsTransient(Errorf(prefix, e)) != IsTransient(e)
            <==> !IsTransient(e) && !IsContext(e) && FindRetrieve(e).None? && IsParseError(Errorf(prefix, e))
  {
    ParseErrorStays(prefix, e);
  }

  /** Every wrapper's own text is silent. */
  predicate AllSilent(prefixes: seq<string>)
  {
    forall p :: p in prefixes ==> Silent(p)
  }

  lemma ErrorfKeepsClass(prefix: string, e: Err)
    requires Silent(prefix)
    ensures IsTransient(Errorf(prefix, e)) <==> IsTransient(e)
  {
    ParseErrorStays(prefix, e);
    ErrorfVerdicts(prefix, e);
  }

  /** The same for a chain of wrappers of any length. */
  lemma {:induction false} RewrapKeepsClass(prefixes: seq<string>, e: Err)
    ensures IsPermanent(Rewrap(prefixes, e)) <==> IsPermanent(e)
    ensures IsContext(Rewrap(prefixes, e)) <==> IsContext(e)
    ensures IsTransient(e) ==> IsTransient(Rewrap(prefixes, e))
    ensures AllSilent(prefixes) ==> (IsTransient(Rewrap(prefixes, e)) <==> IsTransient(e))
  {
    if prefixes != [] {
      RewrapKeepsClass(prefixes[1..], e);
      ErrorfVerdicts(prefixes[0], Rewrap(prefixes[1..], e));
      if AllSilent(prefixes) { ErrorfKeepsClass(prefixes[0], Rewrap(prefixes[1..], e)); }
    }
  }

  /**
    A caller that fast-fails receives an error of the same class as the cached one. Only for an error that
    is not transient does the stamp matter; an RFC 3339 time stamp holds no letter but T and Z.
  */
  lemma FastFailKeepsClass(stamp: string, e: Err)
    ensures IsPermanent(FastFail(stamp, Some(e))) <==> IsPermanent(e)
    ensures IsTransient(e) ==> IsTransient(FastFail(stamp, Some(e)))
    ensures Silent(stamp) ==> (IsTransient(FastFail(stamp, Some(e))) <==> IsTransient(e))
  {
    var prefix := "auth retrying since " + stamp + ": ";
    assert forall ch :: ch in prefix ==> ch in "auth retrying since " || ch in stamp || ch in ": ";
    ErrorfVerdicts(prefix, e);
    if Silent(stamp) { ErrorfKeepsClass(prefix, e); }
  }

  /** What the caller reads, and that unwrapping gives back the cached error. */
  lemma FastFailSays(stamp: string, e: Err)
    ensures FastFail(stamp, Some(e)) == Wrapped(Plain, "auth retrying since " + stamp + ": " + e.text, e)
    ensures FastFail(stamp, None) == Leaf(Plain, "auth retrying since " + stamp)
  {
  }

  /**
    The documented verdicts on answers of the token endpoint, under any number of wrappers: server
    errors, rate limits and answers without an OAuth error code are transient, any other answer with a
    code is permanent.
  */
  lemma EndpointVerdicts(prefixes: seq<string>, status: int, code: string, text: string)
    ensures var e := Rewrap(prefixes, Leaf(Retrieve(Some(status), code), text));
            if status >= 500 || status == 429 || code == "" then IsTransient(e) && !IsPermanent(e)
            else IsPermanent(e) && !IsTransient(e)
  {
    var e := Leaf(Retrieve(Some(status), code), text);
    RewrapKeepsClass(prefixes, e);
    assert FindRetrieve(e) == Some(e);
    PermanentNeverTransient(Rewrap(prefixes, e));
  }

  /** A cause that none of the earlier rules decides: no ended context, no endpoint answer, no name lookup. */
  predicate LeftToTheOperation(cause: Err)
  {
    !IsContext(cause) && !Has(cause, IsRetrieveKind) && !Has(cause, IsDnsKind)
  }

  lemma OperationVerdict(text: string, cause: Err)
    requires LeftToTheOperation(cause)
    ensures IsTransient(Wrapped(Op, text, cause))
            <==> FromTheSystem(cause) || Contains(text, PARSE_JSON) || Contains(text, PARSE_RESPONSE)
  {
    var e := Wrapped(Op, text, cause);
    assert Find(e, IsOpKind) == Some(e);
  }

  /**
    The documented verdicts on network failures, likewise: name lookups and timeouts are transient, and
    so is a failed operation with an operating-system error anywhere in its cause, however that is nested.
    A network error that is no timeout, or an operation without such a cause, as a TLS failure is, is not
    transient unless some text spells a parse-error marker.
  */
  lemma NetworkVerdicts(prefixes: seq<string>, text: string, cause: Err)
    requires LeftToTheOperation(cause)
    ensures IsTransient(Rewrap(prefixes, Leaf(Dns, text)))
    ensures IsTransient(Rewrap(prefixes, Leaf(NetError(true), text)))
    ensures FromTheSystem(cause) ==> IsTransient(Rewrap(prefixes, Wrapped(Op, text, cause)))
    ensures AllSilent(prefixes) && !Contains(text, PARSE_JSON) && !Contains(text, PARSE_RESPONSE) ==>
              && !IsTransient(Rewrap(prefixes, Leaf(NetError(false), text)))
              && (IsTransient(Rewrap(prefixes, Wrapped(Op, text, cause))) <==> FromTheSystem(cause))
  {
    RewrapKeepsClass(prefixes, Leaf(Dns, text));
    RewrapKeepsClass(prefixes, Leaf(NetError(true), text));
    RewrapKeepsClass(prefixes, Leaf(NetError(false), text));
    RewrapKeepsClass(prefixes, Wrapped(Op, text, cause));
    OperationVerdict(text, cause);
  }
}
