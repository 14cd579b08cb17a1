/**
  How the authenticated identity reaches the audit event. Context values only flow downstream; a
  mutable holder, injected by the outermost auditor and filled by whoever attaches an identity on a
  derived context, carries it upstream.
*/
module IdentityFlow {
  import opened Options

  datatype Identity = Identity(subject: string)

  class IdentityHolder {
    var identity: Option<Identity>

    constructor ()
      ensures identity == None
    {
      identity := None;
    }
  }

  /** A Go context: a chain of values, the innermost first. */
  datatype Context =
    | Background
    | IdentityValue(parent: Context, identity: Identity)
    | HolderValue(parent: Context, holder: IdentityHolder)
    | OtherValue(parent: Context)

  function IdentityFromContext(ctx: Context): Option<Identity>
  {
    match ctx
    case Background => None
    case IdentityValue(_, id) => Some(id)
    case HolderValue(parent, _) => IdentityFromContext(parent)
    case OtherValue(parent) => IdentityFromContext(parent)
  }

  function HolderFromContext(ctx: Context): IdentityHolder?
  {
    match ctx
    case Background => null
    case IdentityValue(parent, _) => HolderFromContext(parent)
    case HolderValue(_, holder) => holder
    case OtherValue(parent) => HolderFromContext(parent)
  }

  function Holders(ctx: Context): set<IdentityHolder>
  {
    if HolderFromContext(ctx) == null then {} else {HolderFromContext(ctx)}
  }

  /** What a holder holds: no holder at all, or an identity that may be absent. */
  function Held(holder: IdentityHolder?): Option<Option<Identity>>
    reads holder
  {
    if holder == null then None else Some(holder.identity)
  }

  /** `WithIdentity`: publishes into the holder, then derives. A nil identity changes nothing. */
  method WithIdentity(ctx: Context, id: Option<Identity>) returns (derived: Context)
    modifies Holders(ctx)
    ensures HolderFromContext(derived) == HolderFromContext(ctx)
    ensures IdentityFromContext(derived) == OrElse(id, IdentityFromContext(ctx))
    ensures Held(HolderFromContext(derived)) == Published(old(Held(HolderFromContext(ctx))), id)
  {
    if id.None? {
      return ctx;
    }
    var holder := HolderFromContext(ctx);
    if holder != null {
      holder.identity := id;
    }
    derived := IdentityValue(ctx, id.value);
  }

  function Published(held: Option<Option<Identity>>, id: Option<Identity>): Option<Option<Identity>>
  {
    if held.None? || id.None? then held else Some(id)
  }

  /** The part of `ensureAuditContext` that matters here: a holder is injected only when none is there. */
  method EnsureAuditContext(ctx: Context) returns (derived: Context)
    ensures HolderFromContext(derived) != null
    ensures HolderFromContext(ctx) != null ==> derived == ctx
    ensures HolderFromContext(ctx) == null ==> fresh(HolderFromContext(derived))
    ensures Held(HolderFromContext(derived))
            == if HolderFromContext(ctx) == null then Some(None) else old(Held(HolderFromContext(ctx)))
    ensures Held(HolderFromContext(ctx)) == old(Held(HolderFromContext(ctx)))
    ensures IdentityFromContext(derived) == IdentityFromContext(ctx)
  {
    derived := ctx;
    if HolderFromContext(ctx) == null {
      var holder := new IdentityHolder();
      derived := HolderValue(ctx, holder);
    }
  }

  /** `identityFromRequest`: the context's own value first, then the holder. */
  function IdentityFromRequest(ctx: Context): Option<Identity>
    reads HolderFromContext(ctx)
  {
    if IdentityFromContext(ctx).Some? then IdentityFromContext(ctx)
    else if HolderFromContext(ctx) != null then HolderFromContext(ctx).identity
    else None
  }

  /**
    A handler chain. `Audit` is an auditor around a body; `Attach` attaches an identity and runs a
    scope on the derived context (an empty scope when the derived context is dropped). Both go on
    with `rest` on the context they were given.
  */
  datatype Layer =
    | Done
    | Audit(body: Layer, rest: Layer)
    | Attach(id: Option<Identity>, scope: Layer, rest: Layer)

  datatype Outcome = Outcome(held: Option<Option<Identity>>, events: seq<Option<Identity>>)

  /** The holder and the identities of the audit events, as the chain leaves them. */
  function Effect(own: Option<Identity>, held: Option<Option<Identity>>, layer: Layer): (o: Outcome)
    ensures o.held.Some? <==> held.Some?
    decreases layer
  {
    match layer
    case Done => Outcome(held, [])
    case Attach(id, scope, rest) =>
      var inner := Effect(OrElse(id, own), Published(held, id), scope);
      var after := Effect(own, inner.held, rest);
      Outcome(after.held, inner.events + after.events)
    case Audit(body, rest) =>
      var inner := Effect(own, if held.None? then Some(None) else held, body);
      var event := OrElse(own, inner.held.value);
      var after := Effect(own, if held.None? then None else inner.held, rest);
      Outcome(after.held, inner.events + [event] + after.events)
  }

  /** Runs a chain on a context; each auditor reports when its body has returned. */
  method Serve(ctx: Context, layer: Layer) returns (events: seq<Option<Identity>>)
    modifies Holders(ctx)
    ensures events == Effect(IdentityFromContext(ctx), old(Held(HolderFromContext(ctx))), layer).events
    ensures Held(HolderFromContext(ctx))
            == Effect(IdentityFromContext(ctx), old(Held(HolderFromContext(ctx))), layer).held
    decreases layer
  {
    match layer {
      case Done =>
        events := [];
      case Attach(id, scope, rest) =>
        var derived := WithIdentity(ctx, id);
        var inner := Serve(derived, scope);
        assert Held(HolderFromContext(ctx)) == Held(HolderFromContext(derived));
        var after := Serve(ctx, rest);
        events := inner + after;
      case Audit(body, rest) =>
        ghost var held := Held(HolderFromContext(ctx));
        var derived := EnsureAuditContext(ctx);
        var inner := Serve(derived, body);
        assert Held(HolderFromContext(ctx)) == if held.None? then None else Held(HolderFromContext(derived));
        var event := IdentityFromRequest(derived);
        var after := Serve(ctx, rest);
        events := inner + [event] + after;
    }
  }

  // ----- Which identity is audited -----

  /** The identity attached last while the chain runs, on whatever derived context. */
  function LastAttached(layer: Layer): Option<Identity>
  {
    match layer
    case Done => None
    case Attach(id, scope, rest) => OrElse(LastAttached(rest), OrElse(LastAttached(scope), id))
    case Audit(body, rest) => OrElse(LastAttached(rest), LastAttached(body))
  }

  /** A holder ends up with what was attached last, wherever and under however many inner auditors. */
  lemma {:induction false} HolderReportsLast(own: Option<Identity>, held: Option<Identity>, layer: Layer)
    ensures Effect(own, Some(held), layer).held == Some(OrElse(LastAttached(layer), held))
    decreases layer
  {
    match layer
    case Done =>
    case Attach(id, scope, rest) =>
      HolderReportsLast(OrElse(id, own), OrElse(id, held), scope);
      HolderReportsLast(own, OrElse(LastAttached(scope), OrElse(id, held)), rest);
    case Audit(body, rest) =>
      HolderReportsLast(own, held, body);
      HolderReportsLast(own, OrElse(LastAttached(body), held), rest);
  }

  /** The identity an auditor reports, given its own context's identity and what its holder held on entry. */
  function Audited(own: Option<Identity>, held: Option<Option<Identity>>, body: Layer): Option<Identity>
  {
    OrElse(own, OrElse(LastAttached(body), if held.None? then None else held.value))
  }

  /** The events of a chain, auditor by auditor, from the last attachments alone. */
  function Report(own: Option<Identity>, held: Option<Option<Identity>>, layer: Layer): seq<Option<Identity>>
    decreases layer
  {
    match layer
    case Done => []
    case Attach(id, scope, rest) =>
      Report(OrElse(id, own), Published(held, id), scope) +
      Report(own, Published(held, OrElse(LastAttached(scope), id)), rest)
    case Audit(body, rest) =>
      Report(own, if held.None? then Some(None) else held, body) + [Audited(own, held, body)] +
      Report(own, Published(held, LastAttached(body)), rest)
  }

  lemma HeldAfter(own: Option<Identity>, held: Option<Option<Identity>>, layer: Layer)
    ensures Effect(own, held, layer).held == Published(held, LastAttached(layer))
  {
    if held.Some? { HolderReportsLast(own, held.value, layer); }
  }

  /**
    For every nesting of auditors and identity-attaching layers, each audit event carries the identity
    of the auditor's own context if an outer layer attached one, otherwise the one attached last inside
    it, otherwise whatever the shared holder already held.
  */
  lemma {:induction false} EveryAuditorReports(own: Option<Identity>, held: Option<Option<Identity>>, layer: Layer)
    ensures Effect(own, held, layer).events == Report(own, held, layer)
    decreases layer
  {
    match layer
    case Done =>
    case Attach(id, scope, rest) =>
      EveryAuditorReports(OrElse(id, own), Published(held, id), scope);
      HeldAfter(OrElse(id, own), Published(held, id), scope);
      EveryAuditorReports(own, Published(held, OrElse(LastAttached(scope), id)), rest);
    case Audit(body, rest) =>
      var start := if held.None? then Some(None) else held;
      EveryAuditorReports(own, start, body);
      HeldAfter(own, start, body);
      EveryAuditorReports(own, Published(held, LastAttached(body)), rest);
  }

  // ----- Which chains keep every auditor to its own identities -----

  /** The events if no auditor saw more than its own context and what is attached inside it. */
  function OwnReport(own: Option<Identity>, layer: Layer): seq<Option<Identity>>
    decreases layer
  {
    match layer
    case Done => []
    case Attach(id, scope, rest) => OwnReport(OrElse(id, own), scope) + OwnReport(own, rest)
    case Audit(body, rest) => OwnReport(own, body) + [OrElse(own, LastAttached(body))] + OwnReport(own, rest)
  }

  /** Some layer attaches an identity that is not nil. */
  predicate Attaches(layer: Layer)
  {
    match layer
    case Done => false
    case Attach(id, scope, rest) => id.Some? || Attaches(scope) || Attaches(rest)
    case Audit(body, rest) => Attaches(body) || Attaches(rest)
  }

  /**
    Read off the chain before it runs. `owned` says that the context carries an identity, `inside` that an
    auditor is around, `filled` that something was attached before, since the outermost auditor was entered:
    no auditor without an identity of its own, and with nothing attached inside it, comes after an attachment
    under the same outermost auditor.
  */
  predicate SelfContained(owned: bool, inside: bool, filled: bool, layer: Layer)
    decreases layer
  {
    match layer
    case Done => true
    case Attach(id, scope, rest) =>
      && SelfContained(owned || id.Some?, inside, filled || (inside && id.Some?), scope)
      && SelfContained(owned, inside, filled || (inside && (id.Some? || Attaches(scope))), rest)
    case Audit(body, rest) =>
      && SelfContained(owned, true, filled, body)
      && (owned || Attaches(body) || !filled)
      && SelfContained(owned, inside, filled || (inside && Attaches(body)), rest)
  }

  lemma {:induction false} LastAttachedExists(layer: Layer)
    ensures LastAttached(layer).Some? <==> Attaches(layer)
  {
    match layer
    case Done =>
    case Attach(_, scope, rest) =>
      LastAttachedExists(scope);
      LastAttachedExists(rest);
    case Audit(body, rest) =>
      LastAttachedExists(body);
      LastAttachedExists(rest);
  }

  lemma {:induction false} SameNumberOfEvents(own: Option<Identity>, held: Option<Option<Identity>>, layer: Layer)
    ensures |Report(own, held, layer)| == |OwnReport(own, layer)|
    decreases layer
  {
    match layer
    case Done =>
    case Attach(id, scope, rest) =>
      SameNumberOfEvents(OrElse(id, own), Published(held, id), scope);
      SameNumberOfEvents(own, Published(held, OrElse(LastAttached(scope), id)), rest);
    case Audit(body, rest) =>
      SameNumberOfEvents(own, if held.None? then Some(None) else held, body);
      SameNumberOfEvents(own, Published(held, LastAttached(body)), rest);
  }

  lemma EqualInParts<T>(a: seq<T>, b: seq<T>, c: seq<T>, d: seq<T>)
    requires |a| == |c|
    ensures a + b == c + d <==> a == c && b == d
  {
    if a + b == c + d {
      assert (a + b)[..|a|] == a && (c + d)[..|a|] == c;
      assert (a + b)[|a|..] == b && (c + d)[|a|..] == d;
    }
  }

  predicate Filled(held: Option<Option<Identity>>)
  {
    held.Some? && held.value.Some?
  }

  lemma {:induction false} ReportIsOwnExactly(own: Option<Identity>, held: Option<Option<Identity>>, layer: Layer)
    ensures Report(own, held, layer) == OwnReport(own, layer)
            <==> SelfContained(own.Some?, held.Some?, Filled(held), layer)
    decreases layer
  {
    match layer
    case Done =>
    case Attach(id, scope, rest) =>
      var inner, after := Published(held, id), Published(held, OrElse(LastAttached(scope), id));
      LastAttachedExists(scope);
      ReportIsOwnExactly(OrElse(id, own), inner, scope);
      ReportIsOwnExactly(own, after, rest);
      SameNumberOfEvents(OrElse(id, own), inner, scope);
      EqualInParts(Report(OrElse(id, own), inner, scope), Report(own, after, rest),
                   OwnReport(OrElse(id, own), scope), OwnReport(own, rest));
    case Audit(body, rest) =>
      var inner, after := if held.None? then Some(None) else held, Published(held, LastAttached(body));
      var event, ownEvent := [Audited(own, held, body)], [OrElse(own, LastAttached(body))];
      LastAttachedExists(body);
      ReportIsOwnExactly(own, inner, body);
      ReportIsOwnExactly(own, after, rest);
      SameNumberOfEvents(own, inner, body);
      EqualInParts(Report(own, inner, body), event, OwnReport(own, body), ownEvent);
      EqualInParts(Report(own, inner, body) + event, Report(own, after, rest),
                   OwnReport(own, body) + ownEvent, OwnReport(own, rest));
  }

  /**
    For every chain, run anywhere: each of its auditors reports only identities of its own doing, that is
    its context's or the last one attached inside it, exactly when the chain is self-contained there.
  */
  lemma OwnIdentityExactly(own: Option<Identity>, held: Option<Option<Identity>>, layer: Layer)
    ensures Effect(own, held, layer).events == OwnReport(own, layer)
            <==> SelfContained(own.Some?, held.Some?, Filled(held), layer)
  {
    EveryAuditorReports(own, held, layer);
    ReportIsOwnExactly(own, held, layer);
  }

  /** The outermost auditor injected its holder empty, so it always does. */
  lemma OutermostReports(own: Option<Identity>, body: Layer)
    ensures var events := Effect(own, None, Audit(body, Done)).events;
            events != [] && events[|events| - 1] == OrElse(own, LastAttached(body))
  {
    EveryAuditorReports(own, None, Audit(body, Done));
  }

  /** An inner auditor need not: it reports an identity attached on a context it does not derive from. */
  lemma InnerReportsSibling(a: Identity)
    ensures Effect(None, None, Audit(Attach(Some(a), Done, Audit(Done, Done)), Done)).events == [Some(a), Some(a)]
    ensures OwnReport(None, Audit(Attach(Some(a), Done, Audit(Done, Done)), Done)) == [None, Some(a)]
    ensures !SelfContained(false, false, false, Audit(Attach(Some(a), Done, Audit(Done, Done)), Done))
  {
    var inner := Attach(Some(a), Done, Audit(Done, Done));
    EveryAuditorReports(None, None, Audit(inner, Done));
    assert LastAttached(inner) == Some(a);
    assert Report(None, Some(None), inner) == [Some(a)];
    assert OwnReport(None, inner) == [None];
    OwnIdentityExactly(None, None, Audit(inner, Done));
  }
}
