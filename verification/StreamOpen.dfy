/**
  The connection event of a stream open. The connection is long-lived, so the event is logged when the
  response is committed, once, and at the latest when the handler returns or panics.
*/
module StreamOpen {
  import opened Options
  import opened IdentityFlow

  const STATUS_OK := 200

  /** What a handler does with its request and its response writer; after a panic it does nothing more. */
  datatype Op = AttachIdentity(id: Option<Identity>) | WriteHeader(code: int) | Write | Flush | Panic

  datatype Event = Event(status: int, identity: Option<Identity>)

  class StreamOpenWriter {
    /** The context of the request the middleware passed down. */
    const ctx: Context
    var logged: bool
    /** The connection events handed to the auditor. */
    var events: seq<Event>

    constructor (ctx: Context)
      ensures this.ctx == ctx && !logged && events == []
    {
      this.ctx, logged, events := ctx, false, [];
    }

    method LogOnce(status: int)
      modifies this`logged, this`events
      ensures logged
      ensures events == if old(logged) then old(events) else old(events) + [Event(status, IdentityFromRequest(ctx))]
    {
      if logged {
        return;
      }
      logged := true;
      events := events + [Event(status, IdentityFromRequest(ctx))];
    }

    method DoWriteHeader(code: int)
      modifies this`logged, this`events
      ensures logged == (old(logged) || Commits(WriteHeader(code)))
      ensures events == if !old(logged) && Commits(WriteHeader(code))
                        then old(events) + [Event(code, IdentityFromRequest(ctx))] else old(events)
    {
      if code >= STATUS_OK {
        LogOnce(code);
      }
    }

    method DoWrite()
      modifies this`logged, this`events
      ensures logged
      ensures events == if old(logged) then old(events) else old(events) + [Event(STATUS_OK, IdentityFromRequest(ctx))]
    {
      LogOnce(STATUS_OK);
    }

    method DoFlush()
      modifies this`logged, this`events
      ensures logged
      ensures events == if old(logged) then old(events) else old(events) + [Event(STATUS_OK, IdentityFromRequest(ctx))]
    {
      LogOnce(STATUS_OK);
    }
  }

  /** The operation commits the response: anything but an informational status. */
  predicate Commits(op: Op)
  {
    match op
    case AttachIdentity(_) => false
    case WriteHeader(code) => code >= STATUS_OK
    case Write => true
    case Flush => true
    case Panic => false
  }

  /** What the handler gets to do: everything before the first panic. */
  function BeforePanic(ops: seq<Op>): (done: seq<Op>)
    ensures done <= ops && Panic !in done
    ensures if Panic in ops then |done| < |ops| && ops[|done|].Panic? else done == ops
  {
    if ops == [] || ops[0].Panic? then [] else [ops[0]] + BeforePanic(ops[1..])
  }

  function StatusOf(op: Op): int
  {
    if op.WriteHeader? then op.code else STATUS_OK
  }

  /** The operation that commits the response first, or the number of operations if none does. */
  function FirstCommit(ops: seq<Op>): (k: nat)
    ensures k <= |ops| && (k < |ops| ==> Commits(ops[k]))
    ensures forall j :: 0 <= j < k ==> !Commits(ops[j])
  {
    if ops == [] || Commits(ops[0]) then 0 else 1 + FirstCommit(ops[1..])
  }

  /** The identity attached last by these operations. */
  function LastIdentity(ops: seq<Op>): Option<Identity>
  {
    if ops == [] then None
    else
      var last := ops[|ops| - 1];
      OrElse(if last.AttachIdentity? then last.id else None, LastIdentity(ops[..|ops| - 1]))
  }

  /** The event a stream open must leave: the committing status and the identity known at that moment. */
  function ConnectionEvent(own: Option<Identity>, held: Option<Option<Identity>>, ops: seq<Op>): Event
  {
    var k := FirstCommit(ops);
    Event(if k < |ops| then StatusOf(ops[k]) else STATUS_OK,
          OrElse(own, OrElse(LastIdentity(ops[..k]), if held.None? then None else held.value)))
  }

  /** Neither a write, nor a flush, nor a final status. */
  predicate Preliminary(op: Op)
  {
    op.AttachIdentity? || op.Panic? || (op.WriteHeader? && op.code < 200)
  }

  /**
    The event by the first operation that is not preliminary: a final status is reported as it is, a write or
    a flush as 200, and 200 if there is none; an informational status counts for nothing.
  */
  lemma ConnectionStatus(own: Option<Identity>, held: Option<Option<Identity>>, ops: seq<Op>, k: nat)
    requires k <= |ops| && (forall j :: 0 <= j < k ==> Preliminary(ops[j])) && (k < |ops| ==> !Preliminary(ops[k]))
    ensures ConnectionEvent(own, held, ops).status
            == if k < |ops| && ops[k].WriteHeader? then ops[k].code else 200
    ensures own.Some? ==> ConnectionEvent(own, held, ops).identity == own
    ensures own.None? && LastIdentity(ops[..k]).Some? ==>
              ConnectionEvent(own, held, ops).identity == LastIdentity(ops[..k])
    ensures own.None? && LastIdentity(ops[..k]).None? ==>
              ConnectionEvent(own, held, ops).identity == if held.None? then None else held.value
  {
    assert FirstCommit(ops) == k;
  }

  /** The identity attached last: at a place after which none is attached. */
  lemma {:induction false} LastIdentityIsLast(ops: seq<Op>, i: nat)
    requires i < |ops| && ops[i].AttachIdentity? && ops[i].id.Some?
    requires forall j :: i < j < |ops| ==> !ops[j].AttachIdentity? || ops[j].id.None?
    ensures LastIdentity(ops) == ops[i].id
  {
    var last := |ops| - 1;
    if i < last {
      assert ops[..last][i] == ops[i];
      LastIdentityIsLast(ops[..last], i);
    }
  }

  function Attached(op: Op): Option<Identity>
  {
    if op.AttachIdentity? then op.id else None
  }

  /** One operation of the handler, on the writer or on the request's context. */
  method Perform(sw: StreamOpenWriter, op: Op)
    modifies sw`logged, sw`events, Holders(sw.ctx)
    ensures sw.logged == (old(sw.logged) || Commits(op))
    ensures sw.events == if !old(sw.logged) && Commits(op)
                         then old(sw.events) + [Event(StatusOf(op), old(IdentityFromRequest(sw.ctx)))]
                         else old(sw.events)
    ensures Held(HolderFromContext(sw.ctx)) == Published(old(Held(HolderFromContext(sw.ctx))), Attached(op))
  {
    match op {
      case AttachIdentity(id) => var _ := WithIdentity(sw.ctx, id);
      case WriteHeader(code) => sw.DoWriteHeader(code);
      case Write => sw.DoWrite();
      case Flush => sw.DoFlush();
      case Panic =>
    }
    ghost var holder := HolderFromContext(sw.ctx);
    assert holder != null && !op.AttachIdentity? ==> holder.identity == old(holder.identity);
  }

  /** Where a run over the operations stands after the first `i` of them. */
  ghost predicate Progress(sw: StreamOpenWriter, own: Option<Identity>, entry: Option<Identity>, ops: seq<Op>, i: nat)
    requires i <= |ops|
    reads sw, HolderFromContext(sw.ctx)
  {
    && IdentityFromContext(sw.ctx) == own
    && Held(HolderFromContext(sw.ctx)) == Some(OrElse(LastIdentity(ops[..i]), entry))
    && (sw.logged <==> FirstCommit(ops) < i)
    && sw.events == if sw.logged then [ConnectionEvent(own, Some(entry), ops)] else []
  }

  method PerformNext(sw: StreamOpenWriter, ghost own: Option<Identity>, ghost entry: Option<Identity>,
                     ghost ops: seq<Op>, op: Op, ghost i: nat)
    requires i < |ops| && op == ops[i] && Progress(sw, own, entry, ops, i)
    modifies sw`logged, sw`events, Holders(sw.ctx)
    ensures Progress(sw, own, entry, ops, i + 1)
  {
    assert ops[..i + 1][..i] == ops[..i];
    Perform(sw, op);
  }

  /** The handler runs on the writer until it returns or panics. */
  method RunHandler(sw: StreamOpenWriter, ghost own: Option<Identity>, ghost entry: Option<Identity>, ops: seq<Op>)
    returns (panicked: bool)
    requires Progress(sw, own, entry, BeforePanic(ops), 0)
    modifies sw`logged, sw`events, Holders(sw.ctx)
    ensures panicked <==> Panic in ops
    ensures Progress(sw, own, entry, BeforePanic(ops), |BeforePanic(ops)|)
  {
    ghost var done := BeforePanic(ops);
    var i := 0;
    while i < |ops|
      invariant 0 <= i <= |done| && Progress(sw, own, entry, done, i)
    {
      if ops[i].Panic? {
        return true;
      }
      PerformNext(sw, own, entry, done, ops[i], i);
      i := i + 1;
    }
    panicked := false;
  }

  /**
    The stream branch of the middleware, with its deferred call: for every sequence of operations of the
    handler, up to its return or the panic that ends it, exactly one connection event is handed to the
    auditor, with the status of the first committing operation it got to (200 if there is none) and the
    identity attached by then; the panic goes on to the caller.
  */
  method ServeStream(ctx: Context, ops: seq<Op>) returns (events: seq<Event>, panicked: bool)
    modifies Holders(ctx)
    ensures events == [ConnectionEvent(IdentityFromContext(ctx), old(Held(HolderFromContext(ctx))), BeforePanic(ops))]
    ensures panicked <==> Panic in ops
  {
    ghost var own, held := IdentityFromContext(ctx), Held(HolderFromContext(ctx));
    ghost var entry := if held.None? then None else held.value;
    var derived := EnsureAuditContext(ctx);
    ghost var holder := HolderFromContext(derived);
    assert Held(holder) == Some(entry);
    var sw := new StreamOpenWriter(derived);
    assert HolderFromContext(sw.ctx) == holder && Held(holder) == Some(entry);
    ghost var done := BeforePanic(ops);
    assert done[..0] == [];
    panicked := RunHandler(sw, own, entry, ops);
    assert done[..|done|] == done;
    sw.LogOnce(STATUS_OK);
    events := sw.events;
  }
}
