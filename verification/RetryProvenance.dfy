/**
  Where the contents of the memory and of the log come from. Every refusal that is written was answered by
  the token source or the short retry in the run, and the cached error is the one entered last.
*/
module RetryProvenance {
  import opened Options
  import opened TokenErrors
  import opened RetryMachine

  // ----- Refusals -----

  /** The event brings an error that is not transient, with this verdict of the endpoint. */
  predicate Refuses(e: Event, permanent: bool)
  {
    e.Act? &&
    match e.choice
    case SourceReturns(Failed(err)) => !IsTransient(err) && IsPermanent(err) == permanent
    case RefreshReturns(Failed(err)) => !IsTransient(err) && !IsContext(err) && IsPermanent(err) == permanent
    case _ => false
  }

  predicate Earned(es: seq<Event>, permanent: bool)
  {
    exists i :: 0 <= i < |es| && Refuses(es[i], permanent)
  }

  predicate CauseEarned(es: seq<Event>, k: Cause)
  {
    k.Rejected? ==> Earned(es, k.permanent)
  }

  predicate AllEarned(s: State, es: seq<Event>)
  {
    && (forall t :: t in s.pcs && InMark(s.pcs[t]) ==> CauseEarned(es, s.pcs[t].cause))
    && (forall i :: 0 <= i < |s.sh.log| && s.sh.log[i].Unauthenticated? ==> CauseEarned(es, s.sh.log[i].cause))
  }

  lemma EarnedStays(es: seq<Event>, e: Event, permanent: bool)
    ensures Earned(es, permanent) ==> Earned(es + [e], permanent)
    ensures Refuses(e, permanent) ==> Earned(es + [e], permanent)
  {
    if Earned(es, permanent) {
      var i :| 0 <= i < |es| && Refuses(es[i], permanent);
      assert (es + [e])[i] == es[i];
    }
    assert (es + [e])[|es|] == e;
  }

  /** A mark begins with a refusal, or with a window that is too old, and then keeps its cause; only it writes it. */
  predicate KeepsCause(e: Event, g: Shared, pc: PC, m: Move)
  {
    m.Move? ==>
      && (InMark(m.pc) ==> (InMark(pc) && m.pc.cause == pc.cause) || m.pc.cause.CeilingReached? ||
                           (m.pc.cause.Rejected? && Refuses(e, m.pc.cause.permanent)))
      && (m.sh.log == g.log || (|m.sh.log| == |g.log| + 1 && m.sh.log[..|g.log|] == g.log &&
                                (m.sh.log[|g.log|].Unauthenticated? ==>
                                   InMark(pc) && m.sh.log[|g.log|].cause == pc.cause)))
  }

  lemma TokenKeepsCause(g: Shared, t: Tid, pc: PC, ch: Choice)
    requires !InMark(pc) && !InEnter(pc)
    ensures KeepsCause(Act(t, ch), g, pc, TokenMove(g, pc, ch))
  {
  }

  lemma TickKeepsCause(c: Config, g: Shared, pc: PC, ch: Choice)
    requires !InMark(pc) && !InEnter(pc) && !InExit(pc)
    ensures KeepsCause(Act(MONITOR, ch), g, pc, TickMove(c, g, pc, ch))
  {
  }

  lemma MoveKeepsCause(c: Config, g: Shared, t: Tid, pc: PC, ch: Choice)
    ensures KeepsCause(Act(t, ch), g, pc, ThreadMove(c, g, t, pc, ch))
  {
    if InMark(pc) {
      assert ThreadMove(c, g, t, pc, ch) == MarkMove(c, g, t, pc, ch);
    } else if InEnter(pc) {
      assert ThreadMove(c, g, t, pc, ch) == EnterMove(c, g, t, pc, ch);
    } else if t != MONITOR {
      TokenKeepsCause(g, t, pc, ch);
    } else if !InExit(pc) {
      TickKeepsCause(c, g, pc, ch);
    }
  }

  lemma CauseStays(past: seq<Event>, e: Event, k: Cause)
    requires CauseEarned(past, k) || (k.Rejected? && Refuses(e, k.permanent))
    ensures CauseEarned(past + [e], k)
  {
    if k.Rejected? { EarnedStays(past, e, k.permanent); }
  }

  lemma StepEarns(c: Config, s: State, e: Event, past: seq<Event>)
    requires AllEarned(s, past) && Step(c, s, e).Some?
    ensures AllEarned(Step(c, s, e).value, past + [e])
  {
    var s1 := Step(c, s, e).value;
    if e.Act? { MoveKeepsCause(c, s.sh, e.thread, s.Pc(e.thread), e.choice); }
    forall t | t in s1.pcs && InMark(s1.pcs[t]) ensures CauseEarned(past + [e], s1.pcs[t].cause) {
      CauseStays(past, e, s1.pcs[t].cause);
    }
    forall i | 0 <= i < |s1.sh.log| && s1.sh.log[i].Unauthenticated?
      ensures CauseEarned(past + [e], s1.sh.log[i].cause)
    {
      assert i < |s.sh.log| ==> s1.sh.log[i] == s.sh.log[i];
      CauseStays(past, e, s1.sh.log[i].cause);
    }
  }

  lemma {:induction false} RunEarns(c: Config, s: State, es: seq<Event>, past: seq<Event>)
    requires AllEarned(s, past) && Run(c, s, es).Some?
    ensures AllEarned(Run(c, s, es).value, past + es)
    decreases |es|
  {
    if es == [] {
      assert past + es == past;
    } else {
      StepEarns(c, s, es[0], past);
      RunEarns(c, Step(c, s, es[0]).value, es[1..], past + [es[0]]);
      assert past + [es[0]] + es[1..] == past + es;
    }
  }

  /**
    In every interleaving, each Unauthenticated status that is not for age was earned: some event of the run
    brought an error that is not transient, nor the end of the short retry's context, and the status carries
    the verdict on that error.
  */
  lemma RefusalsAreEarned(c: Config, es: seq<Event>, s: State, i: nat)
    requires Run(c, Init(), es) == Some(s) && i < |s.sh.log|
    requires s.sh.log[i].Unauthenticated? && s.sh.log[i].cause.Rejected?
    ensures Earned(es, s.sh.log[i].cause.permanent)
  {
    RunEarns(c, Init(), es, []);
    assert [] + es == es;
  }

  // ----- The cached error -----

  /** The error entered last in the run: that of the last write to the window's fields. */
  function LastEntered(c: Config, s: State, es: seq<Event>, before: Option<Err>): Option<Err>
    requires Run(c, s, es).Some?
    decreases |es|
  {
    if es == [] then before
    else
      LastEntered(c, Step(c, s, es[0]).value, es[1..],
                  if es[0].Act? && s.Pc(es[0].thread).EnterWrite? then Some(s.Pc(es[0].thread).err) else before)
  }

  lemma StepCaches(c: Config, s: State, e: Event)
    requires Step(c, s, e).Some?
    ensures var g := Step(c, s, e).value.sh;
            if e.Act? && s.Pc(e.thread).EnterWrite? then g.lastErr == Some(s.Pc(e.thread).err)
            else g.lastErr == s.sh.lastErr || g.lastErr.None?
  {
    if e.Act? {
      var t, pc := e.thread, s.Pc(e.thread);
      if InMark(pc) {
        assert ThreadMove(c, s.sh, t, pc, e.choice) == MarkMove(c, s.sh, t, pc, e.choice);
      } else if InEnter(pc) {
        assert ThreadMove(c, s.sh, t, pc, e.choice) == EnterMove(c, s.sh, t, pc, e.choice);
      }
    }
  }

  lemma {:induction false} CachedIsLatest(c: Config, s: State, es: seq<Event>, before: Option<Err>)
    requires Run(c, s, es).Some? && (s.sh.lastErr.Some? ==> s.sh.lastErr == before)
    ensures var cached := Run(c, s, es).value.sh.lastErr;
            cached.Some? ==> cached == LastEntered(c, s, es, before)
    decreases |es|
  {
    if es != [] {
      StepCaches(c, s, es[0]);
      CachedIsLatest(c, Step(c, s, es[0]).value, es[1..],
                     if es[0].Act? && s.Pc(es[0].thread).EnterWrite? then Some(s.Pc(es[0].thread).err) else before);
    }
  }
}
