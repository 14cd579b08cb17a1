/**
  What every interleaving of the monitor and the request path keeps: mutual exclusion, the coupling
  of the two window fields, the finality of a mark's clear, and the two once gates.
*/
module RetrySafety {
  import opened Options
  import opened TokenErrors
  import opened RetryMachine

  /** Program points that only the monitor, or only a request thread, can be at. */
  predicate OwnPoint(t: Tid, pc: PC)
  {
    InMark(pc) || InEnter(pc) ||
    (t != MONITOR <==> pc.Idle? || pc.CallSource? || pc.CheckStop? || pc.CallRefresh?)
  }

  /** The errors a thread carries towards `enterAuthRetrying` were classified on the way. */
  predicate CarriesTransient(pc: PC)
  {
    match pc
    case CheckStop(e) => IsTransient(e)
    case TickWindow(e) => IsTransient(e)
    case TickCeiling(e) => IsTransient(e)
    case EnterGate(e) => IsTransient(e)
    case EnterWrite(e) => IsTransient(e)
    case _ => true
  }

  predicate AfterClose(pc: PC)
  {
    pc.MarkClear? || pc.MarkStatus? || pc.MarkWarn? ||
    (pc.Exited? && (pc.why.SawStop? || pc.why.NoExpiry? || pc.why.GaveUp?))
  }

  predicate AfterClear(pc: PC)
  {
    pc.MarkStatus? || pc.MarkWarn? || (pc.Exited? && pc.why.GaveUp?)
  }

  /** A mark for an old window was decided when a check had found the window really too old. */
  predicate CeilingJustified(c: Config, g: Shared, k: Cause)
  {
    k.CeilingReached? ==> (k.since, k.seen) in g.hist.sightings && k.seen - k.since > c.ceiling
  }

  predicate PointSafe(c: Config, g: Shared, t: Tid, pc: PC)
  {
    && OwnPoint(t, pc)
    && CarriesTransient(pc)
    && (pc.EnterWrite? <==> g.mu == Some(t))
    && (AfterClose(pc) ==> g.stopped)
    && (AfterClear(pc) ==> g.hist.clears > 0)
    && (InMark(pc) ==> CeilingJustified(c, g, pc.cause) && (pc.cause.CeilingReached? ==> t == MONITOR))
  }

  /** The window fields are set and cleared together, hold a transient error, and stay clear after a mark. */
  predicate WindowSafe(g: Shared)
  {
    && (g.startedAt.Some? <==> g.lastErr.Some?)
    && (g.startedAt.Some? ==> g.startedAt.value <= g.now && IsTransient(g.lastErr.value))
    && (g.hist.clears > 0 ==> g.stopped && g.startedAt.None? && g.mu.None?)
  }

  predicate GatesSafe(c: Config, g: Shared)
  {
    && g.hist.closes == (if g.stopped then 1 else 0)
    && g.hist.warnings == (if g.warned then 1 else 0)
    && (g.warned <==> g.hist.permanentMarks > 0 && c.clientId != "")
  }

  predicate LogJustified(c: Config, g: Shared)
  {
    forall i :: 0 <= i < |g.log| && g.log[i].Unauthenticated? ==> CeilingJustified(c, g, g.log[i].cause)
  }

  predicate SharedSafe(c: Config, g: Shared)
  {
    WindowSafe(g) && GatesSafe(c, g) && LogJustified(c, g)
  }

  predicate Safe(c: Config, s: State)
  {
    && SharedSafe(c, s.sh)
    && MONITOR in s.pcs
    && (forall t :: t in s.pcs ==> PointSafe(c, s.sh, t, s.pcs[t]))
    && (s.sh.mu.Some? ==> s.sh.mu.value in s.pcs)
  }

  /** What one thread may do to the others. */
  predicate Guarantee(t: Tid, g: Shared, h: Shared)
  {
    && g.now <= h.now
    && (g.stopped ==> h.stopped)
    && g.hist.clears <= h.hist.clears
    && g.hist.sightings <= h.hist.sightings
    && (h.mu == g.mu || h.mu == Some(t) || (g.mu == Some(t) && h.mu.None?))
    && (h.mu == Some(t) ==> g.mu.None? || g.mu == Some(t))
  }

  /** A step ends at a safe point, keeps the shared part safe and disturbs the others only as guaranteed. */
  predicate GoodMove(c: Config, g: Shared, t: Tid, m: Move)
  {
    m.Move? ==> SharedSafe(c, m.sh) && PointSafe(c, m.sh, t, m.pc) && Guarantee(t, g, m.sh)
  }

  lemma TokenMoveGood(c: Config, g: Shared, t: Tid, pc: PC, ch: Choice)
    requires SharedSafe(c, g) && PointSafe(c, g, t, pc) && t != MONITOR && !InMark(pc) && !InEnter(pc)
    ensures GoodMove(c, g, t, TokenMove(g, pc, ch))
  {
  }

  lemma LoopMoveGood(c: Config, g: Shared, at: nat, ch: Choice)
    requires SharedSafe(c, g) && PointSafe(c, g, MONITOR, Waiting(at))
    ensures GoodMove(c, g, MONITOR, LoopMove(g, at, ch))
  {
  }

  /** The answers of the token source and of the short retry, on a tick. */
  lemma AnswerGood(c: Config, g: Shared, pc: PC, ch: Choice)
    requires SharedSafe(c, g) && PointSafe(c, g, MONITOR, pc) && (pc.TickSource? || pc.TickRefresh?)
    ensures GoodMove(c, g, MONITOR, TickMove(c, g, pc, ch))
  {
  }

  lemma CeilingMoveGood(c: Config, g: Shared, e: Err)
    requires SharedSafe(c, g) && PointSafe(c, g, MONITOR, TickCeiling(e)) && g.mu.None?
    ensures GoodMove(c, g, MONITOR, CeilingMove(c, g, e))
  {
  }

  lemma TickMoveGood(c: Config, g: Shared, pc: PC, ch: Choice)
    requires SharedSafe(c, g) && PointSafe(c, g, MONITOR, pc) && !InMark(pc) && !InEnter(pc) && !InExit(pc)
    ensures GoodMove(c, g, MONITOR, TickMove(c, g, pc, ch))
  {
    match pc {
      case Waiting(at) => LoopMoveGood(c, g, at, ch);
      case TickSource => AnswerGood(c, g, pc, ch);
      case TickRefresh => AnswerGood(c, g, pc, ch);
      case TickCeiling(e) => if g.mu.None? { CeilingMoveGood(c, g, e); }
      case _ =>
    }
  }

  lemma ExitMoveGood(c: Config, g: Shared, pc: PC, ch: Choice)
    requires SharedSafe(c, g) && PointSafe(c, g, MONITOR, pc) && InExit(pc)
    ensures GoodMove(c, g, MONITOR, ExitMove(g, pc, ch))
  {
  }

  lemma EnterMoveGood(c: Config, g: Shared, t: Tid, pc: PC, ch: Choice)
    requires SharedSafe(c, g) && PointSafe(c, g, t, pc) && InEnter(pc)
    ensures GoodMove(c, g, t, EnterMove(c, g, t, pc, ch))
  {
  }

  lemma MarkMoveGood(c: Config, g: Shared, t: Tid, pc: PC, ch: Choice)
    requires SharedSafe(c, g) && PointSafe(c, g, t, pc) && InMark(pc)
    ensures GoodMove(c, g, t, MarkMove(c, g, t, pc, ch))
  {
  }

  lemma OthersStaySafe(c: Config, g: Shared, h: Shared, t: Tid, u: Tid, pc: PC)
    requires PointSafe(c, g, u, pc) && t != u && Guarantee(t, g, h)
    ensures PointSafe(c, h, u, pc)
  {
  }

  lemma ThreadMoveGood(c: Config, g: Shared, t: Tid, pc: PC, ch: Choice)
    requires SharedSafe(c, g) && PointSafe(c, g, t, pc)
    ensures GoodMove(c, g, t, ThreadMove(c, g, t, pc, ch))
  {
    if InMark(pc) {
      MarkMoveGood(c, g, t, pc, ch);
    } else if InEnter(pc) {
      EnterMoveGood(c, g, t, pc, ch);
    } else if t != MONITOR {
      TokenMoveGood(c, g, t, pc, ch);
    } else if InExit(pc) {
      ExitMoveGood(c, g, pc, ch);
    } else {
      TickMoveGood(c, g, pc, ch);
    }
  }

  lemma PcIsSafe(c: Config, s: State, t: Tid)
    requires Safe(c, s)
    ensures PointSafe(c, s.sh, t, s.Pc(t))
  {
  }

  lemma StepKeepsSafe(c: Config, s: State, e: Event)
    requires Safe(c, s) && Step(c, s, e).Some?
    ensures Safe(c, Step(c, s, e).value)
  {
    var s' := Step(c, s, e).value;
    if e.Act? {
      var t := e.thread;
      PcIsSafe(c, s, t);
      ThreadMoveGood(c, s.sh, t, s.Pc(t), e.choice);
      forall u | u in s'.pcs ensures PointSafe(c, s'.sh, u, s'.pcs[u]) {
        if u != t { OthersStaySafe(c, s.sh, s'.sh, t, u, s.pcs[u]); }
      }
    }
  }

  lemma {:induction false} RunKeepsSafe(c: Config, s: State, es: seq<Event>)
    requires Safe(c, s) && Run(c, s, es).Some?
    ensures Safe(c, Run(c, s, es).value)
    decreases |es|
  {
    if es != [] {
      StepKeepsSafe(c, s, es[0]);
      RunKeepsSafe(c, Step(c, s, es[0]).value, es[1..]);
    }
  }

  lemma ReachableIsSafe(c: Config, s: State)
    requires Reachable(c, s)
    ensures Safe(c, s)
  {
    var es := SomeRun(c, Init(), s);
    RunKeepsSafe(c, Init(), es);
  }
}
