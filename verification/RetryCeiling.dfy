/**
  The AuthRetrying ceiling. Within one window the start time never moves, so the monitor's checks are
  spread over a span the ceiling bounds; with checks a tick interval apart only so many of them can
  pass without firing.
*/
module RetryCeiling {
  import opened Options
  import opened RetryMachine
  import opened RetrySafety

  /** The next ceiling check cannot come before this time, as far as the monitor's position tells. */
  predicate Spaced(c: Config, g: Shared, pc: PC)
  {
    match pc
    case Waiting(at) => g.hist.lastCheck + c.tick <= at
    case TickSource => g.hist.lastCheck + c.tick <= g.now
    case TickWindow(_) => g.hist.lastCheck + c.tick <= g.now
    case TickCeiling(_) => g.hist.lastCheck + c.tick <= g.now
    case TickRefresh => g.hist.lastCheck + c.tick <= g.now
    case _ => true
  }

  /** The silent checks of the open window lie inside the ceiling, a tick apart. */
  predicate ChecksFit(c: Config, g: Shared)
  {
    g.Open() && g.hist.checks > 0 ==>
      && g.startedAt.value <= g.hist.lastCheck <= g.now
      && (g.hist.checks - 1) * c.tick <= g.hist.lastCheck - g.startedAt.value <= c.ceiling
  }

  predicate Paced(c: Config, g: Shared, pc: PC)
  {
    && ChecksFit(c, g)
    && (g.Open() && g.hist.checks > 0 ==> !pc.ExitStatus? && Spaced(c, g, pc))
  }

  lemma AnotherCheck(checks: nat, tick: nat, last: int, now: int, start: int)
    requires checks > 0 ==> (checks - 1) * tick <= last - start && last + tick <= now
    requires start <= now
    ensures checks * tick <= now - start
  {
    if checks > 0 {
      assert checks * tick == (checks - 1) * tick + tick;
    }
  }

  lemma TickPaced(c: Config, g: Shared, pc: PC, ch: Choice)
    requires SharedSafe(c, g) && PointSafe(c, g, MONITOR, pc) && Paced(c, g, pc)
    requires !InMark(pc) && !InEnter(pc) && !InExit(pc)
    ensures var m := TickMove(c, g, pc, ch);
            m.Move? ==> Paced(c, m.sh, m.pc)
  {
    if pc.TickCeiling? && g.Open() {
      AnotherCheck(g.hist.checks, c.tick, g.hist.lastCheck, g.now, g.startedAt.value);
    }
  }

  lemma ExitPaced(c: Config, g: Shared, pc: PC, ch: Choice)
    requires Paced(c, g, pc) && InExit(pc)
    ensures var m := ExitMove(g, pc, ch);
            m.Move? ==> Paced(c, m.sh, m.pc)
  {
  }

  /** Entering or marking, by any thread: the checks are kept, or forgotten with their window. */
  lemma OtherPaced(c: Config, g: Shared, t: Tid, pc: PC, ch: Choice, own: PC)
    requires Paced(c, g, own) && (t == MONITOR ==> own == pc)
    requires PointSafe(c, g, t, pc) && (t == MONITOR ==> InMark(pc) || InEnter(pc))
    ensures var m := ThreadMove(c, g, t, pc, ch);
            m.Move? ==> Paced(c, m.sh, if t == MONITOR then m.pc else own)
  {
    if InMark(pc) {
      assert ThreadMove(c, g, t, pc, ch) == MarkMove(c, g, t, pc, ch);
    } else if InEnter(pc) {
      assert ThreadMove(c, g, t, pc, ch) == EnterMove(c, g, t, pc, ch);
    }
  }

  lemma StepPaced(c: Config, s: State, e: Event)
    requires Safe(c, s) && Paced(c, s.sh, s.pcs[MONITOR]) && Step(c, s, e).Some?
    ensures MONITOR in Step(c, s, e).value.pcs
    ensures Paced(c, Step(c, s, e).value.sh, Step(c, s, e).value.pcs[MONITOR])
  {
    if e.Act? {
      var t, pc := e.thread, s.Pc(e.thread);
      PcIsSafe(c, s, t);
      if t != MONITOR || InMark(pc) || InEnter(pc) {
        OtherPaced(c, s.sh, t, pc, e.choice, s.pcs[MONITOR]);
      } else if InExit(pc) {
        ExitPaced(c, s.sh, pc, e.choice);
      } else {
        TickPaced(c, s.sh, pc, e.choice);
      }
    }
  }

  lemma {:induction false} RunPaced(c: Config, s: State, es: seq<Event>)
    requires Safe(c, s) && Paced(c, s.sh, s.pcs[MONITOR]) && Run(c, s, es).Some?
    ensures MONITOR in Run(c, s, es).value.pcs
    ensures Paced(c, Run(c, s, es).value.sh, Run(c, s, es).value.pcs[MONITOR])
    decreases |es|
  {
    if es != [] {
      StepPaced(c, s, es[0]);
      StepKeepsSafe(c, s, es[0]);
      RunPaced(c, Step(c, s, es[0]).value, es[1..]);
    }
  }

  lemma Quotient(n: nat, tick: nat, ceiling: nat)
    requires tick > 0 && n * tick <= ceiling
    ensures n <= ceiling / tick
  {
    var q := ceiling / tick;
    assert ceiling < (q + 1) * tick;
  }

  lemma ReachableIsPaced(c: Config, s: State)
    requires Reachable(c, s)
    ensures ChecksFit(c, s.sh)
  {
    var s0 := Init();
    var es := SomeRun(c, s0, s);
    RunPaced(c, s0, es);
  }

  /**
    In every reachable state at most `ceiling / tick + 1` checks of the open window have stayed silent,
    all of them while the window was no older than the ceiling.
  */
  lemma CeilingBound(c: Config, s: State)
    requires c.Valid() && Reachable(c, s) && s.sh.Open()
    ensures s.sh.hist.checks <= c.ceiling / c.tick + 1
    ensures s.sh.hist.checks > 0 ==> s.sh.hist.lastCheck - s.sh.startedAt.value <= c.ceiling
  {
    ReachableIsPaced(c, s);
    if s.sh.hist.checks > 0 {
      Quotient(s.sh.hist.checks - 1, c.tick, c.ceiling);
    }
  }

  // ----- The start of a window -----

  lemma StepKeepsStart(c: Config, s: State, e: Event)
    requires Step(c, s, e).Some?
    ensures var s' := Step(c, s, e).value;
            && s.sh.hist.entries <= s'.sh.hist.entries
            && (s'.sh.Open() && s'.sh.hist.entries == s.sh.hist.entries ==> s'.sh.startedAt == s.sh.startedAt)
  {
    if e.Act? {
      var t, pc := e.thread, s.Pc(e.thread);
      assert ThreadMove(c, s.sh, t, pc, e.choice).Move?;
      if InMark(pc) {
      } else if InEnter(pc) {
      } else if t == MONITOR && !InExit(pc) {
      }
    }
  }

  /** A window that is open at both ends of a run without a new entry between them has not moved its start. */
  lemma {:induction false} WindowKeepsStart(c: Config, s: State, es: seq<Event>, s': State)
    requires Run(c, s, es) == Some(s')
    ensures s.sh.hist.entries <= s'.sh.hist.entries
    ensures s'.sh.Open() && s'.sh.hist.entries == s.sh.hist.entries ==> s'.sh.startedAt == s.sh.startedAt
    decreases |es|
  {
    if es != [] {
      StepKeepsStart(c, s, es[0]);
      WindowKeepsStart(c, Step(c, s, es[0]).value, es[1..], s');
    }
  }
}
