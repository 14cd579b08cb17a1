/**
  A mark is final in memory: once some mark has cleared the window under the mutex, nothing opens it
  again and no further AuthRetrying or Running write is decided. Only writes already owed at that
  instant can still land, which is how the log can show AuthRetrying after Unauthenticated.
*/
module RetryFinality {
  import opened Options
  import opened TokenErrors
  import opened RetryMachine
  import opened RetrySafety
  import opened RetryConservation

  lemma EnterAfterClear(c: Config, g: Shared, t: Tid, pc: PC, ch: Choice)
    requires SharedSafe(c, g) && PointSafe(c, g, t, pc) && g.hist.clears > 0 && InEnter(pc)
    ensures var m := EnterMove(c, g, t, pc, ch);
            m.Move? ==> Owed(m.pc) == []
  {
  }

  lemma MoveAfterClear(c: Config, g: Shared, t: Tid, pc: PC, ch: Choice)
    requires SharedSafe(c, g) && PointSafe(c, g, t, pc) && g.hist.clears > 0
    ensures var m := ThreadMove(c, g, t, pc, ch);
            m.Move? ==> !Owes(m.pc, ToAuthRetrying) && !Owes(m.pc, ToRunning)
  {
    if InEnter(pc) { EnterAfterClear(c, g, t, pc, ch); }
  }

  /** What no step after a clear can undo. */
  predicate OnlySettles(s: State, s': State)
  {
    && 0 < s.sh.hist.clears <= s'.sh.hist.clears
    && Owing(s'.pcs, ToAuthRetrying) <= Owing(s.pcs, ToAuthRetrying)
    && Owing(s'.pcs, ToRunning) <= Owing(s.pcs, ToRunning)
    && s.sh.hist.entries == s'.sh.hist.entries
    && s.sh.hist.exits == s'.sh.hist.exits
    && s.sh.log <= s'.sh.log
  }

  lemma StepAfterClear(c: Config, s: State, e: Event)
    requires Safe(c, s) && Conserved(s) && s.sh.hist.clears > 0 && Step(c, s, e).Some?
    ensures OnlySettles(s, Step(c, s, e).value)
  {
    if e.Act? {
      PcIsSafe(c, s, e.thread);
      MoveAfterClear(c, s.sh, e.thread, s.Pc(e.thread), e.choice);
      MoveBooks(c, s.sh, e.thread, s.Pc(e.thread), e.choice);
    }
  }

  lemma {:induction false} RunAfterClear(c: Config, s: State, es: seq<Event>)
    requires Safe(c, s) && Conserved(s) && s.sh.hist.clears > 0 && Run(c, s, es).Some?
    ensures OnlySettles(s, Run(c, s, es).value)
    decreases |es|
  {
    if es != [] {
      var s1 := Step(c, s, es[0]).value;
      StepAfterClear(c, s, es[0]);
      StepKeepsSafe(c, s, es[0]);
      StepConserves(c, s, es[0]);
      RunAfterClear(c, s1, es[1..]);
    }
  }

  /**
    Finality of the clear, in every interleaving: however the run goes on, the window fields stay
    empty, the threads that owe an AuthRetrying or Running write only become fewer, and each such
    write that lands pays off one of them.
  */
  lemma ClearIsFinal(c: Config, s: State, es: seq<Event>, s': State, w: Write)
    requires Reachable(c, s) && s.sh.hist.clears > 0
    requires Run(c, s, es) == Some(s') && !w.ToUnauthenticated?
    ensures s'.sh.startedAt.None? && s'.sh.lastErr.None?
    ensures Owing(s'.pcs, w) <= Owing(s.pcs, w)
    ensures s.sh.log <= s'.sh.log
    ensures Done(s'.sh.log, w) - Done(s.sh.log, w) == Pending(s, w) - Pending(s', w)
  {
    ReachableIsSafe(c, s);
    StatusWritesConserved(c, s);
    RunKeepsSafe(c, s, es);
    RunConserves(c, s, es);
    RunAfterClear(c, s, es);
  }

  /**
    Both once gates over all runs: one close at most, and one warning exactly when there is a client id
    and the log holds more permanent verdicts than there are threads still on their way to the warning.
    Once no thread is, that is exactly when the log holds a permanent verdict.
  */
  lemma OnceGates(c: Config, s: State)
    requires Reachable(c, s)
    ensures s.sh.hist.closes <= 1 && (s.sh.stopped <==> s.sh.hist.closes == 1)
    ensures s.sh.hist.warnings == One(c.clientId != "" && |PermanentWrites(s.sh.log)| > |Warning(s.pcs)|)
    ensures Warning(s.pcs) == {} ==> s.sh.hist.warnings == One(c.clientId != "" && PermanentWrites(s.sh.log) != {})
  {
    ReachableIsSafe(c, s);
    StatusWritesConserved(c, s);
  }

  /**
    In every reachable state the cached error is there exactly when the window is open, and it is
    transient; so is the error a fast-failed caller gets, whatever the time stamp in its text.
  */
  lemma FastFailIsTransient(c: Config, s: State, stamp: string)
    requires Reachable(c, s)
    ensures s.sh.Open() <==> s.sh.lastErr.Some?
    ensures s.sh.Open() ==> IsTransient(FastFail(stamp, s.sh.lastErr)) && !IsPermanent(FastFail(stamp, s.sh.lastErr))
  {
    ReachableIsSafe(c, s);
    if s.sh.Open() {
      FastFailKeepsClass(stamp, s.sh.lastErr.value);
      PermanentNeverTransient(s.sh.lastErr.value);
    }
  }

  // ----- Runs in which every failure is transient -----

  /** The source fails only transiently; the short retry may also end with its context. */
  predicate TransientEvent(e: Event)
  {
    e.Act? ==> match e.choice
      case SourceReturns(Failed(err)) => IsTransient(err)
      case RefreshReturns(Failed(err)) => IsTransient(err) || IsContext(err)
      case _ => true
  }

  predicate NeverRejected(pc: PC)
  {
    InMark(pc) ==> pc.cause.CeilingReached?
  }

  /** Only the ceiling gives up, and it does so once. */
  predicate OnlyCeiling(s: State)
  {
    && MONITOR in s.pcs
    && (forall t :: t in s.pcs ==> NeverRejected(s.pcs[t]))
    && (forall i :: 0 <= i < |s.sh.log| && s.sh.log[i].Unauthenticated? ==> s.sh.log[i].cause.CeilingReached?)
    && s.sh.hist.clears == One(AfterClear(s.pcs[MONITOR]))
    && s.sh.hist.permanentMarks == 0
  }

  /** A step that can only bring the monitor closer to giving up for age. */
  predicate AgeMove(g: Shared, t: Tid, pc: PC, m: Move)
  {
    m.Move? ==>
      && NeverRejected(m.pc)
      && (m.sh.log == g.log || (pc.MarkStatus? && m.sh.log == g.log + [Unauthenticated(pc.cause)]) ||
          m.sh.log == g.log + [AuthRetrying] || m.sh.log == g.log + [Running])
      && m.sh.hist.permanentMarks == g.hist.permanentMarks
      && m.sh.hist.clears + One(AfterClear(pc)) == g.hist.clears + One(AfterClear(m.pc))
      && (t != MONITOR ==> !InMark(pc) && !InMark(m.pc))
  }

  lemma TransientMark(c: Config, g: Shared, t: Tid, pc: PC, ch: Choice)
    requires PointSafe(c, g, t, pc) && NeverRejected(pc) && InMark(pc)
    ensures AgeMove(g, t, pc, MarkMove(c, g, t, pc, ch))
  {
  }

  lemma TransientToken(c: Config, g: Shared, t: Tid, pc: PC, ch: Choice)
    requires PointSafe(c, g, t, pc) && TransientEvent(Act(t, ch)) && t != MONITOR && !InMark(pc) && !InEnter(pc)
    ensures AgeMove(g, t, pc, TokenMove(g, pc, ch))
  {
  }

  lemma TransientTick(c: Config, g: Shared, pc: PC, ch: Choice)
    requires PointSafe(c, g, MONITOR, pc) && TransientEvent(Act(MONITOR, ch))
    requires !InMark(pc) && !InEnter(pc) && !InExit(pc)
    ensures AgeMove(g, MONITOR, pc, TickMove(c, g, pc, ch))
  {
  }

  lemma TransientMove(c: Config, g: Shared, t: Tid, pc: PC, ch: Choice)
    requires PointSafe(c, g, t, pc) && NeverRejected(pc) && TransientEvent(Act(t, ch))
    ensures AgeMove(g, t, pc, ThreadMove(c, g, t, pc, ch))
  {
    if InMark(pc) {
      TransientMark(c, g, t, pc, ch);
    } else if InEnter(pc) {
    } else if t != MONITOR {
      TransientToken(c, g, t, pc, ch);
    } else if !InExit(pc) {
      TransientTick(c, g, pc, ch);
    }
  }

  lemma TransientStep(c: Config, s: State, e: Event)
    requires Safe(c, s) && OnlyCeiling(s) && TransientEvent(e) && Step(c, s, e).Some?
    ensures OnlyCeiling(Step(c, s, e).value)
  {
    if e.Act? {
      PcIsSafe(c, s, e.thread);
      TransientMove(c, s.sh, e.thread, s.Pc(e.thread), e.choice);
    }
  }

  lemma {:induction false} TransientRun(c: Config, s: State, es: seq<Event>)
    requires Safe(c, s) && OnlyCeiling(s) && Run(c, s, es).Some?
    requires forall i :: 0 <= i < |es| ==> TransientEvent(es[i])
    ensures OnlyCeiling(Run(c, s, es).value)
    decreases |es|
  {
    if es != [] {
      TransientStep(c, s, es[0]);
      StepKeepsSafe(c, s, es[0]);
      TransientRun(c, Step(c, s, es[0]).value, es[1..]);
    }
  }

  // ----- What a ceiling check has seen -----

  /** After these events a window that started at `since` is open and the clock stands at `seen`. */
  predicate Sees(c: Config, s: State, es: seq<Event>, since: nat, seen: nat)
  {
    Run(c, s, es).Some? && Run(c, s, es).value.sh.startedAt == Some(since) && Run(c, s, es).value.sh.now == seen
  }

  /** That is so at some point of the run. */
  ghost predicate SeenInRun(c: Config, s: State, es: seq<Event>, since: nat, seen: nat)
  {
    exists n :: 0 <= n <= |es| && Sees(c, s, es[..n], since, seen)
  }

  lemma StepRecordsSighting(c: Config, s: State, e: Event)
    requires Step(c, s, e).Some?
    ensures var g := Step(c, s, e).value.sh;
            g.hist.sightings == s.sh.hist.sightings ||
            (g.startedAt.Some? && g.hist.sightings == s.sh.hist.sightings + {(g.startedAt.value, g.now)})
  {
    if e.Act? {
      var t, pc := e.thread, s.Pc(e.thread);
      if InMark(pc) {
        assert ThreadMove(c, s.sh, t, pc, e.choice) == MarkMove(c, s.sh, t, pc, e.choice);
      } else if InEnter(pc) {
        assert ThreadMove(c, s.sh, t, pc, e.choice) == EnterMove(c, s.sh, t, pc, e.choice);
      }
    }
  }

  lemma SeenLater(c: Config, s: State, es: seq<Event>, since: nat, seen: nat)
    requires es != [] && Step(c, s, es[0]).Some? && SeenInRun(c, Step(c, s, es[0]).value, es[1..], since, seen)
    ensures SeenInRun(c, s, es, since, seen)
  {
    var s1 := Step(c, s, es[0]).value;
    var n :| 0 <= n <= |es[1..]| && Sees(c, s1, es[1..][..n], since, seen);
    assert es[..n + 1][0] == es[0] && es[..n + 1][1..] == es[1..][..n];
    assert Sees(c, s, es[..n + 1], since, seen);
  }

  lemma {:induction false} SightingsAreSeen(c: Config, s: State, es: seq<Event>, since: nat, seen: nat)
    requires Run(c, s, es).Some?
    requires (since, seen) in Run(c, s, es).value.sh.hist.sightings && (since, seen) !in s.sh.hist.sightings
    ensures SeenInRun(c, s, es, since, seen)
    decreases |es|
  {
    if es != [] {
      var s1 := Step(c, s, es[0]).value;
      StepRecordsSighting(c, s, es[0]);
      if (since, seen) in s1.sh.hist.sightings {
        assert es[1..][..0] == [];
        assert Sees(c, s1, es[1..][..0], since, seen);
      } else {
        SightingsAreSeen(c, s1, es[1..], since, seen);
      }
      SeenLater(c, s, es, since, seen);
    }
  }

  /**
    If every failure is transient, or the end of the context during the short retry, a workload is given
    up at most once, and only for an age the monitor really saw: at some point of this run the window was
    open since `since` while the clock stood at `seen`, more than the ceiling later.
  */
  lemma OnlyTheCeilingGivesUp(c: Config, es: seq<Event>, s: State)
    requires Run(c, Init(), es) == Some(s)
    requires forall i :: 0 <= i < |es| ==> TransientEvent(es[i])
    ensures forall i :: 0 <= i < |s.sh.log| && s.sh.log[i].Unauthenticated? ==>
              && s.sh.log[i].cause.CeilingReached?
              && s.sh.log[i].cause.seen - s.sh.log[i].cause.since > c.ceiling
              && SeenInRun(c, Init(), es, s.sh.log[i].cause.since, s.sh.log[i].cause.seen)
    ensures Done(s.sh.log, ToUnauthenticated) <= 1 && s.sh.hist.warnings == 0
  {
    TransientRun(c, Init(), es);
    assert Reachable(c, s);
    ReachableIsSafe(c, s);
    StatusWritesConserved(c, s);
    forall i | 0 <= i < |s.sh.log| && s.sh.log[i].Unauthenticated?
      ensures SeenInRun(c, Init(), es, s.sh.log[i].cause.since, s.sh.log[i].cause.seen)
    {
      SightingsAreSeen(c, Init(), es, s.sh.log[i].cause.since, s.sh.log[i].cause.seen);
    }
  }
}
