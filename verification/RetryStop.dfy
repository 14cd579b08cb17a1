/**
  What closing the stop channel does and does not promise. Two natural claims are false: that a closed
  channel means no open window, and that an exited monitor means a closed channel. Each comes with a run
  that breaks it and with the exact condition under which it holds.
*/
module RetryStop {
  import opened Options
  import opened TokenErrors
  import opened RetryMachine
  import opened RetrySafety
  import opened RetryRefinement

  // ----- The monitor's exit -----

  /** A context ends the monitor's wait or its short retry: the loop returns without closing the channel. */
  predicate EndsWithContext(s: State, e: Event)
  {
    && e.Act? && e.thread == MONITOR
    && match e.choice
       case ContextDone => true
       case RefreshReturns(Failed(err)) => s.Pc(MONITOR).TickRefresh? && IsContext(err)
       case _ => false
  }

  /** The step that ends the monitor leaves the channel closed exactly when it was, or no context ended. */
  lemma ExitLeavesStopped(c: Config, s: State, e: Event)
    requires Reachable(c, s) && !s.Pc(MONITOR).Exited?
    requires Step(c, s, e).Some? && Step(c, s, e).value.Pc(MONITOR).Exited?
    ensures Step(c, s, e).value.sh.stopped <==> s.sh.stopped || !EndsWithContext(s, e)
  {
    ReachableIsSafe(c, s);
    PcIsSafe(c, s, MONITOR);
  }

  /** A refresh cancelled with its context ends the monitor and leaves the channel open. */
  lemma ExitWithoutStop(c: Config, transient: Err, cancelled: Err) returns (s: State)
    requires IsTransient(transient) && IsContext(cancelled)
    ensures Reachable(c, s)
    ensures s.Pc(MONITOR) == Exited(RefreshCancelled) && !s.sh.stopped
  {
    s := Init();
    LeadsNowhere(c, s);
    s := ThenElapse(c, Init(), s, MILLISECOND);
    s := ThenTick(c, Init(), s, TimerFires);
    s := ThenTick(c, Init(), s, SourceReturns(Failed(transient)));
    s := ThenTick(c, Init(), s, Proceed);
    s := ThenTick(c, Init(), s, RefreshReturns(Failed(cancelled)));
  }

  // ----- The window left behind by a token without expiry -----

  /** A window is open, or a thread has passed the gate and is about to open or refresh it. */
  predicate Claimed(g: Shared)
  {
    g.Open() || g.mu.Some?
  }

  lemma MoveKeepsClaim(c: Config, g: Shared, t: Tid, pc: PC, ch: Choice)
    requires SharedSafe(c, g) && PointSafe(c, g, t, pc) && g.stopped && (t == MONITOR ==> pc.Exited?)
    ensures var m := ThreadMove(c, g, t, pc, ch);
            m.Move? ==>
              && m.sh.stopped
              && g.hist.clears <= m.sh.hist.clears
              && (m.sh.hist.clears == g.hist.clears ==> (Claimed(m.sh) <==> Claimed(g)))
              && (t == MONITOR ==> m.pc.Exited?)
  {
    if InMark(pc) {
      assert ThreadMove(c, g, t, pc, ch) == MarkMove(c, g, t, pc, ch);
    } else if InEnter(pc) {
      assert ThreadMove(c, g, t, pc, ch) == EnterMove(c, g, t, pc, ch);
    }
  }

  lemma {:induction false} RunKeepsClaim(c: Config, s: State, es: seq<Event>, s': State)
    requires Safe(c, s) && s.sh.stopped && s.pcs[MONITOR].Exited?
    requires Run(c, s, es) == Some(s')
    ensures s'.sh.stopped && s'.Pc(MONITOR) == s.Pc(MONITOR)
    ensures s.sh.hist.clears <= s'.sh.hist.clears
    ensures s'.sh.hist.clears == s.sh.hist.clears ==> (Claimed(s'.sh) <==> Claimed(s.sh))
    decreases |es|
  {
    if es != [] {
      if es[0].Act? {
        PcIsSafe(c, s, es[0].thread);
        MoveKeepsClaim(c, s.sh, es[0].thread, s.Pc(es[0].thread), es[0].choice);
      }
      StepKeepsSafe(c, s, es[0]);
      RunKeepsClaim(c, Step(c, s, es[0]).value, es[1..], s');
    }
  }

  /**
    A token without expiry makes the monitor close the channel after it has cleared the window, so
    that no window is left without a monitor. That succeeds exactly when, at the instant of the
    close, no window had been opened again and no thread held the mutex past the gate: in every
    continuation without a mark, the window is open at the end if and only if one of the two was so.
  */
  lemma ZeroExpiryStop(c: Config, s: State, es: seq<Event>, s': State)
    requires Reachable(c, s) && s.Pc(MONITOR) == CloseOnly
    requires Run(c, s, [Act(MONITOR, Proceed)] + es) == Some(s')
    requires s'.sh.hist.clears == s.sh.hist.clears && s'.sh.mu.None?
    ensures s'.sh.stopped && s'.Pc(MONITOR).Exited?
    ensures s'.sh.Open() <==> s.sh.Open() || s.sh.mu.Some?
  {
    ReachableIsSafe(c, s);
    var e := Act(MONITOR, Proceed);
    assert ([e] + es)[0] == e && ([e] + es)[1..] == es;
    var s1 := Step(c, s, e).value;
    StepKeepsSafe(c, s, e);
    RunKeepsClaim(c, s1, es, s');
  }

  /** No call is in progress and the monitor has left. */
  predicate Quiet(s: State)
  {
    MONITOR in s.pcs && s.pcs[MONITOR].Exited? && forall t :: t in s.pcs && t != MONITOR ==> s.pcs[t].Idle?
  }

  /**
    A window left behind that way never closes: with no monitor and no call in progress, every later
    call fast-fails on the cached error, so nothing ever reaches the source, the mark or the log again.
  */
  lemma {:induction false} AbandonedForever(c: Config, s: State, es: seq<Event>, s': State)
    requires Quiet(s) && s.sh.Open() && Run(c, s, es) == Some(s')
    ensures Quiet(s') && s'.sh == s.sh.(now := s'.sh.now)
    decreases |es|
  {
    if es != [] {
      AbandonedForever(c, Step(c, s, es[0]).value, es[1..], s');
    }
  }

  /** A request thread can bring any transient error to the entry gate while the window is closed. */
  lemma BringToGate(c: Config, s0: State, s: State, t: Tid, e: Err) returns (s': State)
    requires Leads(c, s0, s) && t != MONITOR && s.Pc(t) == Idle && IsTransient(e)
    requires s.sh.mu.None? && !s.sh.Open() && !s.sh.stopped
    ensures Leads(c, s0, s') && s' == State(s.sh, s.pcs[t := EnterGate(e)])
  {
    PermanentNeverTransient(e);
    s' := ThenToken(c, s0, s, t, Proceed);
    s' := ThenToken(c, s0, s', t, SourceReturns(Failed(e)));
    s' := ThenToken(c, s0, s', t, Proceed);
    s' := ThenToken(c, s0, s', t, RefreshReturns(Failed(e)));
    assert s'.pcs == s.pcs[t := EnterGate(e)];
  }

  /** From the gate it opens the window and owes the status write. */
  lemma OpenWindow(c: Config, s0: State, s: State, t: Tid) returns (s': State)
    requires Leads(c, s0, s) && s.Pc(t).EnterGate?
    requires s.sh.mu.None? && !s.sh.Open() && !s.sh.stopped
    ensures Leads(c, s0, s') && s'.pcs == s.pcs[t := EnterStatus]
    ensures s'.sh == s.sh.(startedAt := Some(s.sh.now), lastErr := Some(s.Pc(t).err),
                           hist := s.sh.hist.(entries := s.sh.hist.entries + 1, checks := 0))
  {
    s' := ThenEnter(c, s0, s, t);
    s' := ThenEnter(c, s0, s', t);
  }

  /** The owed AuthRetrying write lands, whatever happened meanwhile. */
  lemma LandWrite(c: Config, s0: State, s: State, t: Tid) returns (s': State)
    requires Leads(c, s0, s) && t != MONITOR && s.Pc(t).EnterStatus?
    ensures Leads(c, s0, s') && s' == State(s.sh.(log := s.sh.log + [AuthRetrying]), s.pcs[t := Idle])
  {
    s' := ThenEnter(c, s0, s, t);
  }

  /** The monitor's tick is granted a token without expiry and is about to close the channel. */
  lemma TickWithoutExpiry(c: Config, s0: State, s: State) returns (s': State)
    requires Leads(c, s0, s) && s.Pc(MONITOR).Waiting? && s.Pc(MONITOR).timer <= s.sh.now
    requires s.sh.mu.None? && !s.sh.Open()
    ensures Leads(c, s0, s') && s' == State(s.sh, s.pcs[MONITOR := CloseOnly])
  {
    s' := ThenTick(c, s0, s, TimerFires);
    s' := ThenTick(c, s0, s', SourceReturns(Granted(None)));
    s' := ThenExit(c, s0, s');
    assert s'.pcs == s.pcs[MONITOR := CloseOnly];
  }

  /** A run that abandons a window: a request thread enters between the monitor's clear and its close. */
  lemma ZeroExpiryAbandons(c: Config, e: Err) returns (s: State)
    requires IsTransient(e)
    ensures Reachable(c, s)
    ensures Quiet(s) && s.sh.Open() && s.sh.stopped && s.sh.hist.clears == 0
  {
    LeadsNowhere(c, Init());
    s := BringToGate(c, Init(), Init(), 1, e);
    s := ThenElapse(c, Init(), s, MILLISECOND);
    s := TickWithoutExpiry(c, Init(), s);
    s := OpenWindow(c, Init(), s, 1);
    s := LandWrite(c, Init(), s, 1);
    s := ThenTick(c, Init(), s, Proceed);
  }

  /** A request thread whose call is refused starts a mark. */
  lemma BringToMark(c: Config, s0: State, s: State, t: Tid, e: Err) returns (s': State)
    requires Leads(c, s0, s) && t != MONITOR && s.Pc(t) == Idle && !IsTransient(e)
    requires s.sh.mu.None? && !s.sh.Open()
    ensures Leads(c, s0, s') && s' == State(s.sh, s.pcs[t := Reject(e)])
  {
    s' := ThenToken(c, s0, s, t, Proceed);
    s' := ThenToken(c, s0, s', t, SourceReturns(Failed(e)));
    assert s'.pcs == s.pcs[t := Reject(e)];
  }

  /** The monitor recovers an open window, writes Running and waits again. */
  lemma Recover(c: Config, s0: State, s: State, expiry: nat) returns (s': State)
    requires Leads(c, s0, s) && s.Pc(MONITOR).Waiting? && s.Pc(MONITOR).timer <= s.sh.now
    requires s.sh.mu.None? && s.sh.Open()
    ensures Leads(c, s0, s')
    ensures s'.pcs == s.pcs[MONITOR := Waiting(s.sh.now + UntilExpiry(expiry, s.sh.now))]
    ensures s'.sh.log == s.sh.log + [Running] && !s'.sh.Open() && s'.sh.stopped == s.sh.stopped
  {
    s' := ThenTick(c, s0, s, TimerFires);
    s' := ThenTick(c, s0, s', SourceReturns(Granted(Some(expiry))));
    s' := ThenExit(c, s0, s');
    s' := ThenExit(c, s0, s');
    assert s'.pcs == s.pcs[MONITOR := Waiting(s.sh.now + UntilExpiry(expiry, s.sh.now))];
  }

  /**
    Status writes may land out of order without any mark: a caller has opened the window, the monitor
    recovers and writes Running, and only then does the caller's AuthRetrying land. The workload is
    healthy, monitored and idle, and its last status is AuthRetrying.
  */
  lemma StaleAfterRecovery(c: Config, e: Err, expiry: nat) returns (s: State)
    requires IsTransient(e)
    ensures Reachable(c, s) && !s.sh.Open() && !s.sh.stopped
    ensures s.Pc(MONITOR).Waiting? && forall t :: t in s.pcs && t != MONITOR ==> s.pcs[t].Idle?
    ensures s.sh.log == [Running, AuthRetrying]
  {
    LeadsNowhere(c, Init());
    s := BringToGate(c, Init(), Init(), 1, e);
    s := OpenWindow(c, Init(), s, 1);
    s := ThenElapse(c, Init(), s, MILLISECOND);
    s := Recover(c, Init(), s, expiry);
    s := LandWrite(c, Init(), s, 1);
  }

  /** Status writes may land out of order: AuthRetrying in the log after Unauthenticated, with the window closed. */
  lemma LateWrite(c: Config, e: Err, refusal: Err) returns (s: State)
    requires IsTransient(e) && !IsTransient(refusal)
    ensures Reachable(c, s) && !s.sh.Open()
    ensures s.sh.log == [Unauthenticated(Rejected(IsPermanent(refusal))), AuthRetrying]
  {
    LeadsNowhere(c, Init());
    s := BringToGate(c, Init(), Init(), 1, e);
    s := BringToMark(c, Init(), s, 2, refusal);
    s := OpenWindow(c, Init(), s, 1);
    s := MarkRun(c, Init(), s, 2);
    s := LandWrite(c, Init(), s, 1);
  }
}
