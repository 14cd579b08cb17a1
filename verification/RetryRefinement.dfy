/**
  The object of `MonitoredSource` and the machine of `RetryMachine` tell the same story: a call that
  runs without interference is a run of the machine, and it leaves in the shared part exactly what the
  sequential specification says.
*/
module RetryRefinement {
  import opened Options
  import opened TokenErrors
  import opened RetryMachine
  import opened MonitoredSource
  import opened SequentialLaws

  function MemoryOf(g: Shared): Memory
  {
    Memory(g.startedAt, g.lastErr, g.stopped, g.warned, g.hist.warnings, g.log)
  }

  /** One thread has moved, the others, the clock and the mutex are where they were. */
  predicate OnlyMoved(s: State, s': State, t: Tid, pc: PC)
  {
    s'.pcs == s.pcs[t := pc] && s'.sh.mu.None? && s'.sh.now == s.sh.now
  }

  lemma MarkRun(c: Config, s0: State, s: State, t: Tid) returns (s': State)
    requires Leads(c, s0, s) && s.Pc(t).MarkClose? && s.sh.mu.None?
    ensures Leads(c, s0, s') && OnlyMoved(s, s', t, if t == MONITOR then Exited(GaveUp) else Idle)
    ensures MemoryOf(s'.sh) == Marked(c, MemoryOf(s.sh), s.Pc(t).cause)
  {
    s' := MarkBegins(c, s0, s, t);
    s' := ThenMark(c, s0, s', t);
    s' := ThenMark(c, s0, s', t);
    assert s'.pcs == s.pcs[t := s'.pcs[t]];
  }

  lemma MarkBegins(c: Config, s0: State, s: State, t: Tid) returns (s': State)
    requires Leads(c, s0, s) && s.Pc(t).MarkClose? && s.sh.mu.None?
    ensures Leads(c, s0, s') && OnlyMoved(s, s', t, MarkStatus(s.Pc(t).cause))
    ensures MemoryOf(s'.sh) == MemoryOf(s.sh).(startedAt := None, lastErr := None, stopped := true)
  {
    s' := ThenMark(c, s0, s, t);
    s' := ThenMark(c, s0, s', t);
    assert s'.pcs == s.pcs[t := MarkStatus(s.Pc(t).cause)];
  }

  lemma EnterRun(c: Config, s0: State, s: State, t: Tid) returns (s': State)
    requires Leads(c, s0, s) && s.Pc(t).EnterGate? && s.sh.mu.None?
    ensures Leads(c, s0, s') && OnlyMoved(s, s', t, EnterReturn(c, s.sh, t))
    ensures MemoryOf(s'.sh) == Entered(MemoryOf(s.sh), s.sh.now, s.Pc(t).err)
  {
    s' := ThenEnter(c, s0, s, t);
    if !s.sh.stopped {
      s' := ThenEnter(c, s0, s', t);
      if !s.sh.Open() {
        s' := ThenEnter(c, s0, s', t);
      }
    }
    assert s'.pcs == s.pcs[t := EnterReturn(c, s.sh, t)];
  }

  /** Where the monitor stands when `onTick` has returned and the loop has armed the timer or left. */
  function AfterDelay(now: nat, delay: Option<nat>, why: ExitReason): PC
  {
    if delay.None? then Exited(why) else Waiting(now + delay.value)
  }

  lemma GrantRun(c: Config, s0: State, s: State) returns (s': State)
    requires Leads(c, s0, s) && s.Pc(MONITOR).ExitClear? && s.sh.mu.None?
    ensures Leads(c, s0, s')
    ensures OnlyMoved(s, s', MONITOR, AfterDelay(s.sh.now, GrantDelay(s.Pc(MONITOR).expiry, s.sh.now), NoExpiry))
    ensures MemoryOf(s'.sh) == AfterGrant(MemoryOf(s.sh), s.Pc(MONITOR).expiry)
  {
    s' := ThenExit(c, s0, s);
    if s.sh.Open() {
      s' := ThenExit(c, s0, s');
    }
    if s.Pc(MONITOR).expiry.None? {
      s' := ThenTick(c, s0, s', Proceed);
    }
    assert s'.pcs == s.pcs[MONITOR := s'.pcs[MONITOR]];
  }

  /** A thread that has moved twice has moved once. */
  lemma MovedTwice(s: State, s1: State, s2: State, t: Tid, pc1: PC, pc2: PC)
    requires OnlyMoved(s, s1, t, pc1) && OnlyMoved(s1, s2, t, pc2)
    ensures OnlyMoved(s, s2, t, pc2)
  {
    assert s.pcs[t := pc1][t := pc2] == s.pcs[t := pc2];
  }

  /** A transient failure on the request path: the stop check, then the short retry. */
  lemma ShortRetryRun(c: Config, s0: State, s: State, t: Tid, refresh: Outcome) returns (s': State)
    requires Leads(c, s0, s) && t != MONITOR && s.Pc(t).CheckStop?
    ensures Leads(c, s0, s') && s'.sh == s.sh && s'.pcs == s.pcs[t := s'.Pc(t)]
    ensures s'.Pc(t) ==
            if s.sh.stopped || refresh.Granted? || IsContext(refresh.err) then Idle
            else if !IsTransient(refresh.err) then Reject(refresh.err)
            else EnterGate(refresh.err)
  {
    s' := ThenToken(c, s0, s, t, Proceed);
    if !s.sh.stopped {
      s' := ThenToken(c, s0, s', t, RefreshReturns(refresh));
    }
    assert s'.pcs == s.pcs[t := s'.Pc(t)];
  }

  /** The part of a request-path call up to its verdict. */
  lemma TokenReaches(c: Config, s: State, t: Tid, source: Outcome, refresh: Outcome) returns (s': State)
    requires t != MONITOR && s.Pc(t) == Idle && s.sh.mu.None?
    ensures Leads(c, s, s') && s'.sh == s.sh && OnlyMoved(s, s', t, s'.Pc(t))
    ensures s'.Pc(t) ==
            if s.sh.Open() || source.Granted? then Idle
            else if !IsTransient(source.err) then Reject(source.err)
            else if s.sh.stopped || refresh.Granted? || IsContext(refresh.err) then Idle
            else if !IsTransient(refresh.err) then Reject(refresh.err)
            else EnterGate(refresh.err)
  {
    LeadsNowhere(c, s);
    s' := ThenToken(c, s, s, t, Proceed);
    if !s.sh.Open() {
      s' := ThenToken(c, s, s', t, SourceReturns(source));
      if source.Failed? && IsTransient(source.err) {
        s' := ShortRetryRun(c, s, s', t, refresh);
      }
    }
    assert s'.pcs == s.pcs[t := s'.Pc(t)];
  }

  /** `Token()` without interference: a run of the machine with the effect the object's method has. */
  lemma TokenCallIsARun(c: Config, s: State, t: Tid, source: Outcome, refresh: Outcome) returns (s': State)
    requires t != MONITOR && s.Pc(t) == Idle && s.sh.mu.None?
    ensures Leads(c, s, s') && OnlyMoved(s, s', t, Idle)
    ensures MemoryOf(s'.sh) == AfterToken(c, MemoryOf(s.sh), s.sh.now, source, refresh)
  {
    var mid := TokenReaches(c, s, t, source, refresh);
    s' := mid;
    if mid.Pc(t).MarkClose? {
      s' := MarkRun(c, s, mid, t);
      MovedTwice(s, mid, s', t, mid.Pc(t), Idle);
    } else if mid.Pc(t).EnterGate? {
      s' := EnterRun(c, s, mid, t);
      MovedTwice(s, mid, s', t, mid.Pc(t), Idle);
    }
  }

  /** A transient failure on a tick: the ceiling inside a window, the short retry outside it. */
  lemma TransientTickRun(c: Config, s0: State, s: State, refresh: Outcome) returns (s': State)
    requires Leads(c, s0, s) && s.Pc(MONITOR).TickWindow? && s.sh.mu.None?
    ensures Leads(c, s0, s') && MemoryOf(s'.sh) == MemoryOf(s.sh) && OnlyMoved(s, s', MONITOR, s'.Pc(MONITOR))
    ensures s'.Pc(MONITOR) ==
            if TooOld(c, MemoryOf(s.sh), s.sh.now) then MarkClose(CeilingReached(s.sh.startedAt.value, s.sh.now))
            else if s.sh.Open() then EnterGate(s.Pc(MONITOR).err)
            else if refresh.Granted? then ExitClear(refresh.expiry)
            else if IsContext(refresh.err) then Exited(RefreshCancelled)
            else if !IsTransient(refresh.err) then Reject(refresh.err)
            else EnterGate(refresh.err)
  {
    s' := ThenTick(c, s0, s, Proceed);
    s' := ThenTick(c, s0, s', if s.sh.Open() then Proceed else RefreshReturns(refresh));
    assert s'.pcs == s.pcs[MONITOR := s'.Pc(MONITOR)];
  }

  /** The part of a tick up to its verdict. */
  lemma TickReaches(c: Config, s: State, source: Outcome, refresh: Outcome) returns (s': State)
    requires s.Pc(MONITOR).Waiting? && s.Pc(MONITOR).timer <= s.sh.now && s.sh.mu.None?
    ensures Leads(c, s, s') && MemoryOf(s'.sh) == MemoryOf(s.sh) && OnlyMoved(s, s', MONITOR, s'.Pc(MONITOR))
    ensures s'.Pc(MONITOR) ==
            if source.Granted? then ExitClear(source.expiry)
            else if !IsTransient(source.err) then Reject(source.err)
            else if TooOld(c, MemoryOf(s.sh), s.sh.now) then MarkClose(CeilingReached(s.sh.startedAt.value, s.sh.now))
            else if s.sh.Open() then EnterGate(source.err)
            else if refresh.Granted? then ExitClear(refresh.expiry)
            else if IsContext(refresh.err) then Exited(RefreshCancelled)
            else if !IsTransient(refresh.err) then Reject(refresh.err)
            else EnterGate(refresh.err)
  {
    LeadsNowhere(c, s);
    s' := ThenTick(c, s, s, TimerFires);
    s' := ThenTick(c, s, s', SourceReturns(source));
    if source.Failed? && IsTransient(source.err) {
      s' := TransientTickRun(c, s, s', refresh);
    }
    assert s'.pcs == s.pcs[MONITOR := s'.Pc(MONITOR)];
  }

  /** A timer tick without interference: likewise, and the loop waits again exactly when the method asks for it. */
  lemma TickIsARun(c: Config, s: State, source: Outcome, refresh: Outcome) returns (s': State, why: ExitReason)
    requires s.Pc(MONITOR).Waiting? && s.Pc(MONITOR).timer <= s.sh.now && s.sh.mu.None?
    ensures Leads(c, s, s')
    ensures MemoryOf(s'.sh) == AfterTick(c, MemoryOf(s.sh), s.sh.now, source, refresh)
    ensures OnlyMoved(s, s', MONITOR,
                      AfterDelay(s.sh.now, TickDelay(c, MemoryOf(s.sh), s.sh.now, source, refresh), why))
  {
    var mid := TickReaches(c, s, source, refresh);
    var pc := mid.Pc(MONITOR);
    s', why := mid, RefreshCancelled;
    if pc.MarkClose? {
      why := GaveUp;
      s' := MarkRun(c, s, mid, MONITOR);
      MovedTwice(s, mid, s', MONITOR, pc, Exited(GaveUp));
    } else if pc.EnterGate? {
      s' := EnterRun(c, s, mid, MONITOR);
      MovedTwice(s, mid, s', MONITOR, pc, EnterReturn(c, mid.sh, MONITOR));
    } else if pc.ExitClear? {
      why := NoExpiry;
      s' := GrantRun(c, s, mid);
      MovedTwice(s, mid, s', MONITOR, pc, s'.Pc(MONITOR));
    }
  }

  /** The monitor of the machine stands where the loop stands. */
  predicate Stands(pc: PC, r: Monitor)
  {
    if r.left then pc.Exited? else pc == Waiting(r.timer)
  }

  /** One wake-up that is taken or passed over. */
  lemma WakeupRun(c: Config, s: State, w: Wakeup) returns (s': State)
    requires s.Pc(MONITOR).Waiting? && s.sh.mu.None? && s.sh.now <= s.Pc(MONITOR).timer
    ensures var r := AfterLoop(c, MemoryOf(s.sh), s.Pc(MONITOR).timer, [w]);
            && Leads(c, s, s') && MemoryOf(s'.sh) == r.mem && Stands(s'.Pc(MONITOR), r) && s'.sh.mu.None?
            && (s'.Pc(MONITOR).Waiting? ==> s'.sh.now <= s'.Pc(MONITOR).timer)
  {
    assert [w][1..] == [];
    var timer := s.Pc(MONITOR).timer;
    LeadsNowhere(c, s);
    s' := s;
    match w
    case ContextOver => s' := ThenTick(c, s, s, ContextDone);
    case StopClosed => if s.sh.stopped { s' := ThenTick(c, s, s, StopSeen); }
    case Timer(now, source, refresh) =>
      if timer <= now {
        var due := ThenElapse(c, s, s, now - s.sh.now);
        var why: ExitReason;
        s', why := TickIsARun(c, due, source, refresh);
        LeadsOn(c, s, due, s');
      }
  }

  lemma LeadsOn(c: Config, s0: State, s1: State, s2: State)
    requires Leads(c, s0, s1) && Leads(c, s1, s2)
    ensures Leads(c, s0, s2)
  {
    var es := SomeRun(c, s0, s1);
    var fs := SomeRun(c, s1, s2);
    Runs.RunConcat(Steps(c), s0, es, fs);
    assert Runs.Run(Steps(c), s0, es + fs) == Some(s2);
  }

  /** The whole loop without interference is a run of the machine: same memory, same timer, left or not. */
  lemma {:induction false} LoopIsARun(c: Config, s: State, ws: seq<Wakeup>) returns (s': State)
    requires s.Pc(MONITOR).Waiting? && s.sh.mu.None? && s.sh.now <= s.Pc(MONITOR).timer
    ensures var r := AfterLoop(c, MemoryOf(s.sh), s.Pc(MONITOR).timer, ws);
            Leads(c, s, s') && MemoryOf(s'.sh) == r.mem && Stands(s'.Pc(MONITOR), r)
    decreases |ws|
  {
    LeadsNowhere(c, s);
    s' := s;
    if ws != [] {
      LoopResumes(c, MemoryOf(s.sh), s.Pc(MONITOR).timer, ws, 1);
      assert ws[..1] == [ws[0]];
      s' := WakeupRun(c, s, ws[0]);
      if s'.Pc(MONITOR).Waiting? {
        var s1 := s';
        s' := LoopIsARun(c, s1, ws[1..]);
        LeadsOn(c, s, s1, s');
      }
    }
  }
}
