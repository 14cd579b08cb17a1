/**
  Laws of non-overlapping calls: the language of the status log, and the way an outage ends.
*/
module SequentialLaws {
  import opened Options
  import opened TokenErrors
  import opened RetryMachine
  import opened MonitoredSource
  import opened StatusLanguage

  // ----- The language of the status log -----

  datatype Call =
    | TokenCall(now: nat, source: Outcome, refresh: Outcome)
    | TickCall(now: nat, source: Outcome, refresh: Outcome)

  function AfterCall(c: Config, m: Memory, call: Call): Memory
  {
    match call
    case TokenCall(now, source, refresh) => AfterToken(c, m, now, source, refresh)
    case TickCall(now, source, refresh) => AfterTick(c, m, now, source, refresh)
  }

  function AfterCalls(c: Config, m: Memory, calls: seq<Call>): Memory
    decreases |calls|
  {
    if calls == [] then m else AfterCalls(c, AfterCall(c, m, calls[0]), calls[1..])
  }

  /** The memory agrees with the log: the window is open exactly when the last write was AuthRetrying. */
  predicate Agrees(m: Memory, cut: nat)
  {
    && CutAt(m.log, cut)
    && (m.startedAt.Some? <==> cut == |m.log| && cut % 2 == 1)
    && (m.startedAt.Some? <==> m.lastErr.Some?)
    && (m.lastErr.Some? ==> IsTransient(m.lastErr.value))
    && (cut < |m.log| ==> m.stopped)
    && (m.stopped ==> m.startedAt.None?)
  }

  lemma EnteredAgrees(m: Memory, now: nat, e: Err, cut: nat) returns (cut': nat)
    requires Agrees(m, cut) && IsTransient(e)
    ensures Agrees(Entered(m, now, e), cut')
  {
    cut' := if m.stopped || m.startedAt.Some? then cut else cut + 1;
  }

  lemma RecoveredAgrees(m: Memory, cut: nat) returns (cut': nat)
    requires Agrees(m, cut)
    ensures Agrees(Recovered(m), cut') && Recovered(m).startedAt.None?
  {
    cut' := if m.startedAt.None? then cut else cut + 1;
  }

  lemma MarkedAgrees(c: Config, m: Memory, k: Cause, cut: nat)
    requires Agrees(m, cut)
    ensures Agrees(Marked(c, m, k), cut)
  {
  }

  lemma RefreshFailureAgrees(c: Config, m: Memory, now: nat, e: Err, cut: nat) returns (cut': nat)
    requires Agrees(m, cut)
    ensures Agrees(AfterRefreshFailure(c, m, now, e), cut')
  {
    cut' := cut;
    if IsContext(e) {
    } else if !IsTransient(e) {
      MarkedAgrees(c, m, Rejected(IsPermanent(e)), cut);
    } else {
      cut' := EnteredAgrees(m, now, e, cut);
    }
  }

  lemma TokenAgrees(c: Config, m: Memory, now: nat, source: Outcome, refresh: Outcome, cut: nat) returns (cut': nat)
    requires Agrees(m, cut)
    ensures Agrees(AfterToken(c, m, now, source, refresh), cut')
  {
    cut' := cut;
    if m.startedAt.Some? || source.Granted? {
    } else if !IsTransient(source.err) {
      MarkedAgrees(c, m, Rejected(IsPermanent(source.err)), cut);
    } else if !m.stopped && refresh.Failed? {
      cut' := RefreshFailureAgrees(c, m, now, refresh.err, cut);
    }
  }

  lemma TickAgrees(c: Config, m: Memory, now: nat, source: Outcome, refresh: Outcome, cut: nat) returns (cut': nat)
    requires Agrees(m, cut)
    ensures Agrees(AfterTick(c, m, now, source, refresh), cut')
  {
    if source.Granted? {
      cut' := RecoveredAgrees(m, cut);
    } else if !IsTransient(source.err) {
      cut' := cut;
      MarkedAgrees(c, m, Rejected(IsPermanent(source.err)), cut);
    } else if TooOld(c, m, now) {
      cut' := cut;
      MarkedAgrees(c, m, CeilingReached(m.startedAt.value, now), cut);
    } else if m.startedAt.Some? {
      cut' := EnteredAgrees(m, now, source.err, cut);
    } else if refresh.Granted? {
      cut' := RecoveredAgrees(m, cut);
    } else {
      cut' := RefreshFailureAgrees(c, m, now, refresh.err, cut);
    }
  }

  lemma {:induction false} CallsAgree(c: Config, m: Memory, calls: seq<Call>, cut: nat) returns (cut': nat)
    requires Agrees(m, cut)
    ensures Agrees(AfterCalls(c, m, calls), cut')
    decreases |calls|
  {
    cut' := cut;
    if calls != [] {
      match calls[0] {
        case TokenCall(now, source, refresh) => cut' := TokenAgrees(c, m, now, source, refresh, cut);
        case TickCall(now, source, refresh) => cut' := TickAgrees(c, m, now, source, refresh, cut);
      }
      cut' := CallsAgree(c, AfterCall(c, m, calls[0]), calls[1..], cut');
    }
  }

  /**
    For every sequence of non-overlapping calls and every answer of the environment, the status log
    lies in the language and its last entry tells the memory: the window is open, with a transient
    error cached, exactly after AuthRetrying; after Unauthenticated monitoring has been stopped.
  */
  lemma StatusLogLanguage(c: Config, calls: seq<Call>)
    ensures var m := AfterCalls(c, FRESH, calls);
            && InLanguage(m.log)
            && Tells(m.log, m.startedAt.Some?)
            && (m.startedAt.Some? ==> m.lastErr.Some? && IsTransient(m.lastErr.value))
            && (m.log != [] && m.log[|m.log| - 1].Unauthenticated? ==> m.stopped)
  {
    var cut := CallsAgree(c, FRESH, calls, 0);
  }

  // ----- What one call does, by the answer that settles it -----

  /** The answer a tick ends with: the short retry's if it is tried, otherwise the source's. */
  function Settling(m: Memory, source: Outcome, refresh: Outcome): Outcome
  {
    if source.Failed? && IsTransient(source.err) && m.startedAt.None? then refresh else source
  }

  /** The short retry was tried and its context has ended. */
  predicate Cancelled(m: Memory, source: Outcome, refresh: Outcome)
  {
    && source.Failed? && IsTransient(source.err) && m.startedAt.None?
    && refresh.Failed? && IsContext(refresh.err)
  }

  /** A token on a tick: the window is closed, the monitor waits for the expiry or stops for want of one. */
  lemma GrantedTick(c: Config, m: Memory, now: nat, source: Outcome, refresh: Outcome)
    requires Settling(m, source, refresh).Granted?
    ensures var expiry := Settling(m, source, refresh).expiry;
            var m' := AfterTick(c, m, now, source, refresh);
            var delay := TickDelay(c, m, now, source, refresh);
            && m'.startedAt.None? && m'.log == (if m.startedAt.Some? then m.log + [Running] else m.log)
            && m'.stopped == (m.stopped || expiry.None?)
            && (delay.None? <==> expiry.None?)
            && (expiry.Some? ==> delay.value >= SECOND && now + delay.value >= expiry.value &&
                                 (delay.value == SECOND || now + delay.value == expiry.value))
            && m'.warnings == m.warnings
  {
  }

  /** A refusal on a tick: the workload is given up with the endpoint's verdict, and the monitor leaves. */
  lemma RefusedTick(c: Config, m: Memory, now: nat, source: Outcome, refresh: Outcome)
    requires Settling(m, source, refresh).Failed? && !IsTransient(Settling(m, source, refresh).err)
    requires !Cancelled(m, source, refresh)
    ensures var e := Settling(m, source, refresh).err;
            var m' := AfterTick(c, m, now, source, refresh);
            && m'.log == m.log + [Unauthenticated(Rejected(IsPermanent(e)))]
            && m'.startedAt.None? && m'.lastErr.None? && m'.stopped
            && TickDelay(c, m, now, source, refresh).None?
  {
  }

  /** The end of the context during the short retry: nothing changes, and the monitor leaves. */
  lemma CancelledTick(c: Config, m: Memory, now: nat, source: Outcome, refresh: Outcome)
    requires Cancelled(m, source, refresh)
    ensures AfterTick(c, m, now, source, refresh) == m && TickDelay(c, m, now, source, refresh).None?
  {
  }

  /**
    A lasting transient failure on a tick. A window older than the ceiling is given up for its age. Any
    other is kept with its start, or opened now with one status, and the newest error is the cached one;
    a stopped source changes nothing. In both cases the monitor comes back after one interval.
  */
  lemma TransientTick(c: Config, m: Memory, now: nat, source: Outcome, refresh: Outcome)
    requires Settling(m, source, refresh).Failed? && IsTransient(Settling(m, source, refresh).err)
    ensures var e := Settling(m, source, refresh).err;
            var m' := AfterTick(c, m, now, source, refresh);
            var delay := TickDelay(c, m, now, source, refresh);
            if m.startedAt.Some? && now - m.startedAt.value > c.ceiling then
              && m'.log == m.log + [Unauthenticated(CeilingReached(m.startedAt.value, now))]
              && m'.startedAt.None? && m'.lastErr.None? && m'.stopped && delay.None?
            else
              && delay == Some(c.tick)
              && (m.stopped ==> m' == m)
              && (!m.stopped ==>
                    && m'.startedAt == OrElse(m.startedAt, Some(now)) && m'.lastErr == Some(e) && !m'.stopped
                    && m'.log == if m.startedAt.Some? then m.log else m.log + [AuthRetrying])
  {
    PermanentNeverTransient(Settling(m, source, refresh).err);
  }

  /** The answer a request-path call ends with: the short retry's if it is tried, otherwise the source's. */
  function SettlingCall(m: Memory, source: Outcome, refresh: Outcome): Outcome
  {
    if source.Failed? && IsTransient(source.err) && !m.stopped then refresh else source
  }

  /**
    A request-path call outside the window: a token, and the end of the context during the short retry,
    change nothing; a refusal gives the workload up; a transient failure opens the window and caches the
    error, unless monitoring has stopped. Inside the window nothing changes.
  */
  lemma CallEffect(c: Config, m: Memory, now: nat, source: Outcome, refresh: Outcome)
    ensures var m' := AfterToken(c, m, now, source, refresh);
            var o := SettlingCall(m, source, refresh);
            if m.startedAt.Some? || o.Granted? then m' == m
            else if IsContext(o.err) && source.Failed? && IsTransient(source.err) then m' == m
            else if !IsTransient(o.err) then
              && m'.log == m.log + [Unauthenticated(Rejected(IsPermanent(o.err)))]
              && m'.startedAt.None? && m'.lastErr.None? && m'.stopped
            else if m.stopped then m' == m
            else m' == m.(startedAt := Some(now), lastErr := Some(o.err), log := m.log + [AuthRetrying])
  {
    if source.Failed? { PermanentNeverTransient(source.err); }
  }

  // ----- When the monitor leaves its loop -----

  /** A tick never reopens the channel. */
  lemma StaysStopped(c: Config, m: Memory, now: nat, source: Outcome, refresh: Outcome)
    requires m.stopped
    ensures AfterTick(c, m, now, source, refresh).stopped
  {
  }

  /** The end of the context, or a closed stop channel, ends the loop whatever else wakes it. */
  lemma {:induction false} LoopHeeds(c: Config, m: Memory, timer: nat, ws: seq<Wakeup>)
    requires ContextOver in ws || (m.stopped && StopClosed in ws)
    ensures AfterLoop(c, m, timer, ws).left
    decreases |ws|
  {
    if ws[0].Timer? && ws[0].now >= timer {
      var m' := AfterTick(c, m, ws[0].now, ws[0].source, ws[0].refresh);
      var delay := TickDelay(c, m, ws[0].now, ws[0].source, ws[0].refresh);
      if m.stopped { StaysStopped(c, m, ws[0].now, ws[0].source, ws[0].refresh); }
      if delay.Some? { LoopHeeds(c, m', ws[0].now + delay.value, ws[1..]); }
    } else if !ws[0].ContextOver? && !(ws[0].StopClosed? && m.stopped) {
      LoopHeeds(c, m, timer, ws[1..]);
    }
  }

  /** This wake-up ends the loop of a monitor that is still in it. */
  predicate Ends(c: Config, r: Monitor, w: Wakeup)
  {
    && !r.left
    && match w
       case ContextOver => true
       case StopClosed => r.mem.stopped
       case Timer(now, source, refresh) => r.timer <= now && TickDelay(c, r.mem, now, source, refresh).None?
  }

  /** The loop can be cut anywhere. */
  lemma {:induction false} LoopResumes(c: Config, m: Memory, timer: nat, ws: seq<Wakeup>, n: nat)
    requires n <= |ws|
    ensures var r := AfterLoop(c, m, timer, ws[..n]);
            AfterLoop(c, m, timer, ws) == if r.left then r else AfterLoop(c, r.mem, r.timer, ws[n..])
    decreases n
  {
    if n == 0 {
      assert ws[0..] == ws && ws[..0] == [];
    } else {
      var front := ws[..n];
      assert front[0] == ws[0] && front[1..] == ws[1..][..n - 1] && ws[1..][n - 1..] == ws[n..];
      match ws[0]
      case ContextOver =>
      case StopClosed =>
        if !m.stopped { LoopResumes(c, m, timer, ws[1..], n - 1); }
      case Timer(now, source, refresh) =>
        if now < timer {
          LoopResumes(c, m, timer, ws[1..], n - 1);
        } else {
          var delay := TickDelay(c, m, now, source, refresh);
          if delay.Some? {
            LoopResumes(c, AfterTick(c, m, now, source, refresh), now + delay.value, ws[1..], n - 1);
          }
        }
    }
  }

  ghost predicate SomeEnds(c: Config, m: Memory, timer: nat, ws: seq<Wakeup>)
  {
    exists n :: 0 <= n < |ws| && Ends(c, AfterLoop(c, m, timer, ws[..n]), ws[n])
  }

  lemma {:induction false} LoopEnds(c: Config, m: Memory, timer: nat, ws: seq<Wakeup>)
    requires AfterLoop(c, m, timer, ws).left
    ensures SomeEnds(c, m, timer, ws)
    decreases |ws|
  {
    if ws != [] {
      var last := |ws| - 1;
      var front := ws[..last];
      LoopResumes(c, m, timer, ws, last);
      if AfterLoop(c, m, timer, front).left {
        LoopEnds(c, m, timer, front);
        var n :| 0 <= n < |front| && Ends(c, AfterLoop(c, m, timer, front[..n]), front[n]);
        assert front[..n] == ws[..n] && front[n] == ws[n];
      } else {
        assert ws[last..] == [ws[last]] && ws[last..][1..] == [];
        assert Ends(c, AfterLoop(c, m, timer, ws[..last]), ws[last]);
      }
    }
  }

  lemma EndsLoop(c: Config, m: Memory, timer: nat, ws: seq<Wakeup>, n: nat)
    requires n < |ws| && Ends(c, AfterLoop(c, m, timer, ws[..n]), ws[n])
    ensures AfterLoop(c, m, timer, ws).left
  {
    LoopResumes(c, m, timer, ws, n);
    assert ws[n..][0] == ws[n];
  }

  /**
    The monitor leaves its loop exactly when, after the wake-ups before it, some wake-up is the end of the
    context, a stop channel that is closed by then, or a tick that is due and asks for no delay.
  */
  lemma LeavesExactly(c: Config, m: Memory, timer: nat, ws: seq<Wakeup>)
    ensures AfterLoop(c, m, timer, ws).left <==> SomeEnds(c, m, timer, ws)
  {
    if AfterLoop(c, m, timer, ws).left {
      LoopEnds(c, m, timer, ws);
    }
    if SomeEnds(c, m, timer, ws) {
      var n :| 0 <= n < |ws| && Ends(c, AfterLoop(c, m, timer, ws[..n]), ws[n]);
      EndsLoop(c, m, timer, ws, n);
    }
  }

  // ----- The end of an outage -----

  /** The timer wakes the monitor and both the source and the short retry fail transiently. */
  predicate Outage(w: Wakeup)
  {
    w.Timer? && w.source.Failed? && IsTransient(w.source.err) && w.refresh.Failed? && IsTransient(w.refresh.err)
  }

  /** Inside a window, an outage ends with the workload given up for its age, and with nothing else written. */
  lemma {:induction false} WindowEnds(c: Config, m: Memory, timer: nat, ws: seq<Wakeup>, start: nat, late: nat)
      returns (seen: nat)
    requires forall i :: 0 <= i < |ws| ==> Outage(ws[i])
    requires m.startedAt == Some(start) && !m.stopped && timer <= start + c.ceiling + c.tick
    requires late < |ws| && Outage(ws[late]) && ws[late].now > start + c.ceiling + c.tick
    ensures var r := AfterLoop(c, m, timer, ws);
            && r.left && r.mem.stopped && r.mem.startedAt.None?
            && r.mem.log == m.log + [Unauthenticated(CeilingReached(start, seen))]
    ensures seen > start + c.ceiling
    decreases |ws|
  {
    var w := ws[0];
    if w.now >= timer && w.now - start > c.ceiling {
      seen := w.now;
    } else if w.now >= timer {
      seen := WindowEnds(c, Entered(m, w.now, w.source.err), w.now + c.tick, ws[1..], start, late - 1);
    } else {
      seen := WindowEnds(c, m, timer, ws[1..], start, late - 1);
    }
  }

  /**
    However the wake-ups fall, an outage that lasts is given up in time: if the first wake-up starts
    the window and a later one comes more than the ceiling and one tick after it, the monitor has left
    its loop, after exactly one AuthRetrying and one Unauthenticated write.
  */
  lemma OutageIsGivenUp(c: Config, m: Memory, timer: nat, ws: seq<Wakeup>, late: nat) returns (seen: nat)
    requires !m.stopped && m.startedAt.None?
    requires forall i :: 0 <= i < |ws| ==> Outage(ws[i])
    requires 0 < late < |ws| && Outage(ws[0]) && Outage(ws[late])
    requires timer <= ws[0].now && ws[late].now > ws[0].now + c.ceiling + c.tick
    ensures var r := AfterLoop(c, m, timer, ws);
            && r.left && r.mem.stopped && r.mem.startedAt.None?
            && r.mem.log == m.log + [AuthRetrying, Unauthenticated(CeilingReached(ws[0].now, seen))]
    ensures seen > ws[0].now + c.ceiling
  {
    var w := ws[0];
    PermanentNeverTransient(w.refresh.err);
    var m' := Entered(m, w.now, w.refresh.err);
    assert AfterTick(c, m, w.now, w.source, w.refresh) == m';
    seen := WindowEnds(c, m', w.now + c.tick, ws[1..], w.now, late - 1);
    assert m.log + [AuthRetrying] + [Unauthenticated(CeilingReached(w.now, seen))]
        == m.log + [AuthRetrying, Unauthenticated(CeilingReached(w.now, seen))];
  }
}
