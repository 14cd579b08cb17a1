/**
  The monitored token source as an object whose methods are called one at a time, and the laws of
  every such sequence of calls. What the environment answers (the token source, the short retry, the
  clock, the case of the monitor's `select`) is passed in.
*/
module MonitoredSource {
  import opened Options
  import opened TokenErrors
  import opened RetryMachine

  /** The fields of the object as one value; `log` holds the status writes, `warnings` the remediation hints. */
  datatype Memory = Memory(
    startedAt: Option<nat>,
    lastErr: Option<Err>,
    stopped: bool,
    warned: bool,
    warnings: nat,
    log: seq<Status>)

  const FRESH := Memory(None, None, false, false, 0, [])

  function Entered(m: Memory, now: nat, e: Err): Memory
  {
    if m.stopped then m
    else if m.startedAt.Some? then m.(lastErr := Some(e))
    else m.(startedAt := Some(now), lastErr := Some(e), log := m.log + [AuthRetrying])
  }

  function Recovered(m: Memory): Memory
  {
    if m.startedAt.None? then m
    else m.(startedAt := None, lastErr := None, log := m.log + [Running])
  }

  function Marked(c: Config, m: Memory, k: Cause): Memory
  {
    var fires := IsPermanentCause(k) && c.clientId != "" && !m.warned;
    m.(startedAt := None, lastErr := None, stopped := true,
       warned := m.warned || fires, warnings := m.warnings + if fires then 1 else 0,
       log := m.log + [Unauthenticated(k)])
  }

  /** A transient failure has outlasted the short retry, was cancelled, or was overtaken by a verdict. */
  function AfterRefreshFailure(c: Config, m: Memory, now: nat, e: Err): Memory
  {
    if IsContext(e) then m
    else if !IsTransient(e) then Marked(c, m, Rejected(IsPermanent(e)))
    else Entered(m, now, e)
  }

  function AfterToken(c: Config, m: Memory, now: nat, source: Outcome, refresh: Outcome): Memory
  {
    if m.startedAt.Some? || source.Granted? then m
    else if !IsTransient(source.err) then Marked(c, m, Rejected(IsPermanent(source.err)))
    else if m.stopped || refresh.Granted? then m
    else AfterRefreshFailure(c, m, now, refresh.err)
  }

  function AfterGrant(m: Memory, expiry: Option<nat>): Memory
  {
    var r := Recovered(m);
    if expiry.None? then r.(stopped := true) else r
  }

  predicate TooOld(c: Config, m: Memory, now: nat)
  {
    m.startedAt.Some? && now - m.startedAt.value > c.ceiling
  }

  function AfterTick(c: Config, m: Memory, now: nat, source: Outcome, refresh: Outcome): Memory
  {
    if source.Granted? then AfterGrant(m, source.expiry)
    else if !IsTransient(source.err) then Marked(c, m, Rejected(IsPermanent(source.err)))
    else if TooOld(c, m, now) then Marked(c, m, CeilingReached(m.startedAt.value, now))
    else if m.startedAt.Some? then Entered(m, now, source.err)
    else if refresh.Granted? then AfterGrant(m, refresh.expiry)
    else AfterRefreshFailure(c, m, now, refresh.err)
  }

  /** The delay `onTick` asks for, absent when monitoring stops. */
  function TickDelay(c: Config, m: Memory, now: nat, source: Outcome, refresh: Outcome): Option<nat>
  {
    if source.Granted? then GrantDelay(source.expiry, now)
    else if !IsTransient(source.err) || TooOld(c, m, now) then None
    else if m.startedAt.Some? then Some(c.tick)
    else if refresh.Granted? then GrantDelay(refresh.expiry, now)
    else if IsContext(refresh.err) || !IsTransient(refresh.err) then None
    else Some(c.tick)
  }

  function GrantDelay(expiry: Option<nat>, now: nat): Option<nat>
  {
    if expiry.None? then None else Some(UntilExpiry(expiry.value, now))
  }

  /** What a caller of `Token()` gets: nothing for a token, otherwise the error. */
  function TokenError(m: Memory, stamp: string, source: Outcome, refresh: Outcome): Option<Err>
  {
    if m.startedAt.Some? then Some(FastFail(stamp, m.lastErr))
    else if source.Granted? then None
    else if !IsTransient(source.err) || m.stopped then Some(source.err)
    else if refresh.Granted? then None
    else Some(refresh.err)
  }

  /** One status more: AuthRetrying for a transient error, Unauthenticated with the endpoint's verdict for another. */
  predicate StatusFor(before: seq<Status>, after: seq<Status>, e: Err)
  {
    after == before + [if IsTransient(e) then AuthRetrying else Unauthenticated(Rejected(IsPermanent(e)))]
  }

  /** What wakes the monitor's `select`. */
  datatype Wakeup = ContextOver | StopClosed | Timer(now: nat, source: Outcome, refresh: Outcome)

  /** The monitor between wake-ups: the memory, the time its timer is armed for, and whether it has left its loop. */
  datatype Monitor = Monitor(mem: Memory, timer: nat, left: bool)

  /** The monitor after the wake-ups in turn; one whose channel or timer is not ready yet cannot be taken. */
  function AfterLoop(c: Config, m: Memory, timer: nat, ws: seq<Wakeup>): Monitor
    decreases |ws|
  {
    if ws == [] then Monitor(m, timer, false)
    else match ws[0]
      case ContextOver => Monitor(m, timer, true)
      case StopClosed => if m.stopped then Monitor(m, timer, true) else AfterLoop(c, m, timer, ws[1..])
      case Timer(now, source, refresh) =>
        if now < timer then AfterLoop(c, m, timer, ws[1..])
        else
          var m' := AfterTick(c, m, now, source, refresh);
          var delay := TickDelay(c, m, now, source, refresh);
          if delay.None? then Monitor(m', timer, true) else AfterLoop(c, m', now + delay.value, ws[1..])
  }

  class MonitoredTokenSource {
    const config: Config
    var transientStartedAt: Option<nat>
    var lastTransientErr: Option<Err>
    var stopMonitoring: bool
    var dcrWarned: bool
    var warnings: nat
    var statusLog: seq<Status>
    var timer: nat
    var stopped: bool

    ghost function View(): Memory
      reads this
    {
      Memory(transientStartedAt, lastTransientErr, stopMonitoring, dcrWarned, warnings, statusLog)
    }

    constructor (config: Config)
      ensures this.config == config && View() == FRESH && timer == MILLISECOND && !stopped
    {
      this.config := config;
      transientStartedAt, lastTransientErr := None, None;
      stopMonitoring, dcrWarned, stopped := false, false, false;
      warnings, statusLog, timer := 0, [], MILLISECOND;
    }

    method StopMonitoringOnce()
      modifies this`stopMonitoring
      ensures View() == old(View()).(stopped := true)
    {
      if !stopMonitoring {
        stopMonitoring := true;
      }
    }

    method MarkAsUnauthenticated(k: Cause)
      modifies this`stopMonitoring, this`transientStartedAt, this`lastTransientErr, this`statusLog
      modifies this`dcrWarned, this`warnings
      ensures View() == Marked(config, old(View()), k)
    {
      StopMonitoringOnce();
      transientStartedAt, lastTransientErr := None, None;
      statusLog := statusLog + [Unauthenticated(k)];
      if IsPermanentCause(k) && config.clientId != "" {
        if !dcrWarned {
          dcrWarned, warnings := true, warnings + 1;
        }
      }
    }

    method EnterAuthRetrying(e: Err, now: nat)
      modifies this`transientStartedAt, this`lastTransientErr, this`statusLog
      ensures View() == Entered(old(View()), now, e)
    {
      if stopMonitoring {
        return;
      }
      var firstEntry := transientStartedAt.None?;
      if firstEntry {
        transientStartedAt := Some(now);
      }
      lastTransientErr := Some(e);
      if firstEntry {
        statusLog := statusLog + [AuthRetrying];
      }
    }

    method ExitAuthRetrying()
      modifies this`transientStartedAt, this`lastTransientErr, this`statusLog
      ensures View() == Recovered(old(View()))
    {
      var wasInAuthRetrying := transientStartedAt.Some?;
      if wasInAuthRetrying {
        transientStartedAt, lastTransientErr := None, None;
      }
      if !wasInAuthRetrying {
        return;
      }
      statusLog := statusLog + [Running];
    }

    method FastFailIfAuthRetrying(stamp: string) returns (err: Option<Err>)
      ensures err == if View().startedAt.Some? then Some(FastFail(stamp, View().lastErr)) else None
    {
      if transientStartedAt.None? {
        return None;
      }
      err := Some(FastFail(stamp, lastTransientErr));
    }

    method CeilingExceeded(now: nat) returns (exceeded: bool)
      ensures exceeded <==> TooOld(config, View(), now)
    {
      if transientStartedAt.None? {
        return false;
      }
      exceeded := now - transientStartedAt.value > config.ceiling;
    }

    method Token(now: nat, stamp: string, source: Outcome, refresh: Outcome) returns (err: Option<Err>)
      modifies this`stopMonitoring, this`transientStartedAt, this`lastTransientErr, this`statusLog
      modifies this`dcrWarned, this`warnings
      ensures View() == AfterToken(config, old(View()), now, source, refresh)
      ensures err == TokenError(old(View()), stamp, source, refresh)
      // No error is returned exactly when a token is.
      ensures err.None? <==>
                && old(transientStartedAt).None?
                && (source.Granted? || (IsTransient(source.err) && !old(stopMonitoring) && refresh.Granted?))
      // Inside the window the error wraps the cached one; outside it is the one the call ended with.
      ensures old(transientStartedAt).Some? && old(lastTransientErr).Some? ==>
                err.Some? && err.value.Wrapped? && err.value.inner == old(lastTransientErr).value
      ensures old(transientStartedAt).None? && err.Some? ==>
                source.Failed? && err.value == if IsTransient(source.err) && !old(stopMonitoring) && refresh.Failed?
                                               then refresh.err else source.err
      // A status that was written was written for the error that is returned.
      ensures statusLog == old(statusLog) || (err.Some? && StatusFor(old(statusLog), statusLog, err.value))
      ensures statusLog != old(statusLog) && statusLog[|statusLog| - 1] == AuthRetrying ==> lastTransientErr == err
    {
      err := FastFailIfAuthRetrying(stamp);
      if err.Some? {
        return;
      }
      if source.Granted? {
        return None;
      }
      if !IsTransient(source.err) {
        MarkAsUnauthenticated(Rejected(IsPermanent(source.err)));
        return Some(source.err);
      }
      if stopMonitoring {
        return Some(source.err);
      }
      if refresh.Granted? {
        return None;
      }
      err := Some(refresh.err);
      if IsContext(refresh.err) {
        return;
      }
      if !IsTransient(refresh.err) {
        MarkAsUnauthenticated(Rejected(IsPermanent(refresh.err)));
        return;
      }
      EnterAuthRetrying(refresh.err, now);
    }

    /** After a granted token: recover, and stop monitoring when there is no expiry to wait for. */
    method Grant(expiry: Option<nat>, now: nat) returns (next: Option<nat>)
      modifies this`stopMonitoring, this`transientStartedAt, this`lastTransientErr, this`statusLog
      ensures View() == AfterGrant(old(View()), expiry) && next == GrantDelay(expiry, now)
    {
      ExitAuthRetrying();
      if expiry.None? {
        StopMonitoringOnce();
        return None;
      }
      next := Some(UntilExpiry(expiry.value, now));
    }

    method OnTick(now: nat, source: Outcome, refresh: Outcome) returns (next: Option<nat>)
      modifies this`stopMonitoring, this`transientStartedAt, this`lastTransientErr, this`statusLog
      modifies this`dcrWarned, this`warnings
      ensures View() == AfterTick(config, old(View()), now, source, refresh)
      ensures next == TickDelay(config, old(View()), now, source, refresh)
    {
      if source.Granted? {
        next := Grant(source.expiry, now);
        return;
      }
      if !IsTransient(source.err) {
        MarkAsUnauthenticated(Rejected(IsPermanent(source.err)));
        return None;
      }
      if transientStartedAt.Some? {
        var exceeded := CeilingExceeded(now);
        if exceeded {
          MarkAsUnauthenticated(CeilingReached(transientStartedAt.value, now));
          return None;
        }
        EnterAuthRetrying(source.err, now);
        return Some(config.tick);
      }
      if refresh.Granted? {
        next := Grant(refresh.expiry, now);
        return;
      }
      if IsContext(refresh.err) {
        return None;
      }
      if !IsTransient(refresh.err) {
        MarkAsUnauthenticated(Rejected(IsPermanent(refresh.err)));
        return None;
      }
      EnterAuthRetrying(refresh.err, now);
      next := Some(config.tick);
    }

    /** `monitorLoop` over the wake-ups the environment delivers; `stopped` is closed on the way out. */
    method MonitorLoop(ws: seq<Wakeup>)
      requires !stopped
      modifies this
      ensures Monitor(View(), timer, stopped) == AfterLoop(config, old(View()), old(timer), ws)
    {
      var i := 0;
      while i < |ws|
        invariant 0 <= i <= |ws| && !stopped
        invariant AfterLoop(config, View(), timer, ws[i..]) == AfterLoop(config, old(View()), old(timer), ws)
      {
        assert ws[i..][1..] == ws[i + 1..];
        match ws[i] {
          case ContextOver =>
            stopped := true;
            return;
          case StopClosed =>
            if stopMonitoring {
              stopped := true;
              return;
            }
          case Timer(now, source, refresh) =>
            if timer <= now {
              var next := OnTick(now, source, refresh);
              if next.None? {
                stopped := true;
                return;
              }
              timer := now + next.value;
            }
        }
        i := i + 1;
      }
    }
  }
}
