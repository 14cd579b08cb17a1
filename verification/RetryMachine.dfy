/**
  The monitored token source as a transition system.

  Thread 0 is the background monitor; every other thread makes request-path `Token()` calls, one
  after another. The threads share the AuthRetrying window (guarded by `mu`), the stop channel and
  the two once gates. A step is one critical section, one channel operation, one status write or
  one return from the token source; the gate check of `enterAuthRetrying` and the field write that
  follows it are separate steps, because the channel is closed without holding `mu`.

  What the environment decides (the outcome of the token source and of the short retry, which case
  of the monitor's `select` is taken, how much time passes) is carried by the event.
*/
module RetryMachine {
  import opened Options
  import Runs
  import opened TokenErrors

  type Tid = nat

  const MONITOR: Tid := 0
  const SECOND: nat := 1_000_000_000
  const MILLISECOND: nat := 1_000_000

  /** Fixed at construction; the two durations are always positive. */
  datatype Config = Config(clientId: string, tick: nat, ceiling: nat)
  {
    predicate Valid() {
      tick > 0 && ceiling > 0
    }
  }

  /** Why a workload was given up: a verdict of the token endpoint, or a window that grew too old. */
  datatype Cause = Rejected(permanent: bool) | CeilingReached(since: nat, seen: nat)

  /** What `SetWorkloadStatus` is called with. */
  datatype Status = AuthRetrying | Running | Unauthenticated(cause: Cause)

  /** A token with its expiry (absent when there is none), or an error. */
  datatype Outcome = Granted(expiry: Option<nat>) | Failed(err: Err)

  datatype ExitReason = ContextEnded | SawStop | RefreshCancelled | NoExpiry | GaveUp

  /** Where a thread stands. */
  datatype PC =
    // Token()
    | Idle
    | CallSource
    | CheckStop(err: Err)
    | CallRefresh
    // monitorLoop and onTick
    | Waiting(timer: nat)
    | TickSource
    | TickWindow(err: Err)
    | TickCeiling(err: Err)
    | TickRefresh
    | CloseOnly
    | Exited(why: ExitReason)
    // exitAuthRetrying, called by the monitor only
    | ExitClear(expiry: Option<nat>)
    | ExitStatus(expiry: Option<nat>)
    // enterAuthRetrying
    | EnterGate(err: Err)
    | EnterWrite(err: Err)
    | EnterStatus
    // markAsUnauthenticated
    | MarkClose(cause: Cause)
    | MarkClear(cause: Cause)
    | MarkStatus(cause: Cause)
    | MarkWarn(cause: Cause)

  datatype Choice =
    | Proceed
    | SourceReturns(outcome: Outcome)
    | RefreshReturns(outcome: Outcome)
    | ContextDone
    | StopSeen
    | TimerFires

  datatype Event = Elapse(duration: nat) | Act(thread: Tid, choice: Choice)

  /**
    What happened so far; no step reads it.
    `sightings` holds the start of a window and the time at which a ceiling check found it too old,
    `clears` counts the clear steps of marks, `cleared` the windows those steps closed, `checks` the
    ceiling checks that did not fire in the current window, the latest of them at `lastCheck`.
  */
  datatype History = History(
    entries: nat, sightings: set<(nat, nat)>, exits: nat, clears: nat, cleared: nat,
    closes: nat, warnings: nat, permanentMarks: nat,
    checks: nat, lastCheck: nat)

  /** What the threads share. */
  datatype Shared = Shared(
    now: nat,
    mu: Option<Tid>,
    startedAt: Option<nat>,
    lastErr: Option<Err>,
    stopped: bool,
    warned: bool,
    log: seq<Status>,
    hist: History)
  {
    /** The workload is in the AuthRetrying window. */
    predicate Open() {
      startedAt.Some?
    }
  }

  datatype State = State(sh: Shared, pcs: map<Tid, PC>)
  {
    /** A thread that has not run yet is between calls. */
    function Pc(t: Tid): PC {
      if t in pcs then pcs[t] else Idle
    }
  }

  /** Before any call; the monitor's timer is armed to fire almost at once. */
  function Init(): State
  {
    State(Shared(0, None, None, None, false, false, [], History(0, {}, 0, 0, 0, 0, 0, 0, 0, 0)),
          map[MONITOR := Waiting(MILLISECOND)])
  }

  /** `waitUntilExpiry`: the shortest wait that reaches the expiry and is not below one second. */
  function UntilExpiry(expiry: nat, now: nat): (wait: nat)
    ensures wait >= SECOND && now + wait >= expiry
    ensures wait == SECOND || now + wait == expiry
  {
    if expiry - now < SECOND then SECOND else expiry - now
  }

  /** One step of one thread: what it leaves in the shared part, and where it stands afterwards. */
  datatype Move = Blocked | Move(sh: Shared, pc: PC)

  /** A non-transient failure starts a mark; the flag says whether the endpoint itself rendered a verdict. */
  function Reject(e: Err): PC
  {
    MarkClose(Rejected(IsPermanent(e)))
  }

  // ----- Token() -----

  function TokenMove(g: Shared, pc: PC, ch: Choice): Move
  {
    match pc
    case Idle =>
      if ch.Proceed? && g.mu.None? then Move(g, if g.Open() then Idle else CallSource) else Blocked
    case CallSource =>
      if !ch.SourceReturns? then Blocked
      else if ch.outcome.Granted? then Move(g, Idle)
      else if !IsTransient(ch.outcome.err) then Move(g, Reject(ch.outcome.err))
      else Move(g, CheckStop(ch.outcome.err))
    case CheckStop(_) =>
      if ch.Proceed? then Move(g, if g.stopped then Idle else CallRefresh) else Blocked
    case CallRefresh =>
      if !ch.RefreshReturns? then Blocked
      else if ch.outcome.Granted? || IsContext(ch.outcome.err) then Move(g, Idle)
      else if !IsTransient(ch.outcome.err) then Move(g, Reject(ch.outcome.err))
      else Move(g, EnterGate(ch.outcome.err))
    case _ => Blocked
  }

  // ----- monitorLoop, onTick -----

  function LoopMove(g: Shared, at: nat, ch: Choice): Move
  {
    match ch
    case ContextDone => Move(g, Exited(ContextEnded))
    case StopSeen => if g.stopped then Move(g, Exited(SawStop)) else Blocked
    case TimerFires => if at <= g.now then Move(g, TickSource) else Blocked
    case _ => Blocked
  }

  function TickMove(c: Config, g: Shared, pc: PC, ch: Choice): Move
  {
    match pc
    case Waiting(at) => LoopMove(g, at, ch)
    case TickSource =>
      if !ch.SourceReturns? then Blocked
      else if ch.outcome.Granted? then Move(g, ExitClear(ch.outcome.expiry))
      else if !IsTransient(ch.outcome.err) then Move(g, Reject(ch.outcome.err))
      else Move(g, TickWindow(ch.outcome.err))
    case TickWindow(e) =>
      if ch.Proceed? && g.mu.None? then Move(g, if g.Open() then TickCeiling(e) else TickRefresh) else Blocked
    case TickCeiling(e) =>
      if ch.Proceed? && g.mu.None? then CeilingMove(c, g, e) else Blocked
    case TickRefresh =>
      if !ch.RefreshReturns? then Blocked
      else if ch.outcome.Granted? then Move(g, ExitClear(ch.outcome.expiry))
      else if IsContext(ch.outcome.err) then Move(g, Exited(RefreshCancelled))
      else if !IsTransient(ch.outcome.err) then Move(g, Reject(ch.outcome.err))
      else Move(g, EnterGate(ch.outcome.err))
    case CloseOnly =>
      if ch.Proceed? then Move(Close(g), Exited(NoExpiry)) else Blocked
    case _ => Blocked
  }

  /** `ceilingExceeded` followed by the branch on its answer */
  function CeilingMove(c: Config, g: Shared, e: Err): Move
  {
    if g.startedAt.None? then Move(g, EnterGate(e))
    else if g.now - g.startedAt.value > c.ceiling then
      Move(g.(hist := g.hist.(sightings := g.hist.sightings + {(g.startedAt.value, g.now)})),
           MarkClose(CeilingReached(g.startedAt.value, g.now)))
    else
      Move(g.(hist := g.hist.(checks := g.hist.checks + 1, lastCheck := g.now)), EnterGate(e))
  }

  // ----- exitAuthRetrying -----

  function ExitMove(g: Shared, pc: PC, ch: Choice): Move
  {
    if !ch.Proceed? then Blocked
    else match pc
      case ExitClear(expiry) =>
        if g.mu.Some? then Blocked
        else if g.Open() then
          Move(g.(startedAt := None, lastErr := None, hist := g.hist.(exits := g.hist.exits + 1)),
               ExitStatus(expiry))
        else Move(g, Reschedule(g, expiry))
      case ExitStatus(expiry) => Move(g.(log := g.log + [Running]), Reschedule(g, expiry))
      case _ => Blocked
  }

  /** After a granted token: wait for its expiry, or stop monitoring when it has none. */
  function Reschedule(g: Shared, expiry: Option<nat>): PC
  {
    if expiry.None? then CloseOnly else Waiting(g.now + UntilExpiry(expiry.value, g.now))
  }

  // ----- enterAuthRetrying -----

  function EnterMove(c: Config, g: Shared, t: Tid, pc: PC, ch: Choice): Move
  {
    if !ch.Proceed? then Blocked
    else match pc
      case EnterGate(e) =>
        if g.mu.Some? then Blocked
        else if g.stopped then Move(g, EnterReturn(c, g, t))
        else Move(g.(mu := Some(t)), EnterWrite(e))
      case EnterWrite(e) =>
        if g.Open() then Move(g.(lastErr := Some(e), mu := None), EnterReturn(c, g, t))
        else Move(g.(startedAt := Some(g.now), lastErr := Some(e), mu := None,
                     hist := g.hist.(entries := g.hist.entries + 1, checks := 0)), EnterStatus)
      case EnterStatus => Move(g.(log := g.log + [AuthRetrying]), EnterReturn(c, g, t))
      case _ => Blocked
  }

  function EnterReturn(c: Config, g: Shared, t: Tid): PC
  {
    if t == MONITOR then Waiting(g.now + c.tick) else Idle
  }

  // ----- markAsUnauthenticated, stopMonitoringOnce -----

  /** The close inside the once gate. */
  function Close(g: Shared): Shared
  {
    if g.stopped then g else g.(stopped := true, hist := g.hist.(closes := g.hist.closes + 1))
  }

  function MarkMove(c: Config, g: Shared, t: Tid, pc: PC, ch: Choice): Move
  {
    if !ch.Proceed? then Blocked
    else match pc
      case MarkClose(k) => Move(Close(g), MarkClear(k))
      case MarkClear(k) => if g.mu.Some? then Blocked else Move(ClearWindow(g), MarkStatus(k))
      case MarkStatus(k) => Move(g.(log := g.log + [Unauthenticated(k)]), MarkWarn(k))
      case MarkWarn(k) => Move(Warn(c, g, k), if t == MONITOR then Exited(GaveUp) else Idle)
      case _ => Blocked
  }

  function ClearWindow(g: Shared): Shared
  {
    g.(startedAt := None, lastErr := None,
       hist := g.hist.(clears := g.hist.clears + 1, cleared := g.hist.cleared + if g.Open() then 1 else 0))
  }

  predicate IsPermanentCause(k: Cause)
  {
    k.Rejected? && k.permanent
  }

  /** The remediation warning behind its own once gate. */
  function Warn(c: Config, g: Shared, k: Cause): Shared
  {
    if !IsPermanentCause(k) then g
    else
      var fires := c.clientId != "" && !g.warned;
      g.(warned := g.warned || fires,
         hist := g.hist.(permanentMarks := g.hist.permanentMarks + 1,
                         warnings := g.hist.warnings + if fires then 1 else 0))
  }

  // ----- Runs -----

  predicate InMark(pc: PC)
  {
    pc.MarkClose? || pc.MarkClear? || pc.MarkStatus? || pc.MarkWarn?
  }

  predicate InEnter(pc: PC)
  {
    pc.EnterGate? || pc.EnterWrite? || pc.EnterStatus?
  }

  predicate InExit(pc: PC)
  {
    pc.ExitClear? || pc.ExitStatus?
  }

  function ThreadMove(c: Config, g: Shared, t: Tid, pc: PC, ch: Choice): Move
  {
    if InMark(pc) then MarkMove(c, g, t, pc, ch)
    else if InEnter(pc) then EnterMove(c, g, t, pc, ch)
    else if t != MONITOR then TokenMove(g, pc, ch)
    else if InExit(pc) then ExitMove(g, pc, ch)
    else TickMove(c, g, pc, ch)
  }

  function Step(c: Config, s: State, e: Event): Option<State>
  {
    match e
    case Elapse(d) => Some(s.(sh := s.sh.(now := s.sh.now + d)))
    case Act(t, ch) =>
      match ThreadMove(c, s.sh, t, s.Pc(t), ch)
      case Blocked => None
      case Move(sh, pc) => Some(State(sh, s.pcs[t := pc]))
  }

  function Steps(c: Config): (State, Event) -> Option<State>
  {
    (s: State, e: Event) => Step(c, s, e)
  }

  /** The state after a sequence of events, if each of them could happen. */
  function Run(c: Config, s: State, es: seq<Event>): Option<State>
  {
    Runs.Run(Steps(c), s, es)
  }

  /** Some run goes from one state to the other. */
  ghost predicate Leads(c: Config, s: State, s': State)
  {
    Runs.Leads(Steps(c), s, s')
  }

  ghost predicate Reachable(c: Config, s: State)
  {
    Leads(c, Init(), s)
  }

  lemma SomeRun(c: Config, s: State, s': State) returns (es: seq<Event>)
    requires Leads(c, s, s')
    ensures Run(c, s, es) == Some(s')
  {
    es :| Runs.Run(Steps(c), s, es) == Some(s');
  }

  lemma LeadsNowhere(c: Config, s: State)
    ensures Leads(c, s, s)
  {
    Runs.LeadsNowhere(Steps(c), s);
  }

  /** A run and one more event. */
  lemma Then(c: Config, s0: State, s: State, e: Event) returns (s': State)
    requires Leads(c, s0, s) && Step(c, s, e).Some?
    ensures s' == Step(c, s, e).value && Leads(c, s0, s')
  {
    s' := Step(c, s, e).value;
    Runs.Then(Steps(c), s0, s, e);
  }

  lemma ThenElapse(c: Config, s0: State, s: State, d: nat) returns (s': State)
    requires Leads(c, s0, s)
    ensures Leads(c, s0, s') && s' == State(s.sh.(now := s.sh.now + d), s.pcs)
  {
    s' := Then(c, s0, s, Elapse(d));
  }

  /** The state after a move of one thread. */
  function Moved(s: State, t: Tid, m: Move): State
    requires m.Move?
  {
    State(m.sh, s.pcs[t := m.pc])
  }

  lemma ThenToken(c: Config, s0: State, s: State, t: Tid, ch: Choice) returns (s': State)
    requires Leads(c, s0, s) && t != MONITOR && !InMark(s.Pc(t)) && !InEnter(s.Pc(t))
    requires TokenMove(s.sh, s.Pc(t), ch).Move?
    ensures Leads(c, s0, s') && s' == Moved(s, t, TokenMove(s.sh, s.Pc(t), ch))
  {
    s' := Then(c, s0, s, Act(t, ch));
  }

  lemma ThenTick(c: Config, s0: State, s: State, ch: Choice) returns (s': State)
    requires Leads(c, s0, s) && !InMark(s.Pc(MONITOR)) && !InEnter(s.Pc(MONITOR)) && !InExit(s.Pc(MONITOR))
    requires TickMove(c, s.sh, s.Pc(MONITOR), ch).Move?
    ensures Leads(c, s0, s') && s' == Moved(s, MONITOR, TickMove(c, s.sh, s.Pc(MONITOR), ch))
  {
    s' := Then(c, s0, s, Act(MONITOR, ch));
  }

  lemma ThenExit(c: Config, s0: State, s: State) returns (s': State)
    requires Leads(c, s0, s) && InExit(s.Pc(MONITOR)) && ExitMove(s.sh, s.Pc(MONITOR), Proceed).Move?
    ensures Leads(c, s0, s') && s' == Moved(s, MONITOR, ExitMove(s.sh, s.Pc(MONITOR), Proceed))
  {
    s' := Then(c, s0, s, Act(MONITOR, Proceed));
  }

  lemma ThenEnter(c: Config, s0: State, s: State, t: Tid) returns (s': State)
    requires Leads(c, s0, s) && InEnter(s.Pc(t)) && EnterMove(c, s.sh, t, s.Pc(t), Proceed).Move?
    ensures Leads(c, s0, s') && s' == Moved(s, t, EnterMove(c, s.sh, t, s.Pc(t), Proceed))
  {
    s' := Then(c, s0, s, Act(t, Proceed));
  }

  lemma ThenMark(c: Config, s0: State, s: State, t: Tid) returns (s': State)
    requires Leads(c, s0, s) && InMark(s.Pc(t)) && MarkMove(c, s.sh, t, s.Pc(t), Proceed).Move?
    ensures Leads(c, s0, s') && s' == Moved(s, t, MarkMove(c, s.sh, t, s.Pc(t), Proceed))
  {
    s' := Then(c, s0, s, Act(t, Proceed));
  }
}
