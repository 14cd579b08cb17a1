/**
  The token validator's lazy discovery and key lookup as a transition system.

  Any number of threads make `ValidateToken` calls. They share the JWKS URL, the two "done" flags, the
  key cache and two mutexes. The URL is written under the discovery mutex but read on the key path
  without a lock; a read or a write of it is one step. Answers of the network, the local key provider
  and the cache come with the event.
*/
module JwksMachine {
  import opened Options
  import Runs

  type Tid = nat

  /** Fixed at construction: the issuer and whether a local key provider is configured. */
  datatype Config = Config(issuer: string, hasProvider: bool)

  datatype PC =
    | Idle
    // ensureOIDCDiscovered
    | DiscLock
    | DiscCheck
    | Discovering
    | WriteUrl(uri: string)
    | WriteDone
    | ResetLock
    | Reset
    | DiscRelease
    // ValidateToken, after a failed discovery with a local key provider
    | FlagLock
    | FlagSet
    // jwt.Parse and getKeyFromJWKS
    | Parse
    | LocalKey
    | UrlCheck
    // ensureJWKSRegistered
    | RegLock
    | RegCheck
    | Registering
    | RegDone
    // back in getKeyFromJWKS
    | Header
    | Lookup

  datatype Choice =
    | Proceed
    | Discovered(doc: Option<string>)   // the document's jwks_uri, or a failure
    | KeyNeeded(needed: bool)           // a malformed token never asks for a key
    | LocalAnswer(settled: bool)        // the provider found the key or refused the header
    | Registered(ok: bool)              // nil, not ready yet, or already there; otherwise an error
    | HeaderValid(valid: bool)

  datatype Shared = Shared(
    url: string,
    discovered: bool,
    registered: bool,
    discMu: Option<Tid>,
    regMu: Option<Tid>,
    cache: set<string>,
    urlWrites: nat)

  datatype State = State(sh: Shared, pcs: map<Tid, PC>)
  {
    function Pc(t: Tid): PC {
      if t in pcs then pcs[t] else Idle
    }
  }

  /** `resolveJWKSDiscovery` and the construction of the validator; no result when the configuration is refused. */
  function NewValidator(c: Config, url: string, skipDiscovery: bool): Option<State>
  {
    if skipDiscovery && c.issuer != "" && url == "" then None
    else if url == "" && c.issuer == "" && !c.hasProvider then None
    else Some(State(Shared(url, false, false, None, None, {}, 0), map[]))
  }

  datatype Move = Blocked | Move(sh: Shared, pc: PC)

  function DiscoveryMove(c: Config, g: Shared, t: Tid, pc: PC, ch: Choice): Move
  {
    match pc
    case Idle =>
      if ch.Proceed? then Move(g, if c.issuer == "" then Parse else DiscLock) else Blocked
    case DiscLock =>
      if ch.Proceed? && g.discMu.None? then Move(g.(discMu := Some(t)), DiscCheck) else Blocked
    case DiscCheck =>
      if !ch.Proceed? then Blocked
      else if g.discovered || g.url != "" then Move(g.(discMu := None), Parse)
      else Move(g, Discovering)
    case Discovering =>
      if !ch.Discovered? then Blocked
      else if ch.doc.None? || ch.doc.value == "" then
        Move(g.(discMu := None), if c.hasProvider then FlagLock else Idle)
      else Move(g, WriteUrl(ch.doc.value))
    case WriteUrl(uri) =>
      if ch.Proceed? then Move(g.(url := uri, urlWrites := g.urlWrites + 1), WriteDone) else Blocked
    case WriteDone =>
      if ch.Proceed? then Move(g.(discovered := true), ResetLock) else Blocked
    case ResetLock =>
      if ch.Proceed? && g.regMu.None? then Move(g.(regMu := Some(t)), Reset) else Blocked
    case Reset =>
      if ch.Proceed? then Move(g.(registered := false, regMu := None), DiscRelease) else Blocked
    case DiscRelease =>
      if ch.Proceed? then Move(g.(discMu := None), Parse) else Blocked
    case FlagLock =>
      if ch.Proceed? && g.discMu.None? then Move(g.(discMu := Some(t)), FlagSet) else Blocked
    case FlagSet =>
      if ch.Proceed? then Move(g.(discovered := true, discMu := None), Parse) else Blocked
    case _ => Blocked
  }

  function KeyMove(c: Config, g: Shared, t: Tid, pc: PC, ch: Choice): Move
  {
    match pc
    case Parse =>
      if ch.KeyNeeded? then Move(g, if ch.needed then LocalKey else Idle) else Blocked
    case LocalKey =>
      if !ch.LocalAnswer? then Blocked
      else Move(g, if c.hasProvider && ch.settled then Idle else UrlCheck)
    case UrlCheck =>
      if ch.Proceed? then Move(g, if g.url == "" then Idle else RegLock) else Blocked
    case RegLock =>
      if ch.Proceed? && g.regMu.None? then Move(g.(regMu := Some(t)), RegCheck) else Blocked
    case RegCheck =>
      if !ch.Proceed? then Blocked
      else if g.registered then Move(g.(regMu := None), Header)
      else Move(g, Registering)
    case Registering =>
      if !ch.Registered? then Blocked
      else if !ch.ok then Move(g.(regMu := None), Idle)
      else Move(g.(cache := g.cache + {g.url}), RegDone)
    case RegDone =>
      if ch.Proceed? then Move(g.(registered := true, regMu := None), Header) else Blocked
    case Header =>
      if ch.HeaderValid? then Move(g, if ch.valid then Lookup else Idle) else Blocked
    case Lookup =>
      if ch.Proceed? then Move(g, Idle) else Blocked
    case _ => Blocked
  }

  predicate OnKeyPath(pc: PC)
  {
    pc.Parse? || pc.LocalKey? || pc.UrlCheck? || pc.RegLock? || pc.RegCheck? || pc.Registering? ||
    pc.RegDone? || pc.Header? || pc.Lookup?
  }

  function ThreadMove(c: Config, g: Shared, t: Tid, pc: PC, ch: Choice): Move
  {
    if OnKeyPath(pc) then KeyMove(c, g, t, pc, ch) else DiscoveryMove(c, g, t, pc, ch)
  }

  datatype Event = Act(thread: Tid, choice: Choice)

  function Step(c: Config, s: State, e: Event): Option<State>
  {
    match ThreadMove(c, s.sh, e.thread, s.Pc(e.thread), e.choice)
    case Blocked => None
    case Move(sh, pc) => Some(State(sh, s.pcs[e.thread := pc]))
  }

  function Steps(c: Config): (State, Event) -> Option<State>
  {
    (s: State, e: Event) => Step(c, s, e)
  }

  /** The state after a sequence of events, if each of them could happen. */
  function Run(c: Config, s: State, es: seq<Event>): Option<State>
  {
    Runs.Run(Steps(c), s, es)
  }

  ghost predicate Leads(c: Config, s: State, s': State)
  {
    Runs.Leads(Steps(c), s, s')
  }

  /** Some run of a validator the constructor accepted ends here. */
  ghost predicate Reachable(c: Config, s: State)
  {
    exists url, skip :: NewValidator(c, url, skip).Some? && Leads(c, NewValidator(c, url, skip).value, s)
  }

  lemma SomeRun(c: Config, s: State, s': State) returns (es: seq<Event>)
    requires Leads(c, s, s')
    ensures Run(c, s, es) == Some(s')
  {
    es :| Runs.Run(Steps(c), s, es) == Some(s');
  }

  lemma LeadsNowhere(c: Config, s: State)
    ensures Leads(c, s, s)
  {
    Runs.LeadsNowhere(Steps(c), s);
  }

  /** A run and one more event. */
  lemma Then(c: Config, s0: State, s: State, e: Event) returns (s': State)
    requires Leads(c, s0, s) && Step(c, s, e).Some?
    ensures s' == Step(c, s, e).value && Leads(c, s0, s')
  {
    s' := Step(c, s, e).value;
    Runs.Then(Steps(c), s0, s, e);
  }

  function Moved(s: State, t: Tid, m: Move): State
    requires m.Move?
  {
    State(m.sh, s.pcs[t := m.pc])
  }

  lemma ThenDiscovery(c: Config, s0: State, s: State, t: Tid, ch: Choice) returns (s': State)
    requires Leads(c, s0, s) && !OnKeyPath(s.Pc(t)) && DiscoveryMove(c, s.sh, t, s.Pc(t), ch).Move?
    ensures Leads(c, s0, s') && s' == Moved(s, t, DiscoveryMove(c, s.sh, t, s.Pc(t), ch))
  {
    s' := Then(c, s0, s, Act(t, ch));
  }

  lemma ThenKey(c: Config, s0: State, s: State, t: Tid, ch: Choice) returns (s': State)
    requires Leads(c, s0, s) && OnKeyPath(s.Pc(t)) && KeyMove(c, s.sh, t, s.Pc(t), ch).Move?
    ensures Leads(c, s0, s') && s' == Moved(s, t, KeyMove(c, s.sh, t, s.Pc(t), ch))
  {
    s' := Then(c, s0, s, Act(t, ch));
  }
}
