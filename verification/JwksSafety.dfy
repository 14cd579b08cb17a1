/**
  What every interleaving of validator calls keeps: the URL is filled at most once, a lookup only ever
  uses a registered URL, the two locks cannot deadlock, and a failed discovery stays retryable exactly
  when there is no local key provider.
*/
module JwksSafety {
  import opened Options
  import opened JwksMachine

  predicate HoldsDisc(pc: PC)
  {
    pc.DiscCheck? || pc.Discovering? || pc.WriteUrl? || pc.WriteDone? || pc.ResetLock? || pc.Reset? ||
    pc.DiscRelease? || pc.FlagSet?
  }

  predicate HoldsReg(pc: PC)
  {
    pc.Reset? || pc.RegCheck? || pc.Registering? || pc.RegDone?
  }

  /** The thread has seen the URL filled in. */
  predicate SawUrl(pc: PC)
  {
    pc.WriteDone? || pc.ResetLock? || pc.Reset? || pc.DiscRelease? ||
    pc.RegLock? || pc.RegCheck? || pc.Registering? || pc.RegDone? || pc.Header? || pc.Lookup?
  }

  predicate SawRegistration(pc: PC)
  {
    pc.RegDone? || pc.Header? || pc.Lookup?
  }

  predicate PointSafe(c: Config, g: Shared, t: Tid, pc: PC)
  {
    && (HoldsDisc(pc) <==> g.discMu == Some(t))
    && (HoldsReg(pc) <==> g.regMu == Some(t))
    && (SawUrl(pc) ==> g.url != "")
    && (SawRegistration(pc) ==> g.url in g.cache)
    && (pc.Discovering? || pc.WriteUrl? ==> g.url == "" && !g.discovered)
    && (pc.WriteUrl? ==> pc.uri != "")
    && (pc.FlagLock? || pc.FlagSet? ==> c.hasProvider)
    && (OnKeyPath(pc) && !c.hasProvider ==> g.url != "")
  }

  predicate SharedSafe(c: Config, g: Shared)
  {
    && (g.registered ==> g.url in g.cache)
    && "" !in g.cache
    && g.urlWrites <= 1
    && (g.urlWrites == 1 ==> g.url != "")
    && (!c.hasProvider && (g.discovered || c.issuer == "") ==> g.url != "")
  }

  predicate Safe(c: Config, s: State)
  {
    && SharedSafe(c, s.sh)
    && (forall t :: t in s.pcs ==> PointSafe(c, s.sh, t, s.pcs[t]))
    && (s.sh.discMu.Some? ==> s.sh.discMu.value in s.pcs)
    && (s.sh.regMu.Some? ==> s.sh.regMu.value in s.pcs)
  }

  /** A lock is only taken when free and only given back by its holder. */
  predicate LockStep(t: Tid, before: Option<Tid>, after: Option<Tid>)
  {
    before == after || (before.None? && after == Some(t)) || (before == Some(t) && after.None?)
  }

  /** What one thread may do to the others. */
  predicate Guarantee(t: Tid, g: Shared, h: Shared)
  {
    && LockStep(t, g.discMu, h.discMu)
    && LockStep(t, g.regMu, h.regMu)
    && g.cache <= h.cache
    && (h.url != g.url || h.discovered != g.discovered ==> g.discMu == Some(t))
    && (g.url != "" ==> h.urlWrites == g.urlWrites)
    && (h.urlWrites == g.urlWrites ==> h.url == g.url)
    && g.urlWrites <= h.urlWrites
  }

  predicate GoodMove(c: Config, g: Shared, t: Tid, m: Move)
  {
    m.Move? ==> SharedSafe(c, m.sh) && PointSafe(c, m.sh, t, m.pc) && Guarantee(t, g, m.sh)
  }

  /** Between the answer of a discovery and the release of its lock. */
  predicate Recording(pc: PC)
  {
    pc.WriteUrl? || pc.WriteDone? || pc.ResetLock? || pc.Reset? || pc.DiscRelease?
  }

  lemma RecordingGood(c: Config, g: Shared, t: Tid, pc: PC, ch: Choice)
    requires SharedSafe(c, g) && PointSafe(c, g, t, pc) && Recording(pc)
    ensures GoodMove(c, g, t, DiscoveryMove(c, g, t, pc, ch))
  {
  }

  lemma DiscoveryMoveGood(c: Config, g: Shared, t: Tid, pc: PC, ch: Choice)
    requires SharedSafe(c, g) && PointSafe(c, g, t, pc) && !OnKeyPath(pc)
    ensures GoodMove(c, g, t, DiscoveryMove(c, g, t, pc, ch))
  {
    if Recording(pc) { RecordingGood(c, g, t, pc, ch); }
  }

  lemma KeyMoveGood(c: Config, g: Shared, t: Tid, pc: PC, ch: Choice)
    requires SharedSafe(c, g) && PointSafe(c, g, t, pc) && OnKeyPath(pc)
    ensures GoodMove(c, g, t, KeyMove(c, g, t, pc, ch))
  {
  }

  lemma OthersStaySafe(c: Config, g: Shared, h: Shared, t: Tid, u: Tid, pc: PC)
    requires PointSafe(c, g, u, pc) && t != u && Guarantee(t, g, h)
    ensures PointSafe(c, h, u, pc)
  {
  }

  lemma PcIsSafe(c: Config, s: State, t: Tid)
    requires Safe(c, s)
    ensures PointSafe(c, s.sh, t, s.Pc(t))
  {
  }

  lemma StepKeepsSafe(c: Config, s: State, e: Event)
    requires Safe(c, s) && Step(c, s, e).Some?
    ensures Safe(c, Step(c, s, e).value) && Guarantee(e.thread, s.sh, Step(c, s, e).value.sh)
  {
    var t, pc, s' := e.thread, s.Pc(e.thread), Step(c, s, e).value;
    PcIsSafe(c, s, t);
    if OnKeyPath(pc) {
      KeyMoveGood(c, s.sh, t, pc, e.choice);
    } else {
      DiscoveryMoveGood(c, s.sh, t, pc, e.choice);
    }
    forall u | u in s'.pcs ensures PointSafe(c, s'.sh, u, s'.pcs[u]) {
      if u != t { OthersStaySafe(c, s.sh, s'.sh, t, u, s.pcs[u]); }
    }
  }

  lemma {:induction false} RunKeepsSafe(c: Config, s: State, es: seq<Event>)
    requires Safe(c, s) && Run(c, s, es).Some?
    ensures var s' := Run(c, s, es).value;
            && Safe(c, s')
            && s.sh.urlWrites <= s'.sh.urlWrites
            && (s.sh.url != "" ==> s'.sh.urlWrites == s.sh.urlWrites)
            && (s'.sh.urlWrites == s.sh.urlWrites ==> s'.sh.url == s.sh.url)
            && s.sh.cache <= s'.sh.cache
    decreases |es|
  {
    if es != [] {
      StepKeepsSafe(c, s, es[0]);
      RunKeepsSafe(c, Step(c, s, es[0]).value, es[1..]);
    }
  }

  lemma ReachableIsSafe(c: Config, s: State)
    requires Reachable(c, s)
    ensures Safe(c, s)
  {
    var url, skip :| NewValidator(c, url, skip).Some? && Leads(c, NewValidator(c, url, skip).value, s);
    var s0 := NewValidator(c, url, skip).value;
    var es := SomeRun(c, s0, s);
    RunKeepsSafe(c, s0, es);
  }

  // ----- Main results -----

  /**
    A configuration is accepted exactly when keys have somewhere to come from: a URL, an issuer whose
    discovery is not skipped, or, with neither, a local key provider.
  */
  lemma ConstructorAccepts(c: Config, url: string, skip: bool)
    ensures NewValidator(c, url, skip).Some?
            <==> url != "" || (if c.issuer != "" then !skip else c.hasProvider)
    ensures NewValidator(c, url, skip).Some? ==> Reachable(c, NewValidator(c, url, skip).value)
  {
    if NewValidator(c, url, skip).Some? {
      LeadsNowhere(c, NewValidator(c, url, skip).value);
    }
  }

  /**
    The URL is written at most once in a run, only from empty to non-empty, and changes only by that
    write; one given at construction is never written. A registered URL stays registered.
  */
  lemma UrlIsFilledOnce(c: Config, s: State, es: seq<Event>, s': State)
    requires Reachable(c, s) && Run(c, s, es) == Some(s')
    ensures s.sh.urlWrites <= s'.sh.urlWrites <= 1
    ensures s'.sh.url != s.sh.url <==> s'.sh.urlWrites > s.sh.urlWrites
    ensures s'.sh.url != s.sh.url ==> s.sh.url == "" && s'.sh.url != ""
    ensures s.sh.url in s.sh.cache ==> s'.sh.url in s'.sh.cache
  {
    ReachableIsSafe(c, s);
    RunKeepsSafe(c, s, es);
  }

  /**
    A thread about to look up keys finds the URL filled in and registered, although the registered
    flag may have been reset meanwhile; and the flag is only ever up when the URL is registered.
  */
  lemma LookupIsRegistered(c: Config, s: State, t: Tid)
    requires Reachable(c, s)
    ensures s.Pc(t).Lookup? ==> s.sh.url != "" && s.sh.url in s.sh.cache
    ensures s.sh.registered ==> s.sh.url != "" && s.sh.url in s.sh.cache
  {
    ReachableIsSafe(c, s);
    PcIsSafe(c, s, t);
  }

  /** Without a local key provider, the key path never sees an empty URL. */
  lemma KeyPathHasUrl(c: Config, s: State, t: Tid)
    requires Reachable(c, s) && !c.hasProvider && OnKeyPath(s.Pc(t))
    ensures s.sh.url != ""
    ensures s.Pc(t).UrlCheck? ==> Step(c, s, Act(t, Proceed)) == Some(State(s.sh, s.pcs[t := RegLock]))
  {
    ReachableIsSafe(c, s);
    PcIsSafe(c, s, t);
  }

  // ----- Deadlock freedom -----

  /** The environment's part in letting a thread go on. */
  function Answer(pc: PC): Choice
  {
    match pc
    case Discovering => Discovered(None)
    case Parse => KeyNeeded(true)
    case LocalKey => LocalAnswer(false)
    case Registering => Registered(true)
    case Header => HeaderValid(true)
    case _ => Proceed
  }

  predicate CanMove(c: Config, s: State, t: Tid)
  {
    Step(c, s, Act(t, Answer(s.Pc(t)))).Some?
  }

  /** A thread that cannot go on waits for a lock somebody holds. */
  lemma OnlyLocksBlock(c: Config, s: State, t: Tid)
    ensures CanMove(c, s, t)
            || ((s.Pc(t).DiscLock? || s.Pc(t).FlagLock?) && s.sh.discMu.Some?)
            || ((s.Pc(t).ResetLock? || s.Pc(t).RegLock?) && s.sh.regMu.Some?)
  {
  }

  /**
    The two locks cannot deadlock: whenever a call is in progress, some call in progress can go on.
    A holder of the registration lock never waits, and a holder of the discovery lock waits for
    nothing but the registration lock.
  */
  lemma NoDeadlock(c: Config, s: State, t: Tid) returns (u: Tid)
    requires Reachable(c, s) && !s.Pc(t).Idle?
    ensures !s.Pc(u).Idle? && CanMove(c, s, u)
  {
    ReachableIsSafe(c, s);
    u := t;
    OnlyLocksBlock(c, s, u);
    if !CanMove(c, s, u) && (s.Pc(u).DiscLock? || s.Pc(u).FlagLock?) {
      u := s.sh.discMu.value;
      PcIsSafe(c, s, u);
      OnlyLocksBlock(c, s, u);
    }
    if !CanMove(c, s, u) {
      u := s.sh.regMu.value;
      PcIsSafe(c, s, u);
      OnlyLocksBlock(c, s, u);
    }
  }

  /** The steps a call can still make. */
  function Remaining(pc: PC): nat
  {
    match pc
    case Idle => 0
    case DiscLock => 17
    case DiscCheck => 16
    case Discovering => 15
    case WriteUrl(_) => 14
    case WriteDone => 13
    case ResetLock => 12
    case Reset => 11
    case DiscRelease => 10
    case FlagLock => 11
    case FlagSet => 10
    case Parse => 9
    case LocalKey => 8
    case UrlCheck => 7
    case RegLock => 6
    case RegCheck => 5
    case Registering => 4
    case RegDone => 3
    case Header => 2
    case Lookup => 1
  }

  /** Every step of a call brings it closer to its end, whatever the other calls do. */
  lemma EveryStepCounts(c: Config, g: Shared, t: Tid, pc: PC, ch: Choice)
    requires !pc.Idle? && ThreadMove(c, g, t, pc, ch).Move?
    ensures Remaining(ThreadMove(c, g, t, pc, ch).pc) < Remaining(pc)
  {
  }

  const CALL_STEPS := 18

  /** The steps a thread takes in a run. */
  function StepsOf(t: Tid, es: seq<Event>): nat
  {
    if es == [] then 0 else StepsOf(t, es[1..]) + if es[0].thread == t then 1 else 0
  }

  /** The thread begins no call during the run. */
  predicate BeginsNone(c: Config, s: State, t: Tid, es: seq<Event>)
    requires Run(c, s, es).Some?
    decreases |es|
  {
    es == [] ||
    (&& (es[0].thread == t ==> !s.Pc(t).Idle?)
     && BeginsNone(c, Step(c, s, es[0]).value, t, es[1..]))
  }

  lemma {:induction false} CallUsesUp(c: Config, s: State, t: Tid, es: seq<Event>, s': State)
    requires Run(c, s, es) == Some(s') && BeginsNone(c, s, t, es)
    ensures StepsOf(t, es) + Remaining(s'.Pc(t)) <= Remaining(s.Pc(t))
    decreases |es|
  {
    if es != [] {
      if es[0].thread == t {
        EveryStepCounts(c, s.sh, t, s.Pc(t), es[0].choice);
      }
      CallUsesUp(c, Step(c, s, es[0]).value, t, es[1..], s');
    }
  }

  /**
    A call takes at most eighteen steps in any run, however the other calls are interleaved with it: as long
    as the thread begins no second call, its steps from the beginning of the first are bounded.
  */
  lemma CallIsBounded(c: Config, s: State, t: Tid, ch: Choice, es: seq<Event>)
    requires s.Pc(t).Idle? && Step(c, s, Act(t, ch)).Some?
    requires Run(c, Step(c, s, Act(t, ch)).value, es).Some?
    requires BeginsNone(c, Step(c, s, Act(t, ch)).value, t, es)
    ensures StepsOf(t, [Act(t, ch)] + es) <= CALL_STEPS
  {
    var s1 := Step(c, s, Act(t, ch)).value;
    assert ([Act(t, ch)] + es)[1..] == es;
    CallUsesUp(c, s1, t, es, Run(c, s1, es).value);
  }

  // ----- Failed discoveries -----

  /**
    Without a provider a failed discovery never latches: while the URL is missing the flag is down,
    so the next call to reach the check starts a discovery of its own.
  */
  lemma FailureIsRetried(c: Config, s: State, t: Tid)
    requires Reachable(c, s) && !c.hasProvider && s.sh.url == "" && s.Pc(t).DiscCheck?
    ensures !s.sh.discovered && Step(c, s, Act(t, Proceed)) == Some(State(s.sh, s.pcs[t := Discovering]))
  {
    ReachableIsSafe(c, s);
  }

  /** The flag is up, the URL is missing and nobody is inside the discovery section. */
  predicate Latched(s: State)
  {
    s.sh.discovered && s.sh.url == "" && s.sh.discMu.None?
  }

  /** The same, with holders that can only leave. */
  predicate StaysLatched(s: State)
  {
    && s.sh.discovered && s.sh.url == ""
    && (forall t :: t in s.pcs && HoldsDisc(s.pcs[t]) ==> s.pcs[t].DiscCheck? || s.pcs[t].FlagSet?)
  }

  lemma {:induction false} RunStaysLatched(c: Config, s: State, es: seq<Event>, s': State)
    requires Safe(c, s) && StaysLatched(s) && Run(c, s, es) == Some(s')
    ensures StaysLatched(s')
    decreases |es|
  {
    if es != [] {
      var s1, t := Step(c, s, es[0]).value, es[0].thread;
      assert s1.sh.url == "" && s1.sh.discovered && (HoldsDisc(s1.Pc(t)) ==> s1.Pc(t).DiscCheck? || s1.Pc(t).FlagSet?);
      StepKeepsSafe(c, s, es[0]);
      RunStaysLatched(c, s1, es[1..], s');
    }
  }

  /** With a provider it does latch, for good: no later call attempts discovery and the URL stays missing. */
  lemma LatchIsPermanent(c: Config, s: State, es: seq<Event>, s': State, t: Tid)
    requires Reachable(c, s) && Latched(s) && Run(c, s, es) == Some(s')
    ensures c.hasProvider && s'.sh.url == "" && s'.sh.discovered && !s'.Pc(t).Discovering?
  {
    ReachableIsSafe(c, s);
    RunStaysLatched(c, s, es, s');
  }

  /** A call whose discovery fails, with a provider to fall back on. */
  lemma FailDiscovery(c: Config, s0: State, s: State, t: Tid) returns (s': State)
    requires Leads(c, s0, s) && s.Pc(t).Idle? && c.hasProvider && c.issuer != ""
    requires s.sh.discMu.None? && s.sh.url == "" && !s.sh.discovered
    ensures Leads(c, s0, s') && s' == State(s.sh, s.pcs[t := FlagLock])
  {
    s' := ThenDiscovery(c, s0, s, t, Proceed);
    s' := ThenDiscovery(c, s0, s', t, Proceed);
    s' := ThenDiscovery(c, s0, s', t, Proceed);
    s' := ThenDiscovery(c, s0, s', t, Discovered(None));
    assert s'.pcs == s.pcs[t := FlagLock];
  }

  /** One failed discovery is enough, for every issuer. */
  lemma FailureLatches(c: Config) returns (s: State)
    requires c.hasProvider && c.issuer != ""
    ensures Reachable(c, s) && Latched(s)
  {
    var s0 := NewValidator(c, "", false).value;
    LeadsNowhere(c, s0);
    s := FailDiscovery(c, s0, s0, 0);
    s := ThenDiscovery(c, s0, s, 0, Proceed);
    s := ThenDiscovery(c, s0, s, 0, Proceed);
    assert NewValidator(c, "", false).Some?;
  }
}
