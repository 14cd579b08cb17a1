/**
  Accounting for status writes. A write happens outside the mutex, after the critical section that
  decided it; until then it is pending in the program counter of the thread that owes it.
*/
module RetryConservation {
  import opened RetryMachine

  datatype Write = ToAuthRetrying | ToRunning | ToUnauthenticated

  function WriteOf(st: Status): Write
  {
    match st
    case AuthRetrying => ToAuthRetrying
    case Running => ToRunning
    case Unauthenticated(_) => ToUnauthenticated
  }

  /** The status write a thread at this point still owes, if any. */
  function Owed(pc: PC): seq<Status>
  {
    match pc
    case EnterStatus => [AuthRetrying]
    case ExitStatus(_) => [Running]
    case MarkStatus(k) => [Unauthenticated(k)]
    case _ => []
  }

  predicate Owes(pc: PC, w: Write)
  {
    Owed(pc) != [] && WriteOf(Owed(pc)[0]) == w
  }

  function Owing(pcs: map<Tid, PC>, w: Write): set<Tid>
  {
    set t | t in pcs && Owes(pcs[t], w)
  }

  function Pending(s: State, w: Write): nat
  {
    |Owing(s.pcs, w)|
  }

  function Done(log: seq<Status>, w: Write): nat
  {
    if log == [] then 0
    else Done(log[..|log| - 1], w) + if WriteOf(log[|log| - 1]) == w then 1 else 0
  }

  function One(b: bool): nat
  {
    if b then 1 else 0
  }

  predicate IsPermanentStatus(st: Status)
  {
    st.Unauthenticated? && IsPermanentCause(st.cause)
  }

  /** Where in the log the permanent verdicts are. */
  function PermanentWrites(log: seq<Status>): set<nat>
  {
    set i | 0 <= i < |log| && IsPermanentStatus(log[i])
  }

  /** The verdict is written and the warning not yet considered. */
  predicate AboutToWarn(pc: PC)
  {
    pc.MarkWarn? && IsPermanentCause(pc.cause)
  }

  function Warning(pcs: map<Tid, PC>): set<Tid>
  {
    set t | t in pcs && AboutToWarn(pcs[t])
  }

  /** The permanent verdicts in the log are the marks completed with one and those about to consider the warning. */
  predicate VerdictsConserved(s: State)
  {
    |PermanentWrites(s.sh.log)| == s.sh.hist.permanentMarks + |Warning(s.pcs)|
  }

  /**
    Writes done plus writes pending equal the decisions taken, for each status; the windows entered are
    those exited, those a mark cleared, and the one that is open; and no permanent verdict is lost on
    the way to the warning.
  */
  predicate Conserved(s: State)
  {
    && Done(s.sh.log, ToAuthRetrying) + Pending(s, ToAuthRetrying) == s.sh.hist.entries
    && Done(s.sh.log, ToRunning) + Pending(s, ToRunning) == s.sh.hist.exits
    && Done(s.sh.log, ToUnauthenticated) + Pending(s, ToUnauthenticated) == s.sh.hist.clears
    && WindowsBalance(s.sh)
    && VerdictsConserved(s)
  }

  lemma SizeWithout(ts: set<Tid>, t: Tid)
    ensures |ts| == |ts - {t}| + One(t in ts)
  {
    if t in ts {
      assert ts == (ts - {t}) + {t};
    } else {
      assert ts == ts - {t};
    }
  }

  lemma OwingUpdate(pcs: map<Tid, PC>, t: Tid, pc: PC, w: Write)
    ensures |Owing(pcs[t := pc], w)| + One(t in pcs && Owes(pcs[t], w)) == |Owing(pcs, w)| + One(Owes(pc, w))
  {
    var before, after := Owing(pcs, w), Owing(pcs[t := pc], w);
    assert after - {t} == before - {t};
    SizeWithout(before, t);
    SizeWithout(after, t);
  }

  lemma DoneAppend(log: seq<Status>, pc: PC, w: Write)
    ensures Done(log + Owed(pc), w) == Done(log, w) + One(Owes(pc, w))
  {
    if Owed(pc) == [] {
      assert log + Owed(pc) == log;
    } else {
      assert (log + Owed(pc))[..|log|] == log;
    }
  }

  predicate WindowsBalance(g: Shared)
  {
    && g.hist.entries == g.hist.exits + g.hist.cleared + One(g.Open())
    && g.hist.cleared <= g.hist.clears
  }

  /**
    The books of one step: the write that was owed is done, and a decision counter goes up exactly
    when the matching write becomes owed.
  */
  predicate Books(g: Shared, pc: PC, m: Move)
  {
    m.Move? ==>
      && m.sh.log == g.log + Owed(pc)
      && m.sh.hist.entries == g.hist.entries + One(Owes(m.pc, ToAuthRetrying))
      && m.sh.hist.exits == g.hist.exits + One(Owes(m.pc, ToRunning))
      && m.sh.hist.clears == g.hist.clears + One(Owes(m.pc, ToUnauthenticated))
      && WindowsBalance(m.sh)
  }

  lemma TokenBooks(g: Shared, pc: PC, ch: Choice)
    requires WindowsBalance(g) && !InMark(pc) && !InEnter(pc)
    ensures Books(g, pc, TokenMove(g, pc, ch))
  {
    assert g.log + [] == g.log;
  }

  lemma TickBooks(c: Config, g: Shared, pc: PC, ch: Choice)
    requires WindowsBalance(g) && !InMark(pc) && !InEnter(pc) && !InExit(pc)
    ensures Books(g, pc, TickMove(c, g, pc, ch))
  {
    assert g.log + [] == g.log;
  }

  lemma ExitBooks(g: Shared, pc: PC, ch: Choice)
    requires WindowsBalance(g)
    ensures Books(g, pc, ExitMove(g, pc, ch))
  {
    assert g.log + [] == g.log;
  }

  lemma EnterBooks(c: Config, g: Shared, t: Tid, pc: PC, ch: Choice)
    requires WindowsBalance(g)
    ensures Books(g, pc, EnterMove(c, g, t, pc, ch))
  {
    assert g.log + [] == g.log;
  }

  lemma MarkBooks(c: Config, g: Shared, t: Tid, pc: PC, ch: Choice)
    requires WindowsBalance(g)
    ensures Books(g, pc, MarkMove(c, g, t, pc, ch))
  {
    assert g.log + [] == g.log;
  }

  lemma MoveBooks(c: Config, g: Shared, t: Tid, pc: PC, ch: Choice)
    requires WindowsBalance(g)
    ensures Books(g, pc, ThreadMove(c, g, t, pc, ch))
  {
    if InMark(pc) {
      MarkBooks(c, g, t, pc, ch);
    } else if InEnter(pc) {
      EnterBooks(c, g, t, pc, ch);
    } else if t != MONITOR {
      TokenBooks(g, pc, ch);
    } else if InExit(pc) {
      ExitBooks(g, pc, ch);
    } else {
      TickBooks(c, g, pc, ch);
    }
  }

  // ----- The books of permanent verdicts -----

  predicate OwesPermanent(pc: PC)
  {
    pc.MarkStatus? && IsPermanentCause(pc.cause)
  }

  lemma VerdictBooks(c: Config, g: Shared, t: Tid, pc: PC, ch: Choice)
    ensures var m := ThreadMove(c, g, t, pc, ch);
            m.Move? ==>
              && m.sh.hist.permanentMarks == g.hist.permanentMarks + One(AboutToWarn(pc))
              && (AboutToWarn(m.pc) <==> OwesPermanent(pc))
  {
    if InMark(pc) {
      assert ThreadMove(c, g, t, pc, ch) == MarkMove(c, g, t, pc, ch);
    } else if InEnter(pc) {
      assert ThreadMove(c, g, t, pc, ch) == EnterMove(c, g, t, pc, ch);
    }
  }

  lemma WarningUpdate(pcs: map<Tid, PC>, t: Tid, pc: PC)
    ensures |Warning(pcs[t := pc])| + One(t in pcs && AboutToWarn(pcs[t])) == |Warning(pcs)| + One(AboutToWarn(pc))
  {
    var before, after := Warning(pcs), Warning(pcs[t := pc]);
    assert after - {t} == before - {t};
    SizeWithout(before, t);
    SizeWithout(after, t);
  }

  lemma PermanentAppend(log: seq<Status>, st: Status)
    ensures |PermanentWrites(log + [st])| == |PermanentWrites(log)| + One(IsPermanentStatus(st))
  {
    var longer := log + [st];
    assert longer[|log|] == st && forall i :: 0 <= i < |log| ==> longer[i] == log[i];
    SizeWithout(PermanentWrites(longer), |log|);
    assert PermanentWrites(longer) - {|log|} == PermanentWrites(log);
  }

  lemma StepConservesVerdicts(c: Config, s: State, t: Tid, ch: Choice)
    requires WindowsBalance(s.sh) && VerdictsConserved(s) && Step(c, s, Act(t, ch)).Some?
    ensures VerdictsConserved(Step(c, s, Act(t, ch)).value)
  {
    var pc := s.Pc(t);
    MoveBooks(c, s.sh, t, pc, ch);
    VerdictBooks(c, s.sh, t, pc, ch);
    WarningUpdate(s.pcs, t, Step(c, s, Act(t, ch)).value.Pc(t));
    if Owed(pc) == [] {
      assert s.sh.log + Owed(pc) == s.sh.log;
    } else {
      PermanentAppend(s.sh.log, Owed(pc)[0]);
    }
  }

  // ----- Every run conserves -----

  lemma StepConserves(c: Config, s: State, e: Event)
    requires Conserved(s) && Step(c, s, e).Some?
    ensures Conserved(Step(c, s, e).value)
  {
    var s' := Step(c, s, e).value;
    if e.Act? {
      var t, pc := e.thread, s.Pc(e.thread);
      MoveBooks(c, s.sh, t, pc, e.choice);
      StepConservesVerdicts(c, s, t, e.choice);
      forall w: Write
        ensures Done(s'.sh.log, w) + Pending(s', w) == Done(s.sh.log, w) + Pending(s, w) + One(Owes(s'.Pc(t), w))
      {
        DoneAppend(s.sh.log, pc, w);
        OwingUpdate(s.pcs, t, s'.Pc(t), w);
      }
    }
  }

  lemma {:induction false} RunConserves(c: Config, s: State, es: seq<Event>)
    requires Conserved(s) && Run(c, s, es).Some?
    ensures Conserved(Run(c, s, es).value)
    decreases |es|
  {
    if es != [] {
      StepConserves(c, s, es[0]);
      RunConserves(c, Step(c, s, es[0]).value, es[1..]);
    }
  }

  lemma InitConserved(s0: State)
    requires s0 == Init()
    ensures Conserved(s0)
  {
    assert Owing(s0.pcs, ToAuthRetrying) == {};
    assert Owing(s0.pcs, ToRunning) == {};
    assert Owing(s0.pcs, ToUnauthenticated) == {};
    assert Warning(s0.pcs) == {} && PermanentWrites(s0.sh.log) == {};
  }

  lemma LeadsConserves(c: Config, s0: State, s: State)
    requires Conserved(s0) && Leads(c, s0, s)
    ensures Conserved(s)
  {
    var es := SomeRun(c, s0, s);
    RunConserves(c, s0, es);
  }

  /** Conservation of status writes in every reachable state. */
  lemma StatusWritesConserved(c: Config, s: State)
    requires Reachable(c, s)
    ensures Conserved(s)
  {
    var s0 := Init();
    InitConserved(s0);
    LeadsConserves(c, s0, s);
  }
}
