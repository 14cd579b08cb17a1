/**
  Decisions and the writes that carry them out. A status is decided under the mutex and written later,
  so in an interleaving the log need not show the statuses in the order in which they were decided. The
  decisions always follow the protocol; this module says exactly when the log does too.
*/
module RetryDecisions {
  import opened Options
  import opened RetryMachine
  import opened RetrySafety
  import opened RetryConservation
  import opened StatusLanguage

  /** A status with the thread that decides or writes it. */
  datatype Entry = Entry(thread: Tid, status: Status)

  /** The write a thread at this point owes, as an entry. */
  function Due(t: Tid, pc: PC): (es: seq<Entry>)
    ensures |es| == |Owed(pc)| <= 1
  {
    if Owed(pc) == [] then [] else [Entry(t, Owed(pc)[0])]
  }

  function Statuses(entries: seq<Entry>): seq<Status>
  {
    seq(|entries|, i requires 0 <= i < |entries| => entries[i].status)
  }

  /** What a step of a run decides: the write its thread owes afterwards. */
  function Decision(after: State, e: Event): seq<Entry>
  {
    if e.Act? then Due(e.thread, after.Pc(e.thread)) else []
  }

  /** What a step of a run writes: the write its thread owed before. */
  function Landing(before: State, e: Event): seq<Entry>
  {
    if e.Act? then Due(e.thread, before.Pc(e.thread)) else []
  }

  /** The decisions of a run, in order. */
  function Decided(c: Config, s: State, es: seq<Event>): seq<Entry>
    requires Run(c, s, es).Some?
    decreases |es|
  {
    if es == [] then []
    else
      var s1 := Step(c, s, es[0]).value;
      Decision(s1, es[0]) + Decided(c, s1, es[1..])
  }

  /** The writes of a run, in order. */
  function Landed(c: Config, s: State, es: seq<Event>): seq<Entry>
    requires Run(c, s, es).Some?
    decreases |es|
  {
    if es == [] then []
    else Landing(s, es[0]) + Landed(c, Step(c, s, es[0]).value, es[1..])
  }

  /** No write is owed. */
  predicate Settled(s: State)
  {
    forall t :: t in s.pcs ==> Owed(s.pcs[t]) == []
  }

  lemma StatusesConcat(ds: seq<Status>, a: seq<Entry>, b: seq<Entry>)
    ensures ds + Statuses(a) + Statuses(b) == ds + Statuses(a + b)
  {
    assert Statuses(a + b) == Statuses(a) + Statuses(b);
  }

  // ----- The language of the decisions -----

  /** What a step does to the window, by what it decides. */
  predicate Shifts(g: Shared, m: Move)
  {
    m.Move? ==>
      if Owed(m.pc) == [] then m.sh.Open() == g.Open() && m.sh.hist.clears == g.hist.clears
      else
        match Owed(m.pc)[0]
        case AuthRetrying => !g.Open() && m.sh.Open() && m.sh.hist.clears == g.hist.clears == 0
        case Running => g.Open() && !m.sh.Open() && m.sh.hist.clears == g.hist.clears
        case Unauthenticated(_) => !m.sh.Open() && m.sh.hist.clears > 0
  }

  lemma EnterShifts(c: Config, g: Shared, t: Tid, pc: PC, ch: Choice)
    requires SharedSafe(c, g) && PointSafe(c, g, t, pc) && InEnter(pc)
    ensures Shifts(g, EnterMove(c, g, t, pc, ch))
  {
  }

  lemma TickShifts(c: Config, g: Shared, pc: PC, ch: Choice)
    requires !InMark(pc) && !InEnter(pc) && !InExit(pc)
    ensures Shifts(g, TickMove(c, g, pc, ch))
  {
  }

  lemma MarkShifts(c: Config, g: Shared, t: Tid, pc: PC, ch: Choice)
    requires InMark(pc)
    ensures Shifts(g, MarkMove(c, g, t, pc, ch))
  {
  }

  lemma MoveShifts(c: Config, g: Shared, t: Tid, pc: PC, ch: Choice)
    requires SharedSafe(c, g) && PointSafe(c, g, t, pc)
    ensures Shifts(g, ThreadMove(c, g, t, pc, ch))
  {
    if InMark(pc) {
      MarkShifts(c, g, t, pc, ch);
    } else if InEnter(pc) {
      EnterShifts(c, g, t, pc, ch);
    } else if t == MONITOR && !InMark(pc) && !InExit(pc) {
      TickShifts(c, g, pc, ch);
    }
  }

  lemma TickWrites(c: Config, g: Shared, pc: PC, ch: Choice)
    requires !InMark(pc) && !InEnter(pc) && !InExit(pc)
    ensures var m := TickMove(c, g, pc, ch);
            m.Move? ==> m.sh.log == g.log
  {
  }

  lemma MoveWrites(c: Config, g: Shared, t: Tid, pc: PC, ch: Choice)
    ensures var m := ThreadMove(c, g, t, pc, ch);
            m.Move? ==> m.sh.log == g.log + Owed(pc)
  {
    assert g.log + [] == g.log;
    if InMark(pc) {
      assert ThreadMove(c, g, t, pc, ch) == MarkMove(c, g, t, pc, ch);
    } else if InEnter(pc) {
      assert ThreadMove(c, g, t, pc, ch) == EnterMove(c, g, t, pc, ch);
    } else if t == MONITOR && !InExit(pc) {
      TickWrites(c, g, pc, ch);
    }
  }

  /** A step writes what its thread owed. */
  lemma StepWrites(c: Config, s: State, e: Event)
    requires Step(c, s, e).Some?
    ensures Step(c, s, e).value.sh.log == s.sh.log + Statuses(Landing(s, e))
  {
    if e.Act? {
      MoveWrites(c, s.sh, e.thread, s.Pc(e.thread), e.choice);
      assert Statuses(Landing(s, e)) == Owed(s.Pc(e.thread));
    }
  }

  /** A step that decides nothing leaves the window as it is. */
  lemma StepKeepsWindow(c: Config, s: State, e: Event)
    requires Safe(c, s) && Step(c, s, e).Some? && Decision(Step(c, s, e).value, e) == []
    ensures Step(c, s, e).value.sh.Open() == s.sh.Open()
  {
    if e.Act? {
      PcIsSafe(c, s, e.thread);
      MoveShifts(c, s.sh, e.thread, s.Pc(e.thread), e.choice);
    }
  }

  /** Where the statuses so far leave the protocol. */
  datatype Phase = Closed | Opened | Over | Broken

  function Next(p: Phase, st: Status): Phase
  {
    match st
    case AuthRetrying => if p.Closed? then Opened else Broken
    case Running => if p.Opened? then Closed else Broken
    case Unauthenticated(_) => if p.Broken? then Broken else Over
  }

  function PhaseOf(ds: seq<Status>): Phase
  {
    if ds == [] then Closed else Next(PhaseOf(ds[..|ds| - 1]), ds[|ds| - 1])
  }

  /** The phases recognise the language, and Opened is the phase after AuthRetrying. */
  lemma {:induction false} PhaseLanguage(ds: seq<Status>) returns (cut: nat)
    requires !PhaseOf(ds).Broken?
    ensures CutAt(ds, cut)
    ensures PhaseOf(ds).Over? <==> cut < |ds|
    ensures PhaseOf(ds).Opened? <==> cut == |ds| && cut % 2 == 1
  {
    cut := 0;
    if ds != [] {
      var front, last := ds[..|ds| - 1], ds[|ds| - 1];
      cut := PhaseLanguage(front);
      assert ds == front + [last];
      if !last.Unauthenticated? { cut := cut + 1; }
    }
  }

  /** The phase is a right one and tells the window. */
  predicate Follows(g: Shared, p: Phase)
  {
    !p.Broken? && (p.Opened? <==> g.Open()) && (p.Over? <==> g.hist.clears > 0)
  }

  lemma StepFollows(c: Config, s: State, e: Event, ds: seq<Status>)
    requires Safe(c, s) && Step(c, s, e).Some? && Follows(s.sh, PhaseOf(ds))
    ensures Follows(Step(c, s, e).value.sh, PhaseOf(ds + Statuses(Decision(Step(c, s, e).value, e))))
  {
    var s1 := Step(c, s, e).value;
    var decision := Statuses(Decision(s1, e));
    if e.Act? {
      PcIsSafe(c, s, e.thread);
      MoveShifts(c, s.sh, e.thread, s.Pc(e.thread), e.choice);
    }
    if decision == [] {
      assert ds + decision == ds;
    } else {
      assert (ds + decision)[..|ds|] == ds;
    }
  }

  lemma {:induction false} RunFollows(c: Config, s: State, es: seq<Event>, ds: seq<Status>)
    requires Safe(c, s) && Run(c, s, es).Some? && Follows(s.sh, PhaseOf(ds))
    ensures Follows(Run(c, s, es).value.sh, PhaseOf(ds + Statuses(Decided(c, s, es))))
    decreases |es|
  {
    if es == [] {
      assert ds + Statuses([]) == ds;
    } else {
      var s1 := Step(c, s, es[0]).value;
      var decision, later := Decision(s1, es[0]), Decided(c, s1, es[1..]);
      StepFollows(c, s, es[0], ds);
      StepKeepsSafe(c, s, es[0]);
      RunFollows(c, s1, es[1..], ds + Statuses(decision));
      StatusesConcat(ds, decision, later);
    }
  }

  lemma LanguageFrom(c: Config, s0: State, es: seq<Event>)
    requires Safe(c, s0) && Follows(s0.sh, Closed) && Run(c, s0, es).Some?
    ensures InLanguage(Statuses(Decided(c, s0, es)))
    ensures Tells(Statuses(Decided(c, s0, es)), Run(c, s0, es).value.sh.Open())
  {
    var ds := Statuses(Decided(c, s0, es));
    RunFollows(c, s0, es, []);
    assert [] + ds == ds;
    var cut := PhaseLanguage(ds);
  }

  /**
    In every interleaving the decisions lie in the language, and the last of them tells the window: it is
    open exactly after AuthRetrying.
  */
  lemma DecisionLanguage(c: Config, es: seq<Event>, s: State)
    requires Run(c, Init(), es) == Some(s)
    ensures InLanguage(Statuses(Decided(c, Init(), es)))
    ensures Tells(Statuses(Decided(c, Init(), es)), s.sh.Open())
  {
    LanguageFrom(c, Init(), es);
  }

  // ----- Exactly when the writes land in the order of the decisions -----

  /** The threads that owe a write, each once. */
  ghost predicate Queued(s: State, q: seq<Tid>)
  {
    && (forall i, j :: 0 <= i < j < |q| ==> q[i] != q[j])
    && (forall t :: t in q <==> t in s.pcs && Owed(s.pcs[t]) != [])
  }

  /** The writes these threads owe, in this order. */
  function Debts(pcs: map<Tid, PC>, q: seq<Tid>): seq<Entry>
  {
    seq(|q|, i requires 0 <= i < |q| => Debt(pcs, q[i]))
  }

  /** For a thread that owes nothing any entry will do. */
  function Debt(pcs: map<Tid, PC>, t: Tid): Entry
  {
    if t in pcs && Owed(pcs[t]) != [] then Due(t, pcs[t])[0] else Entry(t, Running)
  }

  function Requeued(s: State, s1: State, e: Event, q: seq<Tid>): seq<Tid>
  {
    if Landing(s, e) != [] then (if q == [] then [] else q[1..])
    else if Decision(s1, e) != [] then q + [e.thread]
    else q
  }

  /** Each write is made by the thread that has owed one longest, `q` being the debtors in order of age. */
  predicate InOrder(c: Config, s: State, q: seq<Tid>, es: seq<Event>)
    requires Run(c, s, es).Some?
    decreases |es|
  {
    es == [] ||
    var s1 := Step(c, s, es[0]).value;
    && (Landing(s, es[0]) != [] ==> q != [] && q[0] == es[0].thread)
    && InOrder(c, s1, Requeued(s, s1, es[0], q), es[1..])
  }

  /** A thread that owes a write decides nothing in the step that makes it. */
  lemma WriteDecidesNothing(c: Config, s: State, e: Event)
    requires Step(c, s, e).Some? && Landing(s, e) != []
    ensures Decision(Step(c, s, e).value, e) == []
  {
  }

  /** A step of a thread outside the queue leaves the queue alone. */
  lemma DebtsKept(pcs: map<Tid, PC>, q: seq<Tid>, t: Tid, pc: PC)
    requires t !in q
    ensures Debts(pcs[t := pc], q) == Debts(pcs, q)
  {
    assert forall i :: 0 <= i < |q| ==> q[i] != t;
  }

  lemma DebtsAppend(pcs: map<Tid, PC>, q: seq<Tid>, t: Tid)
    ensures Debts(pcs, q + [t]) == Debts(pcs, q) + [Debt(pcs, t)]
  {
  }

  lemma DebtsTail(pcs: map<Tid, PC>, q: seq<Tid>)
    requires q != []
    ensures Debts(pcs, q) == [Debt(pcs, q[0])] + Debts(pcs, q[1..])
  {
  }

  lemma StillQueued(c: Config, s: State, e: Event, q: seq<Tid>)
    requires Step(c, s, e).Some? && Queued(s, q)
    requires Landing(s, e) != [] ==> q[0] == e.thread
    ensures Queued(Step(c, s, e).value, Requeued(s, Step(c, s, e).value, e, q))
  {
    if e.Act? {
      var s1 := Step(c, s, e).value;
      var q1 := Requeued(s, s1, e, q);
      if Landing(s, e) != [] {
        WriteDecidesNothing(c, s, e);
        assert q == [q[0]] + q1;
      } else if Decision(s1, e) != [] {
        assert e.thread !in q;
      }
    }
  }

  /** The books of the queue: what was owed and is now decided has been written or is owed. */
  lemma QueueStep(c: Config, s: State, e: Event, q: seq<Tid>)
    requires Step(c, s, e).Some? && Queued(s, q)
    requires Landing(s, e) != [] ==> q[0] == e.thread
    ensures var s1 := Step(c, s, e).value; var q1 := Requeued(s, s1, e, q);
            Queued(s1, q1) && Debts(s.pcs, q) + Decision(s1, e) == Landing(s, e) + Debts(s1.pcs, q1)
  {
    var s1 := Step(c, s, e).value;
    StillQueued(c, s, e, q);
    if Landing(s, e) != [] {
      WriteDecidesNothing(c, s, e);
      assert e.thread !in q[1..];
      DebtsTail(s.pcs, q);
      DebtsKept(s.pcs, q[1..], e.thread, s1.pcs[e.thread]);
    } else if e.Act? {
      assert e.thread !in q;
      DebtsKept(s.pcs, q, e.thread, s1.pcs[e.thread]);
      DebtsAppend(s1.pcs, q, e.thread);
    }
  }

  lemma CancelFront<T>(a: seq<T>, b: seq<T>, x: seq<T>)
    ensures x + a == x + b <==> a == b
  {
    if x + a == x + b {
      assert (x + a)[|x|..] == a && (x + b)[|x|..] == b;
    }
  }

  /** The balance after a step is the balance before it. */
  lemma SameBalance<T>(queue: seq<T>, decision: seq<T>, landing: seq<T>, queue': seq<T>,
                       landed: seq<T>, decided: seq<T>)
    requires queue + decision == landing + queue'
    ensures landing + landed == queue + (decision + decided) <==> landed == queue' + decided
  {
    assert queue + (decision + decided) == queue + decision + decided;
    assert landing + queue' + decided == landing + (queue' + decided);
    CancelFront(landed, queue' + decided, landing);
  }

  lemma QueueOwes(s: State, q: seq<Tid>)
    requires Queued(s, q) && q != []
    ensures !Settled(s)
  {
    assert q[0] in q;
  }

  lemma {:induction false} RunInOrderExactly(c: Config, s: State, q: seq<Tid>, es: seq<Event>)
    requires Run(c, s, es).Some? && Queued(s, q) && Settled(Run(c, s, es).value)
    ensures Landed(c, s, es) == Debts(s.pcs, q) + Decided(c, s, es) <==> InOrder(c, s, q, es)
    decreases |es|
  {
    if es == [] {
      if q != [] { QueueOwes(s, q); }
    } else {
      var s1 := Step(c, s, es[0]).value;
      var landing, decision := Landing(s, es[0]), Decision(s1, es[0]);
      if landing != [] && q[0] != es[0].thread {
        assert Landed(c, s, es)[0] == landing[0] && (Debts(s.pcs, q) + Decided(c, s, es))[0].thread == q[0];
      } else {
        var q1 := Requeued(s, s1, es[0], q);
        QueueStep(c, s, es[0], q);
        RunInOrderExactly(c, s1, q1, es[1..]);
        SameBalance(Debts(s.pcs, q), decision, landing, Debts(s1.pcs, q1),
                    Landed(c, s1, es[1..]), Decided(c, s1, es[1..]));
      }
    }
  }

  /**
    In every run that ends with nothing owed, the writes have landed in the order of the decisions exactly
    when each of them was made by the thread that had owed one longest.
  */
  lemma InOrderExactly(c: Config, es: seq<Event>, s: State)
    requires Run(c, Init(), es) == Some(s) && Settled(s)
    ensures Landed(c, Init(), es) == Decided(c, Init(), es) <==> InOrder(c, Init(), [], es)
  {
    var s0 := Init();
    RunInOrderExactly(c, s0, [], es);
    assert Debts(s0.pcs, []) + Decided(c, s0, es) == Decided(c, s0, es);
  }

  lemma {:induction false} LogIsLanded(c: Config, s: State, es: seq<Event>)
    requires Run(c, s, es).Some?
    ensures Run(c, s, es).value.sh.log == s.sh.log + Statuses(Landed(c, s, es))
    decreases |es|
  {
    if es == [] {
      assert s.sh.log + Statuses([]) == s.sh.log;
    } else {
      var s1 := Step(c, s, es[0]).value;
      var landing, later := Landing(s, es[0]), Landed(c, s1, es[1..]);
      StepWrites(c, s, es[0]);
      LogIsLanded(c, s1, es[1..]);
      StatusesConcat(s.sh.log, landing, later);
    }
  }

  lemma LogFrom(c: Config, s0: State, es: seq<Event>)
    requires s0.sh.log == [] && Run(c, s0, es).Some?
    ensures Run(c, s0, es).value.sh.log == Statuses(Landed(c, s0, es))
  {
    LogIsLanded(c, s0, es);
    assert [] + Statuses(Landed(c, s0, es)) == Statuses(Landed(c, s0, es));
  }

  /** Then the log is the sequence of the decisions: it lies in the language and tells the window. */
  lemma InOrderLog(c: Config, es: seq<Event>, s: State)
    requires Run(c, Init(), es) == Some(s) && Settled(s) && InOrder(c, Init(), [], es)
    ensures s.sh.log == Statuses(Decided(c, Init(), es))
    ensures InLanguage(s.sh.log) && Tells(s.sh.log, s.sh.Open())
  {
    LogFrom(c, Init(), es);
    InOrderExactly(c, es, s);
    DecisionLanguage(c, es, s);
  }

  /** Nothing is decided while a write is owed. */
  predicate Serial(c: Config, s: State, es: seq<Event>)
    requires Run(c, s, es).Some?
    decreases |es|
  {
    es == [] ||
    var s1 := Step(c, s, es[0]).value;
    (Decision(s1, es[0]) != [] ==> Settled(s)) && Serial(c, s1, es[1..])
  }

  /** That is enough to keep the order. */
  lemma {:induction false} SerialIsInOrder(c: Config, s: State, q: seq<Tid>, es: seq<Event>)
    requires Run(c, s, es).Some? && Queued(s, q) && |q| <= 1 && Serial(c, s, es)
    ensures InOrder(c, s, q, es)
    decreases |es|
  {
    if es != [] {
      var s1 := Step(c, s, es[0]).value;
      if Landing(s, es[0]) != [] {
        assert es[0].thread in q;
      } else if Decision(s1, es[0]) != [] && q != [] {
        QueueOwes(s, q);
      }
      StillQueued(c, s, es[0], q);
      SerialIsInOrder(c, s1, Requeued(s, s1, es[0], q), es[1..]);
    }
  }

  // ----- Exactly when the log tells the window -----

  /** The write says what the memory says at the moment it lands: AuthRetrying, and the window is open, or neither. */
  predicate Agrees(before: State, e: Event)
    requires Landing(before, e) != []
  {
    Landing(before, e)[0].status == AuthRetrying <==> before.sh.Open()
  }

  /** The last write of the run agrees; `before` is the verdict on the writes before the run. */
  predicate LastWriteAgrees(c: Config, s: State, es: seq<Event>, before: bool)
    requires Run(c, s, es).Some?
    decreases |es|
  {
    if es == [] then before
    else
      LastWriteAgrees(c, Step(c, s, es[0]).value, es[1..],
                      if Landing(s, es[0]) == [] then before else Agrees(s, es[0]))
  }

  /** A settled state is reached by a write, or from a settled state; and nothing has just been decided. */
  lemma SettledBefore(c: Config, s: State, e: Event)
    requires Step(c, s, e).Some? && Settled(Step(c, s, e).value)
    ensures Decision(Step(c, s, e).value, e) == []
    ensures Landing(s, e) == [] ==> Settled(s)
  {
    var s1 := Step(c, s, e).value;
    if e.Act? {
      assert e.thread in s1.pcs;
      assert forall u :: u in s.pcs && u != e.thread ==> u in s1.pcs && s1.pcs[u] == s.pcs[u];
    }
  }

  lemma StepTells(c: Config, s: State, e: Event, before: bool)
    requires Safe(c, s) && Step(c, s, e).Some?
    requires Settled(s) ==> (before <==> Tells(s.sh.log, s.sh.Open()))
    ensures var s1 := Step(c, s, e).value; var verdict := if Landing(s, e) == [] then before else Agrees(s, e);
            Settled(s1) ==> (verdict <==> Tells(s1.sh.log, s1.sh.Open()))
  {
    var s1 := Step(c, s, e).value;
    if Settled(s1) {
      SettledBefore(c, s, e);
      StepWrites(c, s, e);
      StepKeepsWindow(c, s, e);
    }
  }

  lemma {:induction false} RunTells(c: Config, s: State, es: seq<Event>, before: bool)
    requires Safe(c, s) && Run(c, s, es).Some? && Settled(Run(c, s, es).value)
    requires Settled(s) ==> (before <==> Tells(s.sh.log, s.sh.Open()))
    ensures Tells(Run(c, s, es).value.sh.log, Run(c, s, es).value.sh.Open()) <==> LastWriteAgrees(c, s, es, before)
    decreases |es|
  {
    if es != [] {
      StepTells(c, s, es[0], before);
      StepKeepsSafe(c, s, es[0]);
      RunTells(c, Step(c, s, es[0]).value, es[1..], if Landing(s, es[0]) == [] then before else Agrees(s, es[0]));
    }
  }

  /**
    In every run that ends with nothing owed, the last status in the log tells whether the window is open
    exactly when the write that landed last agreed with the memory at the moment it landed.
  */
  lemma LogTellsExactly(c: Config, es: seq<Event>, s: State)
    requires Run(c, Init(), es) == Some(s) && Settled(s)
    ensures Tells(s.sh.log, s.sh.Open()) <==> LastWriteAgrees(c, Init(), es, true)
  {
    RunTells(c, Init(), es, true);
  }

  /** Until something is decided, a settled log stays as it is, and so does the window. */
  lemma {:induction false} StaysUntilDecision(c: Config, s: State, es: seq<Event>)
    requires Safe(c, s) && Settled(s) && Run(c, s, es).Some? && Decided(c, s, es) == []
    ensures Run(c, s, es).value.sh.log == s.sh.log && Run(c, s, es).value.sh.Open() == s.sh.Open()
    decreases |es|
  {
    if es != [] {
      var s1 := Step(c, s, es[0]).value;
      assert Decision(s1, es[0]) == [] && Landing(s, es[0]) == [];
      StepWrites(c, s, es[0]);
      StepKeepsWindow(c, s, es[0]);
      StepKeepsSafe(c, s, es[0]);
      StaysUntilDecision(c, s1, es[1..]);
    }
  }
}
