/**
  Work in flight, over every run: pieces of work are neither lost nor made up, gates admit work
  exactly while they are open, and what a stopped runtime, a refusal or a failed begin lead to.
 */
module ExecutionWork {
  import opened Basics
  import opened ExecutionWindow
  import opened ExecutionRuns
  import opened ExecutionOutcomes
  import SqlRewrite

  // ------------------------------------------------------------------ conservation

  /** How often workers of query `q` made a move among the first `n` events. */
  function Count(es: seq<Event>, n: nat, q: QueryId, move: WorkMove): nat
    requires n <= |es|
  {
    multiset(es[..n])[Work(q, move)]
  }

  predicate Counts(es: seq<Event>, n: nat, q: QueryId, move: WorkMove)
    requires n < |es|
  {
    Count(es, n + 1, q, move) == Count(es, n, q, move) + if es[n] == Work(q, move) then 1 else 0
  }

  lemma CountSteps(es: seq<Event>, n: nat, q: QueryId)
    requires n < |es|
    ensures Counts(es, n, q, Submit) && Counts(es, n, q, Transfer) && Counts(es, n, q, Withdraw)
    ensures Counts(es, n, q, Settle) && Counts(es, n, q, Borrow) && Counts(es, n, q, Return)
  {
    assert es[..n + 1] == es[..n] + [es[n]];
  }

  predicate NoWork(es: seq<Event>, n: nat, q: QueryId)
    requires n <= |es|
  {
    && Count(es, n, q, Submit) == 0 && Count(es, n, q, Transfer) == 0 && Count(es, n, q, Withdraw) == 0
    && Count(es, n, q, Settle) == 0 && Count(es, n, q, Borrow) == 0 && Count(es, n, q, Return) == 0
  }

  /** What is in flight is what was submitted, transferred and borrowed, less what was given back. */
  predicate Balanced(es: seq<Event>, n: nat, q: QueryId, e: Entry)
    requires n <= |es|
  {
    && e.owning == Count(es, n, q, Submit) - Count(es, n, q, Transfer) - Count(es, n, q, Withdraw)
    && e.settling == Count(es, n, q, Transfer) - Count(es, n, q, Settle)
    && e.leases == Count(es, n, q, Transfer) + Count(es, n, q, Borrow) - Count(es, n, q, Return)
  }

  /** The books of call `c`: balanced once its gate was opened, empty before. */
  ghost predicate WorkOk(ws: seq<World>, es: seq<Event>, n: nat, c: CallId)
    requires |ws| > |es| >= n && WellFormed(ws[n]) && c in ws[n].calls
  {
    var l := LocalOf(ws[n], c);
    l.call.id.Some? ==>
      && (l.slot.entry.Some? ==> Balanced(es, n, l.call.id.value, l.slot.entry.value))
      && (l.slot.entry.None? && l.call.pc.Begin? ==> NoWork(es, n, l.call.id.value))
  }

  lemma NextGrows(w: World, e: Event)
    requires WellFormed(w) && Enabled(w, e)
    ensures w.next <= Apply(w, e).next
  {
    hide StepLocal, EnabledLocal;
  }

  /** No worker touches a query before its ticket is drawn. */
  lemma {:induction false} NoWorkBeforeTicket(ws: seq<World>, es: seq<Event>, n: nat, q: QueryId)
    requires IsRun(ws, es) && n <= |es| && ws[n].next <= q
    ensures NoWork(es, n, q)
    decreases n
  {
    hide Ok, Apply;
    if n > 0 {
      RunKeepsInv(ws, es, n - 1);
      NextGrows(ws[n - 1], es[n - 1]);
      NoWorkBeforeTicket(ws, es, n - 1, q);
      CountSteps(es, n - 1, q);
      hide Count;
    }
  }

  predicate SameLoad(a: Entry, b: Entry) {
    a.owning == b.owning && a.settling == b.settling && a.leases == b.leases
  }

  function EntryOf(slot: Slot): Entry {
    if slot.entry.Some? then slot.entry.value else Entry(false, 0, 0, 0, false)
  }

  /** A call's own step keeps its load, opens an empty gate, or forgets the entry. */
  predicate LoadStep(l: Local, l': Local) {
    && (l'.slot.entry.Some? ==>
          if l.slot.entry.Some? then SameLoad(l.slot.entry.value, l'.slot.entry.value)
          else l.call.pc == Begin(OpenGate) && !l.env.fatal && l'.slot.entry.value.Idle())
    && (l'.call.pc.Begin? ==> l.call.pc.Begin? && (l'.slot.entry.None? ==> l.slot.entry.None?))
    && l'.call.id == l.call.id
  }

  lemma BeginLoads(l: Local, choice: Choice)
    requires l.call.pc.Begin? && Ok(l) && EnabledLocal(l, choice)
    ensures LoadStep(l, StepLocal(l, choice))
  {
  }

  lemma BodyLoads(l: Local, choice: Choice)
    requires l.call.pc.Body? && Ok(l) && EnabledLocal(l, choice)
    ensures LoadStep(l, StepLocal(l, choice))
  {
  }

  /** No entry appears, and one that stays keeps its load. */
  predicate KeepsLoad(l: Local, l': Local) {
    && (l'.slot.entry.Some? ==> l.slot.entry.Some? && SameLoad(l.slot.entry.value, l'.slot.entry.value))
    && !l'.call.pc.Begin? && l'.call.id == l.call.id
  }

  lemma CleanupKeepsLoad(l: Local, path: Path, c: CleanupStep)
    ensures KeepsLoad(l, StepCleanup(l, path, c))
  {
    hide NextRetire, NextRelease;
  }

  lemma CleanupFaultKeepsLoad(l: Local, path: Path, c: CleanupStep)
    ensures KeepsLoad(l, CleanupFault(l, path, c))
  {
  }

  lemma LeaveKeepsLoad(l: Local, path: Path, v: LeaveStep)
    ensures KeepsLoad(l, StepLeave(l, path, v))
  {
  }

  lemma AfterKeepsEntry(l: Local)
    requires !l.call.pc.Begin?
    ensures var r := StepAfter(l); r.slot.entry == l.slot.entry && !r.call.pc.Begin? && r.call.id == l.call.id
  {
    match l.call.pc
    case ConstructorThrew(_) =>
    case FinishReturned =>
    case Destructor =>
    case EraseCompletion =>
    case CountFailure =>
    case _ =>
  }

  lemma VerdictKeepsLoad(l: Local, sourcesAllow: bool, admitted: bool)
    ensures KeepsLoad(l, At(l, Verdict(l.call.info, l.call.out, sourcesAllow, admitted)))
  {
    hide OwnedS3;
  }

  lemma RestLoads(l: Local, choice: Choice)
    requires !l.call.pc.Begin? && !l.call.pc.Body? && EnabledLocal(l, choice)
    ensures LoadStep(l, StepLocal(l, choice))
  {
    if l.call.pc.Cleanup? {
      CleanupKeepsLoad(l, l.call.pc.path, l.call.pc.cleanup);
      CleanupFaultKeepsLoad(l, l.call.pc.path, l.call.pc.cleanup);
    }
    if l.call.pc.Leave? { LeaveKeepsLoad(l, l.call.pc.path, l.call.pc.leave); }
    AfterKeepsEntry(l);
    if choice.Judge? { VerdictKeepsLoad(l, choice.sourcesAllow, choice.admitted); }
    hide StepCleanup, CleanupFault, StepLeave, StepAfter, Verdict;
  }

  lemma StepLoads(l: Local, choice: Choice)
    requires Ok(l) && EnabledLocal(l, choice)
    ensures LoadStep(l, StepLocal(l, choice))
  {
    hide *;
    if l.call.pc.Begin? {
      BeginLoads(l, choice);
    } else if l.call.pc.Body? {
      BodyLoads(l, choice);
    } else {
      RestLoads(l, choice);
    }
  }

  /** What other events do to a call's entry. */
  lemma OthersLoad(w: World, e: Event, c: CallId)
    requires Inv(w) && Enabled(w, e) && c in w.calls && !(e.Go? && e.c == c)
    ensures var w' := Apply(w, e);
      && WellFormed(w') && c in w'.calls && w'.calls[c] == w.calls[c]
      && (w.calls[c].id.Some? ==>
            var q, entry, entry' := w.calls[c].id.value, LocalOf(w, c).slot.entry, LocalOf(w', c).slot.entry;
            if e.Work? && e.q == q then
              MayWork(w.slots[q], e.move) && entry.Some? && entry' == Some(Worked(entry.value, e.move))
            else entry'.Some? == entry.Some? && (entry.Some? ==> SameLoad(entry.value, entry'.value)))
  {
    hide Ok, StepLocal, EnabledLocal;
    ApplyKeepsInv(w, e);
    if e.Go? && w.calls[c].id.Some? { OtherQueriesUntouched(w, e.c, e.choice, w.calls[c].id.value); }
  }

  /** Books that an event of no worker of the query leaves as they are. */
  lemma BooksStay(es: seq<Event>, n: nat, q: QueryId, a: Entry, b: Entry)
    requires n < |es| && !(es[n].Work? && es[n].q == q)
    ensures NoWork(es, n, q) ==> NoWork(es, n + 1, q)
    ensures NoWork(es, n, q) && b.Idle() ==> Balanced(es, n + 1, q, b)
    ensures Balanced(es, n, q, a) && SameLoad(a, b) ==> Balanced(es, n + 1, q, b)
  {
    CountSteps(es, n, q);
    hide Count;
  }

  lemma WorkBalances(es: seq<Event>, n: nat, q: QueryId, move: WorkMove, slot: Slot)
    requires n < |es| && es[n] == Work(q, move) && MayWork(slot, move) && Balanced(es, n, q, slot.entry.value)
    ensures Balanced(es, n + 1, q, Worked(slot.entry.value, move))
  {
    CountSteps(es, n, q);
    hide Count;
  }

  lemma OwnStepBalances(ws: seq<World>, es: seq<Event>, n: nat, c: CallId)
    requires IsRun(ws, es) && n < |es| && Inv(ws[n]) && c in ws[n].calls && WorkOk(ws, es, n, c)
    requires es[n].Go? && es[n].c == c && !Granting(ws[n], es[n])
    ensures WellFormed(ws[n + 1]) && c in ws[n + 1].calls && WorkOk(ws, es, n + 1, c)
  {
    hide Ok, Apply, StepLocal, EnabledLocal, Balanced, NoWork, SameLoad;
    StepLands(ws[n], c, es[n].choice);
    var l, l' := LocalOf(ws[n], c), LocalOf(ws[n + 1], c);
    StepLoads(l, es[n].choice);
    if l.call.id.Some? {
      BooksStay(es, n, l.call.id.value, EntryOf(l.slot), EntryOf(l'.slot));
    }
  }

  lemma OtherStepBalances(ws: seq<World>, es: seq<Event>, n: nat, c: CallId)
    requires IsRun(ws, es) && n < |es| && Inv(ws[n]) && c in ws[n].calls && WorkOk(ws, es, n, c)
    requires !(es[n].Go? && es[n].c == c)
    ensures WellFormed(ws[n + 1]) && c in ws[n + 1].calls && WorkOk(ws, es, n + 1, c)
  {
    hide Ok, Apply, Balanced, NoWork, SameLoad, Worked, MayWork;
    OthersLoad(ws[n], es[n], c);
    var l, l' := LocalOf(ws[n], c), LocalOf(ws[n + 1], c);
    if l.call.id.Some? {
      var q := l.call.id.value;
      if es[n].Work? && es[n].q == q {
        WorkBalances(es, n, q, es[n].move, ws[n].slots[q]);
      } else {
        BooksStay(es, n, q, EntryOf(l.slot), EntryOf(l'.slot));
      }
    }
  }

  lemma GrantBalances(ws: seq<World>, es: seq<Event>, n: nat, c: CallId)
    requires IsRun(ws, es) && n < |es| && Inv(ws[n]) && es[n].Go? && es[n].c == c && Granting(ws[n], es[n])
    ensures WellFormed(ws[n + 1]) && c in ws[n + 1].calls && WorkOk(ws, es, n + 1, c)
  {
    hide Ok, Apply, NoWork;
    NoWorkBeforeTicket(ws, es, n, ws[n].next);
    BooksStay(es, n, ws[n].next, Entry(true, 0, 0, 0, false), Entry(true, 0, 0, 0, false));
    GrantPlaces(ws[n], c);
    GrantApplies(ws[n], es[n]);
    GrantIsEmpty(ws[n], c);
  }

  lemma GrantIsEmpty(w: World, c: CallId)
    requires Inv(w) && c in w.calls && w.calls[c].pc == Begin(AwaitPermit)
    ensures var w' := Grant(w, c); WellFormed(w') && c in w'.calls && LocalOf(w', c).slot.entry.None?
  {
    hide Ok;
    GrantPlaces(w, c);
  }

  /**
    In every run what is in flight for a query with an open or shut gate is exactly what its workers
    submitted, transferred and borrowed, less what they withdrew, settled and returned.
   */
  lemma {:induction false} WorkIsConserved(ws: seq<World>, es: seq<Event>, n: nat, c: CallId)
    requires IsRun(ws, es) && n <= |es| && c in ws[n].calls
    ensures WellFormed(ws[n]) && WorkOk(ws, es, n, c)
    ensures var l := LocalOf(ws[n], c);
      l.call.id.Some? && l.slot.entry.Some? ==> Balanced(es, n, l.call.id.value, l.slot.entry.value)
    decreases n
  {
    hide Ok, Apply, Enabled, Balanced, NoWork;
    if n == 0 {
      assert false;
    }
    var w, e := ws[n - 1], es[n - 1];
    RunKeepsInv(ws, es, n - 1);
    RunKeepsInv(ws, es, n);
    MoverExists(w, e);
    if c !in w.calls {
      OthersKeepCall(w, e, c);
      NewHasNoTicket(e.info);
    } else if e.Go? && e.c == c {
      if Granting(w, e) {
        GrantBalances(ws, es, n - 1, c);
      } else {
        WorkIsConserved(ws, es, n - 1, c);
        OwnStepBalances(ws, es, n - 1, c);
      }
    } else {
      WorkIsConserved(ws, es, n - 1, c);
      OtherStepBalances(ws, es, n - 1, c);
    }
  }

  lemma NewHasNoTicket(info: Info)
    ensures NewCall(info).id.None?
  {
  }

  /** New work enters exactly while the gate is open and the scans are there; what is in flight can always end. */
  lemma GatesAdmitWork(w: World, q: QueryId, e: Entry)
    requires WellFormed(w) && q in w.slots && w.slots[q].entry == Some(e)
    ensures Enabled(w, Work(q, Submit)) <==> e.open && w.slots[q].scans
    ensures Enabled(w, Work(q, Borrow)) <==> e.open && w.slots[q].scans
    ensures !e.Idle() <==>
      Enabled(w, Work(q, Withdraw)) || Enabled(w, Work(q, Settle)) || Enabled(w, Work(q, Return))
    ensures Enabled(w, Work(q, Transfer)) <==> Enabled(w, Work(q, Withdraw))
  {
  }

  // ---------------------------------------------------------- after a fatal error

  lemma FatalStep(w: World, e: Event, c: CallId)
    requires Inv(w) && Enabled(w, e) && c in w.calls && w.fatal && LocalOf(w, c).slot.entry.None?
    ensures var w' := Apply(w, e);
      WellFormed(w') && c in w'.calls && LocalOf(w', c).slot.entry.None?
  {
    hide Ok, StepLocal, EnabledLocal, Apply;
    if e.Go? && e.c == c {
      if Granting(w, e) {
        GrantApplies(w, e);
        GrantIsEmpty(w, c);
      } else {
        StepLands(w, c, e.choice);
        StepLoads(LocalOf(w, c), e.choice);
      }
    } else {
      OthersLoad(w, e, c);
      if w.calls[c].id.None? { NoTicketNoEntry(w, e, c); }
    }
  }

  lemma NoTicketNoEntry(w: World, e: Event, c: CallId)
    requires WellFormed(w) && Enabled(w, e) && c in w.calls && w.calls[c].id.None?
    requires WellFormed(Apply(w, e)) && c in Apply(w, e).calls && Apply(w, e).calls[c] == w.calls[c]
    ensures LocalOf(Apply(w, e), c).slot.entry.None?
  {
    hide Apply;
  }

  /** Once a fatal error is latched, no query that is not registered is ever registered. */
  lemma {:induction false} FatalStopsRegistration(ws: seq<World>, es: seq<Event>, i: nat, n: nat, c: CallId)
    requires IsRun(ws, es) && i <= n <= |es| && ws[i].fatal && c in ws[i].calls
    requires WellFormed(ws[i]) && LocalOf(ws[i], c).slot.entry.None?
    ensures WellFormed(ws[n]) && c in ws[n].calls && LocalOf(ws[n], c).slot.entry.None?
    decreases n
  {
    hide Ok, Apply, Enabled;
    if i < n {
      FatalStopsRegistration(ws, es, i, n - 1, c);
      LatchNeverClears(ws, es, i, n - 1);
      RunKeepsInv(ws, es, n - 1);
      FatalStep(ws[n - 1], es[n - 1], c);
    }
  }

  // --------------------------------------------------------------- quiet before the end

  predicate Completes(pc: Pc) {
    pc == Body(Execute) || (pc.Body? && pc.body.Engine? && pc.body.job == Completing)
  }

  /** The step ends a retirement that was not cut short by a fault. */
  predicate EndsRetirement(l: Local, choice: Choice, l': Local) {
    || (Completes(l.call.pc) && Swallowed(l'.call.pc))
    || (choice == Proceed && Swallowed(l.call.pc) && !Swallowed(l'.call.pc))
    || (choice == Proceed && l.call.pc.Cleanup? && l.call.pc.cleanup.BestEffort? && l'.call.pc.Leave?)
  }

  lemma RetirementIsQuiet(l: Local, choice: Choice)
    requires Ok(l) && EnabledLocal(l, choice) && EndsRetirement(l, choice, StepLocal(l, choice))
    ensures Quiet(StepLocal(l, choice).slot)
  {
  }

  /**
    Whenever the engine's teardown follows a completed query, the engine lets go of its plan, or a
    window leaves after a best-effort retirement, and no fault cut that short, the query is quiet: its gate
    is shut, and no producer, submission or lease is left.
   */
  lemma QuietBeforeTheEnd(ws: seq<World>, es: seq<Event>, i: nat, c: CallId, choice: Choice)
    requires IsRun(ws, es) && i < |es| && es[i] == Go(c, choice) && c in ws[i].calls && c in ws[i + 1].calls
    requires WellFormed(ws[i]) && WellFormed(ws[i + 1])
    requires EndsRetirement(LocalOf(ws[i], c), choice, LocalOf(ws[i + 1], c))
    ensures Quiet(LocalOf(ws[i + 1], c).slot)
  {
    hide Ok, Apply, StepLocal, EnabledLocal, Quiet;
    RunKeepsInv(ws, es, i);
    if Granting(ws[i], es[i]) {
      BeginEndsNothing(LocalOf(ws[i], c), choice, LocalOf(ws[i + 1], c));
    } else {
      StepLands(ws[i], c, choice);
      RetirementIsQuiet(LocalOf(ws[i], c), choice);
    }
  }

  lemma BeginEndsNothing(l: Local, choice: Choice, l': Local)
    requires l.call.pc.Begin?
    ensures !EndsRetirement(l, choice, l')
  {
  }

  // ------------------------------------------------- refusals and failed beginnings

  /** A window the runtime refused: the failure it reports is that the runtime is unavailable. */
  predicate RefusedOutcome(call: Call) {
    || Refusing(call.pc) || call.pc == ConstructorThrew(Unavailable)
    || ((call.pc == CountFailure || call.pc == Decide || call.pc == Replaying || call.pc == CallThrew)
        && call.out.failure == Some(Unavailable))
  }

  /** A window whose begin failed: it reports no failure, and the call throws. */
  predicate BeginFailedOutcome(call: Call) {
    || ((call.pc.Cleanup? || call.pc.Leave?) && call.pc.path == OnBegin)
    || call.pc == ConstructorThrew(BeginFailure)
    || (call.pc == CallThrew && call.out.failure == None)
  }

  lemma OutcomeSteps(l: Local, choice: Choice)
    requires Ok(l) && EnabledLocal(l, choice)
    ensures RefusedOutcome(l.call) ==> RefusedOutcome(StepLocal(l, choice).call)
    ensures BeginFailedOutcome(l.call) ==> BeginFailedOutcome(StepLocal(l, choice).call)
  {
    hide SqlRewrite.Rewritten;
  }

  lemma OutcomeStays(w: World, e: Event, c: CallId)
    requires Inv(w) && Enabled(w, e) && c in w.calls
    ensures c in Apply(w, e).calls
    ensures RefusedOutcome(w.calls[c]) ==> RefusedOutcome(Apply(w, e).calls[c])
    ensures BeginFailedOutcome(w.calls[c]) ==> BeginFailedOutcome(Apply(w, e).calls[c])
  {
    hide Ok, StepLocal, EnabledLocal, Apply;
    if e.Go? && e.c == c {
      if Granting(w, e) {
        GrantApplies(w, e);
        GrantPlaces(w, c);
      } else {
        StepLands(w, c, e.choice);
        OutcomeSteps(LocalOf(w, c), e.choice);
      }
    } else {
      OthersKeepCall(w, e, c);
    }
  }

  /**
    A refused window reaches the replay decision, if at all, as unavailable, and then stays so; one
    whose begin failed never reaches it, and its call can only throw.
   */
  lemma {:induction false} RefusalsAndBeginFailures(ws: seq<World>, es: seq<Event>, i: nat, n: nat, c: CallId)
    requires IsRun(ws, es) && i <= n <= |es| && c in ws[i].calls
    ensures c in ws[n].calls
    ensures Refusing(ws[i].calls[c].pc) ==> RefusedOutcome(ws[n].calls[c])
    ensures ws[i].calls[c].pc.Leave? && ws[i].calls[c].pc.path == OnBegin ==> BeginFailedOutcome(ws[n].calls[c])
    decreases n
  {
    hide Ok, Apply, Enabled;
    if i < n {
      RefusalsAndBeginFailures(ws, es, i, n - 1, c);
      RunKeepsInv(ws, es, n - 1);
      OutcomeStays(ws[n - 1], es[n - 1], c);
    }
  }
}
