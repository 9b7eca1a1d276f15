/**
  What every run of the execution-window protocol guarantees, whatever the interleaving of
  calls, workers and faults.
 */
module ExecutionRuns {
  import opened Basics
  import opened ExecutionWindow
  import SqlCallText
  import SqlRewrite

  ghost predicate IsRun(ws: seq<World>, es: seq<Event>) {
    && |ws| == |es| + 1 && ws[0] == INITIAL
    && forall i | 0 <= i < |es| ::
         WellFormed(ws[i]) && Enabled(ws[i], es[i]) && ws[i + 1] == Apply(ws[i], es[i])
  }

  lemma {:induction false} RunKeepsInv(ws: seq<World>, es: seq<Event>, i: nat)
    requires IsRun(ws, es) && i < |ws|
    ensures Inv(ws[i])
    decreases i
  {
    hide Ok, Apply, Enabled;
    if i > 0 {
      RunKeepsInv(ws, es, i - 1);
      ApplyKeepsInv(ws[i - 1], es[i - 1]);
    }
  }

  // ------------------------------------------------------ permit, entry and flag

  /** The constructor threw, or `finish()` or the destructor has left the window. */
  predicate Over(call: Call) {
    match call.pc
    case Begin(_) | Body(_) | Cleanup(_, _) | Leave(_, _) => false
    case Destructor => call.scope != Active
    case _ => true
  }

  lemma OverIsOutside(l: Local)
    ensures Ok(l) && Over(l.call) ==>
              && !l.slot.permit && !l.slot.active && !OwnsFlag(l.call)
              && l.call.past.releases == if l.call.id.Some? then 1 else 0
  {
  }

  /**
    Once a window is over its permit has been released exactly once if it was ever granted, its
    active entry is gone, and its connection's flag is down or up for another call.
   */
  lemma WindowsGiveBack(ws: seq<World>, es: seq<Event>, i: nat, c: CallId)
    requires IsRun(ws, es) && i < |ws| && c in ws[i].calls && Over(ws[i].calls[c])
    ensures WellFormed(ws[i])
    ensures var l := LocalOf(ws[i], c);
            && !l.slot.permit && !l.slot.active
            && l.call.past.releases == (if l.call.id.Some? then 1 else 0)
            && (l.env.flag ==> ws[i].flags[l.call.info.connection] != c)
  {
    hide Ok, Apply, Enabled;
    RunKeepsInv(ws, es, i);
    OverIsOutside(LocalOf(ws[i], c));
  }

  /** The begin has been entered and the window has not been left. */
  predicate InsideWindow(call: Call) {
    match call.pc
    case Begin(b) => BeginRank(b) >= 4
    case Body(_) | Cleanup(_, _) => true
    case Leave(_, v) => v == EraseActive
    case Destructor => call.scope == Active
    case _ => false
  }

  /** A connection with Sirius state never has two windows open. */
  lemma NoTwoWindowsOnAConnection(ws: seq<World>, es: seq<Event>, i: nat, c: CallId, d: CallId)
    requires IsRun(ws, es) && i < |ws| && c in ws[i].calls && d in ws[i].calls && c != d
    requires ws[i].calls[c].info.hasState && ws[i].calls[d].info.hasState
    requires ws[i].calls[c].info.connection == ws[i].calls[d].info.connection
    ensures !(InsideWindow(ws[i].calls[c]) && InsideWindow(ws[i].calls[d]))
  {
    hide Ok, Apply, Enabled;
    RunKeepsInv(ws, es, i);
    assert InsideWindow(ws[i].calls[c]) ==> Engaged(ws[i].calls[c]);
    assert InsideWindow(ws[i].calls[d]) ==> Engaged(ws[i].calls[d]);
  }

  // ----------------------------------------------------------------- the latches

  predicate Unhealthy(w: World) {
    w.latch || w.fatal
  }

  lemma LatchesStay(w: World, e: Event)
    requires Inv(w) && Enabled(w, e)
    ensures w.latch ==> Apply(w, e).latch
    ensures w.fatal ==> Apply(w, e).fatal
  {
    hide Ok;
    if e.Go? && !Granting(w, e) { StepFlag(LocalOf(w, e.c), e.choice); }
  }

  /** No run ever clears the health latch. */
  lemma {:induction false} LatchNeverClears(ws: seq<World>, es: seq<Event>, i: nat, j: nat)
    requires IsRun(ws, es) && i <= j < |ws|
    ensures (ws[i].latch ==> ws[j].latch) && (ws[i].fatal ==> ws[j].fatal)
    decreases j
  {
    hide Ok, Apply, Enabled;
    if i < j {
      LatchNeverClears(ws, es, i, j - 1);
      RunKeepsInv(ws, es, j - 1);
      LatchesStay(ws[j - 1], es[j - 1]);
    }
  }

  lemma FailedCleanupLatched(l: Local)
    ensures Ok(l) && l.call.past.cleanupFailed && !l.slot.permit ==> l.env.latch
  {
  }

  /** A failed mandatory cleanup has set the latch by the time its window's permit is released. */
  lemma LatchBeforePermit(ws: seq<World>, es: seq<Event>, i: nat, c: CallId)
    requires IsRun(ws, es) && i < |ws| && c in ws[i].calls && ws[i].calls[c].past.cleanupFailed
    ensures WellFormed(ws[i])
    ensures !LocalOf(ws[i], c).slot.permit ==> ws[i].latch
  {
    hide Ok, Apply, Enabled;
    RunKeepsInv(ws, es, i);
    FailedCleanupLatched(LocalOf(ws[i], c));
  }

  // ---------------------------------------------- windows after the latch register nothing

  lemma HealthCheckPasses(l: Local, choice: Choice)
    requires Ok(l) && EnabledLocal(l, choice)
    ensures StepLocal(l, choice).call.past.passedHealth ==> l.call.past.passedHealth || l.env.Healthy()
  {
  }

  predicate Unchecked(w: World, c: CallId) {
    c in w.calls ==> !w.calls[c].past.passedHealth
  }

  lemma UncheckedStays(w: World, e: Event, c: CallId)
    requires Inv(w) && Enabled(w, e) && Unhealthy(w) && Unchecked(w, c)
    ensures Unchecked(Apply(w, e), c)
  {
    hide Ok, StepLocal, EnabledLocal;
    if e.Go? && e.c == c && !Granting(w, e) { HealthCheckPasses(LocalOf(w, c), e.choice); }
  }

  lemma {:induction false} UncheckedForever(ws: seq<World>, es: seq<Event>, i: nat, j: nat, c: CallId)
    requires IsRun(ws, es) && i <= j < |ws| && Unhealthy(ws[i]) && Unchecked(ws[i], c)
    ensures Unchecked(ws[j], c)
    decreases j
  {
    hide Ok, Apply, Enabled;
    if i < j {
      UncheckedForever(ws, es, i, j - 1, c);
      RunKeepsInv(ws, es, j - 1);
      LatchNeverClears(ws, es, i, j - 1);
      UncheckedStays(ws[j - 1], es[j - 1], c);
    }
  }

  lemma UncheckedIsUnregistered(l: Local)
    requires Ok(l) && !l.call.past.passedHealth
    ensures !Registered(l.slot)
  {
  }

  /** A window whose health check comes after a latch never registers anything. */
  lemma LateWindowsRegisterNothing(ws: seq<World>, es: seq<Event>, i: nat, j: nat, c: CallId)
    requires IsRun(ws, es) && i <= j < |ws| && Unhealthy(ws[i]) && Unchecked(ws[i], c) && c in ws[j].calls
    ensures WellFormed(ws[j]) && !Registered(LocalOf(ws[j], c).slot)
  {
    hide Ok, Apply, Enabled;
    UncheckedForever(ws, es, i, j, c);
    RunKeepsInv(ws, es, j);
    UncheckedIsUnregistered(LocalOf(ws[j], c));
  }

  // ----------------------------------------------------------- releasing a query

  /** A step either leaves the release history alone, or adds the next step while all is quiet. */
  predicate ReleaseStepOk(l: Local, l': Local) {
    || l'.call.past.released == l.call.past.released
    || (&& l.call.pc.Cleanup? && l.call.pc.cleanup.Release?
        && l'.call.past.released == l.call.past.released + [l.call.pc.cleanup.rstep]
        && Index(l.call.pc.cleanup.rstep) == |l.call.past.released|
        && Quiet(l.slot))
  }

  lemma ReleaseStepShape(l: Local, choice: Choice)
    ensures Ok(l) && EnabledLocal(l, choice) ==> ReleaseStepOk(l, StepLocal(l, choice))
  {
  }

  /**
    Query state is released one step at a time in the fixed order, each step at most once, and
    only when the gate is shut and no submission, work or scan producer is left.
   */
  lemma ReleasedInOrderAndQuiet(ws: seq<World>, es: seq<Event>, i: nat, c: CallId)
    requires IsRun(ws, es) && i < |es| && c in ws[i].calls
    ensures WellFormed(ws[i]) && WellFormed(ws[i + 1]) && c in ws[i + 1].calls
    ensures ReleaseStepOk(LocalOf(ws[i], c), LocalOf(ws[i + 1], c))
    ensures InOrder(ws[i].calls[c].past.released)
    ensures FreedUpTo(LocalOf(ws[i], c).slot, |ws[i].calls[c].past.released|)
  {
    hide Ok, StepLocal, EnabledLocal, SameResources;
    RunKeepsInv(ws, es, i);
    RunKeepsInv(ws, es, i + 1);
    OkIsCommon(LocalOf(ws[i], c));
    var w, e := ws[i], es[i];
    if e.Go? && e.c == c {
      if !Granting(w, e) {
        ReleaseStepShape(LocalOf(w, c), e.choice);
        StepLands(w, c, e.choice);
      }
    } else {
      OthersKeepResources(w, e, c);
    }
  }

  lemma OkIsCommon(l: Local)
    requires Ok(l)
    ensures Common(l)
  {
  }

  lemma LeaseIsClean(l: Local)
    requires Ok(l) && l.call.lease == Released
    ensures !Registered(l.slot) && |l.call.past.released| == ALL_STEPS
  {
  }

  /** A `released` lease means the keys are gone and the registry entry is closed. */
  lemma ReleasedMeansClean(ws: seq<World>, es: seq<Event>, i: nat, c: CallId)
    requires IsRun(ws, es) && i < |ws| && c in ws[i].calls && ws[i].calls[c].lease == Released
    ensures WellFormed(ws[i])
    ensures var slot := LocalOf(ws[i], c).slot;
            slot.keys == 0 && slot.entry.None? && !slot.scans && !slot.repositories && !slot.creator
  {
    hide Ok, Apply, Enabled;
    RunKeepsInv(ws, es, i);
    LeaseIsClean(LocalOf(ws[i], c));
  }

  predicate SameResources(a: Slot, b: Slot) {
    && a.entry.Some? == b.entry.Some? && PlanRetained(a) == PlanRetained(b)
    && a.repositories == b.repositories && a.creator == b.creator && a.scans == b.scans && a.keys == b.keys
  }

  /** `l'` has failed its cleanup, and what it still holds is what `l` held. */
  predicate Frozen(l: Local, l': Local) {
    && (l'.call.past.cleanupFailed ==> SameResources(l.slot, l'.slot))
    && (l.call.past.cleanupFailed ==> l'.call.past.cleanupFailed)
  }

  lemma EarlyFreezes(l: Local, choice: Choice)
    requires (l.call.pc.Begin? || l.call.pc.Body?) && Ok(l) && EnabledLocal(l, choice)
    ensures !StepLocal(l, choice).call.past.cleanupFailed && !l.call.past.cleanupFailed
  {
  }

  lemma CleanupFreezes(l: Local, path: Path, c: CleanupStep)
    requires l.call.pc == Cleanup(path, c) && Ok(l)
    ensures Frozen(l, StepCleanup(l, path, c)) && Frozen(l, CleanupFault(l, path, c))
  {
  }

  lemma LeaveFreezes(l: Local, path: Path, v: LeaveStep)
    ensures Frozen(l, StepLeave(l, path, v))
  {
  }

  lemma AfterFreezes(l: Local)
    ensures Frozen(l, StepAfter(l))
  {
    hide Ok;
  }

  lemma VerdictFreezes(l: Local, sourcesAllow: bool, admitted: bool)
    ensures Frozen(l, At(l, Verdict(l.call.info, l.call.out, sourcesAllow, admitted)))
  {
  }

  lemma StepFreezes(l: Local, choice: Choice)
    requires Ok(l) && EnabledLocal(l, choice)
    ensures Frozen(l, StepLocal(l, choice))
  {
    hide Ok, StepBegin, StepBody, StepCleanup, StepLeave, StepAfter, BeginFault, BodyFault, CleanupFault, SameResources;
    if l.call.pc.Begin? || l.call.pc.Body? { EarlyFreezes(l, choice); }
    AfterFreezes(l);
    if l.call.pc.Cleanup? { CleanupFreezes(l, l.call.pc.path, l.call.pc.cleanup); }
    if l.call.pc.Leave? { LeaveFreezes(l, l.call.pc.path, l.call.pc.leave); }
    if choice.Judge? { VerdictFreezes(l, choice.sourcesAllow, choice.admitted); }
  }

  /** A step of one call leaves every other query's slot exactly as it was. */
  lemma OtherQueriesUntouched(w: World, c: CallId, choice: Choice, q: QueryId)
    requires Inv(w) && Enabled(w, Go(c, choice)) && q in w.slots && w.calls[c].id != Some(q)
    ensures var w' := Apply(w, Go(c, choice));
            q in w'.slots && w'.slots[q] == w.slots[q]
  {
    hide Ok, StepLocal, EnabledLocal;
    if !Granting(w, Go(c, choice)) { StepFlag(LocalOf(w, c), choice); }
  }

  /** Between its own steps a call keeps its state, and its slot keeps its resources. */
  lemma OthersKeepResources(w: World, e: Event, c: CallId)
    requires Inv(w) && Enabled(w, e) && c in w.calls && !(e.Go? && e.c == c)
    ensures var w' := Apply(w, e);
            && WellFormed(w') && c in w'.calls && w'.calls[c] == w.calls[c]
            && SameResources(LocalOf(w, c).slot, LocalOf(w', c).slot)
  {
    hide Ok, StepLocal, EnabledLocal;
    ApplyKeepsInv(w, e);
    if e.Go? && w.calls[c].id.Some? { OtherQueriesUntouched(w, e.c, e.choice, w.calls[c].id.value); }
  }

  /** From the step that fails a cleanup on, nothing more of that query is released. */
  lemma FailureLeavesLaterStepsUndone(ws: seq<World>, es: seq<Event>, i: nat, c: CallId)
    requires IsRun(ws, es) && i < |es| && c in ws[i].calls && c in ws[i + 1].calls
    requires ws[i + 1].calls[c].past.cleanupFailed
    ensures WellFormed(ws[i]) && WellFormed(ws[i + 1])
    ensures SameResources(LocalOf(ws[i], c).slot, LocalOf(ws[i + 1], c).slot)
  {
    hide Ok, StepLocal, EnabledLocal, SameResources;
    RunKeepsInv(ws, es, i);
    RunKeepsInv(ws, es, i + 1);
    var w, e := ws[i], es[i];
    if e.Go? && e.c == c {
      if Granting(w, e) { GrantHasNoFailure(w, c); } else {
        StepFreezes(LocalOf(w, c), e.choice);
        StepLands(w, c, e.choice);
      }
    } else {
      OthersKeepResources(w, e, c);
    }
  }

  lemma GrantHasNoFailure(w: World, c: CallId)
    requires Inv(w) && c in w.calls && w.calls[c].pc == Begin(AwaitPermit)
    ensures !Grant(w, c).calls[c].past.cleanupFailed
  {
    hide Ok;
    GrantPlaces(w, c);
    BeginHasNoFailure(LocalOf(w, c));
  }

  lemma BeginHasNoFailure(l: Local)
    requires Ok(l) && l.call.pc.Begin?
    ensures !l.call.past.cleanupFailed
  {
  }

  /** The local step is what the world shows afterwards. */
  lemma StepLands(w: World, c: CallId, choice: Choice)
    requires Inv(w) && Enabled(w, Go(c, choice)) && !Granting(w, Go(c, choice))
    ensures var w' := Apply(w, Go(c, choice));
            WellFormed(w') && c in w'.calls && LocalOf(w', c) == StepLocal(LocalOf(w, c), choice)
  {
    hide Ok, StepLocal, EnabledLocal, FlagStep, Engaged, OwnsFlag;
    var l := LocalOf(w, c);
    StepLocalOk(l, choice);
    StepFlag(l, choice);
    EngagesAtTheCheck(l, StepLocal(l, choice));
    MovesLocals(w, c, StepLocal(l, choice));
  }

  /** Whatever may still use a plan keeps it retained by the registry. */
  lemma BorrowedPlansStayAlive(ws: seq<World>, es: seq<Event>, i: nat, c: CallId)
    requires IsRun(ws, es) && i < |ws| && c in ws[i].calls
    ensures WellFormed(ws[i])
    ensures PlanBorrowed(LocalOf(ws[i], c).slot) ==> PlanRetained(LocalOf(ws[i], c).slot)
  {
    hide Ok, Apply, Enabled;
    RunKeepsInv(ws, es, i);
    OkIsCommon(LocalOf(ws[i], c));
  }

  // ------------------------------------------------------------------ CPU replay

  lemma ReplayingOk(l: Local)
    requires Ok(l) && l.call.pc == Replaying
    ensures && !l.slot.permit && !l.slot.active && !l.slot.completion && !Registered(l.slot) && !OwnsFlag(l.call)
      && l.call.out.failure.Some? && l.call.out.failure != Some(Interrupt)
      && l.call.info.fallback && !OwnedS3(l.call.info) && l.call.past.counted == 1
  {
  }

  lemma OthersKeepCall(w: World, e: Event, c: CallId)
    requires Inv(w) && Enabled(w, e) && !(e.Go? && e.c == c)
    ensures c in w.calls ==> c in Apply(w, e).calls && Apply(w, e).calls[c] == w.calls[c]
    ensures c !in w.calls && c in Apply(w, e).calls ==> e.Start? && Apply(w, e).calls[c] == NewCall(e.info)
  {
    hide Ok, StepLocal;
  }

  lemma MoverExists(w: World, e: Event)
    requires WellFormed(w) && Enabled(w, e)
    ensures e.Go? ==> e.c in w.calls
  {
  }

  lemma GrantApplies(w: World, e: Event)
    requires WellFormed(w) && Enabled(w, e) && Granting(w, e)
    ensures Apply(w, e) == Grant(w, e.c)
  {
  }

  /** The step that starts the replay is a judgement that both the sources and the connection allowed. */
  lemma ReplayingBegins(l: Local, choice: Choice)
    requires EnabledLocal(l, choice) && StepLocal(l, choice).call.pc == Replaying
    ensures choice == Judge(true, true)
  {
    hide SqlRewrite.Rewritten;
  }

  lemma GrantDoesNotReplay(w: World, c: CallId)
    requires Inv(w) && c in w.calls && w.calls[c].pc == Begin(AwaitPermit)
    ensures Grant(w, c).calls[c].pc != Replaying
  {
    hide Ok;
  }

  lemma {:induction false} ReplayWasAllowed(ws: seq<World>, es: seq<Event>, i: nat, c: CallId)
    requires IsRun(ws, es) && i < |ws| && c in ws[i].calls && ws[i].calls[c].pc == Replaying
    ensures Go(c, Judge(true, true)) in es[..i]
    decreases i
  {
    hide Ok, Apply, StepLocal;
    if i == 0 {
      assert false;
    }
    var w, e := ws[i - 1], es[i - 1];
    RunKeepsInv(ws, es, i - 1);
    assert e in es[..i];
    if e.Go? && e.c == c {
      if Granting(w, e) {
        GrantDoesNotReplay(w, c);
        GrantApplies(w, e);
      } else {
        StepLands(w, c, e.choice);
        ReplayingBegins(LocalOf(w, c), e.choice);
      }
    } else {
      OthersKeepCall(w, e, c);
      NewIsNotReplaying();
      ReplayWasAllowed(ws, es, i - 1, c);
      assert es[..i - 1] <= es[..i];
    }
  }

  lemma NewIsNotReplaying()
    ensures forall info :: NewCall(info).pc != Replaying
  {
  }

  /**
    CPU replay starts only after a GPU failure that is no interrupt, with fallback enabled, counted
    once, and a judgement in which the sources and the connection allowed it; by then the query holds
    no permit, no active window, no keys and no registration, and its text holds no Sirius-owned S3 call.
   */
  lemma ReplayIsSafe(ws: seq<World>, es: seq<Event>, i: nat, c: CallId)
    requires IsRun(ws, es) && i < |ws| && c in ws[i].calls && ws[i].calls[c].pc == Replaying
    ensures WellFormed(ws[i])
    ensures var l := LocalOf(ws[i], c);
            && !l.slot.permit && !l.slot.active && l.slot.keys == 0 && !Registered(l.slot)
            && l.call.out.failure.Some? && l.call.out.failure != Some(Interrupt)
            && l.call.info.fallback && l.call.past.counted == 1
    ensures var tokens := SqlRewrite.Lex(ws[i].calls[c].info.query);
            forall k :: 0 <= k < |tokens| ==> !SqlRewrite.OwnedCallAt(false, tokens, k)
    ensures Go(c, Judge(true, true)) in es[..i]
  {
    ReplayWasAllowed(ws, es, i, c);
    hide Ok, Apply, Enabled, SqlRewrite.Lex, SqlRewrite.OwnedCallAt, SqlRewrite.Rewritten;
    RunKeepsInv(ws, es, i);
    ReplayingOk(LocalOf(ws[i], c));
    SqlRewrite.ReferencesExactlyOwnedCalls(ws[i].calls[c].info.query);
  }

  lemma DecidingOk(l: Local)
    requires Ok(l) && l.call.pc == Decide
    ensures && l.call.past.counted == 1 && l.call.out.failure.Some?
      && (l.call.out.leaseSeen == Released || l.call.out.leaseSeen == NotEntered)
  {
  }

  /** Each failure that reaches the replay decision was counted once, and no lease is still held there. */
  lemma DecisionSeesNoHeldLease(ws: seq<World>, es: seq<Event>, i: nat, c: CallId)
    requires IsRun(ws, es) && i < |ws| && c in ws[i].calls && ws[i].calls[c].pc == Decide
    ensures var call := ws[i].calls[c];
            && call.past.counted == 1 && call.out.failure.Some?
            && (call.out.leaseSeen == Released || call.out.leaseSeen == NotEntered)
  {
    hide Ok, Apply, Enabled;
    RunKeepsInv(ws, es, i);
    DecidingOk(LocalOf(ws[i], c));
  }

  /** The query text refers, somewhere outside comments and quotes, to a file Sirius owns. */
  ghost predicate RefersToOwnedS3(query: string) {
    exists p :: SqlCallText.CallStartsAt(query, p)
  }

  /** What the replay decision asks for. */
  ghost predicate MayReplay(call: Call, sourcesAllow: bool, admitted: bool) {
    && call.out.failure != Some(Interrupt)
    && call.info.fallback && sourcesAllow && admitted
    && !RefersToOwnedS3(call.info.query)
  }

  lemma JudgedOk(l: Local, sourcesAllow: bool, admitted: bool)
    requires Ok(l) && l.call.pc == Decide
    ensures StepLocal(l, Judge(sourcesAllow, admitted)).call.pc ==
            if MayReplay(l.call, sourcesAllow, admitted) then Replaying else CallThrew
    ensures StepLocal(l, Judge(sourcesAllow, admitted)).(call := l.call) == l
  {
    hide SqlRewrite.Rewritten, SqlCallText.CallStartsAt;
    DecidingOk(l);
    SqlCallText.ReferencesExactlyCalls(l.call.info.query);
  }

  /**
    Every judgement of a failed call ends in the replay exactly when the failure is no interrupt,
    fallback is on, the sources allow it, the connection admits it and the text refers to no owned
    file; in every other case the call throws.
   */
  lemma ReplayExactlyWhenAllowed(
    ws: seq<World>, es: seq<Event>, i: nat, c: CallId, sourcesAllow: bool, admitted: bool)
    requires IsRun(ws, es) && i < |es| && es[i] == Go(c, Judge(sourcesAllow, admitted))
    ensures c in ws[i].calls && c in ws[i + 1].calls && ws[i].calls[c].pc == Decide
    ensures ws[i + 1].calls[c].pc == Replaying || ws[i + 1].calls[c].pc == CallThrew
    ensures ws[i + 1].calls[c].pc == Replaying <==> MayReplay(ws[i].calls[c], sourcesAllow, admitted)
  {
    hide Ok, Apply, MayReplay, StepLocal;
    RunKeepsInv(ws, es, i);
    StepLands(ws[i], c, Judge(sourcesAllow, admitted));
    JudgedOk(LocalOf(ws[i], c), sourcesAllow, admitted);
  }
}
