/**
  How calls end, over every run: what a window holds while its body executes, which calls succeed,
  where a failure comes from, and exactly which steps set the two latches.
 */
module ExecutionOutcomes {
  import opened Basics
  import opened ExecutionWindow
  import opened ExecutionRuns
  import SqlRewrite

  // ------------------------------------------------------------ what a window holds

  lemma BodyHolds(l: Local)
    requires Ok(l) && l.call.pc.Body?
    ensures && l.slot.permit && l.slot.active && l.slot.completion && l.slot.entry.Some?
      && l.slot.repositories && l.slot.creator && l.call.past.passedHealth && l.call.past.releases == 0
      && (l.call.info.hasState ==> OwnsFlag(l.call) && Engaged(l.call) && l.env.flag)
      && (l.call.pc == Body(PrepareScans) || l.call.pc == Body(Execute) ==> PlanRetained(l.slot))
  {
  }

  lemma OwnerIsEngaged(call: Call)
    requires OwnsFlag(call)
    ensures Engaged(call)
  {
  }

  /**
    While a window's body executes it holds a permit it has not released, its active entry, its
    completion, its registry entry, repositories and task creator; it has passed the health check,
    and the flag of its connection is up in its own name.
   */
  lemma BodiesHoldWhatTheyUse(ws: seq<World>, es: seq<Event>, i: nat, c: CallId)
    requires IsRun(ws, es) && i < |ws| && c in ws[i].calls && ws[i].calls[c].pc.Body?
    ensures WellFormed(ws[i])
    ensures var l := LocalOf(ws[i], c);
            && l.slot.permit && l.slot.active && l.slot.completion && l.slot.entry.Some?
            && l.slot.repositories && l.slot.creator && l.call.past.passedHealth && l.call.past.releases == 0
            && (l.call.pc == Body(PrepareScans) || l.call.pc == Body(Execute) ==> PlanRetained(l.slot))
            && (l.call.info.hasState ==>
                  l.call.info.connection in ws[i].flags && ws[i].flags[l.call.info.connection] == c)
  {
    hide Ok, Apply, Enabled, OwnsFlag, Engaged;
    RunKeepsInv(ws, es, i);
    var l := LocalOf(ws[i], c);
    BodyHolds(l);
    if l.call.info.hasState {
      OwnerIsEngaged(ws[i].calls[ws[i].flags[l.call.info.connection]]);
    }
  }

  // -------------------------------------------------------------- calls that succeed

  /** On the way to completion: nothing thrown, nothing refused. */
  predicate Smooth(call: Call) {
    && call.raised == None && call.out.failure == None && !call.out.pending && !call.past.cleanupFailed
    && match call.pc
       case Begin(_) => true
       case Body(d) => d.Engine? ==> d.job != Quiescing
       case Cleanup(path, step) => path == OnFinish && step != Latch && !step.BestEffort?
       case Leave(path, _) => path == OnFinish
       case Destructor => call.scope == Finished
       case FinishReturned | EraseCompletion | Completed => true
       case _ => false
  }

  /** Neither nested nor refused at this step. */
  predicate Welcome(l: Local) {
    && (l.call.pc == Begin(CheckNested) ==> !(l.call.info.hasState && l.env.flag))
    && (l.call.pc.Begin? ==> l.env.Healthy())
  }

  lemma SmoothStepBegin(l: Local, choice: Choice)
    requires l.call.pc.Begin? && Ok(l) && Smooth(l.call) && EnabledLocal(l, choice) && !choice.Throw? && Welcome(l)
    ensures Smooth(StepLocal(l, choice).call)
  {
    hide SqlRewrite.Rewritten;
  }

  lemma SmoothStepBody(l: Local, choice: Choice)
    requires l.call.pc.Body? && Ok(l) && Smooth(l.call) && EnabledLocal(l, choice) && !choice.Throw? && Welcome(l)
    ensures Smooth(StepLocal(l, choice).call)
  {
    hide SqlRewrite.Rewritten;
  }

  lemma SmoothStepCleanup(l: Local, choice: Choice)
    requires l.call.pc.Cleanup? && Ok(l) && Smooth(l.call) && EnabledLocal(l, choice) && !choice.Throw? && Welcome(l)
    ensures Smooth(StepLocal(l, choice).call)
  {
    hide SqlRewrite.Rewritten;
  }

  lemma SmoothStepRest(l: Local, choice: Choice)
    requires !l.call.pc.Begin? && !l.call.pc.Body? && !l.call.pc.Cleanup?
    requires Ok(l) && Smooth(l.call) && EnabledLocal(l, choice) && !choice.Throw? && Welcome(l)
    ensures Smooth(StepLocal(l, choice).call)
  {
    hide SqlRewrite.Rewritten;
  }

  lemma SmoothStep(l: Local, choice: Choice)
    requires Ok(l) && Smooth(l.call) && EnabledLocal(l, choice) && !choice.Throw? && Welcome(l)
    ensures Smooth(StepLocal(l, choice).call)
  {
    hide *;
    if l.call.pc.Begin? {
      SmoothStepBegin(l, choice);
    } else if l.call.pc.Body? {
      SmoothStepBody(l, choice);
    } else if l.call.pc.Cleanup? {
      SmoothStepCleanup(l, choice);
    } else {
      SmoothStepRest(l, choice);
    }
  }

  lemma SmoothGrant(w: World, c: CallId)
    requires Inv(w) && c in w.calls && w.calls[c].pc == Begin(AwaitPermit) && Smooth(w.calls[c])
    ensures Smooth(Grant(w, c).calls[c])
  {
    hide Ok;
  }

  /** Up to `n`, call `c` took no faulty step and found no window open on its connection. */
  ghost predicate FaultFree(ws: seq<World>, es: seq<Event>, n: nat, c: CallId)
    requires IsRun(ws, es) && n <= |es|
  {
    forall j | 0 <= j < n && es[j].Go? && es[j].c == c ::
      && !es[j].choice.Throw?
      && (c in ws[j].calls && ws[j].calls[c].pc == Begin(CheckNested) && ws[j].calls[c].info.hasState ==>
            ws[j].calls[c].info.connection !in ws[j].flags)
  }

  lemma SmoothEvent(w: World, e: Event, c: CallId)
    requires Inv(w) && Enabled(w, e) && !Unhealthy(w)
    requires c in w.calls ==> Smooth(w.calls[c])
    requires e.Go? && e.c == c ==> !e.choice.Throw?
    requires e.Go? && e.c == c && w.calls[c].pc == Begin(CheckNested) && w.calls[c].info.hasState ==>
             w.calls[c].info.connection !in w.flags
    ensures c in Apply(w, e).calls ==> Smooth(Apply(w, e).calls[c])
  {
    hide Ok, StepLocal, Smooth;
    if e.Go? && e.c == c {
      if Granting(w, e) {
        SmoothGrant(w, c);
      } else {
        SmoothStep(LocalOf(w, c), e.choice);
        StepLands(w, c, e.choice);
      }
    } else {
      OthersKeepCall(w, e, c);
      if e.Start? { NewIsSmooth(e.info); }
    }
  }

  lemma NewIsSmooth(info: Info)
    ensures Smooth(NewCall(info))
  {
  }

  /**
    A call none of whose own steps throws, on a connection without an open window and a runtime no
    latch has stopped, never throws, never counts a failure and never reaches the replay decision.
   */
  lemma {:induction false} FaultFreeCallsSucceed(ws: seq<World>, es: seq<Event>, n: nat, c: CallId)
    requires IsRun(ws, es) && n <= |es| && FaultFree(ws, es, n, c) && !Unhealthy(ws[n])
    ensures c in ws[n].calls ==> Smooth(ws[n].calls[c])
    decreases n
  {
    hide Ok, Apply, Enabled, Smooth, Unhealthy;
    if n == 0 {
      assert ws[0] == INITIAL;
    } else {
      RunKeepsInv(ws, es, n - 1);
      StillHealthy(ws, es, n);
      FaultFreeCallsSucceed(ws, es, n - 1, c);
      assert Enabled(ws[n - 1], es[n - 1]) && ws[n] == Apply(ws[n - 1], es[n - 1]);
      MoverExists(ws[n - 1], es[n - 1]);
      SmoothEvent(ws[n - 1], es[n - 1], c);
    }
  }

  lemma StillHealthy(ws: seq<World>, es: seq<Event>, n: nat)
    requires IsRun(ws, es) && 0 < n <= |es| && !Unhealthy(ws[n])
    ensures !Unhealthy(ws[n - 1])
  {
    hide Ok, Apply, Enabled;
    LatchNeverClears(ws, es, n - 1, n);
  }

  // ---------------------------------------------------------------- calls that fail

  /** Something was thrown, and the call can no longer complete. */
  predicate Spoiled(call: Call) {
    && call.pc != Completed
    && (call.out.failure.Some? || call.out.pending || call.past.cleanupFailed
        || (call.raised.Some? && call.pc.Body? && call.pc.body.Engine?)
        || match call.pc
           case Cleanup(path, _) => path != OnFinish
           case Leave(path, _) => path != OnFinish
           case ConstructorThrew(_) | CountFailure | Decide | Replaying | CallThrew => true
           case _ => false)
  }

  /** Faults of the engine's own teardown are swallowed; only the latch shows them. */
  predicate Swallowed(pc: Pc) {
    pc.Body? && pc.body.Engine? && pc.body.job == Destroying
  }

  lemma ThrowSpoils(l: Local, kind: ErrorKind, fatal: bool)
    requires Ok(l) && CanThrow(l) && !Swallowed(l.call.pc)
    ensures Spoiled(ThrowLocal(l, kind, fatal).call)
  {
  }

  lemma SpoiledStaysBody(l: Local, choice: Choice)
    requires l.call.pc.Body? && Ok(l) && Spoiled(l.call) && EnabledLocal(l, choice)
    ensures Spoiled(StepLocal(l, choice).call)
  {
    hide SqlRewrite.Rewritten;
  }

  lemma SpoiledStaysCleanup(l: Local, choice: Choice)
    requires l.call.pc.Cleanup? && Ok(l) && Spoiled(l.call) && EnabledLocal(l, choice)
    ensures Spoiled(StepLocal(l, choice).call)
  {
    hide SqlRewrite.Rewritten;
  }

  lemma SpoiledStaysRest(l: Local, choice: Choice)
    requires !l.call.pc.Body? && !l.call.pc.Cleanup? && Ok(l) && Spoiled(l.call) && EnabledLocal(l, choice)
    ensures Spoiled(StepLocal(l, choice).call)
  {
    hide SqlRewrite.Rewritten;
  }

  lemma SpoiledStays(l: Local, choice: Choice)
    requires Ok(l) && Spoiled(l.call) && EnabledLocal(l, choice)
    ensures Spoiled(StepLocal(l, choice).call)
  {
    hide *;
    if l.call.pc.Body? {
      SpoiledStaysBody(l, choice);
    } else if l.call.pc.Cleanup? {
      SpoiledStaysCleanup(l, choice);
    } else {
      SpoiledStaysRest(l, choice);
    }
  }

  lemma SpoiledEvent(w: World, e: Event, c: CallId)
    requires Inv(w) && Enabled(w, e) && c in w.calls && Spoiled(w.calls[c])
    ensures c in Apply(w, e).calls && Spoiled(Apply(w, e).calls[c])
  {
    hide Ok, StepLocal;
    if e.Go? && e.c == c {
      if Granting(w, e) {
        BeginIsUnspoiled(LocalOf(w, c));
      } else {
        SpoiledStays(LocalOf(w, c), e.choice);
        StepLands(w, c, e.choice);
      }
    } else {
      OthersKeepCall(w, e, c);
    }
  }

  lemma BeginIsUnspoiled(l: Local)
    requires Ok(l) && l.call.pc.Begin?
    ensures !Spoiled(l.call)
  {
  }

  /** A call that threw, other than in the engine's teardown, never completes from there on. */
  lemma {:induction false} ThrownCallsNeverComplete(ws: seq<World>, es: seq<Event>, j: nat, n: nat, c: CallId)
    requires IsRun(ws, es) && j < n <= |es| && es[j].Go? && es[j].c == c && es[j].choice.Throw?
    requires c in ws[j].calls && !Swallowed(ws[j].calls[c].pc)
    ensures c in ws[n].calls && ws[n].calls[c].pc != Completed && Spoiled(ws[n].calls[c])
    decreases n
  {
    hide Ok, Apply, Spoiled, Swallowed;
    RunKeepsInv(ws, es, n - 1);
    if j == n - 1 {
      ThrowSpoils(LocalOf(ws[j], c), es[j].choice.kind, es[j].choice.fatal);
      StepLands(ws[j], c, es[j].choice);
      SpoiledIsNotComplete(ws[n].calls[c]);
    } else {
      ThrownCallsNeverComplete(ws, es, j, n - 1, c);
      SpoiledEvent(ws[n - 1], es[n - 1], c);
      SpoiledIsNotComplete(ws[n].calls[c]);
    }
  }

  lemma SpoiledIsNotComplete(call: Call)
    requires Spoiled(call)
    ensures call.pc != Completed
  {
  }

  // ------------------------------------------------------- where failures come from

  ghost predicate Threw(es: seq<Event>, n: nat, c: CallId, kind: ErrorKind)
    requires n <= |es|
  {
    exists j | 0 <= j < n :: es[j].Go? && es[j].c == c && es[j].choice.Throw? && es[j].choice.kind == kind
  }

  /** The call found a window open on its own connection. */
  ghost predicate Nested(ws: seq<World>, es: seq<Event>, n: nat, c: CallId)
    requires |ws| > |es| >= n
  {
    exists j | 0 <= j < n ::
      && es[j] == Go(c, Proceed) && c in ws[j].calls && ws[j].calls[c].pc == Begin(CheckNested)
      && ws[j].calls[c].info.hasState && ws[j].calls[c].info.connection in ws[j].flags
  }

  /** A thrown kind, a nested window, or a runtime that had been stopped. */
  ghost predicate Cause(ws: seq<World>, es: seq<Event>, n: nat, c: CallId, kind: ErrorKind)
    requires |ws| > |es| >= n
  {
    || Threw(es, n, c, kind)
    || (kind == Standard && Nested(ws, es, n, c))
    || (kind == Unavailable && Unhealthy(ws[n]))
  }

  predicate Refusing(pc: Pc) {
    pc.Leave? && pc.path == OnRefusal
  }

  predicate NestedStep(l: Local, choice: Choice) {
    choice == Proceed && l.call.pc == Begin(CheckNested) && l.call.info.hasState && l.env.flag
  }

  predicate Throws(choice: Choice, kind: ErrorKind) {
    choice.Throw? && choice.kind == kind
  }

  /** What one step may add to a call's exception, failure and way out. */
  predicate Accounted(l: Local, choice: Choice, l': Local) {
    && (l'.call.raised.Some? ==> l'.call.raised == l.call.raised || Throws(choice, l'.call.raised.value.kind))
    && (l'.call.out.failure.Some? ==>
          var kind := l'.call.out.failure.value;
          || l'.call.out.failure == l.call.out.failure || Throws(choice, kind)
          || (l.call.raised.Some? && l.call.raised.value.kind == kind)
          || (l.call.pc == ConstructorThrew(kind) && kind != BeginFailure))
    && (l'.call.pc.ConstructorThrew? && l'.call.pc.kind != BeginFailure ==>
          var kind := l'.call.pc.kind;
          Throws(choice, kind) || (kind == Standard && NestedStep(l, choice))
          || (kind == Unavailable && Refusing(l.call.pc)))
    && (Refusing(l'.call.pc) ==> Refusing(l.call.pc) || !l.env.Healthy())
  }

  lemma StepAccountsBegin(l: Local, choice: Choice)
    requires l.call.pc.Begin? && Ok(l) && EnabledLocal(l, choice)
    ensures Accounted(l, choice, StepLocal(l, choice))
  {
    hide SqlRewrite.Rewritten;
  }

  lemma StepAccountsBody(l: Local, choice: Choice)
    requires l.call.pc.Body? && Ok(l) && EnabledLocal(l, choice)
    ensures Accounted(l, choice, StepLocal(l, choice))
  {
    hide SqlRewrite.Rewritten;
  }

  lemma StepAccountsCleanup(l: Local, choice: Choice)
    requires l.call.pc.Cleanup? && Ok(l) && EnabledLocal(l, choice)
    ensures Accounted(l, choice, StepLocal(l, choice))
  {
    hide SqlRewrite.Rewritten;
  }

  lemma StepAccountsRest(l: Local, choice: Choice)
    requires !l.call.pc.Begin? && !l.call.pc.Body? && !l.call.pc.Cleanup? && Ok(l) && EnabledLocal(l, choice)
    ensures Accounted(l, choice, StepLocal(l, choice))
  {
    hide SqlRewrite.Rewritten;
  }

  lemma StepAccounts(l: Local, choice: Choice)
    requires Ok(l) && EnabledLocal(l, choice)
    ensures Accounted(l, choice, StepLocal(l, choice))
  {
    hide *;
    if l.call.pc.Begin? {
      StepAccountsBegin(l, choice);
    } else if l.call.pc.Body? {
      StepAccountsBody(l, choice);
    } else if l.call.pc.Cleanup? {
      StepAccountsCleanup(l, choice);
    } else {
      StepAccountsRest(l, choice);
    }
  }

  /** Every exception a call carries, and every failure it reports, has a cause. */
  ghost predicate Explained(ws: seq<World>, es: seq<Event>, n: nat, c: CallId)
    requires |ws| > |es| >= n && c in ws[n].calls
  {
    var call := ws[n].calls[c];
    && (call.raised.Some? ==> Threw(es, n, c, call.raised.value.kind))
    && (call.out.failure.Some? ==> Cause(ws, es, n, c, call.out.failure.value))
    && (call.pc.ConstructorThrew? && call.pc.kind != BeginFailure ==> Cause(ws, es, n, c, call.pc.kind))
    && (Refusing(call.pc) ==> Unhealthy(ws[n]))
  }

  lemma CausesStay(ws: seq<World>, es: seq<Event>, n: nat, c: CallId, kind: ErrorKind)
    requires IsRun(ws, es) && n < |es|
    ensures Threw(es, n, c, kind) ==> Threw(es, n + 1, c, kind)
    ensures Cause(ws, es, n, c, kind) ==> Cause(ws, es, n + 1, c, kind)
    ensures Unhealthy(ws[n]) ==> Unhealthy(ws[n + 1])
  {
    hide Ok, Apply, Enabled;
    LatchNeverClears(ws, es, n, n + 1);
  }

  /** A kind thrown, or a nested window found, at step `n` is a cause afterwards. */
  lemma CauseAdded(ws: seq<World>, es: seq<Event>, n: nat, c: CallId, choice: Choice, kind: ErrorKind)
    requires IsRun(ws, es) && n < |es| && c in ws[n].calls && es[n] == Go(c, choice)
    ensures Throws(choice, kind) ==> Threw(es, n + 1, c, kind)
    ensures WellFormed(ws[n]) && (NestedStep(LocalOf(ws[n], c), choice) ==> Nested(ws, es, n + 1, c))
  {
    hide Apply, Enabled;
  }

  lemma FailureExplained(ws: seq<World>, es: seq<Event>, n: nat, c: CallId, choice: Choice, kind: ErrorKind)
    requires IsRun(ws, es) && n < |es| && Inv(ws[n]) && c in ws[n].calls && Explained(ws, es, n, c)
    requires es[n] == Go(c, choice) && c in ws[n + 1].calls && WellFormed(ws[n + 1])
    requires Accounted(LocalOf(ws[n], c), choice, LocalOf(ws[n + 1], c))
    ensures ws[n + 1].calls[c].raised.Some? && ws[n + 1].calls[c].raised.value.kind == kind ==>
              Threw(es, n + 1, c, kind)
    ensures ws[n + 1].calls[c].out.failure == Some(kind) ==> Cause(ws, es, n + 1, c, kind)
    ensures ws[n + 1].calls[c].pc == ConstructorThrew(kind) && kind != BeginFailure ==> Cause(ws, es, n + 1, c, kind)
    ensures Refusing(ws[n + 1].calls[c].pc) ==> Unhealthy(ws[n + 1])
  {
    CausesStay(ws, es, n, c, kind);
    CauseAdded(ws, es, n, c, choice, kind);
    hide Inv, IsRun, Threw, Nested;
  }

  lemma ExplainedStep(ws: seq<World>, es: seq<Event>, n: nat, c: CallId, choice: Choice)
    requires IsRun(ws, es) && n < |es| && Inv(ws[n]) && c in ws[n].calls && Explained(ws, es, n, c)
    requires es[n] == Go(c, choice) && !Granting(ws[n], es[n])
    ensures c in ws[n + 1].calls && Explained(ws, es, n + 1, c)
  {
    hide Ok, Apply, StepLocal, EnabledLocal, Accounted, Threw, Cause, Refusing, Unhealthy;
    StepLands(ws[n], c, choice);
    StepAccounts(LocalOf(ws[n], c), choice);
    var call := ws[n + 1].calls[c];
    FailureExplained(ws, es, n, c, choice, Standard);
    if call.raised.Some? { FailureExplained(ws, es, n, c, choice, call.raised.value.kind); }
    if call.out.failure.Some? { FailureExplained(ws, es, n, c, choice, call.out.failure.value); }
    if call.pc.ConstructorThrew? { FailureExplained(ws, es, n, c, choice, call.pc.kind); }
  }

  lemma NothingToExplain(ws: seq<World>, es: seq<Event>, n: nat, c: CallId)
    requires |ws| > |es| >= n && c in ws[n].calls && ws[n].calls[c].pc.Begin?
    requires ws[n].calls[c].raised == None && ws[n].calls[c].out.failure == None
    ensures Explained(ws, es, n, c)
  {
  }

  lemma ExplanationStays(ws: seq<World>, es: seq<Event>, n: nat, c: CallId)
    requires IsRun(ws, es) && n < |es| && c in ws[n].calls && Explained(ws, es, n, c)
    requires c in ws[n + 1].calls && ws[n + 1].calls[c] == ws[n].calls[c]
    ensures Explained(ws, es, n + 1, c)
  {
    hide Apply, Enabled, Threw, Cause;
    var call := ws[n].calls[c];
    CausesStay(ws, es, n, c, Standard);
    if call.raised.Some? { CausesStay(ws, es, n, c, call.raised.value.kind); }
    if call.out.failure.Some? { CausesStay(ws, es, n, c, call.out.failure.value); }
    if call.pc.ConstructorThrew? { CausesStay(ws, es, n, c, call.pc.kind); }
  }

  lemma GrantIsFresh(w: World, c: CallId)
    requires Inv(w) && c in w.calls && w.calls[c].pc == Begin(AwaitPermit)
    ensures var call := Grant(w, c).calls[c]; call.pc.Begin? && call.raised == None && call.out.failure == None
  {
    AwaitingIsFresh(LocalOf(w, c));
    hide Ok;
  }

  lemma AwaitingIsFresh(l: Local)
    requires Ok(l) && l.call.pc.Begin?
    ensures l.call.raised == None && l.call.out.failure == None
  {
  }

  /**
    In every run the failure a call reports has a cause: the call itself threw that kind, or it found
    a window open on its connection, or the runtime had been stopped and refused it.
   */
  lemma {:induction false} FailuresHaveCauses(ws: seq<World>, es: seq<Event>, n: nat, c: CallId)
    requires IsRun(ws, es) && n <= |es| && c in ws[n].calls
    ensures Explained(ws, es, n, c)
    ensures ws[n].calls[c].out.failure.Some? ==> Cause(ws, es, n, c, ws[n].calls[c].out.failure.value)
    decreases n
  {
    hide Ok, Apply, Enabled, Threw, Cause, Unhealthy;
    if n == 0 {
      assert false;
    }
    var w, e := ws[n - 1], es[n - 1];
    RunKeepsInv(ws, es, n - 1);
    MoverExists(w, e);
    if e.Go? && e.c == c {
      FailuresHaveCauses(ws, es, n - 1, c);
      if Granting(w, e) {
        GrantIsFresh(w, c);
        GrantApplies(w, e);
        NothingToExplain(ws, es, n, c);
      } else {
        ExplainedStep(ws, es, n - 1, c, e.choice);
      }
    } else {
      OthersKeepCall(w, e, c);
      if c in w.calls {
        FailuresHaveCauses(ws, es, n - 1, c);
        ExplanationStays(ws, es, n - 1, c);
      } else {
        NothingToExplain(ws, es, n, c);
      }
    }
  }

  // ------------------------------------------------------------------- the latches

  /** What the engine raised is reported again, as a fatal error, when it surfaces. */
  predicate SurfacesFatal(call: Call) {
    call.raised.Some? && call.raised.value.fatal &&
    (call.raised.value.kind == Interrupt || call.raised.value.kind == Standard)
  }

  /** The steps at which a call reports a fatal device error. */
  predicate ReportsFatal(call: Call, choice: Choice) {
    match choice
    case Throw(kind, fatal) =>
      if Swallowed(call.pc) then SurfacesFatal(call)
      else
        fatal &&
        (match call.pc
         case Begin(b) => b != CheckNested && b != AwaitPermit && b != BuildCompletion
         case Body(Plan) => kind == Interrupt || kind == Standard
         case Body(Execute) => true
         case Body(Engine(job, _)) => job == Completing
         case _ => false)
    case Proceed => call.pc == Body(Engine(Destroying, AwaitWork)) && SurfacesFatal(call)
    case _ => false
  }

  /** The steps at which a call stops the runtime: a failed cleanup, a failed engine teardown. */
  predicate StopsRuntime(call: Call, choice: Choice) {
    || (choice == Proceed && call.pc.Cleanup? && call.pc.cleanup == Latch)
    || (choice.Throw? && Swallowed(call.pc))
  }

  predicate SetsFatal(w: World, e: Event) {
    e == FatalElsewhere || (e.Go? && e.c in w.calls && ReportsFatal(w.calls[e.c], e.choice))
  }

  predicate SetsLatch(w: World, e: Event) {
    e == LatchElsewhere || (e.Go? && e.c in w.calls && StopsRuntime(w.calls[e.c], e.choice))
  }

  lemma StepLatchesBegin(l: Local, choice: Choice)
    requires l.call.pc.Begin? && EnabledLocal(l, choice)
    ensures StepLocal(l, choice).env.fatal == (l.env.fatal || ReportsFatal(l.call, choice))
    ensures StepLocal(l, choice).env.latch == (l.env.latch || StopsRuntime(l.call, choice))
  {
    hide SqlRewrite.Rewritten;
  }

  lemma StepLatchesBody(l: Local, choice: Choice)
    requires l.call.pc.Body? && EnabledLocal(l, choice)
    ensures StepLocal(l, choice).env.fatal == (l.env.fatal || ReportsFatal(l.call, choice))
    ensures StepLocal(l, choice).env.latch == (l.env.latch || StopsRuntime(l.call, choice))
  {
    hide SqlRewrite.Rewritten;
  }

  lemma StepLatchesRest(l: Local, choice: Choice)
    requires !l.call.pc.Begin? && !l.call.pc.Body? && EnabledLocal(l, choice)
    ensures StepLocal(l, choice).env.fatal == (l.env.fatal || ReportsFatal(l.call, choice))
    ensures StepLocal(l, choice).env.latch == (l.env.latch || StopsRuntime(l.call, choice))
  {
    hide SqlRewrite.Rewritten;
  }

  lemma StepLatches(l: Local, choice: Choice)
    requires EnabledLocal(l, choice)
    ensures StepLocal(l, choice).env.fatal == (l.env.fatal || ReportsFatal(l.call, choice))
    ensures StepLocal(l, choice).env.latch == (l.env.latch || StopsRuntime(l.call, choice))
  {
    hide *;
    if l.call.pc.Begin? {
      StepLatchesBegin(l, choice);
    } else if l.call.pc.Body? {
      StepLatchesBody(l, choice);
    } else {
      StepLatchesRest(l, choice);
    }
  }

  lemma EventLatches(w: World, e: Event)
    requires Inv(w) && Enabled(w, e)
    ensures Apply(w, e).fatal == (w.fatal || SetsFatal(w, e))
    ensures Apply(w, e).latch == (w.latch || SetsLatch(w, e))
  {
    hide Ok, StepLocal;
    if e.Go? && !Granting(w, e) { StepLatches(LocalOf(w, e.c), e.choice); }
  }

  /** Over every run, each latch is up exactly when one of the steps that set it was taken. */
  lemma {:induction false} LatchesExactly(ws: seq<World>, es: seq<Event>, n: nat)
    requires IsRun(ws, es) && n <= |es|
    ensures ws[n].fatal <==> exists j | 0 <= j < n :: SetsFatal(ws[j], es[j])
    ensures ws[n].latch <==> exists j | 0 <= j < n :: SetsLatch(ws[j], es[j])
    decreases n
  {
    hide Ok, Apply, Enabled, SetsFatal, SetsLatch;
    if n == 0 {
      assert ws[0] == INITIAL;
    } else {
      LatchesExactly(ws, es, n - 1);
      RunKeepsInv(ws, es, n - 1);
      EventLatches(ws[n - 1], es[n - 1]);
    }
  }
}
