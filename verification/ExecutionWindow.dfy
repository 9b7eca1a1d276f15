/**
  The execution-window protocol: many `gpu_execution` calls, each with its own
  `StandaloneQueryScope`, over one shared runtime.

  A call is a thread whose program counter names the statement it is about to run. A step that
  can throw takes its fault from the event, so a run is any interleaving of the calls, the
  workers and the faults. The maps the source keys by window id are one table of slots.
  `History` only records; no step reads it.
 */
module ExecutionWindow {
  import opened Basics
  import SqlRewrite

  type QueryId = nat
  type ConnectionId = nat
  type CallId = nat

  // ------------------------------------------------------------------ control points

  datatype ErrorKind = Interrupt | Unavailable | BeginFailure | Standard | NonStandard

  /** Who leaves the window: a refused or failed begin, `finish()`, or the destructor. */
  datatype Path = OnRefusal | OnBegin | OnFinish | OnUnwind

  datatype RetireStep = CloseGate | AwaitSubmissions | QuiesceScans | SettleQueues | AwaitWork

  datatype ReleaseStep = ResetCreator | EraseRepositories | ResetScans | DropPlan | ForgetQuery

  /** The engine retires its query on success, after an error, and in its destructor. */
  datatype EngineJob = Completing | Quiescing | Destroying

  datatype BeginStep =
    | CheckNested | AwaitPermit | BuildCompletion | RaiseFlag | PublishCompletion | PublishActive
    | CheckHealth | TakeOptions | OpenGate | CreateRepositories | RegisterCreator

  datatype BodyStep =
    | Plan | Retain | Initialize | PrepareScans | Execute
    | Engine(job: EngineJob, estep: RetireStep)
    | Close

  datatype CleanupStep =
    | Retire(step: RetireStep) | CheckPreparation | Release(rstep: ReleaseStep)
    | Latch | BestEffort(bstep: RetireStep)

  datatype LeaveStep = EraseActive | LowerFlag | DropPermit

  datatype Pc =
    | Begin(begin: BeginStep)
    | Body(body: BodyStep)
    | Cleanup(path: Path, cleanup: CleanupStep)
    | Leave(path: Path, leave: LeaveStep)
    | ConstructorThrew(kind: ErrorKind) | FinishReturned | Destructor | EraseCompletion
    | CountFailure | Decide | Replaying | Completed | CallThrew

  // -------------------------------------------------------------------------- state

  datatype ScopeState = Active | Finished | Failed

  datatype LeaseState = NotEntered | Released | BeginFailed | CleanupFailed

  /** A submission owns its work until it transfers it; a lease is work held on its own. */
  datatype Entry = Entry(open: bool, owning: nat, settling: nat, leases: nat, plan: bool) {
    predicate NoSubmissions() { owning == 0 && settling == 0 }
    predicate Idle() { NoSubmissions() && leases == 0 }
  }

  /** Everything the runtime keys by one window id. */
  datatype Slot = Slot(
    permit: bool, active: bool, completion: bool,
    entry: Option<Entry>, repositories: bool, creator: bool,
    scans: bool, producing: bool, keys: nat)

  const EMPTY_SLOT := Slot(false, false, false, None, false, false, false, false, 0)

  /** An exception in flight, and whether the registry would class it as a fatal device error. */
  datatype Raised = Raised(kind: ErrorKind, fatal: bool)

  datatype Info = Info(connection: ConnectionId, hasState: bool, query: string, fallback: bool)

  /** The query text holds a Sirius-owned S3 call. */
  predicate OwnedS3(info: Info) {
    SqlRewrite.ReferencesOwnedS3(info.query)
  }

  /** Locals of the table function: an exception leaving it, the GPU failure, the lease it saw. */
  datatype Outcome = Outcome(pending: bool, failure: Option<ErrorKind>, leaseSeen: LeaseState)

  datatype History = History(
    releases: nat, counted: nat, released: seq<ReleaseStep>, passedHealth: bool, cleanupFailed: bool)

  datatype Call = Call(
    info: Info, pc: Pc, id: Option<QueryId>, scope: ScopeState, lease: LeaseState,
    enginePlan: bool, raised: Option<Raised>, out: Outcome, past: History)

  function NewCall(info: Info): Call {
    Call(info, Begin(CheckNested), None, Active, NotEntered, false, None,
         Outcome(false, None, NotEntered), History(0, 0, [], false, false))
  }

  /** The two latches, and the flag of the call's own connection. */
  datatype Env = Env(latch: bool, fatal: bool, flag: bool) {
    predicate Healthy() { !latch && !fatal }
  }

  /** What one call can see and change: itself, its slot, the latches and its connection. */
  datatype Local = Local(call: Call, slot: Slot, env: Env)

  datatype Choice =
    | Proceed
    | Throw(kind: ErrorKind, fatal: bool)
    | Prepare(keys: nat, started: bool)
    | Judge(sourcesAllow: bool, admitted: bool)

  // ------------------------------------------------------------------- small effects

  function At(l: Local, pc: Pc): Local {
    l.(call := l.call.(pc := pc))
  }

  function Shut(e: Option<Entry>): Option<Entry> {
    if e.None? then None else Some(e.value.(open := false))
  }

  /** `report_failure`: a fatal device error latches the registry; gates are closed later, if at all. */
  function Report(l: Local, fatal: bool): Local {
    if fatal then l.(env := l.env.(fatal := true)) else l
  }

  function NextRetire(s: RetireStep): RetireStep {
    match s
    case CloseGate => AwaitSubmissions
    case AwaitSubmissions => QuiesceScans
    case QuiesceScans => SettleQueues
    case _ => AwaitWork
  }

  /** One step of `retire_query_work` that did not throw. */
  function Retired(slot: Slot, step: RetireStep): Slot {
    match step
    case CloseGate => slot.(entry := Shut(slot.entry))
    case QuiesceScans => slot.(producing := false)
    case _ => slot
  }

  predicate MayPassRetire(slot: Slot, step: RetireStep) {
    slot.entry.None? ||
    match step
    case AwaitSubmissions => slot.entry.value.NoSubmissions()
    case AwaitWork => !slot.entry.value.open && slot.entry.value.Idle()
    case _ => true
  }

  /** The order of the release. */
  function Index(s: ReleaseStep): nat {
    match s
    case ResetCreator => 0
    case EraseRepositories => 1
    case ResetScans => 2
    case DropPlan => 3
    case ForgetQuery => 4
  }

  function NextRelease(s: ReleaseStep): ReleaseStep {
    match s
    case ResetCreator => EraseRepositories
    case EraseRepositories => ResetScans
    case ResetScans => DropPlan
    case _ => ForgetQuery
  }

  const ALL_STEPS := 5

  /** A history of release steps: from the first on, none skipped, none twice. */
  predicate InOrder(steps: seq<ReleaseStep>) {
    |steps| <= ALL_STEPS && forall i :: 0 <= i < |steps| ==> Index(steps[i]) == i
  }

  /** One step of `release_query_state` that did not throw. */
  function Freed(slot: Slot, step: ReleaseStep): Slot {
    match step
    case ResetCreator => slot.(creator := false)
    case EraseRepositories => slot.(repositories := false)
    case ResetScans => slot.(scans := false, producing := false, keys := 0)
    case DropPlan =>
      if slot.entry.None? then slot else slot.(entry := Some(slot.entry.value.(plan := false)))
    case ForgetQuery => slot.(entry := None)
  }

  predicate MayPassRelease(slot: Slot, step: ReleaseStep) {
    slot.entry.None? ||
    match step
    case DropPlan => !slot.entry.value.open && slot.entry.value.Idle()
    case ForgetQuery => slot.entry.value.Idle()
    case _ => true
  }

  function ReleasePermit(l: Local): Local {
    if l.slot.permit
    then l.(slot := l.slot.(permit := false),
            call := l.call.(past := l.call.past.(releases := l.call.past.releases + 1)))
    else l
  }

  // --------------------------------------------------------------------- constructor

  /** The begin failed: erase the completion, report, and run the cleanup backstop. */
  function BeginThrew(l: Local, fatal: bool): Local {
    var failed := Local(l.call.(scope := Failed, lease := BeginFailed), l.slot.(completion := false), l.env);
    At(Report(failed, fatal), Cleanup(OnBegin, Retire(CloseGate)))
  }

  /** The runtime was found unavailable before anything was registered. */
  function BeginRefused(l: Local): Local {
    At(Local(l.call.(scope := Failed, lease := BeginFailed), l.slot.(completion := false), l.env),
       Leave(OnRefusal, EraseActive))
  }

  function StepBegin(l: Local, step: BeginStep): Local {
    match step
    case CheckNested =>
      At(l, if l.call.info.hasState && l.env.flag then ConstructorThrew(Standard) else Begin(AwaitPermit))
    case AwaitPermit => At(l.(slot := l.slot.(permit := true)), Begin(BuildCompletion))
    case BuildCompletion => At(l, Begin(RaiseFlag))
    case RaiseFlag =>
      At(l.(env := l.env.(flag := l.call.info.hasState || l.env.flag)), Begin(PublishCompletion))
    case PublishCompletion => At(l.(slot := l.slot.(completion := true)), Begin(PublishActive))
    case PublishActive => At(l.(slot := l.slot.(active := true)), Begin(CheckHealth))
    case CheckHealth =>
      if l.env.Healthy()
      then At(l.(call := l.call.(past := l.call.past.(passedHealth := true))), Begin(TakeOptions))
      else BeginRefused(l)
    case TakeOptions => At(l, Begin(OpenGate))
    case OpenGate =>
      if l.env.fatal then BeginRefused(l)
      else At(l.(slot := l.slot.(entry := Some(Entry(true, 0, 0, 0, false)))), Begin(CreateRepositories))
    case CreateRepositories => At(l.(slot := l.slot.(repositories := true)), Begin(RegisterCreator))
    case RegisterCreator =>
      At(Local(l.call.(lease := CleanupFailed), l.slot.(creator := true), l.env), Body(Plan))
  }

  /** Before the try block the permit member's destructor releases; inside it the handlers do. */
  function BeginFault(l: Local, step: BeginStep, kind: ErrorKind, fatal: bool): Local {
    match step
    case CheckNested | AwaitPermit => At(l, ConstructorThrew(kind))
    case BuildCompletion => At(ReleasePermit(l), ConstructorThrew(kind))
    case _ => BeginThrew(l, fatal)
  }

  // ---------------------------------------------------------------------- window body

  /** An exception reaches the try block of the table function with the window open. */
  function Surface(l: Local, raised: Raised): Local {
    if raised.kind == NonStandard || raised.kind == BeginFailure
    then At(l.(call := l.call.(out := l.call.out.(pending := true))), Destructor)
    else
      var seen := l.(call := l.call.(out := l.call.out.(failure := Some(raised.kind))));
      At(Report(seen, raised.fatal && raised.kind != Unavailable), Body(Close))
  }

  function Raise(l: Local, raised: Raised): Local {
    l.(call := l.call.(raised := Some(raised)))
  }

  /** The engine lets go of its plan; what it raised surfaces in the caller. */
  function EngineGone(l: Local): Local {
    var gone := l.(call := l.call.(enginePlan := false, raised := None));
    if l.call.raised.None? then At(gone, Body(Close)) else Surface(gone, l.call.raised.value)
  }

  function StepBody(l: Local, step: BodyStep): Local {
    match step
    case Plan => At(l.(call := l.call.(enginePlan := true)), Body(Retain))
    case Retain =>
      if l.slot.entry.None? then l
      else At(l.(slot := l.slot.(entry := Some(l.slot.entry.value.(plan := true)))), Body(Initialize))
    case Initialize => At(l, Body(PrepareScans))
    case PrepareScans => l
    case Execute => At(l, Body(Engine(Completing, CloseGate)))
    case Engine(job, estep) =>
      var l' := l.(slot := Retired(l.slot, estep));
      if estep != AwaitWork then At(l', Body(Engine(job, NextRetire(estep))))
      else if job != Destroying then At(l', Body(Engine(Destroying, CloseGate)))
      else EngineGone(l')
    case Close =>
      var past := l.call.past.(counted := l.call.past.counted + if l.call.out.failure.Some? then 1 else 0);
      At(l.(call := l.call.(past := past)), Cleanup(OnFinish, Retire(CloseGate)))
  }

  /** A failed preparation is reported to the completion handler and surfaces from the wait. */
  function StepPrepare(l: Local, keys: nat, started: bool): Local {
    At(l.(slot := l.slot.(scans := started, producing := started, keys := keys)), Body(Execute))
  }

  function BodyFault(l: Local, step: BodyStep, raised: Raised): Local {
    match step
    case Plan => Surface(l, raised)
    case Execute => At(Report(Raise(l, raised), raised.fatal), Body(Engine(Quiescing, CloseGate)))
    case Engine(Completing, _) => At(Report(Raise(l, raised), raised.fatal), Body(Engine(Quiescing, CloseGate)))
    case Engine(Destroying, _) => EngineGone(l.(env := l.env.(latch := true)))
    case _ => At(Raise(l, raised), Body(Engine(Destroying, CloseGate)))
  }

  // --------------------------------------------------------- cleanup and release()

  function StepCleanup(l: Local, path: Path, step: CleanupStep): Local {
    match step
    case Retire(s) =>
      At(l.(slot := Retired(l.slot, s)),
         Cleanup(path, if s == AwaitWork then CheckPreparation else Retire(NextRetire(s))))
    case CheckPreparation => At(l, Cleanup(path, Release(ResetCreator)))
    case Release(s) =>
      var past := l.call.past.(released := l.call.past.released + [s]);
      var l' := Local(l.call.(past := past), Freed(l.slot, s), l.env);
      if s != ForgetQuery then At(l', Cleanup(path, Release(NextRelease(s))))
      else if path == OnFinish
      then At(l'.(call := l'.call.(scope := Finished, lease := Released)), Leave(path, EraseActive))
      else At(l', Leave(path, EraseActive))
    case Latch =>
      At(Local(l.call.(scope := if path == OnUnwind then l.call.scope else Failed), l.slot, l.env.(latch := true)),
         Cleanup(path, BestEffort(CloseGate)))
    case BestEffort(s) =>
      if s == AwaitWork then At(l, Leave(path, EraseActive))
      else At(l.(slot := Retired(l.slot, s)), Cleanup(path, BestEffort(NextRetire(s))))
  }

  /** A failed cleanup goes to the latch; the best-effort retirement swallows its own faults. */
  function CleanupFault(l: Local, path: Path, step: CleanupStep): Local {
    if step.BestEffort? then At(l, Leave(path, EraseActive))
    else At(l.(call := l.call.(past := l.call.past.(cleanupFailed := true))), Cleanup(path, Latch))
  }

  function StepLeave(l: Local, path: Path, step: LeaveStep): Local {
    match step
    case EraseActive => At(l.(slot := l.slot.(active := false)), Leave(path, LowerFlag))
    case LowerFlag =>
      At(l.(env := l.env.(flag := l.env.flag && !l.call.info.hasState)), Leave(path, DropPermit))
    case DropPermit =>
      var l' := ReleasePermit(l);
      match path
      case OnRefusal => At(l', ConstructorThrew(Unavailable))
      case OnBegin => At(l', ConstructorThrew(BeginFailure))
      case OnFinish =>
        if l.call.past.cleanupFailed
        then At(l'.(call := l'.call.(out := l'.call.out.(pending := true))), Destructor)
        else At(l', FinishReturned)
      case OnUnwind => At(l'.(call := l'.call.(scope := Failed)), EraseCompletion)
  }

  // ------------------------------------------------------ leaving the scope, deciding

  function StepAfter(l: Local): Local {
    match l.call.pc
    case ConstructorThrew(kind) =>
      // The permit member is destroyed too; it was already released or never granted.
      var l' := ReleasePermit(l);
      if kind == BeginFailure || kind == NonStandard then At(l', CallThrew)
      else At(l'.(call := l'.call.(out := l'.call.out.(failure := Some(kind)))), CountFailure)
    case FinishReturned =>
      At(l.(call := l.call.(out := l.call.out.(leaseSeen := l.call.lease))), Destructor)
    case Destructor =>
      At(l, if l.call.scope == Active then Cleanup(OnUnwind, Retire(CloseGate)) else EraseCompletion)
    case EraseCompletion =>
      var l' := ReleasePermit(l.(slot := l.slot.(completion := false)));
      At(l', if l.call.out.pending then CallThrew else if l.call.out.failure.Some? then CountFailure else Completed)
    case CountFailure =>
      var past := l.call.past.(counted := l.call.past.counted + if l.call.out.leaseSeen == NotEntered then 1 else 0);
      At(l.(call := l.call.(past := past)), Decide)
    case _ => l
  }

  /** The guards between a counted failure and the replay, in the source's order. */
  function Verdict(info: Info, out: Outcome, sourcesAllow: bool, admitted: bool): Pc {
    if out.failure == Some(Interrupt) then CallThrew
    else if out.failure == Some(Unavailable) && OwnedS3(info) then CallThrew
    else if !info.fallback then CallThrew
    else if !sourcesAllow then CallThrew
    else if out.leaseSeen != Released && out.leaseSeen != NotEntered then CallThrew
    else if OwnedS3(info) then CallThrew
    else if !admitted then CallThrew
    else if OwnedS3(info) then CallThrew
    else Replaying
  }

  // -------------------------------------------------------------------------- steps

  predicate CanThrow(l: Local) {
    match l.call.pc
    case Begin(b) => b != RaiseFlag
    case Body(d) => d != PrepareScans && d != Close
    case Cleanup(_, c) => c != Latch && (c == CheckPreparation ==> l.slot.completion)
    case _ => false
  }

  predicate MayProceed(l: Local) {
    match l.call.pc
    case Begin(_) => true
    case Body(Retain) => l.slot.entry.Some? && l.slot.entry.value.open && !l.slot.entry.value.plan
    case Body(Engine(_, s)) => MayPassRetire(l.slot, s)
    case Body(d) => d != PrepareScans
    case Cleanup(_, Retire(s)) => MayPassRetire(l.slot, s)
    case Cleanup(_, BestEffort(s)) => MayPassRetire(l.slot, s)
    case Cleanup(_, Release(s)) => MayPassRelease(l.slot, s)
    case Cleanup(_, _) => true
    case Leave(_, _) => true
    case ConstructorThrew(_) | FinishReturned | Destructor | EraseCompletion | CountFailure => true
    case _ => false
  }

  predicate EnabledLocal(l: Local, choice: Choice) {
    match choice
    case Proceed => MayProceed(l)
    case Throw(_, _) => CanThrow(l)
    case Prepare(_, _) => l.call.pc == Body(PrepareScans)
    case Judge(_, _) => l.call.pc == Decide
  }

  function ProceedLocal(l: Local): Local {
    match l.call.pc
    case Begin(b) => StepBegin(l, b)
    case Body(d) => StepBody(l, d)
    case Cleanup(path, c) => StepCleanup(l, path, c)
    case Leave(path, v) => StepLeave(l, path, v)
    case _ => StepAfter(l)
  }

  function ThrowLocal(l: Local, kind: ErrorKind, fatal: bool): Local {
    match l.call.pc
    case Begin(b) => BeginFault(l, b, kind, fatal)
    case Body(d) => BodyFault(l, d, Raised(kind, fatal))
    case Cleanup(path, c) => CleanupFault(l, path, c)
    case _ => l
  }

  function StepLocal(l: Local, choice: Choice): Local {
    match choice
    case Proceed => ProceedLocal(l)
    case Throw(kind, fatal) => ThrowLocal(l, kind, fatal)
    case Prepare(keys, started) => StepPrepare(l, keys, started)
    case Judge(sourcesAllow, admitted) => At(l, Verdict(l.call.info, l.call.out, sourcesAllow, admitted))
  }

  // ------------------------------------------------- what holds at each control point

  predicate Registered(slot: Slot) {
    slot.entry.Some? || slot.repositories || slot.creator || slot.scans || slot.producing || slot.keys > 0
  }

  /** The gate is shut, and no producer, publisher or work is left. */
  predicate Quiet(slot: Slot) {
    (slot.entry.Some? ==> !slot.entry.value.open && slot.entry.value.Idle()) && !slot.producing
  }

  /** Something may still use the plan. */
  predicate PlanBorrowed(slot: Slot) {
    slot.scans || slot.producing || slot.keys > 0 || (slot.entry.Some? && !slot.entry.value.Idle())
  }

  predicate PlanRetained(slot: Slot) {
    slot.entry.Some? && slot.entry.value.plan
  }

  /** What a retirement has achieved when it stands before `step`. */
  predicate RetiredUpTo(slot: Slot, step: RetireStep) {
    && (slot.entry.Some? ==>
          && (step != CloseGate ==> !slot.entry.value.open)
          && (step != CloseGate && step != AwaitSubmissions ==> slot.entry.value.NoSubmissions()))
    && (step == SettleQueues || step == AwaitWork ==> !slot.producing)
  }

  /** What the first `n` steps of the release have achieved. */
  predicate FreedUpTo(slot: Slot, n: nat) {
    && (n >= 1 ==> !slot.creator)
    && (n >= 2 ==> !slot.repositories)
    && (n >= 3 ==> !slot.scans && !slot.producing && slot.keys == 0)
    && (n >= 4 ==> !PlanRetained(slot))
    && (n >= 5 ==> slot.entry.None?)
  }

  function BeginRank(b: BeginStep): nat {
    match b
    case CheckNested => 0 case AwaitPermit => 1 case BuildCompletion => 2 case RaiseFlag => 3
    case PublishCompletion => 4 case PublishActive => 5 case CheckHealth => 6 case TakeOptions => 7
    case OpenGate => 8 case CreateRepositories => 9 case RegisterCreator => 10
  }

  predicate OwnsFlag(call: Call) {
    call.info.hasState &&
    match call.pc
    case Begin(b) => BeginRank(b) >= 4
    case Body(_) | Cleanup(_, _) => true
    case Leave(_, v) => v != DropPermit
    case Destructor => call.scope == Active
    case _ => false
  }

  predicate HoldsPermit(call: Call) {
    match call.pc
    case Begin(b) => BeginRank(b) >= 2
    case Body(_) | Cleanup(_, _) | Leave(_, _) => true
    case Destructor => call.scope == Active
    case _ => false
  }

  /** Nothing of the window body has happened yet. */
  predicate Fresh(call: Call) {
    && call.scope == Active && call.lease == NotEntered && !call.enginePlan && call.raised == None
    && Untouched(call)
  }

  predicate Untouched(call: Call) {
    && call.out == Outcome(false, None, NotEntered)
    && call.past.counted == 0 && call.past.released == [] && !call.past.cleanupFailed
  }

  predicate BeginOk(l: Local, b: BeginStep) {
    var r, slot := BeginRank(b), l.slot;
    && Fresh(l.call)
    && (l.call.id.Some? <==> r >= 2)
    && slot.completion == (r >= 5) && slot.active == (r >= 6)
    && l.call.past.passedHealth == (r >= 7)
    && slot.entry.Some? == (r >= 9) && slot.repositories == (r >= 10)
    && !slot.creator && !PlanBorrowed(slot)
  }

  /** The begin completed and nothing has been cleaned up. */
  predicate InWindow(l: Local) {
    && l.call.id.Some? && l.slot.active && l.slot.completion && l.slot.entry.Some?
    && l.slot.repositories && l.slot.creator
    && l.call.past.passedHealth && l.call.lease == CleanupFailed && l.call.scope == Active
    && l.call.past.counted == 0 && l.call.past.released == [] && !l.call.past.cleanupFailed
    && l.call.out.leaseSeen == NotEntered
  }

  predicate BodyOk(l: Local, d: BodyStep) {
    && InWindow(l)
    && !l.call.out.pending
    && l.call.enginePlan == (d != Plan && d != Close)
    && (d != Close ==> l.call.out.failure == None)
    && (d == Initialize || d == PrepareScans || d == Execute ==> PlanRetained(l.slot))
    && (d.Engine? ==> RetiredUpTo(l.slot, d.estep))
  }

  /** What the path into the cleanup fixes until the permit is dropped. */
  predicate PathOk(l: Local, path: Path) {
    var call := l.call;
    && call.id.Some? && call.out.leaseSeen == NotEntered && !call.enginePlan
    && call.out.pending == (path == OnUnwind)
    && match path
       case OnRefusal | OnBegin =>
         && call.scope == Failed && call.lease == BeginFailed && !l.slot.completion
         && call.out.failure == None && call.past.counted == 0
       case OnFinish =>
         call.past.counted == if call.out.failure.Some? then 1 else 0
       case OnUnwind => call.scope == Active && call.lease == CleanupFailed
  }

  predicate CleanupOk(l: Local, path: Path, c: CleanupStep) {
    && PathOk(l, path) && path != OnRefusal
    && (path != OnBegin ==> l.slot.active && l.slot.completion && l.call.lease == CleanupFailed)
    && l.call.past.cleanupFailed == (c == Latch || c.BestEffort?)
    && (path == OnFinish && !c.BestEffort? ==> l.call.scope == Active)
    && (path == OnFinish && c.BestEffort? ==> l.call.scope == Failed)
    && match c
       case Retire(s) => RetiredUpTo(l.slot, s) && l.call.past.released == []
       case CheckPreparation => Quiet(l.slot) && l.call.past.released == []
       case Release(s) => Quiet(l.slot) && |l.call.past.released| == Index(s)
       case Latch => true
       case BestEffort(s) => l.env.latch && RetiredUpTo(l.slot, s)
  }

  /** The cleanup is over: it failed and the latch is set, or everything was given back. */
  predicate CleanupSettled(l: Local) {
    if l.call.past.cleanupFailed then l.env.latch else |l.call.past.released| == ALL_STEPS
  }

  predicate LeaveOk(l: Local, path: Path, v: LeaveStep) {
    && PathOk(l, path)
    && (if path == OnRefusal then Untouched(l.call) && !Registered(l.slot) else CleanupSettled(l))
    && (v != EraseActive ==> !l.slot.active)
    && (path == OnFinish ==>
          if l.call.past.cleanupFailed then l.call.scope == Failed && l.call.lease == CleanupFailed
          else l.call.scope == Finished && l.call.lease == Released)
  }

  /** The scope is gone or about to go, with its permit dropped and its active entry erased. */
  predicate Outside(l: Local) {
    && !l.slot.active && !l.call.enginePlan
    && (l.call.past.cleanupFailed ==> l.env.latch)
    && (|l.call.past.released| != ALL_STEPS && !l.call.past.cleanupFailed ==> !Registered(l.slot))
    && (l.call.lease == Released ==> |l.call.past.released| == ALL_STEPS && !l.call.past.cleanupFailed)
  }

  /** Failures seen by the decision, and how often each was counted. */
  predicate FailureOk(call: Call) {
    && !call.past.cleanupFailed
    && (call.out.leaseSeen == NotEntered || (call.out.leaseSeen == Released && call.lease == Released))
    && (call.out.leaseSeen == NotEntered ==> call.past.released == [])
  }

  predicate AfterOk(l: Local) {
    var call := l.call;
    match call.pc
    case ConstructorThrew(kind) =>
      && Outside(l) && !l.slot.completion && call.out == Outcome(false, None, NotEntered) && call.past.counted == 0
      && (kind != BeginFailure && kind != NonStandard ==> !call.past.cleanupFailed && call.past.released == [])
    case FinishReturned =>
      && Outside(l) && call.scope == Finished && call.lease == Released && !call.out.pending
      && call.past.counted == (if call.out.failure.Some? then 1 else 0)
    case Destructor =>
      if call.scope == Active then InWindow(l) && call.out.pending && !call.enginePlan
      else
        && Outside(l)
        && (!call.out.pending ==>
              && call.out.leaseSeen == Released && call.lease == Released
              && call.past.counted == (if call.out.failure.Some? then 1 else 0))
    case EraseCompletion =>
      && Outside(l) && call.scope != Active
      && (!call.out.pending ==>
            && call.out.leaseSeen == Released && call.lease == Released
            && call.past.counted == (if call.out.failure.Some? then 1 else 0))
    case CountFailure =>
      && Outside(l) && !l.slot.completion && FailureOk(call) && call.out.failure.Some?
      && call.past.counted == (if call.out.leaseSeen == NotEntered then 0 else 1)
    case Decide =>
      Outside(l) && !l.slot.completion && FailureOk(call) && call.out.failure.Some? && call.past.counted == 1
    case Replaying =>
      && Outside(l) && !l.slot.completion && FailureOk(call) && call.past.counted == 1
      && call.out.failure.Some? && call.out.failure != Some(Interrupt)
      && call.info.fallback && !OwnedS3(call.info)
    case Completed => Outside(l) && !l.slot.completion && call.out.failure == None && call.lease == Released
    case CallThrew => Outside(l) && !l.slot.completion
    case _ => true
  }

  /** What holds at every control point. */
  predicate Common(l: Local) {
    var past := l.call.past;
    && (l.call.id.None? ==> l.slot == EMPTY_SLOT && !HoldsPermit(l.call))
    && (l.call.id.Some? ==> l.slot.permit == HoldsPermit(l.call))
    && past.releases == (if l.call.id.Some? && !l.slot.permit then 1 else 0)
    && (OwnsFlag(l.call) ==> l.env.flag)
    && (Registered(l.slot) ==> past.passedHealth)
    && (PlanBorrowed(l.slot) ==> PlanRetained(l.slot))
    && InOrder(past.released)
    && FreedUpTo(l.slot, |past.released|)
    && (past.released != [] ==> Quiet(l.slot))
  }

  predicate Located(l: Local) {
    match l.call.pc
    case Begin(b) => BeginOk(l, b)
    case Body(d) => BodyOk(l, d)
    case Cleanup(path, c) => CleanupOk(l, path, c)
    case Leave(path, v) => LeaveOk(l, path, v)
    case _ => AfterOk(l)
  }

  predicate Ok(l: Local) {
    Common(l) && Located(l)
  }

  // ------------------------------------------------------- each step keeps it

  lemma StepBeginOk(l: Local, b: BeginStep)
    requires l.call.pc == Begin(b) && b != AwaitPermit && BeginRank(b) <= 5 && Ok(l)
    ensures Ok(StepBegin(l, b))
  {
    hide OwnedS3, RetiredUpTo, Quiet, PlanRetained, InOrder, BodyOk, CleanupOk, LeaveOk, InWindow, PathOk,
      CleanupSettled, FailureOk;
  }

  lemma StepRegisterOk(l: Local, b: BeginStep)
    requires l.call.pc == Begin(b) && BeginRank(b) > 5 && Ok(l)
    ensures Ok(StepBegin(l, b))
  {
    hide OwnedS3, RetiredUpTo, Quiet, PlanRetained, InOrder, CleanupOk, AfterOk, CleanupSettled, Outside, FailureOk;
  }

  lemma GrantOk(l: Local, ticket: QueryId)
    requires l.call.pc == Begin(AwaitPermit) && Ok(l)
    ensures Ok(StepBegin(l.(call := l.call.(id := Some(ticket))), AwaitPermit))
  {
    hide OwnedS3, RetiredUpTo, Quiet, PlanRetained, InOrder, BodyOk, CleanupOk, LeaveOk, AfterOk, InWindow, PathOk,
      CleanupSettled, Outside, FailureOk;
  }

  lemma BeginFaultOk(l: Local, b: BeginStep, kind: ErrorKind, fatal: bool)
    requires l.call.pc == Begin(b) && b != RaiseFlag && Ok(l)
    ensures Ok(BeginFault(l, b, kind, fatal))
  {
    hide OwnedS3, Quiet, PlanRetained, InOrder, BodyOk, LeaveOk, InWindow, CleanupSettled, FailureOk;
  }

  lemma StepBodyOk(l: Local, d: BodyStep)
    requires l.call.pc == Body(d) && !d.Engine? && MayProceed(l) && Ok(l)
    ensures Ok(StepBody(l, d))
  {
    hide OwnedS3, Quiet, PlanBorrowed, Registered, InOrder, BeginOk, LeaveOk, AfterOk, CleanupSettled, Outside,
      FailureOk, Fresh, Untouched;
  }

  lemma StepEngineOk(l: Local, job: EngineJob, s: RetireStep)
    requires l.call.pc == Body(Engine(job, s)) && MayProceed(l) && Ok(l)
    ensures Ok(StepBody(l, Engine(job, s)))
  {
    hide OwnedS3, Quiet, Registered, InOrder, BeginOk, CleanupOk, LeaveOk, PathOk, CleanupSettled, Outside,
      FailureOk, Fresh, Untouched;
  }

  lemma StepPrepareOk(l: Local, keys: nat, started: bool)
    requires l.call.pc == Body(PrepareScans) && Ok(l)
    ensures Ok(StepPrepare(l, keys, started))
  {
    hide OwnedS3, RetiredUpTo, Quiet, PlanBorrowed, Registered, InOrder, BeginOk, CleanupOk, LeaveOk, AfterOk, PathOk,
      CleanupSettled, Outside, FailureOk, Fresh, Untouched;
  }

  lemma BodyFaultOk(l: Local, d: BodyStep, raised: Raised)
    requires l.call.pc == Body(d) && !d.Engine? && d != PrepareScans && d != Close && Ok(l)
    ensures Ok(BodyFault(l, d, raised))
  {
    hide OwnedS3, Quiet, Registered, InOrder, BeginOk, CleanupOk, LeaveOk, PathOk, CleanupSettled, Outside,
      FailureOk, Fresh, Untouched;
  }

  lemma EngineFaultOk(l: Local, job: EngineJob, s: RetireStep, raised: Raised)
    requires l.call.pc == Body(Engine(job, s)) && Ok(l)
    ensures Ok(BodyFault(l, Engine(job, s), raised))
  {
    hide OwnedS3, Quiet, Registered, InOrder, BeginOk, CleanupOk, LeaveOk, PathOk, CleanupSettled, Outside,
      FailureOk, Fresh, Untouched;
  }

  lemma StepRetireOk(l: Local, path: Path, s: RetireStep)
    requires l.call.pc == Cleanup(path, Retire(s)) && MayProceed(l) && Ok(l)
    ensures Ok(StepCleanup(l, path, Retire(s)))
  {
    hide OwnedS3, InOrder, BeginOk, BodyOk, LeaveOk, AfterOk, InWindow, CleanupSettled, Outside, FailureOk, Fresh,
      Untouched;
  }

  lemma StepReleaseOk(l: Local, path: Path, s: ReleaseStep)
    requires l.call.pc == Cleanup(path, Release(s)) && MayProceed(l) && Ok(l)
    ensures Ok(StepCleanup(l, path, Release(s)))
  {
    hide OwnedS3, RetiredUpTo, BeginOk, BodyOk, AfterOk, InWindow, Outside, FailureOk, Fresh, Untouched;
  }

  lemma CheckPreparationOk(l: Local, path: Path)
    requires l.call.pc == Cleanup(path, CheckPreparation) && Ok(l)
    ensures Ok(StepCleanup(l, path, CheckPreparation))
  {
    hide OwnedS3, RetiredUpTo, FreedUpTo, Quiet, PlanBorrowed, PlanRetained, Registered, InOrder, BeginOk, BodyOk,
      LeaveOk, AfterOk, InWindow, CleanupSettled, Outside, FailureOk, Fresh, Untouched;
  }

  lemma LatchOk(l: Local, path: Path)
    requires l.call.pc == Cleanup(path, Latch) && Ok(l)
    ensures Ok(StepCleanup(l, path, Latch))
  {
    hide OwnedS3, FreedUpTo, Quiet, PlanBorrowed, PlanRetained, Registered, InOrder, BeginOk, BodyOk,
      LeaveOk, AfterOk, InWindow, CleanupSettled, Outside, FailureOk, Fresh, Untouched;
  }

  lemma BestEffortOk(l: Local, path: Path, s: RetireStep)
    requires l.call.pc == Cleanup(path, BestEffort(s)) && MayProceed(l) && Ok(l)
    ensures Ok(StepCleanup(l, path, BestEffort(s)))
  {
    hide OwnedS3, InOrder, BeginOk, BodyOk, AfterOk, InWindow, Outside, FailureOk, Fresh, Untouched;
  }

  lemma CleanupFaultOk(l: Local, path: Path, c: CleanupStep)
    requires l.call.pc == Cleanup(path, c) && c != Latch && Ok(l)
    ensures Ok(CleanupFault(l, path, c))
  {
    hide OwnedS3, FreedUpTo, Quiet, PlanBorrowed, PlanRetained, Registered, InOrder, BeginOk, BodyOk,
      AfterOk, InWindow, Outside, FailureOk, Fresh, Untouched;
  }

  lemma StepLeaveOk(l: Local, path: Path, v: LeaveStep)
    requires l.call.pc == Leave(path, v) && v != DropPermit && Ok(l)
    ensures Ok(StepLeave(l, path, v))
  {
    hide OwnedS3, RetiredUpTo, InOrder, BeginOk, BodyOk, CleanupOk, AfterOk, InWindow, Outside, FailureOk, Fresh;
  }

  lemma DropPermitOk(l: Local, path: Path)
    requires l.call.pc == Leave(path, DropPermit) && Ok(l)
    ensures Ok(StepLeave(l, path, DropPermit))
  {
    hide OwnedS3, RetiredUpTo, InOrder, BeginOk, BodyOk, CleanupOk, InWindow, FailureOk, Fresh;
  }

  lemma ConstructorThrewOk(l: Local)
    requires l.call.pc.ConstructorThrew? && Ok(l)
    ensures Ok(StepAfter(l))
  {
    hide OwnedS3, RetiredUpTo, FreedUpTo, Quiet, PlanBorrowed, PlanRetained, Registered, InOrder, BeginOk, BodyOk,
      CleanupOk, LeaveOk, InWindow, PathOk, CleanupSettled, Fresh, Untouched;
  }

  lemma DestructorOk(l: Local)
    requires (l.call.pc == FinishReturned || l.call.pc == Destructor) && Ok(l)
    ensures Ok(StepAfter(l))
  {
    hide OwnedS3, FreedUpTo, Quiet, PlanBorrowed, PlanRetained, Registered, InOrder, BeginOk, BodyOk, LeaveOk,
      CleanupSettled, FailureOk, Fresh, Untouched;
  }

  lemma AfterScopeOk(l: Local)
    requires (l.call.pc == EraseCompletion || l.call.pc == CountFailure) && Ok(l)
    ensures Ok(StepAfter(l))
  {
    hide OwnedS3, RetiredUpTo, InOrder, BeginOk, BodyOk, CleanupOk, LeaveOk, InWindow, PathOk, CleanupSettled, Fresh,
      Untouched;
  }

  lemma VerdictOk(l: Local, sourcesAllow: bool, admitted: bool)
    requires Ok(l) && l.call.pc == Decide
    ensures Ok(At(l, Verdict(l.call.info, l.call.out, sourcesAllow, admitted)))
  {
    hide OwnedS3, RetiredUpTo, FreedUpTo, Quiet, PlanBorrowed, PlanRetained, Registered, InOrder, BeginOk, BodyOk,
      CleanupOk, LeaveOk, InWindow, PathOk, CleanupSettled, Fresh, Untouched;
  }

  lemma BeginProceeds(l: Local, b: BeginStep)
    requires l.call.pc == Begin(b) && b != AwaitPermit && Ok(l)
    ensures Ok(StepBegin(l, b))
  {
    hide Ok, StepBegin;
    if BeginRank(b) <= 5 { StepBeginOk(l, b); } else { StepRegisterOk(l, b); }
  }

  lemma BodyProceeds(l: Local, d: BodyStep)
    requires l.call.pc == Body(d) && MayProceed(l) && Ok(l)
    ensures Ok(StepBody(l, d))
  {
    hide Ok, StepBody, MayProceed;
    if d.Engine? { StepEngineOk(l, d.job, d.estep); } else { StepBodyOk(l, d); }
  }

  lemma CleanupProceeds(l: Local, path: Path, c: CleanupStep)
    requires l.call.pc == Cleanup(path, c) && MayProceed(l) && Ok(l)
    ensures Ok(StepCleanup(l, path, c))
  {
    hide Ok, StepCleanup, MayProceed;
    match c {
      case Retire(s) => StepRetireOk(l, path, s);
      case CheckPreparation => CheckPreparationOk(l, path);
      case Release(s) => StepReleaseOk(l, path, s);
      case Latch => LatchOk(l, path);
      case BestEffort(s) => BestEffortOk(l, path, s);
    }
  }

  lemma LeaveProceeds(l: Local, path: Path, v: LeaveStep)
    requires l.call.pc == Leave(path, v) && Ok(l)
    ensures Ok(StepLeave(l, path, v))
  {
    hide Ok, StepLeave;
    if v == DropPermit { DropPermitOk(l, path); } else { StepLeaveOk(l, path, v); }
  }

  lemma AfterProceeds(l: Local)
    requires l.call.pc.ConstructorThrew? || l.call.pc in {FinishReturned, Destructor, EraseCompletion, CountFailure}
    requires Ok(l)
    ensures Ok(StepAfter(l))
  {
    hide Ok, StepAfter;
    if l.call.pc.ConstructorThrew? { ConstructorThrewOk(l); }
    else if l.call.pc == FinishReturned || l.call.pc == Destructor { DestructorOk(l); }
    else { AfterScopeOk(l); }
  }

  lemma ProceedOk(l: Local)
    requires Ok(l) && MayProceed(l) && l.call.pc != Begin(AwaitPermit)
    ensures Ok(ProceedLocal(l))
  {
    hide Ok, StepBegin, StepBody, StepCleanup, StepLeave, StepAfter;
    match l.call.pc {
      case Begin(b) => BeginProceeds(l, b);
      case Body(d) => BodyProceeds(l, d);
      case Cleanup(path, c) => CleanupProceeds(l, path, c);
      case Leave(path, v) => LeaveProceeds(l, path, v);
      case _ => AfterProceeds(l);
    }
  }

  lemma ThrowOk(l: Local, kind: ErrorKind, fatal: bool)
    requires Ok(l) && CanThrow(l)
    ensures Ok(ThrowLocal(l, kind, fatal))
  {
    hide Ok, BeginFault, BodyFault, CleanupFault;
    match l.call.pc {
      case Begin(b) => BeginFaultOk(l, b, kind, fatal);
      case Body(Engine(job, s)) => EngineFaultOk(l, job, s, Raised(kind, fatal));
      case Body(d) => BodyFaultOk(l, d, Raised(kind, fatal));
      case Cleanup(path, c) => CleanupFaultOk(l, path, c);
      case _ =>
    }
  }

  /** Whatever an owner does next, and whether or not it throws, its control point's facts hold after. */
  lemma StepLocalOk(l: Local, choice: Choice)
    requires Ok(l) && EnabledLocal(l, choice) && !(l.call.pc == Begin(AwaitPermit) && choice.Proceed?)
    ensures Ok(StepLocal(l, choice))
  {
    hide Ok, ProceedLocal, ThrowLocal, StepPrepare, Verdict, MayProceed, CanThrow;
    match choice {
      case Proceed => ProceedOk(l);
      case Throw(kind, fatal) => ThrowOk(l, kind, fatal);
      case Prepare(keys, started) => StepPrepareOk(l, keys, started);
      case Judge(sourcesAllow, admitted) => VerdictOk(l, sourcesAllow, admitted);
    }
  }

  // ------------------------------------------------------------- the whole runtime

  /** `flags` records, for each connection whose flag is up, the call that raised it. */
  datatype World = World(
    calls: map<CallId, Call>, slots: map<QueryId, Slot>, flags: map<ConnectionId, CallId>,
    latch: bool, fatal: bool, next: QueryId)

  /** What workers do to a started query: publish, transfer, withdraw, settle, borrow, return. */
  datatype WorkMove = Submit | Transfer | Withdraw | Settle | Borrow | Return

  /** After a fatal error gates are shut one by one, each on its own and perhaps never. */
  datatype Event =
    | Start(c: CallId, info: Info)
    | Go(c: CallId, choice: Choice)
    | Work(q: QueryId, move: WorkMove)
    | LatchElsewhere
    | FatalElsewhere
    | ShutGate(q: QueryId)

  predicate MayWork(slot: Slot, move: WorkMove) {
    slot.entry.Some? &&
    var e := slot.entry.value;
    match move
    case Submit => e.open && slot.scans
    case Borrow => e.open && slot.scans
    case Transfer => e.owning > 0
    case Withdraw => e.owning > 0
    case Settle => e.settling > 0
    case Return => e.leases > 0
  }

  function Worked(e: Entry, move: WorkMove): Entry
    requires move == Transfer || move == Withdraw ==> e.owning > 0
    requires move == Settle ==> e.settling > 0
    requires move == Return ==> e.leases > 0
  {
    match move
    case Submit => e.(owning := e.owning + 1)
    case Transfer => e.(owning := e.owning - 1, settling := e.settling + 1, leases := e.leases + 1)
    case Withdraw => e.(owning := e.owning - 1)
    case Settle => e.(settling := e.settling - 1)
    case Borrow => e.(leases := e.leases + 1)
    case Return => e.(leases := e.leases - 1)
  }

  predicate WellFormed(w: World) {
    forall c | c in w.calls :: w.calls[c].id.Some? ==> w.calls[c].id.value in w.slots
  }

  function EnvOf(w: World, k: ConnectionId): Env {
    Env(w.latch, w.fatal, k in w.flags)
  }

  function LocalOf(w: World, c: CallId): Local
    requires WellFormed(w) && c in w.calls
  {
    var call := w.calls[c];
    Local(call, if call.id.Some? then w.slots[call.id.value] else EMPTY_SLOT, EnvOf(w, call.info.connection))
  }

  function ShutSlot(slot: Slot): Slot {
    slot.(entry := Shut(slot.entry))
  }

  /** The world after call `c` has moved to `l`. */
  function Put(w: World, c: CallId, l: Local): World {
    var k := l.call.info.connection;
    World(w.calls[c := l.call],
          if l.call.id.Some? then w.slots[l.call.id.value := l.slot] else w.slots,
          if !l.env.flag then w.flags - {k} else if k in w.flags then w.flags else w.flags[k := c],
          l.env.latch, l.env.fatal, w.next)
  }

  /** Past the nesting check and not yet out of the window. */
  predicate Engaged(call: Call) {
    call.info.hasState &&
    match call.pc
    case Begin(b) => BeginRank(b) >= 1
    case Body(_) | Cleanup(_, _) => true
    case Leave(_, v) => v != DropPermit
    case Destructor => call.scope == Active
    case _ => false
  }

  /** Between the nesting check and raising the flag. */
  predicate Constructing(call: Call) {
    Engaged(call) && !OwnsFlag(call)
  }

  /** A connection runs one statement of its own at a time, so its constructors do not overlap. */
  predicate Serialized(w: World, c: CallId)
    requires c in w.calls
  {
    forall d | d in w.calls ::
      d != c && w.calls[d].info.connection == w.calls[c].info.connection ==> !Constructing(w.calls[d])
  }

  predicate Granting(w: World, e: Event) {
    e.Go? && e.choice.Proceed? && e.c in w.calls && w.calls[e.c].pc == Begin(AwaitPermit)
  }

  predicate Enabled(w: World, e: Event)
    requires WellFormed(w)
  {
    match e
    case Start(c, _) => c !in w.calls
    case Go(c, choice) =>
      c in w.calls && EnabledLocal(LocalOf(w, c), choice) &&
      (w.calls[c].pc == Begin(CheckNested) && w.calls[c].info.hasState ==> Serialized(w, c))
    case Work(q, move) => q in w.slots && MayWork(w.slots[q], move)
    case LatchElsewhere => true
    case FatalElsewhere => true
    case ShutGate(q) => w.fatal && q in w.slots
  }

  function Grant(w: World, c: CallId): World
    requires WellFormed(w) && c in w.calls
  {
    var l := LocalOf(w, c);
    Put(w, c, StepBegin(Local(l.call.(id := Some(w.next)), EMPTY_SLOT, l.env), AwaitPermit)).(next := w.next + 1)
  }

  function Apply(w: World, e: Event): World
    requires WellFormed(w) && Enabled(w, e)
  {
    match e
    case Start(c, info) => w.(calls := w.calls[c := NewCall(info)])
    case Go(c, choice) =>
      if Granting(w, e) then Grant(w, c) else Put(w, c, StepLocal(LocalOf(w, c), choice))
    case Work(q, move) =>
      var slot := w.slots[q];
      w.(slots := w.slots[q := slot.(entry := Some(Worked(slot.entry.value, move)))])
    case LatchElsewhere => w.(latch := true)
    case FatalElsewhere => w.(fatal := true)
    case ShutGate(q) => w.(slots := w.slots[q := ShutSlot(w.slots[q])])
  }

  const INITIAL := World(map[], map[], map[], false, false, 0)

  // ------------------------------------------------------------- invariant of a run

  ghost predicate Identified(w: World) {
    && (forall q | q in w.slots :: q < w.next)
    && (forall c, d | c in w.calls && d in w.calls && c != d ::
          w.calls[c].id.Some? ==> w.calls[c].id != w.calls[d].id)
  }

  ghost predicate Exclusive(w: World) {
    forall c, d | c in w.calls && d in w.calls && c != d ::
      Engaged(w.calls[c]) && Engaged(w.calls[d]) ==> w.calls[c].info.connection != w.calls[d].info.connection
  }

  ghost predicate FlagsOwned(w: World) {
    forall k | k in w.flags ::
      && w.flags[k] in w.calls && OwnsFlag(w.calls[w.flags[k]])
      && w.calls[w.flags[k]].info.connection == k
  }

  ghost predicate AllOk(w: World)
    requires WellFormed(w)
  {
    forall c | c in w.calls :: Ok(LocalOf(w, c))
  }

  ghost predicate Inv(w: World) {
    WellFormed(w) && Identified(w) && Exclusive(w) && FlagsOwned(w) && AllOk(w)
  }

  /** What another call, a worker or a latch may do to a call without its taking a step. */
  predicate Disturbed(l: Local, l': Local) {
    && l'.call == l.call
    && (l'.slot == l.slot || l'.slot == ShutSlot(l.slot))
    && (l.env.latch ==> l'.env.latch) && (l.env.fatal ==> l'.env.fatal)
    && (OwnsFlag(l.call) ==> l'.env.flag)
  }

  lemma OtherEnvOk(l: Local, env: Env)
    requires Ok(l) && (l.env.latch ==> env.latch) && (OwnsFlag(l.call) ==> env.flag)
    ensures Ok(l.(env := env))
  {
    hide OwnedS3, RetiredUpTo, FreedUpTo, Quiet, PlanBorrowed, PlanRetained, Registered, InOrder, FailureOk, Fresh,
      Untouched, HoldsPermit, OwnsFlag;
  }

  lemma ShutSlotOk(l: Local)
    requires Ok(l)
    ensures Ok(l.(slot := ShutSlot(l.slot)))
  {
    hide OwnedS3, InOrder, FailureOk, Fresh, Untouched, HoldsPermit, OwnsFlag;
  }

  lemma DisturbedOk(l: Local, l': Local)
    requires Ok(l) && Disturbed(l, l')
    ensures Ok(l')
  {
    hide Ok;
    OtherEnvOk(l, l'.env);
    ShutSlotOk(l.(env := l'.env));
  }

  lemma WorkedOk(l: Local, move: WorkMove)
    requires Ok(l) && MayWork(l.slot, move)
    ensures Ok(l.(slot := l.slot.(entry := Some(Worked(l.slot.entry.value, move)))))
  {
    hide OwnedS3, InOrder, FailureOk, Fresh, Untouched, HoldsPermit, OwnsFlag;
  }

  /** The flag, the window it guards and the latches change only as the protocol says. */
  predicate FlagStep(l: Local, l': Local) {
    && l'.call.info == l.call.info && l'.call.id == l.call.id
    && (l.env.latch ==> l'.env.latch) && (l.env.fatal ==> l'.env.fatal)
    && (Engaged(l'.call) ==> Engaged(l.call) || (l.call.pc == Begin(CheckNested) && !l.env.flag))
    && (OwnsFlag(l.call) && !OwnsFlag(l'.call) ==> !l'.env.flag)
    && (OwnsFlag(l'.call) && !OwnsFlag(l.call) ==> Engaged(l.call) && l'.env.flag)
    && (l'.env.flag && !l.env.flag ==> OwnsFlag(l'.call))
    && (!l'.env.flag && l.env.flag ==> OwnsFlag(l.call) && !OwnsFlag(l'.call))
  }

  lemma BeginFlag(l: Local, b: BeginStep)
    requires l.call.pc == Begin(b) && Ok(l)
    ensures FlagStep(l, StepBegin(l, b))
  {
    hide Ok;
  }

  lemma BeginFaultFlag(l: Local, b: BeginStep, kind: ErrorKind, fatal: bool)
    requires l.call.pc == Begin(b) && b != RaiseFlag && Ok(l)
    ensures FlagStep(l, BeginFault(l, b, kind, fatal))
  {
    hide Ok;
  }

  lemma BodyFlag(l: Local, d: BodyStep)
    requires l.call.pc == Body(d) && Ok(l)
    ensures FlagStep(l, StepBody(l, d))
  {
    hide Common;
  }

  lemma BodyFaultFlag(l: Local, d: BodyStep, raised: Raised)
    requires l.call.pc == Body(d) && Ok(l)
    ensures FlagStep(l, BodyFault(l, d, raised))
  {
    hide Common;
  }

  lemma CleanupFlag(l: Local, path: Path, c: CleanupStep)
    requires l.call.pc == Cleanup(path, c) && Ok(l)
    ensures FlagStep(l, StepCleanup(l, path, c)) && FlagStep(l, CleanupFault(l, path, c))
  {
    hide Ok;
  }

  lemma LeaveFlag(l: Local, path: Path, v: LeaveStep)
    requires l.call.pc == Leave(path, v) && Ok(l)
    ensures FlagStep(l, StepLeave(l, path, v))
  {
    hide Common;
  }

  lemma AfterFlag(l: Local)
    requires !l.call.pc.Begin? && !l.call.pc.Body? && !l.call.pc.Cleanup? && !l.call.pc.Leave? && Ok(l)
    ensures FlagStep(l, StepAfter(l))
  {
    hide Common;
  }

  lemma StepFlag(l: Local, choice: Choice)
    requires Ok(l) && EnabledLocal(l, choice)
    ensures FlagStep(l, StepLocal(l, choice))
  {
    hide Ok, FlagStep, StepBegin, StepBody, StepCleanup, StepLeave, StepAfter, BeginFault, BodyFault, CleanupFault;
    match choice {
      case Proceed =>
        match l.call.pc {
          case Begin(b) => BeginFlag(l, b);
          case Body(d) => BodyFlag(l, d);
          case Cleanup(path, c) => CleanupFlag(l, path, c);
          case Leave(path, v) => LeaveFlag(l, path, v);
          case _ => AfterFlag(l);
        }
      case Throw(kind, fatal) =>
        match l.call.pc {
          case Begin(b) => BeginFaultFlag(l, b, kind, fatal);
          case Body(d) => BodyFaultFlag(l, d, Raised(kind, fatal));
          case Cleanup(path, c) => CleanupFlag(l, path, c);
          case _ =>
        }
      case Prepare(keys, started) => PrepareFlag(l, keys, started);
      case Judge(sourcesAllow, admitted) => VerdictFlag(l, sourcesAllow, admitted);
    }
  }

  lemma PrepareFlag(l: Local, keys: nat, started: bool)
    requires l.call.pc == Body(PrepareScans) && Ok(l)
    ensures FlagStep(l, StepPrepare(l, keys, started))
  {
    hide Ok;
  }

  lemma VerdictFlag(l: Local, sourcesAllow: bool, admitted: bool)
    requires l.call.pc == Decide
    ensures FlagStep(l, At(l, Verdict(l.call.info, l.call.out, sourcesAllow, admitted)))
  {
  }

  // ------------------------------------------------------ every event keeps it

  /** Call `c` moves from its place in `w` to `l'`, in an orderly way. */
  ghost predicate Moves(w: World, c: CallId, l': Local) {
    && Inv(w) && c in w.calls && FlagStep(LocalOf(w, c), l') && Ok(l')
    && (Engaged(l'.call) && !Engaged(w.calls[c]) ==> Serialized(w, c))
  }

  lemma MovesLocals(w: World, c: CallId, l': Local)
    requires Moves(w, c, l')
    ensures var w' := Put(w, c, l'); WellFormed(w') && LocalOf(w', c) == l'
    ensures forall d | d in w.calls && d != c :: Disturbed(LocalOf(w, d), LocalOf(Put(w, c, l'), d))
  {
    hide Ok, OwnsFlag, Engaged;
    var w' := Put(w, c, l');
    var l := LocalOf(w, c);
    assert l'.call.id == l.call.id;
    if l'.call.id.None? { assert l'.slot == EMPTY_SLOT by { NoIdNoSlot(l'); } }
    forall d | d in w.calls && d != c ensures Disturbed(LocalOf(w, d), LocalOf(w', d)) {
      OthersKeepFlag(w, c, l', d);
    }
  }

  lemma NoIdNoSlot(l: Local)
    requires Ok(l) && l.call.id.None?
    ensures l.slot == EMPTY_SLOT
  {
    hide Located;
  }

  lemma OwnsMeansUp(l: Local)
    ensures Ok(l) && OwnsFlag(l.call) ==> l.env.flag
    ensures OwnsFlag(l.call) ==> Engaged(l.call)
  {
    hide Located;
  }

  /** A flag that another call owns is not lowered by this one. */
  lemma OthersKeepFlag(w: World, c: CallId, l': Local, d: CallId)
    requires Moves(w, c, l') && d in w.calls && d != c
    ensures OwnsFlag(w.calls[d]) ==> w.calls[d].info.connection in Put(w, c, l').flags
  {
    hide Ok, OwnsFlag, Engaged;
    OwnsMeansUp(LocalOf(w, d));
    OwnsMeansUp(LocalOf(w, c));
  }

  lemma MovesExclusive(w: World, c: CallId, l': Local)
    requires Moves(w, c, l')
    ensures Exclusive(Put(w, c, l'))
  {
    hide Ok, OwnsFlag, Engaged;
    forall d | d in w.calls && d != c && Engaged(l'.call) && Engaged(w.calls[d])
      ensures l'.call.info.connection != w.calls[d].info.connection
    {
      OwnsMeansUp(LocalOf(w, d));
      assert Constructing(w.calls[d]) || OwnsFlag(w.calls[d]);
    }
  }

  lemma MovesFlags(w: World, c: CallId, l': Local)
    requires Moves(w, c, l')
    ensures FlagsOwned(Put(w, c, l'))
  {
    hide Ok, OwnsFlag, Engaged;
    var l := LocalOf(w, c);
    OwnsMeansUp(l);
    OwnsMeansUp(l');
    forall d | d in w.calls ensures OwnsFlag(w.calls[d]) ==> Engaged(w.calls[d]) { OwnsMeansUp(LocalOf(w, d)); }
  }

  lemma MovesKeepInv(w: World, c: CallId, l': Local)
    requires Moves(w, c, l')
    ensures Inv(Put(w, c, l'))
  {
    hide Ok, OwnsFlag, Engaged, Disturbed;
    MovesLocals(w, c, l');
    MovesExclusive(w, c, l');
    MovesFlags(w, c, l');
    var w' := Put(w, c, l');
    forall d | d in w'.calls ensures Ok(LocalOf(w', d)) {
      if d != c { DisturbedOk(LocalOf(w, d), LocalOf(w', d)); }
    }
  }

  lemma GrantPlaces(w: World, c: CallId)
    requires Inv(w) && c in w.calls && w.calls[c].pc == Begin(AwaitPermit)
    ensures var w' := Grant(w, c);
            && w'.flags == w.flags && w'.calls.Keys == w.calls.Keys && w'.fatal == w.fatal && w'.next == w.next + 1
            && w'.slots.Keys == w.slots.Keys + {w.next}
            && (forall q | q in w.slots :: w'.slots[q] == w.slots[q])
            && (forall d | d in w.calls && d != c :: w'.calls[d] == w.calls[d])
            && w'.calls[c].id == Some(w.next) && w'.calls[c].info == w.calls[c].info
            && Engaged(w'.calls[c]) == Engaged(w.calls[c]) && !OwnsFlag(w.calls[c])
            && WellFormed(w') && Ok(LocalOf(w', c)) && w'.latch == w.latch
  {
    hide Ok, OwnsFlag, Engaged, StepBegin;
    var l := LocalOf(w, c);
    AwaitingHasNoId(l);
    GrantOk(l, w.next);
    var l' := StepBegin(Local(l.call.(id := Some(w.next)), EMPTY_SLOT, l.env), AwaitPermit);
    GrantEngages(l, w.next);
    FlagKept(w, c, l');
    assert LocalOf(Grant(w, c), c) == l';
  }

  lemma GrantKeepsInv(w: World, c: CallId)
    requires Inv(w) && c in w.calls && w.calls[c].pc == Begin(AwaitPermit)
    ensures Inv(Grant(w, c))
  {
    hide Ok, OwnsFlag, Engaged, Grant;
    GrantPlaces(w, c);
    var w' := Grant(w, c);
    forall d | d in w.calls && d != c ensures Ok(LocalOf(w', d)) { assert LocalOf(w', d) == LocalOf(w, d); }
  }

  lemma AwaitingHasNoId(l: Local)
    requires Ok(l) && l.call.pc == Begin(AwaitPermit)
    ensures l.call.id.None? && l.slot == EMPTY_SLOT
  {
  }

  lemma FlagKept(w: World, c: CallId, l: Local)
    requires l.env.flag == (l.call.info.connection in w.flags)
    ensures Put(w, c, l).flags == w.flags
  {
  }

  lemma GrantEngages(l: Local, ticket: QueryId)
    requires l.call.pc == Begin(AwaitPermit)
    ensures var l' := StepBegin(Local(l.call.(id := Some(ticket)), EMPTY_SLOT, l.env), AwaitPermit);
      && l'.call.id == Some(ticket) && l'.call.info == l.call.info && l'.env == l.env
      && Engaged(l'.call) == Engaged(l.call) && !OwnsFlag(l'.call) && !OwnsFlag(l.call)
  {
  }

  lemma NewCallOk(info: Info, env: Env)
    ensures Ok(Local(NewCall(info), EMPTY_SLOT, env)) && !Engaged(NewCall(info)) && NewCall(info).id.None?
  {
    hide OwnedS3, RetiredUpTo, Quiet, PlanRetained, BodyOk, CleanupOk, LeaveOk, AfterOk;
  }

  lemma StartKeepsInv(w: World, c: CallId, info: Info)
    requires Inv(w) && c !in w.calls
    ensures Inv(Apply(w, Start(c, info)))
  {
    hide Ok, OwnsFlag, Engaged, NewCall;
    var w' := Apply(w, Start(c, info));
    NewCallOk(info, EnvOf(w, info.connection));
    assert w'.calls[c].info == info by { NewCallInfo(info); }
    assert LocalOf(w', c) == Local(NewCall(info), EMPTY_SLOT, EnvOf(w, info.connection));
    forall d | d in w.calls ensures LocalOf(w', d) == LocalOf(w, d) {}
  }

  lemma NewCallInfo(info: Info)
    ensures NewCall(info).info == info
  {
  }

  lemma WorkKeepsInv(w: World, q: QueryId, move: WorkMove)
    requires Inv(w) && q in w.slots && MayWork(w.slots[q], move)
    ensures Inv(Apply(w, Work(q, move)))
  {
    hide Ok, OwnsFlag, Engaged;
    var w' := Apply(w, Work(q, move));
    forall d | d in w.calls ensures Ok(LocalOf(w', d)) {
      var l := LocalOf(w, d);
      if l.call.id == Some(q) {
        WorkedOk(l, move);
      } else {
        assert LocalOf(w', d) == l;
      }
    }
  }

  lemma LatchKeepsInv(w: World)
    requires Inv(w)
    ensures Inv(Apply(w, LatchElsewhere))
  {
    hide Ok, OwnsFlag, Engaged;
    var w' := Apply(w, LatchElsewhere);
    forall d | d in w.calls ensures Ok(LocalOf(w', d)) {
      OwnsMeansUp(LocalOf(w, d));
      DisturbedOk(LocalOf(w, d), LocalOf(w', d));
    }
  }

  lemma FatalKeepsInv(w: World)
    requires Inv(w)
    ensures Inv(Apply(w, FatalElsewhere))
  {
    hide Ok, OwnsFlag, Engaged;
    var w' := Apply(w, FatalElsewhere);
    forall d | d in w.calls ensures Ok(LocalOf(w', d)) {
      OwnsMeansUp(LocalOf(w, d));
      DisturbedOk(LocalOf(w, d), LocalOf(w', d));
    }
  }

  lemma ShutKeepsInv(w: World, q: QueryId)
    requires Inv(w) && w.fatal && q in w.slots
    ensures Inv(Apply(w, ShutGate(q)))
  {
    hide Ok, OwnsFlag, Engaged;
    var w' := Apply(w, ShutGate(q));
    forall d | d in w.calls ensures Ok(LocalOf(w', d)) {
      OwnsMeansUp(LocalOf(w, d));
      DisturbedOk(LocalOf(w, d), LocalOf(w', d));
    }
  }

  lemma GoKeepsInv(w: World, c: CallId, choice: Choice)
    requires Inv(w) && Enabled(w, Go(c, choice))
    ensures Inv(Apply(w, Go(c, choice)))
  {
    hide Ok, OwnsFlag, Engaged, StepLocal, EnabledLocal, FlagStep;
    if Granting(w, Go(c, choice)) {
      GrantKeepsInv(w, c);
    } else {
      var l := LocalOf(w, c);
      StepLocalOk(l, choice);
      StepFlag(l, choice);
      EngagesAtTheCheck(l, StepLocal(l, choice));
      MovesKeepInv(w, c, StepLocal(l, choice));
    }
  }

  lemma EngagesAtTheCheck(l: Local, l': Local)
    requires FlagStep(l, l')
    ensures Engaged(l'.call) && !Engaged(l.call) ==> l.call.pc == Begin(CheckNested) && l.call.info.hasState
  {
  }

  lemma ApplyKeepsInv(w: World, e: Event)
    requires Inv(w) && Enabled(w, e)
    ensures Inv(Apply(w, e))
  {
    hide Ok, Apply;
    match e {
      case Start(c, info) => EnabledStart(w, c, info); StartKeepsInv(w, c, info);
      case Go(c, choice) => GoKeepsInv(w, c, choice);
      case Work(q, move) => EnabledWork(w, q, move); WorkKeepsInv(w, q, move);
      case LatchElsewhere => LatchKeepsInv(w);
      case FatalElsewhere => FatalKeepsInv(w);
      case ShutGate(q) => EnabledShut(w, q); ShutKeepsInv(w, q);
    }
  }

  lemma EnabledStart(w: World, c: CallId, info: Info)
    requires WellFormed(w) && Enabled(w, Start(c, info))
    ensures c !in w.calls
  {
  }

  lemma EnabledWork(w: World, q: QueryId, move: WorkMove)
    requires WellFormed(w) && Enabled(w, Work(q, move))
    ensures q in w.slots && MayWork(w.slots[q], move)
  {
  }

  lemma EnabledShut(w: World, q: QueryId)
    requires WellFormed(w) && Enabled(w, ShutGate(q))
    ensures w.fatal && q in w.slots
  {
  }
}
