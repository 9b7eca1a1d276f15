/**
  A window that holds a permit can always be driven to give it back, and does so after a bounded
  number of its own steps however they go.
 */
module ExecutionProgress {
  import opened Basics
  import opened ExecutionWindow
  import opened ExecutionRuns

  function RetireRank(s: RetireStep): nat {
    match s
    case CloseGate => 4 case AwaitSubmissions => 3 case QuiesceScans => 2 case SettleQueues => 1 case AwaitWork => 0
  }

  function CleanupRank(c: CleanupStep): nat {
    match c
    case BestEffort(s) => 4 + RetireRank(s)
    case Latch => 9
    case Release(s) => 14 - Index(s)
    case CheckPreparation => 15
    case Retire(s) => 16 + RetireRank(s)
  }

  function JobRank(job: EngineJob): nat {
    match job
    case Destroying => 23 case Quiescing => 28 case Completing => 33
  }

  function BodyRank(d: BodyStep): nat {
    match d
    case Close => 22
    case Engine(job, s) => JobRank(job) + RetireRank(s)
    case Execute => 38 case PrepareScans => 39 case Initialize => 40 case Retain => 41 case Plan => 42
  }

  const MAX_RANK: nat := 53

  /** How far a call is from dropping its permit. */
  function Rank(pc: Pc): (r: nat)
    ensures r <= MAX_RANK
  {
    match pc
    case Begin(b) => MAX_RANK - BeginRank(b)
    case Body(d) => BodyRank(d)
    case Destructor => 21
    case Cleanup(_, c) => CleanupRank(c)
    case Leave(_, v) => (match v case EraseActive => 3 case LowerFlag => 2 case DropPermit => 1)
    case _ => 0
  }

  /** The retirement step a call stands before, if it is retiring. */
  function Retiring(pc: Pc): Option<RetireStep> {
    match pc
    case Body(Engine(_, s)) => Some(s)
    case Cleanup(_, Retire(s)) => Some(s)
    case Cleanup(_, BestEffort(s)) => Some(s)
    case _ => None
  }

  /** The call waits for submissions or work of its own query. */
  predicate Waits(l: Local) {
    Retiring(l.call.pc).Some? && !MayPassRetire(l.slot, Retiring(l.call.pc).value)
  }

  function Outstanding(slot: Slot): nat {
    if slot.entry.None? then 0 else slot.entry.value.owning + slot.entry.value.settling + slot.entry.value.leases
  }

  /** No fault, but for a plan that can no longer be retained. */
  function Drive(l: Local): Choice {
    if l.call.pc == Body(PrepareScans) then Prepare(0, false)
    else if l.call.pc == Body(Retain) && !MayProceed(l) then Throw(Standard, false)
    else Proceed
  }

  function Drain(slot: Slot): WorkMove {
    if slot.entry.Some? && slot.entry.value.owning > 0 then Withdraw
    else if slot.entry.Some? && slot.entry.value.settling > 0 then Settle
    else Return
  }

  predicate Closer(l: Local, l': Local) {
    Rank(l'.call.pc) < Rank(l.call.pc) || !l'.slot.permit
  }

  lemma BodyDrives(l: Local)
    requires Ok(l) && l.call.pc.Body? && !Waits(l)
    ensures EnabledLocal(l, Drive(l)) && Rank(StepLocal(l, Drive(l)).call.pc) < Rank(l.call.pc)
  {
    hide OwnedS3, Common, CleanupOk, LeaveOk, AfterOk, BeginOk;
  }

  lemma CleanupDrives(l: Local)
    requires Ok(l) && l.call.pc.Cleanup? && !Waits(l)
    ensures EnabledLocal(l, Drive(l)) && Rank(StepLocal(l, Drive(l)).call.pc) < Rank(l.call.pc)
  {
    hide OwnedS3, Common, BodyOk, LeaveOk, AfterOk, BeginOk, PathOk;
  }

  lemma OthersDrive(l: Local)
    requires l.call.pc.Begin? || l.call.pc.Leave? || (l.call.pc == Destructor && l.call.scope == Active)
    ensures EnabledLocal(l, Drive(l)) && Closer(l, StepLocal(l, Drive(l)))
  {
    hide OwnedS3;
  }

  lemma PermitPlaces(l: Local)
    requires Ok(l) && l.slot.permit
    ensures var pc := l.call.pc;
      && pc != Begin(CheckNested) && pc != Begin(AwaitPermit) && l.call.id.Some?
      && (pc.Begin? || pc.Body? || pc.Cleanup? || pc.Leave? || (pc == Destructor && l.call.scope == Active))
  {
    hide OwnedS3, Located;
  }

  /** A call that holds a permit and does not wait can step on without a fault. */
  lemma Drives(l: Local)
    requires Ok(l) && l.slot.permit && !Waits(l)
    ensures EnabledLocal(l, Drive(l)) && Closer(l, StepLocal(l, Drive(l)))
  {
    hide Ok, EnabledLocal, StepLocal, Drive, Rank;
    PermitPlaces(l);
    if l.call.pc.Body? { BodyDrives(l); } else if l.call.pc.Cleanup? { CleanupDrives(l); } else { OthersDrive(l); }
  }

  /** What a waiting call waits for is work its own workers can always finish. */
  lemma Drains(l: Local)
    requires Ok(l) && Waits(l)
    ensures MayWork(l.slot, Drain(l.slot))
    ensures var worked := Worked(l.slot.entry.value, Drain(l.slot));
      worked.owning + worked.settling + worked.leases < Outstanding(l.slot)
  {
    hide OwnedS3, Common, LeaveOk, AfterOk, BeginOk, PathOk;
  }

  // ------------------------------------------------------------------- runs

  /** `es` leads from `ws[0]` through `ws`. */
  ghost predicate Leads(ws: seq<World>, es: seq<Event>) {
    && |ws| == |es| + 1
    && forall i :: 0 <= i < |es| ==> WellFormed(ws[i]) && Enabled(ws[i], es[i]) && ws[i + 1] == Apply(ws[i], es[i])
  }

  /** A fault-free step of call `c`, the refusal to retain a plan twice or late, or work that ends. */
  predicate Gentle(w: World, e: Event, c: CallId) {
    match e
    case Go(d, choice) =>
      d == c && c in w.calls && (choice.Throw? ==> w.calls[c].pc == Body(Retain))
    case Work(q, move) =>
      c in w.calls && w.calls[c].id == Some(q) && (move == Withdraw || move == Settle || move == Return)
    case _ => false
  }

  ghost predicate PermitReturns(w: World, c: CallId) {
    exists ws, es :: GivesBack(ws, es, w, c)
  }

  ghost predicate GivesBack(ws: seq<World>, es: seq<Event>, w: World, c: CallId) {
    && Leads(ws, es) && ws[0] == w && (forall i :: 0 <= i < |es| ==> Gentle(ws[i], es[i], c))
    && var last := ws[|es|]; WellFormed(last) && c in last.calls && !LocalOf(last, c).slot.permit
  }

  lemma OneMore(w: World, e: Event, c: CallId)
    requires WellFormed(w) && Enabled(w, e) && Gentle(w, e, c) && PermitReturns(Apply(w, e), c)
    ensures PermitReturns(w, c)
  {
    hide Enabled, Apply, Gentle, WellFormed, LocalOf;
    var ws, es :| GivesBack(ws, es, Apply(w, e), c);
    var ws', es' := [w] + ws, [e] + es;
    forall i | 0 <= i < |es'|
      ensures WellFormed(ws'[i]) && Enabled(ws'[i], es'[i]) && ws'[i + 1] == Apply(ws'[i], es'[i])
      ensures Gentle(ws'[i], es'[i], c)
    {
      if i > 0 { assert ws'[i] == ws[i - 1] && es'[i] == es[i - 1]; }
    }
    assert GivesBack(ws', es', w, c);
  }

  lemma Finished(w: World, c: CallId)
    requires WellFormed(w) && c in w.calls && !LocalOf(w, c).slot.permit
    ensures PermitReturns(w, c)
  {
    assert GivesBack([w], [], w, c);
  }

  lemma DriveIsGentle(w: World, c: CallId)
    requires WellFormed(w) && c in w.calls
    ensures Gentle(w, Go(c, Drive(LocalOf(w, c))), c)
  {
  }

  /** From every state of every run, a call that holds a permit can be driven to give it back. */
  lemma {:induction false} PermitCanBeReturned(w: World, c: CallId)
    requires Inv(w) && c in w.calls
    ensures PermitReturns(w, c)
    decreases Rank(w.calls[c].pc), Outstanding(LocalOf(w, c).slot)
  {
    hide Ok, StepLocal, EnabledLocal, Rank, Drive, Drain, Gentle, PermitReturns, Waits, MayWork, Worked;
    var l := LocalOf(w, c);
    if !l.slot.permit {
      Finished(w, c);
    } else if Waits(l) {
      DrainStep(w, c);
      PermitCanBeReturned(Apply(w, Work(l.call.id.value, Drain(l.slot))), c);
      OneMore(w, Work(l.call.id.value, Drain(l.slot)), c);
    } else {
      Drives(l);
      PermitPlaces(l);
      var e := Go(c, Drive(l));
      ApplyKeepsInv(w, e);
      StepLands(w, c, Drive(l));
      DriveIsGentle(w, c);
      if LocalOf(Apply(w, e), c).slot.permit { PermitCanBeReturned(Apply(w, e), c); } else { Finished(Apply(w, e), c); }
      OneMore(w, e, c);
    }
  }

  lemma DrainStep(w: World, c: CallId)
    requires Inv(w) && c in w.calls && Waits(LocalOf(w, c)) && LocalOf(w, c).slot.permit
    ensures w.calls[c].id.Some?
    ensures var e := Work(w.calls[c].id.value, Drain(LocalOf(w, c).slot));
      && Enabled(w, e) && Gentle(w, e, c) && Inv(Apply(w, e)) && c in Apply(w, e).calls
      && Apply(w, e).calls[c] == w.calls[c]
      && Outstanding(LocalOf(Apply(w, e), c).slot) < Outstanding(LocalOf(w, c).slot)
  {
    hide Ok, Waits;
    var l := LocalOf(w, c);
    PermitPlaces(l);
    Drains(l);
    var e := Work(w.calls[c].id.value, Drain(l.slot));
    ApplyKeepsInv(w, e);
  }

  /** The same, along runs. */
  lemma PermitsComeBack(ws: seq<World>, es: seq<Event>, i: nat, c: CallId)
    requires IsRun(ws, es) && i < |ws| && c in ws[i].calls
    ensures PermitReturns(ws[i], c)
  {
    RunKeepsInv(ws, es, i);
    PermitCanBeReturned(ws[i], c);
  }

  // ------------------------------------------------------------ every own step counts

  lemma BeginLowers(l: Local, choice: Choice)
    requires l.call.pc.Begin? && EnabledLocal(l, choice)
    ensures Closer(l, StepLocal(l, choice)) || l.call.pc == Begin(CheckNested) || l.call.pc == Begin(AwaitPermit)
  {
    hide OwnedS3;
  }

  lemma BodyLowers(l: Local, choice: Choice)
    requires l.call.pc.Body? && EnabledLocal(l, choice)
    ensures Closer(l, StepLocal(l, choice))
  {
    hide OwnedS3;
  }

  lemma CleanupLowers(l: Local, choice: Choice)
    requires l.call.pc.Cleanup? && EnabledLocal(l, choice)
    ensures Closer(l, StepLocal(l, choice))
  {
    hide OwnedS3;
  }

  lemma LeaveLowers(l: Local, choice: Choice)
    requires l.call.pc.Leave? || (l.call.pc == Destructor && l.call.scope == Active)
    requires EnabledLocal(l, choice)
    ensures Closer(l, StepLocal(l, choice))
  {
    hide OwnedS3;
  }

  /** Every step of a call that holds a permit, faulted or not, brings it closer to dropping the permit. */
  lemma OwnStepLowers(l: Local, choice: Choice)
    requires Ok(l) && l.slot.permit && EnabledLocal(l, choice)
    ensures Closer(l, StepLocal(l, choice))
  {
    hide Ok, EnabledLocal, StepLocal, Rank;
    PermitPlaces(l);
    if l.call.pc.Begin? { BeginLowers(l, choice); }
    else if l.call.pc.Body? { BodyLowers(l, choice); }
    else if l.call.pc.Cleanup? { CleanupLowers(l, choice); }
    else { LeaveLowers(l, choice); }
  }

  /** How many of the events from `i` up to `j` are steps of call `c`. */
  function OwnSteps(es: seq<Event>, c: CallId, i: nat, j: nat): nat
    requires i <= j <= |es|
  {
    if i == j then 0 else OwnSteps(es, c, i, j - 1) + if es[j - 1].Go? && es[j - 1].c == c then 1 else 0
  }

  /** Call `c` holds its permit in every state from `i` to `j`. */
  ghost predicate HoldsThroughout(ws: seq<World>, c: CallId, i: nat, j: nat) {
    forall n :: i <= n <= j && n < |ws| ==> WellFormed(ws[n]) && c in ws[n].calls && LocalOf(ws[n], c).slot.permit
  }

  lemma StepOfCallLowers(w: World, e: Event, c: CallId)
    requires Inv(w) && Enabled(w, e) && c in w.calls && LocalOf(w, c).slot.permit
    ensures var w' := Apply(w, e);
      && WellFormed(w') && c in w'.calls
      && (LocalOf(w', c).slot.permit ==>
            Rank(w'.calls[c].pc) + (if e.Go? && e.c == c then 1 else 0) <= Rank(w.calls[c].pc))
  {
    hide Ok, StepLocal, EnabledLocal, Rank, SameResources;
    var l := LocalOf(w, c);
    PermitPlaces(l);
    if e.Go? && e.c == c {
      OwnStepLowers(l, e.choice);
      StepLands(w, c, e.choice);
    } else {
      OthersKeepResources(w, e, c);
    }
  }

  /**
    In every run, however its steps interleave and whichever of them fail, a call takes only a bounded
    number of steps of its own while it holds its permit.
   */
  lemma {:induction false} PermitIsHeldForBoundedSteps(ws: seq<World>, es: seq<Event>, c: CallId, i: nat, j: nat)
    requires IsRun(ws, es) && i <= j < |ws| && HoldsThroughout(ws, c, i, j)
    ensures c in ws[i].calls && c in ws[j].calls
    ensures OwnSteps(es, c, i, j) + Rank(ws[j].calls[c].pc) <= Rank(ws[i].calls[c].pc) <= MAX_RANK
    decreases j
  {
    hide Ok, Apply, Enabled, Rank, LocalOf, Inv;
    assert c in ws[i].calls && c in ws[j].calls;
    if i < j {
      PermitIsHeldForBoundedSteps(ws, es, c, i, j - 1);
      RunKeepsInv(ws, es, j - 1);
      assert LocalOf(ws[j - 1], c).slot.permit && LocalOf(ws[j], c).slot.permit;
      StepOfCallLowers(ws[j - 1], es[j - 1], c);
    }
  }
}
