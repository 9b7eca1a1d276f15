/**
  A run in which a query fails on the GPU, closes its window and starts its CPU replay; and what
  goes wrong when one connection constructs two scopes at once.
 */
module ExecutionWitness {
  import opened Basics
  import opened ExecutionWindow
  import opened ExecutionRuns
  import SqlRewrite

  const QUERY := Info(7, true, "SELECT 1", true)

  lemma {:induction false} TokensFit(s: string, k: nat)
    requires k < |SqlRewrite.Lex(s)|
    ensures |SqlRewrite.Lex(s)[k].text| <= |s|
    decreases k
  {
    SqlRewrite.LexCons(s);
    if k > 0 { TokensFit(s[SqlRewrite.FirstLength(s)..], k - 1); }
  }

  /** Too short a text to hold an owned call. */
  lemma QueryIsNotOwned()
    ensures !OwnedS3(QUERY)
  {
    var s := QUERY.query;
    SqlRewrite.ReferencesExactlyOwnedCalls(s);
    var ts := SqlRewrite.Lex(s);
    forall k | 0 <= k < |ts| ensures !SqlRewrite.OwnedCallAt(false, ts, k) {
      TokensFit(s, k);
      assert ts[k..][0] == ts[k];
    }
  }

  /** Some run of call 0 alone ends with it in state `l`. */
  ghost predicate Reached(l: Local) {
    exists ws, es :: EndsIn(ws, es, l)
  }

  ghost predicate EndsIn(ws: seq<World>, es: seq<Event>, l: Local) {
    IsRun(ws, es) &&
    var w := ws[|ws| - 1];
    WellFormed(w) && 0 in w.calls && LocalOf(w, 0) == l
  }

  lemma RunExtends(ws: seq<World>, es: seq<Event>, e: Event)
    requires IsRun(ws, es) && WellFormed(ws[|ws| - 1]) && Enabled(ws[|ws| - 1], e)
    ensures IsRun(ws + [Apply(ws[|ws| - 1], e)], es + [e])
  {
    hide Enabled, Apply, WellFormed;
  }

  /** A step of the call alone carries over to the run. */
  lemma Forward(l: Local, choice: Choice) returns (next: Local)
    requires Reached(l) && EnabledLocal(l, choice)
    requires l.call.pc != Begin(CheckNested) && l.call.pc != Begin(AwaitPermit)
    ensures next == StepLocal(l, choice) && Reached(next)
  {
    next := StepLocal(l, choice);
    hide EnabledLocal, StepLocal, Ok;
    var ws: seq<World>, es: seq<Event> :| EndsIn(ws, es, l);
    var w, e := ws[|ws| - 1], Go(0, choice);
    RunKeepsInv(ws, es, |es|);
    RunExtends(ws, es, e);
    StepLands(w, 0, choice);
    assert EndsIn(ws + [Apply(w, e)], es + [e], next);
  }

  function Entered(pc: Pc): Local {
    Local(Call(QUERY, pc, Some(0), Active, NotEntered, false, None,
               Outcome(false, None, NotEntered), History(0, 0, [], false, false)),
          EMPTY_SLOT.(permit := true), Env(false, false, false))
  }

  lemma PermitGranted()
    ensures Reached(Entered(Begin(BuildCompletion)))
  {
    var call := NewCall(QUERY);
    var w1 := World(map[0 := call], map[], map[], false, false, 0);
    assert Apply(INITIAL, Start(0, QUERY)) == w1;
    var ws, es := [INITIAL, w1], [Start(0, QUERY)];
    assert IsRun(ws, es);
    var e := Go(0, Proceed);
    RunExtends(ws, es, e);
    var w2 := w1.(calls := map[0 := call.(pc := Begin(AwaitPermit))]);
    assert Apply(w1, e).calls == w2.calls && Apply(w1, e).flags == map[];
    assert Apply(w1, e) == w2;
    ws, es := ws + [w2], es + [e];
    RunExtends(ws, es, e);
    var w3 := Grant(w2, 0);
    assert LocalOf(w3, 0) == Entered(Begin(BuildCompletion));
    assert EndsIn(ws + [w3], es + [e], Entered(Begin(BuildCompletion)));
  }

  /** The window open and its query registered, about to plan. */
  function Opened(): Local {
    Local(Call(QUERY, Body(Plan), Some(0), Active, CleanupFailed, false, None,
               Outcome(false, None, NotEntered), History(0, 0, [], true, false)),
          Slot(true, true, true, Some(Entry(true, 0, 0, 0, false)), true, true, false, false, 0),
          Env(false, false, true))
  }

  /** The permit held and the scope published, as far as the begin has come. */
  function Beginning(pc: Pc, completion: bool, active: bool, healthy: bool): Local {
    Local(Entered(pc).call.(past := History(0, 0, [], healthy, false)),
          EMPTY_SLOT.(permit := true, completion := completion, active := active), Env(false, false, true))
  }

  lemma ScopePublished()
    ensures Reached(Beginning(Begin(TakeOptions), true, true, true))
  {
    hide Reached;
    PermitGranted();
    var l := Forward(Entered(Begin(BuildCompletion)), Proceed);
    assert l == Entered(Begin(RaiseFlag));
    l := Forward(l, Proceed);
    assert l == Beginning(Begin(PublishCompletion), false, false, false);
    l := Forward(l, Proceed);
    assert l == Beginning(Begin(PublishActive), true, false, false);
    l := Forward(l, Proceed);
    assert l == Beginning(Begin(CheckHealth), true, true, false);
    l := Forward(l, Proceed);
  }

  /** The gate open, as far as the registration has come. */
  function Registering(step: BeginStep, repositories: bool): Local {
    Local(Beginning(Begin(step), true, true, true).call,
          Slot(true, true, true, Some(Entry(true, 0, 0, 0, false)), repositories, false, false, false, 0),
          Env(false, false, true))
  }

  lemma WindowOpens()
    ensures Reached(Opened())
  {
    hide Reached;
    ScopePublished();
    var l := Forward(Beginning(Begin(TakeOptions), true, true, true), Proceed);
    assert l == Beginning(Begin(OpenGate), true, true, true);
    l := Forward(l, Proceed);
    assert l == Registering(CreateRepositories, false);
    l := Forward(l, Proceed);
    assert l == Registering(RegisterCreator, true);
    l := Forward(l, Proceed);
    assert l == Opened();
  }

  /** Running with three checkpoint keys when the device fails. */
  function Running(pc: Pc, raised: Option<Raised>, open: bool, producing: bool): Local {
    Local(Call(QUERY, pc, Some(0), Active, CleanupFailed, true, raised,
               Outcome(false, None, NotEntered), History(0, 0, [], true, false)),
          Slot(true, true, true, Some(Entry(open, 0, 0, 0, true)), true, true, true, producing, 3),
          Env(false, false, true))
  }

  const GPU_ERROR := Raised(Standard, false)

  /** Planned, with the plan retained or not, before any scan. */
  function Planned(step: BodyStep, plan: bool): Local {
    Local(Opened().call.(pc := Body(step), enginePlan := true),
          Opened().slot.(entry := Some(Entry(true, 0, 0, 0, plan))), Opened().env)
  }

  lemma ExecutionFails()
    ensures Reached(Running(Body(Engine(Quiescing, CloseGate)), Some(GPU_ERROR), true, true))
  {
    hide Reached;
    WindowOpens();
    var l := Forward(Opened(), Proceed);
    assert l == Planned(Retain, false);
    l := Forward(l, Proceed);
    assert l == Planned(Initialize, true);
    l := Forward(l, Proceed);
    assert l == Planned(PrepareScans, true);
    l := Forward(l, Prepare(3, true));
    assert l == Running(Body(Execute), None, true, true);
    l := Forward(l, Throw(Standard, false));
    assert l == Running(Body(Engine(Quiescing, CloseGate)), Some(GPU_ERROR), true, true);
  }

  /** After the engine is gone: the failure recorded, the window still open. */
  function Failing(): Local {
    Running(Body(Close), None, false, false).(call :=
      Running(Body(Close), None, false, false).call.(
        enginePlan := false, out := Outcome(false, Some(Standard), NotEntered)))
  }

  lemma EngineQuiesces()
    ensures Reached(Running(Body(Engine(Destroying, CloseGate)), Some(GPU_ERROR), false, false))
  {
    hide Reached;
    ExecutionFails();
    var l := Forward(Running(Body(Engine(Quiescing, CloseGate)), Some(GPU_ERROR), true, true), Proceed);
    assert l == Running(Body(Engine(Quiescing, AwaitSubmissions)), Some(GPU_ERROR), false, true);
    l := Forward(l, Proceed);
    assert l == Running(Body(Engine(Quiescing, QuiesceScans)), Some(GPU_ERROR), false, true);
    l := Forward(l, Proceed);
    assert l == Running(Body(Engine(Quiescing, SettleQueues)), Some(GPU_ERROR), false, false);
    l := Forward(l, Proceed);
    assert l == Running(Body(Engine(Quiescing, AwaitWork)), Some(GPU_ERROR), false, false);
    l := Forward(l, Proceed);
    assert l == Running(Body(Engine(Destroying, CloseGate)), Some(GPU_ERROR), false, false);
  }

  lemma EngineDestroys()
    ensures Reached(Running(Body(Engine(Destroying, AwaitWork)), Some(GPU_ERROR), false, false))
  {
    hide Reached;
    EngineQuiesces();
    var l := Forward(Running(Body(Engine(Destroying, CloseGate)), Some(GPU_ERROR), false, false), Proceed);
    assert l == Running(Body(Engine(Destroying, AwaitSubmissions)), Some(GPU_ERROR), false, false);
    l := Forward(l, Proceed);
    assert l == Running(Body(Engine(Destroying, QuiesceScans)), Some(GPU_ERROR), false, false);
    l := Forward(l, Proceed);
    assert l == Running(Body(Engine(Destroying, SettleQueues)), Some(GPU_ERROR), false, false);
    l := Forward(l, Proceed);
  }

  lemma EngineRetires()
    ensures Reached(Failing())
  {
    hide Reached;
    EngineDestroys();
    var l := Running(Body(Engine(Destroying, AwaitWork)), Some(GPU_ERROR), false, false);
    assert EngineGone(l) == Failing();
    var next := Forward(l, Proceed);
  }

  /** The cleanup of `finish()`, before anything is released. */
  function Cleaning(step: CleanupStep): Local {
    Local(Failing().call.(pc := Cleanup(OnFinish, step), past := History(0, 1, [], true, false)),
          Failing().slot, Failing().env)
  }

  lemma CleanupRetires()
    ensures Reached(Cleaning(Release(ResetCreator)))
  {
    hide Reached;
    EngineRetires();
    var l := Forward(Failing(), Proceed);
    assert l == Cleaning(Retire(CloseGate));
    l := Forward(l, Proceed);
    assert l == Cleaning(Retire(AwaitSubmissions));
    l := Forward(l, Proceed);
    assert l == Cleaning(Retire(QuiesceScans));
    l := Forward(l, Proceed);
    assert l == Cleaning(Retire(SettleQueues));
    l := Forward(l, Proceed);
    assert l == Cleaning(Retire(AwaitWork));
    l := Forward(l, Proceed);
    assert l == Cleaning(CheckPreparation);
    l := Forward(l, Proceed);
    assert l == Cleaning(Release(ResetCreator));
  }

  /** Everything released, the lease known to be released. */
  function Closed(): Local {
    Local(Call(QUERY, Leave(OnFinish, EraseActive), Some(0), Finished, Released, false, None,
               Outcome(false, Some(Standard), NotEntered),
               History(0, 1, [ResetCreator, EraseRepositories, ResetScans, DropPlan, ForgetQuery], true, false)),
          Slot(true, true, true, None, false, false, false, false, 0), Env(false, false, true))
  }

  /** The release after some of its steps. */
  function Freeing(step: ReleaseStep, done: seq<ReleaseStep>, repositories: bool, scans: bool, plan: bool): Local {
    Local(Cleaning(Release(step)).call.(past := History(0, 1, done, true, false)),
          Slot(true, true, true, Some(Entry(false, 0, 0, 0, plan)), repositories, false, scans, false,
               if scans then 3 else 0),
          Env(false, false, true))
  }

  lemma StateReleased()
    ensures Reached(Closed())
  {
    hide Reached;
    CleanupRetires();
    var l := Forward(Cleaning(Release(ResetCreator)), Proceed);
    assert l == Freeing(EraseRepositories, [ResetCreator], true, true, true);
    l := Forward(l, Proceed);
    assert l == Freeing(ResetScans, [ResetCreator, EraseRepositories], false, true, true);
    l := Forward(l, Proceed);
    assert l == Freeing(DropPlan, [ResetCreator, EraseRepositories, ResetScans], false, false, true);
    l := Forward(l, Proceed);
    assert l == Freeing(ForgetQuery, [ResetCreator, EraseRepositories, ResetScans, DropPlan], false, false, false);
    l := Forward(l, Proceed);
    assert l == Closed();
  }

  /** The window left and the permit back, the scope about to be destroyed. */
  function Left(pc: Pc, seen: LeaseState, completion: bool): Local {
    Local(Closed().call.(pc := pc, past := Closed().call.past.(releases := 1),
                         out := Outcome(false, Some(Standard), seen)),
          EMPTY_SLOT.(completion := completion), Env(false, false, false))
  }

  lemma WindowLeft()
    ensures Reached(Left(FinishReturned, NotEntered, true))
  {
    hide Reached;
    StateReleased();
    var l := Forward(Closed(), Proceed);
    assert l.call.pc == Leave(OnFinish, LowerFlag);
    l := Forward(l, Proceed);
    assert l.call.pc == Leave(OnFinish, DropPermit);
    l := Forward(l, Proceed);
  }

  lemma ScopeLeft()
    ensures Reached(Left(Replaying, Released, false))
  {
    hide Reached, OwnedS3;
    WindowLeft();
    QueryIsNotOwned();
    var l := Forward(Left(FinishReturned, NotEntered, true), Proceed);
    assert l == Left(Destructor, Released, true);
    l := Forward(l, Proceed);
    assert l == Left(EraseCompletion, Released, true);
    l := Forward(l, Proceed);
    assert l == Left(CountFailure, Released, false);
    l := Forward(l, Proceed);
    assert l == Left(Decide, Released, false);
    l := Forward(l, Judge(true, true));
  }

  lemma SameCall(w: World, l: Local)
    requires WellFormed(w) && 0 in w.calls && LocalOf(w, 0) == l
    ensures w.calls[0] == l.call
  {
  }

  /** CPU replay does start in some run, after a window that was opened, failed and closed. */
  lemma ReplayIsReachable()
    ensures exists ws: seq<World>, es: seq<Event> ::
      IsRun(ws, es) && 0 in ws[|ws| - 1].calls && ws[|ws| - 1].calls[0].pc == Replaying
  {
    hide Enabled, Apply, LocalOf;
    ScopeLeft();
    var l := Left(Replaying, Released, false);
    var ws: seq<World>, es: seq<Event> :| EndsIn(ws, es, l);
    assert ws[|ws| - 1].calls[0] == l.call by { SameCall(ws[|ws| - 1], l); }
  }

  // ------------------------------------------------- constructors of one connection

  /** The nesting check keeps windows of a connection apart exactly when its constructors do not overlap. */
  lemma CheckSufficesIffSerialized(w: World, c: CallId)
    requires Inv(w) && c in w.calls && w.calls[c].pc == Begin(CheckNested) && w.calls[c].info.hasState
    ensures Exclusive(Put(w, c, StepLocal(LocalOf(w, c), Proceed))) <==> LocalOf(w, c).env.flag || Serialized(w, c)
  {
    hide Ok, OwnsFlag, Identified;
    var l := LocalOf(w, c);
    var next := StepLocal(l, Proceed);
    var w' := Put(w, c, next);
    CheckEngages(l);
    hide StepLocal, Engaged, Constructing;
    assert w'.calls == w.calls[c := next.call];
    var connection := l.call.info.connection;
    forall d | d in w.calls && Engaged(w.calls[d]) && !l.env.flag && w.calls[d].info.connection == connection
      ensures Constructing(w.calls[d])
    {
      EngagedUnderALoweredFlag(LocalOf(w, d));
    }
    if !l.env.flag && !Serialized(w, c) {
      var d :| d in w.calls && d != c && w.calls[d].info.connection == connection && Constructing(w.calls[d]);
      ConstructingIsEngaged(w.calls[d]);
      assert Engaged(w'.calls[c]) && Engaged(w'.calls[d]) && c in w'.calls && d in w'.calls;
    }
  }

  lemma CheckEngages(l: Local)
    requires l.call.pc == Begin(CheckNested) && l.call.info.hasState
    ensures var next := StepLocal(l, Proceed);
      next.call.info == l.call.info && !Engaged(l.call) && (Engaged(next.call) <==> !l.env.flag)
  {
  }

  lemma EngagedUnderALoweredFlag(l: Local)
    requires Ok(l) && Engaged(l.call) && !l.env.flag
    ensures Constructing(l.call)
  {
    hide Located;
  }

  lemma ConstructingIsEngaged(call: Call)
    requires Constructing(call)
    ensures Engaged(call)
  {
  }

  /** A step of call `c` that heeds everything but the serialization of its connection. */
  ghost predicate LooseStep(w: World, c: CallId, choice: Choice, w': World) {
    && WellFormed(w) && c in w.calls && EnabledLocal(LocalOf(w, c), choice)
    && w' == if Granting(w, Go(c, choice)) then Grant(w, c) else Put(w, c, StepLocal(LocalOf(w, c), choice))
  }

  ghost predicate IsLooseRun(ws: seq<World>) {
    && ws != [] && ws[0] == INITIAL
    && forall i :: 0 <= i < |ws| - 1 ==> LooseNext(ws[i], ws[i + 1])
  }

  ghost predicate LooseStart(w: World, c: CallId, info: Info, w': World) {
    c !in w.calls && w' == w.(calls := w.calls[c := NewCall(info)])
  }

  ghost predicate LooseNext(w: World, w': World) {
    || (exists c: CallId, info: Info :: LooseStart(w, c, info, w'))
    || (exists c, choice :: LooseStep(w, c, choice, w'))
  }

  ghost predicate LooselyReached(w: World) {
    exists ws :: IsLooseRun(ws) && ws[|ws| - 1] == w
  }

  lemma LooseExtends(w: World, w': World)
    requires LooselyReached(w) && LooseNext(w, w')
    ensures LooselyReached(w')
  {
    hide LooseNext;
    var ws :| IsLooseRun(ws) && ws[|ws| - 1] == w;
    var longer := ws + [w'];
    forall i | 0 <= i < |longer| - 1 ensures LooseNext(longer[i], longer[i + 1]) {
      if i < |ws| - 1 { assert longer[i] == ws[i] && longer[i + 1] == ws[i + 1]; }
    }
    assert IsLooseRun(longer) && longer[|longer| - 1] == w';
  }

  lemma LooseGo(w: World, c: CallId) returns (w': World)
    requires LooselyReached(w) && WellFormed(w) && c in w.calls && EnabledLocal(LocalOf(w, c), Proceed)
    ensures w' == if Granting(w, Go(c, Proceed)) then Grant(w, c) else Put(w, c, StepLocal(LocalOf(w, c), Proceed))
    ensures LooselyReached(w')
  {
    w' := if Granting(w, Go(c, Proceed)) then Grant(w, c) else Put(w, c, StepLocal(LocalOf(w, c), Proceed));
    assert LooseStep(w, c, Proceed, w');
    LooseExtends(w, w');
  }

  /** Calls 0 and 1 of one connection, past the permit. */
  function Twin(a: Pc, b: Pc, flags: map<ConnectionId, CallId>): World {
    World(map[0 := NewCall(QUERY).(pc := a, id := Some(0)), 1 := NewCall(QUERY).(pc := b, id := Some(1))],
          map[0 := EMPTY_SLOT.(permit := true), 1 := EMPTY_SLOT.(permit := true)], flags, false, false, 2)
  }

  function Pair(a: Pc, b: Pc): World {
    World(map[0 := NewCall(QUERY).(pc := a), 1 := NewCall(QUERY).(pc := b)], map[], map[], false, false, 0)
  }

  lemma InitialReached()
    ensures LooselyReached(INITIAL)
  {
    var ws := [INITIAL];
    assert IsLooseRun(ws) && ws[|ws| - 1] == INITIAL;
  }

  lemma LooseBegin(w: World, c: CallId, w': World)
    requires LooselyReached(w) && LooseStart(w, c, QUERY, w')
    ensures LooselyReached(w')
  {
    LooseExtends(w, w');
  }

  lemma BothStart()
    ensures LooselyReached(Pair(Begin(CheckNested), Begin(CheckNested)))
  {
    hide LooselyReached;
    InitialReached();
    var one := INITIAL.(calls := map[0 := NewCall(QUERY)]);
    assert INITIAL.calls[0 := NewCall(QUERY)] == one.calls;
    LooseBegin(INITIAL, 0, one);
    var two := Pair(Begin(CheckNested), Begin(CheckNested));
    assert one.calls[1 := NewCall(QUERY)] == two.calls;
    LooseBegin(one, 1, two);
  }

  lemma BothPassTheCheck()
    ensures LooselyReached(Pair(Begin(AwaitPermit), Begin(AwaitPermit)))
  {
    hide LooselyReached;
    BothStart();
    var w := LooseGo(Pair(Begin(CheckNested), Begin(CheckNested)), 0);
    assert w.calls == Pair(Begin(AwaitPermit), Begin(CheckNested)).calls && w.flags == map[];
    assert w == Pair(Begin(AwaitPermit), Begin(CheckNested));
    w := LooseGo(w, 1);
    assert w.calls == Pair(Begin(AwaitPermit), Begin(AwaitPermit)).calls && w.flags == map[];
    assert w == Pair(Begin(AwaitPermit), Begin(AwaitPermit));
  }

  lemma BothAreGranted()
    ensures LooselyReached(Twin(Begin(BuildCompletion), Begin(BuildCompletion), map[]))
  {
    hide LooselyReached;
    BothPassTheCheck();
    var w := LooseGo(Pair(Begin(AwaitPermit), Begin(AwaitPermit)), 0);
    assert w.slots == map[0 := EMPTY_SLOT.(permit := true)] && w.flags == map[];
    assert w.calls[0] == NewCall(QUERY).(pc := Begin(BuildCompletion), id := Some(0));
    w := LooseGo(w, 1);
    var t := Twin(Begin(BuildCompletion), Begin(BuildCompletion), map[]);
    assert w.slots == t.slots && w.flags == t.flags;
    assert w.calls == t.calls;
    assert w == t;
  }

  lemma FirstRaisesTheFlag()
    ensures LooselyReached(Twin(Begin(PublishCompletion), Begin(BuildCompletion), map[7 := 0]))
  {
    hide LooselyReached;
    BothAreGranted();
    var w := LooseGo(Twin(Begin(BuildCompletion), Begin(BuildCompletion), map[]), 0);
    TwinMoves(w, Begin(RaiseFlag), Begin(BuildCompletion), map[]);
    w := LooseGo(w, 0);
    TwinMoves(w, Begin(PublishCompletion), Begin(BuildCompletion), map[7 := 0]);
  }

  lemma BothRaiseTheFlag()
    ensures LooselyReached(Twin(Begin(PublishCompletion), Begin(PublishCompletion), map[7 := 0]))
  {
    hide LooselyReached;
    FirstRaisesTheFlag();
    var w := LooseGo(Twin(Begin(PublishCompletion), Begin(BuildCompletion), map[7 := 0]), 1);
    TwinMoves(w, Begin(PublishCompletion), Begin(RaiseFlag), map[7 := 0]);
    w := LooseGo(w, 1);
    TwinMoves(w, Begin(PublishCompletion), Begin(PublishCompletion), map[7 := 0]);
  }

  lemma TwinMoves(w: World, a: Pc, b: Pc, flags: map<ConnectionId, CallId>)
    requires w.calls == Twin(a, b, flags).calls && w.slots == Twin(a, b, flags).slots && w.flags == flags
    requires !w.latch && !w.fatal && w.next == 2
    ensures w == Twin(a, b, flags)
  {
  }

  /** Two scopes constructed at once on one connection: both windows open. */
  lemma UnserializedWindowsOverlap()
    ensures exists w: World ::
      && LooselyReached(w) && 0 in w.calls && 1 in w.calls
      && w.calls[0].info == w.calls[1].info && w.calls[0].info.hasState
      && InsideWindow(w.calls[0]) && InsideWindow(w.calls[1])
  {
    BothRaiseTheFlag();
    hide LooselyReached;
    var w := Twin(Begin(PublishCompletion), Begin(PublishCompletion), map[7 := 0]);
    assert InsideWindow(w.calls[0]) && InsideWindow(w.calls[1]);
  }
}
