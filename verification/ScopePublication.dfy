/**
  Concurrent publication of scope sets. Writers copy, edit and publish under one mutex and swap
  the published pointer under another; readers take only the second, to copy the pointer.

  A call is a thread with a program counter. One step runs one thread from one lock operation or
  memory access to the next, and may let an allocation fail. `cells` is the memory the set
  pointers point into; a writer edits its own cell in place before publishing it.
 */
module ScopePublication {
  import opened Basics
  import opened ObjectStoreScopes

  datatype Update = Put(scope: Scope) | DropKey(key: string)

  function Key(u: Update): string { if u.Put? then u.scope.prefix else u.key }

  function Config(u: Update): Option<Scope> { if u.Put? then Some(u.scope) else None }

  datatype Thread =
    | Writer(update: Update, at: WritePc)
    | Reader(read: ReadPc)

  datatype WritePc =
    | Begin
    | Updating
    | Capturing
    | Captured(base: nat)
    | Copied(base: nat, next: nat)
    | Stripped(base: nat, next: nat)
    | Extended(base: nat, next: nat)
    | Ready(base: nat, next: nat)
    | Swapping(base: nat, next: nat)
    | Swapped
    | Leaving(ok: bool)
    | Returned(ok: bool)

  /** `seen` is what the cell held when it was captured, `upTo` how many updates were committed by then. */
  datatype ReadPc = Asking | Locked | Holding(cell: nat, seen: seq<Scope>, upTo: nat) | Gone

  datatype Commit = Commit(thread: nat, update: Update)

  datatype State = State(
    cells: map<nat, seq<Scope>>, published: nat, unused: nat, updateLock: Option<nat>, objectLock: Option<nat>,
    threads: seq<Thread>, log: seq<Commit>)

  // --------------------------------------------------------------------- steps

  function At(s: State, t: nat, pc: WritePc): State
    requires t < |s.threads| && s.threads[t].Writer?
  {
    s.(threads := s.threads[t := s.threads[t].(at := pc)])
  }

  function Commits(s: State, t: nat): State
    requires t < |s.threads| && s.threads[t].Writer?
  {
    s.(log := s.log + [Commit(t, s.threads[t].update)])
  }

  function Edit(s: State, cell: nat, contents: seq<Scope>): State {
    s.(cells := s.cells[cell := contents])
  }

  /** The step of writer `t`; a thread that must wait for a lock stays where it is. */
  function StepWriter(s: State, t: nat, fault: bool): State
    requires t < |s.threads| && s.threads[t].Writer? && CellsThere(s, s.threads[t].at)
  {
    var u := s.threads[t].update;
    match s.threads[t].at
    case Begin => if s.updateLock.None? then At(s, t, Updating).(updateLock := Some(t)) else s
    case Updating => if s.objectLock.None? then At(s, t, Capturing).(objectLock := Some(t)) else s
    case Capturing => At(s, t, Captured(s.published)).(objectLock := None)
    case Captured(base) =>
      if u.DropKey? && Lookup(s.cells[base], u.key).None? then At(Commits(s, t), t, Leaving(true))
      else if fault then At(s, t, Leaving(false))
      else Edit(At(s, t, Copied(base, s.unused)), s.unused, s.cells[base]).(unused := s.unused + 1)
    case Copied(base, next) =>
      Edit(At(s, t, Stripped(base, next)), next, Erased(s.cells[next], Key(u)))
    case Stripped(base, next) =>
      if fault then At(s, t, Leaving(false))
      else Edit(At(s, t, Extended(base, next)), next, Added(s.cells[next], Config(u)))
    case Extended(base, next) => Edit(At(s, t, Ready(base, next)), next, Sorted(s.cells[next]))
    case Ready(base, next) =>
      if s.objectLock.None? then At(s, t, Swapping(base, next)).(objectLock := Some(t)) else s
    case Swapping(base, next) => At(Commits(s, t), t, Swapped).(published := next)
    case Swapped => At(s, t, Leaving(true)).(objectLock := None)
    case Leaving(ok) => At(s, t, Returned(ok)).(updateLock := None)
    case Returned(_) => s
  }

  function StepReader(s: State, t: nat): State
    requires t < |s.threads| && s.threads[t].Reader? && s.published in s.cells
  {
    match s.threads[t].read
    case Asking =>
      if s.objectLock.None? then s.(threads := s.threads[t := Reader(Locked)], objectLock := Some(t)) else s
    case Locked =>
      var held := Holding(s.published, s.cells[s.published], |s.log|);
      s.(threads := s.threads[t := Reader(held)], objectLock := None)
    case Holding(_, _, _) => s.(threads := s.threads[t := Reader(Gone)])
    case Gone => s
  }

  /** A call arrives, or a thread moves. */
  datatype Step = CallPut(scope: Scope) | CallDrop(key: string) | CallCapture | Move(thread: nat, fault: bool)

  function Next(s: State, step: Step): State
    requires Inv(s)
  {
    match step
    case CallPut(scope) => s.(threads := s.threads + [Writer(Put(scope), Begin)])
    case CallDrop(key) => s.(threads := s.threads + [Writer(DropKey(key), Begin)])
    case CallCapture => s.(threads := s.threads + [Reader(Asking)])
    case Move(t, fault) =>
      if t >= |s.threads| then s
      else if s.threads[t].Writer? then (assert ThreadOk(s, t); StepWriter(s, t, fault))
      else StepReader(s, t)
  }

  // ------------------------------------------------------------------- the invariant

  predicate CellsThere(s: State, pc: WritePc) {
    match pc
    case Captured(base) => base in s.cells
    case Copied(base, next) => base in s.cells && next in s.cells
    case Stripped(base, next) => base in s.cells && next in s.cells
    case Extended(base, next) => base in s.cells && next in s.cells
    case Ready(base, next) => base in s.cells && next in s.cells
    case Swapping(base, next) => base in s.cells && next in s.cells
    case _ => true
  }

  predicate HoldsUpdate(pc: WritePc) { !pc.Begin? && !pc.Returned? }

  predicate HoldsObject(th: Thread) {
    if th.Writer? then th.at.Capturing? || th.at.Swapping? || th.at.Swapped? else th.read.Locked?
  }

  predicate HasNext(pc: WritePc) {
    pc.Copied? || pc.Stripped? || pc.Extended? || pc.Ready? || pc.Swapping?
  }

  predicate Committed(pc: WritePc) {
    pc.Swapped? || (pc.Leaving? && pc.ok) || (pc.Returned? && pc.ok)
  }

  /** The edits made so far to the writer's own copy of the published set. */
  predicate EditOk(s: State, u: Update, pc: WritePc)
    requires CellsThere(s, pc) && s.published in s.cells
  {
    var current := s.cells[s.published];
    match pc
    case Captured(base) => base == s.published
    case Copied(base, next) => base == s.published && s.cells[next] == current
    case Stripped(base, next) => base == s.published && s.cells[next] == Erased(current, Key(u))
    case Extended(base, next) => base == s.published && s.cells[next] == Added(Erased(current, Key(u)), Config(u))
    case Ready(base, next) => base == s.published && s.cells[next] == WithScope(current, Key(u), Config(u))
    case Swapping(base, next) => base == s.published && s.cells[next] == WithScope(current, Key(u), Config(u))
    case _ => true
  }

  /** The last committed update of `key`, if it published anything. */
  function Effect(log: seq<Commit>, key: string): Option<Scope> {
    if log == [] then None
    else
      var u := log[|log| - 1].update;
      if Key(u) == key then Config(u) else Effect(log[..|log| - 1], key)
  }

  /** The set denotes the map got by applying the committed updates in order. */
  ghost predicate Denotes(scopes: seq<Scope>, log: seq<Commit>) {
    Ordered(scopes) && Distinct(scopes) && forall key :: Lookup(scopes, key) == Effect(log, key)
  }

  predicate WriterOk(s: State, t: nat)
    requires t < |s.threads| && s.threads[t].Writer? && s.published in s.cells
  {
    var w := s.threads[t];
    && CellsThere(s, w.at) && EditOk(s, w.update, w.at)
    && (HoldsUpdate(w.at) <==> s.updateLock == Some(t))
    && (HasNext(w.at) ==> w.at.next != s.published)
    && (Committed(w.at) <==> exists k :: 0 <= k < |s.log| && s.log[k].thread == t)
  }

  ghost predicate ReaderOk(s: State, t: nat)
    requires t < |s.threads| && s.threads[t].Reader?
  {
    var r := s.threads[t].read;
    r.Holding? ==>
      && r.cell in s.cells && s.cells[r.cell] == r.seen && r.upTo <= |s.log| && Denotes(r.seen, s.log[..r.upTo])
  }

  /** No reader holds the cell a writer is editing. */
  predicate Private(s: State, w: nat, r: nat)
    requires w < |s.threads| && r < |s.threads|
  {
    s.threads[w].Writer? && HasNext(s.threads[w].at) && s.threads[r].Reader? && s.threads[r].read.Holding? ==>
      s.threads[w].at.next != s.threads[r].read.cell
  }

  predicate LogOk(s: State) {
    && (forall k :: 0 <= k < |s.log| ==> s.log[k].thread < |s.threads| && s.threads[s.log[k].thread].Writer?
                                         && s.log[k].update == s.threads[s.log[k].thread].update)
    && (forall j, k :: 0 <= j < k < |s.log| ==> s.log[j].thread != s.log[k].thread)
  }

  predicate LocksOk(s: State) {
    && (s.updateLock.Some? ==> s.updateLock.value < |s.threads| && s.threads[s.updateLock.value].Writer?)
    && (s.objectLock.Some? ==> s.objectLock.value < |s.threads|)
    && (forall t :: 0 <= t < |s.threads| ==> (HoldsObject(s.threads[t]) <==> s.objectLock == Some(t)))
  }

  ghost predicate ThreadOk(s: State, t: nat)
    requires t < |s.threads| && s.published in s.cells
  {
    if s.threads[t].Writer? then WriterOk(s, t) else ReaderOk(s, t)
  }

  ghost predicate Inv(s: State) {
    && s.published in s.cells && (forall c :: c in s.cells ==> c < s.unused)
    && Denotes(s.cells[s.published], s.log)
    && LogOk(s) && LocksOk(s)
    && (forall t :: 0 <= t < |s.threads| ==> ThreadOk(s, t))
    && (forall w, r :: 0 <= w < |s.threads| && 0 <= r < |s.threads| ==> Private(s, w, r))
  }

  // ----------------------------------------------------------------- what a step may touch

  predicate Editing(s: State, t: nat, c: nat)
    requires t < |s.threads|
  {
    s.threads[t].Writer? && HasNext(s.threads[t].at) && s.threads[t].at.next == c
  }

  predicate Updates(s: State, t: nat)
    requires t < |s.threads|
  {
    s.threads[t].Writer? && HoldsUpdate(s.threads[t].at)
  }

  /** Thread `t` moved: it touched no cell but its own, and no set or log unless it holds the update lock. */
  ghost predicate Touches(s: State, n: State, t: nat)
    requires t < |s.threads|
  {
    && |n.threads| == |s.threads| && (forall x :: 0 <= x < |s.threads| && x != t ==> n.threads[x] == s.threads[x])
    && n.threads[t].Writer? == s.threads[t].Writer?
    && (n.threads[t].Writer? ==> n.threads[t].update == s.threads[t].update)
    && (forall c :: c in s.cells ==> c in n.cells && (n.cells[c] == s.cells[c] || Editing(s, t, c)))
    && n.published in n.cells && (n.published == s.published || Updates(s, t))
    && |s.log| <= |n.log| && n.log[..|s.log|] == s.log && (forall k :: |s.log| <= k < |n.log| ==> n.log[k].thread == t)
    && (forall x :: x != t ==> (s.updateLock == Some(x) <==> n.updateLock == Some(x)))
  }

  lemma OtherReader(s: State, n: State, t: nat, x: nat)
    requires Inv(s) && t < |s.threads| && x < |s.threads| && x != t && s.threads[x].Reader? && Touches(s, n, t)
    ensures ReaderOk(n, x)
  {
    hide Denotes, LogOk, LocksOk, WriterOk;
    assert ThreadOk(s, x) && Private(s, t, x);
    var r := s.threads[x].read;
    if r.Holding? { assert n.log[..r.upTo] == s.log[..r.upTo]; }
  }

  lemma OtherWriter(s: State, n: State, t: nat, x: nat)
    requires Inv(s) && t < |s.threads| && x < |s.threads| && x != t && s.threads[x].Writer? && Touches(s, n, t)
    ensures WriterOk(n, x)
  {
    hide Denotes, LogOk, LocksOk, ReaderOk, Private;
    assert ThreadOk(s, x) && ThreadOk(s, t);
    if HoldsUpdate(s.threads[x].at) {
      assert !Updates(s, t);
      assert forall c :: c in s.cells ==> n.cells[c] == s.cells[c];
      assert n.published == s.published;
      SameEdit(s, n, s.threads[x].update, s.threads[x].at);
    }
    SameCommits(s, n, t, x);
  }

  lemma SameEdit(s: State, n: State, u: Update, pc: WritePc)
    requires s.published in s.cells && n.published == s.published && CellsThere(s, pc) && EditOk(s, u, pc)
    requires forall c :: c in s.cells ==> c in n.cells && n.cells[c] == s.cells[c]
    ensures CellsThere(n, pc) && EditOk(n, u, pc)
  {
  }

  lemma SameCommits(s: State, n: State, t: nat, x: nat)
    requires x != t && |s.log| <= |n.log| && n.log[..|s.log|] == s.log
    requires forall k :: |s.log| <= k < |n.log| ==> n.log[k].thread == t
    ensures (exists k :: 0 <= k < |s.log| && s.log[k].thread == x) <==>
      (exists k :: 0 <= k < |n.log| && n.log[k].thread == x)
  {
    forall k | 0 <= k < |s.log| ensures n.log[k] == s.log[k] { assert n.log[..|s.log|][k] == s.log[k]; }
    if k :| 0 <= k < |s.log| && s.log[k].thread == x { assert n.log[k].thread == x; }
    if k :| 0 <= k < |n.log| && n.log[k].thread == x { assert s.log[k].thread == x; }
  }

  /** After a step of `t`, what is left to show is about `t` and the shared parts. */
  lemma Assemble(s: State, n: State, t: nat)
    requires Inv(s) && t < |s.threads| && Touches(s, n, t) && ThreadOk(n, t)
    requires forall c :: c in n.cells ==> c < n.unused
    requires Denotes(n.cells[n.published], n.log) && LogOk(n) && LocksOk(n)
    requires forall x :: 0 <= x < |n.threads| ==> Private(n, t, x) && Private(n, x, t)
    ensures Inv(n)
  {
    hide Denotes, LogOk, LocksOk;
    forall x | 0 <= x < |n.threads| ensures ThreadOk(n, x) {
      if x != t {
        if s.threads[x].Writer? { OtherWriter(s, n, t, x); } else { OtherReader(s, n, t, x); }
      }
    }
    forall w, r | 0 <= w < |n.threads| && 0 <= r < |n.threads| ensures Private(n, w, r) {
      if w != t && r != t { assert Private(s, w, r); }
    }
  }

  function Start(): State {
    State(map[0 := []], 0, 1, None, None, [], [])
  }

  // ------------------------------------------------------------- steps keep the invariant

  /** A move that changes only the program counter and perhaps the locks. */
  lemma QuietStep(s: State, n: State, t: nat)
    requires Inv(s) && t < |s.threads| && s.threads[t].Writer?
    requires n == s.(threads := n.threads, updateLock := n.updateLock, objectLock := n.objectLock)
    requires Touches(s, n, t) && ThreadOk(n, t) && LocksOk(n)
    requires HasNext(n.threads[t].at) ==> HasNext(s.threads[t].at) && n.threads[t].at.next == s.threads[t].at.next
    ensures Inv(n)
  {
    hide Denotes, WriterOk, ReaderOk, LocksOk;
    forall x | 0 <= x < |n.threads| ensures Private(n, t, x) && Private(n, x, t) { assert Private(s, t, x); }
    Assemble(s, n, t);
  }

  lemma LockStep(s: State, t: nat, fault: bool)
    requires Inv(s) && t < |s.threads| && s.threads[t].Writer?
    requires var pc := s.threads[t].at; pc.Begin? || pc.Updating? || pc.Ready?
    ensures CellsThere(s, s.threads[t].at) && Inv(StepWriter(s, t, fault))
  {
    hide Denotes, Lookup, Erased, Sorted, WithScope, ReaderOk, Private, LogOk;
    assert ThreadOk(s, t);
    var n := StepWriter(s, t, fault);
    if n != s { QuietStep(s, n, t); }
  }

  lemma UnlockStep(s: State, t: nat, fault: bool)
    requires Inv(s) && t < |s.threads| && s.threads[t].Writer?
    requires var pc := s.threads[t].at; pc.Capturing? || pc.Swapped? || pc.Leaving? || pc.Returned?
    ensures CellsThere(s, s.threads[t].at) && Inv(StepWriter(s, t, fault))
  {
    hide Denotes, Lookup, Erased, Sorted, WithScope, ReaderOk, Private, LogOk;
    assert ThreadOk(s, t);
    var n := StepWriter(s, t, fault);
    if n != s { QuietStep(s, n, t); }
  }

  /** An edit of the writer's own cell. */
  lemma EditStep(s: State, t: nat, fault: bool)
    requires Inv(s) && t < |s.threads| && s.threads[t].Writer?
    requires var pc := s.threads[t].at; pc.Copied? || pc.Stripped? || pc.Extended?
    ensures CellsThere(s, s.threads[t].at) && Inv(StepWriter(s, t, fault))
  {
    hide Denotes, Lookup, Erased, Sorted, Added, ReaderOk, LogOk, LocksOk;
    assert ThreadOk(s, t);
    var n := StepWriter(s, t, fault);
    forall x | 0 <= x < |n.threads| ensures Private(n, t, x) && Private(n, x, t) { assert Private(s, t, x); }
    hide Private;
    SameLocks(s, n, t);
    SameLog(s, n, t);
    Assemble(s, n, t);
  }

  /** The copy goes into a cell no one has seen. */
  lemma FreshCopy(s: State, t: nat)
    requires Inv(s) && t < |s.threads| && s.threads[t].Writer? && s.threads[t].at == Captured(s.published)
    ensures Inv(Edit(At(s, t, Copied(s.published, s.unused)), s.unused, s.cells[s.published]).(unused := s.unused + 1))
  {
    hide Denotes, LogOk, LocksOk;
    assert ThreadOk(s, t);
    var n := Edit(At(s, t, Copied(s.published, s.unused)), s.unused, s.cells[s.published]).(unused := s.unused + 1);
    forall x | 0 <= x < |n.threads| ensures Private(n, t, x) && Private(n, x, t) { assert ThreadOk(s, x); }
    hide Private, ReaderOk;
    SameLocks(s, n, t);
    SameLog(s, n, t);
    Assemble(s, n, t);
  }

  /** The no-op drop, the failed copy, and the copy. */
  lemma CopyStep(s: State, t: nat, fault: bool)
    requires Inv(s) && t < |s.threads| && s.threads[t].Writer? && s.threads[t].at.Captured?
    ensures CellsThere(s, s.threads[t].at) && Inv(StepWriter(s, t, fault))
  {
    hide Denotes, Lookup, Erased, Sorted, LogOk, LocksOk, Private, ReaderOk;
    assert ThreadOk(s, t);
    var n, u := StepWriter(s, t, fault), s.threads[t].update;
    if u.DropKey? && Lookup(s.cells[s.published], u.key).None? {
      DropOfNothing(s, t);
      CommitStep(s, n, t, Leaving(true));
    } else if fault {
      SameLocks(s, n, t);
      QuietStep(s, n, t);
    } else {
      FreshCopy(s, t);
    }
  }

  lemma SameLocks(s: State, n: State, t: nat)
    requires LocksOk(s) && t < |s.threads| && s.threads[t].Writer?
    requires |n.threads| == |s.threads| && (forall x :: 0 <= x < |s.threads| && x != t ==> n.threads[x] == s.threads[x])
    requires n.threads[t].Writer? && HoldsObject(n.threads[t]) == HoldsObject(s.threads[t])
    requires n.updateLock == s.updateLock && n.objectLock == s.objectLock
    ensures LocksOk(n)
  {
  }

  lemma SameLog(s: State, n: State, t: nat)
    requires LogOk(s) && t < |s.threads| && s.threads[t].Writer? && n.log == s.log
    requires |n.threads| == |s.threads| && (forall x :: 0 <= x < |s.threads| && x != t ==> n.threads[x] == s.threads[x])
    requires n.threads[t].Writer? && n.threads[t].update == s.threads[t].update
    ensures LogOk(n)
  {
  }

  /** Dropping a key that is not published leaves the denoted map as it was. */
  lemma DropOfNothing(s: State, t: nat)
    requires Inv(s) && t < |s.threads| && s.threads[t].Writer? && s.threads[t].update.DropKey?
    requires Lookup(s.cells[s.published], s.threads[t].update.key).None?
    ensures Denotes(s.cells[s.published], Commits(s, t).log)
  {
    EffectGrows(s.log, Commit(t, s.threads[t].update));
  }

  lemma EffectGrows(log: seq<Commit>, c: Commit)
    ensures forall key :: Effect(log + [c], key) == if Key(c.update) == key then Config(c.update) else Effect(log, key)
  {
    assert (log + [c])[..|log|] == log;
  }

  /** A step that commits the writer's update. */
  lemma CommitStep(s: State, n: State, t: nat, pc: WritePc)
    requires Inv(s) && t < |s.threads| && s.threads[t].Writer? && Updates(s, t) && !Committed(s.threads[t].at)
    requires n == s.(threads := n.threads, published := n.published, log := Commits(s, t).log)
    requires n.threads == At(s, t, pc).threads && (pc.Swapped? || pc == Leaving(true))
    requires HoldsObject(n.threads[t]) == HoldsObject(s.threads[t])
    requires n.published in n.cells && Denotes(n.cells[n.published], n.log)
    ensures Inv(n)
  {
    hide Denotes;
    assert ThreadOk(s, t);
    assert n.log[|s.log|].thread == t;
    assert n.log[..|s.log|] == s.log;
    assert LocksOk(n) by { SameLocks(s, n, t); }
    assert LogOk(n) by { GrownLog(s, n, t); }
    Assemble(s, n, t);
  }

  lemma GrownLog(s: State, n: State, t: nat)
    requires LogOk(s) && t < |s.threads| && s.threads[t].Writer? && n.log == Commits(s, t).log
    requires !exists k :: 0 <= k < |s.log| && s.log[k].thread == t
    requires |n.threads| == |s.threads| && (forall x :: 0 <= x < |s.threads| && x != t ==> n.threads[x] == s.threads[x])
    requires n.threads[t].Writer? && n.threads[t].update == s.threads[t].update
    ensures LogOk(n)
  {
    forall j, k | 0 <= j < k < |n.log| ensures n.log[j].thread != n.log[k].thread {
      assert n.log[j] == s.log[j];
    }
  }

  lemma SwapStep(s: State, t: nat, fault: bool)
    requires Inv(s) && t < |s.threads| && s.threads[t].Writer? && s.threads[t].at.Swapping?
    ensures CellsThere(s, s.threads[t].at) && Inv(StepWriter(s, t, fault))
  {
    assert ThreadOk(s, t);
    var n, u := StepWriter(s, t, fault), s.threads[t].update;
    WithScopeEdits(s.cells[s.published], Key(u), Config(u));
    EffectGrows(s.log, Commit(t, u));
    hide Ordered, Distinct, LogOk, LocksOk, Private, Lookup, Effect, Sorted, Erased;
    assert Denotes(n.cells[n.published], n.log);
    CommitStep(s, n, t, Swapped);
  }

  lemma ReaderStep(s: State, t: nat)
    requires Inv(s) && t < |s.threads| && s.threads[t].Reader?
    ensures Inv(StepReader(s, t))
  {
    hide Denotes, WriterOk, Lookup;
    assert ThreadOk(s, t);
    var n := StepReader(s, t);
    forall x | 0 <= x < |n.threads| ensures Private(n, t, x) && Private(n, x, t) {
      assert Private(s, x, t) && ThreadOk(s, x);
      if s.threads[x].Writer? { NextIsNotPublished(s, x); }
    }
    assert s.log[..|s.log|] == s.log;
    hide Private;
    assert LocksOk(n);
    Assemble(s, n, t);
  }

  lemma NextIsNotPublished(s: State, x: nat)
    requires x < |s.threads| && s.threads[x].Writer? && s.published in s.cells && WriterOk(s, x)
    ensures HasNext(s.threads[x].at) ==> s.threads[x].at.next != s.published
  {
  }

  lemma CallArrives(s: State, th: Thread)
    requires Inv(s) && ((th.Writer? && th.at.Begin?) || th == Reader(Asking))
    ensures Inv(s.(threads := s.threads + [th]))
  {
    hide Denotes, Lookup;
    var n, t := s.(threads := s.threads + [th]), |s.threads|;
    forall x | 0 <= x < |n.threads| ensures ThreadOk(n, x) {
      if x < t { assert ThreadOk(s, x) && n.threads[x] == s.threads[x]; }
    }
    forall w, r | 0 <= w < |n.threads| && 0 <= r < |n.threads| ensures Private(n, w, r) {
      if w < t && r < t { assert Private(s, w, r); }
    }
  }

  lemma WriterStep(s: State, t: nat, fault: bool)
    requires Inv(s) && t < |s.threads| && s.threads[t].Writer?
    ensures CellsThere(s, s.threads[t].at) && Inv(StepWriter(s, t, fault))
  {
    hide Inv, StepWriter, CellsThere;
    var pc := s.threads[t].at;
    if pc.Begin? || pc.Updating? || pc.Ready? { LockStep(s, t, fault); }
    else if pc.Capturing? || pc.Swapped? || pc.Leaving? || pc.Returned? { UnlockStep(s, t, fault); }
    else if pc.Captured? { CopyStep(s, t, fault); }
    else if pc.Swapping? { SwapStep(s, t, fault); }
    else { EditStep(s, t, fault); }
  }

  lemma NextKeepsInv(s: State, step: Step)
    requires Inv(s)
    ensures Inv(Next(s, step))
  {
    hide Inv, StepWriter, StepReader;
    match step
    case CallPut(scope) => CallArrives(s, Writer(Put(scope), Begin));
    case CallDrop(key) => CallArrives(s, Writer(DropKey(key), Begin));
    case CallCapture => CallArrives(s, Reader(Asking));
    case Move(t, fault) =>
      if t < |s.threads| {
        if s.threads[t].Writer? { WriterStep(s, t, fault); } else { ReaderStep(s, t); }
      }
  }

  function Run(steps: seq<Step>): (s: State)
    ensures Inv(s)
  {
    if steps == [] then Start()
    else
      var before := Run(steps[..|steps| - 1]);
      NextKeepsInv(before, steps[|steps| - 1]);
      Next(before, steps[|steps| - 1])
  }

  // --------------------------------------------------------------------- whole runs

  /**
    Whatever the interleaving: the published set is ordered and distinct and denotes the committed
    updates applied in lock order; each update that returned success was committed exactly once, and
    one that failed not at all.
   */
  lemma PublishedIsTheLog(steps: seq<Step>, t: nat)
    requires t < |Run(steps).threads| && Run(steps).threads[t].Writer?
    ensures var s := Run(steps);
      && s.published in s.cells && Denotes(s.cells[s.published], s.log)
      && (s.threads[t].at == Returned(true) ==>
            exists k :: 0 <= k < |s.log| && s.log[k] == Commit(t, s.threads[t].update))
      && (s.threads[t].at == Returned(false) ==> forall k :: 0 <= k < |s.log| ==> s.log[k].thread != t)
      && (forall j, k :: 0 <= j < k < |s.log| ==> s.log[j].thread != s.log[k].thread)
  {
    var s := Run(steps);
    hide Run, Denotes, LocksOk, Private;
    assert ThreadOk(s, t);
    if Committed(s.threads[t].at) {
      var k :| 0 <= k < |s.log| && s.log[k].thread == t;
      assert s.log[k] == Commit(t, s.threads[t].update);
    }
  }

  /** The log only grows, and a reader keeps what it holds until it lets go. */
  lemma StepKeepsCapture(s: State, step: Step, t: nat)
    requires Inv(s) && t < |s.threads| && s.threads[t].Reader?
    ensures |s.log| <= |Next(s, step).log| && Next(s, step).log[..|s.log|] == s.log
    ensures t < |Next(s, step).threads|
    ensures s.threads[t].read.Holding? ==>
      Next(s, step).threads[t] == s.threads[t] || Next(s, step).threads[t] == Reader(Gone)
    ensures s.threads[t].read.Gone? ==> Next(s, step).threads[t] == s.threads[t]
  {
    hide Denotes, LogOk, LocksOk, Private, ReaderOk, EditOk;
    assert s.log[..|s.log|] == s.log;
    if step.Move? && step.thread < |s.threads| { assert ThreadOk(s, step.thread); }
  }

  lemma {:induction false} HeldOrGone(steps: seq<Step>, n: nat, t: nat)
    requires n <= |steps| && t < |Run(steps[..n]).threads|
    requires Run(steps[..n]).threads[t].Reader? && Run(steps[..n]).threads[t].read.Holding?
    ensures t < |Run(steps).threads|
    ensures Run(steps).threads[t] == Run(steps[..n]).threads[t] || Run(steps).threads[t] == Reader(Gone)
    decreases |steps|
  {
    hide Inv, Next;
    if n < |steps| {
      var before := steps[..|steps| - 1];
      assert before[..n] == steps[..n];
      HeldOrGone(before, n, t);
      StepKeepsCapture(Run(before), steps[|steps| - 1], t);
    } else {
      assert steps[..n] == steps;
    }
  }

  /**
    A captured set never changes: as long as its reader holds it, the memory it points to holds what
    was captured, and that denotes the updates committed up to the capture.
   */
  lemma CapturedNeverChanges(steps: seq<Step>, n: nat, t: nat)
    requires n <= |steps| && t < |Run(steps[..n]).threads|
    requires Run(steps[..n]).threads[t].Reader? && Run(steps[..n]).threads[t].read.Holding?
    ensures t < |Run(steps).threads|
    ensures var r, s := Run(steps[..n]).threads[t].read, Run(steps);
      && (s.threads[t] == Reader(r) || s.threads[t] == Reader(Gone))
      && (s.threads[t] == Reader(r) ==>
            r.cell in s.cells && s.cells[r.cell] == r.seen && r.upTo <= |s.log| && Denotes(r.seen, s.log[..r.upTo]))
  {
    hide Denotes, Run;
    HeldOrGone(steps, n, t);
    assert ThreadOk(Run(steps), t);
  }

  /** What a lookup must answer when the updates of `log` are what is published. */
  ghost predicate AnswersLog(
    log: seq<Commit>, uri: string, defeats: string -> bool, lower: string -> string, r: Resolution)
  {
    if forall key :: Effect(log, key).None? then r == Nothing
    else if defeats(uri) then r == Refused
    else match r
      case Refused => false
      case Nothing => forall key :: Effect(log, key).Some? ==> !Matches(key, lower(uri))
      case Serves(scope) =>
        && Effect(log, scope.prefix) == Some(scope) && Matches(scope.prefix, lower(uri))
        && forall key :: Effect(log, key).Some? && Matches(key, lower(uri)) && key != scope.prefix ==>
             |key| < |scope.prefix|
  }

  lemma DenotedAnswers(
    scopes: seq<Scope>, log: seq<Commit>, uri: string, defeats: string -> bool, lower: string -> string, r: Resolution)
    requires Denotes(scopes, log) && Answers(scopes, uri, defeats, lower, r)
    ensures AnswersLog(log, uri, defeats, lower, r)
  {
    hide Effect, Ordered, Matches;
    forall x | x in scopes ensures Effect(log, x.prefix) == Some(x) {
      LookupUnique(scopes, x);
      assert Lookup(scopes, x.prefix) == Effect(log, x.prefix);
    }
    forall key | Effect(log, key).Some?
      ensures Effect(log, key).value in scopes && Effect(log, key).value.prefix == key
    {
      assert Lookup(scopes, key) == Effect(log, key);
    }
    if scopes != [] { assert scopes[0] in scopes; }
  }

  /**
    A lookup in a set that a reader holds is served by the longest prefix whose last update committed
    before the capture was a put, whatever has been published since.
   */
  lemma HeldLookupServesTheCapture(
    steps: seq<Step>, n: nat, t: nat, uri: string, defeats: string -> bool, lower: string -> string, r: Resolution)
    requires n <= |steps| && t < |Run(steps[..n]).threads|
    requires Run(steps[..n]).threads[t].Reader? && Run(steps[..n]).threads[t].read.Holding?
    requires t < |Run(steps).threads| && Run(steps).threads[t] == Run(steps[..n]).threads[t]
    requires var cell := Run(steps).threads[t].read.cell;
      cell in Run(steps).cells && Answers(Run(steps).cells[cell], uri, defeats, lower, r)
    ensures var upTo := Run(steps[..n]).threads[t].read.upTo;
      upTo <= |Run(steps).log| && AnswersLog(Run(steps).log[..upTo], uri, defeats, lower, r)
  {
    hide Run, Denotes, Answers, AnswersLog, Inv;
    CapturedNeverChanges(steps, n, t);
    var held := Run(steps).threads[t].read;
    DenotedAnswers(held.seen, Run(steps).log[..held.upTo], uri, defeats, lower, r);
  }

  predicate NotYetHolding(s: State, t: nat) {
    t < |s.threads| ==> s.threads[t].Reader? ==> s.threads[t].read.Asking? || s.threads[t].read.Locked?
  }

  lemma CaptureIsNew(s: State, step: Step, t: nat)
    requires Inv(s)
    ensures var n := Next(s, step);
      && |s.threads| <= |n.threads| && |s.log| <= |n.log| && n.log[..|s.log|] == s.log
      && (t < |n.threads| && n.threads[t].Reader? && n.threads[t].read.Holding? ==>
            t < |s.threads| && s.threads[t].Reader? &&
            (s.threads[t] == n.threads[t] || (NotYetHolding(s, t) && n.threads[t].read.upTo == |s.log|)))
  {
    hide Denotes, LogOk, LocksOk, Private, ReaderOk, EditOk;
    assert s.log[..|s.log|] == s.log;
    if step.Move? && step.thread < |s.threads| { assert ThreadOk(s, step.thread); }
  }

  lemma {:induction false} LogGrows(steps: seq<Step>, m: nat)
    requires m <= |steps|
    ensures |Run(steps[..m]).log| <= |Run(steps).log| && Run(steps).log[..|Run(steps[..m]).log|] == Run(steps[..m]).log
    decreases |steps|
  {
    hide Inv, Next;
    if m < |steps| {
      var before := steps[..|steps| - 1];
      assert before[..m] == steps[..m];
      LogGrows(before, m);
      CaptureIsNew(Run(before), steps[|steps| - 1], 0);
    } else {
      assert steps[..m] == steps;
      assert Run(steps).log[..|Run(steps).log|] == Run(steps).log;
    }
  }

  /** A capture that had not happened at some point sees every update committed by then. */
  lemma {:induction false} CaptureSeesEarlierUpdates(steps: seq<Step>, m: nat, t: nat)
    requires m <= |steps| && NotYetHolding(Run(steps[..m]), t)
    requires t < |Run(steps).threads| && Run(steps).threads[t].Reader? && Run(steps).threads[t].read.Holding?
    ensures |Run(steps[..m]).log| <= Run(steps).threads[t].read.upTo
    decreases |steps|
  {
    hide Inv, Next;
    assert steps[..|steps|] == steps;
    if m < |steps| {
      var before := steps[..|steps| - 1];
      assert before[..m] == steps[..m];
      CaptureIsNew(Run(before), steps[|steps| - 1], t);
      if Run(before).threads[t] == Run(steps).threads[t] {
        CaptureSeesEarlierUpdates(before, m, t);
      } else {
        LogGrows(before, m);
      }
    }
  }

  // ------------------------------------------------------- every call takes effect

  /** The call has given up: it leaves, or has left, with an error. */
  predicate Failed(th: Thread) {
    th.Writer? && (th.at == Leaving(false) || th.at == Returned(false))
  }

  lemma WriterFailsByFault(s: State, t: nat, fault: bool)
    requires t < |s.threads| && s.threads[t].Writer? && CellsThere(s, s.threads[t].at)
    ensures var n := StepWriter(s, t, fault);
      && |n.threads| == |s.threads| && (forall x :: 0 <= x < |s.threads| && x != t ==> n.threads[x] == s.threads[x])
      && (Failed(n.threads[t]) ==> fault || Failed(s.threads[t]))
  {
    hide Erased, Sorted, Lookup;
  }

  lemma FailureNeedsFault(s: State, step: Step, t: nat)
    requires Inv(s) && t < |Next(s, step).threads| && Failed(Next(s, step).threads[t])
    ensures step == Move(t, true) || (t < |s.threads| && Failed(s.threads[t]))
  {
    hide Denotes, LogOk, LocksOk, Private, ReaderOk, EditOk, StepWriter;
    if step.Move? && step.thread < |s.threads| {
      assert ThreadOk(s, step.thread);
      if s.threads[step.thread].Writer? { WriterFailsByFault(s, step.thread, step.fault); }
    }
  }

  /** In every run a call fails only if an allocation failed on one of its own moves. */
  lemma {:induction false} CallsFailOnlyByFault(steps: seq<Step>, t: nat)
    requires t < |Run(steps).threads| && Failed(Run(steps).threads[t])
    ensures Move(t, true) in steps
    decreases |steps|
  {
    hide Inv, Next, Failed;
    if steps == [] {
      NobodyAtFirst();
    } else {
      var before := steps[..|steps| - 1];
      FailureNeedsFault(Run(before), steps[|steps| - 1], t);
      if steps[|steps| - 1] != Move(t, true) { CallsFailOnlyByFault(before, t); }
    }
  }

  lemma NobodyAtFirst()
    ensures Run([]).threads == []
  {
  }

  /** The next move of writer `t` allocates: it copies the set, or extends its copy. */
  predicate Allocates(s: State, t: nat) {
    && t < |s.threads| && s.threads[t].Writer?
    && match s.threads[t].at
       case Captured(base) =>
         base in s.cells &&
         (s.threads[t].update.DropKey? ==> exists x :: x in s.cells[base] && x.prefix == s.threads[t].update.key)
       case Stripped(_, _) => true
       case _ => false
  }

  lemma FaultFails(s: State, t: nat)
    requires Inv(s) && Allocates(s, t)
    ensures t < |Next(s, Move(t, true)).threads| && Failed(Next(s, Move(t, true)).threads[t])
  {
    hide Denotes, LogOk, LocksOk, Private, ReaderOk, EditOk, Erased, Sorted;
    assert ThreadOk(s, t);
  }

  lemma FailedStays(s: State, step: Step, t: nat)
    requires Inv(s) && t < |s.threads| && Failed(s.threads[t])
    ensures t < |Next(s, step).threads| && Failed(Next(s, step).threads[t])
  {
    hide Denotes, LogOk, LocksOk, Private, ReaderOk, EditOk, Erased, Sorted;
    if step.Move? && step.thread < |s.threads| { assert ThreadOk(s, step.thread); }
  }

  /** A call whose allocation fails returns an error, and nothing of it is ever committed. */
  lemma {:induction false} FaultedCallsChangeNothing(steps: seq<Step>, j: nat, t: nat)
    requires j < |steps| && steps[j] == Move(t, true) && Allocates(Run(steps[..j]), t)
    ensures t < |Run(steps).threads| && Failed(Run(steps).threads[t])
    ensures forall k :: 0 <= k < |Run(steps).log| ==> Run(steps).log[k].thread != t
    decreases |steps|
  {
    hide Inv, Next, Failed, Allocates;
    var before := steps[..|steps| - 1];
    if j == |steps| - 1 {
      FaultFails(Run(steps[..j]), t);
    } else {
      assert before[..j] == steps[..j];
      FaultedCallsChangeNothing(before, j, t);
      FailedStays(Run(before), steps[|steps| - 1], t);
    }
    FailedIsNotLogged(Run(steps), t);
  }

  lemma FailedIsNotLogged(s: State, t: nat)
    requires Inv(s) && t < |s.threads| && Failed(s.threads[t])
    ensures forall k :: 0 <= k < |s.log| ==> s.log[k].thread != t
  {
    hide Denotes, LogOk, LocksOk, Private, ReaderOk, EditOk;
    assert ThreadOk(s, t);
  }

  lemma {:induction false} LogGrowsByOne(steps: seq<Step>, k: nat) returns (m: nat)
    requires k < |Run(steps).log|
    ensures m <= |steps| && Run(steps[..m]).log == Run(steps).log[..k + 1]
    decreases |steps|
  {
    hide Inv, Next;
    if k + 1 == |Run(steps).log| {
      m := |steps|;
      assert steps[..m] == steps && Run(steps).log[..k + 1] == Run(steps).log;
    } else {
      var before := steps[..|steps| - 1];
      if steps == [] { NothingLoggedAtFirst(); }
      OneCommitPerStep(Run(before), steps[|steps| - 1]);
      m := LogGrowsByOne(before, k);
      assert before[..m] == steps[..m];
    }
  }

  lemma NothingLoggedAtFirst()
    ensures Run([]).log == []
  {
  }

  lemma OneCommitPerStep(s: State, step: Step)
    requires Inv(s)
    ensures var log := Next(s, step).log; |s.log| <= |log| <= |s.log| + 1 && log[..|s.log|] == s.log
  {
    hide Denotes, LogOk, LocksOk, Private, ReaderOk, EditOk;
    assert s.log[..|s.log|] == s.log;
    if step.Move? && step.thread < |s.threads| { assert ThreadOk(s, step.thread); }
  }

  /** The set published under a key: the scope just put, or nothing after a drop. */
  predicate Shows(scopes: seq<Scope>, u: Update) {
    match u
    case Put(scope) => Lookup(scopes, scope.prefix) == Some(scope)
    case DropKey(key) => forall x :: x in scopes ==> x.prefix != key
  }

  /** After `m` steps update `k` had just been committed, and the published set showed it. */
  predicate TookEffect(steps: seq<Step>, m: nat, k: nat)
    requires k < |Run(steps).log|
  {
    m <= |steps| &&
    var s := Run(steps[..m]);
    && s.log == Run(steps).log[..k + 1] && s.published in s.cells
    && Shows(s.cells[s.published], Run(steps).log[k].update)
  }

  /** Each committed update took effect when it was committed: a put is published, a drop is gone. */
  lemma CommitsTakeEffect(steps: seq<Step>, k: nat) returns (m: nat)
    requires k < |Run(steps).log|
    ensures TookEffect(steps, m, k)
  {
    m := LogGrowsByOne(steps, k);
    var s := Run(steps[..m]);
    var u := Run(steps).log[k].update;
    hide Run, LogOk, LocksOk, Private, Lookup;
    assert s.log[|s.log| - 1].update == u;
    assert Lookup(s.cells[s.published], Key(u)) == Effect(s.log, Key(u));
  }

  /**
    A call none of whose moves meets a failing allocation never fails; once it has returned its update
    is in the log, and was what a lookup of its key found at the commit.
   */
  lemma FaultlessCallsTakeEffect(steps: seq<Step>, t: nat)
    requires t < |Run(steps).threads| && Run(steps).threads[t].Writer? && Move(t, true) !in steps
    ensures !Failed(Run(steps).threads[t])
    ensures Run(steps).threads[t].at.Returned? ==>
      exists m, k :: 0 <= k < |Run(steps).log| && TookEffect(steps, m, k) &&
        Run(steps).log[k] == Commit(t, Run(steps).threads[t].update)
  {
    hide Run, Inv, Denotes, TookEffect;
    if Failed(Run(steps).threads[t]) { CallsFailOnlyByFault(steps, t); }
    if Run(steps).threads[t].at.Returned? {
      PublishedIsTheLog(steps, t);
      var k :| 0 <= k < |Run(steps).log| && Run(steps).log[k] == Commit(t, Run(steps).threads[t].update);
      var m := CommitsTakeEffect(steps, k);
    }
  }

  /** `Effect`, said without recursion: the scope of the last put, with no later update of its key. */
  lemma {:induction false} EffectIsTheLastPut(log: seq<Commit>, key: string, scope: Scope)
    ensures Effect(log, key) == Some(scope) <==> exists k :: LastPut(log, key, scope, k)
    decreases |log|
  {
    if log != [] {
      var n := |log| - 1;
      var before := log[..n];
      EffectIsTheLastPut(before, key, scope);
      if Key(log[n].update) == key {
        if Config(log[n].update) == Some(scope) { assert LastPut(log, key, scope, n); }
        if k :| LastPut(log, key, scope, k) { assert k == n; }
      } else {
        if k :| LastPut(before, key, scope, k) { assert LastPut(log, key, scope, k); }
        if k :| LastPut(log, key, scope, k) { assert LastPut(before, key, scope, k); }
      }
    }
  }

  predicate LastPut(log: seq<Commit>, key: string, scope: Scope, k: nat) {
    && k < |log| && log[k].update == Put(scope) && scope.prefix == key
    && forall j :: k < j < |log| ==>
         log[j].update != DropKey(key) && !(log[j].update.Put? && log[j].update.scope.prefix == key)
  }

  // ---------------------------------------------------------------------- progress

  /** Moves a thread still has to make. */
  function Ahead(th: Thread): nat {
    match th
    case Reader(Asking) => 3
    case Reader(Locked) => 2
    case Reader(Holding(_, _, _)) => 1
    case Reader(Gone) => 0
    case Writer(_, pc) =>
      match pc
      case Begin => 11
      case Updating => 10
      case Capturing => 9
      case Captured(_) => 8
      case Copied(_, _) => 7
      case Stripped(_, _) => 6
      case Extended(_, _) => 5
      case Ready(_, _) => 4
      case Swapping(_, _) => 3
      case Swapped => 2
      case Leaving(_) => 1
      case Returned(_) => 0
  }

  lemma WriterIsNearer(s: State, t: nat, fault: bool)
    requires t < |s.threads| && s.threads[t].Writer? && CellsThere(s, s.threads[t].at)
    ensures var n := StepWriter(s, t, fault);
      && |n.threads| == |s.threads| && (forall x :: 0 <= x < |s.threads| && x != t ==> n.threads[x] == s.threads[x])
      && (n.threads[t] == s.threads[t] || Ahead(n.threads[t]) < Ahead(s.threads[t]))
  {
    hide Erased, Sorted, Lookup;
  }

  /** A move leaves its thread waiting where it is, or brings it nearer to its end; no other thread moves. */
  lemma MovesAreProgress(s: State, t: nat, fault: bool)
    requires Inv(s) && t < |s.threads|
    ensures var n := Next(s, Move(t, fault));
      && |n.threads| == |s.threads| && (forall x :: 0 <= x < |s.threads| && x != t ==> n.threads[x] == s.threads[x])
      && (n.threads[t] == s.threads[t] || Ahead(n.threads[t]) < Ahead(s.threads[t]))
      && (Ahead(s.threads[t]) == 0 <==> Finished(s.threads[t]))
  {
    hide Denotes, LogOk, LocksOk, Private, ReaderOk, EditOk, StepWriter;
    assert ThreadOk(s, t);
    if s.threads[t].Writer? { WriterIsNearer(s, t, fault); }
  }

  predicate Finished(th: Thread) {
    if th.Writer? then th.at.Returned? else th.read.Gone?
  }

  predicate CanMove(s: State, t: nat)
    requires Inv(s) && t < |s.threads|
  {
    Next(s, Move(t, false)).threads[t] != s.threads[t]
  }

  lemma ObjectHolderMoves(s: State, t: nat)
    requires Inv(s) && t < |s.threads| && HoldsObject(s.threads[t])
    ensures CanMove(s, t)
  {
    hide Denotes, LogOk, LocksOk, Private, ReaderOk, EditOk;
    assert ThreadOk(s, t);
  }

  lemma FreeThreadMoves(s: State, t: nat)
    requires Inv(s) && t < |s.threads| && !Finished(s.threads[t]) && s.objectLock.None?
    requires s.threads[t].Reader? || s.threads[t].at.Begin? ==> s.updateLock.None? || s.threads[t].Reader?
    ensures CanMove(s, t)
  {
    hide Denotes, LogOk, LocksOk, Private, ReaderOk, EditOk;
    assert ThreadOk(s, t);
  }

  /** The two locks never deadlock: while any call is unfinished, some call can move. */
  lemma NeverStuck(s: State, t: nat)
    requires Inv(s) && t < |s.threads| && !Finished(s.threads[t])
    ensures exists x :: 0 <= x < |s.threads| && CanMove(s, x)
  {
    assert ThreadOk(s, t);
    if s.objectLock.Some? {
      ObjectHolderMoves(s, s.objectLock.value);
      assert CanMove(s, s.objectLock.value);
    } else if s.updateLock.Some? {
      var w := s.updateLock.value;
      assert ThreadOk(s, w);
      FreeThreadMoves(s, w);
      assert CanMove(s, w);
    } else {
      FreeThreadMoves(s, t);
      assert CanMove(s, t);
    }
  }

  // ------------------------------------------------------------------------ a run

  /** `Run` one step further. */
  lemma RunStep(steps: seq<Step>, step: Step)
    ensures Run(steps + [step]) == Next(Run(steps), step)
  {
    assert (steps + [step])[..|steps|] == steps;
  }

  ghost predicate Reached(s: State) {
    exists steps :: Run(steps) == s
  }

  lemma Onward(s: State, step: Step) returns (next: State)
    requires Reached(s)
    ensures Inv(s) && next == Next(s, step) && Reached(next)
  {
    var steps :| Run(steps) == s;
    RunStep(steps, step);
    next := Next(s, step);
    assert Run(steps + [step]) == next;
  }

  /** A put by call 0 while call 1 waits to capture: nothing published yet. */
  function Putting(scope: Scope, pc: WritePc, copy: seq<seq<Scope>>, update: bool, lock: bool): State {
    State(if copy == [] then map[0 := []] else map[0 := [], 1 := copy[0]], 0, if copy == [] then 1 else 2,
          if update then Some(0) else None, if lock then Some(0) else None,
          [Writer(Put(scope), pc), Reader(Asking)], [])
  }

  /** The same put once its set is published. */
  function Published(scope: Scope, pc: WritePc, read: ReadPc, update: bool, lock: Option<nat>): State {
    State(map[0 := [], 1 := [scope]], 1, 2, if update then Some(0) else None, lock,
          [Writer(Put(scope), pc), Reader(read)], [Commit(0, Put(scope))])
  }

  lemma StartReached(scope: Scope)
    ensures Reached(Putting(scope, Begin, [], false, false))
  {
    assert Run([]) == Start();
    assert Reached(Start());
    hide Reached, Inv;
    hide StepWriter, StepReader;
    var s := Onward(Start(), CallPut(scope));
    assert s == Start().(threads := [Writer(Put(scope), Begin)]);
    s := Onward(s, CallCapture);
    assert s.threads == [Writer(Put(scope), Begin), Reader(Asking)];
    assert s == Putting(scope, Begin, [], false, false);
  }

  lemma PutCaptures(scope: Scope)
    ensures Reached(Putting(scope, Captured(0), [], true, false))
  {
    hide Reached, Inv;
    StartReached(scope);
    var s := Onward(Putting(scope, Begin, [], false, false), Move(0, false));
    assert s == Putting(scope, Updating, [], true, false);
    s := Onward(s, Move(0, false));
    assert s == Putting(scope, Capturing, [], true, true);
    s := Onward(s, Move(0, false));
    assert s == Putting(scope, Captured(0), [], true, false);
  }

  lemma PutCopies(scope: Scope)
    ensures Reached(Putting(scope, Stripped(0, 1), [[]], true, false))
  {
    hide Reached, Inv;
    PutCaptures(scope);
    var s := Onward(Putting(scope, Captured(0), [], true, false), Move(0, false));
    assert s.cells == map[0 := [], 1 := []];
    assert s == Putting(scope, Copied(0, 1), [[]], true, false);
    s := Onward(s, Move(0, false));
    assert s.cells == map[0 := [], 1 := []];
    assert s == Putting(scope, Stripped(0, 1), [[]], true, false);
  }

  lemma PutEdits(scope: Scope)
    ensures Reached(Putting(scope, Ready(0, 1), [[scope]], true, false))
  {
    hide Reached, Inv;
    PutCopies(scope);
    var s := Onward(Putting(scope, Stripped(0, 1), [[]], true, false), Move(0, false));
    assert s.cells[1] == [scope];
    assert s.cells == map[0 := [], 1 := [scope]];
    assert s == Putting(scope, Extended(0, 1), [[scope]], true, false);
    SortedOne(scope);
    hide Sorted;
    s := Onward(s, Move(0, false));
    assert s.cells == map[0 := [], 1 := [scope]];
    assert s == Putting(scope, Ready(0, 1), [[scope]], true, false);
  }

  lemma PutSwaps(scope: Scope)
    ensures Reached(Published(scope, Swapped, Asking, true, Some(0)))
  {
    hide Reached, Inv;
    PutEdits(scope);
    var s := Onward(Putting(scope, Ready(0, 1), [[scope]], true, false), Move(0, false));
    assert s == Putting(scope, Swapping(0, 1), [[scope]], true, true);
    s := Onward(s, Move(0, false));
    assert s == Published(scope, Swapped, Asking, true, Some(0));
  }

  lemma PutReturns(scope: Scope)
    ensures Reached(Published(scope, Returned(true), Asking, false, None))
  {
    hide Reached, Inv;
    PutSwaps(scope);
    var s := Onward(Published(scope, Swapped, Asking, true, Some(0)), Move(0, false));
    assert s == Published(scope, Leaving(true), Asking, true, None);
    s := Onward(s, Move(0, false));
    assert s == Published(scope, Returned(true), Asking, false, None);
  }

  lemma ReaderCaptures(scope: Scope)
    ensures Reached(Published(scope, Returned(true), Holding(1, [scope], 1), false, None))
  {
    hide Reached, Inv;
    PutReturns(scope);
    var s := Onward(Published(scope, Returned(true), Asking, false, None), Move(1, false));
    assert s == Published(scope, Returned(true), Locked, false, Some(1));
    s := Onward(s, Move(1, false));
    assert s == Published(scope, Returned(true), Holding(1, [scope], 1), false, None);
  }

  lemma SortedOne(scope: Scope)
    ensures Sorted([scope]) == [scope]
  {
    assert [scope][..0] == [];
    assert Sorted([]) == [];
  }

  /** Some run publishes a put, and a capture then holds exactly that scope. */
  lemma CaptureOfAPutIsReachable(scope: Scope)
    ensures exists steps: seq<Step> ::
      && |Run(steps).threads| == 2 && Run(steps).threads[0] == Writer(Put(scope), Returned(true))
      && Run(steps).threads[1] == Reader(Holding(1, [scope], 1))
  {
    hide Inv;
    ReaderCaptures(scope);
    var steps :| Run(steps) == Published(scope, Returned(true), Holding(1, [scope], 1), false, None);
    assert |Run(steps).threads| == 2;
  }
}
