/** The life of the session lock and the coverage of outputs, over every run. */
module LockTheorems {
  import opened Common
  import opened Lock
  import L = Ledger
  import S = Surface
  import T = SurfaceTheorems

  // ----- entries ------------------------------------------------------------------------------------

  /** A surface that keeps its invariants and has not given its output back. */
  ghost predicate Listable(surf: S.State) {
    T.Inv(surf) && surf.output.Some?
  }

  ghost predicate Sound(es: seq<Entry>) {
    forall i :: 0 <= i < |es| ==> Listable(es[i].surf)
  }

  ghost predicate DistinctOutputs(es: seq<Entry>, bound: nat) {
    && (forall i :: 0 <= i < |es| ==> es[i].output < bound)
    && (forall i, j :: 0 <= i < j < |es| ==> es[i].output != es[j].output)
  }

  /** Every listed output has a lock surface. */
  ghost predicate Covered(es: seq<Entry>) {
    forall i :: 0 <= i < |es| ==> es[i].surf.lockSurface.Some?
  }

  ghost predicate Bare(es: seq<Entry>) {
    forall i :: 0 <= i < |es| ==> es[i].surf.lockSurface.None?
  }

  /** An output without a lock surface has never been given one under this lock. */
  ghost predicate Untried(es: seq<Entry>, covered: set<nat>) {
    forall i :: 0 <= i < |es| && es[i].surf.lockSurface.None? ==> es[i].output !in covered
  }

  /** Same outputs in the same order. */
  ghost predicate Parallel(es: seq<Entry>, es': seq<Entry>) {
    |es'| == |es| && forall i :: 0 <= i < |es| ==> es'[i].output == es[i].output && es'[i].name == es[i].name
  }

  ghost predicate SameTalk(v: View, v': View) {
    v' == v.(covered := v'.covered, missed := v'.missed)
  }

  /** What one attachment does to its entry and to the compositor's record. */
  ghost predicate OneAttached(e: Entry, v: View, ok: bool, e': Entry, v': View) {
    && e'.output == e.output && e'.name == e.name && SameTalk(v, v')
    && (if ok then e'.surf.lockSurface.Some? && v'.missed == v.missed else v'.missed)
    && v.covered <= v'.covered <= v.covered + {e.output}
    && (e'.surf.lockSurface.None? ==> v'.covered == v.covered && e.surf.lockSurface.None?)
  }

  lemma AttachOneCovers(e: Entry, env: S.AttachEnv, v: View)
    requires e.surf.lockSurface.None? ==> e.output !in v.covered
    requires !v.gotFinished && v.terminations == 0
    ensures var (ok, e', v') := AttachOne(e, env, v); OneAttached(e, v, ok, e', v')
  {}

  ghost predicate AmongOutputs(es: seq<Entry>, o: nat) {
    exists i :: 0 <= i < |es| && es[i].output == o
  }

  ghost predicate AllAttached(es: seq<Entry>, v: View, ok: bool, es': seq<Entry>, v': View) {
    && Parallel(es, es') && Untried(es', v'.covered) && SameTalk(v, v')
    && (if ok then Covered(es') && v'.missed == v.missed else v'.missed)
    && v.covered <= v'.covered
    && (forall o :: o in v'.covered && o !in v.covered ==> AmongOutputs(es, o))
  }

  lemma AttachStops(es: seq<Entry>, v: View, e: Entry, v1: View, bound: nat)
    requires es != [] && DistinctOutputs(es, bound) && Untried(es, v.covered)
    requires OneAttached(es[0], v, false, e, v1)
    ensures AllAttached(es, v, false, [e] + es[1..], v1)
  {
    assert AmongOutputs(es, es[0].output);
  }

  lemma AttachGoesOn(es: seq<Entry>, v: View, e: Entry, v1: View, ok: bool, rest: seq<Entry>, v2: View, bound: nat)
    requires es != [] && DistinctOutputs(es, bound)
    requires OneAttached(es[0], v, true, e, v1) && AllAttached(es[1..], v1, ok, rest, v2)
    ensures AllAttached(es, v, ok, [e] + rest, v2)
  {
    assert AmongOutputs(es, es[0].output);
    forall o | o in v2.covered && o !in v.covered && o != es[0].output
      ensures AmongOutputs(es, o)
    {
      var i :| 0 <= i < |es[1..]| && es[1..][i].output == o;
      assert es[i + 1].output == o;
    }
  }

  /** The attach loop asks for one lock surface per output, and covers them all unless one attempt
      fails. */
  lemma {:induction false} AttachAllCovers(es: seq<Entry>, envs: seq<S.AttachEnv>, v: View, bound: nat)
    requires |envs| == |es| && DistinctOutputs(es, bound) && Untried(es, v.covered)
    requires !v.gotFinished && v.terminations == 0
    ensures var (ok, es', v') := AttachAll(es, envs, v); AllAttached(es, v, ok, es', v')
  {
    if es != [] {
      AttachOneCovers(es[0], envs[0], v);
      var (ok, e, v1) := AttachOne(es[0], envs[0], v);
      if ok {
        assert Untried(es[1..], v1.covered);
        AttachAllCovers(es[1..], envs[1..], v1, bound);
        var (ok', rest, v2) := AttachAll(es[1..], envs[1..], v1);
        AttachGoesOn(es, v, e, v1, ok', rest, v2, bound);
      } else {
        AttachStops(es, v, e, v1, bound);
      }
    }
  }

  lemma AttachListable(surf: S.State, env: S.AttachEnv)
    requires Listable(surf)
    ensures Listable(S.OnAttach(surf, env).1)
  {
    T.AttachKeeps(surf, env);
    T.AttachReattaches(surf, env);
  }

  lemma DetachListable(surf: S.State)
    requires Listable(surf)
    ensures |surf.buffers| == S.BUFFER_COUNT && Listable(S.Detached(surf))
  {
    T.DetachKeeps(surf);
    assert S.Detached(surf).output == surf.output;
  }

  lemma EventListable(surf: S.State, event: T.Event, env: S.Env)
    requires Listable(surf) && T.Legal(surf, event) && !event.Attach? && !event.Detach?
    ensures Listable(T.Handled(surf, event, env))
  {
    T.HandledKeeps(surf, event, env);
    T.HandledKeepsLockSurface(surf, event, env);
  }

  lemma {:induction false} AttachAllSound(es: seq<Entry>, envs: seq<S.AttachEnv>, v: View)
    requires |envs| == |es| && Sound(es)
    ensures Sound(AttachAll(es, envs, v).1)
  {
    if es != [] {
      AttachListable(es[0].surf, envs[0]);
      var (ok, e, v1) := AttachOne(es[0], envs[0], v);
      AttachAllSound(es[1..], envs[1..], v1);
    }
  }

  lemma {:induction false} DetachAllSound(es: seq<Entry>)
    requires Sound(es)
    ensures Sound(DetachAll(es))
  {
    if es != [] {
      DetachListable(es[0].surf);
      DetachAllSound(es[1..]);
    }
  }

  lemma {:induction false} DetachAllBares(es: seq<Entry>)
    requires forall i :: 0 <= i < |es| ==> |es[i].surf.buffers| == S.BUFFER_COUNT
    ensures Parallel(es, DetachAll(es)) && Bare(DetachAll(es))
  {
    if es != [] { DetachAllBares(es[1..]); }
  }

  lemma {:induction false} RetireAllSpends(es: seq<Entry>)
    requires Sound(es)
    ensures forall i :: 0 <= i < |es| ==> T.Spent(RetireAll(es)[i])
  {
    if es != [] {
      T.DestroyedIsSpent(es[0].surf);
      RetireAllSpends(es[1..]);
    }
  }

  // ----- invariants ------------------------------------------------------------------------------------

  /** The client's flags mirror what it has received on the lock it holds; a lock it does not hold
      any more is over. */
  ghost predicate Flags(s: State) {
    var v := s.view;
    if s.lock then
      && s.isLocked == v.gotLocked && s.isFinished == v.gotFinished
      && (v.gotLocked ==> v.sentLocked) && (v.gotFinished ==> v.sentFinished)
      && (v.gotFinished && v.sentLocked ==> v.gotLocked)
      && v.terminations == 0 && !v.invalidDestroy && !v.invalidUnlock && !v.duplicate && !v.late
      && s.ready && s.made
    else !s.isLocked && !s.isFinished && (s.made ==> Over(v))
  }

  ghost predicate Listed(s: State) {
    && DistinctOutputs(s.surfaces, s.outputs.next)
    && s.outputs.next == |s.surfaces| + |s.retired| + s.refused
  }

  /** Every listed surface keeps its invariants, and every surface taken off the list was destroyed
      with nothing left. */
  ghost predicate Kept(s: State) {
    Sound(s.surfaces) && forall i :: 0 <= i < |s.retired| ==> T.Spent(s.retired[i])
  }

  ghost predicate Coverage(s: State) {
    if s.lock then
      && (!s.isFinished && !s.view.missed ==> Covered(s.surfaces))
      && Untried(s.surfaces, s.view.covered)
      && (forall o :: o in s.view.covered ==> o < s.outputs.next)
    else Bare(s.surfaces)
  }

  /** The wl_outputs of a list of entries. */
  ghost function Outputs(es: seq<Entry>): set<nat> {
    set i | 0 <= i < |es| :: es[i].output
  }

  /** No wl_output was ever released twice, and those not released are those listed. */
  ghost predicate Pooled(s: State) {
    L.Sound(s.outputs) && s.outputs.live == Outputs(s.surfaces)
  }

  /** A lock that is over got exactly one terminating request, and never an unlock before locked
      was sent nor a second lock surface for an output. */
  ghost predicate Over(v: View) {
    v.terminations == 1 && !v.invalidUnlock && !v.duplicate && !v.late
    && (v.invalidDestroy <==> v.sentLocked && (!v.gotLocked || v.gotFinished))
  }

  ghost predicate Closed(s: State) {
    forall i :: 0 <= i < |s.past| ==> Over(s.past[i])
  }

  /** All but the surfaces' own invariants. */
  ghost predicate Books(s: State) {
    Flags(s) && Listed(s) && Coverage(s) && Closed(s)
  }

  ghost predicate Inv(s: State) {
    Books(s) && Kept(s) && Pooled(s)
  }

  // ----- the surfaces' own invariants -----------------------------------------------------------------------

  lemma KeptAdd(s: State, name: nat, env: OutputEnv)
    requires Kept(s)
    ensures Kept(Added(s, name, env))
  {
    T.FreshIsValid();
    AttachListable(S.Fresh, env.attach);
  }

  lemma SoundWithout(es: seq<Entry>, i: nat)
    requires Sound(es) && i < |es|
    ensures Listable(es[i].surf) && Sound(es[..i] + es[i + 1..])
  {
    var fewer := es[..i] + es[i + 1..];
    forall j | 0 <= j < |fewer|
      ensures Listable(fewer[j].surf)
    {
      assert fewer[j] == es[if j < i then j else j + 1];
    }
  }

  lemma KeptWithout(s: State, t: State, i: nat)
    requires Kept(s) && i < |s.surfaces|
    requires t.surfaces == s.surfaces[..i] + s.surfaces[i + 1..]
    requires t.retired == s.retired + [Retire(s.surfaces[i].surf)] && T.Spent(Retire(s.surfaces[i].surf))
    ensures Kept(t)
  {
    SoundWithout(s.surfaces, i);
  }

  lemma RetireSpends(surf: S.State)
    requires T.Inv(surf)
    ensures T.Spent(Retire(surf))
  {
    T.DestroyedIsSpent(surf);
  }

  lemma KeptRemove(s: State, name: nat)
    requires Kept(s)
    ensures Kept(Removed(s, name))
  {
    var found := Find(s.surfaces, name);
    if found.Some? {
      RetireSpends(s.surfaces[found.value].surf);
      KeptWithout(s, Removed(s, name), found.value);
    }
  }

  lemma KeptEvent(s: State, i: nat, event: T.Event, env: S.Env)
    requires Kept(s) && Enabled(s, SurfaceEvent(i, event, env))
    ensures Kept(Apply(s, SurfaceEvent(i, event, env)))
  {
    assert Listable(s.surfaces[i].surf);
    EventListable(s.surfaces[i].surf, event, env);
  }

  lemma KeptStep(s: State, a: Action)
    requires Kept(s) && Enabled(s, a)
    ensures Kept(Apply(s, a))
  {
    match a
    case AddOutput(name, env) => KeptAdd(s, name, env);
    case RemoveOutput(name) => KeptRemove(s, name);
    case LockSession(_, _, envs) => AttachAllSound(s.surfaces, envs, NewView);
    case SurfaceEvent(i, event, env) => KeptEvent(s, i, event, env);
    case Unlock => DetachAllSound(s.surfaces);
    case Destroy => RetireAllSpends(s.surfaces);
    case _ =>
  }

  // ----- the lock and its outputs -------------------------------------------------------------------------------

  /** A new entry, attached or not, in front of the list. */
  lemma BooksGrow(s: State, t: State, e: Entry, ok: bool)
    requires Books(s) && s.lock && !s.isFinished && e.output == s.outputs.next
    requires OneAttached(Entry(e.name, s.outputs.next, S.Fresh), s.view, ok, e, t.view)
    requires t == s.(outputs := L.Acquire(s.outputs), surfaces := [e] + s.surfaces, view := t.view)
    ensures Books(t)
  {}

  lemma BooksAdd(s: State, name: nat, env: OutputEnv)
    requires Books(s)
    ensures Books(Added(s, name, env))
  {
    if env.bound && env.created && s.lock && !s.isFinished {
      var e := Entry(name, s.outputs.next, S.Fresh);
      AttachOneCovers(e, env.attach, s.view);
      var (ok, e', v) := AttachOne(e, env.attach, s.view);
      BooksGrow(s, Added(s, name, env), e', ok);
    }
  }

  lemma EntriesWithout(es: seq<Entry>, i: nat, bound: nat, covered: set<nat>)
    requires i < |es| && DistinctOutputs(es, bound)
    ensures var fewer := es[..i] + es[i + 1..];
            && DistinctOutputs(fewer, bound)
            && (Covered(es) ==> Covered(fewer)) && (Bare(es) ==> Bare(fewer))
            && (Untried(es, covered) ==> Untried(fewer, covered))
  {
    var fewer := es[..i] + es[i + 1..];
    assert forall j :: 0 <= j < |fewer| ==> fewer[j] == es[if j < i then j else j + 1];
  }

  lemma BooksRemove(s: State, name: nat)
    requires Books(s)
    ensures Books(Removed(s, name))
  {
    var found := Find(s.surfaces, name);
    if found.Some? { EntriesWithout(s.surfaces, found.value, s.outputs.next, s.view.covered); }
  }

  lemma BooksLock(s: State, lockOk: bool, listenerOk: bool, envs: seq<S.AttachEnv>)
    requires Books(s) && !s.lock && |envs| == |s.surfaces|
    ensures Books(Locking(s, lockOk, listenerOk, envs).1)
  {
    AttachAllCovers(s.surfaces, envs, NewView, s.outputs.next);
  }

  lemma {:induction false} ReturnAllCounts(p: L.Pool, es: seq<Entry>)
    ensures ReturnAll(p, es).next == p.next
    decreases |es|
  {
    if es != [] { ReturnAllCounts(Returned(p, es[0]), es[1..]); }
  }

  lemma BooksUnlock(s: State)
    requires Books(s) && Sound(s.surfaces)
    ensures Books(Unlocked(s).1)
  {
    DetachAllBares(s.surfaces);
  }

  lemma BooksEvent(s: State, i: nat, event: T.Event, env: S.Env)
    requires Books(s) && Enabled(s, SurfaceEvent(i, event, env))
    ensures Books(Apply(s, SurfaceEvent(i, event, env)))
  {
    T.HandledKeepsLockSurface(s.surfaces[i].surf, event, env);
  }

  lemma BooksStep(s: State, a: Action)
    requires Books(s) && Sound(s.surfaces) && Enabled(s, a)
    ensures Books(Apply(s, a))
  {
    match a
    case AddOutput(name, env) => BooksAdd(s, name, env);
    case RemoveOutput(name) => BooksRemove(s, name);
    case LockSession(lockOk, listenerOk, envs) => BooksLock(s, lockOk, listenerOk, envs);
    case SurfaceEvent(i, event, env) => BooksEvent(s, i, event, env);
    case Unlock => BooksUnlock(s);
    case Destroy => ReturnAllCounts(s.outputs, s.surfaces);
    case _ =>
  }

  // ----- the wl_outputs ------------------------------------------------------------------------------------------

  lemma SameOutputs(es: seq<Entry>, es': seq<Entry>)
    requires Parallel(es, es')
    ensures Outputs(es') == Outputs(es)
  {
    assert forall i :: 0 <= i < |es| ==> es'[i].output == es[i].output;
    forall o
      ensures o in Outputs(es') <==> o in Outputs(es)
    {
      if o in Outputs(es) { var i :| 0 <= i < |es| && es[i].output == o; assert es'[i].output == o; }
    }
  }

  lemma OutputsGrow(e: Entry, es: seq<Entry>)
    ensures Outputs([e] + es) == {e.output} + Outputs(es)
  {
    var all := [e] + es;
    assert all[0] == e;
    forall o | o in Outputs(es)
      ensures o in Outputs(all)
    {
      var i :| 0 <= i < |es| && es[i].output == o;
      assert all[i + 1].output == o;
    }
  }

  lemma OutputsShrink(es: seq<Entry>, i: nat, bound: nat)
    requires i < |es| && DistinctOutputs(es, bound)
    ensures Outputs(es[..i] + es[i + 1..]) == Outputs(es) - {es[i].output}
  {
    var fewer := es[..i] + es[i + 1..];
    forall o | o in Outputs(es) && o != es[i].output
      ensures o in Outputs(fewer)
    {
      var j :| 0 <= j < |es| && es[j].output == o;
      assert fewer[if j < i then j else j - 1].output == o;
    }
  }

  /** Destroying the surface of a listed entry releases its output, once. */
  lemma ReturnedOne(p: L.Pool, e: Entry)
    requires T.Inv(e.surf) && e.surf.output.Some? && L.Sound(p) && e.output in p.live
    ensures var q := Returned(p, e); L.Sound(q) && q.live == p.live - {e.output} && q.next == p.next
  {}

  lemma {:induction false} ReturnedAll(p: L.Pool, es: seq<Entry>, bound: nat)
    requires Sound(es) && DistinctOutputs(es, bound) && L.Sound(p) && p.live == Outputs(es)
    ensures L.Sound(ReturnAll(p, es)) && ReturnAll(p, es).live == {}
    decreases |es|
  {
    if es != [] {
      assert es[0].output in Outputs(es);
      ReturnedOne(p, es[0]);
      OutputsShrink(es, 0, bound);
      assert es[..0] + es[0 + 1..] == es[1..];
      ReturnedAll(Returned(p, es[0]), es[1..], bound);
    }
  }

  lemma PooledAdd(s: State, name: nat, env: OutputEnv)
    requires Books(s) && Pooled(s)
    ensures Pooled(Added(s, name, env))
  {
    var t := Added(s, name, env);
    assert s.outputs.next !in s.outputs.live;
    if env.bound && env.created {
      assert t.surfaces == [t.surfaces[0]] + s.surfaces;
      OutputsGrow(t.surfaces[0], s.surfaces);
    }
  }

  lemma PooledRemove(s: State, name: nat)
    requires Listed(s) && Sound(s.surfaces) && Pooled(s)
    ensures Pooled(Removed(s, name))
  {
    var found := Find(s.surfaces, name);
    if found.Some? {
      var e := s.surfaces[found.value];
      assert e.output in Outputs(s.surfaces);
      ReturnedOne(s.outputs, e);
      OutputsShrink(s.surfaces, found.value, s.outputs.next);
    }
  }

  lemma PooledStep(s: State, a: Action)
    requires Books(s) && Sound(s.surfaces) && Pooled(s) && Enabled(s, a)
    ensures Pooled(Apply(s, a))
  {
    match a
    case AddOutput(name, env) => PooledAdd(s, name, env);
    case RemoveOutput(name) => PooledRemove(s, name);
    case LockSession(_, _, envs) =>
      AttachAllCovers(s.surfaces, envs, NewView, s.outputs.next);
      SameOutputs(s.surfaces, Apply(s, a).surfaces);
    case SurfaceEvent(_, _, _) => SameOutputs(s.surfaces, Apply(s, a).surfaces);
    case Unlock =>
      DetachAllBares(s.surfaces);
      SameOutputs(s.surfaces, Apply(s, a).surfaces);
    case Destroy => ReturnedAll(s.outputs, s.surfaces, s.outputs.next);
    case _ =>
  }

  lemma InvStep(s: State, a: Action)
    requires Inv(s) && Enabled(s, a)
    ensures Inv(Apply(s, a))
  {
    KeptStep(s, a);
    BooksStep(s, a);
    PooledStep(s, a);
  }

  lemma {:induction false} InvRun(s: State, acts: seq<Action>)
    requires Inv(s)
    ensures Exec(s, acts).Some? ==> Inv(Exec(s, acts).value)
  {
    if acts != [] && Exec(s, acts).Some? {
      var prefix := acts[..|acts| - 1];
      InvRun(s, prefix);
      InvStep(Exec(s, prefix).value, acts[|acts| - 1]);
    }
  }

  lemma InvReachable(s: State)
    requires Reachable(s)
    ensures Inv(s)
  {
    var acts :| Exec(Init, acts) == Some(s);
    InvRun(Init, acts);
  }

  // ----- theorems ---------------------------------------------------------------------------------------------

  /** Each lock object ever created gets at most one terminating request: none while the client holds
      it, exactly one once the client has let go of it; unlock_and_destroy is never sent before
      locked was received, so INVALID_UNLOCK is never provoked. */
  lemma LockIsTerminatedOnce(s: State)
    requires Reachable(s)
    ensures forall i :: 0 <= i < |Objects(s)| ==> !Objects(s)[i].invalidUnlock
    ensures forall i :: 0 <= i < |Objects(s)| ==>
              Objects(s)[i].terminations == if s.lock && i == |s.past| then 0 else 1
    ensures s.lock ==> s.made
    ensures s.isLocked ==> s.lock && s.view.gotLocked
  {
    InvReachable(s);
  }

  /** kl_context_destroy provokes INVALID_DESTROY exactly when the compositor has sent locked on a
      lock the client still holds and the client has either not received it yet, or has
      received finished as well. */
  lemma InvalidDestroyIff(s: State)
    requires Reachable(s) && s.lock
    ensures Destroyed(s).view.invalidDestroy
            <==> s.view.sentLocked && (!s.view.gotLocked || s.view.gotFinished)
  {
    InvReachable(s);
  }

  /** Over a whole run: no lock object ever sees INVALID_UNLOCK, and one that is over has seen
      INVALID_DESTROY exactly when locked had been sent on it and the client either never
      received it or received finished as well. */
  lemma RunIsInvalidIff(s: State, i: nat)
    requires Reachable(s) && i < |Objects(s)| && Objects(s)[i].terminations > 0
    ensures !Objects(s)[i].invalidUnlock
    ensures Objects(s)[i].invalidDestroy
            <==> Objects(s)[i].sentLocked && (!Objects(s)[i].gotLocked || Objects(s)[i].gotFinished)
  {
    InvReachable(s);
  }

  /** kl_context_unlock_session provokes no protocol error whatever the state. */
  lemma UnlockIsAlwaysValid(s: State)
    requires Reachable(s) && Unlocked(s).0
    ensures var v := Unlocked(s).1.view; !v.invalidUnlock && !v.invalidDestroy && v.terminations == 1
  {
    InvReachable(s);
  }

  /** kl_context_lock_session returns normally only once locked or finished has arrived. */
  predicate Settled(s: State) {
    s.lock ==> s.isLocked || s.isFinished
  }

  /** With a conforming compositor that does not send finished after locked, and no client-side
      failure, so that the lock is settled when it is destroyed, no protocol error is provoked. */
  lemma OrderlyEndIsValid(s: State)
    requires Reachable(s) && Settled(s) && !(s.view.sentLocked && s.view.sentFinished) && s.lock
    ensures var v := Destroyed(s).view; !v.invalidDestroy && !v.invalidUnlock
  {
    InvReachable(s);
  }

  /** For any sequence of output additions and removals: while a lock is held and not finished, and
      no attachment under it failed, every listed output has a lock surface. */
  lemma EveryOutputIsCovered(s: State)
    requires Reachable(s) && s.lock && !s.isFinished && !s.view.missed
    ensures forall i :: 0 <= i < |s.surfaces| ==> s.surfaces[i].surf.lockSurface.Some?
  {
    InvReachable(s);
  }

  /** No output is ever given two lock surfaces under one lock object. */
  lemma NoDuplicateLockSurface(s: State)
    requires Reachable(s)
    ensures forall i :: 0 <= i < |Objects(s)| ==> !Objects(s)[i].duplicate
  {
    InvReachable(s);
  }

  /** No lock surface is ever requested of a lock after the client has received finished on it, or
      has ended it. */
  lemma NoLateLockSurface(s: State)
    requires Reachable(s)
    ensures forall i :: 0 <= i < |Objects(s)| ==> !Objects(s)[i].late
  {
    InvReachable(s);
  }

  /** Every wl_output ever bound is held by a listed entry or has been released, once: with its
      surface and everything that surface had acquired, or at once if no surface could be made.
      After kl_context_destroy none is listed and none is held, and destroying again changes
      nothing. */
  lemma NothingLeaks(s: State)
    requires Reachable(s)
    ensures !s.outputs.misused && s.outputs.live == Outputs(s.surfaces)
    ensures s.outputs.next == |s.surfaces| + |s.retired| + s.refused
    ensures forall i :: 0 <= i < |s.retired| ==> T.Spent(s.retired[i])
    ensures var d := Destroyed(s);
            && d.surfaces == [] && !d.lock && d.outputs.live == {} && !d.outputs.misused
            && d.outputs.next == |d.retired| + d.refused && Destroyed(d) == d
  {
    InvReachable(s);
    InvStep(s, Destroy);
    var d := Destroyed(s);
    assert d.retired + RetireAll(d.surfaces) == d.retired;
  }

  // ----- the excluded event order ---------------------------------------------------------------------------------

  lemma {:induction false} Do(s: State, a: Action) returns (t: State)
    requires Reachable(s) && Enabled(s, a)
    ensures t == Apply(s, a) && Reachable(t)
  {
    var acts :| Exec(Init, acts) == Some(s);
    t := Apply(s, a);
    assert (acts + [a])[..|acts|] == acts;
    assert Exec(Init, acts + [a]) == Some(t);
  }

  const Good := S.AttachEnv(true, true, true)

  /** A lock just requested. */
  lemma HeldReachable() returns (s: State)
    ensures Reachable(s) && s.lock && !s.view.sentLocked && !s.view.sentFinished
            && !s.view.gotLocked && !s.view.gotFinished
  {
    assert Exec(Init, []) == Some(Init);
    s := Do(Init, BindGlobals);
    s := Do(s, AddOutput(7, OutputEnv(true, true, Good)));
    assert s.surfaces == [Entry(7, 0, S.Fresh)];
    AttachAllCovers(s.surfaces, [Good], NewView, 1);
    s := Do(s, LockSession(true, true, [Good]));
  }

  /** finished after locked: the program then sends destroy, which is INVALID_DESTROY. */
  lemma FinishedAfterLockedIsInvalid()
    ensures exists s :: Reachable(s) && !s.lock && s.view.invalidDestroy
  {
    var s := HeldReachable();
    s := Do(s, SendLocked);
    s := Do(s, ReceiveLocked);
    s := Do(s, SendFinished);
    s := Do(s, ReceiveFinished);
    s := Do(s, Destroy);
    assert !s.lock && s.view.invalidDestroy;
  }
}
