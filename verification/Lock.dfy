/**
  `struct kl_context`: the session lock, its listed outputs and their surfaces, against the
  compositor's side of one ext_session_lock_v1 object at a time.
 */
module Lock {
  import opened Common
  import L = Ledger
  import S = Surface
  import T = SurfaceTheorems

  /** A listed output: its registry name, the handle of its wl_output and its surface. */
  datatype Entry = Entry(name: nat, output: nat, surf: S.State)

  /**
    The compositor's record of one lock object: which of locked and finished it has sent and which
    have reached the client, the outputs given a lock surface, and how many requests have ended
    the object.  `duplicate`, `invalidDestroy` and `invalidUnlock` are the protocol errors
    duplicate_output, invalid_destroy and invalid_unlock; `late`: a lock surface was requested
    after the client had received finished or had ended the object; `missed` is history: an
    attachment under this lock failed on the client's side.
   */
  datatype View = View(
    sentLocked: bool, sentFinished: bool, gotLocked: bool, gotFinished: bool,
    covered: set<nat>, duplicate: bool, late: bool, terminations: nat,
    invalidDestroy: bool, invalidUnlock: bool, missed: bool)

  const NewView := View(false, false, false, false, {}, false, false, 0, false, false, false)

  function GetLockSurface(v: View, output: nat): View {
    v.(covered := v.covered + {output}, duplicate := v.duplicate || output in v.covered,
       late := v.late || v.gotFinished || v.terminations > 0)
  }

  function SendDestroy(v: View): View {
    v.(terminations := v.terminations + 1, invalidDestroy := v.invalidDestroy || v.sentLocked)
  }

  function SendUnlock(v: View): View {
    v.(terminations := v.terminations + 1, invalidUnlock := v.invalidUnlock || !v.sentLocked)
  }

  /** `ready`: compositor and lock manager are bound.  `made`: a lock object has ever been created;
      then `view` is the record of the last one, held or not, and `past` has those before it.
      `retired` are the surfaces destroyed, `outputs` accounts for every wl_output ever bound, and
      `refused` counts those bound for which no surface could be made. */
  datatype State = State(
    ready: bool, surfaces: seq<Entry>, lock: bool, isLocked: bool, isFinished: bool, failed: bool,
    made: bool, view: View, past: seq<View>, retired: seq<S.State>, outputs: L.Pool, refused: nat)

  const Init := State(false, [], false, false, false, false, false, NewView, [], [], L.Empty, 0)

  /** The records of all lock objects ever created. */
  function Objects(s: State): seq<View> {
    s.past + if s.made then [s.view] else []
  }

  // ----- attaching and detaching ------------------------------------------------------------------

  /** kl_surface_attach_lock of a listed surface, and what the compositor sees of it: handles are
      fresh, so a lock surface was asked for exactly if the surface ends up with another one. */
  function AttachOne(e: Entry, env: S.AttachEnv, v: View): (r: (bool, Entry, View)) {
    var (ok, surf) := S.OnAttach(e.surf, env);
    var asked := surf.lockSurface.Some? && surf.lockSurface != e.surf.lockSurface;
    var v1 := if asked then GetLockSurface(v, e.output) else v;
    (ok, e.(surf := surf), v1.(missed := v.missed || !ok))
  }

  /** The attach loop of kl_context_lock_session: it stops at the first failure. */
  function AttachAll(es: seq<Entry>, envs: seq<S.AttachEnv>, v: View): (r: (bool, seq<Entry>, View))
    requires |envs| == |es|
    ensures |r.1| == |es|
  {
    if es == [] then (true, [], v)
    else
      var (ok, e, v1) := AttachOne(es[0], envs[0], v);
      if !ok then (false, [e] + es[1..], v1)
      else
        var (ok', rest, v2) := AttachAll(es[1..], envs[1..], v1);
        (ok', [e] + rest, v2)
  }

  /** kl_surface_detach_lock and kl_surface_destroy of a listed surface; it always has its three
      buffers. */
  function Release(surf: S.State): S.State {
    if |surf.buffers| == S.BUFFER_COUNT then S.Detached(surf) else surf
  }

  function Retire(surf: S.State): S.State {
    if |surf.buffers| == S.BUFFER_COUNT then S.Destroyed(surf) else surf
  }

  /** Destroying the surface of an entry gives its wl_output back. */
  function Returned(p: L.Pool, e: Entry): L.Pool {
    if e.surf.output.Some? && Retire(e.surf).output.None? then L.Release(p, e.output) else p
  }

  function ReturnAll(p: L.Pool, es: seq<Entry>): L.Pool
    decreases |es|
  {
    if es == [] then p else ReturnAll(Returned(p, es[0]), es[1..])
  }

  /** The detach loop of kl_context_unlock_session. */
  function DetachAll(es: seq<Entry>): (r: seq<Entry>)
    ensures |r| == |es|
  {
    if es == [] then [] else [es[0].(surf := Release(es[0].surf))] + DetachAll(es[1..])
  }

  /** The destroy loop of kl_context_destroy. */
  function RetireAll(es: seq<Entry>): (r: seq<S.State>)
    ensures |r| == |es|
  {
    if es == [] then [] else [Retire(es[0].surf)] + RetireAll(es[1..])
  }

  // ----- registry ------------------------------------------------------------------------------------

  datatype OutputEnv = OutputEnv(bound: bool, created: bool, attach: S.AttachEnv)

  /** kl_registry_handle_global for a wl_output */
  function Added(s: State, name: nat, env: OutputEnv): State {
    if !env.bound then s.(failed := true)
    else
      var output, p := s.outputs.next, L.Acquire(s.outputs);
      if !env.created then s.(failed := true, outputs := L.Release(p, output), refused := s.refused + 1)
      else
        var e := Entry(name, output, S.Fresh);
        if s.lock && !s.isFinished && s.ready then
          var (_, e', v) := AttachOne(e, env.attach, s.view);
          s.(surfaces := [e'] + s.surfaces, outputs := p, view := v)
        else s.(surfaces := [e] + s.surfaces, outputs := p)
  }

  /** The first listed output with a registry name. */
  function Find(es: seq<Entry>, name: nat): (r: Option<nat>)
    ensures r.Some? ==> r.value < |es| && es[r.value].name == name
    ensures r.None? ==> forall i :: 0 <= i < |es| ==> es[i].name != name
  {
    if es == [] then None
    else if es[0].name == name then Some(0)
    else
      var rest := Find(es[1..], name);
      if rest.Some? then Some(rest.value + 1) else None
  }

  /** kl_registry_handle_global_remove */
  function Removed(s: State, name: nat): State {
    match Find(s.surfaces, name)
    case None => s
    case Some(i) =>
      s.(surfaces := s.surfaces[..i] + s.surfaces[i + 1..],
         retired := s.retired + [Retire(s.surfaces[i].surf)], outputs := Returned(s.outputs, s.surfaces[i]))
  }

  // ----- the lock ----------------------------------------------------------------------------------------

  /** kl_context_lock_session up to its dispatch loop.  `lockOk` and `listenerOk` are the answers to
      the lock request and to adding its listener. */
  function Locking(s: State, lockOk: bool, listenerOk: bool, envs: seq<S.AttachEnv>): (r: (bool, State))
    requires |envs| == |s.surfaces|
  {
    if !s.ready || s.surfaces == [] then (false, s)
    else if !lockOk then (false, s.(lock := false))
    else
      var s1 := s.(lock := true, made := true, view := NewView, past := Objects(s));
      if !listenerOk then (false, s1.(view := NewView.(missed := true)))
      else
        var (ok, es, v) := AttachAll(s.surfaces, envs, NewView);
        (ok, s1.(surfaces := es, view := v))
  }

  /** kl_context_unlock_session up to its roundtrip */
  function Unlocked(s: State): (r: (bool, State)) {
    if !s.lock || !s.isLocked || s.isFinished then (false, s)
    else
      (true, s.(surfaces := DetachAll(s.surfaces), lock := false, isLocked := false, isFinished := false,
                view := SendUnlock(s.view)))
  }

  /** kl_context_destroy */
  function Destroyed(s: State): State {
    s.(surfaces := [], retired := s.retired + RetireAll(s.surfaces),
       outputs := ReturnAll(s.outputs, s.surfaces), ready := false, lock := false,
       isLocked := false, isFinished := false, failed := false,
       view := if !s.lock then s.view
               else if s.isLocked && !s.isFinished then SendUnlock(s.view)
               else SendDestroy(s.view))
  }

  // ----- runs ------------------------------------------------------------------------------------------------

  datatype Action =
    | BindGlobals
    | AddOutput(name: nat, output: OutputEnv)
    | RemoveOutput(name: nat)
    | LockSession(lockOk: bool, listenerOk: bool, envs: seq<S.AttachEnv>)
    | SendLocked
    | SendFinished
    | ReceiveLocked
    | ReceiveFinished
    | SurfaceEvent(i: nat, event: T.Event, env: S.Env)
    | Unlock
    | Destroy

  /**
    The client locks only when it holds no lock.  A conforming compositor sends at most one locked,
    never after finished, and at most one finished; events arrive in the order they were sent;
    a surface gets only the events its own state makes legal.
   */
  predicate Enabled(s: State, a: Action) {
    match a
    case LockSession(_, _, envs) => !s.lock && |envs| == |s.surfaces|
    case SendLocked => s.lock && !s.view.sentLocked && !s.view.sentFinished
    case SendFinished => s.lock && !s.view.sentFinished
    case ReceiveLocked => s.lock && s.view.sentLocked && !s.view.gotLocked
    case ReceiveFinished =>
      s.lock && s.view.sentFinished && !s.view.gotFinished && (s.view.sentLocked ==> s.view.gotLocked)
    case SurfaceEvent(i, event, _) =>
      && i < |s.surfaces| && |s.surfaces[i].surf.buffers| == S.BUFFER_COUNT
      && !event.Attach? && !event.Detach? && T.Legal(s.surfaces[i].surf, event)
    case _ => true
  }

  function Apply(s: State, a: Action): State
    requires Enabled(s, a)
  {
    match a
    case BindGlobals => s.(ready := true)
    case AddOutput(name, output) => Added(s, name, output)
    case RemoveOutput(name) => Removed(s, name)
    case LockSession(lockOk, listenerOk, envs) => Locking(s, lockOk, listenerOk, envs).1
    case SendLocked => s.(view := s.view.(sentLocked := true))
    case SendFinished => s.(view := s.view.(sentFinished := true))
    case ReceiveLocked => s.(isLocked := true, view := s.view.(gotLocked := true))
    case ReceiveFinished => s.(isFinished := true, view := s.view.(gotFinished := true))
    case SurfaceEvent(i, event, env) =>
      s.(surfaces := s.surfaces[i := s.surfaces[i].(surf := T.Handled(s.surfaces[i].surf, event, env))])
    case Unlock => Unlocked(s).1
    case Destroy => Destroyed(s)
  }

  function Exec(s: State, acts: seq<Action>): Option<State> {
    if acts == [] then Some(s)
    else
      var before := Exec(s, acts[..|acts| - 1]);
      var a := acts[|acts| - 1];
      if before.Some? && Enabled(before.value, a) then Some(Apply(before.value, a)) else None
  }

  ghost predicate Reachable(s: State) {
    exists acts :: Exec(Init, acts) == Some(s)
  }
}
