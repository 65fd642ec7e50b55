/** `struct kl_context` as the program updates it: each handler and call refines its specification. */
module LockObject {
  import opened Common
  import opened Lock
  import L = Ledger
  import S = Surface
  import T = SurfaceTheorems
  import LT = LockTheorems
  import LR = LockRuns
  import O = SurfaceObject

  class KlContext {
    var ready: bool
    var surfaces: seq<Entry>
    var lock: bool
    var isLocked: bool
    var isFinished: bool
    var failed: bool
    var outputs: L.Pool
    ghost var made: bool
    ghost var view: View
    ghost var past: seq<View>
    ghost var retired: seq<S.State>
    ghost var refused: nat

    ghost function Value(): State
      reads this
    {
      State(ready, surfaces, lock, isLocked, isFinished, failed, made, view, past, retired, outputs, refused)
    }

    constructor ()
      ensures Value() == Init
    {
      ready, surfaces, lock, isLocked, isFinished, failed := false, [], false, false, false, false;
      outputs, made, view, past, retired, refused := L.Empty, false, NewView, [], [], 0;
    }

    /** kl_registry_handle_global for a wl_output */
    method HandleOutput(name: nat, env: OutputEnv)
      modifies this
      ensures Value() == Added(old(Value()), name, env)
    {
      if !env.bound {
        failed := true;
        return;
      }
      var output := outputs.next;
      outputs := L.Acquire(outputs);
      if !env.created {
        outputs := L.Release(outputs, output);
        refused := refused + 1;
        failed := true;
        return;
      }
      var e := Entry(name, output, S.Fresh);
      if lock && !isFinished && ready {
        var _, attached := AttachEntry(e, env.attach);
        e := attached;
      }
      surfaces := [e] + surfaces;
    }

    /** kl_surface_destroy of one entry: its wl_output goes back with its surface. */
    method DestroyEntry(e: Entry)
      modifies `retired, `outputs
      ensures retired == old(retired) + [Retire(e.surf)] && outputs == Returned(old(outputs), e)
    {
      var surf := Retire(e.surf);
      if e.surf.output.Some? && surf.output.None? {
        outputs := L.Release(outputs, e.output);
      }
      retired := retired + [surf];
    }

    /** kl_registry_handle_global_remove: the entry so named goes, and only that one. */
    method HandleRemove(name: nat)
      modifies this
      ensures Value() == Removed(old(Value()), name)
      ensures LR.NamesOf(surfaces) == LR.Without(LR.NamesOf(old(surfaces)), name)
    {
      LR.FoundIsTakenOut(Value(), name);
      RemoveFirst(name);
    }

    /** Its search loop. */
    method RemoveFirst(name: nat)
      modifies this
      ensures Value() == Removed(old(Value()), name)
    {
      var i := 0;
      while i < |surfaces|
        invariant 0 <= i <= |surfaces| && Value() == old(Value())
        invariant var rest := Find(surfaces[i..], name);
                  Find(surfaces, name) == if rest.Some? then Some(rest.value + i) else None
      {
        if surfaces[i].name == name {
          DestroyEntry(surfaces[i]);
          surfaces := surfaces[..i] + surfaces[i + 1..];
          return;
        }
        assert surfaces[i..][1..] == surfaces[i + 1..];
        i := i + 1;
      }
    }

    /** kl_lock_handle_locked: from here on the session can be unlocked. */
    method HandleLocked()
      requires LT.Inv(Value()) && Enabled(Value(), ReceiveLocked)
      modifies this
      ensures Value() == Apply(old(Value()), ReceiveLocked) && LT.Inv(Value())
      ensures Unlocked(Value()).0
    {
      LT.InvStep(Value(), ReceiveLocked);
      isLocked := true;
      view := view.(gotLocked := true);
    }

    /** kl_lock_handle_finished: from here on it cannot. */
    method HandleFinished()
      requires LT.Inv(Value()) && Enabled(Value(), ReceiveFinished)
      modifies this
      ensures Value() == Apply(old(Value()), ReceiveFinished) && LT.Inv(Value())
      ensures !Unlocked(Value()).0
    {
      LT.InvStep(Value(), ReceiveFinished);
      isFinished := true;
      view := view.(gotFinished := true);
    }

    /** kl_surface_attach_lock of one listed surface. */
    method AttachEntry(e: Entry, env: S.AttachEnv) returns (ok: bool, e': Entry)
      modifies `view
      ensures (ok, e', view) == AttachOne(e, env, old(view))
    {
      var r := S.OnAttach(e.surf, env);
      ok, e' := r.0, e.(surf := r.1);
      if e'.surf.lockSurface.Some? && e'.surf.lockSurface != e.surf.lockSurface {
        view := GetLockSurface(view, e.output);
      }
      if !ok {
        view := view.(missed := true);
      }
    }

    /** The attach loop of kl_context_lock_session. */
    method AttachSurfaces(envs: seq<S.AttachEnv>) returns (ok: bool)
      requires |envs| == |surfaces|
      modifies `surfaces, `view
      ensures (ok, surfaces, view) == AttachAll(old(surfaces), envs, old(view))
    {
      var es, i := surfaces, 0;
      var done: seq<Entry> := [];
      ghost var (willDo, all, seen) := AttachAll(es, envs, view);
      assert es[0..] == es && envs[0..] == envs && all[0..] == all;
      while i < |es|
        invariant 0 <= i <= |es| == |all| && done == all[..i] && surfaces == done + es[i..]
        invariant AttachAll(es[i..], envs[i..], view) == (willDo, all[i..], seen)
      {
        assert es[i..][1..] == es[i + 1..] && envs[i..][1..] == envs[i + 1..];
        assert all == all[..i] + all[i..] && all[i..][1..] == all[i + 1..];
        var attached, e := AttachEntry(es[i], envs[i]);
        assert all[i..][0] == e;
        done := done + [e];
        surfaces := done + es[i + 1..];
        if !attached {
          assert all[i..] == [e] + es[i + 1..];
          assert surfaces == all;
          return false;
        }
        i := i + 1;
      }
      assert es[i..] == [] && all[..i] == all && surfaces == all;
      return true;
    }

    /** kl_context_lock_session up to its dispatch loop */
    method LockSession(lockOk: bool, listenerOk: bool, envs: seq<S.AttachEnv>) returns (ok: bool)
      requires |envs| == |surfaces|
      modifies this
      ensures (ok, Value()) == Locking(old(Value()), lockOk, listenerOk, envs)
    {
      if !ready || |surfaces| == 0 { return false; }
      lock := lockOk;
      if !lockOk { return false; }
      past := Objects(Value());
      made, view := true, NewView;
      if !listenerOk {
        view := NewView.(missed := true);
        return false;
      }
      ok := AttachSurfaces(envs);
    }

    /** kl_context_unlock_session up to its roundtrip */
    method UnlockSession() returns (ok: bool)
      modifies this
      ensures (ok, Value()) == Unlocked(old(Value()))
    {
      if !lock || !isLocked || isFinished { return false; }
      var es, i := surfaces, 0;
      var done: seq<Entry> := [];
      assert es[0..] == es;
      while i < |es|
        invariant 0 <= i <= |es|
        invariant DetachAll(es) == done + DetachAll(es[i..])
      {
        assert es[i..][1..] == es[i + 1..];
        done := done + [es[i].(surf := Release(es[i].surf))];
        i := i + 1;
      }
      assert done == DetachAll(es);
      surfaces := done;
      view := SendUnlock(view);
      lock, isLocked, isFinished := false, false, false;
      return true;
    }

    /** The destroy loop of kl_context_destroy. */
    method DestroySurfaces()
      modifies `surfaces, `retired, `outputs
      ensures surfaces == [] && retired == old(retired) + RetireAll(old(surfaces))
      ensures outputs == ReturnAll(old(outputs), old(surfaces))
    {
      while surfaces != []
        invariant retired + RetireAll(surfaces) == old(retired) + RetireAll(old(surfaces))
        invariant ReturnAll(outputs, surfaces) == ReturnAll(old(outputs), old(surfaces))
        decreases |surfaces|
      {
        DestroyEntry(surfaces[0]);
        surfaces := surfaces[1..];
      }
      assert retired + [] == retired;
    }

    /** The part of kl_context_destroy that ends the lock object. */
    method EndLock()
      modifies `view, `lock
      ensures !lock
      ensures view == if !old(lock) then old(view)
                      else if isLocked && !isFinished then SendUnlock(old(view)) else SendDestroy(old(view))
    {
      if lock {
        view := if isLocked && !isFinished then SendUnlock(view) else SendDestroy(view);
        lock := false;
      }
    }

    /** kl_context_destroy */
    method Destroy()
      modifies this
      ensures Value() == Destroyed(old(Value()))
    {
      ghost var s := Value();
      DestroySurfaces();
      EndLock();
      ready, isLocked, isFinished, failed := false, false, false, false;
      assert Value() == State(false, [], false, false, false, false, s.made, view, s.past, retired, outputs, s.refused);
    }

    /** An event for one listed surface. */
    method HandleSurface(i: nat, event: T.Event, env: S.Env)
      requires Enabled(Value(), SurfaceEvent(i, event, env))
      modifies `surfaces
      ensures Value() == Apply(old(Value()), SurfaceEvent(i, event, env))
    {
      surfaces := surfaces[i := surfaces[i].(surf := T.Handled(surfaces[i].surf, event, env))];
    }

    /** The same event handled by the surface object behind that entry: the two stay in step. */
    method DispatchTo(surf: O.KlSurface, i: nat, event: T.Event, env: S.Env)
      requires Enabled(Value(), SurfaceEvent(i, event, env)) && T.Inv(surfaces[i].surf)
      requires surf.Valid() && surf.Value() == surfaces[i].surf
      modifies `surfaces, surf, surf.buffers
      ensures i < |surfaces| && surf.Value() == surfaces[i].surf && T.Inv(surfaces[i].surf)
      ensures Value() == Apply(old(Value()), SurfaceEvent(i, event, env))
    {
      HandleSurface(i, event, env);
      surf.Dispatch(event, env);
    }

    /** Any event or call: the object moves as the specification says, and so keeps every invariant of
        `LockTheorems`. */
    method Dispatch(a: Action)
      requires LT.Inv(Value()) && Enabled(Value(), a)
      modifies this
      ensures Value() == Apply(old(Value()), a) && LT.Inv(Value())
    {
      LT.InvStep(Value(), a);
      match a
      case BindGlobals => ready := true;
      case AddOutput(name, output) => HandleOutput(name, output);
      case RemoveOutput(name) => HandleRemove(name);
      case LockSession(lockOk, listenerOk, envs) => var _ := LockSession(lockOk, listenerOk, envs);
      case SendLocked => view := view.(sentLocked := true);
      case SendFinished => view := view.(sentFinished := true);
      case ReceiveLocked => HandleLocked();
      case ReceiveFinished => HandleFinished();
      case SurfaceEvent(i, event, env) => HandleSurface(i, event, env);
      case Unlock => var _ := UnlockSession();
      case Destroy => Destroy();
    }
  }
}
