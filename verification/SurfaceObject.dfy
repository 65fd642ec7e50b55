/** `struct kl_surface` as the program updates it: each handler refines its specification. */
module SurfaceObject {
  import opened Common
  import opened Ledger
  import opened Surface
  import B = Buffer
  import T = SurfaceTheorems
  import R = SurfaceRuns

  class KlSurface {
    var output: Option<nat>
    var engine: Option<nat>
    var wlSurface: Option<nat>
    var lockSurface: Option<nat>
    var callback: Option<nat>
    const buffers: seq<B.KlBuffer>
    var current: nat
    var width: nat
    var height: nat
    var scale: int
    var configured: bool
    var framePending: bool
    var dirty: bool
    var pool: Pool
    ghost var view: View
    ghost var failed: bool
    ghost var oversized: bool

    ghost predicate Valid() {
      && |buffers| == BUFFER_COUNT
      && buffers[0] != buffers[1] && buffers[0] != buffers[2] && buffers[1] != buffers[2]
    }

    ghost function Slots(): seq<B.State>
      requires Valid()
      reads buffers
    {
      [buffers[0].Value(), buffers[1].Value(), buffers[2].Value()]
    }

    ghost function Value(): State
      requires Valid()
      reads this, buffers
    {
      State(output, engine, wlSurface, lockSurface, callback, Slots(), current, width, height, scale,
            configured, framePending, dirty, pool, view, failed, oversized)
    }

    /** kl_surface_create for an output that has been bound. */
    constructor ()
      ensures Valid() && fresh(buffers) && Value() == Fresh
    {
      var b0 := new B.KlBuffer();
      var b1 := new B.KlBuffer();
      var b2 := new B.KlBuffer();
      buffers := [b0, b1, b2];
      output, engine, wlSurface, lockSurface, callback := Some(0), Some(1), None, None, None;
      current, width, height, scale := 0, 0, 0, 1;
      configured, framePending, dirty := false, false, true;
      pool, view, failed, oversized := Pool({0, 1}, 2, false), NoView, false, false;
    }

    /** kl_surface_get_free_buffer */
    method GetFreeBuffer() returns (k: Option<nat>)
      requires Valid()
      modifies this`current
      ensures k == FreeSlot(Slots(), old(current))
      ensures current == if k.Some? then k.value else old(current)
    {
      var i := 0;
      while i < BUFFER_COUNT
        invariant 0 <= i <= BUFFER_COUNT && current == old(current)
        invariant forall j :: 0 <= j < i ==> buffers[Slot(current, j)].busy
      {
        var idx := Slot(current, i);
        if !buffers[idx].busy {
          current := idx;
          return Some(idx);
        }
        i := i + 1;
      }
      return None;
    }

    method Recreate(k: nat, env: B.Env) returns (ok: bool)
      requires Valid() && k < BUFFER_COUNT
      modifies `view, buffers[k]
      ensures (ok, Value()) == Recreated(old(Value()), k, env)
    {
      var buf := buffers[k];
      if buf.wl.Some? {
        view := Observe(view, DestroyBuffer(Token(k, buf.wl.value)));
      }
      buf.Destroy();
      ok := buf.Create(width, height, scale, env);
      assert Slots() == old(Slots())[k := buf.Value()];
    }

    /** The part of kl_surface_render_frame that makes the buffer fit. */
    method Rebuild(k: nat, env: B.Env) returns (ok: bool)
      requires Valid() && k < BUFFER_COUNT && current == k
      modifies `view, buffers[k]
      ensures (ok, Value()) == Rebuilt(old(Value()), k, env)
    {
      var buf := buffers[k];
      if buf.width != width || buf.height != height || buf.scale != scale || buf.wl.None? {
        ok := Recreate(k, env);
      } else {
        ok := true;
      }
    }

    /** The part of kl_surface_render_frame that draws, attaches and commits; `shown` is what the
        compositor then sees. */
    method Ship(k: nat, ghost shown: View)
      requires Valid() && k < BUFFER_COUNT
      modifies `view, `oversized, buffers[k]
      ensures var s := old(Value());
              Value() == s.(buffers := s.buffers[k := s.buffers[k].(busy := true)], view := shown,
                            oversized := s.oversized || !Fits(s))
    {
      oversized := oversized || !Fits(Value());
      view := shown;
      buffers[k].busy := true;
      assert buffers[k].Value() == old(buffers[k].Value()).(busy := true);
      assert Slots() == old(Slots())[k := buffers[k].Value()];
    }

    method Deliver(k: nat, refused: bool)
      requires Valid() && k < BUFFER_COUNT && buffers[k].wl.Some?
      modifies `view, `oversized, buffers[k]
      ensures Value() == Shipped(old(Value()), k, refused)
    {
      var buf := buffers[k];
      Ship(k, Presented(view, Token(k, buf.wl.value), buf.Value(), scale, refused));
    }

    /** Ask for a frame callback and note the answer. */
    method TakeAnswer(answer: Callback)
      modifies `callback, `pool, `framePending, `dirty, `failed
      ensures callback == if answer.Granted? then Some(old(pool).next) else None
      ensures pool == match answer
                      case Granted => Acquire(old(pool))
                      case Refused => old(pool)
                      case Unheard => Release(Acquire(old(pool)), old(pool).next)
      ensures framePending == answer.Granted? && failed == !answer.Granted?
      ensures dirty == (old(dirty) && !answer.Granted?)
    {
      if answer.Refused? {
        callback, framePending, failed := None, false, true;
        return;
      }
      callback, pool := Some(pool.next), Acquire(pool);
      if answer.Unheard? {
        pool := Release(pool, callback.value);
        callback, framePending, failed := None, false, true;
        return;
      }
      framePending, dirty, failed := true, false, false;
    }

    /** The part of kl_surface_render_frame that deals with the frame callback. */
    method AwaitFrame(answer: Callback)
      requires Valid()
      modifies `callback, `pool, `framePending, `dirty, `failed
      ensures Value() == Framed(old(Value()), answer)
    {
      ghost var s := Value();
      TakeAnswer(answer);
      assert Value() == State(s.output, s.engine, s.wlSurface, s.lockSurface, callback, s.buffers, s.current,
                              s.width, s.height, s.scale, s.configured, framePending, dirty, pool, s.view,
                              failed, s.oversized);
    }

    /** kl_surface_render_frame once a free slot is found */
    method RenderInto(k: nat, env: Env)
      requires Valid() && k < BUFFER_COUNT && current == k
      modifies this, buffers
      ensures Value() == Filled(old(Value()), k, env)
    {
      RebuiltHasBuffer(Value(), k, env.buffer);
      var ok := Rebuild(k, env.buffer);
      if ok {
        Deliver(k, !env.callback.Granted?);
        AwaitFrame(env.callback);
      } else {
        failed := true;
      }
    }

    /** kl_surface_render_frame */
    method RenderFrame(env: Env)
      requires Valid()
      modifies this, buffers
      ensures Value() == Rendered(old(Value()), env)
    {
      if !configured || framePending { return; }
      if wlSurface.None? || width == 0 || height == 0 { return; }
      FreeSlotIsFree(Slots(), current);
      var k := GetFreeBuffer();
      if k.None? {
        dirty, failed := true, false;
      } else {
        FilledIgnoresCurrent(old(Value()), k.value, env);
        RenderInto(k.value, env);
      }
    }

    /** kl_surface_request_render */
    method RequestRender(env: Env)
      requires Valid()
      modifies this, buffers
      ensures Value() == Requested(old(Value()), env)
    {
      dirty := true;
      if !framePending && configured {
        RenderFrame(env);
      }
    }

    /** kl_output_handle_scale */
    method HandleScale(factor: int, env: Env)
      requires Valid()
      modifies this, buffers
      ensures Value() == OnScale(old(Value()), factor, env)
      ensures scale == if factor > 0 then factor else old(scale)
    {
      R.ScaleApplies(Value(), factor, env);
      if factor > 0 && scale != factor {
        scale := factor;
        dirty := true;
        RequestRender(env);
      }
    }

    /** kl_surface_frame_handle_done */
    method HandleDone(env: Env)
      requires Valid()
      modifies this, buffers
      ensures Value() == OnDone(old(Value()), env)
    {
      view := Observe(view, FrameDone);
      pool := ReleaseAny(pool, callback);
      callback, framePending := None, false;
      ghost var s := old(Value());
      assert Value() == State(s.output, s.engine, s.wlSurface, s.lockSurface, None, s.buffers, s.current, s.width,
                              s.height, s.scale, s.configured, false, s.dirty, ReleaseAny(s.pool, s.callback),
                              Observe(s.view, FrameDone), s.failed, s.oversized);
      RenderFrame(env);
    }

    /** kl_buffer_handle_release followed by kl_surface_on_buffer_release */
    method HandleRelease(k: nat, env: Env)
      requires Valid() && k < BUFFER_COUNT && buffers[k].wl.Some?
      modifies this, buffers
      ensures Value() == OnRelease(old(Value()), k, env)
    {
      var buf := buffers[k];
      view := Observe(view, ReleaseBuffer(Token(k, buf.wl.value)));
      buf.busy := false;
      assert buf.Value() == old(buf.Value()).(busy := false);
      assert Slots() == old(Slots())[k := buf.Value()];
      ghost var s := old(Value());
      assert Value() == State(s.output, s.engine, s.wlSurface, s.lockSurface, s.callback, Slots(), s.current, s.width,
                              s.height, s.scale, s.configured, s.framePending, s.dirty, s.pool, view, s.failed,
                              s.oversized);
      if buf.hooked && dirty && !framePending && configured {
        RenderFrame(env);
      }
    }

    /** kl_lock_surface_handle_configure */
    method HandleConfigure(size: Size, env: Env)
      requires Valid()
      modifies this, buffers
      ensures Value() == OnConfigure(old(Value()), size, env)
      ensures configured && width == size.width && height == size.height && view.acked == Some(size)
    {
      R.ConfigureApplies(Value(), size, env);
      width, height := size.width, size.height;
      view := Observe(view, Ack(size));
      configured := true;
      ghost var s := old(Value());
      assert Value() == State(s.output, s.engine, s.wlSurface, s.lockSurface, s.callback, s.buffers, s.current,
                              size.width, size.height, s.scale, true, s.framePending, s.dirty, s.pool,
                              Observe(s.view, Ack(size)), s.failed, s.oversized);
      RequestRender(env);
    }

    /** kl_surface_attach_lock; `lockable`: the context has a lock and a compositor. */
    method AttachLock(lockable: bool, env: AttachEnv) returns (ok: bool)
      requires Valid()
      modifies this
      ensures (ok, Value()) == if lockable then OnAttach(old(Value()), env) else (false, old(Value()))
    {
      if !lockable { return false; }
      if lockSurface.Some? { return true; }
      if !env.surfaced {
        wlSurface := None;
        return false;
      }
      wlSurface, pool := Some(pool.next), Acquire(pool);
      if !env.locked {
        pool, wlSurface := Release(pool, wlSurface.value), None;
        return false;
      }
      lockSurface, pool := Some(pool.next), Acquire(pool);
      return env.listened;
    }

    /** The loop of kl_surface_detach_lock. */
    method DestroyBuffers()
      requires Valid()
      modifies buffers
      ensures Slots() == [B.Destroyed(old(Slots())[0]), B.Destroyed(old(Slots())[1]), B.Destroyed(old(Slots())[2])]
    {
      var i := 0;
      while i < BUFFER_COUNT
        invariant 0 <= i <= BUFFER_COUNT
        invariant forall j :: 0 <= j < i ==> buffers[j].Value() == B.Destroyed(old(buffers[j].Value()))
        invariant forall j :: i <= j < BUFFER_COUNT ==> buffers[j].Value() == old(buffers[j].Value())
      {
        buffers[i].Destroy();
        i := i + 1;
      }
    }

    /** The part of kl_surface_detach_lock that releases. */
    method Unbind()
      requires Valid()
      modifies `callback, `lockSurface, `wlSurface, `pool, buffers
      ensures callback.None? && lockSurface.None? && wlSurface.None?
      ensures pool == ReleaseAny(ReleaseAny(ReleaseAny(old(pool), old(callback)), old(lockSurface)), old(wlSurface))
      ensures Slots() == [B.Destroyed(old(Slots())[0]), B.Destroyed(old(Slots())[1]), B.Destroyed(old(Slots())[2])]
    {
      pool, callback := ReleaseAny(pool, callback), None;
      DestroyBuffers();
      pool, lockSurface := ReleaseAny(pool, lockSurface), None;
      pool, wlSurface := ReleaseAny(pool, wlSurface), None;
    }

    /** The part of kl_surface_detach_lock that resets. */
    method Clear()
      modifies `view, `failed, `configured, `framePending, `dirty, `width, `height, `current
      ensures view == Observe(old(view), Leave)
      ensures !failed && !configured && !framePending && dirty
      ensures width == height == current == 0
    {
      view := Observe(view, Leave);
      configured, framePending, dirty, failed := false, false, true, false;
      width, height, current := 0, 0, 0;
    }

    /** kl_surface_detach_lock */
    method DetachLock()
      requires Valid()
      modifies this, buffers
      ensures Value() == Detached(old(Value()))
    {
      ghost var s := Value();
      Unbind();
      ghost var p, slots := pool, Slots();
      Clear();
      assert Value() == State(s.output, s.engine, None, None, None, slots, 0, 0, 0, s.scale, false, false, true,
                              p, Observe(s.view, Leave), false, s.oversized);
    }

    /** kl_surface_destroy */
    method Destroy()
      requires Valid()
      modifies this, buffers
      ensures Value() == Destroyed(old(Value()))
    {
      DetachLock();
      pool, engine := ReleaseAny(pool, engine), None;
      pool, output := ReleaseAny(pool, output), None;
    }

    /** One event from the compositor: the object moves as the specification says, and so keeps
        every invariant of `SurfaceTheorems`. */
    method Dispatch(e: T.Event, env: Env)
      requires Valid() && T.Inv(Value()) && T.Legal(Value(), e)
      modifies this, buffers
      ensures Value() == T.Handled(old(Value()), e, env) && T.Inv(Value())
    {
      T.HandledKeeps(Value(), e, env);
      match e
      case Configure(size) => HandleConfigure(size, env);
      case Done => HandleDone(env);
      case Released(k) => HandleRelease(k, env);
      case Scale(factor) => HandleScale(factor, env);
      case Request => RequestRender(env);
      case Attach(attach) => var _ := AttachLock(true, attach);
      case Detach => DetachLock();
    }
  }
}
