/** What every sequence of compositor events keeps true of a lock surface. */
module SurfaceTheorems {
  import opened Common
  import opened Ledger
  import opened Surface
  import B = Buffer

  // ----- invariants ------------------------------------------------------------------------------

  ghost predicate Shape(s: State) {
    && |s.buffers| == BUFFER_COUNT && s.current < BUFFER_COUNT && s.scale > 0
    && (s.callback.Some? <==> s.framePending)
    && (s.failed ==> s.callback.None?)
    && (s.wlSurface.Some? <==> s.lockSurface.Some?)
    && (s.configured ==> s.lockSurface.Some? && s.view.acked == Some(Size(s.width, s.height)))
    && s.view.attached.None?
  }

  ghost predicate Sized(s: State) {
    |s.buffers| == BUFFER_COUNT && forall k :: 0 <= k < BUFFER_COUNT ==> B.Valid(s.buffers[k])
  }

  /** The compositor holds exactly the buffers marked busy. */
  ghost predicate Held(s: State) {
    |s.buffers| == BUFFER_COUNT
    && forall t :: t in s.view.held <==>
         t.slot < BUFFER_COUNT && s.buffers[t.slot].busy && s.buffers[t.slot].wl == Some(t.handle)
  }

  function Busy(buffers: seq<B.State>): nat
    requires |buffers| == BUFFER_COUNT
  {
    Bit(buffers[0].busy) + Bit(buffers[1].busy) + Bit(buffers[2].busy)
  }

  /** Commits = frame-done events + refused callbacks + one if a frame is pending, and
      commits = releases + busy buffers. */
  ghost predicate Counted(s: State) {
    && |s.buffers| == BUFFER_COUNT
    && s.view.commits == s.view.dones + s.view.failures + Bit(s.framePending)
    && s.view.commits == s.view.releases + Busy(s.buffers)
  }

  ghost predicate Lawful(s: State) {
    !s.view.violated && s.view.mismatched == s.oversized
  }

  predicate Shown(s: State) {
    s.configured && s.width > 0 && s.height > 0
  }

  predicate AllBusy(s: State) {
    forall k :: 0 <= k < |s.buffers| ==> s.buffers[k].busy
  }

  /** A surface with a size has a frame callback outstanding, or waits for a release with `dirty`
      set, unless its last attempt to render failed. */
  ghost predicate Lively(s: State) {
    Shown(s) ==> s.framePending || (AllBusy(s) && s.dirty) || s.failed
  }

  function Handles(s: State): set<nat> {
    HandleOf(s.output) + HandleOf(s.engine) + HandleOf(s.wlSurface) + HandleOf(s.lockSurface)
    + HandleOf(s.callback)
  }

  /** Different from the handles of the output and the engine. */
  predicate OffRoots(s: State, x: Option<nat>) {
    Apart(s.output, x) && Apart(s.engine, x)
  }

  /** The live handles are exactly those the surface holds, all different. */
  ghost predicate Owned(s: State) {
    && Sound(s.pool) && s.pool.live == Handles(s)
    && Apart(s.output, s.engine)
    && OffRoots(s, s.wlSurface) && OffRoots(s, s.lockSurface) && OffRoots(s, s.callback)
    && Apart(s.wlSurface, s.lockSurface) && Apart(s.wlSurface, s.callback) && Apart(s.lockSurface, s.callback)
  }

  ghost predicate Core(s: State) {
    Shape(s) && Sized(s) && Held(s) && Counted(s) && Lawful(s) && Owned(s)
  }

  ghost predicate Inv(s: State) {
    Core(s) && Lively(s)
  }

  // ----- rendering ---------------------------------------------------------------------------------

  /** Slot `k` gets another free buffer. */
  lemma FreeSlotReplaced(s: State, t: State, k: nat)
    requires Sized(s) && Held(s) && Counted(s) && k < BUFFER_COUNT && |t.buffers| == BUFFER_COUNT
    requires t.buffers == s.buffers[k := t.buffers[k]] && B.Valid(t.buffers[k])
    requires !s.buffers[k].busy && !t.buffers[k].busy && t.framePending == s.framePending
    requires t.view == s.view
    ensures Sized(t) && Held(t) && Counted(t)
  {}

  lemma RecreatedSlot(s: State, k: nat, env: B.Env)
    requires Sized(s) && Held(s) && !s.view.violated && k < BUFFER_COUNT && !s.buffers[k].busy
    ensures var (ok, t) := Recreated(s, k, env);
            && |t.buffers| == BUFFER_COUNT && B.Valid(t.buffers[k]) && !t.buffers[k].busy
            && t == s.(buffers := s.buffers[k := t.buffers[k]])
            && (ok ==> Reusable(s, t.buffers[k]))
            && (ok <==> B.Creatable(s.width, s.height, s.scale, env))
  {
    var b := s.buffers[k];
    B.DestroyReleasesAll(b);
    B.CreationIsExact(B.Destroyed(b), s.width, s.height, s.scale, env);
    assert b.wl.Some? ==> Token(k, b.wl.value) !in s.view.held;
  }

  /** What becomes of the buffer in a free slot: only that slot changes. */
  lemma RebuiltSlot(s: State, k: nat, env: B.Env)
    requires Sized(s) && Held(s) && !s.view.violated && k < BUFFER_COUNT && !s.buffers[k].busy
    ensures var (ok, t) := Rebuilt(s, k, env);
            && |t.buffers| == BUFFER_COUNT && B.Valid(t.buffers[k]) && !t.buffers[k].busy
            && t == s.(current := k, buffers := s.buffers[k := t.buffers[k]])
            && (ok ==> Reusable(s, t.buffers[k]))
            && (ok <==> Reusable(s, s.buffers[k]) || B.Creatable(s.width, s.height, s.scale, env))
  {
    if Reusable(s, s.buffers[k]) {
      assert s.buffers[k := s.buffers[k]] == s.buffers;
    } else {
      RecreatedSlot(s.(current := k), k, env);
    }
  }

  lemma RebuiltKeeps(s: State, k: nat, env: B.Env)
    requires Core(s) && k < BUFFER_COUNT && !s.buffers[k].busy
    ensures var (ok, t) := Rebuilt(s, k, env);
            && Core(t) && !t.buffers[k].busy && (ok ==> Reusable(s, t.buffers[k]))
            && t == s.(current := k, buffers := t.buffers)
  {
    RebuiltSlot(s, k, env);
    FreeSlotReplaced(s, Rebuilt(s, k, env).1, k);
  }

  /** The commit breaks no rule, and has the acked size exactly when the physical size fits. */
  lemma PresentedIsLawful(s: State, k: nat, refused: bool)
    requires Shape(s) && Sized(s) && Held(s) && s.configured && k < BUFFER_COUNT
    requires !s.buffers[k].busy && Reusable(s, s.buffers[k])
    ensures var b := s.buffers[k];
            var t := Token(k, b.wl.value);
            var v := Presented(s.view, t, b, s.scale, refused);
            && v.violated == s.view.violated
            && v.mismatched == (s.view.mismatched || !Fits(s))
            && v.shown == Some(Frame(b.physWidth, b.physHeight, s.scale))
            && v.held == s.view.held + {t} && v.acked == s.view.acked && v.attached.None?
            && v.commits == s.view.commits + 1 && v.dones == s.view.dones
            && v.failures == s.view.failures + Bit(refused) && v.releases == s.view.releases
  {
    B.PhysIsExactIff(s.width, s.scale);
    B.PhysIsExactIff(s.height, s.scale);
  }

  /** Slot `k` becomes busy and the compositor takes hold of it. */
  lemma SlotTaken(s: State, t: State, k: nat)
    requires Sized(s) && Held(s) && k < BUFFER_COUNT && !s.buffers[k].busy && s.buffers[k].wl.Some?
    requires t.buffers == s.buffers[k := s.buffers[k].(busy := true)]
    requires t.view.held == s.view.held + {Token(k, s.buffers[k].wl.value)}
    ensures Sized(t) && Held(t) && Busy(t.buffers) == Busy(s.buffers) + 1
  {}

  lemma CallbackOwned(s: State, t: State, callback: Callback)
    requires Owned(s) && s.callback.None?
    requires t.output == s.output && t.engine == s.engine && t.wlSurface == s.wlSurface
             && t.lockSurface == s.lockSurface
    requires match callback
             case Granted => t.callback == Some(s.pool.next) && t.pool == Acquire(s.pool)
             case Refused => t.callback == None && t.pool == s.pool
             case Unheard => t.callback == None && t.pool == Release(Acquire(s.pool), s.pool.next)
    ensures Owned(t)
  {}

  lemma CommittedKeeps(s: State, k: nat, callback: Callback)
    requires Core(s) && s.configured && !s.framePending && k < BUFFER_COUNT
    requires !s.buffers[k].busy && Reusable(s, s.buffers[k])
    ensures var t := Committed(s, k, callback);
            Core(t) && (t.failed || (t.framePending && t.view.commits == s.view.commits + 1))
  {
    var t := Committed(s, k, callback);
    PresentedIsLawful(s, k, !callback.Granted?);
    SlotTaken(s, t, k);
    CallbackOwned(s, t, callback);
  }

  /** Rendering into the free slot `k`: one commit, or a failure. */
  lemma RenderedInto(s: State, k: nat, env: Env)
    requires Core(s) && s.configured && !s.framePending && k < BUFFER_COUNT && !s.buffers[k].busy
    ensures var t := Filled(s, k, env);
            Core(t) && (t.failed || (t.framePending && t.view.commits == s.view.commits + 1))
  {
    RebuiltKeeps(s, k, env.buffer);
    var (ok, t) := Rebuilt(s, k, env.buffer);
    if ok { CommittedKeeps(t, k, env.callback); }
  }

  /** The buffer in slot `k` fits, or can be made to. */
  predicate CanBuild(s: State, k: nat, env: Env)
    requires k < |s.buffers|
  {
    Reusable(s, s.buffers[k]) || B.Creatable(s.width, s.height, s.scale, env.buffer)
  }

  /** Rendering into slot `k` will succeed. */
  predicate CanFill(s: State, k: nat, env: Env)
    requires k < |s.buffers|
  {
    env.callback.Granted? && CanBuild(s, k, env)
  }

  lemma FramedFailsIff(s: State, callback: Callback)
    ensures Framed(s, callback).failed <==> !callback.Granted?
  {}

  lemma FilledFailsIff(s: State, k: nat, env: Env)
    requires Core(s) && k < BUFFER_COUNT && !s.buffers[k].busy
    ensures Filled(s, k, env).failed <==> !CanFill(s, k, env)
  {
    RebuiltSlot(s, k, env.buffer);
    var (ok, t) := Rebuilt(s, k, env.buffer);
    if ok { FramedFailsIff(Shipped(t, k, !env.callback.Granted?), env.callback); }
  }

  /** A render fails exactly if there is a free buffer and it neither fits nor can be created anew,
      or the callback is not granted. */
  lemma RenderFailsIff(s: State, env: Env)
    requires Core(s) && Shown(s) && !s.framePending
    ensures var free := FreeSlot(s.buffers, s.current);
            Rendered(s, env).failed <==>
              free.Some? && free.value < BUFFER_COUNT && !CanFill(s, free.value, env)
  {
    FreeSlotIsFree(s.buffers, s.current);
    var free := FreeSlot(s.buffers, s.current);
    if free.Some? { FilledFailsIff(s, free.value, env); }
  }

  lemma RenderedKeeps(s: State, env: Env)
    requires Core(s)
    ensures Core(Rendered(s, env))
    ensures !s.framePending ==> Lively(Rendered(s, env))
  {
    if Shown(s) && !s.framePending {
      FreeSlotIsFree(s.buffers, s.current);
      var free := FreeSlot(s.buffers, s.current);
      if free.Some? { RenderedInto(s, free.value, env); }
    }
  }

  lemma RequestedKeeps(s: State, env: Env)
    requires Core(s)
    ensures Inv(Requested(s, env))
  {
    RenderedKeeps(s.(dirty := true), env);
  }

  // ----- handlers ------------------------------------------------------------------------------------

  lemma ScaleKeeps(s: State, factor: int, env: Env)
    requires Inv(s)
    ensures Inv(OnScale(s, factor, env))
  {
    if factor > 0 && s.scale != factor { RequestedKeeps(s.(scale := factor), env); }
  }

  lemma ConfigureKeeps(s: State, size: Size, env: Env)
    requires Core(s) && s.lockSurface.Some?
    ensures Inv(OnConfigure(s, size, env))
  {
    var s1 := s.(width := size.width, height := size.height, configured := true,
                 view := Observe(s.view, Ack(size)));
    RequestedKeeps(s1, env);
  }

  /** The surface once its frame callback has fired, before it renders. */
  lemma CallbackFired(s: State) returns (t: State)
    requires Core(s) && s.callback.Some?
    ensures t == s.(callback := None, framePending := false, pool := ReleaseAny(s.pool, s.callback),
                    view := Observe(s.view, FrameDone))
    ensures Core(t)
  {
    t := s.(callback := None, framePending := false, pool := ReleaseAny(s.pool, s.callback),
            view := Observe(s.view, FrameDone));
    assert Owned(t);
  }

  lemma DoneKeeps(s: State, env: Env)
    requires Core(s) && s.callback.Some?
    ensures Inv(OnDone(s, env))
  {
    var s1 := CallbackFired(s);
    RenderedKeeps(s1, env);
  }

  lemma SlotReleased(s: State, t: State, k: nat)
    requires Sized(s) && Held(s) && k < BUFFER_COUNT && s.buffers[k].busy
    requires t.buffers == s.buffers[k := s.buffers[k].(busy := false)]
    requires t.view.held == s.view.held - {Token(k, s.buffers[k].wl.value)}
    ensures Sized(t) && Held(t) && Busy(t.buffers) == Busy(s.buffers) - 1
  {}

  lemma ReleaseKeeps(s: State, k: nat, env: Env)
    requires Inv(s) && k < BUFFER_COUNT && s.buffers[k].busy
    ensures s.buffers[k].wl.Some?
    ensures Inv(OnRelease(s, k, env))
  {
    assert B.Valid(s.buffers[k]);
    var b := s.buffers[k];
    var s1 := s.(buffers := s.buffers[k := b.(busy := false)],
                 view := Observe(s.view, ReleaseBuffer(Token(k, b.wl.value))));
    SlotReleased(s, s1, k);
    assert Core(s1);
    RenderedKeeps(s1, env);
  }

  lemma SurfaceAcquired(s: State)
    requires Owned(s) && s.wlSurface.None?
    ensures Owned(s.(wlSurface := Some(s.pool.next), pool := Acquire(s.pool)))
  {}

  lemma SurfaceReleased(s: State)
    requires Owned(s) && s.wlSurface.Some?
    ensures Owned(s.(wlSurface := None, pool := Release(s.pool, s.wlSurface.value)))
  {}

  lemma LockSurfaceAcquired(s: State)
    requires Owned(s) && s.lockSurface.None?
    ensures Owned(s.(lockSurface := Some(s.pool.next), pool := Acquire(s.pool)))
  {}

  lemma AttachOwns(s: State, env: AttachEnv)
    requires Owned(s) && (s.wlSurface.Some? <==> s.lockSurface.Some?)
    ensures Owned(OnAttach(s, env).1)
  {
    if s.lockSurface.None? && env.surfaced {
      var s1 := s.(wlSurface := Some(s.pool.next), pool := Acquire(s.pool));
      SurfaceAcquired(s);
      if env.locked { LockSurfaceAcquired(s1); } else { SurfaceReleased(s1); }
    }
  }

  /** Only the two surfaces and the pool have changed. */
  ghost predicate Reattached(s: State, t: State) {
    && t == s.(wlSurface := t.wlSurface, lockSurface := t.lockSurface, pool := t.pool)
    && (t.wlSurface.Some? <==> t.lockSurface.Some?)
    && (s.lockSurface.Some? ==> t.lockSurface.Some?)
  }

  lemma AttachReattaches(s: State, env: AttachEnv)
    requires s.wlSurface.Some? <==> s.lockSurface.Some?
    ensures var (ok, t) := OnAttach(s, env); Reattached(s, t) && (ok ==> t.lockSurface.Some?)
  {}

  lemma ReattachedKeeps(s: State, t: State)
    requires Inv(s) && Owned(t) && Reattached(s, t)
    ensures Inv(t)
  {}

  lemma AttachKeeps(s: State, env: AttachEnv)
    requires Inv(s)
    ensures Inv(OnAttach(s, env).1)
    ensures OnAttach(s, env).0 ==> OnAttach(s, env).1.lockSurface.Some?
  {
    AttachOwns(s, env);
    AttachReattaches(s, env);
    ReattachedKeeps(s, OnAttach(s, env).1);
  }

  lemma BlankIsValid()
    ensures B.Valid(B.Blank)
  {}

  /** Detaching leaves exactly the output and the engine. */
  lemma DetachedOwns(s: State)
    requires Owned(s) && |s.buffers| == BUFFER_COUNT
    ensures Owned(Detached(s))
    ensures Handles(Detached(s)) == HandleOf(s.output) + HandleOf(s.engine)
  {}

  lemma BuffersDestroyed(buffers: seq<B.State>)
    requires |buffers| == BUFFER_COUNT && forall k :: 0 <= k < BUFFER_COUNT ==> B.Valid(buffers[k])
    ensures forall k :: 0 <= k < BUFFER_COUNT ==>
              var d := B.Destroyed(buffers[k]);
              B.Valid(d) && d.pool.live == {} && !d.busy && B.Destroyed(d) == d
  {
    forall k | 0 <= k < BUFFER_COUNT
      ensures var d := B.Destroyed(buffers[k]);
              B.Valid(d) && d.pool.live == {} && !d.busy && B.Destroyed(d) == d
    {
      B.DestroyReleasesAll(buffers[k]);
    }
  }

  lemma DetachKeeps(s: State)
    requires Core(s)
    ensures Inv(Detached(s))
    ensures forall k :: 0 <= k < BUFFER_COUNT ==> Detached(s).buffers[k].pool.live == {}
  {
    BuffersDestroyed(s.buffers);
    DetachedOwns(s);
    var d := Detached(s);
    assert forall k :: 0 <= k < BUFFER_COUNT ==> d.buffers[k] == B.Destroyed(s.buffers[k]);
  }

  // ----- all runs ---------------------------------------------------------------------------------------

  datatype Event =
    | Configure(size: Size)
    | Done
    | Released(slot: nat)
    | Scale(factor: int)
    | Request
    | Attach(attach: AttachEnv)
    | Detach

  /** A compositor sends configure only for an existing lock surface, done only for an outstanding
      callback and release only for a buffer it holds. */
  predicate Legal(s: State, e: Event)
    requires |s.buffers| == BUFFER_COUNT
  {
    match e
    case Configure(_) => s.lockSurface.Some?
    case Done => s.callback.Some?
    case Released(k) => k < BUFFER_COUNT && s.buffers[k].busy && s.buffers[k].wl.Some?
    case _ => true
  }

  function Handled(s: State, e: Event, env: Env): State
    requires |s.buffers| == BUFFER_COUNT && Legal(s, e)
  {
    match e
    case Configure(size) => OnConfigure(s, size, env)
    case Done => OnDone(s, env)
    case Released(k) => OnRelease(s, k, env)
    case Scale(factor) => OnScale(s, factor, env)
    case Request => Requested(s, env)
    case Attach(attach) => OnAttach(s, attach).1
    case Detach => Detached(s)
  }

  lemma HandledKeeps(s: State, e: Event, env: Env)
    requires Inv(s) && Legal(s, e)
    ensures Inv(Handled(s, e, env))
  {
    match e
    case Configure(size) => ConfigureKeeps(s, size, env);
    case Done => DoneKeeps(s, env);
    case Released(k) => ReleaseKeeps(s, k, env);
    case Scale(factor) => ScaleKeeps(s, factor, env);
    case Request => RequestedKeeps(s, env);
    case Attach(attach) => AttachKeeps(s, attach);
    case Detach => DetachKeeps(s);
  }

  /** Rendering touches neither the output, nor the lock surface, nor the configured size, the scale
      and what was acked. */
  ghost predicate SameFrame(s: State, t: State) {
    && t.scale == s.scale && t.view.acked == s.view.acked
    && t.output == s.output && t.lockSurface == s.lockSurface && t.configured == s.configured
    && t.width == s.width && t.height == s.height
  }

  lemma RebuiltKeepsFrame(s: State, k: nat, env: B.Env)
    requires k < |s.buffers|
    ensures SameFrame(s, Rebuilt(s, k, env).1)
  {}

  lemma CommittedKeepsFrame(s: State, k: nat, callback: Callback)
    requires k < |s.buffers| && s.buffers[k].wl.Some?
    ensures SameFrame(s, Committed(s, k, callback))
  {
    assert SameFrame(s, Shipped(s, k, !callback.Granted?));
  }

  lemma RenderKeepsFrame(s: State, env: Env)
    requires |s.buffers| == BUFFER_COUNT
    ensures SameFrame(s, Rendered(s, env))
  {
    var free := FreeSlot(s.buffers, s.current);
    if Rendered(s, env) != s && free.Some? {
      var k := free.value;
      RebuiltHasBuffer(s, k, env.buffer);
      RebuiltKeepsFrame(s, k, env.buffer);
      var (ok, t) := Rebuilt(s, k, env.buffer);
      if ok { CommittedKeepsFrame(t, k, env.callback); }
    }
  }

  lemma HandledKeepsLockSurface(s: State, e: Event, env: Env)
    requires |s.buffers| == BUFFER_COUNT && Legal(s, e) && !e.Attach? && !e.Detach?
    ensures Handled(s, e, env).lockSurface == s.lockSurface && Handled(s, e, env).output == s.output
  {
    match e
    case Configure(size) =>
      RenderKeepsFrame(s.(width := size.width, height := size.height, configured := true,
                                view := Observe(s.view, Ack(size)), dirty := true), env);
    case Done =>
      RenderKeepsFrame(s.(callback := None, framePending := false, pool := ReleaseAny(s.pool, s.callback),
                                view := Observe(s.view, FrameDone)), env);
    case Released(k) =>
      var b := s.buffers[k];
      RenderKeepsFrame(s.(buffers := s.buffers[k := b.(busy := false)],
                                view := Observe(s.view, ReleaseBuffer(Token(k, b.wl.value)))), env);
    case Scale(factor) => RenderKeepsFrame(s.(scale := factor, dirty := true), env);
    case Request => RenderKeepsFrame(s.(dirty := true), env);
  }

  datatype Step = Step(event: Event, env: Env)

  /** The surface after a sequence of events, or None if one was not legal when it came. */
  function Run(s: State, steps: seq<Step>): (r: Option<State>)
    requires |s.buffers| == BUFFER_COUNT
  {
    if steps == [] then Some(s)
    else
      var before := Run(s, steps[..|steps| - 1]);
      var step := steps[|steps| - 1];
      if before.Some? && |before.value.buffers| == BUFFER_COUNT && Legal(before.value, step.event)
      then Some(Handled(before.value, step.event, step.env)) else None
  }

  lemma FreshIsValid()
    ensures Inv(Fresh)
  {
    BlankIsValid();
  }

  lemma {:induction false} RunKeeps(s: State, steps: seq<Step>)
    requires Inv(s)
    ensures Run(s, steps).Some? ==> Inv(Run(s, steps).value)
  {
    if steps != [] && Run(s, steps).Some? {
      var prefix, step := steps[..|steps| - 1], steps[|steps| - 1];
      RunKeeps(s, prefix);
      HandledKeeps(Run(s, prefix).value, step.event, step.env);
    }
  }

  ghost predicate Reachable(s: State) {
    exists steps :: Run(Fresh, steps) == Some(s)
  }

  lemma InvReachable(s: State)
    requires Reachable(s)
    ensures Inv(s)
  {
    var steps :| Run(Fresh, steps) == Some(s);
    FreshIsValid();
    RunKeeps(Fresh, steps);
  }

  // ----- theorems -----------------------------------------------------------------------------------------

  /** Every commit in every run comes after an ack, carries a buffer the compositor does not hold,
      and no held buffer is drawn to or destroyed except by detach; and every commit has had the
      acked size times its scale exactly if none was made while that product reached 2^31. */
  lemma CommitsObeyTheRules(s: State)
    requires Reachable(s)
    ensures !s.view.violated
    ensures s.view.mismatched <==> s.oversized
  {
    InvReachable(s);
  }

  /** Exact accounting, at every handler boundary, for each attachment. */
  lemma AccountsBalance(s: State)
    requires Reachable(s)
    ensures |s.buffers| == BUFFER_COUNT
    ensures s.view.commits == s.view.dones + s.view.failures + Bit(s.framePending)
    ensures s.view.commits == s.view.releases + Busy(s.buffers)
    ensures s.framePending <==> s.callback.Some?
  {
    InvReachable(s);
  }

  /** The animation never stalls: a configured surface of nonzero size whose last attempt to render
      did not fail has a frame callback outstanding, or has all buffers busy with `dirty` set. */
  lemma AnimationNeverStalls(s: State)
    requires Reachable(s) && Shown(s) && !s.failed
    ensures s.callback.Some? || (AllBusy(s) && s.dirty)
  {
    InvReachable(s);
  }

  /** Neither a frame callback nor a redrawing release can be expected. */
  predicate Stalled(s: State)
    requires |s.buffers| == BUFFER_COUNT
  {
    s.callback.None? && (!s.dirty || Busy(s.buffers) == 0)
  }

  /** Exactly when a shown surface has stalled: its last attempt to render failed, and no redraw is
      asked for or no buffer is left to be released. */
  lemma StalledIff(s: State)
    requires Reachable(s) && Shown(s)
    ensures |s.buffers| == BUFFER_COUNT
    ensures Stalled(s) <==> s.failed && (!s.dirty || Busy(s.buffers) == 0)
  {
    InvReachable(s);
  }

  /** A shown surface that has not stalled and has no callback outstanding is redrawn by the next
      release, unless that attempt fails. */
  lemma ReleaseRedraws(s: State, k: nat, env: Env)
    requires Reachable(s) && Shown(s) && s.callback.None? && |s.buffers| == BUFFER_COUNT && !Stalled(s)
    requires k < BUFFER_COUNT && s.buffers[k].busy
    ensures s.buffers[k].wl.Some?
    ensures var t := OnRelease(s, k, env);
            t.failed || (t.callback.Some? && t.view.commits == s.view.commits + 1)
  {
    InvReachable(s);
    assert B.Valid(s.buffers[k]);
    ReleaseRenders(s, k, env);
  }

  /** A stalled surface stays so, whatever frame-done and release events may still come: none of
      them commits anything. */
  lemma StalledStays(s: State, e: Event, env: Env)
    requires Core(s) && Stalled(s) && Legal(s, e) && (e.Done? || e.Released?)
    ensures Handled(s, e, env).view.commits == s.view.commits
    ensures |Handled(s, e, env).buffers| == BUFFER_COUNT && Stalled(Handled(s, e, env))
  {
    assert e.Released? && !s.dirty;
  }

  lemma {:induction false} StalledRun(s: State, steps: seq<Step>)
    requires Inv(s) && Stalled(s) && forall i :: 0 <= i < |steps| ==> steps[i].event.Done? || steps[i].event.Released?
    ensures Run(s, steps).Some? ==>
              var t := Run(s, steps).value;
              |t.buffers| == BUFFER_COUNT && Stalled(t) && t.view.commits == s.view.commits
  {
    if steps != [] && Run(s, steps).Some? {
      var prefix, step := steps[..|steps| - 1], steps[|steps| - 1];
      StalledRun(s, prefix);
      RunKeeps(s, prefix);
      StalledStays(Run(s, prefix).value, step.event, step.env);
    }
  }

  lemma ReleaseRenders(s: State, k: nat, env: Env)
    requires Core(s) && Shown(s) && !s.framePending && s.dirty && k < BUFFER_COUNT && s.buffers[k].busy
    requires s.buffers[k].wl.Some? && s.buffers[k].hooked
    ensures var t := OnRelease(s, k, env);
            t.failed || (t.callback.Some? && t.view.commits == s.view.commits + 1)
  {
    var b := s.buffers[k];
    var s1 := s.(buffers := s.buffers[k := b.(busy := false)],
                 view := Observe(s.view, ReleaseBuffer(Token(k, b.wl.value))));
    SlotReleased(s, s1, k);
    RenderCommits(s1, env);
  }

  /** A render with a free buffer commits, or fails. */
  lemma RenderCommits(s: State, env: Env)
    requires Core(s) && Shown(s) && !s.framePending && !AllBusy(s)
    ensures var t := Rendered(s, env);
            t.failed || (t.callback.Some? && t.view.commits == s.view.commits + 1)
  {
    FreeSlotIsFree(s.buffers, s.current);
    RenderedInto(s, FreeSlot(s.buffers, s.current).value, env);
  }

  /** Nothing leaks and nothing is released twice: after any run, destroying the surface releases
      every handle it or its buffers ever acquired, and destroying it again changes nothing. */
  lemma DestroyReleasesAll(s: State)
    requires Reachable(s)
    ensures |s.buffers| == BUFFER_COUNT
    ensures Spent(Destroyed(s)) && Destroyed(Destroyed(s)) == Destroyed(s)
  {
    InvReachable(s);
    DestroyedIsSpent(s);
    DestroyedTwice(s);
  }

  /** Nothing is live any more, and no handle was ever released twice. */
  ghost predicate Spent(s: State) {
    && |s.buffers| == BUFFER_COUNT
    && s.pool.live == {} && !s.pool.misused
    && forall k :: 0 <= k < BUFFER_COUNT ==> s.buffers[k].pool.live == {} && !s.buffers[k].pool.misused
  }

  lemma DestroyedIsSpent(s: State)
    requires Inv(s)
    ensures Spent(Destroyed(s))
  {
    DetachKeeps(s);
    DetachedOwns(s);
    assert forall k :: 0 <= k < BUFFER_COUNT ==> B.Valid(Detached(s).buffers[k]);
  }

  lemma DestroyedTwice(s: State)
    requires Core(s)
    ensures Destroyed(Destroyed(s)) == Destroyed(s)
  {
    B.DestroyReleasesAll(s.buffers[0]);
    B.DestroyReleasesAll(s.buffers[1]);
    B.DestroyReleasesAll(s.buffers[2]);
  }

  // ----- the conditions are needed ----------------------------------------------------------------------------

  const Works := Env(B.Env(true, 400, B.Opened, true, true, true, true, true, true), Granted)
  const Wide := Step(Configure(Size(B.TWO31 + 50, 1)), Works)

  lemma {:induction false} RunSnoc(s: State, steps: seq<Step>, step: Step) returns (t: State)
    requires Run(Fresh, steps) == Some(s) && |s.buffers| == BUFFER_COUNT && Legal(s, step.event)
    ensures t == Handled(s, step.event, step.env) && Run(Fresh, steps + [step]) == Some(t)
  {
    t := Handled(s, step.event, step.env);
    assert (steps + [step])[..|steps|] == steps;
  }

  /** A surface attached at scale 2. */
  lemma {:induction false} DoubledReachable() returns (s: State)
    ensures Run(Fresh, [Step(Scale(2), Works), Step(Attach(AttachEnv(true, true, true)), Works)]) == Some(s)
    ensures s == Fresh.(scale := 2, wlSurface := Some(2), lockSurface := Some(3),
                        pool := Pool({0, 1, 2, 3}, 4, false))
  {
    s := RunSnoc(Fresh, [], Step(Scale(2), Works));
    s := RunSnoc(s, [] + [Step(Scale(2), Works)], Step(Attach(AttachEnv(true, true, true)), Works));
    assert [] + [Step(Scale(2), Works)] + [Step(Attach(AttachEnv(true, true, true)), Works)]
           == [Step(Scale(2), Works), Step(Attach(AttachEnv(true, true, true)), Works)];
  }

  /** A configure whose width times scale exceeds 32 bits is committed with the wrong size. */
  lemma OversizedCommitMismatches()
    ensures exists s :: Reachable(s) && s.view.mismatched
  {
    var s := DoubledReachable();
    var t := RunSnoc(s, [Step(Scale(2), Works), Step(Attach(AttachEnv(true, true, true)), Works)], Wide);
    assert Reachable(t);
    WideCommits(s);
    CommitsObeyTheRules(t);
  }

  lemma WideCommits(s: State)
    requires s == Fresh.(scale := 2, wlSurface := Some(2), lockSurface := Some(3),
                         pool := Pool({0, 1, 2, 3}, 4, false))
    ensures OnConfigure(s, Size(B.TWO31 + 50, 1), Works).oversized
  {}

  // ----- when a fired callback stalls the surface ---------------------------------------------------------------

  lemma SlotStaysFree(s: State, t: State, k: nat)
    requires |s.buffers| == |t.buffers| == BUFFER_COUNT && k < BUFFER_COUNT
    requires t.buffers == s.buffers[k := t.buffers[k]] && t.buffers[k].busy == s.buffers[k].busy
    ensures Busy(t.buffers) == Busy(s.buffers)
  {}

  lemma FramedStallsIff(s: State, callback: Callback)
    requires |s.buffers| == BUFFER_COUNT && Busy(s.buffers) > 0
    ensures |Framed(s, callback).buffers| == BUFFER_COUNT
    ensures Stalled(Framed(s, callback)) <==> !callback.Granted? && !s.dirty
  {}

  lemma ShippedIsBusy(s: State, k: nat, refused: bool)
    requires |s.buffers| == BUFFER_COUNT && k < BUFFER_COUNT && s.buffers[k].wl.Some? && !s.buffers[k].busy
    ensures var t := Shipped(s, k, refused);
            |t.buffers| == BUFFER_COUNT && Busy(t.buffers) == Busy(s.buffers) + 1 && t.dirty == s.dirty
  {}

  /** The whole of a failing render: a refused callback leaves the buffer with the compositor. */
  predicate Strands(s: State, k: nat, env: Env)
    requires |s.buffers| == BUFFER_COUNT && k < BUFFER_COUNT
  {
    !CanFill(s, k, env) && (!s.dirty || (Busy(s.buffers) == 0 && !CanBuild(s, k, env)))
  }

  ghost predicate Fillable(s: State, k: nat) {
    Sized(s) && Held(s) && !s.view.violated && s.callback.None? && k < BUFFER_COUNT && !s.buffers[k].busy
  }

  lemma BuiltStallsIff(s: State, k: nat, env: Env)
    requires Fillable(s, k) && CanBuild(s, k, env)
    ensures var t := Filled(s, k, env);
            |t.buffers| == BUFFER_COUNT && (Stalled(t) <==> !env.callback.Granted? && !s.dirty)
  {
    RebuiltSlot(s, k, env.buffer);
    var t := Rebuilt(s, k, env.buffer).1;
    ShippedIsBusy(t, k, !env.callback.Granted?);
    FramedStallsIff(Shipped(t, k, !env.callback.Granted?), env.callback);
  }

  lemma UnbuiltStallsIff(s: State, k: nat, env: Env)
    requires Fillable(s, k) && !CanBuild(s, k, env)
    ensures var t := Filled(s, k, env);
            |t.buffers| == BUFFER_COUNT && (Stalled(t) <==> !s.dirty || Busy(s.buffers) == 0)
  {
    RebuiltSlot(s, k, env.buffer);
    SlotStaysFree(s, Rebuilt(s, k, env.buffer).1, k);
  }

  lemma FilledStallsIff(s: State, k: nat, env: Env)
    requires Fillable(s, k)
    ensures |Filled(s, k, env).buffers| == BUFFER_COUNT
    ensures Stalled(Filled(s, k, env)) <==> Strands(s, k, env)
  {
    if CanBuild(s, k, env) { BuiltStallsIff(s, k, env); } else { UnbuiltStallsIff(s, k, env); }
  }

  /** The next render of a shown surface without a callback finds a free buffer and strands. */
  predicate WillStrand(s: State, env: Env)
    requires |s.buffers| == BUFFER_COUNT
  {
    var free := FreeSlot(s.buffers, s.current);
    free.Some? && free.value < BUFFER_COUNT && Strands(s, free.value, env)
  }

  /** A render stalls a shown surface exactly if there is a free buffer, it cannot be made to fit or
      the callback is not granted, and either no redraw was asked for, or no buffer is with the
      compositor and none could be made. */
  lemma RenderStallsIff(s: State, env: Env)
    requires Core(s) && Shown(s) && s.callback.None?
    ensures |Rendered(s, env).buffers| == BUFFER_COUNT
    ensures Stalled(Rendered(s, env)) <==> WillStrand(s, env)
  {
    FreeSlotIsFree(s.buffers, s.current);
    var free := FreeSlot(s.buffers, s.current);
    if free.Some? { FilledStallsIff(s, free.value, env); }
  }

  /** So does a frame-done, whether or not a redraw was asked for meanwhile. */
  lemma DoneStallsIff(s: State, env: Env)
    requires Inv(s) && Shown(s) && s.callback.Some?
    ensures |OnDone(s, env).buffers| == BUFFER_COUNT
    ensures Stalled(OnDone(s, env)) <==> WillStrand(s, env)
  {
    var s1 := CallbackFired(s);
    RenderStallsIff(s1, env);
    FreeSlotIsFree(s.buffers, s.current);
  }

  /** No buffer is with the compositor and the next one cannot be made to fit. */
  predicate Empty(s: State, env: Env)
    requires |s.buffers| == BUFFER_COUNT
  {
    Busy(s.buffers) == 0 && !CanBuild(s, Slot(s.current, 0), env)
  }

  /** With a redraw asked for, a render stalls only if no buffer is busy and none can be made. */
  lemma DirtyStrandsIff(s: State, env: Env)
    requires |s.buffers| == BUFFER_COUNT && s.dirty
    ensures WillStrand(s, env) <==> Empty(s, env)
  {
    FreeSlotIsFree(s.buffers, s.current);
  }

  lemma RequestStallsIff(s: State, env: Env)
    requires Core(s) && Shown(s)
    ensures |Requested(s, env).buffers| == BUFFER_COUNT
    ensures Stalled(Requested(s, env)) <==> s.callback.None? && Empty(s, env)
  {
    if s.callback.None? {
      RenderStallsIff(s.(dirty := true), env);
      DirtyStrandsIff(s.(dirty := true), env);
    }
  }

  /** A configure to a nonzero size, told what the size will be. */
  lemma ConfigureStallsIff(s: State, size: Size, env: Env)
    requires Core(s) && s.lockSurface.Some? && size.width > 0 && size.height > 0
    ensures |OnConfigure(s, size, env).buffers| == BUFFER_COUNT
    ensures Stalled(OnConfigure(s, size, env))
            <==> s.callback.None? && Empty(s.(width := size.width, height := size.height), env)
  {
    RequestStallsIff(s.(width := size.width, height := size.height, configured := true,
                        view := Observe(s.view, Ack(size))), env);
  }

  lemma ScaleStallsIff(s: State, factor: int, env: Env)
    requires Core(s) && Shown(s) && factor > 0 && factor != s.scale
    ensures |OnScale(s, factor, env).buffers| == BUFFER_COUNT
    ensures Stalled(OnScale(s, factor, env)) <==> s.callback.None? && Empty(s.(scale := factor), env)
  {
    RequestStallsIff(s.(scale := factor), env);
  }

  /** A release stalls a surface that had not stalled exactly if it gives back the last buffer and
      the next one cannot be made to fit. */
  lemma ReleaseStallsIff(s: State, k: nat, env: Env)
    requires Inv(s) && Shown(s) && !Stalled(s) && k < BUFFER_COUNT && s.buffers[k].busy
    ensures s.buffers[k].wl.Some? && |OnRelease(s, k, env).buffers| == BUFFER_COUNT
    ensures Stalled(OnRelease(s, k, env))
            <==> s.callback.None? && Busy(s.buffers) == 1 && !CanBuild(s, Slot(s.current, 0), env)
  {
    assert B.Valid(s.buffers[k]);
    var b := s.buffers[k];
    var s1 := s.(buffers := s.buffers[k := b.(busy := false)],
                 view := Observe(s.view, ReleaseBuffer(Token(k, b.wl.value))));
    SlotReleased(s, s1, k);
    if s.callback.None? {
      RenderStallsIff(s1, env);
      DirtyStrandsIff(s1, env);
    }
  }

  // ----- stalls that happen ----------------------------------------------------------------------------------------

  const Square := Size(10, 10)

  lemma {:induction false} ReachStep(s: State, e: Event, env: Env)
    requires Reachable(s) && |s.buffers| == BUFFER_COUNT && Legal(s, e)
    ensures Reachable(Handled(s, e, env))
  {
    var steps :| Run(Fresh, steps) == Some(s);
    var t := RunSnoc(s, steps, Step(e, env));
  }

  /** An attached surface, and the same told to be square and about to render. */
  lemma SquareReady() returns (s: State, t: State)
    ensures Reachable(s) && |s.buffers| == BUFFER_COUNT && s.lockSurface.Some?
    ensures Bare(t) && t.width == t.height == 10 && t.scale == 2
    ensures forall env :: OnConfigure(s, Square, env) == Rendered(t, env)
  {
    s := DoubledReachable();
    assert Reachable(s);
    InvReachable(s);
    t := s.(width := 10, height := 10, configured := true, view := Observe(s.view, Ack(Square)), dirty := true);
  }

  /** About to render for the first time. */
  ghost predicate Bare(s: State) {
    Core(s) && Shown(s) && s.callback.None? && s.dirty
    && forall k :: 0 <= k < BUFFER_COUNT ==> s.buffers[k].wl.None? && !s.buffers[k].busy
  }

  lemma UnmappedRender(s: State, env: Env)
    requires Bare(s) && !env.buffer.mapped
    ensures var t := Rendered(s, env); Shown(t) && |t.buffers| == BUFFER_COUNT && Stalled(t)
  {
    RenderKeepsFrame(s, env);
    FreeSlotIsFree(s.buffers, s.current);
    FilledStallsIff(s, FreeSlot(s.buffers, s.current).value, env);
  }

  lemma FilledTakesOne(s: State, k: nat, env: Env)
    requires Sized(s) && Held(s) && !s.view.violated && k < BUFFER_COUNT && !s.buffers[k].busy
    requires CanFill(s, k, env)
    ensures var t := Filled(s, k, env);
            |t.buffers| == BUFFER_COUNT && t.callback.Some? && !t.dirty && Busy(t.buffers) == Busy(s.buffers) + 1
  {
    RebuiltSlot(s, k, env.buffer);
    var t := Rebuilt(s, k, env.buffer).1;
    SlotStaysFree(s, t, k);
    ShippedIsBusy(t, k, false);
    assert Filled(s, k, env) == Framed(Shipped(t, k, false), env.callback);
  }

  /** A first frame. */
  lemma FirstRender(s: State, env: Env)
    requires Bare(s) && env.callback.Granted? && B.Creatable(s.width, s.height, s.scale, env.buffer)
    ensures var t := Rendered(s, env);
            |t.buffers| == BUFFER_COUNT && t.callback.Some? && !t.dirty && Busy(t.buffers) == 1 && Inv(t) && Shown(t)
  {
    FreeSlotIsFree(s.buffers, s.current);
    FilledTakesOne(s, FreeSlot(s.buffers, s.current).value, env);
    RenderKeepsFrame(s, env);
    RenderedKeeps(s, env);
  }

  /** A frame-done after which the callback is not granted. */
  lemma RefusedRender(t: State, refusal: Env)
    requires Inv(t) && Shown(t) && t.callback.Some? && !t.dirty && Busy(t.buffers) == 1 && !refusal.callback.Granted?
    ensures var u := OnDone(t, refusal); Shown(u) && |u.buffers| == BUFFER_COUNT && Stalled(u)
  {
    var fired := CallbackFired(t);
    RenderKeepsFrame(fired, refusal);
    FreeSlotIsFree(t.buffers, t.current);
    DoneStallsIff(t, refusal);
  }

  ghost predicate StallHappens(s: State) {
    Reachable(s) && Shown(s) && |s.buffers| == BUFFER_COUNT && Stalled(s)
  }

  /** A first configure whose buffer cannot be mapped: nothing is ever shown. */
  lemma UnmappedBufferStalls()
    ensures exists s, env :: Reachable(s) && |s.buffers| == BUFFER_COUNT && StallHappens(OnConfigure(s, Square, env))
  {
    var env := Works.(buffer := Works.buffer.(mapped := false));
    var s, s1 := SquareReady();
    UnmappedRender(s1, env);
    ReachStep(s, Configure(Square), env);
    assert StallHappens(OnConfigure(s, Square, env));
  }

  /** A frame-done after which the next callback is not granted. */
  lemma RefusedCallbackStalls()
    ensures exists s, env :: Reachable(s) && |s.buffers| == BUFFER_COUNT && StallHappens(OnDone(s, env))
  {
    var refusal := Works.(callback := Refused);
    var s, s1 := SquareReady();
    FirstRender(s1, Works);
    RefusedRender(Rendered(s1, Works), refusal);
    ReachStep(s, Configure(Square), Works);
    var t := OnConfigure(s, Square, Works);
    ReachStep(t, Done, refusal);
    assert StallHappens(OnDone(t, refusal));
  }
}
