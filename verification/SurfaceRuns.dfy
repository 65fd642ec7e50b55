/** What a surface shows, and how it follows the events it gets, in every run. */
module SurfaceRuns {
  import opened Common
  import opened Ledger
  import opened Surface
  import opened SurfaceTheorems
  import B = Buffer

  // ----- a surface that is not dirty shows what it should -------------------------------------------

  /** The frame for the current size and scale. */
  function Wanted(s: State): Frame
    requires s.scale > 0
  {
    Frame(B.Phys(s.width, s.scale), B.Phys(s.height, s.scale), s.scale)
  }

  /** A surface for which no redraw is asked is configured and shows a frame of its current size and
      scale. */
  ghost predicate Current(s: State) {
    && s.scale > 0 && (!s.dirty ==> s.configured && s.view.shown == Some(Wanted(s)))
  }

  lemma CommittedIsCurrent(s: State, k: nat, callback: Callback)
    requires Core(s) && s.configured && k < BUFFER_COUNT && !s.buffers[k].busy && Reusable(s, s.buffers[k])
    ensures Current(Committed(s, k, callback))
  {
    PresentedIsLawful(s, k, !callback.Granted?);
    CommittedKeepsFrame(s, k, callback);
    assert B.Valid(s.buffers[k]);
    FramedKeepsShown(Shipped(s, k, !callback.Granted?), callback);
  }

  lemma FramedKeepsShown(s: State, callback: Callback)
    ensures Framed(s, callback).view == s.view
  {}

  lemma FilledIsCurrent(s: State, k: nat, env: Env)
    requires Core(s) && s.configured && Current(s) && k < BUFFER_COUNT && !s.buffers[k].busy
    ensures Current(Filled(s, k, env))
  {
    RebuiltKeeps(s, k, env.buffer);
    var (ok, t) := Rebuilt(s, k, env.buffer);
    if ok { CommittedIsCurrent(t, k, env.callback); }
  }

  lemma RenderedIsCurrent(s: State, env: Env)
    requires Core(s) && Current(s)
    ensures Current(Rendered(s, env))
  {
    if Shown(s) && !s.framePending {
      FreeSlotIsFree(s.buffers, s.current);
      var free := FreeSlot(s.buffers, s.current);
      if free.Some? { FilledIsCurrent(s, free.value, env); }
    }
  }

  lemma RequestedIsCurrent(s: State, env: Env)
    requires Core(s)
    ensures Current(Requested(s, env))
  {
    RenderedIsCurrent(s.(dirty := true), env);
  }

  lemma DoneIsCurrent(s: State, env: Env)
    requires Core(s) && Current(s) && s.callback.Some?
    ensures Current(OnDone(s, env))
  {
    var s1 := CallbackFired(s);
    RenderedIsCurrent(s1, env);
  }

  lemma ReleaseIsCurrent(s: State, k: nat, env: Env)
    requires Inv(s) && Current(s) && k < BUFFER_COUNT && s.buffers[k].busy && s.buffers[k].wl.Some?
    ensures Current(OnRelease(s, k, env))
  {
    var b := s.buffers[k];
    var s1 := s.(buffers := s.buffers[k := b.(busy := false)],
                 view := Observe(s.view, ReleaseBuffer(Token(k, b.wl.value))));
    SlotReleased(s, s1, k);
    RenderedIsCurrent(s1, env);
  }

  lemma ConfigureIsCurrent(s: State, size: Size, env: Env)
    requires Core(s) && s.lockSurface.Some?
    ensures Current(OnConfigure(s, size, env))
  {
    RequestedIsCurrent(s.(width := size.width, height := size.height, configured := true,
                          view := Observe(s.view, Ack(size))), env);
  }

  lemma ScaleIsCurrent(s: State, factor: int, env: Env)
    requires Core(s) && Current(s)
    ensures Current(OnScale(s, factor, env))
  {
    if factor > 0 && factor != s.scale { RequestedIsCurrent(s.(scale := factor), env); }
  }

  lemma HandledIsCurrent(s: State, e: Event, env: Env)
    requires Inv(s) && Current(s) && Legal(s, e)
    ensures Current(Handled(s, e, env))
  {
    match e
    case Configure(size) => ConfigureIsCurrent(s, size, env);
    case Done => DoneIsCurrent(s, env);
    case Released(k) => ReleaseIsCurrent(s, k, env);
    case Scale(factor) => ScaleIsCurrent(s, factor, env);
    case Request => RequestedIsCurrent(s, env);
    case Attach(attach) => AttachReattaches(s, attach);
    case Detach =>
  }

  lemma {:induction false} RunIsCurrent(steps: seq<Step>)
    ensures Run(Fresh, steps).Some? ==> Current(Run(Fresh, steps).value)
  {
    if steps != [] && Run(Fresh, steps).Some? {
      var prefix, step := steps[..|steps| - 1], steps[|steps| - 1];
      RunIsCurrent(prefix);
      FreshIsValid();
      RunKeeps(Fresh, prefix);
      HandledIsCurrent(Run(Fresh, prefix).value, step.event, step.env);
    }
  }

  /** In every run, a surface that is not dirty is configured and shows a frame of the current size
      and scale: no resize and no rescale is ever forgotten. */
  lemma {:induction false} CleanShowsCurrent(s: State)
    requires Reachable(s) && !s.dirty
    ensures s.configured && s.scale > 0 && s.view.shown == Some(Wanted(s))
  {
    var steps :| Run(Fresh, steps) == Some(s);
    RunIsCurrent(steps);
  }

  // ----- size and scale follow the events -----------------------------------------------------------

  function NextSize(size: Option<Size>, e: Event): Option<Size> {
    match e
    case Configure(latest) => Some(latest)
    case Detach => None
    case _ => size
  }

  function NextScale(scale: int, e: Event): int {
    if e.Scale? && e.factor > 0 then e.factor else scale
  }

  /** The size of the last configure since the surface was last detached. */
  function LastSize(steps: seq<Step>): Option<Size> {
    if steps == [] then None else NextSize(LastSize(steps[..|steps| - 1]), steps[|steps| - 1].event)
  }

  /** The last positive scale factor received. */
  function LastScale(steps: seq<Step>): int {
    if steps == [] then 1 else NextScale(LastScale(steps[..|steps| - 1]), steps[|steps| - 1].event)
  }

  ghost predicate Follows(s: State, size: Option<Size>, scale: int) {
    && s.view.acked == size && (s.configured <==> size.Some?) && s.scale == scale
    && Size(s.width, s.height) == if size.Some? then size.value else Size(0, 0)
  }

  /** A configure is acked and applied at once, whatever else the surface is doing. */
  lemma ConfigureApplies(s: State, size: Size, env: Env)
    requires |s.buffers| == BUFFER_COUNT
    ensures Follows(OnConfigure(s, size, env), Some(size), s.scale)
  {
    RenderKeepsFrame(s.(width := size.width, height := size.height, configured := true,
                        view := Observe(s.view, Ack(size)), dirty := true), env);
  }

  lemma ScaleApplies(s: State, factor: int, env: Env)
    requires |s.buffers| == BUFFER_COUNT
    ensures var t := OnScale(s, factor, env);
            && t.scale == (if factor > 0 then factor else s.scale)
            && SameFrame(s.(scale := t.scale), t)
  {
    RenderKeepsFrame(s.(scale := factor, dirty := true), env);
  }

  lemma OtherKeepsFrame(s: State, e: Event, env: Env)
    requires |s.buffers| == BUFFER_COUNT && Legal(s, e) && (e.Done? || e.Released? || e.Request?)
    ensures SameFrame(s, Handled(s, e, env))
  {
    match e
    case Done =>
      RenderKeepsFrame(s.(callback := None, framePending := false, pool := ReleaseAny(s.pool, s.callback),
                          view := Observe(s.view, FrameDone)), env);
    case Released(k) =>
      var b := s.buffers[k];
      RenderKeepsFrame(s.(buffers := s.buffers[k := b.(busy := false)],
                          view := Observe(s.view, ReleaseBuffer(Token(k, b.wl.value)))), env);
    case Request => RenderKeepsFrame(s.(dirty := true), env);
  }

  lemma HandledFollows(s: State, e: Event, env: Env, size: Option<Size>, scale: int)
    requires |s.buffers| == BUFFER_COUNT && Legal(s, e) && Follows(s, size, scale)
    ensures Follows(Handled(s, e, env), NextSize(size, e), NextScale(scale, e))
  {
    match e
    case Configure(latest) => ConfigureApplies(s, latest, env);
    case Scale(factor) => ScaleApplies(s, factor, env);
    case Attach(attach) => AttachKeepsSize(s, attach);
    case Detach => DetachForgetsSize(s);
    case _ => OtherKeepsFrame(s, e, env);
  }

  lemma AttachKeepsSize(s: State, env: AttachEnv)
    ensures var t := OnAttach(s, env).1;
            && t.view == s.view && t.configured == s.configured && t.scale == s.scale
            && t.width == s.width && t.height == s.height
  {}

  lemma DetachForgetsSize(s: State)
    requires |s.buffers| == BUFFER_COUNT
    ensures Follows(Detached(s), None, s.scale)
  {}

  /** In every run the acked size is that of the last configure since the attachment, it is the
      surface's own, and the scale is the last positive factor received. */
  lemma {:induction false} SizeFollowsEvents(steps: seq<Step>)
    requires Run(Fresh, steps).Some?
    ensures Follows(Run(Fresh, steps).value, LastSize(steps), LastScale(steps))
  {
    if steps != [] {
      var prefix, step := steps[..|steps| - 1], steps[|steps| - 1];
      SizeFollowsEvents(prefix);
      HandledFollows(Run(Fresh, prefix).value, step.event, step.env, LastSize(prefix), LastScale(prefix));
    }
  }

  // ----- attachment ---------------------------------------------------------------------------------

  /** Attaching answers well exactly if there was a lock surface already or all three requests are
      granted; then there is a lock surface, and one that was there stays. */
  lemma AttachAnswersIff(s: State, env: AttachEnv)
    ensures var (ok, t) := OnAttach(s, env);
            && (ok <==> s.lockSurface.Some? || (env.surfaced && env.locked && env.listened))
            && (t.lockSurface.Some? <==> s.lockSurface.Some? || (env.surfaced && env.locked))
            && (s.lockSurface.Some? ==> t == s)
  {}
}
