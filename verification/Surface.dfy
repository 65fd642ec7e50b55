/**
  `struct kl_surface` against a compositor: what every handler does to the surface, and what the
  compositor sees of it.  This module is the specification; `SurfaceObject` refines it in place.
 */
module Surface {
  import opened Common
  import opened Ledger
  import B = Buffer

  const BUFFER_COUNT := 3

  /** A wl_buffer as the compositor knows it: the slot it lives in and its handle. */
  datatype Token = Token(slot: nat, handle: nat)

  datatype Attached = Attached(token: Token, width: int, height: int)

  datatype Size = Size(width: nat, height: nat)

  /** What a commit puts on the screen: the size of its buffer and the buffer scale. */
  datatype Frame = Frame(width: int, height: int, scale: int)

  /**
    The compositor's record of one attachment: the size last acked, the pending scale and buffer,
    the frame last committed, the buffers it holds, and how many of each event it has seen.  `violated` and `mismatched`
    are sticky: a rule of ext_session_lock_surface_v1 or wl_buffer was broken; a commit did not
    have the acked size.
   */
  datatype View = View(
    acked: Option<Size>, scale: int, attached: Option<Attached>, shown: Option<Frame>, held: set<Token>,
    commits: nat, dones: nat, releases: nat, failures: nat, violated: bool, mismatched: bool)

  const NoView := View(None, 1, None, None, {}, 0, 0, 0, 0, false, false)

  datatype Message =
    | Ack(size: Size)
    | SetScale(n: int)
    | AttachBuffer(a: Attached)
    | Commit
    | Draw(token: Token)
    | DestroyBuffer(token: Token)
    | FrameDone
    | FrameRefused
    | ReleaseBuffer(token: Token)
    | Leave

  /** A commit must come after an ack and carry a buffer the compositor does not hold. */
  predicate Improper(v: View) {
    v.acked.None? || v.attached.None? || v.attached.value.token in v.held
  }

  /** ... and its buffer must be the acked size times the buffer scale. */
  predicate Matching(v: View) {
    && v.acked.Some? && v.attached.Some?
    && v.attached.value.width == v.acked.value.width * v.scale
    && v.attached.value.height == v.acked.value.height * v.scale
  }

  /** The compositor's bookkeeping and its rules; a held buffer must be neither drawn to nor
      destroyed, except while the surface is being detached (`Leave`). */
  function Observe(v: View, m: Message): View {
    match m
    case Ack(size) => v.(acked := Some(size))
    case SetScale(n) => v.(scale := n)
    case AttachBuffer(a) => v.(attached := Some(a))
    case Commit =>
      v.(violated := v.violated || Improper(v), mismatched := v.mismatched || !Matching(v),
         held := if v.attached.Some? then v.held + {v.attached.value.token} else v.held,
         shown := if v.attached.Some? then Some(Frame(v.attached.value.width, v.attached.value.height, v.scale))
                  else v.shown,
         attached := None, commits := v.commits + 1)
    case Draw(t) => v.(violated := v.violated || t in v.held)
    case DestroyBuffer(t) => v.(violated := v.violated || t in v.held)
    case FrameDone => v.(dones := v.dones + 1)
    case FrameRefused => v.(failures := v.failures + 1)
    case ReleaseBuffer(t) => v.(held := v.held - {t}, releases := v.releases + 1)
    case Leave => NoView.(violated := v.violated, mismatched := v.mismatched)
  }

  /** History: `failed` that the last attempt to render failed, `oversized` that a commit was made
      while the physical size did not fit in 31 bits. */
  datatype State = State(
    output: Option<nat>, engine: Option<nat>, wlSurface: Option<nat>, lockSurface: Option<nat>,
    callback: Option<nat>, buffers: seq<B.State>, current: nat,
    width: nat, height: nat, scale: int, configured: bool, framePending: bool, dirty: bool,
    pool: Pool, view: View, failed: bool, oversized: bool)

  datatype Callback = Granted | Refused | Unheard

  /** What the environment answers while a frame is rendered. */
  datatype Env = Env(buffer: B.Env, callback: Callback)

  // ----- rendering -------------------------------------------------------------------------------

  /** kl_surface_get_free_buffer: the first free slot, starting after the current one. */
  function Slot(current: nat, i: nat): nat {
    (current + 1 + i) % BUFFER_COUNT
  }

  function FreeSlot(buffers: seq<B.State>, current: nat): Option<nat>
    requires |buffers| == BUFFER_COUNT
  {
    if !buffers[Slot(current, 0)].busy then Some(Slot(current, 0))
    else if !buffers[Slot(current, 1)].busy then Some(Slot(current, 1))
    else if !buffers[Slot(current, 2)].busy then Some(Slot(current, 2))
    else None
  }

  /** A free slot is found exactly when there is one. */
  lemma FreeSlotIsFree(buffers: seq<B.State>, current: nat)
    requires |buffers| == BUFFER_COUNT
    ensures FreeSlot(buffers, current).Some? ==>
              FreeSlot(buffers, current).value < BUFFER_COUNT && !buffers[FreeSlot(buffers, current).value].busy
    ensures FreeSlot(buffers, current).None? <==> forall k :: 0 <= k < BUFFER_COUNT ==> buffers[k].busy
  {
    if FreeSlot(buffers, current).None? {
      assert {Slot(current, 0), Slot(current, 1), Slot(current, 2)} == {0, 1, 2};
    }
  }

  /** ... and it is the first free one in round-robin order. */
  lemma FreeSlotIsNext(buffers: seq<B.State>, current: nat) returns (i: nat)
    requires |buffers| == BUFFER_COUNT && FreeSlot(buffers, current).Some?
    ensures i < BUFFER_COUNT && FreeSlot(buffers, current) == Some(Slot(current, i))
    ensures forall j :: 0 <= j < i ==> buffers[Slot(current, j)].busy
  {
    i := if !buffers[Slot(current, 0)].busy then 0 else if !buffers[Slot(current, 1)].busy then 1 else 2;
  }

  predicate Reusable(s: State, b: B.State) {
    b.width == s.width && b.height == s.height && b.scale == s.scale && b.wl.Some?
  }

  /** Destroy the buffer in slot `k` and create it anew. */
  function Recreated(s: State, k: nat, env: B.Env): (r: (bool, State))
    requires k < |s.buffers|
  {
    var b := s.buffers[k];
    var (ok, c) := B.Created(B.Destroyed(b), s.width, s.height, s.scale, env);
    (ok, s.(buffers := s.buffers[k := c],
            view := if b.wl.Some? then Observe(s.view, DestroyBuffer(Token(k, b.wl.value))) else s.view))
  }

  /** Choose slot `k`, and make its buffer anew if it is of the wrong size. */
  function Rebuilt(s: State, k: nat, env: B.Env): (r: (bool, State))
    requires k < |s.buffers|
  {
    if Reusable(s, s.buffers[k]) then (true, s.(current := k))
    else Recreated(s.(current := k), k, env)
  }

  /** Draw, attach and commit the buffer in slot `k`. */
  function Presented(v: View, t: Token, b: B.State, scale: int, refused: bool): View {
    var v1 := Observe(v, Draw(t));
    var v2 := Observe(v1, SetScale(scale));
    var v3 := Observe(v2, AttachBuffer(Attached(t, b.physWidth, b.physHeight)));
    var v4 := if refused then Observe(v3, FrameRefused) else v3;
    Observe(v4, Commit)
  }

  predicate Fits(s: State) {
    s.width * s.scale < B.TWO31 && s.height * s.scale < B.TWO31
  }

  function Shipped(s: State, k: nat, refused: bool): State
    requires k < |s.buffers| && s.buffers[k].wl.Some?
  {
    var b := s.buffers[k];
    s.(buffers := s.buffers[k := b.(busy := true)],
       view := Presented(s.view, Token(k, b.wl.value), b, s.scale, refused),
       oversized := s.oversized || !Fits(s))
  }

  /** What the answer to wl_surface.frame does to the surface. */
  function Framed(s: State, callback: Callback): State {
    match callback
    case Granted =>
      s.(callback := Some(s.pool.next), pool := Acquire(s.pool), framePending := true, dirty := false,
         failed := false)
    case Refused => s.(callback := None, framePending := false, failed := true)
    case Unheard =>
      s.(callback := None, pool := Release(Acquire(s.pool), s.pool.next), framePending := false, failed := true)
  }

  function Committed(s: State, k: nat, callback: Callback): State
    requires k < |s.buffers| && s.buffers[k].wl.Some?
  {
    Framed(Shipped(s, k, !callback.Granted?), callback)
  }

  /** Creation succeeds only with a wl_buffer, so that what is committed has one. */
  lemma RebuiltHasBuffer(s: State, k: nat, env: B.Env)
    requires k < |s.buffers|
    ensures var (ok, t) := Rebuilt(s, k, env);
            |t.buffers| == |s.buffers| && (ok ==> t.buffers[k].wl.Some?)
  {}

  /** kl_surface_render_frame once a free slot is found */
  function Filled(s: State, k: nat, env: Env): State
    requires k < |s.buffers|
  {
    RebuiltHasBuffer(s, k, env.buffer);
    var (ok, t) := Rebuilt(s, k, env.buffer);
    if ok then Committed(t, k, env.callback) else t.(failed := true)
  }

  /** Choosing a slot sets the current one, whatever it was. */
  lemma FilledIgnoresCurrent(s: State, k: nat, env: Env)
    requires k < |s.buffers|
    ensures Filled(s.(current := k), k, env) == Filled(s, k, env)
  {
    assert Rebuilt(s.(current := k), k, env.buffer) == Rebuilt(s, k, env.buffer);
  }

  /** kl_surface_render_frame */
  function Rendered(s: State, env: Env): State
    requires |s.buffers| == BUFFER_COUNT
  {
    if !s.configured || s.framePending then s
    else if s.wlSurface.None? || s.width == 0 || s.height == 0 then s
    else
      match FreeSlot(s.buffers, s.current)
      case None => s.(dirty := true, failed := false)
      case Some(k) => Filled(s, k, env)
  }

  /** kl_surface_request_render */
  function Requested(s: State, env: Env): State
    requires |s.buffers| == BUFFER_COUNT
  {
    var s1 := s.(dirty := true);
    if !s.framePending && s.configured then Rendered(s1, env) else s1
  }

  // ----- handlers -----------------------------------------------------------------------------------

  /** kl_output_handle_scale */
  function OnScale(s: State, factor: int, env: Env): State
    requires |s.buffers| == BUFFER_COUNT
  {
    if factor > 0 && s.scale != factor then Requested(s.(scale := factor), env) else s
  }

  /** kl_surface_frame_handle_done */
  function OnDone(s: State, env: Env): State
    requires |s.buffers| == BUFFER_COUNT
  {
    Rendered(s.(callback := None, framePending := false, pool := ReleaseAny(s.pool, s.callback),
                view := Observe(s.view, FrameDone)), env)
  }

  /** kl_buffer_handle_release, with kl_surface_on_buffer_release as its hook */
  function OnRelease(s: State, k: nat, env: Env): State
    requires |s.buffers| == BUFFER_COUNT && k < BUFFER_COUNT && s.buffers[k].wl.Some?
  {
    var b := s.buffers[k];
    var s1 := s.(buffers := s.buffers[k := b.(busy := false)],
                 view := Observe(s.view, ReleaseBuffer(Token(k, b.wl.value))));
    if b.hooked && s.dirty && !s.framePending && s.configured then Rendered(s1, env) else s1
  }

  /** kl_lock_surface_handle_configure */
  function OnConfigure(s: State, size: Size, env: Env): State
    requires |s.buffers| == BUFFER_COUNT
  {
    Requested(s.(width := size.width, height := size.height, configured := true,
                 view := Observe(s.view, Ack(size))), env)
  }

  // ----- attachment ------------------------------------------------------------------------------------

  /** What the environment answers to kl_surface_attach_lock: the wl_surface, the lock surface, the
      listener. */
  datatype AttachEnv = AttachEnv(surfaced: bool, locked: bool, listened: bool)

  /** kl_surface_attach_lock under an existing lock and compositor */
  function OnAttach(s: State, env: AttachEnv): (r: (bool, State)) {
    if s.lockSurface.Some? then (true, s)
    else if !env.surfaced then (false, s.(wlSurface := None))
    else
      var surface, p1 := s.pool.next, Acquire(s.pool);
      if !env.locked then (false, s.(wlSurface := None, pool := Release(p1, surface)))
      else
        (env.listened, s.(wlSurface := Some(surface), lockSurface := Some(p1.next), pool := Acquire(p1)))
  }

  /** kl_surface_detach_lock, what it releases: the callback, the buffers, the lock surface and the
      wl_surface */
  function Unbound(s: State): State
    requires |s.buffers| == BUFFER_COUNT
  {
    s.(callback := None, lockSurface := None, wlSurface := None,
       pool := ReleaseAny(ReleaseAny(ReleaseAny(s.pool, s.callback), s.lockSurface), s.wlSurface),
       buffers := [B.Destroyed(s.buffers[0]), B.Destroyed(s.buffers[1]), B.Destroyed(s.buffers[2])])
  }

  /** kl_surface_detach_lock, what it resets */
  function Cleared(s: State): State {
    s.(configured := false, framePending := false, dirty := true, width := 0, height := 0, current := 0,
       view := Observe(s.view, Leave), failed := false)
  }

  /** kl_surface_detach_lock */
  function Detached(s: State): State
    requires |s.buffers| == BUFFER_COUNT
  {
    Cleared(Unbound(s))
  }

  /** kl_surface_destroy, up to freeing the structure itself */
  function Destroyed(s: State): State
    requires |s.buffers| == BUFFER_COUNT
  {
    var d := Detached(s);
    d.(engine := None, output := None, pool := ReleaseAny(ReleaseAny(d.pool, d.engine), d.output))
  }

  /** kl_surface_create, as it succeeds for a bound output: it takes over the output's handle. */
  const Fresh := State(Some(0), Some(1), None, None, None, [B.Blank, B.Blank, B.Blank], 0, 0, 0, 1,
                       false, false, true, Pool({0, 1}, 2, false), NoView, false, false)
}
