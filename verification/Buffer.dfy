/** `struct kl_buffer`: creation with all its failure exits, release and destruction. */
module Buffer {
  import opened Common
  import opened Ledger

  const TWO31 := 0x8000_0000
  const TWO32 := 0x1_0000_0000
  const SIZE_MAX := 0xFFFF_FFFF_FFFF_FFFF

  /** The value of a buffer.  `wl`, `data`, `cairo`, `cr` are the handles it holds, `physWidth` and
      `physHeight` the size the compositor was told when the wl_buffer was created; `pool`
      accounts for every handle this buffer ever acquired. */
  datatype State = State(
    wl: Option<nat>, data: Option<nat>, cairo: Option<nat>, cr: Option<nat>,
    width: nat, height: nat, scale: int, busy: bool, hooked: bool,
    physWidth: int, physHeight: int, pool: Pool)

  /** As calloc leaves it. */
  const Blank := State(None, None, None, None, 0, 0, 0, false, false, 0, 0, Empty)

  datatype File = Opened | NoFile | NotSized | NotSealed

  /** What the environment answers during one creation. */
  datatype Env = Env(shm: bool, stride: int, file: File, mapped: bool, pooled: bool, buffered: bool,
                     surfaced: bool, contexted: bool, listened: bool)

  // ----- size arithmetic -----------------------------------------------------------------------

  /** width * (uint32_t)scale, in 32 bits. */
  function Wrap(x: nat): nat {
    x % TWO32
  }

  /** (int32_t) of a 32-bit value. */
  function Signed(x: nat): int {
    if x < TWO31 then x else x - TWO32
  }

  function Phys(logical: nat, scale: nat): int {
    Signed(Wrap(logical * scale))
  }

  /** The size told to the compositor is the logical size times the scale exactly when that
      product fits in 31 bits. */
  lemma PhysIsExactIff(logical: nat, scale: nat)
    ensures Phys(logical, scale) == logical * scale <==> logical * scale < TWO31
  {
    assert Phys(logical, scale) < TWO31;
  }

  // ----- specification -----------------------------------------------------------------------------

  /** The creation reaches the point where a file is needed. */
  predicate Sizable(width: nat, height: nat, scale: int, env: Env) {
    && env.shm && width > 0 && height > 0 && scale > 0
    && env.stride > 0
    && Wrap(height * scale) <= SIZE_MAX / env.stride
    && Wrap(height * scale) > 0
  }

  predicate Creatable(width: nat, height: nat, scale: int, env: Env) {
    && Sizable(width, height, scale, env)
    && env.file.Opened? && env.mapped && env.pooled && env.buffered
    && env.surfaced && env.contexted && env.listened
  }

  lemma DivisionBounds(x: nat, d: nat, bound: nat)
    requires d > 0
    ensures x <= bound / d <==> x * d <= bound
  {
    var q := bound / d;
    assert bound == q * d + bound % d;
    if x <= q { assert x * d <= q * d; } else { assert x * d >= (q + 1) * d; }
  }

  /** Creation is possible exactly if the arguments are positive, the environment grants every
      request, and the size in bytes, of a height wrapped to 32 bits, is neither zero nor beyond
      size_t. */
  lemma CreatableIff(width: nat, height: nat, scale: int, env: Env)
    ensures Creatable(width, height, scale, env) <==>
            && env.shm && env.file == Opened && env.mapped && env.pooled && env.buffered
            && env.surfaced && env.contexted && env.listened
            && width > 0 && height > 0 && scale > 0 && env.stride > 0
            && 0 < (height * scale % TWO32) * env.stride <= SIZE_MAX
  {
    if scale > 0 && env.stride > 0 {
      DivisionBounds(Wrap(height * scale), env.stride, SIZE_MAX);
      if Wrap(height * scale) > 0 { assert Wrap(height * scale) * env.stride > 0; }
    }
  }

  lemma BytesFit(h: nat, stride: nat)
    requires 0 < h < TWO31 && 0 < stride < TWO31
    ensures h % TWO32 == h && 0 < (h % TWO32) * stride <= SIZE_MAX
  {
    Grows(h, TWO31, stride);
    Grows(stride, TWO31, TWO31);
  }

  lemma Grows(x: nat, y: nat, d: nat)
    requires 0 < x <= y && d > 0
    ensures 0 < x * d <= y * d
  {}

  /** With a working environment every surface that fits in 31 bits gets its buffers, at any scale. */
  lemma WorkingCreationSucceeds(b: State, width: nat, height: nat, scale: nat, stride: nat)
    requires width > 0 && height > 0 && scale > 0 && 0 < height * scale < TWO31 && 0 < stride < TWO31
    requires Valid(b) && b.pool.live == {}
    ensures Created(b, width, height, scale, Env(true, stride, Opened, true, true, true, true, true, true)).0
  {
    var env := Env(true, stride, Opened, true, true, true, true, true, true);
    BytesFit(height * scale, stride);
    CreatableIff(width, height, scale, env);
    CreationIsExact(b, width, height, scale, env);
  }

  /** The handles a buffer holds. */
  function Handles(b: State): set<nat> {
    HandleOf(b.wl) + HandleOf(b.data) + HandleOf(b.cairo) + HandleOf(b.cr)
  }

  /** The four handles are different, they are exactly what is live, and none was ever released
      twice; a buffer with a wl_buffer is complete and one without holds at most the error surface
      that a failed creation leaves behind. */
  ghost predicate Valid(b: State) {
    && Sound(b.pool) && b.pool.live == Handles(b)
    && Apart(b.wl, b.data) && Apart(b.wl, b.cairo) && Apart(b.wl, b.cr)
    && Apart(b.data, b.cairo) && Apart(b.data, b.cr) && Apart(b.cairo, b.cr)
    && (b.wl.Some? ==> b.data.Some? && b.cairo.Some? && b.cr.Some? && b.hooked && b.scale > 0
                       && b.physWidth == Phys(b.width, b.scale) && b.physHeight == Phys(b.height, b.scale))
    && (b.wl.None? ==> b.data.None? && b.cr.None? && !b.busy)
  }

  /** kl_buffer_destroy */
  function Destroyed(b: State): State {
    State(None, None, None, None, 0, 0, 1, false, false, 0, 0,
          ReleaseAny(ReleaseAny(ReleaseAny(ReleaseAny(b.pool, b.cr), b.cairo), b.wl), b.data))
  }

  /** kl_buffer_allocate_shm_file: an open sealed file, or nothing left behind. */
  function OpenFile(p: Pool, file: File): (r: (Pool, Option<nat>)) {
    match file
    case NoFile => (p, None)
    case Opened => (Acquire(p), Some(p.next))
    case _ => (Release(Acquire(p), p.next), None)
  }

  /** kl_buffer_create from the wl_buffer on: `map'` is the mapping, `p` the handles so far. */
  function Finish(b: State, width: nat, height: nat, scale: nat, env: Env, p: Pool, map': nat): (r: (bool, State)) {
    var buffer, p1 := p.next, Acquire(p);
    var surface, p2 := p1.next, Acquire(p1);
    var context, p3 := p2.next, Acquire(p2);
    var full := State(Some(buffer), Some(map'), Some(surface), Some(context), width, height, scale, false,
                      true, Phys(width, scale), Phys(height, scale), p3);
    if !env.surfaced then
      (false, b.(wl := None, cairo := Some(surface), physWidth := full.physWidth, physHeight := full.physHeight,
                 pool := Release(Release(p2, buffer), map')))
    else if !env.contexted then
      (false, b.(wl := None, cairo := None, cr := None, physWidth := full.physWidth, physHeight := full.physHeight,
                 pool := Release(Release(Release(Release(p3, context), surface), buffer), map')))
    else if !env.listened then (false, Destroyed(full))
    else (true, full)
  }

  /** kl_buffer_create: whether it succeeded, and the buffer it leaves. */
  function Created(b: State, width: nat, height: nat, scale: int, env: Env): (r: (bool, State)) {
    if !Sizable(width, height, scale, env) then (false, b)
    else
      var (p1, fd) := OpenFile(b.pool, env.file);
      if fd.None? then (false, b.(pool := p1))
      else if !env.mapped then (false, b.(pool := Release(p1, fd.value)))
      else
        var map', p2 := p1.next, Acquire(p1);
        if !env.pooled then (false, b.(pool := Release(Release(p2, fd.value), map')))
        else
          var shmPool, p3 := p2.next, Release(Acquire(p2), fd.value);
          if !env.buffered then (false, b.(wl := None, pool := Release(Release(p3, shmPool), map')))
          else Finish(b, width, height, scale, env, Release(p3, shmPool), map')
  }

  lemma FinishIsExact(b: State, width: nat, height: nat, scale: nat, env: Env, p: Pool, map': nat)
    requires Handles(b) == {} && !b.busy && scale > 0
    requires Sound(p) && p.live == {map'}
    ensures var (ok, c) := Finish(b, width, height, scale, env, p, map');
            && Valid(c) && !c.busy && (ok <==> env.surfaced && env.contexted && env.listened)
            && (if ok then c.wl.Some? && c.width == width && c.height == height && c.scale == scale
                else c.wl.None?)
  {
    assert b.wl.None? && b.data.None? && b.cairo.None? && b.cr.None?;
  }

  /** On a buffer that holds nothing, creation succeeds exactly when every request does, and then
      the buffer is complete, free and of the asked size; whatever exit it takes, the handles
      that are live afterwards are exactly those the buffer still holds. */
  lemma CreationIsExact(b: State, width: nat, height: nat, scale: int, env: Env)
    requires Valid(b) && b.pool.live == {}
    ensures var (ok, c) := Created(b, width, height, scale, env);
            && Valid(c) && !c.busy && (ok <==> Creatable(width, height, scale, env))
            && (if ok then c.wl.Some? && c.width == width && c.height == height && c.scale == scale
                else c.wl.None?)
  {
    assert b.wl.None? && b.data.None? && b.cairo.None? && b.cr.None?;
    if Sizable(width, height, scale, env) && env.file.Opened? && env.mapped && env.pooled && env.buffered {
      var fd := b.pool.next;
      var p2 := Acquire(Acquire(b.pool));
      var p := Release(Release(Acquire(p2), fd), p2.next);
      assert p.live == {fd + 1};
      FinishIsExact(b, width, height, scale, env, p, fd + 1);
    }
  }

  /** Destruction releases everything the buffer held, each handle once, and doing it again
      changes nothing. */
  lemma DestroyReleasesAll(b: State)
    requires Valid(b)
    ensures Valid(Destroyed(b)) && Destroyed(b).pool.live == {}
    ensures Destroyed(Destroyed(b)) == Destroyed(b)
  {}

  /** A destroyed buffer is as good as new. */
  lemma DestroyedIsBlank(b: State)
    ensures Destroyed(b) == Blank.(scale := 1, pool := Destroyed(b).pool)
  {}

  /** `struct kl_buffer`, updated in place. */
  class KlBuffer {
    var wl: Option<nat>
    var data: Option<nat>
    var cairo: Option<nat>
    var cr: Option<nat>
    var width: nat
    var height: nat
    var scale: int
    var busy: bool
    var hooked: bool
    var physWidth: int
    var physHeight: int
    var pool: Pool

    function Value(): State
      reads this
    {
      State(wl, data, cairo, cr, width, height, scale, busy, hooked, physWidth, physHeight, pool)
    }

    constructor ()
      ensures Value() == Blank
    {
      wl, data, cairo, cr := None, None, None, None;
      width, height, scale, busy, hooked := 0, 0, 0, false, false;
      physWidth, physHeight, pool := 0, 0, Empty;
    }

    /** kl_buffer_destroy */
    method Destroy()
      modifies this
      ensures Value() == Destroyed(old(Value()))
    {
      pool, cr := ReleaseAny(pool, cr), None;
      pool, cairo := ReleaseAny(pool, cairo), None;
      pool, wl := ReleaseAny(pool, wl), None;
      pool, data := ReleaseAny(pool, data), None;
      width, height, scale, busy, hooked := 0, 0, 1, false, false;
      physWidth, physHeight := 0, 0;
    }

    method AllocateFile(file: File) returns (fd: Option<nat>)
      modifies this`pool
      ensures (pool, fd) == OpenFile(old(pool), file)
    {
      if file.NoFile? { return None; }
      var h := pool.next;
      pool := Acquire(pool);
      if file.NotSized? || file.NotSealed? {
        pool := Release(pool, h);
        return None;
      }
      return Some(h);
    }

    /** The second half of kl_buffer_create. */
    method CreateOver(w: nat, h: nat, s: nat, env: Env, map': nat) returns (ok: bool)
      modifies this
      ensures (ok, Value()) == Finish(old(Value()), w, h, s, env, old(pool), map')
    {
      var buffer, p1 := pool.next, Acquire(pool);
      wl, physWidth, physHeight := Some(buffer), Phys(w, s), Phys(h, s);
      var surface, p2 := p1.next, Acquire(p1);
      cairo := Some(surface);
      if !env.surfaced {
        pool, wl := Release(Release(p2, buffer), map'), None;
        return false;
      }
      var context, p3 := p2.next, Acquire(p2);
      if !env.contexted {
        pool := Release(Release(Release(Release(p3, context), surface), buffer), map');
        cr, cairo, wl := None, None, None;
        return false;
      }
      cr, data, pool := Some(context), Some(map'), p3;
      width, height, scale, busy, hooked := w, h, s, false, true;
      assert Value() == State(Some(buffer), Some(map'), Some(surface), Some(context), w, h, s, false, true,
                              Phys(w, s), Phys(h, s), p3);
      if !env.listened {
        Destroy();
        return false;
      }
      return true;
    }

    /** kl_buffer_create */
    method Create(w: nat, h: nat, s: int, env: Env) returns (ok: bool)
      modifies this
      ensures (ok, Value()) == Created(old(Value()), w, h, s, env)
    {
      if !env.shm || w == 0 || h == 0 || s <= 0 { return false; }
      if env.stride <= 0 { return false; }
      var ph := Wrap(h * s);
      if ph > SIZE_MAX / env.stride { return false; }
      if env.stride * ph == 0 { return false; }

      var fd := AllocateFile(env.file);
      if fd.None? { return false; }
      if !env.mapped {
        pool := Release(pool, fd.value);
        return false;
      }
      var map' := pool.next;
      pool := Acquire(pool);
      if !env.pooled {
        pool := Release(pool, fd.value);
        pool := Release(pool, map');
        return false;
      }
      var shmPool := pool.next;
      pool := Acquire(pool);
      pool := Release(pool, fd.value);
      if !env.buffered {
        pool := Release(pool, shmPool);
        pool, wl := Release(pool, map'), None;
        return false;
      }
      pool := Release(pool, shmPool);
      ok := CreateOver(w, h, s, env, map');
    }
  }
}
