/** The callbacks of `auth::Password` form a regular language, in every interleaving. */
module PasswordGrammar {
  import opened Common
  import opened Password
  import opened PasswordInvariants

  /** What one worker reports: a verdict or none, and whether `on_stop` closes the block. */
  datatype Block = Block(verdict: Option<Option<Error>>, stopped: bool)

  /** The callbacks of worker `k`: on_begin, at most one of on_finish and on_error, exactly one
      on_end, at most one on_stop. */
  function Render(k: nat, b: Block): seq<Event> {
    [OnBegin(k)]
    + (match b.verdict
       case None => []
       case Some(None) => [OnFinish(k)]
       case Some(Some(e)) => [OnError(k, e)])
    + [OnEnd(k)]
    + (if b.stopped then [OnStop(k)] else [])
  }

  /** The blocks of workers 0, 1, 2, ... one after the other. */
  function Flatten(blocks: seq<Block>): seq<Event> {
    if blocks == [] then []
    else Flatten(blocks[..|blocks| - 1]) + Render(|blocks| - 1, blocks[|blocks| - 1])
  }

  /** Where a well-formed trace stands: between blocks, or inside the block of worker `n`. */
  datatype Phase =
    | Between(n: nat)
    | Begun(n: nat)
    | Decided(n: nat)
    | Over(n: nat)
    | Finished(n: nat)
    | Broken

  function Advance(p: Phase, e: Event): Phase {
    match p
    case Between(n) => if e == OnBegin(n) then Begun(n) else if e == OnDelete then Finished(n) else Broken
    case Begun(n) =>
      if e == OnFinish(n) || (e.OnError? && e.k == n) then Decided(n)
      else if e == OnEnd(n) then Over(n) else Broken
    case Decided(n) => if e == OnEnd(n) then Over(n) else Broken
    case Over(n) =>
      if e == OnStop(n) then Between(n + 1)
      else if e == OnBegin(n + 1) then Begun(n + 1)
      else if e == OnDelete then Finished(n + 1) else Broken
    case Finished(_) => Broken
    case Broken => Broken
  }

  function Parse(t: seq<Event>): Phase {
    if t == [] then Between(0) else Advance(Parse(t[..|t| - 1]), t[|t| - 1])
  }

  lemma {:induction false} ParseSnoc(t: seq<Event>, e: Event)
    ensures Parse(t + [e]) == Advance(Parse(t), e)
  {
    assert (t + [e])[..|t|] == t;
  }

  // ----- the automaton accepts exactly concatenations of blocks ----------------------------------

  /** What has been heard of a block so far, for each phase. */
  ghost predicate Spoken(p: Phase, t: seq<Event>, blocks: seq<Block>, b: Block) {
    match p
    case Between(n) => n == |blocks| && t == Flatten(blocks)
    case Begun(n) => n == |blocks| && t == Flatten(blocks) + [OnBegin(n)]
    case Decided(n) =>
      n == |blocks| && b.verdict.Some?
      && t == Flatten(blocks) + [OnBegin(n), if b.verdict.value.None? then OnFinish(n)
                                             else OnError(n, b.verdict.value.value)]
    case Over(n) => n + 1 == |blocks| && !blocks[n].stopped && t == Flatten(blocks)
    case Finished(n) => n == |blocks| && t == Flatten(blocks) + [OnDelete]
    case Broken => true
  }

  lemma {:induction false} FlattenSnoc(blocks: seq<Block>, b: Block)
    ensures Flatten(blocks + [b]) == Flatten(blocks) + Render(|blocks|, b)
  {
    assert (blocks + [b])[..|blocks|] == blocks;
  }

  lemma {:induction false} CloseBlock(t: seq<Event>, blocks: seq<Block>, b: Block)
    requires Spoken(if b.verdict.None? then Begun(|blocks|) else Decided(|blocks|), t, blocks, b)
    ensures t + [OnEnd(|blocks|)] == Flatten(blocks + [b.(stopped := false)])
  {
    FlattenSnoc(blocks, b.(stopped := false));
  }

  lemma {:induction false} StopBlock(blocks: seq<Block>)
    requires |blocks| > 0 && !blocks[|blocks| - 1].stopped
    ensures var k := |blocks| - 1;
            Flatten(blocks[..k] + [blocks[k].(stopped := true)]) == Flatten(blocks) + [OnStop(k)]
  {
    var k := |blocks| - 1;
    var done := blocks[k].(stopped := true);
    FlattenSnoc(blocks[..k], done);
    assert Render(k, done) == Render(k, blocks[k]) + [OnStop(k)];
  }

  /** One more callback: the decomposition follows the automaton. */
  lemma {:induction false} Extend(p: Phase, t: seq<Event>, e: Event, blocks: seq<Block>, b: Block)
    returns (blocks': seq<Block>, b': Block)
    requires Spoken(p, t, blocks, b)
    ensures Spoken(Advance(p, e), t + [e], blocks', b')
  {
    blocks', b' := blocks, b;
    if Advance(p, e).Decided? {
      b' := Block(Some(if e.OnFinish? then None else Some(e.error)), false);
    } else if Advance(p, e).Over? {
      var b0 := if p.Begun? then Block(None, false) else b;
      CloseBlock(t, blocks, b0);
      blocks' := blocks + [b0.(stopped := false)];
    } else if p.Over? && Advance(p, e).Between? {
      StopBlock(blocks);
      blocks' := blocks[..|blocks| - 1] + [blocks[|blocks| - 1].(stopped := true)];
    }
  }

  lemma {:induction false} Decompose(t: seq<Event>) returns (blocks: seq<Block>, b: Block)
    ensures Spoken(Parse(t), t, blocks, b)
  {
    blocks, b := [], Block(None, false);
    if t != [] {
      var t0, e := t[..|t| - 1], t[|t| - 1];
      blocks, b := Decompose(t0);
      blocks, b := Extend(Parse(t0), t0, e, blocks, b);
      assert t == t0 + [e];
    }
  }

  /** A prefix of the language: whole blocks, then a part of the next one or on_delete. */
  ghost predicate Conforms(t: seq<Event>) {
    exists blocks: seq<Block>, b: Block, tail: seq<Event> ::
      && t == Flatten(blocks) + tail
      && (tail <= Render(|blocks|, b) || tail == [OnDelete])
  }

  lemma {:induction false} ParsedConforms(t: seq<Event>)
    requires !Parse(t).Broken?
    ensures Conforms(t)
  {
    var blocks, b := Decompose(t);
    var tail := t[|Flatten(blocks)|..];
    assert t == Flatten(blocks) + tail;
    assert tail <= Render(|blocks|, b) || tail == [OnDelete];
  }

  // ----- every run is in the language ---------------------------------------------------------------

  predicate AtRest(p: Phase, n: nat) {
    p == Between(n) || (n > 0 && p == Over(n - 1))
  }

  /** The phases that fit a worker `k` standing at `pc`. */
  predicate Fits(p: Phase, pc: WorkerPc, k: nat) {
    match pc
    case AtBegin => AtRest(p, k)
    case AtEnd => p == Begun(k) || p == Decided(k)
    case AtStopLoad => p == Over(k)
    case AtStop => p == Over(k)
    case AtWipe => AtRest(p, k + 1)
    case AtRelease => AtRest(p, k + 1)
    case Ended => AtRest(p, k + 1)
    case _ => p == Begun(k)
  }

  /** The phase the trace must be in, given where the last worker stands. */
  ghost predicate Placed(p: Phase, s: State) {
    var n := |s.workers|;
    if s.client.Gone? then p == Finished(n)
    else if n == 0 then p == Between(0)
    else Fits(p, s.workers[n - 1].pc, n - 1)
  }

  ghost predicate InPhase(s: State) {
    Placed(Parse(s.trace), s)
  }

  lemma FitsStep(s: State, w: Worker, k: nat, fails: bool, p: Phase)
    requires Fits(p, w.pc, k)
    ensures var c := Callback(w.pc, k);
            Fits(if c == [] then p else Advance(p, c[0]), NextPc(s, w, fails), k)
  {}

  lemma InPhaseWorker(s: State, k: nat, fails: bool)
    requires Control(s) && InPhase(s) && WorkerEnabled(s, k, fails)
    ensures InPhase(StepWorker(s, k, fails))
  {
    ControlWorker(s, k, fails);
    var w := s.workers[k];
    var c := Callback(w.pc, k);
    FitsStep(s, w, k, fails, Parse(s.trace));
    if c == [] { assert s.trace + c == s.trace; } else { ParseSnoc(s.trace, c[0]); }
  }

  /** Where the last worker stands; an object that never had one is as good as after one. */
  function LastPc(s: State): WorkerPc {
    if s.workers == [] then Ended else s.workers[|s.workers| - 1].pc
  }

  /** What a step of the client does to the trace and to the last worker. */
  ghost predicate Announces(s: State, t: State) {
    && (t.client.Gone? <==> s.client.DestroyReport?)
    && t.trace == (if s.client.DestroyReport? then s.trace + [OnDelete] else s.trace)
    && (if s.client.VerifySpawn? && t.client.Idle? then |t.workers| == |s.workers| + 1 && LastPc(t).AtBegin?
        else |t.workers| == |s.workers| && LastPc(t) == LastPc(s))
  }

  lemma ClientAnnounces(s: State, throws: bool)
    requires ClientEnabled(s)
    ensures Announces(s, StepClient(s, throws))
  {}

  lemma PlacedClient(p: Phase, s: State, t: State)
    requires Control(s) && Placed(p, s) && !s.client.Gone? && Announces(s, t)
    ensures Placed(if s.client.DestroyReport? then Advance(p, OnDelete) else p, t)
  {
    var n := |s.workers|;
    if PastJoin(s.client) {
      assert n > 0 ==> !Live(s, n - 1);
      assert AtRest(p, n);
    }
  }

  lemma {:induction false} InPhaseClient(s: State, t: State)
    requires Control(s) && InPhase(s) && !s.client.Gone? && Announces(s, t)
    ensures InPhase(t)
  {
    PlacedClient(Parse(s.trace), s, t);
    if s.client.DestroyReport? { ParseSnoc(s.trace, OnDelete); }
  }

  /** Calls, stops and children do not touch what the grammar looks at. */
  lemma SilentStep(s: State, a: Action)
    requires Enabled(s, a) && !a.WorkerStep? && !a.ClientStep?
    ensures var t := Apply(s, a);
            && |t.workers| == |s.workers| && LastPc(t) == LastPc(s)
            && t.trace == s.trace && (t.client.Gone? <==> s.client.Gone?)
  {}

  lemma InPhaseStep(s: State, a: Action)
    requires Control(s) && InPhase(s) && Enabled(s, a)
    ensures InPhase(Apply(s, a))
  {
    if a.WorkerStep? {
      InPhaseWorker(s, a.k, a.fails);
    } else if a.ClientStep? {
      ClientAnnounces(s, a.throws);
      InPhaseClient(s, StepClient(s, a.throws));
    } else {
      SilentStep(s, a);
    }
  }

  lemma {:induction false} InPhaseRun(acts: seq<Action>)
    ensures Exec(Init, acts).Some? ==> InPhase(Exec(Init, acts).value)
  {
    if acts != [] && Exec(Init, acts).Some? {
      var prefix := acts[..|acts| - 1];
      InPhaseRun(prefix);
      InvRun(Init, prefix);
      InPhaseStep(Exec(Init, prefix).value, acts[|acts| - 1]);
    }
  }

  /** Exactly `n` whole blocks, then `tail`. */
  ghost predicate Complete(t: seq<Event>, n: nat, tail: seq<Event>) {
    exists blocks: seq<Block> :: |blocks| == n && t == Flatten(blocks) + tail
  }

  lemma RestIsComplete(t: seq<Event>, n: nat)
    requires AtRest(Parse(t), n)
    ensures Complete(t, n, [])
  {
    var blocks, b := Decompose(t);
    assert t == Flatten(blocks) + [];
  }

  lemma FinishedIsComplete(t: seq<Event>, n: nat)
    requires Parse(t) == Finished(n)
    ensures Complete(t, n, [OnDelete])
  {
    var blocks, b := Decompose(t);
  }

  /** The whole callback trace of any interleaving is a sequence of non-interleaved blocks, one
      for each worker in order, with on_delete last; once no worker is live, the blocks are
      complete and there is exactly one for each worker ever spawned. */
  lemma CallbackGrammar(s: State)
    requires Reachable(s)
    ensures Conforms(s.trace)
    ensures !LastLive(s) ==>
              Complete(s.trace, |s.workers|, if s.client.Gone? then [OnDelete] else [])
  {
    var acts :| Exec(Init, acts) == Some(s);
    InPhaseRun(acts);
    ParsedConforms(s.trace);
    if s.client.Gone? {
      FinishedIsComplete(s.trace, |s.workers|);
    } else if !LastLive(s) {
      RestIsComplete(s.trace, |s.workers|);
    }
  }
}
