/** How the list of outputs, the lock and its answers follow the events and calls, in every run. */
module LockRuns {
  import opened Common
  import opened Lock
  import opened LockTheorems
  import L = Ledger
  import S = Surface
  import T = SurfaceTheorems
  import R = SurfaceRuns

  // ----- which outputs are listed -------------------------------------------------------------------

  function NamesOf(es: seq<Entry>): (r: seq<nat>)
    ensures |r| == |es| && forall i :: 0 <= i < |es| ==> r[i] == es[i].name
  {
    seq(|es|, i requires 0 <= i < |es| => es[i].name)
  }

  function Without(names: seq<nat>, name: nat): seq<nat> {
    if names == [] then []
    else if names[0] == name then names[1..]
    else [names[0]] + Without(names[1..], name)
  }

  /** The names added and not removed since, latest first. */
  function NextNames(names: seq<nat>, a: Action): seq<nat> {
    match a
    case AddOutput(name, output) => if output.bound && output.created then [name] + names else names
    case RemoveOutput(name) => Without(names, name)
    case Destroy => []
    case _ => names
  }

  function Names(acts: seq<Action>): seq<nat> {
    if acts == [] then [] else NextNames(Names(acts[..|acts| - 1]), acts[|acts| - 1])
  }

  lemma {:induction false} FindIsFirst(es: seq<Entry>, name: nat)
    ensures Find(es, name).Some? ==> forall j :: 0 <= j < Find(es, name).value ==> es[j].name != name
  {
    if es != [] { FindIsFirst(es[1..], name); }
  }

  lemma {:induction false} WithoutFirst(names: seq<nat>, name: nat, i: nat)
    requires i < |names| && names[i] == name && forall j :: 0 <= j < i ==> names[j] != name
    ensures Without(names, name) == names[..i] + names[i + 1..]
  {
    if i > 0 { WithoutFirst(names[1..], name, i - 1); }
  }

  lemma {:induction false} WithoutNone(names: seq<nat>, name: nat)
    requires forall j :: 0 <= j < |names| ==> names[j] != name
    ensures Without(names, name) == names
  {
    if names != [] { WithoutNone(names[1..], name); }
  }

  lemma {:induction false} FoundIsTakenOut(s: State, name: nat)
    ensures NamesOf(Removed(s, name).surfaces) == Without(NamesOf(s.surfaces), name)
  {
    var es := s.surfaces;
    var found := Find(es, name);
    FindIsFirst(es, name);
    if found.Some? {
      WithoutFirst(NamesOf(es), name, found.value);
      NamesWithout(es, found.value);
    } else {
      WithoutNone(NamesOf(es), name);
    }
  }

  lemma NamesWithout(es: seq<Entry>, i: nat)
    requires i < |es|
    ensures NamesOf(es[..i] + es[i + 1..]) == NamesOf(es)[..i] + NamesOf(es)[i + 1..]
  {}

  lemma ParallelNames(es: seq<Entry>, es': seq<Entry>)
    requires Parallel(es, es')
    ensures NamesOf(es') == NamesOf(es)
  {}

  lemma NamesAdd(s: State, name: nat, output: OutputEnv)
    ensures NamesOf(Added(s, name, output).surfaces) == NextNames(NamesOf(s.surfaces), AddOutput(name, output))
  {
    AddedIsListed(s, name, output);
    if output.bound && output.created { NamesPrepend(Added(s, name, output).surfaces); }
  }

  lemma NamesLock(s: State, lockOk: bool, listenerOk: bool, envs: seq<S.AttachEnv>)
    requires Books(s) && !s.lock && |envs| == |s.surfaces|
    ensures NamesOf(Locking(s, lockOk, listenerOk, envs).1.surfaces) == NamesOf(s.surfaces)
  {
    AttachAllCovers(s.surfaces, envs, NewView, s.outputs.next);
    ParallelNames(s.surfaces, AttachAll(s.surfaces, envs, NewView).1);
  }

  lemma NamesUnlock(s: State)
    requires Sound(s.surfaces)
    ensures NamesOf(Unlocked(s).1.surfaces) == NamesOf(s.surfaces)
  {
    DetachAllBares(s.surfaces);
    ParallelNames(s.surfaces, DetachAll(s.surfaces));
  }

  lemma NamesStep(s: State, a: Action)
    requires Books(s) && Sound(s.surfaces) && Enabled(s, a)
    ensures NamesOf(Apply(s, a).surfaces) == NextNames(NamesOf(s.surfaces), a)
  {
    match a
    case AddOutput(name, output) => NamesAdd(s, name, output);
    case RemoveOutput(name) => FoundIsTakenOut(s, name);
    case LockSession(lockOk, listenerOk, envs) => NamesLock(s, lockOk, listenerOk, envs);
    case Unlock => NamesUnlock(s);
    case SurfaceEvent(_, _, _) => ParallelNames(s.surfaces, Apply(s, a).surfaces);
    case _ =>
  }

  /** In every run the outputs listed are, by name and in order, those added and not removed since. */
  lemma {:induction false} NamesFollowEvents(acts: seq<Action>)
    requires Exec(Init, acts).Some?
    ensures NamesOf(Exec(Init, acts).value.surfaces) == Names(acts)
  {
    if acts != [] {
      var prefix := acts[..|acts| - 1];
      NamesFollowEvents(prefix);
      InvRun(Init, prefix);
      NamesStep(Exec(Init, prefix).value, acts[|acts| - 1]);
    }
  }

  /** A new output is listed in front, under its own name, with its own fresh wl_output; those listed
      stay as they are. */
  lemma AddedIsListed(s: State, name: nat, env: OutputEnv)
    ensures var t := Added(s, name, env);
            if env.bound && env.created then
              && t.surfaces[1..] == s.surfaces && |t.surfaces| == |s.surfaces| + 1
              && t.surfaces[0].name == name && t.surfaces[0].output == s.outputs.next
            else t.surfaces == s.surfaces && t.failed
  {}

  lemma NamesPrepend(es: seq<Entry>)
    requires es != []
    ensures NamesOf(es) == [es[0].name] + NamesOf(es[1..])
  {}

  ghost predicate DistinctNames(es: seq<Entry>) {
    forall i, j :: 0 <= i < j < |es| ==> es[i].name != es[j].name
  }

  /** With distinct names, removing an output takes exactly the entry so named off the list, and
      destroys its surface and no other. */
  lemma RemovedIsNamed(s: State, name: nat)
    requires DistinctNames(s.surfaces)
    ensures var t := Removed(s, name);
            && (forall e :: e in t.surfaces <==> e in s.surfaces && e.name != name)
            && (forall e :: e in s.surfaces && e.name == name ==> t.retired == s.retired + [Retire(e.surf)])
            && ((forall e :: e in s.surfaces ==> e.name != name) ==> t == s)
  {
    var found := Find(s.surfaces, name);
    if found.Some? {
      var i := found.value;
      var t := Removed(s, name);
      forall e | e in s.surfaces && e.name != name
        ensures e in t.surfaces
      {
        var j :| 0 <= j < |s.surfaces| && s.surfaces[j] == e;
        assert t.surfaces[if j < i then j else j - 1] == e;
      }
    }
  }

  // ----- when locking and unlocking succeed ------------------------------------------------------------

  predicate Granted(env: S.AttachEnv) {
    env.surfaced && env.locked && env.listened
  }

  lemma {:induction false} AttachAllAnswers(es: seq<Entry>, envs: seq<S.AttachEnv>, v: View)
    requires |envs| == |es| && Bare(es)
    ensures AttachAll(es, envs, v).0 <==> forall i :: 0 <= i < |envs| ==> Granted(envs[i])
    ensures AttachAll(es, envs, v).2.missed <==> v.missed || !AttachAll(es, envs, v).0
  {
    if es != [] {
      R.AttachAnswersIff(es[0].surf, envs[0]);
      AttachAllAnswers(es[1..], envs[1..], AttachOne(es[0], envs[0], v).2);
    }
  }

  /** kl_context_lock_session gets as far as waiting for the answer exactly if everything is bound,
      an output is listed, and the lock, its listener and every lock surface are granted; then
      the lock is held and every listed output is covered. */
  lemma LockSucceedsIff(s: State, lockOk: bool, listenerOk: bool, envs: seq<S.AttachEnv>)
    requires Reachable(s) && !s.lock && |envs| == |s.surfaces|
    ensures var (ok, t) := Locking(s, lockOk, listenerOk, envs);
            && (ok <==> s.ready && s.surfaces != [] && lockOk && listenerOk
                        && forall i :: 0 <= i < |envs| ==> Granted(envs[i]))
            && (ok ==> t.lock && Covered(t.surfaces))
            && (t.lock <==> s.ready && s.surfaces != [] && lockOk)
  {
    InvReachable(s);
    AttachAllAnswers(s.surfaces, envs, NewView);
    AttachAllCovers(s.surfaces, envs, NewView, s.outputs.next);
  }

  /** kl_context_unlock_session succeeds exactly while the client holds a lock on which it has
      received locked and not finished; then no output is covered any more. */
  lemma UnlockSucceedsIff(s: State)
    requires Reachable(s)
    ensures var (ok, t) := Unlocked(s);
            && (ok <==> s.lock && s.view.gotLocked && !s.view.gotFinished)
            && (ok ==> !t.lock && Bare(t.surfaces) && NamesOf(t.surfaces) == NamesOf(s.surfaces))
            && (!ok ==> t == s)
  {
    InvReachable(s);
    DetachAllBares(s.surfaces);
    NamesUnlock(s);
  }

  // ----- coverage, from the answers of the environment ---------------------------------------------------

  /** Every answer to an attachment is granted. */
  predicate Helpful(a: Action) {
    match a
    case AddOutput(_, output) => Granted(output.attach)
    case LockSession(_, listenerOk, envs) => listenerOk && forall i :: 0 <= i < |envs| ==> Granted(envs[i])
    case _ => true
  }

  lemma NotMissed(s: State, a: Action)
    requires Inv(s) && Enabled(s, a) && Helpful(a) && (s.lock ==> !s.view.missed)
    ensures Apply(s, a).lock ==> !Apply(s, a).view.missed
  {
    match a
    case LockSession(_, _, envs) => AttachAllAnswers(s.surfaces, envs, NewView);
    case AddOutput(_, output) => R.AttachAnswersIff(S.Fresh, output.attach);
    case _ =>
  }

  lemma {:induction false} NeverMissed(acts: seq<Action>)
    requires Exec(Init, acts).Some? && forall i :: 0 <= i < |acts| ==> Helpful(acts[i])
    ensures Exec(Init, acts).value.lock ==> !Exec(Init, acts).value.view.missed
  {
    if acts != [] {
      var prefix := acts[..|acts| - 1];
      NeverMissed(prefix);
      InvRun(Init, prefix);
      NotMissed(Exec(Init, prefix).value, acts[|acts| - 1]);
    }
  }

  /** In every run in which the environment grants every attachment, whatever outputs come and go:
      while a lock is held and not finished, every listed output has a lock surface. */
  lemma {:induction false} GrantedRunsAreCovered(s: State, acts: seq<Action>)
    requires Exec(Init, acts) == Some(s) && forall i :: 0 <= i < |acts| ==> Helpful(acts[i])
    requires s.lock && !s.isFinished
    ensures Covered(s.surfaces)
  {
    NeverMissed(acts);
    InvRun(Init, acts);
  }
}
