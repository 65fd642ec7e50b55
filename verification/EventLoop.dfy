/**
  The event loop of main: prepare-read, flush, wait, and read or cancel.  libwayland asks that every
  successful prepare-read be followed by exactly one cancel-read or read-events; a read intent
  left open would deadlock the next reader, the unlock roundtrip included.
 */
module EventLoop {
  import opened Common

  datatype Call =
    | PrepareRead(ok: bool)
    | DispatchPending
    | Flush
    | CancelRead
    | ReadEvents(ok: bool)
    | Roundtrip

  /** What epoll_wait returns: an error, interrupted or not, or events on the display. */
  datatype Wait = Interrupted | WaitFailed | Woken(events: seq<Ready>)

  /** One epoll event: whether it is on the display, and which conditions it carries. */
  datatype Ready = Ready(onDisplay: bool, hangup: bool, readable: bool)

  datatype Flushing = Flushed | WouldBlock | FlushFailed

  /** The environment of one turn: whether the demo time is over, the answers to prepare-read that
      were refused and the dispatches between them, and the answers to the later calls. */
  datatype Turn = Turn(
    expired: bool, refusals: seq<bool>, flush: Flushing, wait: Wait,
    readOk: bool, dispatchOk: bool, finished: bool)

  datatype Intent = Closed | Open | Broken

  /** What libwayland allows. */
  function Step(i: Intent, c: Call): Intent {
    match c
    case PrepareRead(ok) => if i != Closed then Broken else if ok then Open else Closed
    case CancelRead => if i == Open then Closed else Broken
    case ReadEvents(_) => if i == Open then Closed else Broken
    case DispatchPending => i
    case Flush => i
    case Roundtrip => if i == Closed then Closed else Broken
  }

  /** The read intent after a sequence of calls made in intent `i`. */
  function Drive(i: Intent, log: seq<Call>): Intent
    decreases |log|
  {
    if log == [] then i else Drive(Step(i, log[0]), log[1..])
  }

  /** Successful prepare-reads, and the calls that consume one. */
  function Prepared(log: seq<Call>): nat {
    if log == [] then 0 else Bit(log[0] == PrepareRead(true)) + Prepared(log[1..])
  }

  function Consumed(log: seq<Call>): nat {
    if log == [] then 0 else Bit(log[0].CancelRead? || log[0].ReadEvents?) + Consumed(log[1..])
  }

  lemma {:induction false} DriveConcat(i: Intent, a: seq<Call>, b: seq<Call>)
    ensures Drive(i, a + b) == Drive(Drive(i, a), b)
    decreases |a|
  {
    if a == [] {
      assert a + b == b;
    } else {
      assert (a + b)[1..] == a[1..] + b;
      DriveConcat(Step(i, a[0]), a[1..], b);
    }
  }

  lemma {:induction false} BrokenStays(log: seq<Call>)
    ensures Drive(Broken, log) == Broken
  {
    if log != [] { BrokenStays(log[1..]); }
  }

  /** A log that libwayland accepts has consumed every successful prepare-read exactly once, but for
      an intent still open at its end. */
  lemma {:induction false} AcceptedIsBalanced(i: Intent, log: seq<Call>)
    requires i != Broken && Drive(i, log) != Broken
    ensures Bit(i == Open) + Prepared(log) == Consumed(log) + Bit(Drive(i, log) == Open)
    decreases |log|
  {
    if log != [] {
      if Step(i, log[0]) == Broken { BrokenStays(log[1..]); }
      AcceptedIsBalanced(Step(i, log[0]), log[1..]);
    }
  }

  // ----- specification ---------------------------------------------------------------------------

  const Refusal := [PrepareRead(false), DispatchPending]

  /** The inner loop: dispatch until prepare-read succeeds.  `refusals` lists, for each refused
      prepare-read, whether the dispatch that follows it succeeds. */
  function PrepareCalls(refusals: seq<bool>): (r: (seq<Call>, bool)) {
    if refusals == [] then ([PrepareRead(true)], true)
    else if !refusals[0] then (Refusal, false)
    else
      var (calls, ok) := PrepareCalls(refusals[1..]);
      (Refusal + calls, ok)
  }

  ghost predicate Hangup(events: seq<Ready>) {
    exists i :: 0 <= i < |events| && events[i].onDisplay && events[i].hangup
  }

  ghost predicate Readable(events: seq<Ready>) {
    exists i :: 0 <= i < |events| && events[i].onDisplay && events[i].readable
  }

  /** What follows a successful prepare-read, and whether the loop goes on. */
  ghost function ReadCalls(t: Turn): (r: (seq<Call>, bool)) {
    if t.flush.FlushFailed? then ([Flush, CancelRead], false)
    else if !t.wait.Woken? then ([Flush, CancelRead], t.wait.Interrupted?)
    else if t.wait.events == [] then ([Flush, CancelRead], true)
    else if Hangup(t.wait.events) then ([Flush, CancelRead], false)
    else if !Readable(t.wait.events) then ([Flush, CancelRead], !t.finished)
    else if !t.readOk then ([Flush, ReadEvents(false)], false)
    else ([Flush, ReadEvents(true), DispatchPending], t.dispatchOk && !t.finished)
  }

  /** One turn of the loop. */
  ghost function TurnCalls(t: Turn): (r: (seq<Call>, bool)) {
    if t.expired then ([], false)
    else
      var (prepare, ok) := PrepareCalls(t.refusals);
      if !ok then (prepare, false)
      else
        var (read, goOn) := ReadCalls(t);
        (prepare + read, goOn)
  }

  /** The whole loop: it ends with the first turn that does not go on. */
  ghost function LoopCalls(turns: seq<Turn>): seq<Call> {
    if turns == [] then []
    else
      var (calls, goOn) := TurnCalls(turns[0]);
      if goOn then calls + LoopCalls(turns[1..]) else calls
  }

  /** The loop, the roundtrip of the unlock if the session is unlocked, and that of the final
      destruction. */
  ghost function ProgramCalls(turns: seq<Turn>, unlocks: bool): seq<Call> {
    LoopCalls(turns) + (if unlocks then [Roundtrip, Roundtrip] else [Roundtrip])
  }

  // ----- theorems -----------------------------------------------------------------------------------

  lemma {:induction false} PrepareOpens(refusals: seq<bool>)
    ensures var (calls, ok) := PrepareCalls(refusals);
            Drive(Closed, calls) == if ok then Open else Closed
  {
    assert Drive(Closed, Refusal) == Closed by {
      assert Refusal[1..] == [DispatchPending] && Refusal[1..][1..] == [];
    }
    if refusals != [] && refusals[0] {
      PrepareOpens(refusals[1..]);
      DriveConcat(Closed, Refusal, PrepareCalls(refusals[1..]).0);
    }
  }

  lemma {:induction false} ReadCloses(t: Turn)
    ensures Drive(Open, ReadCalls(t).0) == Closed
  {
    var calls := ReadCalls(t).0;
    assert calls[1..][0] == calls[1];
    assert |calls| == 2 ==> calls[1..][1..] == [];
    assert |calls| == 3 ==> calls[1..][1..] == [DispatchPending] && calls[1..][1..][1..] == [];
  }

  lemma {:induction false} TurnCloses(t: Turn)
    ensures Drive(Closed, TurnCalls(t).0) == Closed
  {
    if !t.expired {
      PrepareOpens(t.refusals);
      ReadCloses(t);
      DriveConcat(Closed, PrepareCalls(t.refusals).0, ReadCalls(t).0);
    }
  }

  lemma {:induction false} LoopCloses(turns: seq<Turn>)
    ensures Drive(Closed, LoopCalls(turns)) == Closed
  {
    if turns != [] {
      TurnCloses(turns[0]);
      LoopCloses(turns[1..]);
      DriveConcat(Closed, TurnCalls(turns[0]).0, LoopCalls(turns[1..]));
    }
  }

  /** Read intents balance: over every run of the loop and every exit, libwayland accepts the calls;
      each successful prepare-read is consumed by exactly one cancel-read or read-events before
      the next prepare-read and before the closing roundtrips. */
  lemma IntentsBalance(turns: seq<Turn>, unlocks: bool)
    ensures Drive(Closed, ProgramCalls(turns, unlocks)) == Closed
    ensures Prepared(ProgramCalls(turns, unlocks)) == Consumed(ProgramCalls(turns, unlocks))
  {
    var last := if unlocks then [Roundtrip, Roundtrip] else [Roundtrip];
    LoopCloses(turns);
    DriveConcat(Closed, LoopCalls(turns), last);
    assert Drive(Closed, [Roundtrip]) == Closed by { assert [Roundtrip][1..] == []; }
    assert unlocks ==> last[1..] == [Roundtrip];
    AcceptedIsBalanced(Closed, ProgramCalls(turns, unlocks));
  }

  // ----- every turn is made, and the roundtrips -----------------------------------------------------------

  predicate NoRoundtrip(log: seq<Call>) {
    forall i :: 0 <= i < |log| ==> log[i] != Roundtrip
  }

  lemma {:induction false} PrepareMakesNone(refusals: seq<bool>)
    ensures NoRoundtrip(PrepareCalls(refusals).0)
  {
    if refusals != [] { PrepareMakesNone(refusals[1..]); }
  }

  lemma {:induction false} LoopMakesNone(turns: seq<Turn>)
    ensures NoRoundtrip(LoopCalls(turns))
  {
    if turns != [] {
      PrepareMakesNone(turns[0].refusals);
      LoopMakesNone(turns[1..]);
    }
  }

  /** The program ends with the roundtrip of its destruction, after that of the unlock if there is one,
      and makes no other. */
  lemma {:induction false} ProgramEndsWithRoundtrips(turns: seq<Turn>, unlocks: bool) returns (n: nat)
    ensures var log := ProgramCalls(turns, unlocks);
            && n + 1 + Bit(unlocks) == |log| && NoRoundtrip(log[..n])
            && forall i :: n <= i < |log| ==> log[i] == Roundtrip
  {
    LoopMakesNone(turns);
    n := |LoopCalls(turns)|;
    assert ProgramCalls(turns, unlocks)[..n] == LoopCalls(turns);
  }

  /** The loop makes every turn up to the first that ends it, and no further one. */
  lemma {:induction false} LoopRunsOn(going: seq<Turn>, last: Turn, rest: seq<Turn>)
    requires forall i :: 0 <= i < |going| ==> TurnCalls(going[i]).1
    requires !TurnCalls(last).1
    ensures LoopCalls(going + [last] + rest) == Together(going) + TurnCalls(last).0
  {
    var turns := going + [last] + rest;
    if going == [] {
      assert turns[0] == last;
    } else {
      assert turns[0] == going[0] && turns[1..] == going[1..] + [last] + rest;
      LoopRunsOn(going[1..], last, rest);
      assert TurnCalls(going[0]).0 + (Together(going[1..]) + TurnCalls(last).0)
             == TurnCalls(going[0]).0 + Together(going[1..]) + TurnCalls(last).0;
    }
  }

  /** The calls of all turns, one after the other. */
  ghost function Together(turns: seq<Turn>): seq<Call> {
    if turns == [] then [] else TurnCalls(turns[0]).0 + Together(turns[1..])
  }

  // ----- what follows what, and when the loop ends -----------------------------------------------------

  /** What must follow a call at once: a flush before sleeping, and a dispatch of what is queued. */
  predicate Answered(c: Call, next: Option<Call>) {
    match c
    case PrepareRead(ok) => next == Some(if ok then Flush else DispatchPending)
    case ReadEvents(ok) => ok ==> next == Some(DispatchPending)
    case _ => true
  }

  function At(log: seq<Call>, i: nat): Option<Call> {
    if i < |log| then Some(log[i]) else None
  }

  predicate AnsweredAt(log: seq<Call>, i: nat) {
    i < |log| ==> Answered(log[i], At(log, i + 1))
  }

  ghost predicate Disciplined(log: seq<Call>) {
    forall i: nat :: AnsweredAt(log, i)
  }

  lemma DisciplinedConcat(a: seq<Call>, b: seq<Call>)
    requires Disciplined(a) && Disciplined(b)
    ensures Disciplined(a + b)
  {
    forall i: nat
      ensures AnsweredAt(a + b, i)
    {
      assert if i < |a| then AnsweredAt(a, i) else AnsweredAt(b, i - |a|);
    }
  }

  lemma DisciplinedCons(c: Call, rest: seq<Call>)
    requires Answered(c, At(rest, 0)) && Disciplined(rest)
    ensures Disciplined([c] + rest)
  {
    forall i: nat
      ensures AnsweredAt([c] + rest, i)
    {
      if i > 0 { assert AnsweredAt(rest, i - 1); }
    }
  }

  lemma DisciplinedAfterRefusal(calls: seq<Call>)
    requires Disciplined(calls)
    ensures Disciplined(Refusal + calls)
  {
    DisciplinedCons(DispatchPending, calls);
    DisciplinedCons(PrepareRead(false), [DispatchPending] + calls);
    assert Refusal + calls == [PrepareRead(false)] + ([DispatchPending] + calls);
  }

  lemma {:induction false} PrepareIsDisciplined(refusals: seq<bool>, rest: seq<Call>)
    requires Disciplined(rest)
    requires if PrepareCalls(refusals).1 then rest != [] && rest[0] == Flush else rest == []
    ensures Disciplined(PrepareCalls(refusals).0 + rest)
  {
    if refusals == [] {
      DisciplinedCons(PrepareRead(true), rest);
    } else if refusals[0] {
      var calls := PrepareCalls(refusals[1..]).0;
      PrepareIsDisciplined(refusals[1..], rest);
      DisciplinedAfterRefusal(calls + rest);
      assert Refusal + calls + rest == Refusal + (calls + rest);
    } else {
      DisciplinedAfterRefusal([]);
    }
  }

  lemma {:induction false} TurnIsDisciplined(t: Turn)
    ensures Disciplined(TurnCalls(t).0)
  {
    if !t.expired {
      var rest := if PrepareCalls(t.refusals).1 then ReadCalls(t).0 else [];
      PrepareIsDisciplined(t.refusals, rest);
      assert PrepareCalls(t.refusals).0 + [] == PrepareCalls(t.refusals).0;
    }
  }

  lemma {:induction false} LoopIsDisciplined(turns: seq<Turn>)
    ensures Disciplined(LoopCalls(turns))
  {
    if turns != [] {
      TurnIsDisciplined(turns[0]);
      LoopIsDisciplined(turns[1..]);
      DisciplinedConcat(TurnCalls(turns[0]).0, LoopCalls(turns[1..]));
    }
  }

  /** Over every run: a refused prepare-read and a successful read-events are followed at once by a
      dispatch, and a successful prepare-read by a flush, so that nothing queued is left behind
      when the loop sleeps. */
  lemma {:induction false} ProgramIsDisciplined(turns: seq<Turn>, unlocks: bool)
    ensures Disciplined(ProgramCalls(turns, unlocks))
  {
    LoopIsDisciplined(turns);
    DisciplinedConcat(LoopCalls(turns), if unlocks then [Roundtrip, Roundtrip] else [Roundtrip]);
  }

  lemma {:induction false} PrepareSucceedsIff(refusals: seq<bool>)
    ensures PrepareCalls(refusals).1 <==> forall i :: 0 <= i < |refusals| ==> refusals[i]
  {
    if refusals != [] && refusals[0] { PrepareSucceedsIff(refusals[1..]); }
  }

  /** Exactly which turns let the loop go on: the time is not over, every dispatch and the flush
      succeed, and the wait is interrupted, or brings nothing, or brings no hangup, input that
      is read and dispatched, and no finished lock. */
  lemma {:induction false} LoopGoesOnIff(t: Turn)
    ensures TurnCalls(t).1 <==>
            && !t.expired && (forall i :: 0 <= i < |t.refusals| ==> t.refusals[i]) && !t.flush.FlushFailed?
            && (|| t.wait.Interrupted?
                || (t.wait.Woken?
                    && (|| t.wait.events == []
                        || (!Hangup(t.wait.events) && !t.finished
                            && (Readable(t.wait.events) ==> t.readOk && t.dispatchOk)))))
  {
    PrepareSucceedsIff(t.refusals);
  }

  lemma {:induction false} PrepareReadsNothing(refusals: seq<bool>)
    ensures forall ok :: ReadEvents(ok) !in PrepareCalls(refusals).0
  {
    if refusals != [] { PrepareReadsNothing(refusals[1..]); }
  }

  /** A turn reads events exactly if it gets to its wait, and the wait brings input on the display and
      no hangup. */
  lemma {:induction false} TurnReadsIff(t: Turn)
    ensures ReadEvents(t.readOk) in TurnCalls(t).0 <==>
            && !t.expired && (forall i :: 0 <= i < |t.refusals| ==> t.refusals[i]) && !t.flush.FlushFailed?
            && t.wait.Woken? && !Hangup(t.wait.events) && Readable(t.wait.events)
  {
    PrepareSucceedsIff(t.refusals);
    PrepareReadsNothing(t.refusals);
    if !t.expired && PrepareCalls(t.refusals).1 {
      var read := ReadCalls(t).0;
      assert read[1] in read;
      assert ReadEvents(t.readOk) in TurnCalls(t).0 <==> ReadEvents(t.readOk) in read;
    }
  }

  lemma {:induction false} RunBalances(before: seq<Call>, turns: seq<Turn>, unlocks: bool)
    ensures Drive(Closed, before) == Closed ==> Drive(Closed, before + ProgramCalls(turns, unlocks)) == Closed
  {
    IntentsBalance(turns, unlocks);
    DriveConcat(Closed, before, ProgramCalls(turns, unlocks));
  }

  // ----- the loop itself -------------------------------------------------------------------------------

  /** The scan of the returned events: any hangup or error on the display, and any input on it. */
  method Scan(events: seq<Ready>) returns (error: bool, readable: bool)
    ensures error <==> Hangup(events)
    ensures readable <==> Readable(events)
  {
    error, readable := false, false;
    for i := 0 to |events|
      invariant error <==> exists j :: 0 <= j < i && events[j].onDisplay && events[j].hangup
      invariant readable <==> exists j :: 0 <= j < i && events[j].onDisplay && events[j].readable
    {
      if events[i].onDisplay {
        if events[i].hangup { error := true; }
        if events[i].readable { readable := true; }
      }
    }
  }

  class Display {
    var log: seq<Call>

    constructor ()
      ensures log == []
    {
      log := [];
    }

    method Prepare(refusals: seq<bool>) returns (ok: bool)
      modifies this
      ensures log == old(log) + PrepareCalls(refusals).0 && ok == PrepareCalls(refusals).1
    {
      var i := 0;
      assert refusals[0..] == refusals;
      while i < |refusals|
        invariant 0 <= i <= |refusals|
        invariant var (calls, ok') := PrepareCalls(refusals[i..]);
                  old(log) + PrepareCalls(refusals).0 == log + calls && PrepareCalls(refusals).1 == ok'
      {
        assert refusals[i..][1..] == refusals[i + 1..];
        log := log + Refusal;
        if !refusals[i] { return false; }
        i := i + 1;
      }
      log := log + [PrepareRead(true)];
      return true;
    }

    /** The rest of a turn, after a successful prepare-read. */
    method ReadOrCancel(t: Turn) returns (goOn: bool)
      modifies this
      ensures log == old(log) + ReadCalls(t).0 && goOn == ReadCalls(t).1
    {
      if t.flush.FlushFailed? {
        log := log + [Flush, CancelRead];
        return false;
      }
      if !t.wait.Woken? {
        log := log + [Flush, CancelRead];
        return t.wait.Interrupted?;
      }
      if t.wait.events == [] {
        log := log + [Flush, CancelRead];
        return true;
      }
      var error, readable := Scan(t.wait.events);
      if error {
        log := log + [Flush, CancelRead];
        return false;
      }
      if !readable {
        log := log + [Flush, CancelRead];
        return !t.finished;
      }
      if !t.readOk {
        log := log + [Flush, ReadEvents(false)];
        return false;
      }
      log := log + [Flush, ReadEvents(true), DispatchPending];
      return t.dispatchOk && !t.finished;
    }

    /** The loop of main. */
    method Loop(turns: seq<Turn>)
      modifies this
      ensures log == old(log) + LoopCalls(turns)
    {
      var i := 0;
      assert turns[0..] == turns;
      while i < |turns|
        invariant 0 <= i <= |turns|
        invariant log + LoopCalls(turns[i..]) == old(log) + LoopCalls(turns)
      {
        var t := turns[i];
        assert turns[i..][1..] == turns[i + 1..];
        ghost var was := log;
        if t.expired { break; }
        var prepared := Prepare(t.refusals);
        if !prepared { break; }
        var goOn := ReadOrCancel(t);
        assert log == was + TurnCalls(t).0;
        if !goOn { break; }
        i := i + 1;
      }
    }

    /** The loop of main and what follows it: a display with no open read intent is left with none,
        and no call on the way is refused by libwayland. */
    method Run(turns: seq<Turn>, unlocks: bool)
      modifies this
      ensures log == old(log) + ProgramCalls(turns, unlocks)
      ensures Drive(Closed, old(log)) == Closed ==> Drive(Closed, log) == Closed
    {
      RunBalances(log, turns, unlocks);
      Loop(turns);
      if unlocks { log := log + [Roundtrip]; }
      log := log + [Roundtrip];
      assert log == old(log) + ProgramCalls(turns, unlocks);
    }
  }
}
