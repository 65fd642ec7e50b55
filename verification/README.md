# Verified model of the lock screen's authentication workers and of its Wayland client

Two parts of the repository are modelled here. What they promise is proved of every run; where a promise
fails, the exact condition under which it holds is proved instead, and a run that breaks it is given.

**The authentication workers** (`libs/auth`). `auth::Password` and `auth::Fingerprint` are small
lock-free protocols: a client thread that verifies or starts and finally destroys, any number of
threads that call `stop`, and the worker threads themselves, all meeting on a few atomics. Each is
a transition system (`Password.dfy`, `Fingerprint.dfy`) with one program counter per thread; an
action is one atomic access, one callback, one device call, one exception or one event of the
forked PAM child. Every worker ever spawned and every call of `stop` keeps its own record, so
schedules are of any length and the number of stoppers is unbounded. The theorems speak of all
reachable states. `Coordinator.dfy` composes both systems with the two `on_finish` handlers and the
final decision of the example program. `Conversation.dfy` is the PAM conversation callback, a loop
with a rollback loop over an explicit heap.

**The lock-screen client** (`src`). The surface of one output, its three buffers and the context
with the session lock are modelled twice: as a value with one function per handler (`Buffer.dfy`,
`Surface.dfy`, `Lock.dfy`), about which the theorems are proved, and as classes that change their
fields step by step as the C code does (`Buffer.KlBuffer`, `SurfaceObject.KlSurface`,
`LockObject.KlContext`), each method of which is proved to compute that function. Beside the client
stands the compositor's own record (`Surface.View`, `Lock.View`): what was acked, which buffers are
held, how many events of each kind were exchanged, and whether a rule was ever broken. The rules are
those of `wl_surface.frame`, `wl_buffer.release`, `ext_session_lock_v1` and
`ext_session_lock_surface_v1` (`include/protocols/session-lock.h`). `Ledger.dfy` accounts for every
handle acquired and released. `EventLoop.dfy` is the read-intent discipline of the main loop.

| file | content |
|---|---|
| `Common.dfy`, `Ledger.dfy` | shared notions; resource accounts |
| `Password.dfy` | transition system of `auth::Password` |
| `PasswordInvariants.dfy` | its inductive invariants |
| `PasswordGrammar.dfy` | the language of its callbacks |
| `PasswordFates.dfy` | who may kill a child, which passwords the workers get, what verify and stop achieve |
| `PasswordTheorems.dfy`, `PasswordWitnesses.dfy` | theorems; runs showing that their conditions are needed |
| `Fingerprint.dfy`, `FingerprintTheorems.dfy` | transition system and theorems of `auth::Fingerprint` |
| `FingerprintSignals.dfy`, `FingerprintWitnesses.dfy` | what signals, stops and starts bring about; runs |
| `Coordinator.dfy`, `CoordinatorRuns.dfy` | both workers and the coordinator; how its handlers and main proceed |
| `Conversation.dfy` | `internal_pam_conv` |
| `Buffer.dfy` | `kl_buffer` |
| `Surface.dfy`, `SurfaceTheorems.dfy`, `SurfaceRuns.dfy`, `SurfaceObject.dfy` | `kl_surface`: specification, theorems, class |
| `Lock.dfy`, `LockTheorems.dfy`, `LockRuns.dfy`, `LockObject.dfy` | `kl_context`: specification, theorems, class |
| `EventLoop.dfy` | the loop of `main` |

## Assumptions

- Memory is sequentially consistent; one thread issues `verify`, `start` and the destructor; all
  handlers are set beforehand, do not throw and do not call `verify` or `start`. A `stop` called by
  a handler is one of the arbitrarily many stops, whose steps may be scheduled at that very point.
- Pids are fresh, and `kill` on a dead child does nothing.
- What PAM, fork, waitpid, D-Bus, epoll, memory, mmap, Cairo and libwayland answer is a parameter of
  each step, so every answer is covered, failures included.
- The compositor conforms: `configure` only for an existing lock surface, `done` only for an
  outstanding callback, `release` only for a buffer it holds; at most one `locked`, never after
  `finished`, at most one `finished`; events arrive in the order sent. `finished` after `locked` is
  allowed and its consequence is stated.
- The client asks for a lock only while it holds none (`src/main.c` asks once).

## Findings

- waitpid's result is not checked (`libs/auth/src/password.cpp:161-168`): if it fails, the status
  keeps its initial 0 and `on_finish` is reported though the child has not exited
  (`FailedWaitReportsFinish`). The verdict and grant theorems therefore carry exactly that alternative.
- A verify that wins its CAS while a stopped worker is still finishing loses the flag to that
  worker's last store (`AcceptedVerifyCanCancelItself`), and the overtaken worker may report nothing
  at all (`OverlappedWorkerCanBeSilent`). Both are characterised exactly, from the CASes that
  verifies and stops have won: `VerdictIff` says when a worker reaches a verdict,
  `OvertakingGetsNoVerdict` that a verify which overtakes and is not overtaken never does, and
  `SilentIff` when a worker reports nothing.
- A stop that wins its CAS against one verify and is slow to reach its exchange
  (`libs/auth/src/password.cpp:110-115`) can take and kill the child of the next verify: a password
  that nobody stopped is then refused as wrong (`LateStopRefusesPassword`). `CleanVerdictIsTheChilds`
  says that this is the only way in which a clean verify gets another verdict than its child's.
- A fingerprint worker that breaks off on an error leaves the flag up, so the next start is refused
  until somebody stops it (`FlagOutlivesWorkerIff`; `BrokenWorkerKeepsFlag` is such a run).
- A check session can lapse without on_end when sd_bus_process fails or a stop runs just before the
  flag is raised; `SessionsArePartitioned` says exactly which do, `FailedProcessingLapses` is a run.
- The animation can stall: with no callback outstanding, and no redraw asked for or no buffer left to
  be released, no frame-done or release event ever commits again (`StalledStays`, `StalledRun`). A
  shown surface is in that state exactly if its last render failed and `dirty` is down or no
  buffer is busy (`StalledIff`); `RenderStallsIff` and its companions say when each
  event leads there, and
  `UnmappedBufferStalls` and `RefusedCallbackStalls` are such runs. A failed render that leaves
  `dirty` set and a buffer busy is not a stall: the next release redraws (`ReleaseRedraws`).
- A configure whose width or height times the scale reaches 2^31 is committed with the wrong size
  (`OversizedCommitMismatches`; `CommitsObeyTheRules` is an equivalence).
- After `locked` and then `finished`, `kl_context_destroy` sends `destroy`, where the protocol text
  asks for `unlock_and_destroy` (`include/protocols/session-lock.h:356-358`). The model follows the
  code; `InvalidDestroyIff` and `RunIsInvalidIff` say exactly when this is an error, and
  `FinishedAfterLockedIsInvalid` shows that it happens.

## Model

| member | source | states |
|---|---|---|
| PasswordInvariants.InvStep | libs/auth/src/password.cpp:58-190 | every action of every thread keeps the whole inductive invariant: serial workers, published pid, pending cancels, pids in hand, owner of the candidate, verdicts, reports |
| PasswordInvariants.InvReachable | libs/auth/src/password.cpp:58-190 | hence it holds in every state of every interleaving |
| PasswordInvariants.ControlWorker | libs/auth/src/password.cpp:119-190 | a worker that can move is the last one spawned and the one the client would join |
| PasswordInvariants.CancelsStop | libs/auth/src/password.cpp:108-117 | a step of stop loses no cancel: the pid stays published under a stop still to exchange it, or goes into that stop's hands |
| PasswordInvariants.CancelsWorker | libs/auth/src/password.cpp:152-163 | nor does a step of the worker around publish, re-check, take and wait |
| PasswordInvariants.HandsStop | libs/auth/src/password.cpp:108-117 | an exchange takes a pid nobody else has in hand |
| PasswordInvariants.CandidateWorker | libs/auth/src/password.cpp:72-77 | a worker step keeps the candidate equal to the password of the live worker until it wipes it, and forks a child on exactly that |
| PasswordInvariants.VerdictsWorker | libs/auth/src/password.cpp:161-174 | a worker step reports only what its own child's status says, and nothing before the verdict point |
| PasswordInvariants.ReportWorker | libs/auth/src/password.cpp:119-190 | a worker step keeps the exact account of what the worker has reported |
| PasswordTheorems.WorkersAreSerial | libs/auth/src/password.cpp:87-106 | at most one worker is live in any state, and it is the last one spawned |
| PasswordTheorems.FlagIsNeverStuck | libs/auth/src/password.cpp:87-117 | `is_running_` is true only while a verify is past its CAS or a worker is live |
| PasswordTheorems.CancelIsNeverLost | libs/auth/src/password.cpp:108-163 | while a waiting worker's child is published, the flag is up or a stop is between its CAS and its exchange; a living child is published or in the hands of a stop about to kill it |
| PasswordTheorems.TakenAtMostOnce | libs/auth/src/password.cpp:113-158 | each forked child is taken for killing at most once, by a stop or by the worker, and is in one pair of hands only |
| PasswordTheorems.VerdictMatchesInput | libs/auth/src/password.cpp:161-174 | a verdict speaks of the worker's own child, which was given exactly the password of its verify; it is on_finish exactly if that child exited 0 or waitpid failed, and on_error(AuthFailed) exactly if it was waited for and died otherwise |
| PasswordTheorems.CandidateHasOneOwner | libs/auth/src/password.cpp:72-106 | a non-empty candidate belongs to exactly one party: a verify past its assignment or the one live worker, and is that party's password |
| PasswordTheorems.FlagFollowsHistory | libs/auth/src/password.cpp:87-117 | while a worker is live the flag is up exactly as the verifies and stops that won their CAS say |
| PasswordTheorems.VerdictIff | libs/auth/src/password.cpp:119-174 | an ended worker has said whether the password is right exactly if its fork succeeded and it still held the flag at its verdict load; on_error(System) exactly if the fork failed |
| PasswordTheorems.OvertakingGetsNoVerdict | libs/auth/src/password.cpp:87-106 | a verify that overtook a live worker and was not itself overtaken never gets a verdict; its worker reports a failed fork or a stop |
| PasswordTheorems.SilentIff | libs/auth/src/password.cpp:165-190 | an ended worker has reported nothing exactly if it forked, had lost the flag at its verdict load, and a verify won its CAS between that load and the load before on_stop with no stop winning after it |
| PasswordTheorems.StopReportIff | libs/auth/src/password.cpp:183-186 | an ended worker has called on_stop exactly if it did not hold the flag at the load before it |
| PasswordTheorems.EveryWorkerReports | libs/auth/src/password.cpp:119-190 | so an ended worker during whose life no verify won its CAS has reported a verdict, an error or a stop |
| PasswordTheorems.CleanVerifyGetsVerdict | libs/auth/src/password.cpp:87-190 | a verify that found no live worker, and whose worker was never stopped nor overtaken, gets a verdict exactly if its fork succeeded, and no on_stop |
| PasswordFates.FatesStep | libs/auth/src/password.cpp:108-163 | every action keeps the account of who took which pid, and of the stops that won before which verify |
| PasswordFates.CleanChildIsSpared | libs/auth/src/password.cpp:152-163 | a worker that holds the flag leaves its child alone, and nobody takes it but a stop that won its CAS before that verify |
| PasswordFates.CleanVerdictIsTheChilds | libs/auth/src/password.cpp:154-174 | such a worker's verdict is what its child exited with by itself, exactly unless such a late stop killed it |
| PasswordFates.PasswordsAreThoseAsked | libs/auth/src/password.cpp:87-100 | each worker has the password of one call of verify of the schedule, later workers of later calls |
| PasswordFates.AcceptedIffDown | libs/auth/src/password.cpp:89-91 | a verify is accepted exactly if the flag is down at its CAS; a refused one changes nothing |
| PasswordFates.AcceptedSpawns | libs/auth/src/password.cpp:93-100 | an accepted verify that meets no exception stores its password and spawns its worker |
| PasswordFates.SpawnedWithItsPassword | libs/auth/src/password.cpp:97-99 | the worker spawned finds its own password as the candidate |
| PasswordFates.StopAloneCancels | libs/auth/src/password.cpp:108-117 | a stop that finds the flag up lowers it, takes the published pid and kills that child |
| PasswordFates.StopsAreThoseCalled | libs/auth/src/password.cpp:58-59 | every call of stop in the schedule, the destructor's included, is carried out |
| PasswordTheorems.TeardownStep | libs/auth/src/password.cpp:58-70 | once the destructor's stop has returned, no action raises the flag or the measure, and worker steps and pending stops lower it |
| PasswordTheorems.TeardownIsBounded | libs/auth/src/password.cpp:58-70 | so every schedule makes at most that many productive actions |
| PasswordTheorems.TeardownProgress | libs/auth/src/password.cpp:108-163 | while the worker is live some productive action is enabled that needs nothing from the child |
| PasswordTheorems.TeardownCompletes | libs/auth/src/password.cpp:58-70 | from every teardown state the destructor can run to its end without the child ever exiting by itself |
| PasswordTheorems.TeardownTerminates | libs/auth/src/password.cpp:58-190 | the three together, from every reachable state: the join cannot block forever |
| PasswordGrammar.Decompose | libs/auth/src/password.cpp:119-190 | a trace the automaton accepts is a concatenation of blocks, and what the blocks are |
| PasswordGrammar.InPhaseStep | libs/auth/src/password.cpp:119-190 | every action keeps the trace at the place in its block where the last worker stands |
| PasswordGrammar.CallbackGrammar | libs/auth/src/password.cpp:58-190 | the whole trace is a sequence of non-interleaved blocks (on_begin, at most one of on_finish and on_error, exactly one on_end, at most one on_stop), one per worker in order, with on_delete last |
| PasswordWitnesses.FailedWaitReportsFinish | libs/auth/src/password.cpp:161-168 | a run in which on_finish is reported while the child is alive |
| PasswordWitnesses.OverlappedWorkerCanBeSilent | libs/auth/src/password.cpp:179-190 | a run in which an overtaken worker ends without any report |
| PasswordWitnesses.AcceptedVerifyCanCancelItself | libs/auth/src/password.cpp:87-106 | a run in which an accepted verify, never stopped, kills its own child |
| PasswordWitnesses.LateStopRefusesPassword | libs/auth/src/password.cpp:108-117 | a run in which a late stop kills the child of a verify that was never stopped |
| FingerprintTheorems.InvStep | libs/auth/src/fingerprint.cpp:47-251 | every action keeps the invariant of the fingerprint protocol |
| FingerprintTheorems.WorkersAreSerial | libs/auth/src/fingerprint.cpp:90-125 | at most one worker is live |
| FingerprintTheorems.PostBalances | libs/auth/src/fingerprint.cpp:112-145 | every entry in the session accounts keeps them balanced |
| FingerprintTheorems.PostsStep | libs/auth/src/fingerprint.cpp:127-243 | every action makes one such entry |
| FingerprintTheorems.SessionsAreConserved | libs/auth/src/fingerprint.cpp:112-243 | sessions begun = on_end firings + on_end owed by a thread past its CAS + sessions overwritten or reset + one if a check is in progress; no session is ended twice |
| FingerprintTheorems.SessionsArePartitioned | libs/auth/src/fingerprint.cpp:112-243 | every session begun is exactly one of ended, owed its on_end, open and lapsed; it lapses exactly if neither a stop nor a signal won its CAS on it before the flag was overwritten or reset |
| FingerprintTheorems.FinishNeedsMatch | libs/auth/src/fingerprint.cpp:163-177 | verify-match signals delivered = on_finish callbacks + one about to be made |
| FingerprintSignals.DoneEndsSession | libs/auth/src/fingerprint.cpp:179-185 | a done signal ends its session: the check flag is down and on_end was called or is owed by the thread whose CAS took it |
| FingerprintSignals.EndNeedsDoneOrStop | libs/auth/src/fingerprint.cpp:137-185 | on_end is called only for a session that had a done signal or that a stop took |
| FingerprintSignals.EverythingIsTold | libs/auth/src/fingerprint.cpp:127-225 | every no-match signal, every other signal or failed VerifyStart, every session and every session taken by a stop has exactly its own callback |
| FingerprintSignals.HouseIsKept | libs/auth/src/fingerprint.cpp:47-201 | without a device nothing is asked of it and every worker that breaks off says so; the flag is up only with a worker to join or a start under way; on_delete comes with the end |
| FingerprintSignals.OpenSessionListens | libs/auth/src/fingerprint.cpp:227-232 | while the flag is up and its session open, the worker keeps processing messages |
| FingerprintSignals.EndedSessionRescans | libs/auth/src/fingerprint.cpp:227-250 | once its session is over and the flag still up, it calls VerifyStop and VerifyStart again |
| FingerprintSignals.FailedProcessingGivesUp | libs/auth/src/fingerprint.cpp:228-247 | when processing fails it gives the session up and calls VerifyStop |
| FingerprintSignals.StartIsRefusedIff | libs/auth/src/fingerprint.cpp:92-97 | a start is refused exactly if a worker is unjoined and the flag is up |
| FingerprintSignals.StartSpawns | libs/auth/src/fingerprint.cpp:112-120 | a start that is not refused raises the flag, lowers the check flag, calls on_start and spawns |
| FingerprintSignals.StopAloneEnds | libs/auth/src/fingerprint.cpp:127-137 | a stop lowers both flags and takes an open session |
| FingerprintSignals.StopAloneTells | libs/auth/src/fingerprint.cpp:137-144 | and then calls on_end and on_stop, in that order |
| FingerprintSignals.StopsAreThoseCalled | libs/auth/src/fingerprint.cpp:47-48 | every call of stop in the schedule, the destructor's included, is carried out |
| FingerprintTheorems.WorkerUses | libs/auth/src/fingerprint.cpp:190-251 | each point of the worker leaves the device as the next point expects it |
| FingerprintTheorems.DeviceIsNeverMisused | libs/auth/src/fingerprint.cpp:47-251 | every successful VerifyStart is followed by one VerifyStop before the next VerifyStart or Release; Release only after the worker has ended |
| FingerprintTheorems.OneRestartAfterStop | libs/auth/src/fingerprint.cpp:127-215 | after a stop wins its CAS at most one further VerifyStart until the next start, and the flag stays down |
| FingerprintTheorems.FlagOutlivesWorkerIff | libs/auth/src/fingerprint.cpp:90-125 | the flag outlives a worker exactly when that worker broke off on an error and no stop has won since; start is refused exactly then |
| FingerprintTheorems.TeardownIsBounded | libs/auth/src/fingerprint.cpp:47-58 | after the destructor's stop, the flag stays down and worker steps are bounded by the worker's rank |
| FingerprintTheorems.TeardownCompletes | libs/auth/src/fingerprint.cpp:47-80 | from every teardown state the destructor can run to its end |
| FingerprintTheorems.TeardownTerminates | libs/auth/src/fingerprint.cpp:47-80 | in every schedule the worker makes at most twelve more steps, its next step is enabled while it lives and the destructor's after it, and the destructor can reach its end |
| FingerprintWitnesses.BrokenWorkerKeepsFlag | libs/auth/src/fingerprint.cpp:194-201 | a run in which the worker breaks off, the flag stays up and a second start is refused |
| FingerprintWitnesses.FailedProcessingLapses | libs/auth/src/fingerprint.cpp:222-247 | a run in which sd_bus_process fails and the open session never gets its on_end |
| Coordinator.ComponentsStep | libs/auth/example/main.cpp:101-145 | under the coordinator each worker object runs as it does alone |
| Coordinator.SingleWinner | libs/auth/example/main.cpp:101-145 | once a handler has tried, exactly one has performed the transition of `authenticated`; before, none |
| Coordinator.NeverReverts | libs/auth/example/main.cpp:101-145 | along every continuation the transition stays and its winner is the same |
| Coordinator.WinnerIsJustified | libs/auth/example/main.cpp:101-145 | a password win stands on a worker that called on_finish for a child given its verify's password that exited 0 or whose wait failed; a fingerprint win on a verify-match signal |
| Coordinator.GrantIsJustified | libs/auth/example/main.cpp:225-232 | access granted implies exactly one winner, and that winner's own evidence |
| Coordinator.DecisionIsExact | libs/auth/example/main.cpp:225-232 | the answer is access exactly if a handler has performed the transition by then |
| CoordinatorRuns.WinnerStopsBoth | libs/auth/example/main.cpp:104-108 | when the winner's handler has returned, it has stopped the other side and then its own, both stops have returned, and no other handler has stopped anything |
| CoordinatorRuns.MainStopsBoth | libs/auth/example/main.cpp:214-225 | main decides only after its stops of both sides have returned |
| CoordinatorRuns.EveryFinishTries | libs/auth/example/main.cpp:101-145 | on_finish callbacks = attempts at the transition + handlers about to make theirs |
| CoordinatorRuns.MatchIsGranted | libs/auth/example/main.cpp:101-232 | a run from a verify-match signal to access |
| Conversation.AnswerOne | libs/auth/src/password.cpp:36-47 | a fresh copy for message n extends the answered prefix, and the heap holds exactly the reply and the copies |
| Conversation.DropOne | libs/auth/src/password.cpp:40-42 | freeing the copy of message n leaves exactly the copies before it |
| Conversation.Rollback | libs/auth/src/password.cpp:39-45 | the rollback frees every block of this call once and restores the heap |
| Conversation.AnswerPrompt | libs/auth/src/password.cpp:36-47 | one prompt gets its own copy, or nothing changes |
| Conversation.AnswerMessage | libs/auth/src/password.cpp:35-48 | one turn of the loop extends the answered prefix, exactly unless a prompt's allocation fails |
| Conversation.Fill | libs/auth/src/password.cpp:35-48 | success exactly if no prompt's allocation fails; all prompts answered, or the heap as before |
| Conversation.Converse | libs/auth/src/password.cpp:26-51 | all or nothing: each return code exactly under its condition; on success each prompt has its own copy and every other message none; on failure `*resp` and the heap are as before |
| Buffer.PhysIsExactIff | src/buffer.c:62-102 | the size told to the compositor is logical size times scale exactly when that is below 2^31 |
| Buffer.CreatableIff | src/buffer.c:58-79 | creation is possible exactly if the arguments are positive, every request is granted and the wrapped size in bytes is neither zero nor beyond size_t |
| Buffer.WorkingCreationSucceeds | src/buffer.c:55-154 | with a working environment every size that fits in 31 bits gets its buffer, at any scale |
| Buffer.FinishIsExact | src/buffer.c:100-154 | from the wl_buffer on, success exactly when every request succeeds, and the live handles are those the buffer holds |
| Buffer.CreationIsExact | src/buffer.c:55-154 | the same for the whole creation, whichever of its exits is taken |
| Buffer.DestroyReleasesAll | src/buffer.c:173-206 | destroying releases each handle once, and is idempotent |
| Buffer.DestroyedIsBlank | src/buffer.c:198-205 | a destroyed buffer is as good as new |
| Buffer.KlBuffer.AllocateFile | src/buffer.c:29-53 | an open file, or nothing left behind |
| Buffer.KlBuffer.CreateOver | src/buffer.c:100-154 | the second half of creation refines its specification, on any buffer |
| Buffer.KlBuffer.Create | src/buffer.c:55-154 | so does creation as a whole |
| Buffer.KlBuffer.Destroy | src/buffer.c:173-206 | so does destruction |
| Surface.FreeSlotIsFree | src/surface.c:110-119 | a slot found is free, and none is found exactly when all three are busy |
| Surface.FreeSlotIsNext | src/surface.c:110-119 | it is the first free one after the current slot |
| SurfaceTheorems.RebuiltSlot | src/surface.c:267-276 | only the chosen free slot changes; it ends with a fitting buffer exactly if it had one or one could be created |
| SurfaceTheorems.PresentedIsLawful | src/surface.c:288-320 | a commit breaks no rule and has the acked size exactly when the product fits |
| SurfaceTheorems.RenderedKeeps | src/surface.c:252-321 | rendering keeps the invariant and leaves the surface lively |
| SurfaceTheorems.ReleaseKeeps | src/surface.c:101-108 | so does a buffer release |
| SurfaceTheorems.HandledKeeps | src/surface.c:56-321 | so does every event |
| SurfaceTheorems.CommitsObeyTheRules | src/surface.c:252-321 | in every run every commit follows an ack and carries a buffer not held, no held buffer is drawn to or destroyed except by detach, and sizes match the last ack exactly unless a product reached 2^31 |
| SurfaceRuns.ConfigureApplies | src/surface.c:150-165 | a configure is acked and applied at once, whatever the surface is doing |
| SurfaceRuns.ScaleApplies | src/surface.c:56-65 | a positive factor becomes the scale, any other changes nothing |
| SurfaceRuns.SizeFollowsEvents | src/surface.c:56-165 | in every run the acked size and the surface's own are those of the last configure since the attachment, and the scale is the last positive factor |
| SurfaceRuns.CleanShowsCurrent | src/surface.c:242-321 | in every run a surface that is not dirty shows a frame of its current size and scale |
| SurfaceRuns.AttachAnswersIff | src/surface.c:172-206 | attaching answers well exactly if there was a lock surface or all three requests are granted, and asks for nothing in the first case |
| SurfaceTheorems.AccountsBalance | src/surface.c:74-108 | commits = frame-done events + callback failures + one if pending = releases + busy buffers; pending exactly when the callback is set |
| SurfaceTheorems.AnimationNeverStalls | src/surface.c:242-321 | a shown surface whose last render did not fail has a callback outstanding, or all buffers busy with dirty set |
| SurfaceTheorems.ReleaseRedraws | src/surface.c:101-108 | a shown surface without a callback that has not stalled is redrawn by the next release, or that attempt fails |
| SurfaceTheorems.StalledIff | src/surface.c:252-321 | exactly when a shown surface has stalled: its last render failed, and dirty is down or no buffer is busy |
| SurfaceTheorems.StalledStays | src/surface.c:101-108 | no frame-done or release event redraws a stalled surface or ends the stall |
| SurfaceTheorems.StalledRun | src/surface.c:74-108 | nor does any sequence of them |
| SurfaceTheorems.RenderFailsIff | src/surface.c:252-321 | a render fails exactly if the free buffer neither fits nor can be created anew, or the callback is not granted |
| SurfaceTheorems.RenderStallsIff | src/surface.c:252-321 | exactly when a render leaves a shown surface stalled |
| SurfaceTheorems.DoneStallsIff | src/surface.c:74-95 | the same for a frame-done, whether or not a redraw was asked for meanwhile |
| SurfaceTheorems.RequestStallsIff | src/surface.c:242-250 | a request stalls exactly if no buffer is busy and the next one cannot be made to fit |
| SurfaceTheorems.ConfigureStallsIff | src/surface.c:150-165 | so does a configure, for the new size |
| SurfaceTheorems.ScaleStallsIff | src/surface.c:56-65 | and a scale event, for the new scale |
| SurfaceTheorems.ReleaseStallsIff | src/surface.c:101-108 | a release stalls exactly if it gives back the last buffer and the next one cannot be made to fit |
| SurfaceTheorems.UnmappedBufferStalls | src/surface.c:267-276 | a run in which the first configure stalls the surface |
| SurfaceTheorems.RefusedCallbackStalls | src/surface.c:300-306 | a run in which a frame-done stalls it |
| SurfaceTheorems.OversizedCommitMismatches | src/buffer.c:62-102 | a run that commits a buffer of the wrong size |
| SurfaceTheorems.DestroyReleasesAll | src/surface.c:323-346 | after any run, destroying releases every handle the surface and its buffers ever acquired, each once; destroying again changes nothing |
| SurfaceObject.KlSurface.constructor | src/surface.c:140-148 | a new surface is the specified fresh one |
| SurfaceObject.KlSurface.GetFreeBuffer | src/surface.c:110-119 | the search loop finds the first free slot after the current one |
| SurfaceObject.KlSurface.Rebuild | src/surface.c:267-276 | destroys and creates the chosen buffer as specified |
| SurfaceObject.KlSurface.TakeAnswer | src/surface.c:300-319 | what each of the three answers to the frame request does to the fields |
| SurfaceObject.KlSurface.AwaitFrame | src/surface.c:300-319 | and so refines the specified answer |
| SurfaceObject.KlSurface.RenderFrame | src/surface.c:252-321 | refines the specified render |
| SurfaceObject.KlSurface.RequestRender | src/surface.c:242-250 | refines the specified request |
| SurfaceObject.KlSurface.HandleScale | src/surface.c:56-65 | refines the scale handler; afterwards the scale is the last positive factor |
| SurfaceObject.KlSurface.HandleDone | src/surface.c:74-95 | refines the frame-done handler |
| SurfaceObject.KlSurface.HandleRelease | src/buffer.c:12-23 | refines the release handler with the surface's hook |
| SurfaceObject.KlSurface.HandleConfigure | src/surface.c:150-165 | refines the configure handler; afterwards the size is the event's and acked |
| SurfaceObject.KlSurface.AttachLock | src/surface.c:172-206 | refines attaching, with its guard and each of its failures |
| SurfaceObject.KlSurface.DestroyBuffers | src/surface.c:218-220 | the loop destroys all three buffers |
| SurfaceObject.KlSurface.DetachLock | src/surface.c:208-240 | refines detaching |
| SurfaceObject.KlSurface.Destroy | src/surface.c:323-346 | refines destruction |
| SurfaceObject.KlSurface.Dispatch | src/surface.c:56-321 | any event moves the object as specified and keeps every invariant |
| Lock.Find | src/lock.c:111-117 | the listed output with a registry name, or none has it |
| LockTheorems.AttachAllCovers | src/lock.c:195-200 | the attach loop requests at most one lock surface per output, none it already has, and covers all outputs unless one attempt fails |
| LockTheorems.InvStep | src/lock.c:9-292 | every handler, call and surface event keeps the invariant of the context |
| LockTheorems.LockIsTerminatedOnce | src/lock.c:217-261 | every lock object ever created has had no terminating request while held and exactly one afterwards; no unlock before locked was received |
| LockTheorems.InvalidDestroyIff | src/lock.c:254-261 | the exact condition under which destroying provokes INVALID_DESTROY |
| LockTheorems.RunIsInvalidIff | src/lock.c:217-261 | the same over whole runs, for every lock object, and INVALID_UNLOCK never |
| LockTheorems.UnlockIsAlwaysValid | src/lock.c:217-232 | unlocking never provokes a protocol error |
| LockTheorems.OrderlyEndIsValid | src/lock.c:202-261 | with no finished after locked and the lock settled, destroying provokes no error |
| LockTheorems.EveryOutputIsCovered | src/lock.c:45-73 | under any additions and removals, while a lock is held and not finished and no attachment failed, every listed output has a lock surface |
| LockRuns.GrantedRunsAreCovered | src/lock.c:45-73 | the same from the answers: in every run in which all attachments are granted, every listed output of a held, unfinished lock is covered |
| LockTheorems.NoDuplicateLockSurface | src/surface.c:172-206 | no output is ever requested two lock surfaces under one lock object |
| LockTheorems.NoLateLockSurface | src/lock.c:66-73 | no lock surface is requested of a lock that has finished or was ended |
| LockTheorems.ReturnedOne | src/surface.c:335-343 | destroying a listed surface releases its wl_output, once |
| LockTheorems.PooledAdd | src/lock.c:46-64 | a bound wl_output is listed, or released at once if no surface could be made |
| LockTheorems.NothingLeaks | src/lock.c:45-118 | the wl_outputs live are exactly those listed and none was released twice; every surface destroyed had released all it had acquired; the final destroy leaves none and is idempotent |
| LockRuns.AddedIsListed | src/lock.c:45-64 | a new output is listed in front under its own name with a fresh wl_output, and the others stay |
| LockRuns.RemovedIsNamed | src/lock.c:99-118 | with distinct names, removal takes exactly the entry so named and destroys its surface |
| LockRuns.NamesFollowEvents | src/lock.c:45-118 | in every run the outputs listed are, in order, those added and not removed since |
| LockRuns.LockSucceedsIff | src/lock.c:174-200 | exactly when locking gets as far as waiting for the answer, and that every output is then covered |
| LockRuns.UnlockSucceedsIff | src/lock.c:217-232 | exactly when unlocking succeeds, and that no output is covered afterwards |
| LockTheorems.FinishedAfterLockedIsInvalid | src/lock.c:254-259 | a run that provokes INVALID_DESTROY |
| LockObject.KlContext.HandleOutput | src/lock.c:45-73 | refines adding an output, with hotplug attachment |
| LockObject.KlContext.HandleRemove | src/lock.c:99-118 | refines removing an output: the first entry so named goes, and only that one |
| LockObject.KlContext.RemoveFirst | src/lock.c:111-117 | its search loop |
| LockObject.KlContext.HandleLocked | src/lock.c:9-17 | refines receiving locked and keeps the invariant; unlocking is then allowed |
| LockObject.KlContext.HandleFinished | src/lock.c:19-28 | refines receiving finished and keeps the invariant; unlocking is then refused |
| LockObject.KlContext.AttachEntry | src/surface.c:172-206 | one attachment, and what the compositor sees of it |
| LockObject.KlContext.AttachSurfaces | src/lock.c:195-200 | the loop attaches in list order and stops at the first failure |
| LockObject.KlContext.LockSession | src/lock.c:174-200 | refines locking up to its dispatch loop |
| LockObject.KlContext.UnlockSession | src/lock.c:217-232 | refines unlocking |
| LockObject.KlContext.DestroyEntry | src/surface.c:323-346 | destroys one surface and gives its wl_output back |
| LockObject.KlContext.DestroySurfaces | src/lock.c:249-252 | the loop destroys every listed surface once |
| LockObject.KlContext.EndLock | src/lock.c:254-261 | the lock held, if any, gets its one terminating request |
| LockObject.KlContext.Destroy | src/lock.c:242-261 | refines destruction |
| LockObject.KlContext.Dispatch | src/lock.c:9-261 | any event or call moves the object as specified and keeps every invariant |
| LockObject.KlContext.DispatchTo | src/surface.c:56-321 | a surface object with the value listed handles an event in step with the list |
| EventLoop.AcceptedIsBalanced | src/main.c:87-164 | any call log libwayland accepts has consumed every successful prepare-read once, but for one still open |
| EventLoop.IntentsBalance | src/main.c:87-174 | over every run of the loop and every exit, each successful prepare-read is consumed by exactly one cancel-read or read-events before the next prepare-read and before the roundtrips |
| EventLoop.ProgramIsDisciplined | src/main.c:94-155 | a refused prepare-read and a successful read-events are followed at once by a dispatch, a successful prepare-read by a flush |
| EventLoop.LoopGoesOnIff | src/main.c:87-164 | exactly which turns let the loop go on |
| EventLoop.LoopRunsOn | src/main.c:87-164 | the loop makes every turn up to the first that ends it, and no further one |
| EventLoop.TurnReadsIff | src/main.c:126-157 | a turn reads events exactly if its wait brings input on the display and no hangup |
| EventLoop.ProgramEndsWithRoundtrips | src/main.c:166-174 | the program ends with the roundtrips of unlock and destruction, and makes no other |
| EventLoop.Scan | src/main.c:126-138 | the scan reports a hangup, and input, exactly if some event on the display carries it |
| EventLoop.Display.Prepare | src/main.c:94-99 | the inner loop makes the specified calls |
| EventLoop.Display.ReadOrCancel | src/main.c:101-163 | each exit of a turn makes the specified calls |
| EventLoop.Display.Loop | src/main.c:87-164 | the loop makes the specified calls |
| EventLoop.Display.Run | src/main.c:87-174 | so does the whole program; a display with no open read intent is left with none and no call is refused |

## Left out

- `auth.back/`: an older C copy of the same protocols.
- `src/render.c` and all drawing: a draw is a write to the chosen buffer.
- The cancel pipe: it only shortens a wait that also times out.
- Time, sleeping, terminal setup, signals, printing, `on_init`, `get_username` and the like.
- The line editing of the example's main loop: which verify calls it makes is left open, so all are covered.
- Pid reuse and weak memory: see the assumptions.
- LockObject.KlContext.Destroy: does not account for the lock-manager, shm, compositor, registry and display proxies of `src/lock.c:263-287`, nor their roundtrip, which are plain null-guarded releases.
- SurfaceObject.KlSurface.constructor: the failures of calloc and of the engine (`src/surface.c:123-138`) are the answer `created` of `Lock.Added`, which then makes no surface.
- The registry, display, compositor, shm and lock-manager proxies are one flag (`ready`); their own destruction is not accounted for.
- Aliasing between the context's list and the surface objects: `LockObject.KlContext` holds each surface as a value and calls the functions that `SurfaceObject.KlSurface` refines; `DispatchTo` shows one object staying in step with its entry.
- The order of requests inside `kl_surface_detach_lock`: the compositor's record closes the attachment in one step (`Leave`), as the buffers destroyed there may still be held.
- The dispatch loop of `kl_context_lock_session`: the events it dispatches are actions of the model, and `Settled` is what its normal return establishes.
- The 32-bit bound on configured sizes and scales: the surface theorems hold for all sizes; only the products are wrapped.
- Liveness of the scheduler: the teardown theorems bound the steps and show that one is enabled; that an enabled thread is eventually scheduled is assumed by any such claim.
