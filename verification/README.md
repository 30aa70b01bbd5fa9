# Wattpilot integration: model and proofs

A Dafny model of the stateful parts of the Fronius Wattpilot integration for Home Assistant, and
proofs of what they keep over whole runs. `dafny verify dfyconfig.toml` checks all of it.

## How it is modelled

Each part has a specification over values, an object with the program's own fields whose methods
are proved against it, and theorems about all runs of it. In the concurrent parts one event of the
model is the code between two `await` points.

| part | specification | object | theorems |
|---|---|---|---|
| connection lifecycle | Lifecycle, LifecycleInvariant | ConnectionObject | LifecycleSafety, LifecycleTheorems, LifecycleSteps, LifecycleFinal, LifecycleSignIn, LifecycleProgress, LifecycleRecovery, LifecycleRefusals, LifecycleRuns |
| protocol client, commands | Client | ClientObject | ClientTheorems, CommandTheorems |
| connection and client together | Joint | (two objects above) | JointTheorems, JointRuns, SameSocket (with Chunks) |
| firmware wait | FirmwareWait | (its loop is there) | FirmwareWait, FirmwareWaitTheorems |
| hub and entities | Hub | HubObject | HubTheorems, HubAvailability, HubReconnect |
| session and total energy | Holds | Holds | HoldTheorems |
| average power | AveragePower | AveragePowerObject | AveragePowerTheorems |
| registry rewrite | Registry | (its loops are there) | RegistryTheorems |
| salt encoding | BcryptBase64, BcryptSalt | (their methods are there) | BcryptBase64Theorems, BcryptAlphabet, BcryptSalt |
| entry identity | Identity | IdentityObject | IdentityTheorems, IdentityFlows |

Rules of the environment in the lifecycle: a cancelled task's next step is its termination, with its
`finally` and `except` blocks; a task woken by an event runs before any timer expires; the end of
the frame iteration means the socket is closed; `socket.close()` leaves the socket closed even when
it raises; `connect` fails, or hands over a socket in the step that assigns it. Time, the network
and the user's actions are events or parameters; readings and waits are real numbers.

## Where the code does less than its documentation says

Each of these is proved with a concrete run; beside it stands the exact condition under which the
promise holds.

- A refused socket can be read again: after a non-final refusal, a reconnect that raises leaves the
  loop at the frames of the old socket with the refusal already cleared
  (RefusedSocketCanBeReadAgain, RefusedSocketIsNotReadAgain, RaisedRetryReadsOn).
- A reader whose reconnect raises anything the loop does not catch is dead, but still counts as the
  owner: nothing reconnects any more, and resume_reconnecting() does not help
  (RetryCanCrash, RecoveryIsKept, FailedWaitLeavesARetry, CrashEndsRecovery).
- A `connect()` that returns while a disconnect or shutdown has begun announces the charger as
  available although `available` is false (LateConnectAnnouncesInVain, AnnouncedIsAvailable).
- A total that shows unknown when its entry reloads is not restored, and may fall by any amount
  (UnknownAtReloadForgets, TotalFallsExactly).
- An unusable average under live power makes the sensor forget which average is stale, and the stale
  one is shown (UnusableForgetsStale, StaleShowsExactly).
- An install that notes the close count while a close is under way can open the connection after a
  later close (AttemptCanFollowAClose, StartsLateExactly, AttemptsFollowNoClose). The run needs
  close() to be called while the last step of an opening attempt is queued already: the closing task
  then finds the attempt ended but not yet forgotten and waits on it for some turns of the loop
  (connection.py:271-275), and the answer to the install's command is handled in one of them.
- An open() can return normally to a connection that is gone again (OpenCanReturnSignedOut): it is
  signed in exactly if some step of the attempt's last wait signed it in, or the attempt found it so,
  and none since ended the frames, refused, or ended a reader by cancelling it
  (OpenReturnsSignedInExactly). The run needs a peer whose sign-in frame, status and end of connection
  are all there before the attempt runs again.

## Model

| member | source | states |
|---|---|---|
| LifecycleSafety.RunKeepsInv | custom_components/wattpilot/api/connection.py:160-320 | every state that any interleaving of opens, closes, caller cancellations, resumes, reader, guard and peer steps can reach keeps the whole invariant |
| LifecycleSafety.StepKeepsInv | custom_components/wattpilot/api/connection.py:160-437 | each atomic block, taken from any state of the invariant, keeps it |
| LifecycleTheorems.SingleOwner | custom_components/wattpilot/api/connection.py:179-320 | in every reachable state at most one reader may act and it is the connection's own; only the current socket can be open; an open socket has a live reader unless a close of it is under way |
| LifecycleTheorems.GuardClosesItsOwnSocket | custom_components/wattpilot/api/connection.py:339-361 | a readiness guard closes nothing but the socket it was started beside, and fires only while the status is incomplete |
| LifecycleTheorems.CloseLeavesQuiet | custom_components/wattpilot/api/connection.py:262-320 | a close whose task has ended leaves no reader, no socket, no unfinished attempt, no guard and no sign-in |
| LifecycleTheorems.CloseWins | custom_components/wattpilot/api/connection.py:162-177 | after a finished close nothing runs and nothing is open in any later state until open() is called, whatever resumes, left-over tasks and further closes do |
| LifecycleTheorems.QuietStays | custom_components/wattpilot/api/connection.py:221-239 | no step other than open() leaves the quiet state |
| LifecycleTheorems.StopFlagMoves | custom_components/wattpilot/api/connection.py:262-269 | only open() clears the stop flag, only close() sets it, and the close count counts exactly the calls of close() |
| LifecycleTheorems.OpenReturnsReady | custom_components/wattpilot/api/connection.py:179-219 | an opening attempt ends normally only with the full status in and no refusal recorded, and then its reader is live, exactly unless it has left its loop with reconnecting switched off; if the connection is signed in, that reader reads the current socket; when it is signed in says OpenReturnsSignedInExactly |
| LifecycleSignIn.OpenReturnsSignedInExactly | custom_components/wattpilot/api/connection.py:197-219 | an attempt that ends normally leaves the connection signed in if and only if a frame signed it in during the attempt's last wait, or the attempt found it signed in, and after that nothing ended the frames, refused, or met the cancellation of a reader that had begun |
| LifecycleSignIn.WaitMovesSignIn | custom_components/wattpilot/api/connection.py:104-118 | one step of that wait, whoever takes it: signed in afterwards exactly if the step signed in, or it was signed in before and the step is none of those endings |
| LifecycleRuns.OpenCanReturnSignedOut | custom_components/wattpilot/api/connection.py:200-219 | a concrete run from the start: the sign-in, the complete status and the end of the frames are all handled before the attempt runs again, and open() returns normally with nobody signed in |
| LifecycleTheorems.UnownedMeansNobodyReads | custom_components/wattpilot/api/connection.py:230-239 | where nobody owns the reader there is no live reader and no unfinished attempt, and unless a close is under way no socket and no sign-in: a reader started there can race with nobody |
| LifecycleProgress.CloseNeverHangs | custom_components/wattpilot/api/connection.py:262-320 | from every reachable state under a deliberate close, at most ten steps of the connection's own tasks end it, with nothing running and nothing open |
| LifecycleProgress.CloseAdvances | custom_components/wattpilot/api/connection.py:271-275 | an unfinished close always has a step of an own task that brings it nearer to its end |
| LifecycleProgress.EveryScheduleEndsTheClose | custom_components/wattpilot/api/connection.py:262-320 | under every schedule: while a close is under way nobody's step adds to the work it has left, a step that lessens it is always enabled, and at most ten such steps fit before it ends |
| LifecycleRecovery.FailedOpenKeepsAReader | custom_components/wattpilot/api/connection.py:179-195 | an attempt that began with a reader and ends by failure, timeout or cancellation leaves exactly one live reader, unless a close or a final refusal forbids it; both for the signed-in and the fresh-socket branch |
| LifecycleRecovery.FailedEnd | custom_components/wattpilot/api/connection.py:190-195 | however an attempt fails: it never ran and changed nothing, or it hands its reader back |
| LifecycleRecovery.RecoveryIsKept | custom_components/wattpilot/api/connection.py:190-239 | once an open() returned normally, then in every later state without an open() under way, until a close() or a final refusal, the connection has a live reader, exactly unless the reconnect of that reader raised what the loop does not catch |
| LifecycleRecovery.CrashedExactly | custom_components/wattpilot/api/connection.py:408-437 | a reader counts as crashed exactly if its reconnect raised that way before |
| LifecycleRecovery.CrashEndsRecovery | custom_components/wattpilot/api/connection.py:221-239 | after such a crash with no open() under way nobody reads, nothing is open and nobody is signed in, and resume_reconnecting() changes nothing, in every state until open() or close() is called |
| LifecycleRuns.RetryCanCrash | custom_components/wattpilot/api/connection.py:429-437 | a concrete run from the start that ends so, neither closed nor refused |
| LifecycleRecovery.OwedStep | custom_components/wattpilot/api/connection.py:179-239 | one step of that promise, for the tasks: a reader task stays stored, or the attempt under way remembers that there was one and hands it back |
| LifecycleRecovery.BackoffLaw | custom_components/wattpilot/api/connection.py:405-437 | in every reachable state the next wait is min(dmin * 2^k, dmax) for the k cycles since a complete status or the start of the loop, it lies in [dmin, dmax], and a waiting reader waits exactly that long |
| LifecycleRecovery.DelayStep | custom_components/wattpilot/api/connection.py:141-145 | a single step sets the wait to dmin exactly when a status completes or the loop starts, doubles it up to dmax exactly when a wait is over, and leaves it alone otherwise -- a socket that merely connects included |
| LifecycleRefusals.RefusalAndEventsAgree | custom_components/wattpilot/api/connection.py:100-158 | in every reachable state a recorded refusal excludes signed-in, the disconnected event is the negation of signed-in, and the authenticated and initialised events imply their flag or a refusal |
| LifecycleRefusals.RefusedSocketIsNotReadAgain | custom_components/wattpilot/api/connection.py:384-389 | once a frame of a socket led to a refusal, another frame of that socket is handled only if a reconnect raised in between |
| LifecycleRefusals.RaisedRetryReadsOn | custom_components/wattpilot/api/connection.py:429-435 | and a reconnect that raised always has that effect: the loop can handle frames of the socket it still holds, because begin() has cleared the refusal |
| LifecycleRefusals.RefusedSocketCanBeReadAgain | custom_components/wattpilot/api/connection.py:409-435 | a concrete run from the start in which that happens after a non-final refusal |
| LifecycleFinal.FinalRefusalStands | custom_components/wattpilot/api/connection.py:405-427 | over runs, from a frame that refuses for good until the next attempt starts: the refusal stands, no reader's wait ends in another try, no reconnect comes to an end, and nobody is handed a socket |
| LifecycleFinal.NobodyRetriesARefusal | custom_components/wattpilot/api/connection.py:417-423 | in every reachable state a reader waits for its reconnect only where reconnecting is on and the charger did not refuse for good |
| LifecycleFinal.FramesOver | custom_components/wattpilot/api/connection.py:415-427 | where the frames are over the loop is left exactly if reconnecting is off or the charger refused for good; otherwise the reader waits the current delay; either way nobody is signed in |
| LifecycleFinal.ReadsOn | custom_components/wattpilot/api/connection.py:380-384 | a started loop, a reconnect and one that raised go on to the frames of the current socket, or without one as if its frames were over |
| LifecycleSteps.CallsJoin | custom_components/wattpilot/api/connection.py:277-288 | open() joins the attempt under way or starts one, close() joins the closing task or starts one, and neither touches anything else |
| LifecycleSteps.CancellingTakesTheAttempt | custom_components/wattpilot/api/connection.py:162-177 | a cancelled caller cancels the attempt, whose only next step is its cancellation |
| LifecycleSteps.ResumeStartsAReader | custom_components/wattpilot/api/connection.py:221-239 | a resume starts a reader if and only if the connection is not stopped, not refused for good, nobody owns the reader and reconnecting is on |
| LifecycleSteps.NoWakeUpIsLost | custom_components/wattpilot/api/connection.py:329-337 | over runs: from the frame an attempt waits for -- the sign-in, the complete status, or a refusal -- until its own next step it stays woken up, whatever anybody clears meanwhile, so that step is no timeout |
| LifecycleSteps.AttemptStarts | custom_components/wattpilot/api/connection.py:179-208 | the first block of an attempt ends at once on a connection that is signed in and complete, waits for the status on one that is signed in, stops a reader it finds, and connects otherwise |
| LifecycleSteps.AttemptGetsSocket | custom_components/wattpilot/api/connection.py:206-214 | a socket handed over is the current open one, with a new reader and a waiting attempt in the same step |
| LifecycleSteps.AttemptGivesBack | custom_components/wattpilot/api/connection.py:190-195 | an attempt that fails to connect starts a reader if and only if it had one and nothing forbids it |
| LifecycleSteps.AttemptGoesOn | custom_components/wattpilot/api/connection.py:197-219 | woken up, the attempt ends normally exactly after its wait for the status with no refusal recorded, and goes on to that wait exactly after the sign-in |
| LifecycleSteps.AttemptHasClosed | custom_components/wattpilot/api/connection.py:296-320 | a close inside the attempt that went through leads on to connecting where it was for a fresh socket, and any other to the attempt's failure; the socket, the sign-in and the completed-status event are gone |
| LifecycleSteps.CancellationReachesTheAttempt | custom_components/wattpilot/api/connection.py:364-376 | where a cancellation leaves the attempt, at each await it can stand at |
| LifecycleSteps.CancellationReachesTheReader | custom_components/wattpilot/api/connection.py:405-437 | a cancelled reader ends as cancelled and signs out, unless it never began, and no other reader is touched |
| LifecycleSteps.DoneIsForgotten | custom_components/wattpilot/api/connection.py:290-294 | forgetting a task that is done changes nothing else |
| LifecycleSteps.GuardIsGivenUp | custom_components/wattpilot/api/connection.py:339-343 | begin() and _close() give up the readiness guard and cancel it |
| LifecycleSteps.ReconnectStartsAGuard | custom_components/wattpilot/api/connection.py:431-432 | a reconnect makes its socket the current open one and starts a live readiness guard beside it |
| LifecycleSteps.GuardSteps | custom_components/wattpilot/api/connection.py:345-361 | a guard whose time is up goes on to close the current socket, closes exactly that one, and ends; one satisfied or cancelled before closes none |
| ConnectionObject.Connection.constructor | custom_components/wattpilot/api/connection.py:56-84 | a new connection is the initial state and satisfies the invariant |
| ConnectionObject.Connection.SetAuthenticated | custom_components/wattpilot/api/connection.py:104-118 | moves the sign-in and the two events that mirror it, and nothing else |
| ConnectionObject.Connection.ReceiveFullStatus | custom_components/wattpilot/api/connection.py:124-128 | a chunk opens or closes the stream; the last one completes the status |
| ConnectionObject.Connection.ReceiveDeltaStatus | custom_components/wattpilot/api/connection.py:130-139 | a delta completes the status only outside a stream |
| ConnectionObject.Connection.MarkInitialized | custom_components/wattpilot/api/connection.py:141-145 | completes the status and returns the next wait to its minimum |
| ConnectionObject.Connection.Fail | custom_components/wattpilot/api/connection.py:147-152 | records the refusal, signs out, and wakes both waits |
| ConnectionObject.Connection.Reject | custom_components/wattpilot/api/connection.py:154-158 | the first block of a refusal, as a step that keeps the invariant |
| ConnectionObject.Connection.Open | custom_components/wattpilot/api/connection.py:162-168 | open() once no close is under way: clears the stop flag, joins or starts the one attempt, keeps the invariant |
| ConnectionObject.Connection.OpenAttempt | custom_components/wattpilot/api/connection.py:179-208 | the first block of the attempt in all its branches, keeping the invariant |
| ConnectionObject.Connection.FinishInitialization | custom_components/wattpilot/api/connection.py:197-204 | ends at once with the status complete, otherwise waits for it |
| ConnectionObject.Connection.ReplaceReader | custom_components/wattpilot/api/connection.py:187-188 | the reader of a socket to be replaced is stopped first, in the same block |
| ConnectionObject.Connection.OpenSocket | custom_components/wattpilot/api/connection.py:206-214 | a connected socket gets its reader in the same step, keeping the invariant |
| ConnectionObject.Connection.OpenFails | custom_components/wattpilot/api/connection.py:190-195 | a failed connect hands the reader back, keeping the invariant |
| ConnectionObject.Connection.ResumeReconnecting | custom_components/wattpilot/api/connection.py:221-229 | starts a reader exactly when not stopped, not refused for good, not owned and reconnecting is on; keeps the invariant |
| ConnectionObject.Connection.Begin | custom_components/wattpilot/api/connection.py:241-260 | resets everything that belongs to one connection |
| ConnectionObject.Connection.Close | custom_components/wattpilot/api/connection.py:262-269 | announces the close before anything is awaited and joins or starts the one closing task; keeps the invariant |
| ConnectionObject.Connection.CancelAndClose | custom_components/wattpilot/api/connection.py:271-275 | the first block of the closing task: cancels the attempt, or starts closing at once; keeps the invariant |
| ConnectionObject.Connection.StopReader | custom_components/wattpilot/api/connection.py:296-303 | the reader is cancelled and given up in one step |
| ConnectionObject.Connection.FinishClose | custom_components/wattpilot/api/connection.py:313-320 | after the last await there is no socket, no sign-in and no completed-status event |
| ConnectionObject.Connection.StartLoop | custom_components/wattpilot/api/connection.py:405-411 | a started reader begins at its minimal wait and reads the socket, or falls through to the backoff without one |
| ConnectionObject.Connection.AfterFrames | custom_components/wattpilot/api/connection.py:415-427 | the end of the frames signs out and leads to the backoff, or to the end of the loop |
| ConnectionObject.Connection.BackoffEnds | custom_components/wattpilot/api/connection.py:427-430 | doubles the next wait up to its maximum and begins anew |
| ConnectionObject.Connection.Reconnect | custom_components/wattpilot/api/connection.py:431-432 | a new socket and its readiness guard in one step |
| ConnectionObject.Connection.GuardTimeout | custom_components/wattpilot/api/connection.py:345-361 | the guard whose time is up begins to close the current socket |
| Client.HandlingIsAReaderStep | custom_components/wattpilot/api/client.py:593-687 | handling any frame moves the connection's flags exactly as the lifecycle's reader step does |
| JointTheorems.SidesAgree | custom_components/wattpilot/api/connection.py:100-158 | in every state of every joint run of the connection and its client the two sides agree on sign-in, status, refusal and events (the latches of a waiting attempt aside) |
| JointTheorems.StepKeepsAgreement | custom_components/wattpilot/api/connection.py:241-320 | one step of that: begin(), the last block of _close(), a sign-out and a handled frame move the flags of both sides alike, wherever in the tasks they happen |
| JointRuns.RunHasItsClient | custom_components/wattpilot/api/client.py:593-608 | every run of the connection, step by step, is the connection's side of a joint run with a client of any serial |
| JointRuns.ConnectionSide | custom_components/wattpilot/api/connection.py:160-437 | the connection's steps of a joint run, by themselves, are a run of the connection to the same state |
| JointRuns.ClientSide | custom_components/wattpilot/api/client.py:344-359 | what the client takes of a joint run, flattened, is a run of the client that passes through the client of every joint state: what is proved of either side holds in joint runs |
| SameSocket.AcceptedOverItsSocket | custom_components/wattpilot/api/client.py:763-787 | a caller that waits returns normally only if a reader handled the accepting answer to its command, after it was sent; and if a socket was open when it was sent, that reader read this very socket |
| SameSocket.SocketStays | custom_components/wattpilot/api/connection.py:241-260 | from a state with an open socket the connection keeps that socket until the next begin() or the last block of a close |
| ClientTheorems.SerialNeverChanges | custom_components/wattpilot/api/client.py:622-649 | a non-empty serial never changes, across any number of reconnects |
| ClientTheorems.SerialIsTheFirst | custom_components/wattpilot/api/client.py:622-649 | in every state of every run the serial is the one given at the start, or else the first one a handled hello reported |
| ClientTheorems.RefusesExactly | custom_components/wattpilot/api/client.py:610-678 | a handled frame refuses the connection if and only if it is a hello without a serial or with another charger's, a sign-in request that cannot be answered, or rejected credentials -- and for good exactly for another charger's serial, an unknown hash in an otherwise usable request, and rejected credentials |
| ClientTheorems.SignedInExactly | custom_components/wattpilot/api/client.py:670-678 | in every state of every run: signed in if and only if credentials were accepted and since then no frame refused, no reader ended and no close finished |
| ClientTheorems.EventsStep | custom_components/wattpilot/api/connection.py:104-158 | every step's effect on the events that waiters wait on: a sign-in sets the first, a complete status the second, a refusal both; begin() and a close clear both, a sign-out the first |
| ClientTheorems.RefusalHoldsUntilBegin | custom_components/wattpilot/api/connection.py:384-389 | from a recorded refusal to the next begin() the refusal, the cache and the serial stay as they are and nobody is signed in |
| ClientTheorems.RefusedMeansSignedOut | custom_components/wattpilot/api/connection.py:147-152 | in every state of every run a recorded refusal excludes signed-in |
| ClientTheorems.InitializedExactly | custom_components/wattpilot/api/connection.py:124-145 | `initialized` holds exactly when, since the latest begin(), a final chunk was handled, or a delta while no partial stream was open |
| ClientTheorems.StreamingIsStreamOpen | custom_components/wattpilot/api/connection.py:124-128 | a stream counts as open exactly while the latest chunk since begin() announced more |
| ClientTheorems.CacheHoldsNewest | custom_components/wattpilot/api/client.py:689-745 | the cache holds exactly the newest readable value of every key of every frame handled |
| ClientTheorems.NoNeighbourIsLost | custom_components/wattpilot/api/client.py:689-703 | every readable key of every chunk handled is in the cache, whatever unreadable values stood beside it |
| ClientTheorems.OverlayHoldsNewest | custom_components/wattpilot/api/client.py:727-736 | applying a status pair by pair leaves the newest value of every key |
| CommandTheorems.OneOutcome | custom_components/wattpilot/api/client.py:763-787 | an outcome, once there, and an end, once reached, never change; a command keeps its id |
| CommandTheorems.SendingLeavesAWaiter | custom_components/wattpilot/api/client.py:344-359 | every command takes the next request id, and one that is acknowledged leaves a waiter under it |
| CommandTheorems.OwnAnswerSettlesAtOnce | custom_components/wattpilot/api/client.py:705-723 | over runs: a command that waits when its own answer is handled is settled by that very step, as accepted or rejected as the answer says, and no other command is touched |
| CommandTheorems.AnswerSettles | custom_components/wattpilot/api/client.py:705-723 | an answer whose id is in the table settles exactly the command waiting under it |
| CommandTheorems.OtherAnswersSettleNobody | custom_components/wattpilot/api/client.py:705-723 | an answer without an id, with an unknown one, or to a command already settled changes no command |
| CommandTheorems.CallerEnds | custom_components/wattpilot/api/client.py:763-787 | a caller returns normally exactly when it runs again after an acceptance, raises exactly when it runs again otherwise, fails to send, times out or is cancelled, and leaves the table when it ends |
| CommandTheorems.UnansweredEnds | custom_components/wattpilot/api/client.py:763-787 | a waiting command is abandoned exactly by a reset, and given up exactly by its own timeout or cancellation |
| CommandTheorems.OnlyItsOwnAnswer | custom_components/wattpilot/api/client.py:705-723 | a command is accepted or rejected only by an answer of that kind with its own id, handled after it was sent and before any other connection began |
| CommandTheorems.ReturnMeansAccepted | custom_components/wattpilot/api/client.py:344-359 | a caller that waits returns normally only from a command accepted on the connection it was sent on |
| CommandTheorems.ResetLeavesNobodyWaiting | custom_components/wattpilot/api/client.py:262-269 | every begin() and every close leave the waiter table empty and nobody waiting |
| CommandTheorems.RunKeepsTable | custom_components/wattpilot/api/client.py:763-787 | in every reachable state the waiter table and the waiting commands match, and ids are not reused |
| CommandTheorems.InTableSinceSent | custom_components/wattpilot/api/client.py:773-787 | while a command is in the table no reset has come since it was sent |
| ClientObject.Wattpilot.OnHello | custom_components/wattpilot/api/client.py:622-632 | refuses a missing or a foreign serial, and takes over the first one |
| ClientObject.Wattpilot.IdentityAccepted | custom_components/wattpilot/api/client.py:634-649 | accepts exactly an unknown or an equal serial; anything else is a final refusal |
| ClientObject.Wattpilot.OnAuthRequired | custom_components/wattpilot/api/client.py:651-668 | refuses without serial, with unusable fields, or with an unknown hash |
| ClientObject.Wattpilot.UpdateProperties | custom_components/wattpilot/api/client.py:689-703 | the loop leaves the overlay of all readable pairs |
| ClientObject.Wattpilot.OnFullStatus | custom_components/wattpilot/api/client.py:680-682 | the values first, then the flags; a frame without a status changes nothing |
| ClientObject.Wattpilot.OnDeltaStatus | custom_components/wattpilot/api/client.py:684-687 | the flags first, then the values |
| ClientObject.Wattpilot.OnResponse | custom_components/wattpilot/api/client.py:705-723 | settles the waiter the id names, if it still waits; an acceptance also applies its status |
| ClientObject.Wattpilot.SendCommand | custom_components/wattpilot/api/client.py:773-778 | a fresh id and a waiter for it |
| ClientObject.Wattpilot.FailPendingCommands | custom_components/wattpilot/api/client.py:262-269 | the loop tells every waiter and empties the table |
| FirmwareWait.ReconnectBefore | custom_components/wattpilot/api/client.py:473-509 | every attempt begins before the deadline and with the noted close count; the loop ends by success, refusal, another close count or lack of time, and it ends whatever the attempts do |
| FirmwareWait.AttemptsAreBounded | custom_components/wattpilot/api/client.py:483-492 | at most as many attempts as retry pauses begin before the deadline, rounded up |
| FirmwareWaitTheorems.AttemptsFollowNoClose | custom_components/wattpilot/api/client.py:453-456 | an install begun on a live connection with no close under way begins each attempt in the very step that finds the count unchanged, and no close() was called since it began |
| FirmwareWaitTheorems.EveryAttemptFollowsNoClose | custom_components/wattpilot/api/client.py:482-487 | the same for every attempt of a whole wait, its rounds being places in a run of the connection |
| FirmwareWaitTheorems.StartsLateExactly | custom_components/wattpilot/api/connection.py:162-168 | in every reachable state: an attempt that finds the count unchanged can start after a later close() exactly if a close is under way then |
| FirmwareWaitTheorems.AttemptCanFollowAClose | custom_components/wattpilot/api/connection.py:162-168 | a concrete run of a whole install: the count noted after a close() was called, the command answered while that close waits on an attempt that has ended but is not forgotten, the wait held up by the close, and its attempt startable after a close() that joined it |
| FirmwareWaitTheorems.FailedWaitLeavesARetry | custom_components/wattpilot/api/client.py:494-497 | a failed wait that met no close and no final refusal leaves an attempt elsewhere that is to start a reader, or a live reader, exactly unless that one crashed |
| HubTheorems.CoalescingAgrees | custom_components/wattpilot/hub.py:286-306 | in every state of every run each entity's value overlaid with the buffer is the client's value, save for the entities left behind: those that were there when their key was pushed without a subscription or dropped by a disconnect, and was not replayed since |
| HubTheorems.AddedAtAnyMoment | custom_components/wattpilot/entity.py:48-81 | an entity added at any moment, whatever was pushed before dispatch started, holds the client's value or has it waiting in the buffer, in every state until a disconnect or a push of its key without a subscription |
| HubTheorems.CoalescingRefinesPassThrough | custom_components/wattpilot/hub.py:286-306 | fed the same events, the coalescing hub announces the same, and its entities that are not left behind, overlaid with the buffer, show what those of the pass-through hub show |
| HubTheorems.FlushDelivers | custom_components/wattpilot/hub.py:300-306 | a flush sends every buffered key once, with its newest value, in order, and empties the buffer |
| HubTheorems.FlushShowsTheCache | custom_components/wattpilot/hub.py:300-306 | after a flush every entity that was to agree shows the client's value |
| HubTheorems.ReplayRestores | custom_components/wattpilot/hub.py:157-176 | after a key was pushed again under a subscription no entity of it is behind, until the subscription ends |
| HubReconnect.ReconnectRestores | custom_components/wattpilot/hub.py:157-176 | over runs, from a reconnect of a hub that was not shut down until a disconnect: checks can fire, and flushes exactly with an interval; the charger is available if and only if it is connected with its status complete or still announced; and every entity of a key pushed since then shows the client's value, or has it buffered |
| HubReconnect.ReconnectSubscribes | custom_components/wattpilot/hub.py:157-176 | a reconnect leaves the hub subscribed with its timers running and not torn down, counts its connect, and changes nothing else; a hub shut down refuses it unchanged |
| HubReconnect.UpUntilDisconnect | custom_components/wattpilot/hub.py:126-155 | a hub that is up stays subscribed, with its timers, until a disconnect or a shutdown |
| HubReconnect.SetupSubscribes | custom_components/wattpilot/hub.py:97-155 | connecting ends the torn-down state, and starting the dispatch brings up a hub that is not torn down |
| HubReconnect.SetupBringsUp | custom_components/wattpilot/hub.py:97-155 | the whole setup of a new hub: exactly one announcement, available, and the hub up |
| HubReconnect.DisconnectStops | custom_components/wattpilot/hub.py:178-213 | a disconnect or a shutdown leaves no subscription, no timer and nothing buffered, and only a shutdown retires the hub |
| HubReconnect.FlushTimerDelivers | custom_components/wattpilot/hub.py:300-306 | over runs: a flush leaves nothing buffered, and every entity not left behind shows the client's value |
| HubReconnect.DeliveryReaches | custom_components/wattpilot/entity.py:48-102 | a delivered value reaches exactly the entities of its key, and those it is the companion of read the cache again |
| HubReconnect.ChargerIsTheClients | custom_components/wattpilot/hub.py:228-285 | the connection state and the values the hub sees change only as the client reports them |
| HubReconnect.ConnectsAreCounted | custom_components/wattpilot/hub.py:97-124 | every step's effect on the number of connects under way |
| HubReconnect.DisconnectsAreCounted | custom_components/wattpilot/hub.py:193-226 | every step's effect on the number of disconnects under way |
| HubTheorems.StepAgrees | custom_components/wattpilot/entity.py:48-99 | each event keeps the agreement; an entity that is added is never behind |
| HubTheorems.PutFinds | custom_components/wattpilot/hub.py:287-291 | a newer value overwrites the buffered one and no other key's |
| HubAvailability.AnnouncementsAlternate | custom_components/wattpilot/hub.py:341-357 | announcements strictly alternate and the last one is the one remembered |
| HubAvailability.StepAnnounces | custom_components/wattpilot/hub.py:341-357 | each event announces exactly its news, as the last thing it sends, with an empty buffer if the news is good |
| HubAvailability.ValuesBeforeNews | custom_components/wattpilot/hub.py:349-357 | when `available` is announced nothing is buffered, and every entity not left behind shows the client's value |
| HubAvailability.RecoveryNeedsTheFullStatus | custom_components/wattpilot/hub.py:259-273 | a push or a check announces a recovery exactly when connected, complete, not torn down and not already announced |
| HubAvailability.NoFlapping | custom_components/wattpilot/hub.py:262-273 | while last announced available, nothing is announced as long as no push and no check meets the charger away |
| HubAvailability.NewsOnlyOfOutages | custom_components/wattpilot/hub.py:341-344 | and a step that does meet it away, or ends a disconnect, announces exactly that |
| HubAvailability.ShutdownIsFinal | custom_components/wattpilot/hub.py:178-191 | once a shutdown has begun the hub is unavailable in every later state and none of its timers fires |
| HubAvailability.AnnouncedIsAvailable | custom_components/wattpilot/hub.py:97-124 | what was announced is what `available` says, except exactly when a connect() returns to a hub torn down or disconnected meanwhile, or a disconnect ends on a hub connected anew |
| HubAvailability.LateConnectAnnouncesInVain | custom_components/wattpilot/hub.py:118-124 | a concrete run: the client signs in, a shutdown begins and signs it out before connect() returns to the hub, and `available` is announced |
| HubObject.WattpilotHub.StartDispatch | custom_components/wattpilot/hub.py:126-155 | idempotent; the flush timer exists exactly with an interval |
| HubObject.WattpilotHub.Reconnect | custom_components/wattpilot/hub.py:157-176 | a retired hub refuses; otherwise the subscription precedes the connection |
| HubObject.WattpilotHub.Disconnect | custom_components/wattpilot/hub.py:193-211 | callbacks, timers and the buffer go before anything is awaited |
| HubObject.WattpilotHub.Disconnected | custom_components/wattpilot/hub.py:220-225 | the finally block announces `unavailable` |
| HubObject.WattpilotHub.Shutdown | custom_components/wattpilot/hub.py:178-191 | retires the hub and disconnects it |
| HubObject.WattpilotHub.PropertyPushed | custom_components/wattpilot/api/client.py:727-745 | a push as a whole: the value is stored, then the hub hears of it if it subscribed; keeps the invariant of the buffer |
| HubObject.WattpilotHub.HandlePropertyChange | custom_components/wattpilot/hub.py:286-298 | buffers or forwards the value, then announces what changed |
| HubObject.WattpilotHub.FlushPending | custom_components/wattpilot/hub.py:300-306 | the loop over the buffer delivers it all and leaves it empty |
| HubObject.WattpilotHub.UpdateAvailability | custom_components/wattpilot/hub.py:341-357 | announces a change only, after the buffered values |
| HubObject.WattpilotHub.CheckAvailability | custom_components/wattpilot/hub.py:308-310 | the timer announces what `available` says, if that is news |
| HubAvailability.AvailableMeans | custom_components/wattpilot/hub.py:259-273 | who finds the charger available finds it connected, on a hub not shut down, and with an incomplete status only because `available` was the last thing announced |
| HubObject.WattpilotEntity.AddedToHass | custom_components/wattpilot/entity.py:48-81 | subscribes first, then shows the cached value, if there is one |
| HubObject.WattpilotEntity.OnSignal | custom_components/wattpilot/entity.py:88-99 | a push shows its value; a companion's push shows the cached value |
| HoldTheorems.SessionShowsThePeak | custom_components/wattpilot/sensor.py:253-266 | the shown value is the maximum of the readings since the last reset, and the latest reading lies between 90 % of it and itself |
| HoldTheorems.SessionFallsAreResets | custom_components/wattpilot/sensor.py:262-266 | the reported number falls exactly when a reading is below 90 % of it |
| HoldTheorems.PeakIsMaximum | custom_components/wattpilot/sensor.py:172-187 | the maximum is one of the readings and none is above it |
| HoldTheorems.PushShows | custom_components/wattpilot/sensor.py:172-187 | a number shows itself, or the last number exactly where that is held: a step back of at most a tenth for session energy, any for a total, none against a restored total it falls a tenth below; a null shows unknown; anything malformed changes nothing |
| HoldTheorems.ReadingIs | custom_components/wattpilot/sensor.py:172-184 | negatives read as zero where they are clamped, and only session energy is rounded |
| HoldTheorems.PlainShowsTheLatest | custom_components/wattpilot/sensor.py:253-267 | a sensor that holds nothing shows the latest number, whatever came before |
| HoldTheorems.ReloadShowsTheSame | custom_components/wattpilot/sensor.py:308-317 | after any chain a reload shows what was shown before, and holds it |
| HoldTheorems.TotalShowsThePeak | custom_components/wattpilot/sensor.py:303-328 | within one lifetime the shown number is the running maximum started from the restored total, unless the first reading is below 90 % of it; nulls and malformed pushes change nothing about that |
| HoldTheorems.TotalFallsExactly | custom_components/wattpilot/sensor.py:306-328 | over any chain of reloads the shown total falls exactly when a first reading is below 90 % of the restored one, or any reading below a total that a reload found unknown on display |
| HoldTheorems.ChainHolds | custom_components/wattpilot/sensor.py:308-317 | what is held after any chain of pushes and reloads: the last number shown, unless forgotten that way |
| HoldTheorems.UnknownAtReloadForgets | custom_components/wattpilot/sensor.py:313-316 | a concrete chain: a null before the reload lets the total fall by two thousandths |
| Holds.WattpilotSensor.ApplyValue | custom_components/wattpilot/sensor.py:126-159 | a malformed push changes nothing, a null shows unknown, a number is held |
| Holds.WattpilotSensor.Held | custom_components/wattpilot/sensor.py:172-187 | clamps, rounds, and keeps the last number when the step back is suppressed |
| Holds.WattpilotSensor.ShouldSuppressDecrease | custom_components/wattpilot/sensor.py:319-328 | uses up the restored total and decides as the rule says |
| Holds.WattpilotSensor.RestoreTotal | custom_components/wattpilot/sensor.py:308-317 | seeds the hold with a number, and with nothing else |
| AveragePowerTheorems.IdleEndsAtZero | custom_components/wattpilot/sensor.py:349-380 | after every delivery without power 0 is shown or a timer that will really fire exists; with power, or without a number for it, no timer is left |
| AveragePowerTheorems.DeliveryShows | custom_components/wattpilot/sensor.py:349-389 | what a delivery shows: unknown without a number for the power or for a null average; under power the average, 0 for the stale one, and nothing new for an unusable one; without power what was shown, or 0 |
| AveragePowerTheorems.HoldsWhileIdle | custom_components/wattpilot/sensor.py:373-380 | without power the last average stays on display beside one timer, which a further delivery does not start anew |
| AveragePowerTheorems.StoringShowsNothing | custom_components/wattpilot/sensor.py:349-359 | a value stored but not delivered shows nothing, and without an average there is nothing to deliver |
| AveragePowerTheorems.RemovalIsTheEnd | custom_components/wattpilot/sensor.py:391-399 | a removed sensor has no timer, and nothing happens to it any more |
| AveragePowerTheorems.TimerAlwaysMatches | custom_components/wattpilot/sensor.py:373-394 | a stored handle whose timer is gone exists only beside a sensor that shows nothing, so it is never mistaken for an armed one |
| AveragePowerTheorems.StaleIsNeverShown | custom_components/wattpilot/sensor.py:361-389 | from each switch to idle on the sensor shows 0 or unknown until an average other than the recorded one arrives under live power |
| AveragePowerTheorems.FirstShownIsFresh | custom_components/wattpilot/sensor.py:367-371 | what it shows first after that is such an average, with its own value |
| AveragePowerTheorems.StaleShowsExactly | custom_components/wattpilot/sensor.py:361-389 | after the latest switch to idle, with no other usable average since: the recorded average, reported again under live power, is shown exactly if an unusable value arrived under live power since the switch, and 0 is shown otherwise |
| AveragePowerTheorems.UnusableForgetsStale | custom_components/wattpilot/sensor.py:367-371 | a concrete run: an unusable value under live power makes the sensor forget which average is stale, and the stale one is shown |
| AveragePowerTheorems.TimerEnds | custom_components/wattpilot/sensor.py:382-399 | a timer that fires shows 0; a removed sensor has none |
| AveragePowerObject.WattpilotAveragePowerSensor.ApplyValue | custom_components/wattpilot/sensor.py:349-359 | one delivery, kept in step with the timer |
| AveragePowerObject.WattpilotAveragePowerSensor.ShowLive | custom_components/wattpilot/sensor.py:361-371 | unknown, 0 for the stale average, or the average |
| AveragePowerObject.WattpilotAveragePowerSensor.HoldWhileIdle | custom_components/wattpilot/sensor.py:373-380 | shows idle at once, or arms the timer unless it is armed |
| AveragePowerObject.WattpilotAveragePowerSensor.WentIdle | custom_components/wattpilot/sensor.py:382-389 | the timer's switch to 0 records the cached average as stale |
| RegistryTheorems.SuffixMapSettles | custom_components/wattpilot/registry_migration.py:69-104 | for every variant and every set of reported properties the suffix map sends its results to themselves |
| RegistryTheorems.SuffixesAre | custom_components/wattpilot/registry_migration.py:40-104 | where every suffix goes, for every variant and every set of properties: the two renamed ones, the charging current of a 22 kW charger, the chips of a charger without a card list that reports their own keys, and every other suffix of ours to itself |
| RegistryTheorems.WattpilotTablesAreWellFormed | custom_components/wattpilot/registry_migration.py:40-66 | the aliases, the 22 kW remap and the chip twins keep what that needs |
| RegistryTheorems.MatchIsLongest | custom_components/wattpilot/registry_migration.py:107-118 | the match is a longest suffix that fits, and exists if one does |
| RegistryTheorems.EndsWithMeans | custom_components/wattpilot/registry_migration.py:115-117 | an id ends in a suffix if and only if it is anything, a dash and the suffix |
| RegistryTheorems.TargetExactly | custom_components/wattpilot/registry_migration.py:146-153 | an entity is to be moved to an id if and only if that is the serial, a dash and what the longest suffix it ends in is mapped to, and not the id it has |
| RegistryTheorems.OneSuffix | custom_components/wattpilot/registry_migration.py:115-117 | an id ends in one dash-free suffix only |
| RegistryTheorems.HoldersStay | custom_components/wattpilot/registry_migration.py:147-153 | whoever has an id that others are moved to is not moved |
| RegistryTheorems.RunMovesExactly | custom_components/wattpilot/registry_migration.py:145-178 | a run keeps every entity, its entity id and domain, in order; it re-keys exactly those whose target nobody holds and nobody before them claims, and reports exactly the others |
| RegistryTheorems.MovedIdsCarryTheSerial | custom_components/wattpilot/registry_migration.py:145-178 | of every entity nothing but the unique id changes, and that only to the serial, a dash and what its longest suffix is mapped to |
| RegistryTheorems.RunKeepsKeysUnique | custom_components/wattpilot/registry_migration.py:140-178 | pairs of domain and unique id stay unique |
| RegistryTheorems.EveryClaimHasOneHolder | custom_components/wattpilot/registry_migration.py:154-176 | every claimed target is in the end held by exactly one entity of its domain |
| RegistryTheorems.SecondRunChangesNothing | custom_components/wattpilot/registry_migration.py:145-179 | a second run with the same inputs moves nothing and reports the same collisions |
| RegistryTheorems.OneRunSettles | custom_components/wattpilot/registry_migration.py:137-179 | for the charger's own tables, whatever its variant and properties: an entity keeps everything or takes the id of its suffix under the serial, unique ids stay unique, every claimed target is held by exactly one entity of its domain, and the next run moves and reports nothing new |
| Registry.MatchLegacySuffix | custom_components/wattpilot/registry_migration.py:107-118 | the loop returns the first match in the given order |
| Registry.MigrateLegacyUniqueIds | custom_components/wattpilot/registry_migration.py:137-178 | the loop rewrites the registry in place as the specification does, and returns its collisions |
| BcryptBase64.Base64Encode | custom_components/wattpilot/api/auth.py:81-113 | the loop emits the groups of the specification one character at a time; an illegal length is an error |
| BcryptBase64Theorems.GroupedEncodes | custom_components/wattpilot/api/auth.py:87-111 | those groups are the bits of the whole byte string cut into sixes, zeros behind the last: ceil(4n/3) characters, each its six bits (the grouping of section 4 of RFC 4648) |
| BcryptBase64Theorems.DecodeRestores | custom_components/wattpilot/api/auth.py:81-113 | for any alphabet of 64 different characters, decoding gives back exactly the bytes encoded |
| BcryptBase64Theorems.GroupSextets | custom_components/wattpilot/api/auth.py:89-111 | the four numbers of a group are its four runs of six bits |
| BcryptBase64Theorems.GroupInShifts | custom_components/wattpilot/api/auth.py:89-111 | the program's shifts and masks of three bytes are those numbers |
| BcryptAlphabet.AlphabetIsDistinct | custom_components/wattpilot/api/auth.py:21 | bcrypt's 64 characters are all different |
| BcryptSalt.EncodeSerial | custom_components/wattpilot/api/auth.py:116-124 | an error exactly for anything but digits, or for no length; otherwise a text whose decoding is the serial's digits as numbers, zeros before them, cut after the length |
| BcryptSalt.EncodedSerialDecodes | custom_components/wattpilot/api/auth.py:116-124 | decoding the text gives back byte by byte a zero before the serial or the number of a digit |
| BcryptSalt.PaddedIs | custom_components/wattpilot/api/auth.py:118-120 | the bytes encoded: zeros up to the length, then the numbers of the digits |
| BcryptAlphabet.AlphabetIs | custom_components/wattpilot/api/auth.py:21 | bcrypt's alphabet, character by character |
| BcryptSalt.SaltsTellSerialsApart | custom_components/wattpilot/api/auth.py:116-124 | for serials of up to sixteen digits two salts are equal exactly when the serials are equal up to leading zeros |
| BcryptSalt.LongSerialsAreCut | custom_components/wattpilot/api/auth.py:119-124 | longer serials share a salt exactly when they share their first sixteen digits |
| BcryptSalt.SaltsEqualExactly | custom_components/wattpilot/api/auth.py:65-75 | two salts are equal exactly when the sixteen bytes they are made of are |
| IdentityTheorems.SerialsAreUnique | custom_components/wattpilot/config_flow.py:149-229 | over any sequence of migrations, setups and flows no two entries, ignored cards included, have the same unique id |
| IdentityTheorems.IdentityIsOneTime | custom_components/wattpilot/__init__.py:263-302 | a migrated entry that no longer awaits its serial never awaits one again and never changes its unique id |
| IdentityTheorems.SettledMeansReported | custom_components/wattpilot/__init__.py:234-238 | an entry knows its charger only because it did so from the start or because a charger reported that very serial over a connection to its own setup or to the flow that made it |
| IdentityTheorems.ReconfigurePreservesAwaiting | custom_components/wattpilot/config_flow.py:189-206 | a reconfigure leaves the unique id alone and preserves the awaiting status in both directions, cloud to local included |
| IdentityTheorems.ReconfigureThenSetupSucceeds | custom_components/wattpilot/config_flow.py:149-161 | a reconfigure let through is not refused by the setup that follows it |
| IdentityTheorems.SetupDecidesOnce | custom_components/wattpilot/__init__.py:234-302 | a setup that succeeds leaves the entry with the serial for good, shared with nobody, welcoming that charger again unchanged and refusing any other; one that fails changes nothing and fails again |
| IdentityTheorems.StepOnEntry | custom_components/wattpilot/const.py:53-73 | only a setup that adopts ends the awaiting or changes a unique id |
| IdentityFlows.MigrationWrites | custom_components/wattpilot/__init__.py:350-390 | a fork entry of the cloud becomes a cloud entry, any other a local one with the marker; either keeps its unique id and awaits its serial; nothing else changes |
| IdentityFlows.SetupWrites | custom_components/wattpilot/__init__.py:234-318 | exactly when a setup is refused as another charger's or as a duplicate; otherwise the entry has the serial and awaits nothing, the ignored cards of that charger are gone, and nothing else changes |
| IdentityFlows.WhoIsSetUp | custom_components/wattpilot/__init__.py:124-168 | a migrated entry is set up unless it is a cloud entry |
| IdentityFlows.ReconfigureWrites | custom_components/wattpilot/config_flow.py:149-206 | exactly when a reconfigure is let through, and then the entry is local at the new address with its unique id and awaiting status kept; nothing else changes |
| IdentityFlows.FormWrites | custom_components/wattpilot/config_flow.py:208-267 | the form makes an entry if and only if the charger has none and no entry at that address awaits its serial; which entry that is, and that only ignored cards of the charger go |
| IdentityFlows.CardWrites | custom_components/wattpilot/config_flow.py:269-296 | a card makes an entry if and only if the charger is the one announced and has neither an entry nor an ignored card |
| IdentityFlows.DiscoveryWrites | custom_components/wattpilot/config_flow.py:230-250 | an announcement moves the address of that charger's entry, where it may, and nothing else |
| IdentityFlows.IgnoringWrites | custom_components/wattpilot/config_flow.py:298-309 | a card is ignored if and only if its charger has neither an entry nor an ignored card |
| IdentityFlows.RemovalWrites | custom_components/wattpilot/config_flow.py:317-333 | a removal takes that entry only, and a new password changes no identity |
| IdentityFlows.ConnectionStays | custom_components/wattpilot/config_flow.py:189-206 | over runs: whether an entry is local or cloud changes by its own migration and reconfigure only |
| IdentityObject.ConfigEntries.FinishSetup | custom_components/wattpilot/__init__.py:234-238 | adopts when the serial differs or is still awaited |
| IdentityObject.ConfigEntries.Adopt | custom_components/wattpilot/__init__.py:263-302 | refuses another charger and a taken serial; otherwise takes the serial and removes the ignored card |
| IdentityObject.ConfigEntries.SerialTaken | custom_components/wattpilot/const.py:98-113 | whether another entry that is no ignored card has the serial |
| IdentityObject.ConfigEntries.RemoveIgnoredCard | custom_components/wattpilot/__init__.py:306-318 | removes the ignored cards of that serial and no other entry |
| IdentityObject.ConfigEntries.Migrate | custom_components/wattpilot/__init__.py:350-390 | a fork entry becomes local and awaiting, or cloud; a later version is not supported |
| IdentityObject.ConfigEntries.Reconfigure | custom_components/wattpilot/config_flow.py:335-361 | rejects on an identity error, otherwise rewrites the entry as a local one |

## Left out

- The `websockets` library, JSON and YAML parsing, threads, PBKDF2, bcrypt, SHA-256 and HMAC: a frame arrives parsed, and a hash is not computed.
- Waits inside a frame's handler other than the close of a refused socket (hashing the password, sending the answer) count as part of handling the frame.
- Exceptions that property callbacks raise other than the five the client catches, and frames that cannot be parsed, which are skipped without effect.
- Request ids are numbers: the spelling of an id on the wire, and answers to the signed envelope of a secured command, are not modelled.
- Cancellation of the caller of an install, and the choice of the version to install.
- A failure to read the API definition after a successful open, which closes the connection again.
- Shutdown of the event loop, and tasks that outlive it.
- Entities that subscribe to no property of their own, and several hubs on one dispatcher.
- Setup on a hub that was shut down: setup connects and starts dispatching only before its own shutdown.
- Floating-point rounding: readings are real numbers; rounding to the reported precision is a parameter that keeps non-negative numbers non-negative.
- A sensor's card slots, time stamps, enumerations, attributes and price lists, the null that counts as zero, and states too long to show.
- Registry ids held by entities of another config entry; the repair notice about collisions and its recount.
- `str.isdigit` beyond the ten ASCII digits.
- The pause inside removing an ignored card, and the probe between a form's first look and its result: each check and its write are one step.
- Passwords, names and titles of entries, options, and reloads a flow schedules.
- An entry that Home Assistant has not migrated yet: what awaits its serial is stated for migrated entries.
- Home Assistant's dispatcher, registries, flows, timers and storage, except for the small interface used.
- Log text, masking of serials, repair notices, translations, redaction, diagnostics, the description tables and the thin platforms.
