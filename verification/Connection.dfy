/**
 The connection as the object it is in the program: methods update its fields, one block
 between two awaits at a time. Each method is proved to make the move of the step relation;
 those that are whole steps of a task keep the invariant as well.
 */
module ConnectionObject {
  import opened Wrappers
  import opened Lifecycle
  import opened LifecycleInvariant
  import opened LifecycleSafety

  class Connection {
    const config: Config
    var socket: Option<nat>
    var messageLoopTask: Option<nat>
    var readinessGuard: Option<nat>
    var flags: Flags
    var stopped: bool
    var closeCount: nat
    var reconnectDelay: real
    var opening: Attempt
    var closing: ClosingPc
    // what the event loop holds for the connection
    var readers: seq<Reader>
    var guards: seq<Guard>
    var sockets: nat
    var open: set<nat>

    ghost function View(): State
      reads this
    {
      State(config, flags, socket, messageLoopTask, readinessGuard, stopped, closeCount, reconnectDelay,
            opening, closing, readers, guards, sockets, open)
    }

    ghost predicate Valid()
      reads this
    {
      Inv(View())
    }

    constructor (config: Config)
      requires ValidConfig(config)
      ensures Valid() && View() == Initial(config)
    {
      this.config := config;
      socket, messageLoopTask, readinessGuard := None, None, None;
      flags := Flags(Usable, false, false, false, false, false, false, false, true);
      stopped, closeCount, reconnectDelay := false, 0, config.delayMin;
      opening, closing := IDLE, NoClosing;
      readers, guards, sockets, open := [], [], 0, {};
      new;
      InitialInv(config);
    }

    // ---- What the message handlers report ----

    method SetAuthenticated(value: bool)
      modifies `flags
      ensures View() == old(View()).(flags := Lifecycle.SetAuthenticated(old(View()).flags, value))
    {
      flags := flags.(authenticated := value);
      if value {
        flags := flags.(disconnectedEvent := false);
        flags := flags.(authEvent := true, authLatch := true);
      } else {
        flags := flags.(authEvent := false);
        flags := flags.(disconnectedEvent := true);
      }
    }

    method MarkInitialized()
      modifies `flags, `reconnectDelay
      ensures View() == Lifecycle.MarkInitialized(old(View()))
    {
      flags := flags.(initialized := true);
      reconnectDelay := config.delayMin;
      flags := flags.(initEvent := true, initLatch := true);
    }

    method ReceiveFullStatus(partial: bool)
      modifies `flags, `reconnectDelay
      ensures View() == Lifecycle.ReceiveFullStatus(old(View()), partial)
    {
      flags := flags.(streaming := partial);
      if !partial {
        MarkInitialized();
      }
    }

    method ReceiveDeltaStatus()
      modifies `flags, `reconnectDelay
      ensures View() == Lifecycle.ReceiveDeltaStatus(old(View()))
    {
      if !flags.streaming {
        MarkInitialized();
      }
    }

    method Fail(error: Fatal)
      modifies `flags
      ensures View() == old(View()).(flags := Lifecycle.Fail(old(View()).flags, error))
    {
      flags := flags.(fatal := error);
      SetAuthenticated(false);
      flags := flags.(authEvent := true, authLatch := true);
      flags := flags.(initEvent := true, initLatch := true);
    }

    // ---- Blocks shared by several tasks ----

    method CancelReadinessGuard()
      modifies `guards, `readinessGuard
      ensures View() == Lifecycle.CancelReadinessGuard(old(View()))
    {
      if readinessGuard.Some? {
        if readinessGuard.value < |guards| {
          guards := guards[readinessGuard.value := guards[readinessGuard.value].(cancelled := true)];
        }
        readinessGuard := None;
      }
    }

    method Begin()
      modifies `guards, `readinessGuard, `flags
      ensures View() == Lifecycle.Begin(old(View()))
    {
      CancelReadinessGuard();
      flags := flags.(initialized := false, streaming := false, initEvent := false, authEvent := false);
      flags := flags.(fatal := Usable);
    }

    method ReaderOwned(own: bool) returns (owned: bool)
      ensures owned == Lifecycle.ReaderOwned(View(), own)
    {
      if messageLoopTask.Some? {
        return true;
      }
      owned := !opening.pc.NoAttempt? && !opening.pc.AttemptEnded? && !own;
    }

    /** `own`: asked by the opening attempt itself. */
    method ResumeReconnecting(own: bool)
      modifies `messageLoopTask, `readers
      ensures View() == Lifecycle.ResumeReconnecting(old(View()), own)
      ensures old(Valid()) && !own ==> Valid()
    {
      if old(Valid()) && !own { ResumeKeeps(View()); }
      var owned := ReaderOwned(own);
      if stopped || flags.fatal.Final? || owned {
        return;
      }
      if config.autoReconnect {
        StartReader();
      }
    }

    /** _close() up to its first await. */
    method StopReader()
      modifies `guards, `readinessGuard, `messageLoopTask, `readers
      ensures View() == Lifecycle.StopReader(old(View()))
    {
      CancelReadinessGuard();
      var task := messageLoopTask;
      messageLoopTask := None;
      if task.Some? && task.value < |readers| {
        readers := readers[task.value := readers[task.value].(cancelled := true)];
      }
    }

    /** _close() after its last await. */
    method FinishClose()
      modifies `flags, `socket
      ensures View() == Lifecycle.FinishClose(old(View()))
    {
      socket := None;
      SetAuthenticated(false);
      flags := flags.(initEvent := false);
    }

    /** connect() handed over a socket. */
    method TakeSocket()
      modifies `socket, `open, `sockets
      ensures View() == GotSocket(old(View()))
    {
      socket, open, sockets := Some(sockets), open + {sockets}, sockets + 1;
    }

    method StartReader()
      modifies `messageLoopTask, `readers
      ensures View() == SpawnReader(old(View()))
    {
      messageLoopTask, readers := Some(|readers|), readers + [Reader(ReaderCreated, false)];
    }

    // ---- open() and close() ----

    /** open(), once no close is under way. */
    method Open()
      requires Valid() && !ClosingUnfinished(View())
      modifies `stopped, `opening
      ensures Valid() && View() == CallOpen(old(View()))
    {
      CallOpenKeeps(View());
      stopped := false;
      if opening.pc.NoAttempt? || opening.pc.AttemptEnded? {
        opening := Attempt(AttemptCreated, false, false);
      }
    }

    method Close()
      requires Valid()
      modifies `stopped, `closeCount, `closing
      ensures Valid() && View() == CallClose(old(View()))
    {
      CallCloseKeeps(View());
      stopped := true;
      closeCount := closeCount + 1;
      if closing.NoClosing? || closing.ClosingEnded? {
        closing := ClosingCreated;
      }
    }

    /** The first block of _open(). */
    method OpenAttempt()
      requires Valid() && opening.pc.AttemptCreated?
      modifies this
      ensures Valid() && View() == AttemptBegins(old(View()))
    {
      AttemptBeginsKeeps(View());
      var hadReader := messageLoopTask.Some?;
      opening := opening.(hadReader := hadReader);
      if flags.authenticated {
        FinishInitialization();
      } else if hadReader {
        ReplaceReader();
      } else {
        Begin();
        opening := opening.(pc := Connecting);
      }
    }

    /** _finish_initialization() up to its await, if it has one. */
    method FinishInitialization()
      modifies `opening, `flags
      ensures View() == if old(flags.initialized) then SetAttempt(old(View()), AttemptEnded(true))
                        else AttemptAwaitsInit(old(View()), Finishing)
    {
      if flags.initialized {
        opening := opening.(pc := AttemptEnded(true));
      } else {
        opening := opening.(pc := Finishing);
        flags := flags.(initLatch := flags.initEvent);
      }
    }

    /** The first block of _close() where a reader owns the socket to be replaced. */
    method ReplaceReader()
      requires messageLoopTask.Some?
      modifies `guards, `readinessGuard, `messageLoopTask, `readers, `opening
      ensures View() == AttemptCloses(old(View()), Replacing)
    {
      var task := messageLoopTask.value;
      StopReader();
      opening := opening.(pc := StoppingReader(Replacing, task));
    }

    /** _open_socket(), when connect() handed over a socket. */
    method OpenSocket()
      requires Valid() && opening.pc.Connecting?
      modifies `socket, `open, `sockets, `messageLoopTask, `readers, `opening, `flags
      ensures Valid() && View() == AttemptConnected(old(View()))
    {
      AttemptConnectedKeeps(View());
      TakeSocket();
      StartReader();
      opening := opening.(pc := AwaitAuth);
      flags := flags.(authLatch := flags.authEvent);
    }

    /** The except block of _open(), after a connect() that raised. */
    method OpenFails()
      requires Valid() && opening.pc.Connecting?
      modifies `messageLoopTask, `readers, `opening
      ensures Valid() && View() == AttemptFails(old(View()))
    {
      AttemptFailsKeeps(View());
      if opening.hadReader {
        ResumeReconnecting(true);
      }
      opening := opening.(pc := AttemptEnded(false));
    }

    /** The first block of _cancel_and_close(). */
    method CancelAndClose()
      requires Valid() && closing.ClosingCreated?
      modifies this
      ensures Valid() && View() == ClosingBegins(old(View()))
    {
      ClosingBeginsKeeps(View());
      if !opening.pc.NoAttempt? {
        opening := opening.(cancelled := opening.cancelled || !opening.pc.AttemptEnded?);
        closing := AwaitAttempt;
      } else {
        var task := messageLoopTask;
        StopReader();
        if task.Some? {
          closing := AwaitReader(task.value);
        } else if socket.Some? {
          closing := AwaitSocket(socket.value);
        } else {
          FinishClose();
          closing := ClosingEnded;
        }
      }
    }

    // ---- The reader ----

    /** _message_loop() up to its first await. */
    method StartLoop(r: nat)
      requires Valid() && Live(View(), r) && readers[r].pc.ReaderCreated?
      modifies `reconnectDelay, `readers, `flags
      ensures Valid() && View() == ReaderBegins(old(View()), r)
    {
      ReaderBeginsKeeps(View(), r);
      reconnectDelay := config.delayMin;
      if socket.Some? {
        readers := readers[r := readers[r].(pc := Reading(socket.value))];
      } else {
        EndFrames(r);
      }
    }

    method EndFrames(r: nat)
      requires r < |readers|
      modifies `readers, `flags
      ensures View() == Lifecycle.AfterFrames(old(View()), r)
    {
      SetAuthenticated(false);
      if !config.autoReconnect || flags.fatal.Final? {
        readers := readers[r := readers[r].(pc := ReaderEnded(LeftLoop))];
      } else {
        readers := readers[r := readers[r].(pc := Backoff(reconnectDelay))];
      }
    }

    /** _message_loop() from the end of the frames to its next await. */
    method AfterFrames(r: nat)
      requires Valid() && Live(View(), r) && open == {}
      modifies `flags, `readers
      ensures Valid() && View() == Lifecycle.AfterFrames(old(View()), r)
    {
      AfterFramesKeeps(View(), r);
      EndFrames(r);
    }

    /** The wait is over: the next delay doubles, and the connection begins anew. */
    method BackoffEnds(r: nat)
      requires Valid() && Live(View(), r) && readers[r].pc.Backoff? && !AttemptWokenUp(View())
      modifies `guards, `readinessGuard, `flags, `reconnectDelay, `readers
      ensures Valid() && View() == ReaderWakes(old(View()), r, old(readers[r].pc.delay))
    {
      ReaderWakesKeeps(View(), r);
      reconnectDelay := Min(readers[r].pc.delay * 2.0, config.delayMax);
      Begin();
      readers := readers[r := readers[r].(pc := Reconnecting)];
    }

    /** A reconnect succeeded: the new socket, its readiness guard, and the frames. */
    method Reconnect(r: nat)
      requires Valid() && Live(View(), r) && readers[r].pc.Reconnecting?
      modifies `socket, `readinessGuard, `guards, `open, `sockets, `readers
      ensures Valid() && View() == ReaderConnected(old(View()), r)
    {
      ReaderConnectedKeeps(View(), r);
      TakeSocket();
      readinessGuard, guards := Some(|guards|), guards + [Guard(Watching, socket.value, false)];
      readers := readers[r := readers[r].(pc := Reading(socket.value))];
    }

    /** _guard_readiness(), when its time is up. */
    method GuardTimeout(g: nat)
      requires Valid() && GuardEnabled(View(), g, GuardFired)
      modifies `guards
      ensures Valid() && View() == GuardApply(old(View()), g, GuardFired)
    {
      GuardKeeps(View(), g, GuardFired);
      guards := guards[g := guards[g].(pc := if socket.Some? then GuardClosing(socket.value) else GuardEnded)];
    }

    /** One frame that refuses the connection: the first block of reject(). */
    method Reject(r: nat, final: bool)
      requires Valid() && Live(View(), r) && readers[r].pc.Reading? && flags.fatal.Usable?
      modifies `flags, `readers
      ensures Valid() && View() == ReaderHandles(old(View()), r, Refused(final))
    {
      ReaderHandlesKeeps(View(), r, Refused(final));
      Fail(if final then Final else Transient);
      if socket.Some? {
        readers := readers[r := readers[r].(pc := Rejecting(readers[r].pc.sock, socket.value))];
      }
    }
  }
}
