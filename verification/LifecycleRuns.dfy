/** Runs of the connection, step by step: signing in, and two ways in which less is left than promised. */
module LifecycleRuns {
  import opened Wrappers
  import opened Lifecycle
  import opened LifecycleProgress
  import opened LifecycleRecovery

  /** Signed in with the full status, read by the only reader ever started. */
  function Running(c: Config): State {
    State(c, Flags(Usable, true, true, false, true, true, true, true, false), Some(0), Some(0), None, false, 0,
          c.delayMin, Attempt(AttemptEnded(true), false, false), NoClosing, [Reader(Reading(0), false)], [], 1, {0})
  }

  const SIGN_IN: seq<Event> :=
    [Caller(OpenCalled), InAttempt(Started), InAttempt(GotSocketFor), InReader(0, ReaderStarted),
     InReader(0, FrameHandled(SignedIn)), InReader(0, FrameHandled(FullStatus(false))), InAttempt(Woken), InAttempt(Woken)]

  lemma AfterOne(s: State, events: seq<Event>, k: nat)
    requires k < |events| && Enabled(s, events[k])
    ensures After(s, events[k..]) == After(Apply(s, events[k]), events[k + 1..])
  {
    assert events[k..][1..] == events[k + 1..];
  }

  /** The socket is there and its reader is about to start. */
  function Connected(c: Config): State {
    Running(c).(flags := Initial(c).flags, attempt := Attempt(AwaitAuth, false, false),
                readers := [Reader(ReaderCreated, false)])
  }

  /** The attempt waits for its socket. */
  function Opening(c: Config): State {
    Initial(c).(attempt := Attempt(Connecting, false, false))
  }

  lemma BeginsToOpen(c: Config)
    ensures After(Initial(c), SIGN_IN) == After(Opening(c), SIGN_IN[2..])
  {
    var s := Initial(c);
    assert SIGN_IN[0..] == SIGN_IN;
    AfterOne(s, SIGN_IN, 0);
    s := Apply(s, SIGN_IN[0]);
    AfterOne(s, SIGN_IN, 1);
  }

  lemma Connects(c: Config)
    ensures After(Opening(c), SIGN_IN[2..]) == After(Connected(c), SIGN_IN[3..])
  {
    var s := Opening(c);
    AfterOne(s, SIGN_IN, 2);
    s := Apply(s, SIGN_IN[2]);
    assert s.open == {0} && s.readers == [Reader(ReaderCreated, false)];
  }

  /** The first frame signed it in; the attempt still waits for that. */
  function Authenticated(c: Config): State {
    Connected(c).(flags := Flags(Usable, true, false, false, true, true, false, false, false),
                  readers := [Reader(Reading(0), false)])
  }

  lemma Authenticates(c: Config)
    ensures After(Connected(c), SIGN_IN[3..]) == After(Authenticated(c), SIGN_IN[5..])
  {
    var s := Connected(c);
    AfterOne(s, SIGN_IN, 3);
    s := Apply(s, SIGN_IN[3]);
    assert s.readers == [Reader(Reading(0), false)];
    AfterOne(s, SIGN_IN, 4);
  }

  lemma Initializes(c: Config)
    ensures After(Authenticated(c), SIGN_IN[5..]) == Some(Running(c))
  {
    var s := Authenticated(c);
    AfterOne(s, SIGN_IN, 5);
    s := Apply(s, SIGN_IN[5]);
    AfterOne(s, SIGN_IN, 6);
    s := Apply(s, SIGN_IN[6]);
    AfterOne(s, SIGN_IN, 7);
    s := Apply(s, SIGN_IN[7]);
    assert SIGN_IN[8..] == [];
  }

  lemma SignsIn(c: Config)
    ensures After(Initial(c), SIGN_IN) == Some(Running(c))
  {
    BeginsToOpen(c);
    Connects(c);
    Authenticates(c);
    Initializes(c);
  }

  // ---- open() returns to a connection that is gone ----

  const TOO_LATE: seq<Event> :=
    [InReader(0, FrameHandled(FullStatus(false))), InReader(0, FramesEnded), InAttempt(Woken), InAttempt(Woken)]

  /** The status is complete and the frames are over, before the attempt runs again. */
  function Ended(c: Config): State {
    Authenticated(c).(flags := Flags(Usable, false, true, false, false, true, true, false, true), open := {},
                      readers := [Reader(Backoff(c.delayMin), false)])
  }

  lemma EndsBeforeWaking(c: Config)
    requires c.autoReconnect
    ensures After(Authenticated(c), TOO_LATE) == After(Ended(c), TOO_LATE[2..])
  {
    var s := Authenticated(c);
    assert TOO_LATE[0..] == TOO_LATE;
    AfterOne(s, TOO_LATE, 0);
    s := Apply(s, TOO_LATE[0]);
    AfterOne(s, TOO_LATE, 1);
    s := Apply(s, TOO_LATE[1]);
    assert s.open == {} && s.readers == [Reader(Backoff(c.delayMin), false)];
  }

  /**
   The status completes and the socket closes before the attempt that waits for the status runs
   again: open() returns normally, with nobody signed in and no socket open.
   */
  lemma OpenCanReturnSignedOut(c: Config) returns (t: State)
    requires c.autoReconnect
    ensures After(Initial(c), SIGN_IN[..5]) == Some(Authenticated(c))
    ensures After(Authenticated(c), TOO_LATE) == Some(t)
    ensures t.attempt.pc == AttemptEnded(true) && !t.flags.authenticated && t.open == {}
  {
    SignInBegins(c);
    EndsBeforeWaking(c);
    var s := Ended(c);
    AfterOne(s, TOO_LATE, 2);
    s := Apply(s, TOO_LATE[2]);
    AfterOne(s, TOO_LATE, 3);
    t := Apply(s, TOO_LATE[3]);
    assert TOO_LATE[4..] == [];
  }

  lemma SignInBegins(c: Config)
    ensures After(Initial(c), SIGN_IN[..5]) == Some(Authenticated(c))
  {
    var events := SIGN_IN[..5];
    var s := Initial(c);
    assert events[0..] == events;
    AfterOne(s, events, 0);
    s := Apply(s, events[0]);
    AfterOne(s, events, 1);
    AfterOne(Opening(c), events, 2);
    s := Apply(Opening(c), events[2]);
    assert s.open == {0} && s.readers == [Reader(ReaderCreated, false)];
    FirstFrames(c);
  }

  lemma FirstFrames(c: Config)
    ensures After(Connected(c), SIGN_IN[..5][3..]) == Some(Authenticated(c))
  {
    var events := SIGN_IN[..5];
    var s := Connected(c);
    AfterOne(s, events, 3);
    s := Apply(s, events[3]);
    assert s.readers == [Reader(Reading(0), false)];
    AfterOne(s, events, 4);
    assert events[5..] == [];
  }

  // ---- The reconnect raises what the loop does not catch ----

  const CRASH: seq<Event> := [InReader(0, FramesEnded), InReader(0, BackoffOver), InReader(0, ReconnectCrashed)]

  /** The socket is gone, and the only reader is about to connect again. */
  function Retrying(c: Config): State {
    Running(c).(flags := Flags(Usable, false, false, false, false, true, false, true, true), open := {},
                reconnectDelay := Min(c.delayMin * 2.0, c.delayMax), readers := [Reader(Reconnecting, false)])
  }

  lemma Retries(c: Config)
    requires c.autoReconnect
    ensures After(Running(c), CRASH) == After(Retrying(c), CRASH[2..])
  {
    var s := Running(c);
    assert CRASH[0..] == CRASH;
    AfterOne(s, CRASH, 0);
    s := Apply(s, CRASH[0]);
    assert s.open == {} && s.readers == [Reader(Backoff(c.delayMin), false)];
    AfterOne(s, CRASH, 1);
    s := Apply(s, CRASH[1]);
    assert s.readers == [Reader(Reconnecting, false)];
  }

  lemma Crashes(c: Config) returns (t: State)
    ensures After(Retrying(c), CRASH[2..]) == Some(t)
    ensures Stranded(t) && !t.stopped && t.flags.fatal.Usable?
  {
    AfterOne(Retrying(c), CRASH, 2);
    t := Apply(Retrying(c), CRASH[2]);
    assert CRASH[3..] == [];
  }

  /** A running connection loses its socket, and the reconnect of its only reader crashes. */
  lemma RetryCanCrash(c: Config) returns (t: State)
    requires c.autoReconnect
    ensures After(Initial(c), SIGN_IN) == Some(Running(c)) && After(Running(c), CRASH) == Some(t)
    ensures Stranded(t) && !t.stopped && t.flags.fatal.Usable?
  {
    SignsIn(c);
    Retries(c);
    t := Crashes(c);
  }
}
