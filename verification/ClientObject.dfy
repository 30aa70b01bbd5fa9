/**
 The client as the object it is in the program: the handlers update the property cache and the
 waiter table in place, property by property and waiter by waiter.
 */
module ClientObject {
  import opened Wrappers
  import opened Lifecycle
  import opened Client

  class Wattpilot {
    var flags: Flags
    var serial: string
    var allProps: map<string, int>
    var requestId: nat
    var pendingCommands: map<nat, nat>
    var futures: seq<Command>

    ghost function View(): ClientState
      reads this
    {
      ClientState(flags, serial, allProps, requestId, pendingCommands, futures)
    }

    ghost predicate Valid()
      reads this
    {
      TableMatches(View())
    }

    constructor (serial: string)
      ensures Valid() && View() == Fresh(serial)
    {
      flags := Flags(Usable, false, false, false, false, false, false, false, true);
      this.serial := serial;
      allProps, requestId, pendingCommands, futures := map[], 0, map[], [];
    }

    // ---- Handshake ----

    method Reject(error: Fatal)
      modifies `flags
      ensures View() == Refuse(old(View()), error)
    {
      flags := Fail(flags, error);
    }

    method IdentityAccepted(found: string) returns (accepted: bool)
      modifies `flags
      ensures accepted == (old(serial) == "" || old(serial) == found)
      ensures View() == if accepted then old(View()) else Refuse(old(View()), Final)
    {
      var known := serial;
      if known == "" || known == found {
        return true;
      }
      Reject(Final);
      return false;
    }

    method OnHello(found: Option<string>)
      modifies `flags, `serial
      ensures View() == HandleHello(old(View()), found)
    {
      if found.None? || found.value == "" {
        Reject(Transient);
        return;
      }
      var accepted := IdentityAccepted(found.value);
      if accepted {
        serial := found.value;
      }
    }

    method OnAuthRequired(tokensUsable: bool, hash: HashField)
      modifies `flags
      ensures View() == HandleAuthRequired(old(View()), tokensUsable, hash)
    {
      if serial == "" || !tokensUsable || hash.UnusableHash? {
        Reject(Transient);
      } else if hash.UnknownHash? {
        Reject(Final);
      }
    }

    // ---- Status ----

    /** One property at a time; a value that cannot be read is skipped, its neighbours are not. */
    method UpdateProperties(status: Status)
      modifies `allProps
      ensures View() == ApplyStatus(old(View()), status)
    {
      var i := 0;
      while i < |status|
        invariant 0 <= i <= |status|
        invariant Overlay(allProps, Readables(status[i..])) == Overlay(old(allProps), Readables(status))
        modifies `allProps
      {
        var (key, reading) := status[i];
        assert status[i..][0] == status[i] && status[i..][1..] == status[i + 1..];
        if reading.Readable? {
          assert Readables(status[i..])[1..] == Readables(status[i + 1..]);
          allProps := allProps[key := reading.value];
        } else {
          assert Readables(status[i..]) == Readables(status[i + 1..]);
        }
        i := i + 1;
      }
      assert status[i..] == [];
    }

    method OnFullStatus(status: Option<Status>, partial: bool)
      modifies `allProps, `flags
      ensures View() == Handle(old(View()), FullStatusFrame(status, partial))
    {
      if status.Some? {
        UpdateProperties(status.value);
        flags := flags.(streaming := partial);
        if !partial {
          flags := CompleteFlags(flags);
        }
      }
    }

    method OnDeltaStatus(status: Option<Status>)
      modifies `allProps, `flags
      ensures View() == Handle(old(View()), DeltaStatusFrame(status))
    {
      if status.Some? {
        if !flags.streaming {
          flags := CompleteFlags(flags);
        }
        UpdateProperties(status.value);
      }
    }

    // ---- Commands ----

    method OnResponse(key: Option<nat>, success: bool, status: Option<Status>)
      requires Valid()
      modifies `allProps, `futures
      ensures View() == HandleResponse(old(View()), key, success, status)
    {
      var future: Option<nat> := None;
      if key.Some? && key.value in pendingCommands {
        future := Some(pendingCommands[key.value]);
      }
      if success {
        if status.Some? {
          UpdateProperties(status.value);
        }
        if future.Some? && futures[future.value].outcome.Waiting? {
          futures := futures[future.value := futures[future.value].(outcome := Accepted)];
        }
        return;
      }
      if future.Some? && futures[future.value].outcome.Waiting? {
        futures := futures[future.value := futures[future.value].(outcome := Rejected)];
      }
    }

    /** The first block of _send_command(), up to the send. */
    method SendCommand() returns (x: nat)
      modifies `requestId, `pendingCommands, `futures
      ensures x == old(|futures|) && View() == SetProperty(old(View()), true)
    {
      requestId := requestId + 1;
      x := |futures|;
      pendingCommands := pendingCommands[requestId := x];
      futures := futures + [Command(requestId, Waiting, Sending)];
    }

    /** Every waiter is told, and the table is emptied, entry by entry. */
    method FailPendingCommands()
      requires Valid()
      modifies `pendingCommands, `futures
      ensures View() == Reset(old(View()))
    {
      ghost var was := View();
      var left := pendingCommands.Keys;
      NobodyToldYet(was);
      while left != {}
        invariant left <= was.pending.Keys && pendingCommands == map key | key in left :: was.pending[key]
        invariant futures == Told(was, left)
        modifies `pendingCommands, `futures
        decreases left
      {
        var key :| key in left;
        var x := pendingCommands[key];
        TellsOne(was, left, key);
        if futures[x].outcome.Waiting? {
          futures := futures[x := futures[x].(outcome := Abandoned)];
        }
        pendingCommands := pendingCommands - {key};
        left := left - {key};
      }
      EverybodyTold(was);
    }
  }

  // ---- The waiters told so far ----

  /** The commands once the waiters of all keys but those in `left` have been told. */
  ghost function Told(c: ClientState, left: set<nat>): (told: seq<Command>)
    ensures |told| == |c.commands|
  {
    seq(|c.commands|, x requires 0 <= x < |c.commands| =>
      if c.commands[x].outcome.Waiting? && c.commands[x].key in c.pending.Keys - left && c.pending[c.commands[x].key] == x
      then c.commands[x].(outcome := Abandoned) else c.commands[x])
  }

  lemma NobodyToldYet(c: ClientState)
    ensures Told(c, c.pending.Keys) == c.commands
  {
  }

  lemma TellsOne(c: ClientState, left: set<nat>, key: nat)
    requires TableMatches(c) && left <= c.pending.Keys && key in left
    ensures var told, x := Told(c, left), c.pending[key];
            && x < |told|
            && Told(c, left - {key}) ==
                 if told[x].outcome.Waiting? then told[x := told[x].(outcome := Abandoned)] else told
  {
  }

  lemma EverybodyTold(c: ClientState)
    requires TableMatches(c)
    ensures Told(c, {}) == Reset(c).commands
  {
    forall x | 0 <= x < |c.commands| ensures Told(c, {})[x] == Abandon(c, x) {
      if x in c.pending.Values {
        var key :| key in c.pending && c.pending[key] == x;
        assert c.commands[x].key == key;
      }
    }
  }
}
