/** Running a helper process to its end under one deadline. What the helper and the operating system do is arbitrary:
    every call below may succeed, make partial progress or fail. */
module ProcessIo {
  import opened Wrappers

  type Byte = n: nat | n < 256

  const CHUNK: nat := 16384

  datatype Kind = TimedOut | WriteZero | WouldBlock | Interrupted | NoSuchProcess | Other(code: int)

  datatype Output = Output(status: int, stdout: seq<Byte>, stderr: seq<Byte>)

  // ----- the helper, as the system shows it -----

  /** The clock passes the deadline after some number of looks. */
  class Deadline {
    var looks: nat
    ghost var over: bool
    ghost var failures: set<Kind>

    method Passed() returns (passed: bool)
      modifies this`looks, this`over
      ensures if passed then over else looks < old(looks) && over == old(over)
    {
      passed := *;
      if looks == 0 {
        passed := true;
      } else {
        looks := looks - 1;
      }
      over := over || passed;
    }

    /** Waits a little for something to happen. */
    method Poll() returns (r: Result<(), Kind>)
      modifies this`failures
      ensures failures == old(failures) + if r.Failure? then {r.error} else {}
    {
      r := *;
      failures := failures + if r.Failure? then {r.error} else {};
    }
  }

  class InputPipe {
    ghost var accepted: seq<Byte>
    ghost var closed: bool
    ghost var unusable: set<Kind>  // why it could not be made nonblocking
    ghost var failures: set<Kind>  // of the writes
    ghost var stuck: bool          // a write accepted nothing

    method Write(bytes: seq<Byte>) returns (r: Result<nat, Kind>)
      requires !closed
      modifies this`accepted, this`failures, this`stuck
      ensures r.Success? ==>
                && r.value <= |bytes| && accepted == old(accepted) + bytes[..r.value]
                && failures == old(failures) && stuck == (old(stuck) || r.value == 0)
      ensures r.Failure? ==>
                accepted == old(accepted) && failures == old(failures) + {r.error} && stuck == old(stuck)
    {
      var ok := *;
      if ok {
        var n: int := *;
        n := if 0 <= n <= |bytes| then n else |bytes|;
        accepted, stuck := accepted + bytes[..n], stuck || n == 0;
        return Success(n);
      }
      var kind := *;
      failures := failures + {kind};
      return Failure(kind);
    }

    method MakeNonblocking() returns (r: Result<(), Kind>)
      modifies this`unusable
      ensures unusable == old(unusable) + if r.Failure? then {r.error} else {}
    {
      r := *;
      unusable := unusable + if r.Failure? then {r.error} else {};
    }

    method Close()
      modifies this`closed
      ensures closed
    {
      closed := true;
    }
  }

  class OutputPipe {
    ghost var delivered: seq<Byte>
    ghost var ended: bool
    ghost var unusable: set<Kind>
    ghost var failures: set<Kind>  // of the reads

    method MakeNonblocking() returns (r: Result<(), Kind>)
      modifies this`unusable
      ensures unusable == old(unusable) + if r.Failure? then {r.error} else {}
    {
      r := *;
      unusable := unusable + if r.Failure? then {r.error} else {};
    }

    /** An empty read is the end of the stream. */
    method Read() returns (r: Result<seq<Byte>, Kind>)
      requires !ended
      modifies this`delivered, this`ended, this`failures
      ensures r.Success? ==> |r.value| <= CHUNK && delivered == old(delivered) + r.value && ended == (r.value == [])
      ensures r.Failure? ==> delivered == old(delivered) && !ended
      ensures failures == old(failures) + if r.Failure? then {r.error} else {}
    {
      var ok := *;
      if ok {
        var bytes: seq<Byte> := *;
        bytes := if |bytes| <= CHUNK then bytes else bytes[..CHUNK];
        delivered := delivered + bytes;
        ended := bytes == [];
        return Success(bytes);
      }
      var kind := *;
      failures := failures + {kind};
      return Failure(kind);
    }
  }

  datatype Act = GroupSignalled | LeaderSignalled | Reaped

  /** The process that leads the helper's group. */
  class Child {
    var status: Option<int>
    ghost var exited: bool
    ghost var acts: seq<Act>
    ghost var failures: set<Kind>      // of asking whether it exited
    ghost var unsignalled: set<Kind>   // of signalling its group
    ghost var unreaped: set<Kind>      // of waiting for it

    method KillGroup() returns (r: Result<(), Kind>)
      modifies this`acts, this`unsignalled
      ensures acts == old(acts) + [GroupSignalled]
      ensures unsignalled == old(unsignalled) + if r.Failure? then {r.error} else {}
    {
      acts := acts + [GroupSignalled];
      r := *;
      unsignalled := unsignalled + if r.Failure? then {r.error} else {};
    }

    /** Signals the leader alone, unless its status is known. */
    method Kill()
      modifies this`acts
      ensures acts == if status.None? then old(acts) + [LeaderSignalled] else old(acts)
    {
      if status.None? {
        acts := acts + [LeaderSignalled];
      }
    }

    /** Waits for the leader and reaps it; a status that is known is given again. */
    method Wait() returns (r: Result<int, Kind>)
      modifies this`status, this`exited, this`acts, this`unreaped
      ensures unreaped == old(unreaped) + if r.Failure? then {r.error} else {}
      ensures old(status).Some? ==>
                status == old(status) && r == Success(status.value) && acts == old(acts) && exited == old(exited)
      ensures old(status).None? && r.Success? ==> status == Some(r.value) && exited && acts == old(acts) + [Reaped]
      ensures old(status).None? && r.Failure? ==> status.None? && acts == old(acts) && exited == old(exited)
    {
      if status.Some? {
        return Success(status.value);
      }
      r := *;
      if r.Success? {
        status := Some(r.value);
        exited := true;
        acts := acts + [Reaped];
      } else if r.Failure? {
        unreaped := unreaped + {r.error};
      }
    }

    /** Asks whether the leader has exited, without reaping it. */
    method HasExited() returns (r: Result<bool, Kind>)
      modifies this`exited, this`failures
      ensures r == Success(true) ==> exited
      ensures old(exited) ==> exited
      ensures r.Failure? ==> r.error != Interrupted && failures == old(failures) + {r.error}
    {
      r := *;
      if r == Success(true) {
        exited := true;
      } else if r == Failure(Interrupted) {
        return Success(false);
      } else if r.Failure? {
        failures := failures + {r.error};
      }
    }
  }

  /** The group is signalled before anything else, and nothing is done once the leader is reaped. */
  ghost predicate Orderly(acts: seq<Act>) {
    (acts != [] ==> acts[0] == GroupSignalled) && forall i :: 0 <= i < |acts| - 1 ==> acts[i] != Reaped
  }

  class OwnedChild {
    const child: Child
    var groupCleaned: bool
    var reaped: bool

    ghost predicate Valid()
      reads this, child
    {
      && Orderly(child.acts)
      && (reaped <==> Reaped in child.acts) && (reaped <==> child.status.Some?)
      && (groupCleaned ==> child.acts != [])
    }

    constructor (child: Child)
      requires child.status.None? && child.acts == []
      ensures Valid() && this.child == child && !reaped
    {
      this.child := child;
      groupCleaned, reaped := false, false;
    }

    /** Signals the group and then reaps the leader, in this order: an unreaped leader reserves the group's id. */
    method Cleanup() returns (r: Result<(), Kind>)
      requires Valid() && !reaped
      modifies this, child
      ensures Valid() && child.acts != [] && (old(child.exited) ==> child.exited)
      ensures r.Success? ==> reaped && groupCleaned && child.exited
      ensures r.Failure? ==> r.error in child.unreaped || (r.error != NoSuchProcess && r.error in child.unsignalled)
      ensures old(child.unreaped) <= child.unreaped && old(child.unsignalled) <= child.unsignalled
      ensures child.failures == old(child.failures)
    {
      var groupResult: Result<(), Kind> := Success(());
      if !groupCleaned {
        var killed := child.KillGroup();
        if killed.Success? || killed.error == NoSuchProcess {
          groupCleaned := true;
        } else {
          child.Kill();
          groupResult := killed;
        }
      }
      var waited := child.Wait();
      reaped := waited.Success?;
      return if groupResult.Failure? then groupResult else if waited.Failure? then Failure(waited.error)
        else Success(());
    }

    method Drop()
      requires Valid()
      modifies this, child
      ensures Valid() && (old(reaped) || child.acts != [])
      ensures old(reaped) ==>
                child.acts == old(child.acts) && child.status == old(child.status) && child.exited == old(child.exited)
      ensures old(child.unreaped) <= child.unreaped && old(child.unsignalled) <= child.unsignalled
      ensures child.failures == old(child.failures)
    {
      if !reaped {
        var _ := Cleanup();
      }
    }
  }

  /** Reads once from a pipe that is still open; open tells afterwards whether the stream goes on. */
  method ReadOnce(pipe: OutputPipe, open: bool, bytes: seq<Byte>) returns (r: Result<bool, Kind>, more: seq<Byte>)
    requires open == !pipe.ended && bytes == pipe.delivered
    modifies pipe`delivered, pipe`ended, pipe`failures
    ensures more == pipe.delivered && (r.Success? ==> r.value == !pipe.ended)
    ensures r.Failure? ==> r.error != WouldBlock && r.error != Interrupted && r.error in pipe.failures
    ensures old(pipe.failures) <= pipe.failures
  {
    if !open {
      return Success(false), bytes;
    }
    var read := pipe.Read();
    match read {
      case Success(data) => return Success(data != []), bytes + data;
      case Failure(kind) =>
        return if kind == WouldBlock || kind == Interrupted then Success(true) else Failure(kind), bytes;
    }
  }

  /** Writing ends the run if nothing is accepted, or with an error other than that there is no room yet. */
  ghost predicate WriteFailed(error: Kind, pipe: InputPipe)
    reads pipe
  {
    || (error == WriteZero && pipe.stuck)
    || (error != WouldBlock && error != Interrupted && error in pipe.failures)
  }

  /** Writes one bounded chunk of what remains of the input. */
  method WriteOnce(pipe: InputPipe, remaining: seq<Byte>) returns (r: Result<(), Kind>, rest: seq<Byte>)
    requires !pipe.closed
    modifies pipe`accepted, pipe`failures, pipe`stuck
    ensures pipe.accepted + rest == old(pipe.accepted) + remaining
    ensures r.Failure? ==> WriteFailed(r.error, pipe)
    ensures old(pipe.failures) <= pipe.failures && (old(pipe.stuck) ==> pipe.stuck)
  {
    var chunk := if |remaining| <= CHUNK then |remaining| else CHUNK;
    var written := pipe.Write(remaining[..chunk]);
    match written {
      case Success(count) =>
        assert remaining == remaining[..chunk][..count] + remaining[count..];
        return if count == 0 then Failure(WriteZero) else Success(()), remaining[count..];
      case Failure(kind) =>
        return if kind == WouldBlock || kind == Interrupted then Success(()) else Failure(kind), remaining;
    }
  }

  /** Closes the pipe when nothing remains, before or after writing a chunk. */
  method Feed(pipe: InputPipe, open: bool, remaining: seq<Byte>) returns (r: Result<bool, Kind>, rest: seq<Byte>)
    requires open == !pipe.closed && (!open ==> remaining == [])
    modifies pipe`accepted, pipe`closed, pipe`failures, pipe`stuck
    ensures pipe.accepted + rest == old(pipe.accepted) + remaining
    ensures r.Failure? ==> WriteFailed(r.error, pipe)
    ensures old(pipe.failures) <= pipe.failures && (old(pipe.stuck) ==> pipe.stuck)
    ensures r.Success? ==> r.value == !pipe.closed && (!r.value ==> rest == [])
  {
    rest := remaining;
    if !open {
      return Success(false), rest;
    }
    if remaining == [] {
      pipe.Close();
      return Success(false), rest;
    }
    var written;
    written, rest := WriteOnce(pipe, remaining);
    if written.Failure? {
      return Failure(written.error), rest;
    }
    if rest == [] {
      pipe.Close();
    }
    return Success(rest != []), rest;
  }

  /** The reasons for which the exchange may end early: the deadline, or a call that failed for good. That a pipe is not
      ready, or that a call was interrupted, is no reason. */
  ghost predicate EndsExchange(error: Kind, child: Child, stdin: InputPipe, stdout: OutputPipe, stderr: OutputPipe,
                               deadline: Deadline)
    reads child, stdin, stdout, stderr, deadline
  {
    || (error == TimedOut && deadline.over)
    || error in stdin.unusable || error in stdout.unusable || error in stderr.unusable
    || WriteFailed(error, stdin)
    || (error != WouldBlock && error != Interrupted && (error in stdout.failures || error in stderr.failures))
    || (error != Interrupted && (error in child.failures || error in deadline.failures))
  }

  /** Feeds the input and collects both outputs until everything is written, both streams ended and the child exited. */
  method Exchange(child: Child, stdin: InputPipe, stdout: OutputPipe, stderr: OutputPipe, deadline: Deadline,
                  input: Option<seq<Byte>>)
    returns (r: Result<(seq<Byte>, seq<Byte>), Kind>)
    requires stdout != stderr && stdin.accepted == [] && stdin.closed == input.None?
    requires stdout.delivered == [] && !stdout.ended && stderr.delivered == [] && !stderr.ended
    modifies child`exited, child`failures, stdin, stdout, stderr, deadline
    ensures old(child.exited) ==> child.exited
    ensures r.Failure? ==> EndsExchange(r.error, child, stdin, stdout, stderr, deadline)
    ensures stdin.accepted <= if input.Some? then input.value else []
    ensures r.Success? ==> child.exited && stdin.closed && stdin.accepted == if input.Some? then input.value else []
    ensures r.Success? ==> stdout.ended && stderr.ended && r.value == (stdout.delivered, stderr.delivered)
  {
    if input.Some? {
      var setIn := stdin.MakeNonblocking();
      if setIn.Failure? {
        return Failure(setIn.error);
      }
    }
    var setOut := stdout.MakeNonblocking();
    if setOut.Failure? {
      return Failure(setOut.error);
    }
    var setErr := stderr.MakeNonblocking();
    if setErr.Failure? {
      return Failure(setErr.error);
    }
    var stdinOpen, stdoutOpen, stderrOpen := input.Some?, true, true;
    var remaining: seq<Byte> := if input.Some? then input.value else [];
    var out: seq<Byte>, err: seq<Byte> := [], [];
    while true
      invariant stdin.accepted + remaining == if input.Some? then input.value else []
      invariant stdinOpen == !stdin.closed && (!stdinOpen ==> remaining == [])
      invariant out == stdout.delivered && stdoutOpen == !stdout.ended
      invariant err == stderr.delivered && stderrOpen == !stderr.ended
      invariant old(child.exited) ==> child.exited
      decreases deadline.looks
    {
      var passed := deadline.Passed();
      if passed {
        return Failure(TimedOut);
      }
      var feeding, reading, errors;
      feeding, remaining := Feed(stdin, stdinOpen, remaining);
      if feeding.Failure? {
        return Failure(feeding.error);
      }
      stdinOpen := feeding.value;
      reading, out := ReadOnce(stdout, stdoutOpen, out);
      if reading.Failure? {
        return Failure(reading.error);
      }
      stdoutOpen := reading.value;
      errors, err := ReadOnce(stderr, stderrOpen, err);
      if errors.Failure? {
        return Failure(errors.error);
      }
      stderrOpen := errors.value;
      var exited := child.HasExited();
      if exited.Failure? {
        return Failure(exited.error);
      }
      if exited.value && !stdinOpen && !stdoutOpen && !stderrOpen {
        return Success((out, err));
      }
      var polled := deadline.Poll();
      if polled.Failure? && polled.error != Interrupted {
        return Failure(polled.error);
      }
    }
  }

  /** Succeeds only if the helper took the whole input, both outputs are complete, and the leader has exited. On every
      path its group has been signalled, first of all, and nothing was signalled once the leader was reaped. */
  method RunCommand(spawned: Result<Child, Kind>, stdin: InputPipe, stdout: OutputPipe, stderr: OutputPipe,
                    deadline: Deadline,
                    input: Option<seq<Byte>>)
    returns (r: Result<Output, Kind>)
    requires spawned.Success? ==> spawned.value.status.None? && spawned.value.acts == []
    requires stdout != stderr && stdin.accepted == [] && stdin.closed == input.None?
    requires stdout.delivered == [] && !stdout.ended && stderr.delivered == [] && !stderr.ended
    modifies if spawned.Success? then {spawned.value} else {}
    modifies stdin, stdout, stderr, deadline
    ensures spawned.Failure? ==> r == Failure(spawned.error)
    ensures r.Failure? && spawned.Success? ==>
              || EndsExchange(r.error, spawned.value, stdin, stdout, stderr, deadline)
              || r.error in spawned.value.unreaped
              || (r.error != NoSuchProcess && r.error in spawned.value.unsignalled)
    ensures spawned.Success? ==>
              var acts := spawned.value.acts;
              acts != [] && acts[0] == GroupSignalled && forall i :: 0 <= i < |acts| - 1 ==> acts[i] != Reaped
    ensures r.Success? ==>
              spawned.value.exited && Reaped in spawned.value.acts && spawned.value.status == Some(r.value.status)
    ensures stdin.accepted <= if input.Some? then input.value else []
    ensures r.Success? ==> stdin.closed && stdin.accepted == if input.Some? then input.value else []
    ensures r.Success? ==> stdout.ended && r.value.stdout == stdout.delivered
    ensures r.Success? ==> stderr.ended && r.value.stderr == stderr.delivered
  {
    if spawned.Failure? {
      return Failure(spawned.error);
    }
    var owned := new OwnedChild(spawned.value);
    var result := Exchange(spawned.value, stdin, stdout, stderr, deadline, input);
    var cleanup := owned.Cleanup();
    if result.Success? && cleanup.Success? {
      var status := owned.child.Wait();
      r := match status
           case Success(code) => Success(Output(code, result.value.0, result.value.1))
           case Failure(kind) => Failure(kind);
    } else {
      r := Failure(if cleanup.Failure? then cleanup.error else result.error);
    }
    owned.Drop();
  }
}
