/**
 * The pseudo-terminal runner: the child environment, the command line handed to the
 * shell, and the loop that accumulates the child's output until it ends, fails or
 * times out.
 *
 * The operating system is abstract. What `select`, `os.read`, `process.poll` and the
 * clock report during the loop is an input: a finite trace of ticks, one per loop
 * iteration. The descriptors opened and closed and the signal sent are recorded in a
 * ghost log of actions.
 */
module Runner {
  import opened Wrappers
  import opened Strings

  // ---------------------------------------------------------------- environment

  /** The variables the runner always sets for the child. */
  function Forced(rows: nat, cols: nat): map<string, string> {
    map["TERM" := "xterm-256color", "COLUMNS" := NatToString(cols), "LINES" := NatToString(rows),
        "CLICOLOR_FORCE" := "1", "FORCE_COLOR" := "1"]
  }

  /** The terminal type and the colour switches are fixed; the size variables are the
      decimal spellings of the column and row counts. */
  lemma ForcedValues(rows: nat, cols: nat)
    ensures Forced(rows, cols).Keys == {"TERM", "COLUMNS", "LINES", "CLICOLOR_FORCE", "FORCE_COLOR"}
    ensures Forced(rows, cols)["TERM"] == "xterm-256color"
    ensures Forced(rows, cols)["CLICOLOR_FORCE"] == "1" && Forced(rows, cols)["FORCE_COLOR"] == "1"
    ensures IsDigitString(Forced(rows, cols)["COLUMNS"]) && ParseDecimal(Forced(rows, cols)["COLUMNS"]) == cols
    ensures IsDigitString(Forced(rows, cols)["LINES"]) && ParseDecimal(Forced(rows, cols)["LINES"]) == rows
  {
    ParseNatToString(cols);
    ParseNatToString(rows);
  }

  /** The caller's extra variables; `None` and an empty dictionary both add nothing. */
  function Extra(env: Option<map<string, string>>): map<string, string> {
    if env.Some? && |env.value| > 0 then env.value else map[]
  }

  /** The child's environment: a copy of the parent's, the forced variables, then the caller's on top. */
  function ChildEnv(inherited: map<string, string>, rows: nat, cols: nat, env: Option<map<string, string>>)
    : map<string, string>
  {
    inherited + Forced(rows, cols) + Extra(env)
  }

  /** Every variable comes from one of the three layers; the caller's win, then the forced
      ones, and the parent's pass through where neither sets them. */
  lemma ChildEnvLayers(inherited: map<string, string>, rows: nat, cols: nat, env: Option<map<string, string>>)
    ensures ChildEnv(inherited, rows, cols, env).Keys == inherited.Keys + Forced(rows, cols).Keys + Extra(env).Keys
    ensures forall k :: k in Extra(env) ==> ChildEnv(inherited, rows, cols, env)[k] == Extra(env)[k]
    ensures forall k :: k in Forced(rows, cols) && k !in Extra(env) ==>
              ChildEnv(inherited, rows, cols, env)[k] == Forced(rows, cols)[k]
    ensures forall k :: k in inherited && k !in Forced(rows, cols) && k !in Extra(env) ==>
              ChildEnv(inherited, rows, cols, env)[k] == inherited[k]
  {
  }

  /** Setting the forced variables one by one is the same as overlaying them. */
  lemma ForcedByUpdates(m: map<string, string>, rows: nat, cols: nat)
    ensures m["TERM" := "xterm-256color"]["COLUMNS" := NatToString(cols)]["LINES" := NatToString(rows)]
             ["CLICOLOR_FORCE" := "1"]["FORCE_COLOR" := "1"] == m + Forced(rows, cols)
  {
    var updated := m["TERM" := "xterm-256color"]["COLUMNS" := NatToString(cols)]["LINES" := NatToString(rows)]
                    ["CLICOLOR_FORCE" := "1"]["FORCE_COLOR" := "1"];
    var overlay := m + Forced(rows, cols);
    assert updated.Keys == overlay.Keys;
    forall k | k in updated
      ensures updated[k] == overlay[k]
    {
    }
  }

  lemma NothingExtra(m: map<string, string>, env: Option<map<string, string>>)
    requires !(env.Some? && |env.value| > 0)
    ensures m + Extra(env) == m
  {
    assert Extra(env) == map[];
    assert (m + map[]).Keys == m.Keys;
  }

  // ---------------------------------------------------------------- command

  /** A command is a shell line or a list of arguments. */
  datatype Command = Line(line: string) | Args(argv: seq<string>)

  /** What the child is started with. */
  datatype SpawnRequest = SpawnRequest(commandLine: string, shell: bool, env: map<string, string>)

  /** A list is joined with single spaces; both forms go through the shell. */
  function ShellLine(command: Command): (s: string)
    ensures command.Line? ==> s == command.line
    ensures command.Args? && |command.argv| == 1 ==> s == command.argv[0]
  {
    match command
    case Line(line) => line
    case Args(argv) => Join(argv, ' ')
  }

  /** Arguments without spaces are recovered by splitting the shell line at spaces. */
  lemma ArgsRecoverable(argv: seq<string>)
    requires |argv| >= 1
    requires forall i :: 0 <= i < |argv| ==> ' ' !in argv[i]
    ensures Split(ShellLine(Args(argv)), ' ') == argv
  {
    SplitJoin(argv, ' ');
  }

  /** The command preparation at the top of `run`. */
  method PrepareCommand(command: Command) returns (shellCommand: string, useShell: bool)
    ensures shellCommand == ShellLine(command) && useShell
  {
    if command.Line? {
      shellCommand := command.line;
      useShell := true;
    } else {
      shellCommand := Join(command.argv, ' ');
      useShell := true;
    }
  }

  // ---------------------------------------------------------------- read loop

  /** What `os.read` returned: bytes (empty at end of file) or an `OSError`. */
  datatype ReadResult = Data(bytes: seq<byte>) | ReadFailed

  /** The final read attempt after the child ended: what it got, if anything. Its errors are swallowed. */
  datatype Drain = DrainData(bytes: seq<byte>) | DrainIdle | DrainFailed

  /** What `select` reported: the descriptor is ready and was read, nothing arrived in time
      (with what a final read would get should the child have ended), or `ValueError`. */
  datatype Poll = Ready(read: ReadResult) | Idle(drain: Drain) | SelectFailed

  /** One loop iteration as the environment sees it: the time elapsed since the child
      started, whether the child had exited, and what `select` reported. */
  datatype Tick = Tick(elapsed: int, exited: bool, poll: Poll)

  /** Why the loop ended. `TraceEnded` means the given trace ran out before the loop did. */
  datatype EndReason = TimedOut | ChildEnded | SelectClosed | ReadError | TraceEnded

  /** What one iteration appends to the output, and whether the loop goes on. */
  datatype Outcome = Continue(data: seq<byte>) | Stop(data: seq<byte>, reason: EndReason)

  function DrainBytes(d: Drain): seq<byte> {
    if d.DrainData? then d.bytes else []
  }

  /** The timeout check at the top of the loop fires. */
  predicate TimeUp(t: Tick, timeout: Option<int>) {
    timeout.Some? && t.elapsed >= timeout.value
  }

  /** One iteration: the timeout check first, then `select`, then the read or the final drain. */
  function Step(t: Tick, timeout: Option<int>): (o: Outcome)
    ensures (o.Stop? && o.reason == TimedOut) <==> TimeUp(t, timeout)
    ensures TimeUp(t, timeout) ==> o.data == []
    ensures o.Continue? ==> !t.poll.SelectFailed? && (t.poll.Idle? ==> !t.exited)
    ensures o.Stop? && o.reason != TimedOut ==> t.poll.SelectFailed? || t.exited || t.poll == Ready(ReadFailed)
  {
    if TimeUp(t, timeout) then Stop([], TimedOut)
    else
      match t.poll
      case SelectFailed => Stop([], SelectClosed)
      case Ready(ReadFailed) => Stop([], ReadError)
      case Ready(Data(d)) =>
        if d != [] then Continue(d)
        else if t.exited then Stop([], ChildEnded)
        else Continue([])
      case Idle(drain) =>
        if t.exited then Stop(DrainBytes(drain), ChildEnded) else Continue([])
  }

  /** What one iteration appends: the chunk read, or after the child ended the bytes of the
      final read, and nothing in any other case. A chunk read ends the loop only when it is
      empty and the child had already exited. */
  lemma StepAppends(t: Tick, timeout: Option<int>)
    ensures var o := Step(t, timeout);
            && (!TimeUp(t, timeout) && t.poll.Ready? && t.poll.read.Data? ==>
                  o.data == t.poll.read.bytes && (o.Stop? <==> t.poll.read.bytes == [] && t.exited))
            && (!TimeUp(t, timeout) && t.poll.Idle? && t.exited ==>
                  o.data == DrainBytes(t.poll.drain) && o == Stop(o.data, ChildEnded))
            && (t.poll.SelectFailed? || t.poll == Ready(ReadFailed) || (t.poll.Idle? && !t.exited) ==>
                  o.data == [])
  {
  }

  /** The output accumulated over a trace and why the loop ended. */
  datatype Capture = Capture(bytes: seq<byte>, reason: EndReason)

  /** The loop over a whole trace: each iteration's bytes in order, up to the first stop. */
  function Collect(trace: seq<Tick>, timeout: Option<int>): (c: Capture)
    ensures timeout.None? ==> c.reason != TimedOut
    ensures trace == [] ==> c == Capture([], TraceEnded)
    decreases |trace|
  {
    if trace == [] then Capture([], TraceEnded)
    else
      match Step(trace[0], timeout)
      case Stop(d, why) => Capture(d, why)
      case Continue(d) =>
        var rest := Collect(trace[1..], timeout);
        Capture(d + rest.bytes, rest.reason)
  }

  /** The bytes read so far followed by what the rest of the loop reads. */
  function Resume(got: seq<byte>, rest: Capture): Capture {
    Capture(got + rest.bytes, rest.reason)
  }

  lemma ResumeTwice(a: seq<byte>, b: seq<byte>, rest: Capture)
    ensures Resume(a, Resume(b, rest)) == Resume(a + b, rest)
  {
    assert a + (b + rest.bytes) == (a + b) + rest.bytes;
  }

  /** The loop from tick `i` on: that tick's step, then (unless it stopped) the loop from `i + 1`. */
  lemma CollectFrom(trace: seq<Tick>, timeout: Option<int>, i: nat)
    requires i < |trace|
    ensures Collect(trace[i..], timeout) ==
              match Step(trace[i], timeout)
              case Stop(d, why) => Capture(d, why)
              case Continue(d) => Resume(d, Collect(trace[i + 1..], timeout))
  {
    assert trace[i..][0] == trace[i] && trace[i..][1..] == trace[i + 1..];
  }

  /** Output is append-only: watching the loop for longer only extends what was read, and
      once the loop has stopped the later ticks change nothing. */
  lemma {:induction false} CollectPrefix(trace: seq<Tick>, timeout: Option<int>, j: nat)
    requires j <= |trace|
    ensures Collect(trace[..j], timeout).bytes <= Collect(trace, timeout).bytes
    ensures Collect(trace[..j], timeout).reason != TraceEnded ==> Collect(trace[..j], timeout) == Collect(trace, timeout)
  {
    if j > 0 {
      var pre := trace[..j];
      assert pre[0] == trace[0];
      assert pre[1..] == trace[1..][..j - 1];
      match Step(trace[0], timeout)
      case Stop(_, _) =>
      case Continue(d) =>
        CollectPrefix(trace[1..], timeout, j - 1);
    }
  }

  /** With a timeout, nothing is read from the first tick at which the time is up: the
      result is what the earlier ticks gave, ended by the timeout unless something else
      ended it first. */
  lemma {:induction false} TimeoutCutoff(trace: seq<Tick>, limit: int, k: nat)
    requires k < |trace| && trace[k].elapsed >= limit
    ensures var before := Collect(trace[..k], Some(limit));
            Collect(trace, Some(limit)) ==
              if before.reason == TraceEnded then Capture(before.bytes, TimedOut) else before
  {
    if k == 0 {
      assert trace[..0] == [];
    } else {
      var pre := trace[..k];
      assert pre[0] == trace[0];
      assert pre[1..] == trace[1..][..k - 1];
      match Step(trace[0], Some(limit))
      case Stop(_, _) =>
      case Continue(d) =>
        TimeoutCutoff(trace[1..], limit, k - 1);
    }
  }

  /** Failures while draining are swallowed: the loop still ends because the child ended. */
  lemma DrainFailureIgnored(t: Tick, timeout: Option<int>)
    requires t.exited && (t.poll == Idle(DrainFailed) || t.poll == Idle(DrainIdle))
    requires timeout.None? || t.elapsed < timeout.value
    ensures Step(t, timeout) == Stop([], ChildEnded)
  {
  }

  /** One more iteration of the loop: its bytes join those collected so far, and either the
      loop ends there or the rest of the trace follows. */
  lemma CollectAdvance(trace: seq<Tick>, timeout: Option<int>, i: nat, got: seq<byte>)
    requires i < |trace|
    requires Collect(trace, timeout) == Resume(got, Collect(trace[i..], timeout))
    ensures var o := Step(trace[i], timeout);
            Collect(trace, timeout) ==
              if o.Stop? then Capture(got + o.data, o.reason)
              else Resume(got + o.data, Collect(trace[i + 1..], timeout))
  {
    CollectFrom(trace, timeout, i);
    var o := Step(trace[i], timeout);
    if o.Continue? {
      ResumeTwice(got, o.data, Collect(trace[i + 1..], timeout));
    }
  }

  /** An iteration as the source writes it, branch by branch. */
  method RunStep(t: Tick, timeout: Option<int>) returns (o: Outcome)
    ensures o == Step(t, timeout)
  {
    if timeout.Some? {
      if t.elapsed >= timeout.value {
        return Stop([], TimedOut);
      }
    }
    var pollResult := t.exited;
    if t.poll.SelectFailed? {
      return Stop([], SelectClosed);
    }
    if t.poll.Ready? {
      if t.poll.read.ReadFailed? {
        return Stop([], ReadError);
      }
      var data := t.poll.read.bytes;
      if data != [] {
        return Continue(data);
      }
      if pollResult {
        return Stop([], ChildEnded);
      }
      return Continue([]);
    } else if pollResult {
      var extra: seq<byte> := [];
      if t.poll.drain.DrainData? {
        var data := t.poll.drain.bytes;
        if data != [] {
          extra := data;
        }
      }
      return Stop(extra, ChildEnded);
    }
    return Continue([]);
  }

  // ---------------------------------------------------------------- the runner object

  /** What the runner did to the operating system. */
  datatype OsAction =
    | OpenPty
    | SetWindowSize(rows: nat, cols: nat)
    | DisableEcho
    | Spawn(request: SpawnRequest)
    | CloseSlave
    | SignalGroup
    | CloseMaster

  datatype RunError = SpawnFailed

  /** The actions of one `run`: the terminal is set up, the child started and the slave
      side closed, the group signalled on timeout, and the master side closed. */
  function RunLog(rows: nat, cols: nat, request: SpawnRequest, spawned: bool, end: EndReason): seq<OsAction> {
    [OpenPty, SetWindowSize(rows, cols), DisableEcho] +
    (if spawned then [Spawn(request), CloseSlave] + (if end == TimedOut then [SignalGroup] else []) else []) +
    [CloseMaster]
  }

  lemma RunLogFailed(rows: nat, cols: nat, request: SpawnRequest, end: EndReason)
    ensures RunLog(rows, cols, request, false, end) ==
              [OpenPty, SetWindowSize(rows, cols), DisableEcho] + [CloseMaster]
  {
  }

  lemma RunLogSpawned(rows: nat, cols: nat, request: SpawnRequest, end: EndReason)
    ensures RunLog(rows, cols, request, true, end) ==
              [OpenPty, SetWindowSize(rows, cols), DisableEcho] + [Spawn(request), CloseSlave] +
              (if end == TimedOut then [SignalGroup] else []) + [CloseMaster]
  {
  }

  /** The master side is opened first and closed last, on every path, exactly once; the
      group is signalled only on timeout; when starting the child fails the slave side is
      never closed. */
  lemma RunLogShape(rows: nat, cols: nat, request: SpawnRequest, spawned: bool, end: EndReason)
    ensures var log := RunLog(rows, cols, request, spawned, end);
            && |log| >= 4 && log[0] == OpenPty && log[|log| - 1] == CloseMaster
            && CloseMaster !in log[..|log| - 1]
            && (Spawn(request) in log <==> spawned)
            && (SignalGroup in log <==> spawned && end == TimedOut)
            && (CloseSlave in log <==> spawned)
  {
    var log := RunLog(rows, cols, request, spawned, end);
    var middle := if spawned then [Spawn(request), CloseSlave] + (if end == TimedOut then [SignalGroup] else []) else [];
    assert log[..|log| - 1] == [OpenPty, SetWindowSize(rows, cols), DisableEcho] + middle;
  }

  class PTYRunner {
    const rows: nat
    const cols: nat
    var output: seq<byte>
    ghost var actions: seq<OsAction>

    constructor(rows: nat, cols: nat)
      ensures this.rows == rows && this.cols == cols
      ensures output == [] && actions == []
    {
      this.rows := rows;
      this.cols := cols;
      output := [];
      actions := [];
    }

    /** `run`: the environment is built step by step, the output reset, the child started
        and the loop run over `trace`; `spawned` says whether starting the child succeeded.
        The bytes returned are the bytes kept. */
    method Run(command: Command, timeout: Option<int>, env: Option<map<string, string>>,
               inherited: map<string, string>, spawned: bool, trace: seq<Tick>)
      returns (res: Result<seq<byte>, RunError>)
      modifies this
      ensures output == if spawned then Collect(trace, timeout).bytes else []
      ensures res == if spawned then Ok(output) else Err(SpawnFailed)
      ensures actions == old(actions) +
                RunLog(rows, cols, SpawnRequest(ShellLine(command), true, ChildEnv(inherited, rows, cols, env)),
                       spawned, Collect(trace, timeout).reason)
    {
      var shellCommand, useShell := PrepareCommand(command);

      var cmdEnv := BuildEnv(inherited, env);
      res := Session(SpawnRequest(shellCommand, useShell, cmdEnv), timeout, spawned, trace);
    }

    /** The part of `run` from opening the terminal on: the output is reset, the child
        started with `request`, its output read, and the master side closed. */
    method Session(request: SpawnRequest, timeout: Option<int>, spawned: bool, trace: seq<Tick>)
      returns (res: Result<seq<byte>, RunError>)
      modifies this
      ensures output == if spawned then Collect(trace, timeout).bytes else []
      ensures res == if spawned then Ok(output) else Err(SpawnFailed)
      ensures actions == old(actions) + RunLog(rows, cols, request, spawned, Collect(trace, timeout).reason)
    {
      ghost var end := Collect(trace, timeout).reason;
      actions := actions + [OpenPty, SetWindowSize(rows, cols), DisableEcho];
      output := [];
      if !spawned {
        actions := actions + [CloseMaster];
        RunLogFailed(rows, cols, request, end);
        return Err(SpawnFailed);
      }
      actions := actions + [Spawn(request), CloseSlave];
      ReadLoop(trace, timeout);
      actions := actions + [CloseMaster];
      RunLogSpawned(rows, cols, request, end);
      res := Ok(output);
    }

    /** The environment dictionary, copied from the parent's and updated in place. */
    method BuildEnv(inherited: map<string, string>, env: Option<map<string, string>>)
      returns (cmdEnv: map<string, string>)
      ensures cmdEnv == ChildEnv(inherited, rows, cols, env)
    {
      cmdEnv := inherited;
      cmdEnv := cmdEnv["TERM" := "xterm-256color"];
      cmdEnv := cmdEnv["COLUMNS" := NatToString(cols)];
      cmdEnv := cmdEnv["LINES" := NatToString(rows)];
      cmdEnv := cmdEnv["CLICOLOR_FORCE" := "1"];
      cmdEnv := cmdEnv["FORCE_COLOR" := "1"];
      ForcedByUpdates(inherited, rows, cols);
      if env.Some? && |env.value| > 0 {
        cmdEnv := cmdEnv + env.value;
      } else {
        NothingExtra(cmdEnv, env);
      }
    }

    /** The `while True` loop: appends each tick's bytes to `output` until a tick stops it,
        signalling the process group when the time is up. */
    method ReadLoop(trace: seq<Tick>, timeout: Option<int>)
      modifies this
      ensures output == old(output) + Collect(trace, timeout).bytes
      ensures actions == old(actions) + (if Collect(trace, timeout).reason == TimedOut then [SignalGroup] else [])
    {
      var i := 0;
      ghost var got: seq<byte> := [];
      while i < |trace|
        invariant 0 <= i <= |trace|
        invariant output == old(output) + got
        invariant Collect(trace, timeout) == Resume(got, Collect(trace[i..], timeout))
        invariant actions == old(actions)
      {
        var step := RunStep(trace[i], timeout);
        CollectAdvance(trace, timeout, i, got);
        output := output + step.data;
        got := got + step.data;
        if step.Stop? {
          if step.reason == TimedOut {
            actions := actions + [SignalGroup];
          }
          return;
        }
        i := i + 1;
      }
      assert trace[i..] == [];
    }

    /** `get_output`: the bytes kept by the last `run`. */
    method GetOutput() returns (o: seq<byte>)
      ensures o == output
    {
      o := output;
    }
  }
}
