/**
 * The command invoker (`invokeCommand`): for one delivery it builds the
 * command from the configured executable and the split argument template,
 * then opens the process's standard-input pipe, writes the body, starts the
 * process, closes standard input and waits for the process to end. The first
 * step that fails ends the invocation with that step's error; the steps after
 * it are not performed.
 *
 * The operating system is not modelled: what each of the five steps returns
 * is an input (`ProcessEnv`), and the method records which steps it performed
 * (`Action`) so that the early returns are observable.
 */
module Invoker {
  import opened Wrappers
  import ArgTemplate

  /** The message of an error returned by a step (a Go `error` value). */
  type Error = string

  /** One byte of a message body. */
  newtype Byte = b: int | 0 <= b < 256

  /** The `command` part of the configuration: executable and argument template. */
  datatype CommandConfig = CommandConfig(proc: string, args: string)

  /** The process to run: the executable and its positional arguments. */
  datatype Command = Command(path: string, args: seq<string>)

  /** The steps of an invocation, in the order they are performed. */
  datatype Action =
    | OpenStdinPipe
    | WriteStdin(body: seq<Byte>)
    | StartProcess(cmd: Command)
    | CloseStdin
    | WaitProcess

  /**
   * What each step returns when it is performed: `None` for success, or the
   * error. `wait` carries the failure of a process that exits non-zero.
   */
  datatype ProcessEnv = ProcessEnv(
    pipe: Option<Error>,
    write: Option<Error>,
    start: Option<Error>,
    close: Option<Error>,
    wait: Option<Error>)

  /** The command `exec.Command` is given: the template split on single spaces. */
  function BuildCommand(cfg: CommandConfig): (cmd: Command)
    ensures cmd.path == cfg.proc
    ensures ArgTemplate.Join(cmd.args) == cfg.args
    ensures |cmd.args| == multiset(cfg.args)[ArgTemplate.Space] + 1
  {
    ArgTemplate.JoinSplit(cfg.args);
    Command(cfg.proc, ArgTemplate.Split(cfg.args))
  }

  /** The five steps an invocation performs when nothing fails. */
  function Plan(cmd: Command, body: seq<Byte>): (acts: seq<Action>)
  {
    [OpenStdinPipe, WriteStdin(body), StartProcess(cmd), CloseStdin, WaitProcess]
  }

  /** The step results, in the same order as `Plan`. */
  function StepResults(env: ProcessEnv): (rs: seq<Option<Error>>)
  {
    [env.pipe, env.write, env.start, env.close, env.wait]
  }

  /** An invocation succeeds when every one of its steps does. */
  predicate Succeeds(env: ProcessEnv)
  {
    env.pipe.None? && env.write.None? && env.start.None? && env.close.None? && env.wait.None?
  }

  /**
   * Runs the configured command on one message body. The result is `None`
   * exactly when all five steps succeed; otherwise it is the error of the
   * first failing step, and that step is the last one performed.
   */
  method InvokeCommand(cfg: CommandConfig, body: seq<Byte>, env: ProcessEnv)
    returns (err: Option<Error>, trace: seq<Action>)
    ensures err.None? <==> Succeeds(env)
    ensures err.None? ==> trace == Plan(BuildCommand(cfg), body)
    ensures err.Some? ==>
      exists k :: 0 <= k < 5 &&
        StepResults(env)[k] == err &&
        (forall j :: 0 <= j < k ==> StepResults(env)[j].None?) &&
        trace == Plan(BuildCommand(cfg), body)[..k + 1]
    ensures StartProcess(BuildCommand(cfg)) in trace <==> env.pipe.None? && env.write.None?
    ensures WaitProcess in trace <==> env.pipe.None? && env.write.None? && env.start.None? && env.close.None?
  {
    var cmd := BuildCommand(cfg);
    ghost var plan := Plan(cmd, body);
    ghost var rs := StepResults(env);

    trace := [OpenStdinPipe];
    if env.pipe.Some? {
      assert rs[0] == env.pipe && trace == plan[..1];
      return env.pipe, trace;
    }

    trace := trace + [WriteStdin(body)];
    if env.write.Some? {
      assert rs[1] == env.write && trace == plan[..2];
      return env.write, trace;
    }

    trace := trace + [StartProcess(cmd)];
    if env.start.Some? {
      assert rs[2] == env.start && trace == plan[..3];
      return env.start, trace;
    }

    trace := trace + [CloseStdin];
    if env.close.Some? {
      assert rs[3] == env.close && trace == plan[..4];
      return env.close, trace;
    }

    trace := trace + [WaitProcess];
    assert rs[4] == env.wait && trace == plan[..5];
    return env.wait, trace;
  }
}
