/**
 * The crash supervisor of the application entry point: the exit-code
 * classification and the decision to relaunch the application once in safe
 * mode (NDI disabled) after an abnormal exit. Child processes are abstract:
 * each launch either fails to start or exits with a code.
 */
module Supervisor {
  import opened Wrappers

  const CHILD_FLAG: string := "--child-process"
  const ENV_SUPERVISED: string := "VIDEOCUE_SUPERVISED_CHILD"
  const ENV_ROLE: string := "VIDEOCUE_PROCESS_ROLE"
  const ENV_DISABLE_NDI: string := "VIDEOCUE_DISABLE_NDI"

  /**
   * `_is_abnormal_exit`: zero is normal, negatives (signals) are crashes, and
   * on Windows codes from 0xC0000000 (NTSTATUS faults) or beyond 0x7FFFFFFF are
   * crashes. The first Windows test is subsumed by the second: a code is
   * abnormal exactly when it is negative or, on Windows, does not fit a
   * signed 32-bit value.
   */
  predicate IsAbnormalExit(code: int, isWindows: bool)
    ensures IsAbnormalExit(code, isWindows) <==> code < 0 || (isWindows && code > 0x7FFF_FFFF)
  {
    if code == 0 then false
    else if code < 0 then true
    else if isWindows && code >= 0xC000_0000 then true
    else if isWindows && code > 0x7FFF_FFFF then true
    else false
  }

  /** Arguments forwarded to the child: the command line without any `--child-process`. */
  function ChildArgs(args: seq<string>): (r: seq<string>)
    ensures |r| <= |args|
    ensures forall a :: a in r <==> a in args && a != CHILD_FLAG
    ensures Count(r, CHILD_FLAG) == 0
    ensures |r| + Count(args, CHILD_FLAG) == |args|
  {
    if |args| == 0 then []
    else if args[0] == CHILD_FLAG then ChildArgs(args[1..])
    else [args[0]] + ChildArgs(args[1..])
  }

  function Count(s: seq<string>, x: string): nat
  {
    if |s| == 0 then 0 else (if s[0] == x then 1 else 0) + Count(s[1..], x)
  }

  lemma {:induction false} CountAppend(a: seq<string>, b: seq<string>, x: string)
    ensures Count(a + b, x) == Count(a, x) + Count(b, x)
    decreases |a|
  {
    if |a| > 0 {
      assert (a + b)[1..] == a[1..] + b;
      CountAppend(a[1..], b, x);
    } else {
      assert a + b == b;
    }
  }

  /** Forwarding keeps the other arguments in their order. */
  lemma {:induction false} ChildArgsKeepsOthers(args: seq<string>)
    requires forall k :: 0 <= k < |args| ==> args[k] != CHILD_FLAG
    ensures ChildArgs(args) == args
    decreases |args|
  {
    if |args| > 0 {
      ChildArgsKeepsOthers(args[1..]);
      assert args == [args[0]] + args[1..];
    }
  }

  /**
   * The child command line: the interpreter, the script path when not frozen,
   * the forwarded arguments, and the child flag last.
   */
  function ChildCommand(executable: string, script: Option<string>, args: seq<string>): (c: seq<string>)
    ensures |c| >= 2 && c[0] == executable && c[|c| - 1] == CHILD_FLAG
  {
    [executable] + (if script.Some? then [script.value] else []) + ChildArgs(args) + [CHILD_FLAG]
  }

  /** Whatever the supervisor was given, the child sees the child flag exactly once (the last argument). */
  lemma ChildFlagExactlyOnce(executable: string, script: Option<string>, args: seq<string>)
    requires executable != CHILD_FLAG && (script.Some? ==> script.value != CHILD_FLAG)
    ensures Count(ChildCommand(executable, script, args), CHILD_FLAG) == 1
  {
    var head := [executable] + (if script.Some? then [script.value] else []);
    assert Count(head, CHILD_FLAG) == 0 by {
      CountAppend([executable], if script.Some? then [script.value] else [], CHILD_FLAG);
    }
    CountAppend(head, ChildArgs(args), CHILD_FLAG);
    CountAppend(head + ChildArgs(args), [CHILD_FLAG], CHILD_FLAG);
  }

  /** The child environment: the parent's, marked as supervised child, with NDI disabled on the recovery run. */
  function ChildEnv(env: map<string, string>, disableNdi: bool): (e: map<string, string>)
    ensures ENV_SUPERVISED in e && e[ENV_SUPERVISED] == "1"
    ensures ENV_ROLE in e && e[ENV_ROLE] == "child"
    ensures disableNdi ==> ENV_DISABLE_NDI in e && e[ENV_DISABLE_NDI] == "1"
    ensures !disableNdi ==> (ENV_DISABLE_NDI in e <==> ENV_DISABLE_NDI in env)
    ensures !disableNdi && ENV_DISABLE_NDI in env ==> e[ENV_DISABLE_NDI] == env[ENV_DISABLE_NDI]
    ensures forall k :: k in env ==> k in e
    ensures forall k :: k in e && k != ENV_SUPERVISED && k != ENV_ROLE && k != ENV_DISABLE_NDI ==> k in env && e[k] == env[k]
  {
    var base := env[ENV_SUPERVISED := "1"][ENV_ROLE := "child"];
    if disableNdi then base[ENV_DISABLE_NDI := "1"] else base
  }

  /** What a launch did: it could not start, or the child exited with a code. */
  datatype ChildRun = LaunchFailed | Exited(code: int)

  datatype Launch = Launch(command: seq<string>, env: map<string, string>, disableNdi: bool)

  datatype Dialog = LaunchFailedDialog | RestartingSafeMode | CrashedDialog(code: int)

  /**
   * `_run_with_supervisor`: launch the child; after an abnormal exit tell the
   * user and launch once more with NDI disabled; return the code the user
   * should see. `first` and `recovery` are what the two launches would do.
   */
  method RunWithSupervisor(isWindows: bool, executable: string, script: Option<string>, args: seq<string>,
                           env: map<string, string>, first: ChildRun, recovery: ChildRun)
    returns (exitCode: int, launches: seq<Launch>, dialogs: seq<Dialog>)
    ensures 1 <= |launches| <= 2
    ensures launches[0] == Launch(ChildCommand(executable, script, args), ChildEnv(env, false), false)
    // a second run happens only after an abnormal first exit, and then with NDI disabled
    ensures |launches| == 2 <==> first.Exited? && IsAbnormalExit(first.code, isWindows)
    ensures |launches| == 2 ==> launches[1] == Launch(ChildCommand(executable, script, args), ChildEnv(env, true), true)
    // the code returned
    ensures first.LaunchFailed? ==> exitCode == 1 && dialogs == [LaunchFailedDialog]
    ensures first.Exited? && !IsAbnormalExit(first.code, isWindows) ==> exitCode == first.code && dialogs == []
    ensures |launches| == 2 && recovery.LaunchFailed? ==>
      exitCode == 1 && dialogs == [RestartingSafeMode, LaunchFailedDialog]
    ensures |launches| == 2 && recovery.Exited? && !IsAbnormalExit(recovery.code, isWindows) ==>
      exitCode == recovery.code && dialogs == [RestartingSafeMode]
    ensures |launches| == 2 && recovery.Exited? && IsAbnormalExit(recovery.code, isWindows) ==>
      exitCode == recovery.code && dialogs == [RestartingSafeMode, CrashedDialog(recovery.code)]
  {
    var command := ChildCommand(executable, script, args);
    launches := [Launch(command, ChildEnv(env, false), false)];
    dialogs := [];
    if first.LaunchFailed? {
      dialogs := dialogs + [LaunchFailedDialog];
      return 1, launches, dialogs;
    }
    exitCode := first.code;
    if IsAbnormalExit(exitCode, isWindows) {
      dialogs := dialogs + [RestartingSafeMode];
      launches := launches + [Launch(command, ChildEnv(env, true), true)];
      if recovery.LaunchFailed? {
        dialogs := dialogs + [LaunchFailedDialog];
        return 1, launches, dialogs;
      }
      var recoveryExit := recovery.code;
      if !IsAbnormalExit(recoveryExit, isWindows) {
        return recoveryExit, launches, dialogs;
      }
      exitCode := recoveryExit;
      dialogs := dialogs + [CrashedDialog(exitCode)];
    }
  }
}
