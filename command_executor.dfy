/**
  The process launcher of the setup tool: run a command given as an argument list or as a
  ready command line, wait for it to exit, and report the outcome.

  The Win32 calls are stubs whose replies are arbitrary (the verifier considers every
  reply). Each call is recorded, with its reply, in the launcher's `calls` history, and the
  launcher's `processOpen` and `threadOpen` fields say which handles it holds.
*/
module CommandExecutor {
  import opened ArgumentEncoder
  import CrtParsing

  /** exec_result: the outcome of one execution attempt. */
  datatype ExecResult =
    | Success
    | FailureEmptyCommand
    | FailureBuildCommand
    | FailureCreateProcess
    | FailureWait

  /** A Win32 call the launcher made, with the reply it got. */
  datatype Win32Call =
    | CreateProcessW(commandLine: string, created: bool)
    | WaitForSingleObject(failed: bool)
    | GetExitCodeProcess(retrieved: bool)
    | CloseProcessHandle
    | CloseThreadHandle

  datatype Handle = ProcessHandle | ThreadHandle

  /** The handles open after `call`, given the handles open before it. */
  function AfterCall(open: set<Handle>, call: Win32Call): set<Handle> {
    match call
    case CreateProcessW(_, created) => if created then open + {ProcessHandle, ThreadHandle} else open
    case CloseProcessHandle => open - {ProcessHandle}
    case CloseThreadHandle => open - {ThreadHandle}
    case _ => open
  }

  /** The handles still open after a history of calls, replayed from the start. */
  function OpenHandles(calls: seq<Win32Call>): set<Handle>
  {
    if calls == [] then {} else AfterCall(OpenHandles(calls[..|calls| - 1]), calls[|calls| - 1])
  }

  lemma OpenHandlesSnoc(calls: seq<Win32Call>, call: Win32Call)
    ensures OpenHandles(calls + [call]) == AfterCall(OpenHandles(calls), call)
  {
    assert (calls + [call])[..|calls|] == calls;
  }

  /**
    The calls execute_command_line makes for `commandLine`, and its result: nothing for an
    empty command line; otherwise CreateProcessW on a private null-terminated copy, and
    after a successful create the wait, the exit code when the wait worked, and the closing
    of both handles.
  */
  ghost predicate Launched(commandLine: string, log: seq<Win32Call>, r: ExecResult) {
    if commandLine == [] then
      log == [] && r == FailureEmptyCommand
    else
      var buffer := commandLine + ['\0'];
      || (log == [CreateProcessW(buffer, false)] && r == FailureCreateProcess)
      || (log == [CreateProcessW(buffer, true), WaitForSingleObject(true), CloseProcessHandle, CloseThreadHandle]
          && r == FailureWait)
      || (log == [CreateProcessW(buffer, true), WaitForSingleObject(false), GetExitCodeProcess(true),
                  CloseProcessHandle, CloseThreadHandle]
          && r == Success)
      || (log == [CreateProcessW(buffer, true), WaitForSingleObject(false), GetExitCodeProcess(false),
                  CloseProcessHandle, CloseThreadHandle]
          && r == Success)
  }

  /**
    What every launch reports: an empty command line is refused without creating a process,
    and a process is created from the given command line exactly when the result is Success
    or FailureWait.
  */
  lemma LaunchOutcome(commandLine: string, log: seq<Win32Call>, r: ExecResult)
    requires Launched(commandLine, log, r)
    ensures r == FailureEmptyCommand <==> commandLine == []
    ensures r != FailureBuildCommand
    ensures (r == Success || r == FailureWait) <==> CreateProcessW(commandLine + ['\0'], true) in log
  {
  }

  /**
    No launch leaves a handle open, whatever the Win32 replies; after a failed create no
    handle was ever open.
  */
  lemma LaunchReleasesHandles(commandLine: string, log: seq<Win32Call>, r: ExecResult)
    requires Launched(commandLine, log, r)
    ensures OpenHandles(log) == {}
    ensures r == FailureCreateProcess ==> forall k :: 0 <= k <= |log| ==> OpenHandles(log[..k]) == {}
  {
    if commandLine != [] {
      var buffer := commandLine + ['\0'];
      if r == FailureCreateProcess {
        var create := CreateProcessW(buffer, false);
        assert log == [create];
        OpenHandlesSnoc([], create);
        assert [] + [create] == log;
        forall k | 0 <= k <= |log|
          ensures OpenHandles(log[..k]) == {}
        {
          if k == 0 {
            assert log[..k] == [];
          } else {
            assert log[..k] == log;
          }
        }
      } else {
        var middle := if r == FailureWait then [WaitForSingleObject(true)]
                      else [WaitForSingleObject(false), GetExitCodeProcess(log[2].retrieved)];
        assert log == [CreateProcessW(buffer, true)] + middle + [CloseProcessHandle] + [CloseThreadHandle];
        RunClosesHandles(buffer, middle);
      }
    }
  }

  /** Waiting and reading the exit code neither open nor close a handle. */
  predicate Passive(call: Win32Call) {
    call.WaitForSingleObject? || call.GetExitCodeProcess?
  }

  lemma {:induction false} PassiveCallsKeepHandles(before: seq<Win32Call>, middle: seq<Win32Call>)
    requires forall i :: 0 <= i < |middle| ==> Passive(middle[i])
    ensures OpenHandles(before + middle) == OpenHandles(before)
    decreases |middle|
  {
    if middle != [] {
      var front := middle[..|middle| - 1];
      PassiveCallsKeepHandles(before, front);
      assert Passive(middle[|middle| - 1]);
      assert before + middle == (before + front) + [middle[|middle| - 1]];
      OpenHandlesSnoc(before + front, middle[|middle| - 1]);
    } else {
      assert before + middle == before;
    }
  }

  /** A successful create, passive calls, then both closes: nothing is left open. */
  lemma RunClosesHandles(buffer: string, middle: seq<Win32Call>)
    requires forall i :: 0 <= i < |middle| ==> Passive(middle[i])
    ensures OpenHandles([CreateProcessW(buffer, true)] + middle + [CloseProcessHandle] + [CloseThreadHandle]) == {}
  {
    var create := CreateProcessW(buffer, true);
    OpenHandlesSnoc([], create);
    assert [] + [create] == [create];
    PassiveCallsKeepHandles([create], middle);
    OpenHandlesSnoc([create] + middle, CloseProcessHandle);
    OpenHandlesSnoc([create] + middle + [CloseProcessHandle], CloseThreadHandle);
  }

  /** The words that open every failure message. */
  const FailurePrefix := "Execution failed: "

  /**
    get_result_message: the text shown for each outcome; every failure, and only a failure,
    is reported under `FailurePrefix`.
  */
  function ResultMessage(r: ExecResult): (m: string)
    ensures r != Success <==> |m| >= |FailurePrefix| && m[..|FailurePrefix|] == FailurePrefix
  {
    match r
    case Success => assert "Command executed successfully."[0] != FailurePrefix[0]; "Command executed successfully."
    case FailureEmptyCommand => Failure("The command or argument list was empty.")
    case FailureBuildCommand => Failure("Could not build the command line string (e.g., encoding error).")
    case FailureCreateProcess => Failure("CreateProcessW failed. Check system error logs.")
    case FailureWait => Failure("Waiting for the child process failed.")
  }

  /** A failure message: the prefix followed by the reason. */
  function Failure(reason: string): (m: string)
    ensures |m| == |FailurePrefix| + |reason| && m[..|FailurePrefix|] == FailurePrefix
  {
    FailurePrefix + reason
  }

  /** The messages differ in length, so no two outcomes share a text. */
  lemma ResultMessagesDistinct(a: ExecResult, b: ExecResult)
    ensures a != b ==> ResultMessage(a) != ResultMessage(b)
  {
    MessageLengthIs(a);
    MessageLengthIs(b);
  }

  /** The length of each message; the five lengths are distinct. */
  function MessageLength(r: ExecResult): nat {
    match r
    case Success => 30
    case FailureEmptyCommand => 57
    case FailureBuildCommand => 81
    case FailureCreateProcess => 65
    case FailureWait => 55
  }

  /** `MessageLength` is the length of the message. */
  lemma MessageLengthIs(r: ExecResult)
    ensures |ResultMessage(r)| == MessageLength(r)
  {
  }

  /** A history extended by new calls keeps the old calls as its prefix. */
  lemma HistoryExtended(before: seq<Win32Call>, made: seq<Win32Call>)
    ensures (before + made)[..|before|] == before
    ensures (before + made)[|before|..] == made
  {
  }

  class Launcher {
    /** Whether the launcher holds an open process handle (pi.hProcess). */
    var processOpen: bool
    /** Whether the launcher holds an open thread handle (pi.hThread). */
    var threadOpen: bool
    /** Every Win32 call made so far, with its reply. */
    ghost var calls: seq<Win32Call>

    /** The handle fields agree with a replay of the calls. */
    ghost predicate Valid()
      reads this
    {
      && (processOpen <==> ProcessHandle in OpenHandles(calls))
      && (threadOpen <==> ThreadHandle in OpenHandles(calls))
    }

    ghost predicate Idle()
      reads this
    {
      Valid() && !processOpen && !threadOpen
    }

    constructor ()
      ensures Idle() && calls == []
    {
      processOpen, threadOpen := false, false;
      calls := [];
    }

    /** CreateProcessW: on success both the process and the thread handle are open. */
    method CreateProcess(buffer: string) returns (created: bool)
      requires Idle()
      modifies this
      ensures Valid()
      ensures processOpen == created && threadOpen == created
      ensures calls == old(calls) + [CreateProcessW(buffer, created)]
    {
      created := *;
      calls := calls + [CreateProcessW(buffer, created)];
      processOpen, threadOpen := created, created;
    }

    /** WaitForSingleObject with an infinite timeout; `failed` stands for WAIT_FAILED. */
    method WaitForProcess() returns (failed: bool)
      requires Valid() && processOpen
      modifies this
      ensures Valid()
      ensures processOpen == old(processOpen) && threadOpen == old(threadOpen)
      ensures calls == old(calls) + [WaitForSingleObject(failed)]
    {
      failed := *;
      calls := calls + [WaitForSingleObject(failed)];
    }

    /** GetExitCodeProcess: the exit code is only reported, never acted upon. */
    method GetExitCode() returns (retrieved: bool, exitCode: int)
      requires Valid() && processOpen
      modifies this
      ensures Valid()
      ensures processOpen == old(processOpen) && threadOpen == old(threadOpen)
      ensures calls == old(calls) + [GetExitCodeProcess(retrieved)]
    {
      retrieved := *;
      exitCode := *;
      calls := calls + [GetExitCodeProcess(retrieved)];
    }

    /** CloseHandle(pi.hProcess): only an open handle may be closed. */
    method CloseProcess()
      requires Valid() && processOpen
      modifies this
      ensures Valid()
      ensures !processOpen && threadOpen == old(threadOpen)
      ensures calls == old(calls) + [CloseProcessHandle]
    {
      calls := calls + [CloseProcessHandle];
      processOpen := false;
    }

    /** CloseHandle(pi.hThread): only an open handle may be closed. */
    method CloseThread()
      requires Valid() && threadOpen
      modifies this
      ensures Valid()
      ensures !threadOpen && processOpen == old(processOpen)
      ensures calls == old(calls) + [CloseThreadHandle]
    {
      calls := calls + [CloseThreadHandle];
      threadOpen := false;
    }

    /**
      execute_command_line: refuses an empty command line, otherwise creates the process on
      a private null-terminated copy, waits for it, and closes both handles on every path
      that follows a successful create.
    */
    method ExecuteCommandLine(commandLine: string) returns (r: ExecResult)
      requires Idle()
      modifies this
      ensures Idle()
      ensures |old(calls)| <= |calls| && calls[..|old(calls)|] == old(calls)
      ensures Launched(commandLine, calls[|old(calls)|..], r)
    {
      ghost var start := calls;
      if commandLine == [] {
        HistoryExtended(start, []);
        return FailureEmptyCommand;
      }
      var buffer := commandLine + ['\0'];
      var created := CreateProcess(buffer);
      if !created {
        HistoryExtended(start, [CreateProcessW(buffer, false)]);
        return FailureCreateProcess;
      }
      var waitFailed := WaitForProcess();
      if waitFailed {
        CloseProcess();
        CloseThread();
        ghost var made := [CreateProcessW(buffer, true), WaitForSingleObject(true), CloseProcessHandle, CloseThreadHandle];
        assert calls == start + made;
        HistoryExtended(start, made);
        return FailureWait;
      }
      var retrieved, exitCode := GetExitCode();
      CloseProcess();
      CloseThread();
      ghost var made := [CreateProcessW(buffer, true), WaitForSingleObject(false), GetExitCodeProcess(retrieved),
                         CloseProcessHandle, CloseThreadHandle];
      assert calls == start + made;
      HistoryExtended(start, made);
      return Success;
    }

    /**
      execute_command: refuses an empty argument list, reports a failed conversion of any
      argument as FailureBuildCommand, and otherwise launches the encoded command line, from
      which the child reads back exactly the converted arguments unless one of them holds a
      NUL, where the child's reading stops.
    */
    method ExecuteCommand(widen: Converter, args: seq<string>) returns (r: ExecResult)
      requires Idle()
      modifies this
      ensures Idle()
      ensures |old(calls)| <= |calls| && calls[..|old(calls)|] == old(calls)
      ensures args == [] ==> r == FailureEmptyCommand && calls == old(calls)
      ensures args != [] && WideArgs(widen, args).None? ==> r == FailureBuildCommand && calls == old(calls)
      ensures args != [] && WideArgs(widen, args).Some? ==>
        var line := CommandLineOf(WideArgs(widen, args).value);
        && Launched(line, calls[|old(calls)|..], r)
        && r != FailureEmptyCommand
        && (CrtParsing.Decode(line) == WideArgs(widen, args).value <==>
            forall i :: 0 <= i < |WideArgs(widen, args).value| ==> CrtParsing.NulFree(WideArgs(widen, args).value[i]))
    {
      if args == [] {
        return FailureEmptyCommand;
      }
      var line := BuildCommandLineString(widen, args);
      if line.None? {
        return FailureBuildCommand;
      }
      CommandLineShape(WideArgs(widen, args).value);
      CrtParsing.RoundTrip(WideArgs(widen, args).value);
      r := ExecuteCommandLine(line.value);
    }
  }
}
