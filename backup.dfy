/** backup.py: back up each path with the IBM Spectrum Protect client, find the
    backup's session ID with the administrative client, and poll that session
    every 30 seconds until its status shows Completed or Failed. */
module Backup {
  import opened Text
  import opened Effects
  import opened Polling

  function BackupCommand(path: string): string
  {
    "dsmc incr " + path
  }

  const SessionQueryCommand := "dsmadmc -id=admin -password=admin query session"
  const CancelCommand := "dsmadmc -id=admin -password=admin halt session"

  function SessionStatusCommand(sessionId: string): string
  {
    SessionQueryCommand + " " + sessionId
  }

  /** The commands of start_backup's loop, one per path, in list order. */
  function BackupSteps(paths: seq<string>): (steps: seq<Step>)
    ensures |steps| == |paths|
    ensures forall k :: 0 <= k < |paths| ==> steps[k] == Local(BackupCommand(paths[k]))
  {
    seq(|paths|, k requires 0 <= k < |paths| => Local(BackupCommand(paths[k])))
  }

  /** One `dsmc incr` per path, in list order, each started only after the
      previous one exited 0; the first non-zero exit is re-raised and no later
      path is backed up. */
  lemma BackupsStopAtFirstFailure(o: Oracle, t: Trace, paths: seq<string>)
    ensures var e := RunSteps(o, t, BackupSteps(paths)); var n := |e.issued|;
      && (forall k :: 0 <= k < n ==> e.issued[k] == Run(BackupCommand(paths[k])))
      && (forall k :: 0 <= k < n - 1 ==> o(t + e.issued[..k], e.issued[k]).code == 0)
      && (e.outcome.Ok? ==> n == |paths| && (n > 0 ==> o(t + e.issued[..n - 1], e.issued[n - 1]).code == 0))
      && (e.outcome.Raised? ==>
            && 0 < n
            && o(t + e.issued[..n - 1], e.issued[n - 1]).code != 0
            && e.outcome == Raised(CalledProcessError(BackupCommand(paths[n - 1]), o(t + e.issued[..n - 1], e.issued[n - 1]).code)))
  {
    LocalStepsStopAtFirstFailure(o, t, BackupSteps(paths));
  }

  /** The last whitespace-separated token of a line: `line.split()[-1]`. */
  function LastWord(line: string): string
    requires Words(line) != []
  {
    Words(line)[|Words(line)| - 1]
  }

  /** The session ID in the lines of `query session` output: the last token of
      the first line mentioning "Session ID", if any. */
  function SessionIdOf(lines: seq<string>): (r: Option<string>)
    ensures r.Some? ==> IsWord(r.value)
  {
    if lines == [] then None
    else if Contains(lines[0], "Session ID") then
      ContainingHasWord(lines[0], "Session ID", 0);
      Some(LastWord(lines[0]))
    else SessionIdOf(lines[1..])
  }

  /** The ID comes from the first line that mentions "Session ID". */
  lemma {:induction false} SessionIdFromFirstMatch(lines: seq<string>, i: nat)
    requires i < |lines| && Contains(lines[i], "Session ID")
    requires forall j :: 0 <= j < i ==> !Contains(lines[j], "Session ID")
    ensures Words(lines[i]) != []
    ensures SessionIdOf(lines) == Some(LastWord(lines[i]))
  {
    ContainingHasWord(lines[i], "Session ID", 0);
    if i > 0 {
      SessionIdFromFirstMatch(lines[1..], i - 1);
    }
  }

  /** There is no ID exactly when no line mentions "Session ID". */
  lemma {:induction false} NoSessionIdWithoutMatch(lines: seq<string>)
    ensures SessionIdOf(lines) == None <==> forall j :: 0 <= j < |lines| ==> !Contains(lines[j], "Session ID")
  {
    if lines != [] {
      NoSessionIdWithoutMatch(lines[1..]);
      assert forall j :: 1 <= j < |lines| ==> lines[1..][j - 1] == lines[j];
    }
  }

  /** Lines after the first match never change the result. */
  lemma {:induction false} LaterLinesIgnored(lines: seq<string>, more: seq<string>)
    requires SessionIdOf(lines).Some?
    ensures SessionIdOf(lines + more) == SessionIdOf(lines)
  {
    if !Contains(lines[0], "Session ID") {
      assert (lines + more)[1..] == lines[1..] + more;
      LaterLinesIgnored(lines[1..], more);
    }
  }

  /** parse_session_id: scan output.splitlines() and return at the first line
      containing "Session ID". */
  method ParseSessionId(output: string) returns (r: Option<string>)
    ensures r == SessionIdOf(Lines(output))
  {
    var lines := Lines(output);
    for i := 0 to |lines|
      invariant SessionIdOf(lines[i..]) == SessionIdOf(lines)
    {
      assert lines[i..][1..] == lines[i + 1..];
      if Contains(lines[i], "Session ID") {
        ContainingHasWord(lines[i], "Session ID", 0);
        var words := Words(lines[i]);
        return Some(words[|words| - 1]);
      }
    }
    return None;
  }

  /** What get_backup_session_id makes of the reply to the session query: a
      failing query is logged and yields None. */
  function SessionFromReply(reply: Reply): (id: Option<string>)
    ensures reply.code != 0 ==> id == None
    ensures reply.code == 0 ==> id == SessionIdOf(Lines(reply.stdout))
    ensures id.Some? ==> IsWord(id.value)
  {
    if reply.code != 0 then None else SessionIdOf(Lines(reply.stdout))
  }

  /** get_backup_session_id */
  method GetBackupSessionId(h: Host) returns (r: Option<string>)
    modifies h
    ensures h.trace == old(h.trace) + [Run(SessionQueryCommand)]
    ensures r == SessionFromReply(h.oracle(old(h.trace), Run(SessionQueryCommand)))
  {
    var result := Capture(h, SessionQueryCommand);
    if result.Raised? {
      return None;
    }
    r := ParseSessionId(result.value);
  }

  /** start_backup: back up every path, then fetch the session ID; a failing
      path re-raises its CalledProcessError, and a missing ID raises instead of
      returning None. */
  method StartBackup(h: Host, backupPaths: seq<string>) returns (r: Outcome<string>)
    modifies h
    ensures var e := RunSteps(h.oracle, old(h.trace), BackupSteps(backupPaths));
      && (e.outcome.Raised? ==> h.trace == old(h.trace) + e.issued && r == Raised(e.outcome.error))
      && (e.outcome.Ok? ==>
            var t1 := old(h.trace) + e.issued;
            var sessionId := SessionFromReply(h.oracle(t1, Run(SessionQueryCommand)));
            && h.trace == t1 + [Run(SessionQueryCommand)]
            && r == if sessionId.Some? then Ok(sessionId.value)
                    else Raised(Failure("Backup session ID could not be retrieved")))
  {
    var backups := RunAll(h, BackupSteps(backupPaths));
    if backups.Raised? {
      return Raised(backups.error);
    }
    var sessionId := GetBackupSessionId(h);
    // `if session_id:` is a truthiness test; a parsed ID is never empty
    if sessionId.Some? && sessionId.value != "" {
      r := Ok(sessionId.value);
    } else {
      r := Raised(Failure("Backup session ID could not be retrieved"));
    }
  }

  /** What one status query of monitor_backup shows: the session finished or
      failed, or the query itself exited non-zero. */
  datatype BackupStatus = Completed | BackupFailed | QueryFailed(returncode: int)

  /** "Completed" is looked for before "Failed"; anything else keeps polling. */
  function ClassifyBackup(reply: Reply): (v: Verdict<BackupStatus>)
    ensures v.Stop? && v.result.QueryFailed? <==> reply.code != 0
    ensures v.Stop? && v.result.QueryFailed? ==> v.result.returncode == reply.code
    ensures v == Stop(BackupFailed) <==>
      reply.code == 0 && !Contains(reply.stdout, "Completed") && Contains(reply.stdout, "Failed")
  {
    if reply.code != 0 then Stop(QueryFailed(reply.code))
    else if Contains(reply.stdout, "Completed") then Stop(Completed)
    else if Contains(reply.stdout, "Failed") then Stop(BackupFailed)
    else Continue
  }

  /** Output mentioning both words counts as completed; the monitor polls on
      exactly when the query succeeded and mentions neither. */
  lemma ClassifyBackupPrecedence(reply: Reply)
    ensures reply.code == 0 && Contains(reply.stdout, "Completed") ==> ClassifyBackup(reply) == Stop(Completed)
    ensures ClassifyBackup(reply) == Stop(BackupFailed) ==> !Contains(reply.stdout, "Completed")
    ensures ClassifyBackup(reply).Continue? <==>
      reply.code == 0 && !Contains(reply.stdout, "Completed") && !Contains(reply.stdout, "Failed")
  {
  }

  /** How monitor_backup ends given how its polling stopped: a failing query
      is re-raised; None means the model's fuel ran out first. */
  function BackupMonitorResult(sessionId: string, end: Option<BackupStatus>): (r: Outcome<Option<BackupStatus>>)
    ensures r.Raised? <==> end.Some? && end.value.QueryFailed?
    ensures r.Raised? ==> r.error == CalledProcessError(SessionStatusCommand(sessionId), end.value.returncode)
    ensures r.Ok? ==> r.value == end
  {
    if end.Some? && end.value.QueryFailed? then
      Raised(CalledProcessError(SessionStatusCommand(sessionId), end.value.returncode))
    else Ok(end)
  }

  /** monitor_backup; `fuel` bounds the number of polls the model follows. */
  method MonitorBackup(h: Host, sessionId: string, fuel: nat) returns (r: Outcome<Option<BackupStatus>>)
    modifies h
    ensures var w := PollSpec(h.oracle, old(h.trace), Run(SessionStatusCommand(sessionId)), ClassifyBackup, 30, fuel);
      h.trace == old(h.trace) + w.issued && r == BackupMonitorResult(sessionId, w.end)
  {
    var end := Poll(h, Run(SessionStatusCommand(sessionId)), ClassifyBackup, 30, fuel);
    r := BackupMonitorResult(sessionId, end);
  }

  /** The run of a backup monitor: the same status query at even positions and
      a 30-second sleep after each; every query but the last exited 0 and
      mentioned neither "Completed" nor "Failed"; a monitor that stopped
      reports the verdict on the last query. */
  lemma BackupMonitorShape(o: Oracle, t: Trace, sessionId: string, fuel: nat)
    ensures var request := Run(SessionStatusCommand(sessionId));
      var w := PollSpec(o, t, request, ClassifyBackup, 30, fuel); var n := |w.issued|;
      && (forall k :: 0 <= k < n ==> w.issued[k] == if k % 2 == 0 then request else Sleep(30))
      && (forall k :: 0 <= k < n - 1 && k % 2 == 0 ==>
            var reply := o(t + w.issued[..k], request);
            reply.code == 0 && !Contains(reply.stdout, "Completed") && !Contains(reply.stdout, "Failed"))
      && (w.end.Some? ==> ClassifyBackup(o(t + w.issued[..n - 1], request)) == Stop(w.end.value))
  {
    var request := Run(SessionStatusCommand(sessionId));
    PollEvents(o, t, request, ClassifyBackup, 30, fuel);
    PollVerdicts(o, t, request, ClassifyBackup, 30, fuel);
    var w := PollSpec(o, t, request, ClassifyBackup, 30, fuel);
    forall k | 0 <= k < |w.issued| - 1 && k % 2 == 0
      ensures var reply := o(t + w.issued[..k], request);
        reply.code == 0 && !Contains(reply.stdout, "Completed") && !Contains(reply.stdout, "Failed")
    {
      assert ContinuedAt(o, t, w.issued, ClassifyBackup, k);
      ClassifyBackupPrecedence(o(t + w.issued[..k], request));
    }
  }

  /** cancel_backup: only the fixed `halt session` command. */
  method CancelBackup(h: Host) returns (r: Outcome<()>)
    modifies h
    ensures h.trace == old(h.trace) + [Run(CancelCommand)]
    ensures r == Check(Local(CancelCommand), h.oracle(old(h.trace), Run(CancelCommand)))
  {
    r := Execute(h, Local(CancelCommand));
  }
}
