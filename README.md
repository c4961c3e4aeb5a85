# IntegrityLock, modelled in Dafny

IntegrityLock automates a cyber-recovery drill across three machines.
1. It recovers the latest safeguarded copy of a consistency group on an IBM SVC array, as a snapshot volume (`ibm_flash.py`).
2. It maps that volume to an AIX host, where the volume group is imported, varied on, mounted and exported over NFS (`aix_nfs.py`).
3. A SUSE server mounts those exports (an adapter is picked round-robin for each mount, but only logged) and has CyberSense scan them (`suse_scan.py`, `playground/scan_v2.py`).
4. Meanwhile IBM Spectrum Protect backs the same paths up and is polled for completion (`backup.py`).
5. Only after every earlier stage succeeded, the file systems are freed and unmounted on SUSE and AIX, and the volume group is varied off and exported (`cleanup.py`). The NFS exports, the host mapping and the recovered copy stay in place. A mail report is assembled from the logs (`report.py`).
6. `playground/main.py` runs `ibm_flash.py`, then `aix_nfs.py`, then `suse_scan.py` and `backup.py` side by side, then `cleanup.py`, each as a child process. It runs neither `report.py` nor `playground/scan_v2.py`.

The model keeps the decisions and the ordering of these scripts: what they parse, which command they issue next, and when they stop. The outside world is an oracle.

- **Host and oracle** (module `Effects`). A `Host` object holds the trace of events issued so far. An event is a local command (`subprocess.run`), an SSH connect, exec or close, an HTTP POST or GET, a sleep, or a mail. The reply to each event is `oracle(trace so far, event)`.
- **Checks.** `Check` turns a reply into the exception the script raises:
  - a non-zero exit status of a `check=True` command is a `CalledProcessError`;
  - any stderr text of an SSH command is the `Exception` of `ssh_execute_command`.
- **Pipelines.** Every sequence of commands that stops at the first exception is the function `RunSteps` of its step list. `RunAll`, the method that issues the steps one by one, is proved to produce exactly that trace and outcome. The stop-at-first-failure properties are proved once, about `RunSteps`.
- **Status loops.** The `while True` status loops are one generic `Poll` method, proved against `PollSpec`. Each monitor supplies its own classifier of a status reply.
- **Python built-ins** (module `Text`). These are the string operations the parsers rely on: `str.strip`, `str.split(sep)`, `str.split()`, `str.splitlines`, `sub in s` and the code-point order behind `>`. Each is a function whose contract or lemmas tie its result back to the input string.

Modules follow the scripts: `IbmFlash`, `SuseScan`, `Backup`, `ScanV2`, `Cleanup`, `AixNfs`, `Report`, `Orchestrator`, over the shared `Text`, `Effects` and `Polling`.

## Model

| member | source | states |
|---|---|---|
| Effects.Capture | ibm_flash.py:16 | `subprocess.run(..., check=True, capture_output=True)`: one command is issued; a non-zero exit raises CalledProcessError for that command and its status; otherwise stdout is returned |
| Effects.SshExecute | suse_scan.py:10-23 | `ssh_execute_command` (also cleanup.py:9-22): one exec is issued; any stderr text raises with that text; otherwise stdout is returned |
| Effects.RunStepsStopsAtFirstFailure | cleanup.py:41-59 | a pipeline issues exactly its steps up to the first failing one, in order; it ends normally iff every step passes, and otherwise raises the failing step's exception |
| Effects.LocalStepsStopAtFirstFailure | aix_nfs.py:53-59 | for local commands: issued in order, every one before the last exited 0, and it raises iff the last exited non-zero, as CalledProcessError of that command |
| Effects.RemoteStepsStopAtFirstFailure | suse_scan.py:32-46 | for ssh commands: issued in order, every one before the last left stderr empty, and it raises iff the last wrote to stderr, with that text |
| Effects.RunStepsConcat | cleanup.py:108-116 | running `a + b` is running `a` and, only if it ended normally, `b` from the trace it left |
| Effects.RunAll | aix_nfs.py:53-56 | the `for` loop over `check=True` commands issues the trace of `RunSteps` and returns its outcome |
| Polling.PollEvents | suse_scan.py:76-95 | a monitor run issues the status request at every even position and the sleep at every odd one; it ends on a poll when something stopped it |
| Polling.PollVerdicts | suse_scan.py:76-95 | every poll that was followed by a sleep was classified Continue; a run that stopped reports the verdict on its last poll |
| Polling.PollOnce | suse_scan.py:77-95 | one loop round: poll; sleep only if the reply does not stop the loop |
| Polling.Poll | suse_scan.py:76-95 | the `while True` loop issues exactly the events of `PollSpec` and ends as it says |
| Text.TrimStart | ibm_flash.py:19 | the leading half of `s.strip()`: a suffix of `s` that does not start with whitespace, and everything cut off before it is whitespace |
| Text.TrimEnd | ibm_flash.py:19 | the trailing half of `s.strip()`: a prefix of `s` that does not end with whitespace, and everything cut off after it is whitespace |
| Text.Strip | ibm_flash.py:19 | `s.strip()`: the result starts and ends with a non-whitespace character, or is empty (also aix_nfs.py:15, ibm_flash.py:70) |
| Text.StripSlice | ibm_flash.py:19 | `s.strip()` is the middle piece of `s` once cut into a whitespace-only prefix, that piece and a whitespace-only suffix |
| Text.Split | aix_nfs.py:15 | `s.split("\n")`: never an empty list, a single piece iff there is no separator, and no piece holds the separator (also ibm_flash.py:19, ibm_flash.py:70) |
| Text.Words | ibm_flash.py:24 | `s.split()`: every token is non-empty and free of whitespace (also ibm_flash.py:72, backup.py:66) |
| Text.Lines | backup.py:64 | `s.splitlines()`: no line holds a line boundary |
| Text.LinesJoin | backup.py:64 | `"\n".join(parts).splitlines() == parts` for lines without line boundaries whose last line is non-empty |
| Text.ContainsInfix | report.py:44-52 | `sub in a + sub + b` holds, which places the two headers in the report |
| Text.WordsRest | ibm_flash.py:24-26 | the tokens after the first of `s.split()` are the tokens of what follows the leading whitespace and the first token, so `fields[i + 1]` is token `i` of that rest (also backup.py:66) |
| Text.ContainingHasWord | backup.py:65-66 | a line containing "Session ID" has a last token, so `line.split()[-1]` does not fail |
| Text.LessIrreflexive | ibm_flash.py:29 | no timestamp is below itself under Python's string order |
| IbmFlash.DataRows | ibm_flash.py:19 | `stdout.strip().split("\n")[1:]`: no data row holds a newline (also ibm_flash.py:70) |
| Text.LessTotal | ibm_flash.py:29 | two timestamps are equal or one is below the other under Python's string order |
| Text.LessTransitive | ibm_flash.py:29 | Python's string order is transitive |
| Text.JoinSplit | aix_nfs.py:15 | `"\n".join(s.split("\n")) == s` |
| IbmFlash.DataRowsFollowHeader | ibm_flash.py:19 | the first line of the trimmed listing is the header and holds no newline; header and data rows join back to the whole listing; there are no data rows iff the listing is one line |
| IbmFlash.LatestIsUnique | ibm_flash.py:23-31 | at most one row is the latest |
| IbmFlash.LatestIsFirstOfTies | ibm_flash.py:29 | the latest row's timestamp is at least every row's, and among rows with that timestamp it is the first |
| IbmFlash.LatestExtends | ibm_flash.py:29-31 | a new row replaces the latest so far exactly when its timestamp is strictly greater |
| IbmFlash.PickLatest | ibm_flash.py:20-37 | the loop raises IndexError iff some row has fewer than five fields; it raises "No safeguarded copies found." iff there are no data rows; otherwise it returns field 0 of the latest row |
| IbmFlash.QueryLatestSafeguardedCopy | ibm_flash.py:7-41 | issues exactly `lsrecovrp -filtervalue consistencygroup={cg}`; a failing listing re-raises; otherwise the result is that of the picker on the rows after the header |
| IbmFlash.RecoverSafeguardedCopy | ibm_flash.py:43-56 | issues exactly `mkrecovercopy -recovrp {id} -targetname {name}` and re-raises its failure |
| IbmFlash.VolumeIdFromListing | ibm_flash.py:70-76 | the result is a whitespace-free token that starts the first data row once leading whitespace is dropped; it raises "Volume ID not found for snapshot." iff there is no data row, and IndexError iff that row is blank, so it returns a volume ID iff the first data row holds a token |
| IbmFlash.RetrieveVolumeId | ibm_flash.py:58-80 | issues exactly `lsvdisk -filtervalue name={name}`; a failing listing re-raises; otherwise the result is the parse of its output |
| IbmFlash.PresentSnapshot | ibm_flash.py:82-94 | issues exactly `svctask mkvdiskhostmap -host {server} -scsi {id}` and re-raises its failure |
| SuseScan.MountOptionsFixed | suse_scan.py:39-43 | every mount command has the same option text before and after; only `server:export mount_point` varies |
| SuseScan.MountsStopAtFirstFailure | suse_scan.py:32-46 | mounts go out in list order; every earlier one left stderr empty; the first that writes to stderr ends the loop with that text as the exception |
| SuseScan.CycleIsMod | suse_scan.py:49 | the adapter index after k mounts is k mod the adapter count, so it stays below the count |
| SuseScan.RoundRobinIsMod | suse_scan.py:29-34 | the k-th mount picks `adapter_ips[k % len(adapter_ips)]` |
| SuseScan.MountNfsOnSuse | suse_scan.py:25-49 | with an empty adapter list and a non-empty mount list, it raises IndexError before issuing anything; otherwise it issues the `RunSteps` trace of the mount commands, and the adapters picked follow the round robin |
| SuseScan.ScanStartResult | suse_scan.py:63-69 | the scan started iff the status is 200 or 202, returning `job_id`; otherwise it raises "Scan failed to start" |
| SuseScan.StartCybersenseScan | suse_scan.py:51-69 | posts the policy and export to `{api_url}/PolicyExec` once and decides by the status check |
| SuseScan.ClassifyScan | suse_scan.py:79-92 | a non-200 status reply stops the monitor as unavailable; a 200 whose state is Failed or Canceled stops it as failed or canceled, and nothing else does |
| SuseScan.ClassifyScanContinues | suse_scan.py:79-92 | a status reply keeps the monitor polling iff it is a 200 whose state is none of Done, Failed, Canceled; it stops as done iff the state is "Done" |
| SuseScan.MonitorScan | suse_scan.py:71-95 | the monitor issues the `PollSpec` events of the job-status GET with a 30-second interval |
| SuseScan.ScanMonitorShape | suse_scan.py:76-95 | the same GET at even positions and `Sleep(30)` at odd ones; every poll but the last was a 200 in a non-terminal state; the end reported is the verdict on the last reply, and none of the ends raises |
| Backup.BackupsStopAtFirstFailure | backup.py:19-22 | one `dsmc incr {path}` per path in list order; the first non-zero exit is re-raised and no later path is started |
| Backup.SessionIdOf | backup.py:64-68 | a session ID found is a non-empty token without whitespace |
| Backup.SessionIdFromFirstMatch | backup.py:64-67 | the ID is the last token of the first line containing "Session ID" |
| Backup.NoSessionIdWithoutMatch | backup.py:64-68 | there is no ID iff no line contains "Session ID" |
| Backup.LaterLinesIgnored | backup.py:65-67 | lines after the first match never change the result |
| Backup.ParseSessionId | backup.py:56-68 | the loop over `splitlines()` returns the session ID of the output's lines |
| Backup.SessionFromReply | backup.py:47-54 | a failing session query yields None; a successful one yields exactly what `parse_session_id` finds in its output lines, and a found session ID is a non-empty token without whitespace |
| Backup.GetBackupSessionId | backup.py:39-54 | issues the fixed `query session` command once; a failing query yields None rather than raising |
| Backup.StartBackup | backup.py:9-37 | a failing path re-raises and nothing follows; otherwise the session is queried once; a missing ID raises "Backup session ID could not be retrieved" instead of returning None |
| Backup.ClassifyBackup | backup.py:81-99 | a status query that exits non-zero stops the monitor with that exit status; it stops as failed iff the query succeeded and the output mentions "Failed" but not "Completed" |
| Backup.ClassifyBackupPrecedence | backup.py:87-94 | output with "Completed" counts as completed even if it mentions "Failed"; the monitor polls on iff the query succeeded and mentions neither word |
| Backup.BackupMonitorResult | backup.py:98-100 | a failing status query is re-raised; every other end is returned |
| Backup.MonitorBackup | backup.py:70-100 | the monitor issues the `PollSpec` events of the session status query with a 30-second interval |
| Backup.BackupMonitorShape | backup.py:77-96 | the same query at even positions and `Sleep(30)` after each; every query but the last exited 0 and mentioned neither word |
| Backup.CancelBackup | backup.py:102-113 | issues only the fixed `halt session` command and re-raises its failure |
| ScanV2.SessionResult | playground/scan_v2.py:19-25 | a session is created iff the status is exactly 200, returning `sessionid`; otherwise it raises "Failed to create session" |
| ScanV2.AcceptedStatusDiffers | playground/scan_v2.py:19-50 | 202 fails session creation but starts a scan; 200 succeeds for both; every other code fails both |
| ScanV2.CreateSession | playground/scan_v2.py:10-25 | one POST to `{api_url}/session` with the bearer token header and no body, decided by the status check |
| ScanV2.ScanRequestCarriesSession | playground/scan_v2.py:31-42 | the scan request carries exactly the `sessionid` header, set to the session ID, and the `Content-Type: application/json` header, and a body of exactly `policy` and `nfs_export` |
| ScanV2.StartCybersenseScan | playground/scan_v2.py:27-50 | one POST of the scan request; 200 or 202 starts the scan, and any other status raises |
| ScanV2.MonitorScan | playground/scan_v2.py:52-80 | the session monitor issues the `PollSpec` events of its GET and decides like suse_scan.py's monitor |
| ScanV2.StatusPollsCarrySession | playground/scan_v2.py:56-80 | every poll is the same GET of `/JobStatus` with the session header and the `job_id` parameter; every poll but the last found the job still running |
| Cleanup.KillThenUmount | cleanup.py:47-53 | two commands per mount point, none of them opening or closing a session |
| Cleanup.KillPrecedesUmount | cleanup.py:47-53 | mount point j is freed by `sudo fuser -km` at position 2j and unmounted at 2j+1, in list order |
| Cleanup.CheckAndKillOpenFiles | cleanup.py:24-35 | issues `sudo fuser -km {fs}` locally and re-raises its failure |
| Cleanup.UnmountNfsOnSuse | cleanup.py:37-59 | connect, the kill/umount pairs, close, as one pipeline that stops at the first exception |
| Cleanup.SuseClosesOnlyOnSuccess | cleanup.py:45-59 | the SSH connect is issued first, and `ssh.close()` is issued iff every mount point was unmounted |
| Cleanup.SuseUmountOnlyAfterKill | cleanup.py:47-53 | a SUSE mount point is unmounted only right after its local `fuser` exited 0 |
| Cleanup.UnmountFileSystemsOnAix | cleanup.py:61-76 | the kill/umount pairs on AIX, stopping at the first non-zero exit |
| Cleanup.AixUmountOnlyAfterKill | cleanup.py:66-72 | an AIX file system is unmounted only right after its `fuser` exited 0 |
| Cleanup.DeactivateAndExportVg | cleanup.py:78-94 | `varyoffvg` then `exportvg`, stopping at the first failure |
| Cleanup.ExportOnlyAfterVaryOff | cleanup.py:84-89 | `exportvg` is issued iff `varyoffvg` exited 0; otherwise the varyoff failure is raised |
| Cleanup.VolumeGroupOnlyAfterUnmounts | cleanup.py:108-116 | the volume group is varied off only when both unmount stages ended normally |
| Cleanup.RunCleanup | cleanup.py:108-121 | SUSE, then AIX, then the volume group, as one pipeline; the exception that stopped it is the one the script logs |
| AixNfs.DiskList | aix_nfs.py:15-17 | the disk list is never empty, holds no newline, and joins back to the trimmed output |
| AixNfs.ListAvailableDisks | aix_nfs.py:7-20 | issues `lsdev -Cc disk`; a failure re-raises; otherwise the result is the split listing |
| AixNfs.ImportVolumeGroup | aix_nfs.py:22-33 | issues exactly `importvg -y {vg} {disk}` and re-raises its failure |
| AixNfs.ActivateVolumeGroup | aix_nfs.py:35-46 | issues exactly `varyonvg {vg}` and re-raises its failure |
| AixNfs.MountFileSystems | aix_nfs.py:48-60 | one `mount {fs}` per entry, stopping at the first failure |
| AixNfs.MountsStopAtFirstFailure | aix_nfs.py:53-59 | mounts go out in list order; every earlier one exited 0; the first non-zero exit is raised and nothing later is mounted |
| AixNfs.ExportNfsShares | aix_nfs.py:62-74 | one `mknfsexp -d {share} -nfsvers 4` per share, stopping at the first failure |
| AixNfs.ExportsStopAtFirstFailure | aix_nfs.py:67-73 | exports go out in list order; every earlier one exited 0; the first non-zero exit is raised and nothing later is exported |
| AixNfs.MountOnlyAfterActivation | aix_nfs.py:82-95 | file systems are mounted only after the listing, `importvg` and `varyonvg` ran in that order, with import and varyon exiting 0 |
| AixNfs.SetUpNfs | aix_nfs.py:76-101 | list, import, activate, mount, export, as one pipeline: a failure skips every later step |
| Report.GatherScanResults | report.py:9-22 | the whole scan log, or exactly "Scan results log file not found." when it does not exist |
| Report.GatherBackupResults | report.py:24-37 | the whole backup log, or exactly "Backup results log file not found." when it does not exist |
| Report.GenerateReport | report.py:39-54 | the report is the fixed template around the two results: it starts with the scan header block, ends with the closing indentation, and adds nothing beyond the template and the results |
| Report.ReportLayout | report.py:44-52 | both results appear verbatim, scan before backup; "CyberSense Scan Results:" comes before the scan results, and "IBM Spectrum Protect Backup Results:" between the two |
| Report.ReportSections | report.py:44-52 | reading a report back yields results that regenerate it |
| Report.ReportRoundTrip | report.py:39-54 | the template loses nothing: both results are recovered from the report |
| Report.MissingLogsAreReported | report.py:14-37 | a missing log's fallback text stands in the report where that log would be |
| Report.ReportMail | report.py:62-65 | the subject is always "Daily Integrity Report", To is the recipient, and the body is the report |
| Report.SendReport | report.py:56-74 | one mail is handed over; a send failure is swallowed, so it has no error outcome |
| Report.RunReport | report.py:76-86 | gather both logs, build the report, and mail it once |
| Orchestrator.RunScript | playground/main.py:8-19 | issues `python3 {script}`; a non-zero exit is re-raised as CalledProcessError |
| Orchestrator.Orchestrate | playground/main.py:21-46 | the main block issues exactly the events of `Orchestration` and ends with its outcome |
| Orchestrator.Orchestration | playground/main.py:21-46 | every run starts ibm_flash.py first and starts at most five scripts; it ends normally only when all five were started |
| Orchestrator.StageOrder | playground/main.py:24-42 | scripts start in the order ibm_flash, aix_nfs, suse_scan, backup, cleanup; a run issues a prefix of it, never stopping between the two parallel scripts |
| Orchestrator.EarlyFailureStopsAll | playground/main.py:22-27 | a failing ibm_flash.py or aix_nfs.py stops every later script, cleanup included |
| Orchestrator.ParallelStagesAwaitScanFirst | playground/main.py:30-37 | both parallel scripts start before either is awaited; when both fail, the scan's failure is reported |
| Orchestrator.CleanupOnlyAfterSuccess | playground/main.py:42-46 | cleanup.py runs iff all four earlier scripts succeeded, and the run ends normally iff cleanup also does |

## Left out

- Real effects are not modelled: the behaviour of `subprocess`, paramiko, `requests`, `smtplib`/`MIMEText` and file reads. Each is an event answered by the oracle; file contents are a map from path to text.
- Logging is left out. So is the wall-clock length of `time.sleep`, which appears only as a `Sleep(30)` event between polls.
- The `while True` loops have no deadline in the scripts. The model follows at most `fuel` polls, and a `None` end means only that the model stopped following, not a timeout.
- `ThreadPoolExecutor` is modelled as two events answered against the same trace, then awaited in submission order. Real interleaving is not modelled.
- Each script's exit status is an oracle answer in `Orchestrator`. The model does not link it to that script's own model. Note that the `__main__` blocks of aix_nfs.py, cleanup.py, ibm_flash.py, suse_scan.py and backup.py catch `Exception` and log it, so an error inside them does not by itself make the child exit non-zero.
- The `__main__` blocks of ibm_flash.py, suse_scan.py, backup.py and playground/scan_v2.py chain the modelled functions with example values: ibm_flash.py's queries, recovers, retrieves and presents, stopping at the first failure; suse_scan.py's connects, mounts, starts a scan of the first mount's export, monitors it and always closes the connection. These chains are not modelled as members of their own. The scan_v2 one also calls a `mount_nfs_on_suse` it never defines. For aix_nfs.py, cleanup.py and report.py the hard-coded names become parameters: the snapshot disk, the mount lists, the volume group and the recipient.
- playground/scan_api.py is not part of this model: it is top-level HTTP calls and a CSV write, without decision logic.
- JSON bodies are maps from string to string; a non-string JSON value and a body that fails to decode are not modelled. Exceptions other than the ones in `Effects.Error` are not modelled, such as a read error other than a missing file, or paramiko's error types.
- The SMTP connection, STARTTLS and login of `send_report` are not modelled. Their only effect on the outcome is an exception, which the function swallows.
- The adapter address chosen by `mount_nfs_on_suse` is only logged; no command uses it. The model returns the chosen addresses instead.
