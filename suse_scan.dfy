/** suse_scan.py: mount the AIX NFS exports on the SUSE host over SSH, cycling
    through the 25Gb adapter addresses, then start a CyberSense scan through
    its PolicyExec API and poll the job status every 30 seconds. */
module SuseScan {
  import opened Text
  import opened Effects
  import opened Polling

  /** One `(nfs_server, nfs_export, mount_point)` entry of the mount list. */
  datatype NfsMount = NfsMount(server: string, exportPath: string, mountPoint: string)

  const MountOptionsHead := "sudo mount -o ro,nfsvers=4,tcp,actimeo=0,acregmin=300,acregmax=7200,acdirmin=300,acdirmax=7200 "
  const MountOptionsTail := " -o rw,async,noatime,nodiratime,proto=tcp,nolock"

  function MountCommand(m: NfsMount): string
  {
    MountOptionsHead + m.server + ":" + m.exportPath + " " + m.mountPoint + MountOptionsTail
  }

  /** The ssh commands mount_nfs_on_suse issues, one per entry, in list order. */
  function MountSteps(mounts: seq<NfsMount>): (steps: seq<Step>)
    ensures |steps| == |mounts|
    ensures forall k :: 0 <= k < |mounts| ==> steps[k] == Remote(MountCommand(mounts[k]))
  {
    seq(|mounts|, k requires 0 <= k < |mounts| => Remote(MountCommand(mounts[k])))
  }

  /** Every mount command carries the same option text; between the fixed
      head and tail there is only `server:export mount_point`. */
  lemma MountOptionsFixed(mounts: seq<NfsMount>, k: nat)
    requires k < |mounts|
    ensures var cmd := MountSteps(mounts)[k].cmd; var m := mounts[k];
      && MountOptionsHead <= cmd
      && cmd[|cmd| - |MountOptionsTail|..] == MountOptionsTail
      && cmd[|MountOptionsHead|..|cmd| - |MountOptionsTail|] == m.server + ":" + m.exportPath + " " + m.mountPoint
  {
    var middle := mounts[k].server + ":" + mounts[k].exportPath + " " + mounts[k].mountPoint;
    var cmd := MountSteps(mounts)[k].cmd;
    assert cmd == MountOptionsHead + middle + MountOptionsTail;
    assert cmd[..|MountOptionsHead|] == MountOptionsHead;
    assert cmd[|MountOptionsHead|..|cmd| - |MountOptionsTail|] == middle;
  }

  /** Mounts go out in list order and stop at the first one whose ssh
      command writes to stderr, whose text becomes the exception; every
      earlier mount left stderr empty. */
  lemma MountsStopAtFirstFailure(o: Oracle, t: Trace, mounts: seq<NfsMount>)
    ensures var e := RunSteps(o, t, MountSteps(mounts)); var n := |e.issued|;
      && (forall k :: 0 <= k < n ==> e.issued[k] == Exec(MountCommand(mounts[k])))
      && (forall k :: 0 <= k < n - 1 ==> o(t + e.issued[..k], e.issued[k]).stderr == "")
      && (e.outcome.Ok? ==> n == |mounts| && (n > 0 ==> o(t + e.issued[..n - 1], e.issued[n - 1]).stderr == ""))
      && (e.outcome.Raised? ==>
            && 0 < n
            && o(t + e.issued[..n - 1], e.issued[n - 1]).stderr != ""
            && e.outcome == Raised(SshError(o(t + e.issued[..n - 1], e.issued[n - 1]).stderr)))
  {
    RemoteStepsStopAtFirstFailure(o, t, MountSteps(mounts));
  }

  lemma MulAtLeast(x: int, n: int)
    requires x >= 1 && n > 0
    ensures x * n >= n
  {
  }

  /** a % n is the r of any a == q * n + r with 0 <= r < n. */
  lemma ModUnique(a: int, n: int, q: int, r: int)
    requires n > 0 && 0 <= r < n && a == q * n + r
    ensures a % n == r
  {
    var d := q - a / n;
    assert d * n == a % n - r;
    if d >= 1 {
      MulAtLeast(d, n);
    } else if d <= -1 {
      MulAtLeast(-d, n);
    }
  }

  /** One step of `(adapter_index + 1) % total_adapters`: the next index, or
      0 after the last adapter. */
  lemma CycleStep(x: nat, n: nat)
    requires x < n
    ensures (x + 1) % n == if x + 1 == n then 0 else x + 1
  {
    if x + 1 == n {
      ModUnique(x + 1, n, 1, 0);
    } else {
      ModUnique(x + 1, n, 0, x + 1);
    }
  }

  /** The adapter index after `count` mounts: it starts at 0 and wraps to 0
      after the last adapter. */
  function Cycle(count: nat, n: nat): (index: nat)
    requires n > 0
    ensures index < n
  {
    if count == 0 then 0
    else if Cycle(count - 1, n) + 1 == n then 0
    else Cycle(count - 1, n) + 1
  }

  /** The wrapping index is the mount count modulo the adapter count. */
  lemma {:induction false} CycleIsMod(count: nat, n: nat)
    requires n > 0
    ensures Cycle(count, n) == count % n
  {
    if count == 0 {
      ModUnique(0, n, 0, 0);
    } else {
      CycleIsMod(count - 1, n);
      var q := (count - 1) / n;
      if Cycle(count - 1, n) + 1 == n {
        ModUnique(count, n, q + 1, 0);
      } else {
        ModUnique(count, n, q, Cycle(count - 1, n) + 1);
      }
    }
  }

  /** The adapters picked for the first `count` mounts. */
  function RoundRobin(adapterIps: seq<string>, count: nat): (picked: seq<string>)
    requires adapterIps != []
    ensures |picked| == count
  {
    seq(count, k requires 0 <= k < count => adapterIps[Cycle(k, |adapterIps|)])
  }

  lemma RoundRobinGrows(adapterIps: seq<string>, count: nat)
    requires adapterIps != []
    ensures RoundRobin(adapterIps, count + 1) == RoundRobin(adapterIps, count) + [adapterIps[Cycle(count, |adapterIps|)]]
  {
    assert RoundRobin(adapterIps, count + 1)[..count] == RoundRobin(adapterIps, count);
  }

  /** The k-th mount goes through adapter k mod len(adapter_ips). */
  lemma RoundRobinIsMod(adapterIps: seq<string>, count: nat)
    requires adapterIps != []
    ensures forall k :: 0 <= k < count ==> RoundRobin(adapterIps, count)[k] == adapterIps[k % |adapterIps|]
  {
    forall k | 0 <= k < count
      ensures RoundRobin(adapterIps, count)[k] == adapterIps[k % |adapterIps|]
    {
      CycleIsMod(k, |adapterIps|);
    }
  }

  /** mount_nfs_on_suse: one ssh mount per entry; the k-th entry is logged as
      going through adapter k mod len(adapter_ips), though the command itself
      names no adapter. `selected` holds the adapter picked for each mount
      attempted. An empty adapter list fails on the first entry with IndexError
      before anything is issued. */
  method MountNfsOnSuse(h: Host, mounts: seq<NfsMount>, adapterIps: seq<string>)
    returns (selected: seq<string>, r: Outcome<()>)
    modifies h
    ensures adapterIps == [] && mounts != [] ==>
      h.trace == old(h.trace) && selected == [] && r == Raised(IndexError)
    ensures adapterIps != [] || mounts == [] ==>
      var e := RunSteps(h.oracle, old(h.trace), MountSteps(mounts));
      h.trace == old(h.trace) + e.issued && r == e.outcome && |selected| == |e.issued|
    ensures adapterIps != [] ==> selected == RoundRobin(adapterIps, |selected|)
  {
    ghost var o := h.oracle;
    ghost var t0 := h.trace;
    var steps := MountSteps(mounts);
    var adapterIndex: nat := 0;
    var totalAdapters := |adapterIps|;
    selected := [];
    for i := 0 to |mounts|
      invariant totalAdapters > 0 ==> adapterIndex == Cycle(i, totalAdapters)
      invariant totalAdapters == 0 ==> i == 0
      invariant h.oracle == o
      invariant PassedFirst(o, t0, steps, i, h.trace)
      invariant |selected| == i
      invariant totalAdapters > 0 ==> selected == RoundRobin(adapterIps, i)
    {
      if adapterIndex >= totalAdapters {
        return selected, Raised(IndexError);
      }
      var adapterIp := adapterIps[adapterIndex];
      RoundRobinGrows(adapterIps, i);
      selected := selected + [adapterIp];
      ghost var before := h.trace;
      // ssh_execute_command(ssh_client, mount_command)
      r := Execute(h, steps[i]);
      RunNext(o, t0, steps, i, before, h.trace, r);
      if r.Raised? {
        return;
      }
      CycleStep(adapterIndex, totalAdapters);
      adapterIndex := (adapterIndex + 1) % totalAdapters;
    }
    PassedAll(o, t0, steps, h.trace);
    r := Ok(());
  }

  /** The body of the PolicyExec request. */
  function ScanPayload(policy: string, nfsExport: string): map<string, string>
  {
    map["policy" := policy, "nfs_export" := nfsExport]
  }

  /** The status check of start_cybersense_scan: 200 and 202 both mean the
      scan started, and its job_id (possibly absent) is returned. */
  function ScanStartResult(reply: Reply): (r: Outcome<Option<string>>)
    ensures r.Ok? <==> reply.code in {200, 202}
    ensures r.Ok? ==> r.value == Lookup(reply.json, "job_id")
    ensures r.Raised? ==> r.error == Failure("Scan failed to start")
  {
    if reply.code == 200 || reply.code == 202 then Ok(Lookup(reply.json, "job_id"))
    else Raised(Failure("Scan failed to start"))
  }

  /** start_cybersense_scan */
  method StartCybersenseScan(h: Host, apiUrl: string, policy: string, nfsExport: string)
    returns (r: Outcome<Option<string>>)
    modifies h
    ensures var request := Post(apiUrl + "/PolicyExec", map[], Some(ScanPayload(policy, nfsExport)));
      && h.trace == old(h.trace) + [request]
      && r == ScanStartResult(h.oracle(old(h.trace), request))
  {
    var response := h.Perform(Post(apiUrl + "/PolicyExec", map[], Some(ScanPayload(policy, nfsExport))));
    r := ScanStartResult(response);
  }

  /** How a scan monitor ended: the job finished, it failed or was canceled,
      or the status endpoint answered with a code other than 200. None of
      these raises. */
  datatype ScanEnd = ScanDone | ScanFailedOrCanceled | StatusUnavailable(code: int)

  /** One status reply of monitor_scan: stop on a non-200 code or on state
      Done, Failed or Canceled; any other state, or none, means keep polling. */
  function ClassifyScan(reply: Reply): (v: Verdict<ScanEnd>)
    ensures v == Stop(StatusUnavailable(reply.code)) <==> reply.code != 200
    ensures v == Stop(ScanFailedOrCanceled) <==>
      reply.code == 200 && Lookup(reply.json, "state") in {Some("Failed"), Some("Canceled")}
  {
    if reply.code == 200 then
      var state := Lookup(reply.json, "state");
      if state == Some("Done") then Stop(ScanDone)
      else if state == Some("Failed") || state == Some("Canceled") then Stop(ScanFailedOrCanceled)
      else Continue
    else Stop(StatusUnavailable(reply.code))
  }

  /** A status reply keeps the monitor polling exactly when it is a 200 whose
      state is not one of the three terminal states. */
  lemma ClassifyScanContinues(reply: Reply)
    ensures ClassifyScan(reply).Continue? <==>
      reply.code == 200 && Lookup(reply.json, "state") !in {Some("Done"), Some("Failed"), Some("Canceled")}
    ensures ClassifyScan(reply) == Stop(ScanDone) <==>
      reply.code == 200 && "state" in reply.json && reply.json["state"] == "Done"
  {
  }

  /** GET {api_url}/JobStatus?job_id=...; requests leaves the parameter out
      when the job ID is None. */
  function ScanStatusRequest(apiUrl: string, headers: map<string, string>, scanId: Option<string>): Event
  {
    Get(apiUrl + "/JobStatus", headers, WithOptional(map[], "job_id", scanId))
  }

  /** monitor_scan; `fuel` bounds the number of polls the model follows. */
  method MonitorScan(h: Host, scanId: Option<string>, apiUrl: string, fuel: nat) returns (end: Option<ScanEnd>)
    modifies h
    ensures var w := PollSpec(h.oracle, old(h.trace), ScanStatusRequest(apiUrl, map[], scanId), ClassifyScan, 30, fuel);
      h.trace == old(h.trace) + w.issued && end == w.end
  {
    end := Poll(h, ScanStatusRequest(apiUrl, map[], scanId), ClassifyScan, 30, fuel);
  }

  /** The run of a scan monitor: the same status request at every even
      position and a 30-second sleep at every odd one; every poll but the last
      was a 200 with a non-terminal state; a monitor that stopped reports the
      last reply's verdict. */
  lemma ScanMonitorShape(o: Oracle, t: Trace, request: Event, fuel: nat)
    ensures var w := PollSpec(o, t, request, ClassifyScan, 30, fuel); var n := |w.issued|;
      && (forall k :: 0 <= k < n ==> w.issued[k] == if k % 2 == 0 then request else Sleep(30))
      && (forall k :: 0 <= k < n - 1 && k % 2 == 0 ==>
            var reply := o(t + w.issued[..k], request);
            reply.code == 200 && Lookup(reply.json, "state") !in {Some("Done"), Some("Failed"), Some("Canceled")})
      && (w.end.Some? ==> ClassifyScan(o(t + w.issued[..n - 1], request)) == Stop(w.end.value))
  {
    PollEvents(o, t, request, ClassifyScan, 30, fuel);
    PollVerdicts(o, t, request, ClassifyScan, 30, fuel);
    var w := PollSpec(o, t, request, ClassifyScan, 30, fuel);
    forall k | 0 <= k < |w.issued| - 1 && k % 2 == 0
      ensures var reply := o(t + w.issued[..k], request);
        reply.code == 200 && Lookup(reply.json, "state") !in {Some("Done"), Some("Failed"), Some("Canceled")}
    {
      assert ContinuedAt(o, t, w.issued, ClassifyScan, k);
      ClassifyScanContinues(o(t + w.issued[..k], request));
    }
  }
}
