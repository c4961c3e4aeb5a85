/** cleanup.py: undo the recovery setup. On the SUSE server each NFS mount
    point is freed of open files and unmounted over one SSH session; on the
    AIX host each file system is freed and unmounted; then the volume group is
    varied off and exported. Each command raises on failure, which stops
    everything after it. */
module Cleanup {
  import opened Effects

  function FuserCommand(fs: string): string
  {
    "sudo fuser -km " + fs
  }

  function SuseUmountCommand(mountPoint: string): string
  {
    "sudo umount " + mountPoint
  }

  function AixUmountCommand(fs: string): string
  {
    "umount " + fs
  }

  function VaryOffCommand(vgName: string): string
  {
    "varyoffvg " + vgName
  }

  function ExportVgCommand(vgName: string): string
  {
    "exportvg " + vgName
  }

  /** The unmount of one mount point: through the SSH session on the SUSE
      server, as a local command on the AIX host. */
  function UmountStep(mountPoint: string, onSuse: bool): Step
  {
    if onSuse then Remote(SuseUmountCommand(mountPoint)) else Local(AixUmountCommand(mountPoint))
  }

  /** The unmount loops: for each mount point in order, `fuser` on the local
      host, then the unmount. Every step is a command; none opens or closes
      a session. */
  function KillThenUmount(points: seq<string>, onSuse: bool): (steps: seq<Step>)
    ensures |steps| == 2 * |points|
    ensures forall k :: 0 <= k < |steps| ==> steps[k].Local? || steps[k].Remote?
  {
    if points == [] then []
    else [Local(FuserCommand(points[0])), UmountStep(points[0], onSuse)] + KillThenUmount(points[1..], onSuse)
  }

  /** The j-th mount point is freed at position 2j and unmounted right after. */
  lemma {:induction false} KillPrecedesUmount(points: seq<string>, onSuse: bool, j: nat)
    requires j < |points|
    ensures KillThenUmount(points, onSuse)[2 * j] == Local(FuserCommand(points[j]))
    ensures KillThenUmount(points, onSuse)[2 * j + 1] == UmountStep(points[j], onSuse)
    decreases j
  {
    if j > 0 {
      KillPrecedesUmount(points[1..], onSuse, j - 1);
    }
  }

  /** check_and_kill_open_files: runs locally even when the file system is
      the SUSE server's mount point. */
  method CheckAndKillOpenFiles(h: Host, fs: string) returns (r: Outcome<()>)
    modifies h
    ensures var cmd := FuserCommand(fs);
      && h.trace == old(h.trace) + [Run(cmd)]
      && r == Check(Local(cmd), h.oracle(old(h.trace), Run(cmd)))
  {
    r := Execute(h, Local(FuserCommand(fs)));
  }

  function SuseUnmountSteps(suseIp: string, suseUser: string, nfsMounts: seq<string>): seq<Step>
  {
    [Connect(suseIp, suseUser)] + KillThenUmount(nfsMounts, true) + [Disconnect]
  }

  /** unmount_nfs_on_suse */
  method UnmountNfsOnSuse(h: Host, suseIp: string, suseUser: string, nfsMounts: seq<string>)
    returns (r: Outcome<()>)
    modifies h
    ensures var e := RunSteps(h.oracle, old(h.trace), SuseUnmountSteps(suseIp, suseUser, nfsMounts));
      h.trace == old(h.trace) + e.issued && r == e.outcome
  {
    r := RunAll(h, SuseUnmountSteps(suseIp, suseUser, nfsMounts));
  }

  /** The session is opened first, and closed exactly when every mount point
      was unmounted: an exception skips ssh.close(). */
  lemma SuseClosesOnlyOnSuccess(o: Oracle, t: Trace, suseIp: string, suseUser: string, nfsMounts: seq<string>)
    ensures var e := RunSteps(o, t, SuseUnmountSteps(suseIp, suseUser, nfsMounts));
      && e.issued != [] && e.issued[0] == SshConnect(suseIp, suseUser)
      && (SshClose in e.issued <==> e.outcome.Ok?)
  {
    var steps := SuseUnmountSteps(suseIp, suseUser, nfsMounts);
    var e := RunSteps(o, t, steps);
    var n := |e.issued|;
    RunStepsStopsAtFirstFailure(o, t, steps);
    assert forall k :: 0 <= k < |steps| - 1 ==> steps[k] != Disconnect by {
      forall k | 0 < k < |steps| - 1
        ensures steps[k] != Disconnect
      {
        assert steps[k] == KillThenUmount(nfsMounts, true)[k - 1];
      }
    }
    if SshClose in e.issued {
      var k :| 0 <= k < n && e.issued[k] == SshClose;
      assert EventOf(steps[k]) == SshClose;
    }
  }

  /** On SUSE, a mount point is unmounted only after its local `fuser` ran
      just before and exited 0. */
  lemma SuseUmountOnlyAfterKill(o: Oracle, t: Trace, suseIp: string, suseUser: string, nfsMounts: seq<string>, j: nat)
    requires j < |nfsMounts|
    ensures var e := RunSteps(o, t, SuseUnmountSteps(suseIp, suseUser, nfsMounts));
      |e.issued| > 2 * j + 2 ==>
        && e.issued[2 * j + 1] == Run(FuserCommand(nfsMounts[j]))
        && e.issued[2 * j + 2] == Exec(SuseUmountCommand(nfsMounts[j]))
        && o(t + e.issued[..2 * j + 1], e.issued[2 * j + 1]).code == 0
  {
    var steps := SuseUnmountSteps(suseIp, suseUser, nfsMounts);
    KillPrecedesUmount(nfsMounts, true, j);
    assert steps[2 * j + 1] == Local(FuserCommand(nfsMounts[j]));
    assert steps[2 * j + 2] == Remote(SuseUmountCommand(nfsMounts[j]));
    if |RunSteps(o, t, steps).issued| > 2 * j + 2 {
      PassedBeforeLast(o, t, steps, 2 * j + 1);
    }
  }

  /** unmount_file_systems_on_aix */
  method UnmountFileSystemsOnAix(h: Host, fileSystems: seq<string>) returns (r: Outcome<()>)
    modifies h
    ensures var e := RunSteps(h.oracle, old(h.trace), KillThenUmount(fileSystems, false));
      h.trace == old(h.trace) + e.issued && r == e.outcome
  {
    r := RunAll(h, KillThenUmount(fileSystems, false));
  }

  /** On AIX, a file system is unmounted only after its `fuser` ran just
      before and exited 0. */
  lemma AixUmountOnlyAfterKill(o: Oracle, t: Trace, fileSystems: seq<string>, j: nat)
    requires j < |fileSystems|
    ensures var e := RunSteps(o, t, KillThenUmount(fileSystems, false));
      |e.issued| > 2 * j + 1 ==>
        && e.issued[2 * j] == Run(FuserCommand(fileSystems[j]))
        && e.issued[2 * j + 1] == Run(AixUmountCommand(fileSystems[j]))
        && o(t + e.issued[..2 * j], e.issued[2 * j]).code == 0
  {
    var steps := KillThenUmount(fileSystems, false);
    forall k | 0 <= k < |steps|
      ensures steps[k].Local?
    {
      if k % 2 == 0 {
        KillPrecedesUmount(fileSystems, false, k / 2);
      } else {
        KillPrecedesUmount(fileSystems, false, (k - 1) / 2);
      }
    }
    LocalStepsStopAtFirstFailure(o, t, steps);
    KillPrecedesUmount(fileSystems, false, j);
  }

  function VgSteps(vgName: string): seq<Step>
  {
    [Local(VaryOffCommand(vgName)), Local(ExportVgCommand(vgName))]
  }

  /** deactivate_and_export_vg */
  method DeactivateAndExportVg(h: Host, vgName: string) returns (r: Outcome<()>)
    modifies h
    ensures var e := RunSteps(h.oracle, old(h.trace), VgSteps(vgName));
      h.trace == old(h.trace) + e.issued && r == e.outcome
  {
    r := RunAll(h, VgSteps(vgName));
  }

  /** `varyoffvg` runs first; `exportvg` runs exactly when it exited 0, and
      otherwise its CalledProcessError is raised. */
  lemma ExportOnlyAfterVaryOff(o: Oracle, t: Trace, vgName: string)
    ensures var e := RunSteps(o, t, VgSteps(vgName));
      var off := o(t, Run(VaryOffCommand(vgName)));
      && e.issued != [] && e.issued[0] == Run(VaryOffCommand(vgName))
      && (|e.issued| == 2 <==> off.code == 0)
      && (|e.issued| == 2 ==> e.issued[1] == Run(ExportVgCommand(vgName)))
      && (off.code != 0 ==> e.outcome == Raised(CalledProcessError(VaryOffCommand(vgName), off.code)))
  {
    var a := Local(VaryOffCommand(vgName));
    var b := Local(ExportVgCommand(vgName));
    assert VgSteps(vgName) == [a] + [b];
    RunStepsSingle(o, t, a);
    RunStepsConcat(o, t, [a], [b]);
    RunStepsSingle(o, t + [Run(VaryOffCommand(vgName))], b);
  }

  /** The three stages of the script, in order. */
  function CleanupSteps(suseIp: string, suseUser: string, nfsMounts: seq<string>,
                        fileSystems: seq<string>, vgName: string): seq<Step>
  {
    SuseUnmountSteps(suseIp, suseUser, nfsMounts) + KillThenUmount(fileSystems, false) + VgSteps(vgName)
  }

  /** The volume group is varied off only once both unmount stages ended
      normally. */
  lemma VolumeGroupOnlyAfterUnmounts(o: Oracle, t: Trace, suseIp: string, suseUser: string,
                                     nfsMounts: seq<string>, fileSystems: seq<string>, vgName: string)
    ensures var e := RunSteps(o, t, CleanupSteps(suseIp, suseUser, nfsMounts, fileSystems, vgName));
      var unmounts := SuseUnmountSteps(suseIp, suseUser, nfsMounts) + KillThenUmount(fileSystems, false);
      |e.issued| > |unmounts| ==>
        RunSteps(o, t, unmounts).outcome.Ok? && e.issued[|unmounts|] == Run(VaryOffCommand(vgName))
  {
    var unmounts := SuseUnmountSteps(suseIp, suseUser, nfsMounts) + KillThenUmount(fileSystems, false);
    RunStepsConcat(o, t, unmounts, VgSteps(vgName));
    var eu := RunSteps(o, t, unmounts);
    if eu.outcome.Ok? {
      ExportOnlyAfterVaryOff(o, t + eu.issued, vgName);
    }
  }

  /** The script's main sequence: SUSE, then AIX, then the volume group.
      Returns the exception the script catches and logs, if any. */
  method RunCleanup(h: Host, suseIp: string, suseUser: string, nfsMounts: seq<string>,
                    fileSystems: seq<string>, vgName: string) returns (r: Outcome<()>)
    modifies h
    ensures var e := RunSteps(h.oracle, old(h.trace), CleanupSteps(suseIp, suseUser, nfsMounts, fileSystems, vgName));
      h.trace == old(h.trace) + e.issued && r == e.outcome
  {
    ghost var o := h.oracle;
    ghost var t0 := h.trace;
    ghost var suse := SuseUnmountSteps(suseIp, suseUser, nfsMounts);
    ghost var aix := KillThenUmount(fileSystems, false);
    ghost var vg := VgSteps(vgName);
    ghost var goal := Finish(t0, RunSteps(o, t0, CleanupSteps(suseIp, suseUser, nfsMounts, fileSystems, vgName)));
    assert suse + aix + vg == suse + (aix + vg);
    ghost var before := h.trace;

    r := UnmountNfsOnSuse(h, suseIp, suseUser, nfsMounts);
    RunStage(o, before, suse, aix + vg, h.trace, r);
    if r.Raised? {
      return;
    }

    before := h.trace;
    r := UnmountFileSystemsOnAix(h, fileSystems);
    RunStage(o, before, aix, vg, h.trace, r);
    if r.Raised? {
      return;
    }

    r := DeactivateAndExportVg(h, vgName);
  }
}
