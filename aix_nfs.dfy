/** aix_nfs.py: on the AIX host, list the disks, import the volume group from
    the recovered snapshot disk, vary it on, mount its file systems and export
    them over NFS version 4. Every command runs through subprocess with
    check=True, so the first one that exits non-zero stops the rest. */
module AixNfs {
  import opened Text
  import opened Effects

  const ListDisksCommand := "lsdev -Cc disk"

  function ImportCommand(vgName: string, disk: string): string
  {
    "importvg -y " + vgName + " " + disk
  }

  function ActivateCommand(vgName: string): string
  {
    "varyonvg " + vgName
  }

  function MountCommand(fs: string): string
  {
    "mount " + fs
  }

  function ExportCommand(share: string): string
  {
    "mknfsexp -d " + share + " -nfsvers 4"
  }

  /** `stdout.strip().split("\n")`: one entry per line of the trimmed listing,
      never an empty list, and joining the entries gives the listing back. */
  function DiskList(stdout: string): (disks: seq<string>)
    ensures |disks| >= 1
    ensures forall i :: 0 <= i < |disks| ==> '\n' !in disks[i]
    ensures Join(disks, '\n') == Strip(stdout)
  {
    JoinSplit(Strip(stdout), '\n');
    Split(Strip(stdout), '\n')
  }

  /** list_available_disks */
  method ListAvailableDisks(h: Host) returns (r: Outcome<seq<string>>)
    modifies h
    ensures h.trace == old(h.trace) + [Run(ListDisksCommand)]
    ensures var reply := h.oracle(old(h.trace), Run(ListDisksCommand));
      r == if reply.code != 0 then Raised(CalledProcessError(ListDisksCommand, reply.code))
           else Ok(DiskList(reply.stdout))
  {
    var result := Capture(h, ListDisksCommand);
    if result.Raised? {
      return Raised(result.error);
    }
    r := Ok(DiskList(result.value));
  }

  /** import_volume_group */
  method ImportVolumeGroup(h: Host, vgName: string, disk: string) returns (r: Outcome<()>)
    modifies h
    ensures var cmd := ImportCommand(vgName, disk);
      && h.trace == old(h.trace) + [Run(cmd)]
      && r == Check(Local(cmd), h.oracle(old(h.trace), Run(cmd)))
  {
    r := Execute(h, Local(ImportCommand(vgName, disk)));
  }

  /** activate_volume_group */
  method ActivateVolumeGroup(h: Host, vgName: string) returns (r: Outcome<()>)
    modifies h
    ensures var cmd := ActivateCommand(vgName);
      && h.trace == old(h.trace) + [Run(cmd)]
      && r == Check(Local(cmd), h.oracle(old(h.trace), Run(cmd)))
  {
    r := Execute(h, Local(ActivateCommand(vgName)));
  }

  /** The commands of mount_file_systems' loop, in list order. */
  function MountSteps(fsList: seq<string>): (steps: seq<Step>)
    ensures |steps| == |fsList|
    ensures forall k :: 0 <= k < |fsList| ==> steps[k] == Local(MountCommand(fsList[k]))
  {
    seq(|fsList|, k requires 0 <= k < |fsList| => Local(MountCommand(fsList[k])))
  }

  /** The commands of export_nfs_shares' loop, in list order. */
  function ExportSteps(shares: seq<string>): (steps: seq<Step>)
    ensures |steps| == |shares|
    ensures forall k :: 0 <= k < |shares| ==> steps[k] == Local(ExportCommand(shares[k]))
  {
    seq(|shares|, k requires 0 <= k < |shares| => Local(ExportCommand(shares[k])))
  }

  /** mount_file_systems */
  method MountFileSystems(h: Host, fsList: seq<string>) returns (r: Outcome<()>)
    modifies h
    ensures var e := RunSteps(h.oracle, old(h.trace), MountSteps(fsList));
      h.trace == old(h.trace) + e.issued && r == e.outcome
  {
    r := RunAll(h, MountSteps(fsList));
  }

  /** export_nfs_shares */
  method ExportNfsShares(h: Host, shares: seq<string>) returns (r: Outcome<()>)
    modifies h
    ensures var e := RunSteps(h.oracle, old(h.trace), ExportSteps(shares));
      h.trace == old(h.trace) + e.issued && r == e.outcome
  {
    r := RunAll(h, ExportSteps(shares));
  }

  /** `mount {fs}` for each entry in order; the first non-zero exit is
      re-raised and no later file system is mounted. */
  lemma MountsStopAtFirstFailure(o: Oracle, t: Trace, fsList: seq<string>)
    ensures var e := RunSteps(o, t, MountSteps(fsList)); var n := |e.issued|;
      && (forall k :: 0 <= k < n ==> e.issued[k] == Run(MountCommand(fsList[k])))
      && (forall k :: 0 <= k < n - 1 ==> o(t + e.issued[..k], e.issued[k]).code == 0)
      && (e.outcome.Ok? ==> n == |fsList| && (n > 0 ==> o(t + e.issued[..n - 1], e.issued[n - 1]).code == 0))
      && (e.outcome.Raised? ==>
            && 0 < n
            && o(t + e.issued[..n - 1], e.issued[n - 1]).code != 0
            && e.outcome == Raised(CalledProcessError(MountCommand(fsList[n - 1]), o(t + e.issued[..n - 1], e.issued[n - 1]).code)))
  {
    LocalStepsStopAtFirstFailure(o, t, MountSteps(fsList));
  }

  /** `mknfsexp -d {share} -nfsvers 4` for each share in order; the first
      non-zero exit is re-raised and no later share is exported. */
  lemma ExportsStopAtFirstFailure(o: Oracle, t: Trace, shares: seq<string>)
    ensures var e := RunSteps(o, t, ExportSteps(shares)); var n := |e.issued|;
      && (forall k :: 0 <= k < n ==> e.issued[k] == Run(ExportCommand(shares[k])))
      && (forall k :: 0 <= k < n - 1 ==> o(t + e.issued[..k], e.issued[k]).code == 0)
      && (e.outcome.Ok? ==> n == |shares| && (n > 0 ==> o(t + e.issued[..n - 1], e.issued[n - 1]).code == 0))
      && (e.outcome.Raised? ==>
            && 0 < n
            && o(t + e.issued[..n - 1], e.issued[n - 1]).code != 0
            && e.outcome == Raised(CalledProcessError(ExportCommand(shares[n - 1]), o(t + e.issued[..n - 1], e.issued[n - 1]).code)))
  {
    LocalStepsStopAtFirstFailure(o, t, ExportSteps(shares));
  }

  /** The whole sequence of the script: list, import, activate, mount, export. */
  function SetupSteps(vgName: string, disk: string, fsList: seq<string>, shares: seq<string>): seq<Step>
  {
    [Local(ListDisksCommand)] + ([Local(ImportCommand(vgName, disk))] + ([Local(ActivateCommand(vgName))]
      + (MountSteps(fsList) + ExportSteps(shares))))
  }

  /** File systems are mounted only on a volume group that was imported and
      varied on: both commands ran, in that order, and exited 0. */
  lemma MountOnlyAfterActivation(o: Oracle, t: Trace, vgName: string, disk: string,
                                 fsList: seq<string>, shares: seq<string>)
    ensures var e := RunSteps(o, t, SetupSteps(vgName, disk, fsList, shares));
      |e.issued| > 3 ==>
        && e.issued[..3] == [Run(ListDisksCommand), Run(ImportCommand(vgName, disk)), Run(ActivateCommand(vgName))]
        && o(t + e.issued[..1], e.issued[1]).code == 0
        && o(t + e.issued[..2], e.issued[2]).code == 0
  {
    var steps := SetupSteps(vgName, disk, fsList, shares);
    if |RunSteps(o, t, steps).issued| > 3 {
      PassedBeforeLast(o, t, steps, 0);
      PassedBeforeLast(o, t, steps, 1);
      PassedBeforeLast(o, t, steps, 2);
    }
  }

  /** The script's main sequence. The disk to import is given: the script
      lists the disks but imports a fixed placeholder disk name. Returns the
      exception the script catches and logs, if any. */
  method SetUpNfs(h: Host, vgName: string, snapshotDisk: string, fsList: seq<string>, shares: seq<string>)
    returns (r: Outcome<()>)
    modifies h
    ensures var e := RunSteps(h.oracle, old(h.trace), SetupSteps(vgName, snapshotDisk, fsList, shares));
      h.trace == old(h.trace) + e.issued && r == e.outcome
  {
    ghost var o := h.oracle;
    ghost var t0 := h.trace;
    ghost var goal := Finish(t0, RunSteps(o, t0, SetupSteps(vgName, snapshotDisk, fsList, shares)));
    ghost var exporting := ExportSteps(shares);
    ghost var mounting := MountSteps(fsList) + exporting;
    ghost var activating := [Local(ActivateCommand(vgName))] + mounting;
    ghost var importing := [Local(ImportCommand(vgName, snapshotDisk))] + activating;
    ghost var before := h.trace;

    // the listing is logged only; a failing `lsdev` still stops the script
    var availableDisks := ListAvailableDisks(h);
    r := if availableDisks.Raised? then Raised(availableDisks.error) else Ok(());
    RunStageSingle(o, before, Local(ListDisksCommand), importing, h.trace, r);
    if r.Raised? {
      return;
    }
    assert goal == Finish(h.trace, RunSteps(o, h.trace, importing));

    before := h.trace;
    r := ImportVolumeGroup(h, vgName, snapshotDisk);
    RunStageSingle(o, before, Local(ImportCommand(vgName, snapshotDisk)), activating, h.trace, r);
    if r.Raised? {
      return;
    }
    assert goal == Finish(h.trace, RunSteps(o, h.trace, activating));

    before := h.trace;
    r := ActivateVolumeGroup(h, vgName);
    RunStageSingle(o, before, Local(ActivateCommand(vgName)), mounting, h.trace, r);
    if r.Raised? {
      return;
    }
    assert goal == Finish(h.trace, RunSteps(o, h.trace, mounting));

    before := h.trace;
    r := MountFileSystems(h, fsList);
    RunStage(o, before, MountSteps(fsList), exporting, h.trace, r);
    if r.Raised? {
      return;
    }

    r := ExportNfsShares(h, shares);
  }
}
