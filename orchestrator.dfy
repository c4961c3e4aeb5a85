/** playground/main.py: run the recovery scripts as child processes. The
    snapshot is recovered and presented, the AIX side is set up, the scan and
    the backup run side by side, and the environment is cleaned up only after
    all of them succeeded. What each script does inside is not visible here:
    only its exit status, which the oracle answers. */
module Orchestrator {
  import opened Effects

  const FlashScript := "ibm_flash.py"
  const AixScript := "aix_nfs.py"
  const ScanScript := "suse_scan.py"
  const BackupScript := "backup.py"
  const CleanupScript := "cleanup.py"

  function ScriptCommand(scriptName: string): string
  {
    "python3 " + scriptName
  }

  /** run_script: a non-zero exit raises CalledProcessError for the command,
      which is logged and re-raised. */
  method RunScript(h: Host, scriptName: string) returns (r: Outcome<()>)
    modifies h
    ensures var cmd := ScriptCommand(scriptName);
      && h.trace == old(h.trace) + [Run(cmd)]
      && r == Check(Local(cmd), h.oracle(old(h.trace), Run(cmd)))
  {
    r := Execute(h, Local(ScriptCommand(scriptName)));
  }

  /** How one script's run ends, given the trace when it was started. */
  function ScriptOutcome(o: Oracle, t: Trace, scriptName: string): Outcome<()>
  {
    Check(Local(ScriptCommand(scriptName)), o(t, Run(ScriptCommand(scriptName))))
  }

  /** The orchestration as a whole: the scripts it starts and the exception
      it catches and logs, if any. The scan and the backup are both started
      from the same trace, since neither waits for the other. */
  function Orchestration(o: Oracle, t: Trace): (e: Effect)
    ensures 1 <= |e.issued| <= 5 && e.issued[0] == Run(ScriptCommand(FlashScript))
    ensures e.outcome.Ok? ==> |e.issued| == 5
  {
    var flash := ScriptOutcome(o, t, FlashScript);
    if flash.Raised? then Effect([Run(ScriptCommand(FlashScript))], flash)
    else
      var t1 := t + [Run(ScriptCommand(FlashScript))];
      var aix := ScriptOutcome(o, t1, AixScript);
      if aix.Raised? then Effect([Run(ScriptCommand(FlashScript)), Run(ScriptCommand(AixScript))], aix)
      else
        var started := [Run(ScriptCommand(FlashScript)), Run(ScriptCommand(AixScript)),
                        Run(ScriptCommand(ScanScript)), Run(ScriptCommand(BackupScript))];
        var t2 := t1 + [Run(ScriptCommand(AixScript))];
        var scan := ScriptOutcome(o, t2, ScanScript);
        var backup := ScriptOutcome(o, t2, BackupScript);
        if scan.Raised? then Effect(started, scan)
        else if backup.Raised? then Effect(started, backup)
        else
          var cleanup := ScriptOutcome(o, t + started, CleanupScript);
          Effect(started + [Run(ScriptCommand(CleanupScript))], cleanup)
  }

  /** The orchestration once both sequential stages succeeded, as the await
      loop and the final stage see it. */
  lemma OrchestrationAfterSetup(o: Oracle, t: Trace)
    requires ScriptOutcome(o, t, FlashScript).Ok?
    requires ScriptOutcome(o, t + [Run(ScriptCommand(FlashScript))], AixScript).Ok?
    ensures var setup := [Run(ScriptCommand(FlashScript)), Run(ScriptCommand(AixScript))];
      var started := [Run(ScriptCommand(FlashScript)), Run(ScriptCommand(AixScript)),
                      Run(ScriptCommand(ScanScript)), Run(ScriptCommand(BackupScript))];
      var scan := ScriptOutcome(o, t + setup, ScanScript);
      var backup := ScriptOutcome(o, t + setup, BackupScript);
      Orchestration(o, t) ==
        if scan.Raised? then Effect(started, scan)
        else if backup.Raised? then Effect(started, backup)
        else Effect(started + [Run(ScriptCommand(CleanupScript))], ScriptOutcome(o, t + started, CleanupScript))
  {
    assert t + [Run(ScriptCommand(FlashScript))] + [Run(ScriptCommand(AixScript))]
        == t + [Run(ScriptCommand(FlashScript)), Run(ScriptCommand(AixScript))];
  }

  /** The script's main block. */
  method Orchestrate(h: Host) returns (r: Outcome<()>)
    modifies h
    ensures var e := Orchestration(h.oracle, old(h.trace));
      h.trace == old(h.trace) + e.issued && r == e.outcome
  {
    ghost var o := h.oracle;
    ghost var t0 := h.trace;
    r := RunScript(h, FlashScript);
    if r.Raised? {
      return;
    }
    r := RunScript(h, AixScript);
    if r.Raised? {
      return;
    }

    // both jobs are submitted to the pool before either result is awaited
    OrchestrationAfterSetup(o, t0);
    ghost var setup := [Run(ScriptCommand(FlashScript)), Run(ScriptCommand(AixScript))];
    assert h.trace == t0 + setup;
    var scanCommand := ScriptCommand(ScanScript);
    var backupCommand := ScriptCommand(BackupScript);
    var scanReply, backupReply := h.PerformBoth(Run(scanCommand), Run(backupCommand));
    var futures: seq<Outcome<()>> := [];
    futures := futures + [Check(Local(scanCommand), scanReply)];
    futures := futures + [Check(Local(backupCommand), backupReply)];

    // future.result() re-raises the first failure in submission order
    ghost var started := [Run(ScriptCommand(FlashScript)), Run(ScriptCommand(AixScript)),
                          Run(scanCommand), Run(backupCommand)];
    assert h.trace == t0 + started;
    for i := 0 to |futures|
      invariant h.trace == t0 + started
      invariant futures == [ScriptOutcome(o, t0 + setup, ScanScript), ScriptOutcome(o, t0 + setup, BackupScript)]
      invariant forall k :: 0 <= k < i ==> futures[k].Ok?
    {
      if futures[i].Raised? {
        assert i == 1 ==> futures[0].Ok?;
        assert Orchestration(o, t0) == Effect(started, futures[i]);
        return futures[i];
      }
    }

    assert futures[0].Ok? && futures[1].Ok?;
    r := RunScript(h, CleanupScript);
    assert Orchestration(o, t0) == Effect(started + [Run(ScriptCommand(CleanupScript))], r);
  }

  /** The scripts start in the fixed order ibm_flash, aix_nfs, suse_scan,
      backup, cleanup; a run issues a prefix of that order, which always
      includes ibm_flash and never stops between the two parallel ones. */
  lemma StageOrder(o: Oracle, t: Trace)
    ensures var e := Orchestration(o, t);
      var order := [Run(ScriptCommand(FlashScript)), Run(ScriptCommand(AixScript)),
                    Run(ScriptCommand(ScanScript)), Run(ScriptCommand(BackupScript)),
                    Run(ScriptCommand(CleanupScript))];
      && 1 <= |e.issued| <= 5 && |e.issued| != 3
      && e.issued == order[..|e.issued|]
  {
    var e := Orchestration(o, t);
    var order := [Run(ScriptCommand(FlashScript)), Run(ScriptCommand(AixScript)),
                  Run(ScriptCommand(ScanScript)), Run(ScriptCommand(BackupScript)),
                  Run(ScriptCommand(CleanupScript))];
    assert order[..1] == [order[0]];
    assert order[..2] == [order[0], order[1]];
    assert order[..4] == [order[0], order[1], order[2], order[3]];
    assert order[..5] == order;
  }

  /** A failing ibm_flash.py or aix_nfs.py stops every later stage,
      cleanup included, and is the exception reported. */
  lemma EarlyFailureStopsAll(o: Oracle, t: Trace)
    ensures var e := Orchestration(o, t);
      var flash := ScriptOutcome(o, t, FlashScript);
      var aix := ScriptOutcome(o, t + [Run(ScriptCommand(FlashScript))], AixScript);
      && (flash.Raised? ==> |e.issued| == 1 && e.outcome == flash)
      && (flash.Ok? && aix.Raised? ==> |e.issued| == 2 && e.outcome == aix)
      && (|e.issued| > 2 <==> flash.Ok? && aix.Ok?)
  {
  }

  /** The scan and the backup are started together from the same trace, so
      each one runs whatever the other's outcome; when both fail, the scan's
      failure is the one reported, since its result is awaited first. */
  lemma ParallelStagesAwaitScanFirst(o: Oracle, t: Trace)
    ensures var e := Orchestration(o, t);
      var t2 := t + [Run(ScriptCommand(FlashScript)), Run(ScriptCommand(AixScript))];
      var scan := ScriptOutcome(o, t2, ScanScript);
      var backup := ScriptOutcome(o, t2, BackupScript);
      |e.issued| > 2 ==>
        && e.issued[2..4] == [Run(ScriptCommand(ScanScript)), Run(ScriptCommand(BackupScript))]
        && (scan.Raised? ==> e.outcome == scan)
        && (scan.Ok? && backup.Raised? ==> e.outcome == backup)
  {
    var t1 := t + [Run(ScriptCommand(FlashScript))];
    assert t1 + [Run(ScriptCommand(AixScript))] == t + [Run(ScriptCommand(FlashScript)), Run(ScriptCommand(AixScript))];
  }

  /** cleanup.py runs exactly when all four earlier scripts succeeded; it is
      never run on the failure path. */
  lemma CleanupOnlyAfterSuccess(o: Oracle, t: Trace)
    ensures var e := Orchestration(o, t);
      var t1 := t + [Run(ScriptCommand(FlashScript))];
      var t2 := t1 + [Run(ScriptCommand(AixScript))];
      && (|e.issued| == 5 <==>
            && ScriptOutcome(o, t, FlashScript).Ok?
            && ScriptOutcome(o, t1, AixScript).Ok?
            && ScriptOutcome(o, t2, ScanScript).Ok?
            && ScriptOutcome(o, t2, BackupScript).Ok?)
      && (|e.issued| == 5 ==> e.issued[4] == Run(ScriptCommand(CleanupScript)))
      && (e.outcome.Ok? <==> |e.issued| == 5 && ScriptOutcome(o, t + e.issued[..4], CleanupScript).Ok?)
  {
  }
}
