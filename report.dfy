/** report.py: read the scan and backup logs, lay them out in a fixed text
    template and mail the result. File reads and mail delivery belong to the
    outside world: the logs are a map from path to contents, and the mail is
    an event on the host's trace. */
module Report {
  import opened Text
  import opened Effects

  /** The files the report reads, by path; a path missing from the map is
      a file that does not exist. */
  type Files = map<string, string>

  const ScanLogPath := "run_log.out"
  const BackupLogPath := "backup_log.out"
  const ScanLogMissing := "Scan results log file not found."
  const BackupLogMissing := "Backup results log file not found."

  const ScanHeader := "CyberSense Scan Results:"
  const BackupHeader := "IBM Spectrum Protect Backup Results:"

  /** The template text around the two inserted results. */
  const Head := "\n    " + ScanHeader + "\n    ------------------------\n    "
  const Middle := "\n    \n    " + BackupHeader + "\n    ------------------------------------\n    "
  const Tail := "\n    "

  /** gather_scan_results: the whole log, or the fallback text when the log
      does not exist. */
  function GatherScanResults(files: Files): (results: string)
    ensures ScanLogPath in files ==> results == files[ScanLogPath]
    ensures ScanLogPath !in files ==> results == ScanLogMissing
  {
    match Lookup(files, ScanLogPath)
    case Some(contents) => contents
    case None => ScanLogMissing
  }

  /** gather_backup_results */
  function GatherBackupResults(files: Files): (results: string)
    ensures BackupLogPath in files ==> results == files[BackupLogPath]
    ensures BackupLogPath !in files ==> results == BackupLogMissing
  {
    match Lookup(files, BackupLogPath)
    case Some(contents) => contents
    case None => BackupLogMissing
  }

  /** generate_report */
  function GenerateReport(scanResults: string, backupResults: string): (report: string)
    ensures |report| == |Head| + |scanResults| + |Middle| + |backupResults| + |Tail|
    ensures report[..|Head|] == Head && report[|report| - |Tail|..] == Tail
  {
    Head + scanResults + Middle + backupResults + Tail
  }

  /** Where the scan results start in a report, and where the backup results
      start given the length of the scan results. */
  function ScanAt(): nat
  {
    |Head|
  }

  function BackupAt(scanLength: nat): nat
  {
    |Head| + scanLength + |Middle|
  }

  /** The two results appear verbatim, scan results first, each under its
      own header, and nothing else is inserted into the template. */
  lemma ReportLayout(scanResults: string, backupResults: string)
    ensures var report := GenerateReport(scanResults, backupResults);
      && |report| == |Head| + |scanResults| + |Middle| + |backupResults| + |Tail|
      && report[ScanAt()..ScanAt() + |scanResults|] == scanResults
      && ScanAt() + |scanResults| < BackupAt(|scanResults|)
      && report[BackupAt(|scanResults|)..BackupAt(|scanResults|) + |backupResults|] == backupResults
      && Contains(report[..ScanAt()], ScanHeader)
      && Contains(report[ScanAt() + |scanResults|..BackupAt(|scanResults|)], BackupHeader)
  {
    var report := GenerateReport(scanResults, backupResults);
    var s := ScanAt();
    var b := BackupAt(|scanResults|);
    assert report[..s] == Head;
    assert report[s..s + |scanResults|] == scanResults;
    assert report[s + |scanResults|..b] == Middle;
    assert report[b..b + |backupResults|] == backupResults;
    ContainsInfix("\n    ", ScanHeader, "\n    ------------------------\n    ");
    ContainsInfix("\n    \n    ", BackupHeader, "\n    ------------------------------------\n    ");
  }

  /** Reading a report back, given how long its scan section is. */
  function ReportSections(report: string, scanLength: nat): (sections: Option<(string, string)>)
    ensures sections.Some? ==> GenerateReport(sections.value.0, sections.value.1) == report
  {
    var b := BackupAt(scanLength);
    if b + |Tail| <= |report|
       && report[..ScanAt()] == Head
       && report[ScanAt() + scanLength..b] == Middle
       && report[|report| - |Tail|..] == Tail
    then
      var scan := report[ScanAt()..ScanAt() + scanLength];
      var backup := report[b..|report| - |Tail|];
      assert report == report[..ScanAt()] + scan + report[ScanAt() + scanLength..b] + backup + report[|report| - |Tail|..];
      Some((scan, backup))
    else None
  }

  /** The template loses nothing: both results are recovered from the report. */
  lemma ReportRoundTrip(scanResults: string, backupResults: string)
    ensures ReportSections(GenerateReport(scanResults, backupResults), |scanResults|) == Some((scanResults, backupResults))
  {
    var report := GenerateReport(scanResults, backupResults);
    ReportLayout(scanResults, backupResults);
    var b := BackupAt(|scanResults|);
    assert report[..ScanAt()] == Head;
    assert report[ScanAt() + |scanResults|..b] == Middle;
    assert report[|report| - |Tail|..] == Tail;
    assert report[b..|report| - |Tail|] == backupResults;
  }

  /** The message send_report builds. */
  function ReportMail(report: string, recipientEmail: string): (mail: Mail)
    ensures mail.subject == "Daily Integrity Report"
    ensures mail.recipient == recipientEmail && mail.body == report
  {
    Mail("your_email@example.com", recipientEmail, "Daily Integrity Report", report)
  }

  /** send_report: hands the message to the mail server. A failure to send is
      caught and logged, so the method has no error outcome at all. */
  method SendReport(h: Host, report: string, recipientEmail: string)
    modifies h
    ensures h.trace == old(h.trace) + [SendMail(ReportMail(report, recipientEmail))]
  {
    var _ := h.Perform(SendMail(ReportMail(report, recipientEmail)));
  }

  /** The script's main sequence: gather both logs, build the report and mail
      it to the given recipient. */
  method RunReport(h: Host, files: Files, recipientEmail: string)
    modifies h
    ensures h.trace == old(h.trace) +
      [SendMail(ReportMail(GenerateReport(GatherScanResults(files), GatherBackupResults(files)), recipientEmail))]
  {
    var scanResults := GatherScanResults(files);
    var backupResults := GatherBackupResults(files);
    var report := GenerateReport(scanResults, backupResults);
    SendReport(h, report, recipientEmail);
  }

  /** A missing log is named in the report by its fallback text, in the
      section where the log would have been. */
  lemma MissingLogsAreReported(files: Files)
    ensures var report := GenerateReport(GatherScanResults(files), GatherBackupResults(files));
      && (ScanLogPath !in files ==> report[ScanAt()..ScanAt() + |ScanLogMissing|] == ScanLogMissing)
      && (BackupLogPath !in files ==>
            var b := BackupAt(|GatherScanResults(files)|);
            report[b..b + |BackupLogMissing|] == BackupLogMissing)
  {
    ReportLayout(GatherScanResults(files), GatherBackupResults(files));
  }
}
