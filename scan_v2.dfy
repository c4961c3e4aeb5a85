/** playground/scan_v2.py: the session-based variant of the CyberSense calls.
    A bearer token opens a session, whose ID is then sent as the `sessionid`
    header on the scan request and on every status poll. */
module ScanV2 {
  import opened Effects
  import opened Polling
  import SuseScan

  /** The status check of create_session: only 200 opens a session. */
  function SessionResult(reply: Reply): (r: Outcome<Option<string>>)
    ensures r.Ok? <==> reply.code == 200
    ensures r.Ok? ==> r.value == Lookup(reply.json, "sessionid")
    ensures r.Raised? ==> r.error == Failure("Failed to create session")
  {
    if reply.code == 200 then Ok(Lookup(reply.json, "sessionid"))
    else Raised(Failure("Failed to create session"))
  }

  /** The two endpoints disagree on 202 Accepted: creating a session rejects
      it, starting a scan accepts it; on 200 both succeed, and any other code
      fails both. */
  lemma AcceptedStatusDiffers(reply: Reply)
    ensures reply.code == 202 ==> SessionResult(reply).Raised? && SuseScan.ScanStartResult(reply).Ok?
    ensures SessionResult(reply).Ok? ==> SuseScan.ScanStartResult(reply).Ok?
    ensures reply.code !in {200, 202} ==> SessionResult(reply).Raised? && SuseScan.ScanStartResult(reply).Raised?
  {
  }

  function SessionRequest(apiUrl: string, authToken: string): Event
  {
    Post(apiUrl + "/session", map["Authorization" := "Bearer " + authToken], None)
  }

  /** create_session */
  method CreateSession(h: Host, apiUrl: string, authToken: string) returns (r: Outcome<Option<string>>)
    modifies h
    ensures h.trace == old(h.trace) + [SessionRequest(apiUrl, authToken)]
    ensures r == SessionResult(h.oracle(old(h.trace), SessionRequest(apiUrl, authToken)))
  {
    var response := h.Perform(SessionRequest(apiUrl, authToken));
    r := SessionResult(response);
  }

  /** The headers of the scan request; requests drops a header whose value is None. */
  function ScanHeaders(sessionId: Option<string>): map<string, string>
  {
    WithOptional(map["Content-Type" := "application/json"], "sessionid", sessionId)
  }

  function ScanRequest(apiUrl: string, sessionId: Option<string>, policy: string, nfsExport: string): Event
  {
    Post(apiUrl + "/PolicyExec", ScanHeaders(sessionId), Some(SuseScan.ScanPayload(policy, nfsExport)))
  }

  /** The scan request carries the session ID, JSON content type and a body of
      exactly `policy` and `nfs_export`. */
  lemma ScanRequestCarriesSession(apiUrl: string, sessionId: string, policy: string, nfsExport: string)
    ensures var e := ScanRequest(apiUrl, Some(sessionId), policy, nfsExport);
      && e.headers.Keys == {"sessionid", "Content-Type"}
      && e.headers["sessionid"] == sessionId
      && e.headers["Content-Type"] == "application/json"
      && e.body == Some(map["policy" := policy, "nfs_export" := nfsExport])
      && e.body.value.Keys == {"policy", "nfs_export"}
  {
    var e := ScanRequest(apiUrl, Some(sessionId), policy, nfsExport);
    assert "sessionid" in e.headers && "Content-Type" in e.headers;
  }

  /** start_cybersense_scan: 200 or 202 starts the scan. */
  method StartCybersenseScan(h: Host, apiUrl: string, sessionId: Option<string>, policy: string, nfsExport: string)
    returns (r: Outcome<Option<string>>)
    modifies h
    ensures h.trace == old(h.trace) + [ScanRequest(apiUrl, sessionId, policy, nfsExport)]
    ensures r == SuseScan.ScanStartResult(h.oracle(old(h.trace), ScanRequest(apiUrl, sessionId, policy, nfsExport)))
  {
    var response := h.Perform(ScanRequest(apiUrl, sessionId, policy, nfsExport));
    r := SuseScan.ScanStartResult(response);
  }

  function StatusRequest(apiUrl: string, scanId: Option<string>, sessionId: Option<string>): Event
  {
    SuseScan.ScanStatusRequest(apiUrl, WithOptional(map[], "sessionid", sessionId), scanId)
  }

  /** monitor_scan with the session header; `fuel` bounds the number of polls
      the model follows. The decisions are those of suse_scan.py's monitor. */
  method MonitorScan(h: Host, scanId: Option<string>, apiUrl: string, sessionId: Option<string>, fuel: nat)
    returns (end: Option<SuseScan.ScanEnd>)
    modifies h
    ensures var w := PollSpec(h.oracle, old(h.trace), StatusRequest(apiUrl, scanId, sessionId), SuseScan.ClassifyScan, 30, fuel);
      h.trace == old(h.trace) + w.issued && end == w.end
  {
    end := Poll(h, StatusRequest(apiUrl, scanId, sessionId), SuseScan.ClassifyScan, 30, fuel);
  }

  /** Every poll of a monitor run is the same GET, with the session header and
      the job_id parameter, and every poll but the last found the job still
      running. */
  lemma StatusPollsCarrySession(o: Oracle, t: Trace, apiUrl: string, scanId: string, sessionId: string, fuel: nat)
    ensures var request := StatusRequest(apiUrl, Some(scanId), Some(sessionId));
      var w := PollSpec(o, t, request, SuseScan.ClassifyScan, 30, fuel); var n := |w.issued|;
      && (forall k :: 0 <= k < n && k % 2 == 0 ==>
            && w.issued[k].Get?
            && w.issued[k].url == apiUrl + "/JobStatus"
            && w.issued[k].headers == map["sessionid" := sessionId]
            && w.issued[k].params == map["job_id" := scanId])
      && (forall k :: 0 <= k < n - 1 && k % 2 == 0 ==>
            var reply := o(t + w.issued[..k], request);
            reply.code == 200 && Lookup(reply.json, "state") !in {Some("Done"), Some("Failed"), Some("Canceled")})
  {
    SuseScan.ScanMonitorShape(o, t, StatusRequest(apiUrl, Some(scanId), Some(sessionId)), fuel);
  }
}
