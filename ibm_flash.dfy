/** ibm_flash.py: find the latest safeguarded copy of a consistency group on the
    IBM SVC, recover it as a named snapshot volume, look up that volume's ID and
    map it to the AIX host. Each step is one CLI command run through
    subprocess with check=True. */
module IbmFlash {
  import opened Text
  import opened Effects

  function ListRecoveryPointsCommand(consistencyGroupId: string): string
  {
    "lsrecovrp -filtervalue consistencygroup=" + consistencyGroupId
  }

  function RecoveryCommand(snapshotName: string, recovrpId: string): string
  {
    "mkrecovercopy -recovrp " + recovrpId + " -targetname " + snapshotName
  }

  function ListVdiskCommand(snapshotName: string): string
  {
    "lsvdisk -filtervalue name=" + snapshotName
  }

  function PresentCommand(volumeId: string, serverName: string): string
  {
    "svctask mkvdiskhostmap -host " + serverName + " -scsi " + volumeId
  }

  /** `stdout.strip().split("\n")[1:]`: the lines of a CLI listing after its header. */
  function DataRows(stdout: string): (rows: seq<string>)
    ensures forall i :: 0 <= i < |rows| ==> '\n' !in rows[i]
  {
    Split(Strip(stdout), '\n')[1..]
  }

  /** The header is the first line of the trimmed listing; it is never a data
      row, and header and rows together are the whole trimmed listing. */
  lemma DataRowsFollowHeader(stdout: string)
    ensures var header := Split(Strip(stdout), '\n')[0];
      && '\n' !in header
      && Join([header] + DataRows(stdout), '\n') == Strip(stdout)
      && (DataRows(stdout) == [] <==> '\n' !in Strip(stdout))
  {
    var parts := Split(Strip(stdout), '\n');
    JoinSplit(Strip(stdout), '\n');
    assert [parts[0]] + parts[1..] == parts;
  }

  /** Every row has the five whitespace-separated fields the picker reads. */
  predicate Fielded(rows: seq<string>, n: nat)
    requires n <= |rows|
  {
    forall k :: 0 <= k < n ==> |Words(rows[k])| >= 5
  }

  /** Field 4 of a listing row: the creation timestamp of a recovery point. */
  function Stamp(row: string): string
    requires |Words(row)| >= 5
  {
    Words(row)[4]
  }

  /** Row i is the latest of the first n rows: no row has a later timestamp,
      and every row before it has an earlier one, so among rows sharing the
      latest timestamp it is the first. */
  predicate IsLatestOf(rows: seq<string>, n: nat, i: nat)
    requires n <= |rows| && Fielded(rows, n)
  {
    && i < n
    && (forall k :: 0 <= k < n ==> !Less(Stamp(rows[i]), Stamp(rows[k])))
    && (forall k :: 0 <= k < i ==> Less(Stamp(rows[k]), Stamp(rows[i])))
  }

  /** At most one row is the latest. */
  lemma LatestIsUnique(rows: seq<string>, n: nat, i: nat, j: nat)
    requires n <= |rows| && Fielded(rows, n)
    requires IsLatestOf(rows, n, i) && IsLatestOf(rows, n, j)
    ensures i == j
  {
    // neither timestamp is below the other, so neither row precedes the other
    assert !Less(Stamp(rows[i]), Stamp(rows[j])) && !Less(Stamp(rows[j]), Stamp(rows[i]));
  }

  /** The latest row has the greatest timestamp, and no row with that same
      timestamp comes before it. */
  lemma LatestIsFirstOfTies(rows: seq<string>, n: nat, i: nat, j: nat)
    requires n <= |rows| && Fielded(rows, n)
    requires IsLatestOf(rows, n, i) && j < n
    ensures Stamp(rows[j]) == Stamp(rows[i]) || Less(Stamp(rows[j]), Stamp(rows[i]))
    ensures Stamp(rows[j]) == Stamp(rows[i]) ==> i <= j
  {
    LessTotal(Stamp(rows[j]), Stamp(rows[i]));
  }

  /** Taking row n into account: row n replaces the latest so far exactly when
      its timestamp is strictly greater. */
  lemma LatestExtends(rows: seq<string>, n: nat, at: nat)
    requires n < |rows| && Fielded(rows, n + 1)
    requires IsLatestOf(rows, n, at)
    ensures Less(Stamp(rows[at]), Stamp(rows[n])) ==> IsLatestOf(rows, n + 1, n)
    ensures !Less(Stamp(rows[at]), Stamp(rows[n])) ==> IsLatestOf(rows, n + 1, at)
  {
    var cur := Stamp(rows[at]);
    var ts := Stamp(rows[n]);
    if Less(cur, ts) {
      forall k | 0 <= k < n
        ensures Less(Stamp(rows[k]), ts)
      {
        LessTotal(Stamp(rows[k]), cur);
        if Stamp(rows[k]) != cur {
          LessTransitive(Stamp(rows[k]), cur, ts);
        }
      }
      forall k | 0 <= k < n + 1
        ensures !Less(ts, Stamp(rows[k]))
      {
        LessIrreflexive(ts);
        if k < n && Less(ts, Stamp(rows[k])) {
          LessTransitive(ts, Stamp(rows[k]), ts);
        }
      }
    }
  }

  /** What the selection loop of query_latest_safeguarded_copy yields for the
      data rows of a listing. */
  predicate PickedFrom(rows: seq<string>, r: Outcome<string>)
  {
    && (r == Raised(IndexError) <==> !Fielded(rows, |rows|))
    && (r == Raised(Failure("No safeguarded copies found.")) <==> rows == [])
    && (r.Ok? <==> rows != [] && Fielded(rows, |rows|))
    && (r.Ok? ==> exists i :: 0 <= i < |rows| && IsLatestOf(rows, |rows|, i) && r.value == Words(rows[i])[0])
  }

  /** The loop over the data rows: split each row, take field 0 as the ID and
      field 4 as the timestamp, keep the strictly greatest timestamp seen. A
      row with fewer than five fields raises IndexError. */
  method PickLatest(rows: seq<string>) returns (r: Outcome<string>)
    ensures PickedFrom(rows, r)
  {
    var latestCopy: Option<string> := None;
    var latestTimestamp: Option<string> := None;
    ghost var at: nat := 0;
    for i := 0 to |rows|
      invariant Fielded(rows, i)
      invariant latestCopy.None? <==> i == 0
      invariant latestTimestamp.None? <==> i == 0
      invariant i > 0 ==>
        && IsLatestOf(rows, i, at)
        && latestCopy == Some(Words(rows[at])[0])
        && latestTimestamp == Some(Stamp(rows[at]))
    {
      var fields := Words(rows[i]);
      if |fields| < 5 {
        // fields[0] or fields[4] is out of range
        return Raised(IndexError);
      }
      var recovrpId := fields[0];
      var timestamp := fields[4];
      if latestTimestamp.None? || Less(latestTimestamp.value, timestamp) {
        if i > 0 {
          LatestExtends(rows, i, at);
        } else {
          LessIrreflexive(timestamp);
        }
        latestTimestamp := Some(timestamp);
        latestCopy := Some(recovrpId);
        at := i;
      } else {
        LatestExtends(rows, i, at);
      }
    }
    // `if latest_copy:` is a truthiness test; an ID taken from split() is never empty
    if latestCopy.Some? && latestCopy.value != "" {
      r := Ok(latestCopy.value);
    } else {
      r := Raised(Failure("No safeguarded copies found."));
    }
  }

  /** query_latest_safeguarded_copy: list the recovery points of the group and
      pick the latest; a failing listing re-raises its CalledProcessError. */
  method QueryLatestSafeguardedCopy(h: Host, consistencyGroupId: string) returns (r: Outcome<string>)
    modifies h
    ensures var cmd := ListRecoveryPointsCommand(consistencyGroupId);
      var reply := h.oracle(old(h.trace), Run(cmd));
      && h.trace == old(h.trace) + [Run(cmd)]
      && (reply.code != 0 ==> r == Raised(CalledProcessError(cmd, reply.code)))
      && (reply.code == 0 ==> PickedFrom(DataRows(reply.stdout), r))
  {
    var listing := Capture(h, ListRecoveryPointsCommand(consistencyGroupId));
    if listing.Raised? {
      return Raised(listing.error);
    }
    r := PickLatest(DataRows(listing.value));
  }

  /** recover_safeguarded_copy */
  method RecoverSafeguardedCopy(h: Host, snapshotName: string, recovrpId: string) returns (r: Outcome<()>)
    modifies h
    ensures var cmd := RecoveryCommand(snapshotName, recovrpId);
      && h.trace == old(h.trace) + [Run(cmd)]
      && r == Check(Local(cmd), h.oracle(old(h.trace), Run(cmd)))
  {
    r := Execute(h, Local(RecoveryCommand(snapshotName, recovrpId)));
  }

  /** The parsing half of retrieve_volume_id: the first field of the first
      data row, an error when the listing has no data row, and IndexError when
      that row is blank. */
  function VolumeIdFromListing(stdout: string): (r: Outcome<string>)
    ensures r.Ok? <==> DataRows(stdout) != [] && Words(DataRows(stdout)[0]) != []
    ensures r.Ok? ==> IsWord(r.value)
    ensures r == Raised(Failure("Volume ID not found for snapshot.")) <==> DataRows(stdout) == []
    ensures r == Raised(IndexError) <==>
      DataRows(stdout) != [] && forall k :: 0 <= k < |DataRows(stdout)[0]| ==> IsSpace(DataRows(stdout)[0][k])
    ensures r.Ok? ==>
      var u := TrimStart(DataRows(stdout)[0]);
      r.value <= u && (|r.value| == |u| || IsSpace(u[|r.value|]))
  {
    var volumeInfo := DataRows(stdout);
    if volumeInfo != [] then
      var fields := Words(volumeInfo[0]);
      BlankHasNoWords(volumeInfo[0]);
      if fields == [] then Raised(IndexError)
      else
        FirstWordLeads(volumeInfo[0]);
        Ok(fields[0])
    else Raised(Failure("Volume ID not found for snapshot."))
  }

  /** retrieve_volume_id */
  method RetrieveVolumeId(h: Host, snapshotName: string) returns (r: Outcome<string>)
    modifies h
    ensures var cmd := ListVdiskCommand(snapshotName);
      var reply := h.oracle(old(h.trace), Run(cmd));
      && h.trace == old(h.trace) + [Run(cmd)]
      && r == if reply.code != 0 then Raised(CalledProcessError(cmd, reply.code))
              else VolumeIdFromListing(reply.stdout)
  {
    var listing := Capture(h, ListVdiskCommand(snapshotName));
    if listing.Raised? {
      return Raised(listing.error);
    }
    r := VolumeIdFromListing(listing.value);
  }

  /** present_snapshot */
  method PresentSnapshot(h: Host, volumeId: string, serverName: string) returns (r: Outcome<()>)
    modifies h
    ensures var cmd := PresentCommand(volumeId, serverName);
      && h.trace == old(h.trace) + [Run(cmd)]
      && r == Check(Local(cmd), h.oracle(old(h.trace), Run(cmd)))
  {
    r := Execute(h, Local(PresentCommand(volumeId, serverName)));
  }
}
