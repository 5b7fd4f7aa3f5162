/** The setup phase of the program: fetch the zones, let the user pick some,
    fetch the A records of the picked zones, let the user pick some of
    those. Any failure on the way ends the run. The picked records are what
    the sync loop keeps up to date. */
module Setup {
  import opened Types
  import opened Selection
  import opened Inventory

  /** Why the setup phase ended the run. */
  datatype Abort =
    | ZonesFailed(error: HttpError)
    | BadZoneSelection(reason: SelectionError)
    | RecordsStopped(halt: Halt)
    | BadRecordSelection(reason: SelectionError)

  /** Records picked from the inventory of the first `n` replies are A
      records that one of those replies delivered. */
  lemma PickedFromReplies(n: nat, replies: seq<RecordsReply>, picked: seq<Domain>)
    requires n <= |replies| && AllDelivered(replies, n)
    requires forall i :: 0 <= i < |picked| ==> picked[i] in Harvest(replies, n)
    ensures forall i :: 0 <= i < |picked| ==>
      IsA(picked[i]) && exists k :: 0 <= k < n && k < |replies| && replies[k].Records? && picked[i] in replies[k].domains
  {
    forall i | 0 <= i < |picked|
      ensures IsA(picked[i]) &&
        exists k :: 0 <= k < n && k < |replies| && replies[k].Records? && picked[i] in replies[k].domains
    {
      HarvestMembers(replies, n, picked[i]);
      var k :| 0 <= k < n && picked[i] in Delivered(replies[k]);
      assert replies[k].Records?;
    }
  }

  /** The two prompts and fetches of the program, in order. `zones` is the
      result of listing the zones, `zoneLine` and `recordLine` the lines the
      user typed, `replies` the replies to the record listings. Returns the
      zones picked, the record-listing URLs requested, and the records
      picked. A failed zone listing or a bad zone line ends the run before
      any record listing; otherwise the zones the line names are listed, in
      pick order, and `PickRecords` states the rest. */
  method Prepare(zones: Result<seq<Zone>, HttpError>, zoneLine: string, replies: seq<RecordsReply>, recordLine: string)
    returns (zonesToUpdate: seq<Zone>, gets: seq<string>, r: Result<seq<Domain>, Abort>)
    ensures zones.Err? ==> r == Err(ZonesFailed(zones.error)) && gets == []
    ensures zones.Ok? ==> forall i :: 0 <= i < |zonesToUpdate| ==> zonesToUpdate[i] in zones.value
    ensures |gets| <= |zonesToUpdate|
    ensures forall i :: 0 <= i < |gets| ==> gets[i] == RecordsUrl(zonesToUpdate[i])
    ensures r.Ok? ==> zones.Ok? && |zonesToUpdate| == |Split(zoneLine)| && |gets| == |zonesToUpdate|
    ensures r.Ok? ==> |r.value| == |Split(recordLine)|
    ensures r.Ok? ==> forall i :: 0 <= i < |r.value| ==>
      IsA(r.value[i]) && exists k :: 0 <= k < |zonesToUpdate| && k < |replies| && replies[k].Records? && r.value[i] in replies[k].domains
    // The zone prompt: a bad token ends the run before any request, and
    // otherwise every token names a zone by its row.
    ensures r.Err? && r.error.BadZoneSelection? ==> zones.Ok? && gets == []
    ensures zones.Ok? && ParseNumbers(Split(zoneLine)).Err? ==>
      r == Err(BadZoneSelection(ParseNumbers(Split(zoneLine)).error))
    ensures zones.Ok? && |zones.value| <= MaxI64 ==>
      (r.Err? && r.error.BadZoneSelection? <==> !Picks(zoneLine, |zones.value|))
    ensures zones.Ok? && |zones.value| <= MaxI64 && Picks(zoneLine, |zones.value|) ==>
      zonesToUpdate == Picked(zoneLine, zones.value)
    // Past the zone prompt, the record stage runs on the zones picked.
    ensures zones.Ok? && !(r.Err? && r.error.BadZoneSelection?) ==>
      r.Ok? || r.error.RecordsStopped? || r.error.BadRecordSelection?
    ensures zones.Ok? && !(r.Err? && r.error.BadZoneSelection?) ==>
      (r.Err? && r.error.RecordsStopped? <==> !(|zonesToUpdate| <= |replies| && AllDelivered(replies, |zonesToUpdate|)))
    ensures r.Err? && r.error.RecordsStopped? && r.error.halt.Waiting? ==> |gets| == |replies| + 1
    ensures r.Err? && r.error.RecordsStopped? && r.error.halt.Fatal? ==>
      1 <= |gets| <= |replies| && replies[|gets| - 1] == RecordsFailed(r.error.halt.error)
    ensures r.Ok? || r.error.BadRecordSelection? ==>
      zones.Ok? && |gets| == |zonesToUpdate| <= |replies| && AllDelivered(replies, |zonesToUpdate|)
    ensures (r.Ok? || r.error.BadRecordSelection?) && ParseNumbers(Split(recordLine)).Err? ==>
      r == Err(BadRecordSelection(ParseNumbers(Split(recordLine)).error))
    ensures (r.Ok? || r.error.BadRecordSelection?) && |Harvest(replies, |zonesToUpdate|)| <= MaxI64 ==>
      (r.Ok? <==> Picks(recordLine, |Harvest(replies, |zonesToUpdate|)|))
    ensures r.Ok? && |Harvest(replies, |zonesToUpdate|)| <= MaxI64 ==>
      r.value == Picked(recordLine, Harvest(replies, |zonesToUpdate|))
  {
    zonesToUpdate, gets := [], [];
    if zones.Err? {
      return zonesToUpdate, gets, Err(ZonesFailed(zones.error));
    }
    var picked := Select(zoneLine, zones.value);
    if picked.Err? {
      return zonesToUpdate, gets, Err(BadZoneSelection(picked.error));
    }
    zonesToUpdate := picked.value;
    gets, r := PickRecords(zonesToUpdate, replies, recordLine);
  }

  /** The record stage of the setup: list the records of the picked zones,
      in order, and resolve the record line against the inventory. It ends
      with `RecordsStopped` exactly when a listing failed or is unanswered,
      and otherwise picks as `Select` does on the inventory `Harvest`
      builds. Every picked record is an A record that a picked zone's
      listing delivered. */
  method PickRecords(zonesToUpdate: seq<Zone>, replies: seq<RecordsReply>, recordLine: string)
    returns (gets: seq<string>, r: Result<seq<Domain>, Abort>)
    ensures |gets| <= |zonesToUpdate|
    ensures forall i :: 0 <= i < |gets| ==> gets[i] == RecordsUrl(zonesToUpdate[i])
    ensures r.Ok? || r.error.RecordsStopped? || r.error.BadRecordSelection?
    ensures r.Err? && r.error.RecordsStopped? <==> !(|zonesToUpdate| <= |replies| && AllDelivered(replies, |zonesToUpdate|))
    ensures r.Err? && r.error.RecordsStopped? && r.error.halt.Waiting? ==> |gets| == |replies| + 1
    ensures r.Err? && r.error.RecordsStopped? && r.error.halt.Fatal? ==>
      1 <= |gets| <= |replies| && replies[|gets| - 1] == RecordsFailed(r.error.halt.error)
    ensures r.Ok? || r.error.BadRecordSelection? ==>
      |gets| == |zonesToUpdate| <= |replies| && AllDelivered(replies, |zonesToUpdate|)
    ensures (r.Ok? || r.error.BadRecordSelection?) && ParseNumbers(Split(recordLine)).Err? ==>
      r == Err(BadRecordSelection(ParseNumbers(Split(recordLine)).error))
    ensures (r.Ok? || r.error.BadRecordSelection?) && |Harvest(replies, |zonesToUpdate|)| <= MaxI64 ==>
      (r.Ok? <==> Picks(recordLine, |Harvest(replies, |zonesToUpdate|)|))
    ensures r.Ok? && |Harvest(replies, |zonesToUpdate|)| <= MaxI64 ==>
      r.value == Picked(recordLine, Harvest(replies, |zonesToUpdate|))
    ensures r.Ok? ==> |r.value| == |Split(recordLine)|
    ensures r.Ok? ==> forall i :: 0 <= i < |r.value| ==>
      IsA(r.value[i]) && exists k :: 0 <= k < |zonesToUpdate| && k < |replies| && replies[k].Records? && r.value[i] in replies[k].domains
  {
    var inventory;
    gets, inventory := FetchDomains(zonesToUpdate, replies);
    if inventory.Err? {
      return gets, Err(RecordsStopped(inventory.error));
    }
    var chosen := Select(recordLine, inventory.value);
    if chosen.Err? {
      return gets, Err(BadRecordSelection(chosen.error));
    }
    PickedFromReplies(|zonesToUpdate|, replies, chosen.value);
    return gets, Ok(chosen.value);
  }
}
