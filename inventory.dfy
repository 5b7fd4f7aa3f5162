/** The record inventory builder: for each selected zone in order, one GET
    lists the zone's records, and the A records among them are appended to
    the inventory. The first failed GET fails the whole build. */
module Inventory {
  import opened Types

  /** The reply to one record-listing GET, already decoded: the records of
      the zone, or the client error. */
  datatype RecordsReply = RecordsFailed(error: HttpError) | Records(domains: seq<Domain>)

  /** The only record type the updater keeps. */
  predicate IsA(d: Domain) {
    d.dnsType == "A"
  }

  /** The A records of a list, in list order. */
  function KeepA(ds: seq<Domain>): (r: seq<Domain>)
    ensures |r| <= |ds|
  {
    if ds == [] then []
    else
      var last := ds[|ds| - 1];
      KeepA(ds[..|ds| - 1]) + if IsA(last) then [last] else []
  }

  /** A record survives the filter exactly when it is an A record of the
      list. */
  lemma {:induction false} KeepAMembers(ds: seq<Domain>, d: Domain)
    ensures d in KeepA(ds) <==> d in ds && IsA(d)
  {
    if ds != [] {
      var init, last := ds[..|ds| - 1], ds[|ds| - 1];
      KeepAMembers(init, d);
      assert ds == init + [last];
    }
  }

  /** Filtering distributes over concatenation, so it keeps the order and
      the number of copies of every A record. */
  lemma {:induction false} KeepAConcat(ds: seq<Domain>, es: seq<Domain>)
    ensures KeepA(ds + es) == KeepA(ds) + KeepA(es)
    decreases |es|
  {
    if es == [] {
      assert ds + es == ds;
    } else {
      assert (ds + es)[..|ds + es| - 1] == ds + es[..|es| - 1];
      KeepAConcat(ds, es[..|es| - 1]);
    }
  }

  /** Filtering twice is filtering once. */
  lemma {:induction false} KeepAIdempotent(ds: seq<Domain>)
    ensures KeepA(KeepA(ds)) == KeepA(ds)
  {
    if ds != [] {
      var last := ds[|ds| - 1];
      KeepAIdempotent(ds[..|ds| - 1]);
      var single := if IsA(last) then [last] else [];
      KeepAConcat(KeepA(ds[..|ds| - 1]), single);
      if IsA(last) {
        assert KeepA(single) == KeepA([]) + [last];
      } else {
        assert KeepA(single) == [];
      }
    }
  }

  /** Each of the first `n` replies delivered its zone's records. */
  predicate AllDelivered(replies: seq<RecordsReply>, n: nat)
    requires n <= |replies|
  {
    forall i :: 0 <= i < n ==> replies[i].Records?
  }

  /** The records a reply delivered; a failed reply delivered none. */
  function Delivered(reply: RecordsReply): seq<Domain> {
    match reply
    case Records(ds) => ds
    case RecordsFailed(_) => []
  }

  /** The inventory built from the first `n` replies: their A records,
      reply by reply, each reply's records in their own order. */
  function Harvest(replies: seq<RecordsReply>, n: nat): seq<Domain>
    requires n <= |replies|
  {
    if n == 0 then [] else Harvest(replies, n - 1) + KeepA(Delivered(replies[n - 1]))
  }

  /** A record is in the inventory exactly when it is an A record that
      one of the replies delivered: nothing else gets in and no A record
      is dropped. */
  lemma {:induction false} HarvestMembers(replies: seq<RecordsReply>, n: nat, d: Domain)
    requires n <= |replies|
    ensures d in Harvest(replies, n) <==> IsA(d) && exists i :: 0 <= i < n && d in Delivered(replies[i])
  {
    if n > 0 {
      HarvestMembers(replies, n - 1, d);
      KeepAMembers(Delivered(replies[n - 1]), d);
      if IsA(d) && exists i :: 0 <= i < n && d in Delivered(replies[i]) {
        var i :| 0 <= i < n && d in Delivered(replies[i]);
        if i < n - 1 {
          assert d in Harvest(replies, n - 1);
        }
      }
    }
  }

  /** The inventory of the first `n` replies depends on those replies only. */
  lemma {:induction false} HarvestPrefix(rs: seq<RecordsReply>, ss: seq<RecordsReply>, n: nat)
    requires n <= |rs|
    ensures Harvest(rs + ss, n) == Harvest(rs, n)
  {
    if n > 0 {
      HarvestPrefix(rs, ss, n - 1);
      assert (rs + ss)[n - 1] == rs[n - 1];
    }
  }

  /** Building over two runs of replies is the concatenation of the two
      inventories: zone order is kept. */
  lemma {:induction false} HarvestConcat(rs: seq<RecordsReply>, ss: seq<RecordsReply>, k: nat)
    requires k <= |ss|
    ensures Harvest(rs + ss, |rs| + k) == Harvest(rs, |rs|) + Harvest(ss, k)
  {
    if k == 0 {
      HarvestPrefix(rs, ss, |rs|);
      assert Harvest(rs, |rs|) + [] == Harvest(rs, |rs|);
    } else {
      HarvestConcat(rs, ss, k - 1);
      assert (rs + ss)[|rs| + k - 1] == ss[k - 1];
      AppendAssoc(Harvest(rs, |rs|), Harvest(ss, k - 1), KeepA(Delivered(ss[k - 1])));
    }
  }

  lemma AppendAssoc(a: seq<Domain>, b: seq<Domain>, c: seq<Domain>)
    ensures (a + b) + c == a + (b + c)
  {
  }

  /** `fetch_domains`: one GET per zone, in zone order, each answered by the
      next reply. `gets` lists the URLs requested. The build succeeds when
      every zone's reply delivered its records, and the inventory is then
      the A records of the replies in order; otherwise it stops at the
      first zone whose reply failed (or has not arrived), after requesting
      only that zone and the ones before it. */
  method FetchDomains(zones: seq<Zone>, replies: seq<RecordsReply>) returns (gets: seq<string>, r: Result<seq<Domain>, Halt>)
    ensures |gets| <= |zones|
    ensures forall i :: 0 <= i < |gets| ==> gets[i] == RecordsUrl(zones[i])
    ensures r.Ok? <==> |zones| <= |replies| && AllDelivered(replies, |zones|)
    ensures r.Ok? ==> |gets| == |zones| && r.value == Harvest(replies, |zones|)
    ensures r.Err? ==> 1 <= |gets| <= |replies| + 1 && AllDelivered(replies, |gets| - 1)
    ensures r.Err? && r.error.Waiting? ==> |gets| == |replies| + 1
    ensures r.Err? && r.error.Fatal? ==> |gets| <= |replies| && replies[|gets| - 1] == RecordsFailed(r.error.error)
  {
    var domains: seq<Domain> := [];
    gets := [];
    for z := 0 to |zones|
      invariant |gets| == z && z <= |replies|
      invariant forall i :: 0 <= i < z ==> gets[i] == RecordsUrl(zones[i])
      invariant AllDelivered(replies, z)
      invariant domains == Harvest(replies, z)
    {
      gets := gets + [RecordsUrl(zones[z])];
      if z == |replies| {
        return gets, Err(Waiting);
      }
      match replies[z]
      case RecordsFailed(e) =>
        return gets, Err(Fatal(e));
      case Records(inZone) =>
        domains := AppendARecords(domains, inZone);
    }
    return gets, Ok(domains);
  }

  /** The inner loop of `fetch_domains`: push the A records of one zone's
      listing onto the inventory, in listing order. */
  method AppendARecords(domains: seq<Domain>, records: seq<Domain>) returns (r: seq<Domain>)
    ensures r == domains + KeepA(records)
  {
    r := domains;
    for j := 0 to |records|
      invariant r == domains + KeepA(records[..j])
    {
      assert records[..j + 1][..j] == records[..j];
      if IsA(records[j]) {
        AppendAssoc(domains, KeepA(records[..j]), [records[j]]);
        r := r + [records[j]];
      }
    }
    assert records[..|records|] == records;
  }

  /** A zone listing an A record and a CNAME record: only the A record
      enters the inventory. */
  lemma OnlyARecordSurvives()
    ensures
      var r1 := Domain("r1", "a.com", "z1", false, "A", false, true, "1.1.1.1");
      var r2 := Domain("r2", "www.a.com", "z1", false, "CNAME", false, true, "a.com");
      Harvest([Records([r1, r2])], 1) == [r1]
  {
    var r1 := Domain("r1", "a.com", "z1", false, "A", false, true, "1.1.1.1");
    var r2 := Domain("r2", "www.a.com", "z1", false, "CNAME", false, true, "a.com");
    assert [r1, r2][..1] == [r1];
    assert [r1][..0] == [];
    assert KeepA([r1]) == [r1];
    assert KeepA([r1, r2]) == [r1];
  }
}
