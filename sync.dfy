/** The IP-change sync loop. Its only state is the last known public IP,
    initially "". Each pass probes the public IP; a failed probe counts as
    "". When the probe is non-empty and differs from the known IP, every
    selected record is PATCHed with the new IP, one after the other, and
    then the IP is probed a second time and that answer becomes the known
    IP. A failed PATCH or a failed second probe ends the run; a failed
    first probe does not.

    The network is given as two streams of replies, one for IP probes and
    one for PATCHes, each consumed in order, one reply per request. When a
    request finds its stream exhausted, its reply has not arrived yet and
    the run is still blocked on it (halt `Waiting`); a finite trace is
    therefore a prefix of the endless loop. */
module Sync {
  import opened Types

  /** The reply to an IP probe: a client error, or the decoded JSON body,
      whose `ip` field is a string or not. */
  datatype IpReply = IpFailed(error: HttpError) | IpJson(ip: Option<string>)

  /** The reply to a PATCH. */
  datatype PatchReply = Patched | PatchFailed(error: HttpError)

  /** A PATCH request: the record's URL and the body's `content`. */
  datatype PatchRequest = PatchRequest(url: string, content: string)

  /** `fetch_current_ip`: an error when the request fails; otherwise the
      body's `ip` string, or "" when there is none. */
  function FetchCurrentIp(reply: IpReply): (r: Result<string, HttpError>)
    ensures r.Err? <==> reply.IpFailed?
    ensures r.Err? ==> r.error == reply.error
    ensures reply == IpJson(None) ==> r == Ok("")
    ensures r.Ok? && r.value != "" ==> reply.ip == Some(r.value)
    ensures reply.IpJson? && reply.ip.Some? ==> r == Ok(reply.ip.value)
  {
    match reply
    case IpFailed(e) => Err(e)
    case IpJson(ip) => Ok(ip.GetOr(""))
  }

  /** What the loop's first probe yields: a failed probe becomes "". */
  function Probed(reply: IpReply): string {
    match FetchCurrentIp(reply)
    case Ok(ip) => ip
    case Err(_) => ""
  }

  /** The change test of the loop. */
  predicate Changes(ip: string, reply: IpReply) {
    Probed(reply) != "" && Probed(reply) != ip
  }

  /** The request `update_dns_records` sends for one record. */
  function PatchFor(d: Domain, ip: string): PatchRequest {
    PatchRequest(RecordUrl(d), ip)
  }

  // ---------------------------------------------------------------------
  // Propagation

  /** The PATCHes sent while propagating, and why propagation stopped
      (None: every record was patched). */
  datatype Propagation = Propagation(sent: seq<PatchRequest>, halt: Option<Halt>) {
    /** This propagation, after `pre` was already sent. */
    function Following(pre: seq<PatchRequest>): Propagation {
      Propagation(pre + sent, halt)
    }
  }

  /** Propagating `ip` to the records, each PATCH answered by the next
      reply; `PropagationOrder` states what it sends and when it stops. */
  function Propagate(domains: seq<Domain>, ip: string, replies: seq<PatchReply>): (p: Propagation)
    ensures |p.sent| <= |domains|
    ensures p.halt.None? ==> |p.sent| == |domains| <= |replies|
  {
    if domains == [] then Propagation([], None)
    else
      var request := PatchFor(domains[0], ip);
      if replies == [] then Propagation([request], Some(Waiting))
      else if replies[0].PatchFailed? then Propagation([request], Some(Fatal(replies[0].error)))
      else Propagate(domains[1..], ip, replies[1..]).Following([request])
  }

  /** Propagation sends one PATCH per record, in order, each carrying `ip`
      to that record's URL. The first failed PATCH is the last one sent
      (fail-fast); all records are patched exactly when every reply was a
      success; otherwise the run waits on the reply after the last one. */
  lemma {:induction false} PropagationOrder(domains: seq<Domain>, ip: string, replies: seq<PatchReply>)
    ensures var p := Propagate(domains, ip, replies);
      && (forall i :: 0 <= i < |p.sent| ==> p.sent[i] == PatchFor(domains[i], ip))
      && (forall i :: 0 <= i < |p.sent| - 1 ==> i < |replies| && replies[i].Patched?)
      && (p.halt.None? <==> |domains| <= |replies| && forall i :: 0 <= i < |domains| ==> replies[i].Patched?)
      && (p.halt.None? ==> |p.sent| == |domains|)
      && (p.halt == Some(Waiting) ==> |p.sent| == |replies| + 1)
      && (p.halt.Some? && p.halt.value.Fatal? ==>
            1 <= |p.sent| <= |replies| && replies[|p.sent| - 1] == PatchFailed(p.halt.value.error))
  {
    if domains != [] && replies != [] && replies[0].Patched? {
      PropagationOrder(domains[1..], ip, replies[1..]);
      var rest := Propagate(domains[1..], ip, replies[1..]);
      var p := Propagate(domains, ip, replies);
      assert p.sent == [PatchFor(domains[0], ip)] + rest.sent;
      assert forall i :: 1 <= i < |p.sent| ==> p.sent[i] == rest.sent[i - 1];
      assert forall i :: 1 <= i < |replies| ==> replies[i] == replies[1..][i - 1];
      assert forall i :: 1 <= i < |domains| ==> domains[i] == domains[1..][i - 1];
    }
  }

  /** Propagating over the records from position `i` on is propagating to
      record `i` alone and then, unless that stopped, over the rest. */
  lemma PropagateStep(domains: seq<Domain>, i: nat, ip: string, replies: seq<PatchReply>)
    requires i < |domains|
    ensures var one := Propagate([domains[i]], ip, replies);
      Propagate(domains[i..], ip, replies) ==
        if one.halt.Some? then one else Propagate(domains[i + 1..], ip, replies[1..]).Following(one.sent)
  {
    assert domains[i..][0] == domains[i];
    assert domains[i..][1..] == domains[i + 1..];
    assert [domains[i]][1..] == [];
  }

  /** Propagation from record `i` and reply `i` on: the PATCH of record `i`,
      then the rest unless that PATCH failed or is unanswered. */
  lemma PropagateAt(domains: seq<Domain>, i: nat, ip: string, replies: seq<PatchReply>)
    requires i < |domains| && i <= |replies|
    ensures Propagate(domains[i..], ip, replies[i..]) ==
      if i == |replies| then Propagation([PatchFor(domains[i], ip)], Some(Waiting))
      else if replies[i].PatchFailed? then Propagation([PatchFor(domains[i], ip)], Some(Fatal(replies[i].error)))
      else Propagate(domains[i + 1..], ip, replies[i + 1..]).Following([PatchFor(domains[i], ip)])
  {
    assert domains[i..][0] == domains[i] && domains[i..][1..] == domains[i + 1..];
    if i < |replies| {
      assert replies[i..][0] == replies[i] && replies[i..][1..] == replies[i + 1..];
    }
  }

  /** `update_dns_records`: the loop that sends one PATCH per record. */
  method UpdateDnsRecords(domains: seq<Domain>, newIp: string, replies: seq<PatchReply>)
    returns (sent: seq<PatchRequest>, halt: Option<Halt>)
    ensures Propagation(sent, halt) == Propagate(domains, newIp, replies)
  {
    sent := [];
    assert domains[0..] == domains && replies[0..] == replies;
    PropagationFollowing(Propagate(domains, newIp, replies), [], []);
    for i := 0 to |domains|
      invariant |sent| == i <= |replies|
      invariant Propagate(domains, newIp, replies) == Propagate(domains[i..], newIp, replies[i..]).Following(sent)
    {
      PropagateAt(domains, i, newIp, replies);
      var request := PatchFor(domains[i], newIp);
      ghost var sent0 := sent;
      sent := sent + [request];
      if i == |replies| {
        PropagationFollowing(Propagation([request], Some(Waiting)), [], sent0);
        return sent, Some(Waiting);
      }
      if replies[i].PatchFailed? {
        PropagationFollowing(Propagation([request], Some(Fatal(replies[i].error))), [], sent0);
        return sent, Some(Fatal(replies[i].error));
      }
      PropagationFollowing(Propagate(domains[i + 1..], newIp, replies[i + 1..]), [request], sent0);
    }
    assert domains[|domains|..] == [];
    assert sent + [] == sent;
    return sent, None;
  }

  // ---------------------------------------------------------------------
  // One pass of the loop

  /** The outcome of one pass: the PATCHes it sent, the known IP after it,
      and either the unread rest of both streams or why the run ended. */
  datatype Tick =
    | Next(sent: seq<PatchRequest>, ip: string, probes: seq<IpReply>, patches: seq<PatchReply>)
    | Stop(sent: seq<PatchRequest>, ip: string, halt: Halt)

  /** One pass of the loop body from known IP `ip`. */
  function Iteration(domains: seq<Domain>, ip: string, probes: seq<IpReply>, patches: seq<PatchReply>): (t: Tick)
    ensures t.Next? ==> |t.probes| < |probes| && t.probes == probes[|probes| - |t.probes|..]
    ensures t.Next? ==> |t.patches| <= |patches| && t.patches == patches[|patches| - |t.patches|..]
  {
    if probes == [] then Stop([], ip, Waiting)
    else if !Changes(ip, probes[0]) then Next([], ip, probes[1..], patches)
    else
      var newIp := Probed(probes[0]);
      var p := Propagate(domains, newIp, patches);
      if p.halt.Some? then Stop(p.sent, newIp, p.halt.value)
      else if |probes| == 1 then Stop(p.sent, newIp, Waiting)
      else
        match FetchCurrentIp(probes[1])
        case Err(e) => Stop(p.sent, newIp, Fatal(e))
        case Ok(reprobed) => Next(p.sent, reprobed, probes[2..], patches[|domains|..])
  }

  /** Change detection: a pass sends a PATCH exactly when its probe is
      non-empty and differs from the known IP (and some record is
      selected). Without a change the pass reads one probe and changes
      nothing; a failed probe is never a change. */
  lemma ChangeDetection(domains: seq<Domain>, ip: string, probes: seq<IpReply>, patches: seq<PatchReply>)
    requires probes != []
    ensures probes[0].IpFailed? ==> !Changes(ip, probes[0])
    ensures !Changes(ip, probes[0]) ==> Iteration(domains, ip, probes, patches) == Next([], ip, probes[1..], patches)
    ensures Iteration(domains, ip, probes, patches).sent != [] <==> Changes(ip, probes[0]) && domains != []
  {
    if Changes(ip, probes[0]) && domains != [] {
      var p := Propagate(domains, Probed(probes[0]), patches);
      assert |p.sent| >= 1;
    }
  }

  /** On a change, the pass sends the PATCHes of propagating the probed IP:
      one per selected record in order, each carrying the new IP to the
      record's URL, stopping at the first failure. */
  lemma PropagationRequests(domains: seq<Domain>, ip: string, probes: seq<IpReply>, patches: seq<PatchReply>)
    requires probes != [] && Changes(ip, probes[0])
    ensures var t := Iteration(domains, ip, probes, patches);
      t.sent == Propagate(domains, Probed(probes[0]), patches).sent &&
      forall i :: 0 <= i < |t.sent| ==> t.sent[i] == PatchRequest(RecordUrl(domains[i]), Probed(probes[0]))
  {
    PropagationOrder(domains, Probed(probes[0]), patches);
  }

  /** After a complete propagation the known IP is whatever the second probe
      says, not the IP just written; a failed second probe ends the run,
      unlike a failed first probe. */
  lemma PostPropagationState(domains: seq<Domain>, ip: string, probes: seq<IpReply>, patches: seq<PatchReply>)
    requires |probes| >= 2 && Changes(ip, probes[0])
    requires |domains| <= |patches| && forall i :: 0 <= i < |domains| ==> patches[i].Patched?
    ensures var t := Iteration(domains, ip, probes, patches);
      |t.sent| == |domains| &&
      (probes[1].IpFailed? ==> t == Stop(t.sent, Probed(probes[0]), Fatal(probes[1].error))) &&
      (probes[1].IpJson? ==> t == Next(t.sent, probes[1].ip.GetOr(""), probes[2..], patches[|domains|..]))
  {
    PropagationOrder(domains, Probed(probes[0]), patches);
  }

  /** The known IP can drift from what was written: the second probe may
      answer with another address. */
  lemma ReprobeMayDrift()
    ensures
      var d := Domain("r1", "a.com", "z1", false, "A", false, true, "0.0.0.0");
      var t := Iteration([d], "", [IpJson(Some("1.2.3.4")), IpJson(Some("5.6.7.8"))], [Patched]);
      t == Next([PatchRequest(RecordUrl(d), "1.2.3.4")], "5.6.7.8", [], [])
  {
    var d := Domain("r1", "a.com", "z1", false, "A", false, true, "0.0.0.0");
    var probes := [IpJson(Some("1.2.3.4")), IpJson(Some("5.6.7.8"))];
    PatchOne(d, "1.2.3.4", [Patched]);
    assert Probed(probes[0]) == "1.2.3.4" && FetchCurrentIp(probes[1]) == Ok("5.6.7.8");
    assert probes[2..] == [] && [Patched][|[d]|..] == [];
  }

  /** Propagating to a single record whose PATCH succeeds. */
  lemma PatchOne(d: Domain, ip: string, replies: seq<PatchReply>)
    requires replies != [] && replies[0].Patched?
    ensures Propagate([d], ip, replies) == Propagation([PatchFor(d, ip)], None)
  {
    assert [d][1..] == [];
    assert [PatchFor(d, ip)] + [] == [PatchFor(d, ip)];
  }

  // ---------------------------------------------------------------------
  // The loop

  /** What a run did: the PATCHes sent, the final known IP, why it ended. */
  datatype Trace = Trace(sent: seq<PatchRequest>, ip: string, halt: Halt) {
    function Following(pre: seq<PatchRequest>): Trace {
      Trace(pre + sent, ip, halt)
    }
  }

  /** Passes of the loop until a stream runs out or a fatal error. */
  function Run(domains: seq<Domain>, ip: string, probes: seq<IpReply>, patches: seq<PatchReply>): Trace
    decreases |probes|
  {
    match Iteration(domains, ip, probes, patches)
    case Stop(sent, last, halt) => Trace(sent, last, halt)
    case Next(sent, next, probes', patches') => Run(domains, next, probes', patches').Following(sent)
  }

  /** A PATCH that carries a non-empty IP to the URL of one of the records. */
  predicate TargetsSelected(domains: seq<Domain>, r: PatchRequest) {
    r.content != "" && exists j :: 0 <= j < |domains| && r == PatchFor(domains[j], r.content)
  }

  /** Every PATCH of a run carries a non-empty IP to the URL of a selected
      record. */
  lemma {:induction false} RunPatchesSelected(domains: seq<Domain>, ip: string, probes: seq<IpReply>, patches: seq<PatchReply>)
    ensures var t := Run(domains, ip, probes, patches);
      forall i :: 0 <= i < |t.sent| ==> TargetsSelected(domains, t.sent[i])
    decreases |probes|
  {
    var t := Run(domains, ip, probes, patches);
    var first := Iteration(domains, ip, probes, patches);
    SentOfChange(domains, ip, probes, patches);
    assert forall i :: 0 <= i < |first.sent| ==> TargetsSelected(domains, first.sent[i]);
    RunStep(domains, ip, probes, patches);
    if first.Next? {
      RunPatchesSelected(domains, first.ip, first.probes, first.patches);
      var rest := Run(domains, first.ip, first.probes, first.patches).sent;
      assert t.sent == first.sent + rest;
      forall i | 0 <= i < |t.sent|
        ensures TargetsSelected(domains, t.sent[i])
      {
        if i >= |first.sent| {
          assert t.sent[i] == rest[i - |first.sent|];
        }
      }
    }
  }

  /** The PATCHes of one pass carry the probed IP to selected records. */
  lemma SentOfChange(domains: seq<Domain>, ip: string, probes: seq<IpReply>, patches: seq<PatchReply>)
    ensures var t := Iteration(domains, ip, probes, patches);
      forall i :: 0 <= i < |t.sent| ==>
        t.sent[i].content != "" && i < |domains| && t.sent[i] == PatchFor(domains[i], t.sent[i].content)
  {
    if probes != [] && Changes(ip, probes[0]) {
      PropagationOrder(domains, Probed(probes[0]), patches);
    }
  }

  /** While no probe reports a change, a run sends nothing and keeps the
      known IP; it ends waiting for the next probe. */
  lemma {:induction false} SteadyIpSendsNothing(domains: seq<Domain>, ip: string, probes: seq<IpReply>, patches: seq<PatchReply>)
    requires forall i :: 0 <= i < |probes| ==> !Changes(ip, probes[i])
    ensures Run(domains, ip, probes, patches) == Trace([], ip, Waiting)
    decreases |probes|
  {
    if probes != [] {
      assert forall i :: 0 <= i < |probes| - 1 ==> probes[1..][i] == probes[i + 1];
      SteadyIpSendsNothing(domains, ip, probes[1..], patches);
    }
  }

  // ---------------------------------------------------------------------
  // The loop as the program runs it

  /** A run is its first pass followed by the run from where that pass
      left off. */
  lemma RunStep(domains: seq<Domain>, ip: string, probes: seq<IpReply>, patches: seq<PatchReply>)
    ensures Run(domains, ip, probes, patches) ==
      match Iteration(domains, ip, probes, patches)
      case Stop(sent, last, halt) => Trace(sent, last, halt)
      case Next(sent, next, probes', patches') => Run(domains, next, probes', patches').Following(sent)
  {
  }

  lemma TraceFollowing(t: Trace, a: seq<PatchRequest>, b: seq<PatchRequest>)
    ensures t.Following(a).Following(b) == t.Following(b + a)
    ensures t.Following([]) == t
  {
    assert b + (a + t.sent) == (b + a) + t.sent;
    assert [] + t.sent == t.sent;
  }

  lemma PropagationFollowing(p: Propagation, a: seq<PatchRequest>, b: seq<PatchRequest>)
    ensures p.Following(a).Following(b) == p.Following(b + a)
    ensures p.Following([]) == p
  {
    assert b + (a + p.sent) == (b + a) + p.sent;
    assert [] + p.sent == p.sent;
  }

  /** The loop of the sync pass that calls `update_dns_records` with one
      record at a time: the same requests and the same stop as propagating
      to the whole list. */
  method UpdateEachRecord(domains: seq<Domain>, newIp: string, replies: seq<PatchReply>)
    returns (sent: seq<PatchRequest>, halt: Option<Halt>)
    ensures Propagation(sent, halt) == Propagate(domains, newIp, replies)
  {
    sent := [];
    var q := 0;
    ghost var whole := Propagate(domains, newIp, replies);
    assert domains[0..] == domains && replies[0..] == replies;
    for i := 0 to |domains|
      invariant q == i <= |replies|
      invariant whole == Propagate(domains[i..], newIp, replies[q..]).Following(sent)
    {
      PropagateStep(domains, i, newIp, replies[q..]);
      var s, h := UpdateDnsRecords([domains[i]], newIp, replies[q..]);
      ghost var sent0 := sent;
      sent := sent + s;
      if h.Some? {
        return sent, h;
      }
      PropagationFollowing(Propagate(domains[i + 1..], newIp, replies[q..][1..]), s, sent0);
      assert replies[q..][1..] == replies[q + 1..];
      q := q + 1;
    }
    assert domains[|domains|..] == [];
    assert sent + [] == sent;
    return sent, None;
  }

  /** A pass without a change leaves the run to the next probe. */
  lemma QuietPass(domains: seq<Domain>, ip: string, probes: seq<IpReply>, patches: seq<PatchReply>)
    requires probes != [] && !Changes(ip, probes[0])
    ensures Run(domains, ip, probes, patches) == Run(domains, ip, probes[1..], patches)
  {
    TraceFollowing(Run(domains, ip, probes[1..], patches), [], []);
  }

  /** A pass with a change that ends the run: a PATCH failed or is still
      unanswered, or the second probe is missing or failed. */
  lemma ChangedPassEnds(domains: seq<Domain>, ip: string, probes: seq<IpReply>, patches: seq<PatchReply>,
                        done: seq<PatchRequest>, halt: Option<Halt>)
    requires probes != [] && Changes(ip, probes[0])
    requires Propagation(done, halt) == Propagate(domains, Probed(probes[0]), patches)
    requires halt.Some? || |probes| == 1 || probes[1].IpFailed?
    ensures Run(domains, ip, probes, patches) ==
      Trace(done, Probed(probes[0]),
            if halt.Some? then halt.value else if |probes| == 1 then Waiting else Fatal(probes[1].error))
  {
    RunStep(domains, ip, probes, patches);
  }

  /** A pass with a change after which the loop goes on: every PATCH
      succeeded and the second probe answered, and that answer is the
      known IP of the next pass. */
  lemma ChangedPassGoesOn(domains: seq<Domain>, ip: string, probes: seq<IpReply>, patches: seq<PatchReply>,
                          done: seq<PatchRequest>)
    requires |probes| > 1 && Changes(ip, probes[0]) && probes[1].IpJson?
    requires Propagation(done, None) == Propagate(domains, Probed(probes[0]), patches)
    ensures |domains| <= |patches|
    ensures Run(domains, ip, probes, patches) ==
      Run(domains, probes[1].ip.GetOr(""), probes[2..], patches[|domains|..]).Following(done)
  {
    ChangedIteration(domains, ip, probes, patches, done);
    RunAfterReprobe(domains, ip, probes, patches, done);
  }

  /** The pass of `ChangedPassGoesOn` itself. */
  lemma ChangedIteration(domains: seq<Domain>, ip: string, probes: seq<IpReply>, patches: seq<PatchReply>,
                         done: seq<PatchRequest>)
    requires |probes| > 1 && Changes(ip, probes[0]) && probes[1].IpJson?
    requires Propagation(done, None) == Propagate(domains, Probed(probes[0]), patches)
    ensures |domains| <= |patches|
    ensures Iteration(domains, ip, probes, patches) == Next(done, probes[1].ip.GetOr(""), probes[2..], patches[|domains|..])
  {
  }

  /** A run whose first pass ends with a second probe goes on from that
      probe's answer. */
  lemma RunAfterReprobe(domains: seq<Domain>, ip: string, probes: seq<IpReply>, patches: seq<PatchReply>,
                        done: seq<PatchRequest>)
    requires |probes| > 1 && Changes(ip, probes[0]) && probes[1].IpJson?
    requires |domains| <= |patches|
    requires Iteration(domains, ip, probes, patches) == Next(done, probes[1].ip.GetOr(""), probes[2..], patches[|domains|..])
    ensures Run(domains, ip, probes, patches) ==
      Run(domains, probes[1].ip.GetOr(""), probes[2..], patches[|domains|..]).Following(done)
  {
  }

  /** `QuietPass`, `ChangedPassEnds` and `ChangedPassGoesOn` restated for
      the pass that starts at probe `p` and PATCH reply `q` of the streams:
      the offset forms `SyncLoop` uses, since its state is a pair of
      positions in the whole streams. */
  lemma QuietPassAt(domains: seq<Domain>, ip: string, probes: seq<IpReply>, patches: seq<PatchReply>, p: nat, q: nat)
    requires p < |probes| && q <= |patches| && !Changes(ip, probes[p])
    ensures Run(domains, ip, probes[p..], patches[q..]) == Run(domains, ip, probes[p + 1..], patches[q..])
  {
    assert probes[p..][0] == probes[p] && probes[p..][1..] == probes[p + 1..];
    QuietPass(domains, ip, probes[p..], patches[q..]);
  }

  lemma ChangedPassEndsAt(domains: seq<Domain>, ip: string, probes: seq<IpReply>, patches: seq<PatchReply>, p: nat, q: nat,
                          done: seq<PatchRequest>, halt: Option<Halt>)
    requires p < |probes| && q <= |patches| && Changes(ip, probes[p])
    requires Propagation(done, halt) == Propagate(domains, Probed(probes[p]), patches[q..])
    requires halt.Some? || p + 1 == |probes| || probes[p + 1].IpFailed?
    ensures Run(domains, ip, probes[p..], patches[q..]) ==
      Trace(done, Probed(probes[p]),
            if halt.Some? then halt.value else if p + 1 == |probes| then Waiting else Fatal(probes[p + 1].error))
  {
    assert probes[p..][0] == probes[p];
    if p + 1 < |probes| {
      assert probes[p..][1] == probes[p + 1];
    }
    ChangedPassEnds(domains, ip, probes[p..], patches[q..], done, halt);
  }

  lemma ChangedPassGoesOnAt(domains: seq<Domain>, ip: string, probes: seq<IpReply>, patches: seq<PatchReply>, p: nat, q: nat,
                            done: seq<PatchRequest>)
    requires p + 1 < |probes| && q <= |patches| && Changes(ip, probes[p]) && probes[p + 1].IpJson?
    requires Propagation(done, None) == Propagate(domains, Probed(probes[p]), patches[q..])
    ensures q + |domains| <= |patches|
    ensures Run(domains, ip, probes[p..], patches[q..]) ==
      Run(domains, probes[p + 1].ip.GetOr(""), probes[p + 2..], patches[q + |domains|..]).Following(done)
  {
    assert probes[p..][0] == probes[p] && probes[p..][1] == probes[p + 1] && probes[p..][2..] == probes[p + 2..];
    ChangedPassGoesOn(domains, ip, probes[p..], patches[q..], done);
    assert patches[q..][|domains|..] == patches[q + |domains|..];
  }

  /** The `loop` of the program over finite reply streams: the returned
      PATCHes, known IP and halt are those of `Run` from the initial IP "". */
  method SyncLoop(domains: seq<Domain>, probes: seq<IpReply>, patches: seq<PatchReply>)
    returns (sent: seq<PatchRequest>, currentIp: string, halt: Halt)
    ensures Trace(sent, currentIp, halt) == Run(domains, "", probes, patches)
  {
    currentIp := "";
    sent := [];
    var p: nat, q: nat := 0, 0;
    assert probes[0..] == probes && patches[0..] == patches;
    TraceFollowing(Run(domains, "", probes, patches), [], []);
    while true
      invariant p <= |probes| && q <= |patches|
      invariant Run(domains, "", probes, patches) == Run(domains, currentIp, probes[p..], patches[q..]).Following(sent)
      decreases |probes| - p
    {
      if p == |probes| {
        halt := Waiting;
        return;
      }
      var temp := Probed(probes[p]);
      if temp == "" || temp == currentIp {
        QuietPassAt(domains, currentIp, probes, patches, p, q);
        p := p + 1;
        continue;
      }
      ghost var before, sent0, p0, q0 := currentIp, sent, p, q;
      currentIp := temp;
      var done, h := UpdateEachRecord(domains, currentIp, patches[q..]);
      sent := sent + done;
      if h.Some? {
        halt := h.value;
      } else if p + 1 == |probes| {
        halt := Waiting;
      } else {
        var reprobe := FetchCurrentIp(probes[p + 1]);
        if reprobe.Err? {
          halt := Fatal(reprobe.error);
        } else {
          ChangedPassGoesOnAt(domains, before, probes, patches, p, q, done);
          ghost var rest := Run(domains, reprobe.value, probes[p + 2..], patches[q + |domains|..]);
          assert Run(domains, "", probes, patches) == rest.Following(done).Following(sent0);
          TraceFollowing(rest, done, sent0);
          currentIp := reprobe.value;
          p := p + 2;
          q := q + |domains|;
          assert probes[p..] == probes[p0 + 2..] && patches[q..] == patches[q0 + |domains|..];
          assert rest == Run(domains, currentIp, probes[p..], patches[q..]);
          continue;
        }
      }
      ChangedPassEndsAt(domains, before, probes, patches, p, q, done, h);
      TraceFollowing(Trace(done, currentIp, halt), [], sent0);
      return;
    }
  }

  // ---------------------------------------------------------------------
  // Scenarios

  /** Probes "", x, x, y on four passes, for one selected record and any
      two distinct non-empty IPs x and y: the IP is propagated on the second
      and fourth pass only. Each propagation is followed by its second
      probe, which here confirms the IP. */
  lemma PropagatesOnChangesOnly(d: Domain, x: string, y: string)
    requires x != "" && y != "" && x != y
    ensures
      var a, b := IpJson(Some(x)), IpJson(Some(y));
      Run([d], "", [IpJson(Some("")), a, a, a, b, b], [Patched, Patched]) ==
        Trace([PatchFor(d, x), PatchFor(d, y)], y, Waiting)
  {
    var a, b := IpJson(Some(x)), IpJson(Some(y));
    var probes := [IpJson(Some("")), a, a, a, b, b];
    var patches := [Patched, Patched];
    assert probes[6..] == [] && patches[2..] == [];
    FourPasses(d, x, y, probes, patches);
  }

  /** `PropagatesOnChangesOnly` on streams given by their elements. */
  lemma FourPasses(d: Domain, x: string, y: string, probes: seq<IpReply>, patches: seq<PatchReply>)
    requires x != "" && y != "" && x != y
    requires |probes| == 6 && probes[0] == IpJson(Some("")) && probes[4] == probes[5] == IpJson(Some(y))
    requires probes[1] == probes[2] == probes[3] == IpJson(Some(x))
    requires |patches| == 2 && patches[0] == patches[1] == Patched
    ensures Run([d], "", probes, patches) == Trace([PatchFor(d, x), PatchFor(d, y)], y, Waiting)
  {
    assert probes[0..] == probes && patches[0..] == patches && Probed(probes[0]) == "";
    // The empty first probe is no change.
    QuietPassAt([d], "", probes, patches, 0, 0);
    LastThreePasses(d, x, y, probes, patches);
  }

  /** The second to fourth pass of `FourPasses`: x is new and is
      propagated. */
  lemma LastThreePasses(d: Domain, x: string, y: string, probes: seq<IpReply>, patches: seq<PatchReply>)
    requires x != "" && y != "" && x != y
    requires |probes| == 6 && probes[4] == probes[5] == IpJson(Some(y))
    requires probes[1] == probes[2] == probes[3] == IpJson(Some(x))
    requires |patches| == 2 && patches[0] == patches[1] == Patched
    ensures Run([d], "", probes[1..], patches) == Trace([PatchFor(d, x), PatchFor(d, y)], y, Waiting)
  {
    var p1, p2 := PatchFor(d, x), PatchFor(d, y);
    SecondPass(d, x, probes, patches);
    LastTwoPasses(d, x, y, probes, patches);
    PairOfRequests(p1, p2);
  }

  lemma PairOfRequests(p1: PatchRequest, p2: PatchRequest)
    ensures [p1] + [p2] == [p1, p2]
  {
  }

  /** The second pass of `FourPasses`. */
  lemma SecondPass(d: Domain, x: string, probes: seq<IpReply>, patches: seq<PatchReply>)
    requires x != "" && |probes| == 6 && probes[1] == probes[2] == IpJson(Some(x))
    requires |patches| == 2 && patches[0] == Patched
    ensures Run([d], "", probes[1..], patches) == Run([d], x, probes[3..], patches[1..]).Following([PatchFor(d, x)])
  {
    PatchOne(d, x, patches);
    assert patches[0..] == patches && Probed(probes[1]) == x;
    assert Propagate([d], Probed(probes[1]), patches[0..]) == Propagation([PatchFor(d, x)], None);
    ChangedPassGoesOnAt([d], "", probes, patches, 1, 0, [PatchFor(d, x)]);
  }

  /** The third and fourth pass of `FourPasses`: the fourth probe repeats
      x, the fifth moves to y. */
  lemma LastTwoPasses(d: Domain, x: string, y: string, probes: seq<IpReply>, patches: seq<PatchReply>)
    requires x != "" && y != "" && x != y
    requires |probes| == 6 && probes[3] == IpJson(Some(x)) && probes[4] == probes[5] == IpJson(Some(y))
    requires |patches| == 2 && patches[1] == Patched
    ensures Run([d], x, probes[3..], patches[1..]) == Trace([PatchFor(d, y)], y, Waiting)
  {
    QuietPassAt([d], x, probes, patches, 3, 1);
    FourthPass(d, x, y, probes, patches);
  }

  /** The fourth pass of `FourPasses`: y is new and is propagated, and the
      streams then run out. */
  lemma FourthPass(d: Domain, x: string, y: string, probes: seq<IpReply>, patches: seq<PatchReply>)
    requires y != "" && x != y
    requires |probes| == 6 && probes[4] == probes[5] == IpJson(Some(y))
    requires |patches| == 2 && patches[1] == Patched
    ensures Run([d], x, probes[4..], patches[1..]) == Trace([PatchFor(d, y)], y, Waiting)
  {
    PatchOne(d, y, patches[1..]);
    ChangedPassGoesOnAt([d], x, probes, patches, 4, 1, [PatchFor(d, y)]);
    var last := Run([d], y, probes[6..], patches[2..]);
    assert |probes[6..]| == 0;
    assert last == Trace([], y, Waiting);
    TraceFollowing(last, [PatchFor(d, y)], []);
  }

  /** Three selected records and a failing first PATCH: only the first
      record is requested, and the run ends with that error instead of
      probing again. */
  lemma FirstPatchFailureEndsRun(e: HttpError)
    ensures
      var d1 := Domain("r1", "a.com", "z1", false, "A", false, true, "0.0.0.0");
      var d2 := Domain("r2", "b.a.com", "z1", false, "A", false, true, "0.0.0.0");
      var d3 := Domain("r3", "c.a.com", "z1", false, "A", false, true, "0.0.0.0");
      var a := IpJson(Some("1.2.3.4"));
      Run([d1, d2, d3], "", [a, a, a], [PatchFailed(e), Patched, Patched]) ==
        Trace([PatchFor(d1, "1.2.3.4")], "1.2.3.4", Fatal(e))
  {
  }
}
