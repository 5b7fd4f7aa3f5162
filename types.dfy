/** Entities of the DNS updater, the provider's URL scheme, and the small
    result types shared by the other modules. */
module Types {

  datatype Option<+T> = None | Some(value: T) {
    function GetOr(default: T): T {
      match this
      case Some(v) => v
      case None => default
    }
  }

  datatype Result<+T, +E> = Ok(value: T) | Err(error: E)

  /** A DNS zone as listed by the provider. */
  datatype Zone = Zone(id: string, name: string, status: string)

  /** A DNS record of a zone; the program calls it a `Domain`. */
  datatype Domain = Domain(
    id: string,
    name: string,
    zoneId: string,
    locked: bool,
    dnsType: string,
    proxied: bool,
    proxiable: bool,
    content: string)

  /** An HTTP client error: the request could not be sent, or its body was
      not JSON. The client library's error is opaque to the program. */
  datatype HttpError = HttpError(reason: string)

  /** Why a sequence of requests stopped: the reply to the last request has
      not arrived (the client has no timeout, so the run is still blocked
      there), or a request failed and the error ends the run. */
  datatype Halt = Waiting | Fatal(error: HttpError)

  /** The provider's base URL for zones. */
  const ApiUrl: string := "https://api.cloudflare.com/client/v4/zones"

  /** URL of the GET that lists the records of a zone. */
  function RecordsUrl(zone: Zone): string {
    ApiUrl + "/" + zone.id + "/dns_records"
  }

  /** URL of the PATCH that rewrites one record. */
  function RecordUrl(d: Domain): string {
    ApiUrl + "/" + d.zoneId + "/dns_records/" + d.id
  }

  /** The PATCH URL of a record extends the GET URL of its zone by the
      record's id. */
  lemma RecordUrlExtendsZoneUrl(zone: Zone, d: Domain)
    requires d.zoneId == zone.id
    ensures RecordUrl(d) == RecordsUrl(zone) + "/" + d.id
  {
  }

  /** Splitting `z + sep + r` at the first '/' recovers `z` and `r`, when `z`
      holds no '/' and `sep` starts with one. */
  lemma {:induction false} FirstSlashSplits(z1: string, r1: string, z2: string, r2: string, sep: string)
    requires '/' !in z1 && '/' !in z2
    requires |sep| > 0 && sep[0] == '/'
    requires z1 + sep + r1 == z2 + sep + r2
    ensures z1 == z2 && r1 == r2
  {
    var u1, u2 := z1 + sep + r1, z2 + sep + r2;
    // The shorter id would be followed by '/' where the longer one has none.
    SlashAfter(z1, sep, r1);
    SlashAfter(z2, sep, r2);
    if |z1| < |z2| {
      assert false;
    } else if |z2| < |z1| {
      assert false;
    }
    assert z1 == u1[..|z1|] == u2[..|z2|] == z2;
    assert r1 == u1[|z1| + |sep|..] == u2[|z2| + |sep|..] == r2;
  }

  /** In `z + sep + r`, position `|z|` holds the first character of `sep`. */
  lemma SlashAfter(z: string, sep: string, r: string)
    ensures |sep| > 0 ==> (z + sep + r)[|z|] == sep[0]
    ensures forall i :: 0 <= i < |z| ==> (z + sep + r)[i] == z[i]
  {
  }

  /** Distinct records (zone id, record id) get distinct PATCH URLs, as long
      as zone ids hold no '/'. */
  lemma RecordUrlInjective(a: Domain, b: Domain)
    requires '/' !in a.zoneId && '/' !in b.zoneId
    requires RecordUrl(a) == RecordUrl(b)
    ensures a.zoneId == b.zoneId && a.id == b.id
  {
    var prefix := ApiUrl + "/";
    var sep := "/dns_records/";
    assert RecordUrl(a) == prefix + (a.zoneId + sep + a.id);
    assert RecordUrl(b) == prefix + (b.zoneId + sep + b.id);
    var ta := RecordUrl(a)[|prefix|..];
    assert ta == a.zoneId + sep + a.id;
    assert ta == b.zoneId + sep + b.id;
    FirstSlashSplits(a.zoneId, a.id, b.zoneId, b.id, sep);
  }
}
