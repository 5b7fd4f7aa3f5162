# cloudflare_ddns in Dafny

This project models the core of `cloudflare_ddns`, a command-line dynamic-DNS
updater for Cloudflare. The program lists the account's zones and lets the
user pick some by typing their row numbers, separated by commas. It then lists
the A records of the picked zones and lets the user pick records the same way.
After that it loops forever. Each pass probes the machine's public IP. When
the IP has changed, the pass PATCHes every picked record with the new IP and
then probes again.

The model has five modules:

- `Types` (`types.dfy`): zones and records (the program calls a record a
  `Domain`), HTTP errors, the provider's URL scheme, and `Option`/`Result`.
- `Selection` (`selection.dfy`): the line-of-numbers resolver. It models
  `split(',')`, `trim`, `parse::<i64>` and `x as usize` on a 64-bit target, and
  the loop that pushes the chosen inventory entries in order.
- `Inventory` (`inventory.dfy`): `fetch_domains`. It is one GET per picked
  zone, and the zone's A records are appended to the inventory.
- `Sync` (`sync.dfy`): `fetch_current_ip`, `update_dns_records` and the sync
  loop, as a `while` loop (`SyncLoop`) proved equal to a pass-by-pass
  specification (`Iteration`, `Run`).
- `Setup` (`setup.dfy`): the setup phase of `main`, from the zone listing up
  to the records picked for the loop.

Network replies are inputs, given as streams that are consumed in order, one
reply per request. When a request finds its stream exhausted, its reply has
not arrived yet. The HTTP client has no timeout, so the run is then blocked
for good (halt `Waiting`). A finite stream therefore describes a prefix of
the endless loop. The two panics of each selection block are modelled as
`SelectionError` values: the parse `unwrap()` panic on a token that is not a
number, and the indexing panic on an index past the end of the inventory. A
failed `?` is a fatal `Halt` or an `Abort`.

## Model

| member | source | states |
|---|---|---|
| Types.RecordUrlExtendsZoneUrl | src/main.rs:196 | The PATCH URL of a record is its zone's listing URL followed by `/` and the record id. |
| Types.RecordsUrl | src/main.rs:196 | Definition of the record-listing URL `<API_URL>/<zone id>/dns_records`. `RecordUrlExtendsZoneUrl` relates it to `RecordUrl`. |
| Types.RecordUrl | src/main.rs:260 | Definition of the PATCH URL `<API_URL>/<zone id>/dns_records/<record id>`. `RecordUrlInjective` states that, when zone ids hold no `/`, it determines the record's zone id and record id. |
| Types.RecordUrlInjective | src/main.rs:260 | Two records with the same PATCH URL have the same zone id and the same record id, provided zone ids hold no `/`. |
| Selection.AsUsize | src/main.rs:82 | `x as usize` is below 2^64 and congruent to `x` modulo 2^64. A negative `x` becomes an index above `i64::MAX`. |
| Selection.Split | src/main.rs:79 | `split(',')` yields at least one piece, and no piece holds a comma. |
| Selection.JoinSplit | src/main.rs:79 | Joining the pieces with commas gives the line back. |
| Selection.SplitJoin | src/main.rs:79 | Splitting comma-free pieces joined with commas gives back exactly those pieces. |
| Selection.SplitLastComma | src/main.rs:113 | A trailing comma followed by a comma-free tail adds the tail as one last piece. |
| Selection.IsWhitespace | src/main.rs:79 | Definition of the white space `trim` drops: Rust's `char::is_whitespace`, the Unicode White_Space code points (U+0009 to U+000D, U+0020, U+0085, U+00A0, U+1680, U+2000 to U+200A, U+2028, U+2029, U+202F, U+205F, U+3000). |
| Selection.TrimStart | src/main.rs:79 | The result is a suffix of the input, everything dropped is white space, and the result does not start with white space. |
| Selection.TrimEnd | src/main.rs:79 | The result is a prefix of the input, everything dropped is white space, and the result does not end with white space. |
| Selection.Trim | src/main.rs:79 | `trim`: the result is no longer than the token, and neither starts nor ends with white space. |
| Selection.TrimIsInfix | src/main.rs:79 | `trim` keeps an infix of the token, starting where the leading white space ends (where `TrimStart`'s result starts). Everything before it and everything after it is white space. |
| Selection.TrimBlank | src/main.rs:79 | A token made only of white space trims to the empty string. |
| Selection.ParseI64 | src/main.rs:79 | The empty string does not parse. A string that parses consists of ASCII digits, with at most a leading sign and never a lone sign. `ParseSignedDigits` gives the converse and the value. |
| Selection.ParseSignedDigits | src/main.rs:79 | An optional `+` or `-` followed by one or more ASCII digits parses exactly when its decimal value, negated after `-`, fits in `i64`, and it then parses to that value. Leading zeros and a leading `+` are accepted, and an out-of-range value is rejected. |
| Selection.FormatParses | src/main.rs:79 | Every `i64` written in decimal parses back to itself. |
| Selection.TokenValue | src/main.rs:79 | Definition of one token's number, trimmed and then parsed. `ParseNumbers` states how the numbers of a line follow from it. |
| Selection.Collect | src/main.rs:79 | The list of parsed values is complete exactly when every value is present. Otherwise the error gives the position of the first missing one. |
| Selection.ParseNumbers | src/main.rs:79 | The tokens yield numbers exactly when every trimmed token parses. The numbers are then the tokens' values, in order. Otherwise the error names the first bad token. |
| Selection.BlankTokenRejected | src/main.rs:79 | A line with any blank token has no number list. |
| Selection.BlankLineRejected | src/main.rs:77-79 | A line that is nothing but its newline, or other white space, is rejected. |
| Selection.TrailingCommaRejected | src/main.rs:111-113 | A line ending in a comma and then its newline is rejected, whatever comes before the comma. |
| Selection.Resolve | src/main.rs:81-83 | Resolving succeeds exactly when every cast index is below the inventory's length. Entry `i` of the result is then `inventory[numbers[i] as usize]`, so order and duplicates are kept. Otherwise the error is the first index out of range. |
| Selection.Picks | src/main.rs:79-83 | Definition of a valid line: every token is a number in `[0, length)`. `Select` states that it is exactly when a selection succeeds. |
| Selection.Picked | src/main.rs:81-83 | Definition of the entries a valid line names, one per token, in token order. `Select` states that it is what a selection yields. |
| Selection.Select | src/main.rs:113-117 | A selection succeeds only when every token parses, and a parse error comes before any indexing. For an inventory of at most `i64::MAX` entries, it succeeds exactly when every trimmed token is a number in `[0, length)`. It then yields `inventory[token value]` for each token, in token order. Every picked entry is in the inventory. In short, for such inventories a selection succeeds exactly when `Picks` holds, and yields `Picked`. |
| Inventory.KeepA | src/main.rs:219-223 | Filtering never lengthens the list. |
| Inventory.IsA | src/main.rs:220 | Definition of the filter's test: the record's type is exactly "A". |
| Inventory.KeepAMembers | src/main.rs:219-223 | A record survives the filter exactly when it is in the list and is of type "A". |
| Inventory.KeepAConcat | src/main.rs:219-223 | Filtering distributes over concatenation, so order and copies are kept. |
| Inventory.KeepAIdempotent | src/main.rs:219-223 | Filtering twice is the same as filtering once. |
| Inventory.HarvestMembers | src/main.rs:191-223 | A record is in the inventory exactly when it is an A record delivered by one of the zones' replies. Nothing else gets in, and no A record is dropped. |
| Inventory.Harvest | src/main.rs:191-223 | Reference definition of the inventory of the first `n` zone replies. It holds each reply's A records, reply after reply. `FetchDomains` is proved equal to it, and `HarvestMembers`, `HarvestPrefix` and `HarvestConcat` state its properties. |
| Inventory.HarvestPrefix | src/main.rs:191-223 | The inventory of the first `n` replies depends only on those replies. |
| Inventory.HarvestConcat | src/main.rs:191-223 | The inventory built over two runs of replies is the concatenation of their inventories, in zone order. |
| Inventory.FetchDomains | src/main.rs:180-230 | One GET is sent per zone, in order, each to that zone's listing URL. The build succeeds exactly when every zone's reply delivered records, and the inventory is then the zones' A records, zone by zone. Otherwise the build stops at the first failed or unanswered reply, after requesting only that zone and the zones before it. |
| Inventory.AppendARecords | src/main.rs:219-223 | The inner loop appends exactly the A records of the zone's listing to the inventory. |
| Inventory.OnlyARecordSurvives | src/main.rs:219-223 | For a zone listing an A record and a CNAME record, only the A record enters the inventory. |
| Sync.FetchCurrentIp | src/main.rs:234-245 | A probe fails exactly when its request fails, with that error. A body with a string `ip` gives exactly that string. A body with no string `ip` gives `""`, not an error. A non-empty answer is the body's `ip`. |
| Sync.Probed | src/main.rs:123-125 | Definition of the first probe's value: `fetch_current_ip`'s answer, or `""` when it failed. `ChangeDetection` states that a failed probe is never a change. |
| Sync.Changes | src/main.rs:128 | Definition of the change test: the probe is non-empty and differs from the known IP. `ChangeDetection` states that a pass PATCHes exactly when it holds. |
| Sync.PatchFor | src/main.rs:256-263 | Definition of one PATCH: the record's URL, with the new IP as `content`. `PropagationOrder` states that propagation sends these, one per record, in order. |
| Sync.Propagate | src/main.rs:131-133 | Propagation sends at most one PATCH per record. When it completes, it has sent one per record, and that many replies were read. |
| Sync.PropagationOrder | src/main.rs:256-270 | PATCH `i` carries the new IP to record `i`'s URL, and every PATCH except the last one sent succeeded. Propagation completes exactly when the first `n` replies all succeed, for `n` records. On a failure it stops at the first failed PATCH and carries that error. |
| Sync.UpdateDnsRecords | src/main.rs:248-273 | The PATCH loop sends exactly the requests `Propagate` specifies, and stops as it does. |
| Sync.UpdateEachRecord | src/main.rs:131-133 | Calling `update_dns_records` once per record sends the same requests, and stops at the same point, as propagating to the whole list. |
| Sync.Iteration | src/main.rs:121-136 | A pass that goes on consumes at least one probe, and leaves the unread tail of each stream. |
| Sync.ChangeDetection | src/main.rs:123-128 | A failed probe is never a change. Without a change the pass reads one probe and keeps the IP and the PATCH stream. A pass sends a PATCH exactly when its probe is non-empty and differs from the known IP, and some record is picked. |
| Sync.PropagationRequests | src/main.rs:131-132 | On a change, the pass sends the PATCHes of propagating the probed IP. Each one targets the record's URL and carries the probed IP. |
| Sync.PostPropagationState | src/main.rs:129-135 | After a complete propagation, a failed second probe ends the run with its error. Otherwise the known IP becomes the second probe's answer, not the IP just written. |
| Sync.ReprobeMayDrift | src/main.rs:129-135 | In one concrete pass the record is written "1.2.3.4", and the known IP afterwards is the reprobed "5.6.7.8". |
| Sync.RunPatchesSelected | src/main.rs:121-136 | Every PATCH of a run carries a non-empty IP to the URL of a picked record. |
| Sync.SteadyIpSendsNothing | src/main.rs:121-128 | While no probe reports a change, a run sends nothing, keeps the known IP, and waits for the next probe. |
| Sync.Run | src/main.rs:121-140 | Reference definition of the loop over finite streams: pass after pass until a stream runs out or a request fails fatally. `SyncLoop` is proved equal to it. `RunPatchesSelected`, `SteadyIpSendsNothing` and the pass lemmas state its properties. |
| Sync.QuietPass | src/main.rs:128 | A pass without a change leaves the run to the next probe. |
| Sync.ChangedPassEnds | src/main.rs:129-135 | A pass whose propagation stops, or whose second probe is missing or failed, ends the run. It has sent that propagation's requests, under the new IP. |
| Sync.ChangedPassGoesOn | src/main.rs:129-135 | After a complete propagation and an answered second probe, the run goes on from that answer, with the unread streams. |
| Sync.SyncLoop | src/main.rs:119-140 | The loop, starting from known IP `""`, sends exactly the PATCHes of `Run`, ends with its known IP, and ends with its halt. |
| Sync.PropagatesOnChangesOnly | src/main.rs:121-136 | Probes `""`, x, x, y with one record: the second and fourth passes propagate, and the others send nothing. |
| Sync.FirstPatchFailureEndsRun | src/main.rs:132 | With three records and a failing first PATCH, only the first record is requested, and the run ends with that error instead of probing again. |
| Setup.PickedFromReplies | src/main.rs:113-117 | Records picked from the inventory are A records delivered by one of the zones' replies. |
| Setup.Prepare | src/main.rs:53-86 | A failed zone listing ends the run with no request. A zone line with a bad token ends it with that parse error, before any record listing. For at most `i64::MAX` zones, the zone line is rejected exactly when `Picks` fails, and otherwise the zones picked are `Picked(zoneLine, zones)`. Past the zone prompt, the outcome is that of `PickRecords` on the zones picked. Record listings are requested for picked zones only, in pick order. |
| Setup.PickRecords | src/main.rs:86-117 | The record stage ends with `RecordsStopped` exactly when a picked zone's listing failed or is unanswered, with the same error and GETs as `FetchDomains`. Otherwise a record line with a bad token ends the run with that parse error. For an inventory of at most `i64::MAX` records, the record stage succeeds exactly when `Picks` holds for the inventory `Harvest` builds, and yields `Picked` of that inventory. Every picked record is an A record that a picked zone's listing delivered. |

## Left out

- HTTP transport (`reqwest`) and the tokio runtime are not modelled. Each request's outcome is an input reply, already JSON-decoded.
- The JSON decoding of zones and records, and its `unwrap` panics on missing or mistyped fields (src/main.rs:167-172, 204-218), are left out. Decoded zones and records are inputs.
- `fetch_zones` (src/main.rs:145-178) is not modelled beyond its result. `Setup.Prepare` takes that result as an input `Result`.
- The endless `loop`, `std::thread::sleep` and the one-second pause are modelled by finite reply streams. A run ends when a stream is exhausted, and is then a prefix of the program's run.
- Progress bars, spinners, console messages and `cli_table` output are left out. They do not affect what is requested or kept.
- Command-line arguments, the API key, the `Authorization` header and the exit on a missing key (src/main.rs:35-40) are left out. The stdin reads (src/main.rs:77, 111) are modelled by the lines they return, newline included.
- `check_if_internet_connected` (src/main.rs:276-284) is never called and is left out.
- Selection.ParseI64: the error kind (empty, invalid digit, overflow) is not distinguished. Every failure is one `BadNumber`.
- Selection.AsUsize: only a 64-bit target is modelled.
- Selection.Select: the exact characterisation by token values is stated only for inventories of at most `i64::MAX` entries. A Rust `Vec` cannot be longer on a 64-bit target.
- Setup.Prepare: the same `i64::MAX` bound as `Selection.Select` applies to the zone list, for the `Picks`/`Picked` characterisation of the zones picked.
- Setup.PickRecords: the same `i64::MAX` bound as `Selection.Select` applies to the inventory, for the `Picks`/`Picked` characterisation of the records picked.
