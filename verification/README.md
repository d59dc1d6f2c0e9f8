# dddns: a Dafny model and its proofs

dddns keeps one Route53 A record at the router's public address. This project models the parts of
it that keep state or rewrite text, and proves what they promise over every input and every run.
Check it with `dafny verify dfyconfig.toml`.

| file | models |
|---|---|
| `Lockout.dfy` | the password check with its sliding-window lockout, a reference policy on the bare call history, the guessing bound |
| `Updater.dfy`, `UpdateRuns.dfy`, `UpdateInterleaving.dfy` | the update flow and its cache file: one run, runs one after another, runs whose external calls interleave |
| `SigV4.dfy` | percent-encoding, the canonical query string, the canonical request, signing |
| `Audit.dfy`, `AuditInterleaving.dfy`, `Status.dfy` | the rotating audit log with one writer, and with several processes; the atomically replaced status file with its readers |
| `WanIP.dfy` | which address counts as the WAN address |
| `Serve.dfy`, `ServeRuns.dfy` | the listener that composes lockout, WAN lookup and update flow: one request, and requests one after another |
| `ServeInterleaving.dfy` | the listener with requests in flight at the same time, on every schedule |
| `Lambda.dfy`, `LambdaFleet.dfy` | the cached secret and the handler of the Lambda deployment: one execution environment, and several side by side |
| `SecureConfig.dfy` | saving, loading and migrating the encrypted configuration |
| `Text.dfy` | the Go string functions they share |

Conventions. A Go object whose methods update fields is a class; each method is proved against a
function on values (`Check` against `CheckStep`, `Update` against `RunUpdate`, `ServeHTTP` against
`ServeStep`, and so on), and the lemmas are about those functions over whole runs. Calls that leave
the process (clock, DNS client, file system, SSM, WAN hook) are inputs that fix how the call turns
out, failures and panics included. Time is in nanoseconds since Go's zero time.

Findings worth knowing, each stated by a member below:

- Over a time T at most 4 * floor(T / 60 s) + 5 wrong passwords are compared, and four more for every
  success in between; that is exact for every T and every number of successes
  (`Lockout.GuessBoundIsExact`). The audit log does not show it: an update logs its "ok" when it ends,
  so a log may hold nine "bad" entries, no "ok", and no time between them. A log without "ok" is sure
  to keep to 4 * floor(T / 60 s) + 5 if and only if no successful check falls among its checks
  (`ServeInterleaving.PlainLogIff`, `ServeInterleaving.LogBoundIsExact`).
- A dry run does write the cache when the record already matches (`UpdateRuns.DryRunTouches`).
- Two overlapping successful runs can leave cache and record different, for any two addresses
  (`UpdateInterleaving.OverlapBreaksCoherence`); run one after another, a run keeps them in step
  under the exact condition of `UpdateRuns.RunCoherentIff`, and overlapping runs do as long as nothing
  moves the record between a run's record step and its cache write
  (`UpdateInterleaving.UndisturbedStaysCoherent`).
- A cache file that cannot be read counts as an empty one (`internal/updater/updater.go:240-243`), so
  each such run may cost an UPSERT; the bound on UPSERTs counts them (`UpdateRuns.CallBound`) and is
  reached (`UpdateRuns.CallBoundIsExact`).
- What sort.Slice promises determines the canonical query string exactly when no key occurs with two
  values (`SigV4.QueryDeterminedIff`): the code compares keys only.
- The comment on `canonicalQueryString` says that it matches the SigV4 spec. The code encodes the raw
  query without decoding it, so `%` becomes `%25` and `+`, which url.Values.Encode writes for a space,
  becomes `%2B`; and it leaves equal names in any order, where the spec sorts them by value. A
  well-formed query is sure to be signed as the spec asks if and only if it has no `%`, no `+` and no
  name with two different values (`SigV4.QueryMeetsSpecIff`); with a `%` or a `+` no result is right
  (`SigV4.QueryCanMeetSpecIff`). The host names `*.example.com` and `a b.example.com` make GetCurrentIP
  send such queries (`SigV4.WildcardExample`, `SigV4.SpaceExample`), and `a=2&a=1` may be left as it is
  (`SigV4.RepeatedNameExample`).
- The audit log keeps at least min(total, maxSize) bytes of what was logged with one writer
  (`Audit.AuditConservation`). `cmd/config_rotate_secret.go:92` writes the same log from another
  process: two writers that both see a full file can lose it (`AuditInterleaving.TwoWritersLoseAFile`)
  or leave lines out of order (`AuditInterleaving.TwoWritersMixLines`). Conservation holds as long as no
  rename falls between another write's stat of a full file and its rename, or between its open and its
  append (`AuditInterleaving.UndisturbedConserves`).
- The comment in `deploy/aws-lambda/handler.go:31-37` says the old secret also works during a rotation.
  One execution environment holds one secret at a time (`Lambda.OneSecretAtATime`) and never goes back
  to the old one (`Lambda.RotationCompletes`), so with one environment the comment is untrue; with two,
  the default of `reserved_concurrency`, both secrets can work side by side for nearly the ttl
  (`LambdaFleet.BothSecretsWork`). The old one is over once no environment holds it in an unexpired
  entry (`LambdaFleet.OldIsOverIff`), at the latest ttl + d after the change (`LambdaFleet.FleetRotates`).
- The comment on `isPublicIPv4` says "globally-routable". The code accepts exactly the complement of
  nine intervals (`WanIP.PublicIffNotRefused`). An accepted address is global, by the tables of RFC 6890,
  exactly when it lies outside seven gaps: 0/8 but 0.0.0.0, 192.0.0/24, 192.0.2/24, 198.18/15,
  198.51.100/24, 203.0.113/24, and 240/4 but the broadcast address (`WanIP.AcceptedIsGlobalIff`,
  `WanIP.AcceptedButNotRoutable`); the model follows the code.
- Credentials survive the vault exactly when the access key has no colon
  (`SecureConfig.CredentialsRoundTrip`).

## Model

| member | source | states |
|---|---|---|
| Lockout.Authenticator.Check | internal/server/auth.go:59-85 | the answer and the new failure list and lockout time for any state, with the slice filtered in place |
| Lockout.SixCalls | internal/server/auth.go:14-18 | after five wrong passwords the sixth call, right or wrong, is locked out exactly until 300 s after the fifth if they came within less than 60 s, and is not locked out otherwise |
| Lockout.Authenticator.PruneInPlace | internal/server/auth.go:75-82 | filtering the slice into its own backing array loses no later entry and keeps order |
| Lockout.RunFollowsPolicy | internal/server/auth.go:9-18 | every answer of every run, every lockout start, and the recorded failures are what the history of calls prescribes: fifth uncleared failure strictly within 60 s, locked for exactly 300 s, not extended; at most 4 entries, sorted |
| Lockout.GuessBound | internal/server/auth.go:59-88 | any stretch of any run compares at most 4 * floor(T / 60 s) + 5 wrong passwords, and four more for every success in it; none more without one |
| Lockout.GuessBoundIsExact | internal/server/auth.go:59-88 | for every T and every number of successes a run reaches that |
| Lockout.PlainBoundIff | internal/server/auth.go:66-70 | the bound without the successes is sure to hold exactly when there are none |
| Updater.ReadBack | internal/updater/updater.go:238-273 | what readCachedIP sees of what writeCachedIP wrote; it is the same text exactly for one trimmed line |
| Updater.CacheTextLines | internal/updater/updater.go:262-273 | the lines of the file a run writes |
| Updater.CacheFileMeans | internal/updater/updater.go:238-260 | what any cache file means: the trimmed rest of its first "last_known_ip:" line, else all of it if that is an address |
| Text.TrimSpaceTo | internal/updater/updater.go:249-254 | trimming takes off exactly the space around the rest |
| Text.AsciiSpace | internal/updater/updater.go:249-254 | which ASCII characters are space |
| Text.FoldIff | internal/server/handler.go:114-116 | which characters fold alike: the two cases of a letter |
| Updater.Host.Update | internal/updater/updater.go:128-236 | the run step by step, branch for branch, on a mutable record and cache file, for every outcome of every call, failing reads and writes of the cache included |
| UpdateRuns.AddressUsedIff | internal/updater/updater.go:52-91 | which address a run uses: the override, else that of the WAN interface or the remote service as configuration and profile select, else an error for any other source text |
| UpdateRuns.OtherSourceIsIdle | internal/updater/updater.go:52-91 | runs that differ only in the source that is not asked are the same run |
| UpdateRuns.OutcomeIff | internal/updater/updater.go:128-236 | each outcome of a run exactly when: the four actions, an error, a panic |
| UpdateRuns.ActionsTellEffects | internal/updater/updater.go:160-235 | what each reported action says about record and cache before and after, and which old address it reports, failures included |
| UpdateRuns.RunKeepsCoherent | internal/updater/updater.go:128-236 | one run keeps the cache empty or equal to the record unless a cache write failed or an UPSERT errored after taking effect; a success that is no dry run ends with the record at the resolved address, forced or not |
| UpdateRuns.RunCoherentIff | internal/updater/updater.go:128-236 | the exact condition, on what is known before the run, under which it leaves cache and record in step: for every address text, failed or torn cache write, and UPSERT outcome |
| UpdateRuns.RefreshesIff | internal/updater/updater.go:190-228 | exactly when a run rewrites the cache |
| UpdateRuns.CallIff | internal/updater/updater.go:155-221 | UpdateIP is called exactly when neither what the run saw of the cache, nor the record, nor a dry run, nor a failed call stops it, forced runs skipping the first two |
| UpdateRuns.RunsKeepCoherent | internal/updater/updater.go:128-236 | the same over every sequence of runs, forced ones and dry runs included |
| UpdateRuns.NextRunIsFree | internal/updater/updater.go:160-168 | after such a success the next unforced run for the address that can read the cache touches nothing, whatever happened to the record |
| UpdateRuns.DryRunTouches | internal/updater/updater.go:190-215 | the world after any dry run: the record never moves, and the one case in which the cache is written |
| UpdateRuns.CallBound | internal/updater/updater.go:160-228 | UpdateIP calls over every sequence of runs and outside edits: at most 1 + address changes + failed calls + failed cache reads and writes + forced runs + resolved texts that are not one trimmed line |
| UpdateRuns.CallBoundIsExact | internal/updater/updater.go:160-228 | from every world, and for all numbers of the other causes, a sequence of runs without such texts reaches that |
| UpdateInterleaving.SoloRunIsUpdate | internal/updater/updater.go:128-236 | the interleaving model's steps, uninterrupted, are the update flow |
| UpdateInterleaving.CacheWasRecord | internal/updater/updater.go:155-235 | under any interleaving, failure and outside edit, a non-empty cached value was the record's value at that moment or before |
| UpdateInterleaving.UndisturbedStaysCoherent | internal/updater/updater.go:176-228 | if nothing moves the record between a run's record step and its cache write, then whenever no run is between the two the cache is empty or equal to the record |
| UpdateInterleaving.OverlapBreaksCoherence | internal/updater/updater.go:128-236 | two overlapping successful runs that leave cache and record different, for any two addresses |
| SigV4.AwsURIEncode | internal/dns/sigv4.go:177-193 | the encoding loop, in both slash modes |
| SigV4.DecodeEncode | internal/dns/sigv4.go:171-193 | percent-decoding (section 2.1 of RFC 3986) inverts the encoding |
| SigV4.EncodeImage | internal/dns/sigv4.go:171-193 | the results are exactly the strings of literal bytes and upper-case escapes of the other bytes |
| SigV4.EncodeAlphabet | internal/dns/sigv4.go:171-193 | the bytes a result can contain (section 2.3 of RFC 3986) |
| SigV4.EncodeIdentityIff | internal/dns/sigv4.go:171-193 | nothing changes exactly when every byte is in the literal set of the slash mode |
| SigV4.UnreservedIff | internal/dns/sigv4.go:171-186 | the bytes that are left as they are, in numbers (section 2.3 of RFC 3986) |
| SigV4.SegmentReads | internal/dns/sigv4.go:144-157 | how a part between two "&" is read: cut at its first "=", without one a missing value, and an empty part skipped |
| SigV4.LessIff | internal/dns/sigv4.go:158 | the order of keys: the smaller byte at the first difference, or the end of the text |
| SigV4.CanonicalQueryString | internal/dns/sigv4.go:138-169 | the result is the rendering of some key-sorted arrangement of the encoded pairs |
| SigV4.QueryReadsBack | internal/dns/sigv4.go:136-169 | splitting any result on "&" and the first "=" gives a key-sorted permutation of the encoded pairs, and that list renders to the result |
| SigV4.QueryOrderFree | internal/dns/sigv4.go:136-169 | with keys that decide their values the result does not depend on the order of the segments |
| SigV4.QueryDeterminedIff | internal/dns/sigv4.go:158 | exactly when what sort.Slice promises leaves one possible result |
| SigV4.EncodedTwiceIff | internal/dns/sigv4.go:148-154 | encoding a well-formed part of a query without decoding it first, "+" as a space, gives the right text exactly when it has neither "%" nor "+" |
| SigV4.QueryCanMeetSpecIff | internal/dns/sigv4.go:136-169 | some result for a well-formed query is the one signature version 4 asks for exactly when it has neither "%" nor "+" |
| SigV4.QueryMeetsSpecIff | internal/dns/sigv4.go:136-169 | every result for a well-formed query is the one signature version 4 asks for exactly when it has no "%", no "+", and no name with two different values |
| SigV4.SpecQueryUnique | internal/dns/sigv4.go:136-137 | signature version 4, sorting by name and then by value, asks for exactly one string |
| SigV4.WildcardIsSignedWrong | internal/dns/route53.go:94-104 | for every wildcard host name the query sent is one for which no result is right, and the pair signed in place of the right one |
| SigV4.WildcardExample | internal/dns/route53.go:94-104 | the same at "*.example.com" |
| SigV4.SpaceIsSignedWrong | internal/dns/route53.go:94-104 | the same for every host name of literal bytes around one space, which the query writes as "+" |
| SigV4.SpaceExample | internal/dns/route53.go:94-104 | the same at "a b.example.com" |
| SigV4.RepeatedNameMayBeWrong | internal/dns/sigv4.go:158-165 | for every name given twice, larger value first, the query itself is a possible result, and the right one is the other order |
| SigV4.PathDecodes | internal/dns/sigv4.go:129-134 | two canonical paths are equal exactly when the paths are, the empty path meaning "/" |
| SigV4.RequestDecodes | internal/dns/sigv4.go:54-73 | two canonical requests are equal exactly when all signed fields agree, token presence and sorted query pairs included |
| SigV4.RequestReads | internal/dns/sigv4.go:54-73 | the lines of the canonical request, in order |
| SigV4.SignedHeadersTell | internal/dns/sigv4.go:54-61 | the list of signed headers names, in strictly ascending order, exactly the lines of the header block, each with the value that goes out |
| SigV4.ScopeReads | internal/dns/sigv4.go:39 | the credential scope, split on "/", is date, region, service, "aws4_request" |
| SigV4.KeyFollowsScope | internal/dns/sigv4.go:90-96 | the signing key is the chain of HMACs over the parts of the scope that is sent, from "AWS4" and the secret |
| SigV4.StringToSignReads | internal/dns/sigv4.go:75-80 | the string to sign, split on newlines, is algorithm, timestamp, scope, hash of the canonical request |
| SigV4.ReceiverAccepts | internal/dns/sigv4.go:36-88 | a receiver that parses the header, rebuilds the request from the names in it, derives the key from the scope in it and compares signatures accepts every signed request |
| SigV4.HttpRequest.SignRequest | internal/dns/sigv4.go:36-88 | the headers set, that host, date and token signed are those that go out, and that such a receiver accepts the result |
| Audit.AuditLog.Write | internal/server/audit.go:57-84 | rotation, open and append for every combination of failing calls |
| Audit.AuditConservation | internal/server/audit.go:54-84 | with one writer, old file then live file is a whole-line suffix of all ever logged and keeps at least min(total, maxSize) bytes, even when renames fail |
| Audit.LiveStaysBounded | internal/server/audit.go:63-67 | with working stat and rename the live file stays below maxSize plus one line |
| Audit.RetainedReads | internal/server/audit.go:54-84 | with one writer, whatever calls failed, splitting old file and live file into lines gives exactly the JSON texts of the last so many entries logged, in order, each stamped with the time of its own write |
| AuditInterleaving.SoloWriteIsWrite | internal/server/audit.go:57-84 | the calls of a write, uninterrupted, leave the files as Audit's write does |
| AuditInterleaving.RetainedWasLogged | internal/server/audit.go:54-84 | whatever the interleaving of several writers and whatever calls fail, both files hold whole logged lines, none more often than logged, each file in the order logged |
| AuditInterleaving.UndisturbedConserves | cmd/config_rotate_secret.go:90-94 | with several writers, conservation as with one, as long as no rename falls between another write's stat of a full file and its rename, or between its open and its append |
| AuditInterleaving.ExclusiveConserves | internal/server/audit.go:58-59 | so in particular when the writes exclude one another |
| AuditInterleaving.RenameConservesIff | internal/server/audit.go:63-67 | a rename conserves the log exactly when the live file is full at that moment, or holds all there is to keep |
| AuditInterleaving.TwoWritersLoseAFile | cmd/config_rotate_secret.go:90-94 | for every full file and two short lines, two writers that lose the full file |
| AuditInterleaving.TwoWritersMixLines | cmd/config_rotate_secret.go:90-94 | two writers whose kept lines are no suffix of what was logged |
| Status.StatusWriter.Write | internal/server/status.go:54-83 | temp file, fill, close, rename, and removal on each failure, for every outcome |
| Status.WriteIsAllOrNothing | internal/server/status.go:52-83 | a write succeeds exactly when every call does its part; a success shows the whole text and leaves no other name; a failure leaves the target, and no temp file if removal works |
| Status.WriteIsTrace | internal/server/status.go:54-83 | the calls of one write are steps of the interleaving model |
| Status.StatusAtomic | internal/server/status.go:22-28 | under any interleaving of writers and piecewise readers, and any failure or stop, a reader ends with nothing or one complete text, and the target is absent or complete |
| Status.OnlyRenameShows | internal/server/status.go:78-82 | only a successful rename changes what the target shows |
| Status.WrittenReads | internal/server/status.go:40-83 | a reader that parses what a successful write left gets the snapshot written |
| Status.StatusWriter.ReadStatus | internal/server/status.go:40-50 | a reader parses exactly what the target shows |
| WanIP.PublicIffNotRefused | internal/wanip/wanip.go:154-168 | the byte tests accept exactly the IPv4 addresses outside nine 32-bit intervals |
| WanIP.To4Iff | internal/wanip/wanip.go:155 | which byte strings are IPv4 addresses: four bytes, or the same four mapped into sixteen |
| WanIP.PublicAddrIff | internal/wanip/wanip.go:139-149 | of both kinds of interface address it is the address that counts, and no other kind is public |
| WanIP.AcceptedIsGlobalIff | internal/wanip/wanip.go:151-168 | an accepted address is global by RFC 6890 exactly when it lies outside seven gaps; accepted are exactly those gaps and every global address that is not multicast |
| WanIP.AcceptedButNotRoutable | internal/wanip/wanip.go:151-168 | one address of each gap that is accepted and not global |
| WanIP.DetectDefaultRouteInterface | internal/wanip/wanip.go:116-137 | the interface of the first default route after the header |
| WanIP.RouteFound | internal/wanip/wanip.go:123-136 | in terms of words with any space around them: the first line below the first whose second word is eight zeros and that has a third word gives the interface, and without one there is none |
| WanIP.RouteLineIff | internal/wanip/wanip.go:128-133 | which lines, in terms of words, are default routes |
| WanIP.ConsultedIff | internal/wanip/wanip.go:65-112 | whose addresses count: those of the named interface alone; with no name, of the default-route interface alone; without one, of all that are up and not loopback, and no others |
| WanIP.ListInterfaceNames | internal/wanip/wanip.go:30-46 | the interfaces that are up and not loopback, in order |
| WanIP.FirstPublicInterfaceIP | internal/wanip/wanip.go:95-112 | the first public address over all usable interfaces, skipping those that err, or an error exactly when there is none |
| WanIP.FromInterface | internal/wanip/wanip.go:65-89 | the first public address among those consulted, an error exactly when there is none, and never a refused one |
| WanIP.DottedReads | internal/server/handler.go:137 | the text of an address, split on dots and read by place value, gives the address back |
| WanIP.DottedInjective | internal/server/handler.go:137 | no two addresses have the same text |
| Serve.ReadWan | internal/server/handler.go:123-137 | what the WAN hook can hand to the handler |
| Serve.Handler.ServeHTTP | internal/server/handler.go:52-165 | the reply, audit entry, snapshot, lockout state, record and cache for every request and every outcome of the hooks, panics included |
| ServeRuns.StepGate | internal/server/handler.go:64-145 | UpdateIP is called exactly when the request passes every layer and the update flow calls it, with a text that reads back as the WAN address just read; requests refused before the password check leave the lockout state alone |
| ServeRuns.RecordsTell | internal/server/handler.go:58-201 | the audit entry says at which layer a request was stopped, each action exactly when, and the status snapshot agrees with it field by field |
| ServeRuns.AuthOutcomeIff | internal/server/handler.go:73-100 | what the entry says of the password, each outcome exactly when |
| ServeRuns.ErrorTells | internal/server/handler.go:45-164 | which action and error the entry carries: that of the WAN lookup or of the update flow, else none |
| ServeRuns.ClientReads | internal/server/handler.go:80-180 | what a client learns from the text of a reply: exactly when each layer stopped it or failed, exactly when the update went through or nothing was needed, and the address; missing, wrong and locked-out read the same |
| ServeRuns.RunIsTruthful | internal/server/handler.go:139-164 | requests one after another: after "good x" or "nochg x" the record is x and x is the WAN address read; "good", and "updated" in the entry, exactly when the UPSERT succeeded |
| ServeInterleaving.SoloRequestIsServe | internal/server/handler.go:52-165 | the steps of a request, uninterrupted, are the handler: same reply, entry and state |
| ServeInterleaving.AuthFollowsChecks | internal/server/handler.go:64-101 | on every schedule the lockout state is the authenticator's, run on the checks in mutex order, and only requests past the layers before it make one |
| ServeInterleaving.RunGate | internal/server/handler.go:64-145 | on every schedule, a request about to call UpdateIP had an allowed peer, GET, the right password outside every lockout of the policy, and the host name, and writes a text that reads back as the WAN address it read |
| ServeInterleaving.OnlyUpsertsMove | internal/server/handler.go:139-145 | no other step of the listener moves the record |
| ServeInterleaving.LoggedGuessBound | internal/server/handler.go:88-101 | on every schedule, the "bad" entries of any stretch of the log are at most 4 * floor(T / 60 s) + 5, and four more for every successful check among their checks; none more without one |
| ServeInterleaving.LogBoundIsExact | internal/server/handler.go:139-164 | for every T and every number of successes a schedule with no "ok" in its log reaches that |
| ServeInterleaving.PlainLogIff | internal/server/handler.go:88-164 | a log without "ok" is sure to keep to the bound without successes exactly when no successful check falls among its checks |
| ServeInterleaving.MyIPIsIgnored | internal/server/handler.go:103-164 | on every schedule, requests that differ only in `myip` lead to the same replies, record, cache, lockout state and snapshots, and entries that differ only in the claim |
| ServeInterleaving.OnlyComparisonsShow | internal/server/auth.go:63-73 | on every schedule, listeners and passwords that compare alike outside lockouts lead to the same run, replies included: a lockout hides even a right password |
| ServeInterleaving.SecretDoesNotShow | internal/server/auth.go:63-73 | on every schedule, listeners with different secrets cannot be told apart by requests that present neither |
| ServeInterleaving.RepliesWereTrue | internal/server/handler.go:123-164 | on every schedule, with outside edits of the record, "good x" and "nochg x" name the WAN address read and the record has been x; before "good x" the request itself called UpdateIP for x with success, and the record was x right after |
| Lambda.SecretCache.Get | deploy/aws-lambda/handler.go:46-62 | the TTL cache, failing closed when SSM does |
| Lambda.SecretsAreFresh | deploy/aws-lambda/handler.go:31-62 | a secret that one cache returned at time t was the parameter's value later than t - ttl - d |
| Lambda.FetchBound | deploy/aws-lambda/handler.go:31-35 | successful fetches of one environment's cache are at least ttl apart, at most floor(T / ttl) + 1 in a span T |
| Lambda.BasicAuthRoundTrip | deploy/aws-lambda/handler.go:158-181 | wherever the header stands and whatever the case of its name, user and password come back exactly when the user name has no colon; without such a header there are none |
| Lambda.HeaderOrderFree | deploy/aws-lambda/handler.go:161-168 | with one such header at most, the order of the map iteration does not matter |
| Lambda.DryRunIff | deploy/aws-lambda/handler.go:138-147 | which values ask for a dry run: four words in any case, with any space around |
| Lambda.RefusalsIff | deploy/aws-lambda/handler.go:76-121 | each reply of a request that does not get to UpdateIP, exactly when |
| Lambda.LambdaHandler.Handle | deploy/aws-lambda/handler.go:69-136 | reply and effects for every request and every outcome of SSM and Route53 |
| Lambda.StepGate | deploy/aws-lambda/handler.go:76-135 | exactly when UpdateIP is called, with which address, and what body and record are after it |
| Lambda.UpsertsAreAuthorised | deploy/aws-lambda/handler.go:94-130 | every UPSERT of a run in one environment was authorised by a value of the parameter later than t - ttl - d |
| Lambda.RotationCompletes | deploy/aws-lambda/handler.go:31-62 | after a change of the parameter at R one environment accepts no request with the old value from R + ttl + d - 1 on, nor after it accepted one with another value |
| Lambda.OneSecretAtATime | deploy/aws-lambda/handler.go:46-101 | which single password a request to one environment can succeed with |
| LambdaFleet.EnvironmentAlone | deploy/aws-lambda/main.go:136-142 | whatever the routing, each environment's cache is what its own requests make of it |
| LambdaFleet.FleetUpsertsAreAuthorised | deploy/aws-lambda/handler.go:94-130 | every UPSERT of a fleet was authorised by a value of the parameter later than t - ttl - d |
| LambdaFleet.FleetFetchBound | deploy/aws-lambda/handler.go:31-35 | n environments make at most n * (floor(T / ttl) + 1) successful fetches in a span T |
| LambdaFleet.FleetRotates | deploy/aws-lambda/handler.go:31-37 | no environment of a fleet accepts the old secret from R + ttl + d - 1 on, nor after it accepted another one itself |
| LambdaFleet.BothSecretsWork | deploy/aws-lambda/tofu/variables.tf:48-51 | with two environments both secrets are accepted side by side, up to the last moment before that |
| LambdaFleet.SideBySideIsServed | deploy/aws-lambda/tofu/variables.tf:48-51 | that run is one with honest fetches and clocks in order, of a parameter that changes once |
| LambdaFleet.OldIsOverIff | deploy/aws-lambda/handler.go:31-37 | from a moment after the change on the old secret is never accepted again, anywhere, exactly when no environment holds it in an unexpired entry |
| LambdaFleet.OverWhenAllMovedOn | deploy/aws-lambda/handler.go:31-37 | that is so once every environment has accepted another secret |
| LambdaFleet.OverInTime | deploy/aws-lambda/handler.go:31-37 | and at R + ttl + d - 1 at the latest |
| SecureConfig.StringRoundTrip | internal/crypto/device_crypto.go:189-240 | opening the framed, encoded vault gives the plaintext back |
| SecureConfig.VaultShape | internal/crypto/device_crypto.go:186-208 | a decoded vault is the nonce and then the sealed text |
| SecureConfig.CredentialsRoundTrip | internal/crypto/device_crypto.go:242-259 | the credentials come back exactly when the access key has no colon |
| SecureConfig.SecureRoundTrip | internal/config/secure_config.go:44-167 | a saved configuration loads, losing exactly the update interval and timeout |
| SecureConfig.SecuredShows | internal/config/secure_config.go:44-75 | every open field is stored under its own name, and the vaults open to the credentials and the shared secret |
| SecureConfig.LoadsOnlyPrivate | internal/config/secure_config.go:109-119 | a file loads only with mode 0400 or 0600 |
| SecureConfig.SecondTripIsIdentity | internal/config/secure_config.go:44-167 | a second trip changes nothing |
| SecureConfig.Disk.SaveSecure | internal/config/secure_config.go:77-105 | the file operations of a save: exactly when it succeeds, only the target path ever changes, and success leaves the complete file read-only |
| SecureConfig.Disk.MigrateToSecure | internal/config/secure_config.go:170-204 | at every crash point the plaintext is intact or the complete secure file loads; success, exactly when every call does its part, has overwritten the plaintext with zeros and removed it |

## Left out

- HMAC, SHA-256, AES-GCM, base64, YAML and JSON: parameters with the laws each proof needs; the Route53, SSM and checkip clients are outcomes.
- Constant-time comparison: equality; timing is not modelled.
- Formatting of times: the timestamp and the date that SignRequest uses, and the stamp in the cache file, are texts given from outside.
- Network matching of peers: `IsAllowed` is a parameter of the listener's configuration.
- Unicode case folding: host names compare by ASCII letters; string lower-casing likewise.
- bufio.Scanner's line-length limit: the route table is given as lines.
- Panics inside `emit` or the response writer: only the WAN hook, the DNS client and a missing server block panic.
- Disk effects of `emit` within the listener: kept as the sequences handed to the audit log and the status writer, whose own behaviour is in Audit and Status.
- UpdateRuns.RunsKeepCoherent: assumes every resolved address is one non-empty trimmed line, as `internal/commands/myip/myip.go:48-74` and `net.IP.String` guarantee; an empty one would match an empty cache and succeed without touching the record, and `UpdateRuns.RunCoherentIff` says what any other text does.
- ServeRuns.RunIsTruthful: requests one after another; with requests in flight at the same time the record may have moved on when a reply arrives, and `ServeInterleaving.RepliesWereTrue` is what holds.
- ServeInterleaving.RepliesWereTrue: assumes cache writes happen whole or not at all, and that nobody else writes the cache.
- ServeInterleaving.RunGate: assumes a clock that does not go back between checks, as do the bounds.
- UpdateInterleaving.CacheWasRecord: assumes cache writes happen whole or not at all, that only update runs write the cache, and that a resolved address is one trimmed line.
- Audit.AuditConservation: one writer, and appends that happen whole or not at all; with several writers it fails, and `AuditInterleaving.UndisturbedConserves` is what holds.
- Audit.RetainedReads: one writer, for the same reason.
- AuditInterleaving.UndisturbedConserves: appends happen whole or not at all.
- Lambda.RotationCompletes: one execution environment, as UpsertsAreAuthorised, FetchBound and OneSecretAtATime; `LambdaFleet` has them for several.
- LambdaFleet.FleetRotates: each environment serves one request after another, and its clock does not go back.
- SigV4.QueryMeetsSpecIff: says nothing of a query in which some "%" starts no escape.
- Lambda.FetchBound: assumes SSM never returns the empty string, as `deploy/aws-lambda/ssm.go:115-117` ensures, and a clock that does not go back.
- SecureConfig.Disk.MigrateToSecure: the plaintext path and the secure path differ, as `cmd/secure.go:56-61` arranges; what `config.Load` returned is an input, since it reads the active path rather than the path to be wiped.
- Commands, prompts, reports, profiles, the boot script and the installer scripts.
