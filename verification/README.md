# Verification of the OpenAgent Control gateway

A Dafny 4.11 model of the gateway's governance core and proofs about it. `dafny verify dfyconfig.toml` checks the project.

| modules | what they model |
|---|---|
| `CanonicalJson`, `JsonReader`, `Receipts` | canonical JSON and a reader that undoes it, receipts, their rows and the bytes that are signed |
| `Chain`, `TamperEvidence` | `verify_chain`, and exactly which tables it accepts |
| `PostgresLedger`, `MemoryLedger` | the row-locked append by many replicas; the in-process ledger |
| `Routing`, `RoutingRuns`, `RoutingBursts` | the multi-upstream router: its merge, its interleavings, its double-checked lock |
| `Domain`, `Policy`, `PolicyMeaning` | the shipped Rego policy with explicit undefined values, the OPA projection, and what a decision means |
| `Governed`, `GovernedRuns` | the governed-execution sequence, its logs, shadow mode |
| `GatewayLedger`, `GatewayRouter` | the gateway's calls interleaved with the ledger's transactions, and with the router's steps |
| `Coherence` | what an agent is shown, what it may call, and where the call goes |
| `TtlCache`, `TokenCache`, `RegistryCache` | the two Redis decorators over one cache protocol |
| `FileRegistry`, `RegistryAudit` | the mtime-cached file registry; the Postgres registry and its audit trail |

How to read it. Concurrent parts are transition systems: `Step` gives the next state of one atomic step, or none, and `Run` folds it over any sequence of events, so a lemma about `Run` is about every interleaving. Where the source updates an object in place, its methods are also written as methods of a class, proved against the functions the lemmas speak about. SHA-256 and Ed25519 are arbitrary functions: nothing is assumed about collisions or forgeries, and a conclusion that rests on them exhibits the broken primitive as its alternative. Time is a real-valued clock; delays, answers of ports and the network are parameters or events.

## What the proofs found

- `verify_chain` does not protect the spelling of a row: the signature's hex in other letter case or with spaces, or a timestamp without its zone (`TamperEvidence.EveryRowHasOtherSpellings`); those spellings are all there are (`TamperEvidence.ReadAlikeIff`). In a table of history it misses no other edit of one row, save replacing the last row by another receipt signed at its place (`TamperEvidence.EditUnnoticedIff`).
- A receipt signed by a transaction that then aborted is accepted as the row after the history it chained to. With fresh sequence ids, and broken primitives aside, only prefixes of the history are accepted exactly when no abort ever hit a transaction that had signed and none that has signed is still open (`PostgresLedger.OnlyPrefixesTraceIff`).
- A naive timestamp is read as UTC; the comment at postgres_query.py:30 gives the printed suffix as `+00:00`, pydantic 2 prints `Z`. The model follows pydantic; the proofs need only that the print is injective.
- The policy header says guardrails only ever narrow. Added guardrails do. Adding a role to a non-empty `required_roles` widens what the policy allows (`PolicyMeaning.AddedRoleWidens`); `PolicyMeaning.NarrowsIff` and `PolicyMeaning.StricterIff` say exactly which edits of a grant narrow.
- Two differing grants under one name make `grant_for` conflict: the query fails and the gateway denies, in observe mode too, unless a guardrail body denies first (`PolicyMeaning.ConflictIsNeverAllowed`, `Coherence.ConflictFailsClosed`). Making such grants equal can therefore allow more, however strict they become.
- "One fan-out, not one per caller" (routing.py:54-55) holds exactly when the refresh advertises the tool or no other caller gets the lock (`RoutingBursts.OneFanOutIff`). The tool of an unreachable upstream is reported as advertised by nobody (`RoutingRuns.UnreachableIsReportedAsUnknown`), against the module documentation's promise at routing.py:23-25 to say which upstream is unreachable.
- "Never caches past a token's real expiry" (token_exchange/caching.py:8) is said of JWTs and opaque tokens alike. It holds exactly when the safety margin is at least one second more than the delay of the Redis write, and the margin and the delay together are no more than the life an opaque token has left when it is answered (`TokenCache.NeverPastExpiryIff`). The default of 30 allows a delay of 29 for JWTs, and needs opaque tokens to last 30 seconds and the delay: one that dies sooner is served dead, and a larger margin makes it worse.
- The token cache keeps pairs apart, whatever colons subject tokens carry, exactly when no audience is some text, a colon and another audience (`TokenCache.TransparentIff`). The gateway exchanges for one configured audience (governed_execution.py:269, 274), so there it always does (`TokenCache.OneAudienceNeverNests`); a caller with audiences such as `c` and `b:c` would not be safe.
- The file registry answers from a current version exactly when no mtime is reused over, or across, different content (`FileRegistry.LinearizesIff`): writing A, B, A again, the last A under the first's mtime, is enough to fail.
- A creation row of the audit trail tells the owner and the risk tier only. An agent's status, display name, purpose and granted tools are fixed by the trail exactly when a later row tells them (`RegistryAudit.TrailFixesIff`); until then the trail does not tell with which tools, or in which status, an agent was created. Its timestamps are not in the trail either.

## Model

| member | source | states |
|---|---|---|
| CanonicalJson.SortKeysSorts | src/openagent_control/adapters/ledger/signing.py:25-26 | `sort_keys` leaves every dictionary strictly ordered by key and changes no value's meaning |
| CanonicalJson.EscapeCharSplit | src/openagent_control/adapters/ledger/signing.py:25-26 | escaped characters (section 7 of RFC 8259, ASCII only) form a prefix code: an escaped text splits at each character in one way |
| CanonicalJson.RenderSplit | src/openagent_control/adapters/ledger/signing.py:25-26 | a rendered value followed by anything a value can be followed by splits in one way, so the text determines the value |
| CanonicalJson.CanonicalBytesCommit | src/openagent_control/adapters/ledger/signing.py:25-26 | two values have the same canonical bytes exactly when they are equal up to key insertion order |
| JsonReader.CharReads | src/openagent_control/adapters/ledger/signing.py:25-26 | a reader of the string escapes of section 7 of RFC 8259 reads every escaped character back |
| JsonReader.ValueReads | src/openagent_control/adapters/ledger/signing.py:25-26 | a reader of JSON text reads every rendered value back, whatever may follow it |
| JsonReader.CanonicalTextReadsBack | src/openagent_control/adapters/ledger/signing.py:25-26 | so the canonical text reads back as the value, keys sorted, nothing left over, its meaning the same |
| JsonReader.CanonicalBytesSpell | src/openagent_control/adapters/ledger/signing.py:25-26 | and the bytes are that text, one octet a character |
| JsonReader.BeforeIff | src/openagent_control/adapters/ledger/signing.py:25-26 | keys are ordered by code point at their first difference, a proper prefix first |
| JsonReader.ItemSeparator | src/openagent_control/adapters/ledger/signing.py:25-26 | items are separated by a comma and a space, Python's default |
| JsonReader.MemberSeparators | src/openagent_control/adapters/ledger/signing.py:25-26 | members likewise, and a key from its value by a colon and a space |
| Receipts.IsoFormatInjective | src/openagent_control/adapters/ledger/postgres.py:63 | the printed timestamp determines every calendar field, the microseconds and the zone marker |
| Receipts.IsoReads | src/openagent_control/adapters/ledger/postgres.py:63 | the printed timestamp reads as `YYYY-MM-DDTHH:MM:SS` with the receipt's own numbers, six digits of microseconds unless zero, and `Z` in UTC |
| Receipts.DumpDenotes | src/openagent_control/adapters/ledger/postgres.py:63 | the signed dictionary holds, under each of its eight keys and no other, the receipt's own field |
| Receipts.UnsignedBytesCommit | src/openagent_control/adapters/ledger/postgres.py:63-64 | two receipts have the same signed bytes exactly when all eight signed fields agree |
| Receipts.RowRoundTrip | src/openagent_control/adapters/ledger/postgres_query.py:26-44 | a receipt written as a row and read back, its timestamp naive or UTC-aware, is the same receipt |
| Receipts.RowHolds | src/openagent_control/adapters/ledger/postgres.py:67-79 | each column of the row written is the receipt's field of that name |
| Receipts.HexRoundTrip | src/openagent_control/adapters/ledger/postgres_query.py:110 | `bytes.fromhex` undoes `hex()` |
| Receipts.HexSpells | src/openagent_control/adapters/ledger/postgres.py:65 | each octet is spelled as two lower-case digits, the high one first |
| Chain.VerifyChain | src/openagent_control/adapters/ledger/postgres_query.py:90-123 | the loop computes the recursive walk; a table whose rows can all be decoded is reported on and never raises; a valid report means every row is readable, the entries form a signed chain from genesis, and all were counted |
| Chain.AcceptedIff | src/openagent_control/adapters/ledger/postgres_query.py:90-123 | a table is accepted exactly when every row is readable, names the hash of the one before it (genesis first) and carries a verifying signature |
| Chain.AcceptedMeans | src/openagent_control/adapters/ledger/postgres_query.py:98-123 | spelled out: 64 zeros first, each receipt names the digest of the one before it followed by its signature, every signature verifies |
| Chain.ReportCounts | src/openagent_control/adapters/ledger/postgres_query.py:98-123 | from any starting hash: valid exactly when every row was counted, otherwise the row named is the one just after those counted |
| Chain.VerifyConcatenation | src/openagent_control/adapters/ledger/postgres_query.py:98-123 | verifying a concatenation is verifying the first part and resuming from its head hash, or the first part's report |
| Chain.PrefixAccepted | src/openagent_control/adapters/ledger/postgres_query.py:98-123 | a prefix of an accepted prefix is accepted |
| Chain.LongestValidPrefix | src/openagent_control/adapters/ledger/postgres_query.py:98-123 | `receipts_checked` is the length of the longest accepted prefix of an arbitrary table, and the broken row named is the very next one |
| Chain.ReadableIsReported | src/openagent_control/adapters/ledger/postgres_query.py:100-123 | from any starting hash, a table whose rows can all be decoded is reported on: a broken link or bad signature never raises |
| Chain.VerdictAtFirstBadRow | src/openagent_control/adapters/ledger/postgres_query.py:100-118 | for every table, the verdict is that of the row at which the accepted prefix ends: an unknown decision raises, a wrong predecessor is reported before the signature is decoded, text that is not hex raises, a bad signature is reported |
| TamperEvidence.PreimageSplits | src/openagent_control/adapters/ledger/postgres.py:80 | `unsigned_bytes + signature` splits uniquely for signatures of one length (section 5.1.6 of RFC 8032: 64 octets) |
| TamperEvidence.HeadsAreDistinct | src/openagent_control/adapters/ledger/postgres.py:60-80 | every point of the committed history has its own head hash, unless two distinct preimages collide or one hashes to genesis |
| TamperEvidence.CommittedOnce | src/openagent_control/adapters/ledger/postgres.py:54-80 | no receipt occurs twice in the committed history, under the same proviso |
| TamperEvidence.ExactTamperEvidence | src/openagent_control/adapters/ledger/postgres_query.py:90-123 | given all signings ever made, a table is accepted exactly when it is a cut of the committed history followed by at most one receipt signed at that cut, or a collision, a genesis hash or a forged signature is exhibited |
| TamperEvidence.AcceptedIffPrefix | src/openagent_control/adapters/ledger/postgres_query.py:90-123 | with nothing signed left uncommitted, accepted means a prefix of the history, or a broken primitive is exhibited |
| TamperEvidence.AllButTheLastRowAreHistory | src/openagent_control/adapters/ledger/postgres_query.py:90-123 | in an accepted table without forgeries, all rows but the last are the history from its start, none missing between |
| TamperEvidence.DeletionIsRejected | src/openagent_control/adapters/ledger/postgres_query.py:98-118 | the history with any receipt but the last deleted is not accepted |
| TamperEvidence.RespellingIsAccepted | src/openagent_control/adapters/ledger/postgres_query.py:26-44 | in any table, replacing a row by one that decodes alike changes no verdict; the converse is the next row |
| TamperEvidence.EditUnnoticedIff | src/openagent_control/adapters/ledger/postgres_query.py:26-44 | in a table of history, absent a hash break, an edit of one row goes unnoticed, forgeries aside, exactly when the row decodes as before, or is the last and now decodes to another receipt signed at that place |
| TamperEvidence.ReadAlikeIff | src/openagent_control/adapters/ledger/postgres_query.py:26-44 | two readable rows decode alike exactly when they agree in every column once the zone is dropped and the signature lower-cased without its spaces |
| TamperEvidence.EveryRowHasOtherSpellings | src/openagent_control/adapters/ledger/postgres_query.py:33 | every row has such edits: its timestamp without or with the zone, a space before the signature, and the signature in upper case, which differs exactly when it has a lower-case letter |
| TamperEvidence.UpperCasedSignatureIsAccepted | src/openagent_control/adapters/ledger/postgres_query.py:110 | in particular, in any table, the verdict is blind to the letter case of the signature column |
| PostgresLedger.RunKeepsInvariant | src/openagent_control/adapters/ledger/postgres.py:47-80 | over every interleaving of replicas: the ordered rows decode to the committed history, the chain head is its hash, every signing chained to the history at its time, sequence ids are unique; commits are counted |
| PostgresLedger.EveryInterleavingVerifies | src/openagent_control/adapters/ledger/postgres.py:47-80 | however replicas lock, sign, insert, commit and abort, the rows in id order verify with `receipts_checked` equal to the number of commits, form one chain, and `chain_state` is the hash of the last |
| PostgresLedger.NoFork | src/openagent_control/adapters/ledger/postgres.py:48-60 | two committed receipts naming the same predecessor exhibit a hash break |
| PostgresLedger.PayloadHashCommits | src/openagent_control/adapters/ledger/postgres.py:45 | two requests share a payload hash exactly when they mean the same, or two distinct texts share a digest |
| PostgresLedger.SignedIsReceiptOf | src/openagent_control/adapters/ledger/postgres.py:54-65 | the receipt signed says what was asked, names the head, hashes the request and carries the signature of its own octets |
| PostgresLedger.LockIsHandedOver | src/openagent_control/adapters/ledger/postgres.py:47-52 | when the holder commits or aborts, any waiting session can take the lock at once, and reads the head of the history so far |
| PostgresLedger.AcceptedTablesAfterRun | src/openagent_control/adapters/ledger/postgres_query.py:90-123 | after any run, aborts included, the accepted tables are exactly the root paths of the tree of signed receipts, or a broken primitive is exhibited |
| PostgresLedger.AcceptedIsPrefixAfterCleanRun | src/openagent_control/adapters/ledger/postgres_query.py:90-123 | after a run that lost no signing, accepted is the same as prefix of the committed history, up to an exhibited break |
| PostgresLedger.LostSigningIsAccepted | src/openagent_control/adapters/ledger/postgres.py:64-80 | a table decoding to the history up to an uncommitted signing, and that signing, is accepted and is not history |
| PostgresLedger.SigningHasATable | src/openagent_control/adapters/ledger/postgres.py:67-79 | such a table exists for every signing of every run: it is the rows those receipts would be written as |
| PostgresLedger.OnlyPrefixesIff | src/openagent_control/adapters/ledger/postgres_query.py:90-123 | absent a hash break, after any run, every accepted unforged table is a prefix of the history exactly when no signing was lost |
| PostgresLedger.SigningsAreAccountedFor | src/openagent_control/adapters/ledger/postgres.py:47-80 | over every run in which no abort hits a session that has signed, each signing is committed in its place or held by an open session |
| PostgresLedger.AcceptedIsPrefixWithoutLateAborts | src/openagent_control/adapters/ledger/postgres_query.py:90-123 | so after such a run with no signing pending, accepted is the same as prefix of the history, up to an exhibited break |
| PostgresLedger.LateAbortLosesASigning | src/openagent_control/adapters/ledger/postgres.py:47-80 | aborting any session that has signed, in any run, leaves at that moment an accepted unforged table that is not history |
| PostgresLedger.LateAbortAbandons | src/openagent_control/adapters/ledger/postgres.py:47-80 | over every run with fresh sequence ids, once an abort hit a session that had signed, some signing stays uncommitted and unheld for good |
| PostgresLedger.NothingLostIff | src/openagent_control/adapters/ledger/postgres.py:54-80 | over every run with fresh sequence ids, no signing is lost exactly when no abort hit a session that had signed and no session that has signed is open |
| PostgresLedger.OnlyPrefixesTraceIff | src/openagent_control/adapters/ledger/postgres_query.py:90-123 | so, absent a hash break, every accepted unforged table is a prefix of the history exactly under that condition on the trace |
| PostgresLedger.TransactionSteps | src/openagent_control/adapters/ledger/postgres.py:47-82 | lock, sign, insert, commit (or the two ways to roll back) of one undisturbed call leave exactly the effect stated for the method below |
| PostgresLedger.Ledger.Record | src/openagent_control/adapters/ledger/postgres.py:45-82 | the receipt of that very request, and the whole new database state of one call: row under the next id, new head hash and returned receipt; on a duplicate sequence id or a rollback only the id and the signing are spent |
| MemoryLedger.Ed25519ChainLedger.Record | src/openagent_control/adapters/ledger/ed25519_chain.py:51-69 | appends one signed receipt of that very request naming the old head, moves the head to its hash, and keeps the recorded-history invariant |
| MemoryLedger.HistoryIsExact | src/openagent_control/adapters/ledger/ed25519_chain.py:53-67 | rows of its receipts are accepted exactly when they are a prefix of its history, up to an exhibited break |
| Routing.RoutesAreFirstOffers | src/openagent_control/adapters/mcp_upstream/routing.py:107-116 | over all offers in order: exactly the offered names are routed, each to the upstream of its first offer |
| Routing.FirstsAreFirst | src/openagent_control/adapters/mcp_upstream/routing.py:111-116 | the kept positions are increasing and are exactly the first offers of their names |
| Routing.ListingIsFirstOffers | src/openagent_control/adapters/mcp_upstream/routing.py:107-116 | the merged listing is exactly the first offer of each name, in order |
| Routing.RoutedToFirstAdvertiser | src/openagent_control/adapters/mcp_upstream/routing.py:107-116 | `routes[n]` is the first upstream in configured order whose successful listing names `n`; a name nobody advertises has no route |
| Routing.ListingMatchesRoutes | src/openagent_control/adapters/mcp_upstream/routing.py:104-116 | every listed descriptor is named and routed to the upstream it came from; no name is listed twice; every routed name is listed |
| Routing.MergeListing | src/openagent_control/adapters/mcp_upstream/routing.py:111-116 | the inner loop extends the merge of what came before by one upstream's tools |
| Routing.RoutingMCPUpstream.Refresh | src/openagent_control/adapters/mcp_upstream/routing.py:104-123 | the refresh loop computes the declarative merge and installs it for one TTL; if every upstream failed it raises and leaves table and expiry alone |
| Routing.RoutingMCPUpstream.RouteFor | src/openagent_control/adapters/mcp_upstream/routing.py:77-87 | an undisturbed route lookup: the live cached route, or a refresh and then the first advertiser, nowhere, or the outage error |
| RoutingRuns.RunKeepsInvariant | src/openagent_control/adapters/mcp_upstream/routing.py:67-123 | over every interleaving: table and expiry are the latest install's, every call refreshing holds the lock, forwards are well routed and unique |
| RoutingRuns.EveryForwardIsRouted | src/openagent_control/adapters/mcp_upstream/routing.py:67-123 | in every interleaving of lists and calls, a routed call is forwarded exactly once, to the first configured upstream advertising the tool in the refresh whose table was used; that table was the latest, and the call's own or under one TTL old |
| RoutingRuns.OutageChangesNothing | src/openagent_control/adapters/mcp_upstream/routing.py:118-123 | a refresh in which every upstream fails changes neither table, expiry nor anyone else's outcome |
| RoutingRuns.RefreshedCallEnds | src/openagent_control/adapters/mcp_upstream/routing.py:67-87 | a call that refreshed ends in the outage error, at the first advertiser, or with "no configured upstream", and exactly when |
| RoutingRuns.RefreshedListEnds | src/openagent_control/adapters/mcp_upstream/routing.py:63-65 | a `tools/list` whose answers are in is always answered: with exactly the first offer of each name, in order, or with the outage error if every upstream failed |
| RoutingRuns.RequestsProceed | src/openagent_control/adapters/mcp_upstream/routing.py:58-87 | no request waits in vain: a list fans out at once, a call is forwarded or queues, and whoever queues gets a free lock and is forwarded or fans out |
| RoutingRuns.UnreachableIsReportedAsUnknown | src/openagent_control/adapters/mcp_upstream/routing.py:70-74 | the tool of an unreachable upstream is reported as advertised by no configured upstream |
| RoutingBursts.OneFanOutIff | src/openagent_control/adapters/mcp_upstream/routing.py:80-87 | from a fan-out in flight for a stale tool, finishing on any answers, and over any later calls for the tool, its table not expiring if it has the tool: no further fan-out exactly when the tool was advertised or nobody got the lock |
| RoutingBursts.OneFanOutPerBurst | src/openagent_control/adapters/mcp_upstream/routing.py:80-87 | any number of callers queued for a tool behind a refresh that advertises it cause no further fan-out and are all served by that table |
| RoutingBursts.EveryCallerFansOut | src/openagent_control/adapters/mcp_upstream/routing.py:80-87 | when the table lacks the tool or has expired, and no refresh advertises it, each caller that gets the lock causes one fan-out |
| RoutingBursts.TwoCallersTwoFanOuts | src/openagent_control/adapters/mcp_upstream/routing.py:54-55 | so the comment's "one fan-out, not one per caller" fails for an unadvertised tool |
| PolicyMeaning.GrantedIff | src/openagent_control/resources/policies/mcp_authz.rego:48-51 | on the projected input, `granted` is defined exactly when the registration grants the called name |
| PolicyMeaning.GrantsDenote | src/openagent_control/adapters/policy/opa.py:25-27 | two grants differ as policy values exactly when they differ, so a conflict in the policy is a conflict in the registry |
| PolicyMeaning.ConflictsIff | src/openagent_control/resources/policies/mcp_authz.rego:53-56 | `grant_for` has two results exactly when the registration holds two differing grants of the called name |
| PolicyMeaning.GrantForIs | src/openagent_control/resources/policies/mcp_authz.rego:53-56 | it gives the first grant of the called name, or any of them when they agree |
| PolicyMeaning.BodiesFireIff | src/openagent_control/resources/policies/mcp_authz.rego:63-91 | for every call, some guardrail body is defined exactly when a threshold is breached, an added guardrail fires, or the terms of the first grant of that name are not met |
| PolicyMeaning.RolesMeet | src/openagent_control/resources/policies/mcp_authz.rego:93-96 | `has_any_role` is defined exactly when the two role lists share a role |
| PolicyMeaning.ViolationIff | src/openagent_control/resources/policies/mcp_authz.rego:63-91 | when the grants agree or some body fires, that is when a threshold is breached, an added guardrail fires, or the terms of some grant of that name are not met |
| PolicyMeaning.FailsIff | src/openagent_control/resources/policies/mcp_authz.rego:53-87 | the query fails exactly for a `tools/call` under conflicting grants, unless a guardrail body that fires ends the evaluation first |
| PolicyMeaning.AllowRuleIff | src/openagent_control/resources/policies/mcp_authz.rego:22-31 | whenever the query answers, `allow` equals: listing, or a call that is active, granted, within thresholds, delegated when required, with some required role when any is listed |
| PolicyMeaning.AllowIff | src/openagent_control/resources/policies/mcp_authz.rego:22-31 | for every call: allowed exactly when so permitted and, unless it is a listing, its grants do not conflict |
| PolicyMeaning.ThresholdDecides | src/openagent_control/resources/policies/mcp_authz.rego:63-65 | in the shipped policy, an otherwise orderly call of `salesforce_update_account` with a numeric credit limit is allowed exactly up to 10000, and denied as exceeding beyond |
| PolicyMeaning.ThresholdOnOtherValues | src/openagent_control/resources/policies/mcp_authz.rego:63-65 | an absent, null or boolean limit never breaches it, a string, array or object always does |
| PolicyMeaning.InputFields | src/openagent_control/adapters/policy/opa.py:19-47 | the policy reads under each key of the input document what the call holds |
| PolicyMeaning.AgentFacts | src/openagent_control/adapters/policy/opa.py:25-27 | and under each key of the agent what the registration holds |
| PolicyMeaning.SubjectRoles | src/openagent_control/adapters/policy/opa.py:33-41 | and of the subject its id, roles and scopes |
| PolicyMeaning.ConflictIsNeverAllowed | src/openagent_control/resources/policies/mcp_authz.rego:53-56 | under conflicting grants a call is never allowed: the query fails, or a guardrail body denies it |
| PolicyMeaning.ReasonsIff | src/openagent_control/resources/policies/mcp_authz.rego:33-42 | whenever the query answers, each `reason` rule fires exactly when a call is ungranted, or granted and in violation |
| PolicyMeaning.OneReason | src/openagent_control/resources/policies/mcp_authz.rego:33-42 | the two `reason` rules never both fire, on any input document |
| PolicyMeaning.DecisionTable | src/openagent_control/adapters/policy/opa.py:18-57 | for every call: decision and reason, or the unavailability the adapter raises when the query fails |
| PolicyMeaning.AddedBodiesOnlyDeny | src/openagent_control/resources/policies/mcp_authz.rego:7-9 | on any input document, adding guardrail bodies never makes the `allow` rule hold |
| PolicyMeaning.GuardrailsOnlyNarrow | src/openagent_control/resources/policies/mcp_authz.rego:7-9 | a call allowed with added guardrails is allowed without them, failing queries included |
| PolicyMeaning.NarrowsIff | src/openagent_control/resources/policies/mcp_authz.rego:76-96 | in the shipped policy, no call refused under one grant is allowed under another of its name exactly when the new terms are at least as strict for every human or none |
| PolicyMeaning.StricterIff | src/openagent_control/resources/policies/mcp_authz.rego:76-96 | exactly which edits of a grant's requirements are: approval or roles asked where none were, or roles dropped from a list that stays non-empty |
| PolicyMeaning.AddedRoleWidens | src/openagent_control/resources/policies/mcp_authz.rego:93-96 | so adding a role to a non-empty `required_roles` widens: for any grant and role, a call the policy refuses before and allows after |
| PolicyMeaning.StricterGrantsOnlyNarrow | src/openagent_control/resources/policies/mcp_authz.rego:67-91 | a call the policy allows after grants were replaced by stricter ones was allowed before exactly when the old grants did not conflict, or it is a listing |
| PolicyMeaning.MonotoneInRoles | src/openagent_control/resources/policies/mcp_authz.rego:82-87 | more roles on a present human never lose a call the policy allows |
| Governed.GovernedExecutionService.AuthorizeCall | src/openagent_control/application/governed_execution.py:150-246 | the step-by-step service appends exactly the specified effects and returns the specified outcome |
| Governed.GovernedExecutionService.ExecuteCall | src/openagent_control/application/governed_execution.py:109-148 | the same for a whole call: authorize, broker, forward, filter |
| GovernedRuns.AllowedIff | src/openagent_control/application/governed_execution.py:199-246 | a call is let through exactly when its agent is identified and registered active, its subject accepted, the policy engine answered, ALLOW or in observe mode, and its receipt was recorded and exported |
| GovernedRuns.OutcomeMeans | src/openagent_control/application/governed_execution.py:160-246 | the call receipted is the one received and verified; unregistered, suspended or engine outage is an enforced DENY with its reason in either mode; otherwise the decision is the engine's own; the effects are its receipt and the export |
| GovernedRuns.RefusedMeans | src/openagent_control/application/governed_execution.py:150-238 | without an outcome, the failure is an identity refusal exactly for an unknown caller or an unaccepted subject, and otherwise a port's, receipted only if it is the export's |
| GovernedRuns.SubjectForIff | src/openagent_control/application/governed_execution.py:186-193 | a subject token is verified when subjects are and one is presented, and its subject taken exactly when it verifies and is bound |
| GovernedRuns.ReplyMeans | src/openagent_control/application/governed_execution.py:115-148 | the whole reply of a call in each case, and that a call let through is sent exactly when it gets a credential |
| GovernedRuns.CredentialIsMissingIff | src/openagent_control/application/governed_execution.py:262-268 | the missing-token error is exactly for a sponsored agent without a subject token |
| GovernedRuns.ForwardIsAuthorized | src/openagent_control/application/governed_execution.py:115-140 | in every interleaving, whatever is forwarded is of an active agent whose policy engine answered, ALLOW or in observe mode |
| GovernedRuns.ForwardFollowsOwnReceipt | src/openagent_control/application/governed_execution.py:115-148 | in every interleaving of calls over one log, a forward comes after that call's own and only receipt, for the request forwarded, reading ALLOW or an unenforced DENY |
| GovernedRuns.ReceiptedOnce | src/openagent_control/application/governed_execution.py:150-246 | a call appends exactly one receipt, with the decision judged, when identity, lookup and subject checks passed and no port crashed; otherwise none |
| GovernedRuns.UnenforcedOnlyWhenShadowed | src/openagent_control/application/governed_execution.py:229-237 | `enforced=false` occurs only in observe mode, for an active agent, when the policy engine itself answered DENY |
| GovernedRuns.ShadowRunsAgree | src/openagent_control/application/governed_execution.py:229-246 | the same calls under observe and enforce are receipted pointwise with the same request, decision and reason |
| GovernedRuns.UnenforcedDenyIsTheDifference | src/openagent_control/application/governed_execution.py:229-246 | the calls observe lets through and enforce blocks are exactly those receipted as an unenforced DENY; enforce lets nothing more through |
| GatewayLedger.HistoryIsTheLog | src/openagent_control/application/governed_execution.py:237 | in every run of the gateway over the Postgres ledger, transactions and calls interleaved, acknowledgements lost or not, each committed row is of a call that asked to record and says what was decided; the log holds the acknowledged ones in order; the table verifies in full |
| GatewayLedger.HistoryIsExactlyTheLog | src/openagent_control/application/governed_execution.py:237 | when every commit was acknowledged, the committed history is the log's receipts, one for one and in order |
| GatewayLedger.SameHashSameRequest | src/openagent_control/adapters/ledger/postgres.py:45 | two committed rows of one payload hash are of requests that mean the same, or two distinct texts share a digest |
| GatewayLedger.CommitIsLogged | src/openagent_control/application/governed_execution.py:237 | the gateway never stands in a commit's way, and logs the receipt exactly when `record` returns |
| GatewayLedger.ForwardHasACommittedRow | src/openagent_control/application/governed_execution.py:115-148 | a call is forwarded only when a committed row of a table that verifies already says ALLOW, or an unenforced DENY, of the request forwarded |
| GatewayLedger.LedgerRuns | src/openagent_control/adapters/ledger/postgres.py:45-82 | the ledger's part of such a run is a run of the ledger |
| GovernedRuns.BindsIff | src/openagent_control/application/governed_execution.py:303-322 | exactly what each binding mode asks of agent and subject; each mode asks all the laxer one does |
| GovernedRuns.ReceiptedSubjectIsBound | src/openagent_control/application/governed_execution.py:188-192 | every receipted subject is the one verified, names the agent's client if it names anyone (binding not off) and otherwise is the claimed sponsor (strict) |
| GovernedRuns.ForwardedCredentialIsExchanged | src/openagent_control/application/governed_execution.py:248-274 | a sponsored call is forwarded only with the credential just exchanged for its subject token, a bearer agent's only with one exchanged for its own |
| GovernedRuns.PartitionSplits | src/openagent_control/application/governed_execution.py:271 | `partition(" ")` splits at the first space, or not at all |
| GovernedRuns.AutonomousCredentialIff | src/openagent_control/application/governed_execution.py:271-274 | an agent without a sponsor exchanges a token exactly when it is the token of its own bearer header, scheme in any letter case; otherwise it gets the placeholder |
| GovernedRuns.LowerIsAscii | src/openagent_control/application/governed_execution.py:272 | the scheme is lowered letter by letter |
| Coherence.FilterKeepsTheRest | src/openagent_control/application/governed_execution.py:344-354 | for any response of any shape: the filter keeps exactly the granted tool descriptors, in order, and every other field; other methods' responses pass unchanged |
| Coherence.FilterRaisesIff | src/openagent_control/application/governed_execution.py:350-353 | filtering raises exactly on a listing with a dictionary whose name is a list or a dictionary |
| Coherence.DictionariesIff | src/openagent_control/adapters/mcp_upstream/routing.py:146 | the tools of a listing are exactly the dictionaries in its array |
| Coherence.ToolNameIff | src/openagent_control/adapters/mcp_upstream/routing.py:112-113 | a tool's name is the string under `name`, and nothing else is a name |
| Coherence.FilteredListing | src/openagent_control/application/governed_execution.py:325-354 | filtering a merged listing never raises and leaves exactly the granted tools, in a response otherwise unchanged |
| Coherence.ShownIff | src/openagent_control/application/governed_execution.py:350-353 | a name is shown exactly when it is granted and some upstream advertises it |
| Coherence.GrantedNamesIff | src/openagent_control/application/governed_execution.py:350 | the names that survive are exactly those for which a call would find its grant |
| Coherence.ShownIffGranted | src/openagent_control/application/governed_execution.py:350-353 | so a name is shown exactly when a call for it would be granted and some upstream advertises it |
| Coherence.ShownInOrder | src/openagent_control/adapters/mcp_upstream/routing.py:107-116 | shown tools keep the order of their first offers, so no name shows twice |
| Coherence.ShownIsCallable | src/openagent_control/resources/policies/mcp_authz.rego:26-42 | a call for a shown tool under the same registration is never refused as not granted, and is allowed exactly when the agent is active, no guardrail objects and the grants of that name do not conflict |
| Coherence.UngrantedIsRefusedAsSuch | src/openagent_control/resources/policies/mcp_authz.rego:33-36 | that refusal is given to every ungranted call, and to no other |
| Coherence.ConflictFailsClosed | src/openagent_control/application/governed_execution.py:214-222 | an active agent's call under conflicting grants is refused as policy engine unavailable, in observe mode too, unless a guardrail body denied it |
| Coherence.ShownIsRouted | src/openagent_control/adapters/mcp_upstream/routing.py:63-87 | in every interleaving, while the table of a task's own listing is the latest and live, a call for a tool it was shown goes at once to the upstream whose listing held the descriptor shown |
| Coherence.ListedThenCalled | src/openagent_control/application/governed_execution.py:109-148 | through the gateway: list, then call a tool that was shown, registration unchanged; the reply is never "Capability not granted" |
| GatewayRouter.RouterRuns | src/openagent_control/adapters/mcp_upstream/routing.py:58-61 | the router's part of a run of the gateway over the router is a run of the router |
| GatewayRouter.ForwardedWasReceipted | src/openagent_control/adapters/mcp_upstream/routing.py:67-75 | over every interleaving, the router reaches an upstream with a call only after the gateway receipted and sent that very call, and for the tool it was sent for |
| GatewayRouter.SendingIsPossible | src/openagent_control/application/governed_execution.py:138-141 | a call is sent once, so its router task is always free to start |
| GatewayRouter.SendingStarts | src/openagent_control/adapters/mcp_upstream/routing.py:58-87 | sending a listing starts its fan-out; sending a call forwards it by the live table or queues it |
| GatewayRouter.ShownReachesItsUpstream | src/openagent_control/application/governed_execution.py:138-141 | end to end: an agent lists, calls a tool it was shown, registration unchanged and table in force; when the gateway sends the call, the router forwards it at once to the upstream whose listing held the descriptor shown, and it is never refused as not granted |
| TtlCache.EveryAnswerIsBounded | src/openagent_control/adapters/token_exchange/caching.py:53-66 | over every interleaving of lookups, fills and evictions, each answer came from the inner source for a query with the same key and is no older than its delay plus its time to live |
| TtlCache.SlowFillIsServedLate | src/openagent_control/adapters/registry/caching.py:25-34 | that bound is tight: any answer can be served at any moment short of it |
| TokenCache.HitsLeaveTheMargin | src/openagent_control/adapters/token_exchange/caching.py:29-37 | across every interleaving, a JWT served from the cache has strictly more than `margin - 1 - delay` seconds left |
| TokenCache.TtlIsLongest | src/openagent_control/adapters/token_exchange/caching.py:29-37 | a JWT's time to live is the longest within the maximum that leaves the margin before its expiry, none when no second does; an opaque token's is the margin |
| TokenCache.HitsAreRecent | src/openagent_control/adapters/token_exchange/caching.py:33-37 | every hit is on a token the inner exchange answered, and is no older than the configured maximum (for a token without a readable `exp`, the margin) plus the delay |
| TokenCache.ShortMarginServesExpired | src/openagent_control/adapters/token_exchange/caching.py:29-37 | a smaller margin lets some run, starting at or after any given second, serve a JWT at or after its expiry, although the inner exchange never returned an expired one |
| TokenCache.LongMarginServesExpired | src/openagent_control/adapters/token_exchange/caching.py:33-34 | a margin longer than an opaque token may have left, less the delay, lets some such run serve an opaque token past its life |
| TokenCache.DefaultMarginServesDeadOpaque | src/openagent_control/adapters/token_exchange/caching.py:33-34 | so with the default margin and no delay, when opaque tokens may have 10 seconds left |
| TokenCache.NeverPastExpiryIff | src/openagent_control/adapters/token_exchange/caching.py:5-8 | over every hit, JWT or opaque: "never caches past a token's real expiry" holds exactly when `1 + delay <= margin <= life - delay`, `life` being the least an opaque token has left when it is answered |
| TokenCache.KeyTextSplits | src/openagent_control/adapters/token_exchange/caching.py:24-26 | the text under a cache key determines the pair, when subject tokens carry no colon |
| TokenCache.KeyTextsUniqueIff | src/openagent_control/adapters/token_exchange/caching.py:24-26 | for a set of audiences and any subject tokens, the text under a key determines the pair exactly when no audience is some text, a colon and another audience |
| TokenCache.OneAudienceNeverNests | src/openagent_control/application/governed_execution.py:269-274 | the gateway's single configured audience always passes that test |
| TokenCache.HitsAreTransparent | src/openagent_control/adapters/token_exchange/caching.py:53-66 | over any run with colon-free subject tokens, or with audiences passing that test, every answer is one the inner exchange gave in that run to that very pair, or two texts share a digest |
| TokenCache.NestedAudiencesShareAKey | src/openagent_control/adapters/token_exchange/caching.py:24-26 | for any two audiences that fail the test, any digest and any subject, some run serves that subject the token exchanged for another |
| TokenCache.TransparentIff | src/openagent_control/adapters/token_exchange/caching.py:53-66 | so the cache is transparent over all runs with these audiences exactly when they pass it, once for each pair some answer can be cached at some time |
| TokenCache.CachingTokenExchange.Exchange | src/openagent_control/adapters/token_exchange/caching.py:53-66 | hit or miss decided by the live entry; text returned, new Redis contents, and the run of the cache protocol the call amounts to |
| RegistryCache.LookupsAreFreshEnough | src/openagent_control/adapters/registry/caching.py:25-34 | every lookup, positive or negative, returns what the inner registry held for that agent less than `ttl` plus the longest fill ago, overlapping fills included |
| RegistryCache.SuspensionIsSeen | src/openagent_control/adapters/registry/caching.py:25-34 | a suspension not reversed is seen by every lookup after that bound |
| RegistryCache.LeastBound | src/openagent_control/adapters/registry/caching.py:25-34 | no smaller bound holds: when an agent is removed, a bound holds of all runs exactly when it is at least `ttl` plus the longest fill |
| RegistryCache.CachingAgentRegistry.Lookup | src/openagent_control/adapters/registry/caching.py:25-34 | as for the token cache; the empty-string marker decodes to a confirmed absence |
| FileRegistry.IndexFindsTheEntry | src/openagent_control/adapters/registry/file.py:33 | the index finds the last entry carrying an id, and nothing for an id no entry carries |
| FileRegistry.IndexEntries | src/openagent_control/adapters/registry/file.py:33 | the loop builds that index |
| FileRegistry.AnswersIff | src/openagent_control/adapters/registry/file.py:28-38 | a lookup answers exactly when the file is there and its mtime is the cached one or a fresh read parses; it answers from the cache in the first case and from that read, which it stores, in the second |
| FileRegistry.HonestMtimesLinearize | src/openagent_control/adapters/registry/file.py:28-38 | if no mtime is reused over, or across, different content, every successful lookup answers from a version current at some moment during it |
| FileRegistry.DishonestMtimesShow | src/openagent_control/adapters/registry/file.py:28-36 | if one is, some schedule of lookups answers from a version no longer current |
| FileRegistry.LinearizesIff | src/openagent_control/adapters/registry/file.py:28-38 | so lookups linearize against external writers exactly under that condition on the file's history |
| FileRegistry.DistinctMtimesLinearize | src/openagent_control/adapters/registry/file.py:28-38 | distinct mtimes are enough |
| FileRegistry.FileAgentRegistry.LookUp | src/openagent_control/adapters/registry/file.py:28-38 | the cache after a lookup and its answer; one that raises leaves the cache as it was |
| RegistryAudit.OneActionPerSuccess | src/openagent_control/adapters/registry/postgres.py:75-159 | after any serial run, the trail holds one action for each successful request, in order, with its operator, target, time and detail, and no other |
| RegistryAudit.SuccessIff | src/openagent_control/adapters/registry/postgres.py:75-159 | a request succeeds exactly when it creates an absent agent or touches a present one, and returns the row stored; a failed one changes nothing and fails as duplicate or not found; no request touches another agent |
| RegistryAudit.RegisteredIffFounded | src/openagent_control/adapters/registry/postgres.py:75-99 | an agent is registered exactly when some request created it, and keeps its id and creation time |
| RegistryAudit.StatusHistoryLinks | src/openagent_control/adapters/registry/postgres.py:136-159 | each agent's audited transitions link, from/to, from the status it was created with to its current one |
| RegistryAudit.StatusChangedAtIsExact | src/openagent_control/adapters/registry/postgres.py:145-149 | `status_changed_at` is the time of the last `set_status` since creation, or what the agent was created with; `update` never moves it |
| RegistryAudit.UpdateKeepsTheRest | src/openagent_control/adapters/registry/postgres.py:113-124 | `update` sets the fields the patch carries and keeps all others, status and `status_changed_at` among them |
| RegistryAudit.CreateStoresTheAgent | src/openagent_control/adapters/registry/postgres.py:75-99 | `create` stores the agent as given and touches no other |
| RegistryAudit.SetStatusKeepsTheRest | src/openagent_control/adapters/registry/postgres.py:145-149 | `set_status` sets the status and both times and keeps every other field |
| RegistryAudit.TrailMatchesTheTable | src/openagent_control/adapters/registry/postgres.py:75-159 | after any serial run, replaying the trail gives exactly the registered agents, with their current owner and risk tier and every other field the trail mentions |
| RegistryAudit.TrailFixesIff | src/openagent_control/adapters/registry/postgres.py:75-159 | after any serial run: all runs with this trail agree on an agent's status, display name, purpose or granted tools exactly when some row of the trail tells that field, which a creation row never does |
| RegistryAudit.StatusIsFixedIff | src/openagent_control/adapters/registry/postgres.py:136-159 | for the status: exactly when the agent's status was ever set |
| RegistryAudit.UntoldIsInvisible | src/openagent_control/adapters/registry/postgres.py:91-98 | an untold field can be altered at creation through the whole run with the same trail and no other change in the table |
| RegistryAudit.PostgresAgentRegistry.CreateAgent | src/openagent_control/adapters/registry/postgres.py:75-99 | agent and action written together, or neither |
| RegistryAudit.PostgresAgentRegistry.UpdateAgent | src/openagent_control/adapters/registry/postgres.py:101-134 | the patched row and its action written together, or neither |
| RegistryAudit.PostgresAgentRegistry.SetAgentStatus | src/openagent_control/adapters/registry/postgres.py:136-159 | the new status, its times and the from/to action written together, or nothing |

## Left out

- SHA-256, Ed25519, Vault Transit, JWT and JWKS validation: foreign code, kept as arbitrary functions.
- Number printing (`int.__repr__`, `float.__repr__`): a JSON number is its printed text, so two texts of one number count as two values, as they do in the signed bytes.
- Strings with lone surrogates: pydantic refuses them; `default=str` in `canonical_json` is never reached on JSON-mode dumps.
- Time zones other than UTC: every receipt is stamped in UTC; a timestamp is naive or UTC.
- The field-by-field dump of a request under `payload_hash`: the hash is over an arbitrary JSON value.
- The text of the exception `verify_chain` raises on a row that is not hex or has an unknown decision: the model reports `ValueError`, and says exactly when.
- PostgresLedger.RunKeepsInvariant: does not model loss of the locked row's session by connection failure other than as an abort, nor a database restored from backup.
- `search`, `get`, `list_agents`, fleet summaries and activity counters: only easy members.
- Cancellation of a task inside the router's lock, and an upstream's own timing: an upstream answers or fails.
- Malformed call payloads (`params` that is not an object): request validation is foreign code; header names are taken lower-cased.
- GovernedRuns.ShadowRunsAgree: fixes each call's registry, policy and subject answers, so it does not model a policy engine whose answers depend on the mode; a mode-independent upstream is not needed.
- GovernedRuns.UnenforcedDenyIsTheDifference: says nothing of calls whose receipt could not be exported; both modes raise on those after receipting.
- PolicyMeaning.FailsIff: leaves open whether a true guardrail body, the first conflicting grant's own included, ends OPA's evaluation before it meets the conflict, which OPA does not promise; either way the call is not allowed. Operator-added guardrails are an arbitrary predicate of input, tool and arguments.
- PolicyMeaning.StricterGrantsOnlyNarrow: assumes that an operator-added guardrail firing on the old grants fires on the stricter ones, since nothing is known about its body.
- GatewayRouter.ShownReachesItsUpstream: what the gateway got from upstream is an input of each call, so the lemma asks that the list call's is what the router listed; other calls' answers are the upstreams', which are not modelled.
- GatewayLedger.ForwardHasACommittedRow: a call whose `record` failed may try again in the model, and never acts; the gateway does not retry it, so the model has more runs than the code.
- PolicyMeaning.MonotoneInRoles: assumes that no operator-added guardrail fires because of the extra roles, since nothing is known about its body.
- RoutingBursts.OneFanOutIff: excludes an interleaved `tools/list`, and an expiry of a table that has the tool, either of which may legitimately start another fan-out.
- Redis: only reads, writes with expiry and eviction; its expiry clock and the gateway's clock are one clock, which never runs back.
- TokenCache.HitsLeaveTheMargin: takes `int(time.time())` as the floor, which it is for clocks after 1970.
- RegistryCache.LookupsAreFreshEnough: takes a positive time to live, as does the class; Redis refuses any other expiry.
- RegistryAudit.OneActionPerSuccess: covers serial runs; `update` and `set_status` read the row without a lock, so concurrent mutations of one agent are not covered.
- FileRegistry.LinearizesIff: one process, whose lookups do not overlap; a stat and a read each see one version whole.
- FastAPI routes, MCP transport, httpx, CLI, logging, tracing, identity adapters, SDK clients, container wiring and settings: plumbing, or short decision tables over claims other libraries verify.
