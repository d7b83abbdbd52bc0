# The skills hub: a verified model

The hub is a registry of versioned skills. Clients publish a version of a skill under a namespace, yank it and
unyank it; other clients read an index, search it, and fetch the artifacts it lists. This project models that
registry in Dafny and proves what it promises, from the SQL statements of one transaction up to what the index
shows after any run of the whole service.

The files, from the bottom up:

- **Foundations.** `Wrappers`, `Orders` (comparators and their laws), `Sequences`, `Text` (splitting, joining,
  trimming), `Sorting` (`sort_by`, in place, with the proof that sorted, permuted and stable leave one result),
  `Model` (the entities).
- **Encoders and validators.** `SemVer` (parser, printer, comparator), `Precedence` (section 11 of Semantic
  Versioning 2.0.0 as a specification, and what the comparator of the index has to do with it), `SkillPath`,
  `Digest`, `Utf8`, `Trust` (the signed message: compact JSON, a bar, the digest), `Auth` (contexts and the
  three headers they are read from), `Gates` (everything a publish or yank must pass).
- **The registry.** `Tables` (the two tables and the statements on them), `Registry` (the same content as one
  atomic object), `History` (histories, and what a linearization of one is), `Protocol` (any number of
  transactions, statement by statement, with locks, rollbacks and lost connections), `Invariants`,
  `Linearizability`, `Runs` (whole-run properties), `Yanks` (what yanking does to the columns), `Repository` (the
  repository class as its methods run when nobody interleaves).
- **The service.** `Service` (requests, gates, repository calls and the event queue as one concurrent machine),
  `Verdicts` (what each request is told), `Admission` (where stored rows come from), `HubService` (the service
  class and the queue class).
- **The views.** `Index`, `Artifacts`, `Search`, `IndexSearch`; `Views`, which states them for every state the
  running service can reach; and `Clash`, a run to a state in which they disagree.

How concurrency is modelled: each statement sees the rows committed when it runs and its own transaction's
writes (Postgres READ COMMITTED). A row that an open transaction has written is locked, and so is the unique
key it occupies, until that transaction commits or has rolled back. A connection may be lost before any
statement; the caller then gets a database error, and the rollback happens some time later. A history records
when each call was made, took effect and returned; it is only observed, no statement reads it. Every statement
of the code is a step of the model, including the re-read after an insert that inserted nothing, which is then
proved unreachable.

Three things the proofs show that a reader of the code may not expect. The fallback of the version comparator
to text makes it no order on arbitrary strings (`FallbackCycle`); it is one in the index only because publish
lets no other version in (`StoredVersionsParse`). The normal form of an accepted path can be one that is not
accepted (`DrivePrefixSurfaces`). And where two namespaces publish the same name and version, what the global
index lists, what a search returns and what the artifact URL serves may differ: `ClashReached` gives a run that
gets there, and `RecordAgreesExactly` and `GlobalSearchExactly` say exactly when they do not.

## Model

| member | source | states |
|---|---|---|
| Invariants.InsertInserts | crates/hub-index/src/postgres.rs:88-128 | After a SELECT that found nothing, the INSERT of the version always inserts: the lock on the skill row keeps every rival out, so the re-read is never reached |
| Invariants.CommitDbOk | crates/hub-index/src/postgres.rs:84-138 | Committing a new version keeps both unique keys, the foreign key, and `latest_version` naming an existing version |
| Invariants.RepeatChangesNothing | crates/hub-index/src/postgres.rs:50-86 | A transaction that answers a repeat commits the tables it found |
| Invariants.RestampedDbOk | crates/hub-index/src/postgres.rs:164-199 | An update of yank columns keeps all table constraints |
| Invariants.StepKeepsInv | crates/hub-index/src/postgres.rs:33-216 | Every step of every call keeps the invariant: table constraints, one open transaction per skill, and what each transaction has written and knows |
| Invariants.RunKeepsInv | crates/hub-index/src/postgres.rs:33-216 | So every state of every interleaved run satisfies it |
| Linearizability.FoundSimulates | crates/hub-index/src/postgres.rs:69-86 | A publish that finds its version is answered as the atomic registry answers at that moment |
| Linearizability.CommitSimulates | crates/hub-index/src/postgres.rs:88-154 | A new publish changes the tables, at its commit, as the atomic registry's publish changes the registry, with the same reply |
| Linearizability.StampSimulates | crates/hub-index/src/postgres.rs:157-216 | A yank or unyank UPDATE does to the tables what the atomic one does to one release, and reports not-found exactly when there is none |
| Linearizability.StepLin | crates/hub-index/src/postgres.rs:33-216 | Forward simulation: each step extends the explanation of the history so far |
| Linearizability.Linearizable | crates/hub-index/src/postgres.rs:33-216 | Every run is linearizable: some order of the calls that returned a proper reply, consistent with real time, performed one at a time on an empty registry gives every caller its reply and ends in the tables |
| History.OrderReplays | crates/hub-index/src/postgres.rs:33-216 | Calls that were lost, or have not returned, left nothing behind: leaving them out of the replay changes neither registry nor replies |
| History.RealTime | crates/hub-index/src/postgres.rs:33-216 | A call that returned before another was made comes earlier in the linearization |
| History.OrderLinearizes | crates/hub-index/src/postgres.rs:33-216 | The points at which calls take effect give a linearization of the history |
| Runs.EachCallEnds | crates/hub-index/src/postgres.rs:33-216 | No call ever takes more than six steps, whoever else is running |
| Runs.TotalMovesBounded | crates/hub-index/src/postgres.rs:33-216 | A run of so many calls, all distinct, has at most six times as many steps besides |
| Runs.InsertNeverWaits | crates/hub-index/src/postgres.rs:88-110 | Past its first statement a publish never waits for another |
| Runs.WaitsExactly | crates/hub-index/src/postgres.rs:50-67 | A call waits exactly when it is about to upsert a skill that another open publish has upserted |
| Runs.AnyStatementMayFail | crates/hub-index/src/postgres.rs:64-65 | A call may lose its connection before any statement; it then hears of a database error and the tables are as they were |
| Runs.SomebodyMoves | crates/hub-index/src/postgres.rs:50-67 | No deadlock: a call that cannot move waits for one that can |
| Runs.RunsNeverStall | crates/hub-index/src/postgres.rs:112-128 | In no run is the re-read reached, and in every state whoever waits, waits for a call that can move |
| Runs.StuckMeansDone | crates/hub-index/src/postgres.rs:33-216 | A state of a run in which no call can move is one in which every call has ended |
| Runs.RunKeepsColumns | crates/hub-index/src/postgres.rs:50-138 | Over any stretch of any run a row stays, and its digest, manifest, artifact, signature, key, bundle, publisher and creation columns, and a skill's visibility and description, never change |
| Runs.OnlyYanksStamp | crates/hub-index/src/postgres.rs:157-216 | A version row, yank columns included, stays as it is until a yank or unyank of that very version runs; a repeated publish does not clear a yank |
| Runs.ErrorsChangeNothing | crates/hub-index/src/postgres.rs:75-86 | A call that reports an error (a digest conflict, a missing version, a database error) changes neither table at any of its steps |
| Yanks.YankStamps | crates/hub-index/src/postgres.rs:164-178 | A yank's UPDATE gives its time and reason to the rows whose skill has its namespace and name and whose version is its version; no other row or column changes |
| Yanks.UnyankClears | crates/hub-index/src/postgres.rs:195-206 | An unyank's UPDATE clears both columns of those rows, and changes nothing else |
| Yanks.UpdateStep | crates/hub-index/src/postgres.rs:157-216 | In every run a yank or unyank that runs its UPDATE does exactly that; it is acknowledged if such a row is there, and answered not-found with its own namespace, name and version if none is |
| Yanks.AckedCallsHappened | crates/hub-index/src/postgres.rs:157-216 | An acknowledged yank or unyank did its work on rows of its version at an earlier step |
| Runs.AnswersStand | crates/hub-index/src/postgres.rs:69-155 | What a successful caller was told stays true of the registry whatever calls follow |
| Runs.PublishesAgree | crates/hub-index/src/postgres.rs:69-155 | One row per namespace, name and version; every publish of it that returned a record returned that row's id and digest, and the digest is the one it asked for |
| Runs.LatestIsLastInserted | crates/hub-index/src/postgres.rs:130-138 | `latest_version` is the version inserted by the publish of that skill that committed last; repeats and refusals never move it, and a skill row exists exactly if one was inserted |
| Runs.FirstPublishFixesSkill | crates/hub-index/src/postgres.rs:50-67 | A skill's visibility, description and creation time are, in every state, those asked for by the publish that inserted its first version |
| Repository.OneRegistry | crates/hub-index/src/postgres.rs:33-216 | Valid tables hold exactly one registry |
| Repository.PgHubRepository.UpsertSkill | crates/hub-index/src/postgres.rs:50-67 | The upsert leaves the transaction holding the committed row of that key, or a new one under a free key |
| Repository.PgHubRepository.SelectRow | crates/hub-index/src/postgres.rs:69-74 | The SELECT yields the record of the version row, if there is one |
| Repository.PgHubRepository.AnswerRepeat | crates/hub-index/src/postgres.rs:75-86 | A version that is there already: replied to as the atomic registry does, tables unchanged |
| Repository.PgHubRepository.InsertNew | crates/hub-index/src/postgres.rs:88-154 | A version that is not: inserted whole, or on a lost connection not at all |
| Repository.PgHubRepository.InsertVersion | crates/hub-index/src/postgres.rs:33-155 | The whole call does to the tables and replies what the atomic publish does, or reports a database error and does nothing |
| Repository.PgHubRepository.Stamp | crates/hub-index/src/postgres.rs:157-216 | Yank and unyank, likewise |
| Service.ServiceRunInv | crates/hub-core/src/service.rs:89-149 | In every run of the service each repository call was let in by the gate for its request, the queue holds one event per success, and each event names a stored row |
| Service.RepliesDeliver | crates/hub-core/src/service.rs:103-122 | A reply of the repository always fits the request it answers, so it can be delivered |
| Service.EventsMatchSuccesses | crates/hub-core/src/service.rs:107-149 | The queued events are, one to one, those of the publish and yank requests that succeeded, each with its request's type, namespace, name, version and subject; each names a version row committed then and ever after |
| Service.RetryAddsNoRow | crates/hub-core/src/service.rs:103-116 | Two stored publishes of one release, such as one whose event failed and its retry, are answered from the one row there is; delivering the retry changes no row, and it succeeds and queues its one event exactly if the queue now works |
| Service.ReplyIsReturned | crates/hub-core/src/service.rs:103-106 | The service hears exactly the replies that repository calls returned |
| Verdicts.VerdictsAreTrue | crates/hub-core/src/service.rs:89-149 | In every state of every run the status of a request is true: the gate's error, the repository's error, a poisoned queue after a good reply, or success after a good reply |
| Admission.Process | crates/hub-core/src/service.rs:103-106 | The repository call made for a request carries the request's own values and its caller's subject |
| Admission.Provenance | crates/hub-core/src/service.rs:89-123 | Every stored version row, in every run, came from a publish request with the scope, the role, a subject, valid fields and files, a verified artifact and a passed trust check, and holds that request's values and that caller as `published_by` |
| Admission.ProcessReports | crates/hub-api/src/handlers.rs:172-187 | A publish and a yank become their call or the service's first complaint; an unyank needs the yank permission and nothing else |
| Admission.RestampsAuthorized | crates/hub-core/src/service.rs:125-137 | In every run a stored version row changes only when a yank or unyank request runs that names it by its columns, from a caller with the yank scope and a publisher or admin role in the namespace of that row; it then holds the request's time and reason, or none |
| Admission.SignedRowsVerify | crates/hub-api/src/state.rs:178-198 | In every run a stored signature is one that its stored key accepts for the stored manifest and digest; if no key ever accepts, no row has a signature |
| Admission.StoredVersionsParse | crates/hub-core/src/validation.rs:28-35 | In every run the tables are valid and every stored version is a semantic version |
| HubService.RuntimeWebhookQueue.Enqueue | crates/hub-api/src/state.rs:214-222 | Appends the event, or fails with a database error and appends nothing if the lock is poisoned |
| HubService.HubService.PassGates | crates/hub-core/src/service.rs:96-106 | The checks of `publish`, made in the service's order, give the gate's verdict |
| HubService.HubService.Publish | crates/hub-core/src/service.rs:89-123 | A refused request changes nothing; an admitted one runs the repository call whole or not at all, reports its error or record, and queues its event exactly if it reports success |
| HubService.HubService.Yank | crates/hub-core/src/service.rs:125-149 | The same for a yank |
| Gates.ValidatePublishRequest | crates/hub-core/src/service.rs:213-224 | The validator with its loop over the files reports the first complaint of all the checks in order |
| Gates.NamesExactly | crates/hub-core/src/validation.rs:8-26 | The namespaces and skill names accepted: which characters, not empty, no dot in front |
| Gates.CheckRequestExactly | crates/hub-core/src/service.rs:213-224 | The request validator passes exactly the requests whose namespace, name, version, digest and URL are valid and whose entry and every file are safe paths |
| Gates.CheckRequestReports | crates/hub-core/src/service.rs:213-224 | and otherwise reports the first thing wrong, with the offending value |
| Gates.PublishAdmitsExactly | crates/hub-core/src/service.rs:96-102 | A publish reaches the repository if and only if scope, role, subject, fields, files, artifact and trust all hold |
| Gates.PublishReports | crates/hub-core/src/service.rs:96-106 | A refused publish is told the first of: permission, fields, missing signature, artifact, trust, subject |
| Gates.YankReports | crates/hub-core/src/service.rs:133-136 | A refused yank is told the first of: permission, namespace, name, version |
| Gates.FetchedBytesMatch | crates/hub-storage/src/lib.rs:49-58 | Fetched bytes are handed on exactly when their hash is the one the digest spells |
| Gates.NamespacesAreRoleNamespaces | crates/hub-core/src/validation.rs:8-12 | Every valid namespace can be written in a role entry and read back |
| Auth.NewContext | crates/hub-core/src/auth.rs:24-40 | The loop over the grants builds, per namespace, the set of all roles granted there |
| Auth.PublishAllowedExactly | crates/hub-core/src/auth.rs:70-78 | A caller may publish exactly if the three headers are readable, name a subject, list `skills:publish`, hold role entries only, and one of them grants publisher or admin on that namespace; all said of the characters of the headers |
| Auth.YankAllowedExactly | crates/hub-core/src/auth.rs:80-88 | The same for yank and unyank with `skills:yank` |
| Auth.AnonymousMayNothing | crates/hub-api/src/handlers.rs:439-441 | Without a subject header the caller is accepted and may neither publish nor yank, whatever the other headers say |
| Auth.ParseRoleAccepts | crates/hub-api/src/handlers.rs:472-488 | An entry grants a role on a namespace exactly if it is the namespace, its first colon (or, without one, its first equals sign), and the word reader, publisher or admin |
| Auth.ParseRoleRefuses | crates/hub-api/src/handlers.rs:472-488 | Every other entry is an error |
| Auth.ParseRoles | crates/hub-api/src/handlers.rs:448-455 | Parsing a list of role entries succeeds exactly if each entry does, and yields exactly their grants |
| Text.TrimExactly | crates/hub-api/src/handlers.rs:446-452 | Trimming takes white space off both ends of an entry and nothing else |
| Text.WhitespaceCharacters | crates/hub-api/src/handlers.rs:446-452 | White space is the 25 characters with the Unicode White_Space property |
| Auth.ParseRoleExactly | crates/hub-api/src/handlers.rs:472-488 | A role entry reads back as written if and only if its namespace holds no colon |
| Auth.EntriesRoundTrip | crates/hub-api/src/handlers.rs:442-455 | A comma-separated list of clean entries reads back as that list |
| Auth.HeadersRoundTrip | crates/hub-api/src/handlers.rs:438-458 | Headers written for a caller read back as that caller, scopes and grants |
| Trust.ParseInvertsPrint | crates/hub-api/src/state.rs:225-233 | A parser inverts the signed text for all manifests and digests, whatever characters their strings hold (section 7 of RFC 8259) |
| Trust.TrustTextIs | crates/hub-api/src/state.rs:225-233 | The signed text, outright: the five fields under their names in order, strings quoted with the escapes of serde_json, null for no description, the bar, the digest |
| Trust.EscapesAreShown | crates/hub-api/src/state.rs:226-229 | Which escape stands for which character (section 7 of RFC 8259); all others stand for themselves |
| Trust.PlainIsShown | crates/hub-api/src/state.rs:225-233 | Text without quotes, backslashes and control characters, slashes included, is signed as it is |
| Trust.BuildTrustMessage | crates/hub-api/src/state.rs:225-233 | Serializing, pushing the bar and extending by the digest yields the UTF-8 bytes of that text |
| Trust.TrustMessageInjective | crates/hub-api/src/state.rs:225-233 | Two requests have equal trust messages if and only if their manifests and digests are equal |
| Trust.SignatureDecides | crates/hub-api/src/state.rs:179-190 | For a 32-byte key and a 64-byte signature in hex and no bundle, Ed25519 on the trust message alone decides between pass and a trust failure |
| Trust.VerifiesExactly | crates/hub-attestation/src/ed25519.rs:5-32 | A pair verifies exactly if the texts are hex, in either case, of a 32-byte key and a 64-byte signature that accept the message |
| Trust.BundleExactly | crates/hub-attestation/src/sigstore.rs:7-38 | A bundle is accepted exactly if it is an object with a Sigstore media type, verification material, and a message signature or an envelope |
| Trust.TrustedRequests | crates/hub-api/src/state.rs:178-204 | The trust check passes exactly with a pair that verifies or no half of one, and an accepted bundle or none; otherwise it reports a trust failure |
| Utf8.EncodeCharExactly | crates/hub-api/src/state.rs:225-233 | Each character becomes its UTF-8 bytes (section 3 of RFC 3629) |
| Digest.PushHexByte | crates/hub-storage/src/lib.rs:87-92 | Pushes the two hex digits of the byte, high nibble first |
| Digest.HexDigits | crates/hub-storage/src/lib.rs:87-92 | The digits are those of the table, in lower case |
| Digest.DigestText | crates/hub-storage/src/lib.rs:76-85 | The loop over the hash yields the prefix and the hex of all its bytes |
| Digest.VerifyDigest | crates/hub-storage/src/lib.rs:49-58 | The check as it runs: normalize the expected digest, compute the actual one, compare |
| Digest.DecodeInvertsEncode | crates/hub-storage/src/lib.rs:76-92 | Decoding hex inverts encoding, for all byte strings |
| Digest.EncodeInvertsDecode | crates/hub-storage/src/lib.rs:60-74 | Encoding decoded hex gives the text back in lower case |
| Digest.NormalizeAcceptsDigests | crates/hub-core/src/validation.rs:37-49 | The storage normaliser accepts exactly what the validator accepts; its result is the input with its letters lowered, and it leaves that alone |
| Digest.ComputedDigestIsNormal | crates/hub-storage/src/lib.rs:76-85 | A computed digest is valid and unchanged by the normaliser |
| Digest.VerifyMeansEqualBytes | crates/hub-storage/src/lib.rs:49-58 | Verification succeeds if and only if the expected digest is valid and its hex, in any letter case, decodes to the hash |
| Digest.DigestExactly | crates/hub-core/src/validation.rs:37-49 | A digest is `sha256:` and 64 hex digits of either case |
| Digest.VerifyReports | crates/hub-storage/src/lib.rs:49-58 | What a failed verification reports, and in which form |
| SkillPath.ValidateSkillPath | crates/hub-core/src/validation.rs:51-78 | The loop over components, pushing onto the growing path, computes the validator's function |
| SkillPath.AcceptsExactlySafe | crates/hub-core/src/validation.rs:51-78 | Exactly the relative paths without backslash, drive prefix or `..`, and with something left, are accepted; the result joins their plain components |
| SkillPath.DriveExactly | crates/hub-core/src/validation.rs:112-115 | A drive prefix is an ASCII letter and a colon |
| SkillPath.NormalizedMeansTheSame | crates/hub-core/src/validation.rs:57-77 | The result splits back into its components, none empty, `.` or `..`, and from any directory leads where the input leads, below that directory |
| SkillPath.FixedPointExactly | crates/hub-core/src/validation.rs:51-78 | Validating the result again gives it unchanged if and only if the first component of the input that is kept has no drive prefix |
| SkillPath.DrivePrefixSurfaces | crates/hub-core/src/validation.rs:112-115 | `./C:` and its like are accepted, and their results are not |
| SemVer.PrintParse | crates/hub-core/src/validation.rs:28-35 | What parses as a version prints back as the same text |
| SemVer.ParsePrint | crates/hub-core/src/validation.rs:28-35 | Every well-formed version's text parses as that version |
| SemVer.ParseAcceptsExactly | crates/hub-core/src/validation.rs:28-35 | Accepted text and well-formed versions correspond one to one |
| SemVer.ParsesExactly | crates/hub-core/src/validation.rs:28-35 | A text parses as a version exactly if sections 2, 9 and 10 of Semantic Versioning 2.0.0 write that version so, with 64-bit numbers |
| Precedence.NumeralOrder | crates/hub-index/src/postgres.rs:343-348 | Comparing numeric identifiers by length, then text, compares their values |
| Precedence.ComparatorRefinesPrecedence | crates/hub-index/src/postgres.rs:343-348 | On accepted text the comparator is section 11 of Semantic Versioning 2.0.0, with build metadata, numbers by value and then by length, deciding only its ties |
| Precedence.ComparatorIsStrictTotal | crates/hub-index/src/postgres.rs:343-348 | On accepted text it is a strict total order, and distinct texts never tie |
| Precedence.FallbackTransitiveExactly | crates/hub-index/src/postgres.rs:343-348 | On arbitrary text, transitivity fails exactly when a text that does not parse lies between two versions that SemVer orders the other way |
| Precedence.FallbackCycle | crates/hub-index/src/postgres.rs:343-348 | It does fail: `1.2.0` < `1.10.0` < `1.10x` < `1.2.0` |
| Sorting.SortInPlace | crates/hub-index/src/postgres.rs:243-247 | An in-place sort computes the specification's sort |
| Sorting.SortIsStableSort | crates/hub-index/src/postgres.rs:243-247 | That is sorted, a permutation, and stable |
| Sorting.StableSortIsUnique | crates/hub-index/src/postgres.rs:243-247 | Any stable sort, by whatever algorithm, gives the same result |
| Sorting.SortIgnoresOrder | crates/hub-index/src/postgres.rs:310-314 | Where only identical elements tie, the input order does not show |
| Index.CollectAndSort | crates/hub-index/src/postgres.rs:281-317 | Collecting the hits and sorting them in place yields the index of the rows |
| Index.HitsLawful | crates/hub-index/src/postgres.rs:310-314 | The hit comparator obeys the laws of an order when all versions parse |
| Index.NamespaceIndexExact | crates/hub-index/src/postgres.rs:281-317 | A namespace index strictly increases by name, then by SemVer, with exactly one hit for each public, unyanked version of the namespace |
| Index.NamespaceIndexIgnoresOrder | crates/hub-index/src/postgres.rs:281-317 | It is the same sequence for every order in which the database may return the rows |
| Index.GlobalIndexIsTheUnion | crates/hub-index/src/postgres.rs:218-250 | The global index is sorted and, labels aside, as a multiset the sum of the indexes of all namespaces |
| Artifacts.ArtifactVersionExactly | crates/hub-api/src/handlers.rs:325-334 | An artifact name reads as a version and kind if and only if it is that version with that suffix appended |
| Text.SuffixMeaning | crates/hub-api/src/handlers.rs:325-334 | Ending in a suffix means being something and the suffix |
| Artifacts.LookupFindsTheLeast | crates/hub-index/src/postgres.rs:252-279 | The lookup yields the record of the least namespace with that public name and version, whatever the row order, and fails exactly when none has it |
| Artifacts.LookupMatchesIndex | crates/hub-index/src/postgres.rs:252-279 | A record is found if and only if the global index lists the name and version |
| Artifacts.RecordAgreesExactly | crates/hub-index/src/postgres.rs:252-279 | The record's digest, signature and key equal those of every such hit if and only if all namespaces that have the version agree on them |
| Artifacts.OneNamespaceAgrees | crates/hub-index/src/postgres.rs:252-279 | They do when one namespace has it |
| Artifacts.ServedByName | crates/hub-api/src/handlers.rs:293-323 | Every version is served under its name with either suffix |
| Artifacts.ServedExactly | crates/hub-api/src/handlers.rs:293-323 | `version.tar.zst.sig` gets the signature of the least namespace's row and a newline, or not found if it has none; `version.tar.zst` gets the bytes at its URL under its media type if they hash to its digest, else a verification error |
| Artifacts.MissingIsReported | crates/hub-api/src/handlers.rs:302-303 | A version no public row has is reported missing under both names |
| Artifacts.OtherNamesNotFound | crates/hub-api/src/handlers.rs:299-301 | A name with neither suffix is not found |
| Artifacts.ServedBytesMatchRecord | crates/hub-api/src/handlers.rs:310-322 | Bytes are served exactly when those at the record's URL hash to its digest, and the bytes served do |
| Artifacts.ServedBytesMatchIndex | crates/hub-api/src/handlers.rs:293-323 | Where the namespaces agree, the bytes served hash to the digest that the index lists |
| Search.RankDocuments | crates/hub-search/src/lexical.rs:3-24 | The loop and the in-place sort compute the ranking |
| Search.ScoreMeaning | crates/hub-search/src/lexical.rs:26-46 | A document scores exactly if the query occurs in its name or description; the score says whether the name equals, starts with or contains it |
| Text.PrefixMeaning | crates/hub-search/src/lexical.rs:32-33 | Starting with the query means being the query and more |
| Text.ContainsMeaning | crates/hub-search/src/lexical.rs:34-40 | Containing the query means having it between two parts |
| Search.RankPermutesMatches | crates/hub-search/src/lexical.rs:9-12 | The ranking is a permutation of the documents that match |
| Search.RankOrdersTiers | crates/hub-search/src/lexical.rs:14-21 | All exact matches, then other prefix matches, then other names that contain the query, then the rest; within a tier by name, namespace, version text |
| Search.RankIgnoresOrder | crates/hub-search/src/lexical.rs:3-24 | With distinct keys the input order does not show |
| IndexSearch.CompatibilityIndex.Truncate | crates/hub-api/src/handlers.rs:386-390 | Keeps the prefix that the limit allows |
| IndexSearch.FindHit | crates/hub-api/src/handlers.rs:249-253 | Yields the first hit of that name and version, if the index has one |
| IndexSearch.FilteredSearchIndex | crates/hub-api/src/handlers.rs:225-260 | The handler with its loops computes the filtered search, and with search terms leaves the index alone |
| IndexSearch.ListingIsCut | crates/hub-api/src/handlers.rs:231-234 | Without search terms the listing is the index cut to the limit |
| IndexSearch.SearchFindsExactly | crates/hub-api/src/handlers.rs:234-260 | A search finds exactly the matching hits, each as often as listed, if and only if each is the first in the index of its name and version |
| IndexSearch.SearchKeepsRankOrder | crates/hub-api/src/handlers.rs:244-255 | Then the found hits stand in the order of the ranked documents, one for one |
| IndexSearch.NamespaceSearchExact | crates/hub-api/src/handlers.rs:225-260 | In one namespace that is always so; the limit cuts the result to a prefix |
| IndexSearch.GlobalSearchExact | crates/hub-api/src/handlers.rs:225-260 | In the whole registry it is so when public rows that share name and version, one of them matching, make the same hit |
| IndexSearch.GlobalSearchExactly | crates/hub-api/src/handlers.rs:225-260 | And only then: that condition on the tables is equivalent to an exact search for every order by name in which the database may return the rows |
| IndexSearch.VersionPageExactly | crates/hub-api/src/handlers.rs:103-117 | The page of a version shows the hit of the one public row that has it, and is missing exactly if there is none |
| Views.IndexShowsRegistry | crates/hub-index/src/postgres.rs:281-317 | The namespace index shows the public, unyanked releases of the atomic registry, all of them and nothing else |
| Views.ReachableIndexMoves | crates/hub-index/src/postgres.rs:33-216 | From one state of a run of the service to the next, the namespace index changes as the one call that took effect, if any, has it: a yank removes its version, an unyank restores it, a new publish adds it if public, a repeat changes nothing |
| Views.ReachableIndex | crates/hub-index/src/postgres.rs:281-317 | In every state of every run of the service, the namespace index strictly increases and shows exactly what the calls so far, one after another, leave public and unyanked |
| Clash.RivalsMeet | crates/hub-core/src/service.rs:89-123 | Any two admitted requests that publish one name and version in two namespaces can both become public in one run |
| Clash.ClashReached | crates/hub-api/src/handlers.rs:225-323 | So a deployment that allows unsigned artifacts, given two archives of different hash, reaches a state in which the artifact record contradicts a hit of the index, and a search is not exact for some order of the rows |
| Views.ReachableViewsAgree | crates/hub-index/src/postgres.rs:218-317 | There, too, row order does not show, and the global index is the namespaces' together |

## Left out

- SHA-256 and Ed25519: functions given to the model, of fixed sizes; nothing is claimed about their strength.
- Fetching artifacts, S3, OCI and file clients, endpoint building: what lies at a URL is a parameter, and only the digest check on it is modelled.
- `url::Url` parsing and `validate_artifact_url`: a predicate that the deployment supplies.
- The `semver` crate is not part of this model's source; its parser and order are modelled from Semantic Versioning 2.0.0, its 64-bit number fields, and its documented order on build metadata. Its error values are not modelled, only that there is one.
- UUIDs and clocks: each call mints ids that carry its own number, and is given its time, which the database may round.
- A commit that succeeds but reports failure: a commit here does one or the other.
- Causes of database errors (constraint violations on text with NUL characters, timeouts, pool exhaustion): one database error that any statement may give. Messages of errors are not modelled.
- Database collation: `ORDER BY namespace` is taken to be byte order. For the indexes every row order is covered.
- Rust's sorting algorithm: an insertion sort stands in for it; `Sorting.StableSortIsUnique` shows the result is the same.
- UTF-8 and `char`: strings are sequences of characters, compared by code point, which is byte order in UTF-8.
- `str::to_lowercase`: an arbitrary function in search; lengths of folded text are not assumed.
- Windows path semantics: Unix path components only.
- Sigstore bundles: `Value::to_string` followed by parsing is taken to give the value back; the check is of shape only, as in the code.
- `lexical_rank` breaks ties by version text, not by semantic version, so among equal names it may list `1.10.0` before `1.9.0`; the model follows the code.
- Path-name and manifest-name comparison, and the additional permission check, in the publish handler: branches before the gates that only refuse.
- `get_skill` and `list_versions`: they filter the namespace index by name.
- Fixture mode, routing, health, metrics, webhook subscriptions and delivery, semantic (vector) search, `can_read`: stubs, I/O, or one-branch claims.
- A handler future dropped between the repository's reply and the event: the request stays at work for ever in the model, and neither succeeds nor queues.
- Repository.PgHubRepository.InsertNew: has no re-read branch, because nothing interleaves there; the branch is in `Protocol`, where `Invariants.InsertInserts` shows it is not taken.
