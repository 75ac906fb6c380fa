# Gradatum administration commands: a Dafny model and its proofs

This project models the parts of `gradatum-admin` that change durable state, and proves what they
promise over whole runs: every input, every interruption, every interleaving. `dafny verify
dfyconfig.toml` checks all of it. The proofs are about the model; no part of the original program was executed.

## What is modelled

**Code map** (`CodeIndex`, `CodeIngest`, `CodeRouting`, `GitDiff`, `CodeUpdate`, `CodeRuns`, `CodeHistory`,
`CodeInterrupt`, `CodeVault`). `code ingest` and `code update` turn a repository into index rows. A run is a
deterministic *plan*, the list of its durable steps in order; a crash cuts the plan after any number of steps.
The reference index is a plain function of the tree (`CodeIngest.Reference`), and the fast paths (skip by hash,
replay of a git diff) are proved equal to it, or proved equal exactly when a stated condition holds. The marker
file and its retry counter are part of the state. The class `CodeVault.Vault` has the loops of the two commands.

**API keys** (`KeyPrefix`, `ApiKeyTable`, `ApiKeyRuns`, `ApiKeyGrants`, `ApiKeyRaces`, `ApiKeyCli`,
`ApiKeyStore`). The `api_keys` table under every interleaving of the separately locked steps of create, revoke
and rotate, also with the administration guard in front of a creation, and the administration commands run one
at a time. `KeyPrefix` works on the bytes of section 3 of RFC 3629.

**Initialisation** (`ConfigMerge`, `InitRun`, `InitKey`). `init` as a plan that may fail before any write,
including the merge of an old `server.toml` into the new template and the bootstrap key it mints.

**CHANGELOG back-fill** (`ChangelogParse`, `ChangelogLines`, `ChangelogTitles`, `MarkerMatch`, `SourceMarkers`,
`ProjectCard`, `CardRender`, `ParsedCards`, `CardMarkers`, `ProjectScope`, `CardTitles`, `ChangelogBackfill`,
`MarkerQuery`). From lines to entries, from entries to cards, from cards back to typed links and counters, the
back-fill run against a server that may fail, and the staged query behind its marker guard.

**Repairs** (`BackfillAuthors`, `AuthorRuns`, `AuthorVault`, `ReindexOrphans`, `OrphanVault`, `OrphanRuns`).
Attribution of notes and re-indexing of orphan files, interrupted anywhere and run again.

**ACL engine** (`AclEngine`). The compiled glob sets against the rule over the preset's own patterns.

## Where the code and its description differ

Each of these follows the code. Each names a lemma that exhibits the failing case and, where the promise holds
on some inputs, the lemma that says on which.

- An index skips a file whose hash is unchanged even when the visibility changed
  (`CodeIngest.VisibilityChangeIsSkipped`, `CodeIngest.FastIngestExactIff`).
- The circuit breaker stops the file loop and the run then counts as complete, its marker removed, with the
  files behind the breaker missing (`CodeIngest.TrippedRebuildLooksComplete`, `CodeIngest.RebuildExactIff`).
- A changed file that no longer reads, decodes or parses is skipped, and its old notes stay in the index
  (`CodeHistory.SpoiledFileKeepsItsNotes`, `CodeUpdate.UpdateExactIff`, `CodeIngest.FastIngestExactIff`).
- A diff update starts from the sha most rows carry, not from the last synchronised commit, so a file that is
  reverted in between goes stale (`CodeHistory.RevertedFileGoesStale`, `CodeUpdate.UpdateExactIffNothingReverted`).
- An interrupted diff update leaves no marker, and the next update may start from another base and keep what
  the cut left behind (`CodeHistory.InterruptedUpdateIsNotCovered`, `CodeInterrupt.NextUpdateExactIff`).
- The scope guard of `api-key rotate` can never refuse (`ApiKeyCli.RotationScopeGuardNeverRefuses`).
- The one-active-key rule is checked under another lock than the insert, so two racing creations break it
  (`ApiKeyRaces.RacingCreatesBreakTheRule`, `ApiKeyRaces.RuleKeptIff`).
- A `server.toml` with both spellings of the storage root loses the new one
  (`ConfigMerge.BothSpellingsLoseTheNewOne`, `ConfigMerge.BackupLeafSurvives`).
- An interrupted `init --force` lets the next plain `init` replace the operator's preset
  (`InitRun.InterruptedForceReplacesThePreset`, `InitRun.PresetAfterRun`).
- `init` inserts the bootstrap key before it writes the secret, and skips the mint when an active key is there, so
  an init interrupted in between leaves a key that nobody holds and that no later init replaces
  (`InitKey.InterruptedMintIsNeverRepaired`, `InitKey.KeyHeldForeverIff`).
- Backups of the preset are named to the second, so two overwriting inits within one second lose a preset
  (`InitRun.SameSecondLosesAPreset`, `InitRun.PresetsKeptIff`).
- The marker search resumes behind a rejected occurrence and so misses an overlapping one
  (`MarkerMatch.ElevenIsMissed`, `MarkerMatch.MatchesExactIff`); rendered markers are not affected. A card whose
  title spells another marker out does match that marker (`CardMarkers.CardMatchesIff`).
- The marker query tests titles on the first page of hits only, so a match by title alone is forgotten once the
  ranking moves the card (`MarkerQuery.TitleOnlyMatchIsForgotten`, `MarkerQuery.StagedIff`).
- The title escape is a single pass, so a triple bracket still opens a link, and the link can set the status
  of the new card (`CardRender.TripleBracketAddsLink`, `ParsedCards.TitleMovesTheCard`, `CardRender.CardConformsIff`).
- One malformed note stops the author back-fill for every note behind it, and a limit can select only notes
  that are skipped every time (`AuthorRuns.MalformedNoteHidesTheRest`, `AuthorRuns.SkippedNoteStarvesTheLimit`,
  `AuthorRuns.AttributedIff`, `AuthorRuns.ChangesNothingIff`).
- The author back-fill orders by creation time alone, so with equal times a second run may do what the first
  could not (`AuthorRuns.TiedTimesLetANoteThrough`, `AuthorRuns.SecondRunChangesNothing`).
- The path guard of `reindex-orphans` compares against the command's tenant while the write funnel uses the
  note's own vault (`OrphanRuns.ForeignNoteIsCopied`, `ReindexOrphans.FilesUnchangedIff`).
- The preview of `reindex-orphans` counts an unreadable file as malformed, while the real run stops there with
  an error (`OrphanRuns.UnreadableFileHidesTheRest`, `OrphanRuns.PreviewAgreesIff`).
- `acl validate` can warn about a repeated identity that does read
  (`AclEngine.RepeatedIdentityIsWarnedYetReads`, `AclEngine.ReadsNothingIff`).

## Model

| member | source | states |
|---|---|---|
| `CodeIndex.RoutingCoversFilter` | crates/gradatum-admin/src/code_cmd.rs:1041-1062 | every path the extension filter lets through is routed to a parser, and no other path is |
| `CodeRouting.RoutedIff` | crates/gradatum-admin/src/code_cmd.rs:1041-1062 | a path is routed to a language if and only if it has one of that language's extensions, and no path has two |
| `CodeIndex.AttemptsRoundTrip` | crates/gradatum-admin/src/code_cmd.rs:94-115 | the attempt count written to the marker is the one read back, for every count the counter can hold |
| `CodeIngest.IngestLookup` | crates/gradatum-admin/src/code_cmd.rs:389-594 | the row of every path after a completed ingest, whatever reads or parses: fresh where the file loop comes to it before the breaker trips, as the opening left it elsewhere, gone where git no longer lists it; the marker is removed either way |
| `CodeIngest.RebuildExactIff` | crates/gradatum-admin/src/code_cmd.rs:435-555 | a rebuild is exact, whatever was there before, if and only if every listed file that has notes is reached before the breaker trips |
| `CodeIngest.TrippedRebuildLooksComplete` | crates/gradatum-admin/src/code_cmd.rs:520-594 | a concrete tree whose rebuild ends without a marker and without one of its files |
| `CodeIngest.RebuildIsExact` | crates/gradatum-admin/src/code_cmd.rs:301-384 | when every listed file parses, a rebuild, asked for or forced by a marker, ends with exactly the rows the tree determines |
| `CodeRouting.NotesByExtension` | crates/gradatum-admin/src/code_cmd.rs:452-530 | the notes of a readable relative file are those of the parser of its extension, asked for private items at `All` only, and never in a shell script |
| `CodeRouting.NoNotesElsewhere` | crates/gradatum-admin/src/code_cmd.rs:452-530 | an absolute path, a missing file, one that does not decode and one with another extension have no notes |
| `CodeRouting.RebuiltRow` | crates/gradatum-admin/src/code_cmd.rs:435-555 | after a completed rebuild of a tree in which everything parses, the row of each listed file holds the hash of its bytes, the head commit and what the parser of its language makes of it |
| `CodeRouting.ThirdFailureIsTheFirstToTrip` | crates/gradatum-admin/src/code_cmd.rs:521-555 | the breaker opens at the third failure in a row and not before |
| `CodeRouting.RefusedFromThree` | crates/gradatum-admin/src/code_cmd.rs:94-115 | a marker refuses the run from the third attempt on, also with blanks or a plus sign around the number; one that holds no number does not |
| `CodeIngest.FastIngestExactIff` | crates/gradatum-admin/src/code_cmd.rs:435-579 | whatever reads or parses, an ingest that skips by hash is exact if and only if it leaves no listed path wrong: a row for a file that has no notes, the current hash over other notes, or a file to write behind a tripped breaker |
| `CodeIngest.SecondIngestWritesNothing` | crates/gradatum-admin/src/code_cmd.rs:452-530 | on an exact index a plain ingest plans no batch and no deletion, also when some files do not parse |
| `CodeIngest.VisibilityChangeIsSkipped` | crates/gradatum-admin/src/code_cmd.rs:452-530 | a concrete index whose visibility changes and whose notes do not |
| `GitDiff.ParseNameStatus` | crates/gradatum-admin/src/code_cmd.rs:926-977 | the queue loop computes the pairs of the NUL-separated stream; `GitDiff.ParsedIff` says which status letter makes which change |
| `GitDiff.NameStatusRoundTrip` | crates/gradatum-admin/src/code_cmd.rs:953-977 | every printed list of status letters and paths is read back, in order: A, M and T as a change, D as a deletion, the other letters dropped |
| `GitDiff.ParsedIff` | crates/gradatum-admin/src/code_cmd.rs:953-977 | a printed list yields a change of a path if and only if it prints the path with A, M or T, and a deletion if and only if it prints it with D |
| `CodeUpdate.LastIngestedSha` | crates/gradatum-index/src/sqlite.rs:6987-7012 | the base commit is a non-empty sha carried by the most rows, the greatest one on a tie |
| `CodeUpdate.LastShaUnique` | crates/gradatum-index/src/sqlite.rs:6987-7012 | the sha query has one answer |
| `CodeUpdate.UpdateLookup` | crates/gradatum-admin/src/code_cmd.rs:779-885 | the row of every path after a completed diff update, whatever reads or parses: fresh where a listed change is a deletion or a file that reads, decodes and parses, as before elsewhere |
| `CodeUpdate.PrintedChangeIsApplied` | crates/gradatum-admin/src/code_cmd.rs:779-885 | a supported path that git prints with A, M or T, and whose file has notes, ends with the row of that file; one that it prints with D ends without a row |
| `CodeRouting.UpdateVisibility` | crates/gradatum-admin/src/code_cmd.rs:701-765 | an update without an override works at the visibility of the last completed ingest, and public when there was none or a marker forces a rebuild; an override always wins |
| `CodeUpdate.UpdateExactIff` | crates/gradatum-admin/src/code_cmd.rs:666-902 | a diff update is exact if and only if every path it does not rewrite was right before: the unlisted ones and the listed files that do not read, decode or parse |
| `CodeUpdate.UpdateExactIffNothingReverted` | crates/gradatum-admin/src/code_cmd.rs:666-902 | from an index exact at an earlier tree it is exact if and only if every path it does not rewrite has the notes it had in that tree |
| `CodeUpdate.UpdateFromBaseExactIff` | crates/gradatum-admin/src/code_cmd.rs:779-885 | from an index exact at the base only the listed files matter that do not read, decode or parse: it is exact if and only if each has the notes it had at the base |
| `CodeRuns.CutIngestIsCovered` | crates/gradatum-admin/src/code_cmd.rs:301-384 | an ingest cut before its end leaves the marker behind, or has not changed a row |
| `CodeRuns.CrashSafety` | crates/gradatum-admin/src/code_cmd.rs:301-594 | after any sequence of ingests, each cut anywhere, a vault without a marker holds the rows of the last completed one |
| `CodeRuns.BoundedRetries` | crates/gradatum-admin/src/code_cmd.rs:301-384 | over any mix of cut ingests and updates and removals by hand, at most four drops happen between two removals of the marker |
| `CodeRuns.RefusedForever` | crates/gradatum-admin/src/code_cmd.rs:301-345 | once the counter is at its limit every later call leaves the vault as it is |
| `CodeHistory.HistoryKeepsProvenance` | crates/gradatum-admin/src/code_cmd.rs:435-594 | through any history at one visibility, every row carries notes that its own hash explains |
| `CodeHistory.IngestAfterAnyHistoryExactIff` | crates/gradatum-admin/src/code_cmd.rs:260-608 | after any such history the next completed ingest is exact if and only if it misses no listed path: a row for a file without notes, or a file without its current row behind a tripped breaker |
| `CodeHistory.IngestAfterAnyHistoryIsExact` | crates/gradatum-admin/src/code_cmd.rs:260-608 | in particular it is exact when every listed file parses |
| `CodeHistory.SyncsStayExact` | crates/gradatum-admin/src/code_cmd.rs:698-885 | any chain of ingests and diff updates stays exact over commits in which nothing is reverted, no file with notes turns unreadable, and no ingest trips its breaker, for a git that knows the commits synchronised before |
| `CodeHistory.SpoiledFileKeepsItsNotes` | crates/gradatum-admin/src/code_cmd.rs:850-868 | a concrete file that no longer decodes and whose old row a completed update keeps |
| `CodeHistory.InterruptedUpdateResumes` | crates/gradatum-admin/src/code_cmd.rs:779-885 | an update cut anywhere and run again from the same base ends in the rows of the uninterrupted one |
| `CodeHistory.RevertedFileGoesStale` | crates/gradatum-admin/src/code_cmd.rs:698-777 | a concrete history after which a completed update leaves a wrong row |
| `CodeHistory.InterruptedUpdateIsNotCovered` | crates/gradatum-admin/src/code_cmd.rs:779-885 | a concrete cut update that leaves no marker and whose next update starts from another base and stays wrong |
| `CodeInterrupt.UpdateCut` | crates/gradatum-admin/src/code_cmd.rs:779-885 | the row of every path after an update cut anywhere: the new one where it came to it, an empty row in the middle of a deletion, as before elsewhere |
| `CodeInterrupt.NextUpdateExactIff` | crates/gradatum-admin/src/code_cmd.rs:666-902 | after a cut update the next update, from any base and at any commit, is exact if and only if every path it does not rewrite was left by a finished step and has the notes of the tree its row was taken from |
| `CodeVault.Vault.IngestFiles` | crates/gradatum-admin/src/code_cmd.rs:435-555 | the file loop performs phase 1 of the plan up to the fault, with the circuit breaker, and counts files and notes |
| `CodeVault.Vault.PropagateDeletions` | crates/gradatum-admin/src/code_cmd.rs:557-579 | the deletion loop performs phase 2 of the plan up to the fault |
| `CodeVault.Vault.RunIngest` | crates/gradatum-admin/src/code_cmd.rs:260-608 | the command leaves the state of its cut plan, refuses exactly at the attempt limit, and fails exactly when a step before the last one does; what the plan writes into a row is `CodeRouting.RebuiltRow` and `CodeIngest.IngestLookup` |
| `CodeVault.Vault.RunUpdate` | crates/gradatum-admin/src/code_cmd.rs:666-977 | the command leaves the state of its cut plan, for the base the sha query answers; it fails exactly on a refused ingest, an interrupted step or a `git diff` that fails on that base; what the plan does with each printed change is `CodeUpdate.PrintedChangeIsApplied` |
| `KeyPrefix.DerivePrefix` | crates/gradatum-acl-auth/src/api_key.rs:494-501 | the byte loop yields the longest run of whole characters within eleven bytes, for every string |
| `KeyPrefix.FittingIsLongest` | crates/gradatum-acl-auth/src/api_key.rs:494-501 | a number of leading characters fits the budget if and only if it is at most the computed one |
| `KeyPrefix.BoundaryIsCharacterCount` | crates/gradatum-acl-auth/src/api_key.rs:494-501 | every character boundary of the encoded bytes ends a whole number of characters |
| `KeyPrefix.DecodeRoundTrip` | crates/gradatum-acl-auth/src/api_key.rs:494-501 | the bytes of a character, as section 3 of RFC 3629 lays them out, give the character back |
| `KeyPrefix.GeneratedPrefix` | crates/gradatum-acl-auth/src/api_key.rs:474-478 | a generated key is cut after eleven characters |
| `ApiKeyRuns.EveryRunKeepsInvariant` | crates/gradatum-acl-auth/src/api_key.rs:719-1137 | under every interleaving prefixes stay unique, rows are the secrets handed out, each revocation belongs to exactly one successful call, and active keys of a grant are its creations minus its revocations |
| `ApiKeyRuns.RunGrows` | crates/gradatum-acl-auth/src/api_key.rs:984-1137 | under every interleaving no row is deleted or rewritten: rows are appended, and an empty revocation time is set once |
| `ApiKeyRuns.LosingRotateLeavesNoRow` | crates/gradatum-acl-auth/src/api_key.rs:1033-1137 | a rotation that loses the race leaves the table as it was |
| `ApiKeyRuns.VerifyIsExact` | crates/gradatum-acl-auth/src/api_key.rs:803-905 | after any run from an empty store a string authenticates if and only if it was handed out and not revoked, and it gets the grant it was issued with |
| `ApiKeyCli.RotationScopeGuardNeverRefuses` | crates/gradatum-admin/src/api_key_cmd.rs:508-537 | the guard accepts every scope list, also one that `create` refuses |
| `ApiKeyCli.CreateCommandIff` | crates/gradatum-admin/src/api_key_cmd.rs:356-413 | `api-key create` adds one row, with exactly the grant it was given, if and only if the owner is declared, has no active key and is not a person, a write scope is there exactly when the key is not read-only, the tenant is allowed and a secret has a free prefix |
| `ApiKeyGrants.EveryGrantWasAsked` | crates/gradatum-acl-auth/src/api_key.rs:719-790 | over every interleaving no row has a `person/` owner, a row outside the main tenant was asked for with the override, every row carries the owner, scopes and tenant of a permitted request, and every answer is one to the request of its own call |
| `ApiKeyGrants.UndisturbedRevoke` | crates/gradatum-acl-auth/src/api_key.rs:984-1031 | a revocation that nothing disturbs: not found, already revoked, or the row stamped and every other row kept |
| `ApiKeyGrants.UndisturbedRotate` | crates/gradatum-acl-auth/src/api_key.rs:1033-1145 | a rotation that nothing disturbs: an error and no change, or the old row stamped and a new one with its owner, scopes and tenant and the new secret |
| `ApiKeyCli.SequentialRunsKeepR1` | crates/gradatum-admin/src/api_key_cmd.rs:356-413 | every sequence of create, rotate, revoke, reset and bootstrap mint keeps at most one active key per owner |
| `ApiKeyRaces.RuleKeptIff` | crates/gradatum-admin/src/api_key_cmd.rs:381-404 | under every interleaving the rule holds throughout if and only if no insert finds an active key of its owner |
| `ApiKeyRaces.UndisturbedRunsKeepTheRule` | crates/gradatum-admin/src/api_key_cmd.rs:381-404 | with every creation guarded and none of the same owner between a guard and its insert, every interleaving keeps the rule throughout |
| `ApiKeyRaces.RacingCreatesBreakTheRule` | crates/gradatum-admin/src/api_key_cmd.rs:381-404 | a concrete interleaving of two guarded creations that ends with two active keys of one owner |
| `ApiKeyCli.HasAnyActiveAgreesWithList` | crates/gradatum-acl-auth/src/api_key.rs:1147-1161 | the existence query agrees with the list-based default |
| `ApiKeyCli.ListMembers` | crates/gradatum-acl-auth/src/api_key.rs:907-927 | a listing holds the keys of the tenant asked for, or of every tenant, and revoked ones only on demand |
| `ApiKeyCli.ResetRevokesEveryKey` | crates/gradatum-admin/src/api_key_cmd.rs:558-637 | a confirmed reset leaves no active key and every row; any other echo changes nothing |
| `ApiKeyStore.SqliteApiKeyStore.CreateKey` | crates/gradatum-acl-auth/src/api_key.rs:719-801 | the insert loop with its one retry, its guards and its errors |
| `ApiKeyStore.SqliteApiKeyStore.Revoke` | crates/gradatum-acl-auth/src/api_key.rs:984-1031 | the row it changes and the error it returns, in every case |
| `ApiKeyStore.SqliteApiKeyStore.Rotate` | crates/gradatum-acl-auth/src/api_key.rs:1033-1137 | the table of the rotation, when each error is returned, and that a failure changes nothing |
| `ApiKeyStore.SqliteApiKeyStore.HasActive` | crates/gradatum-acl-auth/src/api_key.rs:1147-1161 | the scan that stops at the first active row answers as the listing does |
| `ApiKeyStore.SqliteApiKeyStore.RunReset` | crates/gradatum-admin/src/api_key_cmd.rs:558-637 | the revocation loop leaves the table of the reset, no active key once confirmed, and every row |
| `ConfigMerge.WalkAndMerge` | crates/gradatum-admin/src/init.rs:999-1057 | the in-place walk, taking the backup's keys in any order, computes the merge |
| `ConfigMerge.MergeLeaves` | crates/gradatum-admin/src/init.rs:999-1057 | every leaf of the result comes from the backup where the backup reaches, from the template elsewhere |
| `ConfigMerge.MergeTables` | crates/gradatum-admin/src/init.rs:999-1057 | every table of the result is one of the backup, or one of the template that no backup leaf hides |
| `ConfigMerge.ShapeDeterminesItem` | crates/gradatum-admin/src/init.rs:937-989 | leaves and tables determine a document, so the two laws above leave nothing open |
| `ConfigMerge.BackupLeafSurvives` | crates/gradatum-admin/src/init.rs:937-989 | every leaf of the backup is found at its migrated path with its value, except under the new key of a backup with both spellings |
| `ConfigMerge.BothSpellingsLoseTheNewOne` | crates/gradatum-admin/src/init.rs:839-847 | a concrete backup whose new-key value is lost for every template |
| `ConfigMerge.TemplateDefaultKept` | crates/gradatum-admin/src/init.rs:937-989 | a template leaf that the migrated backup does not reach keeps its default |
| `ConfigMerge.MergeUserConfigIdempotent` | crates/gradatum-admin/src/init.rs:937-989 | merging a second time changes nothing, for every template without the old key |
| `InitRun.TemplateShape` | crates/gradatum-admin/src/init.rs:710-837 | the generated template carries its token and not the old key |
| `InitRun.TokenOfMerge` | crates/gradatum-admin/src/init.rs:874-923 | the token read back from a merged document, in a table or an inline table, is the old one when there was one, and otherwise can only be the minted one |
| `InitRun.TokenNeverChanges` | crates/gradatum-admin/src/init.rs:874-923 | once `server.toml` carries a token, no sequence of inits, forced or not, cut anywhere, changes it |
| `InitRun.SuccessfulInitAgrees` | crates/gradatum-admin/src/init.rs:125-214 | a successful init leaves a side file equal to the token, which is the one the root had, or the minted one when it had none |
| `InitRun.FirstTokenForever` | crates/gradatum-admin/src/init.rs:125-214 | over any sequence of successful inits both files carry the token the root started with, or the first minted one when it had none |
| `InitRun.MarkerOnlyWhenJustified` | crates/gradatum-admin/src/init.rs:125-214 | a run cut anywhere leaves a marker it did not find only with a declaring preset and an active bootstrap key |
| `InitRun.PresetAfterRun` | crates/gradatum-admin/src/init.rs:526-594 | the preset and its backups after a run cut anywhere, and exactly when an existing preset is replaced |
| `InitRun.PresetsKeptIff` | crates/gradatum-admin/src/init.rs:573-590 | through any sequence of inits, each cut anywhere, every run keeps every preset, in place or in a backup, if and only if none writes its backup over the only copy of one |
| `InitRun.SameSecondLosesAPreset` | crates/gradatum-admin/src/init.rs:573-590 | two overwriting inits with one timestamp after which the first preset is nowhere |
| `InitRun.PresetsAreKept` | crates/gradatum-admin/src/init.rs:573-590 | in such a sequence a preset that was in place or in a backup still is at the end |
| `InitRun.InterruptedForceReplacesThePreset` | crates/gradatum-admin/src/init.rs:125-214 | a forced init cut after one step, then a plain init, replaces the preset and leaves the old one as its backup |
| `InitRun.RootDir.Init` | crates/gradatum-admin/src/init.rs:125-335 | the command leaves the state of its cut plan and succeeds exactly when its plan does; what a successful plan leaves is `InitKey.SuccessfulInitHandsOverTheKey`, `InitKey.SuccessfulInitWrites` and `InitRun.SuccessfulInitAgrees` |
| `InitKey.SuccessfulInitHandsOverTheKey` | crates/gradatum-admin/src/init.rs:255-335 | a successful init without an active bootstrap key leaves a key file that the store verifies as `main-agent`, tenant `main`, with the four bootstrap scopes; with one, neither the table nor the file changes |
| `InitKey.KeyFileAlwaysOpens` | crates/gradatum-admin/src/init.rs:255-335 | over any sequence of successful inits the key file keeps authenticating as `main-agent` |
| `InitKey.KeyAfterRun` | crates/gradatum-admin/src/init.rs:297-345 | the key table and the key file after a run cut anywhere: the row first, then the stale file removed, then the secret written |
| `InitKey.KeyHeldIff` | crates/gradatum-admin/src/init.rs:297-345 | a run cut anywhere keeps an active bootstrap key in the hands of the operator if and only if it is not cut between the insert of the key and the write of its secret |
| `InitKey.KeyHeldForeverIff` | crates/gradatum-admin/src/init.rs:297-345 | after any sequence of inits, each cut anywhere, the active bootstrap key is held if and only if none was cut there |
| `InitKey.InterruptedMintIsNeverRepaired` | crates/gradatum-admin/src/init.rs:297-335 | a fresh init cut right after the insert leaves an active key and no key file, and no sequence of later inits writes one |
| `InitKey.SuccessfulInitWrites` | crates/gradatum-admin/src/init.rs:125-214 | a successful init leaves its bearer in the marker and, in `server.toml`, the template with the old document merged in |
| `InitKey.FreshServerToml` | crates/gradatum-admin/src/init.rs:710-837 | the bind address, the paths under the root and the two tokens stand where the server reads them |
| `InitKey.TokenInIff` | crates/gradatum-admin/src/init.rs:914-930 | the token of a document is the value under `internal_api.token`, in a table or in an inline table |
| `ChangelogParse.RemoveBoldKeepsText` | crates/gradatum-admin/src/changelog_parse.rs:150-173 | removing bold markers drops nothing but asterisks |
| `ChangelogParse.RemoveBoldLoop` | crates/gradatum-admin/src/changelog_parse.rs:150-173 | the character loop computes the text with its closed bold markers removed |
| `ChangelogParse.ParseChangelog` | crates/gradatum-admin/src/changelog_parse.rs:192-288 | the line loop computes the run of the parser's state machine; `ChangelogLines.ParseIsListing` says what that is on the raw lines |
| `ChangelogLines.ParseIsListing` | crates/gradatum-admin/src/changelog_parse.rs:192-288 | the parse is, in order, one entry per line that starts with "- " or "  - ", has a title left, and stands under a released version in range and a section after it, a standard one unless meta sections are asked for; the entry carries that version, that section and its rank in it |
| `ChangelogLines.ParsedIff` | crates/gradatum-admin/src/changelog_parse.rs:192-288 | an entry is parsed if and only if such a line yields it |
| `ChangelogLines.RankCountsEntries` | crates/gradatum-admin/src/changelog_parse.rs:219-285 | the bullets counted by a rank are entries of the same version and section, with smaller ranks |
| `ChangelogLines.KindsOfEntries` | crates/gradatum-admin/src/changelog_parse.rs:78-93 | which sections make a feature, an enhancement and a fix, for every entry |
| `ChangelogTitles.OneBulletFile` | crates/gradatum-admin/src/changelog_parse.rs:192-288 | a version, a section and one bullet make exactly one entry, with rank 0 |
| `ChangelogTitles.TitleOfBullet` | crates/gradatum-admin/src/changelog_parse.rs:135-147 | a bullet, indented or not, has its text as title, without the whitespace around it and cut after eighty characters |
| `Text.TrimSurrounded` | crates/gradatum-admin/src/changelog_parse.rs:135-139 | trimming takes the blanks around a text and nothing of the text |
| `Text.AsciiWhitespace` | crates/gradatum-admin/src/changelog_parse.rs:135-139 | which ASCII characters are blank |
| `ChangelogTitles.BoldMarksComeOff` | crates/gradatum-admin/src/changelog_parse.rs:150-173 | closed bold markers come off wherever they stand, and the text between them stays |
| `ChangelogTitles.OpenMarkStays` | crates/gradatum-admin/src/changelog_parse.rs:150-173 | a marker that nothing closes stays in the text |
| `ChangelogTitles.SlugOfConcat` | crates/gradatum-admin/src/changelog_parse.rs:95-105 | the slug of a section is built piece by piece, with `_` before a capital inside |
| `ChangelogTitles.MarkerOfFirstAddition` | crates/gradatum-admin/src/changelog_parse.rs:265-268 | the marker of the first addition of a version, spelled out |
| `ChangelogTitles.TripleOfDotted` | crates/gradatum-admin/src/changelog_parse.rs:111-128 | a printed version reads back its three numbers, with or without a suffix |
| `ChangelogTitles.RangeByNumbers` | crates/gradatum-admin/src/changelog_parse.rs:111-130 | a version is in range by its numbers, the first that differs deciding |
| `ChangelogParse.MetaFilterLaw` | crates/gradatum-admin/src/changelog_parse.rs:192-288 | parsing without meta sections is the standard-section filter of parsing with them, ranks and markers included |
| `ChangelogParse.RangeLaw` | crates/gradatum-admin/src/changelog_parse.rs:111-130 | parsing a narrower version range is filtering the parse of a wider one |
| `ChangelogParse.SkippedMetaIsExact` | crates/gradatum-admin/src/changelog_backfill.rs:544-555 | the difference of the two parses is the number of meta entries, and the subtraction never saturates |
| `MarkerMatch.MarkerMatches` | crates/gradatum-admin/src/changelog_backfill.rs:51-65 | the search loop computes the search that resumes behind a rejected occurrence |
| `MarkerMatch.MatchesIsSound` | crates/gradatum-admin/src/changelog_backfill.rs:51-65 | what the search accepts is an occurrence not followed by a digit |
| `MarkerMatch.MatchesExactIff` | crates/gradatum-admin/src/changelog_backfill.rs:51-65 | the search finds every such occurrence in every text if and only if the marker has no border that continues with a digit |
| `MarkerMatch.ElevenIsMissed` | crates/gradatum-admin/src/changelog_backfill.rs:51-65 | a concrete text whose bounded occurrence the search misses |
| `SourceMarkers.MarkerInjective` | crates/gradatum-admin/src/changelog_parse.rs:271-284 | a marker determines its version, standard section and rank |
| `SourceMarkers.DistinctMarkersIff` | crates/gradatum-admin/src/changelog_parse.rs:192-288 | the markers of a parse are distinct if and only if no section of a version stands under two headers with entries |
| `SourceMarkers.CommentMatchesOnlyItself` | crates/gradatum-admin/src/changelog_backfill.rs:51-65 | the comment of one rendered marker matches another marker if and only if they are equal |
| `CardMarkers.CardMatchesIff` | crates/gradatum-admin/src/changelog_backfill.rs:51-65 | the whole card of one entry matches the marker of another if and only if the markers are equal or the title holds that marker with no digit behind it |
| `CardMarkers.ParsedCardMatchesIff` | crates/gradatum-admin/src/changelog_backfill.rs:570-613 | the same equivalence for the rendered cards of any two regular entries of one parse |
| `CardMarkers.OtherCardsMatchByTitleOnly` | crates/gradatum-admin/src/changelog_backfill.rs:570-613 | when no section of a version is repeated, the card of one entry matches the marker of another only through its title |
| `ProjectCard.ExtractTypedLinks` | crates/gradatum-admin/src/project_map_scope.rs:218-234 | the scan loop computes the typed links, in order |
| `ProjectCard.LinksEmptyIff` | crates/gradatum-admin/src/project_map_scope.rs:218-234 | the scanner finds nothing if and only if no `[[`, with its next `]]`, encloses a `:` |
| `ProjectCard.ReadPrinted` | crates/gradatum-admin/src/project_map_scope.rs:218-234 | a bracketed target printed behind text that opens nothing is the first one read, and the scan goes on behind it |
| `CardRender.CardLinks` | crates/gradatum-admin/src/project_map_card.rs:101-127 | the four required links are read back first, in order, whatever title and marker hold |
| `CardRender.EscapeLeavesOpeningIff` | crates/gradatum-admin/src/project_map_card.rs:103-106 | the escaped title has a double bracket if and only if the title has a triple one |
| `CardRender.CardConformsIff` | crates/gradatum-admin/src/project_map_card.rs:101-127 | a card carries exactly the four required links if and only if its escaped title holds no typed span |
| `CardRender.TripleBracketAddsLink` | crates/gradatum-admin/src/project_map_card.rs:103-106 | a title with a triple bracket adds a link of its own choice |
| `ParsedCards.ParsedCardConformsIff` | crates/gradatum-admin/src/changelog_backfill.rs:570-571 | the same equivalence for the card of every entry the parser produces in a standard section |
| `ParsedCards.CardOfSection` | crates/gradatum-admin/src/project_map_card.rs:101-127 | from the heading to the card: the four links with the kind word of the section, the three tags, the title and the section of the card of every parsed entry |
| `ParsedCards.PlainCardIsOpen` | crates/gradatum-admin/src/project_map_scope.rs:301-341 | a card without a triple bracket is counted as open, under its own version |
| `ParsedCards.TitleMovesTheCard` | crates/gradatum-admin/src/project_map_scope.rs:301-341 | a triple bracket in the title sets the status the new card is counted under |
| `ProjectScope.StatusIsLast` | crates/gradatum-admin/src/project_map_scope.rs:306-318 | the status of a card is that of its last status link |
| `ProjectScope.StatusNoneIff` | crates/gradatum-admin/src/project_map_scope.rs:306-318 | a card has no status if and only if it has no status link |
| `ProjectScope.VersionIsLast` | crates/gradatum-admin/src/project_map_scope.rs:306-318 | the version of a card is what follows the first `/` of its last version link that has one |
| `ProjectScope.CountersByText` | crates/gradatum-admin/src/project_map_scope.rs:301-334 | the open, in-progress, blocked, done, obsolete and brainstorming counters count the cards whose last status link says OPEN, IN_PROGRESS, BLOCKED, DONE, OBSOLETE and BRAINSTORMING |
| `ProjectScope.DoneVersionsIff` | crates/gradatum-admin/src/project_map_scope.rs:336-347 | the versions that compete for the current one are those of the cards that say DONE |
| `ProjectScope.WireRoundTrip` | crates/gradatum-core/src/project_map.rs:99-125 | the two directions of the status vocabulary are inverse to each other |
| `ProjectScope.GapIsZero` | crates/gradatum-admin/src/project_map_scope.rs:64-83 | the counters always sum to the number of cards, whatever the bodies hold |
| `ProjectScope.MaxByKey` | crates/gradatum-admin/src/project_map_scope.rs:343-347 | the current version is a greatest one, the last of equals |
| `ProjectScope.ComputeScope` | crates/gradatum-admin/src/project_map_scope.rs:259-355 | every counter is the number of cards whose last status link has its text, the gap is zero, and the versions and the current version are those of the cards |
| `CardTitles.SameNormalFormIff` | crates/gradatum-admin/src/project_map_card.rs:44-50 | two titles share a normal form if and only if their words agree but for case |
| `CardTitles.NormalFormIsStable` | crates/gradatum-admin/src/project_map_card.rs:44-50 | a normal form is its own normal form |
| `ChangelogBackfill.BuildTitleIndex` | crates/gradatum-admin/src/project_map_card.rs:62-68 | the index holds exactly the normal forms present, and the first card of a form wins |
| `ChangelogBackfill.WritesNothingIff` | crates/gradatum-admin/src/changelog_backfill.rs:570-613 | whatever the marker query answers, a run writes nothing if and only if every entry is already represented |
| `ChangelogBackfill.FinalRepresents` | crates/gradatum-admin/src/changelog_backfill.rs:570-613 | a run over some of the entries leaves each of them represented by its marker or its title |
| `ChangelogBackfill.CutThenRerun` | crates/gradatum-admin/src/changelog_backfill.rs:570-613 | a run stopped anywhere and run again leaves what one run leaves; in particular a second run creates nothing |
| `ChangelogBackfill.InterruptedRunsConverge` | crates/gradatum-admin/src/changelog_backfill.rs:530-616 | any number of interrupted runs before a complete one make no difference |
| `ChangelogBackfill.NoDuplicateTitle` | crates/gradatum-admin/src/changelog_backfill.rs:587-610 | for any marker query, a run only appends, and never a title whose normal form is present |
| `ChangelogBackfill.Server.RunBackfill` | crates/gradatum-admin/src/changelog_backfill.rs:530-616 | the guard on the key, the preview, and the applying run with every entry counted once; a failure leaves the cards of a shorter run |
| `MarkerQuery.MarkerExists` | crates/gradatum-admin/src/changelog_backfill.rs:316-411 | the loops over the page, the bodies of the page and the rest of the section compute the staged answer, errors included |
| `MarkerQuery.StagedIff` | crates/gradatum-admin/src/changelog_backfill.rs:316-411 | over a search that ranks, truncates and excerpts as it likes but finds every card whose body holds the marker, the answer is yes if and only if some body holds it or a title on the page shows it |
| `MarkerQuery.FullScanIff` | crates/gradatum-admin/src/changelog_backfill.rs:385-411 | every card of the section is read from a page of fifty hits on, and whenever the server counts a match that the page does not show |
| `MarkerQuery.TitleOnlyMatchIsForgotten` | crates/gradatum-admin/src/changelog_backfill.rs:346-411 | a concrete section of fifty cards, one of which cites a marker in its title, whose answer turns from yes to no when the card of another entry is added |
| `MarkerQuery.ParsedCardIsSpelled` | crates/gradatum-admin/src/project_map_card.rs:101-127 | a card of a parse whose title shows a searchable marker of that parse holds it in its body |
| `MarkerQuery.OneHeadIsSearchable` | crates/gradatum-admin/src/changelog_parse.rs:271-284 | an entry, also of a pre-release version or a meta section, is searchable unless a bracket stands in its marker, a slash in its version, or its marker starts over inside itself |
| `MarkerQuery.StagedQueryPersists` | crates/gradatum-admin/src/changelog_backfill.rs:316-411 | while a run adds cards of searchable entries to cards that spell their markers, a marker once found stays found |
| `MarkerQuery.BackfillConverges` | crates/gradatum-admin/src/changelog_backfill.rs:530-616 | over that query any number of interrupted runs before a complete one make no difference |
| `BackfillAuthors.CandidatesAreSeparate` | crates/gradatum-admin/src/backfill_authors.rs:162-170 | no path is a candidate of two notes, whatever their loci and sections |
| `AuthorRuns.AnyHistoryIsCoherent` | crates/gradatum-admin/src/backfill_authors.rs:299-382 | after any history of interrupted, limited or aborted runs, other authors, bodies and places are untouched and every attributed row agrees with its file |
| `AuthorRuns.AttributedIff` | crates/gradatum-admin/src/backfill_authors.rs:215-255 | note by note: an uninterrupted run attributes a selected note if and only if it is assignable and no malformed note comes before it |
| `AuthorRuns.OneNote` | crates/gradatum-admin/src/backfill_authors.rs:299-382 | one selected note, field by field: where its file is looked for, when it may be attributed, and what its file and its row hold afterwards |
| `AuthorRuns.CompleteRunConverges` | crates/gradatum-admin/src/backfill_authors.rs:215-255 | any such history and one complete run attribute exactly the notes that could be attributed at the start and are not behind a malformed one; the others are as they were |
| `AuthorRuns.SecondRunChangesNothing` | crates/gradatum-admin/src/backfill_authors.rs:268-296 | selecting oldest first, with no assignable note created at the time of a malformed one, any run after a complete one changes nothing, whatever its limit and wherever it is cut |
| `AuthorRuns.TiedTimesLetANoteThrough` | crates/gradatum-admin/src/backfill_authors.rs:268-296 | a concrete vault with equal times in which the second of two complete runs attributes a note |
| `AuthorRuns.ChangesNothingIff` | crates/gradatum-admin/src/backfill_authors.rs:215-255 | a run whose writes succeed changes nothing if and only if no assignable note comes before the first malformed one |
| `AuthorRuns.MalformedNoteHidesTheRest` | crates/gradatum-admin/src/backfill_authors.rs:215-255 | a concrete malformed note that ends every run before an assignable one |
| `AuthorRuns.SkippedNoteStarvesTheLimit` | crates/gradatum-admin/src/backfill_authors.rs:268-296 | a concrete note without a file that a limit of one selects every time |
| `AuthorRuns.PreviewAddsUp` | crates/gradatum-admin/src/backfill_authors.rs:231-252 | the three counters add up to the notes scanned |
| `AuthorVault.Vault.ProcessOne` | crates/gradatum-admin/src/backfill_authors.rs:299-382 | the outcome and the state for every verdict, file first and row last, interrupted anywhere |
| `AuthorVault.Vault.RunSync` | crates/gradatum-admin/src/backfill_authors.rs:215-255 | a preview writes nothing and reports what the real run reports; a real run leaves the state of the cut run |
| `ReindexOrphans.SourcePathsAreSound` | crates/gradatum-admin/src/reindex_orphans.rs:135-140 | a canonical path spells its note's identifier and determines its vault |
| `ReindexOrphans.CanonicalParts` | crates/gradatum-admin/src/reindex_orphans.rs:135-140 | a note lives in the directory of its vault, or of its locus inside it, under its identifier |
| `ReindexOrphans.CanonicalDeterminesLocus` | crates/gradatum-admin/src/reindex_orphans.rs:135-140 | no two loci of a vault share a path for one identifier |
| `ReindexOrphans.WrittenIff` | crates/gradatum-admin/src/reindex_orphans.rs:275-320 | an orphan is written if and only if its note parses and its file stands, under its identifier, in the directory of the tenant or of its locus there |
| `ReindexOrphans.CutLosesNothing` | crates/gradatum-admin/src/reindex_orphans.rs:149-268 | however a run ends, no file and no index row is lost |
| `ReindexOrphans.FilesUnchangedIff` | crates/gradatum-vault/src/lifecycle.rs:1911-1918 | an uninterrupted run leaves the set of files as it was if and only if no note it reaches belongs to another vault |
| `ReindexOrphans.CutKeepsFiles` | crates/gradatum-admin/src/reindex_orphans.rs:275-320 | without such notes no run creates a file, wherever it is cut |
| `ReindexOrphans.StopsAtFirstUnreadable` | crates/gradatum-admin/src/reindex_orphans.rs:275-320 | the real run ends at the first unreadable file of the scan, if there is one |
| `ReindexOrphans.RemainsIff` | crates/gradatum-admin/src/reindex_orphans.rs:275-320 | after an uninterrupted run a selected orphan is still one, its file untouched, if and only if it was skipped, belongs to another vault, or stands behind an unreadable file |
| `OrphanRuns.SecondRunChangesNothing` | crates/gradatum-admin/src/reindex_orphans.rs:149-268 | without notes of other vaults, a second run after an unlimited one changes nothing, whatever its limit |
| `OrphanRuns.LeftAreSkippedOrUnreached` | crates/gradatum-admin/src/reindex_orphans.rs:149-268 | the orphans such a run leaves are exactly those it skipped and those behind an unreadable file |
| `ReindexOrphans.ForeignOrphanNeverConverges` | crates/gradatum-vault/src/lifecycle.rs:174-177 | a note of another vault stays an orphan, and still one of another vault, through every run |
| `OrphanRuns.ForeignNoteIsCopied` | crates/gradatum-vault/src/lifecycle.rs:1911-1918 | a concrete note that the run copies into another vault and that stays an orphan |
| `OrphanVault.ScanOrphans` | crates/gradatum-admin/src/reindex_orphans.rs:346-399 | the scan yields the orphans of the walk and no others, in identifier order, cut at the limit |
| `OrphanVault.UniqueScan` | crates/gradatum-admin/src/reindex_orphans.rs:346-399 | when no two files spell one identifier, the scan, cut at any limit, is one the laws over whole runs speak of, and without a limit it misses no orphan |
| `OrphanRuns.ReadBackMissesTheForeign` | crates/gradatum-admin/src/reindex_orphans.rs:440-468 | after a complete run the counter read back from the index misses exactly the notes of other vaults |
| `OrphanRuns.PreviewAgreesIff` | crates/gradatum-admin/src/reindex_orphans.rs:275-338 | preview and real run report the same counts if and only if no selected orphan is unreadable |
| `OrphanRuns.UnreadableFileHidesTheRest` | crates/gradatum-admin/src/reindex_orphans.rs:275-338 | a concrete pair of files of which the preview promises one and the real run writes none |
| `OrphanVault.Vault.Preview` | crates/gradatum-admin/src/reindex_orphans.rs:323-338 | the preview writes nothing and counts an unreadable file as malformed; its counts add up to the orphans found |
| `OrphanVault.Vault.Apply` | crates/gradatum-admin/src/reindex_orphans.rs:225-243 | the real run leaves the state of the run or of a cut of it, fails on an unreadable file, and otherwise reports the skips and what the index then holds |
| `OrphanVault.Vault.RunReindex` | crates/gradatum-admin/src/reindex_orphans.rs:149-268 | the mass-operation guard refuses exactly without a limit outside `main` or above the cap; refusal and preview change nothing, a real run is a cut of the run over the sorted scan |
| `AclEngine.SplitPatterns` | crates/gradatum-acl-policy/src/lib.rs:384-395 | the loop fails exactly on a pattern that does not compile, and splits negations from the rest |
| `AclEngine.CompilePreset` | crates/gradatum-acl-policy/src/lib.rs:369-379 | the engine loads if and only if every pattern of every consumer compiles |
| `AclEngine.BearerDecision` | crates/gradatum-acl-policy/src/lib.rs:230-293 | a bearer is judged by the patterns of its subject, read or write, except that a single-segment locus other than its own tenant is denied explicitly |
| `AclEngine.NamedDecision` | crates/gradatum-acl-policy/src/lib.rs:230-293 | a Studio user and a client certificate are judged by the patterns of their name on every locus |
| `AclEngine.UnknownDecision` | crates/gradatum-acl-policy/src/lib.rs:230-250 | an unauthenticated caller, and any name that no consumer declares, is denied by default; the identity query agrees with the preset |
| `AclEngine.NeverAllowed` | crates/gradatum-acl-policy/src/lib.rs:213-272 | no bearer is allowed on a non-empty single-segment locus other than its tenant, nor one whose subject no consumer declares on anything |
| `AclEngine.MessagingIgnoresTenant` | crates/gradatum-acl-policy/src/lib.rs:309-332 | a message to a recipient is decided by the sender's write patterns on `messaging/` and the recipient alone, whatever the tenant |
| `AclEngine.PatternOrderIsIrrelevant` | crates/gradatum-acl-policy/src/lib.rs:230-293 | permuting or repeating patterns changes no decision |
| `AclEngine.NegationsNeverAllow` | crates/gradatum-acl-policy/src/lib.rs:230-293 | adding negations never turns a denial into an allow |
| `AclEngine.ReadsNothingIff` | crates/gradatum-acl-policy/src/lib.rs:230-293 | a caller reads nothing under every glob library if and only if each positive read pattern of the consumer that answers is cancelled by its own negation |
| `AclEngine.WarnedIff` | crates/gradatum-admin/src/acl_cmd.rs:113-124 | `acl validate` warns of an identity if and only if one of its declarations reads with negated and blank patterns only |
| `AclEngine.WarnedReadsNothing` | crates/gradatum-admin/src/acl_cmd.rs:113-124 | a caller named by the warning reads nothing when the declaration that answers is the one warned about, as it is whenever identities are unique |
| `AclEngine.RepeatedIdentityIsWarnedYetReads` | crates/gradatum-admin/src/acl_cmd.rs:113-124 | with a repeated identity the warning can name one that reads |

## Left out

- Foreign code is a parameter: the tree-sitter parsers and the content hash, git itself, SQLite, argon2, the
  glob library, TOML text, the Markdown reader and writer, the HTTP client, and Unicode case tables. Hashes are
  ideal where a law needs it, and every law names that premise.
- Wall-clock time is a parameter of each step; `last_used_at`, file permissions and log lines are not modelled.
- Torn writes of one file or one row: a durable step happens or does not. Two ingest or repair processes on one
  vault at the same time are not modelled; API keys are, under every interleaving.
- `code ingest` and `code update` also refuse vault names and data vaults (`refuse_data_vault`); those guards
  and the report fields for totals, skips and duration are left out.
- ConfigMerge.WalkAndMerge: comments, key order and the log counters of the walk are not part of the document.
- Splitting the CHANGELOG file into lines is not modelled; the parser starts from its lines.
- ApiKeyCli.ListMembers: the order of a listing, newest first, is left out.
- ProjectScope.ComputeScope: the selection query and the order in which distinct versions are listed are left
  out; the versions are a set.
- ChangelogBackfill.InterruptedRunsConverge: it assumes a marker query whose yes-answers persist during the run;
  `MarkerQuery.StagedQueryPersists` proves that of the query in use.
- MarkerQuery.StagedIff: the full-text engine is a parameter that finds every body with the marker, cuts no
  excerpt inside a number, and returns all matches or a full page unless it counts them; the pagination of the
  section listing is left out.
- AuthorRuns.AnyHistoryIsCoherent: the order of candidates with equal creation times is arbitrary, and the
  check of the target author against the preset happens before the run.
- OrphanVault.ScanOrphans: the directory walk is an input that lists each file once; the embedding jobs queued
  after a run are left out.
- ReindexOrphans.RemainsIff: it and the other laws over a whole run of `reindex-orphans` assume that no two
  orphan files spell one identifier; the scan and the methods of `OrphanVault.Vault` do not.
- `feature_backfill.rs`, `drift_scan.rs`, `jobs_cmd.rs`, `queue_cmd.rs`, `backfill_titles.rs`, the export and the
  server crates: they would add members of the kinds above, or only counting.
