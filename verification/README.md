# OpenNOW core: verified models

Models of the stateful core of `opennow-core` and proofs about them. One module per component; a method
that updates its service's fields in place is a class method proved against a specification, and a
protocol over locks and threads is a state machine with one step per lock acquisition, channel operation
or remote answer, so that a run is an interleaving.

- `Allocation`: the cloud-seat protocol. A create takes the admission guard, asks for a seat, parks it in
  `fresh`, and then either gets a receipt and accepts it or deletes it, keeping a failed delete in the
  cleanup record. Stops run beside it; creates, hand-offs and stops hold their callers' routing lock.
- `Requests`: the bounded request table and the per-request token that is commit fence, cancellation point
  and receipt at once.
- `Discovery` and `Profile`: parallel session discovery, and the ranked merge of what responses say about a
  session's stream profile.
- `Vault`: the credential vault over a secure store, a metadata document and two legacy sources, any
  operation of which may fail.
- `ArtworkNames`, `ArtworkCache` and `DownloadQueue`: the on-disk artwork cache and its de-duplicated queue.
- `Frames` and `Mailbox`: the Discord frame codec, and the coalescing mailbox with its worker.
- `PinLockout`: the escalating PIN lockout and the write-then-publish profile store.
- `LinkAttempts` and `SyncOperations`: account linking and account syncs.
- `FilterMerge`: the catalog's JSON filter merge.
- `Redaction` and `LogFile`: the redactor and the rotating diagnostics log.

`Wrappers` holds the shared `Option` and `Result` and what counts as whitespace. Failures and answers of the outside world are parameters
of a method or a step (`locked`, `writes`, `faults`, an outcome) or, in `Vault`, arbitrary choices that are
switched off while `healthy` holds.

What is assumed of the outside: a create request returns a seat's id or allocates nothing; the claims about
seats are for one process, because `fresh` is not written to disk, with the record an earlier process left
as any starting point; the artwork directory is touched by the cache alone; clocks do not go back; a secure
store write leaves the entry as it was or as written; a metadata write that fails may still have replaced
the document.

Where an expected property does not hold of the code, the code is kept, a concrete case shows the failure,
and the condition under which the property holds is proved:

- A removal whose record could not be written is undone by a migration that finds the user's grant in
  `auth-state.json`, because that loop consults the record and not the in-process suppression. The
  condition is exact: without it the suppression stays (`RemovedStaysRemoved`), and with it a migration
  with nothing failing lifts it (`Complete` in `Migrate`, `MigrateThenLoad`); `RemoveThenMigrate` shows the
  whole failure on the operations.
- Cancelling a sync while its call is still in flight is overwritten by the call's outcome
  (`CancellationHoldsIffReturned`, `CancelledCallComesBack`), which is also the only way to two active
  syncs of one provider.
- The item limit of filter arrays is not checked where an array replaces a value of another kind
  (`OnlyReplacementBypassesFold`, `MismatchBypassesLimit`).

The agreement of `fresh` and the cleanup record is a property of the service together with the
`session_routing` lock its callers hold: `SlotsAlwaysAgree` proves it of every such run, and
`AgreementNeedsRoutingLock` shows that the service alone does not give it. The other claims about seats hold
either way. What a disagreement would have meant is bounded too (`DisagreementIsHarmless`).

## Model
| member | source | states |
|---|---|---|
| Allocation.NoLeakedSeat | native/opennow-core/src/cloudmatch.rs:182-467 | in every interleaving of creates, cancellations, receipts, time-outs, hand-offs and stops, each seat a create request returned is accepted, confirmed deleted, in `fresh`, in the cleanup record, or in the hand of the one holder of the admission guard |
| Allocation.SingleOutstanding | native/opennow-core/src/cloudmatch.rs:182-211 | at any time at most one seat is unresolved, counting the one an earlier process recorded |
| Allocation.ParkFindsSlotEmpty | native/opennow-core/src/cloudmatch.rs:308-317 | writing `fresh` never overwrites another allocation, although admission reads the two slots at separate lock points |
| Allocation.RecordDroppedOnlyAfterDelete | native/opennow-core/src/cloudmatch.rs:449-467 | a retained record disappears or changes only after exactly that seat was confirmed deleted |
| Allocation.AcceptanceNeedsReceipt | native/opennow-core/src/cloudmatch.rs:350-417 | a seat is accepted only by its own worker, with its receipt in and the seat still in `fresh`; no hand-off ever tries to delete an accepted seat |
| Allocation.AcceptedWasVouched | native/opennow-core/src/gfn.rs:1767-1794 | in every run a seat is accepted only if its own worker's result was delivered, the shell acknowledged it, and the check of the seat's owner at the hand-off succeeded |
| Allocation.VouchedSeatIsAccepted | native/opennow-core/src/cloudmatch.rs:350-417 | an undisturbed hand-off of a delivered, acknowledged and not cancelled result with a valid owner takes three open steps to the acceptance of the seat |
| Allocation.UnvouchedSeatIsDeleted | native/opennow-core/src/cloudmatch.rs:350-417 | with any of the four missing the same hand-off deletes the seat and empties `fresh`, or, if the delete fails, leaves it in `fresh` and on record |
| Allocation.SeatIsSettled | native/opennow-core/src/cloudmatch.rs:350-417 | in every run a worker that is leaving or has left its hand-off leaves its seat accepted, confirmed deleted or on record; any other worker that got a seat still has it |
| Allocation.ConfirmedStopClears | native/opennow-core/src/cloudmatch.rs:625-666 | a stop whose delete is confirmed takes its seat off the record and out of `fresh`, and touches no other |
| Allocation.CancelledCreateReturnsNothing | native/opennow-core/src/cloudmatch.rs:318-345 | no continuation of a run hands over the seat of a create that was cancelled before its last check |
| Allocation.CancelledCreateIsNotAdmitted | native/opennow-core/src/cloudmatch.rs:182-187 | no continuation of a run gets a create cancelled before its admission check to a POST |
| Allocation.CancellationWins | native/opennow-core/src/main.rs:196-212 | from start-up, a worker cancelled while its acceptance is undecided never has a seat accepted on any continuation |
| Allocation.DisagreementIsHarmless | native/opennow-core/src/cloudmatch.rs:350-467 | whenever `fresh` and the record name different seats, the recorded one is already confirmed deleted |
| Allocation.SlotsAlwaysAgree | native/opennow-core/src/gfn.rs:1672-1796 | in every run of the service as it is called, with `session_routing` held around a create, a hand-off and a stop, both slots name the same seat whenever both are set and nobody goes on to a POST beside a record, even when the cleanup file cannot be removed |
| Allocation.RoutingIsExclusive | native/opennow-core/src/gfn.rs:1672-1796 | in every run of the service as it is called, at most one worker is inside a create or a hand-off, at most one stop is under way, and never both |
| Allocation.AgreementNeedsRoutingLock | native/opennow-core/src/cloudmatch.rs:625-666 | that agreement rests on the callers' lock: without it there is a run of the service in which a stop overlaps a hand-off, no file operation fails, and the two slots end up naming different seats |
| Allocation.AcceptanceIsReachable | native/opennow-core/src/cloudmatch.rs:213-417 | the ordinary run from admission to receipt ends with the seat accepted |
| Allocation.RunKeepsInv | native/opennow-core/src/cloudmatch.rs:182-467 | the inductive invariant behind these claims is kept by every run of worker, stop and cancellation steps |
| Requests.RequestTable.Admit | native/opennow-core/src/requests.rs:60-79 | a request is admitted exactly when its id is free, fewer than 8 requests and, for a background one, fewer than 4 background ones are active; its token is new; a refusal changes nothing |
| Requests.RequestTable.Drop | native/opennow-core/src/requests.rs:99-109 | dropping a permit removes its own entry and no other |
| Requests.CommitFence | native/opennow-core/src/requests.rs:22-44 | in every interleaving a commit body starts and ends with no cancellation completed before its end, is refused exactly because one came first, and the receipt is a yes exactly after an acknowledgement with no earlier cancellation |
| Discovery.DiscoverSessions | native/opennow-core/src/cloudmatch.rs:2109-2172 | for any regions and outcomes the strided parallel scan answers what a left-to-right scan answers: the first authentication error if there is one; else every session id any region answered, each from the first place that holds it and in the order of those places; else, with no session at all, an error unless the region list was complete, not empty and every region answered |
| Discovery.ScanTakesFirstPlaces | native/opennow-core/src/cloudmatch.rs:2149-2161 | each session of the result stands at the first region and position that holds its id, and those places ascend |
| Discovery.ScanKnows | native/opennow-core/src/cloudmatch.rs:2149-2161 | no session id of any region's answer is missing from the result |
| Discovery.ScanShare | native/opennow-core/src/cloudmatch.rs:2117-2141 | each worker's loop visits every fourth region from its own, in order |
| Discovery.EveryRegionOnce | native/opennow-core/src/cloudmatch.rs:2117-2146 | the workers together visit every region index exactly once, whatever the number of regions |
| Discovery.SortedJoinIsListing | native/opennow-core/src/cloudmatch.rs:2148-2148 | any index-ascending arrangement of the joined results is the plain listing of the regions |
| Discovery.FirstPerIdKeepsFirsts | native/opennow-core/src/cloudmatch.rs:2149-2161 | merging keeps exactly the first occurrence of each session id, in order |
| Discovery.KeepsEveryId | native/opennow-core/src/cloudmatch.rs:2149-2161 | merging loses no session id and invents none |
| Discovery.EmptySuccess | native/opennow-core/src/cloudmatch.rs:2168-2171 | an empty success is given if and only if the region list was complete and not empty and every region answered with no session |
| Discovery.EarliestAuthError | native/opennow-core/src/cloudmatch.rs:2162-2164 | if any region failed authentication there is a first one to report |
| Profile.ActiveProfileIsLatestOfHighest | native/opennow-core/src/cloudmatch.rs:1065-1106 | over any run of one session's responses, whatever was in the slot of another session before, bit depth and chroma are each the most recent report of the highest source rank, the HDR flag the server's most recent, and `colorQuality` the colour of the components; nothing of the earlier session enters |
| Profile.CreatedProfileIsLatestOfHighest | native/opennow-core/src/cloudmatch.rs:1087-1092 | a new seat's bit depth and chroma are each the latest report of the highest rank counting what its create request asked for as the first, `colorQuality` is their colour, and the HDR flag, of which the request says nothing, is the latest of the highest rank among the responses |
| Profile.ActiveKeepsServerCodec | native/opennow-core/src/cloudmatch.rs:1748-1785 | a recognised codec the server reported stays in the active slot until the server reports again |
| Profile.ServerCodecSurvives | native/opennow-core/src/cloudmatch.rs:1748-1785 | over any run of reports, if the server's last report named a recognised codec, the codec is that one |
| Profile.ShownCodecWasReported | native/opennow-core/src/cloudmatch.rs:1748-1785 | a codec that is shown was in some response, and no server report came after it |
| Profile.FoldIsLatestOfHighest | native/opennow-core/src/cloudmatch.rs:1748-1785 | folding ranked reports gives the latest of those of maximal rank |
| Profile.HighestOfColors | native/opennow-core/src/cloudmatch.rs:1748-1785 | the latest of the highest rank is, for a colour member, the last finalized report if there is one, else the last requested one, else the last |
| Profile.HighestOfServer | native/opennow-core/src/cloudmatch.rs:1748-1785 | and for a member only the server reports its last report, if there is one |
| Profile.MergeLaws | native/opennow-core/src/cloudmatch.rs:1748-1785 | the merge of one member's reports is idempotent and associative over the sources responses carry |
| Profile.ResponsesAreTagged | native/opennow-core/src/cloudmatch.rs:1636-1673 | every parsed response carries only sources the merge ranks, an unreported member has no value, and its colour matches its components |
| Profile.DepthOfResponse | native/opennow-core/src/cloudmatch.rs:1636-1673 | the finalized bit depth decides over the requested one, 0 and 8 are 8 bits, 1 and 10 are 10, anything else has no value, and the source says where it came from |
| Profile.ServerMembersOfResponse | native/opennow-core/src/cloudmatch.rs:1636-1673 | the codec of the response's own profile decides over the wire number, 1, 2 and 3 are H264, H265 and AV1, HDR is mode 1, and whatever is present counts as the server's word |
| Profile.PreserveSessionProfile | native/opennow-core/src/cloudmatch.rs:1748-1785 | the member-by-member edit of the response computes the merge the laws are about |
| Profile.ActiveSession.StoreActive | native/opennow-core/src/cloudmatch.rs:1065-1106 | status 7 empties the slot of the session it names and no other, and passes the response on; any other response becomes active merged with the slot of the same session, and unchanged beside another session's |
| Vault.HistoryLosesNothing | native/opennow-core/src/credential_vault.rs:117-327 | over any history of saves, loads, removals and migrations, restarts included and with any operation failing anywhere: accounts stay distinct, the active one listed and none suppressed; recorded removals stay; and a legacy grant is gone only if its user is durable in the secure store and listed, or was removed and not saved since |
| Vault.CredentialsAreKept | native/opennow-core/src/credential_vault.rs:117-327 | a durable credential stays durable over any history in which its user is not removed, whatever fails, whoever else is removed and however often the process restarts, and what is stored is what was stored at the start or a session saved for the user since |
| Vault.SavedIsSafe | native/opennow-core/src/credential_vault.rs:117-156 | a successful save makes its user's credential such a one, also after an earlier removal |
| Vault.RemovedStaysRemoved | native/opennow-core/src/credential_vault.rs:276-423 | from the start of a removal, whatever of it fails, every load of the user in the process yields nothing until a save of the user succeeds or a migration runs while the user has a grant in `auth-state.json` and no removal on record |
| Vault.MigrateThenLoad | native/opennow-core/src/credential_vault.rs:158-246 | in every such state, if nothing fails from then on, migrating does undo the removal: the next load returns a session of the user |
| Vault.RemoveThenMigrate | native/opennow-core/src/credential_vault.rs:158-423 | on the operations themselves, from any undamaged state with the user's grant in `auth-state.json`: if the removal did not get its record written, migrating brings the user back |
| Vault.UnrecordedRemovalIsUndone | native/opennow-core/src/credential_vault.rs:390-423 | a removal whose record cannot be written leads to a state in which that condition holds and nothing is damaged |
| Vault.DiscardedNeverReturns | native/opennow-core/src/credential_vault.rs:390-423 | once a removal is on record no later operation, save, migration or restart brings a legacy grant back: what a load of the user returns was in the secure store then or is a session saved for the user since |
| Vault.EntriesStaySourced | native/opennow-core/src/credential_vault.rs:117-327 | the secure entry of a user with a removal on record is at all times the one that was there or one that was saved since |
| Vault.CredentialVault.Save | native/opennow-core/src/credential_vault.rs:117-156 | success means stored and read back equal, the one active account, listed where it was or last, suppressed no longer on record or in the process, with everything else in the metadata as it was; no file but the user's own session file goes, and it goes if it can be read and deleted; a failure keeps the session file and the in-process suppression; it fails only if some operation does; the guarantee holds throughout |
| Vault.CredentialVault.Remove | native/opennow-core/src/credential_vault.rs:390-423 | the user is suppressed in the process from the start; success means the removal is recorded and neither store nor session file holds the user; whenever the metadata is rewritten the other accounts keep their order and the active one stays, or is the first of the others if the removed one was active; it fails only if something could not be read, written or deleted |
| Vault.RemovedMetaRemoves | native/opennow-core/src/credential_vault.rs:396-413 | removing a user from the metadata leaves the other accounts in order, hands an active place on to the first of them, and adds the user to both removal lists |
| Vault.PlainFileName | native/opennow-core/src/credential_vault.rs:648-659 | the session file of a name of letters, digits, hyphens and underscores has that name |
| Vault.CredentialVault.Load | native/opennow-core/src/credential_vault.rs:276-327 | every secure entry is kept; the session returned is of that very, not blank, user: that of the entry or a legacy grant never discarded, and an entry that can be read wins, so only a store that cannot be read falls back to the legacy grant; nothing is returned only for a suppressed user or one of whom there is nothing; and with nothing failing and nothing damaged it answers and what it returns is in the store |
| Vault.CredentialVault.LoadLegacySession | native/opennow-core/src/credential_vault.rs:478-498 | a legacy grant comes from the user's own file or from an `auth-state.json` without conflicting or blank users, never after it was discarded, and is missed only if there is none |
| Vault.CredentialVault.DiscoveredUserIds | native/opennow-core/src/credential_vault.rs:500-574 | every listed account and, unless a source needed recovery, every user of a legacy source is found once, and no suppressed one; with nothing failing and nothing damaged no source needs recovery |
| Vault.CredentialVault.RemoveSessionFile | native/opennow-core/src/credential_vault.rs:457-463 | a session file is deleted only if it holds a session of that very user |
| Vault.CredentialVault.SetActive | native/opennow-core/src/credential_vault.rs:376-388 | only a listed account becomes active, and nothing else in the metadata changes |
| Vault.CredentialVault.Migrate | native/opennow-core/src/credential_vault.rs:158-246 | wherever it stops, only users suppressed on record lose a secure entry, none whose grants were discarded gets one, and `auth-state.json` is deleted only when it held no conflicting users and every user in it is durable or was removed on record before; success leaves the account active that was active, or the legacy one if none was; with nothing failing and nothing damaged it succeeds, every legacy user not removed is durable, the file is gone, what was left of suppressed users is gone too, and the in-process suppression is lifted of exactly the users in the file whose removal is not on record |
| Vault.CredentialVault.ImportSession | native/opennow-core/src/credential_vault.rs:217-230 | importing one grant keeps every existing secure entry, success leaves its user durable and not suppressed, and with nothing failing and nothing damaged it succeeds |
| Vault.SaveGuarantees | native/opennow-core/src/credential_vault.rs:117-156 | a save stopped at any point keeps the guarantee |
| Vault.RemoveGuarantees | native/opennow-core/src/credential_vault.rs:390-423 | a removal stopped at any point keeps the guarantee |
| ArtworkNames.ParsingInvertsNaming | native/opennow-core/src/artwork_cache.rs:651-664 | a file name parses to a key and an extension exactly when both are valid and it is the name made of them |
| ArtworkNames.ObjectNamesAre | native/opennow-core/src/artwork_cache.rs:655-664 | exactly 64 hexadecimal digits, a dot and one of jpg, png, webp, gif and avif are an object's name |
| ArtworkNames.NamesAreInjective | native/opennow-core/src/artwork_cache.rs:651-653 | different keys never share a file |
| ArtworkNames.TemporaryNeverParses | native/opennow-core/src/artwork_cache.rs:666-674 | the name of a download in progress never parses as an object |
| ArtworkCache.ArtworkCache.PruneToLimits | native/opennow-core/src/artwork_cache.rs:734-773 | evicts in the order of last access and key, skipping exactly the files that cannot be deleted, stops as soon as the incoming object fits, answers whether both limits hold, and succeeds whenever files can be deleted and the object alone fits; nothing goes while something deletable and less recently used, or equally and with a smaller key, stays; the last one to go had to; exactly the files of what went are deleted |
| ArtworkCache.ArtworkCache.GoneIsOlder | native/opennow-core/src/artwork_cache.rs:746-769 | an evicted entry was last used no later than any deletable entry that stayed, and at the same time has the smaller key |
| ArtworkCache.ArtworkCache.LastWasNeeded | native/opennow-core/src/artwork_cache.rs:752-757 | with the last evicted entry put back a limit would be exceeded |
| ArtworkCache.LexLessAt | native/opennow-core/src/artwork_cache.rs:751-751 | of two ordered keys the first ends, or has the smaller character, where they first differ |
| ArtworkCache.ArtworkCache.EvictInTurn | native/opennow-core/src/artwork_cache.rs:752-769 | one turn keeps the running totals equal to the real sum and count |
| ArtworkCache.ArtworkCache.PrunedStep | native/opennow-core/src/artwork_cache.rs:752-769 | a turn taken while the limits do not hold keeps eviction exact |
| ArtworkCache.ArtworkCache.InsertFits | native/opennow-core/src/artwork_cache.rs:363-377 | indexing an object, new or replacing, takes no more room than the prune before it made |
| ArtworkCache.ArtworkCache.StoreDownload | native/opennow-core/src/artwork_cache.rs:351-384 | a download succeeds exactly when exact eviction of the least recently used made room in both limits and the rename worked; then it is indexed with its size, its file exists, and both limits hold; every entry still names an existing file of its recorded size |
| ArtworkCache.ArtworkCache.Lookup | native/opennow-core/src/artwork_cache.rs:323-349 | a key is found exactly when indexed and its file can be inspected, the file then has the recorded size, and only the access time changes |
| ArtworkCache.ArtworkCache.LoadAndReconcile | native/opennow-core/src/artwork_cache.rs:277-321 | after start-up the entries are what evicting the least recently used leaves of the readable objects on disk, each with its file's size and its recorded access time if there was one, and otherwise the file's; with every file deletable both limits hold |
| ArtworkCache.OldestFirst | native/opennow-core/src/artwork_cache.rs:746-751 | the eviction order lists every key once; access times never fall along it, and where they are equal the keys ascend by their first differing character |
| ArtworkCache.SumBytes | native/opennow-core/src/artwork_cache.rs:740-744 | the total does not depend on the order of summation |
| DownloadQueue.QueueConservation | native/opennow-core/src/artwork_cache.rs:223-266 | in every interleaving `queued` is exactly the keys whose job is being sent, waiting or being downloaded, each once; jobs accepted equal events emitted plus jobs in flight, and are handed out in the order they were accepted |
| DownloadQueue.NoDoubleDownload | native/opennow-core/src/artwork_cache.rs:428-470 | a key being downloaded is downloaded by no other worker and does not wait in the channel |
| DownloadQueue.OneDownload | native/opennow-core/src/artwork_cache.rs:428-470 | the run of one download from its insert to its event ends with everything empty and one event |
| Frames.SentFramesSurviveFragmentation | native/opennow-core/src/discord.rs:589-671 | for any frames sent and any split of the bytes interleaved with polls, the frames taken are always a prefix of those sent, nothing looks corrupt, and all are out with an empty buffer once every byte has arrived |
| Frames.FragmentationIsInvisible | native/opennow-core/src/discord.rs:605-671 | for any byte stream whatever, taking frames as chunks arrive gives what taking them from the whole stream gives, corruption included |
| Frames.TakeEncoded | native/opennow-core/src/discord.rs:645-671 | a written frame is taken back exactly, whatever bytes follow |
| Frames.PrefixIsIncomplete | native/opennow-core/src/discord.rs:645-671 | anything short of a whole written frame is incomplete, never corrupt |
| Frames.TakeIsStable | native/opennow-core/src/discord.rs:645-671 | a frame taken or a corruption found does not depend on later bytes |
| Frames.LittleEndianRoundTrip | native/opennow-core/src/discord.rs:589-604 | the length and opcode words survive encoding |
| Frames.Connection.TakeFrame | native/opennow-core/src/discord.rs:645-671 | an incomplete or corrupt verdict leaves the buffer as it was; a frame takes exactly its bytes away; corrupt is exactly a length over 1 MiB or a complete body that does not parse, incomplete exactly too few bytes otherwise, with opcode and length read lowest byte first |
| Frames.Connection.Send | native/opennow-core/src/discord.rs:589-604 | a body is written as one frame exactly when it is within the limit |
| Mailbox.AnswersAreNeverStale | native/opennow-core/src/discord.rs:276-307 | in every interleaving each status sent to a waiter rests on an intent at least as new as the waiter's own, `connected` names the latest activity asked for by then, and at most 8 waiters queue |
| Mailbox.AppliedIsAcknowledged | native/opennow-core/src/discord.rs:324-373 | `applied` names the last activity acknowledged on that same connection, `connected` is sent only while it is the acknowledged one, and `cleared` only without a connection |
| Mailbox.ConnectNeedsLiveTransport | native/opennow-core/src/discord.rs:324-373 | no connection attempt begins on an abandoned transport |
| Mailbox.NothingConnectsOnceAbandoned | native/opennow-core/src/discord.rs:324-404 | from the moment the transport is abandoned, wherever the worker stands, no continuation connects again |
| Mailbox.CheckSeals | native/opennow-core/src/discord.rs:288-291 | the worker's check on an abandoned transport drops the connection and the pending intent for good |
| Mailbox.AbandonmentIsTerminal | native/opennow-core/src/discord.rs:288-381 | after that, on every continuation, nothing connects again and every later answer is a refusal |
| Mailbox.FailuresKeepTheIntent | native/opennow-core/src/discord.rs:324-381 | in every run without a terminal failure or an abandoned transport, whatever else fails, the desired activity is the last one asked for |
| Mailbox.HealthyRoundConnects | native/opennow-core/src/discord.rs:276-373 | a round in which nothing fails connects, sets the activity asked for last, and tells every waiter so in the order they came |
| Mailbox.ShutdownAnswersAll | native/opennow-core/src/discord.rs:309-315 | a worker that stops tells everyone still in the queue |
| PinLockout.LockoutTimeBound | native/opennow-core/src/console_profiles.rs:303-326 | the n-th acknowledged wrong PIN, through verify, set and clear in any mix with failing writes and restarts between, comes no earlier than the first plus the lockouts of the floor((n-1)/5) completed rounds, or the end of the clock, and stored failures stay below 5 |
| PinLockout.WrongTimesAreWrongPins | native/opennow-core/src/console_profiles.rs:116-252 | over a whole run every failure so counted is a written call that gave something other than the PIN published at that moment |
| PinLockout.Reopen | native/opennow-core/src/console_profiles.rs:66-88 | a restart that can read the document finds every profile as it was published |
| PinLockout.LockoutSumIs | native/opennow-core/src/console_profiles.rs:316-326 | those lockouts are 30 s, 60 s, 300 s, then 900 s each |
| PinLockout.SiegeInvariant | native/opennow-core/src/console_profiles.rs:116-252 | without a success the stored attempt state is a function of the acknowledged failures alone, restarts included, and the PIN stays |
| PinLockout.OneMoreFailure | native/opennow-core/src/console_profiles.rs:316-326 | a failure outside a lockout continues the bounded sequence of failure times |
| PinLockout.UnsuccessfulCall | native/opennow-core/src/console_profiles.rs:116-252 | an unsuccessful call or a restart changes nothing unless the call acknowledged a wrong PIN, and none is acknowledged during a lockout |
| PinLockout.ConsoleProfiles.PersistAndReplace | native/opennow-core/src/console_profiles.rs:278-301 | what is published was written first; a failed write changes neither memory nor disk |
| PinLockout.ConsoleProfiles.VerifyPin | native/opennow-core/src/console_profiles.rs:204-252 | only the stored PIN, outside a lockout, opens the profile and clears its failures; any other four digits are answered as wrong and counted, the fifth failure locks for the step of its round; anything else changes nothing; it fails exactly when a needed write fails, leaving everything as it was; and only this profile moves, on disk too |
| PinLockout.ConsoleProfiles.SetUserPin | native/opennow-core/src/console_profiles.rs:116-164 | a PIN of four digits is set where there is none, and replaces another exactly for a caller who gives that one outside a lockout; any other four digits are counted; a needed write that fails leaves everything as it was; and only this profile moves, on disk too |
| PinLockout.ConsoleProfiles.ClearUserPin | native/opennow-core/src/console_profiles.rs:166-202 | a PIN is removed exactly for a caller who gives it outside a lockout; any other four digits are counted; a needed write that fails leaves everything as it was; and only this profile moves, on disk too |
| PinLockout.ConsoleProfiles.ForgetUser | native/opennow-core/src/console_profiles.rs:254-268 | forgetting removes only that user and fails exactly when a needed write fails |
| LinkAttempts.AttemptsAreBoundedAndCurrent | native/opennow-core/src/account_connections.rs:384-459 | in every interleaving at most 8 attempts exist, all admitted under the current generation, and exactly the attempts that are gone had their listener told to stop |
| LinkAttempts.NothingOutlivesCancel | native/opennow-core/src/account_connections.rs:115-125 | after a cancellation no earlier attempt exists, none is installed by a caller admitted before it, and all earlier listeners were told to stop |
| LinkAttempts.CompletionNeedsCallback | native/opennow-core/src/account_connections.rs:461-538 | a link is reported complete only if its own callback arrived and the poll verifying it found the account connected |
| LinkAttempts.AdmissionRecovers | native/opennow-core/src/account_connections.rs:392-399 | attempts left behind never block linking beyond their lifetime |
| LinkAttempts.AttemptGoesIff | native/opennow-core/src/account_connections.rs:384-538 | whatever the step, an attempt goes in it if and only if all are cancelled, it has expired at an admission, its own account polls it expired or with its callback broken off, or its poll found the account connected |
| LinkAttempts.AttemptComesIff | native/opennow-core/src/account_connections.rs:427-458 | whatever the step, an attempt comes in it if and only if a caller installs it who was admitted under the current generation, with fewer than 8 present; it lives five minutes |
| LinkAttempts.CallerIsAdmittedIff | native/opennow-core/src/account_connections.rs:392-399 | a caller is admitted if and only if fewer than 8 attempts have not expired |
| LinkAttempts.PollVerifiesIff | native/opennow-core/src/account_connections.rs:461-510 | a poll goes on to list the accounts if and only if its attempt is of its scope, alive, answered by the browser and last checked two seconds ago |
| SyncOperations.CompletionIsProved | native/opennow-core/src/account_connections.rs:256-335 | an operation is complete only after a poll saw a success dated later than its baseline, or a baseline with no date, and after the refreshed library was acknowledged; timed out only after 120 s |
| SyncOperations.PhasesOnlyAdvance | native/opennow-core/src/account_connections.rs:311-335 | once its call has returned a phase never goes back, whatever poll answers arrive late |
| SyncOperations.CancellationHoldsIffReturned | native/opennow-core/src/account_connections.rs:232-253 | a cancelled observation stays cancelled on every continuation if and only if its `sync` call has returned |
| SyncOperations.CancelledCallComesBack | native/opennow-core/src/account_connections.rs:232-253 | a run in which a second `sync` is answered with the running operation and cancels it, a third starts, and the first call then comes back to waiting beside it |
| SyncOperations.OneActivePerProvider | native/opennow-core/src/account_connections.rs:181-218 | two operations of one provider are active together only if the call of one wrote over its cancellation |
| SyncOperations.OperationsAreBounded | native/opennow-core/src/account_connections.rs:181-218 | at most 8 operations exist, all of one account scope, and each invalidates successfully at most once |
| SyncOperations.SyncStartsIff | native/opennow-core/src/account_connections.rs:181-218 | a call starts an operation if and only if the account has none of the provider under way and fewer than 8 that are younger than three minutes |
| SyncOperations.OperationGoesIff | native/opennow-core/src/account_connections.rs:115-187 | whatever the step, an operation goes in it if and only if all are cancelled or a call comes from another account or three minutes after it started |
| SyncOperations.FreshSuccessCompletes | native/opennow-core/src/account_connections.rs:256-335 | a waiting operation whose poll is due and sees a success dated after the baseline is complete once the library refresh is acknowledged |
| FilterMerge.ExpressionHasPathSemantics | native/opennow-core/src/catalog_types.rs:163-210 | from type-consistent inputs every object path of the result holds the union of the keys, the arrays one after the other, or the last scalar, and no array exceeds 128 items |
| FilterMerge.MergeHasPathSemantics | native/opennow-core/src/catalog_types.rs:164-197 | for any two values: where the source replaced a value of another kind the result is the source's, everywhere else it joins both |
| FilterMerge.FoldHasPathSemantics | native/opennow-core/src/catalog_types.rs:198-210 | the same for a whole fold of type-consistent values |
| FilterMerge.MergeSucceedsIffWithinLimits | native/opennow-core/src/catalog_types.rs:164-197 | a merge succeeds if and only if at every compared path the depth is at most 8 and, if the kinds agree, the source has at most 64 fields or both together at most 128 items |
| FilterMerge.FoldSucceedsIffWithinLimits | native/opennow-core/src/catalog_types.rs:198-210 | a fold succeeds if and only if each input is within those limits against what the inputs before it have come to |
| FilterMerge.ShapesDetermineValue | native/opennow-core/src/catalog_types.rs:164-197 | what is at every path determines the value, so the path semantics leaves nothing open |
| FilterMerge.SingleInputUnchanged | native/opennow-core/src/catalog_types.rs:198-210 | one accepted input comes back unchanged if it is within the limits and fails otherwise |
| FilterMerge.OnlyReplacementBypassesLimit | native/opennow-core/src/catalog_types.rs:190-195 | an array longer than 128 enters a result if and only if the source brings it where it replaces a value of another kind |
| FilterMerge.OnlyReplacementBypassesFold | native/opennow-core/src/catalog_types.rs:190-210 | over any inputs an array of the result exceeds 128 items if and only if the last input that replaced a value of another kind on its path brought it so |
| FilterMerge.MismatchBypassesLimit | native/opennow-core/src/catalog_types.rs:195-195 | two inputs that disagree on one key's type give an array longer than the limit |
| FilterMerge.ArraysStayShort | native/opennow-core/src/catalog_types.rs:190-194 | folding type-consistent values keeps every array within 128 items |
| FilterMerge.FilterExpression | native/opennow-core/src/catalog_types.rs:198-210 | the loop computes the fold the semantics is about; a result needs at most 32 inputs, each an object in a text of at most 8192 bytes, and with such inputs it is their fold into an empty object |
| FilterMerge.MergeInto | native/opennow-core/src/catalog_types.rs:164-197 | the recursive edit in place computes that merge in whatever order the fields come |
| Redaction.RedactIsIdempotent | native/opennow-core/src/diagnostics.rs:442-470 | redacting twice gives what redacting once gives |
| Redaction.NothingSensitiveRemains | native/opennow-core/src/diagnostics.rs:442-470 | no token of the output mentions "token", "authorization", "password" or "secret" in any case, holds an `@`, or opens with one of seven locations behind any opening punctuation; and none of the four words and no `@` stands anywhere in the output |
| Redaction.SensitiveIsLeaks | native/opennow-core/src/diagnostics.rs:444-459 | the test on a trimmed, lower-cased token holds exactly for the tokens that position by position name a credential, hold an `@` or open with a location |
| Redaction.WhatIsShown | native/opennow-core/src/diagnostics.rs:442-470 | the output is the input's first tokens, each such one as `[redacted]` and every other as it is, followed by an ellipsis exactly if the next does not fit |
| Redaction.TokensAreStretches | native/opennow-core/src/diagnostics.rs:444-444 | the tokens are the maximal stretches without whitespace, in order, and leave nothing else out |
| Redaction.RedactStaysNearLimit | native/opennow-core/src/diagnostics.rs:442-470 | the output exceeds its limit by at most 4 bytes |
| Redaction.WholeWhenItFits | native/opennow-core/src/diagnostics.rs:442-470 | text whose rendered tokens fit is cut nowhere: each leaking token is shown as `[redacted]` and every other one as it is |
| Redaction.Redact | native/opennow-core/src/diagnostics.rs:442-470 | the loop keeps the longest run of rendered tokens that fits, counted in UTF-8 bytes, and one ellipsis if anything was cut; none of the four words and no `@` is left in it |
| Redaction.RedactLines | native/opennow-core/src/diagnostics.rs:530-542 | the loop redacts line after line within what is left of the limit |
| Redaction.RedactLinesStaysNearLimit | native/opennow-core/src/diagnostics.rs:530-542 | many lines exceed their limit by at most 1 byte |
| Redaction.NoLineLeaks | native/opennow-core/src/diagnostics.rs:530-542 | no token of the whole text leaks, and none of the four words and no `@` stands anywhere in it |
| Redaction.LinesStayAligned | native/opennow-core/src/diagnostics.rs:530-542 | the output's lines are, one for one, redactions of the first input lines |
| Redaction.RedactLinesIsIdempotent | native/opennow-core/src/diagnostics.rs:530-542 | redacting the lines twice gives what redacting them once gives |
| LogFile.EntryIsOneLine | native/opennow-core/src/diagnostics.rs:434-477 | whatever a caller records becomes exactly one line of at most 1010 bytes, made of its first 48 and 72 characters of area and event that are not control characters and its redacted detail |
| LogFile.BodyReadsBack | native/opennow-core/src/diagnostics.rs:472-477 | the text of a line reads back as its time, area, event and detail unless the area holds a `]` or the event a `:` |
| LogFile.LinesDetermineEntries | native/opennow-core/src/diagnostics.rs:472-477 | under that condition entries with equal lines are equal |
| LogFile.Utf8IsInjective | native/opennow-core/src/diagnostics.rs:276-284 | different texts have different bytes |
| LogFile.CleanTakesFirst | native/opennow-core/src/diagnostics.rs:434-440 | cleaning keeps exactly the characters at the first places, up to the limit, that hold no control character |
| LogFile.LogIsALineTail | native/opennow-core/src/diagnostics.rs:233-285 | with no failure, from files that end their lines, previous followed by current is always a line-aligned tail of everything written, each within 5 MiB |
| LogFile.LogKeepsTheRecent | native/opennow-core/src/diagnostics.rs:233-285 | either nothing was dropped or more than the limit less one line is still there |
| LogFile.ShortenedKeepsLines | native/opennow-core/src/diagnostics.rs:250-260 | an oversize file keeps every line that begins in its last 5 MiB |
| LogFile.DiagnosticsService.Record | native/opennow-core/src/diagnostics.rs:262-285 | with any operation failing, torn writes included, the log stays a tail of what was written within 5 MiB and the last 1200 entries are kept; with none failing the whole line ends the current file |
| LogFile.DiagnosticsService.RotateLog | native/opennow-core/src/diagnostics.rs:233-260 | success gives exactly the rotation; a failure beside a log within its limit loses at most the previous file |
| LogFile.DiagnosticsService.Open | native/opennow-core/src/diagnostics.rs:218-231 | a service that starts has a log within its limit that is a tail of what was found |
| LogFile.RotationIsSound | native/opennow-core/src/diagnostics.rs:233-260 | every rotation, of an oversize file too, keeps the log a line-aligned tail |

## Left out
- Discovery.SortByIndex: an insertion sort stands for the standard library's sort by index.
- ArtworkCache.ArtworkCache.LoadAndReconcile: if two readable objects share a key, which of them is indexed depends on the directory's order; the other file stays as an orphan.
- FilterMerge.FilterExpression: JSON text parsing is outside; an input is its length and its parsed value, and numbers, strings and booleans are one kind of atom.
- HTTP, TLS, headers, request bodies and URL trust checks; a remote call is a nondeterministic answer.
- The slots `active`, `discovered` and `conflict` in the interleavings of `Allocation`, and what `gfn.rs` does besides taking the routing lock and checking the seat's owner.
- `poll`, `claim`, `report_ad` and the gating of resume progress.
- The members of a session other than its negotiated profile, such as the keyboard layout.
- `load_active`, `remove_all` and the texts and number of the vault's warnings.
- The encrypted Windows secret store, the OS keyring, scrypt, SHA-256, base64 and random ids; a PIN hash check is an equality test and ids are fresh names.
- A console-profile document that cannot be read back at start-up: the code then starts with no profiles and no PINs, so the lockout bound is for restarts that can read it.
- Timestamp parsing (section 5.6 of RFC 3339); a parsed date is an integer.
- Wrap-around of byte sums in 64 bits; sizes are unbounded numbers.
- The artwork cache's index file, its flush interval, the download itself and the retry delay after failures.
- Windows overlapped I/O, sockets and the callback listener; the Discord transport keeps only its abandoned flag and the listener only its stop flag.
- The layout of activity payloads, and the export and snapshot of diagnostics.
- Liveness: that a worker, poll or remote answer ever takes its next step.
- Settings, streamer, updater, proxy, network test, the Qt code, the Playnite plugin and packaging.
