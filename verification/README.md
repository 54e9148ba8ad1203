# Verified models of an LLM gateway's back end

This project models the parts of the gateway's Go back end that are hardest to get right and
proves what they promise, for every input, every run or every reachable state:

- the **worker pool** that checks channels concurrently (`HealthCheck`, `WorkerPool`): a
  transition system of producer, workers, closer and reducer with cancellation at any point;
- **upstream model reconciliation** (`Names`, `Reconcile`, `ReconcileLaws`): list operations
  that keep order and drop duplicates, and the detect / apply / auto-sync state machine;
- the **sliding-window rate limiter** and its cleaner (`RateLimiter`), against a
  specification that keeps the full history;
- **multi-key channels** (`MultiKey`): sparse, re-indexed maps refine a list of records;
- **price synchronisation** (`PriceSelect`, `PriceDiff`);
- **relaying with retries**, its pre-charge, settlement and refund (`Billing`, `Relay`,
  `RelayMoney`), over a **replayable request body** (`BodyStorage`, `BodyCache`);
- the **Ogg page scanner** (`OggScan`), **batched model enrichment** (`Enrich`) and
  **saturating quota arithmetic** (`QuotaMath`).

Code that changes state is a class or a method with loops, proved equal to a specification
function; what the code promises is then proved about those functions over whole runs.
`dafny verify dfyconfig.toml` checks everything.

## Conventions

- Time, upstream answers, channel selection, database success and cancellation are inputs.
  A clock never goes back where a lemma says `Ordered`.
- Integers are unbounded; floating-point numbers are reals, with NaN and the infinities where
  the code looks for them. Two's-complement decoding (granule positions) and the int32 range
  (quotas) are written out.
- Go strings are sequences of characters; bodies and audio are sequences of bytes.
- A regular expression, a JSON decoder and a cost filter are uninterpreted functions.
- Iteration over a Go map is an arbitrary choice of the next element, so results hold for
  every order.

## Where the expected property is false

Each of these has a concrete input that shows it and a theorem that says exactly when the
property holds.

- *The rate limiter decides by the full history* exactly when every limit is positive and no
  window lasts longer than the expiration plus one second (`DecisionsMatchIff`); the second
  half alone decides whether the cleaner is invisible (`CleanerInvisibleIff`). The inputs are
  those of `ZeroLimitStillAccepts` and `CleanerForgetsTooEarly`.
- *Detect, apply everything, detect again finds nothing* exactly when no added name contains a
  comma and no addition deletes an ignore rule that is still needed (`SettlesIff`). The inputs
  are those of `CommaExample` and `RegexExample`.
- *An exactly ignored name is never added again* exactly when no step of the run merges in a
  name with a comma that has the ignored name as one of its pieces (`IgnoredRevivedIff`,
  `CommaRevivesExample`).
- *At most `RetryTimes + 1` attempts* holds for all outcomes exactly when the request cannot
  leave its group (not an `auto` token, a locked channel, or no further group) or the setting
  is zero (`SingleBoundIff`). Otherwise a group that runs out of channels hands a fresh counter
  to the next one, with or without cross-group retries; the bound then holds per usable group
  (`AttemptBound`) and cross-group retries reach it (`CrossGroupUsesEveryGroup`).
- *A request that did not fail was attempted* holds for every setting of zero or more
  (`SuccessWasAttempted`) and fails for every negative one, which keeps the pre-charge
  (`NegativeRetriesKeepThePrecharge`) and, for an asynchronous request, breaks off (`TaskMoney`).
- *Settling and refunding exclude each other, and money is conserved* exactly when no
  settlement goes through on a session that was refunded before it (`SettledAndRefundedIff`,
  `SessionConservesMoney`): settling does not look at the refund flag
  (`SettlingAfterRefundUndercharges`).
- *Deleting and appending keys changes only the keys concerned* exactly when the resulting key
  list survives being written one per line (`KeysSurviveIff` and the contracts of `DeleteKey`,
  `DeleteDisabledKeys` and `AppendKeys`; input: `BlankKeyExample`). If all keys are
  automatically disabled, the empty text is not saved and every key is enabled again (input:
  `AllDisabledExample`). If the text starts like an array but does not decode
  (`ExistingKeysAgreeIff`; input: `UndecodableExample`), appending any key replaces the old
  keys, and the new ones take over what was recorded for them, index by index; with no key to
  add, nothing changes.
- *Memory and disk bodies look alike* exactly when no read of zero bytes happens at the end,
  which is EOF in memory and no error on disk (`ObservationsAgreeIff`; input:
  `EmptyReadExample`).
- *Disk usage never exceeds its maximum* exactly when no body that is streamed to disk on the
  strength of its declared length exceeds, by its actual length, the room left (`BoundedIff`,
  `UnderstatedLengthOverruns`).
- *The price report is sound* except for null and `"same"` values, whose exact effect is
  `Artefact` (`ReportedIff`, `DifferencesIff`, `NullExample`).
- *In-range quotas are not clamped* exactly for integers strictly between the two bounds; the
  bounds themselves are representable but reported and, in the strict forms, refused
  (`SaturateExact`, `BoundsAreRejected`).

## Model

| member | source | states |
|---|---|---|
| `HealthCheck.TestChannelForHealthCheck` | controller/channel-test.go:912-956 | Every outcome of checking one channel obeys the summary law (successes and failures add up to the channels counted, disabled within failed, enabled within succeeded); a cancelled check counts nothing; otherwise failed, disabled and enabled hold exactly under the stated combination of error, slowness, policy, auto-ban and status. |
| `WorkerPool.NormalizeConcurrency` | setting/operation_setting/monitor_setting.go:65-73 | A setting in 1..32 is kept, a larger one becomes 32, a smaller one the default, so there is always a worker. |
| `WorkerPool.InitHolds` | controller/channel-test.go:979-986 | The started pool satisfies the protocol invariant. |
| `WorkerPool.LifecycleKept` | controller/channel-test.go:983-1033 | Every step keeps the agreement of wait group, live workers, closed channels, producer and reducer. |
| `WorkerPool.LinkKept` | controller/channel-test.go:986-1028 | Every step keeps the one-to-one link between a worker that carries a job and the job held by it. |
| `WorkerPool.CustodyKept` | controller/channel-test.go:986-1028 | Every step keeps: a job is unsent, held, delivered or dropped in step with the producer's position, and dropped only after a cancellation. |
| `WorkerPool.RecordOfCarrier` | controller/channel-test.go:992-1005 | A worker that moves keeps the record of the job it carries, whether it drops, skips, runs, finishes or delivers it. |
| `WorkerPool.HistoryElsewhere` | controller/channel-test.go:986-1005 | It touches the history of no other job. |
| `WorkerPool.RecordKept` | controller/channel-test.go:992-1005 | Whatever worker moves, each channel's fate, run count and result stay consistent: run at most once, never if skipped, and its result is the one being carried. |
| `WorkerPool.RecordsKept` | controller/channel-test.go:992-1005 | The same for all channels under every kind of step. |
| `WorkerPool.AccountsKept` | controller/channel-test.go:1035-1048 | Every step keeps: reduced summary plus the result in the inbox equals the sum over delivered jobs, and likewise for the count. |
| `WorkerPool.CountedKept` | controller/channel-test.go:1000-1005 | Until a cancellation, every channel that was run and whose result is sent counts as one. |
| `WorkerPool.StepKeepsInv` | controller/channel-test.go:961-1049 | The invariant is inductive over every step of every goroutine, cancellation included. |
| `WorkerPool.RunKeepsInv` | controller/channel-test.go:961-1049 | The invariant holds at the end of every interleaving. |
| `WorkerPool.OneJobPerWorker` | controller/channel-test.go:979-1005 | At most as many jobs are in flight as there are workers. |
| `WorkerPool.InvIsSafe` | controller/channel-test.go:979-1048 | The invariant implies the safety properties below. |
| `WorkerPool.RunIsSafe` | controller/channel-test.go:979-1048 | In every state of every run nobody is left to send on a closed channel, at most the worker count of jobs is in flight, no channel is run twice and no skipped one at all. |
| `WorkerPool.NeverStuck` | controller/channel-test.go:979-1048 | Until the pool returns, some step other than a cancellation is enabled: no deadlock at any cancellation point. |
| `WorkerPool.WorkerStepDecreases` | controller/channel-test.go:986-1012 | Handing out, checking, running, delivering, pausing and leaving each spend the measure, although a delivery fills the inbox. |
| `WorkerPool.StepDecreasesRemaining` | controller/channel-test.go:986-1048 | Every step decreases a natural-number measure. |
| `WorkerPool.RunsEnd` | controller/channel-test.go:986-1048 | Every run has at most six steps per channel, one per worker and four more. |
| `WorkerPool.NothingLeftBehind` | controller/channel-test.go:1019-1033 | Without a cancellation, all jobs are delivered when the last worker leaves. |
| `WorkerPool.ReducedIsLawful` | controller/channel-test.go:1035-1043 | The folded summary obeys the summary law for the number of results folded, in any arrival order. |
| `WorkerPool.ReducedEverything` | controller/channel-test.go:1035-1043 | Once all jobs are delivered and folded, the summary is the sum over all channels. |
| `WorkerPool.SumCounts` | controller/channel-test.go:1035-1043 | If every unskipped channel counts as one and every skipped one as none, the sum counts the unskipped ones. |
| `WorkerPool.ReturnedIsComplete` | controller/channel-test.go:1035-1048 | A pool that returned uncancelled ran every unskipped channel exactly once, summed all results, counts exactly the unskipped channels and reported 0, 1, …, total. |
| `WorkerPool.ReturnedSummary` | controller/channel-test.go:961-1049 | The returned summary is lawful and within the total in every run, and complete in every uncancelled one. |
| `Names.TrimSpace` | controller/channel_upstream_update.go:100-105 | The result has no white space at either end, a trimmed text is unchanged, no character is invented. |
| `Names.NormalizeIsNormal` | controller/channel_upstream_update.go:100-105 | Normalising yields trimmed, non-empty, distinct names, and exactly the names the input stands for. |
| `Names.NormalizeOfNormal` | controller/channel_upstream_update.go:100-105 | Normalising is the identity on normal lists, order included. |
| `Names.NormalizeConcat` | controller/channel_upstream_update.go:107-121 | Normalising a concatenation keeps the first list whole and appends what is new, in order. |
| `Names.MergeModelNames` | controller/channel_upstream_update.go:107-121 | The merge loop computes the normal form of the concatenation. |
| `Names.SubtractModelNames` | controller/channel_upstream_update.go:123-132 | The base's normal form, in order, without the names the second list stands for. |
| `Names.IntersectModelNames` | controller/channel_upstream_update.go:134-143 | The base's normal form, in order, restricted to the names the second list stands for. |
| `Names.SetOfNames` | controller/channel_upstream_update.go:124-139 | The look-up set holds exactly the trimmed non-empty names. |
| `Names.DisjointMerge` | controller/channel_upstream_update.go:107-121 | Two disjoint normal lists merge into their concatenation. |
| `Names.SplitConcat` | model/channel.go:297-302 | Splitting around a separator splits the two sides independently. |
| `Names.SplitJoin` | model/channel.go:297-302 | Splitting what was joined yields the pieces of the parts. |
| `Names.TrimCharInvisible` | model/channel.go:297-302 | Stripping outer separators does not change the normalised names. |
| `Names.StoredNames` | model/channel.go:297-302 | A list stored as text reads back as the comma-separated pieces of its names, normalised. |
| `Names.LocalNamesNormal` | model/channel.go:297-302 | What is read from a channel is always normal and free of commas. |
| `Names.StoredCommaFree` | model/channel.go:297-302 | Round trip: normal lists without commas survive storing. |
| `Reconcile.CollectPendingChanges` | controller/channel_upstream_update.go:179-238 | The loops compute the pending additions and removals, in upstream and local order. |
| `Reconcile.PendingNormal` | controller/channel_upstream_update.go:179-238 | Both pending lists are normal. |
| `Reconcile.PendingMembers` | controller/channel_upstream_update.go:197-236 | A name is pending to be added exactly when upstream offers it and it is neither local, nor a redirect target, nor ignored; to be removed exactly when it is local, not a redirect source and gone upstream. |
| `Reconcile.ApplySelectedModelChanges` | controller/channel_upstream_update.go:145-150 | For any two selections: the normal form of old models followed by additions, without the removals that are not also additions. |
| `Reconcile.SelectedModels` | controller/channel_upstream_update.go:968-969 | For the disjoint selections an application makes, that is the old models and additions without the removals. |
| `Reconcile.ChoiceFacts` | controller/channel_upstream_update.go:961-966 | What an application does is confined to what is pending, and adding beats removing. |
| `Reconcile.IntersectPending` | controller/channel_upstream_update.go:961-965 | Requested names restricted to pending ones. |
| `Reconcile.ChooseRemovals` | controller/channel_upstream_update.go:965-966 | Requested removals that are pending and not being added. |
| `Reconcile.UpdateIgnored` | controller/channel_upstream_update.go:975-978 | Old and new ignore rules, without the names just added. |
| `Reconcile.SubtractBoth` | controller/channel_upstream_update.go:979-980 | What remains pending after additions and ignores. |
| `Reconcile.Channel.constructor` | controller/channel_upstream_update.go:491-500 | A channel holds the given row. |
| `Reconcile.Channel.Save` | controller/channel_upstream_update.go:491-500 | The row is replaced whole, or kept when the database fails. |
| `Reconcile.Channel.CheckAndPersist` | controller/channel_upstream_update.go:502-549 | The new row is the specified one, or the old one when throttled or unsaved; success, the model-change flag and the number automatically added (exactly the pending additions) are characterised. |
| `Reconcile.Channel.Apply` | controller/channel_upstream_update.go:947-995 | The new row and the report (added, removed, both remaining lists, change flag) in terms of the old row; a failed save reports nothing and changes nothing. |
| `Reconcile.AutoSyncAppends` | controller/channel_upstream_update.go:526-540 | Merging the pending additions appends exactly them. |
| `ReconcileLaws.StoredPieces` | model/channel.go:297-302 | A stored list reads back as exactly the trimmed, non-empty pieces between the commas of its names. |
| `ReconcileLaws.AppliedLocal` | controller/channel_upstream_update.go:145-150 | What is read back after an application: the new list itself if no addition has a comma, and all its comma-free names in any case. |
| `ReconcileLaws.ApplyAllModels` | controller/channel_upstream_update.go:1043-1053 | Applying all that was detected keeps the survivors in order and appends the additions. |
| `ReconcileLaws.ApplyAllRules` | controller/channel_upstream_update.go:975-978 | It drops exactly the ignore rules that equal an added name. |
| `ReconcileLaws.SettledModels` | controller/channel_upstream_update.go:947-995 | The stored list after applying everything, when no addition has a comma. |
| `ReconcileLaws.SettledMembers` | controller/channel_upstream_update.go:179-238 | Its membership in terms of the old list, the mapping and upstream. |
| `ReconcileLaws.SettledMissing` | controller/channel_upstream_update.go:179-238 | Nothing is then pending removal. |
| `ReconcileLaws.SettledDetected` | controller/channel_upstream_update.go:179-238 | Nothing is then pending addition exactly when no needed ignore rule was deleted. |
| `ReconcileLaws.CommaNeverSettles` | controller/channel_upstream_update.go:145-150 | A pending name with a comma is pending again after it was applied. |
| `ReconcileLaws.SettlesIff` | controller/channel_upstream_update.go:179-238 | Detect, apply everything, detect again finds nothing if and only if no addition has a comma and no needed rule is deleted. |
| `ReconcileLaws.Settles` | controller/channel_upstream_update.go:179-238 | In particular for all upstream lists without commas and without names that read as regular-expression rules. |
| `ReconcileLaws.ApplySplitsPending` | controller/channel_upstream_update.go:960-994 | Pending additions split into added, ignored and remaining, without loss or overlap; adding beats ignoring, and the rules follow. |
| `ReconcileLaws.CheckConsistent` | controller/channel_upstream_update.go:502-549 | A check leaves no exactly ignored name and no redirect source pending. |
| `ReconcileLaws.ApplyConsistent` | controller/channel_upstream_update.go:947-995 | An application keeps that. |
| `ReconcileLaws.AutoSyncKeepsModels` | controller/channel_upstream_update.go:526-548 | Auto-sync never drops a model: the old list is a prefix of the new one, whatever the names contain. |
| `ReconcileLaws.ApplyKeeps` | controller/channel_upstream_update.go:947-995 | An application removes no redirect source and no exact ignore rule. |
| `ReconcileLaws.StepSafe` | controller/channel_upstream_update.go:502-549 | The same for any step, failed saves included. |
| `ReconcileLaws.RunIsSafe` | controller/channel_upstream_update.go:213-236 | Over any sequence of checks and applications a served redirect source is never removed, and an exactly ignored name stays ignored and never becomes pending. |
| `ReconcileLaws.SyncAddsIff` | controller/channel_upstream_update.go:526-533 | Auto-sync adds a new name if and only if it is a piece of a pending addition. |
| `ReconcileLaws.ApplyAddsIff` | controller/channel_upstream_update.go:968-973 | An application adds a new name if and only if it is a piece of a chosen addition. |
| `ReconcileLaws.StepAddsIff` | controller/channel_upstream_update.go:526-548 | The same for one step, failed saves, throttled checks and failed fetches included. |
| `ReconcileLaws.RunAddsIff` | controller/channel_upstream_update.go:526-548 | Over any run a name not served comes to be served if and only if some step merges in a name that has it as a piece. |
| `ReconcileLaws.IgnoredPieces` | controller/channel_upstream_update.go:213-236 | For an exactly ignored name, being a piece of a merged-in name and being a piece of one with a comma are the same. |
| `ReconcileLaws.IgnoredRevivedIff` | controller/channel_upstream_update.go:947-995 | Over any run an exactly ignored name comes to be served if and only if some step merges in a name with a comma that has it as a piece. |
| `ReconcileLaws.IgnoredNeverRevived` | controller/channel_upstream_update.go:213-236 | In particular over any run whose names are free of commas. |
| `ReconcileLaws.CommaExample` | controller/channel_upstream_update.go:145-150 | The comma condition is needed: upstream offering `a,b` never settles. |
| `ReconcileLaws.DeletedRuleUnsettles` | controller/channel_upstream_update.go:975-978 | Whenever upstream offers a name that is the rule ignoring another of its names, adding it leaves the other pending. |
| `ReconcileLaws.RegexExample` | controller/channel_upstream_update.go:975-978 | The condition on ignore rules is needed: upstream offering `regex:^gpt` and `gpt-4` does not settle. |
| `ReconcileLaws.CommaRevivesExample` | controller/channel_upstream_update.go:947-995 | And adding `a,b` revives an ignored `b`. |
| `RateLimiter.InMemoryRateLimiter.constructor` | common/rate-limit.go:14-26 | A new limiter has an empty store. |
| `RateLimiter.InMemoryRateLimiter.Request` | common/rate-limit.go:45-70 | Decision and new store as specified; no queue is ever empty. |
| `RateLimiter.InMemoryRateLimiter.ClearExpiredItems` | common/rate-limit.go:28-42 | The store keeps exactly the keys whose last acceptance has not expired, in whatever order keys are visited. |
| `RateLimiter.QueueDecides` | common/rate-limit.go:49-66 | The bounded queue admits a request exactly when the full history has fewer than `max` recent acceptances. |
| `RateLimiter.QueueAccepts` | common/rate-limit.go:49-66 | Appending, or shifting and appending, keeps the queue the relevant suffix of the history. |
| `RateLimiter.RequestSimulates` | common/rate-limit.go:45-70 | A request decides alike on queue and history and keeps them related. |
| `RateLimiter.AllRequestSimulate` | common/rate-limit.go:45-70 | The same for the stores of all keys: other keys are untouched. |
| `RateLimiter.QueueExpires` | common/rate-limit.go:33-39 | Forgetting a queue whose last entry has expired loses nothing that a window still needs. |
| `RateLimiter.CleanSimulates` | common/rate-limit.go:28-42 | A cleaner step forgets only what has left every window. |
| `RateLimiter.RunSimulates` | common/rate-limit.go:28-70 | On every ordered run limiter and history stay related and decide alike. |
| `RateLimiter.DecisionsMatchSpec` | common/rate-limit.go:45-70 | A request is accepted exactly when fewer than `max` requests were accepted in the last `duration`, wherever the cleaner runs. |
| `RateLimiter.DecidesLikeSpec` | common/rate-limit.go:45-70 | The same for any next request after any run. |
| `RateLimiter.AcceptedIsHistory` | common/rate-limit.go:45-70 | The times the limiter accepted are exactly the specified history. |
| `RateLimiter.WindowIsRecent` | common/rate-limit.go:57-63 | What lies in a half-open window is recent at any time in it. |
| `RateLimiter.AtMostMaxInEveryWindow` | common/rate-limit.go:45-70 | No window of the specified history overflows. |
| `RateLimiter.NoWindowOverflows` | common/rate-limit.go:45-70 | Every half-open window of length `duration` holds at most `max` actual acceptances. |
| `RateLimiter.SpecIgnoresCleaning` | common/rate-limit.go:28-42 | Cleaner steps do not exist for the specification. |
| `RateLimiter.BurstFillsQueue` | common/rate-limit.go:49-56 | `n` simultaneous requests fill a queue of `n`. |
| `RateLimiter.CleanerForgetsTooEarly` | common/rate-limit.go:28-42 | A window longer than the expiration plus one second has a run on which the cleaner changes a decision. |
| `RateLimiter.CleanerInvisibleIff` | common/rate-limit.go:28-42 | Inserting cleaner steps anywhere changes no decision on any run if and only if no window lasts longer than the expiration plus one second. |
| `RateLimiter.ZeroLimitStillAccepts` | common/rate-limit.go:64-68 | With a limit of zero the first request still passes, against the specification. |
| `RateLimiter.DecidesOtherwise` | common/rate-limit.go:28-70 | Otherwise there is an ordered run decided differently. |
| `RateLimiter.DecisionsMatchIff` | common/rate-limit.go:28-70 | Every ordered run is decided by the full history if and only if all limits are positive and no window lasts longer than the expiration plus one second. |
| `MultiKey.KeysSurviveIff` | model/channel.go:183-205 | Keys written one per line read back unchanged if and only if none contains a line break and the outer ones are not empty or, when the text reads as an array, it is an array of these very keys. |
| `MultiKey.LinesSurviveIff` | model/channel.go:183-205 | The first half: for a text that does not read as an array. |
| `MultiKey.SurvivorsCounted` | model/channel.go:550-597 | Keys that survive are counted right when saved, so that no status is dropped. |
| `MultiKey.CopyEntries` | controller/channel.go:1859-1877 | Copying one key's entries under the next free index appends exactly its record. |
| `MultiKey.DropKey` | controller/channel.go:1846-1878 | The re-indexing loop removes one record from the list and changes no other. |
| `MultiKey.BlankKeyExample` | controller/channel.go:1888-1889 | Deleting `a` from the keys `a`, blank and `b` also loses the blank key. |
| `MultiKey.CopyDisabled` | controller/channel.go:1929-1944 | The same copying as done while deleting disabled keys. |
| `MultiKey.DropAutoDisabled` | controller/channel.go:1909-1946 | The loop keeps exactly the records not automatically disabled, in order, with status, time and reason, and counts the others. |
| `MultiKey.AllDisabledExample` | controller/channel.go:1908-1963 | With its only key automatically disabled, a channel keeps none, and its text stays. |
| `MultiKey.DisableEnabled` | controller/channel.go:1781-1810 | Every enabled key becomes manually disabled, others stay, and the count is right. |
| `MultiKey.ExistingKeysAgreeIff` | controller/channel.go:1027-1040 | Appending sees the keys that everything else sees unless the text starts like an array and does not decode. |
| `MultiKey.UndecodableExample` | controller/channel.go:1027-1040 | A text like `[x` that does not decode holds one key, which appending does not see. |
| `MultiKey.NewKeys` | controller/channel.go:1060-1089 | Non-blank, distinct new keys in input order, without those that exist. |
| `MultiKey.AppendedRecords` | controller/channel.go:1091-1092 | Appending keys leaves all old records in front and enables the new ones. |
| `MultiKey.PagesArePrefix` | controller/channel.go:1643-1654 | The first `n` pages are a prefix of the filtered list. |
| `MultiKey.LastPage` | controller/channel.go:1633-1641 | The page count is the least that covers the list, and at least one. |
| `MultiKey.PagesCover` | controller/channel.go:1633-1654 | All pages together list every matching key once, in order. |
| `MultiKey.ScanKeys` | controller/channel.go:1571-1631 | The listing loop collects the matching records in order and counts all three statuses. |
| `MultiKey.ListKeys` | controller/channel.go:1558-1670 | The page of the matching records, with page number and size corrected, the page count and all three status counts. |
| `MultiKey.Channel.constructor` | model/channel.go:183-205 | A channel with tidy per-key state. |
| `MultiKey.Channel.Update` | model/channel.go:550-597 | Saving keeps the old text if the new one is empty, recounts the keys, drops statuses beyond them. |
| `MultiKey.Channel.SaveInfo` | model/channel.go:550-597 | Saving tidy per-key state under the same text stores it unchanged. |
| `MultiKey.Channel.DisableKey` | controller/channel.go:1672-1713 | Exactly the record at a valid index becomes manually disabled; an invalid index changes nothing. |
| `MultiKey.Channel.EnableKey` | controller/channel.go:1715-1755 | Exactly that record becomes enabled without time or reason. |
| `MultiKey.Channel.EnableAllKeys` | controller/channel.go:1757-1779 | Every record becomes enabled without time or reason; the reported count is that of explicit statuses. |
| `MultiKey.Channel.DisableAllKeys` | controller/channel.go:1781-1826 | Every enabled record becomes manually disabled, and the count is right. |
| `MultiKey.Channel.DeleteKey` | controller/channel.go:1828-1906 | The text becomes the remaining keys, one per line; the list loses that record and nothing else exactly when they survive that; the last key cannot be deleted. |
| `MultiKey.Channel.DeleteDisabledKeys` | controller/channel.go:1908-1975 | The same for the automatically disabled records; if no key would be left, all stay and are enabled. |
| `MultiKey.Channel.AppendKeys` | controller/channel.go:1019-1092 | Lines or Vertex key objects; an array that does not decode changes nothing. The new keys are those neither blank, repeated nor present; the key list becomes old and new keys exactly when these survive, and then every old record keeps its place and the new ones are enabled. If the stored text starts like an array and does not decode, new keys that survive replace the old ones and take over their state by index, and with nothing to add nothing changes. |
| `MultiKey.Channel.SaveKeys` | model/channel.go:550-597 | A saved key list keeps all its records exactly when it survives; an empty text is not saved. |
| `PriceSelect.LessAsymmetric` | controller/ratio_sync.go:915-919 | Provider order is asymmetric. |
| `PriceSelect.PickIsCheapest` | controller/ratio_sync.go:881-904 | One replacement step stays within an epsilon of every price seen before. |
| `PriceSelect.PickStaysNear` | controller/ratio_sync.go:881-904 | One step stays within an epsilon of all prices, the new one included. |
| `PriceSelect.FoldIsCheapest` | controller/ratio_sync.go:881-904 | Over providers in order the choice is a real candidate, non-zero if any is, and less than an epsilon above every non-zero price; among free ones, the first. |
| `PriceSelect.DriftWithoutOrder` | controller/ratio_sync.go:881-904 | The order is needed: without it the choice can end an epsilon above the cheapest. |
| `PriceSelect.SelectCandidates` | controller/ratio_sync.go:915-944 | The nested loops select, for every model, the fold over its candidates. |
| `PriceSelect.CandidatesNext` | controller/ratio_sync.go:934-943 | One more provider offers at most one more candidate per model. |
| `PriceSelect.CandidatesOffered` | controller/ratio_sync.go:934-938 | Every candidate is a real offer of its provider. |
| `PriceSelect.CandidatesOrdered` | controller/ratio_sync.go:845-944 | Candidates of sorted providers are in provider order, have non-negative prices and come from a provider's entry. |
| `PriceSelect.SelectionIsCheapest` | controller/ratio_sync.go:881-944 | For every offered model, the selected price is non-zero if any is and less than 1e-9 above the cheapest non-zero one. |
| `PriceSelect.ScaledQuotient` | controller/ratio_sync.go:777-783 | Changing the unit does not change a ratio of prices. |
| `PriceSelect.ConversionsAgree` | controller/ratio_sync.go:744-793 | The per-token and per-million conversions accept the same prices and give the same model, completion and cache ratios. |
| `PriceDiff.Compare` | controller/ratio_sync.go:605-624 | What is shown for one channel, and whether that is a difference. |
| `PriceDiff.BuildItem` | controller/ratio_sync.go:595-641 | The full entry of a model and field over all channels, and whether it is wanted. |
| `PriceDiff.BuildRow` | controller/ratio_sync.go:593-653 | A model's row holds exactly its wanted entries. |
| `PriceDiff.ModelsOf` | controller/ratio_sync.go:544-548 | The models a table mentions. |
| `PriceDiff.AllModels` | controller/ratio_sync.go:542-556 | The models mentioned locally or by any channel. |
| `PriceDiff.BuildRows` | controller/ratio_sync.go:540-654 | The first pass yields exactly the wanted entries of all models. |
| `PriceDiff.DiffNames` | controller/ratio_sync.go:656-665 | The channels a row shows a difference for. |
| `PriceDiff.ActiveNames` | controller/ratio_sync.go:656-665 | The channels any row shows a difference for. |
| `PriceDiff.PruneRow` | controller/ratio_sync.go:668-688 | A row keeps active channels only, and drops entries on which all of them agree. |
| `PriceDiff.PruneRows` | controller/ratio_sync.go:667-693 | The same for all rows, without empty ones. |
| `PriceDiff.BuildDifferences` | controller/ratio_sync.go:536-696 | The result of all passes is, entry by entry, the specified one: values and confidence for exactly the active channels; no row is empty. |
| `PriceDiff.NamesAreActive` | controller/ratio_sync.go:656-665 | The collected names are the active channels of the specification. |
| `PriceDiff.SameNames` | controller/ratio_sync.go:626-628 | Values and confidence are kept for the same channels. |
| `PriceDiff.RestrictedIsExact` | controller/ratio_sync.go:669-674 | Dropping the inactive channels leaves exactly the active ones in both maps. |
| `PriceDiff.PrunedIsExact` | controller/ratio_sync.go:667-693 | Pruning exact rows by the active names gives the specified entries. |
| `PriceDiff.SurvivesIff` | controller/ratio_sync.go:676-687 | An entry survives pruning exactly when some active channel does not agree. |
| `PriceDiff.ShownDiffIsReal` | controller/ratio_sync.go:605-629 | A shown difference is a supplied value that is absent locally or not nearly equal, and it is that value. |
| `PriceDiff.UpstreamAt` | controller/ratio_sync.go:605-629 | With distinct names each channel's own value is shown under its name. |
| `PriceDiff.UpstreamNames` | controller/ratio_sync.go:605-629 | Only channel names occur. |
| `PriceDiff.ActiveIff` | controller/ratio_sync.go:656-665 | The listed channels are exactly those with a real difference somewhere. |
| `PriceDiff.RealDiffReported` | controller/ratio_sync.go:667-693 | Completeness: pruning never removes a real difference. |
| `PriceDiff.ArtefactReported` | controller/ratio_sync.go:667-693 | The null and `"same"` cases are reported as well. |
| `PriceDiff.ReportedIsReal` | controller/ratio_sync.go:536-696 | Soundness: every reported entry is real or such a case. |
| `PriceDiff.ReportedIff` | controller/ratio_sync.go:536-696 | Both directions, for all inputs with distinct channel names. |
| `PriceDiff.PlainReportIff` | controller/ratio_sync.go:536-696 | Without null and `"same"` values an entry is reported if and only if some channel really differs. |
| `PriceDiff.DifferencesIff` | controller/ratio_sync.go:536-696 | Such a result has an entry exactly for the real differences and the null and `"same"` cases, and an entry names a channel exactly when that channel really differs somewhere. |
| `PriceDiff.NullExample` | controller/ratio_sync.go:605-629 | A null price is reported though nothing differs. |
| `Billing.BillingSession.constructor` | service/billing_session.go:385-388 | A fresh session has taken nothing. |
| `Billing.BillingSession.PreConsumeQuota` | service/billing_session.go:187-241 | The pre-charge, its trust bypass and the undoing of the token charge when funding fails. |
| `Billing.BillingSession.ReserveQuota` | service/billing_session.go:153-179 | A top-up to a target, undone on failure of its second half. |
| `Billing.BillingSession.SettleQuota` | service/billing_session.go:42-80 | Settlement by difference, once the funding part is in. |
| `Billing.BillingSession.RefundQuota` | service/billing_session.go:83-146 | Refund of an unsettled session, once. |
| `Billing.PreConsumeBalances` | service/billing_session.go:187-241 | A failed pre-charge takes nothing; a successful one takes exactly the quota from both balances, or nothing when trusted. |
| `Billing.OpKeepsBalance` | service/billing_session.go:42-179 | Every operation, succeeding or failing, keeps balances equal to the start less what the session holds, unless it is a settlement that goes through after a refund. |
| `Billing.OpMakesBoth` | service/billing_session.go:42-146 | The same for one operation. |
| `Billing.SettledAndRefundedIff` | service/billing_session.go:42-146 | A session ends both settled and refunded if and only if some settlement goes through on it after it was refunded. |
| `Billing.SessionConservesMoney` | service/billing_session.go:42-179 | Over any sequence of operations, money is conserved and the first of settling and refunding is final, if and only if no settlement goes through after a refund. |
| `Billing.SettlingAfterRefundUndercharges` | service/billing_session.go:42-80 | A settlement after a refund charges too little by the pre-charge. |
| `Billing.RefundRestoresOnce` | service/billing_session.go:83-146 | A refund restores both balances, a second one does nothing, a settled session is untouched. |
| `Relay.RetryParam.constructor` | controller/relay.go:184-190 | A fresh counter. |
| `Relay.RetryParam.IncreaseRetry` | service/channel_select.go:33-42 | One more retry, unless a reset was requested. |
| `Relay.RetryParam.SelectChannel` | service/channel_select.go:83-189 | The walk over groups finds what the recursive specification finds and leaves the same counter, mark and group. |
| `Relay.SelectAutoCases` | service/channel_select.go:83-189 | The ways a selection can move the cursor. |
| `Relay.ChosenProgresses` | controller/relay.go:194-205 | A turn leaves the group or uses up one of its retries, so the loop ends. |
| `Relay.RetryLoop` | controller/relay.go:194-244 | The loop makes the specified attempts, fails as specified and touches the money in the specified order. |
| `Relay.TurnSpendsBudget` | controller/relay.go:194-244 | Each attempt spends at least one from the budget. |
| `Relay.AttemptsWithinBudget` | controller/relay.go:194-244 | Attempts from any point on are within the budget left. |
| `Relay.AttemptBound` | controller/relay.go:194-244 | At most `RetryTimes + 1` attempts per usable group, for every sequence of outcomes. |
| `Relay.MovingOnUsesRetries` | service/channel_select.go:83-189 | A group entered with a fresh counter uses up all retries left there. |
| `Relay.MovingOnExceeds` | service/channel_select.go:83-189 | Otherwise a group without channels on the retry leads to at least `RetryTimes + 2`, with or without cross-group retries. |
| `Relay.SingleBoundIff` | controller/relay.go:194-244 | At most `RetryTimes + 1` attempts for all outcomes if and only if the request cannot leave its group or the setting is zero. |
| `Relay.FailingUsesBudget` | service/channel_select.go:83-189 | A persistent failure uses the whole budget under cross-group retries. |
| `Relay.CrossGroupUsesEveryGroup` | service/channel_select.go:83-189 | Hence the bound is reached. |
| `Relay.FailsIffNoAttemptSucceeded` | controller/relay.go:194-244 | A request fails if and only if no attempt succeeded. |
| `Relay.NegativeRetriesSkipTheLoop` | controller/relay.go:194-196 | A negative setting makes no attempt and reports no error. |
| `RelayMoney.RelayRequest` | controller/relay.go:164-244 | Pre-charge, retry loop and deferred refund compose as specified. |
| `RelayMoney.RelayTask` | controller/relay.go:508-612 | Retry loop, then settle and store, or refund, as specified; it breaks off if the loop never ran. |
| `RelayMoney.StepIsSound` | controller/relay.go:164-182 | Any money operation keeps balances accounted for. |
| `RelayMoney.RunIsSound` | controller/relay.go:194-244 | So does any sequence without a refund, which leaves the session unrefunded. |
| `RelayMoney.RunKeepsPlayground` | service/billing_session.go:187-241 | Whether the token is charged at all never changes. |
| `RelayMoney.RunStaysUnsettled` | controller/relay.go:524-572 | Without a settlement in it, no sequence settles. |
| `RelayMoney.LoopOpsAllowed` | controller/relay.go:524-572 | What no turn does to the money, the loop does not do. |
| `RelayMoney.LoopNeverRefunds` | controller/relay.go:194-244 | Refunds come from the code around the loop only. |
| `RelayMoney.FailureNeverSettles` | controller/relay.go:194-244 | If only successful attempts settle, a failing loop settles nothing. |
| `RelayMoney.FinalRefund` | controller/relay.go:173-182 | The final refund restores both balances, or does nothing to a settled session. |
| `RelayMoney.FinalSettlement` | controller/relay.go:580-583 | When the final settlement goes through, and what it charges fund and token. |
| `RelayMoney.SettledCost` | service/billing_session.go:42-80 | A settled sequence without a refund has cost exactly what the operation that settled it says. |
| `RelayMoney.RequestMoney` | controller/relay.go:164-244 | If only successful attempts settle, a failed request costs nothing, and in any case if none settled it; it is refunded exactly once if charged, a successful one never; a failed pre-charge causes neither an attempt nor a refund. |
| `RelayMoney.RequestCost` | controller/relay.go:164-244 | A successful request costs, from fund and token, what the operation that settled it says or, unsettled, what is pre-charged. |
| `RelayMoney.TaskMoney` | controller/relay.go:508-612 | Storing and refunding exclude each other; if attempts leave the settling to the end, a settled asynchronous request cost exactly the settled quota, fund and token alike, and a failed one nothing; it breaks off exactly for a negative setting. |
| `RelayMoney.NegativeRetriesKeepThePrecharge` | controller/relay.go:164-244 | A negative setting keeps the pre-charge of a request never attempted. |
| `RelayMoney.SuccessWasAttempted` | controller/relay.go:194-244 | With any other setting, success means that some attempt succeeded. |
| `BodyStorage.MemoryStorage.constructor` | common/body_storage.go:52-60 | An open body at offset 0. |
| `BodyStorage.MemoryStorage.ReadInto` | common/body_storage.go:62-69 | Reading from memory as specified. |
| `BodyStorage.MemoryStorage.SeekTo` | common/body_storage.go:71-78 | Seeking, with refused negative positions. |
| `BodyStorage.MemoryStorage.CloseStorage` | common/body_storage.go:80-87 | Closed for good; again is harmless. |
| `BodyStorage.MemoryStorage.AllBytes` | common/body_storage.go:89-96 | The whole payload, cursor untouched. |
| `BodyStorage.DiskStorage.constructor` | common/body_storage.go:127-156 | An open file at offset 0. |
| `BodyStorage.DiskStorage.ReadInto` | common/body_storage.go:196-203 | Reading from the file as specified. |
| `BodyStorage.DiskStorage.SeekTo` | common/body_storage.go:205-212 | Seeking in the file. |
| `BodyStorage.DiskStorage.CloseStorage` | common/body_storage.go:214-223 | Closed for good; again is harmless. |
| `BodyStorage.DiskStorage.AllBytes` | common/body_storage.go:225-257 | Save, rewind, read fully, restore: the whole payload, cursor untouched. |
| `BodyStorage.StepSame` | common/body_storage.go:62-108 | Both kinds move alike on every operation and show the same except for an empty read at the end. |
| `BodyStorage.RunSame` | common/body_storage.go:62-108 | Both kinds reach the same state on every sequence. |
| `BodyStorage.ObservationsAgreeIff` | common/body_storage.go:196-275 | On every sequence of operations, closes included, all observations agree if and only if no zero-byte read happens at the end. |
| `BodyStorage.EmptyReadExample` | common/body_storage.go:62-69 | Reading nothing from an empty body is EOF in memory and no error on disk. |
| `BodyStorage.PayloadKept` | common/body_storage.go:196-275 | No operation changes the payload. |
| `BodyStorage.ChunksArePrefix` | common/body_storage.go:62-69 | Reads of any sizes concatenate to a prefix of the rest. |
| `BodyStorage.AttemptReadsWholeBody` | common/gin.go:36-45 | After any earlier use, rewinding and reading yields the complete original body. |
| `BodyStorage.ReadersIndependent` | common/body_storage.go:259-275 | Nobody else moves an independent reader. |
| `BodyCache.CacheStats.constructor` | common/disk_cache_config.go:72-91 | Counters start at zero. |
| `BodyCache.CacheStats.Increment` | common/disk_cache_config.go:109-128 | Opening counts one storage and its size. |
| `BodyCache.CacheStats.Decrement` | common/disk_cache_config.go:115-134 | Closing uncounts it, never below zero on disk. |
| `BodyCache.CacheStats.CreateBodyStorage` | common/body_storage.go:286-304 | Memory or disk as specified, counted; a failing disk falls back to memory. |
| `BodyCache.CacheStats.CreateFromReader` | common/body_storage.go:307-348 | Accepted, refused or failed as specified, counted only if accepted. |
| `BodyCache.CacheStats.Close` | common/body_storage.go:80-87 | Uncounted once however often it is closed. |
| `BodyCache.AcceptedIffFits` | common/body_storage.go:307-348 | A body is accepted whole exactly when it fits the limit, whatever length was declared, and is not being streamed to a failing disk; too large and failed are characterised likewise. |
| `BodyCache.CloseOne` | common/body_storage.go:214-223 | What closing one storage does to count and usage of the open ones. |
| `BodyCache.OpenOne` | common/body_storage.go:149-156 | What opening one does. |
| `BodyCache.AddAccurate` | common/body_storage.go:149-156 | Opening a storage keeps the counters exact. |
| `BodyCache.CloseAccurate` | common/body_storage.go:214-223 | So does closing one, again or for the first time. |
| `BodyCache.ApplyAccurate` | common/disk_cache_config.go:109-144 | Every operation keeps the counters exact. |
| `BodyCache.CountersAreExact` | common/disk_cache_config.go:109-144 | Over every run the counters equal number and total size of the open storages of each kind. |
| `BodyCache.StepBoundedIff` | common/body_storage.go:307-348 | The same for one operation. |
| `BodyCache.BoundedIff` | common/disk_cache_config.go:170-177 | Over every run usage is never above the maximum if and only if no body streamed to disk by its declared length exceeds, by its actual one, the room left. |
| `BodyCache.DiskUsageBounded` | common/disk_cache_config.go:170-177 | In particular with declared lengths that are never understated. |
| `BodyCache.UnderstatedLengthOverruns` | common/disk_cache_config.go:170-177 | One understated length takes it above the maximum. |
| `OggScan.TableSize` | common/audio.go:241-245 | The page size is the sum of the lacing values. |
| `OggScan.BufferFields` | common/audio.go:207-235 | The fields of the header buffer are those of the stream at that position. |
| `OggScan.ScanOnce` | common/audio.go:207-249 | One turn moves forward and leaves the result of the scan unchanged. |
| `OggScan.GetOpusDuration` | common/audio.go:196-254 | The loop ends on every byte sequence, computes the specified scan and divides by 48000. |
| `OggScan.LittleEndianRoundTrip` | common/audio.go:228-229 | Decoding undoes encoding. |
| `OggScan.GranuleRoundTrip` | common/audio.go:228-229 | So does the signed 64-bit reading. |
| `OggScan.HeaderFields` | common/audio.go:219-235 | Capture pattern, granule position and segment count stand where the scanner reads them. |
| `OggScan.PageFields` | common/audio.go:219-239 | The fields and the segment table of a page met at its start. |
| `OggScan.ScanPage` | common/audio.go:207-249 | A page met at its start is consumed whole, whatever its body contains. |
| `OggScan.NextPageAt` | common/audio.go:241-249 | After it stands the next page. |
| `OggScan.ScanPages` | common/audio.go:207-249 | Well-formed pages yield the greatest granule position. |
| `OggScan.ScanResynchronises` | common/audio.go:219-226 | Bytes without the capture pattern are skipped one by one. |
| `OggScan.ScanQuietEnd` | common/audio.go:219-226 | Quiet bytes up to the end leave the result as it is. |
| `OggScan.ScanSegments` | common/audio.go:207-249 | From any position on, stretches of quiet noise and pages in turn yield the greatest granule position. |
| `OggScan.ScanFindsGreatest` | common/audio.go:196-254 | Noise, then any well-formed pages, then less than a header: the larger of 0 and the greatest granule position; a pattern inside a body is never taken for a header. |
| `OggScan.ScanSkipsNoise` | common/audio.go:196-254 | The same with noise before, between and after the pages, as long as no capture pattern starts in it. |
| `OggScan.GreatestIsGreatest` | common/audio.go:228-232 | That maximum bounds every page and is attained. |
| `Enrich.List` | controller/model_meta.go:299-306 | A set listed in any order, each element once. |
| `Enrich.SortDistinct` | controller/model_meta.go:308-316 | The same quota types, ascending and distinct. |
| `Enrich.GatherMeaning` | controller/model_meta.go:227-269 | Gathered names, endpoints, groups and quota types are exactly the unions over matching prices. |
| `Enrich.NamesInOrder` | controller/model_meta.go:227-242 | Matched names come in price order, one per matching price. |
| `Enrich.DecimalInjective` | controller/model_meta.go:323-324 | Decimal notation determines the number. |
| `Enrich.KeyInjective` | controller/model_meta.go:320-326 | The `name_type` key determines the channel even if names contain the separator. |
| `Enrich.AddChannels` | controller/model_meta.go:320-326 | Adding channels under their keys makes the union. |
| `Enrich.ListChannels` | controller/model_meta.go:327-333 | Each channel of the union once. |
| `Enrich.UnionOfChannels` | controller/model_meta.go:318-333 | The channels bound to any matched name, each once. |
| `Enrich.SplitByRule` | controller/model_meta.go:178-192 | Indices of exact and of rule models; nil entries in neither. |
| `Enrich.GatherNothing` | controller/model_meta.go:239-242 | No match means nothing gathered. |
| `Enrich.MatchPricing` | controller/model_meta.go:228-268 | One price is folded into exactly the rules it matches. |
| `Enrich.GatherAll` | controller/model_meta.go:221-269 | All prices for all rules: each rule's own fold, unmixed. |
| `Enrich.LookUpMatched` | controller/model_meta.go:271-282 | One batched look-up answers for every matched name as single ones would. |
| `Enrich.FillRule` | controller/model_meta.go:284-338 | A rule model is filled as its own definition says. |
| `Enrich.FillExact` | controller/model_meta.go:194-212 | Exact models are filled in place, others untouched. |
| `Enrich.FillRules` | controller/model_meta.go:284-338 | Rule models are filled in place, others untouched. |
| `Enrich.EnrichModels` | controller/model_meta.go:173-339 | Every entry of the list becomes what the naive definition makes of it alone. |
| `QuotaMath.RoundIsNearest` | common/quota_math.go:119-130 | Within one half, odd-symmetric, exact on integers. |
| `QuotaMath.RoundMonotone` | common/quota_math.go:119-130 | Rounding and truncation preserve order. |
| `QuotaMath.TruncateTowardZero` | common/quota_math.go:98-109 | Truncation is toward zero and by less than one. |
| `QuotaMath.SaturateExact` | common/quota_math.go:72-96 | The result is in the int32 range; a clamp is reported, and the strict form fails, exactly for NaN and when the integer form reaches a bound; otherwise the value is exact. |
| `QuotaMath.SaturateMonotone` | common/quota_math.go:72-86 | Saturation preserves order, infinities included. |
| `QuotaMath.ConversionsMonotone` | common/quota_math.go:98-130 | So do both float conversions. |
| `QuotaMath.SignKept` | common/quota_math.go:98-130 | Neither ever changes sign. |
| `QuotaMath.RoundedExact` | common/quota_math.go:119-130 | Unclamped rounding is the nearest integer, and clamping is characterised. |
| `QuotaMath.RoundedSymmetric` | common/quota_math.go:119-130 | Symmetric around zero and within one half. |
| `QuotaMath.RoundDecimalIsRound` | common/quota_math.go:145-150 | The integer rule for decimals equals rounding of the real value. |
| `QuotaMath.HalfUpQuotient` | common/quota_math.go:145-150 | An integer division with half-up rounding is the floor of the shifted quotient. |
| `QuotaMath.PathsAgree` | common/quota_math.go:119-150 | Float and decimal path agree in value and clamp on every exact value. |
| `QuotaMath.BoundsAreRejected` | common/quota_math.go:72-96 | Exactly the integers strictly between the bounds pass the strict form. |
| `QuotaMath.SettleTestQuota` | controller/channel-test.go:541-549 | The ratio-based settlement with two roundings and a minimum of one. |
| `QuotaMath.TestQuotaMonotone` | controller/channel-test.go:541-549 | More tokens never cost less. |
| `QuotaMath.TestQuotaAccurate` | controller/channel-test.go:541-549 | The two roundings are off by at most 1/2 + ratio/2, the minimum of one by at most 1/2 more. |

## Left out

- HTTP handlers, JSON binding, audit logging, permission checks, notifications and caches around the modelled code: plumbing without an invariant of its own.
- Regular expressions, JSON decoding of key lists and price documents, and URL parsing: library code, uninterpreted where it matters.
- The normalisation of a channel's model mapping and the fetching of upstream lists: both are inputs of `Reconcile`. So is whether a save succeeds; the in-memory copy of a channel whose save failed is not modelled.
- Ability tables that are rewritten after a model list or key list changes.
- `selectChannelsForAutomaticTest`: a filter that would only add an easy member.
- Wall-clock sleeps, scheduling fairness and the early return of the pool for an empty list; a nil progress callback changes nothing but the reports.
- MultiKey.Channel.Update: does not model database errors.
- Billing.BillingSession.PreConsumeQuota: the trust decision and the choice between wallet and subscription are inputs; writes that undo a half-done operation are taken to succeed.
- Billing.BillingSession.RefundQuota: the refund runs in the background in the source; here it happens at once, and its own retries are not modelled.
- The violation fee charged on some failed requests, and Midjourney polling refunds.
- Relay.RetryParam.SelectChannel: which channel a group offers at a priority, and cost filtering, are inputs.
- BodyStorage.MemoryStorage.AllBytes: the source returns its own slice; that a caller could write through it is not modelled.
- Mutexes of the body storages and concurrent creation: operations are atomic and sequential; resets and rescans of the cache counters from outside are not modelled.
- Independent body readers are cursors of the abstract store, not objects of their own; seek modes beyond the three standard ones are not modelled.
- `PriceDiff` compares decoded values; values that cannot be compared, and the assembly of the tables by the two converters beyond their ratios, are not modelled.
- Enrich.EnrichModels: failing look-ups are not modelled, the list holds values instead of references, and endpoint lists are sets rather than JSON text.
- QuotaMath.SettleTestQuota: per-price and tiered settlement, and the rounding of floating-point products, are not modelled.
- OggScan.GetOpusDuration: a reader that fails or returns less than asked before the end is not modelled.
- The other audio formats, mail, payment gateways, sign-in methods and request-target filters.
