# ReputatorBot, modelled in Dafny

ReputatorBot is a Reddit app that keeps a reputation score per user. A
comment containing the thanks command gives the author of the parent comment
one point. The bot writes that score into a ledger (a sorted set in the app's
key-value store) and into the user's flair, and may tell people about it by
private message or by comment.

Around that core the app does four more things:

- It keeps a maintenance queue. Every scored user has an entry holding the time
  of their next account check. A sweep removes deleted accounts from both sets.
- Moderators can back the ledger up to a wiki page and restore it from there,
  skipping or overwriting existing scores.
- It publishes a leaderboard wiki page and a leaderboard post whose pages show
  seven users each.
- It validates its settings.

The model has one module per source file, plus helper modules:

| module | file | what it holds |
|---|---|---|
| `Wrappers` | `wrappers.dfy` | `Option` |
| `JsString` | `jsstring.dfy` | the JavaScript string built-ins the source calls (`trim`, `toLowerCase`, `includes`, `split`, `join`, `toString`, `parseInt`) |
| `Codec` | `codec.dfy` | the backup blob: a JSON document, or text that does not decode |
| `Utility` | `utility.dfy` | `replaceAll` |
| `Settings` | `settings.dfy` | the three enumerations, the settings record, its defaults and validators |
| `Host` | `host.dfy` | the platform: the stores as a `Context` class whose fields the handlers update, a `World` value that snapshots them, sorted-set operations, and predicates that say when a range query's answer is correct |
| `CleanupTasks` | `cleanup_tasks.dfy` | the maintenance queue |
| `ThanksPoints` | `thanks_points.dfy` | reading a score, the guard chain, the award, the manual score form |
| `BackupAndRestore` | `backup_and_restore.dfy` | backup, the restore prompt and the merge |
| `Leaderboard` | `leaderboard.dfy` | the leaderboard wiki page |
| `LeaderboardStateModel` | `leaderboard_state.dfy` | the leaderboard post's state: entries, page and page size |

Each handler that changes state is a method that `modifies` the `Context`. Its
`ensures` ties the new state to a specification function of the old state,
such as `ThanksSpec`, `SweepSpec`, `PopulateSpec`, `RestoreSpec` or
`PublishSpec`. The properties the app promises are proved as lemmas about
those functions.

The handlers model the code as written, including the three defects listed
under "## Findings". Beside each defect the model keeps a corrected
definition (`AwardedUserNotices`, `PopulateSpecIntended`, `LeaderboardSize`)
with the intended property proved about it; no handler uses those.

Several inputs are parameters:

- The clock is `now`, in milliseconds. A day is 86,400,000 ms.
- The next cron run of the cleanup job is `nextCron`.
- The random offsets of the consistency pass are functions from user name to
  an offset within 28 days.
- What the platform knows about users, comments and moderators, and the
  library helpers (markdown escaping, the regex engine, date formatting), are
  fields of a `Reddit` value.

- The default reply texts are a `Settings.TemplateDefaults` parameter of the
  handlers. `Settings.TEMPLATE_DEFAULTS` holds the texts the app ships
  (`src/settings.ts:61-66`).

Store queries are parameters as well. The `Host` predicates `IsScoreRange`,
`IsListing` and `IsTopRange` say what a correct answer is, and the order of
equal scores is left open. Two exceptions are computed inside the method
because the method wrote the store first: the earliest queue entry
(`Host.Context.FirstByScore`) and the full ledger listing (`Host.ZRangeAll`).

Where code comments and code disagree, the model follows the code.
`src/cleanupTasks.ts:58` and `src/thanksPoints.ts:304` say "one day" and "24 hours", but the
interval written is `DAYS_BETWEEN_CHECKS` = 28 days.

## Model

| member | source | states |
|---|---|---|
| Codec.Decompress | src/backupAndRestore.ts:34-37 | decoding fails exactly for text that is not a deflated JSON document |
| Codec.DecompressCompress | src/backupAndRestore.ts:30-37 | decompressing what `compressScores` wrote gives the document back |
| JsString.Trim | src/thanksPoints.ts:88 | the result is an infix of the input with only white space cut from either end, and neither starts nor ends with white space |
| JsString.ToLower | src/thanksPoints.ts:88 | same length, every character lowered |
| JsString.ToLowerIdempotent | src/thanksPoints.ts:142 | lowering twice is lowering once |
| JsString.NatToString | src/thanksPoints.ts:345 | a score's text is a non-empty run of decimal digits |
| JsString.DecimalRoundTrip | src/thanksPoints.ts:66 | `parseInt` of a score's decimal text gives the score back |
| Utility.SplitJoinsBack | src/utility.ts:4 | joining the pieces of `split(sep)` with the same separator rebuilds the text |
| Utility.SplitPiecesAvoidSeparator | src/utility.ts:4 | no piece of `split(sep)` contains the separator |
| Utility.SplitJoin | src/thanksPoints.ts:88 | splitting a list joined by a one-character separator, whose names do not contain it, gives the names back |
| Utility.SplitWithoutOccurrence | src/utility.ts:4 | text without the separator splits into itself alone |
| Utility.ReplaceAllWithoutOccurrence | src/utility.ts:3-5 | text with no occurrence of the pattern is returned unchanged |
| Utility.ReplaceAllBySelf | src/utility.ts:3-5 | replacing a pattern by itself returns the input |
| Utility.ReplaceAllLength | src/utility.ts:3-5 | each occurrence changes the length by the replacement's length minus the pattern's |
| Utility.ReplaceAllOfEmpty | src/utility.ts:3-5 | the empty text stays empty |
| Utility.ReplaceAllEmptyPattern | src/utility.ts:3-5 | an empty pattern puts the replacement between adjacent characters |
| Settings.FlairHandlingFromValue | src/settings.ts:37-41 | a stored string maps back to the one flair-handling value with that string, if any |
| Settings.ReplyOptionFromValue | src/settings.ts:43-47 | the same for reply options |
| Settings.LeaderboardModeFromValue | src/settings.ts:55-59 | the same for leaderboard modes |
| Settings.ChoicesAreExactlyTheMembers | src/settings.ts:49-53 | each select lists three choices, every member of its enumeration appears, and the stored strings are distinct |
| Settings.SelectFieldHasOptionChosen | src/settings.ts:75-79 | accepted exactly when one option is chosen |
| Settings.ValidateThanksCommand | src/settings.ts:91-95 | accepted exactly when the command is non-empty |
| Settings.WikiPageNameShape | src/settings.ts:299 | `^[\w/]+$` matches exactly the non-empty names of word characters and `/` |
| Settings.ValidateLeaderboardWikiPage | src/settings.ts:298-303 | accepted exactly when empty or made only of word characters and `/` |
| Settings.ValidateLeaderboardSize | src/settings.ts:310-314 | accepted exactly when unset, 0, or between 10 and 100 |
| Settings.DefaultsAreValid | src/settings.ts:90-309 | every default passes its own validator |
| Settings.PatternMatchesUuids | src/settings.ts:69 | the template regex accepts exactly lowercase-hex text in the 8-4-4-4-12 layout of section 3 of RFC 4122 |
| Settings.IsFlairTemplateValid | src/settings.ts:68-73 | accepted exactly when empty or such a UUID |
| Host.ZAdd | src/cleanupTasks.ts:14 | `zAdd` adds the listed members and leaves every other member's score alone |
| Host.ZAddLastWins | src/backupAndRestore.ts:150 | a member listed several times ends with the score of one of its entries (the last one) |
| Host.ZAddUniform | src/cleanupTasks.ts:14 | members written with one common score all end with that score |
| Host.ZRem | src/cleanupTasks.ts:66-67 | `zRem` removes exactly the listed members and keeps the others' scores |
| Host.ZRangeAll | src/backupAndRestore.ts:137 | `zRange(key, 0, -1)` lists every member once with its score |
| Host.RankCount | src/leaderboard.ts:23 | the row count of a rank query ending at `stop`, counting a negative stop from the end |
| Host.EarliestTime | src/cleanupTasks.ts:132 | none for an empty queue, else the smallest due time in it |
| Host.Context.FirstByScore | src/cleanupTasks.ts:132-138 | the first entry by score is absent only for an empty queue and is due no later than any other |
| CleanupTasks.ScheduledChecks | src/cleanupTasks.ts:10-15 | the listed users are due 28 days from now, and everyone else keeps their time |
| CleanupTasks.ScheduledChecksOfNobody | src/cleanupTasks.ts:11-13 | an empty list leaves the queue as it was |
| CleanupTasks.ZAddEntries | src/cleanupTasks.ts:14 | the `zAdd` of the mapped entries is that schedule |
| CleanupTasks.SetCleanupForUsers | src/cleanupTasks.ts:10-15 | the queue becomes that schedule and nothing else changes |
| CleanupTasks.RearmJobs | src/cleanupTasks.ts:131-153 | one ad-hoc run, 5 minutes after the earliest entry, exactly when that is more than 5 minutes before the next cron run |
| CleanupTasks.RearmJobTiming | src/cleanupTasks.ts:138-148 | a scheduled run is no later than any entry's time plus 5 minutes, falls on one of them, and precedes the next cron run |
| CleanupTasks.ScheduleAdhocCleanup | src/cleanupTasks.ts:131-153 | appends exactly those jobs |
| CleanupTasks.UsersToCheck | src/cleanupTasks.ts:44-47 | the first 50 due entries, in order |
| CleanupTasks.ActiveUsers | src/cleanupTasks.ts:55 | exactly the users whose status is active |
| CleanupTasks.DeletedUsers | src/cleanupTasks.ts:56 | exactly the users whose status is inactive |
| CleanupTasks.CheckUsers | src/cleanupTasks.ts:48-53 | a user is active exactly when listed and their account resolves, and deleted exactly when listed and it does not |
| CleanupTasks.StatusesOfChecked | src/cleanupTasks.ts:50-56 | the same, for any statuses gathered user by user |
| CleanupTasks.ApplyStatuses | src/cleanupTasks.ts:58-75 | active users are rescheduled, and deleted users leave both sets with a leaderboard update queued |
| CleanupTasks.RescheduleTwice | src/cleanupTasks.ts:60-61 | the second identical reschedule changes nothing |
| CleanupTasks.SweptLedgerByRemoval | src/cleanupTasks.ts:64-67 | removing the deleted list is removing the deleted set, which happens exactly when someone was deleted |
| CleanupTasks.SweptQueueByWrites | src/cleanupTasks.ts:58-67 | the handler's writes to the queue produce the swept queue |
| CleanupTasks.DueRows | src/cleanupTasks.ts:34 | the score-range rows are exactly the due users |
| CleanupTasks.CheckedCount | src/cleanupTasks.ts:44-47 | min(50, due) distinct due users are checked |
| CleanupTasks.CleanupDeletedAccounts | src/cleanupTasks.ts:32-88 | the stores become `SweepSpec` of the old ones |
| CleanupTasks.SweepLowersDueCount | src/cleanupTasks.ts:32-88 | a sweep lowers the number of due entries by min(50, due) |
| CleanupTasks.SweepRerunsOnBacklog | src/cleanupTasks.ts:79-87 | an immediate rerun is queued exactly when more than 50 entries were due |
| CleanupTasks.SweepJobsRerun | src/cleanupTasks.ts:79-87 | the same, in terms of the rows returned |
| CleanupTasks.SweepWithoutWorkKeepsStores | src/cleanupTasks.ts:34-42 | with nothing due, or the platform down, both sets stay as they were |
| CleanupTasks.SweepOutcomePerUser | src/cleanupTasks.ts:55-67 | unchecked entries keep their time, resolving accounts are due in 28 days, the others leave both sets, and other scores stay |
| CleanupTasks.CheckIntervalMarkerIsTheInterval | src/cleanupTasks.ts:111-118 | the stored marker is the decimal text of 28 and reads back as 28 |
| CleanupTasks.Names | src/cleanupTasks.ts:95-96 | the members of the rows, in order |
| CleanupTasks.NamesOfListing | src/cleanupTasks.ts:95-96 | for a full listing, exactly the set's members |
| CleanupTasks.Without | src/cleanupTasks.ts:98 | the users of the first list that are not in the second |
| CleanupTasks.JitteredEntries | src/cleanupTasks.ts:101 | each user at now plus their random offset |
| CleanupTasks.Jittered | src/cleanupTasks.ts:101 | the queue with exactly the listed users added |
| CleanupTasks.ZAddJittered | src/cleanupTasks.ts:101 | writing those entries gives that queue |
| CleanupTasks.ReconciledQueue | src/cleanupTasks.ts:98-109 | after reconciling, the queue's users are exactly the scored users |
| CleanupTasks.ReconcileQueue | src/cleanupTasks.ts:95-109 | the handler's add and remove steps produce that queue |
| CleanupTasks.QueueReconciled | src/cleanupTasks.ts:98-109 | the conditional `zAdd` and `zRem` equal the reconciled queue |
| CleanupTasks.WithoutAdhocJobs | src/cleanupTasks.ts:126-127 | exactly the pending jobs that are not ad-hoc cleanups |
| CleanupTasks.PopulateCleanupLogAndScheduleCleanup | src/cleanupTasks.ts:94-129 | the stores become `PopulateSpec` of the old ones: both diffs, then, when the marker is rewritten, a reschedule of every user read from the queue at the start |
| CleanupTasks.PopulateQueueAsWritten | src/cleanupTasks.ts:94-123 | as written, scores stay and the marker is stored; the queue holds the scored users, plus every previously queued user when the marker was rewritten |
| CleanupTasks.PopulateRequeuesUnscored | src/cleanupTasks.ts:105-121 | as written, a queued user without a score survives a pass that rewrites the marker and is removed by the next, so the pass is not idempotent |
| CleanupTasks.PopulateSettlesAfterTwoPasses | src/cleanupTasks.ts:94-123 | as written, after two passes the queue holds exactly the scored users and any further pass changes nothing |
| CleanupTasks.PopulateAlignsQueueWithLedger | src/cleanupTasks.ts:90-93 | corrected pass (reschedule only users still queued): the queued users are exactly the scored users, scores are untouched, the marker is stored |
| CleanupTasks.PopulateTimesInWindow | src/cleanupTasks.ts:101-121 | as written, a queued user keeps their time when the marker already read 28; otherwise every queued time is within the next 28 days |
| CleanupTasks.ReconciledTime | src/cleanupTasks.ts:98-101 | a reconciled entry keeps its queued time, or is new and within the next 28 days |
| CleanupTasks.RequeuedTime | src/cleanupTasks.ts:98-121 | after the reschedule of every previously queued user, every queued time is within the next 28 days |
| CleanupTasks.RescheduleUsers | src/cleanupTasks.ts:120-123 | the listed users move to now plus their random offset, and nothing else changes |
| CleanupTasks.ReconcileAlignedQueue | src/cleanupTasks.ts:98-109 | reconciling a queue that already holds exactly the scored users changes nothing |
| CleanupTasks.PopulatePassFixesAlignedWorld | src/cleanupTasks.ts:94-116 | with the marker current and the queue aligned with the ledger, a pass changes nothing, whichever users its reschedule would move |
| CleanupTasks.PopulateIdempotent | src/cleanupTasks.ts:111-116 | a second corrected pass, at any time and with any random draws, changes nothing |
| ThanksPoints.ScoreFromFlair | src/thanksPoints.ts:58-69 | absent, empty or `-` flair is 0; `^\d+$` text is its value; anything else is not a number |
| ThanksPoints.FlairTextRoundTrip | src/thanksPoints.ts:58-69 | a flair written from a non-negative score reads back as that score, and a negative one as not a number |
| ThanksPoints.ReconcileScore | src/thanksPoints.ts:69-81 | with prioritising on, a numeric flair wins; otherwise the larger of flair and ledger; a non-numeric flair defers to the ledger |
| ThanksPoints.NameList | src/thanksPoints.ts:88 | the comma-separated names, each trimmed and lowered |
| ThanksPoints.CommandList | src/thanksPoints.ts:131 | the newline-separated commands, each lowered and trimmed |
| ThanksPoints.SuperuserNeedsListingOrScore | src/thanksPoints.ts:84-111 | without a listing and with a zero threshold or an unresolvable account, nobody is a superuser |
| ThanksPoints.ListedSuperuser | src/thanksPoints.ts:87-92 | a user named anywhere in the comma-separated list, with any padding and in any letter case, is a superuser |
| ThanksPoints.EmptyCommandMatchesEverything | src/thanksPoints.ts:131-140 | an empty line in the command list matches every comment |
| ThanksPoints.TrailingLineBreakMatchesEverything | src/thanksPoints.ts:131-140 | a command setting ending in a line break matches every comment |
| ThanksPoints.PermissionCheck | src/thanksPoints.ts:162-174 | a non-poster's user command is refused exactly when anyone-can-award is off; otherwise a mod command is refused exactly for a non-moderator non-superuser |
| ThanksPoints.Evaluate | src/thanksPoints.ts:113-224 | an accepted event is complete and has a parent comment; a self-award has the actor as parent author; an award has another, resolvable recipient, the recipient's current score, and no live marker |
| ThanksPoints.Replies | src/thanksPoints.ts:13-40 | no reply sends nothing, PM mode sends one PM to the named user, comment mode one reply to the comment |
| ThanksPoints.AwardedUserNoticeAsWrittenMissesAwardee | src/thanksPoints.ts:290-298 | as written, the awarded-user PM goes to the actor, not to the awardee |
| ThanksPoints.AwardedUserNoticeReachesAwardee | src/thanksPoints.ts:290-298 | corrected, it goes to the awardee with the same text |
| ThanksPoints.ShouldSetUserFlairTable | src/thanksPoints.ts:314-316 | never-set never writes, overwrite-all always writes, and otherwise the flair is written exactly when it was numeric |
| ThanksPoints.ScoreFlair | src/thanksPoints.ts:321-346 | the flair text is the score, and a template, when set, takes precedence over the CSS class |
| ThanksPoints.AwardPostFlair | src/thanksPoints.ts:245-275 | a post flair exactly when enabled with a non-empty text or template; its text and template are the settings' non-empty ones; the CSS class is kept exactly when set and no template is set |
| ThanksPoints.ReplyToUser | src/thanksPoints.ts:13-40 | appends exactly those replies to the outbox |
| ThanksPoints.SetUserScore | src/thanksPoints.ts:301-350 | the stores become `SetUserScoreSpec`: the score stored, next check in 28 days, a leaderboard job, and the flair when the table allows it |
| ThanksPoints.HandleThanksEvent | src/thanksPoints.ts:113-299 | the stores become `ThanksSpec` of the old ones, with the awarded-user PM addressed to the actor as the code does |
| ThanksPoints.AwardPoint | src/thanksPoints.ts:225-298 | the stores become `AwardSpec` of the old ones, with the awarded-user PM addressed to the actor as the code does |
| ThanksPoints.NotifyAutoSuperuser | src/thanksPoints.ts:231-243 | appends the threshold notice exactly when the new score equals a non-zero threshold and a mod command is set |
| ThanksPoints.SetAwardPostFlair | src/thanksPoints.ts:245-275 | writes that post flair and nothing else |
| ThanksPoints.SendAwardReplies | src/thanksPoints.ts:280-298 | appends the success notice and the awarded-user notice, its PM form addressed to the actor as written |
| ThanksPoints.AwardRepliesMessageActor | src/thanksPoints.ts:290-298 | as written, with PM notices on and no success reply, the award appends one PM, and it goes to the actor, not the awardee |
| ThanksPoints.ManualSetPointsFormHandler | src/thanksPoints.ts:384-416 | the stores and the toast are those of `ManualSetSpec` |
| ThanksPoints.ManualSetRejectsZero | src/thanksPoints.ts:390-394 | a missing or zero score changes nothing and shows a toast |
| ThanksPoints.ManualSetStoresEnteredScore | src/thanksPoints.ts:396-415 | the entered score is stored, the next check is in 28 days, and the dedup markers are untouched |
| ThanksPoints.CheckGuards | src/thanksPoints.ts:113-224 | the guard chain's verdict, read from the live stores, is `Evaluate` of their snapshot |
| ThanksPoints.GuardedEventsRejected | src/thanksPoints.ts:113-224 | an event that fails any guard (malformed, top level, bot actor, no command, ignored post flair, not the poster, not privileged, parent missing, bot or excluded recipient, live marker, unresolved account) is rejected |
| ThanksPoints.ThanksSpecOfAward | src/thanksPoints.ts:219-229 | on the award path the handler's result is the award's |
| ThanksPoints.SetUserScoreFlairsFrame | src/thanksPoints.ts:301-350 | setting a score writes at most the badge of that one user |
| ThanksPoints.NoticeFlairAndMarkFrame | src/thanksPoints.ts:231-278 | the notice, post-flair and marker steps leave scores, queue, badges and jobs alone, set only the marker and only append notices |
| ThanksPoints.AwardSpecAfterScore | src/thanksPoints.ts:231-298 | after the score is set, the rest of the award changes only post flairs, the marker and the outbox |
| ThanksPoints.GuardedEventsChangeNothing | src/thanksPoints.ts:113-224 | an event stopped by any guard changes nothing |
| ThanksPoints.SelfAwardChangesOnlyOutbox | src/thanksPoints.ts:190-199 | thanking your own comment at most sends the error notice |
| ThanksPoints.WithPostFlairTouchesPostFlairsOnly | src/thanksPoints.ts:264-274 | the post-flair step touches only post flairs |
| ThanksPoints.AwardRepliesOnlyAppend | src/thanksPoints.ts:280-298 | the notice steps only append to the outbox |
| ThanksPoints.AwardSpecStores | src/thanksPoints.ts:225-298 | an award stores current + 1, reschedules the recipient, sets the week-long marker, and only appends jobs and notices |
| ThanksPoints.AwardUpdatesStores | src/thanksPoints.ts:219-278 | for an accepted event, the score carried by the verdict is the reconciled current score, and the handler has the award's effects on the stores |
| ThanksPoints.AwardNeverBelowLedger | src/thanksPoints.ts:71-81 | without flair priority, the new ledger score is at least the old ledger score plus one |
| ThanksPoints.AwardedScoreReadsBack | src/thanksPoints.ts:225-229 | unless flairs are never set, reading the score back gives the awarded score |
| ThanksPoints.RepeatWithinWeekChangesNothing | src/thanksPoints.ts:211-218 | the same actor thanking the same comment within a week changes nothing |
| ThanksPoints.AwardSetsMarker | src/thanksPoints.ts:277-278 | an award leaves the marker live for one week |
| ThanksPoints.LiveMarkerBlocksRepeats | src/thanksPoints.ts:211-218 | while the marker is live, any series of repeats changes nothing |
| ThanksPoints.AwardedOncePerWeek | src/thanksPoints.ts:211-278 | after an award, every repeat in the next week changes nothing |
| BackupAndRestore.EncodeScores | src/backupAndRestore.ts:30-31 | the backup document is an array of one object per entry, in order |
| BackupAndRestore.DecodeScore | src/backupAndRestore.ts:17-28 | an item accepted by the schema is the encoding of the entry read from it |
| BackupAndRestore.DecodeScores | src/backupAndRestore.ts:17-28 | all items decode, and back to themselves, or the array is refused |
| BackupAndRestore.Validate | src/backupAndRestore.ts:17-28 | accepted exactly when the document is an array of `{u: string, s: integer}` objects, and then it is their encoding |
| BackupAndRestore.ValidateEncodeScores | src/backupAndRestore.ts:17-31 | any encoded entry list passes the schema unchanged |
| BackupAndRestore.BackupRoundTrip | src/backupAndRestore.ts:30-37 | compress, decompress and validate returns the entries |
| BackupAndRestore.BackupEntries | src/backupAndRestore.ts:48-49 | one compact entry per ledger row, in order |
| BackupAndRestore.BackupCoversLedger | src/backupAndRestore.ts:48-49 | the backup holds every ledger user once, with their score |
| BackupAndRestore.BackupAllScores | src/backupAndRestore.ts:41-82 | the stores and the toast are those of `BackupSpec` |
| BackupAndRestore.BackupHoldsLedger | src/backupAndRestore.ts:41-82 | after a backup the page decodes to the ledger's entries, and a new page is mods-only |
| BackupAndRestore.ShowRestoreForm | src/backupAndRestore.ts:84-105 | the form appears exactly when restore is enabled and a backup page exists |
| BackupAndRestore.BackupScoreIsHigher | src/backupAndRestore.ts:171-177 | true only for a user present in the listing |
| BackupAndRestore.BackupScoreIsHigherOnListing | src/backupAndRestore.ts:171-177 | on a listing of the ledger, true exactly when the user is scored and the backup score is higher |
| BackupAndRestore.NotYetScored | src/backupAndRestore.ts:140 | exactly the named, positive entries for unscored users |
| BackupAndRestore.HigherScores | src/backupAndRestore.ts:142 | exactly the named, positive entries above the stored score |
| BackupAndRestore.ToMembers | src/backupAndRestore.ts:150 | one member per entry, in order |
| BackupAndRestore.ImportScores | src/backupAndRestore.ts:150-168 | the stores become `ImportSpec`: scores written, the consistency pass as written, leaderboard job, install date removed, ad-hoc runs replaced |
| BackupAndRestore.RestoreFormHandler | src/backupAndRestore.ts:107-169 | the stores and the toast are those of `RestoreSpec`, whose import runs the consistency pass as written |
| BackupAndRestore.ImportWritesLedger | src/backupAndRestore.ts:150-152 | the import writes exactly the chosen entries into the ledger |
| BackupAndRestore.RestoreWritesLedger | src/backupAndRestore.ts:137-150 | a restore leaves the old ledger with the imported entries written over it |
| BackupAndRestore.ImportedEntry | src/backupAndRestore.ts:140-150 | every written user takes the score of a qualifying entry, which was new or, in overwrite mode, higher |
| BackupAndRestore.RestoreFailureChangesNothing | src/backupAndRestore.ts:111-135 | a missing page, an undecodable blob or a schema failure changes nothing |
| BackupAndRestore.RestoreSkipKeepsExistingScores | src/backupAndRestore.ts:140 | in skip mode, no existing score changes |
| BackupAndRestore.RestoreNeverLowersScores | src/backupAndRestore.ts:140-143 | in either mode, no score goes down and no user disappears |
| BackupAndRestore.RestoreImportsOnlyQualifyingEntries | src/backupAndRestore.ts:140-150 | every changed score comes from a qualifying backup entry, and users absent from the backup keep theirs |
| BackupAndRestore.RestoreReportsCount | src/backupAndRestore.ts:145-163 | nothing to import changes nothing; otherwise the toast counts the entries, a leaderboard job is queued and the install date is gone |
| BackupAndRestore.CurrentBackupQualifiesNothing | src/backupAndRestore.ts:140-143 | a backup of the current ledger has no entry to import |
| BackupAndRestore.RestoreOfCurrentBackupChangesNothing | src/backupAndRestore.ts:41-148 | backing up and restoring at once changes nothing |
| Leaderboard.LeaderboardSizeZeroListsEveryone | src/leaderboard.ts:21-23 | as written, size 0 passes the validator, is read as 0 and lists the whole ledger |
| Leaderboard.LeaderboardSize | src/leaderboard.ts:21 | corrected: the configured size, with 20 for unset or 0 |
| Leaderboard.ShownCountMatchesAnnouncedSize | src/leaderboard.ts:21-30 | for any accepted setting, the page lists min(size, users) rows and never more than it announces |
| Leaderboard.ShownCountAsWritten | src/leaderboard.ts:21-23 | as written, any accepted size other than 0 shows min(size, users) rows |
| Leaderboard.TopRowsAreTheBest | src/leaderboard.ts:23 | the rows are distinct ledger users with their scores, and everyone when fewer than the size |
| Leaderboard.Rows | src/leaderboard.ts:28 | one escaped `name\|score` line per row, in order |
| Leaderboard.SinceClause | src/leaderboard.ts:32-36 | the "since" clause appears exactly when the install date is stored |
| Leaderboard.HelpLink | src/leaderboard.ts:40-43 | the help link appears exactly when a help page is set |
| Leaderboard.LeaderboardTextOpensWithHeader | src/leaderboard.ts:27 | the page starts with the header |
| Leaderboard.LeaderboardTextClosesWithFullStop | src/leaderboard.ts:38-43 | without a help page the page ends with the full stop |
| Leaderboard.TargetPermission | src/leaderboard.ts:69 | subreddit permissions exactly for Public, otherwise mods-only |
| Leaderboard.PlannedWrites | src/leaderboard.ts:45-79 | content is written exactly when the page is missing or differs; visibility exactly when it differs from the target |
| Leaderboard.WritePage | src/leaderboard.ts:45-79 | the page ends up with the new content and visibility; content is written exactly when the page is missing or differs, visibility exactly when the old one differs |
| Leaderboard.UpdateLeaderboard | src/leaderboard.ts:8-80 | with the size read as written (0 stays 0), the stores become `PublishSpec`, and the writes made are those planned |
| Leaderboard.DisabledLeaderboardChangesNothing | src/leaderboard.ts:11-19 | an absent, empty or Off mode or an empty page name writes nothing |
| Leaderboard.PublishTouchesOnlyItsPage | src/leaderboard.ts:59-79 | no other wiki page and no store changes |
| Leaderboard.RepublishWritesNothing | src/leaderboard.ts:59-79 | a second run with the same ledger writes nothing |
| LeaderboardStateModel.NewPostData | src/customPost/index.tsx:66-69 | the stored record keeps the new post's id |
| LeaderboardStateModel.PostSizeReadsBackFormValue | src/customPost/state.ts:57-66 | the size read back is the number entered in the form, or 20 when none was entered or nothing is stored |
| LeaderboardStateModel.RankedFrom | src/customPost/state.ts:71-78 | one entry per row, in order, with consecutive ranks |
| LeaderboardStateModel.FetchedBoardIsTop | src/customPost/state.ts:68-81 | at most `size` entries for a positive size, ranks 1..n, scores never rising, distinct ledger users, and nobody left off outscores anyone shown |
| LeaderboardStateModel.ZeroSizeFetchesWholeLedger | src/customPost/state.ts:70 | a stored size of 0 fetches the whole ledger |
| LeaderboardStateModel.MaxPage | src/customPost/state.ts:53-55 | the fewest pages of seven that hold every entry |
| LeaderboardStateModel.PageRows | src/customPost/index.tsx:114 | page p shows at most seven entries, those from index 7(p-1) on, and is non-empty exactly up to the last page |
| LeaderboardStateModel.PagesFromIsSuffix | src/customPost/index.tsx:114 | the pages from p onwards, concatenated, are the entries from 7(p-1) on |
| LeaderboardStateModel.PagesPartitionEntries | src/customPost/index.tsx:114 | pages 1 to maxPage, concatenated, are exactly the entries |
| LeaderboardStateModel.EntryOnItsPage | src/customPost/index.tsx:114 | entry k is on page k/7 + 1, at place k mod 7, and that page exists |
| LeaderboardStateModel.SetPageWithoutEntriesIgnored | src/customPost/state.ts:45-51 | with no entries every set is ignored |
| LeaderboardStateModel.SetPageLandsOnShownPage | src/customPost/state.ts:45-51 | a set changes only the page, which stays at least 1, and only to the requested page, which shows entries |
| LeaderboardStateModel.RefreshCanLeaveEmptyPage | src/customPost/state.ts:83-86 | a refresh does not re-clamp the page, which can leave an empty page on view |
| LeaderboardStateModel.StrandedBeyondLastPage | src/customPost/index.tsx:127-150 | two or more pages past the end, the previous and next buttons are both ignored |
| LeaderboardStateModel.LeaderboardState.constructor | src/customPost/state.ts:23-31 | starts on page 1 with page size 7, the stored size, the help page or "", and the fetched board |
| LeaderboardStateModel.LeaderboardState.LastPage | src/customPost/state.ts:53-55 | zero pages exactly when there are no entries |
| LeaderboardStateModel.LeaderboardState.FetchLeaderboard | src/customPost/state.ts:68-81 | the loop numbers the rows 1 upwards, giving `Ranked(rows)` |
| LeaderboardStateModel.LeaderboardState.SetPage | src/customPost/state.ts:45-51 | a page below 1 or above `maxPage` is ignored; otherwise the page becomes the value |
| LeaderboardStateModel.LeaderboardState.UpdateLeaderboard | src/customPost/state.ts:83-86 | replaces the entries and leaves the page as it was |
| LeaderboardStateModel.LeaderboardState.ShownRows | src/customPost/index.tsx:114 | at most seven rows, non-empty exactly when the page is within the last page |

## Left out

- Store failures. The `try/catch` around `zScore` (`src/thanksPoints.ts:52-56`) is not modelled: a read always answers. The handlers that throw part-way are modelled only where the model names it. Those are a missing reply setting in `ThanksPoints.AwardReplies`, a comment that cannot be fetched in `ThanksPoints.ManualSetSpec`, and a platform that is down in the sweep.
- A private message that the platform refuses (`src/thanksPoints.ts:25-27`) is still recorded as sent. Sending has no other effect in the model.
- Regular expressions entered by moderators (`src/thanksPoints.ts:135-137`) are an oracle, `Reddit.regexTest`. An invalid pattern, which would throw, is not modelled.
- Dates. `addDays` and `addMinutes` are fixed offsets in milliseconds, so daylight-saving shifts are not modelled. `toUTCString` is an oracle. The cron expression's next run is the parameter `nextCron`.
- Numbers. Scores are unbounded integers. Floating-point scores, `parseInt` precision beyond 2^53 and the JSON number format are not modelled. A backup entry is accepted only with an integral value, as the schema demands.
- `Math.random` is a parameter: a function from user name to an offset. `CleanupTasks.PopulateTimesInWindow` states the window it must fall in.
- The compression and base64 layers of the backup blob are not modelled. A blob is the document it carries, or text that fails to decode.
- Form display, menu registration, the custom post's rendering and preview, and `handleManualPointSetting` only show UI and do not change stores, so they are left out. The one UI line modelled is the page slice at `src/customPost/index.tsx:114`.
- `createCustomPostFormHandler` (post submission, sticky, removal of the old post) is left out. Only the record it stores, `LeaderboardStateModel.NewPostData`, is modelled.
- An empty select array in the restore form (`src/backupAndRestore.ts:108`) is modelled as the action string it yields. An action other than "overwrite" means skip.
- The wiki revision reason (`src/leaderboard.ts:56`) and the `listed: true` flag are not modelled.
- `Leaderboard.PlannedWrites` takes a newly created wiki page to start at the subreddit's default permission (`NEW_PAGE_PERMISSION`). The platform's actual default is not visible in this code.
- Concurrency. Each event or job is one atomic step, so the race between the marker check (`src/thanksPoints.ts:214`) and the marker write (`:278`) is not modelled.
- `src/installEvents.ts` is job and cron orchestration and is not part of this model. The scheduler's `listJobs` and `cancelJob` are a list of pending jobs that is filtered.
- The custom post's hourly refresh timer is not modelled; `LeaderboardState.UpdateLeaderboard` is one refresh. The constructor assumes the stored size is known when the board is fetched.
- `LeaderboardStateModel.GetLeaderboardSize` takes the stored record already parsed. `None` stands for a missing or empty value; malformed JSON is not modelled.
- Logging (`console.log`) is not modelled.
- JsString.ToLower lowers only the ASCII letters A to Z, while `toLowerCase` lowers every Unicode letter. So `ThanksPoints.CommandList`, `ThanksPoints.NameList`, `ThanksPoints.ContainsUserCommand`, `ThanksPoints.ContainsModCommand`, `ThanksPoints.PostFlairIgnored` and `ThanksPoints.ListedSuperuser` treat non-ASCII letters as case-sensitive.

## Findings

| source | as written | input that shows it | evidently intended | confidence | as-written member | corrected member |
|---|---|---|---|---|---|---|
| src/thanksPoints.ts:297 | the awarded-user notice is sent to `event.author.name`, the person who gave the point | notify awarded user = PM; alice thanks bob's comment; the PM "Hello bob, you have been awarded a point" goes to alice | send it to `parentComment.authorName`, the awardee | high, not executed | ThanksPoints.AwardRepliesMessageActor | ThanksPoints.AwardedUserNoticeReachesAwardee |
| src/cleanupTasks.ts:120-121 | the reschedule loop re-adds every name in `cleanupLogUsers`, read before the unscored entries were removed at line 107 | ledger empty, queue holds bob, marker not yet "28": bob is removed at line 107 and then written back at line 121 | reschedule only users that are still queued, so the queue matches the ledger | high, not executed | CleanupTasks.PopulateRequeuesUnscored | CleanupTasks.PopulateIdempotent |
| src/leaderboard.ts:21-23 | a stored size of 0, which the validator at src/settings.ts:311 accepts, gives the rank range 0..-1, which lists the whole ledger | leaderboard size 0 with 2 scored users: both rows are listed under "the top 0 users" | treat 0 like unset (20), as the validator's "0 allowed" suggests; "0 lists everyone" is another reading | medium, not executed | Leaderboard.LeaderboardSizeZeroListsEveryone | Leaderboard.ShownCountMatchesAnnouncedSize |
