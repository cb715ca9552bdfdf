# Notification delivery of the Vikunja companion, in Dafny

The companion sends push notifications for Vikunja tasks. They come from two places: webhook deliveries
(a reminder fired, a task or a batch of tasks became overdue) and a cron that sends one morning digest a
day. Both go through one dispatcher, which records a notification's dedupe key before it sends. This
project models that delivery engine and the four parts that share its database: the settings table, the
per-user webhook secrets, the identity cache and the schema migrations.

`dafny verify dfyconfig.toml` checks everything.

## Layout

| file | what it holds |
|---|---|
| `base.dfy`, `text.dfy`, `civil.dfy` | faults and options; decimal printing and parsing; the calendar and the layout "2006-01-02" |
| `store.dfy`, `history.dfy` | the tables and their statements: class `DB`; what they hold after any statements |
| `notify.dfy` | `Dispatcher.Dispatch`, the filter it refines, and retries |
| `webhook.dfy` | dedupe keys, `Build`, redelivery |
| `vikunja.dfy`, `digest.dfy` | the paged task query; the briefing and `ParseHHMM` |
| `runner.dfy` | the cron: class `Runner`, and its evaluation as a function |
| `settings.dfy` | the settings table as a total map, and the settings handlers |
| `world.dfy` | the engine as a state machine with one action per tick, delivery, settings request or prune |
| `daily.dfy`, `slots.dfy`, `retention.dfy`, `usable.dfy` | what holds over its runs: once a day, the day's slot, pruning, usable settings |
| `interleaving.dfy` | the same engine one statement at a time, with threads, faults, kills and crashes |
| `refinement.dfy`, `serial.dfy` | how the two fit: a thread alone does what the method does, and every interleaved run reduces to a serial one |
| `identity.dfy`, `secrets.dfy`, `senders.dfy`, `inbound.dfy`, `migrate.dfy`, `events.dfy` | identity cache, webhook secrets, sender identification, the webhook handlers, migrations, event lists |

## How it is modelled

- Code that changes state is a class with methods. Each method is proved against a function of the old
  state (`DispatchAll`, `Ticked`, `MigrateFrom`, ...), and the runs of the state machines are built from the
  same functions, so the laws about runs are about what the methods compute.
- Each SQL statement is one atomic step. How it goes is a parameter: it works, it fails without effect, or
  it fails although it took effect. Answers of Vikunja, the clock, fresh secrets and signatures are
  parameters too, so every lemma holds for all of them.
- Time is in nanoseconds and `sent_at` in whole seconds, as in the code. A zone is the offset in force at
  the tick, which may change from tick to tick. Days are numbered in local time, and
  `Civil.DayTextInjective` shows that printing a day loses nothing.
- A crash is the death of every thread; tables stay. Where calls can overlap (`interleaving.dfy`,
  `identity.dfy`, `secrets.dfy`) an action is one statement or critical section of one call, and actions
  come in any order. The class methods beside them are the call that nothing overlaps.
- The dispatcher's dedupe store is the runner's store, as `cmd/companion/main.go` wires them.
- HMAC, the token hash and the cipher are parameters. Injectivity, or that decrypting undoes encrypting, is
  a precondition exactly where a lemma needs it.

## What the code does not do

- One digest a day is not guaranteed for every send time. The tick that should serve it may come after
  midnight, and the target is then rebuilt from the new date. `Daily.PhaseDecides` gives the exact condition,
  `Daily.SafeSendTimes` shows that 23:55 is the last safe minute, and `Daily.LastMinutesNeverFire` that 23:56
  to 23:59 never fire when ticks fall on five-minute marks.
- `ParseHHMM` is documented as taking HH:MM but also takes signs and any number of digits
  (`Digest.ParseAccepts`, `Digest.ParseTakesMoreThanDocumented`).
- A key is recorded before the send. A failed send, a process killed between the two, or an insert that took
  effect and still reported an error therefore loses the notification. `Interleaving.ExactlyOnceUnlessLost`
  says exactly which actions of a run do that, `Interleaving.KilledIsLost` that no redelivery brings it back,
  and `Notify.RetryAfterAppliedFault` what a retry after such an insert misses.
- Two overlapping first calls of `ensureWebhookSecret` return different secrets, and the later upsert wins
  (`Secrets.OverlapReturnsTwoSecrets`). `Secrets.OneSecretExactly` says exactly when all calls agree: no
  upsert takes the ON CONFLICT branch between two returns.
- The identity cache can keep an older answer over a newer one (`IdentityCache.OlderAnswerCanOverwriteNewer`).
  `IdentityCache.CacheIsNewestExactly` says exactly when it always holds the newest one, and
  `IdentityCache.NewestWithoutOverlap` that calls which do not overlap are enough.
- `TasksDueToday` silently stops at 500 tasks, so the briefing counts only those.
- A migration file that sorts before a recorded one is applied after it
  (`Migrations.OrderKeptIffAddedAtTheEnd`, `Migrations.LateFileRunsOutOfOrder`).
- `PruneSentBefore` has no caller in the repository; the retention lemmas say what a caller must observe.

## Model

| member | source | states |
|---|---|---|
| Interleaving.EveryInsertIsAccountedFor | internal/notify/notify.go:69-87 | conservation over every run of any number of deliveries and ticks, interleaved statement by statement with failing inserts, kills and pruning: each insert of a key is either still in the table or pruned, and either sent, held by a thread about to send, or burned |
| Interleaving.SendsBoundedByPrunes | internal/store/notifications.go:11-49 | in every such run a key is sent at most once plus once per prune of its row, and one time less if it was recorded before the start |
| Interleaving.AtMostOnce | internal/notify/notify.go:69-87 | without pruning a non-empty key is sent at most once in every run, never if recorded before; its row is in the table before the send, even while a thread only stands before Send |
| Interleaving.ExactlyOnceUnlessLost | internal/notify/notify.go:69-87 | once no thread holds a new key, Send was called exactly once if and only if its row is there and no action of the run burned it (a kill between mark and Send, a mark that failed after taking effect, the mark of an empty day), and it got through exactly once if and only if, besides, no Send of it failed |
| Interleaving.KilledIsLost | internal/notify/notify.go:73-86 | after a kill between mark and Send the key is recorded and never sent, in every continuation without pruning |
| Interleaving.RowsOnlyGrow | internal/store/notifications.go:11-23 | key rows only grow as long as nothing is pruned |
| Interleaving.Crash | internal/digest/runner.go:61-78 | from every state a crash is possible and leaves rows and sends untouched |
| Refinement.LoneDispatch | internal/notify/notify.go:69-87 | the dispatch thread's own statements, spelled out from the batch and its faults, leave the rows, sends and error of Dispatch and every other thread where it was |
| Refinement.LoneTick | internal/digest/runner.go:116-148 | the tick thread's own statements, spelled out from the tick's answers and faults, leave the rows and sends of the cron's evaluation of a due day, the thread gone and the others where they were |
| Serial.EveryRunIsSerial | internal/notify/notify.go:69-87 | every interleaved run without pruning leaves the table of a serial order of whole dispatch turns and whole ticks, read off the run's own marks, and per key sends what that order sends, but for kills just before the Send |
| Notify.Dispatcher.Dispatch | internal/notify/notify.go:69-87 | the loop leaves the table, the Send calls in order, each for the given user, and the error of the mark-then-send specification, stopping at the first failed mark |
| Notify.DispatchIsFilter | internal/notify/notify.go:69-87 | without faults dispatch sends exactly the stable filter of the batch by first occurrence of key, and records exactly the batch's keys |
| Notify.SplitBatch | internal/notify/notify.go:69-87 | dispatching a ++ b sends what dispatching a and then b sends |
| Notify.DispatchConcat | internal/notify/notify.go:69-87 | the same for arbitrary faults: a batch is dispatched from where its prefix left off |
| Notify.RetryAfterUnappliedFault | internal/notify/notify.go:74-78 | an attempt cut by a mark that inserted nothing, then a full retry, sends what one fault-free attempt sends, if and only if everything sent before the cut was keyed |
| Notify.RetryAfterAppliedFault | internal/notify/notify.go:74-78 | if the failing mark did insert, the two attempts together send everything but the notification at the cut |
| Notify.RetriesLoseAndRepeatNothing | internal/notify/notify.go:69-87 | any number of cut attempts before a full one changes nothing in total for a keyed batch |
| Store.DB.MarkSent | internal/store/notifications.go:11-23 | reports new exactly when the key was absent and no error occurred; on an error the row may or may not be there, otherwise the first stamp stays |
| TableHistory.RecordedExactly | internal/store/notifications.go:11-49 | what NotificationSent answers after any marks, failed marks and prunes: yes exactly if an effective mark found the key absent and no later prune reached that mark's stamp; repeated marks renew nothing |
| Store.DB.PruneSentBefore | internal/store/notifications.go:41-49 | removes exactly the rows stamped before now minus the days, none for a negative count, and returns how many |
| Webhook.KeyFaithful | internal/webhook/build.go:34-68 | two dedupe keys are equal exactly if family, id and second or day agree; the four families never collide |
| Webhook.KnownKeys | internal/digest/runner.go:116 | the key layout of all four families, on concrete numbers and dates |
| Civil.DayTextInjective | internal/webhook/build.go:44 | printed dates are equal exactly if the days are, for all years |
| Civil.DayNumber | internal/digest/runner.go:116 | the calendar walked day by day from 1970 agrees with the closed-form Gregorian day count and yields only valid dates |
| Civil.DateOfNumber | internal/digest/runner.go:116 | and conversely every valid date is the date of its day number |
| Webhook.BuildIsKeyed | internal/webhook/build.go:16-70 | Build yields at most one notification, always keyed by the logical event, never under a digest's key, and none exactly for an empty batch |
| Webhook.KeysHoldLocalDates | internal/webhook/build.go:29-70 | an overdue or batch key holds day d exactly if the time's own clock is between that day's midnights, whatever its offset; a reminder's key holds the Unix second |
| Webhook.LocalEveningKey | internal/webhook/build.go:44 | the key of an event at 23:30 in UTC-5 carries the local date, not UTC's |
| Webhook.SameDropExactly | internal/webhook/build.go:29-70 | two events share a key exactly if they are of one kind and agree on task and second (reminder), task and local date (overdue), or user and local date (batch): reminder and overdue pushes collapse across recipients, batches are per user |
| Webhook.KnownPushes | internal/webhook/build.go:29-82 | the full notifications of a reminder, an overdue task, and batches of three and of one, and the labels of untitled tasks |
| Webhook.LinkNamesTask | internal/webhook/build.go:84 | a push's link names its task: two links are equal exactly if the ids are |
| Webhook.BatchTellsCount | internal/webhook/build.go:62-69 | the body of a batch tells how many tasks are in it |
| Webhook.EventsAsOneBatch | internal/companion/webhookroutes.go:105-112 | deliveries handled one by one send what one dispatch of all their notifications would |
| Webhook.FirstOccurrencesAreDistinct | internal/notify/notify.go:69-87 | the filter keeps each new key exactly once and each seen key never |
| Webhook.RedeliveryIsHarmless | internal/companion/webhookroutes.go:105-112 | for any sequence of events, reordered and repeated at will, each logical event not yet recorded is sent exactly once and nothing else is sent |
| Webhook.ReorderingAndRepetition | internal/companion/webhookroutes.go:105-112 | two streams of the same events send every key equally often |
| Cron.Runner.Process | internal/digest/runner.go:88-148 | one tick leaves exactly the tables, sends and outcome of the specified evaluation, over all early returns and faults, and sends to the runner's user only |
| Cron.Runner.ServeDay | internal/digest/runner.go:116-148 | from the pre-check to the final mark: tables, sends and outcome under every fault |
| Cron.Runner.Location | internal/digest/runner.go:152-175 | uses the stored timezone, else Vikunja's, which it caches if non-empty, else UTC; fails exactly if Vikunja fails or the zone is unknown |
| Cron.Runner.Run | internal/digest/runner.go:61-78 | does nothing when disabled or without token or user, otherwise evaluates every tick in order and survives each tick's errors |
| Engine.CronLoopIsRun | internal/digest/runner.go:61-78 | what the loop leaves behind is what the state machine's run of the same ticks does, so the laws about runs hold of it |
| Engine.NewPostsAreForTheUser | internal/notify/notify.go:82 | each action sends only to its own user: a tick's to the cron's, a delivery's to the one it is for |
| Engine.OutcomeExactly | internal/digest/runner.go:116-148 | how a due tick ends, for every combination of faults |
| Engine.AsksExactly | internal/digest/runner.go:117-128 | Vikunja is asked for tasks exactly on a due day not yet recorded |
| Cron.ServeUnfolds | internal/digest/runner.go:130-147 | dispatch mark and final mark together: when the briefing goes out, and which of the two marks the key keeps |
| Engine.TickUnfolds | internal/digest/runner.go:88-148 | what one tick sends and records, for every combination of faults, with and without the pre-check |
| Engine.TickOnDay | internal/digest/runner.go:116-147 | a tick sends at most one digest, touches no day's key but the due one, and never overwrites a recorded key |
| Engine.OthersOnDay | internal/companion/webhookroutes.go:105-112 | deliveries and settings requests never send, record or drop a digest key; pruning drops one only when it is too old |
| Engine.DeliveryExactly | internal/companion/webhookroutes.go:105-112 | what a delivery leaves behind: nothing for a recorded key, a new key's row and its one send to the user, and after a failing mark no send, with or without the row |
| Daily.DueExactly | internal/digest/runner.go:93-114 | a tick finds a day due if and only if settings are readable and enabled, the zone is known, the time parses, and the instant is 0 to 7,200,000,000,000 ns after that time of the day and before the day's end, on the zone's clock |
| Daily.DueIsOnTime | internal/digest/runner.go:103-116 | a day is due only at an instant in [target, target + 2 h] before local midnight, and it is the target's date |
| Daily.DigestKeyText | internal/digest/runner.go:116 | the key is "digest:", the user id and the printed local date |
| Daily.LastChance | internal/digest/runner.go:110-114 | a healthy run whose only tick of the day comes exactly two hours after the send time still sends the day's digest |
| Daily.ChanceMissed | internal/digest/runner.go:110-114 | if all ticks come later than that, if only by a nanosecond, or before the send time, none is sent |
| Daily.SendIsInWindow | internal/digest/runner.go:103-138 | every digest send is decided inside its window and carries the key of that date |
| Daily.OnceExactlyWhenDue | internal/digest/runner.go:88-148 | in a healthy run, with the timezone cached or still to be asked for, a day's digest is sent exactly once if some tick falls in its window, else not at all, whatever deliveries and other users' requests come between |
| Daily.NothingWhenNeverDue | internal/digest/runner.go:103-114 | without a tick in the day's window no digest for it, whatever works or fails |
| Daily.ExactlyOncePerDay | internal/digest/runner.go:61-78 | with ticks at most five minutes apart across the send instant, all working and a send time up to 23:55, the day gets exactly one digest |
| Daily.NewcomerGetsDigest | internal/digest/runner.go:152-168 | the conditions can be met by a user without a row or timezone: the first digest at 8:00 UTC, on any day |
| Daily.PhaseDecides | internal/digest/runner.go:103-114 | with ticks at a fixed phase a day gets its digest exactly if the first tick from the send time on comes before midnight |
| Daily.NeverFits | internal/digest/runner.go:103-114 | otherwise no day ever gets one |
| Daily.SafeSendTimes | internal/digest/runner.go:17-21 | a send time works at every tick phase exactly if it is 23:55 or earlier |
| Daily.LastMinutesNeverFire | internal/digest/runner.go:103-114 | with ticks on five-minute marks, 23:56 to 23:59 never fire on any day |
| Daily.DigestsAreSpaced | internal/digest/runner.go:103-116 | under unchanged settings and a fixed offset, any two digests are decided at least 22 h apart and under increasing days, whatever fails |
| Slots.SlotConsumedByFetch | internal/digest/runner.go:116-147 | over every run a day's key is recorded exactly if some due tick obtained its task list; every query before that one failed, and there is none after it |
| Slots.NothingAfterRecording | internal/digest/runner.go:117-123 | once recorded, no tick queries or sends for the day again, even if nothing was due or the send failed |
| Slots.PrecheckIsPure | internal/digest/runner.go:117-123 | runs with and without the NotificationSent query have the same tables and sends; the query only saves task queries |
| Retention.CoveringRetention | internal/store/notifications.go:41-49 | if rows are kept for 24 h plus the spread of offsets, less a second, any interleaving of ticks, timezone and time changes, faults and prunes sends a day's digest at most once |
| Retention.TooShortRetention | internal/store/notifications.go:41-49 | with any shorter retention there is a run that sends a day's digest twice |
| Retention.RetentionIsExact | internal/store/notifications.go:41-49 | so at-most-once under pruning holds for all runs if and only if days * 86400 >= 86399 + spread |
| Retention.RetentionInDays | internal/store/notifications.go:41-49 | one day suffices for a fixed offset, three for -12 h to +14 h, and neither bound can be lowered |
| Store.DB.UserSettings | internal/store/settings.go:25-37 | the stored row, or the defaults for a user without one |
| Store.DB.PutDigestSettings | internal/store/settings.go:41-53 | writes the two digest columns, keeps the timezone, and inserts with an empty one |
| Store.DB.SetUserTimezone | internal/store/settings.go:57-68 | writes the timezone, keeps the digest columns, and inserts with their defaults |
| UserSettings.FieldsHoldLastWrites | internal/store/settings.go:25-68 | after any writes each field of each user holds its own last write, or what it read before if there was none |
| UserSettings.WritesCommute | internal/store/settings.go:41-68 | the two upserts commute on the whole table, for any users |
| UserSettings.InterleavingDoesNotMatter | internal/store/settings.go:41-68 | any interleaving of the two kinds leaves the table of all digest writes followed by all timezone writes |
| UserSettings.HandlersAreGuarded | internal/companion/settings.go:51-93 | the handlers write only parseable times and non-empty timezones, and only for their own user |
| UserSettings.SettingsApi.PutSettings | internal/companion/settings.go:38-64 | 400 for a bad request and nothing written, 500 if a statement fails, otherwise the saved values read back, and no timezone after a failed save |
| UserSettings.SettingsApi.CacheTimezone | internal/companion/settings.go:81-93 | writes Vikunja's timezone exactly if there is a non-empty one |
| UsableSettings.DefaultTimeParses | internal/store/migrations/0002_user_settings.sql:7-13 | the column default is 8:00 |
| UsableSettings.TickCachesZone | internal/digest/runner.go:152-164 | a tick stores Vikunja's timezone exactly if the user is enabled, none is stored, Vikunja gives one and the write takes effect, and changes nothing else |
| UsableSettings.SettingsStayUsable | internal/companion/settings.go:38-93 | over every run of ticks, deliveries, prunes and settings requests of any content, each stored time parses, no tick stops at ParseHHMM, and a known timezone never becomes empty |
| UsableSettings.UncheckedTimeStopsTicks | internal/digest/runner.go:104-107 | whatever unparseable time were stored, no tick would query, record or send for any day until the user saved another, so the check is needed |
| IdentityCache.Cache.Resolve | internal/companion/identity.go:63-86 | a call without overlap: it asks Vikunja if and only if there is no unexpired entry, and otherwise returns the entry; an error changes nothing, an answer is stored and returned |
| IdentityCache.LookUpExactly | internal/companion/identity.go:68-74 | a look-up returns at once exactly if there is an entry that has not expired, and goes on to ask otherwise |
| IdentityCache.StoreExactly | internal/companion/identity.go:82-85 | a call that writes its answer returns that answer, and the entry lives for the lifetime from that instant |
| IdentityCache.AnswersServeForTheirLifetime | internal/companion/identity.go:63-86 | once written, an answer serves every later look-up of its token within its lifetime, whatever other calls do, until a restart or the next write; from the end of the lifetime on the call asks |
| IdentityCache.RunTraced | internal/companion/identity.go:63-86 | invariant of every interleaving: each entry and each result goes back to a write of an answer to that very token |
| IdentityCache.ResultsAreRecentAnswers | internal/companion/identity.go:63-86 | under every interleaving a successful result is an answer Vikunja gave for that token, received no earlier than lifetime plus writing delay ago; errors are never served |
| IdentityCache.CacheIsNewestExactly | internal/companion/identity.go:63-86 | over every run the entry always comes from the latest-received answer written for its key since the last restart, if and only if no write replaces an entry by an answer received earlier |
| IdentityCache.NewestWithoutOverlap | internal/companion/identity.go:63-86 | so it does if no call misses its look-up while another for the same token is under way |
| IdentityCache.OlderAnswerCanOverwriteNewer | internal/companion/identity.go:80-85 | a run of two overlapping calls in which the older answer ends up cached |
| Secrets.SettledSecretsStay | internal/companion/webhookroutes.go:50-71 | once a row exists and no call for the user is between miss and upsert, the secret never changes and every call returns it, in every interleaving |
| Secrets.CallsExactly | internal/companion/webhookroutes.go:50-71 | where each statement takes a call: a failed or undecryptable look-up ends it, a hit returns the stored secret, a miss goes on to mint one, an upsert ends it with or without the row |
| Secrets.OneSecretWithoutOverlap | internal/companion/webhookroutes.go:50-71 | if a user's calls come one at a time until one has stored a secret, every call ever returns it, whatever other users do, whatever failed or was abandoned before, and however calls overlap afterwards |
| Secrets.OverlapReturnsTwoSecrets | internal/companion/webhookroutes.go:50-71 | two overlapping first calls that return different secrets, the second one's staying in the table |
| Secrets.OneSecretExactly | internal/companion/webhookroutes.go:50-71 | over every run, under every fault, a user is told a single secret if and only if no upsert replaces their row between two returns |
| Secrets.OneSecretIfNeverReplaced | internal/companion/webhookroutes.go:58-67 | in particular if no upsert ever finds a row of theirs, and only then when every effective upsert reports success |
| Secrets.NeverReplacedIsStoredOnce | internal/store/webhooks.go:30-42 | no upsert finds a row of the user's exactly if at most one upsert for them takes effect |
| Senders.MatchSecret | internal/companion/webhookroutes.go:117-137 | returns the first row that verifies, skipping undecryptable ones, and nobody exactly if none does |
| Senders.SenderIsOwner | internal/webhook/verify.go:29-43 | a row accepts a signature made with a secret exactly if it holds that non-empty secret |
| Senders.SenderIsIdentified | internal/companion/webhookroutes.go:117-137 | for every row order and any undecryptable rows, the sender named for a body signed with s is the one user holding s, and nobody exactly if no user does |
| Senders.ReachableSecretsAreDistinct | internal/companion/webhookroutes.go:58-67 | every reachable table holds decryptable, non-empty, pairwise different secrets, which identification needs |
| Senders.DeliveriesFindTheirOwner | internal/companion/webhookroutes.go:117-137 | so in every reachable state a delivery signed with a stored secret is attributed to its owner |
| Companion.Api.EnsureWebhookSecret | internal/companion/webhookroutes.go:50-71 | returns the stored secret, or stores and returns a new one, with the configured events; never touches an existing row; a returned secret is the stored one |
| Companion.Api.InboundWebhook | internal/companion/webhookroutes.go:75-114 | the order of decisions and statuses: nothing is written before a matching signature, then the touch, and every new Send call is for the secret's owner |
| Companion.Api.MatchSender | internal/companion/webhookroutes.go:117-137 | over the stored rows: whoever is named holds a secret that verifies, and nobody is named only if loading failed or no row's does |
| Companion.Api.HandleVerified | internal/companion/webhookroutes.go:88-113 | a verified delivery: a failing touch changes nothing else, an unsupported event is accepted silently, and an error of the dispatch is the only 500 |
| TableHistory.WebhooksHoldLastWrites | internal/store/webhooks.go:30-95 | after any upserts and touches each user's row has the secret and events of their last upsert and the time of the last touch that found a row; neither statement disturbs the other's fields or another user |
| Store.DB.AllWebhookSecrets | internal/store/webhooks.go:69-85 | lists exactly the rows of the table, in the order the query yields them |
| Migrations.Database.Migrate | internal/store/store.go:92-144 | an attempt over any directory listing, cut off at any statement, leaves the database of the specified replay; on an empty database an attempt nothing cuts off succeeds and has applied and recorded, in order, exactly the non-directories named .sql |
| Migrations.MigrationNamesExactly | internal/store/store.go:103-108 | the names collected are those of the entries that are no directories and end in .sql |
| Migrations.LessExactly | internal/store/store.go:109 | names are ordered by their first difference, a beginning before what it begins |
| Migrations.CompletesExactly | internal/store/store.go:111-142 | an attempt completes if and only if no check fails and no file still to be applied is cut off |
| Migrations.CutOffAt | internal/store/store.go:111-142 | an attempt cut off at file k leaves exactly the files before it applied and recorded, and k as well only if the cut hid a commit that took effect |
| Migrations.SortLists | internal/store/store.go:103-109 | sorting yields the strictly increasing listing of the same names |
| Migrations.ListingIsUnique | internal/store/store.go:103-109 | a set of files has only one sorted listing, so the order does not depend on the directory |
| Migrations.NewFilesAtTheEnd | internal/store/store.go:103-109 | if new files sort after the old ones, the old listing is a prefix of the new one |
| Migrations.AttemptKeepsSound | internal/store/store.go:111-142 | one attempt, wherever cut off, keeps the schema the fold of a recorded prefix, only extends that prefix, and reaches the end if it completes |
| Migrations.CrashSafe | internal/store/store.go:92-144 | after any sequence of cut-off attempts with files added at the end, the schema is the fold of exactly the recorded prefix and no file is committed twice |
| Migrations.CompletedAttempt | internal/store/store.go:92-144 | an attempt that completes yields the full fold, whatever happened before |
| Migrations.RerunChangesNothing | internal/store/store.go:111-119 | once all is recorded a further attempt changes nothing, wherever it is cut off |
| Migrations.OrderKeptIffAddedAtTheEnd | internal/store/store.go:103-119 | a completed attempt has applied the files in sorted order if and only if what was recorded before is a prefix of the sorted list |
| Migrations.LateFileRunsOutOfOrder | internal/store/store.go:111-119 | a file added before a recorded one is applied after it |
| Vikunja.TasksDueToday | internal/vikunja/tasks.go:54-78 | whatever the server answers: goes on after full pages only, at most ten requests, all pages seen or an error |
| Vikunja.StableList | internal/vikunja/tasks.go:54-78 | against a stable list of n tasks it returns exactly the first min(n, 500) in min(10, n/50 + 1) requests |
| Digest.Build | internal/digest/digest.go:27-50 | one notification with the exact total and the exact number of urgent tasks, none for an empty list |
| Digest.BriefingCountsPrefix | internal/digest/digest.go:27-50 | over a stable list the briefing's counts are exact for its first min(n, 500) tasks |
| Digest.BodyInOrder | internal/digest/digest.go:40-43 | the body names the total first, in the right number, then the urgent ones if there are any |
| Digest.BodyTellsCounts | internal/digest/digest.go:40-43 | two bodies are equal exactly if both counts are |
| Digest.ParseAccepts | internal/digest/digest.go:61-76 | ParseHHMM accepts exactly A:B with A and B optionally signed decimal numerals of any length in range, and returns their values |
| Digest.ParsePrinted | internal/digest/digest.go:61-76 | every time of day printed as HH:MM parses back to itself |
| Digest.ParseTakesMoreThanDocumented | internal/digest/digest.go:59-76 | "-0:+007" is accepted although it is not HH:MM |
| Events.Contains | internal/config/companion.go:130-137 | reports exactly whether the string is in the list |
| Events.ParseWebhookEvents | internal/config/companion.go:108-128 | the loop returns the ordered set of the trimmed non-empty parts, or an error exactly if one is unknown or there is none |
| Events.TrimSpaceStrips | internal/config/companion.go:113 | white space around a text goes and nothing else |
| Events.PaddedSetting | internal/config/companion.go:108-128 | a setting of known names with any white space around them stands for their ordered set |
| Events.PartsExactly | internal/config/companion.go:112-116 | the parts are exactly the trimmed non-empty texts between the commas |
| Events.UniqueIsASet | internal/config/companion.go:112-123 | dedupe keeps exactly the strings there are, each once |
| Events.UniqueKeepsOrder | internal/config/companion.go:112-123 | and in the order of their first occurrences |
| Events.AcceptedEvents | internal/config/companion.go:108-128 | an accepted list is non-empty, distinct, known, clean, and exactly the setting's parts |
| Events.EventsRoundTrip | internal/config/companion.go:108-128 | joined with commas, an accepted list reparses to itself and survives the column |
| Events.SplitEventsInPlace | internal/store/webhooks.go:99-111 | the in-place filter returns the trimmed non-empty parts: no part is overwritten before it is read |
| Events.ColumnRoundTrip | internal/store/webhooks.go:97-111 | the column gives back any list of clean strings |
| Events.SplitJoin | internal/store/webhooks.go:97-111 | splitting undoes joining for any non-empty list of comma-free strings |
| Events.JoinSplit | internal/store/webhooks.go:97-111 | joining undoes splitting, for every text, into parts without a comma |

## Left out

- HTTP routing, JSON, bearer headers, the reverse proxy, the Apprise POST, logging and graceful shutdown: plumbing over libraries; answers, send failures and decoded requests are parameters.
- `webhook.Parse` and the wire shapes: the model starts from an event with exactly one payload, or an unsupported or malformed body.
- HMAC (RFC 2104), SHA-256, XChaCha20-Poly1305 and random generation: parameters with the properties named above. The cipher key does not change during a run of `secrets.dfy`.
- SQL and SQLite: tables are maps, a statement is one step, and a transaction is all or nothing.
- IANA zone data: an offset is looked up per tick. A clock change between a day's midnight and its send time would move the target within that day.
- Cancellation and timeouts: each shows up only as a failing statement, query or send.
- The `/info` version cache: a weaker copy of the identity cache.
- The wording of notifications beyond counts, labels, links and keys; `LastDeliveryAt` parsing; URL, key and boolean settings: easy members.
- Text in invalid UTF-8: strings are sequences of characters.
- Notify.Sender: a failing send is recorded as a Send call; exactly-once speaks of Send calls, not of what a phone shows.
- Cron.Runner.Run: covers any number of ticks up to the cancellation of its context; the ticker's own timing is the assumption `Spaced` of `Daily.ExactlyOncePerDay`.
