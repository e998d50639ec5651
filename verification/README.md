# Verification of the weops-inspect notification core

weops-inspect is a cron-driven inspection of hosts and services. Every run collects checks, keeps a small
state file between runs, and decides whether to send an alert mail, a recovery mail, or nothing. This
project models that decision in Dafny, together with the code it depends on, and proves what holds over
whole histories of runs. `dafny verify dfyconfig.toml` checks everything.

## What is modelled

- **One run** (`Notify`, with `Alerts`, `Persistence`, `Signatures`, `Trigger`, `Demotion`, `StateFile`,
  `Config`, `Model`). Class `Notifier` does what `main.go` makes `notify.Prepare` and `notify.Dispatch` do,
  on a report and a state directory that change in place. Its methods are proved against functions on values:
  `Pass` for the confirmation filter, `Choose` for the decision, `Step` for the run.
- **Histories.** `Run(inputs, p)` is the world (state file, committed runs, mails that went out) after any
  list of runs from a cold start. An input holds the raw warnings, the time, and whether the state could be
  read, the mail could be sent and the state could be saved; a crash is a run whose later steps all fail.
  `Recovery`, `Confirmation`, `PerHost`, `MailHistory`, `MailBudget`, `StableSet`, `OutOfStep`,
  `Alternation`, `Refinement`, `OrderFree` and `Retry` prove properties of all histories.
- **Overlapping instances** (`Lock`). Any number of processes take their atomic steps (lock, load, send,
  write the temporary file, rename, unlock, die) in any order. Every such schedule is shown to be a serial
  run of the instances in lock order, whatever they decide, and every serial run is shown to happen; with the
  decision of `Notify` that is a history, so the history theorems hold for overlapping and crashing instances.
- **RabbitMQ, end to end** (`RabbitMQ`). The collector's aggregation loop, the checker that prints field
  names, and the signature pattern that reads them back.
- **Two text formats**: the `===TAG===` sections (`Sections`, `Services`) and the quoting for
  `sudo bash -c` (`Shell`).

How things are represented:

- Instants and durations are integers in nanoseconds; `Clock.Sub` clamps like Go's `Time.Sub`. The cooldown
  product wraps at 64 bits (`Config.Cooldown`).
- Strings are sequences of characters. Their lexicographic order is that of `sort.Strings`, because UTF-8
  keeps the order of code points.
- The hash is an arbitrary function `digest`; that its hexadecimal text is never empty is part of
  `Policy.Valid`.
- A status string that the program never writes behaves like the empty one in every comparison.
- Assumed about the system, not proved: `rename()` replaces the target in one step (IEEE Std 1003.1-2017),
  and the kernel drops a lock when its process ends. A mail counts as sent when `Send` reports no error; for a
  server that takes a mail and then reports one, `AttemptsWithinBudget` bounds the attempts instead.

Where the code and what is said about it differ, the model follows the code:

- `README.md:182` of the repository lets an alert followed by no alert send a recovery; the code waits for N
  clean runs (`README.md:164-166` says so too). `RecoveryIsAttemptedExactlyWhen` has the exact condition.
- A confirmed alert does not go on firing: its counter is dropped, and it fires at every N-th run
  (`FiresEveryNthRun`). A set of warnings that never changes therefore keeps one signature exactly when its
  counters agree, up to the signature, where the stretch starts
  (`StableSetKeepsOneSignatureExactlyWhen`). If they agree, the set sends at most one alert mail, and one more for
  each cooldown; if they do not, and the digest tells its keys apart, it sends at least one in every N committed
  runs, whatever `min_interval_minutes` is (`OutOfStepMails`; with N = 2 it can be one in every run, `Alternation.EveryRunMails`). So the cooldown limits
  the mails about a stable set exactly when its counters agree (`CooldownLimitsExactlyWhen`).
- The confirmation that `README.md:196-198` promises for a host and a field follows the host exactly when nothing
  else has the field (`FollowsHostExactlyWhen`, and over N runs `ConfirmsItselfExactlyWhen`). Names like
  `cpu_usage` are on every host (`checker/rules.go:28`), so with several hosts these counters are kept for the last
  host and count the warnings of any (`SeenExactlyWhenAnyWarns`, `ConfirmedByField`).
- With N = 1 confirmation is off, as documented, except from a state with an alert and a negative streak while
  recovery mails are on (`ChoiceIsPlainExactlyWhen`). The program never stores a negative streak
  (`StreakIsExact`).
- An unsent alert is tried again only while the counters that promoted it are younger than 24 hours
  (`FiresAgainExactlyWhen`, with `ExpiredCounterLosesTheAlert` as the input that shows it).
- A very large `min_interval_minutes` wraps around to a wrong, possibly negative cooldown
  (`CooldownIsExactWhen`).
- The comment on `ExtractAlerts` speaks of parsing field prefixes; the code attributes a field to the last
  host that lists it. Hence the walk over the host tables and the walk over all checks agree on a field
  exactly when it is attributed to that host (`HostTableAgreesExactlyWhen`).
- A backlog warning shows the threshold as `> N msgs`, while the collector compares with `>=`: what is shown is
  true of a listed queue exactly when it is not right at the threshold (`ShownThresholdIsTrueExactlyWhen`).
- The signature is canonical exactly when fields cannot hold a NUL (`CanonicalExactlyWhen`); one alert with a NUL
  in its field can have the signature of two others (`NulBreaksTheEncoding`).
- A vhost name with a dot in it is cut at the dot by the signature pattern (`IdentityIsTheVHostExactlyWhen`).
- `collector/service.go:57` wants every probe to end its output with a newline. That is exactly what the format
  needs, for any number of sections (`SectionsReadBackExactlyWhen`), besides bodies without a line that looks like
  a marker (`OneSectionReadsBackExactlyWhen`).

## Model

| member | source | states |
|---|---|---|
| Strings.SortedIsUnique | notify/signature.go:38-42 | A set of keys has one strictly sorted list, so the order in which a Go map yields its keys cannot reach the hash |
| Strings.LessIsLexicographic | notify/signature.go:42 | The order is decided by the first character that differs, and a proper prefix comes first |
| Strings.SortKeys | notify/signature.go:42 | `sort.Strings` on the distinct keys gives the one sorted list of their set |
| Strings.KeysInSomeOrder | notify/signature.go:38-41 | Collecting the keys of a map in any order loses and repeats none |
| Model.Summarize | checker/rules.go:267-285 | The summary says how many rows are OK, Warn and Unknown, each counted by its positions, and how many are one of the three; Notice rows are in no bucket |
| Model.TallySummarizes | checker/rules.go:267-285 | The recursive counts are the numbers of positions with each status |
| Model.CountForgetsOrder | checker/rules.go:267-285 | Permuted results have the same counts |
| Alerts.LastHostWins | notify/alerts.go:31-37 | A field belongs to the last host in the report that lists it, whatever earlier hosts list |
| Alerts.NoHostNoClaim | notify/alerts.go:31-37 | A field that no host lists belongs to no host |
| Alerts.BuildHostByField | notify/alerts.go:31-37 | The two nested loops compute that attribution |
| Alerts.ExtractAlerts | notify/alerts.go:26-53 | As many alerts as Warn rows, and the one for each Warn row stands at its place among them, with the field, value and threshold of the row and the last host that lists the field; a missing report has none |
| Alerts.ExtractedRowByRow | notify/alerts.go:39-52 | The same of the specification: the alert of each Warn row, its place, and its four fields |
| Alerts.WarnItemsAsSet | notify/alerts.go:39-52 | The set of alerts is decided by the set of Warn rows alone |
| Alerts.WarnItemsCount | notify/alerts.go:39-52 | There are as many alerts as Warn rows |
| Persistence.ApplyPersistence | notify/persistence.go:44-92 | The loop and its N = 1 shortcut compute one pass of the filter, also for N below 1: each item fires if its count, begun anew when the stored one is 86,400,000,000,000 ns old or older, reaches N, and otherwise waits with that count and its first time |
| Persistence.FreshForADay | notify/persistence.go:9 | A stored counter is believed exactly while it is younger than 86,400,000,000,000 ns |
| Persistence.NextCounter | notify/persistence.go:65-76 | One more sighting adds one to a counter younger than that and keeps its first time; any other counter starts at one, now |
| Persistence.PassGatesByTheClock | notify/persistence.go:65-86 | What the pass does with each item, from its host, its field, the stored counter and the clock alone |
| Persistence.EveryItemFires | notify/persistence.go:57-63 | With N <= 1 every item fires unchanged and nothing is carried forward |
| Persistence.OnePassIsAPartition | notify/persistence.go:65-91 | With N >= 2 each raw item either fires or has its key waiting, never both; stored keys are the waiting keys; stored counts lie in [1, N-1] and stored entries are younger than 86,400,000,000,000 ns; firing items keep their order |
| Persistence.FiringKeepsOrder | notify/persistence.go:78-81 | The firing list is the input with some items left out |
| Persistence.FiringKeepsCopies | notify/persistence.go:78-81 | An item that fires keeps its multiplicity, any other has none |
| Persistence.PassForgetsOrder | notify/persistence.go:65-86 | Lists with the same set of items leave the same counters and waiting keys, and fire the same set |
| Signatures.MatchIsComplete | notify/signature.go:15-22 | Every way a field fits the queue pattern is found, with its vhost and kind |
| Signatures.MatchIsSound | notify/signature.go:15-22 | Whatever matches fits the pattern: non-empty dot-free vhost, non-empty newline-free queue, one of two kinds |
| Signatures.FoldedExactlyWhenMatched | notify/signature.go:17-22 | Normalisation changes a field if and only if it fits the pattern |
| Signatures.FoldsToItsVHostExactlyWhen | notify/signature.go:15-22 | A queue-level field folds to its own vhost-level name if and only if vhost and queue name are proper |
| Signatures.BacklogFieldFolds | notify/signature.go:17-20 | A backlog field with proper names, written out, folds to the field of its vhost, written out |
| Signatures.NoConsumerFieldFolds | notify/signature.go:17-20 | So does a field about a queue without consumer |
| Signatures.NormalizedQueueField | notify/signature.go:15-22 | Whatever the names are, a queue-level field is reduced to the text before its first dot when the rest can be a queue name, and is kept otherwise |
| Signatures.NormalizeIsIdempotent | notify/signature.go:17-22 | Normalising twice is normalising once |
| Signatures.NodeFieldsUntouched | notify/signature.go:15-22 | Node-level RabbitMQ fields keep their identity, whatever the node is called |
| Signatures.ClusterFieldsUntouched | notify/signature.go:15-22 | Cluster-level RabbitMQ fields keep their identity |
| Signatures.KeyIsHostAndField | notify/signature.go:35-37 | For hosts without a bar two alerts have one key if and only if they have the same host and the same normalised field, whatever their values and thresholds are |
| Signatures.KeysTellHostsApart | notify/signature.go:35-37 | Alerts of one field on two hosts have different keys, whatever the hosts are called |
| Signatures.ComputeSignature | notify/signature.go:30-50 | Set map, sort and hash compute the signature of the list; the empty list has the empty signature |
| Signatures.FeedHash | notify/signature.go:44-48 | The hash is fed each key followed by a NUL, in order |
| Signatures.VHostFieldInjective | notify/signature.go:17-22 | A vhost-level name tells its vhost and kind |
| Signatures.EncodeInjective | notify/signature.go:44-48 | NUL-terminated concatenation of NUL-free keys can be taken apart again |
| Signatures.SignatureIsCanonical | notify/signature.go:30-50 | For NUL-free keys the hashed texts of two lists are equal if and only if their sets of host and normalised field are |
| Signatures.CanonicalExactlyWhen | notify/signature.go:34-48 | For hosts without NUL and fields over an alphabet with the bar and two more characters, texts identify key sets for all lists if and only if NUL is not in the alphabet |
| Signatures.NormalizedNulFree | notify/signature.go:17-22 | Folding a field brings no NUL into it |
| Signatures.NulImitatesTwo | notify/signature.go:34-48 | Any two fields in order can be imitated by one field with a NUL between them: other keys, the same hashed text |
| Signatures.NulBreaksTheEncoding | notify/signature.go:34-48 | For instance one alert and two alerts with different keys are fed to the hash as the same text |
| Signatures.SignatureForgetsOrder | notify/signature.go:24-50 | Order, repetition, values and thresholds do not reach the signature |
| StateFile.StateDir.LoadState | notify/state.go:38-55 | The stored state if the file can be read and holds one, and otherwise the zero state, written out |
| StateFile.StateDir.SaveState | notify/state.go:58-90 | Whichever step fails, the target holds either the new state or exactly what it held; a temporary file stays only if the save failed and so did its removal |
| Config.Settings.ToPolicy | notify/config.go:96-104 | N and the interval are the configured ones where positive and 2 and 120 otherwise, and the cooldown is the interval times 60,000,000,000 ns, positive, as long as that fits 64 bits |
| Config.Settings.ApplyDefaults | notify/config.go:96-104 | A field that is not positive gets its default, 120 minutes or 2 runs, any other is kept |
| Config.CooldownIsExactWhen | notify/notify.go:98 | The cooldown is the configured number of minutes if and only if that fits 64 bits of nanoseconds |
| Config.WrapKeepsLowBits | notify/notify.go:98 | The product is reduced to the signed 64-bit number with the same low 64 bits |
| Clock.SubIsNearest | notify/persistence.go:73 | A difference of instants that fits 64 bits is exact, any other is the nearest one that fits |
| Config.CooldownCanBeNegative | notify/notify.go:98 | The first interval that does not fit gives a negative cooldown |
| Demotion.DemoteHostTables | notify/notify.go:187-198 | Row by row of every host table: a Warn row whose host and field wait becomes Notice, every other status, and all fields, values, thresholds, addresses and lengths, are kept |
| Demotion.DemotedRowByRow | notify/notify.go:187-215 | The same of the specification, and of the rows of the report, each attributed to the last host that lists its field |
| Demotion.DemotePending | notify/notify.go:182-218 | The report after demotion: host tables and report rows row by row, and the summary; nothing changes when nothing waits |
| Demotion.RecomputeSummary | notify/notify.go:223-239 | The second implementation of the summary counts what the checker's does: the positions of OK, Warn and Unknown rows |
| Demotion.DemotionKeepsHosts | notify/notify.go:200-205 | Rebuilding the attribution after the host tables changed gives the attribution the alerts were extracted with |
| Demotion.RemainingWarnsFire | notify/notify.go:206-215 | The rows that stay Warn are, as alerts, the firing list |
| Demotion.DemotionMovesWarnToNotice | notify/notify.go:206-217 | Demotion moves rows from Warn to Notice and changes no other count |
| Demotion.ReportSaysWhatTheMailSays | notify/notify.go:177-239 | After demotion the report's alerts are the firing list element for element; Warn is its length, OK and Unknown are unchanged, and the total dropped by the number demoted |
| Demotion.HostTableAgreesExactlyWhen | notify/notify.go:187-215 | A Warn row that stands in a host's table and in the report looks the same in both after demotion, for all sets of waiting keys, if and only if the last host that lists its field has that host's address |
| Demotion.HostTableAgreesWhenUnique | notify/notify.go:187-215 | It does for every field that only one host lists |
| Notify.Notifier.Prepare | notify/notify.go:58-88 | Load, filter, count and demote, in place, with both tables demoted row by row; an unusable configuration leaves the report alone |
| Notify.Notifier.Decision | notify/notify.go:98-120 | The intercept for an alert with nothing firing, the decision matrix and the recovery switch give the chosen action |
| Notify.Notifier.Dispatch | notify/notify.go:93-166 | Sending and saving move the world by one step: a failed send saves nothing, a failed save leaves the file |
| Notify.Notifier.RunOnce | main.go:136-161 | A whole run is one step of the history, and the report it writes shows exactly what fires, with both tables demoted row by row and a summary that counts the rows by position |
| Recovery.TrailingCleanIsMaximal | notify/persistence.go:94-109 | The counted block of clean runs is clean and cannot be made longer |
| Recovery.StreakStep | notify/notify.go:124-164 | One run, whatever fails in it, keeps the streak exact |
| Recovery.StreakIsExact | notify/persistence.go:101-109 | In every reachable state the streak is the number of clean committed runs since the last warning while an alert stands, else 0; below N while recovery mails are on |
| Recovery.RecoveryIsAttemptedExactlyWhen | notify/notify.go:103-120 | A recovery is attempted if and only if an alert stands, recovery mails are on, and this run makes the clean block at least N runs long |
| Confirmation.CountersAlwaysMean | notify/persistence.go:65-86 | In every reachable state a counter (c, f) means: seen in the last c committed runs, the first of them at f |
| Confirmation.NothingFiresUnconfirmed | notify/persistence.go:65-86 | After any history an item fires only if this run and each of the previous N-1 committed runs saw its key, the earliest less than 86,400,000,000,000 ns ago |
| Confirmation.FiresEveryNthRun | notify/persistence.go:65-86 | A key seen by every committed run of a stretch fires in exactly the runs in which its starting count, counted on, reaches a multiple of N (the N-th, 2N-th, ... without a count), and after j runs its count is (start + j) mod N |
| PerHost.SeenExactlyWhenAnyWarns | notify/alerts.go:31-51 | The counter key of a host and a field is seen if and only if the host is the last that lists the field and some row of the field warns, on whatever host |
| PerHost.SeenExactlyWhenHostWarns | notify/alerts.go:31-51 | For a field that only one host has, the key is seen if and only if that host warns |
| PerHost.FollowsHostExactlyWhen | notify/alerts.go:31-51 | For all statuses of a given layout the key follows its host if and only if nothing else has the field |
| PerHost.ConfirmedByField | notify/persistence.go:65-86 | An item fires only if in each of the previous N-1 committed runs its host owned the field and some row of it warned, the host's own where nothing else has the field |
| PerHost.ConfirmsItselfExactlyWhen | notify/persistence.go:65-86 | For every N, what fires under a host's name after N reports of a layout was warned about by that host each time if and only if nothing else has the field, or the field never fires under its name |
| PerHost.SharedFieldConfirmsTogether | notify/alerts.go:31-37 | When two hosts have the field, one warning of each fires it at N = 2 although no host warned twice |
| Confirmation.ResidueIsMod | notify/persistence.go:72-86 | The count that restarts at N is the remainder modulo N |
| MailHistory.StateNeverRunsAheadOfMail | notify/notify.go:134-165 | In every reachable state, whatever failed, the stored status, signature and time are those of a mail that really went out, and they say which alert stands |
| MailHistory.MailsComeFromRuns | notify/notify.go:134-157 | Each mail was decided on and sent by a run of the history, in the world that the runs before it had left |
| MailHistory.TruthfulStep | notify/notify.go:134-165 | One run, whatever fails in it, keeps the state backed by the mails that went out |
| MailHistory.AlertIsAttemptedExactlyWhen | notify/trigger.go:24-43 | An alert is attempted if and only if something fires and no alert stands, or the standing one has another signature or is a full cooldown old |
| MailHistory.FollowsMeansInLanguage | notify/trigger.go:24-43 | Mails in which every recovery follows an alert form the language (alert+ recovery)* alert* |
| MailHistory.MailsMatchTheProtocol | notify/notify.go:102-165 | From a cold start the committed mails always match (alert+ recovery)* alert* |
| MailBudget.AlertsAreDue | notify/trigger.go:34-42 | In every history an alert mail that repeats the standing signature comes at least a cooldown after it |
| MailBudget.AccountBalances | notify/notify.go:102-165 | At every point of a window each alert mail is paid for by a recovery, an unreadable start, a change of signature, a cooldown waited for, or the one free mail |
| MailBudget.MailsWithinBudget | notify/notify.go:98-165 | Alert mails in a window number at most 1 + recovery mails + unreadable starts + changes of signature + whole cooldowns in the window |
| MailBudget.SentIsCommittedOrUnsaved | notify/notify.go:134-148 | Every alert mail that went out is committed, or its run could not save the state |
| MailBudget.SentMailsWithinBudget | notify/notify.go:93-166 | The alert mails that really went out during some runs are within that budget plus the runs that sent one and could not save |
| MailBudget.AttemptsWithinBudget | notify/notify.go:134-148 | Alert mails that were tried, whatever an error of the try means, are within that budget plus the tries that ended in an error |
| MailBudget.UnreadableStateCostsAMail | notify/state.go:38-50 | Without the unreadable starts the bound is false: two runs at one instant send two equal alerts |
| Alternation.EveryRunMails | notify/persistence.go:78-85 | With N = 2, two warnings confirmed one run apart make every later run send an alert about one of them in turn, though the set of warnings stays the same |
| StableSet.OneSignatureExactlyWhen | notify/signature.go:30-50 | When N or more runs see the same warnings, all that fires keeps one signature if and only if the starting counts agree up to the signature |
| StableSet.StableSetKeepsOneSignatureExactlyWhen | notify/persistence.go:65-86 | So in every history: a set of warnings that stays the same keeps one signature if and only if its stored counters agree up to the signature |
| StableSet.StableSetWithinCooldown | notify/trigger.go:34-42 | Then the runs send at most one alert mail, one more for each whole cooldown, and one more for each run that sent one and could not save |
| OutOfStep.DifferentSignaturesMail | notify/trigger.go:34-42 | Two firing runs with different signatures have an alert mail after the first and no later than the second |
| OutOfStep.OutOfStepMails | notify/persistence.go:65-86 | A stable set whose counters do not agree sends at least one alert mail in every N committed runs, whatever the cooldown is |
| OutOfStep.CooldownLimitsExactlyWhen | notify/trigger.go:34-42 | Over a stretch long enough to tell, the alert mails about a stable set are at most one, and one more for each cooldown, if and only if its counters agree |
| Refinement.PlainStepIsStep | notify/persistence.go:57-63 | One run with N = 1, from any state but an alert with a negative streak and recovery mails on, does what the machine without confirmation does on the raw list, and ends in such a state |
| Refinement.NoConfirmationRefinesPlain | notify/notify.go:103-120 | With N = 1 whole histories send the same mails as that machine and remember the same of them; no counter is ever stored |
| Refinement.EveryActionIsDecideOnRaw | notify/trigger.go:17-44 | With N = 1 every action is the decision matrix on the raw list, behind the recovery switch |
| Refinement.NegativeStreakBreaksIt | notify/notify.go:109-113 | From each of the other states every clean run that can read the state goes wrong: the recovery is not sent |
| Refinement.ChoiceIsPlainExactlyWhen | notify/notify.go:103-120 | The next decision is the plain machine's for all inputs if and only if the state is not one of those |
| Refinement.MailsArePlainExactlyWhen | notify/notify.go:103-166 | The mails of all histories are the plain machine's if and only if the starting state is not one of those |
| OrderFree.PreparationForgetsOrder | notify/persistence.go:65-86 | Permuting or repeating raw items gives the same counters, streak and signature keys |
| OrderFree.DecisionForgetsOrder | notify/notify.go:98-165 | Preparations that differ in the order and repetition of what fires have the same action, mail and next state |
| OrderFree.StepForgetsOrder | notify/notify.go:93-166 | Such runs leave the same state file and send the same mails |
| OrderFree.HistoryForgetsOrder | notify/notify.go:93-166 | And so do whole histories of them |
| OrderFree.ReportOrderIsIrrelevant | main.go:100-109 | Reports with the same set of Warn rows have the same counters, streak, signature, action and next state |
| OrderFree.DemotionOfPermutation | notify/notify.go:206-215 | Demoting a permuted list gives a permutation of the demoted list |
| OrderFree.SummaryForgetsOrder | main.go:100-138 | Permuted reports have the same summary after demotion |
| Retry.FiresAgainExactlyWhen | notify/persistence.go:73-82 | Seen again later with the same counters, a raw list fires the same items if and only if the promoting counters are still fresh |
| Retry.FailedAlertIsRetried | notify/notify.go:137-140 | After a failed send nothing has changed, and the next run with the same raw list and fresh counters attempts the same items under the same signature |
| Retry.FailedAlertIsRetriedAtLast | notify/notify.go:137-140 | The same after any number of failed sends in a row |
| Retry.ExpiredCounterLosesTheAlert | notify/persistence.go:73-76 | With a counter of exactly 86,400,000,000,000 ns the next run is silent |
| Lock.FileLock.Acquire | lock/lock.go:26-42 | The lock is taken exactly when the file opens, `flock` works and nobody holds it; otherwise the owner is untouched |
| Lock.FileLock.Release | lock/lock.go:44-48 | A process gives up the lock if it has it, and never the lock of another |
| Lock.HolderIsAFileLock | lock/lock.go:36-48 | In the interleaved system the holder is taken as `Acquire` takes it, dropped as `Release` drops it, and touched by no other step |
| Lock.Execute | main.go:50-62 | One event executed with `Acquire` and `Release` on the lock itself gives the next state of the system, with the owner as its holder |
| Lock.ExecuteAll | main.go:50-62 | So does a whole schedule on one lock |
| Lock.NextKeepsInv | notify/state.go:58-90 | Each atomic step, crashes included, keeps: exactly the holder is inside, the world is that of the serial history, the state file is never half written |
| Lock.CompletedRunIsCommitted | notify/state.go:58-90 | An instance that gets through its seven steps replaces the state file by the planned state, commits its run, sends the mail the plan asks for, and frees the lock |
| Lock.UnsavedRunKeepsTheFile | notify/state.go:70-88 | An instance whose save fails has sent its mail, leaves the state file as it was, and no temporary file |
| Lock.UnsentRunChangesNothing | notify/notify.go:137-140 | An instance whose mail fails leaves state file, commits and mails as they were |
| Lock.BusyIsGone | main.go:56-58 | An instance that finds the lock taken ends, and nothing else changes |
| Lock.WhatStaysBehind | notify/state.go:72-88 | A process that dies, or cannot remove its temporary file, leaves all files as they are |
| Lock.AnyPlanIsSerial | lock/lock.go:20-50 | For every schedule of any number of instances, and whatever the instances decide, state file, commits and mails are those of the instances one after another in lock order |
| Lock.EveryLogIsReached | main.go:50-62 | And every serial log happens: some schedule leaves its state file, commits and mails |
| Lock.ReachedExactlyWhenSerial | main.go:50-62 | So the worlds that schedules leave are exactly those of runs one after another |
| Lock.InterleavingIsSerial | main.go:46-62 | With the decisions of the program, that is a history |
| Lock.BusyLeavesNoTrace | main.go:56-58 | For an instance that never gets the lock, the files, mails, lock, history and all other instances are those of the same schedule without it |
| Lock.StateNeverRunsAheadOfMailWhenOverlapping | main.go:46-62 | So the state does not run ahead of the mail under overlap and crashes either |
| RabbitMQ.CollectQueue | collector/rabbitmq.go:136-168 | One queue is skipped, or counted into its vhost's row and put on the lists whose condition it meets |
| RabbitMQ.CollectQueues | collector/rabbitmq.go:135-169 | The whole loop leaves the table of totals by vhost and appends exactly the queues that meet each condition |
| RabbitMQ.CountingBuildsTheTable | collector/rabbitmq.go:145-152 | Counting queue by queue, with rows that start at zero, builds the table of totals by vhost |
| RabbitMQ.AggregateQueues | collector/rabbitmq.go:135-177 | The loop and the sorted summary append three parts: the queues that have reached the threshold, the queues with messages and no consumer outside the blacklist, each as often as collected and with its own names and numbers, and a row for each vhost; nothing of "bk_usermgr" and no queue whose name starts with "celeryev" |
| RabbitMQ.BacklogsAreListed | collector/rabbitmq.go:139-164 | Which entries the first list holds, and how often, with the conditions written out |
| RabbitMQ.UnconsumedAreListed | collector/rabbitmq.go:139-168 | Which entries the second list holds, and how often |
| RabbitMQ.VHostsAreListed | collector/rabbitmq.go:139-176 | Which vhosts have a row |
| RabbitMQ.RowCountsItsQueues | collector/rabbitmq.go:145-152 | A row starts at zero, and a kept queue adds one, its messages and its consumers to the row of its own vhost and to no other |
| RabbitMQ.TableConserves | collector/rabbitmq.go:135-177 | One row per kept vhost, strictly sorted, with the number, messages and consumers of its own queues; the three columns add up to those of all kept queues |
| RabbitMQ.SummaryConserves | collector/rabbitmq.go:150-152 | Any amount summed by vhost over all vhosts is its sum over all kept queues: nothing is lost or counted twice |
| RabbitMQ.FilterKeepsOrder | collector/rabbitmq.go:163-168 | The lists of exceeding and consumer-less queues keep the collected order |
| RabbitMQ.FilterKeepsCopies | collector/rabbitmq.go:163-168 | They hold exactly the queues that meet their condition, each as often as collected |
| RabbitMQ.CheckRabbitMQ | checker/rabbitmq.go:15-100 | Cluster, node and queue findings in order, and the render statuses written back; nothing else of the status changes |
| RabbitMQ.CheckCluster | checker/rabbitmq.go:21-51 | One warning for each cluster-level problem there is, in order and written out, and the two render statuses |
| RabbitMQ.CheckNodes | checker/rabbitmq.go:53-75 | One warning for each alarm of each node, memory before disk, under the alarm's own name, and each alarm coloured by its own flag |
| RabbitMQ.CheckQueues | checker/rabbitmq.go:77-97 | One warning for each listed queue, backlogs first, with its words written out, and each listed queue coloured in its own column |
| RabbitMQ.NodesAreReported | checker/rabbitmq.go:53-75 | Where the warnings of each node stand, how many they are, and what they say |
| RabbitMQ.QueuesAreReported | checker/rabbitmq.go:77-97 | Where the warning of each listed queue stands and what it says |
| RabbitMQ.DecimalReadsBack | checker/rabbitmq.go:77-96 | A printed number is digits without a leading zero, behind a minus sign if it is negative, and reads back as the number |
| RabbitMQ.ShownThresholdIsTrueExactlyWhen | checker/rabbitmq.go:77-86 | The shown comparison is true of a listed queue if and only if its messages are not equal to the threshold |
| RabbitMQ.ClusterChecksKeepTheirNames | checker/rabbitmq.go:21-51 | Every cluster-level finding is a Warn whose name the signature leaves alone |
| RabbitMQ.NodeChecksKeepTheirNames | checker/rabbitmq.go:53-75 | So is every node-level finding, whatever the nodes are called |
| RabbitMQ.KeyOfQueueCheck | checker/rabbitmq.go:78-97 | The signature key of a queue-level warning is made of the queue's identity and the kind, whatever the names are |
| RabbitMQ.IdentityIsTheVHostExactlyWhen | notify/signature.go:15-22 | The identity of a queue is its vhost if and only if the vhost is non-empty and dot-free and the queue name non-empty and newline-free |
| RabbitMQ.RabbitHasNoHost | notify/alerts.go:31-45 | No host check is named like a RabbitMQ finding, so these are attributed to no host |
| RabbitMQ.QueueKeysAreIdentities | checker/rabbitmq.go:77-97 | The queue-level signature keys are made from two sets: the identities of the exceeding queues and of the consumer-less ones |
| RabbitMQ.QueueKeysAgreeExactlyWhen | collector/rabbitmq.go:154-168 | Two collections, with any names, have the same queue-level keys if and only if they have the same two sets of identities |
| RabbitMQ.QueueIdentityIsTheVHosts | collector/rabbitmq.go:154-168 | With proper names those are the sets of vhosts, whatever the queues are called and however many there are |
| RabbitMQ.CollectAndCheck | checker/rabbitmq.go:15-100 | Collecting and checking one status in place: the signature sees every other finding under its own name and the queues under their identities |
| Sections.ParseSections | collector/host.go:221-243 | The line loop computes the sections of the output |
| Sections.SplitKeepsText | collector/host.go:223 | Splitting into lines loses nothing and leaves no newline in a line |
| Sections.SplitUndoesJoin | collector/host.go:223 | Newline-free lines joined by newlines are split into those lines again |
| Sections.TrimTakesBlanks | collector/host.go:230 | Trimming takes blanks at the two ends, all of them, and nothing else |
| Sections.BlanksByNumber | collector/host.go:230 | Which code points are blank |
| Sections.TagHasNoEqualsAtItsEnds | collector/host.go:233 | A tag is what is left of its line without the equals signs at the two ends, and nothing else is taken |
| Sections.MarkerShape | collector/host.go:228 | A marker line has three equals signs at each end, which may overlap |
| Sections.BodyIsBuffered | collector/host.go:234-236 | A terminated body without marker lines is buffered unchanged under its tag |
| Sections.LastBodyIsBuffered | collector/host.go:234-241 | The last body is buffered whether it ends its last line or not |
| Sections.TagOfMarker | collector/host.go:228-233 | A printed marker is recognised and gives back its tag |
| Sections.TrimIgnoresNewline | collector/host.go:229-241 | The newline that the parser adds to the last line is trimmed away |
| Sections.ReadSections | collector/host.go:227-242 | From any point of the parse, printed sections are read as their tags and trimmed bodies, a later one replacing an earlier one of the same tag |
| Sections.SectionsRoundTrip | collector/host.go:20-39 | Parsing a printed batch gives exactly the printed tags, each with its own trimmed body, when all bodies but the last end their last line and none has a marker-shaped line; text before the first marker is dropped |
| Sections.OthersLeaveAlone | collector/host.go:227-242 | Sections of other tags leave a tag alone, whatever unfinished line is glued to whatever marker |
| Sections.BareMarkerEndsSection | collector/host.go:228-242 | A line of equals signs alone ends the section before it, which is kept, and what follows is nobody's up to the next marker |
| Sections.SectionsReadBackExactlyWhen | collector/host.go:221-243 | Any number of sections with good, distinct tags and without marker-shaped lines is read back if and only if every body but the last ends its last line |
| Sections.OneSectionReadsBackExactlyWhen | collector/host.go:228-236 | One section is read back if and only if no line of its body looks like a marker |
| Services.ReadSubModules | collector/service.go:124-194 | The loop looks up the sections `SVC_`, `HZ_` and `WK_` of each sub-module by its name, and skipped checks not at all |
| Services.SubModulePrints | collector/service.go:63-107 | A sub-module prints its three sections in this order and under its name, without the skipped ones |
| Services.SubModulesPrint | collector/service.go:63-108 | The sub-modules print one after another |
| Services.ModulePrints | collector/service.go:110-113 | "appo" and "appt", and no other module, print their containers behind that |
| Services.EachReadsItsOwn | collector/service.go:124-188 | With distinct names every sub-module reads its own three sections, wherever it stands in the list |
| Services.SectionsAreGood | collector/service.go:59-113 | Commands that end their last line and print no marker-shaped line give a batch that can be read back |
| Services.SectionsReachTheirSubModule | collector/service.go:63-206 | Every sub-module gets exactly what its own commands printed, under the right part, with skipped checks absent and the container list exactly for the modules that ask for it, if and only if every command but the last ends its last line |
| Shell.QuotedReadsBack | ssh/client.go:91 | The escaped text between single-quotes is read by the shell as the text |
| Shell.EscapeReplacesQuotes | ssh/client.go:91 | Escaping replaces each single-quote by the same four characters and keeps everything else |
| Shell.QuotingRoundTrips | ssh/client.go:86-93 | For every command a shell that follows IEEE Std 1003.1-2017 sections 2.2.1 and 2.2.2 reads `sudo`, `bash`, `-c` and the command as one word |

## Left out

- SMTP, HTML and JSON output, the text of the mails, SSH transport, database drivers and curl: a send is ok or not, and nothing else of it is modelled.
- SHA-256 and Go's regexp engine: an arbitrary digest function, and a direct definition of what the one pattern accepts.
- The JSON text of the state file: its content is a state, missing, or text that does not parse.
- Threshold rules (hosts, Elasticsearch, Redis, MongoDB, replication, dependencies): each is one branch; their Warn rows are the input.
- CPU and memory percentages: floating point.
- Decoding of the RabbitMQ API's JSON: queues are already decoded records.
- Environment parsing, host de-duplication, role fallback, disk filtering, HTML fragments: easy members.
- Running on without a lock after `Acquire` fails for another reason than contention, and changes of N, cooldown or recovery switch between runs.
- `Config.Validate` and the reading of the configuration file: one flag says whether the configuration is usable.
- The shell text of the collector's commands: modelled by the sections they print.
- Parsing of section bodies (systemctl properties, healthz answers, worker and container counts): easy members.
- `Process` and `ExtractUnknowns`: a wrapper and a counter.
- The 64-bit bounds of counters and streaks: integers are unbounded there.
- Alternation.EveryRunMails: N = 2 and two warnings; `StableSetKeepsOneSignatureExactlyWhen` is the statement for every N and every set.
