# Presence logger: a verified model

Children (small camera computers) write CSV lines; a hub stores them in Oracle.
This project models the code between the two and the smaller state machines
around it, and proves what that code is for.

- **Record delivery.** A child parses CSV lines (`Records`), keeps a durable
  ledger and an MQTT session (`Delivery`), goes over a file and archives it
  (`Archiving`). The bridge keeps an inbox (`RecordInbox`), MERGEs into Oracle
  (`Oracle`, `RecordSending`) and answers ACK or NACK. `Protocol` puts all of it
  into one transition system: any number of children, a network that loses,
  repeats and reorders, crashes between any two durable writes, evictions and
  other programs writing to the same table. `Safety`, `Sessions`, `Archives`,
  `Outbox`, `Sidecars`, `Progress`, `DeadEnds` and `Retries` hold the theorems about every run,
  and `Witnesses` the runs that show the failures among them. `Calls` shows that a
  call of `RunOnce`, `Receive`, `Send`, `DeliverFile` or `ArchiveToDestination` is a
  run of that system, with the hub, the other children and the callbacks going on
  between the lines and during the waits; `ArchiveToDestination` is taken as
  uninterrupted there.
- **Smaller machines.** `Presence` (debouncing), `Eviction` (bounded tables),
  `Liveness` (tracker against roll-up), `Fleet` (trust on first use), `Keyfile`
  (NetworkManager values and their reader), `RetryClock` (retry times kept as ISO
  text), `Breaker` (shared circuit breaker), `Cursor` (the web server's sender).

Code that changes state is a class or a method with loops, proved equal to a
function of the old state; the theorems are about those functions.

## Assumptions

- Oracle's primary key is (MK_DATE, STA_NO1-3). A MERGE is atomic and serialised
  with others, and rows are never removed or changed. The codes listed as
  unretryable are reported only when another row holds the key, as the comment at
  `services/bridge/src/record_sender.py:35-40` says, and "no code and no message"
  only after a commit.
- SHA-1 is injective on the strings it is given, so an event id is the hashed
  string; `Records.EventIdInjective` supplies the rest. JSON is a faithful
  encoding. Nobody forges ACKs or NACKs.
- A child in `Protocol` has one destination; the ledger's methods leave the rows of
  other destinations alone (`OthersUnchanged`).
- An edit of a file changes (st_size, st_mtime_ns).
- Instants stand for stored times; `RetryClock.IsoTextOrder` is what allows it.
- The inbox and Oracle can store every valid record. The parsers accept a T1 beyond
  SQLite's 64 bits, on which the insert raises, a station longer than its column,
  which Oracle refuses for ever, and an empty station, which Oracle reads as NULL: it
  matches no row and cannot be in a primary key. Such records are outside the recovery
  theorems (`Progress.NoDeadEnd`, `DeadEnds.DecidableIff`).
- `ring_evict`, `delete_sent` and each repository method are one step, as are
  the check and the ledger write at the start of `send`.
- The protocol follows one Oracle profile; `Breaker` treats any number.
- Log text is text after newline translation.
- Every file in the outbox is `<stem>.csv`, and a name stands for its stem.

## Where code and intent differ

The model follows the code. Each point is a lemma.

- `record_sender.py:125` asks for `error_message is None`, but both adapters
  return an empty string on success. `Config.literalTest` selects the test as
  written: then nothing is ever acked or marked sent (`Progress.LiteralTestNeverAcks`).
  The safety theorems and the exact conditions hold for both tests.
- The example configuration lists no unretryable code, so a record whose key
  another row holds is retried for ever. `DeadEnds.DecidableIff` gives the exact
  condition for a way out; `Witnesses.DoomReachedIff` shows which configurations can
  lose a row. For a published record whose line is gone the way out is that the network
  delivers the old publish again.
- Only a pass over a file sends: a row whose line was removed from the outbox before
  its record was published stays pending for ever (`DeadEnds.StrandedRow`,
  `Witnesses.StrandedReached`). With files that are only appended to this cannot
  happen (`Outbox.PendingHasLine`).
- `deliver_file` compares `stat` before the move, not at the move: lines appended
  in between are archived unread and in no sidecar. `Archives.AppendedBeforeMove` says
  exactly when the file is sound all the same, `Witnesses.LostLineReached` shows a lost
  line.
- `send` checks its subscription before it publishes; a disconnect can fall
  between the two (`Sessions.DisconnectMaySlipIn`, `Witnesses.UngrantedPublishReached`).
- The circuit breaker's quiet period depends on a clock that is not set back
  (`Breaker.ClockSetBackBreaksQuiet`). `Breaker.KeptBackIff` says for any clock exactly
  which runs are held back, `Breaker.QuietPeriodIff` when a given period holds.
- The doc comment of `classify` says remembered MACs settle two entries that point
  at one address; on first use both learn the same MAC (`Fleet.SharedBinding`,
  `Fleet.BothLearnOneMac`).
- The tracker takes every status payload but "online" for "offline", the roll-up
  ignores such payloads; with equal times the two can differ too. `Liveness.AgreeIff`
  says on exactly which lists they part, `Liveness.OtherPayloadSplits` and
  `Liveness.TieSplits` are examples.
- The web server's cursor counts lines by file name, so a log that is shortened,
  rewritten or replaced can lose lines (`Cursor.RewrittenLineSkipped`).
  `Cursor.NoLineLostIff` says which changes lose none.
- Python's `$` also matches before a final newline, so a PSK or SSID ending in one
  can pass the checks; it does not survive the round trip (`Keyfile.PskRoundTrip`,
  `Keyfile.SsidRoundTrip`).

## Model

| member | source | states |
|---|---|---|
| Safety.NoFalseAck | child/ack_delivery.py:259-291 | in every reachable state a ledger row marked acked has its key and T1_STATUS in Oracle, and a nacked one has its key held by another row |
| Safety.AckNackExclusive | services/bridge/src/record_sender.py:60-160 | no event id is ever both acked and nacked by the bridge, even after its inbox row was evicted and inserted again |
| Safety.NackedNeverStored | services/bridge/src/record_sender.py:148-160 | a nacked record is in Oracle neither now nor after any further run |
| Safety.ExactlyOnce | services/bridge/src/oracle_client.py:70-81 | over a whole run the inserted keys are all different, each belongs to a published record and is still stored, and all other rows come from other programs |
| Safety.Conservation | services/bridge/src/record_inbox.py:126-232 | an accepted record is received, or sent and stored, or failed with its key taken, or has left the inbox decided, or was evicted undecided |
| Safety.OnlyRingEvictLoses | services/bridge/src/main.py:359-373 | a step that removes an undecided row is a ring eviction with more than max_rows rows undecided, and leaves exactly max_rows of them |
| Safety.StepKeeps | services/bridge/src/record_sender.py:48-188 | every step of child, network, bridge, crash, eviction and other writers keeps the protocol invariant |
| Safety.NeverRaises | child/ack_delivery.py:299-303 | the content mismatch `send` raises on cannot occur for a record of the child's own device |
| Progress.NoDeadEnd | child/ack_delivery.py:342-387 | while files are only appended to: from every reachable state with a pending row, whatever the inbox, the bridge threads and the file pass are doing, a run of ordinary steps decides it, if a MERGE of it would be answered. The next pass over its file goes over the earlier lines and sends it; no MERGE on the way fails when ORA-00001 is given up on |
| Progress.LineIsDecided | child/ack_delivery.py:342-387 | the same after any edits, for a row whose line is in a file that no finished pass is about to move |
| Outbox.PendingHasLine | child/ack_delivery.py:342-387 | while files are only appended to, every pending row's line is in such a file |
| DeadEnds.DecidableIff | services/bridge/src/record_sender.py:115-188 | for either success test: some run without edits decides a pending row if and only if its record was published or a child can still send it, and the row is not doomed |
| DeadEnds.DecidableWithEditsIff | services/bridge/src/record_sender.py:115-188 | some run with edits decides it if and only if it is not doomed |
| DeadEnds.StrandedRow | child/ack_delivery.py:342-387 | a row never published, whose line is in no file and before no pass, stays pending over every run without edits |
| Progress.DeadEnd | services/bridge/src/record_sender.py:115-188 | a doomed row (another row has its key and ORA-00001 is not given up on, or the test as written hides a success) is decided by no run at all |
| Witnesses.DoomReachedIff | services/bridge/src/record_sender.py:125-160 | a doomed pending row is reachable exactly when the test is the written one or ORA-00001 is not listed |
| Witnesses.StrandedReached | child/ack_delivery.py:293-314 | a stranded row is reached by a restart between the check and the publish and an edit of the file |
| Progress.LiteralTestNeverAcks | services/bridge/src/record_sender.py:125 | with the success test as written no run marks a row sent or publishes an ACK |
| Progress.SendOneIsRun | services/bridge/src/record_sender.py:115-188 | one call of `_send_one` is the MERGE, mark and reply steps in a row |
| Calls.RunOnceIsRun | services/bridge/src/record_sender.py:48-58 | a whole scan with any faults is a run of the transition system ending in the state the method computes |
| Calls.ReceiveIsRun | services/bridge/src/record_sender.py:60-102 | a call of `receive` for a published record is such a run |
| Calls.SendIsRun | child/ack_delivery.py:293-329 | a call of `send` for the pass's current line is such a run, with the system going on during each sleep, answers published meanwhile included |
| Calls.DeliverFileIsRun | child/ack_delivery.py:342-387 | a call of `deliver_file` is such a run and ends as the method's contract says, with the system going on before every line and during every wait |
| Calls.ArchiveIsRun | child/child-csv-to-mqtt.py:123-150 | a call of `archive_to_destination` after a complete pass is such a run |
| Sessions.DecisionsAreFinal | child/ack_delivery.py:152-204 | over any run an acked or nacked row never changes again |
| Sessions.ResendsAreSpaced | child/ack_delivery.py:304-313 | two publishes of one event id have `now` values at least resend_after apart, over restarts and clock jumps |
| Sessions.PublishNeedsGrant | child/ack_delivery.py:233-249 | every publish follows a check made when the latest connect, disconnect, restart or matching SUBACK was a SUBACK granting the ack topic (0x80 of section 3.9.3 of MQTT 3.1.1 refuses); at the publish itself it still is if and only if nothing but a grant came in between |
| Sessions.SubscribedMeansGranted | child/ack_delivery.py:233-249 | the subscription flag is set exactly when the callback history ends in such a grant, and the flag that lets NACKs count exactly when it ends in a SUBACK granting the nack topic |
| Sessions.DisconnectMaySlipIn | child/ack_delivery.py:293-329 | a disconnect after the check does not stop the publish |
| Witnesses.UngrantedPublishReached | child/ack_delivery.py:293-329 | a publish right after a disconnect is reachable |
| Archives.ArchiveSound | child/ack_delivery.py:342-387 | in a file moved as it was read every line is blank or in Oracle, except, in the nacked directory, exactly the lines the sidecar lists, whose keys other rows hold |
| Archives.UneditedMove | child/ack_delivery.py:342-387 | if the stamp is unchanged at the move, the text moved is the text read |
| Archives.AppendedBeforeMove | child/child-csv-to-mqtt.py:123-150 | for every move to either directory of a text with something appended: the sidecar lists no appended line, and the file is sound if and only if every appended line is blank or in Oracle |
| Outbox.MovedSoundIff | child/child-csv-to-mqtt.py:123-150 | while files are only appended to, this is so for every move |
| Sidecars.NackedRowQuotes | child/ack_delivery.py:274-291 | in every reachable state a nacked ledger row carries the reason and time of a NACK the bridge published for its event |
| Sidecars.SidecarQuotes | child/child-csv-to-mqtt.py:123-150 | every row of a moved file's sidecar is for a line that was read, with its record's id and MK_DATE and the reason and time of a NACK published for it |
| Witnesses.LostLineReached | child/child-csv-to-mqtt.py:123-150 | an appended line that was never sent is reached in the sent directory |
| Archiving.DeliverFile | child/ack_delivery.py:342-387 | ledger, session, counts and verdict are those of the lines taken one after the other up to the time limit; a complete pass leaves every line settled and lists the nacked ones |
| Archiving.CompleteLinesAre | child/ack_delivery.py:342-387 | the complete lines are the only way to write a text as lines with their newlines and a rest without one |
| Archiving.KindIs | child/ack_delivery.py:352-369 | a line is blank if it is white space, carries the record it parses to, and is invalid otherwise |
| Archiving.TallyCounts | child/ack_delivery.py:342-387 | each count is the number of lines with that verdict: blank lines count nowhere, invalid lines as invalid, every other line under what `send` told |
| Archiving.CompleteIff | child/ack_delivery.py:376-387 | a pass is complete if and only if the time limit stopped it at no line, the file ends in a newline and is as it was, no line is invalid, and every `send` told acked or nacked |
| Archiving.RaisesIff | child/ack_delivery.py:299-303 | a pass raises if and only if for some line the subscribed session has another record, not a legacy one, under the line's id |
| Archiving.PassFits | child/ack_delivery.py:342-387 | with nothing invalid or pending, the lines read are settled and the listed rows are the nacked ones |
| Archiving.NackedLinesAre | child/ack_delivery.py:342-387 | the listed (line, id) pairs are exactly the nacked lines |
| Archiving.Folders.ArchiveToDestination | child/child-csv-to-mqtt.py:123-150 | an incomplete pass changes nothing; a complete one moves this file only, to a free name in the directory its nacks decide, with the sidecar written beside it |
| Archiving.ChooseTarget | child/child-csv-to-mqtt.py:92-100 | the loop ends with the first free name |
| Archiving.TargetIs | child/child-csv-to-mqtt.py:92-100 | the target is free, and is the file's name or, if that is taken, the name with a dot and a number |
| Archiving.TargetUnique | child/child-csv-to-mqtt.py:92-100 | there is only one such name |
| Delivery.AckSession.Send | child/ack_delivery.py:293-314 | what `send` does to ledger, session and publishes, and its outcome; on the session's own fields, it publishes exactly when subscribed and the record has no row, or its own pending row never tried or last tried resend_after ago or more |
| Delivery.SendsExactlyWhen | child/ack_delivery.py:293-314 | on the fields: when `send` publishes, raises, or returns at once, what it then tells, and the row it writes before it publishes |
| Delivery.WaitEnds | child/ack_delivery.py:316-329 | the wait runs round after round of callbacks and stops at the first after which the row is decided, or after the last |
| Delivery.PublishTells | child/ack_delivery.py:316-329 | a publishing call tells the row's decision at the end of the wait, and "pending" at once if the client did not take the message |
| Delivery.CallbackDecides | child/ack_delivery.py:251-291 | which callbacks change a row and to what: an unretained ACK with its id and MK_DATE, or an unretained NACK with its id while NACKs count, with that NACK's reason and time |
| Delivery.AckSession.PublishAndWait | child/ack_delivery.py:316-329 | the wait ends with the decision callbacks brought or as pending |
| Delivery.AckSession.Subscribed | child/ack_delivery.py:239-245 | only the SUBACK for the latest subscribe changes the two flags |
| Delivery.AckSession.HandleAck | child/ack_delivery.py:259-272 | an ACK decides only a pending row with the same MK_DATE |
| Delivery.AckSession.HandleNack | child/ack_delivery.py:274-291 | a NACK decides only a pending row, and only while NACKs are enabled |
| Delivery.SendKeeps | child/ack_delivery.py:293-329 | a call of `send` keeps all decisions and reports the row's own or pending |
| Delivery.DeliveryStore.MarkNacked | child/ack_delivery.py:191-204 | guarded update: only a pending row changes, other destinations do not |
| Delivery.DeliveryStore.SavePending | child/ack_delivery.py:152-163 | inserts a pending row or moves only its attempt time |
| Records.ValidIffParsed | child/child-csv-to-mqtt.py:65-89 | the records the parser can return are exactly the valid ones |
| Records.ParseLineIff | child/child-csv-to-mqtt.py:65-89 | a line parses to a record exactly when it has five fields between commas, each with white space around it: fourteen digits, three stations, and an integer with a sign and zeros if wanted; the record holds these values |
| Records.PrintThenParse | child/web_server.py:395-420 | printing a valid record as CSV and parsing it gives the record back |
| Records.EventIdInjective | child/child-csv-to-mqtt.py:77-79 | the hashed string determines all fields and the device id |
| RecordInbox.RecordInboxRepository.InsertReceived | services/bridge/src/record_inbox.py:126-139 | an existing row wins over a new one |
| RecordInbox.RecordInboxRepository.IterReceivedDue | services/bridge/src/record_inbox.py:171-183 | the due rows, each once, oldest arrival first |
| RecordInbox.RecordInboxRepository.DeleteSent | services/bridge/src/record_inbox.py:196-210 | removes sent rows only, all but the newest `keep` |
| RecordInbox.RecordInboxRepository.RingEvict | services/bridge/src/record_inbox.py:212-232 | removes exactly the excess, first in the order (status, arrival) |
| RecordInbox.UndecidedEvicted | services/bridge/src/record_inbox.py:212-232 | undecided rows go last, exactly as many as exceed the bound |
| RecordInbox.NewestKept | services/bridge/src/record_inbox.py:196-210 | on the rows: `delete_sent` may remove exactly the sets of sent rows that leave the newest `keep`, by sent time, or arrival where that is missing |
| RecordInbox.RingVictimsAre | services/bridge/src/record_inbox.py:212-232 | on the rows: `ring_evict` may remove exactly the sets of the excess size in which sent rows go before failed, failed before undecided, and within a status earlier arrivals first |
| RecordInbox.DueInOrder | services/bridge/src/record_inbox.py:171-183 | on the rows: a scan lists exactly the undecided rows whose retry time, if any, has come, each once, in order of arrival |
| RecordSending.RecordSender.Receive | services/bridge/src/record_sender.py:60-102 | new records are stored; failed and sent ones are answered again only with the same content |
| RecordSending.FirstIsStored | services/bridge/src/record_sender.py:60-75 | a record that comes for the first time is stored as received and not answered |
| RecordSending.OthersAreIgnored | services/bridge/src/record_sender.py:76-113 | one that differs from the stored record in any field, or whose row is undecided, changes nothing and is not answered |
| RecordSending.AnswerIsRepeated | services/bridge/src/record_sender.py:76-102 | after a decision the record coming again brings the same ACK or NACK again, reason and time included |
| RecordSending.RecordSender.SendOne | services/bridge/src/record_sender.py:115-188 | state after MERGE, durable write and reply, for every fault |
| RecordSending.CommitAcks | services/bridge/src/record_sender.py:115-147 | with the key free or its own row there, the row is marked sent, acked, and the breaker closed |
| RecordSending.ConflictNacks | services/bridge/src/record_sender.py:148-160 | with another row under the key and ORA-00001 listed, the row is marked failed and nacked with the reason it stores |
| RecordSending.FailureWaits | services/bridge/src/record_sender.py:169-180 | after any other failure the row waits with one more attempt counted, nothing is answered, and the breaker trips exactly on a permanent code |
| RecordSending.RecordSender.RunOnce | services/bridge/src/record_sender.py:48-58 | nothing off-profile, only the breaker's look while it is open, else every due row in order |
| RecordSending.ScanInOrder | services/bridge/src/record_sender.py:48-58 | a scan takes exactly the undecided due rows, in order of arrival |
| Oracle.OracleTable.ExecuteMerge | services/bridge/src/oracle_client.py:121-145 | what the statement and commit do to the table and report |
| Oracle.KeyIsFourColumns | services/bridge/src/oracle_client.py:49-82 | two records have one key exactly when MK_DATE and the three stations agree |
| Oracle.MergeMeaning | services/bridge/src/oracle_client.py:49-82 | success means the row is stored, giving up means another row has its key, no row is lost |
| Oracle.MergeIsIdempotent | services/bridge/src/oracle_client.py:70-81 | after any first attempt a clean retry inserts nothing twice and succeeds exactly when no other row has the key |
| Eviction.RingEvict | services/bridge/src/inbox.py:172-194 | the status-by-status loop removes exactly max(0, count - max_rows) rows, oldest first by (status, time) |
| Eviction.OldestFirstIsPrefix | services/detector/src/buffer.py:130-156 | such a set is exactly what a prefix of one sort of the whole table is |
| Eviction.OldestFirstUnique | services/detector/src/buffer.py:130-156 | without ties there is only one such set |
| Breaker.CircuitBreaker.StateFor | services/bridge/src/circuit_breaker.py:28-33 | half-opens only this profile, only when open for long enough |
| Breaker.EventRunOnce | services/bridge/src/sender.py:65-88 | the event sender's run seen from the breaker, with the MERGEs it issues |
| Breaker.QuietPeriod | services/bridge/src/circuit_breaker.py:28-47 | after a run of either sender ends in a permanent failure at t, no run of that profile before t + half_open_after issues a MERGE, over any interleaving of runs and profiles with non-decreasing times |
| RecordSending.ScanIsBreakerRun | services/bridge/src/record_sender.py:48-58 | to the breaker a scan of the record sender is such a run: it changes the breaker as the run does, and when the run issues no MERGE nothing else changes |
| Breaker.QuietPeriodEnds | services/bridge/src/circuit_breaker.py:28-33 | over any runs, the first run of the profile at or after its end issues its MERGEs, and none before does |
| Breaker.KeptBackIff | services/bridge/src/circuit_breaker.py:28-47 | for any clock: a run with something due issues no MERGE if and only if it comes within the quiet period of an earlier run that tripped the breaker, with no run of the profile past that period in between |
| Breaker.QuietPeriodIff | services/bridge/src/circuit_breaker.py:28-47 | for any clock: a run within the quiet period of run i is held back if and only if no run in between was past that period, or a later trip holds it |
| Breaker.ClockSetBackBreaksQuiet | services/bridge/src/circuit_breaker.py:28-33 | a history where a clock set back lets MERGEs out early |
| RetryClock.IsoTextOrder | services/bridge/src/record_inbox.py:171-183 | comparing UTC `isoformat` texts is comparing instants, dropped zero fractions included |
| RetryClock.FromDayNumber | services/bridge/src/record_sender.py:170-179 | the calendar date shown for a day is the one with that ordinal |
| RetryClock.LeapsInClosedForm | services/bridge/src/record_sender.py:170-179 | the ordinal's leap days are y/4 - y/100 + y/400 |
| RetryClock.MonthStarts | services/bridge/src/record_sender.py:170-179 | the day of the year a month starts on, in closed form |
| RetryClock.StampIsInstant | services/bridge/src/record_sender.py:170-179 | day number, hour, minute, second and microsecond shown for an instant make up the instant |
| RetryClock.IsoTextReads | services/bridge/src/record_sender.py:170-179 | where each field stands in the text, with the fraction only if it is not zero |
| RetryClock.DelaysGrowToCap | services/bridge/src/retry.py:12-17 | with multiplier at least 1 delays never shrink and never pass the cap |
| RetryClock.NextRetryIs | services/bridge/src/retry.py:12-17 | for any list that starts with the initial delay and multiplies by the multiplier, attempt n waits the smaller of its n-th entry and the cap, to the nearest microsecond, ties to even; no attempt below 1 is accepted |
| RetryClock.RetryTimeSplitsScans | services/bridge/src/retry.py:12-17 | the comparison of the stored texts is true exactly from the retry time on |
| Retries.RetryTimeHolds | services/bridge/src/record_sender.py:170-179 | after a failed attempt, over any run with no scan at or after the retry time and no eviction of the row, the row stays as marked, and the next scan takes it if and only if the retry time has come |
| Presence.PresenceFSM.Observe | services/detector/src/fsm.py:44-82 | new state and emitted transition |
| Presence.EmitsExactlyWhen | services/detector/src/fsm.py:44-82 | an observation emits exactly when it disagrees with the presence in force and the maximal block of disagreeing observations began earlier and has lasted, in nanoseconds, enter_seconds for an ENTER and exit_seconds for an EXIT, up to the fraction that int() drops |
| Presence.StateIsLatestEvent | services/detector/src/fsm.py:44-99 | the state is that of the latest event, absent before the first |
| Presence.EventReportsBlock | services/detector/src/fsm.py:44-82 | the whole transition: from the presence in force to the observed one, its type, time, score and the block's length in milliseconds |
| Presence.EventsAlternate | services/detector/src/fsm.py:44-99 | events alternate, starting with ENTER |
| Presence.EventsAreSpaced | services/detector/src/fsm.py:44-99 | an ENTER of `observe` comes at least enter_seconds, an EXIT at least exit_seconds after any earlier event |
| Presence.ForceEmitsWhen | services/detector/src/fsm.py:84-99 | `force_exit` emits exactly while present, with its own time and reason and the latest observed score |
| Liveness.LivenessTracker.Feed | services/bridge/src/liveness.py:48-59 | after a list of messages every device's entry is the latest of each kind |
| Liveness.LivenessTracker.StateOf | services/bridge/src/liveness.py:61-80 | the state computed from one entry |
| Liveness.ChildRollup | desktop/presence-tools/pipeline_monitor/rollup.py:39-82 | one state for every device that sent anything, from the maxima over the list |
| Liveness.TrackerSays | services/bridge/src/liveness.py:61-80 | the tracker's state from the messages: offline if the latest status is not "online" and no heartbeat is later, else online, stale or unknown by heartbeats and a latest "online" |
| Liveness.RollupSays | desktop/presence-tools/pipeline_monitor/rollup.py:26-73 | the roll-up's state from the messages in any order: offline if an "offline" stands, else online, stale or unknown by heartbeats and "online"s |
| Liveness.NamelessIgnored | services/bridge/src/liveness.py:48-59 | messages without a device id change nothing |
| Liveness.IncrementalEqualsBatch | services/bridge/src/liveness.py:61-80 | with strictly increasing times both give the same state at every moment |
| Liveness.AgreeIff | desktop/presence-tools/pipeline_monitor/rollup.py:26-73 | for any payloads, with non-decreasing times: they differ if and only if no heartbeat is later than the latest status, and that status is "online" while an "offline" that nothing is later than stands, or is any other payload while none stands |
| Liveness.SummariesAgreeIff | desktop/presence-tools/pipeline_monitor/rollup.py:26-36 | the same condition on the tracker's entry and the roll-up's accumulators |
| Liveness.PlainSplitsIff | desktop/presence-tools/pipeline_monitor/rollup.py:26-36 | with the payloads "online" and "offline" only, this happens exactly in a tie: the latest status is "online", an "offline" has the same time, no heartbeat is later |
| Liveness.OtherPayloadSplits | desktop/presence-tools/pipeline_monitor/rollup.py:66-73 | a device whose one status is another payload is offline to the tracker and unknown to the roll-up; after an "offline" both say offline |
| Liveness.TieSplits | desktop/presence-tools/pipeline_monitor/rollup.py:26-36 | an "offline" and then an "online" at one time: online to the tracker, offline to the roll-up |
| Fleet.Classify | fleet_ui/discovery.py:130-190 | the loops compute the row of each entry and then the unclaimed devices |
| Fleet.MacDecides | fleet_ui/discovery.py:130-190 | for a trusted entry the MAC alone decides, at whatever address |
| Fleet.AddressDecides | fleet_ui/discovery.py:130-190 | for an entry without a trusted MAC the device at its address decides; without an address or a device there it is unresolved |
| Fleet.LeftoverKinds | fleet_ui/discovery.py:180-188 | the rows without an entry are listed devices, all new if every entry's row is known and all unverified if one is unresolved |
| Fleet.TrustHolds | fleet_ui/server.py:152-156 | over any rounds a learned MAC is never offered as new or unverified and no other device is shown as its entry |
| Fleet.BindingsNeverChange | fleet_ui/discovery.py:193-205 | a binding on file never changes |
| Fleet.NothingNewWhileUnresolved | fleet_ui/discovery.py:180-188 | while an entry is unresolved no device is new |
| Fleet.ClaimedOrListedOnce | fleet_ui/discovery.py:130-190 | every device is claimed by a row or listed exactly once, not both |
| Fleet.LearnsByAddress | fleet_ui/discovery.py:193-205 | an entry without a MAC learns exactly the one at its address |
| Fleet.FirstUseBinds | fleet_ui/server.py:152-156 | from the next round on the entry is bound to that MAC |
| Fleet.SharedBinding | fleet_ui/discovery.py:130-156 | two entries learned in one round share a MAC exactly when they share the address |
| Fleet.BothLearnOneMac | fleet_ui/discovery.py:193-205 | one device at the address of two new entries binds its MAC to both |
| Keyfile.PskRoundTrip | fleet_ui/migrate.py:230-249 | a PSK that passes the check is read back unchanged if and only if it has no newline (escapes of the "Possible value types" section of the freedesktop.org Desktop Entry Specification) |
| Keyfile.PskPasses | fleet_ui/migrate.py:230-238 | which PSKs pass: 64 hexadecimal digits or 8 to 63 printable characters, each with at most one final newline |
| Keyfile.SsidRoundTrip | fleet_ui/migrate.py:252-261 | an SSID of 1 to 32 bytes without NUL is read back unchanged if and only if it is not a string-form text with a newline added |
| Keyfile.SsidForm | fleet_ui/migrate.py:252-261 | which SSIDs are refused, and which of the others are written as text and which as bytes |
| Keyfile.EscapesRead | scripts/tests/nm_readback.py:83-97 | the reader turns each of the five escapes of the Desktop Entry Specification back into its character |
| Keyfile.OtherEscapesFail | scripts/tests/nm_readback.py:83-97 | any other escape, and a lone backslash at the end, is an error |
| Keyfile.BlanksSkipped | scripts/tests/nm_readback.py:83-97 | the reader drops the blanks in front of a value, all of them and nothing else |
| Keyfile.ByteFormIs | scripts/tests/nm_readback.py:106-110 | the byte form is one or more numbers of one to three digits, each with a semicolon |
| Keyfile.BytesAre | scripts/tests/nm_readback.py:106-110 | such a list is read as those bytes if every number is below 256, and refused otherwise |
| Keyfile.SsidSurvives | scripts/tests/nm_readback.py:106-110 | every such SSID without a newline is read back unchanged |
| Keyfile.PlainStays | fleet_ui/migrate.py:241-261 | printable text that needs no escape is written as it is |
| Keyfile.StringFormNeverBytes | scripts/tests/nm_readback.py:106-110 | no string-form SSID is taken for a list of bytes |
| Cursor.LineSender.PublishLines | child/web_server.py:451-526 | what a round publishes and saves, and what it reports, for every point of failure |
| Cursor.LineSender.CountPending | child/web_server.py:437-448 | the sum of the pending lines of all files |
| Cursor.NoLineLost | child/web_server.py:451-526 | over any run in which files grow, appear and go, and no remembered name is taken again: no cursor passes its file's complete lines and every valid line below it was published |
| Cursor.NoLineLostIff | child/web_server.py:451-526 | over any run whatever: that holds throughout if and only if no change leaves a file shorter than its cursor, or a valid, never published line below a cursor at a place where it was not before |
| Cursor.PublishedIff | child/web_server.py:451-526 | in any state, stale cursors included, after a round without a fault a record has been published if and only if it had been before or a complete line at or above its file's cursor carries it |
| Cursor.PublishedInOrder | child/web_server.py:451-526 | for every point of failure a round publishes the waiting records in order up to the first that is not confirmed, which may have gone out too; without a broker none |
| Cursor.GoneNamesStartOver | child/web_server.py:372-381 | what a round that moved a cursor writes to the cursor file: the cursors of the files still there; a name that has gone starts over |
| Cursor.RewrittenLineSkipped | child/web_server.py:451-526 | a log rewritten after it was sent keeps its cursor, and no later round sends its new line |
| Cursor.CursorPlusPending | child/web_server.py:437-448 | over such a run from an empty device cursor and pending lines make up the complete lines, per file and in total |
| Cursor.CleanRound | child/web_server.py:451-526 | a round without a fault publishes the records above the cursors once, in order, and leaves nothing pending of what it read |
| Cursor.LineSender.CsvLineToRecord | child/web_server.py:395-420 | on every line and device id the web server's parser gives what the watcher's gives |
| Archiving.LinesStay | child/web_server.py:423-434 | appended text, even behind half a line, leaves the complete lines in place |

## Left out

- Event delivery (`services/bridge/src/sender.py`, `services/detector/src/main.py`): only its use of the breaker and its evictions; it takes "no code" for success, never answers a duplicate again, and its MK_DATE can change between attempts, so the delivery theorems do not hold for it.
- A bridge configured without an ack or nack topic, which answers nothing.
- A commit time in ACKs: the bridge sends `committed_at_iso`, the child reads `committed_at`.
- `mark_legacy` and the schema migrations: legacy rows appear only in initial states.
- MQTT, SQLite, Oracle, JDBC and HTTP themselves; `/cleanup_range`, because the table only grows; Oracle's reading of an empty string as NULL.
- Unicode digits and underscores that Python's `int` and `\d` accept; the parsers take ASCII decimals.
- A retry delay computed in floating point: delays are real numbers, so the overflow of a huge power (`3.0 ** 647`) does not occur.
- Record fields that carry no decision (`schema_version`, raw payloads), log output, counters kept for display, roll-up columns other than the state.
- SQL statements of one eviction running between messages of the MQTT thread: an eviction is one step.
- GLib's trimming of a carriage return at the end of a line, which no value written here has.
- Configuration, logging, disk space, camera, display, Wi-Fi and IP settings, SSH provisioning.
