# Dosage reminders and family-request notifications

A Dafny model of the two notification handlers of the Medicoo Cloud Functions backend:

- **The scheduled dosage-reminder sweep** (`checkDosageRemindersHandler`). At time `now` it
  selects the prescriptions that are active and whose `nextReminderTime` lies in the closed window
  `[now, now + 15 min]`, skips any record whose `userId` or `medicationName` is missing or empty,
  and for every other record sends one `DOSAGE_REMINDER` notification and writes one update:
  the next reminder time one day later for a `"daily"` record with a reminder time
  (`calculateNextReminder`), `isActive := false` for every other record.
- **The family-request handler** (`onFamilyRequestCreateHandler`). For a newly created request
  it notifies the recipient, naming the sender or "Someone".

Both are pure functions here. The store is a `seq<Prescription>`. The collection-group query
is the filter `DueSet`. The `forEach` loop is `Process`, and the method `CheckDosageReminders`
writes it as a loop. Sent notifications and written updates are the returned sequences, and
`ApplyUpdates` writes the updates back into the store. Timestamps are integer milliseconds.
Optional document fields are `Option` values. JavaScript truthiness of a string field means
present and non-empty (`Text.Truthy`).

Files:
- `wrappers.dfy`: `Option`.
- `text.dfy`: truthiness, the `||` default, and `Unwrap`, the inverse of a message template.
- `notifications.dfy`: the notification payload.
- `dosage_reminders.dfy`: records, the due window, the guard, the payload, the recurrence step, updates, the sweep.
- `dosage_properties.dfy`: exactly-once, completeness, the store after a sweep, a repeated sweep.
- `family_requests.dfy`: the family-request handler.

The code keeps no marker of the last processed reminder and has no recurrence kind beyond
`"daily"`. The guarantee it does give is that the updates written by a sweep move every notified
record out of the window. So a second sweep at the same instant, or at any instant less than a
day minus the window later, does not notify those records again
(`DosageProperties.SweepAdvancesStore`, `DosageProperties.SecondSweepSilent`).

Firestore returns the due records ordered by `nextReminderTime`, then by document name, because
the query puts range filters on that field. The model keeps store order, and no property depends
on the order.

## Model

| member | source | states |
|---|---|---|
| DosageReminders.DueSet | functions/scheduled_dosage_reminders.js:12-34 | a record is in the due set iff `isActive` is `true` and `now <= nextReminderTime <= now + 900000`; the due set is never longer than the store |
| DosageProperties.DueSetMultiplicity | functions/scheduled_dosage_reminders.js:28-34 | the query returns each due record exactly as often as the store holds it, and no other record |
| DosageReminders.ReminderFor | functions/scheduled_dosage_reminders.js:55-63 | the reminder goes to the record's user, has title "Medication Reminder" and type `DOSAGE_REMINDER`, refers to the document id in collection `prescriptions`, opens screen `/prescriptionDetail` with the document id, and its body is the template from which the medication name is read back unchanged |
| DosageReminders.NextReminder | functions/scheduled_dosage_reminders.js:89-107 | a next time exists iff the record has a reminder time and frequency `"daily"`; it is strictly later than the current one, by exactly 86400000 ms; otherwise the result is null |
| DosageReminders.UpdateFor | functions/scheduled_dosage_reminders.js:66-73 | the update targets the record's own document and sets the next reminder time exactly when the recurrence step returned one, deactivating otherwise |
| DosageReminders.ApplyChange | functions/scheduled_dosage_reminders.js:69-71 | writing an update changes only the field it names, either `nextReminderTime` or `isActive := false`, never both; identity, user, medication and frequency stay as they were |
| DosageReminders.Process | functions/scheduled_dosage_reminders.js:42-74 | the loop emits as many notifications as updates, never more than the records it visits; when no visited record has both a user and a medication name it emits nothing |
| DosageReminders.Sweep | functions/scheduled_dosage_reminders.js:9-82 | a sweep emits as many notifications as updates, at most one of each per stored record; an empty due set yields no notification and no update |
| DosageReminders.CheckDosageReminders | functions/scheduled_dosage_reminders.js:28-76 | the handler's loop, with its early return on an empty query result and its skip of incomplete records, produces exactly the sweep's notifications and updates, equally many of each |
| DosageProperties.SweepSound | functions/scheduled_dosage_reminders.js:42-73 | each notification of a sweep, and the update at the same position, belong to one stored record that is due and has both a user and a medication name |
| DosageProperties.SweepCounts | functions/scheduled_dosage_reminders.js:42-73 | the number of updates written to a document equals the number of due, complete records carrying that document reference |
| DosageProperties.SweepExactlyOnce | functions/scheduled_dosage_reminders.js:46-73 | with distinct document references, a due complete record gets exactly one update and an incomplete or not-due record none; the notification and update at that position are the record's own |
| DosageProperties.SweepReachesReminded | functions/scheduled_dosage_reminders.js:42-73 | every due record with a user and a medication name is notified and updated at some position of the output |
| DosageProperties.SweepSilentIff | functions/scheduled_dosage_reminders.js:31-49 | a sweep sends and writes nothing iff no record of the store is both due and complete |
| DosageProperties.SweepAdvancesStore | functions/scheduled_dosage_reminders.js:66-73 | after the updates are written, each notified record carries exactly its own update and is not due in any sweep starting less than a day minus the window later; every other record is unchanged |
| DosageProperties.SecondSweepSilent | functions/scheduled_dosage_reminders.js:16-73 | a second sweep at the same instant over the store the first sweep wrote sends no notification and writes no update |
| FamilyRequests.OnFamilyRequestCreate | functions/family_request_notifications.js:3-34 | a notification exists iff the request data is present and `recipientId` is truthy; it goes to the recipient, the sender name is read back from the body as the truthy `senderName` or else "Someone", and it carries the `FAMILY_REQUEST_RECEIVED` type and links to the request in `familyRequests` |

## Left out

- Firestore I/O: the query engine, `doc.ref.update` persistence and `Timestamp` objects. The query is a filter over a sequence. Updates are returned values, applied in list order by `ApplyUpdates`. Timestamps are integer milliseconds.
- Timestamp precision and range: sub-millisecond parts of `Timestamp.now()` are not modelled, nor the truncation of the stored `nextReminderTime` to whole milliseconds by `toMillis()` before a day is added (functions/scheduled_dosage_reminders.js:97); the model's `t + DayMillis` is exact on integer milliseconds. The year 1 to 9999 range, outside which `Timestamp.fromMillis` throws, is not modelled either.
- `sendNotification` (from `functions/notifications.js`, which is not part of this model): the transport is replaced by appending the payload to the output.
- Result order: Firestore visits the due records in ascending `nextReminderTime`, then document name; the model visits them in store order. No stated property depends on the order.
- `Promise.all` and asynchronous ordering: each record's work is independent, so the model handles records one after another in store order.
- The catch-all at functions/scheduled_dosage_reminders.js:77-79 and all console logging: both are I/O behaviour. A failing send or update is not modelled.
- Field types: `userId`, `medicationName`, `frequency`, `recipientId` and `senderName` are modelled as optional strings. Truthiness of non-string values (numbers, booleans) is not modelled.
- The commented-out `onFamilyRequestUpdate` (functions/family_request_notifications.js:36-59): not live code.
- `functions/index.js`: trigger wiring only.
- DosageProperties.SweepExactlyOnce: requires distinct document references in the store, which Firestore guarantees for one query result. Document ids alone may repeat across subcollections, so the per-record claims are stated on references.
