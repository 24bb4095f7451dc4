/** The scheduled dosage-reminder sweep: select the active prescriptions whose next reminder
    falls in the coming fifteen minutes, skip records missing their user or medication, and for
    each remaining record send one reminder and write one update, either the next reminder time
    or deactivation. Firestore becomes a sequence of records, `sendNotification` becomes the
    returned notification list, and `doc.ref.update` becomes the returned update list. */
module DosageReminders {
  import opened Wrappers
  import opened Text
  import opened Notifications

  /** Length of the look-ahead window: 15 minutes in milliseconds. */
  const ReminderWindowMillis: int := 15 * 60 * 1000

  /** Step of the daily recurrence: 24 hours in milliseconds. */
  const DayMillis: int := 24 * 60 * 60 * 1000

  const DailyFrequency := "daily"
  const ReminderTitle := "Medication Reminder"
  const ReminderBodyPrefix := "It's time to take your "
  const ReminderBodySuffix := "."
  const DosageReminderType := "DOSAGE_REMINDER"
  const PrescriptionsCollection := "prescriptions"
  const PrescriptionDetailScreen := "/prescriptionDetail"

  /** A prescription document. `path` is the document reference the update is written to;
      `id` is the last path segment, which need not be unique across a collection group.
      Timestamps are milliseconds since the epoch. */
  datatype Prescription = Prescription(
    path: string,
    id: string,
    userId: Option<string>,
    medicationName: Option<string>,
    isActive: Option<bool>,
    nextReminderTime: Option<int>,
    frequency: Option<string>)

  /** The query's filter: active, with a reminder in the closed window [now, now + 15 min]. */
  predicate IsDue(now: int, p: Prescription) {
    && p.isActive == Some(true)
    && p.nextReminderTime.Some?
    && now <= p.nextReminderTime.value <= now + ReminderWindowMillis
  }

  /** The per-record guard: both the user and the medication name are truthy. */
  predicate HasRequiredFields(p: Prescription) {
    Truthy(p.userId) && Truthy(p.medicationName)
  }

  /** A record that the sweep at `now` notifies and updates. */
  predicate IsReminded(now: int, p: Prescription) {
    IsDue(now, p) && HasRequiredFields(p)
  }

  /** The collection-group query: the due records, in store order, each as often as it occurs. */
  function DueSet(now: int, store: seq<Prescription>): (due: seq<Prescription>)
    ensures forall p :: p in due <==> p in store && IsDue(now, p)
    ensures |due| <= |store|
  {
    if |store| == 0 then []
    else
      var init, last := store[..|store| - 1], store[|store| - 1];
      assert store == init + [last];
      var due := DueSet(now, init);
      if IsDue(now, last) then due + [last] else due
  }

  /** The reminder body names the medication; `MedicationInBody` reads it back. */
  function ReminderBody(medication: string): string {
    ReminderBodyPrefix + medication + ReminderBodySuffix
  }

  function MedicationInBody(body: string): Option<string> {
    Unwrap(body, ReminderBodyPrefix, ReminderBodySuffix)
  }

  /** The payload sent for a record that passed the guard. */
  function ReminderFor(p: Prescription): (n: Notification)
    requires HasRequiredFields(p)
    ensures n.userId == p.userId.value && n.userId != ""
    ensures MedicationInBody(n.body) == Some(p.medicationName.value)
    ensures n.kind == DosageReminderType && n.title == ReminderTitle
    ensures n.relatedDocId == p.id && n.relatedCollection == PrescriptionsCollection
    ensures n.data == ScreenLink(PrescriptionDetailScreen, p.id)
  {
    UnwrapWrap(ReminderBodyPrefix, p.medicationName.value, ReminderBodySuffix);
    Notification(
      p.userId.value,
      ReminderTitle,
      ReminderBody(p.medicationName.value),
      DosageReminderType,
      p.id,
      PrescriptionsCollection,
      ScreenLink(PrescriptionDetailScreen, p.id))
  }

  /** The recurrence step: a daily record with a reminder time moves one day ahead;
      every other record has no next reminder. */
  function NextReminder(p: Prescription): (next: Option<int>)
    ensures next.Some? <==> p.nextReminderTime.Some? && p.frequency == Some(DailyFrequency)
    ensures next.Some? ==> next.value > p.nextReminderTime.value
    ensures next.Some? ==> next.value - p.nextReminderTime.value == DayMillis
  {
    if p.nextReminderTime.Some? && p.frequency == Some(DailyFrequency) then
      Some(p.nextReminderTime.value + DayMillis)
    else
      None
  }

  /** The one field an update writes. */
  datatype Change = SetNextReminderTime(at: int) | Deactivate

  /** An update of the document at `path`. */
  datatype Update = Update(path: string, change: Change)

  /** Writing a change touches exactly the field it names. */
  function ApplyChange(p: Prescription, c: Change): (q: Prescription)
    ensures q.path == p.path && q.id == p.id
    ensures q.userId == p.userId && q.medicationName == p.medicationName
    ensures q.frequency == p.frequency
    ensures c.SetNextReminderTime? ==> q.nextReminderTime == Some(c.at) && q.isActive == p.isActive
    ensures c.Deactivate? ==> q.isActive == Some(false) && q.nextReminderTime == p.nextReminderTime
  {
    match c
    case SetNextReminderTime(t) => p.(nextReminderTime := Some(t))
    case Deactivate => p.(isActive := Some(false))
  }

  /** The update written for a reminded record: the next time when there is one,
      deactivation otherwise. */
  function UpdateFor(p: Prescription): (u: Update)
    ensures u.path == p.path
    ensures u.change.SetNextReminderTime? <==> NextReminder(p).Some?
    ensures u.change.SetNextReminderTime? ==> u.change.at == p.nextReminderTime.value + DayMillis
  {
    match NextReminder(p)
    case Some(t) => Update(p.path, SetNextReminderTime(t))
    case None => Update(p.path, Deactivate)
  }

  /** What one sweep sends and writes, in the order the records were visited. */
  datatype SweepResult = SweepResult(notifications: seq<Notification>, updates: seq<Update>)

  /** The loop over the query results: a record failing the guard contributes nothing, any
      other record one notification and one update, at the same position in both lists. */
  function Process(docs: seq<Prescription>): (r: SweepResult)
    ensures |r.notifications| == |r.updates| <= |docs|
    ensures (forall d :: d in docs ==> !HasRequiredFields(d)) ==> r == SweepResult([], [])
  {
    if |docs| == 0 then SweepResult([], [])
    else
      var init, last := docs[..|docs| - 1], docs[|docs| - 1];
      assert docs == init + [last];
      var r := Process(init);
      if !HasRequiredFields(last) then r
      else SweepResult(r.notifications + [ReminderFor(last)], r.updates + [UpdateFor(last)])
  }

  /** Visiting one more record appends its reminder and update when it is complete. */
  lemma ProcessSnoc(docs: seq<Prescription>, doc: Prescription)
    ensures Process(docs + [doc]) ==
      if HasRequiredFields(doc) then
        SweepResult(Process(docs).notifications + [ReminderFor(doc)], Process(docs).updates + [UpdateFor(doc)])
      else Process(docs)
  {
  }

  /** One invocation of the scheduled handler at time `now`. */
  function Sweep(now: int, store: seq<Prescription>): (r: SweepResult)
    ensures |r.notifications| == |r.updates| <= |store|
    ensures DueSet(now, store) == [] ==> r == SweepResult([], [])
  {
    Process(DueSet(now, store))
  }

  /** The handler as the source writes it: query, return early on an empty result, then visit
      the results in order, skipping incomplete records and pushing a notification and an update
      for every other one. */
  method CheckDosageReminders(now: int, store: seq<Prescription>)
    returns (notifications: seq<Notification>, updates: seq<Update>)
    ensures SweepResult(notifications, updates) == Sweep(now, store)
    ensures |notifications| == |updates|
  {
    var due := DueSet(now, store);
    if |due| == 0 {
      return [], [];
    }
    notifications, updates := [], [];
    var i := 0;
    while i < |due|
      invariant 0 <= i <= |due|
      invariant SweepResult(notifications, updates) == Process(due[..i])
    {
      var doc := due[i];
      assert due[..i + 1] == due[..i] + [doc];
      ProcessSnoc(due[..i], doc);
      if !HasRequiredFields(doc) {
        i := i + 1;
        continue;
      }
      notifications := notifications + [ReminderFor(doc)];
      updates := updates + [UpdateFor(doc)];
      i := i + 1;
    }
    assert due[..|due|] == due;
  }
}
