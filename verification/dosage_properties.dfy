/** Properties of the dosage-reminder sweep that relate several calls or the whole store:
    every reminded record is notified and updated exactly once, every other record is left
    alone, and the written updates move each reminded record out of the window, so a second
    sweep at the same instant sends nothing. */
module DosageProperties {
  import opened Wrappers
  import opened Notifications
  import opened DosageReminders

  /** Distinct documents have distinct references: a query never returns one document twice. */
  predicate UniquePaths(store: seq<Prescription>) {
    forall i, j :: 0 <= i < j < |store| ==> store[i].path != store[j].path
  }

  /** How many of the updates write the document at `path`. */
  function CountPath(updates: seq<Update>, path: string): nat {
    if |updates| == 0 then 0
    else
      CountPath(updates[..|updates| - 1], path) + if updates[|updates| - 1].path == path then 1 else 0
  }

  /** How many records of the store at `path` the sweep at `now` reminds. */
  function CountReminded(now: int, store: seq<Prescription>, path: string): nat {
    if |store| == 0 then 0
    else
      var last := store[|store| - 1];
      CountReminded(now, store[..|store| - 1], path) + if last.path == path && IsReminded(now, last) then 1 else 0
  }

  /** The updates apply to one record in the order they were issued. */
  function ApplyAll(p: Prescription, updates: seq<Update>): (q: Prescription)
    ensures q.path == p.path
  {
    if |updates| == 0 then p
    else
      var q := ApplyAll(p, updates[..|updates| - 1]);
      var u := updates[|updates| - 1];
      if u.path == q.path then ApplyChange(q, u.change) else q
  }

  /** The store once every update has been written to its document. */
  function ApplyUpdates(store: seq<Prescription>, updates: seq<Update>): seq<Prescription> {
    seq(|store|, i requires 0 <= i < |store| => ApplyAll(store[i], updates))
  }

  lemma UniquePathsInit(store: seq<Prescription>)
    requires |store| > 0 && UniquePaths(store)
    ensures UniquePaths(store[..|store| - 1])
    ensures forall p :: p in store[..|store| - 1] ==> p.path != store[|store| - 1].path
  {
  }

  lemma CountAppend(updates: seq<Update>, u: Update, path: string)
    ensures CountPath(updates + [u], path) == CountPath(updates, path) + if u.path == path then 1 else 0
  {
  }

  /** The query returns each due record as often as the store holds it, and no other record. */
  lemma {:induction false} DueSetMultiplicity(now: int, store: seq<Prescription>, p: Prescription)
    ensures multiset(DueSet(now, store))[p] == if IsDue(now, p) then multiset(store)[p] else 0
  {
    if |store| > 0 {
      var init, last := store[..|store| - 1], store[|store| - 1];
      assert store == init + [last];
      DueSetMultiplicity(now, init, p);
    }
  }

  /** Extending the store by one record extends the sweep's output by that record's reminder
      and update when it is due and complete, and leaves it as it was otherwise. */
  lemma SweepSnoc(now: int, init: seq<Prescription>, last: Prescription)
    ensures Sweep(now, init + [last]) ==
      if IsReminded(now, last) then
        SweepResult(Sweep(now, init).notifications + [ReminderFor(last)], Sweep(now, init).updates + [UpdateFor(last)])
      else Sweep(now, init)
  {
  }

  /** The number of updates a sweep writes to a document equals the number of reminded
      records carrying that document's reference. */
  lemma {:induction false} SweepCounts(now: int, store: seq<Prescription>, path: string)
    ensures CountPath(Sweep(now, store).updates, path) == CountReminded(now, store, path)
  {
    if |store| > 0 {
      var init, last := store[..|store| - 1], store[|store| - 1];
      assert store == init + [last];
      SweepCounts(now, init, path);
      SweepSnoc(now, init, last);
      if IsReminded(now, last) {
        CountAppend(Sweep(now, init).updates, UpdateFor(last), path);
      }
    }
  }

  /** Under unique references, a record is counted once if it is reminded and not at all
      otherwise. */
  lemma {:induction false} CountRemindedUnique(now: int, store: seq<Prescription>, p: Prescription)
    requires UniquePaths(store) && p in store
    ensures CountReminded(now, store, p.path) == if IsReminded(now, p) then 1 else 0
  {
    var init, last := store[..|store| - 1], store[|store| - 1];
    assert store == init + [last];
    UniquePathsInit(store);
    if last == p {
      CountRemindedAbsent(now, init, p.path);
    } else {
      assert p in init;
      CountRemindedUnique(now, init, p);
    }
  }

  lemma {:induction false} CountRemindedAbsent(now: int, store: seq<Prescription>, path: string)
    requires forall p :: p in store ==> p.path != path
    ensures CountReminded(now, store, path) == 0
  {
    if |store| > 0 {
      var init := store[..|store| - 1];
      assert forall p :: p in init ==> p in store;
      CountRemindedAbsent(now, init, path);
    }
  }

  lemma SamePathSameRecord(store: seq<Prescription>, p: Prescription, q: Prescription)
    requires UniquePaths(store) && p in store && q in store && p.path == q.path
    ensures p == q
  {
  }

  /** Soundness: every notification and update of a sweep is the reminder and the update of
      one record of the store that is due and complete, the same record for both. */
  lemma {:induction false} SweepSound(now: int, store: seq<Prescription>, i: int)
    requires 0 <= i < |Sweep(now, store).updates|
    ensures exists p ::
              && p in store
              && IsReminded(now, p)
              && Sweep(now, store).notifications[i] == ReminderFor(p)
              && Sweep(now, store).updates[i] == UpdateFor(p)
  {
    var init, last := store[..|store| - 1], store[|store| - 1];
    assert store == init + [last];
    SweepSnoc(now, init, last);
    var r0 := Sweep(now, init);
    if i < |r0.updates| {
      SweepSound(now, init, i);
      var p :| p in init && IsReminded(now, p) && r0.notifications[i] == ReminderFor(p) && r0.updates[i] == UpdateFor(p);
      assert p in store;
    } else {
      assert last in store;
    }
  }

  /** Exactly once: a record of the store gets one update, and the notification beside it, if
      it is due and complete, and none otherwise; and whatever is written to its reference is
      its own reminder and its own update. */
  lemma SweepExactlyOnce(now: int, store: seq<Prescription>, p: Prescription)
    requires UniquePaths(store) && p in store
    ensures CountPath(Sweep(now, store).updates, p.path) == if IsReminded(now, p) then 1 else 0
    ensures forall i :: 0 <= i < |Sweep(now, store).updates| && Sweep(now, store).updates[i].path == p.path ==>
      && HasRequiredFields(p)
      && Sweep(now, store).notifications[i] == ReminderFor(p)
      && Sweep(now, store).updates[i] == UpdateFor(p)
  {
    SweepCounts(now, store, p.path);
    CountRemindedUnique(now, store, p);
    var r := Sweep(now, store);
    forall i | 0 <= i < |r.updates| && r.updates[i].path == p.path
      ensures HasRequiredFields(p) && r.notifications[i] == ReminderFor(p) && r.updates[i] == UpdateFor(p)
    {
      SweepSound(now, store, i);
      var q :| q in store && IsReminded(now, q) && r.notifications[i] == ReminderFor(q) && r.updates[i] == UpdateFor(q);
      SamePathSameRecord(store, p, q);
    }
  }

  /** Completeness, with or without unique references: every due and complete record of the
      store is notified and updated at some position of the sweep's output. */
  lemma {:induction false} SweepReachesReminded(now: int, store: seq<Prescription>, p: Prescription)
    requires p in store && IsReminded(now, p)
    ensures exists i ::
              && 0 <= i < |Sweep(now, store).updates|
              && Sweep(now, store).notifications[i] == ReminderFor(p)
              && Sweep(now, store).updates[i] == UpdateFor(p)
  {
    var init, last := store[..|store| - 1], store[|store| - 1];
    assert store == init + [last];
    SweepSnoc(now, init, last);
    var r0 := Sweep(now, init);
    var r := Sweep(now, store);
    if last == p {
      var k := |r0.updates|;
      assert r.updates[k] == UpdateFor(p) && r.notifications[k] == ReminderFor(p);
    } else {
      assert p in init;
      SweepReachesReminded(now, init, p);
      var k :| 0 <= k < |r0.updates| && r0.notifications[k] == ReminderFor(p) && r0.updates[k] == UpdateFor(p);
      assert r.updates[k] == UpdateFor(p) && r.notifications[k] == ReminderFor(p);
    }
  }

  /** A sweep writes nothing exactly when no record of the store is both due and complete. */
  lemma SweepSilentIff(now: int, store: seq<Prescription>)
    ensures Sweep(now, store) == SweepResult([], []) <==> forall p :: p in store ==> !IsReminded(now, p)
  {
    if exists p :: p in store && IsReminded(now, p) {
      var p :| p in store && IsReminded(now, p);
      SweepReachesReminded(now, store, p);
    }
    if |Sweep(now, store).updates| > 0 {
      SweepSound(now, store, 0);
    }
  }

  lemma {:induction false} CountPositive(updates: seq<Update>, i: int, path: string)
    requires 0 <= i < |updates| && updates[i].path == path
    ensures CountPath(updates, path) >= 1
  {
    var init := updates[..|updates| - 1];
    if i < |updates| - 1 {
      assert init[i] == updates[i];
      CountPositive(init, i, path);
    }
  }

  lemma {:induction false} ApplyAbsent(p: Prescription, updates: seq<Update>)
    requires CountPath(updates, p.path) == 0
    ensures ApplyAll(p, updates) == p
  {
    if |updates| > 0 {
      ApplyAbsent(p, updates[..|updates| - 1]);
    }
  }

  /** When exactly one update names a document, the document ends up with that update's change. */
  lemma {:induction false} ApplySingle(p: Prescription, updates: seq<Update>, i: int)
    requires 0 <= i < |updates| && updates[i].path == p.path && CountPath(updates, p.path) == 1
    ensures ApplyAll(p, updates) == ApplyChange(p, updates[i].change)
  {
    var init, last := updates[..|updates| - 1], updates[|updates| - 1];
    if i == |updates| - 1 {
      ApplyAbsent(p, init);
    } else {
      assert init[i] == updates[i];
      CountPositive(init, i, p.path);
      ApplySingle(p, init, i);
    }
  }

  /** The store after one sweep: each reminded record carries exactly its update, so it is
      not due again in any sweep that starts before a day minus the window has passed; every
      other record is unchanged. */
  lemma SweepAdvancesStore(now: int, store: seq<Prescription>)
    requires UniquePaths(store)
    ensures |ApplyUpdates(store, Sweep(now, store).updates)| == |store|
    ensures forall i :: 0 <= i < |store| && !IsReminded(now, store[i]) ==>
      ApplyUpdates(store, Sweep(now, store).updates)[i] == store[i]
    ensures forall i :: 0 <= i < |store| && IsReminded(now, store[i]) ==>
      ApplyUpdates(store, Sweep(now, store).updates)[i] == ApplyChange(store[i], UpdateFor(store[i]).change)
    ensures forall i, later :: 0 <= i < |store| && IsReminded(now, store[i]) && later < now + DayMillis - ReminderWindowMillis ==>
      !IsDue(later, ApplyUpdates(store, Sweep(now, store).updates)[i])
  {
    var r := Sweep(now, store);
    var after := ApplyUpdates(store, r.updates);
    forall i | 0 <= i < |store|
      ensures !IsReminded(now, store[i]) ==> after[i] == store[i]
      ensures IsReminded(now, store[i]) ==> after[i] == ApplyChange(store[i], UpdateFor(store[i]).change)
    {
      var p := store[i];
      SweepExactlyOnce(now, store, p);
      if IsReminded(now, p) {
        SweepReachesReminded(now, store, p);
        var k :| 0 <= k < |r.updates| && r.notifications[k] == ReminderFor(p) && r.updates[k] == UpdateFor(p);
        ApplySingle(p, r.updates, k);
      } else {
        ApplyAbsent(p, r.updates);
      }
    }
  }

  /** Two sweeps at the same instant: the second one, run on the store the first one wrote,
      sends no notification and writes no update. */
  lemma SecondSweepSilent(now: int, store: seq<Prescription>)
    requires UniquePaths(store)
    ensures Sweep(now, ApplyUpdates(store, Sweep(now, store).updates)) == SweepResult([], [])
  {
    var after := ApplyUpdates(store, Sweep(now, store).updates);
    SweepAdvancesStore(now, store);
    forall q | q in after
      ensures !IsReminded(now, q)
    {
      var i :| 0 <= i < |after| && after[i] == q;
      assert now < now + DayMillis - ReminderWindowMillis;
    }
    SweepSilentIff(now, after);
  }
}
