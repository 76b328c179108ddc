/** Alerting rules: the life of one alert instance over any run of evaluations, its notifications, and
    the restoring of its hold time after a crash.

    Times and durations are nanoseconds; times count from the Unix epoch. */
module Alerts {
  import opened Basics
  import opened Grid

  const SECOND := 1_000_000_000
  /** The zero time, which marks a time as not set. */
  const ZERO := -62135596800 * SECOND
  const RESOLVED_RETENTION := 15 * 60 * SECOND

  datatype AlertState = Inactive | Pending | Firing

  datatype Alert = Alert(
    state: AlertState, value: real, activeAt: int, firedAt: int, resolvedAt: int,
    lastSentAt: int, validUntil: int, keepFiringSince: int)

  datatype Durations = Durations(hold: int, keepFiringFor: int)

  // ---------------------------------------------------------------- one instance, one evaluation

  function NewAlert(ts: int, value: real): Alert {
    Alert(Pending, value, ts, ZERO, ZERO, ZERO, ZERO, ZERO)
  }

  /** Compare the active time with the hold duration, both ways. */
  function Decide(d: Durations, a: Alert, ts: int): Alert {
    var fired := if a.state.Pending? && ts - a.activeAt >= d.hold then a.(state := Firing, firedAt := ts) else a;
    if fired.state.Firing? && ts - fired.activeAt < d.hold
    then fired.(state := Pending, firedAt := ZERO, lastSentAt := ZERO, keepFiringSince := ZERO)
    else fired
  }

  /** The entry for an instance that is in the result. */
  function Merge(before: Option<Alert>, ts: int, value: real): Alert {
    if before.Some? && !before.value.state.Inactive? then before.value.(value := value) else NewAlert(ts, value)
  }

  function SinceMissing(d: Durations, a: Alert, ts: int): int {
    if a.state.Firing? && d.keepFiringFor > 0 && a.keepFiringSince == ZERO then ts else a.keepFiringSince
  }

  predicate KeepsFiring(d: Durations, a: Alert, ts: int) {
    a.state.Firing? && d.keepFiringFor > 0 && ts - SinceMissing(d, a, ts) < d.keepFiringFor
  }

  /** An entry that is not in the result. */
  function Missing(d: Durations, a: Alert, ts: int): Option<Alert> {
    if a.state.Pending? || (a.resolvedAt != ZERO && ts - a.resolvedAt > RESOLVED_RETENTION) then
      None
    else
      var marked := a.(keepFiringSince := SinceMissing(d, a, ts));
      if KeepsFiring(d, a, ts) then Some(Decide(d, marked, ts))
      else if a.state.Inactive? then Some(marked)
      else Some(marked.(state := Inactive, resolvedAt := ts))
  }

  /** The entry after an evaluation; found is the value of the instance if it is in the result. */
  function EvalEntry(d: Durations, entry: Option<Alert>, ts: int, found: Option<real>): Option<Alert> {
    if found.Some? then Some(Decide(d, Merge(entry, ts, found.value).(keepFiringSince := ZERO), ts))
    else if entry.Some? then Missing(d, entry.value, ts)
    else None
  }

  /** An entry after the new alerts were merged in. */
  function SweptEntry(d: Durations, entry: Option<Alert>, ts: int, found: bool): Option<Alert> {
    if entry.None? then None
    else if found then Some(Decide(d, entry.value.(keepFiringSince := ZERO), ts))
    else Missing(d, entry.value, ts)
  }

  // ---------------------------------------------------------------- sending

  datatype Timing = Timing(interval: nat, resendDelay: nat)

  predicate NeedsSending(a: Alert, ts: int, resendDelay: int) {
    if a.state.Pending? then false
    else if a.resolvedAt > a.lastSentAt then true
    else a.lastSentAt + resendDelay < ts
  }

  function SendEntry(m: Timing, entry: Option<Alert>, ts: int): Option<Alert> {
    if entry.Some? && NeedsSending(entry.value, ts, m.resendDelay)
    then Some(entry.value.(lastSentAt := ts, validUntil := ts + 4 * Max(m.interval, m.resendDelay)))
    else entry
  }

  // ---------------------------------------------------------------- runs

  /** A successful evaluation as one instance sees it. */
  datatype Evaluation = Evaluation(t: int, found: Option<real>)

  ghost predicate Increasing(h: seq<Evaluation>) {
    && (forall i, j :: 0 <= i < j < |h| ==> h[i].t < h[j].t)
    && (forall i :: 0 <= i < |h| ==> h[i].t > ZERO)
  }

  /** The entry after evaluation k and the sending that follows it, for an instance whose entry was
      first before the run. */
  ghost function After(d: Durations, m: Timing, first: Option<Alert>, h: seq<Evaluation>, k: nat): Option<Alert>
    requires k < |h|
    decreases k, 1
  {
    SendEntry(m, Evaluated(d, m, first, h, k), h[k].t)
  }

  /** The entry after evaluation k, before sending. */
  ghost function Evaluated(d: Durations, m: Timing, first: Option<Alert>, h: seq<Evaluation>, k: nat): Option<Alert>
    requires k < |h|
    decreases k, 0
  {
    EvalEntry(d, if k == 0 then first else After(d, m, first, h, k - 1), h[k].t, h[k].found)
  }

  // ---------------------------------------------------------------- activity episodes

  /** First evaluation of the uninterrupted absence that evaluation g is part of. */
  ghost function FirstAbsent(h: seq<Evaluation>, g: nat): (f: nat)
    requires g < |h|
    ensures f <= g
  {
    if g == 0 || h[g - 1].found.Some? then g else FirstAbsent(h, g - 1)
  }

  /** Absence at g does not end an episode that began at i: the hold time was served when the absence
      began, and keepFiringFor has not passed since. */
  ghost predicate Survives(d: Durations, h: seq<Evaluation>, i: nat, g: nat)
    requires g < |h|
  {
    var f := FirstAbsent(h, g);
    i < f && f > 0 && h[i].t + d.hold <= h[f - 1].t && h[g].t - h[f].t < d.keepFiringFor
  }

  /** An activity episode began at evaluation i, or before it, and lasts until evaluation k. */
  ghost predicate Lasts(d: Durations, h: seq<Evaluation>, i: nat, k: nat)
    requires k < |h|
  {
    && i <= k && h[i].found.Some?
    && forall g {:trigger Survives(d, h, i, g)} :: i < g <= k && h[g].found.None? ==> Survives(d, h, i, g)
  }

  ghost predicate Active(d: Durations, h: seq<Evaluation>, k: nat)
    requires k < |h|
  {
    exists i: nat :: Lasts(d, h, i, k)
  }

  /** The episode has lasted for the hold duration. */
  ghost predicate HoldServed(d: Durations, h: seq<Evaluation>, k: nat)
    requires k < |h|
  {
    exists i: nat :: Lasts(d, h, i, k) && h[k].t - h[i].t >= d.hold
  }

  /** What an entry is, for an episode that began exactly at s. */
  ghost predicate Describes(d: Durations, h: seq<Evaluation>, k: nat, s: nat, a: Alert)
    requires k < |h|
  {
    && Lasts(d, h, s, k) && (forall i: nat :: Lasts(d, h, i, k) ==> s <= i)
    && a.activeAt == h[s].t && a.resolvedAt == ZERO && !a.state.Inactive?
    && (a.state.Firing? <==> h[k].t - h[s].t >= d.hold)
    && (h[k].found.Some? ==> a.keepFiringSince == ZERO)
    && (h[k].found.None? ==> a.state.Firing? && a.keepFiringSince == h[FirstAbsent(h, k)].t)
  }

  ghost predicate Faithful(d: Durations, h: seq<Evaluation>, k: nat, entry: Option<Alert>)
    requires k < |h|
  {
    if Active(d, h, k) then
      entry.Some? && exists s: nat :: Describes(d, h, k, s, entry.value)
    else
      entry.Some? ==> entry.value.state.Inactive? && entry.value.resolvedAt != ZERO
  }

  lemma SendFaithful(d: Durations, m: Timing, h: seq<Evaluation>, k: nat, entry: Option<Alert>)
    requires k < |h| && Faithful(d, h, k, entry)
    ensures Faithful(d, h, k, SendEntry(m, entry, h[k].t))
  {
    if Active(d, h, k) {
      var s: nat :| Describes(d, h, k, s, entry.value);
      assert Describes(d, h, k, s, SendEntry(m, entry, h[k].t).value);
    }
  }

  lemma LastsPresent(d: Durations, h: seq<Evaluation>, i: nat, k: nat)
    requires 0 < k < |h| && h[k].found.Some?
    ensures Lasts(d, h, i, k) <==> i == k || Lasts(d, h, i, k - 1)
  {
  }

  lemma LastsAbsent(d: Durations, h: seq<Evaluation>, i: nat, k: nat)
    requires 0 < k < |h| && h[k].found.None?
    ensures Lasts(d, h, i, k) <==> Lasts(d, h, i, k - 1) && Survives(d, h, i, k)
  {
  }

  lemma FirstEvaluation(d: Durations, h: seq<Evaluation>)
    requires |h| > 0 && Increasing(h)
    ensures Faithful(d, h, 0, EvalEntry(d, None, h[0].t, h[0].found))
  {
    var entry := EvalEntry(d, None, h[0].t, h[0].found);
    if h[0].found.Some? {
      assert Lasts(d, h, 0, 0);
      assert Describes(d, h, 0, 0, entry.value);
    }
  }

  lemma PresentStep(d: Durations, h: seq<Evaluation>, k: nat, entry: Option<Alert>)
    requires 0 < k < |h| && Increasing(h) && h[k].found.Some? && Faithful(d, h, k - 1, entry)
    ensures Faithful(d, h, k, EvalEntry(d, entry, h[k].t, h[k].found))
  {
    var r := EvalEntry(d, entry, h[k].t, h[k].found);
    forall i: nat ensures Lasts(d, h, i, k) <==> i == k || Lasts(d, h, i, k - 1) {
      LastsPresent(d, h, i, k);
    }
    assert Lasts(d, h, k, k);
    if Active(d, h, k - 1) {
      var s: nat :| Describes(d, h, k - 1, s, entry.value);
      assert Describes(d, h, k, s, r.value);
    } else {
      assert Describes(d, h, k, k, r.value);
    }
  }

  lemma AbsentStep(d: Durations, h: seq<Evaluation>, k: nat, entry: Option<Alert>)
    requires 0 < k < |h| && Increasing(h) && h[k].found.None? && Faithful(d, h, k - 1, entry)
    ensures Faithful(d, h, k, EvalEntry(d, entry, h[k].t, h[k].found))
  {
    var r := EvalEntry(d, entry, h[k].t, h[k].found);
    forall i: nat ensures Lasts(d, h, i, k) <==> Lasts(d, h, i, k - 1) && Survives(d, h, i, k) {
      LastsAbsent(d, h, i, k);
    }
    if Active(d, h, k - 1) {
      var s: nat :| Describes(d, h, k - 1, s, entry.value);
      AbsentWhileActive(d, h, k, s, entry.value);
    }
  }

  lemma LastsSurvives(d: Durations, h: seq<Evaluation>, s: nat, k: nat)
    requires k < |h| && Lasts(d, h, s, k) && h[k].found.None?
    ensures Survives(d, h, s, k)
  {}

  /** An absence that begins at k: the episode survives it if the hold time was served before. */
  lemma KeptAtFirst(d: Durations, h: seq<Evaluation>, k: nat, s: nat, a: Alert, f: nat)
    requires 0 < k < |h| && s < k && f == FirstAbsent(h, k) && h[k - 1].found.Some?
    requires a.keepFiringSince == ZERO && (a.state.Firing? <==> h[k - 1].t - h[s].t >= d.hold)
    ensures f == k && (Survives(d, h, s, k) <==> KeepsFiring(d, a, h[k].t))
    ensures KeepsFiring(d, a, h[k].t) ==> SinceMissing(d, a, h[k].t) == h[f].t
  {}

  /** An absence that began before k: the alert is marked with its beginning. */
  lemma KeptLater(d: Durations, h: seq<Evaluation>, k: nat, s: nat, a: Alert, f: nat)
    requires 0 < k < |h| && f == FirstAbsent(h, k - 1) && h[k - 1].found.None? && Survives(d, h, s, k - 1)
    requires a.state.Firing? && a.keepFiringSince == h[f].t && h[f].t > ZERO && h[k - 1].t <= h[k].t && h[f].t <= h[k - 1].t
    ensures FirstAbsent(h, k) == f && (Survives(d, h, s, k) <==> KeepsFiring(d, a, h[k].t))
    ensures SinceMissing(d, a, h[k].t) == h[f].t
  {}

  /** The code keeps an alert firing exactly when the episode survives. */
  lemma KeptIffSurvives(d: Durations, h: seq<Evaluation>, k: nat, s: nat, a: Alert)
    requires 0 < k < |h| && Increasing(h) && h[k].found.None? && Describes(d, h, k - 1, s, a)
    ensures Survives(d, h, s, k) <==> KeepsFiring(d, a, h[k].t)
    ensures KeepsFiring(d, a, h[k].t) ==> SinceMissing(d, a, h[k].t) == h[FirstAbsent(h, k)].t
  {
    if h[k - 1].found.None? {
      var f := FirstAbsent(h, k - 1);
      LastsSurvives(d, h, s, k - 1);
      InOrder(h, f, k);
      KeptLater(d, h, k, s, a, f);
    } else {
      KeptAtFirst(d, h, k, s, a, FirstAbsent(h, k));
    }
  }

  lemma InOrder(h: seq<Evaluation>, f: nat, k: nat)
    requires f < k < |h| && Increasing(h)
    ensures ZERO < h[f].t <= h[k - 1].t <= h[k].t
  {
    assert f < k - 1 ==> h[f].t < h[k - 1].t;
  }

  lemma LaterDoesNotSurvive(d: Durations, h: seq<Evaluation>, k: nat, s: nat, i: nat)
    requires k < |h| && Increasing(h) && s <= i && Survives(d, h, i, k)
    ensures Survives(d, h, s, k)
  {
    assert s < i ==> h[s].t < h[i].t;
  }

  lemma AbsentWhileActive(d: Durations, h: seq<Evaluation>, k: nat, s: nat, a: Alert)
    requires 0 < k < |h| && Increasing(h) && h[k].found.None? && Describes(d, h, k - 1, s, a)
    requires forall i: nat :: Lasts(d, h, i, k) <==> Lasts(d, h, i, k - 1) && Survives(d, h, i, k)
    ensures Faithful(d, h, k, EvalEntry(d, Some(a), h[k].t, None))
  {
    var r := EvalEntry(d, Some(a), h[k].t, None);
    KeptIffSurvives(d, h, k, s, a);
    if KeepsFiring(d, a, h[k].t) {
      assert h[k - 1].t < h[k].t;
      assert Describes(d, h, k, s, r.value);
    } else {
      forall i: nat | Lasts(d, h, i, k - 1) ensures !Survives(d, h, i, k) {
        if Survives(d, h, i, k) {
          LaterDoesNotSurvive(d, h, k, s, i);
        }
      }
    }
  }

  lemma {:induction false} EntryFaithful(d: Durations, m: Timing, h: seq<Evaluation>, k: nat)
    requires k < |h| && Increasing(h)
    ensures Faithful(d, h, k, Evaluated(d, m, None, h, k)) && Faithful(d, h, k, After(d, m, None, h, k))
  {
    if k == 0 {
      FirstEvaluation(d, h);
    } else {
      EntryFaithful(d, m, h, k - 1);
      if h[k].found.Some? {
        PresentStep(d, h, k, After(d, m, None, h, k - 1));
      } else {
        AbsentStep(d, h, k, After(d, m, None, h, k - 1));
      }
    }
    SendFaithful(d, m, h, k, Evaluated(d, m, None, h, k));
  }

  ghost predicate Is(entry: Option<Alert>, state: AlertState) {
    entry.Some? && entry.value.state == state
  }

  /** The life of an alert, over every run of evaluations. */
  lemma Lifecycle(d: Durations, m: Timing, h: seq<Evaluation>, k: nat)
    requires k < |h| && Increasing(h)
    ensures
      var entry := After(d, m, None, h, k);
      && (entry.Some? && !entry.value.state.Inactive? <==> Active(d, h, k))
      && (Is(entry, Firing) <==> HoldServed(d, h, k))
      && (Is(entry, Pending) <==> h[k].found.Some? && !HoldServed(d, h, k))
      && (entry.Some? ==> (entry.value.resolvedAt != ZERO <==> entry.value.state.Inactive?))
  {
    EntryFaithful(d, m, h, k);
    var entry := After(d, m, None, h, k);
    if h[k].found.Some? {
      assert Lasts(d, h, k, k);
    }
    if Active(d, h, k) {
      var s: nat :| Describes(d, h, k, s, entry.value);
      assert HoldServed(d, h, k) ==> h[k].t - h[s].t >= d.hold;
    }
  }

  // ---------------------------------------------------------------- notifications

  /** What sending leaves: ValidUntil goes with the last sending, and a pending alert was never sent. */
  ghost predicate SentWell(m: Timing, a: Alert, now: int) {
    && (a.lastSentAt != ZERO ==>
      ZERO < a.lastSentAt <= now && a.validUntil == a.lastSentAt + 4 * Max(m.interval, m.resendDelay))
    && (a.state.Pending? ==> a.lastSentAt == ZERO)
  }

  lemma {:induction false} SendingInvariant(d: Durations, m: Timing, h: seq<Evaluation>, k: nat)
    requires k < |h| && Increasing(h)
    ensures Evaluated(d, m, None, h, k).Some? ==> SentWell(m, Evaluated(d, m, None, h, k).value, h[k].t)
    ensures After(d, m, None, h, k).Some? ==> SentWell(m, After(d, m, None, h, k).value, h[k].t)
  {
    if k > 0 {
      SendingInvariant(d, m, h, k - 1);
      assert h[k - 1].t < h[k].t;
    }
    assert h[k].t > ZERO;
  }

  /** After every evaluation a firing alert was sent within the resend delay, and stays valid for three
      more intervals: two failed evaluations do not make it lapse. */
  lemma FiringStaysValid(d: Durations, m: Timing, h: seq<Evaluation>, k: nat)
    requires k < |h| && Increasing(h) && ZERO + m.resendDelay < h[k].t
    requires Is(After(d, m, None, h, k), Firing)
    ensures
      var a := After(d, m, None, h, k).value;
      && ZERO < a.lastSentAt <= h[k].t <= a.lastSentAt + m.resendDelay
      && h[k].t + 3 * m.interval <= a.validUntil
  {
    SendingInvariant(d, m, h, k);
  }

  /** The next sending of a firing alert, be it repeated or resolved, comes before it lapses. */
  lemma SentBeforeLapse(d: Durations, m: Timing, h: seq<Evaluation>, k: nat)
    requires 0 < k < |h| && Increasing(h) && ZERO + m.resendDelay < h[k - 1].t
    requires Is(After(d, m, None, h, k - 1), Firing)
    requires h[k].t - h[k - 1].t <= 3 * m.interval
    ensures h[k].t <= After(d, m, None, h, k - 1).value.validUntil
    ensures
      var r := After(d, m, None, h, k);
      r.Some? && (r.value.state.Firing? || r.value.lastSentAt == h[k].t)
      && h[k].t <= r.value.lastSentAt + m.resendDelay
  {
    FiringStaysValid(d, m, h, k - 1);
    assert h[k - 1].t < h[k].t;
    FiringEnds(d, m, h, k);
    if Is(After(d, m, None, h, k), Firing) {
      FiringStaysValid(d, m, h, k);
    }
  }

  /** A firing alert goes on firing or becomes inactive, and then it is sent at that evaluation. */
  lemma FiringEnds(d: Durations, m: Timing, h: seq<Evaluation>, k: nat)
    requires 0 < k < |h| && Increasing(h) && Is(After(d, m, None, h, k - 1), Firing)
    ensures
      var e, r := Evaluated(d, m, None, h, k), After(d, m, None, h, k);
      || Is(r, Firing)
      || (Is(r, Inactive) && NeedsSending(e.value, h[k].t, m.resendDelay)
          && r.value.resolvedAt == h[k].t && r.value.lastSentAt == h[k].t)
  {
    var before := After(d, m, None, h, k - 1);
    FiringBefore(d, m, h, k, before.value);
    FiringStep(d, m, before.value, h[k].t, h[k].found);
  }

  lemma FaithfulFiring(d: Durations, h: seq<Evaluation>, k: nat, a: Alert)
    requires k < |h| && Faithful(d, h, k, Some(a)) && a.state.Firing?
    ensures a.resolvedAt == ZERO && h[k].t - a.activeAt >= d.hold
  {
    var s: nat :| Describes(d, h, k, s, a);
  }

  lemma Later(h: seq<Evaluation>, k: nat)
    requires 0 < k < |h| && Increasing(h)
    ensures ZERO < h[k - 1].t < h[k].t
  {
  }

  lemma FiringHeld(d: Durations, m: Timing, h: seq<Evaluation>, k: nat, a: Alert)
    requires k < |h| && Increasing(h) && After(d, m, None, h, k) == Some(a) && a.state.Firing?
    ensures a.resolvedAt == ZERO && h[k].t - a.activeAt >= d.hold
  {
    EntryFaithful(d, m, h, k);
    FaithfulFiring(d, h, k, a);
  }

  lemma SentByThen(d: Durations, m: Timing, h: seq<Evaluation>, k: nat, a: Alert)
    requires k < |h| && Increasing(h) && After(d, m, None, h, k) == Some(a)
    ensures ZERO < h[k].t && a.lastSentAt <= h[k].t
  {
    SendingInvariant(d, m, h, k);
    assert SentWell(m, a, h[k].t);
  }

  /** What is known of a firing alert when the next evaluation comes. */
  lemma FiringBefore(d: Durations, m: Timing, h: seq<Evaluation>, k: nat, a: Alert)
    requires 0 < k < |h| && Increasing(h) && After(d, m, None, h, k - 1) == Some(a) && a.state.Firing?
    ensures ZERO < h[k].t && a.resolvedAt == ZERO && a.lastSentAt < h[k].t && h[k].t - a.activeAt >= d.hold
  {
    FiringHeld(d, m, h, k - 1, a);
    SentByThen(d, m, h, k - 1, a);
    Later(h, k);
  }

  lemma FiringStep(d: Durations, m: Timing, a: Alert, ts: int, found: Option<real>)
    requires a.state.Firing? && a.resolvedAt == ZERO && ts - a.activeAt >= d.hold && ts > ZERO && a.lastSentAt < ts
    ensures
      var e := EvalEntry(d, Some(a), ts, found);
      var r := SendEntry(m, e, ts);
      || Is(r, Firing)
      || (Is(r, Inactive) && NeedsSending(e.value, ts, m.resendDelay)
          && r.value.resolvedAt == ts && r.value.lastSentAt == ts)
  {
  }

  /** A pending alert is not sent, and has not been sent before. */
  lemma PendingNeverSent(d: Durations, m: Timing, h: seq<Evaluation>, k: nat)
    requires k < |h| && Increasing(h) && Is(After(d, m, None, h, k), Pending)
    ensures
      var e := Evaluated(d, m, None, h, k);
      Is(e, Pending) && !NeedsSending(e.value, h[k].t, m.resendDelay) && e.value.lastSentAt == ZERO
  {
    SendingInvariant(d, m, h, k);
  }

  // ---------------------------------------------------------------- restoring after a crash

  /** A stored point of the series that records since when an alert is active: t in milliseconds, v in
      seconds. */
  datatype ForStateSample = ForStateSample(t: int, v: real, stale: bool)

  function Truncate(v: real): int {
    if v >= 0.0 then v.Floor else -((-v).Floor)
  }

  function DownAt(last: ForStateSample): int {
    TruncDiv(last.t, 1000) * SECOND
  }

  function StoredActiveAt(last: ForStateSample): int {
    Truncate(last.v) * SECOND
  }

  /** Hold time that was still to be served when the server went down. */
  function Remaining(hold: int, last: ForStateSample): int {
    hold - (DownAt(last) - StoredActiveAt(last))
  }

  function RestoredActiveAt(hold: int, grace: int, ts: int, last: ForStateSample): int {
    var remaining := Remaining(hold, last);
    if remaining <= 0 then StoredActiveAt(last)
    else if remaining < grace then ts + grace - hold
    else StoredActiveAt(last) + (ts - DownAt(last))
  }

  /** A series without points reads as a point of zeros. */
  function LastSample(series: seq<ForStateSample>): ForStateSample {
    if |series| == 0 then ForStateSample(0, 0.0, false) else series[|series| - 1]
  }

  function RestoreEntry(hold: int, grace: int, ts: int, a: Alert, series: Option<seq<ForStateSample>>): Alert {
    if hold < grace || series.None? || LastSample(series.value).stale then a
    else a.(activeAt := RestoredActiveAt(hold, grace, ts, LastSample(series.value)))
  }

  /** Time from the restore until the alert may fire. */
  function Left(hold: int, grace: int, last: ForStateSample): int {
    if Remaining(hold, last) <= 0 then 0 else Max(Remaining(hold, last), grace)
  }

  lemma RestoredFiringTime(hold: int, grace: int, ts: int, last: ForStateSample, e: int)
    requires DownAt(last) <= ts <= e
    ensures e - RestoredActiveAt(hold, grace, ts, last) >= hold <==> e >= ts + Left(hold, grace, last)
  {
  }

  /** While an instance is found its active time does not change, and it fires exactly when that is
      long enough ago. */
  lemma {:induction false} WhileFound(d: Durations, m: Timing, a: Alert, h: seq<Evaluation>, k: nat)
    requires k < |h| && !a.state.Inactive? && forall i :: 0 <= i <= k ==> h[i].found.Some?
    ensures
      var r := After(d, m, Some(a), h, k);
      && r.Some? && !r.value.state.Inactive? && r.value.activeAt == a.activeAt
      && (r.value.state.Firing? <==> h[k].t - a.activeAt >= d.hold)
  {
    if k > 0 {
      WhileFound(d, m, a, h, k - 1);
    }
  }

  /** A restored alert that goes on being found fires at exactly the evaluations from ts + left on. */
  lemma RestoreThenEvaluate(d: Durations, m: Timing, grace: int, ts: int, a: Alert, series: seq<ForStateSample>,
                            h: seq<Evaluation>, k: nat)
    requires d.hold >= grace && !a.state.Inactive? && !LastSample(series).stale && DownAt(LastSample(series)) <= ts
    requires k < |h| && ts <= h[k].t && forall i :: 0 <= i <= k ==> h[i].found.Some?
    ensures
      var restored := RestoreEntry(d.hold, grace, ts, a, Some(series));
      var r := After(d, m, Some(restored), h, k);
      r.Some? && r.value.state == if h[k].t >= ts + Left(d.hold, grace, LastSample(series)) then Firing else Pending
  {
    var last := LastSample(series);
    WhileFound(d, m, RestoreEntry(d.hold, grace, ts, a, Some(series)), h, k);
    RestoredFiringTime(d.hold, grace, ts, last, h[k].t);
  }

  /** A stored point is not later than the restore, so neither is the time the server went down. */
  lemma DownBeforeRestore(last: ForStateSample, ts: int)
    requires 0 <= last.t && last.t * 1_000_000 <= ts
    ensures DownAt(last) <= ts
  {
  }

  /** What the storage returns for a query up to the restore: its last point, in milliseconds, is not
      after it.  Nothing more is needed for the alert to fire when it is due. */
  lemma RestoreFromStorage(d: Durations, m: Timing, grace: int, ts: int, a: Alert, series: seq<ForStateSample>,
                           h: seq<Evaluation>, k: nat)
    requires d.hold >= grace && !a.state.Inactive? && !LastSample(series).stale
    requires 0 <= LastSample(series).t && LastSample(series).t * 1_000_000 <= ts
    requires k < |h| && ts <= h[k].t && forall i :: 0 <= i <= k ==> h[i].found.Some?
    ensures
      var restored := RestoreEntry(d.hold, grace, ts, a, Some(series));
      var r := After(d, m, Some(restored), h, k);
      r.Some? && r.value.state == if h[k].t >= ts + Left(d.hold, grace, LastSample(series)) then Firing else Pending
  {
    DownBeforeRestore(LastSample(series), ts);
    RestoreThenEvaluate(d, m, grace, ts, a, series, h, k);
  }

  // ---------------------------------------------------------------- the rule

  datatype Sample = Sample(fp: nat, value: real)

  datatype Outcome = Evaluates | QueryFailed | DuplicateLabelSet | LimitExceeded

  function Lookup<V>(entries: map<nat, V>, fp: nat): Option<V> {
    if fp in entries then Some(entries[fp]) else None
  }

  /** The value of an instance in the first n samples of a result. */
  ghost function FoundIn(result: seq<Sample>, n: nat, fp: nat): Option<real>
    requires n <= |result|
  {
    if n == 0 then None
    else if result[n - 1].fp == fp then Some(result[n - 1].value)
    else FoundIn(result, n - 1, fp)
  }

  ghost predicate HasDuplicate(result: seq<Sample>) {
    exists i, j :: 0 <= i < j < |result| && result[i].fp == result[j].fp
  }

  lemma {:induction false} FoundInIff(result: seq<Sample>, n: nat, fp: nat)
    requires n <= |result|
    ensures FoundIn(result, n, fp).Some? <==> exists i :: 0 <= i < n && result[i].fp == fp
  {
    if n > 0 {
      FoundInIff(result, n - 1, fp);
    }
  }

  /** Whether an instance counts against the limit. */
  predicate Counts(d: Durations, entry: Option<Alert>, found: Option<real>, ts: int) {
    found.Some? || (entry.Some? && KeepsFiring(d, entry.value, ts))
  }

  function Proposed(found: Option<real>, ts: int): Option<Alert> {
    if found.Some? then Some(NewAlert(ts, found.value)) else None
  }

  /** The instances that count against the limit. */
  ghost function Counted(d: Durations, active: map<nat, Alert>, result: seq<Sample>, ts: int): set<nat> {
    (set fp | fp in active && Counts(d, Lookup(active, fp), FoundIn(result, |result|, fp), ts))
    + (set i | 0 <= i < |result| :: result[i].fp)
  }

  /** Every entry went through its own evaluation step. */
  ghost predicate Stepped(d: Durations, before: map<nat, Alert>, after: map<nat, Alert>, result: seq<Sample>, ts: int) {
    forall fp :: Lookup(after, fp) == EvalEntry(d, Lookup(before, fp), ts, FoundIn(result, |result|, fp))
  }

  function MergedEntry(was: Option<Alert>, proposed: Option<Alert>): Option<Alert> {
    if proposed.None? then was
    else if was.Some? && !was.value.state.Inactive? then Some(was.value.(value := proposed.value.value))
    else proposed
  }

  /** Merging and sweeping one entry is one evaluation step of it. */
  lemma MergeThenSweepEntry(d: Durations, before: Option<Alert>, ts: int, found: Option<real>)
    ensures SweptEntry(d, MergedEntry(before, Proposed(found, ts)), ts, found.Some?) == EvalEntry(d, before, ts, found)
  {}

  lemma CountsWhenMerged(d: Durations, before: Option<Alert>, ts: int, found: Option<real>)
    ensures
      var merged := MergedEntry(before, Proposed(found, ts));
      (merged.Some? && (found.Some? || KeepsFiring(d, merged.value, ts))) <==>
        found.Some? || (before.Some? && Counts(d, before, found, ts))
  {}

  lemma MergeThenSweep(d: Durations, before: map<nat, Alert>, alerts: map<nat, Alert>, merged: map<nat, Alert>,
                       after: map<nat, Alert>, result: seq<Sample>, ts: int, counted: set<nat>)
    requires forall fp :: Lookup(alerts, fp) == Proposed(FoundIn(result, |result|, fp), ts)
    requires forall fp :: Lookup(merged, fp) == MergedEntry(Lookup(before, fp), Lookup(alerts, fp))
    requires forall fp :: Lookup(after, fp) == SweptEntry(d, Lookup(merged, fp), ts, fp in alerts.Keys)
    requires forall fp :: fp in counted <==> fp in merged && (fp in alerts.Keys || KeepsFiring(d, merged[fp], ts))
    ensures Stepped(d, before, after, result, ts)
    ensures counted == Counted(d, before, result, ts)
  {
    forall fp
      ensures Lookup(after, fp) == EvalEntry(d, Lookup(before, fp), ts, FoundIn(result, |result|, fp))
      ensures fp in counted <==> fp in Counted(d, before, result, ts)
    {
      var found := FoundIn(result, |result|, fp);
      FoundInIff(result, |result|, fp);
      assert Lookup(alerts, fp) == Proposed(found, ts);
      assert Lookup(merged, fp) == MergedEntry(Lookup(before, fp), Lookup(alerts, fp));
      MergeThenSweepEntry(d, Lookup(before, fp), ts, found);
      CountsWhenMerged(d, Lookup(before, fp), ts, found);
    }
  }

  /** An entry after evaluating and sending. */
  ghost predicate EvaluatedAndSent(d: Durations, m: Timing, before: map<nat, Alert>, after: map<nat, Alert>, result: seq<Sample>, ts: int) {
    forall fp :: Lookup(after, fp) == SendEntry(m, EvalEntry(d, Lookup(before, fp), ts, FoundIn(result, |result|, fp)), ts)
  }

  predicate Notifies(m: Timing, entry: Option<Alert>, ts: int) {
    entry.Some? && NeedsSending(entry.value, ts, m.resendDelay)
  }

  /** A successful evaluation of a rule. */
  datatype RuleEvaluation = RuleEvaluation(ts: int, result: seq<Sample>)

  /** What one instance sees of the evaluations of its rule. */
  ghost function History(evaluations: seq<RuleEvaluation>, fp: nat): (h: seq<Evaluation>)
    ensures |h| == |evaluations|
  {
    seq(|evaluations|, i requires 0 <= i < |evaluations| =>
      Evaluation(evaluations[i].ts, FoundIn(evaluations[i].result, |evaluations[i].result|, fp)))
  }

  function WithEntry(entries: map<nat, Alert>, fp: nat, entry: Option<Alert>): map<nat, Alert> {
    if entry.None? then entries - {fp} else entries[fp := entry.value]
  }

  /** All entries but those in todo have taken their step. */
  ghost predicate SweptBut(d: Durations, was: map<nat, Alert>, now: map<nat, Alert>, todo: set<nat>, ts: int, found: set<nat>) {
    forall fp :: Lookup(now, fp) ==
      if fp in todo then Lookup(was, fp) else SweptEntry(d, Lookup(was, fp), ts, fp in found)
  }

  /** The entries not in todo that are pending or firing. */
  ghost predicate CountedBut(d: Durations, was: map<nat, Alert>, counted: set<nat>, todo: set<nat>, ts: int, found: set<nat>) {
    forall fp :: fp in counted <==> fp in was && fp !in todo && (fp in found || KeepsFiring(d, was[fp], ts))
  }

  lemma Unswept(d: Durations, was: map<nat, Alert>, now: map<nat, Alert>, counted: set<nat>, todo: set<nat>, ts: int,
                found: set<nat>, fp: nat)
    requires SweptBut(d, was, now, todo, ts, found) && CountedBut(d, was, counted, todo, ts, found)
    requires fp in todo && fp in was
    ensures fp in now && now[fp] == was[fp] && fp !in counted
  {
    assert Lookup(now, fp) == Lookup(was, fp);
  }

  lemma SweepStep(d: Durations, was: map<nat, Alert>, now: map<nat, Alert>, todo: set<nat>, ts: int, found: set<nat>,
                  fp: nat, entry: Option<Alert>)
    requires SweptBut(d, was, now, todo, ts, found) && fp in todo && fp in was
    requires entry == SweptEntry(d, Some(was[fp]), ts, fp in found)
    ensures SweptBut(d, was, WithEntry(now, fp, entry), todo - {fp}, ts, found)
  {
    forall x ensures Lookup(WithEntry(now, fp, entry), x) == if x == fp then entry else Lookup(now, x) {
    }
  }

  lemma CountStep(d: Durations, was: map<nat, Alert>, counted: set<nat>, todo: set<nat>, ts: int, found: set<nat>,
                  fp: nat, counts: bool)
    requires CountedBut(d, was, counted, todo, ts, found) && fp in todo && fp in was
    requires counts <==> fp in found || KeepsFiring(d, was[fp], ts)
    ensures CountedBut(d, was, if counts then counted + {fp} else counted, todo - {fp}, ts, found)
  {
  }

  /** Reads a series to its end, keeping the point read last. */
  method ReadLast(series: seq<ForStateSample>) returns (last: ForStateSample)
    ensures last == LastSample(series)
  {
    var t, v, stale := 0, 0.0, false;
    for i := 0 to |series|
      invariant ForStateSample(t, v, stale) == LastSample(series[..i])
    {
      t, v, stale := series[i].t, series[i].v, series[i].stale;
    }
    assert series[..|series|] == series;
    last := ForStateSample(t, v, stale);
  }

  class AlertingRule {
    const d: Durations
    var active: map<nat, Alert>

    constructor (d: Durations)
      ensures this.d == d && active == map[]
    {
      this.d, active := d, map[];
    }

    /** The result as new alerts, unless two samples have the same labels. */
    method CollectAlerts(ts: int, result: seq<Sample>) returns (ok: bool, alerts: map<nat, Alert>)
      ensures ok <==> !HasDuplicate(result)
      ensures ok ==> forall fp :: Lookup(alerts, fp) == Proposed(FoundIn(result, |result|, fp), ts)
    {
      alerts := map[];
      for n := 0 to |result|
        invariant forall fp :: Lookup(alerts, fp) == Proposed(FoundIn(result, n, fp), ts)
        invariant forall i, j :: 0 <= i < j < n ==> result[i].fp != result[j].fp
      {
        var x := result[n];
        FoundInIff(result, n, x.fp);
        assert x.fp in alerts <==> Lookup(alerts, x.fp).Some?;
        if x.fp in alerts {
          return false, alerts;
        }
        alerts := alerts[x.fp := NewAlert(ts, x.value)];
      }
      ok := true;
    }

    /** Enter the new alerts; an instance that is active already only gets the new value. */
    method MergeAlerts(alerts: map<nat, Alert>)
      modifies this
      ensures forall fp :: Lookup(active, fp) == MergedEntry(Lookup(old(active), fp), Lookup(alerts, fp))
    {
      var todo := alerts.Keys;
      while todo != {}
        invariant todo <= alerts.Keys
        invariant forall fp :: fp in todo ==> Lookup(active, fp) == Lookup(old(active), fp)
        invariant forall fp :: fp !in todo ==> Lookup(active, fp) == MergedEntry(Lookup(old(active), fp), Lookup(alerts, fp))
        decreases todo
      {
        var fp :| fp in todo;
        todo := todo - {fp};
        assert Lookup(active, fp) == Lookup(old(active), fp);
        if fp in active && !active[fp].state.Inactive? {
          active := active[fp := active[fp].(value := alerts[fp].value)];
        } else {
          active := active[fp := alerts[fp]];
        }
      }
    }

    /** Go over all entries: remove, keep firing, resolve or decide anew.  The result counts those that
        are pending or firing. */
    method Sweep(ts: int, found: set<nat>) returns (n: nat, ghost counted: set<nat>)
      modifies this
      ensures forall fp :: Lookup(active, fp) == SweptEntry(d, Lookup(old(active), fp), ts, fp in found)
      ensures n == |counted|
      ensures forall fp :: fp in counted <==>
        fp in old(active) && (fp in found || KeepsFiring(d, old(active)[fp], ts))
    {
      n, counted := 0, {};
      ghost var was := active;
      var todo := active.Keys;
      while todo != {}
        invariant todo <= was.Keys && n == |counted|
        invariant SweptBut(d, was, active, todo, ts, found)
        invariant CountedBut(d, was, counted, todo, ts, found)
        decreases todo
      {
        var fp :| fp in todo;
        Unswept(d, was, active, counted, todo, ts, found, fp);
        var counts, entry := SweepOne(fp, ts, fp in found);
        SweepStep(d, was, active, todo, ts, found, fp, entry);
        CountStep(d, was, counted, todo, ts, found, fp, counts);
        todo := todo - {fp};
        if counts {
          n := n + 1;
          counted := counted + {fp};
        }
        active := WithEntry(active, fp, entry);
      }
    }

    /** One entry, with the field updates in the order of the source. */
    method SweepOne(fp: nat, ts: int, found: bool) returns (counts: bool, entry: Option<Alert>)
      requires fp in active
      ensures entry == SweptEntry(d, Some(active[fp]), ts, found)
      ensures counts <==> found || KeepsFiring(d, active[fp], ts)
    {
      var a := active[fp];
      var deleted := false;
      if !found {
        var keepFiring := false;
        if a.state.Firing? && d.keepFiringFor > 0 {
          if a.keepFiringSince == ZERO {
            a := a.(keepFiringSince := ts);
          }
          if ts - a.keepFiringSince < d.keepFiringFor {
            keepFiring := true;
          }
        }
        if a.state.Pending? || (a.resolvedAt != ZERO && ts - a.resolvedAt > RESOLVED_RETENTION) {
          deleted := true;
        }
        if !a.state.Inactive? && !keepFiring {
          a := a.(state := Inactive, resolvedAt := ts);
        }
        if !keepFiring {
          return false, if deleted then None else Some(a);
        }
      } else {
        a := a.(keepFiringSince := ZERO);
      }
      if a.state.Pending? && ts - a.activeAt >= d.hold {
        a := a.(state := Firing, firedAt := ts);
      }
      if a.state.Firing? && ts - a.activeAt < d.hold {
        a := a.(state := Pending, firedAt := ZERO, lastSentAt := ZERO, keepFiringSince := ZERO);
      }
      return true, if deleted then None else Some(a);
    }

    /** Every instance goes through its own evaluation step, whatever the others do; errors change
        nothing, except that exceeding the limit forgets all instances. */
    method Eval(ts: int, query: Option<seq<Sample>>, limit: int) returns (outcome: Outcome)
      modifies this
      ensures outcome == QueryFailed <==> query.None?
      ensures outcome == DuplicateLabelSet <==> query.Some? && HasDuplicate(query.value)
      ensures outcome == QueryFailed || outcome == DuplicateLabelSet ==> active == old(active)
      ensures outcome == LimitExceeded || outcome == Evaluates ==>
        (outcome == LimitExceeded <==> limit > 0 && |Counted(d, old(active), query.value, ts)| > limit)
      ensures outcome == LimitExceeded ==> active == map[]
      ensures outcome == Evaluates ==> Stepped(d, old(active), active, query.value, ts)
    {
      if query.None? {
        return QueryFailed;
      }
      var result := query.value;
      var ok, alerts := CollectAlerts(ts, result);
      if !ok {
        return DuplicateLabelSet;
      }
      MergeAlerts(alerts);
      ghost var merged := active;
      var n, counted := Sweep(ts, alerts.Keys);
      MergeThenSweep(d, old(active), alerts, merged, active, result, ts, counted);
      if limit > 0 && n > limit {
        active := map[];
        return LimitExceeded;
      }
      return Evaluates;
    }

    /** Marks and returns the instances that need sending. */
    method SendAlerts(ts: int, m: Timing) returns (notified: set<nat>)
      modifies this
      ensures forall fp :: Lookup(active, fp) == SendEntry(m, Lookup(old(active), fp), ts)
      ensures forall fp :: fp in notified <==> fp in old(active) && NeedsSending(old(active)[fp], ts, m.resendDelay)
      ensures forall fp :: fp in notified <==>
        && fp in old(active) && !old(active)[fp].state.Pending?
        && (old(active)[fp].resolvedAt > old(active)[fp].lastSentAt || ts - old(active)[fp].lastSentAt > m.resendDelay)
      ensures active.Keys == old(active).Keys
      ensures forall fp :: fp in active ==>
        active[fp] ==
        (if fp !in notified then old(active)[fp]
         else old(active)[fp].(lastSentAt := ts, validUntil := ts + 4 * if m.interval > m.resendDelay then m.interval else m.resendDelay))
    {
      notified := {};
      var todo := active.Keys;
      while todo != {}
        invariant todo <= old(active).Keys == active.Keys
        invariant forall fp :: fp in todo ==> Lookup(active, fp) == Lookup(old(active), fp)
        invariant forall fp :: fp !in todo ==> Lookup(active, fp) == SendEntry(m, Lookup(old(active), fp), ts)
        invariant forall fp :: fp in notified <==>
          fp in old(active) && fp !in todo && NeedsSending(old(active)[fp], ts, m.resendDelay)
        decreases todo
      {
        var fp :| fp in todo;
        todo := todo - {fp};
        assert Lookup(active, fp) == Lookup(old(active), fp);
        if NeedsSending(active[fp], ts, m.resendDelay) {
          var delta := if m.interval >= m.resendDelay then m.interval else m.resendDelay;
          active := active[fp := active[fp].(lastSentAt := ts, validUntil := ts + 4 * delta)];
          notified := notified + {fp};
        }
      }
    }

    /** One evaluation by the rule's group: alerts are sent only after a successful evaluation. */
    method EvalAndSend(ts: int, query: Option<seq<Sample>>, limit: int, m: Timing)
      returns (outcome: Outcome, notified: set<nat>)
      modifies this
      ensures outcome == QueryFailed || outcome == DuplicateLabelSet ==> active == old(active) && notified == {}
      ensures outcome == LimitExceeded ==> active == map[] && notified == {}
      ensures (outcome == QueryFailed <==> query.None?) && (outcome == DuplicateLabelSet <==> query.Some? && HasDuplicate(query.value))
      ensures outcome == LimitExceeded ==> limit > 0
      ensures outcome == Evaluates ==> query.Some? && EvaluatedAndSent(d, m, old(active), active, query.value, ts)
      ensures outcome == Evaluates ==> forall fp :: fp in notified <==>
        Notifies(m, EvalEntry(d, Lookup(old(active), fp), ts, FoundIn(query.value, |query.value|, fp)), ts)
    {
      notified := {};
      outcome := Eval(ts, query, limit);
      if outcome == Evaluates {
        ghost var evaluated := active;
        assert forall fp :: Lookup(evaluated, fp) == EvalEntry(d, Lookup(old(active), fp), ts, FoundIn(query.value, |query.value|, fp));
        notified := SendAlerts(ts, m);
        assert forall fp :: fp in notified <==> Notifies(m, Lookup(evaluated, fp), ts);
      }
    }

    /** Any number of successful evaluations of a new rule: each instance has exactly the entry that its
        own history gives it. */
    method EvaluateAll(evaluations: seq<RuleEvaluation>, m: Timing)
      requires active == map[]
      requires forall i :: 0 <= i < |evaluations| ==> !HasDuplicate(evaluations[i].result)
      modifies this
      ensures |evaluations| > 0 ==> forall fp :: Lookup(active, fp) == After(d, m, None, History(evaluations, fp), |evaluations| - 1)
    {
      for k := 0 to |evaluations|
        invariant k == 0 ==> active == map[]
        invariant k > 0 ==> forall fp :: Lookup(active, fp) == After(d, m, None, History(evaluations, fp), k - 1)
      {
        ghost var before := active;
        var outcome, _ := EvalAndSend(evaluations[k].ts, Some(evaluations[k].result), 0, m);
        forall fp ensures Lookup(active, fp) == After(d, m, None, History(evaluations, fp), k) {
          assert Lookup(before, fp) == if k == 0 then None else After(d, m, None, History(evaluations, fp), k - 1);
        }
      }
    }

    /** Set back the active times from what was stored before the crash. */
    method RestoreForState(ts: int, grace: int, stored: map<nat, seq<ForStateSample>>)
      modifies this
      ensures active.Keys == old(active).Keys
      ensures forall fp :: fp in active ==> active[fp] == RestoreEntry(d.hold, grace, ts, old(active)[fp], Lookup(stored, fp))
    {
      if d.hold < grace {
        return;
      }
      var todo := active.Keys;
      while todo != {}
        invariant todo <= active.Keys == old(active).Keys
        invariant forall fp :: fp in active && fp in todo ==> active[fp] == old(active)[fp]
        invariant forall fp :: fp in active && fp !in todo ==> active[fp] == RestoreEntry(d.hold, grace, ts, old(active)[fp], Lookup(stored, fp))
        decreases todo
      {
        var fp :| fp in todo;
        todo := todo - {fp};
        if fp in stored {
          var last := ReadLast(stored[fp]);
          if !last.stale {
            var downAt := TruncDiv(last.t, 1000) * SECOND;
            var activeAt := Truncate(last.v) * SECOND;
            var remaining := d.hold - (downAt - activeAt);
            if remaining <= 0 {
            } else if remaining < grace {
              activeAt := ts + grace - d.hold;
            } else {
              activeAt := activeAt + (ts - downAt);
            }
            active := active[fp := active[fp].(activeAt := activeAt)];
          }
        }
      }
    }
  }
}
