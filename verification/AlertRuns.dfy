/** What a run of evaluations makes of one alert instance, in terms of times alone: when it is sent, when
    it started to fire, which value it shows, and when it is forgotten. */
module AlertRuns {
  import opened Basics
  import opened Alerts

  /** The instance was sent at evaluation k. */
  ghost predicate Sent(d: Durations, m: Timing, h: seq<Evaluation>, k: nat)
    requires k < |h|
  {
    var r := After(d, m, None, h, k);
    r.Some? && r.value.lastSentAt == h[k].t
  }

  // ---------------------------------------------------------------- one evaluation

  /** What holds of an entry after the evaluation at time before. */
  ghost predicate Settled(d: Durations, a: Alert, before: int) {
    && ZERO <= a.resolvedAt <= a.lastSentAt <= before && a.activeAt <= before
    && (a.state.Firing? ==> before - a.activeAt >= d.hold && a.resolvedAt == ZERO)
    && (a.state.Pending? ==> before - a.activeAt < d.hold && a.resolvedAt == a.lastSentAt == ZERO)
    && (a.state.Inactive? ==> a.activeAt <= a.resolvedAt && a.resolvedAt != ZERO)
  }

  /** A new entry, or one with the same active time and last sending. */
  ghost predicate Continues(before: Option<Alert>, a: Alert, ts: int) {
    || (a.activeAt == ts && a.lastSentAt == ZERO)
    || (before.Some? && a.activeAt == before.value.activeAt && a.lastSentAt == before.value.lastSentAt)
  }

  lemma EvaluateStep(d: Durations, before: Option<Alert>, last: int, ts: int, found: Option<real>)
    requires (before.Some? ==> Settled(d, before.value, last)) && ZERO < ts && last < ts
    requires EvalEntry(d, before, ts, found).Some?
    ensures
      var a := EvalEntry(d, before, ts, found).value;
      && Continues(before, a, ts)
      && (a.resolvedAt > a.lastSentAt <==> a.resolvedAt == ts)
      && (a.resolvedAt == ts ==> a.state.Inactive?)
      && a.lastSentAt < ts
  {
  }

  lemma SettleStep(d: Durations, m: Timing, before: Option<Alert>, last: int, ts: int, found: Option<real>)
    requires (before.Some? ==> Settled(d, before.value, last)) && ZERO < ts && last < ts
    ensures
      var r := SendEntry(m, EvalEntry(d, before, ts, found), ts);
      r.Some? ==> Settled(d, r.value, ts)
  {
  }

  lemma {:induction false} AlwaysSettled(d: Durations, m: Timing, h: seq<Evaluation>, k: nat)
    requires k < |h| && Increasing(h)
    ensures
      var r := After(d, m, None, h, k);
      r.Some? ==> Settled(d, r.value, h[k].t)
  {
    assert h[k].t > ZERO;
    if k > 0 {
      AlwaysSettled(d, m, h, k - 1);
      assert h[k - 1].t < h[k].t;
      SettleStep(d, m, After(d, m, None, h, k - 1), h[k - 1].t, h[k].t, h[k].found);
    } else {
      SettleStep(d, m, None, ZERO, h[k].t, h[k].found);
    }
  }

  lemma SendStep(m: Timing, a: Alert, ts: int)
    requires a.lastSentAt < ts
    ensures
      var r := SendEntry(m, Some(a), ts);
      && r.Some? && r.value.activeAt == a.activeAt && r.value.state == a.state && r.value.resolvedAt == a.resolvedAt
      && (r.value.lastSentAt == a.lastSentAt || r.value.lastSentAt == ts)
      && (r.value.lastSentAt == ts <==>
          !a.state.Pending? && (a.resolvedAt > a.lastSentAt || ts - a.lastSentAt > m.resendDelay))
  {
  }

  // ---------------------------------------------------------------- when an alert is sent

  /** a.lastSentAt is the last of the first n evaluations since a became active at which it was sent, or
      the zero time if there is none. */
  ghost predicate Recorded(d: Durations, m: Timing, h: seq<Evaluation>, n: nat, a: Alert)
    requires n <= |h|
  {
    && (forall i :: 0 <= i < n && Sent(d, m, h, i) && h[i].t >= a.activeAt ==> h[i].t <= a.lastSentAt)
    && (a.lastSentAt != ZERO ==> exists i :: 0 <= i < n && Sent(d, m, h, i) && h[i].t == a.lastSentAt >= a.activeAt)
  }

  lemma RecordedLater(d: Durations, m: Timing, h: seq<Evaluation>, k: nat, a: Alert, b: Alert)
    requires k < |h| && Increasing(h) && After(d, m, None, h, k) == Some(b)
    requires Recorded(d, m, h, k, a) && a.activeAt == b.activeAt <= h[k].t
    requires b.lastSentAt == a.lastSentAt < h[k].t || b.lastSentAt == h[k].t
    ensures Recorded(d, m, h, k + 1, b)
  {
    assert Sent(d, m, h, k) <==> b.lastSentAt == h[k].t;
    if b.lastSentAt == h[k].t {
      forall i | 0 <= i < k + 1 ensures h[i].t <= h[k].t {
      }
    } else if b.lastSentAt != ZERO {
      var i :| 0 <= i < k && Sent(d, m, h, i) && h[i].t == a.lastSentAt >= a.activeAt;
      assert 0 <= i < k + 1;
    }
  }

  /** An evaluation that starts a new entry, or keeps the active time and the last sending. */
  lemma RecordedBefore(d: Durations, m: Timing, h: seq<Evaluation>, k: nat, before: Option<Alert>, a: Alert)
    requires k < |h| && Increasing(h) && Continues(before, a, h[k].t)
    requires before.Some? ==> Recorded(d, m, h, k, before.value)
    ensures Recorded(d, m, h, k, a)
  {
    if a.activeAt == h[k].t && a.lastSentAt == ZERO {
      assert forall i :: 0 <= i < k ==> h[i].t < h[k].t;
    }
  }

  /** The entry before evaluation k, and the time of the evaluation that left it. */
  ghost function Before(d: Durations, m: Timing, h: seq<Evaluation>, k: nat): Option<Alert>
    requires k < |h|
  {
    if k == 0 then None else After(d, m, None, h, k - 1)
  }

  lemma BeforeSettled(d: Durations, m: Timing, h: seq<Evaluation>, k: nat) returns (last: int)
    requires k < |h| && Increasing(h)
    ensures last < h[k].t && ZERO < h[k].t
    ensures Before(d, m, h, k).Some? ==> Settled(d, Before(d, m, h, k).value, last)
  {
    assert ZERO < h[k].t;
    last := ZERO;
    if k > 0 {
      last := h[k - 1].t;
      AlwaysSettled(d, m, h, k - 1);
    }
  }

  /** The entry of evaluation k, before and after the sending. */
  lemma EvaluatedAndSent(d: Durations, m: Timing, h: seq<Evaluation>, k: nat)
    requires k < |h|
    ensures Evaluated(d, m, None, h, k) == EvalEntry(d, Before(d, m, h, k), h[k].t, h[k].found)
    ensures After(d, m, None, h, k) == SendEntry(m, Evaluated(d, m, None, h, k), h[k].t)
  {
  }

  lemma RecordedStep(d: Durations, m: Timing, h: seq<Evaluation>, k: nat, before: Option<Alert>, last: int, a: Alert, r: Alert)
    requires k < |h| && Increasing(h) && last < h[k].t && ZERO < h[k].t
    requires before.Some? ==> Settled(d, before.value, last) && Recorded(d, m, h, k, before.value)
    requires EvalEntry(d, before, h[k].t, h[k].found) == Some(a) && SendEntry(m, Some(a), h[k].t) == Some(r)
    requires After(d, m, None, h, k) == Some(r)
    ensures Recorded(d, m, h, k, a) && Recorded(d, m, h, k + 1, r)
    ensures a.activeAt == r.activeAt <= h[k].t && a.lastSentAt < h[k].t
  {
    EvaluateStep(d, before, last, h[k].t, h[k].found);
    SendStep(m, a, h[k].t);
    RecordedBefore(d, m, h, k, before, a);
    RecordedLater(d, m, h, k, a, r);
  }

  lemma {:induction false} LastSending(d: Durations, m: Timing, h: seq<Evaluation>, k: nat)
    requires k < |h| && Increasing(h)
    ensures
      var e, r := Evaluated(d, m, None, h, k), After(d, m, None, h, k);
      && (e.Some? <==> r.Some?)
      && (e.Some? ==>
        && Recorded(d, m, h, k, e.value) && Recorded(d, m, h, k + 1, r.value)
        && e.value.activeAt == r.value.activeAt <= h[k].t && e.value.lastSentAt < h[k].t)
  {
    if k > 0 {
      LastSending(d, m, h, k - 1);
    }
    var last := BeforeSettled(d, m, h, k);
    EvaluatedAndSent(d, m, h, k);
    var e, r := Evaluated(d, m, None, h, k), After(d, m, None, h, k);
    if e.Some? {
      RecordedStep(d, m, h, k, Before(d, m, h, k), last, e.value, r.value);
    }
  }

  /** An instance is sent at an evaluation if and only if it is not pending, and it is resolved at that
      evaluation or was not sent, since it became active, within the resend delay. */
  lemma SentIff(d: Durations, m: Timing, h: seq<Evaluation>, k: nat)
    requires k < |h| && Increasing(h)
    ensures
      var r := After(d, m, None, h, k);
      Sent(d, m, h, k) <==>
        && r.Some? && !r.value.state.Pending?
        && (r.value.resolvedAt == h[k].t
            || (h[k].t - ZERO > m.resendDelay
                && forall i :: 0 <= i < k && Sent(d, m, h, i) && h[i].t >= r.value.activeAt ==> h[k].t - h[i].t > m.resendDelay))
  {
    var e := Evaluated(d, m, None, h, k);
    LastSending(d, m, h, k);
    if e.Some? {
      SettledBefore(d, m, h, k);
      SendStep(m, e.value, h[k].t);
    }
  }

  lemma SettledBefore(d: Durations, m: Timing, h: seq<Evaluation>, k: nat)
    requires k < |h| && Increasing(h) && Evaluated(d, m, None, h, k).Some?
    ensures
      var a := Evaluated(d, m, None, h, k).value;
      (a.resolvedAt > a.lastSentAt <==> a.resolvedAt == h[k].t) && a.lastSentAt < h[k].t
  {
    if k == 0 {
      EvaluateStep(d, None, ZERO, h[k].t, h[k].found);
    } else {
      AlwaysSettled(d, m, h, k - 1);
      assert h[k - 1].t < h[k].t;
      EvaluateStep(d, After(d, m, None, h, k - 1), h[k - 1].t, h[k].t, h[k].found);
    }
  }

  /** An instance that was sent while it was active is not sent again before the resend delay has
      passed, unless it is resolved. */
  lemma NotResentEarly(d: Durations, m: Timing, h: seq<Evaluation>, i: nat, k: nat)
    requires i < k < |h| && Increasing(h) && Sent(d, m, h, i) && Sent(d, m, h, k)
    requires
      var r := After(d, m, None, h, k).value;
      r.activeAt <= h[i].t && r.resolvedAt != h[k].t
    ensures h[k].t - h[i].t > m.resendDelay
  {
    SentIff(d, m, h, k);
  }

  /** A resolution that was sent is not sent again before the resend delay has passed. */
  lemma ResolutionNotResentEarly(d: Durations, m: Timing, h: seq<Evaluation>, i: nat, k: nat)
    requires i < k < |h| && Increasing(h) && Sent(d, m, h, i) && Sent(d, m, h, k)
    requires Is(After(d, m, None, h, k), Inactive) && After(d, m, None, h, k).value.resolvedAt <= h[i].t
    ensures h[k].t - h[i].t > m.resendDelay
  {
    SentIff(d, m, h, k);
    AlwaysSettled(d, m, h, k);
    assert h[i].t < h[k].t;
  }

  // ---------------------------------------------------------------- what an entry shows

  /** An instance that is found shows the value found, and one that is not keeps the value it had. */
  lemma ShowsLatestValue(d: Durations, m: Timing, h: seq<Evaluation>, k: nat)
    requires k < |h|
    ensures
      var r := After(d, m, None, h, k);
      && (h[k].found.Some? ==> r.Some? && r.value.value == h[k].found.value)
      && (h[k].found.None? && r.Some? ==>
          k > 0 && After(d, m, None, h, k - 1).Some? && r.value.value == After(d, m, None, h, k - 1).value.value)
  {
  }

  /** f is the first evaluation at which the hold time of the instance was served. */
  ghost predicate FirstServed(d: Durations, h: seq<Evaluation>, f: nat, a: Alert)
    requires f < |h|
  {
    && h[f].t - a.activeAt >= d.hold && h[f].t >= a.activeAt
    && forall g :: 0 <= g < f && h[g].t >= a.activeAt ==> h[g].t - a.activeAt < d.hold
  }

  /** A firing alert began to fire at the first evaluation at which its hold time was served. */
  lemma {:induction false} FiredWhenServed(d: Durations, m: Timing, h: seq<Evaluation>, k: nat)
    requires k < |h| && Increasing(h) && Is(After(d, m, None, h, k), Firing)
    ensures
      var a := After(d, m, None, h, k).value;
      exists f :: 0 <= f <= k && h[f].t == a.firedAt && FirstServed(d, h, f, a)
  {
    var before, last := if k == 0 then None else After(d, m, None, h, k - 1), if k == 0 then ZERO else h[k - 1].t;
    assert last < h[k].t && ZERO < h[k].t;
    if k > 0 {
      AlwaysSettled(d, m, h, k - 1);
    }
    var r := SendEntry(m, EvalEntry(d, before, h[k].t, h[k].found), h[k].t);
    assert After(d, m, None, h, k) == r;
    if Is(before, Firing) {
      FiredWhenServed(d, m, h, k - 1);
      var f :| 0 <= f <= k - 1 && h[f].t == before.value.firedAt && FirstServed(d, h, f, before.value);
      GoesOnFiring(d, m, before.value, last, h[k].t, h[k].found);
      assert 0 <= f <= k && FirstServed(d, h, f, r.value);
    } else {
      BeginsToFire(d, m, before, last, h[k].t, h[k].found);
      ServedNow(d, h, k, r.value);
    }
  }

  lemma GoesOnFiring(d: Durations, m: Timing, before: Alert, last: int, ts: int, found: Option<real>)
    requires Settled(d, before, last) && last < ts && before.state.Firing?
    requires Is(SendEntry(m, EvalEntry(d, Some(before), ts, found), ts), Firing)
    ensures
      var a := SendEntry(m, EvalEntry(d, Some(before), ts, found), ts).value;
      a.firedAt == before.firedAt && a.activeAt == before.activeAt
  {
  }

  /** An entry that begins to fire had not served its hold time at the evaluation before. */
  lemma BeginsToFire(d: Durations, m: Timing, before: Option<Alert>, last: int, ts: int, found: Option<real>)
    requires (before.Some? ==> Settled(d, before.value, last)) && ZERO < ts && last < ts
    requires !Is(before, Firing) && Is(SendEntry(m, EvalEntry(d, before, ts, found), ts), Firing)
    ensures
      var a := SendEntry(m, EvalEntry(d, before, ts, found), ts).value;
      && a.firedAt == ts && ts >= a.activeAt && ts - a.activeAt >= d.hold
      && (last < a.activeAt || last - a.activeAt < d.hold)
  {
  }

  lemma ServedNow(d: Durations, h: seq<Evaluation>, k: nat, a: Alert)
    requires k < |h| && Increasing(h) && h[k].t >= a.activeAt && h[k].t - a.activeAt >= d.hold
    requires k > 0 ==> h[k - 1].t < a.activeAt || h[k - 1].t - a.activeAt < d.hold
    ensures FirstServed(d, h, k, a)
  {
    forall g | 0 <= g < k && h[g].t >= a.activeAt ensures h[g].t - a.activeAt < d.hold {
      assert g < k - 1 ==> h[g].t < h[k - 1].t;
    }
  }

  // ---------------------------------------------------------------- when an entry is forgotten

  /** A pending instance that is not found any more is forgotten at once. */
  lemma PendingForgotten(d: Durations, m: Timing, h: seq<Evaluation>, k: nat)
    requires 0 < k < |h| && Is(After(d, m, None, h, k - 1), Pending) && h[k].found.None?
    ensures After(d, m, None, h, k) == None
  {
  }

  /** A resolved instance is forgotten at the first evaluation more than fifteen minutes after it was
      resolved, and until then stays as it is but for the sending. */
  lemma ResolvedForgotten(d: Durations, m: Timing, h: seq<Evaluation>, k: nat)
    requires 0 < k < |h| && Increasing(h) && Is(After(d, m, None, h, k - 1), Inactive) && h[k].found.None?
    ensures
      var a, r := After(d, m, None, h, k - 1).value, After(d, m, None, h, k);
      && (r.None? <==> h[k].t - a.resolvedAt > 900_000_000_000)
      && (r.Some? ==> r.value == a.(lastSentAt := r.value.lastSentAt, validUntil := r.value.validUntil))
  {
    AlwaysSettled(d, m, h, k - 1);
  }

  // ---------------------------------------------------------------- times read back after a crash

  /** Seconds with a fraction are cut towards zero, and so are milliseconds. */
  lemma CutTowardsZero(v: real, t: int)
    ensures v >= 0.0 ==> 0.0 <= Truncate(v) as real <= v < Truncate(v) as real + 1.0
    ensures v <= 0.0 ==> 0.0 >= Truncate(v) as real >= v > Truncate(v) as real - 1.0
    ensures
      var down := DownAt(ForStateSample(t, v, false));
      && down % SECOND == 0
      && (t >= 0 ==> 0 <= down <= t * 1_000_000 < down + SECOND)
      && (t <= 0 ==> 0 >= down >= t * 1_000_000 > down - SECOND)
    ensures StoredActiveAt(ForStateSample(t, v, false)) == Truncate(v) * 1_000_000_000
  {
  }
}
