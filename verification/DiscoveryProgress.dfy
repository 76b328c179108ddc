/** The discovery manager cannot get stuck: from every state that a run reaches, its own events bring it to
    rest, with every update delivered to the consumer. */
module DiscoveryProgress {
  import opened Basics
  import opened Discovery
  import opened DiscoveryRuns

  /** What the manager does by itself: no new configuration, no new update, and the consumer accepts. */
  ghost predicate Internal(e: Event) {
    !e.Begin? && !e.Receive? && (e.SenderDeliver? ==> e.accepted)
  }

  ghost predicate Resting(p: Provider) {
    p.updater.Off? || (p.updater.Idle? && !p.phase.Cancelled?)
  }

  ghost predicate AtRest(s: State) {
    && s.reload.NoReload? && !s.trigger && s.sender.Ready?
    && forall id :: id in s.providers ==> Resting(s.providers[id])
  }

  // ---------------------------------------------------------------- how much is left to do

  ghost function ReloadWork(s: State): nat {
    match s.reload
    case NoReload => 0
    case Awaiting(_) => 1
    case Visiting(todo, _) => 3 * |todo| + 2
    case Dropping(_, todo, _) => 3 * |todo| + 4
    case Starting(_, todo, _) => 3 * |todo| + 4
  }

  ghost function ProviderWork(p: Provider): nat {
    match p.updater
    case Off => 0
    case Idle => if p.phase.Cancelled? then 2 else 0
    case Leaving => 1
    case Signalling => 3
    case Broadcasting(_, remaining) => 4 + |remaining|
    case Received(_) => 5 + |p.subs|
  }

  /** Work of the providers with numbers below n. */
  ghost function UpdaterWork(providers: map<nat, Provider>, n: nat): nat {
    if n == 0 then 0
    else UpdaterWork(providers, n - 1) + if n - 1 in providers then ProviderWork(providers[n - 1]) else 0
  }

  ghost function SenderWork(s: State): nat {
    (if s.trigger then |s.live| + 6 else 0) +
    match s.sender
    case Ready => 0
    case Taken => |s.live| + 4
    case Reading(unvisited, _) => |unvisited| + 2
    case Read(_) => 1
    case Retry => |s.live| + 12
  }

  lemma {:induction false} LessWork(before: map<nat, Provider>, after: map<nat, Provider>, id: nat, n: nat)
    requires id in before && id in after && after == before[id := after[id]]
    requires ProviderWork(after[id]) < ProviderWork(before[id])
    ensures UpdaterWork(after, n) <= UpdaterWork(before, n)
    ensures id < n ==> UpdaterWork(after, n) < UpdaterWork(before, n)
  {
    if n > 0 {
      LessWork(before, after, id, n - 1);
    }
  }

  // ---------------------------------------------------------------- what is known all the time

  ghost predicate Known(s: State) {
    && (s.reload.Starting? ==> s.reload.started in s.providers)
    && (s.reload.Awaiting? ==> s.reload.cancelled <= s.providers.Keys && s.reload.cancelled !! s.live)
  }

  ghost predicate Reachable(s: State, n: nat) {
    && ProvidersOk(s) && SenderOk(s) && Known(s)
    && forall id :: id in s.providers ==> id < n
  }

  lemma KnownStep(s: State, e: Event)
    requires ProvidersOk(s) && Known(s) && Enabled(s, e)
    ensures Known(Apply(s, e))
  {
    if SenderEvent(e) {
      SenderFrame(s, e);
    } else if ReloadEvent(e) {
      KnownInReload(s, e);
    } else {
      UpdaterFrame(s, e, e.id);
    }
  }

  lemma KnownInReload(s: State, e: Event)
    requires ProvidersOk(s) && Known(s) && Enabled(s, e) && ReloadEvent(e)
    ensures Known(Apply(s, e))
  {
  }

  lemma SenderOkStep(s: State, e: Event)
    requires ProvidersOk(s) && SenderOk(s) && Enabled(s, e)
    ensures SenderOk(Apply(s, e))
  {
    if ReloadEvent(e) {
      SenderOkInReload(s, e);
    } else if SenderEvent(e) {
      SenderOkBySender(s, e);
    } else {
      SenderOkByUpdater(s, e);
    }
  }

  lemma SameProviders(s: State, e: Event)
    requires Enabled(s, e) && Internal(e)
    ensures Apply(s, e).providers.Keys == s.providers.Keys
  {
  }

  lemma ReachableStep(s: State, n: nat, e: Event)
    requires Reachable(s, n) && Enabled(s, e) && Internal(e)
    ensures Reachable(Apply(s, e), n)
  {
    StepProviders(s, e);
    SenderOkStep(s, e);
    KnownStep(s, e);
    SameProviders(s, e);
  }

  // ---------------------------------------------------------------- one event closer

  /** Less is left to do: of the reload, or of the updaters, or of the sender. */
  ghost predicate Closer(r: State, s: State, n: nat) {
    || ReloadWork(r) < ReloadWork(s)
    || (ReloadWork(r) == ReloadWork(s) && UpdaterWork(r.providers, n) < UpdaterWork(s.providers, n))
    || (ReloadWork(r) == ReloadWork(s) && UpdaterWork(r.providers, n) == UpdaterWork(s.providers, n)
        && SenderWork(r) < SenderWork(s))
  }

  ghost predicate Progresses(s: State, n: nat, e: Event) {
    Enabled(s, e) && Internal(e) && Closer(Apply(s, e), s, n)
  }

  lemma UpdaterProvider(s: State, id: nat) returns (e: Event)
    requires id in s.providers && !Resting(s.providers[id])
    ensures Enabled(s, e) && Internal(e)
    ensures
      var r := Apply(s, e);
      && r.reload == s.reload && id in r.providers && r.providers == s.providers[id := r.providers[id]]
      && ProviderWork(r.providers[id]) < ProviderWork(s.providers[id])
  {
    match s.providers[id].updater
    case Idle => e := Leave(id);
    case Leaving => e := Clean(id);
    case Signalling => e := Signal(id);
    case Received(_) => e := Lock(id);
    case Broadcasting(_, remaining) =>
      if remaining == {} {
        e := Unlock(id);
      } else {
        var sub :| sub in remaining;
        e := UpdateSub(id, sub);
      }
  }

  lemma UpdaterProgresses(s: State, n: nat, id: nat) returns (e: Event)
    requires id in s.providers && !Resting(s.providers[id]) && id < n
    ensures Progresses(s, n, e)
  {
    e := UpdaterProvider(s, id);
    LessWork(s.providers, Apply(s, e).providers, id, n);
  }

  lemma FinishProgresses(s: State, n: nat)
    requires s.reload.Visiting? && s.reload.todo == {}
    ensures Progresses(s, n, Finish)
  {
  }

  lemma CancelProgresses(s: State, n: nat, id: nat)
    requires s.reload.Visiting? && id in s.reload.todo && id in s.providers
    requires s.providers[id].newSubs == {} && Started(s.providers[id])
    ensures Progresses(s, n, Cancel(id))
  {
  }

  lemma KeepProgresses(s: State, n: nat, id: nat, ref: string)
    requires s.reload.Visiting? && id in s.reload.todo && id in s.providers
    requires !(s.providers[id].newSubs == {} && Started(s.providers[id])) && !s.providers[id].updater.Broadcasting?
    requires s.providers[id].subs != {} ==> ref in s.providers[id].subs
    ensures Progresses(s, n, Keep(id, ref))
  {
  }

  lemma VisitProgresses(s: State, n: nat) returns (e: Event)
    requires Reachable(s, n) && s.reload.Visiting?
    ensures Progresses(s, n, e)
  {
    if s.reload.todo == {} {
      e := Finish;
      FinishProgresses(s, n);
    } else {
      var id :| id in s.reload.todo;
      var p := s.providers[id];
      if p.newSubs == {} && Started(p) {
        e := Cancel(id);
        CancelProgresses(s, n, id);
      } else if p.updater.Broadcasting? {
        e := UpdaterProgresses(s, n, id);
      } else {
        var ref := "";
        if p.subs != {} {
          ref :| ref in p.subs;
        }
        e := Keep(id, ref);
        KeepProgresses(s, n, id, ref);
      }
    }
  }

  lemma AwaitProgresses(s: State, n: nat) returns (e: Event)
    requires Reachable(s, n) && s.reload.Awaiting?
    ensures Progresses(s, n, e)
  {
    if forall id :: id in s.reload.cancelled ==> s.providers[id].phase.Down? {
      e := Return;
    } else {
      var id :| id in s.reload.cancelled && !s.providers[id].phase.Down?;
      assert Sound(s.providers[id]) && Placed(s, id, s.providers[id]);
      e := UpdaterProgresses(s, n, id);
    }
  }

  /** A step of the sender, which leaves the providers and the reload alone. */
  ghost predicate SenderStep(s: State, e: Event) {
    && Enabled(s, e) && SenderEvent(e) && Internal(e)
    && SenderWork(Apply(s, e)) < SenderWork(s)
  }

  lemma SenderTakes(s: State)
    requires s.reload.NoReload? && ((s.sender.Ready? && s.trigger) || s.sender.Taken?)
    ensures SenderStep(s, if s.sender.Ready? then SenderTake else SenderBegin)
  {
  }

  lemma SenderReads(s: State, id: nat)
    requires s.sender.Reading? && (if s.sender.unvisited == {} then true else id in s.sender.unvisited && id in s.providers)
    ensures SenderStep(s, if s.sender.unvisited == {} then SenderEnd else SenderVisit(id))
  {
  }

  lemma SenderEnds(s: State)
    requires s.sender.Read? || s.sender.Retry?
    ensures SenderStep(s, if s.sender.Read? then SenderDeliver(true) else SenderRetry)
  {
  }

  lemma SenderStepProgresses(s: State, n: nat, e: Event)
    requires SenderStep(s, e)
    ensures Progresses(s, n, e)
  {
    SenderFrame(s, e);
  }

  lemma SenderProgresses(s: State, n: nat) returns (e: Event)
    requires Reachable(s, n) && s.reload.NoReload? && (s.trigger || !s.sender.Ready?)
    ensures Progresses(s, n, e)
  {
    if s.sender.Ready? || s.sender.Taken? {
      SenderTakes(s);
      e := if s.sender.Ready? then SenderTake else SenderBegin;
    } else if s.sender.Reading? {
      var id := 0;
      if s.sender.unvisited != {} {
        id :| id in s.sender.unvisited;
      }
      SenderReads(s, id);
      e := if s.sender.unvisited == {} then SenderEnd else SenderVisit(id);
    } else {
      SenderEnds(s);
      e := if s.sender.Read? then SenderDeliver(true) else SenderRetry;
    }
    SenderStepProgresses(s, n, e);
  }

  /** Unless the manager is at rest, something that it does by itself brings it closer. */
  lemma SomethingProgresses(s: State, n: nat) returns (e: Event)
    requires Reachable(s, n) && !AtRest(s)
    ensures Progresses(s, n, e)
  {
    match s.reload
    case Visiting(_, _) => e := VisitProgresses(s, n);
    case Dropping(_, _, _) => e := Drop;
    case Starting(_, _, _) => e := Start;
    case Awaiting(_) => e := AwaitProgresses(s, n);
    case NoReload =>
      if forall id :: id in s.providers ==> Resting(s.providers[id]) {
        e := SenderProgresses(s, n);
      } else {
        var id :| id in s.providers && !Resting(s.providers[id]);
        e := UpdaterProgresses(s, n, id);
      }
  }

  // ---------------------------------------------------------------- to rest

  ghost predicate AllInternal(events: seq<Event>) {
    forall k :: 0 <= k < |events| ==> Internal(events[k])
  }

  lemma {:induction false} ComesToRest(s: State, n: nat) returns (events: seq<Event>)
    requires Reachable(s, n)
    ensures Run(s, events) && AllInternal(events) && AtRest(Final(s, events))
    decreases ReloadWork(s), UpdaterWork(s.providers, n), SenderWork(s)
  {
    events := [];
    if !AtRest(s) {
      var e := SomethingProgresses(s, n);
      ReachableStep(s, n, e);
      var rest := ComesToRest(Apply(s, e), n);
      events := FirstThen(s, e, rest);
    }
  }

  lemma FirstThen(s: State, e: Event, rest: seq<Event>) returns (events: seq<Event>)
    requires Enabled(s, e) && Internal(e) && Run(Apply(s, e), rest) && AllInternal(rest)
    ensures events == [e] + rest && Run(s, events) && AllInternal(events)
    ensures Final(s, events) == Final(Apply(s, e), rest)
  {
    events := [e] + rest;
    assert events[1..] == rest;
  }

  // ---------------------------------------------------------------- after any run

  ghost predicate Proper(s: State) {
    Inv(s) && SenderOk(s) && Known(s)
  }

  lemma {:induction false} StaysProper(s: State, events: seq<Event>)
    requires Proper(s) && Run(s, events)
    ensures Proper(Final(s, events))
    decreases |events|
  {
    if events != [] {
      ProperStep(s, events[0]);
      StaysProper(Apply(s, events[0]), events[1..]);
    }
  }

  lemma ProperStep(s: State, e: Event)
    requires Proper(s) && Enabled(s, e)
    ensures Proper(Apply(s, e))
  {
    StepInv(s, e);
    SenderOkStep(s, e);
    KnownStep(s, e);
  }

  /** A number above all elements. */
  lemma {:induction false} Above(ids: set<nat>) returns (n: nat)
    ensures forall id :: id in ids ==> id < n
    decreases |ids|
  {
    n := 0;
    if ids != {} {
      var id :| id in ids;
      var m := Above(ids - {id});
      assert forall x :: x in ids ==> x == id || x in ids - {id};
      n := if m > id then m else id + 1;
    }
  }

  lemma {:induction false} RunJoined(s: State, a: seq<Event>, b: seq<Event>)
    requires Run(s, a) && Run(Final(s, a), b)
    ensures Run(s, a + b) && Final(s, a + b) == Final(Final(s, a), b)
    decreases |a|
  {
    if a == [] {
      assert a + b == b;
    } else {
      assert (a + b)[0] == a[0] && (a + b)[1..] == a[1..] + b;
      RunJoined(Apply(s, a[0]), a[1..], b);
    }
  }

  lemma {:induction false} NoMoreUpdates(a: seq<Event>, b: seq<Event>, id: nat)
    requires AllInternal(b)
    ensures UpdatesFrom(a + b, id) == UpdatesFrom(a, id)
    decreases |a| + |b|
  {
    if a != [] {
      assert (a + b)[0] == a[0] && (a + b)[1..] == a[1..] + b;
      NoMoreUpdates(a[1..], b, id);
    } else if b != [] {
      assert a + b == b;
      assert Internal(b[0]);
      assert forall k :: 0 <= k < |b[1..]| ==> Internal(b[1..][k]) by {
        assert forall k :: 0 <= k < |b[1..]| ==> b[1..][k] == b[k + 1];
      }
      NoMoreUpdates([], b[1..], id);
      assert [] + b[1..] == b[1..];
    }
  }

  /** What the consumer has at the end: nothing is on its way, and for every subscriber of every live provider
      it has what all updates of the discoverer amount to. */
  ghost predicate AllDelivered(s: State, updates: nat -> seq<Update>) {
    && AtRest(s)
    && forall id, sub :: id in s.live && id in s.providers && sub in s.providers[id].subs ==>
         Held(s.delivered, sub, id) == Replay(updates(id))
  }

  /** Whatever has happened, the manager's own events can bring every update to the consumer. */
  lemma EverythingArrives(before: seq<Event>) returns (events: seq<Event>)
    requires Run(Init(), before)
    ensures AllInternal(events) && Run(Init(), before + events)
    ensures AllDelivered(Final(Init(), before + events), (id: nat) => UpdatesFrom(before, id))
  {
    StaysProper(Init(), before);
    var s := Final(Init(), before);
    var n := Above(s.providers.Keys);
    events := ComesToRest(s, n);
    RunJoined(Init(), before, events);
    forall id, sub |
      var f := Final(Init(), before + events);
      id in f.live && id in f.providers && sub in f.providers[id].subs
      ensures Held(Final(Init(), before + events).delivered, sub, id) == Replay(UpdatesFrom(before, id))
    {
      DeliveredAtRest(before + events, id, sub);
      NoMoreUpdates(before, events, id);
    }
  }

  lemma DeliveredAtRest(events: seq<Event>, id: nat, sub: string)
    requires Run(Init(), events)
    requires
      var s := Final(Init(), events);
      AtRest(s) && id in s.live && id in s.providers && sub in s.providers[id].subs
    ensures Held(Final(Init(), events).delivered, sub, id) == Replay(UpdatesFrom(events, id))
  {
    var s := Final(Init(), events);
    forall i | i in s.providers ensures !Announcing(s, i) {
      assert Resting(s.providers[i]);
    }
    NothingUnsentAtRest(events, sub, id);
    Safety(Init(), events);
    assert Sound(s.providers[id]) && Placed(s, id, s.providers[id]) && Resting(s.providers[id]);
    HoldsAllUpdates(events, id, sub);
  }
}
