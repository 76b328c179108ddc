/** Runs of the discovery manager in terms of their events alone: what every subscriber holds follows from
    the updates that the discoverers sent and the configurations that were applied. */
module DiscoveryRuns {
  import opened Basics
  import opened Discovery

  /** The updates that a discoverer sent in a run. */
  ghost function UpdatesFrom(events: seq<Event>, id: nat): seq<Update> {
    if events == [] then []
    else
      (if events[0].Receive? && events[0].id == id then [events[0].update] else []) + UpdatesFrom(events[1..], id)
  }

  /** The updates of a provider that its updater has taken. */
  ghost function TakenIn(s: State, id: nat): seq<Update> {
    if id !in s.providers then []
    else
      var p := s.providers[id];
      p.log + if p.updater.Received? then [p.updater.update] else []
  }

  lemma TakenInReload(s: State, e: Event, id: nat)
    requires ProvidersOk(s) && Enabled(s, e) && ReloadEvent(e)
    ensures TakenIn(Apply(s, e), id) == TakenIn(s, id)
  {
    if id in s.providers {
      assert Sound(s.providers[id]) && Placed(s, id, s.providers[id]);
    }
  }

  lemma TakenBySender(s: State, e: Event, id: nat)
    requires Enabled(s, e) && SenderEvent(e)
    ensures TakenIn(Apply(s, e), id) == TakenIn(s, id)
  {
    assert Apply(s, e).providers == s.providers;
  }

  lemma TakenByUpdater(s: State, e: Event, id: nat)
    requires Enabled(s, e) && !ReloadEvent(e) && !SenderEvent(e)
    ensures TakenIn(Apply(s, e), id) == TakenIn(s, id) + if e.Receive? && e.id == id then [e.update] else []
  {
    var r := Apply(s, e);
    if e.Lock? && e.id == id {
      assert r.providers[id].log == TakenIn(s, id);
    }
    assert id in r.providers <==> id in s.providers;
  }

  lemma TakenStep(s: State, e: Event, id: nat)
    requires ProvidersOk(s) && Enabled(s, e)
    ensures TakenIn(Apply(s, e), id) == TakenIn(s, id) + if e.Receive? && e.id == id then [e.update] else []
  {
    if ReloadEvent(e) {
      TakenInReload(s, e, id);
    } else if SenderEvent(e) {
      TakenBySender(s, e, id);
    } else {
      TakenByUpdater(s, e, id);
    }
  }

  /** What one event adds. */
  ghost function UpdateIn(e: Event, id: nat): seq<Update> {
    if e.Receive? && e.id == id then [e.update] else []
  }

  lemma SoundStep(s: State, e: Event, id: nat, r: State)
    requires Inv(s) && Enabled(s, e) && r == Apply(s, e)
    ensures Inv(r) && TakenIn(r, id) == TakenIn(s, id) + UpdateIn(e, id)
  {
    StepInv(s, e);
    TakenStep(s, e, id);
  }

  lemma RunStep(s: State, events: seq<Event>, id: nat, r: State)
    requires Run(s, events) && events != [] && r == Apply(s, events[0])
    ensures Run(r, events[1..]) && Final(s, events) == Final(r, events[1..])
    ensures UpdatesFrom(events, id) == UpdateIn(events[0], id) + UpdatesFrom(events[1..], id)
  {
  }

  lemma Added(a: seq<Update>, b: seq<Update>, c: seq<Update>, before: seq<Update>, all: seq<Update>, end: seq<Update>)
    requires a == before + b && end == a + c && all == b + c
    ensures end == before + all
  {
  }

  lemma {:induction false} TakenOverRun(s: State, events: seq<Event>, id: nat)
    requires Inv(s) && Run(s, events)
    ensures TakenIn(Final(s, events), id) == TakenIn(s, id) + UpdatesFrom(events, id)
    decreases |events|
  {
    if events == [] {
      assert TakenIn(s, id) + [] == TakenIn(s, id);
    } else {
      var r := Apply(s, events[0]);
      RunStep(s, events, id, r);
      SoundStep(s, events[0], id, r);
      TakenOverRun(r, events[1..], id);
      Added(TakenIn(r, id), UpdateIn(events[0], id), UpdatesFrom(events[1..], id), TakenIn(s, id),
            UpdatesFrom(events, id), TakenIn(Final(s, events), id));
    }
  }

  /** A subscriber of a live provider whose updater has nothing to do holds what all updates of the
      discoverer since the start of the manager amount to. */
  lemma HoldsAllUpdates(events: seq<Event>, id: nat, sub: string)
    requires Run(Init(), events)
    requires
      var s := Final(Init(), events);
      && id in s.live && id in s.providers && s.providers[id].phase.Running? && sub in s.providers[id].subs
      && !s.providers[id].updater.Broadcasting? && !s.providers[id].updater.Received?
    ensures Held(Final(Init(), events).targets, sub, id) == Replay(UpdatesFrom(events, id))
  {
    CatchUp(events, id, sub);
    TakenSinceStart(events, id);
    NothingPending(Final(Init(), events), id);
  }

  lemma NothingPending(s: State, id: nat)
    requires id in s.providers && !s.providers[id].updater.Received?
    ensures TakenIn(s, id) == s.providers[id].log
  {
  }

  lemma TakenSinceStart(events: seq<Event>, id: nat)
    requires Run(Init(), events)
    ensures TakenIn(Final(Init(), events), id) == UpdatesFrom(events, id)
  {
    var none: seq<Update> := [];
    TakenOverRun(Init(), events, id);
    assert TakenIn(Init(), id) == none && none + UpdatesFrom(events, id) == UpdatesFrom(events, id);
  }

  /** For every source it holds the group that was sent last, unless that one had no targets. */
  lemma HoldsLatestGroup(events: seq<Event>, id: nat, sub: string, i: nat, j: nat, source: string)
    requires Run(Init(), events) && LatestMention(UpdatesFrom(events, id), i, j, source)
    requires
      var s := Final(Init(), events);
      && id in s.live && id in s.providers && s.providers[id].phase.Running? && sub in s.providers[id].subs
      && !s.providers[id].updater.Broadcasting? && !s.providers[id].updater.Received?
    ensures
      var g, held := UpdatesFrom(events, id)[i][j].value, Held(Final(Init(), events).targets, sub, id);
      if |g.targets| > 0 then source in held && held[source] == g else source !in held
  {
    HoldsAllUpdates(events, id, sub);
    ReplayHasLatest(UpdatesFrom(events, id), i, j, source);
  }

  /** The subscribers that the last configuration in a run asks for. */
  ghost function Asked(events: seq<Event>, before: map<nat, set<string>>): map<nat, set<string>> {
    if events == [] then before
    else Asked(events[1..], if events[0].Begin? then events[0].wants + events[0].added else before)
  }

  lemma {:induction false} AskedOverRun(s: State, events: seq<Event>)
    requires Run(s, events)
    ensures Final(s, events).want == Asked(events, s.want)
    decreases |events|
  {
    if events != [] {
      AskedOverRun(Apply(s, events[0]), events[1..]);
    }
  }

  /** Between reloads the live providers are those that the last configuration asks for, with exactly the
      subscribers it asks for. */
  lemma LiveAsAsked(events: seq<Event>, id: nat)
    requires Run(Init(), events) && Final(Init(), events).reload.NoReload?
    ensures
      var s, asked := Final(Init(), events), Asked(events, map[]);
      && (id in s.live <==> id in asked && asked[id] != {})
      && (id in s.live ==> id in s.providers && s.providers[id].phase.Running? && s.providers[id].subs == asked[id])
  {
    NoOrphans(events);
    AskedOverRun(Init(), events);
  }
}
