/** The discovery manager: providers deliver updates of target groups, an updater per provider copies
    each update to the provider's subscribers one at a time, and a reconfiguration adds and removes
    providers and subscribers while the updaters go on.

    One event stands for each region under a mutex and each channel operation.  A provider's mutex is
    held for reading during a whole broadcast, which spans several events.  The sender takes the
    providers' mutexes one after the other while it holds the manager's for reading, so that updates go on
    between its visits but reconfigurations do not. */
module Discovery {
  import opened Basics

  datatype Group = Group(source: string, targets: seq<string>)

  type Groups = map<string, Group>

  /** Discoverers may send nil groups. */
  type Update = seq<Option<Group>>

  // ---------------------------------------------------------------- updates

  /** A group without targets removes its entry. */
  function ApplyGroup(groups: Groups, x: Option<Group>): Groups {
    if x.None? then groups
    else if |x.value.targets| > 0 then groups[x.value.source := x.value]
    else groups - {x.value.source}
  }

  function ApplyGroups(groups: Groups, u: Update, n: nat): Groups
    requires n <= |u|
  {
    if n == 0 then groups else ApplyGroup(ApplyGroups(groups, u, n - 1), u[n - 1])
  }

  function ApplyUpdate(groups: Groups, u: Update): Groups {
    ApplyGroups(groups, u, |u|)
  }

  /** The groups after all updates since the start. */
  function Replay(log: seq<Update>): Groups {
    if |log| == 0 then map[] else ApplyUpdate(Replay(log[..|log| - 1]), log[|log| - 1])
  }

  /** The latest mention of a source in a history decides its group. */
  ghost predicate LatestMention(log: seq<Update>, i: nat, j: nat, source: string) {
    && i < |log| && j < |log[i]| && log[i][j].Some? && log[i][j].value.source == source
    && (forall b :: j < b < |log[i]| && log[i][b].Some? ==> log[i][b].value.source != source)
    && (forall a, b :: i < a < |log| && 0 <= b < |log[a]| && log[a][b].Some? ==> log[a][b].value.source != source)
  }

  lemma {:induction false} UnmentionedKept(groups: Groups, u: Update, j: nat, n: nat, source: string)
    requires j <= n <= |u| && forall b :: j <= b < n && u[b].Some? ==> u[b].value.source != source
    ensures
      var before, after := ApplyGroups(groups, u, j), ApplyGroups(groups, u, n);
      (source in after <==> source in before) && (source in after ==> after[source] == before[source])
    decreases n
  {
    if j < n {
      UnmentionedKept(groups, u, j, n - 1, source);
    }
  }

  lemma {:induction false} ReplayHasLatest(log: seq<Update>, i: nat, j: nat, source: string)
    requires LatestMention(log, i, j, source)
    ensures
      var g := log[i][j].value;
      if |g.targets| > 0 then source in Replay(log) && Replay(log)[source] == g else source !in Replay(log)
    decreases |log|
  {
    var shorter, last := log[..|log| - 1], log[|log| - 1];
    if i == |log| - 1 {
      UnmentionedKept(Replay(shorter), last, j + 1, |last|, source);
    } else {
      assert LatestMention(shorter, i, j, source);
      ReplayHasLatest(shorter, i, j, source);
      UnmentionedKept(Replay(shorter), last, 0, |last|, source);
    }
  }

  // ---------------------------------------------------------------- state

  datatype Key = Key(sub: string, id: nat)

  datatype Phase = Fresh | Running | Cancelled | Down

  datatype Updater =
    | Off
    | Idle
    | Received(update: Update)
    | Broadcasting(current: Update, remaining: set<string>)  // holds the provider's mutex for reading
    | Signalling
    | Leaving

  /** log is history: the updates whose broadcast began since the provider was started. */
  datatype Provider = Provider(phase: Phase, subs: set<string>, newSubs: set<string>, updater: Updater, log: seq<Update>)

  datatype Reload =
    | NoReload
    | Visiting(todo: set<nat>, kept: set<nat>)
    | Dropping(dropped: nat, todo: set<nat>, kept: set<nat>)
    | Starting(started: nat, todo: set<nat>, kept: set<nat>)
    | Awaiting(cancelled: set<nat>)

  /** What the consumer gets. */
  type Snapshot = map<Key, Groups>

  datatype Sender =
    | Ready
    | Taken
    | Reading(unvisited: set<nat>, seen: Snapshot)  // holds the manager's mutex for reading
    | Read(complete: Snapshot)
    | Retry

  /** The last three fields are history: the subscribers the latest configuration asks for, the snapshot
      that was delivered last, and the providers with a change that may have come after the sender's last
      visit or was not delivered. */
  datatype State = State(
    providers: map<nat, Provider>, live: set<nat>, targets: map<Key, Groups>,
    reload: Reload, trigger: bool, sender: Sender, want: map<nat, set<string>>, delivered: Snapshot, unsent: set<nat>)

  function Init(): State {
    State(map[], {}, map[], NoReload, false, Ready, map[], map[], {})
  }

  function Held(targets: map<Key, Groups>, sub: string, id: nat): Groups {
    if Key(sub, id) in targets then targets[Key(sub, id)] else map[]
  }

  datatype Event =
    | Begin(wants: map<nat, set<string>>, added: map<nat, set<string>>)
    | Cancel(id: nat)
    | Drop
    | Keep(id: nat, ref: string)
    | Start
    | Finish
    | Return
    | Receive(id: nat, update: Update)
    | Lock(id: nat)
    | UpdateSub(id: nat, sub: string)
    | Unlock(id: nat)
    | Signal(id: nat)
    | Leave(id: nat)
    | Clean(id: nat)
    | SenderTake
    | SenderBegin
    | SenderVisit(id: nat)
    | SenderEnd
    | SenderDeliver(accepted: bool)
    | SenderRetry

  predicate Started(p: Provider) {
    !p.phase.Fresh? && !p.phase.Down?
  }

  ghost predicate Enabled(s: State, e: Event) {
    match e
    case Begin(wants, added) =>
      && s.reload.NoReload? && !s.sender.Reading? && wants.Keys == s.live && added.Keys !! s.providers.Keys
      && (forall id :: id in added ==> added[id] != {})
    case Cancel(id) =>
      && s.reload.Visiting? && id in s.reload.todo && id in s.providers
      && s.providers[id].newSubs == {} && Started(s.providers[id])
    case Drop => s.reload.Dropping? && s.reload.dropped in s.providers
    case Keep(id, ref) =>
      && s.reload.Visiting? && id in s.reload.todo && id in s.providers
      && !(s.providers[id].newSubs == {} && Started(s.providers[id]))
      && !s.providers[id].updater.Broadcasting?
      && (s.providers[id].subs != {} ==> ref in s.providers[id].subs)
    case Start => s.reload.Starting? && s.reload.started in s.providers
    case Finish => s.reload.Visiting? && s.reload.todo == {}
    case Return =>
      s.reload.Awaiting? && forall id :: id in s.reload.cancelled ==> id in s.providers && s.providers[id].phase.Down?
    case Receive(id, _) => id in s.providers && s.providers[id].updater.Idle?
    case Lock(id) => id in s.providers && s.providers[id].updater.Received?
    case UpdateSub(id, sub) =>
      id in s.providers && s.providers[id].updater.Broadcasting? && sub in s.providers[id].updater.remaining
    case Unlock(id) =>
      id in s.providers && s.providers[id].updater.Broadcasting? && s.providers[id].updater.remaining == {}
    case Signal(id) => id in s.providers && s.providers[id].updater.Signalling?
    case Leave(id) => id in s.providers && s.providers[id].updater.Idle? && s.providers[id].phase.Cancelled?
    case Clean(id) => id in s.providers && s.providers[id].updater.Leaving?
    case SenderTake => s.sender.Ready? && s.trigger
    case SenderBegin => s.sender.Taken? && s.reload.NoReload?
    case SenderVisit(id) => s.sender.Reading? && id in s.sender.unvisited && id in s.providers
    case SenderEnd => s.sender.Reading? && s.sender.unvisited == {}
    case SenderDeliver(_) => s.sender.Read?
    case SenderRetry => s.sender.Retry?
  }

  function Without(targets: map<Key, Groups>, id: nat, subs: set<string>): map<Key, Groups> {
    map k | k in targets && !(k.id == id && k.sub in subs) :: targets[k]
  }

  /** Obsolete subscribers lose their targets, and the new ones get a copy of the reference. */
  function Resubscribed(targets: map<Key, Groups>, id: nat, p: Provider, ref: Groups): map<Key, Groups> {
    var cleared := Without(targets, id, p.subs - p.newSubs);
    if |ref| > 0 then cleared + (map sub | sub in p.newSubs :: Key(sub, id) := ref) else cleared
  }

  function Registered(s: State, wants: map<nat, set<string>>, added: map<nat, set<string>>): map<nat, Provider> {
    map id | id in s.providers.Keys + added.Keys ::
      if id in s.providers then
        if id in wants then s.providers[id].(newSubs := wants[id]) else s.providers[id]
      else Provider(Fresh, {}, added[id], Off, [])
  }

  function SetProvider(s: State, id: nat, p: Provider): State {
    s.(providers := s.providers[id := p])
  }

  ghost function Apply(s: State, e: Event): State
    requires Enabled(s, e)
  {
    match e
    case Begin(wants, added) =>
      s.(providers := Registered(s, wants, added), live := s.live + added.Keys, want := wants + added,
         reload := Visiting(s.live + added.Keys, {}))
    case Cancel(id) =>
      SetProvider(s, id, s.providers[id].(phase := Cancelled))
      .(reload := Dropping(id, s.reload.todo - {id}, s.reload.kept), unsent := s.unsent + {id})
    case Drop =>
      s.(targets := Without(s.targets, s.reload.dropped, s.providers[s.reload.dropped].subs),
         reload := Visiting(s.reload.todo, s.reload.kept), unsent := s.unsent + {s.reload.dropped})
    case Keep(id, ref) =>
      var p := s.providers[id];
      var todo, kept := s.reload.todo - {id}, s.reload.kept;
      SetProvider(s, id, p.(subs := p.newSubs, newSubs := {}))
      .(targets := Resubscribed(s.targets, id, p, if p.subs == {} then map[] else Held(s.targets, ref, id)),
        reload := if Started(p) then Visiting(todo, kept + {id}) else Starting(id, todo, kept), unsent := s.unsent + {id})
    case Start =>
      var id := s.reload.started;
      SetProvider(s, id, s.providers[id].(phase := Running, updater := Idle))
      .(reload := Visiting(s.reload.todo, s.reload.kept + {id}))
    case Finish =>
      s.(trigger := s.trigger || s.live != {}, live := s.reload.kept, reload := Awaiting(s.live - s.reload.kept),
         unsent := s.unsent + s.live)
    case Return => s.(reload := NoReload)
    case Receive(id, update) => SetProvider(s, id, s.providers[id].(updater := Received(update)))
    case Lock(id) =>
      var p := s.providers[id];
      SetProvider(s, id, p.(updater := Broadcasting(p.updater.update, p.subs), log := p.log + [p.updater.update]))
    case UpdateSub(id, sub) =>
      var p := s.providers[id];
      SetProvider(s, id, p.(updater := p.updater.(remaining := p.updater.remaining - {sub})))
      .(targets := s.targets[Key(sub, id) := ApplyUpdate(Held(s.targets, sub, id), p.updater.current)], unsent := s.unsent + {id})
    case Unlock(id) => SetProvider(s, id, s.providers[id].(updater := Signalling))
    case Signal(id) => SetProvider(s, id, s.providers[id].(updater := Idle)).(trigger := true)
    case Leave(id) => SetProvider(s, id, s.providers[id].(updater := Leaving))
    case Clean(id) =>
      SetProvider(s, id, s.providers[id].(phase := Down, updater := Off))
      .(targets := Without(s.targets, id, s.providers[id].subs))
    case SenderTake => s.(trigger := false, sender := Taken)
    case SenderBegin => s.(sender := Reading(s.live, map[]), unsent := s.unsent * s.live)
    case SenderVisit(id) =>
      s.(sender := Reading(s.sender.unvisited - {id}, s.sender.seen + TargetsOf(s, id)), unsent := s.unsent - {id})
    case SenderEnd => s.(sender := Read(s.sender.seen))
    case SenderDeliver(accepted) =>
      if accepted then s.(sender := Ready, delivered := s.sender.complete)
      else s.(sender := Retry, unsent := s.unsent + s.providers.Keys)
    case SenderRetry => s.(trigger := true, sender := Ready)
  }

  /** The targets of a provider's subscribers. */
  function TargetsOf(s: State, id: nat): Snapshot
    requires id in s.providers
  {
    map k | k in s.targets && k.id == id && k.sub in s.providers[id].subs :: s.targets[k]
  }

  ghost predicate Run(s: State, events: seq<Event>)
    decreases |events|
  {
    events == [] || (Enabled(s, events[0]) && Run(Apply(s, events[0]), events[1..]))
  }

  ghost function Final(s: State, events: seq<Event>): State
    requires Run(s, events)
    decreases |events|
  {
    if events == [] then s else Final(Apply(s, events[0]), events[1..])
  }

  // ---------------------------------------------------------------- invariants

  /** Targets are held only for subscribers of providers that were started and not yet cleaned. */
  ghost predicate KeyOk(s: State, k: Key) {
    k.id in s.providers && k.sub in s.providers[k.id].subs && Started(s.providers[k.id])
  }

  ghost predicate KeysOk(s: State) {
    forall k :: k in s.targets ==> KeyOk(s, k)
  }

  /** What a subscriber holds: all updates, or all but the one that is on its way to it. */
  ghost function Expected(p: Provider, sub: string): Groups {
    if p.updater.Broadcasting? && |p.log| > 0 && sub in p.updater.remaining then Replay(p.log[..|p.log| - 1]) else Replay(p.log)
  }

  ghost predicate Caught(s: State, id: nat) {
    id in s.providers && s.providers[id].phase.Running? ==>
      forall sub :: sub in s.providers[id].subs ==> Held(s.targets, sub, id) == Expected(s.providers[id], sub)
  }

  /** Facts about a provider on its own. */
  ghost predicate Sound(p: Provider) {
    && (p.updater.Off? <==> !Started(p))
    && (p.phase.Fresh? ==> p.log == [])
    && (p.updater.Leaving? ==> p.phase.Cancelled?)
    && (p.phase.Running? ==> p.subs != {})
    && (p.updater.Broadcasting? ==>
      p.updater.remaining <= p.subs && |p.log| > 0 && p.log[|p.log| - 1] == p.updater.current)
  }

  ghost predicate Wanted(s: State, id: nat, subs: set<string>) {
    id in s.want && s.want[id] == subs
  }

  ghost predicate Unwanted(s: State, id: nat) {
    id in s.want ==> s.want[id] == {}
  }

  /** Where a provider stands in a reload, if there is one. */
  ghost predicate Placed(s: State, id: nat, p: Provider) {
    match s.reload
    case NoReload => if id in s.live then p.phase.Running? && Wanted(s, id, p.subs) else p.phase.Down? && Unwanted(s, id)
    case Visiting(todo, kept) => Visited(s, id, p, todo, kept)
    case Dropping(dropped, todo, kept) =>
      Visited(s, id, p, todo, kept) && (id == dropped ==> !p.phase.Running? && !p.phase.Fresh?)
    case Starting(started, todo, kept) =>
      if id == started then id in s.live && id !in todo && id !in kept && p.phase.Fresh? && p.subs != {} && Wanted(s, id, p.subs)
      else Visited(s, id, p, todo, kept)
    case Awaiting(cancelled) =>
      if id in s.live then p.phase.Running? && Wanted(s, id, p.subs)
      else (p.phase.Down? || (p.phase.Cancelled? && id in cancelled)) && Unwanted(s, id)
  }

  ghost predicate Visited(s: State, id: nat, p: Provider, todo: set<nat>, kept: set<nat>) {
    if id !in s.live then p.phase.Down? && Unwanted(s, id)
    else if id in kept then p.phase.Running? && Wanted(s, id, p.subs)
    else if id in todo then
      && (p.phase.Running? || (p.phase.Fresh? && p.newSubs != {} && p.subs == {}))
      && Wanted(s, id, p.newSubs)
    else (p.phase.Cancelled? || p.phase.Down?) && Wanted(s, id, {})
  }

  ghost predicate ReloadOk(s: State) {
    && s.live <= s.providers.Keys && s.want.Keys <= s.providers.Keys
    && (s.reload.Visiting? || s.reload.Dropping? || s.reload.Starting? ==>
      s.reload.kept <= s.live && s.reload.todo <= s.live && s.reload.todo !! s.reload.kept)
    && (s.reload.Dropping? ==> s.reload.dropped in s.live)
  }

  ghost predicate ProvidersOk(s: State) {
    && ReloadOk(s)
    && (forall id :: id in s.providers ==> Sound(s.providers[id]) && Placed(s, id, s.providers[id]))
  }

  ghost predicate Inv(s: State) {
    KeysOk(s) && ProvidersOk(s) && forall id :: Caught(s, id)
  }

  predicate ReloadEvent(e: Event) {
    e.Begin? || e.Cancel? || e.Drop? || e.Keep? || e.Start? || e.Finish? || e.Return?
  }

  predicate SenderEvent(e: Event) {
    e.SenderTake? || e.SenderBegin? || e.SenderVisit? || e.SenderEnd? || e.SenderDeliver? || e.SenderRetry?
  }

  lemma SenderFrame(s: State, e: Event)
    requires Enabled(s, e) && SenderEvent(e)
    ensures
      var r := Apply(s, e);
      r == s.(trigger := r.trigger, sender := r.sender, delivered := r.delivered, unsent := r.unsent)
  {
  }

  /** What an updater's step leaves alone. */
  ghost predicate OwnStep(s: State, r: State, own: nat, down: bool) {
    && own in s.providers && r.live == s.live && r.want == s.want && r.reload == s.reload
    && own in r.providers && r.providers == s.providers[own := r.providers[own]]
    && r.providers[own].subs == s.providers[own].subs && r.providers[own].newSubs == s.providers[own].newSubs
    && r.providers[own].phase == if down then Down else s.providers[own].phase
  }

  lemma BroadcastFrame(s: State, e: Event)
    requires Enabled(s, e) && (e.Lock? || e.UpdateSub? || e.Clean?)
    ensures OwnStep(s, Apply(s, e), e.id, e.Clean?)
  {
  }

  lemma QuietFrame(s: State, e: Event)
    requires Enabled(s, e) && (e.Receive? || e.Unlock? || e.Signal? || e.Leave?)
    ensures OwnStep(s, Apply(s, e), e.id, false) && Apply(s, e).targets == s.targets
  {
  }

  lemma UpdaterFrame(s: State, e: Event, id: nat)
    requires Enabled(s, e) && id in s.providers && !ReloadEvent(e)
    ensures
      var r := Apply(s, e);
      && r.live == s.live && r.want == s.want && r.reload == s.reload && r.providers.Keys == s.providers.Keys
      && r.providers[id].subs == s.providers[id].subs && r.providers[id].newSubs == s.providers[id].newSubs
      && r.providers[id].phase == if e.Clean? && e.id == id then Down else s.providers[id].phase
  {
    if SenderEvent(e) {
      SenderFrame(s, e);
    } else if e.Lock? || e.UpdateSub? || e.Clean? {
      BroadcastFrame(s, e);
    } else {
      QuietFrame(s, e);
    }
  }

  lemma SoundWhenKept(s: State, id: nat, ref: string)
    requires ProvidersOk(s) && Enabled(s, Keep(id, ref))
    ensures Sound(Apply(s, Keep(id, ref)).providers[id])
  {
    assert Sound(s.providers[id]) && Placed(s, id, s.providers[id]);
  }

  lemma SoundWhenStarted(s: State)
    requires ProvidersOk(s) && Enabled(s, Start)
    ensures Sound(Apply(s, Start).providers[s.reload.started])
  {
    var id := s.reload.started;
    assert Sound(s.providers[id]) && Placed(s, id, s.providers[id]);
  }

  lemma SoundWhenVisited(s: State, e: Event, id: nat)
    requires ProvidersOk(s) && Enabled(s, e) && (e.Begin? || e.Cancel?) && id in Apply(s, e).providers
    ensures Sound(Apply(s, e).providers[id])
  {
    if id in s.providers {
      assert Sound(s.providers[id]) && Placed(s, id, s.providers[id]);
    }
  }

  lemma SoundInReload(s: State, e: Event, id: nat)
    requires ProvidersOk(s) && Enabled(s, e) && ReloadEvent(e) && id in Apply(s, e).providers
    ensures Sound(Apply(s, e).providers[id])
  {
    if e.Begin? || e.Cancel? {
      SoundWhenVisited(s, e, id);
    } else if e.Keep? && e.id == id {
      SoundWhenKept(s, id, e.ref);
    } else if e.Start? && s.reload.started == id {
      SoundWhenStarted(s);
    } else {
      assert Apply(s, e).providers[id] == s.providers[id];
    }
  }

  lemma SoundInBroadcast(s: State, e: Event)
    requires Enabled(s, e) && (e.Lock? || e.UpdateSub? || e.Clean?) && Sound(s.providers[e.id])
    ensures Sound(Apply(s, e).providers[e.id])
  {
  }

  lemma SoundWhenQuiet(s: State, e: Event)
    requires Enabled(s, e) && (e.Receive? || e.Unlock? || e.Signal? || e.Leave?) && Sound(s.providers[e.id])
    ensures Sound(Apply(s, e).providers[e.id])
  {
  }

  lemma SoundByUpdater(s: State, e: Event, id: nat)
    requires ProvidersOk(s) && Enabled(s, e) && !ReloadEvent(e) && id in s.providers
    ensures id in Apply(s, e).providers && Sound(Apply(s, e).providers[id])
  {
    assert Sound(s.providers[id]);
    if SenderEvent(e) {
      SenderFrame(s, e);
    } else if e.Lock? || e.UpdateSub? || e.Clean? {
      BroadcastFrame(s, e);
      SoundInBroadcast(s, e);
    } else {
      QuietFrame(s, e);
      SoundWhenQuiet(s, e);
    }
  }

  lemma PlacedAtBegin(s: State, e: Event, id: nat)
    requires ProvidersOk(s) && Enabled(s, e) && e.Begin? && id in Apply(s, e).providers
    ensures Placed(Apply(s, e), id, Apply(s, e).providers[id])
  {
    if id in s.providers {
      assert Placed(s, id, s.providers[id]);
    }
  }

  lemma PlacedInReload(s: State, e: Event, id: nat)
    requires ProvidersOk(s) && Enabled(s, e) && id in s.providers && ReloadEvent(e) && !e.Begin?
    ensures Placed(Apply(s, e), id, Apply(s, e).providers[id])
  {
    assert Sound(s.providers[id]) && Placed(s, id, s.providers[id]);
  }

  lemma PlacedSame(s: State, r: State, id: nat, p: Provider, q: Provider)
    requires Placed(s, id, p) && r.live == s.live && r.want == s.want && r.reload == s.reload
    requires q.phase == p.phase && q.subs == p.subs && q.newSubs == p.newSubs
    ensures Placed(r, id, q)
  {
  }

  lemma PlacedWhenCleaned(s: State, r: State, id: nat, p: Provider, q: Provider)
    requires Placed(s, id, p) && r.live == s.live && r.want == s.want && r.reload == s.reload
    requires p.phase.Cancelled? && q.phase.Down?
    ensures Placed(r, id, q)
  {
  }

  /** An updater changes a phase only from cancelled to down. */
  lemma PlacedByUpdater(s: State, e: Event, id: nat)
    requires ProvidersOk(s) && Enabled(s, e) && id in s.providers && !ReloadEvent(e)
    ensures Placed(Apply(s, e), id, Apply(s, e).providers[id])
  {
    assert Sound(s.providers[id]) && Placed(s, id, s.providers[id]);
    var r := Apply(s, e);
    UpdaterFrame(s, e, id);
    if e.Clean? && e.id == id {
      PlacedWhenCleaned(s, r, id, s.providers[id], r.providers[id]);
    } else {
      PlacedSame(s, r, id, s.providers[id], r.providers[id]);
    }
  }

  lemma ReloadInReload(s: State, e: Event)
    requires ProvidersOk(s) && Enabled(s, e) && ReloadEvent(e)
    ensures ReloadOk(Apply(s, e))
  {
    if e.Start? {
      assert Placed(s, s.reload.started, s.providers[s.reload.started]);
    }
  }

  lemma StepReload(s: State, e: Event)
    requires ProvidersOk(s) && Enabled(s, e)
    ensures ReloadOk(Apply(s, e))
  {
    if SenderEvent(e) {
      SenderFrame(s, e);
    } else if e.Lock? || e.UpdateSub? || e.Clean? {
      BroadcastFrame(s, e);
    } else if ReloadEvent(e) {
      ReloadInReload(s, e);
    } else {
      QuietFrame(s, e);
    }
  }

  lemma StepProviders(s: State, e: Event)
    requires ProvidersOk(s) && Enabled(s, e)
    ensures ProvidersOk(Apply(s, e))
  {
    var r := Apply(s, e);
    StepReload(s, e);
    forall id | id in r.providers ensures Sound(r.providers[id]) && Placed(r, id, r.providers[id]) {
      if e.Begin? {
        SoundInReload(s, e, id);
        PlacedAtBegin(s, e, id);
      } else if ReloadEvent(e) {
        SoundInReload(s, e, id);
        PlacedInReload(s, e, id);
      } else {
        SoundByUpdater(s, e, id);
        PlacedByUpdater(s, e, id);
      }
    }
  }

  /** Where no key is new, it is enough that its provider keeps its subscribers and goes on. */
  lemma KeysKept(s: State, r: State)
    requires KeysOk(s)
    requires forall k :: k in r.targets ==> k in s.targets
    requires forall k :: k in r.targets && KeyOk(s, k) ==> KeyOk(r, k)
    ensures KeysOk(r)
  {
  }

  lemma KeysAtRest(s: State, e: Event)
    requires KeysOk(s) && Enabled(s, e) && (e.Begin? || e.Finish? || e.Return? || e.Cancel?)
    ensures KeysOk(Apply(s, e))
  {
    KeysKept(s, Apply(s, e));
  }

  lemma KeysAfterDropOrStart(s: State, e: Event)
    requires KeysOk(s) && Enabled(s, e) && (e.Drop? || e.Start?)
    ensures KeysOk(Apply(s, e))
  {
    KeysKept(s, Apply(s, e));
  }

  /** The subscribers that go lose their targets, and those that come belong to a started provider:
      before its start a provider has no subscribers to copy from. */
  lemma KeysAfterKeep(s: State, id: nat, ref: string)
    requires KeysOk(s) && ProvidersOk(s) && Enabled(s, Keep(id, ref))
    ensures KeysOk(Apply(s, Keep(id, ref)))
  {
    var r := Apply(s, Keep(id, ref));
    assert Placed(s, id, s.providers[id]);
    forall k | k in r.targets ensures KeyOk(r, k) {
      assert k in s.targets ==> KeyOk(s, k);
    }
  }

  lemma KeysInBroadcast(s: State, e: Event)
    requires KeysOk(s) && ProvidersOk(s) && Enabled(s, e) && (e.UpdateSub? || e.Clean?)
    ensures KeysOk(Apply(s, e))
  {
    var r := Apply(s, e);
    assert Sound(s.providers[e.id]);
    forall k | k in r.targets ensures KeyOk(r, k) {
      assert k in s.targets ==> KeyOk(s, k);
    }
  }

  lemma KeysByUpdater(s: State, e: Event)
    requires KeysOk(s) && Enabled(s, e) && (e.Receive? || e.Lock? || e.Unlock? || e.Signal? || e.Leave?)
    ensures KeysOk(Apply(s, e))
  {
    var r := Apply(s, e);
    assert r.targets == s.targets;
    if e.Lock? {
      BroadcastFrame(s, e);
    } else {
      QuietFrame(s, e);
    }
    KeysKept(s, r);
  }

  lemma StepKeys(s: State, e: Event)
    requires KeysOk(s) && ProvidersOk(s) && Enabled(s, e)
    ensures KeysOk(Apply(s, e))
  {
    if SenderEvent(e) {
      SenderFrame(s, e);
      KeysKept(s, Apply(s, e));
    } else if e.UpdateSub? || e.Clean? {
      KeysInBroadcast(s, e);
    } else if e.Keep? {
      KeysAfterKeep(s, e.id, e.ref);
    } else if e.Drop? || e.Start? {
      KeysAfterDropOrStart(s, e);
    } else if ReloadEvent(e) {
      KeysAtRest(s, e);
    } else {
      KeysByUpdater(s, e);
    }
  }

  // ---------------------------------------------------------------- catching up

  lemma ReplayStep(log: seq<Update>, u: Update)
    ensures Replay(log + [u]) == ApplyUpdate(Replay(log), u) && (log + [u])[..|log|] == log
  {
    assert (log + [u])[..|log|] == log;
  }

  /** A new subscriber gets what the others have; the others keep it. */
  lemma KeepCatchesUp(s: State, id: nat, ref: string)
    requires KeysOk(s) && ProvidersOk(s) && Caught(s, id) && Enabled(s, Keep(id, ref))
    ensures Caught(Apply(s, Keep(id, ref)), id)
  {
    var p := s.providers[id];
    var r := Apply(s, Keep(id, ref));
    assert Sound(p) && Placed(s, id, p);
    if p.phase.Running? {
      var all := Held(s.targets, ref, id);
      assert all == Replay(p.log);
      forall sub | sub in p.newSubs ensures Held(r.targets, sub, id) == Replay(p.log) {
        if |all| == 0 && sub !in p.subs {
          assert Key(sub, id) in s.targets ==> KeyOk(s, Key(sub, id));
        }
      }
    }
  }

  lemma UpdateKeepsCaught(s: State, id: nat, sub: string)
    requires ProvidersOk(s) && Caught(s, id) && Enabled(s, UpdateSub(id, sub))
    ensures Caught(Apply(s, UpdateSub(id, sub)), id)
  {
    var p, r := s.providers[id], Apply(s, UpdateSub(id, sub));
    assert Sound(p);
    if p.phase.Running? {
      var before := p.log[..|p.log| - 1];
      assert sub in p.subs;
      assert Held(s.targets, sub, id) == Expected(p, sub) == Replay(before);
      assert Held(r.targets, sub, id) == ApplyUpdate(Replay(before), p.updater.current) == Replay(p.log);
    }
  }

  lemma LockKeepsCaught(s: State, id: nat)
    requires ProvidersOk(s) && Caught(s, id) && Enabled(s, Lock(id))
    ensures Caught(Apply(s, Lock(id)), id)
  {
    var p := s.providers[id];
    var q := Apply(s, Lock(id)).providers[id];
    ReplayStep(p.log, p.updater.update);
    assert forall sub :: sub in p.subs ==> Expected(q, sub) == Replay(p.log) == Expected(p, sub);
  }

  lemma StartIsCaught(s: State)
    requires KeysOk(s) && ProvidersOk(s) && Enabled(s, Start)
    ensures Caught(Apply(s, Start), s.reload.started)
  {
    var id := s.reload.started;
    var p := s.providers[id];
    assert Sound(p) && Placed(s, id, p);
    forall sub ensures Key(sub, id) !in s.targets {
      assert Key(sub, id) in s.targets ==> KeyOk(s, Key(sub, id));
    }
  }

  /** Events that do not touch what provider id and its subscribers hold. */
  lemma OthersKeepCaught(s: State, r: State, id: nat)
    requires Caught(s, id)
    requires id in r.providers && r.providers[id].phase.Running? ==>
      && id in s.providers && s.providers[id].phase.Running?
      && r.providers[id].subs == s.providers[id].subs && r.providers[id].log == s.providers[id].log
      && (forall sub :: Expected(r.providers[id], sub) == Expected(s.providers[id], sub))
      && (forall sub :: Held(r.targets, sub, id) == Held(s.targets, sub, id))
    ensures Caught(r, id)
  {
  }

  lemma CaughtBySender(s: State, e: Event, id: nat)
    requires Caught(s, id) && Enabled(s, e) && SenderEvent(e)
    ensures Caught(Apply(s, e), id)
  {
    SenderFrame(s, e);
    OthersKeepCaught(s, Apply(s, e), id);
  }

  /** Events of the updaters that leave the targets alone. */
  lemma CaughtWithSameTargets(s: State, e: Event, id: nat)
    requires Caught(s, id) && Enabled(s, e) && (e.Receive? || e.Unlock? || e.Signal? || e.Leave?)
    ensures Caught(Apply(s, e), id)
  {
    QuietFrame(s, e);
    OthersKeepCaught(s, Apply(s, e), id);
  }

  lemma CaughtWithOtherTargets(s: State, e: Event, id: nat)
    requires Caught(s, id) && Enabled(s, e) && (e.UpdateSub? || e.Lock?) && e.id != id
    ensures Caught(Apply(s, e), id)
  {
    OthersKeepCaught(s, Apply(s, e), id);
  }

  lemma CaughtAfterClean(s: State, e: Event, id: nat)
    requires Caught(s, id) && Enabled(s, e) && e.Clean?
    ensures Caught(Apply(s, e), id)
  {
    OthersKeepCaught(s, Apply(s, e), id);
  }

  lemma CaughtByUpdater(s: State, e: Event, id: nat)
    requires Inv(s) && Enabled(s, e) && !ReloadEvent(e)
    ensures Caught(Apply(s, e), id)
  {
    assert Caught(s, id);
    if e.UpdateSub? && e.id == id {
      UpdateKeepsCaught(s, id, e.sub);
    } else if e.Lock? && e.id == id {
      LockKeepsCaught(s, id);
    } else if e.UpdateSub? || e.Lock? {
      CaughtWithOtherTargets(s, e, id);
    } else if e.Clean? {
      CaughtAfterClean(s, e, id);
    } else if SenderEvent(e) {
      CaughtBySender(s, e, id);
    } else {
      CaughtWithSameTargets(s, e, id);
    }
  }

  /** A provider that is not the one visited keeps its phase, subscribers, updater and log. */
  lemma CaughtUnvisited(s: State, e: Event, id: nat)
    requires Caught(s, id) && Enabled(s, e) && (e.Begin? || e.Finish? || e.Return? || e.Cancel?)
    ensures Caught(Apply(s, e), id)
  {
    OthersKeepCaught(s, Apply(s, e), id);
  }

  lemma CaughtAfterDrop(s: State, id: nat)
    requires ProvidersOk(s) && Caught(s, id) && Enabled(s, Drop)
    ensures Caught(Apply(s, Drop), id)
  {
    var dropped := s.reload.dropped;
    assert Placed(s, dropped, s.providers[dropped]);
    OthersKeepCaught(s, Apply(s, Drop), id);
  }

  lemma CaughtAfterOther(s: State, e: Event, id: nat)
    requires Caught(s, id) && Enabled(s, e)
    requires (e.Keep? && e.id != id) || (e.Start? && s.reload.started != id)
    ensures Caught(Apply(s, e), id)
  {
    OthersKeepCaught(s, Apply(s, e), id);
  }

  lemma CaughtInReload(s: State, e: Event, id: nat)
    requires Inv(s) && Enabled(s, e) && ReloadEvent(e)
    ensures Caught(Apply(s, e), id)
  {
    assert Caught(s, id);
    if e.Keep? && e.id == id {
      KeepCatchesUp(s, id, e.ref);
    } else if e.Start? && s.reload.started == id {
      StartIsCaught(s);
    } else if e.Drop? {
      CaughtAfterDrop(s, id);
    } else if e.Keep? || e.Start? {
      CaughtAfterOther(s, e, id);
    } else {
      CaughtUnvisited(s, e, id);
    }
  }

  lemma StepInv(s: State, e: Event)
    requires Inv(s) && Enabled(s, e)
    ensures Inv(Apply(s, e))
  {
    StepProviders(s, e);
    StepKeys(s, e);
    forall id ensures Caught(Apply(s, e), id) {
      if ReloadEvent(e) {
        CaughtInReload(s, e, id);
      } else {
        CaughtByUpdater(s, e, id);
      }
    }
  }

  /** Safety over every interleaving of updaters, reloads and sender. */
  lemma {:induction false} Safety(s: State, events: seq<Event>)
    requires Inv(s) && Run(s, events)
    ensures Inv(Final(s, events))
    decreases |events|
  {
    if events != [] {
      StepInv(s, events[0]);
      Safety(Apply(s, events[0]), events[1..]);
    }
  }

  /** Whenever the updater of a live provider is not in the middle of a broadcast, every subscriber,
      however late it came, holds the replay of all updates delivered since the provider started. */
  lemma CatchUp(events: seq<Event>, id: nat, sub: string)
    requires Run(Init(), events)
    requires
      var s := Final(Init(), events);
      && id in s.live && id in s.providers && s.providers[id].phase.Running?
      && !s.providers[id].updater.Broadcasting? && sub in s.providers[id].subs
    ensures
      var s := Final(Init(), events);
      Held(s.targets, sub, id) == Replay(s.providers[id].log)
  {
    Safety(Init(), events);
    assert Caught(Final(Init(), events), id);
  }

  /** When no reload is under way the live providers are those the configuration asks for, with exactly
      the subscribers it asks for, and no targets are held for anyone else. */
  lemma NoOrphans(events: seq<Event>)
    requires Run(Init(), events) && Final(Init(), events).reload.NoReload?
    ensures
      var s := Final(Init(), events);
      && (forall k :: k in s.targets ==> k.id in s.live && k.id in s.providers && k.sub in s.providers[k.id].subs)
      && (forall id :: id in s.live <==> id in s.want && s.want[id] != {})
      && (forall id :: id in s.live ==> id in s.providers && s.providers[id].phase.Running? && s.providers[id].subs == s.want[id])
  {
    Safety(Init(), events);
    var s := Final(Init(), events);
    forall k | k in s.targets ensures k.id in s.live {
      assert KeyOk(s, k) && Placed(s, k.id, s.providers[k.id]);
    }
    forall id | id in s.providers ensures id in s.live <==> id in s.want && s.want[id] != {}
      ensures id in s.live ==> s.providers[id].phase.Running? && Wanted(s, id, s.providers[id].subs)
    {
      assert Sound(s.providers[id]) && Placed(s, id, s.providers[id]);
    }
  }

  // ---------------------------------------------------------------- no change goes unsent

  ghost predicate Announcing(s: State, id: nat) {
    id in s.providers && (s.providers[id].updater.Broadcasting? || s.providers[id].updater.Signalling?)
  }

  ghost predicate Reloading(s: State) {
    (s.reload.Visiting? || s.reload.Dropping? || s.reload.Starting?) && s.live != {}
  }

  /** A change of provider id has a trigger pending, or the sender is going to visit it, or its updater or
      the reload is committed to pulling the trigger. */
  ghost predicate Committed(s: State, id: nat) {
    || s.trigger || s.sender.Taken? || s.sender.Retry? || Reloading(s) || Announcing(s, id)
    || (s.sender.Reading? && id in s.sender.unvisited)
  }

  ghost predicate Announced(s: State) {
    forall id :: id in s.unsent ==> Committed(s, id)
  }

  lemma AnnouncedInReload(s: State, e: Event)
    requires ProvidersOk(s) && Announced(s) && Enabled(s, e) && ReloadEvent(e)
    ensures Announced(Apply(s, e))
  {
    var r := Apply(s, e);
    if e.Cancel? {
      assert e.id in r.live;
    } else if e.Drop? {
      assert s.reload.dropped in r.live;
    } else if e.Keep? {
      assert e.id in r.live;
    } else if e.Start? {
      assert Placed(s, s.reload.started, s.providers[s.reload.started]) && s.reload.started in r.live;
    }
  }

  lemma AnnouncedByUpdater(s: State, e: Event)
    requires Announced(s) && Enabled(s, e) && !ReloadEvent(e) && !SenderEvent(e)
    ensures Announced(Apply(s, e))
  {
    var r := Apply(s, e);
    forall id | id in r.unsent ensures Committed(r, id) {
      assert id in s.unsent ==> Committed(s, id);
    }
  }

  lemma AnnouncedBySender(s: State, e: Event)
    requires Announced(s) && Enabled(s, e) && SenderEvent(e)
    ensures Announced(Apply(s, e))
  {
    var r := Apply(s, e);
    forall id | id in r.unsent ensures Committed(r, id) {
      assert id in s.unsent ==> Committed(s, id);
    }
  }

  // ---------------------------------------------------------------- what has been sent

  /** The snapshot that will hold provider id next if nothing changes, or holds it. */
  function Latest(s: State, id: nat): Snapshot {
    match s.sender
    case Reading(unvisited, seen) => if id in s.live && id in unvisited then s.delivered else seen
    case Read(complete) => complete
    case _ => s.delivered
  }

  ghost predicate KnownKeys(s: State, snapshot: Snapshot) {
    forall k :: k in snapshot ==> k.id in s.providers
  }

  predicate Ended(p: Provider) {
    p.phase.Cancelled? || p.phase.Down?
  }

  /** Facts about the sender: it reads only between reloads, and has nothing from providers not visited. */
  ghost predicate SenderOk(s: State) {
    && KnownKeys(s, s.delivered)
    && (s.sender.Reading? ==>
      && s.reload.NoReload? && s.sender.unvisited <= s.live && KnownKeys(s, s.sender.seen)
      && forall k :: k in s.sender.seen ==> k.id in s.live && k.id !in s.sender.unvisited)
    && (s.sender.Read? ==> KnownKeys(s, s.sender.complete))
    && (forall id :: id in s.live && id in s.providers && Ended(s.providers[id]) ==> id in s.unsent)
  }

  /** The groups that the latest snapshot should have for a subscriber of a provider. */
  function Current(s: State, sub: string, id: nat): Groups {
    if id in s.live && id in s.providers && sub in s.providers[id].subs then Held(s.targets, sub, id) else map[]
  }

  ghost predicate Shows(s: State, id: nat) {
    forall sub :: Held(Latest(s, id), sub, id) == Current(s, sub, id)
  }

  /** Whatever has no unsent change is in the latest snapshot as it is. */
  ghost predicate Shown(s: State) {
    forall id :: id !in s.unsent ==> Shows(s, id)
  }

  ghost predicate SentInv(s: State) {
    SenderOk(s) && Shown(s)
  }

  lemma SenderOkInReload(s: State, e: Event)
    requires ProvidersOk(s) && SenderOk(s) && Enabled(s, e) && ReloadEvent(e)
    ensures SenderOk(Apply(s, e))
  {
    var r := Apply(s, e);
    assert s.providers.Keys <= r.providers.Keys;
    if e.Start? {
      assert Placed(s, s.reload.started, s.providers[s.reload.started]);
    }
  }

  /** An updater's step leaves the sender alone and makes nothing sent. */
  lemma UpdaterKeepsSender(s: State, e: Event)
    requires Enabled(s, e) && !ReloadEvent(e) && !SenderEvent(e)
    ensures
      var r := Apply(s, e);
      && r.sender == s.sender && r.delivered == s.delivered && s.unsent <= r.unsent
  {}

  lemma SenderOkByUpdater(s: State, e: Event)
    requires ProvidersOk(s) && SenderOk(s) && Enabled(s, e) && !ReloadEvent(e) && !SenderEvent(e)
    ensures SenderOk(Apply(s, e))
  {
    var r := Apply(s, e);
    UpdaterKeepsSender(s, e);
    assert Sound(s.providers[e.id]);
    forall id | id in s.providers
      ensures r.providers.Keys == s.providers.Keys && r.live == s.live && r.reload == s.reload
      ensures Ended(r.providers[id]) ==> Ended(s.providers[id])
    {
      UpdaterFrame(s, e, id);
      CleanedWasCancelled(s, e);
    }
  }

  lemma CleanedWasCancelled(s: State, e: Event)
    requires Enabled(s, e)
    ensures e.Clean? && Sound(s.providers[e.id]) ==> s.providers[e.id].phase.Cancelled?
  {}

  lemma LiveIsRunning(s: State, id: nat)
    requires ProvidersOk(s) && s.reload.NoReload? && id in s.live
    ensures id in s.providers && s.providers[id].phase.Running?
  {
    assert Placed(s, id, s.providers[id]);
  }

  lemma SenderOkAtBegin(s: State)
    requires ProvidersOk(s) && SenderOk(s) && Enabled(s, SenderBegin)
    ensures SenderOk(Apply(s, SenderBegin))
  {}

  lemma SenderOkAfterVisit(s: State, id: nat)
    requires ProvidersOk(s) && SenderOk(s) && Enabled(s, SenderVisit(id))
    ensures SenderOk(Apply(s, SenderVisit(id)))
  {
    LiveIsRunning(s, id);
  }

  lemma SenderOkBySender(s: State, e: Event)
    requires ProvidersOk(s) && SenderOk(s) && Enabled(s, e) && SenderEvent(e)
    ensures SenderOk(Apply(s, e))
  {
    if e.SenderBegin? {
      SenderOkAtBegin(s);
    } else if e.SenderVisit? {
      SenderOkAfterVisit(s, e.id);
    } else {
      SenderFrame(s, e);
    }
  }

  lemma SameShows(s: State, r: State, id: nat)
    requires Shows(s, id) && Latest(r, id) == Latest(s, id) && forall sub :: Current(r, sub, id) == Current(s, sub, id)
    ensures Shows(r, id)
  {
    forall sub ensures Held(Latest(r, id), sub, id) == Current(r, sub, id) {
      assert Held(Latest(s, id), sub, id) == Current(s, sub, id);
    }
  }

  /** A reload event changes nothing of a provider without an unsent change. */
  lemma CurrentInReload(s: State, e: Event, id: nat, sub: string)
    requires ProvidersOk(s) && Enabled(s, e) && (e.Cancel? || e.Drop? || e.Keep?) && id !in Apply(s, e).unsent
    ensures Current(Apply(s, e), sub, id) == Current(s, sub, id)
  {}

  lemma CurrentBetween(s: State, e: Event, id: nat, sub: string)
    requires ProvidersOk(s) && Enabled(s, e) && (e.Begin? || e.Start? || e.Finish? || e.Return?) && id !in Apply(s, e).unsent
    ensures Current(Apply(s, e), sub, id) == Current(s, sub, id)
  {}

  lemma ShownInReload(s: State, e: Event, id: nat)
    requires ProvidersOk(s) && SentInv(s) && Enabled(s, e) && ReloadEvent(e) && id !in Apply(s, e).unsent
    ensures Shows(Apply(s, e), id)
  {
    var r := Apply(s, e);
    LatestInReload(s, e, id);
    forall sub ensures Current(r, sub, id) == Current(s, sub, id) {
      if e.Cancel? || e.Drop? || e.Keep? {
        CurrentInReload(s, e, id, sub);
      } else {
        CurrentBetween(s, e, id, sub);
      }
    }
    SameShows(s, r, id);
  }

  lemma LatestInReload(s: State, e: Event, id: nat)
    requires SentInv(s) && Enabled(s, e) && ReloadEvent(e) && id !in Apply(s, e).unsent
    ensures Latest(Apply(s, e), id) == Latest(s, id) && id !in s.unsent && Shows(s, id)
  {}

  lemma CurrentByUpdater(s: State, e: Event, id: nat, sub: string)
    requires Enabled(s, e) && (e.Receive? || e.Unlock? || e.Signal? || e.Leave? || e.Lock?)
    ensures Current(Apply(s, e), sub, id) == Current(s, sub, id)
  {}

  lemma CurrentAfterUpdate(s: State, id: nat, own: nat, name: string, sub: string)
    requires Enabled(s, UpdateSub(own, name)) && id != own
    ensures Current(Apply(s, UpdateSub(own, name)), sub, id) == Current(s, sub, id)
  {}

  /** The targets of a live provider are cleaned only after it was cancelled, which is an unsent change. */
  lemma CurrentAfterClean(s: State, id: nat, own: nat, sub: string)
    requires SenderOk(s) && Enabled(s, Clean(own)) && s.providers[own].phase.Cancelled? && id !in s.unsent
    ensures Current(Apply(s, Clean(own)), sub, id) == Current(s, sub, id)
  {}

  lemma CurrentInBroadcast(s: State, e: Event, id: nat, sub: string)
    requires ProvidersOk(s) && SenderOk(s) && Enabled(s, e) && (e.UpdateSub? || e.Clean?) && id !in Apply(s, e).unsent
    ensures Current(Apply(s, e), sub, id) == Current(s, sub, id)
  {
    if e.UpdateSub? {
      CurrentAfterUpdate(s, id, e.id, e.sub, sub);
    } else {
      assert Sound(s.providers[e.id]);
      CleanedWasCancelled(s, e);
      CurrentAfterClean(s, id, e.id, sub);
    }
  }

  lemma ShownByUpdater(s: State, e: Event, id: nat)
    requires ProvidersOk(s) && SentInv(s) && Enabled(s, e) && !ReloadEvent(e) && !SenderEvent(e) && id !in Apply(s, e).unsent
    ensures Shows(Apply(s, e), id)
  {
    var r := Apply(s, e);
    UpdaterKeepsSender(s, e);
    UpdaterKeepsLive(s, e);
    forall sub ensures Current(r, sub, id) == Current(s, sub, id) {
      if e.UpdateSub? || e.Clean? {
        CurrentInBroadcast(s, e, id, sub);
      } else {
        CurrentByUpdater(s, e, id, sub);
      }
    }
    SameShows(s, r, id);
  }

  lemma UpdaterKeepsLive(s: State, e: Event)
    requires Enabled(s, e) && !ReloadEvent(e) && !SenderEvent(e)
    ensures Apply(s, e).live == s.live
  {}

  /** Nothing is known of providers that the sender has not seen at the beginning. */
  lemma ShownAtBegin(s: State, id: nat)
    requires SentInv(s) && Enabled(s, SenderBegin) && id !in Apply(s, SenderBegin).unsent
    ensures Shows(Apply(s, SenderBegin), id)
  {
    var r := Apply(s, SenderBegin);
    forall sub ensures Held(Latest(r, id), sub, id) == Current(r, sub, id) {
      assert id in s.live ==> Shows(s, id) && Held(Latest(s, id), sub, id) == Current(s, sub, id);
    }
  }

  lemma VisitSees(s: State, id: nat, sub: string)
    requires SentInv(s) && Enabled(s, SenderVisit(id))
    ensures Held(s.sender.seen + TargetsOf(s, id), sub, id) == Current(s, sub, id)
  {
    assert Key(sub, id) !in s.sender.seen;
  }

  lemma ShownAfterVisit(s: State, visited: nat, id: nat)
    requires SentInv(s) && Enabled(s, SenderVisit(visited)) && id !in Apply(s, SenderVisit(visited)).unsent
    ensures Shows(Apply(s, SenderVisit(visited)), id)
  {
    var r := Apply(s, SenderVisit(visited));
    forall sub ensures Held(Latest(r, id), sub, id) == Current(r, sub, id) {
      if id == visited {
        VisitSees(s, id, sub);
      } else {
        assert Shows(s, id) && Held(Latest(s, id), sub, id) == Current(s, sub, id);
      }
    }
  }

  lemma ShownBySender(s: State, e: Event, id: nat)
    requires ProvidersOk(s) && SentInv(s) && Enabled(s, e) && SenderEvent(e) && id !in Apply(s, e).unsent
    ensures Shows(Apply(s, e), id)
  {
    if e.SenderBegin? {
      ShownAtBegin(s, id);
    } else if e.SenderVisit? {
      ShownAfterVisit(s, e.id, id);
    } else {
      ShownOtherwise(s, e, id);
    }
  }

  lemma CurrentBySender(s: State, e: Event, id: nat, sub: string)
    requires Enabled(s, e) && SenderEvent(e)
    ensures Current(Apply(s, e), sub, id) == Current(s, sub, id)
  {
    SenderFrame(s, e);
  }

  /** A snapshot that was not accepted leaves every provider with an unsent change. */
  lemma ShownAfterRefusal(s: State, id: nat)
    requires ProvidersOk(s) && SenderOk(s) && Enabled(s, SenderDeliver(false)) && id !in Apply(s, SenderDeliver(false)).unsent
    ensures Shows(Apply(s, SenderDeliver(false)), id)
  {}

  lemma LatestOtherwise(s: State, e: Event, id: nat)
    requires Enabled(s, e) && (e.SenderTake? || e.SenderEnd? || e.SenderRetry? || (e.SenderDeliver? && e.accepted))
    ensures Latest(Apply(s, e), id) == Latest(s, id) && Apply(s, e).unsent == s.unsent
  {}

  lemma ShownOtherwise(s: State, e: Event, id: nat)
    requires ProvidersOk(s) && SentInv(s) && Enabled(s, e) && id !in Apply(s, e).unsent
    requires SenderEvent(e) && !e.SenderBegin? && !e.SenderVisit?
    ensures Shows(Apply(s, e), id)
  {
    if e.SenderDeliver? && !e.accepted {
      ShownAfterRefusal(s, id);
    } else {
      LatestOtherwise(s, e, id);
      forall sub ensures Current(Apply(s, e), sub, id) == Current(s, sub, id) {
        CurrentBySender(s, e, id, sub);
      }
      SameShows(s, Apply(s, e), id);
    }
  }

  lemma {:induction false} AlwaysSent(s: State, events: seq<Event>)
    requires Inv(s) && Announced(s) && SentInv(s) && Run(s, events)
    ensures Announced(Final(s, events)) && SentInv(Final(s, events)) && Inv(Final(s, events))
    decreases |events|
  {
    if events != [] {
      var e, r := events[0], Apply(s, events[0]);
      StepInv(s, e);
      SentStep(s, e);
      AlwaysSent(r, events[1..]);
    }
  }

  lemma SentStep(s: State, e: Event)
    requires ProvidersOk(s) && Announced(s) && SentInv(s) && Enabled(s, e)
    ensures Announced(Apply(s, e)) && SentInv(Apply(s, e))
  {
    if ReloadEvent(e) {
      AnnouncedInReload(s, e);
      SenderOkInReload(s, e);
    } else if SenderEvent(e) {
      AnnouncedBySender(s, e);
      SenderOkBySender(s, e);
    } else {
      AnnouncedByUpdater(s, e);
      SenderOkByUpdater(s, e);
    }
    forall id | id !in Apply(s, e).unsent ensures Shows(Apply(s, e), id) {
      if ReloadEvent(e) {
        ShownInReload(s, e, id);
      } else if SenderEvent(e) {
        ShownBySender(s, e, id);
      } else {
        ShownByUpdater(s, e, id);
      }
    }
  }

  /** In a state at rest nothing is unsent, and the snapshot that was delivered last holds for every
      subscriber of every provider exactly the targets that are held now. */
  lemma NothingUnsentAtRest(events: seq<Event>, sub: string, id: nat)
    requires Run(Init(), events)
    requires
      var s := Final(Init(), events);
      s.reload.NoReload? && !s.trigger && s.sender.Ready? && forall id :: id in s.providers ==> !Announcing(s, id)
    ensures
      var s := Final(Init(), events);
      s.unsent == {} && Held(s.delivered, sub, id) == Held(s.targets, sub, id)
  {
    AlwaysSent(Init(), events);
    var s := Final(Init(), events);
    assert forall i :: i in s.unsent ==> Committed(s, i);
    assert Shows(s, id) && Held(Latest(s, id), sub, id) == Current(s, sub, id);
    if Key(sub, id) in s.targets {
      assert KeyOk(s, Key(sub, id)) && Placed(s, id, s.providers[id]);
    }
  }

  // ---------------------------------------------------------------- the operations on their own

  method UpdateGroup(groups: Groups, tgs: Update) returns (r: Groups)
    ensures r == ApplyUpdate(groups, tgs)
  {
    r := groups;
    for n := 0 to |tgs|
      invariant r == ApplyGroups(groups, tgs, n)
    {
      var tg := tgs[n];
      if tg.Some? {
        if |tg.value.targets| > 0 {
          r := r[tg.value.source := tg.value];
        } else {
          r := r - {tg.value.source};
        }
      }
    }
  }

  /** A provider as registration sees it. */
  datatype Entry = Entry(id: nat, config: string, newSubs: set<string>)

  /** The configuration that stands for a target set without any other. */
  const EMPTY_CONFIG := "static{}"

  ghost predicate DistinctConfigs(es: seq<Entry>) {
    forall i, j :: 0 <= i < j < |es| ==> es[i].config != es[j].config
  }

  ghost predicate HasConfig(es: seq<Entry>, config: string) {
    exists i :: 0 <= i < |es| && es[i].config == config
  }

  /** name was subscribed to exactly the configurations in done, creating providers where needed. */
  ghost predicate Subscribed(before: seq<Entry>, after: seq<Entry>, next: nat, name: string, done: set<string>) {
    && |before| <= |after|
    && (forall i :: 0 <= i < |before| ==>
      after[i] == before[i].(newSubs := before[i].newSubs + (if before[i].config in done then {name} else {})))
    && (forall i :: |before| <= i < |after| ==>
      after[i].newSubs == {name} && after[i].config in done && after[i].id == next + i - |before|)
    && (forall c :: c in done ==> HasConfig(after, c))
    && (DistinctConfigs(before) ==> DistinctConfigs(after))
  }

  /** Subscribe name to one configuration: to the provider that has it, or else to a new one, unless
      that cannot be created. */
  method AddConfig(before: seq<Entry>, es: seq<Entry>, next: nat, name: string, config: string, fails: bool, ghost done: set<string>)
    returns (r: seq<Entry>, added: bool)
    requires Subscribed(before, es, next, name, done) && DistinctConfigs(before)
    ensures added <==> HasConfig(es, config) || !fails
    ensures Subscribed(before, r, next, name, if added then done + {config} else done)
  {
    for i := 0 to |es|
      invariant forall k :: 0 <= k < i ==> es[k].config != config
    {
      if es[i].config == config {
        r := es[i := es[i].(newSubs := es[i].newSubs + {name})];
        SubscribedMore(before, es, r, next, name, config, done, i);
        return r, true;
      }
    }
    if fails {
      return es, false;
    }
    r := es + [Entry(next + |es| - |before|, config, {name})];
    SubscribedNew(before, es, r, next, name, config, done);
    added := true;
  }

  lemma SubscribedMore(before: seq<Entry>, es: seq<Entry>, r: seq<Entry>, next: nat, name: string, config: string,
                       done: set<string>, i: nat)
    requires Subscribed(before, es, next, name, done) && DistinctConfigs(before) && i < |es| && es[i].config == config
    requires r == es[i := es[i].(newSubs := es[i].newSubs + {name})]
    ensures Subscribed(before, r, next, name, done + {config})
  {
    forall c | c in done + {config} ensures HasConfig(r, c) {
      if c == config {
        assert r[i].config == c;
      } else {
        var k :| 0 <= k < |es| && es[k].config == c;
        assert r[k].config == c;
      }
    }
  }

  lemma SubscribedNew(before: seq<Entry>, es: seq<Entry>, r: seq<Entry>, next: nat, name: string, config: string, done: set<string>)
    requires Subscribed(before, es, next, name, done) && DistinctConfigs(before)
    requires forall k :: 0 <= k < |es| ==> es[k].config != config
    requires r == es + [Entry(next + |es| - |before|, config, {name})]
    ensures Subscribed(before, r, next, name, done + {config})
  {
    forall c | c in done + {config} ensures HasConfig(r, c) {
      if c == config {
        assert r[|es|].config == c;
      } else {
        var k :| 0 <= k < |es| && es[k].config == c;
        assert r[k].config == c;
      }
    }
    assert forall k :: 0 <= k < |before| ==> before[k].config == es[k].config;
  }

  /** Subscribe a target set to its configurations, or, if not one of them can be had, to the empty one. */
  method RegisterProviders(before: seq<Entry>, next: nat, name: string, configs: seq<string>, fails: set<string>)
    returns (es: seq<Entry>, failed: nat, ghost done: set<string>)
    requires DistinctConfigs(before) && EMPTY_CONFIG !in fails
    ensures Subscribed(before, es, next, name, done) && DistinctConfigs(es) && done != {}
    ensures forall c :: c in configs && c !in fails ==> c in done
    ensures forall c :: c in done ==> c in configs || (c == EMPTY_CONFIG && done == {c} && failed == |configs|)
    ensures forall c :: c in done && c in fails ==> HasConfig(before, c)
  {
    es, failed, done := before, 0, {};
    var added := false;
    for n := 0 to |configs|
      invariant Subscribed(before, es, next, name, done) && failed <= n
      invariant forall c :: c in configs[..n] && c !in fails ==> c in done
      invariant forall c :: c in done ==> c in configs[..n]
      invariant forall c :: c in done && c in fails ==> HasConfig(before, c)
      invariant (added <==> done != {}) && (!added ==> failed == n)
    {
      var c := configs[n];
      var ok: bool;
      StillHas(before, es, next, name, done, c, fails);
      es, ok := AddConfig(before, es, next, name, c, c in fails, done);
      if ok {
        added := true;
        done := done + {c};
      } else {
        failed := failed + 1;
      }
    }
    if !added {
      var ok: bool;
      es, ok := AddConfig(before, es, next, name, EMPTY_CONFIG, false, done);
      done := {EMPTY_CONFIG};
    }
  }

  lemma StillHas(before: seq<Entry>, es: seq<Entry>, next: nat, name: string, done: set<string>, c: string, fails: set<string>)
    requires Subscribed(before, es, next, name, done)
    requires forall x :: x in done && x in fails ==> HasConfig(before, x)
    ensures c in fails && HasConfig(es, c) ==> HasConfig(before, c)
  {
    if c in fails && HasConfig(es, c) {
      var i :| 0 <= i < |es| && es[i].config == c;
      if i < |before| {
        assert before[i].config == c;
      }
    }
  }
}
