/** The watch protocol: LXD, the lifecycle watcher task and any number of gateway
    watchers, interleaved step by step
    (crates/openshell-driver-lxd/src/watcher.rs and grpc.rs).

    Three queues order what a gateway sees: LXD's event stream, the broadcast
    channel of each gateway, and what was already delivered. A run is a sequence
    of steps; `Apply` is what each step does. */
module Watch {
  import opened Common
  import opened Events
  import opened RecentEvents

  type Id = string
  type GatewayId = nat

  /** Capacity of the broadcast channel (grpc.rs:49). */
  const CHANNEL_CAPACITY: nat := 64

  /** `id` is the sandbox id in the instance's configuration; without one the
      instance is not the driver's. `state` is what a snapshot shows of it: its status
      and whether its configuration records a requested stop. */
  datatype Instance = Instance(id: Option<Id>, state: string)

  /** A lifecycle event: the key duplicates share, and what it asks for. */
  datatype LxdEvent = LxdEvent(key: Key, handling: Handling)

  datatype WatchEvent = Sandbox(name: Name, instance: Instance) | Deleted(id: Id)

  /** Where `run_once` stands: between runs, after the first listing, after
      subscribing, or draining the stream. */
  datatype Link = Down | PreListed(pre: map<Name, Id>) | Subscribed(pre: map<Name, Id>) | Live {
    predicate HasStream() { Subscribed? || Live? }
  }

  /** What the draining loop is in the middle of. */
  datatype Task = Idle | MustRead(name: Name) | MustPublish(name: Name, instance: Instance) | Reporting(ids: set<Id>)

  datatype Phase = Opened | Listing | Streaming

  /** One `WatchSandboxes` call. `snapshot` goes out before the live events.
      `missed` is history: names whose latest change no event will announce. */
  datatype Gateway = Gateway(
    phase: Phase, snapshot: map<Name, Instance>, delivered: seq<WatchEvent>, queue: seq<WatchEvent>,
    lagged: bool, missed: set<Name>)

  datatype State = State(
    lxd: map<Name, Instance>, link: Link, stream: seq<LxdEvent>, recent: seq<Key>,
    known: map<Name, Id>, task: Task, gateways: map<GatewayId, Gateway>,
    emitted: set<LxdEvent>, usedKeys: set<Key>, usedIds: set<Id>, usedNames: set<Name>,
    reported: set<Id>)

  datatype Step =
    // LXD, driven by anyone
    | Create(name: Name, instance: Instance, key: Key)
    | Change(name: Name, state: string, key: Key)
    // a change of configuration only, which no watched action announces
    | Patch(name: Name, state: string, key: Key)
    | Remove(name: Name, key: Key)
    | Noise(event: LxdEvent)
    | Redeliver(event: LxdEvent)
    // the watcher task
    | ListBefore
    | Subscribe
    | ListAfter
    | Break
    | Consume
    | Read
    | ReadFails
    | Publish
    | Report(id: Id)
    // DeleteSandbox publishing what it removed
    | DriverDeleted(id: Id)
    // WatchSandboxes calls
    | Open(g: GatewayId)
    | List(g: GatewayId)
    | ListAgain(g: GatewayId, name: Name)
    | Respond(g: GatewayId)
    | Deliver(g: GatewayId)

  // ----- what each step does

  ghost predicate Managed(s: State, n: Name) { n in s.lxd && s.lxd[n].id.Some? }

  /** `managed_sandbox_ids` */
  ghost function ManagedIds(s: State): map<Name, Id> {
    map n | n in s.lxd && s.lxd[n].id.Some? :: s.lxd[n].id.value
  }

  /** `reconcile_and_seed_sandbox_ids`: the names both listings omit are gone,
      everything listed becomes known. */
  function Omitted(known: map<Name, Id>, pre: map<Name, Id>, post: map<Name, Id>): set<Name> {
    known.Keys - pre.Keys - post.Keys
  }

  function Seeded(known: map<Name, Id>, pre: map<Name, Id>, post: map<Name, Id>): map<Name, Id> {
    (known - Omitted(known, pre, post)) + pre + post
  }

  function DeletedDuringGap(known: map<Name, Id>, pre: map<Name, Id>, post: map<Name, Id>): set<Id> {
    set n | n in Omitted(known, pre, post) :: known[n]
  }

  /** After a reconcile the watcher knows exactly what the listings say, the second one
      winning; what was known before only decides who is reported. */
  lemma SeededIsListed(known: map<Name, Id>, pre: map<Name, Id>, post: map<Name, Id>)
    ensures Seeded(known, pre, post) == pre + post
    ensures forall n :: n in known && n !in pre && n !in post ==> known[n] in DeletedDuringGap(known, pre, post)
    ensures forall id :: id in DeletedDuringGap(known, pre, post) ==>
              exists n :: n in known && known[n] == id && n !in pre && n !in post
  {
    forall n | n in known && n !in pre && n !in post ensures known[n] in DeletedDuringGap(known, pre, post) {
      assert n in Omitted(known, pre, post);
    }
  }

  /** The same as the source runs it, over the entries in any order. */
  method Reconcile(known: map<Name, Id>, pre: map<Name, Id>, post: map<Name, Id>)
    returns (seeded: map<Name, Id>, deleted: seq<Id>)
    ensures seeded == Seeded(known, pre, post)
    ensures forall id :: id in deleted <==> id in DeletedDuringGap(known, pre, post)
    ensures |deleted| == |Omitted(known, pre, post)|
  {
    ghost var names: seq<Name>;
    var kept: map<Name, Id>;
    kept, deleted, names := Retain(known, pre, post);
    KeptIs(known, pre, post, kept);
    SetOfDistinct(names, Omitted(known, pre, post));
    seeded := kept + pre + post;
  }

  lemma KeptIs(known: map<Name, Id>, pre: map<Name, Id>, post: map<Name, Id>, kept: map<Name, Id>)
    requires forall n :: n in kept <==> n in known && (n in pre || n in post)
    requires forall n :: n in kept ==> kept[n] == known[n]
    ensures kept + pre + post == Seeded(known, pre, post)
  {
    assert kept == known - Omitted(known, pre, post);
  }

  /** Its `retain` loop; `names` are the dropped names in the order met. */
  method Retain(known: map<Name, Id>, pre: map<Name, Id>, post: map<Name, Id>)
    returns (kept: map<Name, Id>, deleted: seq<Id>, ghost names: seq<Name>)
    ensures forall n :: n in kept <==> n in known && (n in pre || n in post)
    ensures forall n :: n in kept ==> kept[n] == known[n]
    ensures NoDuplicates(names) && forall n :: n in names <==> n in Omitted(known, pre, post)
    ensures |names| == |deleted|
    ensures forall i :: 0 <= i < |names| ==> names[i] in known && deleted[i] == known[names[i]]
  {
    deleted, names, kept := [], [], known;
    var todo := known.Keys;
    while todo != {}
      invariant forall n :: n in todo ==> n in known
      invariant forall n :: n in kept <==> n in known && (n in todo || n in pre || n in post)
      invariant forall n :: n in kept ==> kept[n] == known[n]
      invariant NoDuplicates(names)
      invariant forall n :: n in names <==> n in known && n !in kept
      invariant |names| == |deleted|
      invariant forall i :: 0 <= i < |names| ==> names[i] in known && deleted[i] == known[names[i]]
      decreases |todo|
    {
      var n :| n in todo;
      todo := todo - {n};
      if n !in pre && n !in post {
        deleted, names := deleted + [known[n]], Snoc(names, n);
        kept := kept - {n};
      }
    }
  }

  ghost function Snoc(names: seq<Name>, n: Name): (r: seq<Name>)
    requires NoDuplicates(names) && n !in names
    ensures NoDuplicates(r) && forall m :: m in r <==> m in names || m == n
  {
    names + [n]
  }

  lemma {:induction false} SetOfDistinct(names: seq<Name>, all: set<Name>)
    requires NoDuplicates(names) && forall n :: n in names <==> n in all
    ensures |names| == |all|
  {
    if names != [] {
      var init := Init(names);
      assert names == init + [Last(names)];
      assert Last(names) !in init;
      SetOfDistinct(init, all - {Last(names)});
    } else {
      assert all == {};
    }
  }

  ghost function Remaining(ids: set<Id>): Task { if ids == {} then Idle else Reporting(ids) }

  ghost function Emit(s: State, e: LxdEvent): State {
    s.(stream := if s.link.HasStream() then s.stream + [e] else s.stream,
       emitted := s.emitted + {e}, usedKeys := s.usedKeys + {e.key})
  }

  ghost function WithMissed(
      gateways: map<GatewayId, Gateway>, add: set<Name>, drop: set<Name>): map<GatewayId, Gateway>
  {
    map g | g in gateways :: gateways[g].(missed := gateways[g].missed - drop + add)
  }

  /** A change is announced to whoever is subscribed; otherwise nobody hears of it. */
  ghost function Announce(s: State, n: Name, key: Key): State {
    var gateways := if s.link.HasStream() then WithMissed(s.gateways, {}, {n}) else WithMissed(s.gateways, {n}, {});
    Emit(s.(gateways := gateways), LxdEvent(key, Reread(n)))
  }

  ghost function Received(g: Gateway, e: WatchEvent): Gateway {
    if |g.queue| == CHANNEL_CAPACITY then g.(queue := g.queue[1..] + [e], lagged := true)
    else g.(queue := g.queue + [e])
  }

  ghost function Broadcast(s: State, e: WatchEvent): map<GatewayId, Gateway> {
    map g | g in s.gateways :: Received(s.gateways[g], e)
  }

  ghost predicate StreamPending(s: State, n: Name) {
    exists i :: 0 <= i < |s.stream| && s.stream[i].handling == Reread(n) && s.stream[i].key !in s.recent
  }

  /** A read of `n` is still to come. */
  ghost predicate ReadDue(s: State, n: Name) { s.task == MustRead(n) || StreamPending(s, n) }

  /** What was read of `n` and is about to be published is current, or will be read
      again. */
  ghost predicate InFlightOk(s: State, n: Name) {
    s.task.MustPublish? && s.task.name == n && n in s.lxd && s.lxd[n] != s.task.instance ==> StreamPending(s, n)
  }

  /** A change of configuration that shows and that no read is due to see. */
  ghost predicate Unheard(s: State, step: Step) {
    && step.Patch? && step.name in s.lxd && step.state != s.lxd[step.name].state
    && !ReadDue(s, step.name)
  }

  ghost predicate Enabled(s: State, step: Step) {
    match step
    case Create(n, inst, key) => n !in s.lxd && key !in s.usedKeys && (inst.id.Some? ==> inst.id.value !in s.usedIds)
    case Change(n, _, key) => n in s.lxd && key !in s.usedKeys
    case Patch(n, _, key) => n in s.lxd && key !in s.usedKeys
    case Remove(n, key) => n in s.lxd && key !in s.usedKeys
    case Noise(e) => e.key !in s.usedKeys && !e.handling.Forget?
    case Redeliver(e) => e in s.emitted
    case ListBefore => s.link.Down?
    case Subscribe => s.link.PreListed?
    case ListAfter => s.link.Subscribed?
    case Break => !s.link.Down? && s.task.Idle?
    case Consume => s.link.Live? && s.task.Idle? && s.stream != []
    case Read => s.task.MustRead?
    case ReadFails => s.task.MustRead?
    case Publish => s.task.MustPublish?
    case Report(id) => s.task.Reporting? && id in s.task.ids
    case DriverDeleted(id) => id in s.usedIds && forall n :: n in s.lxd ==> s.lxd[n].id != Some(id)
    case Open(g) => g !in s.gateways
    case List(g) => g in s.gateways && s.gateways[g].phase.Opened?
    case ListAgain(g, n) => g in s.gateways && s.gateways[g].phase.Listing? && n in s.gateways[g].snapshot && n in s.lxd
    case Respond(g) => g in s.gateways && s.gateways[g].phase.Listing?
    case Deliver(g) => g in s.gateways && s.gateways[g].phase.Streaming? && s.gateways[g].queue != []
  }

  ghost function Apply(s: State, step: Step): State
    requires Enabled(s, step)
  {
    match step
    case Create(n, inst, key) =>
      Announce(s.(lxd := s.lxd[n := inst], usedNames := s.usedNames + {n},
                  usedIds := if inst.id.Some? then s.usedIds + {inst.id.value} else s.usedIds), n, key)
    case Change(n, state, key) => Announce(s.(lxd := s.lxd[n := s.lxd[n].(state := state)]), n, key)
    case Patch(n, state, key) =>
      var gateways := WithMissed(s.gateways, if Unheard(s, step) then {n} else {}, {});
      Emit(s.(lxd := s.lxd[n := s.lxd[n].(state := state)], gateways := gateways), LxdEvent(key, Ignore))
    case Remove(n, key) => Emit(s.(lxd := s.lxd - {n}), LxdEvent(key, Forget(n)))
    case Noise(e) => Emit(s, e)
    case Redeliver(e) => Emit(s, e)
    case ListBefore => s.(link := PreListed(ManagedIds(s)))
    case Subscribe => s.(link := Subscribed(s.link.pre), stream := [], recent := [])
    case ListAfter =>
      s.(link := Live, known := Seeded(s.known, s.link.pre, ManagedIds(s)),
         task := Remaining(DeletedDuringGap(s.known, s.link.pre, ManagedIds(s))))
    case Break =>
      s.(link := Down, stream := [],
         gateways := WithMissed(s.gateways, set n | n in s.lxd && StreamPending(s, n), {}))
    case Consume => AfterConsume(s)
    case Read =>
      var n := s.task.name;
      if !Managed(s, n) then s.(task := Idle)
      else s.(known := s.known[n := s.lxd[n].id.value], task := MustPublish(n, s.lxd[n]))
    case ReadFails => s.(task := Idle, gateways := WithMissed(s.gateways, {s.task.name}, {}))
    case Publish =>
      var n := s.task.name;
      var sent := Broadcast(s, Sandbox(n, s.task.instance));
      s.(task := Idle, gateways := if InFlightOk(s, n) then WithMissed(sent, {}, {n}) else WithMissed(sent, {n}, {}))
    case Report(id) =>
      s.(task := Remaining(s.task.ids - {id}),
         gateways := Broadcast(s, Deleted(id)), reported := s.reported + {id})
    case DriverDeleted(id) => s.(gateways := Broadcast(s, Deleted(id)))
    case Open(g) => s.(gateways := s.gateways[g := Gateway(Opened, map[], [], [], false, {})])
    case List(g) =>
      var was := s.gateways[g];
      s.(gateways := s.gateways[g := was.(phase := Listing,
                                          snapshot := map n | n in s.lxd && s.lxd[n].id.Some? :: s.lxd[n],
                                          missed := set n | n in was.missed && LiveLast(was, n).Some?)])
    case ListAgain(g, n) =>
      var was := s.gateways[g];
      s.(gateways := s.gateways[g := was.(snapshot := was.snapshot[n := s.lxd[n]],
                                          missed := if LiveLast(was, n).Some? then was.missed else was.missed - {n})])
    case Respond(g) => s.(gateways := s.gateways[g := s.gateways[g].(phase := Streaming)])
    case Deliver(g) =>
      var was := s.gateways[g];
      s.(gateways := s.gateways[g := was.(delivered := was.delivered + [was.queue[0]], queue := was.queue[1..])])
  }

  /** One turn of the draining loop, up to its first await. */
  ghost function AfterConsume(s: State): State
    requires s.stream != []
  {
    var e := s.stream[0];
    var rest := s.(stream := s.stream[1..], recent := Remember(s.recent, e.key));
    if e.key in s.recent then rest
    else match e.handling
      case Ignore => rest
      case Forget(n) =>
        if n in s.known then rest.(known := s.known - {n}, task := Reporting({s.known[n]})) else rest
      case Reread(n) => rest.(task := MustRead(n))
  }

  // ----- runs

  ghost function Start(): State {
    State(map[], Down, [], [], map[], Idle, map[], {}, {}, {}, {}, {})
  }

  ghost predicate Allowed(s: State, steps: seq<Step>)
    decreases |steps|
  {
    steps == [] || (Enabled(s, steps[0]) && Allowed(Apply(s, steps[0]), steps[1..]))
  }

  ghost function Exec(s: State, steps: seq<Step>): State
    requires Allowed(s, steps)
    decreases |steps|
  {
    if steps == [] then s else Exec(Apply(s, steps[0]), steps[1..])
  }

  // ----- convergence of snapshots

  ghost function LastFor(events: seq<WatchEvent>, n: Name): Option<Instance> {
    if events == [] then None
    else if Last(events).Sandbox? && Last(events).name == n then Some(Last(events).instance)
    else LastFor(Init(events), n)
  }

  ghost function LiveLast(g: Gateway, n: Name): Option<Instance> { LastFor(g.delivered + g.queue, n) }

  /** The last snapshot of `n` in what was and will be delivered to `g`. */
  ghost function View(g: Gateway, n: Name): Option<Instance> {
    match LiveLast(g, n)
    case Some(inst) => Some(inst)
    case None => if n in g.snapshot then Some(g.snapshot[n]) else None
  }

  ghost predicate Pending(s: State, n: Name) {
    || s.task == MustRead(n)
    || (n in s.lxd && s.task == MustPublish(n, s.lxd[n]))
    || StreamPending(s, n)
  }

  ghost predicate Fresh(g: Gateway, n: Name, inst: Instance) {
    || View(g, n) == Some(inst)
    || (g.phase.Opened? && LiveLast(g, n).None?)
  }

  ghost predicate GatewayOk(s: State, g: Gateway, n: Name)
    requires n in s.lxd
  {
    g.lagged || n in g.missed || Pending(s, n) || Fresh(g, n, s.lxd[n])
  }

  ghost predicate KeysOk(s: State) {
    && (forall e :: e in s.emitted ==> e.key in s.usedKeys)
    && (forall e, f :: e in s.emitted && f in s.emitted && e.key == f.key ==> e == f)
    && (forall i :: 0 <= i < |s.stream| ==> s.stream[i] in s.emitted)
    && (forall k :: k in s.recent ==> k in s.usedKeys)
    && (!s.link.HasStream() ==> s.stream == [])
    && (!s.task.Idle? ==> s.link.Live?)
  }

  ghost predicate SnapshotsOk(s: State) {
    forall g, n :: g in s.gateways && Managed(s, n) ==> GatewayOk(s, s.gateways[g], n)
  }

  ghost predicate Inv(s: State) {
    KeysOk(s) && SnapshotsOk(s)
  }

  lemma StreamPendingEmit(s: State, e: LxdEvent, n: Name)
    requires s.link.HasStream()
    ensures StreamPending(s, n) ==> StreamPending(Emit(s, e), n)
    ensures e.handling == Reread(n) && e.key !in s.recent ==> StreamPending(Emit(s, e), n)
  {
    var t := Emit(s, e);
    assert t.stream[|s.stream|] == e;
    if StreamPending(s, n) {
      var i :| 0 <= i < |s.stream| && s.stream[i].handling == Reread(n) && s.stream[i].key !in s.recent;
      assert t.stream[i] == s.stream[i];
    }
  }

  ghost predicate IsLxd(step: Step) {
    step.Create? || step.Change? || step.Patch? || step.Remove? || step.Noise? || step.Redeliver?
  }

  lemma KeysStepLxd(s: State, step: Step)
    requires KeysOk(s) && Enabled(s, step) && IsLxd(step)
    ensures KeysOk(Apply(s, step))
  {
    var t := Apply(s, step);
    assert t.link == s.link && t.task == s.task && t.recent == s.recent;
  }

  lemma KeysStepRest(s: State, step: Step)
    requires KeysOk(s) && Enabled(s, step) && !IsLxd(step)
    ensures KeysOk(Apply(s, step))
  {
    KeysCarry(s, Apply(s, step));
  }

  lemma KeysCarry(s: State, t: State)
    requires KeysOk(s) && t.emitted == s.emitted && t.usedKeys == s.usedKeys
    requires t.stream == [] || t.stream == s.stream || (s.stream != [] && t.stream == s.stream[1..])
    requires t.recent == [] || t.recent == s.recent
      || (s.stream != [] && t.recent == Remember(s.recent, s.stream[0].key))
    requires !t.link.HasStream() ==> t.stream == []
    requires !t.task.Idle? ==> t.link.Live?
    ensures KeysOk(t)
  {
  }

  lemma ReceivedView(g: Gateway, e: WatchEvent, n: Name)
    requires |g.queue| != CHANNEL_CAPACITY
    ensures LiveLast(Received(g, e), n)
            == if e.Sandbox? && e.name == n then Some(e.instance) else LiveLast(g, n)
  {
    assert g.delivered + (g.queue + [e]) == (g.delivered + g.queue) + [e];
    assert Init((g.delivered + g.queue) + [e]) == g.delivered + g.queue;
  }

  /** What is fresh stays fresh while neither the instance nor what goes to the
      gateway changes. */
  lemma OkCarries(s: State, t: State, was: Gateway, now: Gateway, n: Name)
    requires n in s.lxd && n in t.lxd && s.lxd[n] == t.lxd[n] && GatewayOk(s, was, n)
    requires Pending(s, n) ==> Pending(t, n)
    requires n in was.missed ==> n in now.missed || Pending(t, n)
    requires was.lagged ==> now.lagged
    requires now.delivered + now.queue == was.delivered + was.queue
    requires now.snapshot == was.snapshot && now.phase.Opened? == was.phase.Opened?
    ensures GatewayOk(t, now, n)
  {
  }

  lemma LxdStep(s: State, step: Step)
    requires Inv(s) && Enabled(s, step)
    requires IsLxd(step)
    ensures SnapshotsOk(Apply(s, step))
  {
    var t := Apply(s, step);
    forall n | s.link.HasStream() ensures StreamPending(s, n) ==> StreamPending(t, n) {
      StreamPendingEmit(s, t.stream[|s.stream|], n);
    }
    if s.link.HasStream() && (step.Create? || step.Change?) {
      StreamPendingEmit(s, LxdEvent(step.key, Reread(step.name)), step.name);
      assert StreamPending(t, step.name);
    }
    forall g, n | g in t.gateways && Managed(t, n) ensures GatewayOk(t, t.gateways[g], n) {
      if n in s.lxd && s.lxd[n] == t.lxd[n] {
        assert Managed(s, n);
        OkCarries(s, t, s.gateways[g], t.gateways[g], n);
      }
    }
  }

  lemma ConsumeKeepsPending(s: State, n: Name)
    requires s.stream != [] && StreamPending(s, n)
    requires forall i :: 0 <= i < |s.stream| && s.stream[i].key == s.stream[0].key ==> s.stream[i] == s.stream[0]
    ensures Pending(AfterConsume(s), n)
  {
    var t := AfterConsume(s);
    var i :| 0 <= i < |s.stream| && s.stream[i].handling == Reread(n) && s.stream[i].key !in s.recent;
    if s.stream[i].key != s.stream[0].key {
      assert t.stream[i - 1] == s.stream[i];
      assert s.stream[i].key !in t.recent;
    }
  }

  lemma ConsumeStep(s: State)
    requires Inv(s) && Enabled(s, Consume)
    ensures SnapshotsOk(Apply(s, Consume))
  {
    var t := Apply(s, Consume);
    forall g, n | g in t.gateways && Managed(t, n) ensures GatewayOk(t, t.gateways[g], n) {
      assert Managed(s, n);
      if StreamPending(s, n) { ConsumeKeepsPending(s, n); }
      OkCarries(s, t, s.gateways[g], t.gateways[g], n);
    }
  }

  lemma PublishStep(s: State, step: Step)
    requires Inv(s) && Enabled(s, step)
    requires step.Publish? || step.Report? || step.DriverDeleted?
    ensures SnapshotsOk(Apply(s, step))
  {
    var t := Apply(s, step);
    assert forall n :: StreamPending(s, n) ==> StreamPending(t, n);
    forall g, n | g in t.gateways && Managed(t, n) ensures GatewayOk(t, t.gateways[g], n) {
      assert Managed(s, n) && GatewayOk(s, s.gateways[g], n);
      var e := if step.Publish? then Sandbox(s.task.name, s.task.instance) else Deleted(step.id);
      if |s.gateways[g].queue| != CHANNEL_CAPACITY {
        ReceivedView(s.gateways[g], e, n);
        assert t.gateways[g].(missed := {}) == Received(s.gateways[g], e).(missed := {});
        assert LiveLast(t.gateways[g], n) == LiveLast(Received(s.gateways[g], e), n);
      }
    }
  }

  lemma LinkStep(s: State, step: Step)
    requires Inv(s) && Enabled(s, step)
    requires step.ListBefore? || step.Subscribe? || step.ListAfter? || step.Read?
    ensures SnapshotsOk(Apply(s, step))
  {
    var t := Apply(s, step);
    assert s.stream == t.stream && (s.recent == t.recent || s.stream == []);
    assert forall n :: StreamPending(s, n) ==> StreamPending(t, n);
    forall g, n | g in t.gateways && Managed(t, n) ensures GatewayOk(t, t.gateways[g], n) {
      assert Managed(s, n) && GatewayOk(s, s.gateways[g], n);
    }
  }

  /** The steps that lose an announcement: the names it was about are missed. */
  lemma LossStep(s: State, step: Step)
    requires Inv(s) && Enabled(s, step)
    requires step.Break? || step.ReadFails?
    ensures SnapshotsOk(Apply(s, step))
  {
    var t := Apply(s, step);
    assert step.ReadFails? ==> forall n :: StreamPending(s, n) ==> StreamPending(t, n);
    forall g, n | g in t.gateways && Managed(t, n) ensures GatewayOk(t, t.gateways[g], n) {
      assert Managed(s, n) && GatewayOk(s, s.gateways[g], n);
      assert t.gateways[g] == s.gateways[g].(missed := t.gateways[g].missed);
      assert LiveLast(t.gateways[g], n) == LiveLast(s.gateways[g], n);
    }
  }

  lemma GatewayStep(s: State, step: Step)
    requires Inv(s) && Enabled(s, step)
    requires step.Open? || step.List? || step.ListAgain? || step.Respond? || step.Deliver?
    ensures SnapshotsOk(Apply(s, step))
  {
    var t := Apply(s, step);
    assert t == s.(gateways := t.gateways);
    assert forall n :: StreamPending(s, n) ==> StreamPending(t, n);
    forall g, n | g in t.gateways && Managed(t, n) ensures GatewayOk(t, t.gateways[g], n) {
      assert Managed(s, n);
      if g != step.g {
        OkCarries(s, t, s.gateways[g], t.gateways[g], n);
      } else {
        CallStep(s, step, n);
      }
    }
  }

  lemma CallStep(s: State, step: Step, n: Name)
    requires Enabled(s, step) && (step.Open? || step.List? || step.ListAgain? || step.Respond? || step.Deliver?)
    requires Managed(s, n) && (step.g in s.gateways ==> GatewayOk(s, s.gateways[step.g], n))
    ensures GatewayOk(Apply(s, step), Apply(s, step).gateways[step.g], n)
  {
    if step.List? || step.ListAgain? {
      ListStep(s, step, n);
    } else if !step.Open? {
      OkCarries(s, Apply(s, step), s.gateways[step.g], Apply(s, step).gateways[step.g], n);
    }
  }

  lemma ListStep(s: State, step: Step, n: Name)
    requires Enabled(s, step) && (step.List? || step.ListAgain?)
    requires Managed(s, n) && GatewayOk(s, s.gateways[step.g], n)
    ensures GatewayOk(Apply(s, step), Apply(s, step).gateways[step.g], n)
  {
  }

  lemma InvStep(s: State, step: Step)
    requires Inv(s) && Enabled(s, step)
    ensures Inv(Apply(s, step))
  {
    if IsLxd(step) {
      KeysStepLxd(s, step);
      LxdStep(s, step);
    } else {
      KeysStepRest(s, step);
      RestStep(s, step);
    }
  }

  lemma RestStep(s: State, step: Step)
    requires Inv(s) && Enabled(s, step) && !IsLxd(step)
    ensures SnapshotsOk(Apply(s, step))
  {
    match step
    case Consume => ConsumeStep(s);
    case Publish => PublishStep(s, step);
    case Report(_) => PublishStep(s, step);
    case DriverDeleted(_) => PublishStep(s, step);
    case Open(_) => GatewayStep(s, step);
    case List(_) => GatewayStep(s, step);
    case ListAgain(_, _) => GatewayStep(s, step);
    case Respond(_) => GatewayStep(s, step);
    case Deliver(_) => GatewayStep(s, step);
    case ListBefore => LinkStep(s, step);
    case Subscribe => LinkStep(s, step);
    case ListAfter => LinkStep(s, step);
    case Break => LossStep(s, step);
    case Read => LinkStep(s, step);
    case ReadFails => LossStep(s, step);
  }

  lemma {:induction false} InvRun(s: State, steps: seq<Step>)
    requires Inv(s) && Allowed(s, steps)
    ensures Inv(Exec(s, steps))
    decreases |steps|
  {
    if steps != [] {
      InvStep(s, steps[0]);
      InvRun(Apply(s, steps[0]), steps[1..]);
    }
  }
}
