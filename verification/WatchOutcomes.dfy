/** What a connection, an event and a call achieve when they run through
    (crates/openshell-driver-lxd/src/watcher.rs and grpc.rs). */
module WatchOutcomes {
  import opened Common
  import opened Events
  import opened RecentEvents
  import opened Watch
  import opened WatchConvergence
  import opened WatchRemovals
  import WatchDeletions

  /** A connection, step by step: the first listing names exactly the sandboxes of that
      moment, the subscription starts with an empty stream and memory, and after the
      second listing the watcher knows what the two say, the second one winning. */
  lemma ConnectionSteps(s: State)
    requires KeysOk(s) && s.link.Down?
    ensures Apply(s, ListBefore) == s.(link := PreListed(ManagedIds(s)))
    ensures forall n, id :: n in ManagedIds(s) && ManagedIds(s)[n] == id <==> n in s.lxd && s.lxd[n].id == Some(id)
    ensures var a := Apply(s, ListBefore);
            Apply(a, Subscribe) == s.(link := Subscribed(ManagedIds(s)), stream := [], recent := [])
  {
  }

  lemma SecondListing(s: State)
    requires KeysOk(s) && s.link.Subscribed?
    ensures Enabled(s, ListAfter) && Apply(s, ListAfter).link.Live? && Apply(s, ListAfter).stream == s.stream
    ensures Apply(s, ListAfter).known == s.link.pre + ManagedIds(s)
  {
    SeededIsListed(s.known, s.link.pre, ManagedIds(s));
  }

  /** A broken stream takes what was unread with it, and keeps the records. */
  lemma BreakLosesStream(s: State)
    requires Enabled(s, Break)
    ensures var t := Apply(s, Break);
            t.link.Down? && t.stream == [] && t.known == s.known && t.lxd == s.lxd && Enabled(t, ListBefore)
  {
  }

  /** An event repeated on a new connection is handled again. */
  lemma NewConnectionForgetsEvents(s: State, e: LxdEvent, n: Name)
    requires s.link.PreListed? && e in s.emitted && e.handling == Reread(n)
    ensures var a := Apply(s, Subscribe); Enabled(a, Redeliver(e)) && StreamPending(Apply(a, Redeliver(e)), n)
  {
    var a := Apply(s, Subscribe);
    assert Apply(a, Redeliver(e)).stream[0] == e;
  }

  /** One event through the watcher: the instance is read again, recorded if it is the
      driver's, and its present state sent to every open gateway. */
  lemma EventIsTaken(s: State, n: Name, key: Key)
    requires s.link.Live? && s.task.Idle? && s.stream != [] && s.stream[0] == LxdEvent(key, Reread(n))
    ensures Enabled(s, Consume)
    ensures var a := Apply(s, Consume);
            && a.stream == s.stream[1..] && a.known == s.known && a.gateways == s.gateways
            && a.task == if key in s.recent then Idle else MustRead(n)
  {
  }

  lemma InstanceIsRead(s: State, n: Name)
    requires s.task == MustRead(n)
    ensures var a := Apply(s, Read);
            if Managed(s, n) then a == s.(known := s.known[n := s.lxd[n].id.value], task := MustPublish(n, s.lxd[n]))
            else a == s.(task := Idle)
    ensures Apply(s, ReadFails).task.Idle? && Apply(s, ReadFails).known == s.known
  {
  }

  lemma SnapshotIsSent(s: State, n: Name, inst: Instance, g: GatewayId)
    requires s.task == MustPublish(n, inst) && g in s.gateways && |s.gateways[g].queue| < 64
    ensures var a := Apply(s, Publish);
            && a.task.Idle? && a.known == s.known
            && a.gateways[g].queue == s.gateways[g].queue + [Sandbox(n, inst)]
            && a.gateways[g].delivered == s.gateways[g].delivered && a.gateways[g].lagged == s.gateways[g].lagged
  {
  }

  /** A call, step by step: nothing at first, then every sandbox of that moment, then
      the queued events in order. */
  lemma CallOpens(s: State, g: GatewayId)
    requires g !in s.gateways
    ensures Apply(s, Open(g)) == s.(gateways := s.gateways[g := Gateway(Opened, map[], [], [], false, {})])
    ensures Enabled(Apply(s, Open(g)), List(g))
  {
  }

  lemma CallLists(s: State, g: GatewayId)
    requires Enabled(s, List(g))
    ensures var b := Apply(s, List(g)).gateways[g];
            && b.phase.Listing? && b.queue == s.gateways[g].queue
            && (forall n :: n in b.snapshot <==> Managed(s, n))
            && (forall n :: Managed(s, n) ==> b.snapshot[n] == s.lxd[n])
  {
  }

  /** A sandbox read again while listing shows its present state in the snapshot. */
  lemma CallListsAgain(s: State, g: GatewayId, n: Name)
    requires Enabled(s, ListAgain(g, n))
    ensures Apply(s, ListAgain(g, n)).gateways[g].snapshot == s.gateways[g].snapshot[n := s.lxd[n]]
    ensures Apply(s, ListAgain(g, n)).gateways[g].phase.Listing?
  {
  }

  lemma CallStreams(s: State, g: GatewayId)
    requires g in s.gateways
    ensures Enabled(s, Respond(g)) ==> Apply(s, Respond(g)).gateways[g] == s.gateways[g].(phase := Streaming)
    ensures Enabled(s, Deliver(g)) ==>
              var was, now := s.gateways[g], Apply(s, Deliver(g)).gateways[g];
              now.delivered == was.delivered + [was.queue[0]] && now.queue == was.queue[1..]
  {
  }

  /** A receiver that is 64 events behind loses the oldest and knows that it lagged. */
  lemma LaggingLosesOldest(g: Gateway, e: WatchEvent)
    requires |g.queue| <= 64
    ensures var now := Received(g, e);
            if |g.queue| == 64 then now.lagged && now.queue == g.queue[1..] + [e]
            else now.lagged == g.lagged && now.queue == g.queue + [e]
  {
  }

  // ----- whole operations

  lemma Connects(s: State) returns (b: State)
    requires KeysOk(s) && s.link.Down?
    ensures Reaches(s, b) && b == s.(link := Subscribed(ManagedIds(s)), stream := [], recent := []) && KeysOk(b)
  {
    ReachesSelf(s);
    ConnectionSteps(s);
    ReachesStep(s, s, ListBefore);
    var a := Apply(s, ListBefore);
    ReachesStep(s, a, Subscribe);
    b := Apply(a, Subscribe);
  }

  lemma ListsAgain(s: State, b: State) returns (c: State)
    requires Reaches(s, b) && b == s.(link := Subscribed(ManagedIds(s)), stream := [], recent := []) && KeysOk(b)
    ensures Reaches(s, c) && c.link.Live? && c.stream == [] && c.recent == [] && c.lxd == s.lxd
    ensures c.known == ManagedIds(s) && c.reported == s.reported
    ensures c.task.Idle? || (c.task.Reporting? && c.task.ids != {})
    ensures forall id :: SetsOut(c, id) <==> exists n :: Entry(s.known, n, id) && !Managed(s, n)
  {
    SecondListing(b);
    ReachesStep(s, b, ListAfter);
    c := Apply(b, ListAfter);
    Recorded(s, b);
    forall id ensures SetsOut(c, id) <==> exists n :: Entry(s.known, n, id) && !Managed(s, n) {
      SetsOutForGone(s, b, id);
    }
  }

  /** A connection made while nothing changes: the watcher is live on an empty stream,
      has reported everything it knew that is gone, and knows exactly the sandboxes
      there are. */
  lemma ConnectionCatchesUp(s: State) returns (t: State)
    requires KeysOk(s) && s.link.Down?
    ensures Reaches(s, t) && CaughtUp(t) && t.lxd == s.lxd && t.recent == []
    ensures forall n, id :: Entry(t.known, n, id) <==> n in s.lxd && s.lxd[n].id == Some(id)
    ensures forall id :: id in t.reported <==>
              id in s.reported || exists n :: Entry(s.known, n, id) && !Managed(s, n)
  {
    var b := Connects(s);
    var c := ListsAgain(s, b);
    t := ReportAll(s, c);
    assert forall id :: id in t.reported <==> id in s.reported || SetsOut(c, id);
    Recorded(s, s);
  }

  lemma Recorded(s: State, b: State)
    requires b.lxd == s.lxd
    ensures ManagedIds(b) == ManagedIds(s) && ManagedIds(s) + ManagedIds(b) == ManagedIds(s)
    ensures forall n, id :: Entry(ManagedIds(s), n, id) <==> n in s.lxd && s.lxd[n].id == Some(id)
  {
  }

  lemma SetsOutForGone(s: State, b: State, id: Id)
    requires b == s.(link := Subscribed(ManagedIds(s)), stream := [], recent := []) && KeysOk(b)
    ensures SetsOut(Apply(b, ListAfter), id) <==> exists n :: Entry(s.known, n, id) && !Managed(s, n)
  {
    WatchDeletions.ReconcileReportsOmitted(b, id);
    assert forall n :: n !in ManagedIds(s) && !Managed(b, n) <==> !Managed(s, n);
    if n :| n in b.known && b.known[n] == id && n !in b.link.pre && !Managed(b, n) { assert Entry(s.known, n, id); }
  }

  lemma ReadAndSent(s: State, a: State, n: Name) returns (t: State)
    requires Reaches(s, a) && a.task == MustRead(n) && Managed(a, n)
    ensures Reaches(s, t) && t.task.Idle? && t.stream == a.stream && t.lxd == a.lxd
    ensures t.known == a.known[n := a.lxd[n].id.value]
    ensures forall g :: g in a.gateways && |a.gateways[g].queue| < 64 ==>
              g in t.gateways && t.gateways[g].queue == a.gateways[g].queue + [Sandbox(n, a.lxd[n])]
  {
    InstanceIsRead(a, n);
    ReachesStep(s, a, Read);
    var b := Apply(a, Read);
    ReachesStep(s, b, Publish);
    t := Apply(b, Publish);
    forall g | g in a.gateways && |a.gateways[g].queue| < 64
      ensures g in t.gateways && t.gateways[g].queue == a.gateways[g].queue + [Sandbox(n, a.lxd[n])]
    {
      SnapshotIsSent(b, n, a.lxd[n], g);
    }
  }

  /** An event not seen before, taken off the stream: the sandbox is recorded, and every
      gateway that is not full gets its present state at the end of its queue. */
  lemma EventReachesGateways(s: State, n: Name, key: Key) returns (t: State)
    requires s.link.Live? && s.task.Idle? && s.stream != [] && s.stream[0] == LxdEvent(key, Reread(n))
    requires key !in s.recent && Managed(s, n)
    ensures Reaches(s, t) && t.task.Idle? && t.stream == s.stream[1..] && t.lxd == s.lxd
    ensures t.known == s.known[n := s.lxd[n].id.value]
    ensures forall g :: g in s.gateways && |s.gateways[g].queue| < 64 ==>
              g in t.gateways && t.gateways[g].queue == s.gateways[g].queue + [Sandbox(n, s.lxd[n])]
  {
    ReachesSelf(s);
    EventIsTaken(s, n, key);
    ReachesStep(s, s, Consume);
    t := ReadAndSent(s, Apply(s, Consume), n);
  }

  /** A deletion not seen before, of a recorded sandbox: the record goes, and every
      gateway that is not full gets the deletion at the end of its queue. */
  lemma DeletionReachesGateways(s: State, n: Name, key: Key) returns (t: State)
    requires s.link.Live? && s.task.Idle? && s.stream != [] && s.stream[0] == LxdEvent(key, Forget(n))
    requires key !in s.recent && n in s.known
    ensures Reaches(s, t) && t.task.Idle? && t.stream == s.stream[1..] && t.known == s.known - {n}
    ensures t.reported == s.reported + {s.known[n]}
    ensures forall g :: g in s.gateways && |s.gateways[g].queue| < 64 ==>
              g in t.gateways && t.gateways[g].queue == s.gateways[g].queue + [Deleted(s.known[n])]
  {
    ReachesSelf(s);
    ReachesStep(s, s, Consume);
    var a := Apply(s, Consume);
    assert a.task == Reporting({s.known[n]});
    ReachesStep(s, a, Report(s.known[n]));
    t := Apply(a, Report(s.known[n]));
  }

  /** A call made while nothing changes: it streams, after a snapshot of exactly the
      sandboxes there are. */
  lemma CallShowsAll(s: State, g: GatewayId) returns (t: State)
    requires g !in s.gateways
    ensures Reaches(s, t) && g in t.gateways && t.gateways[g].phase.Streaming? && t.lxd == s.lxd
    ensures t.gateways[g].delivered == [] && t.gateways[g].queue == []
    ensures forall n :: n in t.gateways[g].snapshot <==> Managed(s, n)
    ensures forall n :: Managed(s, n) ==> t.gateways[g].snapshot[n] == s.lxd[n]
  {
    ReachesSelf(s);
    CallOpens(s, g);
    ReachesStep(s, s, Open(g));
    var a := Apply(s, Open(g));
    CallLists(a, g);
    ReachesStep(s, a, List(g));
    var b := Apply(a, List(g));
    CallStreams(b, g);
    ReachesStep(s, b, Respond(g));
    t := Apply(b, Respond(g));
  }
}
