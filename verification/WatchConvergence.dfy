/** What whole runs of the watch protocol guarantee about snapshots: the last
    snapshot a gateway holds is current, up to announcements still on their way
    and changes nobody announced. */
module WatchConvergence {
  import opened Common
  import opened Events
  import opened RecentEvents
  import opened Watch

  /** Nothing left on the way to `g`. */
  ghost predicate Drained(s: State, g: GatewayId) {
    && s.stream == [] && s.task.Idle?
    && g in s.gateways && s.gateways[g].phase.Streaming? && s.gateways[g].queue == []
  }

  /** The last snapshot of `n` that was delivered. */
  ghost function DeliveredView(g: Gateway, n: Name): Option<Instance> {
    match LastFor(g.delivered, n)
    case Some(inst) => Some(inst)
    case None => if n in g.snapshot then Some(g.snapshot[n]) else None
  }

  /** In every reachable state, and so in particular once the queues are drained:
      a sandbox a gateway has not missed is current in its view, or an
      announcement of it is pending. */
  lemma ViewCurrentOrPending(steps: seq<Step>, g: GatewayId, n: Name)
    requires Allowed(Start(), steps)
    requires var t := Exec(Start(), steps);
             g in t.gateways && !t.gateways[g].phase.Opened? && Managed(t, n)
    ensures var t := Exec(Start(), steps);
            var gateway := t.gateways[g];
            !gateway.lagged && n !in gateway.missed ==>
              && (View(gateway, n) == Some(t.lxd[n]) || Pending(t, n))
              && (Drained(t, g) ==> DeliveredView(gateway, n) == Some(t.lxd[n]))
  {
    InvRun(Start(), steps);
    var t := Exec(Start(), steps);
    assert GatewayOk(t, t.gateways[g], n);
    if Drained(t, g) {
      assert t.gateways[g].delivered + [] == t.gateways[g].delivered;
    }
  }

  /** The step loses no announcement of `n`: the stream holds, a read of `n` succeeds,
      and what a snapshot of `n` shows changes only with an event or before a read
      that is due. */
  ghost predicate KeepsHearing(s: State, step: Step, n: Name)
    requires Enabled(s, step)
  {
    !step.Break? && !(step.ReadFails? && s.task.name == n) && !(Unheard(s, step) && step.name == n)
  }

  ghost predicate Lossless(s: State, steps: seq<Step>, n: Name)
    requires Allowed(s, steps)
    decreases |steps|
  {
    steps != [] ==> KeepsHearing(s, steps[0], n) && Lossless(Apply(s, steps[0]), steps[1..], n)
  }

  /** The gateway is not open yet, or it has missed no change of `n`; and no outdated
      read of `n` is about to be published. */
  ghost predicate NotMissed(s: State, g: GatewayId, n: Name) {
    (g in s.gateways ==> n !in s.gateways[g].missed) && InFlightOk(s, n)
  }

  /** While a publication waits, the stream only grows. */
  lemma StreamStep(s: State, step: Step, n: Name)
    requires KeysOk(s) && s.link.HasStream() && Enabled(s, step) && !step.Break? && s.task.MustPublish?
    ensures StreamPending(s, n) ==> StreamPending(Apply(s, step), n)
    ensures Apply(s, step).task == s.task || step.Publish?
  {
    var t := Apply(s, step);
    if IsLxd(step) { StreamPendingEmit(s, t.stream[|s.stream|], n); }
  }

  lemma InFlightStep(s: State, step: Step, n: Name)
    requires KeysOk(s) && s.link.HasStream() && InFlightOk(s, n) && Enabled(s, step) && KeepsHearing(s, step, n)
    ensures InFlightOk(Apply(s, step), n)
  {
    if s.task.MustPublish? {
      StreamStep(s, step, n);
      if (step.Create? || step.Change?) && step.name == n {
        StreamPendingEmit(s, LxdEvent(step.key, Reread(n)), n);
        assert StreamPending(Apply(s, step), n);
      }
    }
  }

  /** Only a broken stream, a failed read, a change while nobody was subscribed, an
      unheard change of configuration, or the publishing of a read that such a change
      has outdated makes a gateway miss a name. */
  lemma MissedOnlyByLoss(s: State, step: Step, g: GatewayId, n: Name)
    requires Enabled(s, step) && g in s.gateways && g in Apply(s, step).gateways
    requires n in Apply(s, step).gateways[g].missed && n !in s.gateways[g].missed
    ensures || (step.Break? && StreamPending(s, n))
            || (step.ReadFails? && s.task == MustRead(n))
            || ((step.Create? || step.Change?) && step.name == n && !s.link.HasStream())
            || (Unheard(s, step) && step.name == n)
            || (step.Publish? && s.task.name == n && !InFlightOk(s, n))
  {
  }

  lemma NotMissedStep(s: State, step: Step, g: GatewayId, n: Name)
    requires KeysOk(s) && s.link.HasStream() && NotMissed(s, g, n) && Enabled(s, step) && KeepsHearing(s, step, n)
    ensures Apply(s, step).link.HasStream() && NotMissed(Apply(s, step), g, n)
  {
    InFlightStep(s, step, n);
    if g in s.gateways && g in Apply(s, step).gateways && n in Apply(s, step).gateways[g].missed {
      MissedOnlyByLoss(s, step, g, n);
    }
  }

  lemma {:induction false} NotMissedRun(s: State, steps: seq<Step>, g: GatewayId, n: Name)
    requires Inv(s) && s.link.HasStream() && NotMissed(s, g, n)
    requires Allowed(s, steps) && Lossless(s, steps, n)
    ensures NotMissed(Exec(s, steps), g, n)
    decreases |steps|
  {
    if steps != [] {
      NotMissedStep(s, steps[0], g, n);
      InvStep(s, steps[0]);
      NotMissedRun(Apply(s, steps[0]), steps[1..], g, n);
    }
  }

  lemma {:induction false} ExecAppend(s: State, a: seq<Step>, b: seq<Step>)
    requires Allowed(s, a) && Allowed(Exec(s, a), b)
    ensures Allowed(s, a + b) && Exec(s, a + b) == Exec(Exec(s, a), b)
    decreases |a|
  {
    if a == [] {
      assert a + b == b;
    } else {
      assert (a + b)[0] == a[0] && (a + b)[1..] == a[1..] + b;
      ExecAppend(Apply(s, a[0]), a[1..], b);
    }
  }

  /** Within one subscription: from any reachable state in which the watcher is
      subscribed, for any gateway that connects later or has missed no change of the
      sandbox so far, and whatever other gateways there are: whatever happens next
      short of a broken stream, a failed read of this sandbox or an unheard change of
      its configuration, once drained and if it did not lag, the gateway holds the
      sandbox's current state. */
  lemma WatchConverges(before: seq<Step>, steps: seq<Step>, g: GatewayId, n: Name)
    requires Allowed(Start(), before)
    requires var s := Exec(Start(), before);
             && s.link.HasStream() && NotMissed(s, g, n)
             && Allowed(s, steps) && Lossless(s, steps, n)
             && var t := Exec(s, steps);
                Drained(t, g) && !t.gateways[g].lagged && Managed(t, n)
    ensures var t := Exec(Exec(Start(), before), steps);
            DeliveredView(t.gateways[g], n) == Some(t.lxd[n])
  {
    var s := Exec(Start(), before);
    InvRun(Start(), before);
    NotMissedRun(s, steps, g, n);
    ExecAppend(Start(), before, steps);
    ViewCurrentOrPending(before + steps, g, n);
  }

  // ----- the converse: what no event announces is never seen

  /** Nothing on the way says anything about `n`. */
  ghost predicate Unannounced(s: State, n: Name) {
    && (forall i :: 0 <= i < |s.stream| ==> s.stream[i].handling != Reread(n))
    && s.task != MustRead(n) && !(s.task.MustPublish? && s.task.name == n)
  }

  /** The step neither touches `n` nor brings an event about it. */
  ghost predicate SilentOn(step: Step, g: GatewayId, n: Name) {
    match step
    case Create(m, _, _) => m != n
    case Change(m, _, _) => m != n
    case Patch(m, _, _) => m != n
    case Remove(m, _) => m != n
    case Noise(e) => e.handling != Reread(n)
    case Redeliver(e) => e.handling != Reread(n)
    case ListAgain(h, m) => h != g || m != n
    case _ => true
  }

  /** An open gateway's view of `n`, up to lagging. */
  ghost predicate Sees(s: State, g: GatewayId, n: Name, view: Option<Instance>) {
    && g in s.gateways && !s.gateways[g].phase.Opened?
    && (s.gateways[g].lagged || View(s.gateways[g], n) == view)
  }

  lemma SendKeepsView(g: Gateway, e: WatchEvent, n: Name)
    requires !(e.Sandbox? && e.name == n)
    ensures Received(g, e).lagged || View(Received(g, e), n) == View(g, n)
  {
    if |g.queue| != CHANNEL_CAPACITY { ReceivedView(g, e, n); }
  }

  lemma UntouchedStep(s: State, step: Step, g: GatewayId, n: Name)
    requires Enabled(s, step) && SilentOn(step, g, n)
    ensures var t := Apply(s, step); (n in t.lxd <==> n in s.lxd) && (n in s.lxd ==> t.lxd[n] == s.lxd[n])
  {
  }

  lemma UnannouncedStep(s: State, step: Step, g: GatewayId, n: Name)
    requires Enabled(s, step) && SilentOn(step, g, n) && Unannounced(s, n)
    ensures Unannounced(Apply(s, step), n)
  {
  }

  ghost predicate IsSend(step: Step) { step.Publish? || step.Report? || step.DriverDeleted? }

  ghost predicate IsCall(step: Step) {
    step.Open? || step.List? || step.ListAgain? || step.Respond? || step.Deliver?
  }

  /** All but sends and calls touch no more of a gateway than what it has missed. */
  lemma GatewayUntouched(s: State, step: Step, g: GatewayId)
    requires Enabled(s, step) && !IsSend(step) && !IsCall(step) && g in s.gateways
    ensures var t := Apply(s, step);
            g in t.gateways && t.gateways[g] == s.gateways[g].(missed := t.gateways[g].missed)
  {
  }

  lemma SeesSend(s: State, step: Step, g: GatewayId, n: Name, view: Option<Instance>)
    requires Enabled(s, step) && IsSend(step) && Unannounced(s, n) && Sees(s, g, n, view)
    ensures Sees(Apply(s, step), g, n, view)
  {
    if step.Publish? {
      SendKeepsView(s.gateways[g], Sandbox(s.task.name, s.task.instance), n);
    } else {
      SendKeepsView(s.gateways[g], Deleted(step.id), n);
    }
  }

  lemma SeesCall(s: State, step: Step, g: GatewayId, n: Name, view: Option<Instance>)
    requires Enabled(s, step) && IsCall(step) && SilentOn(step, g, n) && Sees(s, g, n, view)
    ensures Sees(Apply(s, step), g, n, view)
  {
    var was, now := s.gateways[g], Apply(s, step).gateways[g];
    assert now.delivered + now.queue == was.delivered + was.queue;
  }

  lemma SeesStep(s: State, step: Step, g: GatewayId, n: Name, view: Option<Instance>)
    requires Enabled(s, step) && SilentOn(step, g, n) && Unannounced(s, n) && Sees(s, g, n, view)
    ensures Sees(Apply(s, step), g, n, view)
  {
    if IsSend(step) {
      SeesSend(s, step, g, n, view);
    } else if IsCall(step) {
      SeesCall(s, step, g, n, view);
    } else {
      GatewayUntouched(s, step, g);
    }
  }

  lemma {:induction false} SilentRun(s: State, steps: seq<Step>, g: GatewayId, n: Name, view: Option<Instance>)
    requires Allowed(s, steps) && Unannounced(s, n) && Sees(s, g, n, view)
    requires forall i :: 0 <= i < |steps| ==> SilentOn(steps[i], g, n)
    ensures var t := Exec(s, steps);
            && Unannounced(t, n) && Sees(t, g, n, view)
            && (n in t.lxd <==> n in s.lxd) && (n in s.lxd ==> t.lxd[n] == s.lxd[n])
    decreases |steps|
  {
    if steps != [] {
      UntouchedStep(s, steps[0], g, n);
      UnannouncedStep(s, steps[0], g, n);
      SeesStep(s, steps[0], g, n, view);
      SilentRun(Apply(s, steps[0]), steps[1..], g, n, view);
    }
  }

  /** The step changes what a snapshot of `n` shows, and nobody hears of it: a change
      while nobody is subscribed, or a change of configuration. */
  ghost predicate ChangesUnheard(s: State, step: Step, n: Name) {
    && Enabled(s, step) && (step.Patch? || (step.Change? && !s.link.HasStream())) && step.name == n
    && Unannounced(s, n)
  }

  /** A change nobody hears of, seen from a gateway that was current: however often the
      watcher reconnects afterwards, the gateway is current again exactly if the change
      led back to the state it knew, until something new happens to the sandbox. */
  lemma UnheardChangeNeverSeen(s: State, change: Step, n: Name, steps: seq<Step>, g: GatewayId)
    requires KeysOk(s) && Managed(s, n) && ChangesUnheard(s, change, n)
    requires g in s.gateways && !s.gateways[g].phase.Opened? && View(s.gateways[g], n) == Some(s.lxd[n])
    requires var u := Apply(s, change);
             && Allowed(u, steps) && (forall i :: 0 <= i < |steps| ==> SilentOn(steps[i], g, n))
             && g in Exec(u, steps).gateways && !Exec(u, steps).gateways[g].lagged
    ensures var t := Exec(Apply(s, change), steps);
            Managed(t, n) && (View(t.gateways[g], n) == Some(t.lxd[n]) <==> change.state == s.lxd[n].state)
  {
    var u := Apply(s, change);
    assert u.gateways[g] == s.gateways[g].(missed := u.gateways[g].missed);
    SilentRun(u, steps, g, n, Some(s.lxd[n]));
  }

  /** `missed` may name a sandbox whose view is current: an event repeated on a
      stream that breaks says nothing new. What decides is the view itself. Once
      nothing on the way is about the sandbox, a gateway holds its current state
      after any number of reconnects exactly if it holds it now. */
  lemma UnannouncedStaysAsSeen(s: State, steps: seq<Step>, g: GatewayId, n: Name)
    requires Unannounced(s, n) && Managed(s, n) && g in s.gateways && !s.gateways[g].phase.Opened?
    requires Allowed(s, steps) && forall i :: 0 <= i < |steps| ==> SilentOn(steps[i], g, n)
    requires g in Exec(s, steps).gateways ==> !Exec(s, steps).gateways[g].lagged
    ensures var t := Exec(s, steps);
            && Managed(t, n) && g in t.gateways
            && (View(t.gateways[g], n) == Some(t.lxd[n]) <==> View(s.gateways[g], n) == Some(s.lxd[n]))
  {
    SilentRun(s, steps, g, n, View(s.gateways[g], n));
  }

  ghost predicate Reaches(s: State, t: State) {
    exists steps :: Allowed(s, steps) && Exec(s, steps) == t
  }

  lemma ReachesSelf(s: State)
    ensures Reaches(s, s)
  {
    assert Allowed(s, []) && Exec(s, []) == s;
  }

  lemma ReachesStep(s: State, t: State, step: Step)
    requires Reaches(s, t) && Enabled(t, step)
    ensures Reaches(s, Apply(t, step))
  {
    var steps :| Allowed(s, steps) && Exec(s, steps) == t;
    var u := Apply(t, step);
    assert [step][1..] == [] && Allowed(u, []) && Exec(u, []) == u;
    assert Allowed(t, [step]) && Exec(t, [step]) == Apply(t, step);
    ExecAppend(s, steps, [step]);
  }

  /** The subscription matters: whenever a drained gateway is current, a change
      during a gap leaves it drained and stale, because a reconnect only publishes
      deletions again. */
  lemma GapLeavesStaleSnapshot(s: State, g: GatewayId, n: Name, state: string, key: Key) returns (t: State)
    requires s.link.Live? && Drained(s, g) && Managed(s, n) && key !in s.usedKeys
    requires forall m :: m in s.known ==> Managed(s, m)
    requires DeliveredView(s.gateways[g], n) == Some(s.lxd[n]) && state != s.lxd[n].state
    ensures Reaches(s, t) && t.link.Live? && Drained(t, g) && Managed(t, n)
    ensures DeliveredView(t.gateways[g], n) == Some(s.lxd[n]) != Some(t.lxd[n])
  {
    t := DuringGap(s, n, state, key);
    assert t.gateways[g] == s.gateways[g].(missed := t.gateways[g].missed);
  }

  /** Nor is the subscription enough: a change of configuration only, such as a stop
      marker cleared without a change of status, leaves a drained gateway stale. */
  lemma PatchLeavesStaleSnapshot(s: State, g: GatewayId, n: Name, state: string, key: Key) returns (t: State)
    requires KeysOk(s) && s.link.Live? && Drained(s, g) && Managed(s, n) && key !in s.usedKeys
    requires DeliveredView(s.gateways[g], n) == Some(s.lxd[n]) && state != s.lxd[n].state
    ensures Reaches(s, t) && t.link.Live? && Drained(t, g) && Managed(t, n)
    ensures DeliveredView(t.gateways[g], n) == Some(s.lxd[n]) != Some(t.lxd[n])
  {
    ReachesSelf(s);
    ReachesStep(s, s, Patch(n, state, key));
    var a := Apply(s, Patch(n, state, key));
    ReachesStep(s, a, Consume);
    t := Apply(a, Consume);
    assert t.gateways[g] == s.gateways[g].(missed := t.gateways[g].missed);
  }

  lemma ChangeInGap(s: State, n: Name, state: string, key: Key) returns (t: State)
    requires s.link.Live? && s.stream == [] && s.task.Idle? && Managed(s, n) && key !in s.usedKeys
    ensures Reaches(s, t) && t.link.Down? && t.stream == [] && t.task.Idle? && t.known == s.known
    ensures t.lxd == s.lxd[n := s.lxd[n].(state := state)]
    ensures t.gateways.Keys == s.gateways.Keys
    ensures forall g :: g in s.gateways ==> t.gateways[g] == s.gateways[g].(missed := t.gateways[g].missed)
  {
    ReachesSelf(s);
    ReachesStep(s, s, Break);
    var a := Apply(s, Break);
    ReachesStep(s, a, Change(n, state, key));
    t := Apply(a, Change(n, state, key));
  }

  lemma DuringGap(s: State, n: Name, state: string, key: Key) returns (t: State)
    requires s.link.Live? && s.stream == [] && s.task.Idle? && Managed(s, n) && key !in s.usedKeys
    requires forall m :: m in s.known ==> Managed(s, m)
    ensures Reaches(s, t)
    ensures t.link == Live && t.stream == [] && t.task == Idle
    ensures t.lxd == s.lxd[n := s.lxd[n].(state := state)]
    ensures t.gateways.Keys == s.gateways.Keys
    ensures forall g :: g in s.gateways ==> t.gateways[g] == s.gateways[g].(missed := t.gateways[g].missed)
  {
    var b := ChangeInGap(s, n, state, key);
    ReachesStep(s, b, ListBefore);
    var c := Apply(b, ListBefore);
    ReachesStep(s, c, Subscribe);
    var d := Apply(c, Subscribe);
    ReachesStep(s, d, ListAfter);
    t := Apply(d, ListAfter);
  }

}
