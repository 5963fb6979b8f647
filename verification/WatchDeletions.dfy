/** What whole runs of the watch protocol guarantee about deletions, over any
    number of reconnects. */
module WatchDeletions {
  import opened Common
  import opened Events
  import opened RecentEvents
  import opened Watch
  import opened WatchConvergence

  // ----- conservation

  /** The step writes the entry of `n`: a listing or a read of the instance. */
  ghost predicate Records(s: State, step: Step, n: Name)
    requires Enabled(s, step)
  {
    || (step.ListAfter? && (n in s.link.pre || Managed(s, n)))
    || (step.Read? && s.task.name == n && Managed(s, n))
  }

  ghost predicate Rerecorded(s: State, steps: seq<Step>, n: Name)
    requires Allowed(s, steps)
    decreases |steps|
  {
    steps != [] && (Records(s, steps[0], n) || Rerecorded(Apply(s, steps[0]), steps[1..], n))
  }

  ghost predicate AccountedFor(s: State, n: Name, id: Id) {
    || (n in s.known && s.known[n] == id)
    || id in s.reported
    || (s.task.Reporting? && id in s.task.ids)
  }

  lemma AccountedForStep(s: State, step: Step, n: Name, id: Id)
    requires KeysOk(s) && Enabled(s, step) && AccountedFor(s, n, id)
    ensures AccountedFor(Apply(s, step), n, id) || Records(s, step, n)
  {
    if step.ListAfter? && n in s.known && n !in s.link.pre && !Managed(s, n) {
      assert n in Omitted(s.known, s.link.pre, ManagedIds(s));
      assert s.known[n] in DeletedDuringGap(s.known, s.link.pre, ManagedIds(s));
    }
  }

  /** Whatever is recorded under a name stays known, is published as deleted (or
      is just being published), or the name is recorded again. */
  lemma DeletionConservation(before: seq<Step>, s: State, steps: seq<Step>, n: Name)
    requires Allowed(Start(), before) && s == Exec(Start(), before) && Allowed(s, steps) && n in s.known
    ensures AccountedFor(Exec(s, steps), n, s.known[n]) || Rerecorded(s, steps, n)
  {
    InvRun(Start(), before);
    AccountedForRun(s, steps, n, s.known[n]);
  }

  lemma {:induction false} AccountedForRun(s: State, steps: seq<Step>, n: Name, id: Id)
    requires Inv(s) && Allowed(s, steps) && AccountedFor(s, n, id)
    ensures AccountedFor(Exec(s, steps), n, id) || Rerecorded(s, steps, n)
    decreases |steps|
  {
    if steps != [] {
      AccountedForStep(s, steps[0], n, id);
      InvStep(s, steps[0]);
      if !Records(s, steps[0], n) {
        AccountedForRun(Apply(s, steps[0]), steps[1..], n, id);
      }
    }
  }

  /** A reconcile sets out to publish exactly the known ids whose name both listings
      omit. */
  lemma ReconcileReportsOmitted(s: State, id: Id)
    requires KeysOk(s) && Enabled(s, ListAfter)
    ensures var t := Apply(s, ListAfter);
            (t.task.Reporting? && id in t.task.ids) <==>
            exists n :: n in s.known && s.known[n] == id && n !in s.link.pre && !Managed(s, n)
  {
    if n :| n in s.known && s.known[n] == id && n !in s.link.pre && !Managed(s, n) {
      assert n in Omitted(s.known, s.link.pre, ManagedIds(s));
      assert s.known[n] in DeletedDuringGap(s.known, s.link.pre, ManagedIds(s));
    }
  }

  /** `id` is about to be published, or it was: to `g` too, unless that one lagged. */
  ghost predicate BeingPublished(s: State, id: Id, g: GatewayId) {
    || (s.task.Reporting? && id in s.task.ids)
    || (id in s.reported && g in s.gateways && (s.gateways[g].lagged || Deleted(id) in Queued(s, g)))
  }

  lemma BroadcastReaches(s: State, e: WatchEvent, g: GatewayId)
    requires g in s.gateways
    ensures var now := Broadcast(s, e)[g];
            && (now.lagged || e in now.delivered + now.queue)
            && (forall x :: x in Queued(s, g) ==> now.lagged || x in now.delivered + now.queue)
  {
    var now := Received(s.gateways[g], e);
    assert (now.delivered + now.queue)[|now.delivered + now.queue| - 1] == e;
    if !now.lagged {
      assert now.delivered + now.queue == Queued(s, g) + [e];
    }
  }

  lemma BeingPublishedStep(s: State, step: Step, id: Id, g: GatewayId)
    requires KeysOk(s) && Enabled(s, step) && g in s.gateways && BeingPublished(s, id, g)
    ensures g in Apply(s, step).gateways && BeingPublished(Apply(s, step), id, g)
  {
    var t := Apply(s, step);
    if step.Publish? {
      BroadcastReaches(s, Sandbox(s.task.name, s.task.instance), g);
    } else if step.Report? {
      BroadcastReaches(s, Deleted(step.id), g);
      assert id != step.id && s.task.Reporting? && id in s.task.ids ==> id in s.task.ids - {step.id};
    } else if step.DriverDeleted? {
      BroadcastReaches(s, Deleted(step.id), g);
    } else {
      assert Queued(t, g) == Queued(s, g);
    }
  }

  lemma {:induction false} BeingPublishedRun(s: State, steps: seq<Step>, id: Id, g: GatewayId)
    requires Inv(s) && Allowed(s, steps) && g in s.gateways && BeingPublished(s, id, g)
    ensures g in Exec(s, steps).gateways && BeingPublished(Exec(s, steps), id, g)
    decreases |steps|
  {
    if steps != [] {
      BeingPublishedStep(s, steps[0], id, g);
      InvStep(s, steps[0]);
      BeingPublishedRun(Apply(s, steps[0]), steps[1..], id, g);
    }
  }

  /** Once a reconcile is through, every known id whose name both listings omit has
      been published, and every gateway open at the time has it or lagged. */
  lemma ReconcilePublishesOmitted(before: seq<Step>, s: State, steps: seq<Step>, n: Name, g: GatewayId)
    requires Allowed(Start(), before) && s == Exec(Start(), before) && Enabled(s, ListAfter)
    requires n in s.known && n !in s.link.pre && !Managed(s, n) && g in s.gateways
    requires var u := Apply(s, ListAfter); Allowed(u, steps) && !Exec(u, steps).task.Reporting?
    ensures var t := Exec(Apply(s, ListAfter), steps);
            && s.known[n] in t.reported && g in t.gateways
            && (t.gateways[g].lagged || Deleted(s.known[n]) in Queued(t, g))
  {
    InvRun(Start(), before);
    ReconcileReportsOmitted(s, s.known[n]);
    InvStep(s, ListAfter);
    BeingPublishedRun(Apply(s, ListAfter), steps, s.known[n], g);
  }

  /** What the watcher has set out to publish it publishes: once it is through, every
      gateway open at the time has the deletion or lagged. */
  lemma SetOutIsSent(s: State, steps: seq<Step>, id: Id, g: GatewayId)
    requires Inv(s) && s.task.Reporting? && id in s.task.ids && g in s.gateways
    requires Allowed(s, steps) && !Exec(s, steps).task.Reporting?
    ensures var t := Exec(s, steps);
            && id in t.reported && g in t.gateways
            && (t.gateways[g].lagged || Deleted(id) in Queued(t, g))
  {
    BeingPublishedRun(s, steps, id, g);
  }

  // ----- deletions by the driver itself

  lemma SentStep(s: State, step: Step, e: WatchEvent, g: GatewayId)
    requires Enabled(s, step) && g in s.gateways && (s.gateways[g].lagged || e in Queued(s, g))
    ensures var t := Apply(s, step); g in t.gateways && (t.gateways[g].lagged || e in Queued(t, g))
  {
    if IsSend(step) {
      var sent := if step.Publish? then Sandbox(s.task.name, s.task.instance) else Deleted(step.id);
      BroadcastReaches(s, sent, g);
    } else {
      assert Queued(Apply(s, step), g) == Queued(s, g);
    }
  }

  lemma {:induction false} SentRun(s: State, steps: seq<Step>, e: WatchEvent, g: GatewayId)
    requires Allowed(s, steps) && g in s.gateways && (s.gateways[g].lagged || e in Queued(s, g))
    ensures var t := Exec(s, steps); g in t.gateways && (t.gateways[g].lagged || e in Queued(t, g))
    decreases |steps|
  {
    if steps != [] {
      SentStep(s, steps[0], e, g);
      SentRun(Apply(s, steps[0]), steps[1..], e, g);
    }
  }

  /** A DeleteSandbox call publishes what it removed, whether or not the watcher ever
      recorded it: every gateway open at the time has the deletion, then and through
      every later run, or it lagged. The watcher's own records are untouched. */
  lemma DriverDeletionIsSent(s: State, id: Id, steps: seq<Step>, g: GatewayId)
    requires Enabled(s, DriverDeleted(id)) && g in s.gateways && Allowed(Apply(s, DriverDeleted(id)), steps)
    ensures var u := Apply(s, DriverDeleted(id)); u == s.(gateways := u.gateways)
    ensures var t := Exec(Apply(s, DriverDeleted(id)), steps);
            g in t.gateways && (t.gateways[g].lagged || Deleted(id) in Queued(t, g))
  {
    BroadcastReaches(s, Deleted(id), g);
    SentRun(Apply(s, DriverDeleted(id)), steps, Deleted(id), g);
  }

  // ----- no live sandbox is reported deleted

  /** Names are created at most once. */
  ghost predicate NoReuse(s: State, steps: seq<Step>)
    requires Allowed(s, steps)
    decreases |steps|
  {
    steps != [] ==>
      && (steps[0].Create? ==> steps[0].name !in s.usedNames)
      && NoReuse(Apply(s, steps[0]), steps[1..])
  }

  ghost predicate Dead(s: State, id: Id) {
    id in s.usedIds && forall n :: n in s.lxd ==> s.lxd[n].id != Some(id)
  }

  ghost predicate EntryOk(s: State, n: Name, id: Id) {
    n in s.usedNames && if n in s.lxd then s.lxd[n].id == Some(id) else Dead(s, id)
  }

  ghost predicate IdsOk(s: State) {
    && (forall n :: n in s.lxd ==> n in s.usedNames)
    && (forall n :: Managed(s, n) ==> s.lxd[n].id.value in s.usedIds)
    && (forall n, m :: Managed(s, n) && Managed(s, m) && s.lxd[n].id == s.lxd[m].id ==> n == m)
  }

  ghost predicate EntriesOk(s: State) {
    && (forall n :: n in s.known ==> EntryOk(s, n, s.known[n]))
    && (s.link.PreListed? || s.link.Subscribed? ==> forall n :: n in s.link.pre ==> EntryOk(s, n, s.link.pre[n]))
    && (forall e :: e in s.emitted && e.handling.Forget? ==>
         e.handling.name in s.usedNames && e.handling.name !in s.lxd)
  }

  ghost predicate ReportsOk(s: State) {
    && (s.task.Reporting? ==> forall id :: id in s.task.ids ==> Dead(s, id))
    && (forall id :: id in s.reported ==> Dead(s, id))
    && (forall g, e :: g in s.gateways && e in Queued(s, g) && e.Deleted? ==> Dead(s, e.id))
  }

  ghost predicate DeadInv(s: State) { KeysOk(s) && IdsOk(s) && EntriesOk(s) && ReportsOk(s) }

  ghost predicate FreshName(s: State, step: Step) { step.Create? ==> step.name !in s.usedNames }

  /** The part of a step these facts depend on: what it does to the instances,
      the used names and ids. */
  ghost predicate Grows(s: State, t: State) {
    && s.usedIds <= t.usedIds && s.usedNames <= t.usedNames
    && (forall n :: n in t.lxd && n in s.lxd ==> t.lxd[n].id == s.lxd[n].id)
    && (forall n :: n in t.lxd && n !in s.lxd ==>
          && n !in s.usedNames && n in t.usedNames
          && (t.lxd[n].id.Some? ==> t.lxd[n].id.value !in s.usedIds && t.lxd[n].id.value in t.usedIds))
    && (forall n, m :: n in t.lxd && n !in s.lxd && m in t.lxd && m !in s.lxd ==> n == m)
  }

  lemma StepGrows(s: State, step: Step)
    requires Enabled(s, step) && FreshName(s, step)
    ensures Grows(s, Apply(s, step))
  {
  }

  lemma DeadStays(s: State, t: State, id: Id)
    requires Grows(s, t) && Dead(s, id)
    ensures Dead(t, id)
  {
  }

  lemma EntryStays(s: State, t: State, n: Name, id: Id)
    requires IdsOk(s) && Grows(s, t) && EntryOk(s, n, id)
    ensures EntryOk(t, n, id)
  {
    if n in s.lxd && n !in t.lxd {
      assert Managed(s, n);
      forall m | m in t.lxd ensures t.lxd[m].id != Some(id) {
        assert m in s.lxd && s.lxd[m].id.Some? ==> Managed(s, m);
      }
    }
  }

  /** Every entry the watcher keeps comes from before, a listing or a read. */
  lemma KnownFrom(s: State, step: Step, n: Name)
    requires Enabled(s, step) && n in Apply(s, step).known
    ensures var id := Apply(s, step).known[n];
            || (n in s.known && s.known[n] == id)
            || (Managed(s, n) && s.lxd[n].id == Some(id))
            || (step.ListAfter? && n in s.link.pre && s.link.pre[n] == id)
  {
  }

  lemma EntriesStep(s: State, step: Step)
    requires KeysOk(s) && IdsOk(s) && EntriesOk(s) && Enabled(s, step) && FreshName(s, step)
    ensures EntriesOk(Apply(s, step))
  {
    var t := Apply(s, step);
    StepGrows(s, step);
    forall n, id | EntryOk(s, n, id) ensures EntryOk(t, n, id) {
      EntryStays(s, t, n, id);
    }
    forall n | n in t.known ensures EntryOk(t, n, t.known[n]) {
      KnownFrom(s, step, n);
      assert EntryOk(s, n, t.known[n]);
    }
    PreAndEmitted(s, step);
  }

  lemma PreAndEmitted(s: State, step: Step)
    requires KeysOk(s) && IdsOk(s) && EntriesOk(s) && Enabled(s, step) && FreshName(s, step)
    requires forall n, id :: EntryOk(s, n, id) ==> EntryOk(Apply(s, step), n, id)
    ensures var t := Apply(s, step);
            && (t.link.PreListed? || t.link.Subscribed? ==>
                  forall n :: n in t.link.pre ==> EntryOk(t, n, t.link.pre[n]))
            && (forall e :: e in t.emitted && e.handling.Forget? ==>
                 e.handling.name in t.usedNames && e.handling.name !in t.lxd)
  {
    var t := Apply(s, step);
    if t.link.PreListed? || t.link.Subscribed? {
      forall n | n in t.link.pre ensures EntryOk(t, n, t.link.pre[n]) {
        assert EntryOk(s, n, t.link.pre[n]);
      }
    }
  }

  lemma ReportsStep(s: State, step: Step)
    requires DeadInv(s) && Enabled(s, step) && FreshName(s, step)
    ensures ReportsOk(Apply(s, step))
  {
    var t := Apply(s, step);
    StepGrows(s, step);
    forall id | Dead(s, id) ensures Dead(t, id) {
      DeadStays(s, t, id);
    }
    if t.task.Reporting? {
      forall id | id in t.task.ids ensures Dead(s, id) {
        ReportedIsDead(s, step, id);
      }
    }
    forall g, e | g in t.gateways && e in Queued(t, g) && e.Deleted?
      ensures Dead(s, e.id)
    {
      BroadcastIsDead(s, step, g, e);
    }
    assert forall id :: id in t.reported ==> id in s.reported || (s.task.Reporting? && id in s.task.ids);
  }

  lemma ReportedIsDead(s: State, step: Step, id: Id)
    requires DeadInv(s) && Enabled(s, step)
    requires Apply(s, step).task.Reporting? && id in Apply(s, step).task.ids
    ensures Dead(s, id)
  {
    if step.ListAfter? {
      ReconcileReportsOmitted(s, id);
      var n :| n in s.known && s.known[n] == id && n !in s.link.pre && !Managed(s, n);
      assert EntryOk(s, n, id);
    } else if step.Consume? {
      assert s.stream[0] in s.emitted;
      assert EntryOk(s, s.stream[0].handling.name, id);
    }
  }

  ghost function Queued(s: State, g: GatewayId): seq<WatchEvent>
    requires g in s.gateways
  {
    s.gateways[g].delivered + s.gateways[g].queue
  }

  lemma ReceivedHas(g: Gateway, e: WatchEvent, x: WatchEvent)
    requires x in Received(g, e).delivered + Received(g, e).queue
    ensures x in g.delivered + g.queue || x == e
  {
  }

  lemma SentFrom(s: State, step: Step, g: GatewayId, e: WatchEvent)
    requires Enabled(s, step) && IsSend(step) && g in Apply(s, step).gateways && e in Queued(Apply(s, step), g)
    ensures g in s.gateways
    ensures e in Queued(s, g) || e.Sandbox? || (e == Deleted(step.id) && !step.Publish?)
  {
    var sent := if step.Publish? then Sandbox(s.task.name, s.task.instance) else Deleted(step.id);
    ReceivedHas(s.gateways[g], sent, e);
  }

  lemma UnsentFrom(s: State, step: Step, g: GatewayId, e: WatchEvent)
    requires Enabled(s, step) && !IsSend(step) && g in Apply(s, step).gateways && e in Queued(Apply(s, step), g)
    ensures g in s.gateways && e in Queued(s, g)
  {
    var t := Apply(s, step);
    if g in s.gateways {
      var was, now := s.gateways[g], t.gateways[g];
      assert now.delivered + now.queue == was.delivered + was.queue;
    }
  }

  lemma BroadcastIsDead(s: State, step: Step, g: GatewayId, e: WatchEvent)
    requires DeadInv(s) && Enabled(s, step)
    requires g in Apply(s, step).gateways && e in Queued(Apply(s, step), g) && e.Deleted?
    ensures Dead(s, e.id)
  {
    if IsSend(step) { SentFrom(s, step, g, e); } else { UnsentFrom(s, step, g, e); }
  }

  /** While names are not reused, no id of an existing sandbox is ever reported
      deleted, to any gateway, over any number of reconnects. */
  lemma NoLiveSandboxReportedDeleted(steps: seq<Step>, g: GatewayId, id: Id, n: Name)
    requires Allowed(Start(), steps) && NoReuse(Start(), steps)
    requires var t := Exec(Start(), steps); g in t.gateways && Deleted(id) in Queued(t, g)
    ensures var t := Exec(Start(), steps); id in t.usedIds && (n in t.lxd ==> t.lxd[n].id != Some(id))
  {
    DeadInvRun(Start(), steps);
  }

  lemma {:induction false} DeadInvRun(s: State, steps: seq<Step>)
    requires DeadInv(s) && Allowed(s, steps) && NoReuse(s, steps)
    ensures DeadInv(Exec(s, steps))
    decreases |steps|
  {
    if steps != [] {
      StepGrows(s, steps[0]);
      EntriesStep(s, steps[0]);
      ReportsStep(s, steps[0]);
      if IsLxd(steps[0]) { KeysStepLxd(s, steps[0]); } else { KeysStepRest(s, steps[0]); }
      DeadInvRun(Apply(s, steps[0]), steps[1..]);
    }
  }

  /** Without that condition it can happen: a read that was due before the removal
      records the new instance, and the removal of the old one then reports it. */
  lemma ReuseReportsLiveSandbox(s: State, n: Name, id: Id, state: string, k1: Key, k2: Key) returns (t: State)
    requires KeysOk(s) && s.link.Live? && s.task == MustRead(n) && s.stream == [] && n in s.lxd
    requires id !in s.usedIds && k1 !in s.usedKeys && k2 !in s.usedKeys && k1 != k2
    ensures Reaches(s, t) && Managed(t, n) && t.lxd[n].id == Some(id) && id in t.reported
  {
    ReachesSelf(s);
    ReachesStep(s, s, Remove(n, k1));
    var a := Apply(s, Remove(n, k1));
    var b := Apply(a, Create(n, Instance(Some(id), state), k2));
    ReachesStep(s, a, Create(n, Instance(Some(id), state), k2));
    assert b.stream[0] == LxdEvent(k1, Forget(n)) && b.link.Live?;
    t := ReadThenForget(s, b, n, k1);
  }

  lemma ReadThenForget(s: State, b: State, n: Name, k1: Key) returns (t: State)
    requires Reaches(s, b) && b.link.Live? && b.task == MustRead(n) && Managed(b, n)
    requires b.stream != [] && b.stream[0] == LxdEvent(k1, Forget(n)) && k1 !in b.recent
    ensures Reaches(s, t) && t.lxd == b.lxd && b.lxd[n].id.value in t.reported
  {
    ReachesStep(s, b, Read);
    var c := Apply(b, Read);
    ReachesStep(s, c, Publish);
    var d := Apply(c, Publish);
    ReachesStep(s, d, Consume);
    var e := Apply(d, Consume);
    ReachesStep(s, e, Report(b.lxd[n].id.value));
    t := Apply(e, Report(b.lxd[n].id.value));
  }
}
