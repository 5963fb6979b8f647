/** Which removals of sandboxes the watcher reports, depending on where it stands
    when they happen. */
module WatchRemovals {
  import opened Common
  import opened Events
  import opened RecentEvents
  import opened Watch
  import opened WatchConvergence
  import opened WatchDeletions

  ghost predicate Entry(entries: map<Name, Id>, n: Name, id: Id) { n in entries && entries[n] == id }

  /** The watcher has set out to report `id`. */
  ghost predicate SetsOut(s: State, id: Id) { s.task.Reporting? && id in s.task.ids }

  /** Whether the sandbox `id`, removed in state `s` under the name `n`, is reported
      once the watcher has caught up. On a live stream the watcher must have recorded
      it. After subscribing, what the first listing says of the name decides, and
      otherwise the record, since the second listing omits it. Between the first
      listing and subscribing there is no event, and the first listing keeps the name
      from being reported. Without a connection it must be recorded from before. */
  ghost predicate ReportedOnceDrained(s: State, n: Name, id: Id) {
    || id in s.reported || SetsOut(s, id)
    || match s.link
       case Live => Entry(s.known, n, id)
       case Subscribed(pre) => if n in pre then pre[n] == id else Entry(s.known, n, id)
       case PreListed(pre) => n !in pre && Entry(s.known, n, id)
       case Down => Entry(s.known, n, id)
  }

  ghost predicate StreamForgets(s: State, n: Name) {
    exists i :: 0 <= i < |s.stream| && s.stream[i].handling == Forget(n) && s.stream[i].key !in s.recent
  }

  /** The removal of `n` is on its way to being reported as `id`. */
  ghost predicate WillReport(s: State, n: Name, id: Id) {
    || id in s.reported || SetsOut(s, id)
    || (n !in s.lxd
        && match s.link
           case Live => Entry(s.known, n, id) && StreamForgets(s, n)
           case Subscribed(pre) => if n in pre then pre[n] == id && StreamForgets(s, n) else Entry(s.known, n, id)
           case PreListed(pre) => n !in pre && Entry(s.known, n, id)
           case Down => Entry(s.known, n, id))
  }

  ghost function Listed(s: State): map<Name, Id> {
    if s.link.PreListed? || s.link.Subscribed? then s.link.pre else map[]
  }

  ghost predicate NoForget(s: State, n: Name) {
    forall i :: 0 <= i < |s.stream| ==> s.stream[i].handling != Forget(n)
  }

  /** The watcher has an entry for `id` under `n`, or will get it from its first
      listing, but no event about `n` is coming. */
  ghost predicate Overlooked(s: State, n: Name, id: Id) {
    NoForget(s, n) && (if s.link.Live? then Entry(s.known, n, id) else Entry(Listed(s), n, id))
  }

  /** The first listing has another sandbox under `n`, which will be recorded instead. */
  ghost predicate Overwritten(s: State, n: Name, id: Id) { n in Listed(s) && Listed(s)[n] != id }

  /** The watcher has no entry for `id`. */
  ghost predicate Untraced(s: State, n: Name, id: Id) { !Entry(s.known, n, id) && !Entry(Listed(s), n, id) }

  /** Nothing will report `id` within this connection. */
  ghost predicate CannotReport(s: State, n: Name, id: Id) {
    && Dead(s, id) && n !in s.lxd && id !in s.reported && !SetsOut(s, id)
    && (forall m :: m != n ==> Untraced(s, m, id))
    && (Untraced(s, n, id) || Overwritten(s, n, id) || Overlooked(s, n, id))
  }

  /** One connection, without a new sandbox of that name. LXD repeats events, but to
      a listener that was there: `heard` tells whether one was at the removal. */
  ghost predicate Quiet(step: Step, n: Name, heard: bool) {
    && !step.Break? && !(step.Create? && step.name == n)
    && (step.Redeliver? && step.event.handling == Forget(n) ==> heard)
  }

  lemma WillReportStep(s: State, step: Step, n: Name, id: Id)
    requires KeysOk(s) && Enabled(s, step) && Quiet(step, n, true) && WillReport(s, n, id)
    ensures WillReport(Apply(s, step), n, id)
  {
    if id in s.reported || SetsOut(s, id) {
      SetOutStep(s, step, id);
    } else if step.Consume? {
      assert forall i :: 0 <= i < |s.stream| ==> s.stream[i] in s.emitted && s.stream[0] in s.emitted;
      ConsumeForgets(s, n, id);
    } else if step.ListAfter? {
      ListAfterReports(s, n, id);
    } else {
      RecordsKept(s, step, n, id);
      if StreamForgets(s, n) && s.link.HasStream() { ForgetsKept(s, step, n); }
    }
  }

  lemma SetOutStep(s: State, step: Step, id: Id)
    requires KeysOk(s) && Enabled(s, step) && (id in s.reported || SetsOut(s, id))
    ensures id in Apply(s, step).reported || SetsOut(Apply(s, step), id)
  {
  }

  /** Without a listing, a deletion or a break the records of a removed name stay, and
      the connection only advances. */
  lemma RecordsKept(s: State, step: Step, n: Name, id: Id)
    requires Enabled(s, step) && n !in s.lxd && Quiet(step, n, true) && !step.Consume? && !step.ListAfter?
    ensures var t := Apply(s, step);
            && n !in t.lxd && (Entry(t.known, n, id) <==> Entry(s.known, n, id))
            && (t.link == s.link
                || (s.link.Down? && t.link.PreListed? && n !in t.link.pre)
                || (s.link.PreListed? && t.link == Subscribed(s.link.pre)))
  {
  }

  lemma ForgetsKept(s: State, step: Step, n: Name)
    requires Enabled(s, step) && StreamForgets(s, n) && s.link.HasStream() && !step.Consume? && !step.Break?
    ensures StreamForgets(Apply(s, step), n)
  {
    var t := Apply(s, step);
    var i :| 0 <= i < |s.stream| && s.stream[i].handling == Forget(n) && s.stream[i].key !in s.recent;
    assert t.stream[i] == s.stream[i] && t.recent == s.recent;
  }

  lemma ListAfterReports(s: State, n: Name, id: Id)
    requires KeysOk(s) && Enabled(s, ListAfter) && WillReport(s, n, id) && id !in s.reported && !SetsOut(s, id)
    ensures WillReport(Apply(s, ListAfter), n, id)
  {
    if n !in s.link.pre {
      ReconcileReportsOmitted(s, id);
    } else {
      assert StreamForgets(Apply(s, ListAfter), n);
    }
  }

  lemma ConsumeForgets(s: State, n: Name, id: Id)
    requires s.stream != [] && Entry(s.known, n, id) && StreamForgets(s, n)
    requires forall i :: 0 <= i < |s.stream| && s.stream[i].key == s.stream[0].key ==> s.stream[i] == s.stream[0]
    ensures var t := AfterConsume(s);
            && t.link == s.link && t.lxd == s.lxd
            && (SetsOut(t, id) || (Entry(t.known, n, id) && StreamForgets(t, n)))
  {
    var t := AfterConsume(s);
    var i :| 0 <= i < |s.stream| && s.stream[i].handling == Forget(n) && s.stream[i].key !in s.recent;
    if s.stream[i].key != s.stream[0].key {
      assert t.stream[i - 1] == s.stream[i];
    }
  }

  lemma UntracedStep(s: State, step: Step, m: Name, id: Id)
    requires Enabled(s, step) && Dead(s, id) && Untraced(s, m, id)
    ensures Untraced(Apply(s, step), m, id)
  {
    if m in Apply(s, step).known { KnownFrom(s, step, m); }
  }

  lemma OverlookedStep(s: State, step: Step, n: Name, id: Id)
    requires KeysOk(s) && Enabled(s, step) && Quiet(step, n, false) && n !in s.lxd && Overlooked(s, n, id)
    ensures Overlooked(Apply(s, step), n, id)
  {
    var t := Apply(s, step);
    if s.link.Live? {
      assert Entry(t.known, n, id) && t.link.Live?;
    } else if !step.ListAfter? {
      assert Entry(Listed(t), n, id) && !t.link.Live?;
    }
  }

  lemma OverwrittenStep(s: State, step: Step, n: Name, id: Id)
    requires KeysOk(s) && Enabled(s, step) && Quiet(step, n, true) && n !in s.lxd && Overwritten(s, n, id)
    ensures Overwritten(Apply(s, step), n, id) || Untraced(Apply(s, step), n, id)
  {
    var t := Apply(s, step);
    if step.ListAfter? {
      assert t.known[n] == s.link.pre[n];
    } else {
      assert Listed(t) == Listed(s);
    }
  }

  lemma QuietlyNotReported(s: State, step: Step, n: Name, id: Id)
    requires KeysOk(s) && Enabled(s, step) && CannotReport(s, n, id)
    ensures id !in Apply(s, step).reported && !SetsOut(Apply(s, step), id)
  {
    forall m | Entry(s.known, m, id) ensures m == n && (Overlooked(s, n, id) || Overwritten(s, n, id)) {
      assert m != n ==> Untraced(s, m, id);
    }
    if step.ListAfter? {
      ReconcileReportsOmitted(s, id);
      assert forall m :: m in s.known && s.known[m] == id ==> Entry(s.known, m, id);
    } else if step.Consume? {
      assert forall m :: s.stream[0].handling == Forget(m) && m in s.known && s.known[m] == id ==>
        Entry(s.known, m, id);
    }
  }

  /** What keeps `id` from being reported, whether or not LXD may repeat the event. */
  ghost predicate Settled(s: State, n: Name, id: Id, heard: bool) {
    Untraced(s, n, id) || Overwritten(s, n, id) || !heard
  }

  lemma CannotReportStep(s: State, step: Step, n: Name, id: Id, heard: bool)
    requires KeysOk(s) && Enabled(s, step) && Quiet(step, n, heard)
    requires CannotReport(s, n, id) && Settled(s, n, id, heard)
    ensures CannotReport(Apply(s, step), n, id) && Settled(Apply(s, step), n, id, heard)
  {
    var t := Apply(s, step);
    QuietlyNotReported(s, step, n, id);
    forall m | Untraced(s, m, id) ensures Untraced(t, m, id) { UntracedStep(s, step, m, id); }
    if !Untraced(s, n, id) {
      if Overwritten(s, n, id) { OverwrittenStep(s, step, n, id); } else { OverlookedStep(s, step, n, id); }
    }
  }

  ghost predicate AllQuiet(steps: seq<Step>, n: Name, heard: bool) {
    forall i :: 0 <= i < |steps| ==> Quiet(steps[i], n, heard)
  }

  lemma {:induction false} WillReportRun(s: State, steps: seq<Step>, n: Name, id: Id)
    requires Inv(s) && Allowed(s, steps) && AllQuiet(steps, n, true) && WillReport(s, n, id)
    ensures WillReport(Exec(s, steps), n, id)
    decreases |steps|
  {
    if steps != [] {
      InvStep(s, steps[0]);
      WillReportStep(s, steps[0], n, id);
      WillReportRun(Apply(s, steps[0]), steps[1..], n, id);
    }
  }

  lemma {:induction false} CannotReportRun(s: State, steps: seq<Step>, n: Name, id: Id, heard: bool)
    requires Inv(s) && Allowed(s, steps) && AllQuiet(steps, n, heard) && CannotReport(s, n, id)
    requires Settled(s, n, id, heard)
    ensures CannotReport(Exec(s, steps), n, id)
    decreases |steps|
  {
    if steps != [] {
      InvStep(s, steps[0]);
      CannotReportStep(s, steps[0], n, id, heard);
      CannotReportRun(Apply(s, steps[0]), steps[1..], n, id, heard);
    }
  }

  // ----- ids and names

  /** The name `id` stands under, in LXD or in the watcher's records. */
  ghost predicate StandsUnder(s: State, n: Name, id: Id) {
    (n in s.lxd && s.lxd[n].id == Some(id)) || Entry(s.known, n, id) || Entry(Listed(s), n, id)
  }

  ghost predicate NamesOk(s: State) {
    && (forall n, id :: StandsUnder(s, n, id) ==> id in s.usedIds)
    && (forall id :: id in s.reported || SetsOut(s, id) ==> id in s.usedIds)
    && (forall n, m, id :: StandsUnder(s, n, id) && StandsUnder(s, m, id) ==> n == m)
  }

  lemma StandsUnderStep(s: State, step: Step, n: Name, id: Id)
    requires Enabled(s, step) && StandsUnder(Apply(s, step), n, id)
    ensures StandsUnder(s, n, id) || (step.Create? && step.name == n && id !in s.usedIds)
    ensures id in Apply(s, step).usedIds || StandsUnder(s, n, id)
  {
    if n in Apply(s, step).known { KnownFrom(s, step, n); }
  }

  lemma ReportedWasUsed(s: State, step: Step, id: Id)
    requires KeysOk(s) && NamesOk(s) && Enabled(s, step)
    requires id in Apply(s, step).reported || SetsOut(Apply(s, step), id)
    ensures id in s.usedIds
  {
    assert forall m :: Entry(s.known, m, id) ==> StandsUnder(s, m, id);
    if step.ListAfter? {
      ReconcileReportsOmitted(s, id);
      assert forall m :: m in s.known && s.known[m] == id ==> Entry(s.known, m, id);
    } else if step.Consume? {
      assert forall m :: s.stream[0].handling == Forget(m) && m in s.known && s.known[m] == id ==>
        Entry(s.known, m, id);
    }
  }

  lemma {:induction false} NamesRun(s: State, steps: seq<Step>)
    requires Inv(s) && NamesOk(s) && Allowed(s, steps)
    ensures NamesOk(Exec(s, steps))
    decreases |steps|
  {
    if steps != [] {
      var t := Apply(s, steps[0]);
      assert s.usedIds <= t.usedIds;
      forall n, id | StandsUnder(t, n, id) ensures id in t.usedIds { StandsUnderStep(s, steps[0], n, id); }
      forall n, m, id | StandsUnder(t, n, id) && StandsUnder(t, m, id) ensures n == m {
        StandsUnderStep(s, steps[0], n, id);
        StandsUnderStep(s, steps[0], m, id);
      }
      forall id | id in t.reported || SetsOut(t, id) ensures id in t.usedIds { ReportedWasUsed(s, steps[0], id); }
      InvStep(s, steps[0]);
      NamesRun(t, steps[1..]);
    }
  }

  // ----- at the removal

  lemma RemovalWillReport(s: State, n: Name, id: Id, key: Key)
    requires KeysOk(s) && Enabled(s, Remove(n, key)) && ReportedOnceDrained(s, n, id)
    ensures WillReport(Apply(s, Remove(n, key)), n, id)
  {
    var u := Apply(s, Remove(n, key));
    if s.link.HasStream() {
      assert u.stream[|s.stream|] == LxdEvent(key, Forget(n));
    }
  }

  lemma RemovalCannotReport(s: State, n: Name, id: Id, key: Key)
    requires KeysOk(s) && NamesOk(s) && Enabled(s, Remove(n, key)) && s.lxd[n].id == Some(id)
    requires !ReportedOnceDrained(s, n, id)
    ensures var u := Apply(s, Remove(n, key)); CannotReport(u, n, id) && Settled(u, n, id, s.link.HasStream())
  {
    var u := Apply(s, Remove(n, key));
    assert StandsUnder(s, n, id);
    forall m | m != n ensures Untraced(u, m, id) { assert !StandsUnder(s, m, id); }
    forall m | m in u.lxd ensures u.lxd[m].id != Some(id) { assert m != n && !StandsUnder(s, m, id); }
  }

  ghost predicate CaughtUp(s: State) { s.link.Live? && s.stream == [] && s.task.Idle? }

  lemma RemovalReported(s: State, n: Name, id: Id, key: Key, steps: seq<Step>)
    requires Inv(s) && Enabled(s, Remove(n, key)) && ReportedOnceDrained(s, n, id)
    requires Allowed(Apply(s, Remove(n, key)), steps) && AllQuiet(steps, n, true)
    requires CaughtUp(Exec(Apply(s, Remove(n, key)), steps))
    ensures id in Exec(Apply(s, Remove(n, key)), steps).reported
  {
    InvStep(s, Remove(n, key));
    RemovalWillReport(s, n, id, key);
    WillReportRun(Apply(s, Remove(n, key)), steps, n, id);
  }

  lemma RemovalUnreported(s: State, n: Name, id: Id, key: Key, steps: seq<Step>)
    requires Inv(s) && NamesOk(s) && Enabled(s, Remove(n, key)) && s.lxd[n].id == Some(id)
    requires !ReportedOnceDrained(s, n, id)
    requires Allowed(Apply(s, Remove(n, key)), steps) && AllQuiet(steps, n, s.link.HasStream())
    ensures id !in Exec(Apply(s, Remove(n, key)), steps).reported
  {
    InvStep(s, Remove(n, key));
    RemovalCannotReport(s, n, id, key);
    CannotReportRun(Apply(s, Remove(n, key)), steps, n, id, s.link.HasStream());
  }

  /** A removed sandbox is reported once the watcher has caught up on the same
      connection — live, drained and idle — exactly under the condition for where the
      watcher stood at the removal, however names were reused before. */
  lemma RemovalReportedIff(before: seq<Step>, s: State, n: Name, id: Id, key: Key, steps: seq<Step>)
    requires Allowed(Start(), before) && s == Exec(Start(), before)
    requires Enabled(s, Remove(n, key)) && s.lxd[n].id == Some(id)
    requires var u := Apply(s, Remove(n, key));
             Allowed(u, steps) && AllQuiet(steps, n, s.link.HasStream()) && CaughtUp(Exec(u, steps))
    ensures id in Exec(Apply(s, Remove(n, key)), steps).reported <==> ReportedOnceDrained(s, n, id)
  {
    InvRun(Start(), before);
    NamesRun(Start(), before);
    if ReportedOnceDrained(s, n, id) {
      assert AllQuiet(steps, n, true);
      RemovalReported(s, n, id, key, steps);
    } else {
      RemovalUnreported(s, n, id, key, steps);
    }
  }

  // ----- the removals that go unreported

  /** A gateway lists a sandbox that is removed before the watcher reads it: all
      drains, and nobody was told. */
  lemma UnreadRemovalUnreported(before: seq<Step>, s: State, g: GatewayId, n: Name, inst: Instance, k1: Key, k2: Key)
    returns (t: State)
    requires Allowed(Start(), before) && s == Exec(Start(), before)
    requires CaughtUp(s) && g !in s.gateways && n !in s.lxd && n !in s.known
    requires inst.id.Some? && inst.id.value !in s.usedIds && k1 !in s.usedKeys && k2 !in s.usedKeys && k1 != k2
    ensures Reaches(s, t) && t.link.Live? && Drained(t, g) && n !in t.lxd
    ensures n in t.gateways[g].snapshot && t.gateways[g].snapshot[n] == inst
    ensures Queued(t, g) == [] && inst.id.value !in t.reported
  {
    InvRun(Start(), before);
    NamesRun(Start(), before);
    var a := CreatedThenListed(s, g, n, inst, k1);
    var b := ListedThenRemoved(s, a, g, n, k1, k2);
    t := ReadTooLate(s, b, n, k1, k2);
  }

  /** The watcher's side is as in `s`, but for the stream. */
  ghost predicate SameWatcher(s: State, t: State) {
    t.link == s.link && t.task == s.task && t.known == s.known && t.recent == s.recent && t.reported == s.reported
  }

  lemma CreatedThenListed(s: State, g: GatewayId, n: Name, inst: Instance, k1: Key) returns (t: State)
    requires s.link.Live? && s.stream == [] && g !in s.gateways && n !in s.lxd && inst.id.Some?
    requires inst.id.value !in s.usedIds && k1 !in s.usedKeys
    ensures Reaches(s, t) && SameWatcher(s, t) && n in t.lxd && t.usedKeys == s.usedKeys + {k1}
    ensures t.stream == [LxdEvent(k1, Reread(n))] && g in t.gateways
    ensures var gateway := t.gateways[g];
            && gateway.phase.Listing? && gateway.delivered == [] && gateway.queue == []
            && n in gateway.snapshot && gateway.snapshot[n] == inst
  {
    ReachesSelf(s);
    ReachesStep(s, s, Create(n, inst, k1));
    var a := Apply(s, Create(n, inst, k1));
    ReachesStep(s, a, Open(g));
    var b := Apply(a, Open(g));
    ReachesStep(s, b, List(g));
    t := Apply(b, List(g));
  }

  lemma ListedThenRemoved(s: State, c: State, g: GatewayId, n: Name, k1: Key, k2: Key) returns (t: State)
    requires Reaches(s, c) && c.link.Live? && n in c.lxd && k2 !in c.usedKeys && c.stream == [LxdEvent(k1, Reread(n))]
    requires g in c.gateways && c.gateways[g].phase.Listing?
    ensures Reaches(s, t) && SameWatcher(c, t) && n !in t.lxd && g in t.gateways
    ensures t.stream == [LxdEvent(k1, Reread(n)), LxdEvent(k2, Forget(n))]
    ensures t.gateways[g] == c.gateways[g].(phase := Streaming)
  {
    ReachesStep(s, c, Respond(g));
    var d := Apply(c, Respond(g));
    ReachesStep(s, d, Remove(n, k2));
    t := Apply(d, Remove(n, k2));
  }

  lemma ReadTooLate(s: State, b: State, n: Name, k1: Key, k2: Key) returns (t: State)
    requires Reaches(s, b) && b.link.Live? && b.task.Idle? && n !in b.lxd && n !in b.known
    requires b.stream == [LxdEvent(k1, Reread(n)), LxdEvent(k2, Forget(n))]
    requires k1 !in b.recent && k2 !in b.recent && k1 != k2
    ensures Reaches(s, t) && t.link.Live? && t.task.Idle? && t.stream == []
    ensures t.lxd == b.lxd && t.gateways == b.gateways && t.reported == b.reported
  {
    ReachesStep(s, b, Consume);
    var c := Apply(b, Consume);
    ReachesStep(s, c, Read);
    var d := Apply(c, Read);
    ReachesStep(s, d, Consume);
    t := Apply(d, Consume);
  }

  /** Everything a reconcile sets out to publish can be published. */
  lemma {:induction false} ReportAll(s: State, u: State) returns (t: State)
    requires Reaches(s, u) && (u.task.Idle? || (u.task.Reporting? && u.task.ids != {}))
    ensures Reaches(s, t) && t.task.Idle? && t.link == u.link && t.stream == u.stream && t.lxd == u.lxd
    ensures t.known == u.known && t.recent == u.recent
    ensures t.reported == u.reported + (if u.task.Reporting? then u.task.ids else {})
    decreases if u.task.Reporting? then |u.task.ids| + 1 else 0
  {
    if u.task.Idle? {
      t := u;
    } else {
      var id :| id in u.task.ids;
      ReachesStep(s, u, Report(id));
      t := ReportAll(s, Apply(u, Report(id)));
    }
  }

  /** The watcher lists `n`, `n` is removed, the watcher subscribes: caught up, it
      has not reported the removal and has no event to come. */
  lemma OverlookedRun(s: State, n: Name, id: Id, key: Key) returns (t: State)
    requires Inv(s) && NamesOk(s) && s.link.PreListed? && Entry(s.link.pre, n, id) && id !in s.reported
    requires n in s.lxd && s.lxd[n].id == Some(id) && key !in s.usedKeys
    ensures Reaches(s, t) && CaughtUp(t) && n !in t.lxd && Entry(t.known, n, id) && id !in t.reported
  {
    RemovalCannotReport(s, n, id, key);
    ReachesSelf(s);
    ReachesStep(s, s, Remove(n, key));
    var a := Apply(s, Remove(n, key));
    InvStep(s, Remove(n, key));
    CannotReportStep(a, Subscribe, n, id, false);
    ReachesStep(s, a, Subscribe);
    var b := Apply(a, Subscribe);
    InvStep(a, Subscribe);
    CannotReportStep(b, ListAfter, n, id, false);
    ReachesStep(s, b, ListAfter);
    t := ReportAll(s, Apply(b, ListAfter));
  }

  lemma Reconnect(s: State, u: State) returns (c: State)
    requires Reaches(s, u) && CaughtUp(u)
    ensures Reaches(s, c) && c.link == Subscribed(ManagedIds(u)) && c.task == u.task
    ensures c.known == u.known && c.lxd == u.lxd
  {
    ReachesStep(s, u, Break);
    var a := Apply(u, Break);
    ReachesStep(s, a, ListBefore);
    var b := Apply(a, ListBefore);
    ReachesStep(s, b, Subscribe);
    c := Apply(b, Subscribe);
  }

  /** The next reconnect reports it. */
  lemma ReportedAtReconnect(s: State, u: State, n: Name, id: Id) returns (t: State)
    requires Reaches(s, u) && KeysOk(u) && CaughtUp(u) && n !in u.lxd && Entry(u.known, n, id)
    ensures Reaches(s, t) && id in t.reported && t.lxd == u.lxd
  {
    var c := Reconnect(s, u);
    ReachesStep(s, c, ListAfter);
    assert n in Omitted(c.known, c.link.pre, ManagedIds(c));
    assert c.known[n] in DeletedDuringGap(c.known, c.link.pre, ManagedIds(c));
    t := ReportAll(s, Apply(c, ListAfter));
  }

  /** A sandbox removed between the first listing and the subscription: the watcher
      catches up without reporting it, and only its next reconnect does. */
  lemma RemovalBetweenListingAndSubscribing(before: seq<Step>, s: State, n: Name, id: Id, key: Key)
    returns (overlooked: State, later: State)
    requires Allowed(Start(), before) && s == Exec(Start(), before)
    requires s.link.PreListed? && Entry(s.link.pre, n, id) && id !in s.reported
    requires n in s.lxd && s.lxd[n].id == Some(id) && key !in s.usedKeys
    ensures Reaches(s, overlooked) && CaughtUp(overlooked) && n !in overlooked.lxd && id !in overlooked.reported
    ensures Reaches(overlooked, later) && id in later.reported
  {
    InvRun(Start(), before);
    NamesRun(Start(), before);
    overlooked := OverlookedRun(s, n, id, key);
    ReachesInv(s, overlooked);
    ReachesSelf(overlooked);
    later := ReportedAtReconnect(overlooked, overlooked, n, id);
  }

  lemma ReachesInv(s: State, t: State)
    requires Inv(s) && Reaches(s, t)
    ensures Inv(t)
  {
    var steps :| Allowed(s, steps) && Exec(s, steps) == t;
    InvRun(s, steps);
  }

  // ----- when the sandbox reported still exists

  /** The deletion of an earlier sandbox of that name meets the record of this one. */
  ghost predicate MistakesDeletion(s: State, step: Step, n: Name, id: Id)
    requires Enabled(s, step)
  {
    && step.Consume? && s.stream[0].handling == Forget(n) && s.stream[0].key !in s.recent
    && Entry(s.known, n, id)
  }

  lemma SetsOutIff(s: State, step: Step, n: Name, id: Id)
    requires KeysOk(s) && NamesOk(s) && Enabled(s, step) && n in s.lxd && s.lxd[n].id == Some(id) && !SetsOut(s, id)
    ensures SetsOut(Apply(s, step), id) <==> MistakesDeletion(s, step, n, id)
  {
    assert StandsUnder(s, n, id);
    assert forall m :: Entry(s.known, m, id) ==> StandsUnder(s, m, id);
    if step.ListAfter? {
      ReconcileReportsOmitted(s, id);
      assert forall m :: m in s.known && s.known[m] == id ==> Entry(s.known, m, id);
    } else if step.Consume? {
      assert forall m :: s.stream[0].handling == Forget(m) && m in s.known && s.known[m] == id ==>
        Entry(s.known, m, id);
    }
  }

  /** Whatever names are reused: the watcher sets out to report a sandbox that exists
      exactly when it takes a deletion off the stream, not seen before, of a name it
      has already recorded for that sandbox. */
  lemma LiveSandboxReportedIff(before: seq<Step>, s: State, step: Step, n: Name, id: Id)
    requires Allowed(Start(), before) && s == Exec(Start(), before) && Enabled(s, step)
    requires n in s.lxd && s.lxd[n].id == Some(id) && !SetsOut(s, id)
    ensures SetsOut(Apply(s, step), id) <==> MistakesDeletion(s, step, n, id)
  {
    InvRun(Start(), before);
    NamesRun(Start(), before);
    SetsOutIff(s, step, n, id);
  }
}
