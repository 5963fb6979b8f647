/** What becomes of a create's volumes when it stops waiting for its instance and
    lets go of its guard. */
module VolumesReleased {
  import opened Common
  import opened Volumes

  /** Clean-ups that begin in the run keep the volumes called `kept`. With `stay`,
      what other instances use also stays in use; otherwise those may go at any time. */
  ghost predicate Keeping(s: State, steps: seq<Step>, kept: set<string>, stay: bool)
    requires Allowed(s, steps)
    decreases |steps|
  {
    steps != [] ==>
      && Kind(s, steps[0], kept, stay)
      && Keeping(Apply(s, steps[0]), steps[1..], kept, stay)
  }

  ghost predicate Kind(s: State, step: Step, kept: set<string>, stay: bool)
    requires Enabled(s, step)
  {
    && (step.TakeExclusive? && step.keep.Some? ==> kept <= step.keep.value)
    && (stay && step.Elsewhere? ==> forall k :: k in s.volumes ==> s.volumes[k].usedBy <= step.volumes[k].usedBy)
  }

  /** Clean-up never comes to remove the volume: it is kept, of another project or
      not auxiliary, or in use when that is to stay. */
  ghost predicate Spared(s: State, k: Key, kept: set<string>, stay: bool) {
    && k in s.volumes
    && (k.project != s.project || !IsAuxiliary(k.name) || k.name in kept || (stay && s.volumes[k].usedBy != {}))
  }

  ghost predicate CleanUpKeeps(s: State, kept: set<string>) {
    s.gc.Collecting? && s.gc.keep.Some? ==> kept <= s.gc.keep.value
  }

  lemma SparedStep(s: State, step: Step, k: Key, kept: set<string>, stay: bool)
    requires Inv(s) && Enabled(s, step) && Kind(s, step, kept, stay) && CleanUpKeeps(s, kept)
    requires Spared(s, k, kept, stay) && Ready(s, k)
    ensures Spared(Apply(s, step), k, kept, stay) && Ready(Apply(s, step), k)
  {
  }

  lemma {:induction false} SparedRun(s: State, steps: seq<Step>, k: Key, kept: set<string>, stay: bool)
    requires Inv(s) && Allowed(s, steps) && Keeping(s, steps, kept, stay) && CleanUpKeeps(s, kept)
    requires Spared(s, k, kept, stay) && Ready(s, k)
    ensures Ready(Exec(s, steps), k)
    decreases |steps|
  {
    if steps != [] {
      SparedStep(s, steps[0], k, kept, stay);
      InvStep(s, steps[0]);
      SparedRun(Apply(s, steps[0]), steps[1..], k, kept, stay);
    }
  }

  lemma {:induction false} NeedsStay(s: State, steps: seq<Step>, t: TaskId)
    requires Allowed(s, steps) && t in s.creates
    ensures t in Exec(s, steps).creates && Exec(s, steps).creates[t].needs == s.creates[t].needs
    decreases |steps|
  {
    if steps != [] {
      assert Apply(s, steps[0]).creates[t].needs == s.creates[t].needs;
      NeedsStay(Apply(s, steps[0]), steps[1..], t);
    }
  }

  /** In some run after `s`, under those clean-ups, LXD comes to attach the volumes
      of `t` and does not find them all. */
  ghost predicate CanLose(s: State, t: TaskId, kept: set<string>, stay: bool) {
    exists steps :: LosingRun(s, steps, t, kept, stay)
  }

  ghost predicate LosingRun(s: State, steps: seq<Step>, t: TaskId, kept: set<string>, stay: bool) {
    && Allowed(s, steps) && Keeping(s, steps, kept, stay) && Enabled(Exec(s, steps), Attach(t))
    && Apply(Exec(s, steps), Attach(t)).creates[t].pc == Attached(false)
  }

  lemma SparedNotLost(s: State, steps: seq<Step>, t: TaskId, kept: set<string>, stay: bool)
    requires Inv(s) && t in s.creates && CleanUpKeeps(s, kept) && AllReady(s, s.creates[t].needs)
    requires forall k :: k in s.creates[t].needs ==> Spared(s, k, kept, stay)
    ensures !LosingRun(s, steps, t, kept, stay)
  {
    if Allowed(s, steps) && Keeping(s, steps, kept, stay) {
      var needs := s.creates[t].needs;
      forall i | 0 <= i < |needs| ensures Ready(Exec(s, steps), needs[i]) {
        assert needs[i] in needs;
        SparedRun(s, steps, needs[i], kept, stay);
      }
      NeedsStay(s, steps, t);
    }
  }

  ghost predicate Leads(s: State, u: State, kept: set<string>, stay: bool) {
    exists steps :: Allowed(s, steps) && Keeping(s, steps, kept, stay) && Exec(s, steps) == u
  }

  lemma {:induction false} ExecSnoc(s: State, steps: seq<Step>, step: Step, kept: set<string>, stay: bool)
    requires Allowed(s, steps) && Keeping(s, steps, kept, stay) && Enabled(Exec(s, steps), step)
    requires Kind(Exec(s, steps), step, kept, stay)
    ensures Allowed(s, steps + [step]) && Keeping(s, steps + [step], kept, stay)
    ensures Exec(s, steps + [step]) == Apply(Exec(s, steps), step)
    decreases |steps|
  {
    if steps == [] {
      var u := Apply(s, step);
      assert [step][1..] == [] && Allowed(u, []) && Keeping(u, [], kept, stay) && Exec(u, []) == u;
      assert steps + [step] == [step];
    } else {
      assert (steps + [step])[0] == steps[0] && (steps + [step])[1..] == steps[1..] + [step];
      ExecSnoc(Apply(s, steps[0]), steps[1..], step, kept, stay);
    }
  }

  lemma LeadsStep(s: State, u: State, step: Step, kept: set<string>, stay: bool)
    requires Leads(s, u, kept, stay) && Enabled(u, step) && Kind(u, step, kept, stay)
    ensures Leads(s, Apply(u, step), kept, stay)
  {
    var steps :| Allowed(s, steps) && Keeping(s, steps, kept, stay) && Exec(s, steps) == u;
    ExecSnoc(s, steps, step, kept, stay);
  }

  ghost function Holders(s: State): set<TaskId> { set t | t in s.creates && s.creates[t].HoldsGuard() }

  ghost predicate NobodyHolds(s: State) { forall t :: t in s.creates ==> !s.creates[t].HoldsGuard() }

  /** All creates give up, as they may at any time. */
  lemma {:induction false} AllLetGo(s: State, u: State, kept: set<string>, stay: bool) returns (v: State)
    requires Leads(s, u, kept, stay)
    ensures Leads(s, v, kept, stay) && v == u.(creates := v.creates) && NobodyHolds(v)
    ensures forall t :: t in u.creates && !u.creates[t].HoldsGuard() ==> t in v.creates && v.creates[t] == u.creates[t]
    decreases Holders(u)
  {
    v := u;
    if x :| x in Holders(u) {
      LeadsStep(s, u, Release(x), kept, stay);
      var w := Apply(u, Release(x));
      assert Holders(w) == Holders(u) - {x};
      v := AllLetGo(s, w, kept, stay);
    } else {
      assert forall t :: t in u.creates && u.creates[t].HoldsGuard() ==> t in Holders(u);
    }
  }

  lemma CleanUpRemoves(s: State, u: State, key: Key, kept: set<string>, stay: bool) returns (v: State)
    requires Leads(s, u, kept, stay) && u.gc.Idle? && NobodyHolds(u)
    requires key in u.volumes && IsUnusedAux(key, u.volumes[key], u.project, kept)
    ensures Leads(s, v, kept, stay) && key !in v.volumes && v.creates == u.creates
  {
    LeadsStep(s, u, TakeExclusive(Some(kept)), kept, stay);
    var a := Apply(u, TakeExclusive(Some(kept)));
    LeadsStep(s, a, ListPool(key.pool), kept, stay);
    assert key in Removable(a, key.pool, kept);
    var b := Apply(a, ListPool(key.pool));
    LeadsStep(s, b, Remove(key), kept, stay);
    v := Apply(b, Remove(key));
  }

  /** The instances that use a volume are removed, if they may be. */
  lemma FallsOutOfUse(s: State, u: State, key: Key, kept: set<string>, stay: bool) returns (v: State)
    requires Leads(s, u, kept, stay) && key in u.volumes && !Spared(u, key, kept, stay)
    ensures Leads(s, v, kept, stay) && v == u.(volumes := v.volumes)
    ensures key in v.volumes && IsUnusedAux(key, v.volumes[key], v.project, kept)
  {
    v := u;
    if !stay {
      var volumes := u.volumes[key := u.volumes[key].(usedBy := {})];
      LeadsStep(s, u, Elsewhere(volumes), kept, stay);
      v := Apply(u, Elsewhere(volumes));
    }
  }

  /** The guard protects no longer than it is held: a create whose wait times out
      lets go of it while LXD goes on creating the instance, clean-up removes a
      volume the instance needs, and LXD then does not find it. */
  lemma TimedOutCreateLosesVolume(s: State, t: TaskId, key: Key, kept: set<string>, stay: bool) returns (u: State)
    requires s.gc.Idle? && t in s.creates && s.creates[t].pc.Issued? && key in s.creates[t].needs
    requires key in s.volumes && !Spared(s, key, kept, stay)
    ensures Leads(Apply(s, Release(t)), u, kept, stay) && Enabled(u, Attach(t))
    ensures Apply(u, Attach(t)).creates[t].pc == Attached(false)
  {
    var a := Apply(s, Release(t));
    assert Allowed(a, []) && Keeping(a, [], kept, stay) && Exec(a, []) == a;
    var b := AllLetGo(a, a, kept, stay);
    var c := FallsOutOfUse(a, b, key, kept, stay);
    u := CleanUpRemoves(a, c, key, kept, stay);
    var i :| 0 <= i < |s.creates[t].needs| && s.creates[t].needs[i] == key;
    assert !Ready(u, u.creates[t].needs[i]);
  }

  lemma CanLoseIff(
      project: string, volumes: map<Key, Volume>, before: seq<Step>, s: State, t: TaskId, kept: set<string>, stay: bool)
    requires Allowed(Start(project, volumes), before) && s == Exec(Start(project, volumes), before)
    requires t in s.creates && s.creates[t].pc.Issued?
    ensures AllReady(s, s.creates[t].needs)
    ensures CanLose(Apply(s, Release(t)), t, kept, stay)
            <==> exists k :: k in s.creates[t].needs && !Spared(s, k, kept, stay)
  {
    InvRun(Start(project, volumes), before);
    assert CreateOk(s, s.creates[t]) && AllReady(s, s.creates[t].needs);
    var a := Apply(s, Release(t));
    if k :| k in s.creates[t].needs && !Spared(s, k, kept, stay) {
      assert Ready(s, k);
      var u := TimedOutCreateLosesVolume(s, t, k, kept, stay);
      var steps :| Allowed(a, steps) && Keeping(a, steps, kept, stay) && Exec(a, steps) == u;
      assert LosingRun(a, steps, t, kept, stay);
    } else {
      InvStep(s, Release(t));
      forall steps ensures !LosingRun(a, steps, t, kept, stay) {
        assert forall k :: Spared(s, k, kept, stay) ==> Spared(a, k, kept, stay);
        assert AllReady(a, s.creates[t].needs) by { assert forall k :: Ready(s, k) ==> Ready(a, k); }
        SparedNotLost(a, steps, t, kept, stay);
      }
    }
  }

  /** A create that lets go of its guard can lose a volume exactly when one of those
      it needs is auxiliary, in the project and not kept by the clean-ups to come: if
      the volume is in use at that moment, the instances using it may be removed. */
  lemma LetGoCanLoseIff(
      project: string, volumes: map<Key, Volume>, before: seq<Step>, s: State, t: TaskId, kept: set<string>)
    requires Allowed(Start(project, volumes), before) && s == Exec(Start(project, volumes), before)
    requires t in s.creates && s.creates[t].pc.Issued?
    ensures CanLose(Apply(s, Release(t)), t, kept, false)
            <==> exists k :: k in s.creates[t].needs && k.project == s.project && IsAuxiliary(k.name) && k.name !in kept
  {
    CanLoseIff(project, volumes, before, s, t, kept, false);
    assert forall k :: k in s.creates[t].needs ==> Ready(s, k);
  }

  /** As long as no instance using such a volume goes, being in use protects it too. */
  lemma LetGoCanLoseIffUnused(
      project: string, volumes: map<Key, Volume>, before: seq<Step>, s: State, t: TaskId, kept: set<string>)
    requires Allowed(Start(project, volumes), before) && s == Exec(Start(project, volumes), before)
    requires t in s.creates && s.creates[t].pc.Issued?
    ensures CanLose(Apply(s, Release(t)), t, kept, true)
            <==> exists k :: && k in s.creates[t].needs && k in s.volumes
                             && IsUnusedAux(k, s.volumes[k], s.project, kept)
  {
    CanLoseIff(project, volumes, before, s, t, kept, true);
    assert forall k :: k in s.creates[t].needs ==> Ready(s, k);
  }
}
