/** What a create and a clean-up achieve when they run through
    (crates/openshell-driver-lxd/src/driver.rs and gc.rs, crates/lxd-client/src/storage.rs). */
module VolumesOutcomes {
  import opened Common
  import opened Volumes
  import opened VolumesReleased

  /** The auxiliary volumes are those the driver names after a supervisor's or a DHCP
      client's digest. */
  lemma AuxiliaryNames(name: string)
    ensures IsAuxiliary(name) <==>
            exists digest :: name == "openshell-supervisor-" + digest || name == "openshell-dhcp-client-" + digest
  {
    if "openshell-supervisor-" <= name {
      assert name == "openshell-supervisor-" + name[|"openshell-supervisor-"|..];
    }
    if "openshell-dhcp-client-" <= name {
      assert name == "openshell-dhcp-client-" + name[|"openshell-dhcp-client-"|..];
    }
  }

  ghost predicate Reaches(s: State, u: State) { Leads(s, u, {}, true) }

  /** The state after one volume is ensured. */
  ghost function WithEnsured(s: State, t: TaskId, v: Volume): State
    requires t in s.creates && s.creates[t].pc.Provisioning? && s.creates[t].pc.done < |s.creates[t].needs|
  {
    SetPc(s, t, Provisioning(s.creates[t].pc.done + 1, Probing)).(volumes := s.volumes[Wanted(s, t) := v])
  }

  lemma Creates(s: State, u: State, t: TaskId) returns (v: State)
    requires Reaches(s, u) && Ensuring(u, t, Absent) && Wanted(u, t) !in u.volumes
    ensures Reaches(s, v) && v == SetEnsure(u, t, Exists).(volumes := u.volumes[Wanted(u, t) := Volume({}, false)])
  {
    LeadsStep(s, u, CreateVolume(t, true), {}, true);
    v := Apply(u, CreateVolume(t, true));
  }

  lemma Probes(s: State, u: State, t: TaskId) returns (v: State)
    requires Reaches(s, u) && Ensuring(u, t, Probing)
    ensures Reaches(s, v) && v == SetEnsure(u, t, if Wanted(u, t) in u.volumes then Exists else Absent)
  {
    LeadsStep(s, u, Probe(t), {}, true);
    v := Apply(u, Probe(t));
  }

  /** A volume that exists is kept and made shifted; one that does not is created. */
  lemma EnsuresVolume(s: State, u: State, t: TaskId) returns (v: State)
    requires Reaches(s, u) && Ensuring(u, t, Probing)
    ensures Reaches(s, v)
    ensures var k := Wanted(u, t);
            v == WithEnsured(u, t, if k in u.volumes then u.volumes[k].(shifted := true) else Volume({}, true))
  {
    var a := Probes(s, u, t);
    if Wanted(u, t) in u.volumes {
      v := Shifts(s, a, t);
    } else {
      var b := Creates(s, a, t);
      v := Shifts(s, b, t);
    }
  }

  lemma Shifts(s: State, u: State, t: TaskId) returns (v: State)
    requires Reaches(s, u) && Ensuring(u, t, Exists) && Wanted(u, t) in u.volumes
    ensures Reaches(s, v) && v == WithEnsured(u, t, u.volumes[Wanted(u, t)].(shifted := true))
  {
    LeadsStep(s, u, SetShifted(t), {}, true);
    var a := Apply(u, SetShifted(t));
    LeadsStep(s, a, NextVolume(t), {}, true);
    v := Apply(a, NextVolume(t));
  }

  /** A create that loses the race to another creator counts that one's volume; one
      whose creation failed for another reason gives up. */
  lemma LostRace(s: State, t: TaskId)
    requires Ensuring(s, t, Absent)
    ensures Enabled(s, CreateVolume(t, false))
    ensures var a := Apply(s, CreateVolume(t, false));
            && a.volumes == s.volumes && Enabled(a, ProbeAgain(t))
            && Apply(a, ProbeAgain(t)) ==
               SetPc(s, t, if Wanted(s, t) in s.volumes then Provisioning(s.creates[t].pc.done, Exists) else Released)
  {
  }

  /** Volumes are only added or used more, and `t` is the only create that moves. */
  ghost predicate OnlyAdds(s: State, u: State, t: TaskId) {
    && u.gc == s.gc && u.project == s.project && t in s.creates && t in u.creates
    && u.creates == s.creates[t := s.creates[t].(pc := u.creates[t].pc)]
    && (forall k :: k in s.volumes ==> k in u.volumes && s.volumes[k].usedBy <= u.volumes[k].usedBy)
    && (forall k :: k in s.volumes && k !in s.creates[t].needs ==> u.volumes[k] == s.volumes[k])
    && (forall k :: k in u.volumes && k !in s.volumes ==> k in s.creates[t].needs)
  }

  ghost predicate FirstReady(s: State, keys: seq<Key>, n: nat)
    requires n <= |keys|
  {
    forall i :: 0 <= i < n ==> Ready(s, keys[i])
  }

  lemma {:induction false} EnsuresRest(s: State, u: State, t: TaskId) returns (v: State)
    requires Reaches(s, u) && t in u.creates && u.creates[t].pc.Provisioning? && u.creates[t].pc.ensure.Probing?
    requires u.creates[t].pc.done <= |u.creates[t].needs| && FirstReady(u, u.creates[t].needs, u.creates[t].pc.done)
    ensures Reaches(s, v) && t in v.creates && OnlyAdds(u, v, t) && AllReady(v, u.creates[t].needs)
    ensures v.creates[t].pc == Provisioning(|u.creates[t].needs|, Probing)
    decreases |u.creates[t].needs| - u.creates[t].pc.done
  {
    var needs, done := u.creates[t].needs, u.creates[t].pc.done;
    if done == |needs| {
      v := u;
    } else {
      var w := EnsuresVolume(s, u, t);
      assert FirstReady(w, needs, done + 1);
      v := EnsuresRest(s, w, t);
    }
  }

  /** A create that runs through, with no clean-up in the way: every volume its instance
      needs exists, is shifted and is used by the instance, and every other volume is as
      it was. */
  lemma CreateRunsThrough(s: State, t: TaskId) returns (u: State)
    requires s.gc.Idle? && t in s.creates && s.creates[t].pc.Waiting?
    ensures Reaches(s, u) && t in u.creates && OnlyAdds(s, u, t) && u.creates[t].pc == Attached(true)
    ensures forall k :: k in s.creates[t].needs ==> Ready(u, k) && s.creates[t].instance in u.volumes[k].usedBy
  {
    assert Allowed(s, []) && Keeping(s, [], {}, true) && Exec(s, []) == s;
    LeadsStep(s, s, TakeShared(t), {}, true);
    var a := Apply(s, TakeShared(t));
    var b := EnsuresRest(s, a, t);
    u := Attaches(s, b, t);
  }

  lemma Attaches(s: State, b: State, t: TaskId) returns (u: State)
    requires Reaches(s, b) && t in b.creates && AllReady(b, b.creates[t].needs)
    requires b.creates[t].pc == Provisioning(|b.creates[t].needs|, Probing)
    ensures Reaches(s, u) && t in u.creates && OnlyAdds(b, u, t) && u.creates[t].pc == Attached(true)
    ensures forall k :: k in b.creates[t].needs ==> Ready(u, k) && b.creates[t].instance in u.volumes[k].usedBy
  {
    LeadsStep(s, b, Issue(t), {}, true);
    var c := Apply(b, Issue(t));
    assert AllReady(c, b.creates[t].needs) by { assert forall k :: Ready(b, k) ==> Ready(c, k); }
    LeadsStep(s, c, Attach(t), {}, true);
    u := Apply(c, Attach(t));
    assert forall k :: k in b.creates[t].needs ==> Ready(b, k);
  }

  /** A volume its instance uses is safe from clean-up. */
  lemma UsedIsSafe(s: State, k: Key)
    requires k in s.volumes && s.volumes[k].usedBy != {}
    ensures !Enabled(s, Remove(k))
  {
  }

  /** A clean-up picks exactly the volumes of the pool that are auxiliary, in its project,
      unused and not to be kept. */
  lemma CleanUpPicks(s: State, pool: string, keep: set<string>, k: Key)
    requires s.gc.Collecting? && s.gc.keep == Some(keep)
    ensures Enabled(s, ListPool(pool))
    ensures k in Apply(s, ListPool(pool)).gc.doomed <==>
            || k in s.gc.doomed
            || (&& k in s.volumes && k.pool == pool && k.project == s.project
                && s.volumes[k].usedBy == {} && k.name !in keep
                && exists digest ::
                     k.name == "openshell-supervisor-" + digest || k.name == "openshell-dhcp-client-" + digest)
  {
    AuxiliaryNames(k.name);
  }

  /** A clean-up that runs through removes an unused auxiliary volume it was not told to
      keep, and nothing else, and then lets creates in again. */
  lemma CleanUpRunsThrough(s: State, key: Key, keep: set<string>) returns (u: State)
    requires s.gc.Idle? && NobodyHolds(s) && key in s.volumes && IsUnusedAux(key, s.volumes[key], s.project, keep)
    ensures Reaches(s, u) && u == s.(volumes := s.volumes - {key})
  {
    assert Allowed(s, []) && Keeping(s, [], {}, true) && Exec(s, []) == s;
    LeadsStep(s, s, TakeExclusive(Some(keep)), {}, true);
    var a := Apply(s, TakeExclusive(Some(keep)));
    LeadsStep(s, a, ListPool(key.pool), {}, true);
    assert key in Removable(a, key.pool, keep);
    var b := Apply(a, ListPool(key.pool));
    LeadsStep(s, b, Remove(key), {}, true);
    var c := Apply(b, Remove(key));
    LeadsStep(s, c, ReleaseExclusive, {}, true);
    u := Apply(c, ReleaseExclusive);
  }

  /** While a clean-up is at work no create provisions, and while one provisions no
      clean-up starts; a clean-up that leaves volumes alone lists none. */
  lemma GuardsExclude(s: State, t: TaskId, keep: Option<set<string>>, pool: string)
    requires t in s.creates
    ensures s.gc.Collecting? ==> !Enabled(s, TakeShared(t))
    ensures s.creates[t].HoldsGuard() ==> !Enabled(s, TakeExclusive(keep))
    ensures s.gc == Collecting(None, {}) ==> !Enabled(s, ListPool(pool))
  {
  }
}
