/** Auxiliary volumes: any number of creates provisioning them, and clean-up
    removing the unused ones (crates/openshell-driver-lxd/src/driver.rs and gc.rs,
    crates/lxd-client/src/storage.rs).

    A create holds the driver's `volume_use` lock shared from before it provisions
    its volumes until its instance uses them; clean-up holds it exclusively. The
    locks that serialize provisioning of one volume are left out, which only adds
    interleavings. */
module Volumes {
  import opened Common

  type TaskId = nat
  type InstanceName = string

  /** A pool keeps the volumes of different projects apart. */
  datatype Key = Key(project: string, pool: string, name: string)

  datatype Volume = Volume(usedBy: set<InstanceName>, shifted: bool)

  const SUPERVISOR_PREFIX := "openshell-supervisor-"
  const DHCP_PREFIX := "openshell-dhcp-client-"

  predicate IsAuxiliary(name: string) { SUPERVISOR_PREFIX <= name || DHCP_PREFIX <= name }

  /** `is_unused_aux_volume` */
  predicate IsUnusedAux(k: Key, v: Volume, project: string, keep: set<string>) {
    k.project == project && IsAuxiliary(k.name) && v.usedBy == {} && k.name !in keep
  }

  /** `ensure_single_file_volume`, step by step: probe, create, probe again after a
      failed create, then make sure of the shifted flag. */
  datatype Ensure = Probing | Absent | CreateFailed | Exists | Ensured

  /** `Provisioning` the volumes in order; `Issued` once the instance creation is
      sent; `LetGo` when the create stopped waiting for it and dropped its guard,
      while LXD goes on; `Attached` once LXD has looked for the volumes, `found` or
      not; `Released` without having sent it. */
  datatype Pc =
    | Waiting
    | Provisioning(done: nat, ensure: Ensure)
    | Issued
    | LetGo
    | Attached(found: bool)
    | Released

  datatype Create = Create(instance: InstanceName, needs: seq<Key>, pc: Pc) {
    predicate HoldsGuard() { pc.Provisioning? || pc.Issued? }
  }

  /** Clean-up: idle, or inside the exclusive lock with the volumes it has judged
      removable from its listings. `keep` is absent when it leaves volumes alone. */
  datatype Gc = Idle | Collecting(keep: Option<set<string>>, doomed: set<Key>)

  datatype State = State(project: string, volumes: map<Key, Volume>, creates: map<TaskId, Create>, gc: Gc)

  datatype Step =
    | Spawn(t: TaskId, instance: InstanceName, needs: seq<Key>)
    | TakeShared(t: TaskId)
    | Probe(t: TaskId)
    | CreateVolume(t: TaskId, ok: bool)
    | ProbeAgain(t: TaskId)
    | SetShifted(t: TaskId)
    | NextVolume(t: TaskId)
    | Issue(t: TaskId)
    | Attach(t: TaskId)
    | Release(t: TaskId)
    | TakeExclusive(keep: Option<set<string>>)
    | ListPool(pool: string)
    | Remove(key: Key)
    | ReleaseExclusive
    // other users of LXD: they add volumes and instances and remove instances
    | Elsewhere(volumes: map<Key, Volume>)

  ghost predicate Ensuring(s: State, t: TaskId, ensure: Ensure) {
    && t in s.creates && s.creates[t].pc.Provisioning? && s.creates[t].pc.ensure == ensure
    && s.creates[t].pc.done < |s.creates[t].needs|
  }

  ghost function Wanted(s: State, t: TaskId): Key
    requires t in s.creates && s.creates[t].pc.Provisioning? && s.creates[t].pc.done < |s.creates[t].needs|
  {
    s.creates[t].needs[s.creates[t].pc.done]
  }

  ghost predicate Enabled(s: State, step: Step) {
    match step
    case Spawn(t, _, needs) => t !in s.creates
    case TakeShared(t) => t in s.creates && s.creates[t].pc.Waiting? && s.gc.Idle?
    case Probe(t) => Ensuring(s, t, Probing)
    case CreateVolume(t, ok) => Ensuring(s, t, Absent) && (ok ==> Wanted(s, t) !in s.volumes)
    case ProbeAgain(t) => Ensuring(s, t, CreateFailed)
    case SetShifted(t) => Ensuring(s, t, Exists)
    case NextVolume(t) => Ensuring(s, t, Ensured)
    case Issue(t) => t in s.creates && s.creates[t].pc.Provisioning? && s.creates[t].pc.done == |s.creates[t].needs|
    // LXD creating the instance; if the create still waits, it drops its guard then
    case Attach(t) => t in s.creates && (s.creates[t].pc.Issued? || s.creates[t].pc.LetGo?)
    // on any error on the way, and on a wait that times out
    case Release(t) => t in s.creates && s.creates[t].HoldsGuard()
    case TakeExclusive(_) => s.gc.Idle? && forall t :: t in s.creates ==> !s.creates[t].HoldsGuard()
    case ListPool(_) => s.gc.Collecting? && s.gc.keep.Some?
    // LXD refuses to remove a volume that is in use
    case Remove(key) => s.gc.Collecting? && key in s.gc.doomed && key in s.volumes && s.volumes[key].usedBy == {}
    case ReleaseExclusive => s.gc.Collecting?
    case Elsewhere(volumes) =>
      s.volumes.Keys <= volumes.Keys && forall k :: k in s.volumes && s.volumes[k].shifted ==> volumes[k].shifted
  }

  ghost function SetPc(s: State, t: TaskId, pc: Pc): State
    requires t in s.creates
  {
    s.(creates := s.creates[t := s.creates[t].(pc := pc)])
  }

  ghost function SetEnsure(s: State, t: TaskId, ensure: Ensure): State
    requires t in s.creates && s.creates[t].pc.Provisioning?
  {
    SetPc(s, t, s.creates[t].pc.(ensure := ensure))
  }

  ghost function WithUse(volumes: map<Key, Volume>, keys: seq<Key>, instance: InstanceName): map<Key, Volume> {
    map k | k in volumes :: if k in keys then volumes[k].(usedBy := volumes[k].usedBy + {instance}) else volumes[k]
  }

  ghost predicate Ready(s: State, k: Key) { k in s.volumes && s.volumes[k].shifted }

  ghost predicate AllReady(s: State, keys: seq<Key>) { forall i :: 0 <= i < |keys| ==> Ready(s, keys[i]) }

  ghost function Removable(s: State, pool: string, keep: set<string>): set<Key> {
    set k | k in s.volumes && k.pool == pool && IsUnusedAux(k, s.volumes[k], s.project, keep)
  }

  ghost function Apply(s: State, step: Step): State
    requires Enabled(s, step)
  {
    match step
    case Spawn(t, instance, needs) => s.(creates := s.creates[t := Create(instance, needs, Waiting)])
    case TakeShared(t) => SetPc(s, t, Provisioning(0, Probing))
    case Probe(t) => SetEnsure(s, t, if Wanted(s, t) in s.volumes then Exists else Absent)
    case CreateVolume(t, ok) =>
      if ok then SetEnsure(s, t, Exists).(volumes := s.volumes[Wanted(s, t) := Volume({}, false)])
      else SetEnsure(s, t, CreateFailed)
    case ProbeAgain(t) =>
      // a volume that exists now counts; otherwise the create fails
      if Wanted(s, t) in s.volumes then SetEnsure(s, t, Exists) else SetPc(s, t, Released)
    case SetShifted(t) =>
      var k := Wanted(s, t);
      if k in s.volumes then SetEnsure(s, t, Ensured).(volumes := s.volumes[k := s.volumes[k].(shifted := true)])
      else SetPc(s, t, Released)
    case NextVolume(t) => SetPc(s, t, Provisioning(s.creates[t].pc.done + 1, Probing))
    case Issue(t) => SetPc(s, t, Issued)
    case Attach(t) =>
      var c := s.creates[t];
      if AllReady(s, c.needs) then SetPc(s, t, Attached(true)).(volumes := WithUse(s.volumes, c.needs, c.instance))
      else SetPc(s, t, Attached(false))
    case Release(t) => SetPc(s, t, if s.creates[t].pc.Issued? then LetGo else Released)
    case TakeExclusive(keep) => s.(gc := Collecting(keep, {}))
    case ListPool(pool) => s.(gc := s.gc.(doomed := s.gc.doomed + Removable(s, pool, s.gc.keep.value)))
    case Remove(key) => s.(volumes := s.volumes - {key})
    case ReleaseExclusive => s.(gc := Idle)
    case Elsewhere(volumes) => s.(volumes := volumes)
  }

  ghost function Start(project: string, volumes: map<Key, Volume>): State { State(project, volumes, map[], Idle) }

  ghost predicate Allowed(s: State, steps: seq<Step>)
    decreases |steps|
  {
    steps == [] || (Enabled(s, steps[0]) && Allowed(Apply(s, steps[0]), steps[1..]))
  }

  ghost function Exec(s: State, steps: seq<Step>): State
    requires Allowed(s, steps)
    decreases |steps|
  {
    if steps == [] then s else Exec(Apply(s, steps[0]), steps[1..])
  }

  // ----- invariant

  /** What a create has ensured so far is there. */
  ghost predicate CreateOk(s: State, c: Create) {
    && (c.pc.Provisioning? ==>
          && c.pc.done <= |c.needs|
          && (forall i :: 0 <= i < c.pc.done ==> Ready(s, c.needs[i]))
          && (c.pc.done < |c.needs| && c.pc.ensure.Exists? ==> c.needs[c.pc.done] in s.volumes)
          && (c.pc.done < |c.needs| && c.pc.ensure.Ensured? ==> Ready(s, c.needs[c.pc.done])))
    && (c.pc.Issued? ==> forall i :: 0 <= i < |c.needs| ==> Ready(s, c.needs[i]))
  }

  ghost predicate Inv(s: State) {
    && (s.gc.Collecting? ==> forall t :: t in s.creates ==> !s.creates[t].HoldsGuard())
    && (forall t :: t in s.creates ==> CreateOk(s, s.creates[t]))
    && (s.gc.Collecting? ==> forall k :: k in s.gc.doomed ==>
          s.gc.keep.Some? && k.project == s.project && IsAuxiliary(k.name) && k.name !in s.gc.keep.value)
  }

  /** Volumes only grow: everything a create ensured stays ensured. */
  lemma GrowCarries(s: State, t: State, c: Create)
    requires CreateOk(s, c) && s.volumes.Keys <= t.volumes.Keys
    requires forall k :: k in s.volumes && s.volumes[k].shifted ==> t.volumes[k].shifted
    ensures CreateOk(t, c)
  {
    assert forall k :: Ready(s, k) ==> Ready(t, k);
  }

  lemma CreatesStep(s: State, step: Step, u: TaskId)
    requires Inv(s) && Enabled(s, step) && u in Apply(s, step).creates
    ensures CreateOk(Apply(s, step), Apply(s, step).creates[u])
  {
    var t := Apply(s, step);
    if step.Remove? {
      assert !s.creates[u].HoldsGuard();
    } else {
      if u in s.creates { GrowCarries(s, t, s.creates[u]); }
      assert step.NextVolume? && step.t == u ==> Ready(s, Wanted(s, u));
    }
  }

  lemma InvStep(s: State, step: Step)
    requires Inv(s) && Enabled(s, step)
    ensures Inv(Apply(s, step))
  {
    forall u | u in Apply(s, step).creates ensures CreateOk(Apply(s, step), Apply(s, step).creates[u]) {
      CreatesStep(s, step, u);
    }
    GuardStep(s, step);
  }

  lemma GuardStep(s: State, step: Step)
    requires Inv(s) && Enabled(s, step)
    ensures var t := Apply(s, step);
            t.gc.Collecting? ==>
              && (forall u :: u in t.creates ==> !t.creates[u].HoldsGuard())
              && (forall k :: k in t.gc.doomed ==>
                    t.gc.keep.Some? && k.project == t.project && IsAuxiliary(k.name) && k.name !in t.gc.keep.value)
  {
    var t := Apply(s, step);
    if s.gc.Collecting? && t.gc.Collecting? {
      assert step.Spawn? || step.Attach? || step.ListPool? || step.Remove? || step.Elsewhere?;
    }
  }

  lemma {:induction false} InvRun(s: State, steps: seq<Step>)
    requires Inv(s) && Allowed(s, steps)
    ensures Inv(Exec(s, steps))
    decreases |steps|
  {
    if steps != [] {
      InvStep(s, steps[0]);
      InvRun(Apply(s, steps[0]), steps[1..]);
    }
  }

  // ----- what every run guarantees

  /** When an instance creation is issued, every volume it needs exists and is
      shifted, whatever clean-up and other creates did meanwhile; and it stays so
      until the create lets go of its guard. */
  lemma VolumesThereWhenIssued(project: string, volumes: map<Key, Volume>, steps: seq<Step>, t: TaskId, i: nat)
    requires Allowed(Start(project, volumes), steps)
    requires var s := Exec(Start(project, volumes), steps);
             && t in s.creates && i < |s.creates[t].needs|
             && (Enabled(s, Issue(t)) || s.creates[t].pc.Issued?)
    ensures var s := Exec(Start(project, volumes), steps);
            s.creates[t].needs[i] in s.volumes && s.volumes[s.creates[t].needs[i]].shifted
  {
    InvRun(Start(project, volumes), steps);
    var s := Exec(Start(project, volumes), steps);
    assert CreateOk(s, s.creates[t]);
    assert Ready(s, s.creates[t].needs[i]);
  }

  /** Clean-up only removes unused auxiliary volumes of its own project that it was
      not told to keep, and none that a create holding its guard has provisioned
      or is about to. */
  lemma CleanUpNeverRacesCreation(project: string, volumes: map<Key, Volume>, steps: seq<Step>, key: Key, t: TaskId)
    requires Allowed(Start(project, volumes), steps)
    requires Enabled(Exec(Start(project, volumes), steps), Remove(key))
    ensures var s := Exec(Start(project, volumes), steps);
            && s.volumes[key].usedBy == {} && key.project == s.project
            && s.gc.keep.Some? && key.name !in s.gc.keep.value && IsAuxiliary(key.name)
            && (t in s.creates ==> !s.creates[t].HoldsGuard())
  {
    InvRun(Start(project, volumes), steps);
  }

  /** LXD finds all volumes of an instance whose create still waits for it. */
  lemma AttachedUnderGuard(project: string, volumes: map<Key, Volume>, steps: seq<Step>, t: TaskId)
    requires Allowed(Start(project, volumes), steps)
    requires var s := Exec(Start(project, volumes), steps); t in s.creates && s.creates[t].pc.Issued?
    ensures var s := Exec(Start(project, volumes), steps);
            Enabled(s, Attach(t)) && Apply(s, Attach(t)).creates[t].pc == Attached(true)
  {
    InvRun(Start(project, volumes), steps);
    var s := Exec(Start(project, volumes), steps);
    assert CreateOk(s, s.creates[t]);
  }
}
