/** Stop, delete and settling starts of one driver, interleaved
    (crates/openshell-driver-lxd/src/driver.rs). They serialize per instance name
    on locks kept in a table; a delete also removes its name's lock from it. */
module Lifecycle {
  import opened Common

  type Name = string
  type Id = string
  type LockId = nat
  type TaskId = nat

  datatype Status = Stopped | NotStopped

  /** `marker` is the stop intent in the instance's configuration. */
  datatype Instance = Instance(id: Option<Id>, status: Status, marker: bool)

  /** `left` counts the attempts a settling start still has of its `retries`. */
  datatype Job = Stop(name: Name) | Delete(name: Name) | Settle(name: Name, expected: Id, retries: nat, left: nat)

  /** How far the guarded section has come. */
  datatype Work =
    | Entered
    | StopChecked
    | StopMarked
    | SettleWillStart(read: Instance)
    | DeleteChecked
    | DeleteStopped
    | DeleteRemoved

  /** `Fresh`: no lock yet. `HasArc`: holds a clone of the lock's `Arc` and may
      take the lock. `Guarded`: holds the lock and may call LXD. `Leaving`: holds
      the lock but is done with LXD. `Dropping`: the guard is gone, the `Arc` not yet. */
  datatype Pc = Fresh | HasArc | Guarded(work: Work) | Leaving | Dropping

  datatype Task = Task(job: Job, pc: Pc, lock: LockId, starts: nat) {
    predicate HasClone() { !pc.Fresh? }
    predicate HasGuard() { pc.Guarded? || pc.Leaving? }
    predicate UsesTable() { pc.HasArc? || pc.Guarded? }
  }

  datatype State = State(tasks: map<TaskId, Task>, table: map<Name, LockId>, nextLock: LockId, lxd: map<Name, Instance>)

  datatype Step =
    | Spawn(t: TaskId, job: Job)
    | GetLock(t: TaskId)
    | Acquire(t: TaskId)
    | StopRead(t: TaskId)
    | StopMark(t: TaskId, ok: bool)
    | StopRequest(t: TaskId, done: bool)
    | StopClear(t: TaskId)
    | SettleRead(t: TaskId)
    | SettleStart(t: TaskId, ok: bool)
    | DeleteRead(t: TaskId)
    | DeleteStop(t: TaskId)
    | DeleteRemove(t: TaskId)
    | TableCheck(t: TaskId)
    | DropGuard(t: TaskId)
    | DropArc(t: TaskId)
    | Elsewhere(lxd: map<Name, Instance>)

  // ----- what each step does

  ghost predicate At(s: State, t: TaskId, work: Work) { t in s.tasks && s.tasks[t].pc == Guarded(work) }

  ghost function NameOf(s: State, t: TaskId): Name requires t in s.tasks { s.tasks[t].job.name }

  ghost function Clones(s: State, lock: LockId): set<TaskId> {
    set t | t in s.tasks && s.tasks[t].HasClone() && s.tasks[t].lock == lock
  }

  ghost function Entries(s: State, lock: LockId): set<Name> {
    set n | n in s.table && s.table[n] == lock
  }

  /** `Arc::strong_count`: one reference per task with a clone, one per table entry. */
  ghost function StrongCount(s: State, lock: LockId): nat { |Clones(s, lock)| + |Entries(s, lock)| }

  ghost predicate Enabled(s: State, step: Step) {
    match step
    case Spawn(t, job) => t !in s.tasks && (job.Settle? ==> job.left == job.retries)
    case GetLock(t) => t in s.tasks && s.tasks[t].pc.Fresh?
    case Acquire(t) =>
      && t in s.tasks && s.tasks[t].pc.HasArc?
      && (s.tasks[t].job.Settle? ==> s.tasks[t].job.left > 0)
      && forall u :: u in s.tasks && s.tasks[u].HasGuard() ==> s.tasks[u].lock != s.tasks[t].lock
    case StopRead(t) => At(s, t, Entered) && s.tasks[t].job.Stop?
    case StopMark(t, _) => At(s, t, StopChecked)
    case StopRequest(t, _) => At(s, t, StopMarked)
    case StopClear(t) => At(s, t, StopMarked)
    case SettleRead(t) => At(s, t, Entered) && s.tasks[t].job.Settle?
    case SettleStart(t, _) => t in s.tasks && s.tasks[t].job.Settle? && s.tasks[t].pc.Guarded?
      && s.tasks[t].pc.work.SettleWillStart?
    case DeleteRead(t) => At(s, t, Entered) && s.tasks[t].job.Delete?
    case DeleteStop(t) => At(s, t, DeleteChecked)
    case DeleteRemove(t) => At(s, t, DeleteStopped)
    case TableCheck(t) => At(s, t, DeleteRemoved)
    case DropGuard(t) => t in s.tasks && s.tasks[t].HasClone() && !s.tasks[t].pc.Dropping?
    case DropArc(t) => t in s.tasks && s.tasks[t].pc.Dropping?
    // Lock-free callers and LXD itself: creates, starts, clean-ups, an init that
    // exits. None of them sets a stop marker.
    case Elsewhere(lxd) => forall n :: n in lxd && lxd[n].marker ==> n in s.lxd && s.lxd[n].marker
  }

  ghost function SetPc(s: State, t: TaskId, pc: Pc): State
    requires t in s.tasks
  {
    s.(tasks := s.tasks[t := s.tasks[t].(pc := pc)])
  }

  ghost function WithInstance(s: State, n: Name, inst: Instance): State { s.(lxd := s.lxd[n := inst]) }

  ghost function Apply(s: State, step: Step): State
    requires Enabled(s, step)
  {
    match step
    case Spawn(t, job) => s.(tasks := s.tasks[t := Task(job, Fresh, 0, 0)])
    case GetLock(t) =>
      var n := NameOf(s, t);
      var lock := if n in s.table then s.table[n] else s.nextLock;
      s.(tasks := s.tasks[t := s.tasks[t].(pc := HasArc, lock := lock)],
         table := s.table[n := lock],
         nextLock := if n in s.table then s.nextLock else s.nextLock + 1)
    case Acquire(t) => SetPc(s, t, Guarded(Entered))
    case StopRead(t) =>
      var n := NameOf(s, t);
      if n !in s.lxd || s.lxd[n].id.None? || s.lxd[n].status.Stopped? then SetPc(s, t, Leaving)
      else SetPc(s, t, Guarded(StopChecked))
    case StopMark(t, ok) =>
      var n := NameOf(s, t);
      var s' := SetPc(s, t, Guarded(StopMarked));
      if ok && n in s.lxd then WithInstance(s', n, s.lxd[n].(marker := true)) else s'
    case StopRequest(t, done) =>
      var n := NameOf(s, t);
      if done && n in s.lxd then WithInstance(SetPc(s, t, Leaving), n, s.lxd[n].(status := Stopped)) else s
    case StopClear(t) =>
      var n := NameOf(s, t);
      var s' := SetPc(s, t, Leaving);
      if n in s.lxd then WithInstance(s', n, s.lxd[n].(marker := false)) else s'
    case SettleRead(t) =>
      var n := NameOf(s, t);
      if n !in s.lxd || s.lxd[n].id != Some(s.tasks[t].job.expected) || !s.lxd[n].status.Stopped? || s.lxd[n].marker
      then SetPc(s, t, Leaving)
      else SetPc(s, t, Guarded(SettleWillStart(s.lxd[n])))
    case SettleStart(t, ok) =>
      var n := NameOf(s, t);
      var task := s.tasks[t];
      var next := Task(task.job.(left := if task.job.left == 0 then 0 else task.job.left - 1),
                       if ok && task.job.left > 1 then HasArc else Leaving, task.lock, task.starts + 1);
      var s' := s.(tasks := s.tasks[t := next]);
      if ok && n in s.lxd then WithInstance(s', n, s.lxd[n].(status := NotStopped)) else s'
    case DeleteRead(t) =>
      var n := NameOf(s, t);
      if n !in s.lxd || s.lxd[n].id.None? then SetPc(s, t, Leaving) else SetPc(s, t, Guarded(DeleteChecked))
    case DeleteStop(t) =>
      var n := NameOf(s, t);
      if n in s.lxd then WithInstance(SetPc(s, t, Guarded(DeleteStopped)), n, s.lxd[n].(status := Stopped))
      else SetPc(s, t, Leaving)
    case DeleteRemove(t) =>
      var n := NameOf(s, t);
      if n in s.lxd then SetPc(s, t, Guarded(DeleteRemoved)).(lxd := s.lxd - {n}) else SetPc(s, t, Leaving)
    case TableCheck(t) =>
      var s' := SetPc(s, t, Leaving);
      if StrongCount(s, s.tasks[t].lock) <= 2 then s'.(table := s.table - {NameOf(s, t)}) else s'
    case DropGuard(t) => SetPc(s, t, Dropping)
    case DropArc(t) => s.(tasks := s.tasks - {t})
    case Elsewhere(lxd) => s.(lxd := lxd)
  }

  // ----- runs

  ghost function Start(lxd: map<Name, Instance>): State { State(map[], map[], 0, lxd) }

  ghost predicate Allowed(s: State, steps: seq<Step>)
    decreases |steps|
  {
    steps == [] || (Enabled(s, steps[0]) && Allowed(Apply(s, steps[0]), steps[1..]))
  }

  ghost function Exec(s: State, steps: seq<Step>): State
    requires Allowed(s, steps)
    decreases |steps|
  {
    if steps == [] then s else Exec(Apply(s, steps[0]), steps[1..])
  }

  // ----- invariant

  ghost predicate LocksOk(s: State) {
    // whoever may still use a lock for a name finds that very lock in the table
    && (forall t :: t in s.tasks && s.tasks[t].UsesTable() ==>
          s.tasks[t].job.name in s.table && s.table[s.tasks[t].job.name] == s.tasks[t].lock)
    && (forall t :: t in s.tasks && s.tasks[t].HasClone() ==> s.tasks[t].lock < s.nextLock)
    && (forall n :: n in s.table ==> s.table[n] < s.nextLock)
    && (forall n, m :: n in s.table && m in s.table && s.table[n] == s.table[m] ==> n == m)
    && (forall t, u :: Guards(s, t) && Guards(s, u) && s.tasks[t].lock == s.tasks[u].lock ==> t == u)
  }

  ghost predicate Guards(s: State, t: TaskId) { t in s.tasks && s.tasks[t].HasGuard() }

  /** A settling start about to start has read a stopped, unmarked instance with
      its id, and nobody has marked it since. */
  ghost predicate SettleOk(s: State, t: TaskId)
    requires t in s.tasks
  {
    s.tasks[t].pc.Guarded? && s.tasks[t].pc.work.SettleWillStart? ==>
      && s.tasks[t].job.Settle? && s.tasks[t].job.left > 0
      && s.tasks[t].pc.work.read == Instance(Some(s.tasks[t].job.expected), Stopped, false)
      && (s.tasks[t].job.name in s.lxd ==> !s.lxd[s.tasks[t].job.name].marker)
  }

  ghost predicate JobOk(task: Task) {
    && (task.pc.Guarded? && (task.pc.work.StopChecked? || task.pc.work.StopMarked?) ==> task.job.Stop?)
    && (task.pc.Guarded? && task.job.Settle? && task.pc.work.Entered? ==> task.job.left > 0)
    && (task.job.Settle? ==> task.starts + task.job.left == task.job.retries)
  }

  ghost predicate Inv(s: State) {
    && LocksOk(s)
    && forall t :: t in s.tasks ==> SettleOk(s, t) && JobOk(s.tasks[t])
  }

  lemma SingletonSet(x: set<TaskId>, t: TaskId, u: TaskId)
    requires |x| <= 1 && t in x && u in x
    ensures t == u
  {
    assert |x - {t}| == |x| - 1;
    assert u !in x - {t};
  }

  /** A count of at most two means that nobody else has a clone of the lock. */
  lemma CountOfTwoIsAlone(s: State, t: TaskId, u: TaskId)
    requires LocksOk(s) && t in s.tasks && s.tasks[t].UsesTable() && StrongCount(s, s.tasks[t].lock) <= 2
    requires u in s.tasks && s.tasks[u].HasClone() && s.tasks[u].lock == s.tasks[t].lock
    ensures u == t
  {
    var lock := s.tasks[t].lock;
    assert s.tasks[t].job.name in Entries(s, lock);
    assert Entries(s, lock) != {};
    SingletonSet(Clones(s, lock), t, u);
  }

  ghost predicate SameButPc(a: Task, b: Task) { a.job.name == b.job.name && a.lock == b.lock }

  /** A step that only moves task `t` along keeps the lock facts. */
  lemma LocksCarry(s: State, s': State, t: TaskId)
    requires LocksOk(s) && t in s.tasks && s'.table == s.table && s'.nextLock == s.nextLock
    requires s'.tasks.Keys == s.tasks.Keys && (forall u :: u in s.tasks && u != t ==> s'.tasks[u] == s.tasks[u])
    requires SameButPc(s.tasks[t], s'.tasks[t])
    requires s'.tasks[t].UsesTable() ==> s.tasks[t].UsesTable()
    requires s'.tasks[t].HasClone() ==> s.tasks[t].HasClone()
    requires s'.tasks[t].HasGuard() ==>
               || s.tasks[t].HasGuard()
               || forall u :: u in s.tasks && s.tasks[u].HasGuard() ==> s.tasks[u].lock != s.tasks[t].lock
    ensures LocksOk(s')
  {
  }

  ghost predicate MovesOneTask(step: Step) {
    !step.Spawn? && !step.GetLock? && !step.TableCheck? && !step.DropArc? && !step.Elsewhere?
  }

  lemma MoveStep(s: State, step: Step)
    requires Inv(s) && Enabled(s, step) && MovesOneTask(step)
    ensures LocksOk(Apply(s, step))
  {
    var s', t := Apply(s, step), step.t;
    assert s'.tasks == s.tasks[t := s'.tasks[t]];
    assert s'.tasks[t].HasGuard() ==> s.tasks[t].HasGuard() || step.Acquire?;
    LocksCarry(s, s', t);
  }

  lemma LocksStep(s: State, step: Step)
    requires Inv(s) && Enabled(s, step)
    ensures LocksOk(Apply(s, step))
  {
    if MovesOneTask(step) {
      MoveStep(s, step);
    } else if step.GetLock? {
      GetLockStep(s, step.t);
    } else if step.TableCheck? {
      TableCheckStep(s, step.t);
    } else {
      OtherStep(s, step);
    }
  }

  lemma OtherStep(s: State, step: Step)
    requires Inv(s) && Enabled(s, step) && (step.Spawn? || step.DropArc? || step.Elsewhere?)
    ensures LocksOk(Apply(s, step))
  {
    var s' := Apply(s, step);
    assert forall t :: Guards(s', t) ==> Guards(s, t) && s.tasks[t] == s'.tasks[t];
  }

  lemma GetLockStep(s: State, t: TaskId)
    requires LocksOk(s) && Enabled(s, GetLock(t))
    ensures LocksOk(Apply(s, GetLock(t)))
  {
    var s' := Apply(s, GetLock(t));
    assert forall u :: Guards(s', u) ==> Guards(s, u) && s.tasks[u] == s'.tasks[u];
  }

  lemma TableCheckStep(s: State, t: TaskId)
    requires LocksOk(s) && Enabled(s, TableCheck(t))
    ensures LocksOk(Apply(s, TableCheck(t)))
  {
    var moved := SetPc(s, t, Leaving);
    LocksCarry(s, moved, t);
    if StrongCount(s, s.tasks[t].lock) <= 2 {
      forall u | u in s.tasks && u != t && s.tasks[u].HasClone() ensures s.tasks[u].lock != s.tasks[t].lock {
        if s.tasks[u].lock == s.tasks[t].lock { CountOfTwoIsAlone(s, t, u); }
      }
      EntryRemoved(moved, t, s.table[s.tasks[t].job.name]);
    }
  }

  lemma EntryRemoved(s: State, t: TaskId, lock: LockId)
    requires LocksOk(s) && t in s.tasks && s.tasks[t].pc.Leaving?
    requires s.tasks[t].job.name in s.table && s.table[s.tasks[t].job.name] == lock
    requires forall u :: u in s.tasks && u != t && s.tasks[u].HasClone() ==> s.tasks[u].lock != lock
    ensures LocksOk(s.(table := s.table - {s.tasks[t].job.name}))
  {
    var s' := s.(table := s.table - {s.tasks[t].job.name});
    assert forall u :: Guards(s', u) <==> Guards(s, u);
  }

  lemma AtMostOneGuarded(s: State, t: TaskId, u: TaskId)
    requires LocksOk(s) && t in s.tasks && u in s.tasks
    requires s.tasks[t].pc.Guarded? && s.tasks[u].pc.Guarded? && s.tasks[t].job.name == s.tasks[u].job.name
    ensures t == u
  {
    assert Guards(s, t) && Guards(s, u);
  }

  lemma JobStep(s: State, step: Step, t: TaskId)
    requires Inv(s) && Enabled(s, step) && t in Apply(s, step).tasks
    ensures JobOk(Apply(s, step).tasks[t])
  {
    assert t in s.tasks ==> JobOk(s.tasks[t]) && SettleOk(s, t);
  }

  lemma MarkedOnlyByStop(s: State, step: Step, n: Name)
    requires Enabled(s, step) && Marked(Apply(s, step), n)
    ensures Marked(s, n) || (step.StopMark? && NameOf(s, step.t) == n)
  {
  }

  lemma SettleStep(s: State, step: Step, t: TaskId)
    requires Inv(s) && Enabled(s, step) && t in Apply(s, step).tasks
    ensures SettleOk(Apply(s, step), t)
  {
    var s' := Apply(s, step);
    if s'.tasks[t].pc.Guarded? && s'.tasks[t].pc.work.SettleWillStart? {
      var n := s'.tasks[t].job.name;
      assert SettleOk(s, t) && JobOk(s.tasks[t]);
      if Marked(s', n) { MarkedOnlyByStop(s, step, n); }
      if step.StopMark? && n == NameOf(s, step.t) {
        assert JobOk(s.tasks[step.t]);
        AtMostOneGuarded(s, t, step.t);
      }
    }
  }

  lemma InvStep(s: State, step: Step)
    requires Inv(s) && Enabled(s, step)
    ensures Inv(Apply(s, step))
  {
    LocksStep(s, step);
    forall t | t in Apply(s, step).tasks ensures SettleOk(Apply(s, step), t) && JobOk(Apply(s, step).tasks[t]) {
      SettleStep(s, step, t);
      JobStep(s, step, t);
    }
  }

  lemma {:induction false} InvRun(s: State, steps: seq<Step>)
    requires Inv(s) && Allowed(s, steps)
    ensures Inv(Exec(s, steps))
    decreases |steps|
  {
    if steps != [] {
      InvStep(s, steps[0]);
      InvRun(Apply(s, steps[0]), steps[1..]);
    }
  }

  // ----- what every run guarantees

  /** Over all interleavings, at most one task per name is doing guarded LXD work,
      although deletes remove locks from the table. */
  lemma MutualExclusion(lxd: map<Name, Instance>, steps: seq<Step>, t: TaskId, u: TaskId)
    requires Allowed(Start(lxd), steps)
    requires var s := Exec(Start(lxd), steps);
             && t in s.tasks && u in s.tasks && s.tasks[t].pc.Guarded? && s.tasks[u].pc.Guarded?
             && s.tasks[t].job.name == s.tasks[u].job.name
    ensures t == u
  {
    InvRun(Start(lxd), steps);
    AtMostOneGuarded(Exec(Start(lxd), steps), t, u);
  }

  /** A settling start only issues a start for an instance it read, holding the
      lock, as stopped, unmarked and carrying its id; the instance is still
      unmarked then; and it starts at most `retries` times. */
  lemma SettleStartsOnlyUnmarked(lxd: map<Name, Instance>, steps: seq<Step>, t: TaskId, ok: bool)
    requires Allowed(Start(lxd), steps) && Enabled(Exec(Start(lxd), steps), SettleStart(t, ok))
    ensures var s := Exec(Start(lxd), steps);
            var task := s.tasks[t];
            && task.pc.work.read == Instance(Some(task.job.expected), Stopped, false)
            && (task.job.name in s.lxd ==> !s.lxd[task.job.name].marker)
            && task.starts < task.job.retries
  {
    InvRun(Start(lxd), steps);
    var s := Exec(Start(lxd), steps);
    assert SettleOk(s, t) && JobOk(s.tasks[t]);
  }

  ghost predicate Marked(s: State, n: Name) { n in s.lxd && s.lxd[n].marker }

  ghost predicate StaysMarked(s: State, steps: seq<Step>, n: Name)
    requires Allowed(s, steps)
    decreases |steps|
  {
    Marked(s, n) && (steps == [] || StaysMarked(Apply(s, steps[0]), steps[1..], n))
  }

  ghost predicate SettleStarts(s: State, steps: seq<Step>, n: Name)
    requires Allowed(s, steps)
    decreases |steps|
  {
    steps != [] &&
    ((steps[0].SettleStart? && NameOf(s, steps[0].t) == n) || SettleStarts(Apply(s, steps[0]), steps[1..], n))
  }

  /** From the moment a stop has written its marker until something clears it, no
      settling start starts the instance. */
  lemma RecordedStopNotUndone(lxd: map<Name, Instance>, before: seq<Step>, steps: seq<Step>, n: Name)
    requires Allowed(Start(lxd), before) && Allowed(Exec(Start(lxd), before), steps)
    requires StaysMarked(Exec(Start(lxd), before), steps, n)
    ensures !SettleStarts(Exec(Start(lxd), before), steps, n)
  {
    InvRun(Start(lxd), before);
    MarkedNotStarted(Exec(Start(lxd), before), steps, n);
  }

  lemma {:induction false} MarkedNotStarted(s: State, steps: seq<Step>, n: Name)
    requires Inv(s) && Allowed(s, steps) && StaysMarked(s, steps, n)
    ensures !SettleStarts(s, steps, n)
    decreases |steps|
  {
    if steps != [] {
      InvStep(s, steps[0]);
      MarkedNotStarted(Apply(s, steps[0]), steps[1..], n);
      assert steps[0].SettleStart? ==> SettleOk(s, steps[0].t);
    }
  }

  // ----- stops that leave no marker

  ghost predicate Reaches(s: State, t: State) {
    exists steps :: Allowed(s, steps) && Exec(s, steps) == t
  }

  lemma ReachesSelf(s: State)
    ensures Reaches(s, s)
  {
    assert Allowed(s, []) && Exec(s, []) == s;
  }

  lemma {:induction false} ExecSnoc(s: State, steps: seq<Step>, step: Step)
    requires Allowed(s, steps) && Enabled(Exec(s, steps), step)
    ensures Allowed(s, steps + [step]) && Exec(s, steps + [step]) == Apply(Exec(s, steps), step)
    decreases |steps|
  {
    if steps == [] {
      var u := Apply(s, step);
      assert [step][1..] == [] && Allowed(u, []) && Exec(u, []) == u;
      assert steps + [step] == [step];
    } else {
      assert (steps + [step])[0] == steps[0] && (steps + [step])[1..] == steps[1..] + [step];
      ExecSnoc(Apply(s, steps[0]), steps[1..], step);
    }
  }

  lemma ReachesStep(s: State, t: State, step: Step)
    requires Reaches(s, t) && Enabled(t, step)
    ensures Reaches(s, Apply(t, step))
  {
    var steps :| Allowed(s, steps) && Exec(s, steps) == t;
    ExecSnoc(s, steps, step);
  }

  ghost predicate NobodyGuards(s: State, lock: LockId) {
    forall t :: Guards(s, t) ==> s.tasks[t].lock != lock
  }

  /** A stop that finds the sandbox already stopped records nothing: a start still
      settling then starts the sandbox after that stop has returned successfully. */
  lemma StopOfStoppedIsUndone(s: State, t: TaskId, u: TaskId) returns (stopped: State, started: State)
    requires t in s.tasks && s.tasks[t].job.Settle? && s.tasks[t].pc.HasArc? && s.tasks[t].job.left > 0
    requires s.tasks[t].job.name in s.table && s.table[s.tasks[t].job.name] == s.tasks[t].lock
    requires NobodyGuards(s, s.tasks[t].lock) && u !in s.tasks
    requires s.tasks[t].job.name in s.lxd
    requires s.lxd[s.tasks[t].job.name] == Instance(Some(s.tasks[t].job.expected), Stopped, false)
    ensures Reaches(s, stopped) && u in stopped.tasks && stopped.tasks[u].job == Stop(s.tasks[t].job.name)
            && stopped.tasks[u].pc.Leaving? && stopped.lxd == s.lxd
    ensures Reaches(stopped, started) && u !in started.tasks
            && s.tasks[t].job.name in started.lxd && started.lxd[s.tasks[t].job.name].status.NotStopped?
  {
    stopped := StopReturns(s, u, s.tasks[t].job.name);
    assert stopped.tasks[t] == s.tasks[t];
    var d;
    d, started := SettlesAfter(stopped, t, u);
  }

  lemma StopReturns(s: State, u: TaskId, n: Name) returns (d: State)
    requires u !in s.tasks && n in s.table && NobodyGuards(s, s.table[n])
    requires n in s.lxd && s.lxd[n].status.Stopped?
    ensures Reaches(s, d) && d == s.(tasks := s.tasks[u := Task(Stop(n), Leaving, s.table[n], 0)])
  {
    var b := StopWaits(s, u, n);
    assert Enabled(b, Acquire(u)) by {
      assert forall x :: Guards(b, x) ==> Guards(s, x) && b.tasks[x] == s.tasks[x];
    }
    ReachesStep(s, b, Acquire(u));
    var c := Apply(b, Acquire(u));
    ReachesStep(s, c, StopRead(u));
    d := Apply(c, StopRead(u));
  }

  lemma StopWaits(s: State, u: TaskId, n: Name) returns (b: State)
    requires u !in s.tasks && n in s.table
    ensures Reaches(s, b) && b == s.(tasks := s.tasks[u := Task(Stop(n), HasArc, s.table[n], 0)])
  {
    ReachesSelf(s);
    ReachesStep(s, s, Spawn(u, Stop(n)));
    var a := Apply(s, Spawn(u, Stop(n)));
    ReachesStep(s, a, GetLock(u));
    b := Apply(a, GetLock(u));
    assert b.table == s.table;
  }

  /** The stop `u` has returned, the sandbox is stopped, and the start `t` is still
      settling. */
  ghost predicate StoppedWhileSettling(s: State, t: TaskId, u: TaskId) {
    && t != u && t in s.tasks && s.tasks[t].job.Settle? && s.tasks[t].pc.HasArc? && s.tasks[t].job.left > 0
    && u in s.tasks && s.tasks[u].pc.Leaving?
    && (forall x :: Guards(s, x) && x != u ==> s.tasks[x].lock != s.tasks[t].lock)
    && s.tasks[t].job.name in s.lxd
    && s.lxd[s.tasks[t].job.name].id == Some(s.tasks[t].job.expected)
    && s.lxd[s.tasks[t].job.name].status.Stopped?
  }

  lemma SettlesAfter(s: State, t: TaskId, u: TaskId) returns (d: State, e: State)
    requires StoppedWhileSettling(s, t, u) && !Marked(s, s.tasks[t].job.name)
    ensures Reaches(s, d) && Enabled(d, SettleStart(t, true)) && NameOf(d, t) == NameOf(s, t)
    ensures Reaches(s, e) && e == Apply(d, SettleStart(t, true)) && u !in e.tasks
    ensures s.tasks[t].job.name in e.lxd && e.lxd[s.tasks[t].job.name].status.NotStopped?
  {
    ReachesSelf(s);
    ReachesStep(s, s, DropGuard(u));
    var a := Apply(s, DropGuard(u));
    ReachesStep(s, a, DropArc(u));
    var b := Apply(a, DropArc(u));
    assert forall x :: Guards(b, x) ==> Guards(s, x) && x != u && b.tasks[x] == s.tasks[x];
    assert Enabled(b, Acquire(t));
    ReachesStep(s, b, Acquire(t));
    d, e := StartsWhenGuarded(s, Apply(b, Acquire(t)), t);
  }

  lemma StartsWhenGuarded(s: State, c: State, t: TaskId) returns (d: State, e: State)
    requires Reaches(s, c) && At(c, t, Entered) && c.tasks[t].job.Settle?
    requires c.tasks[t].job.name in c.lxd
    requires c.lxd[c.tasks[t].job.name] == Instance(Some(c.tasks[t].job.expected), Stopped, false)
    ensures Reaches(s, d) && Enabled(d, SettleStart(t, true)) && NameOf(d, t) == NameOf(c, t)
    ensures Reaches(s, e) && e == Apply(d, SettleStart(t, true)) && e.tasks.Keys == c.tasks.Keys
    ensures c.tasks[t].job.name in e.lxd && e.lxd[c.tasks[t].job.name].status.NotStopped?
  {
    ReachesStep(s, c, SettleRead(t));
    d := Apply(c, SettleRead(t));
    ReachesStep(s, d, SettleStart(t, true));
    e := Apply(d, SettleStart(t, true));
  }

  /** The marker is written on a best effort: a stop that could not write it stops the
      sandbox all the same, and a start still settling then starts it again. */
  lemma UnmarkedStopIsUndone(s: State, t: TaskId, u: TaskId) returns (stopped: State, started: State)
    requires t in s.tasks && s.tasks[t].job.Settle? && s.tasks[t].pc.HasArc? && s.tasks[t].job.left > 0
    requires s.tasks[t].job.name in s.table && s.table[s.tasks[t].job.name] == s.tasks[t].lock
    requires NobodyGuards(s, s.tasks[t].lock) && u !in s.tasks
    requires s.tasks[t].job.name in s.lxd
    requires s.lxd[s.tasks[t].job.name] == Instance(Some(s.tasks[t].job.expected), NotStopped, false)
    ensures Reaches(s, stopped) && u in stopped.tasks && stopped.tasks[u].job == Stop(s.tasks[t].job.name)
            && stopped.tasks[u].pc.Leaving?
            && stopped.lxd == s.lxd[s.tasks[t].job.name := Instance(Some(s.tasks[t].job.expected), Stopped, false)]
    ensures Reaches(stopped, started) && u !in started.tasks
            && s.tasks[t].job.name in started.lxd && started.lxd[s.tasks[t].job.name].status.NotStopped?
  {
    var n := s.tasks[t].job.name;
    var b := StopWaits(s, u, n);
    assert Enabled(b, Acquire(u)) by {
      assert forall x :: Guards(b, x) ==> Guards(s, x) && b.tasks[x] == s.tasks[x];
    }
    ReachesStep(s, b, Acquire(u));
    var c := Apply(b, Acquire(u));
    stopped := StopsUnmarked(s, c, u, n);
    assert stopped.tasks[t] == s.tasks[t];
    assert forall x :: Guards(stopped, x) && x != u ==> Guards(s, x) && stopped.tasks[x] == s.tasks[x];
    var d;
    d, started := SettlesAfter(stopped, t, u);
  }

  lemma StopsUnmarked(s: State, c: State, u: TaskId, n: Name) returns (f: State)
    requires Reaches(s, c) && At(c, u, Entered) && c.tasks[u].job == Stop(n)
    requires n in c.lxd && c.lxd[n].id.Some? && c.lxd[n].status.NotStopped?
    ensures Reaches(s, f)
    ensures f == c.(tasks := c.tasks[u := c.tasks[u].(pc := Leaving)], lxd := c.lxd[n := c.lxd[n].(status := Stopped)])
  {
    ReachesStep(s, c, StopRead(u));
    var d := Apply(c, StopRead(u));
    ReachesStep(s, d, StopMark(u, false));
    var e := Apply(d, StopMark(u, false));
    ReachesStep(s, e, StopRequest(u, true));
    f := Apply(e, StopRequest(u, true));
  }

  // ----- which stops can be undone

  /** A settling start can start `n` while the marker, if there is one, is not cleared. */
  ghost predicate CanBeUndone(s: State, n: Name) { exists steps :: UndoingRun(s, steps, n) }

  ghost predicate UndoingRun(s: State, steps: seq<Step>, n: Name) {
    Allowed(s, steps) && (Marked(s, n) ==> StaysMarked(s, steps, n)) && SettleStarts(s, steps, n)
  }

  lemma {:induction false} StartsAtEnd(s: State, steps: seq<Step>, t: TaskId, n: Name)
    requires Allowed(s, steps) && Enabled(Exec(s, steps), SettleStart(t, true)) && NameOf(Exec(s, steps), t) == n
    requires Allowed(s, steps + [SettleStart(t, true)])
    ensures SettleStarts(s, steps + [SettleStart(t, true)], n)
    decreases |steps|
  {
    var all := steps + [SettleStart(t, true)];
    if steps == [] {
      assert all[0] == SettleStart(t, true);
    } else {
      assert all[0] == steps[0] && all[1..] == steps[1..] + [SettleStart(t, true)];
      StartsAtEnd(Apply(s, steps[0]), steps[1..], t, n);
    }
  }

  /** When a stop has returned with the sandbox stopped and a start still settling,
      that start can undo it, before the marker is cleared, exactly when the stop left
      no marker. */
  lemma UndoneIffUnmarked(lxd: map<Name, Instance>, before: seq<Step>, s: State, t: TaskId, u: TaskId)
    requires Allowed(Start(lxd), before) && s == Exec(Start(lxd), before)
    requires StoppedWhileSettling(s, t, u)
    ensures CanBeUndone(s, s.tasks[t].job.name) <==> !Marked(s, s.tasks[t].job.name)
  {
    var n := s.tasks[t].job.name;
    InvRun(Start(lxd), before);
    if Marked(s, n) {
      forall steps ensures !UndoingRun(s, steps, n) {
        if Allowed(s, steps) && StaysMarked(s, steps, n) { MarkedNotStarted(s, steps, n); }
      }
    } else {
      var d, e := SettlesAfter(s, t, u);
      var steps :| Allowed(s, steps) && Exec(s, steps) == d;
      ExecSnoc(s, steps, SettleStart(t, true));
      StartsAtEnd(s, steps, t, n);
      assert UndoingRun(s, steps + [SettleStart(t, true)], n);
    }
  }
}
