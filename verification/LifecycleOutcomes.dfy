/** What stop, settling start and delete achieve when they run through, and what
    becomes of a recorded stop afterwards (crates/openshell-driver-lxd/src/driver.rs). */
module LifecycleOutcomes {
  import opened Common
  import opened Lifecycle

  ghost predicate Runs(s: State, u: TaskId, job: Job) { At(s, u, Entered) && s.tasks[u].job == job }

  ghost function Left(s: State, u: TaskId): State
    requires u in s.tasks
  {
    s.(tasks := s.tasks[u := s.tasks[u].(pc := Leaving)])
  }

  // ----- stop

  /** A stop goes on only with a sandbox that is the driver's and not stopped yet;
      otherwise it returns. Looking changes nothing. */
  lemma StopLooks(s: State, u: TaskId, n: Name)
    requires Runs(s, u, Stop(n))
    ensures Enabled(s, StopRead(u))
    ensures Apply(s, StopRead(u)) ==
            if n in s.lxd && s.lxd[n].id.Some? && s.lxd[n].status.NotStopped?
            then s.(tasks := s.tasks[u := s.tasks[u].(pc := Guarded(StopChecked))])
            else Left(s, u)
  {
  }

  /** A stop that runs through leaves the sandbox stopped, and marked as stopped on
      request if the marker could be written. Nothing else changes. */
  lemma StopSucceeds(s: State, u: TaskId, n: Name, marks: bool)
    requires Runs(s, u, Stop(n)) && n in s.lxd && s.lxd[n].id.Some? && s.lxd[n].status.NotStopped?
    ensures Enabled(s, StopRead(u))
    ensures var a := Apply(s, StopRead(u));
            && Enabled(a, StopMark(u, marks))
            && var b := Apply(a, StopMark(u, marks));
               && Enabled(b, StopRequest(u, true))
               && Apply(b, StopRequest(u, true)) ==
                  Left(s, u).(lxd := s.lxd[n := Instance(s.lxd[n].id, Stopped, marks || s.lxd[n].marker)])
  {
  }

  /** A stop whose requests all fail takes its marker back. */
  lemma StopFails(s: State, u: TaskId, n: Name)
    requires Runs(s, u, Stop(n)) && n in s.lxd && s.lxd[n].id.Some? && s.lxd[n].status.NotStopped?
    ensures var b := Apply(Apply(s, StopRead(u)), StopMark(u, true));
            && Enabled(b, StopRequest(u, false)) && Apply(b, StopRequest(u, false)) == b
            && Enabled(b, StopClear(u))
            && Apply(b, StopClear(u)) == Left(s, u).(lxd := s.lxd[n := s.lxd[n].(marker := false)])
  {
  }

  /** The step takes the stop marker of `n` away: a failed stop, the removal of the
      instance, or someone else, such as a start. */
  ghost predicate Clears(s: State, step: Step, n: Name)
    requires Enabled(s, step)
  {
    || ((step.StopClear? || step.DeleteRemove?) && NameOf(s, step.t) == n)
    || (step.Elsewhere? && !(n in step.lxd && step.lxd[n].marker))
  }

  ghost predicate NeverCleared(s: State, steps: seq<Step>, n: Name)
    requires Allowed(s, steps)
    decreases |steps|
  {
    steps != [] ==> !Clears(s, steps[0], n) && NeverCleared(Apply(s, steps[0]), steps[1..], n)
  }

  lemma MarkStays(s: State, step: Step, n: Name)
    requires Enabled(s, step) && Marked(s, n)
    ensures Marked(Apply(s, step), n) <==> !Clears(s, step, n)
  {
  }

  lemma {:induction false} StaysUntilCleared(s: State, steps: seq<Step>, n: Name)
    requires Allowed(s, steps) && Marked(s, n) && NeverCleared(s, steps, n)
    ensures StaysMarked(s, steps, n) && Marked(Exec(s, steps), n)
    decreases |steps|
  {
    if steps != [] {
      MarkStays(s, steps[0], n);
      StaysUntilCleared(Apply(s, steps[0]), steps[1..], n);
    }
  }

  /** From the moment a stop has written its marker, until something clears it, no
      settling start starts the sandbox, and none can in any continuation. */
  lemma RecordedStopHolds(lxd: map<Name, Instance>, before: seq<Step>, s: State, u: TaskId, steps: seq<Step>)
    requires Allowed(Start(lxd), before) && s == Exec(Start(lxd), before)
    requires Enabled(s, StopMark(u, true)) && NameOf(s, u) in s.lxd
    requires var a := Apply(s, StopMark(u, true)); Allowed(a, steps) && NeverCleared(a, steps, NameOf(s, u))
    ensures var a := Apply(s, StopMark(u, true));
            !SettleStarts(a, steps, NameOf(s, u)) && !CanBeUndone(Exec(a, steps), NameOf(s, u))
  {
    var n, a := NameOf(s, u), Apply(s, StopMark(u, true));
    InvRun(Start(lxd), before);
    InvStep(s, StopMark(u, true));
    assert Marked(a, n);
    StaysUntilCleared(a, steps, n);
    MarkedNotStarted(a, steps, n);
    InvRun(a, steps);
    NotUndone(Exec(a, steps), n);
  }

  lemma NotUndone(s: State, n: Name)
    requires Inv(s) && Marked(s, n)
    ensures !CanBeUndone(s, n)
  {
    forall steps ensures !UndoingRun(s, steps, n) {
      if Allowed(s, steps) && StaysMarked(s, steps, n) { MarkedNotStarted(s, steps, n); }
    }
  }

  // ----- settling start

  /** One attempt of a settling start: it starts the sandbox exactly when it reads it as
      its own, stopped and unmarked; then the sandbox runs and an attempt is used up. */
  lemma SettleAttempt(s: State, t: TaskId)
    requires At(s, t, Entered) && s.tasks[t].job.Settle? && s.tasks[t].job.left > 0
    ensures Enabled(s, SettleRead(t))
    ensures var n, job := NameOf(s, t), s.tasks[t].job;
            var a := Apply(s, SettleRead(t));
            if n in s.lxd && s.lxd[n] == Instance(Some(job.expected), Stopped, false) then
              && a.lxd == s.lxd && Enabled(a, SettleStart(t, true)) && Enabled(a, SettleStart(t, false))
              && var b := Apply(a, SettleStart(t, true));
                 && b.lxd == s.lxd[n := Instance(Some(job.expected), NotStopped, false)]
                 && b.tasks[t].job.left == job.left - 1 && b.tasks[t].starts == s.tasks[t].starts + 1
                 && b.tasks[t].pc == (if job.left > 1 then HasArc else Leaving)
                 && Apply(a, SettleStart(t, false)).lxd == s.lxd
                 && Apply(a, SettleStart(t, false)).tasks[t].pc == Leaving
            else a == Left(s, t)
  {
  }

  // ----- delete

  ghost predicate Alone(s: State, u: TaskId)
    requires u in s.tasks
  {
    forall v :: v in s.tasks && s.tasks[v].HasClone() && s.tasks[v].lock == s.tasks[u].lock ==> v == u
  }

  lemma CountIffAlone(s: State, u: TaskId)
    requires LocksOk(s) && u in s.tasks && s.tasks[u].UsesTable()
    ensures StrongCount(s, s.tasks[u].lock) <= 2 <==> Alone(s, u)
  {
    var lock := s.tasks[u].lock;
    if Alone(s, u) {
      assert Clones(s, lock) == {u};
      assert Entries(s, lock) == {s.tasks[u].job.name};
    } else {
      forall v | v in s.tasks && s.tasks[v].HasClone() && s.tasks[v].lock == lock && StrongCount(s, lock) <= 2
        ensures v == u
      {
        CountOfTwoIsAlone(s, u, v);
      }
    }
  }

  /** A delete stops the sandbox and removes it. */
  lemma DeleteRemoves(s: State, u: TaskId, n: Name)
    requires Runs(s, u, Delete(n)) && n in s.lxd && s.lxd[n].id.Some?
    ensures Enabled(s, DeleteRead(u))
    ensures var a := Apply(s, DeleteRead(u));
            && Enabled(a, DeleteStop(u))
            && var b := Apply(a, DeleteStop(u));
               && b.lxd == s.lxd[n := s.lxd[n].(status := Stopped)] && Enabled(b, DeleteRemove(u))
               && Apply(b, DeleteRemove(u)) ==
                  s.(tasks := s.tasks[u := s.tasks[u].(pc := Guarded(DeleteRemoved))], lxd := s.lxd - {n})
  {
  }

  /** Then it takes its name's lock out of the table exactly when no other task has
      that lock, and leaves. */
  lemma DeleteForgetsLock(s: State, u: TaskId)
    requires Inv(s) && At(s, u, DeleteRemoved)
    ensures Enabled(s, TableCheck(u))
    ensures Apply(s, TableCheck(u)) ==
            Left(s, u).(table := if Alone(s, u) then s.table - {NameOf(s, u)} else s.table)
  {
    CountIffAlone(s, u);
  }

  /** A delete of what is not there, or not the driver's, changes nothing. */
  lemma DeleteOfOthers(s: State, u: TaskId, n: Name)
    requires Runs(s, u, Delete(n)) && !(n in s.lxd && s.lxd[n].id.Some?)
    ensures Enabled(s, DeleteRead(u)) && Apply(s, DeleteRead(u)) == Left(s, u)
  {
  }

  // ----- the lock

  /** While a task has the guard another one waits; once it drops the guard, the other
      gets in. */
  lemma NextGetsIn(s: State, u: TaskId, v: TaskId)
    requires Inv(s) && Guards(s, u) && v in s.tasks && s.tasks[v].pc.HasArc? && s.tasks[v].lock == s.tasks[u].lock
    requires s.tasks[v].job.Settle? ==> s.tasks[v].job.left > 0
    ensures !Enabled(s, Acquire(v)) && Enabled(s, DropGuard(u))
    ensures var a := Apply(s, DropGuard(u));
            && Enabled(a, Acquire(v)) && Runs(Apply(a, Acquire(v)), v, s.tasks[v].job)
            && Enabled(a, DropArc(u)) && u !in Apply(a, DropArc(u)).tasks
  {
    var a := Apply(s, DropGuard(u));
    assert forall x :: Guards(a, x) ==> Guards(s, x) && x != u;
  }
}
