/** Resolving image references to LXD aliases, importing what is missing, while
    clean-up removes stale images (crates/openshell-driver-lxd/src/image.rs and gc.rs).

    Each resolve holds a lock of its alias from before it looks for the alias until
    it is done. The table of locks never shrinks. An import uploads an image without
    an alias and then binds the alias to it. */
module ImageCache {
  import opened Common
  import opened Aliases

  type TaskId = nat
  type LockId = nat
  type CollectionId = nat
  type Fingerprint = string

  /** Where a resolve is. `Unbound`: its alias was refused or the reply was lost.
      `Discarding`: it has found its image without aliases and will remove it. */
  datatype Pc =
    | Resolving
    | Waiting(lock: LockId)
    | Checking(lock: LockId)
    | Importing(lock: LockId)
    | Uploaded(lock: LockId, image: Fingerprint)
    | Unbound(lock: LockId, image: Fingerprint)
    | Discarding(lock: LockId, image: Fingerprint)
    | Done(ok: bool)
  {
    predicate HasLock() { !Resolving? && !Done? }
    predicate Holds() { !Resolving? && !Waiting? && !Done? }
    predicate Imports() { Importing? || Uploaded? }
    predicate Owns() { Uploaded? || Unbound? || Discarding? }
  }

  datatype Task = Task(alias: string, pc: Pc)

  /** `images` gives the project of each image, `aliases` what each alias points to.
      `foreign` are the aliases bound by other users of LXD, `imported` the aliases
      this driver's imports reported as bound, in order. A collection is the set of
      images a clean-up found stale in its listing. */
  datatype State = State(
    project: string,
    prefix: string,
    images: map<Fingerprint, string>,
    aliases: map<string, Fingerprint>,
    foreign: set<string>,
    locks: map<string, LockId>,
    tasks: map<TaskId, Task>,
    collections: map<CollectionId, set<Fingerprint>>,
    imported: seq<string>)

  datatype Step =
    | Spawn(t: TaskId, alias: string)
    | GetLock(t: TaskId)
    | Acquire(t: TaskId)
    | Check(t: TaskId)
    | Upload(t: TaskId, image: Fingerprint)
    | Bind(t: TaskId)
    | BindFails(t: TaskId, landed: bool)
    | Inspect(t: TaskId)
    | Discard(t: TaskId)
    | GiveUp(t: TaskId)
    | List(c: CollectionId)
    | Remove(c: CollectionId, image: Fingerprint)
    | Finish(c: CollectionId)
    | OtherImage(image: Fingerprint, project: string)
    | OtherAlias(alias: string, image: Fingerprint)

  ghost function AliasOf(s: State, t: TaskId): string
    requires t in s.tasks
  {
    s.tasks[t].alias
  }

  ghost predicate At(s: State, t: TaskId, pc: Pc) { t in s.tasks && s.tasks[t].pc == pc }

  ghost predicate HoldsLock(s: State, t: TaskId, l: LockId) {
    t in s.tasks && s.tasks[t].pc.Holds() && s.tasks[t].pc.lock == l
  }

  ghost predicate OwnsImage(s: State, t: TaskId, f: Fingerprint) {
    t in s.tasks && s.tasks[t].pc.Owns() && s.tasks[t].pc.image == f
  }

  ghost predicate Doomed(s: State, f: Fingerprint) {
    exists c :: c in s.collections && f in s.collections[c]
  }

  ghost predicate PointsTo(s: State, a: string, f: Fingerprint) { a in s.aliases && s.aliases[a] == f }

  /** `is_stale_image` */
  ghost predicate IsStaleImage(s: State, f: Fingerprint) {
    && f in s.images && s.images[f] == s.project
    && (exists a :: PointsTo(s, a, f))
    && (forall a :: PointsTo(s, a, f) ==> IsOlderRevision(a, s.prefix))
  }

  /** A new fingerprint: LXD has no such image, and no clean-up is about to remove
      an image it saw under that fingerprint. */
  ghost predicate New(s: State, f: Fingerprint) { f !in s.images && !Doomed(s, f) }

  /** The reference resolved to some digest. */
  ghost predicate IsCacheAlias(s: State, a: string) { exists digest :: a == CacheAlias(s.prefix, digest) }

  ghost predicate Enabled(s: State, step: Step) {
    match step
    case Spawn(t, a) => t !in s.tasks && IsCacheAlias(s, a)
    case GetLock(t) => At(s, t, Resolving)
    case Acquire(t) =>
      t in s.tasks && s.tasks[t].pc.Waiting? && forall u :: !HoldsLock(s, u, s.tasks[t].pc.lock)
    case Check(t) => t in s.tasks && s.tasks[t].pc.Checking?
    case Upload(t, f) => t in s.tasks && s.tasks[t].pc.Importing? && New(s, f)
    // LXD refuses an alias that is taken
    case Bind(t) => t in s.tasks && s.tasks[t].pc.Uploaded? && AliasOf(s, t) !in s.aliases
    case BindFails(t, landed) =>
      t in s.tasks && s.tasks[t].pc.Uploaded? && (landed ==> AliasOf(s, t) !in s.aliases)
    case Inspect(t) => t in s.tasks && s.tasks[t].pc.Unbound?
    case Discard(t) => t in s.tasks && s.tasks[t].pc.Discarding?
    // an error, a timeout or a cancelled request, at any point
    case GiveUp(t) => t in s.tasks && !s.tasks[t].pc.Done?
    case List(c) => c !in s.collections
    case Remove(c, f) => c in s.collections && f in s.collections[c] && f in s.images
    case Finish(c) => c in s.collections
    case OtherImage(f, _) => New(s, f)
    case OtherAlias(a, f) =>
      a !in s.aliases && f in s.images && !Doomed(s, f) && forall t :: !OwnsImage(s, t, f)
  }

  ghost function SetPc(s: State, t: TaskId, pc: Pc): State
    requires t in s.tasks
  {
    s.(tasks := s.tasks[t := s.tasks[t].(pc := pc)])
  }

  /** Removing an image removes its aliases. */
  ghost function WithoutImage(s: State, f: Fingerprint): State {
    s.(images := s.images - {f}, aliases := map a | a in s.aliases && s.aliases[a] != f :: s.aliases[a])
  }

  ghost function Stale(s: State): set<Fingerprint> { set f | f in s.images && IsStaleImage(s, f) }

  ghost function Apply(s: State, step: Step): State
    requires Enabled(s, step)
  {
    match step
    case Spawn(t, a) => s.(tasks := s.tasks[t := Task(a, Resolving)])
    case GetLock(t) =>
      var a := AliasOf(s, t);
      var l := if a in s.locks then s.locks[a] else |s.locks|;
      SetPc(s, t, Waiting(l)).(locks := s.locks[a := l])
    case Acquire(t) => SetPc(s, t, Checking(s.tasks[t].pc.lock))
    case Check(t) => SetPc(s, t, if AliasOf(s, t) in s.aliases then Done(true) else Importing(s.tasks[t].pc.lock))
    case Upload(t, f) => SetPc(s, t, Uploaded(s.tasks[t].pc.lock, f)).(images := s.images[f := s.project])
    case Bind(t) =>
      SetPc(s, t, Done(true))
        .(aliases := s.aliases[AliasOf(s, t) := s.tasks[t].pc.image], imported := s.imported + [AliasOf(s, t)])
    case BindFails(t, landed) =>
      SetPc(s, t, Unbound(s.tasks[t].pc.lock, s.tasks[t].pc.image))
        .(aliases := if landed then s.aliases[AliasOf(s, t) := s.tasks[t].pc.image] else s.aliases)
    case Inspect(t) =>
      var pc := s.tasks[t].pc;
      SetPc(s, t, if exists a :: PointsTo(s, a, pc.image) then Done(false) else Discarding(pc.lock, pc.image))
    case Discard(t) => WithoutImage(SetPc(s, t, Done(false)), s.tasks[t].pc.image)
    case GiveUp(t) => SetPc(s, t, Done(false))
    case List(c) => s.(collections := s.collections[c := Stale(s)])
    case Remove(_, f) => WithoutImage(s, f)
    case Finish(c) => s.(collections := s.collections - {c})
    case OtherImage(f, project) => s.(images := s.images[f := project])
    case OtherAlias(a, f) => s.(aliases := s.aliases[a := f], foreign := s.foreign + {a})
  }

  /** Any images and aliases may be there when the driver starts. */
  ghost predicate Start(s: State) {
    && s.locks == map[] && s.tasks == map[] && s.collections == map[] && s.imported == []
    && s.foreign == s.aliases.Keys && s.aliases.Values <= s.images.Keys
  }

  ghost predicate Allowed(s: State, steps: seq<Step>)
    decreases |steps|
  {
    steps == [] || (Enabled(s, steps[0]) && Allowed(Apply(s, steps[0]), steps[1..]))
  }

  ghost function Exec(s: State, steps: seq<Step>): State
    requires Allowed(s, steps)
    decreases |steps|
  {
    if steps == [] then s else Exec(Apply(s, steps[0]), steps[1..])
  }

  // ----- locks

  ghost predicate LockOk(s: State, t: TaskId)
    requires t in s.tasks
  {
    s.tasks[t].pc.HasLock() ==>
      AliasOf(s, t) in s.locks && s.locks[AliasOf(s, t)] == s.tasks[t].pc.lock
  }

  /** One lock per alias, held by one task at most. */
  ghost predicate LockInv(s: State) {
    && (forall a :: a in s.locks ==> s.locks[a] < |s.locks|)
    && (forall a, b :: a in s.locks && b in s.locks && a != b ==> s.locks[a] != s.locks[b])
    && (forall t :: t in s.tasks ==> LockOk(s, t))
    && (forall t, u, l :: HoldsLock(s, t, l) && HoldsLock(s, u, l) ==> t == u)
  }

  lemma TableStep(s: State, step: Step)
    requires LockInv(s) && Enabled(s, step)
    ensures var n := Apply(s, step);
            && (forall a :: a in s.locks ==> a in n.locks && n.locks[a] == s.locks[a])
            && (forall a :: a in n.locks ==> n.locks[a] < |n.locks|)
            && (forall a, b :: a in n.locks && b in n.locks && a != b ==> n.locks[a] != n.locks[b])
  {
    assert !step.GetLock? ==> Apply(s, step).locks == s.locks;
  }

  lemma HoldsStep(s: State, step: Step, t: TaskId, l: LockId)
    requires Enabled(s, step) && HoldsLock(Apply(s, step), t, l)
    ensures HoldsLock(s, t, l) || (step == Acquire(t) && s.tasks[t].pc == Waiting(l))
  {
  }

  /** A task keeps its alias. */
  lemma TaskStep(s: State, step: Step, t: TaskId)
    requires Enabled(s, step) && t in Apply(s, step).tasks
    ensures var n := Apply(s, step);
            if t in s.tasks then n.tasks[t].alias == s.tasks[t].alias else n.tasks[t].pc.Resolving?
  {
  }

  /** A task keeps its lock until it is done. */
  lemma TaskLockStep(s: State, step: Step, t: TaskId)
    requires Enabled(s, step) && t in s.tasks && t in Apply(s, step).tasks && Apply(s, step).tasks[t].pc.HasLock()
    ensures var n := Apply(s, step);
            if s.tasks[t].pc.HasLock() then n.tasks[t].pc.lock == s.tasks[t].pc.lock
            else s.tasks[t].alias in n.locks && n.tasks[t].pc.lock == n.locks[s.tasks[t].alias]
  {
  }

  lemma LockOkStep(s: State, step: Step, t: TaskId)
    requires LockInv(s) && Enabled(s, step) && t in Apply(s, step).tasks
    ensures LockOk(Apply(s, step), t)
  {
    TaskStep(s, step, t);
    TableStep(s, step);
    if t in s.tasks {
      if Apply(s, step).tasks[t].pc.HasLock() { TaskLockStep(s, step, t); }
    }
  }

  lemma LockInvStep(s: State, step: Step)
    requires LockInv(s) && Enabled(s, step)
    ensures LockInv(Apply(s, step))
  {
    var n := Apply(s, step);
    TableStep(s, step);
    forall t | t in n.tasks ensures LockOk(n, t) { LockOkStep(s, step, t); }
    forall t, u, l | HoldsLock(n, t, l) && HoldsLock(n, u, l) ensures t == u {
      HoldsStep(s, step, t, l);
      HoldsStep(s, step, u, l);
    }
  }

  /** Two tasks at work on one alias are the same task. */
  lemma SameAliasSameTask(s: State, t: TaskId, u: TaskId)
    requires LockInv(s) && t in s.tasks && u in s.tasks && AliasOf(s, t) == AliasOf(s, u)
    requires s.tasks[t].pc.Holds() && s.tasks[u].pc.Holds()
    ensures t == u
  {
    assert LockOk(s, t) && LockOk(s, u);
    assert HoldsLock(s, t, s.tasks[t].pc.lock) && HoldsLock(s, u, s.tasks[t].pc.lock);
  }

  // ----- images

  /** Not an alias that clean-up takes for stale. */
  ghost predicate Current(s: State, a: string) { !IsOlderRevision(a, s.prefix) }

  lemma CacheAliasIsCurrent(s: State, a: string)
    requires IsCacheAlias(s, a)
    ensures Current(s, a)
  {
    var digest :| a == CacheAlias(s.prefix, digest);
    CurrentNeverStale(s.prefix, digest);
  }

  /** A task's own image is there, is nobody else's and no clean-up is after it; the
      only alias it can have is the task's own, bound by a request that seemed to fail. */
  ghost predicate ImageOk(s: State, t: TaskId)
    requires t in s.tasks
  {
    s.tasks[t].pc.Owns() ==>
      var f := s.tasks[t].pc.image;
      && f in s.images && !Doomed(s, f)
      && (forall u :: OwnsImage(s, u, f) ==> u == t)
      && (forall a :: PointsTo(s, a, f) ==> s.tasks[t].pc.Unbound? && a == AliasOf(s, t))
  }

  ghost predicate ImageInv(s: State) {
    && s.aliases.Values <= s.images.Keys
    && (forall t :: t in s.tasks ==> ImageOk(s, t) && Current(s, s.tasks[t].alias))
    && (forall f, a :: Doomed(s, f) && PointsTo(s, a, f) ==> !Current(s, a))
  }

  lemma DoomedStep(s: State, step: Step, f: Fingerprint)
    requires Enabled(s, step) && Doomed(Apply(s, step), f)
    ensures Doomed(s, f) || (step.List? && IsStaleImage(s, f))
  {
    var n := Apply(s, step);
    var c :| c in n.collections && f in n.collections[c];
    assert c in s.collections ==> n.collections[c] == s.collections[c];
  }

  lemma OwnsStep(s: State, step: Step, t: TaskId, f: Fingerprint)
    requires Enabled(s, step) && OwnsImage(Apply(s, step), t, f)
    ensures OwnsImage(s, t, f) || (step == Upload(t, f) && New(s, f))
  {
  }

  lemma PointsStep(s: State, step: Step, a: string, f: Fingerprint)
    requires Enabled(s, step) && PointsTo(Apply(s, step), a, f)
    ensures || PointsTo(s, a, f)
            || ((step.Bind? || step.BindFails?) && OwnsImage(s, step.t, f) && a == AliasOf(s, step.t))
            || (step == OtherAlias(a, f))
  {
  }

  lemma DoomedIsOlder(s: State, step: Step, f: Fingerprint, a: string)
    requires ImageInv(s) && Enabled(s, step) && Doomed(Apply(s, step), f) && PointsTo(Apply(s, step), a, f)
    ensures !Current(s, a)
  {
    DoomedStep(s, step, f);
    PointsStep(s, step, a, f);
    assert step.Bind? || step.BindFails? ==> ImageOk(s, step.t);
  }

  lemma ImageOkStep(s: State, step: Step, t: TaskId)
    requires ImageInv(s) && Enabled(s, step) && t in Apply(s, step).tasks
    ensures ImageOk(Apply(s, step), t)
  {
    var n := Apply(s, step);
    if n.tasks[t].pc.Owns() {
      var f := n.tasks[t].pc.image;
      assert OwnsImage(n, t, f);
      OwnsStep(s, step, t, f);
      assert t in s.tasks && ImageOk(s, t);
      ImageThere(s, step, t, f);
      forall u | OwnsImage(n, u, f) ensures u == t {
        OwnsStep(s, step, u, f);
        assert u in s.tasks && ImageOk(s, u);
      }
      forall a | PointsTo(n, a, f) ensures n.tasks[t].pc.Unbound? && a == AliasOf(n, t) {
        ImageAliased(s, step, t, a, f);
      }
    }
  }

  lemma ImageThere(s: State, step: Step, t: TaskId, f: Fingerprint)
    requires ImageInv(s) && Enabled(s, step) && OwnsImage(Apply(s, step), t, f)
    ensures f in Apply(s, step).images
  {
    OwnsStep(s, step, t, f);
    assert t in s.tasks && ImageOk(s, t);
    assert step.Discard? ==> ImageOk(s, step.t) && OwnsImage(s, step.t, s.tasks[step.t].pc.image);
    assert step.Remove? ==> Doomed(s, step.image);
  }

  lemma ImageAliased(s: State, step: Step, t: TaskId, a: string, f: Fingerprint)
    requires ImageInv(s) && Enabled(s, step) && OwnsImage(Apply(s, step), t, f) && PointsTo(Apply(s, step), a, f)
    ensures Apply(s, step).tasks[t].pc.Unbound? && a == AliasOf(Apply(s, step), t)
  {
    OwnsStep(s, step, t, f);
    PointsStep(s, step, a, f);
    TaskStep(s, step, t);
    assert t in s.tasks && ImageOk(s, t);
    if PointsTo(s, a, f) {
      assert f in s.aliases.Values;
    }
  }

  lemma AliasesPointAtImages(s: State, step: Step)
    requires ImageInv(s) && Enabled(s, step)
    ensures Apply(s, step).aliases.Values <= Apply(s, step).images.Keys
  {
    var n := Apply(s, step);
    forall a | a in n.aliases ensures n.aliases[a] in n.images {
      PointsStep(s, step, a, n.aliases[a]);
      assert a in s.aliases ==> s.aliases[a] in s.aliases.Values;
      assert step.Bind? || step.BindFails? ==> ImageOk(s, step.t);
    }
  }

  lemma CurrentStep(s: State, step: Step, t: TaskId)
    requires ImageInv(s) && Enabled(s, step) && t in Apply(s, step).tasks
    ensures Current(Apply(s, step), Apply(s, step).tasks[t].alias)
  {
    TaskStep(s, step, t);
    if step.Spawn? { CacheAliasIsCurrent(s, step.alias); }
    assert Apply(s, step).prefix == s.prefix;
  }

  lemma ImageInvStep(s: State, step: Step)
    requires ImageInv(s) && Enabled(s, step)
    ensures ImageInv(Apply(s, step))
  {
    var n := Apply(s, step);
    AliasesPointAtImages(s, step);
    forall t | t in n.tasks ensures ImageOk(n, t) && Current(n, n.tasks[t].alias) {
      ImageOkStep(s, step, t);
      CurrentStep(s, step, t);
    }
    forall f, a | Doomed(n, f) && PointsTo(n, a, f) ensures !Current(n, a) {
      DoomedIsOlder(s, step, f, a);
    }
  }

  // ----- aliases

  /** An alias of the current revision, once bound, stays bound to the same image. */
  lemma CurrentAliasStays(s: State, step: Step, a: string)
    requires ImageInv(s) && Enabled(s, step) && a in s.aliases && Current(s, a)
    ensures PointsTo(Apply(s, step), a, s.aliases[a])
  {
    assert step.Discard? ==> ImageOk(s, step.t);
    assert step.Remove? ==> Doomed(s, step.image);
    assert PointsTo(s, a, s.aliases[a]);
  }

  ghost predicate AliasOk(s: State, t: TaskId)
    requires t in s.tasks
  {
    var a := AliasOf(s, t);
    && (s.tasks[t].pc.Imports() && a in s.aliases ==> a in s.foreign)
    && (s.tasks[t].pc == Done(true) ==> a in s.aliases)
  }

  ghost predicate AliasInv(s: State) {
    && (forall t :: t in s.tasks ==> AliasOk(s, t))
    && NoDuplicates(s.imported)
    && (forall i :: 0 <= i < |s.imported| ==> s.imported[i] in s.aliases && Current(s, s.imported[i]))
  }

  ghost predicate Inv(s: State) { LockInv(s) && ImageInv(s) && AliasInv(s) }

  /** Only the importing task itself or another user of LXD binds its alias. */
  lemma AliasTaken(s: State, step: Step, t: TaskId)
    requires LockInv(s) && Enabled(s, step) && t in Apply(s, step).tasks && t in s.tasks
    requires var a := AliasOf(s, t); a !in s.aliases && a in Apply(s, step).aliases
    ensures AliasOf(s, t) in Apply(s, step).foreign || !Apply(s, step).tasks[t].pc.Imports()
  {
    var n := Apply(s, step);
    PointsStep(s, step, AliasOf(s, t), n.aliases[AliasOf(s, t)]);
    if step.Bind? || step.BindFails? {
      if s.tasks[t].pc.Holds() { SameAliasSameTask(s, t, step.t); }
    }
  }

  lemma AliasOkStep(s: State, step: Step, t: TaskId)
    requires Inv(s) && Enabled(s, step) && t in Apply(s, step).tasks
    ensures AliasOk(Apply(s, step), t)
  {
    var n := Apply(s, step);
    TaskStep(s, step, t);
    if t in s.tasks {
      var a := AliasOf(s, t);
      assert AliasOk(s, t);
      if a in s.aliases {
        CurrentAliasStays(s, step, a);
      } else if a in n.aliases {
        AliasTaken(s, step, t);
      }
      AliasOkCarry(s, step, t);
    }
  }

  lemma AliasOkCarry(s: State, step: Step, t: TaskId)
    requires Enabled(s, step) && t in s.tasks && AliasOk(s, t)
    requires AliasOf(s, t) in s.aliases ==> AliasOf(s, t) in Apply(s, step).aliases
    requires var n := Apply(s, step);
             AliasOf(s, t) !in s.aliases && AliasOf(s, t) in n.aliases ==>
               t in n.tasks && (AliasOf(s, t) in n.foreign || !n.tasks[t].pc.Imports())
    ensures t in Apply(s, step).tasks && AliasOk(Apply(s, step), t)
  {
  }

  lemma ImportedStep(s: State, step: Step, i: nat)
    requires Inv(s) && Enabled(s, step) && i < |Apply(s, step).imported|
    ensures var n := Apply(s, step); n.imported[i] in n.aliases && Current(n, n.imported[i])
  {
    var n := Apply(s, step);
    if i < |s.imported| {
      CurrentAliasStays(s, step, s.imported[i]);
      assert n.imported[i] == s.imported[i] && n.prefix == s.prefix;
    }
  }

  lemma InvStep(s: State, step: Step)
    requires Inv(s) && Enabled(s, step)
    ensures Inv(Apply(s, step))
  {
    var n := Apply(s, step);
    LockInvStep(s, step);
    ImageInvStep(s, step);
    forall t | t in n.tasks ensures AliasOk(n, t) { AliasOkStep(s, step, t); }
    forall i | 0 <= i < |n.imported| ensures n.imported[i] in n.aliases && Current(n, n.imported[i]) {
      ImportedStep(s, step, i);
    }
  }

  lemma {:induction false} InvRun(s: State, steps: seq<Step>)
    requires Inv(s) && Allowed(s, steps)
    ensures Inv(Exec(s, steps))
    decreases |steps|
  {
    if steps != [] {
      InvStep(s, steps[0]);
      InvRun(Apply(s, steps[0]), steps[1..]);
    }
  }

  lemma StartInv(s: State)
    requires Start(s)
    ensures Inv(s)
  {
  }

  lemma ReachableInv(s: State, steps: seq<Step>)
    requires Start(s) && Allowed(s, steps)
    ensures Inv(Exec(s, steps))
  {
    StartInv(s);
    InvRun(s, steps);
  }

  // ----- what every run guarantees

  /** At most one import succeeds for an alias, and its alias is there ever after. */
  lemma OneImportPerAlias(s: State, steps: seq<Step>)
    requires Start(s) && Allowed(s, steps)
    ensures var n := Exec(s, steps);
            && NoDuplicates(n.imported)
            && forall i :: 0 <= i < |n.imported| ==> n.imported[i] in n.aliases
  {
    ReachableInv(s, steps);
  }

  /** Two resolves of one alias never import at the same time, and an import finds
      its alias taken only when another user of LXD has bound it. */
  lemma ImportsDoNotCollide(s: State, steps: seq<Step>, t: TaskId, u: TaskId)
    requires Start(s) && Allowed(s, steps)
    requires var n := Exec(s, steps);
             && t in n.tasks && u in n.tasks && AliasOf(n, t) == AliasOf(n, u)
             && n.tasks[t].pc.Imports() && n.tasks[u].pc.Imports()
    ensures t == u
    ensures var n := Exec(s, steps); AliasOf(n, t) in n.aliases ==> AliasOf(n, t) in n.foreign
  {
    ReachableInv(s, steps);
    var n := Exec(s, steps);
    SameAliasSameTask(n, t, u);
    assert AliasOk(n, t);
  }

  /** An alias that a resolve returned exists, and keeps pointing at the same image
      through everything that resolves, clean-ups and other users do afterwards. */
  lemma ResolvedAliasStays(s: State, before: seq<Step>, after: seq<Step>, t: TaskId)
    requires Start(s) && Allowed(s, before) && Allowed(Exec(s, before), after)
    requires At(Exec(s, before), t, Done(true))
    ensures var m := Exec(s, before);
            var a := AliasOf(m, t);
            a in m.aliases && PointsTo(Exec(m, after), a, m.aliases[a])
  {
    ReachableInv(s, before);
    var m := Exec(s, before);
    assert AliasOk(m, t);
    StaysBound(m, after, AliasOf(m, t));
  }

  lemma {:induction false} StaysBound(s: State, steps: seq<Step>, a: string)
    requires Inv(s) && Allowed(s, steps) && a in s.aliases && Current(s, a)
    ensures PointsTo(Exec(s, steps), a, s.aliases[a])
    decreases |steps|
  {
    if steps != [] {
      InvStep(s, steps[0]);
      CurrentAliasStays(s, steps[0], a);
      assert Apply(s, steps[0]).prefix == s.prefix;
      StaysBound(Apply(s, steps[0]), steps[1..], a);
    }
  }

  /** Clean-up removes no image that a resolve is importing, and none that still has
      an alias of the current revision. */
  lemma CleanUpSparesImports(s: State, steps: seq<Step>, c: CollectionId, f: Fingerprint, t: TaskId, digest: string)
    requires Start(s) && Allowed(s, steps) && Enabled(Exec(s, steps), Remove(c, f))
    ensures var n := Exec(s, steps);
            !OwnsImage(n, t, f) && !PointsTo(n, CacheAlias(n.prefix, digest), f)
  {
    ReachableInv(s, steps);
    var n := Exec(s, steps);
    assert Doomed(n, f);
    assert t in n.tasks ==> ImageOk(n, t);
    CurrentNeverStale(n.prefix, digest);
  }

  /** What a clean-up has listed is in the driver's project for as long as it exists. */
  ghost predicate InProject(s: State) {
    forall f :: Doomed(s, f) && f in s.images ==> s.images[f] == s.project
  }

  lemma InProjectStep(s: State, step: Step)
    requires ImageInv(s) && InProject(s) && Enabled(s, step)
    ensures InProject(Apply(s, step))
  {
    var n := Apply(s, step);
    forall f | Doomed(n, f) && f in n.images ensures n.images[f] == n.project {
      DoomedStep(s, step, f);
    }
  }

  lemma {:induction false} InProjectRun(s: State, steps: seq<Step>)
    requires Inv(s) && InProject(s) && Allowed(s, steps)
    ensures InProject(Exec(s, steps))
    decreases |steps|
  {
    if steps != [] {
      InProjectStep(s, steps[0]);
      InvStep(s, steps[0]);
      InProjectRun(Apply(s, steps[0]), steps[1..]);
    }
  }

  /** Clean-up removes no image of another project, in any run. */
  lemma CleanUpStaysInProject(s: State, steps: seq<Step>, c: CollectionId, f: Fingerprint)
    requires Start(s) && Allowed(s, steps) && Enabled(Exec(s, steps), Remove(c, f))
    ensures Exec(s, steps).images[f] == s.project && Exec(s, steps).project == s.project
  {
    StartInv(s);
    InProjectRun(s, steps);
    ProjectStays(s, steps);
    assert Doomed(Exec(s, steps), f);
  }

  lemma ProjectStep(s: State, step: Step)
    requires Enabled(s, step)
    ensures Apply(s, step).project == s.project && Apply(s, step).prefix == s.prefix
  {
  }

  lemma {:induction false} ProjectStays(s: State, steps: seq<Step>)
    requires Allowed(s, steps)
    ensures Exec(s, steps).project == s.project && Exec(s, steps).prefix == s.prefix
    decreases |steps|
  {
    if steps != [] {
      ProjectStep(s, steps[0]);
      ProjectStays(Apply(s, steps[0]), steps[1..]);
    }
  }

  /** A clean-up finds every image of the project whose aliases are all of older
      revisions, spelled as drivers spell them. */
  lemma CleanUpFindsOldImages(s: State, c: CollectionId, f: Fingerprint)
    requires Enabled(s, List(c)) && f in s.images && s.images[f] == s.project && exists a :: PointsTo(s, a, f)
    requires forall a :: PointsTo(s, a, f) ==>
               exists revision: nat, digest ::
                 revision < CONVERSION_REVISION && IsDigest(digest) && a == AliasAt(s.prefix, revision, digest)
    ensures Enabled(Apply(s, List(c)), Remove(c, f))
  {
    forall a | PointsTo(s, a, f) ensures IsOlderRevision(a, s.prefix) {
      var revision: nat, digest :|
        revision < CONVERSION_REVISION && IsDigest(digest) && a == AliasAt(s.prefix, revision, digest);
      RevisionDecides(s.prefix, revision, digest);
    }
  }

  /** An image in LXD that no alias points to and no resolve or clean-up is after. */
  ghost predicate Abandoned(s: State, f: Fingerprint) {
    f in s.images && !Doomed(s, f) && (forall a :: !PointsTo(s, a, f)) && forall t :: !OwnsImage(s, t, f)
  }

  lemma AbandonedStep(s: State, step: Step, f: Fingerprint)
    requires Enabled(s, step) && Abandoned(s, f) && !(step.OtherAlias? && step.image == f)
    ensures Abandoned(Apply(s, step), f)
  {
    var n := Apply(s, step);
    forall t ensures !OwnsImage(n, t, f) {
      if OwnsImage(n, t, f) { OwnsStep(s, step, t, f); }
    }
    forall a ensures !PointsTo(n, a, f) {
      if PointsTo(n, a, f) { PointsStep(s, step, a, f); }
    }
    assert !IsStaleImage(s, f);
    if Doomed(n, f) { DoomedStep(s, step, f); assert false; }
    assert step.Remove? ==> Doomed(s, step.image);
    assert step.Discard? ==> OwnsImage(s, step.t, s.tasks[step.t].pc.image);
  }

  ghost predicate NeverAliased(steps: seq<Step>, f: Fingerprint) {
    forall i :: 0 <= i < |steps| ==> !(steps[i].OtherAlias? && steps[i].image == f)
  }

  lemma {:induction false} AbandonedRun(s: State, steps: seq<Step>, f: Fingerprint)
    requires Allowed(s, steps) && Abandoned(s, f) && NeverAliased(steps, f)
    ensures Abandoned(Exec(s, steps), f)
    decreases |steps|
  {
    if steps != [] {
      AbandonedStep(s, steps[0], f);
      AbandonedRun(Apply(s, steps[0]), steps[1..], f);
    }
  }

  lemma GiveUpAbandons(s: State, t: TaskId)
    requires ImageInv(s) && t in s.tasks && s.tasks[t].pc.Owns()
    requires forall a :: !PointsTo(s, a, s.tasks[t].pc.image)
    ensures Abandoned(Apply(s, GiveUp(t)), s.tasks[t].pc.image)
  {
    assert ImageOk(s, t);
    var f := s.tasks[t].pc.image;
    var n := SetPc(s, t, Done(false));
    forall u ensures !OwnsImage(n, u, f) { assert u != t ==> (OwnsImage(n, u, f) ==> OwnsImage(s, u, f)); }
    assert forall a :: PointsTo(n, a, f) ==> PointsTo(s, a, f);
    if Doomed(n, f) { DoomedStep(s, GiveUp(t), f); assert false; }
  }

  /** The ways an import ends, other than being given up, leave no image behind: the
      alias is bound, or found bound, or the image is removed. */
  lemma EndsCleanly(s: State, step: Step, t: TaskId)
    requires Enabled(s, step) && t in s.tasks && s.tasks[t].pc.Owns() && step != GiveUp(t)
    requires t in Apply(s, step).tasks && Apply(s, step).tasks[t].pc.Done?
    ensures var n, f := Apply(s, step), s.tasks[t].pc.image; f in n.images ==> exists a :: PointsTo(n, a, f)
  {
    var n, f := Apply(s, step), s.tasks[t].pc.image;
    if step.Bind? {
      assert PointsTo(n, AliasOf(s, t), f);
    } else if step.Inspect? {
      var a :| PointsTo(s, a, f);
      assert PointsTo(n, a, f);
    }
  }

  lemma EndsAbandonedIff(n: State, step: Step, t: TaskId, f: Fingerprint)
    requires ImageInv(n) && Enabled(n, step) && OwnsImage(n, t, f)
    requires t in Apply(n, step).tasks && Apply(n, step).tasks[t].pc.Done?
    ensures Abandoned(Apply(n, step), f) <==> step == GiveUp(t) && forall a :: !PointsTo(n, a, f)
  {
    if step != GiveUp(t) {
      EndsCleanly(n, step, t);
    } else if a :| PointsTo(n, a, f) {
      assert PointsTo(SetPc(n, t, Done(false)), a, f);
    } else {
      GiveUpAbandons(n, t);
    }
  }

  /** An import that has uploaded its image and ends leaves it behind without an
      alias exactly when it is given up — before binding, after a refused alias, or
      while discarding — and nothing points at the image. */
  lemma LeftBehindIffGivenUp(s: State, before: seq<Step>, n: State, step: Step, t: TaskId, f: Fingerprint)
    requires Start(s) && Allowed(s, before) && n == Exec(s, before) && Enabled(n, step) && OwnsImage(n, t, f)
    requires t in Apply(n, step).tasks && Apply(n, step).tasks[t].pc.Done?
    ensures Abandoned(Apply(n, step), f) <==> step == GiveUp(t) && forall a :: !PointsTo(n, a, f)
  {
    ReachableInv(s, before);
    EndsAbandonedIff(n, step, t, f);
  }

  /** Such an image stays: no clean-up removes it in any run, as long as nobody gives
      it an alias by hand. */
  lemma GivenUpUploadStays(s: State, before: seq<Step>, n: State, t: TaskId, f: Fingerprint, after: seq<Step>)
    requires Start(s) && Allowed(s, before) && n == Exec(s, before) && OwnsImage(n, t, f)
    requires forall a :: !PointsTo(n, a, f)
    requires Allowed(Apply(n, GiveUp(t)), after) && NeverAliased(after, f)
    ensures Abandoned(Exec(Apply(n, GiveUp(t)), after), f)
  {
    LeftBehindIffGivenUp(s, before, n, GiveUp(t), t, f);
    AbandonedRun(Apply(n, GiveUp(t)), after, f);
  }

  /** Before binding and while discarding nothing points at the image, so giving up
      there always leaves it behind; after a failed binding it depends on whether the
      binding took effect. */
  lemma WhenNothingPoints(s: State, before: seq<Step>, t: TaskId)
    requires Start(s) && Allowed(s, before) && t in Exec(s, before).tasks && Exec(s, before).tasks[t].pc.Owns()
    ensures var n := Exec(s, before);
            var pc := n.tasks[t].pc;
            (exists a :: PointsTo(n, a, pc.image)) <==> pc.Unbound? && PointsTo(n, AliasOf(n, t), pc.image)
  {
    ReachableInv(s, before);
    assert ImageOk(Exec(s, before), t);
  }
}
