/** What a resolve and a clean-up of images achieve when they run through
    (crates/openshell-driver-lxd/src/image.rs and gc.rs). */
module ImageCacheOutcomes {
  import opened Common
  import opened Aliases
  import opened ImageCache

  /** A cache hit ends the resolve well, and touches nothing. */
  lemma CacheHit(s: State, t: TaskId, l: LockId)
    requires At(s, t, Checking(l)) && AliasOf(s, t) in s.aliases
    ensures Enabled(s, Check(t)) && Apply(s, Check(t)) == SetPc(s, t, Done(true))
  {
  }

  /** A cache miss, imported: an image without alias is uploaded to the project, the
      alias is bound to it, and the resolve ends well. Nothing else changes. */
  lemma CacheMiss(s: State, t: TaskId, l: LockId, f: Fingerprint)
    requires At(s, t, Checking(l)) && AliasOf(s, t) !in s.aliases && New(s, f)
    ensures Enabled(s, Check(t))
    ensures var a := Apply(s, Check(t));
            && a == SetPc(s, t, Importing(l)) && Enabled(a, Upload(t, f))
            && var b := Apply(a, Upload(t, f));
               && b == SetPc(s, t, Uploaded(l, f)).(images := s.images[f := s.project]) && Enabled(b, Bind(t))
               && Apply(b, Bind(t)) ==
                  SetPc(s, t, Done(true)).(images := s.images[f := s.project],
                                           aliases := s.aliases[AliasOf(s, t) := f],
                                           imported := s.imported + [AliasOf(s, t)])
  {
    var a := Apply(s, Check(t));
    assert New(a, f) by { if Doomed(a, f) { DoomedStep(s, Check(t), f); } }
  }

  /** An alias that is refused, without having been bound: the image is found without
      aliases and removed again, and the resolve fails. */
  lemma RefusedAliasIsUndone(s: State, t: TaskId, l: LockId, f: Fingerprint)
    requires ImageInv(s) && At(s, t, Uploaded(l, f))
    ensures Enabled(s, BindFails(t, false))
    ensures var a := Apply(s, BindFails(t, false));
            && a == SetPc(s, t, Unbound(l, f)) && Enabled(a, Inspect(t))
            && Apply(a, Inspect(t)) == SetPc(s, t, Discarding(l, f))
  {
    assert ImageOk(s, t);
    var a := Apply(s, BindFails(t, false));
    assert forall x :: PointsTo(a, x, f) ==> PointsTo(s, x, f);
  }

  lemma DiscardRemovesImage(s: State, t: TaskId, l: LockId, f: Fingerprint)
    requires ImageInv(s) && At(s, t, Discarding(l, f))
    ensures Enabled(s, Discard(t))
    ensures Apply(s, Discard(t)) == SetPc(s, t, Done(false)).(images := s.images - {f})
  {
    assert ImageOk(s, t);
    assert forall x :: x in s.aliases && s.aliases[x] == f ==> PointsTo(s, x, f);
  }

  /** An alias that was bound although the request seemed to fail: the resolve fails, but
      image and alias stay for the next one. */
  lemma LandedAliasIsKept(s: State, t: TaskId, l: LockId, f: Fingerprint)
    requires At(s, t, Uploaded(l, f)) && AliasOf(s, t) !in s.aliases
    ensures Enabled(s, BindFails(t, true))
    ensures var a := Apply(s, BindFails(t, true));
            && Enabled(a, Inspect(t))
            && Apply(a, Inspect(t)) == SetPc(s, t, Done(false)).(aliases := s.aliases[AliasOf(s, t) := f])
  {
    assert PointsTo(Apply(s, BindFails(t, true)), AliasOf(s, t), f);
  }

  /** A resolve computes its alias, takes its lock and waits for it. */
  lemma ResolveStarts(s: State, t: TaskId, digest: string)
    requires t !in s.tasks
    ensures var alias := CacheAlias(s.prefix, digest);
            && Enabled(s, Spawn(t, alias))
            && var a := Apply(s, Spawn(t, alias));
               && Enabled(a, GetLock(t))
               && var b := Apply(a, GetLock(t));
                  && alias in b.locks && b.tasks == s.tasks[t := Task(alias, Waiting(b.locks[alias]))]
                  && (forall x :: x in s.locks ==> x in b.locks && b.locks[x] == s.locks[x])
                  && b.aliases == s.aliases && b.images == s.images
  {
  }

  /** The second of two resolves of one alias waits while the first imports, and then
      finds what the first has imported. */
  lemma SecondFindsImport(s: State, t: TaskId, u: TaskId, l: LockId, f: Fingerprint)
    requires LockInv(s) && At(s, t, Uploaded(l, f)) && At(s, u, Waiting(l)) && AliasOf(s, t) !in s.aliases
    ensures AliasOf(s, u) == AliasOf(s, t) && !Enabled(s, Acquire(u)) && Enabled(s, Bind(t))
    ensures var a := Apply(s, Bind(t));
            && Enabled(a, Acquire(u))
            && var b := Apply(a, Acquire(u));
               Enabled(b, Check(u)) && Apply(b, Check(u)) == SetPc(a, u, Done(true))
  {
    assert LockOk(s, t) && LockOk(s, u);
    assert HoldsLock(s, t, l);
    var a := Apply(s, Bind(t));
    forall v ensures !HoldsLock(a, v, l) {
      if HoldsLock(a, v, l) { HoldsStep(s, Bind(t), v, l); }
    }
  }

  /** Clean-up lists exactly the stale images, and removing one takes its aliases with
      it and nothing else. */
  lemma CleanUpRemovesStale(s: State, c: CollectionId, f: Fingerprint)
    requires c !in s.collections && IsStaleImage(s, f)
    ensures Enabled(s, List(c))
    ensures var a := Apply(s, List(c));
            && (forall x :: x in a.collections[c] <==> IsStaleImage(s, x))
            && Enabled(a, Remove(c, f))
            && var b := Apply(a, Remove(c, f));
               && b.images == s.images - {f}
               && (forall x :: x in b.aliases <==> x in s.aliases && s.aliases[x] != f)
               && (forall x :: x in b.aliases ==> b.aliases[x] == s.aliases[x])
               && Enabled(b, Finish(c)) && Apply(b, Finish(c)).collections == s.collections
  {
    assert Apply(Apply(s, List(c)), Remove(c, f)).collections - {c} == s.collections;
  }

  /** Giving up releases the lock and changes nothing in LXD. */
  lemma GivingUpReleases(s: State, t: TaskId)
    requires Enabled(s, GiveUp(t))
    ensures Apply(s, GiveUp(t)) == SetPc(s, t, Done(false))
    ensures forall l :: !HoldsLock(Apply(s, GiveUp(t)), t, l)
  {
  }
}
