/** Resolving a guest path inside an unpacked image without ever following its
    symlinks on the host (crates/openshell-driver-lxd/src/image.rs,
    `resolve_in_rootfs`). */
module Symlinks {
  import opened Common

  type FileName = string

  /** `std::path::Component` */
  datatype Component = RootDir | CurDir | ParentDir | Normal(name: FileName)

  /** An unpacked image. A link holds the components of its target. */
  datatype Node = File | Link(target: seq<Component>) | Dir(entries: map<FileName, Node>)

  datatype Result = Ok(path: seq<FileName>) | NotAFile | TooManyLinks

  const MAX_SYMLINK_HOPS: nat := 40

  /** `Path::is_absolute` */
  predicate Absolute(path: seq<Component>) { path != [] && path[0].RootDir? }

  /** What `symlink_metadata` finds at `path`; nothing when a name is missing or
      an intermediate entry is not a directory. */
  function At(root: Node, path: seq<FileName>): Option<Node> {
    if path == [] then Some(root)
    else match At(root, Init(path))
      case Some(Dir(entries)) => if Last(path) in entries then Some(entries[Last(path)]) else None
      case _ => None
  }

  predicate IsLink(root: Node, path: seq<FileName>) {
    At(root, path).Some? && At(root, path).value.Link?
  }

  function Parent(dir: seq<FileName>): seq<FileName> {
    if dir == [] then [] else Init(dir)
  }

  /** Where the target of a link in `dir` is looked up from. */
  function Base(dir: seq<FileName>, target: seq<Component>): seq<FileName> {
    if Absolute(target) then [] else dir
  }

  /** The reference: pathname resolution as in section 4.13 of POSIX.1-2017 for a
      process whose root is the image. From `dir`, `path` leads to `place` after
      following `links` links: a link met on the way is resolved on its own, and
      the rest of the path continues from the place it leads to. A name that does
      not exist is kept, `..` stays at the root. */
  ghost predicate Resolves(root: Node, dir: seq<FileName>, path: seq<Component>, place: seq<FileName>, links: nat)
    decreases links, |path|
  {
    if path == [] then place == dir && links == 0
    else match path[0]
      case RootDir => Resolves(root, dir, path[1..], place, links)
      case CurDir => Resolves(root, dir, path[1..], place, links)
      case ParentDir => Resolves(root, Parent(dir), path[1..], place, links)
      case Normal(name) =>
        if !IsLink(root, dir + [name]) then Resolves(root, dir + [name], path[1..], place, links)
        else
          links > 0 &&
          var target := At(root, dir + [name]).value.target;
          exists mid: seq<FileName>, m: nat {:trigger Through(mid, m)} ::
            && Through(mid, m) && m < links
            && Resolves(root, Base(dir, target), target, mid, m)
            && Resolves(root, mid, path[1..], place, links - 1 - m)
  }

  /** Names a way point in the quantifier above; always true. */
  ghost predicate Through(mid: seq<FileName>, m: nat) { true }

  /** Resolving `a` and then `b` from where it leads is resolving `a + b`. */
  lemma {:induction false} ResolvesConcat(
      root: Node, dir: seq<FileName>, a: seq<Component>, b: seq<Component>, place: seq<FileName>, links: nat)
    ensures Resolves(root, dir, a + b, place, links) <==>
            exists mid: seq<FileName>, m: nat {:trigger Through(mid, m)} ::
              && Through(mid, m) && m <= links
              && Resolves(root, dir, a, mid, m) && Resolves(root, mid, b, place, links - m)
    decreases links, |a|
  {
    if a == [] {
      assert a + b == b;
      if Resolves(root, dir, b, place, links) { assert Through(dir, 0); }
    } else {
      assert (a + b)[0] == a[0] && (a + b)[1..] == a[1..] + b;
      match a[0]
      case RootDir => ResolvesConcat(root, dir, a[1..], b, place, links);
      case CurDir => ResolvesConcat(root, dir, a[1..], b, place, links);
      case ParentDir => ResolvesConcat(root, Parent(dir), a[1..], b, place, links);
      case Normal(name) =>
        if !IsLink(root, dir + [name]) {
          ResolvesConcat(root, dir + [name], a[1..], b, place, links);
        } else {
          ConcatForward(root, dir, a, b, place, links);
          ConcatBackward(root, dir, a, b, place, links);
        }
    }
  }

  lemma ConcatForward(
      root: Node, dir: seq<FileName>, a: seq<Component>, b: seq<Component>, place: seq<FileName>, links: nat)
    requires a != [] && a[0].Normal? && IsLink(root, dir + [a[0].name])
    ensures Resolves(root, dir, a + b, place, links) ==>
            exists mid: seq<FileName>, m: nat {:trigger Through(mid, m)} ::
              && Through(mid, m) && m <= links
              && Resolves(root, dir, a, mid, m) && Resolves(root, mid, b, place, links - m)
    decreases links, |a|, 0
  {
    if Resolves(root, dir, a + b, place, links) {
      assert (a + b)[0] == a[0] && (a + b)[1..] == a[1..] + b;
      var target := At(root, dir + [a[0].name]).value.target;
      var via, k: nat :| Through(via, k) && k < links && Resolves(root, Base(dir, target), target, via, k)
                         && Resolves(root, via, a[1..] + b, place, links - 1 - k);
      ResolvesConcat(root, via, a[1..], b, place, links - 1 - k);
      var mid, m: nat :| Through(mid, m) && m <= links - 1 - k && Resolves(root, via, a[1..], mid, m)
                         && Resolves(root, mid, b, place, links - 1 - k - m);
      assert Through(via, k) && Resolves(root, dir, a, mid, k + 1 + m);
      assert Through(mid, k + 1 + m);
    }
  }

  lemma ConcatBackward(
      root: Node, dir: seq<FileName>, a: seq<Component>, b: seq<Component>, place: seq<FileName>, links: nat)
    requires a != [] && a[0].Normal? && IsLink(root, dir + [a[0].name])
    ensures (exists mid: seq<FileName>, m: nat {:trigger Through(mid, m)} ::
               && Through(mid, m) && m <= links
               && Resolves(root, dir, a, mid, m) && Resolves(root, mid, b, place, links - m))
            ==> Resolves(root, dir, a + b, place, links)
    decreases links, |a|, 0
  {
    if mid, m: nat :| (Through(mid, m) && m <= links
                       && Resolves(root, dir, a, mid, m) && Resolves(root, mid, b, place, links - m)) {
      assert (a + b)[0] == a[0] && (a + b)[1..] == a[1..] + b;
      var target := At(root, dir + [a[0].name]).value.target;
      var via, k: nat :| Through(via, k) && k < m && Resolves(root, Base(dir, target), target, via, k)
                         && Resolves(root, via, a[1..], mid, m - 1 - k);
      assert Through(mid, m - 1 - k);
      ResolvesConcat(root, via, a[1..], b, place, links - 1 - k);
      assert Through(via, k);
    }
  }

  /** No symlink anywhere on the way to `path`, itself included. */
  ghost predicate NoLinkOn(root: Node, path: seq<FileName>) {
    forall i :: 0 < i <= |path| ==> !IsLink(root, path[..i])
  }

  /** Following a link replaces it by its target. */
  lemma FollowLink(
      root: Node, dir: seq<FileName>, name: FileName, rest: seq<Component>, place: seq<FileName>, links: nat)
    requires IsLink(root, dir + [name])
    ensures var target := At(root, dir + [name]).value.target;
            Resolves(root, dir, [Normal(name)] + rest, place, links) <==>
            links > 0 && Resolves(root, Base(dir, target), target + rest, place, links - 1)
  {
    var target := At(root, dir + [name]).value.target;
    var path := [Normal(name)] + rest;
    assert path[0] == Normal(name) && path[1..] == rest;
    if links > 0 {
      ResolvesConcat(root, Base(dir, target), target, rest, place, links - 1);
      assert Resolves(root, dir, path, place, links) <==>
             exists mid: seq<FileName>, m: nat {:trigger Through(mid, m)} ::
               Through(mid, m) && m <= links - 1 && Resolves(root, Base(dir, target), target, mid, m)
               && Resolves(root, mid, rest, place, links - 1 - m);
    }
  }

  /** The state of the walk stands for the original path: what is resolved, what
      is pending, and the links followed so far. */
  ghost predicate Tracks(
      root: Node, path: seq<Component>, resolved: seq<FileName>, pending: seq<Component>, hops: nat)
  {
    forall place, links: nat ::
      Resolves(root, [], path, place, links) <==>
        links >= hops && Resolves(root, resolved, pending, place, links - hops)
  }

  lemma TracksLink(root: Node, path: seq<Component>, resolved: seq<FileName>, pending: seq<Component>, hops: nat)
    requires Tracks(root, path, resolved, pending, hops)
    requires pending != [] && pending[0].Normal? && IsLink(root, resolved + [pending[0].name])
    ensures var target := At(root, resolved + [pending[0].name]).value.target;
            Tracks(root, path, Base(resolved, target), target + pending[1..], hops + 1)
  {
    var target := At(root, resolved + [pending[0].name]).value.target;
    assert pending == [Normal(pending[0].name)] + pending[1..];
    forall place, links: nat
      ensures Resolves(root, [], path, place, links) <==>
              && links >= hops + 1
              && Resolves(root, Base(resolved, target), target + pending[1..], place, links - hops - 1)
    {
      if links >= hops { FollowLink(root, resolved, pending[0].name, pending[1..], place, links - hops); }
    }
  }

  lemma NoLinkOnStep(root: Node, resolved: seq<FileName>, next: seq<FileName>)
    requires NoLinkOn(root, resolved)
    requires next == Parent(resolved) || (next != [] && Init(next) == resolved && !IsLink(root, next))
    ensures NoLinkOn(root, next)
  {
    forall i | 0 < i <= |next| ensures !IsLink(root, next[..i]) {
      if i <= |resolved| { assert next[..i] == resolved[..i]; } else { assert next[..i] == next; }
    }
  }

  /** The loop of `resolve_in_rootfs`: the directory a path leads to, or nothing
      when it takes more than 40 links. */
  method ResolveDirectory(root: Node, path: seq<Component>) returns (r: Option<seq<FileName>>, hops: nat)
    ensures r.Some? ==> NoLinkOn(root, r.value) && hops <= 40
    ensures r.Some? ==> forall place, links: nat ::
                          Resolves(root, [], path, place, links) <==> place == r.value && links == hops
    ensures r.None? ==> forall place, links: nat :: Resolves(root, [], path, place, links) ==> links > 40
  {
    var pending := path;
    var resolved: seq<FileName> := [];
    hops := 0;
    while pending != []
      invariant hops <= MAX_SYMLINK_HOPS && NoLinkOn(root, resolved)
      invariant Tracks(root, path, resolved, pending, hops)
      decreases MAX_SYMLINK_HOPS - hops, |pending|
    {
      var part := pending[0];
      if part.Normal? && IsLink(root, resolved + [part.name]) {
        var target := At(root, resolved + [part.name]).value.target;
        TracksLink(root, path, resolved, pending, hops);
        hops := hops + 1;
        if hops > MAX_SYMLINK_HOPS {
          return None, hops;
        }
        if Absolute(target) {
          resolved := [];
        }
        pending := target + pending[1..];
      } else {
        var next := match part
          case Normal(name) => resolved + [name]
          case ParentDir => Parent(resolved)
          case _ => resolved;
        if next != resolved { NoLinkOnStep(root, resolved, next); }
        resolved, pending := next, pending[1..];
      }
    }
    return Some(resolved), hops;
  }

  /** `resolve_in_rootfs`, giving the place relative to the rootfs. For every tree
      and every path naming a file it succeeds exactly when the reference resolves
      the file's directory with at most 40 links, gives that place, and no name on
      the way to it is a symlink. The last name is not followed. */
  method ResolveInRootfs(root: Node, guest: seq<Component>) returns (r: Result)
    ensures r.NotAFile? <==> guest == [] || !Last(guest).Normal?
    ensures guest != [] && Last(guest).Normal? ==>
              (r.Ok? <==> exists place, links: nat ::
                 links <= 40 && Resolves(root, [], Init(guest), place, links))
    ensures r.Ok? ==> r.path != [] && Last(r.path) == Last(guest).name && NoLinkOn(root, Init(r.path))
    ensures r.Ok? ==> forall place, links: nat ::
              Resolves(root, [], Init(guest), place, links) ==> place == Init(r.path)
  {
    if guest == [] || !Last(guest).Normal? {
      return NotAFile;
    }
    var dir, hops := ResolveDirectory(root, Init(guest));
    match dir
    case None => return TooManyLinks;
    case Some(place) =>
      assert Resolves(root, [], Init(guest), place, hops);
      assert place == Init(place + [Last(guest).name]);
      return Ok(place + [Last(guest).name]);
  }

  /** A link that leads back to itself resolves after no number of links. */
  lemma {:induction false} LoopNeverResolves(
      root: Node, name: FileName, rest: seq<Component>, place: seq<FileName>, links: nat)
    requires At(root, [name]) == Some(Link([RootDir, Normal(name)]))
    ensures !Resolves(root, [], [Normal(name)] + rest, place, links)
  {
    assert [] + [name] == [name];
    FollowLink(root, [], name, rest, place, links);
    if links > 0 {
      LoopNeverResolves(root, name, rest, place, links - 1);
      var again := [RootDir, Normal(name)] + rest;
      assert again[1..] == [Normal(name)] + rest && again[0] == RootDir;
    }
  }

  /** `..` leads out of a directory, and stays where it is at the root. */
  lemma ParentSteps(
      root: Node, dir: seq<FileName>, name: FileName, rest: seq<Component>, place: seq<FileName>, links: nat)
    ensures Resolves(root, dir + [name], [ParentDir] + rest, place, links) <==> Resolves(root, dir, rest, place, links)
    ensures Resolves(root, [], [ParentDir] + rest, place, links) <==> Resolves(root, [], rest, place, links)
  {
    assert ([ParentDir] + rest)[1..] == rest;
    assert Init(dir + [name]) == dir;
  }

  /** `.` and a leading slash leave the position as it is, and a name that is no link is
      entered, whether it exists or not. */
  lemma PlainSteps(
      root: Node, dir: seq<FileName>, name: FileName, rest: seq<Component>, place: seq<FileName>, links: nat)
    ensures Resolves(root, dir, [CurDir] + rest, place, links) <==> Resolves(root, dir, rest, place, links)
    ensures Resolves(root, dir, [RootDir] + rest, place, links) <==> Resolves(root, dir, rest, place, links)
    ensures !IsLink(root, dir + [name]) ==>
              (Resolves(root, dir, [Normal(name)] + rest, place, links)
               <==> Resolves(root, dir + [name], rest, place, links))
    ensures Resolves(root, dir, [], place, links) <==> place == dir && links == 0
  {
    assert ([CurDir] + rest)[1..] == rest && ([RootDir] + rest)[1..] == rest && ([Normal(name)] + rest)[1..] == rest;
  }

  /** A link with an absolute target continues from the image's root, one with a relative
      target from the directory the link is in. */
  lemma LinkSteps(
      root: Node, dir: seq<FileName>, name: FileName, target: seq<Component>, rest: seq<Component>,
      place: seq<FileName>, links: nat)
    requires At(root, dir + [name]) == Some(Link(target))
    ensures Resolves(root, dir, [Normal(name)] + rest, place, links) <==>
            links > 0 && if target != [] && target[0] == RootDir
                         then Resolves(root, [], target + rest, place, links - 1)
                         else Resolves(root, dir, target + rest, place, links - 1)
  {
    FollowLink(root, dir, name, rest, place, links);
  }

  /** What is at a path: the root, or the entry of that name if the way leads to a
      directory that has it; a link on the way is not followed. */
  lemma AtSteps(root: Node, path: seq<FileName>, name: FileName)
    ensures At(root, []) == Some(root)
    ensures At(root, path + [name]) ==
            if At(root, path).Some? && At(root, path).value.Dir? && name in At(root, path).value.entries
            then Some(At(root, path).value.entries[name]) else None
  {
    assert Init(path + [name]) == path;
  }
}
