/** What one LXD lifecycle event asks of the watcher
    (crates/openshell-driver-lxd/src/watcher.rs, `instance_name`, `action` and
    the branches of `run_once`). */
module Events {
  import opened Common
  import opened Text

  type Name = string

  /** The metadata fields the watcher looks at; `None` for an absent field or
      one that is not a string. */
  datatype Metadata = Metadata(action: Option<string>, name: Option<string>, source: Option<string>)

  /** Nothing to do, a removed instance, or an instance to read again. */
  datatype Handling = Ignore | Forget(name: Name) | Reread(name: Name)

  const DELETED_ACTION := "instance-deleted"
  const WATCHED_ACTIONS := [
    "instance-created", "instance-started", "instance-shutdown", "instance-stopped",
    "instance-restarted", "instance-paused", "instance-resumed"]

  function InstanceName(m: Metadata): Option<Name> {
    if m.name.Some? && m.name.value != "" then m.name
    else if m.source.None? then None
    else
      var name := AfterLast(Before(m.source.value, '?'), '/');
      if name == "" then None else Some(name)
  }

  function Classify(m: Metadata): Handling {
    if m.action.None? then Ignore
    else match InstanceName(m)
      case None => Ignore
      case Some(name) =>
        if m.action.value == DELETED_ACTION then Forget(name)
        else if m.action.value !in WATCHED_ACTIONS then Ignore
        else Reread(name)
  }

  /** However an event names its instance — explicitly, or through a source path
      in any directory, with or without a project query — the same name comes out. */
  lemma NameHoweverGiven(action: Option<string>, name: Name, dir: string, query: string, source: Option<string>)
    requires name != "" && '/' !in name && '?' !in name && '?' !in dir
    ensures InstanceName(Metadata(action, Some(name), source)) == Some(name)
    ensures forall unnamed :: unnamed == None || unnamed == Some("") ==>
              && InstanceName(Metadata(action, unnamed, Some(dir + "/" + name))) == Some(name)
              && InstanceName(Metadata(action, unnamed, Some(dir + "/" + name + "?" + query))) == Some(name)
  {
    BeforeStops(dir + "/" + name, '?', query);
    AfterLastStops(dir, '/', name);
  }

  /** The actions after which an instance is read again. */
  predicate IsWatched(action: string) {
    || action == "instance-created" || action == "instance-started" || action == "instance-shutdown"
    || action == "instance-stopped" || action == "instance-restarted" || action == "instance-paused"
    || action == "instance-resumed"
  }

  /** However the instance is named, a deletion is forgotten, a watched action is
      read again, and any other action, or none, is ignored. */
  lemma HandledByAction(name: Name, dir: string, query: string, unnamed: Option<string>, action: Option<string>)
    requires name != "" && '/' !in name && '?' !in name && '?' !in dir && (unnamed == None || unnamed == Some(""))
    ensures forall m :: m in [ Metadata(action, Some(name), None),
                               Metadata(action, unnamed, Some(dir + "/" + name)),
                               Metadata(action, unnamed, Some(dir + "/" + name + "?" + query)) ] ==>
              && (Classify(m) == Forget(name) <==> action == Some("instance-deleted"))
              && (Classify(m) == Reread(name) <==> action.Some? && IsWatched(action.value))
              && (Classify(m) == Ignore <==>
                   action.None? || (action.value != "instance-deleted" && !IsWatched(action.value)))
    ensures Classify(Metadata(action, unnamed, None)) == Ignore
  {
    NameHoweverGiven(action, name, dir, query, None);
  }

}
