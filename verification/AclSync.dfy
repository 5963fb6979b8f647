/** Bringing a network ACL up to date, by any number of callers at once
    (`ensure_network_acl`, crates/lxd-client/src/acls.rs). */
module AclSync {
  import opened Common
  import opened Acls

  type TaskId = nat

  datatype Pc = Getting | Posting | Putting | Done(ok: bool)

  datatype Task = Task(name: string, rules: seq<Rule>, pc: Pc)

  /** `writers` are the calls that wrote, in order. */
  datatype State = State(acls: map<string, Acl>, tasks: map<TaskId, Task>, writers: seq<TaskId>)

  datatype Step =
    | Call(t: TaskId, name: string, rules: seq<Rule>)
    | Fetch(t: TaskId, others: map<string, Json>)
    | Post(t: TaskId)
    | Put(t: TaskId)
    | Fail(t: TaskId)
    // other users of LXD
    | OtherWrite(name: string, acl: Acl)
    | OtherDelete(name: string)

  ghost predicate At(s: State, t: TaskId, pc: Pc) { t in s.tasks && s.tasks[t].pc == pc }

  ghost predicate Enabled(s: State, step: Step) {
    match step
    case Call(t, _, _) => t !in s.tasks
    case Fetch(t, _) => At(s, t, Getting)
    case Post(t) => At(s, t, Posting)
    case Put(t) => At(s, t, Putting)
    case Fail(t) => t in s.tasks && !s.tasks[t].pc.Done?
    case OtherWrite(_, _) => true
    case OtherDelete(_) => true
  }

  ghost function SetPc(s: State, t: TaskId, pc: Pc): State
    requires t in s.tasks
  {
    s.(tasks := s.tasks[t := s.tasks[t].(pc := pc)])
  }

  /** The write of a call, and its end. */
  ghost function Written(s: State, t: TaskId): State
    requires t in s.tasks
  {
    SetPc(s, t, Done(true)).(acls := s.acls[s.tasks[t].name := Wanted(s.tasks[t].rules)], writers := s.writers + [t])
  }

  ghost function Apply(s: State, step: Step): State
    requires Enabled(s, step)
  {
    match step
    case Call(t, name, rules) => s.(tasks := s.tasks[t := Task(name, rules, Getting)])
    case Fetch(t, others) =>
      var task := s.tasks[t];
      SetPc(s, t,
            if task.name !in s.acls then Posting
            else if AclMatches(Shown(s.acls[task.name], others), UpdateBody(task.rules)) then Done(true)
            else Putting)
    // LXD refuses to create what exists, and to update what does not
    case Post(t) => if s.tasks[t].name in s.acls then SetPc(s, t, Putting) else Written(s, t)
    case Put(t) => if s.tasks[t].name in s.acls then Written(s, t) else SetPc(s, t, Done(false))
    case Fail(t) => SetPc(s, t, Done(false))
    case OtherWrite(name, acl) => s.(acls := s.acls[name := acl])
    case OtherDelete(name) => s.(acls := s.acls - {name})
  }

  ghost predicate Start(s: State) { s.tasks == map[] && s.writers == [] }

  ghost predicate Allowed(s: State, steps: seq<Step>)
    decreases |steps|
  {
    steps == [] || (Enabled(s, steps[0]) && Allowed(Apply(s, steps[0]), steps[1..]))
  }

  ghost function Exec(s: State, steps: seq<Step>): State
    requires Allowed(s, steps)
    decreases |steps|
  {
    if steps == [] then s else Exec(Apply(s, steps[0]), steps[1..])
  }

  ghost predicate HasAcl(s: State, name: string, rules: seq<Rule>) { name in s.acls && s.acls[name] == Wanted(rules) }

  /** Whatever anyone else does, a call ends well only at a moment when LXD has
      exactly its rules; and no call touches another ACL. */
  lemma OkMeansExact(s: State, step: Step, t: TaskId)
    requires Enabled(s, step) && t in s.tasks && s.tasks[t].pc != Done(true) && At(Apply(s, step), t, Done(true))
    ensures HasAcl(Apply(s, step), s.tasks[t].name, s.tasks[t].rules)
    ensures forall name :: name != s.tasks[t].name ==>
              && (name in Apply(s, step).acls <==> name in s.acls)
              && (name in s.acls ==> Apply(s, step).acls[name] == s.acls[name])
  {
    if step.Fetch? && s.tasks[t].name in s.acls {
      MatchesIffWanted(s.acls[s.tasks[t].name], step.others, s.tasks[t].rules);
    }
  }

  // ----- callers that agree

  /** Every call for `name` wants `rules`, and nobody else changes that ACL. */
  ghost predicate Agree(step: Step, name: string, rules: seq<Rule>) {
    match step
    case Call(_, n, r) => n == name ==> r == rules
    case OtherWrite(n, _) => n != name
    case OtherDelete(n) => n != name
    case _ => true
  }

  ghost predicate AllAgree(steps: seq<Step>, name: string, rules: seq<Rule>) {
    forall i :: 0 <= i < |steps| ==> Agree(steps[i], name, rules)
  }

  ghost predicate TaskOk(s: State, t: TaskId, name: string, rules: seq<Rule>)
    requires t in s.tasks
  {
    s.tasks[t].name == name ==> s.tasks[t].rules == rules && (s.tasks[t].pc == Done(true) ==> HasAcl(s, name, rules))
  }

  ghost predicate Inv(s: State, name: string, rules: seq<Rule>) {
    forall t :: t in s.tasks ==> TaskOk(s, t, name, rules)
  }

  /** Once LXD has the rules, it keeps them. */
  lemma RulesStay(s: State, step: Step, name: string, rules: seq<Rule>)
    requires Inv(s, name, rules) && Enabled(s, step) && Agree(step, name, rules) && HasAcl(s, name, rules)
    ensures HasAcl(Apply(s, step), name, rules)
  {
    assert step.Post? || step.Put? ==> TaskOk(s, step.t, name, rules);
  }

  lemma InvStep(s: State, step: Step, name: string, rules: seq<Rule>)
    requires Inv(s, name, rules) && Enabled(s, step) && Agree(step, name, rules)
    ensures Inv(Apply(s, step), name, rules)
  {
    var n := Apply(s, step);
    forall t | t in n.tasks ensures TaskOk(n, t, name, rules) {
      assert t in s.tasks ==> TaskOk(s, t, name, rules);
      if t in s.tasks && s.tasks[t].name == name && n.tasks[t].pc == Done(true) {
        if s.tasks[t].pc == Done(true) { RulesStay(s, step, name, rules); } else { OkMeansExact(s, step, t); }
      }
    }
  }

  lemma {:induction false} InvRun(s: State, steps: seq<Step>, name: string, rules: seq<Rule>)
    requires Inv(s, name, rules) && Allowed(s, steps) && AllAgree(steps, name, rules)
    ensures Inv(Exec(s, steps), name, rules)
    ensures HasAcl(s, name, rules) ==> HasAcl(Exec(s, steps), name, rules)
    decreases |steps|
  {
    if steps != [] {
      InvStep(s, steps[0], name, rules);
      if HasAcl(s, name, rules) { RulesStay(s, steps[0], name, rules); }
      InvRun(Apply(s, steps[0]), steps[1..], name, rules);
    }
  }

  /** When callers agree, LXD has the rules from the first call that ends well on,
      through every interleaving. */
  lemma AgreedRulesStay(s: State, before: seq<Step>, after: seq<Step>, name: string, rules: seq<Rule>, t: TaskId)
    requires Start(s) && Allowed(s, before) && AllAgree(before, name, rules)
    requires At(Exec(s, before), t, Done(true)) && Exec(s, before).tasks[t].name == name
    requires Allowed(Exec(s, before), after) && AllAgree(after, name, rules)
    ensures HasAcl(Exec(Exec(s, before), after), name, rules)
  {
    InvRun(s, before, name, rules);
    var m := Exec(s, before);
    assert TaskOk(m, t, name, rules);
    InvRun(m, after, name, rules);
  }

  // ----- a later call

  /** A call that has only read. */
  ghost predicate OnlyRead(s: State, t: TaskId, name: string, rules: seq<Rule>) {
    t in s.tasks && s.tasks[t].name == name && s.tasks[t].rules == rules
    && (s.tasks[t].pc.Getting? || s.tasks[t].pc.Done?) && t !in s.writers
  }

  lemma OnlyReadStep(s: State, step: Step, t: TaskId, name: string, rules: seq<Rule>)
    requires Enabled(s, step) && OnlyRead(s, t, name, rules) && HasAcl(s, name, rules)
    ensures OnlyRead(Apply(s, step), t, name, rules)
  {
    if step.Fetch? && step.t == t {
      MatchesIffWanted(s.acls[name], step.others, rules);
    }
  }

  lemma {:induction false} OnlyReadRun(s: State, steps: seq<Step>, t: TaskId, name: string, rules: seq<Rule>)
    requires Inv(s, name, rules) && Allowed(s, steps) && AllAgree(steps, name, rules)
    requires OnlyRead(s, t, name, rules) && HasAcl(s, name, rules)
    ensures OnlyRead(Exec(s, steps), t, name, rules)
    decreases |steps|
  {
    if steps != [] {
      InvStep(s, steps[0], name, rules);
      RulesStay(s, steps[0], name, rules);
      OnlyReadStep(s, steps[0], t, name, rules);
      OnlyReadRun(Apply(s, steps[0]), steps[1..], t, name, rules);
    }
  }

  lemma {:induction false} WritersAreTasksRun(s: State, steps: seq<Step>)
    requires Allowed(s, steps) && forall t :: t in s.writers ==> t in s.tasks
    ensures forall t :: t in Exec(s, steps).writers ==> t in Exec(s, steps).tasks
    decreases |steps|
  {
    if steps != [] {
      WritersAreTasksRun(Apply(s, steps[0]), steps[1..]);
    }
  }

  /** A call made after another one for the same rules has ended well writes
      nothing, whatever runs beside it. */
  lemma LaterCallWritesNothing(
      s: State, before: seq<Step>, u: TaskId, t: TaskId, name: string, rules: seq<Rule>, after: seq<Step>)
    requires Start(s) && Allowed(s, before) && AllAgree(before, name, rules)
    requires At(Exec(s, before), u, Done(true)) && Exec(s, before).tasks[u].name == name
    requires Enabled(Exec(s, before), Call(t, name, rules))
    requires Allowed(Apply(Exec(s, before), Call(t, name, rules)), after) && AllAgree(after, name, rules)
    ensures t !in Exec(Apply(Exec(s, before), Call(t, name, rules)), after).writers
  {
    InvRun(s, before, name, rules);
    WritersAreTasksRun(s, before);
    var m := Exec(s, before);
    assert TaskOk(m, u, name, rules);
    InvStep(m, Call(t, name, rules), name, rules);
    OnlyReadRun(Apply(m, Call(t, name, rules)), after, t, name, rules);
  }

  // ----- one call, undisturbed

  /** A call that finds no ACL creates it. */
  lemma CreatesMissing(s: State, t: TaskId, name: string, rules: seq<Rule>, others: map<string, Json>)
    requires t !in s.tasks && name !in s.acls
    ensures var a := Apply(s, Call(t, name, rules));
            && Enabled(a, Fetch(t, others))
            && var b := Apply(a, Fetch(t, others));
               && b.acls == s.acls && Enabled(b, Post(t))
               && Apply(b, Post(t)) == State(s.acls[name := Wanted(rules)],
                                             s.tasks[t := Task(name, rules, Done(true))], s.writers + [t])
  {
  }

  /** A call that finds the ACL replaces it unless it already has exactly these rules. */
  lemma ReplacesOther(s: State, t: TaskId, name: string, rules: seq<Rule>, others: map<string, Json>)
    requires t !in s.tasks && name in s.acls
    ensures var a := Apply(s, Call(t, name, rules));
            && Enabled(a, Fetch(t, others))
            && var b := Apply(a, Fetch(t, others));
               if s.acls[name] == Wanted(rules)
               then b == State(s.acls, s.tasks[t := Task(name, rules, Done(true))], s.writers)
               else && Enabled(b, Put(t))
                    && Apply(b, Put(t)) == State(s.acls[name := Wanted(rules)],
                                                 s.tasks[t := Task(name, rules, Done(true))], s.writers + [t])
  {
    MatchesIffWanted(s.acls[name], others, rules);
  }

  /** A call that loses the race to create the ACL replaces it instead; one whose ACL is
      gone when it replaces it fails without writing. */
  lemma LostRaces(s: State, t: TaskId)
    requires t in s.tasks
    ensures At(s, t, Posting) && s.tasks[t].name in s.acls ==>
              var a := Apply(s, Post(t));
              && a.acls == s.acls && a.writers == s.writers && Enabled(a, Put(t))
              && HasAcl(Apply(a, Put(t)), s.tasks[t].name, s.tasks[t].rules) && At(Apply(a, Put(t)), t, Done(true))
    ensures At(s, t, Putting) && s.tasks[t].name !in s.acls ==>
              Apply(s, Put(t)) == s.(tasks := s.tasks[t := s.tasks[t].(pc := Done(false))])
    ensures Enabled(s, Fail(t)) ==> Apply(s, Fail(t)) == s.(tasks := s.tasks[t := s.tasks[t].(pc := Done(false))])
  {
  }
}
