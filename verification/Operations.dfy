/** Waiting for an LXD operation: the server, one event stream and the waiter,
    interleaved (crates/lxd-client/src/operations.rs). Errors and timeouts of the
    transport are choices made by the environment. */
module Operations {
  import opened Common

  datatype Status = InProgress | Success | Failure | Cancelled

  /** `errored` stands for a non-empty error text. */
  datatype Operation = Operation(status: Status, errored: bool) {
    predicate Terminal() { !status.InProgress? }
    /** The source's failure test. */
    predicate Bad() { status.Failure? || status.Cancelled? || errored }
  }

  /** One item of the event stream: an operation event, any other event (of
      another type, or without an id), a frame that is not JSON, a broken or
      finished stream, or an error of another kind. */
  datatype Frame = Event(id: string, status: Status) | Irrelevant | Malformed | Ended | Refused

  /** What the draining loop does on a frame. */
  datatype Verdict = GoOn | FetchResult | Fail | Reconnect | Abort

  function FullPath(id: string): string { "/1.0/operations/" + id }

  /** LXD names the operation by its bare id or by its path. */
  predicate IsFor(frame: Frame, id: string) { frame.Event? && (frame.id == id || frame.id == FullPath(id)) }

  function Decide(frame: Frame, id: string): Verdict {
    match frame
    case Event(_, status) =>
      if !IsFor(frame, id) then GoOn
      else if status.Success? then FetchResult
      else if status.Failure? || status.Cancelled? then Fail
      else GoOn
    case Irrelevant => GoOn
    case Malformed => GoOn
    case Ended => Reconnect
    case Refused => Abort
  }

  /** The inner loop over the frames at hand. */
  method DrainStream(frames: seq<Frame>, id: string) returns (verdict: Verdict, consumed: nat)
    ensures consumed <= |frames| && forall i :: 0 <= i < consumed ==> Decide(frames[i], id).GoOn?
    ensures if verdict.GoOn? then consumed == |frames|
            else consumed < |frames| && Decide(frames[consumed], id) == verdict
  {
    verdict, consumed := GoOn, 0;
    while consumed < |frames|
      invariant consumed <= |frames| && verdict.GoOn?
      invariant forall i :: 0 <= i < consumed ==> Decide(frames[i], id).GoOn?
    {
      verdict := Decide(frames[consumed], id);
      if !verdict.GoOn? {
        return;
      }
      consumed := consumed + 1;
    }
  }

  datatype Result = Done(op: Operation) | OperationFailed | OtherError

  /** `Draining` remembers whether the reconcile before it actually read the
      operation; `Resting` and `RestFailed` are the REST fallback. */
  datatype Pc =
    | Connecting
    | Connected
    | Draining(read: bool)
    | Fetching
    | StreamOver
    | Resting
    | RestFailed
    | Returned(result: Result)

  /** `doneBefore` is history: the operation had finished when the current stream
      was opened. `hadError` is history: its error text was non-empty at some time. */
  datatype State = State(
    id: string, op: Operation, stream: seq<Frame>, open: bool, pc: Pc, doneBefore: bool, hadError: bool)

  /** How a request ends: with the operation, a transient or a final error. */
  datatype Reply = Read | Transient | Final

  datatype Step =
    // the server
    | Update(op: Operation, frame: Frame)
    | Noise(frame: Frame)
    | Disconnect
    // the waiter
    | Subscribe
    | SubscribeUnavailable
    | SubscribeRefused
    | Reconcile(reply: Reply)
    | Drain
    | Fetch(reply: Reply)
    | ReconcileAfter(reply: Reply)
    | RestWait(reply: Reply)
    | RestCheck(reply: Reply)

  ghost predicate Enabled(s: State, step: Step) {
    match step
    // finished operations stay as they are; every update is announced
    case Update(op, frame) => !s.op.Terminal() && IsFor(frame, s.id) && frame.status == op.status
    case Noise(frame) => s.open && !IsFor(frame, s.id) && !frame.Ended?
    case Disconnect => s.open
    case Subscribe => s.pc.Connecting?
    case SubscribeUnavailable => s.pc.Connecting?
    case SubscribeRefused => s.pc.Connecting?
    case Reconcile(_) => s.pc.Connected?
    case Drain => s.pc.Draining? && s.stream != []
    case Fetch(_) => s.pc.Fetching?
    case ReconcileAfter(_) => s.pc.StreamOver?
    // the wait endpoint answers once the operation has finished
    case RestWait(reply) => s.pc.Resting? && (reply.Read? ==> s.op.Terminal())
    case RestCheck(_) => s.pc.RestFailed?
  }

  /** `reconcile_operation` when the read succeeds. */
  function Outcome(op: Operation): Option<Result> {
    if op.status.Success? then Some(Done(op))
    else if op.Bad() then Some(OperationFailed)
    else None
  }

  /** The next place after a read, a transient error or a final one. */
  ghost function After(s: State, reply: Reply, pending: Pc, failed: Pc): Pc {
    match reply
    case Read => if Outcome(s.op).Some? then Returned(Outcome(s.op).value) else pending
    case Transient => failed
    case Final => Returned(OtherError)
  }

  ghost function Apply(s: State, step: Step): State
    requires Enabled(s, step)
  {
    match step
    case Update(op, frame) =>
      s.(op := op, hadError := s.hadError || op.errored, stream := if s.open then s.stream + [frame] else s.stream)
    case Noise(frame) => s.(stream := s.stream + [frame])
    case Disconnect => s.(stream := s.stream + [Ended], open := false)
    case Subscribe => s.(pc := Connected, stream := [], open := true, doneBefore := s.op.Terminal())
    case SubscribeUnavailable => s.(pc := Resting)
    case SubscribeRefused => s.(pc := Returned(OtherError))
    case Reconcile(reply) => s.(pc := After(s, reply, Draining(true), Draining(false)))
    case Drain =>
      var rest := s.(stream := s.stream[1..]);
      match Decide(s.stream[0], s.id) {
        case GoOn => rest
        case FetchResult => rest.(pc := Fetching)
        case Fail => rest.(pc := Returned(OperationFailed))
        case Reconnect => rest.(pc := StreamOver)
        case Abort => rest.(pc := Returned(OtherError))
      }
    case Fetch(reply) => s.(pc := if reply.Read? then Returned(Done(s.op)) else Returned(OtherError))
    case ReconcileAfter(reply) => s.(pc := After(s, reply, Connecting, Connecting))
    case RestWait(reply) =>
      s.(pc := match reply
               case Read => if s.op.Bad() then Returned(OperationFailed) else Returned(Done(s.op))
               case Transient => RestFailed
               case Final => Returned(OtherError))
    case RestCheck(reply) => s.(pc := After(s, reply, Resting, Resting))
  }

  ghost function Start(id: string, op: Operation): State { State(id, op, [], false, Connecting, false, op.errored) }

  ghost predicate Allowed(s: State, steps: seq<Step>)
    decreases |steps|
  {
    steps == [] || (Enabled(s, steps[0]) && Allowed(Apply(s, steps[0]), steps[1..]))
  }

  ghost function Exec(s: State, steps: seq<Step>): State
    requires Allowed(s, steps)
    decreases |steps|
  {
    if steps == [] then s else Exec(Apply(s, steps[0]), steps[1..])
  }

  // ----- invariant

  /** The stream still holds a frame that makes the waiter leave it. */
  ghost predicate HasDecisive(s: State) {
    exists i :: 0 <= i < |s.stream| && !Decide(s.stream[i], s.id).GoOn?
  }

  ghost predicate HasEnd(s: State) { exists i :: 0 <= i < |s.stream| && s.stream[i].Ended? }

  ghost predicate EventsTrue(s: State) {
    forall i :: 0 <= i < |s.stream| && IsFor(s.stream[i], s.id) && !s.stream[i].status.InProgress? ==>
      s.stream[i].status == s.op.status
  }

  ghost predicate ResultTrue(s: State) {
    && (s.pc.Fetching? ==> s.op.status.Success?)
    && (s.pc.Returned? && s.pc.result.Done? ==> s.op.status.Success? && s.pc.result.op == s.op)
    && (s.pc.Returned? && s.pc.result.OperationFailed? ==> s.op.status.Failure? || s.op.status.Cancelled? || s.hadError)
  }

  ghost predicate Inv(s: State) {
    && EventsTrue(s) && ResultTrue(s)
    && (s.op.errored ==> s.hadError)
    && (s.pc.Connected? || s.pc.Draining? ==> s.open || HasEnd(s))
    && (s.pc.Connected? && !s.doneBefore && s.op.Terminal() ==> HasDecisive(s))
    && (s.pc.Draining? && (s.pc.read || !s.doneBefore) && s.op.Terminal() ==> HasDecisive(s))
  }

  lemma ServerStep(s: State, step: Step)
    requires Inv(s) && Enabled(s, step) && (step.Update? || step.Noise? || step.Disconnect?)
    ensures Inv(Apply(s, step))
  {
    var t := Apply(s, step);
    assert forall i :: 0 <= i < |s.stream| ==> t.stream[i] == s.stream[i];
    if step.Update? && s.open {
      assert t.stream[|s.stream|] == step.frame;
    }
    if step.Disconnect? {
      assert t.stream[|s.stream|] == Ended;
    }
    if HasEnd(s) {
      var i :| 0 <= i < |s.stream| && s.stream[i].Ended?;
      assert t.stream[i].Ended? && !Decide(t.stream[i], t.id).GoOn?;
    }
    if HasDecisive(s) {
      var i :| 0 <= i < |s.stream| && !Decide(s.stream[i], s.id).GoOn?;
      assert !Decide(t.stream[i], t.id).GoOn?;
    }
  }

  lemma DrainStep(s: State)
    requires Inv(s) && Enabled(s, Drain)
    ensures Inv(Apply(s, Drain))
  {
    var t := Apply(s, Drain);
    assert forall i :: 0 <= i < |t.stream| ==> t.stream[i] == s.stream[i + 1];
    if t.pc.Draining? {
      if HasEnd(s) {
        var i :| 0 <= i < |s.stream| && s.stream[i].Ended?;
        assert t.stream[i - 1] == s.stream[i];
      }
      if HasDecisive(s) {
        var i :| 0 <= i < |s.stream| && !Decide(s.stream[i], s.id).GoOn?;
        assert t.stream[i - 1] == s.stream[i];
      }
    }
  }

  lemma InvStep(s: State, step: Step)
    requires Inv(s) && Enabled(s, step)
    ensures Inv(Apply(s, step))
  {
    if step.Update? || step.Noise? || step.Disconnect? {
      ServerStep(s, step);
    } else if step.Drain? {
      DrainStep(s);
    } else {
      var t := Apply(s, step);
      assert t.stream == s.stream || t.stream == [];
      assert HasEnd(s) && t.stream == s.stream ==> HasEnd(t);
      assert HasDecisive(s) && t.stream == s.stream ==> HasDecisive(t);
    }
  }

  lemma {:induction false} InvRun(s: State, steps: seq<Step>)
    requires Inv(s) && Allowed(s, steps)
    ensures Inv(Exec(s, steps))
    decreases |steps|
  {
    if steps != [] {
      InvStep(s, steps[0]);
      InvRun(Apply(s, steps[0]), steps[1..]);
    }
  }

  // ----- what every run guarantees

  /** A wait only succeeds with an operation that succeeded, and only reports a
      failure of one that failed, was cancelled or had an error. */
  lemma ResultIsRight(id: string, op: Operation, steps: seq<Step>)
    requires Allowed(Start(id, op), steps) && Exec(Start(id, op), steps).pc.Returned?
    ensures var s := Exec(Start(id, op), steps);
            && (s.pc.result.Done? ==> s.pc.result.op == s.op && s.op.status.Success?)
            && (s.pc.result.OperationFailed? ==> s.op.status.Failure? || s.op.status.Cancelled? || s.hadError)
  {
    InvRun(Start(id, op), steps);
  }

  /** The waiter drains a stream that will never tell it the operation is over. */
  ghost predicate Stuck(s: State) { s.pc.Draining? && s.op.Terminal() && !HasDecisive(s) }

  /** A stream opened after the operation finished says nothing about it. */
  ghost predicate SilentAfterEnd(s: State) {
    (s.pc.Connected? || s.pc.Draining?) && s.doneBefore ==>
      s.op.Terminal() && forall i :: 0 <= i < |s.stream| ==> !IsFor(s.stream[i], s.id)
  }

  lemma {:induction false} SilentRun(s: State, steps: seq<Step>)
    requires SilentAfterEnd(s) && Allowed(s, steps)
    ensures SilentAfterEnd(Exec(s, steps))
    decreases |steps|
  {
    if steps != [] {
      SilentRun(Apply(s, steps[0]), steps[1..]);
    }
  }

  /** The stream goes on, as far as it has been received. */
  ghost predicate Unbroken(s: State) {
    forall i :: 0 <= i < |s.stream| ==> !s.stream[i].Ended? && !s.stream[i].Refused?
  }

  /** No completion is lost: a waiter that drains the stream of a finished operation
      still has a decisive frame ahead — the completion, or the end of the stream.
      It has none in exactly one situation: the operation had finished before the
      stream was opened, the reconcile in between failed to read it, and the stream
      goes on. */
  lemma NoLostCompletion(id: string, op: Operation, steps: seq<Step>)
    requires Allowed(Start(id, op), steps)
    ensures var s := Exec(Start(id, op), steps);
            Stuck(s) <==> s.pc.Draining? && !s.pc.read && s.doneBefore && Unbroken(s)
  {
    InvRun(Start(id, op), steps);
    SilentRun(Start(id, op), steps);
    var s := Exec(Start(id, op), steps);
    assert forall i :: 0 <= i < |s.stream| && (s.stream[i].Ended? || s.stream[i].Refused?) ==>
      !Decide(s.stream[i], s.id).GoOn?;
  }

  /** That exception is real: it happens to every finished operation whose first
      read fails with a transport error. */
  lemma TransientReadLosesCompletion(id: string, op: Operation)
    requires op.Terminal()
    ensures var steps := [Subscribe, Reconcile(Transient)];
            Allowed(Start(id, op), steps) && Stuck(Exec(Start(id, op), steps)) && Exec(Start(id, op), steps).open
  {
    var s := Start(id, op);
    var a := Apply(s, Subscribe);
    var b := Apply(a, Reconcile(Transient));
    var steps := [Subscribe, Reconcile(Transient)];
    assert steps[1..] == [Reconcile(Transient)] && [Reconcile(Transient)][1..] == [];
    assert Allowed(b, []) && Allowed(a, [Reconcile(Transient)]);
    assert Exec(a, [Reconcile(Transient)]) == Exec(b, []) == b;
  }

  /** Draining what is in the stream then leaves it: with a decisive frame ahead,
      the loop does not wait for another one. */
  method DrainsToDecision(id: string, op: Operation, ghost steps: seq<Step>, stream: seq<Frame>)
    returns (verdict: Verdict)
    requires Allowed(Start(id, op), steps)
    requires var s := Exec(Start(id, op), steps);
             s.stream == stream && s.pc.Draining? && s.op.Terminal() && (s.pc.read || !s.doneBefore) && s.id == id
    ensures !verdict.GoOn?
    ensures verdict.FetchResult? ==> Exec(Start(id, op), steps).op.status.Success?
    ensures verdict.Fail? ==> var o := Exec(Start(id, op), steps).op; o.status.Failure? || o.status.Cancelled?
  {
    var consumed;
    verdict, consumed := DrainStream(stream, id);
    NoLostCompletion(id, op, steps);
    InvRun(Start(id, op), steps);
  }

  // ----- what each answer leads to

  ghost predicate Asks(step: Step, reply: Reply) {
    step == Reconcile(reply) || step == ReconcileAfter(reply) || step == RestCheck(reply)
  }

  /** A read of the operation returns what it shows: the operation if it succeeded, a
      failure if it failed, was cancelled or has an error text; otherwise the wait goes
      on. A transport error never ends the wait, a final one does. */
  lemma ReadReturnsWhatItShows(s: State, step: Step, reply: Reply)
    requires Enabled(s, step) && Asks(step, reply)
    ensures var pc := Apply(s, step).pc;
            && (reply.Read? && s.op.status.Success? ==> pc == Returned(Done(s.op)))
            && (reply.Read? && (s.op.status.Failure? || s.op.status.Cancelled?) ==> pc == Returned(OperationFailed))
            && (reply.Read? && s.op.status.InProgress? ==>
                  pc == if s.op.errored then Returned(OperationFailed)
                        else if step.Reconcile? then Draining(true)
                        else if step.ReconcileAfter? then Connecting else Resting)
            && (reply.Transient? ==>
                  pc == if step.Reconcile? then Draining(false)
                        else if step.ReconcileAfter? then Connecting else Resting)
            && (reply.Final? ==> pc == Returned(OtherError))
  {
  }

  /** The long poll of the fallback, likewise; it takes an error text for a failure even
      if the operation succeeded. */
  lemma LongPollReturnsWhatItShows(s: State, reply: Reply)
    requires Enabled(s, RestWait(reply))
    ensures var pc := Apply(s, RestWait(reply)).pc;
            match reply
            case Read =>
              pc == Returned(if s.op.status.Success? && !s.op.errored then Done(s.op) else OperationFailed)
            case Transient => pc == RestFailed
            case Final => pc == Returned(OtherError)
  {
  }

  /** In every run, the read that follows the event of a success returns the operation
      as a success. */
  lemma FetchReturnsSuccess(id: string, op: Operation, steps: seq<Step>)
    requires Allowed(Start(id, op), steps) && Exec(Start(id, op), steps).pc.Fetching?
    ensures var s := Exec(Start(id, op), steps);
            && s.op.status.Success?
            && Apply(s, Fetch(Read)).pc == Returned(Done(s.op))
            && Apply(s, Fetch(Transient)).pc == Returned(OtherError)
            && Apply(s, Fetch(Final)).pc == Returned(OtherError)
  {
    InvRun(Start(id, op), steps);
  }

  /** The frame that decides leads on as it should: a success to the read, a failure or
      cancellation to a failure, the end of the stream to a reconcile. */
  lemma DrainLeadsOn(s: State)
    requires Enabled(s, Drain)
    ensures var pc, frame := Apply(s, Drain).pc, s.stream[0];
            && (IsFor(frame, s.id) && frame.status.Success? ==> pc == Fetching)
            && (IsFor(frame, s.id) && (frame.status.Failure? || frame.status.Cancelled?) ==>
                  pc == Returned(OperationFailed))
            && (frame.Ended? ==> pc == StreamOver)
            && (frame.Refused? ==> pc == Returned(OtherError))
            && (frame.Malformed? || frame.Irrelevant? || (frame.Event? && !IsFor(frame, s.id)) ==> pc == s.pc)
            && (IsFor(frame, s.id) && frame.status.InProgress? ==> pc == s.pc)
    ensures Apply(s, Drain).stream == s.stream[1..]
  {
  }

  /** A subscription starts a fresh stream; one that cannot be had falls back to REST. */
  lemma SubscriptionLeadsOn(s: State)
    requires s.pc.Connecting?
    ensures Apply(s, Subscribe) == s.(pc := Connected, stream := [], open := true, doneBefore := s.op.Terminal())
    ensures Apply(s, SubscribeUnavailable) == s.(pc := Resting)
  {
  }

  /** A wait ends with another error only for a final error reply, a refused
      subscription or stream, or a read after a success that read nothing. */
  lemma OtherErrorOnlyFor(s: State, step: Step)
    requires Enabled(s, step) && !s.pc.Returned?
    ensures Apply(s, step).pc == Returned(OtherError) <==>
            || step.SubscribeRefused?
            || (step.Drain? && s.stream[0].Refused?)
            || (step.Fetch? && !step.reply.Read?)
            || Asks(step, Final) || step == RestWait(Final)
  {
  }

  /** A wait over the event stream, from start to end: an operation that finishes after
      the subscription is returned as it finished. */
  lemma EventWaitReturns(id: string, op: Operation, done: Operation)
    requires op == Operation(InProgress, false) && done.Terminal()
    ensures Enabled(Start(id, op), Subscribe)
    ensures var a := Apply(Start(id, op), Subscribe);
            && Enabled(a, Reconcile(Read))
            && var b := Apply(a, Reconcile(Read));
               && Enabled(b, Update(done, Event(id, done.status)))
               && var c := Apply(b, Update(done, Event(id, done.status)));
                  && c.op == done && Enabled(c, Drain)
                  && var d := Apply(c, Drain);
                     if done.status.Success?
                     then Enabled(d, Fetch(Read)) && Apply(d, Fetch(Read)).pc == Returned(Done(done))
                     else d.pc == Returned(OperationFailed)
  {
    var b := Apply(Apply(Start(id, op), Subscribe), Reconcile(Read));
    assert b.pc == Draining(true) && b.stream == [];
    var c := Apply(b, Update(done, Event(id, done.status)));
    assert c.stream == [Event(id, done.status)];
  }

  /** The operation is named by its bare id or by its path. */
  lemma NamedEitherWay(id: string, status: Status)
    ensures IsFor(Event(id, status), id) && IsFor(Event("/1.0/operations/" + id, status), id)
  {
  }
}
