/** The streaming request body of a split image upload
    (crates/lxd-client/src/split_image_body.rs, `SplitImageBody`).

    What the disk does is a schedule: one outcome per poll. */
module SplitBody {
  import opened Common
  import opened Multipart
  import opened Text

  const ROOTFS_CHUNK_SIZE: nat := 262144

  datatype Phase = AtPreamble | AtRootfs | AtClosing | Done

  /** What `poll_read` answers: nothing yet, an error, or up to `n` of the bytes
      left in the file (none only at its end). */
  datatype Io = NotReady | Failed | Ready(n: Positive)

  type Positive = n: int | n > 0 witness 1

  datatype Poll = Pending | Frame(data: Bytes) | UnexpectedEof | IoError | End

  /** `unread` is what the file still holds from its read position on. */
  datatype Body = Body(
    phase: Phase, preamble: Option<Bytes>, unread: Bytes, remaining: nat, closing: Option<Bytes>, total: nat)

  function Min(a: int, b: int): int { if a <= b then a else b }

  function ReadSize(b: Body, n: Positive): nat {
    Min(Min(n, |b.unread|), Min(ROOTFS_CHUNK_SIZE, b.remaining))
  }

  predicate Sound(b: Body) {
    && (b.phase.AtPreamble? ==> b.preamble.Some?)
    && (b.phase.AtPreamble? || b.phase.AtRootfs? || b.phase.AtClosing? ==> b.closing.Some?)
    && (b.phase.AtClosing? || b.phase.Done? ==> b.remaining == 0)
  }

  /** One `poll_frame`, as a function of the state and what the disk does. */
  function Step(b: Body, io: Io): (Body, Poll)
    requires Sound(b)
  {
    match b.phase
    case AtPreamble => (b.(phase := AtRootfs, preamble := None), Frame(b.preamble.value))
    case AtRootfs =>
      if b.remaining == 0 then (b.(phase := Done, closing := None), Frame(b.closing.value))
      else (match io
        case NotReady => (b, Pending)
        case Failed => (b, IoError)
        case Ready(n) =>
          var size := ReadSize(b, n);
          if size == 0 then (b, UnexpectedEof)
          else (b.(unread := b.unread[size..], remaining := b.remaining - size), Frame(b.unread[..size])))
    case AtClosing => (b.(phase := Done, closing := None), Frame(b.closing.value))
    case Done => (b, End)
  }

  class SplitImageBody {
    var phase: Phase
    var preamble: Option<Bytes>
    var unread: Bytes
    var remaining: nat
    var closing: Option<Bytes>
    const readBuf: array<char>
    const total: nat

    ghost function State(): Body reads this { Body(phase, preamble, unread, remaining, closing, total) }

    ghost predicate Valid() reads this, readBuf { Sound(State()) && readBuf.Length == ROOTFS_CHUNK_SIZE }

    constructor (
        metadataName: string, metadata: Bytes, rootfsName: string, file: Bytes, rootfsLen: nat, boundary: string)
      ensures Valid() && fresh(readBuf)
      ensures State() == Opened(boundary, metadataName, metadata, rootfsName, file, rootfsLen)
    {
      phase := AtPreamble;
      preamble := Some(Preamble(boundary, metadataName, metadata, rootfsName));
      unread := file;
      remaining := rootfsLen;
      closing := Some(Closing(boundary));
      total := |Preamble(boundary, metadataName, metadata, rootfsName)| + rootfsLen + |Closing(boundary)|;
      readBuf := new char[ROOTFS_CHUNK_SIZE];
    }

    /** The source's loop goes round at most once: from an exhausted rootfs to the
        closing frame. */
    method PollFrame(io: Io) returns (r: Poll)
      requires Valid()
      modifies this, readBuf
      ensures Valid()
      ensures (State(), r) == Step(old(State()), io)
    {
      if phase.AtRootfs? && remaining == 0 {
        phase := AtClosing;
      }
      match phase
      case AtPreamble =>
        r := Frame(preamble.value);
        preamble, phase := None, AtRootfs;
      case AtRootfs =>
        match io {
          case NotReady => r := Pending;
          case Failed => r := IoError;
          case Ready(n) =>
            var toRead := Min(ROOTFS_CHUNK_SIZE, remaining);
            var filled := Min(Min(n, |unread|), toRead);
            if filled == 0 {
              return UnexpectedEof;
            }
            for i := 0 to filled
              modifies readBuf
              invariant readBuf[..i] == unread[..i]
            {
              readBuf[i] := unread[i];
            }
            unread := unread[filled..];
            remaining := remaining - filled;
            r := Frame(readBuf[..filled]);
        }
      case AtClosing =>
        r := Frame(closing.value);
        closing, phase := None, Done;
      case Done =>
        r := End;
    }

    /** `size_hint` */
    method SizeHint() returns (n: nat)
      ensures n == State().total
    {
      n := total;
    }
  }

  function Opened(
      boundary: string, metadataName: string, metadata: Bytes, rootfsName: string, file: Bytes, rootfsLen: nat): Body
  {
    var preamble, closing := Preamble(boundary, metadataName, metadata, rootfsName), Closing(boundary);
    Body(AtPreamble, Some(preamble), file, rootfsLen, Some(closing), |preamble| + rootfsLen + |closing|)
  }

  // ----- whole runs

  /** The state after a schedule and the answers it got. */
  function Run(b: Body, schedule: seq<Io>): (r: (Body, seq<Poll>))
    requires Sound(b)
    ensures Sound(r.0) && |r.1| == |schedule|
  {
    if schedule == [] then (b, [])
    else
      var (mid, polls) := Run(b, Init(schedule));
      var (after, poll) := Step(mid, Last(schedule));
      (after, polls + [poll])
  }

  function Emitted(polls: seq<Poll>): Bytes {
    if polls == [] then []
    else if Last(polls).Frame? then Emitted(Init(polls)) + Last(polls).data
    else Emitted(Init(polls))
  }

  function SizeOf(part: Option<Bytes>): nat { if part.Some? then |part.value| else 0 }

  /** What is still to be sent. */
  function Unsent(b: Body): nat { SizeOf(b.preamble) + b.remaining + SizeOf(b.closing) }

  /** `emitted` is how far a run of the body with these three pieces has come. */
  ghost predicate Reached(b: Body, emitted: Bytes, preamble: Bytes, file: Bytes, len: nat, closing: Bytes) {
    && Sound(b) && b.remaining <= len && len - b.remaining <= |file|
    && b.unread == file[len - b.remaining..]
    && match b.phase
       case AtPreamble =>
         emitted == [] && b.preamble == Some(preamble) && b.remaining == len && b.closing == Some(closing)
       case AtRootfs =>
         emitted == preamble + file[..len - b.remaining] && b.preamble == None && b.closing == Some(closing)
       case AtClosing => false
       case Done => emitted == preamble + file[..len] + closing && b.preamble == None && b.closing == None
  }

  lemma ReachedStep(b: Body, io: Io, emitted: Bytes, preamble: Bytes, file: Bytes, len: nat, closing: Bytes)
    requires Reached(b, emitted, preamble, file, len, closing)
    ensures var (after, poll) := Step(b, io);
            Reached(after, if poll.Frame? then emitted + poll.data else emitted, preamble, file, len, closing)
  {
    var (after, poll) := Step(b, io);
    if b.phase.AtRootfs? && poll.Frame? && after.phase.AtRootfs? {
      ReadMoves(preamble, file, len - b.remaining, |poll.data|);
    }
  }

  lemma ReadMoves(preamble: Bytes, file: Bytes, done: nat, size: nat)
    requires done + size <= |file|
    ensures (preamble + file[..done]) + file[done..][..size] == preamble + file[..done + size]
    ensures file[done..][size..] == file[done + size..]
  {
    assert file[..done] + file[done..][..size] == file[..done + size];
  }

  lemma {:induction false} ReachedRun(
      b: Body, schedule: seq<Io>, preamble: Bytes, file: Bytes, len: nat, closing: Bytes)
    requires b == Body(AtPreamble, Some(preamble), file, len, Some(closing), |preamble| + len + |closing|)
    ensures Reached(Run(b, schedule).0, Emitted(Run(b, schedule).1), preamble, file, len, closing)
    ensures Run(b, schedule).0.total == b.total
  {
    if schedule == [] {
      assert file[0..] == file;
    } else {
      var (mid, polls) := Run(b, Init(schedule));
      ReachedRun(b, Init(schedule), preamble, file, len, closing);
      ReachedStep(mid, Last(schedule), Emitted(polls), preamble, file, len, closing);
      var poll := Step(mid, Last(schedule)).1;
      assert Init(polls + [poll]) == polls && Last(polls + [poll]) == poll;
    }
  }

  /** There is something of the rootfs to send. */
  predicate InRootfs(b: Body) { b.phase.AtRootfs? && b.remaining > 0 }

  /** The answer to poll `i` is one step from the state the polls before it led to. */
  lemma {:induction false} PollAt(b: Body, schedule: seq<Io>, i: nat)
    requires Sound(b) && i < |schedule|
    ensures Run(b, schedule).1[i] == Step(Run(b, schedule[..i]).0, schedule[i]).1
  {
    if i < |schedule| - 1 {
      PollAt(b, Init(schedule), i);
      assert Init(schedule)[..i] == schedule[..i];
    } else {
      assert schedule[..i] == Init(schedule);
    }
  }

  /** For every file and every schedule of short reads, errors and pending polls:
      what went out and what is still to go out add up to `size_hint`'s total; what
      went out is the beginning of the body; the end is only reached with the whole
      body out, and so never when the file is too short. */
  lemma Streaming(b: Body, schedule: seq<Io>, preamble: Bytes, file: Bytes, len: nat, closing: Bytes)
    requires b == Body(AtPreamble, Some(preamble), file, len, Some(closing), |preamble| + len + |closing|)
    ensures var (after, polls) := Run(b, schedule);
            && |Emitted(polls)| + Unsent(after) == b.total
            && Emitted(polls) <= preamble + file[..Min(len, |file|)] + closing
            && (after.phase.Done? ==> len <= |file| && Emitted(polls) == preamble + file[..len] + closing)
            && (|file| < len ==> !after.phase.Done?)
  {
    ReachedRun(b, schedule, preamble, file, len, closing);
    var after := Run(b, schedule).0;
    if after.phase.AtRootfs? {
      var done := len - after.remaining;
      var whole := file[..Min(len, |file|)];
      assert whole[..done] == file[..done];
      assert preamble + whole[..done] + (whole[done..] + closing) == preamble + whole + closing;
      assert |Emitted(Run(b, schedule).1)| == |preamble| + done;
    }
  }

  /** One poll while the rootfs is sent: a frame has 1 to 262144 bytes, the next ones
      of the file; at the end of a file that is too short there is an error; and
      nothing but a frame changes the state. */
  lemma FrameSizes(b: Body, io: Io)
    requires Sound(b) && InRootfs(b)
    ensures var (after, poll) := Step(b, io);
            && (poll.Frame? ==> 1 <= |poll.data| <= ROOTFS_CHUNK_SIZE && poll.data == b.unread[..|poll.data|])
            && (io.Ready? && b.unread != [] <==> poll.Frame?)
            && (poll.UnexpectedEof? <==> io.Ready? && b.unread == [])
            && (!poll.Frame? ==> after == b)
  {
  }

  /** What each poll answers: the stream ends only after the closing frame; a rootfs
      read that is not ready, fails or finds the file at its end is answered as such;
      every other poll gives the next frame. */
  lemma Answers(b: Body, io: Io)
    requires Sound(b)
    ensures var (after, poll) := Step(b, io);
            && (poll.End? <==> b.phase.Done?)
            && (poll.Pending? <==> InRootfs(b) && io.NotReady?)
            && (poll.IoError? <==> InRootfs(b) && io.Failed?)
            && (poll.UnexpectedEof? <==> InRootfs(b) && io.Ready? && b.unread == [])
            && (b.phase.AtPreamble? ==> poll == Frame(b.preamble.value) && after.phase.AtRootfs?)
            && (!b.phase.AtPreamble? && !b.phase.Done? && !InRootfs(b) ==>
                  poll == Frame(b.closing.value) && after.phase.Done?)
  {
  }

  /** In every run a poll answers with the end of the stream exactly when the whole
      body has gone out before it, and as not ready or failed exactly on such a read
      with something of the rootfs left to send. */
  lemma EndsExactlyWhenSent(
      b: Body, schedule: seq<Io>, i: nat, preamble: Bytes, file: Bytes, len: nat, closing: Bytes)
    requires b == Body(AtPreamble, Some(preamble), file, len, Some(closing), |preamble| + len + |closing|)
    requires i < |schedule| && closing != []
    ensures var poll, sent := Run(b, schedule).1[i], Emitted(Run(b, schedule[..i]).1);
            && (poll.End? <==> |file| >= len && sent == preamble + file[..len] + closing)
            && (poll.Pending? <==> schedule[i].NotReady? && InRootfs(Run(b, schedule[..i]).0))
            && (poll.IoError? <==> schedule[i].Failed? && InRootfs(Run(b, schedule[..i]).0))
  {
    var mid := Run(b, schedule[..i]).0;
    PollAt(b, schedule, i);
    Answers(mid, schedule[i]);
    ReachedRun(b, schedule[..i], preamble, file, len, closing);
    DoneIffSent(mid, Emitted(Run(b, schedule[..i]).1), preamble, file, len, closing);
  }

  lemma DoneIffSent(b: Body, emitted: Bytes, preamble: Bytes, file: Bytes, len: nat, closing: Bytes)
    requires Reached(b, emitted, preamble, file, len, closing) && closing != []
    ensures b.phase.Done? <==> |file| >= len && emitted == preamble + file[..len] + closing
  {
    if b.phase.AtRootfs? && |file| >= len {
      assert |emitted| == |preamble| + (len - b.remaining);
      assert |preamble + file[..len] + closing| == |preamble| + len + |closing|;
    }
  }

  /** In every run, each frame of the rootfs has 1 to 262144 bytes. */
  lemma RootfsFrames(b: Body, schedule: seq<Io>, i: nat)
    requires Sound(b) && i < |schedule| && InRootfs(Run(b, schedule[..i]).0)
    ensures var poll := Run(b, schedule).1[i]; poll.Frame? ==> 1 <= |poll.data| <= 262144
  {
    PollAt(b, schedule, i);
    FrameSizes(Run(b, schedule[..i]).0, schedule[i]);
  }

  /** Polls until the end, when every read makes progress. */
  function Measure(b: Body): nat {
    match b.phase
    case AtPreamble => b.remaining + 3
    case AtRootfs => b.remaining + 2
    case AtClosing => 1
    case Done => 0
  }

  function Reads(schedule: seq<Io>): nat {
    if schedule == [] then 0 else Reads(Init(schedule)) + if Last(schedule).Ready? then 1 else 0
  }

  lemma {:induction false} MeasureFalls(
      b: Body, schedule: seq<Io>, preamble: Bytes, file: Bytes, len: nat, closing: Bytes)
    requires b == Body(AtPreamble, Some(preamble), file, len, Some(closing), |preamble| + len + |closing|)
    requires len <= |file|
    ensures Run(b, schedule).0.phase.Done? || Measure(Run(b, schedule).0) + Reads(schedule) <= len + 3
  {
    if schedule != [] {
      MeasureFalls(b, Init(schedule), preamble, file, len, closing);
      ReachedRun(b, Init(schedule), preamble, file, len, closing);
    }
  }

  /** The end is reached when the file is long enough and more than `len + 3` reads
      give something, however many pending polls and errors come between them. */
  lemma StreamingCompletes(b: Body, schedule: seq<Io>, preamble: Bytes, file: Bytes, len: nat, closing: Bytes)
    requires b == Body(AtPreamble, Some(preamble), file, len, Some(closing), |preamble| + len + |closing|)
    requires len <= |file| && Reads(schedule) > len + 3
    ensures Run(b, schedule).0.phase.Done?
  {
    MeasureFalls(b, schedule, preamble, file, len, closing);
  }

  /** Whatever the schedule, an upload streamed to its end reads back as the two
      parts it was made of. */
  lemma StreamedUploadReadsBack(boundary: string, metadataName: string, metadata: Bytes, rootfsName: string,
                                file: Bytes, len: nat, schedule: seq<Io>, strict: bool)
    requires '\r' !in boundary
    requires '"' !in metadataName && '\r' !in metadataName && '"' !in rootfsName && '\r' !in rootfsName
    requires len <= |file| && Plain(metadata, boundary, strict) && Plain(file[..len], boundary, strict)
    requires Run(Opened(boundary, metadataName, metadata, rootfsName, file, len), schedule).0.phase.Done?
    ensures Parse(Emitted(Run(Opened(boundary, metadataName, metadata, rootfsName, file, len), schedule).1),
                  boundary, strict)
            == Some([Part("metadata", metadataName, metadata), Part("rootfs", rootfsName, file[..len])])
  {
    var preamble, closing := Preamble(boundary, metadataName, metadata, rootfsName), Closing(boundary);
    var b := Opened(boundary, metadataName, metadata, rootfsName, file, len);
    Streaming(b, schedule, preamble, file, len, closing);
    RoundTrip(boundary, metadataName, metadata, rootfsName, file[..len], strict);
  }
}
