/**
 * What the kernel answers to the capture application (lkml/v4l2-app/grabber.c), as scripts: one
 * for ioctl, one for select, one for read, one for mmap and the allocators, one for munmap. Every
 * finite behaviour of the environment is such a script. Here is what the answers mean for the
 * frames and calls of the program, and which scripts let it come to its end.
 */
module GrabberScripts {
  import opened Wrappers
  import opened GrabberSession

  datatype IoMethod = Read | Mmap | UserPtr

  datatype Errno = EINTR | EAGAIN | EIO | EINVAL | OtherErrno(code: int)

  /** What an ioctl leaves in its argument: struct v4l2_buffer, or the count of REQBUFS. */
  datatype Arg = Arg(index: nat, userptr: nat, length: nat, bytesused: nat, count: nat)

  datatype IoctlReply = Ok(arg: Arg) | IoctlFailed(errno: Errno)
  datatype SelectReply = Ready | Timeout | SelectFailed(errno: Errno)
  datatype ReadReply = ReadOk | ReadFailed(errno: Errno)

  /** struct buffer; also any mapping or allocation the process owns. */
  datatype Buffer = Buffer(start: nat, length: nat)

  /** A call of process_image, and the index of the buffer that passed the assertion before it. */
  datatype Image = Image(start: nat, size: nat, from: nat)

  /** What the kernel is asked for, each answered from a script of its own. */
  datatype Source = IoctlSource | SelectSource | ReadSource | MemorySource | UnmapSource

  datatype Fate = Running | ExitFailure | AssertionFailed | Waiting(on: Source)

  const ENTRY_BYTES: nat := 16

  // ---------------------------------------------------------------- reading a script

  /** Leading interrupted calls. */
  function Interruptions(q: seq<IoctlReply>): (k: nat)
    ensures k <= |q|
    ensures forall i | 0 <= i < k :: q[i] == IoctlFailed(EINTR)
    ensures k < |q| ==> q[k] != IoctlFailed(EINTR)
  {
    if q != [] && q[0] == IoctlFailed(EINTR) then
      var k := Interruptions(q[1..]);
      assert forall i | 1 <= i < k + 1 :: q[i] == q[1..][i - 1];
      k + 1
    else 0
  }

  /** What the successful calls among `q` return. */
  function Answers(q: seq<IoctlReply>): seq<Arg> {
    if q == [] then [] else (if q[0].Ok? then [q[0].arg] else []) + Answers(q[1..])
  }

  function Agains(q: seq<IoctlReply>): nat {
    if q == [] then 0 else Agains(q[..|q| - 1]) + if q[|q| - 1] == IoctlFailed(EAGAIN) then 1 else 0
  }

  function ReadAgains(q: seq<ReadReply>): nat {
    if q == [] then 0 else ReadAgains(q[..|q| - 1]) + if q[|q| - 1] == ReadFailed(EAGAIN) then 1 else 0
  }

  function Readies(q: seq<SelectReply>): nat {
    if q == [] then 0 else Readies(q[..|q| - 1]) + if q[|q| - 1].Ready? then 1 else 0
  }

  /** Exactly the condition read_frame asserts of a dequeued buffer, lines 123 and 157. */
  ghost predicate Recognised(io: IoMethod, bufs: seq<Buffer>, arg: Arg) {
    if io.UserPtr? then exists i :: 0 <= i < |bufs| && Matches(bufs[i], arg)
    else arg.index < |bufs|
  }

  predicate Matches(b: Buffer, arg: Arg) {
    arg.userptr == b.start && arg.length == b.length
  }

  /** The first buffer with this address and length. */
  function FirstMatch(bufs: seq<Buffer>, arg: Arg): (i: nat)
    ensures i <= |bufs| && (i < |bufs| ==> Matches(bufs[i], arg))
    ensures forall k | 0 <= k < i :: !Matches(bufs[k], arg)
  {
    if bufs == [] then 0
    else
      var last := |bufs| - 1;
      var i := FirstMatch(bufs[..last], arg);
      if i == last && !Matches(bufs[last], arg) then |bufs| else i
  }

  ghost predicate DistinctStarts(bufs: seq<Buffer>) {
    forall j, k | 0 <= j < k < |bufs| :: bufs[j].start != bufs[k].start
  }

  /** With buffers at different addresses, an answer that is unchanged is found where it was queued. */
  lemma LookupIsUnique(bufs: seq<Buffer>, arg: Arg, i: nat)
    requires DistinctStarts(bufs) && arg.index < |bufs| && Matches(bufs[arg.index], arg) && i < |bufs|
    ensures Matches(bufs[i], arg) <==> i == arg.index
    ensures FirstMatch(bufs, arg) == arg.index
  {
  }

  /** The index the assertion is about: searched for a user pointer, given for a mapped buffer. */
  function Lookup(io: IoMethod, bufs: seq<Buffer>, arg: Arg): nat {
    if io.UserPtr? then FirstMatch(bufs, arg) else arg.index
  }

  /** What is processed after a DQBUF: the mapped buffer, or the memory the answer names. */
  function ImageOf(io: IoMethod, bufs: seq<Buffer>, arg: Arg): Image
    requires Recognised(io, bufs, arg)
  {
    Image(if io.UserPtr? then arg.userptr else bufs[arg.index].start, arg.bytesused, Lookup(io, bufs, arg))
  }

  /**
   * Frame `k` from call number `c0` on: a DQBUF, then a QBUF of what it returned. `answers` holds
   * the answer to every call, by call number.
   */
  ghost predicate PairAt(calls: seq<Call>, answers: seq<Arg>, c0: nat, k: nat) {
    var c := c0 + 2 * k;
    && c + 1 < |calls| && c < |answers|
    && calls[c] == DqbufCall(answers[c].index)
    && calls[c + 1] == RequeueCall(answers[c])
  }

  /** The QBUF of a structure that a DQBUF has filled in. */
  function RequeueCall(arg: Arg): Call {
    QbufCall(arg.index, arg.userptr, arg.length)
  }

  /** After `before`, exactly `f` such pairs. */
  ghost predicate Paired(before: seq<Call>, calls: seq<Call>, answers: seq<Arg>, f: nat) {
    && |calls| == |before| + 2 * f && before <= calls
    && forall k: nat | k < f :: PairAt(calls, answers, |before|, k)
  }

  /** Image `k` after the first `i0` is what the answer to its DQBUF says, in read mode buffer 0. */
  ghost predicate ImageAt(io: IoMethod, bufs: seq<Buffer>, answers: seq<Arg>, c0: nat, images: seq<Image>,
                          i0: nat, k: nat)
  {
    var c := c0 + 2 * k;
    && i0 + k < |images|
    && if io.Read? then bufs != [] && images[i0 + k] == Image(bufs[0].start, bufs[0].length, 0)
       else c < |answers| && Recognised(io, bufs, answers[c]) && images[i0 + k] == ImageOf(io, bufs, answers[c])
  }

  ghost predicate ImagesFrom(io: IoMethod, bufs: seq<Buffer>, answers: seq<Arg>, c0: nat, images: seq<Image>, i0: nat) {
    && i0 <= |images|
    && forall k: nat | i0 + k < |images| :: ImageAt(io, bufs, answers, c0, images, i0, k)
  }

  lemma PairedExtend(before: seq<Call>, c1: seq<Call>, c2: seq<Call>, answers: seq<Arg>, f: nat)
    requires Paired(before, c1, answers, f) && Paired(c1, c2, answers, 1)
    ensures Paired(before, c2, answers, f + 1)
  {
    forall k: nat | k < f + 1 ensures PairAt(c2, answers, |before|, k) {
      if k < f {
        assert PairAt(c1, answers, |before|, k);
      } else {
        assert PairAt(c2, answers, |c1|, 0);
      }
    }
  }

  lemma ImagesExtend(io: IoMethod, bufs: seq<Buffer>, answers: seq<Arg>, c0: nat, c1: nat,
                     m1: seq<Image>, m2: seq<Image>, i0: nat, f: nat)
    requires |m1| == i0 + f && ImagesFrom(io, bufs, answers, c0, m1, i0)
    requires m1 <= m2 && |m2| <= |m1| + 1 && ImagesFrom(io, bufs, answers, c1, m2, |m1|)
    requires io.Read? || c1 == c0 + 2 * f
    ensures ImagesFrom(io, bufs, answers, c0, m2, i0)
  {
    forall k: nat | i0 + k < |m2| ensures ImageAt(io, bufs, answers, c0, m2, i0, k) {
      if k < f {
        assert ImageAt(io, bufs, answers, c0, m1, i0, k);
      } else {
        assert ImageAt(io, bufs, answers, c1, m2, |m1|, 0);
      }
    }
  }

  /** Call number `c` is the DQBUF of one of the `f` frames from call number `c0` on. */
  predicate DequeuesAt(c0: nat, f: nat, c: nat) {
    c0 <= c < c0 + 2 * f && (c - c0) % 2 == 0
  }

  /** A QBUF of start_capturing: the structure is cleared, and for user pointers filled in. */
  function FirstQbuf(io: IoMethod, bufs: seq<Buffer>, k: nat): Call
    requires k < |bufs|
  {
    if io.UserPtr? then QbufCall(k, bufs[k].start, bufs[k].length) else QbufCall(k, 0, 0)
  }

  function QbufRound(io: IoMethod, bufs: seq<Buffer>, n: nat): seq<Call>
    requires n <= |bufs|
  {
    seq(n, i requires 0 <= i < n => FirstQbuf(io, bufs, i))
  }

  /** The calls of start_capturing. */
  function Opening(io: IoMethod, bufs: seq<Buffer>): seq<Call> {
    QbufRound(io, bufs, |bufs|) + [StreamOnCall]
  }

  /**
   * Call number `c` of the grabber before it stops: the first round, the start, and then the
   * frames, given what the calls return.
   */
  function GrabberCall(io: IoMethod, bufs: seq<Buffer>, answers: seq<Arg>, c: nat): Call
    requires c <= |answers| || c < |bufs|
  {
    var n := |bufs|;
    if c < n then FirstQbuf(io, bufs, c)
    else if c > n && (c - n) % 2 == 0 then RequeueCall(answers[c - 1])
    else if c > n && c < |answers| then DqbufCall(answers[c].index)
    else StreamOnCall
  }

  lemma ProcessCall(io: IoMethod, bufs: seq<Buffer>, calls: seq<Call>, answers: seq<Arg>, f: nat, c: nat)
    requires Paired(Opening(io, bufs), calls, answers, f) && c < |calls| <= |answers|
    ensures calls[c] == GrabberCall(io, bufs, answers, c)
    ensures DequeuesAt(|bufs| + 1, f, c) ==> c < |answers|
  {
    if c <= |bufs| {
      assert calls[c] == Opening(io, bufs)[c];
    } else {
      assert PairAt(calls, answers, |bufs| + 1, (c - |bufs| - 1) / 2);
    }
  }

  /**
   * Queueing every buffer, starting, `f` DQBUF/QBUF pairs and a stop: exactly the order of calls
   * that the session theorems of module GrabberSession are about.
   */
  lemma CaptureIsGrabberOrder(io: IoMethod, bufs: seq<Buffer>, calls: seq<Call>, answers: seq<Arg>, f: nat)
    requires Paired(Opening(io, bufs), calls, answers, f)
    ensures GrabberCalls(|bufs|, calls) && GrabberCalls(|bufs|, calls + [StreamOffCall])
  {
    var n, before, all := |bufs|, Opening(io, bufs), calls + [StreamOffCall];
    forall k: nat | k < |all| ensures Follows(n, all, k) {
      if k <= n {
        assert all[k] == before[k];
      } else if k < |calls| {
        assert PairAt(calls, answers, n + 1, (k - n - 1) / 2);
        if (k - n) % 2 == 1 && k > n + 1 {
          assert PairAt(calls, answers, n + 1, (k - n - 3) / 2);
        }
      } else if f > 0 {
        assert PairAt(calls, answers, n + 1, f - 1);
      }
    }
    GrabberCallsPrefix(n, all, calls);
  }

  /** The address of grant number `k`, if there is one. */
  function Granted(grants: seq<Option<nat>>, k: nat): nat {
    if k < |grants| && grants[k].Some? then grants[k].value else 0
  }

  /** The first `n` mappings: where mmap put them, as long as QUERYBUF said. */
  function Mappings(grants: seq<Option<nat>>, answers: seq<Arg>, n: nat): seq<Buffer> {
    seq(n, k requires 0 <= k => Buffer(Granted(grants, k), if k < |answers| then answers[k].length else 0))
  }

  lemma OneMapping(grants: seq<Option<nat>>, answers: seq<Arg>, n: nat)
    requires n <= |grants| && n <= |answers| && grants[n..] != [] && answers[n..] != []
    ensures Mappings(grants, answers, n + 1)
         == Mappings(grants, answers, n) + [Buffer(Granted(grants[n..], 0), answers[n..][0].length)]
  {
  }

  function Tail<T>(q: seq<T>): seq<T> {
    if q == [] then [] else q[1..]
  }

  /**
   * The buffers init_device sets up, from what the kernel answers: grant 0 is the table; mapped
   * buffers are as many as REQBUFS says and as long as QUERYBUF says.
   */
  function Allocated(io: IoMethod, answers: seq<Arg>, grants: seq<Option<nat>>, sizeimage: nat): seq<Buffer> {
    match io
    case Read => [Buffer(Granted(grants, 1), sizeimage)]
    case Mmap =>
      if answers == [] then [] else Mappings(Tail(grants), answers[1..], answers[0].count)
    case UserPtr => seq(4, k requires 0 <= k => Buffer(Granted(grants, k + 1), sizeimage))
  }

  /** The successful ioctls of the buffer setup: REQBUFS and the QUERYBUFs. */
  function SetupCalls(io: IoMethod, n: nat): nat {
    match io
    case Read => 0
    case Mmap => 1 + n
    case UserPtr => 1
  }

  // ---------------------------------------------------------------- the answers in order

  /** The REQBUFS of init_mmap, the DQBUF of read_frame, any other ioctl. */
  datatype Request = MapRequest | FrameRequest | OtherRequest

  /** One answer of the kernel. */
  datatype Event =
    | IoctlDone(request: Request, reply: IoctlReply)
    | SelectDone(answer: SelectReply)
    | ReadDone(result: ReadReply)
    | MemoryDone(grant: Option<nat>)
    | UnmapDone(ok: bool)

  /** Answers at which the program calls exit(EXIT_FAILURE). */
  predicate Fatal(e: Event) {
    match e
    case IoctlDone(request, Ok(arg)) => request.MapRequest? && arg.count < 2
    case IoctlDone(request, IoctlFailed(errno)) => errno != EINTR && !(request.FrameRequest? && errno == EAGAIN)
    case SelectDone(answer) => answer.Timeout? || (answer.SelectFailed? && answer.errno != EINTR)
    case ReadDone(result) => result.ReadFailed? && result.errno != EAGAIN
    case MemoryDone(grant) => grant.None?
    case UnmapDone(ok) => !ok
  }

  /** No answer before the last is one to leave at. */
  ghost predicate HarmlessBefore(log: seq<Event>) {
    forall i | 0 <= i < |log| - 1 :: !Fatal(log[i])
  }

  // ---------------------------------------------------------------- scripts that let a capture return

  /** The next `m` ioctls succeed, with nothing but interruptions between them. */
  predicate Succeed(q: seq<IoctlReply>, m: nat) {
    m == 0
    || (q != [] && if q[0].Ok? then Succeed(q[1..], m - 1) else q[0].errno == EINTR && Succeed(q[1..], m))
  }

  /** What is left of a script after its first `m` successes. */
  function Rest(q: seq<IoctlReply>, m: nat): seq<IoctlReply> {
    if m == 0 || q == [] then q else Rest(q[1..], if q[0].Ok? then m - 1 else m)
  }

  /** The number of the first DQBUF, the frames to come from there on, and the images wanted in all. */
  datatype Plan = Plan(first: nat, frames: nat, images: nat) {
    /** Calls up to and including STREAMOFF. */
    function Total(): nat {
      first + 2 * frames + 1
    }
  }

  /**
   * The script answers calls `c` to the last: each succeeds after any number of interruptions, a
   * DQBUF also after any number of EAGAIN, and what a DQBUF returns passes the assertion.
   */
  ghost predicate Serves(io: IoMethod, bufs: seq<Buffer>, plan: Plan, q: seq<IoctlReply>, c: nat)
    decreases |q|
  {
    c >= plan.Total()
    || (q != []
        && var frame := DequeuesAt(plan.first, plan.frames, c);
           if q[0].Ok? then (frame ==> Recognised(io, bufs, q[0].arg)) && Serves(io, bufs, plan, q[1..], c + 1)
           else (q[0].errno == EINTR || (frame && q[0].errno == EAGAIN)) && Serves(io, bufs, plan, q[1..], c))
  }

  /** How often the frame loop asks for a frame on this script: once a frame and once an EAGAIN. */
  function Polls(plan: Plan, q: seq<IoctlReply>, c: nat): nat
    decreases |q|
  {
    if c >= plan.Total() || q == [] then 0
    else if q[0].Ok? then (if DequeuesAt(plan.first, plan.frames, c) then 1 else 0) + Polls(plan, q[1..], c + 1)
    else (if q[0].errno == EAGAIN then 1 else 0) + Polls(plan, q[1..], c)
  }

  /** The same for read(): `r` successes, with any number of EAGAIN between them. */
  predicate ReadsServe(q: seq<ReadReply>, r: nat) {
    r == 0
    || (q != [] && if q[0].ReadOk? then ReadsServe(q[1..], r - 1) else q[0].errno == EAGAIN && ReadsServe(q[1..], r))
  }

  function ReadPolls(q: seq<ReadReply>, r: nat): nat {
    if r == 0 || q == [] then 0 else 1 + ReadPolls(q[1..], if q[0].ReadOk? then r - 1 else r)
  }

  /** select answers ready `r` times, with nothing but interruptions between. */
  predicate Wakes(q: seq<SelectReply>, r: nat) {
    r == 0
    || (q != [] && if q[0].Ready? then Wakes(q[1..], r - 1) else q[0] == SelectFailed(EINTR) && Wakes(q[1..], r))
  }

  /** Of `polls` rounds of the frame loop, `awake` have their select behind them. */
  predicate WakesFor(q: seq<SelectReply>, polls: nat, awake: nat) {
    awake <= polls && Wakes(q, polls - awake)
  }

  /** From the first call to the last. */
  ghost predicate Carries(io: IoMethod, bufs: seq<Buffer>, plan: Plan, q: seq<IoctlReply>,
                          readScript: seq<ReadReply>, selects: seq<SelectReply>)
  {
    if io.Read? then ReadsServe(readScript, plan.images) && Wakes(selects, ReadPolls(readScript, plan.images))
    else Serves(io, bufs, plan, q, 0) && Wakes(selects, Polls(plan, q, 0))
  }

  /** The first `m` requests for memory are granted. */
  predicate AllGranted(grants: seq<Option<nat>>, m: nat) {
    m <= |grants| && forall i | 0 <= i < m :: grants[i].Some?
  }

  /** init_device gets its buffers: at least two mappings, or what it asks for. */
  predicate SetupSucceeds(io: IoMethod, q: seq<IoctlReply>, grants: seq<Option<nat>>) {
    match io
    case Read => AllGranted(grants, 2)
    case Mmap =>
      && Answers(q) != [] && Answers(q)[0].count >= 2
      && Succeed(q, 1 + Answers(q)[0].count) && AllGranted(grants, 1 + Answers(q)[0].count)
    case UserPtr => Succeed(q, 1) && AllGranted(grants, 5)
  }

  /** munmap succeeds for `n` buffers; free always does. */
  predicate Unmaps(io: IoMethod, unmaps: seq<bool>, n: nat) {
    io.Mmap? ==> n <= |unmaps| && forall i | 0 <= i < n :: unmaps[i]
  }

  /** Everything a process meets in its environment. */
  datatype Scripts = Scripts(
    ioctls: seq<IoctlReply>,
    selects: seq<SelectReply>,
    readReplies: seq<ReadReply>,
    grants: seq<Option<nat>>,
    unmaps: seq<bool>)

  /**
   * The environment lets a capture of `f` frames come to its end: memory, mappings and the setup
   * ioctls are granted, every further call or read is answered in the end, a DQBUF by a buffer
   * that is known, select wakes the loop for every attempt, and munmap succeeds.
   */
  ghost predicate WillReturn(io: IoMethod, e: Scripts, f: nat, sizeimage: nat) {
    var bufs := Allocated(io, Answers(e.ioctls), e.grants, sizeimage);
    && SetupSucceeds(io, e.ioctls, e.grants)
    && Carries(io, bufs, Plan(|bufs| + 1, f, f), Rest(e.ioctls, SetupCalls(io, |bufs|)), e.readReplies, e.selects)
    && Unmaps(io, e.unmaps, |bufs|)
  }

  lemma GrantedSplit(grants: seq<Option<nat>>, a: nat, b: nat)
    requires a <= |grants|
    ensures AllGranted(grants, a + b) <==> AllGranted(grants, a) && AllGranted(grants[a..], b)
  {
    assert forall i | 0 <= i < |grants| - a :: grants[a..][i] == grants[a + i];
    if AllGranted(grants, a) && AllGranted(grants[a..], b) {
      forall i | 0 <= i < a + b ensures grants[i].Some? {
        assert i >= a ==> grants[a..][i - a].Some?;
      }
    }
  }

  lemma {:induction false} AnswersOfRest(q: seq<IoctlReply>, m: nat)
    requires Succeed(q, m)
    ensures m <= |Answers(q)| && Answers(Rest(q, m)) == Answers(q)[m..]
  {
    if m > 0 {
      AnswersOfRest(q[1..], if q[0].Ok? then m - 1 else m);
    }
  }

  /** One call and one grant more of `count`, and the mapping they give. */
  lemma NextSetup(q: seq<IoctlReply>, grants: seq<Option<nat>>, n: nat, count: nat)
    requires n < count && n <= |grants| && Succeed(q, n) && AllGranted(grants, n)
    ensures Succeed(q, n + 1) <==> Succeed(Rest(q, n), 1)
    ensures Rest(q, n + 1) == Rest(Rest(q, n), 1)
    ensures AllGranted(grants, n + 1) <==> AllGranted(grants[n..], 1)
    ensures Succeed(q, count) ==> Succeed(q, n + 1)
    ensures AllGranted(grants, count) ==> AllGranted(grants, n + 1)
    ensures grants[n..] != [] ==> n < |grants| && grants[n..][1..] == grants[n + 1..]
    ensures grants[n..] != [] && Answers(Rest(q, n)) != [] ==>
              var b := Buffer(Granted(grants[n..], 0), Answers(Rest(q, n))[0].length);
              Mappings(grants, Answers(q), n + 1) == Mappings(grants, Answers(q), n) + [b]
  {
    SucceedSplit(q, n, 1);
    SucceedSplit(q, n + 1, count - n - 1);
    GrantedSplit(grants, n, 1);
    AnswersOfRest(q, n);
    if grants[n..] != [] && Answers(Rest(q, n)) != [] {
      OneMapping(grants, Answers(q), n);
    }
  }

  lemma MmapSetup(q: seq<IoctlReply>, grants: seq<Option<nat>>, n: nat)
    requires Succeed(q, 1) ==> Answers(q) != [] && Answers(q)[0].count == n
    ensures SetupSucceeds(Mmap, q, grants) <==>
              && Succeed(q, 1) && n >= 2 && Succeed(Rest(q, 1), n)
              && AllGranted(grants, 1) && AllGranted(grants[1..], n)
    ensures Rest(q, 1 + n) == Rest(Rest(q, 1), n)
  {
    SucceedSplit(q, 1, n);
    if Answers(q) != [] {
      SucceedSplit(q, 1, Answers(q)[0].count);
    }
    if grants != [] {
      GrantedSplit(grants, 1, n);
    }
  }

  lemma {:induction false} OneCall(q: seq<IoctlReply>)
    ensures Succeed(q, 1) <==> Interruptions(q) < |q| && q[Interruptions(q)].Ok?
    ensures Succeed(q, 1) ==> Rest(q, 1) == q[Interruptions(q) + 1..]
    ensures Succeed(q, 1) ==> Answers(q) != [] && Answers(q)[0] == q[Interruptions(q)].arg
  {
    if q != [] && q[0] == IoctlFailed(EINTR) {
      OneCall(q[1..]);
    }
  }

  lemma {:induction false} SucceedSplit(q: seq<IoctlReply>, a: nat, b: nat)
    ensures Succeed(q, a + b) <==> Succeed(q, a) && Succeed(Rest(q, a), b)
    ensures Rest(q, a + b) == Rest(Rest(q, a), b)
  {
    if a > 0 && q != [] {
      SucceedSplit(q[1..], if q[0].Ok? then a - 1 else a, b);
    }
  }

  /** A call that is no DQBUF. */
  lemma {:induction false} PlainCall(io: IoMethod, bufs: seq<Buffer>, plan: Plan, q: seq<IoctlReply>, c: nat)
    requires c < plan.Total() && !DequeuesAt(plan.first, plan.frames, c)
    ensures Serves(io, bufs, plan, q, c) <==> Succeed(q, 1) && Serves(io, bufs, plan, Rest(q, 1), c + 1)
    ensures Succeed(q, 1) ==> Polls(plan, q, c) == Polls(plan, Rest(q, 1), c + 1)
    decreases |q|
  {
    if q != [] && !q[0].Ok? {
      PlainCall(io, bufs, plan, q[1..], c);
    }
  }

  lemma {:induction false} SkipInterruptions(io: IoMethod, bufs: seq<Buffer>, plan: Plan, q: seq<IoctlReply>, c: nat)
    requires c < plan.Total()
    ensures Serves(io, bufs, plan, q, c) <==> Serves(io, bufs, plan, q[Interruptions(q)..], c)
    ensures Polls(plan, q, c) == Polls(plan, q[Interruptions(q)..], c)
    decreases |q|
  {
    if q != [] && q[0] == IoctlFailed(EINTR) {
      SkipInterruptions(io, bufs, plan, q[1..], c);
      assert q[1..][Interruptions(q[1..])..] == q[Interruptions(q)..];
    }
  }

  /** A DQBUF, whose answer is the first that is not an interruption. */
  lemma FrameCall(io: IoMethod, bufs: seq<Buffer>, plan: Plan, q: seq<IoctlReply>, c: nat)
    requires DequeuesAt(plan.first, plan.frames, c)
    ensures var k := Interruptions(q);
            if k == |q| then !Serves(io, bufs, plan, q, c)
            else if q[k].Ok? then
              && Polls(plan, q, c) == 1 + Polls(plan, q[k + 1..], c + 1)
              && (Serves(io, bufs, plan, q, c) <==>
                    Recognised(io, bufs, q[k].arg) && Serves(io, bufs, plan, q[k + 1..], c + 1))
            else if q[k].errno == EAGAIN then
              && Polls(plan, q, c) == 1 + Polls(plan, q[k + 1..], c)
              && (Serves(io, bufs, plan, q, c) <==> Serves(io, bufs, plan, q[k + 1..], c))
            else !Serves(io, bufs, plan, q, c)
  {
    var k := Interruptions(q);
    SkipInterruptions(io, bufs, plan, q, c);
    if k < |q| {
      assert q[k..][0] == q[k] && q[k..][1..] == q[k + 1..];
    }
  }

  /** The leading reads that are told to try again. */
  function LeadingAgains(q: seq<ReadReply>): (k: nat)
    ensures k <= |q| && forall i | 0 <= i < k :: q[i] == ReadFailed(EAGAIN)
    ensures k < |q| ==> q[k] != ReadFailed(EAGAIN)
  {
    if q != [] && q[0] == ReadFailed(EAGAIN) then
      var k := LeadingAgains(q[1..]);
      assert forall i | 1 <= i < k + 1 :: q[i] == q[1..][i - 1];
      k + 1
    else 0
  }

  /**
   * A read, as FrameCall for DQBUF: every EAGAIN before it is skipped and costs one attempt of the
   * loop; then it must succeed, and any other failure is never served.
   */
  lemma {:induction false} ReadCall(q: seq<ReadReply>, r: nat)
    requires r > 0
    ensures var k := LeadingAgains(q);
            if k == |q| || !q[k].ReadOk? then !ReadsServe(q, r)
            else
              && ReadPolls(q, r) == k + 1 + ReadPolls(q[k + 1..], r - 1)
              && (ReadsServe(q, r) <==> ReadsServe(q[k + 1..], r - 1))
  {
    if q != [] && q[0] == ReadFailed(EAGAIN) {
      ReadCall(q[1..], r);
      var k := LeadingAgains(q[1..]);
      if k < |q[1..]| {
        assert q[1..][k] == q[k + 1] && q[1..][k + 1..] == q[k + 2..];
      }
    }
  }

  function ReadOks(q: seq<ReadReply>): nat {
    if q == [] then 0 else (if q[0].ReadOk? then 1 else 0) + ReadOks(q[1..])
  }

  /** The first `m` reads succeed `r` times and are told to try again otherwise. */
  ghost predicate ReadsWithin(q: seq<ReadReply>, m: nat, r: nat) {
    && m <= |q| && ReadOks(q[..m]) == r
    && forall i | 0 <= i < m :: q[i].ReadOk? || q[i] == ReadFailed(EAGAIN)
  }

  /** What it means to serve `r` reads, without recursion: some front of the script holds exactly them. */
  lemma {:induction false} ReadsServeIff(q: seq<ReadReply>, r: nat)
    ensures ReadsServe(q, r) <==> exists m: nat :: ReadsWithin(q, m, r)
  {
    if r == 0 {
      assert ReadsWithin(q, 0, 0);
    } else if q != [] && (q[0].ReadOk? || q[0] == ReadFailed(EAGAIN)) {
      var rest := if q[0].ReadOk? then r - 1 else r;
      ReadsServeIff(q[1..], rest);
      if m: nat :| ReadsWithin(q, m, r) {
        ReadsWithinShift(q, m - 1, r);
      } else if m: nat :| ReadsWithin(q[1..], m, rest) {
        ReadsWithinShift(q, m, r);
      }
    }
  }

  lemma ReadsWithinShift(q: seq<ReadReply>, m: nat, r: nat)
    requires q != [] && r > 0 && (q[0].ReadOk? || q[0] == ReadFailed(EAGAIN))
    ensures ReadsWithin(q, m + 1, r) <==> ReadsWithin(q[1..], m, if q[0].ReadOk? then r - 1 else r)
  {
    if m < |q| {
      assert q[..m + 1][1..] == q[1..][..m];
      assert forall i | 0 <= i < m :: q[1..][i] == q[i + 1];
      assert forall i | 1 <= i < m + 1 :: q[i] == q[1..][i - 1];
    }
  }

  function ReadyCount(q: seq<SelectReply>): nat {
    if q == [] then 0 else (if q[0].Ready? then 1 else 0) + ReadyCount(q[1..])
  }

  /** The first `m` selects are ready `r` times and interrupted otherwise. */
  ghost predicate WakesWithin(q: seq<SelectReply>, m: nat, r: nat) {
    && m <= |q| && ReadyCount(q[..m]) == r
    && forall i | 0 <= i < m :: q[i].Ready? || q[i] == SelectFailed(EINTR)
  }

  /** The same for select: no timeout and no failure before the `r`-th ready answer. */
  lemma {:induction false} WakesIff(q: seq<SelectReply>, r: nat)
    ensures Wakes(q, r) <==> exists m: nat :: WakesWithin(q, m, r)
  {
    if r == 0 {
      assert WakesWithin(q, 0, 0);
    } else if q != [] && (q[0].Ready? || q[0] == SelectFailed(EINTR)) {
      var rest := if q[0].Ready? then r - 1 else r;
      WakesIff(q[1..], rest);
      if m: nat :| WakesWithin(q, m, r) {
        WakesWithinShift(q, m - 1, r);
      } else if m: nat :| WakesWithin(q[1..], m, rest) {
        WakesWithinShift(q, m, r);
      }
    }
  }

  lemma WakesWithinShift(q: seq<SelectReply>, m: nat, r: nat)
    requires q != [] && r > 0 && (q[0].Ready? || q[0] == SelectFailed(EINTR))
    ensures WakesWithin(q, m + 1, r) <==> WakesWithin(q[1..], m, if q[0].Ready? then r - 1 else r)
  {
    if m < |q| {
      assert q[..m + 1][1..] == q[1..][..m];
      assert forall i | 0 <= i < m :: q[1..][i] == q[i + 1];
      assert forall i | 1 <= i < m + 1 :: q[i] == q[1..][i - 1];
    }
  }

  function Resources(bufs: seq<Buffer>): set<Buffer> {
    set b | b in bufs
  }

  /** Buffers at different addresses are different resources. */
  lemma FirstResource(bufs: seq<Buffer>, i: nat)
    requires DistinctStarts(bufs) && i < |bufs|
    ensures Resources(bufs[i..]) == {bufs[i]} + Resources(bufs[i + 1..]) && bufs[i] !in Resources(bufs[i + 1..])
  {
    assert bufs[i..] == [bufs[i]] + bufs[i + 1..];
    assert forall k | i < k < |bufs| :: bufs[k].start != bufs[i].start;
  }
}
