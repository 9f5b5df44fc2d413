/**
 * The grabber process and the driver together: a whole capture, from the setup of the buffers to
 * their release, whose streaming ioctls are answered by a run of the protocol.
 */
module EndToEnd {
  import opened Arithmetic
  import opened FrameFormat
  import opened FakeVidDriver
  import opened Streaming
  import opened GrabberSession
  import opened GrabberScripts
  import opened Grabber

  // ---------------------------------------------------------------- frames and calls of a run

  /** Call number c0 + 2k is the DQBUF of buffer `b`. */
  ghost predicate DqbufAt(calls: seq<Call>, c0: nat, k: nat, b: nat) {
    c0 + 2 * k < |calls| && calls[c0 + 2 * k] == DqbufCall(b)
  }

  /** Frame `k` of the session is DQBUF number `k`, which is call n + 1 + 2k. */
  ghost predicate DequeuedBy(s: State, calls: seq<Call>) {
    forall k: nat | k < |s.taken| :: DqbufAt(calls, |s.planes| + 1, k, s.taken[k].buf)
  }

  lemma DequeuedStep(s: State, step: Step, calls: seq<Call>)
    requires Enabled(s, step) && DequeuedBy(s, calls)
    requires step.Dqbuf? ==> |calls| == |s.planes| + 1 + 2 * |s.taken|
    ensures DequeuedBy(Next(s, step), calls + CallOf(step))
  {
    var after, all := Next(s, step), calls + CallOf(step);
    forall k: nat | k < |after.taken| ensures DqbufAt(all, |s.planes| + 1, k, after.taken[k].buf) {
      assert k < |s.taken| ==> DqbufAt(calls, |s.planes| + 1, k, s.taken[k].buf);
    }
  }

  lemma DqbufPosition(s: State, b: nat, calls: seq<Call>)
    requires Agrees(s, calls) && s.phase.On? && GrabberCalls(|s.planes|, calls + [DqbufCall(b)])
    ensures |calls| == |s.planes| + 1 + 2 * |s.taken|
  {
    assert Follows(|s.planes|, calls + [DqbufCall(b)], |calls|);
  }

  lemma RunPlanes(t: seq<State>, steps: seq<Step>, i: nat)
    requires IsGrabberRun(t, steps) && i < |t|
    ensures t[i].planes == t[0].planes && t[i].byUser == t[0].byUser
  {
    RunInv(t, steps, i);
  }

  lemma RunDqbufPosition(t: seq<State>, steps: seq<Step>, i: nat)
    requires IsGrabberRun(t, steps) && i < |steps| && steps[i].Dqbuf?
    ensures |Calls(steps, i)| == |t[i].planes| + 1 + 2 * |t[i].taken|
  {
    RunPlanes(t, steps, i);
    RunAgreesWithCalls(t, steps, i);
    assert Moves(t, steps, i);
    CallsSoFar(t, steps, i + 1);
    DqbufPosition(t[i], steps[i].buf, Calls(steps, i));
  }

  lemma {:induction false} FramesAreDqbufCalls(t: seq<State>, steps: seq<Step>, i: nat)
    requires IsGrabberRun(t, steps) && i < |t|
    ensures DequeuedBy(t[i], Calls(steps, i))
  {
    if i > 0 {
      FramesAreDqbufCalls(t, steps, i - 1);
      assert Moves(t, steps, i - 1);
      if steps[i - 1].Dqbuf? {
        RunDqbufPosition(t, steps, i - 1);
      }
      DequeuedStep(t[i - 1], steps[i - 1], Calls(steps, i - 1));
    }
  }

  /** The DQBUF that is call n + 1 + 2k returns buffer k mod n. */
  lemma DequeuesInTurn(t: seq<State>, steps: seq<Step>, i: nat, k: nat)
    requires IsGrabberRun(t, steps) && i < |steps| && steps[i].Dqbuf?
    requires |Calls(steps, i)| == |t[0].planes| + 1 + 2 * k
    ensures steps[i].buf == k % |t[0].planes|
  {
    RunPlanes(t, steps, i);
    RunDqbufPosition(t, steps, i);
    assert Moves(t, steps, i);
    RoundRobin(t, steps, i + 1);
    assert BufOf(t[i + 1].taken)[k] == steps[i].buf;
  }

  // ---------------------------------------------------------------- a process answered by a run

  /** What DQBUF may answer in a state: the head of the done queue, as it was queued. */
  ghost predicate Replies(s: State, arg: Arg) {
    && s.done != [] && arg.index == s.done[0].buf < |s.planes|
    && arg.index in s.payload && arg.index in s.user
    && arg.bytesused == s.payload[arg.index]
    && arg.length == (if s.byUser then s.user[arg.index].length else s.planes[arg.index])
    && (s.byUser ==> arg.userptr == s.user[arg.index].userptr)
  }

  /** Step `i` of the run is call number `c`, a DQBUF that returns `arg`. */
  ghost predicate AnswersAt(t: seq<State>, steps: seq<Step>, i: nat, c: nat, arg: Arg) {
    i < |steps| && i < |t| && steps[i].Dqbuf? && |Calls(steps, i)| == c && Replies(t[i], arg)
  }

  ghost predicate IsAnswer(t: seq<State>, steps: seq<Step>, c: nat, arg: Arg) {
    exists i: nat :: AnswersAt(t, steps, i, c, arg)
  }

  /**
   * If step `i` is a QBUF, it is the call that the process makes there: in the first round the one
   * of start_capturing, later the structure that the DQBUF just before it has filled in.
   */
  ghost predicate QueuesAt(io: IoMethod, bufs: seq<Buffer>, answers: seq<Arg>, steps: seq<Step>, i: nat) {
    i < |steps| && steps[i].Qbuf? ==>
      var c := |Calls(steps, i)|;
      c < |bufs| || c <= |answers| ==> CallOf(steps[i]) == [GrabberCall(io, bufs, answers, c)]
  }

  /**
   * The first `f` frames of a process with these buffers are answered by the run: the run makes
   * the grabber's calls with the grabber's arguments, the answer to every DQBUF is that of the
   * run, and mapped buffers are as long as their planes.
   */
  ghost predicate AnsweredBy(t: seq<State>, steps: seq<Step>, io: IoMethod, bufs: seq<Buffer>, answers: seq<Arg>,
                             f: nat)
  {
    && IsGrabberRun(t, steps) && |t[0].planes| == |bufs| && t[0].byUser == io.UserPtr?
    && (forall i: nat | i < |steps| :: QueuesAt(io, bufs, answers, steps, i))
    && (!io.UserPtr? ==> forall b: nat | b < |bufs| :: bufs[b].length == t[0].planes[b])
    && forall c: nat | c < |answers| && DequeuesAt(|bufs| + 1, f, c) :: IsAnswer(t, steps, c, answers[c])
  }

  /** Whatever was queued is the process's own memory. */
  ghost predicate OwnMemory(s: State, bufs: seq<Buffer>) {
    forall b: nat | b in s.user :: b < |bufs| && s.user[b] == Queued(bufs[b].start, bufs[b].length)
  }

  /** A QBUF step of the run gives back what the DQBUF before it returned, or is of the first round. */
  lemma QbufCallPosition(steps: seq<Step>, n: nat, k: nat)
    requires GrabberCalls(n, Calls(steps, |steps|)) && k < |steps| && steps[k].Qbuf?
    ensures var all, c := Calls(steps, |steps|), |Calls(steps, k)|;
            c < |all| && (c < n ==> steps[k].buf == c) && c != n
            && (c > n ==> DequeuesAt(n + 1, c, c - 1) && all[c - 1] == DqbufCall(steps[k].buf))
  {
    CallPosition(steps, k);
    assert Follows(n, Calls(steps, |steps|), |Calls(steps, k)|);
  }

  lemma CallsOrdered(steps: seq<Step>, i: nat, k: nat)
    requires i <= |steps| && k <= |steps| && |Calls(steps, i)| < |Calls(steps, k)|
    ensures i < k
  {
    if k <= i {
      CallsPrefix(steps, k, i);
    }
  }

  /** The answer to a DQBUF and the run's call of that number are of the same buffer. */
  lemma AnsweredCall(t: seq<State>, steps: seq<Step>, io: IoMethod, bufs: seq<Buffer>, answers: seq<Arg>,
                     f: nat, c: nat)
    returns (i: nat)
    requires AnsweredBy(t, steps, io, bufs, answers, f) && c < |answers| && DequeuesAt(|bufs| + 1, f, c)
    ensures AnswersAt(t, steps, i, c, answers[c]) && steps[i].buf == answers[c].index
    ensures c < |Calls(steps, |steps|)| && Calls(steps, |steps|)[c] == DqbufCall(answers[c].index)
  {
    assert IsAnswer(t, steps, c, answers[c]);
    i :| AnswersAt(t, steps, i, c, answers[c]);
    assert Moves(t, steps, i);
    CallPosition(steps, i);
  }

  /** A user pointer travels unchanged through every QBUF and DQBUF of the run. */
  lemma {:induction false} QueuedIsOwn(t: seq<State>, steps: seq<Step>, bufs: seq<Buffer>, answers: seq<Arg>,
                                       f: nat, i: nat)
    requires AnsweredBy(t, steps, UserPtr, bufs, answers, f) && i < |t|
    requires |Calls(steps, i)| <= |answers| && |Calls(steps, i)| <= |bufs| + 1 + 2 * f
    ensures OwnMemory(t[i], bufs)
    decreases i
  {
    if i > 0 {
      var k := i - 1;
      QueuedIsOwn(t, steps, bufs, answers, f, k);
      assert Moves(t, steps, k);
      if steps[k].Qbuf? {
        QbufIsOwn(t, steps, bufs, answers, f, k);
      }
    }
  }

  lemma QbufIsOwn(t: seq<State>, steps: seq<Step>, bufs: seq<Buffer>, answers: seq<Arg>, f: nat, k: nat)
    requires AnsweredBy(t, steps, UserPtr, bufs, answers, f) && k < |steps| && steps[k].Qbuf?
    requires |Calls(steps, k)| < |answers| && |Calls(steps, k)| < |bufs| + 1 + 2 * f
    ensures steps[k].buf < |bufs|
    ensures steps[k].userptr == bufs[steps[k].buf].start && steps[k].length == bufs[steps[k].buf].length
    decreases k, 0
  {
    QbufArguments(t, steps, bufs, answers, f, k);
    if |Calls(steps, k)| > |bufs| {
      var i := RequeueSource(t, steps, bufs, answers, f, k);
      QueuedIsOwn(t, steps, bufs, answers, f, i);
      OwnReply(t[i], bufs, answers[|Calls(steps, k)| - 1]);
    }
  }

  /** What a QBUF of the run carries. */
  lemma QbufArguments(t: seq<State>, steps: seq<Step>, bufs: seq<Buffer>, answers: seq<Arg>, f: nat, k: nat)
    requires AnsweredBy(t, steps, UserPtr, bufs, answers, f) && k < |steps| && steps[k].Qbuf?
    requires |Calls(steps, k)| < |answers|
    ensures var c := |Calls(steps, k)|;
            if c <= |bufs| then c == steps[k].buf < |bufs| && Buffer(steps[k].userptr, steps[k].length) == bufs[c]
            else steps[k].userptr == answers[c - 1].userptr && steps[k].length == answers[c - 1].length
  {
    QbufCallPosition(steps, |bufs|, k);
    assert QueuesAt(UserPtr, bufs, answers, steps, k);
  }

  /** The DQBUF whose answer a later QBUF passes on. */
  lemma RequeueSource(t: seq<State>, steps: seq<Step>, bufs: seq<Buffer>, answers: seq<Arg>, f: nat, k: nat)
    returns (i: nat)
    requires AnsweredBy(t, steps, UserPtr, bufs, answers, f) && k < |steps| && steps[k].Qbuf?
    requires |bufs| < |Calls(steps, k)| < |answers| && |Calls(steps, k)| < |bufs| + 1 + 2 * f
    ensures i < k && |Calls(steps, i)| < |Calls(steps, k)| && t[i].byUser
    ensures Replies(t[i], answers[|Calls(steps, k)| - 1]) && answers[|Calls(steps, k)| - 1].index == steps[k].buf
  {
    var c := |Calls(steps, k)|;
    QbufCallPosition(steps, |bufs|, k);
    i := AnsweredCall(t, steps, UserPtr, bufs, answers, f, c - 1);
    CallsOrdered(steps, i, k);
    RunPlanes(t, steps, i);
  }

  lemma OwnReply(s: State, bufs: seq<Buffer>, arg: Arg)
    requires OwnMemory(s, bufs) && Replies(s, arg) && s.byUser
    ensures arg.index < |bufs| && arg.userptr == bufs[arg.index].start && arg.length == bufs[arg.index].length
  {
  }

  /** Whatever the run returns holds one image, in a plane with room for it. */
  lemma RunReply(t: seq<State>, steps: seq<Step>, i: nat, arg: Arg)
    requires IsGrabberRun(t, steps) && i < |t| && Replies(t[i], arg)
    ensures t[i].planes == t[0].planes && t[i].byUser == t[0].byUser
    ensures arg.bytesused == QUEUE_SETUP_SIZE <= PlaneSize(t[i], arg.index)
  {
    RunPlanes(t, steps, i);
    SizesFitInEveryState(t, steps, i);
  }

  /**
   * The answer to call n + 1 + 2k is buffer k mod n, known to the process, with one image in it
   * and room for the image.
   */
  lemma AnswerFits(t: seq<State>, steps: seq<Step>, io: IoMethod, bufs: seq<Buffer>, answers: seq<Arg>, f: nat, k: nat)
    requires AnsweredBy(t, steps, io, bufs, answers, f) && k < f && |bufs| + 1 + 2 * k < |answers|
    ensures var arg, b := answers[|bufs| + 1 + 2 * k], k % |bufs|;
            && arg.index == b && arg.bytesused == QUEUE_SETUP_SIZE <= bufs[b].length
            && (io.UserPtr? ==> arg.userptr == bufs[b].start && arg.length == bufs[b].length)
  {
    var c := |bufs| + 1 + 2 * k;
    assert DequeuesAt(|bufs| + 1, f, c);
    assert IsAnswer(t, steps, c, answers[c]);
    var i: nat :| AnswersAt(t, steps, i, c, answers[c]);
    DequeuesInTurn(t, steps, i, k);
    assert Moves(t, steps, i);
    RunReply(t, steps, i, answers[c]);
    if io.UserPtr? {
      QueuedIsOwn(t, steps, bufs, answers, f, i);
    }
  }

  // ---------------------------------------------------------------- what a capture sees

  lemma AnswerIsRecognised(t: seq<State>, steps: seq<Step>, io: IoMethod, bufs: seq<Buffer>, answers: seq<Arg>,
                           f: nat, c: nat)
    requires AnsweredBy(t, steps, io, bufs, answers, f) && c < |answers| && DequeuesAt(|bufs| + 1, f, c)
    ensures Recognised(io, bufs, answers[c])
  {
    AnswerFits(t, steps, io, bufs, answers, f, (c - |bufs| - 1) / 2);
  }

  /**
   * With buffers at different addresses the search of lines 152-155 stops at exactly one index,
   * the one under which start_capturing queued the buffer: k mod n for frame k.
   */
  lemma LookupFindsQueued(t: seq<State>, steps: seq<Step>, bufs: seq<Buffer>, answers: seq<Arg>, f: nat, k: nat, i: nat)
    requires AnsweredBy(t, steps, UserPtr, bufs, answers, f) && DistinctStarts(bufs)
    requires k < f && |bufs| + 1 + 2 * k < |answers| && i < |bufs|
    ensures var arg := answers[|bufs| + 1 + 2 * k];
            && (Matches(bufs[i], arg) <==> i == arg.index)
            && FirstMatch(bufs, arg) == arg.index == k % |bufs|
  {
    AnswerFits(t, steps, UserPtr, bufs, answers, f, k);
    LookupIsUnique(bufs, answers[|bufs| + 1 + 2 * k], i);
  }

  /** Image `k` was found to be buffer k mod n, lies at its start, is one whole frame, and fits it. */
  ghost predicate InTurn(bufs: seq<Buffer>, images: seq<Image>, k: nat)
    requires bufs != [] && k < |images|
  {
    var b := k % |bufs|;
    images[k].from == b && images[k].start == bufs[b].start && images[k].size == QUEUE_SETUP_SIZE <= bufs[b].length
  }

  lemma ImagesGoRound(t: seq<State>, steps: seq<Step>, io: IoMethod, bufs: seq<Buffer>, answers: seq<Arg>,
                      images: seq<Image>, f: nat)
    requires AnsweredBy(t, steps, io, bufs, answers, f) && !io.Read?
    requires ImagesFrom(io, bufs, answers, |bufs| + 1, images, 0) && |images| <= f && DistinctStarts(bufs)
    ensures forall k: nat | k < |images| :: InTurn(bufs, images, k)
  {
    forall k: nat | k < |images| ensures InTurn(bufs, images, k) {
      assert ImageAt(io, bufs, answers, |bufs| + 1, images, 0, k);
      AnswerFits(t, steps, io, bufs, answers, f, k);
      if io.UserPtr? {
        LookupFindsQueued(t, steps, bufs, answers, f, k, k % |bufs|);
      }
    }
  }

  // ---------------------------------------------------------------- images and completions

  /** Frame `k` of the process had been completed by the thread. */
  lemma FrameIsCompleted(t: seq<State>, steps: seq<Step>, io: IoMethod, bufs: seq<Buffer>, answers: seq<Arg>,
                         f: nat, k: nat)
    returns (i: nat)
    requires AnsweredBy(t, steps, io, bufs, answers, f) && k < f && |bufs| + 1 + 2 * k < |answers|
    ensures i < |t| && t[i].phase.On? && k + 1 == |t[i].taken| <= |Bufs(t[i].drv.returned, Done)|
  {
    var d := AnsweredCall(t, steps, io, bufs, answers, f, |bufs| + 1 + 2 * k);
    i := d + 1;
    RunPlanes(t, steps, d);
    RunDqbufPosition(t, steps, d);
    assert Moves(t, steps, d);
    RunInv(t, steps, i);
    TakenFromAccepted(t[i]);
    assert |BufOf(t[i].taken + t[i].done)| >= |t[i].taken|;
  }

  /** In a session that is on, more calls mean no fewer frames taken. */
  lemma TakenGrows(t: seq<State>, steps: seq<Step>, i: nat, j: nat)
    requires IsGrabberRun(t, steps) && i <= j < |t| && t[i].phase.On? && t[j].phase.On?
    ensures |t[i].taken| <= |t[j].taken|
  {
    RunAgrees(t, steps, i);
    RunAgrees(t, steps, j);
    CallsPrefix(steps, i, j);
    SessionCounts(t[i], Calls(steps, i));
    SessionCounts(t[j], Calls(steps, j));
  }

  /** Where the thread has left, what was taken and what is done are all the frames there will be. */
  ghost predicate BoundAtExit(t: seq<State>, j: nat, frames: nat) {
    j < |t| && t[j].phase.On? && !Runnable(t[j].drv.thread) ==> frames <= |t[j].taken| + |t[j].done|
  }

  /** The thread had completed that many frames at some time. */
  ghost predicate Completed(t: seq<State>, frames: nat) {
    exists i: nat :: i < |t| && frames <= |Bufs(t[i].drv.returned, Done)|
  }

  ghost predicate EndsWithThread(t: seq<State>, frames: nat) {
    (frames > 0 ==> Completed(t, frames)) && forall j: nat :: BoundAtExit(t, j, frames)
  }

  lemma FramesEndWithThread(t: seq<State>, steps: seq<Step>, io: IoMethod, bufs: seq<Buffer>, answers: seq<Arg>,
                            f: nat, frames: nat, j: nat)
    requires AnsweredBy(t, steps, io, bufs, answers, f)
    requires 0 < frames <= f && |bufs| + 2 * frames <= |answers|
    ensures Completed(t, frames) && BoundAtExit(t, j, frames)
  {
    var i := FrameIsCompleted(t, steps, io, bufs, answers, f, frames - 1);
    if j < |t| && t[j].phase.On? && !Runnable(t[j].drv.thread) {
      if j <= i {
        FramesAfterExit(t, steps, j, i);
      } else {
        TakenGrows(t, steps, i, j);
      }
    }
  }

  /**
   * The early exit as the process meets it: it never has more images than the thread completed,
   * and once the thread has left, for whatever reason, no more than were taken or done by then.
   */
  lemma ImagesEndWithThread(t: seq<State>, steps: seq<Step>, io: IoMethod, bufs: seq<Buffer>, answers: seq<Arg>,
                            images: seq<Image>, f: nat)
    requires AnsweredBy(t, steps, io, bufs, answers, f) && !io.Read?
    requires ImagesFrom(io, bufs, answers, |bufs| + 1, images, 0) && |images| <= f
    ensures EndsWithThread(t, |images|)
  {
    if images != [] {
      assert ImageAt(io, bufs, answers, |bufs| + 1, images, 0, |images| - 1);
      FramesEndWithThread(t, steps, io, bufs, answers, f, |images|, 0);
      forall j: nat ensures BoundAtExit(t, j, |images|) {
        FramesEndWithThread(t, steps, io, bufs, answers, f, |images|, j);
      }
    }
  }

  /** Call number `c` of the run is the grabber's. */
  lemma RunCall(t: seq<State>, steps: seq<Step>, io: IoMethod, bufs: seq<Buffer>, answers: seq<Arg>, f: nat, c: nat)
    requires AnsweredBy(t, steps, io, bufs, answers, f)
    requires c < |Calls(steps, |steps|)| && c < |bufs| + 1 + 2 * f && c <= |answers|
    requires DequeuesAt(|bufs| + 1, f, c) ==> c < |answers|
    ensures Calls(steps, |steps|)[c] == GrabberCall(io, bufs, answers, c)
  {
    var n := |bufs|;
    var i := StepOfCall(steps, |steps|, c);
    assert Follows(n, Calls(steps, |steps|), c);
    if DequeuesAt(n + 1, f, c) {
      var _ := AnsweredCall(t, steps, io, bufs, answers, f, c);
    } else if c != n {
      assert QueuesAt(io, bufs, answers, steps, i);
    }
  }

  /** The process has made exactly the calls of the run, with the same arguments, as far as both go. */
  lemma SameCalls(t: seq<State>, steps: seq<Step>, io: IoMethod, bufs: seq<Buffer>, answers: seq<Arg>,
                  calls: seq<Call>, f: nat)
    requires AnsweredBy(t, steps, io, bufs, answers, f)
    requires Paired(Opening(io, bufs), calls, answers, f) && |calls| <= |answers|
    ensures forall c: nat | c < |calls| && c < |Calls(steps, |steps|)| :: calls[c] == Calls(steps, |steps|)[c]
  {
    forall c: nat | c < |calls| && c < |Calls(steps, |steps|)| ensures calls[c] == Calls(steps, |steps|)[c] {
      ProcessCall(io, bufs, calls, answers, f, c);
      RunCall(t, steps, io, bufs, answers, f, c);
    }
  }

  lemma SameCallsUntilStop(t: seq<State>, steps: seq<Step>, io: IoMethod, bufs: seq<Buffer>, answers: seq<Arg>,
                           calls: seq<Call>, f: nat)
    requires AnsweredBy(t, steps, io, bufs, answers, f)
    requires 0 < |calls| <= |answers| && Paired(Opening(io, bufs), calls[..|calls| - 1], answers, f)
    ensures AgreeUntilStop(calls, Calls(steps, |steps|))
  {
    SameCalls(t, steps, io, bufs, answers, calls[..|calls| - 1], f);
  }

  /** All calls before the last are, by number, those of `all`, as far as it goes. */
  ghost predicate AgreeUntilStop(calls: seq<Call>, all: seq<Call>) {
    forall c: nat | c < |calls| - 1 && c < |all| :: calls[c] == all[c]
  }

  lemma AfterLoop(s: State, io: IoMethod, bufs: seq<Buffer>, calls: seq<Call>, answers: seq<Arg>, f: nat)
    requires Agrees(s, calls) && |s.planes| == |bufs| && Paired(Opening(io, bufs), calls, answers, f)
    ensures s.phase.On? && s.app == {} && |s.taken| == f <= |Bufs(s.drv.returned, Done)|
  {
    var n, before := |s.planes|, Opening(io, bufs);
    if f > 0 {
      assert PairAt(calls, answers, n + 1, f - 1);
    } else {
      assert calls[n] == before[n];
    }
  }

  /**
   * Where the frame loop returns, the run stands after the same calls: the process holds no
   * buffer, has seen every frame it dequeued, and the thread completed at least that many.
   */
  lemma LoopEndsIdle(t: seq<State>, steps: seq<Step>, io: IoMethod, bufs: seq<Buffer>, answers: seq<Arg>,
                     calls: seq<Call>, f: nat, i: nat)
    requires AnsweredBy(t, steps, io, bufs, answers, f)
    requires Paired(Opening(io, bufs), calls, answers, f) && |calls| <= |answers|
    requires i < |t| && |Calls(steps, i)| == |calls|
    ensures Calls(steps, i) == calls
    ensures t[i].phase.On? && t[i].app == {} && |t[i].taken| == f <= |Bufs(t[i].drv.returned, Done)|
  {
    CallsPrefix(steps, i, |steps|);
    SameCalls(t, steps, io, bufs, answers, calls, f);
    assert Calls(steps, i) == calls;
    RunAgrees(t, steps, i);
    AfterLoop(t[i], io, bufs, calls, answers, f);
  }

  /** Of the successful answers, those that remain when these buffers have been set up are a run's. */
  ghost predicate AnsweredAfterSetup(t: seq<State>, steps: seq<Step>, io: IoMethod, bufs: seq<Buffer>, all: seq<Arg>,
                                     f: nat)
  {
    var setup := SetupCalls(io, |bufs|);
    setup <= |all| ==> AnsweredBy(t, steps, io, bufs, all[setup..], f)
  }

  /** The process stands behind its setup, with these buffers and the answers that remain. */
  ghost predicate Stands(p: Process, io: IoMethod, bufs: seq<Buffer>, all: seq<Arg>)
    reads p`io, p`buffers, p`nBuffers, p`answers
  {
    && p.io == io && p.buffers == bufs && p.nBuffers == |bufs| && DistinctStarts(bufs)
    && SetupCalls(io, |bufs|) <= |all| && p.answers == all[SetupCalls(io, |bufs|)..]
  }

  /** What a run's answers make of the images. */
  lemma CaptureSees(p: Process, t: seq<State>, steps: seq<Step>, io: IoMethod, bufs: seq<Buffer>, all: seq<Arg>, f: nat)
    requires AnsweredAfterSetup(t, steps, io, bufs, all, f) && !io.Read? && Stands(p, io, bufs, all)
    requires ImagesFrom(p.io, p.buffers, p.answers, |p.buffers| + 1, p.images, 0) && |p.images| <= f
    ensures bufs != [] && forall k: nat | k < |p.images| :: InTurn(p.buffers, p.images, k)
    ensures EndsWithThread(t, |p.images|)
  {
    var answers := all[SetupCalls(io, |bufs|)..];
    ImagesGoRound(t, steps, io, bufs, answers, p.images, f);
    ImagesEndWithThread(t, steps, io, bufs, answers, p.images, f);
  }

  /** What they make of the assertions and the calls. */
  lemma CaptureCalls(p: Process, t: seq<State>, steps: seq<Step>, io: IoMethod, bufs: seq<Buffer>, all: seq<Arg>,
                     f: nat)
    requires AnsweredAfterSetup(t, steps, io, bufs, all, f) && Stands(p, io, bufs, all)
    ensures !p.FailedAssertion(f)
    ensures p.CompleteSession(f) ==> AgreeUntilStop(p.calls, Calls(steps, |steps|))
  {
    var answers := all[SetupCalls(io, |bufs|)..];
    if p.FailedAssertion(f) {
      AnswerIsRecognised(t, steps, io, bufs, answers, f, |p.calls|);
    }
    if p.CompleteSession(f) {
      SameCallsUntilStop(t, steps, io, bufs, answers, p.calls, f);
    }
  }

  /**
   * Everything at once, from init_device to uninit_device: a streaming process whose DQBUFs are
   * answered by a run never fails an assertion; however it ends, every image it has processed is
   * one whole frame inside buffer k mod n, found under that index, and no more than the thread
   * completed before it left; it returns exactly when the environment lets it, and then it has
   * processed frame_count images, given everything back, and made the calls of the run.
   */
  method CaptureFromDriver(p: Process, frameCount: int, sizeimage: nat, ghost t: seq<State>, ghost steps: seq<Step>)
    requires p.fate.Running? && p.Settled() && p.FreshGrants() && p.buffers == [] && p.nBuffers == 0
    requires p.calls == [] && p.images == [] && p.released == [] && p.log == [] && !p.io.Read?
    requires AnsweredAfterSetup(t, steps, p.io, Allocated(p.io, Answers(p.ioctls), p.grants, sizeimage),
                                Answers(p.ioctls), frameCount % U32)
    modifies p
    ensures p.fate != AssertionFailed && p.Settled()
    ensures p.fate.Running? || p.images != [] ==>
              p.SetUp(Answers(old(p.ioctls)), p.answers, old(p.grants), sizeimage) && p.buffers != []
    ensures forall k: nat | k < |p.images| :: InTurn(p.buffers, p.images, k)
    ensures EndsWithThread(t, |p.images|)
    ensures p.fate.Running? <==> WillReturn(p.io, old(p.Environment()), frameCount % U32, sizeimage)
    ensures p.fate.Running? ==> |p.images| == frameCount % U32
    ensures p.fate.Running? ==> p.live == old(p.live) && p.released == p.buffers + [p.table]
    ensures p.fate.Running? ==> p.CompleteSession(frameCount % U32)
    ensures p.fate.Running? ==> AgreeUntilStop(p.calls, Calls(steps, |steps|))
  {
    ghost var io, all, f := p.io, Answers(p.ioctls), frameCount % U32;
    ghost var bufs := Allocated(io, all, p.grants, sizeimage);
    p.CaptureRun(frameCount, sizeimage);
    if p.fate.Running? || p.fate == AssertionFailed || p.images != [] {
      CaptureSees(p, t, steps, io, bufs, all, f);
      CaptureCalls(p, t, steps, io, bufs, all, f);
    }
  }
}
