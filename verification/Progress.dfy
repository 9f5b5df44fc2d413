/**
 * Runs in which the frames flow: for every number of buffers that hold an image, either streaming
 * method and every number of frames there is a run of the protocol that serves them all.
 */
module Progress {
  import opened Wrappers
  import opened FrameFormat
  import opened FakeVidDriver
  import opened Streaming
  import opened GrabberSession
  import opened GrabberScripts
  import opened EndToEnd

  /** Step `i` is made and answered as between the grabber and the driver. */
  ghost predicate Served(t: seq<State>, steps: seq<Step>, i: nat, io: IoMethod, bufs: seq<Buffer>, answers: seq<Arg>) {
    && QueuesAt(io, bufs, answers, steps, i)
    && (i < |steps| && i < |t| && steps[i].Dqbuf? ==>
          |Calls(steps, i)| < |answers| && Replies(t[i], answers[|Calls(steps, i)|]))
  }

  ghost predicate Setting(s: State, io: IoMethod, bufs: seq<Buffer>) {
    && |s.planes| == |bufs| > 0 && s.byUser == io.UserPtr?
    && (!io.UserPtr? ==> forall b: nat | b < |bufs| :: bufs[b].length == s.planes[b])
  }

  /** A run so far, with the grabber's calls and an answer for each of them. */
  ghost predicate Service(t: seq<State>, steps: seq<Step>, io: IoMethod, bufs: seq<Buffer>, answers: seq<Arg>) {
    && IsGrabberRun(t, steps) && Setting(t[0], io, bufs)
    && |Calls(steps, |steps|)| == |answers|
    && forall i: nat | i < |steps| :: Served(t, steps, i, io, bufs, answers)
  }

  // ---------------------------------------------------------------- one step more

  lemma {:induction false} CallsOfPrefix(steps: seq<Step>, step: Step, i: nat)
    requires i <= |steps|
    ensures Calls(steps + [step], i) == Calls(steps, i)
  {
    if i > 0 {
      CallsOfPrefix(steps, step, i - 1);
      assert (steps + [step])[i - 1] == steps[i - 1];
    }
  }

  lemma ExtendRun(t: seq<State>, steps: seq<Step>, step: Step)
    requires IsRun(t, steps) && Enabled(t[|steps|], step)
    ensures IsRun(t + [Next(t[|steps|], step)], steps + [step])
  {
    var t', steps' := t + [Next(t[|steps|], step)], steps + [step];
    forall i: nat | i < |steps'| ensures Moves(t', steps', i) {
      if i < |steps| {
        assert Moves(t, steps, i);
      }
    }
  }

  lemma ExtendCalls(n: nat, calls: seq<Call>, more: seq<Call>)
    requires GrabberCalls(n, calls) && |more| <= 1
    requires more != [] ==> Follows(n, calls + more, |calls|)
    ensures GrabberCalls(n, calls + more)
  {
    forall k: nat | k < |calls + more| ensures Follows(n, calls + more, k) {
      if k < |calls| {
        assert Follows(n, calls, k);
      }
    }
  }

  lemma ExtendServed(t: seq<State>, steps: seq<Step>, s: State, step: Step, io: IoMethod, bufs: seq<Buffer>,
                     answers: seq<Arg>, more: seq<Arg>, i: nat)
    requires i < |steps| < |t| && Served(t, steps, i, io, bufs, answers) && |Calls(steps, i)| <= |answers|
    ensures Served(t + [s], steps + [step], i, io, bufs, answers + more)
  {
    CallsOfPrefix(steps, step, i);
  }

  /** What a further step must satisfy for the service to go on. */
  ghost predicate Fitting(t: seq<State>, steps: seq<Step>, step: Step, io: IoMethod, bufs: seq<Buffer>,
                          answers: seq<Arg>, more: seq<Arg>)
    requires |t| == |steps| + 1
  {
    && Enabled(t[|steps|], step) && step != StreamOn(false) && |more| == |CallOf(step)| <= 1
    && (CallOf(step) != [] ==> Follows(|bufs|, Calls(steps, |steps|) + CallOf(step), |Calls(steps, |steps|)|))
    && Served(t, steps + [step], |steps|, io, bufs, answers + more)
  }

  lemma Extend(t: seq<State>, steps: seq<Step>, io: IoMethod, bufs: seq<Buffer>, answers: seq<Arg>, step: Step,
               more: seq<Arg>)
    requires Service(t, steps, io, bufs, answers) && |Calls(steps, |steps|)| == |answers|
    requires Fitting(t, steps, step, io, bufs, answers, more)
    ensures Service(t + [Next(t[|steps|], step)], steps + [step], io, bufs, answers + more)
  {
    var s := Next(t[|steps|], step);
    var t', steps' := t + [s], steps + [step];
    ExtendRun(t, steps, step);
    CallsOfPrefix(steps, step, |steps|);
    ExtendCalls(|bufs|, Calls(steps, |steps|), CallOf(step));
    forall i: nat | i < |steps'| ensures Served(t', steps', i, io, bufs, answers + more) {
      if i < |steps| {
        CallsPrefix(steps, i, |steps|);
        ExtendServed(t, steps, s, step, io, bufs, answers, more, i);
      } else {
        assert t'[i] == t[i];
      }
    }
  }

  // ---------------------------------------------------------------- the first round

  /** Buffers that hold an image, for one of the two streaming methods. */
  ghost predicate Usable(io: IoMethod, bufs: seq<Buffer>) {
    !io.Read? && bufs != [] && forall b: nat | b < |bufs| :: bufs[b].length >= QUEUE_SETUP_SIZE
  }

  lemma RunKeepsSetting(t: seq<State>, steps: seq<Step>, io: IoMethod, bufs: seq<Buffer>, answers: seq<Arg>)
    requires Service(t, steps, io, bufs, answers)
    ensures Setting(t[|steps|], io, bufs) && Inv(t[|steps|]) && Agrees(t[|steps|], Calls(steps, |steps|))
  {
    RunInv(t, steps, |steps|);
    RunAgrees(t, steps, |steps|);
  }

  lemma QueueNext(s: State, io: IoMethod, bufs: seq<Buffer>, k: nat)
    requires Setting(s, io, bufs) && Usable(io, bufs) && Filling(s, k) && k < |bufs|
    ensures Enabled(s, FirstStep(io, bufs, k))
  {
  }

  /** The QBUF of start_capturing as a step. */
  function FirstStep(io: IoMethod, bufs: seq<Buffer>, k: nat): (step: Step)
    requires k < |bufs|
    ensures CallOf(step) == [FirstQbuf(io, bufs, k)]
  {
    if io.UserPtr? then Qbuf(k, bufs[k].start, bufs[k].length) else Qbuf(k, 0, 0)
  }

  const NO_ARG: Arg := Arg(0, 0, 0, 0, 0)

  lemma {:induction false} FirstRound(io: IoMethod, bufs: seq<Buffer>, planes: seq<nat>, k: nat)
    returns (t: seq<State>, steps: seq<Step>, answers: seq<Arg>)
    requires Usable(io, bufs) && k <= |bufs| && Setting(Initial(io.UserPtr?, planes), io, bufs)
    ensures Service(t, steps, io, bufs, answers) && |answers| == k && t[0].planes == planes
  {
    if k == 0 {
      t, steps, answers := [Initial(io.UserPtr?, planes)], [], [];
    } else {
      t, steps, answers := FirstRound(io, bufs, planes, k - 1);
      var step := QueueOne(t, steps, io, bufs, answers);
      t, steps, answers := t + [Next(t[|steps|], step)], steps + [step], answers + [NO_ARG];
    }
  }

  lemma QueueOne(t: seq<State>, steps: seq<Step>, io: IoMethod, bufs: seq<Buffer>, answers: seq<Arg>)
    returns (step: Step)
    requires Service(t, steps, io, bufs, answers) && Usable(io, bufs) && |answers| < |bufs|
    ensures Enabled(t[|steps|], step)
    ensures Service(t + [Next(t[|steps|], step)], steps + [step], io, bufs, answers + [NO_ARG])
  {
    RunKeepsSetting(t, steps, io, bufs, answers);
    QueueNext(t[|steps|], io, bufs, |answers|);
    step := FirstStep(io, bufs, |answers|);
    CallsOfPrefix(steps, step, |steps|);
    Extend(t, steps, io, bufs, answers, step, [NO_ARG]);
  }

  // ---------------------------------------------------------------- a frame

  /** Streaming, the thread at the head of its loop with a buffer to fill, nothing done. */
  ghost predicate Poised(s: State) {
    && s.phase.On? && s.drv.thread.CheckStop? && !s.drv.stopping
    && s.drv.active != [] && s.done == []
  }

  /** And nothing held. */
  ghost predicate Ready(s: State) {
    Poised(s) && s.app == {}
  }

  lemma StartIsReady(s: State, n: nat)
    requires Filling(s, n) && n == |s.planes| > 0 && PhaseShape(s)
    ensures Enabled(s, StreamOn(true)) && Ready(Next(s, StreamOn(true)))
  {
    assert s.app == {};
  }

  lemma Started(io: IoMethod, bufs: seq<Buffer>, planes: seq<nat>)
    returns (t: seq<State>, steps: seq<Step>, answers: seq<Arg>)
    requires Usable(io, bufs) && Setting(Initial(io.UserPtr?, planes), io, bufs)
    ensures Service(t, steps, io, bufs, answers) && |answers| == |bufs| + 1 && Ready(t[|steps|])
    ensures t[0].planes == planes
  {
    t, steps, answers := FirstRound(io, bufs, planes, |bufs|);
    StartNow(t, steps, io, bufs, answers);
    t, steps, answers := t + [Next(t[|steps|], StreamOn(true))], steps + [StreamOn(true)], answers + [NO_ARG];
  }

  lemma StartNow(t: seq<State>, steps: seq<Step>, io: IoMethod, bufs: seq<Buffer>, answers: seq<Arg>)
    requires Service(t, steps, io, bufs, answers) && |answers| == |bufs|
    ensures Enabled(t[|steps|], StreamOn(true)) && Ready(Next(t[|steps|], StreamOn(true)))
    ensures Service(t + [Next(t[|steps|], StreamOn(true))], steps + [StreamOn(true)], io, bufs, answers + [NO_ARG])
  {
    RunKeepsSetting(t, steps, io, bufs, answers);
    StartIsReady(t[|steps|], |bufs|);
    Extend(t, steps, io, bufs, answers, StreamOn(true), [NO_ARG]);
  }

  /** The state after the thread alone has moved `k` times. */
  function ThreadRuns(s: State, k: nat): State
    decreases k
  {
    if k == 0 || !Runnable(s.drv.thread) then s else ThreadRuns(Next(s, Thread(true)), k - 1)
  }

  function Completed(s: State, head: Return): State
    requires s.drv.active != []
  {
    s.(drv := s.drv.(active := s.drv.active[1..], returned := s.drv.returned + [head]), done := [head])
  }

  lemma TurnCompletes(s: State)
    requires Poised(s)
    ensures ThreadRuns(s, 6) == Completed(s, Return(s.drv.active[0], Done))
  {
    var s1 := Next(s, Thread(true));
    var s2 := Next(s1, Thread(true));
    var s3 := Next(s2, Thread(true));
    assert ThreadRuns(s, 6) == ThreadRuns(s3, 3);
    var s4 := Next(s3, Thread(true));
    var s5 := Next(s4, Thread(true));
    assert ThreadRuns(s3, 3) == Next(s5, Thread(true));
  }

  lemma {:induction false} LetThreadRun(t: seq<State>, steps: seq<Step>, io: IoMethod, bufs: seq<Buffer>,
                                        answers: seq<Arg>, k: nat)
    returns (t': seq<State>, steps': seq<Step>)
    requires Service(t, steps, io, bufs, answers)
    ensures Service(t', steps', io, bufs, answers) && t'[|steps'|] == ThreadRuns(t[|steps|], k) && t'[0] == t[0]
    decreases k
  {
    if k == 0 || !Runnable(t[|steps|].drv.thread) {
      t', steps' := t, steps;
    } else {
      Extend(t, steps, io, bufs, answers, Thread(true), []);
      assert answers + [] == answers;
      t', steps' := t + [Next(t[|steps|], Thread(true))], steps + [Thread(true)];
      t', steps' := LetThreadRun(t', steps', io, bufs, answers, k - 1);
    }
  }

  /** What DQBUF answers. */
  function Reply(s: State): Arg
    requires s.done != [] && s.done[0].buf in s.user && s.done[0].buf in s.payload && s.done[0].buf < |s.planes|
  {
    var b := s.done[0].buf;
    Arg(b, s.user[b].userptr, if s.byUser then s.user[b].length else s.planes[b], s.payload[b], 0)
  }

  /** With nothing held while streaming, the next call of the grabber may be a DQBUF. */
  lemma DqbufFollows(s: State, calls: seq<Call>, b: nat)
    requires Agrees(s, calls) && s.phase.On? && s.app == {}
    ensures Follows(|s.planes|, calls + [DqbufCall(b)], |calls|)
  {
  }

  lemma QbufFollows(s: State, calls: seq<Call>, b: nat, u: nat, len: nat)
    requires Agrees(s, calls) && s.phase.On? && s.app == {b}
    ensures |calls| > |s.planes| && Follows(|s.planes|, calls + [QbufCall(b, u, len)], |calls|)
  {
    assert b in s.app;
  }

  /** The memory an answer describes passes buf_prepare. */
  ghost predicate HoldsImage(s: State, arg: Arg) {
    arg.index < |s.planes| && QUEUE_SETUP_SIZE <= arg.length && (!s.byUser ==> arg.length == s.planes[arg.index])
  }

  lemma RequeueEnabled(s: State, arg: Arg)
    requires s.phase.On? && s.app == {arg.index} && HoldsImage(s, arg)
    ensures Enabled(s, Qbuf(arg.index, arg.userptr, arg.length))
  {
  }

  lemma RequeueServed(t: seq<State>, steps: seq<Step>, io: IoMethod, bufs: seq<Buffer>, answers: seq<Arg>,
                      more: seq<Arg>)
    requires |Calls(steps, |steps|)| == |answers| > |bufs| && (|answers| - |bufs|) % 2 == 0
    ensures var arg := answers[|answers| - 1];
            Served(t, steps + [Qbuf(arg.index, arg.userptr, arg.length)], |steps|, io, bufs, answers + more)
  {
    var arg := answers[|answers| - 1];
    CallsOfPrefix(steps, Qbuf(arg.index, arg.userptr, arg.length), |steps|);
  }

  /** A frame is there: DQBUF returns it. */
  lemma Dequeue(t: seq<State>, steps: seq<Step>, io: IoMethod, bufs: seq<Buffer>, answers: seq<Arg>)
    returns (step: Step, arg: Arg)
    requires Service(t, steps, io, bufs, answers)
    requires t[|steps|].phase.On? && t[|steps|].app == {} && |t[|steps|].done| == 1
    ensures step == Dqbuf(arg.index) && Enabled(t[|steps|], step) && HoldsImage(t[|steps|], arg)
    ensures Service(t + [Next(t[|steps|], step)], steps + [step], io, bufs, answers + [arg])
  {
    var s := t[|steps|];
    RunKeepsSetting(t, steps, io, bufs, answers);
    DoneFits(s);
    arg := Reply(s);
    step := Dqbuf(arg.index);
    DqbufFollows(s, Calls(steps, |steps|), arg.index);
    CallsOfPrefix(steps, step, |steps|);
    Extend(t, steps, io, bufs, answers, step, [arg]);
  }

  /** The buffer is queued again, as it was returned. */
  lemma Requeue(t: seq<State>, steps: seq<Step>, io: IoMethod, bufs: seq<Buffer>, answers: seq<Arg>, arg: Arg)
    returns (step: Step)
    requires Service(t, steps, io, bufs, answers) && answers != [] && arg == answers[|answers| - 1]
    requires t[|steps|].phase.On? && t[|steps|].app == {arg.index} && HoldsImage(t[|steps|], arg)
    ensures step == Qbuf(arg.index, arg.userptr, arg.length) && Enabled(t[|steps|], step)
    ensures Service(t + [Next(t[|steps|], step)], steps + [step], io, bufs, answers + [NO_ARG])
  {
    RunKeepsSetting(t, steps, io, bufs, answers);
    step := Qbuf(arg.index, arg.userptr, arg.length);
    RequeueEnabled(t[|steps|], arg);
    QbufFollows(t[|steps|], Calls(steps, |steps|), arg.index, arg.userptr, arg.length);
    RequeueServed(t, steps, io, bufs, answers, [NO_ARG]);
    Extend(t, steps, io, bufs, answers, step, [NO_ARG]);
  }

  /** One frame more: a turn of the thread, a DQBUF and a QBUF lead back to where they began. */
  lemma OneFrame(t: seq<State>, steps: seq<Step>, io: IoMethod, bufs: seq<Buffer>, answers: seq<Arg>)
    returns (t': seq<State>, steps': seq<Step>, answers': seq<Arg>)
    requires Service(t, steps, io, bufs, answers) && Ready(t[|steps|])
    ensures Service(t', steps', io, bufs, answers') && Ready(t'[|steps'|]) && |answers'| == |answers| + 2
    ensures t'[0] == t[0]
  {
    TurnCompletes(t[|steps|]);
    t', steps' := LetThreadRun(t, steps, io, bufs, answers, 6);
    var dqbuf, arg := Dequeue(t', steps', io, bufs, answers);
    t', steps', answers' := t' + [Next(t'[|steps'|], dqbuf)], steps' + [dqbuf], answers + [arg];
    var qbuf := Requeue(t', steps', io, bufs, answers', arg);
    t', steps', answers' := t' + [Next(t'[|steps'|], qbuf)], steps' + [qbuf], answers' + [NO_ARG];
  }

  lemma {:induction false} AllFrames(io: IoMethod, bufs: seq<Buffer>, planes: seq<nat>, f: nat)
    returns (t: seq<State>, steps: seq<Step>, answers: seq<Arg>)
    requires Usable(io, bufs) && Setting(Initial(io.UserPtr?, planes), io, bufs)
    ensures Service(t, steps, io, bufs, answers) && Ready(t[|steps|]) && |answers| == |bufs| + 1 + 2 * f
    ensures t[0].planes == planes
  {
    if f == 0 {
      t, steps, answers := Started(io, bufs, planes);
    } else {
      t, steps, answers := AllFrames(io, bufs, planes, f - 1);
      t, steps, answers := OneFrame(t, steps, io, bufs, answers);
    }
  }

  // ---------------------------------------------------------------- the stop

  lemma StopFollows(s: State, calls: seq<Call>)
    requires Agrees(s, calls) && s.phase.On? && s.app == {}
    ensures Follows(|s.planes|, calls + [StreamOffCall], |calls|)
  {
  }

  /** Something moves, and nothing the application calls. */
  lemma StopMoves(s: State) returns (step: Step)
    requires Inv(s) && Stopping(s.phase)
    ensures Enabled(s, step) && CallOf(step) == [] && step != StreamOn(false) && !step.Qbuf? && !step.Dqbuf?
    ensures StopMeasure(Next(s, step)) < StopMeasure(s)
    ensures AtRest(Next(s, step)) || Stopping(Next(s, step).phase)
  {
    StopProgresses(s);
    step := if Enabled(s, Thread(true)) then Thread(true) else if Enabled(s, Join) then Join
            else if Enabled(s, DrainOne) then DrainOne else Reclaim;
  }

  lemma {:induction false} FinishStop(t: seq<State>, steps: seq<Step>, io: IoMethod, bufs: seq<Buffer>,
                                      answers: seq<Arg>)
    returns (t': seq<State>, steps': seq<Step>)
    requires Service(t, steps, io, bufs, answers) && Stopping(t[|steps|].phase)
    ensures Service(t', steps', io, bufs, answers)
    ensures AtRest(t'[|steps'|]) && t'[0] == t[0]
    decreases StopMeasure(t[|steps|])
  {
    RunKeepsSetting(t, steps, io, bufs, answers);
    var step := StopMoves(t[|steps|]);
    Extend(t, steps, io, bufs, answers, step, []);
    assert answers + [] == answers;
    t', steps' := t + [Next(t[|steps|], step)], steps + [step];
    if Stopping(t'[|steps'|].phase) {
      t', steps' := FinishStop(t', steps', io, bufs, answers);
    }
  }

  /** STREAMOFF after the last frame, until it returns. */
  lemma Stop(t: seq<State>, steps: seq<Step>, io: IoMethod, bufs: seq<Buffer>, answers: seq<Arg>)
    returns (t': seq<State>, steps': seq<Step>)
    requires Service(t, steps, io, bufs, answers) && Ready(t[|steps|])
    ensures Service(t', steps', io, bufs, answers + [NO_ARG])
    ensures AtRest(t'[|steps'|]) && t'[0] == t[0]
  {
    RunKeepsSetting(t, steps, io, bufs, answers);
    StopFollows(t[|steps|], Calls(steps, |steps|));
    Extend(t, steps, io, bufs, answers, RequestStop, [NO_ARG]);
    t', steps' := t + [Next(t[|steps|], RequestStop)], steps + [RequestStop];
    t', steps' := FinishStop(t', steps', io, bufs, answers + [NO_ARG]);
  }

  // ---------------------------------------------------------------- the service answers a capture

  lemma CallIsDqbuf(n: nat, calls: seq<Call>, f: nat, c: nat)
    requires GrabberCalls(n, calls) && |calls| >= n + 1 + 2 * f && DequeuesAt(n + 1, f, c)
    ensures calls[c].DqbufCall?
  {
    assert Follows(n, calls, c) && Follows(n, calls, c + 1);
  }

  lemma ServiceAnswers(t: seq<State>, steps: seq<Step>, io: IoMethod, bufs: seq<Buffer>, answers: seq<Arg>, f: nat)
    requires Service(t, steps, io, bufs, answers) && |answers| >= |bufs| + 1 + 2 * f
    ensures AnsweredBy(t, steps, io, bufs, answers, f)
  {
    forall i: nat | i < |steps| ensures QueuesAt(io, bufs, answers, steps, i) {
      assert Served(t, steps, i, io, bufs, answers);
    }
    forall c: nat | c < |answers| && DequeuesAt(|bufs| + 1, f, c)
      ensures IsAnswer(t, steps, c, answers[c])
    {
      var i := StepOfCall(steps, |steps|, c);
      CallIsDqbuf(|bufs|, Calls(steps, |steps|), f, c);
      assert Served(t, steps, i, io, bufs, answers);
      assert AnswersAt(t, steps, i, c, answers[c]);
    }
  }

  /**
   * The run makes every call of a capture of `f` frames, from the first QBUF to the return of
   * STREAMOFF, and answers each.
   */
  ghost predicate ServesWhole(t: seq<State>, steps: seq<Step>, io: IoMethod, bufs: seq<Buffer>, answers: seq<Arg>,
                              f: nat)
  {
    && AnsweredBy(t, steps, io, bufs, answers, f)
    && |Calls(steps, |steps|)| == |answers| == |bufs| + 2 + 2 * f
    && AtRest(t[|steps|])
  }

  /**
   * Whatever buffers the application has set up, mapped or its own, if each holds an image then
   * for every number of frames some run of the driver answers all of its calls.
   */
  lemma EveryCaptureCanBeServed(io: IoMethod, bufs: seq<Buffer>, planes: seq<nat>, f: nat)
    returns (t: seq<State>, steps: seq<Step>, answers: seq<Arg>)
    requires Usable(io, bufs) && Setting(Initial(io.UserPtr?, planes), io, bufs)
    ensures ServesWhole(t, steps, io, bufs, answers, f) && t[0].planes == planes
  {
    t, steps, answers := AllFrames(io, bufs, planes, f);
    t, steps := Stop(t, steps, io, bufs, answers);
    answers := answers + [NO_ARG];
    ServiceAnswers(t, steps, io, bufs, answers, f);
  }

  /** A buffer that was queued passed buf_prepare. */
  lemma QueuedHasRoom(t: seq<State>, steps: seq<Step>, io: IoMethod, bufs: seq<Buffer>, answers: seq<Arg>,
                      f: nat, b: nat)
    requires AnsweredBy(t, steps, io, bufs, answers, f) && b < |bufs| <= |Calls(steps, |steps|)|
    ensures bufs[b].length >= QUEUE_SETUP_SIZE
  {
    var i := StepOfCall(steps, |steps|, b);
    assert Follows(|bufs|, Calls(steps, |steps|), b);
    assert QueuesAt(io, bufs, answers, steps, i);
    assert Moves(t, steps, i);
    RunPlanes(t, steps, i);
  }

  /** One answered frame, or all the calls of the first round, show that every buffer holds an image. */
  lemma AnsweredNeedsRoom(t: seq<State>, steps: seq<Step>, io: IoMethod, bufs: seq<Buffer>, answers: seq<Arg>, f: nat)
    requires AnsweredBy(t, steps, io, bufs, answers, f) && !io.Read?
    requires (f >= 1 && |answers| > |bufs| + 1) || |Calls(steps, |steps|)| >= |bufs|
    ensures Usable(io, bufs)
  {
    if |Calls(steps, |steps|)| < |bufs| {
      var _ := AnsweredCall(t, steps, io, bufs, answers, f, |bufs| + 1);
    }
    forall b: nat | b < |bufs| ensures bufs[b].length >= QUEUE_SETUP_SIZE {
      QueuedHasRoom(t, steps, io, bufs, answers, f, b);
    }
  }

  /** Planes as long as the buffers. */
  function LengthsOf(bufs: seq<Buffer>): seq<nat> {
    seq(|bufs|, b requires 0 <= b < |bufs| => bufs[b].length)
  }

  ghost predicate CanBeServed(io: IoMethod, bufs: seq<Buffer>, f: nat) {
    exists t, steps, answers :: ServesWhole(t, steps, io, bufs, answers, f)
  }

  /** A capture, of any number of frames, can be had exactly when every buffer holds an image. */
  lemma ServableIff(io: IoMethod, bufs: seq<Buffer>, f: nat)
    requires !io.Read?
    ensures CanBeServed(io, bufs, f) <==> Usable(io, bufs)
  {
    if CanBeServed(io, bufs, f) {
      var t, steps, answers :| ServesWhole(t, steps, io, bufs, answers, f);
      AnsweredNeedsRoom(t, steps, io, bufs, answers, f);
    }
    if Usable(io, bufs) {
      var t, steps, answers := EveryCaptureCanBeServed(io, bufs, LengthsOf(bufs), f);
    }
  }

  // ---------------------------------------------------------------- a process that returns

  /** A script in which every ioctl succeeds at once. */
  function OkScript(args: seq<Arg>): seq<IoctlReply> {
    seq(|args|, k requires 0 <= k < |args| => Ok(args[k]))
  }

  lemma OkScriptTail(args: seq<Arg>)
    requires args != []
    ensures OkScript(args)[0] == Ok(args[0]) && OkScript(args)[1..] == OkScript(args[1..])
  {
  }

  lemma {:induction false} OkAnswers(args: seq<Arg>)
    ensures Answers(OkScript(args)) == args
  {
    if args != [] {
      OkScriptTail(args);
      OkAnswers(args[1..]);
    }
  }

  lemma {:induction false} OkRest(args: seq<Arg>, m: nat)
    requires m <= |args|
    ensures Succeed(OkScript(args), m) && Rest(OkScript(args), m) == OkScript(args[m..])
  {
    if m > 0 {
      OkScriptTail(args);
      OkRest(args[1..], m - 1);
      assert args[1..][m - 1..] == args[m..];
    }
  }

  /** The DQBUFs among the calls from number `c` on. */
  function FramesFrom(plan: Plan, c: nat): nat {
    if c <= plan.first then plan.frames
    else if c >= plan.first + 2 * plan.frames then 0
    else plan.frames - (c - plan.first + 1) / 2
  }

  lemma {:induction false} OkServes(io: IoMethod, bufs: seq<Buffer>, plan: Plan, answers: seq<Arg>, c: nat)
    requires c <= |answers| == plan.Total()
    requires forall d: nat | d < |answers| && DequeuesAt(plan.first, plan.frames, d) :: Recognised(io, bufs, answers[d])
    ensures Serves(io, bufs, plan, OkScript(answers[c..]), c)
    ensures Polls(plan, OkScript(answers[c..]), c) == FramesFrom(plan, c)
    decreases |answers| - c
  {
    if c < |answers| {
      OkScriptTail(answers[c..]);
      assert answers[c..][1..] == answers[c + 1..];
      OkServes(io, bufs, plan, answers, c + 1);
    }
  }

  function ReadyScript(r: nat): seq<SelectReply> {
    seq(r, k => SelectReply.Ready)
  }

  lemma {:induction false} ReadyWakes(r: nat)
    ensures Wakes(ReadyScript(r), r)
  {
    if r > 0 {
      assert ReadyScript(r)[1..] == ReadyScript(r - 1);
      ReadyWakes(r - 1);
    }
  }

  /** Buffers that init_device can have set up at these addresses. */
  ghost predicate Placed(io: IoMethod, bufs: seq<Buffer>, grants: seq<Option<nat>>, sizeimage: nat) {
    && AllGranted(grants, |bufs| + 1)
    && (forall b: nat | b < |bufs| :: bufs[b].start == Granted(grants, b + 1))
    && if io.UserPtr? then |bufs| == 4 && forall b: nat | b < |bufs| :: bufs[b].length == sizeimage else |bufs| >= 2
  }

  /** What REQBUFS and the QUERYBUFs answer. */
  function SetupAnswers(io: IoMethod, bufs: seq<Buffer>): seq<Arg> {
    if io.UserPtr? then [NO_ARG]
    else [Arg(0, 0, 0, 0, |bufs|)] + seq(|bufs|, k requires 0 <= k < |bufs| => Arg(k, 0, bufs[k].length, 0, 0))
  }

  lemma SetupSplits(io: IoMethod, bufs: seq<Buffer>, answers: seq<Arg>)
    requires !io.Read?
    ensures SetupCalls(io, |bufs|) == |SetupAnswers(io, bufs)|
    ensures (SetupAnswers(io, bufs) + answers)[SetupCalls(io, |bufs|)..] == answers
  {
  }

  lemma SetupAllocates(io: IoMethod, bufs: seq<Buffer>, grants: seq<Option<nat>>, sizeimage: nat, answers: seq<Arg>)
    requires !io.Read? && Placed(io, bufs, grants, sizeimage)
    ensures Allocated(io, SetupAnswers(io, bufs) + answers, grants, sizeimage) == bufs
  {
    var all := SetupAnswers(io, bufs) + answers;
    if io.Mmap? {
      assert all[0].count == |bufs|;
      assert forall b: nat | b < |bufs| :: all[1..][b] == Arg(b, 0, bufs[b].length, 0, 0);
      assert forall b: nat | b < |bufs| :: Granted(Tail(grants), b) == Granted(grants, b + 1);
    }
  }

  lemma SetupIsGranted(io: IoMethod, bufs: seq<Buffer>, grants: seq<Option<nat>>, sizeimage: nat, answers: seq<Arg>)
    requires !io.Read? && Placed(io, bufs, grants, sizeimage)
    ensures SetupSucceeds(io, OkScript(SetupAnswers(io, bufs) + answers), grants)
  {
    var all := SetupAnswers(io, bufs) + answers;
    OkAnswers(all);
    OkRest(all, SetupCalls(io, |bufs|));
  }

  /** Answers of a whole run, each at once, and a ready select for each frame carry the process. */
  lemma RunCarries(t: seq<State>, steps: seq<Step>, io: IoMethod, bufs: seq<Buffer>, answers: seq<Arg>, f: nat)
    requires ServesWhole(t, steps, io, bufs, answers, f) && !io.Read?
    ensures Carries(io, bufs, Plan(|bufs| + 1, f, f), OkScript(answers), [], ReadyScript(f))
  {
    var plan := Plan(|bufs| + 1, f, f);
    forall d: nat | d < |answers| && DequeuesAt(plan.first, plan.frames, d) ensures Recognised(io, bufs, answers[d]) {
      AnswerIsRecognised(t, steps, io, bufs, answers, f, d);
    }
    OkServes(io, bufs, plan, answers, 0);
    assert answers[0..] == answers;
    ReadyWakes(f);
  }

  /**
   * Progress from end to end: for buffers of any number and place that hold an image, and for any
   * number of frames, there is an environment whose DQBUFs are answered by a run of the driver
   * and in which the process returns.
   */
  lemma CaptureCanReturn(io: IoMethod, bufs: seq<Buffer>, grants: seq<Option<nat>>, f: nat, sizeimage: nat)
    returns (e: Scripts, t: seq<State>, steps: seq<Step>)
    requires Usable(io, bufs) && Placed(io, bufs, grants, sizeimage)
    ensures e.grants == grants && Allocated(io, Answers(e.ioctls), grants, sizeimage) == bufs
    ensures AnsweredAfterSetup(t, steps, io, bufs, Answers(e.ioctls), f) && WillReturn(io, e, f, sizeimage)
  {
    var answers;
    t, steps, answers := EveryCaptureCanBeServed(io, bufs, LengthsOf(bufs), f);
    var all := SetupAnswers(io, bufs) + answers;
    e := Scripts(OkScript(all), ReadyScript(f), [], grants, seq(|bufs|, k => true));
    SetupSplits(io, bufs, answers);
    SetupAllocates(io, bufs, grants, sizeimage, answers);
    SetupIsGranted(io, bufs, grants, sizeimage, answers);
    OkAnswers(all);
    OkRest(all, SetupCalls(io, |bufs|));
    RunCarries(t, steps, io, bufs, answers, f);
  }
}
