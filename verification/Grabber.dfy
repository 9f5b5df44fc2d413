/**
 * The capture application (lkml/v4l2-app/grabber.c), run against scripts of what the kernel
 * answers. A script that ends leaves the program `Waiting`; exit() and assert() end the run
 * through `fate`.
 */
module Grabber {
  import opened Wrappers
  import opened Arithmetic
  import opened GrabberSession
  import opened GrabberScripts

  class Process {
    var io: IoMethod
    var buffers: seq<Buffer>
    var nBuffers: nat
    var table: Buffer             // the array calloc returned
    var fate: Fate

    // the environment
    var ioctls: seq<IoctlReply>
    var selects: seq<SelectReply>
    var readReplies: seq<ReadReply>
    var grants: seq<Option<nat>>  // addresses from mmap, malloc and calloc; None is failure
    var unmaps: seq<bool>         // whether munmap succeeds

    // what has happened
    var images: seq<Image>
    var calls: seq<Call>          // successful streaming ioctls
    ghost var log: seq<Event>     // every answer so far
    ghost var answers: seq<Arg>   // what the streaming ioctls return, by call number
    ghost var heard: seq<IoctlReply>
    ghost var selected: seq<SelectReply>
    ghost var heardReads: seq<ReadReply>
    ghost var live: set<Buffer>   // mappings and allocations held
    ghost var released: seq<Buffer>

    function Environment(): Scripts
      reads this`ioctls, this`selects, this`readReplies, this`grants, this`unmaps
    {
      Scripts(ioctls, selects, readReplies, grants, unmaps)
    }

    /**
     * Why the program stands as it does: it has left with a failure exactly when the last answer
     * is one to leave at, no answer before was; and it waits only where a script has run out.
     */
    ghost predicate Settled()
      reads this`fate, this`log, this`ioctls, this`selects, this`readReplies, this`grants, this`unmaps
    {
      && (fate == ExitFailure <==> log != [] && Fatal(log[|log| - 1]))
      && HarmlessBefore(log)
      && (fate == Waiting(IoctlSource) ==> ioctls == [])
      && (fate == Waiting(SelectSource) ==> selects == [])
      && (fate == Waiting(ReadSource) ==> readReplies == [])
      && (fate == Waiting(MemorySource) ==> grants == [])
      && (fate == Waiting(UnmapSource) ==> unmaps == [])
    }

    /** The last answer has not been acted on yet. */
    ghost predicate Undecided(e: Event)
      reads this`fate, this`log
    {
      fate.Running? && log != [] && log[|log| - 1] == e && HarmlessBefore(log)
    }

    /** xioctl, lines 56-65: the first answer that is not EINTR, and nothing beyond it. */
    method Xioctl(ghost request: Request) returns (r: Option<IoctlReply>)
      requires fate.Running? && Settled()
      modifies this`ioctls, this`heard, this`fate, this`log
      ensures var k := Interruptions(old(ioctls));
              if k == |old(ioctls)| then r == None && fate == Waiting(IoctlSource) && ioctls == []
              else r == Some(old(ioctls)[k]) && fate == Running && ioctls == old(ioctls)[k + 1..]
      ensures if r.None? then Settled() else Undecided(IoctlDone(request, r.value))
      ensures r.Some? ==> r.value != IoctlFailed(EINTR)
      ensures r.Some? ==> Answers(old(ioctls)) == (if r.value.Ok? then [r.value.arg] else []) + Answers(ioctls)
      ensures r.Some? ==> Agains(heard) == Agains(old(heard)) + if r.value == IoctlFailed(EAGAIN) then 1 else 0
    {
      r := None;
      ghost var k := 0;
      ghost var n := Interruptions(ioctls);
      while ioctls != []
        invariant k <= n && ioctls == old(ioctls)[k..] && fate.Running? && Settled()
        invariant Answers(ioctls) == Answers(old(ioctls)) && Agains(heard) == Agains(old(heard))
        decreases |ioctls|
      {
        var reply := TakeReply(request);
        k := k + 1;
        if reply != IoctlFailed(EINTR) {
          return Some(reply);
        }
      }
      fate := Waiting(IoctlSource);
    }

    /** One ioctl. */
    method TakeReply(ghost request: Request) returns (reply: IoctlReply)
      requires fate.Running? && Settled() && ioctls != []
      modifies this`ioctls, this`heard, this`log
      ensures reply == old(ioctls)[0] && ioctls == old(ioctls)[1..] && Undecided(IoctlDone(request, reply))
      ensures log == old(log) + [IoctlDone(request, reply)]
      ensures Agains(heard) == Agains(old(heard)) + if reply == IoctlFailed(EAGAIN) then 1 else 0
    {
      reply := ioctls[0];
      ioctls := ioctls[1..];
      assert (heard + [reply])[..|heard|] == heard;
      heard := heard + [reply];
      log := log + [IoctlDone(request, reply)];
    }

    /** An ioctl other than DQBUF, left at by errno_exit or for want of buffers. */
    method Demand(ghost request: Request, atLeast: nat) returns (arg: Option<Arg>)
      requires fate.Running? && Settled() && !request.FrameRequest? && atLeast == if request.MapRequest? then 2 else 0
      modifies this`ioctls, this`heard, this`fate, this`log
      ensures Settled() && (arg.Some? <==> fate.Running?)
      ensures var q, k := old(ioctls), Interruptions(old(ioctls));
              fate == if k == |q| then Waiting(IoctlSource)
                      else if q[k].Ok? && q[k].arg.count >= atLeast then Running else ExitFailure
      ensures Succeed(old(ioctls), 1) ==> Answers(old(ioctls)) != []
      ensures arg.Some? <==> Succeed(old(ioctls), 1) && Answers(old(ioctls))[0].count >= atLeast
      ensures arg.Some? ==> ioctls == Rest(old(ioctls), 1) && Answers(old(ioctls)) == [arg.value] + Answers(ioctls)
      ensures arg.Some? ==> Agains(heard) == Agains(old(heard))
    {
      OneCall(ioctls);
      arg := None;
      var r := Xioctl(request);
      if r.None? {
        return;
      }
      if r.value.IoctlFailed? || r.value.arg.count < atLeast {
        fate := ExitFailure;
      } else {
        arg := Some(r.value.arg);
      }
    }

    /** The linear search of lines 152-155: the first buffer with this address and length. */
    method FindBuffer(arg: Arg) returns (i: nat)
      requires nBuffers == |buffers|
      ensures i == FirstMatch(buffers, arg)
      ensures i < nBuffers <==> Recognised(UserPtr, buffers, arg)
      ensures DistinctStarts(buffers) && arg.index < nBuffers && Matches(buffers[arg.index], arg) ==> i == arg.index
    {
      i := 0;
      while i < nBuffers
        invariant i <= nBuffers
        invariant forall k | 0 <= k < i :: !Matches(buffers[k], arg)
      {
        if Matches(buffers[i], arg) {
          return;
        }
        i := i + 1;
      }
    }

    ghost predicate CanCapture()
      reads this`io, this`buffers, this`nBuffers
    {
      if io.Read? then buffers != [] else nBuffers == |buffers|
    }

    /** The calls made so far have used up exactly their own answers. */
    ghost predicate InStep()
      reads this`calls, this`answers, this`ioctls
    {
      |calls| <= |answers| && Answers(ioctls) == answers[|calls|..]
    }

    /** The answer to the next call is one that read_frame's assertion refuses. */
    ghost predicate NextIsUnrecognised()
      reads this`calls, this`answers, this`io, this`buffers
    {
      |calls| < |answers| && !Recognised(io, buffers, answers[|calls|])
    }

    /**
     * The scripts carry the capture to its end: what is still to be called or read succeeds, and
     * select wakes the loop often enough, `awake` of these times being past.
     */
    ghost predicate OnCourse(plan: Plan, awake: nat)
      reads this`io, this`buffers, this`calls, this`ioctls, this`images, this`readReplies, this`selects
    {
      if io.Read? then
        && |images| <= plan.images && ReadsServe(readReplies, plan.images - |images|)
        && WakesFor(selects, ReadPolls(readReplies, plan.images - |images|), awake)
      else
        && Serves(io, buffers, plan, ioctls, |calls|)
        && WakesFor(selects, Polls(plan, ioctls, |calls|), awake)
    }

    /** A frame is what comes next. */
    ghost predicate AtFrame(plan: Plan)
      reads this`io, this`calls, this`images
    {
      if io.Read? then |images| < plan.images else DequeuesAt(plan.first, plan.frames, |calls|)
    }

    /** An ioctl that leaves on any failure; success is logged. */
    method CallOrExit(call: Call, ghost plan: Plan)
      requires fate.Running? && Settled() && InStep() && !io.Read?
      requires |calls| < plan.Total() && !DequeuesAt(plan.first, plan.frames, |calls|)
      modifies this`ioctls, this`heard, this`fate, this`log, this`calls
      ensures Settled()
      ensures fate.Running? && OnCourse(plan, 0) <==> old(OnCourse(plan, 0))
      ensures fate.Running? ==> InStep() && calls == old(calls) + [call] && Agains(heard) == Agains(old(heard))
      ensures !fate.Running? ==> calls == old(calls)
      ensures var q, k := old(ioctls), Interruptions(old(ioctls));
              fate == if k == |q| then Waiting(IoctlSource) else if q[k].Ok? then Running else ExitFailure
    {
      PlainCall(io, buffers, plan, ioctls, |calls|);
      var arg := Demand(OtherRequest, 0);
      if arg.Some? {
        assert answers[|calls|..] == [arg.value] + Answers(ioctls);
        assert Answers(ioctls) == answers[|calls|..][1..] == answers[|calls| + 1..];
        calls := calls + [call];
      }
    }

    /**
     * The first half of read_frame for the streaming methods: DQBUF, the lookup with its
     * assertion, process_image (lines 103-125 and 132-159).
     */
    method TakeFrame(ghost plan: Plan) returns (taken: Option<Arg>)
      requires fate.Running? && Settled() && CanCapture() && !io.Read? && InStep() && AtFrame(plan)
      modifies this`ioctls, this`heard, this`fate, this`log, this`images, this`calls
      ensures Settled()
      ensures taken.Some? ==> fate.Running? && InStep() && Recognised(io, buffers, taken.value)
      ensures taken.Some? ==> |old(calls)| < |answers| && taken.value == answers[|old(calls)|]
      ensures taken.Some? ==> calls == old(calls) + [DqbufCall(taken.value.index)]
      ensures taken.Some? ==> images == old(images) + [ImageOf(io, buffers, taken.value)]
      ensures taken.Some? ==> Agains(heard) == Agains(old(heard))
      ensures taken.None? ==> calls == old(calls) && images == old(images)
      ensures taken.None? && fate.Running? ==> InStep() && Agains(heard) == Agains(old(heard)) + 1
      ensures fate == AssertionFailed ==> NextIsUnrecognised()
      ensures fate.Running? && OnCourse(plan, 0) <==> old(OnCourse(plan, 1))
    {
      taken := AskForFrame(plan);
      if taken.Some? {
        AcceptFrame(taken.value);
        if !fate.Running? {
          taken := None;
        }
      }
    }

    /** DQBUF: an answer, or EAGAIN, or the end. */
    method AskForFrame(ghost plan: Plan) returns (arg: Option<Arg>)
      requires fate.Running? && Settled() && !io.Read? && InStep() && AtFrame(plan)
      modifies this`ioctls, this`heard, this`fate, this`log
      ensures Settled()
      ensures var q, k := old(ioctls), Interruptions(old(ioctls));
              && (arg.Some? <==> k < |q| && q[k].Ok?)
              && fate == if k == |q| then Waiting(IoctlSource)
                         else if q[k].Ok? || q[k].errno == EAGAIN then Running else ExitFailure
      ensures arg.Some? ==> fate.Running? && Agains(heard) == Agains(old(heard))
      ensures arg.Some? ==> |calls| < |answers| && arg.value == answers[|calls|]
      ensures arg.Some? ==> Answers(ioctls) == answers[|calls| + 1..]
      ensures arg.None? && fate.Running? ==> InStep() && Agains(heard) == Agains(old(heard)) + 1
      ensures arg.None? ==> (fate.Running? && OnCourse(plan, 0) <==> old(OnCourse(plan, 1)))
      ensures arg.Some? ==> (OnCourseAfter(plan, arg.value) <==> old(OnCourse(plan, 1)))
    {
      FrameCall(io, buffers, plan, ioctls, |calls|);
      arg := DemandFrame();
      if arg.Some? {
        assert answers[|calls|..] == [arg.value] + Answers(ioctls);
        assert Answers(ioctls) == answers[|calls|..][1..] == answers[|calls| + 1..];
      }
    }

    /** The DQBUF of read_frame, lines 108-121: try again later, or leave. */
    method DemandFrame() returns (arg: Option<Arg>)
      requires fate.Running? && Settled()
      modifies this`ioctls, this`heard, this`fate, this`log
      ensures Settled()
      ensures var q, k := old(ioctls), Interruptions(old(ioctls));
              && arg == (if k < |q| && q[k].Ok? then Some(q[k].arg) else None)
              && (k < |q| ==> ioctls == q[k + 1..])
              && fate == if k == |q| then Waiting(IoctlSource)
                         else if q[k].Ok? || q[k].errno == EAGAIN then Running else ExitFailure
      ensures fate.Running? ==> Answers(old(ioctls)) == (if arg.Some? then [arg.value] else []) + Answers(ioctls)
      ensures fate.Running? ==> Agains(heard) == Agains(old(heard)) + if arg.Some? then 0 else 1
    {
      arg := None;
      var r := Xioctl(FrameRequest);
      if r.None? {
        return;
      }
      if r.value.Ok? {
        arg := Some(r.value.arg);
      } else if r.value.errno != EAGAIN {
        fate := ExitFailure;
      }
    }

    /** The scripts carry the capture to its end if this answer to the DQBUF under way is accepted. */
    ghost predicate OnCourseAfter(plan: Plan, arg: Arg)
      reads this`io, this`buffers, this`calls, this`ioctls, this`selects
    {
      && Recognised(io, buffers, arg) && Serves(io, buffers, plan, ioctls, |calls| + 1)
      && WakesFor(selects, Polls(plan, ioctls, |calls| + 1), 0)
    }

    /** The lookup, the assertion and process_image, lines 123-125 and 152-159. */
    method AcceptFrame(arg: Arg)
      requires fate.Running? && Settled() && CanCapture() && !io.Read?
      modifies this`fate, this`images, this`calls
      ensures Settled()
      ensures fate == if Recognised(io, buffers, arg) then Running else AssertionFailed
      ensures fate.Running? ==> images == old(images) + [ImageOf(io, buffers, arg)]
      ensures fate.Running? ==> calls == old(calls) + [DqbufCall(arg.index)]
      ensures !fate.Running? ==> images == old(images) && calls == old(calls)
      ensures io.Mmap? ==> (fate == AssertionFailed <==> arg.index >= nBuffers)
      ensures io.UserPtr? ==> (fate == AssertionFailed <==>
                forall i | 0 <= i < nBuffers :: arg.userptr != buffers[i].start || arg.length != buffers[i].length)
    {
      var k := arg.index;
      if io.UserPtr? {
        k := FindBuffer(arg);
      }
      if k >= nBuffers {
        fate := AssertionFailed;
        return;
      }
      images := images + [Image(if io.UserPtr? then arg.userptr else buffers[k].start, arg.bytesused, k)];
      calls := calls + [DqbufCall(arg.index)];
    }

    /** At most one image more, and it is the frame that the answer to the next DQBUF describes. */
    twostate predicate AtMostOneFrame()
      reads this`images, this`calls, this`io, this`buffers, this`answers
    {
      && old(images) <= images && |images| <= |old(images)| + 1
      && ImagesFrom(io, buffers, answers, |old(calls)|, images, |old(images)|)
    }

    /** read_frame for the streaming methods, lines 102-163. */
    method StreamFrame(ghost plan: Plan) returns (got: bool)
      requires fate.Running? && Settled() && CanCapture() && !io.Read? && InStep() && AtFrame(plan)
      modifies this`ioctls, this`heard, this`fate, this`log, this`images, this`calls
      ensures Settled()
      ensures AtMostOneFrame()
      ensures got ==> fate.Running? && InStep() && |images| == |old(images)| + 1
      ensures got ==> Paired(old(calls), calls, answers, 1) && Agains(heard) == Agains(old(heard))
      ensures !got && fate.Running? ==> InStep() && calls == old(calls) && images == old(images)
      ensures !got && fate.Running? ==> Agains(heard) == Agains(old(heard)) + 1
      ensures fate == AssertionFailed ==> calls == old(calls) && NextIsUnrecognised()
      ensures fate.Running? && OnCourse(plan, 0) <==> old(OnCourse(plan, 1))
    {
      got := false;
      var taken := TakeFrame(plan);
      if taken.None? {
        return;
      }
      assert ImageAt(io, buffers, answers, |old(calls)|, images, |old(images)|, 0);
      CallOrExit(RequeueCall(taken.value), plan);
      if fate.Running? {
        got := true;
        assert PairAt(calls, answers, |old(calls)|, 0);
      }
    }

    /** How often the program was told to try again. */
    ghost function Retries(): nat
      reads this`heard, this`heardReads
    {
      Agains(heard) + ReadAgains(heardReads)
    }

    /** read_frame, lines 77-167. */
    method ReadFrame(ghost plan: Plan) returns (got: bool)
      requires fate.Running? && Settled() && CanCapture() && InStep() && AtFrame(plan)
      modifies this`ioctls, this`heard, this`readReplies, this`heardReads, this`fate, this`log, this`images, this`calls
      ensures Settled()
      ensures AtMostOneFrame()
      ensures got ==> fate.Running? && InStep() && |images| == |old(images)| + 1 && Retries() == old(Retries())
      ensures got ==> if io.Read? then calls == old(calls) else Paired(old(calls), calls, answers, 1)
      ensures !got && fate.Running? ==> InStep() && calls == old(calls) && images == old(images)
      ensures !got && fate.Running? ==> Retries() == old(Retries()) + 1
      ensures fate == AssertionFailed ==> !io.Read? && calls == old(calls) && NextIsUnrecognised()
      ensures fate.Running? && OnCourse(plan, 0) <==> old(OnCourse(plan, 1))
      ensures io.Read? && old(readReplies) == [] ==> fate == Waiting(ReadSource) && !got
      ensures io.Read? && old(readReplies) != [] ==> (got <==> old(readReplies)[0].ReadOk?)
      ensures io.Read? && old(readReplies) != [] ==>
                fate == if got || old(readReplies)[0] == ReadFailed(EAGAIN) then Running else ExitFailure
    {
      if !io.Read? {
        got := StreamFrame(plan);
      } else {
        got := ReadImage();
      }
    }

    /** read() and process_image, lines 82-100. */
    method ReadImage() returns (got: bool)
      requires fate.Running? && Settled() && buffers != []
      modifies this`readReplies, this`heardReads, this`fate, this`log, this`images
      ensures Settled()
      ensures images == old(images) + if got then [Image(buffers[0].start, buffers[0].length, 0)] else []
      ensures old(readReplies) == [] ==>
                fate == Waiting(ReadSource) && !got && readReplies == [] && heardReads == old(heardReads)
      ensures old(readReplies) != [] ==> readReplies == old(readReplies)[1..] && (got <==> old(readReplies)[0].ReadOk?)
      ensures log == old(log) + if old(readReplies) == [] then [] else [ReadDone(old(readReplies)[0])]
      ensures old(readReplies) != [] ==>
                fate == if got || old(readReplies)[0] == ReadFailed(EAGAIN) then Running else ExitFailure
      ensures fate.Running? ==> ReadAgains(heardReads) == ReadAgains(old(heardReads)) + if got then 0 else 1
    {
      got := false;
      if readReplies == [] {
        fate := Waiting(ReadSource);
        return;
      }
      var reply := readReplies[0];
      readReplies := readReplies[1..];
      assert (heardReads + [reply])[..|heardReads|] == heardReads;
      heardReads := heardReads + [reply];
      log := log + [ReadDone(reply)];
      if reply.ReadFailed? {
        if reply.errno != EAGAIN {
          fate := ExitFailure;
        }
        return;
      }
      images := images + [Image(buffers[0].start, buffers[0].length, 0)];
      got := true;
    }

    /** One select of mainloop, lines 188-199; the answer says whether to read, retry or leave. */
    method Select() returns (ready: bool)
      requires fate.Running? && Settled()
      modifies this`selects, this`selected, this`fate, this`log
      ensures Settled()
      ensures old(selects) == [] ==>
                fate == Waiting(SelectSource) && !ready && selects == [] && selected == old(selected)
      ensures old(selects) != [] ==> selects == old(selects)[1..] && selected == old(selected) + [old(selects)[0]]
      ensures old(selects) != [] ==> ready == old(selects)[0].Ready?
      ensures log == old(log) + if old(selects) == [] then [] else [SelectDone(old(selects)[0])]
      ensures old(selects) != [] ==>
                fate == if ready || old(selects)[0] == SelectFailed(EINTR) then Running else ExitFailure
      ensures Readies(selected) == Readies(old(selected)) + if ready then 1 else 0
    {
      ready := false;
      if selects == [] {
        fate := Waiting(SelectSource);
        return;
      }
      var r := selects[0];
      selects := selects[1..];
      assert (selected + [r])[..|selected|] == selected;
      selected := selected + [r];
      log := log + [SelectDone(r)];
      match r {
        case Ready => ready := true;
        case Timeout => fate := ExitFailure;
        case SelectFailed(e) => if e != EINTR { fate := ExitFailure; }
      }
    }

    /** A script that carries on from a frame has a poll for it. */
    lemma FrameIsPolled(plan: Plan)
      requires AtFrame(plan)
      ensures OnCourse(plan, 0) ==>
                if io.Read? then ReadPolls(readReplies, plan.images - |images|) > 0
                else Polls(plan, ioctls, |calls|) > 0
    {
      if !io.Read? {
        FrameCall(io, buffers, plan, ioctls, |calls|);
      }
    }

    /** The select before a frame. */
    method SelectForFrame(ghost plan: Plan) returns (ready: bool)
      requires fate.Running? && Settled() && AtFrame(plan)
      modifies this`selects, this`selected, this`fate, this`log
      ensures Settled()
      ensures fate != AssertionFailed && (ready ==> fate.Running?)
      ensures |selects| <= |old(selects)| && (fate.Running? ==> |selects| < |old(selects)|)
      ensures Readies(selected) == Readies(old(selected)) + if ready then 1 else 0
      ensures fate.Running? && OnCourse(plan, if ready then 1 else 0) <==> old(OnCourse(plan, 0))
    {
      FrameIsPolled(plan);
      ready := Select();
    }

    /** The inner loop of mainloop: select until a frame has been read. */
    method AwaitFrame(ghost plan: Plan)
      requires fate.Running? && Settled() && CanCapture() && InStep() && AtFrame(plan)
      modifies this`ioctls, this`heard, this`readReplies, this`heardReads, this`fate, this`log, this`images, this`calls
      modifies this`selects, this`selected
      ensures Settled()
      ensures AtMostOneFrame()
      ensures fate.Running? ==> InStep() && |images| == |old(images)| + 1
      ensures fate.Running? ==> if io.Read? then calls == old(calls) else Paired(old(calls), calls, answers, 1)
      ensures fate.Running? ==> Readies(selected) - Readies(old(selected)) == 1 + Retries() - old(Retries())
      ensures fate == AssertionFailed ==> !io.Read? && calls == old(calls) && NextIsUnrecognised()
      ensures fate.Running? && OnCourse(plan, 0) <==> old(OnCourse(plan, 0))
    {
      var got := false;
      while !got && fate.Running?
        invariant Settled() && AtMostOneFrame() && (fate.Running? ==> InStep())
        invariant !got && fate.Running? ==> calls == old(calls) && images == old(images)
        invariant !got && fate.Running? ==> Readies(selected) - Readies(old(selected)) == Retries() - old(Retries())
        invariant got ==> fate.Running? && |images| == |old(images)| + 1
        invariant got ==> if io.Read? then calls == old(calls) else Paired(old(calls), calls, answers, 1)
        invariant got ==> Readies(selected) - Readies(old(selected)) == 1 + Retries() - old(Retries())
        invariant fate == AssertionFailed ==> !io.Read? && calls == old(calls) && NextIsUnrecognised()
        invariant fate.Running? && OnCourse(plan, 0) <==> old(OnCourse(plan, 0))
        decreases !got && fate.Running?, |selects|
      {
        var ready := SelectForFrame(plan);
        if ready {
          got := ReadFrame(plan);
        }
      }
    }

    /**
     * mainloop, lines 169-206, for any frame_count an int can hold.
     *
     * If it returns, exactly frame_count images (as an unsigned int) were processed; when
     * streaming, every DQBUF was followed by the QBUF of the same buffer, so that the
     * application holds none; and the select loop balances: it went round once for every
     * frame and once for every EAGAIN. However it ends, every image is the one that the answer
     * to its DQBUF describes, and an assertion has failed only on such an answer.
     */
    method Mainloop(frameCount: int, ghost plan: Plan)
      requires fate.Running? && Settled() && CanCapture() && InStep()
      requires plan.frames == frameCount % U32 && plan.images == |images| + plan.frames
      requires io.Read? || plan.first == |calls|
      modifies this`ioctls, this`heard, this`readReplies, this`heardReads, this`fate, this`log, this`images, this`calls
      modifies this`selects, this`selected
      ensures Settled()
      ensures old(images) <= images && ImagesFrom(io, buffers, answers, plan.first, images, |old(images)|)
      ensures |images| <= |old(images)| + frameCount % U32
      ensures fate.Running? ==> InStep() && |images| == |old(images)| + frameCount % U32
      ensures fate.Running? ==>
                if io.Read? then calls == old(calls) else Paired(old(calls), calls, answers, frameCount % U32)
      ensures fate.Running? ==>
                Readies(selected) - Readies(old(selected)) == frameCount % U32 + Retries() - old(Retries())
      ensures fate == AssertionFailed ==> !io.Read? && NextIsUnrecognised()
      ensures fate == AssertionFailed ==> DequeuesAt(plan.first, plan.frames, |calls|)
      ensures fate.Running? && OnCourse(plan, 0) <==> old(OnCourse(plan, 0))
    {
      var count := frameCount % U32;
      ghost var f := 0;
      while count > 0 && fate.Running?
        invariant Settled()
        invariant old(images) <= images && ImagesFrom(io, buffers, answers, plan.first, images, |old(images)|)
        invariant 0 <= count && f + count <= frameCount % U32 && |images| <= |old(images)| + frameCount % U32
        invariant fate.Running? ==> f + count == frameCount % U32 && InStep() && |images| == |old(images)| + f
        invariant fate.Running? ==> if io.Read? then calls == old(calls) else Paired(old(calls), calls, answers, f)
        invariant fate.Running? ==> Readies(selected) - Readies(old(selected)) == f + Retries() - old(Retries())
        invariant fate == AssertionFailed ==> !io.Read? && NextIsUnrecognised()
        invariant fate == AssertionFailed ==> DequeuesAt(plan.first, plan.frames, |calls|)
        invariant fate.Running? && OnCourse(plan, 0) <==> old(OnCourse(plan, 0))
        decreases count
      {
        count := count - 1;
        ghost var c1, m1 := calls, images;
        AwaitFrame(plan);
        ImagesExtend(io, buffers, answers, plan.first, |c1|, m1, images, |old(images)|, f);
        if fate.Running? {
          if !io.Read? {
            PairedExtend(old(calls), c1, calls, answers, f);
          }
          f := f + 1;
        }
      }
    }

    // -------------------------------------------------------------- start and stop

    /** start_capturing, lines 226-272. */
    method StartCapturing(ghost plan: Plan)
      requires fate.Running? && Settled() && CanCapture() && InStep()
      requires io.Read? || plan.first == |calls| + nBuffers + 1
      modifies this`ioctls, this`heard, this`fate, this`log, this`calls
      ensures Settled()
      ensures fate.Running? ==> InStep()
      ensures fate.Running? && !io.Read? ==> calls == old(calls) + Opening(io, buffers)
      ensures io.Read? ==> fate.Running? && calls == old(calls) && ioctls == old(ioctls)
      ensures fate != AssertionFailed
      ensures fate.Running? && OnCourse(plan, 0) <==> old(OnCourse(plan, 0))
    {
      if io.Read? {
        return;
      }
      var i := 0;
      while i < nBuffers
        invariant i <= nBuffers && fate.Running? && Settled() && InStep()
        invariant calls == old(calls) + QbufRound(io, buffers, i)
        invariant OnCourse(plan, 0) <==> old(OnCourse(plan, 0))
      {
        CallOrExit(FirstQbuf(io, buffers, i), plan);
        if !fate.Running? {
          return;
        }
        assert QbufRound(io, buffers, i + 1) == QbufRound(io, buffers, i) + [FirstQbuf(io, buffers, i)];
        i := i + 1;
      }
      CallOrExit(StreamOnCall, plan);
    }

    /** stop_capturing, lines 208-224. */
    method StopCapturing(ghost plan: Plan)
      requires fate.Running? && Settled() && InStep()
      requires if io.Read? then |images| == plan.images else |calls| + 1 == plan.Total()
      modifies this`ioctls, this`heard, this`fate, this`log, this`calls
      ensures Settled()
      ensures fate.Running? <==> old(OnCourse(plan, 0))
      ensures fate.Running? ==> InStep() && calls == old(calls) + if io.Read? then [] else [StreamOffCall]
      ensures fate != AssertionFailed
    {
      if !io.Read? {
        CallOrExit(StreamOffCall, plan);
      }
    }

    // -------------------------------------------------------------- buffers

    /** The kernel and the allocator hand out only addresses not in use. */
    ghost predicate FreshGrants()
      reads this`grants, this`live
    {
      && (forall i, r | 0 <= i < |grants| && r in live :: grants[i] != Some(r.start))
      && (forall i, j | 0 <= i < j < |grants| && grants[i].Some? :: grants[i] != grants[j])
    }

    /** mmap, malloc or calloc, the caller leaving when it fails. */
    method Acquire(length: nat) returns (b: Buffer)
      requires fate.Running? && Settled() && FreshGrants()
      modifies this`grants, this`live, this`fate, this`log
      ensures Settled()
      ensures FreshGrants() && fate != AssertionFailed
      ensures fate.Running? ==> b == Buffer(Granted(old(grants), 0), length) && live == old(live) + {b}
      ensures fate.Running? ==> old(grants) != [] && grants == old(grants)[1..]
      ensures fate.Running? ==> forall r | r in old(live) :: r.start != b.start
      ensures !fate.Running? ==> live == old(live)
      ensures log == old(log) + if old(grants) == [] then [] else [MemoryDone(old(grants)[0])]
      ensures fate == if old(grants) == [] then Waiting(MemorySource)
                      else if old(grants)[0].Some? then Running else ExitFailure
    {
      b := Buffer(0, length);
      if grants == [] {
        fate := Waiting(MemorySource);
        return;
      }
      var a := grants[0];
      grants := grants[1..];
      log := log + [MemoryDone(a)];
      if a.None? {
        fate := ExitFailure;
        return;
      }
      b := Buffer(a.value, length);
      live := live + {b};
    }

    /** munmap or free: only of something held, with its own start and length. */
    method Release(b: Buffer)
      requires b in live
      modifies this`live, this`released
      ensures live == old(live) - {b} && released == old(released) + [b]
    {
      live := live - {b};
      released := released + [b];
    }

    /** What the process holds is `base`, the table and the buffers, all different. */
    ghost predicate Holds(base: set<Buffer>)
      reads this`live, this`table, this`buffers
    {
      && live == base + {table} + Resources(buffers)
      && table !in base && table !in buffers && base !! Resources(buffers)
      && DistinctStarts(buffers)
    }

    /** One buffer more: the body of the three init loops. */
    method AddBuffer(length: nat, ghost base: set<Buffer>)
      requires fate.Running? && Settled() && FreshGrants() && Holds(base)
      modifies this`grants, this`live, this`fate, this`log, this`buffers
      ensures Settled()
      ensures FreshGrants()
      ensures fate.Running? <==> AllGranted(old(grants), 1)
      ensures fate == if old(grants) == [] then Waiting(MemorySource)
                      else if old(grants)[0].Some? then Running else ExitFailure
      ensures fate.Running? ==> Holds(base) && buffers == old(buffers) + [Buffer(Granted(old(grants), 0), length)]
      ensures fate.Running? ==> old(grants) != [] && grants == old(grants)[1..]
    {
      var b := Acquire(length);
      if fate.Running? {
        assert forall x | x in buffers :: x in old(live);
        buffers := buffers + [b];
        assert Resources(buffers) == Resources(old(buffers)) + {b};
      }
    }

    /** The empty buffer table of the init functions. */
    method NewTable(entries: nat)
      requires fate.Running? && Settled() && FreshGrants() && buffers == []
      modifies this`grants, this`live, this`fate, this`log, this`table
      ensures Settled()
      ensures FreshGrants()
      ensures fate.Running? <==> AllGranted(old(grants), 1)
      ensures fate == if old(grants) == [] then Waiting(MemorySource)
                      else if old(grants)[0].Some? then Running else ExitFailure
      ensures fate.Running? ==> Holds(old(live)) && table.length == entries * ENTRY_BYTES
      ensures fate.Running? ==> old(grants) != [] && grants == old(grants)[1..]
    {
      table := Acquire(entries * ENTRY_BYTES);
      assert Resources([]) == {};
    }

    /** init_read, lines 298-314. */
    method InitRead(size: nat)
      requires fate.Running? && Settled() && FreshGrants() && buffers == []
      modifies this`grants, this`live, this`fate, this`log, this`table, this`buffers
      ensures Settled()
      ensures fate.Running? <==> AllGranted(old(grants), 2)
      ensures fate.Running? ==> Holds(old(live)) && buffers == Allocated(Read, [], old(grants), size)
      ensures fate.Running? ==> table.length == ENTRY_BYTES && buffers == [Buffer(old(grants)[1].value, size)]
      ensures fate != AssertionFailed
    {
      NewTable(1);
      if fate.Running? {
        AddBuffer(size, old(live));
      }
    }

    /** One turn of init_mmap's loop: QUERYBUF and mmap, leaving on any failure. */
    method MapBuffer(ghost base: set<Buffer>)
      requires fate.Running? && Settled() && FreshGrants() && Holds(base)
      modifies this`grants, this`live, this`fate, this`log, this`buffers, this`ioctls, this`heard
      ensures Settled()
      ensures FreshGrants() && fate != AssertionFailed
      ensures fate.Running? <==> Succeed(old(ioctls), 1) && AllGranted(old(grants), 1)
      ensures var q, k := old(ioctls), Interruptions(old(ioctls));
              fate == if k == |q| then Waiting(IoctlSource) else if !q[k].Ok? then ExitFailure
                      else if old(grants) == [] then Waiting(MemorySource)
                      else if old(grants)[0].Some? then Running else ExitFailure
      ensures fate.Running? ==> Holds(base) && old(grants) != [] && grants == old(grants)[1..]
      ensures fate.Running? ==> ioctls == Rest(old(ioctls), 1)
      ensures fate.Running? ==> Answers(old(ioctls)) != [] && Answers(ioctls) == Answers(old(ioctls))[1..]
      ensures fate.Running? ==>
                buffers == old(buffers) + [Buffer(Granted(old(grants), 0), Answers(old(ioctls))[0].length)]
    {
      var arg := Demand(OtherRequest, 0);
      if arg.Some? {
        AddBuffer(arg.value.length, base);
      }
    }

    /** The loop of init_mmap, lines 351-371: one mapping for every buffer, as long as the kernel says. */
    method MapBuffers(count: nat, ghost base: set<Buffer>)
      requires fate.Running? && Settled() && FreshGrants() && Holds(base) && buffers == []
      modifies this`grants, this`live, this`fate, this`log, this`buffers, this`nBuffers, this`ioctls, this`heard
      ensures Settled()
      ensures FreshGrants() && fate != AssertionFailed
      ensures fate.Running? <==> Succeed(old(ioctls), count) && AllGranted(old(grants), count)
      ensures fate.Running? ==> Holds(base) && nBuffers == |buffers| == count && ioctls == Rest(old(ioctls), count)
      ensures fate.Running? ==> buffers == Mappings(old(grants), Answers(old(ioctls)), count)
    {
      ghost var script, given, all := ioctls, grants, Answers(ioctls);
      nBuffers := 0;
      while nBuffers < count
        invariant nBuffers <= count && fate.Running? && Settled() && FreshGrants() && Holds(base)
        invariant nBuffers <= |given| && grants == given[nBuffers..]
        invariant buffers == Mappings(given, all, nBuffers)
        invariant Succeed(script, nBuffers) && ioctls == Rest(script, nBuffers) && AllGranted(given, nBuffers)
      {
        NextSetup(script, given, nBuffers, count);
        MapBuffer(base);
        if !fate.Running? {
          return;
        }
        nBuffers := nBuffers + 1;
      }
    }

    /** init_mmap, lines 316-372: every granted buffer mapped with its own length, or exit. */
    method InitMmap()
      requires fate.Running? && Settled() && FreshGrants() && buffers == []
      modifies this`grants, this`live, this`fate, this`log, this`table, this`buffers, this`nBuffers
      modifies this`ioctls, this`heard
      ensures Settled()
      ensures fate.Running? <==> SetupSucceeds(Mmap, old(ioctls), old(grants))
      ensures fate.Running? ==> ioctls == Rest(old(ioctls), 1 + nBuffers)
      ensures fate.Running? ==> Holds(old(live)) && nBuffers == |buffers| >= 2
      ensures fate.Running? ==> buffers == Allocated(Mmap, Answers(old(ioctls)), old(grants), 0)
      ensures fate.Running? ==> 1 + nBuffers <= |Answers(old(ioctls))|
      ensures fate.Running? ==> Answers(ioctls) == Answers(old(ioctls))[1 + nBuffers..]
      ensures fate.Running? ==> table.length == nBuffers * ENTRY_BYTES
      ensures fate != AssertionFailed
    {
      OneCall(ioctls);
      MmapSetup(ioctls, grants, if Answers(ioctls) != [] then Answers(ioctls)[0].count else 0);
      var req := Demand(MapRequest, 2);
      if req.None? {
        return;
      }
      NewTable(req.value.count);
      if fate.Running? {
        MapBuffers(req.value.count, old(live));
        if fate.Running? {
          AnswersOfRest(old(ioctls), 1 + nBuffers);
        }
      }
    }

    /** The loop of init_userp, lines 401-409. */
    method AllocateBuffers(count: nat, size: nat, ghost base: set<Buffer>)
      requires fate.Running? && Settled() && FreshGrants() && Holds(base) && buffers == []
      modifies this`grants, this`live, this`fate, this`log, this`buffers, this`nBuffers
      ensures Settled()
      ensures FreshGrants() && fate != AssertionFailed
      ensures fate.Running? <==> AllGranted(old(grants), count)
      ensures fate.Running? ==> Holds(base) && nBuffers == |buffers| == count
      ensures fate.Running? ==> forall k: nat | k < count :: buffers[k] == Buffer(Granted(old(grants), k), size)
    {
      nBuffers := 0;
      while nBuffers < count
        invariant nBuffers <= count && fate.Running? && Settled() && FreshGrants()
        invariant Holds(base) && |buffers| == nBuffers <= |old(grants)| && AllGranted(old(grants), nBuffers)
        invariant grants == old(grants)[nBuffers..]
        invariant forall k: nat | k < nBuffers :: buffers[k] == Buffer(Granted(old(grants), k), size)
      {
        GrantedSplit(old(grants), nBuffers, 1);
        AddBuffer(size, base);
        if !fate.Running? {
          return;
        }
        nBuffers := nBuffers + 1;
      }
    }

    /** init_userp, lines 374-410: four buffers of the image size, whatever count was granted. */
    method InitUserp(size: nat)
      requires fate.Running? && Settled() && FreshGrants() && buffers == []
      modifies this`grants, this`live, this`fate, this`log, this`table, this`buffers, this`nBuffers
      modifies this`ioctls, this`heard
      ensures Settled()
      ensures fate.Running? <==> SetupSucceeds(UserPtr, old(ioctls), old(grants))
      ensures fate.Running? ==> ioctls == Rest(old(ioctls), 1)
      ensures fate.Running? ==> Holds(old(live)) && nBuffers == |buffers| == 4
      ensures fate.Running? ==> buffers == Allocated(UserPtr, [], old(grants), size)
      ensures fate.Running? ==> table.length == 4 * ENTRY_BYTES
      ensures fate.Running? ==> forall k: nat | k < 4 :: buffers[k] == Buffer(Granted(old(grants), k + 1), size)
      ensures fate.Running? ==> Answers(old(ioctls)) != [] && Answers(ioctls) == Answers(old(ioctls))[1..]
      ensures fate != AssertionFailed
    {
      OneCall(ioctls);
      if grants != [] {
        GrantedSplit(grants, 1, 4);
      }
      var req := Demand(OtherRequest, 0);
      if req.None? {
        return;
      }
      NewTable(4);
      if fate.Running? {
        AllocateBuffers(4, size, old(live));
      }
    }

    /** munmap, leaving when it fails; nothing for memory that is only freed. */
    method Unmap()
      requires fate.Running? && Settled()
      modifies this`unmaps, this`fate, this`log
      ensures Settled()
      ensures fate.Running? <==> Unmaps(io, old(unmaps), 1)
      ensures fate.Running? ==> unmaps == if io.Mmap? then old(unmaps)[1..] else old(unmaps)
      ensures log == old(log) + if !io.Mmap? || old(unmaps) == [] then [] else [UnmapDone(old(unmaps)[0])]
      ensures !io.Mmap? ==> fate.Running?
      ensures io.Mmap? ==> fate == if old(unmaps) == [] then Waiting(UnmapSource)
                                   else if old(unmaps)[0] then Running else ExitFailure
    {
      if io.Mmap? {
        if unmaps == [] {
          fate := Waiting(UnmapSource);
          return;
        }
        var ok := unmaps[0];
        unmaps := unmaps[1..];
        log := log + [UnmapDone(ok)];
        if !ok {
          fate := ExitFailure;
        }
      }
    }

    /** The first `i` buffers have been given back, the rest is held as before. */
    ghost predicate HoldsFrom(base: set<Buffer>, i: nat)
      reads this`live, this`table, this`buffers
    {
      && i <= |buffers| && live == base + {table} + Resources(buffers[i..])
      && table !in base && table !in buffers && base !! Resources(buffers) && DistinctStarts(buffers)
    }

    /** One turn of the release loops. */
    method ReleaseBuffer(i: nat, ghost base: set<Buffer>)
      requires fate.Running? && Settled() && HoldsFrom(base, i) && i < |buffers|
      modifies this`live, this`released, this`unmaps, this`fate, this`log
      ensures Settled() && (fate.Running? <==> Unmaps(io, old(unmaps), 1)) && fate != AssertionFailed
      ensures fate.Running? ==> unmaps == if io.Mmap? then old(unmaps)[1..] else old(unmaps)
      ensures fate.Running? ==> HoldsFrom(base, i + 1) && released == old(released) + [buffers[i]]
    {
      FirstResource(buffers, i);
      Unmap();
      if fate.Running? {
        Release(buffers[i]);
      }
    }

    /** The release loops of uninit_device: the first `n` buffers, in order. */
    method ReleaseBuffers(n: nat, ghost base: set<Buffer>)
      requires fate.Running? && Settled() && Holds(base) && n <= |buffers|
      modifies this`live, this`released, this`unmaps, this`fate, this`log
      ensures Settled()
      ensures fate.Running? <==> Unmaps(io, old(unmaps), n)
      ensures fate.Running? ==> live == base + {table} + Resources(buffers[n..])
      ensures fate.Running? ==> released == old(released) + buffers[..n]
      ensures fate != AssertionFailed
    {
      var i := 0;
      assert buffers[0..] == buffers;
      while i < n
        invariant i <= n && fate.Running? && Settled() && HoldsFrom(base, i)
        invariant released == old(released) + buffers[..i]
        invariant Unmaps(io, old(unmaps), i)
        invariant if io.Mmap? then i <= |old(unmaps)| && unmaps == old(unmaps)[i..] else unmaps == old(unmaps)
      {
        ReleaseBuffer(i, base);
        if !fate.Running? {
          return;
        }
        assert buffers[..i + 1] == buffers[..i] + [buffers[i]];
        i := i + 1;
      }
    }

    /**
     * uninit_device, lines 274-296: every buffer and then the table released once, with its
     * recorded start and length; nothing the run acquired stays outstanding.
     */
    method UninitDevice(ghost base: set<Buffer>)
      requires fate.Running? && Settled() && Holds(base)
      requires if io.Read? then |buffers| == 1 else nBuffers == |buffers|
      modifies this`live, this`released, this`unmaps, this`fate, this`log
      ensures Settled()
      ensures fate.Running? <==> Unmaps(io, old(unmaps), |buffers|)
      ensures fate.Running? ==> live == base && released == old(released) + buffers + [table]
      ensures fate != AssertionFailed
    {
      ReleaseBuffers(if io.Read? then 1 else nBuffers, base);
      if fate.Running? {
        assert buffers[|buffers|..] == [] && buffers[..|buffers|] == buffers;
        Release(table);
      }
    }

    // -------------------------------------------------------------- the intended run

    /** The buffers are those the answers and grants describe, and their answers are used up. */
    ghost predicate SetUp(all: seq<Arg>, rest: seq<Arg>, granted: seq<Option<nat>>, sizeimage: nat)
      reads this`buffers, this`io
    {
      && buffers == Allocated(io, all, granted, sizeimage)
      && SetupCalls(io, |buffers|) <= |all| && rest == all[SetupCalls(io, |buffers|)..]
    }

    /** The allocation part of init_device, lines 500-512; `sizeimage` is what VIDIOC_G_FMT gave. */
    method InitDevice(sizeimage: nat)
      requires fate.Running? && Settled() && FreshGrants() && buffers == [] && nBuffers == 0
      modifies this`grants, this`live, this`fate, this`log, this`table, this`buffers, this`nBuffers
      modifies this`ioctls, this`heard
      ensures Settled()
      ensures fate.Running? ==> Holds(old(live)) && CanCapture()
      ensures fate.Running? ==> if io.Read? then |buffers| == 1 else nBuffers == |buffers| >= 2
      ensures fate.Running? ==> SetUp(Answers(old(ioctls)), Answers(ioctls), old(grants), sizeimage)
      ensures fate.Running? <==> SetupSucceeds(io, old(ioctls), old(grants))
      ensures fate.Running? ==> ioctls == Rest(old(ioctls), SetupCalls(io, |buffers|))
      ensures fate != AssertionFailed
    {
      match io {
        case Read => InitRead(sizeimage);
        case Mmap => InitMmap();
        case UserPtr => InitUserp(sizeimage);
      }
    }

    /** start_capturing and mainloop. */
    method CaptureFrames(frameCount: int, ghost plan: Plan)
      requires fate.Running? && Settled() && CanCapture() && InStep() && calls == [] && images == []
      requires plan == Plan(|buffers| + 1, frameCount % U32, frameCount % U32)
      modifies this`ioctls, this`heard, this`readReplies, this`heardReads, this`fate, this`log, this`images, this`calls
      modifies this`selects, this`selected
      ensures Settled()
      ensures ImagesFrom(io, buffers, answers, plan.first, images, 0) && |images| <= plan.images
      ensures fate.Running? ==> InStep() && |images| == plan.images
      ensures fate.Running? && !io.Read? ==> Paired(Opening(io, buffers), calls, answers, plan.frames)
      ensures fate == AssertionFailed ==> FailedAssertion(plan.frames)
      ensures fate.Running? && OnCourse(plan, 0) <==> old(OnCourse(plan, 0))
    {
      StartCapturing(plan);
      if fate.Running? {
        assert !io.Read? ==> calls == Opening(io, buffers);
        Mainloop(frameCount, plan);
      }
    }

    /**
     * start_capturing, mainloop, stop_capturing. If all three return, frame_count images were
     * processed and the application's ioctls are a complete grabber session; they return exactly
     * when the scripts carry them to the end. However they end, image k is what the answer to
     * call n + 1 + 2k describes, and an assertion has failed only on an answer, to a DQBUF, that
     * names no buffer of the application.
     */
    method Capture(frameCount: int)
      requires fate.Running? && Settled() && CanCapture() && calls == [] && images == []
      modifies this`ioctls, this`heard, this`readReplies, this`heardReads, this`fate, this`log, this`images, this`calls
      modifies this`selects, this`selected, this`answers
      ensures Settled()
      ensures answers == Answers(old(ioctls))
      ensures ImagesFrom(io, buffers, answers, |buffers| + 1, images, 0) && |images| <= frameCount % U32
      ensures fate.Running? ==> |images| == frameCount % U32
      ensures fate.Running? && !io.Read? ==> CompleteSession(frameCount % U32)
      ensures fate == AssertionFailed ==> FailedAssertion(frameCount % U32)
      ensures var plan := Plan(|buffers| + 1, frameCount % U32, frameCount % U32);
              fate.Running? <==> old(Carries(io, buffers, plan, ioctls, readReplies, selects))
    {
      ghost var plan := Plan(|buffers| + 1, frameCount % U32, frameCount % U32);
      answers := Answers(ioctls);
      CaptureFrames(frameCount, plan);
      if fate.Running? {
        ghost var loop := calls;
        StopCapturing(plan);
        if fate.Running? && !io.Read? {
          SessionIsComplete(loop, frameCount % U32);
        }
      }
    }

    lemma SessionIsComplete(loop: seq<Call>, f: nat)
      requires Paired(Opening(io, buffers), loop, answers, f)
      requires calls == loop + [StreamOffCall] && |calls| <= |answers| && nBuffers == |buffers|
      ensures CompleteSession(f)
    {
      assert calls[..|calls| - 1] == loop;
      CaptureIsGrabberOrder(io, buffers, loop, answers, f);
    }

    /** All buffers queued, a start, `f` frames and a stop. */
    ghost predicate CompleteSession(f: nat)
      reads this`calls, this`io, this`buffers, this`nBuffers, this`answers
    {
      && 0 < |calls| <= |answers| && calls[|calls| - 1] == StreamOffCall && GrabberCalls(nBuffers, calls)
      && Paired(Opening(io, buffers), calls[..|calls| - 1], answers, f)
    }

    /** The next call is a DQBUF among those of `f` frames, and its answer is refused. */
    ghost predicate FailedAssertion(f: nat)
      reads this`io, this`calls, this`answers, this`buffers
    {
      !io.Read? && DequeuesAt(|buffers| + 1, f, |calls|) && NextIsUnrecognised()
    }

    /** main after init_device. */
    method CaptureAndRelease(frameCount: int, ghost base: set<Buffer>)
      requires fate.Running? && Settled() && CanCapture() && calls == [] && images == [] && Holds(base)
      requires if io.Read? then |buffers| == 1 else nBuffers == |buffers|
      modifies this`ioctls, this`heard, this`readReplies, this`heardReads, this`fate, this`log, this`images, this`calls
      modifies this`selects, this`selected, this`answers, this`live, this`released, this`unmaps
      ensures Settled()
      ensures answers == Answers(old(ioctls))
      ensures ImagesFrom(io, buffers, answers, |buffers| + 1, images, 0) && |images| <= frameCount % U32
      ensures fate.Running? ==> |images| == frameCount % U32
      ensures fate.Running? ==> live == base && released == old(released) + buffers + [table]
      ensures fate.Running? && !io.Read? ==> CompleteSession(frameCount % U32)
      ensures fate == AssertionFailed ==> FailedAssertion(frameCount % U32)
      ensures var plan := Plan(|buffers| + 1, frameCount % U32, frameCount % U32);
              fate.Running? <==>
                old(Carries(io, buffers, plan, ioctls, readReplies, selects)) && Unmaps(io, old(unmaps), |buffers|)
    {
      Capture(frameCount);
      if fate.Running? {
        UninitDevice(base);
      }
    }

    /**
     * main from init_device on, lines 640-645: a run that does not exit processes frame_count
     * images and gives back every mapping and allocation it took, each once; it returns exactly
     * when the environment lets it. However it ends, its images and a failed assertion are as
     * Capture says, for the buffers and the answers that were there at the start, and the log of
     * answers says why it has left or what it waits for.
     */
    method CaptureRun(frameCount: int, sizeimage: nat)
      requires fate.Running? && Settled() && FreshGrants() && buffers == [] && nBuffers == 0
      requires calls == [] && images == [] && released == [] && log == []
      modifies this
      ensures Settled()
      ensures io == old(io)
      ensures fate.Running? || fate == AssertionFailed || images != [] ==>
                && SetUp(Answers(old(ioctls)), answers, old(grants), sizeimage) && DistinctStarts(buffers)
                && (!io.Read? ==> nBuffers == |buffers| >= 2)
      ensures ImagesFrom(io, buffers, answers, |buffers| + 1, images, 0) && |images| <= frameCount % U32
      ensures fate.Running? ==> |images| == frameCount % U32 && live == old(live) && released == buffers + [table]
      ensures fate.Running? && !io.Read? ==> CompleteSession(frameCount % U32)
      ensures fate == AssertionFailed ==> FailedAssertion(frameCount % U32)
      ensures fate.Running? <==> WillReturn(io, old(Environment()), frameCount % U32, sizeimage)
    {
      InitDevice(sizeimage);
      if fate.Running? {
        CaptureAndRelease(frameCount, old(live));
      }
    }
  }
}
