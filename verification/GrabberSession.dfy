/**
 * The grabber (lkml/v4l2-app/grabber.c) talking to the driver: start_capturing queues buffers
 * 0, 1, .., n-1 and starts the stream, then every dequeued buffer is queued again at once.
 */
module GrabberSession {
  import opened Arithmetic
  import opened FakeVidDriver
  import opened Streaming

  /** A successful ioctl of the application; QBUF with the memory it names. */
  datatype Call = QbufCall(buf: nat, userptr: nat, length: nat) | DqbufCall(buf: nat) | StreamOnCall | StreamOffCall

  /** The grabber's order of calls: position `k` follows from the ones before it. */
  ghost predicate Follows(n: nat, calls: seq<Call>, k: nat)
    requires k < |calls|
  {
    var c := calls[k];
    if k < n then c.QbufCall? && c.buf == k
    else if k == n then c == StreamOnCall
    else
      && !calls[k - 1].StreamOffCall?
      && if (k - n) % 2 == 1 then c.DqbufCall? || c.StreamOffCall?
         else calls[k - 1].DqbufCall? && c.QbufCall? && c.buf == calls[k - 1].buf
  }

  ghost predicate GrabberCalls(n: nat, calls: seq<Call>) {
    forall k: nat | k < |calls| :: Follows(n, calls, k)
  }

  /** The application's part of a step. */
  function CallOf(step: Step): seq<Call> {
    match step
    case Qbuf(b, u, len) => [QbufCall(b, u, len)]
    case Dqbuf(b) => [DqbufCall(b)]
    case StreamOn(_) => [StreamOnCall]
    case RequestStop => [StreamOffCall]
    case Cancel => [StreamOffCall]
    case _ => []
  }

  /** The application's calls during the first `i` steps. */
  function Calls(steps: seq<Step>, i: nat): seq<Call>
    requires i <= |steps|
  {
    if i == 0 then [] else Calls(steps, i - 1) + CallOf(steps[i - 1])
  }

  ghost predicate IsGrabberRun(t: seq<State>, steps: seq<Step>) {
    && IsRun(t, steps)
    && StartsSucceed(steps)
    && |t[0].planes| > 0
    && GrabberCalls(|t[0].planes|, Calls(steps, |steps|))
  }

  function Ids(n: nat): seq<nat> {
    seq(n, i => i)
  }

  // ---------------------------------------------------------------- how calls and states go together

  /**
   * The loop closes: after the first round, what is queued is what was taken, and what was
   * taken is the oldest part of what was queued.
   */
  ghost predicate Cycle(s: State, n: nat) {
    && n <= |s.drv.accepted|
    && s.drv.accepted[..n] == Ids(n)
    && s.drv.accepted[n..] <= BufOf(s.taken) <= s.drv.accepted
    && |s.taken| <= |Bufs(s.drv.returned, Done)|
    && (forall k | 0 <= k < |s.taken| :: s.taken[k].status == Done)
  }

  ghost predicate Filling(s: State, c: nat) {
    && s.phase.Off?
    && s.queued == Ids(c)
    && s.drv.accepted == [] && s.drv.returned == [] && s.taken == []
    && forall b: nat :: b in s.app <==> c <= b < |s.planes|
  }

  /** What was queued after the first round. */
  function Requeued(s: State): seq<nat> {
    if |s.planes| <= |s.drv.accepted| then s.drv.accepted[|s.planes|..] else []
  }

  ghost predicate Idle(s: State) {
    s.phase.On? && s.app == {} && Requeued(s) == BufOf(s.taken)
  }

  ghost predicate Holding(s: State, calls: seq<Call>) {
    && s.phase.On?
    && s.taken != []
    && var b := s.taken[|s.taken| - 1].buf;
    && calls != [] && calls[|calls| - 1] == DqbufCall(b)
    && s.app == {b}
    && Requeued(s) + [b] == BufOf(s.taken)
  }

  /** The state a grabber run is in after `calls`. */
  ghost predicate Agrees(s: State, calls: seq<Call>) {
    var n, c := |s.planes|, |calls|;
    if c <= n then Filling(s, c)
    else
      && Cycle(s, n)
      && if calls[c - 1].StreamOffCall? then !s.phase.On?
         else
           && |s.taken| == (c - n) / 2
           && if (c - n) % 2 == 1 then Idle(s) else Holding(s, calls)
  }

  lemma {:induction false} CallsPrefix(steps: seq<Step>, i: nat, j: nat)
    requires i <= j <= |steps|
    ensures Calls(steps, i) <= Calls(steps, j)
  {
    if i < j {
      CallsPrefix(steps, i, j - 1);
    }
  }

  lemma GrabberCallsPrefix(n: nat, calls: seq<Call>, p: seq<Call>)
    requires GrabberCalls(n, calls) && p <= calls
    ensures GrabberCalls(n, p)
  {
    forall k: nat | k < |p| ensures Follows(n, p, k) {
      assert Follows(n, calls, k);
    }
  }

  /** In a streaming session the frames taken are the first ones queued. */
  lemma TakenFromAccepted(s: State)
    requires Inv(s) && s.phase.On?
    ensures BufOf(s.taken + s.done) == Bufs(s.drv.returned, Done)
    ensures BufOf(s.taken + s.done) <= s.drv.accepted
    ensures forall k | 0 <= k < |s.taken + s.done| :: (s.taken + s.done)[k].status == Done
    ensures forall k | 0 <= k < |s.taken| :: s.taken[k].status == Done
    ensures forall k | 0 <= k < |s.done| :: s.done[k].status == Done
  {
    BufsAllDone(s.drv.returned);
    assert forall k | 0 <= k < |s.taken| :: s.taken[k] == s.drv.returned[k];
    assert forall k | 0 <= k < |s.done| :: s.done[k] == s.drv.returned[|s.taken| + k];
    assert s.drv.accepted == Bufs(s.drv.returned, Done) + (Hand(s.drv.thread) + Kept(s.drv.lost) + s.drv.active);
  }

  lemma FirstRoundAgrees(s: State, b: nat, u: nat, len: nat, calls: seq<Call>)
    requires Filling(s, |calls|) && |calls| < |s.planes| && b == |calls| && Enabled(s, Qbuf(b, u, len))
    ensures Agrees(Next(s, Qbuf(b, u, len)), calls + [QbufCall(b, u, len)])
  {
  }

  lemma RequeueAgrees(s: State, b: nat, u: nat, len: nat, calls: seq<Call>)
    requires |calls| > |s.planes| && Cycle(s, |s.planes|) && Holding(s, calls) && Enabled(s, Qbuf(b, u, len))
    requires |s.taken| == (|calls| - |s.planes|) / 2 && (|calls| - |s.planes|) % 2 == 0
    requires BufOf(s.taken) <= s.drv.accepted && b == calls[|calls| - 1].buf
    ensures Agrees(Next(s, Qbuf(b, u, len)), calls + [QbufCall(b, u, len)])
  {
  }

  lemma QbufAgrees(s: State, b: nat, u: nat, len: nat, calls: seq<Call>)
    requires Agrees(s, calls) && Enabled(s, Qbuf(b, u, len))
    requires GrabberCalls(|s.planes|, calls + [QbufCall(b, u, len)])
    ensures Agrees(Next(s, Qbuf(b, u, len)), calls + [QbufCall(b, u, len)])
  {
    assert Follows(|s.planes|, calls + [QbufCall(b, u, len)], |calls|);
    if |calls| < |s.planes| {
      FirstRoundAgrees(s, b, u, len, calls);
    } else {
      RequeueAgrees(s, b, u, len, calls);
    }
  }

  lemma DqbufAgrees(s: State, b: nat, calls: seq<Call>)
    requires Inv(s) && Agrees(s, calls) && Enabled(s, Dqbuf(b))
    requires GrabberCalls(|s.planes|, calls + [DqbufCall(b)])
    ensures Agrees(Next(s, Dqbuf(b)), calls + [DqbufCall(b)])
  {
    DqbufTakesNext(s, b);
    DqbufGoesOn(s, b, calls);
  }

  lemma DqbufGoesOn(s: State, b: nat, calls: seq<Call>)
    requires Agrees(s, calls) && Enabled(s, Dqbuf(b)) && GrabberCalls(|s.planes|, calls + [DqbufCall(b)])
    requires BufOf(s.taken + [s.done[0]]) <= s.drv.accepted && |s.taken| < |Bufs(s.drv.returned, Done)|
    requires forall k | 0 <= k < |s.taken + [s.done[0]]| :: (s.taken + [s.done[0]])[k].status == Done
    ensures Agrees(Next(s, Dqbuf(b)), calls + [DqbufCall(b)])
  {
    assert Follows(|s.planes|, calls + [DqbufCall(b)], |calls|);
    BufOfAppend(s.taken, s.done[0]);
  }

  lemma DqbufTakesNext(s: State, b: nat)
    requires Inv(s) && Enabled(s, Dqbuf(b))
    ensures var taken := s.taken + [s.done[0]];
            && BufOf(taken) <= s.drv.accepted && |taken| <= |Bufs(s.drv.returned, Done)|
            && forall k | 0 <= k < |taken| :: taken[k].status == Done
  {
    TakenFromAccepted(s);
    assert s.taken + s.done == s.taken + [s.done[0]] + s.done[1..];
    assert BufOf(s.taken + [s.done[0]]) <= BufOf(s.taken + s.done);
  }

  lemma StreamOnAgrees(s: State, calls: seq<Call>)
    requires Inv(s) && Agrees(s, calls) && Enabled(s, StreamOn(true))
    requires GrabberCalls(|s.planes|, calls + [StreamOnCall])
    ensures Agrees(Next(s, StreamOn(true)), calls + [StreamOnCall])
  {
    var n, c := |s.planes|, |calls|;
    var s' := Next(s, StreamOn(true));
    assert Follows(n, calls + [StreamOnCall], c);
    assert s'.drv.accepted == Ids(n);
    assert BufOf(s'.taken) == [];
    assert s'.app == {};
  }

  /** Two states that look the same to the application, the later one with no fewer completions. */
  lemma SameForApplication(s: State, s': State, calls: seq<Call>)
    requires Agrees(s, calls) && s'.planes == s.planes && s'.phase == s.phase
    requires s'.app == s.app && s'.queued == s.queued && s'.taken == s.taken && s'.drv.accepted == s.drv.accepted
    requires |Bufs(s.drv.returned, Done)| <= |Bufs(s'.drv.returned, Done)|
    requires s.phase.Off? ==> s'.drv.returned == s.drv.returned
    ensures Agrees(s', calls)
  {
  }

  lemma ThreadAgrees(s: State, mapped: bool, calls: seq<Call>)
    requires PhaseShape(s) && Agrees(s, calls) && Enabled(s, Thread(mapped))
    ensures Agrees(Next(s, Thread(mapped)), calls)
  {
    if s.drv.thread.Filled? {
      BufsAppend(s.drv.returned, Return(s.drv.thread.buf, Done), Done);
    }
    SameForApplication(s, Next(s, Thread(mapped)), calls);
  }

  lemma StopAgrees(s: State, step: Step, calls: seq<Call>)
    requires Inv(s) && Agrees(s, calls) && Enabled(s, step)
    requires step.RequestStop? || step.Join? || step.DrainOne? || step.Reclaim?
    ensures Agrees(Next(s, step), calls + CallOf(step))
  {
    if step.DrainOne? {
      BufsAppend(s.drv.returned, Return(s.drv.active[0], Error), Done);
    }
    assert calls + [] == calls;
  }

  /** STREAMOFF before or after streaming is not in the grabber's order of calls. */
  lemma GrabberNeverCancels(s: State, calls: seq<Call>)
    requires Agrees(s, calls) && s.phase.Off?
    ensures !GrabberCalls(|s.planes|, calls + [StreamOffCall])
  {
    assert !Follows(|s.planes|, calls + [StreamOffCall], |calls|);
  }

  lemma StepAgrees(s: State, step: Step, calls: seq<Call>)
    requires Inv(s) && Agrees(s, calls) && Enabled(s, step) && step != StreamOn(false)
    requires |s.planes| > 0 && GrabberCalls(|s.planes|, calls + CallOf(step))
    ensures Agrees(Next(s, step), calls + CallOf(step))
  {
    match step
    case Qbuf(b, u, len) => QbufAgrees(s, b, u, len, calls);
    case Dqbuf(b) => DqbufAgrees(s, b, calls);
    case StreamOn(_) => StreamOnAgrees(s, calls);
    case Thread(mapped) => ThreadAgrees(s, mapped, calls); assert calls + [] == calls;
    case Cancel => GrabberNeverCancels(s, calls);
    case _ => StopAgrees(s, step, calls);
  }

  /** The calls made so far are in the grabber's order. */
  lemma CallsSoFar(t: seq<State>, steps: seq<Step>, i: nat)
    requires IsGrabberRun(t, steps) && i <= |steps|
    ensures GrabberCalls(|t[0].planes|, Calls(steps, i))
  {
    CallsPrefix(steps, i, |steps|);
    GrabberCallsPrefix(|t[0].planes|, Calls(steps, |steps|), Calls(steps, i));
  }

  lemma InitialAgrees(byUser: bool, planes: seq<nat>)
    ensures Agrees(Initial(byUser, planes), [])
  {
    assert Ids(0) == [];
  }

  /** A step of a grabber run, with the calls before and after it. */
  ghost predicate Advances(s: State, step: Step, s': State, before: seq<Call>, after: seq<Call>) {
    && Inv(s) && Enabled(s, step) && step != StreamOn(false) && s' == Next(s, step)
    && |s.planes| > 0 && after == before + CallOf(step) && GrabberCalls(|s.planes|, after)
  }

  lemma AdvanceAgrees(s: State, step: Step, s': State, before: seq<Call>, after: seq<Call>)
    requires Advances(s, step, s', before, after) && Agrees(s, before)
    ensures Agrees(s', after)
  {
    StepAgrees(s, step, before);
  }

  lemma RunAdvances(t: seq<State>, steps: seq<Step>, i: nat)
    requires IsGrabberRun(t, steps) && i < |steps|
    ensures Advances(t[i], steps[i], t[i + 1], Calls(steps, i), Calls(steps, i + 1))
  {
    RunInv(t, steps, i);
    CallsSoFar(t, steps, i + 1);
    assert Moves(t, steps, i);
  }

  lemma {:induction false} RunAgreesWithCalls(t: seq<State>, steps: seq<Step>, i: nat)
    requires IsGrabberRun(t, steps) && i < |t|
    ensures Agrees(t[i], Calls(steps, i))
  {
    if i == 0 {
      InitialAgrees(t[0].byUser, t[0].planes);
    } else {
      var k := i - 1;
      RunAgreesWithCalls(t, steps, k);
      RunAdvances(t, steps, k);
      AdvanceAgrees(t[k], steps[k], t[k + 1], Calls(steps, k), Calls(steps, k + 1));
    }
  }

  lemma RunAgrees(t: seq<State>, steps: seq<Step>, i: nat)
    requires IsGrabberRun(t, steps) && i < |t|
    ensures Inv(t[i]) && t[i].planes == t[0].planes
    ensures Agrees(t[i], Calls(steps, i))
  {
    RunInv(t, steps, i);
    RunAgreesWithCalls(t, steps, i);
  }

  // ---------------------------------------------------------------- round robin

  /** Entry `k` of `q` is `k` mod `n`. */
  ghost predicate TakesTurns(q: seq<nat>, n: nat)
    requires n > 0
  {
    forall k | 0 <= k < |q| :: q[k] == k % n
  }

  /** A queue whose later part repeats its own front goes round for ever. */
  lemma {:induction false} ClosedLoop(acc: seq<nat>, front: seq<nat>, n: nat, k: nat)
    requires 0 < n <= |acc| && acc[..n] == Ids(n) && acc[n..] <= front <= acc
    requires k < |acc|
    ensures acc[k] == k % n
  {
    if k < n {
      assert acc[k] == acc[..n][k];
      DivModUnique(k, n, 0, k);
    } else {
      ClosedLoop(acc, front, n, k - n);
      assert acc[k] == acc[n..][k - n] == front[k - n] == acc[k - n];
      ModOneRound(k, n);
    }
  }

  /**
   * Round robin, end to end: in every state of every grabber session, whatever the thread's
   * timing, the k-th buffer queued, the k-th frame completed and the k-th frame dequeued are all
   * buffer k mod n, and every frame dequeued is a completed one.
   */
  lemma RoundRobin(t: seq<State>, steps: seq<Step>, i: nat)
    requires IsGrabberRun(t, steps) && i < |t|
    ensures TakesTurns(t[i].drv.accepted, |t[0].planes|)
    ensures TakesTurns(Bufs(t[i].drv.returned, Done), |t[0].planes|)
    ensures TakesTurns(BufOf(t[i].taken), |t[0].planes|)
    ensures forall k | 0 <= k < |t[i].taken| :: t[i].taken[k].status == Done
  {
    RunAgrees(t, steps, i);
    var s, n := t[i], |t[0].planes|;
    if |Calls(steps, i)| > n {
      forall k | 0 <= k < |s.drv.accepted| ensures s.drv.accepted[k] == k % n {
        ClosedLoop(s.drv.accepted, BufOf(s.taken), n, k);
      }
      TurnsOfPrefix(s.drv.accepted, BufOf(s.taken), n);
      assert Bufs(s.drv.returned, Done) <= s.drv.accepted;
      TurnsOfPrefix(s.drv.accepted, Bufs(s.drv.returned, Done), n);
    }
  }

  lemma TurnsOfPrefix(q: seq<nat>, p: seq<nat>, n: nat)
    requires n > 0 && TakesTurns(q, n) && p <= q
    ensures TakesTurns(p, n)
  {
  }

  // ---------------------------------------------------------------- when the thread leaves early

  /** A grabber run streams once: no STREAMON follows a state that is already streaming. */
  lemma StreamsOnce(t: seq<State>, steps: seq<Step>, i: nat, j: nat)
    requires IsGrabberRun(t, steps) && i <= j < |t| && t[i].phase.On?
    ensures SameSession(steps, i, j)
  {
    RunAgrees(t, steps, i);
    assert |Calls(steps, i)| > |t[0].planes|;
    forall k | i <= k < j && k < |steps| ensures !steps[k].StreamOn? {
      CallsPrefix(steps, i, k);
      NoLaterStart(steps, |t[0].planes|, k);
    }
  }

  /** The step that makes call number `c`. */
  lemma {:induction false} StepOfCall(steps: seq<Step>, j: nat, c: nat) returns (i: nat)
    requires j <= |steps| && c < |Calls(steps, j)|
    ensures i < j && |Calls(steps, i)| == c && CallOf(steps[i]) == [Calls(steps, j)[c]]
  {
    if c < |Calls(steps, j - 1)| {
      i := StepOfCall(steps, j - 1, c);
    } else {
      i := j - 1;
    }
  }

  /** A step's call sits right after the calls before it. */
  lemma CallPosition(steps: seq<Step>, k: nat)
    requires k < |steps| && CallOf(steps[k]) != []
    ensures |Calls(steps, k)| < |Calls(steps, |steps|)|
    ensures Calls(steps, |steps|)[|Calls(steps, k)|] == CallOf(steps[k])[0]
  {
    CallsPrefix(steps, k + 1, |steps|);
  }

  /** After more than n calls, no step is a STREAMON. */
  lemma NoLaterStart(steps: seq<Step>, n: nat, k: nat)
    requires GrabberCalls(n, Calls(steps, |steps|)) && k < |steps| && |Calls(steps, k)| > n
    ensures !steps[k].StreamOn?
  {
    if steps[k].StreamOn? {
      CallPosition(steps, k);
      StartIsCallN(n, Calls(steps, |steps|), |Calls(steps, k)|);
    }
  }

  /** STREAMON is call number n and no other. */
  lemma StartIsCallN(n: nat, calls: seq<Call>, k: nat)
    requires GrabberCalls(n, calls) && k < |calls|
    ensures calls[k].StreamOnCall? <==> k == n
  {
    assert Follows(n, calls, k);
  }

  /**
   * Once the thread has left, for whatever reason, the application can dequeue what is in the
   * done queue and nothing more, however long it goes on.
   */
  lemma FramesAfterExit(t: seq<State>, steps: seq<Step>, i: nat, j: nat)
    requires IsGrabberRun(t, steps) && i <= j < |t|
    requires t[i].phase.On? && !Runnable(t[i].drv.thread)
    ensures !Runnable(t[j].drv.thread)
    ensures Bufs(t[j].drv.returned, Done) == Bufs(t[i].drv.returned, Done)
    ensures |t[j].taken| <= |t[i].taken| + |t[i].done| == |Bufs(t[i].drv.returned, Done)|
    ensures t[j].phase.On? ==> (|t[j].taken| < |t[i].taken| + |t[i].done| <==> t[j].done != [])
  {
    StreamsOnce(t, steps, i, j);
    NoFrameAfterExit(t, steps, i, j);
    RunAgrees(t, steps, i);
    RunAgrees(t, steps, j);
    TakenFromAccepted(t[i]);
    CallsPrefix(steps, i, j);
    if t[j].phase.On? {
      TakenFromAccepted(t[j]);
    }
  }

  /**
   * The thread leaves for good when it finds the list empty (lines 96-101). In a grabber session
   * that happens with at least n - 1 buffers waiting in the done queue; no frame is completed
   * after it, and at most n more can be dequeued before select times out.
   */
  lemma EarlyExit(t: seq<State>, steps: seq<Step>, i: nat, j: nat)
    requires IsGrabberRun(t, steps) && i < j < |t|
    requires steps[i].Thread? && t[i].drv.thread.TakeHead? && t[i].drv.active == [] && t[i].phase.On?
    ensures t[i + 1].drv.thread == Exited(ListEmpty)
    ensures |t[0].planes| - 1 <= |t[i].done| <= |t[0].planes|
    ensures Bufs(t[j].drv.returned, Done) == Bufs(t[i].drv.returned, Done)
    ensures |t[j].taken| <= |t[i].taken| + |t[i].done|
    ensures t[j].phase.On? && t[j].done == [] ==> forall step | Enabled(t[j], step) :: !step.Dqbuf? && !step.Thread?
  {
    AlmostAllDone(t, steps, i);
    assert Moves(t, steps, i);
    FramesAfterExit(t, steps, i + 1, j);
  }

  /** With an empty list and empty hands, all buffers but at most one are done. */
  lemma AlmostAllDone(t: seq<State>, steps: seq<Step>, i: nat)
    requires IsGrabberRun(t, steps) && i < |t| && t[i].phase.On?
    requires t[i].drv.thread.TakeHead? && t[i].drv.active == []
    ensures |t[0].planes| - 1 <= |t[i].done| <= |t[0].planes|
  {
    RunAgrees(t, steps, i);
    PlaceCountsSum(t[i]);
    SessionCounts(t[i], Calls(steps, i));
  }

  lemma SessionCounts(s: State, calls: seq<Call>)
    requires Agrees(s, calls) && s.phase.On?
    ensures |s.taken| == (|calls| - |s.planes|) / 2 <= |Bufs(s.drv.returned, Done)|
    ensures |s.drv.accepted| == |s.planes| + |s.taken| - |s.app| && |s.app| <= 1
  {
  }

  /**
   * The frames the application has seen are its DQBUF calls, at most what the thread completed;
   * the buffers queued are the first round and one for every frame no longer held.
   */
  lemma FramesAreCompletions(t: seq<State>, steps: seq<Step>, i: nat)
    requires IsGrabberRun(t, steps) && i < |t| && t[i].phase.On?
    ensures |t[i].taken| == (|Calls(steps, i)| - |t[0].planes|) / 2 <= |Bufs(t[i].drv.returned, Done)|
    ensures |t[i].drv.accepted| == |t[0].planes| + |t[i].taken| - |t[i].app| && |t[i].app| <= 1
  {
    RunAgrees(t, steps, i);
    SessionCounts(t[i], Calls(steps, i));
  }
}
