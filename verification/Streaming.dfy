/**
 * The buffer-streaming protocol as a whole: the driver with its thread, the videobuf2 queue
 * between driver and application, and an application that may issue any ioctl it is allowed to.
 *
 * videobuf2 appears only through what the V4L2 API specification (section 3.2 "Streaming I/O
 * (Memory Mapping)") promises: it passes on only buffers it owns, in order; ioctls are
 * serialised; finished buffers wait in a FIFO; STREAMOFF takes every buffer back.
 *
 * A run is a sequence of states `t` and of steps, `t[i + 1]` being `t[i]` after `steps[i]`, in
 * any interleaving of ioctls, thread steps and the phases of stop_streaming.
 */
module Streaming {
  import opened Wrappers
  import opened FrameFormat
  import opened FakeVidDriver

  datatype Phase =
    | Off        // not streaming
    | On         // between STREAMON and STREAMOFF
    | Joining    // stop_streaming waits in kthread_stop
    | Draining   // stop_streaming empties the list

  /** What QBUF was told about a buffer of the application's own memory. */
  datatype Queued = Queued(userptr: nat, length: nat)

  datatype State = State(
    byUser: bool,             // user-pointer buffers rather than mapped ones
    planes: seq<nat>,         // size of the planes vb2 allocated, one for every buffer
    phase: Phase,
    drv: Driver,
    app: set<nat>,            // dequeued buffers
    queued: seq<nat>,         // given to QBUF before streaming
    done: seq<Return>,        // vb2's done queue
    taken: seq<Return>,       // DQBUF results of this session
    payload: map<nat, nat>,   // bytesused set by buf_prepare
    user: map<nat, Queued>)   // address and length last given to QBUF

  datatype Step =
    | Qbuf(buf: nat, userptr: nat, length: nat)
    | Dqbuf(buf: nat)
    | StreamOn(started: bool)
    | Thread(mapped: bool)
    | RequestStop             // STREAMOFF: kthread_stop is called
    | Join                    // kthread_stop returns
    | DrainOne                // one turn of the drain loop
    | Reclaim                 // vb2 takes all buffers back, STREAMOFF returns
    | Cancel                  // STREAMOFF when not streaming

  /** All buffer indices below `n`. */
  function Universe(n: nat): (u: set<nat>)
    ensures forall b: nat :: b in u <==> b < n
  {
    if n == 0 then {} else Universe(n - 1) + {n - 1}
  }

  function BufOf(r: seq<Return>): seq<nat> {
    seq(|r|, i requires 0 <= i < |r| => r[i].buf)
  }

  /** The plane a buffer has: the memory given to QBUF, or the one vb2 allocated. */
  function PlaneSize(s: State, b: nat): nat
    requires b < |s.planes|
  {
    if !s.byUser then s.planes[b] else if b in s.user then s.user[b].length else 0
  }

  predicate Enabled(s: State, step: Step) {
    match step
    case Qbuf(b, _, length) =>
      (s.phase.Off? || s.phase.On?) && b in s.app && b < |s.planes|
      && (if s.byUser then length else s.planes[b]) >= PayloadSize(WIDTH, HEIGHT, PIXELSIZE)
    case Dqbuf(b) => s.phase.On? && s.done != [] && s.done[0].buf == b
    case StreamOn(_) => s.phase.Off? && s.queued != []   // min_buffers_needed is 1
    case Thread(_) => Runnable(s.drv.thread)
    case RequestStop => s.phase.On?
    case Join => s.phase.Joining? && s.drv.thread.Exited?
    case DrainOne => s.phase.Draining? && s.drv.active != []
    case Reclaim => s.phase.Draining? && s.drv.active == []
    case Cancel => s.phase.Off?
  }

  function Next(s: State, step: Step): State
    requires Enabled(s, step)
  {
    match step
    case Qbuf(b, userptr, length) =>
      var s1 := s.(app := s.app - {b}, payload := s.payload[b := PayloadSize(WIDTH, HEIGHT, PIXELSIZE)],
                   user := s.user[b := Queued(userptr, length)]);
      if s.phase.Off? then s1.(queued := s.queued + [b]) else s1.(drv := Queue(s.drv, b))
    case Dqbuf(b) => s.(done := s.done[1..], taken := s.taken + [s.done[0]], app := s.app + {b})
    case StreamOn(started) =>
      if started then s.(phase := On, queued := [], taken := [], drv := Start(s.drv, s.queued))
      else s.(drv := StartFailed(s.drv, s.queued))   // vb2 keeps the buffers queued
    case Thread(mapped) =>
      s.(drv := ThreadStep(s.drv, mapped),
         done := if s.drv.thread.Filled? then s.done + [Return(s.drv.thread.buf, Done)] else s.done)
    case RequestStop => s.(phase := Joining, drv := FakeVidDriver.RequestStop(s.drv))
    case Join => s.(phase := Draining, drv := FakeVidDriver.Join(s.drv))
    case DrainOne =>
      s.(drv := FakeVidDriver.DrainOne(s.drv), done := s.done + [Return(s.drv.active[0], Error)])
    case Reclaim => s.(phase := Off, app := Universe(|s.planes|), queued := [], done := [])
    case Cancel => s.(app := Universe(|s.planes|), queued := [])
  }

  function Initial(byUser: bool, planes: seq<nat>): State {
    State(byUser, planes, Off, Driver([], NoThread, false, None, [], []), Universe(|planes|), [], [], [], map[], map[])
  }

  /** Step `i` of the run leads from state `i` to the next. */
  ghost predicate Moves(t: seq<State>, steps: seq<Step>, i: nat) {
    i + 1 < |t| && i < |steps| && Enabled(t[i], steps[i]) && t[i + 1] == Next(t[i], steps[i])
  }

  ghost predicate IsRun(t: seq<State>, steps: seq<Step>) {
    && |t| == |steps| + 1
    && t[0] == Initial(t[0].byUser, t[0].planes)
    && forall i: nat | i < |steps| :: Moves(t, steps, i)
  }

  /** kthread_run succeeds every time in the run. */
  ghost predicate StartsSucceed(steps: seq<Step>) {
    forall i | 0 <= i < |steps| :: steps[i] != StreamOn(false)
  }

  // ---------------------------------------------------------------- the invariant

  function Occurs(q: seq<nat>, b: nat): nat {
    if q == [] then 0 else (if q[0] == b then 1 else 0) + Occurs(q[1..], b)
  }

  /** How often buffer `b` is found, over all the places a buffer can be. */
  function Copies(s: State, b: nat): nat {
    (if b in s.app then 1 else 0) + Occurs(s.queued, b) + Occurs(s.drv.active, b)
    + Occurs(Hand(s.drv.thread), b) + Occurs(BufOf(s.done), b)
    + (if s.phase.Off? then 0 else Occurs(Kept(s.drv.lost), b))
  }

  /** Every buffer is in exactly one place, exactly once, and nothing else is anywhere. */
  ghost predicate ExactlyOnePlace(s: State) {
    forall b: nat :: Copies(s, b) == if b < |s.planes| then 1 else 0
  }

  /** Frames reach the application in the order the driver returned them. */
  ghost predicate DeliveredInOrder(s: State) {
    !s.phase.Off? ==> s.drv.returned == s.taken + s.done
  }

  ghost predicate PhaseShape(s: State) {
    match s.phase
    case Off => s.drv.thread.NoThread? && s.drv.active == [] && s.done == []
    case On => !s.drv.thread.NoThread? && !s.drv.stopping && s.queued == []
    case Joining => !s.drv.thread.NoThread? && s.drv.stopping && s.queued == []
    case Draining => s.drv.thread.NoThread? && s.queued == []
  }

  /** Whatever has left the application passed buf_prepare. */
  ghost predicate Prepared(s: State) {
    forall b | 0 <= b < |s.planes| && b !in s.app ::
      && b in s.payload && s.payload[b] == QUEUE_SETUP_SIZE && QUEUE_SETUP_SIZE <= PlaneSize(s, b)
      && b in s.user
  }

  ghost predicate Inv(s: State) {
    && Session(s.drv)
    && ExactlyOnePlace(s)
    && DeliveredInOrder(s)
    && PhaseShape(s)
    && Prepared(s)
  }

  lemma {:induction false} OccursAppend(q: seq<nat>, x: nat, b: nat)
    ensures Occurs(q + [x], b) == Occurs(q, b) + if b == x then 1 else 0
  {
    if q == [] {
      assert q + [x] == [x];
    } else {
      assert (q + [x])[1..] == q[1..] + [x];
      OccursAppend(q[1..], x, b);
    }
  }

  lemma BufOfAppend(r: seq<Return>, x: Return)
    ensures BufOf(r + [x]) == BufOf(r) + [x.buf]
  {
  }

  lemma BufOfTail(r: seq<Return>)
    requires r != []
    ensures BufOf(r) != [] && BufOf(r)[0] == r[0].buf && BufOf(r)[1..] == BufOf(r[1..])
  {
  }

  lemma InitialInv(byUser: bool, planes: seq<nat>)
    ensures Inv(Initial(byUser, planes))
  {
  }

  lemma OccursOnce(x: nat, b: nat)
    ensures Occurs([x], b) == if x == b then 1 else 0
  {
  }

  lemma TakeHeadCopies(s: State, b: nat)
    requires s.drv.thread.TakeHead? && s.drv.lost.None?
    ensures Copies(Next(s, Thread(true)), b) == Copies(s, b)
  {
    if s.drv.active != [] {
      OccursOnce(s.drv.active[0], b);
    }
  }

  lemma FilledCopies(s: State, b: nat)
    requires s.drv.thread.Filled?
    ensures Copies(Next(s, Thread(true)), b) == Copies(s, b)
  {
    var x := s.drv.thread.buf;
    OccursOnce(x, b);
    BufOfAppend(s.done, Return(x, Done));
    OccursAppend(BufOf(s.done), x, b);
  }

  lemma ThreadCopies(s: State, mapped: bool, b: nat)
    requires Runnable(s.drv.thread) && s.drv.lost.None? && PhaseShape(s)
    ensures Copies(Next(s, Thread(mapped)), b) == Copies(s, b)
  {
    match s.drv.thread
    case TakeHead => TakeHeadCopies(s, b);
    case Filled(_) => FilledCopies(s, b);
    case _ =>
  }

  lemma DrainCopies(s: State, b: nat)
    requires Enabled(s, DrainOne)
    ensures Copies(Next(s, DrainOne), b) == Copies(s, b)
  {
    BufOfAppend(s.done, Return(s.drv.active[0], Error));
    OccursAppend(BufOf(s.done), s.drv.active[0], b);
  }

  /** No step other than a failed start or a reclaim changes how often a buffer is found. */
  lemma StepCopies(s: State, step: Step, b: nat)
    requires Enabled(s, step) && !step.Reclaim? && !step.Cancel? && step != StreamOn(false)
    requires PhaseShape(s) && (Runnable(s.drv.thread) ==> s.drv.lost.None?)
    requires step.Dqbuf? ==> step.buf !in s.app
    ensures Copies(Next(s, step), b) == Copies(s, b)
  {
    match step
    case Qbuf(x, _, _) =>
      OccursAppend(s.queued, x, b);
      OccursAppend(s.drv.active, x, b);
    case Dqbuf(x) =>
      BufOfTail(s.done);
    case StreamOn(_) =>
      assert s.drv.active + s.queued == s.queued;
    case Thread(mapped) => ThreadCopies(s, mapped, b);
    case DrainOne => DrainCopies(s, b);
    case RequestStop =>
    case Join =>
  }

  /** The head of the done queue is a real buffer that the application does not hold. */
  lemma DoneHeadIsAway(s: State)
    requires ExactlyOnePlace(s) && s.done != []
    ensures s.done[0].buf !in s.app && s.done[0].buf < |s.planes|
  {
    var b := s.done[0].buf;
    BufOfTail(s.done);
    assert Copies(s, b) == if b < |s.planes| then 1 else 0;
  }

  lemma StepPlaces(s: State, step: Step)
    requires Enabled(s, step) && step != StreamOn(false)
    requires PhaseShape(s) && (Runnable(s.drv.thread) ==> s.drv.lost.None?)
    requires ExactlyOnePlace(s)
    ensures ExactlyOnePlace(Next(s, step))
  {
    var s' := Next(s, step);
    if step.Reclaim? || step.Cancel? {
      assert BufOf([]) == [];
    } else {
      if step.Dqbuf? { DoneHeadIsAway(s); }
      forall b: nat ensures Copies(s', b) == if b < |s'.planes| then 1 else 0 {
        StepCopies(s, step, b);
      }
    }
  }

  lemma StepSession(s: State, step: Step)
    requires Enabled(s, step) && step != StreamOn(false)
    requires PhaseShape(s) && Session(s.drv)
    ensures Session(Next(s, step).drv)
  {
    match step
    case Qbuf(b, _, _) => QueueKeepsSession(s.drv, b);
    case Dqbuf(b) =>
    case StreamOn(_) => StartOpensSession(s.drv, s.queued);
    case Thread(mapped) => ThreadStepKeepsSession(s.drv, mapped);
    case RequestStop =>
    case Join => JoinKeepsSession(s.drv);
    case DrainOne => DrainOneKeepsSession(s.drv);
    case Reclaim =>
    case Cancel =>
  }

  lemma StepOrder(s: State, step: Step)
    requires Enabled(s, step) && step != StreamOn(false)
    requires PhaseShape(s) && DeliveredInOrder(s)
    ensures DeliveredInOrder(Next(s, step)) && PhaseShape(Next(s, step))
  {
  }

  lemma StepPrepared(s: State, step: Step)
    requires Enabled(s, step) && Prepared(s)
    ensures Prepared(Next(s, step))
  {
  }

  /** Every step keeps the invariant, except a start whose thread could not be created. */
  lemma StepInv(s: State, step: Step)
    requires Inv(s) && Enabled(s, step) && step != StreamOn(false)
    ensures Inv(Next(s, step)) && Next(s, step).planes == s.planes && Next(s, step).byUser == s.byUser
  {
    StepPlaces(s, step);
    StepSession(s, step);
    StepOrder(s, step);
    StepPrepared(s, step);
  }

  lemma {:induction false} RunInv(t: seq<State>, steps: seq<Step>, i: nat)
    requires IsRun(t, steps) && StartsSucceed(steps) && i < |t|
    ensures Inv(t[i]) && t[i].planes == t[0].planes && t[i].byUser == t[0].byUser
  {
    if i == 0 {
      InitialInv(t[0].byUser, t[0].planes);
    } else {
      RunInv(t, steps, i - 1);
      assert Moves(t, steps, i - 1);
      StepInv(t[i - 1], steps[i - 1]);
    }
  }

  /** A buffer that holds an image, as mapped or with the memory given. */
  predicate Fits(s: State, b: nat, length: nat) {
    b < |s.planes| && QUEUE_SETUP_SIZE <= if s.byUser then length else s.planes[b]
  }

  /**
   * What is open to everybody in every state of every run, after any number of sessions. Before
   * and while streaming a held buffer that holds an image can be queued; with something queued
   * the stream can be started; while streaming the oldest finished frame can be dequeued and the
   * stream stopped; and a thread that has not left can move.
   */
  lemma OpenInEveryState(t: seq<State>, steps: seq<Step>, i: nat)
    requires IsRun(t, steps) && StartsSucceed(steps) && i < |t|
    ensures t[i].phase.Off? || t[i].phase.On? ==>
              forall b, u, len | b in t[i].app && Fits(t[i], b, len) :: Enabled(t[i], Qbuf(b, u, len))
    ensures t[i].phase.Off? ==> Enabled(t[i], Cancel) && (t[i].queued != [] ==> Enabled(t[i], StreamOn(true)))
    ensures t[i].phase.On? ==> Enabled(t[i], RequestStop)
    ensures t[i].phase.On? && t[i].done != [] ==> Enabled(t[i], Dqbuf(t[i].done[0].buf))
    ensures !t[i].phase.Off? && Runnable(t[i].drv.thread) ==> forall m :: Enabled(t[i], Thread(m))
  {
    RunInv(t, steps, i);
  }

  /** Not streaming, with every buffer in the application's hands. */
  ghost predicate AtRest(s: State) {
    s.phase.Off? && s.queued == [] && s.app == Universe(|s.planes|)
  }

  // ---------------------------------------------------------------- FIFO history

  /**
   * FIFO history, in every state of every run: what was queued this session is what came back
   * as DONE, then the buffer in the thread's hand or lost by it, then what was drained, then
   * what is still listed; what the application took is the oldest part of what came back.
   */
  lemma FifoInEveryState(t: seq<State>, steps: seq<Step>, i: nat)
    requires IsRun(t, steps) && StartsSucceed(steps) && i < |t|
    ensures var d := t[i].drv;
            && d.accepted == Bufs(d.returned, Done) + Hand(d.thread) + Kept(d.lost) + Bufs(d.returned, Error) + d.active
            && d.returned == Tagged(Bufs(d.returned, Done), Done) + Tagged(Bufs(d.returned, Error), Error)
            && |Hand(d.thread)| + |Kept(d.lost)| <= 1
            && (t[i].phase.On? ==> Bufs(d.returned, Error) == [])
    ensures !t[i].phase.Off? ==> t[i].taken <= t[i].drv.returned
  {
    RunInv(t, steps, i);
    CompletionShape(t[i].drv.returned);
  }

  // ---------------------------------------------------------------- ownership

  lemma {:induction false} OccursIsMultiplicity(q: seq<nat>, b: nat)
    ensures Occurs(q, b) == multiset(q)[b]
  {
    if q != [] {
      OccursIsMultiplicity(q[1..], b);
      assert q == [q[0]] + q[1..];
    }
  }

  lemma {:induction false} UniverseSize(n: nat)
    ensures |Universe(n)| == n
  {
    if n > 0 {
      UniverseSize(n - 1);
    }
  }

  lemma PlacesMultiset(s: State)
    requires ExactlyOnePlace(s)
    ensures multiset(s.app) + multiset(s.queued) + multiset(s.drv.active) + multiset(Hand(s.drv.thread))
          + multiset(BufOf(s.done)) + multiset(if s.phase.Off? then [] else Kept(s.drv.lost))
         == multiset(Universe(|s.planes|))
  {
    var lost := if s.phase.Off? then [] else Kept(s.drv.lost);
    var m := multiset(s.app) + multiset(s.queued) + multiset(s.drv.active) + multiset(Hand(s.drv.thread))
           + multiset(BufOf(s.done)) + multiset(lost);
    forall b: nat ensures m[b] == multiset(Universe(|s.planes|))[b] {
      OccursIsMultiplicity(s.queued, b);
      OccursIsMultiplicity(s.drv.active, b);
      OccursIsMultiplicity(Hand(s.drv.thread), b);
      OccursIsMultiplicity(BufOf(s.done), b);
      OccursIsMultiplicity(lost, b);
      assert Copies(s, b) == if b < |s.planes| then 1 else 0;
    }
  }

  lemma PlaceCountsSum(s: State)
    requires ExactlyOnePlace(s)
    ensures |s.app| + |s.queued| + |s.drv.active| + |Hand(s.drv.thread)| + |s.done|
          + (if s.phase.Off? then 0 else |Kept(s.drv.lost)|) == |s.planes|
  {
    PlacesMultiset(s);
    UniverseSize(|s.planes|);
    assert |multiset(Universe(|s.planes|))| == |s.planes|;
    assert |multiset(BufOf(s.done))| == |s.done|;
    assert |multiset(s.app)| == |s.app|;
  }

  lemma {:induction false} RepeatsAreCounted(q: seq<nat>, i: nat, j: nat)
    requires i < j < |q| && q[i] == q[j]
    ensures Occurs(q, q[i]) >= 2
  {
    if i == 0 {
      FoundIsCounted(q[1..], j - 1);
    } else {
      RepeatsAreCounted(q[1..], i - 1, j - 1);
    }
  }

  lemma OnceIsDistinct(q: seq<nat>, i: nat, j: nat)
    requires i < j < |q| && Occurs(q, q[i]) <= 1
    ensures q[i] != q[j]
  {
    if q[i] == q[j] {
      RepeatsAreCounted(q, i, j);
    }
  }

  lemma {:induction false} FoundIsCounted(q: seq<nat>, i: nat)
    requires i < |q|
    ensures Occurs(q, q[i]) >= 1
  {
    if i > 0 {
      FoundIsCounted(q[1..], i - 1);
    }
  }

  /**
   * Exclusive ownership and conservation: in every state of every run each buffer is in exactly
   * one place, the counts add up to the number of buffers, and the active list, the done queue
   * and the queue before streaming never hold a buffer twice.
   */
  lemma OwnershipInEveryState(t: seq<State>, steps: seq<Step>, i: nat)
    requires IsRun(t, steps) && StartsSucceed(steps) && i < |t|
    ensures forall b: nat | b < |t[0].planes| :: Copies(t[i], b) == 1
    ensures |t[i].app| + |t[i].queued| + |t[i].drv.active| + |Hand(t[i].drv.thread)| + |t[i].done|
          + (if t[i].phase.Off? then 0 else |Kept(t[i].drv.lost)|) == |t[0].planes|
    ensures forall j, k | 0 <= j < k < |t[i].drv.active| :: t[i].drv.active[j] != t[i].drv.active[k]
    ensures forall j, k | 0 <= j < k < |t[i].done| :: t[i].done[j].buf != t[i].done[k].buf
    ensures forall j, k | 0 <= j < k < |t[i].queued| :: t[i].queued[j] != t[i].queued[k]
  {
    RunInv(t, steps, i);
    PlaceCountsSum(t[i]);
    var active, bufs, queued := t[i].drv.active, BufOf(t[i].done), t[i].queued;
    forall j, k | 0 <= j < k < |queued| ensures queued[j] != queued[k] {
      assert Copies(t[i], queued[j]) <= 1;
      OnceIsDistinct(queued, j, k);
    }
    forall j, k | 0 <= j < k < |active| ensures active[j] != active[k] {
      assert Copies(t[i], active[j]) <= 1;
      OnceIsDistinct(active, j, k);
    }
    forall j, k | 0 <= j < k < |t[i].done| ensures t[i].done[j].buf != t[i].done[k].buf {
      assert Copies(t[i], bufs[j]) <= 1;
      OnceIsDistinct(bufs, j, k);
    }
  }

  /**
   * Ownership survives a start exactly when the thread could be created: otherwise the driver
   * keeps on its list what videobuf2 has taken back.
   */
  lemma StartKeepsOwnershipIff(s: State, started: bool)
    requires Inv(s) && Enabled(s, StreamOn(started))
    ensures ExactlyOnePlace(Next(s, StreamOn(started))) <==> started
  {
    if started {
      StepInv(s, StreamOn(true));
    } else {
      var s', b := Next(s, StreamOn(false)), s.queued[0];
      assert s'.drv.active == s.queued;
      assert Copies(s', b) >= 2;
    }
  }

  /**
   * A buffer that videobuf2 will hand over again is on the active list already exactly when the
   * start failed: a second attempt links every one of them a second time.
   */
  lemma RetryRelinksIff(s: State, started: bool, b: nat)
    requires Inv(s) && Enabled(s, StreamOn(started)) && b in s.queued
    ensures var s' := Next(s, StreamOn(started)); (b in s'.queued && b in s'.drv.active) <==> !started
    ensures b !in s.drv.active
  {
  }

  // ---------------------------------------------------------------- what is never returned

  /** No STREAMON among the steps from `a` to `b`: one session. */
  ghost predicate SameSession(steps: seq<Step>, a: nat, b: nat) {
    forall k | a <= k < b && k < |steps| :: !steps[k].StreamOn?
  }

  ghost predicate NullAddressAt(t: seq<State>, steps: seq<Step>, k: nat)
    requires |t| == |steps| + 1 && k < |steps|
  {
    steps[k] == Thread(false) && t[k].drv.thread.Popped?
  }

  lemma LostStep(s: State, step: Step)
    requires Enabled(s, step) && !step.StreamOn?
    ensures Next(s, step).drv.lost.Some? <==> s.drv.lost.Some? || (step == Thread(false) && s.drv.thread.Popped?)
  {
  }

  /** A buffer is lost in a session exactly when vb2_plane_vaddr gave NULL in it. */
  lemma {:induction false} LostIffNullAddress(t: seq<State>, steps: seq<Step>, a: nat, i: nat)
    requires IsRun(t, steps) && StartsSucceed(steps)
    requires a < i < |t| && steps[a].StreamOn? && SameSession(steps, a + 1, i)
    ensures t[i].drv.lost.Some? <==> exists k: nat :: a < k < i && NullAddressAt(t, steps, k)
  {
    if i > a + 1 {
      LostIffNullAddress(t, steps, a, i - 1);
      assert Moves(t, steps, i - 1);
      LostStep(t[i - 1], steps[i - 1]);
      assert t[i].drv.lost.Some? <==> t[i - 1].drv.lost.Some? || NullAddressAt(t, steps, i - 1);
    } else {
      assert Moves(t, steps, a);
    }
  }

  /** Buffer `b` was returned or lost as often as it was accepted. */
  ghost predicate ReturnedOrLost(d: Driver, b: nat) {
    Occurs(d.accepted, b)
    == Occurs(Bufs(d.returned, Done), b) + Occurs(Bufs(d.returned, Error), b) + Occurs(Kept(d.lost), b)
  }

  /**
   * Once a session has been stopped, all accepted buffers but at most one were returned, each as
   * often as it was accepted; the exception is the one whose address was NULL.
   */
  lemma AllButTheLostReturn(t: seq<State>, steps: seq<Step>, a: nat, i: nat)
    requires IsRun(t, steps) && StartsSucceed(steps)
    requires a < i < |t| && steps[a].StreamOn? && SameSession(steps, a + 1, i)
    requires t[i].drv.thread.NoThread? && t[i].drv.active == []
    ensures |t[i].drv.accepted| - |t[i].drv.returned|
         == if exists k: nat :: a < k < i && NullAddressAt(t, steps, k) then 1 else 0
    ensures forall b: nat :: ReturnedOrLost(t[i].drv, b)
  {
    RunInv(t, steps, i);
    LostIffNullAddress(t, steps, a, i);
    var d := t[i].drv;
    AcceptedCount(d);
    forall b: nat ensures ReturnedOrLost(d, b) {
      assert d.accepted == Bufs(d.returned, Done) + Kept(d.lost) + Bufs(d.returned, Error);
      OccursConcat(Bufs(d.returned, Done) + Kept(d.lost), Bufs(d.returned, Error), b);
      OccursConcat(Bufs(d.returned, Done), Kept(d.lost), b);
    }
  }

  lemma {:induction false} OccursConcat(p: seq<nat>, q: seq<nat>, b: nat)
    ensures Occurs(p + q, b) == Occurs(p, b) + Occurs(q, b)
  {
    if p == [] {
      assert p + q == q;
    } else {
      assert (p + q)[1..] == p[1..] + q;
      OccursConcat(p[1..], q, b);
    }
  }

  // ---------------------------------------------------------------- shutdown

  predicate Stopping(p: Phase) {
    p.Joining? || p.Draining?
  }

  /** Steps left until STREAMOFF returns. */
  function StopMeasure(s: State): nat {
    match s.phase
    case Joining => ToExit(s.drv.thread) + |s.drv.active| + 2
    case Draining => |s.drv.active| + 1
    case _ => 0
  }

  /** Whatever moves during a stop brings its end nearer. */
  lemma StopStep(s: State, step: Step)
    requires PhaseShape(s) && Stopping(s.phase) && Enabled(s, step)
    ensures StopMeasure(Next(s, step)) < StopMeasure(s)
    ensures Stopping(Next(s, step).phase) || Next(s, step).phase.Off?
  {
  }

  /** While a stop is under way something can always move. */
  lemma StopProgresses(s: State)
    requires Inv(s) && Stopping(s.phase)
    ensures Enabled(s, Thread(true)) || Enabled(s, Join) || Enabled(s, DrainOne) || Enabled(s, Reclaim)
    ensures forall step | Enabled(s, step) :: StopMeasure(Next(s, step)) < StopMeasure(s)
    ensures forall step | Enabled(s, step) :: Stopping(Next(s, step).phase) || Next(s, step).phase.Off?
  {
    forall step | Enabled(s, step)
      ensures StopMeasure(Next(s, step)) < StopMeasure(s)
      ensures Stopping(Next(s, step).phase) || Next(s, step).phase.Off?
    {
      StopStep(s, step);
    }
  }

  lemma RunShape(t: seq<State>, steps: seq<Step>, i: nat)
    requires IsRun(t, steps) && StartsSucceed(steps) && i < |t|
    ensures PhaseShape(t[i])
  {
    RunInv(t, steps, i);
  }

  /** A stop lasts at most as many steps as its measure, whatever the thread was doing. */
  lemma {:induction false} StopTerminates(t: seq<State>, steps: seq<Step>, i: nat, j: nat)
    requires IsRun(t, steps) && StartsSucceed(steps) && i <= j < |t|
    requires forall k | i <= k < j :: Stopping(t[k].phase)
    ensures j - i <= StopMeasure(t[i]) - StopMeasure(t[j])
    ensures j - i <= |t[i].drv.active| + 8
  {
    if i < j {
      StopTerminates(t, steps, i, j - 1);
      RunShape(t, steps, j - 1);
      assert Moves(t, steps, j - 1);
      StopStep(t[j - 1], steps[j - 1]);
    }
  }

  /** One step of a stop, for the answer vb2_plane_vaddr gives or gave: the outcome stays settled. */
  lemma StopStepSettled(s: State, step: Step, mapped: bool) returns (m: bool)
    requires PhaseShape(s) && !(s.phase.Draining? && s.drv.stopping) && Stopping(s.phase) && Enabled(s, step)
    ensures Stopped(s.drv, m) == Stopped(Next(s, step).drv, mapped)
  {
    m := mapped;
    match step
    case Thread(answer) =>
      m := if s.drv.thread.Popped? then answer else mapped;
      ThreadSettled(s.drv, answer, mapped);
    case Join => JoinSettled(s.drv, mapped);
    case DrainOne => DrainSettled(s.drv, mapped);
    case Reclaim =>
  }

  lemma {:induction false} StopSettled(t: seq<State>, steps: seq<Step>, i: nat, j: nat) returns (m: bool)
    requires IsRun(t, steps) && StartsSucceed(steps) && i <= j < |t| && t[j].phase.Off?
    requires forall k | i <= k < j :: Stopping(t[k].phase)
    ensures Stopped(t[i].drv, m) == t[j].drv
    decreases j - i
  {
    RunInv(t, steps, i);
    if i == j {
      m := true;
      assert Tagged([], Error) == [];
      StoppedWithoutThread(t[i].drv, m);
    } else {
      m := StopSettled(t, steps, i + 1, j);
      assert Moves(t, steps, i);
      m := StopStepSettled(t[i], steps[i], m);
    }
  }

  /**
   * The outcome of a stop from any thread position, in closed form: no thread and an empty list;
   * the buffer the thread was on comes back as DONE unless its address was NULL; every other
   * buffer listed at the request comes back once, as ERROR, in list order; the application has
   * all buffers again.
   */
  lemma StopOutcome(t: seq<State>, steps: seq<Step>, i: nat, j: nat) returns (m: bool)
    requires IsRun(t, steps) && StartsSucceed(steps) && i < j < |t|
    requires steps[i].RequestStop? && t[j].phase.Off? && forall k | i < k < j :: Stopping(t[k].phase)
    ensures t[j].drv == Stopped(t[i].drv, m) && t[j].app == Universe(|t[0].planes|)
    ensures t[j].drv.returned == t[i].drv.returned + LastFrame(t[i].drv, m) + Tagged(Remaining(t[i].drv), Error)
    ensures |LastFrame(t[i].drv, m)| <= 1
  {
    assert Moves(t, steps, i) && Moves(t, steps, j - 1);
    m := StopSettled(t, steps, i + 1, j);
    RunInv(t, steps, j);
  }

  // ---------------------------------------------------------------- after the thread has gone

  lemma NoFrameStep(s: State, step: Step)
    requires Enabled(s, step) && !step.StreamOn? && !Runnable(s.drv.thread)
    ensures !Runnable(Next(s, step).drv.thread)
    ensures Bufs(Next(s, step).drv.returned, Done) == Bufs(s.drv.returned, Done)
  {
  }

  /** No thread, no frame: once the thread has left, a session completes nothing more. */
  lemma {:induction false} NoFrameAfterExit(t: seq<State>, steps: seq<Step>, i: nat, j: nat)
    requires IsRun(t, steps) && StartsSucceed(steps) && i <= j < |t|
    requires !Runnable(t[i].drv.thread) && SameSession(steps, i, j)
    ensures !Runnable(t[j].drv.thread)
    ensures Bufs(t[j].drv.returned, Done) == Bufs(t[i].drv.returned, Done)
  {
    if i < j {
      NoFrameAfterExit(t, steps, i, j - 1);
      assert Moves(t, steps, j - 1);
      NoFrameStep(t[j - 1], steps[j - 1]);
    }
  }

  /** Step `k` finds the list empty: every buffer is done or with the application. */
  ghost predicate StarvedAt(t: seq<State>, steps: seq<Step>, k: nat)
    requires |t| == |steps| + 1 && k < |steps|
  {
    steps[k].Thread? && t[k].drv.thread.TakeHead? && |t[k].done| + |t[k].app| == |t[k].planes|
  }

  /** Where a looking thread stands, the list is empty exactly when all buffers are done or taken. */
  lemma EmptyListIff(s: State)
    requires Inv(s) && !s.phase.Off? && s.drv.thread.TakeHead?
    ensures s.drv.active == [] <==> |s.done| + |s.app| == |s.planes|
  {
    PlaceCountsSum(s);
  }

  /** A looking thread leaves for good exactly when all buffers are done or with the application. */
  lemma LeavesOnEmptyListIff(t: seq<State>, steps: seq<Step>, i: nat)
    requires IsRun(t, steps) && StartsSucceed(steps) && i < |steps|
    requires steps[i].Thread? && t[i].drv.thread.TakeHead?
    ensures t[i + 1].drv.thread == Exited(ListEmpty) <==> |t[i].done| + |t[i].app| == |t[0].planes|
  {
    RunInv(t, steps, i);
    assert Moves(t, steps, i);
    EmptyListIff(t[i]);
  }

  lemma GoneStep(s: State, step: Step)
    requires Inv(s) && Enabled(s, step) && s.phase.On? && Next(s, step).phase.On?
    ensures Next(s, step).drv.thread.Exited? <==>
              || s.drv.thread.Exited?
              || (step.Thread? && s.drv.thread.TakeHead? && |s.done| + |s.app| == |s.planes|)
              || (step == Thread(false) && s.drv.thread.Popped?)
  {
    if s.drv.thread.TakeHead? {
      EmptyListIff(s);
    }
  }

  /** Step `k` is one at which the thread leaves a session that is on. */
  ghost predicate LeavesAt(t: seq<State>, steps: seq<Step>, k: nat)
    requires |t| == |steps| + 1 && k < |steps|
  {
    StarvedAt(t, steps, k) || NullAddressAt(t, steps, k)
  }

  lemma GoneAt(t: seq<State>, steps: seq<Step>, j: nat)
    requires IsRun(t, steps) && StartsSucceed(steps) && j < |steps|
    requires t[j].phase.On? && t[j + 1].phase.On?
    ensures t[j + 1].drv.thread.Exited? <==> t[j].drv.thread.Exited? || LeavesAt(t, steps, j)
  {
    RunInv(t, steps, j);
    assert Moves(t, steps, j);
    GoneStep(t[j], steps[j]);
  }

  lemma NotGoneAtStart(t: seq<State>, steps: seq<Step>, a: nat)
    requires IsRun(t, steps) && StartsSucceed(steps) && a < |steps| && steps[a].StreamOn?
    ensures !t[a + 1].drv.thread.Exited?
  {
    assert Moves(t, steps, a);
  }

  /**
   * Exactly when a session keeps streaming: while it is on, the thread is gone if and only if it
   * once looked when every buffer was done or with the application, or once got a NULL address.
   * These are also exactly the sessions in which kthread_stop meets a thread that has returned.
   */
  lemma {:induction false} ThreadGoneIff(t: seq<State>, steps: seq<Step>, a: nat, i: nat)
    requires IsRun(t, steps) && StartsSucceed(steps)
    requires a < i < |t| && steps[a].StreamOn? && forall k | a < k <= i :: t[k].phase.On?
    ensures t[i].drv.thread.Exited? <==> exists k: nat :: a < k < i && LeavesAt(t, steps, k)
  {
    var j := i - 1;
    if j == a {
      NotGoneAtStart(t, steps, j);
    } else {
      ThreadGoneIff(t, steps, a, j);
      GoneAt(t, steps, j);
    }
  }

  // ---------------------------------------------------------------- sizes

  lemma HandFits(s: State)
    requires ExactlyOnePlace(s) && Prepared(s) && s.drv.thread.Mapped?
    ensures s.drv.thread.buf < |s.planes| && COPY_BYTES <= PlaneSize(s, s.drv.thread.buf)
  {
    assert Copies(s, s.drv.thread.buf) >= 1;
  }

  lemma DoneFits(s: State)
    requires ExactlyOnePlace(s) && Prepared(s) && s.done != []
    ensures var b := s.done[0].buf;
            b < |s.planes| && b in s.payload && s.payload[b] == QUEUE_SETUP_SIZE <= PlaneSize(s, b) && b in s.user
  {
    DoneHeadIsAway(s);
  }

  lemma ListedFits(s: State, k: nat)
    requires ExactlyOnePlace(s) && Prepared(s) && k < |s.drv.active|
    ensures s.drv.active[k] < |s.planes| && QUEUE_SETUP_SIZE <= PlaneSize(s, s.drv.active[k])
  {
    FoundIsCounted(s.drv.active, k);
    assert Copies(s, s.drv.active[k]) <= 1;
  }

  /**
   * Size safety across driver and application: whenever the thread copies, the copy fits the
   * plane; whenever a frame is dequeued, its bytesused fits the plane it is read from; whatever
   * is listed passed buf_prepare.
   */
  lemma SizesFitInEveryState(t: seq<State>, steps: seq<Step>, i: nat)
    requires IsRun(t, steps) && StartsSucceed(steps) && i < |t|
    ensures t[i].drv.thread.Mapped? ==>
              t[i].drv.thread.buf < |t[i].planes| && COPY_BYTES <= PlaneSize(t[i], t[i].drv.thread.buf)
    ensures t[i].done != [] ==>
              var b := t[i].done[0].buf;
              b < |t[i].planes| && b in t[i].payload && b in t[i].user
              && t[i].payload[b] == QUEUE_SETUP_SIZE <= PlaneSize(t[i], b)
    ensures forall k | 0 <= k < |t[i].drv.active| ::
              t[i].drv.active[k] < |t[i].planes| && QUEUE_SETUP_SIZE <= PlaneSize(t[i], t[i].drv.active[k])
  {
    var s := t[i];
    RunInv(t, steps, i);
    if s.drv.thread.Mapped? { HandFits(s); }
    if s.done != [] { DoneFits(s); }
    forall k | 0 <= k < |s.drv.active|
      ensures s.drv.active[k] < |s.planes| && QUEUE_SETUP_SIZE <= PlaneSize(s, s.drv.active[k])
    {
      ListedFits(s, k);
    }
  }
}
