/**
 * The buffer side of the fake capture driver (lkml/v4l2/vid4linux.c): the `active` list,
 * the frame-generation thread and the stop/drain sequence.
 *
 * `Driver` is the value the driver's state has at one instant, together with the history of
 * the session (what buf_queue took in and what vb2_buffer_done gave back). The functions on
 * it are the atomic steps; class `FakeVid` runs the same code in place.
 */
module FakeVidDriver {
  import opened Wrappers

  /** VB2_BUF_STATE_DONE and VB2_BUF_STATE_ERROR. */
  datatype Status = Done | Error

  /** One call of vb2_buffer_done. */
  datatype Return = Return(buf: nat, status: Status)

  datatype ExitReason =
    | StopSeen    // kthread_should_stop, line 81
    | ListEmpty   // nothing on the active list, lines 96-101
    | NoAddress   // vb2_plane_vaddr gave NULL, lines 103-106

  /** Where the frame-generation thread stands. */
  datatype Thread =
    | NoThread            // dmaq->kthread is NULL
    | CheckStop           // top of the loop, line 81
    | TakeHead            // about to take slock, line 84
    | Popped(buf: nat)    // list_del done, line 90
    | Mapped(buf: nat)    // address obtained, line 107
    | Filled(buf: nat)    // image copied, line 110
    | Sleeping            // line 113
    | Exited(why: ExitReason)

  datatype Driver = Driver(
    active: seq<nat>,         // dmaq->active
    thread: Thread,
    stopping: bool,           // kthread_stop has been called
    lost: Option<nat>,        // the buffer a NULL address left behind
    accepted: seq<nat>,       // buf_queue calls of this session
    returned: seq<Return>)    // vb2_buffer_done calls of this session

  /** The buffer between list_del and vb2_buffer_done. */
  function Hand(t: Thread): seq<nat> {
    match t
    case Popped(b) => [b]
    case Mapped(b) => [b]
    case Filled(b) => [b]
    case _ => []
  }

  function Kept(lost: Option<nat>): seq<nat> {
    if lost.Some? then [lost.value] else []
  }

  /** The buffers returned with one status, oldest first. */
  function Bufs(r: seq<Return>, st: Status): seq<nat> {
    if r == [] then []
    else
      var last := r[|r| - 1];
      Bufs(r[..|r| - 1], st) + (if last.status == st then [last.buf] else [])
  }

  function Tagged(bufs: seq<nat>, st: Status): seq<Return> {
    seq(|bufs|, i requires 0 <= i < |bufs| => Return(bufs[i], st))
  }

  // ---------------------------------------------------------------- atomic steps

  /** buf_queue, lines 185-189. */
  function Queue(d: Driver, b: nat): Driver {
    d.(active := d.active + [b], accepted := d.accepted + [b])
  }

  /** vb2 hands over what was queued, then start_streaming starts the thread. */
  function Start(d: Driver, bufs: seq<nat>): Driver {
    Driver(d.active + bufs, CheckStop, false, None, bufs, [])
  }

  /** kthread_run failed, lines 126-129: the list keeps what was handed over. */
  function StartFailed(d: Driver, bufs: seq<nat>): Driver {
    d.(active := d.active + bufs)
  }

  predicate Runnable(t: Thread) {
    !t.NoThread? && !t.Exited?
  }

  /** One atomic step of frame_generation_thread; `mapped` is what vb2_plane_vaddr answers. */
  function ThreadStep(d: Driver, mapped: bool): Driver
    requires Runnable(d.thread)
  {
    match d.thread
    case CheckStop => d.(thread := if d.stopping then Exited(StopSeen) else TakeHead)
    case TakeHead =>
      if d.active == [] then d.(thread := Exited(ListEmpty))
      else d.(active := d.active[1..], thread := Popped(d.active[0]))
    case Popped(b) =>
      if mapped then d.(thread := Mapped(b)) else d.(thread := Exited(NoAddress), lost := Some(b))
    case Mapped(b) => d.(thread := Filled(b))
    case Filled(b) => d.(thread := Sleeping, returned := d.returned + [Return(b, Done)])
    case Sleeping => d.(thread := CheckStop)
  }

  /** kthread_stop raises the flag, line 211. */
  function RequestStop(d: Driver): Driver {
    d.(stopping := true)
  }

  /** kthread_stop returns and the pointer is cleared, line 212. */
  function Join(d: Driver): Driver
    requires d.thread.Exited?
  {
    d.(thread := NoThread, stopping := false)
  }

  /** One turn of the drain loop, lines 216-218. */
  function DrainOne(d: Driver): Driver
    requires d.active != []
  {
    d.(active := d.active[1..], returned := d.returned + [Return(d.active[0], Error)])
  }

  // ---------------------------------------------------------------- session invariant

  /**
   * The session's history in one equation: buffers come back as DONE in the order they were
   * queued, then the one in the thread's hand or lost by it, then the drained ones, then
   * those still listed.
   */
  ghost predicate FifoHistory(d: Driver) {
    d.accepted == Bufs(d.returned, Done) + Hand(d.thread) + Kept(d.lost) + Bufs(d.returned, Error) + d.active
  }

  /** No DONE follows an ERROR. */
  ghost predicate DoneThenError(r: seq<Return>) {
    forall i, j | 0 <= i < j < |r| :: r[i].status == Error ==> r[j].status == Error
  }

  ghost predicate Session(d: Driver) {
    && FifoHistory(d)
    && DoneThenError(d.returned)
    && (!d.thread.NoThread? ==> Bufs(d.returned, Error) == [])
    && (!d.thread.NoThread? ==> (d.lost.Some? <==> d.thread == Exited(NoAddress)))
    && (d.thread == Exited(StopSeen) ==> d.stopping)
    && (d.thread.NoThread? ==> !d.stopping)
  }

  lemma BufsAppend(r: seq<Return>, x: Return, st: Status)
    ensures Bufs(r + [x], st) == Bufs(r, st) + (if x.status == st then [x.buf] else [])
  {
  }

  /** No buffer was returned with a status exactly when no return carries it. */
  lemma {:induction false} BufsNone(r: seq<Return>, st: Status)
    ensures Bufs(r, st) == [] <==> forall i | 0 <= i < |r| :: r[i].status != st
  {
    if r != [] {
      var init := r[..|r| - 1];
      BufsNone(init, st);
      assert forall i | 0 <= i < |init| :: init[i] == r[i];
    }
  }

  lemma {:induction false} BufsLength(r: seq<Return>)
    ensures |Bufs(r, Done)| + |Bufs(r, Error)| == |r|
  {
    if r != [] {
      BufsLength(r[..|r| - 1]);
    }
  }

  lemma {:induction false} BufsAllDone(r: seq<Return>)
    requires Bufs(r, Error) == []
    ensures |Bufs(r, Done)| == |r|
    ensures forall i | 0 <= i < |r| :: r[i] == Return(Bufs(r, Done)[i], Done)
  {
    BufsNone(r, Error);
    if r != [] {
      var init := r[..|r| - 1];
      assert Bufs(init, Error) == [];
      BufsAllDone(init);
      assert forall i | 0 <= i < |init| :: init[i] == r[i];
    }
  }

  /** The returned statuses really are DONE* ERROR*, with the buffers of each in order. */
  lemma {:induction false} CompletionShape(r: seq<Return>)
    requires DoneThenError(r)
    ensures r == Tagged(Bufs(r, Done), Done) + Tagged(Bufs(r, Error), Error)
  {
    if r != [] {
      var init, last := r[..|r| - 1], r[|r| - 1];
      CompletionShape(init);
      var done, errors := Bufs(init, Done), Bufs(init, Error);
      assert r == Tagged(done, Done) + Tagged(errors, Error) + [last];
      if last.status == Done {
        BufsNone(init, Error);
        TaggedAppend(done, last.buf, Done);
      } else {
        TaggedAppend(errors, last.buf, Error);
      }
    }
  }

  lemma TaggedAppend(bufs: seq<nat>, b: nat, st: Status)
    ensures Tagged(bufs + [b], st) == Tagged(bufs, st) + [Return(b, st)]
  {
  }

  lemma StartOpensSession(d: Driver, bufs: seq<nat>)
    requires d.active == []
    ensures Session(Start(d, bufs))
  {
  }

  lemma QueueKeepsSession(d: Driver, b: nat)
    requires Session(d)
    ensures Session(Queue(d, b))
  {
  }

  lemma TakeHeadFifo(d: Driver, mapped: bool)
    requires FifoHistory(d) && d.thread.TakeHead? && d.active != []
    requires d.lost.None? && Bufs(d.returned, Error) == []
    ensures FifoHistory(ThreadStep(d, mapped))
  {
  }

  lemma TakeHeadKeepsSession(d: Driver, mapped: bool)
    requires Session(d) && d.thread.TakeHead?
    ensures Session(ThreadStep(d, mapped))
  {
    if d.active != [] {
      TakeHeadFifo(d, mapped);
    }
  }

  lemma CompleteKeepsSession(d: Driver, mapped: bool)
    requires Session(d) && d.thread.Filled?
    ensures Session(ThreadStep(d, mapped))
  {
    CompleteFifo(d, mapped);
    AllDoneShape(ThreadStep(d, mapped).returned);
  }

  lemma CompleteFifo(d: Driver, mapped: bool)
    requires FifoHistory(d) && d.thread.Filled? && d.lost.None? && Bufs(d.returned, Error) == []
    ensures FifoHistory(ThreadStep(d, mapped)) && Bufs(ThreadStep(d, mapped).returned, Error) == []
  {
    var x := Return(d.thread.buf, Done);
    BufsAppend(d.returned, x, Done);
    BufsAppend(d.returned, x, Error);
    HandToDone(Bufs(d.returned, Done), x.buf, d.active);
    var d' := ThreadStep(d, mapped);
    assert Hand(d.thread) == [x.buf] && Kept(d.lost) == [] && Hand(d'.thread) == [] && Kept(d'.lost) == [];
    assert Bufs(d'.returned, Done) == Bufs(d.returned, Done) + [x.buf] && Bufs(d'.returned, Error) == [];
  }

  /** A buffer moves from the hand to the completed ones, nothing being lost or drained. */
  lemma HandToDone(done: seq<nat>, b: nat, active: seq<nat>)
    ensures done + [b] + [] + [] + active == (done + [b]) + [] + [] + [] + active
  {
  }

  lemma AllDoneShape(r: seq<Return>)
    requires Bufs(r, Error) == []
    ensures DoneThenError(r)
  {
    BufsNone(r, Error);
  }

  lemma ThreadStepKeepsSession(d: Driver, mapped: bool)
    requires Session(d) && Runnable(d.thread)
    ensures Session(ThreadStep(d, mapped))
  {
    match d.thread
    case TakeHead => TakeHeadKeepsSession(d, mapped);
    case Filled(_) => CompleteKeepsSession(d, mapped);
    case CheckStop =>
    case Popped(_) =>
    case Mapped(_) =>
    case Sleeping =>
  }

  lemma JoinKeepsSession(d: Driver)
    requires Session(d) && d.thread.Exited?
    ensures Session(Join(d))
  {
  }

  lemma DrainOneFifo(d: Driver)
    requires FifoHistory(d) && d.thread.NoThread? && d.active != []
    ensures FifoHistory(DrainOne(d))
  {
  }

  lemma ErrorKeepsShape(r: seq<Return>, b: nat)
    requires DoneThenError(r)
    ensures DoneThenError(r + [Return(b, Error)])
  {
  }

  lemma DrainOneKeepsSession(d: Driver)
    requires Session(d) && d.thread.NoThread? && d.active != []
    ensures Session(DrainOne(d))
  {
    DrainOneFifo(d);
    ErrorKeepsShape(d.returned, d.active[0]);
  }

  /** Draining the whole list. */
  lemma {:induction false} DrainAllKeepsSession(d: Driver)
    requires Session(d) && d.thread.NoThread?
    ensures Session(d.(active := [], returned := d.returned + Tagged(d.active, Error)))
    decreases |d.active|
  {
    if d.active == [] {
      assert d.returned + Tagged(d.active, Error) == d.returned;
    } else {
      DrainOneKeepsSession(d);
      DrainAllKeepsSession(DrainOne(d));
      assert d.returned + Tagged(d.active, Error)
          == (d.returned + [Return(d.active[0], Error)]) + Tagged(d.active[1..], Error);
    }
  }

  /** Counting form: every accepted buffer is returned, held, lost or listed. */
  lemma AcceptedCount(d: Driver)
    requires Session(d)
    ensures |d.accepted| == |d.returned| + |Hand(d.thread)| + |Kept(d.lost)| + |d.active|
  {
    BufsLength(d.returned);
  }

  // ---------------------------------------------------------------- what a stop does, in closed form

  /** The buffer the thread still brings home after the stop flag is up, if any. */
  function Underway(d: Driver): seq<nat> {
    if d.thread.TakeHead? && d.active != [] then [d.active[0]] else Hand(d.thread)
  }

  /** Whether that buffer's address is still to be asked for. */
  predicate AddressPending(t: Thread) {
    t.TakeHead? || t.Popped?
  }

  function Remaining(d: Driver): seq<nat> {
    if d.thread.TakeHead? && d.active != [] then d.active[1..] else d.active
  }

  function LastFrame(d: Driver, mapped: bool): seq<Return> {
    if AddressPending(d.thread) && !mapped then [] else Tagged(Underway(d), Done)
  }

  /** The driver after stop_streaming, as one expression. */
  function Stopped(d: Driver, mapped: bool): Driver {
    Driver([], NoThread, false,
           if AddressPending(d.thread) && !mapped && Underway(d) != [] then Some(Underway(d)[0]) else d.lost,
           d.accepted,
           d.returned + LastFrame(d, mapped) + Tagged(Remaining(d), Error))
  }

  /** Thread steps to the exit once the stop flag is up. */
  function ToExit(t: Thread): nat {
    match t
    case NoThread => 0
    case Exited(_) => 0
    case CheckStop => 1
    case Sleeping => 2
    case Filled(_) => 3
    case Mapped(_) => 4
    case Popped(_) => 5
    case TakeHead => 6
  }

  /** A stop request settles the outcome: the thread's later steps do not change it. */
  lemma StoppedIsStable(d: Driver, mapped: bool)
    requires d.stopping && Runnable(d.thread)
    ensures Stopped(ThreadStep(d, mapped), mapped) == Stopped(d, mapped)
    ensures ToExit(ThreadStep(d, mapped).thread) < ToExit(d.thread)
    ensures ThreadStep(d, mapped).stopping
  {
  }

  /** With no thread to join, a stop is the drain alone. */
  lemma StoppedWithoutThread(d: Driver, mapped: bool)
    requires d.thread.NoThread? && !d.stopping
    ensures Stopped(d, mapped) == d.(active := [], returned := d.returned + Tagged(d.active, Error))
  {
  }

  /** As StoppedIsStable, with the answer to the address question given when it is asked. */
  lemma ThreadSettled(d: Driver, mapped: bool, later: bool)
    requires d.stopping && Runnable(d.thread)
    ensures Stopped(ThreadStep(d, mapped), later) == Stopped(d, if d.thread.Popped? then mapped else later)
  {
  }

  lemma JoinSettled(d: Driver, mapped: bool)
    requires d.thread.Exited?
    ensures Stopped(Join(d), mapped) == Stopped(d, mapped)
  {
  }

  lemma DrainSettled(d: Driver, mapped: bool)
    requires d.thread.NoThread? && !d.stopping && d.active != []
    ensures Stopped(DrainOne(d), mapped) == Stopped(d, mapped)
  {
  }

  // ---------------------------------------------------------------- whole turns of the loop

  /** Thread steps to the end of the turn. */
  function ToTurnEnd(t: Thread): nat {
    match t
    case CheckStop => 6
    case TakeHead => 5
    case Popped(_) => 4
    case Mapped(_) => 3
    case Filled(_) => 2
    case Sleeping => 1
    case _ => 0
  }

  /** Atomic steps up to the next stop check or the exit, nothing else happening meanwhile. */
  function RunTurn(d: Driver, mapped: bool): Driver
    requires Runnable(d.thread)
    decreases ToTurnEnd(d.thread)
  {
    var next := ThreadStep(d, mapped);
    if next.thread.CheckStop? || next.thread.Exited? then next else RunTurn(next, mapped)
  }

  lemma {:induction false} RunTurnKeepsSession(d: Driver, mapped: bool)
    requires Session(d) && Runnable(d.thread)
    ensures Session(RunTurn(d, mapped))
    decreases ToTurnEnd(d.thread)
  {
    ThreadStepKeepsSession(d, mapped);
    if Runnable(ThreadStep(d, mapped).thread) && !ThreadStep(d, mapped).thread.CheckStop? {
      RunTurnKeepsSession(ThreadStep(d, mapped), mapped);
    }
  }

  /** A turn that got hold of a buffer. */
  lemma RunFromPopped(d: Driver, mapped: bool)
    requires d.thread.Popped?
    ensures RunTurn(d, mapped) ==
            if mapped then d.(thread := CheckStop, returned := d.returned + [Return(d.thread.buf, Done)])
            else d.(thread := Exited(NoAddress), lost := Some(d.thread.buf))
  {
    if mapped {
      var d1 := ThreadStep(d, mapped);
      var d2 := ThreadStep(d1, mapped);
      var d3 := ThreadStep(d2, mapped);
      assert RunTurn(d3, mapped) == ThreadStep(d3, mapped);
      assert RunTurn(d2, mapped) == RunTurn(d3, mapped);
      assert RunTurn(d1, mapped) == RunTurn(d2, mapped);
    }
  }

  /** A whole turn in one expression. */
  lemma TurnOutcome(d: Driver, mapped: bool)
    requires d.thread.CheckStop?
    ensures RunTurn(d, mapped) ==
            if d.stopping then d.(thread := Exited(StopSeen))
            else if d.active == [] then d.(thread := Exited(ListEmpty))
            else if !mapped then d.(thread := Exited(NoAddress), active := d.active[1..], lost := Some(d.active[0]))
            else d.(active := d.active[1..], returned := d.returned + [Return(d.active[0], Done)])
  {
    var d1 := ThreadStep(d, mapped);
    if !d.stopping {
      var d2 := ThreadStep(d1, mapped);
      if d.active != [] {
        RunFromPopped(d2, mapped);
        assert RunTurn(d1, mapped) == RunTurn(d2, mapped);
      } else {
        assert RunTurn(d1, mapped) == d2;
      }
    }
  }

  /** `k` undisturbed turns, or fewer if the thread leaves. */
  function TurnsAlone(d: Driver, k: nat): Driver
    decreases k
  {
    if k == 0 || !Runnable(d.thread) then d else TurnsAlone(RunTurn(d, true), k - 1)
  }

  /**
   * The thread outruns an application that queues nothing: it returns the listed buffers as DONE
   * and, at the first turn that finds none, leaves for good.
   */
  lemma {:induction false} ThreadOutrunsIdleApplication(d: Driver)
    requires d.thread.CheckStop? && !d.stopping
    ensures TurnsAlone(d, |d.active| + 1)
         == d.(active := [], thread := Exited(ListEmpty), returned := d.returned + Tagged(d.active, Done))
    decreases |d.active|
  {
    TurnOutcome(d, true);
    var next := RunTurn(d, true);
    assert TurnsAlone(d, |d.active| + 1) == TurnsAlone(next, |d.active|);
    if d.active == [] {
      assert d.returned + Tagged(d.active, Done) == d.returned;
    } else {
      ThreadOutrunsIdleApplication(next);
      assert d.returned + Tagged(d.active, Done)
          == (d.returned + [Return(d.active[0], Done)]) + Tagged(d.active[1..], Done);
    }
  }

  // ---------------------------------------------------------------- the code, in place

  /** Moving the front of a stream by one buffer. */
  lemma TakeFront(stream: seq<nat>, k: nat, st: Status)
    requires k < |stream|
    ensures stream[k..] != [] && stream[k..][0] == stream[k] && stream[k..][1..] == stream[k + 1..]
    ensures Tagged(stream[..k + 1], st) == Tagged(stream[..k], st) + [Return(stream[k], st)]
  {
  }

  /** Appending to a stream leaves its front alone. */
  lemma GrowStream(stream: seq<nat>, more: seq<nat>, k: nat)
    requires k <= |stream|
    ensures (stream + more)[..k] == stream[..k]
    ensures (stream + more)[k..] == stream[k..] + more
  {
  }

  /** What one turn of the thread's loop meets: arrivals before the lock, the stop flag, the address. */
  datatype Beat = Beat(stop: bool, arrivals: seq<nat>, mapped: bool)

  /** The driver when the thread reads the stop flag and takes the lock in a turn. */
  function Arrive(d: Driver, beat: Beat): Driver {
    d.(active := d.active + beat.arrivals, accepted := d.accepted + beat.arrivals, stopping := beat.stop)
  }

  /** A turn of the thread, with whatever arrives before it, keeps the session invariant. */
  lemma TurnKeepsSession(d: Driver, beat: Beat)
    requires Session(d) && d.thread.CheckStop?
    ensures Session(RunTurn(Arrive(d, beat), beat.mapped))
  {
    ArriveKeepsSession(d, beat);
    RunTurnKeepsSession(Arrive(d, beat), beat.mapped);
  }

  lemma ArriveKeepsSession(d: Driver, beat: Beat)
    requires Session(d) && d.thread.CheckStop?
    ensures Session(Arrive(d, beat))
  {
  }

  /** All buffers queued during the first `k` turns. */
  function Arrivals(beats: seq<Beat>, k: nat): seq<nat>
    requires k <= |beats|
  {
    if k == 0 then [] else Arrivals(beats, k - 1) + beats[k - 1].arrivals
  }

  /** What is left of the stream when the thread has completed `frames` buffers and stands as in `d`. */
  ghost predicate Leaves(stream: seq<nat>, frames: nat, d: Driver, ret: Option<int>)
    requires frames <= |stream|
  {
    match d.thread
    case CheckStop => ret == None && d.lost == None && d.active == stream[frames..]
    case Exited(StopSeen) => ret == Some(0) && d.lost == None && d.active == stream[frames..]
    case Exited(ListEmpty) => ret == Some(-1) && d.lost == None && d.active == [] && frames == |stream|
    case Exited(NoAddress) =>
      ret == Some(-1) && frames < |stream| && d.lost == Some(stream[frames]) && d.active == stream[frames + 1..]
    case _ => false
  }

  /**
   * Since `d0` the thread has completed the first `frames` buffers of the stream made of the
   * listed ones and `arrived`; `ret` is what it returned, if it did.
   */
  ghost predicate Consumed(d0: Driver, d: Driver, arrived: seq<nat>, frames: nat, ret: Option<int>) {
    var stream := d0.active + arrived;
    && frames <= |stream|
    && d.returned == d0.returned + Tagged(stream[..frames], Done)
    && d.accepted == d0.accepted + arrived
    && Leaves(stream, frames, d, ret)
  }

  /** What a thread function returns from where it left. */
  function ReturnValue(t: Thread): Option<int> {
    if !t.Exited? then None else if t.why.StopSeen? then Some(0) else Some(-1)
  }

  /** Turn `j` of the loop goes on to the next: no stop, a buffer to take, and an address for it. */
  ghost predicate GoesOn(d0: Driver, beats: seq<Beat>, j: nat)
    requires j < |beats|
  {
    !beats[j].stop && beats[j].mapped && |d0.active| + |Arrivals(beats, j + 1)| > j
  }

  /** Why turn `j` is the last if it does not go on. */
  ghost function ExitCause(d0: Driver, beats: seq<Beat>, j: nat): ExitReason
    requires j < |beats|
  {
    if beats[j].stop then StopSeen
    else if |d0.active| + |Arrivals(beats, j + 1)| <= j then ListEmpty
    else NoAddress
  }

  lemma TurnConsumes(d0: Driver, d: Driver, arrived: seq<nat>, frames: nat, beat: Beat)
    requires d.thread.CheckStop? && Consumed(d0, d, arrived, frames, None)
    ensures var next, more := RunTurn(Arrive(d, beat), beat.mapped), arrived + beat.arrivals;
            && Consumed(d0, next, more, if next.thread.CheckStop? then frames + 1 else frames, ReturnValue(next.thread))
            && (next.thread.CheckStop? <==> !beat.stop && beat.mapped && |d0.active| + |more| > frames)
            && (next.thread == Exited(StopSeen) <==> beat.stop)
            && (next.thread == Exited(ListEmpty) <==> !beat.stop && |d0.active| + |more| <= frames)
  {
    TurnOutcome(Arrive(d, beat), beat.mapped);
    var stream, more := d0.active + arrived, arrived + beat.arrivals;
    assert d0.active + more == stream + beat.arrivals;
    GrowStream(stream, beat.arrivals, frames);
    if frames < |stream + beat.arrivals| {
      TakeFront(stream + beat.arrivals, frames, Done);
    }
  }

  /** The driver after `k` turns of the loop; once the thread has left, turns do nothing. */
  ghost function AfterBeats(d0: Driver, beats: seq<Beat>, k: nat): Driver
    requires k <= |beats|
  {
    if k == 0 then d0
    else
      var d, beat := AfterBeats(d0, beats, k - 1), beats[k - 1];
      if d.thread.CheckStop? then RunTurn(Arrive(d, beat), beat.mapped) else d
  }

  lemma {:induction false} BeatsKeepSession(d0: Driver, beats: seq<Beat>, k: nat)
    requires Session(d0) && k <= |beats|
    ensures Session(AfterBeats(d0, beats, k))
  {
    if k > 0 {
      var j := k - 1;
      BeatsKeepSession(d0, beats, j);
      if AfterBeats(d0, beats, j).thread.CheckStop? {
        TurnKeepsSession(AfterBeats(d0, beats, j), beats[j]);
      }
    }
  }

  lemma {:induction false} BeatsConsume(d0: Driver, beats: seq<Beat>, k: nat)
    requires d0.thread.CheckStop? && d0.lost.None? && k <= |beats|
    requires forall j: nat | j < k :: GoesOn(d0, beats, j)
    ensures AfterBeats(d0, beats, k).thread.CheckStop?
    ensures Consumed(d0, AfterBeats(d0, beats, k), Arrivals(beats, k), k, None)
  {
    if k > 0 {
      var j := k - 1;
      BeatsConsume(d0, beats, j);
      assert GoesOn(d0, beats, j);
      TurnConsumes(d0, AfterBeats(d0, beats, j), Arrivals(beats, j), j, beats[j]);
    }
  }

  /** The turn that does not go on: the thread leaves, and for the reason that turn gives. */
  lemma LastTurn(d0: Driver, beats: seq<Beat>, j: nat)
    requires d0.thread.CheckStop? && d0.lost.None? && j < |beats|
    requires (forall i: nat | i < j :: GoesOn(d0, beats, i)) && !GoesOn(d0, beats, j)
    ensures var d := AfterBeats(d0, beats, j + 1);
            && d.thread == Exited(ExitCause(d0, beats, j))
            && Consumed(d0, d, Arrivals(beats, j + 1), j, ReturnValue(d.thread))
  {
    BeatsConsume(d0, beats, j);
    TurnConsumes(d0, AfterBeats(d0, beats, j), Arrivals(beats, j), j, beats[j]);
  }

  lemma {:induction false} GoneIsGone(d0: Driver, beats: seq<Beat>, i: nat, k: nat)
    requires i <= k <= |beats| && !AfterBeats(d0, beats, i).thread.CheckStop?
    ensures AfterBeats(d0, beats, k) == AfterBeats(d0, beats, i)
  {
    if i < k {
      GoneIsGone(d0, beats, i, k - 1);
    }
  }

  /**
   * Exactly when the stream lives: the thread is still there after `k` turns if and only if no
   * turn met a stop or a NULL address, and at every turn `j` more than `j` buffers had been made
   * available. An application that is one buffer late once ends the stream.
   */
  lemma {:induction false} ThreadSurvivesIff(d0: Driver, beats: seq<Beat>, k: nat)
    requires d0.thread.CheckStop? && d0.lost.None? && k <= |beats|
    ensures AfterBeats(d0, beats, k).thread.CheckStop? <==> forall j: nat | j < k :: GoesOn(d0, beats, j)
  {
    if k > 0 {
      var j := k - 1;
      ThreadSurvivesIff(d0, beats, j);
      if forall i: nat | i < j :: GoesOn(d0, beats, i) {
        if GoesOn(d0, beats, j) {
          BeatsConsume(d0, beats, k);
        } else {
          LastTurn(d0, beats, j);
        }
      } else {
        GoneIsGone(d0, beats, j, k);
      }
    }
  }

  /**
   * What a run of the loop comes to: `frames` buffers of the stream completed, in order, and the
   * exit, if there is one, at the first turn that does not go on and for the reason found there.
   */
  ghost predicate Outcome(d0: Driver, beats: seq<Beat>, ret: Option<int>, frames: nat, turns: nat) {
    && turns <= |beats|
    && Consumed(d0, AfterBeats(d0, beats, turns), Arrivals(beats, turns), frames, ret)
    && (forall j: nat | j < frames :: j < |beats| && GoesOn(d0, beats, j))
    && if ret.None? then frames == turns == |beats|
       else
         && frames == turns - 1 && !GoesOn(d0, beats, frames)
         && AfterBeats(d0, beats, turns).thread == Exited(ExitCause(d0, beats, frames))
  }

  lemma OutlivesScript(d0: Driver, beats: seq<Beat>)
    requires d0.thread.CheckStop? && d0.lost.None? && AfterBeats(d0, beats, |beats|).thread.CheckStop?
    ensures Outcome(d0, beats, None, |beats|, |beats|)
  {
    ThreadSurvivesIff(d0, beats, |beats|);
    BeatsConsume(d0, beats, |beats|);
  }

  lemma LeavesAtTurn(d0: Driver, beats: seq<Beat>, j: nat)
    requires d0.thread.CheckStop? && d0.lost.None? && j < |beats|
    requires AfterBeats(d0, beats, j).thread.CheckStop? && !AfterBeats(d0, beats, j + 1).thread.CheckStop?
    ensures Outcome(d0, beats, ReturnValue(AfterBeats(d0, beats, j + 1).thread), j, j + 1)
  {
    ThreadSurvivesIff(d0, beats, j);
    ThreadSurvivesIff(d0, beats, j + 1);
    LastTurn(d0, beats, j);
  }

  class FakeVid {
    var active: seq<nat>
    var thread: Thread
    var stopping: bool
    ghost var lost: Option<nat>
    ghost var accepted: seq<nat>
    ghost var returned: seq<Return>

    ghost function Model(): Driver
      reads this
    {
      Driver(active, thread, stopping, lost, accepted, returned)
    }

    /** v4l2_init: INIT_LIST_HEAD and a zeroed structure. */
    constructor ()
      ensures Model() == Driver([], NoThread, false, None, [], [])
      ensures Session(Model())
    {
      active, thread, stopping := [], NoThread, false;
      lost, accepted, returned := None, [], [];
    }

    /** buf_queue. The emptiness test after the append never reports. */
    method BufQueue(b: nat) returns (reported: bool)
      requires Session(Model())
      modifies this
      ensures Model() == Queue(old(Model()), b) && Session(Model())
      ensures !reported
    {
      QueueKeepsSession(Model(), b);
      active := active + [b];
      reported := active == [];
      accepted := accepted + [b];
    }

    /** start_streaming over the buffers vb2 hands over; `started` is what kthread_run does. */
    method StartStreaming(bufs: seq<nat>, started: bool) returns (ret: int)
      requires thread.NoThread?
      modifies this
      ensures ret == 0 <==> started
      ensures started ==> Model() == Start(old(Model()), bufs)
      ensures !started ==> Model() == StartFailed(old(Model()), bufs)
      ensures started && old(active) == [] ==> Session(Model())
    {
      active := active + bufs;
      if started {
        thread, stopping := CheckStop, false;
        lost, accepted, returned := None, bufs, [];
        ret := 0;
      } else {
        ret := -12;
      }
    }

    /** frame_generation_thread, one preemptible piece at a time. */
    method RunThread(mapped: bool)
      requires Runnable(thread) && Session(Model())
      modifies this
      ensures Model() == ThreadStep(old(Model()), mapped) && Session(Model())
    {
      ThreadStepKeepsSession(Model(), mapped);
      match thread {
        case CheckStop =>
          thread := if stopping then Exited(StopSeen) else TakeHead;
        case TakeHead =>
          if active != [] {
            thread := Popped(active[0]);
            active := active[1..];
          } else {
            thread := Exited(ListEmpty);
          }
        case Popped(b) =>
          if mapped {
            thread := Mapped(b);
          } else {
            thread := Exited(NoAddress);
            lost := Some(b);
          }
        case Mapped(b) =>
          thread := Filled(b);
        case Filled(b) =>
          returned := returned + [Return(b, Done)];
          thread := Sleeping;
        case Sleeping =>
          thread := CheckStop;
      }
    }

    /**
     * kthread_stop: the flag goes up and the caller waits for the thread, wherever it stands. A
     * thread that has already returned counts as one to wait for no longer; that its task
     * structure is still there then is not part of the model.
     */
    method JoinThread(mapped: bool)
      requires Session(Model()) && !thread.NoThread?
      modifies this
      ensures Session(Model()) && thread.NoThread?
      ensures Stopped(Model(), mapped) == Stopped(old(Model()), mapped)
    {
      stopping := true;
      while !thread.Exited?
        invariant !thread.NoThread? && stopping
        invariant Session(Model())
        invariant Stopped(Model(), mapped) == Stopped(old(Model()), mapped)
        decreases ToExit(thread)
      {
        StoppedIsStable(Model(), mapped);
        RunThread(mapped);
      }
      JoinKeepsSession(Model());
      thread, stopping := NoThread, false;
    }

    /** The drain loop of stop_streaming, lines 215-220. */
    method Drain()
      requires Session(Model()) && thread.NoThread?
      modifies this
      ensures Session(Model())
      ensures Model() == old(Model()).(active := [], returned := old(returned) + Tagged(old(active), Error))
    {
      DrainAllKeepsSession(Model());
      ghost var k, listed, before := 0, active, returned;
      while active != []
        invariant k <= |listed| && active == listed[k..]
        invariant returned == before + Tagged(listed[..k], Error)
        invariant thread == old(thread) && stopping == old(stopping) && lost == old(lost) && accepted == old(accepted)
        decreases |active|
      {
        TakeFront(listed, k, Error);
        returned := returned + [Return(active[0], Error)];
        active := active[1..];
        k := k + 1;
      }
      assert listed[..k] == listed;
    }

    /**
     * stop_streaming: join the thread if there is one, then drain the list. It terminates from
     * every thread position and its result is the closed form `Stopped`.
     */
    method StopStreaming(mapped: bool)
      requires Session(Model())
      modifies this
      ensures Model() == Stopped(old(Model()), mapped) && Session(Model())
    {
      if thread != NoThread {
        JoinThread(mapped);
      }
      StoppedWithoutThread(Model(), mapped);
      Drain();
    }

    /**
     * One turn of the loop of frame_generation_thread, lines 81-113; None means go on. The
     * straight code does what the atomic steps of the protocol do.
     */
    method Turn(beat: Beat) returns (ret: Option<int>)
      requires thread.CheckStop?
      modifies this
      ensures Model() == RunTurn(Arrive(old(Model()), beat), beat.mapped)
      ensures (thread.CheckStop? || thread.Exited?) && ret == ReturnValue(thread)
    {
      TurnOutcome(Arrive(Model(), beat), beat.mapped);
      active, accepted, stopping := active + beat.arrivals, accepted + beat.arrivals, beat.stop;
      if stopping {
        thread := Exited(StopSeen);
        return Some(0);
      }
      if active == [] {
        thread := Exited(ListEmpty);
        return Some(-1);
      }
      var head := active[0];
      active := active[1..];
      if !beat.mapped {
        thread, lost := Exited(NoAddress), Some(head);
        return Some(-1);
      }
      returned := returned + [Return(head, Done)];
      return None;
    }

    /**
     * frame_generation_thread as the loop it is. `beats` says what each turn meets; `ret` is None
     * when the script ends before the thread does.
     *
     * The thread consumes one stream, the listed buffers followed by the arrivals, from the
     * front: the first `frames` of them come back as DONE. It outlives the script exactly when
     * every turn goes on; otherwise it leaves at the first that does not, for the reason found there.
     */
    method FrameGenerationThread(beats: seq<Beat>) returns (ret: Option<int>, frames: nat, turns: nat)
      requires thread.CheckStop? && Session(Model())
      modifies this
      ensures Outcome(old(Model()), beats, ret, frames, turns)
      ensures Model() == AfterBeats(old(Model()), beats, turns) && Session(Model())
      ensures ret.None? <==> forall j: nat | j < |beats| :: GoesOn(old(Model()), beats, j)
    {
      ThreadSurvivesIff(Model(), beats, |beats|);
      frames, turns, ret := 0, 0, None;
      while turns < |beats|
        invariant turns == frames <= |beats| && ret.None?
        invariant thread.CheckStop? && Model() == AfterBeats(old(Model()), beats, turns)
      {
        ret := Turn(beats[turns]);
        turns := turns + 1;
        if ret.Some? {
          LeavesAtTurn(old(Model()), beats, frames);
          BeatsKeepSession(old(Model()), beats, turns);
          GoneIsGone(old(Model()), beats, turns, |beats|);
          return;
        }
        frames := frames + 1;
      }
      OutlivesScript(old(Model()), beats);
      BeatsKeepSession(old(Model()), beats, turns);
    }
  }
}
