/**
 * One session after another. Whatever a device at rest has been through, it can do everything it
 * could do when it was new: sessions repeat without bound.
 */
module Sessions {
  import opened FakeVidDriver
  import opened Streaming
  import opened GrabberScripts
  import opened EndToEnd
  import opened Progress

  /** Whether a stream was started during the first `i` steps. */
  predicate StartedBy(steps: seq<Step>, i: nat)
    requires i <= |steps|
  {
    i > 0 && (steps[i - 1].StreamOn? || StartedBy(steps, i - 1))
  }

  /**
   * State `u` of a new device as it is on one that has come to rest in `s`: what was recorded of
   * the buffers lies under what is recorded anew, and the last session's history stays until the
   * next start.
   */
  function Onto(s: State, u: State, started: bool): State {
    u.(payload := s.payload + u.payload, user := s.user + u.user,
       drv := if started then u.drv else s.drv, taken := if started then u.taken else s.taken)
  }

  /** Before its first start a new device has no history, no thread and nothing listed. */
  ghost predicate Unstarted(u: State) {
    u.phase.Off? && u.done == [] && u.taken == [] && u.drv == Initial(u.byUser, u.planes).drv
  }

  lemma {:induction false} NoHistoryYet(u: seq<State>, more: seq<Step>, i: nat)
    requires IsRun(u, more) && StartsSucceed(more) && i < |u| && !StartedBy(more, i)
    ensures Unstarted(u[i])
  {
    if i > 0 {
      var k := i - 1;
      NoHistoryYet(u, more, k);
      assert Moves(u, more, k);
    }
  }

  lemma MapsOnto<V>(m: map<nat, V>, n: map<nat, V>, b: nat, v: V)
    ensures m + n[b := v] == (m + n)[b := v]
  {
  }

  /** A step that is possible on a new device is possible, and does the same, on the other. */
  lemma StepOnto(s: State, u: State, started: bool, step: Step)
    requires PhaseShape(s) && s.phase.Off? && (started || Unstarted(u))
    requires Enabled(u, step) && step != StreamOn(false)
    ensures Enabled(Onto(s, u, started), step)
    ensures Next(Onto(s, u, started), step) == Onto(s, Next(u, step), started || step.StreamOn?)
  {
    if step.Qbuf? {
      MapsOnto(s.payload, u.payload, step.buf, Next(u, step).payload[step.buf]);
      MapsOnto(s.user, u.user, step.buf, Queued(step.userptr, step.length));
    }
  }

  lemma RestOnto(s: State)
    requires AtRest(s) && PhaseShape(s)
    ensures Onto(s, Initial(s.byUser, s.planes), false) == s
  {
  }

  /** State `i` of the second run as it follows the first. */
  function StateOnto(s: State, u: seq<State>, more: seq<Step>, i: nat): State
    requires i < |u| == |more| + 1
  {
    Onto(s, u[i], StartedBy(more, i))
  }

  lemma MoveOnto(s: State, u: seq<State>, more: seq<Step>, i: nat)
    requires PhaseShape(s) && s.phase.Off? && IsRun(u, more) && StartsSucceed(more) && i < |more|
    ensures Enabled(StateOnto(s, u, more, i), more[i])
    ensures Next(StateOnto(s, u, more, i), more[i]) == StateOnto(s, u, more, i + 1)
  {
    assert Moves(u, more, i);
    if !StartedBy(more, i) {
      NoHistoryYet(u, more, i);
    }
    StepOnto(s, u[i], StartedBy(more, i), more[i]);
  }

  /** The run `t` followed by the states of `u`. */
  function Joined(t: seq<State>, s: State, u: seq<State>, more: seq<Step>): seq<State>
    requires |u| == |more| + 1
  {
    t + seq(|more|, i requires 0 <= i < |more| => StateOnto(s, u, more, i + 1))
  }

  /**
   * Whatever a new device can do, a device at rest after any run can do next: the second run
   * follows the first step by step, and its states are those of the new device but for what the
   * first left recorded.
   */
  lemma Replay(t: seq<State>, steps: seq<Step>, u: seq<State>, more: seq<Step>) returns (t': seq<State>)
    requires IsRun(t, steps) && StartsSucceed(steps) && AtRest(t[|steps|])
    requires IsRun(u, more) && StartsSucceed(more) && u[0] == Initial(t[0].byUser, t[0].planes)
    ensures IsRun(t', steps + more) && StartsSucceed(steps + more) && t <= t'
    ensures forall i: nat | i <= |more| :: t'[|steps| + i] == StateOnto(t[|steps|], u, more, i)
  {
    var s := t[|steps|];
    RunInv(t, steps, |steps|);
    RestOnto(s);
    t' := Joined(t, s, u, more);
    assert forall i: nat | i <= |more| :: t'[|steps| + i] == StateOnto(s, u, more, i);
    forall j: nat | j < |steps + more| ensures Moves(t', steps + more, j) {
      if j < |steps| {
        assert Moves(t, steps, j);
      } else {
        var i := j - |steps|;
        MoveOnto(s, u, more, i);
        assert t'[|steps| + i] == StateOnto(s, u, more, i) && t'[|steps| + (i + 1)] == StateOnto(s, u, more, i + 1);
      }
    }
  }

  /** A DQBUF is answered as on the new device. */
  lemma RepliesOnto(s: State, u: State, started: bool, arg: Arg)
    requires Replies(u, arg)
    ensures Replies(Onto(s, u, started), arg)
  {
  }

  /**
   * A capture from any state of rest, however many sessions there were before it: all its calls
   * are made and answered, as on a new device, and lead to rest again.
   */
  lemma CaptureAgain(t: seq<State>, steps: seq<Step>, io: IoMethod, bufs: seq<Buffer>, f: nat)
    returns (t': seq<State>, u: seq<State>, more: seq<Step>, answers: seq<Arg>)
    requires IsRun(t, steps) && StartsSucceed(steps) && AtRest(t[|steps|])
    requires Setting(t[0], io, bufs) && Usable(io, bufs)
    ensures ServesWhole(u, more, io, bufs, answers, f)
    ensures IsRun(t', steps + more) && StartsSucceed(steps + more) && t <= t' && AtRest(t'[|steps + more|])
    ensures forall i: nat | i <= |more| :: t'[|steps| + i] == StateOnto(t[|steps|], u, more, i)
    ensures forall i: nat, arg | i <= |more| && Replies(u[i], arg) :: Replies(t'[|steps| + i], arg)
  {
    u, more, answers := EveryCaptureCanBeServed(io, bufs, t[0].planes, f);
    t' := Replay(t, steps, u, more);
    var s := t[|steps|];
    assert t'[|steps| + |more|] == StateOnto(s, u, more, |more|);
    forall i: nat, arg | i <= |more| && Replies(u[i], arg) ensures Replies(t'[|steps| + i], arg) {
      assert t'[|steps| + i] == StateOnto(s, u, more, i);
      RepliesOnto(s, u[i], StartedBy(more, i), arg);
    }
  }

  /** A device that is not streaming comes to rest by STREAMOFF, whatever is queued. */
  lemma ComesToRest(t: seq<State>, steps: seq<Step>)
    requires IsRun(t, steps) && StartsSucceed(steps) && t[|steps|].phase.Off?
    ensures Enabled(t[|steps|], Cancel) && AtRest(Next(t[|steps|], Cancel))
    ensures IsRun(t + [Next(t[|steps|], Cancel)], steps + [Cancel]) && StartsSucceed(steps + [Cancel])
  {
    ExtendRun(t, steps, Cancel);
  }

  function Flatten(parts: seq<seq<Step>>): seq<Step> {
    if parts == [] then [] else Flatten(parts[..|parts| - 1]) + parts[|parts| - 1]
  }

  /** Session `k` of a run made of `parts` is a whole capture of `counts[k]` frames. */
  ghost predicate IsCapture(part: seq<Step>, io: IoMethod, bufs: seq<Buffer>, f: nat) {
    exists u, answers :: ServesWhole(u, part, io, bufs, answers, f)
  }

  /**
   * Sessions without bound: for any sequence of frame counts there is one run that is made of
   * that many whole captures, one after the other.
   */
  lemma {:induction false} SessionsRepeat(io: IoMethod, bufs: seq<Buffer>, counts: seq<nat>)
    returns (t: seq<State>, steps: seq<Step>, parts: seq<seq<Step>>)
    requires Usable(io, bufs)
    ensures IsRun(t, steps) && StartsSucceed(steps) && Setting(t[0], io, bufs) && AtRest(t[|steps|])
    ensures steps == Flatten(parts) && |parts| == |counts|
    ensures forall k: nat | k < |counts| :: IsCapture(parts[k], io, bufs, counts[k])
  {
    if counts == [] {
      t, steps, parts := [Initial(io.UserPtr?, LengthsOf(bufs))], [], [];
    } else {
      var last := |counts| - 1;
      t, steps, parts := SessionsRepeat(io, bufs, counts[..last]);
      var t', u, more, answers := CaptureAgain(t, steps, io, bufs, counts[last]);
      t, steps := t', steps + more;
      assert (parts + [more])[..last] == parts;
      parts := parts + [more];
      assert IsCapture(more, io, bufs, counts[last]);
    }
  }

  // ---------------------------------------------------------------- from any state that is not streaming

  /** Every buffer holds an image, as mapped or with `lengths[b]` bytes of the application's memory. */
  ghost predicate AllFit(s: State, lengths: seq<nat>) {
    |lengths| == |s.planes| > 0 && forall b: nat | b < |lengths| :: Fits(s, b, lengths[b])
  }

  /** What the application holds are real buffers, and the rest is queued. */
  lemma HeldWhenOff(s: State)
    requires ExactlyOnePlace(s) && PhaseShape(s) && s.phase.Off?
    ensures forall b | b in s.app :: b < |s.planes|
    ensures s.app == {} && |s.planes| > 0 ==> s.queued != []
  {
    forall b | b in s.app ensures b < |s.planes| {
      assert Copies(s, b) >= 1;
    }
    if s.app == {} && |s.planes| > 0 {
      assert Copies(s, 0) == 1;
      assert BufOf(s.done) == [];
    }
  }

  lemma {:induction false} QueueAllHeld(t: seq<State>, steps: seq<Step>, lengths: seq<nat>)
    returns (t': seq<State>, steps': seq<Step>)
    requires IsRun(t, steps) && StartsSucceed(steps) && t[|steps|].phase.Off? && AllFit(t[|steps|], lengths)
    ensures IsRun(t', steps') && StartsSucceed(steps') && t <= t' && steps <= steps'
    ensures forall i: nat | |steps| <= i < |steps'| :: steps'[i].Qbuf?
    ensures t'[|steps'|].phase.Off? && t'[|steps'|].app == {}
    decreases |t[|steps|].app|
  {
    t', steps' := t, steps;
    var s := t[|steps|];
    if s.app != {} {
      var b :| b in s.app;
      RunInv(t, steps, |steps|);
      HeldWhenOff(s);
      var step := Qbuf(b, 0, lengths[b]);
      ExtendRun(t, steps, step);
      t', steps' := QueueAllHeld(t + [Next(s, step)], steps + [step], lengths);
    }
  }

  /**
   * From every state of every run that is not streaming, whatever is queued and however often the
   * device has streamed, the buffers that are left can be queued and the stream started; the
   * thread then stands at the head of its loop with every buffer on the list.
   */
  lemma ReadyAgain(t: seq<State>, steps: seq<Step>, lengths: seq<nat>) returns (t': seq<State>, steps': seq<Step>)
    requires IsRun(t, steps) && StartsSucceed(steps) && t[|steps|].phase.Off? && AllFit(t[|steps|], lengths)
    ensures IsRun(t', steps') && StartsSucceed(steps') && t <= t' && steps < steps'
    ensures forall i: nat | |steps| <= i < |steps'| - 1 :: steps'[i].Qbuf?
    ensures steps'[|steps'| - 1] == StreamOn(true) && Progress.Ready(t'[|steps'|])
    ensures |t'[|steps'|].drv.active| == |t[0].planes|
  {
    t', steps' := QueueAllHeld(t, steps, lengths);
    RunInv(t, steps, |steps|);
    RunInv(t', steps', |steps'|);
    HeldWhenOff(t'[|steps'|]);
    ExtendRun(t', steps', StreamOn(true));
    t', steps' := t' + [Next(t'[|steps'|], StreamOn(true))], steps' + [StreamOn(true)];
    EverythingListed(t', steps');
  }

  lemma EverythingListed(t: seq<State>, steps: seq<Step>)
    requires IsRun(t, steps) && StartsSucceed(steps) && Progress.Ready(t[|steps|])
    ensures |t[|steps|].drv.active| == |t[0].planes|
  {
    RunInv(t, steps, |steps|);
    PlaceCountsSum(t[|steps|]);
  }

  // ---------------------------------------------------------------- a start with any queue

  lemma {:induction false} ThreadMoves(t: seq<State>, steps: seq<Step>, k: nat)
    returns (t': seq<State>, steps': seq<Step>)
    requires IsRun(t, steps) && StartsSucceed(steps)
    ensures IsRun(t', steps') && StartsSucceed(steps') && t <= t' && steps <= steps'
    ensures t'[|steps'|] == ThreadRuns(t[|steps|], k)
    ensures forall i: nat | |steps| <= i < |steps'| :: steps'[i].Thread?
    decreases k
  {
    t', steps' := t, steps;
    if k > 0 && Runnable(t[|steps|].drv.thread) {
      ExtendRun(t, steps, Thread(true));
      t', steps' := ThreadMoves(t + [Next(t[|steps|], Thread(true))], steps + [Thread(true)], k - 1);
    }
  }

  /**
   * A start needs no more than one queued buffer, after any number of sessions: with whatever is
   * queued the stream can be started, the thread alone then completes the oldest buffer, and a
   * DQBUF returns it as the first frame of the session.
   */
  lemma AnyQueueStreams(t: seq<State>, steps: seq<Step>) returns (t': seq<State>, steps': seq<Step>)
    requires IsRun(t, steps) && StartsSucceed(steps) && t[|steps|].phase.Off? && t[|steps|].queued != []
    ensures IsRun(t', steps') && StartsSucceed(steps') && t <= t' && steps <= steps' && |steps'| >= |steps| + 2
    ensures steps'[|steps|] == StreamOn(true) && steps'[|steps'| - 1] == Dqbuf(t[|steps|].queued[0])
    ensures forall i: nat | |steps| < i < |steps'| - 1 :: steps'[i].Thread?
    ensures t'[|steps'|].phase.On? && t'[|steps'|].taken == [Return(t[|steps|].queued[0], Done)]
  {
    var s := t[|steps|];
    RunShape(t, steps, |steps|);
    ExtendRun(t, steps, StreamOn(true));
    var on := Next(s, StreamOn(true));
    StartCompletesOldest(s);
    t', steps' := ThreadMoves(t + [on], steps + [StreamOn(true)], 6);
    var full, dqbuf := t'[|steps'|], Dqbuf(s.queued[0]);
    ExtendRun(t', steps', dqbuf);
    t', steps' := t' + [Next(full, dqbuf)], steps' + [dqbuf];
  }

  lemma StartCompletesOldest(s: State)
    requires PhaseShape(s) && s.phase.Off? && s.queued != []
    ensures Enabled(s, StreamOn(true))
    ensures var full := ThreadRuns(Next(s, StreamOn(true)), 6);
            full.phase.On? && full.taken == [] && full.done == [Return(s.queued[0], Done)]
  {
    var on := Next(s, StreamOn(true));
    assert on.drv.active == s.queued;
    TurnCompletes(on);
  }
}
