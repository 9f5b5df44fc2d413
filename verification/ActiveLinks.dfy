/**
 * The active list of a run as the links it is made of: in every state of every run whose starts
 * succeed, the pointers stored by the driver are those of the list the protocol speaks of.
 */
module ActiveLinks {
  import opened Streaming
  import opened KernelList

  /** videobuf2 calls buf_queue for every waiting buffer. */
  function AddAll(l: Links, bufs: seq<nat>): Links {
    if bufs == [] then l else AddTail(AddAll(l, bufs[..|bufs| - 1]), bufs[|bufs| - 1])
  }

  /** `list_del` of the entry behind the head, unless the list is empty (lines 85-88 and 215-217). */
  function TakeFirst(l: Links): Links {
    var first := Follow(l.next, Head);
    if first.Head? then l else Delete(l, first.id)
  }

  /** What a step of the protocol does to the links. */
  function LinkStep(l: Links, s: State, step: Step): Links {
    match step
    case Qbuf(b, _, _) => if s.phase.On? then AddTail(l, b) else l
    case StreamOn(_) => AddAll(l, s.queued)
    case Thread(_) => if s.drv.thread.TakeHead? then TakeFirst(l) else l
    case DrainOne => TakeFirst(l)
    case _ => l
  }

  /** The links after the first `i` steps of a run. */
  function LinksAt(t: seq<State>, steps: seq<Step>, i: nat): Links
    requires |t| == |steps| + 1 && i < |t|
  {
    if i == 0 then EMPTY else LinkStep(LinksAt(t, steps, i - 1), t[i - 1], steps[i - 1])
  }

  lemma {:induction false} AddAllAppends(l: Links, q: seq<nat>, bufs: seq<nat>)
    requires KernelList.Holds(l, q) && Distinct(q + bufs)
    ensures KernelList.Holds(AddAll(l, bufs), q + bufs)
  {
    if bufs == [] {
      assert q + bufs == q;
    } else {
      var init, b := bufs[..|bufs| - 1], bufs[|bufs| - 1];
      var all := q + bufs;
      assert q + init == all[..|all| - 1];
      AddAllAppends(l, q, init);
      assert forall i | 0 <= i < |q + init| :: (q + init)[i] == all[i] != all[|all| - 1];
      AddTailAppends(AddAll(l, init), q + init, b);
      assert q + init + [b] == all;
    }
  }

  lemma TakeFirstRemoves(l: Links, q: seq<nat>)
    requires KernelList.Holds(l, q)
    ensures KernelList.Holds(TakeFirst(l), if q == [] then q else q[1..])
  {
    FirstOf(l, q);
    if q != [] {
      DeleteFirst(l, q);
    }
  }

  lemma QueuedIsDistinct(s: State)
    requires ExactlyOnePlace(s)
    ensures Distinct(s.queued)
  {
    forall i, j | 0 <= i < j < |s.queued| ensures s.queued[i] != s.queued[j] {
      assert Copies(s, s.queued[i]) <= 1;
      OnceIsDistinct(s.queued, i, j);
    }
  }

  /** What the application holds is not on the active list. */
  lemma HeldIsUnlinked(s: State, b: nat)
    requires ExactlyOnePlace(s) && b in s.app
    ensures b !in s.drv.active
  {
    assert Copies(s, b) <= 1;
    if b in s.drv.active {
      var k :| 0 <= k < |s.drv.active| && s.drv.active[k] == b;
      FoundIsCounted(s.drv.active, k);
    }
  }

  lemma LinkStepFollows(l: Links, s: State, step: Step)
    requires Inv(s) && Enabled(s, step) && KernelList.Holds(l, s.drv.active)
    ensures KernelList.Holds(LinkStep(l, s, step), Next(s, step).drv.active)
  {
    match step
    case Qbuf(b, _, _) =>
      if s.phase.On? {
        HeldIsUnlinked(s, b);
        AddTailAppends(l, s.drv.active, b);
      }
    case StreamOn(_) =>
      QueuedIsDistinct(s);
      assert s.drv.active + s.queued == s.queued;
      AddAllAppends(l, s.drv.active, s.queued);
    case Thread(_) => TakeFirstRemoves(l, s.drv.active);
    case DrainOne => TakeFirstRemoves(l, s.drv.active);
    case _ =>
  }

  /**
   * The pointer code implements the list, in every state of every run: queueing, popping and
   * draining through next and prev keep the links of exactly the active list.
   */
  lemma {:induction false} LinksFollowTheList(t: seq<State>, steps: seq<Step>, i: nat)
    requires IsRun(t, steps) && StartsSucceed(steps) && i < |t|
    ensures KernelList.Holds(LinksAt(t, steps, i), t[i].drv.active)
  {
    if i == 0 {
      EmptyHolds();
    } else {
      var k := i - 1;
      LinksFollowTheList(t, steps, k);
      RunInv(t, steps, k);
      assert Moves(t, steps, k);
      LinkStepFollows(LinksAt(t, steps, k), t[k], steps[k]);
    }
  }

  /**
   * A second hand-over of the first `k` entries of a list: the head still points to the first
   * entry, but the first entry points back to the old last one and no longer to the head.
   */
  lemma {:induction false} RelinkedRound(l: Links, q: seq<nat>, k: nat)
    requires KernelList.Holds(l, q) && 0 < k <= |q|
    ensures var m := AddAll(l, q[..k]);
            && Head in m.next && m.next[Head] == Buf(q[0])
            && Head in m.prev && m.prev[Head] == Buf(q[k - 1])
            && Buf(q[0]) in m.prev && m.prev[Buf(q[0])] == Buf(q[|q| - 1])
  {
    assert q[..k][..k - 1] == q[..k - 1];
    if k == 1 {
      LastOf(l, q);
      FirstOf(l, q);
    } else {
      RelinkedRound(l, q, k - 1);
    }
  }

  /** No list has the links that result from handing over all its entries once more. */
  lemma RelinkedRoundIsNoList(l: Links, q: seq<nat>, r: seq<nat>)
    requires KernelList.Holds(l, q) && q != []
    ensures !KernelList.Holds(AddAll(l, q), r)
  {
    assert q[..|q|] == q;
    RelinkedRound(l, q, |q|);
    if KernelList.Holds(AddAll(l, q), r) {
      HeadIsBeforeFirst(AddAll(l, q), r);
    }
  }

  /**
   * After a failed start the list still links the buffers videobuf2 has taken back. Handing over
   * any one of them again leaves links that are no list at all, and so does the whole second
   * STREAMON, whether its thread starts or not.
   */
  lemma RetryDestroysList(l: Links, s: State, again: bool)
    requires Inv(s) && Enabled(s, StreamOn(false)) && KernelList.Holds(l, s.drv.active)
    ensures var s', l' := Next(s, StreamOn(false)), LinkStep(l, s, StreamOn(false));
            && Enabled(s', StreamOn(again)) && KernelList.Holds(l', s'.drv.active)
            && (forall b | b in s'.queued :: !exists r :: KernelList.Holds(AddTail(l', b), r))
            && !exists r :: KernelList.Holds(LinkStep(l', s', StreamOn(again)), r)
  {
    var s', l' := Next(s, StreamOn(false)), LinkStep(l, s, StreamOn(false));
    LinkStepFollows(l, s, StreamOn(false));
    assert s'.drv.active == s'.queued;
    forall b | b in s'.queued ensures !exists r :: KernelList.Holds(AddTail(l', b), r) {
      AddTailKeepsListIff(l', s'.drv.active, b);
    }
    forall r ensures !KernelList.Holds(LinkStep(l', s', StreamOn(again)), r) {
      RelinkedRoundIsNoList(l', s'.queued, r);
    }
  }
}
