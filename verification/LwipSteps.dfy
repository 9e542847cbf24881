/** What an action, the handling of a connection and a tick do to the connections, case by case. */
module LwipSteps {
  import opened Basics
  import opened LwipTimer

  /** Taking a connection out of the list leaves the others in their order. */
  lemma {:induction false} RemovedIs(l: seq<nat>, k: nat)
    requires k < |l| && l[k] !in l[..k]
    ensures Removed(l, l[k]) == l[..k] + l[k + 1..]
  {
    WithoutIs(l, k);
  }

  lemma {:induction false} RemovedNothing(l: seq<nat>, p: nat)
    requires p !in l
    ensures Removed(l, p) == l
  {
    if l != [] {
      RemovedNothing(l[1..], p);
    }
  }

  /**
   * Removing unlinks an active connection, and registering puts an idle one in front of the list; both flag the change.
   * Allocating stamps a free connection with the current tick, and leaves it out of the list; freeing one frees it.
   * In any other state of the connection nothing happens.
   */
  lemma ActIs(v: View, ctr: nat, p: nat)
    requires |v.status| == |v.stamp|
    ensures p < |v.status| && v.status[p] == Active ==>
              ActOn(v, ctr, Remove(p)) == View(v.status[p := Idle], v.stamp, Removed(v.active, p), true, v.born)
    ensures p < |v.status| && v.status[p] == Idle ==>
              && ActOn(v, ctr, Register(p)) == View(v.status[p := Active], v.stamp, [p] + v.active, true, v.born)
              && ActOn(v, ctr, Dealloc(p)) == View(v.status[p := Free], v.stamp, v.active, v.changed, v.born)
    ensures p < |v.status| && v.status[p] == Free ==>
              ActOn(v, ctr, Alloc(p)) == View(v.status[p := Idle], v.stamp[p := ctr], v.active, v.changed, v.born + {p})
    ensures p < |v.status| && v.status[p] != Active ==> ActOn(v, ctr, Remove(p)) == v
    ensures p < |v.status| && v.status[p] != Idle ==> ActOn(v, ctr, Register(p)) == v && ActOn(v, ctr, Dealloc(p)) == v
    ensures p < |v.status| && v.status[p] != Free ==> ActOn(v, ctr, Alloc(p)) == v
    ensures forall a: Action :: a.p >= |v.status| ==> ActOn(v, ctr, a) == v
  {
    hide Removed;
  }

  /** A callback is its actions, one after the other. */
  lemma CallbackIs(v: View, ctr: nat, acts: seq<Action>, a: Action)
    requires |v.status| == |v.stamp|
    ensures ActAll(v, ctr, []) == v && ActAll(v, ctr, acts + [a]) == ActOn(ActAll(v, ctr, acts), ctr, a)
  {
    hide ActOn;
    assert (acts + [a])[..|acts|] == acts;
  }

  /**
   * A connection that is reached is stamped first. One that is dropped is unlinked and freed, and one that is
   * polled stays; then the flag is cleared, and then the callback runs. Else nothing more happens.
   */
  lemma ReachIs(v: View, ctr: nat, p: nat, acts: seq<Action>)
    requires |v.status| == |v.stamp| && p < |v.status|
    ensures Reach(v, ctr, p, Quiet) == View(v.status, v.stamp[p := ctr], v.active, v.changed, v.born)
    ensures Reach(v, ctr, p, Poll(acts)) == ActAll(View(v.status, v.stamp[p := ctr], v.active, false, v.born), ctr, acts)
    ensures Reach(v, ctr, p, Drop(acts)) ==
              ActAll(View(v.status[p := Free], v.stamp[p := ctr], Removed(v.active, p), false, v.born), ctr, acts)
  {
    hide ActAll, Removed;
  }

  /** The connections of a run are reached one after the other. */
  lemma PlayIs(v: View, ctr: nat, ps: seq<nat>, p: nat, script: nat -> Decision)
    requires |v.status| == |v.stamp|
    ensures Play(v, ctr, [], script) == v && Play(v, ctr, ps + [p], script) == Reach(Play(v, ctr, ps, script), ctr, p, script(|ps|))
  {
    hide Reach;
    assert (ps + [p])[..|ps|] == ps;
  }

  lemma {:induction false} InTurnIff(v: View, ctr: nat, ps: seq<nat>, script: nat -> Decision)
    requires |v.status| == |v.stamp|
    ensures InTurn(v, ctr, ps, script) <==>
              forall n :: 0 <= n < |ps| ==> Upcoming(Play(v, ctr, ps[..n], script).active, Play(v, ctr, ps[..n], script).stamp, ctr) == ps[n]
    decreases |ps|
  {
    hide Play, Upcoming;
    if ps != [] {
      var m := |ps| - 1;
      InTurnIff(v, ctr, ps[..m], script);
      assert forall n :: 0 <= n < m ==> ps[..m][..n] == ps[..n];
    }
  }

  /** The connection the timer goes on with: the first of the list that does not have the stamp of this tick. */
  lemma {:induction false} UpcomingIs(l: seq<nat>, stamp: seq<int>, ctr: nat)
    requires forall j :: 0 <= j < |l| ==> l[j] < |stamp|
    ensures forall k :: 0 <= k < |l| && stamp[l[k]] != ctr && (forall j :: 0 <= j < k ==> stamp[l[j]] == ctr) ==> Upcoming(l, stamp, ctr) == l[k]
    ensures (forall j :: 0 <= j < |l| ==> stamp[l[j]] == ctr) ==> Upcoming(l, stamp, ctr) == -1
  {
    hide Upcoming;
    forall k | 0 <= k < |l| && stamp[l[k]] != ctr && forall j :: 0 <= j < k ==> stamp[l[j]] == ctr
      ensures Upcoming(l, stamp, ctr) == l[k]
    {
      UpcomingAt(l, stamp, ctr, k);
    }
    if forall j :: 0 <= j < |l| ==> stamp[l[j]] == ctr {
      UpcomingAt(l, stamp, ctr, |l|);
    }
  }

  /**
   * A tick reaches connection after connection, each the first active one without the stamp of the tick in the list
   * that the callbacks before it have left behind, until there is none.
   */
  lemma TickIff(v: View, ctr: nat, ps: seq<nat>, script: nat -> Decision, now: View)
    requires |v.status| == |v.stamp|
    ensures Ticked(v, ctr, ps, script, now) <==>
              var start := View(v.status, v.stamp, v.active, v.changed, {});
              && (forall n :: 0 <= n < |ps| ==>
                    Upcoming(Play(start, ctr, ps[..n], script).active, Play(start, ctr, ps[..n], script).stamp, ctr) == ps[n])
              && now == Play(start, ctr, ps, script) && Upcoming(now.active, now.stamp, ctr) == -1
  {
    hide Play, Upcoming, InTurn;
    InTurnIff(v.(born := {}), ctr, ps, script);
  }
}
