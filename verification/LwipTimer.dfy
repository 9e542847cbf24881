/** The walk of tcp_slowtmr over the active connections, which callbacks may change under it. */
module LwipTimer {
  import opened Basics

  /** A connection is unallocated, in some other list or in none, or in tcp_active_pcbs. */
  datatype Status = Free | Idle | Active

  /** What an application can do to the lists from inside a callback. */
  datatype Action = Remove(p: nat) | Register(p: nat) | Alloc(p: nat) | Dealloc(p: nat)

  /** What happens to a connection when the timer reaches it. */
  datatype Decision = Drop(callback: seq<Action>) | Poll(callback: seq<Action>) | Quiet

  const NULL := -1

  function At(l: seq<nat>, i: int): int {
    if 0 <= i < |l| then l[i] else NULL
  }

  /** A list linked through next, from head to NULL. */
  ghost predicate Linked(next: seq<int>, head: int, l: seq<nat>) {
    && head == At(l, 0)
    && (forall i :: 0 <= i < |l| ==> l[i] < |next| && next[l[i]] == At(l, i + 1))
    && (forall i, j :: 0 <= i < j < |l| ==> l[i] != l[j])
  }

  function Without(l: seq<nat>, i: nat): seq<nat>
    requires i < |l|
  {
    l[..i] + l[i + 1..]
  }

  lemma WithoutAt(l: seq<nat>, i: nat)
    requires i < |l|
    ensures |Without(l, i)| == |l| - 1
    ensures forall j :: 0 <= j < i ==> Without(l, i)[j] == l[j]
    ensures forall j :: i <= j < |l| - 1 ==> Without(l, i)[j] == l[j + 1]
  {
  }

  /** In place i there is what was behind it, and nothing in front of it changes. */
  lemma WithoutAround(l: seq<nat>, i: nat)
    requires i < |l|
    ensures |Without(l, i)| == |l| - 1 && At(Without(l, i), i) == At(l, i + 1) && At(Without(l, i), i - 1) == At(l, i - 1)
    ensures forall j :: 0 <= j < i ==> Without(l, i)[j] == l[j]
  {
  }

  lemma WithoutMembers(l: seq<nat>, i: nat)
    requires i < |l| && forall j, k :: 0 <= j < k < |l| ==> l[j] != l[k]
    ensures forall q :: q in Without(l, i) <==> q in l && q != l[i]
  {
    hide Without;
    WithoutAt(l, i);
    var m := Without(l, i);
    forall q | q in l && q != l[i]
      ensures q in m
    {
      var j :| 0 <= j < |l| && l[j] == q;
      assert m[if j < i then j else j - 1] == q;
    }
    forall q | q in m
      ensures q in l && q != l[i]
    {
      var j :| 0 <= j < |m| && m[j] == q;
      assert l[if j < i then j else j + 1] == q;
    }
  }

  lemma LinkedAt(next: seq<int>, head: int, l: seq<nat>, i: nat)
    requires Linked(next, head, l)
    ensures head == At(l, 0)
    ensures i < |l| ==> l[i] < |next| && next[l[i]] == At(l, i + 1)
    ensures forall j :: 0 <= j < |l| && j != i && i < |l| ==> l[j] != l[i]
  {
  }

  lemma UnlinkFirst(next: seq<int>, head: int, l: seq<nat>)
    requires Linked(next, head, l) && l != []
    ensures Linked(next, next[l[0]], Without(l, 0))
  {
    hide Without;
    WithoutAt(l, 0);
    var m := Without(l, 0);
    forall i | 0 <= i < |m|
      ensures m[i] < |next| && next[m[i]] == At(m, i + 1)
    {
      assert m[i] == l[i + 1] && At(m, i + 1) == At(l, i + 2);
    }
  }

  lemma UnlinkLater(next: seq<int>, head: int, l: seq<nat>, i: nat)
    requires Linked(next, head, l) && 0 < i < |l|
    ensures Linked(next[l[i - 1] := next[l[i]]], head, Without(l, i))
  {
    hide Without;
    WithoutAt(l, i);
    var m, r := Without(l, i), next[l[i - 1] := next[l[i]]];
    forall j | 0 <= j < |m|
      ensures m[j] < |r| && r[m[j]] == At(m, j + 1)
    {
      if j < i - 1 {
        assert m[j] == l[j] && At(m, j + 1) == At(l, j + 1);
      } else if j == i - 1 {
        assert m[j] == l[j] && At(m, j + 1) == At(l, i + 1);
      } else {
        assert m[j] == l[j + 1] && At(m, j + 1) == At(l, j + 2);
      }
    }
  }

  /** Changing the link of something that is not in the list. */
  lemma LinkOutside(next: seq<int>, head: int, l: seq<nat>, p: nat, v: int)
    requires Linked(next, head, l) && p < |next| && p !in l
    ensures Linked(next[p := v], head, l)
  {
  }

  lemma LinkFront(next: seq<int>, head: int, l: seq<nat>, p: nat)
    requires Linked(next, head, l) && p < |next| && p !in l
    ensures Linked(next[p := head], p, [p] + l)
  {
    var m, r := [p] + l, next[p := head];
    forall i | 0 <= i < |m|
      ensures m[i] < |r| && r[m[i]] == At(m, i + 1)
    {
      if i > 0 {
        assert m[i] == l[i - 1] && At(m, i + 1) == At(l, i);
      }
    }
  }

  lemma {:induction false} SubsetSize(a: set<nat>, b: set<nat>)
    requires a <= b
    ensures |a| <= |b|
  {
    if a != {} {
      var x :| x in a;
      SubsetSize(a - {x}, b - {x});
    }
  }

  // ----- what callbacks do, on values

  /** The connections, the active list, the flag for its changes, and the connections allocated since the last tick. */
  datatype View = View(status: seq<Status>, stamp: seq<int>, active: seq<nat>, changed: bool, born: set<nat>)

  /** The list without p. */
  function Removed(l: seq<nat>, p: nat): seq<nat> {
    if l == [] then [] else if l[0] == p then l[1..] else [l[0]] + Removed(l[1..], p)
  }

  lemma WithoutRest(l: seq<nat>, k: nat)
    requires 0 < k < |l|
    ensures Without(l, k) == [l[0]] + Without(l[1..], k - 1)
  {
  }

  lemma {:induction false} WithoutIs(l: seq<nat>, k: nat)
    requires k < |l| && l[k] !in l[..k]
    ensures Without(l, k) == Removed(l, l[k])
  {
    if k > 0 {
      var rest := l[1..];
      assert l[..k] == [l[0]] + rest[..k - 1];
      WithoutIs(rest, k - 1);
      WithoutRest(l, k);
    }
  }

  function ActOn(v: View, ctr: nat, a: Action): (r: View)
    requires |v.status| == |v.stamp|
    ensures |r.status| == |r.stamp| == |v.status|
  {
    if a.p >= |v.status| then v
    else
      match (a, v.status[a.p])
      case (Remove(p), Active) => v.(status := v.status[p := Idle], active := Removed(v.active, p), changed := true)
      case (Register(p), Idle) => v.(status := v.status[p := Active], active := [p] + v.active, changed := true)
      case (Alloc(p), Free) => v.(status := v.status[p := Idle], stamp := v.stamp[p := ctr], born := v.born + {p})
      case (Dealloc(p), Idle) => v.(status := v.status[p := Free])
      case _ => v
  }

  function ActAll(v: View, ctr: nat, acts: seq<Action>): (r: View)
    requires |v.status| == |v.stamp|
    ensures |r.status| == |r.stamp| == |v.status|
  {
    if acts == [] then v else ActOn(ActAll(v, ctr, acts[..|acts| - 1]), ctr, acts[|acts| - 1])
  }

  function Calls(d: Decision): seq<Action> {
    if d.Quiet? then [] else d.callback
  }

  /** A dropped connection is out of the list, and free, before its callback; the flag is cleared before any callback. */
  function HandleOn(v: View, ctr: nat, p: nat, d: Decision): (r: View)
    requires |v.status| == |v.stamp| && p < |v.status|
    ensures |r.status| == |r.stamp| == |v.status|
  {
    match d
    case Drop(acts) =>
      ActAll(v.(status := v.status[p := Free], active := Removed(v.active, p), changed := false), ctr, acts)
    case Poll(acts) => ActAll(v.(changed := false), ctr, acts)
    case Quiet => v
  }

  /** Whatever counts as new after a callback was allocated by it, and was free at that moment. */
  lemma {:induction false} BornWereFree(v: View, ctr: nat, acts: seq<Action>, p: nat)
    requires |v.status| == |v.stamp| && p in ActAll(v, ctr, acts).born && p !in v.born
    ensures exists n :: 0 <= n < |acts| && acts[n] == Alloc(p) && p < |v.status|
                        && ActAll(v, ctr, acts[..n]).status[p] == Free
  {
    if acts != [] {
      var m := |acts| - 1;
      if p in ActAll(v, ctr, acts[..m]).born {
        BornWereFree(v, ctr, acts[..m], p);
        var n :| 0 <= n < m && acts[..m][n] == Alloc(p) && ActAll(v, ctr, acts[..m][..n]).status[p] == Free;
        assert acts[..m][..n] == acts[..n];
      } else {
        assert acts[m] == Alloc(p);
      }
    }
  }

  lemma BornByHandling(v: View, ctr: nat, p: nat, d: Decision)
    requires |v.status| == |v.stamp| && p < |v.status|
    ensures forall q :: q in HandleOn(v, ctr, p, d).born ==> q in v.born || Alloc(q) in Calls(d)
  {
    hide ActAll;
    var w := if d.Drop? then v.(status := v.status[p := Free], active := Removed(v.active, p), changed := false)
             else v.(changed := false);
    forall q | q in ActAll(w, ctr, Calls(d)).born && q !in v.born
      ensures Alloc(q) in Calls(d)
    {
      BornWereFree(w, ctr, Calls(d), q);
    }
  }

  /** One of the first n callbacks allocates p. */
  ghost predicate Allocated(script: nat -> Decision, n: nat, p: nat) {
    exists j: nat :: j < n && Alloc(p) in Calls(script(j))
  }

  function Refused(d: Option<seq<Action>>): Decision {
    if d.Some? then Poll(d.value) else Quiet
  }

  /** The decisions of a script of callbacks for refused data. */
  function Refusals(script: nat -> Option<seq<Action>>): nat -> Decision {
    (n: nat) => Refused(script(n))
  }

  ghost predicate BornIn(was: set<nat>, now: set<nat>, script: nat -> Decision, n: nat) {
    forall p :: p in now ==> p in was || Allocated(script, n, p)
  }

  lemma BornMore(was: set<nat>, mid: set<nat>, now: set<nat>, script: nat -> Decision, n: nat)
    requires BornIn(was, mid, script, n) && forall q :: q in now ==> q in mid || Alloc(q) in Calls(script(n))
    ensures BornIn(was, now, script, n + 1)
  {
  }

  lemma BornAtFirst(was: set<nat>, script: nat -> Decision)
    ensures BornIn(was, was, script, 0)
  {
  }

  // ----- a tick, on values

  /** The first connection of the list without the stamp of this tick, or NULL. */
  function Upcoming(l: seq<nat>, stamp: seq<int>, ctr: nat): int {
    if l == [] then NULL
    else if l[0] < |stamp| && stamp[l[0]] != ctr then l[0]
    else Upcoming(l[1..], stamp, ctr)
  }

  /** The timer stamps a connection before it handles it. */
  function Reach(v: View, ctr: nat, p: nat, d: Decision): (r: View)
    requires |v.status| == |v.stamp|
    ensures |r.status| == |r.stamp| == |v.status|
  {
    if p < |v.status| then HandleOn(v.(stamp := v.stamp[p := ctr]), ctr, p, d) else v
  }

  /** The connections of ps are reached one after the other, and handled as the script says. */
  function Play(v: View, ctr: nat, ps: seq<nat>, script: nat -> Decision): (r: View)
    requires |v.status| == |v.stamp|
    ensures |r.status| == |r.stamp| == |v.status|
  {
    if ps == [] then v
    else
      var n := |ps| - 1;
      Reach(Play(v, ctr, ps[..n], script), ctr, ps[n], script(n))
  }

  /** Each of ps is the upcoming connection of the list that those before it have left behind. */
  predicate InTurn(v: View, ctr: nat, ps: seq<nat>, script: nat -> Decision)
    requires |v.status| == |v.stamp|
  {
    ps == [] ||
    var n := |ps| - 1;
    var w := Play(v, ctr, ps[..n], script);
    InTurn(v, ctr, ps[..n], script) && Upcoming(w.active, w.stamp, ctr) == ps[n]
  }

  predicate Played(was: View, ctr: nat, ps: seq<nat>, script: nat -> Decision, now: View) {
    |was.status| == |was.stamp| && InTurn(was, ctr, ps, script) && now == Play(was, ctr, ps, script)
  }

  /** A whole tick: until no connection is upcoming any more. */
  predicate Ticked(was: View, ctr: nat, ps: seq<nat>, script: nat -> Decision, now: View) {
    Played(was.(born := {}), ctr, ps, script, now) && Upcoming(now.active, now.stamp, ctr) == NULL
  }

  lemma PlayNothing(v: View, ctr: nat, script: nat -> Decision)
    requires |v.status| == |v.stamp|
    ensures Played(v, ctr, [], script, v)
  {
  }

  lemma PlayMore(was: View, ctr: nat, ps: seq<nat>, script: nat -> Decision, now: View, p: nat)
    requires Played(was, ctr, ps, script, now) && Upcoming(now.active, now.stamp, ctr) == p
    ensures Played(was, ctr, ps + [p], script, Reach(now, ctr, p, script(|ps|)))
  {
    hide Reach, Upcoming;
    assert (ps + [p])[..|ps|] == ps;
  }

  lemma {:induction false} UpcomingAt(l: seq<nat>, stamp: seq<int>, ctr: nat, k: nat)
    requires k <= |l| && forall j :: 0 <= j < k ==> l[j] < |stamp| && stamp[l[j]] == ctr
    requires k < |l| ==> l[k] < |stamp| && stamp[l[k]] != ctr
    ensures Upcoming(l, stamp, ctr) == At(l, k)
  {
    if k > 0 {
      UpcomingAt(l[1..], stamp, ctr, k - 1);
    }
  }

  lemma {:induction false} InTurnFront(v: View, ctr: nat, ps: seq<nat>, script: nat -> Decision, n: nat)
    requires |v.status| == |v.stamp| && InTurn(v, ctr, ps, script) && n <= |ps|
    ensures InTurn(v, ctr, ps[..n], script)
    ensures var w := Play(v, ctr, ps[..n], script);
            n < |ps| ==> Upcoming(w.active, w.stamp, ctr) == ps[n]
  {
    hide Play, Upcoming;
    if n < |ps| {
      var m := |ps| - 1;
      if n < m {
        InTurnFront(v, ctr, ps[..m], script, n);
        assert ps[..m][..n] == ps[..n];
      }
    } else {
      assert ps[..n] == ps;
    }
  }

  /** Two orders agree as far as the shorter one goes. */
  lemma {:induction false} SameOrder(v: View, ctr: nat, ps: seq<nat>, qs: seq<nat>, script: nat -> Decision, n: nat)
    requires |v.status| == |v.stamp| && InTurn(v, ctr, ps, script) && InTurn(v, ctr, qs, script)
    requires n <= |ps| && n <= |qs|
    ensures ps[..n] == qs[..n]
  {
    hide Play, Upcoming, InTurn;
    if n > 0 {
      SameOrder(v, ctr, ps, qs, script, n - 1);
      InTurnFront(v, ctr, ps, script, n - 1);
      InTurnFront(v, ctr, qs, script, n - 1);
      assert ps[..n] == ps[..n - 1] + [ps[n - 1]] && qs[..n] == qs[..n - 1] + [qs[n - 1]];
    }
  }

  lemma NotLonger(v: View, ctr: nat, ps: seq<nat>, qs: seq<nat>, script: nat -> Decision, now: View)
    requires Ticked(v, ctr, ps, script, now) && |v.status| == |v.stamp| && InTurn(v.(born := {}), ctr, qs, script)
    ensures |qs| <= |ps|
  {
    hide Play, Upcoming, InTurn;
    assert ps[..|ps|] == ps;
    if |ps| < |qs| {
      SameOrder(v.(born := {}), ctr, ps, qs, script, |ps|);
      InTurnFront(v.(born := {}), ctr, qs, script, |ps|);
    }
  }

  /** The connections, their stamps and what the script says determine a tick: whom it handles, in what order, and what comes out. */
  lemma OneTick(v: View, ctr: nat, script: nat -> Decision, ps: seq<nat>, a: View, qs: seq<nat>, b: View)
    requires Ticked(v, ctr, ps, script, a) && Ticked(v, ctr, qs, script, b)
    ensures ps == qs && a == b
  {
    hide Play, Upcoming, InTurn;
    NotLonger(v, ctr, ps, qs, script, a);
    NotLonger(v, ctr, qs, ps, script, b);
    SameOrder(v.(born := {}), ctr, ps, qs, script, |ps|);
    assert ps[..|ps|] == ps && qs[..|qs|] == qs;
  }

  class Tcp {
    const next: array<int>
    const stamp: array<int>
    const status: array<Status>
    /** tcp_active_pcbs, tcp_timer_ctr and tcp_active_pcbs_changed. */
    var head: int
    var ctr: nat
    var changed: bool
    ghost var active: seq<nat>
    /** The connections allocated since the last tick. */
    ghost var born: set<nat>

    ghost predicate Valid()
      reads this, next, stamp, status
    {
      && next != stamp && next.Length == stamp.Length == status.Length && ctr < 256
      && Linked(next[..], head, active)
      && (forall i :: 0 <= i < |active| ==> active[i] < status.Length)
      && forall p :: 0 <= p < status.Length ==> (p in active <==> status[p] == Active)
    }

    /** The connections the timer has not stamped yet. */
    ghost function Unstamped(): set<nat>
      reads this, stamp, status
    {
      set p: nat | p < stamp.Length && p < status.Length && status[p] != Free && stamp[p] != ctr
    }

    ghost function Stamped(): set<nat>
      reads this, stamp, status
    {
      set p: nat | p < stamp.Length && p < status.Length && status[p] != Free && stamp[p] == ctr
    }

    /** The walk is at number i of the list, or at its end, and prev is the connection in front of it. */
    ghost predicate IsAt(prev: int, pcb: int, i: nat)
      reads this
    {
      i <= |active| && pcb == At(active, i) && prev == At(active, i - 1)
    }

    ghost predicate StampedUpTo(i: nat)
      reads this, stamp, status
    {
      i <= |active| && forall j :: 0 <= j < i ==> active[j] !in Unstamped()
    }

    ghost function Now(): View
      reads this, stamp, status
    {
      View(status[..], stamp[..], active, changed, born)
    }

    constructor (n: nat)
      ensures Valid() && fresh(next) && fresh(stamp) && fresh(status) && status.Length == n && active == [] && ctr == 0
      ensures (forall p :: 0 <= p < n ==> status[p] == Free) && born == {} && !changed
    {
      next := new int[n];
      stamp := new int[n];
      status := new Status[n](_ => Free);
      head, ctr, changed, active, born := NULL, 0, false, [], {};
    }

    /** The search of TCP_RMV: the connection in front of p. */
    method FindBefore(p: nat, ghost k: nat) returns (tmp: int)
      requires Linked(next[..], head, active) && 0 < k < |active| && active[k] == p
      ensures tmp == active[k - 1]
    {
      hide Linked;
      ghost var i := 0;
      tmp := head;
      LinkedAt(next[..], head, active, 0);
      LinkedAt(next[..], head, active, k);
      while tmp != NULL
        invariant i < k && tmp == active[i]
        decreases k - i
      {
        LinkedAt(next[..], head, active, i);
        LinkedAt(next[..], head, active, i + 1);
        if next[tmp] == p {
          break;
        }
        tmp := next[tmp];
        i := i + 1;
      }
    }

    /** Take connection p, number k of the list, out of the list behind prev. */
    method Unlink(prev: int, p: nat, ghost k: nat)
      requires Linked(next[..], head, active) && k < |active| && active[k] == p && prev == At(active, k - 1)
      modifies this`head, this`active, next
      ensures Linked(next[..], head, active) && active == Without(old(active), k)
      ensures next[p] == old(next[p]) == At(old(active), k + 1) && p !in active
      ensures forall q :: q in active <==> q in old(active) && q != p
    {
      hide Linked, Without;
      ghost var was := next[..];
      LinkedAt(was, head, active, k);
      Distinct(was, head, active);
      WithoutMembers(active, k);
      if prev != NULL {
        LinkedAt(was, head, active, k - 1);
        UnlinkLater(was, head, active, k);
        next[prev] := next[p];
        assert next[..] == was[active[k - 1] := was[p]];
      } else {
        UnlinkFirst(was, head, active);
        head := next[p];
      }
      active := Without(active, k);
    }

    /** TCP_RMV_ACTIVE */
    method RemoveActive(p: nat)
      requires Valid() && p < status.Length && status[p] == Active
      modifies this`head, this`changed, this`active, next, status
      ensures Valid() && changed
      ensures status[..] == old(status[..])[p := Idle] && active == Removed(old(active), p)
    {
      hide Linked, Without;
      ghost var k: nat :| k < |active| && active[k] == p;
      LinkedAt(next[..], head, active, k);
      var prev := NULL;
      if head != p {
        FirstIsHead(next[..], head, active);
        prev := FindBefore(p, k);
      }
      Distinct(next[..], head, active);
      WithoutIs(active, k);
      Unlink(prev, p, k);
      LinkOutside(next[..], head, active, p, NULL);
      next[p] := NULL;
      status[p] := Idle;
      changed := true;
    }

    /** A callback changes the lists as it likes, but stamps only what it allocates, and owns up to its changes. */
    twostate predicate Behaved()
      reads this, next, stamp, status
    {
      && Valid() && ctr == old(ctr) && old(born) <= born
      && Unstamped() <= old(Unstamped()) && Stamped() <= old(Stamped()) + born
      && (changed || (active == old(active) && changed == old(changed)))
    }

    method Act(a: Action)
      requires Valid()
      modifies this`head, this`changed, this`active, this`born, next, stamp, status
      ensures Behaved() && Now() == ActOn(old(Now()), ctr, a)
    {
      hide Linked, Removed;
      match a
      case Remove(p) =>
        if p < status.Length && status[p] == Active {
          RemoveActive(p);
        }
      case Register(p) =>
        if p < status.Length && status[p] == Idle {
          LinkFront(next[..], head, active, p);
          next[p] := head;
          head := p;
          active := [p] + active;
          status[p] := Active;
          changed := true;
        }
      case Alloc(p) =>
        if p < status.Length && status[p] == Free {
          LinkOutside(next[..], head, active, p, NULL);
          next[p] := NULL;
          status[p] := Idle;
          stamp[p] := ctr;
          born := born + {p};
        }
      case Dealloc(p) =>
        if p < status.Length && status[p] == Idle {
          status[p] := Free;
        }
    }

    method Callback(acts: seq<Action>)
      requires Valid()
      modifies this`head, this`changed, this`active, this`born, next, stamp, status
      ensures Behaved() && Now() == ActAll(old(Now()), ctr, acts)
    {
      hide Linked, ActOn;
      for i := 0 to |acts|
        invariant Behaved() && Now() == ActAll(old(Now()), ctr, acts[..i])
      {
        assert acts[..i + 1][..i] == acts[..i];
        Act(acts[i]);
      }
      assert acts[..|acts|] == acts;
    }

    /** Unlink and free the connection; the one behind it moves up. */
    method RemoveFromList(before: int, p: nat, ghost k: nat) returns (pcb: int)
      requires Valid() && k < |active| && p == active[k] && before == At(active, k - 1) && StampedUpTo(k + 1)
      modifies this`head, this`active, next, status
      ensures Valid() && Unstamped() <= old(Unstamped()) && Stamped() <= old(Stamped())
      ensures Now() == old(Now()).(status := old(Now()).status[p := Free], active := Removed(old(active), p))
      ensures k <= |active| && IsAt(before, pcb, k) && StampedUpTo(k) && pcb == At(old(active), k + 1)
    {
      hide Linked, Removed, Without, At;
      LinkedAt(next[..], head, active, k);
      WithoutAround(active, k);
      Distinct(next[..], head, active);
      WithoutIs(active, k);
      Unlink(before, p, k);
      assert forall i :: 0 <= i < |active| ==> active[i] in active;
      pcb := next[p];
      status[p] := Free;
    }

    /** What the timer does with a connection it has stamped, and where it goes on: from the start if the list has changed. */
    method Handle(before: int, p: nat, ghost k: nat, decision: Decision) returns (prev: int, pcb: int, ghost i: nat)
      requires Valid() && k < |active| && p == active[k] && before == At(active, k - 1) && StampedUpTo(k + 1)
      modifies this`head, this`changed, this`active, this`born, next, stamp, status
      ensures Valid() && ctr == old(ctr) && old(born) <= born
      ensures Unstamped() <= old(Unstamped()) && Stamped() <= old(Stamped()) + born
      ensures i <= |active| && IsAt(prev, pcb, i) && StampedUpTo(i)
      ensures Now() == HandleOn(old(Now()), ctr, p, decision)
      ensures if !decision.Quiet? && changed then prev == NULL && pcb == head && i == 0
              else if decision.Drop? then prev == before && pcb == At(old(active), k + 1) && i == k
              else prev == p && pcb == At(old(active), k + 1) && i == k + 1
    {
      hide Linked, ActAll, Removed;
      LinkedAt(next[..], head, active, k);
      match decision {
        case Drop(acts) =>
          pcb := RemoveFromList(before, p, k);
          prev, i := before, k;
          changed := false;
          Callback(acts);
        case Poll(acts) =>
          prev, pcb, i := p, next[p], k + 1;
          changed := false;
          Callback(acts);
        case Quiet =>
          prev, pcb, i := p, next[p], k + 1;
          return;
      }
      if changed {
        FirstIsHead(next[..], head, active);
        prev, pcb, i := NULL, head, 0;
      }
    }

    method Stamp(p: nat)
      requires Valid() && p in Unstamped()
      modifies stamp
      ensures Valid() && Unstamped() == old(Unstamped()) - {p} && Stamped() == old(Stamped()) + {p}
      ensures Now() == old(Now()).(stamp := old(Now()).stamp[p := ctr])
    {
      hide Linked;
      stamp[p] := ctr;
    }

    lemma ActiveStamped()
      requires Valid() && StampedUpTo(|active|)
      ensures forall p :: p in active ==> p in Stamped()
    {
      hide Linked;
      forall p | p in active
        ensures p in Stamped()
      {
        var j :| 0 <= j < |active| && active[j] == p;
        assert active[j] !in Unstamped();
      }
    }

    /** The connection the walk is at, if it is not at the end. */
    lemma Here(prev: int, pcb: int, i: nat)
      requires Valid() && IsAt(prev, pcb, i)
      ensures i <= |active| && (pcb == NULL <==> i == |active|)
      ensures pcb != NULL ==> 0 <= pcb < stamp.Length == next.Length && IsAt(pcb, next[pcb], i + 1)
      ensures pcb != NULL ==> (pcb in Unstamped() <==> stamp[pcb] != ctr)
      ensures pcb != NULL && StampedUpTo(i) && stamp[pcb] == ctr ==> StampedUpTo(i + 1)
    {
      hide Linked;
      LinkedAt(next[..], head, active, i);
    }

    lemma UpcomingHere(prev: int, pcb: int, i: nat)
      requires Valid() && IsAt(prev, pcb, i) && StampedUpTo(i) && pcb != NULL && pcb in Unstamped()
      ensures Upcoming(Now().active, Now().stamp, ctr) == pcb
    {
      hide Linked, Upcoming;
      assert forall j :: 0 <= j < i ==> active[j] in active;
      UpcomingAt(active, stamp[..], ctr, i);
    }

    lemma NoneUpcoming()
      requires Valid() && StampedUpTo(|active|)
      ensures Upcoming(Now().active, Now().stamp, ctr) == NULL
    {
      hide Linked, Upcoming;
      assert forall j :: 0 <= j < |active| ==> active[j] in active;
      UpcomingAt(active, stamp[..], ctr, |active|);
    }

    lemma PlayedNothing(script: nat -> Decision)
      requires Valid()
      ensures Played(Now(), ctr, [], script, Now())
    {
      hide Linked;
      PlayNothing(Now(), ctr, script);
    }

    lemma Start()
      requires Valid()
      ensures IsAt(NULL, head, 0) && StampedUpTo(0)
    {
      hide Linked;
      LinkedAt(next[..], head, active, 0);
    }

    /** Stamp the connection the walk is at, and handle it. */
    method Visit(before: int, p: nat, ghost k: nat, decision: Decision) returns (prev: int, pcb: int, ghost i: nat)
      requires Valid() && k < |active| && IsAt(before, p, k) && StampedUpTo(k)
      requires p in Unstamped()
      modifies this`head, this`changed, this`active, this`born, next, stamp, status
      ensures Valid() && ctr == old(ctr) && old(born) <= born
      ensures Unstamped() <= old(Unstamped()) - {p} && Stamped() <= old(Stamped()) + {p} + born
      ensures i <= |active| && IsAt(prev, pcb, i) && StampedUpTo(i)
      ensures forall q :: q in born ==> q in old(born) || Alloc(q) in Calls(decision)
      ensures Now() == Reach(old(Now()), ctr, p, decision)
    {
      hide Linked, Stamped, Unstamped, ActAll;
      Stamp(p);
      ghost var v := Now();
      prev, pcb, i := Handle(before, p, k, decision);
      BornByHandling(v, ctr, p, decision);
    }

    /** The loop of tcp_slowtmr, with its restarts. */
    method Walk(script: nat -> Decision) returns (ghost handled: seq<nat>, ghost done: set<nat>)
      requires Valid()
      modifies this`head, this`changed, this`active, this`born, next, stamp, status
      ensures Valid() && ctr == old(ctr) && StampedUpTo(|active|)
      ensures Stamped() <= old(Stamped()) + born + done
      ensures done <= old(Unstamped()) && Lists(handled, done)
      ensures handled == [] ==> Now() == old(Now())
      ensures old(active) == [] ==> handled == []
      ensures BornIn(old(born), born, script, |handled|)
      ensures Played(old(Now()), ctr, handled, script, Now())
    {
      hide Valid, Unstamped, Stamped, StampedUpTo, Lists, IsAt, BornIn, Now, At, Played, Reach, Upcoming;
      ListsNothing();
      handled, done := [], {};
      var prev, pcb, step := NULL, head, 0;
      ghost var i: nat := 0;
      Start();
      Here(NULL, head, 0);
      BornAtFirst(born, script);
      PlayedNothing(script);
      while pcb != NULL
        invariant Valid() && ctr == old(ctr)
        invariant i <= |active| && IsAt(prev, pcb, i) && StampedUpTo(i)
        invariant Unstamped() <= old(Unstamped()) - done && Stamped() <= old(Stamped()) + born + done
        invariant done <= old(Unstamped()) && Lists(handled, done) && |handled| == step
        invariant handled == [] ==> Now() == old(Now())
        invariant old(active) == [] ==> handled == [] && pcb == NULL
        invariant BornIn(old(born), born, script, step)
        invariant Played(old(Now()), ctr, handled, script, Now())
        decreases |Unstamped()|, |active| - i
      {
        Here(prev, pcb, i);
        if stamp[pcb] == ctr {
          prev, pcb := pcb, next[pcb];
          i := i + 1;
        } else {
          ghost var before, bornBefore, p: nat, v := Unstamped(), born, pcb, Now();
          UpcomingHere(prev, pcb, i);
          prev, pcb, i := Visit(prev, pcb, i, script(step));
          BornMore(old(born), bornBefore, born, script, step);
          PlayMore(old(Now()), ctr, handled, script, v, p);
          step := step + 1;
          SubsetSize(Unstamped(), before - {p});
          ListsOneMore(handled, done, p);
          handled, done := handled + [p], done + {p};
        }
      }
      Here(prev, pcb, i);
    }

    /**
     * tcp_slowtmr, as far as the active list goes. script says what happens to the connections in the
     * order in which they are handled; it may be anything, so the walk ends whatever the callbacks do.
     * No connection is handled twice. In the end every active one was handled, or is new, or had, by
     * the wrap-around of the 8-bit counter, the number of this tick before.
     */
    method SlowTimer(script: nat -> Decision) returns (ghost handled: seq<nat>)
      requires Valid()
      modifies this, next, stamp, status
      ensures Valid() && ctr == (old(ctr) + 1) % 256
      ensures forall i, j :: 0 <= i < j < |handled| ==> handled[i] != handled[j]
      ensures forall p :: p in handled ==> p < status.Length && old(status[p]) != Free && old(stamp[p]) != ctr
      ensures forall p :: p in active ==> p < stamp.Length && stamp[p] == ctr
      ensures forall p :: p in active && p !in born ==> (p in handled <==> old(stamp[p]) != ctr)
      ensures forall p :: p in born ==> Allocated(script, |handled|, p)
      ensures Ticked(old(Now()), ctr, handled, script, Now())
      ensures handled == [] ==> Now() == old(Now()).(born := {})
      ensures old(active) == [] ==> handled == []
    {
      hide Linked, Upcoming, Played;
      ctr := (ctr + 1) % 256;
      born := {};
      ghost var done;
      handled, done := Walk(script);
      ActiveStamped();
      NoneUpcoming();
    }

    /** What tcp_fasttmr does with a connection it has stamped, and where it goes on. */
    method HandleFast(p: nat, ghost k: nat, refused: Option<seq<Action>>) returns (pcb: int, ghost prev: int, ghost i: nat)
      requires Valid() && k < |active| && p == active[k] && StampedUpTo(k + 1)
      modifies this`head, this`changed, this`active, this`born, next, stamp, status
      ensures Valid() && ctr == old(ctr) && old(born) <= born
      ensures Unstamped() <= old(Unstamped()) && Stamped() <= old(Stamped()) + born
      ensures i <= |active| && IsAt(prev, pcb, i) && StampedUpTo(i)
      ensures Now() == HandleOn(old(Now()), ctr, p, Refused(refused))
      ensures if refused.Some? && changed then prev == NULL && pcb == head && i == 0
              else prev == p && pcb == At(old(active), k + 1) && i == k + 1
    {
      hide Linked, ActAll, Removed;
      LinkedAt(next[..], head, active, k);
      pcb, prev, i := next[p], p, k + 1;
      if refused.Some? {
        changed := false;
        Callback(refused.value);
        if changed {
          FirstIsHead(next[..], head, active);
          pcb, prev, i := head, NULL, 0;
        }
      }
    }

    /** The loop of tcp_fasttmr, with its restarts. */
    method WalkFast(script: nat -> Option<seq<Action>>) returns (ghost handled: seq<nat>, ghost done: set<nat>)
      requires Valid()
      modifies this`head, this`changed, this`active, this`born, next, stamp, status
      ensures Valid() && ctr == old(ctr) && StampedUpTo(|active|)
      ensures Stamped() <= old(Stamped()) + born + done
      ensures done <= old(Unstamped()) && Lists(handled, done)
      ensures handled == [] ==> Now() == old(Now())
      ensures old(active) == [] ==> handled == []
      ensures BornIn(old(born), born, Refusals(script), |handled|)
      ensures Played(old(Now()), ctr, handled, Refusals(script), Now())
    {
      hide Valid, Unstamped, Stamped, StampedUpTo, Lists, IsAt, BornIn, Now, At, Played, Reach, Upcoming;
      ListsNothing();
      handled, done := [], {};
      var pcb, step := head, 0;
      ghost var prev, i: nat := NULL, 0;
      Start();
      Here(NULL, head, 0);
      BornAtFirst(born, Refusals(script));
      PlayedNothing(Refusals(script));
      while pcb != NULL
        invariant Valid() && ctr == old(ctr)
        invariant i <= |active| && IsAt(prev, pcb, i) && StampedUpTo(i)
        invariant Unstamped() <= old(Unstamped()) - done && Stamped() <= old(Stamped()) + born + done
        invariant done <= old(Unstamped()) && Lists(handled, done) && |handled| == step
        invariant handled == [] ==> Now() == old(Now())
        invariant old(active) == [] ==> handled == [] && pcb == NULL
        invariant BornIn(old(born), born, Refusals(script), step)
        invariant Played(old(Now()), ctr, handled, Refusals(script), Now())
        decreases |Unstamped()|, |active| - i
      {
        Here(prev, pcb, i);
        if stamp[pcb] == ctr {
          prev, i := pcb, i + 1;
          pcb := next[pcb];
        } else {
          ghost var before, bornBefore, p: nat, v := Unstamped(), born, pcb, Now();
          UpcomingHere(prev, pcb, i);
          pcb, prev, i := VisitFast(prev, pcb, i, script(step));
          BornMore(old(born), bornBefore, born, Refusals(script), step);
          PlayMore(old(Now()), ctr, handled, Refusals(script), v, p);
          step := step + 1;
          SubsetSize(Unstamped(), before - {p});
          ListsOneMore(handled, done, p);
          handled, done := handled + [p], done + {p};
        }
      }
      Here(prev, pcb, i);
    }

    method VisitFast(ghost before: int, p: nat, ghost k: nat, refused: Option<seq<Action>>) returns (pcb: int, ghost prev: int, ghost i: nat)
      requires Valid() && k < |active| && IsAt(before, p, k) && StampedUpTo(k)
      requires p in Unstamped()
      modifies this`head, this`changed, this`active, this`born, next, stamp, status
      ensures Valid() && ctr == old(ctr) && old(born) <= born
      ensures Unstamped() <= old(Unstamped()) - {p} && Stamped() <= old(Stamped()) + {p} + born
      ensures i <= |active| && IsAt(prev, pcb, i) && StampedUpTo(i)
      ensures forall q :: q in born ==> q in old(born) || Alloc(q) in Calls(Refused(refused))
      ensures Now() == Reach(old(Now()), ctr, p, Refused(refused))
    {
      hide Linked, Stamped, Unstamped, ActAll;
      Stamp(p);
      ghost var v := Now();
      pcb, prev, i := HandleFast(p, k, refused);
      BornByHandling(v, ctr, p, Refused(refused));
    }

    /** tcp_fasttmr: script says for each connection handled whether it has refused data, and what the callback does then. */
    method FastTimer(script: nat -> Option<seq<Action>>) returns (ghost handled: seq<nat>)
      requires Valid()
      modifies this, next, stamp, status
      ensures Valid() && ctr == (old(ctr) + 1) % 256
      ensures forall i, j :: 0 <= i < j < |handled| ==> handled[i] != handled[j]
      ensures forall p :: p in handled ==> p < status.Length && old(status[p]) != Free && old(stamp[p]) != ctr
      ensures forall p :: p in active ==> p < stamp.Length && stamp[p] == ctr
      ensures forall p :: p in active && p !in born ==> (p in handled <==> old(stamp[p]) != ctr)
      ensures forall p :: p in born ==> Allocated(Refusals(script), |handled|, p)
      ensures Ticked(old(Now()), ctr, handled, Refusals(script), Now())
      ensures handled == [] ==> Now() == old(Now()).(born := {})
      ensures old(active) == [] ==> handled == []
    {
      hide Linked, Upcoming, Played;
      ctr := (ctr + 1) % 256;
      born := {};
      ghost var done;
      handled, done := WalkFast(script);
      ActiveStamped();
      NoneUpcoming();
    }
  }

  function Quietly(n: nat): Decision {
    Quiet
  }

  /** Nothing is upcoming where nothing is active, or where all stamps are those of the tick. */
  lemma QuietTick(v: View, ctr: nat)
    requires |v.status| == |v.stamp| && (v.active == [] || (v.active == [0] && v.stamp == [ctr]))
    ensures Ticked(v, ctr, [], Quietly, v.(born := {}))
  {
    PlayNothing(v.(born := {}), ctr, Quietly);
    if v.active == [0] {
      UpcomingAt(v.active, v.stamp, ctr, 1);
    }
  }

  /**
   * The stamp of a connection that was outside the list for 256 ticks looks like that of the current
   * tick: allocated at tick 0 and registered after tick 255, it is not handled at the next one.
   */
  method SkippedOnce() returns (t: Tcp, ghost start: View, ghost ticks: seq<View>)
    ensures |start.stamp| == 1 && start == View([Free], start.stamp, [], false, {})
    ensures |ticks| == 256 && ticks[0] == ActOn(start, 0, Alloc(0))
    ensures forall k :: 0 <= k < 255 ==> Ticked(ticks[k], k + 1, [], Quietly, ticks[k + 1])
    ensures |ticks[255].status| == |ticks[255].stamp|
    ensures Ticked(ActOn(ticks[255], 255, Register(0)), 0, [], Quietly, t.Now())
    ensures fresh(t) && t.Valid() && t.ctr == 0 && t.active == [0]
  {
    hide Linked, Tcp.Valid, Tcp.Unstamped, Tcp.Stamped, Allocated, Ticked;
    t := new Tcp(1);
    start := t.Now();
    t.Act(Alloc(0));
    ticks := StayIdle(t);
    RegisterLate(t);
  }

  /** A connection whose stamp is that of the next tick is put into the list. */
  method RegisterLate(t: Tcp)
    requires t.Valid() && t.ctr == 255 && t.Now() == View([Idle], [0], [], false, {})
    modifies t, t.next, t.stamp, t.status
    ensures t.Valid() && t.ctr == 0 && t.active == [0]
    ensures Ticked(ActOn(old(t.Now()), 255, Register(0)), 0, [], Quietly, t.Now())
  {
    hide Linked, Tcp.Valid, Tcp.Unstamped, Tcp.Stamped, Allocated, Ticked;
    t.Act(Register(0));
    QuietTick(t.Now(), 0);
    ghost var handled := t.SlowTimer(Quietly);
    FirstIn(handled);
  }

  /** One connection that is in no list stays as it is for 255 ticks. */
  method StayIdle(t: Tcp) returns (ghost run: seq<View>)
    requires t.Valid() && t.ctr == 0 && t.Now().(born := {}) == View([Idle], [0], [], false, {})
    modifies t, t.next, t.stamp, t.status
    ensures t.Valid() && t.ctr == 255 && t.Now() == View([Idle], [0], [], false, {})
    ensures |run| == 256 && run[0] == old(t.Now()) && run[255] == t.Now()
    ensures forall k :: 0 <= k < 255 ==> Ticked(run[k], k + 1, [], Quietly, run[k + 1])
  {
    hide Linked, Tcp.Valid, Tcp.Unstamped, Tcp.Stamped, Allocated, Ticked;
    run := [t.Now()];
    for i := 0 to 255
      invariant t.Valid() && t.ctr == i && |run| == i + 1 && run[0] == old(t.Now()) && run[i] == t.Now()
      invariant t.Now() == View([Idle], [0], [], false, if i == 0 then old(t.Now()).born else {})
      invariant forall k :: 0 <= k < i ==> Ticked(run[k], k + 1, [], Quietly, run[k + 1])
    {
      QuietTick(t.Now(), i + 1);
      ghost var handled := t.SlowTimer(Quietly);
      run := run + [t.Now()];
    }
  }

  /** The list of the elements of a set. */
  ghost predicate Lists(l: seq<nat>, s: set<nat>) {
    && (forall p :: p in l <==> p in s)
    && (forall i, j :: 0 <= i < j < |l| ==> l[i] != l[j])
  }

  lemma FirstIn(l: seq<nat>)
    ensures l == [] || exists p :: p in l
  {
    if l != [] {
      assert l[0] in l;
    }
  }

  lemma ListsNothing()
    ensures Lists([], {})
  {
  }

  lemma ListsOneMore(l: seq<nat>, s: set<nat>, p: nat)
    requires Lists(l, s) && p !in s
    ensures Lists(l + [p], s + {p})
  {
  }

  lemma Distinct(next: seq<int>, head: int, l: seq<nat>)
    requires Linked(next, head, l)
    ensures forall j, k :: 0 <= j < k < |l| ==> l[j] != l[k]
  {
  }

  lemma FirstIsHead(next: seq<int>, head: int, l: seq<nat>)
    requires Linked(next, head, l)
    ensures l != [] ==> head == l[0]
    ensures l == [] ==> head == NULL
  {
  }
}
