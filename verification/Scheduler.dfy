/** The router's scheduler (server-models.cpp, server_lru_sched): who may load next, and which idle models are
    stopped to make room.  A model's name is its rank in the map's key order. */
module Scheduler {
  import ServerTokens

  type Name = nat

  datatype Status = Unloaded | Loading | Loaded | Sleeping

  predicate IsRunning(s: Status) {
    s == Loading || s == Loaded || s == Sleeping
  }

  predicate IsReadyOrSleep(s: Status) {
    s == Loaded || s == Sleeping
  }

  /** instance_t: proc identifies the child process, exitCode is that of the last one. */
  datatype Instance = Instance(status: Status, lastUsed: int, reqCount: nat, proc: nat, exitCode: int)

  type Mapping = map<Name, Instance>

  /** entry_t */
  datatype Waiting = Waiting(name: Name, waiters: int, loading: bool)

  function Running(m: Mapping): set<Name> {
    set n | n in m && IsRunning(m[n].status)
  }

  lemma RunningHas(m: Mapping)
    ensures forall n :: n in Running(m) <==> n in m && IsRunning(m[n].status)
  {
  }

  lemma CountOne(all: set<Name>, rest: set<Name>, n: Name)
    requires n in rest
    ensures |all - (rest - {n})| == |all - rest| + (if n in all then 1 else 0)
  {
    assert n in all ==> all - (rest - {n}) == (all - rest) + {n};
    assert n !in all ==> all - (rest - {n}) == all - rest;
  }

  lemma CountEnds(all: set<Name>, keys: set<Name>)
    requires all <= keys
    ensures |all - keys| == 0 && |all - {}| == |all|
  {
  }

  predicate Queued(queue: seq<Waiting>, name: Name) {
    exists i :: 0 <= i < |queue| && queue[i].name == name
  }

  /** May be given up: idle, up, not on its way out, and nobody queues for it. */
  predicate CanGive(m: Mapping, stopping: set<Name>, queue: seq<Waiting>, n: Name) {
    n in m && m[n].reqCount == 0 && IsReadyOrSleep(m[n].status) && n !in stopping && !Queued(queue, n)
  }

  function Eligible(m: Mapping, stopping: set<Name>, queue: seq<Waiting>): set<Name> {
    set n | n in m && CanGive(m, stopping, queue, n)
  }

  /** a was used before b, ties by name. */
  predicate Older(m: Mapping, a: Name, b: Name)
    requires a in m && b in m
  {
    m[a].lastUsed < m[b].lastUsed || (m[a].lastUsed == m[b].lastUsed && a < b)
  }

  /** Queued models that nobody is loading. */
  function Needed(queue: seq<Waiting>): (n: nat) {
    if queue == [] then 0 else Needed(queue[..|queue| - 1]) + (if queue[|queue| - 1].loading then 0 else 1)
  }

  predicate ClaimsSlot(m: Mapping, w: Waiting) {
    w.loading && w.name in m && !IsRunning(m[w.name].status)
  }

  /** Slots claimed by a load that has not spawned its process yet. */
  function Claimed(m: Mapping, queue: seq<Waiting>): (n: nat) {
    if queue == [] then 0
    else Claimed(m, queue[..|queue| - 1]) + (if ClaimsSlot(m, queue[|queue| - 1]) then 1 else 0)
  }

  /** Slots that are free or being freed. */
  function Free(m: Mapping, stopping: set<Name>, queue: seq<Waiting>, modelsMax: int): int {
    modelsMax - |Running(m)| + |Running(m) * stopping| - Claimed(m, queue)
  }

  /** What tick evicts: the oldest of the eligible models, as many as are missing, or all of them. */
  ghost predicate Evicts(m: Mapping, stopping: set<Name>, queue: seq<Waiting>, modelsMax: int, out: set<Name>) {
    OldestFirst(m, out, Eligible(m, stopping, queue)) &&
    (modelsMax <= 0 || queue == [] ==> out == {}) &&
    (modelsMax > 0 && queue != [] ==>
      |out| == Least(Deficit(m, stopping, queue, modelsMax), |Eligible(m, stopping, queue)|))
  }

  /** out holds the oldest of all. */
  ghost predicate OldestFirst(m: Mapping, out: set<Name>, all: set<Name>) {
    out <= all <= m.Keys && forall a, b :: a in out && b in all - out ==> Older(m, a, b)
  }

  lemma NextOldest(m: Mapping, out: set<Name>, all: set<Name>, v: Name)
    requires OldestFirst(m, out, all) && v in all - out
    requires forall n :: n in all - out && n != v ==> Older(m, v, n)
    ensures OldestFirst(m, out + {v}, all) && |out + {v}| == |out| + 1
  {
  }

  /** Enough slots are being freed, or nothing is left to give. */
  lemma EnoughEvicted(m: Mapping, stopping: set<Name>, queue: seq<Waiting>, modelsMax: int, out: set<Name>)
    requires OldestFirst(m, out, Eligible(m, stopping, queue)) && modelsMax > 0 && queue != []
    requires out == {} || Free(m, stopping, queue, modelsMax) + |out| <= Needed(queue)
    requires out == Eligible(m, stopping, queue) || Free(m, stopping, queue, modelsMax) + |out| >= Needed(queue)
    ensures Evicts(m, stopping, queue, modelsMax, out)
  {
    hide Eligible, Free, Older;
    var all := Eligible(m, stopping, queue);
    assert all == out + (all - out);
  }

  function Least(a: nat, b: nat): nat {
    if a < b then a else b
  }

  function Deficit(m: Mapping, stopping: set<Name>, queue: seq<Waiting>, modelsMax: int): nat {
    var d := Needed(queue) - Free(m, stopping, queue, modelsMax);
    if d < 0 then 0 else d
  }

  /** Stopping one more running model makes one more slot that is being freed, and one less model to give. */
  lemma OneMoreStopping(m: Mapping, stopping: set<Name>, queue: seq<Waiting>, modelsMax: int, v: Name)
    requires v in Eligible(m, stopping, queue)
    ensures Free(m, stopping + {v}, queue, modelsMax) == Free(m, stopping, queue, modelsMax) + 1
    ensures Eligible(m, stopping + {v}, queue) == Eligible(m, stopping, queue) - {v}
  {
    assert Running(m) * (stopping + {v}) == Running(m) * stopping + {v};
    assert v !in Running(m) * stopping;
  }

  /** After a tick another one finds nothing to do. */
  lemma SecondTick(m: Mapping, stopping: set<Name>, queue: seq<Waiting>, modelsMax: int, out: set<Name>,
                   again: set<Name>)
    requires Evicts(m, stopping, queue, modelsMax, out) && Evicts(m, stopping + out, queue, modelsMax, again)
    ensures again == {}
  {
    hide Eligible, CanGive, Free, Older;
    ManyMoreStopping(m, stopping, queue, modelsMax, out);
    if modelsMax > 0 && queue != [] {
      var e := Eligible(m, stopping, queue);
      assert e == out + (e - out);
      assert |again| == 0;
    }
  }

  lemma {:induction false} ManyMoreStopping(m: Mapping, stopping: set<Name>, queue: seq<Waiting>, modelsMax: int,
                                            out: set<Name>)
    requires out <= Eligible(m, stopping, queue)
    ensures Free(m, stopping + out, queue, modelsMax) == Free(m, stopping, queue, modelsMax) + |out|
    ensures Eligible(m, stopping + out, queue) == Eligible(m, stopping, queue) - out
    decreases |out|
  {
    hide Eligible, CanGive, Free;
    ServerTokens.SomeKey(out);
    if out == {} {
      assert stopping + out == stopping;
    } else {
      var v: Name :| v in out;
      var rest := out - {v};
      assert out == rest + {v};
      ManyMoreStopping(m, stopping, queue, modelsMax, rest);
      assert stopping + out == stopping + rest + {v};
      OneMoreStopping(m, stopping + rest, queue, modelsMax, v);
    }
  }

  /** What a tick evicts is decided by the state. */
  lemma EvictsIsUnique(m: Mapping, stopping: set<Name>, queue: seq<Waiting>, modelsMax: int, a: set<Name>, b: set<Name>)
    requires Evicts(m, stopping, queue, modelsMax, a) && Evicts(m, stopping, queue, modelsMax, b)
    ensures a == b
  {
    assert |a| == |b|;
    var e := Eligible(m, stopping, queue);
    forall x, y | x in a && y in b ensures x in b || y in a {
      assert y !in a ==> y in e - a;
      assert x !in b ==> x in e - b;
    }
    forall x: Name | x in a ensures x in b {
      OneOutside(a, b, x);
    }
    ServerTokens.SubsetOfSameSize(a, b);
  }

  lemma OneOutside(a: set<Name>, b: set<Name>, x: Name)
    requires |a| == |b| && x in a
    ensures x in b || exists y: Name :: y in b && y !in a
  {
    if forall y: Name :: y in b ==> y in a {
      assert b <= a;
      ServerTokens.SubsetOfSameSize(b, a);
    }
  }

  // ---- what that means for the models ----

  lemma {:induction false} NeededCounts(queue: seq<Waiting>, needed: set<nat>)
    requires forall i: nat :: i in needed <==> i < |queue| && !queue[i].loading
    ensures Needed(queue) == |needed|
  {
    if queue == [] {
      assert needed == {};
    } else {
      var last := |queue| - 1;
      NeededCounts(queue[..last], needed - {last});
      assert last in needed ==> needed == needed - {last} + {last};
      assert last !in needed ==> needed == needed - {last};
    }
  }

  lemma {:induction false} ClaimedCounts(m: Mapping, queue: seq<Waiting>, claimed: set<nat>)
    requires forall i: nat :: i in claimed <==>
      i < |queue| && queue[i].loading && queue[i].name in m && m[queue[i].name].status == Unloaded
    ensures Claimed(m, queue) == |claimed|
  {
    if queue == [] {
      assert claimed == {};
    } else {
      var last := |queue| - 1;
      ClaimedCounts(m, queue[..last], claimed - {last});
      assert last in claimed ==> claimed == claimed - {last} + {last};
      assert last !in claimed ==> claimed == claimed - {last};
    }
  }

  /** Only models that are up, idle, not on their way out and not queued for are evicted, and none of those that stay
      was used before one that goes, nor at the same time with a smaller name. */
  lemma EvictsIdle(m: Mapping, stopping: set<Name>, queue: seq<Waiting>, modelsMax: int, out: set<Name>)
    requires Evicts(m, stopping, queue, modelsMax, out)
    ensures forall n :: n in out ==>
      n in m && m[n].reqCount == 0 && (m[n].status == Loaded || m[n].status == Sleeping) && n !in stopping &&
      forall w :: w in queue ==> w.name != n
    ensures forall a, b | a in out && b in m && b !in out && m[b].reqCount == 0 && b !in stopping &&
      (m[b].status == Loaded || m[b].status == Sleeping) && (forall w :: w in queue ==> w.name != b) ::
        m[a].lastUsed < m[b].lastUsed || (m[a].lastUsed == m[b].lastUsed && a < b)
    ensures modelsMax <= 0 || queue == [] ==> out == {}
  {
    forall a, b | a in out && b in m && b !in out && m[b].reqCount == 0 && b !in stopping &&
      (m[b].status == Loaded || m[b].status == Sleeping) && (forall w :: w in queue ==> w.name != b)
      ensures m[a].lastUsed < m[b].lastUsed || (m[a].lastUsed == m[b].lastUsed && a < b)
    {
      EligibleExactly(m, stopping, queue, b);
      assert b in Eligible(m, stopping, queue) - out && Older(m, a, b);
    }
  }

  /** As many are evicted as there are queued models nobody loads beyond the free slots, the slots being freed and those
      a load has claimed but not filled yet; if they are fewer, no such model is left. */
  lemma EvictsEnough(m: Mapping, stopping: set<Name>, queue: seq<Waiting>, modelsMax: int, out: set<Name>,
                     running: set<Name>, claimed: set<nat>, needed: set<nat>)
    requires Evicts(m, stopping, queue, modelsMax, out) && modelsMax > 0 && queue != []
    requires forall n :: n in running <==> n in m && m[n].status != Unloaded
    requires forall i: nat :: i in claimed <==>
      i < |queue| && queue[i].loading && queue[i].name in m && m[queue[i].name].status == Unloaded
    requires forall i: nat :: i in needed <==> i < |queue| && !queue[i].loading
    ensures var missing := |needed| + |claimed| + |running| - |running * stopping| - modelsMax;
      (missing <= 0 ==> out == {}) && (missing > 0 ==> |out| <= missing) &&
      forall n | |out| < missing && n in m && n !in out && m[n].reqCount == 0 && n !in stopping &&
        (m[n].status == Loaded || m[n].status == Sleeping) :: exists w :: w in queue && w.name == n
  {
    NeededCounts(queue, needed);
    ClaimedCounts(m, queue, claimed);
    assert Running(m) == running;
    AllEvicted(m, stopping, queue, modelsMax, out);
    hide Eligible, Evicts;
    var missing := |needed| + |claimed| + |running| - |running * stopping| - modelsMax;
    forall n | |out| < missing && n in m && n !in out && m[n].reqCount == 0 && n !in stopping &&
      (m[n].status == Loaded || m[n].status == Sleeping)
      ensures exists w :: w in queue && w.name == n
    {
      EligibleExactly(m, stopping, queue, n);
    }
  }

  lemma AllEvicted(m: Mapping, stopping: set<Name>, queue: seq<Waiting>, modelsMax: int, out: set<Name>)
    requires Evicts(m, stopping, queue, modelsMax, out) && modelsMax > 0 && queue != []
    ensures var d := Needed(queue) - Free(m, stopping, queue, modelsMax);
      (d <= 0 ==> out == {}) && (d > 0 ==> |out| <= d) && (|out| < d ==> out == Eligible(m, stopping, queue))
  {
    hide Eligible, Older;
    var all := Eligible(m, stopping, queue);
    assert all == out + (all - out);
  }

  /** The models a tick may stop and a load may name as a victim: up, idle, not on their way out, not queued for. */
  lemma EligibleExactly(m: Mapping, stopping: set<Name>, queue: seq<Waiting>, n: Name)
    ensures n in Eligible(m, stopping, queue) <==>
      n in m && m[n].reqCount == 0 && (m[n].status == Loaded || m[n].status == Sleeping) && n !in stopping &&
      forall w :: w in queue ==> w.name != n
  {
    if Queued(queue, n) {
      var i :| 0 <= i < |queue| && queue[i].name == n;
      assert queue[i] in queue;
    }
  }

  // ---- the queue ----

  function IndexOf(queue: seq<Waiting>, name: Name): (i: int)
    ensures -1 <= i < |queue|
    ensures i >= 0 ==> queue[i].name == name
    ensures i == -1 <==> !Queued(queue, name)
  {
    if queue == [] then -1
    else if queue[|queue| - 1].name == name && !Queued(queue[..|queue| - 1], name) then |queue| - 1
    else IndexOf(queue[..|queue| - 1], name)
  }

  lemma {:induction false} FirstIndex(queue: seq<Waiting>, name: Name, k: nat)
    requires k < |queue| && queue[k].name == name && !Queued(queue[..k], name)
    ensures IndexOf(queue, name) == k
    decreases |queue|
  {
    var front := queue[..|queue| - 1];
    if k < |front| {
      assert front[k].name == name && front[..k] == queue[..k];
      FirstIndex(front, name, k);
    }
  }

  lemma FrontIndex(queue: seq<Waiting>, name: Name)
    requires queue != [] && queue[0].name == name
    ensures IndexOf(queue, name) == 0
  {
  }

  /** join: requests for one model share an entry. */
  function Joined(queue: seq<Waiting>, name: Name): seq<Waiting> {
    var i := IndexOf(queue, name);
    if i >= 0 then queue[i := queue[i].(waiters := queue[i].waiters + 1)] else queue + [Waiting(name, 1, false)]
  }

  /** A request joins the entry of its model, or appends one of its own that nobody loads. */
  lemma JoinedCases(queue: seq<Waiting>, name: Name, k: nat)
    ensures (forall w :: w in queue ==> w.name != name) ==> Joined(queue, name) == queue + [Waiting(name, 1, false)]
    ensures k < |queue| && queue[k].name == name && (forall w :: w in queue[..k] ==> w.name != name) ==>
      Joined(queue, name) == queue[k := Waiting(name, queue[k].waiters + 1, queue[k].loading)]
  {
    if k < |queue| && queue[k].name == name && forall w :: w in queue[..k] ==> w.name != name {
      assert forall i :: 0 <= i < k ==> queue[..k][i] in queue[..k];
      FirstIndex(queue, name, k);
    }
    var i := IndexOf(queue, name);
    assert i >= 0 ==> queue[i] in queue;
  }

  /** A request leaves the entry of its model, and the last one takes it away. */
  lemma LeftCases(queue: seq<Waiting>, name: Name, k: nat)
    ensures (forall w :: w in queue ==> w.name != name) ==> Left(queue, name) == queue
    ensures k < |queue| && queue[k].name == name && (forall w :: w in queue[..k] ==> w.name != name) ==>
      Left(queue, name) == if queue[k].waiters <= 1 then queue[..k] + queue[k + 1..]
        else queue[k := Waiting(name, queue[k].waiters - 1, queue[k].loading)]
  {
    if k < |queue| && queue[k].name == name && forall w :: w in queue[..k] ==> w.name != name {
      assert forall i :: 0 <= i < k ==> queue[..k][i] in queue[..k];
      FirstIndex(queue, name, k);
    }
    var i := IndexOf(queue, name);
    assert i >= 0 ==> queue[i] in queue;
  }

  /** leave: the last waiter takes the entry away. */
  function Left(queue: seq<Waiting>, name: Name): seq<Waiting> {
    var i := IndexOf(queue, name);
    if i < 0 then queue
    else if queue[i].waiters - 1 <= 0 then queue[..i] + queue[i + 1..]
    else queue[i := queue[i].(waiters := queue[i].waiters - 1)]
  }

  ghost predicate Distinct(queue: seq<Waiting>) {
    forall i, j :: 0 <= i < j < |queue| ==> queue[i].name != queue[j].name
  }

  /** Nobody in the queue comes to stand behind someone who was behind him or not there. */
  ghost predicate NoOvertaking(before: seq<Waiting>, after: seq<Waiting>) {
    forall i, j, q :: 0 <= i < j < |after| && 0 <= q < |before| && after[j].name == before[q].name ==>
      Queued(before[..q], after[i].name)
  }

  lemma JoinedOrder(queue: seq<Waiting>, name: Name)
    requires Distinct(queue)
    ensures Distinct(Joined(queue, name)) && NoOvertaking(queue, Joined(queue, name))
  {
    var after := Joined(queue, name);
    forall i, j, q | 0 <= i < j < |after| && 0 <= q < |queue| && after[j].name == queue[q].name
      ensures Queued(queue[..q], after[i].name)
    {
      assert j < |queue| && j == q;
      assert queue[..q][i].name == after[i].name;
    }
  }

  lemma LeftOrder(queue: seq<Waiting>, name: Name)
    requires Distinct(queue)
    ensures Distinct(Left(queue, name)) && NoOvertaking(queue, Left(queue, name))
  {
    var after, at := Left(queue, name), IndexOf(queue, name);
    var gone := |after| < |queue|;
    forall i, j, q | 0 <= i < j < |after| && 0 <= q < |queue| && after[j].name == queue[q].name
      ensures Queued(queue[..q], after[i].name)
    {
      var i', j' := if gone && i >= at then i + 1 else i, if gone && j >= at then j + 1 else j;
      assert after[i].name == queue[i'].name && after[j].name == queue[j'].name && j' == q;
      assert queue[..q][i'].name == after[i].name;
    }
  }
}
