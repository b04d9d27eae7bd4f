/** What the router (server-models.cpp) keeps true of its models, children, queue and callers, and why single steps
    keep it. */
module RouterInvariants {
  import opened Scheduler

  /** A child process the monitor watches; exiting between the two locked regions of on_child_exit. */
  datatype Child = Child(name: Name, exiting: bool)

  /** A request inside ensure_model_ready. */
  datatype Pc =
    | Direct            // found a free slot and an empty queue, about to load
    | Waits             // in the waiting loop
    | Claims            // its turn came, about to load
    | Returned(ok: bool) // load returned or threw, the claim is not settled yet

  datatype Caller = Caller(name: Name, queued: bool, pc: Pc, didLoad: bool, sawLoading: bool)

  predicate Holding(c: Caller) {
    c.pc.Claims? || c.pc.Returned?
  }

  // ---- what every step keeps ----

  predicate CapacityOk(m: Mapping, modelsMax: int) {
    modelsMax > 0 ==> |Running(m)| <= modelsMax
  }

  predicate RunsAs(m: Mapping, name: Name, proc: nat) {
    name in m && IsRunning(m[name].status) && m[name].proc == proc
  }

  /** Running models and watched children correspond: no child of an unloaded model can still report. */
  ghost predicate ChildrenOk(m: Mapping, children: map<nat, Child>, nextProc: nat) {
    (forall p :: p in children ==> p < nextProc && RunsAs(m, children[p].name, p)) &&
    (forall n :: n in m && IsRunning(m[n].status) ==> m[n].proc in children && children[m[n].proc].name == n)
  }

  function Waiters(callers: map<nat, Caller>, name: Name): set<nat> {
    set id | id in callers && callers[id].queued && callers[id].name == name
  }

  predicate EntryOk(callers: map<nat, Caller>, w: Waiting) {
    w.waiters == |Waiters(callers, w.name)| > 0
  }

  predicate HoldsFront(queue: seq<Waiting>, c: Caller) {
    c.queued && queue != [] && queue[0].name == c.name && queue[0].loading
  }

  /** One entry per wanted model; only the front entry can be loading. */
  ghost predicate ShapeOk(queue: seq<Waiting>) {
    Distinct(queue) && forall i :: 0 < i < |queue| ==> !queue[i].loading
  }

  /** Every entry counts its waiters, and everyone who waits has an entry. */
  ghost predicate WaitersOk(queue: seq<Waiting>, callers: map<nat, Caller>) {
    (forall i :: 0 <= i < |queue| ==> EntryOk(callers, queue[i])) &&
    (forall id :: id in callers && callers[id].queued ==> Queued(queue, callers[id].name))
  }

  /** At most one caller holds a claim, and it is a claim on the front. */
  ghost predicate ClaimsOk(queue: seq<Waiting>, callers: map<nat, Caller>) {
    (forall id :: id in callers && Holding(callers[id]) ==> HoldsFront(queue, callers[id])) &&
    (forall a, b :: a in callers && b in callers && Holding(callers[a]) && Holding(callers[b]) ==> a == b)
  }

  ghost predicate QueueOk(queue: seq<Waiting>, callers: map<nat, Caller>) {
    ShapeOk(queue) && WaitersOk(queue, callers) && ClaimsOk(queue, callers)
  }

  function OpenProxies(proxies: map<nat, Name>, name: Name): set<nat> {
    set p | p in proxies && proxies[p] == name
  }

  /** No model counts more requests than there are. */
  ghost predicate CountsOk(m: Mapping, proxies: map<nat, Name>) {
    forall n :: n in m ==> m[n].reqCount <= |OpenProxies(proxies, n)|
  }

  const DEFAULT := Instance(Unloaded, 0, 0, 0, 0)

  /** operator[] gives a model unknown to the map an empty entry. */
  function WithEntry(m: Mapping, name: Name): (r: Mapping)
    ensures name in r && (name in m ==> r == m) && (name !in m ==> r[name] == DEFAULT)
  {
    if name in m then m else m[name := DEFAULT]
  }

  lemma EntryDoesNotRun(m: Mapping, name: Name)
    ensures Running(WithEntry(m, name)) == Running(m)
  {
  }

  /** An unloaded model has no watched child that could still report for it. */
  lemma UnloadedIsSilent(m: Mapping, children: map<nat, Child>, nextProc: nat, p: nat)
    requires ChildrenOk(m, children, nextProc) && p in children
    ensures children[p].name in m && m[children[p].name].status != Unloaded
  {
  }

  /** Whoever holds a claim is first in line: everyone who was ahead has left. */
  lemma ClaimedInTurn(queue: seq<Waiting>, callers: map<nat, Caller>, id: nat, i: nat)
    requires QueueOk(queue, callers) && id in callers && Holding(callers[id])
    requires i < |queue| && (queue[i].name == callers[id].name || queue[i].loading)
    ensures i == 0 && queue[0].name == callers[id].name && queue[0].loading
  {
  }

  // ---- steps on the maps ----

  lemma SpawnKeeps(m: Mapping, children: map<nat, Child>, nextProc: nat, name: Name, inst: Instance)
    requires ChildrenOk(m, children, nextProc) && name in m && m[name].status == Unloaded
    requires IsRunning(inst.status) && inst.proc == nextProc
    ensures ChildrenOk(m[name := inst], children[nextProc := Child(name, false)], nextProc + 1)
    ensures |Running(m[name := inst])| == |Running(m)| + 1
  {
    assert Running(m[name := inst]) == Running(m) + {name};
  }

  /** The watched child of a model that is up keeps it so. */
  lemma ReportKeeps(m: Mapping, children: map<nat, Child>, nextProc: nat, p: nat, s: Status)
    requires ChildrenOk(m, children, nextProc) && p in children && IsRunning(s)
    ensures RunsAs(m, children[p].name, p)
    ensures var n := children[p].name;
      var m' := m[n := m[n].(status := s, exitCode := 0)];
      ChildrenOk(m', children, nextProc) && Running(m') == Running(m)
  {
  }

  lemma ExitKeeps(m: Mapping, children: map<nat, Child>, nextProc: nat, p: nat, code: int)
    requires ChildrenOk(m, children, nextProc) && p in children
    ensures RunsAs(m, children[p].name, p)
    ensures var n := children[p].name;
      var m' := m[n := m[n].(status := Unloaded, exitCode := code)];
      ChildrenOk(m', children - {p}, nextProc) && Running(m') == Running(m) - {n}
  {
  }

  /** An entry that is not running comes, changes or goes. */
  lemma IdleKeeps(m: Mapping, m': Mapping, children: map<nat, Child>, nextProc: nat, name: Name)
    requires ChildrenOk(m, children, nextProc) && (name in m ==> m[name].status == Unloaded)
    requires m' == m[name := DEFAULT] || m' == m - {name}
    ensures ChildrenOk(m', children, nextProc) && Running(m') == Running(m)
  {
  }

  lemma SameRunning(m: Mapping, m': Mapping, children: map<nat, Child>, nextProc: nat)
    requires ChildrenOk(m, children, nextProc) && m'.Keys == m.Keys
    requires forall n :: n in m ==> m'[n].status == m[n].status && m'[n].proc == m[n].proc
    ensures ChildrenOk(m', children, nextProc) && Running(m') == Running(m)
  {
  }

  lemma WithEntryKeeps(m: Mapping, children: map<nat, Child>, nextProc: nat, name: Name)
    requires ChildrenOk(m, children, nextProc)
    ensures ChildrenOk(WithEntry(m, name), children, nextProc) && Running(WithEntry(m, name)) == Running(m)
  {
  }

  // ---- steps on the queue ----

  lemma JoinKeeps(queue: seq<Waiting>, callers: map<nat, Caller>, id: nat, c: Caller)
    requires QueueOk(queue, callers) && id !in callers && c.queued && !Holding(c)
    ensures QueueOk(Joined(queue, c.name), callers[id := c])
  {
    JoinWaiters(queue, callers, id, c);
    JoinShape(queue, c.name);
  }

  lemma JoinShape(queue: seq<Waiting>, name: Name)
    requires ShapeOk(queue)
    ensures ShapeOk(Joined(queue, name))
    ensures queue != [] ==> Joined(queue, name)[0] == queue[0].(waiters := Joined(queue, name)[0].waiters)
  {
  }

  lemma JoinWaiters(queue: seq<Waiting>, callers: map<nat, Caller>, id: nat, c: Caller)
    requires Distinct(queue) && WaitersOk(queue, callers) && id !in callers && c.queued
    ensures WaitersOk(Joined(queue, c.name), callers[id := c])
  {
    var q', cs := Joined(queue, c.name), callers[id := c];
    assert Waiters(cs, c.name) == Waiters(callers, c.name) + {id};
    forall i | 0 <= i < |q'| ensures EntryOk(cs, q'[i]) {
      if q'[i].name != c.name {
        assert EntryOk(callers, queue[i]);
        assert Waiters(cs, q'[i].name) == Waiters(callers, q'[i].name);
      } else if i < |queue| {
        assert EntryOk(callers, queue[i]);
      } else {
        NobodyWaits(queue, callers, c.name);
      }
    }
    JoinedQueued(queue, c.name);
  }

  lemma NobodyWaits(queue: seq<Waiting>, callers: map<nat, Caller>, name: Name)
    requires WaitersOk(queue, callers) && !Queued(queue, name)
    ensures Waiters(callers, name) == {}
  {
  }

  lemma JoinedQueued(queue: seq<Waiting>, name: Name)
    ensures forall n :: Queued(Joined(queue, name), n) <==> Queued(queue, n) || n == name
  {
    var q' := Joined(queue, name);
    assert forall i :: 0 <= i < |queue| ==> q'[i].name == queue[i].name;
    assert q'[if IndexOf(queue, name) >= 0 then IndexOf(queue, name) else |queue|].name == name;
    forall n | Queued(queue, n) ensures Queued(q', n) {
      var i :| 0 <= i < |queue| && queue[i].name == n;
      assert q'[i].name == n;
    }
  }

  lemma LeaveKeeps(queue: seq<Waiting>, callers: map<nat, Caller>, id: nat)
    requires QueueOk(queue, callers) && id in callers && callers[id].queued && !Holding(callers[id])
    ensures QueueOk(Left(queue, callers[id].name), callers - {id})
  {
    var name := callers[id].name;
    LeaveWaiters(queue, callers, id);
    LeaveShape(queue, name);
    forall j | j in callers - {id} && Holding(callers[j]) ensures HoldsFront(Left(queue, name), callers[j]) {
      LeaveFront(queue, callers, id, j);
    }
  }

  lemma LeaveShape(queue: seq<Waiting>, name: Name)
    requires ShapeOk(queue)
    ensures ShapeOk(Left(queue, name))
  {
  }

  /** A claim on the front survives another caller's leaving. */
  lemma LeaveFront(queue: seq<Waiting>, callers: map<nat, Caller>, id: nat, j: nat)
    requires QueueOk(queue, callers) && id in callers && callers[id].queued && j in callers && j != id
    requires Holding(callers[j])
    ensures HoldsFront(Left(queue, callers[id].name), callers[j])
  {
    assert HoldsFront(queue, callers[j]) && EntryOk(callers, queue[0]);
    if callers[id].name == callers[j].name {
      assert {id, j} <= Waiters(callers, callers[j].name);
      TwoWait(Waiters(callers, callers[j].name), id, j);
    }
  }

  lemma TwoWait(s: set<nat>, a: nat, b: nat)
    requires a in s && b in s && a != b
    ensures |s| >= 2
  {
    assert |s - {a}| >= 1 by { assert b in s - {a}; }
  }

  lemma LeaveWaiters(queue: seq<Waiting>, callers: map<nat, Caller>, id: nat)
    requires Distinct(queue) && WaitersOk(queue, callers) && id in callers && callers[id].queued
    ensures WaitersOk(Left(queue, callers[id].name), callers - {id})
  {
    var name := callers[id].name;
    var cs := callers - {id};
    var q', at := Left(queue, name), IndexOf(queue, name);
    assert Queued(queue, name);
    assert EntryOk(callers, queue[at]);
    assert Waiters(callers, name) == Waiters(cs, name) + {id};
    forall n: Name | n != name ensures Waiters(cs, n) == Waiters(callers, n) {
    }
    forall i | 0 <= i < |q'| ensures EntryOk(cs, q'[i]) {
      var i' := if |q'| < |queue| && i >= at then i + 1 else i;
      assert EntryOk(callers, queue[i']) && q'[i].name == queue[i'].name;
    }
    forall j | j in cs && cs[j].queued ensures Queued(q', cs[j].name) {
      assert j in Waiters(cs, cs[j].name);
      LeftQueued(queue, name, cs[j].name);
    }
  }

  lemma LeftQueued(queue: seq<Waiting>, name: Name, n: Name)
    requires Queued(queue, n) && (n == name ==> queue[IndexOf(queue, name)].waiters > 1)
    ensures Queued(Left(queue, name), n)
  {
    var q', at := Left(queue, name), IndexOf(queue, name);
    var i :| 0 <= i < |queue| && queue[i].name == n;
    if at < 0 || |q'| == |queue| {
      assert q'[i].name == n;
    } else {
      assert queue[at].waiters <= 1 && i != at;
      assert q'[if i > at then i - 1 else i].name == n;
    }
  }

  /** A caller outside the queue comes, changes or goes. */
  lemma OutsiderKeeps(queue: seq<Waiting>, callers: map<nat, Caller>, id: nat, c: Caller)
    requires QueueOk(queue, callers) && (id in callers ==> !callers[id].queued)
    requires !c.queued && !Holding(c)
    ensures QueueOk(queue, callers[id := c]) && QueueOk(queue, callers - {id})
  {
    var a, b := callers[id := c], callers - {id};
    forall n: Name ensures Waiters(a, n) == Waiters(callers, n) == Waiters(b, n) {
    }
    forall i | 0 <= i < |queue| ensures EntryOk(a, queue[i]) && EntryOk(b, queue[i]) {
      assert EntryOk(callers, queue[i]);
    }
  }

  /** A queued caller moves on without leaving. */
  lemma MoveWaiters(queue: seq<Waiting>, queue': seq<Waiting>, callers: map<nat, Caller>, id: nat, c: Caller)
    requires WaitersOk(queue, callers) && id in callers && callers[id].queued
    requires c.queued && c.name == callers[id].name && SameEntries(queue, queue')
    ensures WaitersOk(queue', callers[id := c])
  {
    var cs := callers[id := c];
    forall n: Name ensures Waiters(cs, n) == Waiters(callers, n) {
    }
    forall i | 0 <= i < |queue'| ensures EntryOk(cs, queue'[i]) {
      assert EntryOk(callers, queue[i]);
    }
    forall n | Queued(queue, n) ensures Queued(queue', n) {
      var i :| 0 <= i < |queue| && queue[i].name == n;
      assert queue'[i].name == n;
    }
  }

  /** The two queues differ at most in the mark of the front entry. */
  predicate SameEntries(queue: seq<Waiting>, queue': seq<Waiting>) {
    |queue| == |queue'| && (queue != [] ==> queue'[0] == queue[0].(loading := queue'[0].loading)) &&
    forall i :: 0 < i < |queue| ==> queue'[i] == queue[i]
  }

  /** Taking the claim on the front, when nobody holds it. */
  lemma ClaimKeeps(queue: seq<Waiting>, callers: map<nat, Caller>, id: nat, c: Caller)
    requires QueueOk(queue, callers) && id in callers && callers[id].queued && c.queued && c.name == callers[id].name
    requires queue != [] && queue[0].name == c.name && !queue[0].loading
    ensures QueueOk(queue[0 := queue[0].(loading := true)], callers[id := c])
  {
    MoveWaiters(queue, queue[0 := queue[0].(loading := true)], callers, id, c);
    assert forall j :: j in callers ==> !Holding(callers[j]);
  }

  /** Moving on with the claim, settling it, or without one. */
  lemma MoveKeeps(queue: seq<Waiting>, queue': seq<Waiting>, callers: map<nat, Caller>, id: nat, c: Caller)
    requires QueueOk(queue, callers) && id in callers && callers[id].queued && c.queued && c.name == callers[id].name
    requires Holding(c) ==> Holding(callers[id])
    requires queue' == queue || (Holding(callers[id]) && !Holding(c) && SameEntries(queue, queue'))
    ensures QueueOk(queue', callers[id := c])
  {
    MoveWaiters(queue, queue', callers, id, c);
  }

  // ---- steps on the counters ----

  lemma WithEntryCounts(m: Mapping, proxies: map<nat, Name>, name: Name)
    requires CountsOk(m, proxies)
    ensures CountsOk(WithEntry(m, name), proxies)
  {
  }

  lemma FreshCounts(m: Mapping, proxies: map<nat, Name>, name: Name, inst: Instance)
    requires CountsOk(m, proxies) && inst.reqCount == 0
    ensures CountsOk(m[name := inst], proxies)
  {
  }

  lemma CountsGrow(m: Mapping, proxies: map<nat, Name>, name: Name, id: nat, inst: Instance)
    requires CountsOk(m, proxies) && name in m && id !in proxies && inst.reqCount == m[name].reqCount + 1
    ensures CountsOk(m[name := inst], proxies[id := name])
  {
    var ps := proxies[id := name];
    assert OpenProxies(ps, name) == OpenProxies(proxies, name) + {id};
    forall n: Name | n != name ensures OpenProxies(ps, n) == OpenProxies(proxies, n) {
    }
  }

  lemma CountsShrink(m: Mapping, m': Mapping, proxies: map<nat, Name>, id: nat)
    requires CountsOk(m, proxies) && id in proxies
    requires var name := proxies[id];
      m' == if name in m && m[name].reqCount > 0 then m[name := m[name].(reqCount := m[name].reqCount - 1)] else m
    ensures CountsOk(m', proxies - {id})
  {
    var ps, name := proxies - {id}, proxies[id];
    assert OpenProxies(proxies, name) == OpenProxies(ps, name) + {id};
    forall n: Name | n != name ensures OpenProxies(ps, n) == OpenProxies(proxies, n) {
    }
  }
}
