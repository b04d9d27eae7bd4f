/** Who is loaded when: over any run of the router's steps the queue is served in order. */
module RouterOrder {
  import opened Scheduler
  import opened RouterInvariants
  import opened RouterSteps
  import opened RouterLapses

  /** No step lets a model overtake another in the queue. */
  lemma NobodyOvertakes(s: State, s': State, e: Step, modelsMax: int)
    requires Ok(s, modelsMax) && Enabled(s, e) && Took(s, s', e, modelsMax)
    ensures NoOvertaking(s.queue, s'.queue)
  {
    hide ChildrenOk, CountsOk, CapacityOk, Ticked, Verdict, HasRoom, Joined, Left, NoOvertaking, AfterLoad;
    StaysInOrder(s.queue, s'.queue);
    if e.ArriveStep? {
      JoinedOrder(s.queue, e.name);
    } else if e.LookStep? {
      LeftOrder(s.queue, s.callers[e.id].name);
    } else {
      AfterLoadQueue(s, e, modelsMax);
    }
  }

  lemma AfterLoadQueue(s: State, e: Step, modelsMax: int)
    ensures forall name, now, spawned :: AfterLoad(s, name, now, spawned, modelsMax).queue == s.queue
  {
  }

  lemma StaysInOrder(queue: seq<Waiting>, after: seq<Waiting>)
    requires Distinct(queue)
    ensures |after| == |queue| && (forall i :: 0 <= i < |queue| ==> after[i].name == queue[i].name) ==>
      NoOvertaking(queue, after)
  {
  }

  /** b stands ahead of a. */
  predicate Ahead(queue: seq<Waiting>, b: Name, a: Name) {
    exists i, j :: 0 <= i < j < |queue| && queue[i].name == b && queue[j].name == a
  }

  lemma StillAhead(queue: seq<Waiting>, after: seq<Waiting>, b: Name, a: Name)
    requires Distinct(queue) && NoOvertaking(queue, after) && Ahead(queue, b, a) && Queued(after, a) && Queued(after, b)
    ensures Ahead(after, b, a)
  {
    var p, q :| 0 <= p < q < |queue| && queue[p].name == b && queue[q].name == a;
    var i :| 0 <= i < |after| && after[i].name == a;
    var j :| 0 <= j < |after| && after[j].name == b;
    OnePlace(queue, p, q);
    NotAhead(queue, after, i, j, p);
  }

  lemma OnePlace(queue: seq<Waiting>, p: nat, q: nat)
    requires Distinct(queue) && p <= q < |queue|
    ensures !Queued(queue[..p], queue[q].name)
  {
  }

  lemma NotAhead(queue: seq<Waiting>, after: seq<Waiting>, i: nat, j: nat, p: nat)
    requires NoOvertaking(queue, after) && i < |after| && j < |after| && p < |queue| && after[j].name == queue[p].name
    requires !Queued(queue[..p], after[i].name)
    ensures i >= j
  {
  }

  lemma FrontIsFirst(queue: seq<Waiting>, b: Name)
    requires Distinct(queue) && queue != []
    ensures !Ahead(queue, b, queue[0].name)
  {
  }

  /** As long as both wait, the one ahead stays ahead. */
  lemma {:induction false} KeepsAhead(ss: seq<State>, es: seq<Step>, i: nat, j: nat, b: Name, a: Name, modelsMax: int)
    requires Run(ss, es, modelsMax) && i <= j < |ss| && Ahead(ss[i].queue, b, a)
    requires forall k :: i <= k <= j ==> Queued(ss[k].queue, a) && Queued(ss[k].queue, b)
    ensures Ahead(ss[j].queue, b, a)
  {
    hide Enabled, Took, Queued, Ahead, NoOvertaking, Distinct, WaitersOk, ClaimsOk, ChildrenOk, CountsOk, CapacityOk;
    if i < j {
      KeepsAhead(ss, es, i, j - 1, b, a, modelsMax);
      assert RunStep(ss, es, j - 1, modelsMax);
      RunIsOk(ss, es, j - 1, modelsMax);
      NobodyOvertakes(ss[j - 1], ss[j], es[j - 1], modelsMax);
      StillAhead(ss[j - 1].queue, ss[j].queue, b, a);
    }
  }

  /** A turn is only taken by the front of the queue. */
  lemma TurnIsFirst(s: State, s': State, e: Step, id: nat, modelsMax: int)
    requires Ok(s, modelsMax) && Enabled(s, e) && Took(s, s', e, modelsMax)
    requires id in s.callers && s.callers[id].pc.Waits? && id in s'.callers && s'.callers[id].pc.Claims?
    ensures s.queue != [] && s.queue[0].name == s.callers[id].name
  {
    hide Ok, Ticked, Running, WithEntry, LoadVerdict;
  }

  /** Over any run: a model gets its turn only after every model that once stood ahead of it has left the queue. */
  lemma ServedInOrder(ss: seq<State>, es: seq<Step>, i: nat, j: nat, b: Name, a: Name, id: nat, modelsMax: int)
    requires Run(ss, es, modelsMax) && i <= j < |es| && Ahead(ss[i].queue, b, a)
    requires forall k :: i <= k <= j ==> Queued(ss[k].queue, a)
    requires id in ss[j].callers && ss[j].callers[id].name == a && ss[j].callers[id].pc.Waits?
    requires id in ss[j + 1].callers && ss[j + 1].callers[id].pc.Claims?
    ensures exists k :: i <= k <= j && !Queued(ss[k].queue, b)
  {
    hide Enabled, Took, Queued, WaitersOk, ClaimsOk, ChildrenOk, CountsOk, CapacityOk;
    hide Ahead;
    RunIsOk(ss, es, j, modelsMax);
    assert RunStep(ss, es, j, modelsMax);
    TurnIsFirst(ss[j], ss[j + 1], es[j], id, modelsMax);
    FrontIsFirst(ss[j].queue, b);
    if forall k :: i <= k <= j ==> Queued(ss[k].queue, b) {
      KeepsAhead(ss, es, i, j, b, a, modelsMax);
    }
  }
}
