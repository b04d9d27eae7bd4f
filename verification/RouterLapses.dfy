/** What the router's comments take for granted and its steps do not always keep: a stop mark belongs to a live child, a
    model counts the requests open on it, and the entry at the front of the queue is loading only while somebody loads
    it.  For each, the exact steps that break it, from any state that keeps Ok. */
module RouterLapses {
  import opened Scheduler
  import opened RouterInvariants
  import opened RouterSteps

  /** States and steps of a run. */
  ghost predicate Run(ss: seq<State>, es: seq<Step>, modelsMax: int) {
    |ss| == |es| + 1 && Ok(ss[0], modelsMax) && forall i :: 0 <= i < |es| ==> RunStep(ss, es, i, modelsMax)
  }

  ghost predicate RunStep(ss: seq<State>, es: seq<Step>, i: nat, modelsMax: int)
    requires i < |es| && |ss| == |es| + 1
  {
    Enabled(ss[i], es[i]) && Took(ss[i], ss[i + 1], es[i], modelsMax)
  }

  lemma {:induction false} RunIsOk(ss: seq<State>, es: seq<Step>, i: nat, modelsMax: int)
    requires Run(ss, es, modelsMax) && i < |ss|
    ensures Ok(ss[i], modelsMax)
  {
    hide Ok, Enabled, Took;
    if i > 0 {
      RunIsOk(ss, es, i - 1, modelsMax);
      assert RunStep(ss, es, i - 1, modelsMax);
      StepKeepsOk(ss[i - 1], ss[i], es[i - 1], modelsMax);
    }
  }

  // ---- stop marks ----

  /** Between the two locked regions of its child's exit a model still looks up. */
  predicate ChildExits(s: State, n: Name) {
    n in s.mapping && s.mapping[n].proc in s.children && s.children[s.mapping[n].proc].exiting
  }

  /** For a model that looks up: the child watched under its name is exiting. */
  lemma ExitsExactly(s: State, n: Name)
    requires ChildrenOk(s.mapping, s.children, s.nextProc) && n in s.mapping && s.mapping[n].status != Unloaded
    ensures ChildExits(s, n) <==> exists p :: p in s.children && s.children[p].name == n && s.children[p].exiting
  {
    forall p | p in s.children && s.children[p].name == n ensures s.mapping[n].proc == p {
      assert RunsAs(s.mapping, s.children[p].name, p);
    }
    assert s.mapping[n].proc in s.children && s.children[s.mapping[n].proc].name == n;
  }

  predicate MarkOk(s: State, n: Name) {
    n in s.mapping && IsRunning(s.mapping[n].status) && !ChildExits(s, n)
  }

  /** Every model marked as stopping runs, and its child has not exited. */
  ghost predicate MarksOk(s: State) {
    forall n :: n in s.stopping ==> MarkOk(s, n)
  }

  /** A step stops, by request or by eviction, a model whose child is exiting. */
  ghost predicate StopsExiting(s: State, s': State) {
    exists n :: n in s'.stopping - s.stopping && ChildExits(s, n)
  }

  /** Marks stay on live children exactly as long as no step stops a model whose child is exiting. */
  lemma MarksKeptExactly(s: State, s': State, e: Step, modelsMax: int)
    requires Ok(s, modelsMax) && MarksOk(s) && Enabled(s, e) && Took(s, s', e, modelsMax)
    ensures MarksOk(s') <==> !StopsExiting(s, s')
  {
    hide QueueOk, CountsOk, CapacityOk, MarkOk, Took, Enabled;
    forall n | n in s.stopping * s'.stopping ensures MarkOk(s', n) {
      OldMark(s, s', e, modelsMax, n);
    }
    forall n | n in s'.stopping - s.stopping ensures MarkOk(s', n) <==> !ChildExits(s, n) {
      NewMark(s, s', e, modelsMax, n);
    }
  }

  lemma OldMark(s: State, s': State, e: Step, modelsMax: int, n: Name)
    requires ChildrenOk(s.mapping, s.children, s.nextProc) && MarkOk(s, n) && Enabled(s, e) && Took(s, s', e, modelsMax)
    requires n in s'.stopping
    ensures MarkOk(s', n)
  {
    hide Ticked, Verdict, CanClaim, Joined, Left, Running, Saw, Threw, AfterLoad;
    if e.LoadStep? || e.LoadDirectStep? || e.LoadClaimedStep? {
      LoadMark(s, if e.LoadStep? then e.name else s.callers[e.id].name, e.now, e.spawned, modelsMax, n);
    } else {
      QuietMark(s, s', e, modelsMax, n);
    }
  }

  lemma LoadMark(s: State, name: Name, now: int, spawned: bool, modelsMax: int, n: Name)
    requires ChildrenOk(s.mapping, s.children, s.nextProc) && MarkOk(s, n)
    ensures MarkOk(AfterLoad(s, name, now, spawned, modelsMax), n)
  {
  }

  lemma QuietMark(s: State, s': State, e: Step, modelsMax: int, n: Name)
    requires ChildrenOk(s.mapping, s.children, s.nextProc) && MarkOk(s, n) && Enabled(s, e) && Took(s, s', e, modelsMax)
    requires n in s'.stopping && !e.LoadStep? && !e.LoadDirectStep? && !e.LoadClaimedStep?
    ensures MarkOk(s', n)
  {
    hide Ticked, Verdict, CanClaim, Joined, Left, Running, Saw, Threw, AfterLoad;
    if e.ReportStep? || e.ExitFirstStep? || e.ExitSecondStep? {
      assert RunsAs(s.mapping, s.children[e.proc].name, e.proc);
    }
  }

  lemma NewMark(s: State, s': State, e: Step, modelsMax: int, n: Name)
    requires ChildrenOk(s.mapping, s.children, s.nextProc) && Enabled(s, e) && Took(s, s', e, modelsMax)
    requires n in s'.stopping && n !in s.stopping
    ensures MarkOk(s', n) <==> !ChildExits(s, n)
  {
    hide Ticked, Verdict, CanClaim, Joined, Left, HasRoom;
    TickMark(s', s.stopping, modelsMax, n);
    if e.ReportStep? || e.ExitSecondStep? {
      assert RunsAs(s.mapping, s.children[e.proc].name, e.proc);
    }
  }

  /** What a tick stops is up. */
  lemma TickMark(s': State, before: set<Name>, modelsMax: int, n: Name)
    requires n in s'.stopping && n !in before
    ensures Ticked(s', before, modelsMax) ==> n in s'.mapping && IsReadyOrSleep(s'.mapping[n].status)
  {
  }

  /** Unload keeps the marks exactly when the model it stops, if any, has a live child. */
  lemma UnloadMarks(s: State, s': State, name: Name, modelsMax: int)
    requires Ok(s, modelsMax) && MarksOk(s) && Took(s, s', UnloadStep(name), modelsMax)
    ensures MarksOk(s') <==> !(name in Running(s.mapping) && ChildExits(s, name))
  {
    hide QueueOk, CountsOk, CapacityOk, ChildExits;
    MarksKeptExactly(s, s', UnloadStep(name), modelsMax);
    if name in s.stopping { assert MarkOk(s, name); }
  }

  /** A step that ends with a tick keeps them exactly when none of the models it evicts, which the models and the queue
      it leaves determine, has an exiting child. */
  lemma EvictionMarks(s: State, s': State, e: Step, modelsMax: int, out: set<Name>)
    requires Ok(s, modelsMax) && MarksOk(s) && Enabled(s, e) && Took(s, s', e, modelsMax)
    requires Ticked(s', s.stopping, modelsMax) && Evicts(s'.mapping, s.stopping, s'.queue, modelsMax, out)
    ensures MarksOk(s') <==> forall n :: n in out ==> !ChildExits(s, n)
  {
    hide Ok, MarksOk, Took, Enabled, ChildExits;
    MarksKeptExactly(s, s', e, modelsMax);
    TickStops(s', s.stopping, modelsMax, out);
  }

  lemma TickStops(s': State, before: set<Name>, modelsMax: int, out: set<Name>)
    requires Ticked(s', before, modelsMax) && Evicts(s'.mapping, before, s'.queue, modelsMax, out)
    ensures s'.stopping - before == out
  {
    var b :| Evicts(s'.mapping, before, s'.queue, modelsMax, b) && s'.stopping == before + b;
    EvictsIsUnique(s'.mapping, before, s'.queue, modelsMax, out, b);
  }

  /** The other steps never break a mark. */
  lemma QuietMarks(s: State, s': State, e: Step, modelsMax: int)
    requires Ok(s, modelsMax) && MarksOk(s) && Enabled(s, e) && Took(s, s', e, modelsMax)
    requires e.LoadStep? || e.RemoveStep? || e.ExitFirstStep? || e.ProxyBeginStep? ||
      e.LoadDirectStep? || e.LoadClaimedStep?
    ensures MarksOk(s')
  {
    hide Ok, MarksOk, ChildExits;
    MarksKeptExactly(s, s', e, modelsMax);
  }

  /** Over a run that begins with sound marks they stay sound exactly when no step of it stops a model whose child is
      exiting. */
  lemma MarksOverRuns(ss: seq<State>, es: seq<Step>, modelsMax: int)
    requires Run(ss, es, modelsMax) && MarksOk(ss[0])
    ensures (forall i :: 0 <= i < |ss| ==> MarksOk(ss[i])) <==>
            (forall i :: 0 <= i < |es| ==> !StopsExiting(ss[i], ss[i + 1]))
  {
    hide Ok, MarksOk, StopsExiting, Enabled, Took;
    if forall i :: 0 <= i < |es| ==> !StopsExiting(ss[i], ss[i + 1]) {
      forall i | 0 <= i < |ss| ensures MarksOk(ss[i]) { MarksUpTo(ss, es, i, modelsMax); }
    }
    if forall i :: 0 <= i < |ss| ==> MarksOk(ss[i]) {
      forall i | 0 <= i < |es| ensures !StopsExiting(ss[i], ss[i + 1]) {
        assert RunStep(ss, es, i, modelsMax) && MarksOk(ss[i + 1]);
        RunIsOk(ss, es, i, modelsMax);
        MarksKeptExactly(ss[i], ss[i + 1], es[i], modelsMax);
      }
    }
  }

  lemma {:induction false} MarksUpTo(ss: seq<State>, es: seq<Step>, i: nat, modelsMax: int)
    requires Run(ss, es, modelsMax) && MarksOk(ss[0]) && i < |ss|
    requires forall j :: 0 <= j < i ==> !StopsExiting(ss[j], ss[j + 1])
    ensures MarksOk(ss[i])
  {
    hide Ok, MarksOk, StopsExiting, Enabled, Took;
    if i > 0 {
      MarksUpTo(ss, es, i - 1, modelsMax);
      assert RunStep(ss, es, i - 1, modelsMax) && !StopsExiting(ss[i - 1], ss[i - 1 + 1]);
      RunIsOk(ss, es, i - 1, modelsMax);
      MarksKeptExactly(ss[i - 1], ss[i], es[i - 1], modelsMax);
    }
  }

  // ---- open requests ----

  /** Every model counts exactly the requests open on it. */
  ghost predicate CountsExact(s: State) {
    forall n :: n in s.mapping ==> s.mapping[n].reqCount == |OpenProxies(s.proxies, n)|
  }

  /** The step begins an entry of a model with a count of zero. */
  predicate Restarts(s: State, e: Step, name: Name, modelsMax: int)
    requires Enabled(s, e)
  {
    match e
    case LoadStep(n, now, spawned) => n == name && Recounts(s, name, spawned, modelsMax)
    case LoadDirectStep(id, now, spawned) => s.callers[id].name == name && Recounts(s, name, spawned, modelsMax)
    case LoadClaimedStep(id, now, spawned) => s.callers[id].name == name && Recounts(s, name, spawned, modelsMax)
    case ProxyBeginStep(id, n, update, now) => n == name && name !in s.mapping
    case _ => false
  }

  predicate Recounts(s: State, name: Name, spawned: bool, modelsMax: int) {
    name !in s.mapping || LoadVerdict(s.mapping, name, modelsMax, spawned) == Spawned
  }

  /** A step with a count of zero for a model that still has open requests. */
  ghost predicate Forgets(s: State, e: Step, modelsMax: int)
    requires Enabled(s, e)
  {
    exists name :: Restarts(s, e, name, modelsMax) && OpenProxies(s.proxies, name) != {}
  }

  /** Counts stay exact exactly as long as no step starts a model, or its entry, while requests are open on it. */
  lemma CountsKeptExactly(s: State, s': State, e: Step, modelsMax: int)
    requires CountsExact(s) && Enabled(s, e) && Took(s, s', e, modelsMax)
    ensures CountsExact(s') <==> !Forgets(s, e, modelsMax)
  {
    hide Restarts, Took, Enabled;
    forall n | n in s'.mapping
      ensures s'.mapping[n].reqCount == |OpenProxies(s'.proxies, n)| <==>
              !(Restarts(s, e, n, modelsMax) && OpenProxies(s.proxies, n) != {})
    {
      CountKeptExactly(s, s', e, modelsMax, n);
    }
    forall n | Restarts(s, e, n, modelsMax) ensures n in s'.mapping {
      CountRestarts(s, s', e, modelsMax, n);
    }
  }

  lemma CountRestarts(s: State, s': State, e: Step, modelsMax: int, n: Name)
    requires Enabled(s, e) && Took(s, s', e, modelsMax) && Restarts(s, e, n, modelsMax)
    ensures n in s'.mapping
  {
  }

  lemma CountKeptExactly(s: State, s': State, e: Step, modelsMax: int, n: Name)
    requires CountsExact(s) && Enabled(s, e) && Took(s, s', e, modelsMax) && n in s'.mapping
    ensures s'.mapping[n].reqCount == |OpenProxies(s'.proxies, n)| <==>
            !(Restarts(s, e, n, modelsMax) && OpenProxies(s.proxies, n) != {})
  {
    hide Ticked, Verdict, CanClaim, Joined, Left, HasRoom, OpenProxies, LoadVerdict, AfterLoad;
    assert |OpenProxies(s.proxies, n)| == 0 <==> OpenProxies(s.proxies, n) == {};
    if e.ProxyBeginStep? {
      OpensOne(s.proxies, e.id, e.name, n);
    } else if e.ProxyEndStep? {
      ClosesOne(s.proxies, e.id, n);
    } else {
      OtherCounts(s, s', e, modelsMax, n);
    }
  }

  lemma OtherCounts(s: State, s': State, e: Step, modelsMax: int, n: Name)
    requires CountsExact(s) && Enabled(s, e) && Took(s, s', e, modelsMax) && n in s'.mapping
    requires !e.ProxyBeginStep? && !e.ProxyEndStep?
    ensures s'.proxies == s.proxies
    ensures if Restarts(s, e, n, modelsMax) then s'.mapping[n].reqCount == 0
            else n in s.mapping && s'.mapping[n].reqCount == s.mapping[n].reqCount
  {
    hide Ticked, Verdict, CanClaim, Joined, Left, OpenProxies, CountsExact, Running, Saw, Threw, AfterLoad, Recounts;
    if e.LoadStep? || e.LoadDirectStep? || e.LoadClaimedStep? {
      LoadCounts(s, if e.LoadStep? then e.name else s.callers[e.id].name, e.now, e.spawned, modelsMax, n);
    }
  }

  lemma LoadCounts(s: State, name: Name, now: int, spawned: bool, modelsMax: int, n: Name)
    ensures var t := AfterLoad(s, name, now, spawned, modelsMax);
      t.proxies == s.proxies && n in t.mapping ==>
        if n == name && Recounts(s, name, spawned, modelsMax) then t.mapping[n].reqCount == 0
        else n in s.mapping && t.mapping[n].reqCount == s.mapping[n].reqCount
    ensures AfterLoad(s, name, now, spawned, modelsMax).proxies == s.proxies
  {
  }

  lemma OpensOne(proxies: map<nat, Name>, id: nat, name: Name, n: Name)
    requires id !in proxies
    ensures |OpenProxies(proxies[id := name], n)| == |OpenProxies(proxies, n)| + (if n == name then 1 else 0)
  {
    assert OpenProxies(proxies[id := name], n) == OpenProxies(proxies, n) + (if n == name then {id} else {});
  }

  lemma ClosesOne(proxies: map<nat, Name>, id: nat, n: Name)
    requires id in proxies
    ensures |OpenProxies(proxies - {id}, n)| == |OpenProxies(proxies, n)| - (if n == proxies[id] then 1 else 0)
  {
    assert OpenProxies(proxies - {id}, n) == OpenProxies(proxies, n) - (if n == proxies[id] then {id} else {});
  }

  /** Over a run that begins with exact counts. */
  lemma CountsOverRuns(ss: seq<State>, es: seq<Step>, modelsMax: int)
    requires Run(ss, es, modelsMax) && CountsExact(ss[0])
    ensures (forall i :: 0 <= i < |ss| ==> CountsExact(ss[i])) <==>
            (forall i :: 0 <= i < |es| ==> !ForgetsAt(ss, es, i, modelsMax))
  {
    hide Ok, CountsExact, Forgets, Enabled, Took;
    if forall i :: 0 <= i < |es| ==> !ForgetsAt(ss, es, i, modelsMax) {
      forall i | 0 <= i < |ss| ensures CountsExact(ss[i]) { CountsUpTo(ss, es, i, modelsMax); }
    }
    if forall i :: 0 <= i < |ss| ==> CountsExact(ss[i]) {
      forall i | 0 <= i < |es| ensures !ForgetsAt(ss, es, i, modelsMax) {
        assert RunStep(ss, es, i, modelsMax) && CountsExact(ss[i + 1]);
        CountsKeptExactly(ss[i], ss[i + 1], es[i], modelsMax);
      }
    }
  }

  ghost predicate ForgetsAt(ss: seq<State>, es: seq<Step>, i: nat, modelsMax: int)
    requires Run(ss, es, modelsMax) && i < |es|
  {
    assert RunStep(ss, es, i, modelsMax);
    Forgets(ss[i], es[i], modelsMax)
  }

  lemma {:induction false} CountsUpTo(ss: seq<State>, es: seq<Step>, i: nat, modelsMax: int)
    requires Run(ss, es, modelsMax) && CountsExact(ss[0]) && i < |ss|
    requires forall j :: 0 <= j < i ==> !ForgetsAt(ss, es, j, modelsMax)
    ensures CountsExact(ss[i])
  {
    hide Ok, CountsExact, Forgets, Enabled, Took;
    if i > 0 {
      CountsUpTo(ss, es, i - 1, modelsMax);
      assert RunStep(ss, es, i - 1, modelsMax) && !ForgetsAt(ss, es, i - 1, modelsMax);
      CountsKeptExactly(ss[i - 1], ss[i], es[i - 1], modelsMax);
    }
  }

  // ---- the claim at the front ----

  /** A waiter that neither loaded its model nor saw it loading: it only goes on when it is its turn. */
  predicate Blank(c: Caller, name: Name) {
    c.queued && c.name == name && !c.didLoad && !c.sawLoading
  }

  predicate BlankWaits(callers: map<nat, Caller>, name: Name) {
    exists id :: id in callers && Blank(callers[id], name)
  }

  /** The front entry is loading, but no caller holds the claim. */
  predicate Unheld(s: State) {
    s.queue != [] && s.queue[0].loading && NobodyHolds(s.callers)
  }

  predicate NobodyHolds(callers: map<nat, Caller>) {
    forall id :: id in callers ==> !Holding(callers[id])
  }

  /** The front entry is loading, although its model is down, nobody is loading it, and a waiter needs it loaded. */
  predicate Stuck(s: State) {
    Unheld(s) && s.queue[0].name !in Running(s.mapping) && BlankWaits(s.callers, s.queue[0].name)
  }

  /** The step takes the model of a loading front entry away from a waiter, or brings a waiter to it: the model exits
      while a waiter remains; a request for it joins while it is down; or it went down before its loader settled the
      claim. */
  predicate Strands(s: State, e: Step)
    requires Enabled(s, e)
  {
    match e
    case ExitSecondStep(proc, code) =>
      Unheld(s) && s.children[proc].name == s.queue[0].name && BlankWaits(s.callers, s.queue[0].name)
    case ArriveStep(id, name) =>
      Unheld(s) && name == s.queue[0].name && name in s.mapping && s.mapping[name].status == Unloaded
    case FinishClaimStep(id) =>
      var name := s.callers[id].name;
      s.callers[id].pc.ok && name !in Running(s.mapping) && BlankWaits(s.callers, name)
    case _ => false
  }

  /** The step loads the stuck model, or the last waiter that needs it leaves. */
  predicate Frees(s: State, e: Step, modelsMax: int)
    requires Stuck(s) && Enabled(s, e)
  {
    var front := s.queue[0].name;
    match e
    case LoadStep(name, now, spawned) =>
      name == front && LoadVerdict(s.mapping, name, modelsMax, spawned) == Spawned
    case LoadDirectStep(id, now, spawned) =>
      s.callers[id].name == front && LoadVerdict(s.mapping, front, modelsMax, spawned) == Spawned
    case LookStep(id, shouldStop) =>
      Leaving(s, id, shouldStop, modelsMax) && !BlankWaits(s.callers - {id}, front)
    case _ => false
  }

  predicate Leaving(s: State, id: nat, shouldStop: bool, modelsMax: int)
    requires id in s.callers
  {
    var c := s.callers[id];
    var r := Verdict(s.mapping, c, shouldStop, CanClaim(s.queue, s.mapping, modelsMax, c.name));
    r.Finished? || r.Thrown?
  }

  /** Exactly three steps leave a waiter stuck behind a claim that nobody holds, and exactly two set it free. */
  lemma StuckExactly(s: State, s': State, e: Step, modelsMax: int)
    requires Ok(s, modelsMax) && Enabled(s, e) && Took(s, s', e, modelsMax)
    ensures Stuck(s') <==> if Stuck(s) then !Frees(s, e, modelsMax) else Strands(s, e)
  {
    hide ChildrenOk, CountsOk, CapacityOk;
    if e.LookStep? {
      LookStuck(s, s', e.id, e.shouldStop, modelsMax);
    } else if e.ArriveStep? {
      ArriveStuck(s, s', e.id, e.name, modelsMax);
    } else if e.FinishClaimStep? {
      FinishStuck(s, s', e.id, modelsMax);
    } else {
      OtherStuck(s, s', e, modelsMax);
    }
  }

  /** Stuck is what it says: no request of any model gets its turn, and the waiter of a known model keeps waiting. */
  lemma StuckWaits(s: State, modelsMax: int, id: nat)
    requires Stuck(s) && id in s.callers && Blank(s.callers[id], s.queue[0].name) && s.queue[0].name in s.mapping
    ensures forall n :: !CanClaim(s.queue, s.mapping, modelsMax, n)
    ensures Verdict(s.mapping, s.callers[id], false, false) == KeepsWaiting
  {
  }

  ghost predicate StrandsAt(ss: seq<State>, es: seq<Step>, i: nat, modelsMax: int)
    requires Run(ss, es, modelsMax) && i < |es|
  {
    assert RunStep(ss, es, i, modelsMax);
    Strands(ss[i], es[i])
  }

  /** Over a run that begins with no waiter stuck. */
  lemma StuckOverRuns(ss: seq<State>, es: seq<Step>, modelsMax: int)
    requires Run(ss, es, modelsMax) && !Stuck(ss[0])
    ensures (forall i :: 0 <= i < |ss| ==> !Stuck(ss[i])) <==>
            (forall i :: 0 <= i < |es| ==> !StrandsAt(ss, es, i, modelsMax))
  {
    hide Ok, Stuck, Strands, Enabled, Took;
    if forall i :: 0 <= i < |es| ==> !StrandsAt(ss, es, i, modelsMax) {
      forall i | 0 <= i < |ss| ensures !Stuck(ss[i]) { StuckUpTo(ss, es, i, modelsMax); }
    }
    if forall i :: 0 <= i < |ss| ==> !Stuck(ss[i]) {
      forall i | 0 <= i < |es| ensures !StrandsAt(ss, es, i, modelsMax) {
        assert RunStep(ss, es, i, modelsMax) && !Stuck(ss[i]) && !Stuck(ss[i + 1]);
        RunIsOk(ss, es, i, modelsMax);
        StuckExactly(ss[i], ss[i + 1], es[i], modelsMax);
      }
    }
  }

  lemma {:induction false} StuckUpTo(ss: seq<State>, es: seq<Step>, i: nat, modelsMax: int)
    requires Run(ss, es, modelsMax) && !Stuck(ss[0]) && i < |ss|
    requires forall j :: 0 <= j < i ==> !StrandsAt(ss, es, j, modelsMax)
    ensures !Stuck(ss[i])
  {
    hide Ok, Stuck, Strands, Enabled, Took;
    if i > 0 {
      StuckUpTo(ss, es, i - 1, modelsMax);
      assert RunStep(ss, es, i - 1, modelsMax) && !StrandsAt(ss, es, i - 1, modelsMax);
      RunIsOk(ss, es, i - 1, modelsMax);
      StuckExactly(ss[i - 1], ss[i], es[i - 1], modelsMax);
    }
  }

  lemma SameBlank(callers: map<nat, Caller>, callers': map<nat, Caller>, name: Name)
    requires forall id :: id in callers && Blank(callers[id], name) ==> id in callers' && Blank(callers'[id], name)
    requires forall id :: id in callers' && Blank(callers'[id], name) ==> id in callers && Blank(callers[id], name)
    ensures BlankWaits(callers, name) <==> BlankWaits(callers', name)
  {
  }

  /** A caller without a claim comes, goes or moves. */
  lemma SameHeld(callers: map<nat, Caller>, id: nat, c: Caller)
    requires (id in callers ==> !Holding(callers[id])) && !Holding(c)
    ensures NobodyHolds(callers[id := c]) <==> NobodyHolds(callers)
    ensures NobodyHolds(callers - {id}) <==> NobodyHolds(callers)
  {
    var a, b := callers[id := c], callers - {id};
    if NobodyHolds(a) {
      assert forall j :: j in callers && j != id ==> j in a && callers[j] == a[j];
    }
    if NobodyHolds(b) {
      assert forall j :: j in callers && j != id ==> j in b && callers[j] == b[j];
    }
  }

  lemma LookStuck(s: State, s': State, id: nat, shouldStop: bool, modelsMax: int)
    requires Ok(s, modelsMax) && Enabled(s, LookStep(id, shouldStop))
    requires Took(s, s', LookStep(id, shouldStop), modelsMax)
    ensures Stuck(s') <==> Stuck(s) && !Frees(s, LookStep(id, shouldStop), modelsMax)
  {
    hide ChildrenOk, CountsOk, CapacityOk, Ticked, Running, NobodyHolds, BlankWaits, Verdict, Gone, HasRoom;
    if Leaving(s, id, shouldStop, modelsMax) {
      GoneStuck(s, s', id);
    } else if s'.callers[id].pc.Claims? {
      HeldIsNotStuck(s', id);
    } else {
      WaitStuck(s, s', id);
    }
  }

  lemma HeldIsNotStuck(s: State, id: nat)
    requires id in s.callers && Holding(s.callers[id])
    ensures !Stuck(s)
  {
  }

  lemma WaitStuck(s: State, s': State, id: nat)
    requires id in s.callers && s' == s.(callers := Saw(s.callers, id, s.mapping)) && !Holding(s.callers[id])
    ensures Stuck(s') <==> Stuck(s)
  {
    hide Running, NobodyHolds, BlankWaits;
    RunningHas(s.mapping);
    SameHeld(s.callers, id, s'.callers[id]);
    if s.queue != [] && s.queue[0].name !in Running(s.mapping) {
      SameBlank(s.callers, s'.callers, s.queue[0].name);
    }
  }

  /** A waiter without the claim leaves; its entry leaves with it only when it was the last one. */
  lemma GoneStuck(s: State, s': State, id: nat)
    requires QueueOk(s.queue, s.callers) && id in s.callers && s.callers[id].pc.Waits?
    requires s' == Gone(s, id).(stopping := s'.stopping)
    ensures Stuck(s') <==> Stuck(s) && BlankWaits(s.callers - {id}, s.queue[0].name)
  {
    hide Running, NobodyHolds;
    SameHeld(s.callers, id, s.callers[id]);
    if s.queue != [] {
      if s.callers[id].queued {
        LeaveFrontBlank(s.queue, s.callers, id);
      }
      assert BlankWaits(s.callers - {id}, s.queue[0].name) ==> BlankWaits(s.callers, s.queue[0].name);
    }
  }

  lemma LeaveFrontBlank(queue: seq<Waiting>, callers: map<nat, Caller>, id: nat)
    requires QueueOk(queue, callers) && id in callers && callers[id].queued && queue != []
    ensures var after := Left(queue, callers[id].name);
      if after != [] && after[0].name == queue[0].name then after[0].loading == queue[0].loading
      else !BlankWaits(callers - {id}, queue[0].name) && (after != [] ==> !after[0].loading)
  {
    var name := callers[id].name;
    assert EntryOk(callers, queue[0]);
    if queue[0].name == name {
      FrontIndex(queue, name);
      if queue[0].waiters <= 1 {
        OneWaits(callers, id, name);
      }
    }
  }

  lemma OneWaits(callers: map<nat, Caller>, id: nat, name: Name)
    requires id in Waiters(callers, name) && |Waiters(callers, name)| <= 1
    ensures !BlankWaits(callers - {id}, name)
  {
    forall j | j in callers && Blank(callers[j], name) ensures j == id {
      if j != id { TwoWait(Waiters(callers, name), id, j); }
    }
  }

  lemma ArriveStuck(s: State, s': State, id: nat, name: Name, modelsMax: int)
    requires Ok(s, modelsMax) && Enabled(s, ArriveStep(id, name)) && Took(s, s', ArriveStep(id, name), modelsMax)
    ensures Stuck(s') <==> Stuck(s) || Strands(s, ArriveStep(id, name))
  {
    hide Ok, Ticked, Running, NobodyHolds, HasRoom;
    RunningHas(s.mapping);
    SameHeld(s.callers, id, s'.callers[id]);
    ArriveFront(s.queue, name);
    if s.queue != [] {
      var front := s.queue[0].name;
      if front == name && s'.callers[id].queued {
        assert Blank(s'.callers[id], front);
      } else {
        SameBlank(s.callers, s'.callers, front);
      }
    }
  }

  lemma ArriveFront(queue: seq<Waiting>, name: Name)
    ensures var after := Joined(queue, name);
      after != [] && if queue == [] then !after[0].loading
                     else after[0].name == queue[0].name && after[0].loading == queue[0].loading
  {
  }

  lemma FinishStuck(s: State, s': State, id: nat, modelsMax: int)
    requires Ok(s, modelsMax) && Enabled(s, FinishClaimStep(id)) && Took(s, s', FinishClaimStep(id), modelsMax)
    ensures !Stuck(s) && (Stuck(s') <==> Strands(s, FinishClaimStep(id)))
  {
    hide ShapeOk, WaitersOk, ChildrenOk, CountsOk, CapacityOk, Ticked, Running;
    assert HoldsFront(s.queue, s.callers[id]);
    SameBlank(s.callers, s'.callers, s.callers[id].name);
    forall j | j in s'.callers ensures !Holding(s'.callers[j]) {
      assert j != id ==> !Holding(s.callers[j]);
    }
  }

  lemma OtherStuck(s: State, s': State, e: Step, modelsMax: int)
    requires Ok(s, modelsMax) && Enabled(s, e) && Took(s, s', e, modelsMax)
    requires !e.LookStep? && !e.ArriveStep? && !e.FinishClaimStep?
    ensures Stuck(s') <==> if Stuck(s) then !Frees(s, e, modelsMax) else Strands(s, e)
  {
    hide QueueOk, CountsOk, CapacityOk, Ticked, Running, LoadVerdict, NobodyHolds, BlankWaits, AfterLoad, Verdict;
    if e.LoadStep? {
      LoadStuck(s, s', e.name, e.now, e.spawned, modelsMax);
    } else if e.LoadDirectStep? {
      var c := s.callers[e.id];
      var t := AfterLoad(s, c.name, e.now, e.spawned, modelsMax);
      LoadStuck(s, t, c.name, e.now, e.spawned, modelsMax);
      SameHeld(s.callers, e.id, c.(pc := Waits, didLoad := true));
      if s.queue != [] { SameBlank(s.callers, s'.callers, s.queue[0].name); }
    } else if e.LoadClaimedStep? {
      HeldIsNotStuck(s, e.id);
      HeldIsNotStuck(s', e.id);
    } else {
      SameQueueStuck(s, s', e, modelsMax);
    }
  }

  lemma LoadStuck(s: State, t: State, name: Name, now: int, spawned: bool, modelsMax: int)
    requires t == AfterLoad(s, name, now, spawned, modelsMax)
    ensures t.queue == s.queue && t.callers == s.callers
    ensures forall n :: n in Running(t.mapping) <==>
      n in Running(s.mapping) || (n == name && LoadVerdict(s.mapping, name, modelsMax, spawned) == Spawned)
  {
    hide Running;
    RunningHas(s.mapping);
    RunningHas(t.mapping);
  }

  lemma SameQueueStuck(s: State, s': State, e: Step, modelsMax: int)
    requires ChildrenOk(s.mapping, s.children, s.nextProc) && Enabled(s, e) && Took(s, s', e, modelsMax)
    requires !e.LookStep? && !e.ArriveStep? && !e.FinishClaimStep?
    requires !e.LoadStep? && !e.LoadDirectStep? && !e.LoadClaimedStep?
    ensures s'.queue == s.queue && s'.callers == s.callers
    ensures forall n :: n in Running(s'.mapping) <==>
      n in Running(s.mapping) && !(e.ExitSecondStep? && s.children[e.proc].name == n)
    ensures e.ExitSecondStep? ==> s.children[e.proc].name in Running(s.mapping)
  {
    hide Running, Ticked;
    RunningHas(s.mapping);
    RunningHas(s'.mapping);
    if e.ReportStep? || e.ExitSecondStep? {
      assert RunsAs(s.mapping, s.children[e.proc].name, e.proc);
    }
  }
}
