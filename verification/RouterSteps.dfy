/** The router (server-models.cpp) as a transition system: its state, its atomic steps, one per region of
    code that holds the mutex, and what each step does. */
module RouterSteps {
  import opened Scheduler
  import opened RouterInvariants

  /** How load ends: not unloaded any more, over the limit, no port or process, or a new child. */
  datatype LoadResult = NotReady | LimitReached | SpawnFailed | Spawned

  /** How one turn of the waiting loop ends. */
  datatype Turn = Finished | Thrown | TookTurn | KeepsWaiting

  /** It is this model's turn: its entry is first, unclaimed, and a slot is free. */
  predicate CanClaim(queue: seq<Waiting>, m: Mapping, modelsMax: int, name: Name) {
    queue != [] && queue[0].name == name && !queue[0].loading && HasRoom(m, modelsMax)
  }

  predicate HasRoom(m: Mapping, modelsMax: int) {
    modelsMax <= 0 || |Running(m)| < modelsMax
  }

  function LoadVerdict(m: Mapping, name: Name, modelsMax: int, spawned: bool): LoadResult {
    if name in m && m[name].status != Unloaded then NotReady
    else if modelsMax > 0 && |Running(m)| >= modelsMax then LimitReached
    else if !spawned then SpawnFailed
    else Spawned
  }

  /** What a waiting request does next. */
  function Verdict(m: Mapping, c: Caller, shouldStop: bool, canClaim: bool): Turn {
    if c.name !in m || IsReadyOrSleep(m[c.name].status) then Finished
    else
      var down := m[c.name].status == Unloaded;
      if down && (c.didLoad || c.sawLoading) then (if m[c.name].exitCode != 0 then Thrown else Finished)
      else if down && !c.queued then Finished
      else if shouldStop then Thrown
      else if down && canClaim then TookTurn
      else KeepsWaiting
  }

  /** A waiting request remembers whether it ever saw its model loading. */
  function Saw(callers: map<nat, Caller>, id: nat, m: Mapping): map<nat, Caller>
    requires id in callers
  {
    var c := callers[id];
    callers[id := c.(sawLoading := c.sawLoading || (c.name in m && m[c.name].status == Loading))]
  }

  datatype State = State(
    mapping: Mapping,
    stopping: set<Name>,
    queue: seq<Waiting>,
    children: map<nat, Child>,  // watched by the monitor
    nextProc: nat,
    callers: map<nat, Caller>,  // requests inside ensure_model_ready
    proxies: map<nat, Name>)    // proxied requests still open

  /** What every step keeps. */
  ghost predicate Ok(s: State, modelsMax: int) {
    CapacityOk(s.mapping, modelsMax) && ChildrenOk(s.mapping, s.children, s.nextProc) &&
    QueueOk(s.queue, s.callers) && CountsOk(s.mapping, s.proxies)
  }

  /** That is: no more than models_max models are up; a model is up exactly if one watched child carries its name, which
      no other does; each queued entry counts the callers that wait for it, at least one, and only the first is loading;
      and no model counts more requests than are open. */
  lemma OkMeans(s: State, modelsMax: int, running: set<Name>, n: Name)
    requires Ok(s, modelsMax) && forall k :: k in running <==> k in s.mapping && s.mapping[k].status != Unloaded
    ensures modelsMax > 0 ==> |running| <= modelsMax
    ensures n in running <==> exists p :: p in s.children && s.children[p].name == n
    ensures forall p, q :: p in s.children && q in s.children && s.children[p].name == s.children[q].name ==> p == q
    ensures forall i :: 0 <= i < |s.queue| ==>
      s.queue[i].waiters > 0 && (i > 0 ==> !s.queue[i].loading) &&
      s.queue[i].waiters == |set id | id in s.callers && s.callers[id].queued && s.callers[id].name == s.queue[i].name|
    ensures n in s.mapping ==> s.mapping[n].reqCount <= |set p | p in s.proxies && s.proxies[p] == n|
  {
    assert Running(s.mapping) == running;
    if n in running {
      var p := s.mapping[n].proc;
      assert p in s.children && s.children[p].name == n;
    }
    forall p | p in s.children ensures s.children[p].name in running && s.mapping[s.children[p].name].proc == p {
      assert RunsAs(s.mapping, s.children[p].name, p);
    }
    forall i | 0 <= i < |s.queue|
      ensures s.queue[i].waiters > 0 && s.queue[i].waiters ==
        |set id | id in s.callers && s.callers[id].queued && s.callers[id].name == s.queue[i].name|
    {
      assert EntryOk(s.callers, s.queue[i]);
      assert Waiters(s.callers, s.queue[i].name) ==
        set id | id in s.callers && s.callers[id].queued && s.callers[id].name == s.queue[i].name;
    }
    assert OpenProxies(s.proxies, n) == set p | p in s.proxies && s.proxies[p] == n;
  }

  datatype Step =
    | LoadStep(name: Name, now: int, spawned: bool)
    | UnloadStep(name: Name)
    | RemoveStep(name: Name)
    | ReportStep(proc: nat, status: Status)
    | ExitFirstStep(proc: nat)
    | ExitSecondStep(proc: nat, code: int)
    | ProxyBeginStep(id: nat, name: Name, update: bool, now: int)
    | ProxyEndStep(id: nat)
    | ArriveStep(id: nat, name: Name)
    | LoadDirectStep(id: nat, now: int, spawned: bool)
    | LoadClaimedStep(id: nat, now: int, spawned: bool)
    | FinishClaimStep(id: nat)
    | LookStep(id: nat, shouldStop: bool)

  /** When the code is at the beginning of the step. */
  predicate Enabled(s: State, e: Step) {
    match e
    case LoadStep(name, now, spawned) => true
    case UnloadStep(name) => true
    case RemoveStep(name) => name in s.mapping && s.mapping[name].status == Unloaded
    case ReportStep(proc, status) => proc in s.children && !s.children[proc].exiting && IsRunning(status)
    case ExitFirstStep(proc) => proc in s.children && !s.children[proc].exiting
    case ExitSecondStep(proc, code) => proc in s.children && s.children[proc].exiting
    case ProxyBeginStep(id, name, update, now) => id !in s.proxies
    case ProxyEndStep(id) => id in s.proxies
    case ArriveStep(id, name) => id !in s.callers
    case LoadDirectStep(id, now, spawned) => id in s.callers && s.callers[id].pc.Direct? && !s.callers[id].queued
    case LoadClaimedStep(id, now, spawned) => id in s.callers && s.callers[id].pc.Claims? && s.callers[id].queued
    case FinishClaimStep(id) => id in s.callers && s.callers[id].pc.Returned? && s.callers[id].queued
    case LookStep(id, shouldStop) => id in s.callers && s.callers[id].pc.Waits?
  }

  /** A tick at the end of a step that began with these models on their way out. */
  ghost predicate Ticked(s: State, before: set<Name>, modelsMax: int) {
    exists out :: Evicts(s.mapping, before, s.queue, modelsMax, out) && s.stopping == before + out
  }

  /** The state after the locked part of load. */
  function AfterLoad(s: State, name: Name, now: int, spawned: bool, modelsMax: int): State {
    var m := WithEntry(s.mapping, name);
    if LoadVerdict(s.mapping, name, modelsMax, spawned) != Spawned then s.(mapping := m)
    else s.(mapping := m[name := Instance(Loading, now, 0, s.nextProc, m[name].exitCode)],
            children := s.children[s.nextProc := Child(name, false)],
            nextProc := s.nextProc + 1)
  }

  /** load threw. */
  predicate Threw(r: LoadResult) {
    r.LimitReached? || r.SpawnFailed?
  }

  /** When load spawns a child, and when it throws. */
  lemma LoadCases(m: Mapping, name: Name, modelsMax: int, spawned: bool, running: set<Name>)
    requires forall n :: n in running <==> n in m && m[n].status != Unloaded
    ensures LoadVerdict(m, name, modelsMax, spawned) == Spawned <==>
      name !in running && (modelsMax <= 0 || |running| < modelsMax) && spawned
    ensures Threw(LoadVerdict(m, name, modelsMax, spawned)) <==>
      name !in running && ((modelsMax > 0 && |running| >= modelsMax) || !spawned)
  {
    assert Running(m) == running;
  }

  /** A spawned child: the model is loading, used now, with no requests, and watched; its exit code stays. */
  lemma SpawnedState(s: State, name: Name, now: int, spawned: bool, modelsMax: int)
    requires LoadVerdict(s.mapping, name, modelsMax, spawned) == Spawned
    ensures var t := AfterLoad(s, name, now, spawned, modelsMax);
      t.children == s.children[s.nextProc := Child(name, false)] && t.nextProc > s.nextProc && name in t.mapping &&
      (var code := if name in s.mapping then s.mapping[name].exitCode else 0;
       t.mapping[name] == Instance(Loading, now, 0, s.nextProc, code)) &&
      (forall n :: n in s.mapping && n != name ==> n in t.mapping && t.mapping[n] == s.mapping[n]) &&
      t.queue == s.queue && t.stopping == s.stopping && t.callers == s.callers && t.proxies == s.proxies
  {
  }

  /** How a turn of the waiting loop ends. A request is served when its model is up, and gives up its turn when the
      model is gone, or went down without an error after it was seen loading, or went down while the request is not in
      line. */
  lemma VerdictCases(m: Mapping, c: Caller, shouldStop: bool, canClaim: bool)
    ensures var v := Verdict(m, c, shouldStop, canClaim);
      if c.name !in m || m[c.name].status == Loaded || m[c.name].status == Sleeping then v == Finished
      else if m[c.name].status == Loading then v == if shouldStop then Thrown else KeepsWaiting
      else
        var tried := c.didLoad || c.sawLoading;
        (v == Thrown <==> (tried && m[c.name].exitCode != 0) || (!tried && c.queued && shouldStop)) &&
        (v == TookTurn <==> !tried && c.queued && !shouldStop && canClaim) &&
        (v == KeepsWaiting <==> !tried && c.queued && !shouldStop && !canClaim)
  {
  }

  /** A proxied request is counted on its model, and marks it as used now if it is to. */
  lemma ProxyCases(s: State, s': State, id: nat, name: Name, update: bool, now: int, modelsMax: int)
    requires id !in s.proxies && Took(s, s', ProxyBeginStep(id, name, update, now), modelsMax)
    ensures name in s'.mapping && id in s'.proxies && s'.proxies[id] == name
    ensures update ==> s'.mapping[name].lastUsed == now
    ensures name in s.mapping ==>
      s'.mapping[name].reqCount == s.mapping[name].reqCount + 1 && s'.mapping[name].status == s.mapping[name].status &&
      (!update ==> s'.mapping[name].lastUsed == s.mapping[name].lastUsed)
    ensures name !in s.mapping ==> s'.mapping[name].reqCount == 1 && s'.mapping[name].status == Unloaded
    ensures forall n :: n in s.mapping && n != name ==> n in s'.mapping && s'.mapping[n] == s.mapping[n]
  {
  }

  /** A request that ends is uncounted, and the tick runs exactly when it was its model's last. */
  lemma ProxyEndCases(s: State, s': State, id: nat, modelsMax: int)
    requires id in s.proxies && Took(s, s', ProxyEndStep(id), modelsMax)
    ensures var n := s.proxies[id];
      s'.proxies == s.proxies - {id} && s'.queue == s.queue && s'.mapping.Keys == s.mapping.Keys &&
      (n in s.mapping && s.mapping[n].reqCount > 0 ==>
        s'.mapping[n] == s.mapping[n].(reqCount := s.mapping[n].reqCount - 1)) &&
      (n in s.mapping && s.mapping[n].reqCount == 1 ==>
        exists out :: Evicts(s'.mapping, s.stopping, s.queue, modelsMax, out) && s'.stopping == s.stopping + out) &&
      (n !in s.mapping || s.mapping[n].reqCount != 1 ==> s'.stopping == s.stopping) &&
      forall k :: k in s.mapping && (k != n || s.mapping[k].reqCount == 0) ==> s'.mapping[k] == s.mapping[k]
  {
  }

  /** What a child's report and its exit write, and that both tick. */
  lemma ChildCases(s: State, s': State, e: Step, modelsMax: int)
    requires e.ReportStep? || e.ExitSecondStep?
    requires Enabled(s, e) && Took(s, s', e, modelsMax)
    ensures exists out :: Evicts(s'.mapping, s.stopping, s.queue, modelsMax, out) && s'.stopping == s.stopping + out
    ensures s'.queue == s.queue && s'.callers == s.callers && s'.proxies == s.proxies
    ensures var n := s.children[e.proc].name;
      n in s.mapping && s'.mapping.Keys == s.mapping.Keys &&
      s'.mapping[n].lastUsed == s.mapping[n].lastUsed && s'.mapping[n].reqCount == s.mapping[n].reqCount &&
      (e.ReportStep? ==>
        s'.mapping[n].status == e.status && s'.mapping[n].exitCode == 0 && s'.children == s.children) &&
      (e.ExitSecondStep? ==>
        s'.mapping[n].status == Unloaded && s'.mapping[n].exitCode == e.code && e.proc !in s'.children) &&
      forall k :: k in s.mapping && k != n ==> s'.mapping[k] == s.mapping[k]
  {
  }

  /** A request for a model that is not up loads it at once when a slot is free and nobody queues; else it gets in
      line. */
  lemma ArriveCases(s: State, s': State, id: nat, name: Name, modelsMax: int, running: set<Name>)
    requires id !in s.callers && Took(s, s', ArriveStep(id, name), modelsMax)
    requires forall n :: n in running <==> n in s.mapping && s.mapping[n].status != Unloaded
    ensures id in s'.callers && s'.callers[id].name == name && s'.mapping == s.mapping
    ensures var down := name in s.mapping && s.mapping[name].status == Unloaded;
      var free := s.queue == [] && (modelsMax <= 0 || |running| < modelsMax);
      var c := s'.callers[id];
      (c.pc.Direct? <==> down && free) && (c.queued <==> down && !free) && (c.pc.Waits? <==> !c.pc.Direct?) &&
      (!c.queued ==> s'.queue == s.queue && s'.stopping == s.stopping) &&
      (c.queued ==> exists w :: w in s'.queue && w.name == name)
  {
    assert Running(s.mapping) == running;
    if s'.callers[id].queued {
      JoinedHas(s.queue, name);
    }
  }

  lemma JoinedHas(queue: seq<Waiting>, name: Name)
    ensures exists w :: w in Joined(queue, name) && w.name == name
  {
    var i := IndexOf(queue, name);
    var after := Joined(queue, name);
    assert after[if i >= 0 then i else |queue|].name == name;
    assert after[if i >= 0 then i else |queue|] in after;
  }

  /** Whose turn it is. */
  lemma ClaimExactly(queue: seq<Waiting>, m: Mapping, modelsMax: int, name: Name, running: set<Name>)
    requires forall n :: n in running <==> n in m && m[n].status != Unloaded
    ensures CanClaim(queue, m, modelsMax, name) <==>
      queue != [] && queue[0].name == name && !queue[0].loading && (modelsMax <= 0 || |running| < modelsMax)
  {
    assert Running(m) == running;
  }

  /** What the step does; s' is the state after it. */
  ghost predicate Took(s: State, s': State, e: Step, modelsMax: int)
    requires Enabled(s, e)
  {
    match e
    case LoadStep(name, now, spawned) => s' == AfterLoad(s, name, now, spawned, modelsMax)
    case UnloadStep(name) =>
      s' == s.(stopping := if name in Running(s.mapping) then s.stopping + {name} else s.stopping)
    case RemoveStep(name) => s' == s.(mapping := s.mapping - {name})
    case ReportStep(proc, status) =>
      var n, m := s.children[proc].name, s.mapping;
      n in m && s' == s.(mapping := m[n := m[n].(status := status, exitCode := 0)], stopping := s'.stopping) &&
      Ticked(s', s.stopping, modelsMax)
    case ExitFirstStep(proc) =>
      s' == s.(stopping := s.stopping - {s.children[proc].name},
               children := s.children[proc := s.children[proc].(exiting := true)])
    case ExitSecondStep(proc, code) =>
      var n, m := s.children[proc].name, s.mapping;
      n in m && s' == s.(mapping := m[n := m[n].(status := Unloaded, exitCode := code)],
                         children := s.children - {proc}, stopping := s'.stopping) &&
      Ticked(s', s.stopping, modelsMax)
    case ProxyBeginStep(id, name, update, now) =>
      var m := WithEntry(s.mapping, name);
      var used := if update then now else m[name].lastUsed;
      s' == s.(mapping := m[name := m[name].(reqCount := m[name].reqCount + 1, lastUsed := used)],
               proxies := s.proxies[id := name])
    case ProxyEndStep(id) =>
      var n, m := s.proxies[id], s.mapping;
      if n in m && m[n].reqCount > 0 then
        s' == s.(mapping := m[n := m[n].(reqCount := m[n].reqCount - 1)], proxies := s.proxies - {id},
                 stopping := s'.stopping) &&
        (if m[n].reqCount == 1 then Ticked(s', s.stopping, modelsMax) else s'.stopping == s.stopping)
      else s' == s.(proxies := s.proxies - {id})
    case ArriveStep(id, name) =>
      if !(name in s.mapping && s.mapping[name].status == Unloaded) then
        s' == s.(callers := s.callers[id := Caller(name, false, Waits, false, false)])
      else if s.queue == [] && HasRoom(s.mapping, modelsMax) then
        s' == s.(callers := s.callers[id := Caller(name, false, Direct, false, false)])
      else
        s' == s.(queue := Joined(s.queue, name), callers := s.callers[id := Caller(name, true, Waits, false, false)],
                 stopping := s'.stopping) &&
        Ticked(s', s.stopping, modelsMax)
    case LoadDirectStep(id, now, spawned) =>
      var c := s.callers[id];
      s' == AfterLoad(s, c.name, now, spawned, modelsMax)
            .(callers := if Threw(LoadVerdict(s.mapping, c.name, modelsMax, spawned)) then s.callers - {id}
                         else s.callers[id := c.(pc := Waits, didLoad := true)])
    case LoadClaimedStep(id, now, spawned) =>
      var c := s.callers[id];
      var ok := !Threw(LoadVerdict(s.mapping, c.name, modelsMax, spawned));
      s' == AfterLoad(s, c.name, now, spawned, modelsMax)
            .(callers := s.callers[id := c.(pc := Returned(ok), didLoad := c.didLoad || ok)])
    case FinishClaimStep(id) =>
      var c := s.callers[id];
      s.queue != [] && s.queue[0].name == c.name &&
      s' == s.(queue := if c.pc.ok then s.queue else s.queue[0 := s.queue[0].(loading := false)],
               callers := s.callers[id := c.(pc := Waits)], stopping := s'.stopping) &&
      Ticked(s', s.stopping, modelsMax)
    case LookStep(id, shouldStop) =>
      var c := s.callers[id];
      var canClaim := CanClaim(s.queue, s.mapping, modelsMax, c.name);
      match Verdict(s.mapping, c, shouldStop, canClaim)
      case TookTurn =>
        canClaim && s' == s.(queue := s.queue[0 := s.queue[0].(loading := true)],
                            callers := s.callers[id := c.(pc := Claims)])
      case KeepsWaiting => s' == s.(callers := Saw(s.callers, id, s.mapping))
      case Finished => s' == Gone(s, id)
      case Thrown => s' == Gone(s, id).(stopping := s'.stopping) && Ticked(s', s.stopping, modelsMax)
  }

  /** A request that left, and its place in the queue with it. */
  function Gone(s: State, id: nat): State
    requires id in s.callers
  {
    s.(queue := if s.callers[id].queued then Left(s.queue, s.callers[id].name) else s.queue,
       callers := s.callers - {id})
  }

  // ---- every step keeps Ok ----

  lemma StepKeepsOk(s: State, s': State, e: Step, modelsMax: int)
    requires Ok(s, modelsMax) && Enabled(s, e) && Took(s, s', e, modelsMax)
    ensures Ok(s', modelsMax)
  {
    hide QueueOk, ChildrenOk, CountsOk, Ticked, Running, CapacityOk, Verdict, CanClaim, LoadVerdict, AfterLoad;
    match e
    case LoadStep(name, now, spawned) => LoadKeepsOk(s, name, now, spawned, modelsMax);
    case UnloadStep(name) =>
    case RemoveStep(name) => RemoveKeepsOk(s, name, modelsMax);
    case ReportStep(proc, status) => ReportKeepsOk(s, proc, status, modelsMax);
    case ExitFirstStep(proc) => ExitFirstKeepsOk(s, proc);
    case ExitSecondStep(proc, code) => ExitSecondKeepsOk(s, proc, code, modelsMax);
    case ProxyBeginStep(id, name, update, now) => ProxyBeginKeepsOk(s, s', id, name, update, now, modelsMax);
    case ProxyEndStep(id) => ProxyEndKeepsOk(s, s', id, modelsMax);
    case ArriveStep(id, name) => ArriveKeepsOk(s, id, name, modelsMax);
    case LoadDirectStep(id, now, spawned) =>
      LoadKeepsOk(s, s.callers[id].name, now, spawned, modelsMax);
      OutsiderKeeps(s.queue, s.callers, id, s.callers[id].(pc := Waits, didLoad := true));
    case LoadClaimedStep(id, now, spawned) =>
      LoadKeepsOk(s, s.callers[id].name, now, spawned, modelsMax);
      MoveKeeps(s.queue, s.queue, s.callers, id, s'.callers[id]);
    case FinishClaimStep(id) =>
      FrontSame(s.queue, s'.queue);
      MoveKeeps(s.queue, s'.queue, s.callers, id, s'.callers[id]);
    case LookStep(id, shouldStop) => LookKeepsOk(s, s', id, shouldStop, modelsMax);
  }

  lemma FrontSame(queue: seq<Waiting>, queue': seq<Waiting>)
    requires queue' == queue || (queue != [] && queue' == queue[0 := queue[0].(loading := false)])
    ensures SameEntries(queue, queue')
  {
  }

  lemma LoadKeepsOk(s: State, name: Name, now: int, spawned: bool, modelsMax: int)
    requires Ok(s, modelsMax)
    ensures var t := AfterLoad(s, name, now, spawned, modelsMax);
      CapacityOk(t.mapping, modelsMax) && ChildrenOk(t.mapping, t.children, t.nextProc) &&
      CountsOk(t.mapping, t.proxies) && t.queue == s.queue && t.callers == s.callers
  {
    hide QueueOk, ChildrenOk, CountsOk, WithEntry, Running;
    var m := WithEntry(s.mapping, name);
    WithEntryKeeps(s.mapping, s.children, s.nextProc, name);
    WithEntryCounts(s.mapping, s.proxies, name);
    if LoadVerdict(s.mapping, name, modelsMax, spawned) == Spawned {
      var inst := Instance(Loading, now, 0, s.nextProc, m[name].exitCode);
      SpawnKeeps(m, s.children, s.nextProc, name, inst);
      FreshCounts(m, s.proxies, name, inst);
    }
  }

  lemma RemoveKeepsOk(s: State, name: Name, modelsMax: int)
    requires Ok(s, modelsMax) && name in s.mapping && s.mapping[name].status == Unloaded
    ensures Ok(s.(mapping := s.mapping - {name}), modelsMax)
  {
    hide QueueOk;
    IdleKeeps(s.mapping, s.mapping - {name}, s.children, s.nextProc, name);
  }

  lemma ReportKeepsOk(s: State, proc: nat, status: Status, modelsMax: int)
    requires Ok(s, modelsMax) && proc in s.children && IsRunning(status)
    ensures s.children[proc].name in s.mapping
    ensures var n, m := s.children[proc].name, s.mapping;
      Ok(s.(mapping := m[n := m[n].(status := status, exitCode := 0)]), modelsMax)
  {
    hide QueueOk;
    ReportKeeps(s.mapping, s.children, s.nextProc, proc, status);
  }

  lemma ExitFirstKeepsOk(s: State, proc: nat)
    requires ChildrenOk(s.mapping, s.children, s.nextProc) && proc in s.children
    ensures ChildrenOk(s.mapping, s.children[proc := s.children[proc].(exiting := true)], s.nextProc)
  {
    var cs := s.children[proc := s.children[proc].(exiting := true)];
    forall p | p in cs ensures RunsAs(s.mapping, cs[p].name, p) {
      assert RunsAs(s.mapping, s.children[p].name, p);
    }
  }

  lemma ExitSecondKeepsOk(s: State, proc: nat, code: int, modelsMax: int)
    requires Ok(s, modelsMax) && proc in s.children
    ensures s.children[proc].name in s.mapping
    ensures var n, m := s.children[proc].name, s.mapping;
      Ok(s.(mapping := m[n := m[n].(status := Unloaded, exitCode := code)], children := s.children - {proc}), modelsMax)
  {
    hide QueueOk;
    ExitKeeps(s.mapping, s.children, s.nextProc, proc, code);
  }

  lemma ProxyBeginKeepsOk(s: State, s': State, id: nat, name: Name, update: bool, now: int, modelsMax: int)
    requires Ok(s, modelsMax) && id !in s.proxies && Took(s, s', ProxyBeginStep(id, name, update, now), modelsMax)
    ensures Ok(s', modelsMax)
  {
    hide QueueOk, ChildrenOk, CountsOk, WithEntry, Running;
    var m := WithEntry(s.mapping, name);
    WithEntryKeeps(s.mapping, s.children, s.nextProc, name);
    WithEntryCounts(s.mapping, s.proxies, name);
    CountsGrow(m, s.proxies, name, id, s'.mapping[name]);
    SameRunning(m, s'.mapping, s.children, s.nextProc);
  }

  lemma ProxyEndKeepsOk(s: State, s': State, id: nat, modelsMax: int)
    requires Ok(s, modelsMax) && id in s.proxies && Took(s, s', ProxyEndStep(id), modelsMax)
    ensures Ok(s', modelsMax)
  {
    hide QueueOk, ChildrenOk, CountsOk, Running, Ticked;
    CountsShrink(s.mapping, s'.mapping, s.proxies, id);
    SameRunning(s.mapping, s'.mapping, s.children, s.nextProc);
  }

  lemma ArriveKeepsOk(s: State, id: nat, name: Name, modelsMax: int)
    requires Ok(s, modelsMax) && id !in s.callers
    ensures QueueOk(s.queue, s.callers[id := Caller(name, false, Waits, false, false)])
    ensures QueueOk(s.queue, s.callers[id := Caller(name, false, Direct, false, false)])
    ensures QueueOk(Joined(s.queue, name), s.callers[id := Caller(name, true, Waits, false, false)])
  {
    hide QueueOk, ChildrenOk, CountsOk;
    OutsiderKeeps(s.queue, s.callers, id, Caller(name, false, Waits, false, false));
    OutsiderKeeps(s.queue, s.callers, id, Caller(name, false, Direct, false, false));
    JoinKeeps(s.queue, s.callers, id, Caller(name, true, Waits, false, false));
  }

  lemma LookKeepsOk(s: State, s': State, id: nat, shouldStop: bool, modelsMax: int)
    requires Ok(s, modelsMax) && Enabled(s, LookStep(id, shouldStop))
    requires Took(s, s', LookStep(id, shouldStop), modelsMax)
    ensures Ok(s', modelsMax)
  {
    hide QueueOk, ChildrenOk, CountsOk, CapacityOk, Ticked, Running;
    var c := s.callers[id];
    match Verdict(s.mapping, c, shouldStop, CanClaim(s.queue, s.mapping, modelsMax, c.name))
    case TookTurn => ClaimKeeps(s.queue, s.callers, id, c.(pc := Claims));
    case KeepsWaiting =>
      if c.queued {
        MoveKeeps(s.queue, s.queue, s.callers, id, s'.callers[id]);
      } else {
        OutsiderKeeps(s.queue, s.callers, id, s'.callers[id]);
      }
    case Finished => GoneKeepsOk(s, id);
    case Thrown => GoneKeepsOk(s, id);
  }

  lemma GoneKeepsOk(s: State, id: nat)
    requires QueueOk(s.queue, s.callers) && id in s.callers && !Holding(s.callers[id])
    ensures QueueOk(Gone(s, id).queue, Gone(s, id).callers)
  {
    hide QueueOk;
    if s.callers[id].queued {
      LeaveKeeps(s.queue, s.callers, id);
    } else {
      OutsiderKeeps(s.queue, s.callers, id, s.callers[id]);
    }
  }
}
