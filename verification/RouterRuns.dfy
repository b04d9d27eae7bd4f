/** Reachable states of the router that its comments do not foresee, each shown by a run of its steps. */
module RouterRuns {
  import opened Scheduler
  import opened RouterInvariants
  import opened RouterSteps
  import opened Router

  /** With nobody queued a tick stops nothing. */
  lemma NothingQueued(s: State, before: set<Name>, modelsMax: int)
    requires Ticked(s, before, modelsMax) && s.queue == []
    ensures s.stopping == before
  {
  }

  lemma NoneRuns(m: Mapping, name: Name, inst: Instance)
    requires Running(m) == {name} && inst.status == Unloaded
    ensures Running(m[name := inst]) == {}
  {
    RunningHas(m);
    RunningHas(m[name := inst]);
    assert Running(m[name := inst]) == Running(m) - {name};
  }

  /** A model comes up, idle, while no other runs and nobody is queued. */
  method Up(r: Models, name: Name, now: int) returns (proc: nat)
    requires r.Valid() && name in r.mapping && Running(r.mapping) == {} && r.modelsMax == 1 && r.queue == []
    modifies r
    ensures r.Valid() && proc == old(r.nextProc) && r.nextProc == proc + 1
    ensures r.mapping == old(r.mapping)[name := Instance(Loaded, now, 0, proc, 0)] && Running(r.mapping) == {name}
    ensures r.children == old(r.children)[proc := Child(name, false)]
    ensures r.stopping == old(r.stopping) && r.queue == [] && r.callers == old(r.callers) && r.proxies == old(r.proxies)
  {
    hide Ok, Ticked, Took, Running;
    proc := r.nextProc;
    ghost var s := r.Snap();
    var l := r.Load(name, true, true, now);
    Spawns(s, r.Snap(), name, now);
    s := r.Snap();
    r.Report(proc, Loaded);
    ComesUp(s, r.Snap(), proc);
  }

  lemma Spawns(s: State, s': State, name: Name, now: int)
    requires name in s.mapping && Running(s.mapping) == {} && Took(s, s', LoadStep(name, now, true), 1)
    ensures s' == s.(mapping := s.mapping[name := Instance(Loading, now, 0, s.nextProc, s.mapping[name].exitCode)],
                     children := s.children[s.nextProc := Child(name, false)], nextProc := s.nextProc + 1)
    ensures Running(s'.mapping) == {name}
  {
    RunningHas(s.mapping);
    RunningHas(s'.mapping);
  }

  lemma ComesUp(s: State, s': State, proc: nat)
    requires Enabled(s, ReportStep(proc, Loaded)) && Took(s, s', ReportStep(proc, Loaded), 1) && s.queue == []
    requires s.children[proc].name in s.mapping && Running(s.mapping) == {s.children[proc].name}
    ensures var n := s.children[proc].name;
      s' == s.(mapping := s.mapping[n := s.mapping[n].(status := Loaded, exitCode := 0)]) && Running(s'.mapping) == {n}
  {
    hide Ticked;
    RunningHas(s.mapping);
    RunningHas(s'.mapping);
    NothingQueued(s', s.stopping, 1);
  }

  /** Two models and room for one, which is up. */
  method OneUp() returns (r: Models)
    ensures fresh(r) && r.Valid() && r.modelsMax == 1
    ensures r.mapping == map[0 := Instance(Loaded, 10, 0, 0, 0), 1 := DEFAULT] && Running(r.mapping) == {0}
    ensures r.children == map[0 := Child(0, false)] && r.nextProc == 1
    ensures r.stopping == {} && r.queue == [] && r.callers == map[] && r.proxies == map[]
  {
    r := new Models({0, 1}, 1);
    NoDefaultRuns(r.mapping);
    hide Ok, Ticked, Running;
    var p := Up(r, 0, 10);
  }

  /** The only running model goes down, with or without a stop requested between the two locked regions. */
  method Down(r: Models, proc: nat, stop: bool, code: int)
    requires r.Valid() && proc in r.children && r.children[proc] == Child(0, false) && r.queue == []
    requires 0 in r.mapping && Running(r.mapping) == {0}
    modifies r
    ensures r.Valid() && Running(r.mapping) == {} && r.children == old(r.children) - {proc}
    ensures r.nextProc == old(r.nextProc)
    ensures r.mapping == old(r.mapping)[0 := old(r.mapping)[0].(status := Unloaded, exitCode := code)]
    ensures r.stopping == if stop then old(r.stopping) + {0} else old(r.stopping) - {0}
    ensures r.queue == [] && r.callers == old(r.callers) && r.proxies == old(r.proxies)
  {
    hide Ok, Ticked, Running;
    NoneRuns(r.mapping, 0, r.mapping[0].(status := Unloaded, exitCode := code));
    r.ExitFirst(proc);
    if stop { r.Unload(0); }
    ghost var marked := r.stopping;
    r.ExitSecond(proc, code);
    NothingQueued(r.Snap(), marked, r.modelsMax);
  }

  /** Between the two locked regions of a child's exit the model still looks up and idle.  A stop requested there
      leaves a mark that no exit removes: once the model is loaded again it can never be given up, although it is
      idle and nobody asked this instance to stop; and as its slot counts as being freed, a queued request evicts
      nothing. */
  method StaleMark() returns (r: Models)
    ensures fresh(r) && r.Valid() && r.modelsMax == 1 && r.children == map[1 := Child(0, false)]
    ensures 0 in r.mapping && r.mapping[0] == Instance(Loaded, 20, 0, 1, 0) && r.stopping == {0}
    ensures r.queue == [Waiting(1, 1, false)] && Eligible(r.mapping, r.stopping, r.queue) == {}
    ensures Free(r.mapping, r.stopping, r.queue, 1) == Needed(r.queue) && !CanClaim(r.queue, r.mapping, 1, 1)
  {
    hide Ok, Ticked, Running, Eligible, Free, CanGive, CanClaim, Joined, Needed;
    r := MarkedAgain();
    FirstJoins(1);
    r.Arrive(7, 1);
    MarkedIsStuck(r.mapping, r.queue);
    NothingEligible(r.Snap(), {0}, 1);
  }

  method MarkedAgain() returns (r: Models)
    ensures fresh(r) && r.Valid() && r.modelsMax == 1 && r.children == map[1 := Child(0, false)]
    ensures 0 in r.mapping && r.mapping[0] == Instance(Loaded, 20, 0, 1, 0) && r.stopping == {0}
    ensures 1 in r.mapping && r.mapping[1] == DEFAULT && Running(r.mapping) == {0} && r.queue == []
    ensures r.callers == map[]
  {
    hide Ok, Ticked, Running;
    r := OneUp();
    Down(r, 0, true, 0);
    var q := Up(r, 0, 20);
    assert r.children == map[1 := Child(0, false)];
  }

  lemma NoDefaultRuns(m: Mapping)
    requires forall n :: n in m ==> m[n] == DEFAULT
    ensures Running(m) == {}
  {
  }

  lemma MarkedIsStuck(m: Mapping, q: seq<Waiting>)
    requires Running(m) == {0} && 0 in m && q == [Waiting(1, 1, false)]
    ensures Eligible(m, {0}, q) == {} && Free(m, {0}, q, 1) == 1 == Needed(q) && !CanClaim(q, m, 1, 1)
  {
    assert Running(m) * {0} == {0};
    assert forall n :: n in m && IsReadyOrSleep(m[n].status) ==> n in Running(m);
    assert q[..|q| - 1] == [];
    assert Claimed(m, []) == 0 && Needed([]) == 0;
  }

  lemma FirstJoins(name: Name)
    ensures Joined([], name) == [Waiting(name, 1, false)]
  {
  }

  lemma NothingEligible(s: State, before: set<Name>, modelsMax: int)
    requires Ticked(s, before, modelsMax) && Eligible(s.mapping, before, s.queue) == {}
    ensures s.stopping == before
  {
  }

  /** A request still open when its model's process dies is not counted by the next process, but its end is: another
      request may then be open on a model that counts as idle and can be given up. */
  method LostCount() returns (r: Models)
    ensures fresh(r) && r.Valid() && 0 in r.mapping && r.mapping[0] == Instance(Loaded, 20, 0, 1, 0)
    ensures r.proxies == map[6 := 0] && 0 in Eligible(r.mapping, r.stopping, r.queue)
  {
    hide Ok, Ticked, Running;
    r := ReloadedWhileOpen();
    ghost var stopping := r.stopping;
    r.ProxyBegin(6, 0, false, 0);
    r.ProxyEnd(5);
    NothingQueued(r.Snap(), stopping, r.modelsMax);
    assert r.proxies == map[6 := 0];
  }

  method ReloadedWhileOpen() returns (r: Models)
    ensures fresh(r) && r.Valid() && 0 in r.mapping && r.mapping[0] == Instance(Loaded, 20, 0, 1, 0)
    ensures r.proxies == map[5 := 0] && r.queue == [] && r.stopping == {}
  {
    hide Ok, Ticked, Running;
    r := OneUp();
    CountsDoNotRun(r.mapping, 0, r.mapping[0].(reqCount := 1));
    r.ProxyBegin(5, 0, false, 0);
    Down(r, 0, false, 1);
    var q := Up(r, 0, 20);
  }

  lemma CountsDoNotRun(m: Mapping, name: Name, inst: Instance)
    requires name in m && inst.status == m[name].status
    ensures Running(m[name := inst]) == Running(m)
  {
  }

  /** The entry of a model whose load succeeded stays marked as loading until its last waiter leaves.  When the model
      goes down again while a later request waits for it, nobody loads it, no request of any model can claim the slot,
      although it is free, and the waiting request keeps waiting. */
  method StuckClaim() returns (r: Models)
    ensures fresh(r) && r.Valid() && r.modelsMax == 1 && Running(r.mapping) == {} && r.children == map[]
    ensures r.queue == [Waiting(1, 1, true)] && r.callers == map[8 := Caller(1, true, Waits, false, false)]
    ensures forall n :: !CanClaim(r.queue, r.mapping, 1, n)
    ensures Verdict(r.mapping, r.callers[8], false, false) == KeepsWaiting
  {
    hide Ok, Ticked, Took, Running;
    r := LoadedAndGone();
    ghost var s := r.Snap();
    r.Arrive(8, 1);
    JoinsFirst(s, r.Snap(), 8, 1);
    s := r.Snap();
    var t := r.Look(7, false);
    Leaves(s, r.Snap(), 7);
  }

  method LoadedAndGone() returns (r: Models)
    ensures fresh(r) && r.Valid() && r.modelsMax == 1 && Running(r.mapping) == {} && r.children == map[]
    ensures 1 in r.mapping && r.mapping[1] == Instance(Unloaded, 20, 0, 1, 9)
    ensures r.queue == [Waiting(1, 1, true)] && r.callers == map[7 := Caller(1, true, Waits, true, false)]
  {
    hide Ok, Ticked, Took, Running;
    r := LoadedByClaim();
    ghost var s := r.Snap();
    r.ExitFirst(1);
    Exits(s, r.Snap(), 1);
    s := r.Snap();
    r.ExitSecond(1, 9);
    GoesDown(s, r.Snap(), 1, 9);
  }

  lemma Exits(s: State, s': State, proc: nat)
    requires Enabled(s, ExitFirstStep(proc)) && Took(s, s', ExitFirstStep(proc), 1)
    requires s.children == map[proc := Child(s.children[proc].name, false)]
    ensures s' == s.(stopping := s.stopping - {s.children[proc].name},
                     children := map[proc := Child(s.children[proc].name, true)])
  {
  }

  lemma GoesDown(s: State, s': State, proc: nat, code: int)
    requires Enabled(s, ExitSecondStep(proc, code)) && Took(s, s', ExitSecondStep(proc, code), 1)
    requires s.children == map[proc := Child(s.children[proc].name, true)] && s.children[proc].name in s.mapping
    requires Running(s.mapping) == {s.children[proc].name}
    ensures var n := s.children[proc].name;
      s' == s.(mapping := s.mapping[n := s.mapping[n].(status := Unloaded, exitCode := code)], children := map[],
               stopping := s'.stopping) && Running(s'.mapping) == {}
  {
    hide Ticked;
    var n := s.children[proc].name;
    NoneRuns(s.mapping, n, s.mapping[n].(status := Unloaded, exitCode := code));
    assert s'.children == map[];
  }

  /** A request joins the entry of its model that is down. */
  lemma JoinsFirst(s: State, s': State, id: nat, name: Name)
    requires Enabled(s, ArriveStep(id, name)) && Took(s, s', ArriveStep(id, name), 1)
    requires name in s.mapping && s.mapping[name].status == Unloaded && s.queue == [Waiting(name, 1, true)]
    ensures s' == s.(queue := [Waiting(name, 2, true)], stopping := s'.stopping,
                     callers := s.callers[id := Caller(name, true, Waits, false, false)])
  {
    hide Ticked, Running;
  }

  lemma Leaves(s: State, s': State, id: nat)
    requires Enabled(s, LookStep(id, false)) && Took(s, s', LookStep(id, false), 1)
    requires s.callers[id].queued && s.callers[id].didLoad && s.callers[id].name in s.mapping
    requires s.mapping[s.callers[id].name].status == Unloaded && s.queue == [Waiting(s.callers[id].name, 2, true)]
    ensures s' == s.(queue := [Waiting(s.callers[id].name, 1, true)], stopping := s'.stopping,
                    callers := s.callers - {id})
  {
    hide Ticked, Running, CanClaim;
  }

  /** A queued request got the slot of a model that went down, and its own model is coming up. */
  method LoadedByClaim() returns (r: Models)
    ensures fresh(r) && r.Valid() && r.modelsMax == 1 && Running(r.mapping) == {1}
    ensures r.children == map[1 := Child(1, false)]
    ensures 1 in r.mapping && r.mapping[1] == Instance(Loading, 20, 0, 1, 0)
    ensures r.queue == [Waiting(1, 1, true)] && r.callers == map[7 := Caller(1, true, Waits, true, false)]
  {
    hide Ok, Ticked, Took, Running;
    r := WaitsForSlot();
    ghost var s := r.Snap();
    var t := r.Look(7, false);
    TakesTurn(s, r.Snap(), 7, 1);
    s := r.Snap();
    var l := r.LoadClaimed(7, true, true, 20);
    LoadsClaimed(s, r.Snap(), 7, 1, 20);
    s := r.Snap();
    r.FinishClaim(7);
    Settles(s, r.Snap(), 7);
    assert r.callers == map[7 := Caller(1, true, Waits, true, false)];
  }

  lemma TakesTurn(s: State, s': State, id: nat, name: Name)
    requires s.callers == map[id := Caller(name, true, Waits, false, false)] && s.queue == [Waiting(name, 1, false)]
    requires name in s.mapping && s.mapping[name].status == Unloaded && Running(s.mapping) == {}
    requires Took(s, s', LookStep(id, false), 1)
    ensures s' == s.(queue := [Waiting(name, 1, true)], callers := map[id := Caller(name, true, Claims, false, false)])
  {
    hide Ticked, Running;
    assert s'.callers == map[id := Caller(name, true, Claims, false, false)];
  }

  lemma LoadsClaimed(s: State, s': State, id: nat, name: Name, now: int)
    requires s.callers == map[id := Caller(name, true, Claims, false, false)]
    requires name in s.mapping && s.mapping[name] == DEFAULT && Running(s.mapping) == {}
    requires Took(s, s', LoadClaimedStep(id, now, true), 1) && s.children == map[]
    ensures s'.mapping == s.mapping[name := Instance(Loading, now, 0, s.nextProc, 0)] && Running(s'.mapping) == {name}
    ensures s'.children == map[s.nextProc := Child(name, false)] && s'.queue == s.queue
    ensures s'.callers == map[id := Caller(name, true, Returned(true), true, false)]
  {
    hide Ticked;
    RunningHas(s.mapping);
    assert s'.callers == map[id := Caller(name, true, Returned(true), true, false)];
  }

  lemma Settles(s: State, s': State, id: nat)
    requires Enabled(s, FinishClaimStep(id)) && Took(s, s', FinishClaimStep(id), 1) && s.callers[id].pc.ok
    ensures s' == s.(stopping := s'.stopping, callers := s.callers[id := s.callers[id].(pc := Waits)])
  {
  }

  method WaitsForSlot() returns (r: Models)
    ensures fresh(r) && r.Valid() && r.modelsMax == 1 && Running(r.mapping) == {} && r.children == map[]
    ensures r.nextProc == 1
    ensures 1 in r.mapping && r.mapping[1] == DEFAULT
    ensures r.queue == [Waiting(1, 1, false)] && r.callers == map[7 := Caller(1, true, Waits, false, false)]
  {
    hide Ok, Ticked, Took, Running;
    r := OneUp();
    ghost var s := r.Snap();
    r.Arrive(7, 1);
    QueuesUp(s, r.Snap(), 7, 1);
    s := r.Snap();
    r.ExitFirst(0);
    Exits(s, r.Snap(), 0);
    s := r.Snap();
    r.ExitSecond(0, 0);
    GoesDown(s, r.Snap(), 0, 0);
    assert r.callers == map[7 := Caller(1, true, Waits, false, false)];
  }

  /** A request for a model that is down while another one has the only place. */
  lemma QueuesUp(s: State, s': State, id: nat, name: Name)
    requires Enabled(s, ArriveStep(id, name)) && Took(s, s', ArriveStep(id, name), 1)
    requires name in s.mapping && s.mapping[name].status == Unloaded && s.queue == [] && |Running(s.mapping)| == 1
    ensures s' == s.(queue := [Waiting(name, 1, false)], stopping := s'.stopping,
                     callers := s.callers[id := Caller(name, true, Waits, false, false)])
  {
    hide Ticked, Running;
    FirstJoins(name);
  }
}
