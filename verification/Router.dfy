/** The router (server-models.cpp): loads, child messages, child exits, stops and queued requests as atomic steps, one
    per region of code that holds the mutex.  Any interleaving of the steps keeps Valid(). */
module Router {
  import opened Scheduler
  import opened RouterInvariants
  import opened RouterSteps
  import ServerTokens

  datatype Victim = NoVictim | Victim(name: Name)

  class Models {
    const modelsMax: int
    var mapping: Mapping
    var stopping: set<Name>
    var queue: seq<Waiting>
    var children: map<nat, Child>   // watched by the monitor
    var nextProc: nat
    var callers: map<nat, Caller>   // requests inside ensure_model_ready
    var proxies: map<nat, Name>     // proxied requests still open

    ghost predicate Valid()
      reads this
    {
      Ok(Snap(), modelsMax)
    }

    ghost function Snap(): State
      reads this
    {
      State(mapping, stopping, queue, children, nextProc, callers, proxies)
    }

    /** One step, and nothing else, happened. */
    twostate predicate Did(e: Step)
      reads this
    {
      Enabled(old(Snap()), e) && Took(old(Snap()), Snap(), e, modelsMax)
    }

    constructor (names: set<Name>, modelsMax: int)
      ensures Valid() && this.modelsMax == modelsMax && mapping == map n | n in names :: DEFAULT
      ensures stopping == {} && queue == [] && children == map[] && callers == map[] && proxies == map[]
      ensures nextProc == 0
    {
      this.modelsMax := modelsMax;
      mapping := map n | n in names :: DEFAULT;
      stopping, queue, children, nextProc, callers, proxies := {}, [], map[], 0, map[], map[];
      new;
      assert Running(mapping) == {};
    }

    // ---- server_lru_sched ----

    method CountRunning() returns (running: nat, stops: nat)
      ensures running == |Running(mapping)| && stops == |Running(mapping) * stopping|
    {
      hide Running;
      ghost var all := Running(mapping);
      ghost var both := all * stopping;
      running, stops := 0, 0;
      var rest := mapping.Keys;
      RunningHas(mapping);
      CountEnds(all, rest);
      CountEnds(both, rest);
      while rest != {}
        invariant rest <= mapping.Keys && running == |all - rest| && stops == |both - rest|
        decreases rest
      {
        var n := ServerTokens.FirstKey(rest);
        CountOne(all, rest, n);
        CountOne(both, rest, n);
        if IsRunning(mapping[n].status) {
          running := running + 1;
          if n in stopping { stops := stops + 1; }
        }
        rest := rest - {n};
      }
    }

    method HasCapacity() returns (free: bool)
      ensures free <==> HasRoom(mapping, modelsMax)
    {
      var running, stops := CountRunning();
      free := modelsMax <= 0 || running < modelsMax;
    }

    /** The least recently used model that can be given up, ties by name. */
    method PickVictim() returns (v: Victim)
      ensures v.NoVictim? <==> Eligible(mapping, stopping, queue) == {}
      ensures v.Victim? ==> v.name in mapping && v.name in Eligible(mapping, stopping, queue)
      ensures v.Victim? ==>
        mapping[v.name].reqCount == 0 && (mapping[v.name].status == Loaded || mapping[v.name].status == Sleeping) &&
        v.name !in stopping && forall w :: w in queue ==> w.name != v.name
      ensures v.Victim? ==>
        forall n :: n in Eligible(mapping, stopping, queue) && n != v.name ==> Older(mapping, v.name, n)
    {
      hide CanGive;
      ghost var all := Eligible(mapping, stopping, queue);
      v := NoVictim;
      var rest := mapping.Keys;
      while rest != {}
        invariant rest <= mapping.Keys
        invariant forall n, r :: n in mapping && n !in rest && r in rest ==> n < r
        invariant v.NoVictim? ==> all <= rest
        invariant v.Victim? ==> v.name in all && v.name !in rest
        invariant v.Victim? ==> forall n :: n in all && n !in rest && n != v.name ==> Older(mapping, v.name, n)
        decreases rest
      {
        var n := ServerTokens.FirstKey(rest);
        rest := rest - {n};
        if CanGive(mapping, stopping, queue, n) {
          if v.NoVictim? || mapping[n].lastUsed < mapping[v.name].lastUsed {
            v := Victim(n);
          }
        }
      }
      if v.Victim? { EligibleExactly(mapping, stopping, queue, v.name); }
    }

    method CountQueue() returns (needed: nat, claimed: nat)
      ensures needed == Needed(queue) && claimed == Claimed(mapping, queue)
    {
      needed, claimed := 0, 0;
      for i := 0 to |queue|
        invariant needed == Needed(queue[..i]) && claimed == Claimed(mapping, queue[..i])
      {
        assert queue[..i + 1][..i] == queue[..i];
        if !queue[i].loading {
          needed := needed + 1;
        } else if queue[i].name in mapping && !IsRunning(mapping[queue[i].name].status) {
          claimed := claimed + 1;
        }
      }
      assert queue[..|queue|] == queue;
    }

    /** request_stop */
    method RequestStop(name: Name)
      modifies `stopping
      ensures stopping == if name in mapping then old(stopping) + {name} else old(stopping)
    {
      if name !in mapping || name in stopping { return; }
      stopping := stopping + {name};
    }

    /** tick: evicts exactly what is missing, as far as there is something to give, oldest first.  Its running count of
        free slots equals the recomputed one after every eviction. */
    method Tick()
      modifies `stopping
      ensures Ticked(Snap(), old(stopping), modelsMax) && old(stopping) <= stopping
      ensures forall n :: n in stopping - old(stopping) ==>
        n in mapping && mapping[n].reqCount == 0 && (mapping[n].status == Loaded || mapping[n].status == Sleeping) &&
        forall w :: w in queue ==> w.name != n
    {
      hide Evicts;
      ghost var out := EvictMissing();
      EvictsIdle(mapping, old(stopping), queue, modelsMax, out);
      assert Evicts(Snap().mapping, old(stopping), Snap().queue, modelsMax, out);
    }

    method EvictMissing() returns (ghost out: set<Name>)
      modifies `stopping
      ensures Evicts(mapping, old(stopping), queue, modelsMax, out) && stopping == old(stopping) + out
    {
      hide *;
      out := {};
      ghost var before := stopping;
      ghost var all := Eligible(mapping, stopping, queue);
      if modelsMax <= 0 || queue == [] {
        NothingEvicted();
        assert stopping == before + {};
        return;
      }
      var free, needed := CountFree();
      NothingFirst();
      while free < needed
        invariant OldestFirst(mapping, out, all) && out <= all && stopping == before + out
        invariant free == Free(mapping, stopping, queue, modelsMax) == Free(mapping, before, queue, modelsMax) + |out|
        invariant Eligible(mapping, stopping, queue) == all - out
        invariant out == {} || free <= needed
        decreases needed - free
      {
        var v := EvictOne(before, out, all);
        if v.NoVictim? {
          EnoughEvicted(mapping, before, queue, modelsMax, out);
          return; // every remaining model is busy
        }
        out := out + {v.name};
        free := free + 1;
      }
      EnoughEvicted(mapping, before, queue, modelsMax, out);
    }

    /** The next model to be stopped, of those not stopped yet. */
    method EvictOne(ghost before: set<Name>, ghost out: set<Name>, ghost all: set<Name>) returns (v: Victim)
      requires OldestFirst(mapping, out, all) && stopping == before + out
      requires Eligible(mapping, stopping, queue) == all - out
      modifies `stopping
      ensures v.NoVictim? ==> out == all && stopping == old(stopping)
      ensures v.Victim? ==> stopping == before + (out + {v.name}) && |out + {v.name}| == |out| + 1
      ensures v.Victim? ==>
        out + {v.name} <= all && OldestFirst(mapping, out + {v.name}, all) &&
        Eligible(mapping, stopping, queue) == all - (out + {v.name}) &&
        Free(mapping, stopping, queue, modelsMax) == old(Free(mapping, stopping, queue, modelsMax)) + 1
    {
      hide Eligible, Free, Older;
      v := PickVictim();
      if v.NoVictim? {
        assert all - out == {} && all == out + (all - out);
        return;
      }
      OneMoreStopping(mapping, stopping, queue, modelsMax, v.name);
      NextOldest(mapping, out, all, v.name);
      RequestStop(v.name);
      assert all - out - {v.name} == all - (out + {v.name});
      assert before + out + {v.name} == before + (out + {v.name});
    }

    method CountFree() returns (free: int, needed: nat)
      ensures free == Free(mapping, stopping, queue, modelsMax) && needed == Needed(queue)
    {
      var running, stops := CountRunning();
      var claimed: nat;
      needed, claimed := CountQueue();
      free := modelsMax - running + stops - claimed;
    }

    lemma NothingEvicted()
      requires modelsMax <= 0 || queue == []
      ensures Evicts(mapping, stopping, queue, modelsMax, {})
    {
    }

    lemma NothingFirst()
      ensures OldestFirst(mapping, {}, Eligible(mapping, stopping, queue))
    {
    }

    // ---- load, unload, remove ----

    /** The locked part of unload_lru: which model to unload before a load. */
    method PickLru() returns (v: Victim)
      ensures v.NoVictim? <==> HasRoom(mapping, modelsMax) || Eligible(mapping, stopping, queue) == {}
      ensures v.Victim? ==> v.name in Eligible(mapping, stopping, queue) && v.name in mapping
      ensures v.Victim? ==>
        mapping[v.name].reqCount == 0 && (mapping[v.name].status == Loaded || mapping[v.name].status == Sleeping) &&
        v.name !in stopping && forall w :: w in queue ==> w.name != v.name
      ensures v.Victim? ==>
        forall n :: n in Eligible(mapping, stopping, queue) && n != v.name ==> Older(mapping, v.name, n)
    {
      var free := HasCapacity();
      if modelsMax <= 0 || free { return NoVictim; }
      v := PickVictim();
    }

    /** The locked part of load: only an unloaded model is loaded, and only below the limit. */
    method Load(name: Name, port: bool, spawn: bool, now: int) returns (r: LoadResult)
      requires Valid()
      modifies `mapping, `children, `nextProc
      ensures Valid() && Did(LoadStep(name, now, port && spawn))
      ensures r == LoadVerdict(old(mapping), name, modelsMax, port && spawn)
    {
      r := LoadModel(name, port, spawn, now);
      Kept(LoadStep(name, now, port && spawn));
    }

    method LoadModel(name: Name, port: bool, spawn: bool, now: int) returns (r: LoadResult)
      modifies `mapping, `children, `nextProc
      ensures Snap() == AfterLoad(old(Snap()), name, now, port && spawn, modelsMax)
      ensures r == LoadVerdict(old(mapping), name, modelsMax, port && spawn)
    {
      hide Running;
      mapping := WithEntry(mapping, name);
      assert Running(mapping) == Running(old(mapping)) by { EntryDoesNotRun(old(mapping), name); }
      if mapping[name].status != Unloaded { return NotReady; }
      var capacity := HasCapacity();
      if !capacity { return LimitReached; }
      if !(port && spawn) { return SpawnFailed; }
      mapping := mapping[name := Instance(Loading, now, 0, nextProc, mapping[name].exitCode)];
      children := children[nextProc := Child(name, false)];
      nextProc := nextProc + 1;
      r := Spawned;
    }

    /** The locked part of unload, for models that are not being downloaded. */
    method Unload(name: Name)
      requires Valid()
      modifies `stopping
      ensures Valid() && Did(UnloadStep(name))
    {
      if name in mapping && IsRunning(mapping[name].status) {
        RequestStop(name);
      }
      Kept(UnloadStep(name));
    }

    /** The locked part of remove that erases the entry, once the model is unloaded. */
    method Remove(name: Name)
      requires Valid() && Enabled(Snap(), RemoveStep(name))
      modifies `mapping
      ensures Valid() && Did(RemoveStep(name))
    {
      mapping := mapping - {name};
      Kept(RemoveStep(name));
    }

    /** Every step keeps what is promised. */
    twostate lemma Kept(e: Step)
      requires old(Valid()) && Did(e)
      ensures Valid()
    {
      StepKeepsOk(old(Snap()), Snap(), e, modelsMax);
    }

    // ---- the monitor ----

    /** handle_child_state for a message of a watched child, and the tick of update_status. */
    method Report(proc: nat, status: Status)
      requires Valid() && Enabled(Snap(), ReportStep(proc, status))
      modifies `mapping, `stopping
      ensures Valid() && Did(ReportStep(proc, status))
    {
      hide QueueOk, Ticked;
      var n := children[proc].name;
      assert RunsAs(mapping, n, proc);
      mapping := mapping[n := mapping[n].(status := status, exitCode := 0)];
      Tick();
      Kept(ReportStep(proc, status));
    }

    /** on_child_exit, first locked region.  Without reloads a newer instance cannot have taken the name. */
    method ExitFirst(proc: nat)
      requires Valid() && Enabled(Snap(), ExitFirstStep(proc))
      modifies `stopping, `children
      ensures Valid() && Did(ExitFirstStep(proc))
    {
      hide QueueOk, CountsOk, CapacityOk;
      var n := children[proc].name;
      stopping := stopping - {n};
      assert RunsAs(mapping, n, proc);
      if n !in mapping || mapping[n].proc != proc {
        assert false; // entry erased, or a newer instance took the name
      }
      children := children[proc := children[proc].(exiting := true)];
      Kept(ExitFirstStep(proc));
    }

    /** on_child_exit, second locked region: the status, and a tick. */
    method ExitSecond(proc: nat, code: int)
      requires Valid() && Enabled(Snap(), ExitSecondStep(proc, code))
      modifies `mapping, `stopping, `children
      ensures Valid() && Did(ExitSecondStep(proc, code))
    {
      hide QueueOk, Ticked;
      var n := children[proc].name;
      assert RunsAs(mapping, n, proc);
      mapping := mapping[n := mapping[n].(status := Unloaded, exitCode := code)];
      children := children - {proc};
      Tick();
      Kept(ExitSecondStep(proc, code));
    }

    // ---- proxied requests ----

    method ProxyBegin(id: nat, name: Name, update: bool, now: int)
      requires Valid() && Enabled(Snap(), ProxyBeginStep(id, name, update, now))
      modifies `mapping, `proxies
      ensures Valid() && Did(ProxyBeginStep(id, name, update, now))
    {
      hide Ok, WithEntry;
      mapping := WithEntry(mapping, name);
      ghost var m := mapping;
      if update {
        mapping := mapping[name := mapping[name].(lastUsed := now)];
      }
      mapping := mapping[name := mapping[name].(reqCount := mapping[name].reqCount + 1)];
      assert mapping == m[name := mapping[name]];
      proxies := proxies[id := name];
      Kept(ProxyBeginStep(id, name, update, now));
    }

    method ProxyEnd(id: nat)
      requires Valid() && Enabled(Snap(), ProxyEndStep(id))
      modifies `mapping, `proxies, `stopping
      ensures Valid() && Did(ProxyEndStep(id))
    {
      hide Ok, Ticked;
      var n := proxies[id];
      proxies := proxies - {id};
      if n in mapping && mapping[n].reqCount > 0 {
        mapping := mapping[n := mapping[n].(reqCount := mapping[n].reqCount - 1)];
        if mapping[n].reqCount == 0 {
          Tick();
        }
      }
      Kept(ProxyEndStep(id));
    }

    // ---- ensure_model_ready ----

    method Find(name: Name) returns (i: int)
      ensures i == IndexOf(queue, name)
    {
      for k := 0 to |queue|
        invariant !Queued(queue[..k], name)
      {
        if queue[k].name == name {
          FirstIndex(queue, name, k);
          return k;
        }
      }
      assert queue[..|queue|] == queue;
      i := -1;
    }

    method Join(name: Name)
      modifies `queue
      ensures queue == Joined(old(queue), name)
    {
      var i := Find(name);
      if i >= 0 {
        queue := queue[i := queue[i].(waiters := queue[i].waiters + 1)];
        return;
      }
      queue := queue + [Waiting(name, 1, false)];
    }

    method Leave(name: Name)
      modifies `queue
      ensures queue == Left(old(queue), name)
    {
      var i := Find(name);
      if i >= 0 {
        var w := queue[i].waiters - 1;
        queue := queue[i := queue[i].(waiters := w)];
        if w <= 0 {
          queue := queue[..i] + queue[i + 1..];
        }
      }
    }

    method TryClaim(name: Name) returns (ok: bool)
      modifies `queue
      ensures ok <==> CanClaim(old(queue), mapping, modelsMax, name)
      ensures queue == if ok then old(queue)[0 := old(queue)[0].(loading := true)] else old(queue)
    {
      if queue == [] || queue[0].name != name || queue[0].loading { return false; }
      ok := HasCapacity();
      if ok {
        queue := queue[0 := queue[0].(loading := true)];
      }
    }

    /** claim_done */
    method ClaimDone(name: Name, ok: bool)
      modifies `queue
      ensures queue == var i := IndexOf(old(queue), name);
        if ok || i < 0 then old(queue) else old(queue)[i := old(queue)[i].(loading := false)]
    {
      if ok { return; }
      var i := Find(name);
      if i >= 0 {
        queue := queue[i := queue[i].(loading := false)];
      }
    }

    /** A request arrives for a model that was not ready: load at once, join the queue, or just wait. */
    method Arrive(id: nat, name: Name)
      requires Valid() && Enabled(Snap(), ArriveStep(id, name))
      modifies `queue, `stopping, `callers
      ensures Valid() && Did(ArriveStep(id, name))
    {
      hide Ok, Ticked, Running;
      if name in mapping && mapping[name].status == Unloaded {
        var free := HasCapacity();
        if free && queue == [] {
          callers := callers[id := Caller(name, false, Direct, false, false)];
        } else {
          callers := callers[id := Caller(name, true, Waits, false, false)];
          Join(name);
          Tick();
        }
      } else {
        callers := callers[id := Caller(name, false, Waits, false, false)];
      }
      Kept(ArriveStep(id, name));
    }

    /** The load of a request that found a free slot; when it throws, so does the request. */
    method LoadDirect(id: nat, port: bool, spawn: bool, now: int) returns (r: LoadResult)
      requires Valid() && Enabled(Snap(), LoadDirectStep(id, now, port && spawn))
      modifies `mapping, `children, `nextProc, `callers
      ensures Valid() && Did(LoadDirectStep(id, now, port && spawn))
      ensures r == LoadVerdict(old(mapping), old(callers)[id].name, modelsMax, port && spawn)
    {
      hide Ok, AfterLoad, LoadVerdict;
      r := LoadModel(callers[id].name, port, spawn, now);
      callers := if Threw(r) then callers - {id} else callers[id := callers[id].(pc := Waits, didLoad := true)];
      Kept(LoadDirectStep(id, now, port && spawn));
    }

    /** The load of a request whose turn it is, outside the claim's lock. */
    method LoadClaimed(id: nat, port: bool, spawn: bool, now: int) returns (r: LoadResult)
      requires Valid() && Enabled(Snap(), LoadClaimedStep(id, now, port && spawn))
      modifies `mapping, `children, `nextProc, `callers
      ensures Valid() && Did(LoadClaimedStep(id, now, port && spawn))
      ensures r == LoadVerdict(old(mapping), old(callers)[id].name, modelsMax, port && spawn)
    {
      hide Ok, AfterLoad, LoadVerdict;
      r := LoadModel(callers[id].name, port, spawn, now);
      var c := callers[id];
      callers := callers[id := c.(pc := Returned(!Threw(r)), didLoad := c.didLoad || !Threw(r))];
      Kept(LoadClaimedStep(id, now, port && spawn));
    }

    /** The lock taken again after that load: a failed claim puts the entry back in line. */
    method FinishClaim(id: nat)
      requires Valid() && Enabled(Snap(), FinishClaimStep(id))
      modifies `queue, `stopping, `callers
      ensures Valid() && Did(FinishClaimStep(id))
    {
      hide ChildrenOk, CountsOk, CapacityOk, Ticked;
      var c := callers[id];
      assert HoldsFront(queue, c);
      FrontIndex(queue, c.name);
      ClaimDone(c.name, c.pc.ok);
      callers := callers[id := c.(pc := Waits)];
      Tick();
      Kept(FinishClaimStep(id));
    }

    /** One turn of the waiting loop under the lock. */
    method Look(id: nat, shouldStop: bool) returns (r: Turn)
      requires Valid() && Enabled(Snap(), LookStep(id, shouldStop))
      modifies `queue, `stopping, `callers
      ensures Valid() && Did(LookStep(id, shouldStop))
      ensures r == Verdict(old(mapping), old(callers)[id], shouldStop,
                           CanClaim(old(queue), old(mapping), modelsMax, old(callers)[id].name))
    {
      hide Ok;
      r := Turns(id, shouldStop);
      Kept(LookStep(id, shouldStop));
    }

    method Turns(id: nat, shouldStop: bool) returns (r: Turn)
      requires Enabled(Snap(), LookStep(id, shouldStop))
      modifies `queue, `stopping, `callers
      ensures Did(LookStep(id, shouldStop))
      ensures r == Verdict(mapping, old(callers)[id], shouldStop,
                           CanClaim(old(queue), mapping, modelsMax, old(callers)[id].name))
    {
      hide Ticked, CanClaim;
      var c := callers[id];
      var name := c.name;
      if name !in mapping || IsReadyOrSleep(mapping[name].status) {
        LeaveQueue(id);
        return Finished;
      }
      if mapping[name].status == Loading {
        c := c.(sawLoading := true);
      } else if c.didLoad || c.sawLoading {
        if mapping[name].exitCode != 0 {
          LeaveQueue(id);
          Tick();
          return Thrown;
        }
        LeaveQueue(id);
        return Finished;
      } else if !c.queued {
        LeaveQueue(id);
        return Finished;
      }
      if shouldStop {
        LeaveQueue(id);
        Tick();
        return Thrown;
      }
      if mapping[name].status == Unloaded {
        var mine := TryClaim(name);
        if mine {
          callers := callers[id := c.(pc := Claims)];
          return TookTurn;
        }
      }
      callers := callers[id := c];
      r := KeepsWaiting;
    }

    method LeaveQueue(id: nat)
      requires id in callers
      modifies `queue, `callers
      ensures Snap() == Gone(old(Snap()), id)
    {
      if callers[id].queued {
        Leave(callers[id].name);
      }
      callers := callers - {id};
    }
  }
}
