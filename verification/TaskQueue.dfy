/** The task queue (server-queue.cpp): each method is one region of code that holds the mutex and does exactly what the
    event of the same name does to the state. */
module TaskQueue {
  import opened TaskOrder

  /** Ids given to the tasks of one post that have none yet. */
  function PostedMany(s: State, tasks: seq<Task>, front: bool, nextId: int): (State, int)
    decreases |tasks|
  {
    if tasks == [] then (s, nextId)
    else
      var t := if tasks[0].id == -1 then tasks[0].(id := nextId) else tasks[0];
      PostedMany(Apply(s, Post(t, front)), tasks[1..], front, if tasks[0].id == -1 then nextId + 1 else nextId)
  }

  /** Tasks without an id. */
  function Unnamed(tasks: seq<Task>): (n: nat) {
    if tasks == [] then 0 else (if tasks[0].id == -1 then 1 else 0) + Unnamed(tasks[1..])
  }

  /** The tasks as they are queued. */
  function Numbered(tasks: seq<Task>, nextId: int): (r: seq<Task>)
    ensures |r| == |tasks|
  {
    if tasks == [] then []
    else if tasks[0].id == -1 then [tasks[0].(id := nextId)] + Numbered(tasks[1..], nextId + 1)
    else [tasks[0]] + Numbered(tasks[1..], nextId)
  }

  /** The next free ids are given, in order, to exactly the tasks that have none. */
  lemma {:induction false} NumberedAt(tasks: seq<Task>, nextId: int, i: nat)
    requires i < |tasks|
    ensures Numbered(tasks, nextId)[i] ==
            tasks[i].(id := if tasks[i].id == -1 then nextId + Unnamed(tasks[..i]) else tasks[i].id)
  {
    if i > 0 {
      assert tasks[..i][1..] == tasks[1..][..i - 1];
      NumberedAt(tasks[1..], if tasks[0].id == -1 then nextId + 1 else nextId, i - 1);
    }
  }

  lemma BackPostOne(s: State, t: Task)
    requires t.kind != Cancel
    ensures Apply(s, Post(t, false)) == s.(live := s.live + [t])
  {
  }

  /** Several tasks posted to the back stand there in order. */
  lemma {:induction false} BackPostAppends(s: State, tasks: seq<Task>, nextId: int)
    requires forall i :: 0 <= i < |tasks| ==> tasks[i].kind != Cancel
    ensures PostedMany(s, tasks, false, nextId) ==
            (s.(live := s.live + Numbered(tasks, nextId)), nextId + Unnamed(tasks))
    decreases |tasks|
  {
    hide Apply;
    if tasks == [] {
      assert s.live + [] == s.live;
    } else {
      var t := if tasks[0].id == -1 then tasks[0].(id := nextId) else tasks[0];
      var nextId' := if tasks[0].id == -1 then nextId + 1 else nextId;
      BackPostOne(s, t);
      BackPostAppends(s.(live := s.live + [t]), tasks[1..], nextId');
      assert s.live + [t] + Numbered(tasks[1..], nextId') == s.live + ([t] + Numbered(tasks[1..], nextId'));
    }
  }

  /** Several tasks posted to the front end up in reverse order. */
  lemma {:induction false} FrontPostReverses(s: State, tasks: seq<Task>, nextId: int)
    requires forall i :: 0 <= i < |tasks| ==> tasks[i].id != -1 && tasks[i].kind != Cancel
    ensures var r := PostedMany(s, tasks, true, nextId).0;
      |r.live| == |tasks| + |s.live| && r.live[|tasks|..] == s.live &&
      forall i :: 0 <= i < |tasks| ==> r.live[i] == tasks[|tasks| - 1 - i]
    decreases |tasks|
  {
    if tasks != [] {
      var s' := Apply(s, Post(tasks[0], true));
      FrontPostReverses(s', tasks[1..], nextId);
      OneMoreInFront(s.live, PostedMany(s', tasks[1..], true, nextId).0.live, tasks);
    }
  }

  lemma OneMoreInFront(live: seq<Task>, after: seq<Task>, tasks: seq<Task>)
    requires tasks != [] && |after| == |tasks| + |live| && after[|tasks| - 1..] == [tasks[0]] + live
    requires forall i :: 0 <= i < |tasks| - 1 ==> after[i] == tasks[1..][|tasks| - 2 - i]
    ensures after[|tasks|..] == live && forall i :: 0 <= i < |tasks| ==> after[i] == tasks[|tasks| - 1 - i]
  {
    assert after[|tasks| - 1] == after[|tasks| - 1..][0];
    assert after[|tasks|..] == after[|tasks| - 1..][1..];
  }

  class Queue {
    var id: int
    var queueTasks: seq<Task>
    var queueTasksDeferred: seq<Task>
    var queueTasksUnhandled: seq<Task>
    var inFlight: seq<Task>
    var inYield: bool
    var busy: bool
    var yielding: bool

    function Now(): State
      reads this
    {
      State(queueTasks, queueTasksDeferred, queueTasksUnhandled, inFlight, inYield, busy, yielding)
    }

    ghost predicate Valid()
      reads this
    {
      id >= 0 && Ok(Now())
    }

    constructor ()
      ensures Valid() && Now() == State([], [], [], [], false, false, false) && id == 0
    {
      id := 0;
      queueTasks, queueTasksDeferred, queueTasksUnhandled, inFlight := [], [], [], [];
      inYield, busy, yielding := false, false, false;
    }

    /** cleanup_pending_task */
    method CleanupPendingTask(idTarget: int)
      modifies `queueTasks, `queueTasksDeferred, `queueTasksUnhandled
      ensures queueTasks == Without(old(queueTasks), idTarget)
      ensures queueTasksDeferred == Without(old(queueTasksDeferred), idTarget)
      ensures queueTasksUnhandled == Without(old(queueTasksUnhandled), idTarget)
    {
      queueTasks := Without(queueTasks, idTarget);
      queueTasksDeferred := Without(queueTasksDeferred, idTarget);
      queueTasksUnhandled := Without(queueTasksUnhandled, idTarget);
    }

    method PostTask(task: Task, front: bool) returns (taskId: int)
      requires Valid() && task.id != -1
      modifies this
      ensures Valid() && Now() == Apply(old(Now()), Post(task, front)) && taskId == task.id && id == old(id)
      ensures task.kind != Cancel ==>
        queueTasks == if front then [task] + old(queueTasks) else old(queueTasks) + [task]
    {
      if task.kind == Cancel {
        CleanupPendingTask(task.target);
      }
      queueTasks := if front then [task] + queueTasks else queueTasks + [task];
      StaysOk(old(Now()), Post(task, front));
      taskId := task.id;
    }

    method PostTasks(tasks: seq<Task>, front: bool)
      requires Valid()
      modifies this
      ensures Valid() && (Now(), id) == PostedMany(old(Now()), tasks, front, old(id))
    {
      ghost var all := PostedMany(Now(), tasks, front, id);
      for i := 0 to |tasks|
        invariant Valid() && PostedMany(Now(), tasks[i..], front, id) == all
      {
        assert tasks[i..][1..] == tasks[i + 1..];
        var task := tasks[i];
        if task.id == -1 {
          task := task.(id := id);
          id := id + 1;
        }
        var taskId := PostTask(task, front);
      }
    }

    method GetNewId() returns (newId: int)
      modifies `id
      ensures newId == old(id) && id == old(id) + 1
    {
      newId := id;
      id := id + 1;
    }

    /** defer, called by the callback for the task it was offered */
    method DeferTask()
      requires Valid() && Enabled(Now(), Defer)
      modifies this
      ensures Valid() && Now() == Apply(old(Now()), Defer) && id == old(id)
      ensures queueTasksDeferred == old(queueTasksDeferred) + old(inFlight) && queueTasks == old(queueTasks)
    {
      queueTasksDeferred := queueTasksDeferred + inFlight;
      inFlight := [];
    }

    /** pop_deferred_task */
    method PopDeferredTask(idSlot: int)
      requires Valid()
      modifies this
      ensures Valid() && Now() == Apply(old(Now()), PopDeferred(idSlot)) && id == old(id)
      ensures old(queueTasksDeferred) == [] ==> queueTasks == old(queueTasks)
      ensures old(queueTasksDeferred) != [] ==>
        exists i :: 0 <= i < |old(queueTasksDeferred)| &&
          queueTasks == [old(queueTasksDeferred)[i]] + old(queueTasks) &&
          queueTasksDeferred == old(queueTasksDeferred)[..i] + old(queueTasksDeferred)[i + 1..] &&
          (forall j :: 0 <= j < i ==> old(queueTasksDeferred)[j].idSlot != idSlot) &&
          (old(queueTasksDeferred)[i].idSlot == idSlot ||
           (i == 0 && forall t :: t in old(queueTasksDeferred) ==> t.idSlot != idSlot))
    {
      if queueTasksDeferred != [] {
        var at := 0;
        var found := false;
        while at < |queueTasksDeferred|
          invariant at <= |queueTasksDeferred| && !found
          invariant forall j :: 0 <= j < at ==> queueTasksDeferred[j].idSlot != idSlot
          decreases |queueTasksDeferred| - at
        {
          if queueTasksDeferred[at].idSlot == idSlot {
            found := true;
            break;
          }
          at := at + 1;
        }
        if !found {
          at := 0;
        }
        FoundIsFirst(queueTasksDeferred, idSlot, at, found);
        queueTasks := [queueTasksDeferred[at]] + queueTasks;
        queueTasksDeferred := queueTasksDeferred[..at] + queueTasksDeferred[at + 1..];
      }
    }

    /** process_new_tasks, the locked part */
    method TakeTask()
      requires Valid() && Enabled(Now(), Take)
      modifies this
      ensures Valid() && Now() == Apply(old(Now()), Take) && id == old(id)
      ensures |inFlight| == 1 && old(queueTasks) == inFlight + queueTasks
    {
      inFlight := [queueTasks[0]];
      queueTasks := queueTasks[1..];
    }

    /** The callback's answer: true, or false for a task that has to wait for the end of the yield. */
    method Answer(accepted: bool)
      requires Valid() && Enabled(Now(), if accepted then Accept else Decline)
      modifies this
      ensures Valid() && Now() == Apply(old(Now()), if accepted then Accept else Decline) && id == old(id)
      ensures queueTasks == old(queueTasks) && queueTasksDeferred == old(queueTasksDeferred) && inFlight == []
      ensures queueTasksUnhandled == old(queueTasksUnhandled) + if accepted then [] else old(inFlight)
    {
      if !accepted {
        queueTasksUnhandled := queueTasksUnhandled + inFlight;
      }
      inFlight := [];
    }

    method StartYield()
      requires Valid() && Enabled(Now(), YieldStart)
      modifies this
      ensures Valid() && Now() == Apply(old(Now()), YieldStart) && id == old(id)
    {
      assert !busy; // yield_to_queue cannot be nested
      inYield, busy, yielding := true, true, true;
    }

    /** work() returned */
    method EndWork()
      requires Valid() && Enabled(Now(), WorkEnds)
      modifies this
      ensures Valid() && Now() == Apply(old(Now()), WorkEnds) && id == old(id)
    {
      yielding := false;
    }

    /** worker_loop signals that it will process no more tasks */
    method Rest()
      requires Valid() && Enabled(Now(), WorkerRests)
      modifies this
      ensures Valid() && Now() == Apply(old(Now()), WorkerRests) && id == old(id)
    {
      busy := false;
    }

    /** The end of yield_to_queue, once the worker rests: the declined tasks go back, keeping their order. */
    method FinishYield()
      requires Valid() && Enabled(Now(), YieldEnd)
      modifies this
      ensures Valid() && Now() == Apply(old(Now()), YieldEnd) && id == old(id)
      ensures queueTasks == old(queueTasksUnhandled) + old(queueTasks) && queueTasksUnhandled == []
    {
      ghost var all := queueTasksUnhandled + queueTasks;
      while queueTasksUnhandled != []
        invariant queueTasksUnhandled + queueTasks == all
        invariant unchanged(`queueTasksDeferred, `inFlight, `inYield, `busy, `yielding, `id)
        decreases |queueTasksUnhandled|
      {
        var last := |queueTasksUnhandled| - 1;
        queueTasks := [queueTasksUnhandled[last]] + queueTasks;
        queueTasksUnhandled := queueTasksUnhandled[..last];
      }
      inYield := false;
    }
  }

  lemma {:induction false} FoundIsFirst(q: seq<Task>, slot: int, at: nat, found: bool)
    requires q != [] && at < |q|
    requires found ==> q[at].idSlot == slot && forall j :: 0 <= j < at ==> q[j].idSlot != slot
    requires !found ==> at == 0 && forall j :: 0 <= j < |q| ==> q[j].idSlot != slot
    ensures at == FirstFor(q, slot)
  {
  }
}
