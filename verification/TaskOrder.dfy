/** What the task queue (server-queue.cpp) does to its tasks, event by event, one event per locked region: its three
    queues and the task being processed, and the same queue when nobody yields, which yielding must not be told apart
    from. */
module TaskOrder {

  datatype Kind = Metrics | SlotGet | Cancel | Other

  datatype Task = Task(id: int, kind: Kind, target: int, idSlot: int)

  /** The only tasks accepted while a yield is in progress. */
  predicate ReadsOnly(t: Task) {
    t.kind == Metrics || t.kind == SlotGet
  }

  datatype State = State(
    live: seq<Task>,       // queue_tasks
    deferred: seq<Task>,   // queue_tasks_deferred
    unhandled: seq<Task>,  // queue_tasks_unhandled, declined while yielding
    inFlight: seq<Task>,   // taken out of the queue and not answered yet, at most one
    inYield: bool,         // yield_to_queue has not returned
    busy: bool,            // the worker processes tasks
    yielding: bool)        // work() is still running

  datatype Event =
    | Post(task: Task, front: bool)
    | Take                    // the front of the queue is offered to the callback
    | Accept                  // the callback took the task
    | Decline                 // it did not
    | Defer                   // it put the task aside until a slot is free
    | PopDeferred(slot: int)
    | YieldStart
    | WorkEnds                // work() returned
    | WorkerRests             // the worker saw the end of the yield, an exception or the shutdown
    | YieldEnd                // declined tasks go back

  ghost predicate Ok(s: State) {
    |s.inFlight| <= 1 && (s.unhandled != [] || s.busy || s.yielding ==> s.inYield) &&
    (s.inFlight != [] && s.inYield ==> s.busy) && forall t :: t in s.deferred ==> !ReadsOnly(t)
  }

  /** What can happen.  The worker takes tasks while it is busy, the main thread when no yield is in progress; only the
      worker's tasks can be declined, and it accepts nothing that could change a slot.  Only tasks that need a slot are
      put aside, by the main thread. */
  predicate Enabled(s: State, e: Event) {
    match e
    case Post(t, front) => true
    case Take => s.inFlight == [] && s.live != [] && (s.busy || !s.inYield)
    case Accept => s.inFlight != [] && (s.busy ==> ReadsOnly(s.inFlight[0]))
    case Decline => s.inFlight != [] && s.busy && !ReadsOnly(s.inFlight[0])
    case Defer => s.inFlight != [] && !s.busy && !ReadsOnly(s.inFlight[0])
    case PopDeferred(slot) => true
    case YieldStart => !s.inYield && s.inFlight == []
    case WorkEnds => s.yielding
    case WorkerRests => s.busy && s.inFlight == []
    case YieldEnd => s.inYield && !s.yielding && !s.busy && s.inFlight == []
  }

  /** cleanup_pending_task on one queue */
  function Without(q: seq<Task>, id: int): (r: seq<Task>) {
    if q == [] then [] else (if q[0].id == id then [] else [q[0]]) + Without(q[1..], id)
  }

  function Cleaned(s: State, t: Task): State {
    if t.kind != Cancel then s
    else s.(live := Without(s.live, t.target), deferred := Without(s.deferred, t.target),
            unhandled := Without(s.unhandled, t.target))
  }

  /** The deferred task that goes first when a slot is freed: the first that asks for this slot, or the first. */
  function FirstFor(q: seq<Task>, slot: int): (i: nat)
    ensures q != [] ==> i < |q|
    ensures q != [] && q[i].idSlot == slot ==> forall j :: 0 <= j < i ==> q[j].idSlot != slot
    ensures q != [] && q[i].idSlot != slot ==> i == 0 && forall j :: 0 <= j < |q| ==> q[j].idSlot != slot
  {
    var i := IndexFor(q, slot);
    if i < |q| then i else 0
  }

  function IndexFor(q: seq<Task>, slot: int): (i: nat)
    ensures i <= |q|
    ensures i < |q| ==> q[i].idSlot == slot
    ensures forall j :: 0 <= j < i ==> q[j].idSlot != slot
  {
    if q == [] || q[0].idSlot == slot then 0 else 1 + IndexFor(q[1..], slot)
  }

  function Apply(s: State, e: Event): State
    requires Enabled(s, e)
  {
    match e
    case Post(t, front) =>
      var c := Cleaned(s, t);
      c.(live := if front then [t] + c.live else c.live + [t])
    case Take => s.(inFlight := [s.live[0]], live := s.live[1..])
    case Accept => s.(inFlight := [])
    case Decline => s.(inFlight := [], unhandled := s.unhandled + s.inFlight)
    case Defer => s.(inFlight := [], deferred := s.deferred + s.inFlight)
    case PopDeferred(slot) =>
      if s.deferred == [] then s
      else
        var i := FirstFor(s.deferred, slot);
        s.(live := [s.deferred[i]] + s.live, deferred := s.deferred[..i] + s.deferred[i + 1..])
    case YieldStart => s.(inYield := true, busy := true, yielding := true)
    case WorkEnds => s.(yielding := false)
    case WorkerRests => s.(busy := false)
    case YieldEnd => s.(inYield := false, live := s.unhandled + s.live, unhandled := [])
  }

  lemma StaysOk(s: State, e: Event)
    requires Ok(s) && Enabled(s, e)
    ensures Ok(Apply(s, e))
  {
    if e.Post? {
      WithoutIsAbsent(s.deferred, e.task.target);
    }
  }

  /** A yield never gets stuck in the queue: work() can return, or the worker answers or rests, or the yield ends; and
      when no yield is in progress, the next task can be taken or the one taken can be answered. */
  lemma NeverBlocked(s: State)
    requires Ok(s)
    ensures s.inYield ==>
      Enabled(s, WorkEnds) || Enabled(s, Accept) || Enabled(s, Decline) || Enabled(s, WorkerRests) ||
      Enabled(s, YieldEnd)
    ensures !s.inYield ==> s.live == [] || Enabled(s, Take) || (Enabled(s, Accept) && !Enabled(s, Decline))
    ensures s.busy && s.live != [] && s.inFlight == [] ==> Enabled(s, Take)
    ensures !s.inYield && s.inFlight == [] ==> Enabled(s, YieldStart)
    ensures s.inYield && !s.busy && !s.yielding ==> Enabled(s, YieldEnd)
  {
  }

  // ---- the order of the tasks that change slots ----

  function Changing(q: seq<Task>): (r: seq<Task>) {
    if q == [] then [] else (if ReadsOnly(q[0]) then [] else [q[0]]) + Changing(q[1..])
  }

  /** Everything but a request for metrics or for the state of the slots counts as a change. */
  lemma {:induction false} ChangingExactly(q: seq<Task>, t: Task)
    ensures t in Changing(q) <==> t in q && t.kind != Metrics && t.kind != SlotGet
  {
    if q != [] {
      ChangingExactly(q[1..], t);
      assert q == [q[0]] + q[1..];
    }
  }

  lemma {:induction false} ChangingConcat(a: seq<Task>, b: seq<Task>)
    ensures Changing(a + b) == Changing(a) + Changing(b)
  {
    if a == [] {
      assert a + b == b;
    } else {
      assert (a + b)[1..] == a[1..] + b;
      ChangingConcat(a[1..], b);
    }
  }

  lemma {:induction false} WithoutConcat(a: seq<Task>, b: seq<Task>, id: int)
    ensures Without(a + b, id) == Without(a, id) + Without(b, id)
  {
    if a == [] {
      assert a + b == b;
    } else {
      assert (a + b)[1..] == a[1..] + b;
      WithoutConcat(a[1..], b, id);
    }
  }

  lemma {:induction false} ChangingWithout(q: seq<Task>, id: int)
    ensures Changing(Without(q, id)) == Without(Changing(q), id)
  {
    if q != [] {
      ChangingWithout(q[1..], id);
      ChangingConcat(if q[0].id == id then [] else [q[0]], Without(q[1..], id));
      WithoutConcat(if ReadsOnly(q[0]) then [] else [q[0]], Changing(q[1..]), id);
    }
  }

  /** What the worker is being offered, when it could change a slot. */
  function Held(s: State): seq<Task> {
    if s.busy then Changing(s.inFlight) else []
  }

  /** Declined tasks and the worker's, the ones a front post cannot get ahead of. */
  function Ahead(s: State): seq<Task> {
    Changing(s.unhandled) + Held(s)
  }

  /** Slot-changing tasks that wait, in the order in which they will be processed. */
  function Logical(s: State): seq<Task> {
    Ahead(s) + Changing(s.live)
  }

  // ---- the same queue when nobody yields ----

  /** Its slot-changing tasks: those that wait, the one the main thread has taken, and those put aside. */
  datatype Plain = Plain(queue: seq<Task>, taken: seq<Task>, deferred: seq<Task>)

  datatype Move =
    | Arrives(task: Task, front: bool)
    | Begins                  // the main thread takes the first task
    | Ends                    // and is done with it
    | PutAside                // or puts it aside
    | Returns(slot: int)      // a task put aside comes back to the front
    | Stays

  function Moved(p: Plain, m: Move): Plain {
    match m
    case Arrives(t, front) =>
      var queue := if t.kind == Cancel then Without(p.queue, t.target) else p.queue;
      p.(queue := if front then Changing([t]) + queue else queue + Changing([t]),
         deferred := if t.kind == Cancel then Without(p.deferred, t.target) else p.deferred)
    case Begins => if p.queue == [] then p else p.(queue := p.queue[1..], taken := [p.queue[0]])
    case Ends => p.(taken := [])
    case PutAside => p.(taken := [], deferred := p.deferred + p.taken)
    case Returns(slot) =>
      if p.deferred == [] then p
      else
        var i := FirstFor(p.deferred, slot);
        p.(queue := [p.deferred[i]] + p.queue, deferred := p.deferred[..i] + p.deferred[i + 1..])
    case Stays => p
  }

  /** The state with its yield left out. */
  function AsPlain(s: State): Plain {
    Plain(Logical(s), if s.busy then [] else Changing(s.inFlight), s.deferred)
  }

  /** The event with the yield left out: what the worker does, and the yield itself, are nothing. */
  function MoveOf(s: State, e: Event): Move
    requires Enabled(s, e)
  {
    match e
    case Post(t, front) => Arrives(t, front)
    case Take => if s.busy || ReadsOnly(s.live[0]) then Stays else Begins
    case Accept => if s.busy || ReadsOnly(s.inFlight[0]) then Stays else Ends
    case Defer => PutAside
    case PopDeferred(slot) => Returns(slot)
    case _ => Stays
  }

  /** Nothing declined or offered to the worker stands in the way of a task that comes to the front, and a cancel does
      not aim at what the worker is being offered. */
  predicate Unobstructed(s: State, e: Event) {
    match e
    case Post(t, front) =>
      (front && !ReadsOnly(t) ==> Ahead(Cleaned(s, t)) == []) && (t.kind == Cancel ==> Spares(s, t))
    case PopDeferred(slot) => s.deferred == [] || Ahead(s) == []
    case _ => true
  }

  predicate Spares(s: State, t: Task) {
    Without(Held(s), t.target) == Held(s)
  }

  /** One event refines the queue without yields. */
  lemma RefinesPlain(s: State, e: Event)
    requires Ok(s) && Enabled(s, e) && Unobstructed(s, e)
    ensures AsPlain(Apply(s, e)) == Moved(AsPlain(s), MoveOf(s, e))
  {
    if e.Post? {
      PostRefines(s, e.task, e.front);
    } else if e.PopDeferred? {
      PopRefines(s, e.slot);
    } else if e.Take? {
      TakeRefines(s);
    } else if e.Accept? || e.Defer? {
      AnswerRefines(s, e);
    } else {
      YieldRefines(s, e);
    }
  }

  lemma TakeRefines(s: State)
    requires Ok(s) && Enabled(s, Take)
    ensures AsPlain(Apply(s, Take)) == Moved(AsPlain(s), MoveOf(s, Take))
  {
    hide Changing;
    NoneChanging();
    FirstChanging(s.live);
    var first, rest := Changing([s.live[0]]), Changing(s.live[1..]);
    JustThis(s.live[0]);
    if s.busy {
      assert Changing(s.unhandled) + [] + (first + rest) == Changing(s.unhandled) + first + rest;
    } else {
      assert [] + [] + (first + rest) == first + rest && (first != [] ==> (first + rest)[1..] == rest);
    }
  }

  lemma FirstChanging(q: seq<Task>)
    requires q != []
    ensures Changing(q) == Changing([q[0]]) + Changing(q[1..])
  {
    JustThis(q[0]);
  }

  lemma AnswerRefines(s: State, e: Event)
    requires Ok(s) && Enabled(s, e) && (e == Accept || e == Defer)
    ensures AsPlain(Apply(s, e)) == Moved(AsPlain(s), MoveOf(s, e))
  {
    assert s.inFlight == [s.inFlight[0]];
    JustThis(s.inFlight[0]);
  }

  lemma YieldRefines(s: State, e: Event)
    requires Ok(s) && Enabled(s, e) && (e.Decline? || e.YieldStart? || e.WorkEnds? || e.WorkerRests? || e.YieldEnd?)
    ensures AsPlain(Apply(s, e)) == AsPlain(s)
  {
    hide Changing;
    if e.Decline? {
      ChangingConcat(s.unhandled, s.inFlight);
      NoneChanging();
    } else if e.YieldEnd? {
      ChangingConcat(s.unhandled, s.live);
      NoneChanging();
    } else {
      NoneChanging();
    }
  }

  lemma NoneChanging()
    ensures Changing([]) == []
  {
  }

  lemma PopRefines(s: State, slot: int)
    requires Ok(s) && Unobstructed(s, PopDeferred(slot))
    ensures AsPlain(Apply(s, PopDeferred(slot))) == Moved(AsPlain(s), Returns(slot))
  {
    hide Changing;
    if s.deferred != [] {
      var t := s.deferred[FirstFor(s.deferred, slot)];
      assert t in s.deferred;
      JustThis(t);
      FrontRefines(Ahead(s), t, s.live);
    }
  }

  /** At the front of the live queue, with nothing slot-changing ahead of it, is at the front. */
  lemma FrontRefines(ahead: seq<Task>, t: Task, live: seq<Task>)
    requires ReadsOnly(t) || ahead == []
    ensures ahead + Changing([t] + live) == Changing([t]) + (ahead + Changing(live))
  {
    hide Changing;
    ChangingConcat([t], live);
    JustThis(t);
    if ReadsOnly(t) {
      assert [] + Changing(live) == Changing(live);
    } else {
      assert [] + Changing(live) == Changing(live) && [] + ([t] + Changing(live)) == [t] + ([] + Changing(live));
    }
  }

  lemma PostRefines(s: State, t: Task, front: bool)
    requires Unobstructed(s, Post(t, front))
    ensures AsPlain(Apply(s, Post(t, front))) == Moved(AsPlain(s), Arrives(t, front))
  {
    hide Changing;
    var c := Cleaned(s, t);
    CleanRefines(s, t);
    if front {
      FrontRefines(Ahead(c), t, c.live);
      JustThis(t);
    } else {
      ChangingConcat(c.live, [t]);
      assert Ahead(c) + (Changing(c.live) + Changing([t])) == Logical(c) + Changing([t]);
    }
  }

  lemma CleanRefines(s: State, t: Task)
    requires t.kind == Cancel ==> Spares(s, t)
    ensures Logical(Cleaned(s, t)) == if t.kind == Cancel then Without(Logical(s), t.target) else Logical(s)
  {
    hide Changing;
    if t.kind == Cancel {
      CleanParts(s, t);
    }
  }

  lemma CleanParts(s: State, t: Task)
    requires t.kind == Cancel
    ensures Logical(Cleaned(s, t)) ==
            Without(Changing(s.unhandled), t.target) + Held(s) + Without(Changing(s.live), t.target)
    ensures Without(Logical(s), t.target) ==
            Without(Changing(s.unhandled), t.target) + Without(Held(s), t.target) + Without(Changing(s.live), t.target)
  {
    hide Changing;
    ChangingWithout(s.live, t.target);
    ChangingWithout(s.unhandled, t.target);
    WithoutConcat(Changing(s.unhandled), Held(s), t.target);
    WithoutConcat(Ahead(s), Changing(s.live), t.target);
  }

  lemma JustThis(t: Task)
    ensures Changing([t]) == if ReadsOnly(t) then [] else [t]
  {
  }

  /** A slot-changing task that the main thread takes is the first of the queue without yields. */
  lemma TakenInOrder(s: State)
    requires Ok(s) && Enabled(s, Take) && !s.busy && !ReadsOnly(s.live[0])
    ensures AsPlain(s).queue != [] && Apply(s, Take).inFlight == [AsPlain(s).queue[0]]
  {
    FirstChanging(s.live);
    JustThis(s.live[0]);
  }

  // ---- whole runs ----

  predicate Possible(s: State, es: seq<Event>)
    decreases |es|
  {
    es == [] || (Enabled(s, es[0]) && Possible(Apply(s, es[0]), es[1..]))
  }

  function Run(s: State, es: seq<Event>): State
    requires Possible(s, es)
    decreases |es|
  {
    if es == [] then s else Run(Apply(s, es[0]), es[1..])
  }

  predicate RunUnobstructed(s: State, es: seq<Event>)
    requires Possible(s, es)
    decreases |es|
  {
    es == [] || (Unobstructed(s, es[0]) && RunUnobstructed(Apply(s, es[0]), es[1..]))
  }

  /** The moves of a run, with its yields left out. */
  function MovesOf(s: State, es: seq<Event>): seq<Move>
    requires Possible(s, es)
    decreases |es|
  {
    if es == [] then [] else [MoveOf(s, es[0])] + MovesOf(Apply(s, es[0]), es[1..])
  }

  function PlainRun(p: Plain, ms: seq<Move>): Plain
    decreases |ms|
  {
    if ms == [] then p else PlainRun(Moved(p, ms[0]), ms[1..])
  }

  /** Yielding is transparent: after any interleaving of posts with the worker and the yields, the slot-changing tasks
      that wait, the one being processed and those put aside are the ones of a queue that never yielded. */
  lemma {:induction false} YieldingIsTransparent(s: State, es: seq<Event>)
    requires Ok(s) && Possible(s, es) && RunUnobstructed(s, es)
    ensures Ok(Run(s, es)) && AsPlain(Run(s, es)) == PlainRun(AsPlain(s), MovesOf(s, es))
    ensures !Run(s, es).inYield ==>
      Plain(Changing(Run(s, es).live), Changing(Run(s, es).inFlight), Run(s, es).deferred) ==
      PlainRun(AsPlain(s), MovesOf(s, es))
    decreases |es|
  {
    if es != [] {
      StaysOk(s, es[0]);
      RefinesPlain(s, es[0]);
      YieldingIsTransparent(Apply(s, es[0]), es[1..]);
      PlainStep(AsPlain(s), MoveOf(s, es[0]), MovesOf(Apply(s, es[0]), es[1..]));
    }
  }

  lemma PlainStep(p: Plain, m: Move, ms: seq<Move>)
    ensures PlainRun(p, [m] + ms) == PlainRun(Moved(p, m), ms)
  {
    assert ([m] + ms)[1..] == ms;
  }

  /** A run without yields is the queue without yields: nothing in it is ever obstructed. */
  lemma {:induction false} NothingObstructedWithoutYields(s: State, es: seq<Event>)
    requires Ok(s) && !s.inYield && Possible(s, es) && YieldStart !in es
    ensures RunUnobstructed(s, es)
    decreases |es|
  {
    if es != [] {
      StaysOk(s, es[0]);
      assert es[0] in es && !Apply(s, es[0]).inYield;
      NothingObstructedWithoutYields(Apply(s, es[0]), es[1..]);
    }
  }

  // ---- no task is lost or duplicated ----

  function All(s: State): multiset<Task> {
    multiset(s.live) + multiset(s.deferred) + multiset(s.unhandled) + multiset(s.inFlight)
  }

  /** The tasks of a queue that a cancel aims at. */
  function Only(q: seq<Task>, id: int): (r: seq<Task>)
    ensures forall t :: t in r ==> t.id == id
  {
    if q == [] then [] else (if q[0].id == id then [q[0]] else []) + Only(q[1..], id)
  }

  lemma {:induction false} SplitById(q: seq<Task>, id: int)
    ensures multiset(q) == multiset(Without(q, id)) + multiset(Only(q, id))
  {
    if q != [] {
      SplitById(q[1..], id);
      assert q == [q[0]] + q[1..];
    }
  }

  function Added(e: Event): multiset<Task> {
    if e.Post? then multiset{e.task} else multiset{}
  }

  /** Tasks leave when they are accepted, or when a cancel for their id finds them in a queue. */
  function Removed(s: State, e: Event): multiset<Task>
    requires Enabled(s, e)
  {
    match e
    case Accept => multiset(s.inFlight)
    case Post(t, front) =>
      if t.kind != Cancel then multiset{}
      else multiset(Only(s.live, t.target)) + multiset(Only(s.deferred, t.target)) +
           multiset(Only(s.unhandled, t.target))
    case _ => multiset{}
  }

  lemma Conserved(s: State, e: Event)
    requires Ok(s) && Enabled(s, e)
    ensures All(Apply(s, e)) + Removed(s, e) == All(s) + Added(e)
  {
    match e
    case Post(t, front) => PostConserved(s, t, front);
    case Take =>
      assert s.live == [s.live[0]] + s.live[1..];
      SameSum(multiset(s.live[1..]), multiset(s.deferred), multiset(s.unhandled), multiset([s.live[0]]));
    case Accept =>
    case Decline => SameSum(multiset(s.unhandled), multiset(s.live), multiset(s.deferred), multiset(s.inFlight));
    case Defer => SameSum(multiset(s.deferred), multiset(s.live), multiset(s.unhandled), multiset(s.inFlight));
    case PopDeferred(slot) => PopConserved(s, slot);
    case YieldEnd => SameSum(multiset(s.live), multiset(s.deferred), multiset(s.inFlight), multiset(s.unhandled));
    case _ =>
  }

  /** x can be counted with the first of the others as well as on its own. */
  lemma SameSum(a: multiset<Task>, b: multiset<Task>, c: multiset<Task>, x: multiset<Task>)
    ensures a + b + c + x == (x + a) + b + c == (a + x) + b + c
    ensures b + a + c + x == b + (a + x) + c && b + c + a + x == b + c + (a + x)
    ensures (x + a) + b + c == a + b + x + c
  {
  }

  lemma PopConserved(s: State, slot: int)
    ensures All(Apply(s, PopDeferred(slot))) == All(s)
  {
    if s.deferred != [] {
      var i := FirstFor(s.deferred, slot);
      var x, rest := s.deferred[i], s.deferred[..i] + s.deferred[i + 1..];
      assert s.deferred == s.deferred[..i] + [x] + s.deferred[i + 1..];
      assert multiset(s.deferred) == multiset(rest) + multiset{x};
      assert multiset([x] + s.live) == multiset{x} + multiset(s.live);
      PopSum(multiset(s.live), multiset(rest), multiset(s.unhandled), multiset(s.inFlight), multiset{x});
    }
  }

  lemma PopSum(a: multiset<Task>, b: multiset<Task>, c: multiset<Task>, f: multiset<Task>, x: multiset<Task>)
    ensures (x + a) + b + c + f == a + (b + x) + c + f
  {
  }

  lemma PostConserved(s: State, t: Task, front: bool)
    ensures All(Apply(s, Post(t, front))) + Removed(s, Post(t, front)) == All(s) + multiset{t}
  {
    var c := Cleaned(s, t);
    CleanConserved(s, t);
    assert multiset([t] + c.live) == multiset(c.live + [t]) == multiset(c.live) + multiset{t};
    PostSum(multiset(c.live), multiset(c.deferred), multiset(c.unhandled), multiset(c.inFlight), multiset{t},
            Removed(s, Post(t, front)));
  }

  lemma PostSum(a: multiset<Task>, b: multiset<Task>, c: multiset<Task>, f: multiset<Task>, x: multiset<Task>,
                r: multiset<Task>)
    ensures (a + x + b + c + f) + r == (a + b + c + f + r) + x
  {
  }

  lemma CleanConserved(s: State, t: Task)
    ensures All(Cleaned(s, t)) + Removed(s, Post(t, true)) == All(s)
    ensures Removed(s, Post(t, true)) == Removed(s, Post(t, false))
  {
    if t.kind == Cancel {
      SplitById(s.live, t.target);
      SplitById(s.deferred, t.target);
      SplitById(s.unhandled, t.target);
      SevenParts(multiset(Without(s.live, t.target)), multiset(Only(s.live, t.target)),
                 multiset(Without(s.deferred, t.target)), multiset(Only(s.deferred, t.target)),
                 multiset(Without(s.unhandled, t.target)), multiset(Only(s.unhandled, t.target)), multiset(s.inFlight));
    }
  }

  lemma SevenParts(a: multiset<Task>, a': multiset<Task>, b: multiset<Task>, b': multiset<Task>,
                   c: multiset<Task>, c': multiset<Task>, f: multiset<Task>)
    ensures (a + b + c + f) + (a' + b' + c') == (a + a') + (b + b') + (c + c') + f
  {
  }

  function RunAdded(es: seq<Event>): multiset<Task> {
    if es == [] then multiset{} else Added(es[0]) + RunAdded(es[1..])
  }

  function RunRemoved(s: State, es: seq<Event>): multiset<Task>
    requires Possible(s, es)
    decreases |es|
  {
    if es == [] then multiset{} else Removed(s, es[0]) + RunRemoved(Apply(s, es[0]), es[1..])
  }

  lemma {:induction false} RunConserved(s: State, es: seq<Event>)
    requires Ok(s) && Possible(s, es)
    ensures All(Run(s, es)) + RunRemoved(s, es) == All(s) + RunAdded(es)
    decreases |es|
  {
    hide All, Removed, Added;
    if es != [] {
      StaysOk(s, es[0]);
      Conserved(s, es[0]);
      var s' := Apply(s, es[0]);
      RunConserved(s', es[1..]);
      Telescope(All(s), Added(es[0]), Removed(s, es[0]), All(s'), RunAdded(es[1..]), RunRemoved(s', es[1..]),
                All(Run(s, es)));
    }
  }

  lemma Telescope(a: multiset<Task>, plus: multiset<Task>, minus: multiset<Task>, b: multiset<Task>,
                  plus': multiset<Task>, minus': multiset<Task>, c: multiset<Task>)
    requires b + minus == a + plus && c + minus' == b + plus'
    ensures c + (minus + minus') == a + (plus + plus')
  {
    forall t: Task ensures (c + (minus + minus'))[t] == (a + (plus + plus'))[t] {
      assert (b + minus)[t] == (a + plus)[t] && (c + minus')[t] == (b + plus')[t];
    }
  }

  // ---- exactly when the order is kept ----

  /** Every task is there once. */
  ghost predicate Distinct(s: State) {
    forall t :: All(s)[t] <= 1
  }

  /** A posted task is new. */
  ghost predicate NewPost(s: State, e: Event) {
    e.Post? ==> e.task !in All(s)
  }

  lemma StaysDistinct(s: State, e: Event)
    requires Ok(s) && Enabled(s, e) && Distinct(s) && NewPost(s, e)
    ensures Distinct(Apply(s, e))
  {
    hide All, Removed;
    Conserved(s, e);
    forall t ensures All(Apply(s, e))[t] <= 1 {
      assert (All(Apply(s, e)) + Removed(s, e))[t] == (All(s) + Added(e))[t];
    }
  }

  /** Every event acts as on a queue that never yields exactly when it is unobstructed: a slot-changing task comes to
      the front (posted, a cancel included, or no longer put aside) only with nothing declined or offered to the worker
      ahead, and a cancel does not aim at what the worker is being offered. */
  lemma RefinesExactly(s: State, e: Event)
    requires Ok(s) && Enabled(s, e) && Distinct(s) && NewPost(s, e)
    ensures AsPlain(Apply(s, e)) == Moved(AsPlain(s), MoveOf(s, e)) <==> Unobstructed(s, e)
  {
    hide AsPlain, Moved, Unobstructed;
    if Unobstructed(s, e) {
      RefinesPlain(s, e);
    } else if e.Post? {
      PostObstructed(s, e.task, e.front);
    } else {
      OthersUnobstructed(s, e);
      PopObstructed(s, e.slot);
    }
  }

  lemma OthersUnobstructed(s: State, e: Event)
    ensures !Unobstructed(s, e) ==> e.Post? || e.PopDeferred?
  {
  }

  lemma {:induction false} ChangingIn(q: seq<Task>, t: Task)
    requires t in Changing(q)
    ensures t in q && !ReadsOnly(t)
  {
    if q != [] && (ReadsOnly(q[0]) || t != q[0]) {
      ChangingIn(q[1..], t);
    }
  }

  lemma AheadIn(s: State, t: Task)
    requires t in Ahead(s)
    ensures t in s.unhandled || t in s.inFlight
  {
    if t in Changing(s.unhandled) {
      ChangingIn(s.unhandled, t);
    } else {
      ChangingIn(s.inFlight, t);
    }
  }

  lemma {:induction false} WithoutShorter(q: seq<Task>, id: int)
    ensures |Without(q, id)| <= |q| && (|Without(q, id)| == |q| <==> Without(q, id) == q)
  {
    if q != [] {
      WithoutShorter(q[1..], id);
    }
  }

  /** A cancel that aims at the worker's task leaves it where a queue without yields would have dropped it. */
  lemma CleanObstructed(s: State, t: Task)
    requires t.kind == Cancel && !Spares(s, t)
    ensures |Logical(Cleaned(s, t))| > |Without(Logical(s), t.target)|
  {
    hide Changing;
    CleanParts(s, t);
    WithoutShorter(Held(s), t.target);
  }

  lemma PostObstructed(s: State, t: Task, front: bool)
    requires NewPost(s, Post(t, front)) && !Unobstructed(s, Post(t, front))
    ensures AsPlain(Apply(s, Post(t, front))).queue != Moved(AsPlain(s), Arrives(t, front)).queue
  {
    hide Changing;
    var c := Cleaned(s, t);
    ChangingConcat([t], c.live);
    ChangingConcat(c.live, [t]);
    if t.kind == Cancel && !Spares(s, t) {
      CleanObstructed(s, t);
    } else {
      NewIsNotAhead(s, t);
      JustThis(t);
      assert Logical(Apply(s, Post(t, front)))[0] == Ahead(c)[0];
    }
  }

  lemma NewIsNotAhead(s: State, t: Task)
    requires t !in All(s)
    ensures t !in Ahead(Cleaned(s, t))
  {
    WithoutIsAbsent(s.unhandled, t.target);
    if t in Ahead(Cleaned(s, t)) {
      AheadIn(Cleaned(s, t), t);
    }
  }

  lemma PopObstructed(s: State, slot: int)
    requires Ok(s) && Distinct(s) && !Unobstructed(s, PopDeferred(slot))
    ensures AsPlain(Apply(s, PopDeferred(slot))) != Moved(AsPlain(s), Returns(slot))
  {
    hide Changing;
    var t := s.deferred[FirstFor(s.deferred, slot)];
    assert t in s.deferred;
    if t in Ahead(s) {
      AheadIn(s, t);
      OnceOnly(s, t);
    }
    JustThis(t);
    ChangingConcat([t], s.live);
    assert Logical(Apply(s, PopDeferred(slot)))[0] == Ahead(s)[0];
  }

  lemma OnceOnly(s: State, t: Task)
    requires Distinct(s) && t in s.deferred
    ensures t !in s.unhandled && t !in s.inFlight
  {
    assert All(s)[t] <= 1;
    assert multiset(s.deferred)[t] >= 1;
    assert t in s.unhandled ==> multiset(s.unhandled)[t] >= 1;
    assert t in s.inFlight ==> multiset(s.inFlight)[t] >= 1;
  }

  /** A slot-changing task posted to the front, a cancel included, goes first exactly when nothing declined or offered
      to the worker is left ahead after its clean-up, and that did not miss the worker's task. */
  lemma FrontPostExact(s: State, t: Task)
    requires Ok(s) && NewPost(s, Post(t, true)) && !ReadsOnly(t)
    ensures
      Logical(Apply(s, Post(t, true))) ==
        [t] + (if t.kind == Cancel then Without(Logical(s), t.target) else Logical(s)) <==>
      Ahead(Cleaned(s, t)) == [] && (t.kind == Cancel ==> Spares(s, t))
  {
    JustThis(t);
    if Unobstructed(s, Post(t, true)) {
      PostRefines(s, t, true);
    } else {
      PostObstructed(s, t, true);
    }
  }

  /** The posts of a run are new tasks. */
  ghost predicate NewPosts(s: State, es: seq<Event>)
    requires Possible(s, es)
    decreases |es|
  {
    es == [] || (NewPost(s, es[0]) && NewPosts(Apply(s, es[0]), es[1..]))
  }

  /** All along the run the slot-changing tasks are those of a queue that never yields. */
  predicate AlwaysPlain(s: State, p: Plain, es: seq<Event>)
    requires Possible(s, es)
    decreases |es|
  {
    AsPlain(s) == p && (es == [] || AlwaysPlain(Apply(s, es[0]), Moved(p, MoveOf(s, es[0])), es[1..]))
  }

  /** A run from distinct tasks, with new posts, is a run of a queue that never yields, all along, exactly when no event
      of it is obstructed. */
  lemma {:induction false} RunIsPlainExactly(s: State, es: seq<Event>)
    requires Ok(s) && Distinct(s) && Possible(s, es) && NewPosts(s, es)
    ensures AlwaysPlain(s, AsPlain(s), es) <==> RunUnobstructed(s, es)
    decreases |es|
  {
    hide AsPlain, Moved, Unobstructed;
    if es != [] {
      StaysOk(s, es[0]);
      StaysDistinct(s, es[0]);
      RefinesExactly(s, es[0]);
      RunIsPlainExactly(Apply(s, es[0]), es[1..]);
    }
  }

  /** A run as it happens: a task is posted, offered during a yield and declined; the cancel of another request, posted
      to the front as the server does, then stands behind it. */
  lemma CancelLandsBehind(t: Task, c: Task)
    requires t.kind == Other && c.kind == Cancel && c.target != t.id
    ensures var s := State([], [], [], [], false, false, false);
      var es := [Post(t, false), YieldStart, Take, Decline, Post(c, true)];
      Possible(s, es) && Logical(Run(s, es)) == [t, c] &&
      PlainRun(AsPlain(s), MovesOf(s, es)) == Plain([c, t], [], [])
  {
    var s0 := State([], [], [], [], false, false, false);
    var s1 := State([t], [], [], [], false, false, false);
    var s2 := State([t], [], [], [], true, true, true);
    var s3 := State([], [], [], [t], true, true, true);
    var s4 := State([], [], [t], [], true, true, true);
    assert Apply(s0, Post(t, false)) == s1 && Apply(s1, YieldStart) == s2 && Apply(s2, Take) == s3;
    assert Apply(s3, Decline) == s4;
    DeclinedAhead(s4, t, c);
    var p := Plain([t], [], []);
    hide Moved, MoveOf, Apply;
    FirstArrives(s0, s1, t);
    NothingMoves(p, s1, YieldStart);
    NothingMoves(p, s2, Take);
    NothingMoves(p, s3, Decline);
    OneStep(p, s4, Post(c, true), []);
    OneStep(p, s3, Decline, [Post(c, true)]);
    OneStep(p, s2, Take, [Decline, Post(c, true)]);
    OneStep(p, s1, YieldStart, [Take, Decline, Post(c, true)]);
    OneStep(Plain([], [], []), s0, Post(t, false), [YieldStart, Take, Decline, Post(c, true)]);
  }

  lemma FirstArrives(s: State, s': State, t: Task)
    requires t.kind == Other && s == State([], [], [], [], false, false, false) && s' == s.(live := [t])
    ensures AsPlain(s) == Plain([], [], []) && Moved(Plain([], [], []), MoveOf(s, Post(t, false))) == Plain([t], [], [])
  {
    JustThis(t);
  }

  lemma NothingMoves(p: Plain, s: State, e: Event)
    requires Enabled(s, e) && (e.YieldStart? || e.Decline? || (e.Take? && s.busy))
    ensures Moved(p, MoveOf(s, e)) == p
  {
  }

  lemma DeclinedAhead(s: State, t: Task, c: Task)
    requires t.kind == Other && c.kind == Cancel && c.target != t.id
    requires s == State([], [], [t], [], true, true, true)
    ensures Logical(Apply(s, Post(c, true))) == [t, c]
    ensures Moved(Plain([t], [], []), MoveOf(s, Post(c, true))) == Plain([c, t], [], [])
  {
    JustThis(t);
    JustThis(c);
    assert Without([t], c.target) == [t];
    assert Apply(s, Post(c, true)).unhandled == [t] && Apply(s, Post(c, true)).live == [c];
  }

  // ---- cancelled tasks ----

  predicate AbsentFrom(q: seq<Task>, id: int) {
    forall t :: t in q ==> t.id != id
  }

  predicate Absent(s: State, id: int) {
    AbsentFrom(s.live, id) && AbsentFrom(s.deferred, id) && AbsentFrom(s.unhandled, id) && AbsentFrom(s.inFlight, id)
  }

  lemma {:induction false} WithoutIsAbsent(q: seq<Task>, id: int)
    ensures AbsentFrom(Without(q, id), id)
    ensures forall t :: t in Without(q, id) <==> t in q && t.id != id
  {
    if q != [] {
      WithoutIsAbsent(q[1..], id);
    }
  }

  /** A cancel leaves no task with its id in any queue; and nothing of it at all exactly when none is being offered. */
  lemma CancelRemoves(s: State, t: Task, front: bool)
    requires t.kind == Cancel && t.id != t.target
    ensures var c := Apply(s, Post(t, front));
      AbsentFrom(c.live, t.target) && AbsentFrom(c.deferred, t.target) && AbsentFrom(c.unhandled, t.target) &&
      (Absent(c, t.target) <==> AbsentFrom(s.inFlight, t.target))
  {
    WithoutIsAbsent(s.live, t.target);
    WithoutIsAbsent(s.deferred, t.target);
    WithoutIsAbsent(s.unhandled, t.target);
  }

  lemma StaysAbsent(s: State, e: Event, id: int)
    requires Enabled(s, e) && Absent(s, id) && (e.Post? ==> e.task.id != id)
    ensures Absent(Apply(s, e), id)
  {
    if e.Post? {
      WithoutIsAbsent(s.live, e.task.target);
      WithoutIsAbsent(s.deferred, e.task.target);
      WithoutIsAbsent(s.unhandled, e.task.target);
    }
  }

  /** A task that is gone is never offered again, unless it is posted again. */
  lemma {:induction false} NeverOffered(s: State, es: seq<Event>, id: int)
    requires Possible(s, es) && Absent(s, id)
    requires forall i :: 0 <= i < |es| && es[i].Post? ==> es[i].task.id != id
    ensures Absent(Run(s, es), id)
    decreases |es|
  {
    if es != [] {
      StaysAbsent(s, es[0], id);
      NeverOffered(Apply(s, es[0]), es[1..], id);
    }
  }

  /** A cancel misses the task being offered: deferred afterwards, it is offered again when the cancel itself has long
      been processed. */
  lemma CancelMisses(t: Task, c: Task, slot: int)
    requires t.kind == Other && c.kind == Cancel && c.target == t.id && c.id != t.id
    ensures var s := State([t], [], [], [], false, false, false);
      var es := [Take, Post(c, true), Defer, Take, Accept, PopDeferred(slot), Take];
      Possible(s, es) && Run(s, es).inFlight == [t]
  {
    var s0 := State([t], [], [], [], false, false, false);
    var s1 := Apply(s0, Take);
    var s2 := Apply(s1, Post(c, true));
    var s3 := Apply(s2, Defer);
    var s4 := Apply(s3, Take);
    var s5 := Apply(s4, Accept);
    var s6 := Apply(s5, PopDeferred(slot));
    assert s6.live == [t];
    hide Moved, MoveOf;
    OneStep(Plain([], [], []), s6, Take, []);
    OneStep(Plain([], [], []), s5, PopDeferred(slot), [Take]);
    OneStep(Plain([], [], []), s4, Accept, [PopDeferred(slot), Take]);
    OneStep(Plain([], [], []), s3, Take, [Accept, PopDeferred(slot), Take]);
    OneStep(Plain([], [], []), s2, Defer, [Take, Accept, PopDeferred(slot), Take]);
    OneStep(Plain([], [], []), s1, Post(c, true), [Defer, Take, Accept, PopDeferred(slot), Take]);
    OneStep(Plain([], [], []), s0, Take, [Post(c, true), Defer, Take, Accept, PopDeferred(slot), Take]);
  }

  lemma OneStep(p: Plain, s: State, e: Event, rest: seq<Event>)
    requires Enabled(s, e) && Possible(Apply(s, e), rest)
    ensures Possible(s, [e] + rest) && Run(s, [e] + rest) == Run(Apply(s, e), rest)
    ensures PlainRun(p, MovesOf(s, [e] + rest)) == PlainRun(Moved(p, MoveOf(s, e)), MovesOf(Apply(s, e), rest))
  {
    assert ([e] + rest)[1..] == rest;
    PlainStep(p, MoveOf(s, e), MovesOf(Apply(s, e), rest));
  }
}
