/** The slot loop of the server (server-context.cpp, update_slots): one pass shifts contexts, builds a batch
    from all slots, decodes it in sub-batches with retries, and hands the outputs back. */
module UpdateSlots {
  import opened KvMemory
  import opened SlotState
  import opened PostDecode
  import opened DecodeLoop
  import Generation
  import PromptSteps
  import ContextShift

  lemma PurgedGood(s: Slot, id: nat, batch: seq<Entry>, off: nat, nCtx: int, ctxShift: bool, model: Model)
    requires off <= |batch| && s.phase == Idle && Good(s, id, batch, off, nCtx, ctxShift, model)
    ensures Good(PromptClear(s), id, batch, off, nCtx, ctxShift, model)
  {
  }

  lemma OtherStaysGood(s: Slot, i: nat, batch: seq<Entry>, batch': seq<Entry>, k: nat, nCtx: int, ctxShift: bool,
                       model: Model)
    requires Good(s, i, batch, 0, nCtx, ctxShift, model) && Appended(batch, batch', k) && i != k
    ensures Good(s, i, batch', 0, nCtx, ctxShift, model) && Mine(batch', i) == Mine(batch, i)
  {
    hide Synced, PhaseOk, RoomOk, Lossless, Told;
    assert batch'[0..] == batch' && batch[0..] == batch;
    AppendedMine(batch, batch', k, i, 0);
    assert Mine(batch, i) + [] == Mine(batch, i);
    AppendedPhaseOk(s, i, batch, batch', k, nCtx);
  }

  /** The kind of the first generating slot: only slots it can be batched with join the batch. */
  function LeadKind(slots: seq<Slot>): int {
    if slots == [] then 0 else if slots[0].phase == Generating then slots[0].task.kind else LeadKind(slots[1..])
  }

  lemma {:induction false} FirstLeads(ss: seq<Slot>, f: nat)
    requires f < |ss| && ss[f].phase == Generating && forall j :: 0 <= j < f ==> ss[j].phase != Generating
    ensures LeadKind(ss) == ss[f].task.kind
  {
    if f > 0 {
      FirstLeads(ss[1..], f - 1);
    }
  }

  /** The next token still fits. */
  predicate RoomForOne(s: Slot, nCtx: int, ctxShift: bool) {
    s.phase == Generating && (s.task.nDiscard >= 0 || !ctxShift) ==> |s.tokens| + 1 < nCtx
  }

  /** Entering the batch decides nothing new. */
  lemma EnteredLossless(model: Model, s: Slot, r: Slot)
    requires s.phase == Generating && !Waiting(s) && Lossless(model, s)
    requires r.phase == Generating && Waiting(r) && r.task == s.task && r.truncated == s.truncated
    requires r.history == s.history
    requires r.tokens == s.tokens + [s.sampled] + r.draft
    ensures Lossless(model, r)
  {
  }

  /** A finished prompt is the decided text so far. */
  lemma FedLossless(model: Model, r: Slot)
    requires r.draft == [] && (r.phase == DonePrompt || r.phase == ProcessingPrompt)
    requires r.phase == DonePrompt ==> r.tokens == r.task.prompt && r.history == r.task.prompt
    ensures Lossless(model, r)
  {
  }

  lemma SameText(s: Slot, s': Slot, model: Model, nCtx: int, ctxShift: bool)
    requires s' == s.(mem := s'.mem) && Lossless(model, s) && RoomOk(s, nCtx, ctxShift)
    ensures Lossless(model, s') && RoomOk(s', nCtx, ctxShift)
  {
  }

  const EMPTY := Slot(Idle, Task([], 0, 0, 0, false, true, false, 0), [], map[], 0, false, [], [], -1, 0, -1, [], [])

  lemma EmptyGood(i: nat, nCtx: int, ctxShift: bool, model: Model)
    ensures Good(EMPTY, i, [], 0, nCtx, ctxShift, model)
  {
  }

  /** What a slot in order means between two passes: its KV cells hold its tokens; while it generates they hold
      nothing else; and unless its context was shifted, its tokens and the sampled one are the prompt followed by
      exactly what one-token-at-a-time decoding produces, and just that was handed on. */
  lemma GoodAtRest(s: Slot, i: nat, nCtx: int, ctxShift: bool, model: Model)
    requires Good(s, i, [], 0, nCtx, ctxShift, model)
    ensures Agree(s.mem, s.tokens) && s.phase != DonePrompt
    ensures s.phase == Generating ==> forall p :: p in s.mem <==> 0 <= p < |s.tokens|
    ensures s.phase == Generating && !s.truncated ==> |s.tokens| + 1 >= |s.task.prompt|
    ensures s.phase == Generating && !s.truncated ==>
      s.tokens + [s.sampled] == Reference(model, s.task.prompt, |s.tokens| + 1 - |s.task.prompt|) &&
      s.sent == Reference(model, s.task.prompt, |s.tokens| + 1 - |s.task.prompt|)[|s.task.prompt|..]
  {
    AtRestFacts(s, i, nCtx, ctxShift, model);
    hide Good, Lossless, Waiting, Certain, Greedy, Told;
    if s.phase == Generating && !s.truncated {
      RunningText(s, model);
    }
  }

  lemma AtRestFacts(s: Slot, i: nat, nCtx: int, ctxShift: bool, model: Model)
    requires Good(s, i, [], 0, nCtx, ctxShift, model)
    ensures Agree(s.mem, s.tokens) && s.phase != DonePrompt && Lossless(model, s) && Told(s)
    ensures s.phase == Generating ==> s.task.needSampling && !Waiting(s)
    ensures s.phase == Generating ==> forall p :: p in s.mem <==> 0 <= p < |s.tokens|
  {
    hide Lossless;
    var none: seq<Entry> := [];
    assert none[0..] == none;
    assert s.tokens[..|s.tokens| - 0] == s.tokens;
  }

  lemma RunningText(s: Slot, model: Model)
    requires s.phase == Generating && !Waiting(s) && !s.truncated && s.task.needSampling && Lossless(model, s)
    requires Told(s)
    ensures |s.tokens| + 1 >= |s.task.prompt|
    ensures s.tokens + [s.sampled] == Reference(model, s.task.prompt, |s.tokens| + 1 - |s.task.prompt|)
    ensures s.sent == Reference(model, s.task.prompt, |s.tokens| + 1 - |s.task.prompt|)[|s.task.prompt|..]
  {
    GreedyIsReference(model, s.task.prompt, s.tokens + [s.sampled]);
  }

  datatype Saved = Saved(tokens: seq<Token>, mem: Cells)

  ghost predicate Holds(f: Saved) {
    Agree(f.mem, f.tokens) && AtPositions(f.mem)
  }

  class Server {
    const nCtx: int
    const nBatch: int
    const nUbatch: int
    const nAlloc: int       // entries the batch can hold: max(n_batch, n_parallel)
    const ctxShift: bool
    const addBos: bool
    const contBatching: bool
    const canShift: bool
    const kvUnified: bool
    const model: Model
    var slots: seq<Slot>
    var batch: seq<Entry>

    ghost predicate Valid() {
      4 <= nCtx && 1 <= nBatch <= nAlloc
    }

    /** A fresh server: idle slots with empty memory. */
    constructor (n: nat, nCtx: int, nBatch: int, nUbatch: int, ctxShift: bool, addBos: bool, contBatching: bool,
                 canShift: bool, kvUnified: bool, model: Model)
      requires 4 <= nCtx && 1 <= nBatch
      ensures Valid() && AtRest() && |slots| == n && forall i :: 0 <= i < n ==> slots[i] == EMPTY
      ensures this.nCtx == nCtx && this.nBatch == nBatch && this.nUbatch == nUbatch
      ensures nAlloc == (if nBatch < n then n else nBatch)
      ensures this.ctxShift == ctxShift && this.addBos == addBos && this.contBatching == contBatching
      ensures this.canShift == canShift && this.kvUnified == kvUnified && this.model == model
    {
      this.nCtx, this.nBatch, this.nUbatch := nCtx, nBatch, nUbatch;
      this.nAlloc := if nBatch < n then n else nBatch;
      this.ctxShift, this.addBos, this.contBatching := ctxShift, addBos, contBatching;
      this.canShift, this.kvUnified, this.model := canShift, kvUnified, model;
      slots, batch := seq(n, i => EMPTY), [];
      new;
      forall i | 0 <= i < n ensures Good(EMPTY, i, [], 0, nCtx, ctxShift, model) {
        EmptyGood(i, nCtx, ctxShift, model);
      }
    }

    /** Every slot is as promised when the batch is decoded up to off. */
    ghost predicate GoodUpTo(off: nat)
      reads this
    {
      off <= |batch| &&
      forall i :: 0 <= i < |slots| ==> Good(slots[i], i, batch, off, nCtx, ctxShift, model)
    }

    /** What stays fixed while the batch is decoded. */
    ghost function Fixed(w: World): Env
      reads this`batch
    {
      Env(batch, nBatch, kvUnified, nCtx, ctxShift, model, w)
    }

    /** Between two passes: nothing waits in any batch. */
    ghost predicate AtRest()
      reads this
    {
      forall i :: 0 <= i < |slots| ==> Good(slots[i], i, [], 0, nCtx, ctxShift, model)
    }

    /** llama_decode succeeds on [off, off + n): every entry's cell is stored, always on a free position. */
    method StoreView(off: nat, n: nat)
      requires Valid() && off + n <= |batch| && (forall k :: 0 <= k < |batch| ==> batch[k].id < |slots|)
      requires GoodUpTo(off)
      modifies this`slots
      ensures |slots| == old(|slots|)
      ensures forall i :: 0 <= i < |slots| ==> slots[i] == StoredAll(old(slots[i]), i, batch[off..off + n])
      ensures forall i :: 0 <= i < |slots| ==>
        slots[i] == old(slots[i]).(mem := slots[i].mem) && Synced(slots[i], Mine(batch[off + n..], i))
      ensures forall k :: off <= k < off + n ==> batch[k].pos !in old(slots[batch[k].id]).mem
      ensures forall j, k :: off <= j < k < off + n && batch[j].id == batch[k].id ==> batch[j].pos != batch[k].pos
    {
      hide Good, StoredUpTo, Synced, Stored, StoredAll;
      forall i | 0 <= i < |slots| ensures StoredUpTo(slots[i], slots[i], i, off, 0) {
        StoredStart(slots[i], i, off);
      }
      for k := 0 to n
        invariant |slots| == old(|slots|)
        invariant forall i :: 0 <= i < |slots| ==> StoredUpTo(old(slots[i]), slots[i], i, off, k)
        invariant forall j :: off <= j < off + k ==> batch[j].pos !in old(slots[batch[j].id]).mem
        invariant forall j :: off <= j < off + k ==> batch[j].pos in slots[batch[j].id].mem
        invariant forall j, m :: off <= j < m < off + k && batch[j].id == batch[m].id ==> batch[j].pos != batch[m].pos
      {
        var e := batch[off + k];
        forall i | 0 <= i < |slots|
          ensures StoredUpTo(old(slots)[i], if i == e.id then Stored(slots[i], i, e) else slots[i], i, off, k + 1)
          ensures i == e.id ==>
            e.pos !in slots[i].mem && e.pos !in old(slots)[i].mem && e.pos in Stored(slots[i], i, e).mem
          ensures slots[i].mem.Keys <= Stored(slots[i], i, e).mem.Keys
        {
          StoreNext(old(slots)[i], slots[i], i, off, k);
        }
        assert e.pos !in slots[e.id].mem;
        slots := slots[e.id := Stored(slots[e.id], e.id, e)];
      }
      forall i | 0 <= i < |slots|
        ensures slots[i] == StoredAll(old(slots)[i], i, batch[off..off + n])
        ensures slots[i] == old(slots)[i].(mem := slots[i].mem) && Synced(slots[i], Mine(batch[off + n..], i))
      {
        StoredFacts(old(slots)[i], slots[i], i, off, n);
      }
    }

    /** A slot's memory after k entries of the sub-batch: only grown, and in step with what still waits. */
    ghost predicate StoredUpTo(s: Slot, r: Slot, i: nat, off: nat, k: nat)
      reads this`batch
    {
      off + k <= |batch| && r == StoredAll(s, i, batch[off..off + k]) && r == s.(mem := r.mem) &&
      s.mem.Keys <= r.mem.Keys && Synced(r, Mine(batch[off + k..], i))
    }

    lemma StoredStart(s: Slot, i: nat, off: nat)
      requires off <= |batch| && Good(s, i, batch, off, nCtx, ctxShift, model)
      ensures StoredUpTo(s, s, i, off, 0)
    {
      hide Synced, PhaseOk, RoomOk, Lossless;
    }

    lemma StoredFacts(s: Slot, r: Slot, i: nat, off: nat, k: nat)
      requires StoredUpTo(s, r, i, off, k)
      ensures off + k <= |batch| && r == StoredAll(s, i, batch[off..off + k])
      ensures r == s.(mem := r.mem) && Synced(r, Mine(batch[off + k..], i))
    {
    }

    lemma StoreNext(s: Slot, r: Slot, i: nat, off: nat, k: nat)
      requires StoredUpTo(s, r, i, off, k) && off + k < |batch|
      ensures StoredUpTo(s, Stored(r, i, batch[off + k]), i, off, k + 1)
      ensures batch[off + k].id == i ==> batch[off + k].pos !in r.mem && batch[off + k].pos !in s.mem
      ensures batch[off + k].id != i ==> Stored(r, i, batch[off + k]) == r
      ensures r.mem.Keys <= Stored(r, i, batch[off + k]).mem.Keys
      ensures batch[off + k].id == i ==> batch[off + k].pos in Stored(r, i, batch[off + k]).mem
    {
      hide Synced;
      var b := batch[off + k..];
      assert b[1..] == batch[off + k + 1..];
      assert batch[off..off + k + 1][..k] == batch[off..off + k];
      StoreStep(r, i, b);
    }

    /** post_decode: every slot takes the outputs of the sub-batch. */
    method PostDecodeAll(w: World, off: nat, n: nat)
      requires Valid() && 0 < n && off + n <= |batch|
      requires forall i :: 0 <= i < |slots| ==> Ready(slots[i], i, off, n)
      modifies this`slots
      ensures |slots| == old(|slots|) && GoodUpTo(off + n)
      ensures forall i :: 0 <= i < |slots| ==>
        Ready(old(slots[i]), i, off, n) &&
        AfterOutputs(old(slots[i]), slots[i], off, n, model, w.stopAt(i, off), w.useCkpt(i), nCtx, ctxShift)
    {
      for k := 0 to |slots|
        invariant |slots| == old(|slots|)
        invariant forall i :: k <= i < |slots| ==> slots[i] == old(slots[i])
        invariant forall i :: 0 <= i < k ==> Good(slots[i], i, batch, off + n, nCtx, ctxShift, model)
        invariant forall i :: 0 <= i < k ==>
          AfterOutputs(old(slots[i]), slots[i], off, n, model, w.stopAt(i, off), w.useCkpt(i), nCtx, ctxShift)
      {
        assert Ready(slots[k], k, off, n);
        var r := PostDecodeSlot(slots[k], k, batch, off, n, model, w.stopAt(k, off), w.useCkpt(k), nCtx, ctxShift);
        slots := slots[k := r];
      }
    }

    /** The sub-batch is decoded, its outputs are not yet delivered. */
    ghost predicate Ready(s: Slot, i: nat, off: nat, n: nat)
      reads this
    {
      off + n <= |batch| && Synced(s, Mine(batch[off + n..], i)) &&
      PhaseOk(s, i, batch, off, nCtx) && RoomOk(s, nCtx, ctxShift) && Lossless(model, s) && Told(s)
    }

    /** try_clear_idle_slots: purges the first idle slot that still holds tokens. */
    method TryClearIdleSlots(off: nat) returns (cleared: bool)
      requires Valid() && GoodUpTo(off)
      modifies this`slots
      ensures |slots| == old(|slots|) && GoodUpTo(off)
      ensures var i := FirstHeld(old(slots));
        (cleared <==> kvUnified && i < |slots|) &&
        slots == if cleared then old(slots)[i := PromptClear(old(slots)[i])] else old(slots)
      ensures cleared ==> Purgeable(slots) < old(Purgeable(slots))
    {
      hide Good;
      cleared := false;
      if !kvUnified {
        return;
      }
      for i := 0 to |slots|
        invariant slots == old(slots)
        invariant forall j :: 0 <= j < i ==> !Held(slots[j])
      {
        if Held(slots[i]) {
          PurgedGood(slots[i], i, batch, off, nCtx, ctxShift, model);
          PurgeLowers(slots, i);
          slots := slots[i := PromptClear(slots[i])];
          return true;
        }
      }
    }

    /** A fatal decode error: every processing slot is released and emptied. */
    method FailProcessing(at: nat)
      requires GoodUpTo(at)
      modifies this`slots
      ensures |slots| == old(|slots|) && GoodUpTo(at)
      ensures forall i :: 0 <= i < |slots| ==> slots[i] == Failed(old(slots[i]))
      ensures forall i :: 0 <= i < |slots| && old(slots[i]).phase != Idle ==>
        slots[i].phase == Idle && slots[i].tokens == [] && forall p :: p in slots[i].mem ==> p < 0
      ensures forall i :: 0 <= i < |slots| && old(slots[i]).phase == Idle ==> slots[i] == old(slots[i])
    {
      for k := 0 to |slots|
        invariant |slots| == old(|slots|) && GoodUpTo(at)
        invariant forall i :: k <= i < |slots| ==> slots[i] == old(slots[i])
        invariant forall i :: 0 <= i < k ==>
          slots[i] == Failed(old(slots[i]))
      {
        if slots[k].phase != Idle {
          ReleasedGood(slots[k], k, batch, at, nCtx, ctxShift, model);
          PurgedGood(Release(slots[k]), k, batch, at, nCtx, ctxShift, model);
          slots := slots[k := PromptClear(Release(slots[k]))];
        }
      }
    }

    /** abort_all_slots: every processing slot is released, with its tokens. */
    method AbortAllSlots()
      modifies this`slots
      ensures |slots| == old(|slots|)
      ensures forall i :: 0 <= i < |slots| ==> slots[i] == Dropped(old(slots[i]))
      ensures forall i :: 0 <= i < |slots| ==>
        slots[i].phase == Idle && slots[i].tokens == old(slots[i]).tokens && slots[i].mem == old(slots[i]).mem
    {
      for k := 0 to |slots|
        invariant |slots| == old(|slots|)
        invariant forall i :: k <= i < |slots| ==> slots[i] == old(slots[i])
        invariant forall i :: 0 <= i < k ==> slots[i] == Dropped(old(slots[i]))
      {
        if slots[k].phase != Idle {
          slots := slots[k := Release(slots[k])];
        }
      }
    }

    /** A call that throws: its sub-batch is stored if llama_decode succeeded, then everything is aborted. */
    method ThrowOut(off: nat, len: nat, ret: int) returns (at: nat)
      requires Valid() && off + len <= |batch| && GoodUpTo(off)
      requires forall k :: 0 <= k < |batch| ==> batch[k].id < |slots|
      modifies this`slots
      ensures |slots| == old(|slots|) && at == if ret == 0 then off + len else off
      ensures DroppedFrom(old(slots), slots, off, at)
    {
      hide Good, Dropped, Synced;
      at := off;
      if ret == 0 {
        StoreView(off, len);
        at := off + len;
      } else {
        assert batch[off..off] == [];
      }
      ghost var stored := slots;
      AbortAllSlots();
      forall i | 0 <= i < |slots| ensures slots[i] == Dropped(StoredAll(old(slots)[i], i, batch[off..at])) {
        assert stored[i] == StoredAll(old(slots)[i], i, batch[off..at]);
      }
    }

    /** Every slot took the entries [off, at) of the batch and was dropped. */
    ghost predicate DroppedFrom(before: seq<Slot>, after: seq<Slot>, off: nat, at: nat)
      reads this`batch
    {
      off <= at <= |batch| && |after| == |before| &&
      forall i :: 0 <= i < |after| ==> after[i] == Dropped(StoredAll(before[i], i, batch[off..at]))
    }

    /** One successful sub-batch: its cells are stored, then its outputs are delivered. */
    method DecodeView(w: World, off: nat, n: nat)
      requires Valid() && 0 < n && off + n <= |batch| && GoodUpTo(off)
      requires forall k :: 0 <= k < |batch| ==> batch[k].id < |slots|
      modifies this`slots
      ensures |slots| == old(|slots|) && GoodUpTo(off + n)
      ensures forall i :: 0 <= i < |slots| ==> Delivered(Fixed(w), old(slots[i]), slots[i], i, off, n)
    {
      hide AfterOutputs, Synced, RoomOk, Lossless;
      StoreView(off, n);
      ghost var stored := slots;
      forall i | 0 <= i < |slots| ensures Ready(slots[i], i, off, n) {
        StoredReady(old(slots)[i], slots[i], i, off, n);
      }
      hide Ready, Good;
      PostDecodeAll(w, off, n);
      forall i | 0 <= i < |slots| ensures Delivered(Fixed(w), old(slots)[i], slots[i], i, off, n) {
        assert stored[i] == StoredAll(old(slots)[i], i, batch[off..off + n]);
      }
    }

    lemma StoredReady(s: Slot, s': Slot, i: nat, off: nat, n: nat)
      requires off + n <= |batch| && Good(s, i, batch, off, nCtx, ctxShift, model)
      requires s' == s.(mem := s'.mem) && Synced(s', Mine(batch[off + n..], i))
      ensures Ready(s', i, off, n)
    {
      hide Synced, InSync, Greedy;
      SamePhase(s, s', i, batch, off, nCtx);
      SameText(s, s', model, nCtx, ctxShift);
      hide PhaseOk, Lossless, RoomOk;
    }

    /** The decode loop with retries, as the transition system says.  It ends for every sequence of results 0, 1 or
        negative, in one of three ways: the whole batch is decoded, or the last call was fatal, or it threw. */
    method DecodeBatch(w: World) returns (out: Outcome, ghost trace: seq<Loop>)
      requires Valid() && Sane(w) && GoodUpTo(0) && forall k :: 0 <= k < |batch| ==> batch[k].id < |slots|
      modifies this`slots
      ensures |slots| == old(|slots|) && !out.Crashed? && trace != [] && Trace(Fixed(w), old(slots), trace)
      ensures AlwaysGood(Fixed(w), trace)
      ensures out.Finished? ==> Last(trace).off == |batch| && slots == Last(trace).slots && GoodUpTo(|batch|)
      ensures out.Aborted? ==> out.at == Last(trace).off < |batch| && FailedFrom(Last(trace).slots, slots)
      ensures out.Aborted? ==>
        (w.decodeResult(|trace| - 1) < 0 || (w.decodeResult(|trace| - 1) == 1 && Last(trace).n == 1)) &&
        !w.throws(|trace| - 1)
      ensures out.Thrown? ==>
        w.throws(|trace| - 1) && out.at == ThrownAt(Fixed(w), Last(trace), w.decodeResult(|trace| - 1)) &&
        Last(trace).off < |batch| && DroppedFrom(Last(trace).slots, slots, Last(trace).off, out.at)
    {
      hide Good, Delivered, Trace, AlwaysGood, LoopStep, Failed, DroppedFrom;
      var off, n, calls := 0, nBatch, 0;
      ghost var e, l := Fixed(w), Loop(0, nBatch, slots, [], {});
      trace := [l];
      TraceStart(e, l);
      while off < |batch|
        invariant GoodUpTo(off) && |slots| == old(|slots|) && |trace| == calls + 1 && 1 <= n <= nBatch
        invariant Trace(e, old(slots), trace) && AlwaysGood(e, trace) && Last(trace) == l
        invariant l == Loop(off, n, slots, l.views, l.purged)
        decreases |batch| - off, Purgeable(slots), n
      {
        var len := if n < |batch| - off then n else |batch| - off;
        var ret := w.decodeResult(calls);
        ghost var m := l;
        if w.throws(calls) {
          var at := ThrowOut(off, len, ret);
          return Thrown(at), trace;
        }
        calls := calls + 1;
        if ret == 0 {
          m := Succeed(w, l, off, n, len);
          off := off + len;
          n := nBatch; // on success the original batch size is restored
        } else if (n == 1 && ret == 1) || ret < 0 {
          FailProcessing(off);
          return Aborted(off), trace;
        } else {
          var cleared := TryClearIdleSlots(off);
          if !cleared {
            n := n / 2;
          }
          m := Loop(off, n, slots, l.views, if cleared then l.purged + {FirstHeld(l.slots)} else l.purged);
          RetryStep(e, l, m, ret);
        }
        TraceGrows(e, old(slots), trace, m);
        GoodGrows(e, trace, m);
        trace := trace + [m];
        l := m;
      }
      out := Finished;
    }

    method Succeed(w: World, ghost l: Loop, off: nat, ghost n: int, len: nat) returns (ghost m: Loop)
      requires Valid() && off < |batch| && GoodUpTo(off) && forall k :: 0 <= k < |batch| ==> batch[k].id < |slots|
      requires l == Loop(off, n, slots, l.views, l.purged) && n > 0
      requires len == if n < |batch| - off then n else |batch| - off
      modifies this`slots
      ensures |slots| == old(|slots|) && GoodUpTo(off + len)
      ensures LoopStep(Fixed(w), l, m, 0) && m == Loop(off + len, nBatch, slots, m.views, m.purged)
    {
      hide Good, Delivered;
      DecodeView(w, off, len);
      m := Loop(off + len, nBatch, slots, l.views + [(off, len)], l.purged);
      ViewStep(Fixed(w), l, m);
    }

    /** Every slot is failed, as a fatal error does. */
    ghost predicate FailedFrom(before: seq<Slot>, after: seq<Slot>) {
      |after| == |before| && forall i :: 0 <= i < |after| ==> after[i] == Failed(before[i])
    }

    /** Start of pre_decode: generating slots that used up their context are shifted.  Without context shift no
        slot can have come this far: that branch is dead. */
    method ShiftContexts()
      requires Valid() && AtRest()
      modifies this`slots
      ensures |slots| == old(|slots|) && AtRest()
      ensures forall i :: 0 <= i < |slots| ==>
        MaybeShifted(old(slots[i]), slots[i]) && RoomForOne(slots[i], nCtx, ctxShift)
    {
      hide Good;
      for k := 0 to |slots|
        invariant |slots| == old(|slots|) && AtRest()
        invariant forall i :: k <= i < |slots| ==> slots[i] == old(slots[i])
        invariant forall i :: 0 <= i < k ==>
          MaybeShifted(old(slots[i]), slots[i]) && RoomForOne(slots[i], nCtx, ctxShift)
      {
        var r := ShiftSlot(slots[k], k);
        slots := slots[k := r];
      }
    }

    method ShiftSlot(s: Slot, k: nat) returns (r: Slot)
      requires Valid() && Good(s, k, [], 0, nCtx, ctxShift, model)
      ensures Good(r, k, [], 0, nCtx, ctxShift, model)
      ensures MaybeShifted(s, r) && RoomForOne(r, nCtx, ctxShift)
    {
      r := s;
      if s.phase == Generating && |s.tokens| + 1 >= nCtx {
        if !ctxShift {
          assert false; // "context shift is disabled": generation stopped earlier, in process_token
        }
        r := ContextShift.ShiftContext(s, nCtx, addBos);
        ShiftedGood(s, r, k);
      }
    }

    /** Only a generating slot without room is shifted. */
    ghost predicate MaybeShifted(s: Slot, r: Slot)
      requires Valid()
    {
      if s.phase == Generating && |s.tokens| + 1 >= nCtx then
        r == s.(tokens := ContextShift.ShiftedTokens(s, nCtx, addBos), mem := r.mem, truncated := true)
      else r == s
    }

    lemma ShiftedGood(s: Slot, r: Slot, i: nat)
      requires Good(s, i, [], 0, nCtx, ctxShift, model) && s.phase == Generating && ctxShift && |s.tokens| + 1 >= nCtx
      requires r == s.(tokens := r.tokens, mem := r.mem, truncated := true) && InSync(r, []) && |r.tokens| <= |s.tokens|
      ensures Good(r, i, [], 0, nCtx, ctxShift, model)
    {
    }

    /** The draft a generating slot takes: the one to replay, or what the drafter proposes. */
    function DraftTaken(s: Slot, i: nat, w: World): seq<Token> {
      var n := Generation.DraftMax(s, nCtx, w.remaining(i));
      if s.draft != [] then s.draft else if n > 0 then w.draftOf(i, n) else []
    }

    /** The entries the first k slots bring along: each generating slot of the kind its sampled token and its draft. */
    function Demand(ss: seq<Slot>, k: nat, kind: int, w: World): nat
      requires k <= |ss|
    {
      if k == 0 then 0 else Demand(ss, k - 1, kind, w) + Entries(ss[k - 1], k - 1, kind, w)
    }

    function Entries(s: Slot, i: nat, kind: int, w: World): nat {
      if s.phase == Generating && s.task.kind == kind then 1 + |DraftTaken(s, i, w)| else 0
    }

    lemma {:induction false} DemandGrows(ss: seq<Slot>, j: nat, k: nat, kind: int, w: World)
      requires j <= k <= |ss|
      ensures Demand(ss, j, kind, w) <= Demand(ss, k, kind, w)
    {
      if j < k {
        DemandGrows(ss, j, k - 1, kind, w);
      }
    }

    lemma {:induction false} NoDemand(ss: seq<Slot>, k: nat, kind: int, w: World)
      requires k <= |ss| && forall i :: 0 <= i < |ss| ==> ss[i].phase != Generating
      ensures Demand(ss, k, kind, w) == 0
    {
      if k > 0 {
        NoDemand(ss, k - 1, kind, w);
      }
    }

    lemma IdleUnshifted(ss: seq<Slot>)
      requires Valid() && NoneBusy(ss)
      ensures forall i :: 0 <= i < |ss| ==> MaybeShifted(ss[i], ss[i])
    {
    }

    /** Each generating slot that fits in with the first one takes a draft and enters the batch; it is as large as that
        takes, and the assertion that it holds all of them fails exactly when it is not. */
    method BatchGenerating(w: World) returns (addOk: bool)
      requires Valid() && Sane(w) && AtRest() && forall i :: 0 <= i < |slots| ==> RoomForOne(slots[i], nCtx, ctxShift)
      modifies this
      ensures |slots| == old(|slots|)
      ensures addOk <==> Demand(old(slots), |slots|, LeadKind(old(slots)), w) <= nAlloc
      ensures addOk ==>
        GoodUpTo(0) && |batch| == Demand(old(slots), |slots|, LeadKind(old(slots)), w) && InBatch(|slots|)
      ensures addOk ==> forall i :: 0 <= i < |slots| ==> Entered(old(slots[i]), slots[i], i, LeadKind(old(slots)), w)
      ensures addOk ==> forall i :: 0 <= i < |slots| && slots[i].phase != Generating ==>
        slots[i] == old(slots[i]) && Mine(batch, i) == []
      ensures addOk ==> OneKind(LeadKind(old(slots)))
    {
      hide Good, GoodUpTo, InBatch, Entered, Entries, RoomForOne, LeadKind, Sane, OneKind;
      batch := [];
      var kind := LeadKind(slots);
      NothingOfAKind(kind);
      NothingWaits();
      addOk := true;
      for k := 0 to |slots|
        invariant |slots| == old(|slots|) && |batch| == Demand(old(slots), k, kind, w) <= nAlloc
        invariant forall i :: k <= i < |slots| ==> slots[i] == old(slots[i]) && Mine(batch, i) == []
        invariant GoodUpTo(0) && InBatch(k) && OneKind(kind)
        invariant forall i :: 0 <= i < k ==> Entered(old(slots[i]), slots[i], i, kind, w)
        invariant forall i :: 0 <= i < k && slots[i].phase != Generating ==>
          slots[i] == old(slots[i]) && Mine(batch, i) == []
      {
        addOk := EnterIfKind(w, k, kind);
        if !addOk {
          DemandGrows(old(slots), k + 1, |slots|, kind, w);
          return;
        }
      }
    }

    lemma NothingWaits()
      requires AtRest() && batch == []
      ensures GoodUpTo(0)
    {
      assert batch[0..] == batch;
    }

    lemma NothingOfAKind(kind: int)
      requires batch == []
      ensures OneKind(kind) && InBatch(0)
    {
    }

    method EnterIfKind(w: World, k: nat, kind: int) returns (ok: bool)
      requires Valid() && Sane(w) && |batch| <= nAlloc && k < |slots| && Mine(batch, k) == []
      requires GoodUpTo(0) && Good(slots[k], k, [], 0, nCtx, ctxShift, model) && RoomForOne(slots[k], nCtx, ctxShift)
      requires InBatch(k) && OneKind(kind)
      modifies this
      ensures |slots| == old(|slots|) && forall i :: 0 <= i < |slots| && i != k ==> slots[i] == old(slots[i])
      ensures ok <==> old(|batch|) + Entries(old(slots[k]), k, kind, w) <= nAlloc
      ensures ok ==> GoodUpTo(0) && |batch| == old(|batch|) + Entries(old(slots[k]), k, kind, w) && InBatch(k + 1)
      ensures ok ==> forall i :: 0 <= i < |slots| && i != k ==> Mine(batch, i) == old(Mine(batch, i))
      ensures ok ==> Entered(old(slots[k]), slots[k], k, kind, w) && OneKind(kind)
      ensures ok && slots[k].phase != Generating ==> slots[k] == old(slots[k]) && Mine(batch, k) == []
    {
      hide Good, DraftTaken, RoomForOne;
      ok := true;
      if slots[k].phase == Generating && kind == slots[k].task.kind {
        ok := EnterSlot(w, k);
      }
    }

    method EnterSlot(w: World, k: nat) returns (ok: bool)
      requires Valid() && Sane(w) && |batch| <= nAlloc && k < |slots| && slots[k].phase == Generating
      requires Mine(batch, k) == []
      requires GoodUpTo(0) && Good(slots[k], k, [], 0, nCtx, ctxShift, model) && RoomForOne(slots[k], nCtx, ctxShift)
      requires InBatch(k)
      modifies this
      ensures |slots| == old(|slots|) && forall i :: 0 <= i < |slots| && i != k ==> slots[i] == old(slots[i])
      ensures ok <==> old(|batch|) + 1 + |DraftTaken(old(slots[k]), k, w)| <= nAlloc
      ensures ok ==> GoodUpTo(0) && |batch| == old(|batch|) + 1 + |DraftTaken(old(slots[k]), k, w)| && InBatch(k + 1)
      ensures ok ==> forall i :: 0 <= i < |slots| && i != k ==> Mine(batch, i) == old(Mine(batch, i))
      ensures ok ==> Entered(old(slots[k]), slots[k], k, slots[k].task.kind, w) && slots[k].phase == Generating
      ensures ok ==> slots[k].task == old(slots[k]).task && Appended(old(batch), batch, k)
    {
      hide Good, Entered, RoomForOne;
      var r, batch';
      r, batch', ok := EnterBatch(w, slots[k], k);
      if ok {
        OthersStayGood(k, batch');
        assert forall j :: 0 <= j < |batch| ==> batch'[j] == batch'[..|batch|][j];
        batch := batch';
        slots := slots[k := r];
      }
    }

    /** One generating slot: draft, then sampled token and draft into the batch. */
    method EnterBatch(w: World, s: Slot, k: nat) returns (r: Slot, batch': seq<Entry>, ok: bool)
      requires Valid() && Sane(w) && |batch| <= nAlloc && s.phase == Generating && Mine(batch, k) == []
      requires Good(s, k, [], 0, nCtx, ctxShift, model) && RoomForOne(s, nCtx, ctxShift)
      ensures ok <==> |batch| + 1 + |DraftTaken(s, k, w)| <= nAlloc
      ensures ok ==> Good(r, k, batch', 0, nCtx, ctxShift, model)
      ensures ok ==> Appended(batch, batch', k) && |batch'| == |batch| + 1 + |DraftTaken(s, k, w)|
      ensures ok ==> Entered(s, r, k, s.task.kind, w) && r.task == s.task && r.phase == Generating
    {
      var n := Generation.DraftMax(s, nCtx, w.remaining(k));
      var d := Generation.BeginDraft(s, nCtx, w.remaining(k), if n > 0 then w.draftOf(k, n) else []);
      r, batch', ok := Generation.HandleLastSampledToken(d, k, batch, nAlloc, nCtx);
      if ok {
        assert batch'[0..] == batch';
        EnteredLossless(model, s, r);
      }
    }

    /** A generating slot of the batch's kind waits for the outputs of its sampled token and its draft. */
    ghost predicate Entered(s: Slot, r: Slot, i: nat, kind: int, w: World) {
      if s.phase == Generating && s.task.kind == kind then
        var d := DraftTaken(s, i, w);
        r == s.(tokens := s.tokens + [s.sampled] + d, draft := d, iBatch := r.iBatch, specIdx := r.specIdx,
                ckptTokens := r.ckptTokens, ckptPosMax := r.ckptPosMax) && Waiting(r)
      else r == s
    }

    /** The first generating slot f leads: it and every generating slot it can be batched with wait with the sampled
        token and their draft at the end of their tokens, and no other slot changes. */
    lemma GeneratingEnter(ss: seq<Slot>, rs: seq<Slot>, f: nat, w: World)
      requires |rs| == |ss| && f < |ss| && ss[f].phase == Generating
      requires forall j :: 0 <= j < f ==> ss[j].phase != Generating
      requires forall i :: 0 <= i < |ss| ==> Entered(ss[i], rs[i], i, LeadKind(ss), w)
      ensures forall i :: 0 <= i < |ss| ==>
        if ss[i].phase == Generating && ss[i].task.kind == ss[f].task.kind then
          rs[i].phase == Generating && (rs[i].iBatch >= 0 || rs[i].specIdx != []) && rs[i].mem == ss[i].mem &&
          rs[i].tokens == ss[i].tokens + [ss[i].sampled] + rs[i].draft &&
          rs[i].sent == ss[i].sent && rs[i].history == ss[i].history
        else rs[i] == ss[i]
    {
      hide LeadKind, DraftTaken;
      FirstLeads(ss, f);
    }

    /** The draft it enters with: one to replay; else what the drafter proposes, asked for as many tokens as leave two
        positions free and do not exceed the request's budget; else none. */
    lemma DraftCases(s: Slot, r: Slot, i: nat, w: World, n: int)
      requires s.phase == Generating && Entered(s, r, i, s.task.kind, w)
      requires n <= nCtx - |s.tokens| - 2 && (w.remaining(i) > 0 ==> n <= w.remaining(i) - 1)
      requires n == nCtx - |s.tokens| - 2 || (w.remaining(i) > 0 && n == w.remaining(i) - 1)
      ensures s.draft != [] ==> r.draft == s.draft
      ensures s.draft == [] && n > 0 ==> r.draft == w.draftOf(i, n)
      ensures s.draft == [] && n <= 0 ==> r.draft == []
    {
    }

    lemma OthersStayGood(k: nat, batch': seq<Entry>)
      requires GoodUpTo(0) && Appended(batch, batch', k)
      ensures forall i :: 0 <= i < |slots| && i != k ==>
        Good(slots[i], i, batch', 0, nCtx, ctxShift, model) && Mine(batch', i) == Mine(batch, i)
    {
      forall i | 0 <= i < |slots| && i != k
        ensures Good(slots[i], i, batch', 0, nCtx, ctxShift, model) && Mine(batch', i) == Mine(batch, i)
      {
        OtherStaysGood(slots[i], i, batch, batch', k, nCtx, ctxShift, model);
      }
    }

    /** Every entry of the batch belongs to a slot of this kind. */
    ghost predicate OneKind(kind: int)
      reads this
    {
      forall k :: 0 <= k < |batch| ==> batch[k].id < |slots| && slots[batch[k].id].task.kind == kind
    }

    ghost predicate InBatch(n: nat)
      reads this`batch
    {
      forall k :: 0 <= k < |batch| ==> batch[k].id < n
    }

    /** Prompt part of pre_decode for one slot: reuse, truncate, feed; or reject the request. */
    method FeedSlot(s: Slot, k: nat, w: World) returns (r: Slot, batch': seq<Entry>, reached: bool)
      requires Valid() && (s.phase == Started || s.phase == ProcessingPrompt) && |batch| < nBatch
      requires Mine(batch, k) == []
      requires Good(s, k, [], 0, nCtx, ctxShift, model)
      ensures Good(r, k, batch', 0, nCtx, ctxShift, model)
      ensures Appended(batch, batch', k) && |batch'| <= nAlloc
      ensures Fed(s, r, |batch|, |batch'|, k, w) && (reached <==> Reaches(s, |batch|)) && (!reached ==> batch' == batch)
    {
      r, batch', reached := s, batch, false;
      if s.phase == Started {
        var live;
        r, live := StartSlot(s, k);
        if !live {
          return;
        }
      }
      r, batch', reached := FillSlot(r, k, w);
    }

    /** The prompt gets into a batch that holds n entries: it is not rejected, and if it cannot be split it fits. */
    predicate Reaches(s: Slot, n: nat) {
      !(s.phase == Started && PromptSteps.Rejected(s, nCtx, nUbatch)) &&
      (s.task.canSplit || n + |s.task.prompt| <= nBatch)
    }

    method StartSlot(s: Slot, k: nat) returns (r: Slot, live: bool)
      requires Valid() && s.phase == Started && Mine(batch, k) == [] && Good(s, k, [], 0, nCtx, ctxShift, model)
      ensures live <==> !PromptSteps.Rejected(s, nCtx, nUbatch)
      ensures if live then Feedable(r) else r == Release(s) && Good(r, k, batch, 0, nCtx, ctxShift, model)
      ensures live ==> r.task == s.task
      ensures live ==>
        |r.tokens| == if PromptSteps.Reusable(s, canShift) == |s.task.prompt| then |s.task.prompt| - 1
                      else PromptSteps.Reusable(s, canShift)
    {
      assert Mine([][0..], k) == [] && batch[0..] == batch;
      r, live := PromptSteps.StartPrompt(s, nCtx, nUbatch, canShift);
      if !live {
        ReleasedGood(s, k, batch, 0, nCtx, ctxShift, model);
      }
    }

    /** A slot whose prompt is being processed, outside any batch. */
    ghost predicate Feedable(s: Slot) {
      s.phase == ProcessingPrompt && InSync(s, []) && s.draft == [] && s.sent == [] && s.specIdx == [] &&
      |s.tokens| < |s.task.prompt| && s.tokens == s.task.prompt[..|s.tokens|] && RoomOk(s, nCtx, ctxShift)
    }

    method FillSlot(s: Slot, k: nat, w: World) returns (r: Slot, batch': seq<Entry>, fits: bool)
      requires Valid() && Feedable(s) && |batch| < nBatch && Mine(batch, k) == []
      ensures Good(r, k, batch', 0, nCtx, ctxShift, model)
      ensures Appended(batch, batch', k) && |batch'| <= nAlloc
      ensures Fed(s, r, |batch|, |batch'|, k, w) && (fits <==> Reaches(s, |batch|)) && (!fits ==> batch' == batch)
    {
      r, batch', fits := s, batch, false;
      if !s.task.canSplit && |batch| + |s.task.prompt| > nBatch {
        assert batch[0..] == batch;
        return; // cannot fit the prompt in the current batch, next pass
      }
      var border := (n: nat) => w.border(k, n);
      r, batch' := PromptSteps.FillPrompt(r, k, batch, nBatch, border, nCtx);
      assert forall j: nat :: border(j) == w.border(k, j);
      fits := true;
      FedLossless(model, r);
      assert batch'[0..] == batch';
    }

    /** What feeding does to a slot: a rejected request is released; otherwise the slot holds a prefix of its prompt,
        grown by exactly the entries added to the batch, and a prompt cut short fills the batch, or stops at the first
        border. */
    ghost predicate Fed(s: Slot, r: Slot, n: nat, n': nat, k: nat, w: World) {
      r.task == s.task &&
      if s.phase == Started && PromptSteps.Rejected(s, nCtx, nUbatch) then r == Release(s) && n' == n
      else
        var kept := if s.phase == ProcessingPrompt then |s.tokens|
                    else if PromptSteps.Reusable(s, canShift) == |s.task.prompt| then |s.task.prompt| - 1
                    else PromptSteps.Reusable(s, canShift);
        |r.tokens| == kept + (n' - n) && |r.tokens| <= |s.task.prompt| && r.tokens == s.task.prompt[..|r.tokens|] &&
        r.phase == (if |r.tokens| == |s.task.prompt| then DonePrompt else ProcessingPrompt) &&
        (forall j: nat :: kept < j < |r.tokens| ==> !w.border(k, j)) &&
        (r.phase == ProcessingPrompt ==>
          n' == nBatch || (n' > n && w.border(k, |r.tokens|)) || (n' == n && !Reaches(s, n)))
    }

    /** The same in terms of prompt and batch: a request that cannot be served is released; otherwise the slot holds the
        beginning of its prompt, one more token for each entry added, and it is done with the prompt exactly when it
        holds all of it; what stops it before that is a full batch, a border, or a prompt that must go in as a whole. */
    lemma FedCases(s: Slot, r: Slot, n: nat, n': nat, k: nat, w: World)
      requires (s.phase == Started || s.phase == ProcessingPrompt) && n < nBatch && Fed(s, r, n, n', k, w)
      ensures var size := |s.task.prompt|;
        var served := s.phase == ProcessingPrompt ||
                      (0 < size && if s.task.canSplit then size < nCtx else size <= nUbatch && size <= nCtx);
        r.task == s.task && (served <==> r.phase != Idle) && (!served ==> r.tokens == s.tokens && n' == n) &&
        (served ==>
          r.tokens <= s.task.prompt && (r.phase == DonePrompt <==> r.tokens == s.task.prompt) &&
          (s.phase == ProcessingPrompt ==> |r.tokens| - |s.tokens| == n' - n) &&
          (r.phase != DonePrompt ==>
            r.phase == ProcessingPrompt &&
            (n' == nBatch || (n < n' && w.border(k, |r.tokens|)) ||
             (n == n' && !s.task.canSplit && n + size > nBatch))))
    {
    }

    ghost predicate FedInPass(s: Slot, r: Slot, k: nat, w: World) {
      (s.phase == Started || s.phase == ProcessingPrompt) &&
      exists n: nat, n': nat :: n < nBatch && Fed(s, r, n, n', k, w)
    }

    /** Fed, and the batch is not full with it. */
    ghost predicate FedWhole(s: Slot, r: Slot, k: nat, w: World) {
      (s.phase == Started || s.phase == ProcessingPrompt) &&
      exists n: nat, n': nat :: n <= n' < nBatch && Fed(s, r, n, n', k, w)
    }

    /** A prompt still to be processed, and of the kind the batch takes. */
    ghost predicate Wanted(s: Slot, kind: int) {
      (s.phase == Started || s.phase == ProcessingPrompt) && s.task.kind == kind
    }

    method FeedInto(k: nat, w: World) returns (reached: bool)
      requires Valid() && GoodUpTo(0) && |batch| < nBatch && InBatch(|slots|) && k < |slots|
      requires (slots[k].phase == Started || slots[k].phase == ProcessingPrompt) && Mine(batch, k) == []
      requires Good(slots[k], k, [], 0, nCtx, ctxShift, model)
      modifies this
      ensures |slots| == old(|slots|) && GoodUpTo(0) && old(|batch|) <= |batch| <= nAlloc && InBatch(|slots|)
      ensures forall i :: 0 <= i < |slots| && i != k ==>
        slots[i] == old(slots[i]) && Mine(batch, i) == old(Mine(batch, i))
      ensures |batch| < nBatch ==> FedWhole(old(slots[k]), slots[k], k, w)
      ensures FedInPass(old(slots[k]), slots[k], k, w) && (slots[k].phase == Idle ==> Mine(batch, k) == [])
      ensures (reached <==> Reaches(old(slots[k]), old(|batch|))) && (!reached ==> batch == old(batch))
      ensures old(batch) == [] || old(OneKind(slots[k].task.kind)) ==> OneKind(old(slots[k]).task.kind)
    {
      hide Good, Fed, Reaches;
      var r, batch';
      r, batch', reached := FeedSlot(slots[k], k, w);
      OthersStayGood(k, batch');
      assert Fed(slots[k], r, |batch|, |batch'|, k, w);
      FedOrOut(slots[k], r, |batch|, |batch'|, k, w);
      assert forall j :: 0 <= j < |batch| ==> batch'[j] == batch'[..|batch|][j];
      if |batch'| == |batch| { assert batch' == batch; }
      batch := batch';
      slots := slots[k := r];
    }

    lemma FedOrOut(s: Slot, r: Slot, n: nat, n': nat, k: nat, w: World)
      requires Fed(s, r, n, n', k, w)
      ensures r.phase == Idle ==> n' == n
    {
    }

    /** The slot leads a batch that is still empty: it is busy, and a prompt it still has gets in. */
    predicate Leads(s: Slot) {
      s.phase != Idle && (s.phase == Started || s.phase == ProcessingPrompt ==> Reaches(s, 0))
    }

    /** The kind of the first slot that leads the batch, when no generating slot does. */
    function FirstKind(ss: seq<Slot>): int {
      if ss == [] then 0 else if Leads(ss[0]) then ss[0].task.kind else FirstKind(ss[1..])
    }

    /** When no slot generates, the first slot leads whose prompt can be served at all and, if it cannot be split,
        fits a batch of its own. */
    lemma {:induction false} FirstPromptLeads(ss: seq<Slot>, f: nat)
      requires f < |ss| && (ss[f].phase == Started || ss[f].phase == ProcessingPrompt)
      requires ss[f].phase == Started ==> ss[f].task.prompt != []
      requires ss[f].phase == Started && ss[f].task.canSplit ==> |ss[f].task.prompt| < nCtx
      requires ss[f].phase == Started && !ss[f].task.canSplit ==>
        |ss[f].task.prompt| <= nUbatch && |ss[f].task.prompt| <= nCtx
      requires !ss[f].task.canSplit ==> |ss[f].task.prompt| <= nBatch
      requires forall s :: s in ss[..f] && s.phase != Idle ==>
        (s.phase == Started || s.phase == ProcessingPrompt) &&
        ((s.phase == Started && s.task.prompt == []) ||
         (s.phase == Started && s.task.canSplit && |s.task.prompt| >= nCtx) ||
         (s.phase == Started && !s.task.canSplit && (|s.task.prompt| > nUbatch || |s.task.prompt| > nCtx)) ||
         (!s.task.canSplit && |s.task.prompt| > nBatch))
      ensures FirstKind(ss) == ss[f].task.kind
    {
      if f > 0 {
        assert ss[0] in ss[..f] && !Leads(ss[0]);
        assert forall s :: s in ss[1..][..f - 1] ==> s in ss[..f];
        FirstPromptLeads(ss[1..], f - 1);
      }
    }

    /** Next, the pending prompts, as far as the batch goes. */
    method BatchPrompts(lead: int, w: World)
      requires Valid() && GoodUpTo(0) && |batch| <= nAlloc && InBatch(|slots|)
      requires forall i :: 0 <= i < |slots| && slots[i].phase != Generating ==>
        Good(slots[i], i, [], 0, nCtx, ctxShift, model) && Mine(batch, i) == []
      requires OneKind(lead)
      modifies this
      ensures |slots| == old(|slots|) && GoodUpTo(0) && old(|batch|) <= |batch| <= nAlloc && InBatch(|slots|)
      ensures forall i :: 0 <= i < |slots| ==> slots[i] == old(slots[i]) || FedInPass(old(slots[i]), slots[i], i, w)
      ensures forall i :: 0 <= i < |slots| && slots[i].phase == Idle ==> Mine(batch, i) == []
      ensures batch != [] ==> OneKind(if old(batch) != [] then lead else FirstKind(old(slots)))
      ensures |batch| < nBatch ==> forall i :: 0 <= i < |slots| ==>
        Wanted(old(slots[i]), if old(batch) != [] then lead else FirstKind(old(slots))) ==>
          FedWhole(old(slots[i]), slots[i], i, w)
    {
      hide Good, GoodUpTo, InBatch, FedInPass, FedWhole, Reaches, OneKind;
      ghost var wanted := if batch != [] then lead else FirstKind(slots);
      var kind, led := lead, batch != [];
      for k := 0 to |slots|
        invariant |slots| == old(|slots|) && GoodUpTo(0) && old(|batch|) <= |batch| <= nAlloc && InBatch(|slots|)
        invariant forall i :: k <= i < |slots| ==> slots[i] == old(slots[i])
        invariant forall i :: k <= i < |slots| && slots[i].phase != Generating ==> Mine(batch, i) == []
        invariant forall i :: 0 <= i < k ==> slots[i] == old(slots[i]) || FedInPass(old(slots[i]), slots[i], i, w)
        invariant forall i :: 0 <= i < k && slots[i].phase == Idle ==> Mine(batch, i) == []
        invariant OneKind(kind) && if led then kind == wanted else batch == [] && FirstKind(slots[k..]) == wanted
        invariant |batch| < nBatch ==>
          forall i :: 0 <= i < k ==> Wanted(old(slots[i]), wanted) ==> FedWhole(old(slots[i]), slots[i], i, w)
      {
        ghost var rest := slots[k + 1..];
        assert slots[k..][1..] == rest;
        var s := slots[k];
        if |batch| < nBatch && s.phase != Idle && (led ==> s.task.kind == kind) {
          var reached := true;
          if s.phase == Started || s.phase == ProcessingPrompt {
            reached := FeedInto(k, w);
            assert slots[k + 1..] == rest;
          }
          if reached && !led {
            kind, led := s.task.kind, true;
          }
          if batch == [] { NothingOfAKind(kind); }
        }
      }
    }

    /** One pass of the slot loop: contexts are shifted, the generating slots and then the pending prompts enter the
        batch, and the decode loop runs to its end.  A finished pass leaves every slot in order; an aborted one leaves
        all slots idle, and in order except exactly those that lose cells; so does one ended by an exception. */
    method Pass(w: World)
      returns (out: Outcome, ghost shifted: seq<Slot>, ghost entered: seq<Slot>,
               ghost fed: seq<Slot>, ghost trace: seq<Loop>)
      requires Valid() && Sane(w) && AtRest()
      modifies this
      ensures |slots| == old(|slots|) == |shifted| == |entered| == |fed|
      ensures NoneBusy(old(slots)) ==> out.Finished? && slots == old(slots) && AtRest()
      ensures forall i :: 0 <= i < |slots| ==> MaybeShifted(old(slots[i]), shifted[i])
      ensures out.Crashed? <==> Demand(shifted, |shifted|, LeadKind(shifted), w) > nAlloc
      ensures !NoneBusy(old(slots)) && !out.Crashed? ==>
        BatchBuilt(shifted, entered, fed, w) && trace != [] && Trace(Fixed(w), fed, trace) &&
        AlwaysGood(Fixed(w), trace)
      ensures !NoneBusy(old(slots)) && out.Finished? ==>
        AtRest() && slots == Last(trace).slots && Last(trace).off == |batch| && Tiles(Last(trace).views, |batch|)
      ensures out.Aborted? ==>
        out.at == Last(trace).off < |batch| && FailedFrom(Last(trace).slots, slots) && !w.throws(|trace| - 1) &&
        (w.decodeResult(|trace| - 1) < 0 || (w.decodeResult(|trace| - 1) == 1 && Last(trace).n == 1))
      ensures out.Thrown? ==>
        w.throws(|trace| - 1) && out.at == ThrownAt(Fixed(w), Last(trace), w.decodeResult(|trace| - 1)) &&
        Last(trace).off < |batch| && DroppedFrom(Last(trace).slots, slots, Last(trace).off, out.at)
      ensures out.Aborted? || out.Thrown? ==> forall i :: 0 <= i < |slots| ==>
        slots[i].phase == Idle && LostExactly(i, w, fed, Last(trace), out.at, out.Thrown?)
    {
      hide Good, Tiles, Trace, LosesCells, AlwaysGood, Demand, MaybeShifted, ThrownAt, FailedFrom, DroppedFrom;
      shifted, entered, fed, trace := slots, slots, slots, [];
      if forall i :: 0 <= i < |slots| ==> slots[i].phase == Idle {
        NoDemand(slots, |slots|, LeadKind(slots), w);
        IdleUnshifted(slots);
        return Finished, shifted, entered, fed, trace;
      }
      var addOk;
      addOk, shifted, entered := BuildBatch(w);
      if !addOk {
        out := Crashed;
        return;
      }
      fed := slots;
      out, trace := DecodeAndEnd(w);
    }

    /** The decode loop of the pass, and what its end leaves. */
    method DecodeAndEnd(w: World) returns (out: Outcome, ghost trace: seq<Loop>)
      requires Valid() && Sane(w) && GoodUpTo(0) && InBatch(|slots|)
      requires forall i :: 0 <= i < |slots| && slots[i].phase == Idle ==> Mine(batch, i) == []
      modifies this`slots
      ensures |slots| == old(|slots|) && !out.Crashed? && trace != [] && Trace(Fixed(w), old(slots), trace)
      ensures AlwaysGood(Fixed(w), trace)
      ensures out.Finished? ==>
        AtRest() && slots == Last(trace).slots && Last(trace).off == |batch| && Tiles(Last(trace).views, |batch|)
      ensures out.Aborted? ==>
        out.at == Last(trace).off < |batch| && FailedFrom(Last(trace).slots, slots) && !w.throws(|trace| - 1) &&
        (w.decodeResult(|trace| - 1) < 0 || (w.decodeResult(|trace| - 1) == 1 && Last(trace).n == 1))
      ensures out.Thrown? ==>
        w.throws(|trace| - 1) && out.at == ThrownAt(Fixed(w), Last(trace), w.decodeResult(|trace| - 1)) &&
        Last(trace).off < |batch| && DroppedFrom(Last(trace).slots, slots, Last(trace).off, out.at)
      ensures out.Aborted? || out.Thrown? ==> forall i :: 0 <= i < |slots| ==>
        slots[i].phase == Idle && LostExactly(i, w, old(slots), Last(trace), out.at, out.Thrown?)
    {
      hide Good, Tiles, Trace, LosesCells, AlwaysGood, ThrownAt;
      ghost var fed := slots;
      out, trace := DecodeBatch(w);
      TraceTiles(Fixed(w), fed, trace);
      if out.Finished? {
        forall i | 0 <= i < |slots| ensures Good(slots[i], i, [], 0, nCtx, ctxShift, model) {
          DecodedIsAtRest(slots[i], i);
        }
      } else if out.Aborted? {
        forall i | 0 <= i < |slots|
          ensures slots[i].phase == Idle && LostExactly(i, w, fed, Last(trace), out.at, false)
        {
          AbortExactly(Fixed(w), fed, trace, i);
        }
      } else {
        forall i | 0 <= i < |slots|
          ensures slots[i].phase == Idle && LostExactly(i, w, fed, Last(trace), out.at, true)
        {
          ThrowExactly(Fixed(w), fed, trace, i, out.at);
          StoredSame(Last(trace).slots[i], i, batch[Last(trace).off..out.at]);
        }
      }
    }

    /** pre_decode: the batch of a pass is built. */
    method BuildBatch(w: World) returns (addOk: bool, ghost shifted: seq<Slot>, ghost entered: seq<Slot>)
      requires Valid() && Sane(w) && AtRest()
      modifies this
      ensures |slots| == old(|slots|) == |shifted| == |entered|
      ensures forall i :: 0 <= i < |slots| ==> MaybeShifted(old(slots[i]), shifted[i])
      ensures addOk <==> Demand(shifted, |shifted|, LeadKind(shifted), w) <= nAlloc
      ensures addOk ==> GoodUpTo(0) && BatchBuilt(shifted, entered, slots, w)
    {
      hide Good, Entered, FedInPass, FedWhole, MaybeShifted, RoomForOne, OneKind, Together;
      ShiftContexts();
      shifted, entered := slots, slots;
      var kind := LeadKind(slots);
      addOk := BatchGenerating(w);
      if !addOk {
        return;
      }
      entered := slots;
      if contBatching || batch == [] {
        BatchPrompts(kind, w);
      }
      assert batch[0..] == batch;
      KindsTogether();
    }

    ghost predicate NoneBusy(ss: seq<Slot>) {
      forall i :: 0 <= i < |ss| ==> ss[i].phase == Idle
    }

    /** The slots after a pass that was ended at batch position at: slot i is in order unless it loses cells. */
    ghost predicate LostExactly(i: nat, w: World, fed: seq<Slot>, l: Loop, at: nat, thrown: bool)
      requires i < |slots| && i < |fed|
      reads this
    {
      at <= |batch| &&
      (Good(slots[i], i, [], 0, nCtx, ctxShift, model) <==> !LosesCells(Fixed(w), fed[i], l, i, at, thrown))
    }

    /** Prompts join a batch with generating slots only under continuous batching. */
    ghost predicate PromptsTaken(shifted: seq<Slot>, entered: seq<Slot>, fed: seq<Slot>, w: World)
      requires |entered| == |shifted| == |fed|
      reads this`batch
    {
      var n := Demand(shifted, |shifted|, LeadKind(shifted), w);
      if contBatching || n == 0 then
        |batch| < nBatch ==> forall i :: 0 <= i < |fed| ==>
          Wanted(entered[i], if n > 0 then LeadKind(shifted) else FirstKind(entered)) ==>
            FedWhole(entered[i], fed[i], i, w)
      else fed == entered
    }

    /** Only slots that can be batched with each other are in the batch. */
    ghost predicate Together(ss: seq<Slot>)
      requires InBatch(|ss|)
      reads this`batch
    {
      forall j, k :: 0 <= j < |batch| && 0 <= k < |batch| ==> ss[batch[j].id].task.kind == ss[batch[k].id].task.kind
    }

    lemma KindsTogether()
      requires InBatch(|slots|) && (batch == [] || exists kind :: OneKind(kind))
      ensures Together(slots)
    {
    }

    /** The batch of a pass: which slots entered it with what, that the wanted prompts did as long as it is not full,
        and that every slot is in order with it. */
    ghost predicate BatchBuilt(shifted: seq<Slot>, entered: seq<Slot>, fed: seq<Slot>, w: World)
      reads this`batch
    {
      |entered| == |shifted| == |fed| && InBatch(|fed|) &&
      Demand(shifted, |shifted|, LeadKind(shifted), w) <= |batch| <= nAlloc &&
      PromptsTaken(shifted, entered, fed, w) && Together(fed) &&
      forall i :: 0 <= i < |fed| ==>
        Entered(shifted[i], entered[i], i, LeadKind(shifted), w) &&
        (fed[i] == entered[i] || FedInPass(entered[i], fed[i], i, w)) &&
        (fed[i].phase == Idle ==> Mine(batch, i) == []) && Good(fed[i], i, batch, 0, nCtx, ctxShift, model)
    }

    /** What that comes to while slot f is the first that generates: it and the generating slots of its kind enter, no
        slot of another kind has an entry; prompts join only under continuous batching, and then every one of that kind
        is rejected, done, or cut at a border, unless the batch is full or too small for one that cannot be split. */
    lemma GeneratingBatch(shifted: seq<Slot>, entered: seq<Slot>, fed: seq<Slot>, w: World, f: nat)
      requires BatchBuilt(shifted, entered, fed, w) && f < |shifted| && shifted[f].phase == Generating
      requires forall j :: 0 <= j < f ==> shifted[j].phase != Generating
      ensures forall i :: 0 <= i < |shifted| ==>
        if shifted[i].phase == Generating && shifted[i].task.kind == shifted[f].task.kind then
          (entered[i].iBatch >= 0 || entered[i].specIdx != []) &&
          entered[i].tokens == shifted[i].tokens + [shifted[i].sampled] + entered[i].draft
        else entered[i] == shifted[i]
      ensures !contBatching ==> fed == entered
      ensures contBatching && |batch| < nBatch ==> forall i | 0 <= i < |fed| &&
        (entered[i].phase == Started || entered[i].phase == ProcessingPrompt) &&
        entered[i].task.kind == shifted[f].task.kind ::
          fed[i].phase == Idle || fed[i].phase == DonePrompt || !fed[i].task.canSplit || w.border(i, |fed[i].tokens|)
      ensures forall j, k :: 0 <= j < |batch| && 0 <= k < |batch| ==>
        fed[batch[j].id].task.kind == fed[batch[k].id].task.kind
    {
      hide LeadKind, Entered, FedWhole, FedInPass, Good, Entries;
      FirstLeads(shifted, f);
      GeneratingEnter(shifted, entered, f, w);
      SomeDemand(shifted, f, w);
      forall i | 0 <= i < |fed| && Wanted(entered[i], shifted[f].task.kind) && FedWhole(entered[i], fed[i], i, w)
        ensures fed[i].phase == Idle || fed[i].phase == DonePrompt || !fed[i].task.canSplit ||
                w.border(i, |fed[i].tokens|)
      {
        WholeTaken(entered[i], fed[i], i, w);
      }
    }

    /** And when no slot generates, prompts join in any case, those of the kind of the first one that can lead. */
    lemma PromptBatch(shifted: seq<Slot>, entered: seq<Slot>, fed: seq<Slot>, w: World)
      requires BatchBuilt(shifted, entered, fed, w) && |batch| < nBatch
      requires forall i :: 0 <= i < |shifted| ==> shifted[i].phase != Generating
      ensures entered == shifted
      ensures forall i | 0 <= i < |fed| && (shifted[i].phase == Started || shifted[i].phase == ProcessingPrompt) &&
        shifted[i].task.kind == FirstKind(shifted) ::
          fed[i].phase == Idle || fed[i].phase == DonePrompt || !fed[i].task.canSplit || w.border(i, |fed[i].tokens|)
    {
      hide FirstKind, LeadKind, FedWhole, FedInPass, Good;
      NoDemand(shifted, |shifted|, LeadKind(shifted), w);
      assert entered == shifted;
      forall i | 0 <= i < |fed| && Wanted(entered[i], FirstKind(shifted)) && FedWhole(entered[i], fed[i], i, w)
        ensures fed[i].phase == Idle || fed[i].phase == DonePrompt || !fed[i].task.canSplit ||
                w.border(i, |fed[i].tokens|)
      {
        WholeTaken(entered[i], fed[i], i, w);
      }
    }

    lemma WholeTaken(s: Slot, r: Slot, i: nat, w: World)
      requires FedWhole(s, r, i, w)
      ensures r.phase == Idle || r.phase == DonePrompt || !r.task.canSplit || w.border(i, |r.tokens|)
    {
      hide Fed;
      var n: nat, n': nat :| n <= n' < nBatch && Fed(s, r, n, n', i, w);
      FedCases(s, r, n, n', i, w);
    }

    lemma SomeDemand(ss: seq<Slot>, f: nat, w: World)
      requires f < |ss| && ss[f].phase == Generating && ss[f].task.kind == LeadKind(ss)
      ensures Demand(ss, |ss|, LeadKind(ss), w) > 0
    {
      hide LeadKind;
      DemandGrows(ss, f + 1, |ss|, LeadKind(ss), w);
    }

    /** Once the whole batch is decoded, a slot's promises no longer refer to it. */
    lemma DecodedIsAtRest(s: Slot, i: nat)
      requires Good(s, i, batch, |batch|, nCtx, ctxShift, model)
      ensures Good(s, i, [], 0, nCtx, ctxShift, model)
    {
    }

    // ---- what happens to a slot between passes ----

    /** launch_slot_with_task: an idle slot takes a task and keeps what it has cached. */
    method Launch(i: nat, task: Task)
      requires AtRest() && i < |slots| && slots[i].phase == Idle && (task.needSampling ==> task.canSplit)
      modifies this`slots
      ensures AtRest() && slots == old(slots)[i := old(slots)[i].(phase := Started, task := task, sent := [])]
    {
      slots := slots[i := slots[i].(phase := Started, task := task, sent := [])];
    }

    /** A change of adapters forgets the token list only; the stale cells go when the next prompt is fed. */
    method ForgetTokens(i: nat)
      requires AtRest() && i < |slots| && slots[i].phase == Idle
      modifies this`slots
      ensures AtRest() && slots == old(slots)[i := old(slots)[i].(tokens := [])]
    {
      slots := slots[i := slots[i].(tokens := [])];
    }

    /** A cancelled or failed request releases its slot at whatever point it is. */
    method Cancel(i: nat)
      requires AtRest() && i < |slots|
      modifies this`slots
      ensures AtRest() && slots == old(slots)[i := Release(old(slots)[i])]
      ensures slots[i].phase == Idle && !slots[i].truncated && slots[i].draft == [] && slots[i].specIdx == []
      ensures slots[i].tokens == old(slots)[i].tokens && slots[i].mem == old(slots)[i].mem
    {
      ReleasedGood(slots[i], i, [], 0, nCtx, ctxShift, model);
      slots := slots[i := Release(slots[i])];
    }

    /** prompt_clear on an idle slot. */
    method Erase(i: nat)
      requires AtRest() && i < |slots| && slots[i].phase == Idle
      modifies this`slots
      ensures AtRest() && slots == old(slots)[i := PromptClear(old(slots)[i])]
      ensures slots[i].mem == map[] && slots[i].tokens == []
    {
      PurgedGood(slots[i], i, [], 0, nCtx, ctxShift, model);
      assert forall p :: p !in PromptClear(slots[i]).mem;
      slots := slots[i := PromptClear(slots[i])];
    }

    /** What a slot's file, or an entry of the prompt cache, holds: its tokens and its cells. */
    method Save(i: nat) returns (f: Saved)
      requires AtRest() && i < |slots| && slots[i].phase == Idle
      ensures f == Saved(slots[i].tokens, slots[i].mem) && Holds(f)
    {
      f := Saved(slots[i].tokens, slots[i].mem);
      SavedHolds(slots[i], i);
    }

    /** An idle slot takes over what was saved.  A file that cannot be read, whose tokens are not valid, or do not fit,
        empties it; otherwise the slot is in order exactly when the cells of the file hold its tokens, as they do when
        Save wrote it. */
    method Restore(i: nat, f: Saved, readable: bool, valid: bool) returns (ok: bool)
      requires AtRest() && i < |slots| && slots[i].phase == Idle
      modifies this`slots
      ensures ok <==> readable && valid && |f.tokens| <= nCtx
      ensures slots == old(slots)[i := if ok then old(slots)[i].(tokens := f.tokens, mem := f.mem)
                         else PromptClear(old(slots)[i])]
      ensures AtRest() <==> !ok || Holds(f)
    {
      ok := readable && valid && |f.tokens| <= nCtx;
      var s := if ok then slots[i].(tokens := f.tokens, mem := f.mem) else PromptClear(slots[i]);
      if ok {
        RestoredGood(slots[i], i, f);
      } else {
        PurgedGood(slots[i], i, [], 0, nCtx, ctxShift, model);
      }
      hide Good;
      ghost var before := slots;
      slots := slots[i := s];
      assert slots[i] == s && forall j :: 0 <= j < |slots| && j != i ==> slots[j] == before[j];
    }

    lemma SavedHolds(s: Slot, i: nat)
      requires Good(s, i, [], 0, nCtx, ctxShift, model)
      ensures Holds(Saved(s.tokens, s.mem))
    {
      var none: seq<Entry> := [];
      assert none[0..] == none && s.tokens[..|s.tokens| - 0] == s.tokens;
    }

    lemma RestoredGood(s: Slot, i: nat, f: Saved)
      requires s.phase == Idle && Good(s, i, [], 0, nCtx, ctxShift, model)
      ensures Good(s.(tokens := f.tokens, mem := f.mem), i, [], 0, nCtx, ctxShift, model) <==> Holds(f)
    {
      var none: seq<Entry> := [];
      assert none[0..] == none && f.tokens[..|f.tokens| - 0] == f.tokens;
    }
  }
}
