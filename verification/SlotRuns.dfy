/** Runs of a fresh server with one slot, for what a pass (server-context.cpp, update_slots) can do wrong. */
module SlotRuns {
  import opened KvMemory
  import opened SlotState
  import opened PostDecode
  import opened DecodeLoop
  import opened UpdateSlots
  import PromptSteps

  /** A prompt of one token, to be completed. */
  const TASK := Task([7], 0, 0, 0, false, true, true, 0)

  /** No limits and no stop words; every decode succeeds. */
  function Calm(draft: seq<Token>): World {
    World((id, n) => if |draft| <= n then draft else [], id => 0, k => 0, k => false, (id, off) => 100, id => false,
          (id, n) => false)
  }

  /** The first decode finds no room, the second succeeds, the third fails. */
  function Rough(draft: seq<Token>): World {
    Calm(draft).(decodeResult := k => if k == 0 then 1 else if k == 1 then 0 else -1)
  }

  /** The second decode succeeds, but the drafter then fails on its sub-batch. */
  function Failing(draft: seq<Token>): World {
    Rough(draft).(throws := k => k == 1)
  }

  lemma CalmIsSane(draft: seq<Token>)
    ensures Sane(Calm(draft)) && Sane(Rough(draft)) && Sane(Failing(draft))
  {
  }

  /** With result 0 a batch of one entry takes one call. */
  lemma OneCall(e: Env, slots: seq<Slot>, t: seq<Loop>)
    requires Trace(e, slots, t) && |e.batch| == 1 <= e.nBatch && slots != [] && Last(t).off == 1
    requires e.w.decodeResult(0) == 0
    ensures |t| == 2 && t[1].slots != [] && Delivered(e, slots[0], t[1].slots[0], 0, 0, 1)
  {
    hide Delivered;
    assert StepAt(e, t, 0);
    forall k: nat | k < |t| - 1 ensures t[k].off < 1 {
      assert StepAt(e, t, k);
    }
  }

  /** The slot that got the task, and what it is once its prompt is decoded. */
  const FRESH := EMPTY.(phase := Started, task := TASK)

  ghost predicate OnlyEntries(batch: seq<Entry>) {
    forall k :: 0 <= k < |batch| ==> batch[k].id == 0
  }

  /** The whole prompt is fed. */
  lemma PromptFed(r: Server, f: Slot, w: World)
    requires r.Valid() && r.nCtx == 16 && r.FedInPass(FRESH, f, 0, w)
    ensures f.phase == DonePrompt && f.tokens == [7] && f.task == TASK
  {
    var n: nat, n': nat :| n < r.nBatch && r.Fed(FRESH, f, n, n', 0, w);
    assert PromptSteps.Reusable(FRESH, r.canShift) == 0;
    assert !PromptSteps.Rejected(FRESH, 16, r.nUbatch);
  }

  /** It is then the only entry of the batch. */
  lemma PromptAlone(f: Slot, batch: seq<Entry>, model: Model)
    requires f.phase == DonePrompt && f.tokens == [7] && OnlyEntries(batch)
    requires Good(f, 0, batch, 0, 16, true, model)
    ensures |batch| == 1 && f.draft == [] && f.specIdx == [] && f.iBatch == 0
  {
    assert batch[0..] == batch;
    MineAll(batch, 0);
  }

  lemma PromptGoesIn(r: Server, shifted: seq<Slot>, entered: seq<Slot>, fed: seq<Slot>, w: World)
    requires r.Valid() && r.nCtx == 16 && r.BatchBuilt(shifted, entered, fed, w) && shifted == [FRESH]
    ensures fed[0].phase == DonePrompt && fed[0].tokens == [7] && fed[0].task == TASK
  {
    assert entered == [FRESH] && r.Demand(shifted, 0, 0, w) == 0;
    assert !PromptSteps.Rejected(FRESH, 16, r.nUbatch);
    hide Good;
    if |r.batch| < r.nBatch {
      assert r.FirstKind(entered) == 0;
      assert r.Wanted(entered[0], 0);
    } else {
      MineAll(r.batch, 0);
      StartedHasNone(fed[0], r.batch, r.nCtx, r.ctxShift, r.model);
    }
    PromptFed(r, fed[0], w);
  }

  lemma StartedHasNone(f: Slot, batch: seq<Entry>, nCtx: int, ctxShift: bool, model: Model)
    requires Good(f, 0, batch, 0, nCtx, ctxShift, model) && OnlyEntries(batch)
    ensures f.phase == Started ==> batch == []
  {
    assert batch[0..] == batch;
    MineAll(batch, 0);
  }

  /** The slot after its prompt's output was delivered. */
  ghost predicate Begun(s: Slot) {
    s.phase == Generating && s.tokens == [7] && s.draft == [] && s.task == TASK && !Waiting(s)
  }

  lemma PromptDelivered(e: Env, f: Slot, r: Slot)
    requires f.phase == DonePrompt && f.tokens == [7] && f.task == TASK && f.draft == [] && f.specIdx == []
    requires f.iBatch == 0
    requires e.ctxShift && e.w == Calm([]) && Delivered(e, f, r, 0, 0, 1)
    ensures Begun(r)
  {
    StoredSame(f, 0, e.batch[0..1]);
  }

  /** A fresh server with one slot, after the pass that processes the slot's prompt. */
  method OneGenerating(nBatch: int, model: Model) returns (r: Server)
    requires 1 <= nBatch
    ensures fresh(r) && r.Valid() && r.AtRest() && r.nCtx == 16 && r.nBatch == r.nAlloc == nBatch && r.ctxShift
    ensures !r.kvUnified
    ensures |r.slots| == 1 && Begun(r.slots[0])
  {
    hide Good, Trace, AlwaysGood, Tiles, Delivered, Sane;
    r := new Server(1, 16, nBatch, nBatch, true, false, true, false, false, model);
    r.Launch(0, TASK);
    CalmIsSane([]);
    ghost var w := Calm([]);
    assert r.slots == [FRESH] && !r.NoneBusy([FRESH]) by { assert [FRESH][0].phase != Idle; }
    var out, shifted, entered, fed, trace := r.Pass(Calm([]));
    assert shifted == [FRESH];
    assert r.Demand(shifted, 0, 0, w) == 0;
    PromptGoesIn(r, shifted, entered, fed, w);
    PromptAlone(fed[0], r.batch, model);
    OneCall(r.Fixed(w), fed, trace);
    PromptDelivered(r.Fixed(w), fed[0], r.slots[0]);
  }

  /** A batch of one entry cannot take the sampled token and a draft of one: the assertion on the batch fails. */
  method DraftDoesNotFit(model: Model) returns (r: Server, out: Outcome)
    ensures fresh(r) && r.Valid() && |r.slots| == 1 && out == Crashed
  {
    hide Good, Trace, AlwaysGood, Tiles, Delivered, Sane;
    r := OneGenerating(1, model);
    CalmIsSane([5]);
    ghost var s := r.slots[0];
    ghost var shifted, entered, fed, trace;
    out, shifted, entered, fed, trace := r.Pass(Calm([5]));
    assert shifted == [s];
    assert r.Demand(shifted, 0, 0, Calm([5])) == 0;
    assert r.DraftTaken(s, 0, Calm([5])) == [5];
  }

  /** The sampled token and a draft of two are the batch. */
  lemma DraftGoesIn(r: Server, s: Slot, shifted: seq<Slot>, entered: seq<Slot>, fed: seq<Slot>, w: World)
    requires r.Valid() && r.nCtx == 16 && r.BatchBuilt(shifted, entered, fed, w) && shifted == [s]
    requires w == Rough([5, 6]) || w == Failing([5, 6])
    requires Begun(s) && Good(s, 0, [], 0, 16, r.ctxShift, r.model)
    ensures fed[0].phase == Generating && fed[0].tokens == [7, s.sampled, 5, 6] && fed[0].draft == [5, 6]
    ensures Good(fed[0], 0, r.batch, 0, 16, r.ctxShift, r.model) && fed[0].mem == s.mem && Waiting(fed[0])
    ensures |r.batch| >= 3 && OnlyEntries(r.batch)
  {
    hide Good;
    assert r.DraftTaken(s, 0, w) == [5, 6];
    assert r.Demand(shifted, 0, 0, w) == 0;
    assert r.Demand(shifted, 1, 0, w) == 3;
    assert [7] + [s.sampled] + [5, 6] == [7, s.sampled, 5, 6];
  }

  lemma DraftPlaces(f: Slot, s: Slot, batch: seq<Entry>, nCtx: int, ctxShift: bool, model: Model)
    requires Begun(s) && Good(s, 0, [], 0, nCtx, ctxShift, model) && Good(f, 0, batch, 0, nCtx, ctxShift, model)
    requires f.phase == Generating && f.tokens == [7, s.sampled, 5, 6] && f.draft == [5, 6] && f.mem == s.mem
    requires Waiting(f)
    requires |batch| >= 3 && OnlyEntries(batch)
    ensures |batch| == 3 && CutDraft(f, 0, 2) && Mine(batch[2..], 0) != []
  {
    assert batch[0..] == batch && Mine([][0..], 0) == [];
    MineAll(batch, 0);
    MineAll(batch[2..], 0);
    assert s.tokens[..1 - 0][0] == 7 && 0 in s.mem;
    assert OutputAt(batch, 0, f.specIdx[2], 0, 3);
    assert !Inside(f.specIdx[2], 0, 2);
  }

  lemma RoughCalls(e: Env, slots: seq<Slot>, t: seq<Loop>)
    requires Trace(e, slots, t) && |e.batch| == 3 && e.nBatch == 4 && !e.kvUnified && e.w == Rough([5, 6])
    ensures 1 <= |t| <= 3 && t[0] == Loop(0, 4, slots, [], {}) && (|t| > 1 ==> t[1] == Loop(0, 2, slots, [], {}))
    ensures |t| > 2 ==> t[2].off == 2 && |t[2].slots| == |slots|
    ensures |t| > 2 && slots != [] ==> Delivered(e, slots[0], t[2].slots[0], 0, 0, 2)
  {
    hide Delivered;
    forall k: nat | k < |t| - 1 ensures e.w.decodeResult(k) >= 0 {
      assert StepAt(e, t, k);
    }
    assert e.w.decodeResult(2) == -1;
    if |t| > 1 { assert StepAt(e, t, 0); }
    if |t| > 2 { assert StepAt(e, t, 1); }
  }

  /** A draft of two and a batch of four.  The first decode finds no room, so the sub-batch is halved and cuts the
      draft; the slot is released, with the draft's last token in its list and its entry still in the batch; then a
      decode fails for good.  The released slot is left alone, and claims a token that no cell holds. */
  method CutDraftLosesCells(model: Model) returns (r: Server, out: Outcome)
    ensures fresh(r) && r.Valid() && |r.slots| == 1 && out == Aborted(2)
    ensures r.slots[0].phase == Idle && |r.slots[0].tokens| == 4 && !Agree(r.slots[0].mem, r.slots[0].tokens)
  {
    hide Good, Trace, AlwaysGood, Tiles, Delivered, Sane;
    r := OneGenerating(4, model);
    CalmIsSane([5, 6]);
    ghost var s := r.slots[0];
    ghost var shifted, entered, fed, trace;
    out, shifted, entered, fed, trace := r.Pass(Rough([5, 6]));
    assert shifted == [s];
    DraftGoesIn(r, s, shifted, entered, fed, Rough([5, 6]));
    DraftPlaces(fed[0], s, r.batch, 16, r.ctxShift, r.model);
    RoughCalls(r.Fixed(Rough([5, 6])), fed, trace);
    CutDraftIdles(r.Fixed(Rough([5, 6])), fed, trace);
  }

  lemma CutDraftIdles(e: Env, fed: seq<Slot>, t: seq<Loop>)
    requires |fed| == 1 && AlwaysGood(e, t) && |t| == 3 && t[2].off == 2 <= |e.batch| && |t[2].slots| == 1
    requires Delivered(e, fed[0], t[2].slots[0], 0, 0, 2) && CutDraft(fed[0], 0, 2) && Mine(e.batch[2..], 0) != []
    requires Good(fed[0], 0, e.batch, 0, e.nCtx, e.ctxShift, e.model)
    ensures var r := t[2].slots[0];
      r.phase == Idle && r.tokens == fed[0].tokens && !Agree(r.mem, r.tokens)
  {
    ViewEnd(e, fed[0], t[2].slots[0], 0, 0, 2);
    assert AllGoodAt(e, t, 2);
    StillWaiting(t[2].slots[0], e.batch);
  }

  lemma StillWaiting(s: Slot, batch: seq<Entry>)
    requires 2 <= |batch| && Synced(s, Mine(batch[2..], 0)) && Mine(batch[2..], 0) != [] && s.tokens != []
    ensures |s.tokens| - 1 !in s.mem && !Agree(s.mem, s.tokens)
  {
    assert s.tokens[|s.tokens| - 1] == s.tokens[|s.tokens| - 1];
  }

  lemma FailingCalls(e: Env, slots: seq<Slot>, t: seq<Loop>)
    requires Trace(e, slots, t) && |e.batch| == 3 && e.nBatch == 4 && !e.kvUnified && e.w == Failing([5, 6])
    ensures 1 <= |t| <= 2 && t[0] == Loop(0, 4, slots, [], {}) && (|t| > 1 ==> t[1] == Loop(0, 2, slots, [], {}))
  {
    hide Delivered;
    forall k: nat | k < |t| - 1 ensures !e.w.throws(k) {
      assert StepAt(e, t, k);
    }
    assert e.w.throws(1);
    if |t| > 1 { assert StepAt(e, t, 0); }
  }

  /** The same draft, but the drafter fails on the first sub-batch that could be decoded: no draft was cut, the slot was
      still processing, and it is released with a token that no cell holds. */
  method ThrowLosesCells(model: Model) returns (r: Server, out: Outcome)
    ensures fresh(r) && r.Valid() && |r.slots| == 1 && out == Thrown(2)
    ensures r.slots[0].phase == Idle && |r.slots[0].tokens| == 4 && !Agree(r.slots[0].mem, r.slots[0].tokens)
  {
    hide Good, Trace, AlwaysGood, Tiles, Delivered, Sane;
    r := OneGenerating(4, model);
    CalmIsSane([5, 6]);
    ghost var s := r.slots[0];
    ghost var shifted, entered, fed, trace;
    out, shifted, entered, fed, trace := r.Pass(Failing([5, 6]));
    assert shifted == [s];
    DraftGoesIn(r, s, shifted, entered, fed, Failing([5, 6]));
    DraftPlaces(fed[0], s, r.batch, 16, r.ctxShift, r.model);
    FailingCalls(r.Fixed(Failing([5, 6])), fed, trace);
    HalfStored(fed[0], r.batch, 16, r.ctxShift, r.model);
  }

  lemma HalfStored(f: Slot, batch: seq<Entry>, nCtx: int, ctxShift: bool, model: Model)
    requires 2 <= |batch| && Good(f, 0, batch, 0, nCtx, ctxShift, model) && Mine(batch[2..], 0) != []
    requires f.phase != Idle && f.tokens != []
    ensures var r := Dropped(StoredAll(f, 0, batch[0..2]));
      r.phase == Idle && r.tokens == f.tokens && !Agree(r.mem, r.tokens)
  {
    StoredSame(f, 0, batch[0..2]);
    StoredSynced(f, 0, batch, 0, 2);
    StillWaiting(StoredAll(f, 0, batch[0..2]), batch);
  }
}
