/** The decode loop of one pass (server-context.cpp, update_slots and decode): the batch is decoded in sub-batches, a
    failure purges an idle slot or halves the sub-batch, and a fatal one or an exception ends the pass. */
module DecodeLoop {
  import opened KvMemory
  import opened SlotState
  import opened PostDecode

  /** Everything the pass takes from outside: the drafter, llama_decode's return codes by call number and which calls
      throw, stop conditions, whether the memory needs a checkpoint to roll back, and where in a prompt a context
      checkpoint is to be taken. */
  datatype World = World(
    draftOf: (nat, int) -> seq<Token>,   // slot, maximal length
    remaining: nat -> int,               // n_remaining of a slot, not positive = no limit
    decodeResult: nat -> int,
    throws: nat -> bool,                 // by call number: the drafter fails on the sub-batch, or a yield rethrows
    stopAt: (nat, nat) -> nat,           // slot, sub-batch offset: which delivered token ends the request
    useCkpt: nat -> bool,
    border: (nat, nat) -> bool)          // slot, prompt tokens fed: a context checkpoint is wanted here

  /** common_speculative_draft respects n_max; llama_decode returns 0, 1 or a negative error. */
  ghost predicate Sane(w: World) {
    (forall id, n :: w.draftOf(id, n) != [] ==> |w.draftOf(id, n)| <= n) && (forall k :: w.decodeResult(k) <= 1)
  }

  datatype Outcome =
    | Finished           // every sub-batch was decoded
    | Aborted(at: nat)   // a fatal decode error at batch position at
    | Thrown(at: nat)    // a call threw when the batch was decoded up to at
    | Crashed            // GGML_ASSERT: the batch cannot hold the sampled and draft tokens

  /** The sub-batches, in order, cover [0, n) without gap or overlap. */
  ghost predicate Tiles(views: seq<(nat, nat)>, n: nat) {
    if views == [] then n == 0
    else
      var (off, len) := views[|views| - 1];
      len > 0 && off + len == n && Tiles(views[..|views| - 1], off)
  }

  predicate InView(views: seq<(nat, nat)>, k: int, idx: nat) {
    0 <= k < |views| && Inside(idx, views[k].0, views[k].1)
  }

  /** Every batch index, hence every sample index, lies in exactly one sub-batch. */
  lemma {:induction false} TilesOnce(views: seq<(nat, nat)>, n: nat, idx: nat)
    requires Tiles(views, n) && idx < n
    ensures exists k :: InView(views, k, idx)
    ensures forall j, k :: InView(views, j, idx) && InView(views, k, idx) ==> j == k
  {
    var last := |views| - 1;
    var front, off := views[..last], views[last].0;
    TilesBelow(front, off);
    assert forall k :: InView(front, k, idx) <==> InView(views, k, idx) && k < last;
    if idx < off {
      TilesOnce(front, off, idx);
    } else {
      assert InView(views, last, idx);
    }
  }

  lemma {:induction false} TilesBelow(views: seq<(nat, nat)>, n: nat)
    requires Tiles(views, n)
    ensures forall k :: 0 <= k < |views| ==> views[k].0 + views[k].1 <= n
  {
    if views != [] {
      var last := |views| - 1;
      TilesBelow(views[..last], views[last].0);
      assert forall k :: 0 <= k < last ==> views[k] == views[..last][k];
    }
  }

  lemma TilesGrow(views: seq<(nat, nat)>, off: nat, len: nat)
    requires Tiles(views, off) && len > 0
    ensures Tiles(views + [(off, len)], off + len)
  {
  }

  /** An idle slot that still holds tokens: a failed decode may purge it. */
  predicate Held(s: Slot) {
    s.phase == Idle && s.tokens != []
  }

  function FirstHeld(slots: seq<Slot>): (i: nat)
    ensures i <= |slots| && (i < |slots| ==> Held(slots[i]))
    ensures forall j :: 0 <= j < i ==> !Held(slots[j])
  {
    if slots == [] || Held(slots[0]) then 0
    else
      assert forall j :: 0 < j < |slots| ==> slots[j] == slots[1..][j - 1];
      1 + FirstHeld(slots[1..])
  }

  function Purgeable(slots: seq<Slot>): (n: nat) {
    if slots == [] then 0 else Purgeable(slots[1..]) + (if Held(slots[0]) then 1 else 0)
  }

  lemma {:induction false} PurgeLowers(slots: seq<Slot>, i: nat)
    requires i < |slots| && Held(slots[i])
    ensures Purgeable(slots[i := PromptClear(slots[i])]) == Purgeable(slots) - 1
  {
    var s' := slots[i := PromptClear(slots[i])];
    if i > 0 {
      assert s'[1..] == slots[1..][i - 1 := PromptClear(slots[i])];
      PurgeLowers(slots[1..], i - 1);
    } else {
      assert s'[1..] == slots[1..];
    }
  }

  /** The slot's memory after entry e was decoded. */
  function Stored(s: Slot, id: nat, e: Entry): Slot {
    if e.id == id then s.(mem := s.mem[e.pos := e.token]) else s
  }

  /** The slot after entries es were decoded, in order. */
  function StoredAll(s: Slot, id: nat, es: seq<Entry>): Slot {
    if es == [] then s else Stored(StoredAll(s, id, es[..|es| - 1]), id, es[|es| - 1])
  }

  lemma StoreStep(s: Slot, id: nat, b: seq<Entry>)
    requires b != [] && Synced(s, Mine(b, id))
    ensures Synced(Stored(s, id, b[0]), Mine(b[1..], id))
    ensures b[0].id == id ==> b[0].pos !in s.mem
  {
    if b[0].id == id {
      assert Mine(b, id)[1..] == Mine(b[1..], id);
      DecodeKeepsSync(s, Mine(b, id));
    }
  }

  // ---- the loop as a transition system ----

  /** What stays fixed while a batch is decoded. */
  datatype Env = Env(batch: seq<Entry>, nBatch: int, kvUnified: bool, nCtx: int, ctxShift: bool, model: Model, w: World)

  /** Before a call of llama_decode: how far the batch is decoded, the size to try, the slots; the sub-batches decoded
      and the slots purged so far. */
  datatype Loop = Loop(off: nat, n: int, slots: seq<Slot>, views: seq<(nat, nat)>, purged: set<nat>)

  /** The slot after one sub-batch: its entries were stored, and then its outputs delivered. */
  ghost predicate Delivered(e: Env, s: Slot, r: Slot, i: nat, off: nat, n: nat) {
    off + n <= |e.batch| &&
    var d := StoredAll(s, i, e.batch[off..off + n]);
    (d.phase == Generating && d.draft != [] && d.specIdx != [] ==> |d.draft| + 1 <= |d.tokens|) &&
    AfterOutputs(d, r, off, n, e.model, e.w.stopAt(i, off), e.w.useCkpt(i), e.nCtx, e.ctxShift)
  }

  /** A result that ends the pass: an error, or no room for a single token. */
  predicate Fatal(ret: int, n: int) {
    ret < 0 || (ret == 1 && n == 1)
  }

  function ViewLen(e: Env, l: Loop): int {
    if l.n < |e.batch| - l.off then l.n else |e.batch| - l.off
  }

  /** How far the batch is decoded when the call throws: llama_decode was done by then. */
  function ThrownAt(e: Env, l: Loop, ret: int): int {
    if ret == 0 then l.off + ViewLen(e, l) else l.off
  }

  /** One call that is not fatal: the sub-batch is decoded and delivered; or the first idle slot that holds tokens is
      purged; or, when there is none to purge, the sub-batch is halved. */
  ghost predicate LoopStep(e: Env, l: Loop, m: Loop, ret: int) {
    l.off < |e.batch| && !Fatal(ret, l.n) && |m.slots| == |l.slots| &&
    var len, i := ViewLen(e, l), FirstHeld(l.slots);
    if ret == 0 then
      len > 0 && m.off == l.off + len && m.n == e.nBatch && m.views == l.views + [(l.off, len)] &&
      m.purged == l.purged &&
      forall j :: 0 <= j < |l.slots| ==> Delivered(e, l.slots[j], m.slots[j], j, l.off, len)
    else if e.kvUnified && i < |l.slots| then
      m == l.(slots := l.slots[i := PromptClear(l.slots[i])], purged := l.purged + {i})
    else m == l.(n := l.n / 2)
  }

  /** What a call does, by its result: 0 decodes the next n entries, or what is left of the batch, and restores the
      size; 1 purges the first idle slot with tokens if the cells are shared, and halves the size when there is none.
      */
  lemma StepCases(e: Env, l: Loop, m: Loop, ret: int, i: nat)
    requires LoopStep(e, l, m, ret) && |l.slots| == |m.slots|
    requires i <= |l.slots| && forall j :: 0 <= j < i ==> l.slots[j].phase != Idle || l.slots[j].tokens == []
    requires i < |l.slots| ==> l.slots[i].phase == Idle && l.slots[i].tokens != []
    ensures 0 <= ret && !(ret == 1 && l.n == 1) && l.off <= m.off <= |e.batch|
    ensures ret == 0 ==> l.off < m.off && m.n == e.nBatch && (m.off == l.off + l.n || m.off == |e.batch| < l.off + l.n)
    ensures ret != 0 ==> m.off == l.off
    ensures ret != 0 && e.kvUnified && i < |l.slots| ==>
      m.n == l.n && m.slots[i].phase == Idle && m.slots[i].tokens == [] &&
      (forall p :: p in m.slots[i].mem ==> p < 0) &&
      forall j :: 0 <= j < |l.slots| && j != i ==> m.slots[j] == l.slots[j]
    ensures ret != 0 && !(e.kvUnified && i < |l.slots|) ==> m.n == l.n / 2 && m.slots == l.slots
  {
  }

  /** When a call throws, its entries are decoded exactly if llama_decode had returned 0. */
  lemma ThrownCases(e: Env, l: Loop, ret: int)
    requires l.off < |e.batch|
    ensures ret != 0 ==> ThrownAt(e, l, ret) == l.off
    ensures ret == 0 && l.off + l.n <= |e.batch| ==> ThrownAt(e, l, ret) == l.off + l.n
    ensures ret == 0 && l.off + l.n > |e.batch| ==> ThrownAt(e, l, ret) == |e.batch|
  {
  }

  ghost predicate StepAt(e: Env, t: seq<Loop>, k: nat)
    requires k + 1 < |t|
  {
    !e.w.throws(k) && LoopStep(e, t[k], t[k + 1], e.w.decodeResult(k))
  }

  /** The loop from its start up to some call. */
  ghost predicate Trace(e: Env, slots: seq<Slot>, t: seq<Loop>) {
    t != [] && t[0] == Loop(0, e.nBatch, slots, [], {}) && forall k :: 0 <= k < |t| - 1 ==> StepAt(e, t, k)
  }

  function Last(t: seq<Loop>): Loop
    requires t != []
  {
    t[|t| - 1]
  }

  /** Every slot is in order, seen from where the loop stands. */
  ghost predicate AllGood(e: Env, l: Loop) {
    l.off <= |e.batch| &&
    forall i :: 0 <= i < |l.slots| ==> Good(l.slots[i], i, e.batch, l.off, e.nCtx, e.ctxShift, e.model)
  }

  ghost predicate AllGoodAt(e: Env, t: seq<Loop>, k: nat)
    requires k < |t|
  {
    AllGood(e, t[k])
  }

  lemma TraceGrows(e: Env, slots: seq<Slot>, t: seq<Loop>, m: Loop)
    requires Trace(e, slots, t) && !e.w.throws(|t| - 1) && LoopStep(e, Last(t), m, e.w.decodeResult(|t| - 1))
    ensures Trace(e, slots, t + [m])
  {
    hide LoopStep;
    var u := t + [m];
    forall k: nat | k < |u| - 1 ensures StepAt(e, u, k) {
      if k < |t| - 1 { assert StepAt(e, t, k); }
    }
  }

  ghost predicate AlwaysGood(e: Env, t: seq<Loop>) {
    forall k :: 0 <= k < |t| ==> AllGoodAt(e, t, k)
  }

  lemma TraceStart(e: Env, l: Loop)
    ensures l == Loop(0, e.nBatch, l.slots, [], {}) ==> Trace(e, l.slots, [l])
    ensures AllGood(e, l) ==> AlwaysGood(e, [l])
  {
  }

  lemma GoodGrows(e: Env, t: seq<Loop>, m: Loop)
    requires AlwaysGood(e, t) && AllGood(e, m)
    ensures AlwaysGood(e, t + [m])
  {
    hide AllGood;
    forall k: nat | k < |t + [m]| ensures AllGoodAt(e, t + [m], k) {
      if k < |t| { assert AllGoodAt(e, t, k); }
    }
  }

  lemma ViewStep(e: Env, l: Loop, m: Loop)
    requires l.off < |e.batch| && l.n > 0 && |m.slots| == |l.slots|
    requires m == Loop(l.off + ViewLen(e, l), e.nBatch, m.slots, l.views + [(l.off, ViewLen(e, l))], l.purged)
    requires forall j :: 0 <= j < |l.slots| ==> Delivered(e, l.slots[j], m.slots[j], j, l.off, ViewLen(e, l))
    ensures LoopStep(e, l, m, 0)
  {
  }

  lemma RetryStep(e: Env, l: Loop, m: Loop, ret: int)
    requires l.off < |e.batch| && ret != 0 && !Fatal(ret, l.n)
    requires var i := FirstHeld(l.slots);
      if e.kvUnified && i < |l.slots| then
        m == l.(slots := l.slots[i := PromptClear(l.slots[i])], purged := l.purged + {i})
      else m == l.(n := l.n / 2)
    ensures LoopStep(e, l, m, ret)
  {
  }

  /** The sub-batches decoded so far cover the batch up to where the loop stands, each entry once. */
  lemma {:induction false} TraceTiles(e: Env, slots: seq<Slot>, t: seq<Loop>)
    requires Trace(e, slots, t)
    ensures Tiles(Last(t).views, Last(t).off) && |Last(t).slots| == |slots|
    decreases |t|
  {
    hide Delivered;
    if |t| > 1 {
      var u := t[..|t| - 1];
      TracePrefix(e, slots, t);
      TraceTiles(e, slots, u);
      assert StepAt(e, t, |t| - 2);
      if e.w.decodeResult(|t| - 2) == 0 {
        TilesGrow(Last(u).views, Last(u).off, ViewLen(e, Last(u)));
      }
    }
  }

  lemma TracePrefix(e: Env, slots: seq<Slot>, t: seq<Loop>)
    requires Trace(e, slots, t) && |t| > 1
    ensures Trace(e, slots, t[..|t| - 1]) && Last(t[..|t| - 1]) == t[|t| - 2]
  {
    hide LoopStep;
    var u := t[..|t| - 1];
    forall k: nat | k < |u| - 1 ensures StepAt(e, u, k) {
      assert StepAt(e, t, k);
    }
  }

  // ---- what an aborted pass leaves behind ----

  /** The draft of a slot that entered the loop as f did not lie in the first sub-batch as a whole. */
  ghost predicate WasCut(f: Slot, l: Loop) {
    l.views != [] && CutDraft(f, 0, l.views[0].1)
  }

  /** A slot that entered the loop as f, followed through it. */
  ghost predicate Watched(e: Env, f: Slot, l: Loop, i: nat)
    requires i < |l.slots| && l.off <= |e.batch|
  {
    var s := l.slots[i];
    (f.phase == Idle ==> s.phase == Idle && f.specIdx == []) &&
    (l.views == [] ==> l.off == 0 && (f.phase != Idle ==> s == f && i !in l.purged)) &&
    (i in l.purged ==> s.phase == Idle) &&
    (l.views != [] ==> s.specIdx == []) &&
    (s.phase == Idle && Mine(e.batch[l.off..], i) != [] ==> WasCut(f, l)) &&
    (WasCut(f, l) ==> s.phase == Idle && (s.tokens != [] <==> i !in l.purged))
  }

  lemma WatchStart(e: Env, slots: seq<Slot>, i: nat)
    requires i < |slots| && Good(slots[i], i, e.batch, 0, e.nCtx, e.ctxShift, e.model)
    requires slots[i].phase == Idle ==> Mine(e.batch, i) == []
    ensures Watched(e, slots[i], Loop(0, e.nBatch, slots, [], {}), i)
  {
    hide Synced, RoomOk, Lossless;
    assert e.batch[0..] == e.batch;
  }

  lemma WatchStep(e: Env, f: Slot, l: Loop, m: Loop, i: nat, ret: int)
    requires i < |l.slots| && AllGood(e, l) && Watched(e, f, l, i) && LoopStep(e, l, m, ret) && m.off <= |e.batch|
    ensures Watched(e, f, m, i)
  {
    hide Good, Delivered;
    if ret == 0 {
      WatchView(e, f, l, m, i);
    }
  }

  lemma WatchView(e: Env, f: Slot, l: Loop, m: Loop, i: nat)
    requires i < |l.slots| && AllGood(e, l) && Watched(e, f, l, i) && LoopStep(e, l, m, 0) && m.off <= |e.batch|
    ensures Watched(e, f, m, i)
  {
    var s, len := l.slots[i], ViewLen(e, l);
    GoodOne(e, l, i);
    hide Good, Delivered, AllGood, CutDraft;
    ViewEnd(e, s, m.slots[i], i, l.off, len);
    MineSuffix(e.batch, l.off, l.off + len, i);
    assert m.views[0] == if l.views == [] then (l.off, len) else l.views[0];
  }

  /** What a decoded sub-batch leaves of a slot. */
  lemma ViewEnd(e: Env, s: Slot, r: Slot, i: nat, off: nat, n: nat)
    requires off + n <= |e.batch| && Good(s, i, e.batch, off, e.nCtx, e.ctxShift, e.model)
    requires Delivered(e, s, r, i, off, n)
    ensures r.specIdx == []
    ensures s.phase == Idle ==> r.phase == Idle && r.tokens == s.tokens
    ensures CutDraft(s, off, n) ==> s.phase == Generating && r.phase == Idle && r.tokens == s.tokens != []
    ensures s.phase != Idle && r.phase == Idle && !CutDraft(s, off, n) ==> Mine(e.batch[off + n..], i) == []
  {
    var d := StoredAll(s, i, e.batch[off..off + n]);
    StoredSame(s, i, e.batch[off..off + n]);
    GoodPhase(e, s, i, off);
    hide Good, AfterOutputs, PhaseOk;
    SamePhase(s, d, i, e.batch, off, e.nCtx);
    OutputsEnd(d, r, i, e.batch, off, n, e.model, e.w.stopAt(i, off), e.w.useCkpt(i), e.nCtx, e.ctxShift);
  }

  lemma GoodPhase(e: Env, s: Slot, i: nat, off: nat)
    requires off <= |e.batch| && Good(s, i, e.batch, off, e.nCtx, e.ctxShift, e.model)
    ensures PhaseOk(s, i, e.batch, off, e.nCtx)
  {
  }

  lemma SamePhase(s: Slot, s': Slot, id: nat, batch: seq<Entry>, off: nat, nCtx: int)
    requires off <= |batch| && s' == s.(mem := s'.mem) && PhaseOk(s, id, batch, off, nCtx)
    ensures PhaseOk(s', id, batch, off, nCtx)
  {
  }

  lemma {:induction false} StoredSame(s: Slot, i: nat, es: seq<Entry>)
    ensures StoredAll(s, i, es) == s.(mem := StoredAll(s, i, es).mem)
  {
    if es != [] {
      StoredSame(s, i, es[..|es| - 1]);
    }
  }

  lemma MineSuffix(batch: seq<Entry>, a: nat, b: nat, i: nat)
    requires a <= b <= |batch|
    ensures Mine(batch[a..], i) == [] ==> Mine(batch[b..], i) == []
  {
    assert batch[a..] == batch[a..b] + batch[b..];
    MineConcat(batch[a..b], batch[b..], i);
  }

  lemma {:induction false} TraceWatched(e: Env, slots: seq<Slot>, t: seq<Loop>, i: nat)
    requires Trace(e, slots, t) && i < |slots| && (slots[i].phase == Idle ==> Mine(e.batch, i) == [])
    requires AlwaysGood(e, t)
    ensures i < |Last(t).slots| && Last(t).off <= |e.batch| && Watched(e, slots[i], Last(t), i)
    decreases |t|
  {
    hide AllGood, LoopStep, Watched;
    assert AllGoodAt(e, t, |t| - 1);
    GoodOff(e, Last(t));
    if |t| == 1 {
      assert Good(slots[i], i, e.batch, 0, e.nCtx, e.ctxShift, e.model) by { GoodOne(e, t[0], i); }
      WatchStart(e, slots, i);
    } else {
      var u := t[..|t| - 1];
      TracePrefix(e, slots, t);
      forall k | 0 <= k < |u| ensures AllGoodAt(e, u, k) { assert AllGoodAt(e, t, k); }
      TraceWatched(e, slots, u, i);
      assert StepAt(e, t, |t| - 2) && AllGoodAt(e, t, |t| - 2);
      WatchStep(e, slots[i], Last(u), Last(t), i, e.w.decodeResult(|t| - 2));
      TraceTiles(e, slots, t);
    }
  }

  lemma GoodOff(e: Env, l: Loop)
    requires AllGood(e, l)
    ensures l.off <= |e.batch|
  {
  }

  lemma GoodOne(e: Env, l: Loop, i: nat)
    requires AllGood(e, l) && i < |l.slots|
    ensures Good(l.slots[i], i, e.batch, l.off, e.nCtx, e.ctxShift, e.model)
  {
  }

  /** What a fatal error makes of a slot. */
  function Failed(s: Slot): Slot {
    if s.phase == Idle then s else PromptClear(Release(s))
  }

  /** What an exception makes of it: processing slots are released, but keep their tokens. */
  function Dropped(s: Slot): Slot {
    if s.phase == Idle then s else Release(s)
  }

  /** Exactly these slots claim tokens their cells do not hold, once the pass is over at batch position at: some of the
      slot's entries were still to be decoded, no failed decode purged it, and an exception ended the pass, or its draft
      did not lie in the first sub-batch as a whole. */
  ghost predicate LosesCells(e: Env, f: Slot, l: Loop, i: nat, at: nat, thrown: bool)
    requires at <= |e.batch|
  {
    (thrown || WasCut(f, l)) && Mine(e.batch[at..], i) != [] && i !in l.purged
  }

  lemma AbortExactly(e: Env, slots: seq<Slot>, t: seq<Loop>, i: nat)
    requires Trace(e, slots, t) && i < |slots| && (slots[i].phase == Idle ==> Mine(e.batch, i) == [])
    requires AlwaysGood(e, t)
    ensures Last(t).off <= |e.batch| && i < |Last(t).slots|
    ensures Good(Failed(Last(t).slots[i]), i, [], 0, e.nCtx, e.ctxShift, e.model) <==>
      !LosesCells(e, slots[i], Last(t), i, Last(t).off, false)
  {
    hide Good;
    TraceWatched(e, slots, t, i);
    assert AllGoodAt(e, t, |t| - 1);
    var l := Last(t);
    GoodOne(e, l, i);
    FailedGood(l.slots[i], i, e.batch, l.off, e.nCtx, e.ctxShift, e.model);
  }

  /** A failed slot is in order unless it was idle with tokens and entries waiting. */
  lemma FailedGood(s: Slot, i: nat, batch: seq<Entry>, at: nat, nCtx: int, ctxShift: bool, model: Model)
    requires at <= |batch| && Good(s, i, batch, at, nCtx, ctxShift, model)
    ensures Good(Failed(s), i, [], 0, nCtx, ctxShift, model) <==>
            !(s.phase == Idle && Mine(batch[at..], i) != [] && s.tokens != [])
  {
    assert Mine([][0..], i) == [];
    if s.phase == Idle {
      AbandonedEntries(s, Mine(batch[at..], i));
    }
  }

  /** The same for a call that throws, after its sub-batch was stored if llama_decode succeeded. */
  lemma ThrowExactly(e: Env, slots: seq<Slot>, t: seq<Loop>, i: nat, at: nat)
    requires Trace(e, slots, t) && i < |slots| && (slots[i].phase == Idle ==> Mine(e.batch, i) == [])
    requires AlwaysGood(e, t) && i < |Last(t).slots| && Last(t).off <= at <= |e.batch|
    ensures var d := Dropped(StoredAll(Last(t).slots[i], i, e.batch[Last(t).off..at]));
      Good(d, i, [], 0, e.nCtx, e.ctxShift, e.model) <==> !LosesCells(e, slots[i], Last(t), i, at, true)
  {
    hide Good;
    TraceWatched(e, slots, t, i);
    assert AllGoodAt(e, t, |t| - 1);
    var l := Last(t);
    GoodOne(e, l, i);
    DroppedGood(l.slots[i], i, e.batch, l.off, at, e.nCtx, e.ctxShift, e.model);
    MineSuffix(e.batch, l.off, at, i);
  }

  /** A dropped slot is in order exactly when it has no tokens or nothing of it was still to be decoded; a processing
      slot with entries has tokens. */
  lemma DroppedGood(s: Slot, i: nat, batch: seq<Entry>, off: nat, at: nat, nCtx: int, ctxShift: bool, model: Model)
    requires off <= at <= |batch| && Good(s, i, batch, off, nCtx, ctxShift, model)
    ensures Good(Dropped(StoredAll(s, i, batch[off..at])), i, [], 0, nCtx, ctxShift, model) <==>
            !(Mine(batch[at..], i) != [] && s.tokens != [])
    ensures s.phase != Idle && Mine(batch[at..], i) != [] ==> s.tokens != []
  {
    hide Lossless;
    var d := StoredAll(s, i, batch[off..at]);
    StoredSame(s, i, batch[off..at]);
    StoredSynced(s, i, batch, off, at);
    AbandonedEntries(Dropped(d), Mine(batch[at..], i));
    assert Mine([][0..], i) == [];
    IdleLossless(model, Dropped(d));
  }

  lemma IdleLossless(model: Model, s: Slot)
    requires s.phase == Idle
    ensures Lossless(model, s)
  {
  }

  lemma {:induction false} StoredSynced(s: Slot, i: nat, batch: seq<Entry>, off: nat, at: nat)
    requires off <= at <= |batch| && Synced(s, Mine(batch[off..], i))
    ensures Synced(StoredAll(s, i, batch[off..at]), Mine(batch[at..], i))
    decreases at
  {
    hide Synced;
    if off < at {
      StoredSynced(s, i, batch, off, at - 1);
      var b := batch[at - 1..];
      assert b[1..] == batch[at..] && batch[off..at][..at - off - 1] == batch[off..at - 1];
      StoreStep(StoredAll(s, i, batch[off..at - 1]), i, b);
    }
  }
}
