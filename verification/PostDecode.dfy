/** What one slot does with the outputs of a decoded sub-batch (server-context.cpp, post_decode). */
module PostDecode {
  import opened KvMemory
  import opened SlotState
  import opened Generation

  /** has_next_token after process_token: no stop condition hit, and without context shift there is still room. */
  predicate Continues(s: Slot, nCtx: int, ctxShift: bool, wantsStop: bool) {
    !wantsStop && (ctxShift || |s.tokens| + 1 < nCtx)
  }

  /** Samples the token after the slot's last decoded position, from what the KV memory really shows. */
  method SampleNext(s: Slot, id: nat, batch: seq<Entry>, off: nat, model: Model) returns (r: Slot)
    requires off <= |batch| && Busy(s) && s.draft == [] && s.specIdx == [] && s.task.needSampling
    requires InSync(s, []) && OutputAt(batch, off, s.iBatch, id, |s.tokens| - 1)
    ensures r == s.(phase := Generating, iBatch := -1, sampled := r.sampled, history := s.history + [r.sampled])
    ensures r.sampled == model(s.tokens, s.history)
    ensures InSync(r, [])
    ensures Lossless(model, s) ==> Lossless(model, r)
  {
    hide Lossless, Greedy, Certain;
    SyncedMemory(s);
    var last := batch[s.iBatch].pos;
    VisibleIsTokens(s.mem, s.tokens, last + 1);
    assert s.tokens[..last + 1] == s.tokens;
    var token := model(ContextAt(s.mem, last + 1), s.history);
    r := s.(phase := Generating, iBatch := -1, sampled := token, history := s.history + [token]);
    ExactSync(r);
    if Lossless(model, s) {
      SampledLossless(model, s, r);
    }
  }

  lemma SampledLossless(model: Model, s: Slot, r: Slot)
    requires Busy(s) && s.draft == [] && s.task.needSampling && Lossless(model, s)
    requires (s.phase == Generating ==> Waiting(s))
    requires r == s.(phase := Generating, iBatch := -1, mem := r.mem, specIdx := [],
                     sampled := model(s.tokens, s.history), history := s.history + [model(s.tokens, s.history)])
    ensures Lossless(model, r)
  {
    if !s.truncated {
      assert Certain(s) == s.tokens;
      GreedyGrows(model, s.tokens, |s.task.prompt|, r.sampled);
    }
  }

  /** One more token picked by the model keeps a greedy text greedy. */
  lemma GreedyGrows(model: Model, x: seq<Token>, n0: nat, token: Token)
    requires Greedy(model, x, n0) && token == model(x, x)
    ensures Greedy(model, x + [token], n0)
    ensures n0 <= |x| ==> (x + [token])[..n0] == x[..n0]
  {
    var y := x + [token];
    forall i | n0 <= i < |y| ensures y[i] == model(y[..i], y[..i]) {
      if i < |x| { assert y[..i] == x[..i]; } else { assert y[..i] == x; }
    }
  }

  /** The visible context, computed. */
  function ContextAt(mem: Cells, n: nat): (ctx: seq<Token>)
    requires Filled(mem, n)
    ensures ctx == Visible(mem, n)
  {
    seq(n, i requires 0 <= i < n => assert i in mem; mem[i])
  }

  /** common_sampler_sample_and_accept_n: samples at every draft position until the first disagreement. */
  method SampleAndAccept(s: Slot, id: nat, batch: seq<Entry>, off: nat, model: Model, ghost nCtx: int)
    returns (ids: seq<Token>)
    requires s.phase == Generating && InSync(s, []) && s.draft != []
    requires DraftInBatch(s, id, batch, off, nCtx)
    ensures ids == Accepted(model, s.tokens[..|s.tokens| - |s.draft|], s.history, s.draft)
  {
    ghost var base := s.tokens[..|s.tokens| - |s.draft|];
    ids := [];
    assert base + [] == base && s.history + [] == s.history;
    for i := 0 to |s.draft|
      invariant ids == s.draft[..i]
      invariant Accepted(model, base, s.history, s.draft) ==
        ids + Accepted(model, base + ids, s.history + ids, s.draft[i..])
    {
      var token := SampleAtDraft(s, id, batch, off, model, nCtx, i, ids);
      AcceptedStep(model, base, s.history, ids, s.draft, i, token);
      ids := ids + [token];
      if s.draft[i] != token {
        return;
      }
    }
    var token := SampleAtDraft(s, id, batch, off, model, nCtx, |s.draft|, ids);
    assert Accepted(model, base + ids, s.history + ids, []) == [token];
    ids := ids + [token];
  }

  /** While a draft waits it is the end of the token list, so what the model sees at draft position i is
      everything decided plus the first i draft tokens. */
  method SampleAtDraft(s: Slot, id: nat, batch: seq<Entry>, off: nat, model: Model, ghost nCtx: int, i: nat,
                       ids: seq<Token>)
    returns (token: Token)
    requires s.phase == Generating && InSync(s, []) && DraftInBatch(s, id, batch, off, nCtx)
    requires i <= |s.draft| && ids == s.draft[..i]
    ensures token == model(s.tokens[..|s.tokens| - |s.draft|] + ids, s.history + ids)
  {
    var n := |s.tokens| - |s.draft| + i;
    assert OutputAt(batch, off, s.specIdx[i], id, n - 1);
    SyncedMemory(s);
    VisibleIsTokens(s.mem, s.tokens, n);
    assert s.tokens[..n] == s.tokens[..|s.tokens| - |s.draft|] + s.tokens[|s.tokens| - |s.draft|..][..i];
    token := model(ContextAt(s.mem, batch[s.specIdx[i]].pos + 1), s.history + ids);
  }

  lemma AcceptedStep(model: Model, base: seq<Token>, history: seq<Token>, ids: seq<Token>, draft: seq<Token>, i: nat,
                     token: Token)
    requires i < |draft| && ids == draft[..i]
    requires token == model(base + ids, history + ids)
    requires Accepted(model, base, history, draft) == ids + Accepted(model, base + ids, history + ids, draft[i..])
    ensures draft[i] != token ==> Accepted(model, base, history, draft) == ids + [token]
    ensures draft[i] == token ==> ids + [token] == draft[..i + 1]
    ensures draft[i] == token ==>
      Accepted(model, base, history, draft) ==
      ids + [token] + Accepted(model, base + (ids + [token]), history + (ids + [token]), draft[i + 1..])
  {
    assert draft[i..][1..] == draft[i + 1..] && draft[i..][0] == draft[i];
    assert base + ids + [token] == base + (ids + [token]) && history + ids + [token] == history + (ids + [token]);
  }

  /** The accepted tokens, taken as text: greedy, and up to the last one identical to what is already decoded. */
  lemma AcceptedText(model: Model, base: seq<Token>, draft: seq<Token>, n0: nat, k: nat)
    requires n0 <= |base| && Greedy(model, base, n0)
    requires k <= |Accepted(model, base, base, draft)|
    ensures Greedy(model, base + Accepted(model, base, base, draft)[..k], n0)
  {
    var ids := Accepted(model, base, base, draft);
    if k == 0 {
      assert base + ids[..0] == base;
    } else {
      AcceptedText(model, base, draft, n0, k - 1);
      AcceptedIsGreedy(model, base, base, draft, k - 1);
      GreedyGrows(model, base + ids[..k - 1], n0, ids[k - 1]);
      assert base + ids[..k] == base + ids[..k - 1] + [ids[k - 1]];
    }
  }

  lemma AcceptedPrefix(model: Model, ctx: seq<Token>, history: seq<Token>, draft: seq<Token>)
    ensures var ids := Accepted(model, ctx, history, draft);
      ids[..|ids| - 1] == draft[..|ids| - 1]
  {
    var ids := Accepted(model, ctx, history, draft);
    forall i | 0 <= i < |ids| - 1 ensures ids[i] == draft[i] {
      AcceptedIsGreedy(model, ctx, history, draft, i);
    }
  }

  /** Verifies a draft.  Either the accepted tokens become part of the list and the rest of the draft is
      rolled back, or (when the memory cannot be cut) the checkpoint is restored and the accepted tokens
      become the draft to replay. */
  method VerifyDraft(s: Slot, id: nat, batch: seq<Entry>, off: nat, model: Model, useCkpt: bool, ghost nCtx: int)
    returns (r: Slot, ids: seq<Token>, replay: bool)
    requires s.phase == Generating && InSync(s, []) && s.draft != []
    requires DraftInBatch(s, id, batch, off, nCtx)
    ensures ids == Accepted(model, s.tokens[..|s.tokens| - |s.draft|], s.history, s.draft)
    ensures replay <==> useCkpt && |ids| < |s.draft| + 1
    ensures r == s.(tokens := r.tokens, mem := r.mem, sampled := r.sampled, draft := r.draft, specIdx := [],
                    history := r.history)
    ensures replay ==>
      r.draft == ids && r.sampled == s.sampled == s.tokens[|s.tokens| - |s.draft| - 1] && r.history == s.history
    ensures replay ==> r.tokens == s.tokens[..|s.tokens| - |s.draft| - 1]
    ensures !replay ==> r.draft == [] && r.sampled == ids[|ids| - 1] && r.history == s.history + ids
    ensures !replay ==> r.tokens == s.tokens[..|s.tokens| - |s.draft|] + ids[..|ids| - 1]
    ensures InSync(r, []) && DraftKept(r, nCtx) && |r.tokens| <= |s.tokens|
  {
    ids := SampleAndAccept(s, id, batch, off, model, nCtx);
    AcceptedPrefix(model, s.tokens[..|s.tokens| - |s.draft|], s.history, s.draft);
    replay := |ids| < |s.draft| + 1 && useCkpt;
    hide Accepted, InSync;
    if replay {
      r := RestoreDraft(s, id, batch, off, ids, nCtx);
    } else {
      r := KeepDraft(s, id, batch, off, ids, nCtx);
    }
  }

  /** The checkpoint of memory, list and sampler is taken back, and the accepted tokens are the draft to replay. */
  method RestoreDraft(s: Slot, ghost id: nat, ghost batch: seq<Entry>, ghost off: nat, ids: seq<Token>, ghost nCtx: int)
    returns (r: Slot)
    requires s.phase == Generating && InSync(s, []) && DraftInBatch(s, id, batch, off, nCtx) && |ids| <= |s.draft|
    ensures r == s.(tokens := s.tokens[..|s.tokens| - |s.draft| - 1], mem := r.mem, draft := ids, specIdx := [])
    ensures InSync(r, []) && DraftKept(r, nCtx) && r.sampled == s.tokens[|s.tokens| - |s.draft| - 1]
  {
    SyncedMemory(s);
    r := s.(draft := ids, specIdx := [], mem := SeqRm(s.mem, s.ckptPosMax + 1, -1), tokens := s.tokens[..s.ckptTokens]);
    CutSync(s.mem, s.tokens, s.ckptTokens);
    ExactSync(r);
  }

  /** The accepted part of the draft stays in the list, the last accepted token is the sampled one. */
  method KeepDraft(s: Slot, ghost id: nat, ghost batch: seq<Entry>, ghost off: nat, ids: seq<Token>, ghost nCtx: int)
    returns (r: Slot)
    requires s.phase == Generating && InSync(s, []) && DraftInBatch(s, id, batch, off, nCtx)
    requires 1 <= |ids| <= |s.draft| + 1
    requires ids[..|ids| - 1] == s.draft[..|ids| - 1]
    ensures r == s.(tokens := s.tokens[..|s.tokens| - |s.draft|] + ids[..|ids| - 1], mem := r.mem,
                    sampled := ids[|ids| - 1], draft := [], specIdx := [], history := s.history + ids)
    ensures InSync(r, []) && |r.tokens| <= |s.tokens|
  {
    SyncedMemory(s);
    var tokens := s.tokens[..|s.tokens| - |s.draft|] + ids[..|ids| - 1];
    PrefixOfTokens(s.tokens, s.draft, |ids| - 1);
    hide DraftInBatch;
    r := s.(tokens := tokens, mem := SeqRm(s.mem, |tokens|, -1), sampled := ids[|ids| - 1], draft := [], specIdx := [],
            history := s.history + ids);
    CutSync(s.mem, s.tokens, |tokens|);
    ExactSync(r);
  }

  /** The kept part of a draft leaves a prefix of the token list. */
  lemma PrefixOfTokens(tokens: seq<Token>, draft: seq<Token>, k: nat)
    requires |draft| <= |tokens| && k <= |draft| && tokens[|tokens| - |draft|..] == draft
    ensures tokens[..|tokens| - |draft|] + draft[..k] == tokens[..|tokens| - |draft| + k]
  {
  }

  /** Cutting the memory at position n leaves exactly the first n tokens. */
  lemma CutSync(mem: Cells, tokens: seq<Token>, n: nat)
    requires Agree(mem, tokens) && Below(mem, |tokens|) && n <= |tokens|
    ensures Agree(SeqRm(mem, n, -1), tokens[..n]) && Below(SeqRm(mem, n, -1), n)
  {
  }

  /** Verification never changes what the slot is going to say. */
  lemma VerifiedLossless(model: Model, s: Slot, r: Slot, ids: seq<Token>, replay: bool)
    requires s.phase == Generating && Waiting(s) && |s.draft| + 1 <= |s.tokens| && Lossless(model, s)
    requires ids == Accepted(model, s.tokens[..|s.tokens| - |s.draft|], s.history, s.draft)
    requires r.phase == s.phase && r.task == s.task && r.truncated == s.truncated && !Waiting(r)
    requires if replay then
        r.sampled == s.tokens[|s.tokens| - |s.draft| - 1] && r.history == s.history &&
        r.tokens == s.tokens[..|s.tokens| - |s.draft| - 1]
      else
        r.sampled == ids[|ids| - 1] && r.history == s.history + ids &&
        r.tokens == s.tokens[..|s.tokens| - |s.draft|] + ids[..|ids| - 1]
    ensures Lossless(model, r)
  {
    hide Lossless, Greedy, Accepted;
    var base := s.tokens[..|s.tokens| - |s.draft|];
    if replay {
      SameCertain(model, s, r, base);
    } else {
      MoreCertain(model, s, r, base, ids);
    }
  }

  lemma SameCertain(model: Model, s: Slot, r: Slot, base: seq<Token>)
    requires s.phase == Generating && Waiting(s) && |s.draft| <= |s.tokens| && Lossless(model, s)
    requires base == s.tokens[..|s.tokens| - |s.draft|] == r.tokens + [r.sampled]
    requires r.phase == Generating && !Waiting(r)
    requires r.task == s.task && r.truncated == s.truncated && r.history == s.history
    ensures Lossless(model, r)
  {
    hide Greedy;
  }

  lemma MoreCertain(model: Model, s: Slot, r: Slot, base: seq<Token>, ids: seq<Token>)
    requires s.phase == Generating && Waiting(s) && |s.draft| <= |s.tokens| && Lossless(model, s)
    requires base == s.tokens[..|s.tokens| - |s.draft|] && ids == Accepted(model, base, s.history, s.draft)
    requires r.phase == Generating && !Waiting(r) && r.tokens + [r.sampled] == base + ids
    requires r.task == s.task && r.truncated == s.truncated && r.history == s.history + ids
    ensures Lossless(model, r)
  {
    hide Greedy;
    if !s.truncated && s.task.needSampling {
      AcceptedText(model, base, s.draft, |s.task.prompt|, |ids|);
      assert ids[..|ids|] == ids;
      assert (base + ids)[..|s.task.prompt|] == base[..|s.task.prompt|];
    }
  }

  /** What a slot is, seen from batch position off: memory, batch entries, room, text and the tokens handed on are all
      as promised. */
  ghost predicate Good(s: Slot, id: nat, batch: seq<Entry>, off: nat, nCtx: int, ctxShift: bool, model: Model)
    requires off <= |batch|
  {
    Synced(s, Mine(batch[off..], id)) && PhaseOk(s, id, batch, off, nCtx) &&
    RoomOk(s, nCtx, ctxShift) && Lossless(model, s) && Told(s)
  }

  lemma ReleasedGood(s: Slot, id: nat, batch: seq<Entry>, off: nat, nCtx: int, ctxShift: bool, model: Model)
    requires off <= |batch| && Synced(s, Mine(batch[off..], id)) && (s.task.needSampling ==> s.task.canSplit)
    ensures Good(Release(s), id, batch, off, nCtx, ctxShift, model)
  {
  }

  lemma RunningGood(s: Slot, id: nat, batch: seq<Entry>, off: nat, nCtx: int, ctxShift: bool, model: Model)
    requires off <= |batch| && s.phase == Generating && !Waiting(s) && s.task.needSampling
    requires Mine(batch[off..], id) == [] && InSync(s, []) && DraftKept(s, nCtx)
    requires RoomOk(s, nCtx, ctxShift) && Lossless(model, s) && Told(s)
    ensures Good(s, id, batch, off, nCtx, ctxShift, model)
  {
  }

  /** Nothing of the slot is left beyond its last entry. */
  lemma {:induction false} NothingAfter(batch: seq<Entry>, idx: int, id: nat, off: nat)
    requires LastOf(batch, idx, id) && idx < off <= |batch|
    ensures Mine(batch[off..], id) == []
  {
    assert batch[idx + 1..] == batch[idx + 1..off] + batch[off..];
    MineConcat(batch[idx + 1..off], batch[off..], id);
  }

  /** The slot after one more sampled token. */
  function Sampled(s: Slot, model: Model): Slot {
    var t := model(s.tokens, s.history);
    s.(phase := Generating, iBatch := -1, sampled := t, history := s.history + [t], sent := s.sent + [t])
  }

  /** The accepted tokens that process_token gets: all of them, or up to the one that ends the request. */
  function HandedOn(ids: seq<Token>, stopAt: nat, full: bool): seq<Token>
    requires ids != []
  {
    if full then ids[..1] else if stopAt < |ids| then ids[..stopAt + 1] else ids
  }

  /** The target model's answer to the slot's draft. */
  function Answer(s: Slot, model: Model): seq<Token>
    requires |s.draft| <= |s.tokens|
  {
    Accepted(model, s.tokens[..|s.tokens| - |s.draft|], s.history, s.draft)
  }

  /** What a verified draft must leave behind. */
  ghost predicate DraftSettled(s: Slot, r: Slot, model: Model, stopAt: nat, useCkpt: bool, nCtx: int, ctxShift: bool)
    requires |s.draft| + 1 <= |s.tokens|
  {
    var ids := Answer(s, model);
    r.specIdx == [] && r.task == s.task &&
    if useCkpt && |ids| <= |s.draft| then
      r.phase == Generating && r.draft == ids && r.tokens == s.tokens[..|s.tokens| - |s.draft| - 1] &&
      r.sampled == s.sampled && r.history == s.history && r.sent == s.sent
    else
      r.sent == s.sent + HandedOn(ids, stopAt, !(ctxShift || |r.tokens| + 1 < nCtx)) &&
      r.draft == [] && r.tokens == s.tokens[..|s.tokens| - |s.draft|] + ids[..|ids| - 1] &&
      r.sampled == ids[|ids| - 1] && r.history == s.history + ids &&
      r.phase == if stopAt < |ids| || !(ctxShift || |r.tokens| + 1 < nCtx) then Idle else Generating
  }

  /** A sampled token reaches process_token: the slot goes on or is released. */
  method DeliverNext(s: Slot, id: nat, batch: seq<Entry>, off: nat, n: nat, model: Model, wantsStop: bool,
                     nCtx: int, ctxShift: bool)
    returns (r: Slot)
    requires off + n <= |batch| && Busy(s) && s.draft == [] && s.task.needSampling
    requires Synced(s, Mine(batch[off + n..], id)) && PhaseOk(s, id, batch, off, nCtx)
    requires RoomOk(s, nCtx, ctxShift) && Lossless(model, s) && (s.phase == Generating ==> Waiting(s))
    requires s.iBatch < off + n && Told(s)
    ensures Good(r, id, batch, off + n, nCtx, ctxShift, model)
    ensures var next := Sampled(s, model);
      r == if Continues(s, nCtx, ctxShift, wantsStop) then next else Release(next)
  {
    hide Lossless, InSync, PhaseOk, Synced, Good, RoomOk, Told, OutputAt;
    AwaitedOutput(s, id, batch, off, n, nCtx);
    r := SampleNext(s, id, batch, off, model);
    NextTold(s, r, model, nCtx, ctxShift);
    r := r.(sent := r.sent + [r.sampled]); // process_token
    if !Continues(r, nCtx, ctxShift, wantsStop) {
      ExactlyTail(r, id, batch, off + n);
      ReleasedGood(r, id, batch, off + n, nCtx, ctxShift, model);
      r := Release(r);
    } else {
      RunningGood(r, id, batch, off + n, nCtx, ctxShift, model);
    }
  }

  /** A slot whose output is in the sub-batch has nothing in the batch beyond it. */
  lemma AwaitedOutput(s: Slot, id: nat, batch: seq<Entry>, off: nat, n: nat, nCtx: int)
    requires off + n <= |batch| && Busy(s) && s.draft == [] && (s.phase == Generating ==> Waiting(s))
    requires Synced(s, Mine(batch[off + n..], id)) && PhaseOk(s, id, batch, off, nCtx) && s.iBatch < off + n
    ensures Mine(batch[off + n..], id) == [] && InSync(s, []) && OutputAt(batch, off, s.iBatch, id, |s.tokens| - 1)
    ensures s.specIdx == []
  {
    NothingAfter(batch, s.iBatch, id, off + n);
  }

  lemma ExactlyTail(s: Slot, id: nat, batch: seq<Entry>, off: nat)
    requires off <= |batch| && Mine(batch[off..], id) == [] && InSync(s, [])
    ensures Synced(s, Mine(batch[off..], id))
  {
  }

  /** The slot with one more token, sampled and handed on. */
  lemma NextTold(s: Slot, r: Slot, model: Model, nCtx: int, ctxShift: bool)
    requires Busy(s) && s.draft == [] && s.specIdx == [] && s.task.needSampling && RoomOk(s, nCtx, ctxShift) && Told(s)
    requires r == s.(phase := Generating, iBatch := -1, sampled := r.sampled, history := s.history + [r.sampled])
    requires r.sampled == model(s.tokens, s.history) && InSync(r, []) && Lossless(model, r)
    ensures var t := r.(sent := r.sent + [r.sampled]);
      t == Sampled(s, model) && !Waiting(t) && Told(t) && InSync(t, []) && Lossless(model, t) &&
      (s.task.needSampling ==> s.task.canSplit) && (ctxShift || |t.tokens| + 1 < nCtx ==> RoomOk(t, nCtx, ctxShift))
  {
    TextUnsent(model, r, r.sent + [r.sampled]);
    hide Lossless, InSync;
  }

  /** The accepted tokens of a draft reach process_token one by one; any of them may end the request. */
  method DeliverDraft(s: Slot, id: nat, batch: seq<Entry>, off: nat, n: nat, model: Model, stopAt: nat, useCkpt: bool,
                      nCtx: int, ctxShift: bool)
    returns (r: Slot)
    requires off + n <= |batch| && s.phase == Generating && s.draft != [] && s.specIdx != []
    requires Synced(s, Mine(batch[off + n..], id)) && PhaseOk(s, id, batch, off, nCtx)
    requires RoomOk(s, nCtx, ctxShift) && Lossless(model, s) && s.specIdx[|s.specIdx| - 1] < off + n && Told(s)
    ensures Good(r, id, batch, off + n, nCtx, ctxShift, model)
    ensures DraftSettled(s, r, model, stopAt, useCkpt, nCtx, ctxShift)
  {
    hide Lossless, Synced, Good, DraftInBatch, Settled, PhaseOk, DraftSettled, HandedOn, Told;
    DraftFits(s, id, batch, off, nCtx);
    var v, ids, replay := SettleDraft(s, id, batch, off, n, model, useCkpt, nCtx);
    StillTold(s, v, ids, replay);
    r := FinishDraft(v, ids, replay, id, batch, off + n, model, stopAt, nCtx, ctxShift);
    DraftIsSettled(s, v, r, ids, replay, model, stopAt, useCkpt, nCtx, ctxShift);
  }

  /** The accepted tokens are what the sampler accepted more. */
  lemma StillTold(s: Slot, v: Slot, ids: seq<Token>, replay: bool)
    requires Told(s) && s.phase == v.phase == Generating && s.task.needSampling && v.task == s.task && v.sent == s.sent
    requires v.history == if replay then s.history else s.history + ids
    ensures Told(if replay then v else v.(sent := v.sent + ids))
  {
  }

  lemma DraftIsSettled(s: Slot, v: Slot, r: Slot, ids: seq<Token>, replay: bool, model: Model, stopAt: nat,
                       useCkpt: bool, nCtx: int, ctxShift: bool)
    requires |s.draft| + 1 <= |s.tokens| && ids == Answer(s, model) && (replay <==> useCkpt && |ids| <= |s.draft|)
    requires v.phase == Generating && v.specIdx == [] && v.sent == s.sent && v.task == s.task && ids != []
    requires replay ==> v.draft == ids && v.sampled == s.sampled && v.history == s.history
    requires replay ==> v.tokens == s.tokens[..|s.tokens| - |s.draft| - 1]
    requires !replay ==> v.draft == [] && v.sampled == ids[|ids| - 1] && v.history == s.history + ids
    requires !replay ==> v.tokens == s.tokens[..|s.tokens| - |s.draft|] + ids[..|ids| - 1]
    requires var full := !(ctxShift || |v.tokens| + 1 < nCtx);
      var told := v.(sent := v.sent + HandedOn(ids, stopAt, full));
      r == if replay then v else if stopAt < |ids| || full then Release(told) else told
    ensures DraftSettled(s, r, model, stopAt, useCkpt, nCtx, ctxShift)
  {
    hide Answer, HandedOn;
  }

  lemma DraftFits(s: Slot, id: nat, batch: seq<Entry>, off: nat, nCtx: int)
    requires off <= |batch| && s.phase == Generating && s.draft != [] && s.specIdx != []
    requires PhaseOk(s, id, batch, off, nCtx)
    ensures s.task.needSampling && |s.draft| < |s.tokens| < nCtx && DraftInBatch(s, id, batch, off, nCtx)
  {
  }

  /** First half: verify, so that the slot no longer waits for anything. */
  method SettleDraft(s: Slot, id: nat, batch: seq<Entry>, off: nat, n: nat, model: Model, useCkpt: bool,
                     ghost nCtx: int)
    returns (r: Slot, ids: seq<Token>, replay: bool)
    requires off + n <= |batch| && s.phase == Generating && s.draft != [] && s.specIdx != []
    requires Synced(s, Mine(batch[off + n..], id)) && PhaseOk(s, id, batch, off, nCtx)
    requires Lossless(model, s) && s.specIdx[|s.specIdx| - 1] < off + n
    ensures Settled(r, id, batch, off + n, nCtx, model) && |r.tokens| <= |s.tokens|
    ensures |s.draft| <= |s.tokens| && ids == Answer(s, model) && (replay <==> useCkpt && |ids| <= |s.draft|)
    ensures r == s.(tokens := r.tokens, mem := r.mem, sampled := r.sampled, draft := r.draft, specIdx := [],
                    history := r.history)
    ensures replay ==> r.draft == ids && r.sampled == s.sampled && r.history == s.history
    ensures replay ==> r.tokens == s.tokens[..|s.tokens| - |s.draft| - 1]
    ensures !replay ==> r.draft == [] && r.sampled == ids[|ids| - 1] && r.history == s.history + ids
    ensures !replay ==> r.tokens == s.tokens[..|s.tokens| - |s.draft|] + ids[..|ids| - 1]
  {
    hide Lossless, InSync, Synced, PhaseOk, Accepted, DraftInBatch;
    AwaitedDraft(s, id, batch, off, n, nCtx);
    r, ids, replay := VerifyDraft(s, id, batch, off, model, useCkpt, nCtx);
    VerifiedLossless(model, s, r, ids, replay);
  }

  /** A slot whose whole draft is in the sub-batch has nothing in the batch beyond it. */
  lemma AwaitedDraft(s: Slot, id: nat, batch: seq<Entry>, off: nat, n: nat, nCtx: int)
    requires off + n <= |batch| && s.phase == Generating && s.draft != [] && s.specIdx != []
    requires Synced(s, Mine(batch[off + n..], id)) && PhaseOk(s, id, batch, off, nCtx)
    requires s.specIdx[|s.specIdx| - 1] < off + n
    ensures Mine(batch[off + n..], id) == [] && InSync(s, []) && DraftInBatch(s, id, batch, off, nCtx)
    ensures s.iBatch < 0 && |s.draft| + 1 <= |s.tokens| && s.task.needSampling
  {
    NothingAfter(batch, s.specIdx[|s.draft|], id, off + n);
  }

  /** A generating slot that awaits nothing. */
  ghost predicate Settled(s: Slot, id: nat, batch: seq<Entry>, off: nat, nCtx: int, model: Model)
    requires off <= |batch|
  {
    s.phase == Generating && !Waiting(s) && s.task.needSampling && Mine(batch[off..], id) == [] &&
    InSync(s, []) && DraftKept(s, nCtx) && Lossless(model, s)
  }

  /** Second half: process_token decides whether the slot goes on. */
  method FinishDraft(v: Slot, ids: seq<Token>, replay: bool, id: nat, batch: seq<Entry>, off: nat, model: Model,
                     stopAt: nat,
                     nCtx: int, ctxShift: bool)
    returns (r: Slot)
    requires off <= |batch| && Settled(v, id, batch, off, nCtx, model) && ids != []
    requires (v.task.needSampling ==> v.task.canSplit) && |v.tokens| < nCtx && (replay ==> v.draft != [])
    requires Told(if replay then v else v.(sent := v.sent + ids))
    ensures Good(r, id, batch, off, nCtx, ctxShift, model)
    ensures var full := !(ctxShift || |v.tokens| + 1 < nCtx);
      var told := v.(sent := v.sent + HandedOn(ids, stopAt, full));
      r == if replay then v else if stopAt < |ids| || full then Release(told) else told
  {
    hide Lossless, InSync, Good;
    r := v;
    if !replay {
      var stopped, delivered := Deliver(v, ids, nCtx, ctxShift, stopAt);
      TextUnsent(model, v, v.sent + delivered);
      r := v.(sent := v.sent + delivered);
      if stopped {
        ReleasedGood(r, id, batch, off, nCtx, ctxShift, model);
        return Release(r);
      }
    }
    RunningGood(r, id, batch, off, nCtx, ctxShift, model);
  }

  /** Handing tokens on changes neither the text nor what is waiting. */
  lemma TextUnsent(model: Model, s: Slot, sent: seq<Token>)
    ensures Lossless(model, s.(sent := sent)) <==> Lossless(model, s)
    ensures InSync(s.(sent := sent), []) <==> InSync(s, [])
  {
  }

  /** process_token over the accepted ids, in order, until one of them ends the request. */
  method Deliver(s: Slot, ids: seq<Token>, nCtx: int, ctxShift: bool, stopAt: nat)
    returns (stopped: bool, delivered: seq<Token>)
    requires ids != []
    ensures stopped <==> stopAt < |ids| || !(ctxShift || |s.tokens| + 1 < nCtx)
    ensures delivered != [] && delivered <= ids
    ensures forall k :: 0 <= k < |delivered| ==>
      delivered[k] == ids[k] && k <= stopAt && (k == 0 || ctxShift || |s.tokens| + 1 < nCtx)
    ensures |delivered| < |ids| ==> |delivered| == stopAt + 1 || (!ctxShift && |s.tokens| + 1 >= nCtx)
    ensures delivered == HandedOn(ids, stopAt, !(ctxShift || |s.tokens| + 1 < nCtx))
  {
    delivered := [];
    for i := 0 to |ids|
      invariant i > 0 ==> ctxShift || |s.tokens| + 1 < nCtx
      invariant i <= stopAt && delivered == ids[..i]
    {
      delivered := delivered + [ids[i]];
      if !Continues(s, nCtx, ctxShift, i == stopAt) {
        return true, delivered;
      }
    }
    stopped := false;
  }

  predicate Inside(idx: int, off: nat, n: nat) {
    off <= idx < off + n
  }

  /** A slot whose draft entries are not all in this sub-batch: the check throws, the exception is caught per
      slot, and the slot is released with its entries still in the batch. */
  predicate CutDraft(s: Slot, off: nat, n: nat) {
    exists j :: 0 <= j < |s.specIdx| && !Inside(s.specIdx[j], off, n)
  }

  /** What post_decode makes of slot s: released when its draft was cut or it has no text to generate, one sampled
      token further, one verified draft further, or untouched. */
  ghost predicate AfterOutputs(s: Slot, r: Slot, off: nat, n: nat, model: Model, stopAt: nat, useCkpt: bool,
                               nCtx: int, ctxShift: bool)
    requires s.phase == Generating && s.draft != [] && s.specIdx != [] ==> |s.draft| + 1 <= |s.tokens|
  {
    if CutDraft(s, off, n) then r == Release(s)
    else if Busy(s) && s.draft == [] && Inside(s.iBatch, off, n) then
      r == if !s.task.needSampling then Release(s.(iBatch := -1))
           else if Continues(s, nCtx, ctxShift, stopAt == 0) then Sampled(s, model) else Release(Sampled(s, model))
    else if s.phase == Generating && s.draft != [] && s.specIdx != [] then
      DraftSettled(s, r, model, stopAt, useCkpt, nCtx, ctxShift)
    else r == s
  }

  /** post_decode for one slot and the sub-batch [off, off + n). */
  method PostDecodeSlot(s: Slot, id: nat, batch: seq<Entry>, off: nat, n: nat, model: Model, stopAt: nat, useCkpt: bool,
                        nCtx: int, ctxShift: bool)
    returns (r: Slot)
    requires off + n <= |batch| && n > 0
    requires Synced(s, Mine(batch[off + n..], id)) && PhaseOk(s, id, batch, off, nCtx)
    requires RoomOk(s, nCtx, ctxShift) && Lossless(model, s) && Told(s)
    ensures Good(r, id, batch, off + n, nCtx, ctxShift, model)
    ensures AfterOutputs(s, r, off, n, model, stopAt, useCkpt, nCtx, ctxShift)
  {
    hide Synced, Lossless, PhaseOk, RoomOk, Good, Told, AfterOutputs, CutDraft;
    WaitingDraft(s, id, batch, off, nCtx);
    EmbeddingGood(s, id, batch, off + n, nCtx, ctxShift, model);
    AfterCases(s, off, n, model, stopAt, useCkpt, nCtx, ctxShift);
    if CutDraft(s, off, n) {
      ReleasedGood(s, id, batch, off + n, nCtx, ctxShift, model);
      return Release(s);
    }
    if Busy(s) && s.draft == [] && Inside(s.iBatch, off, n) {
      if !s.task.needSampling { // embedding or rerank: the result is sent and the slot is done
        return Release(s.(iBatch := -1));
      }
      WaitsInside(s, id, batch, off, n, nCtx);
      r := DeliverNext(s, id, batch, off, n, model, stopAt == 0, nCtx, ctxShift);
      return;
    }
    if s.phase == Generating && s.draft != [] && s.specIdx != [] {
      UncutInside(s, off, n);
      r := DeliverDraft(s, id, batch, off, n, model, stopAt, useCkpt, nCtx, ctxShift);
      DraftAfter(s, r, off, n, model, stopAt, useCkpt, nCtx, ctxShift);
      return;
    }
    r := s;
    UncutInside(s, off, n);
    UntouchedGood(s, id, batch, off, n, nCtx, ctxShift, model);
  }

  /** The ways that need no outputs, or one. */
  lemma AfterCases(s: Slot, off: nat, n: nat, model: Model, stopAt: nat, useCkpt: bool, nCtx: int, ctxShift: bool)
    requires s.phase == Generating && s.draft != [] && s.specIdx != [] ==> |s.draft| + 1 <= |s.tokens|
    ensures CutDraft(s, off, n) ==> AfterOutputs(s, Release(s), off, n, model, stopAt, useCkpt, nCtx, ctxShift)
    ensures !CutDraft(s, off, n) && Busy(s) && s.draft == [] && Inside(s.iBatch, off, n) ==>
      var next := Sampled(s, model);
      var r := if !s.task.needSampling then Release(s.(iBatch := -1))
               else if Continues(s, nCtx, ctxShift, stopAt == 0) then next else Release(next);
      AfterOutputs(s, r, off, n, model, stopAt, useCkpt, nCtx, ctxShift)
    ensures !CutDraft(s, off, n) && !(Busy(s) && s.draft == [] && Inside(s.iBatch, off, n)) &&
            !(s.phase == Generating && s.draft != [] && s.specIdx != []) ==>
      AfterOutputs(s, s, off, n, model, stopAt, useCkpt, nCtx, ctxShift)
  {
  }

  lemma DraftAfter(s: Slot, r: Slot, off: nat, n: nat, model: Model, stopAt: nat, useCkpt: bool, nCtx: int,
                   ctxShift: bool)
    requires !CutDraft(s, off, n) && s.phase == Generating && s.draft != [] && s.specIdx != []
    requires |s.draft| + 1 <= |s.tokens| && DraftSettled(s, r, model, stopAt, useCkpt, nCtx, ctxShift)
    ensures AfterOutputs(s, r, off, n, model, stopAt, useCkpt, nCtx, ctxShift)
  {
  }

  lemma UncutInside(s: Slot, off: nat, n: nat)
    requires !CutDraft(s, off, n)
    ensures s.specIdx != [] ==> Inside(s.specIdx[|s.specIdx| - 1], off, n)
  {
  }

  lemma WaitsInside(s: Slot, id: nat, batch: seq<Entry>, off: nat, n: nat, nCtx: int)
    requires off + n <= |batch| && PhaseOk(s, id, batch, off, nCtx) && Inside(s.iBatch, off, n)
    ensures Waiting(s) && s.iBatch < off + n
  {
  }

  lemma EmbeddingGood(s: Slot, id: nat, batch: seq<Entry>, off: nat, nCtx: int, ctxShift: bool, model: Model)
    requires off <= |batch| && Synced(s, Mine(batch[off..], id)) && RoomOk(s, nCtx, ctxShift)
    ensures s.task.needSampling ==> s.task.canSplit
    ensures Good(Release(s.(iBatch := -1)), id, batch, off, nCtx, ctxShift, model)
  {
  }

  /** Only a generating slot waits for a draft, and then for an output at each of its tokens and one before. */
  lemma WaitingDraft(s: Slot, id: nat, batch: seq<Entry>, off: nat, nCtx: int)
    requires off <= |batch| && PhaseOk(s, id, batch, off, nCtx)
    ensures s.specIdx != [] ==>
      s.phase == Generating && s.draft != [] && |s.specIdx| == |s.draft| + 1 && |s.draft| + 1 <= |s.tokens|
  {
  }

  /** A slot whose output is not in this sub-batch keeps waiting. */
  lemma UntouchedGood(s: Slot, id: nat, batch: seq<Entry>, off: nat, n: nat, nCtx: int, ctxShift: bool, model: Model)
    requires off + n <= |batch| && PhaseOk(s, id, batch, off, nCtx) && s.specIdx == []
    requires Synced(s, Mine(batch[off + n..], id)) && RoomOk(s, nCtx, ctxShift) && Lossless(model, s) && Told(s)
    requires Busy(s) && s.draft == [] ==> !Inside(s.iBatch, off, n)
    ensures Good(s, id, batch, off + n, nCtx, ctxShift, model)
  {
    hide Synced, RoomOk, Lossless, Told;
    if Mine(batch[off..], id) == [] {
      assert batch[off..] == batch[off..off + n] + batch[off + n..];
      MineConcat(batch[off..off + n], batch[off + n..], id);
    }
  }

  /** After a sub-batch no slot waits for a draft any more, and a slot that ended without having its draft cut has
      nothing left in the batch. */
  lemma OutputsEnd(s: Slot, r: Slot, id: nat, batch: seq<Entry>, off: nat, n: nat, model: Model, stopAt: nat,
                   useCkpt: bool,
                   nCtx: int, ctxShift: bool)
    requires off + n <= |batch| && PhaseOk(s, id, batch, off, nCtx)
    requires s.phase == Generating && s.draft != [] && s.specIdx != [] ==> |s.draft| + 1 <= |s.tokens|
    requires AfterOutputs(s, r, off, n, model, stopAt, useCkpt, nCtx, ctxShift)
    ensures r.specIdx == [] && (s.phase == Idle ==> r == s)
    ensures CutDraft(s, off, n) ==> r == Release(s) && s.phase == Generating && s.tokens != []
    ensures s.phase != Idle && r.phase == Idle && !CutDraft(s, off, n) ==> Mine(batch[off + n..], id) == []
  {
    WaitingDraft(s, id, batch, off, nCtx);
    if s.phase == Generating && s.draft != [] && s.specIdx != [] {
      DraftEnd(s, id, batch, off, n, nCtx);
    } else if Busy(s) && s.draft == [] && Inside(s.iBatch, off, n) {
      NothingAfter(batch, s.iBatch, id, off + n);
    }
  }

  lemma DraftEnd(s: Slot, id: nat, batch: seq<Entry>, off: nat, n: nat, nCtx: int)
    requires off + n <= |batch| && DraftInBatch(s, id, batch, off, nCtx)
    ensures CutDraft(s, off, n) || Mine(batch[off + n..], id) == []
  {
    var last := |s.specIdx| - 1;
    if Inside(s.specIdx[last], off, n) {
      NothingAfter(batch, s.specIdx[last], id, off + n);
    }
  }

  // ---- what was handed on ----

  /** The tokens that reach process_token when a draft was accepted: in order, the first accepted one in any case, and
      each later one exactly when none before it ended the request; and the one that ends it ends the slot. */
  lemma DraftSends(s: Slot, r: Slot, off: nat, n: nat, model: Model, stopAt: nat, useCkpt: bool, nCtx: int,
                   ctxShift: bool)
    requires s.phase == Generating && s.draft != [] && s.specIdx != [] && |s.draft| + 1 <= |s.tokens|
    requires forall j :: 0 <= j < |s.specIdx| ==> off <= s.specIdx[j] < off + n
    requires AfterOutputs(s, r, off, n, model, stopAt, useCkpt, nCtx, ctxShift)
    ensures var decided := s.tokens[..|s.tokens| - |s.draft|];
      var ids := Accepted(model, decided, s.history, s.draft);
      if useCkpt && |ids| <= |s.draft| then
        r.phase == Generating && r.sent == s.sent && r.draft == ids &&
        r.tokens == decided[..|decided| - 1] && r.sampled == s.sampled && r.history == s.history
      else
        var room := ctxShift || |r.tokens| + 1 < nCtx;
        s.sent < r.sent && r.sent[|s.sent|..] <= ids && r.tokens + [r.sampled] == decided + ids && r.draft == [] &&
        (var told := |r.sent| - |s.sent|;
         told <= stopAt + 1 && (told > 1 ==> room) && (told < |ids| ==> told == stopAt + 1 || !room)) &&
        (if stopAt < |ids| || !room then r.phase == Idle else r.phase == Generating)
  {
    hide DraftSettled, Accepted, AfterOutputs;
    DraftOnly(s, r, off, n, model, stopAt, useCkpt, nCtx, ctxShift);
    SettledSends(s, r, model, stopAt, useCkpt, nCtx, ctxShift);
  }

  lemma DraftOnly(s: Slot, r: Slot, off: nat, n: nat, model: Model, stopAt: nat, useCkpt: bool, nCtx: int,
                  ctxShift: bool)
    requires s.phase == Generating && s.draft != [] && s.specIdx != [] && |s.draft| + 1 <= |s.tokens|
    requires forall j :: 0 <= j < |s.specIdx| ==> off <= s.specIdx[j] < off + n
    requires AfterOutputs(s, r, off, n, model, stopAt, useCkpt, nCtx, ctxShift)
    ensures DraftSettled(s, r, model, stopAt, useCkpt, nCtx, ctxShift)
  {
    hide DraftSettled;
  }

  lemma SettledSends(s: Slot, r: Slot, model: Model, stopAt: nat, useCkpt: bool, nCtx: int, ctxShift: bool)
    requires |s.draft| + 1 <= |s.tokens| && DraftSettled(s, r, model, stopAt, useCkpt, nCtx, ctxShift)
    ensures var decided := s.tokens[..|s.tokens| - |s.draft|];
      var ids := Accepted(model, decided, s.history, s.draft);
      if useCkpt && |ids| <= |s.draft| then
        r.phase == Generating && r.sent == s.sent && r.draft == ids &&
        r.tokens == decided[..|decided| - 1] && r.sampled == s.sampled && r.history == s.history
      else
        var room := ctxShift || |r.tokens| + 1 < nCtx;
        s.sent < r.sent && r.sent[|s.sent|..] <= ids && r.tokens + [r.sampled] == decided + ids && r.draft == [] &&
        (var told := |r.sent| - |s.sent|;
         told <= stopAt + 1 && (told > 1 ==> room) && (told < |ids| ==> told == stopAt + 1 || !room)) &&
        (if stopAt < |ids| || !room then r.phase == Idle else r.phase == Generating)
  {
    hide Accepted, HandedOn;
    var decided := s.tokens[..|s.tokens| - |s.draft|];
    var ids := Accepted(model, decided, s.history, s.draft);
    if useCkpt && |ids| <= |s.draft| {
      assert decided[..|decided| - 1] == s.tokens[..|s.tokens| - |s.draft| - 1];
    } else {
      HandedCases(s.sent, ids, stopAt, !(ctxShift || |r.tokens| + 1 < nCtx));
      LastBack(decided, ids);
    }
  }

  lemma LastBack(decided: seq<Token>, ids: seq<Token>)
    requires ids != []
    ensures decided + ids[..|ids| - 1] + [ids[|ids| - 1]] == decided + ids
  {
  }

  lemma HandedCases(sent: seq<Token>, ids: seq<Token>, stopAt: nat, full: bool)
    requires ids != []
    ensures var d := HandedOn(ids, stopAt, full);
      sent < sent + d && (sent + d)[|sent|..] == d <= ids &&
      |d| <= stopAt + 1 && (|d| > 1 ==> !full) && (|d| < |ids| ==> |d| == stopAt + 1 || full)
  {
  }

  /** What a slot without a draft gets from a sub-batch: nothing unless its output is in it; then an embedding ends the
      request, and a completion takes the model's choice, hands it on, and ends if a stop condition or the context says
      so.  A slot with a draft partly outside the sub-batch is released as it is. */
  lemma OutputsCases(s: Slot, r: Slot, off: nat, n: nat, model: Model, stopAt: nat, useCkpt: bool, nCtx: int,
                     ctxShift: bool)
    requires s.phase == Generating && s.draft != [] && s.specIdx != [] ==> |s.draft| + 1 <= |s.tokens|
    requires AfterOutputs(s, r, off, n, model, stopAt, useCkpt, nCtx, ctxShift)
    ensures r.task == s.task
    ensures (exists j :: 0 <= j < |s.specIdx| && !(off <= s.specIdx[j] < off + n)) ==>
      r.phase == Idle && r.tokens == s.tokens && r.mem == s.mem && r.sent == s.sent && r.history == s.history
    ensures s.specIdx == [] && (s.draft != [] || !(off <= s.iBatch < off + n)) ==> r == s
    ensures s.specIdx == [] && s.phase != DonePrompt && s.phase != Generating ==> r == s
    ensures s.specIdx == [] && (s.phase == DonePrompt || s.phase == Generating) && s.draft == [] &&
            off <= s.iBatch < off + n ==>
      r.tokens == s.tokens && r.mem == s.mem && r.iBatch == -1 &&
      if !s.task.needSampling then r.phase == Idle && r.sent == s.sent
      else
        r.sampled == model(s.tokens, s.history) && r.sent == s.sent + [r.sampled] &&
        r.history == s.history + [r.sampled] &&
        if stopAt == 0 || (!ctxShift && |s.tokens| + 1 >= nCtx) then r.phase == Idle else r.phase == Generating
  {
  }

  /** The beginning of a greedy text, after the prompt, is the reference's. */
  lemma PrefixSays(model: Model, s: Slot, x: seq<Token>, sent: seq<Token>)
    requires |s.task.prompt| <= |x| && x[..|s.task.prompt|] == s.task.prompt && Greedy(model, x, |s.task.prompt|)
    requires s.sent == sent <= x[|s.task.prompt|..]
    ensures SaysReference(model, s)
  {
    GreedyBegins(model, s.task.prompt, x, |sent|);
    assert x[..|s.task.prompt| + |sent|][|s.task.prompt|..] == sent;
  }

  /** A busy slot that was never shifted has handed on what the reference generates. */
  lemma BusySays(model: Model, s: Slot)
    requires Busy(s) && s.task.needSampling && !s.truncated && Lossless(model, s) && Told(s)
    ensures SaysReference(model, s)
  {
    PrefixSays(model, s, Certain(s), s.sent);
  }

  /** Over a whole request, drafts and replays included: whatever a sub-batch makes of a slot that was never shifted,
      the tokens handed to process_token so far are what one-token-at-a-time decoding generates, each once and in order;
      and they stay so when the request ends with it. */
  lemma OutputsSayReference(s: Slot, r: Slot, off: nat, n: nat, model: Model, stopAt: nat, useCkpt: bool, nCtx: int,
                            ctxShift: bool)
    requires Busy(s) && s.task.needSampling && !s.truncated && Lossless(model, s) && Told(s)
    requires s.phase == Generating && s.draft != [] && s.specIdx != [] ==> |s.draft| + 1 <= |s.tokens|
    requires AfterOutputs(s, r, off, n, model, stopAt, useCkpt, nCtx, ctxShift)
    ensures SaysReference(model, r) && s.sent <= r.sent
    ensures r.sent == Reference(model, s.task.prompt, |r.sent|)[|s.task.prompt|..]
  {
    hide Lossless, Told, Greedy, SaysReference, AfterOutputs;
    BusySays(model, s);
    SendsSay(s, r, off, n, model, stopAt, useCkpt, nCtx, ctxShift);
    SaidIsReference(model, s, r);
  }

  lemma SaidIsReference(model: Model, s: Slot, r: Slot)
    requires SaysReference(model, r) && r.task == s.task
    ensures r.sent == Reference(model, s.task.prompt, |r.sent|)[|s.task.prompt|..]
  {
  }

  lemma SendsSay(s: Slot, r: Slot, off: nat, n: nat, model: Model, stopAt: nat, useCkpt: bool, nCtx: int,
                 ctxShift: bool)
    requires Busy(s) && s.task.needSampling && !s.truncated && Lossless(model, s) && Told(s) && SaysReference(model, s)
    requires s.phase == Generating && s.draft != [] && s.specIdx != [] ==> |s.draft| + 1 <= |s.tokens|
    requires AfterOutputs(s, r, off, n, model, stopAt, useCkpt, nCtx, ctxShift)
    ensures SaysReference(model, r) && s.sent <= r.sent && r.task == s.task
  {
    hide Lossless, Told, Greedy, SaysReference;
    if CutDraft(s, off, n) || !(Busy(s) && s.draft == [] && Inside(s.iBatch, off, n)) {
      if !CutDraft(s, off, n) && s.phase == Generating && s.draft != [] && s.specIdx != [] {
        DraftSays(s, r, model, stopAt, useCkpt, nCtx, ctxShift);
      } else {
        SameSays(model, s, r);
      }
    } else {
      NextSays(s, r, model);
    }
  }

  lemma SameSays(model: Model, s: Slot, r: Slot)
    requires SaysReference(model, s) && r.task == s.task && r.sent == s.sent
    ensures SaysReference(model, r)
  {
  }

  lemma NextSays(s: Slot, r: Slot, model: Model)
    requires Busy(s) && s.draft == [] && s.task.needSampling && !s.truncated && Lossless(model, s) && Told(s)
    requires s.iBatch >= 0 && r.task == s.task && r.sent == s.sent + [model(s.tokens, s.history)]
    ensures SaysReference(model, r)
  {
    var x, t := s.tokens, model(s.tokens, s.history);
    assert Certain(s) == x;
    GreedyGrows(model, x, |s.task.prompt|, t);
    assert (x + [t])[|s.task.prompt|..] == s.sent + [t];
    PrefixSays(model, r, x + [t], r.sent);
  }

  lemma DraftSays(s: Slot, r: Slot, model: Model, stopAt: nat, useCkpt: bool, nCtx: int, ctxShift: bool)
    requires s.phase == Generating && s.draft != [] && s.specIdx != [] && |s.draft| + 1 <= |s.tokens|
    requires s.task.needSampling && !s.truncated && Lossless(model, s) && Told(s) && SaysReference(model, s)
    requires DraftSettled(s, r, model, stopAt, useCkpt, nCtx, ctxShift)
    ensures SaysReference(model, r) && s.sent <= r.sent && r.task == s.task
  {
    hide DraftSettled, SaysReference, Lossless, Told, Greedy;
    var ids := Answer(s, model);
    if useCkpt && |ids| <= |s.draft| {
      assert r.sent == s.sent && r.task == s.task by { ReplaySame(s, r, model, stopAt, useCkpt, nCtx, ctxShift); }
      SameSays(model, s, r);
    } else {
      HandedIsPrefix(s, r, model, stopAt, useCkpt, nCtx, ctxShift);
      MoreSays(s, r, model, |r.sent| - |s.sent|);
    }
  }

  lemma ReplaySame(s: Slot, r: Slot, model: Model, stopAt: nat, useCkpt: bool, nCtx: int, ctxShift: bool)
    requires |s.draft| + 1 <= |s.tokens| && DraftSettled(s, r, model, stopAt, useCkpt, nCtx, ctxShift)
    requires useCkpt && |Answer(s, model)| <= |s.draft|
    ensures r.sent == s.sent && r.task == s.task
  {
  }

  lemma MoreSays(s: Slot, r: Slot, model: Model, m: nat)
    requires s.phase == Generating && s.specIdx != [] && |s.draft| + 1 <= |s.tokens| && s.task.needSampling
    requires !s.truncated && Lossless(model, s) && Told(s) && r.task == s.task
    requires m <= |Answer(s, model)| && r.sent == s.sent + Answer(s, model)[..m]
    ensures SaysReference(model, r)
  {
    hide Greedy, SaysReference, Accepted;
    var x, p, more := s.tokens[..|s.tokens| - |s.draft|], |s.task.prompt|, Answer(s, model)[..m];
    AcceptedText(model, x, s.draft, p, m);
    assert (x + more)[p..] == s.sent + more;
    assert (x + more)[..p] == x[..p];
    PrefixSays(model, r, x + more, r.sent);
  }

  lemma HandedIsPrefix(s: Slot, r: Slot, model: Model, stopAt: nat, useCkpt: bool, nCtx: int, ctxShift: bool)
    requires |s.draft| + 1 <= |s.tokens| && DraftSettled(s, r, model, stopAt, useCkpt, nCtx, ctxShift)
    requires !(useCkpt && |Answer(s, model)| <= |s.draft|)
    ensures var m := |r.sent| - |s.sent|;
      0 <= m <= |Answer(s, model)| && r.sent == s.sent + Answer(s, model)[..m] && r.task == s.task
  {
    assert Answer(s, model)[..|Answer(s, model)|] == Answer(s, model);
  }
}
