/** Token generation of one slot (server-context.cpp: handle_last_sampled_token, get_n_draft_max, post_decode):
    drafting, putting the sampled token and the draft in the batch, verifying, rolling back, replaying. */
module Generation {
  import opened KvMemory
  import opened SlotState
  import PromptSteps

  /** get_n_draft_max: nRemaining <= 0 stands for "no budget limit". */
  function DraftMax(s: Slot, nCtx: int, nRemaining: int): int {
    var n := nCtx - |s.tokens| - 2;
    if nRemaining > 0 && nRemaining - 1 < n then nRemaining - 1 else n
  }

  /** Takes over a proposal of the drafter, unless a draft to replay is already there. */
  method BeginDraft(s: Slot, nCtx: int, nRemaining: int, proposal: seq<Token>) returns (r: Slot)
    requires s.phase == Generating && !Waiting(s) && InSync(s, []) && DraftKept(s, nCtx)
    requires proposal != [] ==> |proposal| <= DraftMax(s, nCtx, nRemaining)
    ensures r == s.(draft := r.draft, ckptTokens := r.ckptTokens, ckptPosMax := r.ckptPosMax)
    ensures r.draft == if s.draft != [] then s.draft else proposal
    ensures DraftKept(r, nCtx)
  {
    r := s;
    if DraftMax(s, nCtx, nRemaining) > 0 && s.draft == [] {
      var posMax := PosMax(s.mem);
      assert s.tokens[..|s.tokens| - 0] == s.tokens;
      assert posMax == |s.tokens| - 1 by {
        if |s.tokens| > 0 {
          assert s.tokens[|s.tokens| - 1] == s.tokens[..|s.tokens|][|s.tokens| - 1];
          assert |s.tokens| - 1 in s.mem;
        } else {
          assert forall p :: p !in s.mem;
          assert s.mem.Keys == {};
          assert s.mem == map[];
        }
      }
      r := s.(ckptTokens := |s.tokens|, ckptPosMax := posMax, draft := proposal);
    }
  }

  /** handle_last_sampled_token: the sampled token, then the draft, each on the next position. */
  method HandleLastSampledToken(s: Slot, id: nat, batch: seq<Entry>, nAlloc: int, ghost nCtx: int)
    returns (r: Slot, batch': seq<Entry>, addOk: bool)
    requires s.phase == Generating && s.task.needSampling && !Waiting(s)
    requires InSync(s, []) && DraftKept(s, nCtx) && Mine(batch, id) == [] && |batch| <= nAlloc
    ensures addOk <==> |batch| + 1 + |s.draft| <= nAlloc
    ensures addOk ==> |batch'| == |batch| + 1 + |s.draft| && Appended(batch, batch', id)
    ensures addOk ==> r == s.(tokens := s.tokens + [s.sampled] + s.draft, iBatch := r.iBatch, specIdx := r.specIdx)
    ensures addOk ==> InSync(r, Mine(batch', id)) && PhaseOk(r, id, batch', 0, nCtx) && Waiting(r)
  {
    var n := |s.tokens|;
    var iBatch, specIdx := s.iBatch, [];
    if s.draft == [] {
      iBatch := |batch|;
    } else {
      specIdx := [|batch|];
      for i := 0 to |s.draft|
        invariant |specIdx| == i + 1 && forall j :: 0 <= j <= i ==> specIdx[j] == |batch| + j
      {
        specIdx := specIdx + [|batch| + i + 1];
      }
    }
    batch', addOk := AddAll([s.sampled] + s.draft, n, id, batch, nAlloc);
    r := s.(tokens := s.tokens + [s.sampled] + s.draft, iBatch := iBatch, specIdx := specIdx);
    if addOk {
      assert s.tokens + [s.sampled] + s.draft == s.tokens + ([s.sampled] + s.draft);
      PromptSteps.TailPending(r.tokens, n, batch', |batch|);
      assert r.tokens[..n] == s.tokens;
      SyncedMemory(s);
      PromptSteps.AppendedSync(r, s.tokens, id, batch, batch');
      WaitingPhase(s, r, id, batch, batch', nCtx);
    }
  }

  /** The slot now waits for outputs at the indices it was given. */
  lemma WaitingPhase(s: Slot, r: Slot, id: nat, batch: seq<Entry>, batch': seq<Entry>, nCtx: int)
    requires s.phase == Generating && s.task.needSampling && !Waiting(s) && DraftKept(s, nCtx)
    requires |batch'| == |batch| + 1 + |s.draft|
    requires r == s.(tokens := s.tokens + [s.sampled] + s.draft, iBatch := r.iBatch, specIdx := r.specIdx)
    requires if s.draft == [] then r.iBatch == |batch| && r.specIdx == []
      else r.iBatch == s.iBatch && |r.specIdx| == |s.draft| + 1 &&
           forall j :: 0 <= j < |r.specIdx| ==> r.specIdx[j] == |batch| + j
    requires forall k :: |batch| <= k < |batch'| ==>
      batch'[k].id == id && batch'[k].pos == k - |batch| + |s.tokens| && batch'[k].output
    ensures PhaseOk(r, id, batch', 0, nCtx)
  {
  }

  lemma SyncedMemory(s: Slot)
    requires InSync(s, []) && Busy(s)
    ensures Agree(s.mem, s.tokens) && Below(s.mem, |s.tokens|)
  {
  }

  /** batch.add once per token; false as soon as the batch is full. */
  method AddAll(toks: seq<Token>, pos0: nat, id: nat, batch: seq<Entry>, nAlloc: int)
    returns (batch': seq<Entry>, addOk: bool)
    requires |batch| <= nAlloc
    ensures addOk <==> |batch| + |toks| <= nAlloc
    ensures addOk ==> |batch'| == |batch| + |toks| && batch'[..|batch|] == batch
    ensures addOk ==>
      forall k :: |batch| <= k < |batch'| ==> batch'[k] == Entry(id, toks[k - |batch|], k - |batch| + pos0, true)
  {
    batch', addOk := batch, true;
    for i := 0 to |toks|
      invariant addOk <==> |batch| + i <= nAlloc
      invariant addOk ==> |batch'| == |batch| + i && batch'[..|batch|] == batch
      invariant addOk ==>
        forall k :: |batch| <= k < |batch'| ==> batch'[k] == Entry(id, toks[k - |batch|], k - |batch| + pos0, true)
      invariant |batch'| <= nAlloc && (!addOk ==> |batch'| == nAlloc)
    {
      if |batch'| >= nAlloc {
        addOk := false;
      } else {
        batch' := batch' + [Entry(id, toks[i], pos0 + i, true)];
      }
    }
  }

  // ---- verification of a draft ----

  /** What the target model answers to a draft: its own tokens as long as they equal the draft, plus one. */
  function Accepted(model: Model, ctx: seq<Token>, history: seq<Token>, draft: seq<Token>): (ids: seq<Token>)
    ensures 1 <= |ids| <= |draft| + 1
    decreases |draft|
  {
    var t := model(ctx, history);
    if draft == [] || draft[0] != t then [t]
    else [t] + Accepted(model, ctx + [t], history + [t], draft[1..])
  }

  /** Every accepted token is the model's own choice; all but the last are the draft's, and the last is not, unless the
      whole draft was accepted. */
  lemma {:induction false} AcceptedIsGreedy(model: Model, ctx: seq<Token>, history: seq<Token>, draft: seq<Token>,
                                            i: nat)
    requires i < |Accepted(model, ctx, history, draft)|
    ensures var ids := Accepted(model, ctx, history, draft);
      ids[i] == model(ctx + ids[..i], history + ids[..i]) && (i + 1 < |ids| ==> ids[i] == draft[i]) &&
      (i + 1 == |ids| <= |draft| ==> ids[i] != draft[i])
    decreases |draft|
  {
    var ids := Accepted(model, ctx, history, draft);
    var t := model(ctx, history);
    if i == 0 {
      assert ctx + ids[..0] == ctx && history + ids[..0] == history;
    } else {
      AcceptedIsGreedy(model, ctx + [t], history + [t], draft[1..], i - 1);
      assert ids[..i] == [t] + ids[1..][..i - 1];
      assert ctx + ids[..i] == ctx + [t] + ids[1..][..i - 1];
      assert history + ids[..i] == history + [t] + ids[1..][..i - 1];
    }
  }

  /** A rejected draft replayed as the accepted tokens is accepted as a whole: the replay never rolls back again. */
  lemma {:induction false} ReplayAcceptsAll(model: Model, ctx: seq<Token>, history: seq<Token>, draft: seq<Token>)
    ensures var ids := Accepted(model, ctx, history, draft);
      Accepted(model, ctx, history, ids) == ids + [model(ctx + ids, history + ids)]
    decreases |draft|
  {
    var t := model(ctx, history);
    if draft == [] || draft[0] != t {
      AcceptedCons(model, ctx, history, []);
    } else {
      var c, h := ctx + [t], history + [t];
      var rest := Accepted(model, c, h, draft[1..]);
      assert c + rest == ctx + ([t] + rest) && h + rest == history + ([t] + rest);
      calc {
        Accepted(model, ctx, history, [t] + rest);
        { AcceptedCons(model, ctx, history, rest); }
        [t] + Accepted(model, c, h, rest);
        { ReplayAcceptsAll(model, c, h, draft[1..]); }
        [t] + (rest + [model(c + rest, h + rest)]);
        ([t] + rest) + [model(c + rest, h + rest)];
      }
    }
  }

  lemma AcceptedCons(model: Model, ctx: seq<Token>, history: seq<Token>, rest: seq<Token>)
    ensures var t := model(ctx, history);
      Accepted(model, ctx, history, [t] + rest) == [t] + Accepted(model, ctx + [t], history + [t], rest)
  {
  }
}
