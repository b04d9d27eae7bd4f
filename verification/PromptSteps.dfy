/** Prompt processing of one slot (server-context.cpp, second half of pre_decode): how much of the old
    prompt survives, and how the rest is fed into the batch. */
module PromptSteps {
  import opened KvMemory
  import opened SlotState
  import ChunkReuse

  /** Tokens of the slot's old prompt that can serve the new one. */
  function Reusable(s: Slot, canShift: bool): (n: nat)
    ensures n <= |s.tokens| && n <= |s.task.prompt|
  {
    var common := ChunkReuse.MatchLen(s.tokens, 0, s.task.prompt, 0);
    if !s.task.canSplit || !s.task.cachePrompt then 0
    else if canShift && s.task.nCacheReuse > 0 then
      ChunkReuse.ReusedLength(s.tokens, s.task.prompt, common, common, s.task.nCacheReuse)
    else common
  }

  /** What of the old prompt serves the new one: nothing unless the request allows it and can be split; else the
      longest common prefix, and if chunks may be shifted, behind it the chunks of at least n_cache_reuse tokens that
      are found. */
  lemma ReusableCases(s: Slot, canShift: bool, common: nat)
    requires common <= |s.tokens| && common <= |s.task.prompt| && s.tokens[..common] == s.task.prompt[..common]
    requires common == |s.tokens| || common == |s.task.prompt| || s.tokens[common] != s.task.prompt[common]
    ensures !s.task.cachePrompt || !s.task.canSplit ==> Reusable(s, canShift) == 0
    ensures s.task.cachePrompt && s.task.canSplit ==>
      Reusable(s, canShift) == if !canShift || s.task.nCacheReuse <= 0 then common
        else ChunkReuse.ReusedLength(s.tokens, s.task.prompt, common, common, s.task.nCacheReuse)
  {
    assert s.tokens[0..common] == s.tokens[..common] && s.task.prompt[0..common] == s.task.prompt[..common];
    ChunkReuse.MatchIs(s.tokens, 0, s.task.prompt, 0, common);
  }

  /** The request cannot be served with this context. */
  predicate Rejected(s: Slot, nCtx: int, nUbatch: int) {
    s.task.prompt == [] ||
    (if s.task.canSplit then |s.task.prompt| >= nCtx else |s.task.prompt| > nUbatch || |s.task.prompt| > nCtx)
  }

  method CommonPrefix(a: seq<Token>, b: seq<Token>) returns (n: nat)
    ensures n == ChunkReuse.MatchLen(a, 0, b, 0) && n <= |a| && n <= |b|
    ensures a[..n] == b[..n]
  {
    n := ChunkReuse.CountMatch(a, 0, b, 0);
    forall k | 0 <= k < n ensures a[k] == b[k] {
      ChunkReuse.MatchAt(a, 0, b, 0, k);
    }
  }

  /** Reuse of the old prompt: prefix, then shifted chunks.  In a text-only, full-attention memory an
      empty sequence with reusable tokens cannot occur, so the abort on pos_min == -1 is dead. */
  method ReusePrompt(s: Slot, canShift: bool) returns (tokens: seq<Token>, mem: Cells, nPast: nat)
    requires s.task.canSplit && Agree(s.mem, s.tokens) && AtPositions(s.mem)
    ensures nPast <= |tokens| && nPast <= |s.task.prompt| && tokens[..nPast] == s.task.prompt[..nPast]
    ensures Agree(mem, s.task.prompt[..nPast]) && AtPositions(mem)
    ensures nPast == Reusable(s, canShift) || (nPast == 0 && Reusable(s, canShift) == |s.task.prompt| == 1)
  {
    tokens, mem, nPast := s.tokens, s.mem, 0;
    var prompt := s.task.prompt;
    if s.task.cachePrompt {
      nPast := CommonPrefix(tokens, prompt);
      assert forall i :: 0 <= i < nPast ==> tokens[..nPast][i] == prompt[..nPast][i];
      if canShift && s.task.nCacheReuse > 0 {
        tokens, mem, nPast := ChunkReuse.ReuseChunks(tokens, mem, prompt, nPast, s.task.nCacheReuse);
      }
    }
    var hasNew := nPast < |prompt|;
    var threshold := if nPast - (if hasNew then 0 else 1) < 0 then 0 else nPast - (if hasNew then 0 else 1);
    if 0 < nPast <= |tokens| {
      assert prompt[..nPast][0] == prompt[0];
      var posMin := PosMin(mem);
      if posMin == -1 {
        assert false; // GGML_ABORT: "pos_min == -1, but n_past > 0"
      }
      if posMin >= threshold {
        nPast := 0; // no context checkpoint can help here: the prompt is processed from the start
      }
    }
  }

  /** SLOT_STATE_STARTED: decides what to keep of the old prompt and cuts the token list to it.
      The cells beyond stay in memory until FillPrompt truncates them. */
  method StartPrompt(s: Slot, nCtx: int, nUbatch: int, canShift: bool) returns (r: Slot, live: bool)
    requires s.phase == Started && InSync(s, []) && s.draft == [] && s.specIdx == []
    ensures live == !Rejected(s, nCtx, nUbatch)
    ensures live ==> 0 < |s.task.prompt| <= nCtx && (if s.task.canSplit then |s.task.prompt| < nCtx
                                                     else |s.task.prompt| <= nUbatch)
    ensures !live ==> |s.task.prompt| == 0 || |s.task.prompt| > nCtx ||
                      (if s.task.canSplit then |s.task.prompt| == nCtx else |s.task.prompt| > nUbatch)
    ensures !live ==> r == Release(s)
    ensures live ==> r == s.(phase := ProcessingPrompt, tokens := r.tokens, mem := r.mem)
    ensures live ==> InSync(r, []) && |r.tokens| < |s.task.prompt| && r.tokens == s.task.prompt[..|r.tokens|]
    ensures live ==>
      |r.tokens| == if Reusable(s, canShift) == |s.task.prompt| then |s.task.prompt| - 1 else Reusable(s, canShift)
  {
    assert s.tokens[..|s.tokens| - 0] == s.tokens;
    if s.task.prompt == [] {
      return Release(s), false;
    }
    var tokens, mem, nPast := s.tokens, s.mem, 0;
    if !s.task.canSplit {
      if |s.task.prompt| > nUbatch || |s.task.prompt| > nCtx {
        return Release(s), false;
      }
    } else {
      if |s.task.prompt| >= nCtx {
        return Release(s), false;
      }
      tokens, mem, nPast := ReusePrompt(s, canShift);
    }
    assert forall i :: 0 <= i < nPast ==> tokens[..nPast][i] == s.task.prompt[..nPast][i];
    if nPast == |s.task.prompt| && nPast > 0 {
      nPast := nPast - 1; // at least one token has to be evaluated to get logits
    }
    r := s.(phase := ProcessingPrompt, tokens := tokens[..nPast], mem := mem);
    live := true;
    ExactSync(r);
  }

  /** Feeds the next prompt tokens into the batch: cells beyond the token list are dropped first, so every
      new entry targets a free position. */
  method FillPrompt(s: Slot, id: nat, batch: seq<Entry>, nBatch: int, border: nat -> bool, ghost nCtx: int)
    returns (r: Slot, batch': seq<Entry>)
    requires s.phase == ProcessingPrompt && InSync(s, []) && s.draft == [] && s.specIdx == []
    requires |s.tokens| < |s.task.prompt| && s.tokens == s.task.prompt[..|s.tokens|]
    requires |batch| < nBatch && Mine(batch, id) == []
    ensures Appended(batch, batch', id) && |batch| < |batch'| <= nBatch
    ensures |batch'| - |batch| == |r.tokens| - |s.tokens|
    ensures |s.tokens| < |r.tokens| <= |s.task.prompt| && r.tokens == s.task.prompt[..|r.tokens|]
    ensures |r.tokens| < |s.task.prompt| ==> |batch'| == nBatch || border(|r.tokens|)
    ensures forall k :: |s.tokens| < k < |r.tokens| ==> !border(k)
    ensures r == s.(phase := r.phase, tokens := r.tokens, mem := r.mem, iBatch := r.iBatch, history := r.history)
    ensures r.phase == if |r.tokens| == |s.task.prompt| then DonePrompt else ProcessingPrompt
    ensures r.phase == DonePrompt ==> r.history == s.task.prompt
    ensures InSync(r, Mine(batch', id))
    ensures PhaseOk(r, id, batch', 0, nCtx)
  {
    var mem := SeqRm(s.mem, |s.tokens|, -1);
    TruncatedSync(s);
    var tokens;
    tokens, batch' := FeedTokens(s.task.prompt, |s.tokens|, id, batch, nBatch, border, !s.task.needSampling);
    r := s.(mem := mem, tokens := tokens);
    ghost var fed := batch';
    if |tokens| == |s.task.prompt| {
      var last := |batch'| - 1;
      batch' := batch'[last := batch'[last].(output := true)];
      r := r.(phase := DonePrompt, iBatch := last, history := tokens);
    }
    assert r.tokens[..|s.tokens|] == s.tokens;
    assert PendingTail(r.tokens, batch'[|batch|..]) by { SameButOutput(r.tokens, fed, batch', |batch|); }
    AppendedSync(r, s.tokens, id, batch, batch');
    FilledPhase(r, id, batch, batch', nCtx);
  }

  /** Appends prompt tokens to the batch, each at its own position, until the prompt or the batch ends, or a border
      is reached: a message or the last tokens of the prompt begin there, and a checkpoint is to be taken. */
  method FeedTokens(prompt: seq<Token>, n0: nat, id: nat, batch: seq<Entry>, nBatch: int, border: nat -> bool,
                    output: bool)
    returns (tokens: seq<Token>, batch': seq<Entry>)
    requires n0 < |prompt| && |batch| < nBatch
    ensures n0 < |tokens| <= |prompt| && tokens == prompt[..|tokens|]
    ensures |batch'| <= nBatch && |batch'| - |batch| == |tokens| - n0
    ensures |tokens| < |prompt| ==> |batch'| == nBatch || border(|tokens|)
    ensures forall k :: n0 < k < |tokens| ==> !border(k)
    ensures Appended(batch, batch', id) && PendingTail(tokens, batch'[|batch|..])
  {
    tokens, batch' := prompt[..n0], batch;
    while |tokens| < |prompt| && |batch'| < nBatch
      invariant n0 <= |tokens| <= |prompt| && tokens == prompt[..|tokens|]
      invariant |batch| <= |batch'| <= nBatch && |batch'| - |batch| == |tokens| - n0
      invariant batch'[..|batch|] == batch
      invariant forall k :: n0 < k <= |tokens| ==> !border(k)
      invariant forall k :: |batch| <= k < |batch'| ==>
        batch'[k] == Entry(id, prompt[k - |batch| + n0], k - |batch| + n0, output)
    {
      var tok := prompt[|tokens|];
      batch' := batch' + [Entry(id, tok, |tokens|, output)];
      tokens := tokens + [tok];
      if border(|tokens|) {
        break;
      }
    }
    TailPending(tokens, n0, batch', |batch|);
  }

  /** set_output only touches the output flag. */
  lemma SameButOutput(tokens: seq<Token>, a: seq<Entry>, b: seq<Entry>, from: nat)
    requires |a| == |b| && from <= |a| && PendingTail(tokens, a[from..])
    requires forall k :: 0 <= k < |a| ==> b[k].pos == a[k].pos && b[k].token == a[k].token
    ensures PendingTail(tokens, b[from..])
  {
  }

  /** Truncation leaves exactly the cells of the token list. */
  lemma TruncatedSync(s: Slot)
    requires InSync(s, [])
    ensures Agree(SeqRm(s.mem, |s.tokens|, -1), s.tokens)
    ensures Below(SeqRm(s.mem, |s.tokens|, -1), |s.tokens|)
  {
  }

  /** Entries appended in step with the token list are its pending tail. */
  lemma TailPending(tokens: seq<Token>, n0: nat, batch: seq<Entry>, from: nat)
    requires from <= |batch| && |tokens| == n0 + |batch| - from
    requires forall k :: from <= k < |batch| ==>
      batch[k].pos == k - from + n0 && batch[k].token == tokens[k - from + n0]
    ensures PendingTail(tokens, batch[from..])
  {
  }

  lemma AppendedSync(r: Slot, kept: seq<Token>, id: nat, batch: seq<Entry>, batch': seq<Entry>)
    requires Agree(r.mem, kept) && Below(r.mem, |kept|)
    requires Mine(batch, id) == [] && Appended(batch, batch', id)
    requires PendingTail(r.tokens, batch'[|batch|..])
    requires |kept| == |r.tokens| - (|batch'| - |batch|) && r.tokens[..|kept|] == kept
    ensures InSync(r, Mine(batch', id))
  {
    AppendedMine(batch, batch', id, id, 0);
    assert batch'[0..] == batch' && batch[0..] == batch;
    assert Mine(batch', id) == batch'[|batch|..];
  }

  lemma FilledPhase(r: Slot, id: nat, batch: seq<Entry>, batch': seq<Entry>, nCtx: int)
    requires Appended(batch, batch', id) && |batch| < |batch'| && r.draft == [] && r.specIdx == []
    requires |r.tokens| <= |r.task.prompt| && r.tokens == r.task.prompt[..|r.tokens|]
    requires r.phase == if |r.tokens| == |r.task.prompt| then DonePrompt else ProcessingPrompt
    requires r.phase == DonePrompt ==>
      r.iBatch == |batch'| - 1 && batch'[r.iBatch].output && batch'[r.iBatch].pos == |r.tokens| - 1
    ensures PhaseOk(r, id, batch', 0, nCtx)
  {
  }
}
