/** Data model of a server slot, the batch it feeds, and what has to be true of them. */
module SlotState {
  import opened KvMemory

  datatype Phase = Idle | Started | ProcessingPrompt | DonePrompt | Generating

  datatype Task = Task(
    prompt: seq<Token>,
    nKeep: int,          // params.n_keep, negative means the whole prompt
    nDiscard: int,       // params.n_discard, 0 means half of what is left
    nCacheReuse: int,    // params.n_cache_reuse, 0 disables chunk reuse
    cachePrompt: bool,
    canSplit: bool,      // false for embeddings that need the whole prompt in one batch
    needSampling: bool,  // completion tasks
    kind: int)           // everything can_batch_with compares: type, adapters

  datatype Slot = Slot(
    phase: Phase,
    task: Task,
    tokens: seq<Token>,    // prompt.tokens
    mem: Cells,            // KV cells of this slot's sequence
    sampled: Token,        // last accepted token, not yet in tokens
    truncated: bool,
    draft: seq<Token>,     // spec_draft
    specIdx: seq<int>,     // spec_i_batch
    iBatch: int,           // i_batch, -1 when no output is awaited
    ckptTokens: nat,       // spec_ckpt.n_tokens
    ckptPosMax: int,       // spec_ckpt.pos_max
    history: seq<Token>,   // tokens the sampler has accepted
    sent: seq<Token>)      // tokens handed to process_token for the current request

  /** server_batch::token */
  datatype Entry = Entry(id: nat, token: Token, pos: int, output: bool)

  /** The target model with its sampler, deterministic: next token from the visible context and the sampler history. */
  type Model = (seq<Token>, seq<Token>) -> Token

  /** The batch entries of one slot, in batch order. */
  function Mine(batch: seq<Entry>, id: nat): (es: seq<Entry>)
    ensures |es| <= |batch|
  {
    if batch == [] then []
    else if batch[0].id == id then [batch[0]] + Mine(batch[1..], id)
    else Mine(batch[1..], id)
  }

  lemma {:induction false} MineConcat(a: seq<Entry>, b: seq<Entry>, id: nat)
    ensures Mine(a + b, id) == Mine(a, id) + Mine(b, id)
  {
    if a == [] {
      assert a + b == b;
    } else {
      assert (a + b)[1..] == a[1..] + b;
      MineConcat(a[1..], b, id);
    }
  }

  lemma {:induction false} MineAll(a: seq<Entry>, id: nat)
    requires forall i :: 0 <= i < |a| ==> a[i].id == id
    ensures Mine(a, id) == a
  {
    if a != [] {
      MineAll(a[1..], id);
    }
  }

  lemma {:induction false} MineNone(a: seq<Entry>, id: nat)
    requires forall i :: 0 <= i < |a| ==> a[i].id != id
    ensures Mine(a, id) == []
  {
    if a != [] {
      MineNone(a[1..], id);
    }
  }

  /** The pending entries are the last |p| tokens of the list, at their own positions. */
  ghost predicate PendingTail(tokens: seq<Token>, p: seq<Entry>) {
    |p| <= |tokens| &&
    forall j :: 0 <= j < |p| ==> p[j].pos == |tokens| - |p| + j && p[j].token == tokens[|tokens| - |p| + j]
  }

  /** Consecutive positions, all above everything the memory holds. */
  ghost predicate AboveMemory(mem: Cells, p: seq<Entry>) {
    (forall j :: 0 <= j < |p| ==> p[j].pos == p[0].pos + j) &&
    (p != [] ==> 0 <= p[0].pos && Below(mem, p[0].pos))
  }

  /** While a slot has output to produce, nothing stale may lie beyond its tokens. */
  predicate Busy(s: Slot) {
    s.phase == DonePrompt || s.phase == Generating
  }

  /** KV memory and token list agree, except for the entries p still waiting in the batch. */
  ghost predicate InSync(s: Slot, p: seq<Entry>) {
    PendingTail(s.tokens, p) && AtPositions(s.mem) &&
    Agree(s.mem, s.tokens[..|s.tokens| - |p|]) &&
    (p != [] || Busy(s) ==> Below(s.mem, |s.tokens| - |p|))
  }

  lemma ExactSync(s: Slot)
    requires Agree(s.mem, s.tokens) && AtPositions(s.mem) && (Busy(s) ==> Below(s.mem, |s.tokens|))
    ensures InSync(s, [])
  {
  }

  /** A slot purged while some of its entries were still waiting: it claims nothing. */
  ghost predicate Purged(s: Slot, p: seq<Entry>) {
    s.phase == Idle && s.tokens == [] && AtPositions(s.mem) && AboveMemory(s.mem, p)
  }

  ghost predicate Synced(s: Slot, p: seq<Entry>) {
    InSync(s, p) || Purged(s, p)
  }

  /** Decoding the next pending entry: the position is free, and the slot stays in sync. */
  lemma DecodeKeepsSync(s: Slot, p: seq<Entry>)
    requires Synced(s, p) && p != []
    ensures p[0].pos !in s.mem && 0 <= p[0].pos
    ensures Synced(s.(mem := s.mem[p[0].pos := p[0].token]), p[1..])
  {
    var s' := s.(mem := s.mem[p[0].pos := p[0].token]);
    var n := |s.tokens| - |p|;
    if InSync(s, p) {
      assert p[0].pos == n;
      forall i | 0 <= i < n + 1 ensures i in s'.mem && s'.mem[i] == s.tokens[..n + 1][i] {
        if i < n { assert s.tokens[..n][i] == s.tokens[i]; }
      }
      assert InSync(s', p[1..]);
    } else if |p| > 1 {
      assert p[1].pos == p[0].pos + 1;
      assert Purged(s', p[1..]);
    } else {
      assert Purged(s', p[1..]);
    }
  }

  /** Dropping the entries that were still waiting, as an aborted batch does, keeps an idle slot's
      agreement exactly when nothing was waiting or the slot has no tokens. */
  lemma AbandonedEntries(s: Slot, p: seq<Entry>)
    requires Synced(s, p) && s.phase == Idle
    ensures Synced(s, []) <==> p == [] || s.tokens == []
  {
    if p != [] && s.tokens != [] {
      var last := |s.tokens| - 1;
      assert last !in s.mem;
      assert s.tokens[..|s.tokens| - 0][last] == s.tokens[last];
    }
  }

  // ---- what the generated text has to be ----

  /** From n0 on every token of x is the one the model picks after the tokens before it. */
  ghost predicate Greedy(model: Model, x: seq<Token>, n0: nat) {
    forall i :: n0 <= i < |x| ==> x[i] == model(x[..i], x[..i])
  }

  /** One-token-at-a-time decoding: the prompt followed by k generated tokens. */
  function Reference(model: Model, prompt: seq<Token>, k: nat): (x: seq<Token>)
    ensures |x| == |prompt| + k
  {
    if k == 0 then prompt
    else
      var x := Reference(model, prompt, k - 1);
      x + [model(x, x)]
  }

  /** A text that extends the prompt greedily is what one-token-at-a-time decoding produces. */
  lemma {:induction false} GreedyIsReference(model: Model, prompt: seq<Token>, x: seq<Token>)
    requires |prompt| <= |x| && x[..|prompt|] == prompt && Greedy(model, x, |prompt|)
    ensures x == Reference(model, prompt, |x| - |prompt|)
    decreases |x|
  {
    if |x| == |prompt| {
      assert x == x[..|prompt|];
    } else {
      var y := x[..|x| - 1];
      assert y[..|prompt|] == prompt;
      assert forall i :: 0 <= i <= |y| ==> y[..i] == x[..i];
      GreedyIsReference(model, prompt, y);
      assert x == y + [x[|x| - 1]];
    }
  }

  predicate Waiting(s: Slot) {
    s.iBatch >= 0 || s.specIdx != []
  }

  /** The tokens that are already decided: everything but an unverified draft, plus the sampled token
      when it is not in the list yet. */
  function Certain(s: Slot): seq<Token>
    requires s.phase == Generating && Waiting(s) ==> |s.draft| <= |s.tokens|
  {
    if s.phase == DonePrompt then s.tokens
    else if s.phase == Generating && Waiting(s) then s.tokens[..|s.tokens| - |s.draft|]
    else s.tokens + [s.sampled]
  }

  /** Unless a context shift dropped tokens, the decided text is the reference text, and the sampler saw exactly it. */
  ghost predicate Lossless(model: Model, s: Slot) {
    (s.phase == Generating && Waiting(s) ==> |s.draft| <= |s.tokens|) &&
    (Busy(s) && s.task.needSampling && !s.truncated ==>
      var x := Certain(s);
      |s.task.prompt| <= |x| && x[..|s.task.prompt|] == s.task.prompt &&
      Greedy(model, x, |s.task.prompt|) && s.history == x)
  }

  /** Every token accepted after the prompt was handed on, once and in order. */
  predicate Told(s: Slot) {
    (s.phase == Started || s.phase == ProcessingPrompt ==> s.sent == []) &&
    (Busy(s) && s.task.needSampling ==>
      |s.task.prompt| <= |s.history| && s.sent == s.history[|s.task.prompt|..])
  }

  /** What was handed on for a request is what one-token-at-a-time decoding generates. */
  ghost predicate SaysReference(model: Model, s: Slot) {
    s.sent == Reference(model, s.task.prompt, |s.sent|)[|s.task.prompt|..]
  }

  /** A beginning of a greedy text. */
  lemma GreedyBegins(model: Model, prompt: seq<Token>, x: seq<Token>, k: nat)
    requires |prompt| + k <= |x| && x[..|prompt|] == prompt && Greedy(model, x, |prompt|)
    ensures x[..|prompt| + k] == Reference(model, prompt, k)
  {
    var y := x[..|prompt| + k];
    assert y[..|prompt|] == prompt;
    assert forall i :: 0 <= i <= |y| ==> y[..i] == x[..i];
    GreedyIsReference(model, prompt, y);
  }

  // ---- where a slot's output will appear, and how much room it has ----

  /** Batch index idx carries the output of slot id after position pos, at or after off. */
  predicate OutputAt(batch: seq<Entry>, off: nat, idx: int, id: nat, pos: int) {
    off <= idx < |batch| && batch[idx].id == id && batch[idx].pos == pos && batch[idx].output
  }

  /** No entry of the slot comes after index idx. */
  ghost predicate LastOf(batch: seq<Entry>, idx: int, id: nat) {
    0 <= idx < |batch| && Mine(batch[idx + 1..], id) == []
  }

  ghost predicate DraftKept(s: Slot, nCtx: int) {
    s.draft != [] ==>
      s.ckptTokens == |s.tokens| && s.ckptPosMax + 1 == s.ckptTokens && |s.tokens| + |s.draft| + 2 <= nCtx
  }

  ghost predicate DraftInBatch(s: Slot, id: nat, batch: seq<Entry>, off: nat, nCtx: int) {
    s.iBatch < 0 && |s.tokens| + 1 <= nCtx && |s.specIdx| == |s.draft| + 1 && |s.draft| + 1 <= |s.tokens| &&
    s.tokens[|s.tokens| - |s.draft|..] == s.draft && s.tokens[|s.tokens| - |s.draft| - 1] == s.sampled &&
    (forall j :: 0 <= j < |s.specIdx| ==> OutputAt(batch, off, s.specIdx[j], id, |s.tokens| - |s.draft| - 1 + j)) &&
    LastOf(batch, s.specIdx[|s.draft|], id) &&
    s.ckptTokens == |s.tokens| - |s.draft| - 1 && s.ckptPosMax + 1 == s.ckptTokens
  }

  /** What each phase promises about the slot's place in the batch from off on. */
  ghost predicate PhaseOk(s: Slot, id: nat, batch: seq<Entry>, off: nat, nCtx: int)
    requires off <= |batch|
  {
    match s.phase
    case Idle => s.draft == [] && s.specIdx == []
    case Started => s.draft == [] && s.specIdx == [] && Mine(batch[off..], id) == []
    case ProcessingPrompt =>
      s.draft == [] && s.specIdx == [] && |s.tokens| < |s.task.prompt| && s.tokens == s.task.prompt[..|s.tokens|]
    case DonePrompt =>
      s.draft == [] && s.specIdx == [] && s.tokens == s.task.prompt &&
      OutputAt(batch, off, s.iBatch, id, |s.tokens| - 1) && LastOf(batch, s.iBatch, id)
    case Generating =>
      s.task.needSampling &&
      if !Waiting(s) then Mine(batch[off..], id) == [] && DraftKept(s, nCtx)
      else if s.draft == [] then
        s.specIdx == [] && OutputAt(batch, off, s.iBatch, id, |s.tokens| - 1) && LastOf(batch, s.iBatch, id)
      else DraftInBatch(s, id, batch, off, nCtx)
  }

  /** Where a slot awaits its outputs: at entries of its own that ask for one, at the position of its last token, or at
      those of its sampled token and of each draft token. */
  lemma AwaitedEntries(s: Slot, id: nat, batch: seq<Entry>, off: nat, nCtx: int)
    requires off <= |batch| && PhaseOk(s, id, batch, off, nCtx) && (s.phase == Generating ==> Waiting(s))
    ensures s.phase == DonePrompt || (s.phase == Generating && s.draft == []) ==>
      off <= s.iBatch < |batch| && batch[s.iBatch].id == id && batch[s.iBatch].output &&
      batch[s.iBatch].pos == |s.tokens| - 1
    ensures s.phase == Generating && s.draft != [] ==>
      |s.specIdx| == |s.draft| + 1 && s.draft <= s.tokens[|s.tokens| - |s.draft|..] &&
      forall j :: 0 <= j < |s.specIdx| ==>
        off <= s.specIdx[j] < |batch| && batch[s.specIdx[j]].id == id && batch[s.specIdx[j]].output &&
        batch[s.specIdx[j]].pos == |s.tokens| - 1 - |s.draft| + j
  {
  }

  /** batch' is batch with entries of slot id added at the end. */
  ghost predicate Appended(batch: seq<Entry>, batch': seq<Entry>, id: nat) {
    |batch| <= |batch'| && batch'[..|batch|] == batch &&
    forall k :: |batch| <= k < |batch'| ==> batch'[k].id == id
  }

  lemma AppendedMine(batch: seq<Entry>, batch': seq<Entry>, id: nat, j: nat, from: nat)
    requires Appended(batch, batch', id) && from <= |batch|
    ensures Mine(batch'[from..], j) == Mine(batch[from..], j) + (if j == id then batch'[|batch|..] else [])
  {
    assert batch'[from..] == batch[from..] + batch'[|batch|..];
    MineConcat(batch[from..], batch'[|batch|..], j);
    if j == id {
      MineAll(batch'[|batch|..], j);
    } else {
      MineNone(batch'[|batch|..], j);
    }
  }

  /** Entries of another slot do not disturb what a slot's phase promises. */
  lemma AppendedPhaseOk(s: Slot, j: nat, batch: seq<Entry>, batch': seq<Entry>, id: nat, nCtx: int)
    requires Appended(batch, batch', id) && j != id
    requires PhaseOk(s, j, batch, 0, nCtx)
    ensures PhaseOk(s, j, batch', 0, nCtx)
  {
    hide OutputAt, LastOf, Appended;
    AppendedMine(batch, batch', id, j, 0);
    if s.phase == DonePrompt || (s.phase == Generating && Waiting(s) && s.draft == []) {
      OutputKept(batch, batch', id, s.iBatch, j, |s.tokens| - 1);
      LastKept(batch, batch', id, s.iBatch, j);
    } else if s.phase == Generating && Waiting(s) {
      forall i | 0 <= i < |s.specIdx| ensures OutputAt(batch', 0, s.specIdx[i], j, |s.tokens| - |s.draft| - 1 + i) {
        OutputKept(batch, batch', id, s.specIdx[i], j, |s.tokens| - |s.draft| - 1 + i);
      }
      LastKept(batch, batch', id, s.specIdx[|s.draft|], j);
    }
  }

  lemma OutputKept(batch: seq<Entry>, batch': seq<Entry>, id: nat, idx: int, j: nat, pos: int)
    requires Appended(batch, batch', id) && OutputAt(batch, 0, idx, j, pos)
    ensures OutputAt(batch', 0, idx, j, pos)
  {
    assert batch'[idx] == batch'[..|batch|][idx];
  }

  lemma LastKept(batch: seq<Entry>, batch': seq<Entry>, id: nat, idx: int, j: nat)
    requires Appended(batch, batch', id) && j != id && LastOf(batch, idx, j)
    ensures LastOf(batch', idx, j)
  {
    AppendedMine(batch, batch', id, j, idx + 1);
  }

  /** Room in the slot's context.  Without context shift the generation stops in time; with it, a shift
      makes room as long as n_discard is not negative. */
  predicate RoomOk(s: Slot, nCtx: int, ctxShift: bool) {
    (s.task.needSampling ==> s.task.canSplit) &&
    (s.phase == ProcessingPrompt && s.task.needSampling ==> |s.task.prompt| < nCtx) &&
    (s.phase == DonePrompt && s.task.needSampling ==> |s.tokens| < nCtx) &&
    (s.phase == Generating && (s.task.nDiscard >= 0 || !ctxShift) ==> |s.tokens| < nCtx) &&
    (s.phase == Generating && !ctxShift && !Waiting(s) ==> |s.tokens| + 1 < nCtx)
  }

  /** Releasing a slot keeps its tokens and its memory. */
  function Release(s: Slot): (r: Slot) {
    s.(phase := Idle, truncated := false, draft := [], specIdx := [])
  }

  /** prompt_clear: both sides are emptied together. */
  function PromptClear(s: Slot): (r: Slot) {
    s.(tokens := [], mem := SeqRm(s.mem, -1, -1))
  }
}
