# Verified model of the llama.cpp stack

A Dafny model of the two places of this repository where state is hardest to keep straight: the inference server
under `llamacpp-upstream/tools/server` and the gateway's adapter for Responses streams. `dafny verify dfyconfig.toml`
checks all of it.

What is modelled, and in which modules:

1. **Slots, KV cells and generated text** (`KvMemory`, `SlotState`, `ChunkReuse`, `ContextShift`, `PromptSteps`,
   `Generation`, `PostDecode`, `DecodeLoop`, `UpdateSlots`, `SlotRuns`). A slot keeps a token list that has to mirror
   what the KV memory holds. The memory is a map from position to token per sequence. Every optimisation edits list and
   memory separately: prefix reuse, chunk reuse by shifting, context shift, drafts with roll-back or checkpoint and
   replay, retries with smaller batches, purging of idle slots. `UpdateSlots.Server` runs the slot loop over all slots;
   its invariant says that cells and tokens agree, that every output index points at the right entry, and that the text
   is the one one-token-at-a-time decoding gives. `DecodeLoop` is the retry loop of one batch as a transition system.
2. **Delivered text** (`StopWords`, `Utf8`, `RequestText`): the incremental stop-word filter, the UTF-8 checks it relies
   on, and the text a client gets for a slot's tokens.
3. **Token lists with media** (`MediaTokens`, `ServerTokens`, `TokenState`): the tiling of media chunks into a list, the
   conversion between entries and positions, and the binary form in which a list is saved.
4. **Prompt cache** (`PromptCache`): alloc, load, update, and the exchange with a slot.
5. **Router** (`Scheduler`, `RouterInvariants`, `RouterSteps`, `Router`, `RouterLapses`, `RouterOrder`, `RouterRuns`):
   loads, child messages, exits, stops and queued requests, one atomic step per region of code that holds the mutex, in
   any interleaving. `RouterSteps` says what each step does, `Router.Models` does it.
6. **Task queue** (`TaskOrder`, `TaskQueue`): posts, deferral, cancels and yielding, in any interleaving, against
   the same queue when nobody yields.
7. **Responses stream adapter** (`ResponsesCalls`, `ResponsesSse`, `ResponsesStream`, `ResponsesRemoval`,
   `ResponsesClient`): bytes, lines, blocks and events. The client ends lines, collects data and dispatches events as in
   section 9.2 of the WHATWG HTML Standard. UTF-8 structure is as in
   section 3 of RFC 3629.

Code that cannot be seen is a contract: the `llama_*` memory calls are operations on the position map, the target model
with its sampler is a deterministic function of the visible context and the sampler's history, the drafter is an
arbitrary function that respects its maximal length, decode results, allocation, restores, ports and spawns are
parameters, and JSON is a pair of functions with the properties stated in `ResponsesSse.Sane`.

## Where the code is not what its comments or its intention say

The model follows the code. Each of these comes with the input or the run that shows it, and with the exact condition
under which the code does what it should.

- `keep_first` tests whether the entry before the cut starts a chunk, not the entry after it. A cut one entry into a
  chunk is let through, and a cut between two chunks is refused (`ServerTokens.KeepFirstMisjudges`,
  `ServerTokens.KeepFirstExample`, against the comment in server-common.cpp:657-662).
- A draft cut by a sub-batch raises an exception that is caught per slot. The slot is released while its entries still
  wait in the batch; if a later sub-batch then fails for good, its tokens are ahead of its cells
  (`SlotRuns.CutDraftLosesCells`; exactly which slots: `DecodeLoop.AbortExactly`). An exception during a decode releases
  the processing slots without clearing them, with the same result (`SlotRuns.ThrowLosesCells`; exactly which slots:
  `DecodeLoop.ThrowExactly`).
- The assertion that the batch holds the sampled tokens and drafts of all generating slots can fail
  (`SlotRuns.DraftDoesNotFit`; exactly when: `UpdateSlots.Server.Pass`).
- With a negative n_discard a context shift makes no room (`ContextShift.RoomAfterShift`).
- A piece that cuts a character skips the stop-word check, and a stop word in it is delivered later
  (`StopWords.CutPieceLeaksStopWord`; exactly when: `StopWords.StepLeaksExactly`, `StopWords.RunLeaksExactly`). A limit
  that ends a run drops text that was held back (`StopWords.LimitLosesHeldText`).
- A cached prompt whose draft state fails to restore stays in the cache without its main state, can win the next lookup,
  and then restores nothing although the slot takes over its tokens (`PromptCache.GuttedEntryMisleads`;
  exactly when entries stay restorable: `PromptCache.AfterWhole`; exactly when slot and contexts agree:
  `PromptCache.Swap`).
- A stop requested between the two locked regions of a child's exit marks the next instance (`RouterRuns.StaleMark`;
  exactly when: `RouterLapses.MarksKeptExactly`); a request that outlives its model's process is uncounted for the next
  one (`RouterRuns.LostCount`; `RouterLapses.CountsKeptExactly`); an entry marked as loading keeps the mark after its
  model goes down again, and blocks the whole queue (`RouterRuns.StuckClaim`; `RouterLapses.StuckExactly`).
- A front post during a yield goes behind the declined tasks, also when it is a cancel, which server-queue.cpp:616 says
  has the highest priority (`TaskOrder.CancelLandsBehind`; exactly when: `TaskOrder.FrontPostExact`,
  `TaskOrder.RefinesExactly`); several front posts end up in reverse order (`TaskQueue.FrontPostReverses`), and a cancel
  misses a task that is being offered (`TaskOrder.CancelMisses`; `TaskOrder.CancelRemoves`).
- A data field without a space after its colon, a second data field, or a lone CR make a client read another text than
  the adapter does, and a finished call may reach it with no report (`ResponsesClient.NoSpaceUnreported`,
  `ResponsesClient.LoneCrUnreported`; exactly when: `ResponsesClient.AlignedExactly`,
  `ResponsesClient.ClientPrecededExactly`).
- Injecting a report replaces the whole block: other fields of the event, such as its id, are lost
  (`ResponsesStream.OtherFieldLost`; exactly when nothing is: `ResponsesStream.ItemEvent`,
  `ResponsesRemoval.RestoredExactly`).

## Model

| member | source | states |
|---|---|---|
| `KvMemory.SeqRm` | llamacpp-upstream/tools/server/server-context.cpp:2951 | removing a position range leaves exactly the cells outside it, unchanged; a negative bound is open |
| `KvMemory.SeqAdd` | llamacpp-upstream/tools/server/server-context.cpp:3270 | adding to positions moves exactly the cells of the range and never onto a cell that stays |
| `KvMemory.PosMin` | llamacpp-upstream/tools/server/server-context.cpp:3300 | the smallest position held, -1 exactly when nothing is held |
| `KvMemory.PosMax` | llamacpp-upstream/tools/server/server-context.cpp:3020 | the largest position held, -1 exactly when nothing is held |
| `KvMemory.VisibleIsTokens` | llamacpp-upstream/tools/server/server-context.cpp:3682 | what the model can see at a position is the token list up to it, if memory and list agree |
| `SlotState.DecodeKeepsSync` | llamacpp-upstream/tools/server/server-context.cpp:3681-3686 | decoding the next waiting entry finds its position free and keeps cells and tokens in step |
| `SlotState.AbandonedEntries` | llamacpp-upstream/tools/server/server-context.cpp:3712-3724 | an idle slot whose waiting entries are dropped stays in step exactly when none was waiting or it has no tokens |
| `SlotState.GreedyIsReference` | llamacpp-upstream/tools/server/server-context.cpp:3853-3861 | a text in which every token is the model's choice after the ones before it is the output of one-token-at-a-time decoding |
| `SlotState.GreedyBegins` | llamacpp-upstream/tools/server/server-context.cpp:3853-3861 | every beginning of a text in which each token is the model's choice is such an output too |
| `SlotState.AwaitedEntries` | llamacpp-upstream/tools/server/server-context.cpp:505-542 | a slot awaits its outputs at entries of its own that ask for one, at the positions of its last token, or of its sampled token and each draft token |
| `SlotState.AppendedPhaseOk` | llamacpp-upstream/tools/server/server-context.cpp:532-535 | entries of another slot do not disturb where a slot awaits its outputs |
| `ChunkReuse.MatchAt` | llamacpp-upstream/tools/server/server-context.cpp:3254-3259 | the match loop stops at the first difference: equal before, different at the end |
| `ChunkReuse.GapAllowsShift` | llamacpp-upstream/tools/server/server-context.cpp:3269-3270 | after the gap is cleared the shift meets no live cell |
| `ChunkReuse.MoveChunk` | llamacpp-upstream/tools/server/server-context.cpp:3267-3270 | the two memory calls move the chunk down to the head of the prompt and leave nothing between |
| `ChunkReuse.CopyDown` | llamacpp-upstream/tools/server/server-context.cpp:3272-3275 | copying the tokens down in place reads only tokens not yet overwritten |
| `ChunkReuse.CountMatch` | llamacpp-upstream/tools/server/server-context.cpp:3254-3259 | the counting loop computes the match length |
| `ChunkReuse.LongMatch` | llamacpp-upstream/tools/server/server-context.cpp:3254-3261 | at least n tokens match exactly when the next n of both lists are equal |
| `ChunkReuse.ReusedFirst` | llamacpp-upstream/tools/server/server-context.cpp:3245-3285 | the next chunk taken is the first place of the cache, from the cursor on, with at least n_cache_reuse of the tokens the prompt needs next, and all that match there |
| `ChunkReuse.ReusedNoMore` | llamacpp-upstream/tools/server/server-context.cpp:3245-3285 | nothing more is reused when there is no such place |
| `ChunkReuse.TakeChunk` | llamacpp-upstream/tools/server/server-context.cpp:3261-3279 | one round keeps the two-cursor invariant: prompt before the heads, untouched cache after them |
| `ChunkReuse.ReuseChunks` | llamacpp-upstream/tools/server/server-context.cpp:3238-3285 | for every cache, prompt and n_cache_reuse of at least 1 the loop ends with n_past == head_p <= head_c, and tokens and cells both start with the first n_past prompt tokens |
| `ContextShift.DiscardCount` | llamacpp-upstream/tools/server/server-context.cpp:2943-2947 | the discarded part is never all that is left |
| `ContextShift.ShiftKeepsAndLoses` | llamacpp-upstream/tools/server/server-context.cpp:2935-2947 | the first n_keep tokens (the prompt if negative, one more with BOS, at most n_ctx - 4) stay; of the rest n_discard go, or half if it is 0, or none if it is negative, but never the last one; what follows moves down |
| `ContextShift.DropBlock` | llamacpp-upstream/tools/server/server-context.cpp:2959-2964 | the copy loop and the resize drop exactly the block |
| `ContextShift.ShiftedAgree` | llamacpp-upstream/tools/server/server-context.cpp:2951-2952 | seq_rm and seq_add make the cells agree with the shortened list |
| `ContextShift.RoomAfterShift` | llamacpp-upstream/tools/server/server-context.cpp:2943-2947 | a full context has room for another token after a shift exactly when n_discard is not negative |
| `ContextShift.ShiftContext` | llamacpp-upstream/tools/server/server-context.cpp:2934-2970 | after a shift cells and tokens agree, n_keep tokens stay at the front, n_discard of the rest or half of them are gone, and a full context has room for another token exactly when n_discard is not negative |
| `PromptSteps.CommonPrefix` | llamacpp-upstream/tools/server/server-common.cpp:698-709 | text-only common prefix: the lists agree on it |
| `PromptSteps.ReusableCases` | llamacpp-upstream/tools/server/server-context.cpp:3217-3285 | nothing is reused unless the request allows it and can be split; else the longest common prefix, and the chunks found behind it if cells can be shifted and n_cache_reuse is set |
| `PromptSteps.ReusePrompt` | llamacpp-upstream/tools/server/server-context.cpp:3217-3303 | whatever is reused, tokens and cells start with the reused part of the new prompt; the abort on pos_min == -1 cannot happen |
| `PromptSteps.StartPrompt` | llamacpp-upstream/tools/server/server-context.cpp:3142-3426 | a request is rejected exactly when it is empty or too long, in numbers of tokens; otherwise the slot keeps a proper prefix of the prompt, one token less if all of it was cached |
| `PromptSteps.FeedTokens` | llamacpp-upstream/tools/server/server-context.cpp:3524-3575 | the feeding loop adds the next prompt tokens at their own positions and stops at the end of the prompt, when the batch is full, or at the first border where a checkpoint is to be taken |
| `PromptSteps.FillPrompt` | llamacpp-upstream/tools/server/server-context.cpp:3439-3600 | after the truncation the waiting entries continue exactly where the cells end, and the last prompt token carries the output |
| `Generation.BeginDraft` | llamacpp-upstream/tools/server/server-context.cpp:2998-3040 | a kept draft is reused, a new one leaves two free positions, and the checkpoint records the present end of the list |
| `Generation.HandleLastSampledToken` | llamacpp-upstream/tools/server/server-context.cpp:505-542 | sampled token and draft enter batch and list together, and each output index points at its entry; it fails exactly when the batch is too small |
| `Generation.AddAll` | llamacpp-upstream/tools/server/server-context.cpp:532-535 | the entries added have consecutive positions and the draft's tokens |
| `Generation.Accepted` | llamacpp-upstream/tools/server/server-context.cpp:3915-3924 | at least one and at most one more than the draft is accepted |
| `Generation.AcceptedIsGreedy` | llamacpp-upstream/tools/server/server-context.cpp:3915-3916 | every accepted token is the model's own choice at its place; all but the last are the draft's, and the last one differs unless the whole draft was accepted |
| `Generation.ReplayAcceptsAll` | llamacpp-upstream/tools/server/server-context.cpp:3937-3957 | replaying the accepted tokens as a draft from the restored checkpoint accepts all of them and adds one |
| `PostDecode.SampleNext` | llamacpp-upstream/tools/server/server-context.cpp:3850-3861 | the sampled token is the model's choice after exactly the slot's tokens, read off the cells |
| `PostDecode.SampleAndAccept` | llamacpp-upstream/tools/server/server-context.cpp:3915-3916 | sampling at the draft's positions until the first disagreement gives the accepted tokens |
| `PostDecode.VerifyDraft` | llamacpp-upstream/tools/server/server-context.cpp:3909-3998 | either the accepted tokens become part of the list and the rest is rolled back, or the checkpoint is restored and they become the draft to replay; cells and tokens agree either way |
| `PostDecode.RestoreDraft` | llamacpp-upstream/tools/server/server-context.cpp:3937-3957 | the replay branch: list, cells and sampler are those of the checkpoint, the accepted tokens are the new draft |
| `PostDecode.KeepDraft` | llamacpp-upstream/tools/server/server-context.cpp:3960-3998 | the other branch: list and cells keep exactly the accepted part of the draft |
| `PostDecode.VerifiedLossless` | llamacpp-upstream/tools/server/server-context.cpp:3898-3998 | verifying a draft, with roll-back or with replay, does not change the decided text |
| `PostDecode.Deliver` | llamacpp-upstream/tools/server/server-context.cpp:4000-4018 | the tokens handed on are a non-empty beginning of the accepted ones, up to and including the one that ends the request, or the first alone when the context is full |
| `PostDecode.DeliverNext` | llamacpp-upstream/tools/server/server-context.cpp:3805-3895 | a delivered token leaves the slot in order, generating or released |
| `PostDecode.SettleDraft` | llamacpp-upstream/tools/server/server-context.cpp:3898-3967 | after verification the slot waits for nothing |
| `PostDecode.FinishDraft` | llamacpp-upstream/tools/server/server-context.cpp:3969-4018 | a finished or stopped draft leaves the slot in order |
| `PostDecode.DeliverDraft` | llamacpp-upstream/tools/server/server-context.cpp:3898-4018 | the whole speculative step, from waiting draft to slot in order, with the exact tokens, history and phase it leaves |
| `PostDecode.DraftSends` | llamacpp-upstream/tools/server/server-context.cpp:3898-4018 | what a verified draft leaves, in terms of the model's answer: the accepted tokens that reach process_token, each exactly when none before it ended the request, the one that ends it included; list, sampled token and phase; or the replay |
| `PostDecode.OutputsCases` | llamacpp-upstream/tools/server/server-context.cpp:3784-3895 | what a sub-batch leaves of a slot without a draft: nothing changes unless its output is in it; then an embedding ends the request and a completion takes and hands on the model's choice, and ends if a stop condition or the context says so; a cut draft releases it |
| `PostDecode.PostDecodeSlot` | llamacpp-upstream/tools/server/server-context.cpp:3784-4024 | what a sub-batch makes of a slot: released if its draft was cut, one token on, one draft on, or untouched; in order in every case |
| `PostDecode.UntouchedGood` | llamacpp-upstream/tools/server/server-context.cpp:3813-3816 | a slot whose output is not in the sub-batch keeps waiting in order |
| `PostDecode.ReleasedGood` | llamacpp-upstream/tools/server/server-context.cpp:544-565 | a slot can be released at any point and stays in order |
| `PostDecode.OutputsEnd` | llamacpp-upstream/tools/server/server-context.cpp:3784-4024 | after a sub-batch no slot waits for a draft, and a slot that ended without a cut draft has no entry left in the batch |
| `PostDecode.OutputsSayReference` | llamacpp-upstream/tools/server/server-context.cpp:3784-4024 | over a whole request, drafts and replays included and its end too: the tokens handed to process_token are those one-token-at-a-time decoding generates, each once and in order |
| `DecodeLoop.TilesOnce` | llamacpp-upstream/tools/server/server-context.cpp:2870-2906 | every batch index lies in exactly one decoded sub-batch |
| `DecodeLoop.PurgeLowers` | llamacpp-upstream/tools/server/server-context.cpp:1676-1689 | purging an idle slot lowers the number of slots that can be purged |
| `UpdateSlots.PurgedGood` | llamacpp-upstream/tools/server/server-context.cpp:334-340 | a purged slot stays in order, even while entries of it wait |
| `UpdateSlots.OtherStaysGood` | llamacpp-upstream/tools/server/server-context.cpp:532-535 | a slot stays in order when another one enters the batch |
| `UpdateSlots.EnteredLossless` | llamacpp-upstream/tools/server/server-context.cpp:540-541 | entering the batch decides nothing new |
| `UpdateSlots.FirstLeads` | llamacpp-upstream/tools/server/server-context.cpp:2984-2996 | the batch takes the kind of the first generating slot |
| `DecodeLoop.StoreStep` | llamacpp-upstream/tools/server/server-context.cpp:3681-3686 | storing one entry keeps every slot in step and never overwrites a cell |
| `UpdateSlots.GoodAtRest` | llamacpp-upstream/tools/server/server-context.cpp:2909-2975 | between passes the cells hold the tokens, a generating slot's cells nothing else, and an unshifted slot's tokens and sampled token are the prompt followed by the output of one-token-at-a-time decoding, just which was handed on |
| `DecodeLoop.TraceTiles` | llamacpp-upstream/tools/server/server-context.cpp:2867-2906 | the sub-batches decoded by any run of the retry loop cover the batch up to where it stands, each entry once |
| `DecodeLoop.StepCases` | llamacpp-upstream/tools/server/server-context.cpp:2867-2906 | each call by its result: 0 decodes the next n entries or the rest and restores n; 1 empties the first idle slot with tokens if the cells are shared, and halves n when there is none; a negative result, or 1 with n == 1, is no step |
| `DecodeLoop.ThrownCases` | llamacpp-upstream/tools/server/server-context.cpp:3733-3754 | when a call throws its entries are decoded exactly if llama_decode had returned 0 |
| `DecodeLoop.ViewEnd` | llamacpp-upstream/tools/server/server-context.cpp:3784-4024 | what a decoded sub-batch leaves of a slot: a cut draft releases it with its tokens, any other end leaves nothing of it in the batch |
| `DecodeLoop.FailedGood` | llamacpp-upstream/tools/server/server-context.cpp:3712-3724 | after a fatal error a slot is in order unless it was idle with tokens and had entries waiting |
| `DecodeLoop.AbortExactly` | llamacpp-upstream/tools/server/server-context.cpp:2867-2906 | over every run of the retry loop: an aborted pass leaves exactly those slots out of order whose draft did not lie in the first sub-batch as a whole, which had entries still to be decoded, and which no failed decode purged since |
| `DecodeLoop.ThrowExactly` | llamacpp-upstream/tools/server/server-context.cpp:2754-2761 | the same when a call throws, which releases the processing slots without clearing them: exactly those with entries still to be decoded, and not purged, are out of order |
| `DecodeLoop.DroppedGood` | llamacpp-upstream/tools/server/server-context.cpp:2754-2761 | a dropped slot is in order exactly when it has no tokens or nothing of it was still to be decoded |
| `UpdateSlots.Server.constructor` | llamacpp-upstream/tools/server/server-context.cpp:1254-1290 | a fresh server is in order |
| `UpdateSlots.Server.StoreView` | llamacpp-upstream/tools/server/server-context.cpp:3681-3686 | a decoded sub-batch stores every entry on a free position, no two of one slot on the same, and only that |
| `UpdateSlots.Server.PostDecodeAll` | llamacpp-upstream/tools/server/server-context.cpp:3784-4024 | all slots take their outputs of the sub-batch and stay in order |
| `UpdateSlots.Server.TryClearIdleSlots` | llamacpp-upstream/tools/server/server-context.cpp:1667-1692 | purges the first idle slot that holds tokens, exactly when the cache is unified and there is one |
| `UpdateSlots.Server.FailProcessing` | llamacpp-upstream/tools/server/server-context.cpp:3712-3721 | a fatal error releases and empties exactly the processing slots |
| `UpdateSlots.Server.AbortAllSlots` | llamacpp-upstream/tools/server/server-context.cpp:2754-2761 | an exception releases exactly the processing slots, with their tokens |
| `UpdateSlots.Server.ThrowOut` | llamacpp-upstream/tools/server/server-context.cpp:3733-3754 | a call that throws has stored its sub-batch exactly when llama_decode succeeded, and then every processing slot is released |
| `UpdateSlots.Server.DecodeView` | llamacpp-upstream/tools/server/server-context.cpp:2876-2900 | decode and post_decode of one sub-batch, for every slot |
| `UpdateSlots.Server.DecodeBatch` | llamacpp-upstream/tools/server/server-context.cpp:2867-2906 | runs the retry loop as the transition system says, for every sequence of results 0, 1 or negative and every call that throws: finished when the whole batch is decoded, aborted exactly at a call that is fatal, thrown exactly at one that throws |
| `UpdateSlots.Server.ShiftContexts` | llamacpp-upstream/tools/server/server-context.cpp:2912-2972 | only full generating slots are shifted; the check for a disabled context shift is dead |
| `UpdateSlots.Server.BatchGenerating` | llamacpp-upstream/tools/server/server-context.cpp:2984-3041 | the generating slots that fit the first one wait for their outputs, all others are as before; the assertion on the batch fails exactly when their sampled tokens and drafts are more than it holds |
| `UpdateSlots.Server.GeneratingEnter` | llamacpp-upstream/tools/server/server-context.cpp:2984-2996 | the first generating slot, and exactly the generating slots of its kind, wait afterwards with the sampled token and their draft at the end of their tokens; no other slot changes |
| `UpdateSlots.Server.DraftCases` | llamacpp-upstream/tools/server/server-context.cpp:483-502 | the draft a slot enters with: one to replay, else what the drafter proposes when asked for the tokens that leave two free positions and respect n_remaining, else none |
| `UpdateSlots.Server.EnterBatch` | llamacpp-upstream/tools/server/server-context.cpp:505-542 | one slot takes its draft and enters the batch, in order, exactly when the sampled token and the draft fit |
| `UpdateSlots.Server.FeedSlot` | llamacpp-upstream/tools/server/server-context.cpp:3134-3600 | one prompt is rejected, does not fit, or is reused, truncated and fed; the slot stays in order |
| `UpdateSlots.Server.FedCases` | llamacpp-upstream/tools/server/server-context.cpp:3142-3600 | feeding in terms of prompt and batch: a request that cannot be served is released; otherwise one token per entry is added, and only a full batch, a border, or a prompt that must go in whole stops it before its end |
| `UpdateSlots.Server.BatchPrompts` | llamacpp-upstream/tools/server/server-context.cpp:3109-3643 | pending prompts of the batch's kind are fed unless the batch is full; the kind is that of the generating slots, or of the first slot that gets into the batch |
| `UpdateSlots.Server.FirstPromptLeads` | llamacpp-upstream/tools/server/server-context.cpp:3111-3130 | when no slot generates, the batch takes the kind of the first slot whose prompt can be served and fits a batch |
| `UpdateSlots.Server.BuildBatch` | llamacpp-upstream/tools/server/server-context.cpp:2909-3643 | the batch of a pass: shifts, entered slots, fed prompts, every slot in order with it; it fails exactly when the sampled tokens and drafts do not fit |
| `UpdateSlots.Server.GeneratingBatch` | llamacpp-upstream/tools/server/server-context.cpp:2977-3140 | the batch of a pass with a generating slot: who enters it, that all its entries belong to slots of one kind, and that pending prompts of that kind join under continuous batching only, and then are rejected, done, or cut at a border unless the batch is full or they cannot be split |
| `UpdateSlots.Server.PromptBatch` | llamacpp-upstream/tools/server/server-context.cpp:3105-3140 | and without one: pending prompts of the leading kind join in any case, with the same outcome |
| `UpdateSlots.Server.DecodeAndEnd` | llamacpp-upstream/tools/server/server-context.cpp:2867-2906 | what each end of the loop leaves: all slots in order, or all idle and in order except exactly those of DecodeLoop.AbortExactly or DecodeLoop.ThrowExactly |
| `UpdateSlots.Server.Pass` | llamacpp-upstream/tools/server/server-context.cpp:2841-2906 | a pass crashes exactly when sampled tokens and drafts do not fit the batch, is ended exactly at a fatal decode or an exception, and otherwise leaves every slot in order, each by shift, entry, feeding and its sub-batches; when it is ended all slots are idle, and in order except exactly those that lose cells |
| `UpdateSlots.Server.Launch` | llamacpp-upstream/tools/server/server-context.cpp:1707-1830 | an idle slot takes a task and keeps what it has cached |
| `UpdateSlots.Server.ForgetTokens` | llamacpp-upstream/tools/server/server-context.cpp:1708-1716 | a change of adapters forgets the tokens only, and the slot stays in order |
| `UpdateSlots.Server.Cancel` | llamacpp-upstream/tools/server/server-context.cpp:2454-2462 | a cancelled request releases its slot at any point |
| `UpdateSlots.Server.Erase` | llamacpp-upstream/tools/server/server-context.cpp:2660-2678 | erasing empties cells and tokens together |
| `UpdateSlots.Server.Save` | llamacpp-upstream/tools/server/server-context.cpp:2545-2592 | what is saved of an idle slot holds its tokens in its cells |
| `UpdateSlots.Server.Restore` | llamacpp-upstream/tools/server/server-context.cpp:2595-2658 | a file that cannot be read, is invalid or too long empties the slot; otherwise the slot takes it over, and is in order exactly when the cells of the file hold its tokens |
| `SlotRuns.OneGenerating` | llamacpp-upstream/tools/server/server-context.cpp:2909-3643 | the pass that processes a new prompt on a fresh server with one slot ends with that slot generating |
| `SlotRuns.DraftDoesNotFit` | llamacpp-upstream/tools/server/server-context.cpp:532-542 | a run from a fresh server: a batch of one entry, a draft of one token, and the assertion on the batch fails |
| `SlotRuns.CutDraftLosesCells` | llamacpp-upstream/tools/server/server-context.cpp:3784-3800 | a run from a fresh server: decode results 1, 0, -1 cut a draft of two in a batch of four, and leave an idle slot that claims a token no cell holds |
| `SlotRuns.ThrowLosesCells` | llamacpp-upstream/tools/server/server-context.cpp:3741-3754 | a run from a fresh server: decode results 1, 0 and a drafter that fails on the second sub-batch leave an idle slot that claims a token no cell holds, although no draft was cut |
| `StopWords.FindIsFirst` | llamacpp-upstream/tools/server/server-context.cpp:579 | the search finds the first occurrence from the given position |
| `StopWords.FindStoppingStrings` | llamacpp-upstream/tools/server/server-context.cpp:567-596 | full search: the smallest position any stop word was found at; partial search: some stop word could begin at the end |
| `StopWords.PartialStop` | llamacpp-upstream/tools/server/server-context.cpp:582 | the contract of string_find_partial_stop: a non-empty beginning of the word, the whole word included, ends the text |
| `StopWords.TokenStream.ProcessToken` | llamacpp-upstream/tools/server/server-context.cpp:1833-1957 | one token is processed as specified, limits included, and what was delivered grows by exactly the text sent |
| `StopWords.TokenStream.FilterText` | llamacpp-upstream/tools/server/server-context.cpp:1848-1873 | the text sent continues exactly where the last one ended |
| `StopWords.NewOccurrence` | llamacpp-upstream/tools/server/server-context.cpp:1849-1857 | a stop word that appears with a new piece lies in the unsent text: nothing straddles a flush |
| `StopWords.PartialSplit` | llamacpp-upstream/tools/server/server-context.cpp:1860-1863 | an unsent text that cannot end in the beginning of a stop word can be sent |
| `StopWords.ProcessKeepsSafe` | llamacpp-upstream/tools/server/server-context.cpp:1833-1883 | delivered text never contains a stop word, for every token and every set of non-empty stop words |
| `StopWords.StopCutsAtFirst` | llamacpp-upstream/tools/server/server-context.cpp:1854-1859 | the text is cut at the first occurrence of any stop word |
| `StopWords.StopEnds` | llamacpp-upstream/tools/server/server-context.cpp:1848-1859 | a stop word in the unsent text that reaches the last byte the slot had, or the new piece, ends generation, and the text with it, before the first such word |
| `StopWords.NoStopGoesOn` | llamacpp-upstream/tools/server/server-context.cpp:1848-1873 | with no such word generation goes on unless the token or a limit ends it, and the unsent text goes out unless it ends in the beginning of a stop word; at an end of generation it does in any case |
| `StopWords.StepEnds` | llamacpp-upstream/tools/server/server-context.cpp:1854-1873 | a step that ends the run leaves delivered text and generated text equal |
| `StopWords.RunIsFaithful` | llamacpp-upstream/tools/server/server-context.cpp:1833-1957 | over every run of whole-character pieces: delivered text is free of stop words and a prefix of the raw text; a run that met no limit and ended by a stop word is cut at the first one, and one that met no limit and ended delivered everything |
| `StopWords.LimitLosesHeldText` | llamacpp-upstream/tools/server/server-context.cpp:1860-1898 | when a limit ends a run, delivered and generated text differ exactly when text was held back for a stop word that may have begun |
| `StopWords.PassedIsUnsearched` | llamacpp-upstream/tools/server/server-context.cpp:576-579 | an occurrence in the unsent text is left out of the search exactly when it ends before the last byte the slot had |
| `StopWords.SendsExactly` | llamacpp-upstream/tools/server/server-context.cpp:1848-1873 | a step sends what lies before a place exactly when the text is complete and the stop word found begins there or later, or no beginning of one holds the text back |
| `StopWords.StepLeaksExactly` | llamacpp-upstream/tools/server/server-context.cpp:1844-1873 | one token of any bytes keeps stop words from the client exactly when the text it sends passes over none that lies in the unsent text before the start of the search |
| `StopWords.RunLeaksExactly` | llamacpp-upstream/tools/server/server-context.cpp:1833-1957 | over every run with any pieces, whole or cut: delivered text is free of stop words exactly when no step passes over one |
| `StopWords.StartIsSafe` | llamacpp-upstream/tools/server/server-context.cpp:369-382 | the run starts safe |
| `StopWords.CutPieceLeaksStopWord` | llamacpp-upstream/tools/server/server-context.cpp:1844-1848 | a concrete run: a stop word followed by a cut character is skipped by the check and delivered later |
| `RequestText.ClientText` | llamacpp-upstream/tools/server/server-context.cpp:1833-1957 | for whole-character pieces the client's text is made of the text one-token-at-a-time decoding generates, cut at its first stop word |
| `Utf8.IsValidUtf8` | llamacpp-upstream/tools/server/server-common.cpp:1671-1702 | accepts exactly the strings of whole characters |
| `Utf8.LeadBytes` | llamacpp-upstream/tools/server/server-common.cpp:1671-1702 | the mask tests, as ranges of byte values |
| `Utf8.ValidateUtf8` | llamacpp-upstream/tools/server/server-common.cpp:901-926 | the scan from the end computes the complete length |
| `Utf8.ValidateFindsBoundary` | llamacpp-upstream/tools/server/server-common.cpp:901-926 | on every prefix of an accepted string the result is the largest character boundary in it, and that part is accepted again |
| `Utf8.LastBoundaryIsLargest` | llamacpp-upstream/tools/server/server-common.cpp:901-926 | no boundary lies between the last one and the cut |
| `Utf8.PrefixValid` | llamacpp-upstream/tools/server/server-common.cpp:1671-1702 | cut at a boundary an accepted string stays accepted |
| `Utf8.ValidConcat` | llamacpp-upstream/tools/server/server-common.cpp:1671-1702 | accepted strings concatenate |
| `Utf8.ValidIsComplete` | llamacpp-upstream/tools/server/server-common.cpp:901-926 | an accepted string is complete |
| `MediaTokens.NullStartsChunk` | llamacpp-upstream/tools/server/server-common.cpp:480-486 | at a unit boundary the chunk lookup succeeds exactly on NULL entries |
| `MediaTokens.UnitEnds` | llamacpp-upstream/tools/server/server-common.h:138-158 | a unit ends at a boundary, has none inside, and advances the position |
| `MediaTokens.PosAfterUnit` | llamacpp-upstream/tools/server/server-common.h:138-158 | a chunk spends all its positions at its first entry |
| `MediaTokens.PosGrows` | llamacpp-upstream/tools/server/server-common.h:138-158 | positions grow strictly from boundary to boundary |
| `MediaTokens.BoundCountsItself` | llamacpp-upstream/tools/server/server-common.cpp:430-458 | the entries before a boundary are exactly those positioned before it |
| `MediaTokens.CountIsUnique` | llamacpp-upstream/tools/server/server-common.cpp:430-458 | the number of entries before a position is well defined |
| `ServerTokens.ClosedForm` | llamacpp-upstream/tools/server/server-common.cpp:396-405 | the closed form of pos_next equals the walk at every boundary |
| `ServerTokens.Tokens.PosNext` | llamacpp-upstream/tools/server/server-common.cpp:387-428 | both forms of pos_next give the position after n entries |
| `ServerTokens.Tokens.SizeUpToPos` | llamacpp-upstream/tools/server/server-common.cpp:430-458 | with media it counts exactly the entries before the position if and only if that is at least 1 (or the list is empty); without media, if it is not negative |
| `ServerTokens.PositionRoundTrip` | llamacpp-upstream/tools/server/server-common.cpp:387-458 | the size up to pos_next(n) is n at every boundary n of at least 1 |
| `ServerTokens.Tokens.CommonPrefix` | llamacpp-upstream/tools/server/server-common.cpp:695-743 | a boundary of both lists, the longest with equal entries and media equal by id and length; at its end the entries differ, or the chunks that start there do; no lookup can fail |
| `ServerTokens.Tokens.KeepFirst` | llamacpp-upstream/tools/server/server-common.cpp:651-682 | truncation of list and map, refused exactly between two NULL entries whose first starts no chunk |
| `ServerTokens.TruncatedTiled` | llamacpp-upstream/tools/server/server-common.cpp:671-681 | the truncated list is tiled exactly at a boundary, and its positions stay what they were |
| `ServerTokens.KeepFirstExact` | llamacpp-upstream/tools/server/server-common.cpp:651-682 | keep_first succeeds with a tiled list exactly at cuts not between two NULL entries, or right after a one-token chunk |
| `ServerTokens.KeepFirstMisjudges` | llamacpp-upstream/tools/server/server-common.cpp:657-669 | exactly the cuts it gets wrong: one entry into a longer chunk it does not refuse, and after a longer chunk, before another one, it does |
| `ServerTokens.KeepFirstExample` | llamacpp-upstream/tools/server/server-common.cpp:658-662 | the example of the comment: 6 is not refused and 8 is |
| `ServerTokens.Tokens.PushToken` | llamacpp-upstream/tools/server/server-common.cpp:496-501 | a text token is appended, NULL is refused |
| `ServerTokens.Tokens.PushChunk` | llamacpp-upstream/tools/server/server-common.cpp:503-523 | a chunk is appended with its NULL entries, and the list stays tiled |
| `ServerTokens.Tokens.Validate` | llamacpp-upstream/tools/server/server-common.cpp:753-787 | true exactly when text ids are in range and the NULL entries are tiled by the map |
| `TokenState.ReadWords` | llamacpp-upstream/tools/server/server-common.cpp:338-349 | written words are read back |
| `TokenState.WriteWords` | llamacpp-upstream/tools/server/server-common.cpp:295-311 | words that were read are written back to the same bytes |
| `TokenState.VectorReads` | llamacpp-upstream/tools/server/server-common.cpp:350-364 | a vector is read exactly where one was written |
| `TokenState.MediaReads` | llamacpp-upstream/tools/server/server-common.cpp:612-624 | written chunks are read back, whatever follows |
| `TokenState.ParseExact` | llamacpp-upstream/tools/server/server-common.cpp:590-633 | deserialize accepts exactly the saved forms, with up to three bytes of padding of any value, and returns what they were saved from |
| `TokenState.RoundTrip` | llamacpp-upstream/tools/server/server-common.cpp:568-633 | deserialize inverts serialize for every token list and media map, given chunk save and load are inverse |
| `TokenState.SavedBytes` | llamacpp-upstream/tools/server/server-common.cpp:568-588 | the saved form byte by byte, for two tokens and one chunk |
| `TokenState.LegacyExact` | llamacpp-upstream/tools/server/server-common.cpp:593-596 | a list reads back as it is, without media, exactly when it does not start with the marker |
| `TokenState.Reader.ReadWord` | llamacpp-upstream/tools/server/server-common.cpp:338-349 | reads four bytes and advances, or fails; the cursor never passes the end |
| `TokenState.Reader.ReadWords` | llamacpp-upstream/tools/server/server-common.cpp:350-364 | reads a counted vector, or fails before reading past the end |
| `TokenState.Reader.ReadBytes` | llamacpp-upstream/tools/server/server-common.cpp:350-364 | the same for the bytes of a chunk |
| `TokenState.ReadChunks` | llamacpp-upstream/tools/server/server-common.cpp:612-624 | the chunk loop fills the map in key order |
| `TokenState.Deserialize` | llamacpp-upstream/tools/server/server-common.cpp:590-633 | the cursor loop computes the specified result |
| `TokenState.KeysInOrder` | llamacpp-upstream/tools/server/server-common.cpp:576-580 | the keys in map order, failing exactly when one does not fit 32 bits |
| `TokenState.WriteChunks` | llamacpp-upstream/tools/server/server-common.cpp:583-585 | writes every chunk, failing exactly when one is empty or too large |
| `TokenState.Serialize` | llamacpp-upstream/tools/server/server-common.cpp:568-588 | writes the saved form in key order, padded to whole tokens; fails exactly when something does not fit |
| `PromptCache.CommonDecidesPrefix` | llamacpp-upstream/tools/server/server-task.cpp:1714-1738 | the two comparisons of common prefix lengths decide containment |
| `PromptCache.CommonIs` | llamacpp-upstream/tools/server/server-common.cpp:698-709 | the longest beginning that both lists have |
| `PromptCache.SizeCounts` | llamacpp-upstream/tools/server/server-task.h:592-609 | an entry weighs its two state buffers and each of its checkpoints |
| `PromptCache.TokensAppend` | llamacpp-upstream/tools/server/server-task.cpp:1701-1709 | each entry counts with all its tokens |
| `PromptCache.SurvivorsPrefixFree` | llamacpp-upstream/tools/server/server-task.cpp:1735-1747 | what is left is prefix-free |
| `PromptCache.PrefixFreeMeans` | llamacpp-upstream/tools/server/server-task.cpp:1711-1747 | no cached prompt is a beginning of another one |
| `PromptCache.SurvivorsAll` | llamacpp-upstream/tools/server/server-task.cpp:1735-1747 | only entries contained in the new prompt are removed |
| `PromptCache.FewestIsUnique` | llamacpp-upstream/tools/server/server-task.cpp:1749-1757 | dropping the fewest oldest entries is well defined |
| `PromptCache.FindBest` | llamacpp-upstream/tools/server/server-task.cpp:1793-1825 | Pareto-sound in both directions: an entry is found exactly when one shares a quarter of its tokens, more tokens than the slot's own prompt, and a larger part of itself; none that shares a quarter beats it on both |
| `PromptCache.ChoiceInCounts` | llamacpp-upstream/tools/server/server-task.cpp:1793-1825 | the choice in numbers of tokens: an entry is found exactly when one shares at least a quarter of its tokens with the new prompt, more tokens than the slot's prompt, and a larger part of itself unless that is empty; and no other with a quarter shares both more and a larger part than the one found |
| `PromptCache.LookupCases` | llamacpp-upstream/tools/server/server-task.cpp:1826-1868 | the four ends of a lookup: which restore decides, and what stays of the entries in each |
| `PromptCache.Cache.constructor` | llamacpp-upstream/tools/server/server-task.h:613-616 | an empty cache with the limit in bytes, a negative limit meaning none |
| `PromptCache.Cache.TotalSize` | llamacpp-upstream/tools/server/server-task.cpp:1691-1699 | the sum of the entry sizes |
| `PromptCache.Cache.DropForBytes` | llamacpp-upstream/tools/server/server-task.cpp:1749-1757 | drops the fewest oldest entries that make room |
| `PromptCache.Cache.DropContained` | llamacpp-upstream/tools/server/server-task.cpp:1735-1747 | erases exactly the entries contained in the new prompt, in place |
| `PromptCache.Cache.Alloc` | llamacpp-upstream/tools/server/server-task.cpp:1711-1791 | keeps the cache prefix-free and within its limit, also after the out-of-memory cut; skips exactly contained or oversized prompts; evicts the fewest oldest entries |
| `PromptCache.RoomCases` | llamacpp-upstream/tools/server/server-task.cpp:1735-1757 | without a limit only the entries contained in the new prompt go; with one, also the oldest others, as many as must for the new one to fit |
| `PromptCache.ShrunkCases` | llamacpp-upstream/tools/server/server-task.cpp:1767-1777 | after a failed allocation the limit is two fifths of what is cached, rounded down, at least one byte |
| `PromptCache.Cache.Update` | llamacpp-upstream/tools/server/server-task.cpp:1870-1892 | drops the fewest oldest entries for the byte limit, then for the token limit, and restores both invariants |
| `PromptCache.BytesCases` | llamacpp-upstream/tools/server/server-task.cpp:1870-1877 | the byte limit leaves the newest entries, as many as weigh no more than it |
| `PromptCache.TokensCases` | llamacpp-upstream/tools/server/server-task.cpp:1885-1892 | the token limit leaves the newest of those, as many as have no more tokens than it |
| `PromptCache.TokenLimitCounts` | llamacpp-upstream/tools/server/server-task.cpp:1879-1883 | the token limit in whole bytes and tokens: what the byte limit leaves room for at the average weight of a token, one byte at least, and never below the configured limit |
| `PromptCache.UpdatedIsUnique` | llamacpp-upstream/tools/server/server-task.cpp:1870-1892 | what an update leaves is determined by the entries and the limits |
| `PromptCache.Cache.Load` | llamacpp-upstream/tools/server/server-task.cpp:1793-1868 | a Pareto-sound choice; which restore fails is decided by the chosen entry; the taken entry is the only one removed, and both invariants are kept |
| `PromptCache.AfterWhole` | llamacpp-upstream/tools/server/server-task.cpp:1829-1862 | a lookup leaves all entries restorable exactly when no entry beats the slot's prompt, or the main state is not restored, or the draft state is, or there is no draft context |
| `PromptCache.Save` | llamacpp-upstream/tools/server/server-context.cpp:299-323 | the slot's prompt becomes the newest entry with its state |
| `PromptCache.Swap` | llamacpp-upstream/tools/server/server-context.cpp:1640-1653 | after save, load and update, on a cache that may hold entries emptied before, the slot's tokens and contexts agree exactly when it did not take an emptied entry; a taken prompt shares more with the request |
| `PromptCache.GuttedEntryMisleads` | llamacpp-upstream/tools/server/server-task.cpp:1829-1862 | a concrete run: an entry whose draft restore failed wins the next lookup and restores nothing |
| `Scheduler.OneMoreStopping` | llamacpp-upstream/tools/server/server-models.cpp:378-385 | each eviction raises the recomputed number of free slots by one and takes one model from the eligible ones |
| `Scheduler.SecondTick` | llamacpp-upstream/tools/server/server-models.cpp:350-387 | a second tick evicts nothing |
| `Scheduler.EvictsIsUnique` | llamacpp-upstream/tools/server/server-models.cpp:350-387 | what a tick evicts is determined by the state |
| `Scheduler.EligibleExactly` | llamacpp-upstream/tools/server/server-models.cpp:268-287 | a model can be given up exactly if it has no open request, is loaded or sleeping, is not stopping, and nobody queues for it |
| `Scheduler.EvictsIdle` | llamacpp-upstream/tools/server/server-models.cpp:268-287 | a tick evicts only such models, and none that was used after one that stays, names deciding ties |
| `Scheduler.EvictsEnough` | llamacpp-upstream/tools/server/server-models.cpp:350-387 | as many as there are queued models nobody loads beyond the free slots, those being freed and those claimed; if fewer, no such model is left |
| `Scheduler.JoinedCases` | llamacpp-upstream/tools/server/server-models.cpp:291-301 | a request joins the first entry of its model, or appends one |
| `Scheduler.LeftCases` | llamacpp-upstream/tools/server/server-models.cpp:303-314 | a request leaves that entry, and the last one takes it away |
| `Scheduler.JoinedOrder` | llamacpp-upstream/tools/server/server-models.cpp:291-301 | joining keeps names distinct and lets nobody overtake |
| `Scheduler.LeftOrder` | llamacpp-upstream/tools/server/server-models.cpp:303-314 | leaving keeps names distinct and lets nobody overtake |
| `RouterInvariants.UnloadedIsSilent` | llamacpp-upstream/tools/server/server-models.cpp:1215-1234 | no watched child belongs to an unloaded model |
| `RouterInvariants.ClaimedInTurn` | llamacpp-upstream/tools/server/server-models.cpp:321-333 | only the front entry can be loading, and whoever holds a claim is at the front |
| `RouterInvariants.SpawnKeeps` | llamacpp-upstream/tools/server/server-models.cpp:1197-1203 | a spawned child adds one running model |
| `RouterInvariants.ReportKeeps` | llamacpp-upstream/tools/server/server-models.cpp:1289-1303 | a child's report changes no count |
| `RouterInvariants.ExitKeeps` | llamacpp-upstream/tools/server/server-models.cpp:1228-1233 | an exit takes exactly its model from the running ones |
| `RouterInvariants.JoinKeeps` | llamacpp-upstream/tools/server/server-models.cpp:291-301 | joining keeps waiters counted and claims in front |
| `RouterInvariants.LeaveKeeps` | llamacpp-upstream/tools/server/server-models.cpp:303-314 | leaving keeps waiters counted and another caller's claim in front |
| `RouterInvariants.ClaimKeeps` | llamacpp-upstream/tools/server/server-models.cpp:321-333 | a claim makes the claimer the only one |
| `RouterSteps.StepKeepsOk` | llamacpp-upstream/tools/server/server-models.cpp:1074-1588 | every step, in any interleaving, keeps the limit on running models, running models and watched children in correspondence, waiters counted with one claim at the front, and no count above the open requests |
| `RouterSteps.OkMeans` | llamacpp-upstream/tools/server/server-models.cpp:1074-1588 | what is kept, in plain numbers: the limit on models that are up; one watched child for each of them and no other; queue entries that count their waiters, at least one, and only the first loading; no count above the open requests |
| `RouterSteps.LoadCases` | llamacpp-upstream/tools/server/server-models.cpp:1117-1160 | load spawns exactly if the model is down, there is room, and port and process are had; it throws exactly if the model is down and one of them is missing |
| `RouterSteps.SpawnedState` | llamacpp-upstream/tools/server/server-models.cpp:1160-1203 | a spawned model is loading, used now, without requests, watched, and keeps its exit code |
| `RouterSteps.VerdictCases` | llamacpp-upstream/tools/server/server-models.cpp:1474-1533 | how a turn of the waiting loop ends, by the model's status, what the request has seen, and whether it is to stop |
| `RouterSteps.ProxyCases` | llamacpp-upstream/tools/server/server-models.cpp:1546-1552 | a proxied request is counted on its model and sets lastUsed exactly if it is to |
| `RouterSteps.ProxyEndCases` | llamacpp-upstream/tools/server/server-models.cpp:1579-1588 | a request that ends is uncounted, and the tick runs exactly when it was its model's last |
| `RouterSteps.ChildCases` | llamacpp-upstream/tools/server/server-models.cpp:1593-1655 | what a child's report and its exit write, and that both tick |
| `RouterSteps.ArriveCases` | llamacpp-upstream/tools/server/server-models.cpp:1445-1460 | a request for a model that is down loads it at once exactly if a slot is free and nobody queues, else it gets in line |
| `RouterSteps.ClaimExactly` | llamacpp-upstream/tools/server/server-models.cpp:321-333 | whose turn it is: the front of the queue, unclaimed, with room |
| `RouterLapses.MarksKeptExactly` | llamacpp-upstream/tools/server/server-models.cpp:1206-1234 | stop marks stay on running models with live children exactly as long as no step stops a model whose child is exiting |
| `RouterLapses.ExitsExactly` | llamacpp-upstream/tools/server/server-models.cpp:1214-1234 | between the two locked regions: the child watched under the name of the model is exiting |
| `RouterLapses.UnloadMarks` | llamacpp-upstream/tools/server/server-models.cpp:1236-1261 | for an unload: exactly when the model is not up with an exiting child |
| `RouterLapses.EvictionMarks` | llamacpp-upstream/tools/server/server-models.cpp:350-387 | for a step that ends in a tick: exactly when none of the models it evicts has an exiting child |
| `RouterLapses.QuietMarks` | llamacpp-upstream/tools/server/server-models.cpp:1117-1203 | loads, removals, first exit regions and beginning requests never break a mark |
| `RouterLapses.MarksOverRuns` | llamacpp-upstream/tools/server/server-models.cpp:1206-1234 | the same over every run |
| `RouterLapses.CountsKeptExactly` | llamacpp-upstream/tools/server/server-models.cpp:1546-1588 | a model counts exactly its open requests as long as no step starts the model, or its entry, while requests are open on it, and no longer |
| `RouterLapses.CountsOverRuns` | llamacpp-upstream/tools/server/server-models.cpp:1546-1588 | the same over every run |
| `RouterLapses.StuckExactly` | llamacpp-upstream/tools/server/server-models.cpp:321-346 | a waiter gets stuck behind a loading mark that nobody holds exactly by three steps: the second exit region of the front model while a waiter remains, a request that joins while it is down, or the settling of a claim whose model went down; and it is freed exactly when the model is loaded or the last such waiter leaves |
| `RouterLapses.StuckWaits` | llamacpp-upstream/tools/server/server-models.cpp:1474-1533 | while it is stuck no request of any model gets its turn, and the waiter keeps waiting |
| `RouterLapses.StuckOverRuns` | llamacpp-upstream/tools/server/server-models.cpp:321-346 | over every run nobody is stuck exactly when no such step happens |
| `RouterOrder.NobodyOvertakes` | llamacpp-upstream/tools/server/server-models.cpp:291-346 | no step lets a model overtake another in the queue |
| `RouterOrder.ServedInOrder` | llamacpp-upstream/tools/server/server-models.cpp:321-333 | over every run a model gets its turn only after every model that once stood ahead of it has left the queue |
| `Router.Models.constructor` | llamacpp-upstream/tools/server/server-models.cpp:676-680 | the router starts valid |
| `Router.Models.HasCapacity` | llamacpp-upstream/tools/server/server-models.cpp:261-265 | capacity means fewer running models than models_max |
| `Router.Models.PickVictim` | llamacpp-upstream/tools/server/server-models.cpp:268-287 | the least recently used model that is idle, up, not stopping and not queued for, ties by name; none exactly if there is none |
| `Router.Models.Tick` | llamacpp-upstream/tools/server/server-models.cpp:350-387 | evicts exactly min(deficit, eligible) models, oldest first, each one up, without open requests and not queued for; its running count equals the recomputed one |
| `Router.Models.RequestStop` | llamacpp-upstream/tools/server/server-models.cpp:1206-1213 | marks a known model as stopping |
| `Router.Models.PickLru` | llamacpp-upstream/tools/server/server-models.cpp:1074-1087 | before a load: the least recently used eligible model exactly when there is no room and there is one |
| `Router.Models.Load` | llamacpp-upstream/tools/server/server-models.cpp:1117-1203 | the locked part of load spawns exactly if the model is unloaded, below the limit, and port and process are had; running models never exceed models_max |
| `Router.Models.Unload` | llamacpp-upstream/tools/server/server-models.cpp:1236-1261 | asks a running model to stop |
| `Router.Models.Remove` | llamacpp-upstream/tools/server/server-models.cpp:1387-1410 | erasing an unloaded entry keeps everything valid |
| `Router.Models.Report` | llamacpp-upstream/tools/server/server-models.cpp:1593-1655 | a state message of a watched child sets the status and ticks |
| `Router.Models.ExitFirst` | llamacpp-upstream/tools/server/server-models.cpp:1216-1223 | the first locked region forgets the stop mark; the branch for a newer instance is dead without reloads |
| `Router.Models.ExitSecond` | llamacpp-upstream/tools/server/server-models.cpp:1228-1233 | the second one makes the model unloaded and ticks |
| `Router.Models.ProxyBegin` | llamacpp-upstream/tools/server/server-models.cpp:1546-1552 | a request is counted and may refresh last_used |
| `Router.Models.ProxyEnd` | llamacpp-upstream/tools/server/server-models.cpp:1579-1588 | a request that ends is uncounted, and the last one ticks |
| `Router.Models.Join` | llamacpp-upstream/tools/server/server-models.cpp:291-301 | finds the entry or appends one |
| `Router.Models.Leave` | llamacpp-upstream/tools/server/server-models.cpp:303-314 | the last waiter removes the entry |
| `Router.Models.TryClaim` | llamacpp-upstream/tools/server/server-models.cpp:321-333 | succeeds exactly for the front, unclaimed, with capacity |
| `Router.Models.ClaimDone` | llamacpp-upstream/tools/server/server-models.cpp:335-346 | a failed load puts the entry back in line |
| `Router.Models.Arrive` | llamacpp-upstream/tools/server/server-models.cpp:1445-1460 | loads at once exactly with capacity and an empty queue, otherwise queues |
| `Router.Models.LoadDirect` | llamacpp-upstream/tools/server/server-models.cpp:1449-1452 | a direct load, and the end of the request if it throws |
| `Router.Models.LoadClaimed` | llamacpp-upstream/tools/server/server-models.cpp:1509-1519 | the load of the claimed entry outside the lock |
| `Router.Models.FinishClaim` | llamacpp-upstream/tools/server/server-models.cpp:1520-1523 | settles the claim; the claimed entry was still the front one |
| `Router.Models.Look` | llamacpp-upstream/tools/server/server-models.cpp:1474-1533 | one turn of the waiting loop: which way it ends, and what it leaves of queue and callers |
| `RouterRuns.StaleMark` | llamacpp-upstream/tools/server/server-models.cpp:1215-1234 | a reachable state: a stop between the two regions of an exit leaves a mark that makes the reloaded idle model unevictable, and a queued request evicts nothing |
| `RouterRuns.LostCount` | llamacpp-upstream/tools/server/server-models.cpp:1142-1148 | a reachable state: a request open across a crash is uncounted for the new instance, which is then evictable while another request is open |
| `RouterRuns.StuckClaim` | llamacpp-upstream/tools/server/server-models.cpp:335-346 | a reachable state: the front entry is marked as loading though nobody loads, and no request can claim the free slot |
| `TaskOrder.RefinesPlain` | llamacpp-upstream/tools/server/server-queue.cpp:28-160 | with its yields left out, an unobstructed event acts on the slot-changing tasks that wait, the one being processed and those put aside as the same queue does when nobody yields |
| `TaskOrder.RefinesExactly` | llamacpp-upstream/tools/server/server-queue.cpp:28-160 | and every event does so exactly when it is unobstructed: nothing declined or offered to the worker is ahead of a task that comes to the front, a cancel included, and a cancel does not aim at what the worker is being offered |
| `TaskOrder.FrontPostExact` | llamacpp-upstream/tools/server/server-queue.cpp:39-43 | a slot-changing task posted to the front, a cancel included, goes first exactly when nothing declined or offered to the worker is left ahead after its clean-up, and that did not miss the worker's task |
| `TaskOrder.ChangingExactly` | llamacpp-upstream/tools/server/server-context.cpp:2376-2377 | every task but a request for metrics or for the state of the slots counts as one that changes slots |
| `TaskOrder.NeverBlocked` | llamacpp-upstream/tools/server/server-queue.cpp:138-276 | a yield never gets stuck in the queue: work can return, or the worker answers or rests, or the yield ends |
| `TaskOrder.NothingObstructedWithoutYields` | llamacpp-upstream/tools/server/server-queue.cpp:138-150 | in a run without yields no event is ever obstructed, so it is a run of that queue |
| `TaskOrder.TakenInOrder` | llamacpp-upstream/tools/server/server-queue.cpp:138-150 | a slot-changing task that the main thread takes is the first of that queue |
| `TaskOrder.YieldingIsTransparent` | llamacpp-upstream/tools/server/server-queue.cpp:138-276 | over every interleaving without obstruction the slot-changing tasks that wait, the one being processed and those put aside are those of a queue that never yields |
| `TaskOrder.RunIsPlainExactly` | llamacpp-upstream/tools/server/server-queue.cpp:138-276 | a run with new posts is a run of a queue that never yields, all along, exactly when none of its events is obstructed |
| `TaskOrder.CancelLandsBehind` | llamacpp-upstream/tools/server/server-queue.cpp:604-617 | a run: a task is declined during a yield, and the cancel the server posts to the front then stands behind it |
| `TaskOrder.RunConserved` | llamacpp-upstream/tools/server/server-queue.cpp:28-276 | over every run no task is lost or duplicated: what is there and what left is what was there and what came |
| `TaskOrder.CancelRemoves` | llamacpp-upstream/tools/server/server-queue.cpp:368-383 | a cancel leaves no task with its id in any queue, and none at all exactly when none is being offered |
| `TaskOrder.NeverOffered` | llamacpp-upstream/tools/server/server-queue.cpp:368-383 | a task that is gone is never offered again |
| `TaskOrder.CancelMisses` | llamacpp-upstream/tools/server/server-queue.cpp:76-113 | a concrete run: a task cancelled while it is being offered is deferred and offered again after its cancel was processed |
| `TaskQueue.FrontPostReverses` | llamacpp-upstream/tools/server/server-queue.cpp:50-74 | several tasks posted to the front end up in reverse order |
| `TaskQueue.BackPostAppends` | llamacpp-upstream/tools/server/server-queue.cpp:50-74 | several tasks posted to the back stand there in order |
| `TaskQueue.NumberedAt` | llamacpp-upstream/tools/server/server-queue.cpp:50-74 | the next free ids are given, in order, to exactly the tasks that have none |
| `TaskQueue.Queue.PostTask` | llamacpp-upstream/tools/server/server-queue.cpp:28-48 | posts one task, after a cancel's clean-up of all three queues |
| `TaskQueue.Queue.PostTasks` | llamacpp-upstream/tools/server/server-queue.cpp:50-74 | posts several, giving ids to those without |
| `TaskQueue.Queue.DeferTask` | llamacpp-upstream/tools/server/server-queue.cpp:76-82 | the offered task goes to the end of the deferred ones |
| `TaskQueue.Queue.PopDeferredTask` | llamacpp-upstream/tools/server/server-queue.cpp:90-113 | the first deferred task for the slot, or the first of all, goes to the front |
| `TaskQueue.Queue.TakeTask` | llamacpp-upstream/tools/server/server-queue.cpp:138-150 | the front task is offered |
| `TaskQueue.Queue.Answer` | llamacpp-upstream/tools/server/server-queue.cpp:152-160 | an accepted task is gone, a declined one is set aside in order |
| `TaskQueue.Queue.StartYield` | llamacpp-upstream/tools/server/server-queue.cpp:227-232 | a yield starts; it cannot be nested |
| `TaskQueue.Queue.FinishYield` | llamacpp-upstream/tools/server/server-queue.cpp:244-260 | the declined tasks go back before the live ones, in order |
| `ResponsesCalls.RemovalRestores` | gateway/internal/server/responses_sse_adapter.go:196-239 | without the injected events the stream is what came in |
| `ResponsesCalls.DonePreceded` | gateway/internal/server/responses_sse_adapter.go:196-239 | every finished function call with an id is preceded by a report of its arguments |
| `ResponsesCalls.ReportedOnce` | gateway/internal/server/responses_sse_adapter.go:209-212 | if upstream reports nothing for an item, exactly one report is sent when it finishes |
| `ResponsesCalls.ArgumentsAccumulate` | gateway/internal/server/responses_sse_adapter.go:157-173 | the fragments of an item add up |
| `ResponsesCalls.InjectedArguments` | gateway/internal/server/responses_sse_adapter.go:196-222 | injected arguments are the fragments received, or the item's own if there were none |
| `ResponsesCalls.InjectedReport` | gateway/internal/server/responses_sse_adapter.go:196-239 | the whole report sent before a call that finishes for the first time unreported: item id or else call id; fragments or else own arguments; the item's name; the event's index, else that of the last fragment, else 0; the event's sequence number |
| `ResponsesCalls.NoReportSent` | gateway/internal/server/responses_sse_adapter.go:196-212 | nothing is sent before an event that is no finished call, or has no id, or whose call was reported or finished before |
| `ResponsesSse.UntouchedBlock` | gateway/internal/server/responses_sse_adapter.go:75-101 | a block neither rewritten nor preceded by a report passes byte for byte |
| `ResponsesSse.LineKinds` | gateway/internal/server/responses_sse_adapter.go:82-90 | the separator is found in the adapted line exactly when a report was injected |
| `ResponsesSse.Adapter.ObserveArgumentsDelta` | gateway/internal/server/responses_sse_adapter.go:157-173 | appends the fragment to the item's state |
| `ResponsesSse.Adapter.ObserveArgumentsDone` | gateway/internal/server/responses_sse_adapter.go:175-194 | records upstream's own report |
| `ResponsesSse.Adapter.InjectArgumentsDoneIfNeeded` | gateway/internal/server/responses_sse_adapter.go:196-239 | puts the encoded report, with id, name, arguments, index and sequence number as listed, before the payload exactly when none was sent for the item |
| `ResponsesSse.Adapter.AdaptPayload` | gateway/internal/server/responses_sse_adapter.go:131-155 | rewrites response.completed and updates the state as specified |
| `ResponsesSse.Adapter.AdaptLine` | gateway/internal/server/responses_sse_adapter.go:103-129 | the text sent for one line |
| `ResponsesSse.Adapter.AdaptBlock` | gateway/internal/server/responses_sse_adapter.go:75-101 | the bytes sent for a block are those of the specified blocks |
| `ResponsesStream.CopyResponsesSse` | gateway/internal/server/responses_sse_adapter.go:15-48 | the output is the adapted blocks of the input's lines, the unfinished one at the end included |
| `ResponsesStream.SeenAsSent` | gateway/internal/server/responses_sse_adapter.go:15-48 | complete blocks sent as bytes are split into these blocks again |
| `ResponsesStream.ReportEvent` | gateway/internal/server/responses_sse_adapter.go:224-238 | an injected block is one event, the report and nothing else |
| `ResponsesStream.ItemEvent` | gateway/internal/server/responses_sse_adapter.go:82-90 | the block sent after it is the event that came in exactly when that had the type output_item.done, one data line and no other field |
| `ResponsesStream.OtherFieldLost` | gateway/internal/server/responses_sse_adapter.go:82-90 | any other field of such a block is lost |
| `ResponsesStream.IdIsLost` | gateway/internal/server/responses_sse_adapter.go:82-90 | for instance the id of the event |
| `ResponsesStream.RewrittenEvent` | gateway/internal/server/responses_sse_adapter.go:91-99 | otherwise the event keeps every field, with its first data field rewritten |
| `ResponsesStream.AdaptRefines` | gateway/internal/server/responses_sse_adapter.go:15-48 | the tool events in the sent blocks are those of the specified stream |
| `ResponsesStream.BlocksSeen` | gateway/internal/server/responses_sse_adapter.go:15-48 | split at its line feeds the output is exactly the specified blocks, in which the adapter itself would find the specified tool events |
| `ResponsesStream.FieldCases` | gateway/internal/server/responses_sse_adapter.go:103-112 | how a client reads the field lines the adapter sends (section 9.2.6): the value is what follows the colon, without one leading space; a name alone has an empty value |
| `ResponsesClient.TidyExactly` | gateway/internal/server/responses_sse_adapter.go:20-40 | lines of text that end in LF or CR LF, and no other line, are those for which the client and the adapter see the same line ends |
| `ResponsesRemoval.MarkedAreReports` | gateway/internal/server/responses_sse_adapter.go:224-238 | the blocks marked as injected are report events and nothing else |
| `ResponsesRemoval.RestoredExactly` | gateway/internal/server/responses_sse_adapter.go:75-101 | without the injected blocks the output is, event for event, the input with only response.completed rewritten, exactly when every report was put before an output_item.done event with one data line and no other field |
| `ResponsesClient.DispatchedAsSent` | gateway/internal/server/responses_sse_adapter.go:15-48 | complete events without a lone CR, sent as bytes, are dispatched as these events by a client that follows section 9.2 |
| `ResponsesClient.AlignedExactly` | gateway/internal/server/responses_sse_adapter.go:75-90 | the client's data buffer is the text the adapter decodes exactly in blocks with one data field, written with a space, or no data |
| `ResponsesClient.ClientPrecededExactly` | gateway/internal/server/responses_sse_adapter.go:15-48 | for all streams of complete events without a lone CR: every finished call the client finds comes after a report of its arguments exactly when no block that brings no report shows it a call it was told nothing of |
| `ResponsesClient.ClientPreceded` | gateway/internal/server/responses_sse_adapter.go:196-239 | and so it is when every block is such a block |
| `ResponsesClient.ClientStream` | gateway/internal/server/responses_sse_adapter.go:196-239 | in aligned streams the client finds the specified stream of what it would have found without the adapter |
| `ResponsesClient.ClientReportedOnce` | gateway/internal/server/responses_sse_adapter.go:209-212 | there it finds exactly one report for an item that finishes when upstream sends none, else none |
| `ResponsesClient.ClientArguments` | gateway/internal/server/responses_sse_adapter.go:196-222 | there it finds, before a call first finishes, a report of the fragments received, or of the call's own arguments if there were none |
| `ResponsesClient.ClientRestores` | gateway/internal/server/responses_sse_adapter.go:15-48 | for a client of the bytes, without the injected events the stream is what came in with only response.completed rewritten, exactly when every report was put before an output_item.done event with one data line and no other field |
| `ResponsesClient.NoSpaceUnreported` | gateway/internal/server/responses_sse_adapter.go:103-112 | a data field without a space after its colon is none to the adapter: for every such call the client finds it with no report |
| `ResponsesClient.LoneCrUnreported` | gateway/internal/server/responses_sse_adapter.go:20-40 | a lone CR ends a line to the client only: it finds a call that the adapter does not see |

## Left out

- PromptSteps.FeedTokens: where the borders lie (message starts, a few tokens before the end of the prompt, the distance
  to the last checkpoint) is a parameter; the checkpoints themselves are not modelled.
- PostDecode.SampleAndAccept: is the contract of common_sampler_sample_and_accept_n, whose source is not part of this
  model; with synthetic acceptance rates the text is not lossless and nothing is claimed.
- StopWords.TokenStream.ProcessToken: does not model n_indent line cutting, which ends a run; whether a limit on tokens,
  time or context is reached is a parameter.
- UpdateSlots.Server.Restore: whether a file can be read and its tokens are valid are parameters; the bytes of the token
  list are those of TokenState, the bytes of the cells are not modelled.
- UpdateSlots.Server.DecodeBatch: does not model decode result 2, which the code leaves open, nor exceptions of
  post_decode as a whole or while a batch is built.
- PromptCache.FindBest: compares exact rationals where the code compares floats; NaN is modelled.
- PromptCache.Cache.Update: computes the average entry size over reals where the code uses floats.
- ServerTokens.Tokens.PushChunk: takes a chunk with entries and positions, as mtmd makes them; the code does not check.
- Router.Models.Load: does not model aliases or download children. The wait of unload_lru for the victim's exit and the
  one for a reload hold no lock, so they are points where any other steps may come between PickLru, Unload and Load.
- TaskQueue.Queue.Answer: a callback that throws loses its task like one that accepts it; the exception itself is not
  modelled.
- TaskOrder.YieldingIsTransparent: says nothing about the order of the tasks that only read, nor about liveness.
- ResponsesClient.ClientStream: is about complete events; an unfinished block at the end of the stream is adapted too
  (CopyResponsesSse), and an injection there completes it. A byte order mark at the start of the stream is not modelled.
- 32-bit overflow of positions and sizes in memory (the saved form's 32-bit sizes are modelled).
- Media inside the KV agreement, SWA and recurrent memories, LoRA and aLoRA, and n_cmpl parent and child slots: each
  adds state the shown code does not decide.
- Choosing a slot by similarity or last use: a search over the slots that adds no state; any idle slot can be launched.
- server_tokens::push_back of another list: with media its iterator never advances, so it has no result to state.
- Model list reloads and download-mode children of the router: separate paths with their own statuses.
- Sleeping of the task queue's main loop, and results and readers of server_response: timing and plumbing.
- HTTP, subprocess pipes, files, JSON formats of the APIs, metrics, and the gateway's catalog and presets.
- Liveness and fairness of queued models and deferred tasks: only safety is stated.
