/** Context shift (server-context.cpp, start of pre_decode): when a generating slot has used up its
    context, a block of old tokens is dropped and the rest moves down, in the token list and in the
    KV memory separately. */
module ContextShift {
  import opened KvMemory
  import opened SlotState
  import ChunkReuse

  /** Tokens kept at the front: n_keep, plus one for BOS, but at least 4 positions stay free. */
  function KeepCount(t: Task, nCtx: int, addBos: bool): (k: int)
    ensures nCtx >= 4 ==> 0 <= k <= nCtx - 4
  {
    var keep := (if t.nKeep < 0 then |t.prompt| else t.nKeep) + (if addBos then 1 else 0);
    if nCtx - 4 < keep then nCtx - 4 else keep
  }

  /** std::clamp(n_discard, 0, max(0, n_left - 1)) */
  function DiscardCount(t: Task, nLeft: nat): (d: nat)
    ensures d < nLeft || d == 0
  {
    var d := if t.nDiscard != 0 then t.nDiscard else nLeft / 2;
    var hi := if nLeft - 1 < 0 then 0 else nLeft - 1;
    if d < 0 then 0 else if d > hi then hi else d
  }

  /** The token list without the block of old tokens. */
  function ShiftedTokens(s: Slot, nCtx: int, addBos: bool): (r: seq<Token>)
    requires nCtx >= 4 && |s.tokens| + 1 >= nCtx
    ensures |r| <= |s.tokens|
  {
    var keep := KeepCount(s.task, nCtx, addBos);
    s.tokens[..keep] + s.tokens[keep + DiscardCount(s.task, |s.tokens| - keep)..]
  }

  /** What the shift is for: n_keep tokens (the whole prompt if it is negative, one more with BOS, at most nCtx - 4)
      stay at the front; of the rest n_discard are lost, or half of them if it is 0, or none if it is negative, but
      never the last one; what follows moves down. */
  lemma ShiftKeepsAndLoses(s: Slot, nCtx: int, addBos: bool, keep: nat, lost: int)
    requires nCtx >= 4 && |s.tokens| + 1 >= nCtx
    requires keep <= nCtx - 4
    requires var wanted := (if s.task.nKeep >= 0 then s.task.nKeep else |s.task.prompt|) + (if addBos then 1 else 0);
      if wanted <= nCtx - 4 then keep == wanted else keep == nCtx - 4
    requires lost == |s.tokens| - |ShiftedTokens(s, nCtx, addBos)|
    ensures 0 <= lost < |s.tokens| - keep
    ensures ShiftedTokens(s, nCtx, addBos) == s.tokens[..keep] + s.tokens[keep + lost..]
    ensures s.task.nDiscard < 0 ==> lost == 0
    ensures s.task.nDiscard == 0 ==> lost == (|s.tokens| - keep) / 2
    ensures 0 < s.task.nDiscard < |s.tokens| - keep ==> lost == s.task.nDiscard
    ensures s.task.nDiscard >= |s.tokens| - keep ==> lost == |s.tokens| - keep - 1
  {
  }

  lemma ShiftedCounts(s: Slot, nCtx: int, addBos: bool)
    requires nCtx >= 4 && |s.tokens| + 1 >= nCtx
    ensures var wanted := (if s.task.nKeep >= 0 then s.task.nKeep else |s.task.prompt|) + (if addBos then 1 else 0);
      var r, keep := ShiftedTokens(s, nCtx, addBos), if wanted <= nCtx - 4 then wanted else nCtx - 4;
      keep <= |r| && r[..keep] == s.tokens[..keep] &&
      (s.task.nDiscard == 0 ==> |s.tokens| - |r| == (|s.tokens| - keep) / 2) &&
      (0 < s.task.nDiscard < |s.tokens| - keep ==> |s.tokens| - |r| == s.task.nDiscard)
  {
    hide KeepCount, DiscardCount, ShiftedTokens;
    var wanted := (if s.task.nKeep >= 0 then s.task.nKeep else |s.task.prompt|) + (if addBos then 1 else 0);
    var keep := if wanted <= nCtx - 4 then wanted else nCtx - 4;
    ShiftKeepsAndLoses(s, nCtx, addBos, keep, |s.tokens| - |ShiftedTokens(s, nCtx, addBos)|);
  }

  /** Copies the surviving tokens down in place and cuts the list. */
  method DropBlock(tokens: seq<Token>, keep: nat, discard: nat) returns (r: seq<Token>)
    requires keep + discard <= |tokens|
    ensures r == tokens[..keep] + tokens[keep + discard..]
  {
    var a := new Token[|tokens|](i requires 0 <= i < |tokens| => tokens[i]);
    var i := keep + discard;
    while i < |tokens|
      invariant keep + discard <= i <= |tokens|
      invariant a[..i - discard] == tokens[..keep] + tokens[keep + discard..i]
      invariant forall k :: i - discard <= k < |tokens| ==> a[k] == tokens[k]
    {
      a[i - discard] := a[i];
      assert a[..i + 1 - discard] == a[..i - discard] + [tokens[i]];
      i := i + 1;
    }
    r := a[..|tokens| - discard];
  }

  /** Dropping and moving cells gives exactly the shortened token list. */
  lemma ShiftedAgree(s: Slot, mem: Cells, keep: nat, discard: nat)
    requires InSync(s, []) && Busy(s) && keep + discard <= |s.tokens|
    requires ChunkReuse.ChunkMoved(s.mem, mem, keep, keep + discard, |s.tokens| - keep - discard)
    requires forall p :: |s.tokens| - discard <= p < |s.tokens| ==> p !in mem
    requires AtPositions(mem)
    ensures Agree(mem, s.tokens[..keep] + s.tokens[keep + discard..])
    ensures Below(mem, |s.tokens| - discard)
  {
    var r := s.tokens[..keep] + s.tokens[keep + discard..];
    assert s.tokens[..|s.tokens|] == s.tokens;
    forall i | 0 <= i < |r| ensures i in mem && mem[i] == r[i] {
      if i >= keep {
        assert ChunkReuse.CellAt(s.mem, i + discard, mem, i);
      }
    }
    assert forall p :: p in mem ==> p < |s.tokens| || p in s.mem;
  }

  lemma ShiftedIs(s: Slot, nCtx: int, addBos: bool)
    requires nCtx >= 4 && |s.tokens| + 1 >= nCtx
    ensures var keep := KeepCount(s.task, nCtx, addBos);
      var discard := DiscardCount(s.task, |s.tokens| - keep);
      0 <= keep && keep + discard <= |s.tokens| &&
      ShiftedTokens(s, nCtx, addBos) == s.tokens[..keep] + s.tokens[keep + discard..]
  {
  }

  /** The two memory calls of the shift. */
  method ShiftMemory(s: Slot, keep: nat, discard: nat) returns (mem: Cells)
    requires InSync(s, []) && s.phase == Generating && keep + discard <= |s.tokens|
    ensures Agree(mem, s.tokens[..keep] + s.tokens[keep + discard..]) && AtPositions(mem)
    ensures Below(mem, |s.tokens| - discard)
  {
    mem := ChunkReuse.MoveChunk(s.mem, keep, keep + discard, |s.tokens| - keep - discard);
    ShiftedAgree(s, mem, keep, discard);
  }

  /** One context shift.  The memory afterwards mirrors the shortened list exactly; there is room for
      another token exactly when n_discard is not negative. */
  method ShiftContext(s: Slot, nCtx: int, addBos: bool) returns (r: Slot)
    requires nCtx >= 4 && s.phase == Generating && InSync(s, [])
    requires |s.tokens| + 1 >= nCtx
    ensures r == s.(tokens := r.tokens, mem := r.mem, truncated := true)
    ensures InSync(r, [])
    ensures r.tokens == ShiftedTokens(s, nCtx, addBos)
    ensures var wanted := (if s.task.nKeep >= 0 then s.task.nKeep else |s.task.prompt|) + (if addBos then 1 else 0);
      var keep := if wanted <= nCtx - 4 then wanted else nCtx - 4;
      keep <= |r.tokens| && r.tokens[..keep] == s.tokens[..keep] &&
      (s.task.nDiscard == 0 ==> |s.tokens| - |r.tokens| == (|s.tokens| - keep) / 2) &&
      (0 < s.task.nDiscard < |s.tokens| - keep ==> |s.tokens| - |r.tokens| == s.task.nDiscard)
    ensures |s.tokens| + 1 == nCtx ==> (|r.tokens| + 1 < nCtx <==> s.task.nDiscard >= 0)
  {
    hide KeepCount, DiscardCount, ShiftedTokens, InSync;
    r := DropOldest(s, nCtx, addBos);
    ShiftedCounts(s, nCtx, addBos);
    if |s.tokens| + 1 == nCtx { RoomAfterShift(s, nCtx, addBos); }
  }

  method DropOldest(s: Slot, nCtx: int, addBos: bool) returns (r: Slot)
    requires nCtx >= 4 && s.phase == Generating && InSync(s, [])
    requires |s.tokens| + 1 >= nCtx
    ensures r == s.(tokens := ShiftedTokens(s, nCtx, addBos), mem := r.mem, truncated := true)
    ensures InSync(r, [])
  {
    var keep := KeepCount(s.task, nCtx, addBos);
    var nLeft := |s.tokens| - keep;
    var discard := DiscardCount(s.task, nLeft);
    ShiftedIs(s, nCtx, addBos);
    hide KeepCount, DiscardCount, ShiftedTokens;
    var mem := ShiftMemory(s, keep, discard);
    var tokens := DropBlock(s.tokens, keep, discard);
    r := s.(tokens := tokens, mem := mem, truncated := true);
    ExactSync(r);
  }

  lemma RoomAfterShift(s: Slot, nCtx: int, addBos: bool)
    requires nCtx >= 4 && |s.tokens| + 1 == nCtx
    ensures |ShiftedTokens(s, nCtx, addBos)| + 1 < nCtx <==> s.task.nDiscard >= 0
  {
  }
}
