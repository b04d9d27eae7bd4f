/** The KV memory of one sequence, seen as a map from positions to the token whose
    key/value pair is stored there.  The llama_memory_* calls are contracts over it. */
module KvMemory {

  type Token = int
  type Cells = map<int, Token>

  /** llama_memory range convention: a negative p0 means 0, a negative p1 means "no upper bound". */
  predicate InRange(p: int, p0: int, p1: int) {
    p0 <= p && 0 <= p && (p1 < 0 || p < p1)
  }

  /** seq_rm: drop every cell whose position lies in [p0, p1). */
  function SeqRm(mem: Cells, p0: int, p1: int): (r: Cells)
    ensures forall p :: p in r <==> p in mem && !InRange(p, p0, p1)
    ensures forall p :: p in r ==> r[p] == mem[p]
  {
    map p | p in mem && !InRange(p, p0, p1) :: mem[p]
  }

  /** Moving [p0, p1) by delta never lands on a cell that stays where it is. */
  ghost predicate CanShift(mem: Cells, p0: int, p1: int, delta: int) {
    forall p {:trigger MeetsNoLiveCell(mem, p0, p1, p + delta)} ::
      p in mem && InRange(p, p0, p1) ==> MeetsNoLiveCell(mem, p0, p1, p + delta)
  }

  ghost predicate MeetsNoLiveCell(mem: Cells, p0: int, p1: int, q: int) {
    0 <= q && (q in mem ==> InRange(q, p0, p1))
  }

  /** Position q receives a cell of [p0, p1) that moves by delta. */
  predicate MovedTo(mem: Cells, p0: int, p1: int, delta: int, q: int) {
    q - delta in mem && InRange(q - delta, p0, p1)
  }

  /** Position q holds a cell outside [p0, p1), which stays. */
  predicate Stays(mem: Cells, p0: int, p1: int, q: int) {
    q in mem && !InRange(q, p0, p1)
  }

  /** seq_add: move every cell of [p0, p1) by delta.  A cell may not be moved onto one that stays. */
  method SeqAdd(mem: Cells, p0: int, p1: int, delta: int) returns (r: Cells)
    requires CanShift(mem, p0, p1, delta)
    ensures forall q {:trigger q in r} :: q in r <==> Stays(mem, p0, p1, q) || MovedTo(mem, p0, p1, delta, q)
    ensures forall q {:trigger r[q]} :: q in r && MovedTo(mem, p0, p1, delta, q) ==> r[q] == mem[q - delta]
    ensures forall q {:trigger r[q]} :: q in r && !MovedTo(mem, p0, p1, delta, q) ==> q in mem && r[q] == mem[q]
  {
    var landing := set p | p in mem :: p + delta;
    assert forall q :: MovedTo(mem, p0, p1, delta, q) ==> q in landing by {
      forall q | MovedTo(mem, p0, p1, delta, q) ensures q in landing {
        var p := q - delta;
        assert p + delta == q;
      }
    }
    r := map q | q in mem.Keys + landing && (Stays(mem, p0, p1, q) || MovedTo(mem, p0, p1, delta, q)) ::
      if MovedTo(mem, p0, p1, delta, q) then mem[q - delta] else mem[q];
  }

  /** The memory holds tokens[i] at every position i of the list. */
  ghost predicate Agree(mem: Cells, tokens: seq<Token>) {
    forall i :: 0 <= i < |tokens| ==> i in mem && mem[i] == tokens[i]
  }

  ghost predicate AtPositions(mem: Cells) {
    forall p :: p in mem ==> 0 <= p
  }

  /** Every occupied position is below n. */
  ghost predicate Below(mem: Cells, n: int) {
    forall p :: p in mem ==> 0 <= p < n
  }

  /** The positions 0 .. n-1 are all occupied. */
  ghost predicate Filled(mem: Cells, n: nat) {
    forall i :: 0 <= i < n ==> i in mem
  }

  /** What the model attends to when it computes the output after position n - 1. */
  ghost function Visible(mem: Cells, n: nat): (ctx: seq<Token>)
    requires Filled(mem, n)
    ensures |ctx| == n && Agree(mem, ctx)
  {
    seq(n, i requires 0 <= i < n => assert i in mem; mem[i])
  }

  lemma SomePosition(s: set<int>)
    ensures s == {} || exists p :: p in s
  {
    if forall p :: p !in s {
      assert s <= {};
    }
  }

  /** llama_memory_seq_pos_max: the largest occupied position, -1 for an empty sequence. */
  method PosMax(mem: Cells) returns (p: int)
    ensures mem == map[] ==> p == -1
    ensures mem != map[] ==> p in mem && forall q :: q in mem ==> q <= p
  {
    p := -1;
    var rest, seen := mem.Keys, {};
    while rest != {}
      invariant seen + rest == mem.Keys
      invariant seen == {} ==> p == -1
      invariant seen != {} ==> p in mem && forall q :: q in seen ==> q <= p
      decreases rest
    {
      SomePosition(rest);
      var q :| q in rest;
      if seen == {} || q > p { p := q; }
      rest, seen := rest - {q}, seen + {q};
    }
  }

  /** llama_memory_seq_pos_min: the smallest occupied position, -1 for an empty sequence. */
  method PosMin(mem: Cells) returns (p: int)
    ensures mem == map[] ==> p == -1
    ensures mem != map[] ==> p in mem && forall q :: q in mem ==> p <= q
  {
    p := -1;
    var rest, seen := mem.Keys, {};
    while rest != {}
      invariant seen + rest == mem.Keys
      invariant seen == {} ==> p == -1
      invariant seen != {} ==> p in mem && forall q :: q in seen ==> p <= q
      decreases rest
    {
      SomePosition(rest);
      var q :| q in rest;
      if seen == {} || q < p { p := q; }
      rest, seen := rest - {q}, seen + {q};
    }
  }

  lemma VisibleIsTokens(mem: Cells, tokens: seq<Token>, n: nat)
    requires Agree(mem, tokens) && n <= |tokens|
    ensures Filled(mem, n) && Visible(mem, n) == tokens[..n]
  {
  }
}
