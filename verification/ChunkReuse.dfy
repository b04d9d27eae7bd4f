/** Reuse of cached chunks at the start of a prompt (server-context.cpp, SLOT_STATE_STARTED):
    tokens that reappear later in the cache are kept by shifting their KV cells. */
module ChunkReuse {
  import opened KvMemory

  /** Number of equal tokens of a from i on and b from j on. */
  function MatchLen(a: seq<Token>, i: nat, b: seq<Token>, j: nat): (n: nat)
    requires i <= |a| && j <= |b|
    ensures i + n <= |a| && j + n <= |b|
    decreases |a| - i
  {
    if i < |a| && j < |b| && a[i] == b[j] then 1 + MatchLen(a, i + 1, b, j + 1) else 0
  }

  /** The two lists agree over the match and differ right after it. */
  lemma {:induction false} MatchAt(a: seq<Token>, i: nat, b: seq<Token>, j: nat, k: nat)
    requires i <= |a| && j <= |b| && k <= MatchLen(a, i, b, j)
    ensures k < MatchLen(a, i, b, j) ==> a[i + k] == b[j + k]
    ensures k == MatchLen(a, i, b, j) && i + k < |a| && j + k < |b| ==> a[i + k] != b[j + k]
    decreases k
  {
    if k > 0 {
      MatchAt(a, i + 1, b, j + 1, k - 1);
    }
  }

  /** The prefix length the reuse policy promises: walk the cache, and whenever at least
      nReuse tokens match the next tokens of the prompt, take the whole match. */
  function ReusedLength(cache: seq<Token>, input: seq<Token>, headC: nat, headP: nat, nReuse: nat): (n: nat)
    requires headP <= headC <= |cache| && headP <= |input| && nReuse >= 1
    ensures headP <= n <= |input| && n + (headC - headP) <= |cache|
    decreases |cache| - headC
  {
    if headC < |cache| && headP < |input| then
      var m := MatchLen(cache, headC, input, headP);
      if m >= nReuse then ReusedLength(cache, input, headC + m, headP + m, nReuse)
      else ReusedLength(cache, input, headC + 1, headP, nReuse)
    else headP
  }

  lemma ReuseDone(cache: seq<Token>, input: seq<Token>, headC: nat, headP: nat, nReuse: nat)
    requires headP <= headC <= |cache| && headP <= |input| && nReuse >= 1
    requires !(headC < |cache| && headP < |input|)
    ensures ReusedLength(cache, input, headC, headP, nReuse) == headP
  {
  }

  lemma ReuseStep(cache: seq<Token>, input: seq<Token>, headC: nat, headP: nat, nReuse: nat)
    requires headP <= headC < |cache| && headP < |input| && nReuse >= 1
    ensures var m := MatchLen(cache, headC, input, headP);
      ReusedLength(cache, input, headC, headP, nReuse) ==
      if m >= nReuse then ReusedLength(cache, input, headC + m, headP + m, nReuse)
      else ReusedLength(cache, input, headC + 1, headP, nReuse)
  {
  }

  /** A run of equal tokens that ends in a difference, or with a list, is the match. */
  lemma {:induction false} MatchIs(a: seq<Token>, i: nat, b: seq<Token>, j: nat, m: nat)
    requires i + m <= |a| && j + m <= |b| && a[i..i + m] == b[j..j + m]
    requires i + m == |a| || j + m == |b| || a[i + m] != b[j + m]
    ensures MatchLen(a, i, b, j) == m
    decreases m
  {
    if m > 0 {
      assert a[i] == a[i..i + m][0] && b[j] == b[j..j + m][0];
      assert a[i + 1..i + m] == a[i..i + m][1..] && b[j + 1..j + m] == b[j..j + m][1..];
      MatchIs(a, i + 1, b, j + 1, m - 1);
    }
  }

  /** The next n tokens of both lists are equal. */
  predicate SameNext(a: seq<Token>, i: nat, b: seq<Token>, j: nat, n: nat) {
    i + n <= |a| && j + n <= |b| && a[i..i + n] == b[j..j + n]
  }

  lemma {:induction false} LongMatch(a: seq<Token>, i: nat, b: seq<Token>, j: nat, n: nat)
    requires i <= |a| && j <= |b|
    ensures MatchLen(a, i, b, j) >= n <==> SameNext(a, i, b, j, n)
    decreases n
  {
    if n > 0 && i + n <= |a| && j + n <= |b| {
      FirstAndRest(a, i, b, j, n);
      LongMatch(a, i + 1, b, j + 1, n - 1);
    }
  }

  lemma FirstAndRest(a: seq<Token>, i: nat, b: seq<Token>, j: nat, n: nat)
    requires n > 0 && i + n <= |a| && j + n <= |b|
    ensures SameNext(a, i, b, j, n) <==> a[i] == b[j] && SameNext(a, i + 1, b, j + 1, n - 1)
  {
    var x, y := a[i + 1..i + n], b[j + 1..j + n];
    assert a[i..i + n] == [a[i]] + x && b[j..j + n] == [b[j]] + y;
    assert ([a[i]] + x)[0] == a[i] && ([b[j]] + y)[0] == b[j] && ([a[i]] + x)[1..] == x && ([b[j]] + y)[1..] == y;
  }

  /** What is reused next: the first place of the cache, from the cursor on, where at least nReuse tokens are those the
      prompt needs next; all that match there are taken, and the walk goes on behind them. */
  lemma {:induction false} ReusedFirst(cache: seq<Token>, input: seq<Token>, headC: nat, headP: nat, nReuse: nat,
                                       c: nat, m: nat)
    requires headP <= headC <= c && 1 <= nReuse <= m && c + m <= |cache| && headP + m <= |input|
    requires forall d :: headC <= d < c ==> !SameNext(cache, d, input, headP, nReuse)
    requires cache[c..c + m] == input[headP..headP + m]
    requires c + m == |cache| || headP + m == |input| || cache[c + m] != input[headP + m]
    ensures ReusedLength(cache, input, headC, headP, nReuse) ==
            ReusedLength(cache, input, c + m, headP + m, nReuse) >= headP + m
    decreases c - headC
  {
    if headC == c {
      MatchIs(cache, c, input, headP, m);
    } else {
      LongMatch(cache, headC, input, headP, nReuse);
      ReusedFirst(cache, input, headC + 1, headP, nReuse, c, m);
    }
  }

  /** Nothing more is reused when there is no such place. */
  lemma {:induction false} ReusedNoMore(cache: seq<Token>, input: seq<Token>, headC: nat, headP: nat, nReuse: nat)
    requires headP <= headC <= |cache| && headP <= |input| && nReuse >= 1
    requires forall d :: headC <= d < |cache| ==> !SameNext(cache, d, input, headP, nReuse)
    ensures ReusedLength(cache, input, headC, headP, nReuse) == headP
    decreases |cache| - headC
  {
    if headC < |cache| && headP < |input| {
      LongMatch(cache, headC, input, headP, nReuse);
      ReusedNoMore(cache, input, headC + 1, headP, nReuse);
    }
  }

  /** State of the two-cursor loop: [0, headP) already holds the new prompt in both places,
      and [headC, ..) is the untouched rest of the cache. */
  ghost predicate Cursors(cached: seq<Token>, tokens: seq<Token>, mem: Cells, input: seq<Token>, headC: int,
                          headP: int) {
    0 <= headP <= headC <= |tokens| == |cached| && headP <= |input| &&
    (forall i :: 0 <= i < headP ==> tokens[i] == input[i] && i in mem && mem[i] == input[i]) &&
    (forall i :: headC <= i < |tokens| ==> tokens[i] == cached[i] && i in mem && mem[i] == cached[i])
  }

  /** r is mem with the chunk [headC, headC + n) moved down to headP; cells outside the two ranges keep their place. */
  ghost predicate ChunkMoved(mem: Cells, r: Cells, headP: nat, headC: nat, n: nat) {
    (forall i {:trigger i in r} :: 0 <= i < headP || headC + n <= i ==>
      (i in r <==> i in mem) && (i in mem ==> r[i] == mem[i])) &&
    (forall k, q {:trigger CellAt(mem, k, r, q)} ::
      headC <= k < headC + n && k in mem && q == k - (headC - headP) ==> CellAt(mem, k, r, q))
  }

  /** The cell at position p of mem is found at position q of r. */
  ghost predicate CellAt(mem: Cells, p: int, r: Cells, q: int) {
    p in mem && q in r && r[q] == mem[p]
  }

  /** Shifts the KV cells of one matched chunk down.  The gap is emptied first, so no shifted cell meets a live one. */
  method MoveChunk(mem: Cells, headP: nat, headC: nat, n: nat) returns (r: Cells)
    requires headP <= headC
    ensures ChunkMoved(mem, r, headP, headC, n)
    ensures forall p :: headP + n <= p < headC + n ==> p !in r
    ensures AtPositions(mem) ==> AtPositions(r)
  {
    var emptied := SeqRm(mem, headP, headC);
    GapAllowsShift(emptied, headP, headC, n);
    r := SeqAdd(emptied, headC, headC + n, headP - headC);
    forall k, q | headC <= k < headC + n && k in mem && q == k - (headC - headP)
      ensures CellAt(mem, k, r, q)
    {
      assert MovedTo(emptied, headC, headC + n, headP - headC, q);
    }
  }

  /** With the gap below the chunk empty, shifting the chunk down meets no live cell. */
  lemma GapAllowsShift(mem: Cells, headP: nat, headC: nat, n: nat)
    requires headP <= headC
    requires forall p :: headP <= p < headC ==> p !in mem
    ensures CanShift(mem, headC, headC + n, headP - headC)
    ensures forall p :: p in mem && headC <= p < headC + n ==>
      0 <= p - (headC - headP) && (p - (headC - headP) in mem ==> headC <= p - (headC - headP) < headC + n)
  {
    forall p | p in mem && InRange(p, headC, headC + n)
      ensures MeetsNoLiveCell(mem, headC, headC + n, p + (headP - headC))
    {
      var q := p + (headP - headC);
      if q in mem { assert headC <= q; }
    }
  }

  method CountMatch(tokens: seq<Token>, headC: nat, input: seq<Token>, headP: nat) returns (nMatch: nat)
    requires headC <= |tokens| && headP <= |input|
    ensures nMatch == MatchLen(tokens, headC, input, headP)
  {
    nMatch := 0;
    while headC + nMatch < |tokens| && headP + nMatch < |input| && tokens[headC + nMatch] == input[headP + nMatch]
      invariant headC + nMatch <= |tokens| && headP + nMatch <= |input|
      invariant MatchLen(tokens, headC, input, headP) ==
        nMatch + MatchLen(tokens, headC + nMatch, input, headP + nMatch)
    {
      nMatch := nMatch + 1;
    }
  }

  /** Copies the matched tokens down one by one, as the shifted cells moved. */
  method CopyDown(oldTokens: seq<Token>, headC: nat, headP: nat, nMatch: nat) returns (tokens: seq<Token>)
    requires headP <= headC && headC + nMatch <= |oldTokens|
    ensures tokens == oldTokens[..headP] + oldTokens[headC..headC + nMatch] + oldTokens[headP + nMatch..]
  {
    tokens := oldTokens;
    for i := 0 to nMatch
      invariant tokens == oldTokens[..headP] + oldTokens[headC..headC + i] + oldTokens[headP + i..]
    {
      assert tokens[headC + i] == oldTokens[headC + i];
      tokens := tokens[headP + i := tokens[headC + i]];
    }
  }

  lemma MatchOnSuffix(a: seq<Token>, a': seq<Token>, i: nat, b: seq<Token>, j: nat)
    requires i <= |a| == |a'| && j <= |b|
    requires forall k :: i <= k < |a| ==> a[k] == a'[k]
    ensures MatchLen(a, i, b, j) == MatchLen(a', i, b, j)
    decreases |a| - i
  {
  }

  /** One reused chunk carries the loop state from (headC, headP) to (headC + n, headP + n). */
  lemma ReusedCursors(cached: seq<Token>, tokens: seq<Token>, mem: Cells, input: seq<Token>, headC: nat, headP: nat,
                      n: nat, mem': Cells)
    requires Cursors(cached, tokens, mem, input, headC, headP)
    requires n == MatchLen(cached, headC, input, headP)
    requires ChunkMoved(mem, mem', headP, headC, n)
    ensures Cursors(cached, tokens[..headP] + tokens[headC..headC + n] + tokens[headP + n..],
                    mem', input, headC + n, headP + n)
  {
    var tokens' := tokens[..headP] + tokens[headC..headC + n] + tokens[headP + n..];
    forall i | 0 <= i < headP + n
      ensures tokens'[i] == input[i] && i in mem' && mem'[i] == input[i]
    {
      if headP <= i {
        var c := i + (headC - headP);
        MatchAt(cached, headC, input, headP, i - headP);
        assert tokens[c] == cached[c] == mem[c];
        assert CellAt(mem, c, mem', i);
        assert tokens'[i] == tokens[c];
      } else {
        assert tokens'[i] == tokens[i] && i in mem;
      }
    }
    forall i | headC + n <= i < |tokens|
      ensures tokens'[i] == cached[i] && i in mem' && mem'[i] == cached[i]
    {
      assert tokens'[i] == tokens[i] && i in mem;
    }
  }

  /** Takes one matched chunk: its cells and its tokens move from headC to headP. */
  method TakeChunk(ghost cached: seq<Token>, tokens: seq<Token>, mem: Cells, input: seq<Token>, headC: nat,
                   headP: nat, nMatch: nat)
    returns (tokens': seq<Token>, mem': Cells)
    requires Cursors(cached, tokens, mem, input, headC, headP)
    requires nMatch == MatchLen(cached, headC, input, headP)
    ensures Cursors(cached, tokens', mem', input, headC + nMatch, headP + nMatch)
    ensures AtPositions(mem) ==> AtPositions(mem')
  {
    mem' := MoveChunk(mem, headP, headC, nMatch);
    ReusedCursors(cached, tokens, mem, input, headC, headP, nMatch, mem');
    tokens' := CopyDown(tokens, headC, headP, nMatch);
  }

  lemma CursorsStart(cached: seq<Token>, kv: Cells, input: seq<Token>, n: nat)
    requires Agree(kv, cached) && n <= |cached| && n <= |input| && cached[..n] == input[..n]
    ensures Cursors(cached, cached, kv, input, n, n)
  {
  }

  lemma CursorsDone(cached: seq<Token>, tokens: seq<Token>, mem: Cells, input: seq<Token>, headC: int, headP: int)
    requires Cursors(cached, tokens, mem, input, headC, headP)
    ensures tokens[..headP] == input[..headP] && Agree(mem, input[..headP])
  {
  }

  /** The two-cursor reuse loop.  cached and kv are the slot's old prompt and its memory; the first
      nCommon tokens are already a prefix of the new prompt. */
  method ReuseChunks(cached: seq<Token>, kv: Cells, input: seq<Token>, nCommon: nat, nReuse: nat)
    returns (tokens: seq<Token>, mem: Cells, nPast: nat)
    requires nReuse >= 1
    requires Agree(kv, cached) && AtPositions(kv)
    requires nCommon <= |cached| && nCommon <= |input| && cached[..nCommon] == input[..nCommon]
    ensures nPast == ReusedLength(cached, input, nCommon, nCommon, nReuse)
    ensures nCommon <= nPast <= |tokens| && |tokens| == |cached| && nPast <= |input|
    ensures tokens[..nPast] == input[..nPast]
    ensures Agree(mem, input[..nPast]) && AtPositions(mem)
  {
    tokens, mem, nPast := cached, kv, nCommon;
    var headC: nat := nCommon;
    var headP: nat := nCommon;
    hide MatchLen, ReusedLength;
    CursorsStart(cached, kv, input, nCommon);
    ghost var promised := ReusedLength(cached, input, nCommon, nCommon, nReuse);
    while headC < |tokens| && headP < |input|
      invariant Cursors(cached, tokens, mem, input, headC, headP)
      invariant nPast == headP && nCommon <= headP && AtPositions(mem)
      invariant ReusedLength(cached, input, headC, headP, nReuse) == promised
      decreases |tokens| - headC
    {
      var nMatch := CountMatch(tokens, headC, input, headP);
      MatchOnSuffix(tokens, cached, headC, input, headP);
      ReuseStep(cached, input, headC, headP, nReuse);
      assert nMatch == MatchLen(cached, headC, input, headP);
      if nMatch >= nReuse {
        tokens, mem := TakeChunk(cached, tokens, mem, input, headC, headP, nMatch);
        nPast := nPast + nMatch;
        assert ReusedLength(cached, input, headC + nMatch, headP + nMatch, nReuse) == promised;
        headC := headC + nMatch;
        headP := headP + nMatch;
      } else {
        assert ReusedLength(cached, input, headC + 1, headP, nReuse) == promised;
        headC := headC + 1;
      }
    }
    CursorsDone(cached, tokens, mem, input, headC, headP);
    ReuseDone(cached, input, headC, headP, nReuse);
  }
}
