/** The cache of prompt states evicted from slots (server-task.cpp, server_prompt_cache): bounded in bytes, no entry
    a prefix of another, oldest entries dropped first, and a lookup with two criteria. */
module PromptCache {
  import opened KvMemory
  import ChunkReuse
  import PromptSteps

  type Bytes = seq<int>

  /** server_prompt: the tokens, and the sizes of the checkpoints kept with them. */
  datatype Prompt = Prompt(tokens: seq<Token>, ckpts: seq<nat>)

  /** server_prompt_cache_state */
  datatype Entry = Entry(prompt: Prompt, main: Bytes, drft: Bytes)

  function Total(sizes: seq<nat>): nat {
    if sizes == [] then 0 else sizes[0] + Total(sizes[1..])
  }

  function SizeOf(e: Entry): nat {
    |e.main| + |e.drft| + Total(e.prompt.ckpts)
  }

  function Size(states: seq<Entry>): nat {
    if states == [] then 0 else SizeOf(states[0]) + Size(states[1..])
  }

  function Tokens(states: seq<Entry>): nat {
    if states == [] then 0 else |states[0].prompt.tokens| + Tokens(states[1..])
  }

  lemma {:induction false} SizeAppend(s: seq<Entry>, e: Entry)
    ensures Size(s + [e]) == Size(s) + SizeOf(e)
  {
    if s == [] {
      assert [] + [e] == [e];
    } else {
      assert (s + [e])[1..] == s[1..] + [e];
      SizeAppend(s[1..], e);
    }
  }

  lemma {:induction false} TotalAppend(sizes: seq<nat>, n: nat)
    ensures Total(sizes + [n]) == Total(sizes) + n
  {
    if sizes == [] {
      assert [] + [n] == [n];
    } else {
      assert (sizes + [n])[1..] == sizes[1..] + [n];
      TotalAppend(sizes[1..], n);
    }
  }

  /** What an entry weighs: its two state buffers, and each of its checkpoints. */
  lemma SizeCounts(tokens: seq<Token>, ckpts: seq<nat>, n: nat, main: Bytes, drft: Bytes)
    ensures SizeOf(Entry(Prompt(tokens, []), main, drft)) == |main| + |drft|
    ensures SizeOf(Entry(Prompt(tokens, ckpts + [n]), main, drft)) ==
            SizeOf(Entry(Prompt(tokens, ckpts), main, drft)) + n
  {
    TotalAppend(ckpts, n);
  }

  lemma {:induction false} TokensAppend(s: seq<Entry>, e: Entry)
    ensures Tokens([]) == 0 && Tokens(s + [e]) == Tokens(s) + |e.prompt.tokens|
  {
    if s == [] {
      assert [] + [e] == [e];
    } else {
      assert (s + [e])[1..] == s[1..] + [e];
      TokensAppend(s[1..], e);
    }
  }

  lemma {:induction false} SizeRemove(s: seq<Entry>, i: nat)
    requires i < |s|
    ensures Size(s[..i] + s[i + 1..]) == Size(s) - SizeOf(s[i])
  {
    if i == 0 {
      assert s[..0] + s[1..] == s[1..];
    } else {
      assert (s[..i] + s[i + 1..])[1..] == s[1..][..i - 1] + s[1..][i..];
      SizeRemove(s[1..], i - 1);
    }
  }

  lemma {:induction false} SizeReplace(s: seq<Entry>, i: nat, e: Entry)
    requires i < |s|
    ensures Size(s[i := e]) == Size(s) - SizeOf(s[i]) + SizeOf(e)
  {
    if i == 0 {
      assert s[0 := e][1..] == s[1..];
    } else {
      assert s[i := e][1..] == s[1..][i - 1 := e];
      SizeReplace(s[1..], i - 1, e);
    }
  }

  // ---- prefixes ----

  function Common(a: seq<Token>, b: seq<Token>): nat {
    ChunkReuse.MatchLen(a, 0, b, 0)
  }

  /** The longest beginning that both have. */
  lemma CommonIs(a: seq<Token>, b: seq<Token>, n: nat)
    requires n <= |a| && n <= |b| && a[..n] == b[..n]
    requires n == |a| || n == |b| || a[n] != b[n]
    ensures Common(a, b) == n
  {
    assert a[0..n] == a[..n] && b[0..n] == b[..n];
    ChunkReuse.MatchIs(a, 0, b, 0, n);
  }

  /** The two comparisons of alloc decide containment. */
  lemma CommonDecidesPrefix(a: seq<Token>, b: seq<Token>)
    ensures Common(a, b) == |b| <==> b <= a
    ensures Common(a, b) == |a| <==> a <= b
  {
    var n := Common(a, b);
    forall k: nat | k < n ensures a[k] == b[k] {
      ChunkReuse.MatchAt(a, 0, b, 0, k);
    }
    ChunkReuse.MatchAt(a, 0, b, 0, n);
  }

  predicate Comparable(a: Entry, b: Entry) {
    a.prompt.tokens <= b.prompt.tokens || b.prompt.tokens <= a.prompt.tokens
  }

  /** No cached prompt is a prefix of another. */
  ghost predicate PrefixFree(states: seq<Entry>) {
    forall i, j :: 0 <= i < j < |states| ==> !Comparable(states[i], states[j])
  }

  lemma PrefixFreeMeans(states: seq<Entry>, i: nat, j: nat)
    requires PrefixFree(states) && i < |states| && j < |states| && i != j
    ensures !(states[i].prompt.tokens <= states[j].prompt.tokens)
  {
    assert !Comparable(states[if i < j then i else j], states[if i < j then j else i]);
  }

  /** What is left after dropping the entries contained in a new prompt. */
  function Survivors(states: seq<Entry>, tokens: seq<Token>): (r: seq<Entry>) {
    if states == [] then []
    else if states[0].prompt.tokens <= tokens then Survivors(states[1..], tokens)
    else [states[0]] + Survivors(states[1..], tokens)
  }

  lemma {:induction false} SurvivorsOnly(states: seq<Entry>, tokens: seq<Token>)
    ensures forall e :: e in Survivors(states, tokens) ==> e in states && !(e.prompt.tokens <= tokens)
  {
    if states != [] {
      SurvivorsOnly(states[1..], tokens);
    }
  }

  lemma {:induction false} SurvivorsPrefixFree(states: seq<Entry>, tokens: seq<Token>)
    requires PrefixFree(states)
    ensures PrefixFree(Survivors(states, tokens))
  {
    if states != [] {
      SurvivorsPrefixFree(states[1..], tokens);
      SurvivorsOnly(states[1..], tokens);
      var rest := Survivors(states[1..], tokens);
      forall i | 0 <= i < |rest| ensures !Comparable(states[0], rest[i]) {
        assert rest[i] in rest && rest[i] in states[1..];
      }
    }
  }

  /** Nothing else is dropped. */
  lemma {:induction false} SurvivorsAll(states: seq<Entry>, tokens: seq<Token>, i: nat)
    requires i < |states| && !(states[i].prompt.tokens <= tokens)
    ensures states[i] in Survivors(states, tokens)
  {
    if i > 0 {
      SurvivorsAll(states[1..], tokens, i - 1);
    }
  }

  lemma {:induction false} SurvivorsAppend(s: seq<Entry>, e: Entry, tokens: seq<Token>)
    ensures Survivors(s + [e], tokens) == Survivors(s, tokens) + (if e.prompt.tokens <= tokens then [] else [e])
  {
    if s == [] {
      assert [] + [e] == [e];
    } else {
      assert (s + [e])[1..] == s[1..] + [e];
      SurvivorsAppend(s[1..], e, tokens);
    }
  }

  /** Looking at one more entry: it stays where it is, or goes and the rest moves up. */
  lemma SurvivorsStep(states: seq<Entry>, done: nat, tokens: seq<Token>)
    requires done < |states|
    ensures var kept, rest := Survivors(states[..done], tokens), states[done + 1..];
      var now, i := kept + states[done..], |kept|;
      var next := Survivors(states[..done + 1], tokens);
      now[i] == states[done] &&
      (if states[done].prompt.tokens <= tokens then next == kept && now[..i] + now[i + 1..] == next + rest
       else next == kept + [states[done]] && now == next + rest)
  {
    SurvivorsAppend(states[..done], states[done], tokens);
    assert states[..done + 1] == states[..done] + [states[done]];
    assert states[done..] == [states[done]] + states[done + 1..];
  }

  /** A new prompt that no entry contains joins what is left without breaking prefix freedom. */
  lemma JoinPrefixFree(s: seq<Entry>, e: Entry)
    requires PrefixFree(s) && forall i :: 0 <= i < |s| ==> !Comparable(s[i], e)
    ensures PrefixFree(s + [e])
  {
  }

  // ---- eviction ----

  /** after is what is left of before when the oldest entries are dropped, one at a time, until it weighs at most
      budget: the fewest that do. */
  ghost predicate OldestDropped(before: seq<Entry>, after: seq<Entry>, budget: int) {
    exists k: nat :: FewestDropped(before, after, k, budget)
  }

  ghost predicate FewestDropped(before: seq<Entry>, after: seq<Entry>, k: nat, budget: int) {
    k <= |before| && after == before[k..] && (after == [] || Size(after) <= budget) &&
    forall j: nat :: j < k ==> Size(before[j..]) > budget
  }

  ghost predicate FewestForTokens(before: seq<Entry>, after: seq<Entry>, k: nat, budget: int) {
    k <= |before| && after == before[k..] && (after == [] || Tokens(after) <= budget) &&
    forall j: nat :: j < k ==> Tokens(before[j..]) > budget
  }

  lemma SuffixPrefixFree(s: seq<Entry>, k: nat)
    requires k <= |s| && PrefixFree(s)
    ensures PrefixFree(s[k..])
  {
  }

  lemma {:induction false} SuffixSize(s: seq<Entry>, k: nat)
    requires k <= |s|
    ensures Size(s[k..]) <= Size(s)
  {
    if k > 0 {
      assert s[k..] == s[1..][k - 1..];
      SuffixSize(s[1..], k - 1);
    }
  }

  /** The fewest dropped entries are well defined: two runs agree. */
  lemma FewestIsUnique(before: seq<Entry>, a: seq<Entry>, b: seq<Entry>, budget: int)
    requires budget >= 0 && OldestDropped(before, a, budget) && OldestDropped(before, b, budget)
    ensures a == b
  {
  }

  // ---- the two criteria, as exact rationals ----

  datatype Ratio = NaN | Num(r: real)

  function Fraction(n: nat, d: nat): Ratio {
    if d == 0 then NaN else Num(n as real / d as real)
  }

  /** Comparisons with NaN are false. */
  predicate Less(a: Ratio, b: Ratio) {
    a.Num? && b.Num? && a.r < b.r
  }

  /** Kept fraction of a prompt, and similarity to the new one. */
  function Keep(tokens: seq<Token>, wanted: seq<Token>): Ratio {
    Fraction(Common(tokens, wanted), |tokens|)
  }

  function Sim(tokens: seq<Token>, wanted: seq<Token>): Ratio {
    Fraction(Common(tokens, wanted), |wanted|)
  }

  /** The slot's own prompt: an empty one keeps -1, so that any entry wins on this criterion. */
  function BaseKeep(tokens: seq<Token>, wanted: seq<Token>): Ratio {
    if tokens == [] then Num(-1.0) else Keep(tokens, wanted)
  }

  predicate Eligible(e: Entry, wanted: seq<Token>) {
    !Less(Keep(e.prompt.tokens, wanted), Num(0.25))
  }

  predicate Beats(e: Entry, wanted: seq<Token>, keep: Ratio, sim: Ratio) {
    Less(keep, Keep(e.prompt.tokens, wanted)) && Less(sim, Sim(e.prompt.tokens, wanted))
  }

  /** No eligible entry is strictly better on both. */
  ghost predicate Unbeaten(states: seq<Entry>, wanted: seq<Token>, keep: Ratio, sim: Ratio) {
    forall i :: 0 <= i < |states| && Eligible(states[i], wanted) ==> !Beats(states[i], wanted, keep, sim)
  }

  /** The lookup is Pareto-sound, in both directions: it finds an entry exactly when some eligible one beats the slot's
      own prompt on both criteria; the one it finds keeps a quarter of itself, and no eligible one beats it on both. */
  ghost predicate ParetoChoice(states: seq<Entry>, own: seq<Token>, wanted: seq<Token>, best: int) {
    -1 <= best < |states| &&
    (best == -1 <==> Unbeaten(states, wanted, BaseKeep(own, wanted), Sim(own, wanted))) &&
    (best != -1 ==>
      var e := states[best];
      Eligible(e, wanted) && Beats(e, wanted, BaseKeep(own, wanted), Sim(own, wanted)) &&
      Keep(e.prompt.tokens, wanted).r >= 0.25 &&
      Unbeaten(states, wanted, Keep(e.prompt.tokens, wanted), Sim(e.prompt.tokens, wanted)))
  }

  method FindBest(states: seq<Entry>, own: seq<Token>, wanted: seq<Token>) returns (best: int)
    ensures ParetoChoice(states, own, wanted, best)
    ensures best == -1 ==> forall e :: e in states ==>
      var t, n, o := e.prompt.tokens, Common(e.prompt.tokens, wanted), Common(own, wanted);
      4 * n < |t| || n <= o || (own != [] && n * |own| <= o * |t|)
    ensures best != -1 ==>
      var t, o := states[best].prompt.tokens, Common(own, wanted);
      var n := Common(t, wanted);
      4 * n >= |t| && n > o && (own == [] || n * |own| > o * |t|)
  {
    hide Common, Keep, Sim, BaseKeep;
    var keepBest, simBest := BaseKeep(own, wanted), Sim(own, wanted);
    best := -1;
    for i := 0 to |states|
      invariant -1 <= best < i
      invariant Unbeaten(states[..i], wanted, keepBest, simBest)
      invariant best == -1 ==> keepBest == BaseKeep(own, wanted) && simBest == Sim(own, wanted)
      invariant best != -1 ==> var t := states[best].prompt.tokens;
        keepBest == Keep(t, wanted) && simBest == Sim(t, wanted) && Eligible(states[best], wanted) &&
        Beats(states[best], wanted, BaseKeep(own, wanted), Sim(own, wanted))
    {
      var e := states[i];
      var keep, sim := Keep(e.prompt.tokens, wanted), Sim(e.prompt.tokens, wanted);
      if Less(keep, Num(0.25)) {
        continue;
      }
      if Less(keepBest, keep) && Less(simBest, sim) {
        keepBest, simBest, best := keep, sim, i;
      }
    }
    assert states[..|states|] == states;
    if best != -1 {
      assert Beats(states[best], wanted, BaseKeep(own, wanted), Sim(own, wanted));
    }
    ChoiceInCounts(states, own, wanted, best);
  }

  lemma FractionLess(n: nat, d: nat, n': nat, d': nat)
    ensures Less(Fraction(n, d), Fraction(n', d')) <==> d > 0 && d' > 0 && n * d' < n' * d
  {
    if d > 0 && d' > 0 {
      var a, b, x, y := n as real, d as real, n' as real, d' as real;
      assert a == (a / b) * b && x == (x / y) * y;
      assert a * y == (a / b) * (b * y) && x * b == (x / y) * (b * y);
      assert b * y > 0.0;
      ScaledLess(a / b, x / y, b * y);
      assert (n * d') as real == a * y && (n' * d) as real == x * b;
    }
  }

  lemma ScaledLess(p: real, q: real, c: real)
    requires c > 0.0
    ensures p < q <==> p * c < q * c
  {
  }

  /** The choice in numbers of tokens.  An entry can be taken if it shares at least a quarter of its tokens with the new
      prompt, more tokens than the slot's own prompt does and, unless that is empty, a larger part of itself.  One is
      found exactly when there is such an entry, and no other that shares a quarter of itself shares both more tokens
      and a larger part. */
  lemma ChoiceInCounts(states: seq<Entry>, own: seq<Token>, wanted: seq<Token>, best: int)
    requires ParetoChoice(states, own, wanted, best)
    ensures -1 <= best < |states|
    ensures best == -1 ==> forall e :: e in states ==>
      var t, n, o := e.prompt.tokens, Common(e.prompt.tokens, wanted), Common(own, wanted);
      4 * n < |t| || n <= o || (own != [] && n * |own| <= o * |t|)
    ensures best != -1 ==>
      var t, o := states[best].prompt.tokens, Common(own, wanted);
      var n := Common(t, wanted);
      4 * n >= |t| && n > o && (own == [] || n * |own| > o * |t|) &&
      forall e :: e in states ==>
        var u, m := e.prompt.tokens, Common(e.prompt.tokens, wanted);
        4 * m < |u| || m <= n || m * |t| <= n * |u|
  {
    hide Unbeaten, Eligible, Beats, Keep, Sim, BaseKeep, Common, Less;
    if best == -1 {
      forall e | e in states
        ensures var t, n, o := e.prompt.tokens, Common(e.prompt.tokens, wanted), Common(own, wanted);
          4 * n < |t| || n <= o || (own != [] && n * |own| <= o * |t|)
      {
        NotBeaten(states, wanted, BaseKeep(own, wanted), Sim(own, wanted), e);
        EligibleInCounts(e, wanted);
        BeatsOwnInCounts(e, own, wanted);
      }
    } else {
      var b := states[best];
      EligibleInCounts(b, wanted);
      BeatsOwnInCounts(b, own, wanted);
      CommonBounds(b.prompt.tokens, wanted);
      forall e | e in states
        ensures var t, u := b.prompt.tokens, e.prompt.tokens;
          4 * Common(u, wanted) < |u| || Common(u, wanted) <= Common(t, wanted) ||
          Common(u, wanted) * |t| <= Common(t, wanted) * |u|
      {
        NotBeaten(states, wanted, Keep(b.prompt.tokens, wanted), Sim(b.prompt.tokens, wanted), e);
        EligibleInCounts(e, wanted);
        BeatsInCounts(e, b.prompt.tokens, wanted);
      }
    }
  }

  lemma NotBeaten(states: seq<Entry>, wanted: seq<Token>, keep: Ratio, sim: Ratio, e: Entry)
    requires Unbeaten(states, wanted, keep, sim) && e in states
    ensures Eligible(e, wanted) ==> !Beats(e, wanted, keep, sim)
  {
  }

  lemma EligibleInCounts(e: Entry, wanted: seq<Token>)
    ensures Eligible(e, wanted) <==> 4 * Common(e.prompt.tokens, wanted) >= |e.prompt.tokens|
  {
    hide Common;
    var t, n := e.prompt.tokens, Common(e.prompt.tokens, wanted);
    assert Fraction(1, 4) == Num(0.25);
    FractionLess(n, |t|, 1, 4);
  }

  lemma BeatsInCounts(e: Entry, t: seq<Token>, wanted: seq<Token>)
    requires t != []
    ensures Beats(e, wanted, Keep(t, wanted), Sim(t, wanted)) <==>
      var u := e.prompt.tokens;
      Common(u, wanted) > Common(t, wanted) && Common(u, wanted) * |t| > Common(t, wanted) * |u|
  {
    hide Common, Fraction, Less;
    var u := e.prompt.tokens;
    var n, m := Common(t, wanted), Common(u, wanted);
    assert m <= |u| && n <= |t| && m <= |wanted| by { CommonBounds(u, wanted); CommonBounds(t, wanted); }
    FractionLess(n, |t|, m, |u|);
    FractionLess(n, |wanted|, m, |wanted|);
    if |wanted| > 0 {
      SameScale(n, m, |wanted|);
    }
  }

  lemma SameScale(n: nat, m: nat, c: nat)
    requires c > 0
    ensures n < m <==> n * c < m * c
  {
  }

  lemma BeatsOwnInCounts(e: Entry, own: seq<Token>, wanted: seq<Token>)
    ensures Beats(e, wanted, BaseKeep(own, wanted), Sim(own, wanted)) <==>
      var t, n, o := e.prompt.tokens, Common(e.prompt.tokens, wanted), Common(own, wanted);
      n > o && (own == [] || n * |own| > o * |t|)
  {
    hide Common, Beats, Fraction, Less;
    if own != [] {
      BeatsInCounts(e, own, wanted);
    } else {
      EmptyBeaten(e, wanted);
    }
  }

  /** An empty slot is beaten by any entry that shares something. */
  lemma EmptyBeaten(e: Entry, wanted: seq<Token>)
    ensures Common([], wanted) == 0
    ensures Beats(e, wanted, BaseKeep([], wanted), Sim([], wanted)) <==> Common(e.prompt.tokens, wanted) > 0
  {
    CommonIs([], wanted, 0);
    hide Common;
    var t := e.prompt.tokens;
    CommonBounds(t, wanted);
    FractionLess(0, |wanted|, Common(t, wanted), |wanted|);
    if Common(t, wanted) > 0 {
      assert Common(t, wanted) as real / |t| as real >= 0.0;
    }
  }

  lemma CommonBounds(a: seq<Token>, b: seq<Token>)
    ensures Common(a, b) <= |a| && Common(a, b) <= |b|
  {
  }

  // ---- the cache ----

  function Max(a: int, b: int): (m: int)
    ensures m >= a && m >= b && (m == a || m == b)
  {
    if a < b then b else a
  }

  /** The token limit, raised when the average entry is small enough for more to fit. */
  function TokenLimit(states: seq<Entry>, limitSize: nat, limitTokens: nat): int {
    var average := Size(states) as real / Max(1, Tokens(states)) as real;
    var perToken := if average < 1.0 then 1.0 else average;
    if limitSize > 0 then Max(limitTokens, (limitSize as real / perToken).Floor) else limitTokens
  }

  /** In whole bytes and tokens: as many tokens as the byte limit leaves room for at the average weight of a token,
      which counts as one byte at least, but never fewer than the configured limit. */
  lemma TokenLimitCounts(states: seq<Entry>, limitSize: nat, limitTokens: nat)
    ensures var n, size := TokenLimit(states, limitSize, limitTokens), Size(states);
      var tokens := if Tokens(states) == 0 then 1 else Tokens(states);
      n >= limitTokens && (limitSize == 0 ==> n == limitTokens) &&
      (limitSize > 0 && size <= tokens ==> n >= limitSize && (n == limitTokens || n == limitSize)) &&
      (limitSize > 0 && size > tokens ==>
        (n == limitTokens || n * size <= limitSize * tokens) && (n + 1) * size > limitSize * tokens)
  {
    hide Size, Tokens;
    var size, tokens := Size(states), if Tokens(states) == 0 then 1 else Tokens(states);
    if limitSize > 0 {
      AverageCounts(size, tokens, limitSize);
      if size > tokens {
        var q := (limitSize as real / (size as real / tokens as real)).Floor;
        MoreTimes(TokenLimit(states, limitSize, limitTokens), q, size);
      }
    }
  }

  lemma MoreTimes(n: int, q: int, c: nat)
    requires n >= q
    ensures (n + 1) * c >= (q + 1) * c
  {
  }

  lemma AverageCounts(size: nat, tokens: nat, limit: nat)
    requires tokens > 0 && limit > 0
    ensures size as real / tokens as real < 1.0 <==> size < tokens
    ensures size == tokens ==> size as real / tokens as real == 1.0
    ensures size > tokens ==>
      var q := (limit as real / (size as real / tokens as real)).Floor;
      q * size <= limit * tokens < (q + 1) * size
  {
    RatioToOne(size as real, tokens as real);
    if size > tokens {
      QuotientCounts(limit, size, tokens, (limit as real / (size as real / tokens as real)).Floor);
    }
  }

  lemma RatioToOne(s: real, t: real)
    requires t > 0.0
    ensures (s / t < 1.0 <==> s < t) && (s == t ==> s / t == 1.0) && (s > 0.0 ==> s / t > 0.0)
  {
    var a := s / t;
    assert a * t == s;
    ScaledLess(a, 1.0, t);
    ScaledLess(0.0, a, t);
  }

  lemma QuotientCounts(l: nat, s: nat, t: nat, q: int)
    requires s > 0 && t > 0 && s as real / t as real != 0.0 && q == (l as real / (s as real / t as real)).Floor
    ensures q * s <= l * t < (q + 1) * s
  {
    var x := l as real / (s as real / t as real);
    QuotientScaled(l as real, s as real, t as real, x);
    AsProduct(l, t);
    FloorScaled(x, s, q, l * t);
  }

  lemma FloorScaled(x: real, s: nat, q: int, p: int)
    requires s > 0 && q == x.Floor && x * s as real == p as real
    ensures q * s <= p < (q + 1) * s
  {
    FloorAtMost(x, s, q, p);
    NextAbove(x, s, q + 1, p);
  }

  lemma FloorAtMost(x: real, s: nat, q: int, p: int)
    requires s > 0 && q as real <= x && x * s as real == p as real
    ensures q * s <= p
  {
    ScaledLess(x, q as real, s as real);
    AsProduct(q, s);
  }

  lemma NextAbove(x: real, s: nat, q: int, p: int)
    requires s > 0 && x < q as real && x * s as real == p as real
    ensures p < q * s
  {
    ScaledLess(x, q as real, s as real);
    AsProduct(q, s);
  }

  lemma AsProduct(a: int, b: int)
    ensures (a * b) as real == a as real * b as real
  {
  }

  lemma QuotientScaled(l: real, s: real, t: real, x: real)
    requires s > 0.0 && t > 0.0 && s / t != 0.0 && x == l / (s / t)
    ensures x * s == l * t
  {
    var a := s / t;
    assert a * t == s && x * a == l;
    Regroup(x, a, t);
  }

  lemma Regroup(x: real, a: real, t: real)
    ensures x * (a * t) == (x * a) * t
  {
  }

  ghost predicate OldestDroppedForTokens(before: seq<Entry>, after: seq<Entry>, budget: int) {
    exists k: nat :: FewestForTokens(before, after, k, budget)
  }

  /** What update does: the byte limit first, then the token limit, each dropping the fewest oldest entries. */
  ghost predicate Updated(before: seq<Entry>, after: seq<Entry>, limitSize: nat, limitTokens: nat) {
    exists mid :: WithinBytes(before, mid, limitSize) && WithinTokens(mid, after, limitSize, limitTokens)
  }

  ghost predicate WithinBytes(before: seq<Entry>, mid: seq<Entry>, limitSize: nat) {
    if limitSize > 0 then OldestDropped(before, mid, limitSize) else mid == before
  }

  ghost predicate WithinTokens(mid: seq<Entry>, after: seq<Entry>, limitSize: nat, limitTokens: nat) {
    if limitTokens > 0 then OldestDroppedForTokens(mid, after, TokenLimit(mid, limitSize, limitTokens))
    else after == mid
  }

  lemma WithinBytesKeeps(before: seq<Entry>, mid: seq<Entry>, limitSize: nat)
    requires PrefixFree(before) && WithinBytes(before, mid, limitSize)
    ensures PrefixFree(mid) && Size(mid) <= Size(before) && (limitSize > 0 ==> Size(mid) <= limitSize)
  {
  }

  lemma WithinTokensKeeps(mid: seq<Entry>, after: seq<Entry>, limitSize: nat, limitTokens: nat)
    requires PrefixFree(mid) && WithinTokens(mid, after, limitSize, limitTokens)
    ensures PrefixFree(after) && Size(after) <= Size(mid)
  {
    hide TokenLimit;
    if limitTokens > 0 {
      var k: nat :| FewestForTokens(mid, after, k, TokenLimit(mid, limitSize, limitTokens));
      SuffixPrefixFree(mid, k);
      SuffixSize(mid, k);
    }
  }

  /** The byte limit leaves the newest entries, as many as weigh no more than it. */
  lemma BytesCases(before: seq<Entry>, mid: seq<Entry>, limitSize: nat)
    requires WithinBytes(before, mid, limitSize)
    ensures |mid| <= |before| && mid == before[|before| - |mid|..] && (limitSize == 0 ==> mid == before)
    ensures limitSize > 0 ==> Size(mid) <= limitSize
    ensures |mid| < |before| ==> Size(before[|before| - |mid| - 1..]) > limitSize
  {
  }

  /** The token limit leaves of those the newest again, as many as have no more tokens than it; none, if need be. */
  lemma TokensCases(mid: seq<Entry>, after: seq<Entry>, limitSize: nat, limitTokens: nat)
    requires WithinTokens(mid, after, limitSize, limitTokens)
    ensures |after| <= |mid| && after == mid[|mid| - |after|..] && (limitTokens == 0 ==> after == mid)
    ensures limitTokens > 0 && after != [] ==> Tokens(after) <= TokenLimit(mid, limitSize, limitTokens)
    ensures |after| < |mid| ==> Tokens(mid[|mid| - |after| - 1..]) > TokenLimit(mid, limitSize, limitTokens)
  {
    hide TokenLimit;
  }

  /** An update leaves no choice. */
  lemma UpdatedIsUnique(before: seq<Entry>, a: seq<Entry>, b: seq<Entry>, limitSize: nat, limitTokens: nat)
    requires Updated(before, a, limitSize, limitTokens) && Updated(before, b, limitSize, limitTokens)
    ensures a == b
  {
    hide TokenLimit, OldestDropped;
    var m :| WithinBytes(before, m, limitSize) && WithinTokens(m, a, limitSize, limitTokens);
    var n :| WithinBytes(before, n, limitSize) && WithinTokens(n, b, limitSize, limitTokens);
    if limitSize > 0 {
      FewestIsUnique(before, m, n, limitSize);
    }
  }

  ghost predicate Contained(states: seq<Entry>, tokens: seq<Token>) {
    exists i :: 0 <= i < |states| && tokens <= states[i].prompt.tokens
  }

  function Zeros(n: nat): (b: Bytes)
    ensures |b| == n
  {
    seq(n, i => 0)
  }

  /** A fresh entry; the caller fills its buffers. */
  function Blank(prompt: Prompt, sizeMain: nat, sizeDrft: nat): Entry {
    Entry(prompt, Zeros(sizeMain), Zeros(sizeDrft))
  }

  lemma BlankJoins(kept: seq<Entry>, prompt: Prompt, sizeMain: nat, sizeDrft: nat)
    requires PrefixFree(kept)
    requires forall i :: 0 <= i < |kept| ==>
      !(prompt.tokens <= kept[i].prompt.tokens) && !(kept[i].prompt.tokens <= prompt.tokens)
    ensures var all := kept + [Blank(prompt, sizeMain, sizeDrft)];
      PrefixFree(all) && Size(all) == Size(kept) + sizeMain + sizeDrft + Total(prompt.ckpts)
  {
    JoinPrefixFree(kept, Blank(prompt, sizeMain, sizeDrft));
    SizeAppend(kept, Blank(prompt, sizeMain, sizeDrft));
  }

  /** Room made for a new entry of this size. */
  ghost predicate RoomMade(states: seq<Entry>, tokens: seq<Token>, kept: seq<Entry>, limitSize: nat, size: nat) {
    if limitSize > 0 then OldestDropped(Survivors(states, tokens), kept, limitSize - size)
    else kept == Survivors(states, tokens)
  }

  lemma RoomIsMade(states: seq<Entry>, tokens: seq<Token>, kept: seq<Entry>, limitSize: nat, size: nat)
    requires if limitSize > 0 then OldestDropped(Survivors(states, tokens), kept, limitSize - size)
             else kept == Survivors(states, tokens)
    ensures RoomMade(states, tokens, kept, limitSize, size)
  {
  }

  /** The prompt is already in the cache, or would not fit even into an empty one. */
  ghost predicate Skipped(states: seq<Entry>, prompt: Prompt, data: nat, limitSize: nat) {
    Contained(states, prompt.tokens) || 0 < limitSize < data + Total(prompt.ckpts)
  }

  ghost predicate Stored(before: seq<Entry>, after: seq<Entry>, prompt: Prompt, sizeMain: nat, sizeDrft: nat,
                         limitSize: nat) {
    exists kept :: RoomMade(before, prompt.tokens, kept, limitSize, sizeMain + sizeDrft + Total(prompt.ckpts)) &&
      after == kept + [Blank(prompt, sizeMain, sizeDrft)]
  }

  /** Out of memory: the limit is cut to two fifths of what is cached, and enforced. */
  ghost predicate Shrunk(before: seq<Entry>, after: seq<Entry>, prompt: Prompt, data: nat,
                         limitSize: nat, newLimit: nat, limitTokens: nat)
  {
    exists kept :: RoomMade(before, prompt.tokens, kept, limitSize, data + Total(prompt.ckpts)) &&
      newLimit == Max(1, 2 * Size(kept) / 5) && Updated(kept, after, newLimit, limitTokens)
  }

  lemma RoomKeeps(states: seq<Entry>, tokens: seq<Token>, kept: seq<Entry>, limitSize: nat, size: nat)
    requires PrefixFree(states) && RoomMade(states, tokens, kept, limitSize, size)
    requires (limitSize > 0 ==> size <= limitSize)
    requires !Contained(states, tokens)
    ensures PrefixFree(kept) && (limitSize > 0 ==> Size(kept) + size <= limitSize)
    ensures forall i :: 0 <= i < |kept| ==> !(tokens <= kept[i].prompt.tokens) && !(kept[i].prompt.tokens <= tokens)
  {
    var s := Survivors(states, tokens);
    SurvivorsPrefixFree(states, tokens);
    SurvivorsOnly(states, tokens);
    if limitSize > 0 {
      var k: nat :| FewestDropped(s, kept, k, limitSize - size);
      SuffixPrefixFree(s, k);
    }
    forall i | 0 <= i < |kept| ensures !(tokens <= kept[i].prompt.tokens) && !(kept[i].prompt.tokens <= tokens) {
      assert kept[i] in s && kept[i] in states;
    }
  }

  /** Room for a new entry: without a limit only the entries it contains go; with one, also the oldest others, as many
      as must for the new one to fit. */
  lemma RoomCases(states: seq<Entry>, tokens: seq<Token>, kept: seq<Entry>, limitSize: nat, size: nat)
    requires RoomMade(states, tokens, kept, limitSize, size)
    ensures var s := Survivors(states, tokens);
      |kept| <= |s| && kept == s[|s| - |kept|..] && (limitSize == 0 ==> kept == s) &&
      (limitSize > 0 && kept != [] ==> Size(kept) + size <= limitSize) &&
      (|kept| < |s| ==> Size(s[|s| - |kept| - 1..]) + size > limitSize)
  {
    hide Survivors, Size;
  }

  /** The limit after a failed allocation: two fifths of what is cached, rounded down, but at least one byte. */
  lemma ShrunkCases(before: seq<Entry>, after: seq<Entry>, prompt: Prompt, data: nat, limitSize: nat, newLimit: nat,
                    limitTokens: nat)
    requires Shrunk(before, after, prompt, data, limitSize, newLimit, limitTokens)
    ensures exists kept ::
      RoomMade(before, prompt.tokens, kept, limitSize, data + Total(prompt.ckpts)) &&
      Updated(kept, after, newLimit, limitTokens) && newLimit >= 1 &&
      (newLimit == 1 || 5 * newLimit <= 2 * Size(kept)) && 5 * (newLimit + 1) > 2 * Size(kept)
  {
    hide RoomMade, Updated;
  }

  /** What a lookup ended with. */
  datatype Lookup = NoBetter | MainFailed(at: nat) | DraftFailed(at: nat) | Taken(at: nat)

  function Chosen(r: Lookup): int {
    if r.NoBetter? then -1 else r.at
  }

  /** How a lookup ends: no better entry; or the chosen one's main state, or else its draft state, is not restored; or
      it is taken.  Restoring an empty state always succeeds. */
  ghost predicate LookupOf(states: seq<Entry>, own: seq<Token>, wanted: seq<Token>, mainOk: bool, drftOk: bool,
                           r: Lookup)
  {
    ParetoChoice(states, own, wanted, Chosen(r)) &&
    (!r.NoBetter? ==>
      r == if states[r.at].main != [] && !mainOk then MainFailed(r.at)
           else if states[r.at].drft != [] && !drftOk then DraftFailed(r.at)
           else Taken(r.at))
  }

  /** The entries after a lookup: a taken entry is the only one removed; an entry whose draft state could not be
      restored stays, without the main state that was restored from it. */
  function After(states: seq<Entry>, r: Lookup): seq<Entry>
    requires Chosen(r) < |states|
  {
    match r
    case NoBetter => states
    case MainFailed(at) => states
    case DraftFailed(at) => states[at := states[at].(main := [])]
    case Taken(at) => states[..at] + states[at + 1..]
  }

  /** The choice and the four ends in full.  Only a restore that fails leaves the chosen entry, and only one whose draft
      state fails takes something from it. */
  lemma LookupCases(states: seq<Entry>, own: seq<Token>, wanted: seq<Token>, mainOk: bool, drftOk: bool, r: Lookup)
    requires LookupOf(states, own, wanted, mainOk, drftOk, r)
    ensures ParetoChoice(states, own, wanted, if r.NoBetter? then -1 else r.at)
    ensures r.NoBetter? ==> After(states, r) == states
    ensures r.MainFailed? ==> After(states, r) == states && states[r.at].main != [] && !mainOk
    ensures r.DraftFailed? ==>
      After(states, r) == states[r.at := states[r.at].(main := [])] && (states[r.at].main == [] || mainOk) &&
      states[r.at].drft != [] && !drftOk
    ensures r.Taken? ==>
      After(states, r) == states[..r.at] + states[r.at + 1..] && (states[r.at].main == [] || mainOk) &&
      (states[r.at].drft == [] || drftOk)
  {
    hide Unbeaten, Eligible, Beats, Keep, Sim, BaseKeep;
  }

  lemma FillKeepsPrefixFree(states: seq<Entry>, i: nat, e: Entry)
    requires i < |states| && e.prompt == states[i].prompt
    ensures PrefixFree(states) ==> PrefixFree(states[i := e])
  {
  }

  lemma AfterPrefixFree(states: seq<Entry>, r: Lookup)
    requires Chosen(r) < |states| && PrefixFree(states)
    ensures PrefixFree(After(states, r))
  {
  }

  lemma AfterSize(states: seq<Entry>, r: Lookup)
    requires Chosen(r) < |states|
    ensures Size(After(states, r)) <= Size(states)
  {
    match r
    case NoBetter =>
    case MainFailed(at) =>
    case DraftFailed(at) => SizeReplace(states, at, states[at].(main := []));
    case Taken(at) => SizeRemove(states, at);
  }

  class Cache {
    var states: seq<Entry>
    var limitSize: nat   // in bytes, 0 = no limit
    var limitTokens: nat // 0 = no limit

    ghost predicate Valid()
      reads this
    {
      PrefixFree(states) && (limitSize > 0 ==> Size(states) <= limitSize)
    }

    constructor (limitSizeMib: int, limitTokens: nat)
      ensures Valid() && states == [] && this.limitTokens == limitTokens
      ensures limitSize == if limitSizeMib < 0 then 0 else 1024 * 1024 * limitSizeMib
    {
      states := [];
      limitSize := 1024 * 1024 * (if limitSizeMib < 0 then 0 else limitSizeMib);
      this.limitTokens := limitTokens;
    }

    method TotalSize() returns (n: nat)
      ensures n == Size(states)
    {
      n := 0;
      for i := 0 to |states|
        invariant n == Size(states[..i])
      {
        SizeAppend(states[..i], states[i]);
        assert states[..i + 1] == states[..i] + [states[i]];
        n := n + SizeOf(states[i]);
      }
      assert states[..|states|] == states;
    }

    /** pop_front while the entries weigh more than budget. */
    method DropForBytes(budget: int)
      requires budget >= 0
      modifies this`states
      ensures OldestDropped(old(states), states, budget)
    {
      ghost var k: nat := 0;
      var size := TotalSize();
      while states != [] && size > budget
        invariant k <= |old(states)| && states == old(states)[k..] && size == Size(states)
        invariant forall j: nat :: j < k ==> Size(old(states)[j..]) > budget
        decreases |states|
      {
        states := states[1..];
        k := k + 1;
        size := TotalSize();
      }
      assert FewestDropped(old(states), states, k, budget);
    }

    method DropForTokens(budget: int)
      modifies this`states
      ensures OldestDroppedForTokens(old(states), states, budget)
    {
      ghost var k: nat := 0;
      while states != [] && Tokens(states) > budget
        invariant k <= |old(states)| && states == old(states)[k..]
        invariant forall i: nat :: i < k ==> Tokens(old(states)[i..]) > budget
        decreases |states|
      {
        states := states[1..];
        k := k + 1;
      }
      assert FewestForTokens(old(states), states, k, budget);
    }

    /** update */
    method Update()
      requires PrefixFree(states)
      modifies this`states
      ensures Valid() && Updated(old(states), states, limitSize, limitTokens)
    {
      hide PrefixFree, TokenLimit, OldestDropped, OldestDroppedForTokens;
      if limitSize > 0 {
        DropForBytes(limitSize);
      }
      ghost var mid := states;
      WithinBytesKeeps(old(states), mid, limitSize);
      if limitTokens > 0 {
        DropForTokens(TokenLimit(states, limitSize, limitTokens));
      }
      WithinTokensKeeps(mid, states, limitSize, limitTokens);
    }

    /** list::erase of the entries a new prompt contains */
    method DropContained(tokens: seq<Token>)
      modifies this`states
      ensures states == Survivors(old(states), tokens)
    {
      ghost var done: nat := 0;
      var i := 0;
      while i < |states|
        invariant i <= |states| && done <= |old(states)|
        invariant states == Survivors(old(states)[..done], tokens) + old(states)[done..]
        invariant i == |Survivors(old(states)[..done], tokens)|
        decreases |states| - i
      {
        var common := PromptSteps.CommonPrefix(states[i].prompt.tokens, tokens);
        CommonDecidesPrefix(states[i].prompt.tokens, tokens);
        SurvivorsStep(old(states), done, tokens);
        if common == |states[i].prompt.tokens| {
          states := states[..i] + states[i + 1..];
        } else {
          i := i + 1;
        }
        done := done + 1;
      }
      assert old(states)[..done] == old(states);
    }

    method Contains(tokens: seq<Token>) returns (found: bool)
      ensures found <==> Contained(states, tokens)
    {
      for i := 0 to |states|
        invariant forall j :: 0 <= j < i ==> !(tokens <= states[j].prompt.tokens)
      {
        var common := PromptSteps.CommonPrefix(states[i].prompt.tokens, tokens);
        CommonDecidesPrefix(states[i].prompt.tokens, tokens);
        if common == |tokens| { return true; }
      }
      found := false;
    }

    /** alloc.  memory says whether the new buffers could be allocated. */
    method Alloc(prompt: Prompt, sizeMain: nat, sizeDrft: nat, memory: bool) returns (ok: bool)
      requires Valid()
      modifies this
      ensures Valid() && limitTokens == old(limitTokens)
      ensures ok <==> memory && !Skipped(old(states), prompt, sizeMain + sizeDrft, old(limitSize))
      ensures ok <==>
        memory && (forall e :: e in old(states) ==> !(prompt.tokens <= e.prompt.tokens)) &&
        (old(limitSize) == 0 || sizeMain + sizeDrft + Total(prompt.ckpts) <= old(limitSize))
      ensures Skipped(old(states), prompt, sizeMain + sizeDrft, old(limitSize)) ==> states == old(states)
      ensures ok ==> Stored(old(states), states, prompt, sizeMain, sizeDrft, limitSize)
      ensures ok || Skipped(old(states), prompt, sizeMain + sizeDrft, old(limitSize)) ==> limitSize == old(limitSize)
      ensures !memory && !Skipped(old(states), prompt, sizeMain + sizeDrft, old(limitSize)) ==>
        Shrunk(old(states), states, prompt, sizeMain + sizeDrft, old(limitSize), limitSize, limitTokens)
    {
      hide PrefixFree, OldestDropped, Updated, RoomMade, Blank, Max;
      var contained := Contains(prompt.tokens);
      if contained { return false; }
      var size := sizeMain + sizeDrft + Total(prompt.ckpts);
      if limitSize > 0 && size > limitSize { return false; }
      DropContained(prompt.tokens);
      if limitSize > 0 {
        DropForBytes(limitSize - size);
      }
      ghost var kept := states;
      RoomIsMade(old(states), prompt.tokens, kept, limitSize, size);
      RoomKeeps(old(states), prompt.tokens, kept, limitSize, size);
      if !memory {
        var total := TotalSize();
        limitSize := Max(1, 2 * total / 5) as nat;
        Update();
        return false;
      }
      BlankJoins(kept, prompt, sizeMain, sizeDrft);
      states := states + [Blank(prompt, sizeMain, sizeDrft)];
      ok := true;
    }

    /** load.  The flags say whether restoring a state that is not empty consumed the whole buffer. */
    method Load(prompt: Prompt, wanted: seq<Token>, mainOk: bool, drftOk: bool)
      returns (r: Lookup, got: Prompt, main: Bytes, drft: Bytes)
      requires Valid()
      modifies this`states
      ensures Valid() && LookupOf(old(states), prompt.tokens, wanted, mainOk, drftOk, r)
      ensures states == After(old(states), r)
      ensures got == if r.Taken? then old(states)[r.at].prompt else prompt
      ensures r.Taken? ==> main == old(states)[r.at].main && drft == old(states)[r.at].drft
    {
      got, main, drft := prompt, [], [];
      var best := FindBest(states, prompt.tokens, wanted);
      if best == -1 { return NoBetter, got, main, drft; }
      var e := states[best];
      main, drft := e.main, e.drft;
      if main != [] && !mainOk { return MainFailed(best), got, main, drft; }
      AfterPrefixFree(states, DraftFailed(best));
      AfterSize(states, DraftFailed(best));
      AfterPrefixFree(states, Taken(best));
      AfterSize(states, Taken(best));
      states := states[best := e.(main := [])];
      if e.drft != [] && !drftOk { return DraftFailed(best), got, main, drft; }
      states := states[..best] + states[best + 1..];
      got := e.prompt;
      assert states == After(old(states), Taken(best));
      r := Taken(best);
    }
  }

  // ---- a slot that trades its prompt with the cache ----

  /** The slot's prompt, and what its sequence holds in the two contexts. */
  datatype Seat = Seat(prompt: Prompt, main: Bytes, drft: Bytes)

  /** The state a context saves for a sequence holding these tokens; without a draft context there is none. */
  datatype Images = Images(main: seq<Token> -> Bytes, drft: seq<Token> -> Bytes)

  ghost predicate Sane(im: Images) {
    (forall t :: im.main(t) != []) && ((forall t :: im.drft(t) == []) || (forall t :: im.drft(t) != []))
  }

  /** There are such states, with a draft context and without one. */
  lemma SaneImages()
    ensures var main := (t: seq<Token>) => [1] + t;
      Sane(Images(main, t => [])) && Sane(Images(main, t => [2])) && Telling(Images(main, t => []))
  {
    var main := (t: seq<Token>) => [1] + t;
    forall s: seq<Token>, t: seq<Token> | main(s) == main(t) ensures s == t {
      assert s == main(s)[1..] && t == main(t)[1..];
    }
  }

  /** The contexts hold what the token list claims. */
  predicate InStep(seat: Seat, im: Images) {
    seat.main == im.main(seat.prompt.tokens) && seat.drft == im.drft(seat.prompt.tokens)
  }

  /** The entry can give a slot what its token list claims. */
  predicate IsWhole(e: Entry, im: Images) {
    e.main == im.main(e.prompt.tokens) && e.drft == im.drft(e.prompt.tokens)
  }

  ghost predicate AllWhole(states: seq<Entry>, im: Images) {
    forall i :: 0 <= i < |states| ==> IsWhole(states[i], im)
  }

  /** What a failed draft restore leaves: the main state is gone. */
  predicate IsEmptied(e: Entry, im: Images) {
    e.main == [] && e.drft == im.drft(e.prompt.tokens)
  }

  /** Every entry is whole or emptied. */
  ghost predicate Kept(states: seq<Entry>, im: Images) {
    forall i :: 0 <= i < |states| ==> IsWhole(states[i], im) || IsEmptied(states[i], im)
  }

  /** Different prompts leave different main states. */
  ghost predicate Telling(im: Images) {
    forall s, t :: im.main(s) == im.main(t) ==> s == t
  }

  /** Restoring an image replaces what the sequence held; restoring nothing succeeds and changes nothing. */
  function Restored(data: Bytes, held: Bytes): Bytes {
    if data == [] then held else data
  }

  /** prompt_save: a copy of the slot's state becomes the newest entry. */
  method Save(cache: Cache, seat: Seat, memory: bool) returns (ok: bool)
    requires cache.Valid()
    modifies cache
    ensures cache.Valid() && cache.limitTokens == old(cache.limitTokens)
    ensures var data := |seat.main| + |seat.drft|;
      ok == (memory && seat.prompt.tokens != [] && !Skipped(old(cache.states), seat.prompt, data, old(cache.limitSize)))
    ensures ok ==> cache.states != [] && cache.states[|cache.states| - 1] == Entry(seat.prompt, seat.main, seat.drft)
    ensures forall e :: e in cache.states ==> e in old(cache.states) || e == Entry(seat.prompt, seat.main, seat.drft)
  {
    hide PrefixFree, Stored, Shrunk, Skipped;
    if seat.prompt.tokens == [] { return false; }
    ghost var before, limit := cache.states, cache.limitSize;
    ok := cache.Alloc(seat.prompt, |seat.main|, |seat.drft|, memory);
    AllocOnlyDrops(before, cache.states, seat.prompt, |seat.main|, |seat.drft|,
                 limit, cache.limitSize, cache.limitTokens, ok);
    if !ok { return; }
    var last := |cache.states| - 1;
    var e := Entry(seat.prompt, seat.main, seat.drft);
    SizeReplace(cache.states, last, e);
    FillKeepsPrefixFree(cache.states, last, e);
    cache.states := cache.states[last := e];
  }

  /** Every entry after alloc was there before, except the blank at the end. */
  lemma AllocOnlyDrops(before: seq<Entry>, after: seq<Entry>, prompt: Prompt, sizeMain: nat, sizeDrft: nat,
                       limit: nat, newLimit: nat, limitTokens: nat, ok: bool)
    requires !ok ==> after == before || Shrunk(before, after, prompt, sizeMain + sizeDrft, limit, newLimit, limitTokens)
    requires ok ==> Stored(before, after, prompt, sizeMain, sizeDrft, limit)
    ensures ok ==> after != [] && after[|after| - 1] == Blank(prompt, sizeMain, sizeDrft)
    ensures !ok ==> forall e :: e in after ==> e in before
    ensures ok ==> forall i :: 0 <= i < |after| - 1 ==> after[i] in before
  {
    hide RoomMade, Updated, Max, Size;
    var size := sizeMain + sizeDrft + Total(prompt.ckpts);
    if ok {
      var kept :| RoomMade(before, prompt.tokens, kept, limit, size) &&
        after == kept + [Blank(prompt, sizeMain, sizeDrft)];
      RoomOnlyDrops(before, prompt.tokens, kept, limit, size);
    } else if after != before {
      var kept :| RoomMade(before, prompt.tokens, kept, limit, size) && Updated(kept, after, newLimit, limitTokens);
      RoomOnlyDrops(before, prompt.tokens, kept, limit, size);
      UpdateOnlyDrops(kept, after, newLimit, limitTokens);
    }
  }

  lemma RoomOnlyDrops(states: seq<Entry>, tokens: seq<Token>, kept: seq<Entry>, limitSize: nat, size: nat)
    requires RoomMade(states, tokens, kept, limitSize, size)
    ensures forall e :: e in kept ==> e in states
  {
    SurvivorsOnly(states, tokens);
  }

  lemma UpdateOnlyDrops(before: seq<Entry>, after: seq<Entry>, limitSize: nat, limitTokens: nat)
    requires Updated(before, after, limitSize, limitTokens)
    ensures forall e :: e in after ==> e in before
  {
  }

  /** A lookup leaves every entry whole exactly when no entry beats the slot's own prompt, or the main state is not
      restored, or the draft state is, or there is no draft context. */
  lemma AfterWhole(states: seq<Entry>, own: seq<Token>, wanted: seq<Token>, mainOk: bool, drftOk: bool, r: Lookup,
                   im: Images)
    requires LookupOf(states, own, wanted, mainOk, drftOk, r) && AllWhole(states, im) && Sane(im)
    ensures AllWhole(After(states, r), im) <==>
      Unbeaten(states, wanted, BaseKeep(own, wanted), Sim(own, wanted)) || !mainOk || drftOk || im.drft([]) == []
  {
    hide Unbeaten, Eligible, Beats, Keep, Sim;
    if r.DraftFailed? {
      assert After(states, r)[r.at].main == [];
    }
  }

  /** A lookup only empties or takes an entry. */
  lemma AfterKept(states: seq<Entry>, r: Lookup, im: Images)
    requires Chosen(r) < |states| && Kept(states, im)
    ensures Kept(After(states, r), im)
    ensures !r.DraftFailed? && AllWhole(states, im) ==> AllWhole(After(states, r), im)
  {
  }

  lemma FewerKept(before: seq<Entry>, after: seq<Entry>, im: Images)
    requires forall e :: e in after ==> e in before
    ensures Kept(before, im) ==> Kept(after, im)
    ensures AllWhole(before, im) ==> AllWhole(after, im)
  {
    forall i | 0 <= i < |after|
      ensures Kept(before, im) ==> IsWhole(after[i], im) || IsEmptied(after[i], im)
      ensures AllWhole(before, im) ==> IsWhole(after[i], im)
    {
      assert after[i] in after;
    }
  }

  /** A better entry shares more with the new prompt. */
  lemma BetterSharesMore(e: Entry, own: seq<Token>, wanted: seq<Token>)
    requires Less(Sim(own, wanted), Sim(e.prompt.tokens, wanted))
    ensures Common(own, wanted) < Common(e.prompt.tokens, wanted)
  {
    hide Common;
    var a, b, d := Common(own, wanted) as real, Common(e.prompt.tokens, wanted) as real, |wanted| as real;
    assert a / d < b / d && d > 0.0;
    assert a == (a / d) * d && b == (b / d) * d;
  }

  /** The exchange when a slot is given a new request: save its prompt, load a better one or, when a restore fails,
      clear the slot, and enforce the limits.  seen is what the lookup saw, entries emptied before included.  The slot's
      tokens and its contexts agree again, whichever restore fails, exactly when it did not take an emptied entry. */
  method Swap(cache: Cache, seat: Seat, wanted: seq<Token>, memory: bool, mainOk: bool, drftOk: bool, im: Images)
    returns (seat': Seat, r: Lookup, ghost seen: seq<Entry>)
    requires cache.Valid() && Sane(im) && InStep(seat, im) && Kept(cache.states, im)
    modifies cache
    ensures cache.Valid() && Kept(cache.states, im) && LookupOf(seen, seat.prompt.tokens, wanted, mainOk, drftOk, r)
    ensures forall e :: e in seen ==> e in old(cache.states) || e == Entry(seat.prompt, seat.main, seat.drft)
    ensures !(r.Taken? && seen[r.at].main == []) ==> InStep(seat', im)
    ensures Telling(im) ==> (InStep(seat', im) <==> !(r.Taken? && seen[r.at].main == []))
    ensures r.NoBetter? ==> seat' == seat
    ensures r.MainFailed? || r.DraftFailed? ==> seat'.prompt == Prompt([], [])
    ensures r.Taken? ==>
      seat'.prompt == seen[r.at].prompt && Common(seat'.prompt.tokens, wanted) > Common(seat.prompt.tokens, wanted)
    ensures AllWhole(old(cache.states), im) && !r.DraftFailed? ==> AllWhole(cache.states, im)
  {
    hide PrefixFree, Updated, Common, Sane, AllWhole, Kept, Telling, ParetoChoice;
    ghost var before := cache.states;
    var saved := Save(cache, seat, memory);
    seen := cache.states;
    SavedKept(before, seen, seat, im);
    var got: Prompt, main: Bytes, drft: Bytes;
    r, got, main, drft := cache.Load(seat.prompt, wanted, mainOk, drftOk);
    ChosenIsBetter(seen, seat.prompt.tokens, wanted, Chosen(r));
    AfterKept(seen, r, im);
    ghost var left := cache.states;
    match r {
      case NoBetter => seat' := seat;
      case MainFailed(at) => seat' := Seat(Prompt([], []), im.main([]), im.drft([]));
      case DraftFailed(at) => seat' := Seat(Prompt([], []), im.main([]), im.drft([]));
      case Taken(at) =>
        seat' := Seat(got, Restored(main, seat.main), Restored(drft, seat.drft));
        TakenInStep(seen, at, seat, im);
    }
    cache.Update();
    UpdateOnlyDrops(left, cache.states, cache.limitSize, cache.limitTokens);
    FewerKept(left, cache.states, im);
  }

  lemma SavedKept(before: seq<Entry>, after: seq<Entry>, seat: Seat, im: Images)
    requires Kept(before, im) && InStep(seat, im)
    requires forall e :: e in after ==> e in before || e == Entry(seat.prompt, seat.main, seat.drft)
    ensures Kept(after, im) && (AllWhole(before, im) ==> AllWhole(after, im))
  {
    forall i | 0 <= i < |after|
      ensures IsWhole(after[i], im) || IsEmptied(after[i], im)
      ensures AllWhole(before, im) ==> IsWhole(after[i], im)
    {
      assert after[i] in after;
    }
  }

  /** The entry a lookup finds shares more with the new prompt than the slot's own. */
  lemma ChosenIsBetter(states: seq<Entry>, own: seq<Token>, wanted: seq<Token>, best: int)
    requires ParetoChoice(states, own, wanted, best)
    ensures -1 <= best < |states|
    ensures best != -1 ==> Common(own, wanted) < Common(states[best].prompt.tokens, wanted)
  {
    hide Common, Keep, BaseKeep, Unbeaten, Eligible;
    if best != -1 {
      BetterSharesMore(states[best], own, wanted);
    }
  }

  lemma TakenInStep(states: seq<Entry>, at: nat, seat: Seat, im: Images)
    requires at < |states| && Kept(states, im) && Sane(im) && InStep(seat, im)
    ensures var e := states[at];
      var next := Seat(e.prompt, Restored(e.main, seat.main), Restored(e.drft, seat.drft));
      (e.main != [] ==> InStep(next, im)) &&
      (Telling(im) && e.prompt.tokens != seat.prompt.tokens ==> (InStep(next, im) <==> e.main != []))
  {
  }

  /** A run in which a failed draft restore misleads a later request: the entry stays without its main state, wins
      the next lookup, and the slot then claims its tokens although the main context was not touched. */
  lemma GuttedEntryMisleads(held: Bytes)
    ensures var e := Entry(Prompt([7, 8], []), [1, 2], [3]);
      var left := After([e], DraftFailed(0));
      ParetoChoice([e], [5], [7, 8, 9], 0) && ParetoChoice(left, [5], [7, 8, 9], 0) &&
      left[0].prompt.tokens == [7, 8] && Restored(left[0].main, held) == held
  {
    assert Common([7, 8], [7, 8, 9]) == 2 by { CommonDecidesPrefix([7, 8], [7, 8, 9]); }
    assert Common([5], [7, 8, 9]) == 0;
  }
}
