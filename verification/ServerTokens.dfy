/** server_tokens (server-common.cpp): conversion between entries and positions, common prefix, truncation,
    and the check that accepts a list. */
module ServerTokens {
  import opened MediaTokens

  /** What the positions add up to over the map: entries plus, for each chunk, positions minus entries. */
  function DeltaBelow(media: Media, n: nat): int {
    if n == 0 then 0
    else DeltaBelow(media, n - 1) + (if n - 1 in media then media[n - 1].nPos - media[n - 1].nTokens else 0)
  }

  lemma {:induction false} DeltaSkips(media: Media, m: nat, n: nat)
    requires m <= n && forall k :: m <= k < n ==> k !in media
    ensures DeltaBelow(media, n) == DeltaBelow(media, m)
    decreases n
  {
    if m < n {
      DeltaSkips(media, m, n - 1);
    }
  }

  /** The closed form of pos_next agrees with the walk at every bound. */
  lemma {:induction false} ClosedForm(tokens: seq<Token>, media: Media, i: nat, n: nat)
    requires Tiled(tokens, media) && i <= n <= |tokens| && Bound(media, i) && Bound(media, n)
    requires PosBefore(media, i) == i + DeltaBelow(media, i)
    ensures PosBefore(media, n) == n + DeltaBelow(media, n)
    decreases n - i
  {
    if i < n {
      UnitEnds(tokens, media, i);
      var e := i + UnitLen(media, i);
      PosAfterUnit(tokens, media, i, e);
      DeltaSkips(media, i + 1, e);
      ClosedForm(tokens, media, e, n);
    }
  }

  /** The next position after n entries, as pos_next promises it at a bound. */
  lemma PosNextOfAll(tokens: seq<Token>, media: Media)
    requires Tiled(tokens, media)
    ensures PosBefore(media, |tokens|) == |tokens| + DeltaBelow(media, |tokens|)
  {
    EndIsBound(tokens, media);
    ClosedForm(tokens, media, 0, |tokens|);
  }

  lemma SomeKey(s: set<nat>)
    ensures s == {} || exists k: nat :: k in s
  {
  }

  /** Least key of the rest: std::map is walked in key order. */
  method FirstKey(rest: set<nat>) returns (k: nat)
    requires rest != {}
    ensures k in rest && forall j :: j in rest ==> k <= j
  {
    SomeKey(rest);
    k :| k in rest;
    var left := rest - {k};
    while left != {}
      invariant k in rest && left <= rest && forall j :: j in rest && j !in left ==> k <= j
      decreases left
    {
      SomeKey(left);
      var j: nat :| j in left;
      if j < k { k := j; }
      left := left - {j};
    }
  }

  /** Entries before n agree, media by id and length. */
  ghost predicate SamePrefix(a: seq<Token>, ma: Media, b: seq<Token>, mb: Media, n: nat) {
    n <= |a| && n <= |b| && Bound(ma, n) && Bound(mb, n) &&
    forall i: nat :: i < n ==> a[i] == b[i] && SameChunk(ma, mb, i)
  }

  predicate SameChunk(ma: Media, mb: Media, i: nat) {
    (i in ma <==> i in mb) && (i in ma ==> ma[i].id == mb[i].id && ma[i].nTokens == mb[i].nTokens)
  }

  class Tokens {
    var hasMtmd: bool
    var tokens: seq<Token>
    var media: Media

    ghost predicate Valid()
      reads this
    {
      Tiled(tokens, media) && (!hasMtmd ==> media == map[])
    }

    /** pos_next: n < 0 asks for the position after all entries. */
    method PosNext(n: int) returns (pos: int)
      requires Valid() && (hasMtmd ==> n <= |tokens|)
      ensures !hasMtmd ==> pos == if n < 0 then |tokens| else n
      ensures n <= |tokens| ==> pos == PosBefore(media, if n < 0 then |tokens| else n)
    {
      PosNextOfAll(tokens, media);
      if !hasMtmd {
        if n <= |tokens| {
          ClosedFormWithoutMedia(tokens, media, if n < 0 then |tokens| else n);
        }
        return if n < 0 then |tokens| else n;
      }
      if n < 0 {
        pos := |tokens|;
        var rest := media.Keys;
        ghost var k0: nat := 0;
        while rest != {}
          invariant rest <= media.Keys && pos == |tokens| + DeltaBelow(media, k0)
          invariant forall k :: k in media ==> (k in rest <==> k0 <= k)
          invariant k0 <= |tokens|
          decreases rest
        {
          var k := FirstKey(rest);
          assert ChunkFits(tokens, k, media[k]);
          DeltaSkips(media, k0, k);
          pos := pos + media[k].nPos - media[k].nTokens;
          rest := rest - {k};
          k0 := k + 1;
        }
        assert forall k: nat | k in media :: k < |tokens| by {
          forall k: nat | k in media ensures k < |tokens| { assert ChunkFits(tokens, k, media[k]); }
        }
        DeltaSkips(media, k0, |tokens|);
        return;
      }
      EndIsBound(tokens, media);
      var idx: nat := 0;
      pos := 0;
      while idx < n
        invariant idx <= |tokens| && Bound(media, idx) && pos == PosBefore(media, idx)
        invariant idx >= n ==> pos == PosBefore(media, n)
        decreases |tokens| - idx
      {
        UnitEnds(tokens, media, idx);
        PosAfterUnit(tokens, media, idx, idx + UnitLen(media, idx));
        if idx + UnitLen(media, idx) >= n {
          PosAfterUnit(tokens, media, idx, n);
        }
        if idx in media {
          pos, idx := pos + media[idx].nPos, idx + media[idx].nTokens;
        } else {
          pos, idx := pos + 1, idx + 1;
        }
      }
    }

    /** size_up_to_pos.  Counts the entries positioned before maxPos, exactly when maxPos is at least 1 (or the
        list is empty): for smaller values the first unit is counted as well. */
    method SizeUpToPos(maxPos: int) returns (n: nat)
      requires Valid()
      ensures n <= |tokens| && Bound(media, n)
      ensures hasMtmd ==> (CountsBelow(tokens, media, maxPos, n) <==> maxPos >= 1 || tokens == [])
      ensures !hasMtmd ==> (CountsBelow(tokens, media, maxPos, n) <==> maxPos >= 0 || tokens == [])
    {
      if !hasMtmd {
        // a negative position wraps to a huge size_t
        n := if maxPos < 0 || maxPos > |tokens| then |tokens| else maxPos;
        PlainCount(tokens, media, maxPos, n);
        return;
      }
      EndIsBound(tokens, media);
      n := 0;
      var pos := 0;
      while n < |tokens|
        invariant n <= |tokens| && Bound(media, n) && pos == PosBefore(media, n)
        invariant n > 0 ==> pos < maxPos
        invariant maxPos >= 1 ==> pos < maxPos
        invariant forall i: nat :: i < n ==> maxPos >= 1 ==> PosOf(media, i) < maxPos
        decreases |tokens| - n
      {
        ghost var before := n;
        UnitEnds(tokens, media, n);
        PosAfterUnit(tokens, media, n, n + UnitLen(media, n));
        if n in media {
          pos, n := pos + media[n].nPos, n + media[n].nTokens;
        } else {
          pos, n := pos + 1, n + 1;
        }
        forall i: nat | before <= i < n ensures PosOf(media, i) == PosBefore(media, before) {
          UnitStartInside(tokens, media, before, i);
        }
        if pos >= maxPos {
          break;
        }
      }
      CountedAtExit(tokens, media, maxPos, n);
    }

    /** get_common_prefix: a bound of both lists, and the longest such match.  Chunk lookups only happen where a
        chunk starts, so they cannot fail. */
    method CommonPrefix(b: Tokens) returns (n: nat)
      requires Valid() && b.Valid()
      ensures SamePrefix(tokens, media, b.tokens, b.media, n)
      ensures forall m: nat :: SamePrefix(tokens, media, b.tokens, b.media, m) ==> m <= n
      ensures n <= |tokens| && n <= |b.tokens| && tokens[..n] == b.tokens[..n]
      ensures forall i: nat :: i < n ==>
        (i in media <==> i in b.media) &&
        (i in media ==> media[i].id == b.media[i].id && media[i].nTokens == b.media[i].nTokens)
      ensures n < |tokens| && n < |b.tokens| ==>
        tokens[n] != b.tokens[n] ||
        (n in media && n in b.media && (media[n].id != b.media[n].id || media[n].nTokens != b.media[n].nTokens))
    {
      var maxIdx := if |tokens| < |b.tokens| then |tokens| else |b.tokens|;
      EndIsBound(tokens, media);
      EndIsBound(b.tokens, b.media);
      n := 0;
      while n < maxIdx
        invariant n <= maxIdx && SamePrefix(tokens, media, b.tokens, b.media, n)
        decreases maxIdx - n
      {
        var ai, bi := tokens[n], b.tokens[n];
        NullStartsChunk(tokens, media, n);
        NullStartsChunk(b.tokens, b.media, n);
        UnitEnds(tokens, media, n);
        UnitEnds(b.tokens, b.media, n);
        if hasMtmd && ai == NULL_TOKEN && bi == NULL_TOKEN {
          assert n in media && n in b.media; // find_chunk cannot throw
          if media[n].id == b.media[n].id && media[n].nTokens == b.media[n].nTokens {
            SameUnit(tokens, media, b.tokens, b.media, n);
            n := n + media[n].nTokens;
            continue;
          }
          break;
        }
        if ai == bi {
          n := n + 1;
          continue;
        }
        break;
      }
      SameChunks(tokens, media, b.tokens, b.media, n);
    }

    /** keep_first.  It refuses to cut where both neighbours are NULL, unless the entry before is a chunk start. */
    method KeepFirst(n: nat) returns (ok: bool)
      requires n <= |tokens|
      modifies this
      ensures ok <==> !Refuses(old(hasMtmd), old(tokens), old(media), n)
      ensures hasMtmd == old(hasMtmd)
      ensures ok ==> tokens == old(tokens)[..n]
      ensures ok ==> media == if hasMtmd && n != |old(tokens)| then KeysBelow(old(media), n) else old(media)
      ensures !ok ==> tokens == old(tokens) && media == old(media)
    {
      ok := true;
      if hasMtmd {
        if n == |tokens| {
          assert tokens[..n] == tokens;
          return;
        }
        if n > 0 && tokens[n - 1] == NULL_TOKEN && tokens[n] == NULL_TOKEN && n - 1 !in media {
          return false; // find_chunk throws
        }
        media := map k: nat | k in media && k < n :: media[k];
      }
      tokens := tokens[..n];
    }

    /** push_back of one text token; NULL is refused. */
    method PushToken(tok: Token) returns (ok: bool)
      requires Valid()
      modifies this
      ensures Valid() && hasMtmd == old(hasMtmd) && media == old(media)
      ensures ok <==> tok != NULL_TOKEN
      ensures tokens == if ok then old(tokens) + [tok] else old(tokens)
    {
      if tok == NULL_TOKEN { return false; }
      TiledPush(tokens, media, tok);
      tokens := tokens + [tok];
      ok := true;
    }

    /** push_back of a media chunk: NULL entries, and the chunk at their start. */
    method PushChunk(c: Chunk)
      requires Valid() && hasMtmd && !c.isText && c.nTokens > 0 && c.nPos > 0
      modifies this
      ensures Valid() && hasMtmd == old(hasMtmd)
      ensures media == old(media)[|old(tokens)| := c]
      ensures tokens == old(tokens) + seq(c.nTokens, i => NULL_TOKEN)
    {
      var start := |tokens|;
      ghost var before := tokens;
      for i := 0 to c.nTokens
        invariant tokens == before + seq(i, j => NULL_TOKEN)
        invariant media == old(media) && hasMtmd == old(hasMtmd)
      {
        tokens := tokens + [NULL_TOKEN];
      }
      TiledPushChunk(before, media, c);
      media := media[start := c];
    }

    /** validate: text ids in range, and the NULL entries tiled by the map. */
    method Validate(nVocab: int) returns (ok: bool)
      ensures ok <==>
        Tiled(tokens, media) && forall i :: 0 <= i < |tokens| && tokens[i] != NULL_TOKEN ==> 0 <= tokens[i] < nVocab
    {
      hide Checked, Tiled;
      var i: nat := 0;
      ghost var seen: set<nat> := {};
      var nMedia := 0;
      NothingChecked(tokens, media, nVocab);
      while i < |tokens|
        invariant i <= |tokens| && nMedia == |seen|
        invariant Checked(tokens, media, nVocab, i, seen)
        decreases |tokens| - i
      {
        var t := tokens[i];
        if t == NULL_TOKEN {
          if i !in media { NotTiledAt(tokens, media, nVocab, i, seen); return false; }
          var c := media[i];
          if c.isText { NotFitting(tokens, media, i); return false; }
          if c.nTokens == 0 || c.nPos <= 0 || c.nTokens > |tokens| - i { NotFitting(tokens, media, i); return false; }
          for j := i to i + c.nTokens
            invariant forall l :: i <= l < j ==> tokens[l] == NULL_TOKEN
          {
            if tokens[j] != NULL_TOKEN { NotFitting(tokens, media, i); return false; }
          }
          CheckedChunk(tokens, media, nVocab, i, seen);
          nMedia := nMedia + 1;
          seen := seen + {i};
          i := i + c.nTokens;
        } else {
          if t < 0 || t >= nVocab { return false; }
          CheckedText(tokens, media, nVocab, i, seen);
          i := i + 1;
        }
      }
      AllChecked(tokens, media, nVocab, seen);
      ok := nMedia == |media|;
    }
  }

  lemma CountedAtExit(tokens: seq<Token>, media: Media, p: int, n: nat)
    requires Tiled(tokens, media) && n <= |tokens| && Bound(media, n) && (n > 0 || tokens == [])
    requires n == |tokens| || p <= PosBefore(media, n)
    requires forall i: nat :: i < n ==> p >= 1 ==> PosOf(media, i) < p
    ensures CountsBelow(tokens, media, p, n) <==> p >= 1 || tokens == []
  {
    BoundCountsItself(tokens, media, n);
    EndIsBound(tokens, media);
    if tokens != [] {
      assert PosOf(media, 0) == 0;
    }
  }

  lemma SameChunks(a: seq<Token>, ma: Media, b: seq<Token>, mb: Media, n: nat)
    requires SamePrefix(a, ma, b, mb, n)
    ensures forall i: nat :: i < n ==>
      (i in ma <==> i in mb) && (i in ma ==> ma[i].id == mb[i].id && ma[i].nTokens == mb[i].nTokens)
  {
    forall i: nat | i < n
      ensures (i in ma <==> i in mb) && (i in ma ==> ma[i].id == mb[i].id && ma[i].nTokens == mb[i].nTokens)
    {
      assert SameChunk(ma, mb, i);
    }
  }

  /** A whole chunk matches: every entry of it is NULL on both sides and no other chunk starts inside. */
  lemma SameUnit(a: seq<Token>, ma: Media, b: seq<Token>, mb: Media, n: nat)
    requires Tiled(a, ma) && Tiled(b, mb) && SamePrefix(a, ma, b, mb, n)
    requires n < |a| && n < |b| && n in ma && n in mb && SameChunk(ma, mb, n)
    ensures n + ma[n].nTokens <= |a| && n + ma[n].nTokens <= |b| && SamePrefix(a, ma, b, mb, n + ma[n].nTokens)
  {
    UnitEnds(a, ma, n);
    UnitEnds(b, mb, n);
    assert ChunkFits(a, n, ma[n]) && ChunkFits(b, n, mb[n]);
  }

  predicate Refuses(hasMtmd: bool, tokens: seq<Token>, media: Media, n: nat)
    requires n <= |tokens|
  {
    hasMtmd && 0 < n < |tokens| && tokens[n - 1] == NULL_TOKEN && tokens[n] == NULL_TOKEN && n - 1 !in media
  }

  function KeysBelow(media: Media, n: nat): Media {
    map k: nat | k in media && k < n :: media[k]
  }

  /** Truncating a list at n leaves a tiled list exactly when n is a bound; its positions stay what they were. */
  lemma TruncatedTiled(tokens: seq<Token>, media: Media, n: nat)
    requires Tiled(tokens, media) && n <= |tokens|
    ensures Tiled(tokens[..n], KeysBelow(media, n)) <==> Bound(media, n)
    ensures PosBefore(KeysBelow(media, n), n) == PosBefore(media, n)
  {
    var t, m := tokens[..n], KeysBelow(media, n);
    forall k: nat | Bound(media, n) && k in m ensures ChunkFits(t, k, m[k]) && Bound(m, k) {
      assert ChunkFits(tokens, k, media[k]) && Bound(media, k) && !Covers(media, k, n);
      assert forall j: nat :: Covers(m, j, k) ==> Covers(media, j, k);
    }
    forall i: nat | i < n && t[i] == NULL_TOKEN ensures exists k: nat :: Covers(m, k, i) {
      var k: nat :| Covers(media, k, i);
      assert Covers(m, k, i);
    }
    forall k: nat | Tiled(t, m) && Covers(media, k, n) ensures k == n {
      assert k in m ==> ChunkFits(t, k, m[k]);
    }
    SamePosBefore(media, n, n);
  }

  lemma {:induction false} SamePosBefore(media: Media, n: nat, i: nat)
    requires i <= n
    ensures PosBefore(KeysBelow(media, n), i) == PosBefore(media, i)
    decreases i
  {
    if i > 0 {
      SamePosBefore(media, n, i - 1);
      var j := i - 1;
      assert Bound(KeysBelow(media, n), j) <==> Bound(media, j) by {
        assert forall k: nat :: Covers(media, k, j) <==> Covers(KeysBelow(media, n), k, j);
      }
    }
  }

  /** What a caller of keep_first can check: not between two media entries, or right after a one-token chunk. */
  predicate CleanCut(tokens: seq<Token>, media: Media, n: nat)
    requires n <= |tokens|
  {
    n == 0 || n == |tokens| || tokens[n - 1] != NULL_TOKEN || tokens[n] != NULL_TOKEN ||
    (n - 1 in media && media[n - 1].nTokens == 1)
  }

  /** keep_first succeeds with a tiled list exactly at clean cuts. */
  lemma KeepFirstExact(tokens: seq<Token>, media: Media, n: nat)
    requires Tiled(tokens, media) && n <= |tokens|
    ensures !Refuses(true, tokens, media, n) && Tiled(tokens[..n], KeysBelow(media, n)) <==> CleanCut(tokens, media, n)
  {
    TruncatedTiled(tokens, media, n);
    EndIsBound(tokens, media);
    if 0 < n < |tokens| {
      InsideIsNull(tokens, media, n);
      if n - 1 in media {
        assert ChunkFits(tokens, n - 1, media[n - 1]);
        UnitEnds(tokens, media, n - 1);
      }
    }
  }

  /** Strictly inside a chunk both neighbours are NULL. */
  lemma InsideIsNull(tokens: seq<Token>, media: Media, n: nat)
    requires Tiled(tokens, media) && 0 < n < |tokens|
    ensures Bound(media, n) || (tokens[n - 1] == NULL_TOKEN && tokens[n] == NULL_TOKEN)
  {
  }

  /** Meant to refuse exactly the cuts inside a chunk, keep_first misjudges exactly two kinds of cuts: one entry
      into a chunk of two or more it does not refuse, and after such a chunk, before another one, it does. */
  lemma KeepFirstMisjudges(tokens: seq<Token>, media: Media, n: nat)
    requires Tiled(tokens, media) && 0 < n < |tokens|
    ensures !Bound(media, n) && !Refuses(true, tokens, media, n) <==> n - 1 in media && media[n - 1].nTokens >= 2
    ensures Bound(media, n) && Refuses(true, tokens, media, n) <==>
      n in media && tokens[n - 1] == NULL_TOKEN && n - 1 !in media
  {
    InsideIsNull(tokens, media, n);
    if Bound(media, n) {
      NullStartsChunk(tokens, media, n);
    }
    if n - 1 in media {
      UnitEnds(tokens, media, n - 1);
    }
  }

  /** The example of keep_first: five text tokens and two images, of three and two entries. */
  lemma KeepFirstExample(media: Media, a: Chunk, b: Chunk)
    requires media == map[5 := a, 8 := b] && a.nTokens == 3 && b.nTokens == 2 && a.nPos > 0 && b.nPos > 0
    requires !a.isText && !b.isText
    ensures var t := [0, 1, 2, 3, 4, -1, -1, -1, -1, -1];
      Tiled(t, media) &&
      !Refuses(true, t, media, 6) && !Tiled(t[..6], KeysBelow(media, 6)) && // documented as refused
      Refuses(true, t, media, 8) && Tiled(t[..8], KeysBelow(media, 8))      // documented as allowed
  {
    var t := [0, 1, 2, 3, 4, -1, -1, -1, -1, -1];
    forall i: nat | i < |t| && t[i] == NULL_TOKEN ensures exists k: nat :: Covers(media, k, i) {
      assert Covers(media, 5, i) || Covers(media, 8, i);
    }
    KeepFirstExact(t, media, 6);
    TruncatedTiled(t, media, 6);
    TruncatedTiled(t, media, 8);
    assert Covers(media, 5, 6);
  }

  /** size_up_to_pos inverts pos_next at every bound but 0. */
  lemma PositionRoundTrip(tokens: seq<Token>, media: Media, n: nat, m: nat)
    requires Tiled(tokens, media) && 0 < n <= |tokens| && Bound(media, n)
    ensures PosBefore(media, n) >= 1
    ensures CountsBelow(tokens, media, PosBefore(media, n), m) <==> m == n
  {
    EndIsBound(tokens, media);
    PosGrows(tokens, media, 0, n);
    BoundCountsItself(tokens, media, n);
    if CountsBelow(tokens, media, PosBefore(media, n), m) {
      CountIsUnique(tokens, media, PosBefore(media, n), m, n);
    }
  }

  lemma TiledPush(tokens: seq<Token>, media: Media, tok: Token)
    requires Tiled(tokens, media) && tok != NULL_TOKEN
    ensures Tiled(tokens + [tok], media)
  {
  }

  lemma TiledPushChunk(tokens: seq<Token>, media: Media, c: Chunk)
    requires Tiled(tokens, media) && !c.isText && c.nTokens > 0 && c.nPos > 0
    ensures Tiled(tokens + seq(c.nTokens, i => NULL_TOKEN), media[|tokens| := c])
  {
    var t, m := tokens + seq(c.nTokens, i => NULL_TOKEN), media[|tokens| := c];
    EndIsBound(tokens, media);
    forall k: nat | k in media ensures k < |tokens| {
      assert ChunkFits(tokens, k, media[k]);
    }
    forall k: nat | k in m ensures ChunkFits(t, k, m[k]) && Bound(m, k) {
      if k in media { assert ChunkFits(tokens, k, media[k]) && Bound(media, k); }
      forall j: nat | Covers(m, j, k) ensures j == k {
        if j in media && j != |tokens| { assert ChunkFits(tokens, j, media[j]) && Covers(media, j, k); }
      }
    }
    forall i: nat | i < |t| && t[i] == NULL_TOKEN ensures exists k: nat :: Covers(m, k, i) {
      if i < |tokens| {
        assert tokens[i] == NULL_TOKEN;
        var k: nat :| Covers(media, k, i);
        assert Covers(m, k, i);
      } else {
        assert Covers(m, |tokens|, i);
      }
    }
  }

  lemma ClosedFormWithoutMedia(tokens: seq<Token>, media: Media, n: nat)
    requires media == map[] && n <= |tokens| && Tiled(tokens, media)
    ensures PosBefore(media, n) == n
  {
  }

  lemma PlainCount(tokens: seq<Token>, media: Media, maxPos: int, n: nat)
    requires media == map[] && Tiled(tokens, media)
    requires n == if maxPos < 0 || maxPos > |tokens| then |tokens| else maxPos
    ensures Bound(media, n) && (CountsBelow(tokens, media, maxPos, n) <==> maxPos >= 0 || tokens == [])
  {
    forall i: nat | i < |tokens| ensures PosOf(media, i) == i {
      assert Bound(media, i);
      ClosedFormWithoutMedia(tokens, media, i);
    }
    if tokens != [] {
      assert PosOf(media, 0) == 0;
    }
  }

  // ---- validate ----

  /** Everything before i has been accepted: the chunks seen so far are the keys below i, they fit and do
      not overlap. */
  ghost predicate Checked(tokens: seq<Token>, media: Media, nVocab: int, i: nat, seen: set<nat>) {
    i <= |tokens| &&
    (forall k :: k in seen ==> k in media && k < i && ChunkFits(tokens, k, media[k]) && k + media[k].nTokens <= i) &&
    (forall k, j :: k in seen && j in seen ==> (Covers(media, k, j) ==> k == j)) &&
    (forall l: nat :: l < i && tokens[l] == NULL_TOKEN ==> exists k :: k in seen && Covers(media, k, l)) &&
    (forall l: nat :: l < i && tokens[l] != NULL_TOKEN ==> 0 <= tokens[l] < nVocab)
  }

  lemma NothingChecked(tokens: seq<Token>, media: Media, nVocab: int)
    ensures Checked(tokens, media, nVocab, 0, {})
  {
  }

  lemma CheckedText(tokens: seq<Token>, media: Media, nVocab: int, i: nat, seen: set<nat>)
    requires Checked(tokens, media, nVocab, i, seen) && i < |tokens| && 0 <= tokens[i] < nVocab
    ensures Checked(tokens, media, nVocab, i + 1, seen)
  {
  }

  lemma CheckedChunk(tokens: seq<Token>, media: Media, nVocab: int, i: nat, seen: set<nat>)
    requires Checked(tokens, media, nVocab, i, seen) && i in media && ChunkFits(tokens, i, media[i])
    ensures i !in seen && Checked(tokens, media, nVocab, i + media[i].nTokens, seen + {i})
  {
  }

  /** A NULL entry at which no chunk starts is a gap or an overlap. */
  lemma NotTiledAt(tokens: seq<Token>, media: Media, nVocab: int, i: nat, seen: set<nat>)
    requires Checked(tokens, media, nVocab, i, seen) && i < |tokens| && tokens[i] == NULL_TOKEN && i !in media
    ensures !Tiled(tokens, media)
  {
    forall k: nat | Covers(media, k, i) ensures !(ChunkFits(tokens, k, media[k]) && Bound(media, k)) {
      if ChunkFits(tokens, k, media[k]) {
        assert tokens[k] == NULL_TOKEN;
        var s: nat :| s in seen && Covers(media, s, k);
        assert k !in seen;
        assert s != k;
      }
    }
  }

  lemma NotFitting(tokens: seq<Token>, media: Media, i: nat)
    requires i in media && !ChunkFits(tokens, i, media[i])
    ensures !Tiled(tokens, media)
  {
  }

  /** At the end the list is tiled exactly when no key of the map was left out. */
  lemma AllChecked(tokens: seq<Token>, media: Media, nVocab: int, seen: set<nat>)
    requires Checked(tokens, media, nVocab, |tokens|, seen)
    ensures forall i :: 0 <= i < |tokens| && tokens[i] != NULL_TOKEN ==> 0 <= tokens[i] < nVocab
    ensures Tiled(tokens, media) <==> |seen| == |media|
  {
    assert seen <= media.Keys;
    if |seen| == |media| {
      SubsetOfSameSize(seen, media.Keys);
    }
    if Tiled(tokens, media) {
      forall k: nat | k in media ensures k in seen {
        assert ChunkFits(tokens, k, media[k]) && Bound(media, k) && tokens[k] == NULL_TOKEN;
        var s: nat :| s in seen && Covers(media, s, k);
        assert s == k;
      }
      assert seen == media.Keys;
    }
  }

  lemma SubsetOfSameSize(a: set<nat>, b: set<nat>)
    requires a <= b && |a| == |b|
    ensures a == b
  {
    var rest := b - a;
    assert b == a + rest;
    SomeKey(rest);
  }
}
