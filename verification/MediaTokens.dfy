/** The token list of a prompt with media chunks tiled into it (server-common.h, server_tokens): what a
    well-formed list is, and where its tokens lie in the model's position space. */
module MediaTokens {

  type Token = int
  const NULL_TOKEN: Token := -1

  /** A media chunk covers nTokens entries of the list and nPos positions of the model. */
  datatype Chunk = Chunk(id: string, nTokens: nat, nPos: int, isText: bool, data: seq<int>)
  type Media = map<nat, Chunk>

  /** Chunk k covers entries k .. k + nTokens - 1, all of them NULL. */
  predicate ChunkFits(tokens: seq<Token>, k: nat, c: Chunk) {
    !c.isText && c.nTokens > 0 && c.nPos > 0 && k + c.nTokens <= |tokens| &&
    forall j :: k <= j < k + c.nTokens ==> tokens[j] == NULL_TOKEN
  }

  /** Entry i belongs to the chunk at k. */
  predicate Covers(media: Media, k: nat, i: nat) {
    k in media && k <= i < k + media[k].nTokens
  }

  /** Index i does not lie strictly inside a chunk. */
  ghost predicate Bound(media: Media, i: nat) {
    forall k :: Covers(media, k, i) ==> k == i
  }

  /** The NULL entries are tiled by the media map: no gap, no overlap, no extra key. */
  ghost predicate Tiled(tokens: seq<Token>, media: Media) {
    (forall k :: k in media ==> ChunkFits(tokens, k, media[k]) && Bound(media, k)) &&
    (forall i :: 0 <= i < |tokens| && tokens[i] == NULL_TOKEN ==> exists k :: Covers(media, k, i))
  }

  /** At a bound a NULL entry starts its chunk: the lookup cannot fail. */
  lemma NullStartsChunk(tokens: seq<Token>, media: Media, i: nat)
    requires Tiled(tokens, media) && i < |tokens| && Bound(media, i)
    ensures i in media <==> tokens[i] == NULL_TOKEN
  {
  }

  /** Number of entries of the unit that starts at i. */
  function UnitLen(media: Media, i: nat): nat {
    if i in media then media[i].nTokens else 1
  }

  /** Number of positions of the unit that starts at i. */
  function UnitPos(media: Media, i: nat): int {
    if i in media then media[i].nPos else 1
  }

  /** The end of a unit is a bound again, and no bound lies inside the unit. */
  lemma UnitEnds(tokens: seq<Token>, media: Media, i: nat)
    requires Tiled(tokens, media) && i < |tokens| && Bound(media, i)
    ensures 0 < UnitLen(media, i) && i + UnitLen(media, i) <= |tokens| && Bound(media, i + UnitLen(media, i))
    ensures forall j :: i < j < i + UnitLen(media, i) ==> !Bound(media, j) && j !in media
    ensures 0 < UnitPos(media, i)
  {
    var e := i + UnitLen(media, i);
    if i in media {
      assert ChunkFits(tokens, i, media[i]);
    }
    forall k: nat | Covers(media, k, e) ensures k == e {
      if k < i {
        assert Covers(media, k, i);
      } else if i < k < e {
        assert Covers(media, i, k);
      }
    }
    forall j | i < j < e ensures !Bound(media, j) && j !in media {
      assert j in media ==> Bound(media, j);
      assert Covers(media, i, j);
    }
  }

  lemma EndIsBound(tokens: seq<Token>, media: Media)
    requires Tiled(tokens, media)
    ensures Bound(media, 0) && Bound(media, |tokens|)
  {
  }

  // ---- positions ----

  /** Model positions used by the entries before n: a chunk spends all its positions at its first entry. */
  ghost function PosBefore(media: Media, n: nat): int {
    if n == 0 then 0
    else PosBefore(media, n - 1) + (if n - 1 in media then media[n - 1].nPos else if Bound(media, n - 1) then 1 else 0)
  }

  /** First entry of the unit entry i belongs to. */
  ghost function UnitStart(media: Media, i: nat): (s: nat)
    ensures s <= i
  {
    if Bound(media, i) || i == 0 then i else UnitStart(media, i - 1)
  }

  /** Model position of entry i: all entries of a chunk share the chunk's first position. */
  ghost function PosOf(media: Media, i: nat): int {
    PosBefore(media, UnitStart(media, i))
  }

  /** One unit further along, in entries and in positions. */
  lemma PosAfterUnit(tokens: seq<Token>, media: Media, i: nat, j: nat)
    requires Tiled(tokens, media) && i < |tokens| && Bound(media, i) && i < j <= i + UnitLen(media, i)
    ensures PosBefore(media, j) == PosBefore(media, i) + UnitPos(media, i)
    decreases j
  {
    if j > i + 1 {
      UnitEnds(tokens, media, i);
      assert !Bound(media, j - 1) && j - 1 !in media;
      PosAfterUnit(tokens, media, i, j - 1);
    }
  }

  lemma UnitStartInside(tokens: seq<Token>, media: Media, i: nat, j: nat)
    requires Tiled(tokens, media) && i < |tokens| && Bound(media, i) && i <= j < i + UnitLen(media, i)
    ensures UnitStart(media, j) == i
    decreases j
  {
    if j > i {
      UnitEnds(tokens, media, i);
      assert !Bound(media, j);
      UnitStartInside(tokens, media, i, j - 1);
    }
  }

  /** Positions never decrease, and every unit advances them. */
  lemma {:induction false} PosGrows(tokens: seq<Token>, media: Media, i: nat, j: nat)
    requires Tiled(tokens, media) && Bound(media, i) && Bound(media, j) && i <= j <= |tokens|
    ensures PosBefore(media, i) <= PosBefore(media, j) && (i < j ==> PosBefore(media, i) < PosBefore(media, j))
    decreases j - i
  {
    if i < j {
      UnitEnds(tokens, media, i);
      var e := i + UnitLen(media, i);
      PosAfterUnit(tokens, media, i, e);
      PosGrows(tokens, media, e, j);
    }
  }

  lemma {:induction false} StartIsBound(media: Media, i: nat)
    ensures Bound(media, UnitStart(media, i)) || UnitStart(media, i) == 0
    ensures forall b: nat :: b <= i && Bound(media, b) ==> b <= UnitStart(media, i)
    decreases i
  {
    if !(Bound(media, i) || i == 0) {
      StartIsBound(media, i - 1);
    }
  }

  /** n is the size up to position p: exactly the entries before n have a smaller position. */
  ghost predicate CountsBelow(tokens: seq<Token>, media: Media, p: int, n: nat) {
    n <= |tokens| && forall i: nat :: i < |tokens| ==> (i < n <==> PosOf(media, i) < p)
  }

  /** The entries before a bound are exactly those positioned before it. */
  lemma BoundCountsItself(tokens: seq<Token>, media: Media, n: nat)
    requires Tiled(tokens, media) && n <= |tokens| && Bound(media, n)
    ensures CountsBelow(tokens, media, PosBefore(media, n), n)
  {
    forall i: nat | i < |tokens| ensures i < n <==> PosOf(media, i) < PosBefore(media, n) {
      StartIsBound(media, i);
      EndIsBound(tokens, media);
      var s := UnitStart(media, i);
      if s < n {
        PosGrows(tokens, media, s, n);
      } else {
        PosGrows(tokens, media, n, s);
      }
    }
  }

  lemma CountIsUnique(tokens: seq<Token>, media: Media, p: int, m: nat, n: nat)
    requires CountsBelow(tokens, media, p, m) && CountsBelow(tokens, media, p, n)
    ensures m == n
  {
    assert m < |tokens| ==> (m < n <==> PosOf(media, m) < p);
    assert n < |tokens| ==> (n < m <==> PosOf(media, n) < p);
  }
}
