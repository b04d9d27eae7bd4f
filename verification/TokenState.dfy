/** The binary form in which a slot's token list is saved (server-common.cpp): a marker, a version, the tokens,
    the start indices of the media chunks and the chunks themselves, padded to whole tokens. */
module TokenState {
  import opened MediaTokens
  import ServerTokens

  type Byte = b: int | 0 <= b < 256
  type U32 = u: int | 0 <= u < 0x1_0000_0000
  type I32 = i: int | -0x8000_0000 <= i < 0x8000_0000

  const U32_MAX: int := 0xFFFF_FFFF
  const VERSION: U32 := 1

  datatype Option<T> = None | Some(value: T)

  /** mtmd_input_chunk_save and mtmd_input_chunk_load. */
  type Save = Chunk -> seq<Byte>
  type Load = seq<Byte> -> Option<Chunk>

  // ---- words ----

  function AsWord(t: I32): U32 {
    if t < 0 then t + 0x1_0000_0000 else t
  }

  function AsToken(u: U32): I32 {
    if u >= 0x8000_0000 then u - 0x1_0000_0000 else u
  }

  /** Byte j of a little-endian word. */
  function ByteOf(u: U32, j: nat): Byte
    requires j < 4
  {
    if j == 0 then u % 256 else ByteOf(u / 256, j - 1)
  }

  /** The word at position p. */
  function Word(d: seq<Byte>, p: nat): U32
    requires p + 4 <= |d|
  {
    var b0: int, b1: int, b2: int, b3: int := d[p], d[p + 1], d[p + 2], d[p + 3];
    b0 + 256 * (b1 + 256 * (b2 + 256 * b3))
  }

  function Words(ws: seq<U32>): (b: seq<Byte>)
    ensures |b| == 4 * |ws|
  {
    seq(4 * |ws|, k requires 0 <= k < 4 * |ws| => ByteOf(ws[k / 4], k % 4))
  }

  function WordsAt(d: seq<Byte>, p: nat, n: nat): (ws: seq<U32>)
    requires p + 4 * n <= |d|
    ensures |ws| == n
  {
    seq(n, i requires 0 <= i < n => Word(d, p + 4 * i))
  }

  lemma BytesMakeWord(u: U32)
    ensures
      ByteOf(u, 0) as int + 256 * (ByteOf(u, 1) as int + 256 * (ByteOf(u, 2) as int + 256 * ByteOf(u, 3) as int)) == u
  {
  }

  lemma WordMakesBytes(d: seq<Byte>, p: nat, j: nat)
    requires p + 4 <= |d| && j < 4
    ensures ByteOf(Word(d, p), j) == d[p + j]
  {
    var b0: int, b1: int, b2: int, b3: int := d[p], d[p + 1], d[p + 2], d[p + 3];
    var u1, u2 := b1 + 256 * (b2 + 256 * b3), b2 + 256 * b3;
    assert Word(d, p) == b0 + 256 * u1;
    ByteOfStep(Word(d, p), b0, u1);
    ByteOfStep(u1, b1, u2);
    ByteOfStep(u2, b2, b3);
  }

  lemma ByteOfStep(u: U32, b: Byte, rest: U32)
    requires u == b as int + 256 * rest
    ensures ByteOf(u, 0) == b && forall j: nat :: 0 < j < 4 ==> ByteOf(u, j) == ByteOf(rest, j - 1)
  {
  }

  /** Reading back written words. */
  lemma ReadWords(d: seq<Byte>, p: nat, ws: seq<U32>)
    requires p + 4 * |ws| <= |d| && d[p..p + 4 * |ws|] == Words(ws)
    ensures WordsAt(d, p, |ws|) == ws
  {
    hide Words, Word;
    forall i: nat | i < |ws| ensures Word(d, p + 4 * i) == ws[i] {
      ReadWord(d, p, ws, i);
    }
  }

  lemma ReadWord(d: seq<Byte>, p: nat, ws: seq<U32>, i: nat)
    requires p + 4 * |ws| <= |d| && d[p..p + 4 * |ws|] == Words(ws) && i < |ws|
    ensures Word(d, p + 4 * i) == ws[i]
  {
    BytesMakeWord(ws[i]);
    forall j: nat | j < 4 ensures d[p + 4 * i + j] == ByteOf(ws[i], j) {
      var k := 4 * i + j;
      assert d[p..p + 4 * |ws|][k] == Words(ws)[k];
      assert k / 4 == i && k % 4 == j;
    }
    assert d[p + 4 * i + 0] == ByteOf(ws[i], 0);
  }

  /** Writing back words that were read. */
  lemma WriteWords(d: seq<Byte>, p: nat, n: nat)
    requires p + 4 * n <= |d|
    ensures Words(WordsAt(d, p, n)) == d[p..p + 4 * n]
  {
    forall k: nat | k < 4 * n ensures Words(WordsAt(d, p, n))[k] == d[p + k] {
      WordMakesBytes(d, p + 4 * (k / 4), k % 4);
    }
  }

  function TokenWords(ts: seq<I32>): (ws: seq<U32>)
    ensures |ws| == |ts|
  {
    seq(|ts|, i requires 0 <= i < |ts| => AsWord(ts[i]))
  }

  function WordTokens(ws: seq<U32>): (ts: seq<I32>)
    ensures |ts| == |ws|
  {
    seq(|ws|, i requires 0 <= i < |ws| => AsToken(ws[i]))
  }

  lemma TokensAreWords(ts: seq<I32>, ws: seq<U32>)
    ensures WordTokens(TokenWords(ts)) == ts && TokenWords(WordTokens(ws)) == ws
  {
  }

  /** A list of tokens seen as bytes, and a byte string of whole words seen as tokens. */
  function Bytes(packed: seq<I32>): seq<Byte> {
    Words(TokenWords(packed))
  }

  function Packed(d: seq<Byte>): seq<I32>
    requires |d| % 4 == 0
  {
    WordTokens(WordsAt(d, 0, |d| / 4))
  }

  lemma PackedBytes(d: seq<Byte>)
    requires |d| % 4 == 0
    ensures Bytes(Packed(d)) == d
  {
    var ws := WordsAt(d, 0, |d| / 4);
    TokensAreWords([], ws);
    WriteWords(d, 0, |d| / 4);
  }

  // ---- the grammar ----

  /** A counted vector of words. */
  function Vector(ws: seq<U32>): (b: seq<Byte>)
    requires |ws| <= U32_MAX
    ensures |b| == 4 + 4 * |ws|
  {
    Words([|ws|]) + Words(ws)
  }

  predicate SmallBlobs(blobs: seq<seq<Byte>>) {
    forall i :: 0 <= i < |blobs| ==> |blobs[i]| <= U32_MAX
  }

  function Blobs(blobs: seq<seq<Byte>>): seq<Byte>
    requires SmallBlobs(blobs)
  {
    if blobs == [] then [] else Words([|blobs[0]|]) + blobs[0] + Blobs(blobs[1..])
  }

  /** A saved list before padding. */
  function Saved(tokens: seq<I32>, keys: seq<U32>, blobs: seq<seq<Byte>>): seq<Byte>
    requires |tokens| <= U32_MAX && |keys| <= U32_MAX && SmallBlobs(blobs)
  {
    Words([AsWord(NULL_TOKEN), VERSION]) + Vector(TokenWords(tokens)) + Vector(keys) + Blobs(blobs)
  }

  lemma OneWord(u: U32, b0: Byte, b1: Byte, b2: Byte, b3: Byte)
    requires u as int == b0 as int + 256 * b1 as int + 65536 * b2 as int + 16777216 * b3 as int
    ensures Words([u]) == [b0, b1, b2, b3]
  {
    var bytes: seq<Byte> := [b0, b1, b2, b3];
    WordBytes(u, b0, b1, b2, b3);
    forall k: nat | k < 4 ensures Words([u])[k] == bytes[k] {
      assert Words([u])[k] == ByteOf([u][k / 4], k % 4);
    }
  }

  lemma WordBytes(u: U32, b0: Byte, b1: Byte, b2: Byte, b3: Byte)
    requires u as int == b0 as int + 256 * b1 as int + 65536 * b2 as int + 16777216 * b3 as int
    ensures ByteOf(u, 0) == b0 && ByteOf(u, 1) == b1 && ByteOf(u, 2) == b2 && ByteOf(u, 3) == b3
  {
    var u1, u2: U32 := b1 as int + 256 * b2 as int + 65536 * b3 as int, b2 as int + 256 * b3 as int;
    assert u / 256 == u1 && u1 / 256 == u2 && u2 / 256 == b3 as int;
    assert ByteOf(u, 1) == ByteOf(u1, 0) && ByteOf(u, 2) == ByteOf(u1, 1) == ByteOf(u2, 0);
    assert ByteOf(u, 3) == ByteOf(u1, 2) == ByteOf(u2, 1) == ByteOf(b3 as int, 0);
  }

  lemma WordsCons(u: U32, ws: seq<U32>)
    ensures Words([u] + ws) == Words([u]) + Words(ws)
  {
    var all := [u] + ws;
    forall k: nat | k < 4 * |all| ensures Words(all)[k] == (Words([u]) + Words(ws))[k] {
      if k >= 4 {
        assert all[k / 4] == ws[(k - 4) / 4] && k % 4 == (k - 4) % 4;
      }
    }
  }

  lemma HeaderBytes()
    ensures Words([AsWord(NULL_TOKEN), VERSION]) == [255, 255, 255, 255, 1, 0, 0, 0]
  {
    hide Words;
    var mark: U32 := AsWord(NULL_TOKEN);
    OneWord(mark, 255, 255, 255, 255);
    OneWord(VERSION, 1, 0, 0, 0);
    WordsCons(mark, [VERSION]);
    assert [mark] + [VERSION] == [mark, VERSION];
  }

  lemma TokenBytes()
    ensures Vector(TokenWords([5, -2])) == [2, 0, 0, 0, 5, 0, 0, 0, 254, 255, 255, 255]
  {
    hide Words;
    var two: U32, five: U32, minus: U32 := 2, 5, 0xFFFF_FFFE;
    assert TokenWords([5, -2]) == [five, minus] == [five] + [minus];
    OneWord(two, 2, 0, 0, 0);
    OneWord(five, 5, 0, 0, 0);
    OneWord(minus, 254, 255, 255, 255);
    WordsCons(five, [minus]);
  }

  lemma KeyBytes()
    ensures Vector([7]) == [1, 0, 0, 0, 7, 0, 0, 0] && Blobs([[9]]) == [1, 0, 0, 0, 9]
  {
    hide Words;
    OneWord(1, 1, 0, 0, 0);
    OneWord(7, 7, 0, 0, 0);
    var blobs: seq<seq<Byte>> := [[9]];
    assert blobs[1..] == [] && Blobs([]) == [] && |blobs[0]| == 1;
  }

  /** The form byte by byte, for two tokens and one media chunk that is saved as the single byte 9 and starts at entry
      7: the marker -1 and the version 1, both counts and the chunk's size each before what they count, all
      little-endian. */
  lemma SavedBytes()
    ensures Saved([5, -2], [7], [[9]]) ==
      [255, 255, 255, 255, 1, 0, 0, 0] + [2, 0, 0, 0, 5, 0, 0, 0, 254, 255, 255, 255] + [1, 0, 0, 0, 7, 0, 0, 0] +
      [1, 0, 0, 0, 9]
  {
    hide Words, Vector, Blobs, TokenWords, AsWord;
    HeaderBytes();
    TokenBytes();
    KeyBytes();
  }

  /** Every blob is a chunk. */
  predicate AllLoad(blobs: seq<seq<Byte>>, load: Load) {
    forall i :: 0 <= i < |blobs| ==> blobs[i] != [] && load(blobs[i]).Some?
  }

  /** The media map the chunks fill in, a later chunk replacing an earlier one with the same key. */
  function MediaOf(media: Media, keys: seq<U32>, blobs: seq<seq<Byte>>, load: Load): Media
    requires |keys| == |blobs| && AllLoad(blobs, load)
    decreases |keys|
  {
    if keys == [] then media
    else MediaOf(media[keys[0] := load(blobs[0]).value], keys[1..], blobs[1..], load)
  }

  /** d is a saved form of tokens and media; up to three bytes of padding, of any value, follow. */
  ghost predicate SavedForm(d: seq<Byte>, hasMtmd: bool, load: Load, tokens: seq<I32>, media: Media) {
    exists keys: seq<U32>, blobs: seq<seq<Byte>>, pad: seq<Byte> ::
      SavedAs(d, hasMtmd, load, tokens, media, keys, blobs, pad)
  }

  predicate SavedAs(d: seq<Byte>, hasMtmd: bool, load: Load, tokens: seq<I32>, media: Media,
                    keys: seq<U32>, blobs: seq<seq<Byte>>, pad: seq<Byte>)
  {
    |tokens| <= U32_MAX && |keys| <= U32_MAX && SmallBlobs(blobs) && |pad| < 4 &&
    |keys| == |blobs| && AllLoad(blobs, load) && (keys == [] || hasMtmd) &&
    media == MediaOf(map[], keys, blobs, load) &&
    d == Saved(tokens, keys, blobs) + pad
  }

  // ---- reading, as a function of the bytes and the cursor ----

  datatype Read<T> = Got(value: T, pos: nat) | Short

  function ReadVector(d: seq<Byte>, p: nat): (r: Read<seq<U32>>)
    requires p <= |d|
    ensures r.Got? ==> p <= r.pos <= |d|
  {
    if p + 4 > |d| || 4 * Word(d, p) > |d| - p - 4 then Short
    else Got(WordsAt(d, p + 4, Word(d, p)), p + 4 + 4 * Word(d, p))
  }

  function ReadBlob(d: seq<Byte>, p: nat): (r: Read<seq<Byte>>)
    requires p <= |d|
    ensures r.Got? ==> p <= r.pos <= |d|
  {
    if p + 4 > |d| || Word(d, p) > |d| - p - 4 then Short
    else Got(d[p + 4..p + 4 + Word(d, p)], p + 4 + Word(d, p))
  }

  function ReadMedia(d: seq<Byte>, p: nat, keys: seq<U32>, load: Load, media: Media): (r: Read<Media>)
    requires p <= |d|
    ensures r.Got? ==> p <= r.pos <= |d|
    decreases |keys|
  {
    if keys == [] then Got(media, p)
    else
      var blob := ReadBlob(d, p);
      if blob.Short? || blob.value == [] || load(blob.value).None? then Short
      else ReadMedia(d, blob.pos, keys[1..], load, media[keys[0] := load(blob.value).value])
  }

  datatype Restored = Restored(tokens: seq<I32>, media: Media)

  /** What deserialize makes of the bytes of a marked list. */
  function Parse(d: seq<Byte>, hasMtmd: bool, load: Load): Option<Restored> {
    if |d| < 8 || Word(d, 4) != VERSION then None
    else
      var ts := ReadVector(d, 8);
      if ts.Short? then None
      else
        var keys := ReadVector(d, ts.pos);
        if keys.Short? || (keys.value != [] && !hasMtmd) then None
        else
          var media := ReadMedia(d, keys.pos, keys.value, load, map[]);
          if media.Short? || |d| - media.pos >= 4 then None
          else Some(Restored(WordTokens(ts.value), media.value))
  }

  // ---- the parser accepts exactly the grammar ----

  lemma VectorReads(d: seq<Byte>, p: nat, ws: seq<U32>)
    requires p <= |d| && |ws| <= U32_MAX
    ensures ReadVector(d, p) == Got(ws, p + 4 + 4 * |ws|) <==>
            p + 4 + 4 * |ws| <= |d| && d[p..p + 4 + 4 * |ws|] == Vector(ws)
  {
    var q := p + 4 + 4 * |ws|;
    if q <= |d| {
      assert d[p..q] == d[p..p + 4] + d[p + 4..q];
      if d[p..q] == Vector(ws) {
        assert d[p..p + 4] == Vector(ws)[..4] == Words([|ws|]);
        assert d[p + 4..q] == Vector(ws)[4..] == Words(ws);
        ReadWords(d, p, [|ws|]);
        assert WordsAt(d, p, 1)[0] == |ws|;
        ReadWords(d, p + 4, ws);
      }
      WriteWords(d, p, 1);
      assert WordsAt(d, p, 1) == [Word(d, p)];
      WriteWords(d, p + 4, |ws|);
    }
  }

  lemma BlobReads(d: seq<Byte>, p: nat, b: seq<Byte>)
    requires p <= |d| && |b| <= U32_MAX
    ensures ReadBlob(d, p) == Got(b, p + 4 + |b|) <==>
            p + 4 + |b| <= |d| && d[p..p + 4 + |b|] == Words([|b|]) + b
  {
    var q := p + 4 + |b|;
    if q <= |d| {
      assert d[p..q] == d[p..p + 4] + d[p + 4..q];
      if d[p..q] == Words([|b|]) + b {
        assert d[p..p + 4] == Words([|b|]) && d[p + 4..q] == b;
        ReadWords(d, p, [|b|]);
        assert WordsAt(d, p, 1)[0] == |b|;
      }
      WriteWords(d, p, 1);
      assert WordsAt(d, p, 1) == [Word(d, p)];
    }
  }

  lemma Adjacent(d: seq<Byte>, p: nat, a: seq<Byte>, b: seq<Byte>)
    requires p + |a| + |b| <= |d|
    ensures d[p..p + |a| + |b|] == a + b <==> d[p..p + |a|] == a && d[p + |a|..p + |a| + |b|] == b
  {
    var q, e := p + |a|, p + |a| + |b|;
    assert d[p..e] == d[p..q] + d[q..e];
    assert (a + b)[..|a|] == a && (a + b)[|a|..] == b;
  }

  /** Written chunks are read back, whatever follows them. */
  lemma {:induction false} MediaReads(d: seq<Byte>, p: nat, keys: seq<U32>, blobs: seq<seq<Byte>>, load: Load,
                                      media: Media)
    requires |keys| == |blobs| && AllLoad(blobs, load) && SmallBlobs(blobs)
    requires p <= |d| && p + |Blobs(blobs)| <= |d| && d[p..p + |Blobs(blobs)|] == Blobs(blobs)
    ensures ReadMedia(d, p, keys, load, media) == Got(MediaOf(media, keys, blobs, load), p + |Blobs(blobs)|)
    decreases |keys|
  {
    hide ReadBlob, Words;
    if keys != [] {
      var b := blobs[0];
      var q := p + 4 + |b|;
      Adjacent(d, p, Words([|b|]) + b, Blobs(blobs[1..]));
      BlobReads(d, p, b);
      MediaReads(d, q, keys[1..], blobs[1..], load, media[keys[0] := load(b).value]);
    }
  }

  /** A chunk that was read was written there. */
  lemma BlobEnd(d: seq<Byte>, p: nat)
    requires p <= |d| && ReadBlob(d, p).Got?
    ensures var r := ReadBlob(d, p);
      |r.value| <= U32_MAX && p <= r.pos <= |d| && r.pos == p + 4 + |r.value| &&
      d[p..r.pos] == Words([|r.value|]) + r.value
  {
    BlobReads(d, p, ReadBlob(d, p).value);
  }

  /** Whatever is read as chunks was written as chunks. */
  lemma {:induction false} MediaWritten(d: seq<Byte>, p: nat, keys: seq<U32>, load: Load, media: Media)
    returns (blobs: seq<seq<Byte>>)
    requires p <= |d| && ReadMedia(d, p, keys, load, media).Got?
    ensures |keys| == |blobs| && AllLoad(blobs, load) && SmallBlobs(blobs)
    ensures var r := ReadMedia(d, p, keys, load, media);
      r.value == MediaOf(media, keys, blobs, load) && r.pos == p + |Blobs(blobs)| && d[p..r.pos] == Blobs(blobs)
    decreases |keys|
  {
    hide ReadBlob, Words;
    if keys == [] {
      blobs := [];
    } else {
      var blob := ReadBlob(d, p);
      BlobEnd(d, p);
      var rest := MediaWritten(d, blob.pos, keys[1..], load, media[keys[0] := load(blob.value).value]);
      blobs := [blob.value] + rest;
      assert blobs[1..] == rest;
      var end := ReadMedia(d, p, keys, load, media).pos;
      assert d[p..end] == d[p..blob.pos] + d[blob.pos..end];
    }
  }

  lemma HeaderReads(d: seq<Byte>, a: U32, b: U32)
    requires |d| >= 8
    ensures d[0..8] == Words([a, b]) <==> Word(d, 0) == a && Word(d, 4) == b
  {
    if d[0..8] == Words([a, b]) {
      ReadWords(d, 0, [a, b]);
      assert WordsAt(d, 0, 2)[0] == a && WordsAt(d, 0, 2)[1] == b;
    }
    WriteWords(d, 0, 2);
    assert WordsAt(d, 0, 2) == [Word(d, 0), Word(d, 4)];
  }

  lemma FiveParts(d: seq<Byte>, a: seq<Byte>, b: seq<Byte>, c: seq<Byte>, e: seq<Byte>, f: seq<Byte>)
    requires d == a + b + c + e + f
    ensures var p, q, r := |a| + |b|, |a| + |b| + |c|, |a| + |b| + |c| + |e|;
      d[0..|a|] == a && d[|a|..p] == b && d[p..q] == c && d[q..r] == e
  {
  }

  /** Where the parts of a saved form lie. */
  lemma SavedParts(d: seq<Byte>, hasMtmd: bool, load: Load, tokens: seq<I32>, media: Media,
                   keys: seq<U32>, blobs: seq<seq<Byte>>, pad: seq<Byte>)
    requires SavedAs(d, hasMtmd, load, tokens, media, keys, blobs, pad)
    ensures var p := 12 + 4 * |tokens|;
      var q := p + 4 + 4 * |keys|;
      q + |Blobs(blobs)| + |pad| == |d| && d[0..8] == Words([AsWord(NULL_TOKEN), VERSION]) &&
      d[8..p] == Vector(TokenWords(tokens)) && d[p..q] == Vector(keys) && d[q..q + |Blobs(blobs)|] == Blobs(blobs)
  {
    hide Word, TokenWords;
    var head := Words([AsWord(NULL_TOKEN), VERSION]);
    FiveParts(d, head, Vector(TokenWords(tokens)), Vector(keys), Blobs(blobs), pad);
  }

  /** Completeness: every saved form is read, and as what it was saved from. */
  lemma ParsesSaved(d: seq<Byte>, hasMtmd: bool, load: Load, tokens: seq<I32>, media: Media,
                    keys: seq<U32>, blobs: seq<seq<Byte>>, pad: seq<Byte>)
    requires SavedAs(d, hasMtmd, load, tokens, media, keys, blobs, pad)
    ensures |d| >= 8 && Word(d, 0) == AsWord(NULL_TOKEN)
    ensures Parse(d, hasMtmd, load) == Some(Restored(tokens, media))
  {
    hide Words, Word, Vector, ReadVector, WordTokens, TokenWords, Blobs, ReadMedia, MediaOf, Saved;
    SavedParts(d, hasMtmd, load, tokens, media, keys, blobs, pad);
    var p := 12 + 4 * |tokens|;
    HeaderReads(d, AsWord(NULL_TOKEN), VERSION);
    VectorReads(d, 8, TokenWords(tokens));
    VectorReads(d, p, keys);
    MediaReads(d, p + 4 + 4 * |keys|, keys, blobs, load, map[]);
    TokensAreWords(tokens, []);
  }

  /** Soundness: what is accepted, after the marker, is a saved form. */
  lemma ParsedIsSaved(d: seq<Byte>, hasMtmd: bool, load: Load)
    requires |d| >= 4 && Word(d, 0) == AsWord(NULL_TOKEN) && Parse(d, hasMtmd, load).Some?
    ensures var r := Parse(d, hasMtmd, load).value; SavedForm(d, hasMtmd, load, r.tokens, r.media)
  {
    hide Words, Word, Vector, ReadVector, WordTokens, TokenWords;
    var ts := ReadVector(d, 8);
    var keys := ReadVector(d, ts.pos);
    var media := ReadMedia(d, keys.pos, keys.value, load, map[]);
    VectorEnd(d, 8);
    VectorEnd(d, ts.pos);
    var blobs := MediaWritten(d, keys.pos, keys.value, load, map[]);
    TokensAreWords([], ts.value);
    HeaderReads(d, AsWord(NULL_TOKEN), VERSION);
    SplitInFive(d, 8, ts.pos, keys.pos, media.pos);
    assert SavedAs(d, hasMtmd, load, WordTokens(ts.value), media.value, keys.value, blobs, d[media.pos..]);
  }

  /** A vector that was read was written there. */
  lemma VectorEnd(d: seq<Byte>, p: nat)
    requires p <= |d| && ReadVector(d, p).Got?
    ensures var r := ReadVector(d, p); |r.value| <= U32_MAX && p <= r.pos <= |d| && d[p..r.pos] == Vector(r.value)
  {
    VectorReads(d, p, ReadVector(d, p).value);
  }

  lemma SplitInFive(d: seq<Byte>, a: nat, b: nat, c: nat, e: nat)
    requires a <= b <= c <= e <= |d|
    ensures d == d[0..a] + d[a..b] + d[b..c] + d[c..e] + d[e..]
  {
  }

  /** deserialize accepts exactly the saved forms, and returns what they were saved from. */
  lemma ParseExact(d: seq<Byte>, hasMtmd: bool, load: Load, tokens: seq<I32>, media: Media)
    requires |d| >= 4 && Word(d, 0) == AsWord(NULL_TOKEN)
    ensures Parse(d, hasMtmd, load) == Some(Restored(tokens, media)) <==> SavedForm(d, hasMtmd, load, tokens, media)
  {
    if Parse(d, hasMtmd, load) == Some(Restored(tokens, media)) {
      ParsedIsSaved(d, hasMtmd, load);
    }
    if SavedForm(d, hasMtmd, load, tokens, media) {
      var keys: seq<U32>, blobs: seq<seq<Byte>>, pad: seq<Byte> :|
        SavedAs(d, hasMtmd, load, tokens, media, keys, blobs, pad);
      ParsesSaved(d, hasMtmd, load, tokens, media, keys, blobs, pad);
    }
  }

  // ---- deserialize and serialize ----

  /** What deserialize returns: a list without the marker is a plain token list of an older version. */
  function Deserialized(packed: seq<I32>, hasMtmd: bool, load: Load): Option<Restored> {
    if packed == [] || packed[0] != NULL_TOKEN then Some(Restored(packed, map[]))
    else Parse(Bytes(packed), hasMtmd, load)
  }

  /** server_tokens_state_reader: a cursor that never passes the end. */
  class Reader {
    const data: seq<Byte>
    var pos: nat

    ghost predicate Valid()
      reads this
    {
      pos <= |data|
    }

    constructor (d: seq<Byte>)
      ensures Valid() && data == d && pos == 0
    {
      data := d;
      pos := 0;
    }

    method ReadWord() returns (r: Option<U32>)
      requires Valid()
      modifies this
      ensures Valid()
      ensures r == if old(pos) + 4 <= |data| then Some(Word(data, old(pos))) else None
      ensures pos == if r.Some? then old(pos) + 4 else old(pos)
    {
      if |data| - pos < 4 { return None; }
      r := Some(Word(data, pos));
      pos := pos + 4;
    }

    method ReadWords() returns (r: Option<seq<U32>>)
      requires Valid()
      modifies this
      ensures Valid()
      ensures var e := ReadVector(data, old(pos)); if e.Got? then r == Some(e.value) && pos == e.pos else r == None
    {
      var n := ReadWord();
      if n.None? { return None; }
      if n.value > Remaining() / 4 { return None; }
      r := Some(WordsAt(data, pos, n.value));
      pos := pos + 4 * n.value;
    }

    method ReadBytes() returns (r: Option<seq<Byte>>)
      requires Valid()
      modifies this
      ensures Valid()
      ensures var e := ReadBlob(data, old(pos)); if e.Got? then r == Some(e.value) && pos == e.pos else r == None
    {
      var n := ReadWord();
      if n.None? { return None; }
      if n.value > Remaining() { return None; }
      r := Some(data[pos..pos + n.value]);
      pos := pos + n.value;
    }

    function Remaining(): nat
      requires Valid()
      reads this
    {
      |data| - pos
    }
  }

  /** The chunks after the keys, in key order. */
  method ReadChunks(reader: Reader, keys: seq<U32>, load: Load) returns (r: Option<Media>)
    requires reader.Valid()
    modifies reader
    ensures reader.Valid()
    ensures var e := ReadMedia(reader.data, old(reader.pos), keys, load, map[]);
      if e.Got? then r == Some(e.value) && reader.pos == e.pos else r == None
  {
    var media: Media := map[];
    ghost var all := ReadMedia(reader.data, reader.pos, keys, load, map[]);
    for i := 0 to |keys|
      invariant reader.Valid()
      invariant ReadMedia(reader.data, reader.pos, keys[i..], load, media) == all
    {
      assert keys[i..][1..] == keys[i + 1..];
      var blob := reader.ReadBytes();
      if blob.None? || blob.value == [] { return None; }
      var chunk := load(blob.value);
      if chunk.None? { return None; }
      media := media[keys[i] := chunk.value];
    }
    r := Some(media);
  }

  method Deserialize(packed: seq<I32>, hasMtmd: bool, load: Load) returns (r: Option<Restored>)
    ensures r == Deserialized(packed, hasMtmd, load)
  {
    hide Words, WordsAt, TokenWords, WordTokens, ReadVector;
    if packed == [] || packed[0] != NULL_TOKEN { return Some(Restored(packed, map[])); }
    var reader := new Reader(Bytes(packed));
    var marker := reader.ReadWord();
    var version := reader.ReadWord();
    if version.None? || version.value != VERSION { return None; }
    var tokens := reader.ReadWords();
    if tokens.None? { return None; }
    var keys := reader.ReadWords();
    if keys.None? || (keys.value != [] && !hasMtmd) { return None; }
    var media := ReadChunks(reader, keys.value, load);
    if media.None? || reader.Remaining() >= 4 { return None; }
    r := Some(Restored(WordTokens(tokens.value), media.value));
  }

  /** What serialize can write: everything counted fits 32 bits and every chunk can be saved. */
  ghost predicate Fits(tokens: seq<I32>, media: Media, save: Save) {
    |tokens| <= U32_MAX && |media| <= U32_MAX && forall k :: k in media ==> FitsAt(media, k, save)
  }

  predicate FitsAt(media: Media, k: nat, save: Save)
    requires k in media
  {
    k <= U32_MAX && 0 < |save(media[k])| <= U32_MAX
  }

  /** The keys of the map in the order std::map holds them. */
  ghost predicate KeyOrder(keys: seq<U32>, media: Media) {
    (forall i, j :: 0 <= i < j < |keys| ==> keys[i] < keys[j]) &&
    (forall k :: k in keys <==> k in media)
  }

  function BlobsOf(keys: seq<U32>, media: Media, save: Save): (blobs: seq<seq<Byte>>)
    requires forall k :: k in keys ==> k in media
    ensures |blobs| == |keys|
  {
    seq(|keys|, i requires 0 <= i < |keys| => save(media[keys[i]]))
  }

  function Pad(d: seq<Byte>): (r: seq<Byte>)
    ensures |r| % 4 == 0 && d <= r && |r| - |d| < 4
  {
    d + seq((4 - |d| % 4) % 4, i => 0)
  }

  /** server_tokens_state_writer */
  class Writer {
    var data: seq<Byte>

    constructor ()
      ensures data == []
    {
      data := [];
    }

    method WriteWords(ws: seq<U32>)
      modifies this
      ensures data == old(data) + Words(ws)
    {
      data := data + Words(ws);
    }

    method WriteVector(ws: seq<U32>) returns (ok: bool)
      modifies this
      ensures ok <==> |ws| <= U32_MAX
      ensures ok ==> data == old(data) + Vector(ws)
    {
      if |ws| > U32_MAX { return false; }
      data := data + Words([|ws|]);
      data := data + Words(ws);
      ok := true;
    }

    method WriteBlob(b: seq<Byte>) returns (ok: bool)
      modifies this
      ensures ok <==> 0 < |b| <= U32_MAX
      ensures ok ==> data == old(data) + (Words([|b|]) + b)
    {
      if b == [] || |b| > U32_MAX { return false; }
      data := data + Words([|b|]);
      data := data + b;
      ok := true;
    }
  }

  lemma {:induction false} BlobsAppend(bs: seq<seq<Byte>>, b: seq<Byte>)
    requires SmallBlobs(bs) && |b| <= U32_MAX
    ensures SmallBlobs(bs + [b]) && Blobs(bs + [b]) == Blobs(bs) + (Words([|b|]) + b)
  {
    if bs == [] {
      assert bs + [b] == [b];
    } else {
      assert (bs + [b])[1..] == bs[1..] + [b];
      BlobsAppend(bs[1..], b);
    }
  }

  /** The keys taken out so far are the smallest ones, in order. */
  ghost predicate KeysDone(keys: seq<U32>, rest: set<nat>, media: Media) {
    rest <= media.Keys && |keys| + |rest| == |media| &&
    (forall i, j :: 0 <= i < j < |keys| ==> keys[i] < keys[j]) &&
    (forall i :: 0 <= i < |keys| ==> keys[i] in media && keys[i] !in rest) &&
    (forall i, k :: 0 <= i < |keys| && k in rest ==> keys[i] < k) &&
    (forall k :: k in media && k !in rest ==> k in keys)
  }

  lemma NextKey(keys: seq<U32>, rest: set<nat>, media: Media, k: U32)
    requires KeysDone(keys, rest, media) && k in rest && forall j :: j in rest ==> k <= j
    ensures KeysDone(keys + [k], rest - {k}, media)
  {
  }

  method KeysInOrder(media: Media) returns (r: Option<seq<U32>>)
    ensures r.Some? <==> forall k :: k in media ==> k <= U32_MAX
    ensures r.Some? ==> KeyOrder(r.value, media) && |r.value| == |media|
    ensures r.Some? ==> forall i, j :: 0 <= i < j < |r.value| ==> r.value[i] < r.value[j]
    ensures r.Some? ==> forall k :: k in media <==> k in r.value
  {
    var keys: seq<U32> := [];
    var rest := media.Keys;
    while rest != {}
      invariant KeysDone(keys, rest, media)
      decreases rest
    {
      var k := ServerTokens.FirstKey(rest);
      if k > U32_MAX { return None; }
      NextKey(keys, rest, media, k);
      keys := keys + [k];
      rest := rest - {k};
    }
    r := Some(keys);
  }

  method WriteChunks(writer: Writer, keys: seq<U32>, media: Media, save: Save) returns (ok: bool)
    requires forall k :: k in keys ==> k in media
    modifies writer
    ensures ok <==> forall k :: k in keys ==> FitsAt(media, k, save)
    ensures ok ==> SmallBlobs(BlobsOf(keys, media, save))
    ensures ok ==> writer.data == old(writer.data) + Blobs(BlobsOf(keys, media, save))
  {
    hide Words;
    ghost var blobs := BlobsOf(keys, media, save);
    for i := 0 to |keys|
      invariant SmallBlobs(blobs[..i]) && writer.data == old(writer.data) + Blobs(blobs[..i])
      invariant forall j :: 0 <= j < i ==> FitsAt(media, keys[j], save)
    {
      ok := writer.WriteBlob(save(media[keys[i]]));
      if !ok {
        assert keys[i] in keys && !FitsAt(media, keys[i], save);
        return;
      }
      BlobsAppend(blobs[..i], blobs[i]);
      assert blobs[..i + 1] == blobs[..i] + [blobs[i]];
    }
    assert blobs[..|keys|] == blobs;
    ok := true;
  }

  /** d is what serialize makes of the list. */
  ghost predicate SerializedAs(d: seq<Byte>, tokens: seq<I32>, media: Media, save: Save, keys: seq<U32>) {
    KeyOrder(keys, media) && Written(tokens, media, save, keys) &&
    d == Pad(Saved(tokens, keys, BlobsOf(keys, media, save)))
  }

  lemma TooLong(tokens: seq<I32>, media: Media, save: Save)
    requires |tokens| > U32_MAX
    ensures !Fits(tokens, media, save)
  {
  }

  lemma KeyTooLarge(tokens: seq<I32>, media: Media, save: Save)
    requires exists k :: k in media && k > U32_MAX
    ensures !Fits(tokens, media, save)
  {
  }

  lemma FitsByKeys(tokens: seq<I32>, media: Media, save: Save, keys: seq<U32>)
    requires KeyOrder(keys, media) && |keys| == |media|
    ensures forall k :: k in keys ==> k in media
    ensures Fits(tokens, media, save) <==>
            |tokens| <= U32_MAX && |keys| <= U32_MAX && forall k :: k in keys ==> FitsAt(media, k, save)
  {
  }

  /** serialize writes the saved form, in key order, padded with zeros; it fails exactly when something does not fit. */
  method Serialize(tokens: seq<I32>, media: Media, save: Save) returns (r: Option<seq<Byte>>)
    ensures r.Some? <==> Fits(tokens, media, save)
    ensures r.Some? ==>
      exists keys :: SerializedAs(r.value, tokens, media, save, keys) &&
        forall i, j :: 0 <= i < j < |keys| ==> keys[i] < keys[j]
  {
    hide Words, Vector, TokenWords, Pad, Fits, BlobsOf;
    var writer := new Writer();
    writer.WriteWords([AsWord(NULL_TOKEN), VERSION]);
    assert writer.data == Words([AsWord(NULL_TOKEN), VERSION]);
    var ok := writer.WriteVector(TokenWords(tokens));
    if !ok { TooLong(tokens, media, save); return None; }
    var keys := KeysInOrder(media);
    if keys.None? { KeyTooLarge(tokens, media, save); return None; }
    FitsByKeys(tokens, media, save, keys.value);
    ok := writer.WriteVector(keys.value);
    if !ok { return None; }
    ok := WriteChunks(writer, keys.value, media, save);
    if !ok { return None; }
    r := Some(Pad(writer.data));
    assert SerializedAs(r.value, tokens, media, save, keys.value);
  }

  predicate Written(tokens: seq<I32>, media: Media, save: Save, keys: seq<U32>) {
    |tokens| <= U32_MAX && |keys| <= U32_MAX && (forall k :: k in keys ==> k in media) &&
    SmallBlobs(BlobsOf(keys, media, save))
  }

  /** The foreign pair of functions is inverse on the chunks of this map. */
  ghost predicate Inverse(media: Media, save: Save, load: Load) {
    forall k :: k in media ==> save(media[k]) != [] && load(save(media[k])) == Some(media[k])
  }

  lemma {:induction false} MediaBack(m: Media, keys: seq<U32>, media: Media, save: Save, load: Load)
    requires (forall k :: k in keys ==> k in media) && Inverse(media, save, load)
    requires forall k :: k in m ==> k in media && m[k] == media[k]
    ensures AllLoad(BlobsOf(keys, media, save), load)
    ensures var r := MediaOf(m, keys, BlobsOf(keys, media, save), load);
      forall k :: (k in r <==> k in m || k in keys) && (k in r ==> k in media && r[k] == media[k])
    decreases |keys|
  {
    if keys != [] {
      assert BlobsOf(keys, media, save)[1..] == BlobsOf(keys[1..], media, save);
      MediaBack(m[keys[0] := media[keys[0]]], keys[1..], media, save, load);
    }
  }

  /** deserialize inverts serialize, despite the padding, for every list and every media map. */
  lemma RoundTrip(tokens: seq<I32>, media: Media, save: Save, load: Load, hasMtmd: bool, keys: seq<U32>, d: seq<Byte>)
    requires Inverse(media, save, load) && (media == map[] || hasMtmd)
    requires SerializedAs(d, tokens, media, save, keys)
    ensures Deserialized(Packed(d), hasMtmd, load) == Some(Restored(tokens, media))
  {
    var raw := Saved(tokens, keys, BlobsOf(keys, media, save));
    MediaBack(map[], keys, media, save, load);
    assert MediaOf(map[], keys, BlobsOf(keys, media, save), load) == media;
    assert keys != [] ==> keys[0] in keys;
    assert SavedAs(d, hasMtmd, load, tokens, media, keys, BlobsOf(keys, media, save), d[|raw|..]);
    ParsesSaved(d, hasMtmd, load, tokens, media, keys, BlobsOf(keys, media, save), d[|raw|..]);
    PackedBytes(d);
    assert Packed(d)[0] == AsToken(Word(d, 0)) == NULL_TOKEN;
  }

  /** A list comes back as it is, without media, exactly when it does not start with the marker. */
  lemma LegacyExact(packed: seq<I32>, hasMtmd: bool, load: Load)
    ensures Deserialized(packed, hasMtmd, load) == Some(Restored(packed, map[])) <==>
      packed == [] || packed[0] != NULL_TOKEN
  {
  }
}
