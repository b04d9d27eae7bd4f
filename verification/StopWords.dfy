/** The incremental stop-word filter (server-context.cpp, find_stopping_strings and process_token):
    generated text is delivered piece by piece, and no stop word may ever reach the client. */
module StopWords {
  import opened Utf8

  type Text = seq<Byte>

  predicate OccursAt(text: Text, w: Text, i: int) {
    0 <= i && i + |w| <= |text| && text[i..i + |w|] == w
  }

  ghost predicate Occurs(text: Text, w: Text) {
    exists i :: OccursAt(text, w, i)
  }

  /** None of the words occurs in text. */
  ghost predicate Free(text: Text, words: seq<Text>) {
    forall k :: 0 <= k < |words| ==> !Occurs(text, words[k])
  }

  /** std::string::find from a start index, -1 for npos. */
  function Find(text: Text, w: Text, from: nat): (i: int)
    ensures i == -1 || (from <= i && OccursAt(text, w, i))
    decreases |text| - from
  {
    if from + |w| > |text| then -1
    else if OccursAt(text, w, from) then from
    else Find(text, w, from + 1)
  }

  lemma {:induction false} FindIsFirst(text: Text, w: Text, from: nat, i: nat)
    requires from <= i && OccursAt(text, w, i)
    ensures from <= Find(text, w, from) <= i
    decreases |text| - from
  {
    if !OccursAt(text, w, from) {
      FindIsFirst(text, w, from + 1, i);
    }
  }

  /** Where find_stopping_strings starts looking for w: only the end of the text can be new. */
  function SearchStart(text: Text, w: Text, last: nat): nat {
    if |text| > |w| + last then |text| - (|w| + last) else 0
  }

  /** Smallest position found over all words, -1 if none. */
  function FullStop(text: Text, words: seq<Text>, last: nat): (p: int)
    ensures -1 <= p <= |text|
  {
    if words == [] then -1
    else
      var rest := FullStop(text, words[..|words| - 1], last);
      var w := words[|words| - 1];
      var pos := Find(text, w, SearchStart(text, w, last));
      if pos != -1 && (rest == -1 || pos < rest) then pos else rest
  }

  /** The text ends in a non-empty beginning of w (string_find_partial_stop finds something). */
  predicate EndsInPartial(text: Text, w: Text) {
    exists n :: 0 < n <= |w| && n <= |text| && text[|text| - n..] == w[..n]
  }

  predicate AnyPartial(text: Text, words: seq<Text>) {
    exists k :: 0 <= k < |words| && EndsInPartial(text, words[k])
  }

  /** The slot's text: what was generated, how much of it went out, whether generation goes on. */
  datatype Stream = Stream(generated: Text, sent: nat, running: bool)

  /** The effect of one token with text piece on the stream (process_token, text part). */
  function Process(s: Stream, piece: Text, eog: bool, words: seq<Text>): (r: Stream)
    requires s.sent <= |s.generated|
    ensures r.sent <= |r.generated|
  {
    var g := s.generated + piece;
    if CompleteLength(g, 1) < |g| then Stream(g, s.sent, !eog)
    else
      var test := g[s.sent..];
      var stop := FullStop(test, words, |piece|);
      if stop != -1 then Stream(g[..s.sent + stop], s.sent + stop, false)
      else if !eog && AnyPartial(test, words) then Stream(g, s.sent, true)
      else Stream(g, |g|, !eog)
  }

  /** A token's text, whether it ends generation, and whether a limit on tokens, time or context ends it with it. */
  datatype Token = Token(piece: Text, eog: bool, limit: bool)

  /** process_token: the limits end a run after the text was sent or held back. */
  function Step(s: Stream, t: Token, words: seq<Text>): (r: Stream)
    requires s.sent <= |s.generated|
    ensures r.sent <= |r.generated|
  {
    var r := Process(s, t.piece, t.eog, words);
    r.(running := r.running && !t.limit)
  }

  /** What the client has received so far. */
  function Delivered(s: Stream): Text
    requires s.sent <= |s.generated|
  {
    s.generated[..s.sent]
  }

  // ---- the loops of the source, against these functions ----

  method FindStoppingStrings(text: Text, words: seq<Text>, last: nat, isFullStop: bool)
    returns (stopPos: int, stopped: bool)
    ensures isFullStop ==> stopPos == FullStop(text, words, last) && (stopped <==> stopPos != -1)
    ensures !isFullStop ==> (stopPos != -1 <==> AnyPartial(text, words)) && !stopped
  {
    stopPos, stopped := -1, false;
    for k := 0 to |words|
      invariant isFullStop ==> stopPos == FullStop(text, words[..k], last) && (stopped <==> stopPos != -1)
      invariant !isFullStop ==> !stopped && stopPos >= -1
      invariant !isFullStop ==> (stopPos != -1 <==> exists j :: 0 <= j < k && EndsInPartial(text, words[j]))
    {
      var pos;
      if isFullStop {
        pos := Find(text, words[k], SearchStart(text, words[k], last));
        assert words[..k + 1][..k] == words[..k];
      } else {
        pos := PartialStop(text, words[k]);
      }
      if pos != -1 && (stopPos == -1 || pos < stopPos) {
        if isFullStop { stopped := true; }
        stopPos := pos;
      }
    }
    assert words[..|words|] == words;
  }

  /** string_find_partial_stop: the longest matching end. */
  method PartialStop(text: Text, w: Text) returns (pos: int)
    ensures -1 <= pos <= |text|
    ensures pos != -1 <==> EndsInPartial(text, w)
  {
    var n: nat := if |text| < |w| then |text| else |w|;
    while n > 0
      invariant n <= |text| && n <= |w|
      invariant forall m :: n < m <= |w| && m <= |text| ==> text[|text| - m..] != w[..m]
    {
      if text[|text| - n..] == w[..n] {
        return |text| - n;
      }
      n := n - 1;
    }
    pos := -1;
  }

  class TokenStream {
    var generated: Text
    var nSent: nat
    var hasNext: bool

    ghost predicate Valid()
      reads this
    {
      nSent <= |generated|
    }

    ghost function Abs(): Stream
      reads this
    {
      Stream(generated, nSent, hasNext)
    }

    constructor ()
      ensures Valid() && Abs() == Stream([], 0, true)
    {
      generated, nSent, hasNext := [], 0, true;
    }

    /** process_token: returns what is sent for this token. */
    method ProcessToken(piece: Text, eog: bool, limit: bool, words: seq<Text>) returns (toSend: Text)
      requires Valid()
      modifies this
      ensures Valid() && Abs() == Step(old(Abs()), Token(piece, eog, limit), words)
      ensures Delivered(Abs()) == old(Delivered(Abs())) + toSend
    {
      hide FullStop, AnyPartial, CompleteLength;
      generated := generated + piece;
      hasNext := true;
      toSend := [];
      assert generated[..nSent] == old(generated)[..nSent];
      var complete := ValidateUtf8(generated);
      if complete >= |generated| {
        toSend := FilterText(|piece|, eog, words);
      }
      if eog || limit {
        hasNext := false;
      }
      assert generated[..nSent] == old(generated)[..old(nSent)] + toSend;
    }

    /** The new text ends on a character boundary: search for stop words, then send or hold back. */
    method FilterText(last: nat, eog: bool, words: seq<Text>) returns (toSend: Text)
      requires Valid() && hasNext
      modifies this
      ensures var g := old(generated);
        var stop := FullStop(g[old(nSent)..], words, last);
        Abs() == if stop != -1 then Stream(g[..old(nSent) + stop], old(nSent) + stop, false)
                 else if !eog && AnyPartial(g[old(nSent)..], words) then old(Abs())
                 else Stream(g, |g|, true)
      ensures Valid() && generated[..nSent] == old(generated[..nSent]) + toSend
    {
      hide FullStop, AnyPartial;
      var pos := if nSent < |generated| then nSent else |generated|;
      var test := generated[pos..];
      var sendText := true;
      toSend := [];
      var stopPos, stopped := FindStoppingStrings(test, words, last, true);
      if stopped { hasNext := false; }
      if stopPos != -1 {
        generated := generated[..pos + stopPos];
        pos := if nSent < |generated| then nSent else |generated|;
      } else if hasNext && !eog {
        var partial, _ := FindStoppingStrings(test, words, last, false);
        sendText := partial == -1;
      }
      if sendText {
        toSend := generated[pos..];
        nSent := nSent + |toSend|;
      }
    }
  }

  // ---- what the client can see ----

  /** The delivered text could not be the beginning of an unfinished stop word. */
  ghost predicate Tight(s: Stream, words: seq<Text>)
    requires s.sent <= |s.generated|
  {
    forall k :: 0 <= k < |words| ==> !EndsInPartial(Delivered(s), words[k])
  }

  /** While generation runs: no stop word anywhere in the text, and none can begin in what was delivered. */
  ghost predicate Safe(s: Stream, words: seq<Text>) {
    s.sent <= |s.generated| && Free(s.generated, words) && (s.running ==> Tight(s, words))
  }

  ghost predicate NonEmptyWords(words: seq<Text>) {
    forall k :: 0 <= k < |words| ==> words[k] != []
  }

  lemma OccursInPrefix(text: Text, n: nat, w: Text, i: int)
    requires n <= |text| && OccursAt(text[..n], w, i)
    ensures OccursAt(text, w, i) && i + |w| <= n
  {
  }

  lemma FreePrefix(text: Text, n: nat, words: seq<Text>)
    requires n <= |text| && Free(text, words)
    ensures Free(text[..n], words)
  {
    forall k | 0 <= k < |words| ensures !Occurs(text[..n], words[k]) {
      if i :| OccursAt(text[..n], words[k], i) {
        OccursInPrefix(text, n, words[k], i);
      }
    }
  }

  /** A word that would start n bytes before the delivered text ends, and reach beyond it, has its beginning there. */
  lemma StraddlingIsPartial(s: Stream, g: Text, w: Text, n: nat)
    requires 0 < n <= s.sent <= |s.generated| <= |g| && g[..|s.generated|] == s.generated
    requires n <= |w| && OccursAt(g, w[..n], s.sent - n)
    ensures EndsInPartial(Delivered(s), w)
  {
  }

  /** A stop word in the grown text starts in the undelivered part and ends in the new piece. */
  lemma NewOccurrence(s: Stream, piece: Text, words: seq<Text>, k: nat, i: int)
    requires Safe(s, words) && s.running && k < |words|
    requires 0 <= i && i + |words[k]| <= |s.generated + piece| && OccursAt(s.generated + piece, words[k], i)
    ensures s.sent <= i && |s.generated| < i + |words[k]|
    ensures OccursAt((s.generated + piece)[s.sent..], words[k], i - s.sent)
  {
    hide EndsInPartial, OccursAt;
    var g, w := s.generated + piece, words[k];
    if i + |w| <= |s.generated| {
      OccursInOld(s.generated, piece, w, i);
    } else if i < s.sent {
      OccursAcross(s, g, w, i);
    } else {
      OccursInRest(g, s.sent, w, i);
    }
  }

  lemma OccursInOld(text: Text, piece: Text, w: Text, i: int)
    requires OccursAt(text + piece, w, i) && i + |w| <= |text|
    ensures OccursAt(text, w, i)
  {
  }

  lemma OccursAcross(s: Stream, g: Text, w: Text, i: int)
    requires 0 <= i < s.sent < i + |w| && s.sent <= |s.generated| && s.generated <= g && OccursAt(g, w, i)
    ensures EndsInPartial(Delivered(s), w)
  {
    var n := s.sent - i;
    assert w[..n] == g[i..i + |w|][..n];
    StraddlingIsPartial(s, g, w, n);
  }

  lemma OccursInRest(text: Text, n: nat, w: Text, i: int)
    requires n <= i && n <= |text| && OccursAt(text, w, i)
    ensures OccursAt(text[n..], w, i - n)
  {
  }

  /** The search start never skips a new occurrence. */
  lemma SearchCovers(s: Stream, piece: Text, words: seq<Text>, k: nat, i: int)
    requires Safe(s, words) && s.running && k < |words|
    requires OccursAt(s.generated + piece, words[k], i)
    ensures var test := (s.generated + piece)[s.sent..];
      var from := SearchStart(test, words[k], |piece|);
      s.sent + from <= i && from <= Find(test, words[k], from) <= i - s.sent
  {
    NewOccurrence(s, piece, words, k, i);
    var test := (s.generated + piece)[s.sent..];
    FindIsFirst(test, words[k], SearchStart(test, words[k], |piece|), i - s.sent);
  }

  /** FullStop is the first hit over all words. */
  lemma {:induction false} FullStopIsFirst(text: Text, words: seq<Text>, last: nat, k: nat)
    requires k < |words| && Find(text, words[k], SearchStart(text, words[k], last)) != -1
    ensures FullStop(text, words, last) != -1
    ensures FullStop(text, words, last) <= Find(text, words[k], SearchStart(text, words[k], last))
    decreases |words|
  {
    var n := |words| - 1;
    if k < n {
      FullStopIsFirst(text, words[..n], last, k);
    }
  }

  /** Every occurrence in the grown text starts at or after the reported stop position. */
  lemma StopIsBeforeAll(s: Stream, piece: Text, words: seq<Text>, k: nat, i: int)
    requires s.sent <= |s.generated| && Safe(s, words) && s.running && k < |words|
    requires OccursAt(s.generated + piece, words[k], i)
    ensures var stop := FullStop((s.generated + piece)[s.sent..], words, |piece|);
      stop != -1 && s.sent + stop <= i
  {
    SearchCovers(s, piece, words, k, i);
    FullStopIsFirst((s.generated + piece)[s.sent..], words, |piece|, k);
  }

  /** One token keeps the stream safe, as long as the grown text ends on a character boundary. */
  lemma ProcessKeepsSafe(s: Stream, piece: Text, eog: bool, words: seq<Text>)
    requires Safe(s, words) && s.running && NonEmptyWords(words)
    requires CompleteLength(s.generated + piece, 1) == |s.generated + piece|
    ensures Safe(Process(s, piece, eog, words), words)
  {
    KeepsFree(s, piece, eog, words);
    KeepsTight(s, piece, eog, words);
  }

  lemma KeepsFree(s: Stream, piece: Text, eog: bool, words: seq<Text>)
    requires s.sent <= |s.generated| && Safe(s, words) && s.running && NonEmptyWords(words)
    requires CompleteLength(s.generated + piece, 1) == |s.generated + piece|
    ensures Free(Process(s, piece, eog, words).generated, words)
  {
    hide Safe, FullStop, AnyPartial, CompleteLength, OccursAt;
    var g := s.generated + piece;
    var stop := FullStop(g[s.sent..], words, |piece|);
    var r := Process(s, piece, eog, words);
    forall k | 0 <= k < |words| ensures !Occurs(r.generated, words[k]) {
      if i :| OccursAt(r.generated, words[k], i) {
        WordIsNotEmpty(words, k);
        if stop != -1 {
          OccursInPrefix(g, s.sent + stop, words[k], i);
        }
        StopIsBeforeAll(s, piece, words, k, i);
      }
    }
  }

  lemma WordIsNotEmpty(words: seq<Text>, k: nat)
    requires NonEmptyWords(words) && k < |words|
    ensures |words[k]| > 0
  {
  }

  lemma KeepsTight(s: Stream, piece: Text, eog: bool, words: seq<Text>)
    requires s.sent <= |s.generated| && s.running && Tight(s, words)
    requires CompleteLength(s.generated + piece, 1) == |s.generated + piece|
    ensures var r := Process(s, piece, eog, words); r.running ==> Tight(r, words)
  {
    hide FullStop, CompleteLength, EndsInPartial;
    var g := s.generated + piece;
    var r := Process(s, piece, eog, words);
    if r.running {
      if r.sent == s.sent {
        assert g[..s.sent] == s.generated[..s.sent];
      } else {
        forall k | 0 <= k < |words| ensures !EndsInPartial(g, words[k]) {
          if EndsInPartial(g, words[k]) {
            PartialSplit(s, piece, words[k]);
          }
        }
        assert Delivered(r) == g;
      }
    }
  }

  /** A beginning of w at the end of the whole text lies in the new part or at the end of what was delivered. */
  lemma PartialSplit(s: Stream, piece: Text, w: Text)
    requires s.sent <= |s.generated| && EndsInPartial(s.generated + piece, w)
    ensures EndsInPartial((s.generated + piece)[s.sent..], w) || EndsInPartial(Delivered(s), w)
  {
    var g := s.generated + piece;
    var test := g[s.sent..];
    var n :| 0 < n <= |w| && n <= |g| && g[|g| - n..] == w[..n];
    if n <= |test| {
      assert test[|test| - n..] == g[|g| - n..];
    } else {
      PartialAcross(s, g, w, n, n - |test|);
    }
  }

  lemma PartialAcross(s: Stream, g: Text, w: Text, n: nat, m: nat)
    requires s.sent <= |s.generated| && s.generated <= g && n <= |w| && n <= |g| && g[|g| - n..] == w[..n]
    requires 0 < m == n - (|g| - s.sent)
    ensures EndsInPartial(Delivered(s), w)
  {
    assert w[..m] == w[..n][..m] == g[|g| - n..][..m];
    assert g[|g| - n..][..m] == g[s.sent - m..s.sent - m + m];
    StraddlingIsPartial(s, g, w, m);
  }

  // ---- whole runs ----

  function Run(s: Stream, toks: seq<Token>, words: seq<Text>): (r: Stream)
    requires s.sent <= |s.generated|
    ensures r.sent <= |r.generated|
    decreases |toks|
  {
    if toks == [] || !s.running then s else Run(Step(s, toks[0], words), toks[1..], words)
  }

  function Raw(toks: seq<Token>): Text {
    if toks == [] then [] else toks[0].piece + Raw(toks[1..])
  }

  /** position p is where the first stop word of the text begins */
  ghost predicate FirstStop(text: Text, words: seq<Text>, p: nat) {
    (exists k :: 0 <= k < |words| && OccursAt(text, words[k], p)) &&
    forall k, i :: 0 <= k < |words| && OccursAt(text, words[k], i) ==> p <= i
  }

  lemma {:induction false} FullStopOccurs(text: Text, words: seq<Text>, last: nat)
    requires FullStop(text, words, last) != -1
    ensures exists k :: 0 <= k < |words| && OccursAt(text, words[k], FullStop(text, words, last))
    decreases |words|
  {
    var n := |words| - 1;
    var pos := Find(text, words[n], SearchStart(text, words[n], last));
    if FullStop(text, words, last) == pos {
      assert OccursAt(text, words[n], pos);
    } else {
      FullStopOccurs(text, words[..n], last);
      var k :| 0 <= k < n && OccursAt(text, words[..n][k], FullStop(text, words[..n], last));
      assert words[k] == words[..n][k];
    }
  }

  /** When a stop word ends the run, the text is cut exactly at the first stop word. */
  lemma StopCutsAtFirst(s: Stream, piece: Text, words: seq<Text>, p: nat)
    requires s.sent <= |s.generated| && Safe(s, words) && s.running
    requires FullStop((s.generated + piece)[s.sent..], words, |piece|) != -1
    requires p == s.sent + FullStop((s.generated + piece)[s.sent..], words, |piece|)
    ensures FirstStop(s.generated + piece, words, p)
  {
    hide Safe, OccursAt;
    var k := StopWitness(s.generated + piece, s.sent, words, |piece|, p);
    NothingBefore(s, piece, words, p);
  }

  lemma NothingBefore(s: Stream, piece: Text, words: seq<Text>, p: int)
    requires s.sent <= |s.generated| && Safe(s, words) && s.running
    requires p == s.sent + FullStop((s.generated + piece)[s.sent..], words, |piece|)
    ensures forall k, i :: 0 <= k < |words| && OccursAt(s.generated + piece, words[k], i) ==> p <= i
  {
    hide Safe, FullStop, OccursAt;
    forall k, i | 0 <= k < |words| && OccursAt(s.generated + piece, words[k], i) ensures p <= i {
      StopIsBeforeAll(s, piece, words, k, i);
    }
  }

  lemma StopWitness(g: Text, n: nat, words: seq<Text>, last: nat, p: nat) returns (k: nat)
    requires n <= |g| && FullStop(g[n..], words, last) != -1 && p == n + FullStop(g[n..], words, last)
    ensures k < |words| && OccursAt(g, words[k], p)
  {
    hide FullStop;
    var test := g[n..];
    FullStopOccurs(test, words, last);
    k :| 0 <= k < |words| && OccursAt(test, words[k], FullStop(test, words, last));
    OccursInSuffix(g, n, words[k], FullStop(test, words, last));
  }

  /** A stop word in the unsent text that reaches the last byte the slot had, or the new piece, ends generation, and the
      text with it, before the first such word. */
  lemma StopEnds(s: Stream, t: Token, words: seq<Text>, k: nat, i: nat)
    requires s.sent <= |s.generated| && CompleteLength(s.generated + t.piece, 1) == |s.generated + t.piece|
    requires k < |words| && s.sent <= i && |s.generated| <= i + |words[k]| <= |s.generated + t.piece|
    requires (s.generated + t.piece)[i..i + |words[k]|] == words[k]
    ensures var r := Step(s, t, words);
      !r.running && s.sent <= r.sent <= i && r.generated == (s.generated + t.piece)[..r.sent] &&
      exists j :: 0 <= j < |words| && OccursAt(s.generated + t.piece, words[j], r.sent)
  {
    hide CompleteLength, FullStop, AnyPartial;
    var g := s.generated + t.piece;
    var test := g[s.sent..];
    OccursInRest(g, s.sent, words[k], i);
    FindIsFirst(test, words[k], SearchStart(test, words[k], |t.piece|), i - s.sent);
    FullStopIsFirst(test, words, |t.piece|, k);
    var j := StopWitness(g, s.sent, words, |t.piece|, s.sent + FullStop(test, words, |t.piece|));
  }

  /** With no such word generation goes on unless the token ends it, and the unsent text goes out unless it could end in
      the beginning of a stop word. */
  lemma NoStopGoesOn(s: Stream, t: Token, words: seq<Text>)
    requires s.sent <= |s.generated| && CompleteLength(s.generated + t.piece, 1) == |s.generated + t.piece|
    requires forall k, i :: 0 <= k < |words| && s.sent <= i && |s.generated| <= i + |words[k]| ==>
      !OccursAt(s.generated + t.piece, words[k], i)
    ensures var r, g := Step(s, t, words), s.generated + t.piece;
      r.generated == g && r.running == (!t.eog && !t.limit) &&
      (r.sent == s.sent || r.sent == |g|) && (t.eog ==> r.sent == |g|) &&
      (r.sent == s.sent < |g| ==> exists k: nat, n: nat :: PartialAt(g[s.sent..], words, k, n)) &&
      (!t.eog && (exists k: nat, n: nat :: PartialAt(g[s.sent..], words, k, n)) ==> r.sent == s.sent)
  {
    hide CompleteLength;
    var g := s.generated + t.piece;
    var test := g[s.sent..];
    if FullStop(test, words, |t.piece|) != -1 {
      FullStopSearched(test, words, |t.piece|);
      var k :| 0 <= k < |words| && OccursAt(test, words[k], FullStop(test, words, |t.piece|)) &&
               |test| <= FullStop(test, words, |t.piece|) + |words[k]| + |t.piece|;
      OccursInSuffix(g, s.sent, words[k], FullStop(test, words, |t.piece|));
    }
    hide FullStop;
    PartialIs(test, words);
  }

  /** The text ends in the first n bytes of word k. */
  predicate PartialAt(text: Text, words: seq<Text>, k: nat, n: nat) {
    k < |words| && 0 < n <= |words[k]| && n <= |text| && text[|text| - n..] == words[k][..n]
  }

  lemma PartialIs(text: Text, words: seq<Text>)
    ensures AnyPartial(text, words) <==> exists k: nat, n: nat :: PartialAt(text, words, k, n)
  {
    if AnyPartial(text, words) {
      var k :| 0 <= k < |words| && EndsInPartial(text, words[k]);
      var n :| 0 < n <= |words[k]| && n <= |text| && text[|text| - n..] == words[k][..n];
      assert PartialAt(text, words, k, n);
    }
    if k: nat, n: nat :| PartialAt(text, words, k, n) {
      assert EndsInPartial(text, words[k]);
    }
  }

  lemma {:induction false} FullStopSearched(text: Text, words: seq<Text>, last: nat)
    requires FullStop(text, words, last) != -1
    ensures exists k ::
      0 <= k < |words| && OccursAt(text, words[k], FullStop(text, words, last)) &&
      |text| <= FullStop(text, words, last) + |words[k]| + last
    decreases |words|
  {
    hide OccursAt;
    var n := |words| - 1;
    var pos := Find(text, words[n], SearchStart(text, words[n], last));
    if FullStop(text, words, last) == pos {
      assert OccursAt(text, words[n], pos);
    } else {
      FullStopSearched(text, words[..n], last);
      var k :| 0 <= k < n && OccursAt(text, words[..n][k], FullStop(text, words[..n], last)) &&
               |text| <= FullStop(text, words[..n], last) + |words[..n][k]| + last;
      assert OccursAt(text, words[k], FullStop(text, words, last));
    }
  }

  lemma OccursInSuffix(text: Text, n: nat, w: Text, i: int)
    requires n <= |text| && OccursAt(text[n..], w, i)
    ensures OccursAt(text, w, n + i)
  {
  }

  /** kept is the raw text up to the first stop word of some beginning of it. */
  ghost predicate CutAtStop(raw: Text, kept: Text, words: seq<Text>) {
    exists n :: 0 <= n <= |raw| && FirstStop(raw[..n], words, |kept|) && kept <= raw[..n]
  }

  ghost predicate EndsOnEog(toks: seq<Token>) {
    exists i :: 0 <= i < |toks| && toks[i].eog
  }

  ghost predicate EndsOnLimit(toks: seq<Token>) {
    exists i :: 0 <= i < |toks| && toks[i].limit
  }

  /** What the client and the server know after a run over the raw text: no stop word was delivered; delivered and
      kept text are beginnings of the raw text; a run that goes on has kept all of it; a run that ended without meeting
      a limit has delivered all it kept, and unless it met EOG it was cut at the very first stop word. */
  ghost predicate FaithfulRun(raw: Text, r: Stream, eog: bool, limit: bool, words: seq<Text>) {
    r.sent <= |r.generated| && Free(Delivered(r), words) && Delivered(r) <= raw && r.generated <= raw &&
    if r.running then r.generated == raw
    else limit || (Delivered(r) == r.generated && (eog || CutAtStop(raw, r.generated, words)))
  }

  lemma StepEnds(s: Stream, t: Token, rest: Text, words: seq<Text>)
    requires Safe(s, words) && s.running && NonEmptyWords(words)
    requires CompleteLength(s.generated + t.piece, 1) == |s.generated + t.piece|
    requires !Step(s, t, words).running
    ensures FaithfulRun(s.generated + t.piece + rest, Step(s, t, words), t.eog, t.limit, words)
  {
    hide FullStop, AnyPartial;
    var r := Process(s, t.piece, t.eog, words);
    var g := s.generated + t.piece;
    ProcessKeepsSafe(s, t.piece, t.eog, words);
    FreePrefix(r.generated, r.sent, words);
    assert Delivered(Step(s, t, words)) == Delivered(r);
    assert r.generated <= g <= g + rest;
    if FullStop(g[s.sent..], words, |t.piece|) != -1 {
      StopCutsAtFirst(s, t.piece, words, |r.generated|);
      assert (g + rest)[..|g|] == g;
      assert CutAtStop(g + rest, r.generated, words);
    }
  }

  /** A limit loses text exactly when some of it is held back: a beginning of a stop word ends the new text. */
  lemma LimitLosesHeldText(s: Stream, t: Token, words: seq<Text>)
    requires s.sent <= |s.generated| && s.running && t.limit
    requires CompleteLength(s.generated + t.piece, 1) == |s.generated + t.piece|
    ensures var test := (s.generated + t.piece)[s.sent..];
      var r := Step(s, t, words);
      !r.running && (Delivered(r) == r.generated <==>
        FullStop(test, words, |t.piece|) != -1 || t.eog || !AnyPartial(test, words))
  {
    hide FullStop, CompleteLength;
    var g := s.generated + t.piece;
    if |g[s.sent..]| == 0 {
      assert !AnyPartial(g[s.sent..], words);
    }
    assert g[..|g|] == g;
  }

  /** The main result: it holds for any tokens whose pieces are whole characters. */
  lemma {:induction false} RunIsFaithful(s: Stream, toks: seq<Token>, words: seq<Text>)
    requires s.sent <= |s.generated| && Safe(s, words) && s.running && NonEmptyWords(words) && Valid(s.generated)
    requires forall i :: 0 <= i < |toks| ==> Valid(toks[i].piece)
    ensures FaithfulRun(s.generated + Raw(toks), Run(s, toks, words), EndsOnEog(toks), EndsOnLimit(toks), words)
    decreases |toks|
  {
    hide Safe, NonEmptyWords, Valid, Step, CutAtStop;
    if toks == [] {
      SafeSoFar(s, words);
      assert s.generated + [] == s.generated;
    } else {
      var t := toks[0];
      var r := Step(s, t, words);
      var g := s.generated + t.piece;
      ValidConcat(s.generated, t.piece);
      ValidIsComplete(g);
      assert g + Raw(toks[1..]) == s.generated + Raw(toks);
      EndsLater(toks);
      if r.running {
        StepKeepsSafe(s, t, words);
        RunIsFaithful(r, toks[1..], words);
      } else {
        StepEnds(s, t, Raw(toks[1..]), words);
        assert Run(r, toks[1..], words) == r;
      }
    }
  }

  lemma EndsLater(toks: seq<Token>)
    requires toks != []
    ensures toks[0].eog || EndsOnEog(toks[1..]) ==> EndsOnEog(toks)
    ensures toks[0].limit || EndsOnLimit(toks[1..]) ==> EndsOnLimit(toks)
  {
    if i :| 0 <= i < |toks[1..]| && toks[1..][i].eog { assert toks[i + 1].eog; }
    if i :| 0 <= i < |toks[1..]| && toks[1..][i].limit { assert toks[i + 1].limit; }
  }

  lemma StepKeepsSafe(s: Stream, t: Token, words: seq<Text>)
    requires s.sent <= |s.generated| && Safe(s, words) && s.running && NonEmptyWords(words) && Step(s, t, words).running
    requires CompleteLength(s.generated + t.piece, 1) == |s.generated + t.piece|
    ensures Safe(Step(s, t, words), words) && Step(s, t, words).generated == s.generated + t.piece
  {
    ProcessKeepsSafe(s, t.piece, t.eog, words);
    KeepsAll(s, t.piece, t.eog, words);
  }

  lemma SafeSoFar(s: Stream, words: seq<Text>)
    requires Safe(s, words)
    ensures Free(Delivered(s), words)
  {
    FreePrefix(s.generated, s.sent, words);
  }

  lemma KeepsAll(s: Stream, piece: Text, eog: bool, words: seq<Text>)
    requires s.sent <= |s.generated| && Process(s, piece, eog, words).running
    ensures Process(s, piece, eog, words).generated == s.generated + piece
  {
  }

  /** The fresh stream is safe, so the result holds from the first token on. */
  lemma StartIsSafe(words: seq<Text>)
    requires NonEmptyWords(words)
    ensures Safe(Stream([], 0, true), words)
  {
  }

  // ---- pieces that cut characters ----

  /** No stop word reached the client, and while generation goes on none can have begun to. */
  ghost predicate Clean(s: Stream, words: seq<Text>) {
    s.sent <= |s.generated| && Free(Delivered(s), words) && (s.running ==> Tight(s, words))
  }

  /** A word in the unsent text that ends before the last byte the slot had: find_stopping_strings does not
      look there. */
  predicate Passed(s: Stream, w: Text, i: int) {
    s.sent <= i && i + |w| < |s.generated| && OccursAt(s.generated, w, i)
  }

  /** That is: before the search start. */
  lemma PassedIsUnsearched(s: Stream, piece: Text, w: Text, i: int)
    requires s.sent <= |s.generated| && s.sent <= i && OccursAt(s.generated + piece, w, i)
    ensures Passed(s, w, i) <==> i < s.sent + SearchStart((s.generated + piece)[s.sent..], w, |piece|)
  {
    if i + |w| <= |s.generated| {
      OccursInOld(s.generated, piece, w, i);
    }
  }

  /** The step sends what lies before end: the text is complete, and the stop word found, if any, begins at end or
      later, or no beginning of one holds the text back. */
  predicate SendsUpTo(s: Stream, t: Token, words: seq<Text>, end: int)
    requires s.sent <= |s.generated|
  {
    var g := s.generated + t.piece;
    var test := g[s.sent..];
    var stop := FullStop(test, words, |t.piece|);
    CompleteLength(g, 1) == |g| && if stop != -1 then end <= s.sent + stop else t.eog || !AnyPartial(test, words)
  }

  lemma SendsExactly(s: Stream, t: Token, words: seq<Text>, end: int)
    requires s.sent < end <= |s.generated|
    ensures SendsUpTo(s, t, words, end) <==> end <= Step(s, t, words).sent
  {
    hide FullStop, AnyPartial, CompleteLength;
  }

  /** The step sends text over such a word. */
  ghost predicate Misses(s: Stream, t: Token, words: seq<Text>)
    requires s.sent <= |s.generated|
  {
    exists k, i :: 0 <= k < |words| && Passed(s, words[k], i) && SendsUpTo(s, t, words, i + |words[k]|)
  }

  /** One token, whatever its bytes, keeps stop words from the client exactly when the text it sends passes over none
      that was left in the unsent text, before the start of the search. */
  lemma StepLeaksExactly(s: Stream, t: Token, words: seq<Text>)
    requires s.sent <= |s.generated| && s.running && Clean(s, words)
    ensures Clean(Step(s, t, words), words) <==> !Misses(s, t, words)
  {
    hide Clean, Tight, FullStop, AnyPartial, CompleteLength, Process, OccursAt, SendsUpTo;
    CleanParts(s, words);
    StepKeepsTight(s, t, words);
    var r := Step(s, t, words);
    if Misses(s, t, words) {
      var k, i :| 0 <= k < |words| && Passed(s, words[k], i) && SendsUpTo(s, t, words, i + |words[k]|);
      CleanWords(s, words, k);
      SendsExactly(s, t, words, i + |words[k]|);
      MissedIsSent(s, t, words, k, i);
    }
    LeakMisses(s, t, words);
    CleanParts(r, words);
  }

  lemma LeakMisses(s: Stream, t: Token, words: seq<Text>)
    requires s.sent <= |s.generated| && s.running && Clean(s, words)
    ensures !Free(Delivered(Step(s, t, words)), words) ==> Misses(s, t, words)
  {
    hide Clean, FullStop, AnyPartial, CompleteLength, Process, OccursAt, SendsUpTo, Passed;
    if k: nat :| k < |words| && Occurs(Delivered(Step(s, t, words)), words[k]) {
      var i :| OccursAt(Delivered(Step(s, t, words)), words[k], i);
      SentIsMissed(s, t, words, k, i);
      CleanWords(s, words, k);
      PassedEnds(s, words[k], i);
      SendsExactly(s, t, words, i + |words[k]|);
    }
  }

  lemma PassedEnds(s: Stream, w: Text, i: int)
    requires Passed(s, w, i) && w != []
    ensures s.sent < i + |w| <= |s.generated|
  {
  }

  lemma CleanWords(s: Stream, words: seq<Text>, k: nat)
    requires Clean(s, words) && k < |words|
    ensures words[k] != []
  {
    EmptyOccurs(Delivered(s), words[k]);
  }

  lemma CleanParts(s: Stream, words: seq<Text>)
    requires s.sent <= |s.generated|
    ensures Clean(s, words) <==> Free(Delivered(s), words) && (s.running ==> Tight(s, words))
  {
  }

  lemma StepKeepsTight(s: Stream, t: Token, words: seq<Text>)
    requires s.sent <= |s.generated| && s.running && Tight(s, words)
    ensures Step(s, t, words).running ==> Tight(Step(s, t, words), words)
  {
    if CompleteLength(s.generated + t.piece, 1) == |s.generated + t.piece| {
      KeepsTight(s, t.piece, t.eog, words);
    } else {
      HeldStays(s, t, words);
    }
  }

  /** An incomplete text waits. */
  lemma HeldStays(s: Stream, t: Token, words: seq<Text>)
    requires s.sent <= |s.generated| && CompleteLength(s.generated + t.piece, 1) != |s.generated + t.piece|
    ensures Step(s, t, words).sent == s.sent && Delivered(Step(s, t, words)) == Delivered(s)
  {
  }

  lemma MissedIsSent(s: Stream, t: Token, words: seq<Text>, k: nat, i: int)
    requires s.sent <= |s.generated| && k < |words| && Passed(s, words[k], i)
    requires i + |words[k]| <= Step(s, t, words).sent
    ensures OccursAt(Delivered(Step(s, t, words)), words[k], i)
  {
    hide FullStop, AnyPartial, CompleteLength, Process;
    var g := s.generated + t.piece;
    SentIsPrefix(s, t, words);
    assert g[i..i + |words[k]|] == s.generated[i..i + |words[k]|];
    OccursInCut(g, Step(s, t, words).sent, words[k], i);
  }

  /** A word in what was sent was already in the unsent text, before the search start. */
  lemma SentIsMissed(s: Stream, t: Token, words: seq<Text>, k: nat, i: int)
    requires s.sent <= |s.generated| && s.running && Clean(s, words) && k < |words|
    requires OccursAt(Delivered(Step(s, t, words)), words[k], i)
    ensures Passed(s, words[k], i) && i + |words[k]| <= Step(s, t, words).sent
  {
    hide FullStop, AnyPartial, CompleteLength, EndsInPartial, Process;
    var g, w := s.generated + t.piece, words[k];
    SentIsPrefix(s, t, words);
    OccursInPrefix(g, Step(s, t, words).sent, w, i);
    SentStarts(s, g, words, k, i);
    if CompleteLength(g, 1) == |g| {
      SentEnds(s, t, words, k, i);
    } else {
      HeldStays(s, t, words);
    }
    OccursInOld(s.generated, t.piece, w, i);
  }

  lemma SentIsPrefix(s: Stream, t: Token, words: seq<Text>)
    requires s.sent <= |s.generated|
    ensures var g := s.generated + t.piece;
      var r := Step(s, t, words);
      r.sent <= |g| && Delivered(r) == g[..r.sent]
  {
    hide FullStop, AnyPartial, CompleteLength;
  }

  /** It neither lies in what was delivered before nor straddles its end. */
  lemma SentStarts(s: Stream, g: Text, words: seq<Text>, k: nat, i: int)
    requires s.sent <= |s.generated| && s.running && Clean(s, words) && k < |words|
    requires s.generated <= g && OccursAt(g, words[k], i)
    ensures s.sent <= i && words[k] != []
  {
    hide EndsInPartial, OccursAt;
    var w := words[k];
    EmptyOccurs(Delivered(s), w);
    assert g[..s.sent] == Delivered(s);
    if i + |w| <= s.sent {
      OccursInCut(g, s.sent, w, i);
    } else if 0 <= i < s.sent {
      OccursAcross(s, g, w, i);
    }
    OccursInRange(g, w, i);
  }

  lemma EmptyOccurs(text: Text, w: Text)
    ensures w == [] ==> OccursAt(text, w, 0)
  {
  }

  lemma OccursInRange(text: Text, w: Text, i: int)
    ensures OccursAt(text, w, i) ==> i >= 0
  {
  }

  lemma OccursInCut(text: Text, n: nat, w: Text, i: int)
    requires n <= |text| && OccursAt(text, w, i) && i + |w| <= n
    ensures OccursAt(text[..n], w, i)
  {
  }

  /** It ended before the last byte: the search would have found it otherwise. */
  lemma SentEnds(s: Stream, t: Token, words: seq<Text>, k: nat, i: int)
    requires s.sent <= i && s.sent <= |s.generated| && k < |words| && OccursAt(s.generated + t.piece, words[k], i)
    requires words[k] != [] && i + |words[k]| <= Step(s, t, words).sent
    requires CompleteLength(s.generated + t.piece, 1) == |s.generated + t.piece|
    ensures i + |words[k]| < |s.generated|
  {
    hide FullStop, AnyPartial, CompleteLength, OccursAt;
    var test := (s.generated + t.piece)[s.sent..];
    var w := words[k];
    var from := SearchStart(test, w, |t.piece|);
    OccursInRest(s.generated + t.piece, s.sent, w, i);
    if from <= i - s.sent {
      FindIsFirst(test, w, from, i - s.sent);
      FullStopIsFirst(test, words, |t.piece|, k);
    }
  }

  /** Some step of the run misses a word. */
  ghost predicate RunMisses(s: Stream, toks: seq<Token>, words: seq<Text>)
    requires s.sent <= |s.generated|
    decreases |toks|
  {
    toks != [] && s.running && (Misses(s, toks[0], words) || RunMisses(Step(s, toks[0], words), toks[1..], words))
  }

  /** For all runs, with any pieces: no stop word reaches the client exactly when no step sends text over one that it
      had left in the unsent text. */
  lemma {:induction false} RunLeaksExactly(s: Stream, toks: seq<Token>, words: seq<Text>)
    requires s.sent <= |s.generated| && Clean(s, words)
    ensures Free(Delivered(Run(s, toks, words)), words) <==> !RunMisses(s, toks, words)
    decreases |toks|
  {
    hide Clean, Misses, Step, Free;
    CleanIsFree(s, words);
    if toks != [] && s.running {
      var r := Step(s, toks[0], words);
      StepLeaksExactly(s, toks[0], words);
      if Misses(s, toks[0], words) {
        StepKeepsTight(s, toks[0], words);
        CleanIsFree(r, words);
        LeakStays(r, toks[1..], words);
      } else {
        RunLeaksExactly(r, toks[1..], words);
      }
    }
  }

  lemma CleanIsFree(s: Stream, words: seq<Text>)
    requires s.sent <= |s.generated|
    ensures Clean(s, words) ==> Free(Delivered(s), words) && (s.running ==> Tight(s, words))
    ensures (s.running ==> Tight(s, words)) && !Clean(s, words) ==> !Free(Delivered(s), words)
  {
  }

  /** What was delivered stays delivered. */
  lemma {:induction false} LeakStays(s: Stream, toks: seq<Token>, words: seq<Text>)
    requires s.sent <= |s.generated| && !Free(Delivered(s), words)
    ensures !Free(Delivered(Run(s, toks, words)), words)
    decreases |toks|
  {
    hide Free, Step;
    if toks != [] && s.running {
      var r := Step(s, toks[0], words);
      SentIsPrefix(s, toks[0], words);
      SentGrows(s, toks[0], words);
      if Free(Delivered(r), words) {
        FreePrefix(Delivered(r), s.sent, words);
      }
      LeakStays(r, toks[1..], words);
    }
  }

  lemma SentGrows(s: Stream, t: Token, words: seq<Text>)
    requires s.sent <= |s.generated|
    ensures s.sent <= Step(s, t, words).sent && Delivered(Step(s, t, words))[..s.sent] == Delivered(s)
  {
    hide FullStop, AnyPartial, CompleteLength;
    SentIsPrefix(s, t, words);
    var g, n := s.generated + t.piece, Step(s, t, words).sent;
    assert s.sent <= n && g[..n][..s.sent] == s.generated[..s.sent];
  }

  /** Pieces that cut a character in half break the promise: the search for "ab" is skipped while the text is
      incomplete, and later looks only at the end.  "ab" is delivered. */
  lemma CutPieceLeaksStopWord()
    ensures var words := [[0x61, 0x62]];
      var r := Run(Stream([], 0, true), [Token([0x61, 0x62, 0xE2], false, false),
                                        Token([0x82, 0xAC], false, false)], words);
      Delivered(r) == [0x61, 0x62, 0xE2, 0x82, 0xAC] && !Free(Delivered(r), words)
  {
    hide Process, FullStop, AnyPartial, CompleteLength;
    var words: seq<Text> := [[0x61, 0x62]];
    var t1, t2 := Token([0x61, 0x62, 0xE2], false, false), Token([0x82, 0xAC], false, false);
    LeakFirst(words);
    LeakSecond(words);
    assert [t1, t2][1..] == [t2] && [t2][1..] == [];
    var g: Text := [0x61, 0x62, 0xE2, 0x82, 0xAC];
    assert OccursAt(g, words[0], 0);
  }

  lemma LeakFirst(words: seq<Text>)
    ensures Process(Stream([], 0, true), [0x61, 0x62, 0xE2], false, words) == Stream([0x61, 0x62, 0xE2], 0, true)
  {
  }

  lemma LeakSecond(words: seq<Text>)
    requires words == [[0x61, 0x62]]
    ensures Process(Stream([0x61, 0x62, 0xE2], 0, true), [0x82, 0xAC], false, words) ==
            Stream([0x61, 0x62, 0xE2, 0x82, 0xAC], 5, true)
  {
    var g: Text := [0x61, 0x62, 0xE2, 0x82, 0xAC];
    var w: Text := [0x61, 0x62];
    assert [0x61, 0x62, 0xE2] + [0x82, 0xAC] == g && g[0..] == g;
    LeakIsComplete(g);
    LeakIsMissed(g, w);
    assert words == [w] && words[..0] == [];
    assert FullStop(g, words, 2) == -1;
  }

  lemma LeakIsComplete(g: Text)
    requires g == [0x61, 0x62, 0xE2, 0x82, 0xAC]
    ensures CompleteLength(g, 1) == 5
  {
  }

  lemma LeakIsMissed(g: Text, w: Text)
    requires g == [0x61, 0x62, 0xE2, 0x82, 0xAC] && w == [0x61, 0x62]
    ensures Find(g, w, 1) == -1 && !EndsInPartial(g, w)
  {
    assert g[1..3] == [0x62, 0xE2] && g[2..4] == [0xE2, 0x82] && g[3..5] == [0x82, 0xAC];
    assert Find(g, w, 4) == -1 && Find(g, w, 3) == -1 && Find(g, w, 2) == -1;
    assert g[4..] == [0xAC] && g[3..] == [0x82, 0xAC] && w[..1] == [0x61] && w[..2] == w;
  }
}
