/** From slot to client (server-context.cpp, process_token): the tokens a slot hands on, as the text the client gets. */
module RequestText {
  import KvMemory
  import SlotState
  import StopWords
  import Utf8

  /** The text of the tokens, and which of them end the request. */
  function Pieces(tokens: seq<KvMemory.Token>, piece: KvMemory.Token -> StopWords.Token): seq<StopWords.Token> {
    seq(|tokens|, i requires 0 <= i < |tokens| => piece(tokens[i]))
  }

  /** What the client got for a request is made of the text one-token-at-a-time decoding generates: a beginning of it
      that holds no stop word, and all of it up to the first one when the request ended by itself. */
  lemma ClientText(model: SlotState.Model, s: SlotState.Slot, piece: KvMemory.Token -> StopWords.Token,
                   words: seq<StopWords.Text>)
    requires SlotState.SaysReference(model, s) && StopWords.NonEmptyWords(words)
    requires forall i :: 0 <= i < |s.sent| ==> Utf8.Valid(piece(s.sent[i]).piece)
    ensures var answer := SlotState.Reference(model, s.task.prompt, |s.sent|)[|s.task.prompt|..];
      var toks := Pieces(answer, piece);
      var client := StopWords.Run(StopWords.Stream([], 0, true), Pieces(s.sent, piece), words);
      StopWords.FaithfulRun(StopWords.Raw(toks), client, StopWords.EndsOnEog(toks), StopWords.EndsOnLimit(toks), words)
  {
    StopWords.StartIsSafe(words);
    var toks := Pieces(s.sent, piece);
    StopWords.RunIsFaithful(StopWords.Stream([], 0, true), toks, words);
    assert [] + StopWords.Raw(toks) == StopWords.Raw(toks);
  }
}
