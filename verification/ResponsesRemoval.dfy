/** The reports the adapter adds (gateway/internal/server/responses_sse_adapter.go) can be taken out again: when what is
    left are the events that came in. */
module ResponsesRemoval {
  import opened ResponsesCalls
  import opened ResponsesSse
  import opened ResponsesStream

  /** Which of the blocks sent for a stream are injected reports. */
  function Marks(c: Codec, calls: Calls, blocks: seq<seq<string>>): seq<bool>
    decreases |blocks|
  {
    if blocks == [] then []
    else
      (if Injects(calls, Decoded(c, blocks[0])) then [true, false] else [false]) +
      Marks(c, Step(calls, Decoded(c, blocks[0])), blocks[1..])
  }

  /** The blocks that are not marked. */
  function Unmarked(blocks: seq<seq<string>>, marks: seq<bool>): seq<seq<string>>
    requires |blocks| == |marks|
  {
    if blocks == [] then [] else (if marks[0] then [] else [blocks[0]]) + Unmarked(blocks[1..], marks[1..])
  }

  lemma {:induction false} UnmarkedConcat(a: seq<seq<string>>, b: seq<seq<string>>, m: seq<bool>, n: seq<bool>)
    requires |a| == |m| && |b| == |n|
    ensures Unmarked(a + b, m + n) == Unmarked(a, m) + Unmarked(b, n)
  {
    if a == [] {
      assert a + b == b && m + n == n;
    } else {
      assert (a + b)[1..] == a[1..] + b && (m + n)[1..] == m[1..] + n;
      UnmarkedConcat(a[1..], b, m[1..], n);
    }
  }

  /** The block with nothing done to it but the rewriting of response.completed. */
  function RewrittenBlock(c: Codec, block: seq<string>): seq<string> {
    var i := FirstData(block);
    if i == |block| then block else block[i := PlainLine(c, block[i])]
  }

  function EventsOf(blocks: seq<seq<string>>): seq<Event> {
    if blocks == [] then [] else [EventOf(blocks[0])] + EventsOf(blocks[1..])
  }

  function RewrittenEvents(c: Codec, blocks: seq<seq<string>>): seq<Event> {
    if blocks == [] then [] else [EventOf(RewrittenBlock(c, blocks[0]))] + RewrittenEvents(c, blocks[1..])
  }

  lemma {:induction false} EventsOfConcat(a: seq<seq<string>>, b: seq<seq<string>>)
    ensures EventsOf(a + b) == EventsOf(a) + EventsOf(b)
  {
    if a == [] {
      assert a + b == b;
    } else {
      assert (a + b)[1..] == a[1..] + b;
      EventsOfConcat(a[1..], b);
    }
  }

  /** The block is an output_item.done event with one data line and no other field. */
  predicate BareItem(block: seq<string>) {
    var i := FirstData(block);
    i < |block| && EventOf(block) == Event(Some(ITEM), [PayloadOf(block[i])], [])
  }

  /** Every block a report is put before is a bare item. */
  predicate BareWhereInjected(c: Codec, calls: Calls, blocks: seq<seq<string>>)
    decreases |blocks|
  {
    blocks == [] ||
    ((Injects(calls, Decoded(c, blocks[0])) ==> BareItem(blocks[0])) &&
     BareWhereInjected(c, Step(calls, Decoded(c, blocks[0])), blocks[1..]))
  }

  /** One block. */
  lemma OneRestored(c: Codec, calls: Calls, block: seq<string>)
    requires Sane(c) && Proper(block)
    ensures var marks := if Injects(calls, Decoded(c, block)) then [true, false] else [false];
      |SentBlocks(c, calls, block)| == |marks| &&
      |Unmarked(SentBlocks(c, calls, block), marks)| == 1 &&
      (EventOf(Unmarked(SentBlocks(c, calls, block), marks)[0]) == EventOf(RewrittenBlock(c, block)) <==>
         (Injects(calls, Decoded(c, block)) ==> BareItem(block)))
  {
    hide Proper, EventOf, Injects, Finished, ReportBlock, ItemBlock, PlainLine, Sane, Decoded;
    var sent := SentBlocks(c, calls, block);
    if Injects(calls, Decoded(c, block)) {
      InjectedRestored(c, calls, block);
      assert sent[1..] == [sent[1]] && [true, false][1..] == [false];
      assert Unmarked([sent[1]], [false]) == [sent[1]] + Unmarked([], []);
    } else {
      assert Unmarked(sent, [false]) == [sent[0]] + Unmarked([], []);
    }
  }

  lemma InjectedRestored(c: Codec, calls: Calls, block: seq<string>)
    requires Sane(c) && Proper(block) && Injects(calls, Decoded(c, block))
    ensures FirstData(block) < |block| && RewrittenBlock(c, block) == block
    ensures EventOf(ItemBlock(c, block[FirstData(block)])) == EventOf(block) <==> BareItem(block)
  {
    InjectedHasData(c, calls, block);
    var i := FirstData(block);
    hide EventOf, Injects, ItemBlock, PlainLine, Sane, Trim, IsBlank;
    assert FullLine(block[i]);
    hide Proper, FullLine;
    NotCompleted(c, PayloadOf(block[i]));
    CompletedIsOther(c, PayloadOf(block[i]));
    SamePlain(c, block[i]);
    SameAt(block, i);
    ItemEvent(c, block);
  }

  lemma CompletedIsOther(c: Codec, p: string)
    requires Sane(c) && c.decode(p) != Other
    ensures c.completed(p).None?
  {
  }

  /** What is marked are report events. */
  lemma {:induction false} MarkedAreReports(c: Codec, calls: Calls, blocks: seq<seq<string>>, i: nat)
    returns (s: CallState)
    requires Sane(c) && i < |Marks(c, calls, blocks)| == |Adapt(c, calls, blocks)| && Marks(c, calls, blocks)[i]
    ensures Adapt(c, calls, blocks)[i] == ReportBlock(c, s)
    ensures EventOf(Adapt(c, calls, blocks)[i]) == Event(Some(REPORT), [c.encode(s)], [])
    decreases |blocks|
  {
    hide EventOf, Decoded, Step, Injects, Sane, ReportBlock, ItemBlock, Finished;
    var ev := Decoded(c, blocks[0]);
    var n := |SentBlocks(c, calls, blocks[0])|;
    if i == 0 {
      InjectedHasData(c, calls, blocks[0]);
      s := Finished(calls, ev);
      ReportEvent(c, s);
    } else if i >= n {
      s := MarkedAreReports(c, Step(calls, ev), blocks[1..], i - n);
    }
  }

  /** For all streams of complete events: without the injected reports the output is, event for event, the input with
      only response.completed rewritten, exactly when every report was put before a bare item. */
  lemma {:induction false} RestoredExactly(c: Codec, calls: Calls, blocks: seq<seq<string>>)
    requires Sane(c) && forall i :: 0 <= i < |blocks| ==> Proper(blocks[i])
    ensures |Marks(c, calls, blocks)| == |Adapt(c, calls, blocks)|
    ensures |EventsOf(Unmarked(Adapt(c, calls, blocks), Marks(c, calls, blocks)))| == |blocks| ==
      |RewrittenEvents(c, blocks)|
    ensures EventsOf(Unmarked(Adapt(c, calls, blocks), Marks(c, calls, blocks))) == RewrittenEvents(c, blocks) <==>
            BareWhereInjected(c, calls, blocks)
    decreases |blocks|
  {
    hide Proper, EventOf, Decoded, Step, SentBlocks, Injects, Sane, BareItem, RewrittenBlock;
    if blocks != [] {
      var ev := Decoded(c, blocks[0]);
      var next := Step(calls, ev);
      var sent, marks := SentBlocks(c, calls, blocks[0]), if Injects(calls, ev) then [true, false] else [false];
      OneRestored(c, calls, blocks[0]);
      RestoredExactly(c, next, blocks[1..]);
      UnmarkedConcat(sent, Adapt(c, next, blocks[1..]), marks, Marks(c, next, blocks[1..]));
      EventsOfConcat(Unmarked(sent, marks), Unmarked(Adapt(c, next, blocks[1..]), Marks(c, next, blocks[1..])));
      HeadAndRest(Unmarked(sent, marks), EventsOf(Unmarked(Adapt(c, next, blocks[1..]), Marks(c, next, blocks[1..]))),
                  EventOf(RewrittenBlock(c, blocks[0])), RewrittenEvents(c, blocks[1..]));
    }
  }

  lemma HeadAndRest(one: seq<seq<string>>, rest: seq<Event>, e: Event, rest': seq<Event>)
    requires |one| == 1
    ensures |EventsOf(one)| == 1
    ensures EventsOf(one) + rest == [e] + rest' <==> EventOf(one[0]) == e && rest == rest'
  {
    assert EventsOf(one) == [EventOf(one[0])];
    if EventsOf(one) + rest == [e] + rest' {
      assert (EventsOf(one) + rest)[0] == e;
      assert (EventsOf(one) + rest)[1..] == rest && ([e] + rest')[1..] == rest';
    }
  }
}
