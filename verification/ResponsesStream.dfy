/** A whole Responses stream through the adapter (gateway/internal/server/responses_sse_adapter.go, copyResponsesSSE):
    what a client that splits the output into lines and events sees. */
module ResponsesStream {
  import opened ResponsesCalls
  import opened ResponsesSse

  // ---- lines and blocks ----

  /** Length of the first line, with its line break. */
  function FirstLine(s: string): (n: nat)
    requires s != ""
    ensures 0 < n <= |s| && RawLine(s[..n]) && (n < |s| ==> s[n - 1] == '\n')
  {
    if s[0] == '\n' || |s| == 1 then 1
    else
      var n := FirstLine(s[1..]);
      assert s[1..][..n] == s[..n + 1][1..];
      n + 1
  }

  function Lines(s: string): (ls: seq<string>)
    ensures forall i :: 0 <= i < |ls| ==> RawLine(ls[i])
    decreases |s|
  {
    if s == "" then [] else [s[..FirstLine(s)]] + Lines(s[FirstLine(s)..])
  }

  lemma {:induction false} FullFirstLine(line: string, rest: string)
    requires FullLine(line)
    ensures FirstLine(line + rest) == |line|
    decreases |line|
  {
    if |line| > 1 {
      assert line[0] != '\n';
      assert (line + rest)[1..] == line[1..] + rest;
      FullFirstLine(line[1..], rest);
    }
  }

  lemma LineSplits(line: string, rest: string)
    requires FullLine(line)
    ensures Lines(line + rest) == [line] + Lines(rest)
  {
    FullFirstLine(line, rest);
    assert (line + rest)[..|line|] == line && (line + rest)[|line|..] == rest;
  }

  /** Joined lines are split where they were joined. */
  lemma {:induction false} LinesOfJoin(ls: seq<string>, rest: string)
    requires AllFull(ls)
    ensures Lines(Join(ls) + rest) == ls + Lines(rest)
  {
    hide FullLine, RawLine;
    if ls == [] {
      assert "" + rest == rest;
    } else {
      LinesOfJoin(ls[1..], rest);
      LinesStep(ls, rest);
      Cons(ls, Lines(rest));
    }
  }

  lemma LinesStep(ls: seq<string>, rest: string)
    requires ls != [] && FullLine(ls[0])
    ensures Lines(Join(ls) + rest) == [ls[0]] + Lines(Join(ls[1..]) + rest)
  {
    hide FullLine;
    LineSplits(ls[0], Join(ls[1..]) + rest);
    assert Join(ls) + rest == ls[0] + (Join(ls[1..]) + rest);
  }

  lemma Cons(a: seq<string>, b: seq<string>)
    requires a != []
    ensures [a[0]] + (a[1..] + b) == a + b
  {
  }

  function FirstBlank(ls: seq<string>): (n: nat)
    ensures n <= |ls| && (n < |ls| ==> IsBlank(ls[n]))
    ensures forall i :: 0 <= i < n ==> !IsBlank(ls[i])
  {
    if ls == [] || IsBlank(ls[0]) then 0 else 1 + FirstBlank(ls[1..])
  }

  /** The blocks copyResponsesSSE collects: up to and with a blank line, and what is left at the end. */
  function Blocks(ls: seq<string>): seq<seq<string>>
    decreases |ls|
  {
    if ls == [] then []
    else
      var n := FirstBlank(ls);
      if n == |ls| then [ls] else [ls[..n + 1]] + Blocks(ls[n + 1..])
  }

  predicate AllFull(ls: seq<string>) {
    forall i :: 0 <= i < |ls| ==> FullLine(ls[i])
  }

  predicate NoneBlank(ls: seq<string>) {
    forall i :: 0 <= i < |ls| ==> !IsBlank(ls[i])
  }

  /** A complete event: full lines, and a blank one exactly at the end. */
  predicate Proper(block: seq<string>) {
    block != [] && AllFull(block) && IsBlank(block[|block| - 1]) && NoneBlank(block[..|block| - 1])
  }

  function Flatten(blocks: seq<seq<string>>): seq<string> {
    if blocks == [] then [] else blocks[0] + Flatten(blocks[1..])
  }

  lemma {:induction false} BlankAt(ls: seq<string>, n: nat)
    requires n <= |ls| && NoneBlank(ls[..n]) && (n < |ls| ==> IsBlank(ls[n]))
    ensures FirstBlank(ls) == n
    decreases n
  {
  }

  lemma BlockSplits(block: seq<string>, rest: seq<string>)
    requires Proper(block)
    ensures Blocks(block + rest) == [block] + Blocks(rest)
  {
    hide AllFull, NoneBlank, IsBlank;
    var ls, n := block + rest, |block| - 1;
    assert ls[..n] == block[..n] && ls[n] == block[n];
    BlankAt(ls, n);
    assert ls[..n + 1] == block && ls[n + 1..] == rest;
  }

  lemma {:induction false} BlocksOfFlatten(blocks: seq<seq<string>>)
    requires forall i :: 0 <= i < |blocks| ==> Proper(blocks[i])
    ensures Blocks(Flatten(blocks)) == blocks && AllFull(Flatten(blocks))
  {
    if blocks != [] {
      BlocksOfFlatten(blocks[1..]);
      assert Proper(blocks[0]);
      BlockSplits(blocks[0], Flatten(blocks[1..]));
    }
  }

  lemma {:induction false} JoinOfFlatten(blocks: seq<seq<string>>)
    ensures Join(Flatten(blocks)) == JoinAll(blocks)
  {
    if blocks != [] {
      JoinOfFlatten(blocks[1..]);
      JoinConcat(blocks[0], Flatten(blocks[1..]));
    }
  }

  /** Complete blocks, sent as bytes, are seen as these blocks again. */
  lemma SeenAsSent(blocks: seq<seq<string>>)
    requires forall i :: 0 <= i < |blocks| ==> Proper(blocks[i])
    ensures Blocks(Lines(JoinAll(blocks))) == blocks
  {
    hide Proper;
    BlocksOfFlatten(blocks);
    JoinOfFlatten(blocks);
    LinesOfJoin(Flatten(blocks), "");
    assert JoinAll(blocks) + "" == JoinAll(blocks);
    assert Flatten(blocks) + Lines("") == Flatten(blocks);
  }

  // ---- the stream ----

  /** The blocks sent for a stream of blocks. */
  function Adapt(c: Codec, calls: Calls, blocks: seq<seq<string>>): seq<seq<string>>
    decreases |blocks|
  {
    if blocks == [] then []
    else SentBlocks(c, calls, blocks[0]) + Adapt(c, Step(calls, Decoded(c, blocks[0])), blocks[1..])
  }

  lemma {:induction false} JoinAllConcat(a: seq<seq<string>>, b: seq<seq<string>>)
    ensures JoinAll(a + b) == JoinAll(a) + JoinAll(b)
  {
    if a == [] {
      assert a + b == b;
    } else {
      assert (a + b)[1..] == a[1..] + b;
      JoinAllConcat(a[1..], b);
      assert Join(a[0]) + (JoinAll(a[1..]) + JoinAll(b)) == JoinAll(a) + JoinAll(b);
    }
  }

  /** What was sent, and what the lines still to come will send, make up all. */
  ghost predicate Pending(c: Codec, calls: Calls, out: string, block: seq<string>, lines: seq<string>, all: string) {
    NoneBlank(block) && (forall i :: 0 <= i < |block| ==> RawLine(block[i])) &&
    out + JoinAll(Adapt(c, calls, Blocks(block + lines))) == all
  }

  lemma PendingStart(c: Codec, lines: seq<string>)
    ensures Pending(c, map[], "", [], lines, JoinAll(Adapt(c, map[], Blocks(lines))))
  {
    assert [] + lines == lines;
  }

  lemma PendingLine(c: Codec, calls: Calls, out: string, block: seq<string>, line: string, lines: seq<string>,
                    all: string)
    requires Pending(c, calls, out, block, [line] + lines, all) && RawLine(line) && !IsBlank(line)
    ensures Pending(c, calls, out, block + [line], lines, all)
  {
    hide Adapt, Blocks, JoinAll, IsBlank, RawLine, NoneBlank;
    NoneBlankMore(block, line);
    assert block + ([line] + lines) == block + [line] + lines;
  }

  lemma PendingBlock(c: Codec, calls: Calls, out: string, block: seq<string>, line: string, lines: seq<string>,
                     all: string)
    requires Pending(c, calls, out, block, [line] + lines, all) && RawLine(line) && IsBlank(line)
    ensures var b := block + [line];
      Pending(c, Step(calls, Decoded(c, b)), out + JoinAll(SentBlocks(c, calls, b)), [], lines, all)
  {
    hide RawLine, IsBlank, Decoded, SentBlocks, Step;
    assert block + ([line] + lines) == block + [line] + lines;
    BlockEnds(block, line, lines);
    AdaptOne(c, calls, block + [line], Blocks(lines));
    NoneBlankYet();
    assert [] + lines == lines;
  }

  lemma PendingEnd(c: Codec, calls: Calls, out: string, block: seq<string>, all: string)
    requires Pending(c, calls, out, block, [], all)
    ensures all == if block == [] then out else out + JoinAll(SentBlocks(c, calls, block))
  {
    hide RawLine, IsBlank, Decoded, SentBlocks, Step;
    assert block + [] == block;
    if block != [] {
      NoBlankLeft(block);
      AdaptOne(c, calls, block, []);
      assert [block] + [] == [block];
    }
  }

  /** copyResponsesSSE: the output is the adapted blocks, the unfinished one at the end included. */
  method CopyResponsesSse(codec: Codec, src: string) returns (out: string)
    requires Sane(codec)
    ensures out == JoinAll(Adapt(codec, map[], Blocks(Lines(src))))
  {
    hide RawLine, IsBlank, Step, SentBlocks, Decoded, NoneBlank, Pending, Sane;
    var adapter := new Adapter(codec);
    var rest: string, block: seq<string> := src, [];
    out := "";
    ghost var all := JoinAll(Adapt(codec, map[], Blocks(Lines(src))));
    PendingStart(codec, Lines(src));
    while rest != ""
      invariant adapter.codec == codec && fresh(adapter)
      invariant Pending(codec, adapter.toolCalls, out, block, Lines(rest), all)
      decreases |rest|
    {
      var n := FirstLine(rest);
      var line := rest[..n];
      rest := rest[n..];
      if IsBlank(line) {
        PendingRaw(codec, adapter.toolCalls, out, block, [line] + Lines(rest), all);
        PendingBlock(codec, adapter.toolCalls, out, block, line, Lines(rest), all);
        var sent := adapter.AdaptBlock(block + [line]);
        out, block := out + sent, [];
      } else {
        PendingLine(codec, adapter.toolCalls, out, block, line, Lines(rest), all);
        block := block + [line];
      }
    }
    PendingEnd(codec, adapter.toolCalls, out, block, all);
    if block != [] {
      PendingRaw(codec, adapter.toolCalls, out, block, [], all);
      var sent := adapter.AdaptBlock(block);
      out := out + sent;
    }
  }

  lemma PendingRaw(c: Codec, calls: Calls, out: string, block: seq<string>, lines: seq<string>, all: string)
    requires Pending(c, calls, out, block, lines, all)
    ensures forall i :: 0 <= i < |block| ==> RawLine(block[i])
  {
  }

  lemma NoneBlankYet()
    ensures NoneBlank([])
  {
  }

  lemma NoneBlankMore(block: seq<string>, line: string)
    requires NoneBlank(block) && !IsBlank(line)
    ensures NoneBlank(block + [line])
  {
  }

  lemma NoBlankLeft(block: seq<string>)
    requires NoneBlank(block) && block != []
    ensures Blocks(block) == [block]
  {
  }

  lemma BlockEnds(block: seq<string>, line: string, rest: seq<string>)
    requires NoneBlank(block) && IsBlank(line)
    ensures Blocks(block + [line] + rest) == [block + [line]] + Blocks(rest)
  {
    hide IsBlank, NoneBlank;
    var ls, n := block + [line] + rest, |block|;
    assert ls[..n] == block && ls[n] == line;
    BlankAt(ls, n);
    assert ls[..n + 1] == block + [line] && ls[n + 1..] == rest;
  }

  lemma AdaptOne(c: Codec, calls: Calls, block: seq<string>, rest: seq<seq<string>>)
    ensures JoinAll(Adapt(c, calls, [block] + rest)) ==
            JoinAll(SentBlocks(c, calls, block)) + JoinAll(Adapt(c, Step(calls, Decoded(c, block)), rest))
  {
    assert ([block] + rest)[1..] == rest;
    JoinAllConcat(SentBlocks(c, calls, block), Adapt(c, Step(calls, Decoded(c, block)), rest));
  }

  // ---- what the client sees ----

  /** Field lines of an event: event, data, and everything else (id, retry, comments) as it is. */
  datatype Event = Event(kind: Option<string>, data: seq<string>, rest: seq<string>)

  const NOTHING: Event := Event(None, [], [])

  predicate HasField(t: string, name: string) {
    t == name || name + ":" <= t
  }

  /** The value after the colon, without one leading space. */
  function FieldValue(t: string, name: string): string
    requires HasField(t, name)
  {
    var n := |name| + 1;
    if t == name then "" else if n < |t| && t[n] == ' ' then t[n + 1..] else t[n..]
  }

  function Add(e: Event, t: string): Event {
    if t == "" then e
    else if HasField(t, "data") then e.(data := e.data + [FieldValue(t, "data")])
    else if HasField(t, "event") then e.(kind := Some(FieldValue(t, "event")))
    else e.(rest := e.rest + [t])
  }

  /** A field's value is what follows the colon, without one leading space; a name alone has an empty value. */
  lemma FieldCases(e: Event, v: string)
    ensures var value := if v != "" && v[0] == ' ' then v[1..] else v;
      Add(e, "data:" + v) == e.(data := e.data + [value]) && Add(e, "event:" + v) == e.(kind := Some(value))
    ensures Add(e, "data") == e.(data := e.data + [""]) && Add(e, "event") == e.(kind := Some("")) && Add(e, "") == e
  {
    FieldAt("data", v);
    FieldAt("event", v);
    OtherName(v);
    assert "data" + ":" + v == "data:" + v && "event" + ":" + v == "event:" + v;
    hide FieldValue;
  }

  lemma FieldAt(name: string, v: string)
    ensures HasField(name + ":" + v, name)
    ensures FieldValue(name + ":" + v, name) == if v != "" && v[0] == ' ' then v[1..] else v
    ensures FieldValue(name, name) == ""
  {
    var t := name + ":" + v;
    assert t[|name| + 1..] == v;
    assert v != "" ==> t[|name| + 2..] == v[1..];
    assert |t| > |name| && t != name;
  }

  lemma OtherName(v: string)
    ensures !HasField("event:" + v, "data") && !HasField("event", "data")
  {
    assert ("event:" + v)[0] == 'e' && "event"[0] == 'e' && "data"[0] == 'd' && ("data" + ":")[0] == 'd';
  }

  function EventOf(block: seq<string>): Event {
    if block == [] then NOTHING else Add(EventOf(block[..|block| - 1]), Trim(block[|block| - 1]))
  }

  function Merge(a: Event, b: Event): Event {
    Event(if b.kind.Some? then b.kind else a.kind, a.data + b.data, a.rest + b.rest)
  }

  lemma {:induction false} EventOfConcat(a: seq<string>, b: seq<string>)
    ensures EventOf(a + b) == Merge(EventOf(a), EventOf(b))
  {
    if b == [] {
      assert a + b == a;
    } else {
      var last := |b| - 1;
      assert (a + b)[..|a + b| - 1] == a + b[..last];
      EventOfConcat(a, b[..last]);
      AddMerges(EventOf(a), EventOf(b[..last]), Trim(b[last]));
    }
  }

  lemma AddMerges(a: Event, b: Event, t: string)
    ensures Add(Merge(a, b), t) == Merge(a, Add(b, t))
  {
  }

  lemma {:induction false} TrimExact(a: string, b: string)
    requires (a == "" || !IsBreak(a[|a| - 1])) && forall i :: 0 <= i < |b| ==> IsBreak(b[i])
    ensures Trim(a + b) == a
    decreases |b|
  {
    if b == [] {
      assert a + b == a;
    } else {
      assert (a + b)[..|a + b| - 1] == a + b[..|b| - 1];
      TrimExact(a, b[..|b| - 1]);
    }
  }

  /** A data line is a data field with the payload as its value. */
  lemma DataField(p: string)
    ensures HasField(DATA + p, "data") && FieldValue(DATA + p, "data") == p && DATA + p != ""
  {
  }

  lemma EventField(v: string)
    ensures !HasField(EVENT + v, "data") && HasField(EVENT + v, "event") && FieldValue(EVENT + v, "event") == v
    ensures EVENT + v != ""
  {
    assert (EVENT + v)[..6] == "event:";
    assert (EVENT + v)[6] == ' ' && (EVENT + v)[7..] == v;
    assert (EVENT + v)[0] == 'e' && "data:"[0] == 'd';
  }

  /** The rewritten data line ends where the old one did. */
  lemma DataTrim(c: Codec, line: string)
    requires Sane(c) && IsData(line)
    ensures Trim(DATA + Rewrite(c, PayloadOf(line)) + Ending(line)) == DATA + Rewrite(c, PayloadOf(line))
  {
    var t, p := Trim(line), Rewrite(c, PayloadOf(line));
    LineParts(line);
    if c.completed(PayloadOf(line)).None? {
      assert DATA + p == t;
    } else if p != "" {
      assert p[|p| - 1] in p;
    }
    TrimExact(DATA + p, Ending(line));
  }

  lemma DataFull(c: Codec, line: string)
    requires Sane(c) && IsData(line) && FullLine(line)
    ensures FullLine(DATA + Rewrite(c, PayloadOf(line)) + Ending(line))
  {
  }

  /** One line of text as it is written: full, and not blank. */
  lemma WrittenLine(t: string)
    requires OneLine(t) && t != ""
    ensures FullLine(t + "\n") && Trim(t + "\n") == t && !IsBlank(t + "\n")
  {
  }

  lemma BlankLine()
    ensures FullLine("\n") && IsBlank("\n") && Trim("\n") == ""
  {
  }

  /** Three lines, a field, a data line and a blank one, are a complete event with nothing else in it. */
  lemma SmallBlock(kind: string, line: string, p: string)
    requires OneLine(kind) && FullLine(line) && Trim(line) == DATA + p
    ensures var b := [EVENT + kind + "\n", line, "\n"];
      Proper(b) && EventOf(b) == Event(Some(kind), [p], []) && FirstData(b) == 1 && IsData(line) && PayloadOf(line) == p
  {
    hide FullLine, Proper, EventOf, Trim, IsBlank;
    OneLineText(EVENT, kind);
    WrittenLine(EVENT + kind);
    BlankLine();
    EventField(kind);
    DataField(p);
    ThreeFields(EVENT + kind + "\n", line, "\n", kind, p);
    ProperThree(EVENT + kind + "\n", line, "\n");
    NoData(kind);
    FirstIs([EVENT + kind + "\n", line, "\n"], 1);
  }

  lemma OneLineText(a: string, b: string)
    requires OneLine(a) && OneLine(b)
    ensures OneLine(a + b)
  {
  }

  lemma ThreeFields(e: string, d: string, blank: string, kind: string, p: string)
    requires Trim(e) == EVENT + kind && Trim(d) == DATA + p && Trim(blank) == ""
    ensures EventOf([e, d, blank]) == Event(Some(kind), [p], [])
  {
    hide Trim, HasField, FieldValue;
    EventField(kind);
    DataField(p);
    assert [e, d, blank][..2] == [e, d] && [e, d][..1] == [e] && [e][..0] == [];
    assert EventOf([e]) == Event(Some(kind), [], []);
    assert EventOf([e, d]) == Event(Some(kind), [p], []);
  }

  lemma ProperThree(a: string, b: string, c: string)
    requires FullLine(a) && FullLine(b) && FullLine(c) && Trim(a) != "" && Trim(b) != "" && Trim(c) == ""
    ensures Proper([a, b, c])
  {
  }

  lemma NoData(kind: string)
    ensures !(DATA <= EVENT + kind)
  {
    assert (EVENT + kind)[0] == 'e' && DATA[0] == 'd';
  }

  /** The injected event is the report and nothing else. */
  lemma ReportEvent(c: Codec, s: CallState)
    requires Sane(c)
    ensures Proper(ReportBlock(c, s)) &&
      EventOf(ReportBlock(c, s)) == Event(Some("response.function_call_arguments.done"), [c.encode(s)], [])
    ensures Decoded(c, ReportBlock(c, s)) == Report(s)
  {
    hide IsBlank, Proper, EventOf, FullLine, Trim, IsData, PayloadOf, Decoded, Sane;
    SaneEncode(c, s);
    ReportIsOneLine();
    WrittenBlock(REPORT, c.encode(s));
    ReportDecodes(c, s, ReportBlock(c, s));
  }

  lemma ReportIsOneLine()
    ensures OneLine(REPORT)
  {
  }

  lemma WrittenBlock(kind: string, p: string)
    requires OneLine(kind) && OneLine(p)
    ensures var b := [EVENT + kind + "\n", DATA + p + "\n", "\n"];
      Proper(b) && EventOf(b) == Event(Some(kind), [p], []) && FirstData(b) == 1 && IsData(b[1]) && PayloadOf(b[1]) == p
  {
    hide IsBlank, Proper, EventOf, FullLine, Trim, IsData, PayloadOf;
    OneLineText(DATA, p);
    WrittenLine(DATA + p);
    SmallBlock(kind, DATA + p + "\n", p);
  }

  lemma SaneEncode(c: Codec, s: CallState)
    requires Sane(c)
    ensures OneLine(c.encode(s))
  {
  }

  lemma ReportDecodes(c: Codec, s: CallState, block: seq<string>)
    requires Sane(c) && |block| == 3 && FirstData(block) == 1 && PayloadOf(block[1]) == c.encode(s)
    ensures Decoded(c, block) == Report(s)
  {
  }

  /** The event sent after it is output_item.done with the item's payload; it is the event that came in exactly when
      that had this type, one data line and no other field. */
  lemma ItemEvent(c: Codec, block: seq<string>)
    requires Sane(c) && FirstData(block) < |block| && FullLine(block[FirstData(block)])
    ensures var line := block[FirstData(block)];
      var p := if c.completed(PayloadOf(line)).Some? then c.completed(PayloadOf(line)).value else PayloadOf(line);
      Proper(ItemBlock(c, line)) &&
      EventOf(ItemBlock(c, line)) == Event(Some("response.output_item.done"), [p], []) &&
      (EventOf(ItemBlock(c, line)) == EventOf(block) <==>
       EventOf(block) == Event(Some("response.output_item.done"), [p], []))
  {
    hide EventOf, Proper, IsData, PayloadOf, FullLine, ItemBlock, Sane, Rewrite;
    ItemLines(c, block[FirstData(block)]);
    RewriteIs(c, PayloadOf(block[FirstData(block)]));
  }

  lemma RewriteIs(c: Codec, p: string)
    ensures Rewrite(c, p) == if c.completed(p).Some? then c.completed(p).value else p
  {
  }

  lemma ItemLines(c: Codec, line: string)
    requires Sane(c) && IsData(line) && FullLine(line)
    ensures var p := Rewrite(c, PayloadOf(line));
      var b := ItemBlock(c, line);
      Proper(b) && EventOf(b) == Event(Some(ITEM), [p], []) && FirstData(b) == 1 && IsData(b[1]) && PayloadOf(b[1]) == p
  {
    hide IsBlank, Proper, EventOf, FullLine, Trim, IsData, PayloadOf, Rewrite, Ending, Sane;
    var p := Rewrite(c, PayloadOf(line));
    DataTrim(c, line);
    DataFull(c, line);
    SmallBlock(ITEM, DATA + p + Ending(line), p);
  }

  /** Any other field line of a block is part of its event, and lost when a report is injected. */
  lemma {:induction false} OtherFieldKept(block: seq<string>, i: nat)
    requires i < |block| && IsOther(Trim(block[i]))
    ensures Trim(block[i]) in EventOf(block).rest
    decreases |block|
  {
    hide HasField, FieldValue, Trim;
    if i < |block| - 1 {
      OtherFieldKept(block[..|block| - 1], i);
    }
  }

  predicate IsOther(t: string) {
    t != "" && !HasField(t, "data") && !HasField(t, "event")
  }

  lemma OtherFieldLost(c: Codec, block: seq<string>, i: nat)
    requires Sane(c) && FirstData(block) < |block| && FullLine(block[FirstData(block)])
    requires i < |block| && IsOther(Trim(block[i]))
    ensures EventOf(ItemBlock(c, block[FirstData(block)])) != EventOf(block)
  {
    hide EventOf, Proper, IsData, PayloadOf, FullLine, ItemBlock, Sane, Rewrite, Trim;
    ItemEvent(c, block);
    OtherFieldKept(block, i);
  }

  /** For instance, the id of an event is lost. */
  lemma IdIsLost(c: Codec, p: string)
    requires Sane(c) && OneLine(p)
    ensures var b := ["id: 7" + "\n", DATA + p + "\n", "\n"];
      FirstData(b) == 1 && IsData(b[1]) && EventOf(ItemBlock(c, b[1])) != EventOf(b)
  {
    hide EventOf, FullLine, Trim, HasField, Sane, ItemBlock;
    var b := ["id: 7" + "\n", DATA + p + "\n", "\n"];
    OneLineText(DATA, p);
    WrittenLine("id: 7");
    WrittenLine(DATA + p);
    IdField();
    FirstIs(b, 1);
    OtherFieldLost(c, b, 0);
  }

  lemma IdField()
    ensures !HasField("id: 7", "data") && !HasField("id: 7", "event") && !(DATA <= "id: 7")
  {
    assert "id: 7"[0] == 'i';
  }

  /** A rewritten block is the event that came in, with its first data field rewritten and the rest kept. */
  lemma RewrittenEvent(c: Codec, block: seq<string>)
    requires Sane(c) && FirstData(block) < |block| && PayloadOf(block[FirstData(block)]) != "[DONE]"
    ensures var i := FirstData(block);
      var p := PayloadOf(block[i]);
      var before, after := EventOf(block[..i]), EventOf(block[i + 1..]);
      EventOf(block) == Merge(Merge(before, Event(None, [p], [])), after) &&
      (var q := if c.completed(p).Some? then c.completed(p).value else p;
       EventOf(block[i := PlainLine(c, block[i])]) == Merge(Merge(before, Event(None, [q], [])), after))
  {
    hide EventOf, Trim, Sane;
    var i := FirstData(block);
    var line := block[i];
    DataTrim(c, line);
    OneDataLine(line, PayloadOf(line));
    OneDataLine(PlainLine(c, line), Rewrite(c, PayloadOf(line)));
    AroundLine(block, i, line);
    AroundLine(block, i, PlainLine(c, line));
    assert block[i := line] == block;
  }

  lemma OneDataLine(line: string, p: string)
    requires Trim(line) == DATA + p
    ensures EventOf([line]) == Event(None, [p], [])
  {
  }

  lemma AroundLine(block: seq<string>, i: nat, line: string)
    requires i < |block|
    ensures EventOf(block[i := line]) == Merge(Merge(EventOf(block[..i]), EventOf([line])), EventOf(block[i + 1..]))
  {
    hide EventOf;
    assert block[i := line] == block[..i] + [line] + block[i + 1..];
    EventOfConcat(block[..i] + [line], block[i + 1..]);
    EventOfConcat(block[..i], [line]);
  }

  /** A block that brings no report stays a complete event carrying the same tool event. */
  lemma PlainBlock(c: Codec, block: seq<string>)
    requires Sane(c) && Proper(block) && FirstData(block) < |block|
    ensures var b := block[FirstData(block) := PlainLine(c, block[FirstData(block)])];
      Proper(b) && Decoded(c, b) == Decoded(c, block)
  {
    var i := FirstData(block);
    var line, b := block[i], block[i := PlainLine(c, block[i])];
    PlainLineKept(c, line);
    ReplacedProper(block, i, b[i]);
    forall j | 0 <= j < i ensures !IsData(b[j]) {
      assert b[j] == block[j];
    }
    FirstIs(b, i);
  }

  lemma PlainLineKept(c: Codec, line: string)
    requires Sane(c) && FullLine(line) && IsData(line)
    ensures FullLine(PlainLine(c, line)) && IsData(PlainLine(c, line)) && !IsBlank(PlainLine(c, line)) && !IsBlank(line)
    ensures LineEvent(c, PlainLine(c, line)) == LineEvent(c, line)
  {
    hide FullLine, Trim;
    if PayloadOf(line) != "[DONE]" {
      DataTrim(c, line);
      DataFull(c, line);
      var p := Rewrite(c, PayloadOf(line));
      assert (DATA + p)[|DATA|..] == p;
      RewriteDecodes(c, PayloadOf(line));
    }
  }

  lemma ReplacedProper(block: seq<string>, i: nat, line: string)
    requires Proper(block) && i < |block| && FullLine(line) && !IsBlank(line) && !IsBlank(block[i])
    ensures Proper(block[i := line])
  {
  }

  /** Everything sent for a complete event is complete events, carrying the tool events of the specification. */
  lemma SentProper(c: Codec, calls: Calls, block: seq<string>)
    requires Sane(c) && Proper(block)
    ensures forall i :: 0 <= i < |SentBlocks(c, calls, block)| ==> Proper(SentBlocks(c, calls, block)[i])
    ensures Events(c, SentBlocks(c, calls, block)) == Payloads(SentFor(calls, Decoded(c, block)))
  {
    hide Proper, Decoded, Injects, Finished, ReportBlock, ItemBlock, PlainLine, Sane;
    var i, ev := FirstData(block), Decoded(c, block);
    if Injects(calls, ev) {
      InjectedProper(c, calls, block);
      TwoSent(Sent(Report(Finished(calls, ev)), true), Sent(ev, false));
      TwoEvents(c, ReportBlock(c, Finished(calls, ev)), ItemBlock(c, block[i]));
    } else {
      if i < |block| {
        PlainBlock(c, block);
      }
      assert SentBlocks(c, calls, block)[1..] == [];
    }
  }

  lemma InjectedProper(c: Codec, calls: Calls, block: seq<string>)
    requires Sane(c) && Proper(block) && Injects(calls, Decoded(c, block))
    ensures FirstData(block) < |block| && CallId(Decoded(c, block)) != ""
    ensures Proper(ReportBlock(c, Finished(calls, Decoded(c, block)))) && Proper(ItemBlock(c, block[FirstData(block)]))
    ensures Decoded(c, ReportBlock(c, Finished(calls, Decoded(c, block)))) == Report(Finished(calls, Decoded(c, block)))
    ensures Decoded(c, ItemBlock(c, block[FirstData(block)])) == Decoded(c, block)
  {
    hide Trim, FullLine, IsBlank, ReportBlock, ItemBlock, IsData, PayloadOf, Sane;
    InjectedHasData(c, calls, block);
    hide Decoded, Finished, Injects;
    ReportEvent(c, Finished(calls, Decoded(c, block)));
    ItemLines(c, block[FirstData(block)]);
    ItemDecodes(c, block);
  }

  lemma InjectedHasData(c: Codec, calls: Calls, block: seq<string>)
    requires Injects(calls, Decoded(c, block))
    ensures FirstData(block) < |block| && CallId(Decoded(c, block)) != "" && Decoded(c, block) != Other
  {
  }

  lemma ItemDecodes(c: Codec, block: seq<string>)
    requires Sane(c) && FirstData(block) < |block| && FullLine(block[FirstData(block)]) && Decoded(c, block) != Other
    ensures Decoded(c, ItemBlock(c, block[FirstData(block)])) == Decoded(c, block)
  {
    hide Trim, FullLine, IsBlank, IsData, Sane, PayloadOf, EventOf, Proper;
    var line := block[FirstData(block)];
    ItemLines(c, line);
    NotCompleted(c, PayloadOf(line));
  }

  lemma NotCompleted(c: Codec, p: string)
    requires Sane(c) && c.decode(p) != Other
    ensures Rewrite(c, p) == p
  {
  }

  /** Tool events of blocks, and payloads of a specified stream. */
  function Events(c: Codec, blocks: seq<seq<string>>): seq<Payload> {
    if blocks == [] then [] else [Decoded(c, blocks[0])] + Events(c, blocks[1..])
  }

  function Payloads(out: seq<Sent>): seq<Payload> {
    if out == [] then [] else [out[0].payload] + Payloads(out[1..])
  }

  lemma TwoSent(a: Sent, b: Sent)
    ensures Payloads([a] + [b]) == [a.payload, b.payload]
  {
    assert ([a] + [b])[1..] == [b] && [b][1..] == [];
    assert Payloads([b]) == [b.payload];
  }

  lemma TwoEvents(c: Codec, a: seq<string>, b: seq<string>)
    ensures Events(c, [a, b]) == [Decoded(c, a), Decoded(c, b)]
  {
    assert [a, b][1..] == [b] && [b][1..] == [];
    assert Events(c, [b]) == [Decoded(c, b)];
  }

  lemma {:induction false} EventsConcat(c: Codec, a: seq<seq<string>>, b: seq<seq<string>>)
    ensures Events(c, a + b) == Events(c, a) + Events(c, b)
  {
    if a == [] {
      assert a + b == b;
    } else {
      assert (a + b)[1..] == a[1..] + b;
      EventsConcat(c, a[1..], b);
    }
  }

  lemma {:induction false} PayloadsConcat(a: seq<Sent>, b: seq<Sent>)
    ensures Payloads(a + b) == Payloads(a) + Payloads(b)
  {
    if a == [] {
      assert a + b == b;
    } else {
      assert (a + b)[1..] == a[1..] + b;
      PayloadsConcat(a[1..], b);
    }
  }

  lemma {:induction false} AdaptRefines(c: Codec, calls: Calls, blocks: seq<seq<string>>)
    requires Sane(c) && forall i :: 0 <= i < |blocks| ==> Proper(blocks[i])
    ensures forall i :: 0 <= i < |Adapt(c, calls, blocks)| ==> Proper(Adapt(c, calls, blocks)[i])
    ensures Events(c, Adapt(c, calls, blocks)) == Payloads(Stream(calls, Events(c, blocks)))
    decreases |blocks|
  {
    hide Proper, Decoded, Step, SentBlocks, SentFor, Sane;
    if blocks != [] {
      var ev := Decoded(c, blocks[0]);
      var next := Step(calls, ev);
      SentProper(c, calls, blocks[0]);
      AdaptRefines(c, next, blocks[1..]);
      EventsConcat(c, SentBlocks(c, calls, blocks[0]), Adapt(c, next, blocks[1..]));
      PayloadsConcat(SentFor(calls, ev), Stream(next, Events(c, blocks[1..])));
      assert Events(c, blocks)[1..] == Events(c, blocks[1..]);
    }
  }

  /** Split at its line feeds, what is sent for a stream of complete events is exactly the blocks specified, and the
      adapter itself would find in them the tool events of the specified stream. */
  lemma BlocksSeen(c: Codec, blocks: seq<seq<string>>)
    requires Sane(c) && forall i :: 0 <= i < |blocks| ==> Proper(blocks[i])
    ensures var out := JoinAll(Adapt(c, map[], Blocks(Lines(JoinAll(blocks)))));
      Blocks(Lines(out)) == Adapt(c, map[], blocks) &&
      Events(c, Blocks(Lines(out))) == Payloads(Stream(map[], Events(c, blocks)))
  {
    hide Proper, Sane;
    SeenAsSent(blocks);
    AdaptRefines(c, map[], blocks);
    SeenAsSent(Adapt(c, map[], blocks));
  }
}
