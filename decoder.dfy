/**
 * The client side of the answer stream (`fetchOpenAIResponse` in the chat
 * store): a state machine over the decoded text chunks. Outside a JSON block,
 * text goes to the answer (`fullContent`) or, inside a thinking block, to the
 * reasoning (`reasoningContent`); a `__JSON_START__ … __JSON_END__` block
 * carries the search sources. Markers are looked for with `includes` in each
 * chunk on its own, and the store is only told the new totals on chunks that
 * hold no marker.
 *
 * `Step` is the loop body as written. The code appends a chunk that opens a
 * JSON block to `jsonBuffer` twice (once as the part after the start marker,
 * once more whole when it splits `jsonBuffer + chunk`); `Buffering` selects
 * between that and the evidently intended single append.
 */
module Decoder {
  import opened Text
  import opened Forest

  const JSON_START: string := "__JSON_START__"
  const JSON_END: string := "__JSON_END__"
  const THINKING_START: string := "__THINKING_START__"
  const THINKING_END: string := "__THINKING_END__"

  /**
   * What `JSON.parse(text)` followed by reading `data.sources` gives: a throw
   * (text that is not JSON, or `null`), no truthy `sources` field, or a list.
   */
  datatype Parsed = Unparsable | NoSources | WithSources(sources: seq<Source>)

  /** The loop's local variables. */
  datatype DecoderState = DecoderState(
    fullContent: string,
    reasoningContent: string,
    jsonBuffer: string,
    isJsonBlock: bool,
    isThinkingBlock: bool)

  const INITIAL: DecoderState := DecoderState("", "", "", false, false)

  /**
   * A store update the loop requests for the answer at the tail of the active
   * path: its sources, or its text and reasoning so far.
   */
  datatype Effect = ShowSources(sources: seq<Source>) | ShowText(content: string, reasoning: string)

  datatype Stepped = Stepped(state: DecoderState, effects: seq<Effect>)

  /** `AsWritten` appends the chunk that opens a JSON block a second time; `Once` does not. */
  datatype Buffering = AsWritten | Once

  /** Text goes to the reasoning inside a thinking block and to the answer outside one. */
  function Route(st: DecoderState, text: string): DecoderState {
    if st.isThinkingBlock then st.(reasoningContent := st.reasoningContent + text)
    else st.(fullContent := st.fullContent + text)
  }

  /** A chunk holding `__JSON_START__`: the text before it is routed and the text after it buffered. */
  function OpenJson(st: DecoderState, chunk: string): DecoderState
    requires Contains(chunk, JSON_START)
  {
    var before := Before(chunk, JSON_START);
    var s := if before != "" then Route(st, before) else st;
    s.(isJsonBlock := true, jsonBuffer := s.jsonBuffer + Second(chunk, JSON_START))
  }

  /**
   * Closing a JSON block on `text`: the part before the first `__JSON_END__`,
   * without its first `__JSON_START__`, is parsed; the part after it is routed.
   */
  function CloseJson(st: DecoderState, text: string, parse: string -> Parsed): Stepped {
    var head := Before(text, JSON_END);
    var rest := SplitSecond(text, JSON_END);
    var s := st.(isJsonBlock := false);
    Stepped(if rest == "" then s else AfterJson(s, rest), Found(parse(ReplaceFirst(head, JSON_START, ""))))
  }

  /** The update a parsed JSON block asks for: its sources when it has a truthy `sources` field. */
  function Found(p: Parsed): seq<Effect> {
    match p
    case WithSources(src) => [ShowSources(src)]
    case _ => []
  }

  /** The text after a JSON block: a thinking marker in it switches the block and is dropped. */
  function AfterJson(st: DecoderState, rest: string): DecoderState {
    if Contains(rest, THINKING_START) then
      st.(isThinkingBlock := true, reasoningContent := st.reasoningContent + ReplaceFirst(rest, THINKING_START, ""))
    else if Contains(rest, THINKING_END) then
      st.(isThinkingBlock := false, fullContent := st.fullContent + ReplaceFirst(rest, THINKING_END, ""))
    else Route(st, rest)
  }

  /** A chunk outside a JSON block: thinking markers first (start before end), else plain text. */
  function PlainStep(st: DecoderState, chunk: string): Stepped {
    if Contains(chunk, THINKING_START) then
      Stepped(st.(isThinkingBlock := true,
                  fullContent := st.fullContent + Before(chunk, THINKING_START),
                  reasoningContent := st.reasoningContent + SplitSecond(chunk, THINKING_START)), [])
    else if Contains(chunk, THINKING_END) then
      Stepped(st.(isThinkingBlock := false,
                  reasoningContent := st.reasoningContent + Before(chunk, THINKING_END),
                  fullContent := st.fullContent + SplitSecond(chunk, THINKING_END)), [])
    else
      var s := Route(st, chunk);
      Stepped(s, [ShowText(s.fullContent, s.reasoningContent)])
  }

  /** One pass of the read loop on one chunk. */
  function Step(st: DecoderState, chunk: string, parse: string -> Parsed, buffering: Buffering): Stepped {
    var starts := Contains(chunk, JSON_START);
    var s := if starts then OpenJson(st, chunk) else st;
    var again := !(starts && buffering == Once);
    if s.isJsonBlock then
      if Contains(chunk, JSON_END) then
        CloseJson(s, if again then s.jsonBuffer + chunk else s.jsonBuffer, parse)
      else
        Stepped(if again then s.(jsonBuffer := s.jsonBuffer + chunk) else s, [])
    else PlainStep(s, chunk)
  }

  /** The loop from state `st` over `chunks`, with the updates it requests in order. */
  function RunFrom(st: DecoderState, chunks: seq<string>, parse: string -> Parsed, buffering: Buffering): Stepped
  {
    if chunks == [] then Stepped(st, [])
    else
      var r := RunFrom(st, chunks[..|chunks| - 1], parse, buffering);
      var s := Step(r.state, chunks[|chunks| - 1], parse, buffering);
      Stepped(s.state, r.effects + s.effects)
  }

  /** The whole read loop, from empty accumulators. */
  function Run(chunks: seq<string>, parse: string -> Parsed, buffering: Buffering): Stepped {
    RunFrom(INITIAL, chunks, parse, buffering)
  }

  /** Reading `a + b` is reading `a`, then `b` from where `a` left off. */
  lemma {:induction false} RunAppend(st: DecoderState, a: seq<string>, b: seq<string>, parse: string -> Parsed, buffering: Buffering)
    ensures var ra := RunFrom(st, a, parse, buffering);
      var rb := RunFrom(ra.state, b, parse, buffering);
      RunFrom(st, a + b, parse, buffering) == Stepped(rb.state, ra.effects + rb.effects)
    decreases |b|
  {
    if b == [] {
      assert a + b == a;
    } else {
      var init, last := b[..|b| - 1], b[|b| - 1];
      assert (a + b)[..|a + b| - 1] == a + init;
      RunAppend(st, a, init, parse, buffering);
      var ra := RunFrom(st, a, parse, buffering);
      var ri := RunFrom(ra.state, init, parse, buffering);
      var s := Step(ri.state, last, parse, buffering);
      assert ra.effects + ri.effects + s.effects == ra.effects + (ri.effects + s.effects);
    }
  }

  /** Reading one chunk is one step. */
  lemma RunOne(st: DecoderState, c: string, parse: string -> Parsed, buffering: Buffering)
    ensures RunFrom(st, [c], parse, buffering) == Step(st, c, parse, buffering)
  {
    assert [c][..0] == [];
  }

  /** Chunks without the JSON start marker are read the same whether the opening chunk is buffered once or twice. */
  lemma {:induction false} SameWithoutStart(st: DecoderState, chunks: seq<string>, parse: string -> Parsed)
    requires forall i :: 0 <= i < |chunks| ==> !Contains(chunks[i], JSON_START)
    ensures RunFrom(st, chunks, parse, AsWritten) == RunFrom(st, chunks, parse, Once)
    decreases |chunks|
  {
    if chunks != [] {
      SameWithoutStart(st, chunks[..|chunks| - 1], parse);
    }
  }

  /** The body of the read loop, on the loop's own variables. */
  method ReadChunk(st: DecoderState, chunk: string, parse: string -> Parsed, buffering: Buffering)
    returns (next: DecoderState, effects: seq<Effect>)
    ensures Stepped(next, effects) == Step(st, chunk, parse, buffering)
  {
    var starts := Contains(chunk, JSON_START);
    var s := st;
    if starts {
      s := StartJson(st, chunk);
    }
    var again := !(starts && buffering == Once);
    if s.isJsonBlock {
      if Contains(chunk, JSON_END) {
        next, effects := EndJson(s, if again then s.jsonBuffer + chunk else s.jsonBuffer, parse);
      } else if again {
        next, effects := s.(jsonBuffer := s.jsonBuffer + chunk), [];
      } else {
        next, effects := s, [];
      }
    } else {
      next, effects := ReadText(s, chunk);
    }
  }

  /** The opening of a JSON block, on the loop's variables. */
  method StartJson(st: DecoderState, chunk: string) returns (next: DecoderState)
    requires Contains(chunk, JSON_START)
    ensures next == OpenJson(st, chunk)
  {
    var fullContent, reasoningContent, jsonBuffer := st.fullContent, st.reasoningContent, st.jsonBuffer;
    var isJsonBlock := true;
    var before := Before(chunk, JSON_START);
    if before != "" {
      if st.isThinkingBlock {
        reasoningContent := reasoningContent + before;
      } else {
        fullContent := fullContent + before;
      }
    }
    jsonBuffer := jsonBuffer + Second(chunk, JSON_START);
    next := DecoderState(fullContent, reasoningContent, jsonBuffer, isJsonBlock, st.isThinkingBlock);
  }

  /** The closing of a JSON block, on the loop's variables. */
  method EndJson(st: DecoderState, text: string, parse: string -> Parsed)
    returns (next: DecoderState, effects: seq<Effect>)
    ensures Stepped(next, effects) == CloseJson(st, text, parse)
  {
    var fullContent, reasoningContent, isThinkingBlock := st.fullContent, st.reasoningContent, st.isThinkingBlock;
    var head := Before(text, JSON_END);
    var rest := SplitSecond(text, JSON_END);
    effects := [];
    match parse(ReplaceFirst(head, JSON_START, "")) {
      case WithSources(src) => effects := [ShowSources(src)];
      case _ =>
    }
    if rest != "" {
      if Contains(rest, THINKING_START) {
        isThinkingBlock := true;
        reasoningContent := reasoningContent + ReplaceFirst(rest, THINKING_START, "");
      } else if Contains(rest, THINKING_END) {
        isThinkingBlock := false;
        fullContent := fullContent + ReplaceFirst(rest, THINKING_END, "");
      } else if isThinkingBlock {
        reasoningContent := reasoningContent + rest;
      } else {
        fullContent := fullContent + rest;
      }
    }
    next := DecoderState(fullContent, reasoningContent, st.jsonBuffer, false, isThinkingBlock);
  }

  /** A chunk outside a JSON block, on the loop's variables. */
  method ReadText(st: DecoderState, chunk: string) returns (next: DecoderState, effects: seq<Effect>)
    ensures Stepped(next, effects) == PlainStep(st, chunk)
  {
    var fullContent, reasoningContent, isThinkingBlock := st.fullContent, st.reasoningContent, st.isThinkingBlock;
    effects := [];
    if Contains(chunk, THINKING_START) {
      isThinkingBlock := true;
      fullContent := fullContent + Before(chunk, THINKING_START);
      reasoningContent := reasoningContent + SplitSecond(chunk, THINKING_START);
    } else if Contains(chunk, THINKING_END) {
      isThinkingBlock := false;
      reasoningContent := reasoningContent + Before(chunk, THINKING_END);
      fullContent := fullContent + SplitSecond(chunk, THINKING_END);
    } else {
      if isThinkingBlock {
        reasoningContent := reasoningContent + chunk;
      } else {
        fullContent := fullContent + chunk;
      }
      effects := [ShowText(fullContent, reasoningContent)];
    }
    next := DecoderState(fullContent, reasoningContent, st.jsonBuffer, st.isJsonBlock, isThinkingBlock);
  }

  /** The read loop over the chunks the response delivers, until `done`. */
  method Decode(chunks: seq<string>, parse: string -> Parsed, buffering: Buffering)
    returns (last: DecoderState, effects: seq<Effect>)
    ensures Stepped(last, effects) == Run(chunks, parse, buffering)
  {
    last, effects := INITIAL, [];
    var i := 0;
    while i < |chunks|
      invariant 0 <= i <= |chunks|
      invariant Stepped(last, effects) == Run(chunks[..i], parse, buffering)
    {
      var next, more := ReadChunk(last, chunks[i], parse, buffering);
      assert chunks[..i + 1][..i] == chunks[..i];
      last, effects, i := next, effects + more, i + 1;
    }
    assert chunks[..i] == chunks;
  }

  // ---------------------------------------------------------------- properties of the loop

  /** The chunk holds none of the markers the loop looks for outside a JSON block. */
  predicate MarkerFree(chunk: string) {
    !Contains(chunk, JSON_START) && !Contains(chunk, THINKING_START) && !Contains(chunk, THINKING_END)
  }

  /** Every update in the list is a sources update. */
  predicate OnlySources(effects: seq<Effect>) {
    forall i :: 0 <= i < |effects| ==> effects[i].ShowSources?
  }

  lemma OpenJsonShape(st: DecoderState, chunk: string)
    requires Contains(chunk, JSON_START)
    ensures var r := OpenJson(st, chunk);
      r.isJsonBlock && st.jsonBuffer <= r.jsonBuffer
  {
  }

  /** The text after a JSON block changes neither the buffer nor the JSON flag. */
  lemma AfterJsonShape(st: DecoderState, rest: string)
    ensures var r := AfterJson(st, rest);
      r.jsonBuffer == st.jsonBuffer && r.isJsonBlock == st.isJsonBlock
  {
    if Contains(rest, THINKING_START) {
    } else if Contains(rest, THINKING_END) {
    } else {
      assert AfterJson(st, rest) == Route(st, rest);
    }
  }

  /** Closing a JSON block clears the JSON flag, keeps the buffer and asks for the sources at most. */
  lemma CloseJsonShape(st: DecoderState, text: string, parse: string -> Parsed)
    ensures var r := CloseJson(st, text, parse);
      !r.state.isJsonBlock && r.state.jsonBuffer == st.jsonBuffer && OnlySources(r.effects) && |r.effects| <= 1
  {
    var rest := SplitSecond(text, JSON_END);
    var s := st.(isJsonBlock := false);
    if rest != "" {
      AfterJsonShape(s, rest);
    }
  }

  /** Outside a JSON block a chunk with a thinking marker asks for nothing; any other chunk is routed and shown. */
  lemma PlainStepShape(st: DecoderState, chunk: string)
    ensures var r := PlainStep(st, chunk);
      && r.state.jsonBuffer == st.jsonBuffer && r.state.isJsonBlock == st.isJsonBlock
      && (OnlySources(r.effects) <==> Contains(chunk, THINKING_START) || Contains(chunk, THINKING_END))
      && (!Contains(chunk, THINKING_START) && !Contains(chunk, THINKING_END) ==>
            r.state == Route(st, chunk) && r.effects == [ShowText(r.state.fullContent, r.state.reasoningContent)])
  {
    var r := PlainStep(st, chunk);
    if Contains(chunk, THINKING_START) || Contains(chunk, THINKING_END) {
      assert r.effects == [];
    } else {
      var s := Route(st, chunk);
      assert r == Stepped(s, [ShowText(s.fullContent, s.reasoningContent)]);
      assert !r.effects[0].ShowSources?;
    }
  }

  /**
   * The message text is written on a chunk exactly when the loop is outside a
   * JSON block and the chunk holds no marker; the chunk is then routed whole
   * and the totals after it are what the message shows.
   */
  lemma WritesOnlyMarkerFree(st: DecoderState, chunk: string, parse: string -> Parsed, buffering: Buffering)
    ensures var r := Step(st, chunk, parse, buffering);
      OnlySources(r.effects) <==> st.isJsonBlock || !MarkerFree(chunk)
    ensures var r := Step(st, chunk, parse, buffering);
      !st.isJsonBlock && MarkerFree(chunk) ==>
        r.state == Route(st, chunk) && r.effects == [ShowText(r.state.fullContent, r.state.reasoningContent)]
  {
    StepCases(st, chunk, parse, buffering);
    PlainStepShape(st, chunk);
  }

  /** A chunk that closes a JSON block ends it, whatever the parse gives, and asks for at most the sources. */
  lemma ClosingEndsBlock(st: DecoderState, chunk: string, parse: string -> Parsed, buffering: Buffering)
    requires st.isJsonBlock || Contains(chunk, JSON_START)
    requires Contains(chunk, JSON_END)
    ensures var r := Step(st, chunk, parse, buffering);
      !r.state.isJsonBlock && OnlySources(r.effects) && |r.effects| <= 1
  {
    StepCases(st, chunk, parse, buffering);
  }

  /** The chunks joined in order. */
  function Concat(chunks: seq<string>): string {
    if chunks == [] then "" else Concat(chunks[..|chunks| - 1]) + chunks[|chunks| - 1]
  }

  /** Every chunk holds no marker. */
  predicate AllMarkerFree(chunks: seq<string>) {
    chunks == [] || (AllMarkerFree(chunks[..|chunks| - 1]) && MarkerFree(chunks[|chunks| - 1]))
  }

  /** Routing two texts one after the other routes them joined. */
  lemma RouteTwice(st: DecoderState, x: string, y: string)
    ensures Route(Route(st, x), y) == Route(st, x + y)
  {
    if st.isThinkingBlock {
      assert st.reasoningContent + x + y == st.reasoningContent + (x + y);
    } else {
      assert st.fullContent + x + y == st.fullContent + (x + y);
    }
  }

  /**
   * Outside a JSON block, chunks that each hold no marker are routed as one
   * text, with one text update per chunk. A marker is only seen when it lies
   * wholly inside one chunk.
   */
  lemma {:induction false} MarkerFreeRun(st: DecoderState, chunks: seq<string>, parse: string -> Parsed, buffering: Buffering)
    requires !st.isJsonBlock
    requires AllMarkerFree(chunks)
    ensures RunFrom(st, chunks, parse, buffering).state == Route(st, Concat(chunks))
    ensures |RunFrom(st, chunks, parse, buffering).effects| == |chunks|
  {
    if chunks != [] {
      var init := chunks[..|chunks| - 1];
      var last := chunks[|chunks| - 1];
      MarkerFreeRun(st, init, parse, buffering);
      var mid := RunFrom(st, init, parse, buffering).state;
      WritesOnlyMarkerFree(mid, last, parse, buffering);
      RouteTwice(st, Concat(init), last);
    }
  }

  /** `__THINKING_START__` split over two chunks is not recognised: it ends up in the answer text. */
  lemma SplitMarkerIsText(parse: string -> Parsed, buffering: Buffering)
    ensures var r := Run(["__THINKING_", "START__"], parse, buffering).state;
      r.fullContent == THINKING_START && r.reasoningContent == "" && !r.isThinkingBlock
  {
    var chunks := ["__THINKING_", "START__"];
    forall i | 0 <= i < |chunks| ensures MarkerFree(chunks[i]) {
      ShorterAbsent(chunks[i], JSON_START);
      ShorterAbsent(chunks[i], THINKING_START);
      ShorterAbsent(chunks[i], THINKING_END);
    }
    assert chunks[..1][..0] == [];
    assert AllMarkerFree(chunks[..1]);
    MarkerFreeRun(INITIAL, chunks, parse, buffering);
    assert Concat(chunks) == Concat(chunks[..1]) + chunks[1];
  }

  /**
   * Outside a JSON block the start marker is tested first: in a chunk holding
   * it, everything after it (up to any second start marker) goes to the
   * reasoning, an end marker there included, and the block stays open.
   */
  lemma StartWins(st: DecoderState, a: string, b: string, parse: string -> Parsed, buffering: Buffering)
    requires !st.isJsonBlock
    requires !Contains(a + THINKING_START + b, JSON_START)
    requires IndexOf(a + THINKING_START, THINKING_START) == |a|
    requires !Contains(b, THINKING_START)
    ensures Step(st, a + THINKING_START + b, parse, buffering) ==
      Stepped(st.(isThinkingBlock := true, fullContent := st.fullContent + a,
                  reasoningContent := st.reasoningContent + b), [])
  {
    SplitAround(a, THINKING_START, b);
  }

  /** A chunk holding the start marker and then the end marker leaves the end marker in the reasoning. */
  lemma EndMarkerKeptAsReasoning(st: DecoderState, parse: string -> Parsed, buffering: Buffering)
    requires !st.isJsonBlock
    ensures var r := Step(st, THINKING_START + THINKING_END, parse, buffering).state;
      r.isThinkingBlock && r.reasoningContent == st.reasoningContent + THINKING_END
  {
    var chunk := THINKING_START + THINKING_END;
    assert JSON_START[2] !in chunk;
    CharAbsent(chunk, JSON_START, 2);
    assert THINKING_START[11] !in THINKING_END;
    CharAbsent(THINKING_END, THINKING_START, 11);
    IndexOfSelf(THINKING_START);
    assert [] + THINKING_START + THINKING_END == chunk;
    StartWins(st, [], THINKING_END, parse, buffering);
  }

  /** No step shortens `jsonBuffer`. */
  lemma StepKeepsBuffer(st: DecoderState, chunk: string, parse: string -> Parsed, buffering: Buffering)
    ensures st.jsonBuffer <= Step(st, chunk, parse, buffering).state.jsonBuffer
  {
    StepCases(st, chunk, parse, buffering);
  }

  /** What each branch of `Step` does to the flags, the buffer and the updates. */
  lemma StepCases(st: DecoderState, chunk: string, parse: string -> Parsed, buffering: Buffering)
    ensures var r := Step(st, chunk, parse, buffering);
      && st.jsonBuffer <= r.state.jsonBuffer
      && (!st.isJsonBlock && !Contains(chunk, JSON_START) ==> r == PlainStep(st, chunk))
      && (st.isJsonBlock || Contains(chunk, JSON_START) ==> OnlySources(r.effects) && |r.effects| <= 1)
      && (st.isJsonBlock || Contains(chunk, JSON_START) ==> (r.state.isJsonBlock <==> !Contains(chunk, JSON_END)))
  {
    var starts := Contains(chunk, JSON_START);
    var s := if starts then OpenJson(st, chunk) else st;
    if starts {
      OpenJsonShape(st, chunk);
    }
    var again := !(starts && buffering == Once);
    if s.isJsonBlock {
      if Contains(chunk, JSON_END) {
        CloseJsonShape(s, if again then s.jsonBuffer + chunk else s.jsonBuffer, parse);
      }
    } else {
      PlainStepShape(s, chunk);
    }
  }

  /** `jsonBuffer` is never cleared: what it held stays at its front for the rest of the stream. */
  lemma {:induction false} BufferNeverCleared(chunks: seq<string>, more: seq<string>, parse: string -> Parsed, buffering: Buffering)
    ensures Run(chunks, parse, buffering).state.jsonBuffer <= Run(chunks + more, parse, buffering).state.jsonBuffer
  {
    if more == [] {
      assert chunks + more == chunks;
    } else {
      var init := more[..|more| - 1];
      BufferNeverCleared(chunks, init, parse, buffering);
      assert (chunks + more)[..|chunks + more| - 1] == chunks + init;
      assert (chunks + more)[|chunks + more| - 1] == more[|more| - 1];
      StepKeepsBuffer(Run(chunks + init, parse, buffering).state, more[|more| - 1], parse, buffering);
    }
  }

  /**
   * A chunk that closes the thinking block after the last text chunk adds its
   * remaining text to the answer, but no update shows it: there is no final
   * write after the loop.
   */
  lemma TrailingTextNotShown(chunks: seq<string>, last: string, parse: string -> Parsed, buffering: Buffering)
    requires !Run(chunks, parse, buffering).state.isJsonBlock
    requires !Contains(last, JSON_START) && !Contains(last, THINKING_START) && Contains(last, THINKING_END)
    ensures Run(chunks + [last], parse, buffering).effects == Run(chunks, parse, buffering).effects
    ensures Run(chunks + [last], parse, buffering).state.fullContent ==
      Run(chunks, parse, buffering).state.fullContent + SplitSecond(last, THINKING_END)
  {
    assert (chunks + [last])[..|chunks|] == chunks;
  }

  // ---------------------------------------------------------------- the sources frame

  /**
   * A sources payload the decoder can find its way through: no start marker in
   * it or after it, and its end marker is the first one.
   */
  predicate CleanPayload(j: string) {
    !Contains(j + JSON_END, JSON_START) && IndexOf(j + JSON_END, JSON_END) == |j|
  }

  /**
   * `frame` splits at its first start marker into nothing before it and the
   * payload `j` with the end marker after it, and holds an end marker.
   */
  predicate SplitsAsFrame(frame: string, j: string) {
    && Contains(frame, JSON_START) && Before(frame, JSON_START) == [] && Second(frame, JSON_START) == j + JSON_END
    && Contains(frame, JSON_END)
  }

  /** The frame the producer writes, start marker, payload, end marker, splits as a frame. */
  lemma ProducerFrameSplits(j: string)
    requires CleanPayload(j)
    ensures SplitsAsFrame(JSON_START + j + JSON_END, j)
  {
    var frame := JSON_START + j + JSON_END;
    IndexOfSelf(JSON_START);
    assert [] + JSON_START == JSON_START;
    assert [] + JSON_START + (j + JSON_END) == frame;
    SplitAround([], JSON_START, j + JSON_END);
    IndexOfSelf(JSON_END);
    ContainsSuffix(JSON_START + j, JSON_END, JSON_END);
  }

  /** In the producer's frame the text before the first end marker is the start marker and the payload, when the payload's end marker is the frame's first. */
  lemma ProducerFrameHead(j: string)
    requires IndexOf(JSON_START + j + JSON_END, JSON_END) == |JSON_START| + |j|
    ensures Before(JSON_START + j + JSON_END, JSON_END) == JSON_START + j
  {
    var frame := JSON_START + j + JSON_END;
    assert frame[..|JSON_START| + |j|] == JSON_START + j;
  }

  /** Closing on the buffered payload alone parses exactly the payload and routes nothing. */
  lemma CloseFrame(st: DecoderState, j: string, parse: string -> Parsed)
    requires CleanPayload(j)
    ensures CloseJson(st, j + JSON_END, parse) == Stepped(st.(isJsonBlock := false), Found(parse(j)))
  {
    assert j + JSON_END + [] == j + JSON_END;
    SplitAround(j, JSON_END, []);
    ShorterAbsent([], JSON_END);
    NotContainsPrefix(j, JSON_END, JSON_START);
  }

  /** A chunk holding both JSON markers opens a block and closes it at once. */
  lemma StepWholeBlock(st: DecoderState, chunk: string, parse: string -> Parsed, buffering: Buffering)
    requires Contains(chunk, JSON_START) && Contains(chunk, JSON_END)
    ensures var s := OpenJson(st, chunk);
      Step(st, chunk, parse, buffering) ==
        CloseJson(s, if buffering == Once then s.jsonBuffer else s.jsonBuffer + chunk, parse)
  {
    OpenJsonShape(st, chunk);
  }

  /**
   * With the chunk that opens a block appended once, a whole sources frame
   * yields its sources and adds nothing to the message text.
   */
  lemma JsonFrameOnce(st: DecoderState, frame: string, j: string, parse: string -> Parsed)
    requires !st.isJsonBlock && st.jsonBuffer == ""
    requires CleanPayload(j) && SplitsAsFrame(frame, j)
    ensures Step(st, frame, parse, Once) == Stepped(st.(jsonBuffer := j + JSON_END), Found(parse(j)))
  {
    StepWholeBlock(st, frame, parse, Once);
    assert OpenJson(st, frame) == st.(isJsonBlock := true, jsonBuffer := j + JSON_END);
    CloseFrame(st.(isJsonBlock := true, jsonBuffer := j + JSON_END), j, parse);
  }

  /**
   * As written, the same frame is closed on `payload + end marker + frame`:
   * the sources still arrive, but the text of the frame before its end
   * marker, start marker included, is written into the answer.
   */
  lemma JsonFrameLeaks(st: DecoderState, frame: string, j: string, parse: string -> Parsed)
    requires !st.isJsonBlock && !st.isThinkingBlock && st.jsonBuffer == ""
    requires CleanPayload(j) && SplitsAsFrame(frame, j)
    requires !Contains(Before(frame, JSON_END), THINKING_START) && !Contains(Before(frame, JSON_END), THINKING_END)
    requires Before(frame, JSON_END) != []
    ensures Step(st, frame, parse, AsWritten) ==
      Stepped(st.(jsonBuffer := j + JSON_END, fullContent := st.fullContent + Before(frame, JSON_END)), Found(parse(j)))
  {
    StepWholeBlock(st, frame, parse, AsWritten);
    var s := st.(isJsonBlock := true, jsonBuffer := j + JSON_END);
    assert OpenJson(st, frame) == s;
    IndexOfExtend(j + JSON_END, frame, JSON_END);
    SplitAround(j, JSON_END, frame);
    NotContainsPrefix(j, JSON_END, JSON_START);
    var rest := Before(frame, JSON_END);
    assert SplitSecond(j + JSON_END + frame, JSON_END) == rest;
    assert AfterJson(s.(isJsonBlock := false), rest) == Route(s.(isJsonBlock := false), rest);
  }

  /** The payload `{}` is clean. */
  lemma BracesClean()
    ensures CleanPayload("{}")
  {
    var j := "{}";
    assert JSON_START[9] !in j + JSON_END;
    CharAbsent(j + JSON_END, JSON_START, 9);
    assert (j + JSON_END)[|j|..|j| + |JSON_END|] == JSON_END;
    assert (j + JSON_END)[..|j| + 7] == j + JSON_END[..7];
    FirstByChar(j + JSON_END, JSON_END, |j|, 7);
  }

  /** The first end marker of the frame around `{}` is the one after the payload. */
  lemma BracesFrameHead()
    ensures Before(JSON_START + "{}" + JSON_END, JSON_END) == JSON_START + "{}"
  {
    var j := "{}";
    var frame := JSON_START + j + JSON_END;
    assert frame[|JSON_START| + |j|..|JSON_START| + |j| + |JSON_END|] == JSON_END;
    assert frame[..|JSON_START| + |j| + 7] == JSON_START + j + JSON_END[..7];
    FirstByChar(frame, JSON_END, |JSON_START| + |j|, 7);
    ProducerFrameHead(j);
  }

  /** The leaked text `__JSON_START__{}` holds no thinking marker. */
  lemma BracesNoThinking()
    ensures !Contains(JSON_START + "{}", THINKING_START) && !Contains(JSON_START + "{}", THINKING_END)
  {
    assert THINKING_START[4] !in JSON_START + "{}";
    CharAbsent(JSON_START + "{}", THINKING_START, 4);
    assert THINKING_END[4] !in JSON_START + "{}";
    CharAbsent(JSON_START + "{}", THINKING_END, 4);
  }

  /** The frame around the payload `{}` meets the hypotheses of `JsonFrameLeaks`, with `__JSON_START__{}` as the leaked text. */
  lemma LeakWitness()
    ensures var j, frame := "{}", JSON_START + "{}" + JSON_END;
      && CleanPayload(j) && SplitsAsFrame(frame, j)
      && Before(frame, JSON_END) == JSON_START + j
      && !Contains(JSON_START + j, THINKING_START) && !Contains(JSON_START + j, THINKING_END)
  {
    BracesClean();
    ProducerFrameSplits("{}");
    BracesFrameHead();
    BracesNoThinking();
  }
}
