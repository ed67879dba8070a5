/**
 * The producer's stream read back by the client's loop, each enqueued text
 * arriving as one chunk: with the JSON block buffered once, the message ends
 * up with exactly the content and reasoning the model sent, and the sources
 * are the first update.
 *
 * `Expected` says what one frame does to the decoder; `StepFrame` proves the
 * loop does that on the frame's text, and `RoundTrip` adds up a response.
 */
module RoundTrip {
  import opened Text
  import opened Forest
  import opened Decoder
  import opened Framing

  // ---------------------------------------------------------------- one frame

  /** A frame whose text the loop reads back: marker-free texts, a payload it can find its way through. */
  predicate Readable(f: Frame) {
    match f
    case SourcesFrame(j) => CleanPayload(j)
    case ReasoningText(t) => MarkerFree(t)
    case ContentText(t) => MarkerFree(t)
    case _ => true
  }

  /** Every frame of the list is readable. */
  predicate AllReadable(fs: seq<Frame>) {
    forall i :: 0 <= i < |fs| ==> Readable(fs[i])
  }

  lemma ReadableAppend(a: seq<Frame>, b: seq<Frame>)
    requires AllReadable(a) && AllReadable(b)
    ensures AllReadable(a + b)
  {
    assert forall i :: 0 <= i < |a + b| ==> (a + b)[i] == if i < |a| then a[i] else b[i - |a|];
  }

  /** The loop's state with a text routed, and the update it asks for. */
  function Shown(s: DecoderState): Stepped {
    Stepped(s, [ShowText(s.fullContent, s.reasoningContent)])
  }

  /**
   * What one frame should do: the sources frame yields its sources and leaves
   * the payload in the buffer; a marker switches the thinking block; a text
   * goes to the reasoning or the answer and is shown.
   */
  function Expected(st: DecoderState, f: Frame, parse: string -> Parsed): Stepped {
    match f
    case SourcesFrame(j) => Stepped(st.(jsonBuffer := j + JSON_END), Found(parse(j)))
    case OpenThinking => Stepped(st.(isThinkingBlock := true), [])
    case CloseThinking => Stepped(st.(isThinkingBlock := false), [])
    case ReasoningText(t) => Shown(Route(st, t))
    case ContentText(t) => Shown(Route(st, t))
  }

  /** The thinking markers hold no start of a JSON block: neither has a `J`. */
  lemma NoJsonInMarkers()
    ensures !Contains(THINKING_START, JSON_START) && !Contains(THINKING_END, JSON_START)
  {
    CharAbsent(THINKING_START, JSON_START, 2);
    CharAbsent(THINKING_END, JSON_START, 2);
  }

  /** The end marker does not hold the start marker: it has no `S`. */
  lemma NoStartInEnd()
    ensures !Contains(THINKING_END, THINKING_START)
  {
    CharAbsent(THINKING_END, THINKING_START, 11);
  }

  /** A marker on its own splits into nothing before it and nothing after it. */
  lemma MarkerAlone(m: string)
    ensures Contains(m, m) && Before(m, m) == "" && SplitSecond(m, m) == ""
  {
    IndexOfSelf(m);
  }

  /** A chunk that is just the thinking start marker, seen through the facts the loop tests. */
  lemma StepOpenChunk(st: DecoderState, chunk: string, parse: string -> Parsed)
    requires !st.isJsonBlock && !Contains(chunk, JSON_START)
    requires Contains(chunk, THINKING_START) && Before(chunk, THINKING_START) == "" && SplitSecond(chunk, THINKING_START) == ""
    ensures Step(st, chunk, parse, Once) == Stepped(st.(isThinkingBlock := true), [])
  {
    assert st.fullContent + "" == st.fullContent && st.reasoningContent + "" == st.reasoningContent;
  }

  /** A chunk that is just the thinking end marker, seen through the facts the loop tests. */
  lemma StepCloseChunk(st: DecoderState, chunk: string, parse: string -> Parsed)
    requires !st.isJsonBlock && !Contains(chunk, JSON_START) && !Contains(chunk, THINKING_START)
    requires Contains(chunk, THINKING_END) && Before(chunk, THINKING_END) == "" && SplitSecond(chunk, THINKING_END) == ""
    ensures Step(st, chunk, parse, Once) == Stepped(st.(isThinkingBlock := false), [])
  {
    assert st.fullContent + "" == st.fullContent && st.reasoningContent + "" == st.reasoningContent;
  }

  /** The loop, buffering the opening chunk once, does on each frame's text what `Expected` says. */
  lemma StepFrame(st: DecoderState, f: Frame, parse: string -> Parsed)
    requires !st.isJsonBlock && Readable(f)
    requires f.SourcesFrame? ==> st.jsonBuffer == ""
    ensures Step(st, Wire(f), parse, Once) == Expected(st, f, parse)
  {
    match f
    case SourcesFrame(j) =>
      ProducerFrameSplits(j);
      JsonFrameOnce(st, JSON_START + j + JSON_END, j, parse);
    case OpenThinking =>
      NoJsonInMarkers();
      MarkerAlone(THINKING_START);
      StepOpenChunk(st, THINKING_START, parse);
    case CloseThinking =>
      NoJsonInMarkers();
      NoStartInEnd();
      MarkerAlone(THINKING_END);
      StepCloseChunk(st, THINKING_END, parse);
    case ReasoningText(t) =>
    case ContentText(t) =>
  }

  // ---------------------------------------------------------------- a run of frames

  /** `Expected` over a list of frames, in the shape of the loop's run. */
  function ExpectAll(st: DecoderState, fs: seq<Frame>, parse: string -> Parsed): Stepped {
    if fs == [] then Stepped(st, [])
    else
      var r := ExpectAll(st, fs[..|fs| - 1], parse);
      var s := Expected(r.state, fs[|fs| - 1], parse);
      Stepped(s.state, r.effects + s.effects)
  }

  /** Frames the loop reads back one chunk each: all readable, a sources frame only first and on an empty buffer. */
  predicate ReadableRun(st: DecoderState, fs: seq<Frame>) {
    && !st.isJsonBlock
    && AllReadable(fs)
    && (forall i :: 0 < i < |fs| ==> !fs[i].SourcesFrame?)
    && (|fs| > 0 && fs[0].SourcesFrame? ==> st.jsonBuffer == "")
  }

  lemma SplitLast<T>(x: seq<T>, y: T)
    ensures (x + [y])[..|x|] == x && (x + [y])[|x|] == y
  {
  }

  /** The texts of all frames but the last are the texts of the frames but the last. */
  lemma {:induction false} WiresLast(fs: seq<Frame>)
    requires fs != []
    ensures Wires(fs)[..|fs| - 1] == Wires(fs[..|fs| - 1])
    ensures Wires(fs)[|fs| - 1] == Wire(fs[|fs| - 1])
  {
    var init, last := fs[..|fs| - 1], fs[|fs| - 1];
    assert fs == init + [last];
    WiresAppend(init, [last]);
    var w := Wires([last]);
    assert w == [Wire(last)];
    SplitLast(Wires(init), Wire(last));
  }

  /** Dropping the last frame keeps a run readable; the last frame is readable, and a sources frame only if alone. */
  lemma ReadableInit(st: DecoderState, fs: seq<Frame>)
    requires ReadableRun(st, fs) && fs != []
    ensures ReadableRun(st, fs[..|fs| - 1]) && Readable(fs[|fs| - 1])
    ensures fs[|fs| - 1].SourcesFrame? ==> |fs| == 1 && st.jsonBuffer == ""
  {
    var init := fs[..|fs| - 1];
    assert forall i :: 0 <= i < |init| ==> init[i] == fs[i];
  }

  /** The loop reads a readable run of frames as `ExpectAll` says, and never ends inside a JSON block. */
  lemma {:induction false} RunFrames(st: DecoderState, fs: seq<Frame>, parse: string -> Parsed)
    requires ReadableRun(st, fs)
    ensures RunFrom(st, Wires(fs), parse, Once) == ExpectAll(st, fs, parse)
    ensures !ExpectAll(st, fs, parse).state.isJsonBlock
    decreases |fs|
  {
    if fs != [] {
      var init, last := fs[..|fs| - 1], fs[|fs| - 1];
      ReadableInit(st, fs);
      RunFrames(st, init, parse);
      WiresLast(fs);
      var r := ExpectAll(st, init, parse);
      if last.SourcesFrame? {
        assert init == [];
      }
      StepFrame(r.state, last, parse);
    }
  }

  /** Reading `a + b` is reading `a`, then `b` from where `a` left off. */
  lemma {:induction false} ExpectAppend(st: DecoderState, a: seq<Frame>, b: seq<Frame>, parse: string -> Parsed)
    ensures var ra := ExpectAll(st, a, parse);
      var rb := ExpectAll(ra.state, b, parse);
      ExpectAll(st, a + b, parse) == Stepped(rb.state, ra.effects + rb.effects)
    decreases |b|
  {
    if b == [] {
      assert a + b == a;
    } else {
      var init, last := b[..|b| - 1], b[|b| - 1];
      assert (a + b)[..|a + b| - 1] == a + init;
      ExpectAppend(st, a, init, parse);
      var ra := ExpectAll(st, a, parse);
      var ri := ExpectAll(ra.state, init, parse);
      var s := Expected(ri.state, last, parse);
      assert ra.effects + ri.effects + s.effects == ra.effects + (ri.effects + s.effects);
    }
  }

  lemma ExpectOne(st: DecoderState, f: Frame, parse: string -> Parsed)
    ensures ExpectAll(st, [f], parse) == Expected(st, f, parse)
  {
    assert [f][..0] == [];
  }

  // ---------------------------------------------------------------- what the store is shown

  /** The last text update in `effects`, or `shown` when there is none: what the message finally holds. */
  function LastShown(effects: seq<Effect>, shown: Effect): Effect {
    if effects == [] then shown
    else if effects[|effects| - 1].ShowText? then effects[|effects| - 1]
    else LastShown(effects[..|effects| - 1], shown)
  }

  lemma {:induction false} LastShownAppend(a: seq<Effect>, b: seq<Effect>, shown: Effect)
    ensures LastShown(a + b, shown) == LastShown(b, LastShown(a, shown))
    decreases |b|
  {
    if b == [] {
      assert a + b == a;
    } else {
      assert (a + b)[..|a + b| - 1] == a + b[..|b| - 1];
      LastShownAppend(a, b[..|b| - 1], shown);
    }
  }

  /** After one frame, what the store was last shown is the loop's answer and reasoning. */
  lemma ShownStep(st: DecoderState, f: Frame, parse: string -> Parsed)
    ensures var s := Expected(st, f, parse);
      LastShown(s.effects, ShowText(st.fullContent, st.reasoningContent))
        == ShowText(s.state.fullContent, s.state.reasoningContent)
  {
    if f.SourcesFrame? {
      var e := Found(parse(f.json));
      if e != [] {
        assert e[..0] == [];
      }
    }
  }

  /** The message the store is shown ends up holding the loop's final answer and reasoning. */
  lemma {:induction false} ShownTracksState(st: DecoderState, fs: seq<Frame>, parse: string -> Parsed)
    ensures var r := ExpectAll(st, fs, parse);
      LastShown(r.effects, ShowText(st.fullContent, st.reasoningContent))
        == ShowText(r.state.fullContent, r.state.reasoningContent)
    decreases |fs|
  {
    if fs != [] {
      var init, last := fs[..|fs| - 1], fs[|fs| - 1];
      ShownTracksState(st, init, parse);
      var r := ExpectAll(st, init, parse);
      var s := Expected(r.state, last, parse);
      LastShownAppend(r.effects, s.effects, ShowText(st.fullContent, st.reasoningContent));
      ShownStep(r.state, last, parse);
    }
  }

  /** Without a sources frame every update is a text update. */
  lemma {:induction false} OnlyTexts(st: DecoderState, fs: seq<Frame>, parse: string -> Parsed)
    requires forall i :: 0 <= i < |fs| ==> !fs[i].SourcesFrame?
    ensures forall i :: 0 <= i < |ExpectAll(st, fs, parse).effects| ==> ExpectAll(st, fs, parse).effects[i].ShowText?
    decreases |fs|
  {
    if fs != [] {
      var init := fs[..|fs| - 1];
      OnlyTexts(st, init, parse);
      var r := ExpectAll(st, init, parse);
      var s := Expected(r.state, fs[|fs| - 1], parse);
      assert forall i :: 0 <= i < |r.effects + s.effects| ==>
        (r.effects + s.effects)[i] == if i < |r.effects| then r.effects[i] else s.effects[i - |r.effects|];
    }
  }

  lemma Assoc(x: string, y: string, z: string)
    ensures x + y + z == x + (y + z)
  {
  }

  // ---------------------------------------------------------------- deltas

  /** What a delta adds to the answer: its content, unless it carries reasoning. */
  function AnswerOf(d: Delta): string {
    if ReasoningOf(d) == "" then d.content else ""
  }

  /** What a delta adds to the reasoning: its reasoning and then its content, when it carries reasoning. */
  function ReasoningShown(d: Delta): string {
    if ReasoningOf(d) != "" then ReasoningOf(d) + d.content else ""
  }

  /** The answer of the first `n` deltas. */
  function AnswerUpTo(ds: seq<Delta>, n: nat): string
    requires n <= |ds|
  {
    if n == 0 then "" else AnswerUpTo(ds, n - 1) + AnswerOf(ds[n - 1])
  }

  /** The reasoning of the first `n` deltas. */
  function ReasoningUpTo(ds: seq<Delta>, n: nat): string
    requires n <= |ds|
  {
    if n == 0 then "" else ReasoningUpTo(ds, n - 1) + ReasoningShown(ds[n - 1])
  }

  /** A text frame sent only when non-empty routes the text either way. */
  lemma OptionalText(st: DecoderState, f: Frame, t: string, parse: string -> Parsed)
    requires f == ReasoningText(t) || f == ContentText(t)
    ensures ExpectAll(st, if t != "" then [f] else [], parse).state == Route(st, t)
  {
    if t != "" {
      ExpectOne(st, f, parse);
    } else {
      assert st.fullContent + t == st.fullContent && st.reasoningContent + t == st.reasoningContent;
    }
  }

  /** The texts of one delta, read inside a thinking block exactly when the delta carries reasoning. */
  lemma TextsDecoded(st: DecoderState, d: Delta, parse: string -> Parsed)
    requires st.isThinkingBlock == (ReasoningOf(d) != "")
    ensures ExpectAll(st, Texts(ReasoningOf(d), d.content), parse).state
      == st.(fullContent := st.fullContent + AnswerOf(d), reasoningContent := st.reasoningContent + ReasoningShown(d))
  {
    var r, c := ReasoningOf(d), d.content;
    var a, b := if r != "" then [ReasoningText(r)] else [], if c != "" then [ContentText(c)] else [];
    assert Texts(r, c) == a + b;
    ExpectAppend(st, a, b, parse);
    OptionalText(st, ReasoningText(r), r, parse);
    var s := Route(st, r);
    OptionalText(s, ContentText(c), c, parse);
    if r != "" {
      Assoc(st.reasoningContent, r, c);
      assert st.fullContent + "" == st.fullContent;
    } else {
      assert st.fullContent + r + c == st.fullContent + c && st.reasoningContent + "" == st.reasoningContent;
    }
  }


  /** One delta's frames: the thinking block follows the delta's reasoning, and its texts land where `AnswerOf` and `ReasoningShown` say. */
  lemma DeltaDecoded(st: DecoderState, d: Delta, parse: string -> Parsed)
    ensures ExpectAll(st, DeltaFrames(d, st.isThinkingBlock), parse).state
      == st.(fullContent := st.fullContent + AnswerOf(d), reasoningContent := st.reasoningContent + ReasoningShown(d),
             isThinkingBlock := ReasoningOf(d) != "")
  {
    var reasons := ReasoningOf(d) != "";
    var m, t := Marker(reasons, st.isThinkingBlock), Texts(ReasoningOf(d), d.content);
    ExpectAppend(st, m, t, parse);
    if m != [] { ExpectOne(st, m[0], parse); }
    assert ExpectAll(st, m, parse).state == st.(isThinkingBlock := reasons);
    TextsDecoded(st.(isThinkingBlock := reasons), d, parse);
  }

  /** The frames of the first `n` deltas, read from outside a thinking block. */
  lemma {:induction false} EmitDecoded(st: DecoderState, ds: seq<Delta>, n: nat, parse: string -> Parsed)
    requires n <= |ds| && !st.isThinkingBlock
    ensures ExpectAll(st, EmitUpTo(ds, n), parse).state
      == st.(fullContent := st.fullContent + AnswerUpTo(ds, n), reasoningContent := st.reasoningContent + ReasoningUpTo(ds, n),
             isThinkingBlock := ThinkingBefore(ds, n))
    decreases n
  {
    if n == 0 {
      assert st.fullContent + "" == st.fullContent && st.reasoningContent + "" == st.reasoningContent;
    } else {
      var m := n - 1;
      var a, b := EmitUpTo(ds, m), DeltaFrames(ds[m], ThinkingBefore(ds, m));
      assert EmitUpTo(ds, n) == a + b;
      EmitDecoded(st, ds, m, parse);
      ExpectAppend(st, a, b, parse);
      var s := ExpectAll(st, a, parse).state;
      DeltaDecoded(s, ds[m], parse);
      Assoc(st.fullContent, AnswerUpTo(ds, m), AnswerOf(ds[m]));
      Assoc(st.reasoningContent, ReasoningUpTo(ds, m), ReasoningShown(ds[m]));
    }
  }

  // ---------------------------------------------------------------- a whole response

  /** Deltas whose texts hold none of the markers. */
  predicate PlainDeltas(ds: seq<Delta>) {
    forall i :: 0 <= i < |ds| ==> MarkerFree(ds[i].content) && MarkerFree(ReasoningOf(ds[i]))
  }

  /** The frames of a delta with marker-free texts are readable. */
  lemma DeltaReadable(d: Delta, thinking: bool)
    requires MarkerFree(d.content) && MarkerFree(ReasoningOf(d))
    ensures AllReadable(DeltaFrames(d, thinking))
  {
    var r, c := ReasoningOf(d), d.content;
    var a, b := if r != "" then [ReasoningText(r)] else [], if c != "" then [ContentText(c)] else [];
    assert Texts(r, c) == a + b;
    ReadableAppend(a, b);
    ReadableAppend(Marker(r != "", thinking), Texts(r, c));
  }

  /** The frames of plain deltas are readable. */
  lemma {:induction false} EmitReadable(ds: seq<Delta>, n: nat)
    requires n <= |ds| && PlainDeltas(ds)
    ensures AllReadable(EmitUpTo(ds, n))
    decreases n
  {
    if n > 0 {
      var m := n - 1;
      EmitReadable(ds, m);
      var a, b := EmitUpTo(ds, m), DeltaFrames(ds[m], ThinkingBefore(ds, m));
      assert EmitUpTo(ds, n) == a + b;
      DeltaReadable(ds[m], ThinkingBefore(ds, m));
      ReadableAppend(a, b);
    }
  }

  /** A response of plain deltas and a clean payload is a readable run from the loop's start. */
  lemma ProduceReadable(sources: seq<Source>, stringify: seq<Source> -> string, ds: seq<Delta>, completed: bool)
    requires PlainDeltas(ds) && (|sources| > 0 ==> CleanPayload(stringify(sources)))
    ensures ReadableRun(INITIAL, Produce(sources, stringify, ds, completed))
  {
    var pre, emit, close := SourcesPrefix(sources, stringify), EmitUpTo(ds, |ds|), Closing(ds, completed);
    assert Produce(sources, stringify, ds, completed) == pre + emit + close;
    SourcesFirst(sources, stringify, ds, completed);
    EmitReadable(ds, |ds|);
    assert AllReadable(pre) && AllReadable(close);
    ReadableAppend(pre, emit);
    ReadableAppend(pre + emit, close);
  }

  /** The updates the sources frame asks for: none when the search found nothing. */
  function SourcesShown(sources: seq<Source>, stringify: seq<Source> -> string, parse: string -> Parsed): seq<Effect> {
    if |sources| > 0 then Found(parse(stringify(sources))) else []
  }

  /** The sources frame, read from the loop's start. */
  lemma PrefixDecoded(sources: seq<Source>, stringify: seq<Source> -> string, parse: string -> Parsed)
    ensures var r := ExpectAll(INITIAL, SourcesPrefix(sources, stringify), parse);
      && r.effects == SourcesShown(sources, stringify, parse)
      && r.state.fullContent == "" && r.state.reasoningContent == ""
      && !r.state.isThinkingBlock && !r.state.isJsonBlock
  {
    if |sources| > 0 {
      ExpectOne(INITIAL, SourcesFrame(stringify(sources)), parse);
    }
  }

  /** The delta frames and the closing marker, read from outside a thinking block: only text updates. */
  lemma RestDecoded(st: DecoderState, ds: seq<Delta>, completed: bool, parse: string -> Parsed)
    requires !st.isThinkingBlock
    ensures var r := ExpectAll(st, EmitUpTo(ds, |ds|) + Closing(ds, completed), parse);
      && r.state == st.(fullContent := st.fullContent + AnswerUpTo(ds, |ds|),
                        reasoningContent := st.reasoningContent + ReasoningUpTo(ds, |ds|),
                        isThinkingBlock := !completed && ThinkingBefore(ds, |ds|))
      && (forall i :: 0 <= i < |r.effects| ==> r.effects[i].ShowText?)
  {
    var emit, close := EmitUpTo(ds, |ds|), Closing(ds, completed);
    ExpectAppend(st, emit, close, parse);
    EmitDecoded(st, ds, |ds|, parse);
    var s2 := ExpectAll(st, emit, parse).state;
    if close != [] {
      ExpectOne(s2, CloseThinking, parse);
    }
    EmitHasNoSources(ds, |ds|);
    assert forall i :: 0 <= i < |emit + close| ==> !(emit + close)[i].SourcesFrame?;
    OnlyTexts(st, emit + close, parse);
  }

  /** What the loop is left with after a whole response, and what it asked the store for. */
  lemma ProduceDecoded(sources: seq<Source>, stringify: seq<Source> -> string, ds: seq<Delta>, completed: bool, parse: string -> Parsed)
    ensures var r := ExpectAll(INITIAL, Produce(sources, stringify, ds, completed), parse);
      && r.state.fullContent == AnswerUpTo(ds, |ds|)
      && r.state.reasoningContent == ReasoningUpTo(ds, |ds|)
      && r.state.isThinkingBlock == (!completed && ThinkingBefore(ds, |ds|))
      && SourcesShown(sources, stringify, parse) <= r.effects
      && (forall i :: |SourcesShown(sources, stringify, parse)| <= i < |r.effects| ==> r.effects[i].ShowText?)
  {
    var pre, rest := SourcesPrefix(sources, stringify), EmitUpTo(ds, |ds|) + Closing(ds, completed);
    assert Produce(sources, stringify, ds, completed) == pre + rest;
    ExpectAppend(INITIAL, pre, rest, parse);
    PrefixDecoded(sources, stringify, parse);
    var s1 := ExpectAll(INITIAL, pre, parse).state;
    RestDecoded(s1, ds, completed, parse);
    assert "" + AnswerUpTo(ds, |ds|) == AnswerUpTo(ds, |ds|) && "" + ReasoningUpTo(ds, |ds|) == ReasoningUpTo(ds, |ds|);
  }

  /**
   * The round trip: the producer's stream, each frame read as one chunk by
   * the loop that buffers the opening chunk once, leaves the answer and the
   * reasoning the model sent (content in a delta that carries reasoning is
   * read as reasoning), shows them as the message's final text, and asks for
   * the sources first and only then.
   */
  lemma RoundTrip(sources: seq<Source>, stringify: seq<Source> -> string, ds: seq<Delta>, completed: bool, parse: string -> Parsed)
    requires PlainDeltas(ds) && (|sources| > 0 ==> CleanPayload(stringify(sources)))
    ensures var r := Run(Wires(Produce(sources, stringify, ds, completed)), parse, Once);
      && r.state.fullContent == AnswerUpTo(ds, |ds|)
      && r.state.reasoningContent == ReasoningUpTo(ds, |ds|)
      && !r.state.isJsonBlock
      && r.state.isThinkingBlock == (!completed && ThinkingBefore(ds, |ds|))
      && LastShown(r.effects, ShowText("", "")) == ShowText(AnswerUpTo(ds, |ds|), ReasoningUpTo(ds, |ds|))
      && SourcesShown(sources, stringify, parse) <= r.effects
      && (forall i :: |SourcesShown(sources, stringify, parse)| <= i < |r.effects| ==> r.effects[i].ShowText?)
  {
    var fs := Produce(sources, stringify, ds, completed);
    ProduceReadable(sources, stringify, ds, completed);
    RunFrames(INITIAL, fs, parse);
    ProduceDecoded(sources, stringify, ds, completed, parse);
    ShownTracksState(INITIAL, fs, parse);
  }

  // ---------------------------------------------------------------- the loop as written

  /** The i-th chunk is the text of the i-th frame. */
  lemma {:induction false} WiresAt(fs: seq<Frame>, i: nat)
    requires i < |fs|
    ensures Wires(fs)[i] == Wire(fs[i])
    decreases i
  {
    if i > 0 {
      WiresAt(fs[1..], i - 1);
    }
  }

  /** Readable frames other than the sources frame hold no JSON start marker. */
  lemma {:induction false} NoStartOutsideSources(fs: seq<Frame>)
    requires AllReadable(fs) && forall i :: 0 <= i < |fs| ==> !fs[i].SourcesFrame?
    ensures forall i :: 0 <= i < |Wires(fs)| ==> !Contains(Wires(fs)[i], JSON_START)
  {
    NoJsonInMarkers();
    forall i | 0 <= i < |Wires(fs)| ensures !Contains(Wires(fs)[i], JSON_START) {
      WiresAt(fs, i);
      assert Readable(fs[i]);
    }
  }

  /**
   * Without sources nothing the server sends holds the JSON start marker, so
   * the loop as written reads the response exactly as the corrected loop does.
   */
  lemma {:induction false} NoSourcesAsWritten(sources: seq<Source>, stringify: seq<Source> -> string, ds: seq<Delta>, completed: bool, parse: string -> Parsed)
    requires PlainDeltas(ds) && |sources| == 0
    ensures var w := Wires(Produce(sources, stringify, ds, completed));
      Run(w, parse, AsWritten) == Run(w, parse, Once)
  {
    var fs := Produce(sources, stringify, ds, completed);
    ProduceReadable(sources, stringify, ds, completed);
    SourcesFirst(sources, stringify, ds, completed);
    NoStartOutsideSources(fs);
    SameWithoutStart(INITIAL, Wires(fs), parse);
  }

  /**
   * A payload whose frame the loop as written leaks as exactly the start
   * marker and the payload: the frame's first end marker is the one after the
   * payload, and the leaked text holds no thinking marker.
   */
  predicate LeakIsPayload(j: string) {
    && IndexOf(JSON_START + j + JSON_END, JSON_END) == |JSON_START| + |j|
    && !Contains(JSON_START + j, THINKING_START) && !Contains(JSON_START + j, THINKING_END)
  }

  /** As written, the sources frame yields its sources and writes the start marker and the payload into the answer. */
  lemma {:induction false} SourcesFrameAsWritten(st: DecoderState, j: string, parse: string -> Parsed)
    requires !st.isJsonBlock && !st.isThinkingBlock && st.jsonBuffer == ""
    requires CleanPayload(j) && LeakIsPayload(j)
    ensures Step(st, Wire(SourcesFrame(j)), parse, AsWritten)
      == Stepped(st.(jsonBuffer := j + JSON_END, fullContent := st.fullContent + (JSON_START + j)), Found(parse(j)))
  {
    ProducerFrameSplits(j);
    ProducerFrameHead(j);
    JsonFrameLeaks(st, JSON_START + j + JSON_END, j, parse);
  }

  /** Either no update in `effects` shows text, or what was shown before them no longer matters. */
  lemma {:induction false} LastShownBase(effects: seq<Effect>, x: Effect, y: Effect)
    ensures (LastShown(effects, x) == x && LastShown(effects, y) == y) || LastShown(effects, x) == LastShown(effects, y)
    decreases |effects|
  {
    if effects != [] && !effects[|effects| - 1].ShowText? {
      LastShownBase(effects[..|effects| - 1], x, y);
    }
  }

  /** The loop's state after the loop as written has read the sources frame of payload `j`. */
  function Leaked(j: string): DecoderState {
    INITIAL.(jsonBuffer := j + JSON_END, fullContent := JSON_START + j)
  }

  /** With sources, the response's first chunk is the sources frame, followed by the chunks of the delta frames and the closing marker. */
  lemma {:induction false} WiresWithSources(sources: seq<Source>, stringify: seq<Source> -> string, ds: seq<Delta>, completed: bool)
    requires |sources| > 0
    ensures Wires(Produce(sources, stringify, ds, completed))
      == [Wire(SourcesFrame(stringify(sources)))] + Wires(EmitUpTo(ds, |ds|) + Closing(ds, completed))
  {
    var rest := EmitUpTo(ds, |ds|) + Closing(ds, completed);
    assert Produce(sources, stringify, ds, completed) == [SourcesFrame(stringify(sources))] + rest;
    WiresAppend([SourcesFrame(stringify(sources))], rest);
  }

  /** As written, the sources frame read from the loop's start leaves the leaked state and asks for the sources. */
  lemma {:induction false} FirstFrameAsWritten(j: string, parse: string -> Parsed)
    requires CleanPayload(j) && LeakIsPayload(j)
    ensures Step(INITIAL, Wire(SourcesFrame(j)), parse, AsWritten) == Stepped(Leaked(j), Found(parse(j)))
  {
    SourcesFrameAsWritten(INITIAL, j, parse);
    assert "" + (JSON_START + j) == JSON_START + j;
  }

  /** As written, chunks led by the sources frame of `j` are read as that frame, then the rest from `Leaked(j)`. */
  lemma {:induction false} LeadingFrameAsWritten(j: string, chunks: seq<string>, parse: string -> Parsed)
    requires CleanPayload(j) && LeakIsPayload(j)
    ensures var rb := RunFrom(Leaked(j), chunks, parse, AsWritten);
      Run([Wire(SourcesFrame(j))] + chunks, parse, AsWritten) == Stepped(rb.state, Found(parse(j)) + rb.effects)
  {
    RunAppend(INITIAL, [Wire(SourcesFrame(j))], chunks, parse, AsWritten);
    RunOne(INITIAL, Wire(SourcesFrame(j)), parse, AsWritten);
    FirstFrameAsWritten(j, parse);
  }

  /** The frames after the sources frame hold no start marker, so the loop as written reads them as `ExpectAll` says. */
  lemma {:induction false} RestAsWritten(st: DecoderState, ds: seq<Delta>, completed: bool, parse: string -> Parsed)
    requires PlainDeltas(ds) && !st.isJsonBlock
    ensures var rest := EmitUpTo(ds, |ds|) + Closing(ds, completed);
      RunFrom(st, Wires(rest), parse, AsWritten) == ExpectAll(st, rest, parse)
  {
    var rest := EmitUpTo(ds, |ds|) + Closing(ds, completed);
    EmitReadable(ds, |ds|);
    ReadableAppend(EmitUpTo(ds, |ds|), Closing(ds, completed));
    EmitHasNoSources(ds, |ds|);
    assert forall i :: 0 <= i < |rest| ==> !rest[i].SourcesFrame?;
    NoStartOutsideSources(rest);
    SameWithoutStart(st, Wires(rest), parse);
    RunFrames(st, rest, parse);
  }

  /**
   * What a message shown the sources first and then `effects` finally holds,
   * when `effects` bring the loop from `Leaked(j)` to `s`: the text of `s`
   * as soon as it differs from the leaked text alone.
   */
  lemma {:induction false} LeakShown(j: string, found: seq<Effect>, effects: seq<Effect>, s: DecoderState)
    requires OnlySources(found)
    requires LastShown(effects, ShowText(JSON_START + j, "")) == ShowText(s.fullContent, s.reasoningContent)
    requires ShowText(s.fullContent, s.reasoningContent) != ShowText(JSON_START + j, "")
    ensures LastShown(found + effects, ShowText("", "")) == ShowText(s.fullContent, s.reasoningContent)
  {
    LastShownAppend(found, effects, ShowText("", ""));
    NoTextShown(found, ShowText("", ""));
    LastShownBase(effects, ShowText("", ""), ShowText(JSON_START + j, ""));
  }

  /** Sources updates show no text. */
  lemma {:induction false} NoTextShown(effects: seq<Effect>, shown: Effect)
    requires OnlySources(effects)
    ensures LastShown(effects, shown) == shown
    decreases |effects|
  {
    if effects != [] {
      NoTextShown(effects[..|effects| - 1], shown);
    }
  }

  /** As written, a response with sources is read as its sources frame, then the rest from `Leaked(j)` as `ExpectAll` says. */
  lemma {:induction false} RunAsWritten(sources: seq<Source>, stringify: seq<Source> -> string, j: string, ds: seq<Delta>, completed: bool,
                                        parse: string -> Parsed)
    requires PlainDeltas(ds) && |sources| > 0 && stringify(sources) == j
    requires CleanPayload(j) && LeakIsPayload(j)
    ensures var r := ExpectAll(Leaked(j), EmitUpTo(ds, |ds|) + Closing(ds, completed), parse);
      Run(Wires(Produce(sources, stringify, ds, completed)), parse, AsWritten) == Stepped(r.state, Found(parse(j)) + r.effects)
  {
    var rest := EmitUpTo(ds, |ds|) + Closing(ds, completed);
    WiresWithSources(sources, stringify, ds, completed);
    LeadingFrameAsWritten(j, Wires(rest), parse);
    RestAsWritten(Leaked(j), ds, completed, parse);
  }

  /** The delta frames and the closing marker, read from the leaked state: the answer follows the leaked text. */
  lemma {:induction false} RestFromLeak(j: string, ds: seq<Delta>, completed: bool, parse: string -> Parsed)
    ensures var r := ExpectAll(Leaked(j), EmitUpTo(ds, |ds|) + Closing(ds, completed), parse);
      && r.state.fullContent == JSON_START + j + AnswerUpTo(ds, |ds|)
      && r.state.reasoningContent == ReasoningUpTo(ds, |ds|)
      && !r.state.isJsonBlock
      && r.state.isThinkingBlock == (!completed && ThinkingBefore(ds, |ds|))
      && LastShown(r.effects, ShowText(JSON_START + j, "")) == ShowText(r.state.fullContent, r.state.reasoningContent)
  {
    var rest := EmitUpTo(ds, |ds|) + Closing(ds, completed);
    RestDecoded(Leaked(j), ds, completed, parse);
    ShownTracksState(Leaked(j), rest, parse);
    assert "" + ReasoningUpTo(ds, |ds|) == ReasoningUpTo(ds, |ds|);
  }

  /**
   * The run as written is the sources frame's updates followed by a read of
   * the rest from the leaked text `JSON_START + j`; what it finally shows.
   */
  lemma {:induction false} LeakOutcome(j: string, parse: string -> Parsed, w: Stepped, r: Stepped, answer: string, reasoning: string)
    requires w == Stepped(r.state, Found(parse(j)) + r.effects)
    requires r.state.fullContent == JSON_START + j + answer && r.state.reasoningContent == reasoning
    requires LastShown(r.effects, ShowText(JSON_START + j, "")) == ShowText(r.state.fullContent, r.state.reasoningContent)
    ensures w.state == r.state && Found(parse(j)) <= w.effects
    ensures answer != "" || reasoning != "" ==>
      LastShown(w.effects, ShowText("", "")) == ShowText(JSON_START + j + answer, reasoning)
  {
    var found := Found(parse(j));
    assert found <= found + r.effects;
    if answer != "" || reasoning != "" {
      assert |r.state.fullContent| + |r.state.reasoningContent| > |JSON_START + j|;
      LeakShown(j, found, r.effects, r.state);
    }
  }

  /**
   * The round trip through the loop as written, when the search found
   * sources `j`: they still arrive first, but the answer starts with the
   * start marker and the payload.
   */
  lemma {:induction false} RoundTripAsWritten(sources: seq<Source>, stringify: seq<Source> -> string, j: string, ds: seq<Delta>, completed: bool,
                                              parse: string -> Parsed)
    requires PlainDeltas(ds) && |sources| > 0 && stringify(sources) == j
    requires CleanPayload(j) && LeakIsPayload(j)
    ensures var r := Run(Wires(Produce(sources, stringify, ds, completed)), parse, AsWritten);
      && r.state.fullContent == JSON_START + j + AnswerUpTo(ds, |ds|)
      && r.state.reasoningContent == ReasoningUpTo(ds, |ds|)
      && !r.state.isJsonBlock
      && r.state.isThinkingBlock == (!completed && ThinkingBefore(ds, |ds|))
      && Found(parse(j)) <= r.effects
  {
    RunAsWritten(sources, stringify, j, ds, completed, parse);
    RestFromLeak(j, ds, completed, parse);
    LeakOutcome(j, parse, Run(Wires(Produce(sources, stringify, ds, completed)), parse, AsWritten),
                ExpectAll(Leaked(j), EmitUpTo(ds, |ds|) + Closing(ds, completed), parse), AnswerUpTo(ds, |ds|), ReasoningUpTo(ds, |ds|));
  }

  /**
   * As written, as soon as the model sent any text, the message shows the
   * start marker and the payload before the answer.
   */
  lemma {:induction false} LeakShownAsWritten(sources: seq<Source>, stringify: seq<Source> -> string, j: string, ds: seq<Delta>, completed: bool,
                                              parse: string -> Parsed)
    requires PlainDeltas(ds) && |sources| > 0 && stringify(sources) == j
    requires CleanPayload(j) && LeakIsPayload(j)
    requires AnswerUpTo(ds, |ds|) != "" || ReasoningUpTo(ds, |ds|) != ""
    ensures LastShown(Run(Wires(Produce(sources, stringify, ds, completed)), parse, AsWritten).effects, ShowText("", ""))
      == ShowText(JSON_START + j + AnswerUpTo(ds, |ds|), ReasoningUpTo(ds, |ds|))
  {
    RunAsWritten(sources, stringify, j, ds, completed, parse);
    RestFromLeak(j, ds, completed, parse);
    LeakOutcome(j, parse, Run(Wires(Produce(sources, stringify, ds, completed)), parse, AsWritten),
                ExpectAll(Leaked(j), EmitUpTo(ds, |ds|) + Closing(ds, completed), parse), AnswerUpTo(ds, |ds|), ReasoningUpTo(ds, |ds|));
  }
}
