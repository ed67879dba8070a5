/**
 * The producer side of the answer stream (the `start` of the `ReadableStream`
 * the chat route returns): an optional sources frame first, then for each
 * model delta its reasoning wrapped in thinking markers and its content.
 *
 * The stream is described as a sequence of typed frames; `Wire` gives the
 * text each frame is enqueued as.
 */
module Framing {
  import opened Forest
  import opened Decoder

  /**
   * The fields of `chunk.choices[0]?.delta` the loop reads; a missing field
   * is `""`.
   */
  datatype Delta = Delta(content: string, reasoning: string, reasoningContent: string)

  /** `delta.reasoning || delta.reasoning_content || ''`. */
  function ReasoningOf(d: Delta): (r: string)
    ensures r == "" <==> d.reasoning == "" && d.reasoningContent == ""
  {
    if d.reasoning != "" then d.reasoning else d.reasoningContent
  }

  /** One `controller.enqueue` call. */
  datatype Frame =
    | SourcesFrame(json: string)
    | OpenThinking
    | CloseThinking
    | ReasoningText(text: string)
    | ContentText(text: string)

  /** The text a frame is enqueued as. */
  function Wire(f: Frame): string {
    match f
    case SourcesFrame(json) => JSON_START + json + JSON_END
    case OpenThinking => THINKING_START
    case CloseThinking => THINKING_END
    case ReasoningText(t) => t
    case ContentText(t) => t
  }

  function Wires(fs: seq<Frame>): (r: seq<string>)
    ensures |r| == |fs|
  {
    if fs == [] then [] else [Wire(fs[0])] + Wires(fs[1..])
  }

  lemma {:induction false} WiresAppend(a: seq<Frame>, b: seq<Frame>)
    ensures Wires(a + b) == Wires(a) + Wires(b)
    decreases |a|
  {
    if a == [] {
      assert a + b == b;
    } else {
      assert (a + b)[1..] == a[1..] + b;
      WiresAppend(a[1..], b);
    }
  }

  /**
   * The frames one delta produces while the stream is (`thinking`) or is not
   * inside a thinking run: a reasoning delta opens the run if needed and sends
   * its reasoning; a delta without reasoning closes an open run; the content
   * comes last.
   */
  function DeltaFrames(d: Delta, thinking: bool): seq<Frame> {
    Marker(ReasoningOf(d) != "", thinking) + Texts(ReasoningOf(d), d.content)
  }

  /** The marker sent when a delta does (`reasons`) or does not carry reasoning. */
  function Marker(reasons: bool, thinking: bool): seq<Frame> {
    if reasons == thinking then [] else if reasons then [OpenThinking] else [CloseThinking]
  }

  /** The reasoning and then the content of a delta, each only when non-empty. */
  function Texts(reasoning: string, content: string): seq<Frame> {
    (if reasoning != "" then [ReasoningText(reasoning)] else []) + (if content != "" then [ContentText(content)] else [])
  }

  /** Whether a thinking run is open before delta `k`: exactly when the delta before it had reasoning. */
  function ThinkingBefore(ds: seq<Delta>, k: nat): bool
    requires k <= |ds|
  {
    k > 0 && ReasoningOf(ds[k - 1]) != ""
  }

  /** The sources frame, sent only when the search found something. */
  function SourcesPrefix(sources: seq<Source>, stringify: seq<Source> -> string): seq<Frame> {
    if |sources| > 0 then [SourcesFrame(stringify(sources))] else []
  }

  /** The frames of the first `n` deltas. */
  function EmitUpTo(ds: seq<Delta>, n: nat): seq<Frame>
    requires n <= |ds|
  {
    if n == 0 then [] else EmitUpTo(ds, n - 1) + DeltaFrames(ds[n - 1], ThinkingBefore(ds, n - 1))
  }

  /**
   * The frames sent before delta `n`: the sources frame, then the frames of
   * each delta in turn. `stringify` stands for `JSON.stringify({ sources })`.
   */
  function SentUpTo(sources: seq<Source>, stringify: seq<Source> -> string, ds: seq<Delta>, n: nat): seq<Frame>
    requires n <= |ds|
  {
    SourcesPrefix(sources, stringify) + EmitUpTo(ds, n)
  }

  /** Sending delta `i` extends what was sent before it by that delta's frames. */
  lemma SentStep(sources: seq<Source>, stringify: seq<Source> -> string, ds: seq<Delta>, i: nat)
    requires i < |ds|
    ensures SentUpTo(sources, stringify, ds, i + 1)
         == SentUpTo(sources, stringify, ds, i) + DeltaFrames(ds[i], ThinkingBefore(ds, i))
  {
    var pre, a, b := SourcesPrefix(sources, stringify), EmitUpTo(ds, i), DeltaFrames(ds[i], ThinkingBefore(ds, i));
    assert EmitUpTo(ds, i + 1) == a + b;
    assert pre + (a + b) == (pre + a) + b;
  }

  /**
   * After the last delta: when the model stream ended normally (`completed`)
   * an open thinking run is closed; when it threw, nothing more is sent.
   */
  function Closing(ds: seq<Delta>, completed: bool): seq<Frame> {
    if completed && ThinkingBefore(ds, |ds|) then [CloseThinking] else []
  }

  /** All frames of one response. */
  function Produce(sources: seq<Source>, stringify: seq<Source> -> string, ds: seq<Delta>, completed: bool): seq<Frame> {
    SentUpTo(sources, stringify, ds, |ds|) + Closing(ds, completed)
  }

  /**
   * The `start` callback: the texts enqueued in order, and whether the stream
   * was ended with `controller.error` (the model stream threw after `ds`)
   * rather than closed normally.
   */
  method StreamResponse(sources: seq<Source>, stringify: seq<Source> -> string, ds: seq<Delta>, completed: bool)
    returns (enqueued: seq<string>, errored: bool)
    ensures enqueued == Wires(Produce(sources, stringify, ds, completed))
    ensures errored == !completed
  {
    ghost var frames: seq<Frame> := [];
    enqueued := [];
    if |sources| > 0 {
      enqueued := enqueued + [JSON_START + stringify(sources) + JSON_END];
      frames := [SourcesFrame(stringify(sources))];
    }
    var isThinking := false;
    var i := 0;
    while i < |ds|
      invariant 0 <= i <= |ds|
      invariant frames == SentUpTo(sources, stringify, ds, i)
      invariant isThinking == ThinkingBefore(ds, i)
      invariant enqueued == Wires(frames)
    {
      var sent: seq<Frame>;
      sent, isThinking := SendDelta(ds[i], isThinking);
      SentStep(sources, stringify, ds, i);
      WiresAppend(frames, sent);
      enqueued := enqueued + Wires(sent);
      frames := frames + sent;
      i := i + 1;
    }
    if isThinking && completed {
      enqueued := enqueued + [THINKING_END];
      WiresAppend(frames, [CloseThinking]);
      frames := frames + [CloseThinking];
    } else {
      assert frames + [] == frames;
    }
    errored := !completed;
  }

  /** One pass of the loop: the frames a delta is sent as, and whether a thinking run is open after it. */
  method SendDelta(d: Delta, isThinking: bool) returns (sent: seq<Frame>, thinking: bool)
    ensures sent == DeltaFrames(d, isThinking)
    ensures thinking == (ReasoningOf(d) != "")
  {
    sent := [];
    thinking := isThinking;
    var reasoning := ReasoningOf(d);
    if reasoning != "" {
      if !thinking {
        sent := sent + [OpenThinking];
        thinking := true;
      }
      sent := sent + [ReasoningText(reasoning)];
    } else if thinking {
      sent := sent + [CloseThinking];
      thinking := false;
    }
    if d.content != "" {
      sent := sent + [ContentText(d.content)];
    }
  }

  // ---------------------------------------------------------------- structure of the stream

  /** Whether a thinking run is open after `f`. */
  function Toggle(open: bool, f: Frame): bool {
    match f
    case OpenThinking => true
    case CloseThinking => false
    case _ => open
  }

  /** Whether a thinking run is open after the frames, starting from `open`. */
  function OpenAfter(open: bool, fs: seq<Frame>): bool
    decreases |fs|
  {
    if fs == [] then open else OpenAfter(Toggle(open, fs[0]), fs[1..])
  }

  /**
   * A frame fits the state before it: a run is opened only when none is
   * open, closed only when one is, reasoning is sent only inside a run and
   * sources only outside one.
   */
  predicate Fits(open: bool, f: Frame) {
    match f
    case OpenThinking => !open
    case CloseThinking => open
    case ReasoningText(_) => open
    case SourcesFrame(_) => !open
    case ContentText(_) => true
  }

  /** Every frame fits the state the frames before it leave. */
  predicate Nested(open: bool, fs: seq<Frame>)
    decreases |fs|
  {
    fs == [] || (Fits(open, fs[0]) && Nested(Toggle(open, fs[0]), fs[1..]))
  }

  lemma {:induction false} NestedAppend(open: bool, a: seq<Frame>, b: seq<Frame>)
    requires Nested(open, a) && Nested(OpenAfter(open, a), b)
    ensures Nested(open, a + b)
    ensures OpenAfter(open, a + b) == OpenAfter(OpenAfter(open, a), b)
    decreases |a|
  {
    if a == [] {
      assert a + b == b;
    } else {
      assert (a + b)[0] == a[0];
      assert (a + b)[1..] == a[1..] + b;
      NestedAppend(Toggle(open, a[0]), a[1..], b);
    }
  }

  /** A single frame is nested when it fits, and leaves the state it toggles to. */
  lemma Single(open: bool, f: Frame)
    ensures Nested(open, [f]) == Fits(open, f)
    ensures OpenAfter(open, [f]) == Toggle(open, f)
  {
    assert [f][1..] == [];
  }

  /** A list of at most one frame that fits and keeps the state `open`. */
  lemma KeepsOpen(open: bool, fs: seq<Frame>)
    requires |fs| <= 1 && (fs != [] ==> Fits(open, fs[0]) && Toggle(open, fs[0]) == open)
    ensures Nested(open, fs) && OpenAfter(open, fs) == open
  {
    if fs != [] {
      Single(open, fs[0]);
      assert fs == [fs[0]];
    }
  }

  /** One delta's frames fit, and leave a run open exactly when the delta had reasoning. */
  lemma DeltaNested(d: Delta, thinking: bool)
    ensures Nested(thinking, DeltaFrames(d, thinking))
    ensures OpenAfter(thinking, DeltaFrames(d, thinking)) == (ReasoningOf(d) != "")
  {
    var r := ReasoningOf(d);
    var m, t := Marker(r != "", thinking), Texts(r, d.content);
    assert Nested(thinking, m) && OpenAfter(thinking, m) == (r != "") by {
      if r != "" && !thinking {
        Single(thinking, OpenThinking);
      } else if r == "" && thinking {
        Single(thinking, CloseThinking);
      }
    }
    var rt: seq<Frame> := if r != "" then [ReasoningText(r)] else [];
    var ct: seq<Frame> := if d.content != "" then [ContentText(d.content)] else [];
    KeepsOpen(r != "", rt);
    KeepsOpen(r != "", ct);
    NestedAppend(r != "", rt, ct);
    NestedAppend(thinking, m, t);
  }

  /**
   * The frames for the first `n` deltas fit, and leave a thinking run open
   * exactly when delta `n - 1` had reasoning.
   */
  lemma {:induction false} EmitNested(ds: seq<Delta>, n: nat)
    requires n <= |ds|
    ensures Nested(false, EmitUpTo(ds, n))
    ensures OpenAfter(false, EmitUpTo(ds, n)) == ThinkingBefore(ds, n)
  {
    if n > 0 {
      var a, b := EmitUpTo(ds, n - 1), DeltaFrames(ds[n - 1], ThinkingBefore(ds, n - 1));
      assert EmitUpTo(ds, n) == a + b;
      EmitNested(ds, n - 1);
      DeltaNested(ds[n - 1], ThinkingBefore(ds, n - 1));
      NestedAppend(false, a, b);
    }
  }

  /**
   * The whole response is nested: the thinking markers alternate, start
   * before end, reasoning is only sent inside a run; when the model stream
   * ended normally no run is left open, so the markers are balanced.
   */
  lemma ProduceBalanced(sources: seq<Source>, stringify: seq<Source> -> string, ds: seq<Delta>, completed: bool)
    ensures Nested(false, Produce(sources, stringify, ds, completed))
    ensures completed ==> !OpenAfter(false, Produce(sources, stringify, ds, completed))
  {
    var pre, body, close := SourcesPrefix(sources, stringify), EmitUpTo(ds, |ds|), Closing(ds, completed);
    assert Produce(sources, stringify, ds, completed) == pre + body + close;
    EmitNested(ds, |ds|);
    KeepsOpen(false, pre);
    NestedAppend(false, pre, body);
    if close != [] {
      Single(ThinkingBefore(ds, |ds|), CloseThinking);
    }
    NestedAppend(false, pre + body, close);
  }

  /** The deltas never produce a sources frame. */
  lemma {:induction false} EmitHasNoSources(ds: seq<Delta>, n: nat)
    requires n <= |ds|
    ensures forall i :: 0 <= i < |EmitUpTo(ds, n)| ==> !EmitUpTo(ds, n)[i].SourcesFrame?
  {
    if n > 0 {
      EmitHasNoSources(ds, n - 1);
      var a, b := EmitUpTo(ds, n - 1), DeltaFrames(ds[n - 1], ThinkingBefore(ds, n - 1));
      assert forall i :: 0 <= i < |b| ==> !b[i].SourcesFrame?;
      assert forall i :: 0 <= i < |a + b| ==> (a + b)[i] == if i < |a| then a[i] else b[i - |a|];
    }
  }

  /** The sources frame is sent first, once, and exactly when the search found something. */
  lemma SourcesFirst(sources: seq<Source>, stringify: seq<Source> -> string, ds: seq<Delta>, completed: bool)
    ensures var fs := Produce(sources, stringify, ds, completed);
      && (|sources| > 0 <==> |fs| > 0 && fs[0].SourcesFrame?)
      && (|sources| > 0 ==> fs[0] == SourcesFrame(stringify(sources)))
      && (forall i :: 0 < i < |fs| ==> !fs[i].SourcesFrame?)
  {
    var pre := SourcesPrefix(sources, stringify);
    var rest := EmitUpTo(ds, |ds|) + Closing(ds, completed);
    assert Produce(sources, stringify, ds, completed) == pre + rest;
    EmitHasNoSources(ds, |ds|);
    assert forall i :: 0 <= i < |rest| ==> !rest[i].SourcesFrame?;
    assert forall i :: |pre| <= i < |pre + rest| ==> (pre + rest)[i] == rest[i - |pre|];
  }

  /** Within one delta the content is sent last, after any marker and the reasoning, and only when non-empty. */
  lemma ContentLast(d: Delta, thinking: bool)
    ensures var fs := DeltaFrames(d, thinking);
      && (d.content != "" <==> |fs| > 0 && fs[|fs| - 1] == ContentText(d.content))
      && (forall i :: 0 <= i < |fs| - 1 ==> !fs[i].ContentText?)
  {
  }
}
