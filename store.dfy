/**
 * The chat store's request lifecycle. A request for a conversation registers
 * an abort controller and marks the conversation as streaming; the response
 * then rewrites the conversation's messages (the thinking placeholder is
 * emptied, sources and text land on the last message of the active path, an
 * abort or an error settles the placeholder); finally the controller and the
 * streaming mark are removed. The network, the controller object and the
 * scheduling are not modelled: a reply is given as the sequence of chunks it
 * delivers and the way it ends, and requests run one at a time.
 */
module Store {
  import opened Base
  import opened Text
  import opened Forest
  import opened Decoder
  import opened Catalog
  import Conversations
  import RoundTrip
  import Framing

  const ERROR_PREFIX: string := "**Error:** "
  const UNEXPECTED: string := "An unexpected error occurred. Please try again later."
  const STATUS_FAILED: string := "API request failed with status "

  /** `**Error:** ${error.message || 'An unexpected error occurred. ...'}`. */
  function ErrorText(message: string): (r: string)
    ensures StartsWith(r, ERROR_PREFIX)
    ensures message != "" ==> r[|ERROR_PREFIX|..] == message
  {
    ERROR_PREFIX + (if message == "" then UNEXPECTED else message)
  }

  // ---------------------------------------------------------------- message rewrites

  /** The rewrites the lifecycle applies to the messages of the conversation it serves. */
  datatype Update =
    | Opened                                           // the response is OK
    | SourcesArrived(sources: seq<Source>)             // a JSON block named sources
    | TextArrived(content: string, reasoning: string)  // a marker-free chunk was read
    | Aborted                                          // the request ended with an AbortError
    | Failed(message: string)                          // the request ended with another error
    | Stopped                                          // `stopResponse` aborted the request

  /**
   * One message under one update, where `tail` is the last id of the active
   * path (`None` for an empty path, whose `activePath[length - 1]` is
   * `undefined` and matches no message).
   */
  function Touched(m: Message, u: Update, tail: Option<Id>): (r: Message)
    ensures r.id == m.id && r.parentId == m.parentId && r.siblingIds == m.siblingIds
    ensures !m.isThinking ==> !r.isThinking
    ensures !m.isThinking && !u.SourcesArrived? && !u.TextArrived? ==> r == m
    ensures (u.Opened? || u.Stopped?) ==> !r.isThinking
    ensures tail != Some(m.id) && !u.Opened? && !u.Stopped? ==> r == m
  {
    var last := tail == Some(m.id);
    match u
    case Opened => if m.isThinking then m.(isThinking := false, content := "") else m
    case SourcesArrived(src) => if last then m.(sources := Some(src)) else m
    case TextArrived(c, rs) => if last then m.(content := c, reasoning := rs) else m
    case Aborted => if m.isThinking && last then m.(isThinking := false) else m
    case Failed(msg) => if m.isThinking && last then m.(isThinking := false, content := ErrorText(msg)) else m
    case Stopped => if m.isThinking then m.(isThinking := false) else m
  }

  /** Every message of a list under one update. */
  function Rewritten(ms: seq<Message>, u: Update, tail: Option<Id>): (r: seq<Message>)
    ensures |r| == |ms| && forall i :: 0 <= i < |ms| ==> r[i] == Touched(ms[i], u, tail)
  {
    seq(|ms|, i requires 0 <= i < |ms| => Touched(ms[i], u, tail))
  }

  /** `(conv.allMessages || []).map(...)` with the visible list recomputed from the result. */
  function Apply(c: Conversation, u: Update): (r: Conversation)
    ensures r.(allMessages := c.allMessages) == c
  {
    c.(allMessages := Rewritten(c.allMessages, u, Tail(c.activePath)))
  }

  /** A conversation after a series of updates, in order. */
  function ApplyAll(c: Conversation, us: seq<Update>): (r: Conversation)
    ensures r.(allMessages := c.allMessages) == c && |r.allMessages| == |c.allMessages|
    decreases |us|
  {
    if us == [] then c else Apply(ApplyAll(c, us[..|us| - 1]), us[|us| - 1])
  }

  /** One message after a series of updates, in order. */
  function Replayed(m: Message, us: seq<Update>, tail: Option<Id>): (r: Message)
    ensures r.id == m.id && r.parentId == m.parentId && r.siblingIds == m.siblingIds
    decreases |us|
  {
    if us == [] then m else Touched(Replayed(m, us[..|us| - 1], tail), us[|us| - 1], tail)
  }

  /**
   * A series of updates rewrites each stored message on its own, keeps the
   * other fields of the conversation, and keeps every id, parent and sibling list.
   */
  lemma {:induction false} ApplyAllPointwise(c: Conversation, us: seq<Update>)
    ensures forall i :: 0 <= i < |c.allMessages| ==>
      ApplyAll(c, us).allMessages[i] == Replayed(c.allMessages[i], us, Tail(c.activePath))
    decreases |us|
  {
    if us != [] {
      var init := us[..|us| - 1];
      ApplyAllPointwise(c, init);
    }
  }

  /** Replaying two series of updates is replaying the first, then the second. */
  lemma {:induction false} ReplayedAppend(m: Message, a: seq<Update>, b: seq<Update>, tail: Option<Id>)
    ensures Replayed(m, a + b, tail) == Replayed(Replayed(m, a, tail), b, tail)
    decreases |b|
  {
    if b == [] {
      assert a + b == a;
    } else {
      var init := b[..|b| - 1];
      assert (a + b)[..|a + b| - 1] == a + init;
      ReplayedAppend(m, a, init, tail);
    }
  }

  // ---------------------------------------------------------------- the store keeps its invariants

  /** Two message lists that agree on ids, parents and sibling lists. */
  ghost predicate SameShape(a: seq<Message>, b: seq<Message>) {
    |a| == |b| && forall i :: 0 <= i < |a| ==>
      b[i].id == a[i].id && b[i].parentId == a[i].parentId && b[i].siblingIds == a[i].siblingIds
  }

  /** The forest invariants speak only of ids, parents and sibling lists. */
  lemma SameShapeOk(a: seq<Message>, b: seq<Message>, path: seq<Id>)
    requires SameShape(a, b)
    requires ForestOk(a) && PathChain(a, path)
    ensures ForestOk(b) && PathChain(b, path)
  {
    assert SameLinks(a, b);
    SameLinksIndex(a, b, "");
    SameLinksChain(a, b, path);
    forall i | 0 <= i < |b| ensures Group(b[i]) == Group(a[i]) {
    }
  }

  /** Every lifecycle rewrite keeps a well-formed conversation well formed, on the same path. */
  lemma ApplyAllWellFormed(c: Conversation, us: seq<Update>)
    requires WellFormed(c)
    ensures WellFormed(ApplyAll(c, us)) && ApplyAll(c, us).activePath == c.activePath
  {
    ApplyAllPointwise(c, us);
    SameShapeOk(c.allMessages, ApplyAll(c, us).allMessages, c.activePath);
  }

  /** Looking a message up after an update finds the updated message. */
  lemma FindRewritten(ms: seq<Message>, u: Update, tail: Option<Id>, id: Id)
    ensures Find(Rewritten(ms, u, tail), id) == if Find(ms, id).Some? then Some(Touched(Find(ms, id).value, u, tail)) else None
  {
    assert SameLinks(ms, Rewritten(ms, u, tail));
    SameLinksIndex(ms, Rewritten(ms, u, tail), id);
  }

  /** The visible transcript after an update is the old one with each message updated. */
  lemma {:induction false} VisibleTouched(ms: seq<Message>, path: seq<Id>, u: Update, tail: Option<Id>)
    ensures Visible(Rewritten(ms, u, tail), path) == Rewritten(Visible(ms, path), u, tail)
    decreases |path|
  {
    if path != [] {
      var ms' := Rewritten(ms, u, tail);
      var rest := path[1..];
      FindRewritten(ms, u, tail, path[0]);
      VisibleTouched(ms, rest, u, tail);
      if Find(ms, path[0]).Some? {
        var m := Find(ms, path[0]).value;
        assert Visible(ms, path) == [m] + Visible(ms, rest);
        assert Visible(ms', path) == [Touched(m, u, tail)] + Visible(ms', rest);
        RewrittenCons(m, Visible(ms, rest), u, tail);
      } else {
        assert Visible(ms, path) == Visible(ms, rest);
        assert Visible(ms', path) == Visible(ms', rest);
      }
    }
  }

  lemma RewrittenCons(m: Message, rest: seq<Message>, u: Update, tail: Option<Id>)
    ensures Rewritten([m] + rest, u, tail) == [Touched(m, u, tail)] + Rewritten(rest, u, tail)
  {
    var a := Rewritten([m] + rest, u, tail);
    var b := [Touched(m, u, tail)] + Rewritten(rest, u, tail);
    assert |a| == |b|;
    forall i | 0 <= i < |a| ensures a[i] == b[i] {
      if i > 0 {
        assert ([m] + rest)[i] == rest[i - 1];
      }
    }
  }

  // ---------------------------------------------------------------- the conversation list

  /** `prev.map(conv => conv.id === id ? <updated> : conv)`. */
  function UpdateConversation(cs: seq<Conversation>, id: string, u: Update): (r: seq<Conversation>)
    ensures |r| == |cs|
    ensures forall i :: 0 <= i < |cs| ==> r[i] == if cs[i].id == id then Apply(cs[i], u) else cs[i]
  {
    seq(|cs|, i requires 0 <= i < |cs| => if cs[i].id == id then Apply(cs[i], u) else cs[i])
  }

  function UpdateAll(cs: seq<Conversation>, id: string, us: seq<Update>): seq<Conversation>
    decreases |us|
  {
    if us == [] then cs else UpdateConversation(UpdateAll(cs, id, us[..|us| - 1]), id, us[|us| - 1])
  }

  /** The updates of a request reach every conversation with its id and no other. */
  lemma {:induction false} UpdateAllPointwise(cs: seq<Conversation>, id: string, us: seq<Update>)
    ensures |UpdateAll(cs, id, us)| == |cs|
    ensures forall i :: 0 <= i < |cs| ==> UpdateAll(cs, id, us)[i] == if cs[i].id == id then ApplyAll(cs[i], us) else cs[i]
    decreases |us|
  {
    if us != [] {
      var init := us[..|us| - 1];
      UpdateAllPointwise(cs, id, init);
      forall i | 0 <= i < |cs| && cs[i].id == id ensures ApplyAll(cs[i], init).id == id {
        ApplyAllPointwise(cs[i], init);
      }
    }
  }

  /** A request's updates keep every stored conversation well formed. */
  lemma UpdateAllSound(cs: seq<Conversation>, id: string, us: seq<Update>)
    requires forall i :: 0 <= i < |cs| ==> WellFormed(cs[i])
    ensures |UpdateAll(cs, id, us)| == |cs|
    ensures forall i :: 0 <= i < |cs| ==> WellFormed(UpdateAll(cs, id, us)[i])
  {
    UpdateAllPointwise(cs, id, us);
    forall i | 0 <= i < |cs| && cs[i].id == id ensures WellFormed(ApplyAll(cs[i], us)) {
      ApplyAllWellFormed(cs[i], us);
    }
  }

  /** `prev.filter(c => c.id !== id)`. */
  function DropConversation(cs: seq<Conversation>, id: string): (r: seq<Conversation>)
    ensures forall c :: c in r <==> c in cs && c.id != id
  {
    if cs == [] then []
    else if cs[0].id == id then DropConversation(cs[1..], id)
    else [cs[0]] + DropConversation(cs[1..], id)
  }

  /** `togglePinConversation`: `c.id === id ? { ...c, isPinned: !c.isPinned } : c`. */
  function TogglePinned(cs: seq<Conversation>, id: string): (r: seq<Conversation>)
    ensures |r| == |cs|
    ensures forall i :: 0 <= i < |cs| ==> r[i].(isPinned := cs[i].isPinned) == cs[i]
    ensures forall i :: 0 <= i < |cs| ==> r[i].isPinned == if cs[i].id == id then !cs[i].isPinned else cs[i].isPinned
  {
    seq(|cs|, i requires 0 <= i < |cs| => if cs[i].id == id then cs[i].(isPinned := !cs[i].isPinned) else cs[i])
  }

  /** Pinning twice is no change. */
  lemma TogglePinnedTwice(cs: seq<Conversation>, id: string)
    ensures TogglePinned(TogglePinned(cs, id), id) == cs
  {
    var r := TogglePinned(TogglePinned(cs, id), id);
    assert forall i :: 0 <= i < |cs| ==> r[i] == cs[i];
  }

  /** Deleting a conversation does not stop its request: the request's later updates find nothing to change. */
  lemma UpdatesMissDeleted(cs: seq<Conversation>, id: string, us: seq<Update>)
    ensures UpdateAll(DropConversation(cs, id), id, us) == DropConversation(cs, id)
  {
    var d := DropConversation(cs, id);
    UpdateAllPointwise(d, id, us);
    forall i | 0 <= i < |d| ensures d[i].id != id {
      assert d[i] in d;
    }
  }

  // ---------------------------------------------------------------- a request's updates

  /** How a request ends when it does not simply finish. */
  datatype Failure = AbortError | Thrown(message: string)

  /**
   * What the server does with a request: nothing (the fetch itself rejects),
   * refuse it with an error body and a status, or answer with a stream of
   * chunks that may be cut off by a failure.
   */
  datatype Reply =
    | Unanswered(failure: Failure)
    | Refused(error: string, status: nat)
    | Answered(chunks: seq<string>, cutOff: Option<Failure>)

  /** `errorData.error || \`API request failed with status ${response.status}\``. */
  function RefusalMessage(error: string, status: nat): (r: string)
    ensures r != ""
    ensures error != "" ==> r == error
  {
    if error != "" then error else STATUS_FAILED + Decimal(status)
  }

  function Settled(f: Failure): Update {
    match f
    case AbortError => Aborted
    case Thrown(m) => Failed(m)
  }

  function AsUpdate(e: Effect): Update {
    match e
    case ShowSources(s) => SourcesArrived(s)
    case ShowText(c, r) => TextArrived(c, r)
  }

  function AsUpdates(es: seq<Effect>): (r: seq<Update>)
    ensures |r| == |es| && forall i :: 0 <= i < |es| ==> r[i] == AsUpdate(es[i])
  {
    seq(|es|, i requires 0 <= i < |es| => AsUpdate(es[i]))
  }

  /**
   * The updates a request makes to its conversation, in order, when the read
   * loop buffers the opening chunk as `buffering` says (`AsWritten` is the
   * program).
   */
  function Updates(reply: Reply, parse: string -> Parsed, buffering: Buffering): seq<Update> {
    match reply
    case Unanswered(f) => [Settled(f)]
    case Refused(e, s) => [Failed(RefusalMessage(e, s))]
    case Answered(chunks, cut) =>
      [Opened] + AsUpdates(Run(chunks, parse, buffering).effects) + (if cut.Some? then [Settled(cut.value)] else [])
  }

  /** Once the response is open no message is thinking, and stream updates start none. */
  lemma {:induction false} NothingThinks(m: Message, us: seq<Update>, tail: Option<Id>)
    requires us != [] && us[0] == Opened
    ensures !Replayed(m, us, tail).isThinking
    decreases |us|
  {
    if |us| > 1 {
      var init := us[..|us| - 1];
      assert init[0] == Opened;
      NothingThinks(m, init, tail);
    }
  }

  /**
   * A failure after the response opened changes nothing: the placeholder is no
   * longer thinking, so neither the abort nor the error branch touches it, and
   * the partial answer stays as it was.
   */
  lemma CutOffIgnored(c: Conversation, chunks: seq<string>, f: Failure, parse: string -> Parsed, buffering: Buffering)
    ensures ApplyAll(c, Updates(Answered(chunks, Some(f)), parse, buffering)) == ApplyAll(c, Updates(Answered(chunks, None), parse, buffering))
  {
    var us := Updates(Answered(chunks, None), parse, buffering);
    var us' := Updates(Answered(chunks, Some(f)), parse, buffering);
    assert us' == us + [Settled(f)];
    assert us'[..|us'| - 1] == us;
    var d := ApplyAll(c, us);
    ApplyAllPointwise(c, us);
    forall i | 0 <= i < |d.allMessages| ensures Apply(d, Settled(f)).allMessages[i] == d.allMessages[i] {
      NothingThinks(c.allMessages[i], us, Tail(c.activePath));
    }
    assert Apply(d, Settled(f)).allMessages == d.allMessages;
  }

  /**
   * A request the server refuses, or a fetch that fails before any response,
   * turns a thinking placeholder at the path's end into the error text; an abort
   * before the response only stops it thinking. Nothing else changes.
   */
  lemma EarlyFailureShown(c: Conversation, reply: Reply, parse: string -> Parsed, buffering: Buffering, k: nat)
    requires reply.Refused? || reply.Unanswered?
    requires k < |c.allMessages|
    ensures var m := c.allMessages[k];
      var r := ApplyAll(c, Updates(reply, parse, buffering)).allMessages[k];
      var thinkingTail := m.isThinking && Tail(c.activePath) == Some(m.id);
      && (!thinkingTail ==> r == m)
      && (thinkingTail && reply.Refused? ==>
            r == m.(isThinking := false, content := ERROR_PREFIX + RefusalMessage(reply.error, reply.status)))
      && (thinkingTail && reply.Unanswered? && reply.failure.Thrown? ==>
            r == m.(isThinking := false, content := ErrorText(reply.failure.message)))
      && (thinkingTail && reply.Unanswered? && reply.failure.AbortError? ==> r == m.(isThinking := false))
  {
    var us := Updates(reply, parse, buffering);
    assert us[..0] == [];
    ApplyAllPointwise(c, us);
  }

  /** Text updates at the path's end leave the message holding the last text shown. */
  lemma {:induction false} ReplayShows(m: Message, es: seq<Effect>)
    ensures var r := Replayed(m, AsUpdates(es), Some(m.id));
      ShowText(r.content, r.reasoning) == RoundTrip.LastShown(es, ShowText(m.content, m.reasoning))
      && r.isThinking == m.isThinking
    decreases |es|
  {
    if es != [] {
      var init := es[..|es| - 1];
      assert AsUpdates(es)[..|es| - 1] == AsUpdates(init);
      ReplayShows(m, init);
    }
  }

  /**
   * A completed stream leaves the thinking placeholder at the end of the path
   * holding the last text the read loop showed, counted from an emptied answer,
   * and no longer thinking.
   */
  lemma StreamShown(c: Conversation, k: nat, chunks: seq<string>, parse: string -> Parsed, buffering: Buffering)
    requires k < |c.allMessages| && Tail(c.activePath) == Some(c.allMessages[k].id)
    requires c.allMessages[k].isThinking
    ensures var m0 := c.allMessages[k];
      var m := ApplyAll(c, Updates(Answered(chunks, None), parse, buffering)).allMessages[k];
      && ShowText(m.content, m.reasoning) == RoundTrip.LastShown(Run(chunks, parse, buffering).effects, ShowText("", m0.reasoning))
      && !m.isThinking
  {
    var es := Run(chunks, parse, buffering).effects;
    var us := Updates(Answered(chunks, None), parse, buffering);
    assert us == [Opened] + AsUpdates(es);
    var m0 := c.allMessages[k];
    ApplyAllPointwise(c, us);
    ReplayedAppend(m0, [Opened], AsUpdates(es), Tail(c.activePath));
    assert [Opened][..0] == [];
    var m1 := Touched(m0, Opened, Tail(c.activePath));
    assert Replayed(m0, [Opened], Tail(c.activePath)) == m1;
    ReplayShows(m1, es);
  }

  /**
   * The end-to-end property of a request: when the server produces its frames
   * from the model's deltas and the stream completes, the thinking placeholder
   * at the end of the path ends up holding exactly the model's answer and
   * reasoning, and is no longer thinking. This holds for the loop that
   * buffers the opening chunk once, and for the loop as written when the
   * search found no sources.
   */
  lemma StreamedAnswerStored(c: Conversation, k: nat, sources: seq<Source>, stringify: seq<Source> -> string,
                             ds: seq<Framing.Delta>, completed: bool, parse: string -> Parsed, buffering: Buffering)
    requires RoundTrip.PlainDeltas(ds) && (|sources| > 0 ==> CleanPayload(stringify(sources)))
    requires buffering == Once || |sources| == 0
    requires k < |c.allMessages| && Tail(c.activePath) == Some(c.allMessages[k].id)
    requires c.allMessages[k].isThinking && c.allMessages[k].reasoning == ""
    ensures var chunks := Framing.Wires(Framing.Produce(sources, stringify, ds, completed));
      var m := ApplyAll(c, Updates(Answered(chunks, None), parse, buffering)).allMessages[k];
      && m.content == RoundTrip.AnswerUpTo(ds, |ds|)
      && m.reasoning == RoundTrip.ReasoningUpTo(ds, |ds|)
      && !m.isThinking
  {
    var chunks := Framing.Wires(Framing.Produce(sources, stringify, ds, completed));
    StreamShown(c, k, chunks, parse, buffering);
    if buffering == AsWritten {
      RoundTrip.NoSourcesAsWritten(sources, stringify, ds, completed, parse);
    }
    RoundTrip.RoundTrip(sources, stringify, ds, completed, parse);
  }

  /**
   * The same request as written, when the search found sources `j`: as soon
   * as the model sent any text, the placeholder holds the start marker and
   * the payload in front of the model's answer.
   */
  lemma StreamedAnswerLeaks(c: Conversation, k: nat, sources: seq<Source>, stringify: seq<Source> -> string, j: string,
                            ds: seq<Framing.Delta>, completed: bool, parse: string -> Parsed)
    requires RoundTrip.PlainDeltas(ds) && |sources| > 0 && stringify(sources) == j
    requires CleanPayload(j) && RoundTrip.LeakIsPayload(j)
    requires RoundTrip.AnswerUpTo(ds, |ds|) != "" || RoundTrip.ReasoningUpTo(ds, |ds|) != ""
    requires k < |c.allMessages| && Tail(c.activePath) == Some(c.allMessages[k].id)
    requires c.allMessages[k].isThinking && c.allMessages[k].reasoning == ""
    ensures var chunks := Framing.Wires(Framing.Produce(sources, stringify, ds, completed));
      var m := ApplyAll(c, Updates(Answered(chunks, None), parse, AsWritten)).allMessages[k];
      && m.content == JSON_START + j + RoundTrip.AnswerUpTo(ds, |ds|)
      && m.reasoning == RoundTrip.ReasoningUpTo(ds, |ds|)
      && !m.isThinking
  {
    var chunks := Framing.Wires(Framing.Produce(sources, stringify, ds, completed));
    StreamShown(c, k, chunks, parse, AsWritten);
    RoundTrip.LeakShownAsWritten(sources, stringify, j, ds, completed, parse);
  }

  /** After `stopResponse` nothing thinks, so the aborted request's own error handling changes nothing. */
  lemma StopSettles(c: Conversation, f: Failure)
    ensures Apply(Apply(c, Stopped), Settled(f)) == Apply(c, Stopped)
  {
    var s := Apply(c, Stopped);
    assert Apply(s, Settled(f)).allMessages == s.allMessages;
  }

  /**
   * The `try` and `catch` blocks of `fetchOpenAIResponse` on the conversation
   * list: a refusal or a failed fetch settles the placeholder at once; an
   * answer empties it, streams into it, and may be cut off.
   */
  method Respond(cs: seq<Conversation>, id: string, reply: Reply, parse: string -> Parsed, buffering: Buffering)
    returns (r: seq<Conversation>)
    ensures r == UpdateAll(cs, id, Updates(reply, parse, buffering))
  {
    var us := Updates(reply, parse, buffering);
    assert us[..0] == [];
    match reply {
      case Unanswered(f) =>
        r := UpdateConversation(cs, id, Settled(f));
      case Refused(e, s) =>
        r := UpdateConversation(cs, id, Failed(RefusalMessage(e, s)));
      case Answered(chunks, cut) =>
        r := UpdateConversation(cs, id, Opened);
        assert [Opened][..0] == [];
        r := ReadLoop(r, id, chunks, parse, buffering, cs, [Opened]);
        var shown := [Opened] + AsUpdates(Run(chunks, parse, buffering).effects);
        if cut.Some? {
          r := UpdateConversation(r, id, Settled(cut.value));
          assert us[..|us| - 1] == shown;
        } else {
          assert us == shown;
        }
    }
  }

  /**
   * The read loop of `fetchOpenAIResponse`: each chunk is decoded, and what it
   * shows is applied to the conversation list at once.
   */
  method ReadLoop(cs: seq<Conversation>, id: string, chunks: seq<string>, parse: string -> Parsed, buffering: Buffering,
                  ghost cs0: seq<Conversation>, ghost us0: seq<Update>) returns (r: seq<Conversation>)
    requires cs == UpdateAll(cs0, id, us0)
    ensures r == UpdateAll(cs0, id, us0 + AsUpdates(Run(chunks, parse, buffering).effects))
  {
    r := cs;
    var st, effects := INITIAL, [];
    assert us0 + AsUpdates(effects) == us0;
    var i := 0;
    while i < |chunks|
      invariant 0 <= i <= |chunks|
      invariant Stepped(st, effects) == Run(chunks[..i], parse, buffering)
      invariant r == UpdateAll(cs0, id, us0 + AsUpdates(effects))
    {
      var next, shown := ReadChunk(st, chunks[i], parse, buffering);
      r := ShowAll(r, id, shown, cs0, us0 + AsUpdates(effects));
      UpdatesAppend(us0, effects, shown);
      assert chunks[..i + 1][..i] == chunks[..i];
      st, effects, i := next, effects + shown, i + 1;
    }
    assert chunks[..i] == chunks;
  }

  /** The updates of what one chunk shows, applied in order. */
  method ShowAll(cs: seq<Conversation>, id: string, shown: seq<Effect>, ghost cs0: seq<Conversation>, ghost us0: seq<Update>)
    returns (r: seq<Conversation>)
    requires cs == UpdateAll(cs0, id, us0)
    ensures r == UpdateAll(cs0, id, us0 + AsUpdates(shown))
  {
    r := cs;
    var j := 0;
    assert us0 + AsUpdates(shown[..j]) == us0;
    while j < |shown|
      invariant 0 <= j <= |shown|
      invariant r == UpdateAll(cs0, id, us0 + AsUpdates(shown[..j]))
    {
      Grow(us0, shown, j);
      r := UpdateConversation(r, id, AsUpdate(shown[j]));
      j := j + 1;
    }
    assert shown[..j] == shown;
  }

  lemma UpdatesAppend(us0: seq<Update>, a: seq<Effect>, b: seq<Effect>)
    ensures (us0 + AsUpdates(a)) + AsUpdates(b) == us0 + AsUpdates(a + b)
  {
    assert AsUpdates(a + b) == AsUpdates(a) + AsUpdates(b);
  }

  /** The read loop's step: one more shown effect is one more update. */
  lemma Grow(us0: seq<Update>, shown: seq<Effect>, j: nat)
    requires j < |shown|
    ensures var us := us0 + AsUpdates(shown[..j + 1]);
      us[..|us| - 1] == us0 + AsUpdates(shown[..j]) && us[|us| - 1] == AsUpdate(shown[j])
  {
    assert AsUpdates(shown[..j + 1]) == AsUpdates(shown[..j]) + [AsUpdate(shown[j])];
  }

  // ---------------------------------------------------------------- `[...new Set(xs)]`

  /** The distinct values of `xs` in order of first occurrence. */
  function Dedupe(xs: seq<string>): (r: seq<string>)
    ensures forall x :: x in r <==> x in xs
    ensures NoDup(r)
    decreases |xs|
  {
    if xs == [] then []
    else
      var d := Dedupe(xs[..|xs| - 1]);
      var x := xs[|xs| - 1];
      assert forall y :: y in xs <==> y in xs[..|xs| - 1] || y == x;
      if x in d then d else d + [x]
  }

  /** A list without duplicates is its own set. */
  lemma {:induction false} DedupeDistinct(xs: seq<string>)
    requires NoDup(xs)
    ensures Dedupe(xs) == xs
    decreases |xs|
  {
    if xs != [] {
      var init := xs[..|xs| - 1];
      DedupeDistinct(init);
      assert xs[|xs| - 1] !in init;
      assert init + [xs[|xs| - 1]] == xs;
    }
  }

  // ---------------------------------------------------------------- the store

  /** Every field of the store, as one value. */
  datatype Snapshot = Snapshot(
    conversations: seq<Conversation>,
    activeConversationId: Option<string>,
    streamingIds: seq<string>,
    controllers: map<string, nat>,
    requests: nat,
    activeAssistants: seq<Assistant>,
    customAssistants: seq<Assistant>,
    projects: seq<Project>,
    activeProjectId: Option<string>)

  /**
   * The streaming list holds each conversation once, and exactly the
   * conversations with a registered controller; every controller belongs to a
   * request already started.
   */
  ghost predicate Tracked(s: Snapshot) {
    && NoDup(s.streamingIds)
    && (forall id :: id in s.controllers <==> id in s.streamingIds)
    && (forall id :: id in s.controllers ==> s.controllers[id] < s.requests)
  }

  /** The start of a request: its controller is stored under the conversation, which is marked as streaming. */
  function Registered(s: Snapshot, id: string): Snapshot {
    s.(controllers := s.controllers[id := s.requests],
       streamingIds := Dedupe(s.streamingIds + [id]),
       requests := s.requests + 1)
  }

  /** The `finally` block: the conversation's controller entry and streaming mark are removed. */
  function Unregistered(s: Snapshot, id: string): Snapshot {
    s.(controllers := s.controllers - {id}, streamingIds := Without(s.streamingIds, id))
  }

  /** Registering keeps the controller table and the streaming list in step. */
  lemma RegisteredTracked(s: Snapshot, id: string)
    requires Tracked(s)
    ensures Tracked(Registered(s, id))
    ensures id in Registered(s, id).streamingIds && id in Registered(s, id).controllers
  {
    var xs := s.streamingIds;
    DedupeDistinct(xs);
    assert (xs + [id])[..|xs|] == xs;
    assert Dedupe(xs + [id]) == if id in xs then xs else xs + [id];
  }

  /** Unregistering keeps them in step. */
  lemma UnregisteredTracked(s: Snapshot, id: string)
    requires Tracked(s)
    ensures Tracked(Unregistered(s, id))
    ensures id !in Unregistered(s, id).streamingIds && id !in Unregistered(s, id).controllers
  {
    WithoutNoDup(s.streamingIds, id);
  }

  /**
   * Whatever a request does to the conversations, once it is over the controller
   * table and the streaming list are the old ones without its conversation.
   */
  lemma RequestLeavesTable(s: Snapshot, id: string, cs: seq<Conversation>)
    requires Tracked(s)
    ensures Unregistered(Registered(s, id).(conversations := cs), id)
      == Unregistered(s, id).(conversations := cs, requests := s.requests + 1)
  {
    var xs := s.streamingIds;
    DedupeDistinct(xs);
    WithoutAppended(xs, id);
    assert (xs + [id])[..|xs|] == xs;
    assert Without(Dedupe(xs + [id]), id) == Without(xs, id);
    assert s.controllers[id := s.requests] - {id} == s.controllers - {id};
  }

  /** The whole state of the chat provider. */
  class ChatStore {
    var conversations: seq<Conversation>
    var activeConversationId: Option<string>
    var streamingIds: seq<string>
    /** `abortControllers.current`: the controller of each conversation, named by the request that made it. */
    var controllers: map<string, nat>
    /** How many requests have started; the next controller is named by this number. */
    var requests: nat
    var activeAssistants: seq<Assistant>
    var customAssistants: seq<Assistant>
    var projects: seq<Project>
    var activeProjectId: Option<string>

    function State(): Snapshot
      reads this
    {
      Snapshot(conversations, activeConversationId, streamingIds, controllers, requests,
               activeAssistants, customAssistants, projects, activeProjectId)
    }

    ghost predicate Valid()
      reads this
    {
      Tracked(State())
    }

    /** Every stored conversation satisfies the forest invariants. */
    ghost predicate Sound()
      reads this
    {
      forall i :: 0 <= i < |conversations| ==> WellFormed(conversations[i])
    }

    /** The provider's initial state: every list empty, nothing active. */
    constructor()
      ensures Valid() && Sound()
      ensures State() == Snapshot([], None, [], map[], 0, [], [], [], None)
    {
      conversations, activeConversationId, streamingIds := [], None, [];
      controllers, requests := map[], 0;
      activeAssistants, customAssistants, projects, activeProjectId := [], [], [], None;
    }

    // ------------------------------------------------------------ the request lifecycle

    /** The start of `fetchOpenAIResponse`. */
    method Begin(id: string) returns (request: nat)
      requires Valid()
      modifies this
      ensures Valid()
      ensures request == old(requests) && State() == Registered(old(State()), id)
    {
      request := requests;
      RegisteredTracked(State(), id);
      controllers := controllers[id := request];
      streamingIds := Dedupe(streamingIds + [id]);
      requests := requests + 1;
    }

    /** The `finally` block of `fetchOpenAIResponse`. */
    method Settle(id: string)
      requires Valid()
      modifies this
      ensures Valid()
      ensures State() == Unregistered(old(State()), id)
    {
      UnregisteredTracked(State(), id);
      controllers := controllers - {id};
      streamingIds := Without(streamingIds, id);
    }

    /** One `setConversations(prev => prev.map(...))` of the lifecycle. */
    method Rewrite(id: string, u: Update)
      modifies this
      ensures State() == old(State()).(conversations := UpdateConversation(old(conversations), id, u))
    {
      conversations := UpdateConversation(conversations, id, u);
    }

    /**
     * `fetchOpenAIResponse`: the request is registered, the reply's updates are
     * applied to the conversation as they arrive (the read loop decodes each
     * chunk and passes on what it shows), and the request is unregistered.
     */
    method FetchResponse(id: string, reply: Reply, parse: string -> Parsed, buffering: Buffering) returns (request: nat)
      requires Valid()
      modifies this
      ensures Valid()
      ensures request == old(requests)
      ensures State() == Unregistered(old(State()), id).(conversations := UpdateAll(old(conversations), id, Updates(reply, parse, buffering)),
                                                         requests := old(requests) + 1)
      ensures old(Sound()) ==> Sound()
    {
      if Sound() {
        UpdateAllSound(conversations, id, Updates(reply, parse, buffering));
      }
      RequestLeavesTable(State(), id, UpdateAll(conversations, id, Updates(reply, parse, buffering)));
      request := Begin(id);
      conversations := Respond(conversations, id, reply, parse, buffering);
      Settle(id);
    }

    /**
     * `stopResponse`: when the conversation has a controller it is aborted and
     * removed, the streaming mark goes, and every thinking message of the
     * conversation stops thinking with its content kept; otherwise nothing happens.
     */
    method StopResponse(id: string) returns (stopped: Option<nat>)
      requires Valid()
      modifies this
      ensures Valid()
      ensures stopped.Some? <==> id in old(controllers)
      ensures stopped.None? ==> State() == old(State())
      ensures stopped.Some? ==>
        && stopped.value == old(controllers)[id]
        && State() == Unregistered(old(State()), id).(conversations := UpdateConversation(old(conversations), id, Stopped))
      ensures old(Sound()) ==> Sound()
    {
      if Sound() {
        UpdateAllSound(conversations, id, [Stopped]);
        assert [Stopped][..0] == [];
        assert UpdateAll(conversations, id, [Stopped]) == UpdateConversation(conversations, id, Stopped);
      }
      if id in controllers {
        stopped := Some(controllers[id]);
        Settle(id);
        Rewrite(id, Stopped);
      } else {
        stopped := None;
      }
    }

    // ------------------------------------------------------------ conversations

    /** The list end of `createConversation`, `startAssistantChat` and `continueChat`: prepend, then select. */
    method Prepend(c: Conversation)
      modifies this
      ensures State() == old(State()).(conversations := [c] + old(conversations), activeConversationId := Some(c.id))
      ensures old(Sound()) && WellFormed(c) ==> Sound()
    {
      conversations := [c] + conversations;
      activeConversationId := Some(c.id);
    }

    /** `createConversation`: the new conversation is selected; a request starts when there was something to ask. */
    method CreateConversation(now: nat, firstMessage: string, modelId: string, modelName: string,
                              assistantId: Option<string>, attachment: Option<Attachment>)
      returns (newId: string, request: Option<seq<Message>>)
      modifies this
      ensures var t := Conversations.CreateConversation(now, firstMessage, modelId, modelName, assistantId, attachment);
        && newId == Decimal(now) && request == t.request
        && State() == old(State()).(conversations := [t.conv] + old(conversations), activeConversationId := Some(newId))
      ensures old(Sound()) ==> Sound()
    {
      var t := Conversations.CreateConversation(now, firstMessage, modelId, modelName, assistantId, attachment);
      Prepend(t.conv);
      newId, request := t.conv.id, t.request;
    }

    /** `continueChat`: a shared transcript becomes a new selected conversation. */
    method ContinueChat(now: nat, title: string, shared: seq<Message>, assistantId: Option<string>)
      returns (newId: string)
      modifies this
      ensures var c := Conversations.ContinueChat(now, title, shared, assistantId);
        newId == Decimal(now) && State() == old(State()).(conversations := [c] + old(conversations), activeConversationId := Some(newId))
      ensures old(Sound()) ==> Sound()
    {
      var c := Conversations.ContinueChat(now, title, shared, assistantId);
      Prepend(c);
      newId := c.id;
    }

    /**
     * `startAssistantChat`: the assistant is upserted into the pinned list and an
     * empty conversation titled after it is selected; `suffix` stands for the
     * six random base-36 characters of the id.
     */
    method StartAssistantChat(a: Assistant, suffix: string) returns (newId: string)
      modifies this
      ensures newId == Slug(a.name) + "-" + suffix
      ensures State() == old(State()).(activeAssistants := Upsert(old(activeAssistants), a),
                                       conversations := [Conversation(newId, a.name, [], [], Some(a.id), None, None, false, None)] + old(conversations),
                                       activeConversationId := Some(newId))
      ensures old(Sound()) ==> Sound()
    {
      activeAssistants := Upsert(activeAssistants, a);
      newId := Slug(a.name) + "-" + suffix;
      var c := Conversation(newId, a.name, [], [], Some(a.id), None, None, false, None);
      assert WellFormed(c);
      Prepend(c);
    }

    /** `deleteConversation`: the conversation goes and is deselected; a request it has running is not aborted. */
    method DeleteConversation(id: string)
      modifies this
      ensures State() == old(State()).(conversations := DropConversation(old(conversations), id),
                                       activeConversationId := if old(activeConversationId) == Some(id) then None
                                                               else old(activeConversationId))
      ensures old(Sound()) ==> Sound()
    {
      ghost var before := conversations;
      conversations := DropConversation(conversations, id);
      if activeConversationId == Some(id) {
        activeConversationId := None;
      }
      forall i | 0 <= i < |conversations| ensures conversations[i] in before {
        assert conversations[i] in conversations;
      }
    }

    method TogglePinConversation(id: string)
      modifies this
      ensures State() == old(State()).(conversations := TogglePinned(old(conversations), id))
      ensures old(Sound()) ==> Sound()
    {
      ghost var before := conversations;
      conversations := TogglePinned(conversations, id);
      forall i | 0 <= i < |conversations| && WellFormed(before[i]) ensures WellFormed(conversations[i]) {
        assert conversations[i].allMessages == before[i].allMessages && conversations[i].activePath == before[i].activePath;
      }
    }

    // ------------------------------------------------------------ assistants and projects

    /** `addProjectAssistant`: upserted into the custom list, refreshed in the pinned list if pinned. */
    method AddProjectAssistant(a: Assistant)
      modifies this
      ensures State() == old(State()).(customAssistants := Upsert(old(customAssistants), a),
                                       activeAssistants := Refresh(old(activeAssistants), a))
    {
      customAssistants := Upsert(customAssistants, a);
      activeAssistants := Refresh(activeAssistants, a);
    }

    method RemoveProjectAssistant(id: string)
      modifies this
      ensures State() == old(State()).(customAssistants := DropAssistant(old(customAssistants), id))
    {
      customAssistants := DropAssistant(customAssistants, id);
    }

    method RemoveActiveAssistant(id: string)
      modifies this
      ensures State() == old(State()).(activeAssistants := DropAssistant(old(activeAssistants), id))
    {
      activeAssistants := DropAssistant(activeAssistants, id);
    }

    /** `createProject`: an empty project goes first and is selected, and no chat is. */
    method CreateProject(name: string, now: nat) returns (id: string)
      modifies this
      ensures id == Decimal(now)
      ensures State() == old(State()).(projects := [Project(id, name, "", [], [], Some(now))] + old(projects),
                                       activeProjectId := Some(id), activeConversationId := None)
    {
      id := Decimal(now);
      projects := [Project(id, name, "", [], [], Some(now))] + projects;
      activeProjectId := Some(id);
      activeConversationId := None;
    }

    method UpdateProject(id: string, u: ProjectUpdate)
      modifies this
      ensures State() == old(State()).(projects := Catalog.UpdateProject(old(projects), id, u))
    {
      projects := Catalog.UpdateProject(projects, id, u);
    }

    /** `deleteProject`: the project goes and is deselected when it was selected. */
    method DeleteProject(id: string)
      modifies this
      ensures State() == old(State()).(projects := DropProject(old(projects), id),
                                       activeProjectId := if old(activeProjectId) == Some(id) then None else old(activeProjectId))
    {
      projects := DropProject(projects, id);
      if activeProjectId == Some(id) {
        activeProjectId := None;
      }
    }

    method AddChatToProject(projectId: string, chatId: string)
      modifies this
      ensures State() == old(State()).(projects := WithChat(old(projects), projectId, chatId))
    {
      projects := WithChat(projects, projectId, chatId);
    }

    method RemoveChatFromProject(projectId: string, chatId: string)
      modifies this
      ensures State() == old(State()).(projects := WithoutChat(old(projects), projectId, chatId))
    {
      projects := WithoutChat(projects, projectId, chatId);
    }
  }

  // ---------------------------------------------------------------- the id of an assistant chat

  predicate SlugChar(c: char) {
    'a' <= c <= 'z' || '0' <= c <= '9' || c == '-'
  }

  /** The leading white space of `s` removed. */
  function SkipSpaces(s: string): (r: string)
    ensures |r| <= |s| && r <= s[|s| - |r|..] && r == s[|s| - |r|..]
    ensures r != [] ==> !IsJsSpace(r[0])
  {
    if s != [] && IsJsSpace(s[0]) then SkipSpaces(s[1..]) else s
  }

  /** `.replace(/\s+/g, '-')`: every run of white space becomes one dash. */
  function Dashed(s: string): (r: string)
    ensures forall i :: 0 <= i < |r| ==> !IsJsSpace(r[i])
    decreases |s|
  {
    if s == [] then []
    else if IsJsSpace(s[0]) then "-" + Dashed(SkipSpaces(s[1..]))
    else [s[0]] + Dashed(s[1..])
  }

  /** `.replace(/[^a-z0-9-]/g, '')`. */
  function KeepSlugChars(s: string): (r: string)
    ensures forall i :: 0 <= i < |r| ==> SlugChar(r[i])
  {
    if s == [] then []
    else if SlugChar(s[0]) then [s[0]] + KeepSlugChars(s[1..])
    else KeepSlugChars(s[1..])
  }

  /** `name.toLowerCase().replace(/\s+/g, '-').replace(/[^a-z0-9-]/g, '')`. */
  function Slug(name: string): (r: string)
    ensures forall i :: 0 <= i < |r| ==> SlugChar(r[i])
  {
    KeepSlugChars(Dashed(ToLower(name)))
  }

  lemma {:induction false} DashedPlain(s: string)
    requires forall i :: 0 <= i < |s| ==> !IsJsSpace(s[i])
    ensures Dashed(s) == s
    decreases |s|
  {
    if s != [] {
      DashedPlain(s[1..]);
    }
  }

  lemma {:induction false} KeepAll(s: string)
    requires forall i :: 0 <= i < |s| ==> SlugChar(s[i])
    ensures KeepSlugChars(s) == s
    decreases |s|
  {
    if s != [] {
      KeepAll(s[1..]);
    }
  }

  /** A slug is its own slug: it is lower case, has no white space and only slug characters. */
  lemma SlugIdempotent(name: string)
    ensures Slug(Slug(name)) == Slug(name)
  {
    var s := Slug(name);
    assert ToLower(s) == s;
    DashedPlain(s);
    KeepAll(s);
  }
}
