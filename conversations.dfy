/**
 * The conversation-level operations of the chat store: creating a
 * conversation, restoring a shared one, appending a turn, regenerating an
 * answer, resubmitting an edited message and switching between versions.
 * Each takes the clock reading `now` (milliseconds) that the store reads from
 * `Date.now()`; new message ids are its decimal text, and the reply
 * placeholder of a user turn takes the text of `now + 1`.
 */
module Conversations {
  import opened Base
  import opened Text
  import opened Forest

  const NEW_CHAT: string := "New Chat"
  const CONTINUED_CHAT: string := "Continued Chat"

  /** `text.substring(0, 30) + (text.length > 30 ? '...' : '')`. */
  function TitleFrom(text: string): (r: string)
    ensures |text| <= 30 ==> r == text
    ensures |text| > 30 ==> r == text[..30] + "..."
  {
    Take(text, 30) + (if |text| > 30 then "..." else "")
  }

  /** A new message written by `role`, with no siblings. */
  function Posted(id: Id, role: Role, content: string, attachment: Option<Attachment>, parent: Option<Id>, now: int): Message {
    Message(id, role, content, "", None, attachment, parent, [], false, None, Some(now))
  }

  /** The empty assistant message shown while an answer streams in. */
  function Placeholder(id: Id, modelName: string, parent: Option<Id>, now: int): Message {
    Message(id, Assistant, "", "", None, None, parent, [], true, Some(modelName), Some(now))
  }

  /** A conversation after an operation, and the history of the request it starts, if any. */
  datatype Turn = Turn(conv: Conversation, request: Option<seq<Message>>)

  /** What a request carries: the visible transcript without thinking placeholders. */
  function History(c: Conversation): seq<Message> {
    NotThinking(Messages(c))
  }

  /** A new state together with the request it starts. */
  function Request(c: Conversation): (r: Turn)
    ensures r.conv == c && r.request == Some(History(c))
  {
    Turn(c, Some(History(c)))
  }

  /** The clock reading gives two ids that no stored message uses. */
  ghost predicate FreshClock(c: Conversation, now: nat) {
    Decimal(now) !in Ids(c.allMessages) && Decimal(now + 1) !in Ids(c.allMessages)
  }

  lemma ClockIdsDiffer(now: nat)
    ensures Decimal(now) != Decimal(now + 1)
    ensures Decimal(now) != "" && Decimal(now + 1) != ""
  {
    if Decimal(now) == Decimal(now + 1) {
      NatToStringInjective(now, now + 1, 10);
    }
  }

  // ---------------------------------------------------------------- createConversation

  /** `(firstMessage && firstMessage.trim().length > 0) || fileAttachment`. */
  predicate HasInitialContent(firstMessage: string, attachment: Option<Attachment>) {
    !Blank(firstMessage) || attachment.Some?
  }

  function InitialTitle(firstMessage: string, attachment: Option<Attachment>): string {
    if !HasInitialContent(firstMessage, attachment) then NEW_CHAT
    else if firstMessage != "" then TitleFrom(firstMessage)
    else if attachment.Some? && attachment.value.name != "" then attachment.value.name
    else NEW_CHAT
  }

  /** The two-message forest of a new conversation: the question `1` and its placeholder answer `2`. */
  function Opening(firstMessage: string, attachment: Option<Attachment>, modelName: string, now: int): seq<Message> {
    [Posted("1", User, firstMessage, attachment, None, now), Placeholder("2", modelName, Some("1"), now)]
  }

  lemma OpeningWellFormed(firstMessage: string, attachment: Option<Attachment>, modelName: string, now: int)
    ensures ForestOk(Opening(firstMessage, attachment, modelName, now))
    ensures PathChain(Opening(firstMessage, attachment, modelName, now), ["1", "2"])
  {
    var ms := Opening(firstMessage, attachment, modelName, now);
    assert "1" != "2" by { assert "1"[0] != "2"[0]; }
    assert Ids(ms) == ["1", "2"];
    assert FirstIndex(ms, "1") == 0;
    assert FirstIndex(ms, "2") == 1;
    assert ParentOf(ms, "1") == None;
    assert ParentOf(ms, "2") == Some("1");
    var path := ["1", "2"];
    assert path[0] == "1" && path[1] == "2";
    assert StepsDown(ms, path) by {
      forall j | 0 < j < |path| ensures StepAt(ms, path, j) {
        assert j == 1;
      }
    }
  }

  /** The opening path shows both messages; only the question goes into the request. */
  lemma OpeningShown(firstMessage: string, attachment: Option<Attachment>, modelName: string, now: int)
    ensures var ms := Opening(firstMessage, attachment, modelName, now);
      Visible(ms, ["1", "2"]) == ms && NotThinking(ms) == [ms[0]]
  {
    var ms := Opening(firstMessage, attachment, modelName, now);
    OpeningWellFormed(firstMessage, attachment, modelName, now);
    VisibleOfChain(ms, ["1", "2"]);
    assert NotThinking(ms[1..]) == [] by { assert ms[1..] == [ms[1]]; }
  }

  /**
   * `createConversation`: a conversation with the question and a thinking
   * placeholder when there is something to ask, and an empty one otherwise.
   */
  function CreateConversation(now: nat, firstMessage: string, modelId: string, modelName: string,
                              assistantId: Option<string>, attachment: Option<Attachment>): (r: Turn)
    ensures WellFormed(r.conv) && r.conv.id == Decimal(now) && !r.conv.isPinned
    ensures r.request.Some? <==> HasInitialContent(firstMessage, attachment)
    ensures r.request.Some? ==>
      && |Messages(r.conv)| == 2
      && Messages(r.conv)[0].role == User && Messages(r.conv)[0].content == firstMessage
      && Messages(r.conv)[0].attachment == attachment
      && Messages(r.conv)[1].isThinking && Messages(r.conv)[1].parentId == Some(Messages(r.conv)[0].id)
      && r.request == Some([Messages(r.conv)[0]]) == Some(History(r.conv))
    ensures r.request.None? ==> r.conv.allMessages == [] && r.conv.activePath == [] && r.conv.title == NEW_CHAT
    ensures r.request.Some? && firstMessage != "" ==> r.conv.title == TitleFrom(firstMessage)
    ensures r.request.Some? && firstMessage == "" ==>
      r.conv.title == if attachment.value.name != "" then attachment.value.name else NEW_CHAT
    ensures r.conv.assistantId == assistantId && r.conv.modelId == Some(modelId) && r.conv.modelName == Some(modelName)
    ensures r.request.Some? ==> Messages(r.conv)[1].modelName == Some(modelName)
  {
    var has := HasInitialContent(firstMessage, attachment);
    var ms := if has then Opening(firstMessage, attachment, modelName, now) else [];
    var path := if has then ["1", "2"] else [];
    var c := Conversation(Decimal(now), InitialTitle(firstMessage, attachment), ms, path,
                          assistantId, Some(modelId), Some(modelName), false, None);
    OpeningWellFormed(firstMessage, attachment, modelName, now);
    OpeningShown(firstMessage, attachment, modelName, now);
    Turn(c, if has then Some([ms[0]]) else None)
  }

  // ---------------------------------------------------------------- continueChat

  /** A shared message restored as the `idx`-th message of a linear conversation. */
  function Restore(m: Message, idx: nat, now: int): Message {
    m.(id := Decimal(idx + 1), timestamp := Some(m.timestamp.GetOr(now)),
       parentId := if idx > 0 then Some(Decimal(idx)) else None, siblingIds := [])
  }

  function Restored(shared: seq<Message>, now: int): (r: seq<Message>)
    ensures |r| == |shared|
    ensures forall i :: 0 <= i < |shared| ==> r[i] == Restore(shared[i], i, now)
  {
    seq(|shared|, i requires 0 <= i < |shared| => Restore(shared[i], i, now))
  }

  lemma RestoredLinks(shared: seq<Message>, now: int)
    ensures ForestOk(Restored(shared, now))
  {
    var ms := Restored(shared, now);
    RestoredUnique(shared, now);
    forall i, j | 0 <= i < |ms| && 0 <= j < |ms| && ms[j].parentId == Some(ms[i].id) ensures i < j {
      NatToStringInjective(i + 1, j, 10);
    }
    forall i | 0 <= i < |ms| && ms[i].parentId.Some? ensures ms[i].parentId.value in Ids(ms) {
      assert Ids(ms)[i - 1] == Decimal(i);
    }
  }

  lemma RestoredUnique(shared: seq<Message>, now: int)
    ensures UniqueIds(Restored(shared, now))
  {
    var ms := Restored(shared, now);
    forall i, j | 0 <= i < |ms| && 0 <= j < |ms| && ms[i].id == ms[j].id ensures i == j {
      NatToStringInjective(i + 1, j + 1, 10);
    }
  }

  lemma RestoredChain(shared: seq<Message>, now: int)
    requires UniqueIds(Restored(shared, now))
    ensures PathChain(Restored(shared, now), Ids(Restored(shared, now)))
  {
    var ms := Restored(shared, now);
    var path := Ids(ms);
    forall k | 0 <= k < |path| ensures path[k] in Ids(ms) && ParentOf(ms, path[k]) == ms[k].parentId {
      FindUnique(ms, k);
    }
    forall j | 0 < j < |path| ensures StepAt(ms, path, j) {
      assert ParentOf(ms, path[j]) == ms[j].parentId;
    }
  }

  /**
   * `continueChat`: a shared transcript becomes a new linear conversation with
   * ids `1`, `2`, ... whose visible messages keep every shared field but
   * those links and a missing timestamp.
   */
  function ContinueChat(now: nat, title: string, shared: seq<Message>, assistantId: Option<string>): (r: Conversation)
    ensures WellFormed(r) && r.id == Decimal(now)
    ensures r.title == if title == "" then CONTINUED_CHAT else title
    ensures |Messages(r)| == |shared|
    ensures forall i :: 0 <= i < |shared| ==>
      Messages(r)[i] == shared[i].(id := Messages(r)[i].id, parentId := Messages(r)[i].parentId,
                                   siblingIds := [], timestamp := Messages(r)[i].timestamp)
      && Messages(r)[i].timestamp.Some?
      && (shared[i].timestamp.Some? ==> Messages(r)[i].timestamp == shared[i].timestamp)
  {
    var ms := Restored(shared, now);
    var c := Conversation(Decimal(now), if title == "" then CONTINUED_CHAT else title, ms, Ids(ms),
                          assistantId, None, None, false, None);
    RestoredShown(shared, now);
    c
  }

  /** The restored forest is well formed, and its linear path shows every message in order. */
  lemma RestoredShown(shared: seq<Message>, now: int)
    ensures ForestOk(Restored(shared, now)) && PathChain(Restored(shared, now), Ids(Restored(shared, now)))
    ensures Visible(Restored(shared, now), Ids(Restored(shared, now))) == Restored(shared, now)
  {
    var ms := Restored(shared, now);
    RestoredLinks(shared, now);
    RestoredChain(shared, now);
    VisibleOfChain(ms, Ids(ms));
    forall i | 0 <= i < |ms| ensures Visible(ms, Ids(ms))[i] == ms[i] {
      FindUnique(ms, i);
    }
  }

  // ---------------------------------------------------------------- addMessage

  /** `activePath[activePath.length - 1] || null`. */
  function TailOrNull(path: seq<Id>): Option<Id> {
    if path == [] || path[|path| - 1] == "" then None else Some(path[|path| - 1])
  }

  /**
   * `addMessage`: a user message is appended with a thinking reply and starts
   * a request; a message of any other role is appended alone. The first user
   * message of an empty conversation names it.
   */
  function AddMessage(c: Conversation, now: nat, content: string, role: Role, modelName: string,
                      attachment: Option<Attachment>): (r: Turn)
    ensures Preserved(c.allMessages, r.conv.allMessages)
    ensures r.request.Some? <==> role == User
    ensures r.request.Some? ==> r.request.value == History(r.conv)
    ensures r.conv.title == if role == User && Messages(c) == [] then TitleFrom(content) else c.title
  {
    var u := Posted(Decimal(now), role, content, attachment, TailOrNull(c.activePath), now);
    if role == User then
      var a := Placeholder(Decimal(now + 1), modelName, Some(u.id), now);
      var c' := c.(allMessages := c.allMessages + [u] + [a], activePath := c.activePath + [u.id] + [a.id],
                   title := if Messages(c) == [] then TitleFrom(content) else c.title);
      Request(c')
    else
      Turn(c.(allMessages := c.allMessages + [u], activePath := c.activePath + [u.id]), None)
  }

  /** Appending one message whose parent is the old tail extends a sound conversation soundly. */
  lemma AppendOnPath(ms: seq<Message>, path: seq<Id>, m: Message)
    requires ForestOk(ms) && PathChain(ms, path)
    requires m.id !in Ids(ms) && m.id != "" && m.siblingIds == [] && m.parentId == Tail(path)
    ensures ForestOk(ms + [m]) && Preserved(ms, ms + [m])
    ensures PathChain(ms + [m], path + [m.id])
  {
    if path != [] {
      assert path[|path| - 1] in Ids(ms);
    }
    AppendLeaf(ms, m);
    AppendChain(ms, [m], path);
    IdsAppend(ms, [m]);
    assert Ids([m]) == [m.id];
    FindAppend(ms, [m], m.id);
    assert Find([m], m.id) == Some(m);
    ExtendChain(ms + [m], path, m.id);
  }

  /** Appending a question and its reply below the tail of a chain. */
  lemma AppendPair(ms: seq<Message>, path: seq<Id>, u: Message, a: Message)
    requires ForestOk(ms) && PathChain(ms, path)
    requires u.id !in Ids(ms) && u.id != "" && u.siblingIds == [] && u.parentId == Tail(path)
    requires a.id !in Ids(ms) && a.id != "" && a.id != u.id && a.siblingIds == [] && a.parentId == Some(u.id)
    ensures ForestOk(ms + [u] + [a]) && PathChain(ms + [u] + [a], path + [u.id] + [a.id])
    ensures Find(ms + [u] + [a], u.id) == Some(u) && Find(ms + [u] + [a], a.id) == Some(a)
  {
    AppendOnPath(ms, path, u);
    FindAppended(ms, u);
    assert Tail(path + [u.id]) == Some(u.id);
    AppendOnPath(ms + [u], path + [u.id], a);
    FindAppended(ms + [u], a);
    FindAppend(ms + [u], [a], u.id);
  }

  /** On a sound conversation a tail entry is never empty, so `|| null` changes nothing. */
  lemma TailOrNullIsTail(c: Conversation)
    requires WellFormed(c)
    ensures TailOrNull(c.activePath) == Tail(c.activePath)
  {
    if c.activePath != [] {
      var x := c.activePath[|c.activePath| - 1];
      assert x in Ids(c.allMessages);
      var i :| 0 <= i < |c.allMessages| && Ids(c.allMessages)[i] == x;
    }
  }

  /**
   * With fresh ids from the clock, `addMessage` keeps the conversation sound,
   * deletes nothing, and extends the active path by exactly the new messages:
   * the question (child of the old tail) and, for a user, its thinking reply.
   */
  lemma AddMessageSound(c: Conversation, now: nat, content: string, role: Role, modelName: string,
                        attachment: Option<Attachment>)
    requires WellFormed(c) && FreshClock(c, now)
    ensures var r := AddMessage(c, now, content, role, modelName, attachment).conv;
      && WellFormed(r)
      && r.activePath == (if role == User then c.activePath + [Decimal(now)] + [Decimal(now + 1)] else c.activePath + [Decimal(now)])
      && Find(r.allMessages, Decimal(now)) == Some(Posted(Decimal(now), role, content, attachment, Tail(c.activePath), now))
      && (role == User ==> Find(r.allMessages, Decimal(now + 1)) == Some(Placeholder(Decimal(now + 1), modelName, Some(Decimal(now)), now)))
  {
    TailOrNullIsTail(c);
    ClockIdsDiffer(now);
    var u := Posted(Decimal(now), role, content, attachment, Tail(c.activePath), now);
    if role == User {
      AppendPair(c.allMessages, c.activePath, u, Placeholder(Decimal(now + 1), modelName, Some(u.id), now));
    } else {
      AppendOnPath(c.allMessages, c.activePath, u);
      FindAppended(c.allMessages, u);
    }
  }

  // ---------------------------------------------------------------- regenerateResponse

  /** The new version of `o` that `regenerateResponse` stores: empty, thinking, under the new model. */
  function Retry(o: Message, id: Id, modelName: string, now: int): Message {
    o.(id := id, content := "", isThinking := true, timestamp := Some(now), modelName := Some(modelName),
       siblingIds := o.siblingIds + [o.id])
  }

  /** The message on screen last, looked up as the store does. */
  function LastActive(c: Conversation): Option<Message> {
    match Tail(c.activePath)
    case Some(id) => Find(c.allMessages, id)
    case None => None
  }

  /** Whether regenerating forks the last visible message rather than answering below it. */
  predicate EndsInAnswer(c: Conversation) {
    LastActive(c).Some? && LastActive(c).value.role == Assistant
  }

  /**
   * `regenerateResponse`: when the last visible message is an answer, a new
   * thinking version of it joins its version group and takes its place on the
   * path; otherwise a thinking answer is appended below the last message.
   * Either way a request starts.
   */
  function RegenerateResponse(c: Conversation, now: nat, modelName: string): (r: Turn)
    ensures Preserved(c.allMessages, r.conv.allMessages)
    ensures r.request == Some(History(r.conv))
    ensures |r.conv.activePath| == |c.activePath| + (if EndsInAnswer(c) then 0 else 1)
  {
    Request(Regenerated(c, now, modelName))
  }

  function Regenerated(c: Conversation, now: nat, modelName: string): (r: Conversation)
    ensures Preserved(c.allMessages, r.allMessages)
    ensures |r.activePath| == |c.activePath| + (if EndsInAnswer(c) then 0 else 1)
  {
    var ms := c.allMessages;
    var id := Decimal(now);
    if EndsInAnswer(c) then
      var p := FirstIndex(ms, LastActive(c).value.id);
      ForkPreserved(ms, p, Retry(ms[p], id, modelName, now));
      c.(allMessages := Fork(ms, p, Retry(ms[p], id, modelName, now)),
         activePath := c.activePath[..|c.activePath| - 1] + [id])
    else
      c.(allMessages := ms + [Placeholder(id, modelName, Tail(c.activePath), now)],
         activePath := c.activePath + [id])
  }

  /** A fork of the stored message at the end of a chain may take that message's place on it. */
  lemma ForkOnPath(ms: seq<Message>, path: seq<Id>, b: nat, n: Message)
    requires ForestOk(ms) && PathChain(ms, path) && b < |path|
    requires n.id !in Ids(ms) && n.id != ""
    requires n.parentId == ParentOf(ms, path[b])
    requires n.siblingIds == Find(ms, path[b]).value.siblingIds + [path[b]]
    ensures ForestOk(Fork(ms, FirstIndex(ms, path[b]), n))
    ensures Preserved(ms, Fork(ms, FirstIndex(ms, path[b]), n))
    ensures PathChain(Fork(ms, FirstIndex(ms, path[b]), n), path[..b] + [n.id])
    ensures Group(n) == Group(Find(ms, path[b]).value) + {n.id}
    ensures Find(Fork(ms, FirstIndex(ms, path[b]), n), n.id) == Some(n)
  {
    var p := FirstIndex(ms, path[b]);
    ForkOk(ms, p, n);
    ForkChain(ms, path, b, n);
  }

  lemma ForkChain(ms: seq<Message>, path: seq<Id>, b: nat, n: Message)
    requires PathChain(ms, path) && b < |path|
    requires ForkShape(ms, FirstIndex(ms, path[b]), n)
    ensures PathChain(Fork(ms, FirstIndex(ms, path[b]), n), path[..b] + [n.id])
    ensures Find(Fork(ms, FirstIndex(ms, path[b]), n), n.id) == Some(n)
  {
    var p := FirstIndex(ms, path[b]);
    var r := Fork(ms, p, n);
    PrefixChain(ms, path, b);
    ForkKeepsChain(ms, p, n, path[..b]);
    ForkNewFound(ms, p, n);
    ForkNewParent(ms, path, b, n);
    ExtendChain(r, path[..b], n.id);
  }

  lemma ForkNewFound(ms: seq<Message>, p: nat, n: Message)
    requires ForkShape(ms, p, n)
    ensures Find(Fork(ms, p, n), n.id) == Some(n)
  {
    LinkSiblingLinks(ms, ms[p], n.id);
    FindAppended(LinkSibling(ms, ms[p], n.id), n);
  }

  lemma ForkNewParent(ms: seq<Message>, path: seq<Id>, b: nat, n: Message)
    requires PathChain(ms, path) && b < |path|
    requires ForkShape(ms, FirstIndex(ms, path[b]), n)
    ensures ParentOf(Fork(ms, FirstIndex(ms, path[b]), n), n.id) == Tail(path[..b])
  {
    var p := FirstIndex(ms, path[b]);
    ForkNewFound(ms, p, n);
    assert ParentOf(Fork(ms, p, n), n.id) == n.parentId == ms[p].parentId;
    assert ParentOf(ms, path[b]) == ms[p].parentId;
    if b > 0 {
      assert StepAt(ms, path, b);
      assert path[..b][b - 1] == path[b - 1];
      assert Tail(path[..b]) == Some(path[b - 1]);
    } else {
      assert Tail(path[..b]) == None;
    }
  }

  lemma ForkKeepsChain(ms: seq<Message>, p: nat, n: Message, q: seq<Id>)
    requires PathChain(ms, q) && ForkShape(ms, p, n)
    ensures PathChain(Fork(ms, p, n), q)
  {
    var r := Fork(ms, p, n);
    forall k | 0 <= k < |q| ensures q[k] in Ids(r) && ParentOf(r, q[k]) == ParentOf(ms, q[k]) {
      ForkFind(ms, p, n, q[k]);
    }
    ChainTransfer(ms, r, q);
  }

  /**
   * With a fresh id, `regenerateResponse` keeps the conversation sound and
   * deletes nothing. Regenerating an answer replaces the last path entry by
   * a new thinking version in the same group; otherwise the placeholder
   * becomes the new last entry.
   */
  lemma RegenerateSound(c: Conversation, now: nat, modelName: string)
    requires WellFormed(c) && Decimal(now) !in Ids(c.allMessages)
    ensures var r := RegenerateResponse(c, now, modelName).conv;
      && WellFormed(r)
      && (EndsInAnswer(c) ==>
            && r.activePath == c.activePath[..|c.activePath| - 1] + [Decimal(now)]
            && Find(r.allMessages, Decimal(now)) == Some(Retry(LastActive(c).value, Decimal(now), modelName, now))
            && Group(Find(r.allMessages, Decimal(now)).value) == Group(LastActive(c).value) + {Decimal(now)})
      && (!EndsInAnswer(c) ==>
            && r.activePath == c.activePath + [Decimal(now)]
            && Find(r.allMessages, Decimal(now)) == Some(Placeholder(Decimal(now), modelName, Tail(c.activePath), now)))
  {
    if EndsInAnswer(c) {
      RegenerateFork(c, now, modelName);
    } else {
      RegenerateAppend(c, now, modelName);
    }
  }

  lemma RegenerateFork(c: Conversation, now: nat, modelName: string)
    requires WellFormed(c) && Decimal(now) !in Ids(c.allMessages) && EndsInAnswer(c)
    ensures var r := Regenerated(c, now, modelName);
      && WellFormed(r)
      && r.activePath == c.activePath[..|c.activePath| - 1] + [Decimal(now)]
      && Find(r.allMessages, Decimal(now)) == Some(Retry(LastActive(c).value, Decimal(now), modelName, now))
      && Group(Find(r.allMessages, Decimal(now)).value) == Group(LastActive(c).value) + {Decimal(now)}
  {
    var ms := c.allMessages;
    var path := c.activePath;
    var b := |path| - 1;
    var o := LastActive(c).value;
    assert o == Find(ms, path[b]).value;
    var n := Retry(o, Decimal(now), modelName, now);
    ForkOnPath(ms, path, b, n);
  }

  lemma RegenerateAppend(c: Conversation, now: nat, modelName: string)
    requires WellFormed(c) && Decimal(now) !in Ids(c.allMessages) && !EndsInAnswer(c)
    ensures var r := Regenerated(c, now, modelName);
      && WellFormed(r)
      && r.activePath == c.activePath + [Decimal(now)]
      && Find(r.allMessages, Decimal(now)) == Some(Placeholder(Decimal(now), modelName, Tail(c.activePath), now))
  {
    var a := Placeholder(Decimal(now), modelName, Tail(c.activePath), now);
    ClockIdsDiffer(now);
    AppendOnPath(c.allMessages, c.activePath, a);
    FindAppended(c.allMessages, a);
  }

  // ---------------------------------------------------------------- resubmitMessage

  /** The new version of an edited message: same role, parent and attachment, new text. */
  function Edited(o: Message, id: Id, content: string, now: int): Message {
    o.(id := id, content := content, timestamp := Some(now), siblingIds := o.siblingIds + [o.id])
  }

  /**
   * `resubmitMessage`: an edited message becomes a new version in the
   * original's group, the path is cut at the original and continues with the
   * new version and a thinking answer below it, and a request starts. An
   * unknown message id changes nothing.
   */
  function ResubmitMessage(c: Conversation, now: nat, messageId: Id, newContent: string, modelName: string): (r: Turn)
    ensures messageId !in Ids(c.allMessages) ==> r == Turn(c, None)
    ensures messageId in Ids(c.allMessages) ==>
      && Preserved(c.allMessages, r.conv.allMessages)
      && r.request == Some(History(r.conv))
      && r.conv.activePath == SliceTo(c.activePath, IndexIn(c.activePath, messageId)) + [Decimal(now)] + [Decimal(now + 1)]
  {
    var ms := c.allMessages;
    var p := FirstIndex(ms, messageId);
    if p < 0 then Turn(c, None)
    else
      var u := Edited(ms[p], Decimal(now), newContent, now);
      var a := Placeholder(Decimal(now + 1), modelName, Some(u.id), now);
      ForkPreserved(ms, p, u);
      PreservedAppend(ms, Fork(ms, p, u), a);
      var c' := c.(allMessages := Fork(ms, p, u) + [a],
                   activePath := SliceTo(c.activePath, IndexIn(c.activePath, messageId)) + [u.id] + [a.id]);
      Request(c')
  }

  /**
   * Resubmitting a message on the active path, with fresh ids, keeps the
   * conversation sound and deletes nothing; the new version joins the
   * original's group, and the path runs to the original's parent, then the
   * new version, then its thinking answer.
   */
  lemma ResubmitSound(c: Conversation, now: nat, messageId: Id, newContent: string, modelName: string)
    requires WellFormed(c) && FreshClock(c, now)
    requires messageId in c.activePath
    ensures var r := ResubmitMessage(c, now, messageId, newContent, modelName).conv;
      var b := IndexIn(c.activePath, messageId);
      var o := Find(c.allMessages, messageId).value;
      && WellFormed(r)
      && r.activePath == c.activePath[..b] + [Decimal(now)] + [Decimal(now + 1)]
      && Find(r.allMessages, Decimal(now)) == Some(Edited(o, Decimal(now), newContent, now))
      && Group(Find(r.allMessages, Decimal(now)).value) == Group(o) + {Decimal(now)}
      && Find(r.allMessages, Decimal(now + 1)) == Some(Placeholder(Decimal(now + 1), modelName, Some(Decimal(now)), now))
  {
    ClockIdsDiffer(now);
    var ms := c.allMessages;
    var b := IndexIn(c.activePath, messageId);
    var o := Find(ms, messageId).value;
    var u := Edited(o, Decimal(now), newContent, now);
    var a := Placeholder(Decimal(now + 1), modelName, Some(u.id), now);
    ForkThenAnswer(ms, c.activePath, b, u, a);
  }

  /** A fork of a path entry followed by a reply below it: the edit-and-resend shape. */
  lemma ForkThenAnswer(ms: seq<Message>, path: seq<Id>, b: nat, u: Message, a: Message)
    requires ForestOk(ms) && PathChain(ms, path) && b < |path|
    requires u.id !in Ids(ms) && u.id != ""
    requires u.parentId == ParentOf(ms, path[b])
    requires u.siblingIds == Find(ms, path[b]).value.siblingIds + [path[b]]
    requires a.id !in Ids(ms) && a.id != "" && a.id != u.id && a.siblingIds == [] && a.parentId == Some(u.id)
    ensures var f := Fork(ms, FirstIndex(ms, path[b]), u);
      && ForestOk(f + [a])
      && PathChain(f + [a], path[..b] + [u.id] + [a.id])
      && Find(f + [a], u.id) == Some(u)
      && Find(f + [a], a.id) == Some(a)
      && Group(u) == Group(Find(ms, path[b]).value) + {u.id}
  {
    var p := FirstIndex(ms, path[b]);
    ForkOnPath(ms, path, b, u);
    var f := Fork(ms, p, u);
    ForkLinks(ms, p, u);
    assert a.id !in Ids(f);
    assert Tail(path[..b] + [u.id]) == Some(u.id);
    AppendOnPath(f, path[..b] + [u.id], a);
    FindAppended(f, a);
    FindAppend(f, [a], u.id);
  }

  // ---------------------------------------------------------------- switchMessageVersion

  /** Index of the last stored message with this id, or -1. */
  function LastPos(ms: seq<Message>, id: Id): (r: int)
    ensures -1 <= r < |ms|
    ensures r >= 0 ==> ms[r].id == id
    ensures forall i :: r < i < |ms| ==> ms[i].id != id
  {
    if ms == [] then -1
    else if ms[|ms| - 1].id == id then |ms| - 1
    else LastPos(ms[..|ms| - 1], id)
  }

  /** `allMessages.filter(m => m.parentId === id)`. */
  function Children(ms: seq<Message>, id: Id): (r: seq<Message>)
    ensures forall k :: 0 <= k < |r| ==> r[k] in ms && r[k].parentId == Some(id)
  {
    if ms == [] then []
    else if ms[0].parentId == Some(id) then [ms[0]] + Children(ms[1..], id)
    else Children(ms[1..], id)
  }

  /** Following children only moves forward in the stored order. */
  lemma ChildLater(ms: seq<Message>, id: Id, m: Message)
    requires ParentsBefore(ms) && m in ms && m.parentId == Some(id)
    ensures LastPos(ms, m.id) > LastPos(ms, id)
  {
    var k :| 0 <= k < |ms| && ms[k] == m;
    var q := LastPos(ms, id);
    if q >= 0 {
      assert ms[k].parentId == Some(ms[q].id);
    }
  }

  /** The child of `id` stored last: the one `switchMessageVersion` descends into. */
  function NewestChild(ms: seq<Message>, id: Id): (r: Message)
    requires Children(ms, id) != []
    ensures r in ms && r.parentId == Some(id)
  {
    Children(ms, id)[|Children(ms, id)| - 1]
  }

  /**
   * The path below `id` as the version switch rebuilds it: `id`, then again
   * and again the newest child of the entry before, until an entry has no
   * children; an empty id (a falsy one) ends it at once.
   */
  function Descent(ms: seq<Message>, id: Id): (r: seq<Id>)
    requires ParentsBefore(ms)
    ensures id == "" <==> r == []
    ensures r != [] ==> r[0] == id
    ensures r != [] ==> Children(ms, r[|r| - 1]) == [] || NewestChild(ms, r[|r| - 1]).id == ""
    ensures NewestSteps(ms, r)
    decreases |ms| - LastPos(ms, id)
  {
    if id == "" then []
    else if Children(ms, id) == [] then [id]
    else
      var m := NewestChild(ms, id);
      ChildLater(ms, id, m);
      var e := Descent(ms, m.id);
      if e == [] then [id]
      else
        NewestStepsCons(ms, id, e);
        [id] + e
  }

  /** Each entry of `r` is the newest child of the entry before it. */
  ghost predicate NewestSteps(ms: seq<Message>, r: seq<Id>) {
    forall j :: 0 < j < |r| ==> NewestAt(ms, r, j)
  }

  /** Entry `j` of `r` is the newest child of the entry before it. */
  ghost predicate NewestAt(ms: seq<Message>, r: seq<Id>, j: int) {
    0 < j < |r| && Children(ms, r[j - 1]) != [] && r[j] == NewestChild(ms, r[j - 1]).id
  }

  lemma NewestStepsCons(ms: seq<Message>, id: Id, e: seq<Id>)
    requires Children(ms, id) != [] && e != [] && e[0] == NewestChild(ms, id).id
    requires NewestSteps(ms, e)
    ensures NewestSteps(ms, [id] + e)
  {
    var r := [id] + e;
    forall j | 0 < j < |r| ensures NewestAt(ms, r, j) {
      if j == 1 {
        assert r[0] == id && r[1] == e[0];
      } else {
        assert NewestAt(ms, e, j - 1) && r[j - 1] == e[j - 2] && r[j] == e[j - 1];
      }
    }
  }

  /** The conversation `switchMessageVersion` produces; unchanged when `messageId` is not on the path. */
  function Switched(c: Conversation, messageId: Id, targetId: Id): Conversation
    requires ParentsBefore(c.allMessages)
  {
    var b := IndexIn(c.activePath, messageId);
    if b == -1 then c else c.(activePath := c.activePath[..b] + Descent(c.allMessages, targetId))
  }

  /**
   * `switchMessageVersion`: the path is cut just before `messageId` and rebuilt
   * downwards from `targetId`, taking the newest child at each level. The
   * stored messages are not touched. The walk ends because parents are stored
   * before their children.
   */
  method SwitchMessageVersion(c: Conversation, messageId: Id, targetId: Id) returns (r: Conversation)
    requires ParentsBefore(c.allMessages)
    ensures r == Switched(c, messageId, targetId)
    ensures r.allMessages == c.allMessages
  {
    var ms := c.allMessages;
    var b := IndexIn(c.activePath, messageId);
    if b == -1 {
      return c;
    }
    var fullPath := c.activePath[..b];
    var currentId := targetId;
    while currentId != ""
      invariant fullPath + Descent(ms, currentId) == c.activePath[..b] + Descent(ms, targetId)
      decreases if currentId == "" then 0 else |ms| - LastPos(ms, currentId) + 1
    {
      var children := Children(ms, currentId);
      if |children| > 0 {
        ChildLater(ms, currentId, children[|children| - 1]);
        DescentSteps(ms, currentId);
        PushFront(fullPath, currentId, Descent(ms, children[|children| - 1].id));
        fullPath := fullPath + [currentId];
        currentId := children[|children| - 1].id;
      } else {
        PushFront(fullPath, currentId, []);
        fullPath := fullPath + [currentId];
        currentId := "";
      }
    }
    r := c.(activePath := fullPath);
  }

  /** `Children` keeps every stored child. */
  lemma {:induction false} ChildrenComplete(ms: seq<Message>, id: Id, m: Message)
    requires m in ms && m.parentId == Some(id)
    ensures m in Children(ms, id)
  {
    if ms[0] != m {
      assert m in ms[1..];
      ChildrenComplete(ms[1..], id, m);
    }
  }

  /** Position of the last stored message whose parent is `id`, or -1. */
  function LastChildPos(ms: seq<Message>, id: Id): (r: int)
    ensures -1 <= r < |ms|
    ensures r >= 0 ==> ms[r].parentId == Some(id)
    ensures forall i :: r < i < |ms| ==> ms[i].parentId != Some(id)
  {
    if ms == [] then -1
    else
      var r := LastChildPos(ms[1..], id);
      assert forall i :: r + 1 < i < |ms| ==> ms[i] == ms[1..][i - 1];
      if r >= 0 then r + 1
      else if ms[0].parentId == Some(id) then 0
      else -1
  }

  /**
   * `id` has children exactly when some stored message has it as parent, and
   * the newest child is the last such message in the stored order.
   */
  lemma {:induction false} NewestIsLastStored(ms: seq<Message>, id: Id)
    ensures Children(ms, id) != [] <==> LastChildPos(ms, id) >= 0
    ensures Children(ms, id) != [] ==> NewestChild(ms, id) == ms[LastChildPos(ms, id)]
  {
    if ms != [] {
      NewestIsLastStored(ms[1..], id);
      var rest := Children(ms[1..], id);
      var r := LastChildPos(ms[1..], id);
      var here := ms[0].parentId == Some(id);
      assert Children(ms, id) == if here then [ms[0]] + rest else rest;
      if rest != [] {
        assert LastChildPos(ms, id) == r + 1 && ms[r + 1] == ms[1..][r];
        assert NewestChild(ms, id) == rest[|rest| - 1];
      } else {
        assert LastChildPos(ms, id) == if here then 0 else -1;
      }
    }
  }

  /**
   * On a sound forest the rebuilt path below a stored `id` starts at `id`,
   * steps each time to a child of the entry before, and ends at an entry
   * without children.
   */
  lemma DescentShape(ms: seq<Message>, id: Id)
    requires UniqueIds(ms) && IdsNonEmpty(ms) && ParentsBefore(ms) && id in Ids(ms)
    ensures var d := Descent(ms, id);
      && |d| >= 1 && d[0] == id
      && PathChainFrom(ms, d)
      && StepsDown(ms, d)
      && Children(ms, d[|d| - 1]) == []
  {
    var d := Descent(ms, id);
    assert id != "" by { var i :| 0 <= i < |ms| && Ids(ms)[i] == id; }
    forall k | 0 < k < |d| ensures d[k] in Ids(ms) && StepAt(ms, d, k) {
      assert NewestAt(ms, d, k);
      StoredChild(ms, NewestChild(ms, d[k - 1]));
    }
    NewestNotEmpty(ms, d[|d| - 1]);
  }

  lemma NewestNotEmpty(ms: seq<Message>, id: Id)
    requires IdsNonEmpty(ms)
    ensures Children(ms, id) == [] || NewestChild(ms, id).id != ""
  {
    if Children(ms, id) != [] {
      var k :| 0 <= k < |ms| && ms[k] == NewestChild(ms, id);
    }
  }

  /** A stored message is found under its own id, which is not empty. */
  lemma StoredChild(ms: seq<Message>, m: Message)
    requires UniqueIds(ms) && IdsNonEmpty(ms) && m in ms
    ensures m.id in Ids(ms) && m.id != "" && ParentOf(ms, m.id) == m.parentId
  {
    var k :| 0 <= k < |ms| && ms[k] == m;
    FindUnique(ms, k);
    assert Ids(ms)[k] == m.id;
  }

  /** The walk from `id` is its newest child's walk with `id` in front. */
  lemma DescentSteps(ms: seq<Message>, id: Id)
    requires ParentsBefore(ms) && id != "" && Children(ms, id) != []
    ensures Descent(ms, id) == [id] + Descent(ms, NewestChild(ms, id).id)
  {
  }

  lemma PushFront(a: seq<Id>, x: Id, d: seq<Id>)
    ensures (a + [x]) + d == a + ([x] + d)
  {
  }

  /** Storage positions along a chain. */
  function Positions(ms: seq<Message>, path: seq<Id>): (r: seq<int>)
    ensures |r| == |path| && forall k :: 0 <= k < |path| ==> r[k] == FirstIndex(ms, path[k])
  {
    if path == [] then [] else [FirstIndex(ms, path[0])] + Positions(ms, path[1..])
  }

  /** Positions in storage strictly increase along a chain, so no id appears on it twice. */
  lemma ChainNoDup(ms: seq<Message>, path: seq<Id>)
    requires ForestOk(ms) && PathChain(ms, path)
    ensures NoDup(path)
  {
    var pos := Positions(ms, path);
    forall j | 0 < j < |pos| ensures pos[j - 1] < pos[j] {
      var a := FirstIndex(ms, path[j - 1]);
      var b := FirstIndex(ms, path[j]);
      assert path[j - 1] in Ids(ms);
      assert StepAt(ms, path, j);
      assert ms[b].parentId == Some(ms[a].id);
    }
    forall i, j | 0 <= i < j < |path| ensures path[i] != path[j] {
      Increasing(pos, i, j);
    }
  }

  lemma {:induction false} Increasing(s: seq<int>, i: nat, j: nat)
    requires forall b :: 0 < b < |s| ==> s[b - 1] < s[b]
    requires i < j < |s|
    ensures s[i] < s[j]
    decreases j - i
  {
    if i + 1 < j {
      Increasing(s, i + 1, j);
    }
  }

  /** The versions offered for a message: itself and its siblings. */
  ghost predicate VersionOf(c: Conversation, messageId: Id, targetId: Id) {
    Find(c.allMessages, messageId).Some? && targetId in Group(Find(c.allMessages, messageId).value)
  }

  /**
   * Switching a message on the path to one of its versions keeps the
   * conversation sound, leaves the path up to the branch point alone, puts
   * the chosen version where the message was and runs down to a leaf.
   */
  lemma SwitchSound(c: Conversation, messageId: Id, targetId: Id)
    requires WellFormed(c) && messageId in c.activePath && VersionOf(c, messageId, targetId)
    ensures var r := Switched(c, messageId, targetId);
      var b := IndexIn(c.activePath, messageId);
      && WellFormed(r) && r.allMessages == c.allMessages
      && |r.activePath| > b && r.activePath[b] == targetId
      && (forall k :: 0 <= k < b ==> r.activePath[k] == c.activePath[k])
      && Children(c.allMessages, r.activePath[|r.activePath| - 1]) == []
  {
    SwitchKeepsChain(c, messageId, targetId);
    VersionParent(c.allMessages, messageId, targetId);
    SwitchShape(c, messageId, targetId);
  }

  lemma SwitchKeepsChain(c: Conversation, messageId: Id, targetId: Id)
    requires WellFormed(c) && messageId in c.activePath && VersionOf(c, messageId, targetId)
    ensures WellFormed(Switched(c, messageId, targetId))
  {
    var b := IndexIn(c.activePath, messageId);
    VersionParent(c.allMessages, messageId, targetId);
    DescentShape(c.allMessages, targetId);
    SwitchPath(c.allMessages, c.activePath, b, Descent(c.allMessages, targetId));
  }

  lemma SwitchShape(c: Conversation, messageId: Id, targetId: Id)
    requires UniqueIds(c.allMessages) && IdsNonEmpty(c.allMessages) && ParentsBefore(c.allMessages)
    requires messageId in c.activePath && targetId in Ids(c.allMessages)
    ensures var r := Switched(c, messageId, targetId);
      var b := IndexIn(c.activePath, messageId);
      && |r.activePath| > b && r.activePath[b] == targetId
      && (forall k :: 0 <= k < b ==> r.activePath[k] == c.activePath[k])
      && Children(c.allMessages, r.activePath[|r.activePath| - 1]) == []
  {
    var b := IndexIn(c.activePath, messageId);
    DescentShape(c.allMessages, targetId);
    Graft(c.activePath, b, Descent(c.allMessages, targetId));
  }

  /** Cutting a chain before entry `b` and continuing it with a walk down from a version of that entry. */
  lemma SwitchPath(ms: seq<Message>, path: seq<Id>, b: nat, d: seq<Id>)
    requires PathChain(ms, path) && b < |path|
    requires d != [] && PathChainFrom(ms, d) && StepsDown(ms, d) && ParentOf(ms, d[0]) == ParentOf(ms, path[b])
    ensures PathChain(ms, path[..b] + d)
  {
    ChainParent(ms, path, b);
    PrefixChain(ms, path, b);
    ConcatChain(ms, path[..b], d);
  }

  lemma Graft(path: seq<Id>, b: nat, d: seq<Id>)
    requires b < |path| && d != []
    ensures var q := path[..b] + d;
      && |q| > b && q[b] == d[0] && q[|q| - 1] == d[|d| - 1]
      && (forall k :: 0 <= k < b ==> q[k] == path[k])
  {
  }

  /** A version of a stored message is stored and has the same parent. */
  lemma VersionParent(ms: seq<Message>, messageId: Id, targetId: Id)
    requires ForestOk(ms) && Find(ms, messageId).Some? && targetId in Group(Find(ms, messageId).value)
    ensures targetId in Ids(ms) && ParentOf(ms, targetId) == ParentOf(ms, messageId)
  {
    var p := FirstIndex(ms, messageId);
    var t :| 0 <= t < |ms| && ms[t].id == targetId by {
      if targetId != messageId {
        assert targetId in ms[p].siblingIds;
        assert targetId in Ids(ms);
      } else {
        assert ms[p].id == targetId;
      }
    }
    GroupMember(ms, p, t);
    FindUnique(ms, t);
    assert Ids(ms)[t] == targetId;
  }

  /** The parent of a path entry is the entry before it, or none at the root. */
  lemma ChainParent(ms: seq<Message>, path: seq<Id>, b: nat)
    requires PathChain(ms, path) && b < |path|
    ensures ParentOf(ms, path[b]) == Tail(path[..b])
  {
    if b > 0 {
      assert StepAt(ms, path, b);
      assert path[..b][b - 1] == path[b - 1];
    }
  }

  lemma SwitchIdempotent(c: Conversation, messageId: Id, targetId: Id)
    requires WellFormed(c) && messageId in c.activePath && VersionOf(c, messageId, targetId)
    ensures Switched(Switched(c, messageId, targetId), targetId, targetId) == Switched(c, messageId, targetId)
  {
    var r := Switched(c, messageId, targetId);
    var b := IndexIn(c.activePath, messageId);
    SwitchSound(c, messageId, targetId);
    ChainNoDup(r.allMessages, r.activePath);
    var b' := IndexIn(r.activePath, targetId);
    assert b' == b;
    assert r.activePath[..b] == c.activePath[..b];
  }
}
