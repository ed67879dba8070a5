/**
 * The message forest of one conversation: every version of every message is
 * kept in the flat list `allMessages`, linked by `parentId` and by symmetric
 * `siblingIds`; `activePath` names the messages on screen, and the visible
 * transcript (`messages`) is `activePath` looked up in `allMessages`.
 */
module Forest {
  import opened Base
  import opened Text

  type Id = string

  datatype Role = User | Assistant | OtherRole(name: string)

  /** One search result attached to an answer. */
  datatype Source = Source(url: string, title: string, content: string)

  /** A file the user attached: `{ name, type, content }`. */
  datatype Attachment = Attachment(name: string, mime: string, content: string)

  /**
   * A message record. `reasoning` is `""` where the record has no such field;
   * `sources`, `attachment`, `parentId`, `modelName` and `timestamp` are `None`
   * where the record has `null` or no such field; a timestamp is in milliseconds.
   */
  datatype Message = Message(
    id: Id,
    role: Role,
    content: string,
    reasoning: string,
    sources: Option<seq<Source>>,
    attachment: Option<Attachment>,
    parentId: Option<Id>,
    siblingIds: seq<Id>,
    isThinking: bool,
    modelName: Option<string>,
    timestamp: Option<int>)

  /** A conversation record; its `messages` field is always `Visible(this)` and is not stored. */
  datatype Conversation = Conversation(
    id: string,
    title: string,
    allMessages: seq<Message>,
    activePath: seq<Id>,
    assistantId: Option<string>,
    modelId: Option<string>,
    modelName: Option<string>,
    isPinned: bool,
    updatedAt: Option<int>)

  /** `allMessages.map(m => m.id)`. */
  function Ids(ms: seq<Message>): (r: seq<Id>)
    ensures |r| == |ms|
    ensures forall i :: 0 <= i < |ms| ==> r[i] == ms[i].id
  {
    if ms == [] then [] else [ms[0].id] + Ids(ms[1..])
  }

  /** Index of the first message with this id, or -1. */
  function FirstIndex(ms: seq<Message>, id: Id): (r: int)
    ensures -1 <= r < |ms|
    ensures r >= 0 ==> ms[r].id == id && forall i :: 0 <= i < r ==> ms[i].id != id
    ensures r == -1 <==> id !in Ids(ms)
  {
    if ms == [] then -1
    else if ms[0].id == id then 0
    else
      var r := FirstIndex(ms[1..], id);
      assert Ids(ms) == [ms[0].id] + Ids(ms[1..]);
      if r == -1 then -1
      else
        assert forall i :: 1 <= i <= r + 1 ==> ms[1..][i - 1] == ms[i];
        r + 1
  }

  /** An index holding `id` with no earlier `id` is the first index. */
  lemma FirstIndexIs(ms: seq<Message>, id: Id, k: int)
    requires 0 <= k < |ms| && ms[k].id == id
    requires forall i :: 0 <= i < k ==> ms[i].id != id
    ensures FirstIndex(ms, id) == k
  {
    assert Ids(ms)[k] == id;
  }

  /** `allMessages.find(m => m.id === id)`. */
  function Find(ms: seq<Message>, id: Id): (r: Option<Message>)
    ensures r.None? <==> id !in Ids(ms)
    ensures r.Some? ==> r.value.id == id && r.value in ms
    ensures r.Some? ==> exists k :: 0 <= k < |ms| && ms[k] == r.value && forall i :: 0 <= i < k ==> ms[i].id != id
  {
    var i := FirstIndex(ms, id);
    if i < 0 then None else Some(ms[i])
  }

  /** `path.map(id => allMessages.find(m => m.id === id)).filter(Boolean)`. */
  function Visible(ms: seq<Message>, path: seq<Id>): (r: seq<Message>)
    ensures |r| <= |path|
    ensures forall m :: m in r ==> m in ms && m.id in path
  {
    if path == [] then []
    else
      match Find(ms, path[0])
      case Some(m) => [m] + Visible(ms, path[1..])
      case None => Visible(ms, path[1..])
  }

  /** The visible list of a path is read entry by entry: the lists of two parts are joined in order. */
  lemma {:induction false} VisibleAppend(ms: seq<Message>, p: seq<Id>, q: seq<Id>)
    ensures Visible(ms, p + q) == Visible(ms, p) + Visible(ms, q)
    decreases |p|
  {
    if p != [] {
      assert (p + q)[0] == p[0];
      assert (p + q)[1..] == p[1..] + q;
      VisibleAppend(ms, p[1..], q);
      var rest := Visible(ms, p[1..] + q);
      assert rest == Visible(ms, p[1..]) + Visible(ms, q);
      match Find(ms, p[0]) {
        case Some(m) =>
          assert Visible(ms, p + q) == [m] + rest;
          assert Visible(ms, p) == [m] + Visible(ms, p[1..]);
        case None =>
          assert Visible(ms, p + q) == rest;
          assert Visible(ms, p) == Visible(ms, p[1..]);
      }
    } else {
      assert p + q == q;
    }
  }

  /** One path entry shows the message its id finds, or nothing when no message has it. */
  lemma VisibleEntry(ms: seq<Message>, id: Id)
    ensures Visible(ms, [id]) == if id in Ids(ms) then [Find(ms, id).value] else []
  {
    assert [id][1..] == [];
  }

  /** The `messages` field of a conversation. */
  function Messages(c: Conversation): seq<Message> {
    Visible(c.allMessages, c.activePath)
  }

  /** `messages.filter(m => !m.isThinking)`: the history sent with a request. */
  function NotThinking(ms: seq<Message>): (r: seq<Message>)
    ensures forall m :: m in r <==> m in ms && !m.isThinking
  {
    if ms == [] then []
    else if ms[0].isThinking then NotThinking(ms[1..])
    else [ms[0]] + NotThinking(ms[1..])
  }

  /** The history keeps the transcript's order: the histories of two parts are joined in order. */
  lemma {:induction false} NotThinkingAppend(a: seq<Message>, b: seq<Message>)
    ensures NotThinking(a + b) == NotThinking(a) + NotThinking(b)
    decreases |a|
  {
    if a != [] {
      assert (a + b)[0] == a[0];
      assert (a + b)[1..] == a[1..] + b;
      NotThinkingAppend(a[1..], b);
      if a[0].isThinking {
        assert NotThinking(a + b) == NotThinking(a[1..] + b);
      } else {
        assert NotThinking(a + b) == [a[0]] + NotThinking(a[1..] + b);
        assert NotThinking(a) == [a[0]] + NotThinking(a[1..]);
      }
    } else {
      assert a + b == b;
    }
  }

  /** `activePath[activePath.length - 1]`, `undefined` for an empty path. */
  function Tail(path: seq<Id>): Option<Id> {
    if path == [] then None else Some(path[|path| - 1])
  }

  // ---------------------------------------------------------------- invariants

  ghost predicate UniqueIds(ms: seq<Message>) {
    forall i, j :: 0 <= i < j < |ms| ==> ms[i].id != ms[j].id
  }

  /** Every id is a non-empty string, so every id is truthy. */
  ghost predicate IdsNonEmpty(ms: seq<Message>) {
    forall i :: 0 <= i < |ms| ==> ms[i].id != ""
  }

  /** A parent is stored before its children, so following children always moves forward. */
  ghost predicate ParentsBefore(ms: seq<Message>) {
    forall i, j :: 0 <= i < |ms| && 0 <= j < |ms| && ms[j].parentId == Some(ms[i].id) ==> i < j
  }

  /** Every `parentId` and every sibling id names a stored message. */
  ghost predicate LinksResolve(ms: seq<Message>) {
    forall i :: 0 <= i < |ms| ==>
      && (ms[i].parentId.Some? ==> ms[i].parentId.value in Ids(ms))
      && (forall x :: x in ms[i].siblingIds ==> x in Ids(ms))
  }

  /** The ids of a message's version group: itself and its siblings. */
  function Group(m: Message): set<Id> {
    {m.id} + set x | x in m.siblingIds
  }

  /** Sibling lists hold no duplicates and never the message itself. */
  ghost predicate SiblingListsClean(ms: seq<Message>) {
    forall i :: 0 <= i < |ms| ==> NoDup(ms[i].siblingIds) && ms[i].id !in ms[i].siblingIds
  }

  /** Siblings share one version group and one parent. */
  ghost predicate SiblingGroups(ms: seq<Message>) {
    forall i, j :: 0 <= i < |ms| && 0 <= j < |ms| && ms[j].id in ms[i].siblingIds ==>
      Group(ms[i]) == Group(ms[j]) && ms[i].parentId == ms[j].parentId
  }

  /** The parent of the message stored under `id`, when there is one. */
  function ParentOf(ms: seq<Message>, id: Id): Option<Id> {
    match Find(ms, id)
    case Some(m) => m.parentId
    case None => None
  }

  /** Entry `j` of `s` is a child of the entry before it. */
  ghost predicate StepAt(ms: seq<Message>, s: seq<Id>, j: int) {
    0 < j < |s| && ParentOf(ms, s[j]) == Some(s[j - 1])
  }

  /** Each entry of `s` is a child of the entry before it. */
  ghost predicate StepsDown(ms: seq<Message>, s: seq<Id>) {
    forall j :: 0 < j < |s| ==> StepAt(ms, s, j)
  }

  /** The active path is a walk down from a root: each entry exists and is a child of the one before. */
  ghost predicate PathChain(ms: seq<Message>, path: seq<Id>) {
    && PathChainFrom(ms, path)
    && (path != [] ==> ParentOf(ms, path[0]) == None)
    && StepsDown(ms, path)
  }

  ghost predicate ForestOk(ms: seq<Message>) {
    UniqueIds(ms) && IdsNonEmpty(ms) && ParentsBefore(ms) && LinksResolve(ms) && SiblingListsClean(ms) && SiblingGroups(ms)
  }

  ghost predicate WellFormed(c: Conversation) {
    ForestOk(c.allMessages) && PathChain(c.allMessages, c.activePath)
  }

  // ---------------------------------------------------------------- basic facts

  lemma FindUnique(ms: seq<Message>, i: int)
    requires UniqueIds(ms) && 0 <= i < |ms|
    ensures Find(ms, ms[i].id) == Some(ms[i])
  {
    assert Ids(ms)[i] == ms[i].id;
    var r := FirstIndex(ms, ms[i].id);
    assert r >= 0 && ms[r].id == ms[i].id;
  }

  lemma IdsAppend(ms: seq<Message>, extra: seq<Message>)
    ensures Ids(ms + extra) == Ids(ms) + Ids(extra)
  {
  }

  lemma FirstIndexAppend(ms: seq<Message>, extra: seq<Message>, id: Id)
    ensures FirstIndex(ms + extra, id) ==
      if id in Ids(ms) then FirstIndex(ms, id)
      else if id in Ids(extra) then |ms| + FirstIndex(extra, id)
      else -1
  {
    var whole := ms + extra;
    if id in Ids(ms) {
      var k := FirstIndex(ms, id);
      FirstIndexIs(whole, id, k);
    } else if id in Ids(extra) {
      var k := FirstIndex(extra, id);
      forall i | 0 <= i < |ms| ensures whole[i].id != id {
        assert Ids(ms)[i] == whole[i].id;
      }
      FirstIndexIs(whole, id, |ms| + k);
    } else {
      forall i | 0 <= i < |whole| ensures Ids(whole)[i] != id {
        if i < |ms| {
          assert Ids(ms)[i] == whole[i].id;
        } else {
          assert Ids(extra)[i - |ms|] == whole[i].id;
        }
      }
    }
  }

  /** Appending messages with new ids does not change what old ids find. */
  lemma FindAppend(ms: seq<Message>, extra: seq<Message>, id: Id)
    ensures Find(ms + extra, id) == if id in Ids(ms) then Find(ms, id) else Find(extra, id)
  {
    FirstIndexAppend(ms, extra, id);
  }

  /** A message stored under a new id is what that id finds. */
  lemma FindAppended(ms: seq<Message>, m: Message)
    requires m.id !in Ids(ms)
    ensures Find(ms + [m], m.id) == Some(m)
    ensures Ids(ms + [m]) == Ids(ms) + [m.id]
  {
    IdsAppend(ms, [m]);
    assert Ids([m]) == [m.id];
    FindAppend(ms, [m], m.id);
    assert Find([m], m.id) == Some(m);
  }

  /** With unique ids, a lookup of a path entry on a chain always succeeds. */
  lemma VisibleOfChain(ms: seq<Message>, path: seq<Id>)
    requires PathChain(ms, path)
    ensures |Visible(ms, path)| == |path|
    ensures forall k :: 0 <= k < |path| ==> Some(Visible(ms, path)[k]) == Find(ms, path[k])
  {
    VisibleFrom(ms, path);
  }

  /** Every entry names a stored message. */
  ghost predicate PathChainFrom(ms: seq<Message>, path: seq<Id>) {
    forall k :: 0 <= k < |path| ==> path[k] in Ids(ms)
  }

  lemma {:induction false} VisibleFrom(ms: seq<Message>, path: seq<Id>)
    requires PathChainFrom(ms, path)
    ensures |Visible(ms, path)| == |path|
    ensures forall k :: 0 <= k < |path| ==> Some(Visible(ms, path)[k]) == Find(ms, path[k])
  {
    if path != [] {
      assert PathChainFrom(ms, path[1..]) by {
        forall k | 0 <= k < |path| - 1 ensures path[1..][k] in Ids(ms) {
          assert path[1..][k] == path[k + 1];
        }
      }
      VisibleFrom(ms, path[1..]);
      assert path[0] in Ids(ms);
      forall k | 0 <= k < |path| ensures Some(Visible(ms, path)[k]) == Find(ms, path[k]) {
        if k > 0 { assert path[1..][k - 1] == path[k]; }
      }
    }
  }

  // ---------------------------------------------------------------- growth

  /**
   * Nothing is ever deleted: every earlier message is still stored at its
   * position, unchanged except that its sibling list may have grown at the end.
   */
  ghost predicate Preserved(before: seq<Message>, after: seq<Message>) {
    |before| <= |after| &&
    forall i :: 0 <= i < |before| ==>
      after[i].(siblingIds := before[i].siblingIds) == before[i] && before[i].siblingIds <= after[i].siblingIds
  }

  /**
   * The sibling update of `regenerateResponse` and `resubmitMessage`: `newId` is
   * appended to the list of `o` and of every message whose id `o` lists.
   */
  function LinkSibling(ms: seq<Message>, o: Message, newId: Id): (r: seq<Message>)
    ensures |r| == |ms|
  {
    seq(|ms|, i requires 0 <= i < |ms| => Linked(ms[i], o, newId))
  }

  function Linked(m: Message, o: Message, newId: Id): (r: Message)
    ensures r.id == m.id && r.parentId == m.parentId
  {
    if m.id == o.id || m.id in o.siblingIds then m.(siblingIds := m.siblingIds + [newId]) else m
  }

  /** Two lists that agree on every id and every parent link. */
  ghost predicate SameLinks(a: seq<Message>, b: seq<Message>) {
    |a| == |b| && forall i :: 0 <= i < |a| ==> a[i].id == b[i].id && a[i].parentId == b[i].parentId
  }

  lemma {:induction false} SameLinksIndex(a: seq<Message>, b: seq<Message>, id: Id)
    requires SameLinks(a, b)
    ensures Ids(a) == Ids(b)
    ensures FirstIndex(a, id) == FirstIndex(b, id)
  {
    if a != [] {
      SameLinksIndex(a[1..], b[1..], id);
    }
  }

  /** Parent lookups and therefore path chains only see ids and parent links. */
  lemma SameLinksChain(a: seq<Message>, b: seq<Message>, path: seq<Id>)
    requires SameLinks(a, b)
    ensures PathChain(a, path) <==> PathChain(b, path)
  {
    forall id ensures ParentOf(a, id) == ParentOf(b, id) {
      SameLinksIndex(a, b, id);
    }
    SameLinksIndex(a, b, "");
    forall j | 0 < j < |path| ensures StepAt(a, path, j) <==> StepAt(b, path, j) {
      assert ParentOf(a, path[j]) == ParentOf(b, path[j]);
    }
  }

  /** A chain whose entries keep their parents in a bigger forest is a chain there too. */
  lemma ChainTransfer(ms: seq<Message>, ms': seq<Message>, path: seq<Id>)
    requires PathChain(ms, path)
    requires forall k :: 0 <= k < |path| ==> path[k] in Ids(ms') && ParentOf(ms', path[k]) == ParentOf(ms, path[k])
    ensures PathChain(ms', path)
  {
    forall j | 0 < j < |path| ensures StepAt(ms', path, j) {
      assert StepAt(ms, path, j);
    }
  }

  lemma AppendChain(ms: seq<Message>, extra: seq<Message>, path: seq<Id>)
    requires PathChain(ms, path)
    ensures PathChain(ms + extra, path)
  {
    IdsAppend(ms, extra);
    forall k | 0 <= k < |path| ensures path[k] in Ids(ms + extra) && ParentOf(ms + extra, path[k]) == ParentOf(ms, path[k]) {
      FindAppend(ms, extra, path[k]);
    }
    ChainTransfer(ms, ms + extra, path);
  }

  /** A chain may be extended by an entry whose parent is the old tail. */
  lemma ExtendChain(ms: seq<Message>, path: seq<Id>, x: Id)
    requires PathChain(ms, path)
    requires x in Ids(ms) && ParentOf(ms, x) == Tail(path)
    ensures PathChain(ms, path + [x])
  {
    var q := path + [x];
    forall k | 0 <= k < |q| ensures q[k] in Ids(ms) {
      if k < |path| { assert q[k] == path[k]; }
    }
    forall j | 0 < j < |q| ensures StepAt(ms, q, j) {
      if j < |path| {
        assert StepAt(ms, path, j) && q[j] == path[j] && q[j - 1] == path[j - 1];
      } else {
        assert q[j] == x && q[j - 1] == path[|path| - 1];
      }
    }
  }

  /** A chain followed by a walk down from a child of its tail is a chain. */
  lemma ConcatChain(ms: seq<Message>, path: seq<Id>, d: seq<Id>)
    requires PathChain(ms, path)
    requires PathChainFrom(ms, d) && StepsDown(ms, d)
    requires d != [] ==> ParentOf(ms, d[0]) == Tail(path)
    ensures PathChain(ms, path + d)
  {
    ConcatFrom(ms, path, d);
    ConcatSteps(ms, path, d);
    if path == [] && d != [] {
      assert (path + d)[0] == d[0];
    } else if path != [] {
      assert (path + d)[0] == path[0];
    }
  }

  lemma ConcatFrom(ms: seq<Message>, path: seq<Id>, d: seq<Id>)
    requires PathChainFrom(ms, path) && PathChainFrom(ms, d)
    ensures PathChainFrom(ms, path + d)
  {
    var q := path + d;
    forall k | 0 <= k < |q| ensures q[k] in Ids(ms) {
      if k < |path| { assert q[k] == path[k]; } else { assert q[k] == d[k - |path|]; }
    }
  }

  lemma ConcatSteps(ms: seq<Message>, path: seq<Id>, d: seq<Id>)
    requires StepsDown(ms, path) && StepsDown(ms, d)
    requires d != [] ==> ParentOf(ms, d[0]) == Tail(path)
    ensures StepsDown(ms, path + d)
  {
    var q := path + d;
    forall j | 0 < j < |q| ensures StepAt(ms, q, j) {
      if j < |path| {
        assert StepAt(ms, path, j) && q[j] == path[j] && q[j - 1] == path[j - 1];
      } else if j == |path| {
        assert q[j] == d[0] && q[j - 1] == path[|path| - 1];
      } else {
        assert StepAt(ms, d, j - |path|) && q[j] == d[j - |path|] && q[j - 1] == d[j - 1 - |path|];
      }
    }
  }

  lemma PrefixChain(ms: seq<Message>, path: seq<Id>, n: nat)
    requires PathChain(ms, path) && n <= |path|
    ensures PathChain(ms, path[..n])
  {
    var q := path[..n];
    forall k | 0 <= k < |q| ensures q[k] in Ids(ms) {
      assert q[k] == path[k];
    }
    forall j | 0 < j < |q| ensures StepAt(ms, q, j) {
      assert StepAt(ms, path, j) && q[j] == path[j] && q[j - 1] == path[j - 1];
    }
    if n > 0 { assert q[0] == path[0]; }
  }

  /**
   * Storing a new leaf — a fresh id with no siblings whose parent, if any, is
   * stored — keeps the forest sound and deletes nothing.
   */
  lemma AppendLeaf(ms: seq<Message>, m: Message)
    requires ForestOk(ms)
    requires m.id !in Ids(ms) && m.id != ""
    requires m.siblingIds == []
    requires m.parentId.Some? ==> m.parentId.value in Ids(ms)
    ensures ForestOk(ms + [m])
    ensures Preserved(ms, ms + [m])
  {
    AppendLeafUnique(ms, m);
    AppendLeafParents(ms, m);
    AppendLeafLinks(ms, m);
    AppendLeafGroups(ms, m);
  }

  lemma AppendLeafUnique(ms: seq<Message>, m: Message)
    requires UniqueIds(ms) && IdsNonEmpty(ms) && m.id !in Ids(ms) && m.id != ""
    ensures UniqueIds(ms + [m]) && IdsNonEmpty(ms + [m])
    ensures Preserved(ms, ms + [m])
  {
    var r := ms + [m];
    forall i, j | 0 <= i < j < |r| ensures r[i].id != r[j].id {
      if j == |ms| {
        assert r[i] == ms[i] && Ids(ms)[i] == ms[i].id;
      } else {
        assert r[i] == ms[i] && r[j] == ms[j];
      }
    }
    forall i | 0 <= i < |r| ensures r[i].id != "" {
      if i < |ms| { assert r[i] == ms[i]; }
    }
  }

  lemma AppendLeafLinks(ms: seq<Message>, m: Message)
    requires LinksResolve(ms) && SiblingListsClean(ms)
    requires m.siblingIds == []
    requires m.parentId.Some? ==> m.parentId.value in Ids(ms)
    ensures LinksResolve(ms + [m]) && SiblingListsClean(ms + [m])
  {
    var r := ms + [m];
    IdsAppend(ms, [m]);
    forall i | 0 <= i < |r|
      ensures (r[i].parentId.Some? ==> r[i].parentId.value in Ids(r))
      ensures forall x :: x in r[i].siblingIds ==> x in Ids(r)
    {
      if i < |ms| { assert r[i] == ms[i]; }
    }
    forall i | 0 <= i < |r| ensures NoDup(r[i].siblingIds) && r[i].id !in r[i].siblingIds {
      if i < |ms| { assert r[i] == ms[i]; }
    }
  }

  lemma AppendLeafGroups(ms: seq<Message>, m: Message)
    requires SiblingGroups(ms) && UniqueIds(ms) && m.id !in Ids(ms) && m.siblingIds == []
    requires LinksResolve(ms)
    ensures SiblingGroups(ms + [m])
  {
    var r := ms + [m];
    forall i, j | 0 <= i < |r| && 0 <= j < |r| && r[j].id in r[i].siblingIds
      ensures Group(r[i]) == Group(r[j]) && r[i].parentId == r[j].parentId
    {
      assert i < |ms|;
      assert r[i] == ms[i];
      assert j < |ms|;
      assert r[j] == ms[j];
    }
  }

  lemma AppendLeafParents(ms: seq<Message>, m: Message)
    requires ParentsBefore(ms) && LinksResolve(ms)
    requires m.id !in Ids(ms)
    requires m.parentId.Some? ==> m.parentId.value in Ids(ms)
    ensures ParentsBefore(ms + [m])
  {
    var r := ms + [m];
    forall i, j | 0 <= i < |r| && 0 <= j < |r| && r[j].parentId == Some(r[i].id) ensures i < j {
      if i < |ms| && j < |ms| {
        assert ms[j].parentId == Some(ms[i].id);
      }
    }
  }

  /** Appending to the later list keeps it a preserving extension. */
  lemma PreservedAppend(before: seq<Message>, after: seq<Message>, m: Message)
    requires Preserved(before, after)
    ensures Preserved(before, after + [m])
  {
    forall i | 0 <= i < |before| ensures (after + [m])[i] == after[i] {
    }
  }

  /** Members of a version group share its group and its parent. */
  lemma GroupMember(ms: seq<Message>, p: nat, i: nat)
    requires UniqueIds(ms) && SiblingGroups(ms)
    requires p < |ms| && i < |ms| && ms[i].id in Group(ms[p])
    ensures Group(ms[i]) == Group(ms[p]) && ms[i].parentId == ms[p].parentId
  {
    if ms[i].id != ms[p].id {
      assert ms[i].id in ms[p].siblingIds;
    }
  }

  /** The stored forest after a fork of `ms[p]` into the new version `n`. */
  function Fork(ms: seq<Message>, p: nat, n: Message): seq<Message>
    requires p < |ms|
  {
    LinkSibling(ms, ms[p], n.id) + [n]
  }

  /** The shape a new version must have: a fresh id, the parent of the original, and the original's group as siblings. */
  ghost predicate ForkShape(ms: seq<Message>, p: nat, n: Message) {
    p < |ms| && n.id !in Ids(ms) && n.id != ""
    && n.parentId == ms[p].parentId && n.siblingIds == ms[p].siblingIds + [ms[p].id]
  }

  lemma LinkSiblingLinks(ms: seq<Message>, o: Message, newId: Id)
    ensures SameLinks(LinkSibling(ms, o, newId), ms)
    ensures Ids(LinkSibling(ms, o, newId)) == Ids(ms)
  {
    assert SameLinks(LinkSibling(ms, o, newId), ms);
    SameLinksIndex(LinkSibling(ms, o, newId), ms, "");
  }

  lemma ForkLinks(ms: seq<Message>, p: nat, n: Message)
    requires p < |ms|
    ensures SameLinks(LinkSibling(ms, ms[p], n.id), ms)
    ensures Ids(Fork(ms, p, n)) == Ids(ms) + [n.id]
  {
    var L := LinkSibling(ms, ms[p], n.id);
    LinkSiblingLinks(ms, ms[p], n.id);
    IdsAppend(L, [n]);
    assert Ids([n]) == [n.id];
  }

  /** What a fork does to one older message. */
  lemma ForkEntry(ms: seq<Message>, p: nat, n: Message, k: nat)
    requires UniqueIds(ms) && SiblingGroups(ms) && ForkShape(ms, p, n) && k < |ms|
    ensures Fork(ms, p, n)[k] == Linked(ms[k], ms[p], n.id)
    ensures ms[k].id in Group(ms[p]) ==>
      Group(Fork(ms, p, n)[k]) == Group(ms[p]) + {n.id} && ms[k].parentId == ms[p].parentId
      && Fork(ms, p, n)[k].siblingIds == ms[k].siblingIds + [n.id]
    ensures ms[k].id !in Group(ms[p]) ==> Fork(ms, p, n)[k] == ms[k]
  {
    if ms[k].id in Group(ms[p]) {
      GroupMember(ms, p, k);
    }
  }

  /** The fork's new version has the original's group plus itself, and its id is new to that group. */
  lemma ForkNewGroup(ms: seq<Message>, p: nat, n: Message)
    requires LinksResolve(ms) && ForkShape(ms, p, n)
    ensures Group(n) == Group(ms[p]) + {n.id}
    ensures n.id !in Group(ms[p])
  {
    assert forall x :: x in ms[p].siblingIds ==> x in Ids(ms);
    assert ms[p].id == Ids(ms)[p];
  }

  lemma ForkPair(ms: seq<Message>, p: nat, n: Message, i: nat, j: nat)
    requires UniqueIds(ms) && SiblingGroups(ms) && LinksResolve(ms) && ForkShape(ms, p, n)
    requires i < |ms| + 1 && j < |ms| + 1
    requires Fork(ms, p, n)[j].id in Fork(ms, p, n)[i].siblingIds
    ensures Group(Fork(ms, p, n)[i]) == Group(Fork(ms, p, n)[j])
    ensures Fork(ms, p, n)[i].parentId == Fork(ms, p, n)[j].parentId
  {
    var G := Group(ms[p]);
    var r := Fork(ms, p, n);
    ForkNewGroup(ms, p, n);
    assert r[|ms|] == n;
    if i == |ms| {
      if j < |ms| {
        ForkEntry(ms, p, n, j);
        assert ms[j].id in G;
      }
    } else if j == |ms| {
      ForkEntry(ms, p, n, i);
    } else {
      ForkEntry(ms, p, n, i);
      ForkEntry(ms, p, n, j);
      if ms[i].id in G {
        if ms[j].id != n.id {
          assert ms[j].id in ms[i].siblingIds;
          GroupMember(ms, p, i);
        }
      } else {
        assert ms[j].id in ms[i].siblingIds;
        if ms[j].id in G {
          GroupMember(ms, p, j);
        }
      }
    }
  }

  lemma ForkClean(ms: seq<Message>, p: nat, n: Message, i: nat)
    requires UniqueIds(ms) && SiblingGroups(ms) && LinksResolve(ms) && SiblingListsClean(ms) && ForkShape(ms, p, n)
    requires i < |ms| + 1
    ensures NoDup(Fork(ms, p, n)[i].siblingIds) && Fork(ms, p, n)[i].id !in Fork(ms, p, n)[i].siblingIds
  {
    if i < |ms| {
      ForkEntry(ms, p, n, i);
      if ms[i].id in Group(ms[p]) {
        assert n.id !in ms[i].siblingIds;
        assert n.id != ms[i].id by { assert ms[i].id == Ids(ms)[i]; }
      }
    } else {
      assert Fork(ms, p, n)[i] == n;
      ForkNewGroup(ms, p, n);
      assert ms[p].id !in ms[p].siblingIds;
    }
  }

  lemma ForkGroups(ms: seq<Message>, p: nat, n: Message)
    requires ForestOk(ms) && ForkShape(ms, p, n)
    ensures SiblingGroups(Fork(ms, p, n)) && SiblingListsClean(Fork(ms, p, n))
  {
    var r := Fork(ms, p, n);
    forall i, j | 0 <= i < |r| && 0 <= j < |r| && r[j].id in r[i].siblingIds
      ensures Group(r[i]) == Group(r[j]) && r[i].parentId == r[j].parentId
    {
      ForkPair(ms, p, n, i, j);
    }
    forall i | 0 <= i < |r| ensures NoDup(r[i].siblingIds) && r[i].id !in r[i].siblingIds {
      ForkClean(ms, p, n, i);
    }
  }

  lemma ForkParents(ms: seq<Message>, p: nat, n: Message)
    requires UniqueIds(ms) && ParentsBefore(ms) && LinksResolve(ms) && ForkShape(ms, p, n)
    ensures ParentsBefore(Fork(ms, p, n))
  {
    var r := Fork(ms, p, n);
    ForkLinks(ms, p, n);
    forall i, j | 0 <= i < |r| && 0 <= j < |r| && r[j].parentId == Some(r[i].id) ensures i < j {
      if i < |ms| && j < |ms| {
        assert ms[j].parentId == Some(ms[i].id);
      }
    }
  }

  lemma ForkResolve(ms: seq<Message>, p: nat, n: Message)
    requires LinksResolve(ms) && ForkShape(ms, p, n)
    ensures LinksResolve(Fork(ms, p, n))
  {
    var r := Fork(ms, p, n);
    ForkLinks(ms, p, n);
    forall i | 0 <= i < |r|
      ensures r[i].parentId.Some? ==> r[i].parentId.value in Ids(r)
      ensures forall x :: x in r[i].siblingIds ==> x in Ids(r)
    {
      if i == |ms| {
        assert r[i] == n;
        assert forall x :: x in n.siblingIds ==> x in Ids(ms);
      } else {
        assert r[i] == Linked(ms[i], ms[p], n.id);
      }
    }
  }

  lemma ForkPreserved(ms: seq<Message>, p: nat, n: Message)
    requires p < |ms|
    ensures Preserved(ms, Fork(ms, p, n))
  {
    var r := Fork(ms, p, n);
    assert forall i :: 0 <= i < |ms| ==> r[i] == Linked(ms[i], ms[p], n.id);
  }

  /** Forking a stored message into a new version keeps the forest sound and deletes nothing. */
  lemma ForkOk(ms: seq<Message>, p: nat, n: Message)
    requires ForestOk(ms) && ForkShape(ms, p, n)
    ensures ForestOk(Fork(ms, p, n))
    ensures Preserved(ms, Fork(ms, p, n))
    ensures Group(n) == Group(ms[p]) + {n.id}
  {
    ForkLinks(ms, p, n);
    ForkGroups(ms, p, n);
    ForkNewGroup(ms, p, n);
    ForkParents(ms, p, n);
    ForkResolve(ms, p, n);
    ForkPreserved(ms, p, n);
    var r := Fork(ms, p, n);
    assert UniqueIds(r) by {
      forall i, j | 0 <= i < j < |r| ensures r[i].id != r[j].id {
        assert Ids(r)[i] == r[i].id && Ids(r)[j] == r[j].id;
      }
    }
    assert IdsNonEmpty(r) by {
      forall i | 0 <= i < |r| ensures r[i].id != "" {
        assert Ids(r)[i] == r[i].id;
      }
    }
  }

  /**
   * A fork leaves the lookup of every older id unchanged except for its
   * sibling list, which gains the new id exactly when the message is in the
   * forked message's version group.
   */
  lemma ForkFind(ms: seq<Message>, p: nat, n: Message, id: Id)
    requires ForkShape(ms, p, n) && id in Ids(ms)
    ensures Find(Fork(ms, p, n), id).Some?
    ensures ParentOf(Fork(ms, p, n), id) == ParentOf(ms, id)
    ensures var m := Find(ms, id).value;
      Find(Fork(ms, p, n), id).value
        == m.(siblingIds := if id == ms[p].id || id in ms[p].siblingIds then m.siblingIds + [n.id] else m.siblingIds)
  {
    var L := LinkSibling(ms, ms[p], n.id);
    ForkLinks(ms, p, n);
    SameLinksIndex(L, ms, id);
    FindAppend(L, [n], id);
    var k := FirstIndex(ms, id);
    assert Ids(L)[k] == Ids(ms)[k];
    forall i | 0 <= i < k ensures L[i].id != id {
      assert Ids(L)[i] == Ids(ms)[i];
    }
    FirstIndexIs(L, id, k);
  }
}
