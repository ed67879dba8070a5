/**
 * The rules the chat screen applies to what the store holds: the version
 * arrows under a message that has siblings, the `**Error:**` convention for
 * failed answers, the "generating" flag, the guard in front of sending and
 * the choice of the model a message is sent with.
 */
module ChatInterface {
  import opened Base
  import opened Text
  import opened Sorting
  import opened Catalog
  import Forest
  import Store

  // ---------------------------------------------------------------- version arrows

  /** `[msg.id, ...msg.siblingIds].sort()`. */
  function Versions(id: string, siblingIds: seq<string>): (g: seq<string>)
    ensures multiset(g) == multiset([id] + siblingIds) && |g| == |siblingIds| + 1
    ensures Sorted(g, LexLe)
  {
    SortStrings([id] + siblingIds)
  }

  /** `siblings.indexOf(msg.id)`: the message's own place among its versions. */
  function Position(id: string, siblingIds: seq<string>): (i: nat)
    ensures i < |siblingIds| + 1 && Versions(id, siblingIds)[i] == id
    ensures id !in Versions(id, siblingIds)[..i]
  {
    var g := Versions(id, siblingIds);
    assert id in multiset([id] + siblingIds);
    assert id in multiset(g);
    IndexIn(g, id)
  }

  /** The place before `i` in a ring of `n` places: `(i - 1 + n) % n`. */
  function Pred(i: nat, n: nat): nat
    requires i < n
  {
    (i - 1 + n) % n
  }

  /** The place after `i` in a ring of `n` places: `(i + 1) % n`. */
  function Succ(i: nat, n: nat): nat
    requires i < n
  {
    (i + 1) % n
  }

  /** The left arrow: `siblings[(currentIndex - 1 + siblings.length) % siblings.length]`. */
  function PreviousVersion(id: string, siblingIds: seq<string>): string {
    var g := Versions(id, siblingIds);
    RingSteps(Position(id, siblingIds), |g|);
    g[Pred(Position(id, siblingIds), |g|)]
  }

  /** The right arrow: `siblings[(currentIndex + 1) % siblings.length]`. */
  function NextVersion(id: string, siblingIds: seq<string>): string {
    var g := Versions(id, siblingIds);
    RingSteps(Position(id, siblingIds), |g|);
    g[Succ(Position(id, siblingIds), |g|)]
  }

  /** In a ring of distinct versions, a value's first place is its only place. */
  lemma PlaceOf(g: seq<string>, k: nat)
    requires NoDup(g) && k < |g|
    ensures IndexIn(g, g[k]) == k
  {
    var j := IndexIn(g, g[k]);
    assert g[j] == g[k];
  }

  /** Below twice the modulus, `%` subtracts it at most once. */
  lemma Wrap(x: int, n: int)
    requires 0 <= x < 2 * n
    ensures x % n == if x < n then x else x - n
  {
    if x < n {
      assert x == 0 * n + x;
    } else {
      assert x == 1 * n + (x - n);
    }
  }

  /** One step ahead and one step back in a ring of `n` places cancel, and move when `n > 1`. */
  lemma RingSteps(i: nat, n: nat)
    requires i < n
    ensures Succ(i, n) < n && Pred(i, n) < n
    ensures Pred(Succ(i, n), n) == i && Succ(Pred(i, n), n) == i
    ensures n > 1 ==> Succ(i, n) != i && Pred(i, n) != i
  {
    var up, down := (i + 1) % n, (i - 1 + n) % n;
    Wrap(i + 1, n);
    Wrap(i - 1 + n, n);
    var back, fore := up - 1 + n, down + 1;
    Wrap(back, n);
    Wrap(fore, n);
    if i + 1 < n { assert back == i + n; } else { assert back == n - 1; }
    if i > 0 { assert fore == i; } else { assert fore == n; }
  }

  /** What the version control shows: both targets and the "k/n" label. */
  datatype Navigation = Navigation(previous: string, position: nat, count: nat, next: string)

  /**
   * The control rendered under a message: nothing without siblings; otherwise
   * the two arrow targets, which are versions of the same message, and a
   * label `k/n` with `1 <= k <= n` naming the message's place in sorted order.
   */
  function Navigate(id: string, siblingIds: seq<string>): (r: Option<Navigation>)
    ensures r.None? <==> siblingIds == []
    ensures r.Some? ==>
      && r.value.count == |siblingIds| + 1
      && 1 <= r.value.position <= r.value.count
      && Versions(id, siblingIds)[r.value.position - 1] == id
      && r.value.previous in [id] + siblingIds
      && r.value.next in [id] + siblingIds
  {
    if siblingIds == [] then None
    else
      ArrowsStay(id, siblingIds);
      Some(Navigation(PreviousVersion(id, siblingIds), Position(id, siblingIds) + 1, |siblingIds| + 1, NextVersion(id, siblingIds)))
  }

  /** Both arrows lead to a version of the same message. */
  lemma ArrowsStay(id: string, siblingIds: seq<string>)
    ensures PreviousVersion(id, siblingIds) in [id] + siblingIds
    ensures NextVersion(id, siblingIds) in [id] + siblingIds
  {
    var g := Versions(id, siblingIds);
    var p, n := PreviousVersion(id, siblingIds), NextVersion(id, siblingIds);
    assert p in g && n in g;
    assert p in multiset(g) && n in multiset(g);
  }

  /** With distinct versions, either arrow leaves the message that shows it. */
  lemma ArrowsMove(id: string, siblingIds: seq<string>)
    requires siblingIds != [] && NoDup([id] + siblingIds)
    ensures NextVersion(id, siblingIds) != id && PreviousVersion(id, siblingIds) != id
  {
    var g := Versions(id, siblingIds);
    NoDupPermuted([id] + siblingIds, g);
    var i := Position(id, siblingIds);
    RingSteps(i, |g|);
    assert g[Succ(i, |g|)] != g[i] && g[Pred(i, |g|)] != g[i];
  }

  /** Two duplicate-free lists of the same values are rearrangements of each other. */
  lemma SameValues(a: seq<string>, b: seq<string>)
    requires NoDup(a) && NoDup(b)
    requires forall x :: x in a <==> x in b
    ensures multiset(a) == multiset(b)
  {
    forall x ensures multiset(a)[x] == multiset(b)[x] {
      NoDupCount(a, x);
      NoDupCount(b, x);
      assert x in a <==> x in multiset(a);
      assert x in b <==> x in multiset(b);
    }
  }

  /**
   * Within one version group, the left arrow of the version the right arrow
   * led to comes back, and the other way round. Both messages sort the same
   * group, so they agree on the order.
   */
  lemma ArrowsInverse(id: string, siblingIds: seq<string>, t: string, tSiblingIds: seq<string>)
    requires NoDup([id] + siblingIds)
    requires multiset([t] + tSiblingIds) == multiset([id] + siblingIds)
    ensures t == NextVersion(id, siblingIds) ==> PreviousVersion(t, tSiblingIds) == id
    ensures t == PreviousVersion(id, siblingIds) ==> NextVersion(t, tSiblingIds) == id
  {
    var g := Versions(id, siblingIds);
    SortStringsCanonical([t] + tSiblingIds, [id] + siblingIds);
    assert Versions(t, tSiblingIds) == g;
    NoDupPermuted([id] + siblingIds, g);
    var n, i := |g|, Position(id, siblingIds);
    RingSteps(i, n);
    assert Position(t, tSiblingIds) == IndexIn(g, t);
    if t == NextVersion(id, siblingIds) {
      PlaceOf(g, Succ(i, n));
    }
    if t == PreviousVersion(id, siblingIds) {
      PlaceOf(g, Pred(i, n));
    }
  }

  /**
   * In a well-formed message forest the arrows of the version an arrow led to
   * bring the screen back: the target is a sibling, so it has the same group.
   */
  lemma StoredArrowsInverse(ms: seq<Forest.Message>, i: nat, j: nat)
    requires Forest.SiblingListsClean(ms) && Forest.SiblingGroups(ms)
    requires i < |ms| && j < |ms| && ms[i].siblingIds != []
    requires ms[j].id == NextVersion(ms[i].id, ms[i].siblingIds) || ms[j].id == PreviousVersion(ms[i].id, ms[i].siblingIds)
    ensures ms[j].id == NextVersion(ms[i].id, ms[i].siblingIds) ==> PreviousVersion(ms[j].id, ms[j].siblingIds) == ms[i].id
    ensures ms[j].id == PreviousVersion(ms[i].id, ms[i].siblingIds) ==> NextVersion(ms[j].id, ms[j].siblingIds) == ms[i].id
  {
    var a, b := [ms[i].id] + ms[i].siblingIds, [ms[j].id] + ms[j].siblingIds;
    GroupDistinct(ms[i]);
    GroupDistinct(ms[j]);
    ArrowsMove(ms[i].id, ms[i].siblingIds);
    var nav := Navigate(ms[i].id, ms[i].siblingIds);
    assert ms[j].id in ms[i].siblingIds;
    assert Forest.Group(ms[i]) == Forest.Group(ms[j]);
    GroupMembers(ms[i]);
    GroupMembers(ms[j]);
    SameValues(b, a);
    ArrowsInverse(ms[i].id, ms[i].siblingIds, ms[j].id, ms[j].siblingIds);
  }

  /** A clean sibling list together with the message's own id has no repeats. */
  lemma GroupDistinct(m: Forest.Message)
    requires NoDup(m.siblingIds) && m.id !in m.siblingIds
    ensures NoDup([m.id] + m.siblingIds)
  {
    var a := [m.id] + m.siblingIds;
    forall x, y | 0 <= x < y < |a| ensures a[x] != a[y] {
      assert a[y] == m.siblingIds[y - 1];
    }
  }

  /** The list the arrows sort holds exactly the message's version group. */
  lemma GroupMembers(m: Forest.Message)
    ensures forall x :: x in [m.id] + m.siblingIds <==> x in Forest.Group(m)
  {
  }

  // ---------------------------------------------------------------- `**Error:**`

  const ERROR_MARK: string := "**Error:**"

  /** `msg.content.startsWith('**Error:**')`: the message is drawn as an error. */
  predicate IsError(content: string) {
    StartsWith(content, ERROR_MARK)
  }

  /** The text handed to the markdown renderer: an error loses its mark and surrounding white space. */
  function Shown(content: string): (r: string)
    ensures !IsError(content) ==> r == content
    ensures IsError(content) ==> r == Trim(content[|ERROR_MARK|..])
  {
    if IsError(content) then
      ReplaceLeading(content, ERROR_MARK);
      Trim(ReplaceFirst(content, ERROR_MARK, ""))
    else content
  }

  /** A leading space does not change `trim()`. */
  lemma TrimSpace(s: string)
    ensures Trim(" " + s) == Trim(s)
  {
    assert (" " + s)[1..] == s;
  }

  /**
   * What the store writes for a failed request is drawn as an error whose
   * text is the error message, or the fixed apology when the message is empty.
   */
  lemma FailureShown(message: string)
    ensures IsError(Store.ErrorText(message))
    ensures Shown(Store.ErrorText(message)) == Trim(if message == "" then Store.UNEXPECTED else message)
  {
    var r := Store.ErrorText(message);
    var m := if message == "" then Store.UNEXPECTED else message;
    assert r == ERROR_MARK + " " + m;
    assert r[|ERROR_MARK|..] == " " + m;
    TrimSpace(m);
  }

  // ---------------------------------------------------------------- generating

  /** `streamingIds.includes(activeConversationId)`. */
  predicate IsGenerating(streamingIds: seq<string>, active: Option<string>) {
    active.Some? && active.value in streamingIds
  }

  /**
   * The screen shows a conversation as generating from the moment its request
   * is registered until the request's `finally` runs.
   */
  lemma GeneratingWhileRequested(s: Store.Snapshot, id: string)
    ensures IsGenerating(Store.Registered(s, id).streamingIds, Some(id))
    ensures !IsGenerating(Store.Unregistered(s, id).streamingIds, Some(id))
    ensures forall other :: other != id ==>
      (IsGenerating(Store.Unregistered(s, id).streamingIds, Some(other)) <==> IsGenerating(s.streamingIds, Some(other)))
  {
    assert id in s.streamingIds + [id];
  }

  // ---------------------------------------------------------------- sending

  const MAX_UPLOAD: nat := 10 * 1024 * 1024

  /** The picked file before it is read. */
  datatype Upload = Upload(name: string, mimeType: string, size: nat)

  /** The outcome of `handleSend`. */
  datatype SendOutcome =
    | Ignored
    | TooLarge
    | ReadFailed
    | Created(text: string, file: Option<Forest.Attachment>)  // `fileData` as `FileReader` produced it
    | Added(conversationId: string, text: string, file: Option<Forest.Attachment>)

  /**
   * `handleSend`: blank text with no file does nothing; a file over 10 MB is
   * refused; a file that cannot be read is refused; otherwise a new
   * conversation is created when there is no real active conversation and the
   * message is added to the active one otherwise. `read` is what the
   * `FileReader` delivered (`None` for its error), `virtual` is the
   * `isVirtualId` test.
   */
  function Send(text: string, upload: Option<Upload>, read: Option<Forest.Attachment>, active: Option<string>, virtual: bool): (r: SendOutcome)
    ensures r.Ignored? <==> Blank(text) && upload.None?
    ensures r.TooLarge? <==> !(Blank(text) && upload.None?) && upload.Some? && upload.value.size > MAX_UPLOAD
    ensures r.ReadFailed? <==> !(Blank(text) && upload.None?) && upload.Some? && upload.value.size <= MAX_UPLOAD && read.None?
    ensures (r.Created? || r.Added?) ==>
      && r.text == text
      && (upload.None? ==> r.file.None?)
      && (upload.Some? ==> r.file == read && read.Some?)
    ensures r.Added? <==> (r.Created? || r.Added?) && active.Some? && active.value != "" && !virtual
    ensures r.Added? ==> r.conversationId == active.value
  {
    TrimEmptyIffBlank(text);
    if Trim(text) == [] && upload.None? then Ignored
    else if upload.Some? && upload.value.size > MAX_UPLOAD then TooLarge
    else if upload.Some? && read.None? then ReadFailed
    else
      var file := if upload.Some? then read else None;
      if active.None? || active.value == "" || virtual then Created(text, file)
      else Added(active.value, text, file)
  }

  // ---------------------------------------------------------------- model choice

  /** An entry of the model menu. */
  datatype ModelEntry = ModelEntry(name: string, model: string)

  /** The menu the chat screen offers, in its order. */
  const MODELS: seq<ModelEntry> := [
    ModelEntry("Grok 4.1 Fast", "x-ai/grok-4.1-fast"),
    ModelEntry("Grok 4.1 Code", "x-ai/grok-code-fast-1"),
    ModelEntry("DeepSeek V3.2", "deepseek/deepseek-v3.2"),
    ModelEntry("Solar Pro", "upstage/solar-pro-3:free"),
    ModelEntry("GPT-5 Nano", "gpt-5-nano"),
    ModelEntry("GPT-4o Mini", "openai/gpt-4o-mini"),
    ModelEntry("GPT-4o", "openai/gpt-4o"),
    ModelEntry("Trinity Large", "arcee-ai/trinity-large-preview:free"),
    ModelEntry("DeepSeek Chimera", "tngtech/deepseek-r1t-chimera:free"),
    ModelEntry("NVIDIA Nemotron", "nvidia/nemotron-3-nano-30b-a3b:free"),
    ModelEntry("Claude 3.5 Sonnet", "anthropic/claude-3.5-sonnet"),
    ModelEntry("Llama 3.1 8B", "meta-llama/llama-3.1-8b-instruct")
  ]

  /** The model picked when nothing was saved. */
  const DEFAULT_MODEL: ModelEntry := MODELS[0]

  function ModelIds(ms: seq<ModelEntry>): (r: seq<string>)
    ensures |r| == |ms| && forall i :: 0 <= i < |ms| ==> r[i] == ms[i].model
  {
    if ms == [] then [] else [ms[0].model] + ModelIds(ms[1..])
  }

  /** `activeAssistants.find(a => a.id === activeConversation?.assistantId)`. */
  function ActiveAssistant(assistants: seq<Assistant>, assistantId: Option<string>): (r: Option<Assistant>)
    ensures r.Some? <==> assistantId.Some? && assistantId.value in AssistantIds(assistants)
    ensures r.Some? ==> r.value in assistants && r.value.id == assistantId.value
  {
    if assistantId.None? then None
    else
      var k := FindAssistant(assistants, assistantId.value);
      if k < 0 then None else Some(assistants[k])
  }

  /** `isModelLocked`: the assistant names a model of its own. */
  predicate Locked(assistant: Option<Assistant>) {
    assistant.Some? && assistant.value.model != "" && assistant.value.model != "user_default"
  }

  /**
   * `activeModel`: an assistant's own model when it names one that the menu
   * lists (the first such entry); otherwise the model the user selected.
   */
  function ActiveModel(menu: seq<ModelEntry>, assistant: Option<Assistant>, selected: ModelEntry): (r: ModelEntry)
    ensures Locked(assistant) && assistant.value.model in ModelIds(menu) ==>
      && r in menu && r.model == assistant.value.model
    ensures !(Locked(assistant) && assistant.value.model in ModelIds(menu)) ==> r == selected
  {
    if Locked(assistant) then
      var k := IndexIn(ModelIds(menu), assistant.value.model);
      if k >= 0 then menu[k] else selected
    else selected
  }
}
