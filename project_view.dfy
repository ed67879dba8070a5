/**
 * The project page: the list of the project's chats, renaming, the mock file
 * list, and the two ways of starting a chat from the page.
 */
module ProjectView {
  import opened Base
  import opened Text
  import opened Sorting
  import opened Forest
  import opened Catalog
  import Conversations
  import ChatInterface
  import Sidebar
  import Store

  // ---------------------------------------------------------------- the project's chats

  /** `conversations.find(c => c.id === id)`. */
  function FindConversation(cs: seq<Conversation>, id: string): (r: Option<Conversation>)
    ensures r.Some? ==> r.value in cs && r.value.id == id
    ensures r.None? <==> forall c :: c in cs ==> c.id != id
  {
    if cs == [] then None
    else if cs[0].id == id then Some(cs[0])
    else FindConversation(cs[1..], id)
  }

  /** `chatIds.map(id => conversations.find(...)).filter(Boolean)`. */
  function Resolve(chatIds: seq<string>, cs: seq<Conversation>): (r: seq<Conversation>)
    ensures |r| <= |chatIds|
    ensures forall c :: c in r <==> c in cs && c.id in chatIds && FindConversation(cs, c.id) == Some(c)
  {
    if chatIds == [] then []
    else
      var rest := Resolve(chatIds[1..], cs);
      assert forall x :: x in chatIds <==> x == chatIds[0] || x in chatIds[1..];
      match FindConversation(cs, chatIds[0])
      case Some(c) => [c] + rest
      case None => rest
  }

  /** `new Date(b.updatedAt) - new Date(a.updatedAt) <= 0`, a `NaN` difference counting as `0`. */
  predicate NewerFirst(a: Conversation, b: Conversation) {
    match (a.updatedAt, b.updatedAt)
    case (Some(x), Some(y)) => y - x <= 0
    case _ => true
  }

  /** `projectChats`. */
  function ProjectChats(p: Project, cs: seq<Conversation>): (r: seq<Conversation>)
    ensures forall c :: c in r <==> c in cs && c.id in p.chatIds && FindConversation(cs, c.id) == Some(c)
  {
    var u := Resolve(p.chatIds, cs);
    var r := SortBy(u, NewerFirst);
    assert forall c :: c in r <==> c in multiset(u);
    r
  }

  /** The order `NewerFirst` amounts to when every chat has an `updatedAt`. */
  predicate NewerRanked(a: Conversation, b: Conversation) {
    a.updatedAt.GetOr(0) >= b.updatedAt.GetOr(0)
  }

  /** With every `updatedAt` set, the project's chats are listed newest first. */
  lemma ProjectChatsNewestFirst(p: Project, cs: seq<Conversation>)
    requires forall c :: c in cs ==> c.updatedAt.Some?
    ensures var r := ProjectChats(p, cs);
      forall i, j :: 0 <= i < j < |r| ==> r[i].updatedAt.value >= r[j].updatedAt.value
  {
    var u := Resolve(p.chatIds, cs);
    SortByAgrees(u, NewerFirst, NewerRanked);
    assert TotalPreorder(NewerRanked);
    SortBySorted(u, NewerRanked);
    var r := ProjectChats(p, cs);
    forall i, j | 0 <= i < j < |r| ensures r[i].updatedAt.value >= r[j].updatedAt.value {
      assert NewerRanked(r[i], r[j]);
      assert r[i] in cs && r[j] in cs;
    }
  }

  /**
   * Conversations made by the store carry no `updatedAt`, every difference
   * is `NaN`, and the list keeps the order of the project's `chatIds`.
   */
  lemma ProjectChatsUndated(p: Project, cs: seq<Conversation>)
    requires forall c :: c in cs ==> c.updatedAt.None?
    ensures ProjectChats(p, cs) == Resolve(p.chatIds, cs)
  {
    SortByKeepsTies(Resolve(p.chatIds, cs), NewerFirst);
  }

  // ---------------------------------------------------------------- renaming

  /**
   * `handleRename`: the update sent to the store, if any. The name is
   * replaced by the trimmed input when that is not empty and the input is not
   * the current name; editing ends either way.
   */
  function Rename(p: Project, input: string): (r: Option<ProjectUpdate>)
    ensures r.Some? <==> !Blank(input) && input != p.name
    ensures r.Some? ==> r.value == Catalog.Rename(Trim(input))
  {
    TrimEmptyIffBlank(input);
    if Trim(input) != [] && input != p.name then Some(Catalog.Rename(Trim(input))) else None
  }

  /**
   * A rename stores a name that is not blank and neither starts nor ends with
   * white space; the project keeps its id, chats and files.
   */
  lemma RenameStored(ps: seq<Project>, i: nat, input: string)
    requires i < |ps| && Rename(ps[i], input).Some?
    ensures var r := UpdateProject(ps, ps[i].id, Rename(ps[i], input).value);
      && r[i] == ps[i].(name := Trim(input))
      && r[i].name != [] && !IsJsSpace(r[i].name[0]) && !IsJsSpace(r[i].name[|r[i].name| - 1])
  {
    TrimSpec(input);
    TrimEmptyIffBlank(input);
  }

  /** Submitting the stored name again sends nothing. */
  lemma RenameSettles(p: Project, input: string)
    requires Rename(p, input).Some?
    ensures Rename(p.(name := Trim(input)), Trim(input)).None?
  {
  }

  // ---------------------------------------------------------------- mock files

  /** `handleAddFile`: a file named by the prompt is appended with id `Date.now().toString()`; a cancelled or empty prompt adds nothing. */
  function AddFile(files: seq<ProjectFile>, fileName: Option<string>, now: nat): (r: Option<seq<ProjectFile>>)
    ensures r.Some? <==> fileName.Some? && fileName.value != ""
    ensures r.Some? ==> r.value == files + [ProjectFile(Decimal(now), fileName.value, "0 KB")]
  {
    if fileName.Some? && fileName.value != "" then Some(files + [ProjectFile(Decimal(now), fileName.value, "0 KB")]) else None
  }

  /** `removeFile`: `files.filter(f => f.id !== fileId)`. */
  function RemoveFile(files: seq<ProjectFile>, fileId: string): (r: seq<ProjectFile>)
    ensures forall f :: f in r <==> f in files && f.id != fileId
    ensures |r| <= |files|
  {
    if files == [] then []
    else if files[0].id == fileId then RemoveFile(files[1..], fileId)
    else [files[0]] + RemoveFile(files[1..], fileId)
  }

  /** Removing works piece by piece, so the files that stay keep their order. */
  lemma {:induction false} RemoveFileSplits(a: seq<ProjectFile>, b: seq<ProjectFile>, fileId: string)
    ensures RemoveFile(a + b, fileId) == RemoveFile(a, fileId) + RemoveFile(b, fileId)
  {
    if a == [] {
      assert a + b == b;
    } else {
      assert (a + b)[1..] == a[1..] + b;
      RemoveFileSplits(a[1..], b, fileId);
    }
  }

  /** Removing an id that no file has changes nothing. */
  lemma {:induction false} RemoveAbsentFile(files: seq<ProjectFile>, fileId: string)
    requires forall f :: f in files ==> f.id != fileId
    ensures RemoveFile(files, fileId) == files
  {
    if files != [] {
      assert files[0] in files;
      assert forall f :: f in files[1..] ==> f in files;
      RemoveAbsentFile(files[1..], fileId);
    }
  }

  /** Removing a file just added under a fresh id gives back the old list. */
  lemma RemoveUndoesAdd(files: seq<ProjectFile>, fileName: string, now: nat)
    requires fileName != ""
    requires forall f :: f in files ==> f.id != Decimal(now)
    ensures RemoveFile(AddFile(files, Some(fileName), now).value, Decimal(now)) == files
  {
    var f := ProjectFile(Decimal(now), fileName, "0 KB");
    RemoveFileSplits(files, [f], Decimal(now));
    RemoveAbsentFile(files, Decimal(now));
    assert RemoveFile([f], Decimal(now)) == [];
  }

  // ---------------------------------------------------------------- starting a chat

  /** `handleCreateProjectChat`'s guard: a blank input or a submit in progress does nothing. */
  predicate CreatesChat(input: string, submitting: bool) {
    !Blank(input) && !submitting
  }

  /** `handleCreateProjectChat` proceeds exactly when `newChatInput.trim()` is truthy and nothing is being submitted. */
  lemma CreatesChatGuard(input: string, submitting: bool)
    ensures CreatesChat(input, submitting) <==> Trim(input) != [] && !submitting
  {
    TrimEmptyIffBlank(input);
  }

  /** `handleSend` on the project page: the chat-screen guard, and always a new conversation. */
  function ProjectSend(text: string, upload: Option<ChatInterface.Upload>, read: Option<Attachment>): (r: ChatInterface.SendOutcome)
    ensures !r.Added?
    ensures r.Ignored? <==> Blank(text) && upload.None?
    ensures r.TooLarge? <==> !(Blank(text) && upload.None?) && upload.Some? && upload.value.size > ChatInterface.MAX_UPLOAD
    ensures r.Created? ==> r.text == text && (upload.Some? ==> r.file == read)
  {
    ChatInterface.Send(text, upload, read, None, false)
  }

  /**
   * `handleSend` against the store: when the guard lets the message through,
   * the new conversation is created and filed under the project, and the
   * request `createConversation` starts for it is handed back; otherwise the
   * store is left alone and nothing is requested.
   */
  method SendToProject(store: Store.ChatStore, projectId: string, now: nat, text: string,
                       upload: Option<ChatInterface.Upload>, read: Option<Attachment>, model: ChatInterface.ModelEntry)
    returns (outcome: ChatInterface.SendOutcome, request: Option<seq<Message>>)
    modifies store
    ensures outcome == ProjectSend(text, upload, read)
    ensures !outcome.Created? ==> store.State() == old(store.State()) && request.None?
    ensures outcome.Created? ==>
      var t := Conversations.CreateConversation(now, text, model.model, model.name, None, outcome.file);
      && request == t.request
      && store.State() == old(store.State()).(
        conversations := [t.conv] + old(store.State()).conversations,
        activeConversationId := Some(Decimal(now)),
        projects := WithChat(old(store.State()).projects, projectId, Decimal(now)))
  {
    outcome := ProjectSend(text, upload, read);
    request := None;
    if outcome.Created? {
      var newId;
      newId, request := store.CreateConversation(now, text, model.model, model.name, None, outcome.file);
      store.AddChatToProject(projectId, newId);
    }
  }

  /** A chat filed under a project leaves the sidebar's loose chat list. */
  lemma FiledChatLeavesSidebar(cs: seq<Conversation>, ps: seq<Project>, i: nat, chatId: string)
    requires i < |ps|
    ensures forall c :: c in Sidebar.TodayChats(cs, WithChat(ps, ps[i].id, chatId)) ==> c.id != chatId
  {
    var r := WithChat(ps, ps[i].id, chatId);
    assert chatId in r[i].chatIds;
  }
}
