/**
 * The store's two small catalogues besides the conversations: assistants
 * (the pinned "active" list and the user's own "custom" list) and projects
 * (a name, instructions, a mock file list and the ids of their chats).
 * Every edit here builds a new list with `map`, `filter` or a spread.
 */
module Catalog {
  import opened Base

  /** An assistant record; `updatedAt` is the ISO text a save stamps on it. */
  datatype Assistant = Assistant(
    id: string,
    name: string,
    description: string,
    instructions: string,
    model: string,
    actions: seq<string>,
    iconId: string,
    updatedAt: Option<string>)

  /** A mock project file: `{ id, name, size }`. */
  datatype ProjectFile = ProjectFile(id: string, name: string, size: string)

  datatype Project = Project(
    id: string,
    name: string,
    instructions: string,
    files: seq<ProjectFile>,
    chatIds: seq<string>,
    timestamp: Option<int>)

  // ---------------------------------------------------------------- assistants

  function AssistantIds(xs: seq<Assistant>): (r: seq<string>)
    ensures |r| == |xs| && forall i :: 0 <= i < |xs| ==> r[i] == xs[i].id
  {
    if xs == [] then [] else [xs[0].id] + AssistantIds(xs[1..])
  }

  /** `xs.findIndex(a => a.id === id)`. */
  function FindAssistant(xs: seq<Assistant>, id: string): (r: int)
    ensures -1 <= r < |xs|
    ensures r >= 0 ==> xs[r].id == id && forall i :: 0 <= i < r ==> xs[i].id != id
    ensures r == -1 <==> id !in AssistantIds(xs)
  {
    IndexIn(AssistantIds(xs), id)
  }

  /**
   * The upsert of `startAssistantChat` and of `addProjectAssistant` on the custom
   * list: the first entry with the same id is replaced, otherwise `a` is appended.
   */
  function Upsert(xs: seq<Assistant>, a: Assistant): (r: seq<Assistant>)
  {
    var k := FindAssistant(xs, a.id);
    if k >= 0 then xs[k := a] else xs + [a]
  }

  /** `addProjectAssistant` on the active list: replaced when present, otherwise left alone. */
  function Refresh(xs: seq<Assistant>, a: Assistant): (r: seq<Assistant>)
    ensures AssistantIds(r) == AssistantIds(xs)
    ensures a.id in AssistantIds(xs) ==> r == Upsert(xs, a)
    ensures a.id !in AssistantIds(xs) ==> r == xs
  {
    var k := FindAssistant(xs, a.id);
    if k >= 0 then xs[k := a] else xs
  }

  /** `xs.filter(a => a.id !== id)`. */
  function DropAssistant(xs: seq<Assistant>, id: string): (r: seq<Assistant>)
    ensures forall x :: x in r <==> x in xs && x.id != id
    ensures |r| <= |xs|
  {
    if xs == [] then []
    else if xs[0].id == id then DropAssistant(xs[1..], id)
    else [xs[0]] + DropAssistant(xs[1..], id)
  }

  /**
   * After an upsert `a` is stored, every entry with another id is kept and
   * nothing else is added.
   */
  lemma UpsertStores(xs: seq<Assistant>, a: Assistant)
    ensures a in Upsert(xs, a)
    ensures forall x :: x in xs && x.id != a.id ==> x in Upsert(xs, a)
    ensures forall x :: x in Upsert(xs, a) ==> x == a || x in xs
  {
    var r := Upsert(xs, a);
    var k := FindAssistant(xs, a.id);
    forall x | x in xs && x.id != a.id ensures x in r {
      var i :| 0 <= i < |xs| && xs[i] == x;
      assert r[i] == x;
    }
    var j := if k >= 0 then k else |xs|;
    assert r[j] == a;
  }

  /** The ids stored after an upsert are the old ones plus `a.id`. */
  lemma UpsertIds(xs: seq<Assistant>, a: Assistant)
    ensures forall id :: id in AssistantIds(Upsert(xs, a)) <==> id in AssistantIds(xs) || id == a.id
  {
    var r := Upsert(xs, a);
    var k := FindAssistant(xs, a.id);
    forall id | id in AssistantIds(xs) ensures id in AssistantIds(r) {
      var i :| 0 <= i < |xs| && AssistantIds(xs)[i] == id;
      if k >= 0 && i == k {
        assert AssistantIds(r)[i] == a.id == id;
      } else {
        assert AssistantIds(r)[i] == id;
      }
    }
    forall id | id in AssistantIds(r) ensures id in AssistantIds(xs) || id == a.id {
      var i :| 0 <= i < |r| && AssistantIds(r)[i] == id;
      if i < |xs| && r[i] == xs[i] {
        assert AssistantIds(xs)[i] == id;
      }
    }
    var j := if k >= 0 then k else |xs|;
    assert AssistantIds(r)[j] == a.id;
  }

  /** Where `a` lands in an upsert: at the first entry with its id, otherwise at the end. */
  function UpsertSlot(xs: seq<Assistant>, a: Assistant): (j: nat)
    ensures j <= |xs|
  {
    var k := FindAssistant(xs, a.id);
    if k >= 0 then k else |xs|
  }

  /** Before the slot the upsert keeps `xs`, and no entry there has `a`'s id. */
  lemma UpsertBeforeSlot(xs: seq<Assistant>, a: Assistant)
    ensures var r, j := Upsert(xs, a), UpsertSlot(xs, a);
      |r| == if j < |xs| then |xs| else |xs| + 1
    ensures var r, j := Upsert(xs, a), UpsertSlot(xs, a);
      j < |r| && r[j] == a && forall i :: 0 <= i < |r| && i != j ==> r[i] == xs[i]
    ensures forall i :: 0 <= i < UpsertSlot(xs, a) ==> xs[i].id != a.id
  {
    var k := FindAssistant(xs, a.id);
    if k < 0 {
      forall i | 0 <= i < |xs| ensures xs[i].id != a.id {
        assert AssistantIds(xs)[i] == xs[i].id;
      }
    }
  }

  /** An upsert into a list with distinct ids keeps them distinct. */
  lemma UpsertDistinct(xs: seq<Assistant>, a: Assistant)
    requires NoDup(AssistantIds(xs))
    ensures NoDup(AssistantIds(Upsert(xs, a)))
  {
    var r, j := Upsert(xs, a), UpsertSlot(xs, a);
    UpsertBeforeSlot(xs, a);
    var ids, ids' := AssistantIds(xs), AssistantIds(r);
    forall i, i' | 0 <= i < i' < |r| ensures ids'[i] != ids'[i'] {
      if i == j || i' == j {
        var o := if i == j then i' else i;
        assert ids'[o] == ids[o] != a.id by {
          if j < o { assert ids[j] == a.id; }
        }
      } else {
        assert ids[i] != ids[i'];
      }
    }
  }

  /** Saving the same assistant twice stores it once. */
  lemma UpsertIdempotent(xs: seq<Assistant>, a: Assistant)
    ensures Upsert(Upsert(xs, a), a) == Upsert(xs, a)
  {
    var r, j := Upsert(xs, a), UpsertSlot(xs, a);
    UpsertBeforeSlot(xs, a);
    var k' := FindAssistant(r, a.id);
    assert AssistantIds(r)[j] == a.id;
    assert 0 <= k' <= j;
    forall i | 0 <= i < j ensures r[i].id != a.id {
      assert r[i] == xs[i];
    }
  }

  // ---------------------------------------------------------------- projects

  /** `addChatToProject`: the chat id is appended to the named project unless it is already listed. */
  function WithChat(ps: seq<Project>, projectId: string, chatId: string): (r: seq<Project>)
    ensures |r| == |ps|
    ensures forall i :: 0 <= i < |ps| ==>
      && r[i].(chatIds := ps[i].chatIds) == ps[i]
      && (ps[i].id == projectId ==> chatId in r[i].chatIds && ps[i].chatIds <= r[i].chatIds)
      && (ps[i].id != projectId ==> r[i] == ps[i])
      && (NoDup(ps[i].chatIds) ==> NoDup(r[i].chatIds))
  {
    seq(|ps|, i requires 0 <= i < |ps| =>
      if ps[i].id == projectId && chatId !in ps[i].chatIds then ps[i].(chatIds := ps[i].chatIds + [chatId]) else ps[i])
  }

  /** `removeChatFromProject`: every copy of the chat id leaves the named project's list. */
  function WithoutChat(ps: seq<Project>, projectId: string, chatId: string): (r: seq<Project>)
    ensures |r| == |ps|
    ensures forall i :: 0 <= i < |ps| ==>
      && r[i].(chatIds := ps[i].chatIds) == ps[i]
      && (ps[i].id == projectId ==> forall x :: x in r[i].chatIds <==> x in ps[i].chatIds && x != chatId)
      && (ps[i].id != projectId ==> r[i] == ps[i])
  {
    seq(|ps|, i requires 0 <= i < |ps| =>
      if ps[i].id == projectId then ps[i].(chatIds := Without(ps[i].chatIds, chatId)) else ps[i])
  }

  /** Adding a chat that is already listed changes nothing. */
  lemma WithChatIdempotent(ps: seq<Project>, projectId: string, chatId: string)
    ensures WithChat(WithChat(ps, projectId, chatId), projectId, chatId) == WithChat(ps, projectId, chatId)
  {
  }

  /** Removing a chat after adding it is the same as only removing it: the chat is gone, nothing else moved. */
  lemma WithoutUndoesWith(ps: seq<Project>, projectId: string, chatId: string)
    ensures WithoutChat(WithChat(ps, projectId, chatId), projectId, chatId) == WithoutChat(ps, projectId, chatId)
    ensures forall i :: 0 <= i < |ps| ==> chatId !in WithoutChat(ps, projectId, chatId)[i].chatIds || ps[i].id != projectId
  {
    var r := WithoutChat(WithChat(ps, projectId, chatId), projectId, chatId);
    forall i | 0 <= i < |ps| ensures r[i] == WithoutChat(ps, projectId, chatId)[i] {
      if ps[i].id == projectId {
        WithoutAppended(ps[i].chatIds, chatId);
      }
    }
  }

  /** The fields `updateProject` is called with: `{ name }`, `{ instructions }` or `{ files }`. */
  datatype ProjectUpdate = Rename(name: string) | Instruct(instructions: string) | Refile(files: seq<ProjectFile>)

  function Patched(p: Project, u: ProjectUpdate): Project {
    match u
    case Rename(n) => p.(name := n)
    case Instruct(t) => p.(instructions := t)
    case Refile(fs) => p.(files := fs)
  }

  /** `updateProject`: `{ ...p, ...updates }` on every project with that id. */
  function UpdateProject(ps: seq<Project>, id: string, u: ProjectUpdate): (r: seq<Project>)
    ensures |r| == |ps|
    ensures forall i :: 0 <= i < |ps| ==>
      && r[i].id == ps[i].id && r[i].chatIds == ps[i].chatIds
      && (ps[i].id != id ==> r[i] == ps[i])
      && (ps[i].id == id && u.Rename? ==> r[i] == ps[i].(name := u.name))
      && (ps[i].id == id && u.Instruct? ==> r[i] == ps[i].(instructions := u.instructions))
      && (ps[i].id == id && u.Refile? ==> r[i] == ps[i].(files := u.files))
  {
    seq(|ps|, i requires 0 <= i < |ps| => if ps[i].id == id then Patched(ps[i], u) else ps[i])
  }

  /** `deleteProject`'s filter. */
  function DropProject(ps: seq<Project>, id: string): (r: seq<Project>)
    ensures forall p :: p in r <==> p in ps && p.id != id
    ensures |r| <= |ps|
  {
    if ps == [] then []
    else if ps[0].id == id then DropProject(ps[1..], id)
    else [ps[0]] + DropProject(ps[1..], id)
  }
}
