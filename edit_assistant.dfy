/**
 * The assistant editor: the form it starts from, toggling actions, the
 * model menu, and what Save, Delete and Start Chat do to the store.
 */
module EditAssistant {
  import opened Base
  import opened Text
  import opened Catalog
  import ChatInterface
  import Store
  import Forest

  /** The fields the form edits. */
  datatype Form = Form(name: string, description: string, instructions: string, model: string, actions: seq<string>)

  const USER_DEFAULT := "user_default"
  const NEW_ID := "new"

  /** The form's initial state: `initialAssistant?.field || default`, an empty model reading as the user default. */
  function InitialForm(initial: Option<Assistant>): (f: Form)
    ensures initial.None? ==> f == Form("", "", "", USER_DEFAULT, [])
    ensures initial.Some? ==> f.name == initial.value.name && f.actions == initial.value.actions
    ensures initial.Some? ==> f.description == initial.value.description && f.instructions == initial.value.instructions
    ensures initial.Some? ==> f.model == if initial.value.model == "" then USER_DEFAULT else initial.value.model
    ensures f.model != ""
  {
    match initial
    case None => Form("", "", "", USER_DEFAULT, [])
    case Some(a) => Form(a.name, a.description, a.instructions, if a.model == "" then USER_DEFAULT else a.model, a.actions)
  }

  // ---------------------------------------------------------------- actions

  /** `toggleAction`: a selected action is removed, an unselected one appended. */
  function ToggleAction(actions: seq<string>, id: string): (r: seq<string>)
    ensures id in r <==> id !in actions
    ensures forall x :: x != id ==> (x in r <==> x in actions)
    ensures id !in actions ==> r == actions + [id]
  {
    if id in actions then Without(actions, id) else actions + [id]
  }

  /**
   * Toggling the same action twice restores whether it is selected; an action
   * that was not selected leaves the list exactly as it was.
   */
  lemma ToggleActionTwice(actions: seq<string>, id: string)
    ensures var twice := ToggleAction(ToggleAction(actions, id), id);
      && (id in twice <==> id in actions)
      && (id !in actions ==> twice == actions)
  {
    if id !in actions {
      WithoutAppended(actions, id);
      WithoutAbsent(actions, id);
    }
  }

  // ---------------------------------------------------------------- the model menu

  /**
   * The editor's own menu: the user default first, then ten of the chat
   * screen's models in its order, without Grok 4.1 Code and Llama 3.1 8B.
   */
  const EDIT_MODELS: seq<ChatInterface.ModelEntry> := [
    ChatInterface.ModelEntry("User Default", "user_default"),
    ChatInterface.ModelEntry("Grok 4.1 Fast", "x-ai/grok-4.1-fast"),
    ChatInterface.ModelEntry("DeepSeek V3.2", "deepseek/deepseek-v3.2"),
    ChatInterface.ModelEntry("Solar Pro", "upstage/solar-pro-3:free"),
    ChatInterface.ModelEntry("GPT-5 Nano", "gpt-5-nano"),
    ChatInterface.ModelEntry("GPT-4o Mini", "openai/gpt-4o-mini"),
    ChatInterface.ModelEntry("GPT-4o", "openai/gpt-4o"),
    ChatInterface.ModelEntry("Trinity Large", "arcee-ai/trinity-large-preview:free"),
    ChatInterface.ModelEntry("DeepSeek Chimera", "tngtech/deepseek-r1t-chimera:free"),
    ChatInterface.ModelEntry("NVIDIA Nemotron", "nvidia/nemotron-3-nano-30b-a3b:free"),
    ChatInterface.ModelEntry("Claude 3.5 Sonnet", "anthropic/claude-3.5-sonnet")
  ]

  /** `models.find(m => m.model === model) || models[0]`: the entry shown on the menu button. */
  function SelectedModel(menu: seq<ChatInterface.ModelEntry>, model: string): (r: ChatInterface.ModelEntry)
    requires menu != []
    ensures r in menu
    ensures model in ChatInterface.ModelIds(menu) ==> r.model == model
    ensures model !in ChatInterface.ModelIds(menu) ==> r == menu[0]
  {
    var k := IndexIn(ChatInterface.ModelIds(menu), model);
    if k >= 0 then menu[k] else menu[0]
  }

  /** An assistant whose model the menu does not list is shown as "User Default". */
  lemma UnknownModelShowsDefault(model: string)
    requires model !in ChatInterface.ModelIds(EDIT_MODELS)
    ensures SelectedModel(EDIT_MODELS, model).model == USER_DEFAULT
  {
  }

  // ---------------------------------------------------------------- save, delete, start

  /**
   * `handleSave`: nothing when the name is blank; otherwise the initial
   * assistant with the form's fields, an `updatedAt` of `iso`, and the id
   * `Date.now().toString()` in place of `new`. The name is stored as typed.
   */
  function Saved(initial: Assistant, form: Form, now: nat, iso: string): (r: Option<Assistant>)
    ensures r.Some? <==> !Blank(form.name)
    ensures r.Some? ==> r.value.id == (if initial.id == NEW_ID then Decimal(now) else initial.id)
    ensures r.Some? ==> r.value.iconId == initial.iconId && r.value.updatedAt == Some(iso)
    ensures r.Some? ==> Form(r.value.name, r.value.description, r.value.instructions, r.value.model, r.value.actions) == form
  {
    TrimEmptyIffBlank(form.name);
    if Trim(form.name) == [] then None
    else Some(initial.(id := if initial.id == NEW_ID then Decimal(now) else initial.id,
                       name := form.name, description := form.description, instructions := form.instructions,
                       model := form.model, actions := form.actions, updatedAt := Some(iso)))
  }

  /** A saved assistant never keeps the placeholder id: a number prints as digits. */
  lemma SavedIdNotNew(initial: Assistant, form: Form, now: nat, iso: string)
    requires Saved(initial, form, now, iso).Some?
    ensures Saved(initial, form, now, iso).value.id != NEW_ID
  {
    if initial.id == NEW_ID {
      DecimalNotNew(now);
    }
  }

  lemma {:induction false} DecimalNotNew(n: nat)
    ensures Decimal(n) != NEW_ID
    decreases n
  {
    if n >= 10 {
      DecimalNotNew(n / 10);
      assert Decimal(n)[|Decimal(n)| - 1] == DigitChar(n % 10);
    }
  }

  /** Opening the editor on a saved assistant shows the form that was saved. */
  lemma SaveReopens(initial: Assistant, form: Form, now: nat, iso: string)
    requires Saved(initial, form, now, iso).Some? && form.model != ""
    ensures InitialForm(Saved(initial, form, now, iso)) == form
  {
  }

  /** `handleSave` against the store: the record is upserted into the user's assistants and refreshed where pinned. */
  method Save(store: Store.ChatStore, initial: Assistant, form: Form, now: nat, iso: string) returns (saved: Option<Assistant>)
    modifies store
    ensures saved == Saved(initial, form, now, iso)
    ensures saved.None? ==> store.State() == old(store.State())
    ensures saved.Some? ==> store.State() == old(store.State()).(
      customAssistants := Upsert(old(store.customAssistants), saved.value),
      activeAssistants := Refresh(old(store.activeAssistants), saved.value))
  {
    saved := Saved(initial, form, now, iso);
    if saved.Some? {
      store.AddProjectAssistant(saved.value);
    }
  }

  /** `handleDelete`: an assistant that was never saved is not looked up; the editor closes either way. */
  method Delete(store: Store.ChatStore, initial: Assistant)
    modifies store
    ensures initial.id == NEW_ID ==> store.State() == old(store.State())
    ensures initial.id != NEW_ID ==> store.State() == old(store.State()).(
      customAssistants := DropAssistant(old(store.customAssistants), initial.id))
  {
    if initial.id != NEW_ID {
      store.RemoveProjectAssistant(initial.id);
    }
  }

  /**
   * `handleStartChat`: only a saved assistant starts a chat, an empty
   * conversation named after it, placed first and selected, with the
   * assistant pinned; `suffix` stands for the random part of the id.
   */
  method StartChat(store: Store.ChatStore, initial: Assistant, suffix: string) returns (chatId: Option<string>)
    modifies store
    ensures chatId.Some? <==> initial.id != NEW_ID
    ensures chatId.None? ==> store.State() == old(store.State())
    ensures chatId.Some? ==> chatId.value == Store.Slug(initial.name) + "-" + suffix
    ensures chatId.Some? ==> store.State() == old(store.State()).(
      activeAssistants := Upsert(old(store.activeAssistants), initial),
      conversations := [Forest.Conversation(chatId.value, initial.name, [], [], Some(initial.id), None, None, false, None)]
                       + old(store.conversations),
      activeConversationId := chatId)
  {
    chatId := None;
    if initial.id != NEW_ID {
      var id := store.StartAssistantChat(initial, suffix);
      chatId := Some(id);
    }
  }
}
