/**
 * The assistant browser: pinning and unpinning assistants, which list each
 * tab shows, and which cards carry the edit/delete menu.
 */
module ExploreModal {
  import opened Base
  import opened Catalog
  import Store

  // ---------------------------------------------------------------- pinning

  /** `activeAssistants.some(a => a.id === id)`: the card shows "Unpin". */
  predicate Pinned(active: seq<Assistant>, id: string) {
    id in AssistantIds(active)
  }

  /**
   * `toggleAssistantPin`: a pinned assistant is unpinned by dropping every
   * entry with its id; an unpinned one is appended at the end. Entries with
   * other ids stay as they were.
   */
  function TogglePin(active: seq<Assistant>, a: Assistant): (r: seq<Assistant>)
    ensures Pinned(r, a.id) <==> !Pinned(active, a.id)
    ensures Pinned(active, a.id) ==> forall x :: x in r <==> x in active && x.id != a.id
    ensures !Pinned(active, a.id) ==> r == active + [a]
  {
    if Pinned(active, a.id) then
      var r := DropAssistant(active, a.id);
      assert forall i :: 0 <= i < |r| ==> r[i] in r;
      r
    else
      assert AssistantIds(active + [a])[|active|] == a.id;
      active + [a]
  }

  /** Dropping an id no entry has changes nothing. */
  lemma {:induction false} DropAbsent(xs: seq<Assistant>, id: string)
    requires !Pinned(xs, id)
    ensures DropAssistant(xs, id) == xs
  {
    if xs != [] {
      assert AssistantIds(xs)[0] == xs[0].id;
      assert AssistantIds(xs[1..]) == AssistantIds(xs)[1..];
      DropAbsent(xs[1..], id);
    }
  }

  /** Dropping works entry by entry, so it splits over a concatenation. */
  lemma {:induction false} DropSplits(a: seq<Assistant>, b: seq<Assistant>, id: string)
    ensures DropAssistant(a + b, id) == DropAssistant(a, id) + DropAssistant(b, id)
  {
    if a == [] {
      assert a + b == b;
    } else {
      assert (a + b)[1..] == a[1..] + b;
      DropSplits(a[1..], b, id);
    }
  }

  /**
   * Pressing the pin button twice restores whether the assistant is pinned;
   * an assistant that was not pinned leaves the list exactly as it was, and
   * one that was pinned comes back once, at the end.
   */
  lemma TogglePinTwice(active: seq<Assistant>, a: Assistant)
    ensures var twice := TogglePin(TogglePin(active, a), a);
      && (Pinned(twice, a.id) <==> Pinned(active, a.id))
      && (!Pinned(active, a.id) ==> twice == active)
      && (Pinned(active, a.id) ==> twice == DropAssistant(active, a.id) + [a])
  {
    if !Pinned(active, a.id) {
      DropSplits(active, [a], a.id);
      DropAbsent(active, a.id);
      assert DropAssistant([a], a.id) == [];
    }
  }

  /** `toggleAssistantPin` against the store: only the pinned list changes. */
  method ToggleAssistantPin(store: Store.ChatStore, a: Assistant)
    modifies store
    ensures store.State() == old(store.State()).(activeAssistants := TogglePin(old(store.activeAssistants), a))
  {
    store.activeAssistants := TogglePin(store.activeAssistants, a);
  }

  // ---------------------------------------------------------------- tabs

  /** The ids of the three built-in assistants of the Public tab. */
  const FEATURED_IDS: seq<string> := ["search", "general", "art"]

  /**
   * `getFilteredAssistants`: Pinned shows the pinned list, Mine and Private
   * both show the user's own assistants, Public the built-in ones, and any
   * other tab nothing.
   */
  function TabAssistants(tab: string, active: seq<Assistant>, custom: seq<Assistant>, featured: seq<Assistant>): (r: seq<Assistant>)
    ensures tab == "Pinned" ==> r == active
    ensures tab == "Pinned" ==> forall x :: x in r ==> Pinned(active, x.id)
    ensures tab == "Mine" || tab == "Private" ==> r == custom
    ensures tab == "Public" ==> r == featured
    ensures tab !in {"Pinned", "Mine", "Private", "Public"} ==> r == []
  {
    match tab
    case "Pinned" =>
      assert forall x :: x in active ==> Pinned(active, x.id) by {
        forall x | x in active ensures Pinned(active, x.id) {
          var i :| 0 <= i < |active| && active[i] == x;
          assert AssistantIds(active)[i] == x.id;
        }
      }
      active
    case "Mine" => custom
    case "Private" => custom
    case "Public" => featured
    case _ => []
  }

  /** `!featuredAssistants.some(f => f.id === assistant.id)`: the card offers Edit and Delete. */
  predicate HasMenu(a: Assistant) {
    a.id !in FEATURED_IDS
  }

  /** No built-in assistant can be edited or deleted from its card. */
  lemma FeaturedHaveNoMenu(featured: seq<Assistant>)
    requires forall i :: 0 <= i < |featured| ==> featured[i].id in FEATURED_IDS
    ensures forall x :: x in TabAssistants("Public", [], [], featured) ==> !HasMenu(x)
  {
  }

  /** `setShowMenuId(showMenuId === id ? null : id)`: the dots button opens its menu or closes it. */
  function ToggleMenu(open: Option<string>, id: string): (r: Option<string>)
    ensures r == Some(id) <==> open != Some(id)
    ensures r.Some? ==> r.value == id
  {
    if open == Some(id) then None else Some(id)
  }

  /** Pressing the same dots twice leaves that menu open only if it was open to begin with; any other menu is closed. */
  lemma ToggleMenuTwice(open: Option<string>, id: string)
    ensures ToggleMenu(ToggleMenu(open, id), id) == (if open == Some(id) then Some(id) else None)
  {
  }
}
