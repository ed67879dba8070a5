/**
 * The sidebar's view of the store: the chat list (chats with a user message
 * that belong to no project, pinned first, newest first), the collapsible
 * sections and the "Show N more" rule for projects.
 */
module Sidebar {
  import opened Base
  import opened Sorting
  import opened Forest
  import opened Catalog

  // ---------------------------------------------------------------- the chat list

  /** `new Set(projects.flatMap(p => p.chatIds || []))`. */
  function ProjectChatIds(ps: seq<Project>): (r: set<string>)
    ensures forall x :: x in r <==> exists i :: 0 <= i < |ps| && x in ps[i].chatIds
  {
    if ps == [] then {}
    else
      var rest := ProjectChatIds(ps[1..]);
      assert forall i :: 1 <= i < |ps| ==> ps[i] == ps[1..][i - 1];
      (set x | x in ps[0].chatIds) + rest
  }

  /** `conv.messages.some(m => m.role === 'user')`. */
  predicate HasUserMessage(c: Conversation) {
    exists m :: m in Messages(c) && m.role == User
  }

  /** The filter of `todayChats`: a chat with a user message that no project lists. */
  predicate Loose(c: Conversation, filed: set<string>) {
    HasUserMessage(c) && c.id !in filed
  }

  /** `conversations.filter(...)`, order kept. */
  function Unfiled(cs: seq<Conversation>, filed: set<string>): (r: seq<Conversation>)
    ensures forall c :: c in r <==> c in cs && Loose(c, filed)
  {
    if cs == [] then []
    else if Loose(cs[0], filed) then [cs[0]] + Unfiled(cs[1..], filed)
    else Unfiled(cs[1..], filed)
  }

  /** The filter keeps the list's order: the results for two parts are joined in order. */
  lemma {:induction false} UnfiledAppend(a: seq<Conversation>, b: seq<Conversation>, filed: set<string>)
    ensures Unfiled(a + b, filed) == Unfiled(a, filed) + Unfiled(b, filed)
    decreases |a|
  {
    if a != [] {
      assert (a + b)[0] == a[0];
      assert (a + b)[1..] == a[1..] + b;
      UnfiledAppend(a[1..], b, filed);
      if Loose(a[0], filed) {
        assert Unfiled(a + b, filed) == [a[0]] + Unfiled(a[1..] + b, filed);
        assert Unfiled(a, filed) == [a[0]] + Unfiled(a[1..], filed);
      } else {
        assert Unfiled(a + b, filed) == Unfiled(a[1..] + b, filed);
      }
    } else {
      assert a + b == b;
    }
  }

  /**
   * `a.messages[a.messages.length - 1]?.timestamp || a.updatedAt`: the time
   * of the last visible message, unless there is none, in which case the
   * conversation's own `updatedAt`. A stored timestamp is a `Date` object or
   * its ISO text, both truthy even at time `0`. `None` stands for the `NaN`
   * date of a missing time.
   */
  function LastTime(c: Conversation): Option<int> {
    var ms := Messages(c);
    if ms != [] && ms[|ms| - 1].timestamp.Some? then ms[|ms| - 1].timestamp
    else c.updatedAt
  }

  /**
   * The comparator of `todayChats` read as "`a` may stay before `b`": a pinned
   * chat before an unpinned one, otherwise `bTime - aTime <= 0`; a `NaN`
   * difference counts as `0`, as `Array.prototype.sort` treats it.
   */
  predicate ChatBefore(a: Conversation, b: Conversation) {
    if a.isPinned && !b.isPinned then true
    else if !a.isPinned && b.isPinned then false
    else
      match (LastTime(a), LastTime(b))
      case (Some(x), Some(y)) => y - x <= 0
      case _ => true
  }

  /** `todayChats`. */
  function TodayChats(cs: seq<Conversation>, ps: seq<Project>): (r: seq<Conversation>)
    ensures forall c :: c in r <==> c in cs && HasUserMessage(c) && c.id !in ProjectChatIds(ps)
  {
    var u := Unfiled(cs, ProjectChatIds(ps));
    var r := SortBy(u, ChatBefore);
    assert forall c :: c in r <==> c in multiset(u);
    r
  }

  /** Every chat of the list can be dated: it has a last message time or an `updatedAt`. */
  ghost predicate Dated(cs: seq<Conversation>) {
    forall c :: c in cs ==> LastTime(c).Some?
  }

  /** The sort key the comparator amounts to on dated chats: pin status, then time, both descending. */
  predicate Ranked(a: Conversation, b: Conversation) {
    (a.isPinned && !b.isPinned) || (a.isPinned == b.isPinned && LastTime(a).GetOr(0) >= LastTime(b).GetOr(0))
  }

  lemma RankedTotal()
    ensures TotalPreorder(Ranked)
  {
  }

  /**
   * Over dated chats the list is ordered as the sidebar promises: a pinned
   * chat is never below an unpinned one, and among chats with the same pin
   * status a newer one is never below an older one.
   */
  lemma TodayChatsOrdered(cs: seq<Conversation>, ps: seq<Project>)
    requires Dated(cs)
    ensures var r := TodayChats(cs, ps);
      forall i, j :: 0 <= i < j < |r| ==>
        && (r[j].isPinned ==> r[i].isPinned)
        && (r[i].isPinned == r[j].isPinned ==> LastTime(r[i]).value >= LastTime(r[j]).value)
  {
    var u := Unfiled(cs, ProjectChatIds(ps));
    SortByAgrees(u, ChatBefore, Ranked);
    RankedTotal();
    SortBySorted(u, Ranked);
    var r := TodayChats(cs, ps);
    assert r == SortBy(u, Ranked);
    forall i, j | 0 <= i < j < |r|
      ensures (r[j].isPinned ==> r[i].isPinned)
      ensures r[i].isPinned == r[j].isPinned ==> LastTime(r[i]).value >= LastTime(r[j]).value
    {
      assert Ranked(r[i], r[j]);
      assert r[i] in cs && r[j] in cs;
      RankedOrder(r[i], r[j]);
    }
  }

  lemma RankedOrder(a: Conversation, b: Conversation)
    requires Ranked(a, b) && LastTime(a).Some? && LastTime(b).Some?
    ensures b.isPinned ==> a.isPinned
    ensures a.isPinned == b.isPinned ==> LastTime(a).value >= LastTime(b).value
  {
  }

  // ---------------------------------------------------------------- sections

  /** `setSections(prev => ({ ...prev, [section]: !prev[section] }))`; a missing key reads as `undefined`. */
  function ToggleSection(s: map<string, bool>, key: string): (r: map<string, bool>)
    ensures key in r && r[key] == !(key in s && s[key])
    ensures forall k :: k != key ==> (k in r <==> k in s) && (k in s ==> r[k] == s[k])
  {
    s[key := !(key in s && s[key])]
  }

  /** Toggling a section twice restores the sections. */
  lemma ToggleSectionTwice(s: map<string, bool>, key: string)
    requires key in s
    ensures ToggleSection(ToggleSection(s, key), key) == s
  {
    var r := ToggleSection(ToggleSection(s, key), key);
    assert r.Keys == s.Keys;
  }

  // ---------------------------------------------------------------- projects

  const FOLDED_PROJECTS: nat := 4

  datatype MoreButton = NoButton | ShowMore(hidden: nat) | ShowLess

  /** The rendered project list and the button under it. */
  datatype ProjectListing = ProjectListing(shown: seq<Project>, button: MoreButton)

  /**
   * The project list: with more than four projects and `showAllProjects`
   * off, the first four and "Show N more" for the rest; otherwise all of
   * them, with "Show less" when there are more than four. No button is drawn
   * while the sidebar is collapsed.
   */
  function ListProjects(ps: seq<Project>, showAll: bool, collapsed: bool): (r: ProjectListing)
    ensures r.shown <= ps
    ensures |ps| > FOLDED_PROJECTS && !showAll ==> |r.shown| == FOLDED_PROJECTS
    ensures !(|ps| > FOLDED_PROJECTS && !showAll) ==> r.shown == ps
    ensures r.button.ShowMore? <==> |ps| > FOLDED_PROJECTS && !showAll && !collapsed
    ensures r.button.ShowMore? ==> r.button.hidden > 0 && |r.shown| + r.button.hidden == |ps|
    ensures r.button.ShowLess? <==> |ps| > FOLDED_PROJECTS && showAll && !collapsed
  {
    if |ps| > FOLDED_PROJECTS && !showAll then
      ProjectListing(ps[..FOLDED_PROJECTS], if collapsed then NoButton else ShowMore(|ps| - FOLDED_PROJECTS))
    else
      ProjectListing(ps, if |ps| > FOLDED_PROJECTS && !collapsed then ShowLess else NoButton)
  }

  /**
   * "Show N more" sets `showAllProjects`: the N hidden projects are exactly
   * the ones the folded list left out, and "Show less" takes its place.
   */
  lemma ShowMoreReveals(ps: seq<Project>, collapsed: bool)
    requires ListProjects(ps, false, collapsed).button.ShowMore?
    ensures var folded, open := ListProjects(ps, false, collapsed), ListProjects(ps, true, collapsed);
      && open.shown == folded.shown + ps[|folded.shown|..]
      && |ps[|folded.shown|..]| == folded.button.hidden
      && open.button == ShowLess
  {
  }
}
