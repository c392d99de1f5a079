/** The star toggle of the experiment page and of the experiment card: the new
    starred list drops the id when it is there and appends it otherwise, and is
    sent to the store as an update of that one field. */
module Starred {
  import opened Common
  import opened Schema
  import Storage

  /** `preferences?.starredExperiments || []`: the starred list, empty while
      preferences have not been loaded. */
  function CurrentStarred(prefs: Option<Preferences>): (r: seq<int>)
    ensures prefs.None? ==> r == []
    ensures prefs.Some? ==> r == prefs.value.starredExperiments
  {
    if prefs.Some? then prefs.value.starredExperiments else []
  }

  /** `preferences?.starredExperiments?.includes(id)`, with a missing record
      read as not starred. */
  predicate IsStarred(prefs: Option<Preferences>, id: int) {
    prefs.Some? && id in prefs.value.starredExperiments
  }

  /** `list.filter(x => x !== id)`. */
  function RemoveAll(list: seq<int>, id: int): (r: seq<int>)
    ensures id !in r
    ensures forall x :: x != id ==> (x in r <==> x in list)
  {
    FilterMembers(list, x => x != id);
    Filter(list, x => x != id)
  }

  /** The new starred list: every occurrence of `id` removed if it is present,
      `id` appended otherwise. */
  function Toggle(list: seq<int>, id: int): seq<int> {
    if id in list then RemoveAll(list, id) else list + [id]
  }

  /** Toggling flips the membership of the toggled id and keeps the membership
      of every other id. */
  lemma ToggleFlipsMembership(list: seq<int>, id: int)
    ensures id in Toggle(list, id) <==> id !in list
    ensures forall x :: x != id ==> (x in Toggle(list, id) <==> x in list)
  {
  }

  /** Every other id keeps its relative order: ignoring the toggled id, the list
      is the same before and after. */
  lemma {:induction false} ToggleKeepsOthersInOrder(list: seq<int>, id: int)
    ensures RemoveAll(Toggle(list, id), id) == RemoveAll(list, id)
  {
    if id in list {
      RemoveAbsent(RemoveAll(list, id), id);
    } else {
      FilterConcat(list, [id], x => x != id);
      assert RemoveAll([id], id) == [];
    }
  }

  /** Removing an id that is absent leaves the list unchanged. */
  lemma {:induction false} RemoveAbsent(list: seq<int>, id: int)
    requires id !in list
    ensures RemoveAll(list, id) == list
  {
    if list != [] {
      RemoveAbsent(list[1..], id);
      assert list == [list[0]] + list[1..];
    }
  }

  /** Toggling an absent id twice gives back exactly the original list. */
  lemma ToggleTwiceAbsent(list: seq<int>, id: int)
    requires id !in list
    ensures Toggle(Toggle(list, id), id) == list
  {
    var once := list + [id];
    FilterConcat(list, [id], x => x != id);
    RemoveAbsent(list, id);
    assert RemoveAll([id], id) == [];
  }

  /** Toggling a present id twice restores its membership, but the id moves to
      the end and only one copy of it remains. */
  lemma ToggleTwicePresent(list: seq<int>, id: int)
    requires id in list
    ensures Toggle(Toggle(list, id), id) == RemoveAll(list, id) + [id]
  {
  }

  /** A list without duplicates stays without duplicates. */
  predicate NoDuplicates(list: seq<int>) {
    forall a, b :: 0 <= a < b < |list| ==> list[a] != list[b]
  }

  lemma {:induction false} FilterNoDuplicates(list: seq<int>, id: int)
    requires NoDuplicates(list)
    ensures NoDuplicates(RemoveAll(list, id))
  {
    if list != [] {
      FilterNoDuplicates(list[1..], id);
      var rest := RemoveAll(list[1..], id);
      assert list[0] !in list[1..] by {
        forall k | 0 <= k < |list[1..]| ensures list[1..][k] != list[0] {
          assert list[1..][k] == list[k + 1];
        }
      }
      assert list[0] !in rest;
    }
  }

  lemma ToggleKeepsNoDuplicates(list: seq<int>, id: int)
    requires NoDuplicates(list)
    ensures NoDuplicates(Toggle(list, id))
  {
    if id in list {
      FilterNoDuplicates(list, id);
    }
  }

  /** The request body the toggle posts: only `starredExperiments`. */
  function StarRequest(prefs: Option<Preferences>, id: int): (r: InsertPreferences)
    ensures r.theme.None? && r.fontSize.None? && r.highContrast.None?
    ensures r.starredExperiments.Some?
    ensures id in r.starredExperiments.value <==> !IsStarred(prefs, id)
  {
    InsertPreferences(None, None, None, Some(Toggle(CurrentStarred(prefs), id)))
  }

  /** Storing the request the toggle posts flips the star of that id and keeps
      theme, font size, contrast and the id of the record. */
  lemma StarRequestMerged(p: Preferences, id: int)
    ensures var r := Storage.Merge(p, StarRequest(Some(p), id));
      && r.id == p.id && r.theme == p.theme && r.fontSize == p.fontSize
      && r.highContrast == p.highContrast
      && (IsStarred(Some(r), id) <==> !IsStarred(Some(p), id))
      && forall x :: x != id ==> (IsStarred(Some(r), x) <==> IsStarred(Some(p), x))
  {
    ToggleFlipsMembership(p.starredExperiments, id);
  }

  /** Two toggles of an unstarred experiment, each one read back before the next,
      leave the preferences exactly as they were. */
  lemma StarTwiceRestores(p: Preferences, id: int)
    requires !IsStarred(Some(p), id)
    ensures var once := Storage.Merge(p, StarRequest(Some(p), id));
      Storage.Merge(once, StarRequest(Some(once), id)) == p
  {
    ToggleTwiceAbsent(p.starredExperiments, id);
  }
}
