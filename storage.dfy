/** The server's in-memory store: a catalogue of experiments keyed by id,
    filled once from the seed, and one mutable preferences record that is
    updated by a shallow merge. */
module Storage {
  import opened Common
  import opened Schema
  import Seed

  /** `{ ...current, ...patch }`: every field the patch supplies overwrites the
      current one; every field it leaves out, and the id, stay as they were. */
  function Merge(current: Preferences, patch: InsertPreferences): (r: Preferences)
    ensures r.id == current.id
    ensures patch.theme.None? ==> r.theme == current.theme
    ensures patch.theme.Some? ==> r.theme == patch.theme.value
    ensures patch.fontSize.None? ==> r.fontSize == current.fontSize
    ensures patch.fontSize.Some? ==> r.fontSize == patch.fontSize.value
    ensures patch.highContrast.None? ==> r.highContrast == current.highContrast
    ensures patch.highContrast.Some? ==> r.highContrast == patch.highContrast.value
    ensures patch.starredExperiments.None? ==> r.starredExperiments == current.starredExperiments
    ensures patch.starredExperiments.Some? ==> r.starredExperiments == patch.starredExperiments.value
  {
    Preferences(
      current.id,
      patch.theme.GetOr(current.theme),
      patch.fontSize.GetOr(current.fontSize),
      patch.highContrast.GetOr(current.highContrast),
      patch.starredExperiments.GetOr(current.starredExperiments))
  }

  /** Applying the same partial update a second time changes nothing more. */
  lemma MergeIdempotent(p: Preferences, patch: InsertPreferences)
    ensures Merge(Merge(p, patch), patch) == Merge(p, patch)
  {
  }

  /** A later update wins over an earlier one field by field: every field the
      second update supplies takes its value, every other field keeps what the
      first update left. */
  lemma MergeLastWriterWins(p: Preferences, first: InsertPreferences, second: InsertPreferences)
    ensures var r, mid := Merge(Merge(p, first), second), Merge(p, first);
      && (second.theme.Some? ==> r.theme == second.theme.value)
      && (second.theme.None? ==> r.theme == mid.theme)
      && (second.fontSize.Some? ==> r.fontSize == second.fontSize.value)
      && (second.fontSize.None? ==> r.fontSize == mid.fontSize)
      && (second.highContrast.Some? ==> r.highContrast == second.highContrast.value)
      && (second.highContrast.None? ==> r.highContrast == mid.highContrast)
      && (second.starredExperiments.Some? ==> r.starredExperiments == second.starredExperiments.value)
      && (second.starredExperiments.None? ==> r.starredExperiments == mid.starredExperiments)
      && r.id == p.id
  {
  }

  /** An update that supplies no field leaves the record as it was. */
  lemma MergeNoFields(p: Preferences)
    ensures Merge(p, NoFields) == p
  {
  }

  /** The record the store starts with. */
  const InitialPreferences := Preferences(1, "system", 16, false, [])

  /** The store's initial record is the row the preferences table would create
      for key 1 from an insert that supplies nothing. */
  lemma InitialPreferencesAreTableDefaults()
    ensures InitialPreferences == InsertWithDefaults(1, NoFields)
  {
  }

  /** `MemStorage`. A JavaScript `Map` keeps its keys in insertion order, so it
      is modelled by the map itself together with the sequence of its keys. */
  class MemStorage {
    var experiments: map<int, Experiment>
    var keys: seq<int>
    var preferences: Preferences

    /** The catalogue is exactly the seed, keyed by each record's own id, in seed
        order: no operation writes to it after construction. */
    ghost predicate Valid()
      reads this
    {
      && |keys| == |Seed.Experiments|
      && (forall k :: 0 <= k < |keys| ==> keys[k] == Seed.Experiments[k].id)
      && (forall id :: id in experiments <==> id in keys)
      && (forall k :: 0 <= k < |keys| ==> keys[k] in experiments && experiments[keys[k]] == Seed.Experiments[k])
    }

    /** Seeds the catalogue by setting each record under its id, in seed order. */
    constructor ()
      ensures Valid()
      ensures preferences == InitialPreferences
      ensures |keys| == 8 && experiments.Keys == {1, 2, 3, 4, 5, 6, 7, 8}
      ensures forall id :: id in experiments ==> experiments[id].id == id
    {
      Seed.SeedIds();
      preferences := Preferences(1, "system", 16, false, []);
      var m, ks := SetEach(Seed.Experiments);
      experiments, keys := m, ks;
      new;
      forall id | id in experiments ensures 1 <= id <= 8 && experiments[id].id == id {
        var k :| 0 <= k < |keys| && keys[k] == id;
      }
      forall id | 1 <= id <= 8 ensures id in experiments {
        assert keys[id - 1] == id;
      }
      assert experiments.Keys == {1, 2, 3, 4, 5, 6, 7, 8};
    }

    /** `entries.forEach(e => map.set(e.id, e))` on an empty map, for entries with
        distinct ids: the keys come out in entry order, each holding its entry. */
    static method SetEach(entries: seq<Experiment>) returns (m: map<int, Experiment>, ks: seq<int>)
      requires forall a, b :: 0 <= a < b < |entries| ==> entries[a].id != entries[b].id
      ensures |ks| == |entries|
      ensures forall k :: 0 <= k < |ks| ==> ks[k] == entries[k].id
      ensures forall id :: id in m <==> id in ks
      ensures forall k :: 0 <= k < |ks| ==> ks[k] in m && m[ks[k]] == entries[k]
    {
      m, ks := map[], [];
      for i := 0 to |entries|
        invariant |ks| == i
        invariant forall k :: 0 <= k < i ==> ks[k] == entries[k].id
        invariant forall id :: id in m <==> id in ks
        invariant forall k :: 0 <= k < i ==> ks[k] in m && m[ks[k]] == entries[k]
      {
        var e := entries[i];
        if e.id !in m {
          // `Map.set` appends a new key and keeps the position of an existing one
          ks := ks + [e.id];
        }
        m := m[e.id := e];
      }
    }

    /** `getExperiments`: the values of the map in insertion order, which is
        the seed list itself, always eight records long. */
    method GetExperiments() returns (r: seq<Experiment>)
      requires Valid()
      ensures r == Seed.Experiments
      ensures |r| == 8
    {
      Seed.SeedIds();
      r := [];
      for i := 0 to |keys|
        invariant r == Seed.Experiments[..i]
      {
        r := r + [experiments[keys[i]]];
      }
    }

    /** `getExperiment`: the record stored under `id`, or nothing when no
        seeded record has that id. */
    method GetExperiment(id: int) returns (r: Option<Experiment>)
      requires Valid()
      ensures r.Some? <==> 1 <= id <= 8
      ensures r.Some? ==> r.value.id == id && r.value in Seed.Experiments
    {
      Seed.SeedIds();
      forall j | 1 <= j <= 8 ensures j in experiments {
        assert keys[j - 1] == j;
      }
      if id in experiments {
        r := Some(experiments[id]);
        var k :| 0 <= k < |keys| && keys[k] == id;
      } else {
        r := None;
      }
    }

    /** `getPreferences`: the current record. */
    method GetPreferences() returns (p: Preferences)
      ensures p == preferences
    {
      p := preferences;
    }

    /** `updatePreferences`: merges the patch into the record, stores and
        returns the result; the catalogue is untouched. */
    method UpdatePreferences(patch: InsertPreferences) returns (p: Preferences)
      requires Valid()
      modifies this`preferences
      ensures Valid()
      ensures preferences == Merge(old(preferences), patch)
      ensures p == preferences
    {
      preferences := Merge(preferences, patch);
      p := preferences;
    }
  }

  /** An update of the theme alone, read back, shows the new theme and every
      other field as before; the catalogue still has eight records. */
  method UpdateThemeThenRead(store: MemStorage, theme: string) returns (before: Preferences, after: Preferences)
    requires store.Valid()
    modifies store
    ensures before == old(store.preferences) && after == store.preferences && store.Valid()
    ensures after == Preferences(before.id, theme, before.fontSize, before.highContrast, before.starredExperiments)
  {
    before := store.GetPreferences();
    var returned := store.UpdatePreferences(InsertPreferences(Some(theme), None, None, None));
    after := store.GetPreferences();
    assert returned == after;
    var all := store.GetExperiments();
    assert |all| == 8;
  }
}
