/** The experiment catalogue of the home page: a case-insensitive search over
    title, description and discipline, combined with one of four filters. */
module Catalogue {
  import opened Common
  import opened Schema
  import Starred
  import Seed

  /** The filter buttons. */
  datatype FilterKind = All | Popular | Recent | StarredOnly

  /** The lower-cased query occurs in the lower-cased title, description or
      discipline. */
  predicate MatchesSearch(e: Experiment, query: string) {
    var q := Lower(query);
    Contains(Lower(e.title), q) || Contains(Lower(e.description), q) || Contains(Lower(e.discipline), q)
  }

  /** What the active filter asks of a search match: a rating of at least 4
      (a missing rating counts as 0) for popular, a star in the loaded
      preferences for starred, nothing for all and recent. */
  predicate FilterAccepts(e: Experiment, kind: FilterKind, prefs: Option<Preferences>) {
    match kind
    case Popular => Popular4(e)
    case Recent => true
    case StarredOnly => Starred.IsStarred(prefs, e.id)
    case All => true
  }

  /** `(exp.rating ?? 0) >= 4`. */
  predicate Popular4(e: Experiment) {
    e.rating.GetOr(0) >= 4
  }

  predicate Keep(e: Experiment, query: string, kind: FilterKind, prefs: Option<Preferences>) {
    MatchesSearch(e, query) && FilterAccepts(e, kind, prefs)
  }

  /** `filteredExperiments`: the experiments kept, in catalogue order. */
  function FilterExperiments(exps: seq<Experiment>, query: string, kind: FilterKind,
                             prefs: Option<Preferences>): (r: seq<Experiment>)
    ensures IsSubsequence(r, exps)
    ensures forall e :: e in r <==> e in exps && Keep(e, query, kind, prefs)
    ensures multiset(r) <= multiset(exps)
  {
    FilterMultiset(exps, e => Keep(e, query, kind, prefs));
    FilterIsSubsequence(exps, e => Keep(e, query, kind, prefs));
    FilterMembers(exps, e => Keep(e, query, kind, prefs));
    Filter(exps, e => Keep(e, query, kind, prefs))
  }

  /** The empty query matches every experiment. */
  lemma EmptyQueryMatches(e: Experiment)
    ensures MatchesSearch(e, "")
  {
    ContainsEmpty(Lower(e.title));
  }

  /** With the empty query and the "all" filter the whole catalogue is shown. */
  lemma EmptyQueryShowsAll(exps: seq<Experiment>, prefs: Option<Preferences>)
    ensures FilterExperiments(exps, "", All, prefs) == exps
  {
    forall i | 0 <= i < |exps| ensures Keep(exps[i], "", All, prefs) {
      EmptyQueryMatches(exps[i]);
    }
    FilterKeepsAll(exps, e => Keep(e, "", All, prefs));
  }

  /** "Recent" has no ordering of its own yet: it shows exactly what "all" shows. */
  lemma RecentIsAll(exps: seq<Experiment>, query: string, prefs: Option<Preferences>)
    ensures FilterExperiments(exps, query, Recent, prefs) == FilterExperiments(exps, query, All, prefs)
  {
    FilterSame(exps, e => Keep(e, query, Recent, prefs), e => Keep(e, query, All, prefs));
  }

  /** Without loaded preferences the starred filter shows nothing. */
  lemma StarredWithoutPreferences(exps: seq<Experiment>, query: string)
    ensures FilterExperiments(exps, query, StarredOnly, None) == []
  {
    var r := FilterExperiments(exps, query, StarredOnly, None);
    if r != [] {
      HeadIsMember(r);
      assert false;
    }
  }

  /** One step of a filter. */
  lemma FilterCons(x: Experiment, t: seq<Experiment>, p: Experiment -> bool)
    ensures Filter([x] + t, p) == (if p(x) then [x] else []) + Filter(t, p)
  {
    assert ([x] + t)[1..] == t;
  }

  /** The popular filter on the seed with the empty query keeps the experiments
      rated at least 4: ids 1, 3, 5, 6, 7 and 8. */
  lemma PopularOnSeed(prefs: Option<Preferences>)
    ensures var r := FilterExperiments(Seed.Experiments, "", Popular, prefs);
      |r| == 6 && r[0].id == 1 && r[1].id == 3 && r[2].id == 5
      && r[3].id == 6 && r[4].id == 7 && r[5].id == 8
  {
    Seed.SeedIds();
    Seed.SeedRatings();
    PopularOfRatings(Seed.Experiments, prefs);
  }

  /** With the empty query the popular filter is the rating test alone. */
  lemma PopularEmptyQuery(s: seq<Experiment>, prefs: Option<Preferences>)
    ensures FilterExperiments(s, "", Popular, prefs) == Filter(s, Popular4)
  {
    var p := (e: Experiment) => Keep(e, "", Popular, prefs);
    var q := Popular4;
    forall i | 0 <= i < |s| ensures p(s[i]) == q(s[i]) {
      EmptyQueryMatches(s[i]);
    }
    FilterSame(s, p, q);
  }

  /** The rating test over ratings 4, 3, 4, 3, 4, 4, 4, 4 keeps positions 0, 2,
      4, 5, 6 and 7. */
  lemma PopularRatings(s: seq<Experiment>)
    requires |s| == 8
    requires Popular4(s[0]) && !Popular4(s[1]) && Popular4(s[2]) && !Popular4(s[3])
      && Popular4(s[4]) && Popular4(s[5]) && Popular4(s[6]) && Popular4(s[7])
    ensures Filter(s, Popular4) == [s[0], s[2], s[4], s[5], s[6], s[7]]
  {
    var t7 := [s[7]];
    var t6 := [s[6]] + t7;
    var t5 := [s[5]] + t6;
    var t4 := [s[4]] + t5;
    var t3 := [s[3]] + t4;
    var t2 := [s[2]] + t3;
    var t1 := [s[1]] + t2;
    var t0 := [s[0]] + t1;
    FilterCons(s[7], [], Popular4);
    assert [s[7]] + [] == t7;
    FilterCons(s[6], t7, Popular4);
    FilterCons(s[5], t6, Popular4);
    FilterCons(s[4], t5, Popular4);
    FilterCons(s[3], t4, Popular4);
    FilterCons(s[2], t3, Popular4);
    FilterCons(s[1], t2, Popular4);
    FilterCons(s[0], t1, Popular4);
    assert t0 == s;
  }

  /** The popular filter with the empty query over eight experiments with ids 1
      to 8 and the seed's ratings 4, 3, 4, 3, 4, 4, 4, 4. */
  lemma PopularOfRatings(s: seq<Experiment>, prefs: Option<Preferences>)
    requires |s| == 8 && forall k :: 0 <= k < 8 ==> s[k].id == k + 1
    requires s[0].rating == Some(4) && s[1].rating == Some(3) && s[2].rating == Some(4)
      && s[3].rating == Some(3) && s[4].rating == Some(4) && s[5].rating == Some(4)
      && s[6].rating == Some(4) && s[7].rating == Some(4)
    ensures var r := FilterExperiments(s, "", Popular, prefs);
      |r| == 6 && r[0].id == 1 && r[1].id == 3 && r[2].id == 5
      && r[3].id == 6 && r[4].id == 7 && r[5].id == 8
  {
    PopularEmptyQuery(s, prefs);
    PopularRatings(s);
  }
}
