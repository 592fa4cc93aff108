/** The restaurant list page: the sample list shown when the backend returns
    nothing, the name/location search and the minimum-rating filter. */
module RestaurantList {
  import opened Wrappers
  import opened Entities
  import Text
  import Seqs

  /** The built-in sample restaurants (ratings in tenths of a star). */
  const SampleRestaurants: seq<Restaurant> := [
    Restaurant(301, "Southern Spice", "Rushikonda", 45, None),
    Restaurant(302, "Deccan Pavilion", "MVP Colony", 41, None),
    Restaurant(303, "Barbeque Nation", "Gajuwaka", 43, None),
    Restaurant(304, "Sitara Grand", "Aganampudi", 39, None),
    Restaurant(305, "Paprika Restaurant", "Seethammadhara", 36, None),
    Restaurant(306, "Alankar Inn", "Pedda Waltair", 43, None),
    Restaurant(307, "Papadams Blue", "Dwaraka Nagar", 38, None),
    Restaurant(308, "Bawarchi", "Jagadamba Center", 42, None)
  ]

  /** `restaurantsToDisplay`: the fetched list, or the samples when it is empty. */
  function ToDisplay(fetched: seq<Restaurant>): (r: seq<Restaurant>)
    ensures |r| > 0
    ensures r == fetched <==> |fetched| > 0
  {
    if |fetched| > 0 then fetched else SampleRestaurants
  }

  /** Name or location contains the term, ignoring case. */
  predicate MatchesSearch(r: Restaurant, term: string)
  {
    var t := Text.ToLower(term);
    Text.Contains(Text.ToLower(r.resName), t) || Text.Contains(Text.ToLower(r.resLocation), t)
  }

  /** The rating filter, a whole number of stars; unset or 0 keeps everything. */
  predicate MeetsRating(r: Restaurant, minStars: Option<int>)
  {
    minStars.None? || minStars.value == 0 || r.resRating >= 10 * minStars.value
  }

  function SearchFilter(term: string): Restaurant -> bool
  {
    (r: Restaurant) => MatchesSearch(r, term)
  }

  function RatingFilter(minStars: Option<int>): Restaurant -> bool
  {
    (r: Restaurant) => MeetsRating(r, minStars)
  }

  /** `filteredRestaurants`: the search filter followed by the rating filter. */
  function Visible(all: seq<Restaurant>, term: string, minStars: Option<int>): seq<Restaurant>
  {
    Seqs.Filter(Seqs.Filter(all, SearchFilter(term)), RatingFilter(minStars))
  }

  /** What the page lists for the fetched data and the current filters. */
  function PageList(fetched: seq<Restaurant>, term: string, minStars: Option<int>): seq<Restaurant>
  {
    Visible(ToDisplay(fetched), term, minStars)
  }

  /** The list shows exactly the restaurants passing both filters, in their
      original order. */
  lemma VisibleIsBothFilters(all: seq<Restaurant>, term: string, minStars: Option<int>)
    ensures var v := Visible(all, term, minStars);
      && Seqs.IsSubseq(v, all)
      && (forall i :: 0 <= i < |v| ==> MatchesSearch(v[i], term) && MeetsRating(v[i], minStars))
      && (forall i :: 0 <= i < |all| && MatchesSearch(all[i], term) && MeetsRating(all[i], minStars) ==> all[i] in v)
  {
    var s := Seqs.Filter(all, SearchFilter(term));
    var v := Seqs.Filter(s, RatingFilter(minStars));
    Seqs.FilterIsSubseq(all, SearchFilter(term));
    Seqs.FilterIsSubseq(s, RatingFilter(minStars));
    Seqs.SubseqTrans(v, s, all);
    forall i | 0 <= i < |v| ensures MatchesSearch(v[i], term) {
      var j :| 0 <= j < |s| && s[j] == v[i];
    }
    forall i | 0 <= i < |all| && MatchesSearch(all[i], term) && MeetsRating(all[i], minStars)
      ensures all[i] in v
    {
      var j :| 0 <= j < |s| && s[j] == all[i];
    }
  }

  /** The list keeps every copy of a restaurant passing both filters, and no
      copy of one that fails either. */
  lemma VisibleCounts(all: seq<Restaurant>, term: string, minStars: Option<int>)
    ensures forall x :: multiset(Visible(all, term, minStars))[x] ==
                        if MatchesSearch(x, term) && MeetsRating(x, minStars) then multiset(all)[x] else 0
  {
    Seqs.FilterCounts(all, SearchFilter(term));
    Seqs.FilterCounts(Seqs.Filter(all, SearchFilter(term)), RatingFilter(minStars));
  }

  /** With no search term and no rating filter every restaurant is listed. */
  lemma NoFiltersShowsAll(all: seq<Restaurant>, minStars: Option<int>)
    requires minStars.None? || minStars == Some(0)
    ensures Visible(all, "", minStars) == all
  {
    forall i | 0 <= i < |all| ensures MatchesSearch(all[i], "") {
      Text.ContainsEmpty(Text.ToLower(all[i].resName));
    }
    Seqs.FilterAll(all, SearchFilter(""));
    Seqs.FilterAll(all, RatingFilter(minStars));
  }

  /** A stricter rating threshold lists a subsequence of a looser one. */
  lemma RaisingThresholdNarrows(all: seq<Restaurant>, term: string, lo: int, hi: int)
    requires 0 < lo <= hi
    ensures Seqs.IsSubseq(Visible(all, term, Some(hi)), Visible(all, term, Some(lo)))
  {
    assert forall x :: RatingFilter(Some(hi))(x) ==> RatingFilter(Some(lo))(x);
    Seqs.FilterMonotone(Seqs.Filter(all, SearchFilter(term)), RatingFilter(Some(hi)), RatingFilter(Some(lo)));
  }

  /** Any rating filter lists a subsequence of "All". */
  lemma ThresholdNarrowsAll(all: seq<Restaurant>, term: string, minStars: Option<int>)
    ensures Seqs.IsSubseq(Visible(all, term, minStars), Visible(all, term, None))
  {
    Seqs.FilterMonotone(Seqs.Filter(all, SearchFilter(term)), RatingFilter(minStars), RatingFilter(None));
  }

  /** The samples are listed exactly when nothing was fetched. */
  lemma SamplesOnlyWhenNothingFetched(fetched: seq<Restaurant>, term: string, minStars: Option<int>)
    ensures |fetched| > 0 ==> PageList(fetched, term, minStars) == Visible(fetched, term, minStars)
    ensures |fetched| == 0 ==> PageList(fetched, term, minStars) == Visible(SampleRestaurants, term, minStars)
  {
  }
}
