/**
  The schemes database page (`pages/Schemes.tsx`): a fixed catalogue of
  twelve schemes, narrowed by a free-text search over title and description
  (case-insensitive substring) and by a category button ("All" keeps every
  category). The page shows the narrowed list and "Showing n of m schemes".
 */
module SchemeSearch {
  import opened Text
  import opened Lists

  /** The fields of a catalogue entry that the search reads; amounts,
      deadlines and the other display-only fields are not modelled. */
  datatype SchemeEntry = SchemeEntry(id: nat, title: string, description: string, category: string)

  const AllCategories := "All"

  const Categories: seq<string> := [AllCategories, "Income Support", "Insurance", "Subsidy", "Loan",
    "Technology", "Soil Health", "Marketing", "Irrigation", "Seeds", "Equipment"]

  const AllSchemes: seq<SchemeEntry> := [
    SchemeEntry(1, "PM-KISAN Samman Nidhi",
      "Direct income support of \U{20B9}6000 per year to farmer families owning cultivable land", "Income Support"),
    SchemeEntry(2, "Pradhan Mantri Fasal Bima Yojana",
      "Crop insurance scheme protecting farmers against production risks", "Insurance"),
    SchemeEntry(3, "Soil Health Card Scheme",
      "Free soil testing and health cards for optimal fertilizer use", "Soil Health"),
    SchemeEntry(4, "PM Kisan Credit Card",
      "Easy access to credit for farmers at subsidized interest rates", "Loan"),
    SchemeEntry(5, "Digital Agriculture Mission 2.0",
      "Technology-driven solutions for modern farming practices", "Technology"),
    SchemeEntry(6, "Paramparagat Krishi Vikas Yojana",
      "Promotion of organic farming through cluster approach", "Subsidy"),
    SchemeEntry(7, "PM Krishi Sinchai Yojana",
      "Expanding cultivated area under assured irrigation and improving water use efficiency", "Irrigation"),
    SchemeEntry(8, "National Seeds Mission",
      "Quality seed production and distribution to increase crop productivity", "Seeds"),
    SchemeEntry(9, "Sub-Mission on Agricultural Mechanization",
      "Promoting farm mechanization for higher productivity", "Equipment"),
    SchemeEntry(10, "e-NAM (National Agriculture Market)",
      "Online trading platform for agricultural commodities", "Marketing"),
    SchemeEntry(11, "Pradhan Mantri Kisan Maan Dhan Yojana",
      "Pension scheme for small and marginal farmers", "Income Support"),
    SchemeEntry(12, "Formation & Promotion of FPOs",
      "Supporting formation of Farmer Producer Organizations", "Subsidy")
  ]

  /** The query occurs, ignoring case, in the title or in the description. */
  predicate MatchesSearch(e: SchemeEntry, query: string)
  {
    Includes(Lower(e.title), Lower(query)) || Includes(Lower(e.description), Lower(query))
  }

  predicate MatchesCategory(e: SchemeEntry, category: string)
  {
    category == AllCategories || e.category == category
  }

  predicate Shown(e: SchemeEntry, query: string, category: string)
  {
    MatchesSearch(e, query) && MatchesCategory(e, category)
  }

  /** `filteredSchemes`: the entries that match both the search and the category, in catalogue order. */
  function Filtered(schemes: seq<SchemeEntry>, query: string, category: string): (r: seq<SchemeEntry>)
    ensures |r| <= |schemes|
    ensures forall e :: e in r <==> e in schemes && Shown(e, query, category)
  {
    Filter(schemes, (e: SchemeEntry) => Shown(e, query, category))
  }

  /** The two numbers of "Showing n of m schemes". */
  function ShowingCounts(schemes: seq<SchemeEntry>, query: string, category: string): (counts: (nat, nat))
    ensures counts.0 <= counts.1 && counts.1 == |schemes|
    ensures counts.0 == Count(schemes, (e: SchemeEntry) => Shown(e, query, category))
  {
    FilterLength(schemes, (e: SchemeEntry) => Shown(e, query, category));
    (|Filtered(schemes, query, category)|, |schemes|)
  }

  /** The narrowed list keeps the catalogue order: it is a subsequence of it. */
  lemma FilteredKeepsOrder(schemes: seq<SchemeEntry>, query: string, category: string)
    ensures IsSubsequence(Filtered(schemes, query, category), schemes)
  {
    FilterIsSubsequence(schemes, (e: SchemeEntry) => Shown(e, query, category));
  }

  /** The page's initial state (empty search, "All") shows the whole catalogue. */
  lemma EmptySearchShowsAll(schemes: seq<SchemeEntry>)
    ensures Filtered(schemes, "", AllCategories) == schemes
  {
    forall i | 0 <= i < |schemes|
      ensures Shown(schemes[i], "", AllCategories)
    {
      IncludesEmpty(Lower(schemes[i].title));
    }
    FilterKeepsAll(schemes, (e: SchemeEntry) => Shown(e, "", AllCategories));
  }

  /** Initially the page reads "Showing 12 of 12 schemes". */
  lemma InitialCounts()
    ensures ShowingCounts(AllSchemes, "", AllCategories) == (12, 12)
  {
    EmptySearchShowsAll(AllSchemes);
  }

  /** Applying the same search and category to the narrowed list changes nothing. */
  lemma FilteredIdempotent(schemes: seq<SchemeEntry>, query: string, category: string)
    ensures Filtered(Filtered(schemes, query, category), query, category) == Filtered(schemes, query, category)
  {
    FilterIdempotent(schemes, (e: SchemeEntry) => Shown(e, query, category));
  }

  /** The search ignores the case of the query. */
  lemma QueryCaseIgnored(schemes: seq<SchemeEntry>, query: string, category: string)
    ensures Filtered(schemes, Upper(query), category) == Filtered(schemes, query, category)
    ensures Filtered(schemes, Lower(query), category) == Filtered(schemes, query, category)
  {
    LowerOfUpper(query);
    LowerIdempotent(query);
    FilterAgree(schemes, (e: SchemeEntry) => Shown(e, Upper(query), category), (e: SchemeEntry) => Shown(e, query, category));
    FilterAgree(schemes, (e: SchemeEntry) => Shown(e, Lower(query), category), (e: SchemeEntry) => Shown(e, query, category));
  }

  /** Choosing a category never shows more than "All" does with the same search. */
  lemma CategoryNarrows(schemes: seq<SchemeEntry>, query: string, category: string)
    ensures |Filtered(schemes, query, category)| <= |Filtered(schemes, query, AllCategories)|
  {
    var p := (e: SchemeEntry) => Shown(e, query, category);
    var q := (e: SchemeEntry) => Shown(e, query, AllCategories);
    FilterLength(schemes, p);
    FilterLength(schemes, q);
    CountMonotonic(schemes, p, q);
  }
}
