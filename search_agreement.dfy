/** The listing page's local fallback against the server's search. For ASCII
    text (the page's `toLowerCase` also folds letters such as `Ş` and `İ`,
    which SQLite's LIKE leaves as they are), and when the text filters hold
    no LIKE wildcard (`%` or `_`), the fallback keeps exactly the posts the
    search would have returned for the filters the page sends, and both
    lists run in the same `created_at` direction; they can differ only in
    how posts with equal timestamps are ordered. */
module SearchAgreement {
  import opened Text
  import opened PlakaTypes
  import opened SqlLike
  import opened Database
  import opened FoundPlatesPage

  /** The post's searched text is all ASCII. */
  predicate AsciiPost(p: PlakaPost) {
    && Ascii(p.title) && Ascii(p.description)
    && (p.plateNumber.Some? ==> Ascii(p.plateNumber.value))
    && (p.location.Some? ==> Ascii(p.location.value))
  }

  /** A non-empty filter occurs in no empty text. */
  lemma NotInEmpty(filter: string)
    requires filter != []
    ensures !Contains([], Lower(filter))
  {
    assert |Lower(filter)| > 0;
  }

  /** The fallback's query test and the server's, for a query the page sends. */
  lemma QueryAgrees(query: string, p: PlakaPost)
    requires query != [] && NoWildcards(query)
    requires Ascii(query) && AsciiPost(p)
    ensures QueryMatch(p, query) <==> QueryKeeps(OrNull(Some(query)), p)
  {
    QueryKeepsLiteral(query, p);
    if p.plateNumber == Some([]) {
      NotInEmpty(query);
    }
  }

  /** The fallback's location test and the server's, for a location the page sends. */
  lemma LocationAgrees(location: string, p: PlakaPost)
    requires location != [] && NoWildcards(location)
    requires Ascii(location) && AsciiPost(p)
    ensures LocationMatch(p, location) <==> LocationKeeps(OrNull(Some(location)), p)
  {
    LocationKeepsLiteral(location, p);
    if p.location == Some([]) {
      NotInEmpty(location);
    }
  }

  /** An ASCII post is kept by the fallback iff it is one of the page's
      posts and passes the server's filters for `q` and `location` as the
      page sends them (an empty filter is not sent). */
  lemma FallbackAgreesWithSearch(posts: seq<PlakaPost>, filters: SearchFilters, p: PlakaPost)
    requires NoWildcards(filters.query) && NoWildcards(filters.location)
    requires Ascii(filters.query) && Ascii(filters.location) && AsciiPost(p)
    ensures p in Fallback(posts, filters) <==>
      && p in posts
      && QueryKeeps(OrNull(Some(filters.query)), p)
      && LocationKeeps(OrNull(Some(filters.location)), p)
  {
    FallbackMembers(posts, filters, p);
    if filters.query != "" {
      QueryAgrees(filters.query, p);
    }
    if filters.location != "" {
      LocationAgrees(filters.location, p);
    }
  }

  /** A listing in the table's order is sorted by the page's comparator in
      the same direction. */
  lemma OrderedIsSorted(s: seq<PlakaPost>, sortBy: SortOrder)
    requires Ordered(s, sortBy == Newest)
    ensures SortedBy(s, sortBy)
  {
    forall i, j | 0 <= i < j < |s|
      ensures Comes(s[i], s[j], sortBy)
    {
      OrderedByCreation(s, sortBy == Newest, i, j);
    }
  }

  /** When the page holds the whole table and all its text is ASCII, the
      fallback shows the same posts as the search answer `found`, and both
      are sorted newest or oldest first as the filters ask. */
  lemma FallbackShowsSearchAnswer(rows: map<int, PlakaPost>, posts: seq<PlakaPost>, filters: SearchFilters, found: seq<PlakaPost>)
    requires NoWildcards(filters.query) && NoWildcards(filters.location)
    requires Ascii(filters.query) && Ascii(filters.location)
    requires forall p :: p in posts ==> AsciiPost(p)
    requires forall p :: p in posts <==> InTable(rows, p)
    requires Ordered(found, filters.sortBy == Newest)
    requires forall p :: p in found <==>
      InTable(rows, p) && QueryKeeps(OrNull(Some(filters.query)), p) && LocationKeeps(OrNull(Some(filters.location)), p)
    ensures forall p :: p in Fallback(posts, filters) <==> p in found
    ensures SortedBy(Fallback(posts, filters), filters.sortBy) && SortedBy(found, filters.sortBy)
  {
    forall p
      ensures p in Fallback(posts, filters) <==> p in found
    {
      FallbackMembers(posts, filters, p);
      if p in posts {
        FallbackAgreesWithSearch(posts, filters, p);
      }
    }
    FallbackMembers(posts, filters, PlakaPost(0, [], [], [], None, None, 0, 0));
    OrderedIsSorted(found, filters.sortBy);
  }
}
