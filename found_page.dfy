/** The listing page of found plates: its copy of all posts, the posts on
    show and the filters, and `filterPosts`, which sorts locally when no
    text filter is set, asks the server's search otherwise, and filters and
    sorts locally when that request fails. */
module FoundPlatesPage {
  import opened Text
  import opened PlakaTypes

  // ------------------------------------------------------------ sorting

  /** `a` may be shown before `b` under the comparator of `filterPosts`:
      newest first for `Newest`, oldest first otherwise. */
  predicate Comes(a: PlakaPost, b: PlakaPost, sortBy: SortOrder) {
    if sortBy == Newest then a.createdAt >= b.createdAt else a.createdAt <= b.createdAt
  }

  /** `a` must be shown before `b`: the comparator puts it strictly first. */
  predicate StrictlyBefore(a: PlakaPost, b: PlakaPost, sortBy: SortOrder) {
    if sortBy == Newest then a.createdAt > b.createdAt else a.createdAt < b.createdAt
  }

  predicate SortedBy(s: seq<PlakaPost>, sortBy: SortOrder) {
    forall i, j :: 0 <= i < j < |s| ==> Comes(s[i], s[j], sortBy)
  }

  /** The posts of `s` created at tick `t`, in their order in `s`. */
  function CreatedAt(s: seq<PlakaPost>, t: int): (r: seq<PlakaPost>)
    ensures |r| <= |s|
  {
    if s == [] then []
    else if s[0].createdAt == t then [s[0]] + CreatedAt(s[1..], t)
    else CreatedAt(s[1..], t)
  }

  /** Puts `x` into the sorted `t` ahead of every post it does not have to
      follow, so that it stays ahead of posts created at the same tick. */
  function Place(x: PlakaPost, t: seq<PlakaPost>, sortBy: SortOrder): (r: seq<PlakaPost>)
    ensures multiset(r) == multiset(t) + multiset{x}
  {
    if t == [] || !StrictlyBefore(t[0], x, sortBy) then [x] + t
    else
      assert t == [t[0]] + t[1..];
      [t[0]] + Place(x, t[1..], sortBy)
  }

  lemma {:induction false} PlaceSorted(x: PlakaPost, t: seq<PlakaPost>, sortBy: SortOrder)
    requires SortedBy(t, sortBy)
    ensures SortedBy(Place(x, t, sortBy), sortBy)
  {
    if t == [] || !StrictlyBefore(t[0], x, sortBy) {
      forall y | y in t
        ensures Comes(x, y, sortBy)
      {
        var k :| 0 <= k < |t| && t[k] == y;
        assert Comes(t[0], t[k], sortBy) || k == 0;
      }
      SortedCons(x, t, sortBy);
    } else {
      var rest := Place(x, t[1..], sortBy);
      PlaceSorted(x, t[1..], sortBy);
      assert multiset(rest) == multiset(t[1..]) + multiset{x};
      forall y | y in rest
        ensures Comes(t[0], y, sortBy)
      {
        assert y in multiset(rest);
        if y != x {
          assert y in multiset(t[1..]);
          var k :| 0 <= k < |t[1..]| && t[1..][k] == y;
          assert t[k + 1] == y;
        }
      }
      SortedCons(t[0], rest, sortBy);
    }
  }

  /** A post that comes before every post of a sorted list can head it. */
  lemma SortedCons(h: PlakaPost, r: seq<PlakaPost>, sortBy: SortOrder)
    requires SortedBy(r, sortBy)
    requires forall y :: y in r ==> Comes(h, y, sortBy)
    ensures SortedBy([h] + r, sortBy)
  {
    var s := [h] + r;
    forall i, j | 0 <= i < j < |s|
      ensures Comes(s[i], s[j], sortBy)
    {
      assert s[j] == r[j - 1];
      if i > 0 {
        assert s[i] == r[i - 1];
      }
    }
  }

  lemma {:induction false} PlaceKeepsTies(x: PlakaPost, t: seq<PlakaPost>, sortBy: SortOrder, c: int)
    ensures CreatedAt(Place(x, t, sortBy), c) == if x.createdAt == c then [x] + CreatedAt(t, c) else CreatedAt(t, c)
  {
    if t == [] || !StrictlyBefore(t[0], x, sortBy) {
      assert ([x] + t)[1..] == t;
    } else {
      PlaceKeepsTies(x, t[1..], sortBy, c);
      assert ([t[0]] + Place(x, t[1..], sortBy))[1..] == Place(x, t[1..], sortBy);
      if x.createdAt == c {
        assert t[0].createdAt != c;
      }
    }
  }

  /** `[...posts].sort(comparator)`: `Array.prototype.sort` is stable, so
      this is the stable sort by creation time, in the chosen direction. */
  function SortPosts(s: seq<PlakaPost>, sortBy: SortOrder): (r: seq<PlakaPost>)
    ensures multiset(r) == multiset(s)
  {
    if s == [] then []
    else
      assert s == [s[0]] + s[1..];
      Place(s[0], SortPosts(s[1..], sortBy), sortBy)
  }

  /** The result is sorted in the chosen direction. */
  lemma {:induction false} SortPostsSorted(s: seq<PlakaPost>, sortBy: SortOrder)
    ensures SortedBy(SortPosts(s, sortBy), sortBy)
  {
    if s != [] {
      SortPostsSorted(s[1..], sortBy);
      PlaceSorted(s[0], SortPosts(s[1..], sortBy), sortBy);
    }
  }

  /** The sort is stable: posts created at the same tick keep their order. */
  lemma {:induction false} SortPostsStable(s: seq<PlakaPost>, sortBy: SortOrder, c: int)
    ensures CreatedAt(SortPosts(s, sortBy), c) == CreatedAt(s, c)
  {
    if s != [] {
      SortPostsStable(s[1..], sortBy, c);
      PlaceKeepsTies(s[0], SortPosts(s[1..], sortBy), sortBy, c);
    }
  }

  /** Sorting a list that is already sorted changes nothing. */
  lemma {:induction false} SortPostsSortedInput(s: seq<PlakaPost>, sortBy: SortOrder)
    requires SortedBy(s, sortBy)
    ensures SortPosts(s, sortBy) == s
  {
    if s != [] {
      assert SortedBy(s[1..], sortBy) by {
        forall i, j | 0 <= i < j < |s[1..]|
          ensures Comes(s[1..][i], s[1..][j], sortBy)
        {
          assert s[1..][i] == s[i + 1] && s[1..][j] == s[j + 1];
        }
      }
      SortPostsSortedInput(s[1..], sortBy);
      if |s| > 1 {
        assert Comes(s[0], s[1], sortBy);
      }
    }
  }

  // ---------------------------------------------------------- filtering

  /** `Array.prototype.filter`. */
  function Keep(s: seq<PlakaPost>, f: PlakaPost -> bool): (r: seq<PlakaPost>)
    ensures |r| <= |s|
  {
    if s == [] then []
    else if f(s[0]) then [s[0]] + Keep(s[1..], f)
    else Keep(s[1..], f)
  }

  /** Exactly the posts that pass are kept. */
  lemma {:induction false} KeepMembers(s: seq<PlakaPost>, f: PlakaPost -> bool, p: PlakaPost)
    ensures p in Keep(s, f) <==> p in s && f(p)
  {
    if s != [] {
      KeepMembers(s[1..], f, p);
      assert s == [s[0]] + s[1..];
    }
  }

  /** The fallback query filter: the lower-cased query occurs in the lower-
      cased title, the description or a non-empty plate number. */
  predicate QueryMatch(p: PlakaPost, query: string) {
    || Contains(Lower(p.title), Lower(query))
    || Contains(Lower(p.description), Lower(query))
    || (Truthy(p.plateNumber) && Contains(Lower(p.plateNumber.value), Lower(query)))
  }

  /** The fallback location filter: the post has a non-empty location in
      which the lower-cased filter occurs. */
  predicate LocationMatch(p: PlakaPost, location: string) {
    Truthy(p.location) && Contains(Lower(p.location.value), Lower(location))
  }

  /** The client-side fallback: filter by each text filter that is set,
      then sort. */
  function Fallback(posts: seq<PlakaPost>, filters: SearchFilters): seq<PlakaPost> {
    var byQuery := if filters.query != "" then Keep(posts, p => QueryMatch(p, filters.query)) else posts;
    var byLocation := if filters.location != "" then Keep(byQuery, p => LocationMatch(p, filters.location)) else byQuery;
    SortPosts(byLocation, filters.sortBy)
  }

  /** A post is shown by the fallback iff it is one of the page's posts
      and passes every filter that is set; the result is sorted. */
  lemma FallbackMembers(posts: seq<PlakaPost>, filters: SearchFilters, p: PlakaPost)
    ensures p in Fallback(posts, filters) <==>
      && p in posts
      && (filters.query != "" ==> QueryMatch(p, filters.query))
      && (filters.location != "" ==> LocationMatch(p, filters.location))
    ensures SortedBy(Fallback(posts, filters), filters.sortBy)
  {
    var byQuery := if filters.query != "" then Keep(posts, p => QueryMatch(p, filters.query)) else posts;
    var byLocation := if filters.location != "" then Keep(byQuery, p => LocationMatch(p, filters.location)) else byQuery;
    if filters.query != "" {
      KeepMembers(posts, p => QueryMatch(p, filters.query), p);
    }
    if filters.location != "" {
      KeepMembers(byQuery, p => LocationMatch(p, filters.location), p);
    }
    assert p in multiset(Fallback(posts, filters)) <==> p in multiset(byLocation);
    SortPostsSorted(byLocation, filters.sortBy);
  }

  // --------------------------------------------------------------- page

  /** How the search request of `filterPosts` settled: a reply, whose
      `data` may be missing, or a rejection. */
  datatype SearchOutcome = Answered(data: Option<seq<PlakaPost>>) | Failed

  /** The value `filterPosts` gives `filteredPosts`. */
  function Shown(posts: seq<PlakaPost>, filters: SearchFilters, outcome: SearchOutcome): seq<PlakaPost> {
    if filters.query == "" && filters.location == "" then SortPosts(posts, filters.sortBy)
    else match outcome
      case Answered(data) => if data.Some? then data.value else []
      case Failed => Fallback(posts, filters)
  }

  /** One change of a filter control. */
  datatype FilterChange = SetQuery(query: string) | SetLocation(location: string) | SetSortBy(sortBy: SortOrder)

  const DefaultFilters := SearchFilters("", "", Newest)

  class FoundPlates {
    var posts: seq<PlakaPost>
    var filteredPosts: seq<PlakaPost>
    var filters: SearchFilters

    constructor()
      ensures posts == [] && filteredPosts == [] && filters == DefaultFilters
    {
      posts := [];
      filteredPosts := [];
      filters := DefaultFilters;
    }

    /** `filterPosts`, with the settled search request as a parameter: it
      replaces only `filteredPosts` and works on a copy of `posts`. */
    method FilterPosts(outcome: SearchOutcome)
      modifies this
      ensures filteredPosts == Shown(posts, filters, outcome)
      ensures posts == old(posts) && filters == old(filters)
    {
      if filters.query == "" && filters.location == "" {
        filteredPosts := SortPosts(posts, filters.sortBy);
        return;
      }
      match outcome
      case Answered(data) =>
        filteredPosts := if data.Some? then data.value else [];
      case Failed =>
        var filtered := posts;
        if filters.query != "" {
          var query := filters.query;
          filtered := Keep(filtered, p => QueryMatch(p, query));
        }
        if filters.location != "" {
          var location := filters.location;
          filtered := Keep(filtered, p => LocationMatch(p, location));
        }
        filteredPosts := SortPosts(filtered, filters.sortBy);
    }

    /** `handleFilterChange`: one filter takes the new value, the others
      keep theirs. */
    method HandleFilterChange(change: FilterChange)
      modifies this
      ensures change.SetQuery? ==> filters == old(filters).(query := change.query)
      ensures change.SetLocation? ==> filters == old(filters).(location := change.location)
      ensures change.SetSortBy? ==> filters == old(filters).(sortBy := change.sortBy)
      ensures posts == old(posts) && filteredPosts == old(filteredPosts)
    {
      match change
      case SetQuery(query) => filters := filters.(query := query);
      case SetLocation(location) => filters := filters.(location := location);
      case SetSortBy(sortBy) => filters := filters.(sortBy := sortBy);
    }

    /** `clearFilters`: back to no text filter, newest first. */
    method ClearFilters()
      modifies this
      ensures filters == DefaultFilters
      ensures posts == old(posts) && filteredPosts == old(filteredPosts)
    {
      filters := DefaultFilters;
    }
  }

  /** With no text filter the page shows every post, each as often as it
      is loaded, newest first unless oldest first is chosen; a request
      outcome plays no part. */
  lemma UnfilteredShowsAll(posts: seq<PlakaPost>, filters: SearchFilters, outcome: SearchOutcome)
    requires filters.query == "" && filters.location == ""
    ensures multiset(Shown(posts, filters, outcome)) == multiset(posts)
    ensures SortedBy(Shown(posts, filters, outcome), filters.sortBy)
    ensures Shown(posts, filters, outcome) == Shown(posts, filters, Failed)
  {
    SortPostsSorted(posts, filters.sortBy);
  }

  /** After clearing the filters, the posts are shown newest first. */
  lemma ClearedShowsNewestFirst(posts: seq<PlakaPost>, outcome: SearchOutcome)
    ensures SortedBy(Shown(posts, DefaultFilters, outcome), Newest)
    ensures multiset(Shown(posts, DefaultFilters, outcome)) == multiset(posts)
  {
    SortPostsSorted(posts, Newest);
  }
}
