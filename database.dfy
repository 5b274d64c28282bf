/** The `plaka_posts` table and the six queries the server runs on it. The
    table is held in memory as a map from id to row; `nextId` is the
    AUTOINCREMENT counter, which only grows, so an id is never handed out
    twice, not even after its row is deleted. `created_at` is an integer
    tick given by the caller; `updated_at` is set on insert only. */
module Database {
  import opened Text
  import opened PlakaTypes
  import opened SqlLike

  /** Why a statement fails: a NOT NULL column bound to null. */
  datatype StoreError = NotNullViolation

  /** A row is in the table under its own id. */
  predicate InTable(rows: map<int, PlakaPost>, p: PlakaPost) {
    p.id in rows && rows[p.id] == p
  }

  /** `ORDER BY created_at ASC` as SQLite carries it out through the index on
      `created_at`: rows with equal timestamps come in rowid order. */
  predicate Earlier(a: PlakaPost, b: PlakaPost) {
    a.createdAt < b.createdAt || (a.createdAt == b.createdAt && a.id < b.id)
  }

  /** `a` is listed before `b`; `descending` reverses the whole order. */
  predicate Before(a: PlakaPost, b: PlakaPost, descending: bool) {
    if descending then Earlier(b, a) else Earlier(a, b)
  }

  predicate Ordered(s: seq<PlakaPost>, descending: bool) {
    forall i, j :: 0 <= i < j < |s| ==> Before(s[i], s[j], descending)
  }

  /** An ordered listing is sorted by `created_at` in its direction. */
  lemma OrderedByCreation(s: seq<PlakaPost>, descending: bool, i: int, j: int)
    requires Ordered(s, descending) && 0 <= i < j < |s|
    ensures descending ==> s[i].createdAt >= s[j].createdAt
    ensures !descending ==> s[i].createdAt <= s[j].createdAt
  {
  }

  lemma FirstIn<T>(s: seq<T>)
    requires s != []
    ensures s[0] in s
  {
  }

  lemma NothingIsEmpty<T>(s: seq<T>)
    requires forall p :: p !in s
    ensures s == []
  {
    if s != [] {
      FirstIn(s);
      assert false;
    }
  }

  /** Two ordered listings of the same rows are the same listing. */
  lemma {:induction false} OrderedUnique(a: seq<PlakaPost>, b: seq<PlakaPost>, descending: bool)
    requires Ordered(a, descending) && Ordered(b, descending)
    requires forall p :: p in a <==> p in b
    ensures a == b
    decreases |a|
  {
    if a != [] {
      assert a[0] in b;
      assert b != [] && b[0] in a;
      var k :| 0 <= k < |b| && b[k] == a[0];
      var m :| 0 <= m < |a| && a[m] == b[0];
      assert k > 0 ==> Before(b[0], a[0], descending);
      assert m > 0 ==> Before(a[0], b[0], descending);
      assert a[0] == b[0];
      forall p | p in a[1..]
        ensures p in b[1..]
      {
        var i :| 1 <= i < |a| && a[i] == p;
        assert Before(a[0], p, descending) && p in a;
        var k :| 0 <= k < |b| && b[k] == p;
        assert k != 0;
      }
      forall p | p in b[1..]
        ensures p in a[1..]
      {
        var i :| 1 <= i < |b| && b[i] == p;
        assert Before(b[0], p, descending) && p in b;
        var k :| 0 <= k < |a| && a[k] == p;
        assert k != 0;
      }
      OrderedUnique(a[1..], b[1..], descending);
      assert a == [a[0]] + a[1..] && b == [b[0]] + b[1..];
    } else {
      NothingIsEmpty(b);
    }
  }

  /** Placing a row into an ordered listing, as the sorter of the query engine does. */
  function Insert(x: PlakaPost, s: seq<PlakaPost>, descending: bool): (r: seq<PlakaPost>)
    ensures multiset(r) == multiset(s) + multiset{x}
  {
    if s == [] || Before(x, s[0], descending) then
      [x] + s
    else
      assert s == [s[0]] + s[1..];
      [s[0]] + Insert(x, s[1..], descending)
  }

  /** Placing a row with a new id keeps a listing ordered. */
  lemma {:induction false} InsertOrdered(x: PlakaPost, s: seq<PlakaPost>, descending: bool)
    requires Ordered(s, descending)
    requires forall i :: 0 <= i < |s| ==> s[i].id != x.id
    ensures Ordered(Insert(x, s, descending), descending)
  {
    if s != [] && !Before(x, s[0], descending) {
      var t := Insert(x, s[1..], descending);
      InsertOrdered(x, s[1..], descending);
      forall y | y in t ensures Before(s[0], y, descending) {
        assert y in multiset(t);
        if y != x {
          assert y in s[1..];
        }
      }
    }
  }

  /** The `WHERE` clause that `searchPlakalar` builds: `1=1`, then
      `(title LIKE ? OR description LIKE ? OR plate_number LIKE ?)` when a
      query is given, then `location LIKE ?` when a location is given. A
      null column never matches. */
  datatype Condition = TextLike | LocationLike

  function Arity(c: Condition): nat {
    match c
    case TextLike => 3
    case LocationLike => 1
  }

  function ParamCount(conds: seq<Condition>): nat {
    if conds == [] then 0 else Arity(conds[0]) + ParamCount(conds[1..])
  }

  predicate NullableLike(v: Option<string>, pattern: string) {
    v.Some? && Like(v.value, pattern)
  }

  /** Whether a row passes the conditions with the parameters bound in order. */
  predicate Satisfies(p: PlakaPost, conds: seq<Condition>, params: seq<string>)
    requires |params| == ParamCount(conds)
  {
    if conds == [] then true
    else match conds[0]
      case TextLike =>
        (Like(p.title, params[0]) || Like(p.description, params[1]) || NullableLike(p.plateNumber, params[2]))
        && Satisfies(p, conds[1..], params[3..])
      case LocationLike =>
        NullableLike(p.location, params[0]) && Satisfies(p, conds[1..], params[1..])
  }

  /** The pattern `%text%`. */
  function Surround(text: string): string {
    "%" + text + "%"
  }

  /** The query filter of `searchPlakalar`: none for a falsy query, else a
      match in title, description or plate number. */
  predicate QueryKeeps(query: Option<string>, p: PlakaPost) {
    var pat := if query.Some? then Surround(query.value) else "";
    !Truthy(query) || Like(p.title, pat) || Like(p.description, pat) || NullableLike(p.plateNumber, pat)
  }

  /** The location filter of `searchPlakalar`: none for a falsy location,
      else the row has a location that matches. */
  predicate LocationKeeps(location: Option<string>, p: PlakaPost) {
    !Truthy(location) || NullableLike(p.location, Surround(location.value))
  }

  /** `r` is what a `SELECT` returns: exactly the rows that pass, in order. */
  ghost predicate Answers(r: seq<PlakaPost>, rows: map<int, PlakaPost>, conds: seq<Condition>, params: seq<string>, descending: bool)
    requires |params| == ParamCount(conds)
  {
    && Ordered(r, descending)
    && (forall p :: p in r <==> InTable(rows, p) && Satisfies(p, conds, params))
  }

  class PlakaStore {
    var rows: map<int, PlakaPost>
    var nextId: int
    /** The ids handed out so far, whether or not their rows still exist. */
    ghost var issued: set<int>

    /** Every row sits under its own id; the ids issued are those below the counter. */
    ghost predicate Valid()
      reads this
    {
      && nextId >= 1
      && (forall id :: id in issued <==> 1 <= id < nextId)
      && (forall id :: id in rows ==> id in issued && rows[id].id == id)
    }

    constructor ()
      ensures Valid() && rows == map[] && issued == {}
    {
      rows := map[];
      nextId := 1;
      issued := {};
    }

    /** Runs a `SELECT * FROM plaka_posts WHERE … ORDER BY created_at …`. */
    method Select(conds: seq<Condition>, params: seq<string>, descending: bool) returns (r: seq<PlakaPost>)
      requires Valid() && |params| == ParamCount(conds)
      ensures Answers(r, rows, conds, params, descending)
    {
      r := [];
      var id := 1;
      while id < nextId
        invariant 1 <= id <= nextId
        invariant Ordered(r, descending)
        invariant forall p :: p in r <==> InTable(rows, p) && p.id < id && Satisfies(p, conds, params)
      {
        if id in rows && Satisfies(rows[id], conds, params) {
          var x := rows[id];
          assert forall i :: 0 <= i < |r| ==> r[i].id != x.id by {
            forall i | 0 <= i < |r| ensures r[i].id != x.id {
              assert r[i] in r;
            }
          }
          var r' := Insert(x, r, descending);
          InsertOrdered(x, r, descending);
          forall p ensures p in r' <==> p in r || p == x {
            calc {
              p in r';
              p in multiset(r');
              p in multiset(r) + multiset{x};
            }
          }
          r := r';
        }
        id := id + 1;
      }
    }

    /** `getAllPlakalar`: every row, newest first. */
    method GetAll() returns (r: seq<PlakaPost>)
      requires Valid()
      ensures Ordered(r, true)
      ensures forall p :: p in r <==> InTable(rows, p)
    {
      r := Select([], [], true);
    }

    /** `getPlakaById`: the row, or no row (not an error) for an unknown id. */
    method GetById(id: int) returns (r: Option<PlakaPost>)
      requires Valid()
      ensures r.Some? <==> id in rows
      ensures r.Some? ==> InTable(rows, r.value) && r.value.id == id
    {
      if id in rows {
        r := Some(rows[id]);
      } else {
        r := None;
      }
    }

    /** `addPlaka`: inserts a row under a fresh id and returns the id. */
    method Add(title: string, description: string, imageUrl: string, location: Option<string>, plateNumber: Option<string>, now: int)
      returns (id: int)
      requires Valid()
      modifies this
      ensures Valid()
      ensures id !in old(issued) && issued == old(issued) + {id}
      ensures rows == old(rows)[id := PlakaPost(id, title, description, imageUrl, location, plateNumber, now, now)]
    {
      id := nextId;
      rows := rows[id := PlakaPost(id, title, description, imageUrl, location, plateNumber, now, now)];
      nextId := nextId + 1;
      issued := issued + {id};
    }

    /** `updatePlaka`: the number of rows changed, or the NOT NULL failure when
        the row exists and title, description or image URL is missing (the
        table is then left as it was). SQLite checks the constraint only on
        the rows the statement writes, so an absent id changes nothing and
        reports 0 whatever the values. */
    method Update(id: int, title: Option<string>, description: Option<string>, imageUrl: Option<string>,
                  location: Option<string>, plateNumber: Option<string>)
      returns (r: Result<int, StoreError>)
      requires Valid()
      modifies this
      ensures Valid() && issued == old(issued)
      ensures r.Err? <==> id in old(rows) && (title.None? || description.None? || imageUrl.None?)
      ensures id !in old(rows) ==> r == Ok(0) && rows == old(rows)
      ensures r.Err? ==> rows == old(rows)
      ensures r.Ok? ==> r.value == (if id in old(rows) then 1 else 0)
      ensures r.Ok? && id in old(rows) ==>
        var o := old(rows)[id];
        rows == old(rows)[id := PlakaPost(id, title.value, description.value, imageUrl.value, location, plateNumber, o.createdAt, o.updatedAt)]
    {
      if id !in rows {
        return Ok(0);
      }
      if title.None? || description.None? || imageUrl.None? {
        return Err(NotNullViolation);
      }
      var o := rows[id];
      rows := rows[id := o.(title := title.value, description := description.value, imageUrl := imageUrl.value,
                            location := location, plateNumber := plateNumber)];
      r := Ok(1);
    }

    /** `deletePlaka`: the number of rows removed. */
    method Delete(id: int) returns (changes: int)
      requires Valid()
      modifies this
      ensures Valid() && issued == old(issued)
      ensures changes == (if id in old(rows) then 1 else 0)
      ensures rows == old(rows) - {id}
    {
      changes := if id in rows then 1 else 0;
      rows := rows - {id};
    }

    /** `searchPlakalar`: the statement and its parameters are built clause by
        clause; the result holds the rows that both filters keep, oldest first
        when `sortBy` is `"oldest"` and newest first for any other value. */
    method Search(query: Option<string>, location: Option<string>, sortBy: string) returns (r: seq<PlakaPost>)
      requires Valid()
      ensures Ordered(r, sortBy != "oldest")
      ensures forall p :: p in r <==> InTable(rows, p) && QueryKeeps(query, p) && LocationKeeps(location, p)
    {
      var conds: seq<Condition> := [];
      var params: seq<string> := [];
      if Truthy(query) {
        conds := conds + [TextLike];
        var pat := Surround(query.value);
        params := params + [pat, pat, pat];
      }
      if Truthy(location) {
        conds := conds + [LocationLike];
        params := params + [Surround(location.value)];
      }
      SearchConditions(query, location, conds, params);
      r := Select(conds, params, sortBy != "oldest");
    }
  }

  /** The conditions and parameters `searchPlakalar` builds keep exactly the
      rows both filters keep. */
  lemma SearchConditions(query: Option<string>, location: Option<string>, conds: seq<Condition>, params: seq<string>)
    requires var q := if Truthy(query) then [TextLike] else [];
      conds == q + if Truthy(location) then [LocationLike] else []
    requires var q := if Truthy(query) then [Surround(query.value), Surround(query.value), Surround(query.value)] else [];
      params == q + if Truthy(location) then [Surround(location.value)] else []
    ensures |params| == ParamCount(conds)
    ensures forall p :: Satisfies(p, conds, params) <==> QueryKeeps(query, p) && LocationKeeps(location, p)
  {
    if Truthy(query) && Truthy(location) {
      assert conds == [TextLike, LocationLike];
      forall p ensures Satisfies(p, conds, params) <==> QueryKeeps(query, p) && LocationKeeps(location, p) {
        SatisfiesBoth(p, Surround(query.value), Surround(location.value));
      }
    } else if Truthy(query) {
      assert conds == [TextLike];
      forall p ensures Satisfies(p, conds, params) <==> QueryKeeps(query, p) && LocationKeeps(location, p) {
        SatisfiesText(p, Surround(query.value));
      }
    } else if Truthy(location) {
      assert conds == [LocationLike];
      forall p ensures Satisfies(p, conds, params) <==> QueryKeeps(query, p) && LocationKeeps(location, p) {
        SatisfiesLocation(p, Surround(location.value));
      }
    } else {
      assert conds == [] && params == [];
    }
  }

  lemma SatisfiesBoth(p: PlakaPost, q: string, l: string)
    ensures Satisfies(p, [TextLike, LocationLike], [q, q, q, l]) <==>
      (Like(p.title, q) || Like(p.description, q) || NullableLike(p.plateNumber, q)) && NullableLike(p.location, l)
  {
    assert [TextLike, LocationLike][1..] == [LocationLike] && [q, q, q, l][3..] == [l];
    SatisfiesLocation(p, l);
  }

  lemma SatisfiesText(p: PlakaPost, q: string)
    ensures Satisfies(p, [TextLike], [q, q, q]) <==>
      Like(p.title, q) || Like(p.description, q) || NullableLike(p.plateNumber, q)
  {
    assert [TextLike][1..] == [] && [q, q, q][3..] == [];
  }

  lemma SatisfiesLocation(p: PlakaPost, l: string)
    ensures Satisfies(p, [LocationLike], [l]) <==> NullableLike(p.location, l)
  {
    assert [LocationLike][1..] == [] && [l][1..] == [];
  }

  /** With no query, no location and any `sortBy` but `"oldest"`, a search
      lists the same rows in the same order as `getAllPlakalar`. */
  lemma UnfilteredSearchIsGetAll(all: seq<PlakaPost>, found: seq<PlakaPost>, rows: map<int, PlakaPost>,
                                 query: Option<string>, location: Option<string>)
    requires !Truthy(query) && !Truthy(location)
    requires Ordered(all, true) && forall p :: p in all <==> InTable(rows, p)
    requires Ordered(found, true)
    requires forall p :: p in found <==> InTable(rows, p) && QueryKeeps(query, p) && LocationKeeps(location, p)
    ensures found == all
  {
    OrderedUnique(found, all, true);
  }

  /** For a literal query the filter is a case-insensitive substring match. */
  lemma QueryKeepsLiteral(query: string, p: PlakaPost)
    requires query != [] && NoWildcards(query)
    ensures QueryKeeps(Some(query), p) <==>
      || Contains(Lower(p.title), Lower(query))
      || Contains(Lower(p.description), Lower(query))
      || (p.plateNumber.Some? && Contains(Lower(p.plateNumber.value), Lower(query)))
  {
    LikeContains(p.title, query);
    LikeContains(p.description, query);
    if p.plateNumber.Some? {
      LikeContains(p.plateNumber.value, query);
    }
  }

  /** For a literal location the filter is a case-insensitive substring match
      on a present location. */
  lemma LocationKeepsLiteral(location: string, p: PlakaPost)
    requires location != [] && NoWildcards(location)
    ensures LocationKeeps(Some(location), p) <==>
      p.location.Some? && Contains(Lower(p.location.value), Lower(location))
  {
    if p.location.Some? {
      LikeContains(p.location.value, location);
    }
  }
}
