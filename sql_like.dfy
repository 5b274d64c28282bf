/** SQLite's `LIKE` operator (no ESCAPE clause, default case folding), which
    `searchPlakalar` uses with the patterns `%query%` and `%location%`. */
module SqlLike {
  import opened Text

  /** `s LIKE p`: `%` matches any run of characters, `_` any one character,
      and any other character matches itself up to ASCII case. */
  predicate Like(s: string, p: string)
    decreases |s| + |p|
  {
    if p == [] then s == []
    else if p[0] == '%' then Like(s, p[1..]) || (s != [] && Like(s[1..], p))
    else s != [] && (p[0] == '_' || LowerChar(s[0]) == LowerChar(p[0])) && Like(s[1..], p[1..])
  }

  /** Text that `LIKE` reads literally. */
  predicate NoWildcards(q: string) {
    forall i :: 0 <= i < |q| ==> q[i] != '%' && q[i] != '_'
  }

  lemma {:induction false} LikeAnything(s: string)
    ensures Like(s, "%")
    decreases |s|
  {
    assert "%"[1..] == [];
    if s != [] {
      LikeAnything(s[1..]);
    }
  }

  /** A leading `%` tries every suffix of `s`. */
  lemma {:induction false} LikeLeadingPercent(s: string, rest: string)
    ensures Like(s, "%" + rest) <==> exists k :: 0 <= k <= |s| && Like(s[k..], rest)
    decreases |s|
  {
    var p := "%" + rest;
    assert p[1..] == rest;
    if s == [] {
      assert s[0..] == s;
    } else {
      LikeLeadingPercent(s[1..], rest);
      if Like(s, p) {
        if Like(s, rest) {
          assert s[0..] == s;
        } else {
          var k :| 0 <= k <= |s[1..]| && Like(s[1..][k..], rest);
          assert s[1..][k..] == s[k + 1..];
        }
      }
      if exists k :: 0 <= k <= |s| && Like(s[k..], rest) {
        var k :| 0 <= k <= |s| && Like(s[k..], rest);
        if k == 0 {
          assert s[0..] == s;
        } else {
          assert s[1..][k - 1..] == s[k..];
        }
      }
    }
  }

  /** `s LIKE 'q%'` for a literal `q`: `q` starts `s`, ignoring ASCII case. */
  lemma {:induction false} LikePrefix(s: string, q: string)
    requires NoWildcards(q)
    ensures Like(s, q + "%") <==> IsPrefix(Lower(q), Lower(s))
    decreases |q|
  {
    if q == [] {
      assert q + "%" == "%";
      LikeAnything(s);
    } else {
      var p := q + "%";
      assert p[0] == q[0] && p[1..] == q[1..] + "%";
      assert NoWildcards(q[1..]) by {
        assert forall i :: 0 <= i < |q[1..]| ==> q[1..][i] == q[i + 1];
      }
      if s != [] {
        LikePrefix(s[1..], q[1..]);
        assert Lower(q) == [LowerChar(q[0])] + Lower(q[1..]);
        assert Lower(s) == [LowerChar(s[0])] + Lower(s[1..]);
      }
    }
  }

  /** `s LIKE '%q%'` for a literal `q`: `s` contains `q`, ignoring ASCII case. */
  lemma LikeContains(s: string, q: string)
    requires NoWildcards(q)
    ensures Like(s, "%" + q + "%") <==> Contains(Lower(s), Lower(q))
  {
    assert "%" + q + "%" == "%" + (q + "%");
    LikeLeadingPercent(s, q + "%");
    if Like(s, "%" + q + "%") {
      var k :| 0 <= k <= |s| && Like(s[k..], q + "%");
      LikePrefix(s[k..], q);
      assert Lower(s[k..]) == Lower(s)[k..];
    }
    if Contains(Lower(s), Lower(q)) {
      var k :| 0 <= k <= |Lower(s)| && IsPrefix(Lower(q), Lower(s)[k..]);
      assert Lower(s[k..]) == Lower(s)[k..];
      LikePrefix(s[k..], q);
    }
  }

  /** The wildcards are not escaped: the query `_` matches any non-empty
      text, whether or not it contains an underscore. */
  lemma UnderscoreMatchesAnyText(s: string)
    requires s != []
    ensures Like(s, "%_%")
  {
    assert "%_%"[1..] == "_%" && "_%"[1..] == "%";
    LikeLeadingPercent(s, "_%");
    LikeAnything(s[1..]);
    assert s[0..] == s;
  }
}
