/** HTML escaping as the browser performs it when the text of an element is
    read back as markup (`textContent` set, `innerHTML` read): the "escaping a
    string" algorithm of section 13.3 of the WHATWG HTML Living Standard, not in
    attribute mode. It replaces `&`, U+00A0, `<` and `>` by character
    references and keeps every other character. */
module Html {
  import opened Text

  const Nbsp: char := '\U{00A0}'

  predicate IsSpecial(c: char) {
    c == '&' || c == Nbsp || c == '<' || c == '>'
  }

  function EscapeChar(c: char): (r: string)
    ensures !IsSpecial(c) ==> r == [c]
    ensures IsSpecial(c) ==> |r| >= 4 && r[0] == '&' && r[|r| - 1] == ';'
  {
    if c == '&' then "&amp;"
    else if c == Nbsp then "&nbsp;"
    else if c == '<' then "&lt;"
    else if c == '>' then "&gt;"
    else [c]
  }

  /** The markup that `escapeHtml` returns for `s`. */
  function EscapeHtml(s: string): (r: string)
    ensures forall i :: 0 <= i < |r| ==> r[i] != '<' && r[i] != '>' && r[i] != Nbsp
    ensures |r| >= |s|
    ensures s == [] <==> r == []
  {
    if s == [] then [] else EscapeChar(s[0]) + EscapeHtml(s[1..])
  }

  /** Decoding the four references that `EscapeHtml` produces. */
  function Unescape(s: string): string {
    if s == [] then []
    else if IsPrefix("&amp;", s) then "&" + Unescape(s[5..])
    else if IsPrefix("&nbsp;", s) then [Nbsp] + Unescape(s[6..])
    else if IsPrefix("&lt;", s) then "<" + Unescape(s[4..])
    else if IsPrefix("&gt;", s) then ">" + Unescape(s[4..])
    else [s[0]] + Unescape(s[1..])
  }

  /** Escaping loses nothing: decoding the escaped text gives the text back. */
  lemma {:induction false} UnescapeEscape(s: string)
    ensures Unescape(EscapeHtml(s)) == s
  {
    if s != [] {
      UnescapeEscape(s[1..]);
      UnescapeChar(s[0], EscapeHtml(s[1..]));
      assert s == [s[0]] + s[1..];
    }
  }

  /** Decoding reads back one escaped character and carries on behind it. */
  lemma UnescapeChar(c: char, tail: string)
    ensures Unescape(EscapeChar(c) + tail) == [c] + Unescape(tail)
  {
    if c == '&' {
      UnescapeAmp(tail);
    } else if c == Nbsp {
      UnescapeNbsp(tail);
    } else if c == '<' {
      UnescapeLt(tail);
    } else if c == '>' {
      UnescapeGt(tail);
    } else {
      var e := [c] + tail;
      assert e[0] == c != '&' && e[1..] == tail;
    }
  }

  lemma UnescapeAmp(tail: string)
    ensures Unescape("&amp;" + tail) == "&" + Unescape(tail)
  {
    var e := "&amp;" + tail;
    assert IsPrefix("&amp;", e) && e[5..] == tail;
  }

  lemma UnescapeNbsp(tail: string)
    ensures Unescape("&nbsp;" + tail) == [Nbsp] + Unescape(tail)
  {
    var e := "&nbsp;" + tail;
    assert !IsPrefix("&amp;", e) by { assert e[1] == 'n'; }
    assert IsPrefix("&nbsp;", e) && e[6..] == tail;
  }

  lemma UnescapeLt(tail: string)
    ensures Unescape("&lt;" + tail) == "<" + Unescape(tail)
  {
    var e := "&lt;" + tail;
    assert !IsPrefix("&amp;", e) && !IsPrefix("&nbsp;", e) by { assert e[1] == 'l'; }
    assert IsPrefix("&lt;", e) && e[4..] == tail;
  }

  lemma UnescapeGt(tail: string)
    ensures Unescape("&gt;" + tail) == ">" + Unescape(tail)
  {
    var e := "&gt;" + tail;
    assert !IsPrefix("&amp;", e) && !IsPrefix("&nbsp;", e) && !IsPrefix("&lt;", e) by { assert e[1] == 'g'; }
    assert IsPrefix("&gt;", e) && e[4..] == tail;
  }

  /** Escaping changes nothing in text without the four special characters. */
  lemma {:induction false} EscapePlain(s: string)
    requires forall i :: 0 <= i < |s| ==> !IsSpecial(s[i])
    ensures EscapeHtml(s) == s
  {
    if s != [] {
      EscapePlain(s[1..]);
    }
  }

  /** The escaped text starts with the first character of `s` or with the
      reference that replaces it, and likewise at the end. */
  lemma EscapeEnds(s: string)
    requires s != []
    ensures var r := EscapeHtml(s);
      && (if IsSpecial(s[0]) then r[0] == '&' else r[0] == s[0])
      && (if IsSpecial(s[|s| - 1]) then r[|r| - 1] == ';' else r[|r| - 1] == s[|s| - 1])
  {
    EscapeStart(s);
    EscapeEnd(s);
  }

  lemma EscapeStart(s: string)
    requires s != []
    ensures var r := EscapeHtml(s); if IsSpecial(s[0]) then r[0] == '&' else r[0] == s[0]
  {
    var head := EscapeChar(s[0]);
    assert EscapeHtml(s)[0] == head[0];
  }

  lemma {:induction false} EscapeEnd(s: string)
    requires s != []
    ensures var r := EscapeHtml(s); if IsSpecial(s[|s| - 1]) then r[|r| - 1] == ';' else r[|r| - 1] == s[|s| - 1]
  {
    var head, tail := EscapeChar(s[0]), EscapeHtml(s[1..]);
    if |s| > 1 {
      EscapeEnd(s[1..]);
      assert s[1..][|s| - 2] == s[|s| - 1];
      var r := head + tail;
      assert r[|r| - 1] == tail[|tail| - 1];
    }
  }

  /** Escaping keeps text that neither starts nor ends with white space so. */
  lemma EscapeEndsNonWhite(s: string)
    requires s != [] && !IsWhite(s[0]) && !IsWhite(s[|s| - 1])
    ensures var r := EscapeHtml(s); r != [] && !IsWhite(r[0]) && !IsWhite(r[|r| - 1])
  {
    EscapeEnds(s);
  }
}
