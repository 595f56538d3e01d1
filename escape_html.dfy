/**
 * The escape-html library that Editor.tsx imports (its source is not part of
 * this model). It replaces the five characters that are significant in HTML
 * by entities and leaves every other character as it is.
 */
module EscapeHtml {
  /** The text escape-html writes for one character. */
  function EscapeChar(c: char): string
  {
    match c
    case '"' => "&quot;"
    case '&' => "&amp;"
    case '\'' => "&#39;"
    case '<' => "&lt;"
    case '>' => "&gt;"
    case _ => [c]
  }

  /** escapeHtml(s): each character of `s` replaced by its escape, in order. */
  function Escape(s: string): string
  {
    if s == [] then [] else EscapeChar(s[0]) + Escape(s[1..])
  }

  /** A character that escape-html never leaves in its output. */
  predicate Special(c: char)
  {
    c == '"' || c == '\'' || c == '<' || c == '>'
  }

  /** Reads the five entities back; the inverse of `Escape`. */
  function Unescape(s: string): string
    decreases |s|
  {
    if s == [] then []
    else if |s| >= 6 && s[..6] == "&quot;" then "\"" + Unescape(s[6..])
    else if |s| >= 5 && s[..5] == "&amp;" then "&" + Unescape(s[5..])
    else if |s| >= 5 && s[..5] == "&#39;" then "'" + Unescape(s[5..])
    else if |s| >= 4 && s[..4] == "&lt;" then "<" + Unescape(s[4..])
    else if |s| >= 4 && s[..4] == "&gt;" then ">" + Unescape(s[4..])
    else [s[0]] + Unescape(s[1..])
  }

  /** An entity at the head of `s` is read back as its character. */
  lemma UnescapeEntity(entity: string, c: char, rest: string)
    requires (entity, c) in {("&quot;", '"'), ("&amp;", '&'), ("&#39;", '\''), ("&lt;", '<'), ("&gt;", '>')}
    ensures Unescape(entity + rest) == [c] + Unescape(rest)
  {
    var e := entity + rest;
    assert e[..|entity|] == entity && e[|entity|..] == rest;
    assert e[1] == entity[1];
  }

  /** Unescaping one escaped character followed by anything yields that character first. */
  lemma UnescapeEscapeChar(c: char, rest: string)
    ensures Unescape(EscapeChar(c) + rest) == [c] + Unescape(rest)
  {
    if Special(c) || c == '&' {
      UnescapeEntity(EscapeChar(c), c, rest);
    } else {
      var e := EscapeChar(c) + rest;
      assert e[0] == c && e[1..] == rest;
    }
  }

  /** Escaping loses nothing: the original text can be read back. */
  lemma {:induction false} UnescapeEscape(s: string)
    ensures Unescape(Escape(s)) == s
    decreases |s|
  {
    if s != [] {
      UnescapeEscapeChar(s[0], Escape(s[1..]));
      UnescapeEscape(s[1..]);
      assert s == [s[0]] + s[1..];
    }
  }

  /** Escaping is done character by character, so it distributes over concatenation. */
  lemma {:induction false} EscapeAppend(a: string, b: string)
    ensures Escape(a + b) == Escape(a) + Escape(b)
    decreases |a|
  {
    if a != [] {
      assert (a + b)[1..] == a[1..] + b;
      EscapeAppend(a[1..], b);
    } else {
      assert a + b == b;
    }
  }

  /** The escaped text holds none of `" ' < >`. */
  lemma {:induction false} EscapeHasNoSpecial(s: string)
    ensures forall i :: 0 <= i < |Escape(s)| ==> !Special(Escape(s)[i])
    decreases |s|
  {
    if s != [] {
      EscapeHasNoSpecial(s[1..]);
      var head := EscapeChar(s[0]);
      assert forall i :: 0 <= i < |head| ==> !Special(head[i]);
    }
  }
}
