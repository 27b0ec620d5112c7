/** HTML escaping of user text before it is placed in markup
    (`escapeHtml`, assets/js/main.js). */
module Escape {
  import opened Text

  /** The five characters `escapeHtml` rewrites. */
  predicate IsSpecial(c: char) {
    c == '&' || c == '<' || c == '>' || c == '"' || c == '\''
  }

  /** The four characters that may start or end markup. */
  predicate IsMarkup(c: char) {
    c == '<' || c == '>' || c == '"' || c == '\''
  }

  /** `s` contains none of the five special characters. */
  predicate IsClean(s: string) {
    forall i :: 0 <= i < |s| ==> !IsSpecial(s[i])
  }

  /** `s` contains none of the markup characters. */
  predicate NoMarkup(s: string) {
    forall i :: 0 <= i < |s| ==> !IsMarkup(s[i])
  }

  /** Position `i` of `t` begins one of the five entities `escapeHtml` emits. */
  predicate EntityAt(t: string, i: nat)
    requires i <= |t|
  {
    var u := t[i..];
    StartsWith(u, "&amp;") || StartsWith(u, "&lt;") || StartsWith(u, "&gt;")
    || StartsWith(u, "&quot;") || StartsWith(u, "&#039;")
  }

  /** Every `&` of `t` begins an entity. */
  predicate AmpersandsAreEntities(t: string) {
    forall i :: 0 <= i < |t| && t[i] == '&' ==> EntityAt(t, i)
  }

  /** `s.replace(/c/g, rep)` for a one-character pattern `c`: every
      occurrence of `c` becomes `rep`, every other character stays. */
  function ReplaceAll(s: string, c: char, rep: string): (r: string)
    ensures c !in s ==> r == s
    ensures |rep| >= 1 ==> |r| >= |s|
  {
    if s == [] then []
    else (if s[0] == c then rep else [s[0]]) + ReplaceAll(s[1..], c, rep)
  }

  /** `escapeHtml(str)`: the five replacements in source order, `&` first. */
  function EscapeHtml(s: string): string {
    ReplaceAll(ReplaceAll(ReplaceAll(ReplaceAll(ReplaceAll(
      s, '&', "&amp;"), '<', "&lt;"), '>', "&gt;"), '"', "&quot;"), '\'', "&#039;")
  }

  /** The entity that stands for one character, or the character itself. */
  function EscapeChar(c: char): (r: string)
    ensures |r| >= 1
    ensures IsSpecial(c) ==> r[0] == '&'
    ensures !IsSpecial(c) ==> r == [c]
  {
    match c
    case '&' => "&amp;"
    case '<' => "&lt;"
    case '>' => "&gt;"
    case '"' => "&quot;"
    case '\'' => "&#039;"
    case _ => [c]
  }

  /** Reference definition: escape each character on its own, left to right. */
  function EscapeEach(s: string): string {
    if s == [] then [] else EscapeChar(s[0]) + EscapeEach(s[1..])
  }

  /** The inverse of escaping: decode the five entities, keep everything else. */
  function Unescape(t: string): string
    decreases |t|
  {
    if t == [] then []
    else if t[0] != '&' then [t[0]] + Unescape(t[1..])
    else if StartsWith(t, "&amp;") then "&" + Unescape(t[5..])
    else if StartsWith(t, "&lt;") then "<" + Unescape(t[4..])
    else if StartsWith(t, "&gt;") then ">" + Unescape(t[4..])
    else if StartsWith(t, "&quot;") then "\"" + Unescape(t[6..])
    else if StartsWith(t, "&#039;") then "'" + Unescape(t[6..])
    else [t[0]] + Unescape(t[1..])
  }

  // ---------------------------------------------------------------------
  // The replacement chain equals the per-character escape.

  lemma {:induction false} ReplaceAllAppend(a: string, b: string, c: char, rep: string)
    ensures ReplaceAll(a + b, c, rep) == ReplaceAll(a, c, rep) + ReplaceAll(b, c, rep)
  {
    if a != [] {
      var head := if a[0] == c then rep else [a[0]];
      assert (a + b)[0] == a[0] && (a + b)[1..] == a[1..] + b;
      calc {
        ReplaceAll(a + b, c, rep);
        head + ReplaceAll(a[1..] + b, c, rep);
        { ReplaceAllAppend(a[1..], b, c, rep); }
        head + (ReplaceAll(a[1..], c, rep) + ReplaceAll(b, c, rep));
        (head + ReplaceAll(a[1..], c, rep)) + ReplaceAll(b, c, rep);
      }
    } else {
      assert a + b == b;
    }
  }

  lemma EscapeHtmlAppend(a: string, b: string)
    ensures EscapeHtml(a + b) == EscapeHtml(a) + EscapeHtml(b)
  {
    var a1, b1 := ReplaceAll(a, '&', "&amp;"), ReplaceAll(b, '&', "&amp;");
    ReplaceAllAppend(a, b, '&', "&amp;");
    var a2, b2 := ReplaceAll(a1, '<', "&lt;"), ReplaceAll(b1, '<', "&lt;");
    ReplaceAllAppend(a1, b1, '<', "&lt;");
    var a3, b3 := ReplaceAll(a2, '>', "&gt;"), ReplaceAll(b2, '>', "&gt;");
    ReplaceAllAppend(a2, b2, '>', "&gt;");
    var a4, b4 := ReplaceAll(a3, '"', "&quot;"), ReplaceAll(b3, '"', "&quot;");
    ReplaceAllAppend(a3, b3, '"', "&quot;");
    ReplaceAllAppend(a4, b4, '\'', "&#039;");
  }

  /** On one character the chain emits exactly that character's entity:
      because `&` is replaced first, no later step rewrites an `&` it made. */
  lemma EscapeHtmlChar(c: char)
    ensures EscapeHtml([c]) == EscapeChar(c)
  {
    if IsSpecial(c) {
      EscapeHtmlSpecial(c);
    } else {
      ReplaceAllOne(c, '&', "&amp;");
      ReplaceAllOne(c, '<', "&lt;");
      ReplaceAllOne(c, '>', "&gt;");
      ReplaceAllOne(c, '"', "&quot;");
      ReplaceAllOne(c, '\'', "&#039;");
    }
  }

  /** A special character becomes its entity at its own step, and no later
      step finds anything to replace in that entity. */
  lemma EscapeHtmlSpecial(c: char)
    requires IsSpecial(c)
    ensures EscapeHtml([c]) == EscapeChar(c)
  {
    ReplaceAllOne(c, '&', "&amp;");
    if c == '&' {
      Untouched("&amp;", '<', '>', '"', '\'');
    } else {
      ReplaceAllOne(c, '<', "&lt;");
      if c == '<' {
        Untouched("&lt;", '>', '>', '"', '\'');
      } else {
        ReplaceAllOne(c, '>', "&gt;");
        if c == '>' {
          Untouched("&gt;", '"', '"', '"', '\'');
        } else {
          ReplaceAllOne(c, '"', "&quot;");
          if c == '"' {
            Untouched("&quot;", '\'', '\'', '\'', '\'');
          } else {
            ReplaceAllOne(c, '\'', "&#039;");
          }
        }
      }
    }
  }

  /** Later replacements of characters an entity does not contain leave it as it is. */
  lemma Untouched(e: string, a: char, b: char, c: char, d: char)
    requires a !in e && b !in e && c !in e && d !in e
    ensures ReplaceAll(ReplaceAll(ReplaceAll(ReplaceAll(e, a, "&lt;"), b, "&gt;"), c, "&quot;"), d, "&#039;") == e
    ensures ReplaceAll(ReplaceAll(ReplaceAll(e, b, "&gt;"), c, "&quot;"), d, "&#039;") == e
    ensures ReplaceAll(ReplaceAll(e, c, "&quot;"), d, "&#039;") == e
    ensures ReplaceAll(e, d, "&#039;") == e
  {
  }

  /** Replacing in a one-character string. */
  lemma ReplaceAllOne(c: char, x: char, rep: string)
    ensures ReplaceAll([c], x, rep) == if c == x then rep else [c]
  {
    assert [c][1..] == [];
  }

  /** The five-step chain and the per-character escape agree on every input. */
  lemma {:induction false} EscapeHtmlIsEscapeEach(s: string)
    ensures EscapeHtml(s) == EscapeEach(s)
  {
    if s != [] {
      assert s == [s[0]] + s[1..];
      EscapeHtmlAppend([s[0]], s[1..]);
      EscapeHtmlChar(s[0]);
      EscapeHtmlIsEscapeEach(s[1..]);
    }
  }

  // ---------------------------------------------------------------------
  // Decoding the entities recovers the input.

  /** Decoding `e + rest`, where `e` is the entity for `c`, yields `c` first. */
  lemma UnescapeEntity(e: string, c: char, rest: string)
    requires e == EscapeChar(c) && IsSpecial(c)
    ensures Unescape(e + rest) == [c] + Unescape(rest)
  {
    var t := e + rest;
    assert t[..|e|] == e && t[|e|..] == rest;
    assert t[0] == '&' && t[1] == e[1];
    if c == '&' {
      assert StartsWith(t, "&amp;");
    } else if c == '<' {
      assert StartsWith(t, "&lt;");
    } else if c == '>' {
      assert StartsWith(t, "&gt;");
    } else if c == '"' {
      assert StartsWith(t, "&quot;");
    } else {
      assert StartsWith(t, "&#039;");
    }
  }

  lemma UnescapeEscapeChar(c: char, rest: string)
    ensures Unescape(EscapeChar(c) + rest) == [c] + Unescape(rest)
  {
    if IsSpecial(c) {
      UnescapeEntity(EscapeChar(c), c, rest);
    } else {
      var t := [c] + rest;
      assert t[0] == c && t[1..] == rest;
    }
  }

  /** Escaping a non-empty string escapes its first character, then the rest. */
  lemma EscapeEachCons(s: string, rest: string)
    requires s != []
    ensures EscapeEach(s) + rest == EscapeChar(s[0]) + (EscapeEach(s[1..]) + rest)
  {
  }

  lemma ConsAppend(s: string, x: string)
    requires s != []
    ensures [s[0]] + (s[1..] + x) == s + x
  {
    assert [s[0]] + s[1..] == s;
  }

  lemma {:induction false} UnescapeEscapeEach(s: string, rest: string)
    ensures Unescape(EscapeEach(s) + rest) == s + Unescape(rest)
  {
    if s != [] {
      EscapeEachCons(s, rest);
      UnescapeEscapeChar(s[0], EscapeEach(s[1..]) + rest);
      UnescapeEscapeEach(s[1..], rest);
      ConsAppend(s, Unescape(rest));
    } else {
      assert EscapeEach(s) + rest == rest;
    }
  }

  /** Escaping is undone by decoding the five entities: nothing is lost,
      whatever follows the escaped text. */
  lemma EscapeHtmlThenUnescape(s: string, rest: string)
    ensures Unescape(EscapeHtml(s) + rest) == s + Unescape(rest)
  {
    EscapeHtmlIsEscapeEach(s);
    UnescapeEscapeEach(s, rest);
  }

  /** Round trip: decoding the escaped text gives back the text. */
  lemma EscapeHtmlRoundTrip(s: string)
    ensures Unescape(EscapeHtml(s)) == s
  {
    EscapeHtmlThenUnescape(s, []);
    assert EscapeHtml(s) + [] == EscapeHtml(s);
    assert s + [] == s;
  }

  /** Two different strings never escape to the same markup. */
  lemma EscapeHtmlInjective(a: string, b: string)
    ensures EscapeHtml(a) == EscapeHtml(b) ==> a == b
  {
    EscapeHtmlRoundTrip(a);
    EscapeHtmlRoundTrip(b);
  }

  // ---------------------------------------------------------------------
  // No markup survives, and every ampersand begins an entity.

  /** The output is safe to place in markup. */
  predicate SafeMarkup(t: string) {
    NoMarkup(t) && AmpersandsAreEntities(t)
  }

  lemma SafeMarkupAppend(a: string, b: string)
    requires SafeMarkup(a) && SafeMarkup(b)
    ensures SafeMarkup(a + b)
  {
    var t := a + b;
    forall i | 0 <= i < |t| && t[i] == '&'
      ensures EntityAt(t, i)
    {
      if i < |a| {
        assert a[i] == '&' && EntityAt(a, i);
        assert t[i..] == a[i..] + b;
        StartsWithAppend(a[i..], b, "&amp;");
        StartsWithAppend(a[i..], b, "&lt;");
        StartsWithAppend(a[i..], b, "&gt;");
        StartsWithAppend(a[i..], b, "&quot;");
        StartsWithAppend(a[i..], b, "&#039;");
      } else {
        assert b[i - |a|] == '&' && EntityAt(b, i - |a|);
        assert t[i..] == b[i - |a|..];
      }
    }
    assert forall i :: 0 <= i < |t| ==> t[i] == if i < |a| then a[i] else b[i - |a|];
  }

  lemma SafeMarkupEscapeChar(c: char)
    ensures SafeMarkup(EscapeChar(c))
  {
    var t := EscapeChar(c);
    if IsSpecial(c) {
      assert t[0..] == t && t[..|t|] == t;
      assert EntityAt(t, 0);
      assert forall i :: 0 < i < |t| ==> t[i] != '&';
    }
  }

  lemma {:induction false} SafeMarkupEscapeEach(s: string)
    ensures SafeMarkup(EscapeEach(s))
  {
    if s != [] {
      SafeMarkupEscapeChar(s[0]);
      SafeMarkupEscapeEach(s[1..]);
      SafeMarkupAppend(EscapeChar(s[0]), EscapeEach(s[1..]));
    }
  }

  /** `escapeHtml` output never contains `<`, `>`, `"` or `'`, and each `&`
      in it begins `&amp;`, `&lt;`, `&gt;`, `&quot;` or `&#039;`. */
  lemma EscapeHtmlIsSafe(s: string)
    ensures NoMarkup(EscapeHtml(s))
    ensures AmpersandsAreEntities(EscapeHtml(s))
  {
    EscapeHtmlIsEscapeEach(s);
    SafeMarkupEscapeEach(s);
  }

  // ---------------------------------------------------------------------
  // Length, identity and (non-)idempotence.

  /** A string is clean exactly when its first character and the rest are. */
  lemma CleanCons(s: string)
    requires s != []
    ensures IsClean(s) <==> !IsSpecial(s[0]) && IsClean(s[1..])
  {
    assert forall i :: 0 < i < |s| ==> s[i] == s[1..][i - 1];
  }

  lemma {:induction false} EscapeEachLength(s: string)
    ensures |EscapeEach(s)| >= |s|
    ensures |EscapeEach(s)| == |s| <==> IsClean(s)
    ensures IsClean(s) ==> EscapeEach(s) == s
    ensures !IsClean(s) ==> '&' in EscapeEach(s)
  {
    if s != [] {
      EscapeEachLength(s[1..]);
      var head := EscapeChar(s[0]);
      assert EscapeEach(s) == head + EscapeEach(s[1..]);
      CleanCons(s);
      if IsSpecial(s[0]) {
        assert |head| > 1 && head[0] == '&';
        assert EscapeEach(s)[0] == '&';
      } else if !IsClean(s[1..]) {
        var k :| 0 <= k < |EscapeEach(s[1..])| && EscapeEach(s[1..])[k] == '&';
        assert EscapeEach(s)[k + 1] == '&';
      }
    }
  }

  /** Escaping never shortens its input, and leaves it untouched exactly
      when it contains none of the five special characters. */
  lemma EscapeHtmlIdentityIffClean(s: string)
    ensures |EscapeHtml(s)| >= |s|
    ensures EscapeHtml(s) == s <==> IsClean(s)
  {
    EscapeHtmlIsEscapeEach(s);
    EscapeEachLength(s);
  }

  /** Escaped text is clean exactly when the input was. */
  lemma EscapeHtmlCleanIffClean(s: string)
    ensures IsClean(EscapeHtml(s)) <==> IsClean(s)
  {
    EscapeHtmlIsEscapeEach(s);
    EscapeEachLength(s);
  }

  /** Escaping twice equals escaping once only on clean input: any special
      character makes an `&`, which the second pass rewrites again. */
  lemma EscapeHtmlTwiceIffClean(s: string)
    ensures EscapeHtml(EscapeHtml(s)) == EscapeHtml(s) <==> IsClean(s)
  {
    EscapeHtmlIdentityIffClean(EscapeHtml(s));
    EscapeHtmlCleanIffClean(s);
  }

  /** A lone `&` escapes to `&amp;`. */
  lemma EscapeHtmlAmpersand()
    ensures EscapeHtml("&") == "&amp;"
  {
    EscapeHtmlChar('&');
    assert ['&'] == "&";
  }

  /** A leading `&` becomes `&amp;` in front of the escaped rest, so an
      entity such as `&amp;` is escaped again to `&amp;amp;`. */
  lemma EscapeHtmlAmpersandFirst(s: string)
    ensures EscapeHtml(['&'] + s) == "&amp;" + EscapeHtml(s)
  {
    EscapeHtmlAppend(['&'], s);
    EscapeHtmlChar('&');
  }
}
