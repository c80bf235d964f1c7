/** The `htmlspecialchars` helper of the JavaScript and Python ports: its
    pattern matches & < > ' " but only the first four get an entity, the
    apostrophe is returned as it is. */
module Html {

  function EscapeChar(c: char): string {
    if c == '&' then "&amp;"
    else if c == '<' then "&lt;"
    else if c == '>' then "&gt;"
    else if c == '"' then "&quot;"
    else [c]
  }

  predicate IsSpecial(c: char) {
    c == '&' || c == '<' || c == '>' || c == '"'
  }

  /** No character of an entity is `<`, `>` or `"`. */
  lemma EscapeCharSafe(c: char, i: int)
    requires 0 <= i < |EscapeChar(c)|
    ensures EscapeChar(c)[i] != '<' && EscapeChar(c)[i] != '>' && EscapeChar(c)[i] != '"'
  {
    if c == '&' {
      assert EscapeChar(c) == "&amp;";
    } else if c == '<' {
      assert EscapeChar(c) == "&lt;";
    } else if c == '>' {
      assert EscapeChar(c) == "&gt;";
    } else if c == '"' {
      assert EscapeChar(c) == "&quot;";
    }
  }

  /** Each character replaced by its entity, or kept. */
  function HtmlSpecialChars(s: string): string
    decreases |s|
  {
    if s == [] then [] else EscapeChar(s[0]) + HtmlSpecialChars(s[1..])
  }

  /** The escaped text contains no raw `<`, `>` or `"`, so it cannot close an
      attribute value or open a tag. */
  lemma {:induction false} EscapedIsSafe(s: string)
    ensures forall i :: 0 <= i < |HtmlSpecialChars(s)| ==>
      HtmlSpecialChars(s)[i] != '<' && HtmlSpecialChars(s)[i] != '>' && HtmlSpecialChars(s)[i] != '"'
    decreases |s|
  {
    if s != [] {
      EscapedIsSafe(s[1..]);
      var head, tail := EscapeChar(s[0]), HtmlSpecialChars(s[1..]);
      forall i | 0 <= i < |head + tail|
        ensures (head + tail)[i] != '<' && (head + tail)[i] != '>' && (head + tail)[i] != '"'
      {
        if i >= |head| {
          assert (head + tail)[i] == tail[i - |head|];
        } else {
          assert (head + tail)[i] == head[i];
          EscapeCharSafe(s[0], i);
        }
      }
    }
  }

  /** Decodes the four entities `HtmlSpecialChars` produces. */
  function Unescape(s: string): string
    decreases |s|
  {
    if |s| >= 5 && s[..5] == "&amp;" then "&" + Unescape(s[5..])
    else if |s| >= 4 && s[..4] == "&lt;" then "<" + Unescape(s[4..])
    else if |s| >= 4 && s[..4] == "&gt;" then ">" + Unescape(s[4..])
    else if |s| >= 6 && s[..6] == "&quot;" then "\"" + Unescape(s[6..])
    else if s == [] then []
    else [s[0]] + Unescape(s[1..])
  }

  lemma UnescapeStep(c: char, rest: string)
    ensures Unescape(EscapeChar(c) + rest) == [c] + Unescape(rest)
  {
    if c == '&' {
      UnescapeAmp(rest);
    } else if c == '<' {
      UnescapeEntity("&lt;", '<', rest);
    } else if c == '>' {
      UnescapeEntity("&gt;", '>', rest);
    } else if c == '"' {
      UnescapeQuot(rest);
    } else {
      UnescapePlain(c, rest);
    }
  }

  lemma UnescapeAmp(rest: string)
    ensures Unescape("&amp;" + rest) == "&" + Unescape(rest)
  {
    var t := "&amp;" + rest;
    assert t[..5] == "&amp;" && t[5..] == rest;
  }

  lemma UnescapeEntity(e: string, c: char, rest: string)
    requires (e == "&lt;" && c == '<') || (e == "&gt;" && c == '>')
    ensures Unescape(e + rest) == [c] + Unescape(rest)
  {
    var t := e + rest;
    assert t[1] == e[1] && t[..4] == e && t[4..] == rest;
  }

  lemma UnescapeQuot(rest: string)
    ensures Unescape("&quot;" + rest) == "\"" + Unescape(rest)
  {
    var t := "&quot;" + rest;
    assert t[1] == 'q';
    assert t[..6] == "&quot;" && t[6..] == rest;
  }

  lemma UnescapePlain(c: char, rest: string)
    requires !IsSpecial(c)
    ensures Unescape([c] + rest) == [c] + Unescape(rest)
  {
    var t := [c] + rest;
    assert t[0] == c && t[1..] == rest;
  }

  /** Escaping loses nothing: decoding the entities gives the text back. */
  lemma {:induction false} EscapeRoundTrip(s: string)
    ensures Unescape(HtmlSpecialChars(s)) == s
    decreases |s|
  {
    if s != [] {
      UnescapeStep(s[0], HtmlSpecialChars(s[1..]));
      EscapeRoundTrip(s[1..]);
      assert s == [s[0]] + s[1..];
    }
  }

  /** Text without & < > " (apostrophes included) passes through unchanged. */
  lemma {:induction false} PlainTextUnchanged(s: string)
    requires forall i :: 0 <= i < |s| ==> !IsSpecial(s[i])
    ensures HtmlSpecialChars(s) == s
    decreases |s|
  {
    if s != [] {
      PlainTextUnchanged(s[1..]);
      assert s == [s[0]] + s[1..];
    }
  }

  lemma EscapeExamples()
    ensures HtmlSpecialChars("a&b") == "a&amp;b"
    ensures HtmlSpecialChars("<\"'>") == "&lt;&quot;'&gt;"
  {
  }
}
