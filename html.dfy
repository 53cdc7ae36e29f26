/**
 * `escapeHtml` (src/index.js, lines 98-105) and the two places where
 * `renderHTML` inserts escaped text into its page (lines 117 and 198).
 */
module Html {
  import opened Strings

  /** `text.replace(/c/g, sub)` for a one-character pattern and a replacement
      without `$` (JavaScript expands `$&`, `$$` and the like in a replacement;
      none of the five entities has one): every occurrence of `c`, scanned left to
      right, becomes `sub`. */
  function ReplaceAll(s: string, c: char, sub: string): (r: string)
    ensures c !in s ==> r == s
    ensures c !in sub ==> c !in r
    decreases |s|
  {
    if |s| == 0 then ""
    else (if s[0] == c then sub else [s[0]]) + ReplaceAll(s[1..], c, sub)
  }

  /** A character that is neither in the text nor in the replacement is not in
      the result. */
  lemma {:induction false} ReplaceAllKeepsAbsent(s: string, c: char, sub: string, x: char)
    requires x !in s && x !in sub
    ensures x !in ReplaceAll(s, c, sub)
    decreases |s|
  {
    if |s| > 0 {
      assert x != s[0] && x !in s[1..];
      ReplaceAllKeepsAbsent(s[1..], c, sub, x);
    }
  }

  /** A replacement applied to a single character. */
  lemma ReplaceAllOne(x: char, c: char, sub: string)
    ensures ReplaceAll([x], c, sub) == if x == c then sub else [x]
  {
    assert [x][1..] == "";
  }

  /** The chain of five global replacements, ampersand first. */
  function EscapeHtml(text: string): (r: string)
    ensures '<' !in r && '>' !in r && '"' !in r && '\'' !in r
  {
    var amp := ReplaceAll(text, '&', "&amp;");
    var lt := ReplaceAll(amp, '<', "&lt;");
    var gt := ReplaceAll(lt, '>', "&gt;");
    ReplaceAllKeepsAbsent(lt, '>', "&gt;", '<');
    var quot := ReplaceAll(gt, '"', "&quot;");
    ReplaceAllKeepsAbsent(gt, '"', "&quot;", '<');
    ReplaceAllKeepsAbsent(gt, '"', "&quot;", '>');
    var r := ReplaceAll(quot, '\'', "&#039;");
    ReplaceAllKeepsAbsent(quot, '\'', "&#039;", '<');
    ReplaceAllKeepsAbsent(quot, '\'', "&#039;", '>');
    ReplaceAllKeepsAbsent(quot, '\'', "&#039;", '"');
    r
  }

  /** The entity that replaces one character. */
  function EscapeChar(c: char): string {
    match c
    case '&' => "&amp;"
    case '<' => "&lt;"
    case '>' => "&gt;"
    case '"' => "&quot;"
    case '\'' => "&#039;"
    case _ => [c]
  }

  /** The per-character reading of escaping: each character on its own. */
  function EscapeEach(s: string): string
    decreases |s|
  {
    if |s| == 0 then "" else EscapeChar(s[0]) + EscapeEach(s[1..])
  }

  /** Decoding of exactly the five entities that escaping produces, each back to
      its character: the inverse of escaping. */
  function Unescape(s: string): string
    decreases |s|
  {
    if |s| == 0 then ""
    else if StartsWith(s, "&amp;") then "&" + Unescape(s[5..])
    else if StartsWith(s, "&lt;") then "<" + Unescape(s[4..])
    else if StartsWith(s, "&gt;") then ">" + Unescape(s[4..])
    else if StartsWith(s, "&quot;") then "\"" + Unescape(s[6..])
    else if StartsWith(s, "&#039;") then "'" + Unescape(s[6..])
    else [s[0]] + Unescape(s[1..])
  }

  /** A global replacement distributes over concatenation. */
  lemma {:induction false} ReplaceAllConcat(a: string, b: string, c: char, sub: string)
    ensures ReplaceAll(a + b, c, sub) == ReplaceAll(a, c, sub) + ReplaceAll(b, c, sub)
    decreases |a|
  {
    if |a| > 0 {
      assert (a + b)[1..] == a[1..] + b;
      ReplaceAllConcat(a[1..], b, c, sub);
    } else {
      assert a + b == b;
    }
  }

  /** Escaping distributes over concatenation. */
  lemma EscapeHtmlConcat(a: string, b: string)
    ensures EscapeHtml(a + b) == EscapeHtml(a) + EscapeHtml(b)
  {
    var a1, b1 := ReplaceAll(a, '&', "&amp;"), ReplaceAll(b, '&', "&amp;");
    ReplaceAllConcat(a, b, '&', "&amp;");
    var a2, b2 := ReplaceAll(a1, '<', "&lt;"), ReplaceAll(b1, '<', "&lt;");
    ReplaceAllConcat(a1, b1, '<', "&lt;");
    var a3, b3 := ReplaceAll(a2, '>', "&gt;"), ReplaceAll(b2, '>', "&gt;");
    ReplaceAllConcat(a2, b2, '>', "&gt;");
    var a4, b4 := ReplaceAll(a3, '"', "&quot;"), ReplaceAll(b3, '"', "&quot;");
    ReplaceAllConcat(a3, b3, '"', "&quot;");
    ReplaceAllConcat(a4, b4, '\'', "&#039;");
  }

  /** On one character, the chain produces that character's entity: no entity
      is escaped a second time, because `&` is replaced before the others. */
  lemma EscapeHtmlChar(c: char)
    ensures EscapeHtml([c]) == EscapeChar(c)
  {
    ReplaceAllOne(c, '&', "&amp;");
    var amp := EscapeChar('&');
    ReplaceAllOne(c, '<', "&lt;");
    var lt := EscapeChar('<');
    assert '<' !in amp;
    ReplaceAllOne(c, '>', "&gt;");
    assert '>' !in amp && '>' !in lt;
    ReplaceAllOne(c, '"', "&quot;");
    assert '"' !in amp && '"' !in lt && '"' !in EscapeChar('>');
    ReplaceAllOne(c, '\'', "&#039;");
    assert '\'' !in amp && '\'' !in lt && '\'' !in EscapeChar('>') && '\'' !in EscapeChar('"');
  }

  /** The five sequential replacements equal the per-character mapping. */
  lemma {:induction false} EscapeHtmlIsPerChar(s: string)
    ensures EscapeHtml(s) == EscapeEach(s)
    decreases |s|
  {
    if |s| == 0 {
      assert EscapeHtml(s) == "";
    } else {
      assert s == [s[0]] + s[1..];
      EscapeHtmlConcat([s[0]], s[1..]);
      EscapeHtmlChar(s[0]);
      EscapeHtmlIsPerChar(s[1..]);
    }
  }

  /** Text without any of the five special characters is left as it is. */
  lemma PlainTextUnchanged(s: string)
    requires forall c :: c in s ==> c != '&' && c != '<' && c != '>' && c != '"' && c != '\''
    ensures EscapeHtml(s) == s
  {
  }

  /** Unescaping one escaped character and then the rest. */
  lemma UnescapeStep(c: char, rest: string)
    ensures Unescape(EscapeChar(c) + rest) == [c] + Unescape(rest)
  {
    var t := EscapeChar(c) + rest;
    if c == '&' {
      assert t[..5] == "&amp;" && t[5..] == rest;
    } else if c == '<' {
      assert t[..4] == "&lt;" && t[4..] == rest;
      assert !StartsWith(t, "&amp;") by { assert |t| < 5 || t[..5][1] != "&amp;"[1]; }
    } else if c == '>' {
      assert t[..4] == "&gt;" && t[4..] == rest;
      assert !StartsWith(t, "&amp;") by { assert |t| < 5 || t[..5][1] != "&amp;"[1]; }
      assert !StartsWith(t, "&lt;") by { assert t[..4][1] != "&lt;"[1]; }
    } else if c == '"' {
      assert t[..6] == "&quot;" && t[6..] == rest;
      assert !StartsWith(t, "&amp;") by { assert t[..5][1] != "&amp;"[1]; }
      assert !StartsWith(t, "&lt;") by { assert t[..4][1] != "&lt;"[1]; }
      assert !StartsWith(t, "&gt;") by { assert t[..4][1] != "&gt;"[1]; }
    } else if c == '\'' {
      assert t[..6] == "&#039;" && t[6..] == rest;
      assert !StartsWith(t, "&amp;") by { assert t[..5][1] != "&amp;"[1]; }
      assert !StartsWith(t, "&lt;") by { assert t[..4][1] != "&lt;"[1]; }
      assert !StartsWith(t, "&gt;") by { assert t[..4][1] != "&gt;"[1]; }
      assert !StartsWith(t, "&quot;") by { assert t[..6][1] != "&quot;"[1]; }
    } else {
      assert t == [c] + rest && t[1..] == rest;
      assert !StartsWith(t, "&amp;") by { assert |t| < 5 || t[..5][0] != '&'; }
      assert !StartsWith(t, "&lt;") by { assert |t| < 4 || t[..4][0] != '&'; }
      assert !StartsWith(t, "&gt;") by { assert |t| < 4 || t[..4][0] != '&'; }
      assert !StartsWith(t, "&quot;") by { assert |t| < 6 || t[..6][0] != '&'; }
      assert !StartsWith(t, "&#039;") by { assert |t| < 6 || t[..6][0] != '&'; }
    }
  }

  /** Decoding the escaped text gives back the original text, so escaping loses
      nothing and two different texts never escape to the same markup. */
  lemma {:induction false} UnescapeEscapeHtml(s: string)
    ensures Unescape(EscapeHtml(s)) == s
    decreases |s|
  {
    EscapeHtmlIsPerChar(s);
    if |s| > 0 {
      UnescapeStep(s[0], EscapeEach(s[1..]));
      UnescapeEscapeHtml(s[1..]);
      EscapeHtmlIsPerChar(s[1..]);
      assert s == [s[0]] + s[1..];
    }
  }

  /** The page of `renderHTML`, reduced to the two places where it inserts text:
      the `<title>` element (line 117) and the `<textarea>` element (line 198).
      The rest of the page is fixed template text. */
  datatype NotePage = NotePage(title: string, editor: string)

  /** `renderHTML(noteId, content)`: both insertions are escaped, so neither can
      close its element or open another, and unescaping each gives back the
      string that was inserted. */
  function RenderHtml(noteId: string, content: string): (page: NotePage)
    ensures Unescape(page.title) == noteId && Unescape(page.editor) == content
    ensures '<' !in page.title && '<' !in page.editor
  {
    UnescapeEscapeHtml(noteId);
    UnescapeEscapeHtml(content);
    NotePage(EscapeHtml(noteId), EscapeHtml(content))
  }
}
