/** `escapeAttr` (JS/script.js:17-25): the HTML attribute escaper, a chain of global replacements. */
module Escape {

  /** `s.replace(/c/g, rep)`: every occurrence of `c` replaced by `rep`, left to right. */
  function ReplaceChar(s: string, c: char, rep: string): string
  {
    if s == [] then [] else (if s[0] == c then rep else [s[0]]) + ReplaceChar(s[1..], c, rep)
  }

  /** The attribute escaper as written: `&` first, then `"`, `'`, `<` and `>`; falsy input gives `''`. */
  function EscapeAttr(text: string): string
  {
    if text == "" then ""
    else
      var amp := ReplaceChar(text, '&', "&amp;");
      var quot := ReplaceChar(amp, '"', "&quot;");
      var apos := ReplaceChar(quot, '\'', "&#39;");
      var lt := ReplaceChar(apos, '<', "&lt;");
      ReplaceChar(lt, '>', "&gt;")
  }

  /** Reference definition: the entity each single character stands as. */
  function EntityOf(c: char): string
  {
    match c
    case '&' => "&amp;"
    case '"' => "&quot;"
    case '\'' => "&#39;"
    case '<' => "&lt;"
    case '>' => "&gt;"
    case _ => [c]
  }

  /** Reference definition: escape character by character. */
  function EscapeEach(s: string): string
  {
    if s == [] then [] else EntityOf(s[0]) + EscapeEach(s[1..])
  }

  /** Decoder for the five entities, scanning left to right. */
  function Unescape(s: string): string
  {
    if s == [] then []
    else if |s| >= 5 && s[..5] == "&amp;" then "&" + Unescape(s[5..])
    else if |s| >= 6 && s[..6] == "&quot;" then "\"" + Unescape(s[6..])
    else if |s| >= 5 && s[..5] == "&#39;" then "'" + Unescape(s[5..])
    else if |s| >= 4 && s[..4] == "&lt;" then "<" + Unescape(s[4..])
    else if |s| >= 4 && s[..4] == "&gt;" then ">" + Unescape(s[4..])
    else [s[0]] + Unescape(s[1..])
  }

  predicate Special(c: char)
  {
    c == '<' || c == '>' || c == '"' || c == '\''
  }

  lemma {:induction false} ReplaceCharAppend(a: string, b: string, c: char, rep: string)
    ensures ReplaceChar(a + b, c, rep) == ReplaceChar(a, c, rep) + ReplaceChar(b, c, rep)
  {
    if a == [] {
      assert a + b == b;
    } else {
      assert (a + b)[1..] == a[1..] + b;
      ReplaceCharAppend(a[1..], b, c, rep);
    }
  }

  lemma {:induction false} ReplaceCharAbsent(s: string, c: char, rep: string)
    requires forall i :: 0 <= i < |s| ==> s[i] != c
    ensures ReplaceChar(s, c, rep) == s
  {
    if s != [] {
      ReplaceCharAbsent(s[1..], c, rep);
    }
  }

  lemma ReplaceCharSingle(x: char, c: char, rep: string)
    ensures ReplaceChar([x], c, rep) == if x == c then rep else [x]
  {
    assert [x][1..] == [];
  }

  /** The replacement chain on one character yields that character's entity. */
  lemma ChainOnChar(c: char)
    ensures EscapeAttr([c]) == EntityOf(c)
  {
    match c
    case '&' => ChainOnAmp();
    case '"' => ChainOnQuot();
    case '\'' => ChainOnApos();
    case '<' => ChainOnLt();
    case '>' => ChainOnGt();
    case _ => ChainOnPlain(c);
  }

  lemma ChainOnPlain(c: char)
    requires c != '&' && c != '"' && c != '\'' && c != '<' && c != '>'
    ensures EscapeAttr([c]) == [c]
  {
    ReplaceCharSingle(c, '&', "&amp;");
    ReplaceCharSingle(c, '"', "&quot;");
    ReplaceCharSingle(c, '\'', "&#39;");
    ReplaceCharSingle(c, '<', "&lt;");
    ReplaceCharSingle(c, '>', "&gt;");
  }

  /** An entity contains none of the characters replaced after its own. */
  lemma EntityUntouched(e: string, c: char, rep: string)
    requires e in {"&amp;", "&quot;", "&#39;", "&lt;", "&gt;"}
    requires Special(c)
    ensures ReplaceChar(e, c, rep) == e
  {
    ReplaceCharAbsent(e, c, rep);
  }

  lemma ChainOnAmp()
    ensures EscapeAttr("&") == "&amp;"
  {
    ReplaceCharSingle('&', '&', "&amp;");
    EntityUntouched("&amp;", '"', "&quot;");
    EntityUntouched("&amp;", '\'', "&#39;");
    EntityUntouched("&amp;", '<', "&lt;");
    EntityUntouched("&amp;", '>', "&gt;");
  }

  lemma ChainOnQuot()
    ensures EscapeAttr("\"") == "&quot;"
  {
    ReplaceCharSingle('"', '&', "&amp;");
    ReplaceCharSingle('"', '"', "&quot;");
    EntityUntouched("&quot;", '\'', "&#39;");
    EntityUntouched("&quot;", '<', "&lt;");
    EntityUntouched("&quot;", '>', "&gt;");
  }

  lemma ChainOnApos()
    ensures EscapeAttr("'") == "&#39;"
  {
    ReplaceCharSingle('\'', '&', "&amp;");
    ReplaceCharSingle('\'', '"', "&quot;");
    ReplaceCharSingle('\'', '\'', "&#39;");
    EntityUntouched("&#39;", '<', "&lt;");
    EntityUntouched("&#39;", '>', "&gt;");
  }

  lemma ChainOnLt()
    ensures EscapeAttr("<") == "&lt;"
  {
    ReplaceCharSingle('<', '&', "&amp;");
    ReplaceCharSingle('<', '"', "&quot;");
    ReplaceCharSingle('<', '\'', "&#39;");
    ReplaceCharSingle('<', '<', "&lt;");
    EntityUntouched("&lt;", '>', "&gt;");
  }

  lemma ChainOnGt()
    ensures EscapeAttr(">") == "&gt;"
  {
    ReplaceCharSingle('>', '&', "&amp;");
    ReplaceCharSingle('>', '"', "&quot;");
    ReplaceCharSingle('>', '\'', "&#39;");
    ReplaceCharSingle('>', '<', "&lt;");
    ReplaceCharSingle('>', '>', "&gt;");
  }

  /** The whole chain distributes over concatenation, because each replacement does. */
  lemma ChainAppend(a: string, b: string)
    ensures EscapeAttr(a + b) == EscapeAttr(a) + EscapeAttr(b)
  {
    if a == [] {
      assert a + b == b;
      return;
    }
    if b == [] {
      assert a + b == a;
      return;
    }
    ReplaceCharAppend(a, b, '&', "&amp;");
    var a1, b1 := ReplaceChar(a, '&', "&amp;"), ReplaceChar(b, '&', "&amp;");
    ReplaceCharAppend(a1, b1, '"', "&quot;");
    var a2, b2 := ReplaceChar(a1, '"', "&quot;"), ReplaceChar(b1, '"', "&quot;");
    ReplaceCharAppend(a2, b2, '\'', "&#39;");
    var a3, b3 := ReplaceChar(a2, '\'', "&#39;"), ReplaceChar(b2, '\'', "&#39;");
    ReplaceCharAppend(a3, b3, '<', "&lt;");
    var a4, b4 := ReplaceChar(a3, '<', "&lt;"), ReplaceChar(b3, '<', "&lt;");
    ReplaceCharAppend(a4, b4, '>', "&gt;");
  }

  /** The replacement chain equals character-by-character escaping: replacing `&` first
      means no entity introduced by a later replacement is escaped again. */
  lemma {:induction false} EscapeAttrIsEscapeEach(s: string)
    ensures EscapeAttr(s) == EscapeEach(s)
  {
    if s != [] {
      ChainOnChar(s[0]);
      if |s| > 1 {
        assert s == [s[0]] + s[1..];
        ChainAppend([s[0]], s[1..]);
        EscapeAttrIsEscapeEach(s[1..]);
      } else {
        assert s[1..] == [] && EscapeEach(s[1..]) == [];
        assert s == [s[0]];
      }
    }
  }

  /** Escaping the empty string gives the empty string. */
  lemma EscapeAttrEmpty()
    ensures EscapeAttr("") == ""
  {
  }

  lemma {:induction false} EscapeEachNoSpecial(s: string)
    ensures forall i :: 0 <= i < |EscapeEach(s)| ==> !Special(EscapeEach(s)[i])
  {
    if s != [] {
      EscapeEachNoSpecial(s[1..]);
      var e := EntityOf(s[0]);
      EntityNoSpecial(s[0]);
      var r := EscapeEach(s);
      forall i | 0 <= i < |r| ensures !Special(r[i]) {
        if i >= |e| {
          assert r[i] == EscapeEach(s[1..])[i - |e|];
        }
      }
    }
  }

  lemma EntityNoSpecial(c: char)
    ensures forall i :: 0 <= i < |EntityOf(c)| ==> !Special(EntityOf(c)[i])
  {
  }

  /** The escaped text contains no raw `<`, `>`, `"` or `'`. */
  lemma EscapeAttrNoSpecial(s: string)
    ensures forall i :: 0 <= i < |EscapeAttr(s)| ==> !Special(EscapeAttr(s)[i])
  {
    EscapeAttrIsEscapeEach(s);
    EscapeEachNoSpecial(s);
  }

  /** Decoding consumes exactly one entity at the front, whatever follows it. */
  lemma UnescapeEntity(c: char, rest: string)
    ensures Unescape(EntityOf(c) + rest) == [c] + Unescape(rest)
  {
    if c == '&' {
      UnescapeAmp(rest);
    } else if c == '"' {
      UnescapeQuot(rest);
    } else if c == '\'' {
      UnescapeApos(rest);
    } else if c == '<' {
      UnescapeLt(rest);
    } else if c == '>' {
      UnescapeGt(rest);
    } else {
      UnescapePlain(c, rest);
    }
  }

  lemma UnescapePlain(c: char, rest: string)
    requires c != '&'
    ensures Unescape([c] + rest) == [c] + Unescape(rest)
  {
    var t := [c] + rest;
    assert t[0] == c && t[1..] == rest;
  }

  lemma UnescapeAmp(rest: string)
    ensures Unescape("&amp;" + rest) == "&" + Unescape(rest)
  {
    var t := "&amp;" + rest;
    assert t[..5] == "&amp;" && t[5..] == rest;
  }

  lemma UnescapeQuot(rest: string)
    ensures Unescape("&quot;" + rest) == "\"" + Unescape(rest)
  {
    var t := "&quot;" + rest;
    assert t[1] == 'q';
    assert t[..6] == "&quot;" && t[6..] == rest;
  }

  lemma UnescapeApos(rest: string)
    ensures Unescape("&#39;" + rest) == "'" + Unescape(rest)
  {
    var t := "&#39;" + rest;
    assert t[1] == '#';
    assert t[..5] == "&#39;" && t[5..] == rest;
  }

  lemma UnescapeLt(rest: string)
    ensures Unescape("&lt;" + rest) == "<" + Unescape(rest)
  {
    var t := "&lt;" + rest;
    assert t[1] == 'l';
    assert t[..4] == "&lt;" && t[4..] == rest;
  }

  lemma UnescapeGt(rest: string)
    ensures Unescape("&gt;" + rest) == ">" + Unescape(rest)
  {
    var t := "&gt;" + rest;
    assert t[1] == 'g';
    assert t[..4] == "&gt;" && t[4..] == rest;
  }

  lemma {:induction false} UnescapeEscapeEach(s: string)
    ensures Unescape(EscapeEach(s)) == s
  {
    if s != [] {
      UnescapeEntity(s[0], EscapeEach(s[1..]));
      UnescapeEscapeEach(s[1..]);
      assert s == [s[0]] + s[1..];
    }
  }

  /** Decoding the five entities recovers the original text. */
  lemma UnescapeEscapeAttr(s: string)
    ensures Unescape(EscapeAttr(s)) == s
  {
    EscapeAttrIsEscapeEach(s);
    UnescapeEscapeEach(s);
  }
}
