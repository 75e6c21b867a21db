/**
 * `html.escape(s, quote=True)`. CPython performs five successive
 * `str.replace` passes, `&` first so that the entities inserted by the
 * later passes are not escaped again; `EscapePasses` is that definition.
 * `Escape`, the character-by-character form the rest of the model uses, is
 * proved equal to it; its output holds no markup characters and an
 * unescape inverts it.
 */
module Html {
  /** `s.replace(c, rep)` for a single character `c`. */
  function ReplaceChar(s: string, c: char, rep: string): (r: string)
    ensures c !in rep ==> c !in r
  {
    if s == [] then [] else (if s[0] == c then rep else [s[0]]) + ReplaceChar(s[1..], c, rep)
  }

  lemma {:induction false} ReplaceCharConcat(a: string, b: string, c: char, rep: string)
    ensures ReplaceChar(a + b, c, rep) == ReplaceChar(a, c, rep) + ReplaceChar(b, c, rep)
    decreases |a|
  {
    if a == [] {
      assert a + b == b;
    } else {
      assert (a + b)[0] == a[0] && (a + b)[1..] == a[1..] + b;
      ReplaceCharConcat(a[1..], b, c, rep);
    }
  }

  /** The five passes, in the order CPython applies them. */
  function EscapePasses(s: string): string
  {
    var s1 := ReplaceChar(s, '&', "&amp;");
    var s2 := ReplaceChar(s1, '<', "&lt;");
    var s3 := ReplaceChar(s2, '>', "&gt;");
    var s4 := ReplaceChar(s3, '"', "&quot;");
    ReplaceChar(s4, '\'', "&#x27;")
  }

  lemma PassesConcat(a: string, b: string)
    ensures EscapePasses(a + b) == EscapePasses(a) + EscapePasses(b)
  {
    ReplaceCharConcat(a, b, '&', "&amp;");
    var a1, b1 := ReplaceChar(a, '&', "&amp;"), ReplaceChar(b, '&', "&amp;");
    ReplaceCharConcat(a1, b1, '<', "&lt;");
    var a2, b2 := ReplaceChar(a1, '<', "&lt;"), ReplaceChar(b1, '<', "&lt;");
    ReplaceCharConcat(a2, b2, '>', "&gt;");
    var a3, b3 := ReplaceChar(a2, '>', "&gt;"), ReplaceChar(b2, '>', "&gt;");
    ReplaceCharConcat(a3, b3, '"', "&quot;");
    var a4, b4 := ReplaceChar(a3, '"', "&quot;"), ReplaceChar(b3, '"', "&quot;");
    ReplaceCharConcat(a4, b4, '\'', "&#x27;");
  }

  /** What one character becomes in the escaped text. */
  function EscapeChar(c: char): string
  {
    if c == '&' then "&amp;"
    else if c == '<' then "&lt;"
    else if c == '>' then "&gt;"
    else if c == '"' then "&quot;"
    else if c == '\'' then "&#x27;"
    else [c]
  }

  /** `html.escape(s, quote=True)`, character by character. */
  function Escape(s: string): string
  {
    if s == [] then [] else EscapeChar(s[0]) + Escape(s[1..])
  }

  /** A pass leaves a text without its character alone. */
  lemma ReplaceCharOther(s: string, c: char, rep: string)
    requires c !in s
    ensures ReplaceChar(s, c, rep) == s
  {
    if s != [] {
      assert s[0] in s;
      assert s[1..] == s[1..] && forall x :: x in s[1..] ==> x in s;
      ReplaceCharOther(s[1..], c, rep);
    }
  }

  lemma ReplaceCharOne(c: char, x: char, rep: string)
    ensures ReplaceChar([x], c, rep) == if x == c then rep else [x]
  {
    assert [x][1..] == [];
  }

  /** The last four passes leave a text without markup characters alone. */
  lemma LaterPassesKeep(t: string)
    requires forall c :: c in t ==> !IsMarkup(c)
    ensures ReplaceChar(ReplaceChar(ReplaceChar(ReplaceChar(t, '<', "&lt;"), '>', "&gt;"), '"', "&quot;"), '\'', "&#x27;") == t
  {
    ReplaceCharOther(t, '<', "&lt;");
    ReplaceCharOther(t, '>', "&gt;");
    ReplaceCharOther(t, '"', "&quot;");
    ReplaceCharOther(t, '\'', "&#x27;");
  }

  lemma EscapeAmp()
    ensures EscapePasses("&") == "&amp;"
  {
    var amp := "&amp;";
    ReplaceCharOne('&', '&', amp);
    assert forall c :: c in amp ==> !IsMarkup(c);
    LaterPassesKeep(amp);
  }

  /** The last three passes leave a text without `>`, `"` and `'` alone. */
  lemma LastThreeKeep(t: string)
    requires '>' !in t && '"' !in t && '\'' !in t
    ensures ReplaceChar(ReplaceChar(ReplaceChar(t, '>', "&gt;"), '"', "&quot;"), '\'', "&#x27;") == t
  {
    ReplaceCharOther(t, '>', "&gt;");
    ReplaceCharOther(t, '"', "&quot;");
    ReplaceCharOther(t, '\'', "&#x27;");
  }

  lemma EscapeLt()
    ensures EscapePasses("<") == "&lt;"
  {
    var lt := "&lt;";
    assert '>' !in lt && '"' !in lt && '\'' !in lt;
    ReplaceCharOne('&', '<', "&amp;");
    ReplaceCharOne('<', '<', lt);
    LastThreeKeep(lt);
  }

  lemma EscapeGt()
    ensures EscapePasses(">") == "&gt;"
  {
    var gt := "&gt;";
    assert '"' !in gt && '\'' !in gt;
    ReplaceCharOne('&', '>', "&amp;");
    ReplaceCharOne('<', '>', "&lt;");
    ReplaceCharOne('>', '>', gt);
    ReplaceCharOther(gt, '"', "&quot;");
    ReplaceCharOther(gt, '\'', "&#x27;");
  }

  lemma EscapeQuot()
    ensures EscapePasses("\"") == "&quot;"
  {
    ReplaceCharOne('&', '"', "&amp;");
    ReplaceCharOne('<', '"', "&lt;");
    ReplaceCharOne('>', '"', "&gt;");
    ReplaceCharOne('"', '"', "&quot;");
    ReplaceCharOther("&quot;", '\'', "&#x27;");
  }

  lemma EscapeApos()
    ensures EscapePasses("'") == "&#x27;"
  {
    ReplaceCharOne('&', '\'', "&amp;");
    ReplaceCharOne('<', '\'', "&lt;");
    ReplaceCharOne('>', '\'', "&gt;");
    ReplaceCharOne('"', '\'', "&quot;");
    ReplaceCharOne('\'', '\'', "&#x27;");
  }

  lemma EscapePlain(c: char)
    requires c != '&' && !IsMarkup(c)
    ensures EscapePasses([c]) == [c]
  {
    ReplaceCharOne('&', c, "&amp;");
    ReplaceCharOne('<', c, "&lt;");
    ReplaceCharOne('>', c, "&gt;");
    ReplaceCharOne('"', c, "&quot;");
    ReplaceCharOne('\'', c, "&#x27;");
  }

  lemma EscapeOne(c: char)
    ensures EscapePasses([c]) == EscapeChar(c)
  {
    if c == '&' {
      EscapeAmp();
    } else if c == '<' {
      EscapeLt();
    } else if c == '>' {
      EscapeGt();
    } else if c == '"' {
      EscapeQuot();
    } else if c == '\'' {
      EscapeApos();
    } else {
      EscapePlain(c);
    }
  }

  /** The five passes escape each character on its own. */
  lemma {:induction false} PassesArePerChar(s: string)
    ensures EscapePasses(s) == Escape(s)
  {
    if s == [] {
      assert EscapePasses(s) == [];
    } else {
      assert s == [s[0]] + s[1..];
      PassesConcat([s[0]], s[1..]);
      EscapeOne(s[0]);
      PassesArePerChar(s[1..]);
    }
  }

  /** A character that would open a tag or end an attribute value. */
  predicate IsMarkup(c: char)
  {
    c == '<' || c == '>' || c == '"' || c == '\''
  }

  /** Escaped text holds no markup characters. */
  lemma {:induction false} EscapeHasNoMarkup(s: string)
    ensures forall c :: c in Escape(s) && IsMarkup(c) ==> false
    decreases |s|
  {
    if s != [] {
      EscapeHasNoMarkup(s[1..]);
      var e := EscapeChar(s[0]);
      assert forall c :: c in e ==> !IsMarkup(c);
      assert Escape(s) == e + Escape(s[1..]);
    }
  }

  /** The inverse of `Escape`: the five entities back to their characters. */
  function Unescape(s: string): string
    decreases |s|
  {
    if s == [] then []
    else if |s| >= 5 && s[..5] == "&amp;" then "&" + Unescape(s[5..])
    else if |s| >= 4 && s[..4] == "&lt;" then "<" + Unescape(s[4..])
    else if |s| >= 4 && s[..4] == "&gt;" then ">" + Unescape(s[4..])
    else if |s| >= 6 && s[..6] == "&quot;" then "\"" + Unescape(s[6..])
    else if |s| >= 6 && s[..6] == "&#x27;" then "'" + Unescape(s[6..])
    else [s[0]] + Unescape(s[1..])
  }

  lemma UnescapeStep(c: char, rest: string)
    ensures Unescape(EscapeChar(c) + rest) == [c] + Unescape(rest)
  {
    var e := EscapeChar(c);
    var t := e + rest;
    assert t[..|e|] == e && t[|e|..] == rest;
    if c == '<' {
      assert |t| < 5 || t[..5][1] == 'l';
    } else if c == '>' {
      assert |t| < 5 || t[..5][1] == 'g';
      assert t[..4][1] == 'g';
    } else if c == '"' {
      assert t[..5][1] == 'q' && t[..4][1] == 'q';
    } else if c == '\'' {
      assert t[..5][1] == '#' && t[..4][1] == '#' && t[..6][1] == '#';
    } else if c != '&' {
      assert t[0] == c && t[1..] == rest;
      assert |t| < 4 || t[..4][0] == c;
      assert |t| < 5 || t[..5][0] == c;
      assert |t| < 6 || t[..6][0] == c;
    }
  }

  /** Escaping loses nothing: the text can be recovered exactly. */
  lemma {:induction false} EscapeRoundTrip(s: string)
    ensures Unescape(Escape(s)) == s
    decreases |s|
  {
    if s != [] {
      UnescapeStep(s[0], Escape(s[1..]));
      EscapeRoundTrip(s[1..]);
      assert s == [s[0]] + s[1..];
    }
  }

  /** Two texts that escape alike are equal. */
  lemma EscapeInjective(a: string, b: string)
    requires Escape(a) == Escape(b)
    ensures a == b
  {
    EscapeRoundTrip(a);
    EscapeRoundTrip(b);
  }
}
