/**
 * `escapeXml` of app/utils.ts: the five XML special characters become their predefined
 * entities, every other character is kept, and a value that is not a string gives "".
 */
module XmlEscape {
  import opened JsString

  /** The argument as JavaScript sees it: a string, or any other value (null, undefined, a number). */
  datatype JsValue = Str(s: string) | Other

  /** The characters the pattern `/[<>&"']/g` matches. */
  predicate IsSpecial(c: char) {
    c == '<' || c == '>' || c == '&' || c == '"' || c == '\''
  }

  /** The replacement the callback returns for one matched character. */
  function EscapeChar(c: char): (e: string)
    ensures !IsSpecial(c) <==> e == [c]
    ensures IsSpecial(c) ==> |e| >= 4 && e[0] == '&' && e[|e| - 1] == ';'
  {
    match c
    case '<' => "&lt;"
    case '>' => "&gt;"
    case '&' => "&amp;"
    case '"' => "&quot;"
    case '\'' => "&apos;"
    case _ => [c]
  }

  /** True when `s` has none of `<`, `>`, `"` and `'` (an `&` may remain, as an entity's start). */
  predicate NoRawMarkup(s: string) {
    forall i :: 0 <= i < |s| ==> s[i] != '<' && s[i] != '>' && s[i] != '"' && s[i] != '\''
  }

  /** `unsafe.replace(/[<>&"']/g, …)`: every character replaced by its escape, left to right. */
  function Escape(s: string): (r: string)
    ensures |r| >= |s|
  {
    if s == [] then [] else EscapeChar(s[0]) + Escape(s[1..])
  }

  /** No `<`, `>`, `"` or `'` survives escaping. */
  lemma {:induction false} EscapeNoRawMarkup(s: string)
    ensures NoRawMarkup(Escape(s))
  {
    if s != [] {
      EscapeNoRawMarkup(s[1..]);
      var e, t := EscapeChar(s[0]), Escape(s[1..]);
      assert forall i :: |e| <= i < |e + t| ==> (e + t)[i] == t[i - |e|];
    }
  }

  /** `escapeXml(unsafe)`. */
  function EscapeXml(v: JsValue): (r: string)
    ensures v.Other? ==> r == ""
    ensures v.Str? ==> |r| >= |v.s| && NoRawMarkup(r) && Unescape(r) == v.s
  {
    match v
    case Str(s) => EscapeNoRawMarkup(s); UnescapeEscape(s); Escape(s)
    case Other => ""
  }

  /** Escaping works character by character, so it distributes over concatenation. */
  lemma {:induction false} EscapeAppend(a: string, b: string)
    ensures Escape(a + b) == Escape(a) + Escape(b)
  {
    if a == [] {
      assert a + b == b;
    } else {
      assert (a + b)[0] == a[0];
      assert (a + b)[1..] == a[1..] + b;
      EscapeAppend(a[1..], b);
    }
  }

  /** The character an escaped text starts with, and how many characters encode it. */
  function DecodeHead(s: string): (d: (char, nat))
    requires s != []
    ensures 1 <= d.1 <= |s|
  {
    if StartsWith(s, "&lt;") then ('<', 4)
    else if StartsWith(s, "&gt;") then ('>', 4)
    else if StartsWith(s, "&amp;") then ('&', 5)
    else if StartsWith(s, "&quot;") then ('"', 6)
    else if StartsWith(s, "&apos;") then ('\'', 6)
    else (s[0], 1)
  }

  /** Decoding of the five predefined entities, the inverse of `Escape`. */
  function Unescape(s: string): string
    decreases |s|
  {
    if s == [] then [] else var (c, n) := DecodeHead(s); [c] + Unescape(s[n..])
  }

  /** Nothing is lost: decoding the escaped text gives the original text back. */
  lemma {:induction false} UnescapeEscape(s: string)
    ensures Unescape(Escape(s)) == s
  {
    if s != [] {
      UnescapeEscapedHead(s[0], Escape(s[1..]));
      UnescapeEscape(s[1..]);
      assert s == [s[0]] + s[1..];
    }
  }

  /** Decoding an escaped character followed by `t` gives the character, then `t` decoded. */
  lemma UnescapeEscapedHead(c: char, t: string)
    ensures Unescape(EscapeChar(c) + t) == [c] + Unescape(t)
  {
    var e := EscapeChar(c);
    DecodeEscaped(c, t);
    assert (e + t)[|e|..] == t;
  }

  /** An escaped character followed by anything decodes back to that character. */
  lemma DecodeEscaped(c: char, t: string)
    ensures DecodeHead(EscapeChar(c) + t) == (c, |EscapeChar(c)|)
  {
    var e := EscapeChar(c);
    var s := e + t;
    assert s[..|e|] == e;
    if !IsSpecial(c) {
      assert s[0] == c;
    } else if c == '<' {
      assert StartsWith(s, "&lt;");
    } else if c == '>' {
      assert !StartsWith(s, "&lt;") by { assert s[1] == 'g'; }
      assert StartsWith(s, "&gt;");
    } else if c == '&' {
      assert !StartsWith(s, "&lt;") && !StartsWith(s, "&gt;") by { assert s[1] == 'a'; }
      assert StartsWith(s, "&amp;");
    } else if c == '"' {
      assert !StartsWith(s, "&lt;") && !StartsWith(s, "&gt;") && !StartsWith(s, "&amp;") by {
        assert s[1] == 'q';
      }
      assert StartsWith(s, "&quot;");
    } else {
      assert !StartsWith(s, "&lt;") && !StartsWith(s, "&gt;") && !StartsWith(s, "&amp;") by {
        assert s[1] == 'a' && s[2] == 'p';
      }
      assert !StartsWith(s, "&quot;") by { assert s[1] == 'a'; }
      assert StartsWith(s, "&apos;");
    }
  }

  /** The text comes back unchanged exactly when it holds no special character. */
  lemma {:induction false} EscapeIdentityIff(s: string)
    ensures Escape(s) == s <==> forall i :: 0 <= i < |s| ==> !IsSpecial(s[i])
  {
    if s != [] {
      EscapeIdentityIff(s[1..]);
      var e, t := EscapeChar(s[0]), Escape(s[1..]);
      if IsSpecial(s[0]) {
        assert |e + t| > |s|;
      } else {
        assert s == [s[0]] + s[1..];
        assert (Escape(s) == s) == (t == s[1..]);
        assert forall i :: 1 <= i < |s| ==> s[i] == s[1..][i - 1];
      }
    }
  }
}
