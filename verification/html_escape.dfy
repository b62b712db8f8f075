/** The calculator's `escapeHtml`: every history expression and result is
    passed through it before it is embedded in the history list's markup. */
module HtmlEscape {

  /** The five characters `escapeHtml` rewrites. */
  predicate IsSpecial(c: char) {
    c == '&' || c == '<' || c == '>' || c == '"' || c == '\''
  }

  /** Characters that must never appear raw in escaped text (an `&` may,
      as the first character of an entity). */
  predicate IsMarkup(c: char) {
    c == '<' || c == '>' || c == '"' || c == '\''
  }

  /** The replacement `escapeHtml`'s lookup table gives one character. */
  function EscapeChar(c: char): (r: string)
    ensures IsSpecial(c) <==> r != [c]
    ensures IsSpecial(c) ==> |r| >= 4 && r[0] == '&' && r[|r| - 1] == ';'
    ensures forall i :: 0 <= i < |r| ==> !IsMarkup(r[i])
  {
    match c
    case '&' => "&amp;"
    case '<' => "&lt;"
    case '>' => "&gt;"
    case '"' => "&quot;"
    case '\'' => "&#039;"
    case _ => [c]
  }

  /** `escapeHtml`: the global regular-expression replacement, character by
      character from the front. */
  function EscapeHtml(text: string): (r: string)
    ensures |r| >= |text|
    ensures forall i :: 0 <= i < |r| ==> !IsMarkup(r[i])
  {
    if text == [] then [] else EscapeChar(text[0]) + EscapeHtml(text[1..])
  }

  /** Reverses `EscapeHtml`: each of the five entities becomes its character
      again; any other character is kept. */
  function UnescapeHtml(s: string): (r: string)
    decreases |s|
  {
    if s == [] then []
    else if "&amp;" <= s then "&" + UnescapeHtml(s[5..])
    else if "&lt;" <= s then "<" + UnescapeHtml(s[4..])
    else if "&gt;" <= s then ">" + UnescapeHtml(s[4..])
    else if "&quot;" <= s then "\"" + UnescapeHtml(s[6..])
    else if "&#039;" <= s then "'" + UnescapeHtml(s[6..])
    else [s[0]] + UnescapeHtml(s[1..])
  }

  /** Undoing the replacement of the first character. */
  lemma UnescapeEscapeChar(c: char, rest: string)
    ensures UnescapeHtml(EscapeChar(c) + rest) == [c] + UnescapeHtml(rest)
  {
    var s := EscapeChar(c) + rest;
    if IsSpecial(c) {
      var e := EscapeChar(c);
      assert s[|e|..] == rest;
      assert e <= s;
      // The entities differ in their second character, so only one matches.
      assert s[1] == e[1];
    } else {
      assert s == [c] + rest;
      assert s[0] == c && c != '&';
      assert s[1..] == rest;
    }
  }

  /** Escaping loses nothing: the original text can always be recovered. */
  lemma {:induction false} UnescapeEscape(text: string)
    ensures UnescapeHtml(EscapeHtml(text)) == text
  {
    if text != [] {
      UnescapeEscapeChar(text[0], EscapeHtml(text[1..]));
      UnescapeEscape(text[1..]);
      assert text == [text[0]] + text[1..];
    }
  }

  /** Escaping is injective: two different texts never render the same. */
  lemma EscapeInjective(a: string, b: string)
    requires EscapeHtml(a) == EscapeHtml(b)
    ensures a == b
  {
    UnescapeEscape(a);
    UnescapeEscape(b);
  }

  /** The replacement works piece by piece: escaping a concatenation
      concatenates the escaped parts, so every character is replaced in
      place and in order. */
  lemma {:induction false} EscapeConcat(a: string, b: string)
    ensures EscapeHtml(a + b) == EscapeHtml(a) + EscapeHtml(b)
  {
    if a != [] {
      assert (a + b)[0] == a[0];
      assert (a + b)[1..] == a[1..] + b;
      EscapeConcat(a[1..], b);
    } else {
      assert a + b == b;
    }
  }

  /** A single character is replaced by its entry in the table. */
  lemma EscapeSingle(c: char)
    ensures EscapeHtml([c]) == EscapeChar(c)
  {
    assert [c][1..] == [];
  }

  /** Text is left exactly as it is iff it holds none of the five characters. */
  lemma {:induction false} EscapeIdentity(text: string)
    ensures EscapeHtml(text) == text <==> forall i :: 0 <= i < |text| ==> !IsSpecial(text[i])
  {
    if text != [] {
      var rest := text[1..];
      EscapeIdentity(rest);
      if IsSpecial(text[0]) {
        assert |EscapeHtml(text)| >= 4 + |rest| > |text|;
      } else {
        assert EscapeHtml(text) == [text[0]] + EscapeHtml(rest);
        assert text == [text[0]] + rest;
        if EscapeHtml(text) == text {
          assert EscapeHtml(rest) == rest;
        }
        assert (forall i :: 0 <= i < |text| ==> !IsSpecial(text[i]))
            <==> (forall i :: 0 <= i < |rest| ==> !IsSpecial(rest[i])) by {
          forall i | 0 <= i < |rest| ensures rest[i] == text[i + 1] { }
        }
      }
    }
  }
}
