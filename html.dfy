/** Helpers the three page scripts share: the HTML entity escaper (one copy
    in each of admin.js, orders.js and menu.js), the status names the pages
    know, the `table[key] || fallback` lookup and the warning a check raises. */
module Html {
  import opened Errors

  /** The five characters the escaper rewrites. */
  predicate Special(c: char) {
    c == '&' || c == '<' || c == '>' || c == '"' || c == '\''
  }

  /** The replacement of one character. */
  function Entity(c: char): (r: string)
    ensures Special(c) ==> |r| > 1 && r[0] == '&'
    ensures !Special(c) ==> r == [c]
  {
    match c
    case '&' => "&amp;"
    case '<' => "&lt;"
    case '>' => "&gt;"
    case '"' => "&quot;"
    case '\'' => "&#039;"
    case _ => [c]
  }

  /** `escapeHtml` as orders.js and menu.js write it: each of & < > " ' becomes
      its entity, every other character is kept, in order. */
  function EscapeHtml(s: string): (r: string)
    ensures |r| >= |s|
    ensures |r| == |s| <==> forall i :: 0 <= i < |s| ==> !Special(s[i])
    ensures forall i :: 0 <= i < |r| ==> r[i] != '<' && r[i] != '>' && r[i] != '"' && r[i] != '\''
    ensures r == [] <==> s == []
  {
    if |s| == 0 then []
    else
      var rest := EscapeHtml(s[1..]);
      assert forall i :: 1 <= i < |s| ==> s[i] == s[1..][i - 1];
      Entity(s[0]) + rest
  }

  /** admin.js's copy: an absent or empty text gives the empty string. */
  function AdminEscapeHtml(text: Option<string>): (r: string)
    ensures text.None? ==> r == []
    ensures text.Some? ==> r == EscapeHtml(text.value)
  {
    if text.None? || text.value == [] then [] else EscapeHtml(text.value)
  }

  predicate StartsWith(s: string, prefix: string) {
    |prefix| <= |s| && s[..|prefix|] == prefix
  }

  /** The decoder of the five entities: the inverse the escaper is measured against. */
  function UnescapeHtml(r: string): (s: string)
    ensures |s| <= |r|
    decreases |r|
  {
    if |r| == 0 then []
    else if StartsWith(r, "&amp;") then ['&'] + UnescapeHtml(r[5..])
    else if StartsWith(r, "&lt;") then ['<'] + UnescapeHtml(r[4..])
    else if StartsWith(r, "&gt;") then ['>'] + UnescapeHtml(r[4..])
    else if StartsWith(r, "&quot;") then ['"'] + UnescapeHtml(r[6..])
    else if StartsWith(r, "&#039;") then ['\''] + UnescapeHtml(r[6..])
    else [r[0]] + UnescapeHtml(r[1..])
  }

  /** A text that differs from a prefix at some position does not start with it. */
  lemma DiffersAt(r: string, prefix: string, i: nat)
    requires i < |prefix| && i < |r| && r[i] != prefix[i]
    ensures !StartsWith(r, prefix)
  {
    if |prefix| <= |r| {
      assert r[..|prefix|][i] == r[i];
    }
  }

  /** Decoding one entity followed by more text. */
  lemma UnescapeAfter(e: string, c: char, rest: string)
    requires e == "&amp;" || e == "&lt;" || e == "&gt;" || e == "&quot;" || e == "&#039;"
    requires c == (if e == "&amp;" then '&' else if e == "&lt;" then '<' else if e == "&gt;" then '>'
      else if e == "&quot;" then '"' else '\'')
    ensures UnescapeHtml(e + rest) == [c] + UnescapeHtml(rest)
  {
    var r := e + rest;
    assert r[..|e|] == e && r[|e|..] == rest;
    assert r[1] == e[1];
    if e != "&amp;" { DiffersAt(r, "&amp;", 1); }
    if e != "&lt;" { DiffersAt(r, "&lt;", 1); }
    if e != "&gt;" { DiffersAt(r, "&gt;", 1); }
    if e != "&quot;" { DiffersAt(r, "&quot;", 1); }
  }

  /** Decoding the replacement of one character gives that character back. */
  lemma UnescapeEntity(c: char, rest: string)
    ensures UnescapeHtml(Entity(c) + rest) == [c] + UnescapeHtml(rest)
  {
    if Special(c) {
      UnescapeAfter(Entity(c), c, rest);
    } else {
      var r := [c] + rest;
      assert r[0] == c && r[1..] == rest;
      DiffersAt(r, "&amp;", 0);
      DiffersAt(r, "&lt;", 0);
      DiffersAt(r, "&gt;", 0);
      DiffersAt(r, "&quot;", 0);
      DiffersAt(r, "&#039;", 0);
    }
  }

  /** Escaping loses nothing: decoding the output gives the input back. */
  lemma {:induction false} EscapeRoundTrip(s: string)
    ensures UnescapeHtml(EscapeHtml(s)) == s
  {
    if |s| > 0 {
      EscapeRoundTrip(s[1..]);
      UnescapeEntity(s[0], EscapeHtml(s[1..]));
    }
  }

  /** Distinct texts are displayed differently. */
  lemma EscapeInjective(a: string, b: string)
    requires EscapeHtml(a) == EscapeHtml(b)
    ensures a == b
  {
    EscapeRoundTrip(a);
    EscapeRoundTrip(b);
  }

  /** Escaping works character by character: the escape of a concatenation
      is the concatenation of the escapes. */
  lemma {:induction false} EscapeAppend(a: string, b: string)
    ensures EscapeHtml(a + b) == EscapeHtml(a) + EscapeHtml(b)
  {
    if |a| == 0 {
      assert a + b == b;
    } else {
      assert (a + b)[0] == a[0];
      assert (a + b)[1..] == a[1..] + b;
      EscapeAppend(a[1..], b);
    }
  }

  /** Text without any of the five characters is shown as it is. */
  lemma {:induction false} EscapePlainText(s: string)
    requires forall i :: 0 <= i < |s| ==> !Special(s[i])
    ensures EscapeHtml(s) == s
  {
    if |s| > 0 {
      assert forall i :: 0 <= i < |s| - 1 ==> s[1..][i] == s[i + 1];
      EscapePlainText(s[1..]);
    }
  }

  lemma EscapeChar(c: char)
    ensures EscapeHtml([c]) == Entity(c)
  {
    assert [c][1..] == [];
  }

  lemma EscapeTagExample()
    ensures EscapeHtml("<b>") == "&lt;b&gt;"
  {
    EscapeChar('<');
    EscapeChar('b');
    EscapeChar('>');
    assert "<b>" == "<" + "b" + ">";
    EscapeAppend("<", "b");
    EscapeAppend("<b", ">");
  }

  // ---- Status names and lookups ----------------------------------------------

  /** The statuses the pages' lookup tables name. */
  const STATUSES: seq<string> := ["PENDING", "APPROVED", "COMPLETED", "DELIVERED", "REJECTED"]

  /** `table[key] || fallback`: the entry when there is a non-empty one. */
  function Lookup(table: map<string, string>, key: string, fallback: string): (r: string)
    ensures key in table && table[key] != [] ==> r == table[key]
    ensures key !in table ==> r == fallback
  {
    if key in table && table[key] != [] then table[key] else fallback
  }

  /** What a client-side check does: let the request go, or warn and stop. */
  datatype Notice = Accept | Warn(message: string)
}
