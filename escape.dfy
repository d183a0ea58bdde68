/** `escapeHtml` (server.js:33-43): every interpolated value in the meta tags
    goes through it. */
module HtmlEscape {

  import opened Options
  import opened Text
  import opened JsValues

  /** The five characters the escaper rewrites. */
  predicate IsSpecial(c: char)
  {
    c == '&' || c == '<' || c == '>' || c == '"' || c == '\''
  }

  /** The entity that stands for `c`, or `c` itself. */
  function EscapeChar(c: char): (r: string)
    ensures IsSpecial(c) ==> |r| > 1 && r[0] == '&'
    ensures !IsSpecial(c) ==> r == [c]
  {
    match c
    case '&' => "&amp;"
    case '<' => "&lt;"
    case '>' => "&gt;"
    case '"' => "&quot;"
    case '\'' => "&#039;"
    case _ => [c]
  }

  /** The global replace of `/[&<>"']/g`, one character at a time. */
  function Escape(s: string): (r: string)
    ensures |r| >= |s|
  {
    if |s| == 0 then "" else EscapeChar(s[0]) + Escape(s[1..])
  }

  /** `escapeHtml(text)` on any JavaScript value: a falsy value gives "", a
      non-empty string is escaped, and any other truthy value has no
      `replace` method, so the call throws a TypeError (`None`). */
  function EscapeHtml(text: Value): (r: Option<string>)
    ensures !Truthy(text) ==> r == Some("")
    ensures text.Str? ==> r == Some(Escape(text.s))
    ensures r.None? <==> text.NonString? && text.truthy
  {
    if !Truthy(text) then Some("")
    else if text.Str? then Some(Escape(text.s))
    else None
  }

  /** The five entities, and where one starts. */
  predicate EntityAt(s: string, i: nat)
  {
    i <= |s| &&
    (StartsWith(s[i..], "&amp;") || StartsWith(s[i..], "&lt;") || StartsWith(s[i..], "&gt;")
     || StartsWith(s[i..], "&quot;") || StartsWith(s[i..], "&#039;"))
  }

  /** Text that can stand inside an element or a quoted attribute: no raw
      `<`, `>`, `"` or `'`, and every `&` starts one of the five entities. */
  predicate HtmlSafe(s: string)
  {
    forall i: nat | i < |s| :: !(s[i] in "<>\"'") && (s[i] == '&' ==> EntityAt(s, i))
  }

  /** The reference decoder for the five entities, read left to right. */
  function Unescape(s: string): string
    decreases |s|
  {
    if |s| == 0 then ""
    else if StartsWith(s, "&amp;") then "&" + Unescape(s[5..])
    else if StartsWith(s, "&lt;") then "<" + Unescape(s[4..])
    else if StartsWith(s, "&gt;") then ">" + Unescape(s[4..])
    else if StartsWith(s, "&quot;") then "\"" + Unescape(s[6..])
    else if StartsWith(s, "&#039;") then "'" + Unescape(s[6..])
    else [s[0]] + Unescape(s[1..])
  }

  /** Escaping is a per-character map: it distributes over concatenation. */
  lemma {:induction false} EscapeConcat(a: string, b: string)
    ensures Escape(a + b) == Escape(a) + Escape(b)
  {
    if |a| == 0 {
      assert a + b == b;
    } else {
      assert (a + b)[1..] == a[1..] + b;
      EscapeConcat(a[1..], b);
    }
  }

  /** Decoding an entity and then more text gives its character back and
      decodes the rest. */
  lemma UnescapeEntity(c: char, rest: string)
    requires IsSpecial(c)
    ensures Unescape(EscapeChar(c) + rest) == [c] + Unescape(rest)
  {
    var head := EscapeChar(c);
    var e := head + rest;
    assert e[..|head|] == head && e[|head|..] == rest;
    assert e[0] == '&' && e[1] == head[1];
    if c == '&' {
      assert StartsWith(e, "&amp;");
    } else if c == '<' {
      assert !StartsWith(e, "&amp;") && StartsWith(e, "&lt;");
    } else if c == '>' {
      assert !StartsWith(e, "&amp;") && !StartsWith(e, "&lt;") && StartsWith(e, "&gt;");
    } else if c == '"' {
      assert !StartsWith(e, "&amp;") && !StartsWith(e, "&lt;") && !StartsWith(e, "&gt;");
      assert StartsWith(e, "&quot;");
    } else {
      assert !StartsWith(e, "&amp;") && !StartsWith(e, "&lt;") && !StartsWith(e, "&gt;");
      assert !StartsWith(e, "&quot;") && StartsWith(e, "&#039;");
    }
  }

  /** Decoding the escape of one character and then more text gives the
      character back and decodes the rest. */
  lemma UnescapeEscapedChar(c: char, rest: string)
    ensures Unescape(EscapeChar(c) + rest) == [c] + Unescape(rest)
  {
    if IsSpecial(c) {
      UnescapeEntity(c, rest);
    } else {
      var e := [c] + rest;
      assert e[0] == c && e[1..] == rest;
      UnescapePlain(e);
    }
  }

  /** Text that does not start with `&` starts with its own first character
      once decoded. */
  lemma UnescapePlain(s: string)
    requires |s| > 0 && s[0] != '&'
    ensures Unescape(s) == [s[0]] + Unescape(s[1..])
  {
    forall p: string | |p| > 0 && p[0] == '&' ensures !StartsWith(s, p) {
      if |p| <= |s| {
        assert s[..|p|][0] == s[0];
      }
    }
  }

  /** Decoding undoes escaping, so escaping loses nothing and keeps every
      character in order. */
  lemma {:induction false} UnescapeEscape(s: string)
    ensures Unescape(Escape(s)) == s
  {
    if |s| > 0 {
      UnescapeEscapedChar(s[0], Escape(s[1..]));
      UnescapeEscape(s[1..]);
      assert s == [s[0]] + s[1..];
    }
  }

  lemma SafeJoin(a: string, b: string)
    requires HtmlSafe(a) && HtmlSafe(b)
    ensures HtmlSafe(a + b)
  {
    var s := a + b;
    forall i: nat | i < |s| ensures !(s[i] in "<>\"'") && (s[i] == '&' ==> EntityAt(s, i)) {
      if i < |a| {
        assert s[i] == a[i];
        if s[i] == '&' {
          assert EntityAt(a, i);
          assert s[i..] == a[i..] + b;
        }
      } else {
        assert s[i] == b[i - |a|];
        assert s[i..] == b[i - |a|..];
        if s[i] == '&' {
          assert EntityAt(b, i - |a|);
        }
      }
    }
  }

  /** An entity is safe: it starts one, and nothing after its `&` needs one. */
  lemma EntityIsSafe(e: string)
    requires EntityAt(e, 0)
    requires forall i | 0 < i < |e| :: !(e[i] in "&<>\"'")
    ensures HtmlSafe(e)
  {
    assert e[0..] == e;
  }

  lemma EscapeCharIsSafe(c: char)
    ensures HtmlSafe(EscapeChar(c))
  {
    match c
    case '&' => assert "&amp;"[0..] == "&amp;"; EntityIsSafe("&amp;");
    case '<' => assert "&lt;"[0..] == "&lt;"; EntityIsSafe("&lt;");
    case '>' => assert "&gt;"[0..] == "&gt;"; EntityIsSafe("&gt;");
    case '"' => assert "&quot;"[0..] == "&quot;"; EntityIsSafe("&quot;");
    case '\'' => assert "&#039;"[0..] == "&#039;"; EntityIsSafe("&#039;");
    case _ =>
  }

  /** The escaper's output is always safe to embed in markup. */
  lemma {:induction false} EscapeIsSafe(s: string)
    ensures HtmlSafe(Escape(s))
  {
    if |s| > 0 {
      EscapeCharIsSafe(s[0]);
      EscapeIsSafe(s[1..]);
      SafeJoin(EscapeChar(s[0]), Escape(s[1..]));
    }
  }

  /** Escaping changes a string exactly when it holds one of the five. */
  lemma {:induction false} EscapeUnchangedIff(s: string)
    ensures Escape(s) == s <==> forall i | 0 <= i < |s| :: !IsSpecial(s[i])
  {
    if |s| > 0 {
      EscapeUnchangedIff(s[1..]);
      var rest := Escape(s[1..]);
      if IsSpecial(s[0]) {
        assert |Escape(s)| > |s|;
      } else {
        assert Escape(s) == [s[0]] + rest;
        assert s == [s[0]] + s[1..];
        assert (forall i | 0 <= i < |s| :: !IsSpecial(s[i]))
          <==> (forall i | 0 <= i < |s[1..]| :: !IsSpecial(s[1..][i]));
      }
    }
  }

  /** Text without the five characters is safe as it is. */
  lemma PlainIsSafe(s: string)
    requires forall i | 0 <= i < |s| :: !IsSpecial(s[i])
    ensures HtmlSafe(s)
  {
    EscapeUnchangedIff(s);
    EscapeIsSafe(s);
  }

}
