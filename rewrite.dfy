/** `fixLocalhostUrls` (server.js:91-104): strips the production origin from
    every absolute URL in a document, so the links become relative. */
module UrlRewrite {

  import opened Text

  /** The regular expression `/https:\/\/muscatwhereto\.com/g` matches exactly
      this text: no other scheme, no other letter case. */
  const ORIGIN := "https://muscatwhereto.com"

  /** The global replace of the origin by "": scanning left to right, a match
      is deleted and the scan resumes after it; any other character is kept. */
  function FixLocalhostUrls(html: string): (r: string)
    ensures |r| <= |html|
    decreases |html|
  {
    if |html| == 0 then ""
    else if StartsWith(html, ORIGIN) then FixLocalhostUrls(html[|ORIGIN|..])
    else [html[0]] + FixLocalhostUrls(html[1..])
  }

  /** The condition under which the source logs that rewriting was applied:
      the text after the replace differs from the text before it. */
  predicate RewriteApplied(html: string)
  {
    FixLocalhostUrls(html) != html
  }

  /** No proper suffix of the origin is also a prefix of it, so an occurrence
      can never start inside another one. */
  lemma OriginHasNoBorder(m: nat)
    requires 0 < m < |ORIGIN|
    ensures ORIGIN[m..] != ORIGIN[..|ORIGIN| - m]
  {
    assert ORIGIN[..|ORIGIN| - m][0] == 'h';
    if m == 15 {
      assert ORIGIN[m..][1] == 'e' != ORIGIN[..|ORIGIN| - m][1];
    } else {
      assert ORIGIN[m..][0] == ORIGIN[m] != 'h';
    }
  }

  /** Text without the origin is returned unchanged. */
  lemma {:induction false} FixWithoutOrigin(s: string)
    requires !Contains(s, ORIGIN)
    ensures FixLocalhostUrls(s) == s
  {
    if |s| > 0 {
      assert s[0..] == s;
      assert !OccursAt(s, ORIGIN, 0);
      assert !Contains(s[1..], ORIGIN) by {
        forall i: nat | i <= |s[1..]| ensures !OccursAt(s[1..], ORIGIN, i) {
          OccursAtShift(s, ORIGIN, i);
        }
      }
      FixWithoutOrigin(s[1..]);
      assert s == [s[0]] + s[1..];
    }
  }

  /** Text holding the origin loses at least one whole origin. */
  lemma {:induction false} FixShrinksWithOrigin(s: string)
    requires Contains(s, ORIGIN)
    ensures |FixLocalhostUrls(s)| + |ORIGIN| <= |s|
    decreases |s|
  {
    if !StartsWith(s, ORIGIN) {
      var i: nat :| i <= |s| && OccursAt(s, ORIGIN, i);
      assert OccursAt(s, ORIGIN, i);
      assert s[0..] == s;
      assert i > 0;
      OccursAtShift(s, ORIGIN, i - 1);
      assert OccursAt(s[1..], ORIGIN, i - 1);
      FixShrinksWithOrigin(s[1..]);
    }
  }

  /** The source logs "URL rewriting applied" exactly when the document
      contains the origin. */
  lemma RewriteAppliedIff(s: string)
    ensures RewriteApplied(s) <==> Contains(s, ORIGIN)
  {
    if Contains(s, ORIGIN) {
      FixShrinksWithOrigin(s);
    } else {
      FixWithoutOrigin(s);
    }
  }

  /** Only whole origins are deleted: the length drops by a multiple of the
      origin's 25 characters. */
  lemma {:induction false} FixDeletesWholeOrigins(s: string)
    ensures (|s| - |FixLocalhostUrls(s)|) % |ORIGIN| == 0
    decreases |s|
  {
    if |s| > 0 {
      if StartsWith(s, ORIGIN) {
        var rest := s[|ORIGIN|..];
        FixDeletesWholeOrigins(rest);
        assert |ORIGIN| == 25;
        AddModulus(|rest| - |FixLocalhostUrls(rest)|);
      } else {
        FixDeletesWholeOrigins(s[1..]);
        assert |s| - |FixLocalhostUrls(s)| == |s[1..]| - |FixLocalhostUrls(s[1..])|;
      }
    }
  }

  /** Text at least as long as the origin decides alone whether anything
      it starts starts with the origin. */
  lemma LongLeadDecidesStart(a: string, o: string, b: string)
    requires |a| >= |ORIGIN|
    ensures StartsWith(a + o + b, ORIGIN) == StartsWith(a, ORIGIN)
  {
    assert (a + o + b)[..|ORIGIN|] == a[..|ORIGIN|];
  }

  /** Adding one more origin's length keeps a multiple of it (stated with
      the literal 25, since a symbolic modulus is nonlinear arithmetic). */
  lemma AddModulus(d: int)
    requires d % 25 == 0
    ensures (d + 25) % 25 == 0
  {
  }

  /** A short non-empty lead followed by the origin does not start with the
      origin: that would make the origin overlap itself. */
  lemma ShortLeadBeforeOrigin(a: string, b: string)
    requires 0 < |a| < |ORIGIN|
    ensures !StartsWith(a + ORIGIN + b, ORIGIN)
  {
    var s := a + ORIGIN + b;
    assert s[..|ORIGIN|] == a + ORIGIN[..|ORIGIN| - |a|];
    assert s[..|ORIGIN|][|a|..] == ORIGIN[..|ORIGIN| - |a|];
    OriginHasNoBorder(|a|);
  }

  /** Whatever surrounds an origin, that origin is deleted and the text on
      either side is rewritten on its own: no occurrence starting before it
      can overlap it. */
  lemma {:induction false} FixAroundOrigin(a: string, b: string)
    ensures FixLocalhostUrls(a + ORIGIN + b) == FixLocalhostUrls(a) + FixLocalhostUrls(b)
    decreases |a|
  {
    if |a| == 0 {
      JoinAfterEmpty(a, ORIGIN, b);
      FixDropsLeadingOrigin(b);
    } else if StartsWith(a, ORIGIN) {
      LongLeadDecidesStart(a, ORIGIN, b);
      DropFromLead(a, ORIGIN, b, |ORIGIN|);
      FixAroundOrigin(a[|ORIGIN|..], b);
    } else {
      if |a| >= |ORIGIN| {
        LongLeadDecidesStart(a, ORIGIN, b);
      } else {
        ShortLeadBeforeOrigin(a, b);
      }
      DropFromLead(a, ORIGIN, b, 1);
      FixAroundOrigin(a[1..], b);
    }
  }

  /** A leading origin is deleted. */
  lemma FixDropsLeadingOrigin(s: string)
    ensures FixLocalhostUrls(ORIGIN + s) == FixLocalhostUrls(s)
  {
    assert (ORIGIN + s)[..|ORIGIN|] == ORIGIN && (ORIGIN + s)[|ORIGIN|..] == s;
  }

  /** No occurrence of the origin can run across a boundary where the text
      after it starts with a character the origin does not hold, so the two
      sides are rewritten on their own. */
  lemma {:induction false} FixSplitsAtForeignChar(a: string, b: string)
    requires |b| > 0 && b[0] !in ORIGIN
    ensures FixLocalhostUrls(a + b) == FixLocalhostUrls(a) + FixLocalhostUrls(b)
    decreases |a|
  {
    var s := a + b;
    if |a| == 0 {
      assert s == b;
    } else if StartsWith(a, ORIGIN) {
      assert s[..|ORIGIN|] == a[..|ORIGIN|];
      assert s[|ORIGIN|..] == a[|ORIGIN|..] + b;
      FixSplitsAtForeignChar(a[|ORIGIN|..], b);
    } else {
      if |a| >= |ORIGIN| {
        assert s[..|ORIGIN|] == a[..|ORIGIN|];
      } else {
        assert s[|a|] == b[0];
        assert !StartsWith(s, ORIGIN);
      }
      assert s[1..] == a[1..] + b;
      FixSplitsAtForeignChar(a[1..], b);
    }
  }

  /** The same, where the text before the boundary ends with a character
      the origin does not hold. */
  lemma FixSplitsAfterForeignChar(a: string, b: string)
    requires |a| > 0 && a[|a| - 1] !in ORIGIN
    ensures FixLocalhostUrls(a + b) == FixLocalhostUrls(a) + FixLocalhostUrls(b)
  {
    var init, c := a[..|a| - 1], a[|a| - 1];
    assert a == init + [c];
    assert a + b == init + ([c] + b);
    FixKeepsForeignHead(c, b);
    FixKeepsForeignHead(c, "");
    assert [c] + "" == [c];
    FixSplitsAtForeignChar(init, [c] + b);
    FixSplitsAtForeignChar(init, [c]);
  }

  /** A character that cannot start the origin is kept. */
  lemma FixKeepsForeignHead(c: char, b: string)
    requires c !in ORIGIN
    ensures FixLocalhostUrls([c] + b) == [c] + FixLocalhostUrls(b)
  {
    var s := [c] + b;
    assert s[0] == c && s[1..] == b;
    assert !StartsWith(s, ORIGIN);
  }

  /** A piece enclosed by characters that cannot belong to the origin is
      rewritten on its own, and the result shows it. */
  lemma FixKeepsEnclosedPiece(a: string, m: string, b: string)
    requires |a| > 0 && a[|a| - 1] !in ORIGIN
    requires |b| > 0 && b[0] !in ORIGIN
    ensures FixLocalhostUrls(a + m + b) == FixLocalhostUrls(a) + FixLocalhostUrls(m) + FixLocalhostUrls(b)
  {
    FixSplitsAtForeignChar(a + m, b);
    FixSplitsAfterForeignChar(a, m);
  }

  /** Rewriting is idempotent when its output no longer holds the origin. */
  lemma FixIdempotentWithoutSplice(s: string)
    requires !Contains(FixLocalhostUrls(s), ORIGIN)
    ensures FixLocalhostUrls(FixLocalhostUrls(s)) == FixLocalhostUrls(s)
  {
    FixWithoutOrigin(FixLocalhostUrls(s));
  }

  /** Rewriting is not idempotent in general: deleting an origin can join the
      text around it into a new one, as in "https://muscat" + ORIGIN +
      "whereto.com", which rewrites to ORIGIN and then to "". */
  lemma FixNotIdempotent(a: string, b: string)
    requires a != "" && b != "" && a + b == ORIGIN
    ensures FixLocalhostUrls(a + ORIGIN + b) == ORIGIN
    ensures FixLocalhostUrls(FixLocalhostUrls(a + ORIGIN + b)) == ""
  {
    FixAroundOrigin(a, b);
    ShortHasNoOccurrence(a, ORIGIN);
    ShortHasNoOccurrence(b, ORIGIN);
    FixWithoutOrigin(a);
    FixWithoutOrigin(b);
    var o := ORIGIN;
    assert o[..|o|] == o && o[|o|..] == "";
  }

  /** The plain-http scheme is not rewritten. */
  lemma PlainHttpIsKept()
    ensures FixLocalhostUrls("http://muscatwhereto.com") == "http://muscatwhereto.com"
  {
    var h := "http://muscatwhereto.com";
    ShortHasNoOccurrence(h, ORIGIN);
    FixWithoutOrigin(h);
  }

  /** Another letter case is not rewritten. */
  lemma OtherCaseIsKept()
    ensures FixLocalhostUrls("HTTPS://MUSCATWHERETO.COM") == "HTTPS://MUSCATWHERETO.COM"
  {
    var u := "HTTPS://MUSCATWHERETO.COM";
    assert !Contains(u, ORIGIN) by {
      forall i: nat | i <= |u| ensures !OccursAt(u, ORIGIN, i) {
        if i == 0 {
          assert u[0..][..|ORIGIN|][0] == 'H' != ORIGIN[0];
        } else {
          assert |u[i..]| < |ORIGIN|;
        }
      }
    }
    FixWithoutOrigin(u);
  }

}
