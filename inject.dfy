/** `injectMetaTags` (server.js:107-118): drops every dynamic region already
    in the page, then puts a fresh one right after the first `<head>`. */
module MetaInject {

  import opened Options
  import opened Text

  const OPEN := "<!-- Dynamic -->"
  const CLOSE := "<!-- /Dynamic -->"
  const HEAD := "<head>"
  /** The line break and four spaces the source writes between the pieces. */
  const INDENT := "\n    "

  /** What replaces `<head>`: the tag itself, then the fragment between the
      two sentinel comments. */
  function Replacement(metaTags: string): string
  {
    HEAD + INDENT + OPEN + INDENT + metaTags + INDENT + CLOSE
  }

  /** The global replace of `/<!-- Dynamic -->[\s\S]*?<!-- \/Dynamic -->/g` by
      "": at each position, an opening sentinel followed somewhere by a
      closing one is a match reaching to the NEAREST closing sentinel (the
      gap is lazy and crosses line breaks); the scan resumes after it. An
      opening sentinel with no closing one after it is kept. */
  function StripDynamic(html: string): (r: string)
    ensures |r| <= |html|
    decreases |html|
  {
    if |html| == 0 then ""
    else if StartsWith(html, OPEN) && Find(html[|OPEN|..], CLOSE).Some? then
      StripDynamic(html[|OPEN| + Find(html[|OPEN|..], CLOSE).value + |CLOSE|..])
    else [html[0]] + StripDynamic(html[1..])
  }

  /** The page with its old regions stripped and the fragment injected after
      the first `<head>`, inserted literally (see InjectAsWritten for what
      the source's string replacement does to `$` patterns). */
  function InjectMetaTags(html: string, metaTags: string): (r: string)
    ensures Find(StripDynamic(html), HEAD).None? ==> r == StripDynamic(html)
    ensures Find(StripDynamic(html), HEAD).Some? ==>
              |r| == |StripDynamic(html)| + |Replacement(metaTags)| - |HEAD|
  {
    var stripped := StripDynamic(html);
    match Find(stripped, HEAD)
    case None => stripped
    case Some(k) => stripped[..k] + Replacement(metaTags) + stripped[k + |HEAD|..]
  }

  /** Text without an opening sentinel is not touched by stripping. */
  lemma {:induction false} StripWithoutOpen(s: string)
    requires !Contains(s, OPEN)
    ensures StripDynamic(s) == s
  {
    if |s| > 0 {
      assert s[0..] == s;
      assert !OccursAt(s, OPEN, 0);
      SliceHasNoOccurrence(s, OPEN, 1, |s|);
      assert s[1..|s|] == s[1..];
      StripWithoutOpen(s[1..]);
      assert s == [s[0]] + s[1..];
    }
  }

  /** Text without a closing sentinel is not touched by stripping either:
      an opening sentinel with nothing to close it fails to match and is
      kept. */
  lemma {:induction false} StripKeepsUnclosed(s: string)
    requires !Contains(s, CLOSE)
    ensures StripDynamic(s) == s
    decreases |s|
  {
    if |s| > 0 {
      if StartsWith(s, OPEN) {
        SliceHasNoOccurrence(s, CLOSE, |OPEN|, |s|);
        assert s[|OPEN|..|s|] == s[|OPEN|..];
      }
      SliceHasNoOccurrence(s, CLOSE, 1, |s|);
      assert s[1..|s|] == s[1..];
      StripKeepsUnclosed(s[1..]);
      assert s == [s[0]] + s[1..];
    }
  }

  /** Text before any opening sentinel is kept as it is. */
  lemma {:induction false} StripKeepsPlainPrefix(a: string, b: string)
    requires !Contains(a, OPEN)
    requires |b| == 0 || b[0] !in OPEN[1..]
    ensures StripDynamic(a + b) == a + StripDynamic(b)
  {
    var s := a + b;
    if |a| > 0 {
      var tail := a[1..];
      assert s[1..] == tail + b;
      assert s[0..] == s;
      assert !OccursAt(s, OPEN, 0) by {
        if OccursAt(s, OPEN, 0) {
          OccurrenceInConcat(a, b, OPEN, 0);
        }
      }
      SliceHasNoOccurrence(a, OPEN, 1, |a|);
      assert a[1..|a|] == tail;
      StripKeepsPlainPrefix(tail, b);
      assert a == [a[0]] + tail;
    } else {
      assert s == b;
    }
  }

  /** A region whose body has no closing sentinel is removed up to and
      including its closing sentinel. */
  lemma StripRegionAtStart(x: string, b: string)
    requires !Contains(x, CLOSE)
    ensures StripDynamic(OPEN + x + CLOSE + b) == StripDynamic(b)
  {
    var s := OPEN + x + CLOSE + b;
    var body := x + CLOSE + b;
    assert s[..|OPEN|] == OPEN;
    assert s[|OPEN|..] == body;
    assert LeadIsUnique(CLOSE);
    FindAfterPrefix(x, CLOSE, b);
    assert s[|OPEN| + |x| + |CLOSE|..] == b;
  }

  /** Stripping removes a complete region and keeps the text around it. */
  lemma StripRemovesRegion(a: string, x: string, b: string)
    requires !Contains(a, OPEN) && !Contains(x, CLOSE)
    ensures StripDynamic(a + OPEN + x + CLOSE + b) == a + StripDynamic(b)
  {
    var region := OPEN + x + CLOSE + b;
    assert a + OPEN + x + CLOSE + b == a + region;
    assert region[0] == '<' && '<' !in OPEN[1..];
    StripKeepsPlainPrefix(a, region);
    StripRegionAtStart(x, b);
  }

  /** The opening sentinel cannot start inside its own text nor inside
      the `<head>` line that precedes it. */
  lemma OpenFacts()
    ensures '<' !in OPEN[1..] && !Contains(HEAD + INDENT, OPEN)
  {
    ShortHasNoOccurrence(HEAD + INDENT, OPEN);
  }

  /** The closing sentinel cannot start inside its own text nor inside the
      indentation around the fragment. */
  lemma CloseFacts()
    ensures LeadIsUnique(CLOSE) && '<' !in INDENT && '\n' !in CLOSE[1..] && !Contains(INDENT, CLOSE)
  {
    ShortHasNoOccurrence(INDENT, CLOSE);
  }

  /** The characters that frame the replacement hold no `$`. */
  lemma FrameHasNoDollar()
    ensures '$' !in HEAD + INDENT + OPEN + INDENT && '$' !in INDENT + CLOSE
  {
  }

  /** Where `<head>` is found, the page is the text before it, the
      replacement, and the text after it. */
  lemma InjectShape(html: string, metaTags: string)
    requires Find(StripDynamic(html), HEAD).Some?
    ensures var s := StripDynamic(html);
            var k := Find(s, HEAD).value;
            InjectMetaTags(html, metaTags) == s[..k] + Replacement(metaTags) + s[k + |HEAD|..]
  {
  }

  /** The replacement seen as a fixed lead, the fragment, and a fixed trail. */
  lemma ReplacementShape(metaTags: string)
    ensures Replacement(metaTags) == (HEAD + INDENT + OPEN + INDENT) + metaTags + (INDENT + CLOSE)
  {
  }

  /** On a template without sentinels, the fragment lands right after the
      first `<head>` and nothing else changes. */
  lemma InjectIntoTemplate(t: string, metaTags: string)
    requires !Contains(t, OPEN) && Find(t, HEAD).Some?
    ensures var k := Find(t, HEAD).value;
            InjectMetaTags(t, metaTags) == t[..k] + Replacement(metaTags) + t[k + |HEAD|..]
  {
    StripWithoutOpen(t);
    InjectShape(t, metaTags);
  }

  /** The injected fragment appears verbatim in the page, whatever it holds. */
  lemma InjectPlacesFragmentVerbatim(html: string, metaTags: string)
    requires Find(StripDynamic(html), HEAD).Some?
    ensures Contains(InjectMetaTags(html, metaTags), metaTags)
  {
    var s := StripDynamic(html);
    var k := Find(s, HEAD).value;
    InjectShape(html, metaTags);
    ReplacementShape(metaTags);
    EnclosedOccurrence(s[..k], HEAD + INDENT + OPEN + INDENT, metaTags, INDENT + CLOSE, s[k + |HEAD|..]);
  }

  /** Text before `<head>` that has no opening sentinel still has none once
      `<head>` and the indentation follow it. */
  lemma LeadHasNoOpen(before: string)
    requires !Contains(before, OPEN)
    ensures !Contains(before + HEAD + INDENT, OPEN)
  {
    OpenFacts();
    NoOccurrenceAcrossJoin(before, HEAD + INDENT, OPEN);
    assert before + (HEAD + INDENT) == before + HEAD + INDENT;
  }

  /** A fragment without a closing sentinel keeps the region body free of
      one: the region cannot end early. */
  lemma BodyHasNoClose(metaTags: string)
    requires !Contains(metaTags, CLOSE)
    ensures !Contains(INDENT + metaTags + INDENT, CLOSE)
  {
    CloseFacts();
    NoOccurrenceAcrossJoin(metaTags, INDENT, CLOSE);
    NoOccurrenceAfterLeadFree(INDENT, metaTags + INDENT, CLOSE);
    assert INDENT + (metaTags + INDENT) == INDENT + metaTags + INDENT;
  }

  /** The injected page, cut into the pieces stripping sees. */
  lemma InjectedAsRegion(t1: string, metaTags: string, t2: string)
    ensures t1 + Replacement(metaTags) + t2
            == (t1 + HEAD + INDENT) + OPEN + (INDENT + metaTags + INDENT) + CLOSE + t2
  {
  }

  /** Stripping the replacement out of text without sentinels leaves the
      `<head>` tag and the indentation after it. */
  lemma StripReplacement(t1: string, metaTags: string, t2: string)
    requires !Contains(t1, OPEN) && !Contains(t2, OPEN) && !Contains(metaTags, CLOSE)
    ensures StripDynamic(t1 + Replacement(metaTags) + t2) == t1 + HEAD + INDENT + t2
  {
    LeadHasNoOpen(t1);
    BodyHasNoClose(metaTags);
    InjectedAsRegion(t1, metaTags, t2);
    StripRemovesRegion(t1 + HEAD + INDENT, INDENT + metaTags + INDENT, t2);
    StripWithoutOpen(t2);
  }

  /** Stripping after injecting gives the template back, except for the line
      break and indentation the source leaves after `<head>`. */
  lemma StripUndoesInject(t: string, metaTags: string)
    requires !Contains(t, OPEN) && !Contains(metaTags, CLOSE) && Find(t, HEAD).Some?
    ensures var k := Find(t, HEAD).value;
            StripDynamic(InjectMetaTags(t, metaTags)) == t[..k] + HEAD + INDENT + t[k + |HEAD|..]
  {
    var k := Find(t, HEAD).value;
    InjectIntoTemplate(t, metaTags);
    SliceHasNoOccurrence(t, OPEN, 0, k);
    SliceHasNoOccurrence(t, OPEN, k + |HEAD|, |t|);
    assert t[0..k] == t[..k] && t[k + |HEAD|..|t|] == t[k + |HEAD|..];
    StripReplacement(t[..k], metaTags, t[k + |HEAD|..]);
  }

  /** Where the stripped page is known to have its first `<head>` after
      `t1`, the replacement goes there. */
  lemma InjectAtKnownHead(html: string, t1: string, t2: string, metaTags: string)
    requires StripDynamic(html) == t1 + HEAD + t2 && !Contains(t1, HEAD)
    ensures InjectMetaTags(html, metaTags) == t1 + Replacement(metaTags) + t2
  {
    assert LeadIsUnique(HEAD);
    FindAfterPrefix(t1, HEAD, t2);
    SliceAroundMiddle(t1, HEAD, t2);
    InjectShape(html, metaTags);
  }

  /** Injecting twice replaces the first fragment rather than adding a second
      region: the result is the single-injection page for the second
      fragment, plus the line break and indentation left over from the first. */
  lemma ReinjectReplaces(t: string, first: string, second: string)
    requires !Contains(t, OPEN) && !Contains(first, CLOSE) && Find(t, HEAD).Some?
    ensures var k := Find(t, HEAD).value;
            && InjectMetaTags(t, second) == t[..k] + Replacement(second) + t[k + |HEAD|..]
            && InjectMetaTags(InjectMetaTags(t, first), second)
               == t[..k] + Replacement(second) + INDENT + t[k + |HEAD|..]
  {
    var k := Find(t, HEAD).value;
    var t1, t2 := t[..k], t[k + |HEAD|..];
    InjectIntoTemplate(t, second);
    StripUndoesInject(t, first);
    var once := InjectMetaTags(t, first);
    Reassociate(t1, HEAD, INDENT, t2);
    BeforeFirstHasNoOccurrence(t, HEAD);
    InjectAtKnownHead(once, t1, INDENT + t2, second);
    Reassociate(t1, Replacement(second), INDENT, t2);
  }

  // ---------------------------------------------------------------------
  // The source as written: `html.replace(/<head>/, replacementString)`.
  // A string replacement is a template, so the `$` patterns in it are
  // expanded: `$$` gives "$", `$&` the matched text, `` $` `` the text
  // before the match and `$'` the text after it (the regular expression
  // has no groups, so `$1` or `$<` stay as written).
  // ---------------------------------------------------------------------

  /** What the two-character pattern `$c` stands for, if it is one. */
  function DollarPattern(c: char, matched: string, before: string, after: string): (r: Option<string>)
    ensures r.Some? <==> c in "$&`'"
  {
    match c
    case '$' => Some("$")
    case '&' => Some(matched)
    case '`' => Some(before)
    case '\'' => Some(after)
    case _ => None
  }

  /** The replacement template with its `$` patterns expanded. */
  function ExpandReplacement(template: string, matched: string, before: string, after: string): (r: string)
    ensures '$' !in template ==> r == template
    decreases |template|
  {
    if |template| == 0 then ""
    else if template[0] == '$' && |template| >= 2 && DollarPattern(template[1], matched, before, after).Some? then
      DollarPattern(template[1], matched, before, after).value
      + ExpandReplacement(template[2..], matched, before, after)
    else [template[0]] + ExpandReplacement(template[1..], matched, before, after)
  }

  /** injectMetaTags exactly as server.js:107-118 computes it. */
  function InjectAsWritten(html: string, metaTags: string): (r: string)
    ensures Find(StripDynamic(html), HEAD).None? ==> r == StripDynamic(html)
    ensures Find(StripDynamic(html), HEAD).Some? ==>
              var s := StripDynamic(html);
              var k := Find(s, HEAD).value;
              && StartsWith(r, s[..k])
              && |r| >= |s[k + |HEAD|..]|
              && r[|r| - |s[k + |HEAD|..]|..] == s[k + |HEAD|..]
  {
    var stripped := StripDynamic(html);
    match Find(stripped, HEAD)
    case None => stripped
    case Some(k) =>
      stripped[..k]
      + ExpandReplacement(Replacement(metaTags), HEAD, stripped[..k], stripped[k + |HEAD|..])
      + stripped[k + |HEAD|..]
  }

  /** Expansion works piece by piece when the first piece has no `$`. */
  lemma {:induction false} ExpandAfterPlain(a: string, b: string, matched: string, before: string, after: string)
    requires '$' !in a
    ensures ExpandReplacement(a + b, matched, before, after)
            == a + ExpandReplacement(b, matched, before, after)
    decreases |a|
  {
    if |a| > 0 {
      var tail := a[1..];
      assert a == [a[0]] + tail;
      var s := a + b;
      assert s[0] == a[0] && s[1..] == tail + b;
      ExpandAfterPlain(tail, b, matched, before, after);
    } else {
      assert a + b == b;
    }
  }

  /** A template without `$` is inserted literally. */
  lemma ExpandWithoutDollar(template: string, matched: string, before: string, after: string)
    requires '$' !in template
    ensures ExpandReplacement(template, matched, before, after) == template
  {
    ExpandAfterPlain(template, "", matched, before, after);
    assert template + "" == template;
  }

  /** `$&` at the front of a template expands to the matched text. */
  lemma ExpandMatched(rest: string, matched: string, before: string, after: string)
    ensures ExpandReplacement("$&" + rest, matched, before, after)
            == matched + ExpandReplacement(rest, matched, before, after)
  {
    var s := "$&" + rest;
    assert s[0] == '$' && s[1] == '&' && s[2..] == rest;
  }

  /** Where `<head>` is found, the page as written is the text before it,
      the expanded replacement, and the text after it. */
  lemma AsWrittenShape(html: string, metaTags: string)
    requires Find(StripDynamic(html), HEAD).Some?
    ensures var s := StripDynamic(html);
            var k := Find(s, HEAD).value;
            InjectAsWritten(html, metaTags)
            == s[..k] + ExpandReplacement(Replacement(metaTags), HEAD, s[..k], s[k + |HEAD|..]) + s[k + |HEAD|..]
  {
  }

  lemma ReplacementWithoutDollar(metaTags: string)
    requires '$' !in metaTags
    ensures '$' !in Replacement(metaTags)
  {
    ReplacementShape(metaTags);
    FrameHasNoDollar();
  }

  /** Without `$` in the fragment, the source's injection is the literal one. */
  lemma AsWrittenAgreesWithoutDollar(html: string, metaTags: string)
    requires '$' !in metaTags
    ensures InjectAsWritten(html, metaTags) == InjectMetaTags(html, metaTags)
  {
    var s := StripDynamic(html);
    if Find(s, HEAD).Some? {
      var k := Find(s, HEAD).value;
      AsWrittenShape(html, metaTags);
      InjectShape(html, metaTags);
      ReplacementWithoutDollar(metaTags);
      ExpandWithoutDollar(Replacement(metaTags), HEAD, s[..k], s[k + |HEAD|..]);
    }
  }

  /** A template whose only `$` starts one `$&` expands to the template
      with `<head>` in its place. */
  lemma ExpandOneMatch(a: string, b: string, before: string, after: string)
    requires '$' !in a && '$' !in b
    ensures ExpandReplacement(a + ("$&" + b), HEAD, before, after) == a + (HEAD + b)
  {
    ExpandAfterPlain(a, "$&" + b, HEAD, before, after);
    ExpandMatched(b, HEAD, before, after);
    ExpandWithoutDollar(b, HEAD, before, after);
  }

  /** Expanding the replacement for a fragment with one `$&` puts the
      matched `<head>` in its place. */
  lemma ExpandedReplacement(p: string, q: string, before: string, after: string)
    requires '$' !in p && '$' !in q
    ensures ExpandReplacement(Replacement(p + "$&" + q), HEAD, before, after)
            == Replacement(p + HEAD + q)
  {
    var lead, trail := HEAD + INDENT + OPEN + INDENT, INDENT + CLOSE;
    FrameHasNoDollar();
    ReplacementShape(p + "$&" + q);
    ReplacementShape(p + HEAD + q);
    Regroup(lead, p, "$&", q, trail);
    Regroup(lead, p, HEAD, q, trail);
    ExpandOneMatch(lead + p, q + trail, before, after);
  }

  /** As written, a `$&` in the fragment (which escaping produces from a
      title or slug holding `$'`) is replaced by the matched `<head>`, so
      the fragment does not reach the page as rendered. */
  lemma AsWrittenExpandsDollarAmpersand(html: string, p: string, q: string)
    requires '$' !in p && '$' !in q
    requires Find(StripDynamic(html), HEAD).Some?
    ensures InjectAsWritten(html, p + "$&" + q) == InjectMetaTags(html, p + HEAD + q)
    ensures InjectAsWritten(html, p + "$&" + q) != InjectMetaTags(html, p + "$&" + q)
  {
    var s := StripDynamic(html);
    var k := Find(s, HEAD).value;
    ExpandedReplacement(p, q, s[..k], s[k + |HEAD|..]);
    AsWrittenShape(html, p + "$&" + q);
    InjectShape(html, p + HEAD + q);
  }

}
