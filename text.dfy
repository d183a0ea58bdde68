/** Literal substring search on strings: the part of JavaScript's regular
    expressions that the origin rewrite and the meta-tag injection use, whose
    patterns are a fixed string, or a fixed string, a lazy gap and a fixed
    string. (The escaper's character class is a per-character map and lives
    with the escaper.) Also the sequence identities the other modules use to
    regroup concatenations. */
module Text {

  import opened Options

  predicate StartsWith(s: string, p: string)
  {
    |p| <= |s| && s[..|p|] == p
  }

  /** `p` occurs in `s` starting at index `i`. */
  predicate OccursAt(s: string, p: string, i: nat)
  {
    i <= |s| && StartsWith(s[i..], p)
  }

  predicate Contains(s: string, p: string)
  {
    exists i: nat | i <= |s| :: OccursAt(s, p, i)
  }

  /** No character of `p` after the first repeats the first one, so two
      occurrences of `p` can never overlap. */
  predicate LeadIsUnique(p: string)
  {
    |p| > 0 && p[0] !in p[1..]
  }

  lemma OccursAtShift(s: string, p: string, i: nat)
    requires |s| > 0
    ensures OccursAt(s, p, i + 1) <==> OccursAt(s[1..], p, i)
  {
    if i + 1 <= |s| {
      assert s[i + 1..] == s[1..][i..];
    }
  }

  /** The index of the leftmost occurrence of `p` in `s`, as `indexOf` and a
      non-global `replace` find it. */
  function Find(s: string, p: string): (r: Option<nat>)
    ensures r.Some? ==> OccursAt(s, p, r.value)
    ensures r.Some? ==> forall j: nat :: j < r.value ==> !OccursAt(s, p, j)
    ensures r.None? <==> !Contains(s, p)
    decreases |s|
  {
    if StartsWith(s, p) then
      assert s[0..] == s && OccursAt(s, p, 0);
      Some(0)
    else if |s| == 0 then
      assert forall i: nat :: !OccursAt(s, p, i);
      None
    else
      var rest := Find(s[1..], p);
      forall j: nat ensures OccursAt(s, p, j + 1) <==> OccursAt(s[1..], p, j) {
        OccursAtShift(s, p, j);
      }
      assert s[0..] == s;
      assert !OccursAt(s, p, 0);
      if rest.None? then
        assert forall i: nat :: !OccursAt(s, p, i) by {
          forall i: nat ensures !OccursAt(s, p, i) {
            if i > 0 { assert !OccursAt(s[1..], p, i - 1); }
          }
        }
        None
      else
        assert forall j: nat :: j < rest.value + 1 ==> !OccursAt(s, p, j) by {
          forall j: nat | j < rest.value + 1 ensures !OccursAt(s, p, j) {
            if j > 0 { assert !OccursAt(s[1..], p, j - 1); }
          }
        }
        Some(rest.value + 1)
  }

  /** A string shorter than the pattern cannot contain it. */
  lemma ShortHasNoOccurrence(s: string, p: string)
    requires |s| < |p|
    ensures !Contains(s, p)
  {
  }

  /** An occurrence inside a slice is an occurrence in the whole string. */
  lemma OccursInSlice(s: string, p: string, lo: nat, hi: nat, k: nat)
    requires lo <= hi <= |s|
    requires OccursAt(s[lo..hi], p, k)
    ensures OccursAt(s, p, lo + k)
  {
    assert s[lo..hi][k..][..|p|] == s[lo + k..][..|p|];
  }

  lemma SliceHasNoOccurrence(s: string, p: string, lo: nat, hi: nat)
    requires lo <= hi <= |s|
    requires !Contains(s, p)
    ensures !Contains(s[lo..hi], p)
  {
    if Contains(s[lo..hi], p) {
      var k: nat :| OccursAt(s[lo..hi], p, k);
      OccursInSlice(s, p, lo, hi, k);
    }
  }

  /** Everything before the leftmost occurrence is free of the pattern. */
  lemma BeforeFirstHasNoOccurrence(s: string, p: string)
    requires |p| > 0 && Find(s, p).Some?
    ensures !Contains(s[..Find(s, p).value], p)
  {
    var k := Find(s, p).value;
    if Contains(s[..k], p) {
      var j: nat :| OccursAt(s[..k], p, j);
      OccursInSlice(s, p, 0, k, j);
    }
  }

  /** An occurrence in `a + b` lies in `a`, lies in `b`, or straddles the
      boundary, in which case the first character of `b` is a non-first
      character of `p`. */
  lemma OccurrenceInConcat(a: string, b: string, p: string, i: nat)
    requires |p| > 0 && OccursAt(a + b, p, i)
    ensures OccursAt(a, p, i) || (i >= |a| && OccursAt(b, p, i - |a|))
         || (i < |a| < i + |p| && |b| > 0 && b[0] == p[|a| - i])
  {
    var s := a + b;
    if i + |p| <= |a| {
      assert s[i..][..|p|] == a[i..][..|p|];
    } else if i >= |a| {
      assert s[i..] == b[i - |a|..];
    } else {
      assert s[|a|] == s[i..][..|p|][|a| - i];
    }
  }

  /** Joining two pattern-free strings gives a pattern-free string when the
      second one cannot continue a partial occurrence. */
  lemma NoOccurrenceAcrossJoin(a: string, b: string, p: string)
    requires |p| > 0 && !Contains(a, p) && !Contains(b, p)
    requires |b| == 0 || b[0] !in p[1..]
    ensures !Contains(a + b, p)
  {
    if Contains(a + b, p) {
      var i: nat :| OccursAt(a + b, p, i);
      OccurrenceInConcat(a, b, p, i);
    }
  }

  /** Joining a string without the pattern's first character to a
      pattern-free string gives a pattern-free string: no occurrence can
      start in the first part. */
  lemma NoOccurrenceAfterLeadFree(a: string, b: string, p: string)
    requires |p| > 0 && p[0] !in a && !Contains(b, p)
    ensures !Contains(a + b, p)
  {
    var s := a + b;
    if Contains(s, p) {
      var i: nat :| OccursAt(s, p, i);
      assert OccursAt(s, p, i);
      if i >= |a| {
        assert s[i..] == b[i - |a|..];
        assert OccursAt(b, p, i - |a|);
      }
    }
  }

  /** When the pattern's lead character is unique and `x` is free of it, the
      leftmost occurrence in `x + p + y` is the one right after `x`. */
  lemma FindAfterPrefix(x: string, p: string, y: string)
    requires LeadIsUnique(p) && !Contains(x, p)
    ensures Find(x + p + y, p) == Some(|x|)
  {
    var s := x + p + y;
    assert s[|x|..] == p + y;
    assert OccursAt(s, p, |x|);
    forall j: nat | j < |x| ensures !OccursAt(s, p, j) {
      if OccursAt(s, p, j) {
        assert s == x + (p + y);
        OccurrenceInConcat(x, p + y, p, j);
      }
    }
    var r := Find(s, p);
    assert Contains(s, p);
    assert !(r.value < |x|);
    assert !(r.value > |x|);
  }

  /** A witness position is enough to show an occurrence. */
  lemma OccursInMiddle(a: string, p: string, b: string)
    ensures OccursAt(a + p + b, p, |a|) && Contains(a + p + b, p)
  {
    var s := a + p + b;
    assert s[|a|..] == p + b;
    assert (p + b)[..|p|] == p;
    assert OccursAt(s, p, |a|);
  }

  // Regrouping identities, stated over parameters so that the solver never
  // regroups concatenations of the string constants themselves.

  lemma Reassociate(a: string, b: string, c: string, d: string)
    ensures a + b + c + d == a + b + (c + d)
  {
  }

  lemma Regroup(lead: string, p: string, middle: string, q: string, trail: string)
    ensures lead + (p + middle + q) + trail == (lead + p) + (middle + (q + trail))
  {
  }

  lemma RegroupFramed(n: string, w: string, a: string, tag: string, b: string)
    ensures n + (a + (w + tag + n) + b) + w == (n + a + w) + tag + (n + b + w)
  {
  }

  lemma DropFromLead(a: string, o: string, b: string, n: nat)
    requires n <= |a|
    ensures (a + o + b)[n..] == a[n..] + o + b
  {
  }

  lemma JoinAfterEmpty(a: string, o: string, b: string)
    requires |a| == 0
    ensures a + o + b == o + b
  {
  }

  /** A piece framed by a lead and a trail occurs in any text around them. */
  lemma EnclosedOccurrence(u: string, lead: string, p: string, trail: string, v: string)
    ensures Contains(u + (lead + p + trail) + v, p)
  {
    assert u + (lead + p + trail) + v == (u + lead) + p + (trail + v);
    OccursInMiddle(u + lead, p, trail + v);
  }

  /** The pieces of `x + p + y` are recovered by slicing. */
  lemma SliceAroundMiddle(x: string, p: string, y: string)
    ensures (x + p + y)[..|x|] == x && (x + p + y)[|x| + |p|..] == y
  {
  }

}
