/** Text helpers used by the SQL model: SQLite's `replace(X, Y, Z)` scalar function. */
module Strings {

  /** `p` occurs inside `s` at position `i`. */
  predicate OccursAt(p: string, s: string, i: int) {
    0 <= i && i + |p| <= |s| && s[i..i + |p|] == p
  }

  /** `p` occurs somewhere inside `s`. */
  ghost predicate Occurs(p: string, s: string) {
    exists i :: OccursAt(p, s, i)
  }

  /** `s` begins with `p`. */
  predicate StartsWith(s: string, p: string) {
    |p| <= |s| && s[..|p|] == p
  }

  /** SQLite `replace(s, p, q)`: every non-overlapping occurrence of `p`, scanning left to
      right, is replaced by `q`; an empty pattern leaves `s` as it is. */
  function ReplaceAll(s: string, p: string, q: string): string
    decreases |s|
  {
    if |p| == 0 || |s| < |p| then s
    else if s[..|p|] == p then q + ReplaceAll(s[|p|..], p, q)
    else [s[0]] + ReplaceAll(s[1..], p, q)
  }

  /** An occurrence in the tail of a string is an occurrence in the string. */
  lemma OccursInTail(p: string, s: string)
    requires |s| > 0
    ensures Occurs(p, s[1..]) ==> Occurs(p, s)
  {
    if Occurs(p, s[1..]) {
      var i :| OccursAt(p, s[1..], i);
      assert s[i + 1..i + 1 + |p|] == s[1..][i..i + |p|];
      assert OccursAt(p, s, i + 1);
    }
  }

  /** Occurrences past a prefix `a` of `a + b` are exactly the occurrences in `b`, shifted. */
  lemma OccursAtPastPrefix(p: string, a: string, b: string, i: int)
    requires i >= |a|
    ensures OccursAt(p, a + b, i) <==> OccursAt(p, b, i - |a|)
  {
    if i + |p| <= |a + b| {
      assert (a + b)[i..i + |p|] == b[i - |a|..i - |a| + |p|];
    }
  }

  /** A string without the pattern comes back unchanged. */
  lemma {:induction false} ReplaceAllWithoutPattern(s: string, p: string, q: string)
    requires !Occurs(p, s)
    ensures ReplaceAll(s, p, q) == s
    decreases |s|
  {
    if |p| == 0 || |s| < |p| {
    } else {
      assert !OccursAt(p, s, 0);
      OccursInTail(p, s);
      ReplaceAllWithoutPattern(s[1..], p, q);
    }
  }

  /** The replacement cannot be mistaken for a tail of the pattern: for every proper suffix
      `p[m..]` of the pattern, `q` and that suffix disagree somewhere in their common length. */
  ghost predicate NoTailOverlap(p: string, q: string) {
    forall m :: 1 <= m < |p| ==> DisagreesWithTail(p, q, m)
  }

  /** `q` and `p[m..]` differ at some position both have. */
  ghost predicate DisagreesWithTail(p: string, q: string, m: nat)
    requires m <= |p|
  {
    exists j :: 0 <= j < |q| && j < |p| - m && q[j] != p[m..][j]
  }

  /** Output that begins with the replacement cannot begin with a proper suffix of the pattern. */
  lemma ReplacementHidesTail(t: string, p: string, q: string, m: nat)
    requires 1 <= m < |p| <= |t| && t[..|p|] == p
    requires DisagreesWithTail(p, q, m)
    ensures !StartsWith(ReplaceAll(t, p, q), p[m..])
  {
    var r := ReplaceAll(t, p, q);
    var j :| 0 <= j < |q| && j < |p| - m && q[j] != p[m..][j];
    assert r == q + ReplaceAll(t[|p|..], p, q);
    assert r[j] == q[j];
  }

  /** If the output starts with a proper suffix of the pattern, so did the input. */
  lemma {:induction false} OutputPrefixComesFromInput(t: string, p: string, q: string, m: nat)
    requires 1 <= m < |p|
    requires NoTailOverlap(p, q)
    requires StartsWith(ReplaceAll(t, p, q), p[m..])
    ensures StartsWith(t, p[m..])
    decreases |t|
  {
    var r := ReplaceAll(t, p, q);
    if |t| < |p| {
    } else if t[..|p|] == p {
      ReplacementHidesTail(t, p, q, m);
      assert false;
    } else {
      assert r == [t[0]] + ReplaceAll(t[1..], p, q);
      assert r[0] == p[m];
      if m + 1 < |p| {
        var r' := ReplaceAll(t[1..], p, q);
        assert r'[..|p| - (m + 1)] == r[1..|p| - m];
        assert p[m + 1..] == p[m..][1..];
        OutputPrefixComesFromInput(t[1..], p, q, m + 1);
        assert t[..|p| - m] == [t[0]] + t[1..][..|p| - (m + 1)];
      } else {
        assert t[..|p| - m] == [t[0]];
      }
    }
  }

  /** An occurrence at the very start of `[s[0]] + ReplaceAll(s[1..])` means `s` began with the pattern. */
  lemma LeadingOccurrence(s: string, p: string, q: string)
    requires 1 < |p| <= |s|
    requires NoTailOverlap(p, q)
    ensures OccursAt(p, [s[0]] + ReplaceAll(s[1..], p, q), 0) ==> s[..|p|] == p
  {
    var r' := ReplaceAll(s[1..], p, q);
    var r := [s[0]] + r';
    if OccursAt(p, r, 0) {
      assert r'[..|p| - 1] == r[1..|p|] == p[1..];
      OutputPrefixComesFromInput(s[1..], p, q, 1);
      assert s[..|p|] == [s[0]] + s[1..][..|p| - 1];
    }
  }

  /** When the replacement neither contains the pattern's first character nor can be
      read as a tail of the pattern, no occurrence of the pattern survives the rewrite. */
  lemma {:induction false} ReplaceAllLeavesNoPattern(s: string, p: string, q: string)
    requires |p| > 0
    requires p[0] !in q
    requires NoTailOverlap(p, q)
    ensures !Occurs(p, ReplaceAll(s, p, q))
    decreases |s|
  {
    var r := ReplaceAll(s, p, q);
    if |s| < |p| {
    } else if s[..|p|] == p {
      var r' := ReplaceAll(s[|p|..], p, q);
      ReplaceAllLeavesNoPattern(s[|p|..], p, q);
      assert r == q + r';
      forall i ensures !OccursAt(p, r, i) {
        if i < |q| {
          if 0 <= i && i + |p| <= |r| {
            assert r[i..i + |p|][0] == r[i] == q[i];
          }
        } else {
          OccursAtPastPrefix(p, q, r', i);
        }
      }
    } else {
      var r' := ReplaceAll(s[1..], p, q);
      ReplaceAllLeavesNoPattern(s[1..], p, q);
      assert r == [s[0]] + r';
      forall i ensures !OccursAt(p, r, i) {
        if i < 1 {
          if |p| == 1 {
            if 0 <= i && i + |p| <= |r| {
              assert r[i..i + |p|] == [s[0]] == s[..|p|];
            }
          } else {
            LeadingOccurrence(s, p, q);
          }
        } else {
          OccursAtPastPrefix(p, [s[0]], r', i);
        }
      }
    }
  }
}
