/** The few operations of Ruby's String class that the RDS pricing tables rely on,
    for the literal (metacharacter-free) patterns the code passes them:
    `include?`, `match` with a plain word, `upcase`, `end_with?` and `gsub`. */
module RubyStrings {

  /** `p` occurs in `s` starting at index `i`. */
  ghost predicate OccursAt(s: string, p: string, i: int)
  {
    0 <= i && i + |p| <= |s| && s[i..i + |p|] == p
  }

  /** `s.include?(p)`; also `s.match(p)` when `p` holds no regexp metacharacter. */
  function Contains(s: string, p: string): bool
    decreases |s|
  {
    if |p| > |s| then false
    else if s[..|p|] == p then true
    else Contains(s[1..], p)
  }

  /** The scan agrees with the textbook definition of a substring. */
  lemma {:induction false} ContainsIff(s: string, p: string)
    ensures Contains(s, p) <==> exists i :: OccursAt(s, p, i)
    decreases |s|
  {
    if |p| > |s| {
    } else if s[..|p|] == p {
      assert OccursAt(s, p, 0);
    } else {
      ContainsIff(s[1..], p);
      if Contains(s[1..], p) {
        var i :| OccursAt(s[1..], p, i);
        assert s[1..][i..i + |p|] == s[i + 1..i + 1 + |p|];
        assert OccursAt(s, p, i + 1);
      }
      if exists i :: OccursAt(s, p, i) {
        var i :| OccursAt(s, p, i);
        assert i != 0;
        assert s[1..][i - 1..i - 1 + |p|] == s[i..i + |p|];
        assert OccursAt(s[1..], p, i - 1);
      }
    }
  }

  /** A string found inside a part of a concatenation is found in the whole. */
  lemma ContainsInMiddle(a: string, p: string, b: string)
    ensures Contains(a + p + b, p)
  {
    assert (a + p + b)[|a|..|a| + |p|] == p;
    assert OccursAt(a + p + b, p, |a|);
    ContainsIff(a + p + b, p);
  }

  /** `s.end_with?(suffix)` */
  predicate EndsWith(s: string, suffix: string)
  {
    |suffix| <= |s| && s[|s| - |suffix|..] == suffix
  }

  /** Ruby's `upcase` on one character; only ASCII letters change. */
  function UpcaseChar(c: char): (u: char)
    ensures 'a' <= c <= 'z' ==> 'A' <= u <= 'Z'
    ensures !('a' <= c <= 'z') ==> u == c
  {
    if 'a' <= c <= 'z' then (c as int - 'a' as int + 'A' as int) as char else c
  }

  /** `s.upcase` for ASCII text. */
  function Upcase(s: string): (u: string)
    ensures |u| == |s|
    ensures forall i :: 0 <= i < |s| ==> u[i] == UpcaseChar(s[i])
  {
    if s == [] then [] else [UpcaseChar(s[0])] + Upcase(s[1..])
  }

  /** `s.gsub(pat, rep)` for a literal pattern: every leftmost, non-overlapping
      occurrence of `pat` is replaced by `rep`. */
  function Gsub(s: string, pat: string, rep: string): (r: string)
    requires pat != []
    ensures !Contains(s, pat) ==> r == s
    decreases |s|
  {
    if |s| < |pat| then s
    else if s[..|pat|] == pat then rep + Gsub(s[|pat|..], pat, rep)
    else [s[0]] + Gsub(s[1..], pat, rep)
  }

  /** Replacing one character by another keeps the length and changes exactly
      the occurrences of that character. */
  lemma {:induction false} GsubChar(s: string, a: char, b: char)
    ensures |Gsub(s, [a], [b])| == |s|
    ensures forall i :: 0 <= i < |s| ==> Gsub(s, [a], [b])[i] == (if s[i] == a then b else s[i])
    decreases |s|
  {
    if |s| >= 1 {
      GsubChar(s[1..], a, b);
      assert s[..1] == [s[0]];
    }
  }

  /** After replacing `a` by a different character, no `a` is left. */
  lemma GsubCharRemoves(s: string, a: char, b: char)
    requires a != b
    ensures a !in Gsub(s, [a], [b])
  {
    GsubChar(s, a, b);
  }

  /** A pattern with a character that `s` lacks cannot occur in `s`. */
  lemma NotContainsMissingChar(s: string, p: string, k: nat)
    requires k < |p| && p[k] !in s
    ensures !Contains(s, p)
  {
    ContainsIff(s, p);
  }

  /** `upcase` works character by character, so it distributes over `+`. */
  lemma UpcaseAppend(a: string, b: string)
    ensures Upcase(a + b) == Upcase(a) + Upcase(b)
  {
  }

  /** Upcasing cannot produce a capital letter unless its lower- or
      upper-case form was already there. */
  lemma UpcaseMissingLetter(s: string, lower: char, upper: char)
    requires 'a' <= lower <= 'z' && upper == UpcaseChar(lower)
    requires lower !in s && upper !in s
    ensures upper !in Upcase(s)
  {
  }

  /** Stripping a pattern whose first two characters differ from a string that
      ends with it, when the second character does not occur before it:
      only that trailing occurrence is replaced. */
  lemma {:induction false} GsubTrailing(x: string, pat: string, rep: string)
    requires |pat| >= 2 && pat[0] != pat[1] && pat[1] !in x
    ensures Gsub(x + pat, pat, rep) == x + rep
    decreases |x|
  {
    var s := x + pat;
    if x == [] {
      assert s[..|pat|] == pat && s[|pat|..] == [];
      assert Gsub(s, pat, rep) == rep + Gsub([], pat, rep);
    } else {
      assert s[1] != pat[1];
      assert s[..|pat|] != pat;
      assert s[1..] == x[1..] + pat;
      assert Gsub(s, pat, rep) == [s[0]] + Gsub(s[1..], pat, rep);
      GsubTrailing(x[1..], pat, rep);
      assert [s[0]] + (x[1..] + rep) == x + rep;
    }
  }

  /** A string without the pattern's second character is left unchanged. */
  lemma GsubAbsent(x: string, pat: string, rep: string)
    requires |pat| >= 2 && pat[1] !in x
    ensures Gsub(x, pat, rep) == x
  {
    NotContainsMissingChar(x, pat, 1);
  }
}
