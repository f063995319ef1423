/**
  * The two ECMAScript string operations the webhook splice relies on:
  * StringIndexOf (section 6.1.4.1 of ECMA-262, 2024 edition) and
  * `String.prototype.replace` called with a string pattern and a string
  * replacement (section 22.1.3.19), including the expansion of `$` patterns
  * by GetSubstitution (section 22.1.3.19.1).
  */
module EcmaString {
  import opened Wrappers

  /** `p` occurs in `s` starting at index `k`. */
  predicate OccursAt(s: string, p: string, k: nat) {
    k + |p| <= |s| && s[k..k + |p|] == p
  }

  /** `p` occurs somewhere in `s`. */
  predicate Occurs(s: string, p: string) {
    exists k: nat | k <= |s| :: OccursAt(s, p, k)
  }

  /** StringIndexOf(s, p, from): the first index at or after `from` where `p` occurs. */
  function IndexOfFrom(s: string, p: string, from: nat): (r: Option<nat>)
    ensures r.Some? ==> from <= r.value && OccursAt(s, p, r.value)
    ensures r.Some? ==> forall j: nat :: from <= j < r.value ==> !OccursAt(s, p, j)
    ensures r.None? ==> forall j: nat :: from <= j ==> !OccursAt(s, p, j)
    decreases |s| - from
  {
    if from + |p| > |s| then None
    else if s[from..from + |p|] == p then Some(from)
    else IndexOfFrom(s, p, from + 1)
  }

  /** StringIndexOf(s, p, 0). */
  function IndexOf(s: string, p: string): Option<nat> {
    IndexOfFrom(s, p, 0)
  }

  /**
    * GetSubstitution for a match found by a string pattern: there are no
    * capture groups and no named captures, so only `$$`, `$&`, `` $` `` and
    * `$'` are expanded. `$` followed by digits or by `<` is copied literally
    * by the standard when there are no captures, which is what copying it
    * character by character does too.
    */
  function GetSubstitution(matched: string, str: string, position: nat, template: string): (r: string)
    requires position <= |str|
    ensures '$' !in template ==> r == template
    decreases |template|
  {
    if |template| == 0 then ""
    else if template[0] == '$' && |template| >= 2 && template[1] == '$' then
      "$" + GetSubstitution(matched, str, position, template[2..])
    else if template[0] == '$' && |template| >= 2 && template[1] == '`' then
      str[..position] + GetSubstitution(matched, str, position, template[2..])
    else if template[0] == '$' && |template| >= 2 && template[1] == '&' then
      matched + GetSubstitution(matched, str, position, template[2..])
    else if template[0] == '$' && |template| >= 2 && template[1] == '\'' then
      var tail := if position + |matched| <= |str| then position + |matched| else |str|;
      str[tail..] + GetSubstitution(matched, str, position, template[2..])
    else
      [template[0]] + GetSubstitution(matched, str, position, template[1..])
  }

  /** `s.replace(pattern, replacement)` with a string pattern: only the first occurrence is replaced. */
  function Replace(s: string, pattern: string, replacement: string): (r: string)
    ensures IndexOf(s, pattern).None? ==> r == s
  {
    match IndexOf(s, pattern)
    case None => s
    case Some(k) => s[..k] + GetSubstitution(pattern, s, k, replacement) + s[k + |pattern|..]
  }

  /**
    * Replacing the first occurrence, at `k`, keeps the text before and after
    * it and puts the substituted replacement in between.
    */
  lemma ReplaceAtFirstOccurrence(s: string, pattern: string, replacement: string, k: nat)
    requires OccursAt(s, pattern, k)
    requires forall j: nat :: j < k ==> !OccursAt(s, pattern, j)
    ensures Replace(s, pattern, replacement)
         == s[..k] + GetSubstitution(pattern, s, k, replacement) + s[k + |pattern|..]
  {
    var r := IndexOf(s, pattern);
    assert r.Some? && r.value == k;
  }

  /**
    * With no `$` in the replacement, the first occurrence is replaced by the
    * replacement itself: the replacement appears verbatim at `k` and the
    * length changes by the difference of the two lengths.
    */
  lemma ReplaceVerbatim(s: string, pattern: string, replacement: string, k: nat)
    requires OccursAt(s, pattern, k)
    requires forall j: nat :: j < k ==> !OccursAt(s, pattern, j)
    requires '$' !in replacement
    ensures Replace(s, pattern, replacement) == s[..k] + replacement + s[k + |pattern|..]
    ensures |Replace(s, pattern, replacement)| == |s| - |pattern| + |replacement|
    ensures OccursAt(Replace(s, pattern, replacement), replacement, k)
  {
    ReplaceAtFirstOccurrence(s, pattern, replacement, k);
    var r := Replace(s, pattern, replacement);
    assert r[k..k + |replacement|] == replacement;
  }

  /** `$$` in the replacement stands for one `$`: the pattern is replaced by a single character. */
  lemma ReplaceByDollars(s: string, pattern: string)
    requires IndexOf(s, pattern).Some?
    ensures |Replace(s, pattern, "$$")| == |s| - |pattern| + 1
  {
    var k := IndexOf(s, pattern).value;
    assert GetSubstitution(pattern, s, k, "$$") == "$";
  }

  /** An occurrence in a prefix of `s` is an occurrence in `s`. */
  lemma OccursInPrefix(s: string, m: string, p: string, k: nat)
    requires |m| <= |s| && s[..|m|] == m && OccursAt(m, p, k)
    ensures OccursAt(s, p, k)
  {
    assert s[k..k + |p|] == m[k..k + |p|];
  }

  /**
    * When the first occurrence of the pattern is followed by at least two
    * characters, the replaced text ends in the same two characters.
    */
  lemma ReplaceKeepsLastTwo(s: string, pattern: string, replacement: string, e: nat)
    requires OccursAt(s, pattern, e) && e + |pattern| + 2 <= |s|
    ensures var r := Replace(s, pattern, replacement);
      |r| >= 2 && r[|r| - 2..] == s[|s| - 2..]
  {
    var k := IndexOf(s, pattern).value;
    var before, after := s[..k] + GetSubstitution(pattern, s, k, replacement), s[k + |pattern|..];
    var r := Replace(s, pattern, replacement);
    assert r == before + after;
    assert r[|r| - 2..] == after[|after| - 2..];
  }

  /**
    * When `s` is `m + r` and `m` ends with the pattern, the pattern's first
    * occurrence lies within `m`, so replacing it keeps the last two
    * characters of a long enough `r`.
    */
  lemma ReplaceInHead(m: string, r: string, pattern: string, replacement: string)
    requires |pattern| <= |m| && m[|m| - |pattern|..] == pattern && |r| >= 2
    ensures var t := Replace(m + r, pattern, replacement);
      |t| >= 2 && t[|t| - 2..] == r[|r| - 2..]
  {
    var s := m + r;
    var e := |m| - |pattern|;
    assert m[e..e + |pattern|] == pattern;
    assert s[..|m|] == m;
    OccursInPrefix(s, m, pattern, e);
    ReplaceKeepsLastTwo(s, pattern, replacement, e);
    assert s[|s| - 2..] == r[|r| - 2..];
  }

  /**
    * A pattern occurs in neither `x` nor `y`, and the character `c` between
    * them is not part of it: the pattern does not occur in `x + [c] + y`.
    */
  lemma {:induction false} NoOccurrenceAcross(x: string, c: char, y: string, p: string)
    requires c !in p
    requires !Occurs(x, p) && !Occurs(y, p)
    ensures !Occurs(x + [c] + y, p)
  {
    var s := x + [c] + y;
    forall k: nat | k <= |s|
      ensures !OccursAt(s, p, k)
    {
      if k + |p| > |s| {
      } else if k + |p| <= |x| {
        assert s[k..k + |p|] == x[k..k + |p|];
        assert !OccursAt(x, p, k);
      } else if k > |x| {
        assert s[k..k + |p|] == y[k - |x| - 1..k - |x| - 1 + |p|];
        assert !OccursAt(y, p, k - |x| - 1);
      } else {
        assert s[k..k + |p|][|x| - k] == s[|x|] == c;
      }
    }
  }

  /**
    * If `p` does not occur in `a` and the last character of `a` is not part
    * of `p`, the first occurrence of `p` in `a + p + b` is right after `a`.
    */
  lemma {:induction false} FirstOccurrenceAfter(a: string, p: string, b: string)
    requires !Occurs(a, p)
    requires |a| > 0 ==> a[|a| - 1] !in p
    ensures OccursAt(a + p + b, p, |a|)
    ensures forall j: nat :: j < |a| ==> !OccursAt(a + p + b, p, j)
    ensures IndexOf(a + p + b, p) == Some(|a|)
  {
    var s := a + p + b;
    assert s[|a|..|a| + |p|] == p;
    forall j: nat | j < |a|
      ensures !OccursAt(s, p, j)
    {
      if j + |p| <= |a| {
        assert s[j..j + |p|] == a[j..j + |p|];
        assert !OccursAt(a, p, j);
      } else {
        assert s[j..j + |p|][|a| - 1 - j] == s[|a| - 1] == a[|a| - 1];
      }
    }
    assert OccursAt(s, p, |a|);
    var r := IndexOfFrom(s, p, 0);
    assert r.Some?;
    assert !(r.value < |a|);
  }
}
