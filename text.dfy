/**
 * The few operations of java.lang.String the upgrade tool relies on: `indexOf`,
 * `startsWith`, `endsWith`, `replace(CharSequence, CharSequence)` and the
 * blank test `trim().isEmpty()`. Strings are sequences of characters (Unicode scalar values).
 */
module Text {
  import opened Wrappers

  /** `t` occurs in `s` starting at index `i`. */
  predicate OccursAt(s: string, t: string, i: nat) {
    i + |t| <= |s| && s[i..i + |t|] == t
  }

  /** `String.indexOf(t, from)`: the first occurrence of `t` in `s` at or after `from`. */
  function IndexOfFrom(s: string, t: string, from: nat): (r: Option<nat>)
    decreases |s| - from
    ensures r.Some? ==> from <= r.value && OccursAt(s, t, r.value)
    ensures r.Some? ==> forall j :: from <= j < r.value ==> !OccursAt(s, t, j)
    ensures r.None? ==> forall j :: from <= j ==> !OccursAt(s, t, j)
  {
    if from + |t| > |s| then None
    else if OccursAt(s, t, from) then Some(from)
    else IndexOfFrom(s, t, from + 1)
  }

  /** `String.indexOf(t)`, with -1 as None. */
  function IndexOf(s: string, t: string): Option<nat> {
    IndexOfFrom(s, t, 0)
  }

  /** `String.contains(t)`, i.e. `indexOf(t) != -1`. */
  predicate Contains(s: string, t: string) {
    IndexOf(s, t).Some?
  }

  lemma ContainsIff(s: string, t: string)
    ensures Contains(s, t) <==> exists i :: OccursAt(s, t, i)
  {
  }

  predicate StartsWith(s: string, prefix: string) {
    |prefix| <= |s| && s[..|prefix|] == prefix
  }

  predicate EndsWith(s: string, suffix: string) {
    |suffix| <= |s| && s[|s| - |suffix|..] == suffix
  }

  /** `trim().isEmpty()`: every character is at most U+0020. */
  predicate IsBlank(s: string) {
    forall i :: 0 <= i < |s| ==> s[i] <= ' '
  }

  /**
   * `s.replace(t, r)`: scanning from the left, every occurrence of `t` that does
   * not overlap an occurrence already replaced becomes `r`.
   */
  function ReplaceAll(s: string, t: string, r: string): string
    requires |t| > 0
    decreases |s|
  {
    if |s| < |t| then s
    else if s[..|t|] == t then r + ReplaceAll(s[|t|..], t, r)
    else [s[0]] + ReplaceAll(s[1..], t, r)
  }

  /** The number of occurrences `ReplaceAll` replaces. */
  function Count(s: string, t: string): nat
    requires |t| > 0
    decreases |s|
  {
    if |s| < |t| then 0
    else if s[..|t|] == t then 1 + Count(s[|t|..], t)
    else Count(s[1..], t)
  }

  /** An occurrence in `s[d..]` is an occurrence in `s`, and back. */
  lemma OccursAtShift(s: string, t: string, d: nat, i: nat)
    requires d <= |s|
    ensures OccursAt(s[d..], t, i) <==> OccursAt(s, t, d + i)
  {
    if i + |t| <= |s| - d {
      assert s[d..][i..i + |t|] == s[d + i..d + i + |t|];
    }
  }

  /** Each replacement changes the length by |r| - |t|, and nothing else does. */
  lemma {:induction false} ReplaceAllLength(s: string, t: string, r: string)
    requires |t| > 0
    ensures |ReplaceAll(s, t, r)| == |s| + Count(s, t) * (|r| - |t|)
    decreases |s|
  {
    if |s| < |t| {
    } else if s[..|t|] == t {
      var rest := s[|t|..];
      ReplaceAllLength(rest, t, r);
      assert ReplaceAll(s, t, r) == r + ReplaceAll(rest, t, r);
      assert Count(s, t) == 1 + Count(rest, t);
      OneMoreReplacement(|s|, |rest|, |t|, |r|, Count(rest, t));
    } else {
      ReplaceAllLength(s[1..], t, r);
      assert |ReplaceAll(s, t, r)| == 1 + |ReplaceAll(s[1..], t, r)| && Count(s, t) == Count(s[1..], t);
    }
  }

  /** The length arithmetic of one more replacement. */
  lemma OneMoreReplacement(n: int, m: int, lt: int, lr: int, c: int)
    requires n == lt + m
    ensures lr + m + c * (lr - lt) == n + (c + 1) * (lr - lt)
  {
  }

  /** Nothing is counted exactly when `t` does not occur. */
  lemma {:induction false} CountZeroIff(s: string, t: string)
    requires |t| > 0
    ensures Count(s, t) == 0 <==> !Contains(s, t)
    decreases |s|
  {
    if |s| < |t| {
      assert forall i :: !OccursAt(s, t, i);
    } else if s[..|t|] == t {
      assert OccursAt(s, t, 0);
    } else {
      assert !OccursAt(s, t, 0);
      CountZeroIff(s[1..], t);
      forall i: nat ensures OccursAt(s[1..], t, i) <==> OccursAt(s, t, 1 + i) {
        OccursAtShift(s, t, 1, i);
      }
      if Contains(s, t) {
        var k := IndexOf(s, t).value;
        assert k >= 1 && OccursAt(s[1..], t, k - 1);
      }
    }
  }

  /** A string without the target comes back unchanged. */
  lemma {:induction false} ReplaceAllAbsent(s: string, t: string, r: string)
    requires |t| > 0
    requires !Contains(s, t)
    ensures ReplaceAll(s, t, r) == s
    decreases |s|
  {
    if |s| >= |t| {
      assert !OccursAt(s, t, 0);
      forall i: nat ensures !OccursAt(s[1..], t, i) {
        OccursAtShift(s, t, 1, i);
      }
      ReplaceAllAbsent(s[1..], t, r);
      assert [s[0]] + s[1..] == s;
    }
  }

  /** Replacing a string by itself changes nothing. */
  lemma {:induction false} ReplaceAllSelf(s: string, t: string)
    requires |t| > 0
    ensures ReplaceAll(s, t, t) == s
    decreases |s|
  {
    if |s| < |t| {
    } else if s[..|t|] == t {
      ReplaceAllSelf(s[|t|..], t);
      assert s[..|t|] + s[|t|..] == s;
    } else {
      ReplaceAllSelf(s[1..], t);
      assert [s[0]] + s[1..] == s;
    }
  }

  /** Replacing one character by another is a character-wise map. */
  lemma {:induction false} ReplaceCharAt(s: string, t: string, r: string)
    requires |t| == 1 && |r| == 1
    ensures |ReplaceAll(s, t, r)| == |s|
    ensures forall i :: 0 <= i < |s| ==>
      ReplaceAll(s, t, r)[i] == if s[i] == t[0] then r[0] else s[i]
    decreases |s|
  {
    if |s| >= 1 {
      ReplaceCharAt(s[1..], t, r);
      assert s[..1] == t <==> s[0] == t[0];
    }
  }
}
