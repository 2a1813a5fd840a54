// The decoder's two global rewrites of digits;digits to digits,digits: what a non-overlapping
// regular-expression pass really changes, and why two passes are enough.
module SeparatorRewrite {
  import opened Decimal

  // End of the digit run that starts at i.
  function RunEnd(s: string, i: nat): (e: nat)
    requires i <= |s|
    ensures i <= e <= |s| && (forall k :: i <= k < e ==> IsDigit(s[k])) && (e < |s| ==> !IsDigit(s[e]))
    decreases |s| - i
  {
    if i < |s| && IsDigit(s[i]) then RunEnd(s, i + 1) else i
  }

  // The pattern (\d+);(\d+) matches at i. Both groups are greedy, so they take whole runs.
  predicate MatchAt(s: string, i: nat)
    requires i < |s|
  {
    IsDigit(s[i])
    && var a := RunEnd(s, i); a + 1 < |s| && s[a] == ';' && IsDigit(s[a + 1])
  }

  // One global pass over s[from..]: leftmost matches, each replaced by $1,$2, searching on after it.
  function Pass(s: string, from: nat): string
    requires from <= |s|
    decreases |s| - from
  {
    if from == |s| then ""
    else if MatchAt(s, from) then
      var a := RunEnd(s, from);
      var e := RunEnd(s, a + 1);
      s[from..a] + "," + s[a + 1..e] + Pass(s, e)
    else [s[from]] + Pass(s, from + 1)
  }

  function Rewrite(s: string): string { Pass(s, 0) }

  // The simple rule.
  predicate IsSeparator(s: string, k: int) {
    0 < k < |s| - 1 && s[k] == ';' && IsDigit(s[k - 1]) && IsDigit(s[k + 1])
  }

  function CommaSeparated(s: string): string {
    seq(|s|, k requires 0 <= k < |s| => if IsSeparator(s, k) then ',' else s[k])
  }

  // ----- what one pass rewrites -----

  ghost function Hits(s: string, from: nat): set<int>
    requires from <= |s|
    decreases |s| - from
  {
    if from == |s| then {}
    else if MatchAt(s, from) then
      var a := RunEnd(s, from);
      {a} + Hits(s, RunEnd(s, a + 1))
    else Hits(s, from + 1)
  }

  ghost function Patched(s: string, hits: set<int>, from: nat): string
    requires from <= |s|
  {
    seq(|s| - from, k requires 0 <= k < |s| - from => if from + k in hits then ',' else s[from + k])
  }

  lemma {:induction false} HitsAreSeparators(s: string, from: nat, k: int)
    requires from <= |s| && k in Hits(s, from)
    ensures from < k && IsSeparator(s, k)
    decreases |s| - from
  {
    if MatchAt(s, from) {
      var a := RunEnd(s, from);
      if k != a { HitsAreSeparators(s, RunEnd(s, a + 1), k); }
    } else {
      HitsAreSeparators(s, from + 1, k);
    }
  }

  lemma PatchedSplits(s: string, hits: set<int>, from: nat, a: nat, e: nat)
    requires from <= a < e <= |s| && a !in hits && forall k :: from <= k < e ==> k !in hits
    ensures Patched(s, {a} + hits, from) == s[from..a] + "," + s[a + 1..e] + Patched(s, hits, e)
  {
  }

  lemma PassAtMatch(s: string, from: nat, a: nat, e: nat)
    requires from < |s| && MatchAt(s, from) && a == RunEnd(s, from) && e == RunEnd(s, a + 1)
    requires Pass(s, e) == Patched(s, Hits(s, e), e)
    ensures Pass(s, from) == Patched(s, Hits(s, from), from)
  {
    forall k | from <= k < e ensures k !in Hits(s, e) {
      if k in Hits(s, e) { HitsAreSeparators(s, e, k); }
    }
    PatchedSplits(s, Hits(s, e), from, a, e);
  }

  lemma {:induction false} PassPatchesHits(s: string, from: nat)
    requires from <= |s|
    ensures Pass(s, from) == Patched(s, Hits(s, from), from)
    decreases |s| - from
  {
    if from < |s| {
      if MatchAt(s, from) {
        var a := RunEnd(s, from);
        PassPatchesHits(s, RunEnd(s, a + 1));
        PassAtMatch(s, from, a, RunEnd(s, a + 1));
      } else {
        PassPatchesHits(s, from + 1);
        if from in Hits(s, from + 1) { HitsAreSeparators(s, from + 1, from); }
        assert Pass(s, from) == [s[from]] + Patched(s, Hits(s, from + 1), from + 1);
      }
    }
  }

  ghost predicate DigitsBetween(s: string, j: int, k: int) {
    0 <= j < k <= |s| && forall i :: j < i < k ==> IsDigit(s[i])
  }

  // A separator is missed only when the digits before it were used up by the match before.
  lemma {:induction false} MissedOnlyAfterHit(s: string, from: nat, k: int)
    requires from <= |s| && IsSeparator(s, k) && from <= k - 1 && k !in Hits(s, from)
    ensures exists j :: j in Hits(s, from) && DigitsBetween(s, j, k)
    decreases |s| - from
  {
    assert RunEnd(s, k) == k;
    if MatchAt(s, from) {
      var a := RunEnd(s, from);
      var e := RunEnd(s, a + 1);
      if k == e {
        assert DigitsBetween(s, a, k);
      } else {
        assert k > e;
        MissedOnlyAfterHit(s, e, k);
        var j :| j in Hits(s, e) && DigitsBetween(s, j, k);
        assert j in Hits(s, from);
      }
    } else {
      if k - 1 == from { assert false; }
      MissedOnlyAfterHit(s, from + 1, k);
    }
  }

  // After one pass no two remaining separators share a run of digits.
  lemma OnePassIsolates(s: string, k: int, l: int)
    requires IsSeparator(s, k) && IsSeparator(s, l) && k < l
    requires k !in Hits(s, 0) && l !in Hits(s, 0)
    ensures !DigitsBetween(s, k, l)
  {
    MissedOnlyAfterHit(s, 0, l);
    var j :| j in Hits(s, 0) && DigitsBetween(s, j, l);
    HitsAreSeparators(s, 0, j);
    if DigitsBetween(s, k, l) { assert false; }
  }

  lemma RewriteKeepsDigits(s: string)
    ensures |Rewrite(s)| == |s|
    ensures forall k :: 0 <= k < |s| ==> Rewrite(s)[k] == if k in Hits(s, 0) then ',' else s[k]
    ensures forall k :: 0 <= k < |s| ==> (IsDigit(Rewrite(s)[k]) <==> IsDigit(s[k]))
    ensures forall k :: IsSeparator(Rewrite(s), k) <==> IsSeparator(s, k) && k !in Hits(s, 0)
  {
    PassPatchesHits(s, 0);
    forall k | k in Hits(s, 0) ensures IsSeparator(s, k) { HitsAreSeparators(s, 0, k); }
  }

  // Two passes do on every string what the simple rule says.
  lemma TwoPassesAreEnough(s: string)
    ensures Rewrite(Rewrite(s)) == CommaSeparated(s)
  {
    var t := Rewrite(s);
    RewriteKeepsDigits(s);
    RewriteKeepsDigits(t);
    forall k | IsSeparator(t, k) ensures k in Hits(t, 0) {
      if k !in Hits(t, 0) {
        MissedOnlyAfterHit(t, 0, k);
        var j :| j in Hits(t, 0) && DigitsBetween(t, j, k);
        HitsAreSeparators(t, 0, j);
        OnePassIsolates(s, j, k);
        assert DigitsBetween(s, j, k);
      }
    }
    forall k | 0 <= k < |s| ensures Rewrite(t)[k] == CommaSeparated(s)[k] {
      if k in Hits(t, 0) { HitsAreSeparators(t, 0, k); }
      if k in Hits(s, 0) { HitsAreSeparators(s, 0, k); }
    }
  }

  lemma NoSeparatorIsLeft(s: string, k: int)
    ensures !IsSeparator(Rewrite(Rewrite(s)), k)
  {
    TwoPassesAreEnough(s);
  }

  lemma RunEndAt(s: string, i: nat, e: nat)
    requires i <= e <= |s| && (forall k :: i <= k < e ==> IsDigit(s[k])) && (e < |s| ==> !IsDigit(s[e]))
    ensures RunEnd(s, i) == e
  {
  }

  // The digit between two separators is consumed by the first match, so the second is missed.
  lemma SecondIsMissed(s: string)
    requires |s| == 5 && IsSeparator(s, 1) && IsSeparator(s, 3)
    ensures 1 in Hits(s, 0) && 3 !in Hits(s, 0)
  {
    RunEndAt(s, 0, 1);
    RunEndAt(s, 2, 3);
    assert MatchAt(s, 0);
    if 3 in Hits(s, 3) { HitsAreSeparators(s, 3, 3); }
  }

  // One pass is not enough: of two separators around a single digit it rewrites only the first.
  lemma OnePassIsNotEnough(s: string)
    requires |s| == 5 && IsSeparator(s, 1) && IsSeparator(s, 3)
    ensures IsSeparator(Rewrite(s), 3) && !IsSeparator(Rewrite(s), 1)
  {
    SecondIsMissed(s);
    RewriteKeepsDigits(s);
  }
}
