// Splitting, joining and the textual forms that both directions of the brace notation use:
// the tokens between separators, the tight texts that the separator rewriting leaves alone, and the
// lists without repeats.
module BraceText {
  import opened Decimal
  import opened SeparatorRewrite

  // ----- split and join -----

  function IndexOf(s: string, c: char): (i: int)
    ensures -1 <= i < |s|
    ensures i >= 0 ==> s[i] == c && forall k :: 0 <= k < i ==> s[k] != c
    ensures i < 0 ==> forall k :: 0 <= k < |s| ==> s[k] != c
  {
    if s == "" then -1
    else if s[0] == c then 0
    else
      var i := IndexOf(s[1..], c);
      if i < 0 then -1 else i + 1
  }

  function Split(s: string, c: char): (parts: seq<string>)
    ensures parts != []
    decreases |s|
  {
    var i := IndexOf(s, c);
    if i < 0 then [s] else [s[..i]] + Split(s[i + 1..], c)
  }

  lemma SplitFindsTwo(s: string, c: char)
    requires IndexOf(s, c) >= 0
    ensures |Split(s, c)| >= 2
  {
  }

  predicate Lacks(s: string, c: char) { forall k :: 0 <= k < |s| ==> s[k] != c }

  lemma IndexOfFirst(a: string, c: char, b: string)
    requires Lacks(a, c)
    ensures IndexOf(a + [c] + b, c) == |a| && IndexOf(a, c) == -1
  {
    var s := a + [c] + b;
    assert s[|a|] == c;
    assert forall k :: 0 <= k < |a| ==> s[k] == a[k];
  }

  lemma SplitAtFirst(a: string, c: char, b: string)
    requires Lacks(a, c)
    ensures Split(a + [c] + b, c) == [a] + Split(b, c)
  {
    var s := a + [c] + b;
    IndexOfFirst(a, c, b);
    assert s[..|a|] == a && s[|a| + 1..] == b;
  }

  lemma SplitWhole(a: string, c: char)
    requires Lacks(a, c)
    ensures Split(a, c) == [a]
  {
    IndexOfFirst(a, c, "");
  }

  function Join(parts: seq<string>, c: char): string
    requires parts != []
  {
    if |parts| == 1 then parts[0] else parts[0] + [c] + Join(parts[1..], c)
  }

  lemma {:induction false} SplitJoin(parts: seq<string>, c: char)
    requires parts != [] && forall k :: 0 <= k < |parts| ==> Lacks(parts[k], c)
    ensures Split(Join(parts, c), c) == parts
  {
    if |parts| == 1 {
      SplitWhole(parts[0], c);
    } else {
      SplitJoin(parts[1..], c);
      SplitAtFirst(parts[0], c, Join(parts[1..], c));
    }
  }

  lemma {:induction false} JoinSnoc(parts: seq<string>, c: char, last: string)
    requires parts != []
    ensures Join(parts + [last], c) == Join(parts, c) + [c] + last
  {
    if |parts| == 1 {
      assert (parts + [last])[1..] == [last];
    } else {
      assert (parts + [last])[1..] == parts[1..] + [last];
      JoinSnoc(parts[1..], c, last);
    }
  }

  // ----- the separators of the decoder's first rewrite -----

  predicate IsSpace(c: char) { c == ' ' || c == '\t' || c == '\n' || c == '\r' }

  predicate AllSpaces(s: string) { forall k :: 0 <= k < |s| ==> IsSpace(s[k]) }

  function TrimLeft(s: string): (t: string)
    ensures |t| <= |s| && (t != "" ==> !IsSpace(t[0])) && (s != "" && !IsSpace(s[0]) ==> t == s)
  {
    if s != "" && IsSpace(s[0]) then TrimLeft(s[1..]) else s
  }

  // Every comma, with the white space around it, becomes a semicolon.
  function SemicolonForComma(s: string): string
    decreases |s|
  {
    if s == "" then ""
    else
      var t := TrimLeft(s);
      if t != "" && t[0] == ',' then ";" + SemicolonForComma(TrimLeft(t[1..]))
      else [s[0]] + SemicolonForComma(s[1..])
  }

  lemma {:induction false} TrimLeftConcat(a: string, b: string)
    ensures TrimLeft(a + b) == if AllSpaces(a) then TrimLeft(b) else TrimLeft(a) + b
    ensures !AllSpaces(a) ==> TrimLeft(a) != ""
  {
    if a == "" {
      assert a + b == b;
    } else {
      assert (a + b)[0] == a[0] && (a + b)[1..] == a[1..] + b;
      TrimLeftConcat(a[1..], b);
      assert IsSpace(a[0]) ==> (AllSpaces(a) <==> AllSpaces(a[1..])) by {
        assert forall k :: 1 <= k < |a| ==> a[k] == a[1..][k - 1];
      }
    }
  }

  lemma SpacedComma(a: string, b: string, v: string)
    requires AllSpaces(a) && AllSpaces(b)
    ensures TrimLeft(a + ("," + (b + v))) == "," + (b + v)
    ensures SemicolonForComma(a + ("," + (b + v))) == ";" + SemicolonForComma(TrimLeft(v))
  {
    var s := a + ("," + (b + v));
    TrimLeftConcat(a, "," + (b + v));
    TrimLeftConcat(b, v);
    assert ("," + (b + v))[1..] == b + v;
  }

  predicate StartsWithComma(s: string) { s != "" && s[0] == ',' }

  // Both texts begin with a comma, after white space, and are rewritten alike.
  predicate AlikeFromComma(x: string, y: string) {
    var s, t := TrimLeft(x), TrimLeft(y);
    && StartsWithComma(s) && StartsWithComma(t)
    && SemicolonForComma(x) == SemicolonForComma(y)
    && SemicolonForComma(s) == SemicolonForComma(t)
    && SemicolonForComma(TrimLeft(s[1..])) == SemicolonForComma(TrimLeft(t[1..]))
  }

  lemma {:induction false} AlikeBehind(u: string, x: string, y: string)
    requires AlikeFromComma(x, y)
    ensures SemicolonForComma(u + x) == SemicolonForComma(u + y)
    decreases |u|, 0
  {
    if u == "" {
      assert u + x == x && u + y == y;
    } else {
      TrimLeftConcat(u, x);
      TrimLeftConcat(u, y);
      if AllSpaces(u) {
        RewriteAtComma(u + x);
        RewriteAtComma(u + y);
      } else if TrimLeft(u)[0] == ',' {
        RewriteBehindComma(u, x);
        RewriteBehindComma(u, y);
        AlikeBehindComma(TrimLeft(u)[1..], x, y);
      } else {
        RewriteOther(u, x);
        RewriteOther(u, y);
        AlikeBehind(u[1..], x, y);
      }
    }
  }

  lemma RewriteAtComma(s: string)
    requires StartsWithComma(TrimLeft(s))
    ensures SemicolonForComma(s) == ";" + SemicolonForComma(TrimLeft(TrimLeft(s)[1..]))
  {
  }

  lemma RewriteBehindComma(u: string, x: string)
    requires !AllSpaces(u) && StartsWithComma(TrimLeft(u))
    ensures SemicolonForComma(u + x) == ";" + SemicolonForComma(TrimLeft(TrimLeft(u)[1..] + x))
  {
    TrimLeftConcat(u, x);
    RewriteAtComma(u + x);
    assert (TrimLeft(u) + x)[1..] == TrimLeft(u)[1..] + x;
  }

  lemma RewriteOther(u: string, x: string)
    requires !AllSpaces(u) && !StartsWithComma(TrimLeft(u))
    ensures u != "" && SemicolonForComma(u + x) == [u[0]] + SemicolonForComma(u[1..] + x)
  {
    TrimLeftConcat(u, x);
    assert (u + x)[1..] == u[1..] + x;
  }

  lemma {:induction false} AlikeBehindComma(w: string, x: string, y: string)
    requires AlikeFromComma(x, y)
    ensures SemicolonForComma(TrimLeft(w + x)) == SemicolonForComma(TrimLeft(w + y))
    decreases |w|, 1
  {
    TrimLeftConcat(w, x);
    TrimLeftConcat(w, y);
    if !AllSpaces(w) { AlikeBehind(TrimLeft(w), x, y); }
  }

  // White space around a comma vanishes, wherever the comma stands.
  lemma SpacesAroundCommaVanish(u: string, a: string, b: string, v: string)
    requires AllSpaces(a) && AllSpaces(b)
    ensures SemicolonForComma(u + (a + ("," + (b + v)))) == SemicolonForComma(u + ("," + v))
  {
    var x, y := a + ("," + (b + v)), "," + v;
    assert "" + ("," + (b + v)) == "," + (b + v) && "" + ("," + ("" + v)) == y;
    SpacedComma(a, b, v);
    SpacedComma("", b, v);
    SpacedComma("", "", v);
    TrimLeftConcat(b, v);
    assert ("," + (b + v))[1..] == b + v && y[1..] == v;
    AlikeBehind(u, x, y);
  }

  function Semicolons(s: string): string {
    seq(|s|, k requires 0 <= k < |s| => if s[k] == ',' then ';' else s[k])
  }

  // No white space stands next to a comma.
  predicate BareCommas(s: string) {
    forall k :: 0 <= k < |s| && s[k] == ',' ==>
      (k > 0 ==> !IsSpace(s[k - 1])) && (k + 1 < |s| ==> !IsSpace(s[k + 1]))
  }

  // The first character behind leading white space is not a comma that this white space touches.
  lemma {:induction false} TrimMeetsNoComma(s: string)
    requires BareCommas(s) && s != "" && IsSpace(s[0])
    ensures TrimLeft(s) == "" || TrimLeft(s)[0] != ','
  {
    if |s| > 1 && IsSpace(s[1]) {
      BareTail(s);
      TrimMeetsNoComma(s[1..]);
    } else if |s| > 1 {
      assert TrimLeft(s) == s[1..];
    }
  }

  lemma BareTail(s: string)
    requires BareCommas(s) && s != ""
    ensures BareCommas(s[1..])
  {
    var t := s[1..];
    forall k | 0 <= k < |t| && t[k] == ','
      ensures (k > 0 ==> !IsSpace(t[k - 1])) && (k + 1 < |t| ==> !IsSpace(t[k + 1]))
    {
      assert s[k + 1] == ',';
    }
  }

  // Without white space next to a comma, every comma becomes a semicolon and nothing else changes.
  lemma {:induction false} BareCommasOnlyChangeSign(s: string)
    requires BareCommas(s)
    ensures SemicolonForComma(s) == Semicolons(s)
    decreases |s|
  {
    if s != "" {
      var rest := s[1..];
      BareTail(s);
      BareCommasOnlyChangeSign(rest);
      assert Semicolons(s) == [if s[0] == ',' then ';' else s[0]] + Semicolons(rest);
      if IsSpace(s[0]) {
        TrimMeetsNoComma(s);
      } else if s[0] == ',' {
        assert rest != "" ==> rest[0] == s[1];
        assert TrimLeft(rest) == rest;
      }
    }
  }

  function Normalize(s: string): string {
    Rewrite(Rewrite(SemicolonForComma(s)))
  }

  // What the three rewrites make of text without white space next to a comma: a comma stays if it
  // stands between digits, every other one becomes a semicolon, and so the other way round.
  lemma NormalizedBareText(s: string)
    requires BareCommas(s)
    ensures Normalize(s) == CommaSeparated(Semicolons(s))
  {
    BareCommasOnlyChangeSign(s);
    TwoPassesAreEnough(Semicolons(s));
  }

  // Commas stand between digits only, and there are no semicolons.
  predicate TightCommas(s: string) {
    Lacks(s, ';')
    && forall k :: 0 <= k < |s| && s[k] == ',' ==> 0 < k < |s| - 1 && IsDigit(s[k - 1]) && IsDigit(s[k + 1])
  }

  lemma TightTextStays(s: string)
    requires TightCommas(s)
    ensures BareCommas(s) && CommaSeparated(Semicolons(s)) == s
  {
    var t := Semicolons(s);
    forall k | 0 <= k < |s| ensures CommaSeparated(t)[k] == s[k] {
      assert s[k] == ',' ==> IsSeparator(t, k);
    }
  }

  // Text whose commas all stand between digits passes the three rewrites unchanged.
  lemma NormalizeKeepsTightText(s: string)
    requires TightCommas(s)
    ensures Normalize(s) == s
  {
    TightTextStays(s);
    NormalizedBareText(s);
  }

  // ----- ranges -----

  datatype Range = Range(lo: string, hi: string)

  predicate DigitRange(r: Range) {
    r.lo != "" && r.hi != "" && AllDigits(r.lo) && AllDigits(r.hi)
  }

  // One range as the encoder prints it.
  function RangeText(r: Range): string
    requires DigitRange(r)
  {
    if Value(r.lo) == Value(r.hi) then r.lo else r.lo + "-" + r.hi
  }

  function RangeTexts(rs: seq<Range>): (ts: seq<string>)
    requires forall k :: 0 <= k < |rs| ==> DigitRange(rs[k])
    ensures |ts| == |rs| && forall k :: 0 <= k < |rs| ==> ts[k] == RangeText(rs[k])
  {
    seq(|rs|, k requires 0 <= k < |rs| => RangeText(rs[k]))
  }

  predicate TokenChars(s: string) {
    s != "" && IsDigit(s[0]) && IsDigit(s[|s| - 1]) && forall k :: 0 <= k < |s| ==> IsDigit(s[k]) || s[k] == '-'
  }

  predicate BodyChars(s: string) {
    s != "" && IsDigit(s[0]) && IsDigit(s[|s| - 1]) && TightCommas(s)
    && forall k :: 0 <= k < |s| ==> IsDigit(s[k]) || s[k] == '-' || s[k] == ','
  }

  lemma {:induction false} JoinedTokensAreTight(parts: seq<string>)
    requires parts != [] && forall k :: 0 <= k < |parts| ==> TokenChars(parts[k])
    ensures BodyChars(Join(parts, ','))
  {
    if |parts| > 1 {
      JoinedTokensAreTight(parts[1..]);
      var a, b := parts[0], Join(parts[1..], ',');
      var s := a + "," + b;
      forall k | 0 <= k < |s| && s[k] == ','
        ensures 0 < k < |s| - 1 && IsDigit(s[k - 1]) && IsDigit(s[k + 1])
      {
        if k < |a| {
          assert false;
        } else if k > |a| {
          assert s[k] == b[k - |a| - 1] && s[k - 1] == (if k - 1 == |a| then ',' else b[k - |a| - 2]);
          assert b[k - |a| - 1] == ',';
          assert s[k + 1] == b[k - |a|];
        } else {
          assert s[k - 1] == a[|a| - 1] && s[k + 1] == b[0];
        }
      }
    }
  }

  lemma RangeTextIsToken(r: Range)
    requires DigitRange(r)
    ensures TokenChars(RangeText(r)) && Lacks(RangeText(r), ',')
    ensures Value(r.lo) == Value(r.hi) ==> Lacks(RangeText(r), '-')
    ensures Value(r.lo) != Value(r.hi) ==> Split(RangeText(r), '-') == [r.lo, r.hi]
  {
    if Value(r.lo) != Value(r.hi) {
      SplitAtFirst(r.lo, '-', r.hi);
      SplitWhole(r.hi, '-');
    }
  }

  // ----- sets of strings, in the order in which JavaScript keeps them -----

  // First occurrences only, as a Set made from a list keeps them.
  function Unique(xs: seq<string>): (r: seq<string>)
    ensures forall x :: x in r <==> x in xs
    ensures forall i, j :: 0 <= i < j < |r| ==> r[i] != r[j]
  {
    if xs == [] then []
    else
      var r := Unique(xs[..|xs| - 1]);
      assert xs == xs[..|xs| - 1] + [xs[|xs| - 1]];
      if xs[|xs| - 1] in r then r else r + [xs[|xs| - 1]]
  }

  // x stands at place i for the first time.
  predicate FirstAt(xs: seq<string>, x: string, i: nat) {
    i < |xs| && xs[i] == x && forall k :: 0 <= k < i ==> xs[k] != x
  }

  lemma {:induction false} FirstPlace(xs: seq<string>, x: string) returns (i: nat)
    requires x in xs
    ensures FirstAt(xs, x, i)
  {
    if xs[0] == x {
      i := 0;
    } else {
      assert xs == [xs[0]] + xs[1..];
      var k := FirstPlace(xs[1..], x);
      i := k + 1;
    }
  }

  // The elements are in the order of their first places.
  lemma {:induction false} UniqueInOrder(xs: seq<string>, a: nat, b: nat, i: nat, j: nat)
    requires a < b < |Unique(xs)| && FirstAt(xs, Unique(xs)[a], i) && FirstAt(xs, Unique(xs)[b], j)
    ensures i < j
  {
    var n := |xs| - 1;
    var front := xs[..n];
    assert forall k :: 0 <= k < n ==> front[k] == xs[k];
    assert Unique(xs) == if xs[n] in Unique(front) then Unique(front) else Unique(front) + [xs[n]];
    PlaceInFront(xs, Unique(xs)[a], i);
    PlaceInFront(xs, Unique(xs)[b], j);
    if b < |Unique(front)| { UniqueInOrder(front, a, b, i, j); }
  }

  lemma PlaceInFront(xs: seq<string>, x: string, i: nat)
    requires xs != [] && FirstAt(xs, x, i)
    ensures var front := xs[..|xs| - 1];
      if x in front then FirstAt(front, x, i) else i == |front| && x == xs[|xs| - 1]
  {
    var front := xs[..|xs| - 1];
    assert forall k :: 0 <= k < |front| ==> front[k] == xs[k];
    if x in front {
      var k :| 0 <= k < |front| && front[k] == x;
      assert xs[k] == x;
    }
  }

  method RemoveRepeats(xs: seq<string>) returns (r: seq<string>)
    ensures r == Unique(xs)
  {
    r := [];
    for k := 0 to |xs|
      invariant r == Unique(xs[..k])
    {
      assert xs[..k + 1][..k] == xs[..k];
      if xs[k] !in r { r := r + [xs[k]]; }
    }
    assert xs[..|xs|] == xs;
  }
}
