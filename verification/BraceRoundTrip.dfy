// Decoding what was encoded: exactly when the set of names comes back.
module BraceRoundTrip {
  import opened Decimal
  import opened SeparatorRewrite
  import opened BraceText
  import opened BraceOrder
  import opened BraceEncode
  import opened BraceDecode
  import opened BraceInput

  // ----- maximal runs of numbers -----

  datatype Interval = Interval(lo: nat, hi: nat)

  function Extend(before: seq<Interval>, x: nat): (r: seq<Interval>)
    ensures r != [] && r[|r| - 1].hi == x
  {
    if before != [] && before[|before| - 1].hi + 1 == x
    then before[..|before| - 1] + [Interval(before[|before| - 1].lo, x)]
    else before + [Interval(x, x)]
  }

  function Runs(vs: seq<nat>): (r: seq<Interval>)
    ensures r == [] <==> vs == []
    ensures vs != [] ==> r[|r| - 1].hi == vs[|vs| - 1]
  {
    if vs == [] then [] else Extend(Runs(vs[..|vs| - 1]), vs[|vs| - 1])
  }

  predicate StrictlyAscending(vs: seq<nat>) {
    forall i, j :: 0 <= i < j < |vs| ==> vs[i] < vs[j]
  }

  predicate Covered(r: seq<Interval>, v: nat) {
    exists k :: 0 <= k < |r| && r[k].lo <= v <= r[k].hi
  }

  // Ascending, and maximal: a number is missing between one interval and the next.
  predicate Separated(r: seq<Interval>) {
    (forall k :: 0 <= k < |r| ==> r[k].lo <= r[k].hi)
    && forall i, j :: 0 <= i < j < |r| ==> r[i].hi + 1 < r[j].lo
  }

  lemma CoverStep(before: seq<Interval>, x: nat, v: nat)
    requires Separated(before)
    ensures Covered(Extend(before, x), v) <==> Covered(before, v) || v == x
  {
    var after := Extend(before, x);
    if Covered(before, v) {
      var k :| 0 <= k < |before| && before[k].lo <= v <= before[k].hi;
      assert after[k].lo <= v <= after[k].hi;
    }
    if v == x { assert after[|after| - 1].lo <= v <= after[|after| - 1].hi; }
    if Covered(after, v) && v != x {
      var k :| 0 <= k < |after| && after[k].lo <= v <= after[k].hi;
      assert before[k].lo <= v <= before[k].hi;
    }
  }

  lemma SeparatedStep(before: seq<Interval>, x: nat)
    requires Separated(before) && (before != [] ==> before[|before| - 1].hi < x)
    ensures Separated(Extend(before, x))
  {
    var after := Extend(before, x);
    forall i, j | 0 <= i < j < |after| ensures after[i].hi + 1 < after[j].lo {
      assert i < |before| && (i < |before| - 1 || after == before + [Interval(x, x)]);
    }
  }

  // The runs cover exactly the numbers, in ascending order, and cannot be merged.
  lemma {:induction false} RunsAreMaximal(vs: seq<nat>)
    requires StrictlyAscending(vs)
    ensures Separated(Runs(vs))
    ensures forall v: nat :: Covered(Runs(vs), v) <==> v in vs
  {
    if vs != [] {
      var shorter, x := vs[..|vs| - 1], vs[|vs| - 1];
      RunsAreMaximal(shorter);
      assert vs == shorter + [x];
      assert Runs(vs) == Extend(Runs(shorter), x);
      SeparatedStep(Runs(shorter), x);
      forall v: nat ensures Covered(Runs(vs), v) <==> v in vs {
        CoverStep(Runs(shorter), x, v);
      }
    }
  }

  // A run that starts at 0 and reaches 10 is printed wider than its first number.
  predicate Widening(r: Interval) {
    r.lo == 0 && r.hi >= 10
  }

  predicate UpToTen(vs: seq<nat>) {
    forall v: nat :: v <= 10 ==> v in vs
  }

  predicate SomeWidens(r: seq<Interval>) {
    exists k :: 0 <= k < |r| && Widening(r[k])
  }

  lemma WideningIffUpToTen(vs: seq<nat>)
    requires StrictlyAscending(vs)
    ensures SomeWidens(Runs(vs)) <==> UpToTen(vs)
  {
    var r := Runs(vs);
    RunsAreMaximal(vs);
    if k :| 0 <= k < |r| && Widening(r[k]) {
      forall v: nat | v <= 10 ensures v in vs {
        assert Covered(r, v);
      }
    }
    if UpToTen(vs) {
      assert Covered(r, 0);
      var k :| 0 <= k < |r| && r[k].lo <= 0 <= r[k].hi;
      RunReaches(r, k, 10);
      assert Widening(r[k]);
    }
  }

  lemma {:induction false} RunReaches(r: seq<Interval>, k: nat, v: nat)
    requires Separated(r) && k < |r| && r[k].lo <= 0
    requires forall w: nat :: w <= v ==> Covered(r, w)
    ensures r[k].hi >= v
  {
    if v > 0 {
      RunReaches(r, k, v - 1);
      assert Covered(r, v);
      var j :| 0 <= j < |r| && r[j].lo <= v <= r[j].hi;
    }
  }

  // ----- the printed ranges of a sorted group -----

  predicate CanonicalNumbers(numbers: seq<string>) {
    forall k :: 0 <= k < |numbers| ==> Canonical(numbers[k])
  }

  predicate Printed(r: Range) {
    Canonical(r.lo) && Canonical(r.hi) && Value(r.lo) <= Value(r.hi)
  }

  predicate AllPrinted(rs: seq<Range>) {
    forall k :: 0 <= k < |rs| ==> Printed(rs[k])
  }

  function Bounds(r: Range): Interval
    requires DigitRange(r)
  {
    Interval(Value(r.lo), Value(r.hi))
  }

  function BoundsOf(rs: seq<Range>): (r: seq<Interval>)
    requires DigitRanges(rs)
    ensures |r| == |rs| && forall k :: 0 <= k < |r| ==> r[k] == Bounds(rs[k])
  {
    seq(|rs|, k requires 0 <= k < |rs| => Bounds(rs[k]))
  }

  // The ranges have these runs as their bounds.
  predicate SameBounds(rs: seq<Range>, runs: seq<Interval>)
    requires DigitRanges(rs)
  {
    BoundsOf(rs) == runs
  }

  lemma PrintedStep(rs: seq<Range>, x: string)
    requires DigitRanges(rs) && AllPrinted(rs) && Canonical(x)
    ensures AllPrinted(ExtendRanges(rs, x))
  {
    if rs != [] { assert Printed(rs[|rs| - 1]); }
  }

  lemma BoundsSnoc(rs: seq<Range>, r: Range)
    requires DigitRanges(rs) && DigitRange(r)
    ensures DigitRanges(rs + [r]) && BoundsOf(rs + [r]) == BoundsOf(rs) + [Bounds(r)]
  {
  }

  lemma ExtendSnoc(before: seq<Interval>, last: Interval, x: nat)
    ensures last.hi + 1 == x ==> Extend(before + [last], x) == before + [Interval(last.lo, x)]
    ensures last.hi + 1 != x ==> Extend(before + [last], x) == before + [last] + [Interval(x, x)]
  {
    assert (before + [last])[..|before|] == before;
  }

  lemma ExtendRangesSnoc(front: seq<Range>, last: Range, x: string)
    requires DigitRanges(front) && DigitRange(last) && x != "" && AllDigits(x)
    ensures DigitRanges(front + [last])
    ensures Value(last.hi) + 1 == Value(x) ==> ExtendRanges(front + [last], x) == front + [Range(last.lo, x)]
    ensures Value(last.hi) + 1 != Value(x) ==> ExtendRanges(front + [last], x) == front + [last] + [Range(x, x)]
  {
    assert (front + [last])[..|front|] == front;
  }

  lemma SameBoundsAfter(rs: seq<Range>, front: seq<Range>, last: Range, x: string)
    requires DigitRanges(front) && DigitRange(last) && x != "" && AllDigits(x) && rs == front + [last]
    ensures DigitRanges(rs) && SameBounds(ExtendRanges(rs, x), Extend(BoundsOf(rs), Value(x)))
  {
    var before := BoundsOf(front);
    BoundsSnoc(front, last);
    ExtendSnoc(before, Bounds(last), Value(x));
    ExtendRangesSnoc(front, last, x);
    if Value(last.hi) + 1 == Value(x) {
      BoundsSnoc(front, Range(last.lo, x));
    } else {
      BoundsSnoc(front + [last], Range(x, x));
    }
  }

  lemma SplitLast<T>(s: seq<T>)
    requires s != []
    ensures s == s[..|s| - 1] + [s[|s| - 1]]
  {
  }

  lemma SameBoundsFirst(x: string)
    requires x != "" && AllDigits(x)
    ensures SameBounds(ExtendRanges([], x), Extend([], Value(x)))
  {
    assert BoundsOf([Range(x, x)]) == [Bounds(Range(x, x))];
  }

  lemma SameBoundsStep(rs: seq<Range>, x: string)
    requires DigitRanges(rs) && x != "" && AllDigits(x)
    ensures SameBounds(ExtendRanges(rs, x), Extend(BoundsOf(rs), Value(x)))
  {
    if rs == [] {
      assert BoundsOf(rs) == [];
      SameBoundsFirst(x);
    } else {
      SplitLast(rs);
      SameBoundsAfter(rs, rs[..|rs| - 1], rs[|rs| - 1], x);
    }
  }

  lemma {:induction false} RangesAreRuns(numbers: seq<string>)
    requires DigitStrings(numbers) && CanonicalNumbers(numbers)
    ensures AllPrinted(Ranges(numbers)) && SameBounds(Ranges(numbers), Runs(Values(numbers)))
  {
    if numbers != [] {
      var shorter, x := numbers[..|numbers| - 1], numbers[|numbers| - 1];
      RangesAreRuns(shorter);
      PrintedStep(Ranges(shorter), x);
      SameBoundsStep(Ranges(shorter), x);
      RunsSnoc(numbers);
    }
  }

  lemma RunsSnoc(numbers: seq<string>)
    requires numbers != [] && DigitStrings(numbers)
    ensures Runs(Values(numbers))
         == Extend(Runs(Values(numbers[..|numbers| - 1])), Value(numbers[|numbers| - 1]))
  {
    assert Values(numbers)[..|numbers| - 1] == Values(numbers[..|numbers| - 1]);
  }

  // ----- decoding one printed group -----

  // The names a printed range decodes to.
  function Expand(pre: string, r: Range): seq<string>
    requires Printed(r)
  {
    Span(pre, Max(|r.lo|, |r.hi|), r.lo[0] == '0', Value(r.lo), Value(r.hi) + 1, "")
  }

  lemma CanonicalFacts(s: string)
    requires Canonical(s)
    ensures s == Numeral(Value(s))
    ensures s[0] == '0' <==> Value(s) == 0
    ensures |s| == 1 <==> Value(s) < 10
  {
    ValueNumeral(s);
    NumeralValue(Value(s));
  }

  lemma EntryOfSingle(pre: string, number: string)
    requires Canonical(number)
    ensures Entry(pre, |number|, number[0] == '0', Value(number), "") == pre + number + ""
    ensures Numeral(Value(number)) == number
  {
    CanonicalFacts(number);
    assert Zeros(0) + number == number;
  }

  lemma DecodePrintedSingle(pre: string, r: Range)
    requires Printed(r) && Value(r.lo) == Value(r.hi)
    ensures DecodeRange(pre, r.lo, "") == Expand(pre, r)
  {
    ParseDigits(r.lo);
    CanonicalFacts(r.lo);
    CanonicalFacts(r.hi);
    EntryOfSingle(pre, r.lo);
    assert Expand(pre, r) == [Entry(pre, |r.lo|, r.lo[0] == '0', Value(r.lo), "")];
  }

  lemma DecodePrintedRange(pre: string, r: Range)
    requires Printed(r)
    ensures DecodeRange(pre, RangeText(r), "") == Expand(pre, r)
  {
    if Value(r.lo) == Value(r.hi) {
      DecodePrintedSingle(pre, r);
    } else {
      IndexOfFirst(r.lo, '-', r.hi);
      assert r.lo + ['-'] + r.hi == RangeText(r);
      RangeTextIsToken(r);
      ParseDigits(r.lo);
      ParseDigits(r.hi);
    }
  }

  function ExpandAll(pre: string, rs: seq<Range>): seq<string>
    requires AllPrinted(rs)
  {
    if rs == [] then [] else Expand(pre, rs[0]) + ExpandAll(pre, rs[1..])
  }

  lemma {:induction false} DecodePrintedRanges(pre: string, rs: seq<Range>)
    requires AllPrinted(rs)
    ensures DecodeTokens(pre, RangeTexts(rs), "") == ExpandAll(pre, rs)
  {
    if rs != [] {
      DecodePrintedRange(pre, rs[0]);
      DecodePrintedRanges(pre, rs[1..]);
      assert RangeTexts(rs)[1..] == RangeTexts(rs[1..]);
    }
  }

  lemma BodyIsTight(numbers: seq<string>)
    requires numbers != [] && DigitStrings(numbers)
    ensures BodyChars(Body(numbers))
    ensures Split(Body(numbers), ',') == RangeTexts(Ranges(numbers))
  {
    var rs := Ranges(numbers);
    forall k | 0 <= k < |rs| ensures TokenChars(RangeTexts(rs)[k]) && Lacks(RangeTexts(rs)[k], ',') {
      RangeTextIsToken(rs[k]);
    }
    JoinedTokensAreTight(RangeTexts(rs));
    SplitJoin(RangeTexts(rs), ',');
  }

  lemma WrapBody(pre: string, body: string)
    requires BodyChars(body) && Lacks(pre, '[')
    ensures Wrap(if pre == "" then body else pre + "[" + body + "]") == pre + "[" + body + "]"
  {
    if pre == "" {
      assert "" + "[" + body + "]" == "[" + body + "]";
    } else {
      var s := pre + "[" + body + "]";
      assert s[|s| - 1] == ']' && s[0] == pre[0];
    }
  }

  lemma WrapRendered(g: Group)
    requires g.numbers != [] && DigitStrings(g.numbers) && Plain(g.pre)
    ensures Wrap(Render(g)) == g.pre + "[" + Body(g.numbers) + "]"
  {
    BodyIsTight(g.numbers);
    WrapBody(g.pre, Body(g.numbers));
  }

  predicate CanonicalGroup(g: Group) {
    g.numbers != [] && DigitStrings(g.numbers) && CanonicalNumbers(g.numbers)
    && StrictlyAscending(Values(g.numbers)) && Plain(g.pre)
  }

  // Text with one pair of braces decodes token by token.
  lemma DecodeBraced(pre: string, body: string, sort: bool)
    requires Plain(pre) && BodyChars(body)
    ensures DecodeEntries(Split(Normalize(pre + "[" + body + "]"), ';')) == DecodeTokens(pre, Split(body, ','), "")
    ensures ListedAll(Split(Normalize(pre + "[" + body + "]"), ';'), sort)
         == if sort then SortByKey(DecodeTokens(pre, Split(body, ','), ""), KeyBehind(|pre|))
            else DecodeTokens(pre, Split(body, ','), "")
  {
    var p := Piece(pre, body, "");
    assert Text(p) == pre + "[" + body + "]";
    EntryDecodes(p);
    assert DecodeEntries([Text(p)]) == DecodeEntry(Text(p)) + DecodeEntries([]);
    assert ListedAll([Text(p)], sort) == Listed(Text(p), sort) + ListedAll([], sort);
  }

  lemma DecodeRenderedTokens(g: Group)
    requires g.numbers != [] && DigitStrings(g.numbers) && Plain(g.pre)
    ensures Decoded(Render(g)) == DecodeTokens(g.pre, RangeTexts(Ranges(g.numbers)), "")
  {
    WrapRendered(g);
    BodyIsTight(g.numbers);
    DecodeBraced(g.pre, Body(g.numbers), false);
  }

  lemma DecodeRendered(g: Group)
    requires CanonicalGroup(g)
    ensures AllPrinted(Ranges(g.numbers))
    ensures Decoded(Render(g)) == ExpandAll(g.pre, Ranges(g.numbers))
  {
    RangesAreRuns(g.numbers);
    DecodeRenderedTokens(g);
    DecodePrintedRanges(g.pre, Ranges(g.numbers));
  }

  // ----- which names a group decodes to -----

  lemma {:induction false} ExpandAllMembers(pre: string, rs: seq<Range>, name: string)
    requires AllPrinted(rs)
    ensures name in ExpandAll(pre, rs) <==> exists k :: 0 <= k < |rs| && name in Expand(pre, rs[k])
  {
    if rs != [] {
      ExpandAllMembers(pre, rs[1..], name);
      if k :| 0 <= k < |rs| && name in Expand(pre, rs[k]) {
        if k > 0 { assert rs[1..][k - 1] == rs[k]; }
      }
      if k :| 0 <= k < |rs[1..]| && name in Expand(pre, rs[1..][k]) { assert rs[k + 1] == rs[1..][k]; }
    }
  }

  lemma EntryIsNumeral(pre: string, r: Range, v: nat)
    requires Printed(r) && !Widening(Bounds(r)) && Value(r.lo) <= v <= Value(r.hi)
    ensures Entry(pre, Max(|r.lo|, |r.hi|), r.lo[0] == '0', v, "") == pre + Numeral(v)
  {
    CanonicalFacts(r.lo);
    CanonicalFacts(r.hi);
    NumeralValue(v);
    assert Zeros(0) + Numeral(v) == Numeral(v);
    assert pre + Numeral(v) + "" == pre + Numeral(v);
  }

  lemma ExpandAt(pre: string, r: Range, k: nat)
    requires Printed(r) && !Widening(Bounds(r)) && Value(r.lo) + k <= Value(r.hi)
    ensures k < |Expand(pre, r)| && Expand(pre, r)[k] == pre + Numeral(Value(r.lo) + k)
  {
    EntryIsNumeral(pre, r, Value(r.lo) + k);
  }

  // A range that does not widen stands for exactly the numerals between its bounds.
  lemma ExpandedIsNumeral(pre: string, r: Range, name: string) returns (v: nat)
    requires Printed(r) && !Widening(Bounds(r)) && name in Expand(pre, r)
    ensures Value(r.lo) <= v <= Value(r.hi) && name == pre + Numeral(v)
  {
    var k: nat :| k < |Expand(pre, r)| && Expand(pre, r)[k] == name;
    ExpandAt(pre, r, k);
    v := Value(r.lo) + k;
  }

  lemma NumeralIsExpanded(pre: string, r: Range, v: nat)
    requires Printed(r) && !Widening(Bounds(r)) && Value(r.lo) <= v <= Value(r.hi)
    ensures pre + Numeral(v) in Expand(pre, r)
  {
    ExpandAt(pre, r, v - Value(r.lo));
  }

  predicate OnlyZeros(s: string) { forall i :: 0 <= i < |s| ==> s[i] == '0' }

  // A widening range also decodes to a zero-padded name.
  lemma WideningPads(pre: string, r: Range) returns (zeros: string)
    requires Printed(r) && Widening(Bounds(r))
    ensures zeros != "" && OnlyZeros(zeros) && pre + (zeros + "0") in Expand(pre, r)
  {
    CanonicalFacts(r.lo);
    CanonicalFacts(r.hi);
    var width := Max(|r.lo|, |r.hi|);
    zeros := Zeros(width - 1);
    assert Numeral(0) == "0";
    assert Expand(pre, r)[0] == Entry(pre, width, true, 0, "");
    assert pre + (zeros + "0") + "" == pre + (zeros + "0");
  }

  // ----- the theorem -----

  ghost predicate LegalName(name: string) {
    Canonical(Number(name)) && Plain(Prefix(name))
  }

  // Some string of the encoding decodes to this name.
  ghost predicate ComesBack(out: seq<string>, name: string) {
    exists k :: 0 <= k < |out| && name in Decoded(out[k])
  }

  // The prefix occurs with every number from 0 to 10.
  ghost predicate ZeroToTen(data: seq<string>, pre: string) {
    (pre == "" || !IsDigit(pre[|pre| - 1])) && forall v: nat :: v <= 10 ==> pre + Numeral(v) in data
  }

  ghost predicate NoZeroToTen(data: seq<string>) {
    forall pre :: !ZeroToTen(data, pre)
  }

  // Decoding every string of the encoding and taking the union gives back exactly the names.
  ghost predicate RoundTrips(data: seq<string>, out: seq<string>) {
    forall name :: name in data <==> ComesBack(out, name)
  }

  ghost predicate AllLegal(data: seq<string>) {
    forall name :: name in data ==> LegalName(name)
  }

  lemma GroupMember(data: seq<string>, groups: seq<Group>, plain: seq<string>, k: nat, i: nat)
    requires Grouped(data, groups, plain) && AllLegal(data) && k < |groups| && i < |groups[k].numbers|
    ensures var g := groups[k];
      g.pre + g.numbers[i] in data && Canonical(g.numbers[i]) && Plain(g.pre)
      && (g.pre == "" || !IsDigit(g.pre[|g.pre| - 1]))
  {
    NumberIsInGroups(groups, k, i);
    GroupedName(data, groups, plain, groups[k].pre, groups[k].numbers[i]);
    LegalParts(data, groups[k].pre, groups[k].numbers[i]);
  }

  lemma NumberIsInGroups(groups: seq<Group>, k: nat, i: nat)
    requires k < |groups| && i < |groups[k].numbers|
    ensures InGroups(groups, groups[k].pre, groups[k].numbers[i])
  {
    assert groups[k].numbers[i] in groups[k].numbers;
  }

  lemma GroupedName(data: seq<string>, groups: seq<Group>, plain: seq<string>, pre: string, number: string)
    requires Grouped(data, groups, plain) && InGroups(groups, pre, number)
    ensures number != "" && AllDigits(number) && pre + number in data && Prefix(pre + number) == pre
  {
  }

  lemma LegalParts(data: seq<string>, pre: string, number: string)
    requires AllLegal(data) && pre + number in data && Prefix(pre + number) == pre
    ensures Canonical(number) && Plain(pre) && (pre == "" || !IsDigit(pre[|pre| - 1]))
  {
    var name := pre + number;
    assert LegalName(name);
    assert Number(name) == number;
  }

  lemma GroupIsCanonical(data: seq<string>, groups: seq<Group>, plain: seq<string>, k: nat)
    requires Grouped(data, groups, plain) && AllLegal(data) && k < |groups|
    ensures CanonicalGroup(groups[k])
    ensures groups[k].pre == "" || !IsDigit(groups[k].pre[|groups[k].pre| - 1])
  {
    var g := groups[k];
    assert SortedGroup(g);
    forall i | 0 <= i < |g.numbers| ensures Canonical(g.numbers[i]) {
      GroupMember(data, groups, plain, k, i);
    }
    GroupMember(data, groups, plain, k, 0);
    DistinctCanonicalAscend(g);
  }

  // Different canonical numerals have different values.
  lemma DistinctCanonicalAscend(g: Group)
    requires SortedGroup(g) && CanonicalNumbers(g.numbers)
    ensures StrictlyAscending(Values(g.numbers))
  {
    forall i, j | 0 <= i < j < |g.numbers| ensures Values(g.numbers)[i] < Values(g.numbers)[j] {
      ValueNumeral(g.numbers[i]);
      ValueNumeral(g.numbers[j]);
    }
  }

  lemma GroupHasNumeral(
      data: seq<string>, groups: seq<Group>, plain: seq<string>, k: nat, v: nat)
    requires Grouped(data, groups, plain) && AllLegal(data) && k < |groups|
    ensures DigitStrings(groups[k].numbers)
    ensures groups[k].pre + Numeral(v) in data <==> v in Values(groups[k].numbers)
  {
    var g := groups[k];
    GroupIsCanonical(data, groups, plain, k);
    NumeralValue(v);
    TailStartOf(g.pre, Numeral(v));
    if g.pre + Numeral(v) in data {
      assert InGroups(groups, g.pre, Numeral(v));
      var j :| 0 <= j < |groups| && groups[j].pre == g.pre && Numeral(v) in groups[j].numbers;
      assert j == k;
      var i :| 0 <= i < |g.numbers| && g.numbers[i] == Numeral(v);
      assert Values(g.numbers)[i] == v;
    }
    if v in Values(g.numbers) {
      var i :| 0 <= i < |g.numbers| && Values(g.numbers)[i] == v;
      ValueNumeral(g.numbers[i]);
      GroupMember(data, groups, plain, k, i);
    }
  }

  lemma GroupUpToTen(data: seq<string>, groups: seq<Group>, plain: seq<string>, k: nat)
    requires Grouped(data, groups, plain) && AllLegal(data) && k < |groups|
    ensures CanonicalGroup(groups[k])
    ensures ZeroToTen(data, groups[k].pre) <==> UpToTen(Values(groups[k].numbers))
  {
    GroupIsCanonical(data, groups, plain, k);
    var pre, vs := groups[k].pre, Values(groups[k].numbers);
    forall v: nat ensures pre + Numeral(v) in data <==> v in vs {
      GroupHasNumeral(data, groups, plain, k, v);
    }
  }

  lemma ExpandedNameIsInGroup(g: Group, name: string) returns (v: nat)
    requires CanonicalGroup(g) && AllPrinted(Ranges(g.numbers)) && name in ExpandAll(g.pre, Ranges(g.numbers))
    requires !UpToTen(Values(g.numbers))
    ensures v in Values(g.numbers) && name == g.pre + Numeral(v)
  {
    RangesAreRuns(g.numbers);
    WideningIffUpToTen(Values(g.numbers));
    v := NameOfRanges(g.pre, Ranges(g.numbers), Runs(Values(g.numbers)), name);
    RunsAreMaximal(Values(g.numbers));
  }

  lemma NameOfRanges(pre: string, rs: seq<Range>, runs: seq<Interval>, name: string) returns (v: nat)
    requires AllPrinted(rs) && DigitRanges(rs) && SameBounds(rs, runs) && name in ExpandAll(pre, rs)
    requires !SomeWidens(runs)
    ensures Covered(runs, v) && name == pre + Numeral(v)
  {
    ExpandAllMembers(pre, rs, name);
    var k :| 0 <= k < |rs| && name in Expand(pre, rs[k]);
    v := NameOfRange(pre, rs, runs, k, name);
  }

  lemma GroupNameIsDecoded(g: Group, v: nat)
    requires CanonicalGroup(g) && !UpToTen(Values(g.numbers)) && v in Values(g.numbers)
    ensures g.pre + Numeral(v) in Decoded(Render(g))
  {
    var rs, runs := Ranges(g.numbers), Runs(Values(g.numbers));
    RunsAreMaximal(Values(g.numbers));
    assert Covered(runs, v);
    RangesAreRuns(g.numbers);
    WideningIffUpToTen(Values(g.numbers));
    var k := RangeOfName(g.pre, rs, runs, v);
    ExpandAllMembers(g.pre, rs, g.pre + Numeral(v));
    DecodeRendered(g);
  }

  lemma NameOfRange(pre: string, rs: seq<Range>, runs: seq<Interval>, k: nat, name: string) returns (v: nat)
    requires AllPrinted(rs) && DigitRanges(rs) && SameBounds(rs, runs) && k < |rs|
    requires !Widening(runs[k]) && name in Expand(pre, rs[k])
    ensures Covered(runs, v) && name == pre + Numeral(v)
  {
    assert Bounds(rs[k]) == runs[k];
    v := ExpandedIsNumeral(pre, rs[k], name);
  }

  lemma RangeOfName(pre: string, rs: seq<Range>, runs: seq<Interval>, v: nat) returns (k: nat)
    requires AllPrinted(rs) && DigitRanges(rs) && SameBounds(rs, runs) && Covered(runs, v)
    requires !SomeWidens(runs)
    ensures k < |rs| && pre + Numeral(v) in Expand(pre, rs[k])
  {
    k :| 0 <= k < |runs| && runs[k].lo <= v <= runs[k].hi;
    assert Bounds(rs[k]) == runs[k] && !Widening(runs[k]);
    NumeralIsExpanded(pre, rs[k], v);
  }

  lemma NameComesBack(data: seq<string>, groups: seq<Group>, plain: seq<string>, out: seq<string>, name: string)
    requires Encodes(data, groups, plain, out) && AllLegal(data) && name in data
    requires NoZeroToTen(data)
    ensures ComesBack(out, name)
  {
    assert LegalName(name);
    assert InGroups(groups, Prefix(name), Number(name));
    var k :| 0 <= k < |groups| && groups[k].pre == Prefix(name) && Number(name) in groups[k].numbers;
    GroupUpToTen(data, groups, plain, k);
    ValueNumeral(Number(name));
    GroupHasNumeral(data, groups, plain, k, Value(Number(name)));
    GroupNameIsDecoded(groups[k], Value(Number(name)));
    assert out[k] == Render(groups[k]);
  }

  lemma FirstIsMember(xs: seq<string>)
    requires xs != []
    ensures xs[0] in xs
  {
  }

  lemma NoPlainNames(data: seq<string>, groups: seq<Group>, plain: seq<string>, out: seq<string>)
    requires Encodes(data, groups, plain, out) && AllLegal(data)
    ensures |out| == |groups|
  {
    assert forall n :: n in plain ==> n in data && !LegalName(n);
    if plain != [] {
      FirstIsMember(plain);
      assert false;
    }
  }

  lemma OnlyNamesComeBack(data: seq<string>, groups: seq<Group>, plain: seq<string>, out: seq<string>, name: string)
    requires Encodes(data, groups, plain, out) && AllLegal(data) && ComesBack(out, name)
    requires NoZeroToTen(data)
    ensures name in data
  {
    NoPlainNames(data, groups, plain, out);
    var k :| 0 <= k < |out| && name in Decoded(out[k]);
    GroupUpToTen(data, groups, plain, k);
    assert out[k] == Render(groups[k]);
    DecodeRendered(groups[k]);
    var v := ExpandedNameIsInGroup(groups[k], name);
    GroupHasNumeral(data, groups, plain, k, v);
  }

  // And only then: a prefix with all of 0 to 10 is printed as one range from 0, and decoding
  // pads that range with zeros to the width of its end, which yields a name that was never there.
  lemma RoundTripFailsFromZeroToTen(data: seq<string>, out: seq<string>, pre: string)
    returns (name: string)
    requires IsEncoding(data, out) && AllLegal(data) && ZeroToTen(data, pre)
    ensures ComesBack(out, name) && name !in data
  {
    var groups: seq<Group>, plain: seq<string> :| Encodes(data, groups, plain, out);
    var k := GroupOfPrefix(data, groups, plain, out, pre);
    GroupUpToTen(data, groups, plain, k);
    name := WideningGroupPads(groups[k]);
    OneTextIsEnough(out, k, groups[k], name);
  }

  lemma OneTextIsEnough(out: seq<string>, k: nat, g: Group, name: string)
    requires k < |out| && g.numbers != [] && DigitStrings(g.numbers)
    requires out[k] == Render(g) && name in Decoded(Render(g))
    ensures ComesBack(out, name)
  {
  }

  lemma GroupOfPrefix(data: seq<string>, groups: seq<Group>, plain: seq<string>, out: seq<string>, pre: string)
    returns (k: nat)
    requires Encodes(data, groups, plain, out) && ZeroToTen(data, pre)
    ensures k < |groups| && groups[k].pre == pre
  {
    NumeralValue(0);
    TailStartOf(pre, Numeral(0));
    assert pre + Numeral(0) in data;
    assert InGroups(groups, pre, Numeral(0));
    k :| 0 <= k < |groups| && groups[k].pre == pre && Numeral(0) in groups[k].numbers;
  }

  lemma WideningGroupPads(g: Group) returns (name: string)
    requires CanonicalGroup(g) && UpToTen(Values(g.numbers))
    requires g.pre == "" || !IsDigit(g.pre[|g.pre| - 1])
    ensures name in Decoded(Render(g)) && !LegalName(name)
  {
    var rs, runs := Ranges(g.numbers), Runs(Values(g.numbers));
    DecodeRendered(g);
    RangesAreRuns(g.numbers);
    WideningIffUpToTen(Values(g.numbers));
    var j :| 0 <= j < |runs| && Widening(runs[j]);
    assert Bounds(rs[j]) == runs[j];
    var zeros := WideningPads(g.pre, rs[j]);
    name := g.pre + (zeros + "0");
    ExpandAllMembers(g.pre, rs, name);
    PaddedIsIllegal(g.pre, zeros);
  }

  lemma PaddedIsIllegal(pre: string, zeros: string)
    requires zeros != "" && OnlyZeros(zeros) && (pre == "" || !IsDigit(pre[|pre| - 1]))
    ensures !LegalName(pre + (zeros + "0"))
  {
    var digits := zeros + "0";
    assert forall i :: 0 <= i < |digits| ==> digits[i] == '0';
    TailStartOf(pre, digits);
  }

  // The law: encoding and decoding gives back exactly the names, for every set of legal names,
  // if and only if no prefix occurs with all of 0 to 10.
  lemma RoundTripIffNoZeroToTen(data: seq<string>, out: seq<string>)
    requires IsEncoding(data, out) && AllLegal(data)
    ensures RoundTrips(data, out) <==> NoZeroToTen(data)
  {
    if NoZeroToTen(data) {
      var groups: seq<Group>, plain: seq<string> :| Encodes(data, groups, plain, out);
      forall name ensures name in data <==> ComesBack(out, name) {
        if name in data { NameComesBack(data, groups, plain, out, name); }
        if ComesBack(out, name) { OnlyNamesComeBack(data, groups, plain, out, name); }
      }
    } else {
      var pre :| ZeroToTen(data, pre);
      var name := RoundTripFailsFromZeroToTen(data, out, pre);
    }
  }

  // Positive numbers never meet the exception.
  lemma PositiveNumbersRoundTrip(data: seq<string>, out: seq<string>)
    requires IsEncoding(data, out) && AllLegal(data)
    requires forall name :: name in data ==> Value(Number(name)) > 0
    ensures RoundTrips(data, out)
  {
    forall pre ensures !ZeroToTen(data, pre) {
      if ZeroToTen(data, pre) {
        NumeralValue(0);
        TailStartOf(pre, Numeral(0));
        assert false;
      }
    }
    RoundTripIffNoZeroToTen(data, out);
  }

  lemma RangeOfOne(number: string)
    requires number != "" && AllDigits(number)
    ensures DigitStrings([number]) && RangeTexts(Ranges([number])) == [number]
  {
    assert [number][..0] == [];
    assert Ranges([number]) == [Range(number, number)];
  }

  lemma OneNumberDecodes(pre: string, number: string)
    requires Plain(pre) && number != "" && AllDigits(number)
    ensures Decoded(Render(Group(pre, [number]))) == [pre + Numeral(Value(number))]
  {
    RangeOfOne(number);
    DecodeRenderedTokens(Group(pre, [number]));
    DecodeOneNumber(pre, number);
  }

  lemma NumeralIffCanonical(number: string)
    requires number != "" && AllDigits(number)
    ensures Numeral(Value(number)) == number <==> Canonical(number)
  {
    NumeralValue(Value(number));
    if Canonical(number) { ValueNumeral(number); }
  }

  // A single name comes back exactly when its number has no leading zeros: they are lost.
  lemma SingleNameRoundTripsIffCanonical(pre: string, number: string)
    requires Plain(pre) && number != "" && AllDigits(number)
    ensures Decoded(Render(Group(pre, [number]))) == [pre + number] <==> Canonical(number)
  {
    OneNumberDecodes(pre, number);
    NumeralIffCanonical(number);
    SameTail(pre, Numeral(Value(number)), number);
  }

  lemma SameTail(pre: string, a: string, b: string)
    ensures pre + a == pre + b <==> a == b
  {
    if pre + a == pre + b {
      assert (pre + a)[|pre|..] == a && (pre + b)[|pre|..] == b;
    }
  }

  lemma DecodeOneNumber(pre: string, number: string)
    requires number != "" && AllDigits(number)
    ensures DecodeTokens(pre, [number], "") == [pre + Numeral(Value(number))]
  {
    ParseDigits(number);
    assert pre + Numeral(Value(number)) + "" == pre + Numeral(Value(number));
    assert DecodeTokens(pre, [], "") == [];
    assert [number][1..] == [];
  }

  // ----- the order of printed names -----

  // The decoder sorts a name by the number it was made from, padded or not.
  lemma KeyOfEntry(pre: string, width: nat, pad: bool, v: nat)
    ensures KeyBehind(|pre|)(Entry(pre, width, pad, v, "")) == Num(v)
  {
    var text := if pad then Padded(width, v) else Numeral(v);
    var name := Entry(pre, width, pad, v, "");
    assert name == pre + text && name[|pre|..] == text;
    NumeralValue(v);
    ZerosKeepValue(if width >= |Numeral(v)| then width - |Numeral(v)| else 0, Numeral(v));
    ParseDigits(text);
    KeyIsNumberAfterBase(name, |pre|);
  }

  lemma KeysOfRange(pre: string, r: Range, k: nat)
    requires Printed(r) && k < |Expand(pre, r)|
    ensures KeyBehind(|pre|)(Expand(pre, r)[k]) == Num(Value(r.lo) + k)
    ensures Value(r.lo) + k <= Value(r.hi)
  {
    KeyOfEntry(pre, Max(|r.lo|, |r.hi|), r.lo[0] == '0', Value(r.lo) + k);
  }

  predicate KeysBetween(names: seq<string>, key: string -> Num, lo: nat, hi: nat) {
    forall k :: 0 <= k < |names| ==> key(names[k]).Num? && lo <= key(names[k]).n <= hi
  }

  // No number of the listing is below v.
  predicate KeysFrom(names: seq<string>, key: string -> Num, v: nat) {
    forall k :: 0 <= k < |names| ==> key(names[k]).Num? && v <= key(names[k]).n
  }

  lemma RangeAscends(pre: string, r: Range)
    requires Printed(r)
    ensures KeysAscend(Expand(pre, r), KeyBehind(|pre|))
    ensures KeysBetween(Expand(pre, r), KeyBehind(|pre|), Value(r.lo), Value(r.hi))
  {
    var names, key := Expand(pre, r), KeyBehind(|pre|);
    forall k | 0 <= k < |names| ensures key(names[k]) == Num(Value(r.lo) + k) && key(names[k]).n <= Value(r.hi) {
      KeysOfRange(pre, r, k);
    }
  }

  lemma AscendBoth(front: seq<string>, rest: seq<string>, key: string -> Num, lo: nat, hi: nat)
    requires KeysAscend(front, key) && KeysBetween(front, key, lo, hi)
    requires KeysAscend(rest, key) && KeysFrom(rest, key, hi) && lo <= hi
    ensures KeysAscend(front + rest, key) && KeysFrom(front + rest, key, lo)
  {
  }

  lemma {:induction false} RangesAscend(pre: string, rs: seq<Range>)
    requires AllPrinted(rs) && forall i, j :: 0 <= i < j < |rs| ==> Value(rs[i].hi) <= Value(rs[j].lo)
    ensures KeysAscend(ExpandAll(pre, rs), KeyBehind(|pre|))
    ensures rs != [] ==> KeysFrom(ExpandAll(pre, rs), KeyBehind(|pre|), Value(rs[0].lo))
  {
    if rs != [] {
      RangesAscend(pre, rs[1..]);
      assert rs[1..] != [] ==> rs[1..][0] == rs[1];
      RangeAscends(pre, rs[0]);
      var rest, key := ExpandAll(pre, rs[1..]), KeyBehind(|pre|);
      assert KeysFrom(rest, key, Value(rs[0].hi));
      AscendBoth(Expand(pre, rs[0]), rest, key, Value(rs[0].lo), Value(rs[0].hi));
    }
  }

  lemma PrintedRangesAscend(g: Group)
    requires CanonicalGroup(g)
    ensures AllPrinted(Ranges(g.numbers))
    ensures KeysAscend(ExpandAll(g.pre, Ranges(g.numbers)), KeyBehind(|g.pre|))
  {
    var rs, runs := Ranges(g.numbers), Runs(Values(g.numbers));
    RangesAreRuns(g.numbers);
    RunsAreMaximal(Values(g.numbers));
    forall i, j | 0 <= i < j < |rs| ensures Value(rs[i].hi) <= Value(rs[j].lo) {
      assert Bounds(rs[i]) == runs[i] && Bounds(rs[j]) == runs[j];
    }
    RangesAscend(g.pre, rs);
  }

  // A printed text lists its numbers in ascending order by itself: sorting changes nothing.
  lemma PrintedTextNeedsNoSorting(g: Group, sort: bool)
    requires CanonicalGroup(g)
    ensures Output(Render(g), sort) == Decoded(Render(g))
    ensures KeysAscend(Decoded(Render(g)), KeyBehind(|g.pre|))
  {
    WrapRendered(g);
    BodyIsTight(g.numbers);
    DecodeBraced(g.pre, Body(g.numbers), sort);
    DecodeRenderedTokens(g);
    DecodeRendered(g);
    PrintedRangesAscend(g);
    SortedStays(Decoded(Render(g)), KeyBehind(|g.pre|));
  }
}
