// What the decoder makes of text as it is typed: white space, several entries, suffixes and
// ranges in either direction.
module BraceInput {
  import opened Decimal
  import opened SeparatorRewrite
  import opened BraceText
  import opened BraceOrder
  import opened BraceDecode

  // ----- white space -----

  lemma SpacesKeepEnds(u: string, a: string, b: string, v: string, c: char)
    requires AllSpaces(a) && AllSpaces(b) && c != ',' && !IsSpace(c)
    ensures var s, t := u + (a + ("," + (b + v))), u + ("," + v);
      (s[0] == c <==> t[0] == c) && (s[|s| - 1] == c <==> t[|t| - 1] == c)
  {
    var s, t := u + (a + ("," + (b + v))), u + ("," + v);
    if u == "" && a != "" { assert s[0] == a[0]; }
    if v == "" {
      assert t[|t| - 1] == ',';
      if b != "" { assert s[|s| - 1] == b[|b| - 1]; } else { assert s[|s| - 1] == ','; }
    } else {
      assert s[|s| - 1] == v[|v| - 1] && t[|t| - 1] == v[|v| - 1];
    }
  }

  lemma SpacesKeepWrap(u: string, a: string, b: string, v: string)
    requires AllSpaces(a) && AllSpaces(b)
    ensures var s, t := u + (a + ("," + (b + v))), u + ("," + v);
      SemicolonForComma(Wrap(s)) == SemicolonForComma(Wrap(t))
  {
    var s, t := u + (a + ("," + (b + v))), u + ("," + v);
    SpacesKeepEnds(u, a, b, v, '[');
    SpacesKeepEnds(u, a, b, v, ']');
    if s[0] != '[' && s[|s| - 1] != ']' {
      SpacesAroundCommaVanish("[" + u, a, b, v + "]");
      assert Wrap(s) == ("[" + u) + (a + ("," + (b + (v + "]"))));
      assert Wrap(t) == ("[" + u) + ("," + (v + "]"));
    } else {
      SpacesAroundCommaVanish(u, a, b, v);
    }
  }

  // White space around a comma changes nothing in what is decoded, wherever the comma stands.
  lemma SpacesDoNotMatter(u: string, a: string, b: string, v: string)
    requires AllSpaces(a) && AllSpaces(b)
    ensures Decoded(u + (a + ("," + (b + v)))) == Decoded(u + ("," + v))
    ensures forall sort :: Output(u + (a + ("," + (b + v))), sort) == Output(u + ("," + v), sort)
  {
    SpacesKeepWrap(u, a, b, v);
  }

  // ----- one entry -----

  // pre[body]suffix
  datatype Piece = Piece(pre: string, body: string, suffix: string)

  function Text(p: Piece): string { p.pre + "[" + p.body + "]" + p.suffix }

  predicate Plain(s: string) { Lacks(s, '[') && Lacks(s, ']') && Lacks(s, ',') && Lacks(s, ';') }

  // No braces inside, and commas between digits only.
  predicate BodyText(s: string) { Lacks(s, '[') && Lacks(s, ']') && TightCommas(s) }

  predicate Sound(p: Piece) { Plain(p.pre) && BodyText(p.body) && Plain(p.suffix) }

  // What the tokens between the braces stand for.
  function Meaning(p: Piece): seq<string> { DecodeTokens(p.pre, Split(p.body, ','), p.suffix) }

  lemma LacksConcat(a: string, b: string, c: char)
    ensures Lacks(a + b, c) <==> Lacks(a, c) && Lacks(b, c)
  {
    var s := a + b;
    assert forall k :: 0 <= k < |a| ==> s[k] == a[k];
    assert forall k :: 0 <= k < |b| ==> s[|a| + k] == b[k];
  }

  lemma TextLacks(p: Piece, c: char)
    requires c != '[' && c != ']'
    ensures Lacks(Text(p), c) <==> Lacks(p.pre, c) && Lacks(p.body, c) && Lacks(p.suffix, c)
  {
    LacksConcat(p.pre, "[", c);
    LacksConcat(p.pre + "[", p.body, c);
    LacksConcat(p.pre + "[" + p.body, "]", c);
    LacksConcat(p.pre + "[" + p.body + "]", p.suffix, c);
  }

  lemma CommasAreInBody(p: Piece)
    requires Sound(p)
    ensures forall k :: 0 <= k < |Text(p)| && Text(p)[k] == ',' ==> |p.pre| < k <= |p.pre| + |p.body|
  {
    var to := |p.pre| + |p.body| + 2;
    forall k | 0 <= k < |Text(p)| && !(|p.pre| < k <= |p.pre| + |p.body|) ensures Text(p)[k] != ',' {
      if k < |p.pre| { assert Text(p)[k] == p.pre[k]; } else if k >= to { assert Text(p)[k] == p.suffix[k - to]; }
    }
  }

  lemma TextIsTight(p: Piece)
    requires Sound(p)
    ensures TightCommas(Text(p))
  {
    var s := Text(p);
    TextLacks(p, ';');
    CommasAreInBody(p);
    forall k | 0 <= k < |s| && s[k] == ','
      ensures 0 < k < |s| - 1 && IsDigit(s[k - 1]) && IsDigit(s[k + 1])
    {
      var i := k - |p.pre| - 1;
      assert 0 <= i < |p.body| && p.body[i] == ',';
      assert s[k - 1] == p.body[i - 1] && s[k + 1] == p.body[i + 1];
    }
  }

  lemma FindBraces(p: Piece)
    requires Sound(p)
    ensures Braced(Text(p)) && Suffix(Text(p)) == p.suffix
  {
    var s, front := Text(p), p.pre + "[" + p.body;
    assert s == p.pre + ['['] + (p.body + "]" + p.suffix);
    IndexOfFirst(p.pre, '[', p.body + "]" + p.suffix);
    LacksConcat(p.pre, "[", ']');
    LacksConcat(p.pre + "[", p.body, ']');
    assert s == front + [']'] + p.suffix;
    IndexOfFirst(front, ']', p.suffix);
  }

  lemma CutOnce(a: string, c: char, b: string)
    requires Lacks(a, c) && Lacks(b, c)
    ensures Split(a + [c] + b, c) == [a, b]
  {
    SplitAtFirst(a, c, b);
    SplitWhole(b, c);
  }

  lemma CutOpen(p: Piece)
    requires Lacks(p.pre, '[') && Lacks(p.body, '[') && Lacks(p.suffix, '[')
    ensures Split(Text(p), '[') == [p.pre, p.body + "]" + p.suffix]
  {
    var rest := p.body + "]" + p.suffix;
    assert Text(p) == p.pre + ['['] + rest;
    LacksConcat(p.body, "]", '[');
    LacksConcat(p.body + "]", p.suffix, '[');
    CutOnce(p.pre, '[', rest);
  }

  lemma CutClose(p: Piece)
    requires Sound(p)
    ensures Split(p.body + "]" + p.suffix, ']')[0] == p.body
  {
    assert p.body + "]" + p.suffix == p.body + [']'] + p.suffix;
    SplitAtFirst(p.body, ']', p.suffix);
  }

  // The text passes the rewrites as it is and is decoded token by token.
  lemma EntryDecodes(p: Piece)
    requires Sound(p)
    ensures TightCommas(Text(p)) && Split(Normalize(Text(p)), ';') == [Text(p)]
    ensures DecodeEntry(Text(p)) == Meaning(p)
    ensures Listed(Text(p), true) == SortByKey(Meaning(p), KeyBehind(|p.pre|)) && Listed(Text(p), false) == Meaning(p)
  {
    TextIsTight(p);
    NormalizeKeepsTightText(Text(p));
    TextLacks(p, ';');
    SplitWhole(Text(p), ';');
    FindBraces(p);
    CutOpen(p);
    CutClose(p);
  }

  // ----- several entries -----

  // Text with braces, or a name without.
  datatype Item = Braces(p: Piece) | Name(name: string)

  function ItemText(x: Item): string {
    match x case Braces(p) => Text(p) case Name(name) => name
  }

  predicate SoundItem(x: Item) {
    match x case Braces(p) => Sound(p) case Name(name) => name != "" && Plain(name)
  }

  // A name stands for itself.
  function ItemMeaning(x: Item, sort: bool): seq<string> {
    match x
    case Braces(p) => if sort then SortByKey(Meaning(p), KeyBehind(|p.pre|)) else Meaning(p)
    case Name(name) => [name]
  }

  function Texts(xs: seq<Item>): (ts: seq<string>)
    ensures |ts| == |xs| && forall k :: 0 <= k < |ts| ==> ts[k] == ItemText(xs[k])
  {
    seq(|xs|, k requires 0 <= k < |xs| => ItemText(xs[k]))
  }

  function Meanings(xs: seq<Item>, sort: bool): seq<string> {
    if xs == [] then [] else ItemMeaning(xs[0], sort) + Meanings(xs[1..], sort)
  }

  lemma ItemDecodes(x: Item, sort: bool)
    requires SoundItem(x)
    ensures ItemText(x) != "" && TightCommas(ItemText(x)) && Lacks(ItemText(x), ';')
    ensures DecodeEntry(ItemText(x)) == ItemMeaning(x, false) && Listed(ItemText(x), sort) == ItemMeaning(x, sort)
  {
    match x
    case Braces(p) => EntryDecodes(p);
    case Name(name) =>
  }

  predicate DigitAt(s: string, k: int) { 0 <= k < |s| && IsDigit(s[k]) }

  predicate SpaceAt(s: string, k: int) { 0 <= k < |s| && IsSpace(s[k]) }

  // A comma between them separates the two texts: it is not one between digits, and white space
  // does not get lost at it.
  predicate Apart(a: string, b: string) {
    && !(DigitAt(a, |a| - 1) && DigitAt(b, 0)) && !SpaceAt(a, |a| - 1) && !SpaceAt(b, 0)
  }

  predicate AllApart(ts: seq<string>) { forall k :: 0 < k < |ts| ==> Apart(ts[k - 1], ts[k]) }

  function Rewritten(s: string): string { CommaSeparated(Semicolons(s)) }

  lemma RewrittenParts(a: string, b: string)
    requires BareCommas(a) && BareCommas(b) && Apart(a, b)
    ensures BareCommas(a + [','] + b) && Rewritten(a + [','] + b) == Rewritten(a) + [';'] + Rewritten(b)
  {
    var s := a + [','] + b;
    var t := Semicolons(s);
    forall k | 0 <= k < |s| && s[k] == ','
      ensures (k > 0 ==> !IsSpace(s[k - 1])) && (k + 1 < |s| ==> !IsSpace(s[k + 1]))
    {
      if k < |a| { assert s[k] == a[k]; } else if k > |a| { assert s[k] == b[k - |a| - 1]; }
      if 0 < k <= |a| { assert s[k - 1] == a[k - 1]; } else if k > |a| + 1 { assert s[k - 1] == b[k - |a| - 2]; }
      if k < |a| - 1 { assert s[k + 1] == a[k + 1]; } else if |a| <= k < |s| - 1 { assert s[k + 1] == b[k - |a|]; }
    }
    SignsOfParts(a, b);
  }

  lemma SignsOfParts(a: string, b: string)
    requires Apart(a, b)
    ensures Rewritten(a + [','] + b) == Rewritten(a) + [';'] + Rewritten(b)
  {
    var s, t := a + [','] + b, Semicolons(a + [','] + b);
    var r := Rewritten(a) + [';'] + Rewritten(b);
    assert t == Semicolons(a) + [';'] + Semicolons(b);
    forall k | 0 <= k < |s| ensures Rewritten(s)[k] == r[k] {
      if k < |a| {
        assert IsSeparator(t, k) <==> IsSeparator(Semicolons(a), k);
      } else if k > |a| {
        assert IsSeparator(t, k) <==> IsSeparator(Semicolons(b), k - |a| - 1);
      } else {
        assert !IsSeparator(t, k);
      }
    }
  }

  lemma {:induction false} RewrittenJoin(ts: seq<string>)
    requires ts != [] && AllApart(ts) && forall k :: 0 <= k < |ts| ==> ts[k] != "" && TightCommas(ts[k])
    ensures BareCommas(Join(ts, ',')) && Rewritten(Join(ts, ',')) == Join(ts, ';')
  {
    TightTextStays(ts[0]);
    if |ts| > 1 {
      var rest := ts[1..];
      assert forall k :: 0 <= k < |rest| ==> rest[k] == ts[k + 1];
      assert AllApart(rest) by {
        forall k | 0 < k < |rest| ensures Apart(rest[k - 1], rest[k]) { assert Apart(ts[k], ts[k + 1]); }
      }
      RewrittenJoin(rest);
      JoinStarts(rest);
      assert Apart(ts[0], ts[1]);
      RewrittenParts(ts[0], Join(rest, ','));
    }
  }

  lemma JoinStarts(ts: seq<string>)
    requires ts != [] && ts[0] != ""
    ensures Join(ts, ',') != "" && Join(ts, ',')[0] == ts[0][0]
  {
  }

  lemma {:induction false} JoinEnds(ts: seq<string>)
    requires ts != [] && ts[|ts| - 1] != ""
    ensures var s, last := Join(ts, ','), ts[|ts| - 1]; s != "" && s[|s| - 1] == last[|last| - 1]
  {
    if |ts| > 1 {
      assert ts[1..][|ts| - 2] == ts[|ts| - 1];
      JoinEnds(ts[1..]);
    }
  }

  predicate AllSound(xs: seq<Item>) { forall k :: 0 <= k < |xs| ==> SoundItem(xs[k]) }

  // The first text begins with a brace, or the last one ends with one; otherwise the decoder puts
  // braces around the whole.
  predicate EndsInBrace(ts: seq<string>)
    requires ts != []
  {
    var last := ts[|ts| - 1];
    ts[0] != "" && last != "" && (ts[0][0] == '[' || last[|last| - 1] == ']')
  }

  lemma JoinIsNotWrapped(ts: seq<string>)
    requires ts != [] && EndsInBrace(ts)
    ensures Wrap(Join(ts, ',')) == Join(ts, ',')
  {
    JoinStarts(ts);
    JoinEnds(ts);
  }

  lemma {:induction false} EntriesDecode(xs: seq<Item>, sort: bool)
    requires AllSound(xs)
    ensures DecodeEntries(Texts(xs)) == Meanings(xs, false) && ListedAll(Texts(xs), sort) == Meanings(xs, sort)
  {
    if xs != [] {
      ItemDecodes(xs[0], sort);
      EntriesDecode(xs[1..], sort);
      assert Texts(xs)[1..] == Texts(xs[1..]);
    }
  }

  // Several texts joined by commas are decoded one by one.
  lemma JoinedTextsDecode(xs: seq<Item>, sort: bool)
    requires xs != [] && AllSound(xs) && AllApart(Texts(xs)) && EndsInBrace(Texts(xs))
    ensures Decoded(Join(Texts(xs), ',')) == Meanings(xs, false)
    ensures Output(Join(Texts(xs), ','), sort) == Meanings(xs, sort)
  {
    var ts := Texts(xs);
    forall k | 0 <= k < |ts| ensures ts[k] != "" && TightCommas(ts[k]) && Lacks(ts[k], ';') {
      ItemDecodes(xs[k], sort);
    }
    JoinIsNotWrapped(ts);
    RewrittenJoin(ts);
    NormalizedBareText(Join(ts, ','));
    SplitJoin(ts, ';');
    EntriesDecode(xs, sort);
  }

  // The texts joined by a comma with white space around it.
  function SpacedJoin(ts: seq<string>, a: string, b: string): string
    requires ts != []
  {
    if |ts| == 1 then ts[0] else ts[0] + (a + ("," + (b + SpacedJoin(ts[1..], a, b))))
  }

  lemma SpacedJoinParts(u: string, ts: seq<string>, a: string, b: string)
    requires |ts| > 1
    ensures u + SpacedJoin(ts, a, b) == (u + ts[0]) + (a + ("," + (b + SpacedJoin(ts[1..], a, b))))
    ensures (u + ts[0]) + ("," + SpacedJoin(ts[1..], a, b)) == (u + ts[0] + ",") + SpacedJoin(ts[1..], a, b)
    ensures (u + ts[0] + ",") + Join(ts[1..], ',') == u + Join(ts, ',')
  {
    assert SpacedJoin(ts, a, b) == ts[0] + (a + ("," + (b + SpacedJoin(ts[1..], a, b))));
    assert Join(ts, ',') == ts[0] + "," + Join(ts[1..], ',');
  }

  lemma {:induction false} SpacedJoinIsJoin(u: string, ts: seq<string>, a: string, b: string)
    requires ts != [] && AllSpaces(a) && AllSpaces(b)
    ensures SemicolonForComma(Wrap(u + SpacedJoin(ts, a, b))) == SemicolonForComma(Wrap(u + Join(ts, ',')))
    decreases |ts|
  {
    if |ts| > 1 {
      SpacesKeepWrap(u + ts[0], a, b, SpacedJoin(ts[1..], a, b));
      SpacedJoinParts(u, ts, a, b);
      SpacedJoinIsJoin(u + ts[0] + ",", ts[1..], a, b);
    }
  }

  // ... and with white space around the commas as well.
  lemma SpacedTextsDecode(xs: seq<Item>, a: string, b: string, sort: bool)
    requires xs != [] && AllSound(xs) && AllApart(Texts(xs)) && EndsInBrace(Texts(xs))
    requires AllSpaces(a) && AllSpaces(b)
    ensures Decoded(SpacedJoin(Texts(xs), a, b)) == Meanings(xs, false)
    ensures Output(SpacedJoin(Texts(xs), a, b), sort) == Meanings(xs, sort)
  {
    JoinedTextsDecode(xs, sort);
    SpacedJoinIsJoin("", Texts(xs), a, b);
    assert "" + SpacedJoin(Texts(xs), a, b) == SpacedJoin(Texts(xs), a, b);
    assert "" + Join(Texts(xs), ',') == Join(Texts(xs), ',');
  }

  // ----- ranges -----

  predicate Digits(s: string) { s != "" && AllDigits(s) }

  function Least(a: nat, b: nat): nat { if a <= b then a else b }

  // The text shows the number v of a range: with the width of the wider bound if the first bound
  // begins with a zero, and without superfluous zeros otherwise.
  predicate ShowsNumber(t: string, lo: string, hi: string, v: nat)
    requires Digits(lo) && Digits(hi)
  {
    Digits(t) && Value(t) == v && if lo[0] == '0' then |t| == Max(|lo|, |hi|) else Canonical(t)
  }

  lemma {:induction false} ZerosKeepValue(n: nat, t: string)
    requires AllDigits(t)
    ensures AllDigits(Zeros(n) + t) && Value(Zeros(n) + t) == Value(t)
  {
    var s := Zeros(n) + t;
    if t != "" {
      assert s[..|s| - 1] == Zeros(n) + t[..|t| - 1];
      ZerosKeepValue(n, t[..|t| - 1]);
    } else if n > 0 {
      assert s[..|s| - 1] == Zeros(n - 1) + "";
      ZerosKeepValue(n - 1, "");
    }
  }

  // A number is not wider than digits for a number at least as large.
  lemma {:induction false} NumeralFits(v: nat, s: string)
    requires Digits(s) && v <= Value(s)
    ensures |Numeral(v)| <= |s|
  {
    if v >= 10 {
      var front := s[..|s| - 1];
      assert Value(front) >= v / 10 >= 1 && Value("") == 0;
      NumeralFits(v / 10, front);
    }
  }

  lemma {:induction false} AllDigitsIsOneRun(s: string, i: nat)
    requires AllDigits(s) && i <= |s|
    ensures RunEnd(s, i) == |s|
    decreases |s| - i
  {
    if i < |s| { AllDigitsIsOneRun(s, i + 1); }
  }

  lemma ParseNumber(s: string)
    requires Digits(s)
    ensures ParseFloat(s) == Num(Value(s))
  {
    AllDigitsIsOneRun(s, 0);
    assert s[..|s|] == s;
  }

  lemma ParseDigits(s: string)
    requires Digits(s)
    ensures ParseFloat(s) == Num(Value(s))
    ensures Split(s, '.') == [s] && IndexOf(s, '-') == -1
    ensures PaddingLength(s) > 0 <==> s[0] == '0'
  {
    AllDigitsIsOneRun(s, 0);
    assert s[..|s|] == s;
    SplitWhole(s, '.');
  }

  lemma PaddedIs(width: nat, v: nat)
    requires |Numeral(v)| <= width
    ensures Digits(Padded(width, v)) && Value(Padded(width, v)) == v && |Padded(width, v)| == width
  {
    NumeralValue(v);
    ZerosKeepValue(width - |Numeral(v)|, Numeral(v));
  }

  lemma PaddedShows(lo: string, hi: string, v: nat)
    requires Digits(lo) && Digits(hi) && v <= Max(Value(lo), Value(hi))
    ensures ShowsNumber(if lo[0] == '0' then Padded(Max(|lo|, |hi|), v) else Numeral(v), lo, hi, v)
  {
    if v <= Value(lo) { NumeralFits(v, lo); } else { NumeralFits(v, hi); }
    assert |Numeral(v)| <= Max(|lo|, |hi|);
    if lo[0] == '0' { PaddedIs(Max(|lo|, |hi|), v); } else { NumeralValue(v); }
  }

  // Two bounds in either order stand for every number from the smaller to the larger one, in
  // ascending order.
  predicate IsRange(names: seq<string>, pre: string, lo: string, hi: string, suffix: string)
    requires Digits(lo) && Digits(hi)
  {
    var from := Least(Value(lo), Value(hi));
    && |names| == Max(Value(lo), Value(hi)) - from + 1
    && forall k :: 0 <= k < |names| ==> NameOf(names[k], pre, lo, hi, from + k, suffix)
  }

  predicate NameOf(name: string, pre: string, lo: string, hi: string, v: nat, suffix: string)
    requires Digits(lo) && Digits(hi)
  {
    var n := |name| - |suffix|;
    |pre| <= n && name == pre + name[|pre|..n] + suffix && ShowsNumber(name[|pre|..n], lo, hi, v)
  }

  lemma WidthOfDigits(lo: string, hi: string)
    requires Digits(lo) && Digits(hi)
    ensures Width(lo, hi) == Max(|lo|, |hi|) && (PaddingLength(lo) > 0 <==> lo[0] == '0')
  {
    ParseDigits(lo);
    ParseDigits(hi);
  }

  lemma BoundsOf(pre: string, lo: string, hi: string, suffix: string, a: nat, b: nat, width: nat, pad: bool)
    requires ParseFloat(lo) == Num(a) && ParseFloat(hi) == Num(b)
    requires Width(lo, hi) == width && (PaddingLength(lo) > 0) == pad
    ensures DecodeBounds(pre, lo, hi, suffix) == Span(pre, width, pad, Least(a, b), Max(a, b) + 1, suffix)
  {
    assert (if a > b then b else a) == Least(a, b) && (if a > b then a else b) == Max(a, b);
  }

  lemma CutRange(lo: string, hi: string)
    requires Digits(lo) && Digits(hi)
    ensures IndexOf(lo + "-" + hi, '-') >= 0 && Split(lo + "-" + hi, '-') == [lo, hi]
  {
    assert lo + "-" + hi == lo + ['-'] + hi;
    IndexOfFirst(lo, '-', hi);
    CutOnce(lo, '-', hi);
  }

  lemma SpanIsRange(names: seq<string>, pre: string, lo: string, hi: string, suffix: string)
    requires Digits(lo) && Digits(hi)
    requires |names| == Max(Value(lo), Value(hi)) + 1 - Least(Value(lo), Value(hi))
    requires forall k :: 0 <= k < |names| ==>
      names[k] == Entry(pre, Max(|lo|, |hi|), lo[0] == '0', Least(Value(lo), Value(hi)) + k, suffix)
    ensures IsRange(names, pre, lo, hi, suffix)
  {
    forall k | 0 <= k < |names| ensures NameOf(names[k], pre, lo, hi, Least(Value(lo), Value(hi)) + k, suffix) {
      EntryIsName(pre, lo, hi, Least(Value(lo), Value(hi)) + k, suffix);
    }
  }

  lemma BoundsDecode(pre: string, lo: string, hi: string, suffix: string)
    requires Digits(lo) && Digits(hi)
    ensures IsRange(DecodeBounds(pre, lo, hi, suffix), pre, lo, hi, suffix)
  {
    var a, b := Value(lo), Value(hi);
    ParseNumber(lo);
    ParseNumber(hi);
    WidthOfDigits(lo, hi);
    BoundsOf(pre, lo, hi, suffix, a, b, Max(|lo|, |hi|), lo[0] == '0');
    SpanIsRange(DecodeBounds(pre, lo, hi, suffix), pre, lo, hi, suffix);
  }

  lemma RangeDecodes(pre: string, lo: string, hi: string, suffix: string)
    requires Digits(lo) && Digits(hi)
    ensures IsRange(DecodeRange(pre, lo + "-" + hi, suffix), pre, lo, hi, suffix)
  {
    CutRange(lo, hi);
    BoundsDecode(pre, lo, hi, suffix);
  }

  lemma EntryIsName(pre: string, lo: string, hi: string, v: nat, suffix: string)
    requires Digits(lo) && Digits(hi) && v <= Max(Value(lo), Value(hi))
    ensures NameOf(Entry(pre, Max(|lo|, |hi|), lo[0] == '0', v, suffix), pre, lo, hi, v, suffix)
  {
    var name := Entry(pre, Max(|lo|, |hi|), lo[0] == '0', v, suffix);
    PaddedShows(lo, hi, v);
    assert name[|pre|..|name| - |suffix|] == if lo[0] == '0' then Padded(Max(|lo|, |hi|), v) else Numeral(v);
  }

  // Further bounds are ignored.
  lemma FurtherBoundsDoNotCount(pre: string, lo: string, hi: string, more: string, suffix: string)
    requires Digits(lo) && Digits(hi)
    ensures DecodeRange(pre, lo + "-" + hi + "-" + more, suffix) == DecodeRange(pre, lo + "-" + hi, suffix)
  {
    var token := lo + "-" + hi + "-" + more;
    assert token == lo + ['-'] + (hi + ['-'] + more);
    IndexOfFirst(lo, '-', hi + ['-'] + more);
    SplitAtFirst(lo, '-', hi + ['-'] + more);
    SplitAtFirst(hi, '-', more);
    CutRange(lo, hi);
  }

  // A single number stands for itself, without superfluous zeros.
  lemma NumberDecodes(pre: string, number: string, suffix: string)
    requires Digits(number)
    ensures DecodeRange(pre, number, suffix) == [pre + Numeral(Value(number)) + suffix]
  {
    ParseDigits(number);
  }

  // ----- a suffix behind a prefix -----

  predicate AllEndWith(names: seq<string>, c: char) {
    forall k :: 0 <= k < |names| ==> names[k] != "" && names[k][|names[k]| - 1] == c
  }

  lemma SpanEndsWith(pre: string, width: nat, pad: bool, lo: nat, until: nat, suffix: string)
    requires suffix != "" && lo <= until
    ensures AllEndWith(Span(pre, width, pad, lo, until, suffix), suffix[|suffix| - 1])
  {
    var names := Span(pre, width, pad, lo, until, suffix);
    forall k | 0 <= k < |names| ensures names[k] != "" && names[k][|names[k]| - 1] == suffix[|suffix| - 1] {
      EndOfConcat(pre + (if pad then Padded(width, lo + k) else Numeral(lo + k)), suffix);
    }
  }

  lemma EndOfConcat(a: string, b: string)
    requires b != ""
    ensures a + b != "" && (a + b)[|a + b| - 1] == b[|b| - 1]
  {
  }

  lemma RangeEndsWith(pre: string, token: string, suffix: string)
    requires suffix != ""
    ensures AllEndWith(DecodeRange(pre, token, suffix), suffix[|suffix| - 1])
  {
    if IndexOf(token, '-') >= 0 {
      SplitFindsTwo(token, '-');
      BoundsEndWith(pre, Split(token, '-')[0], Split(token, '-')[1], suffix);
    } else {
      EndOfConcat(pre + NumText(ParseFloat(token)), suffix);
    }
  }

  lemma BoundsEndWith(pre: string, first: string, second: string, suffix: string)
    requires suffix != ""
    ensures AllEndWith(DecodeBounds(pre, first, second, suffix), suffix[|suffix| - 1])
  {
    var a, b := ParseFloat(first), ParseFloat(second);
    if a.Num? && b.Num? {
      SpanEndsWith(pre, Width(first, second), PaddingLength(first) > 0, Least(a.n, b.n), Max(a.n, b.n) + 1, suffix);
    }
  }

  lemma EndBoth(a: seq<string>, b: seq<string>, c: char)
    requires AllEndWith(a, c) && AllEndWith(b, c)
    ensures AllEndWith(a + b, c)
  {
  }

  lemma {:induction false} TokensEndWith(pre: string, tokens: seq<string>, suffix: string)
    requires suffix != ""
    ensures AllEndWith(DecodeTokens(pre, tokens, suffix), suffix[|suffix| - 1])
  {
    if tokens != [] {
      RangeEndsWith(pre, tokens[0], suffix);
      TokensEndWith(pre, tokens[1..], suffix);
      EndBoth(DecodeRange(pre, tokens[0], suffix), DecodeTokens(pre, tokens[1..], suffix), suffix[|suffix| - 1]);
    }
  }

  lemma WrappedIsTight(s: string)
    requires TightCommas(s)
    ensures TightCommas("[" + s + "]")
  {
    var w := "[" + s + "]";
    LacksConcat("[", s, ';');
    LacksConcat("[" + s, "]", ';');
    assert forall k :: 0 <= k < |s| ==> w[k + 1] == s[k];
    forall k | 0 <= k < |w| && w[k] == ',' ensures 0 < k < |w| - 1 && IsDigit(w[k - 1]) && IsDigit(w[k + 1]) {
      assert s[k - 1] == ',';
    }
  }

  function WrappedText(p: Piece): string { "[" + Text(p) + "]" }

  lemma CutWrapped(p: Piece)
    requires Lacks(p.pre, '[') && Lacks(p.body, '[') && Lacks(p.suffix, '[')
    ensures Split(WrappedText(p), '[') == ["", p.pre, p.body + "]" + p.suffix + "]"]
  {
    var rest := p.body + "]" + p.suffix + "]";
    var inner := p.pre + ['['] + rest;
    assert WrappedText(p) == "" + ['['] + inner;
    SplitAtFirst("", '[', inner);
    LacksConcat(p.body, "]", '[');
    LacksConcat(p.body + "]", p.suffix, '[');
    LacksConcat(p.body + "]" + p.suffix, "]", '[');
    CutOnce(p.pre, '[', rest);
  }

  lemma BracesOfWrapped(p: Piece)
    requires Lacks(p.pre, ']') && Lacks(p.body, ']')
    ensures Braced(WrappedText(p)) && Suffix(WrappedText(p)) == p.suffix + "]"
  {
    var s, front := WrappedText(p), "[" + p.pre + "[" + p.body;
    assert s == "" + ['['] + (p.pre + "[" + p.body + "]" + p.suffix + "]");
    IndexOfFirst("", '[', p.pre + "[" + p.body + "]" + p.suffix + "]");
    LacksConcat("[", p.pre, ']');
    LacksConcat("[" + p.pre, "[", ']');
    LacksConcat("[" + p.pre + "[", p.body, ']');
    assert s == front + [']'] + (p.suffix + "]");
    IndexOfFirst(front, ']', p.suffix + "]");
  }

  lemma WrappedEntry(p: Piece)
    requires Sound(p)
    ensures DecodeEntry(WrappedText(p)) == DecodeTokens("", Split(p.pre, ','), p.suffix + "]")
  {
    CutWrapped(p);
    BracesOfWrapped(p);
    SplitWhole(p.pre, ']');
  }

  lemma OneEntryDecodes(s: string)
    requires TightCommas(s)
    ensures DecodeEntries(Split(Normalize(s), ';')) == DecodeEntry(s)
  {
    NormalizeKeepsTightText(s);
    SplitWhole(s, ';');
    assert DecodeEntries([s]) == DecodeEntry(s) + DecodeEntries([]);
  }

  lemma TextIsWrapped(p: Piece)
    requires Plain(p.pre) && Plain(p.suffix) && p.pre != "" && p.suffix != ""
    ensures Wrap(Text(p)) == WrappedText(p)
  {
    assert Text(p)[0] == p.pre[0] && Text(p)[|Text(p)| - 1] == p.suffix[|p.suffix| - 1];
  }

  // With text on both sides of the braces, the braces put around the whole are taken for those of
  // the entry: everything decoded ends in a brace.
  lemma WrappedDecodes(p: Piece)
    requires Sound(p) && p.pre != "" && p.suffix != ""
    ensures AllEndWith(Decoded(Text(p)), ']')
  {
    TextIsTight(p);
    WrappedIsTight(Text(p));
    OneEntryDecodes(WrappedText(p));
    TextIsWrapped(p);
    WrappedEntry(p);
    TokensEndWith("", Split(p.pre, ','), p.suffix + "]");
  }

  function RangePiece(pre: string, lo: string, hi: string, suffix: string): Piece { Piece(pre, lo + "-" + hi, suffix) }

  lemma RangeBody(lo: string, hi: string)
    requires Digits(lo) && Digits(hi)
    ensures BodyChars(lo + "-" + hi) && Lacks(lo + "-" + hi, ',')
  {
    var body := lo + "-" + hi;
    forall k | 0 <= k < |body| ensures IsDigit(body[k]) || body[k] == '-' {
      if k < |lo| { assert body[k] == lo[k]; } else if k > |lo| { assert body[k] == hi[k - |lo| - 1]; }
    }
    assert body[|body| - 1] == hi[|hi| - 1];
  }

  lemma RangePieceIsSound(pre: string, lo: string, hi: string, suffix: string)
    requires Digits(lo) && Digits(hi) && Plain(pre) && Plain(suffix)
    ensures Sound(RangePiece(pre, lo, hi, suffix)) && Lacks(lo + "-" + hi, ',')
  {
    RangeBody(lo, hi);
  }

  lemma OnePieceDecodes(p: Piece)
    requires Sound(p) && (p.pre == "" || p.suffix == "")
    ensures Decoded(Text(p)) == Meaning(p)
  {
    var s := Text(p);
    assert p.pre == "" ==> s[0] == '[';
    assert p.suffix == "" ==> s[|s| - 1] == ']';
    TextIsTight(p);
    OneEntryDecodes(s);
    EntryDecodes(p);
  }

  // pre[lo-hi]suffix stands for the names of its range exactly when one side of it is empty.
  lemma RangeTextDecodesIff(pre: string, lo: string, hi: string, suffix: string)
    requires Digits(lo) && Digits(hi) && Plain(pre) && Plain(suffix)
    ensures IsRange(Decoded(Text(RangePiece(pre, lo, hi, suffix))), pre, lo, hi, suffix) <==> pre == "" || suffix == ""
  {
    var p := RangePiece(pre, lo, hi, suffix);
    RangePieceIsSound(pre, lo, hi, suffix);
    if pre == "" || suffix == "" {
      OnePieceDecodes(p);
      SplitWhole(p.body, ',');
      OneToken(pre, p.body, suffix);
      RangeDecodes(pre, lo, hi, suffix);
    } else {
      WrappedDecodes(p);
      EndingIsWrong(Decoded(Text(p)), pre, lo, hi, suffix);
    }
  }

  lemma OneToken(pre: string, token: string, suffix: string)
    ensures DecodeTokens(pre, [token], suffix) == DecodeRange(pre, token, suffix)
  {
    assert [token][1..] == [];
  }

  lemma RangeEnds(names: seq<string>, pre: string, lo: string, hi: string, suffix: string)
    requires Digits(lo) && Digits(hi) && suffix != "" && IsRange(names, pre, lo, hi, suffix)
    ensures names != [] && names[0] != "" && names[0][|names[0]| - 1] == suffix[|suffix| - 1]
  {
    assert NameOf(names[0], pre, lo, hi, Least(Value(lo), Value(hi)), suffix);
  }

  lemma EndingIsWrong(names: seq<string>, pre: string, lo: string, hi: string, suffix: string)
    requires Digits(lo) && Digits(hi) && Plain(suffix) && suffix != "" && AllEndWith(names, ']')
    ensures !IsRange(names, pre, lo, hi, suffix)
  {
    if IsRange(names, pre, lo, hi, suffix) { RangeEnds(names, pre, lo, hi, suffix); }
  }

  // ----- names without braces -----

  // A name typed alone is taken for a token between braces ...
  lemma NameAloneIsToken(name: string)
    requires name != "" && Plain(name)
    ensures Decoded(name) == DecodeRange("", name, "")
  {
    var p := Piece("", name, "");
    assert Text(p) == "[" + name + "]" && Wrap(name) == Text(p);
    TextIsTight(p);
    OneEntryDecodes(Text(p));
    EntryDecodes(p);
    SplitWhole(name, ',');
    OneToken("", name, "");
  }

  // ... so it comes back exactly if it is a number without superfluous zeros, as far as there is
  // no minus in it.
  lemma NameAloneComesBackIff(name: string)
    requires name != "" && Plain(name) && Lacks(name, '-')
    ensures Decoded(name) == [name] <==> Canonical(name) || name == "NaN"
  {
    NameAloneIsToken(name);
    IndexOfLacking(name, '-');
    var e := RunEnd(name, 0);
    assert "" + NumText(ParseFloat(name)) + "" == NumText(ParseFloat(name));
    if e > 0 {
      NumeralValue(Value(name[..e]));
      if Canonical(name) {
        AllDigitsIsOneRun(name, 0);
        assert name[..e] == name;
        ValueNumeral(name);
      }
    }
  }

  lemma IndexOfLacking(s: string, c: char)
    requires Lacks(s, c)
    ensures IndexOf(s, c) == -1
  {
  }
}
