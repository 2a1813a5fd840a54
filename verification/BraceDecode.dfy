// Decoding brace notation. Strings are cut at the separators, numbers are read as the leading
// decimal digits of a token, and a range counts up from its smaller to its larger bound.
module BraceDecode {
  import opened Decimal
  import opened SeparatorRewrite
  import opened BraceText
  import opened BraceOrder

  function NumText(x: Num): string {
    match x case NaN => "NaN" case Num(n) => Numeral(n)
  }

  // Number of zeros a string starts with.
  function PaddingLength(s: string): (n: nat)
    ensures n <= |s| && (forall k :: 0 <= k < n ==> s[k] == '0') && (n < |s| ==> s[n] != '0')
  {
    if s != "" && s[0] == '0' then 1 + PaddingLength(s[1..]) else 0
  }

  method GetPaddingLength(str: string) returns (padLen: nat)
    ensures padLen == PaddingLength(str)
  {
    padLen := 0;
    var rest := str;
    while rest != "" && rest[0] == '0'
      invariant padLen + PaddingLength(rest) == PaddingLength(str)
      decreases |rest|
    {
      rest := rest[1..];
      padLen := padLen + 1;
    }
  }

  function Max(a: nat, b: nat): nat { if a >= b then a else b }

  // The zeros in front of i. No number of the range is wider than `width`.
  function Padded(width: nat, i: nat): string {
    Zeros(if width >= |Numeral(i)| then width - |Numeral(i)| else 0) + Numeral(i)
  }

  function Entry(base: string, width: nat, pad: bool, i: nat, suffix: string): string {
    base + (if pad then Padded(width, i) else Numeral(i)) + suffix
  }

  // The numbers lo, lo + 1, ..., until - 1 as names.
  function Span(base: string, width: nat, pad: bool, lo: nat, until: nat, suffix: string): (r: seq<string>)
    requires lo <= until
    ensures |r| == until - lo && forall k :: 0 <= k < |r| ==> r[k] == Entry(base, width, pad, lo + k, suffix)
  {
    seq(until - lo, k requires k >= 0 => Entry(base, width, pad, lo + k, suffix))
  }

  // The digits before a decimal point, of the longer text.
  function Width(first: string, second: string): nat {
    Max(|Split(first, '.')[0]|, |Split(second, '.')[0]|)
  }

  // Two bounds in either order; the first one says whether to pad.
  function DecodeBounds(base: string, first: string, second: string, suffix: string): seq<string> {
    var a, b := ParseFloat(first), ParseFloat(second);
    if a.NaN? || b.NaN? then []
    else
      var lo, hi := if a.n > b.n then b.n else a.n, if a.n > b.n then a.n else b.n;
      Span(base, Width(first, second), PaddingLength(first) > 0, lo, hi + 1, suffix)
  }

  function DecodeRange(base: string, token: string, suffix: string): seq<string> {
    if IndexOf(token, '-') >= 0 then
      SplitFindsTwo(token, '-');
      DecodeBounds(base, Split(token, '-')[0], Split(token, '-')[1], suffix)
    else [base + NumText(ParseFloat(token)) + suffix]
  }

  function DecodeTokens(base: string, tokens: seq<string>, suffix: string): seq<string> {
    if tokens == [] then [] else DecodeRange(base, tokens[0], suffix) + DecodeTokens(base, tokens[1..], suffix)
  }

  function Suffix(entry: string): string {
    var close := IndexOf(entry, ']');
    if |entry| > close + 1 then entry[close + 1..] else ""
  }

  predicate Braced(entry: string) {
    var open, close := IndexOf(entry, '['), IndexOf(entry, ']');
    open != -1 && close != -1 && close > open
  }

  function DecodeEntry(entry: string): seq<string> {
    if Braced(entry) then
      SplitFindsTwo(entry, '[');
      var parts := Split(entry, '[');
      DecodeTokens(parts[0], Split(Split(parts[1], ']')[0], ','), Suffix(entry))
    else [entry]
  }

  function DecodeEntries(entries: seq<string>): seq<string> {
    if entries == [] then [] else DecodeEntry(entries[0]) + DecodeEntries(entries[1..])
  }

  function Wrap(input: string): string {
    if (input == "" || input[0] != '[') && (input == "" || input[|input| - 1] != ']') then "[" + input + "]"
    else input
  }

  // Everything a string stands for, before duplicates are removed.
  function Decoded(input: string): seq<string> {
    DecodeEntries(Split(Normalize(Wrap(input)), ';'))
  }

  // ----- the order -----

  // The names of one entry in the order they are listed in.
  function Listed(entry: string, sort: bool): seq<string> {
    if sort && Braced(entry) then SortByKey(DecodeEntry(entry), KeyBehind(|Split(entry, '[')[0]|))
    else DecodeEntry(entry)
  }

  function ListedAll(entries: seq<string>, sort: bool): seq<string> {
    if entries == [] then [] else Listed(entries[0], sort) + ListedAll(entries[1..], sort)
  }

  function Output(input: string, sort: bool): seq<string> {
    ListedAll(Split(Normalize(Wrap(input)), ';'), sort)
  }

  lemma {:induction false} ListingReorders(entries: seq<string>, sort: bool)
    ensures multiset(ListedAll(entries, sort)) == multiset(DecodeEntries(entries))
  {
    if entries != [] {
      ListingReorders(entries[1..], sort);
      SortByKeySorts(DecodeEntry(entries[0]), KeyBehind(|Split(entries[0], '[')[0]|));
    }
  }

  // Sorting changes the order and nothing else.
  lemma OutputHolds(input: string, sort: bool, name: string)
    ensures name in Output(input, sort) <==> name in Decoded(input)
  {
    ListingReorders(Split(Normalize(Wrap(input)), ';'), sort);
    assert name in Output(input, sort) <==> name in multiset(Output(input, sort));
    assert name in Decoded(input) <==> name in multiset(Decoded(input));
  }

  // ----- the loops -----

  lemma SpanSnoc(base: string, width: nat, pad: bool, lo: nat, until: nat, suffix: string)
    requires lo <= until
    ensures Span(base, width, pad, lo, until + 1, suffix)
         == Span(base, width, pad, lo, until, suffix) + [Entry(base, width, pad, until, suffix)]
  {
  }

  method CountUp(base: string, width: nat, padding: nat, start: nat, stop: nat, suffix: string)
    returns (r: seq<string>)
    requires start <= stop
    ensures r == Span(base, width, padding > 0, start, stop + 1, suffix)
  {
    r := [];
    for i := start to stop + 1
      invariant r == Span(base, width, padding > 0, start, i, suffix)
    {
      SpanSnoc(base, width, padding > 0, start, i, suffix);
      var name := base + (if padding > 0 then Padded(width, i) else Numeral(i)) + suffix;
      r := r + [name];
    }
  }

  method DecodeOneRange(base: string, token: string, suffix: string) returns (r: seq<string>)
    ensures r == DecodeRange(base, token, suffix)
  {
    if IndexOf(token, '-') >= 0 {
      SplitFindsTwo(token, '-');
      var parts := Split(token, '-');
      var a, b := ParseFloat(parts[0]), ParseFloat(parts[1]);
      if a.NaN? || b.NaN? { return []; }
      var start, stop := a.n, b.n;
      if start > stop { start, stop := stop, start; }
      var padding := GetPaddingLength(parts[0]);
      r := CountUp(base, Width(parts[0], parts[1]), padding, start, stop, suffix);
    } else {
      r := [base + NumText(ParseFloat(token)) + suffix];
    }
  }

  lemma OneMoreToken(base: string, tokens: seq<string>, suffix: string, k: nat, r: seq<string>)
    requires k < |tokens|
    ensures r + DecodeTokens(base, tokens[k..], suffix)
         == r + DecodeRange(base, tokens[k], suffix) + DecodeTokens(base, tokens[k + 1..], suffix)
  {
    assert tokens[k..][1..] == tokens[k + 1..];
    Associate(r, DecodeRange(base, tokens[k], suffix), DecodeTokens(base, tokens[k + 1..], suffix));
  }

  lemma Associate(a: seq<string>, b: seq<string>, c: seq<string>)
    ensures a + (b + c) == a + b + c
  {
  }

  method DecodeTokenList(base: string, tokens: seq<string>, suffix: string) returns (r: seq<string>)
    ensures r == DecodeTokens(base, tokens, suffix)
  {
    r := [];
    for k := 0 to |tokens|
      invariant r + DecodeTokens(base, tokens[k..], suffix) == DecodeTokens(base, tokens, suffix)
    {
      var names := DecodeOneRange(base, tokens[k], suffix);
      OneMoreToken(base, tokens, suffix, k, r);
      r := r + names;
    }
  }

  method DecodeOneEntry(entry: string, sort: bool) returns (r: seq<string>)
    ensures r == Listed(entry, sort)
  {
    if Braced(entry) {
      SplitFindsTwo(entry, '[');
      var parts := Split(entry, '[');
      r := DecodeTokenList(parts[0], Split(Split(parts[1], ']')[0], ','), Suffix(entry));
      if sort { r := SortByKey(r, KeyBehind(|parts[0]|)); }
    } else {
      r := [entry];
    }
  }

  method DecodeEntryList(entries: seq<string>, sort: bool) returns (r: seq<string>)
    ensures r == ListedAll(entries, sort)
  {
    r := [];
    var rest := entries;
    while rest != []
      invariant r + ListedAll(rest, sort) == ListedAll(entries, sort)
      decreases |rest|
    {
      var names := DecodeOneEntry(rest[0], sort);
      Associate(r, names, ListedAll(rest[1..], sort));
      r := r + names;
      rest := rest[1..];
    }
  }

  // The names a string stands for, each once, where it is listed first.
  method DecodeBraceNotation(input: string, sort: bool := true) returns (names: seq<string>)
    ensures names == Unique(Output(input, sort))
    ensures forall name :: name in names <==> name in Decoded(input)
  {
    var bracedList := Split(Normalize(Wrap(input)), ';');
    var result := DecodeEntryList(bracedList, sort);
    forall name ensures name in result <==> name in Decoded(input) { OutputHolds(input, sort, name); }
    names := RemoveRepeats(result);
  }
}
