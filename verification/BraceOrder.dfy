// The order in which the names of one entry are listed: by the number that follows the base.
module BraceOrder {
  import opened Decimal
  import opened SeparatorRewrite
  import opened BraceText

  datatype Num = NaN | Num(n: nat)

  function ParseFloat(s: string): Num {
    var e := RunEnd(s, 0);
    if e == 0 then NaN else Num(Value(s[..e]))
  }

  // ----- the number of a name -----

  // A character that does not convert to a number on its own; white space converts to zero.
  predicate NotNumeric(c: char) { !IsDigit(c) && !IsSpace(c) }

  // Where the text at the end of a string starts.
  function TextStart(s: string): (i: nat)
    ensures i <= |s| && (forall k :: i <= k < |s| ==> NotNumeric(s[k])) && (i > 0 ==> !NotNumeric(s[i - 1]))
  {
    if s != "" && NotNumeric(s[|s| - 1]) then TextStart(s[..|s| - 1]) else |s|
  }

  function SplitNumberPrefix(s: string): (parts: seq<string>)
    ensures parts != []
  {
    var i := TextStart(s);
    if 0 < i < |s| then [s[..i], s[i..]] else [s]
  }

  method SplitAtText(str: string) returns (parts: seq<string>)
    ensures parts == SplitNumberPrefix(str)
  {
    var lastIndex := 0;
    var index := |str| - 1;
    while index >= 0 && NotNumeric(str[index])
      invariant -1 <= index < |str| && TextStart(str[..index + 1]) == TextStart(str)
      invariant lastIndex == if index == |str| - 1 then 0 else index + 1
    {
      lastIndex := index;
      assert str[..index + 1][..index] == str[..index];
      index := index - 1;
    }
    if lastIndex > 0 { return [str[..lastIndex], str[lastIndex..]]; }
    return [str];
  }

  // Splitting off the base, past the end of a shorter name too.
  function AfterBase(name: string, baseLen: nat): string {
    if baseLen <= |name| then name[baseLen..] else ""
  }

  // The parts are joined by a comma when the array is read as a string.
  function Key(name: string, baseLen: nat): Num {
    ParseFloat(Join(SplitNumberPrefix(AfterBase(name, baseLen)), ','))
  }

  lemma {:induction false} RunEndIs(s: string, i: nat, e: nat)
    requires i <= e <= |s| && (forall k :: i <= k < e ==> IsDigit(s[k])) && (e < |s| ==> !IsDigit(s[e]))
    ensures RunEnd(s, i) == e
  {
  }

  lemma CommaEndsNumber(a: string, b: string)
    requires b != "" && !IsDigit(b[0])
    ensures ParseFloat(a + [','] + b) == ParseFloat(a + b)
  {
    var s, t := a + b, a + [','] + b;
    var e := RunEnd(s, 0);
    assert s[|a|] == b[0];
    assert e <= |a|;
    assert forall k :: 0 <= k < |a| ==> s[k] == a[k] == t[k];
    RunEndIs(t, 0, e);
    assert t[..e] == s[..e];
  }

  // Cutting off the text changes nothing: the names are compared by the number behind the base.
  lemma KeyIsNumberAfterBase(name: string, baseLen: nat)
    ensures Key(name, baseLen) == ParseFloat(AfterBase(name, baseLen))
  {
    var s := AfterBase(name, baseLen);
    var i := TextStart(s);
    if 0 < i < |s| {
      assert [s[..i], s[i..]][1..] == [s[i..]] && s[..i] + s[i..] == s;
      assert Join(SplitNumberPrefix(s), ',') == s[..i] + [','] + s[i..];
      CommaEndsNumber(s[..i], s[i..]);
    }
  }

  // The leading digits of a text are its number, whatever follows them.
  lemma LeadingDigitsParse(digits: string, rest: string)
    requires AllDigits(digits) && (rest != "" ==> !IsDigit(rest[0]))
    ensures ParseFloat(digits + rest) == if digits == "" then NaN else Num(Value(digits))
  {
    var s := digits + rest;
    assert forall k :: 0 <= k < |digits| ==> s[k] == digits[k];
    RunEndIs(s, 0, |digits|);
    assert s[..|digits|] == digits;
  }

  lemma KeyOfRest(base: string, rest: string)
    ensures Key(base + rest, |base|) == ParseFloat(rest)
  {
    KeyIsNumberAfterBase(base + rest, |base|);
    assert (base + rest)[|base|..] == rest;
  }

  // A name is compared by the digits behind the base, whatever its suffix.
  lemma KeyOfName(base: string, digits: string, suffix: string)
    requires AllDigits(digits) && (suffix != "" ==> !IsDigit(suffix[0]))
    ensures Key(base + (digits + suffix), |base|) == if digits == "" then NaN else Num(Value(digits))
  {
    KeyOfRest(base, digits + suffix);
    LeadingDigitsParse(digits, suffix);
  }

  function KeyBehind(baseLen: nat): string -> Num { name => Key(name, baseLen) }

  // ----- sorting -----

  // With NaN on either side the comparison finds no difference.
  predicate Greater(a: Num, b: Num) { a.Num? && b.Num? && a.n > b.n }

  function Insert(names: seq<string>, name: string, key: string -> Num): seq<string> {
    if names != [] && Greater(key(names[|names| - 1]), key(name))
    then Insert(names[..|names| - 1], name, key) + [names[|names| - 1]]
    else names + [name]
  }

  function SortByKey(names: seq<string>, key: string -> Num): seq<string> {
    if names == [] then []
    else Insert(SortByKey(names[..|names| - 1], key), names[|names| - 1], key)
  }

  predicate Numbered(names: seq<string>, key: string -> Num) {
    forall x :: x in names ==> key(x).Num?
  }

  predicate KeysAscend(names: seq<string>, key: string -> Num) {
    forall i, j :: 0 <= i < j < |names| && key(names[i]).Num? && key(names[j]).Num? ==>
      key(names[i]).n <= key(names[j]).n
  }

  function IfKey(x: string, n: nat, key: string -> Num): seq<string> {
    if key(x) == Num(n) then [x] else []
  }

  // The names with the number n, in the order in which they stand.
  function WithKey(names: seq<string>, n: nat, key: string -> Num): seq<string> {
    if names == [] then []
    else
      var last := names[|names| - 1];
      WithKey(names[..|names| - 1], n, key) + IfKey(last, n, key)
  }

  lemma WithKeySnoc(names: seq<string>, x: string, n: nat, key: string -> Num)
    ensures WithKey(names + [x], n, key) == WithKey(names, n, key) + IfKey(x, n, key)
  {
    assert (names + [x])[..|names|] == names;
  }

  lemma {:induction false} InsertKeepsNames(names: seq<string>, x: string, key: string -> Num)
    ensures multiset(Insert(names, x, key)) == multiset(names) + multiset{x}
    ensures forall y :: y in Insert(names, x, key) <==> y in names || y == x
  {
    if names != [] && Greater(key(names[|names| - 1]), key(x)) {
      assert names == names[..|names| - 1] + [names[|names| - 1]];
      InsertKeepsNames(names[..|names| - 1], x, key);
    }
  }

  lemma EmptySwaps(a: seq<string>, b: seq<string>, c: seq<string>)
    requires b == [] || c == []
    ensures a + b + c == a + c + b
  {
  }

  lemma {:induction false} InsertIsStable(names: seq<string>, x: string, key: string -> Num, n: nat)
    ensures WithKey(Insert(names, x, key), n, key) == WithKey(names, n, key) + IfKey(x, n, key)
  {
    if names != [] && Greater(key(names[|names| - 1]), key(x)) {
      var front, last := names[..|names| - 1], names[|names| - 1];
      InsertIsStable(front, x, key, n);
      WithKeySnoc(Insert(front, x, key), last, n, key);
      EmptySwaps(WithKey(front, n, key), IfKey(x, n, key), IfKey(last, n, key));
    } else {
      WithKeySnoc(names, x, n, key);
    }
  }

  lemma AscendSnoc(names: seq<string>, x: string, key: string -> Num)
    requires KeysAscend(names, key) && forall y :: y in names ==> !Greater(key(y), key(x))
    ensures KeysAscend(names + [x], key)
  {
  }

  lemma {:induction false} InsertAscends(names: seq<string>, x: string, key: string -> Num)
    requires Numbered(names, key) && key(x).Num? && KeysAscend(names, key)
    ensures KeysAscend(Insert(names, x, key), key)
  {
    if names != [] {
      var front, last := names[..|names| - 1], names[|names| - 1];
      assert names == front + [last];
      if Greater(key(last), key(x)) {
        InsertAscends(front, x, key);
        InsertKeepsNames(front, x, key);
        AscendSnoc(Insert(front, x, key), last, key);
      } else {
        AscendSnoc(names, x, key);
      }
    }
  }

  // Sorting keeps every name as often as it was, and lists the numbers in ascending order when
  // every name has one.
  lemma {:induction false} SortByKeySorts(names: seq<string>, key: string -> Num)
    ensures multiset(SortByKey(names, key)) == multiset(names)
    ensures Numbered(names, key) ==> KeysAscend(SortByKey(names, key), key)
  {
    if names != [] {
      var front, last := names[..|names| - 1], names[|names| - 1];
      assert names == front + [last];
      SortByKeySorts(front, key);
      var sorted := SortByKey(front, key);
      InsertKeepsNames(sorted, last, key);
      if Numbered(names, key) {
        forall x | x in sorted ensures key(x).Num? {
          assert x in multiset(sorted);
        }
        InsertAscends(sorted, last, key);
      }
    }
  }

  // Names with equal numbers keep their order.
  lemma {:induction false} SortByKeyIsStable(names: seq<string>, key: string -> Num, n: nat)
    ensures WithKey(SortByKey(names, key), n, key) == WithKey(names, n, key)
  {
    if names != [] {
      var front, last := names[..|names| - 1], names[|names| - 1];
      assert names == front + [last];
      SortByKeyIsStable(front, key, n);
      InsertIsStable(SortByKey(front, key), last, key, n);
    }
  }

  lemma {:induction false} SortedStays(names: seq<string>, key: string -> Num)
    requires KeysAscend(names, key)
    ensures SortByKey(names, key) == names
  {
    if names != [] {
      var front, last := names[..|names| - 1], names[|names| - 1];
      assert names == front + [last];
      SortedStays(front, key);
    }
  }
}
