// Encoding a set of node names: group by prefix, sort the numbers, print maximal ranges.
module BraceEncode {
  import opened Decimal
  import opened BraceText

  // ----- names -----

  // Where the digits at the end of a name begin.
  function TailStart(s: string): (i: nat)
    ensures i <= |s| && AllDigits(s[i..]) && (i > 0 ==> !IsDigit(s[i - 1]))
  {
    if s == "" || !IsDigit(s[|s| - 1]) then |s|
    else
      var i := TailStart(s[..|s| - 1]);
      assert s[i..] == s[..|s| - 1][i..] + [s[|s| - 1]];
      i
  }

  function Prefix(name: string): string { name[..TailStart(name)] }

  function Number(name: string): (n: string)
    ensures AllDigits(n) && Prefix(name) + n == name
  {
    name[TailStart(name)..]
  }

  lemma {:induction false} TailStartOf(pre: string, digits: string)
    requires AllDigits(digits) && (pre == "" || !IsDigit(pre[|pre| - 1]))
    ensures TailStart(pre + digits) == |pre|
    ensures Prefix(pre + digits) == pre && Number(pre + digits) == digits
  {
    var s := pre + digits;
    if digits != "" {
      TailStartOf(pre, digits[..|digits| - 1]);
      assert s[..|s| - 1] == pre + digits[..|digits| - 1];
    } else {
      assert s == pre;
    }
  }

  // ----- groups -----

  datatype Group = Group(pre: string, numbers: seq<string>)

  predicate NoRepeats<T(==)>(xs: seq<T>) {
    forall i, j :: 0 <= i < j < |xs| ==> xs[i] != xs[j]
  }

  predicate DigitStrings(numbers: seq<string>) {
    forall k :: 0 <= k < |numbers| ==> numbers[k] != "" && AllDigits(numbers[k])
  }

  function Values(numbers: seq<string>): (r: seq<nat>)
    requires DigitStrings(numbers)
    ensures |r| == |numbers| && forall k :: 0 <= k < |r| ==> r[k] == Value(numbers[k])
  {
    seq(|numbers|, k requires 0 <= k < |numbers| => Value(numbers[k]))
  }

  predicate Sorted(keys: seq<nat>) {
    forall i, j :: 0 <= i < j < |keys| ==> keys[i] <= keys[j]
  }

  predicate Ascending(numbers: seq<string>)
    requires DigitStrings(numbers)
  {
    Sorted(Values(numbers))
  }

  predicate SortedGroup(g: Group) {
    g.numbers != [] && DigitStrings(g.numbers) && NoRepeats(g.numbers) && Ascending(g.numbers)
  }

  ghost predicate InGroups(groups: seq<Group>, pre: string, number: string) {
    exists k :: 0 <= k < |groups| && groups[k].pre == pre && number in groups[k].numbers
  }

  predicate DistinctPrefixes(groups: seq<Group>) {
    forall i, j :: 0 <= i < j < |groups| ==> groups[i].pre != groups[j].pre
  }

  // ----- printing -----

  predicate DigitRanges(rs: seq<Range>) {
    forall k :: 0 <= k < |rs| ==> DigitRange(rs[k])
  }

  // A number joins the last range if it follows that range's end.
  function ExtendRanges(rs: seq<Range>, x: string): (r: seq<Range>)
    requires DigitRanges(rs) && x != "" && AllDigits(x)
    ensures DigitRanges(r) && r != [] && r[|r| - 1].hi == x
    ensures r[0].lo == if rs == [] then x else rs[0].lo
  {
    if rs != [] && Value(rs[|rs| - 1].hi) + 1 == Value(x) then rs[..|rs| - 1] + [Range(rs[|rs| - 1].lo, x)]
    else rs + [Range(x, x)]
  }

  // The maximal runs of consecutive numbers, in the order given.
  function Ranges(numbers: seq<string>): (rs: seq<Range>)
    requires DigitStrings(numbers)
    ensures DigitRanges(rs)
    ensures rs == [] <==> numbers == []
    ensures numbers != [] ==> rs[|rs| - 1].hi == numbers[|numbers| - 1] && rs[0].lo == numbers[0]
  {
    if numbers == [] then [] else ExtendRanges(Ranges(numbers[..|numbers| - 1]), numbers[|numbers| - 1])
  }

  function Body(numbers: seq<string>): string
    requires numbers != [] && DigitStrings(numbers)
  {
    Join(RangeTexts(Ranges(numbers)), ',')
  }

  function Render(g: Group): string
    requires g.numbers != [] && DigitStrings(g.numbers)
  {
    if g.pre == "" then Body(g.numbers) else g.pre + "[" + Body(g.numbers) + "]"
  }

  // ----- what encoding promises -----

  // `out` renders `groups`, which hold exactly the numbered names of `data`, followed by the
  // names without a number.
  ghost predicate Encodes(data: seq<string>, groups: seq<Group>, plain: seq<string>, out: seq<string>) {
    && Grouped(data, groups, plain)
    && |out| == |groups| + |plain|
    && (forall k :: 0 <= k < |groups| ==> out[k] == Render(groups[k]))
    && out[|groups|..] == plain
  }

  // The order of the output: prefixes by their last name, latest first; then the names without a
  // number as they came.
  predicate InOrder(data: seq<string>, groups: seq<Group>, plain: seq<string>) {
    GroupPrefixes(groups) == LatestFirst(Prefixes(NodesOf(Unique(data)))) && plain == PlainOf(Unique(data))
  }

  ghost predicate IsEncoding(data: seq<string>, out: seq<string>) {
    exists groups, plain :: Encodes(data, groups, plain, out)
  }

  ghost predicate IsOrderedEncoding(data: seq<string>, out: seq<string>) {
    exists groups, plain :: Encodes(data, groups, plain, out) && InOrder(data, groups, plain)
  }

  // ----- the loops -----

  datatype NodeName = NodeName(preText: string, number: string)

  predicate ProperNode(n: NodeName) {
    n.number != "" && AllDigits(n.number) && Prefix(n.preText + n.number) == n.preText
  }

  function NodesOf(names: seq<string>): seq<NodeName> {
    if names == [] then []
    else
      var before, name := NodesOf(names[..|names| - 1]), names[|names| - 1];
      if Number(name) == "" then before else before + [NodeName(Prefix(name), Number(name))]
  }

  function PlainOf(names: seq<string>): seq<string> {
    if names == [] then []
    else
      var before, name := PlainOf(names[..|names| - 1]), names[|names| - 1];
      if Number(name) == "" then before + [name] else before
  }

  function Prefixes(nodes: seq<NodeName>): (r: seq<string>)
    ensures |r| == |nodes| && forall k :: 0 <= k < |r| ==> r[k] == nodes[k].preText
  {
    seq(|nodes|, k requires 0 <= k < |nodes| => nodes[k].preText)
  }

  function GroupPrefixes(groups: seq<Group>): (r: seq<string>)
    ensures |r| == |groups| && forall k :: 0 <= k < |r| ==> r[k] == groups[k].pre
  {
    seq(|groups|, k requires 0 <= k < |groups| => groups[k].pre)
  }

  // Each string once, those that occur last in front.
  function LatestFirst(xs: seq<string>): (r: seq<string>)
    ensures forall x :: x in r <==> x in xs
  {
    if xs == [] then []
    else
      var r := LatestFirst(xs[1..]);
      assert xs == [xs[0]] + xs[1..];
      if xs[0] in r then r else r + [xs[0]]
  }

  // The nodes with another prefix, in the same order.
  function Without(nodes: seq<NodeName>, pre: string): (r: seq<NodeName>)
    ensures forall n: NodeName :: n in r <==> n in nodes && n.preText != pre
  {
    if nodes == [] then []
    else
      assert nodes == [nodes[0]] + nodes[1..];
      if nodes[0].preText == pre then Without(nodes[1..], pre) else [nodes[0]] + Without(nodes[1..], pre)
  }

  lemma LatestCons(x: string, xs: seq<string>)
    ensures LatestFirst([x] + xs) == if x in LatestFirst(xs) then LatestFirst(xs) else LatestFirst(xs) + [x]
  {
    assert ([x] + xs)[1..] == xs;
  }

  lemma WithoutCons(x: NodeName, rest: seq<NodeName>, pre: string)
    ensures Without([x] + rest, pre)
         == if x.preText == pre then Without(rest, pre) else [x] + Without(rest, pre)
  {
    assert ([x] + rest)[1..] == rest;
  }

  lemma PrefixesCons(x: NodeName, rest: seq<NodeName>)
    ensures Prefixes([x] + rest) == [x.preText] + Prefixes(rest)
  {
  }

  // The prefix of the last node leads, followed by the order of the other nodes.
  lemma {:induction false} LastLeads(nodes: seq<NodeName>, pre: string)
    requires nodes != [] && nodes[|nodes| - 1].preText == pre
    ensures LatestFirst(Prefixes(nodes)) == [pre] + LatestFirst(Prefixes(Without(nodes, pre)))
  {
    var x, rest := nodes[0], nodes[1..];
    assert nodes == [x] + rest;
    WithoutCons(x, rest, pre);
    PrefixesCons(x, rest);
    LatestCons(x.preText, Prefixes(rest));
    if rest == [] {
      assert Without(rest, pre) == [] && Prefixes(rest) == [];
    } else {
      LastLeads(rest, pre);
      if x.preText != pre { LeadStep(x, rest, pre); }
    }
  }

  lemma LeadStep(x: NodeName, rest: seq<NodeName>, pre: string)
    requires x.preText != pre
    requires LatestFirst(Prefixes(rest)) == [pre] + LatestFirst(Prefixes(Without(rest, pre)))
    ensures LatestFirst([x.preText] + Prefixes(rest)) == [pre] + LatestFirst(Prefixes([x] + Without(rest, pre)))
  {
    var others := Without(rest, pre);
    PrefixesCons(x, others);
    LatestCons(x.preText, Prefixes(rest));
    LatestCons(x.preText, Prefixes(others));
    TailMember(pre, LatestFirst(Prefixes(others)), x.preText);
  }

  lemma TailMember(pre: string, tail: seq<string>, x: string)
    requires x != pre
    ensures x in [pre] + tail <==> x in tail
    ensures [pre] + tail + [x] == [pre] + (tail + [x])
  {
  }

  method SplitNames(names: seq<string>) returns (nodes: seq<NodeName>, plain: seq<string>)
    ensures nodes == NodesOf(names) && plain == PlainOf(names)
  {
    nodes, plain := [], [];
    for i := 0 to |names|
      invariant nodes == NodesOf(names[..i]) && plain == PlainOf(names[..i])
    {
      assert names[..i + 1][..i] == names[..i];
      var name := names[i];
      if Number(name) == "" {
        plain := plain + [name];
      } else {
        nodes := nodes + [NodeName(Prefix(name), Number(name))];
      }
    }
    assert names[..|names|] == names;
  }

  // What the two lists hold.
  lemma {:induction false} NodesHold(names: seq<string>)
    requires NoRepeats(names)
    ensures NoRepeats(NodesOf(names)) && forall k :: 0 <= k < |NodesOf(names)| ==> ProperNode(NodesOf(names)[k])
    ensures forall n: NodeName :: n in NodesOf(names) <==> ProperNode(n) && n.preText + n.number in names
  {
    if names != [] {
      var before, name := names[..|names| - 1], names[|names| - 1];
      assert names == before + [name];
      NodesHold(before);
      if Number(name) == "" {
        forall m: NodeName | ProperNode(m) ensures m.preText + m.number != name { ProperSplit(m); }
      } else {
        var n := NodeName(Prefix(name), Number(name));
        assert ProperNode(n) && n.preText + n.number == name;
        forall m: NodeName | ProperNode(m) && m.preText + m.number == name ensures m == n { ProperSplit(m); }
      }
    }
  }

  lemma {:induction false} PlainHolds(names: seq<string>)
    requires NoRepeats(names)
    ensures NoRepeats(PlainOf(names))
    ensures forall name :: name in PlainOf(names) <==> name in names && Number(name) == ""
  {
    if names != [] {
      assert names == names[..|names| - 1] + [names[|names| - 1]];
      PlainHolds(names[..|names| - 1]);
    }
  }

  lemma ProperSplit(n: NodeName)
    requires ProperNode(n)
    ensures Number(n.preText + n.number) == n.number
  {
    var name := n.preText + n.number;
    assert TailStart(name) == |n.preText|;
  }

  lemma {:induction false} WithoutIsShorter(nodes: seq<NodeName>, pre: string)
    requires NoRepeats(nodes)
    ensures NoRepeats(Without(nodes, pre)) && |Without(nodes, pre)| <= |nodes|
    ensures (exists n: NodeName :: n in nodes && n.preText == pre) ==> |Without(nodes, pre)| < |nodes|
  {
    if nodes != [] {
      WithoutIsShorter(nodes[1..], pre);
      assert nodes == [nodes[0]] + nodes[1..];
      assert nodes[0] !in nodes[1..];
    }
  }

  lemma WithoutOneMore(objects: seq<NodeName>, i: nat, pre: string)
    requires i < |objects|
    ensures Without(objects[i..], pre)
         == if objects[i].preText == pre then Without(objects[i + 1..], pre)
            else [objects[i]] + Without(objects[i + 1..], pre)
    ensures forall n: NodeName :: n in objects[i..] <==> n in objects[i + 1..] || n == objects[i]
  {
    assert objects[i..] == [objects[i]] + objects[i + 1..];
  }

  // The part of `rest` that was scanned is what stays of it.
  lemma SpliceStep(objects: seq<NodeName>, rest: seq<NodeName>, i: nat, kept: seq<NodeName>)
    requires i < |objects| && rest == objects[..i + 1] + kept
    ensures rest[i] == objects[i]
    ensures rest[..i] + rest[i + 1..] == objects[..i] + kept
    ensures rest == objects[..i] + ([objects[i]] + kept)
  {
  }

  predicate Collected(numbers: seq<string>, nodes: seq<NodeName>, pre: string) {
    NoRepeats(numbers) && numbers != []
    && (forall number :: number in numbers ==> NodeName(pre, number) in nodes)
    && forall n: NodeName :: n in nodes && n.preText == pre ==> n.number in numbers
  }

  lemma CollectOneMore(numbers: seq<string>, objects: seq<NodeName>, i: nat, pre: string)
    requires i < |objects| && NoRepeats(objects) && Collected(numbers, objects[i + 1..], pre)
    ensures objects[i].preText == pre ==> Collected(numbers + [objects[i].number], objects[i..], pre)
    ensures objects[i].preText != pre ==> Collected(numbers, objects[i..], pre)
  {
    var x := objects[i];
    assert objects[i..] == [x] + objects[i + 1..] && x !in objects[i + 1..];
    if x.preText == pre { assert x == NodeName(pre, x.number); }
  }

  // The scan is down to c: what is left of the objects, and the numbers found behind c.
  predicate Scanned(objects: seq<NodeName>, c: nat, pre: string, rest: seq<NodeName>, numbers: seq<string>) {
    c <= |objects| && rest == objects[..c] + Without(objects[c..], pre) && Collected(numbers, objects[c..], pre)
  }

  lemma ScanStep(objects: seq<NodeName>, c: nat, pre: string, rest: seq<NodeName>, numbers: seq<string>)
    requires NoRepeats(objects) && c < |objects| && Scanned(objects, c + 1, pre, rest, numbers)
    ensures c < |rest| && rest[c] == objects[c]
    ensures rest[c].preText == pre ==>
      Scanned(objects, c, pre, rest[..c] + rest[c + 1..], numbers + [rest[c].number])
    ensures rest[c].preText != pre ==> Scanned(objects, c, pre, rest, numbers)
  {
    WithoutOneMore(objects, c, pre);
    SpliceStep(objects, rest, c, Without(objects[c + 1..], pre));
    CollectOneMore(numbers, objects, c, pre);
  }

  lemma ScanStart(objects: seq<NodeName>)
    requires objects != []
    ensures var n, last := |objects| - 1, objects[|objects| - 1];
      Scanned(objects, n, last.preText, objects[..n], [last.number])
  {
    var n := |objects| - 1;
    WithoutOneMore(objects, n, objects[n].preText);
    assert objects[n + 1..] == [] && objects[n..] == [objects[n]];
    assert objects[..n] + [] == objects[..n];
  }

  lemma ScanEnds(objects: seq<NodeName>, pre: string, rest: seq<NodeName>, numbers: seq<string>)
    requires Scanned(objects, 0, pre, rest, numbers)
    ensures rest == Without(objects, pre) && Collected(numbers, objects, pre)
  {
    assert objects[0..] == objects;
  }

  // One turn of the scan.
  method SpliceOut(ghost objects: seq<NodeName>, i: nat, pre: string, objectsLeft: seq<NodeName>, found: seq<string>)
    returns (rest: seq<NodeName>, numbers: seq<string>)
    requires NoRepeats(objects) && i < |objects| && Scanned(objects, i + 1, pre, objectsLeft, found)
    ensures Scanned(objects, i, pre, rest, numbers)
  {
    ScanStep(objects, i, pre, objectsLeft, found);
    rest, numbers := objectsLeft, found;
    if rest[i].preText == pre {
      numbers := numbers + [rest[i].number];
      rest := rest[..i] + rest[i + 1..];
    }
  }

  // Takes every node with the prefix of the last one, scanning downwards and splicing it out.
  method TakeGroup(objects: seq<NodeName>) returns (rest: seq<NodeName>, g: Group)
    requires objects != [] && NoRepeats(objects)
    ensures g.pre == objects[|objects| - 1].preText && rest == Without(objects, g.pre)
    ensures Collected(g.numbers, objects, g.pre)
  {
    var last := objects[|objects| - 1];
    rest := objects[..|objects| - 1];
    var pre, numbers := last.preText, [last.number];
    var i := |rest| - 1;
    ScanStart(objects);
    while i >= 0
      invariant -1 <= i < |objects| - 1
      invariant Scanned(objects, i + 1, pre, rest, numbers)
      decreases i
    {
      rest, numbers := SpliceOut(objects, i, pre, rest, numbers);
      i := i - 1;
    }
    ScanEnds(objects, pre, rest, numbers);
    g := Group(pre, numbers);
  }

  // Array.sort with the numeric comparator, as insertion of one element after the other.
  method SortNumbers(numbers: seq<string>) returns (sorted: seq<string>)
    requires DigitStrings(numbers) && NoRepeats(numbers)
    ensures DigitStrings(sorted) && NoRepeats(sorted) && Ascending(sorted) && |sorted| == |numbers|
    ensures forall x :: x in sorted <==> x in numbers
  {
    sorted := [];
    for i := 0 to |numbers|
      invariant |sorted| == i && DigitStrings(sorted) && NoRepeats(sorted) && Ascending(sorted)
      invariant forall x :: x in sorted <==> x in numbers[..i]
    {
      sorted := InsertNumber(sorted, numbers[i]);
    }
    assert numbers[..|numbers|] == numbers;
  }

  lemma InsertAtMembers<T>(xs: seq<T>, x: T, at: nat)
    requires at <= |xs| && NoRepeats(xs) && x !in xs
    ensures NoRepeats(xs[..at] + [x] + xs[at..])
    ensures forall y :: y in xs[..at] + [x] + xs[at..] <==> y in xs || y == x
  {
    var front, back := xs[..at], xs[at..];
    assert xs == front + back;
  }

  lemma InsertKeepsSorted(keys: seq<nat>, x: nat, at: nat)
    requires at <= |keys| && Sorted(keys)
    requires (forall k :: at <= k < |keys| ==> keys[k] > x) && (at > 0 ==> keys[at - 1] <= x)
    ensures Sorted(keys[..at] + [x] + keys[at..])
  {
  }

  lemma ValuesOfInserted(xs: seq<string>, x: string, at: nat)
    requires x != "" && AllDigits(x) && at <= |xs| && DigitStrings(xs)
    ensures DigitStrings(xs[..at] + [x] + xs[at..])
    ensures Values(xs[..at] + [x] + xs[at..]) == Values(xs)[..at] + [Value(x)] + Values(xs)[at..]
  {
  }

  lemma InsertAtAscending(xs: seq<string>, x: string, at: nat)
    requires x != "" && AllDigits(x) && at <= |xs| && DigitStrings(xs) && Ascending(xs)
    requires (forall k :: at <= k < |xs| ==> Values(xs)[k] > Value(x)) && (at > 0 ==> Values(xs)[at - 1] <= Value(x))
    ensures DigitStrings(xs[..at] + [x] + xs[at..]) && Ascending(xs[..at] + [x] + xs[at..])
  {
    InsertKeepsSorted(Values(xs), Value(x), at);
    ValuesOfInserted(xs, x, at);
  }

  method InsertNumber(sorted: seq<string>, x: string) returns (r: seq<string>)
    requires x != "" && AllDigits(x) && x !in sorted
    requires DigitStrings(sorted) && NoRepeats(sorted) && Ascending(sorted)
    ensures DigitStrings(r) && NoRepeats(r) && Ascending(r) && |r| == |sorted| + 1
    ensures forall y :: y in r <==> y in sorted || y == x
  {
    var at := |sorted|;
    while at > 0 && Value(sorted[at - 1]) > Value(x)
      invariant 0 <= at <= |sorted|
      invariant forall k :: at <= k < |sorted| ==> Values(sorted)[k] > Value(x)
    {
      at := at - 1;
    }
    InsertAtMembers(sorted, x, at);
    InsertAtAscending(sorted, x, at);
    r := sorted[..at] + [x] + sorted[at..];
  }

  // ----- the printing loop -----

  // Ranges of one number are written with one number.
  predicate Grown(r: Range)
    requires DigitRange(r)
  {
    Value(r.lo) <= Value(r.hi) && (Value(r.lo) == Value(r.hi) ==> r.lo == r.hi)
  }

  predicate AllGrown(rs: seq<Range>)
    requires DigitRanges(rs)
  {
    forall k :: 0 <= k < |rs| ==> Grown(rs[k])
  }

  lemma GrownStep(rs: seq<Range>, x: string)
    requires DigitRanges(rs) && AllGrown(rs) && x != "" && AllDigits(x)
    ensures AllGrown(ExtendRanges(rs, x))
  {
    if rs != [] { assert Grown(rs[|rs| - 1]); }
  }

  lemma {:induction false} RangesGrow(numbers: seq<string>)
    requires DigitStrings(numbers)
    ensures AllGrown(Ranges(numbers))
  {
    if numbers != [] {
      RangesGrow(numbers[..|numbers| - 1]);
      GrownStep(Ranges(numbers[..|numbers| - 1]), numbers[|numbers| - 1]);
    }
  }

  // What the loop has written for these ranges: all but the end of the last one.
  function Open(rs: seq<Range>): string
    requires rs != [] && DigitRanges(rs)
  {
    Before(rs[..|rs| - 1]) + rs[|rs| - 1].lo
  }

  // Complete ranges, each followed by the delimiter.
  function Before(rs: seq<Range>): string
    requires DigitRanges(rs)
  {
    if rs == [] then "" else Join(RangeTexts(rs), ',') + ","
  }

  function Close(text: string, minus: bool, last: string): string {
    if minus then text + "-" + last else text
  }

  predicate Wide(r: Range)
    requires DigitRange(r)
  {
    Value(r.lo) != Value(r.hi)
  }

  lemma BeforeSnoc(rs: seq<Range>, r: Range)
    requires DigitRanges(rs) && DigitRange(r)
    ensures Before(rs) + RangeText(r) == Join(RangeTexts(rs + [r]), ',')
    ensures Before(rs + [r]) == Before(rs) + RangeText(r) + ","
  {
    assert RangeTexts(rs + [r]) == RangeTexts(rs) + [RangeText(r)];
    if rs != [] { JoinSnoc(RangeTexts(rs), ',', RangeText(r)); }
  }

  lemma Regroup(head: string, before: string, lo: string, hi: string)
    ensures head + (before + lo) + "-" + hi == head + (before + (lo + "-" + hi))
  {
  }

  lemma RegroupTail(head: string, joined: string, x: string)
    ensures head + (joined + "," + x) == head + joined + "," + x
  {
  }

  // Closing the last range completes the text.
  lemma OpenCloses(head: string, rs: seq<Range>)
    requires rs != [] && DigitRanges(rs) && Grown(rs[|rs| - 1])
    ensures var last := rs[|rs| - 1];
      Close(head + Open(rs), Wide(last), last.hi) == head + Join(RangeTexts(rs), ',')
  {
    var front, last := rs[..|rs| - 1], rs[|rs| - 1];
    assert front + [last] == rs;
    BeforeSnoc(front, last);
    Regroup(head, Before(front), last.lo, last.hi);
  }

  lemma OpenExtended(rs: seq<Range>, x: string)
    requires rs != [] && DigitRanges(rs) && x != "" && AllDigits(x)
    ensures Open(rs[..|rs| - 1] + [Range(rs[|rs| - 1].lo, x)]) == Open(rs)
  {
    var extended := rs[..|rs| - 1] + [Range(rs[|rs| - 1].lo, x)];
    assert extended[..|extended| - 1] == rs[..|rs| - 1];
  }

  lemma OpenAppended(head: string, rs: seq<Range>, x: string)
    requires rs != [] && DigitRanges(rs) && Grown(rs[|rs| - 1]) && x != "" && AllDigits(x)
    ensures var last := rs[|rs| - 1];
      head + Open(rs + [Range(x, x)]) == Close(head + Open(rs), Wide(last), last.hi) + "," + x
  {
    var appended := rs + [Range(x, x)];
    assert appended[..|appended| - 1] == rs;
    OpenCloses(head, rs);
    RegroupTail(head, Join(RangeTexts(rs), ','), x);
  }

  lemma RangesStep(numbers: seq<string>, i: nat)
    requires 0 < i < |numbers| && DigitStrings(numbers)
    ensures Ranges(numbers[..i + 1]) == ExtendRanges(Ranges(numbers[..i]), numbers[i])
  {
    assert numbers[..i + 1] == numbers[..i] + [numbers[i]];
    RangesSnoc(numbers[..i], numbers[i]);
  }

  lemma RangesSnoc(numbers: seq<string>, x: string)
    requires DigitStrings(numbers) && x != "" && AllDigits(x)
    ensures DigitStrings(numbers + [x]) && Ranges(numbers + [x]) == ExtendRanges(Ranges(numbers), x)
  {
    assert (numbers + [x])[..|numbers|] == numbers;
  }

  lemma RangesOfOne(numbers: seq<string>)
    requires numbers != [] && DigitStrings(numbers)
    ensures Ranges(numbers[..1]) == [Range(numbers[0], numbers[0])]
    ensures Open(Ranges(numbers[..1])) == numbers[0]
  {
    assert numbers[..1][..0] == [];
  }

  // What the loop has written, and whether a minus is owed, once the numbers so far form rs.
  predicate Written(head: string, rs: seq<Range>, text: string, minus: bool) {
    rs != [] && DigitRanges(rs) && text == head + Open(rs) && (minus <==> Wide(rs[|rs| - 1]))
  }

  // The state of the printing loop after the first i numbers.
  predicate Printing(head: string, numbers: seq<string>, i: nat, text: string, minus: bool) {
    0 < i <= |numbers| && DigitStrings(numbers) && Written(head, Ranges(numbers[..i]), text, minus)
  }

  lemma WrittenExtended(head: string, rs: seq<Range>, text: string, minus: bool, x: string)
    requires Written(head, rs, text, minus) && Grown(rs[|rs| - 1]) && x != "" && AllDigits(x)
    requires Value(rs[|rs| - 1].hi) + 1 == Value(x)
    ensures Written(head, ExtendRanges(rs, x), text, true)
  {
    OpenExtended(rs, x);
  }

  lemma LastIsNarrow(rs: seq<Range>, x: string)
    requires DigitRanges(rs) && x != "" && AllDigits(x)
    ensures DigitRanges(rs + [Range(x, x)]) && !Wide((rs + [Range(x, x)])[|rs|])
  {
  }

  lemma WrittenAppended(head: string, rs: seq<Range>, text: string, minus: bool, x: string)
    requires Written(head, rs, text, minus) && Grown(rs[|rs| - 1]) && x != "" && AllDigits(x)
    requires Value(rs[|rs| - 1].hi) + 1 != Value(x)
    ensures Written(head, ExtendRanges(rs, x), Close(text, minus, rs[|rs| - 1].hi) + "," + x, false)
  {
    OpenAppended(head, rs, x);
    LastIsNarrow(rs, x);
  }

  lemma PrintingStep(head: string, numbers: seq<string>, i: nat, text: string, minus: bool)
    requires i < |numbers| && Printing(head, numbers, i, text, minus)
    ensures Value(numbers[i - 1]) + 1 == Value(numbers[i]) ==> Printing(head, numbers, i + 1, text, true)
    ensures Value(numbers[i - 1]) + 1 != Value(numbers[i]) ==>
      Printing(head, numbers, i + 1, Close(text, minus, numbers[i - 1]) + "," + numbers[i], false)
  {
    var rs := Ranges(numbers[..i]);
    RangesStep(numbers, i);
    RangesGrow(numbers[..i]);
    if Value(numbers[i - 1]) + 1 == Value(numbers[i]) {
      WrittenExtended(head, rs, text, minus, numbers[i]);
    } else {
      WrittenAppended(head, rs, text, minus, numbers[i]);
    }
  }

  lemma PrintingEnds(head: string, numbers: seq<string>, text: string, minus: bool)
    requires Printing(head, numbers, |numbers|, text, minus)
    ensures Close(text, minus, numbers[|numbers| - 1]) == head + Body(numbers)
  {
    assert numbers[..|numbers|] == numbers;
    RangesGrow(numbers);
    OpenCloses(head, Ranges(numbers));
  }

  // The printing loop with its running lastNumber and minusNeeded.
  method PrintNumbers(head: string, numbers: seq<string>) returns (text: string)
    requires numbers != [] && DigitStrings(numbers)
    ensures text == head + Body(numbers)
  {
    text := head + numbers[0];
    var lastNumber, minusNeeded := numbers[0], false;
    RangesOfOne(numbers);
    for i := 1 to |numbers|
      invariant lastNumber == numbers[i - 1] && Printing(head, numbers, i, text, minusNeeded)
    {
      PrintingStep(head, numbers, i, text, minusNeeded);
      if Value(lastNumber) + 1 == Value(numbers[i]) {
        lastNumber := numbers[i];
        minusNeeded := true;
      } else {
        if minusNeeded { text := text + "-" + lastNumber; }
        text := text + "," + numbers[i];
        lastNumber := numbers[i];
        minusNeeded := false;
      }
    }
    PrintingEnds(head, numbers, text, minusNeeded);
    if minusNeeded { text := text + "-" + lastNumber; }
  }

  method RenderGroup(g: Group) returns (text: string)
    requires g.numbers != [] && DigitStrings(g.numbers)
    ensures text == Render(g)
  {
    if g.pre != "" {
      text := PrintNumbers(g.pre + "[", g.numbers);
      text := text + "]";
    } else {
      text := PrintNumbers("", g.numbers);
    }
  }

  ghost predicate ProperNodes(objects: seq<NodeName>) {
    NoRepeats(objects) && forall k :: 0 <= k < |objects| ==> ProperNode(objects[k])
  }

  // Sorted groups with different prefixes, none of which is left among the objects.
  ghost predicate Apart(found: seq<Group>, objects: seq<NodeName>) {
    (forall k :: 0 <= k < |found| ==> SortedGroup(found[k])) && DistinctPrefixes(found)
    && forall k, i :: 0 <= k < |found| && 0 <= i < |objects| ==> objects[i].preText != found[k].pre
  }

  ghost predicate Members(nodes: seq<NodeName>, objects: seq<NodeName>, found: seq<Group>) {
    forall pre, number ::
      NodeName(pre, number) in nodes <==> NodeName(pre, number) in objects || InGroups(found, pre, number)
  }

  // The nodes found so far and those still to group.
  ghost predicate Grouping(nodes: seq<NodeName>, objects: seq<NodeName>, found: seq<Group>) {
    ProperNodes(objects) && Apart(found, objects) && Members(nodes, objects, found)
  }

  lemma ProperStep(objects: seq<NodeName>, pre: string)
    requires ProperNodes(objects)
    ensures ProperNodes(Without(objects, pre))
  {
    var left := Without(objects, pre);
    WithoutIsShorter(objects, pre);
    forall k | 0 <= k < |left| ensures ProperNode(left[k]) {
      assert left[k] in left;
    }
  }

  lemma {:induction false} ApartStep(found: seq<Group>, objects: seq<NodeName>, g: Group)
    requires Apart(found, objects) && objects != [] && g.pre == objects[|objects| - 1].preText && SortedGroup(g)
    ensures Apart(found + [g], Without(objects, g.pre))
  {
    var left, more := Without(objects, g.pre), found + [g];
    forall k, i | 0 <= k < |more| && 0 <= i < |left| ensures left[i].preText != more[k].pre {
      assert left[i] in left;
      var j :| 0 <= j < |objects| && objects[j] == left[i];
    }
  }

  lemma MembersStep(nodes: seq<NodeName>, objects: seq<NodeName>, found: seq<Group>, g: Group)
    requires Members(nodes, objects, found)
    requires forall number :: number in g.numbers <==> NodeName(g.pre, number) in objects
    ensures Members(nodes, Without(objects, g.pre), found + [g])
  {
    GroupsGrow(found, g);
  }

  lemma GroupingStep(nodes: seq<NodeName>, objects: seq<NodeName>, found: seq<Group>, g: Group)
    requires Grouping(nodes, objects, found) && objects != [] && g.pre == objects[|objects| - 1].preText
    requires SortedGroup(g) && forall number :: number in g.numbers <==> NodeName(g.pre, number) in objects
    ensures Grouping(nodes, Without(objects, g.pre), found + [g])
  {
    ProperStep(objects, g.pre);
    ApartStep(found, objects, g);
    MembersStep(nodes, objects, found, g);
  }

  // One turn of the outer loop: the group of the last node, sorted.
  method NextGroup(objects: seq<NodeName>) returns (left: seq<NodeName>, group: Group)
    requires objects != [] && ProperNodes(objects)
    ensures group.pre == objects[|objects| - 1].preText && SortedGroup(group)
    ensures forall number :: number in group.numbers <==> NodeName(group.pre, number) in objects
    ensures left == Without(objects, group.pre)
  {
    var g;
    left, g := TakeGroup(objects);
    ProperNumbers(objects, g);
    var sorted := SortNumbers(g.numbers);
    group := Group(g.pre, sorted);
  }

  lemma LeavesFewer(objects: seq<NodeName>)
    requires objects != [] && ProperNodes(objects)
    ensures |Without(objects, objects[|objects| - 1].preText)| < |objects|
  {
    assert objects[|objects| - 1] in objects;
    WithoutIsShorter(objects, objects[|objects| - 1].preText);
  }

  method GroupNodes(nodes: seq<NodeName>) returns (found: seq<Group>)
    requires ProperNodes(nodes)
    ensures Grouping(nodes, [], found)
    ensures GroupPrefixes(found) == LatestFirst(Prefixes(nodes))
  {
    var objects := nodes;
    found := [];
    while objects != []
      invariant Grouping(nodes, objects, found)
      invariant GroupPrefixes(found) + LatestFirst(Prefixes(objects)) == LatestFirst(Prefixes(nodes))
      decreases |objects|
    {
      var left, g := NextGroup(objects);
      LeavesFewer(objects);
      GroupingStep(nodes, objects, found, g);
      OrderAfter(objects, found, g);
      found := found + [g];
      objects := left;
    }
  }

  lemma {:induction false} OrderAfter(objects: seq<NodeName>, found: seq<Group>, g: Group)
    requires objects != [] && g.pre == objects[|objects| - 1].preText
    ensures GroupPrefixes(found + [g]) + LatestFirst(Prefixes(Without(objects, g.pre)))
         == GroupPrefixes(found) + LatestFirst(Prefixes(objects))
  {
    LastLeads(objects, g.pre);
    assert GroupPrefixes(found + [g]) == GroupPrefixes(found) + [g.pre];
    OrderStep(GroupPrefixes(found), g.pre, LatestFirst(Prefixes(Without(objects, g.pre))));
  }

  lemma OrderStep(a: seq<string>, x: string, b: seq<string>)
    ensures a + ([x] + b) == (a + [x]) + b
  {
  }

  lemma ProperNumbers(objects: seq<NodeName>, g: Group)
    requires Collected(g.numbers, objects, g.pre) && forall k :: 0 <= k < |objects| ==> ProperNode(objects[k])
    ensures DigitStrings(g.numbers)
  {
    forall k | 0 <= k < |g.numbers| ensures g.numbers[k] != "" && AllDigits(g.numbers[k]) {
      assert g.numbers[k] in g.numbers;
      assert ProperNode(NodeName(g.pre, g.numbers[k]));
    }
  }

  ghost predicate Grouped(data: seq<string>, groups: seq<Group>, plain: seq<string>) {
    && DistinctPrefixes(groups)
    && (forall k :: 0 <= k < |groups| ==> SortedGroup(groups[k]))
    && (forall pre, number :: InGroups(groups, pre, number) <==>
          number != "" && AllDigits(number) && pre + number in data && Prefix(pre + number) == pre)
    && NoRepeats(plain)
    && (forall name :: name in plain <==> name in data && Number(name) == "")
  }

  method GroupNames(data: seq<string>) returns (groups: seq<Group>, plain: seq<string>)
    ensures Grouped(data, groups, plain) && InOrder(data, groups, plain)
  {
    var names := RemoveRepeats(data);
    var nodes, rest := SplitNames(names);
    NodesHold(names);
    PlainHolds(names);
    plain := rest;
    groups := GroupNodes(nodes);
    assert forall pre, number :: NodeName(pre, number) in nodes <==>
      ProperNode(NodeName(pre, number)) && pre + number in names;
  }

  predicate Renders(text: string, g: Group) {
    g.numbers != [] && DigitStrings(g.numbers) && text == Render(g)
  }

  lemma OneMoreText(out: seq<string>, groups: seq<Group>, text: string, k: nat)
    requires k < |groups| && |out| == k && Renders(text, groups[k])
    requires forall j :: 0 <= j < k ==> Renders(out[j], groups[j])
    ensures forall j :: 0 <= j < k + 1 ==> Renders((out + [text])[j], groups[j])
  {
    var all := out + [text];
    forall j | 0 <= j < k + 1 ensures Renders(all[j], groups[j]) {
      if j < k { assert all[j] == out[j]; }
    }
  }

  method RenderGroups(groups: seq<Group>) returns (out: seq<string>)
    requires forall k :: 0 <= k < |groups| ==> groups[k].numbers != [] && DigitStrings(groups[k].numbers)
    ensures |out| == |groups| && forall k :: 0 <= k < |groups| ==> Renders(out[k], groups[k])
  {
    out := [];
    for k := 0 to |groups|
      invariant |out| == k && forall j :: 0 <= j < k ==> Renders(out[j], groups[j])
    {
      var text := RenderGroup(groups[k]);
      OneMoreText(out, groups, text, k);
      out := out + [text];
    }
  }

  method EncodeBraceNotation(data: seq<string>) returns (out: seq<string>)
    ensures IsEncoding(data, out) && IsOrderedEncoding(data, out)
  {
    var groups, plain := GroupNames(data);
    assert forall k :: 0 <= k < |groups| ==> SortedGroup(groups[k]);
    var texts := RenderGroups(groups);
    out := texts + plain;
    assert out[|groups|..] == plain;
    assert forall k :: 0 <= k < |groups| ==> out[k] == texts[k];
    assert Encodes(data, groups, plain, out);
  }

  lemma GroupsGrow(groups: seq<Group>, g: Group)
    ensures forall pre, number :: InGroups(groups + [g], pre, number) <==>
      InGroups(groups, pre, number) || (pre == g.pre && number in g.numbers)
  {
    var all := groups + [g];
    forall pre, number
      ensures InGroups(all, pre, number) <==> InGroups(groups, pre, number) || (pre == g.pre && number in g.numbers)
    {
      if InGroups(groups, pre, number) {
        var k :| 0 <= k < |groups| && groups[k].pre == pre && number in groups[k].numbers;
        assert all[k] == groups[k];
      }
      if pre == g.pre && number in g.numbers { assert all[|groups|] == g; }
    }
  }
}
