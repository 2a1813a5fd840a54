// The jobs of a benchmark: every variant with every assignment of the variables, repeated.
module JobPermutations {

  datatype Variable = Variable(key: string, selected: seq<string>)

  type Assignment = map<string, string>

  predicate Usable(v: Variable) { v.key != "" && v.selected != [] }

  // ----- the cartesian product in the order of itertools -----

  // Each element of xs in front of every tail, the tails running fastest.
  function Prepend<T>(xs: seq<T>, tails: seq<seq<T>>): (r: seq<seq<T>>)
    ensures |r| == |xs| * |tails|
  {
    if xs == [] then []
    else
      assert |xs| * |tails| == |tails| + (|xs| - 1) * |tails|;
      seq(|tails|, j requires 0 <= j < |tails| => [xs[0]] + tails[j]) + Prepend(xs[1..], tails)
  }

  function Product<T>(lists: seq<seq<T>>): seq<seq<T>> {
    if lists == [] then [[]] else Prepend(lists[0], Product(lists[1..]))
  }

  lemma {:induction false} PrependAt<T>(xs: seq<T>, tails: seq<seq<T>>, i: nat, j: nat)
    requires i < |xs| && j < |tails|
    ensures 0 <= i * |tails| + j < |xs| * |tails|
    ensures Prepend(xs, tails)[i * |tails| + j] == [xs[i]] + tails[j]
  {
    RankInBounds(i, j, |xs|, |tails|);
    if i > 0 {
      RankInBounds(i - 1, j, |xs| - 1, |tails|);
      PrependAt(xs[1..], tails, i - 1, j);
      assert i * |tails| + j == |tails| + ((i - 1) * |tails| + j);
    }
  }

  lemma MulMonotone(a: nat, b: nat, m: nat)
    requires a <= b
    ensures a * m <= b * m
  {
    assert (b - a) * m >= 0;
    assert b * m == a * m + (b - a) * m;
  }

  lemma BlockBelow(a: nat, b: nat, r: nat, m: nat)
    requires a < b && r < m
    ensures a * m + r < b * m
  {
    MulMonotone(a + 1, b, m);
    assert (a + 1) * m == a * m + m;
  }

  lemma RankInBounds(i: nat, j: nat, n: nat, m: nat)
    requires i < n && j < m
    ensures 0 <= i * m + j < n * m
  {
    BlockBelow(i, n, j, m);
  }

  // The choices of one list after the other, as positions.
  predicate Digits<T>(lists: seq<seq<T>>, ds: seq<nat>) {
    |ds| == |lists| && forall i :: 0 <= i < |ds| ==> ds[i] < |lists[i]|
  }

  // Mixed-radix value of the positions, the first one most significant.
  function Rank<T>(lists: seq<seq<T>>, ds: seq<nat>): nat
    requires Digits(lists, ds)
  {
    if lists == [] then 0 else ds[0] * |Product(lists[1..])| + Rank(lists[1..], ds[1..])
  }

  function Pick<T>(lists: seq<seq<T>>, ds: seq<nat>): seq<T>
    requires Digits(lists, ds)
  {
    seq(|lists|, i requires 0 <= i < |lists| => lists[i][ds[i]])
  }

  // A choice stands at its mixed-radix rank.
  lemma {:induction false} ChoiceAtRank<T>(lists: seq<seq<T>>, ds: seq<nat>)
    requires Digits(lists, ds)
    ensures Rank(lists, ds) < |Product(lists)| && Product(lists)[Rank(lists, ds)] == Pick(lists, ds)
  {
    if lists != [] {
      ChoiceAtRank(lists[1..], ds[1..]);
      PrependAt(lists[0], Product(lists[1..]), ds[0], Rank(lists[1..], ds[1..]));
      assert Pick(lists, ds) == [lists[0][ds[0]]] + Pick(lists[1..], ds[1..]);
    }
  }

  // And every position of the product is the rank of exactly one choice.
  lemma {:induction false} RankIsOnto<T>(lists: seq<seq<T>>, r: nat) returns (ds: seq<nat>)
    requires r < |Product(lists)|
    ensures Digits(lists, ds) && Rank(lists, ds) == r
  {
    if lists == [] {
      ds := [];
    } else {
      var first, m := QuotientAndRest(r, |lists[0]|, |Product(lists[1..])|);
      var rest := RankIsOnto(lists[1..], m);
      ds := [first] + rest;
      DigitsCons(lists, first, rest);
      assert ds[1..] == rest;
    }
  }

  lemma DigitsCons<T>(lists: seq<seq<T>>, first: nat, rest: seq<nat>)
    requires lists != [] && first < |lists[0]| && Digits(lists[1..], rest)
    ensures Digits(lists, [first] + rest)
  {
    var ds := [first] + rest;
    forall i | 0 <= i < |ds| ensures ds[i] < |lists[i]| {
      if i > 0 { assert ds[i] == rest[i - 1] && lists[i] == lists[1..][i - 1]; }
    }
  }

  lemma QuotientAndRest(r: nat, n: nat, m: nat) returns (q: nat, rest: nat)
    requires r < n * m
    ensures q < n && rest < m && q * m + rest == r
  {
    assert m != 0;
    q, rest := r / m, r % m;
    if n <= q { MulMonotone(n, q, m); }
  }

  lemma {:induction false} RankIsInjective<T>(lists: seq<seq<T>>, ds: seq<nat>, es: seq<nat>)
    requires Digits(lists, ds) && Digits(lists, es) && Rank(lists, ds) == Rank(lists, es)
    ensures ds == es
  {
    if lists != [] {
      var m := |Product(lists[1..])|;
      ChoiceAtRank(lists[1..], ds[1..]);
      ChoiceAtRank(lists[1..], es[1..]);
      SameQuotient(ds[0], es[0], Rank(lists[1..], ds[1..]), Rank(lists[1..], es[1..]), m);
      RankIsInjective(lists[1..], ds[1..], es[1..]);
      assert ds == [ds[0]] + ds[1..] && es == [es[0]] + es[1..];
    }
  }

  lemma SameQuotient(a: nat, b: nat, r: nat, s: nat, m: nat)
    requires r < m && s < m && a * m + r == b * m + s
    ensures a == b && r == s
  {
    if a < b {
      BlockBelow(a, b, r, m);
    } else if b < a {
      BlockBelow(b, a, s, m);
    }
  }

  // ----- variables -----

  function Singles(variables: seq<Variable>): Assignment {
    if variables == [] then map[]
    else
      var before, v := Singles(variables[..|variables| - 1]), variables[|variables| - 1];
      if Usable(v) && |v.selected| == 1 then before[v.key := v.selected[0]] else before
  }

  function Multis(variables: seq<Variable>): (r: seq<Variable>)
    ensures forall v :: v in r <==> v in variables && v.key != "" && |v.selected| >= 2
  {
    if variables == [] then []
    else
      var before, v := Multis(variables[..|variables| - 1]), variables[|variables| - 1];
      assert variables == variables[..|variables| - 1] + [v];
      if Usable(v) && |v.selected| != 1 then before + [v] else before
  }

  function Pairs(v: Variable): (r: seq<(string, string)>)
    ensures |r| == |v.selected| && forall i :: 0 <= i < |r| ==> r[i] == (v.key, v.selected[i])
  {
    seq(|v.selected|, i requires 0 <= i < |v.selected| => (v.key, v.selected[i]))
  }

  function PairLists(vs: seq<Variable>): (r: seq<seq<(string, string)>>)
    ensures |r| == |vs| && forall i :: 0 <= i < |r| ==> r[i] == Pairs(vs[i])
  {
    seq(|vs|, i requires 0 <= i < |vs| => Pairs(vs[i]))
  }

  function Dict(pairs: seq<(string, string)>): Assignment {
    if pairs == [] then map[]
    else Dict(pairs[..|pairs| - 1])[pairs[|pairs| - 1].0 := pairs[|pairs| - 1].1]
  }

  function VariablePermutations(variables: seq<Variable>): (r: seq<Assignment>) {
    var choices := Product(PairLists(Multis(variables)));
    seq(|choices|, i requires 0 <= i < |choices| => Singles(variables) + Dict(choices[i]))
  }

  method GenerateVariablePermutations(variables: seq<Variable>) returns (permutations: seq<Assignment>)
    ensures permutations == VariablePermutations(variables)
  {
    var singleValue, multiValue := SplitVariables(variables);
    permutations := MergeChoices(singleValue, Product(multiValue));
  }

  // The first loop: variables with one value, and the value pairs of the others.
  method SplitVariables(variables: seq<Variable>)
    returns (singleValue: Assignment, multiValue: seq<seq<(string, string)>>)
    ensures singleValue == Singles(variables) && multiValue == PairLists(Multis(variables))
  {
    singleValue, multiValue := map[], [];
    for i := 0 to |variables|
      invariant singleValue == Singles(variables[..i])
      invariant multiValue == PairLists(Multis(variables[..i]))
    {
      assert variables[..i + 1][..i] == variables[..i];
      var v := variables[i];
      if v.key == "" || v.selected == [] { continue; }
      if |v.selected| == 1 {
        singleValue := singleValue[v.key := v.selected[0]];
      } else {
        PairListsSnoc(Multis(variables[..i]), v);
        multiValue := multiValue + [Pairs(v)];
      }
    }
    assert variables[..|variables|] == variables;
  }

  lemma PairListsSnoc(vs: seq<Variable>, v: Variable)
    ensures PairLists(vs + [v]) == PairLists(vs) + [Pairs(v)]
  {
  }

  // The second loop: each choice merged with the single values.
  method MergeChoices(singleValue: Assignment, choices: seq<seq<(string, string)>>)
    returns (permutations: seq<Assignment>)
    ensures |permutations| == |choices|
    ensures forall i :: 0 <= i < |choices| ==> permutations[i] == singleValue + Dict(choices[i])
  {
    permutations := [];
    for i := 0 to |choices|
      invariant |permutations| == i
      invariant forall j :: 0 <= j < i ==> permutations[j] == singleValue + Dict(choices[j])
    {
      permutations := permutations + [singleValue + Dict(choices[i])];
    }
  }

  // ----- every assignment exactly once -----

  predicate DistinctKeys(vs: seq<Variable>) {
    forall i, j :: 0 <= i < j < |vs| && Usable(vs[i]) && Usable(vs[j]) ==> vs[i].key != vs[j].key
  }

  predicate NoRepeats<T(==)>(xs: seq<T>) {
    forall i, j :: 0 <= i < j < |xs| ==> xs[i] != xs[j]
  }

  predicate DistinctValues(vs: seq<Variable>) {
    forall i :: 0 <= i < |vs| ==> NoRepeats(vs[i].selected)
  }

  // Gives every usable variable one of its selected values, and nothing else a value.
  predicate Assigns(a: Assignment, variables: seq<Variable>) {
    (forall i :: 0 <= i < |variables| && variables[i].key != "" && variables[i].selected != [] ==>
       variables[i].key in a && a[variables[i].key] in variables[i].selected)
    && forall k :: k in a ==>
         k != "" && exists i :: 0 <= i < |variables| && variables[i].selected != [] && variables[i].key == k
  }

  predicate IsSingle(v: Variable) { Usable(v) && |v.selected| == 1 }

  lemma {:induction false} SinglesAre(variables: seq<Variable>)
    requires DistinctKeys(variables)
    ensures forall i :: 0 <= i < |variables| && IsSingle(variables[i]) ==>
      variables[i].key in Singles(variables) && Singles(variables)[variables[i].key] == variables[i].selected[0]
    ensures forall k :: k in Singles(variables) ==>
      exists i :: 0 <= i < |variables| && IsSingle(variables[i]) && variables[i].key == k
  {
    if variables != [] {
      var before, v := variables[..|variables| - 1], variables[|variables| - 1];
      SinglesAre(before);
      forall k | k in Singles(variables)
        ensures exists i :: 0 <= i < |variables| && IsSingle(variables[i]) && variables[i].key == k
      {
        if k in Singles(before) {
          var i :| 0 <= i < |before| && IsSingle(before[i]) && before[i].key == k;
          assert variables[i] == before[i];
        } else {
          assert variables[|variables| - 1].key == k;
        }
      }
      forall i | 0 <= i < |variables| && IsSingle(variables[i])
        ensures variables[i].key in Singles(variables)
          && Singles(variables)[variables[i].key] == variables[i].selected[0]
      {
        if i < |before| { assert before[i] == variables[i]; }
      }
    }
  }

  lemma {:induction false} MultisKeepDistinct(variables: seq<Variable>)
    requires DistinctKeys(variables)
    ensures forall i, j :: 0 <= i < j < |Multis(variables)| ==> Multis(variables)[i].key != Multis(variables)[j].key
  {
    if variables != [] {
      var before, v := variables[..|variables| - 1], variables[|variables| - 1];
      MultisKeepDistinct(before);
      forall w | w in Multis(before) && Usable(v) ensures w.key != v.key {
        var i :| 0 <= i < |before| && before[i] == w;
        assert variables[i] == w;
      }
    }
  }

  lemma {:induction false} DictLookup(pairs: seq<(string, string)>)
    requires forall i, j :: 0 <= i < j < |pairs| ==> pairs[i].0 != pairs[j].0
    ensures forall i :: 0 <= i < |pairs| ==> pairs[i].0 in Dict(pairs) && Dict(pairs)[pairs[i].0] == pairs[i].1
    ensures forall k :: k in Dict(pairs) ==> exists i :: 0 <= i < |pairs| && pairs[i].0 == k
  {
    if pairs != [] {
      var n := |pairs| - 1;
      DictLookup(pairs[..n]);
      forall k | k in Dict(pairs) ensures exists i :: 0 <= i < |pairs| && pairs[i].0 == k {
        if k in Dict(pairs[..n]) {
          var i :| 0 <= i < n && pairs[..n][i].0 == k;
          assert pairs[i].0 == k;
        } else {
          assert pairs[n].0 == k;
        }
      }
      forall i | 0 <= i < |pairs| ensures pairs[i].0 in Dict(pairs) && Dict(pairs)[pairs[i].0] == pairs[i].1 {
        if i < n { assert pairs[..n][i] == pairs[i]; }
      }
    }
  }

  // The dictionary of one choice per variable.
  lemma DictOfChoice(vs: seq<Variable>, ds: seq<nat>)
    requires Digits(PairLists(vs), ds) && forall i, j :: 0 <= i < j < |vs| ==> vs[i].key != vs[j].key
    ensures var d := Dict(Pick(PairLists(vs), ds));
      (forall i :: 0 <= i < |vs| ==> vs[i].key in d && d[vs[i].key] == vs[i].selected[ds[i]])
      && forall k :: k in d ==> exists i :: 0 <= i < |vs| && vs[i].key == k
  {
    var pick := Pick(PairLists(vs), ds);
    assert forall i :: 0 <= i < |vs| ==> pick[i] == (vs[i].key, vs[i].selected[ds[i]]);
    DictLookup(pick);
    var d := Dict(pick);
    forall k | k in d ensures exists i :: 0 <= i < |vs| && vs[i].key == k {
      var i :| 0 <= i < |pick| && pick[i].0 == k;
      assert vs[i].key == k;
    }
    forall i | 0 <= i < |vs| ensures vs[i].key in d && d[vs[i].key] == vs[i].selected[ds[i]] {
      assert pick[i].0 in d;
    }
  }

  function ChosenAssignment(variables: seq<Variable>, ds: seq<nat>): Assignment
    requires Digits(PairLists(Multis(variables)), ds)
  {
    Singles(variables) + Dict(Pick(PairLists(Multis(variables)), ds))
  }

  lemma ChosenMultis(variables: seq<Variable>, ds: seq<nat>)
    requires DistinctKeys(variables) && Digits(PairLists(Multis(variables)), ds)
    ensures var multis, a := Multis(variables), ChosenAssignment(variables, ds);
      forall i :: 0 <= i < |multis| ==> multis[i].key in a && a[multis[i].key] == multis[i].selected[ds[i]]
  {
    MultisKeepDistinct(variables);
    DictOfChoice(Multis(variables), ds);
  }

  lemma ChosenKeys(variables: seq<Variable>, ds: seq<nat>, k: string)
    requires DistinctKeys(variables) && Digits(PairLists(Multis(variables)), ds)
    requires k in ChosenAssignment(variables, ds)
    ensures exists i :: 0 <= i < |variables| && Usable(variables[i]) && variables[i].key == k
  {
    var multis := Multis(variables);
    MultisKeepDistinct(variables);
    DictOfChoice(multis, ds);
    if k in Dict(Pick(PairLists(multis), ds)) {
      var m :| 0 <= m < |multis| && multis[m].key == k;
      assert multis[m] in multis;
      var i :| 0 <= i < |variables| && variables[i] == multis[m];
      assert Usable(variables[i]);
    } else {
      SinglesAre(variables);
    }
  }

  lemma MultiIndex(variables: seq<Variable>, i: nat) returns (m: nat)
    requires i < |variables| && variables[i].key != "" && |variables[i].selected| >= 2
    ensures m < |Multis(variables)| && Multis(variables)[m] == variables[i]
  {
    assert variables[i] in Multis(variables);
    m :| 0 <= m < |Multis(variables)| && Multis(variables)[m] == variables[i];
  }

  // No variable with a choice hides a variable without one.
  lemma SingleIsNotChosen(variables: seq<Variable>, ds: seq<nat>, i: nat)
    requires DistinctKeys(variables) && Digits(PairLists(Multis(variables)), ds)
    requires i < |variables| && IsSingle(variables[i])
    ensures variables[i].key !in Dict(Pick(PairLists(Multis(variables)), ds))
  {
    var multis := Multis(variables);
    MultisKeepDistinct(variables);
    DictOfChoice(multis, ds);
    if variables[i].key in Dict(Pick(PairLists(multis), ds)) {
      var k :| 0 <= k < |multis| && multis[k].key == variables[i].key;
      MultiIsOther(variables, i, multis[k]);
    }
  }

  lemma ChosenValue(variables: seq<Variable>, ds: seq<nat>, i: nat)
    requires DistinctKeys(variables) && Digits(PairLists(Multis(variables)), ds)
    requires i < |variables| && Usable(variables[i])
    ensures var v, a := variables[i], ChosenAssignment(variables, ds);
      v.key in a && a[v.key] in v.selected
  {
    if |variables[i].selected| == 1 {
      SingleIsNotChosen(variables, ds, i);
      SinglesAre(variables);
    } else {
      var m := MultiIndex(variables, i);
      ChosenMultis(variables, ds);
    }
  }

  // The assignment a choice stands for.
  lemma AssignmentOfChoice(variables: seq<Variable>, ds: seq<nat>)
    requires DistinctKeys(variables) && Digits(PairLists(Multis(variables)), ds)
    ensures Assigns(ChosenAssignment(variables, ds), variables)
  {
    var a := ChosenAssignment(variables, ds);
    forall i | 0 <= i < |variables| && Usable(variables[i])
      ensures variables[i].key in a && a[variables[i].key] in variables[i].selected
    {
      ChosenValue(variables, ds, i);
    }
    forall k | k in a ensures exists i :: 0 <= i < |variables| && Usable(variables[i]) && variables[i].key == k {
      ChosenKeys(variables, ds, k);
    }
  }

  lemma MultiIsOther(variables: seq<Variable>, i: nat, m: Variable)
    requires DistinctKeys(variables) && i < |variables| && Usable(variables[i]) && m in Multis(variables)
    requires |variables[i].selected| == 1
    ensures m.key != variables[i].key
  {
    var j :| 0 <= j < |variables| && variables[j] == m;
    assert Usable(variables[j]);
  }

  function PositionOf(xs: seq<string>, x: string): (i: nat)
    requires x in xs
    ensures i < |xs| && xs[i] == x
  {
    if xs[0] == x then 0 else PositionOf(xs[1..], x) + 1
  }

  // An assignment is the one its own choice stands for.
  lemma ChosenIsAssignment(variables: seq<Variable>, a: Assignment, ds: seq<nat>)
    requires DistinctKeys(variables) && Assigns(a, variables)
    requires Digits(PairLists(Multis(variables)), ds)
    requires var multis := Multis(variables);
      forall i :: 0 <= i < |multis| ==> multis[i].key in a && a[multis[i].key] == multis[i].selected[ds[i]]
    ensures ChosenAssignment(variables, ds) == a
  {
    AssignmentOfChoice(variables, ds);
    ChosenMultis(variables, ds);
    AssignmentsAgree(variables, a, ChosenAssignment(variables, ds));
  }

  lemma EveryAssignmentOccurs(variables: seq<Variable>, a: Assignment)
    requires DistinctKeys(variables) && Assigns(a, variables)
    ensures a in VariablePermutations(variables)
  {
    var j := AssignmentAtItsNumber(variables, a);
  }

  // Assignments that agree on the variables with a choice are equal.
  lemma AssignmentsAgree(variables: seq<Variable>, a: Assignment, b: Assignment)
    requires DistinctKeys(variables) && Assigns(a, variables) && Assigns(b, variables)
    requires var multis := Multis(variables);
      forall i :: 0 <= i < |multis| ==>
        multis[i].key in a && multis[i].key in b && a[multis[i].key] == b[multis[i].key]
    ensures a == b
  {
    assert a.Keys == b.Keys;
    forall k | k in a ensures a[k] == b[k] {
      var i :| 0 <= i < |variables| && Usable(variables[i]) && variables[i].key == k;
      ValueAgrees(variables, a, b, i);
    }
  }

  lemma ValueAgrees(variables: seq<Variable>, a: Assignment, b: Assignment, i: nat)
    requires Assigns(a, variables) && Assigns(b, variables) && i < |variables| && Usable(variables[i])
    requires var multis := Multis(variables);
      forall i :: 0 <= i < |multis| ==>
        multis[i].key in a && multis[i].key in b && a[multis[i].key] == b[multis[i].key]
    ensures variables[i].key in a && variables[i].key in b && a[variables[i].key] == b[variables[i].key]
  {
    var v := variables[i];
    if |v.selected| >= 2 {
      var m := MultiIndex(variables, i);
    } else {
      assert v.selected == [v.selected[0]];
    }
  }

  lemma OnlyAssignmentsOccur(variables: seq<Variable>, r: nat) returns (ds: seq<nat>)
    requires DistinctKeys(variables) && r < |VariablePermutations(variables)|
    ensures Assigns(VariablePermutations(variables)[r], variables)
    ensures Digits(PairLists(Multis(variables)), ds) && Rank(PairLists(Multis(variables)), ds) == r
    ensures forall i :: 0 <= i < |Multis(variables)| ==>
      Multis(variables)[i].key in VariablePermutations(variables)[r]
      && VariablePermutations(variables)[r][Multis(variables)[i].key] == Multis(variables)[i].selected[ds[i]]
  {
    ds := RankIsOnto(PairLists(Multis(variables)), r);
    ChoiceAtRank(PairLists(Multis(variables)), ds);
    AssignmentOfChoice(variables, ds);
    ChosenMultis(variables, ds);
    assert VariablePermutations(variables)[r] == ChosenAssignment(variables, ds);
  }

  lemma PermutationsAreDistinct(variables: seq<Variable>, r: nat, q: nat)
    requires DistinctKeys(variables) && DistinctValues(variables)
    requires r < |VariablePermutations(variables)| && q < |VariablePermutations(variables)|
    requires VariablePermutations(variables)[r] == VariablePermutations(variables)[q]
    ensures r == q
  {
    var multis := Multis(variables);
    var ds := OnlyAssignmentsOccur(variables, r);
    var es := OnlyAssignmentsOccur(variables, q);
    forall i | 0 <= i < |multis| ensures ds[i] == es[i] {
      assert multis[i] in multis;
      var j :| 0 <= j < |variables| && variables[j] == multis[i];
      assert NoRepeats(variables[j].selected);
      assert multis[i].selected[ds[i]] == multis[i].selected[es[i]];
    }
    assert ds == es;
  }

  // With distinct keys and distinct values, the list holds every assignment exactly once.
  lemma EveryAssignmentExactlyOnce(variables: seq<Variable>)
    requires DistinctKeys(variables) && DistinctValues(variables)
    ensures NoRepeats(VariablePermutations(variables))
    ensures forall a :: a in VariablePermutations(variables) <==> Assigns(a, variables)
  {
    var all := VariablePermutations(variables);
    forall i, j | 0 <= i < j < |all| ensures all[i] != all[j] {
      if all[i] == all[j] { PermutationsAreDistinct(variables, i, j); }
    }
    forall a ensures a in all <==> Assigns(a, variables) {
      if a in all {
        var r :| 0 <= r < |all| && all[r] == a;
        var ds := OnlyAssignmentsOccur(variables, r);
      }
      if Assigns(a, variables) { EveryAssignmentOccurs(variables, a); }
    }
  }

  // ----- variants, assignments, iterations -----

  datatype Job = Job(variant: nat, variables: Assignment, iteration: nat, permutationNr: nat)

  // The job that belongs to a permutation number.
  function JobAt(assignments: seq<Assignment>, iterations: nat, nr: nat): Job
    requires iterations > 0 && assignments != []
  {
    Job(nr / iterations / |assignments|, assignments[nr / iterations % |assignments|], nr % iterations, nr)
  }

  lemma JobAtTriple(assignments: seq<Assignment>, iterations: nat, v: nat, j: nat, it: nat)
    requires j < |assignments| && it < iterations
    ensures JobAt(assignments, iterations, (v * |assignments| + j) * iterations + it)
         == Job(v, assignments[j], it, (v * |assignments| + j) * iterations + it)
  {
    var row := v * |assignments| + j;
    QuotientOf(row, it, iterations);
    QuotientOf(v, j, |assignments|);
    JobInRow(assignments, iterations, row, row * iterations + it);
  }

  lemma JobInRow(assignments: seq<Assignment>, iterations: nat, row: nat, nr: nat)
    requires iterations > 0 && assignments != [] && nr / iterations == row
    ensures JobAt(assignments, iterations, nr)
         == Job(row / |assignments|, assignments[row % |assignments|], nr % iterations, nr)
  {
  }

  lemma QuotientOf(q: nat, r: nat, m: nat)
    requires r < m
    ensures (q * m + r) / m == q && (q * m + r) % m == r
  {
    var n := q * m + r;
    assert n / m * m + n % m == q * m + r;
    SameQuotient(n / m, q, n % m, r, m);
  }

  predicate Prepared(jobs: seq<Job>, variants: nat, assignments: seq<Assignment>, iterations: nat) {
    |jobs| == variants * |assignments| * iterations
    && forall nr :: 0 <= nr < |jobs| ==>
         iterations > 0 && assignments != [] && jobs[nr] == JobAt(assignments, iterations, nr)
  }

  // The triple loop over the generated assignments. Nothing is generated without variants,
  // iterations or assignments.
  method PreparePermutations(variants: nat, variables: seq<Variable>, iterations: nat) returns (jobs: seq<Job>)
    ensures Prepared(jobs, variants, VariablePermutations(variables), iterations)
  {
    var assignments := GenerateVariablePermutations(variables);
    jobs := [];
    var nr := 0;
    for v := 0 to variants
      invariant nr == |jobs| == v * |assignments| * iterations
      invariant forall k :: 0 <= k < |jobs| ==>
        iterations > 0 && assignments != [] && jobs[k] == JobAt(assignments, iterations, k)
    {
      for j := 0 to |assignments|
        invariant nr == |jobs| == (v * |assignments| + j) * iterations
        invariant forall k :: 0 <= k < |jobs| ==>
          iterations > 0 && assignments != [] && jobs[k] == JobAt(assignments, iterations, k)
      {
        for it := 0 to iterations
          invariant nr == |jobs| == (v * |assignments| + j) * iterations + it
          invariant forall k :: 0 <= k < |jobs| ==>
            iterations > 0 && assignments != [] && jobs[k] == JobAt(assignments, iterations, k)
        {
          JobAtTriple(assignments, iterations, v, j, it);
          jobs := jobs + [Job(v, assignments[j], it, nr)];
          nr := nr + 1;
        }
        NextRow(v * |assignments| + j, iterations);
      }
      NextRow(v, |assignments|);
    }
  }

  lemma NextRow(k: nat, m: nat)
    ensures (k + 1) * m == k * m + m
  {
  }

  // Where a triple stands: variant, then assignment, then iteration.
  function TripleRank(assignments: nat, iterations: nat, v: nat, j: nat, it: nat): nat {
    (v * assignments + j) * iterations + it
  }

  lemma TripleRankInBounds(variants: nat, assignments: nat, iterations: nat, v: nat, j: nat, it: nat)
    requires v < variants && j < assignments && it < iterations
    ensures TripleRank(assignments, iterations, v, j, it) < variants * assignments * iterations
  {
    RankInBounds(v, j, variants, assignments);
    RankInBounds(v * assignments + j, it, variants * assignments, iterations);
  }

  // The permutation number is the rank of the triple it stands for.
  lemma NumberIsRank(assignments: seq<Assignment>, iterations: nat, nr: nat)
    requires iterations > 0 && assignments != []
    ensures var q := nr / iterations;
      nr == TripleRank(|assignments|, iterations, q / |assignments|, q % |assignments|, nr % iterations)
  {
    var q := nr / iterations;
    assert q == q / |assignments| * |assignments| + q % |assignments|;
    assert nr == q * iterations + nr % iterations;
  }

  predicate IsTriple(job: Job, v: nat, a: Assignment, it: nat) {
    job.variant == v && job.variables == a && job.iteration == it
  }

  lemma TripleOnlyAtRank(assignments: seq<Assignment>, iterations: nat, v: nat, j: nat, it: nat, nr: nat)
    requires j < |assignments| && it < iterations && NoRepeats(assignments)
    ensures IsTriple(JobAt(assignments, iterations, nr), v, assignments[j], it)
       <==> nr == TripleRank(|assignments|, iterations, v, j, it)
  {
    JobAtTriple(assignments, iterations, v, j, it);
    NumberIsRank(assignments, iterations, nr);
  }

  // Every triple is generated exactly once, and its permutation number is its mixed-radix rank.
  lemma EveryTripleExactlyOnce(jobs: seq<Job>, variants: nat, assignments: seq<Assignment>, iterations: nat,
      v: nat, j: nat, it: nat)
    requires Prepared(jobs, variants, assignments, iterations) && NoRepeats(assignments)
    requires v < variants && j < |assignments| && it < iterations
    ensures forall nr: nat :: nr < |jobs| ==>
      (IsTriple(jobs[nr], v, assignments[j], it) <==> nr == TripleRank(|assignments|, iterations, v, j, it))
    ensures var nr := TripleRank(|assignments|, iterations, v, j, it);
      nr < |jobs| && jobs[nr].permutationNr == nr
  {
    TripleRankInBounds(variants, |assignments|, iterations, v, j, it);
    forall nr: nat | nr < |jobs|
      ensures IsTriple(jobs[nr], v, assignments[j], it) <==> nr == TripleRank(|assignments|, iterations, v, j, it)
    {
      TripleOnlyAtRank(assignments, iterations, v, j, it, nr);
    }
  }

  // And nothing else is generated.
  lemma OnlyTriplesOccur(jobs: seq<Job>, variants: nat, assignments: seq<Assignment>, iterations: nat, nr: nat)
    requires Prepared(jobs, variants, assignments, iterations) && nr < |jobs|
    ensures jobs[nr].variant < variants && jobs[nr].variables in assignments && jobs[nr].iteration < iterations
  {
    var n, row := |assignments|, nr / iterations;
    RowBelow(nr, iterations, variants * n);
    RowBelow(row, n, variants);
    assert jobs[nr] == JobAt(assignments, iterations, nr);
  }

  lemma RowBelow(nr: nat, m: nat, rows: nat)
    requires m > 0 && nr < rows * m
    ensures nr / m < rows
  {
    if nr / m >= rows { MulMonotone(rows, nr / m, m); }
  }

  // ----- the sizes of the selections -----

  // The variables that take part, in order, and how many values each has to choose from.
  function Usables(variables: seq<Variable>): (r: seq<Variable>)
    ensures forall v :: v in r <==> v in variables && Usable(v)
  {
    if variables == [] then []
    else
      var before, v := Usables(variables[..|variables| - 1]), variables[|variables| - 1];
      assert variables == variables[..|variables| - 1] + [v];
      if Usable(v) then before + [v] else before
  }

  function Sizes(vs: seq<Variable>): (r: seq<nat>)
    ensures |r| == |vs| && forall i :: 0 <= i < |r| ==> r[i] == |vs[i].selected|
  {
    seq(|vs|, i requires 0 <= i < |vs| => |vs[i].selected|)
  }

  function Total(sizes: seq<nat>): nat {
    if sizes == [] then 1 else Total(sizes[..|sizes| - 1]) * sizes[|sizes| - 1]
  }

  predicate Within(sizes: seq<nat>, ds: seq<nat>) {
    |ds| == |sizes| && forall i :: 0 <= i < |ds| ==> ds[i] < sizes[i]
  }

  // The number whose digits, to the given bases, are ds: the first most significant.
  function MixedRadix(sizes: seq<nat>, ds: seq<nat>): nat
    requires |ds| == |sizes|
  {
    if sizes == [] then 0
    else
      var n := |sizes| - 1;
      MixedRadix(sizes[..n], ds[..n]) * sizes[n] + ds[n]
  }

  lemma MixedRadixSnoc(sizes: seq<nat>, ds: seq<nat>, n: nat, d: nat)
    requires |ds| == |sizes|
    ensures MixedRadix(sizes + [n], ds + [d]) == MixedRadix(sizes, ds) * n + d
    ensures Total(sizes + [n]) == Total(sizes) * n
  {
    assert (sizes + [n])[..|sizes|] == sizes && (ds + [d])[..|ds|] == ds;
  }

  lemma {:induction false} MixedRadixCons(n: nat, d: nat, sizes: seq<nat>, ds: seq<nat>)
    requires |ds| == |sizes|
    ensures MixedRadix([n] + sizes, [d] + ds) == d * Total(sizes) + MixedRadix(sizes, ds)
    ensures Total([n] + sizes) == n * Total(sizes)
  {
    if sizes == [] {
      assert [n] + sizes == [n] && [d] + ds == [d];
      assert [n][..0] == [] && [d][..0] == [];
    } else {
      var k := |sizes| - 1;
      var front, last, t := sizes[..k], sizes[k], Total(sizes[..k]);
      MixedRadixCons(n, d, front, ds[..k]);
      assert ([n] + sizes)[..k + 1] == [n] + front && ([d] + ds)[..k + 1] == [d] + ds[..k];
      Regrouped(n, d, t, MixedRadix(front, ds[..k]), last, ds[k]);
    }
  }

  lemma Regrouped(n: nat, d: nat, t: nat, r: nat, m: nat, e: nat)
    ensures (d * t + r) * m + e == d * (t * m) + (r * m + e)
    ensures n * t * m == n * (t * m)
  {
    assert (d * t + r) * m == d * t * m + r * m;
    assert d * t * m == d * (t * m);
  }

  // The rank of a choice is the number its positions spell, and there are as many as the sizes say.
  lemma {:induction false} RankIsMixedRadix(vs: seq<Variable>, ds: seq<nat>)
    requires Digits(PairLists(vs), ds)
    ensures Rank(PairLists(vs), ds) == MixedRadix(Sizes(vs), ds)
  {
    if vs != [] {
      DigitsOfRest(vs, ds);
      RankIsMixedRadix(vs[1..], ds[1..]);
      RankOfCons(vs, ds);
    }
  }

  lemma DigitsOfRest(vs: seq<Variable>, ds: seq<nat>)
    requires vs != [] && Digits(PairLists(vs), ds)
    ensures PairLists(vs)[1..] == PairLists(vs[1..]) && Digits(PairLists(vs[1..]), ds[1..])
    ensures Sizes(vs) == [|vs[0].selected|] + Sizes(vs[1..])
  {
    assert PairLists(vs)[1..] == PairLists(vs[1..]);
  }

  lemma RankOfCons(vs: seq<Variable>, ds: seq<nat>)
    requires vs != [] && Digits(PairLists(vs), ds) && Digits(PairLists(vs[1..]), ds[1..])
    requires Rank(PairLists(vs[1..]), ds[1..]) == MixedRadix(Sizes(vs[1..]), ds[1..])
    ensures Rank(PairLists(vs), ds) == MixedRadix(Sizes(vs), ds)
  {
    DigitsOfRest(vs, ds);
    ProductIsTotal(vs[1..]);
    MixedRadixCons(|vs[0].selected|, ds[0], Sizes(vs[1..]), ds[1..]);
    assert ds == [ds[0]] + ds[1..];
  }

  lemma {:induction false} ProductIsTotal(vs: seq<Variable>)
    ensures |Product(PairLists(vs))| == Total(Sizes(vs))
  {
    if vs == [] {
      assert Product(PairLists(vs)) == [[]];
    } else {
      ProductIsTotal(vs[1..]);
      assert PairLists(vs)[1..] == PairLists(vs[1..]) && |PairLists(vs)[0]| == |vs[0].selected|;
      assert Sizes(vs) == [|vs[0].selected|] + Sizes(vs[1..]);
      MixedRadixCons(|vs[0].selected|, 0, Sizes(vs[1..]), Sizes(vs[1..]));
    }
  }

  // The positions at which an assignment's values stand among the selected ones.
  function Positions(vs: seq<Variable>, a: Assignment): (ds: seq<nat>)
    requires forall i :: 0 <= i < |vs| ==> vs[i].key in a && a[vs[i].key] in vs[i].selected
    ensures Within(Sizes(vs), ds) && forall i :: 0 <= i < |vs| ==> vs[i].selected[ds[i]] == a[vs[i].key]
  {
    seq(|vs|, i requires 0 <= i < |vs| => PositionOf(vs[i].selected, a[vs[i].key]))
  }

  predicate ValuesChosen(vs: seq<Variable>, a: Assignment) {
    forall i :: 0 <= i < |vs| ==> vs[i].key in a && a[vs[i].key] in vs[i].selected
  }

  lemma AssignsUsables(variables: seq<Variable>, a: Assignment)
    requires Assigns(a, variables)
    ensures ValuesChosen(Usables(variables), a) && ValuesChosen(Multis(variables), a)
  {
    var us, ms := Usables(variables), Multis(variables);
    forall i | 0 <= i < |us| ensures us[i].key in a && a[us[i].key] in us[i].selected {
      assert us[i] in us;
      var j :| 0 <= j < |variables| && variables[j] == us[i];
    }
    forall i | 0 <= i < |ms| ensures ms[i].key in a && a[ms[i].key] in ms[i].selected {
      assert ms[i] in ms;
      var j :| 0 <= j < |variables| && variables[j] == ms[i];
    }
  }

  lemma PositionsSnoc(vs: seq<Variable>, v: Variable, a: Assignment)
    requires ValuesChosen(vs + [v], a)
    ensures ValuesChosen(vs, a) && v.key in a && a[v.key] in v.selected
    ensures Sizes(vs + [v]) == Sizes(vs) + [|v.selected|]
    ensures Positions(vs + [v], a) == Positions(vs, a) + [PositionOf(v.selected, a[v.key])]
  {
    var all := vs + [v];
    assert all[|vs|] == v;
    forall i | 0 <= i < |vs| ensures vs[i].key in a && a[vs[i].key] in vs[i].selected {
      assert all[i] == vs[i];
    }
  }

  lemma UsablesSnoc(before: seq<Variable>, v: Variable)
    ensures Usables(before + [v]) == if Usable(v) then Usables(before) + [v] else Usables(before)
    ensures Multis(before + [v]) == if Usable(v) && |v.selected| != 1 then Multis(before) + [v] else Multis(before)
  {
    assert (before + [v])[..|before|] == before;
  }

  lemma SizesSnoc(vs: seq<Variable>, v: Variable)
    ensures Total(Sizes(vs + [v])) == Total(Sizes(vs)) * |v.selected|
  {
    assert Sizes(vs + [v])[..|vs|] == Sizes(vs);
  }

  lemma TotalStep(before: seq<Variable>, v: Variable)
    requires Total(Sizes(Usables(before))) == Total(Sizes(Multis(before)))
    ensures Total(Sizes(Usables(before + [v]))) == Total(Sizes(Multis(before + [v])))
  {
    UsablesSnoc(before, v);
    SizesSnoc(Usables(before), v);
    SizesSnoc(Multis(before), v);
  }

  // Variables without a choice change neither the total ...
  lemma {:induction false} TotalOfMultis(variables: seq<Variable>)
    ensures Total(Sizes(Usables(variables))) == Total(Sizes(Multis(variables)))
  {
    if variables != [] {
      var before, v := variables[..|variables| - 1], variables[|variables| - 1];
      assert variables == before + [v];
      TotalOfMultis(before);
      TotalStep(before, v);
    }
  }

  function Spelled(vs: seq<Variable>, a: Assignment): nat
    requires ValuesChosen(vs, a)
  {
    MixedRadix(Sizes(vs), Positions(vs, a))
  }

  lemma SpelledSnoc(vs: seq<Variable>, v: Variable, a: Assignment)
    requires ValuesChosen(vs + [v], a)
    ensures ValuesChosen(vs, a) && v.key in a && a[v.key] in v.selected
    ensures Spelled(vs + [v], a) == Spelled(vs, a) * |v.selected| + PositionOf(v.selected, a[v.key])
  {
    PositionsSnoc(vs, v, a);
    MixedRadixSnoc(Sizes(vs), Positions(vs, a), |v.selected|, PositionOf(v.selected, a[v.key]));
  }

  lemma ValuesOfShorter(before: seq<Variable>, v: Variable, a: Assignment)
    requires ValuesChosen(Usables(before + [v]), a) && ValuesChosen(Multis(before + [v]), a)
    ensures ValuesChosen(Usables(before), a) && ValuesChosen(Multis(before), a)
  {
    UsablesSnoc(before, v);
    if Usable(v) { SpelledSnoc(Usables(before), v, a); }
    if Usable(v) && |v.selected| != 1 { SpelledSnoc(Multis(before), v, a); }
  }

  // A single choice adds nothing to the number spelled, any other the same digit to both.
  lemma SpelledStep(us: seq<Variable>, ms: seq<Variable>, v: Variable, a: Assignment)
    requires ValuesChosen(us + [v], a) && ValuesChosen(us, a) && ValuesChosen(ms, a)
    requires Spelled(us, a) == Spelled(ms, a)
    ensures |v.selected| == 1 ==> Spelled(us + [v], a) == Spelled(ms, a)
    ensures ValuesChosen(ms + [v], a) ==> Spelled(us + [v], a) == Spelled(ms + [v], a)
  {
    SpelledSnoc(us, v, a);
    if ValuesChosen(ms + [v], a) { SpelledSnoc(ms, v, a); }
  }

  // ... nor the number spelled.
  lemma {:induction false} SinglesDoNotCount(variables: seq<Variable>, a: Assignment)
    requires ValuesChosen(Usables(variables), a) && ValuesChosen(Multis(variables), a)
    ensures Spelled(Usables(variables), a) == Spelled(Multis(variables), a)
  {
    if variables != [] {
      var before, v := variables[..|variables| - 1], variables[|variables| - 1];
      assert variables == before + [v];
      ValuesOfShorter(before, v, a);
      SinglesDoNotCount(before, a);
      UsablesSnoc(before, v);
      if Usable(v) { SpelledStep(Usables(before), Multis(before), v, a); }
    }
  }

  // ----- the jobs of a benchmark -----

  // There are variants times the product of the selection sizes times iterations of them.
  lemma JobCount(jobs: seq<Job>, variants: nat, variables: seq<Variable>, iterations: nat)
    requires Prepared(jobs, variants, VariablePermutations(variables), iterations)
    ensures |jobs| == variants * Total(Sizes(Usables(variables))) * iterations
  {
    ProductIsTotal(Multis(variables));
    TotalOfMultis(variables);
  }

  lemma PermutationAtRank(variables: seq<Variable>, ds: seq<nat>)
    requires Digits(PairLists(Multis(variables)), ds)
    ensures var r := Rank(PairLists(Multis(variables)), ds);
      r < |VariablePermutations(variables)| && VariablePermutations(variables)[r] == ChosenAssignment(variables, ds)
  {
    ChoiceAtRank(PairLists(Multis(variables)), ds);
  }

  // Where an assignment stands among the permutations.
  lemma AssignmentAtItsNumber(variables: seq<Variable>, a: Assignment) returns (j: nat)
    requires DistinctKeys(variables) && Assigns(a, variables)
    ensures ValuesChosen(Usables(variables), a)
    ensures j == MixedRadix(Sizes(Usables(variables)), Positions(Usables(variables), a))
    ensures j < |VariablePermutations(variables)| && VariablePermutations(variables)[j] == a
  {
    var multis := Multis(variables);
    AssignsUsables(variables, a);
    var ds := Positions(multis, a);
    SinglesDoNotCount(variables, a);
    RankIsMixedRadix(multis, ds);
    ChosenIsAssignment(variables, a, ds);
    PermutationAtRank(variables, ds);
    j := Rank(PairLists(multis), ds);
  }

  // The number of a job: variant, one position per variable, and iteration as digits.
  function JobNumber(variables: seq<Variable>, variants: nat, iterations: nat, v: nat, a: Assignment, it: nat): nat
    requires ValuesChosen(Usables(variables), a)
  {
    MixedRadix([variants] + Sizes(Usables(variables)) + [iterations], [v] + Positions(Usables(variables), a) + [it])
  }

  lemma JobNumberIsTripleRank(variables: seq<Variable>, variants: nat, iterations: nat, v: nat, a: Assignment, it: nat)
    requires ValuesChosen(Usables(variables), a)
    ensures JobNumber(variables, variants, iterations, v, a, it)
         == TripleRank(Total(Sizes(Usables(variables))), iterations, v,
                       MixedRadix(Sizes(Usables(variables)), Positions(Usables(variables), a)), it)
  {
    var sizes, ds := Sizes(Usables(variables)), Positions(Usables(variables), a);
    MixedRadixCons(variants, v, sizes, ds);
    MixedRadixSnoc([variants] + sizes, [v] + ds, iterations, it);
  }

  // With distinct keys and distinct values, the jobs of a benchmark hold every variant with every
  // full assignment of the variables and every iteration exactly once, at the job's number.
  lemma EveryJobExactlyOnce(jobs: seq<Job>, variants: nat, variables: seq<Variable>, iterations: nat,
      v: nat, a: Assignment, it: nat)
    requires Prepared(jobs, variants, VariablePermutations(variables), iterations)
    requires DistinctKeys(variables) && DistinctValues(variables)
    requires v < variants && Assigns(a, variables) && it < iterations
    ensures ValuesChosen(Usables(variables), a)
    ensures var nr := JobNumber(variables, variants, iterations, v, a, it);
      nr < |jobs| && jobs[nr] == Job(v, a, it, nr)
    ensures forall k: nat :: k < |jobs| && IsTriple(jobs[k], v, a, it) ==>
      k == JobNumber(variables, variants, iterations, v, a, it)
  {
    var all := VariablePermutations(variables);
    EveryAssignmentExactlyOnce(variables);
    var j := AssignmentAtItsNumber(variables, a);
    JobNumberIsTripleRank(variables, variants, iterations, v, a, it);
    ProductIsTotal(Multis(variables));
    TotalOfMultis(variables);
    EveryTripleExactlyOnce(jobs, variants, all, iterations, v, j, it);
  }

  // And they hold nothing else.
  lemma OnlyFullJobsOccur(jobs: seq<Job>, variants: nat, variables: seq<Variable>, iterations: nat, nr: nat)
    requires Prepared(jobs, variants, VariablePermutations(variables), iterations)
    requires DistinctKeys(variables) && nr < |jobs|
    ensures jobs[nr].variant < variants && Assigns(jobs[nr].variables, variables) && jobs[nr].iteration < iterations
  {
    var all := VariablePermutations(variables);
    OnlyTriplesOccur(jobs, variants, all, iterations, nr);
    var r :| 0 <= r < |all| && all[r] == jobs[nr].variables;
    var ds := OnlyAssignmentsOccur(variables, r);
  }
}
