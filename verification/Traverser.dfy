// The command line grammar as a tree, and the depth-first traverser that walks it with an
// explicit stack of (group, current child, end) contexts.
module Traverser {

  datatype Option<T> = None | Some(value: T)

  datatype Pattern =
    | Param(id: nat, blocking: bool, repeatable: bool)
    | Group(children: seq<Pattern>, blocking: bool, exclusive: bool, repeatable: bool)

  // A pointer into the tree: the child indices on the way down from the root group.
  type Path = seq<nat>

  // `parent` is the pointer to the group, `cur` and `end` are positions in its child list.
  datatype Context = Context(parent: Path, cur: nat, end: nat)
  type Stack = seq<Context>

  // A saved top of the stack, to be put back later (`undo_point` / `undo`).
  datatype Memento = Memento(level: nat, context: Context)

  // ----- the tree -----

  predicate IsPath(n: Pattern, p: Path) {
    p == [] || (n.Group? && p[0] < |n.children| && IsPath(n.children[p[0]], p[1..]))
  }

  function At(n: Pattern, p: Path): Pattern
    requires IsPath(n, p)
  {
    if p == [] then n else At(n.children[p[0]], p[1..])
  }

  predicate NoEmptyGroups(n: Pattern) {
    n.Group? ==> n.children != [] && forall c :: c in n.children ==> NoEmptyGroups(c)
  }

  predicate IsGroupPath(root: Pattern, p: Path) {
    IsPath(root, p) && At(root, p).Group?
  }

  lemma {:induction false} PathExtends(n: Pattern, p: Path, i: nat)
    requires IsGroupPath(n, p) && i < |At(n, p).children|
    ensures IsPath(n, p + [i]) && At(n, p + [i]) == At(n, p).children[i]
  {
    if p == [] {
      assert (p + [i])[1..] == [];
    } else {
      assert (p + [i])[1..] == p[1..] + [i];
      PathExtends(n.children[p[0]], p[1..], i);
    }
  }

  lemma {:induction false} SubtreeHasNoEmptyGroups(n: Pattern, p: Path)
    requires NoEmptyGroups(n) && IsPath(n, p)
    ensures NoEmptyGroups(At(n, p))
  {
    if p != [] {
      SubtreeHasNoEmptyGroups(n.children[p[0]], p[1..]);
    }
  }

  // ----- the stack -----

  predicate ValidContext(root: Pattern, c: Context) {
    IsGroupPath(root, c.parent) && c.cur < c.end <= |At(root, c.parent).children|
  }

  predicate ValidStack(root: Pattern, s: Stack) {
    forall i :: 0 <= i < |s| ==> ValidContext(root, s[i])
  }

  function Top(s: Stack): Context
    requires s != []
  {
    s[|s| - 1]
  }

  function Below(s: Stack): Stack
    requires s != []
  {
    s[..|s| - 1]
  }

  // The pointer to the child the traverser stands on.
  function Position(s: Stack): Path
    requires s != []
  {
    Top(s).parent + [Top(s).cur]
  }

  function Current(root: Pattern, s: Stack): Pattern
    requires s != [] && ValidContext(root, Top(s))
  {
    At(root, Top(s).parent).children[Top(s).cur]
  }

  function Start(root: Pattern): Stack
    requires root.Group?
  {
    if root.children == [] then [] else [Context([], 0, |root.children|)]
  }

  function Bump(s: Stack): Stack
    requires s != []
  {
    s[|s| - 1 := Top(s).(cur := Top(s).cur + 1)]
  }

  // Leaves every group whose children are used up.
  function Settle(s: Stack): Stack
    decreases |s|
  {
    if s == [] || Top(s).cur != Top(s).end then s
    else if Below(s) == [] then []
    else Settle(Bump(Below(s)))
  }

  lemma SettleStep(s: Stack)
    requires s != [] && Top(s).cur == Top(s).end
    ensures Settle(s) == if Below(s) == [] then [] else Settle(Bump(Below(s)))
  {
  }

  function NextSibling(s: Stack): Stack {
    if s == [] then [] else Settle(Bump(s))
  }

  function ToLastSibling(s: Stack): Stack
    requires s != [] && Top(s).end > 0
  {
    s[|s| - 1 := Top(s).(cur := Top(s).end - 1)]
  }

  function NextAfterSiblings(s: Stack): Stack
    requires s != [] ==> Top(s).end > 0
  {
    if s == [] then [] else NextSibling(ToLastSibling(s))
  }

  function Next(root: Pattern, s: Stack): Stack
    requires ValidStack(root, s)
  {
    if s == [] then []
    else if Current(root, s).Group? then s + [Context(Position(s), 0, |Current(root, s).children|)]
    else NextSibling(s)
  }

  function BackToAncestor(root: Pattern, s: Stack, g: Option<Path>): Stack
    requires ValidStack(root, s)
    decreases |s|
  {
    if g == None || s == [] then s
    else if Current(root, s).Group? && Position(s) == g.value then s
    else BackToAncestor(root, Below(s), g)
  }

  predicate IsLastInPath(root: Pattern, s: Stack)
    requires ValidStack(root, s)
  {
    s != [] && (forall i :: 0 <= i < |s| ==> s[i].cur + 1 == s[i].end) && !Current(root, s).Group?
  }

  // The two traversers stand on the same child of the same group.
  predicate SamePosition(a: Stack, b: Stack) {
    a != [] && b != [] && Top(a).parent == Top(b).parent
    && (if Top(a).cur == Top(a).end && Top(b).cur == Top(b).end then true
        else if Top(a).cur == Top(a).end || Top(b).cur == Top(b).end then false
        else Top(a).cur == Top(b).cur)
  }

  function Undo(s: Stack, m: Memento): Stack {
    if m.level < 1 then s
    else if m.level <= |s| then s[..m.level - 1] + [m.context]
    else if s == [] && m.level == 1 then [m.context]
    else s
  }

  // ----- the reference order -----

  // The nodes of children i..end of group g, which sits at path p, each before its descendants.
  function Nodes(g: Pattern, p: Path, i: nat, end: nat): seq<Path>
    requires g.Group? && end <= |g.children|
    decreases g, end - i
  {
    if i >= end then []
    else [p + [i]] + Inside(g.children[i], p + [i]) + Nodes(g, p, i + 1, end)
  }

  // The nodes strictly below n, which sits at path p.
  function Inside(n: Pattern, p: Path): seq<Path>
    decreases n, if n.Group? then |n.children| + 1 else 0
  {
    if n.Group? then Nodes(n, p, 0, |n.children|) else []
  }

  function Preorder(root: Pattern): seq<Path> {
    Inside(root, [])
  }

  // What lies after the current child in every open group, innermost group first.
  function Pending(root: Pattern, s: Stack): seq<Path>
    requires ValidStack(root, s)
  {
    if s == [] then []
    else Nodes(At(root, Top(s).parent), Top(s).parent, Top(s).cur + 1, Top(s).end) + Pending(root, Below(s))
  }

  // Everything plain traversal would still visit, the current node included.
  function Remaining(root: Pattern, s: Stack): seq<Path>
    requires ValidStack(root, s)
  {
    if s == [] then []
    else [Position(s)] + Inside(Current(root, s), Position(s)) + Pending(root, s)
  }

  lemma RemainingAsNodes(root: Pattern, s: Stack)
    requires ValidStack(root, s) && s != []
    ensures Remaining(root, s)
         == Nodes(At(root, Top(s).parent), Top(s).parent, Top(s).cur, Top(s).end) + Pending(root, Below(s))
  {
    var c := Top(s);
    var g := At(root, c.parent);
    Associate([Position(s)] + Inside(Current(root, s), Position(s)),
              Nodes(g, c.parent, c.cur + 1, c.end), Pending(root, Below(s)));
  }

  lemma Associate(a: seq<Path>, b: seq<Path>, c: seq<Path>)
    ensures a + (b + c) == (a + b) + c
  {
  }

  // ----- one step of the plain traverser -----

  // A stack whose top may stand at its end.
  predicate Unsettled(root: Pattern, s: Stack) {
    s != [] && ValidStack(root, Below(s)) && IsGroupPath(root, Top(s).parent)
    && Top(s).cur <= Top(s).end <= |At(root, Top(s).parent).children|
  }

  lemma {:induction false} SettleKeepsPending(root: Pattern, s: Stack)
    requires Unsettled(root, s)
    ensures ValidStack(root, Settle(s)) && |Settle(s)| <= |s|
    ensures Remaining(root, Settle(s))
         == Nodes(At(root, Top(s).parent), Top(s).parent, Top(s).cur, Top(s).end) + Pending(root, Below(s))
    decreases |s|
  {
    if Top(s).cur != Top(s).end {
      assert s == Below(s) + [Top(s)];
      assert ValidStack(root, s);
      RemainingAsNodes(root, s);
    } else if Below(s) != [] {
      var t := Bump(Below(s));
      assert Below(t) == Below(Below(s));
      SettleKeepsPending(root, t);
    }
  }

  lemma NextSiblingRemaining(root: Pattern, s: Stack)
    requires ValidStack(root, s) && s != []
    ensures ValidStack(root, NextSibling(s)) && |NextSibling(s)| <= |s|
    ensures Remaining(root, NextSibling(s)) == Pending(root, s)
  {
    assert Below(Bump(s)) == Below(s);
    SettleKeepsPending(root, Bump(s));
  }

  lemma NextSiblingValid(root: Pattern, s: Stack)
    requires ValidStack(root, s) && s != []
    ensures ValidStack(root, NextSibling(s)) && NextSibling(s) == Settle(Bump(s))
  {
    NextSiblingRemaining(root, s);
  }

  // Skipping the siblings leaves exactly what is pending outside the innermost group.
  lemma NextAfterSiblingsRemaining(root: Pattern, s: Stack)
    requires ValidStack(root, s) && s != []
    ensures ValidStack(root, NextAfterSiblings(s))
    ensures Remaining(root, NextAfterSiblings(s)) == Pending(root, Below(s))
  {
    var t := ToLastSibling(s);
    assert Below(t) == Below(s);
    assert t == Below(s) + [Top(t)];
    assert ValidStack(root, t);
    NextSiblingRemaining(root, t);
  }

  lemma CurrentAtPosition(root: Pattern, s: Stack)
    requires ValidStack(root, s) && s != []
    ensures IsPath(root, Position(s)) && At(root, Position(s)) == Current(root, s)
  {
    PathExtends(root, Top(s).parent, Top(s).cur);
  }

  lemma HeadAndTail(x: Path, ys: seq<Path>, zs: seq<Path>)
    ensures ([x] + ys + zs)[0] == x && ([x] + ys + zs)[1..] == ys + zs
  {
  }

  // Entering a group: what is inside it comes next.
  lemma EnterGroupRemaining(root: Pattern, s: Stack)
    requires NoEmptyGroups(root) && ValidStack(root, s) && s != [] && Current(root, s).Group?
    ensures ValidStack(root, Next(root, s))
    ensures Remaining(root, Next(root, s)) == Inside(Current(root, s), Position(s)) + Pending(root, s)
  {
    CurrentAtPosition(root, s);
    SubtreeHasNoEmptyGroups(root, Position(s));
    var t := Next(root, s);
    assert Below(t) == s;
    assert ValidStack(root, t);
    RemainingAsNodes(root, t);
  }

  // One ++ visits the head of what remains and leaves its tail.
  lemma NextVisitsHead(root: Pattern, s: Stack)
    requires NoEmptyGroups(root) && ValidStack(root, s) && s != []
    ensures ValidStack(root, Next(root, s))
    ensures Remaining(root, s) != [] && Remaining(root, s)[0] == Position(s)
    ensures Remaining(root, Next(root, s)) == Remaining(root, s)[1..]
  {
    var inside, pending := Inside(Current(root, s), Position(s)), Pending(root, s);
    HeadAndTail(Position(s), inside, pending);
    if Current(root, s).Group? {
      EnterGroupRemaining(root, s);
    } else {
      NextSiblingRemaining(root, s);
      assert inside + pending == pending;
    }
  }

  // ----- whole traversals -----

  function Run(root: Pattern, s: Stack, k: nat): Stack
    requires NoEmptyGroups(root) && ValidStack(root, s)
    ensures ValidStack(root, Run(root, s, k))
  {
    if k == 0 then s
    else
      var t := Run(root, s, k - 1);
      assert ValidStack(root, Next(root, t)) by { if t != [] { NextVisitsHead(root, t); } }
      Next(root, t)
  }

  lemma {:induction false} RunDropsPrefix(root: Pattern, s: Stack, k: nat)
    requires NoEmptyGroups(root) && ValidStack(root, s)
    requires k <= |Remaining(root, s)|
    ensures Remaining(root, Run(root, s, k)) == Remaining(root, s)[k..]
  {
    var all := Remaining(root, s);
    if k == 0 {
      assert all[0..] == all;
    } else {
      RunDropsPrefix(root, s, k - 1);
      OneMoreDropped(root, Run(root, s, k - 1), Run(root, s, k), all, k);
    }
  }

  lemma OneMoreDropped(root: Pattern, before: Stack, after: Stack, all: seq<Path>, k: nat)
    requires NoEmptyGroups(root) && ValidStack(root, before) && after == Next(root, before)
    requires 0 < k <= |all| && Remaining(root, before) == all[k - 1..]
    ensures ValidStack(root, after) && Remaining(root, after) == all[k..]
  {
    NextVisitsHead(root, before);
    assert all[k - 1..][1..] == all[k..];
  }

  lemma StartCoversTree(root: Pattern)
    requires root.Group?
    ensures ValidStack(root, Start(root))
    ensures Remaining(root, Start(root)) == Preorder(root)
  {
    var all := Nodes(root, [], 0, |root.children|);
    assert all + [] == all;
    if root.children != [] {
      RemainingAsNodes(root, Start(root));
      assert Below(Start(root)) == [];
    }
  }

  // From the root, the k-th position is the k-th node of the preorder listing, and the stack is
  // empty after exactly as many steps as there are nodes.
  lemma VisitsPreorder(root: Pattern, k: nat)
    requires root.Group? && NoEmptyGroups(root) && k <= |Preorder(root)|
    ensures ValidStack(root, Start(root))
    ensures Run(root, Start(root), k) == [] <==> k == |Preorder(root)|
    ensures k < |Preorder(root)| ==> Position(Run(root, Start(root), k)) == Preorder(root)[k]
  {
    StartCoversTree(root);
    RunDropsPrefix(root, Start(root), k);
    if Run(root, Start(root), k) != [] {
      NextVisitsHead(root, Run(root, Start(root), k));
    }
  }

  lemma {:induction false} SettleEmpties(s: Stack)
    requires forall i :: 0 <= i < |s| ==> s[i].cur < s[i].end
    ensures NextSibling(s) == [] <==> forall i :: 0 <= i < |s| ==> s[i].cur + 1 == s[i].end
    decreases |s|
  {
    if s != [] {
      assert Below(Bump(s)) == Below(s);
      assert s == Below(s) + [Top(s)];
      SettleEmpties(Below(s));
    }
  }

  // `is_last_in_path` holds exactly when the next ++ exhausts the traverser.
  lemma LastInPathIffNextEmpties(root: Pattern, s: Stack)
    requires ValidStack(root, s) && s != []
    ensures IsLastInPath(root, s) <==> Next(root, s) == []
  {
    SettleEmpties(s);
  }

  // ----- the listing is the preorder: exactly the nodes, in strictly increasing path order -----

  // Ancestors before descendants, earlier siblings before later ones.
  predicate Before(a: Path, b: Path) {
    b != [] && (a == [] || a[0] < b[0] || (a[0] == b[0] && Before(a[1..], b[1..])))
  }

  predicate Increasing(ps: seq<Path>) {
    forall i, j :: 0 <= i < j < |ps| ==> Before(ps[i], ps[j])
  }

  lemma {:induction false} BeforePrefixed(p: Path, a: Path, b: Path)
    requires Before(a, b)
    ensures Before(p + a, p + b)
  {
    if p == [] {
      assert p + a == a && p + b == b;
    } else {
      assert (p + a)[1..] == p[1..] + a && (p + b)[1..] == p[1..] + b;
      BeforePrefixed(p[1..], a, b);
    }
  }

  lemma {:induction false} BeforeIsStrict(a: Path)
    ensures !Before(a, a)
  {
    if a != [] { BeforeIsStrict(a[1..]); }
  }

  // q lies at or below child c of p, for some c in i..end.
  predicate UnderChild(g: Pattern, p: Path, i: nat, end: nat, q: Path)
    requires g.Group? && end <= |g.children|
  {
    |p| < |q| && p == q[..|p|] && i <= q[|p|] < end && IsPath(g.children[q[|p|]], q[|p| + 1..])
  }

  lemma {:induction false} NodesMembership(g: Pattern, p: Path, i: nat, end: nat, q: Path)
    requires g.Group? && end <= |g.children|
    ensures q in Nodes(g, p, i, end) <==> UnderChild(g, p, i, end, q)
    decreases g, end - i
  {
    if i < end {
      var child := g.children[i];
      NodesMembership(g, p, i + 1, end, q);
      InsideMembership(child, p + [i], q);
      if |p| < |q| && p == q[..|p|] && q[|p|] == i {
        assert q == p + [i] + q[|p| + 1..];
        assert q[..|p| + 1] == p + [i];
      }
      if q in Inside(child, p + [i]) {
        assert q[..|p|] == (p + [i])[..|p|];
        assert q[|p|] == (p + [i])[|p|];
      }
      if q == p + [i] {
        assert q[|p| + 1..] == [];
      }
    }
  }

  lemma InsideMembership(n: Pattern, p: Path, q: Path)
    ensures q in Inside(n, p) <==> |p| < |q| && p == q[..|p|] && IsPath(n, q[|p|..])
    decreases n, if n.Group? then |n.children| + 1 else 0
  {
    if n.Group? {
      NodesMembership(n, p, 0, |n.children|, q);
    }
    if |p| < |q| {
      assert q[|p|..][1..] == q[|p| + 1..];
    }
  }

  lemma UnderChildOrder(p: Path, a: Path, b: Path)
    requires |p| < |a| && |p| < |b| && p == a[..|p|] == b[..|p|]
    requires a[|p|] < b[|p|]
    ensures Before(a, b)
  {
    assert a == p + a[|p|..] && b == p + b[|p|..];
    BeforePrefixed(p, a[|p|..], b[|p|..]);
  }

  lemma {:induction false} NodesIncreasing(g: Pattern, p: Path, i: nat, end: nat)
    requires g.Group? && end <= |g.children|
    ensures Increasing(Nodes(g, p, i, end))
    decreases g, end - i
  {
    if i < end {
      NodesIncreasing(g, p, i + 1, end);
      if g.children[i].Group? {
        NodesIncreasing(g.children[i], p + [i], 0, |g.children[i].children|);
      }
      ChildAndRest(g, p, i, end);
    }
  }

  lemma ChildAndRest(g: Pattern, p: Path, i: nat, end: nat)
    requires g.Group? && i < end <= |g.children|
    requires Increasing(Inside(g.children[i], p + [i])) && Increasing(Nodes(g, p, i + 1, end))
    ensures Increasing(Nodes(g, p, i, end))
  {
    ChildFirst(g.children[i], p, i);
    OuterIsLater(g, p, i + 1, end);
    ListsInOrder(p, i, [p + [i]] + Inside(g.children[i], p + [i]), Nodes(g, p, i + 1, end));
  }

  // A child comes before everything inside it.
  lemma ChildFirst(child: Pattern, p: Path, i: nat)
    requires Increasing(Inside(child, p + [i]))
    ensures var first := [p + [i]] + Inside(child, p + [i]);
      Increasing(first) && forall q :: q in first ==> |p| < |q| && p == q[..|p|] && q[|p|] == i
  {
    var inner := Inside(child, p + [i]);
    forall q | q in inner ensures Before(p + [i], q) && |p| < |q| && p == q[..|p|] && q[|p|] == i {
      BelowChild(child, p, i, q);
    }
    IncreasingConcat([p + [i]], inner);
  }

  lemma OuterIsLater(g: Pattern, p: Path, i: nat, end: nat)
    requires g.Group? && end <= |g.children|
    ensures forall q :: q in Nodes(g, p, i, end) ==> |p| < |q| && p == q[..|p|] && i <= q[|p|]
  {
    forall q | q in Nodes(g, p, i, end) ensures |p| < |q| && p == q[..|p|] && i <= q[|p|] {
      NodesMembership(g, p, i, end, q);
    }
  }

  // Two increasing lists below p, one in child i, the other in later children.
  lemma ListsInOrder(p: Path, i: nat, inner: seq<Path>, outer: seq<Path>)
    requires Increasing(inner) && Increasing(outer)
    requires forall q :: q in inner ==> |p| < |q| && p == q[..|p|] && q[|p|] == i
    requires forall q :: q in outer ==> |p| < |q| && p == q[..|p|] && i < q[|p|]
    ensures Increasing(inner + outer)
  {
    forall a, b | a in inner && b in outer ensures Before(a, b) {
      UnderChildOrder(p, a, b);
    }
    IncreasingConcat(inner, outer);
  }

  lemma BelowChild(child: Pattern, p: Path, i: nat, q: Path)
    requires q in Inside(child, p + [i])
    ensures Before(p + [i], q) && |p| < |q| && p == q[..|p|] && q[|p|] == i
  {
    InsideMembership(child, p + [i], q);
    assert q == (p + [i]) + q[|p| + 1..];
    assert p + [i] == (p + [i]) + [];
    BeforePrefixed(p + [i], [], q[|p| + 1..]);
    assert q[..|p|] == (p + [i])[..|p|];
  }

  lemma IncreasingConcat(ps: seq<Path>, qs: seq<Path>)
    requires Increasing(ps) && Increasing(qs)
    requires forall a, b :: a in ps && b in qs ==> Before(a, b)
    ensures Increasing(ps + qs)
  {
  }

  // Together with VisitsPreorder: every node of the tree is visited exactly once, ancestors
  // before descendants and siblings from left to right.
  lemma PreorderListsEveryNodeOnce(root: Pattern)
    requires root.Group?
    ensures forall q: Path :: q in Preorder(root) <==> q != [] && IsPath(root, q)
    ensures Increasing(Preorder(root))
    ensures forall i, j :: 0 <= i < j < |Preorder(root)| ==> Preorder(root)[i] != Preorder(root)[j]
  {
    forall q: Path ensures q in Preorder(root) <==> q != [] && IsPath(root, q) {
      InsideMembership(root, [], q);
      assert q[0..] == q;
    }
    NodesIncreasing(root, [], 0, |root.children|);
    forall i, j | 0 <= i < j < |Preorder(root)| ensures Preorder(root)[i] != Preorder(root)[j] {
      BeforeIsStrict(Preorder(root)[i]);
    }
  }

  // ----- the traverser object -----

  class DepthFirstTraverser {
    const root: Pattern
    var stack: Stack

    ghost predicate Valid()
      reads this
    {
      root.Group? && NoEmptyGroups(root) && ValidStack(root, stack)
    }

    constructor (g: Pattern)
      requires g.Group? && NoEmptyGroups(g)
      ensures Valid() && root == g && stack == Start(g)
    {
      root := g;
      stack := if g.children == [] then [] else [Context([], 0, |g.children|)];
    }

    method AdvanceSibling()
      requires Valid()
      modifies this
      ensures Valid() && stack == NextSibling(old(stack))
    {
      if stack == [] { return; }
      NextSiblingValid(root, stack);
      stack := stack[|stack| - 1 := Top(stack).(cur := Top(stack).cur + 1)];
      LeaveFinishedGroups();
    }

    // The loop at the end of a group: to the parent's next sibling, as long as that is an end too.
    method LeaveFinishedGroups()
      modifies this
      ensures stack == Settle(old(stack))
    {
      while stack != [] && Top(stack).cur == Top(stack).end
        invariant Settle(stack) == Settle(old(stack))
        decreases |stack|
      {
        SettleStep(stack);
        stack := stack[..|stack| - 1];
        if stack == [] { return; }
        stack := stack[|stack| - 1 := Top(stack).(cur := Top(stack).cur + 1)];
      }
    }

    method Advance()
      requires Valid()
      modifies this
      ensures Valid() && stack == Next(root, old(stack))
    {
      if stack == [] { return; }
      NextVisitsHead(root, stack);
      var top := stack[|stack| - 1];
      var child := At(root, top.parent).children[top.cur];
      if child.Group? {
        stack := stack + [Context(top.parent + [top.cur], 0, |child.children|)];
      } else {
        AdvanceSibling();
      }
    }

    method AdvanceAfterSiblings()
      requires Valid()
      modifies this
      ensures Valid() && stack == NextAfterSiblings(old(stack))
    {
      if stack == [] { return; }
      NextAfterSiblingsRemaining(root, stack);
      stack := stack[|stack| - 1 := Top(stack).(cur := Top(stack).end - 1)];
      AdvanceSibling();
    }

    method PutBack(m: Memento)
      requires Valid() && (m.level >= 1 ==> ValidContext(root, m.context))
      modifies this
      ensures Valid() && stack == Undo(old(stack), m)
    {
      if m.level < 1 { return; }
      if m.level <= |stack| {
        stack := stack[..m.level];
        stack := stack[|stack| - 1 := m.context];
      } else if stack == [] && m.level == 1 {
        stack := [m.context];
      }
    }

    method Invalidate()
      requires Valid()
      modifies this
      ensures Valid() && stack == []
    {
      stack := [];
    }

    method RetreatTo(g: Option<Path>)
      requires Valid()
      modifies this
      ensures Valid() && stack == BackToAncestor(root, old(stack), g)
    {
      if g == None { return; }
      while stack != []
        invariant Valid()
        invariant BackToAncestor(root, stack, g) == BackToAncestor(root, old(stack), g)
        decreases |stack|
      {
        var top := stack[|stack| - 1];
        if At(root, top.parent).children[top.cur].Group? && top.parent + [top.cur] == g.value { return; }
        stack := stack[..|stack| - 1];
      }
    }

    method AtLastInPath() returns (last: bool)
      requires Valid()
      ensures last == IsLastInPath(root, stack)
      ensures stack != [] ==> (last <==> Next(root, stack) == [])
    {
      if stack == [] { return false; }
      LastInPathIffNextEmpties(root, stack);
      for i := 0 to |stack|
        invariant forall k :: 0 <= k < i ==> stack[k].cur + 1 == stack[k].end
      {
        if stack[i].cur + 1 != stack[i].end { return false; }
      }
      var top := stack[|stack| - 1];
      return !At(root, top.parent).children[top.cur].Group?;
    }
  }
}
