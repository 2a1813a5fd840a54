// The command line parser's traverser, with scopes to fall back to.
module ScopedTraverser {
  import opened Traverser

  // It skips parameters that are shut off by unmatched blocking parameters, and falling back to a
  // saved scope may move the position backwards.

  datatype Scoped = Scoped(
    pos: Stack,
    lastMatch: Stack,
    posAfter: Stack,
    scopes: seq<Memento>,
    ignoreBlocks: bool,
    repeatContinues: bool)

  predicate ValidScopes(root: Pattern, scopes: seq<Memento>) {
    forall i :: 0 <= i < |scopes| && scopes[i].level >= 1 ==> ValidContext(root, scopes[i].context)
  }

  predicate WellFormed(root: Pattern, st: Scoped) {
    root.Group? && NoEmptyGroups(root)
    && ValidStack(root, st.pos) && ValidStack(root, st.lastMatch) && ValidStack(root, st.posAfter)
    && ValidScopes(root, st.scopes)
  }

  // ----- queries -----

  // The outermost blocking group that would be left on the next step.
  function OutermostExplored(root: Pattern, s: Stack, g: Option<Path>): Option<Path>
    requires ValidStack(root, s)
    decreases |s|
  {
    if s == [] || Top(s).cur + 1 != Top(s).end then g
    else OutermostExplored(root, Below(s), if At(root, Top(s).parent).blocking then Some(Top(s).parent) else g)
  }

  predicate IsInside(s: Stack, g: Path) {
    exists i :: 0 <= i < |s| && s[i].parent == g
  }

  function InnermostRepeatGroup(root: Pattern, s: Stack): Option<Path>
    requires ValidStack(root, s)
    decreases |s|
  {
    if s == [] then None
    else if At(root, Top(s).parent).repeatable then Some(Top(s).parent)
    else InnermostRepeatGroup(root, Below(s))
  }

  predicate RepeatContinues(root: Pattern, st: Scoped)
    requires WellFormed(root, st)
  {
    st.repeatContinues
    && InnermostRepeatGroup(root, st.pos) != None
    && InnermostRepeatGroup(root, st.pos) == InnermostRepeatGroup(root, st.lastMatch)
    && st.posAfter != []
  }

  // ----- scopes -----

  function TopScope(scopes: seq<Memento>): Memento
    requires scopes != []
  {
    scopes[|scopes| - 1]
  }

  // Puts back scopes from the top while their level is at least |pos| + slack.
  function Unwind(pos: Stack, scopes: seq<Memento>, slack: nat): (Stack, seq<Memento>)
    decreases |scopes|
  {
    if scopes == [] || TopScope(scopes).level < |pos| + slack then (pos, scopes)
    else Unwind(Undo(pos, TopScope(scopes)), scopes[..|scopes| - 1], slack)
  }

  // Puts back every scope, innermost first.
  function UnwindAll(pos: Stack, scopes: seq<Memento>): Stack
    decreases |scopes|
  {
    if scopes == [] then pos else UnwindAll(Undo(pos, TopScope(scopes)), scopes[..|scopes| - 1])
  }

  function CheckLeftScope(root: Pattern, st: Scoped): (r: Scoped)
    requires WellFormed(root, st)
    // scopes are given up from the innermost one on, and only that moves the position
    ensures WellFormed(root, r) && r.scopes <= st.scopes
    ensures |r.scopes| == |st.scopes| ==> r.pos == st.pos
    // the innermost scope left is not deeper than the position
    ensures r.scopes != [] ==> TopScope(r.scopes).level <= |r.pos|
  {
    var left := st.posAfter != [] && |st.pos| < |st.posAfter|;
    var (p1, s1) := if left then Unwind(st.pos, st.scopes, 0) else (st.pos, st.scopes);
    UnwindValid(root, st.pos, st.scopes, 0);
    var (p2, s2) := Unwind(p1, s1, 1);
    UnwindValid(root, p1, s1, 1);
    var r := st.(pos := p2, scopes := s2, posAfter := if left then [] else st.posAfter);
    r.(repeatContinues := RepeatContinues(root, r))
  }

  function ReturnToOutermost(root: Pattern, st: Scoped): (r: Scoped)
    requires WellFormed(root, st)
    ensures WellFormed(root, r) && r.scopes == []
    ensures st.scopes == [] ==> r.pos == []
  {
    var a := st.(posAfter := []);
    if st.scopes == [] then a.(pos := [], repeatContinues := false)
    else
      UnwindAllValid(root, st.pos, st.scopes);
      var b := a.(pos := UnwindAll(st.pos, st.scopes), scopes := []);
      b.(repeatContinues := RepeatContinues(root, b))
  }

  lemma {:induction false} UnwindValid(root: Pattern, pos: Stack, scopes: seq<Memento>, slack: nat)
    requires ValidStack(root, pos) && ValidScopes(root, scopes)
    ensures var (p, s) := Unwind(pos, scopes, slack);
      ValidStack(root, p) && ValidScopes(root, s) && s <= scopes
      && (|s| == |scopes| ==> p == pos)
      && (s != [] ==> TopScope(s).level < |p| + slack)
    decreases |scopes|
  {
    if scopes != [] && TopScope(scopes).level >= |pos| + slack {
      UnwindValid(root, Undo(pos, TopScope(scopes)), scopes[..|scopes| - 1], slack);
    }
  }

  lemma {:induction false} UnwindAllValid(root: Pattern, pos: Stack, scopes: seq<Memento>)
    requires ValidStack(root, pos) && ValidScopes(root, scopes)
    ensures ValidStack(root, UnwindAll(pos, scopes))
    decreases |scopes|
  {
    if scopes != [] {
      UnwindAllValid(root, Undo(pos, TopScope(scopes)), scopes[..|scopes| - 1]);
    }
  }

  // No scope left is deeper than the position, if each was saved at least as deep as the one before.
  lemma NoScopeIsDeeper(root: Pattern, st: Scoped)
    requires WellFormed(root, st)
    requires forall i, j :: 0 <= i < j < |st.scopes| ==> st.scopes[i].level <= st.scopes[j].level
    ensures var r := CheckLeftScope(root, st);
      forall i :: 0 <= i < |r.scopes| ==> r.scopes[i].level <= |r.pos|
  {
    var r := CheckLeftScope(root, st);
    TopIsDeepest(st.scopes, r.scopes, |r.pos|);
  }

  lemma TopIsDeepest(scopes: seq<Memento>, kept: seq<Memento>, depth: nat)
    requires kept <= scopes && (kept != [] ==> TopScope(kept).level <= depth)
    requires forall i, j :: 0 <= i < j < |scopes| ==> scopes[i].level <= scopes[j].level
    ensures forall i :: 0 <= i < |kept| ==> kept[i].level <= depth
  {
    forall i | 0 <= i < |kept| ensures kept[i].level <= depth {
      assert kept[i] == scopes[i] && TopScope(kept) == scopes[|kept| - 1];
    }
  }

  // The outermost scope is within the position, and no other scope is above it. Level 0 was saved
  // nowhere in the tree and restores nothing.
  predicate Outermost(depth: nat, scopes: seq<Memento>)
    requires scopes != []
  {
    && 1 <= scopes[0].level <= depth
    && forall i :: 0 < i < |scopes| ==> scopes[i].level < 1 || scopes[0].level <= scopes[i].level
  }

  lemma {:induction false} UnwindingOnlyShrinks(pos: Stack, scopes: seq<Memento>)
    requires pos != []
    ensures UnwindAll(pos, scopes) != [] && |UnwindAll(pos, scopes)| <= |pos|
    decreases |scopes|
  {
    if scopes != [] { UnwindingOnlyShrinks(Undo(pos, TopScope(scopes)), scopes[..|scopes| - 1]); }
  }

  // Falling back from inside the tree lands on the outermost saved scope, its own saved child under
  // the groups that were open around it, exactly when no other scope is above it; otherwise it ends
  // up higher than that scope.
  lemma {:induction false} OutermostScopeIsRestored(pos: Stack, scopes: seq<Memento>)
    requires pos != [] && scopes != []
    ensures Outermost(|pos|, scopes) ==>
      UnwindAll(pos, scopes) == pos[..scopes[0].level - 1] + [scopes[0].context]
    ensures scopes[0].level >= 1 && !Outermost(|pos|, scopes) ==> |UnwindAll(pos, scopes)| < scopes[0].level
    decreases |scopes|
  {
    var m := TopScope(scopes);
    var rest, up := scopes[..|scopes| - 1], Undo(pos, m);
    if rest == [] {
      assert UnwindAll(up, rest) == up;
    } else {
      assert scopes[0] == rest[0];
      OutermostScopeIsRestored(up, rest);
      if 1 <= m.level < scopes[0].level {
        UnwindingOnlyShrinks(up, rest);
      } else {
        SameOutermost(pos, scopes);
      }
    }
  }

  // Undoing a scope that is not above the outermost one changes nothing for it.
  lemma SameOutermost(pos: Stack, scopes: seq<Memento>)
    requires pos != [] && |scopes| > 1 && (TopScope(scopes).level < 1 || scopes[0].level <= TopScope(scopes).level)
    ensures var up, rest := Undo(pos, TopScope(scopes)), scopes[..|scopes| - 1];
      (Outermost(|pos|, scopes) <==> Outermost(|up|, rest))
      && (Outermost(|pos|, scopes) ==> up[..scopes[0].level - 1] == pos[..scopes[0].level - 1])
  {
    var rest := scopes[..|scopes| - 1];
    assert forall i :: 0 < i < |rest| ==> rest[i] == scopes[i];
    assert forall i :: 0 < i < |scopes| ==> i < |rest| || scopes[i] == TopScope(scopes);
  }

  // The outermost scope saved in the root group, if any.
  function RootScope(scopes: seq<Memento>): Option<Context> {
    if scopes == [] then None
    else
      var before := RootScope(scopes[..|scopes| - 1]);
      if before.Some? then before
      else if TopScope(scopes).level == 1 then Some(TopScope(scopes).context) else None
  }

  lemma {:induction false} UnwindInRoot(c: Context, scopes: seq<Memento>)
    ensures UnwindAll([c], scopes) == [if RootScope(scopes).Some? then RootScope(scopes).value else c]
    decreases |scopes|
  {
    if scopes != [] {
      var m := TopScope(scopes);
      assert Undo([c], m) == [if m.level == 1 then m.context else c];
      UnwindInRoot(if m.level == 1 then m.context else c, scopes[..|scopes| - 1]);
    }
  }

  // Falling back after running off the tree lands on the outermost scope of the root group; scopes
  // inside other groups cannot be restored, and without one of the root group the search is over.
  lemma {:induction false} FallingBackFromTheEnd(scopes: seq<Memento>)
    ensures UnwindAll([], scopes) == if RootScope(scopes).Some? then [RootScope(scopes).value] else []
    decreases |scopes|
  {
    if scopes != [] {
      var m := TopScope(scopes);
      var rest := scopes[..|scopes| - 1];
      if m.level == 1 {
        assert Undo([], m) == [m.context];
        UnwindInRoot(m.context, rest);
      } else {
        FallingBackFromTheEnd(rest);
      }
    }
  }

  // ----- one step -----

  // Where the step goes before scopes are checked; [] when it runs off the end of the tree.
  function StepPosition(root: Pattern, st: Scoped): Stack
    requires WellFormed(root, st) && st.pos != []
  {
    if st.ignoreBlocks || SamePosition(st.pos, st.lastMatch) || Current(root, st.pos).Group? then
      Next(root, st.pos)
    else
      var g := OutermostExplored(root, st.pos, None);
      if g.Some? && !IsInside(st.lastMatch, g.value) then SkipGroup(root, st.pos, g)
      else if Current(root, st.pos).blocking then
        if At(root, Top(st.pos).parent).exclusive then NextSibling(st.pos) else NextAfterSiblings(st.pos)
      else Next(root, st.pos)
  }

  function SkipGroup(root: Pattern, s: Stack, g: Option<Path>): Stack
    requires ValidStack(root, s) && s != []
  {
    BackToAncestorPrefix(root, s, g);
    NextAfterSiblings(BackToAncestor(root, s, g))
  }

  // Only the two skipping branches fall back to the outermost scope by themselves.
  predicate Skips(root: Pattern, st: Scoped)
    requires WellFormed(root, st) && st.pos != []
  {
    && !st.ignoreBlocks && !SamePosition(st.pos, st.lastMatch) && !Current(root, st.pos).Group?
    && (var g := OutermostExplored(root, st.pos, None);
        (g.Some? && !IsInside(st.lastMatch, g.value)) || Current(root, st.pos).blocking)
  }

  // The step before scopes are checked.
  function Stepped(root: Pattern, st: Scoped): (r: Scoped)
    requires WellFormed(root, st) && st.pos != []
    ensures WellFormed(root, r)
  {
    StepPositionAdvances(root, st);
    var moved := st.(pos := StepPosition(root, st));
    if Skips(root, st) && moved.pos == [] then ReturnToOutermost(root, moved) else moved
  }

  function ScopedNext(root: Pattern, st: Scoped): (r: Scoped)
    requires WellFormed(root, st)
    ensures WellFormed(root, r)
  {
    if st.pos == [] then st
    else if IsLastInPath(root, st.pos) then ReturnToOutermost(root, st)
    else CheckLeftScope(root, Stepped(root, st))
  }

  lemma {:induction false} BackToAncestorPrefix(root: Pattern, s: Stack, g: Option<Path>)
    requires ValidStack(root, s)
    ensures BackToAncestor(root, s, g) <= s
    ensures ValidStack(root, BackToAncestor(root, s, g))
    decreases |s|
  {
    if s != [] {
      BackToAncestorPrefix(root, Below(s), g);
    }
  }

  predicate ProperSuffix(a: seq<Path>, b: seq<Path>) {
    |a| < |b| && a == b[|b| - |a|..]
  }

  lemma {:induction false} PendingOfPrefix(root: Pattern, s: Stack, k: nat) returns (front: seq<Path>)
    requires ValidStack(root, s) && k <= |s|
    ensures ValidStack(root, s[..k]) && Pending(root, s) == front + Pending(root, s[..k])
    decreases |s|
  {
    if k == |s| {
      front := [];
      assert s[..k] == s;
    } else {
      var rest := PendingOfPrefix(root, Below(s), k);
      assert Below(s)[..k] == s[..k];
      front := PendingHere(root, s) + rest;
      Associate(PendingHere(root, s), rest, Pending(root, s[..k]));
    }
  }

  // What is pending in the innermost group.
  function PendingHere(root: Pattern, s: Stack): (here: seq<Path>)
    requires ValidStack(root, s) && s != []
    ensures Pending(root, s) == here + Pending(root, Below(s))
  {
    Nodes(At(root, Top(s).parent), Top(s).parent, Top(s).cur + 1, Top(s).end)
  }

  // What is pending outside the first k groups is a proper suffix of what remains.
  lemma OuterPendingIsProperSuffix(root: Pattern, s: Stack, k: nat)
    requires ValidStack(root, s) && s != [] && k <= |s|
    ensures ValidStack(root, s[..k]) && ProperSuffix(Pending(root, s[..k]), Remaining(root, s))
  {
    var front := PendingOfPrefix(root, s, k);
    var inside := [Position(s)] + Inside(Current(root, s), Position(s));
    Associate(inside, front, Pending(root, s[..k]));
    TailIsProperSuffix(inside + front, Pending(root, s[..k]));
  }

  lemma TailIsProperSuffix(a: seq<Path>, b: seq<Path>)
    requires a != []
    ensures ProperSuffix(b, a + b)
  {
  }

  lemma SkipGroupRemaining(root: Pattern, s: Stack, g: Option<Path>)
    requires ValidStack(root, s) && s != []
    ensures ValidStack(root, BackToAncestor(root, s, g)) && ValidStack(root, SkipGroup(root, s, g))
    ensures var a := BackToAncestor(root, s, g);
      Remaining(root, SkipGroup(root, s, g)) == if a == [] then [] else Pending(root, Below(a))
  {
    BackToAncestorPrefix(root, s, g);
    var a := BackToAncestor(root, s, g);
    if a != [] { NextAfterSiblingsRemaining(root, a); }
  }

  lemma SkipGroupAdvances(root: Pattern, s: Stack, g: Option<Path>)
    requires ValidStack(root, s) && s != []
    ensures ValidStack(root, SkipGroup(root, s, g))
    ensures ProperSuffix(Remaining(root, SkipGroup(root, s, g)), Remaining(root, s))
  {
    SkipGroupRemaining(root, s, g);
    BackToAncestorPrefix(root, s, g);
    var a := BackToAncestor(root, s, g);
    if a == [] {
      EmptyIsProperSuffix(Remaining(root, s));
    } else {
      PrefixPendingIsProperSuffix(root, s, a);
    }
  }

  lemma PrefixPendingIsProperSuffix(root: Pattern, s: Stack, a: Stack)
    requires ValidStack(root, s) && a != [] && a <= s
    ensures ValidStack(root, a) && ProperSuffix(Pending(root, Below(a)), Remaining(root, s))
  {
    assert Below(a) == s[..|a| - 1];
    OuterPendingIsProperSuffix(root, s, |a| - 1);
  }

  lemma EmptyIsProperSuffix(ps: seq<Path>)
    requires ps != []
    ensures ProperSuffix([], ps)
  {
  }

  lemma SiblingStepsAdvance(root: Pattern, s: Stack)
    requires ValidStack(root, s) && s != []
    ensures ValidStack(root, NextSibling(s)) && ValidStack(root, NextAfterSiblings(s))
    ensures ProperSuffix(Remaining(root, NextSibling(s)), Remaining(root, s))
    ensures ProperSuffix(Remaining(root, NextAfterSiblings(s)), Remaining(root, s))
  {
    NextSiblingRemaining(root, s);
    OuterPendingIsProperSuffix(root, s, |s|);
    assert s[..|s|] == s;
    NextAfterSiblingsRemaining(root, s);
    OuterPendingIsProperSuffix(root, s, |s| - 1);
  }

  // A step moves on to a proper suffix of what plain traversal would still visit.
  lemma StepPositionAdvances(root: Pattern, st: Scoped)
    requires WellFormed(root, st) && st.pos != []
    ensures ValidStack(root, StepPosition(root, st))
    ensures ProperSuffix(Remaining(root, StepPosition(root, st)), Remaining(root, st.pos))
  {
    var g := OutermostExplored(root, st.pos, None);
    if !Skips(root, st) {
      NextVisitsHead(root, st.pos);
    } else if g.Some? && !IsInside(st.lastMatch, g.value) {
      SkipGroupAdvances(root, st.pos, g);
    } else {
      SiblingStepsAdvance(root, st.pos);
    }
  }

  // ----- termination and order -----

  // Every step lowers (saved scopes, nodes still ahead) lexicographically, although a step may
  // put back a scope and move the position backwards.
  lemma StepLowersMeasure(root: Pattern, st: Scoped)
    requires WellFormed(root, st) && st.pos != []
    ensures var r := ScopedNext(root, st);
      |r.scopes| < |st.scopes|
      || (|r.scopes| == |st.scopes| && |Remaining(root, r.pos)| < |Remaining(root, st.pos)|)
  {
    StepPositionAdvances(root, st);
    NextVisitsHead(root, st.pos);
  }

  lemma WithoutScopesStepIsPosition(root: Pattern, st: Scoped)
    requires WellFormed(root, st) && st.pos != [] && st.scopes == [] && !IsLastInPath(root, st.pos)
    ensures ValidStack(root, StepPosition(root, st))
    ensures ScopedNext(root, st).pos == StepPosition(root, st) && ScopedNext(root, st).scopes == []
  {
    StepPositionAdvances(root, st);
  }

  // Without saved scopes the position never moves backwards: what is left after a step is a
  // proper suffix of what was left before it.
  lemma NeverBackwardsWithoutScopes(root: Pattern, st: Scoped)
    requires WellFormed(root, st) && st.pos != [] && st.scopes == []
    ensures ScopedNext(root, st).scopes == []
    ensures ProperSuffix(Remaining(root, ScopedNext(root, st).pos), Remaining(root, st.pos))
  {
    NextVisitsHead(root, st.pos);
    if IsLastInPath(root, st.pos) {
      assert ScopedNext(root, st).pos == [];
    } else {
      WithoutScopesStepIsPosition(root, st);
      StepPositionAdvances(root, st);
    }
  }

  function Steps(root: Pattern, st: Scoped, k: nat): (r: Scoped)
    requires WellFormed(root, st)
    ensures WellFormed(root, r)
  {
    if k == 0 then st else ScopedNext(root, Steps(root, st, k - 1))
  }

  lemma OneMoreStep(root: Pattern, st: Scoped, k: nat)
    requires WellFormed(root, st)
    ensures Steps(root, st, k + 1) == ScopedNext(root, Steps(root, st, k))
  {
  }

  lemma {:induction false} StepsFromNext(root: Pattern, st: Scoped, k: nat)
    requires WellFormed(root, st)
    ensures Steps(root, st, k + 1) == Steps(root, ScopedNext(root, st), k)
  {
    if k > 0 {
      StepsFromNext(root, st, k - 1);
      OneMoreStep(root, st, k);
      OneMoreStep(root, ScopedNext(root, st), k - 1);
    }
  }

  // From every well-formed state the traverser runs dry after finitely many steps.
  lemma {:induction false} EverySearchEnds(root: Pattern, st: Scoped)
    requires WellFormed(root, st)
    ensures exists k :: Steps(root, st, k).pos == []
    decreases |st.scopes|, |Remaining(root, st.pos)|
  {
    if st.pos == [] {
      assert Steps(root, st, 0).pos == [];
    } else {
      StepLowersMeasure(root, st);
      var t := ScopedNext(root, st);
      EverySearchEnds(root, t);
      var k :| Steps(root, t, k).pos == [];
      StepsFromNext(root, st, k);
    }
  }

  lemma IgnoringBlocksStep(root: Pattern, st: Scoped)
    requires WellFormed(root, st) && st.ignoreBlocks && st.scopes == []
    ensures ScopedNext(root, st).pos == Next(root, st.pos)
    ensures ScopedNext(root, st).ignoreBlocks && ScopedNext(root, st).scopes == []
  {
    if st.pos != [] {
      LastInPathIffNextEmpties(root, st.pos);
    }
  }

  // With blocking ignored and no scope saved, the scoped traverser is the plain one.
  lemma {:induction false} IgnoringBlocksIsPlainTraversal(root: Pattern, st: Scoped, k: nat)
    requires WellFormed(root, st) && st.ignoreBlocks && st.scopes == []
    ensures Steps(root, st, k).pos == Run(root, st.pos, k)
    ensures Steps(root, st, k).ignoreBlocks && Steps(root, st, k).scopes == []
  {
    if k > 0 {
      IgnoringBlocksIsPlainTraversal(root, st, k - 1);
      IgnoringBlocksStep(root, Steps(root, st, k - 1));
    }
  }

  // ----- the search loop -----

  predicate Hit(root: Pattern, s: Stack, accepts: Pattern -> bool)
    requires ValidStack(root, s)
  {
    s != [] && Current(root, s).Param? && accepts(Current(root, s))
  }

  predicate KeepsSearching(root: Pattern, st: Scoped, accepts: Pattern -> bool)
    requires WellFormed(root, st)
  {
    st.pos != [] && !Hit(root, st.pos, accepts)
  }

  // The search got from st to r in k steps without stopping.
  ghost predicate SearchedTo(root: Pattern, st: Scoped, accepts: Pattern -> bool, k: nat, r: Scoped)
    requires WellFormed(root, st)
  {
    r == Steps(root, st, k) && forall j :: 0 <= j < k ==> KeepsSearching(root, Steps(root, st, j), accepts)
  }

  lemma SearchOneMore(root: Pattern, st: Scoped, accepts: Pattern -> bool, k: nat, r: Scoped)
    requires WellFormed(root, st) && SearchedTo(root, st, accepts, k, r)
    requires KeepsSearching(root, r, accepts)
    ensures SearchedTo(root, st, accepts, k + 1, ScopedNext(root, r))
  {
  }

  // A fresh search that ignores blocking hits the first acceptable parameter of the preorder
  // listing, and comes back empty only when the tree has none.
  lemma FreshSearchFindsFirstInPreorder(root: Pattern, st: Scoped, accepts: Pattern -> bool, k: nat)
    requires WellFormed(root, st) && st.pos == Start(root) && st.scopes == [] && st.ignoreBlocks
    requires SearchedTo(root, st, accepts, k, Steps(root, st, k))
    requires !KeepsSearching(root, Steps(root, st, k), accepts)
    ensures k <= |Preorder(root)|
    ensures forall q: Path :: q in Preorder(root) ==> IsPath(root, q)
    ensures forall j :: 0 <= j < k ==>
      At(root, Preorder(root)[j]).Param? ==> !accepts(At(root, Preorder(root)[j]))
    ensures k == |Preorder(root)| <==> Steps(root, st, k).pos == []
    ensures k < |Preorder(root)| ==>
      Position(Steps(root, st, k).pos) == Preorder(root)[k]
      && At(root, Preorder(root)[k]).Param? && accepts(At(root, Preorder(root)[k]))
  {
    PreorderListsEveryNodeOnce(root);
    VisitsPreorder(root, |Preorder(root)|);
    IgnoringBlocksIsPlainTraversal(root, st, |Preorder(root)|);
    if k > |Preorder(root)| {
      assert false;
    }
    forall j | 0 <= j < |Preorder(root)|
      ensures Steps(root, st, j).pos == Run(root, st.pos, j) != []
      ensures Position(Run(root, st.pos, j)) == Preorder(root)[j]
      ensures At(root, Preorder(root)[j]) == Current(root, Run(root, st.pos, j))
    {
      VisitsPreorder(root, j);
      IgnoringBlocksIsPlainTraversal(root, st, j);
      CurrentAtPosition(root, Run(root, st.pos, j));
    }
    IgnoringBlocksIsPlainTraversal(root, st, k);
  }

  // ----- the traverser object -----

  class ScopedDfsTraverser {
    const root: Pattern
    const pos: DepthFirstTraverser
    const lastMatch: DepthFirstTraverser
    const posAfterLastMatch: DepthFirstTraverser
    var scopes: seq<Memento>
    var ignoreBlocks: bool
    var repeatContinues: bool

    ghost predicate Valid()
      reads this, pos, lastMatch, posAfterLastMatch
    {
      pos != lastMatch && pos != posAfterLastMatch && lastMatch != posAfterLastMatch
      && pos.root == lastMatch.root == posAfterLastMatch.root == root
      && pos.Valid() && lastMatch.Valid() && posAfterLastMatch.Valid()
      && ValidScopes(root, scopes)
    }

    ghost function State(): (st: Scoped)
      reads this, pos, lastMatch, posAfterLastMatch
      requires Valid()
      ensures WellFormed(root, st)
    {
      Scoped(pos.stack, lastMatch.stack, posAfterLastMatch.stack, scopes, ignoreBlocks, repeatContinues)
    }

    constructor (g: Pattern)
      requires g.Group? && NoEmptyGroups(g)
      ensures Valid() && root == g && State() == Scoped(Start(g), [], [], [], false, false)
      ensures fresh(this) && fresh(pos) && fresh(lastMatch) && fresh(posAfterLastMatch)
    {
      root := g;
      pos := new DepthFirstTraverser(g);
      lastMatch := new DepthFirstTraverser(g);
      posAfterLastMatch := new DepthFirstTraverser(g);
      scopes := [];
      ignoreBlocks := false;
      repeatContinues := false;
      new;
      lastMatch.Invalidate();
      posAfterLastMatch.Invalidate();
    }

    method RepeatGroupContinues() returns (b: bool)
      requires Valid()
      ensures b == RepeatContinues(root, State())
    {
      var current := InnermostRepeatGroup(root, pos.stack);
      return repeatContinues && current != None
          && current == InnermostRepeatGroup(root, lastMatch.stack)
          && posAfterLastMatch.stack != [];
    }

    method CheckIfLeftScope()
      requires Valid()
      modifies this, pos, posAfterLastMatch
      ensures Valid() && State() == CheckLeftScope(root, old(State()))
    {
      if posAfterLastMatch.stack != [] {
        if |pos.stack| < |posAfterLastMatch.stack| {
          RestoreDeepScopes(0);
          posAfterLastMatch.Invalidate();
        }
      }
      RestoreDeepScopes(1);
      repeatContinues := RepeatGroupContinues();
    }

    // Puts back the saved scopes whose level is at least the depth of the position plus slack.
    method RestoreDeepScopes(slack: nat)
      requires Valid()
      modifies this, pos
      ensures Valid() && (pos.stack, scopes) == Unwind(old(pos.stack), old(scopes), slack)
      ensures ignoreBlocks == old(ignoreBlocks) && repeatContinues == old(repeatContinues)
    {
      while scopes != [] && TopScope(scopes).level >= |pos.stack| + slack
        invariant Valid() && ignoreBlocks == old(ignoreBlocks) && repeatContinues == old(repeatContinues)
        invariant Unwind(pos.stack, scopes, slack) == Unwind(old(pos.stack), old(scopes), slack)
        decreases |scopes|
      {
        pos.PutBack(TopScope(scopes));
        scopes := scopes[..|scopes| - 1];
      }
    }

    method ReturnToOutermostScope()
      requires Valid()
      modifies this, pos, posAfterLastMatch
      ensures Valid() && State() == ReturnToOutermost(root, old(State()))
    {
      posAfterLastMatch.Invalidate();
      if scopes == [] {
        pos.Invalidate();
        repeatContinues := false;
        return;
      }
      while scopes != [] && (pos.stack == [] || |pos.stack| >= 1)
        invariant Valid() && posAfterLastMatch.stack == []
        invariant ignoreBlocks == old(ignoreBlocks) && repeatContinues == old(repeatContinues)
        invariant UnwindAll(pos.stack, scopes) == UnwindAll(old(pos.stack), old(scopes))
        decreases |scopes|
      {
        pos.PutBack(TopScope(scopes));
        scopes := scopes[..|scopes| - 1];
      }
      // nothing is left for the source's second draining loop
      repeatContinues := RepeatGroupContinues();
    }

    method Advance()
      requires Valid()
      modifies this, pos, posAfterLastMatch
      ensures Valid() && State() == ScopedNext(root, old(State()))
    {
      if pos.stack == [] { return; }
      var last := pos.AtLastInPath();
      if last {
        ReturnToOutermostScope();
        return;
      }
      if ignoreBlocks || SamePosition(pos.stack, lastMatch.stack) || Current(root, pos.stack).Group? {
        StepPositionAdvances(root, State());
        pos.Advance();
      } else {
        StepOverUnmatched();
      }
      CheckIfLeftScope();
    }

    // The step from a parameter that did not match: it may shut off what follows it.
    method StepOverUnmatched()
      requires Valid() && pos.stack != [] && !ignoreBlocks
      requires !SamePosition(pos.stack, lastMatch.stack) && !Current(root, pos.stack).Group?
      modifies this, pos, posAfterLastMatch
      ensures Valid() && State() == Stepped(root, old(State()))
    {
      StepPositionAdvances(root, State());
      var g := OutermostExplored(root, pos.stack, None);
      if g.Some? && !IsInside(lastMatch.stack, g.value) {
        pos.RetreatTo(g);
        pos.AdvanceAfterSiblings();
        if pos.stack == [] { ReturnToOutermostScope(); }
      } else if Current(root, pos.stack).blocking {
        if At(root, Top(pos.stack).parent).exclusive {
          pos.AdvanceSibling();
        } else {
          pos.AdvanceAfterSiblings();
        }
        if pos.stack == [] { ReturnToOutermostScope(); }
      } else {
        pos.Advance();
      }
    }

    ghost function Ahead(): nat
      reads this, pos, lastMatch, posAfterLastMatch
      requires Valid()
    {
      |Remaining(root, pos.stack)|
    }

    // What the search has established after k steps.
    ghost predicate Searched(start: Scoped, accepts: Pattern -> bool, k: nat)
      reads this, pos, lastMatch, posAfterLastMatch
    {
      Valid() && WellFormed(root, start) && SearchedTo(root, start, accepts, k, State())
    }

    method AtHit(accepts: Pattern -> bool) returns (hit: bool)
      requires Valid()
      ensures hit == Hit(root, pos.stack, accepts)
    {
      return pos.stack != [] && Current(root, pos.stack).Param? && accepts(Current(root, pos.stack));
    }

    // One turn of the search loop.
    method Search(ghost start: Scoped, accepts: Pattern -> bool, ghost k: nat)
      requires Searched(start, accepts, k) && KeepsSearching(root, State(), accepts)
      modifies this, pos, posAfterLastMatch
      ensures Searched(start, accepts, k + 1)
      ensures |scopes| < old(|scopes|) || (|scopes| == old(|scopes|) && Ahead() < old(Ahead()))
    {
      SearchOneMore(root, start, accepts, k, State());
      StepLowersMeasure(root, State());
      Advance();
    }

    // The search loop of the parser. It stops at the first hit or when the traverser runs dry.
    method FullMatch(accepts: Pattern -> bool) returns (found: bool, ghost k: nat)
      requires Valid()
      modifies this, pos, posAfterLastMatch
      // k is the first step that does not keep searching, and the traverser stands there
      ensures Searched(old(State()), accepts, k) && !KeepsSearching(root, State(), accepts)
      ensures found <==> pos.stack != []
    {
      ghost var start := State();
      k := 0;
      while pos.stack != []
        invariant Searched(start, accepts, k)
        decreases |scopes|, Ahead()
      {
        var hit := AtHit(accepts);
        if hit { return true, k; }
        Search(start, accepts, k);
        k := k + 1;
      }
      return false, k;
    }
  }
}
