// What a step of the scoped traverser does, read off the stack and the tree.
module ScopedSteps {
  import opened Traverser
  import opened ScopedTraverser

  // ----- where the traverser stands -----

  predicate LinkAt(s: Stack, i: nat)
    requires i < |s|
  {
    s[i].parent == if i == 0 then [] else s[i - 1].parent + [s[i - 1].cur]
  }

  // Every context sits in the child that the context before it stands on.
  predicate Linked(s: Stack) {
    forall i :: 0 <= i < |s| ==> LinkAt(s, i)
  }

  // The next step leaves the groups of all contexts from i on: they stand on their last children.
  predicate AllLastFrom(s: Stack, i: nat) {
    forall j :: i <= j < |s| ==> s[j].cur + 1 == s[j].end
  }

  predicate BlocksAt(root: Pattern, s: Stack, i: nat)
    requires ValidStack(root, s) && i < |s|
  {
    AllLastFrom(s, i) && At(root, s[i].parent).blocking
  }

  // The group of context i is the outermost blocking one that the next step leaves.
  predicate OutermostLeft(root: Pattern, s: Stack, i: nat)
    requires ValidStack(root, s)
  {
    i < |s| && BlocksAt(root, s, i) && forall h :: 0 <= h < i ==> !BlocksAt(root, s, h)
  }

  // ... and nothing in it has matched.
  predicate ShutOff(root: Pattern, st: Scoped, i: nat)
    requires WellFormed(root, st)
  {
    OutermostLeft(root, st.pos, i)
    && forall k :: 0 <= k < |st.lastMatch| ==> st.lastMatch[k].parent != st.pos[i].parent
  }

  predicate OnLastMatch(st: Scoped) {
    st.pos != [] && st.lastMatch != [] && Position(st.pos) == Position(st.lastMatch)
  }

  // Context j stands on the group g, and no context further in does.
  predicate StandsOn(root: Pattern, s: Stack, j: nat, g: Path)
    requires ValidStack(root, s)
  {
    j < |s| && s[j].parent + [s[j].cur] == g && forall k :: j < k < |s| ==> s[k].parent + [s[k].cur] != g
  }

  // What is left behind the group of context i and its siblings.
  ghost predicate LeftBehind(root: Pattern, s: Stack, i: nat, left: seq<Path>)
    requires ValidStack(root, s) && i < |s|
  {
    (forall j: nat :: StandsOn(root, s, j, s[i].parent) ==> left == Pending(root, s[..j]))
    && ((forall j: nat :: !StandsOn(root, s, j, s[i].parent)) ==> left == [])
  }

  // Whether the step looks at what blocks.
  predicate MayBlock(root: Pattern, st: Scoped)
    requires WellFormed(root, st) && st.pos != []
  {
    !st.ignoreBlocks && !OnLastMatch(st) && !Current(root, st.pos).Group?
  }

  // What a step leaves to visit before scopes are looked at. After a match, inside ignored blocks
  // and at groups the node is left behind and nothing else. Otherwise the outermost blocking group
  // that would be left without a match takes its siblings with it; else a blocking parameter
  // takes its siblings with it, but in a group of alternatives only itself.
  ghost predicate Leaves(root: Pattern, st: Scoped, left: seq<Path>)
    requires WellFormed(root, st) && st.pos != []
  {
    var s := st.pos;
    if !MayBlock(root, st) then left == Remaining(root, s)[1..]
    else
      (forall i: nat :: ShutOff(root, st, i) ==> LeftBehind(root, s, i, left))
      && ((forall i: nat :: !ShutOff(root, st, i)) ==>
            left == if !Current(root, s).blocking then Remaining(root, s)[1..]
                    else if At(root, Top(s).parent).exclusive then Pending(root, s)
                    else Pending(root, Below(s)))
  }

  lemma SamePositionIffSamePath(root: Pattern, a: Stack, b: Stack)
    requires ValidStack(root, a) && ValidStack(root, b)
    ensures SamePosition(a, b) <==> a != [] && b != [] && Position(a) == Position(b)
  {
    if a != [] && b != [] && Position(a) == Position(b) {
      assert Position(a)[..|Position(a)| - 1] == Top(a).parent && Position(b)[..|Position(b)| - 1] == Top(b).parent;
      assert Position(a)[|Position(a)| - 1] == Top(a).cur && Position(b)[|Position(b)| - 1] == Top(b).cur;
    }
  }

  lemma LeftWithTop(root: Pattern, s: Stack, i: nat)
    requires ValidStack(root, s) && s != [] && Top(s).cur + 1 == Top(s).end && i < |s| - 1
    ensures BlocksAt(root, s, i) <==> BlocksAt(root, Below(s), i)
  {
    assert forall j :: 0 <= j < |s| - 1 ==> Below(s)[j] == s[j];
    assert AllLastFrom(s, i) <==> AllLastFrom(Below(s), i) by {
      if AllLastFrom(Below(s), i) {
        forall j | i <= j < |s| ensures s[j].cur + 1 == s[j].end {
          if j < |s| - 1 { assert Below(s)[j] == s[j]; }
        }
      }
    }
  }

  // No group blocks that the next step leaves.
  predicate NoneBlocks(root: Pattern, s: Stack)
    requires ValidStack(root, s)
  {
    forall i :: 0 <= i < |s| ==> !BlocksAt(root, s, i)
  }

  lemma OutermostWithTop(root: Pattern, s: Stack)
    requires ValidStack(root, s) && s != [] && Top(s).cur + 1 == Top(s).end
    ensures forall i: nat :: i < |s| - 1 ==> (OutermostLeft(root, s, i) <==> OutermostLeft(root, Below(s), i))
    ensures OutermostLeft(root, s, |s| - 1) <==> At(root, Top(s).parent).blocking && NoneBlocks(root, Below(s))
    ensures NoneBlocks(root, s) <==> !At(root, Top(s).parent).blocking && NoneBlocks(root, Below(s))
  {
    forall i | 0 <= i < |s| - 1 ensures BlocksAt(root, s, i) <==> BlocksAt(root, Below(s), i) {
      LeftWithTop(root, s, i);
    }
    assert BlocksAt(root, s, |s| - 1) <==> At(root, Top(s).parent).blocking;
  }

  lemma NoneLeft(root: Pattern, s: Stack)
    requires ValidStack(root, s) && (s == [] || Top(s).cur + 1 != Top(s).end)
    ensures NoneBlocks(root, s) && forall i: nat :: !OutermostLeft(root, s, i)
  {
    forall i | 0 <= i < |s| ensures !BlocksAt(root, s, i) {
      assert s[|s| - 1] == Top(s);
    }
  }

  lemma {:induction false} OutermostExploredIs(root: Pattern, s: Stack, g: Option<Path>)
    requires ValidStack(root, s)
    ensures forall i: nat :: OutermostLeft(root, s, i) ==> OutermostExplored(root, s, g) == Some(s[i].parent)
    ensures (OutermostExplored(root, s, g) == g && NoneBlocks(root, s)) || exists i: nat :: OutermostLeft(root, s, i)
    decreases |s|
  {
    if s == [] || Top(s).cur + 1 != Top(s).end {
      NoneLeft(root, s);
    } else {
      var t, h := Below(s), if At(root, Top(s).parent).blocking then Some(Top(s).parent) else g;
      OutermostExploredIs(root, t, h);
      OutermostWithTop(root, s);
      forall i: nat | OutermostLeft(root, s, i) ensures OutermostExplored(root, s, g) == Some(s[i].parent) {
        if i < |t| { assert OutermostLeft(root, t, i) && t[i] == s[i]; }
      }
      if i: nat :| OutermostLeft(root, t, i) {
        assert OutermostLeft(root, s, i);
      } else if At(root, Top(s).parent).blocking {
        assert OutermostLeft(root, s, |s| - 1);
      }
    }
  }

  // The retreat stops exactly where the traverser stands on the group.
  lemma {:induction false} BackToAncestorIs(root: Pattern, s: Stack, g: Path)
    requires ValidStack(root, s) && IsGroupPath(root, g)
    ensures forall j: nat :: StandsOn(root, s, j, g) ==> BackToAncestor(root, s, Some(g)) == s[..j + 1]
    ensures (forall j: nat :: !StandsOn(root, s, j, g)) ==> BackToAncestor(root, s, Some(g)) == []
    decreases |s|
  {
    if s != [] {
      CurrentAtPosition(root, s);
      if Position(s) == g {
        assert StandsOn(root, s, |s| - 1, g);
        assert s[..|s|] == s;
      } else {
        BackToAncestorIs(root, Below(s), g);
        forall j: nat ensures StandsOn(root, s, j, g) <==> StandsOn(root, Below(s), j, g) {
          assert forall k :: 0 <= k < |s| - 1 ==> Below(s)[k] == s[k];
          assert s[|s| - 1] == Top(s);
        }
        forall j: nat | StandsOn(root, s, j, g) ensures BackToAncestor(root, s, Some(g)) == s[..j + 1] {
          assert Below(s)[..j + 1] == s[..j + 1];
        }
      }
    }
  }

  lemma SkippedGroupLeaves(root: Pattern, s: Stack, i: nat)
    requires ValidStack(root, s) && i < |s|
    ensures ValidStack(root, SkipGroup(root, s, Some(s[i].parent)))
    ensures LeftBehind(root, s, i, Remaining(root, SkipGroup(root, s, Some(s[i].parent))))
  {
    var g := s[i].parent;
    SkipGroupRemaining(root, s, Some(g));
    BackToAncestorIs(root, s, g);
    forall j: nat | StandsOn(root, s, j, g)
      ensures Remaining(root, SkipGroup(root, s, Some(g))) == Pending(root, s[..j])
    {
      assert Below(s[..j + 1]) == s[..j];
    }
  }

  // The group shut off, in the terms of the code.
  lemma ShutOffGroup(root: Pattern, st: Scoped)
    requires WellFormed(root, st) && st.pos != []
    ensures var g := OutermostExplored(root, st.pos, None);
      (forall i: nat :: ShutOff(root, st, i) ==>
         g == Some(st.pos[i].parent) && !IsInside(st.lastMatch, st.pos[i].parent))
      && ((forall i: nat :: !ShutOff(root, st, i)) ==> g.None? || IsInside(st.lastMatch, g.value))
  {
    OutermostExploredIs(root, st.pos, None);
    if i: nat :| OutermostLeft(root, st.pos, i) {
      if !ShutOff(root, st, i) {
        var k :| 0 <= k < |st.lastMatch| && st.lastMatch[k].parent == st.pos[i].parent;
        assert IsInside(st.lastMatch, st.pos[i].parent);
      }
    }
  }

  lemma StepOverShutOffGroup(root: Pattern, st: Scoped, i: nat)
    requires WellFormed(root, st) && st.pos != [] && MayBlock(root, st) && ShutOff(root, st, i)
    ensures ValidStack(root, StepPosition(root, st))
    ensures StepPosition(root, st) == SkipGroup(root, st.pos, Some(st.pos[i].parent))
    ensures LeftBehind(root, st.pos, i, Remaining(root, StepPosition(root, st)))
  {
    SamePositionIffSamePath(root, st.pos, st.lastMatch);
    ShutOffGroup(root, st);
    SkippedGroupLeaves(root, st.pos, i);
  }

  lemma StepOverParameter(root: Pattern, st: Scoped)
    requires WellFormed(root, st) && st.pos != [] && MayBlock(root, st) && forall i: nat :: !ShutOff(root, st, i)
    ensures ValidStack(root, StepPosition(root, st))
    ensures var s, left := st.pos, Remaining(root, StepPosition(root, st));
      left == if !Current(root, s).blocking then Remaining(root, s)[1..]
              else if At(root, Top(s).parent).exclusive then Pending(root, s)
              else Pending(root, Below(s))
  {
    SamePositionIffSamePath(root, st.pos, st.lastMatch);
    ShutOffGroup(root, st);
    NextVisitsHead(root, st.pos);
    NextSiblingRemaining(root, st.pos);
    NextAfterSiblingsRemaining(root, st.pos);
  }

  lemma PlainStep(root: Pattern, st: Scoped)
    requires WellFormed(root, st) && st.pos != [] && !MayBlock(root, st)
    ensures ValidStack(root, StepPosition(root, st))
    ensures Remaining(root, StepPosition(root, st)) == Remaining(root, st.pos)[1..]
  {
    SamePositionIffSamePath(root, st.pos, st.lastMatch);
    NextVisitsHead(root, st.pos);
  }

  // One step before scopes are looked at, whatever scopes there are.
  lemma StepPositionLeaves(root: Pattern, st: Scoped)
    requires WellFormed(root, st) && st.pos != []
    ensures ValidStack(root, StepPosition(root, st))
    ensures Leaves(root, st, Remaining(root, StepPosition(root, st)))
  {
    StepPositionAdvances(root, st);
    if !MayBlock(root, st) {
      PlainStep(root, st);
    } else if j: nat :| ShutOff(root, st, j) {
      forall i: nat | ShutOff(root, st, i)
        ensures LeftBehind(root, st.pos, i, Remaining(root, StepPosition(root, st)))
      {
        StepOverShutOffGroup(root, st, i);
      }
    } else {
      StepOverParameter(root, st);
    }
  }

  // At the very last node nothing is left, whichever way the step goes.
  lemma LastStepLeavesNothing(root: Pattern, st: Scoped)
    requires WellFormed(root, st) && st.pos != []
    ensures ValidStack(root, StepPosition(root, st))
    ensures |Remaining(root, st.pos)| == 1 <==> IsLastInPath(root, st.pos)
    ensures IsLastInPath(root, st.pos) ==> StepPosition(root, st) == []
    ensures StepPosition(root, st) == [] && !Skips(root, st) ==> IsLastInPath(root, st.pos)
  {
    StepPositionAdvances(root, st);
    NextVisitsHead(root, st.pos);
    LastInPathIffNextEmpties(root, st.pos);
  }

  // The whole step. At the last node the scopes are put back onto the position as it is, behind a
  // skip that runs off the tree onto none.
  lemma StepIs(root: Pattern, st: Scoped) returns (p: Stack)
    requires WellFormed(root, st) && st.pos != []
    ensures ValidStack(root, p) && Leaves(root, st, Remaining(root, p))
    ensures ScopedNext(root, st) ==
      if |Remaining(root, st.pos)| == 1 then ReturnToOutermost(root, st)
      else if p == [] then CheckLeftScope(root, ReturnToOutermost(root, st.(pos := [])))
      else CheckLeftScope(root, st.(pos := p))
  {
    StepPositionLeaves(root, st);
    LastStepLeavesNothing(root, st);
    p := StepPosition(root, st);
  }

  // Without saved scopes, what a step hides: nothing but the current node, or the siblings of an
  // unmatched blocking group or parameter.
  lemma StepHidesOnlyWhatIsBlocked(root: Pattern, st: Scoped)
    requires WellFormed(root, st) && st.pos != [] && st.scopes == []
    ensures Leaves(root, st, Remaining(root, ScopedNext(root, st).pos))
  {
    StepPositionLeaves(root, st);
    LastStepLeavesNothing(root, st);
    if !IsLastInPath(root, st.pos) { WithoutScopesStepIsPosition(root, st); }
  }

  // ----- linked positions -----

  lemma {:induction false} LinkedDepth(s: Stack, i: nat)
    requires Linked(s) && i < |s|
    ensures |s[i].parent| == i
  {
    assert LinkAt(s, i);
    if i > 0 { LinkedDepth(s, i - 1); }
  }

  lemma LinkedStandsOn(root: Pattern, s: Stack, i: nat, j: nat)
    requires ValidStack(root, s) && Linked(s) && i < |s|
    ensures StandsOn(root, s, j, s[i].parent) <==> i > 0 && j == i - 1
  {
    assert LinkAt(s, i);
    LinkedDepth(s, i);
    forall k | 0 <= k < |s| ensures |s[k].parent + [s[k].cur]| == k + 1 {
      LinkedDepth(s, k);
    }
  }

  // In a linked position the group of a context is the child that the context before stands on, so
  // a shut-off group leaves what is pending around that child.
  lemma ShutOffGroupOfLinked(root: Pattern, s: Stack, i: nat, left: seq<Path>)
    requires ValidStack(root, s) && Linked(s) && i < |s|
    ensures LeftBehind(root, s, i, left) <==> left == if i == 0 then [] else Pending(root, s[..i - 1])
  {
    forall j: nat ensures StandsOn(root, s, j, s[i].parent) <==> i > 0 && j == i - 1 {
      LinkedStandsOn(root, s, i, j);
    }
    if i > 0 { assert StandsOn(root, s, i - 1, s[i].parent); }
  }

  // Leaving the last context, or moving on inside it, keeps a position linked.
  lemma LinkedBelow(s: Stack, c: Context)
    requires Linked(s) && s != [] && c.parent == Top(s).parent
    ensures Linked(Below(s)) && Linked(s[|s| - 1 := c])
  {
    forall i | 0 <= i < |s| - 1 ensures LinkAt(Below(s), i) {
      assert LinkAt(s, i);
    }
    var t := s[|s| - 1 := c];
    forall i | 0 <= i < |s| ensures LinkAt(t, i) {
      assert LinkAt(s, i);
    }
  }

  lemma {:induction false} SettleStaysLinked(s: Stack)
    requires Linked(s)
    ensures Linked(Settle(s))
    decreases |s|
  {
    if s != [] && Top(s).cur == Top(s).end && Below(s) != [] {
      var t := Below(s);
      LinkedBelow(s, Top(s));
      LinkedBelow(t, Top(t).(cur := Top(t).cur + 1));
      SettleStaysLinked(Bump(t));
    }
  }

  lemma {:induction false} RetreatStaysLinked(root: Pattern, s: Stack, g: Option<Path>)
    requires ValidStack(root, s) && Linked(s)
    ensures Linked(BackToAncestor(root, s, g))
    decreases |s|
  {
    if s != [] {
      LinkedBelow(s, Top(s));
      RetreatStaysLinked(root, Below(s), g);
    }
  }

  // A new search stands on a linked position, and so it does as long as no scope is saved.
  lemma PositionStaysLinked(root: Pattern, st: Scoped)
    requires WellFormed(root, st) && st.scopes == [] && Linked(st.pos)
    ensures Linked(Start(root)) && Linked(ScopedNext(root, st).pos)
  {
    if st.pos != [] && !IsLastInPath(root, st.pos) {
      WithoutScopesStepIsPosition(root, st);
      StepStaysLinked(root, st);
    }
  }

  lemma SiblingStepsStayLinked(root: Pattern, s: Stack)
    requires ValidStack(root, s) && Linked(s)
    ensures Linked(NextSibling(s)) && Linked(NextAfterSiblings(s))
  {
    if s != [] {
      LinkedBelow(s, Top(s).(cur := Top(s).cur + 1));
      SettleStaysLinked(Bump(s));
      var t := ToLastSibling(s);
      LinkedBelow(s, Top(t));
      LinkedBelow(t, Top(t).(cur := Top(t).cur + 1));
      SettleStaysLinked(Bump(t));
    }
  }

  lemma NextStaysLinked(root: Pattern, s: Stack)
    requires ValidStack(root, s) && Linked(s)
    ensures Linked(Next(root, s))
  {
    SiblingStepsStayLinked(root, s);
    if s != [] && Current(root, s).Group? {
      var t := Next(root, s);
      forall i | 0 <= i < |t| ensures LinkAt(t, i) {
        if i < |s| { assert LinkAt(s, i); }
      }
    }
  }

  lemma StepStaysLinked(root: Pattern, st: Scoped)
    requires WellFormed(root, st) && st.pos != [] && Linked(st.pos)
    ensures Linked(StepPosition(root, st))
  {
    var s := st.pos;
    var g := OutermostExplored(root, s, None);
    NextStaysLinked(root, s);
    SiblingStepsStayLinked(root, s);
    RetreatStaysLinked(root, s, g);
    BackToAncestorPrefix(root, s, g);
    SiblingStepsStayLinked(root, BackToAncestor(root, s, g));
  }

  // ----- which scopes a step gives up -----

  // The scopes from k on are given up: each of them was too deep for the position reached by then,
  // and the one below them is not.
  predicate GivenUpFrom(pos: Stack, scopes: seq<Memento>, k: nat, slack: nat) {
    k <= |scopes|
    && (k > 0 ==> scopes[k - 1].level < |UnwindAll(pos, scopes[k..])| + slack)
    && forall j :: k < j <= |scopes| ==> scopes[j - 1].level >= |UnwindAll(pos, scopes[j..])| + slack
  }

  lemma UnwindAllOfTail(pos: Stack, scopes: seq<Memento>, j: nat)
    requires scopes != [] && j < |scopes|
    ensures UnwindAll(pos, scopes[j..]) == UnwindAll(Undo(pos, TopScope(scopes)), scopes[..|scopes| - 1][j..])
  {
    assert scopes[j..][..|scopes| - j - 1] == scopes[..|scopes| - 1][j..];
  }

  lemma {:induction false} UnwindIs(pos: Stack, scopes: seq<Memento>, slack: nat) returns (k: nat)
    ensures GivenUpFrom(pos, scopes, k, slack)
    ensures Unwind(pos, scopes, slack) == (UnwindAll(pos, scopes[k..]), scopes[..k])
    decreases |scopes|
  {
    if scopes == [] || TopScope(scopes).level < |pos| + slack {
      k := |scopes|;
      assert scopes[k..] == [] && scopes[..k] == scopes;
    } else {
      var rest, up := scopes[..|scopes| - 1], Undo(pos, TopScope(scopes));
      k := UnwindIs(up, rest, slack);
      assert rest[..k] == scopes[..k];
      assert scopes[|scopes|..] == [];
      forall j | k <= j < |scopes| ensures UnwindAll(pos, scopes[j..]) == UnwindAll(up, rest[j..]) {
        UnwindAllOfTail(pos, scopes, j);
      }
    }
  }

  // Behind the position after the last match the scopes are given up that are not above the
  // position, otherwise those that are below it.
  lemma ScopesGivenUp(root: Pattern, st: Scoped) returns (k: nat)
    requires WellFormed(root, st)
    ensures var left := st.posAfter != [] && |st.pos| < |st.posAfter|;
      GivenUpFrom(st.pos, st.scopes, k, if left then 0 else 1)
      && CheckLeftScope(root, st).pos == UnwindAll(st.pos, st.scopes[k..])
      && CheckLeftScope(root, st).scopes == st.scopes[..k]
      && CheckLeftScope(root, st).posAfter == (if left then [] else st.posAfter)
      && CheckLeftScope(root, st).lastMatch == st.lastMatch
      && CheckLeftScope(root, st).ignoreBlocks == st.ignoreBlocks
  {
    if st.posAfter != [] && |st.pos| < |st.posAfter| {
      k := UnwindIs(st.pos, st.scopes, 0);
    } else {
      k := UnwindIs(st.pos, st.scopes, 1);
    }
  }

  // Falling back gives up every scope, and no group of a repetition goes on.
  lemma FallingBackIs(root: Pattern, st: Scoped)
    requires WellFormed(root, st)
    ensures var r := ReturnToOutermost(root, st);
      r.pos == (if st.scopes == [] then [] else UnwindAll(st.pos, st.scopes))
      && r.scopes == [] && r.posAfter == [] && !r.repeatContinues
      && r.lastMatch == st.lastMatch && r.ignoreBlocks == st.ignoreBlocks
  {
  }

  // ----- repeat groups -----

  predicate InnermostRepeat(root: Pattern, s: Stack, i: nat)
    requires ValidStack(root, s)
  {
    i < |s| && At(root, s[i].parent).repeatable && forall k :: i < k < |s| ==> !At(root, s[k].parent).repeatable
  }

  lemma {:induction false} InnermostRepeatGroupIs(root: Pattern, s: Stack)
    requires ValidStack(root, s)
    ensures forall i: nat :: InnermostRepeat(root, s, i) ==> InnermostRepeatGroup(root, s) == Some(s[i].parent)
    ensures (forall i: nat :: !InnermostRepeat(root, s, i)) ==> InnermostRepeatGroup(root, s) == None
    decreases |s|
  {
    if s != [] {
      if At(root, Top(s).parent).repeatable {
        assert InnermostRepeat(root, s, |s| - 1);
      } else {
        InnermostRepeatGroupIs(root, Below(s));
        forall i: nat ensures InnermostRepeat(root, s, i) <==> InnermostRepeat(root, Below(s), i) {
          assert forall k :: 0 <= k < |s| - 1 ==> Below(s)[k] == s[k];
          assert s[|s| - 1] == Top(s);
        }
      }
    }
  }

  // A repeat group goes on while position and last match have the same innermost one.
  lemma RepeatContinuesIff(root: Pattern, st: Scoped)
    requires WellFormed(root, st)
    ensures CheckLeftScope(root, st).repeatContinues <==>
      var r := CheckLeftScope(root, st);
      st.repeatContinues && r.posAfter != []
      && exists i: nat, j: nat :: InnermostRepeat(root, r.pos, i) && InnermostRepeat(root, st.lastMatch, j)
           && r.pos[i].parent == st.lastMatch[j].parent
  {
    InnermostRepeatGroupIs(root, CheckLeftScope(root, st).pos);
    InnermostRepeatGroupIs(root, st.lastMatch);
  }
}
