/**
 * The parent relation among the processes of one scan, in list order, and the root that the
 * reconciler's single linking pass assigns to each of them.
 */
module Forest {
  import opened Model

  ghost predicate DistinctPids(ps: seq<Process>) {
    forall i, j :: 0 <= i < j < |ps| ==> ps[i].pid != ps[j].pid
  }

  /** Last position of a process with this pid, or -1. */
  function IndexOf(ps: seq<Process>, pid: int): (i: int)
    ensures -1 <= i < |ps|
    ensures i >= 0 ==> ps[i].pid == pid
    ensures forall j :: i < j < |ps| ==> ps[j].pid != pid
  {
    if ps == [] then -1
    else if ps[|ps| - 1].pid == pid then |ps| - 1
    else IndexOf(ps[..|ps| - 1], pid)
  }

  function Parent(ps: seq<Process>, i: nat): (p: int)
    requires i < |ps|
    ensures -1 <= p < |ps|
  {
    IndexOf(ps, ps[i].ppid)
  }

  predicate Top(ps: seq<Process>, i: nat)
    requires i < |ps|
  {
    Parent(ps, i) == -1
  }

  /**
   * The root the one-pass linking gives process `i`: itself without a parent, the parent's own
   * root when the parent comes earlier in the list, and the parent when it does not.
   */
  function RootOf(ps: seq<Process>, i: nat): (r: nat)
    requires i < |ps|
    ensures r < |ps|
    decreases i
  {
    var p := Parent(ps, i);
    if p == -1 then i else if p < i then RootOf(ps, p) else p
  }

  /** `n` steps up from `i`, or -1 when the chain ends before. */
  ghost function Climb(ps: seq<Process>, i: nat, n: nat): (r: int)
    requires i < |ps|
    ensures -1 <= r < |ps|
    decreases n
  {
    if n == 0 then i
    else if Parent(ps, i) == -1 then -1
    else Climb(ps, Parent(ps, i), n - 1)
  }

  /** `t` is `i` or one of its ancestors. */
  ghost predicate Reaches(ps: seq<Process>, i: nat, t: nat)
    requires i < |ps|
  {
    exists n: nat :: Climb(ps, i, n) == t
  }

  lemma ReachesSelf(ps: seq<Process>, i: nat)
    requires i < |ps|
    ensures Reaches(ps, i, i)
  {
    assert Climb(ps, i, 0) == i;
  }

  lemma ReachesThroughParent(ps: seq<Process>, i: nat, t: nat)
    requires i < |ps| && t < |ps| && Parent(ps, i) != -1
    ensures Reaches(ps, i, t) <==> i == t || Reaches(ps, Parent(ps, i), t)
  {
    var p := Parent(ps, i);
    if Reaches(ps, i, t) && i != t {
      var n: nat :| Climb(ps, i, n) == t;
      assert Climb(ps, p, n - 1) == t;
    }
    if Reaches(ps, p, t) {
      var n: nat :| Climb(ps, p, n) == t;
      assert Climb(ps, i, n + 1) == t;
    }
    if i == t { ReachesSelf(ps, i); }
  }

  /** Whatever the order of the list, and even with cycles, a root is an ancestor or the process itself. */
  lemma {:induction false} RootIsAncestor(ps: seq<Process>, i: nat)
    requires i < |ps|
    ensures Reaches(ps, i, RootOf(ps, i))
    decreases i
  {
    var p := Parent(ps, i);
    if p == -1 {
      ReachesSelf(ps, i);
    } else {
      if p < i { RootIsAncestor(ps, p); } else { ReachesSelf(ps, p); }
      ReachesThroughParent(ps, i, RootOf(ps, i));
    }
  }

  ghost predicate ParentFirst(ps: seq<Process>) {
    forall i :: 0 <= i < |ps| ==> Parent(ps, i) < i
  }

  /** A parent that does not precede its child has no parent of its own. */
  ghost predicate LateParentsAreTop(ps: seq<Process>) {
    forall i :: 0 <= i < |ps| && Parent(ps, i) >= i ==> Top(ps, Parent(ps, i))
  }

  ghost predicate RootsAreTop(ps: seq<Process>) {
    forall i :: 0 <= i < |ps| ==> Top(ps, RootOf(ps, i))
  }

  lemma {:induction false} RootIsTop(ps: seq<Process>, i: nat)
    requires LateParentsAreTop(ps) && i < |ps|
    ensures Top(ps, RootOf(ps, i))
    decreases i
  {
    if 0 <= Parent(ps, i) < i { RootIsTop(ps, Parent(ps, i)); }
  }

  /** Every root is topmost exactly when late parents are; parent-first lists qualify. */
  lemma RootsAreTopIff(ps: seq<Process>)
    ensures RootsAreTop(ps) <==> LateParentsAreTop(ps)
    ensures ParentFirst(ps) ==> LateParentsAreTop(ps)
  {
    if LateParentsAreTop(ps) {
      forall i | 0 <= i < |ps| ensures Top(ps, RootOf(ps, i)) { RootIsTop(ps, i); }
    }
    if RootsAreTop(ps) {
      forall i | 0 <= i < |ps| && Parent(ps, i) >= i ensures Top(ps, Parent(ps, i)) {
        assert RootOf(ps, i) == Parent(ps, i);
      }
    }
  }

  lemma {:induction false} ClimbersShareRoot(ps: seq<Process>, i: nat, n: nat)
    requires LateParentsAreTop(ps) && i < |ps| && Climb(ps, i, n) != -1
    ensures RootOf(ps, Climb(ps, i, n)) == RootOf(ps, i)
    decreases n
  {
    if n > 0 {
      var p := Parent(ps, i);
      ClimbersShareRoot(ps, p, n - 1);
      assert RootOf(ps, p) == RootOf(ps, i);
    }
  }

  /** Below a top process are exactly the processes rooted at it. */
  lemma RootedIsDescendant(ps: seq<Process>, i: nat, t: nat)
    requires LateParentsAreTop(ps) && i < |ps| && t < |ps| && Top(ps, t)
    ensures Reaches(ps, i, t) <==> RootOf(ps, i) == t
  {
    RootIsAncestor(ps, i);
    if Reaches(ps, i, t) {
      var n: nat :| Climb(ps, i, n) == t;
      ClimbersShareRoot(ps, i, n);
    }
  }

  /** The test Lineage makes, on positions: same process, rooted there, or child of it. */
  predicate Selected(ps: seq<Process>, t: nat, i: nat)
    requires i < |ps|
  {
    i == t || RootOf(ps, i) == t || Parent(ps, i) == t
  }

  ghost predicate SelectsDescendants(ps: seq<Process>, t: nat)
    requires t < |ps|
  {
    forall i :: 0 <= i < |ps| ==> (Selected(ps, t, i) <==> Reaches(ps, i, t))
  }

  /** The one-pass test finds a top process's whole subtree. */
  lemma TopSelectsSubtree(ps: seq<Process>, t: nat)
    requires LateParentsAreTop(ps) && t < |ps| && Top(ps, t)
    ensures SelectsDescendants(ps, t)
  {
    forall i | 0 <= i < |ps| ensures Selected(ps, t, i) <==> Reaches(ps, i, t) {
      RootedIsDescendant(ps, i, t);
      RootedIsDescendant(ps, t, t);
      ReachesSelf(ps, t);
      if Parent(ps, i) == t { ReachesThroughParent(ps, i, t); ReachesSelf(ps, t); }
    }
  }

  // ----- Acyclic lists -----

  ghost predicate Acyclic(ps: seq<Process>) {
    forall i, n: nat :: 0 <= i < |ps| && n > 0 ==> Climb(ps, i, n) != i
  }

  lemma {:induction false} ClimbAdds(ps: seq<Process>, i: nat, a: nat, b: nat)
    requires i < |ps| && Climb(ps, i, a) != -1
    ensures Climb(ps, i, a + b) == Climb(ps, Climb(ps, i, a), b)
    decreases a
  {
    if a > 0 { ClimbAdds(ps, Parent(ps, i), a - 1, b); }
  }

  lemma {:induction false} ChainEnds(ps: seq<Process>, i: nat, n: nat)
    requires i < |ps| && Climb(ps, i, n) == -1
    ensures exists t: nat :: t < |ps| && Top(ps, t) && Reaches(ps, i, t)
    decreases n
  {
    if Parent(ps, i) == -1 {
      ReachesSelf(ps, i);
    } else {
      ChainEnds(ps, Parent(ps, i), n - 1);
      var t: nat :| t < |ps| && Top(ps, t) && Reaches(ps, Parent(ps, i), t);
      ReachesThroughParent(ps, i, t);
    }
  }

  /** Positions visited in the first `n` steps. */
  ghost function Visited(ps: seq<Process>, i: nat, n: nat): set<int>
    requires i < |ps|
  {
    if n == 0 then {} else Visited(ps, i, n - 1) + {Climb(ps, i, n - 1)}
  }

  lemma {:induction false} VisitedBefore(ps: seq<Process>, i: nat, n: nat, x: int) returns (m: nat)
    requires i < |ps| && x in Visited(ps, i, n)
    ensures m < n && Climb(ps, i, m) == x
  {
    if x in Visited(ps, i, n - 1) { m := VisitedBefore(ps, i, n - 1, x); } else { m := n - 1; }
  }

  lemma {:induction false} VisitsAreFresh(ps: seq<Process>, i: nat, n: nat)
    requires Acyclic(ps) && i < |ps| && forall m: nat :: m < n ==> Climb(ps, i, m) != -1
    ensures |Visited(ps, i, n)| == n && forall x :: x in Visited(ps, i, n) ==> 0 <= x < |ps|
  {
    if n > 0 {
      VisitsAreFresh(ps, i, n - 1);
      var x := Climb(ps, i, n - 1);
      if x in Visited(ps, i, n - 1) {
        var m := VisitedBefore(ps, i, n - 1, x);
        ClimbAdds(ps, i, m, n - 1 - m);
      }
    }
  }

  lemma {:induction false} SmallSet(s: set<int>, n: nat)
    requires forall x :: x in s ==> 0 <= x < n
    ensures |s| <= n
  {
    if n == 0 {
      assert forall x :: x !in s;
      assert |s| == 0;
    } else {
      SmallSet(s - {n - 1}, n - 1);
    }
  }

  /** Without cycles every chain of parents ends at a top process. */
  lemma AcyclicReachesTop(ps: seq<Process>, i: nat)
    requires Acyclic(ps) && i < |ps|
    ensures exists t: nat :: t < |ps| && Top(ps, t) && Reaches(ps, i, t)
  {
    var n := |ps| + 1;
    if forall m: nat :: m < n ==> Climb(ps, i, m) != -1 {
      VisitsAreFresh(ps, i, n);
      SmallSet(Visited(ps, i, n), |ps|);
    } else {
      var m: nat :| m < n && Climb(ps, i, m) == -1;
      ChainEnds(ps, i, m);
    }
  }

  /**
   * For acyclic lists the one-pass test finds the whole subtree of every top process exactly
   * when late parents are top: otherwise some process is missing from its own tree.
   */
  lemma SubtreesIff(ps: seq<Process>)
    requires Acyclic(ps)
    ensures (forall t: nat :: t < |ps| && Top(ps, t) ==> SelectsDescendants(ps, t)) <==> LateParentsAreTop(ps)
  {
    if LateParentsAreTop(ps) {
      forall t: nat | t < |ps| && Top(ps, t) ensures SelectsDescendants(ps, t) { TopSelectsSubtree(ps, t); }
    }
    if forall t: nat :: t < |ps| && Top(ps, t) ==> SelectsDescendants(ps, t) {
      forall i | 0 <= i < |ps| && Parent(ps, i) >= i ensures Top(ps, Parent(ps, i)) {
        AcyclicReachesTop(ps, i);
        var t: nat :| t < |ps| && Top(ps, t) && Reaches(ps, i, t);
        assert SelectsDescendants(ps, t);
        assert Selected(ps, t, i);
        assert RootOf(ps, i) == Parent(ps, i);
      }
    }
  }

  // ----- Lineage of one process -----

  /** In any list, cycles included, the one-pass test never selects a process outside the subtree. */
  lemma SelectedIsDescendant(ps: seq<Process>, t: nat, i: nat)
    requires t < |ps| && i < |ps| && Selected(ps, t, i)
    ensures Reaches(ps, i, t)
  {
    ReachesSelf(ps, t);
    RootIsAncestor(ps, i);
    if Parent(ps, i) == t { ReachesThroughParent(ps, i, t); }
  }

  /** Every proper descendant of `t` comes before its own children. */
  ghost predicate EarlyBelow(ps: seq<Process>, t: nat)
    requires t < |ps|
  {
    forall j :: 0 <= j < |ps| && Parent(ps, j) != -1 && Parent(ps, j) != t && Reaches(ps, Parent(ps, j), t) ==>
      Parent(ps, j) < j
  }

  /** `t` is top, or its children that have children of their own come before it. */
  ghost predicate LateChildren(ps: seq<Process>, t: nat)
    requires t < |ps|
  {
    Top(ps, t) || forall j :: 0 <= j < |ps| && IsGrandchild(ps, j, t) ==> Parent(ps, j) < t
  }

  predicate IsGrandchild(ps: seq<Process>, j: nat, t: nat)
    requires j < |ps|
  {
    Parent(ps, j) != -1 && Parent(ps, Parent(ps, j)) == t
  }

  lemma RootStep(ps: seq<Process>, i: nat)
    requires i < |ps| && Parent(ps, i) != -1
    ensures RootOf(ps, i) == if Parent(ps, i) < i then RootOf(ps, Parent(ps, i)) else Parent(ps, i)
  {
  }

  /** In an acyclic list a process is not below its own children. */
  lemma NotBelowChild(ps: seq<Process>, i: nat)
    requires Acyclic(ps) && i < |ps| && Parent(ps, i) != -1
    ensures !Reaches(ps, Parent(ps, i), i)
  {
    var p := Parent(ps, i);
    if Reaches(ps, p, i) {
      var n: nat :| Climb(ps, p, n) == i;
      assert Climb(ps, i, n + 1) == i;
    }
  }

  lemma {:induction false} DescendantsRooted(ps: seq<Process>, t: nat, i: nat, n: nat)
    requires Acyclic(ps) && t < |ps| && i < |ps| && EarlyBelow(ps, t) && LateChildren(ps, t)
    requires Climb(ps, i, n) == t && i != t && Parent(ps, i) != t
    ensures RootOf(ps, i) == t
    decreases n
  {
    var p := Parent(ps, i);
    assert Climb(ps, p, n - 1) == t;
    assert Reaches(ps, p, t);
    assert p < i;
    if Parent(ps, p) == t {
      assert IsGrandchild(ps, i, t);
      NotBelowChild(ps, p);
      ReachesSelf(ps, t);
      assert RootOf(ps, i) == RootOf(ps, p);
      assert Top(ps, t) ==> RootOf(ps, t) == t;
      assert RootOf(ps, p) == t;
    } else {
      DescendantsRooted(ps, t, p, n - 1);
    }
  }

  lemma SelectionNeedsEarly(ps: seq<Process>, t: nat)
    requires Acyclic(ps) && t < |ps| && SelectsDescendants(ps, t)
    ensures EarlyBelow(ps, t)
  {
    forall j | 0 <= j < |ps| && Parent(ps, j) != -1 && Parent(ps, j) != t && Reaches(ps, Parent(ps, j), t)
      ensures Parent(ps, j) < j
    {
      NotBelowChild(ps, j);
      ReachesThroughParent(ps, j, t);
      assert Selected(ps, t, j);
    }
  }

  lemma SelectionNeedsLate(ps: seq<Process>, t: nat)
    requires Acyclic(ps) && t < |ps| && SelectsDescendants(ps, t)
    ensures LateChildren(ps, t)
  {
    if !Top(ps, t) {
      forall j | 0 <= j < |ps| && IsGrandchild(ps, j, t) ensures Parent(ps, j) < t {
        GrandchildNeedsLate(ps, t, j);
      }
    }
  }

  lemma GrandchildNeedsLate(ps: seq<Process>, t: nat, j: nat)
    requires Acyclic(ps) && t < |ps| && j < |ps| && SelectsDescendants(ps, t) && !Top(ps, t) && IsGrandchild(ps, j, t)
    ensures Parent(ps, j) < t
  {
    var c := Parent(ps, j);
    RootStep(ps, j);
    RootStep(ps, c);
    ReachesSelf(ps, t);
    ReachesThroughParent(ps, c, t);
    ReachesThroughParent(ps, j, t);
    NotBelowChild(ps, c);
    NotBelowChild(ps, j);
    SelectionNeedsEarly(ps, t);
    assert c != t && j != t && c < j;
    assert Selected(ps, t, j);
    RootAboveParent(ps, t);
    NotBelowChild(ps, t);
  }

  /** The root of a process with a parent is the parent or above it. */
  lemma RootAboveParent(ps: seq<Process>, t: nat)
    requires t < |ps| && !Top(ps, t)
    ensures Reaches(ps, Parent(ps, t), RootOf(ps, t))
  {
    var p := Parent(ps, t);
    if p < t { RootIsAncestor(ps, p); } else { ReachesSelf(ps, p); }
  }

  /**
   * For an acyclic list and any one process, the one-pass test finds its whole subtree exactly
   * when every proper descendant precedes its own children and, unless the process is top, its
   * children that have children precede it.
   */
  lemma SubtreeIff(ps: seq<Process>, t: nat)
    requires Acyclic(ps) && t < |ps|
    ensures SelectsDescendants(ps, t) <==> EarlyBelow(ps, t) && LateChildren(ps, t)
  {
    if EarlyBelow(ps, t) && LateChildren(ps, t) {
      forall i | 0 <= i < |ps| ensures Selected(ps, t, i) <==> Reaches(ps, i, t) {
        if Selected(ps, t, i) { SelectedIsDescendant(ps, t, i); }
        if Reaches(ps, i, t) && i != t && Parent(ps, i) != t {
          var n: nat :| Climb(ps, i, n) == t;
          DescendantsRooted(ps, t, i, n);
        }
      }
    }
    if SelectsDescendants(ps, t) {
      SelectionNeedsEarly(ps, t);
      SelectionNeedsLate(ps, t);
    }
  }

  ghost predicate SelectsChildrenOnly(ps: seq<Process>, t: nat)
    requires t < |ps|
  {
    forall i :: 0 <= i < |ps| ==> (Selected(ps, t, i) <==> i == t || Parent(ps, i) == t)
  }

  /** No child listed before `t` has a child listed after itself. */
  ghost predicate Shallow(ps: seq<Process>, t: nat)
    requires t < |ps|
  {
    forall j :: 0 <= j < |ps| && IsGrandchild(ps, j, t) && Parent(ps, j) < t ==> j <= Parent(ps, j)
  }

  /** A process rooted at a non-top `t` got that root through a child of `t` listed before it. */
  lemma {:induction false} RootedThroughChild(ps: seq<Process>, t: nat, i: nat)
    requires Acyclic(ps) && t < |ps| && i < |ps| && !Top(ps, t) && RootOf(ps, i) == t && i != t && Parent(ps, i) != t
    ensures exists j :: 0 <= j < |ps| && IsGrandchild(ps, j, t) && Parent(ps, j) < t && Parent(ps, j) < j
    decreases i
  {
    var p := Parent(ps, i);
    if p == t || Parent(ps, p) == t {
      RootAboveParent(ps, t);
      NotBelowChild(ps, t);
      NotBelowChild(ps, p);
      ReachesSelf(ps, p);
      assert IsGrandchild(ps, i, t);
    } else {
      RootedThroughChild(ps, t, p);
    }
  }

  /** For an acyclic list, a process that is not top selects just itself and its children exactly when it is shallow. */
  lemma ChildrenOnlyIff(ps: seq<Process>, t: nat)
    requires Acyclic(ps) && t < |ps| && !Top(ps, t)
    ensures SelectsChildrenOnly(ps, t) <==> Shallow(ps, t)
  {
    if Shallow(ps, t) {
      forall i | 0 <= i < |ps| ensures Selected(ps, t, i) <==> i == t || Parent(ps, i) == t {
        if RootOf(ps, i) == t && i != t && Parent(ps, i) != t { RootedThroughChild(ps, t, i); }
      }
    }
    if SelectsChildrenOnly(ps, t) {
      forall j | 0 <= j < |ps| && IsGrandchild(ps, j, t) && Parent(ps, j) < t ensures j <= Parent(ps, j) {
        var c := Parent(ps, j);
        RootStep(ps, j);
        RootStep(ps, c);
        ReachesSelf(ps, c);
        NotBelowChild(ps, c);
        ReachesThroughParent(ps, j, c);
        NotBelowChild(ps, j);
        ReachesSelf(ps, t);
        ReachesThroughParent(ps, c, t);
        assert j != t && c != t;
        assert Selected(ps, t, j) <==> j == t || Parent(ps, j) == t;
      }
    }
  }

  lemma {:induction false} LateParentsNoCycle(ps: seq<Process>, i: nat, n: nat)
    requires LateParentsAreTop(ps) && i < |ps| && n > 0
    ensures Climb(ps, i, n) != i
    decreases i
  {
    var p := Parent(ps, i);
    if Climb(ps, i, n) == i && p < i {
      ClimbAdds(ps, p, n - 1, 1);
      assert Climb(ps, i, 1) == p by { assert Climb(ps, p, 0) == p; }
      LateParentsNoCycle(ps, p, n);
    }
  }

  /**
   * Lists whose late parents are top, parent-first ones among them, have no cycles, and their inner
   * processes are shallow.
   */
  lemma LateParentsAcyclic(ps: seq<Process>)
    requires LateParentsAreTop(ps)
    ensures Acyclic(ps)
    ensures forall t :: 0 <= t < |ps| && !Top(ps, t) ==> Shallow(ps, t)
  {
    forall i, n: nat | 0 <= i < |ps| && n > 0 ensures Climb(ps, i, n) != i {
      LateParentsNoCycle(ps, i, n);
    }
  }

  // ----- Lists that keep some processes of another -----

  /** `sub` keeps the processes of `all` at the positions `pos`, in order. */
  ghost predicate Embeds(sub: seq<Process>, all: seq<Process>, pos: seq<nat>) {
    && |pos| == |sub|
    && (forall k :: 0 <= k < |sub| ==>
      pos[k] < |all| && all[pos[k]].pid == sub[k].pid && all[pos[k]].ppid == sub[k].ppid)
    && (forall j, k :: 0 <= j < k < |sub| ==> pos[j] < pos[k])
  }

  /** A parent kept is the parent there was. */
  lemma ParentEmbeds(sub: seq<Process>, all: seq<Process>, pos: seq<nat>, k: nat)
    requires Embeds(sub, all, pos) && DistinctPids(all) && k < |sub| && Parent(sub, k) != -1
    ensures Parent(all, pos[k]) == pos[Parent(sub, k)]
  {
    var j := Parent(sub, k);
    assert all[pos[j]].pid == all[pos[k]].ppid;
  }

  lemma {:induction false} ClimbEmbeds(sub: seq<Process>, all: seq<Process>, pos: seq<nat>, k: nat, n: nat)
    requires Embeds(sub, all, pos) && DistinctPids(all) && k < |sub| && Climb(sub, k, n) != -1
    ensures Climb(all, pos[k], n) == pos[Climb(sub, k, n)]
    decreases n
  {
    if n > 0 {
      ParentEmbeds(sub, all, pos, k);
      ClimbEmbeds(sub, all, pos, Parent(sub, k), n - 1);
    }
  }

  lemma EmbeddingKeepsAcyclic(sub: seq<Process>, all: seq<Process>, pos: seq<nat>)
    requires Embeds(sub, all, pos) && DistinctPids(all) && Acyclic(all)
    ensures Acyclic(sub)
  {
    forall i, n: nat | 0 <= i < |sub| && n > 0 ensures Climb(sub, i, n) != i {
      if Climb(sub, i, n) != -1 { ClimbEmbeds(sub, all, pos, i, n); }
    }
  }

  /** Parent-first order, late parents being top, and the absence of cycles carry over to what is kept. */
  lemma EmbeddingKeepsOrder(sub: seq<Process>, all: seq<Process>, pos: seq<nat>)
    requires Embeds(sub, all, pos) && DistinctPids(all)
    ensures ParentFirst(all) ==> ParentFirst(sub)
    ensures LateParentsAreTop(all) ==> LateParentsAreTop(sub)
    ensures Acyclic(all) ==> Acyclic(sub)
  {
    forall k | 0 <= k < |sub| && Parent(sub, k) != -1 ensures Parent(all, pos[k]) == pos[Parent(sub, k)] {
      ParentEmbeds(sub, all, pos, k);
    }
    if Acyclic(all) { EmbeddingKeepsAcyclic(sub, all, pos); }
  }

  // ----- Two lists on which Lineage is not the subtree -----

  /** A process with these pids and nothing else of note: an agent running in /repo. */
  function AgentProcess(pid: int, ppid: int): Process {
    Process("process", pid, ppid, "codex", "", "/repo")
  }

  /** A chain of three, children first. */
  const CHILD_FIRST := [AgentProcess(3, 2), AgentProcess(2, 1), AgentProcess(1, 0)]

  /** The top process at the end misses its grandchild, which is rooted at the process between them. */
  lemma ChildFirstMissesGrandchild()
    ensures Top(CHILD_FIRST, 2) && Reaches(CHILD_FIRST, 0, 2) && !Selected(CHILD_FIRST, 2, 0)
  {
    var ps := CHILD_FIRST;
    assert Parent(ps, 0) == 1 && Parent(ps, 1) == 2 && Parent(ps, 2) == -1;
    assert Climb(ps, 1, 1) == 2 by { assert Climb(ps, 2, 0) == 2; }
    assert Climb(ps, 0, 2) == 2;
  }

  /** A process, its child, then their parent and its own parent. */
  const LATE_INNER := [AgentProcess(3, 2), AgentProcess(4, 3), AgentProcess(2, 1), AgentProcess(1, 0)]

  /** The inner process in third place shows a grandchild as well as its child. */
  lemma LateInnerShowsGrandchild()
    ensures !Top(LATE_INNER, 2) && Selected(LATE_INNER, 2, 1) && Parent(LATE_INNER, 1) != 2
  {
    var ps := LATE_INNER;
    assert Parent(ps, 0) == 2 && Parent(ps, 1) == 0 && Parent(ps, 2) == 3;
    assert RootOf(ps, 0) == 2;
  }
}
