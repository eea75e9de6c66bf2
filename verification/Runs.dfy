/** What a completed `configure` run leaves, from a fresh target, on a second run, and after an interrupted one. */
module Runs {
  import opened FlatNames
  import opened SourceTree
  import opened IncludeGraph
  import opened Flattening
  import opened Configuration

  /** Every file a root includes, directly or through other files. */
  ghost function Reachable(tree: Tree, roots: seq<Root>): set<Path> {
    Reached(tree, {}, roots)
  }

  /** Every reachable header is in the target, with every directive rewritten. */
  ghost predicate FullyRelocated(tree: Tree, roots: seq<Root>, target: map<Path, Content>) {
    forall f :: f in Reachable(tree, roots) && f !in RootPaths(roots) ==>
      tree.Flat(f) in target && target[tree.Flat(f)] == HeaderForm(tree, f)
  }

  /** The reachable headers found in a target are relocated, and so is everything they name. */
  ghost predicate SettledStart(tree: Tree, roots: seq<Root>, before: map<Path, Content>) {
    forall f :: f in Reachable(tree, roots) && f !in RootPaths(roots) && tree.Flat(f) in before ==>
      && before[tree.Flat(f)] == HeaderForm(tree, f)
      && forall g :: Edge(tree, f, g) ==> tree.Flat(g) in before
  }

  /** The outcome leaves no freedom: it determines the target. */
  lemma OutcomeUnique(tree: Tree, before: map<Path, Content>, roots: seq<Root>,
                      after: map<Path, Content>, after': map<Path, Content>)
    requires ValidTree(tree)
    requires Outcome(tree, before, roots, after) && Outcome(tree, before, roots, after')
    ensures after == after'
  {
    hide Reached, RootPaths, HeaderForm, RootForm, ConditionOf;
    var reached, own := Reached(tree, before.Keys, roots), RootPaths(roots);
    forall k | k in after ensures after[k] == after'[k] {
      if k in Names(tree, own) {
        var p :| p in own && tree.Flat(p) == k;
      } else if k !in before {
        var f :| f in reached && tree.Flat(f) == k;
      }
    }
  }

  lemma ReachedIsReachable(tree: Tree, seen: set<Path>, roots: seq<Root>)
    ensures Reached(tree, seen, roots) <= Reachable(tree, roots)
  {
    forall f | f in Reached(tree, seen, roots) ensures f in Reachable(tree, roots) {
      var r :| r in roots && r.path in tree.files && f in NewFiles(tree, seen, r.path, tree.files[r.path]);
      hide NewFiles;
      NewFilesAntitone(tree, {}, seen, r.path, tree.files[r.path]);
    }
  }

  /** `closed` takes in every edge out of a root and out of a reachable file it names. */
  ghost predicate ClosedFromRoots(tree: Tree, roots: seq<Root>, closed: set<Path>) {
    forall f, g :: Edge(tree, f, g) && EdgeCounts(tree, roots, closed, f) ==> tree.Flat(g) in closed
  }

  ghost predicate EdgeCounts(tree: Tree, roots: seq<Root>, closed: set<Path>, f: Path) {
    f in RootPaths(roots) || (f in Reachable(tree, roots) && tree.Flat(f) in closed)
  }

  /** A set of names that is closed from the roots on holds every reachable file's name. */
  lemma ReachableWithin(tree: Tree, roots: seq<Root>, closed: set<Path>)
    requires ValidTree(tree)
    requires ClosedFromRoots(tree, roots, closed)
    ensures forall f :: f in Reachable(tree, roots) ==> tree.Flat(f) in closed
  {
    forall f | f in Reachable(tree, roots) ensures tree.Flat(f) in closed {
      var r :| r in roots && r.path in tree.files && f in NewFiles(tree, {}, r.path, tree.files[r.path]);
      assert r.path in RootPaths(roots);
      var p :| FreshPath(tree, {}, p) && Includes(tree, r.path, tree.files[r.path], p[0]) && p[|p| - 1] == f;
      WalkFromRoot(tree, roots, r, closed, p, |p| - 1);
    }
  }

  lemma {:induction false} WalkFromRoot(tree: Tree, roots: seq<Root>, r: Root, closed: set<Path>, p: seq<Path>, k: nat)
    requires r in roots && r.path in tree.files && FreshPath(tree, {}, p) && k < |p|
    requires Includes(tree, r.path, tree.files[r.path], p[0])
    requires ClosedFromRoots(tree, roots, closed)
    ensures tree.Flat(p[k]) in closed
  {
    if k == 0 {
      assert r.path in RootPaths(roots) && Edge(tree, r.path, p[0]);
    } else {
      WalkFromRoot(tree, roots, r, closed, p, k - 1);
      assert FreshPath(tree, {}, p[..k]) && p[..k][k - 1] == p[k - 1] && p[..k][0] == p[0];
      assert p[k - 1] in NewFiles(tree, {}, r.path, tree.files[r.path]);
      assert Edge(tree, p[k - 1], p[k]);
    }
  }

  lemma OutcomeClosed(tree: Tree, before: map<Path, Content>, roots: seq<Root>, after: map<Path, Content>)
    requires ValidTree(tree) && Outcome(tree, before, roots, after)
    requires SettledStart(tree, roots, before)
    ensures ClosedFromRoots(tree, roots, after.Keys)
  {
    hide Reached, Edge, RootPaths, HeaderForm, RootForm, ConditionOf;
    var own, reached := RootPaths(roots), Reached(tree, before.Keys, roots);
    OutcomeRoots(tree, before, roots, after);
    forall f, g | Edge(tree, f, g) && EdgeCounts(tree, roots, after.Keys, f) ensures tree.Flat(g) in after {
      if f in own || tree.Flat(f) !in before {
        if f !in own {
          NamedBy(tree, reached + own, before.Keys, f);
        }
        ReachedClosed(tree, before.Keys, roots, f, g);
      }
    }
  }

  /** Started on no leftovers or on settled ones, a completed run relocates every reachable header. */
  lemma SettledStartRelocates(tree: Tree, before: map<Path, Content>, roots: seq<Root>, after: map<Path, Content>)
    requires ValidTree(tree) && Outcome(tree, before, roots, after)
    requires SettledStart(tree, roots, before)
    ensures FullyRelocated(tree, roots, after)
  {
    hide Reached, Edge, RootPaths, HeaderForm, RootForm, ConditionOf;
    var own, reached := RootPaths(roots), Reached(tree, before.Keys, roots);
    OutcomeRoots(tree, before, roots, after);
    OutcomeClosed(tree, before, roots, after);
    ReachableWithin(tree, roots, after.Keys);
    forall f | f in Reachable(tree, roots) && f !in own
      ensures tree.Flat(f) in after && after[tree.Flat(f)] == HeaderForm(tree, f)
    {
      NotRootName(tree, own, f);
      if tree.Flat(f) !in before {
        NamedBy(tree, reached + own, before.Keys, f);
      }
    }
  }

  lemma NotRootName(tree: Tree, own: set<Path>, f: Path)
    requires ValidTree(tree) && own <= tree.files.Keys && f in tree.files && f !in own
    ensures tree.Flat(f) !in Names(tree, own)
  {
    forall p | p in own ensures tree.Flat(p) != tree.Flat(f) {
      FlatInjective(tree, p, f);
    }
  }

  /** From a target without flat names, the run adds exactly the roots and the files reachable from them. */
  lemma FreshRun(tree: Tree, before: map<Path, Content>, roots: seq<Root>, after: map<Path, Content>)
    requires ValidTree(tree) && Outcome(tree, before, roots, after)
    requires forall f :: f in tree.files ==> tree.Flat(f) !in before
    ensures after.Keys == before.Keys + Names(tree, Reachable(tree, roots) + RootPaths(roots))
    ensures FullyRelocated(tree, roots, after)
    ensures forall k :: k in before ==> after[k] == before[k]
  {
    hide Reached, Edge, RootPaths, HeaderForm, RootForm, ConditionOf;
    SettledStartRelocates(tree, before, roots, after);
    ReachedIsReachable(tree, before.Keys, roots);
    OutcomeRoots(tree, before, roots, after);
    OutcomeClosed(tree, before, roots, after);
    ReachableWithin(tree, roots, after.Keys);
    var all := Reachable(tree, roots) + RootPaths(roots);
    forall k | k in Names(tree, all) ensures k in after {
      var f :| f in all && tree.Flat(f) == k;
      assert f in RootPaths(roots) ==> k in Names(tree, RootPaths(roots));
    }
    forall k | k in before ensures k !in Names(tree, RootPaths(roots)) {}
  }

  /** A second run completes whenever the first did, changes no file of the first run's target, and copies
      nothing but the roots. */
  lemma SecondRun(tree: Tree, before: map<Path, Content>, roots: seq<Root>, after: map<Path, Content>)
    requires ValidTree(tree)
    requires Completes(tree, before.Keys, roots) && Outcome(tree, before, roots, after)
    ensures Completes(tree, after.Keys, roots)
    ensures Outcome(tree, after, roots, after)
    ensures forall again :: Outcome(tree, after, roots, again) ==> again == after
    ensures Reached(tree, after.Keys, roots) == {}
    ensures Written(tree, after.Keys, roots) == Names(tree, RootPaths(roots))
  {
    hide Reached, Outcome;
    forall f ensures f !in Reached(tree, after.Keys, roots) {
      NoNewHeader(tree, before, roots, after, f);
    }
    SameOutcome(tree, before, roots, after);
    forall again | Outcome(tree, after, roots, again) ensures again == after {
      NothingReached(tree, before, roots, after, again);
    }
  }

  lemma SameOutcome(tree: Tree, before: map<Path, Content>, roots: seq<Root>, after: map<Path, Content>)
    requires Outcome(tree, before, roots, after) && Reached(tree, after.Keys, roots) == {}
    ensures Outcome(tree, after, roots, after)
  {
    hide Reached, RootPaths, HeaderForm, RootForm, ConditionOf;
    assert Names(tree, {}) == {};
    forall p | p in RootPaths(roots) ensures tree.Flat(p) in Names(tree, RootPaths(roots)) {}
  }

  /** `configure` twice in a row: both runs complete or the first fails, and the second leaves the target as it is. */
  method ConfigureTwice(project: Project, roots: seq<Root>)
    returns (ok: bool, again: bool, ghost first: map<Path, Content>)
    requires ValidTree(project.tree)
    modifies project`target, project`copied
    ensures ok <==> Completes(project.tree, old(project.target).Keys, roots)
    ensures ok ==> again && project.target == first && Outcome(project.tree, old(project.target), roots, first)
  {
    hide Outcome, Completes, Stopped, OthersKept, Written;
    again := false;
    ok := Configure(project, roots);
    first := project.target;
    if ok {
      SecondRun(project.tree, old(project.target), roots, first);
      again := Configure(project, roots);
    }
  }

  lemma NoNewHeader(tree: Tree, before: map<Path, Content>, roots: seq<Root>, after: map<Path, Content>, f: Path)
    requires ValidTree(tree) && Outcome(tree, before, roots, after)
    ensures f !in Reached(tree, after.Keys, roots)
  {
    hide Outcome, HeaderForm, RootForm;
    OutcomeRoots(tree, before, roots, after);
    if f in Reached(tree, after.Keys, roots) {
      var r :| r in roots && r.path in tree.files && f in NewFiles(tree, after.Keys, r.path, tree.files[r.path]);
      var p :| FreshPath(tree, after.Keys, p) && Includes(tree, r.path, tree.files[r.path], p[0]);
      assert r.path in RootPaths(roots) && Edge(tree, r.path, p[0]);
      ReachedClosed(tree, before.Keys, roots, r.path, p[0]);
    }
  }

  lemma NothingReached(tree: Tree, before: map<Path, Content>, roots: seq<Root>,
                       after: map<Path, Content>, again: map<Path, Content>)
    requires ValidTree(tree)
    requires Outcome(tree, before, roots, after) && Outcome(tree, after, roots, again)
    requires Reached(tree, after.Keys, roots) == {}
    ensures again == after
  {
    hide Reached, RootPaths, HeaderForm, RootForm, ConditionOf;
    assert Names(tree, {}) == {};
    var own := RootPaths(roots);
    forall p | p in own ensures tree.Flat(p) in Names(tree, own) {}
    forall k | k in again ensures again[k] == after[k] {
      if k in Names(tree, own) {
        var p :| p in own && tree.Flat(p) == k;
      }
    }
  }

  /** Exactly when the reachable headers present at the end are all relocated: when those present at
      the start were. A run that was interrupted leaves raw headers, and a later run keeps them raw. */
  lemma LeftoversDecide(tree: Tree, before: map<Path, Content>, roots: seq<Root>, after: map<Path, Content>)
    requires ValidTree(tree) && Outcome(tree, before, roots, after)
    ensures (forall f :: f in Reachable(tree, roots) && f !in RootPaths(roots) && tree.Flat(f) in after
                         ==> after[tree.Flat(f)] == HeaderForm(tree, f))
            <==>
            (forall f :: f in Reachable(tree, roots) && f !in RootPaths(roots) && tree.Flat(f) in before
                         ==> before[tree.Flat(f)] == HeaderForm(tree, f))
  {
    OutcomeRoots(tree, before, roots, after);
    hide Reached, RootPaths, HeaderForm, RootForm, ConditionOf;
    var own, reached := RootPaths(roots), Reached(tree, before.Keys, roots);
    forall f | f in Reachable(tree, roots) && f !in own && tree.Flat(f) in after
      ensures if tree.Flat(f) in before then after[tree.Flat(f)] == before[tree.Flat(f)]
              else after[tree.Flat(f)] == HeaderForm(tree, f)
    {
      NotRootName(tree, own, f);
      if tree.Flat(f) !in before {
        NamedBy(tree, reached + own, before.Keys, f);
      }
    }
    forall f | f in Reachable(tree, roots) && tree.Flat(f) in before ensures tree.Flat(f) in after {}
  }

  /** Exactly when everything reachable ends up relocated: each reachable header found at the start was, and the
      name of every other one is one the run writes. The start and the tree decide it. */
  lemma RelocatedExactly(tree: Tree, before: map<Path, Content>, roots: seq<Root>, after: map<Path, Content>)
    requires ValidTree(tree) && Outcome(tree, before, roots, after)
    ensures FullyRelocated(tree, roots, after) <==>
            forall f :: f in Reachable(tree, roots) && f !in RootPaths(roots) ==>
              if tree.Flat(f) in before then before[tree.Flat(f)] == HeaderForm(tree, f)
              else tree.Flat(f) in Written(tree, before.Keys, roots)
  {
    hide Reached, RootPaths, HeaderForm, RootForm, ConditionOf, Outcome, Names, Written, ValidTree;
    LeftoversDecide(tree, before, roots, after);
    OutcomeNames(tree, before, roots, after);
  }

  lemma OutcomeNames(tree: Tree, before: map<Path, Content>, roots: seq<Root>, after: map<Path, Content>)
    requires Outcome(tree, before, roots, after)
    ensures after.Keys == before.Keys + Written(tree, before.Keys, roots)
  {
    hide Reached, RootPaths, Outcome;
    OutcomeRoots(tree, before, roots, after);
    NamesBoth(tree, Reached(tree, before.Keys, roots), RootPaths(roots));
  }

  lemma NamesBoth(tree: Tree, a: set<Path>, b: set<Path>)
    ensures Names(tree, a + b) == Names(tree, a) + Names(tree, b)
  {
  }
}
