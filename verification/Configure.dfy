/** `configure` of scripts/prepare.py: the whole run over a list of configured sources. */
module Configuration {
  import opened FlatNames
  import opened SourceTree
  import opened IncludeGraph
  import opened Flattening
  import opened Wrappers

  /** One `project.copy(source, condition)` of the configuration. */
  datatype Root = Root(path: Path, condition: Option<string>)

  ghost function RootPaths(roots: seq<Root>): set<Path> {
    set r | r in roots :: r.path
  }

  /** The condition of the last entry for `p`: a later copy overwrites an earlier one. */
  function ConditionOf(roots: seq<Root>, p: Path): Option<string> {
    if roots == [] then None
    else
      var last := roots[|roots| - 1];
      if last.path == p then last.condition else ConditionOf(roots[..|roots| - 1], p)
  }

  /** The headers the run adds: reached from a root through files whose names were not taken at the start. */
  ghost function Reached(tree: Tree, seen: set<Path>, roots: seq<Root>): (reached: set<Path>)
    ensures reached <= tree.files.Keys
    ensures forall f :: f in reached ==> tree.Flat(f) !in seen
  {
    set f | f in tree.files &&
            exists r :: r in roots && r.path in tree.files && f in NewFiles(tree, seen, r.path, tree.files[r.path])
  }

  /** The flat names a completed run writes. */
  ghost function Written(tree: Tree, seen: set<Path>, roots: seq<Root>): set<Path> {
    Names(tree, Reached(tree, seen, roots) + RootPaths(roots))
  }

  /** The target after a completed run, determined name by name. */
  ghost predicate Outcome(tree: Tree, before: map<Path, Content>, roots: seq<Root>, after: map<Path, Content>) {
    var reached, own := Reached(tree, before.Keys, roots), RootPaths(roots);
    && after.Keys == before.Keys + Names(tree, reached) + Names(tree, own)
    && (forall k :: k in before && k !in Names(tree, own) ==> after[k] == before[k])
    && (forall f :: f in reached && f !in own ==> after[tree.Flat(f)] == HeaderForm(tree, f))
    && (forall p :: p in own ==>
          p in tree.files && tree.Flat(p) in after
          && after[tree.Flat(p)] == RootForm(tree, p, ConditionOf(roots, p)))
  }

  /** The run completes: every root is a file, and no root or reached header has a directive that
      resolves outside the source root. */
  ghost predicate Completes(tree: Tree, seen: set<Path>, roots: seq<Root>) {
    && RootPaths(roots) <= tree.files.Keys
    && Clean(tree, Reached(tree, seen, roots) + RootPaths(roots))
  }

  lemma ReachedClosed(tree: Tree, seen: set<Path>, roots: seq<Root>, f: Path, g: Path)
    requires f in Reached(tree, seen, roots) + RootPaths(roots) && Edge(tree, f, g)
    ensures tree.Flat(g) in seen || g in Reached(tree, seen, roots)
  {
    if f in RootPaths(roots) {
      var r :| r in roots && r.path == f;
      DirectlyNew(tree, seen, f, tree.files[f], g);
    } else {
      var r :| r in roots && r.path in tree.files && f in NewFiles(tree, seen, r.path, tree.files[r.path]);
      NewStep(tree, seen, r.path, tree.files[r.path], f, g);
    }
  }

  lemma ReachedAppend(tree: Tree, seen: set<Path>, roots: seq<Root>, r: Root)
    requires r.path in tree.files
    ensures Reached(tree, seen, roots + [r])
            == Reached(tree, seen, roots) + NewFiles(tree, seen, r.path, tree.files[r.path])
    ensures RootPaths(roots + [r]) == RootPaths(roots) + {r.path}
    ensures forall p :: ConditionOf(roots + [r], p) == if p == r.path then r.condition else ConditionOf(roots, p)
  {
    assert forall q :: q in roots + [r] <==> q in roots || q == r;
    assert (roots + [r])[..|roots|] == roots;
    assert r in roots + [r];
    var whole, part := Reached(tree, seen, roots + [r]), NewFiles(tree, seen, r.path, tree.files[r.path]);
    hide NewFiles;
    forall f | f in part ensures f in whole {}
  }

  /** With more names taken, a copy adds fewer files. */
  lemma NewFilesAntitone(tree: Tree, seen: set<Path>, later: set<Path>, source: Path, content: Content)
    requires seen <= later
    ensures NewFiles(tree, later, source, content) <= NewFiles(tree, seen, source, content)
  {
    forall f | f in NewFiles(tree, later, source, content) ensures FreshTo(tree, seen, source, content, f) {
      hide Includes, Edge;
      var p :| FreshPath(tree, later, p) && Includes(tree, source, content, p[0]) && p[|p| - 1] == f;
      assert FreshPath(tree, seen, p);
    }
  }

  lemma EdgeSource(tree: Tree, f: Path, g: Path)
    requires Edge(tree, f, g)
    ensures f in tree.files && Includes(tree, f, tree.files[f], g)
  {
  }

  /** An edge from a file named after one more root leads to a name that is taken by then. */
  lemma RootEdge(tree: Tree, seen: set<Path>, roots: seq<Root>, r: Root, now: set<Path>, more: set<Path>, f: Path,
                 g: Path)
    requires ValidTree(tree) && r.path in tree.files && RootPaths(roots) <= tree.files.Keys
    requires now == seen + Names(tree, Reached(tree, seen, roots)) + Names(tree, RootPaths(roots))
    requires more == NewFiles(tree, now, r.path, tree.files[r.path])
    requires Edge(tree, f, g) && tree.Flat(f) !in seen
    requires tree.Flat(f) in now + Names(tree, more) + {tree.Flat(r.path)}
    ensures tree.Flat(g) in now + Names(tree, more)
  {
    hide NewFiles, Reached, RootPaths, Includes, Edge;
    var old' := Reached(tree, seen, roots) + RootPaths(roots);
    EdgeSource(tree, f, g);
    NamedBy(tree, old' + more + {r.path}, seen, f);
    if f in old' {
      ReachedClosed(tree, seen, roots, f, g);
    } else {
      NewFilesClosed(tree, now, r.path, tree.files[r.path]);
      assert f == r.path || ClosedOver(tree, now + Names(tree, more), more);
    }
  }

  lemma RootNames(tree: Tree, seen: set<Path>, roots: seq<Root>, r: Root, now: set<Path>, more: set<Path>)
    requires ValidTree(tree) && r.path in tree.files && RootPaths(roots) <= tree.files.Keys
    requires now == seen + Names(tree, Reached(tree, seen, roots)) + Names(tree, RootPaths(roots))
    requires more == NewFiles(tree, now, r.path, tree.files[r.path])
    ensures Names(tree, NewFiles(tree, seen, r.path, tree.files[r.path]))
            <= now + Names(tree, more) + {tree.Flat(r.path)}
  {
    hide NewFiles, Reached, RootPaths, Includes, Edge;
    var closed := now + Names(tree, more) + {tree.Flat(r.path)};
    forall f, g | Edge(tree, f, g) && tree.Flat(f) in closed && tree.Flat(f) !in seen
      ensures tree.Flat(g) in closed
    {
      RootEdge(tree, seen, roots, r, now, more, f, g);
    }
    NewFilesClosed(tree, now, r.path, tree.files[r.path]);
    NewFilesLeast(tree, seen, closed, r.path, tree.files[r.path]);
  }

  lemma NamesUnion(tree: Tree, a: set<Path>, more: set<Path>, own: set<Path>, p: Path, all: set<Path>)
    requires more <= all <= a + more + own + {p} && a <= all
    ensures Names(tree, a) + Names(tree, more) + Names(tree, own) + {tree.Flat(p)}
            == Names(tree, all) + Names(tree, own + {p})
    ensures Names(tree, a + own) + Names(tree, more) + {tree.Flat(p)} == Names(tree, all + (own + {p}))
  {
  }

  lemma RootAddsNames(tree: Tree, seen: set<Path>, roots: seq<Root>, r: Root, now: set<Path>, more: set<Path>)
    requires ValidTree(tree) && r.path in tree.files && RootPaths(roots) <= tree.files.Keys
    requires now == seen + Names(tree, Reached(tree, seen, roots)) + Names(tree, RootPaths(roots))
    requires more == NewFiles(tree, now, r.path, tree.files[r.path])
    ensures now + Names(tree, more) + {tree.Flat(r.path)}
            == seen + Names(tree, Reached(tree, seen, roots + [r])) + Names(tree, RootPaths(roots + [r]))
    ensures Written(tree, seen, roots) + Names(tree, more) + {tree.Flat(r.path)} == Written(tree, seen, roots + [r])
    ensures Reached(tree, seen, roots + [r]) + RootPaths(roots + [r])
            == Reached(tree, seen, roots) + RootPaths(roots) + more + {r.path}
  {
    hide NewFiles, Reached, RootPaths, ConditionOf, Names;
    RootAdds(tree, seen, roots, r, now, more);
    ReachedAppend(tree, seen, roots, r);
    var reached, own, all := Reached(tree, seen, roots), RootPaths(roots), Reached(tree, seen, roots + [r]);
    NamesUnion(tree, reached, more, own, r.path, all);
    SetsUnion(seen, Names(tree, reached), Names(tree, own), Names(tree, more), {tree.Flat(r.path)});
  }

  lemma SetsUnion(a: set<Path>, b: set<Path>, c: set<Path>, d: set<Path>, e: set<Path>)
    ensures a + b + c + d + e == a + (b + d + c + e)
  {
  }

  /** What one more root adds, counted from the start of the run. */
  lemma RootAdds(tree: Tree, seen: set<Path>, roots: seq<Root>, r: Root, now: set<Path>, more: set<Path>)
    requires ValidTree(tree) && r.path in tree.files && RootPaths(roots) <= tree.files.Keys
    requires now == seen + Names(tree, Reached(tree, seen, roots)) + Names(tree, RootPaths(roots))
    requires more == NewFiles(tree, now, r.path, tree.files[r.path])
    ensures more <= Reached(tree, seen, roots + [r]) <= Reached(tree, seen, roots) + more + RootPaths(roots) + {r.path}
    ensures Reached(tree, seen, roots) <= Reached(tree, seen, roots + [r])
  {
    hide NewFiles, Reached, RootPaths, ConditionOf;
    var first := NewFiles(tree, seen, r.path, tree.files[r.path]);
    var held := Reached(tree, seen, roots) + RootPaths(roots) + more + {r.path};
    RootNames(tree, seen, roots, r, now, more);
    NewFilesAntitone(tree, seen, now, r.path, tree.files[r.path]);
    ReachedAppend(tree, seen, roots, r);
    forall f | f in first ensures f in held {
      assert tree.Flat(f) in Names(tree, first);
      NamedBy(tree, held, seen, f);
    }
  }

  lemma NamedBy(tree: Tree, files: set<Path>, seen: set<Path>, f: Path)
    requires ValidTree(tree) && files <= tree.files.Keys && f in tree.files
    requires tree.Flat(f) in seen + Names(tree, files) && tree.Flat(f) !in seen
    ensures f in files
  {
    var f' :| f' in files && tree.Flat(f') == tree.Flat(f);
    FlatInjective(tree, f, f');
  }

  lemma OutcomeAppend(tree: Tree, before: map<Path, Content>, roots: seq<Root>, r: Root,
                      now: map<Path, Content>, next: map<Path, Content>, more: set<Path>)
    requires ValidTree(tree) && r.path in tree.files
    requires Outcome(tree, before, roots, now)
    requires more == NewFiles(tree, now.Keys, r.path, tree.files[r.path])
    requires Copied(tree, now, next, r.path, RootForm(tree, r.path, r.condition), more)
    ensures Outcome(tree, before, roots + [r], next)
  {
    hide NewFiles, Reached, ConditionOf, RootPaths, HeaderForm, RootForm, Written, Names;
    OutcomeRoots(tree, before, roots, now);
    ReachedAppend(tree, before.Keys, roots, r);
    RootAddsNames(tree, before.Keys, roots, r, now.Keys, more);
    HeadersAppend(tree, before, roots, r, now, next, more);
    RootsAppend(tree, before, roots, r, now, next, more);
    NamesAdd(tree, RootPaths(roots), r.path);
  }

  lemma HeadersAppend(tree: Tree, before: map<Path, Content>, roots: seq<Root>, r: Root,
                      now: map<Path, Content>, next: map<Path, Content>, more: set<Path>)
    requires ValidTree(tree) && r.path in tree.files
    requires Outcome(tree, before, roots, now)
    requires more == NewFiles(tree, now.Keys, r.path, tree.files[r.path])
    requires Copied(tree, now, next, r.path, RootForm(tree, r.path, r.condition), more)
    ensures forall f :: f in Reached(tree, before.Keys, roots + [r]) && f !in RootPaths(roots + [r])
              ==> tree.Flat(f) in next && next[tree.Flat(f)] == HeaderForm(tree, f)
  {
    hide NewFiles, Reached, ConditionOf, RootPaths, HeaderForm, RootForm, Written;
    OutcomeRoots(tree, before, roots, now);
    RootAdds(tree, before.Keys, roots, r, now.Keys, more);
    ReachedAppend(tree, before.Keys, roots, r);
    forall f | f in Reached(tree, before.Keys, roots + [r]) && f !in RootPaths(roots + [r])
      ensures tree.Flat(f) in next && next[tree.Flat(f)] == HeaderForm(tree, f)
    {
      FlatInjective(tree, f, r.path);
      if f !in more {
        assert tree.Flat(f) in Names(tree, Reached(tree, before.Keys, roots));
      }
    }
  }

  lemma RootsAppend(tree: Tree, before: map<Path, Content>, roots: seq<Root>, r: Root,
                    now: map<Path, Content>, next: map<Path, Content>, more: set<Path>)
    requires ValidTree(tree) && r.path in tree.files
    requires Outcome(tree, before, roots, now)
    requires Copied(tree, now, next, r.path, RootForm(tree, r.path, r.condition), more)
    ensures forall p :: p in RootPaths(roots + [r]) ==>
              p in tree.files && tree.Flat(p) in next
              && next[tree.Flat(p)] == RootForm(tree, p, ConditionOf(roots + [r], p))
  {
    hide NewFiles, Reached, ConditionOf, RootPaths, HeaderForm, RootForm, Written;
    ReachedAppend(tree, before.Keys, roots, r);
    forall p | p in RootPaths(roots + [r])
      ensures p in tree.files && tree.Flat(p) in next
              && next[tree.Flat(p)] == RootForm(tree, p, ConditionOf(roots + [r], p))
    {
      FlatInjective(tree, p, r.path);
    }
  }

  lemma CompletesPrefix(tree: Tree, seen: set<Path>, roots: seq<Root>, i: nat)
    requires i <= |roots|
    ensures RootPaths(roots[..i]) <= RootPaths(roots)
    ensures Reached(tree, seen, roots[..i]) <= Reached(tree, seen, roots)
    ensures i > 0 ==> roots[i - 1].path in RootPaths(roots)
  {
    assert forall r :: r in roots[..i] ==> r in roots;
  }

  lemma EmptyRun(tree: Tree, before: map<Path, Content>)
    ensures Outcome(tree, before, [], before)
    ensures Reached(tree, before.Keys, []) == {} && RootPaths([]) == {} && Written(tree, before.Keys, []) == {}
  {
  }

  /** Where a run stopped: at a root that is no file, or in the middle of one. When the root itself has the
      directive that raised, the target is known: what was found until then is there, raw. */
  ghost predicate StoppedIn(tree: Tree, now: map<Path, Content>, after: map<Path, Content>, r: Root) {
    && (r.path !in tree.files ==> after == now)
    && (FaultyFile(tree, r.path) ==> Interrupted(tree, now, after, r.path, WithDefines(tree, true, tree.files[r.path])))
  }

  ghost predicate Stopped(tree: Tree, before: map<Path, Content>, roots: seq<Root>, after: map<Path, Content>) {
    exists i, now :: 0 <= i < |roots| && Outcome(tree, before, roots[..i], now) && StoppedIn(tree, now, after, roots[i])
  }

  /** Copies every configured source; `ok` is false when some copy raised. */
  method Configure(project: Project, roots: seq<Root>) returns (ok: bool)
    requires ValidTree(project.tree)
    modifies project`target, project`copied
    ensures ok <==> Completes(project.tree, old(project.target).Keys, roots)
    ensures ok ==> Outcome(project.tree, old(project.target), roots, project.target)
    ensures !ok ==> Stopped(project.tree, old(project.target), roots, project.target)
    ensures ok ==> project.copied == old(project.copied) + Written(project.tree, old(project.target).Keys, roots)
    ensures OthersKept(project.tree, old(project.target), project.target)
  {
    hide NewFiles, Reached, Outcome, ConditionOf, Copied, FaultyFile, RootPaths, Written, Interrupted;
    var tree := project.tree;
    ghost var before := project.target;
    ok := true;
    assert roots[..0] == [];
    EmptyRun(tree, before);
    var i := 0;
    while i < |roots|
      invariant 0 <= i <= |roots| && ok
      invariant Outcome(tree, before, roots[..i], project.target)
      invariant Clean(tree, Reached(tree, before.Keys, roots[..i]) + RootPaths(roots[..i]))
      invariant project.copied == old(project.copied) + Written(tree, before.Keys, roots[..i])
      invariant OthersKept(tree, before, project.target)
    {
      ghost var now, done, r := project.target, roots[..i], roots[i];
      assert roots[..i + 1] == done + [r];
      OutcomeRoots(tree, before, done, now);
      CompletesPrefix(tree, before.Keys, roots, i + 1);
      ok := project.Copy(roots[i].path, true, true, roots[i].condition);
      if r.path in tree.files {
        ghost var more := NewFiles(tree, now.Keys, r.path, tree.files[r.path]);
        RootAddsNames(tree, before.Keys, done, r, now.Keys, more);
        if ok {
          OutcomeAppend(tree, before, done, r, now, project.target, more);
        }
      }
      if !ok {
        assert StoppedIn(tree, now, project.target, roots[i]);
        return;
      }
      i := i + 1;
    }
    assert roots[..|roots|] == roots;
    OutcomeRoots(tree, before, roots, project.target);
  }

  lemma OutcomeRoots(tree: Tree, before: map<Path, Content>, roots: seq<Root>, after: map<Path, Content>)
    requires Outcome(tree, before, roots, after)
    ensures RootPaths(roots) <= tree.files.Keys
    ensures after.Keys == before.Keys + Names(tree, Reached(tree, before.Keys, roots)) + Names(tree, RootPaths(roots))
  {
  }
}
