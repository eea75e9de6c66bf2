/** Reachability in the include graph, relative to the flat names that are already taken. */
module IncludeGraph {
  import opened FlatNames
  import opened SourceTree

  /** A walk along include edges on which no file's flat name is in `seen`. */
  ghost predicate FreshPath(tree: Tree, seen: set<Path>, p: seq<Path>) {
    && |p| > 0
    && (forall i :: 0 <= i < |p| ==> p[i] in tree.files && tree.Flat(p[i]) !in seen)
    && (forall i :: 0 <= i < |p| - 1 ==> Edge(tree, p[i], p[i + 1]))
  }

  /** `f` is reached from the directives of `content` by such a walk. */
  ghost predicate FreshTo(tree: Tree, seen: set<Path>, source: Path, content: Content, f: Path) {
    exists p :: FreshPath(tree, seen, p) && Includes(tree, source, content, p[0]) && p[|p| - 1] == f
  }

  /** The files that copying `content`'s headers adds when the names in `seen` are taken. */
  ghost function NewFiles(tree: Tree, seen: set<Path>, source: Path, content: Content): (added: set<Path>)
    ensures added <= tree.files.Keys
    ensures forall f :: f in added ==> tree.Flat(f) !in seen
  {
    set f | f in tree.files && FreshTo(tree, seen, source, content, f)
  }

  ghost function Names(tree: Tree, files: set<Path>): set<Path> {
    set f | f in files :: tree.Flat(f)
  }

  lemma DirectlyNew(tree: Tree, seen: set<Path>, source: Path, content: Content, g: Path)
    requires Includes(tree, source, content, g)
    ensures tree.Flat(g) in seen || g in NewFiles(tree, seen, source, content)
  {
    if tree.Flat(g) !in seen {
      assert FreshPath(tree, seen, [g]);
    }
  }

  lemma JoinWalks(tree: Tree, seen: set<Path>, later: set<Path>, p: seq<Path>, q: seq<Path>)
    requires seen <= later && FreshPath(tree, seen, p) && FreshPath(tree, later, q)
    requires Edge(tree, p[|p| - 1], q[0])
    ensures FreshPath(tree, seen, p + q)
  {
    hide Edge;
    var r := p + q;
    forall i | 0 <= i < |r| - 1 ensures Edge(tree, r[i], r[i + 1]) {
      if i < |p| - 1 {
      } else if i == |p| - 1 {
      } else {
        assert r[i] == q[i - |p|] && r[i + 1] == q[i - |p| + 1];
      }
    }
    forall i | 0 <= i < |r| ensures r[i] in tree.files && tree.Flat(r[i]) !in seen {}
  }

  lemma NewStep(tree: Tree, seen: set<Path>, source: Path, content: Content, f: Path, g: Path)
    requires f in NewFiles(tree, seen, source, content) && Edge(tree, f, g)
    ensures tree.Flat(g) in seen || g in NewFiles(tree, seen, source, content)
  {
    if tree.Flat(g) !in seen {
      assert g in tree.files;
      hide Includes, Edge;
      var p :| FreshPath(tree, seen, p) && Includes(tree, source, content, p[0]) && p[|p| - 1] == f;
      JoinWalks(tree, seen, seen, p, [g]);
      assert (p + [g])[0] == p[0] && (p + [g])[|p + [g]| - 1] == g;
    }
  }

  /** Every name in `files`' directives is taken or is the name of a file in `files`. */
  ghost predicate ClosedOver(tree: Tree, seen: set<Path>, files: set<Path>) {
    forall f, g :: f in files && Edge(tree, f, g) ==> tree.Flat(g) in seen
  }

  lemma NewFilesClosed(tree: Tree, seen: set<Path>, source: Path, content: Content)
    ensures var new' := NewFiles(tree, seen, source, content);
            ClosedOver(tree, seen + Names(tree, new'), new')
    ensures forall g :: Includes(tree, source, content, g)
                        ==> tree.Flat(g) in seen + Names(tree, NewFiles(tree, seen, source, content))
  {
    var new' := NewFiles(tree, seen, source, content);
    forall f, g | f in new' && Edge(tree, f, g) ensures tree.Flat(g) in seen + Names(tree, new') {
      NewStep(tree, seen, source, content, f, g);
    }
    forall g | Includes(tree, source, content, g) ensures tree.Flat(g) in seen + Names(tree, new') {
      DirectlyNew(tree, seen, source, content, g);
    }
  }

  /** What a nested copy adds, when more names are taken, belongs to the enclosing one. */
  lemma NewFilesNested(tree: Tree, seen: set<Path>, later: set<Path>, source: Path, content: Content, h: Path)
    requires seen <= later
    requires h in NewFiles(tree, seen, source, content)
    ensures h in tree.files
    ensures NewFiles(tree, later, h, tree.files[h]) <= NewFiles(tree, seen, source, content)
  {
    hide Includes;
    var p :| FreshPath(tree, seen, p) && Includes(tree, source, content, p[0]) && p[|p| - 1] == h;
    forall f | f in NewFiles(tree, later, h, tree.files[h])
      ensures FreshTo(tree, seen, source, content, f)
    {
      var q :| FreshPath(tree, later, q) && Includes(tree, h, tree.files[h], q[0]) && q[|q| - 1] == f;
      JoinWalks(tree, seen, later, p, q);
      assert (p + q)[0] == p[0] && (p + q)[|p + q| - 1] == f;
    }
  }

  /** A set of names that takes in the directives of `content` and is closed holds every new name. */
  lemma NewFilesLeast(tree: Tree, seen: set<Path>, closed: set<Path>, source: Path, content: Content)
    requires forall g :: Includes(tree, source, content, g) ==> tree.Flat(g) in closed
    requires forall f, g :: Edge(tree, f, g) && tree.Flat(f) in closed && tree.Flat(f) !in seen
                            ==> tree.Flat(g) in closed
    ensures Names(tree, NewFiles(tree, seen, source, content)) <= closed
  {
    forall f | f in NewFiles(tree, seen, source, content)
      ensures tree.Flat(f) in closed
    {
      var p :| FreshPath(tree, seen, p) && Includes(tree, source, content, p[0]) && p[|p| - 1] == f;
      WalkWithinClosed(tree, seen, closed, p, |p| - 1);
    }
  }

  lemma {:induction false} WalkWithinClosed(tree: Tree, seen: set<Path>, closed: set<Path>, p: seq<Path>, k: nat)
    requires FreshPath(tree, seen, p) && k < |p|
    requires tree.Flat(p[0]) in closed
    requires forall f, g :: Edge(tree, f, g) && tree.Flat(f) in closed && tree.Flat(f) !in seen
                            ==> tree.Flat(g) in closed
    ensures tree.Flat(p[k]) in closed
  {
    if k > 0 {
      WalkWithinClosed(tree, seen, closed, p, k - 1);
      assert Edge(tree, p[k - 1], p[k]);
    }
  }

  /** The prepended definitions hold no directive. */
  lemma DefinesIncludeNothing(tree: Tree, source: Path, content: Content, prepare: bool)
    ensures forall g :: Includes(tree, source, WithDefines(tree, prepare, content), g)
                        <==> Includes(tree, source, content, g)
    ensures Faulty(tree, source, WithDefines(tree, prepare, content)) <==> Faulty(tree, source, content)
  {
    if prepare {
      var whole := WithDefines(tree, prepare, content);
      assert forall i :: 0 <= i < |content| ==> whole[i + 1] == content[i];
      forall g
        ensures Includes(tree, source, whole, g) <==> Includes(tree, source, content, g)
      {
        if i :| 0 <= i < |whole| && whole[i].Include? && Resolve(tree, source, whole[i].header) == Found(g) {
          assert content[i - 1] == whole[i];
        }
        if i :| 0 <= i < |content| && content[i].Include? && Resolve(tree, source, content[i].header) == Found(g) {
          assert whole[i + 1] == content[i];
        }
      }
      if i :| 0 <= i < |whole| && whole[i].Include? && Resolve(tree, source, whole[i].header).Escapes? {
        assert content[i - 1] == whole[i];
      }
      if i :| 0 <= i < |content| && content[i].Include? && Resolve(tree, source, content[i].header).Escapes? {
        assert whole[i + 1] == content[i];
      }
    }
  }

  lemma DefinesAddNoFiles(tree: Tree, seen: set<Path>, source: Path, content: Content, prepare: bool)
    ensures NewFiles(tree, seen, source, WithDefines(tree, prepare, content)) == NewFiles(tree, seen, source, content)
  {
    DefinesIncludeNothing(tree, source, content, prepare);
  }

  // ---- The flat names not yet taken: the termination measure ------------------------------

  ghost function UnseenFiles(tree: Tree, seen: set<Path>): set<Path> {
    set f | f in tree.files && tree.Flat(f) !in seen
  }

  lemma UnseenShrinks(tree: Tree, seen: set<Path>, later: set<Path>)
    requires seen <= later
    ensures |UnseenFiles(tree, later)| <= |UnseenFiles(tree, seen)|
    ensures (exists f :: f in tree.files && tree.Flat(f) in later - seen)
            ==> |UnseenFiles(tree, later)| < |UnseenFiles(tree, seen)|
  {
    SubsetSize(UnseenFiles(tree, later), UnseenFiles(tree, seen));
    if f :| f in tree.files && tree.Flat(f) in later - seen {
      SubsetSize(UnseenFiles(tree, later), UnseenFiles(tree, seen) - {f});
    }
  }

  lemma SubsetSize<T>(a: set<T>, b: set<T>)
    requires a <= b
    ensures |a| <= |b|
  {
    assert b == a + (b - a);
  }
}
