/** Which file a directive means: the source's own directory first, then the include directories in order. */
module HeaderSearch {
  import opened FlatNames
  import opened SourceTree
  import opened Wrappers

  /** No component goes up. */
  predicate Ordinary(p: Path) {
    ".." !in p
  }

  function Ups(n: nat): Path {
    if n == 0 then [] else [".."] + Ups(n - 1)
  }

  // ---- Collapsing -------------------------------------------------------------------------

  lemma {:induction false} CollapseAppend(stack: Path, p: Path, q: Path)
    ensures Collapse(stack, p + q) == Collapse(Collapse(stack, p), q)
    decreases |p|
  {
    if p == [] {
      assert p + q == q;
    } else {
      assert (p + q)[1..] == p[1..] + q;
      CollapseAppend(if p[0] == ".." then Parent(stack) else stack + [p[0]], p[1..], q);
    }
  }

  lemma {:induction false} CollapseOrdinary(stack: Path, p: Path)
    requires Ordinary(p)
    ensures Collapse(stack, p) == stack + p
    decreases |p|
  {
    if p != [] {
      assert p[0] in p && forall x :: x in p[1..] ==> x in p;
      CollapseOrdinary(stack + [p[0]], p[1..]);
      assert stack + [p[0]] + p[1..] == stack + p;
    }
  }

  lemma {:induction false} CollapseUps(stack: Path, n: nat)
    ensures Collapse(stack, Ups(n)) == if n <= |stack| then stack[..|stack| - n] else []
    decreases n
  {
    if n > 0 {
      assert Ups(n)[1..] == Ups(n - 1);
      CollapseUps(Parent(stack), n - 1);
    }
  }

  // ---- Where a relative header leads from a directory -------------------------------------

  /** `n` steps up from a directory and down again; steps above the tree have to come back into it. */
  function Target(root: Path, directory: Path, n: nat, rest: Path): Option<Path> {
    if n <= |directory| then Some(directory[..|directory| - n] + rest)
    else
      var kept := if n - |directory| <= |root| then |root| - (n - |directory|) else 0;
      if root[kept..] <= rest then Some(rest[|root| - kept..]) else None
  }

  lemma BackInto(root: Path, kept: nat, rest: Path)
    requires kept <= |root|
    ensures root <= root[..kept] + rest <==> root[kept..] <= rest
    ensures root[kept..] <= rest ==> (root[..kept] + rest)[|root|..] == rest[|root| - kept..]
  {
    var all := root[..kept] + rest;
    if root <= all {
      assert forall i :: kept <= i < |root| ==> root[i] == all[i] == rest[i - kept];
    }
    if root[kept..] <= rest {
      assert forall i :: kept <= i < |root| ==> root[i] == root[kept..][i - kept] == rest[i - kept] == all[i];
    }
  }

  lemma CollapseRelative(root: Path, directory: Path, n: nat, rest: Path)
    requires Ordinary(directory) && Ordinary(rest)
    ensures Collapse(root, directory + (Ups(n) + rest)) == Collapse(root + directory, Ups(n)) + rest
  {
    CollapseAppend(root, directory, Ups(n) + rest);
    CollapseOrdinary(root, directory);
    CollapseAppend(root + directory, Ups(n), rest);
    CollapseOrdinary(Collapse(root + directory, Ups(n)), rest);
  }

  lemma Above(root: Path, directory: Path, n: nat)
    ensures Collapse(root + directory, Ups(n)) ==
            if n <= |directory| then root + directory[..|directory| - n]
            else if n <= |root| + |directory| then root[..|root| + |directory| - n]
            else []
  {
    hide Collapse, Ups;
    CollapseUps(root + directory, n);
    if n <= |root| + |directory| {
      TakeOfTwo(root, directory, |root| + |directory| - n);
    }
  }

  lemma TakeOfTwo(p: Path, q: Path, m: nat)
    requires m <= |p| + |q|
    ensures (p + q)[..m] == if m >= |p| then p + q[..m - |p|] else p[..m]
  {
  }

  lemma LocateRelative(tree: Tree, directory: Path, n: nat, rest: Path)
    requires Ordinary(directory) && Ordinary(rest)
    ensures Locate(tree, directory, Header(false, Ups(n) + rest)) == Target(tree.root, directory, n, rest)
  {
    hide Collapse, Ups;
    CollapseRelative(tree.root, directory, n, rest);
    Above(tree.root, directory, n);
    if n <= |directory| {
      var below := directory[..|directory| - n] + rest;
      assert tree.root + directory[..|directory| - n] + rest == tree.root + below;
    } else {
      BackInto(tree.root, if n - |directory| <= |tree.root| then |tree.root| - (n - |directory|) else 0, rest);
    }
  }

  // ---- The search -------------------------------------------------------------------------

  /** A relative header, by the first directory that does not miss it: the source's own, then those of the tree. */
  lemma RelativeHeader(tree: Tree, source: Path, n: nat, rest: Path, k: nat)
    requires source != [] && Ordinary(source) && Ordinary(rest)
    requires forall d :: d in tree.searched ==> Ordinary(d)
    requires k <= |tree.searched| + 1
    requires var ds := [source[..|source| - 1]] + tree.searched;
             && (forall i :: 0 <= i < k ==>
                   var t := Target(tree.root, ds[i], n, rest); t.Some? && t.value !in tree.files)
             && (k < |ds| ==> var t := Target(tree.root, ds[k], n, rest); t.Some? ==> t.value in tree.files)
    ensures var ds := [source[..|source| - 1]] + tree.searched;
            Resolve(tree, source, Header(false, Ups(n) + rest)) ==
            if k == |ds| then Missing
            else match Target(tree.root, ds[k], n, rest)
              case None => Escapes
              case Some(file) => Found(file)
  {
    var ds := [source[..|source| - 1]] + tree.searched;
    var h := Header(false, Ups(n) + rest);
    assert forall x :: x in ds[0] ==> x in source;
    forall i | 0 <= i < |ds| ensures Locate(tree, ds[i], h) == Target(tree.root, ds[i], n, rest) {
      LocateRelative(tree, ds[i], n, rest);
    }
    SearchIsFirstMatch(tree, ds, h, k);
  }

  /** A header of ordinary components is looked for beside the source, then in each include directory in order. */
  lemma OrdinaryHeader(tree: Tree, source: Path, parts: Path)
    requires source != [] && Ordinary(source) && Ordinary(parts)
    requires forall d :: d in tree.searched ==> Ordinary(d)
    ensures var own, r := source[..|source| - 1] + parts, Resolve(tree, source, Header(false, parts));
            if own in tree.files then r == Found(own)
            else
              && (forall k :: 0 <= k < |tree.searched| && tree.searched[k] + parts in tree.files
                              && (forall i :: 0 <= i < k ==> tree.searched[i] + parts !in tree.files)
                    ==> r == Found(tree.searched[k] + parts))
              && ((forall k :: 0 <= k < |tree.searched| ==> tree.searched[k] + parts !in tree.files) ==> r == Missing)
  {
    var own := source[..|source| - 1] + parts;
    if own in tree.files {
      OrdinaryAt(tree, source, parts, 0);
    } else {
      forall k | 0 <= k < |tree.searched| && (forall i :: 0 <= i < k ==> tree.searched[i] + parts !in tree.files)
                 && tree.searched[k] + parts in tree.files
        ensures Resolve(tree, source, Header(false, parts)) == Found(tree.searched[k] + parts)
      {
        OrdinaryAt(tree, source, parts, k + 1);
      }
      if forall k :: 0 <= k < |tree.searched| ==> tree.searched[k] + parts !in tree.files {
        OrdinaryAt(tree, source, parts, |tree.searched| + 1);
      }
    }
  }

  lemma OrdinaryAt(tree: Tree, source: Path, parts: Path, k: nat)
    requires source != [] && Ordinary(source) && Ordinary(parts)
    requires forall d :: d in tree.searched ==> Ordinary(d)
    requires var ds := [source[..|source| - 1]] + tree.searched;
             && k <= |ds| && (forall i :: 0 <= i < k ==> ds[i] + parts !in tree.files)
             && (k < |ds| ==> ds[k] + parts in tree.files)
    ensures var ds := [source[..|source| - 1]] + tree.searched;
            Resolve(tree, source, Header(false, parts)) == if k == |ds| then Missing else Found(ds[k] + parts)
  {
    var ds := [source[..|source| - 1]] + tree.searched;
    assert Ups(0) + parts == parts;
    forall d: Path ensures Target(tree.root, d, 0, parts) == Some(d + parts) {
      assert d[..|d|] == d;
    }
    RelativeHeader(tree, source, 0, parts, k);
  }

  /** An absolute header means the same everywhere: its place below the root. */
  lemma AbsoluteHeader(tree: Tree, source: Path, parts: Path)
    requires Ordinary(parts)
    ensures Resolve(tree, source, Header(true, parts)) ==
            if !(tree.root <= parts) then Escapes
            else if parts[|tree.root|..] in tree.files then Found(parts[|tree.root|..])
            else Missing
  {
    var ds := SearchPath(tree, source);
    var h := Header(true, parts);
    CollapseOrdinary([], parts);
    assert [] + parts == parts;
    var here := tree.root <= parts;
    assert forall i :: 0 <= i < |ds| ==> Locate(tree, ds[i], h) == if here then Some(parts[|tree.root|..]) else None;
    SearchIsFirstMatch(tree, ds, h, if here && parts[|tree.root|..] !in tree.files then |ds| else 0);
  }

  /** A component followed by `..` can be left out of a header, wherever it stands. */
  lemma DotDotCancels(tree: Tree, source: Path, absolute: bool, a: Path, x: string, b: Path)
    requires x != ".."
    ensures Resolve(tree, source, Header(absolute, a + [x, ".."] + b)) == Resolve(tree, source, Header(absolute, a + b))
  {
    SearchCancels(tree, SearchPath(tree, source), absolute, a, x, b);
  }

  lemma CollapseCancels(stack: Path, a: Path, x: string, b: Path)
    requires x != ".."
    ensures Collapse(stack, a + [x, ".."] + b) == Collapse(stack, a + b)
  {
    var s := Collapse(stack, a);
    CollapseAppend(stack, a + [x, ".."], b);
    CollapseAppend(stack, a, [x, ".."]);
    CollapseAppend(stack, a, b);
    assert [x, ".."][1..] == [".."] && [".."][1..] == [];
    assert Collapse(s, [x, ".."]) == Collapse(s + [x], [".."]) == Collapse(Parent(s + [x]), []) == s;
  }

  lemma {:induction false} SearchCancels(tree: Tree, directories: seq<Path>, absolute: bool,
                                         a: Path, x: string, b: Path)
    requires x != ".."
    ensures Search(tree, directories, Header(absolute, a + [x, ".."] + b)) ==
            Search(tree, directories, Header(absolute, a + b))
    decreases |directories|
  {
    if directories != [] {
      var d := directories[0];
      assert d + (a + [x, ".."] + b) == d + a + [x, ".."] + b && d + (a + b) == d + a + b;
      CollapseCancels([], a, x, b);
      CollapseCancels(tree.root, d + a, x, b);
      SearchCancels(tree, directories[1..], absolute, a, x, b);
    }
  }
}
