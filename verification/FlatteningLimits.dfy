/** Small runs in which flattening changes a meaning, or leaves a raw header behind. */
module FlatteningLimits {
  import opened FlatNames
  import opened SourceTree
  import opened IncludeGraph
  import opened Flattening
  import opened Configuration
  import opened Runs
  import opened Meaning
  import opened Wrappers

  const MAIN: Path := ["a.c"]
  const HEADER: Path := ["b.h"]
  const SOURCES: seq<Root> := [Root(MAIN, None)]

  /** A tree of one source with one directive, besides a header that includes itself. */
  function Small(directive: Path): Tree {
    Tree(["libuv"], "uv", [], "#define D\n", map[MAIN := [Include("", Header(false, directive))],
                                                HEADER := [Include("", Header(false, HEADER))]])
  }

  /** The same tree with a second directive in the source, which leaves the tree. */
  function Broken(): Tree {
    Small(HEADER).(files := Small(HEADER).files[MAIN := [Include("", Header(false, HEADER)),
                                                          Include("", Header(false, ["..", "x.h"]))]])
  }

  predicate IsSmall(tree: Tree) {
    tree.root == ["libuv"] && tree.prefix == "uv" && tree.searched == [] && tree.files.Keys == {MAIN, HEADER}
  }

  lemma SmallNames(tree: Tree)
    requires IsSmall(tree)
    ensures ValidTree(tree) && tree.Flat(MAIN) == ["uv#a.c"] && tree.Flat(HEADER) == ["uv#b.h"]
    ensures RootPaths(SOURCES) == {MAIN}
  {
    assert Join('#', ["uv"] + MAIN) == "uv" + ['#'] + Join('#', MAIN) == "uv#a.c" by {
      assert (["uv"] + MAIN)[1..] == MAIN;
    }
    assert Join('#', ["uv"] + HEADER) == "uv" + ['#'] + Join('#', HEADER) == "uv#b.h" by {
      assert (["uv"] + HEADER)[1..] == HEADER;
    }
    assert Root(MAIN, None) in SOURCES;
  }

  /** The only directory to look in is the root, where the files are. */
  lemma SmallSearch(tree: Tree, source: Path, h: Header)
    requires IsSmall(tree) && |source| == 1
    ensures Resolve(tree, source, h) ==
            match Locate(tree, [], h)
            case None => Escapes
            case Some(p) => if p in tree.files then Found(p) else Missing
  {
    var root: seq<Path> := [[]];
    assert Parent(source) == [];
    assert SearchPath(tree, source) == root && root[0] == [] && root[1..] == [];
    assert Search(tree, root[1..], h) == Missing;
  }

  lemma SmallResolve(tree: Tree, source: Path, name: string)
    requires IsSmall(tree) && name != ".." && |source| == 1
    ensures Resolve(tree, source, Header(false, [name]))
            == if [name] == MAIN || [name] == HEADER then Found([name]) else Missing
  {
    var h := Header(false, [name]);
    var file := tree.root + [name];
    assert [] + h.parts == [name];
    assert Collapse(tree.root, [name]) == Collapse(file, []) == file by {
      assert [name][1..] == [];
    }
    assert file[..1] == tree.root && file[1..] == [name];
    assert Locate(tree, [], h) == Some([name]);
    SmallSearch(tree, source, h);
    assert [name] in tree.files.Keys <==> [name] == MAIN || [name] == HEADER;
  }

  lemma SmallEscape(tree: Tree)
    requires IsSmall(tree)
    ensures Resolve(tree, MAIN, Header(false, ["..", "x.h"])).Escapes?
  {
    var parts: Path := ["..", "x.h"];
    assert [] + parts == parts && parts[1..] == ["x.h"] && ["x.h"][1..] == [];
    assert Collapse(tree.root, parts) == Collapse([], ["x.h"]) == Collapse(["x.h"], []) == ["x.h"] by {
      assert Parent(tree.root) == [] && [] + ["x.h"] == ["x.h"];
    }
    assert ["x.h"][0] != tree.root[0];
    SmallSearch(tree, MAIN, Header(false, parts));
  }

  lemma SmallCompletes(name: string, seen: set<Path>)
    requires name != ".."
    ensures Completes(Small([name]), seen, SOURCES)
  {
    var tree := Small([name]);
    SmallNames(tree);
    forall f | f in tree.files ensures !FaultyFile(tree, f) {
      SmallResolve(tree, f, name);
      SmallResolve(tree, f, "b.h");
    }
    hide FaultyFile;
  }

  /** A header the tree does not have, spelled like a flat name: it is left to the system by the sources and
      found by the flat files. */
  method CapturedHeader() returns (project: Project, ok: bool)
    ensures ok && project.tree == Small(["uv#a.c"]) && !SameMeaning(project.tree, project.target, SOURCES)
    ensures !NoHeaderSpelled(project.tree, map[], SOURCES)
  {
    hide Outcome, Completes, Flattened, SameMeaning, Reached;
    var tree := Small(["uv#a.c"]);
    SmallNames(tree);
    var before: map<Path, Content> := map[];
    SmallCompletes("uv#a.c", before.Keys);
    project := new Project(tree, before);
    ok := Configure(project, SOURCES);
    FreshRunMeaning(tree, before, SOURCES, project.target);
    SmallResolve(tree, MAIN, "uv#a.c");
    assert tree.files[MAIN][0].header.parts in Names(tree, Reachable(tree, SOURCES) + RootPaths(SOURCES));
  }

  /** A source that includes itself: the flat file brings its wrapping along. */
  method IncludedSource() returns (project: Project, ok: bool)
    ensures ok && project.tree == Small(MAIN) && !SameMeaning(project.tree, project.target, SOURCES)
    ensures !NoRootIncluded(project.tree, SOURCES)
  {
    hide Outcome, Completes, Flattened, SameMeaning, NoHeaderSpelled, Reached;
    var tree := Small(MAIN);
    SmallNames(tree);
    var before: map<Path, Content> := map[];
    SmallCompletes("a.c", before.Keys);
    project := new Project(tree, before);
    ok := Configure(project, SOURCES);
    FreshRunMeaning(tree, before, SOURCES, project.target);
    SmallResolve(tree, MAIN, "a.c");
    assert tree.files[MAIN][0].Include?;
    EdgeStays(tree, SOURCES, MAIN, MAIN);
  }

  /** A run over the broken tree raises in the middle of the source and leaves the header raw. */
  method BrokenRun() returns (project: Project, ok: bool)
    ensures project.tree == Broken() && !ok
    ensures ["uv#b.h"] in project.target && project.target[["uv#b.h"]] == Broken().files[HEADER]
  {
    hide Outcome, Interrupted;
    var tree := Broken();
    var before: map<Path, Content> := map[];
    SmallNames(tree);
    SmallEscape(tree);
    assert tree.files[MAIN][1].Include?;
    assert FaultyFile(tree, MAIN);
    project := new Project(tree, before);
    ok := Configure(project, SOURCES);
    BrokenLeaves(project.target);
  }

  lemma NothingCopied(tree: Tree, now: map<Path, Content>)
    requires Outcome(tree, map[], [], now)
    ensures now == map[]
  {
    EmptyRun(tree, map[]);
  }

  lemma BrokenLeaves(after: map<Path, Content>)
    requires Stopped(Broken(), map[], SOURCES, after)
    ensures ["uv#b.h"] in after && after[["uv#b.h"]] == Broken().files[HEADER]
  {
    var tree := Broken();
    var content := WithDefines(tree, true, tree.files[MAIN]);
    hide Resolve, Outcome;
    SmallNames(tree);
    SmallEscape(tree);
    SmallResolve(tree, MAIN, "b.h");
    assert tree.files[MAIN][1].Include?;
    var i, now :| 0 <= i < |SOURCES| && Outcome(tree, map[], SOURCES[..i], now)
                  && StoppedIn(tree, now, after, SOURCES[i]);
    assert SOURCES[..i] == [];
    NothingCopied(tree, now);
    assert FaultyFile(tree, MAIN);
    var k :| 0 <= k < |content| && content[k].Include? && Resolve(tree, MAIN, content[k].header).Escapes?
             && RawSoFar(tree, now, after, MAIN, content, k);
    assert k == 2;
    assert RawCopy(tree, now, after, MAIN, content[1].header);
  }

  /** Once the tree is repaired, a run completes; the header the interrupted run left stays raw. */
  method InterruptedRun() returns (project: Project, ok: bool)
    ensures project.tree == Small(HEADER) && ok
    ensures project.tree.Flat(HEADER) in project.target
    ensures project.target[project.tree.Flat(HEADER)] == project.tree.files[HEADER]
    ensures !FullyRelocated(project.tree, SOURCES, project.target)
  {
    hide Completes, Reached, Stopped;
    var broken, finished := BrokenRun();
    var tree := Small(HEADER);
    SmallNames(tree);
    SmallCompletes("b.h", broken.target.Keys);
    project := new Project(tree, broken.target);
    ok := Configure(project, SOURCES);
    SmallResolve(tree, MAIN, "b.h");
    SmallResolve(tree, HEADER, "b.h");
    assert tree.files[MAIN][0].Include?;
    EdgeStays(tree, SOURCES, MAIN, HEADER);
    assert HeaderForm(tree, HEADER)[0] == Include("", Header(false, ["uv#b.h"]));
    assert "uv#b.h" != "b.h";
  }
}
