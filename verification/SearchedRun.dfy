/** A whole run whose headers lie in the include directories. */
module SearchedRuns {
  import opened FlatNames
  import opened SourceTree
  import opened HeaderSearch
  import opened IncludeGraph
  import opened Flattening
  import opened Configuration
  import opened Runs
  import opened Wrappers
  const CORE: Path := ["src", "unix", "core.c"]
  const PUBLIC: Path := ["include", "uv.h"]
  const COMMON: Path := ["src", "uv-common.h"]
  const CORES: seq<Root> := [Root(CORE, None)]

  /** A source two directories down that names one header of each include directory. */
  function Searched(): Tree {
    Tree(["libuv"], "uv", [["include"], ["src"]], "#define D\n",
         map[CORE := [Include("", Header(false, ["uv.h"])), Include(" ", Header(false, ["uv-common.h"]))],
             PUBLIC := [Text("u")],
             COMMON := [Text("c"), Include("", Header(false, ["stdio.h"]))]])
  }

  lemma SearchedFiles()
    ensures Searched().files.Keys == {CORE, PUBLIC, COMMON}
    ensures CORE != PUBLIC && CORE != COMMON && PUBLIC != COMMON
  {
    assert |CORE| == 3 && |PUBLIC| == |COMMON| == 2 && PUBLIC[0] != COMMON[0] by {
      assert PUBLIC[0][0] != COMMON[0][0];
    }
  }

  lemma JoinTwo(a: string, b: string)
    ensures Join('#', [a, b]) == a + ['#'] + b
  {
    assert [a, b][1..] == [b];
  }

  lemma JoinThree(a: string, b: string, c: string)
    ensures Join('#', [a, b, c]) == a + ['#'] + b + ['#'] + c
  {
    JoinTwo(b, c);
    assert [a, b, c][1..] == [b, c];
    assert a + ['#'] + (b + ['#'] + c) == a + ['#'] + b + ['#'] + c;
  }

  lemma JoinFour(a: string, b: string, c: string, d: string)
    ensures Join('#', [a, b, c, d]) == a + ['#'] + (b + ['#'] + c + ['#'] + d)
  {
    JoinThree(b, c, d);
    assert [a, b, c, d][1..] == [b, c, d];
  }

  lemma Spelled()
    ensures "uv" + ['#'] + "include" + ['#'] + "uv.h" == "uv#include#uv.h"
    ensures "uv" + ['#'] + "src" + ['#'] + "uv-common.h" == "uv#src#uv-common.h"
    ensures "uv" + ['#'] + ("src" + ['#'] + "unix" + ['#'] + "core.c") == "uv#src#unix#core.c"
  {
    assert "src" + ['#'] + "unix" + ['#'] + "core.c" == "src#unix#core.c";
  }

  lemma SearchedNames()
    ensures Searched().Flat(CORE) == ["uv#src#unix#core.c"]
    ensures Searched().Flat(PUBLIC) == ["uv#include#uv.h"] && Searched().Flat(COMMON) == ["uv#src#uv-common.h"]
  {
    hide Join;
    JoinThree("uv", "include", "uv.h");
    JoinThree("uv", "src", "uv-common.h");
    JoinFour("uv", "src", "unix", "core.c");
    Spelled();
    assert ["uv"] + PUBLIC == ["uv", "include", "uv.h"] && ["uv"] + COMMON == ["uv", "src", "uv-common.h"];
    assert ["uv"] + CORE == ["uv", "src", "unix", "core.c"];
  }

  lemma SearchedValid()
    ensures ValidTree(Searched())
    ensures RootPaths(CORES) == {CORE} && RootPaths(CORES) <= Searched().files.Keys
  {
    SearchedFiles();
    assert Root(CORE, None) in CORES;
    assert AllPlain('#', CORE) && AllPlain('#', PUBLIC) && AllPlain('#', COMMON);
  }

  lemma SearchedOrdinary()
    ensures Ordinary(CORE) && Ordinary(COMMON) && Ordinary(PUBLIC)
    ensures Ordinary(["uv.h"]) && Ordinary(["uv-common.h"]) && Ordinary(["stdio.h"])
    ensures forall d :: d in Searched().searched ==> Ordinary(d)
  {
  }

  lemma FromCore()
    ensures Resolve(Searched(), CORE, Header(false, ["uv.h"])) == Found(PUBLIC)
    ensures Resolve(Searched(), CORE, Header(false, ["uv-common.h"])) == Found(COMMON)
  {
    hide Resolve, Ordinary;
    var tree := Searched();
    SearchedFiles();
    SearchedOrdinary();
    OrdinaryHeader(tree, CORE, ["uv.h"]);
    OrdinaryHeader(tree, CORE, ["uv-common.h"]);
    assert CORE[..2] == ["src", "unix"];
    var own, own', first := ["src", "unix", "uv.h"], ["src", "unix", "uv-common.h"], ["include", "uv-common.h"];
    assert ["src", "unix"] + ["uv.h"] == own && ["src", "unix"] + ["uv-common.h"] == own';
    assert own[2] != CORE[2] && own'[2] != CORE[2];
    assert tree.searched[0] + ["uv.h"] == PUBLIC && tree.searched[1] + ["uv-common.h"] == COMMON;
    assert tree.searched[0] + ["uv-common.h"] == first && first[0] != COMMON[0] && first[1] != PUBLIC[1];
  }

  lemma FromCommon()
    ensures Resolve(Searched(), COMMON, Header(false, ["stdio.h"])) == Missing
  {
    hide Resolve, Ordinary;
    var tree := Searched();
    SearchedFiles();
    SearchedOrdinary();
    OrdinaryHeader(tree, COMMON, ["stdio.h"]);
    assert COMMON[..1] == ["src"];
    assert ["src"] + ["stdio.h"] == ["src", "stdio.h"] && ["include"] + ["stdio.h"] == ["include", "stdio.h"];
    assert "stdio.h" != COMMON[1] && "stdio.h" != PUBLIC[1];
  }

  /** The headers are taken from the first and the second include directory, written and relocated in turn. */
  method SearchedHeaders() returns (project: Project, ok: bool)
    ensures ok && project.tree == Searched()
    ensures project.target ==
            map[["uv#src#unix#core.c"] := [Text("#define D\n"),
                                           Include("", Header(false, ["uv#include#uv.h"])),
                                           Include(" ", Header(false, ["uv#src#uv-common.h"]))],
                ["uv#include#uv.h"] := [Text("u")],
                ["uv#src#uv-common.h"] := [Text("c"), Include("", Header(false, ["stdio.h"]))]]
  {
    hide Outcome, Completes, ValidTree, RootForm, HeaderForm;
    var tree := Searched();
    SearchedValid();
    SearchedForms();
    var before: map<Path, Content> := map[];
    assert before.Keys == {};
    SearchedCompletes();
    project := new Project(tree, before);
    ok := Configure(project, CORES);
    SearchedTarget(project.target);
  }

  lemma SearchedCompletes()
    ensures Completes(Searched(), {}, CORES)
  {
    hide Resolve, Reached;
    SearchedFiles();
    SearchedValid();
    FromCore();
    FromCommon();
  }

  lemma SearchedReachable()
    ensures RootPaths(CORES) == {CORE}
    ensures Reachable(Searched(), CORES) + {CORE} == {CORE, PUBLIC, COMMON}
    ensures PUBLIC in Reachable(Searched(), CORES) && COMMON in Reachable(Searched(), CORES)
  {
    hide Reached, Resolve;
    var tree := Searched();
    SearchedFiles();
    SearchedValid();
    FromCore();
    assert tree.files[CORE][0].Include? && tree.files[CORE][1].Include?;
    ReachedClosed(tree, {}, CORES, CORE, PUBLIC);
    ReachedClosed(tree, {}, CORES, CORE, COMMON);
  }

  lemma SearchedForms()
    ensures var tree := Searched();
            && HeaderForm(tree, PUBLIC) == [Text("u")]
            && HeaderForm(tree, COMMON) == [Text("c"), Include("", Header(false, ["stdio.h"]))]
            && RootForm(tree, CORE, None) == [Text("#define D\n"), Include("", Header(false, ["uv#include#uv.h"])),
                                              Include(" ", Header(false, ["uv#src#uv-common.h"]))]
  {
    hide Resolve;
    SearchedFiles();
    SearchedNames();
    FromCore();
    FromCommon();
  }

  lemma SearchedTarget(after: map<Path, Content>)
    requires Outcome(Searched(), map[], CORES, after)
    ensures after == map[["uv#src#unix#core.c"] := RootForm(Searched(), CORE, None),
                         ["uv#include#uv.h"] := HeaderForm(Searched(), PUBLIC),
                         ["uv#src#uv-common.h"] := HeaderForm(Searched(), COMMON)]
  {
    hide Reached, Resolve, RootForm, HeaderForm, ValidTree, Mangle;
    var tree := Searched();
    SearchedFiles();
    SearchedValid();
    SearchedNames();
    SearchedReachable();
    FreshRun(tree, map[], CORES, after);
    assert ConditionOf(CORES, CORE) == None;
    assert Names(tree, {CORE, PUBLIC, COMMON}) == {tree.Flat(CORE), tree.Flat(PUBLIC), tree.Flat(COMMON)};
  }
}
