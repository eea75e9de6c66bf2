/** The source tree that is flattened: tokenised files, header resolution and the include graph. */
module SourceTree {
  import opened FlatNames
  import opened Wrappers

  /** `Path(header)`: the normalised components of a quoted header. */
  datatype Header = Header(absolute: bool, parts: Path)

  /** A file is text interleaved with `#<indent>include "<header>"` directives. */
  datatype Token = Text(text: string) | Include(indent: string, header: Header)

  type Content = seq<Token>

  /** `root` is the resolved location of the tree, `searched` the include directories below it, `defines` the
      text put in front of configured sources. */
  datatype Tree = Tree(root: Path, prefix: string, searched: seq<Path>, defines: string, files: map<Path, Content>) {
    function Flat(p: Path): (flat: Path)
      ensures |flat| == 1
    {
      Mangle(prefix, p)
    }
  }

  /** What libuv's tree satisfies: no component of a file's path contains `#`. */
  ghost predicate ValidTree(tree: Tree) {
    forall p :: p in tree.files ==> p != [] && AllPlain('#', p)
  }

  lemma FlatInjective(tree: Tree, p: Path, q: Path)
    requires ValidTree(tree) && p in tree.files && q in tree.files
    ensures tree.Flat(p) == tree.Flat(q) ==> p == q
  {
    if tree.Flat(p) == tree.Flat(q) {
      MangleInjective(tree.prefix, p, q);
    }
  }

  // ---- Header resolution ------------------------------------------------------------------

  function Parent(p: Path): Path {
    if p == [] then [] else p[..|p| - 1]
  }

  /** `Path.resolve` on a tree without symbolic links: `..` drops a component, `/..` is `/`. */
  function Collapse(stack: Path, parts: Path): Path
    decreases |parts|
  {
    if parts == [] then stack
    else if parts[0] == ".." then Collapse(Parent(stack), parts[1..])
    else Collapse(stack + [parts[0]], parts[1..])
  }

  /** `(directory / header).resolve().relative_to(root)`; `None` is the `ValueError`. */
  function Locate(tree: Tree, directory: Path, h: Header): Option<Path> {
    var resolved := if h.absolute then Collapse([], h.parts)
                    else Collapse(tree.root, directory + h.parts);
    if tree.root <= resolved then Some(resolved[|tree.root|..]) else None
  }

  datatype Resolution = Found(path: Path) | Missing | Escapes

  function SearchPath(tree: Tree, source: Path): seq<Path> {
    [Parent(source)] + tree.searched
  }

  function Search(tree: Tree, directories: seq<Path>, h: Header): (r: Resolution)
    ensures r.Found? ==> r.path in tree.files
  {
    if directories == [] then Missing
    else match Locate(tree, directories[0], h)
      case None => Escapes
      case Some(p) => if p in tree.files then Found(p) else Search(tree, directories[1..], h)
  }

  function Resolve(tree: Tree, source: Path, h: Header): (r: Resolution)
    ensures r.Found? ==> r.path in tree.files
  {
    Search(tree, SearchPath(tree, source), h)
  }

  /** Directory `k` is tried and leaves the root, or is tried and holds no such file. */
  predicate Misses(tree: Tree, directory: Path, h: Header) {
    Locate(tree, directory, h).Some? && Locate(tree, directory, h).value !in tree.files
  }

  /** The search is first-match: what it answers is decided by the first directory that does not miss. */
  lemma {:induction false} SearchIsFirstMatch(tree: Tree, directories: seq<Path>, h: Header, k: nat)
    requires k <= |directories|
    requires forall i :: 0 <= i < k ==> Misses(tree, directories[i], h)
    requires k < |directories| ==> !Misses(tree, directories[k], h)
    ensures Search(tree, directories, h) ==
            if k == |directories| then Missing
            else if Locate(tree, directories[k], h).None? then Escapes
            else Found(Locate(tree, directories[k], h).value)
  {
    if k > 0 {
      assert Misses(tree, directories[0], h);
      assert forall i :: 0 <= i < k - 1 ==> directories[1..][i] == directories[i + 1];
      SearchIsFirstMatch(tree, directories[1..], h, k - 1);
    }
  }

  // ---- The include graph ------------------------------------------------------------------

  /** Some directive of `content`, read as part of `source`, resolves to `g`. */
  ghost predicate Includes(tree: Tree, source: Path, content: Content, g: Path) {
    exists i :: 0 <= i < |content| && content[i].Include? &&
                Resolve(tree, source, content[i].header) == Found(g)
  }

  ghost predicate Edge(tree: Tree, f: Path, g: Path) {
    f in tree.files && Includes(tree, f, tree.files[f], g)
  }

  /** Some directive of `content` makes a resolution attempt that leaves the root and raises. */
  ghost predicate Faulty(tree: Tree, source: Path, content: Content) {
    exists i :: 0 <= i < |content| && content[i].Include? &&
                Resolve(tree, source, content[i].header).Escapes?
  }

  ghost predicate FaultyFile(tree: Tree, f: Path) {
    f in tree.files && Faulty(tree, f, tree.files[f])
  }

  // ---- Rewritten contents -----------------------------------------------------------------

  function RewriteHeader(tree: Tree, source: Path, h: Header): Header {
    match Resolve(tree, source, h)
    case Found(p) => Header(false, tree.Flat(p))
    case Missing => h
    case Escapes => h
  }

  function RewriteToken(tree: Tree, source: Path, t: Token): Token {
    match t
    case Text(_) => t
    case Include(indent, h) => Include(indent, RewriteHeader(tree, source, h))
  }

  function Rewrite(tree: Tree, source: Path, content: Content): (out: Content)
    ensures |out| == |content|
  {
    seq(|content|, i requires 0 <= i < |content| => RewriteToken(tree, source, content[i]))
  }

  /** With the preprocessor definitions that are put in front of every configured source. */
  function WithDefines(tree: Tree, prepare: bool, content: Content): Content {
    if prepare then [Text(tree.defines)] + content else content
  }

  function WithCondition(condition: Option<string>, content: Content): Content {
    match condition
    case None => content
    case Some(c) => [Text("#if " + c + "\n")] + content + [Text("\n#endif\n")]
  }

  /** What `copy` writes for a file. */
  function Form(tree: Tree, f: Path, defines: bool, relocate: bool, condition: Option<string>): Content
    requires f in tree.files
  {
    var content := WithDefines(tree, defines, tree.files[f]);
    WithCondition(condition, if relocate then Rewrite(tree, f, content) else content)
  }

  function HeaderForm(tree: Tree, f: Path): Content
    requires f in tree.files
  {
    Form(tree, f, false, true, None)
  }

  function RootForm(tree: Tree, f: Path, condition: Option<string>): Content
    requires f in tree.files
  {
    Form(tree, f, true, true, condition)
  }
}
