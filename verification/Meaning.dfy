/** The preprocessor's view: expanding includes in the source tree and in the flat target. */
module Meaning {
  import opened FlatNames
  import opened SourceTree
  import opened IncludeGraph
  import opened Flattening
  import opened Configuration
  import opened Runs
  import opened Wrappers

  /** What remains after expansion: text, and directives left to the system's search path. */
  datatype Piece = Raw(text: string) | System(header: Header)

  /** Includes expanded `n` levels deep, headers looked up in the source tree. */
  function ExpandSource(tree: Tree, source: Path, content: Content, n: nat): seq<Piece>
    decreases n, |content|
  {
    if content == [] then []
    else SourcePiece(tree, source, content[0], n) + ExpandSource(tree, source, content[1..], n)
  }

  function SourcePiece(tree: Tree, source: Path, t: Token, n: nat): seq<Piece>
    decreases n, 0
  {
    match t
    case Text(s) => [Raw(s)]
    case Include(_, h) =>
      match Resolve(tree, source, h)
      case Found(g) => if n == 0 then [] else ExpandSource(tree, g, tree.files[g], n - 1)
      case Missing => [System(h)]
      case Escapes => [System(h)]
  }

  /** The file of the flat directory that a directive names, if it is there. */
  predicate NamesFile(target: map<Path, Content>, h: Header) {
    !h.absolute && h.parts in target
  }

  /** Includes expanded `n` levels deep, headers looked up in the flat directory. */
  function ExpandFlat(target: map<Path, Content>, content: Content, n: nat): seq<Piece>
    decreases n, |content|
  {
    if content == [] then []
    else FlatPiece(target, content[0], n) + ExpandFlat(target, content[1..], n)
  }

  function FlatPiece(target: map<Path, Content>, t: Token, n: nat): seq<Piece>
    decreases n, 0
  {
    match t
    case Text(s) => [Raw(s)]
    case Include(_, h) =>
      if !NamesFile(target, h) then [System(h)]
      else if n == 0 then []
      else ExpandFlat(target, target[h.parts], n - 1)
  }

  lemma {:induction false} ExpandFlatConcat(target: map<Path, Content>, a: Content, b: Content, n: nat)
    ensures ExpandFlat(target, a + b, n) == ExpandFlat(target, a, n) + ExpandFlat(target, b, n)
    decreases |a|
  {
    if a == [] {
      assert a + b == b;
    } else {
      assert (a + b)[1..] == a[1..] + b;
      ExpandFlatConcat(target, a[1..], b, n);
    }
  }

  // ---- What goes wrong, and how deep one has to expand to see it --------------------------

  /** `f` has a directive the source tree does not resolve but the flat directory does. */
  ghost predicate Captures(tree: Tree, target: map<Path, Content>, f: Path) {
    f in tree.files &&
    exists i :: 0 <= i < |tree.files[f]| && Captured(tree, target, f, tree.files[f][i])
  }

  predicate Captured(tree: Tree, target: map<Path, Content>, f: Path, t: Token) {
    t.Include? && Resolve(tree, f, t.header).Missing? && NamesFile(target, t.header)
  }

  /** Expanding `f` shows, at depth `n` exactly, a captured header or a root included as a header. */
  ghost predicate Shows(tree: Tree, target: map<Path, Content>, own: set<Path>, f: Path, n: nat)
    decreases n, 0
  {
    if n == 0 then Captures(tree, target, f)
    else exists g :: Edge(tree, f, g) && ShowsThrough(tree, target, own, g, n - 1)
  }

  ghost predicate ShowsThrough(tree: Tree, target: map<Path, Content>, own: set<Path>, g: Path, n: nat)
    decreases n, 1
  {
    (n == 0 && g in own) || Shows(tree, target, own, g, n)
  }

  ghost predicate Quiet(tree: Tree, target: map<Path, Content>, own: set<Path>, f: Path, n: nat) {
    forall m: nat :: m < n ==> !Shows(tree, target, own, f, m)
  }

  /** The files a walk meets: all in the target, headers relocated, roots with their wrapping, no faults. */
  ghost predicate Flattened(tree: Tree, target: map<Path, Content>, roots: seq<Root>) {
    && (forall f :: f in Reachable(tree, roots) + RootPaths(roots) ==>
          f in tree.files && tree.Flat(f) in target && !FaultyFile(tree, f))
    && FullyRelocated(tree, roots, target)
    && (forall p :: p in RootPaths(roots) ==>
          target[tree.Flat(p)] == RootForm(tree, p, ConditionOf(roots, p)))
  }

  lemma OutcomeFlattened(tree: Tree, before: map<Path, Content>, roots: seq<Root>, after: map<Path, Content>)
    requires ValidTree(tree) && Outcome(tree, before, roots, after)
    requires SettledStart(tree, roots, before)
    requires Clean(tree, Reachable(tree, roots) + RootPaths(roots))
    ensures Flattened(tree, after, roots)
  {
    SettledStartRelocates(tree, before, roots, after);
  }

  // ---- What the compiler reads ------------------------------------------------------------

  /** A character, or a directive that is left to the system. */
  datatype Symbol = Letter(letter: char) | Directive(header: Header)

  function Letters(text: string): (symbols: seq<Symbol>)
    ensures |symbols| == |text|
  {
    seq(|text|, i requires 0 <= i < |text| => Letter(text[i]))
  }

  /** The text of an expansion, however it is cut into pieces. */
  function Spelled(pieces: seq<Piece>): seq<Symbol> {
    if pieces == [] then []
    else (if pieces[0].Raw? then Letters(pieces[0].text) else [Directive(pieces[0].header)]) + Spelled(pieces[1..])
  }

  function SystemCount(pieces: seq<Piece>): nat {
    if pieces == [] then 0 else (if pieces[0].System? then 1 else 0) + SystemCount(pieces[1..])
  }

  function TextLength(pieces: seq<Piece>): nat {
    if pieces == [] then 0 else (if pieces[0].Raw? then |pieces[0].text| else 0) + TextLength(pieces[1..])
  }

  function Directives(symbols: seq<Symbol>): nat {
    if symbols == [] then 0 else (if symbols[0].Directive? then 1 else 0) + Directives(symbols[1..])
  }

  lemma {:induction false} DirectivesConcat(a: seq<Symbol>, b: seq<Symbol>)
    ensures Directives(a + b) == Directives(a) + Directives(b)
    decreases |a|
  {
    if a == [] {
      assert a + b == b;
    } else {
      assert (a + b)[1..] == a[1..] + b;
      DirectivesConcat(a[1..], b);
    }
  }

  lemma {:induction false} NoDirective(text: string)
    ensures Directives(Letters(text)) == 0
    decreases |text|
  {
    if text != [] {
      assert Letters(text)[1..] == Letters(text[1..]);
      NoDirective(text[1..]);
    }
  }

  /** Both measures can be read off the text. */
  lemma {:induction false} Measures(pieces: seq<Piece>)
    ensures Directives(Spelled(pieces)) == SystemCount(pieces)
    ensures |Spelled(pieces)| == SystemCount(pieces) + TextLength(pieces)
  {
    if pieces != [] {
      Measures(pieces[1..]);
      if pieces[0].Raw? {
        NoDirective(pieces[0].text);
        DirectivesConcat(Letters(pieces[0].text), Spelled(pieces[1..]));
      } else {
        DirectivesConcat([Directive(pieces[0].header)], Spelled(pieces[1..]));
        assert [Directive(pieces[0].header)][1..] == [];
      }
    }
  }

  lemma {:induction false} CountsConcat(a: seq<Piece>, b: seq<Piece>)
    ensures SystemCount(a + b) == SystemCount(a) + SystemCount(b)
    ensures TextLength(a + b) == TextLength(a) + TextLength(b)
    decreases |a|
  {
    if a == [] {
      assert a + b == b;
    } else {
      assert (a + b)[1..] == a[1..] + b;
      CountsConcat(a[1..], b);
    }
  }

  /** A flat expansion that lost system directives, or kept them all and has no less text. */
  ghost predicate NoCloser(flat: seq<Piece>, source: seq<Piece>) {
    SystemCount(flat) < SystemCount(source)
    || (SystemCount(flat) == SystemCount(source) && TextLength(flat) >= TextLength(source))
  }

  ghost predicate Apart(flat: seq<Piece>, source: seq<Piece>) {
    SystemCount(flat) < SystemCount(source)
    || (SystemCount(flat) == SystemCount(source) && TextLength(flat) > TextLength(source))
  }

  lemma ApartDiffer(flat: seq<Piece>, source: seq<Piece>)
    requires Apart(flat, source)
    ensures Spelled(flat) != Spelled(source)
  {
    Measures(flat);
    Measures(source);
  }

  lemma NoCloserConcat(f: seq<Piece>, f': seq<Piece>, s: seq<Piece>, s': seq<Piece>)
    requires NoCloser(f, s) && NoCloser(f', s')
    ensures NoCloser(f + f', s + s')
    ensures Apart(f, s) || Apart(f', s') ==> Apart(f + f', s + s')
  {
    CountsConcat(f, f');
    CountsConcat(s, s');
  }

  /** The wrapping of a root adds text pieces only, and at least one. */
  lemma WrappedExpansion(target: map<Path, Content>, tree: Tree, p: Path, condition: Option<string>, n: nat)
    requires p in tree.files
    ensures ExpandFlat(target, RootForm(tree, p, condition), n)
            == Before(tree, condition) + ExpandFlat(target, Rewrite(tree, p, tree.files[p]), n) + After(condition)
  {
    var body := tree.files[p];
    var inner := Rewrite(tree, p, [Text(tree.defines)] + body);
    assert inner == [Text(tree.defines)] + Rewrite(tree, p, body);
    ExpandFlatConcat(target, [Text(tree.defines)], Rewrite(tree, p, body), n);
    OneText(target, tree.defines, n);
    match condition {
      case None =>
      case Some(c) =>
        var open, close := "#if " + c + "\n", "\n#endif\n";
        OneText(target, open, n);
        OneText(target, close, n);
        ExpandFlatConcat(target, [Text(open)], inner, n);
        ExpandFlatConcat(target, [Text(open)] + inner, [Text(close)], n);
    }
  }

  lemma OneText(target: map<Path, Content>, s: string, n: nat)
    ensures ExpandFlat(target, [Text(s)], n) == [Raw(s)]
  {
    assert [Text(s)][1..] == [];
  }

  function Before(tree: Tree, condition: Option<string>): seq<Piece> {
    match condition
    case None => [Raw(tree.defines)]
    case Some(c) => [Raw("#if " + c + "\n"), Raw(tree.defines)]
  }

  function After(condition: Option<string>): seq<Piece> {
    match condition
    case None => []
    case Some(c) => [Raw("\n#endif\n")]
  }

  // ---- Nothing shows: the expansions agree ------------------------------------------------

  lemma {:induction false} QuietAgrees(tree: Tree, target: map<Path, Content>, roots: seq<Root>, f: Path, n: nat)
    requires Flattened(tree, target, roots)
    requires f in Reachable(tree, roots) + RootPaths(roots)
    requires Quiet(tree, target, RootPaths(roots), f, n + 1)
    ensures ExpandFlat(target, Rewrite(tree, f, tree.files[f]), n) == ExpandSource(tree, f, tree.files[f], n)
    decreases n, 1, 0
  {
    QuietAgreesFrom(tree, target, roots, f, n, |tree.files[f]|);
  }

  lemma {:induction false} QuietAgreesFrom(tree: Tree, target: map<Path, Content>, roots: seq<Root>, f: Path,
                                           n: nat, k: nat)
    requires Flattened(tree, target, roots)
    requires f in Reachable(tree, roots) + RootPaths(roots)
    requires Quiet(tree, target, RootPaths(roots), f, n + 1)
    requires f in tree.files && k <= |tree.files[f]|
    ensures var rest := tree.files[f][|tree.files[f]| - k..];
            ExpandFlat(target, Rewrite(tree, f, rest), n) == ExpandSource(tree, f, rest, n)
    decreases n, 0, k
  {
    hide Flattened, Quiet, Reached, RootPaths, Resolve, Includes, Edge, FlatPiece, SourcePiece;
    if k > 0 {
      var content := tree.files[f];
      var i := |content| - k;
      var rest := content[i..];
      QuietAgreesFrom(tree, target, roots, f, n, k - 1);
      assert rest[1..] == content[i + 1..] && rest[0] == content[i];
      assert Rewrite(tree, f, rest)[1..] == Rewrite(tree, f, rest[1..]);
      QuietToken(tree, target, roots, f, n, i);
    }
  }

  lemma {:induction false} QuietToken(tree: Tree, target: map<Path, Content>, roots: seq<Root>, f: Path, n: nat, i: nat)
    requires Flattened(tree, target, roots)
    requires f in Reachable(tree, roots) + RootPaths(roots)
    requires Quiet(tree, target, RootPaths(roots), f, n + 1)
    requires i < |tree.files[f]|
    ensures var t := tree.files[f][i];
            FlatPiece(target, RewriteToken(tree, f, t), n) == SourcePiece(tree, f, t, n)
    decreases n, 0, 0
  {
    hide Reached, RootPaths, NewFiles, ExpandFlat, ExpandSource, Search, RootForm, ConditionOf;
    var own, t := RootPaths(roots), tree.files[f][i];
    match t {
      case Text(_) =>
      case Include(indent, h) =>
        NoEscape(tree, f, i);
        match Resolve(tree, f, h) {
          case Escapes =>
          case Missing =>
            CaptureShows(tree, target, own, f, i);
          case Found(g) =>
            EdgeStays(tree, roots, f, g);
            if n > 0 {
              forall m: nat | m < n ensures !Shows(tree, target, own, g, m) {
                ShowsUp(tree, target, own, f, g, m);
              }
              ShowsUp(tree, target, own, f, g, 0);
              QuietAgrees(tree, target, roots, g, n - 1);
            }
        }
    }
  }

  lemma NoEscape(tree: Tree, f: Path, i: nat)
    requires f in tree.files && !FaultyFile(tree, f) && i < |tree.files[f]| && tree.files[f][i].Include?
    ensures !Resolve(tree, f, tree.files[f][i].header).Escapes?
    ensures forall g :: Resolve(tree, f, tree.files[f][i].header) == Found(g) ==> Edge(tree, f, g)
  {
  }

  lemma CaptureShows(tree: Tree, target: map<Path, Content>, own: set<Path>, f: Path, i: nat)
    requires f in tree.files && i < |tree.files[f]|
    ensures Captured(tree, target, f, tree.files[f][i]) ==> Shows(tree, target, own, f, 0)
  {
  }

  lemma ShowsUp(tree: Tree, target: map<Path, Content>, own: set<Path>, f: Path, g: Path, m: nat)
    requires Edge(tree, f, g)
    ensures ShowsThrough(tree, target, own, g, m) ==> Shows(tree, target, own, f, m + 1)
  {
  }

  lemma EdgeStays(tree: Tree, roots: seq<Root>, f: Path, g: Path)
    requires f in Reachable(tree, roots) + RootPaths(roots) && Edge(tree, f, g)
    ensures g in Reachable(tree, roots)
  {
    ReachedClosed(tree, {}, roots, f, g);
  }

  // ---- Something shows: the expansions differ at the first depth at which it does ----------

  ghost predicate TokenShows(tree: Tree, target: map<Path, Content>, own: set<Path>, f: Path, t: Token, n: nat) {
    if n == 0 then Captured(tree, target, f, t)
    else t.Include? && Resolve(tree, f, t.header).Found?
         && ShowsThrough(tree, target, own, Resolve(tree, f, t.header).path, n - 1)
  }

  lemma ShowsInToken(tree: Tree, target: map<Path, Content>, own: set<Path>, f: Path, n: nat)
    requires f in tree.files && Shows(tree, target, own, f, n)
    ensures exists i :: 0 <= i < |tree.files[f]| && TokenShows(tree, target, own, f, tree.files[f][i], n)
  {
    hide Search, ShowsThrough;
  }

  lemma {:induction false} FirstDepthDiffers(tree: Tree, target: map<Path, Content>, roots: seq<Root>, f: Path, n: nat)
    requires Flattened(tree, target, roots) && tree.defines != ""
    requires f in Reachable(tree, roots) + RootPaths(roots) && f in tree.files
    requires Quiet(tree, target, RootPaths(roots), f, n)
    ensures NoCloser(ExpandFlat(target, Rewrite(tree, f, tree.files[f]), n), ExpandSource(tree, f, tree.files[f], n))
    ensures Shows(tree, target, RootPaths(roots), f, n) ==>
              Apart(ExpandFlat(target, Rewrite(tree, f, tree.files[f]), n), ExpandSource(tree, f, tree.files[f], n))
              && Spelled(ExpandFlat(target, Rewrite(tree, f, tree.files[f]), n))
                 != Spelled(ExpandSource(tree, f, tree.files[f], n))
    decreases n, 1, 0
  {
    hide Flattened, Quiet, Reached, RootPaths, Resolve, TokenShows, NoCloser, Apart, ExpandFlat, ExpandSource, Shows;
    FirstDepthFrom(tree, target, roots, f, n, |tree.files[f]|);
    assert tree.files[f][0..] == tree.files[f];
    if Shows(tree, target, RootPaths(roots), f, n) {
      ShowsInToken(tree, target, RootPaths(roots), f, n);
      ApartDiffer(ExpandFlat(target, Rewrite(tree, f, tree.files[f]), n), ExpandSource(tree, f, tree.files[f], n));
    }
  }

  lemma {:induction false} FirstDepthFrom(tree: Tree, target: map<Path, Content>, roots: seq<Root>, f: Path,
                                          n: nat, k: nat)
    requires Flattened(tree, target, roots) && tree.defines != ""
    requires f in Reachable(tree, roots) + RootPaths(roots)
    requires Quiet(tree, target, RootPaths(roots), f, n)
    requires f in tree.files && k <= |tree.files[f]|
    ensures var i := |tree.files[f]| - k;
            var flat := ExpandFlat(target, Rewrite(tree, f, tree.files[f][i..]), n);
            var source := ExpandSource(tree, f, tree.files[f][i..], n);
            && NoCloser(flat, source)
            && ((exists j :: i <= j < |tree.files[f]|
                    && TokenShows(tree, target, RootPaths(roots), f, tree.files[f][j], n))
                ==> Apart(flat, source))
    decreases n, 0, k
  {
    hide Flattened, Quiet, Reached, RootPaths, Resolve, Includes, Edge, FlatPiece, SourcePiece, TokenShows;
    if k > 0 {
      var content := tree.files[f];
      var i := |content| - k;
      var rest := content[i..];
      FirstDepthFrom(tree, target, roots, f, n, k - 1);
      assert rest[1..] == content[i + 1..] && rest[0] == content[i];
      assert Rewrite(tree, f, rest)[1..] == Rewrite(tree, f, rest[1..]);
      TokenCompare(tree, target, roots, f, n, i);
      hide NoCloser, Apart;
      NoCloserConcat(FlatPiece(target, RewriteToken(tree, f, content[i]), n),
                     ExpandFlat(target, Rewrite(tree, f, rest[1..]), n),
                     SourcePiece(tree, f, content[i], n), ExpandSource(tree, f, rest[1..], n));
    }
  }

  lemma {:induction false} TokenCompare(tree: Tree, target: map<Path, Content>, roots: seq<Root>, f: Path, n: nat,
                                        i: nat)
    requires Flattened(tree, target, roots) && tree.defines != ""
    requires f in Reachable(tree, roots) + RootPaths(roots)
    requires Quiet(tree, target, RootPaths(roots), f, n)
    requires f in tree.files && i < |tree.files[f]|
    ensures var t := tree.files[f][i];
            var flat, source := FlatPiece(target, RewriteToken(tree, f, t), n), SourcePiece(tree, f, t, n);
            && NoCloser(flat, source)
            && (TokenShows(tree, target, RootPaths(roots), f, t, n) ==> Apart(flat, source))
    decreases n, 0, 0
  {
    hide Reached, RootPaths, NewFiles, ExpandFlat, ExpandSource, Search, RootForm, ConditionOf, Before, After;
    var own, t := RootPaths(roots), tree.files[f][i];
    match t {
      case Text(_) =>
      case Include(indent, h) =>
        NoEscape(tree, f, i);
        match Resolve(tree, f, h) {
          case Escapes =>
          case Missing =>
            CaptureShows(tree, target, own, f, i);
          case Found(g) =>
            EdgeStays(tree, roots, f, g);
            if n > 0 {
              forall m: nat | m < n - 1 ensures !Shows(tree, target, own, g, m) {
                ShowsUp(tree, target, own, f, g, m);
              }
              ShowsUp(tree, target, own, f, g, 0);
              assert g in own ==> n == 1;
              FirstDepthDiffers(tree, target, roots, g, n - 1);
              if g in own {
                WrappedCompare(target, tree, g, ConditionOf(roots, g), n - 1,
                               ExpandSource(tree, g, tree.files[g], n - 1));
              }
            }
        }
    }
  }

  lemma WrappedCompare(target: map<Path, Content>, tree: Tree, p: Path, condition: Option<string>, n: nat,
                       source: seq<Piece>)
    requires p in tree.files
    requires NoCloser(ExpandFlat(target, Rewrite(tree, p, tree.files[p]), n), source)
    requires tree.defines != ""
    ensures Apart(ExpandFlat(target, RootForm(tree, p, condition), n), source)
  {
    var inner := ExpandFlat(target, Rewrite(tree, p, tree.files[p]), n);
    WrappedExpansion(target, tree, p, condition, n);
    CountsConcat(Before(tree, condition), inner);
    CountsConcat(Before(tree, condition) + inner, After(condition));
    assert SystemCount(Before(tree, condition)) == SystemCount(After(condition)) == 0
           && TextLength(Before(tree, condition)) > 0 by {
      match condition {
        case None => assert [Raw(tree.defines)][1..] == [];
        case Some(c) =>
          assert Before(tree, condition)[1..] == [Raw(tree.defines)] && [Raw(tree.defines)][1..] == [];
          assert After(condition)[1..] == [];
      }
    }
  }

  // ---- The exact condition ----------------------------------------------------------------

  /** No file of the run has an unresolved header that names a file of the flat directory. */
  ghost predicate NoCapture(tree: Tree, target: map<Path, Content>, roots: seq<Root>) {
    forall f :: f in Reachable(tree, roots) + RootPaths(roots) ==> !Captures(tree, target, f)
  }

  /** No file of the run includes a configured source. */
  ghost predicate NoRootIncluded(tree: Tree, roots: seq<Root>) {
    forall p :: p in RootPaths(roots) ==> p !in Reachable(tree, roots)
  }

  /** Every configured source expands to the same text in both places, at every depth. */
  ghost predicate SameMeaning(tree: Tree, target: map<Path, Content>, roots: seq<Root>) {
    forall p, n: nat :: p in RootPaths(roots) && p in tree.files ==>
      Spelled(ExpandFlat(target, Rewrite(tree, p, tree.files[p]), n))
      == Spelled(ExpandSource(tree, p, tree.files[p], n))
  }

  lemma {:induction false} ShownIsBad(tree: Tree, target: map<Path, Content>, roots: seq<Root>, f: Path, n: nat)
    requires f in Reachable(tree, roots) + RootPaths(roots)
    requires Shows(tree, target, RootPaths(roots), f, n)
    ensures !NoCapture(tree, target, roots) || !NoRootIncluded(tree, roots)
    decreases n
  {
    hide Reached, RootPaths, Captures, Edge;
    if n > 0 {
      var g :| Edge(tree, f, g) && ShowsThrough(tree, target, RootPaths(roots), g, n - 1);
      EdgeStays(tree, roots, f, g);
      if !(n == 1 && g in RootPaths(roots)) {
        ShownIsBad(tree, target, roots, g, n - 1);
      }
    }
  }

  lemma {:induction false} ShowsAlongWalk(tree: Tree, target: map<Path, Content>, own: set<Path>, p: seq<Path>,
                                          k: nat, m: nat)
    requires FreshPath(tree, {}, p) && k < |p|
    requires ShowsThrough(tree, target, own, p[|p| - 1], m)
    ensures exists n: nat :: ShowsThrough(tree, target, own, p[k], n)
    decreases |p| - k
  {
    hide Shows, Edge;
    if k < |p| - 1 {
      ShowsAlongWalk(tree, target, own, p, k + 1, m);
      var n: nat :| ShowsThrough(tree, target, own, p[k + 1], n);
      ShowsUp(tree, target, own, p[k], p[k + 1], n);
      assert ShowsThrough(tree, target, own, p[k], n + 1);
    }
  }

  lemma WalkFromSomeRoot(tree: Tree, roots: seq<Root>, g: Path) returns (p: Path, w: seq<Path>)
    requires g in Reachable(tree, roots)
    ensures p in RootPaths(roots) && p in tree.files
    ensures FreshPath(tree, {}, w) && Edge(tree, p, w[0]) && w[|w| - 1] == g
  {
    var r :| r in roots && r.path in tree.files && g in NewFiles(tree, {}, r.path, tree.files[r.path]);
    p := r.path;
    assert p in RootPaths(roots);
    hide Resolve;
    w :| FreshPath(tree, {}, w) && Includes(tree, r.path, tree.files[r.path], w[0]) && w[|w| - 1] == g;
  }

  /** What is wrong anywhere in the run shows in some root's expansion. */
  lemma BadIsShown(tree: Tree, target: map<Path, Content>, roots: seq<Root>, g: Path, m: nat) returns (p: Path, n: nat)
    requires g in Reachable(tree, roots) && ShowsThrough(tree, target, RootPaths(roots), g, m)
    ensures p in RootPaths(roots) && p in tree.files && Shows(tree, target, RootPaths(roots), p, n)
  {
    hide Shows, Edge, Reached, RootPaths;
    var own := RootPaths(roots);
    var w;
    p, w := WalkFromSomeRoot(tree, roots, g);
    ShowsAlongWalk(tree, target, own, w, 0, m);
    var k: nat :| ShowsThrough(tree, target, own, w[0], k);
    ShowsUp(tree, target, own, p, w[0], k);
    n := k + 1;
  }

  lemma {:induction false} FirstShown(tree: Tree, target: map<Path, Content>, own: set<Path>, f: Path,
                                      n: nat) returns (first: nat)
    requires Shows(tree, target, own, f, n)
    ensures Shows(tree, target, own, f, first) && Quiet(tree, target, own, f, first)
  {
    hide Shows;
    first := 0;
    while !Shows(tree, target, own, f, first)
      invariant first <= n && forall m: nat :: m < first ==> !Shows(tree, target, own, f, m)
      decreases n - first
    {
      first := first + 1;
    }
  }

  lemma ShownBreaks(tree: Tree, target: map<Path, Content>, roots: seq<Root>, p: Path, n: nat)
    requires Flattened(tree, target, roots) && tree.defines != ""
    requires p in RootPaths(roots) && p in tree.files && Shows(tree, target, RootPaths(roots), p, n)
    ensures !SameMeaning(tree, target, roots)
  {
    hide Flattened, Shows, Reached, RootPaths, ExpandFlat, ExpandSource, Quiet, Spelled;
    var first := FirstShown(tree, target, RootPaths(roots), p, n);
    FirstDepthDiffers(tree, target, roots, p, first);
  }

  /** Under the condition the expansions agree, piece by piece. */
  lemma SourcesAgree(tree: Tree, target: map<Path, Content>, roots: seq<Root>, p: Path, n: nat)
    requires Flattened(tree, target, roots) && p in RootPaths(roots) && p in tree.files
    requires NoCapture(tree, target, roots) && NoRootIncluded(tree, roots)
    ensures ExpandFlat(target, Rewrite(tree, p, tree.files[p]), n) == ExpandSource(tree, p, tree.files[p], n)
  {
    hide Shows, Reached, RootPaths, ExpandFlat, ExpandSource, Captures;
    forall m: nat | m < n + 1 ensures !Shows(tree, target, RootPaths(roots), p, m) {
      if Shows(tree, target, RootPaths(roots), p, m) {
        ShownIsBad(tree, target, roots, p, m);
        assert false;
      }
    }
    QuietAgrees(tree, target, roots, p, n);
  }

  /** Flattening preserves the meaning of every configured source, the text it expands to at every depth,
      exactly when no header is captured by the flat directory and no configured source is included. */
  lemma FlatteningPreservesMeaning(tree: Tree, target: map<Path, Content>, roots: seq<Root>)
    requires Flattened(tree, target, roots) && tree.defines != ""
    ensures SameMeaning(tree, target, roots) <==> NoCapture(tree, target, roots) && NoRootIncluded(tree, roots)
  {
    hide Shows, Reached, RootPaths, ExpandFlat, ExpandSource, Captures, Spelled, Flattened;
    if NoCapture(tree, target, roots) && NoRootIncluded(tree, roots) {
      forall p, n: nat | p in RootPaths(roots) && p in tree.files
        ensures ExpandFlat(target, Rewrite(tree, p, tree.files[p]), n) == ExpandSource(tree, p, tree.files[p], n)
      {
        SourcesAgree(tree, target, roots, p, n);
      }
    } else {
      var p, n := SomethingShown(tree, target, roots);
      ShownBreaks(tree, target, roots, p, n);
    }
  }

  lemma SomethingShown(tree: Tree, target: map<Path, Content>, roots: seq<Root>) returns (p: Path, n: nat)
    requires Flattened(tree, target, roots)
    requires !NoCapture(tree, target, roots) || !NoRootIncluded(tree, roots)
    ensures p in RootPaths(roots) && p in tree.files && Shows(tree, target, RootPaths(roots), p, n)
  {
    var own := RootPaths(roots);
    hide Reached, RootPaths, Captures;
    if q :| q in own && q in Reachable(tree, roots) {
      assert ShowsThrough(tree, target, own, q, 0);
      p, n := BadIsShown(tree, target, roots, q, 0);
    } else {
      var f :| f in Reachable(tree, roots) + own && Captures(tree, target, f);
      assert Shows(tree, target, own, f, 0);
      if f in own {
        p, n := f, 0;
      } else {
        p, n := BadIsShown(tree, target, roots, f, 0);
      }
    }
  }

  /** The file written for a configured source expands to its meaning inside the wrapping. */
  lemma RootFileMeaning(tree: Tree, target: map<Path, Content>, roots: seq<Root>, p: Path, n: nat)
    requires Flattened(tree, target, roots) && p in RootPaths(roots) && p in tree.files
    requires NoCapture(tree, target, roots) && NoRootIncluded(tree, roots)
    ensures tree.Flat(p) in target
    ensures var condition := ConditionOf(roots, p);
            ExpandFlat(target, target[tree.Flat(p)], n)
            == Before(tree, condition) + ExpandSource(tree, p, tree.files[p], n) + After(condition)
  {
    SourcesAgree(tree, target, roots, p, n);
    hide Reached, RootPaths, ExpandFlat, ExpandSource, Captures, RootForm, ConditionOf, Before, After;
    WrappedExpansion(target, tree, p, ConditionOf(roots, p), n);
  }

  lemma FreshRunReaches(tree: Tree, before: map<Path, Content>, roots: seq<Root>, after: map<Path, Content>)
    requires ValidTree(tree)
    requires forall f :: f in tree.files ==> tree.Flat(f) !in before
    requires Outcome(tree, before, roots, after)
    ensures Reachable(tree, roots) <= Reached(tree, before.Keys, roots) + RootPaths(roots)
    ensures SettledStart(tree, roots, before)
  {
    hide Reached, RootPaths, HeaderForm, RootForm, ConditionOf, Edge, Outcome, FullyRelocated, NewFiles, Mangle;
    FreshRun(tree, before, roots, after);
    OutcomeRoots(tree, before, roots, after);
    var all := Reached(tree, before.Keys, roots) + RootPaths(roots);
    forall f | f in Reachable(tree, roots) ensures f in all {
      assert tree.Flat(f) in Names(tree, Reachable(tree, roots) + RootPaths(roots));
      NamedBy(tree, all, before.Keys, f);
    }
  }

  // ---- The condition on the inputs of a run -----------------------------------------------

  /** No file of the run has an unresolved header that is spelled like a name the target has from the start
      or like the flat name of a file of the run. */
  ghost predicate NoHeaderSpelled(tree: Tree, before: map<Path, Content>, roots: seq<Root>) {
    forall f, i :: f in Reachable(tree, roots) + RootPaths(roots) && f in tree.files && 0 <= i < |tree.files[f]|
                   && tree.files[f][i].Include? && Resolve(tree, f, tree.files[f][i].header).Missing?
                   && !tree.files[f][i].header.absolute
      ==> tree.files[f][i].header.parts !in before.Keys + Names(tree, Reachable(tree, roots) + RootPaths(roots))
  }

  lemma SpelledIsCaptured(tree: Tree, before: map<Path, Content>, roots: seq<Root>, after: map<Path, Content>)
    requires after.Keys == before.Keys + Names(tree, Reachable(tree, roots) + RootPaths(roots))
    ensures NoHeaderSpelled(tree, before, roots) <==> NoCapture(tree, after, roots)
  {
    hide Reached, RootPaths, Names, Resolve;
    if NoCapture(tree, after, roots) {
      forall f, i | f in Reachable(tree, roots) + RootPaths(roots) && f in tree.files && 0 <= i < |tree.files[f]|
                    && tree.files[f][i].Include? && Resolve(tree, f, tree.files[f][i].header).Missing?
                    && !tree.files[f][i].header.absolute
        ensures tree.files[f][i].header.parts !in after.Keys
      {
        assert !Captured(tree, after, f, tree.files[f][i]);
      }
    }
  }

  /** The whole story from a target without flat names: a run that completes preserves the meaning of every
      configured source exactly when no unresolved header is spelled like a name of the target or of the run's
      flat files, and no configured source is included. Tree, target and list of sources decide it. */
  lemma FreshRunMeaning(tree: Tree, before: map<Path, Content>, roots: seq<Root>, after: map<Path, Content>)
    requires ValidTree(tree) && tree.defines != ""
    requires forall f :: f in tree.files ==> tree.Flat(f) !in before
    requires Completes(tree, before.Keys, roots) && Outcome(tree, before, roots, after)
    ensures Flattened(tree, after, roots)
    ensures SameMeaning(tree, after, roots) <==> NoHeaderSpelled(tree, before, roots) && NoRootIncluded(tree, roots)
  {
    hide Reached, RootPaths, FaultyFile, Outcome, Flattened, SettledStart, SameMeaning, NoCapture, NoRootIncluded,
         NoHeaderSpelled, FullyRelocated;
    FreshRun(tree, before, roots, after);
    FreshRunReaches(tree, before, roots, after);
    OutcomeFlattened(tree, before, roots, after);
    FlatteningPreservesMeaning(tree, after, roots);
    SpelledIsCaptured(tree, before, roots, after);
  }
}
