/** Path names: `#`-joined flat names and their inverse, as used by `Project.mangle`. */
module FlatNames {

  /** The components of a path, as `PurePath.parts` lists them. */
  type Path = seq<string>

  /** `sep.join(parts)`. */
  function Join(sep: char, parts: seq<string>): string {
    if parts == [] then ""
    else if |parts| == 1 then parts[0]
    else parts[0] + [sep] + Join(sep, parts[1..])
  }

  /** `s.split(sep)`: never empty, and no piece contains the separator. */
  function Split(sep: char, s: string): (pieces: seq<string>)
    ensures |pieces| > 0
  {
    if s == "" then [""]
    else
      var rest := Split(sep, s[1..]);
      if s[0] == sep then [""] + rest else [[s[0]] + rest[0]] + rest[1..]
  }

  predicate Plain(sep: char, component: string) {
    sep !in component
  }

  predicate AllPlain(sep: char, parts: seq<string>) {
    forall i :: 0 <= i < |parts| ==> Plain(sep, parts[i])
  }

  lemma {:induction false} SplitPiecesPlain(sep: char, s: string)
    ensures AllPlain(sep, Split(sep, s))
  {
    if s != "" {
      SplitPiecesPlain(sep, s[1..]);
      var rest := Split(sep, s[1..]);
      assert Plain(sep, rest[0]);
    }
  }

  lemma {:induction false} SplitPlain(sep: char, c: string)
    requires Plain(sep, c)
    ensures Split(sep, c) == [c]
  {
    if c != "" {
      assert c[0] in c;
      SplitPlain(sep, c[1..]);
      assert c == [c[0]] + c[1..];
    }
  }

  lemma {:induction false} SplitAfterPlain(sep: char, c: string, s: string)
    requires Plain(sep, c)
    ensures Split(sep, c + [sep] + s) == [c] + Split(sep, s)
  {
    var whole := c + [sep] + s;
    if c == "" {
      assert whole[1..] == s;
    } else {
      assert c[0] in c && whole[0] == c[0];
      assert whole[1..] == c[1..] + [sep] + s;
      SplitAfterPlain(sep, c[1..], s);
      assert [c[0]] + c[1..] == c;
    }
  }

  lemma {:induction false} SplitJoinPlain(sep: char, parts: seq<string>)
    requires parts != [] && AllPlain(sep, parts)
    ensures Split(sep, Join(sep, parts)) == parts
  {
    assert Plain(sep, parts[0]);
    if |parts| == 1 {
      SplitPlain(sep, parts[0]);
    } else {
      SplitAfterPlain(sep, parts[0], Join(sep, parts[1..]));
      SplitJoinPlain(sep, parts[1..]);
    }
  }

  /** The round trip holds exactly for the component lists that do not mention the separator. */
  lemma SplitJoinRoundTrip(sep: char, parts: seq<string>)
    requires parts != []
    ensures Split(sep, Join(sep, parts)) == parts <==> AllPlain(sep, parts)
  {
    SplitPiecesPlain(sep, Join(sep, parts));
    if AllPlain(sep, parts) {
      SplitJoinPlain(sep, parts);
    }
  }

  /** `Project.mangle`: one flat file name for a path of the source tree. */
  function Mangle(prefix: string, p: Path): (flat: Path)
    ensures |flat| == 1
  {
    [Join('#', [prefix] + p)]
  }

  lemma MangleNonempty(prefix: string, p: Path)
    requires p != []
    ensures Mangle(prefix, p) == [prefix + ['#'] + Join('#', p)]
  {
    assert ([prefix] + p)[1..] == p;
  }

  /** Two different `#`-free paths never share a flat name. */
  lemma MangleInjective(prefix: string, p: Path, q: Path)
    requires p != [] && q != []
    requires AllPlain('#', p) && AllPlain('#', q)
    requires Mangle(prefix, p) == Mangle(prefix, q)
    ensures p == q
  {
    MangleNonempty(prefix, p);
    MangleNonempty(prefix, q);
    var head := prefix + ['#'];
    assert Join('#', p) == (head + Join('#', p))[|head|..];
    assert Join('#', q) == (head + Join('#', q))[|head|..];
    SplitJoinPlain('#', p);
    SplitJoinPlain('#', q);
  }

  /** Why the condition is there: a component with a `#` collides with a directory boundary. */
  lemma MangleCollision()
    ensures Mangle("uv", ["a#b.h"]) == Mangle("uv", ["a", "b.h"])
  {
    MangleNonempty("uv", ["a#b.h"]);
    MangleNonempty("uv", ["a", "b.h"]);
    assert Join('#', ["a", "b.h"]) == "a" + ['#'] + Join('#', ["a", "b.h"][1..]) == "a#b.h";
  }

  /** A name that does not start with the prefix and a `#` is never a flat name of a source file. */
  lemma MangledKeepsPrefix(prefix: string, p: Path, name: string)
    requires p != []
    requires !(prefix + ['#'] <= name)
    ensures Mangle(prefix, p) != [name]
  {
    MangleNonempty(prefix, p);
  }
}
