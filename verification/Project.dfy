/** `Project` of scripts/prepare.py: flattens the source tree into one target directory. */
module Flattening {
  import opened FlatNames
  import opened SourceTree
  import opened IncludeGraph
  import opened Wrappers

  /** `after` is `before` plus the relocated form of each file in `added`; nothing else changes. */
  ghost predicate Extends(tree: Tree, before: map<Path, Content>, after: map<Path, Content>, added: set<Path>) {
    && after.Keys == before.Keys + Names(tree, added)
    && (forall k :: k in before ==> after[k] == before[k])
    && (forall f :: f in added ==> f in tree.files && after[tree.Flat(f)] == HeaderForm(tree, f))
  }

  /** What a relocating `copy` of `source` leaves: the added headers, then `source`'s own file. */
  ghost predicate Copied(tree: Tree, before: map<Path, Content>, after: map<Path, Content>,
                         source: Path, written: Content, added: set<Path>) {
    var own := tree.Flat(source);
    && after.Keys == before.Keys + {own} + Names(tree, added)
    && after[own] == written
    && (forall k :: k in before && k != own ==> after[k] == before[k])
    && (forall f :: f in added && f != source ==>
          f in tree.files && after[tree.Flat(f)] == HeaderForm(tree, f))
  }

  /** None of `files` holds a directive whose resolution raises. */
  ghost predicate Clean(tree: Tree, files: set<Path>) {
    forall f :: f in files ==> !FaultyFile(tree, f)
  }

  /** Names that are no flat name of a source file keep their contents. */
  ghost predicate OthersKept(tree: Tree, before: map<Path, Content>, after: map<Path, Content>) {
    forall k :: k in before && k !in Names(tree, tree.files.Keys) ==> k in after && after[k] == before[k]
  }

  lemma KeptSelf(tree: Tree, target: map<Path, Content>)
    ensures OthersKept(tree, target, target)
  {
  }

  lemma KeptThrough(tree: Tree, before: map<Path, Content>, now: map<Path, Content>, after: map<Path, Content>)
    requires OthersKept(tree, before, now) && OthersKept(tree, now, after)
    ensures OthersKept(tree, before, after)
  {
  }

  /** `f` is in the target in relocated form, and so are all names it mentions. */
  ghost predicate Settled(tree: Tree, now: map<Path, Content>, f: Path) {
    && f in tree.files && tree.Flat(f) in now
    && now[tree.Flat(f)] == HeaderForm(tree, f)
    && !FaultyFile(tree, f)
    && ClosedOver(tree, now.Keys, {f})
  }

  /** The state between two queued headers: the new files are `added`, and each of them that is not
      queued is relocated and has all its own headers in the target. */
  ghost predicate Pending(tree: Tree, before: map<Path, Content>, now: map<Path, Content>,
                          added: set<Path>, queue: seq<Path>) {
    && now.Keys == before.Keys + Names(tree, added)
    && (forall k :: k in before ==> now[k] == before[k])
    && (forall h :: h in queue ==> h in added)
    && (forall f :: f in added ==> f in tree.files && tree.Flat(f) !in before)
    && (forall f :: f in added && f !in queue ==> Settled(tree, now, f))
  }

  /** One more queued header copied. */
  lemma PendingStep(tree: Tree, before: map<Path, Content>, now: map<Path, Content>, next: map<Path, Content>,
                    added: set<Path>, more: set<Path>, queue: seq<Path>)
    requires ValidTree(tree) && queue != []
    requires Pending(tree, before, now, added, queue)
    requires Copied(tree, now, next, queue[0], HeaderForm(tree, queue[0]), more)
    requires forall f :: f in more ==> f in tree.files && tree.Flat(f) !in now
    requires Clean(tree, more + {queue[0]}) && ClosedOver(tree, next.Keys, more + {queue[0]})
    ensures Pending(tree, before, next, added + more, queue[1..])
  {
    var h := queue[0];
    assert Names(tree, added + more) == Names(tree, added) + Names(tree, more);
    assert tree.Flat(h) in Names(tree, added);
    assert h !in more;
    forall f | f in added + more && f !in queue[1..]
      ensures Settled(tree, next, f)
    {
      if f in more {
        assert ClosedOver(tree, next.Keys, {f});
      } else if f == h {
        assert ClosedOver(tree, next.Keys, {f});
      } else {
        assert Settled(tree, now, f);
        FlatInjective(tree, f, h);
        assert ClosedOver(tree, next.Keys, {f});
      }
    }
  }

  /** With an empty queue the pending files are exactly the reached ones, and they are clean. */
  lemma PendingDone(tree: Tree, before: map<Path, Content>, now: map<Path, Content>,
                    source: Path, content: Content, added: set<Path>)
    requires ValidTree(tree)
    requires Pending(tree, before, now, added, [])
    requires added <= NewFiles(tree, before.Keys, source, content)
    requires forall g :: Includes(tree, source, content, g) ==> tree.Flat(g) in now
    ensures added == NewFiles(tree, before.Keys, source, content)
    ensures Extends(tree, before, now, added) && Clean(tree, added)
  {
    forall f, g | Edge(tree, f, g) && tree.Flat(f) in now && tree.Flat(f) !in before
      ensures tree.Flat(g) in now
    {
      var f' :| f' in added && tree.Flat(f') == tree.Flat(f);
      FlatInjective(tree, f, f');
      assert Settled(tree, now, f);
    }
    NewFilesLeast(tree, before.Keys, now.Keys, source, content);
    forall f | f in NewFiles(tree, before.Keys, source, content)
      ensures f in added
    {
      assert tree.Flat(f) in Names(tree, NewFiles(tree, before.Keys, source, content));
      var f' :| f' in added && tree.Flat(f') == tree.Flat(f);
      FlatInjective(tree, f, f');
    }
    forall f | f in added ensures Settled(tree, now, f) {}
  }

  /** What copying the first queued header adds is reached, so a fault there is a fault here. */
  lemma QueueHead(tree: Tree, before: map<Path, Content>, now: map<Path, Content>,
                  source: Path, content: Content, added: set<Path>, queue: seq<Path>)
    requires Pending(tree, before, now, added, queue) && queue != []
    requires added <= NewFiles(tree, before.Keys, source, content)
    ensures queue[0] in tree.files
    ensures NewFiles(tree, now.Keys, queue[0], tree.files[queue[0]]) + {queue[0]}
            <= NewFiles(tree, before.Keys, source, content)
  {
    hide NewFiles;
    NewFilesNested(tree, before.Keys, now.Keys, source, content, queue[0]);
  }

  lemma CopyHead(tree: Tree, before: map<Path, Content>, now: map<Path, Content>, next: map<Path, Content>,
                 added: set<Path>, more: set<Path>, queue: seq<Path>)
    requires ValidTree(tree)
    requires Pending(tree, before, now, added, queue) && queue != [] && queue[0] in tree.files
    requires more == NewFiles(tree, now.Keys, queue[0], tree.files[queue[0]])
    requires Copied(tree, now, next, queue[0], HeaderForm(tree, queue[0]), more)
    requires Clean(tree, more + {queue[0]})
    ensures Pending(tree, before, next, added + more, queue[1..])
    ensures now.Keys <= next.Keys
    ensures Names(tree, added + more) == Names(tree, added) + Names(tree, more) + {tree.Flat(queue[0])}
  {
    hide NewFiles, Edge, Includes, FaultyFile, Settled;
    var h := queue[0];
    ClosedWithSource(tree, now, next, h, more);
    assert tree.Flat(h) in Names(tree, added);
    PendingStep(tree, before, now, next, added, more, queue);
  }

  lemma ClosedWithSource(tree: Tree, now: map<Path, Content>, next: map<Path, Content>, h: Path, more: set<Path>)
    requires h in tree.files && more == NewFiles(tree, now.Keys, h, tree.files[h])
    requires next.Keys == now.Keys + {tree.Flat(h)} + Names(tree, more)
    ensures ClosedOver(tree, next.Keys, more + {h})
  {
    NewFilesClosed(tree, now.Keys, h, tree.files[h]);
  }

  lemma FinishCopy(tree: Tree, before: map<Path, Content>, extended: map<Path, Content>,
                   source: Path, written: Content, added: set<Path>)
    requires ValidTree(tree) && source in tree.files
    requires Extends(tree, before, extended, added)
    ensures Copied(tree, before, extended[tree.Flat(source) := written], source, written, added)
  {
    forall f | f in added && f != source ensures tree.Flat(f) != tree.Flat(source) {
      FlatInjective(tree, f, source);
    }
    forall f | f in added ensures tree.Flat(f) in Names(tree, added) {}
  }

  lemma NamesAdd(tree: Tree, files: set<Path>, p: Path)
    ensures Names(tree, files + {p}) == Names(tree, files) + {tree.Flat(p)}
  {
  }

  /** One more header written raw and queued; while rewriting, everything added is still queued. */
  lemma QueueOne(tree: Tree, before: map<Path, Content>, now: map<Path, Content>,
                 added: set<Path>, queue: seq<Path>, p: Path)
    requires Pending(tree, before, now, added, queue)
    requires forall f :: f in added ==> f in queue
    requires p in tree.files && tree.Flat(p) !in now
    ensures Pending(tree, before, now[tree.Flat(p) := tree.files[p]], added + {p}, queue + [p])
    ensures forall f :: f in added + {p} ==> f in queue + [p]
  {
    NamesAdd(tree, added, p);
    forall f | f in added + {p} ensures f in queue + [p] {
      if f != p { assert f in queue; }
      else { assert (queue + [p])[|queue|] == p; }
    }
  }

  /** The first `i` tokens are resolvable, and the files they resolve to are in the target. */
  ghost predicate Scanned(tree: Tree, names: set<Path>, source: Path, content: Content, i: nat)
    requires i <= |content|
  {
    forall k :: 0 <= k < i && content[k].Include? ==>
      var r := Resolve(tree, source, content[k].header);
      !r.Escapes? && (r.Found? ==> tree.Flat(r.path) in names)
  }

  lemma ScanDone(tree: Tree, names: set<Path>, source: Path, content: Content)
    requires Scanned(tree, names, source, content, |content|)
    ensures !Faulty(tree, source, content)
    ensures forall g :: Includes(tree, source, content, g) ==> tree.Flat(g) in names
  {
  }

  lemma ScanStop(tree: Tree, source: Path, content: Content, i: nat)
    requires i < |content| && content[i].Include? && Resolve(tree, source, content[i].header).Escapes?
    ensures Faulty(tree, source, content)
  {
  }

  /** What the first `i` tokens add before anything is relocated: the files they resolve to whose names were not
      taken, raw. */
  ghost predicate RawSoFar(tree: Tree, before: map<Path, Content>, now: map<Path, Content>,
                           source: Path, content: Content, i: nat)
    requires i <= |content|
  {
    && (forall k :: k in before ==> k in now && now[k] == before[k])
    && (forall j :: 0 <= j < i && content[j].Include? ==> RawCopy(tree, before, now, source, content[j].header))
    && (forall k :: k in now && k !in before ==>
          exists j :: 0 <= j < i && content[j].Include? && ResolvesTo(tree, source, content[j].header, k))
  }

  ghost predicate RawCopy(tree: Tree, before: map<Path, Content>, now: map<Path, Content>, source: Path, h: Header) {
    var r := Resolve(tree, source, h);
    r.Found? && tree.Flat(r.path) !in before ==>
      tree.Flat(r.path) in now && now[tree.Flat(r.path)] == tree.files[r.path]
  }

  ghost predicate ResolvesTo(tree: Tree, source: Path, h: Header, flat: Path) {
    var r := Resolve(tree, source, h);
    r.Found? && tree.Flat(r.path) == flat
  }

  /** A relocation that stopped at a directive it could not resolve: what it found until then stays raw. */
  ghost predicate Interrupted(tree: Tree, before: map<Path, Content>, after: map<Path, Content>,
                              source: Path, content: Content) {
    exists i :: 0 <= i < |content| && content[i].Include?
                && Resolve(tree, source, content[i].header).Escapes?
                && RawSoFar(tree, before, after, source, content, i)
  }

  lemma RawText(tree: Tree, before: map<Path, Content>, now: map<Path, Content>, source: Path, content: Content, i: nat)
    requires i < |content| && content[i].Text? && RawSoFar(tree, before, now, source, content, i)
    ensures RawSoFar(tree, before, now, source, content, i + 1)
  {
    hide RawCopy, ResolvesTo;
    forall k | k in now && k !in before
      ensures exists j :: 0 <= j < i + 1 && content[j].Include? && ResolvesTo(tree, source, content[j].header, k)
    {
      var j :| 0 <= j < i && content[j].Include? && ResolvesTo(tree, source, content[j].header, k);
    }
  }

  /** One more directive: its file is written raw if its name is free, and was found raw or before otherwise. */
  lemma RawInclude(tree: Tree, before: map<Path, Content>, now: map<Path, Content>, next: map<Path, Content>,
                   source: Path, content: Content, i: nat)
    requires ValidTree(tree) && i < |content| && content[i].Include?
    requires RawSoFar(tree, before, now, source, content, i)
    requires var r := Resolve(tree, source, content[i].header);
             next == if r.Found? && tree.Flat(r.path) !in now then now[tree.Flat(r.path) := tree.files[r.path]] else now
    ensures RawSoFar(tree, before, next, source, content, i + 1)
  {
    hide Resolve, Mangle;
    var r := Resolve(tree, source, content[i].header);
    forall j | 0 <= j < i + 1 && content[j].Include?
      ensures RawCopy(tree, before, next, source, content[j].header)
    {
      if j < i {
        assert RawCopy(tree, before, now, source, content[j].header);
      } else if r.Found? && tree.Flat(r.path) in now && tree.Flat(r.path) !in before {
        var j' :| 0 <= j' < i && content[j'].Include?
                  && ResolvesTo(tree, source, content[j'].header, tree.Flat(r.path));
        FlatInjective(tree, Resolve(tree, source, content[j'].header).path, r.path);
        assert RawCopy(tree, before, now, source, content[j'].header);
      }
    }
    forall k | k in next && k !in before
      ensures exists j :: 0 <= j < i + 1 && content[j].Include? && ResolvesTo(tree, source, content[j].header, k)
    {
      if k in now {
        var j :| 0 <= j < i && content[j].Include? && ResolvesTo(tree, source, content[j].header, k);
      } else {
        assert ResolvesTo(tree, source, content[i].header, k);
      }
    }
  }

  lemma NothingRaw(tree: Tree, before: map<Path, Content>, source: Path, content: Content)
    ensures RawSoFar(tree, before, before, source, content, 0)
  {
  }

  lemma StoppedAt(tree: Tree, before: map<Path, Content>, after: map<Path, Content>,
                  source: Path, content: Content, i: nat)
    requires i < |content| && content[i].Include? && Resolve(tree, source, content[i].header).Escapes?
    requires RawSoFar(tree, before, after, source, content, i)
    ensures Interrupted(tree, before, after, source, content)
  {
    hide RawSoFar, Resolve;
  }

  /** A header resolved to a file whose name is not taken: it is written raw and queued. */
  lemma QueueResolved(tree: Tree, before: map<Path, Content>, now: map<Path, Content>, source: Path,
                      content: Content, i: nat, added: set<Path>, queue: seq<Path>, p: Path)
    requires Pending(tree, before, now, added, queue)
    requires forall f :: f in added ==> f in queue
    requires i < |content| && content[i].Include? && Resolve(tree, source, content[i].header) == Found(p)
    requires tree.Flat(p) !in now
    ensures Pending(tree, before, now[tree.Flat(p) := tree.files[p]], added + {p}, queue + [p])
    ensures forall f :: f in added + {p} ==> f in queue + [p]
    ensures Names(tree, added + {p}) == Names(tree, added) + {tree.Flat(p)}
    ensures p in NewFiles(tree, before.Keys, source, content)
    ensures tree.Flat(p) in Names(tree, tree.files.Keys)
  {
    assert Includes(tree, source, content, p);
    DirectlyNew(tree, before.Keys, source, content, p);
    hide NewFiles, Includes;
    QueueOne(tree, before, now, added, queue, p);
    NamesAdd(tree, added, p);
  }

  class Project {
    const tree: Tree
    var target: map<Path, Content>
    var copied: set<Path>

    constructor (tree: Tree, target: map<Path, Content>)
      ensures this.tree == tree && this.target == target && copied == {}
    {
      this.tree := tree;
      this.target := target;
      this.copied := {};
    }

    /** The inner `relocate`: resolves one header; a file not in the target yet is written raw and queued. */
    method RelocateHeader(source: Path, header: Header, headers: seq<Path>)
      returns (ok: bool, relocated: Header, queued: seq<Path>)
      requires ValidTree(tree)
      modifies this`target, this`copied
      ensures ok <==> !Resolve(tree, source, header).Escapes?
      ensures relocated == RewriteHeader(tree, source, header)
      ensures var r := Resolve(tree, source, header);
              if r.Found? && tree.Flat(r.path) !in old(target)
              then target == old(target)[tree.Flat(r.path) := tree.files[r.path]]
                   && copied == old(copied) + {tree.Flat(r.path)} && queued == headers + [r.path]
              else target == old(target) && copied == old(copied) && queued == headers
      decreases |UnseenFiles(tree, target.Keys)|, 1
    {
      var directories := SearchPath(tree, source);
      ok, relocated, queued := true, header, headers;
      var i := 0;
      while i < |directories|
        invariant 0 <= i <= |directories|
        invariant Search(tree, directories[i..], header) == Resolve(tree, source, header)
        invariant ok && relocated == header && queued == headers
        invariant target == old(target) && copied == old(copied)
      {
        assert directories[i..][1..] == directories[i + 1..];
        match Locate(tree, directories[i], header) {
          case None =>
            ok := false;
            return;
          case Some(resolved) =>
            if resolved in tree.files {
              if tree.Flat(resolved) !in target {
                var wrote := Copy(resolved, false, false, None);
                queued := queued + [resolved];
              }
              relocated := Header(false, tree.Flat(resolved));
              return;
            }
        }
        i := i + 1;
      }
    }

    /** One match of `re.sub`, or the text up to it. */
    method RelocateToken(source: Path, content: Content, i: nat, headers: seq<Path>, ghost before: map<Path, Content>,
                         ghost added: set<Path>, ghost noted: set<Path>)
      returns (ok: bool, token: Token, queued: seq<Path>, ghost more: set<Path>)
      requires ValidTree(tree) && i < |content| && before.Keys <= target.Keys
      requires Scanned(tree, target.Keys, source, content, i)
      requires Pending(tree, before, target, added, headers) && forall f :: f in added ==> f in headers
      requires added <= NewFiles(tree, before.Keys, source, content)
      requires copied == noted + Names(tree, added) && OthersKept(tree, before, target)
      requires RawSoFar(tree, before, target, source, content, i)
      modifies this`target, this`copied
      ensures before.Keys <= target.Keys && OthersKept(tree, before, target)
      ensures !ok ==> Faulty(tree, source, content) && Interrupted(tree, before, target, source, content)
      ensures ok ==> RawSoFar(tree, before, target, source, content, i + 1)
      ensures ok ==> token == RewriteToken(tree, source, content[i])
      ensures ok ==> Scanned(tree, target.Keys, source, content, i + 1)
      ensures ok ==> Pending(tree, before, target, more, queued) && forall f :: f in more ==> f in queued
      ensures ok ==> more <= NewFiles(tree, before.Keys, source, content)
      ensures ok ==> copied == noted + Names(tree, more)
      decreases |UnseenFiles(tree, target.Keys)|, 2
    {
      hide NewFiles, Edge, Faulty, FaultyFile, Resolve, Includes, UnseenFiles, Mangle, ValidTree, SearchPath,
           RawSoFar, Interrupted;
      ok, token, queued, more := true, content[i], headers, added;
      match content[i] {
        case Text(_) =>
          RawText(tree, before, target, source, content, i);
        case Include(indent, h) =>
          var relocated;
          ghost var earlier, r := target, Resolve(tree, source, h);
          ok, relocated, queued := RelocateHeader(source, h, headers);
          if !ok {
            ScanStop(tree, source, content, i);
            StoppedAt(tree, before, target, source, content, i);
            return;
          }
          RawInclude(tree, before, earlier, target, source, content, i);
          if r.Found? && tree.Flat(r.path) !in earlier {
            QueueResolved(tree, before, earlier, source, content, i, added, headers, r.path);
            more := added + {r.path};
          }
          token := Include(indent, relocated);
      }
    }

    /** `relocate`: rewrites every directive of `content`, then copies and relocates what it queued. */
    method Relocate(source: Path, content: Content) returns (ok: bool, out: Content)
      requires ValidTree(tree)
      modifies this`target, this`copied
      ensures var added := NewFiles(tree, old(target).Keys, source, content);
              && (ok <==> !Faulty(tree, source, content) && Clean(tree, added))
              && (ok ==> out == Rewrite(tree, source, content))
              && (ok ==> Extends(tree, old(target), target, added))
              && (ok ==> copied == old(copied) + Names(tree, added))
      ensures Faulty(tree, source, content) ==> Interrupted(tree, old(target), target, source, content)
      ensures OthersKept(tree, old(target), target)
      decreases |UnseenFiles(tree, target.Keys)|, 3
    {
      hide NewFiles, Edge, Faulty, FaultyFile, Resolve, Includes, UnseenFiles, Mangle, ValidTree, SearchPath,
           Extends, Clean, OthersKept, RawSoFar, Interrupted;
      ghost var before := target;
      ghost var added: set<Path> := {};
      var headers: seq<Path> := [];
      ok, out := true, [];
      KeptSelf(tree, target);
      NothingRaw(tree, target, source, content);
      var i := 0;
      while i < |content|
        invariant 0 <= i <= |content| && ok && |out| == i
        invariant forall k :: 0 <= k < i ==> out[k] == RewriteToken(tree, source, content[k])
        invariant Scanned(tree, target.Keys, source, content, i)
        invariant before.Keys <= target.Keys
        invariant Pending(tree, before, target, added, headers)
        invariant forall f :: f in added ==> f in headers
        invariant added <= NewFiles(tree, before.Keys, source, content)
        invariant copied == old(copied) + Names(tree, added)
        invariant OthersKept(tree, before, target)
        invariant RawSoFar(tree, before, target, source, content, i)
      {
        UnseenShrinks(tree, before.Keys, target.Keys);
        var token;
        ok, token, headers, added := RelocateToken(source, content, i, headers, before, added, old(copied));
        if !ok {
          return;
        }
        out := out + [token];
        i := i + 1;
      }
      assert out == Rewrite(tree, source, content);
      ScanDone(tree, target.Keys, source, content);
      UnseenShrinks(tree, before.Keys, target.Keys);
      if headers != [] {
        assert tree.Flat(headers[0]) in target.Keys - before.Keys;
      }
      ghost var scanned := target;
      ok := CopyHeaders(source, content, headers, before, added, old(copied));
      KeptThrough(tree, before, scanned, target);
    }

    /** The closing loop of `relocate`, over the headers queued while rewriting. */
    method CopyHeaders(source: Path, content: Content, headers: seq<Path>,
                       ghost before: map<Path, Content>, ghost queued: set<Path>, ghost noted: set<Path>)
      returns (ok: bool)
      requires ValidTree(tree)
      requires Pending(tree, before, target, queued, headers)
      requires queued <= NewFiles(tree, before.Keys, source, content)
      requires forall g :: Includes(tree, source, content, g) ==> tree.Flat(g) in target
      requires headers != [] ==> |UnseenFiles(tree, target.Keys)| < |UnseenFiles(tree, before.Keys)|
      requires copied == noted + Names(tree, queued)
      modifies this`target, this`copied
      ensures var added := NewFiles(tree, before.Keys, source, content);
              && (ok <==> Clean(tree, added))
              && (ok ==> Extends(tree, before, target, added))
              && (ok ==> copied == noted + Names(tree, added))
      ensures OthersKept(tree, old(target), target)
      decreases |UnseenFiles(tree, before.Keys)|, 1
    {
      hide NewFiles, Edge, FaultyFile, Includes, Pending, Copied, ClosedOver;
      ghost var reached, added := NewFiles(tree, before.Keys, source, content), queued;
      ok := true;
      var i := 0;
      while i < |headers|
        invariant 0 <= i <= |headers| && ok
        invariant Pending(tree, before, target, added, headers[i..])
        invariant added <= reached
        invariant forall g :: Includes(tree, source, content, g) ==> tree.Flat(g) in target
        invariant headers != [] ==> |UnseenFiles(tree, target.Keys)| < |UnseenFiles(tree, before.Keys)|
        invariant copied == noted + Names(tree, added)
        invariant OthersKept(tree, old(target), target)
      {
        ghost var now, queue := target, headers[i..];
        assert headers[i] == queue[0] && queue[1..] == headers[i + 1..];
        QueueHead(tree, before, now, source, content, added, queue);
        ghost var more := NewFiles(tree, now.Keys, headers[i], tree.files[headers[i]]);
        ok := Copy(headers[i], false, true, None);
        if !ok {
          return;
        }
        CopyHead(tree, before, now, target, added, more, queue);
        UnseenShrinks(tree, now.Keys, target.Keys);
        added := added + more;
        i := i + 1;
      }
      assert headers[i..] == [];
      PendingDone(tree, before, target, source, content, added);
    }

    /** `copy`: reads a file, optionally relocates it, and writes it under its flat name. */
    method Copy(source: Path, prepareDefines: bool, relocate: bool, condition: Option<string>) returns (ok: bool)
      requires ValidTree(tree)
      modifies this`target, this`copied
      ensures source !in tree.files ==> !ok && target == old(target)
      ensures relocate && FaultyFile(tree, source) ==>
                Interrupted(tree, old(target), target, source, WithDefines(tree, prepareDefines, tree.files[source]))
      ensures source in tree.files && !relocate ==>
                ok && target == old(target)[tree.Flat(source) := Form(tree, source, prepareDefines, false, condition)]
                   && copied == old(copied) + {tree.Flat(source)}
      ensures source in tree.files && relocate ==>
                var added := NewFiles(tree, old(target).Keys, source, tree.files[source]);
                && (ok <==> Clean(tree, added + {source}))
                && (ok ==> Copied(tree, old(target), target, source,
                                  Form(tree, source, prepareDefines, true, condition), added))
                && (ok ==> copied == old(copied) + Names(tree, added) + {tree.Flat(source)})
      ensures OthersKept(tree, old(target), target)
      decreases |UnseenFiles(tree, target.Keys)|, if relocate then 4 else 0
    {
      hide NewFiles, Edge, Faulty, Includes, Mangle, Rewrite, Interrupted;
      if source !in tree.files {
        return false;
      }
      var content := tree.files[source];
      if prepareDefines {
        content := [Text(tree.defines)] + content;
      }
      ok := true;
      if relocate {
        DefinesIncludeNothing(tree, source, tree.files[source], prepareDefines);
        assert content == WithDefines(tree, prepareDefines, tree.files[source]);
        DefinesAddNoFiles(tree, target.Keys, source, tree.files[source], prepareDefines);
        ok, content := Relocate(source, content);
        if !ok {
          return;
        }
      }
      content := WithCondition(condition, content);
      if relocate {
        FinishCopy(tree, old(target), target, source, content,
                   NewFiles(tree, old(target).Keys, source, tree.files[source]));
      }
      assert tree.Flat(source) in Names(tree, tree.files.Keys);
      target := target[tree.Flat(source) := content];
      copied := copied + {tree.Flat(source)};
    }
  }
}
