/**
 * The walk of `pfind` taken apart: which entries it reaches and in what order
 * (`Preorder`, a plain enumeration of the tree), and what it does at each one
 * (`Replay`: print when both tests hold, stop the process at the first entry
 * that cannot be stat'ed or classified). `SearchDirIsReplay` shows the walk is
 * exactly the second applied to the first.
 */
module WalkProps {
  import opened Wrappers
  import opened PfindUtils
  import opened Libgen
  import opened Pfind

  /** An entry reached by the walk, with the path it is reached by. */
  datatype Visit = Visit(path: string, entry: Entry)

  /** The entries the walk lists: directories that `opendir` opens. */
  predicate Expands(e: Entry) {
    e.Node? && Filetype(e.mode) == Some('d') && e.listing.Listed?
  }

  /**
   * The entries reachable from `e` at `path`, in depth-first pre-order: the
   * entry itself, then the subtree of each listed child in listing order,
   * leaving out `.` and `..`.
   */
  function Preorder(path: string, e: Entry): (vs: seq<Visit>)
    ensures |vs| >= 1 && vs[0] == Visit(path, e)
    decreases e
  {
    [Visit(path, e)] + (if Expands(e) then PreorderList(path, e.listing.children) else [])
  }

  /** The subtrees of a directory's children, one after the other. */
  function PreorderList(path: string, children: seq<Child>): seq<Visit>
    decreases children
  {
    if children == [] then [] else PreorderChild(path, children[0]) + PreorderList(path, children[1..])
  }

  /** The subtree of one child, at `path/name`; none for `.` and `..`. */
  function PreorderChild(path: string, c: Child): seq<Visit>
    decreases c
  {
    if c.name == "." || c.name == ".." then [] else Preorder(path + "/" + c.name, c.entry)
  }

  /** How `searchdir` treats a visit: the entry's type letter, or why the process stops. */
  function Classify(v: Visit): Result<char, Abort> {
    match v.entry
    case Unstatable => Err(StatFailed(v.path))
    case Node(mode, _) =>
      match Filetype(mode)
      case None => Err(UnrecognizedFiletype)
      case Some(t) => Ok(t)
  }

  /** The line a sound visit with type letter `t` prints: its path, when both tests hold. */
  function Emitted(v: Visit, t: char, findme: Option<string>, ftype: Option<char>, fnmatch: Matcher): seq<string> {
    if Selected(Args(v.path, findme, ftype), t, fnmatch) then [v.path] else []
  }

  /** The per-entry work of the walk applied to a sequence of visits in turn. */
  function Replay(vs: seq<Visit>, findme: Option<string>, ftype: Option<char>, fnmatch: Matcher): Walk
    decreases |vs|
  {
    if vs == [] then Walk([], Completed)
    else
      match Classify(vs[0])
      case Err(reason) => Walk([], Aborted(reason))
      case Ok(t) =>
        var rest := Replay(vs[1..], findme, ftype, fnmatch);
        Walk(Emitted(vs[0], t, findme, ftype, fnmatch) + rest.lines, rest.outcome)
  }

  /** Concatenation of printed lines regroups freely. */
  lemma SeqAssoc(a: seq<string>, b: seq<string>, c: seq<string>)
    ensures a + (b + c) == (a + b) + c
  {
  }

  /** Replaying two stretches of visits: the second runs only if the first did not stop the process. */
  lemma {:induction false} ReplayAppend(xs: seq<Visit>, ys: seq<Visit>, findme: Option<string>, ftype: Option<char>, fnmatch: Matcher)
    ensures Replay(xs + ys, findme, ftype, fnmatch) ==
      if Replay(xs, findme, ftype, fnmatch).outcome.Aborted? then Replay(xs, findme, ftype, fnmatch)
      else Walk(Replay(xs, findme, ftype, fnmatch).lines + Replay(ys, findme, ftype, fnmatch).lines,
                Replay(ys, findme, ftype, fnmatch).outcome)
    decreases |xs|
  {
    if xs == [] {
      assert xs + ys == ys;
    } else {
      var zs := xs + ys;
      assert zs[0] == xs[0];
      assert zs[1..] == xs[1..] + ys;
      match Classify(xs[0])
      case Err(r) =>
        assert Replay(xs, findme, ftype, fnmatch) == Walk([], Aborted(r));
        assert Replay(zs, findme, ftype, fnmatch) == Walk([], Aborted(r));
      case Ok(t) =>
        var own := Emitted(xs[0], t, findme, ftype, fnmatch);
        var tailX := Replay(xs[1..], findme, ftype, fnmatch);
        var tailZ := Replay(zs[1..], findme, ftype, fnmatch);
        var rys := Replay(ys, findme, ftype, fnmatch);
        assert Replay(xs, findme, ftype, fnmatch) == Walk(own + tailX.lines, tailX.outcome);
        assert Replay(zs, findme, ftype, fnmatch) == Walk(own + tailZ.lines, tailZ.outcome);
        ReplayAppend(xs[1..], ys, findme, ftype, fnmatch);
        if !tailX.outcome.Aborted? {
          assert tailZ == Walk(tailX.lines + rys.lines, rys.outcome);
          SeqAssoc(own, tailX.lines, rys.lines);
        }
    }
  }

  /**
   * `searchdir` is the per-entry work replayed over the pre-order enumeration
   * of the tree below its path: the walk's order, its filters and its stop on
   * the first bad entry, all at once.
   */
  lemma {:induction false} SearchDirIsReplay(a: Args, e: Entry, fnmatch: Matcher)
    ensures SearchDir(a, e, fnmatch) == Replay(Preorder(a.dirname, e), a.findme, a.ftype, fnmatch)
    decreases e
  {
    var vs := Preorder(a.dirname, e);
    assert Args(a.dirname, a.findme, a.ftype) == a;
    if Expands(e) {
      assert vs[1..] == PreorderList(a.dirname, e.listing.children);
      EnumerateDirIsReplay(a, e.listing.children, fnmatch);
    } else {
      assert vs == [Visit(a.dirname, e)] && vs[1..] == [];
    }
  }

  /** `enumerate_dir_files` is the replay of its children's subtrees in listing order. */
  lemma {:induction false} EnumerateDirIsReplay(a: Args, children: seq<Child>, fnmatch: Matcher)
    ensures EnumerateDir(a, children, fnmatch) == Replay(PreorderList(a.dirname, children), a.findme, a.ftype, fnmatch)
    decreases children
  {
    if children != [] {
      SearchFileIsReplay(a, children[0], fnmatch);
      EnumerateDirIsReplay(a, children[1..], fnmatch);
      ReplayAppend(PreorderChild(a.dirname, children[0]), PreorderList(a.dirname, children[1..]), a.findme, a.ftype, fnmatch);
    }
  }

  /** `searchfile` is the replay of one child's subtree. */
  lemma {:induction false} SearchFileIsReplay(a: Args, c: Child, fnmatch: Matcher)
    ensures SearchFile(a, c, fnmatch) == Replay(PreorderChild(a.dirname, c), a.findme, a.ftype, fnmatch)
    decreases c
  {
    if c.name != "." && c.name != ".." {
      SearchDirIsReplay(ChildArgs(a, c.name), c.entry, fnmatch);
    }
  }

  /** Every entry in the visits can be stat'ed and classified. */
  predicate Sound(vs: seq<Visit>) {
    forall i :: 0 <= i < |vs| ==> Classify(vs[i]).Ok?
  }

  /** The paths of the visits, in order. */
  function Paths(vs: seq<Visit>): seq<string> {
    seq(|vs|, i requires 0 <= i < |vs| => vs[i].path)
  }

  /**
   * Over sound visits the replay runs to its end and prints exactly the paths
   * of the visits whose entries pass both tests.
   */
  lemma {:induction false} SoundReplayPrintsSelected(vs: seq<Visit>, findme: Option<string>, ftype: Option<char>, fnmatch: Matcher)
    requires Sound(vs)
    ensures Replay(vs, findme, ftype, fnmatch).outcome == Completed
    ensures forall p :: p in Replay(vs, findme, ftype, fnmatch).lines <==>
      exists i :: 0 <= i < |vs| && vs[i].path == p && Selected(Args(p, findme, ftype), Classify(vs[i]).value, fnmatch)
    decreases |vs|
  {
    if vs != [] {
      var tail := vs[1..];
      assert Sound(tail) by {
        forall i | 0 <= i < |tail| ensures Classify(tail[i]).Ok? {
          assert tail[i] == vs[i + 1];
        }
      }
      SoundReplayPrintsSelected(tail, findme, ftype, fnmatch);
      assert Classify(vs[0]).Ok?;
      forall p | p in Replay(vs, findme, ftype, fnmatch).lines
        ensures exists i :: 0 <= i < |vs| && vs[i].path == p && Selected(Args(p, findme, ftype), Classify(vs[i]).value, fnmatch)
      {
        if p !in Replay(tail, findme, ftype, fnmatch).lines {
          assert vs[0].path == p;
        } else {
          var j :| 0 <= j < |tail| && tail[j].path == p && Selected(Args(p, findme, ftype), Classify(tail[j]).value, fnmatch);
          assert vs[j + 1] == tail[j];
        }
      }
      forall p | exists i :: 0 <= i < |vs| && vs[i].path == p && Selected(Args(p, findme, ftype), Classify(vs[i]).value, fnmatch)
        ensures p in Replay(vs, findme, ftype, fnmatch).lines
      {
        var i :| 0 <= i < |vs| && vs[i].path == p && Selected(Args(p, findme, ftype), Classify(vs[i]).value, fnmatch);
        if i > 0 {
          assert tail[i - 1] == vs[i];
        }
      }
    }
  }

  /** Without filters, sound visits are all printed, each once, in their order. */
  lemma {:induction false} UnfilteredReplayPrintsAll(vs: seq<Visit>, fnmatch: Matcher)
    requires Sound(vs)
    ensures Replay(vs, None, None, fnmatch) == Walk(Paths(vs), Completed)
    decreases |vs|
  {
    if vs != [] {
      var tail := vs[1..];
      assert Sound(tail) by {
        forall i | 0 <= i < |tail| ensures Classify(tail[i]).Ok? {
          assert tail[i] == vs[i + 1];
        }
      }
      UnfilteredReplayPrintsAll(tail, fnmatch);
      assert Classify(vs[0]).Ok?;
      assert Paths(vs) == [vs[0].path] + Paths(tail);
    }
  }

  /**
   * The first visit that cannot be stat'ed or classified stops the replay:
   * what was printed before it stays, and no later visit is looked at.
   */
  lemma FirstFaultStops(vs: seq<Visit>, k: nat, findme: Option<string>, ftype: Option<char>, fnmatch: Matcher)
    requires k < |vs| && Classify(vs[k]).Err? && Sound(vs[..k])
    ensures Replay(vs, findme, ftype, fnmatch) ==
      Walk(Replay(vs[..k], findme, ftype, fnmatch).lines, Aborted(Classify(vs[k]).error))
  {
    assert vs == vs[..k] + vs[k..];
    SoundReplayPrintsSelected(vs[..k], findme, ftype, fnmatch);
    ReplayAppend(vs[..k], vs[k..], findme, ftype, fnmatch);
    assert vs[k..][0] == vs[k];
  }

  /**
   * A run whose tree is sound prints exactly the reached paths whose entries
   * pass both tests, and ends normally.
   */
  lemma SoundTreePrintsSelected(a: Args, e: Entry, fnmatch: Matcher)
    requires Sound(Preorder(a.dirname, e))
    ensures SearchDir(a, e, fnmatch).outcome == Completed
    ensures forall p :: p in SearchDir(a, e, fnmatch).lines <==>
      exists i :: 0 <= i < |Preorder(a.dirname, e)| && Preorder(a.dirname, e)[i].path == p &&
        Selected(Args(p, a.findme, a.ftype), Classify(Preorder(a.dirname, e)[i]).value, fnmatch)
  {
    SearchDirIsReplay(a, e, fnmatch);
    SoundReplayPrintsSelected(Preorder(a.dirname, e), a.findme, a.ftype, fnmatch);
  }

  /** Without `-name` and `-type`, a sound tree prints every reached path once, in pre-order. */
  lemma UnfilteredRunPrintsEverything(d: string, e: Entry, fnmatch: Matcher)
    requires Sound(Preorder(d, e))
    ensures SearchDir(Args(d, None, None), e, fnmatch) == Walk(Paths(Preorder(d, e)), Completed)
  {
    SearchDirIsReplay(Args(d, None, None), e, fnmatch);
    UnfilteredReplayPrintsAll(Preorder(d, e), fnmatch);
  }

  /**
   * An `lstat` failure on any reached path, the start or below it, ends the
   * whole run with what was printed before it and nothing after.
   */
  lemma StatFailureEndsRun(a: Args, e: Entry, fnmatch: Matcher, k: nat)
    requires k < |Preorder(a.dirname, e)|
    requires Preorder(a.dirname, e)[k].entry.Unstatable?
    requires Sound(Preorder(a.dirname, e)[..k])
    ensures SearchDir(a, e, fnmatch) ==
      Walk(Replay(Preorder(a.dirname, e)[..k], a.findme, a.ftype, fnmatch).lines,
           Aborted(StatFailed(Preorder(a.dirname, e)[k].path)))
  {
    SearchDirIsReplay(a, e, fnmatch);
    FirstFaultStops(Preorder(a.dirname, e), k, a.findme, a.ftype, fnmatch);
  }

  /** A directory `opendir` refuses is still tested and printed, has no visits below it, and does not stop the run. */
  lemma UnopenableDirectory(a: Args, mode: Mode, fnmatch: Matcher)
    requires IsDir(mode)
    ensures Preorder(a.dirname, Node(mode, Unopenable)) == [Visit(a.dirname, Node(mode, Unopenable))]
    ensures SearchDir(a, Node(mode, Unopenable), fnmatch) ==
      Walk(if Selected(a, 'd', fnmatch) then [a.dirname] else [], Completed)
  {
  }

  /** Only directories are listed: any other entry is a leaf of the walk. */
  lemma OnlyDirectoriesExpand(path: string, mode: Mode, listing: Listing)
    requires !IsDir(mode)
    ensures Preorder(path, Node(mode, listing)) == [Visit(path, Node(mode, listing))]
  {
  }

  /** Siblings' subtrees follow one another in listing order. */
  lemma {:induction false} PreorderListAppend(path: string, xs: seq<Child>, ys: seq<Child>)
    ensures PreorderList(path, xs + ys) == PreorderList(path, xs) + PreorderList(path, ys)
    decreases |xs|
  {
    if xs == [] {
      assert xs + ys == ys;
    } else {
      assert (xs + ys)[0] == xs[0] && (xs + ys)[1..] == xs[1..] + ys;
      PreorderListAppend(path, xs[1..], ys);
    }
  }

  lemma PrefixTransitive(x: string, y: string, z: string)
    requires x <= y && y <= z
    ensures x <= z
  {
    assert z[..|x|] == y[..|x|];
  }

  /** Every visit below a directory's children is reached by a path under the directory's. */
  lemma {:induction false} ListingBelow(path: string, children: seq<Child>)
    ensures forall v :: v in PreorderList(path, children) ==> path + "/" <= v.path
    decreases children
  {
    if children != [] {
      var c := children[0];
      ListingBelow(path, children[1..]);
      if c.name != "." && c.name != ".." {
        var cp := path + "/" + c.name;
        var vs := Preorder(cp, c.entry);
        EntryBelow(cp, c.entry);
        forall v | v in vs ensures path + "/" <= v.path {
          var i :| 0 <= i < |vs| && vs[i] == v;
          if i > 0 {
            PrefixTransitive(path + "/", cp + "/", v.path);
          }
        }
      }
      assert PreorderList(path, children) == PreorderChild(path, c) + PreorderList(path, children[1..]);
    }
  }

  /** The visits from a path are the path first, then only paths below it: pre-order. */
  lemma {:induction false} EntryBelow(path: string, e: Entry)
    ensures forall i :: 1 <= i < |Preorder(path, e)| ==> path + "/" <= Preorder(path, e)[i].path
    decreases e
  {
    if Expands(e) {
      ListingBelow(path, e.listing.children);
      var vs := Preorder(path, e);
      assert forall i :: 1 <= i < |vs| ==> vs[i] in PreorderList(path, e.listing.children) by {
        forall i | 1 <= i < |vs| ensures vs[i] in PreorderList(path, e.listing.children) {
          assert vs[i] == PreorderList(path, e.listing.children)[i - 1];
        }
      }
    }
  }

  /** Names as `readdir` gives them: non-empty and free of '/' throughout the tree. */
  predicate WellNamed(e: Entry)
    decreases e
  {
    e.Node? && e.listing.Listed? ==> WellNamedList(e.listing.children)
  }

  predicate WellNamedList(children: seq<Child>)
    decreases children
  {
    children != [] ==>
      && children[0].name != [] && '/' !in children[0].name
      && WellNamed(children[0].entry)
      && WellNamedList(children[1..])
  }

  /**
   * With well-formed names, every visit below the start is tested under its own
   * listing name (its basename), which is never `.` or `..`.
   */
  lemma {:induction false} ListingBasenames(path: string, children: seq<Child>)
    requires WellNamedList(children)
    ensures forall v :: v in PreorderList(path, children) ==>
      Basename(v.path) != "." && Basename(v.path) != ".."
    decreases children
  {
    if children != [] {
      var c := children[0];
      ListingBasenames(path, children[1..]);
      if c.name != "." && c.name != ".." {
        var cp := path + "/" + c.name;
        BasenameOfJoin(path, c.name);
        var vs := Preorder(cp, c.entry);
        if Expands(c.entry) {
          ListingBasenames(cp, c.entry.listing.children);
          assert forall v :: v in vs ==> v == vs[0] || v in PreorderList(cp, c.entry.listing.children);
        }
      }
    }
  }

  /** The two tests of `searchdir` on a child, with the child's basename resolved to its listing name. */
  predicate NameSelected(a: Args, name: string, t: char, fnmatch: Matcher) {
    MatchExp(name, a.findme, fnmatch) && (a.ftype.None? || a.ftype == Some(t))
  }

  /**
   * A listed child that is not a directory is printed, as `parent/name`,
   * exactly when its listing name and its type pass the tests, and the walk
   * goes on after it.
   */
  lemma NonDirectoryChild(a: Args, c: Child, t: char, fnmatch: Matcher)
    requires c.name != [] && '/' !in c.name && c.name != "." && c.name != ".."
    requires c.entry.Node? && Filetype(c.entry.mode) == Some(t) && t != 'd'
    ensures SearchFile(a, c, fnmatch) ==
      Walk(if NameSelected(a, c.name, t, fnmatch) then [a.dirname + "/" + c.name] else [], Completed)
  {
    ChildBasename(a, c.name);
  }
}
