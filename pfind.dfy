/**
 * The tree walker of `pfind` and its `main`: parse the arguments once, then
 * visit the starting path and, below every directory, each listed child.
 *
 * The filesystem is a finite tree handed to the walk: what `lstat` reports for
 * a path, and what `opendir`/`readdir` list for a directory. Output is the
 * sequence of lines `printf` would write, with how the walk ended.
 */
module Pfind {
  import opened Wrappers
  import opened PfindUtils
  import opened Libgen

  /** What `lstat` finds at a path: nothing (the call fails) or a mode and, for directories, a listing. */
  datatype Entry = Unstatable | Node(mode: Mode, listing: Listing)

  /** What `opendir` and `readdir` give for a directory, in `readdir` order. */
  datatype Listing = Unopenable | Listed(children: seq<Child>)

  /** One `readdir` record: the name and what lies under it. */
  datatype Child = Child(name: string, entry: Entry)

  /** Why the process stopped: `get_stat`'s `exit(1)`, or `die` in `filetype`. */
  datatype Abort = StatFailed(path: string) | UnrecognizedFiletype

  datatype Outcome = Completed | Aborted(reason: Abort)

  /** The lines printed, in order, and whether the walk ran to its end. */
  datatype Walk = Walk(lines: seq<string>, outcome: Outcome)

  /** The two tests of `searchdir` for a path whose entry has type letter `t`. */
  predicate Selected(a: Args, t: char, fnmatch: Matcher) {
    MatchExp(Basename(a.dirname), a.findme, fnmatch) && (a.ftype.None? || a.ftype == Some(t))
  }

  /** The configuration of a child visit: the same filters, the path `parent/name`. */
  function ChildArgs(a: Args, name: string): (r: Args)
    ensures r.findme == a.findme && r.ftype == a.ftype
    ensures |r.dirname| + 1 == |name| + |a.dirname| + 2
    ensures r.dirname[..|a.dirname|] == a.dirname && r.dirname[|a.dirname|] == '/'
    ensures r.dirname[|a.dirname| + 1..] == name
  {
    a.(dirname := a.dirname + "/" + name)
  }

  /** A child's basename is its listing name when the name is a single component. */
  lemma ChildBasename(a: Args, name: string)
    requires name != [] && '/' !in name
    ensures Basename(ChildArgs(a, name).dirname) == name
  {
    BasenameOfJoin(a.dirname, name);
  }

  /** Every line of `lines` names a path below `root`. */
  predicate AllBelow(lines: seq<string>, root: string) {
    forall l :: l in lines ==> root + "/" <= l
  }

  /**
   * `searchdir`: stat the path, print it if both tests hold, and list it if it
   * is a directory. Every line printed is the path itself or a path below it,
   * and a `-type a` filter prints nothing.
   */
  function SearchDir(a: Args, e: Entry, fnmatch: Matcher): (w: Walk)
    ensures forall l :: l in w.lines ==> l == a.dirname || a.dirname + "/" <= l
    ensures a.ftype == Some('a') ==> w.lines == []
    decreases e
  {
    match e
    case Unstatable => Walk([], Aborted(StatFailed(a.dirname)))
    case Node(mode, listing) =>
      match Filetype(mode)
      case None => Walk([], Aborted(UnrecognizedFiletype))
      case Some(t) =>
        var own := if Selected(a, t, fnmatch) then [a.dirname] else [];
        if t == 'd' then
          match listing
          case Unopenable => Walk(own, Completed)
          case Listed(children) =>
            var below := EnumerateDir(a, children, fnmatch);
            Walk(own + below.lines, below.outcome)
        else Walk(own, Completed)
  }

  /**
   * `enumerate_dir_files` on an opened directory: each child in listing order,
   * stopping when a child's visit ends the process.
   */
  function EnumerateDir(a: Args, children: seq<Child>, fnmatch: Matcher): (w: Walk)
    ensures AllBelow(w.lines, a.dirname)
    ensures a.ftype == Some('a') ==> w.lines == []
    decreases children
  {
    if children == [] then Walk([], Completed)
    else
      var first := SearchFile(a, children[0], fnmatch);
      if first.outcome.Aborted? then first
      else
        var rest := EnumerateDir(a, children[1..], fnmatch);
        Walk(first.lines + rest.lines, rest.outcome)
  }

  /** `searchfile`: skip `.` and `..`, otherwise visit `parent/name` with the same filters. */
  function SearchFile(a: Args, c: Child, fnmatch: Matcher): (w: Walk)
    ensures AllBelow(w.lines, a.dirname)
    ensures a.ftype == Some('a') ==> w.lines == []
    decreases c
  {
    if c.name == "." || c.name == ".." then Walk([], Completed)
    else
      var b := ChildArgs(a, c.name);
      var w := SearchDir(b, c.entry, fnmatch);
      assert forall l :: l in w.lines ==> a.dirname + "/" <= l by {
        forall l | l in w.lines ensures a.dirname + "/" <= l {
          assert (a.dirname + "/") <= b.dirname;
        }
      }
      w
  }

  /**
   * The `readdir` loop of `enumerate_dir_files`: output accumulates child by
   * child and the loop stops at the first visit that ends the process.
   */
  method EnumerateDirFiles(a: Args, children: seq<Child>, fnmatch: Matcher) returns (w: Walk)
    ensures w == EnumerateDir(a, children, fnmatch)
  {
    var lines: seq<string> := [];
    var i := 0;
    while i < |children|
      invariant 0 <= i <= |children|
      invariant EnumerateDir(a, children, fnmatch) ==
        Walk(lines + EnumerateDir(a, children[i..], fnmatch).lines, EnumerateDir(a, children[i..], fnmatch).outcome)
    {
      assert children[i..][0] == children[i] && children[i..][1..] == children[i + 1..];
      var v := SearchFile(a, children[i], fnmatch);
      if v.outcome.Aborted? {
        return Walk(lines + v.lines, v.outcome);
      }
      lines := lines + v.lines;
      i := i + 1;
    }
    assert children[i..] == [];
    return Walk(lines, Completed);
  }

  /** What a run amounts to: a usage error, or a walk from the starting directory. */
  datatype RunResult = UsageError(error: ParseError) | Searched(walk: Walk)

  /** The process status: 1 after `die` or `exit(1)`, 0 when `main` returns. */
  function ExitStatus(r: RunResult): (s: int)
    ensures s == 0 || s == 1
    ensures s == 0 <==> r.Searched? && r.walk.outcome.Completed?
  {
    match r
    case UsageError(_) => 1
    case Searched(w) => if w.outcome.Aborted? then 1 else 0
  }

  /**
   * `main`: parse the arguments, then search from the starting directory, whose
   * entry in the filesystem is `root`. A usage error prints no path, and a
   * starting path that cannot be stat'ed prints none either and fails.
   */
  method Run(av: seq<string>, root: Entry, fnmatch: Matcher) returns (res: RunResult)
    ensures res.UsageError? <==> ParseSpec(av).Err?
    ensures res.UsageError? ==> res.error == ParseSpec(av).error
    ensures |av| < 2 ==> res == UsageError(NoStartingDir)
    ensures res.Searched? ==> res.walk == SearchDir(ParseSpec(av).value, root, fnmatch)
    ensures res.Searched? && root.Unstatable? ==>
      res.walk == Walk([], Aborted(StatFailed(av[1]))) && ExitStatus(res) == 1
  {
    var parsed := ParseArgs(av);
    if parsed.Err? {
      return UsageError(parsed.error);
    }
    var w := SearchDir(parsed.value, root, fnmatch);
    return Searched(w);
  }
}
