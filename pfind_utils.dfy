/**
 * The argument parser and the two entry predicates of `pfind`: the
 * `-name` test around `fnmatch` and the mode-to-letter classification.
 *
 * `die` never returns in the program; here it is an `Err` value carrying
 * which diagnostic would have been printed.
 */
module PfindUtils {
  import opened Wrappers

  /**
   * The search configuration (`struct args`). A NULL `findme` is `None`;
   * the NUL `type` character is `None`.
   */
  datatype Args = Args(dirname: string, findme: Option<string>, ftype: Option<char>)

  /** The configuration `parse_args` starts from once `dirname` is known. */
  function InitialArgs(dirname: string): Args {
    Args(dirname, None, None)
  }

  /** The letters `validate_filetype` accepts: 'a' where the usage text names 's'. */
  const ValidTypes: string := "fdbcpla"

  /** The letters `filetype` can return. */
  const FiletypeLetters: string := "bcpflsd"

  /** The failure paths of `parse_args`, `extract_flags` and `validate_filetype`. */
  datatype ParseError =
    | NoStartingDir
    | ExactlyOneDir
    | NameTwice
    | MissingNameArg
    | TypeTwice
    | MissingTypeArg
    | TypeTooLong
    | UnknownType(letter: char)
    | UnknownPredicate(arg: string)
    | PathsPrecede(arg: string)

  /** The text `die` formats for each failure. */
  function Message(e: ParseError): string {
    match e
    case NoStartingDir => "Starting directory must be specified"
    case ExactlyOneDir => "Must specify exactly one directory"
    case NameTwice => "Syntax Err: -name can only be specified once"
    case MissingNameArg => "missing argument to `-name'"
    case TypeTwice => "Syntax Err: -type can only be specified once"
    case MissingTypeArg => "missing argument to `-type'"
    case TypeTooLong => "Arguments to -type should contain only one letter"
    case UnknownType(c) => "Unknown argument to -type: " + [c]
    case UnknownPredicate(arg) => "unknown predicate `" + arg + "'"
    case PathsPrecede(arg) => "paths must precede expression: " + arg
  }

  /** Whether `die` is called with `print_usage` set to YES for this failure. */
  function PrintsUsage(e: ParseError): bool {
    e.NoStartingDir? || e.ExactlyOneDir? || e.NameTwice? || e.TypeTwice? || e.PathsPrecede?
  }

  /** The character `validate_filetype` inspects: the first, or the terminator of "". */
  function FirstLetter(s: string): char {
    if s == [] then '\0' else s[0]
  }

  /** What `validate_filetype` decides for the argument of `-type`. */
  function CheckFiletype(s: string): (r: Result<char, ParseError>)
    ensures r.Ok? <==> |s| == 1 && s[0] in ValidTypes
    ensures r.Ok? ==> s == [r.value]
    ensures r == Err(TypeTooLong) <==> |s| > 1
    ensures r.Err? && |s| <= 1 ==> r == Err(UnknownType(FirstLetter(s)))
  {
    if |s| > 1 then Err(TypeTooLong)
    else if FirstLetter(s) in ValidTypes then Ok(FirstLetter(s))
    else Err(UnknownType(FirstLetter(s)))
  }

  /** `validate_filetype`: a scan of the valid letters up to the first match. */
  method ValidateFiletype(s: string) returns (r: Result<char, ParseError>)
    ensures r == CheckFiletype(s)
  {
    if |s| > 1 {
      return Err(TypeTooLong);
    }
    var t := FirstLetter(s);
    var i := 0;
    while i < |ValidTypes|
      invariant 0 <= i <= |ValidTypes|
      invariant forall j :: 0 <= j < i ==> ValidTypes[j] != t
    {
      if ValidTypes[i] == t {
        return Ok(t);
      }
      i := i + 1;
    }
    return Err(UnknownType(t));
  }

  /** Tokens that `extract_flags` reads as flags: the first character is '-'. */
  predicate IsFlag(arg: string) {
    |arg| > 0 && arg[0] == '-'
  }

  /** The number of tokens the given flags account for: two per flag pair. */
  function FlagTokenCount(a: Args): nat {
    (if a.findme.None? then 0 else 2) + (if a.ftype.None? then 0 else 2)
  }

  /** Every type filter in the configuration is a letter `validate_filetype` accepts. */
  predicate TypeValidated(a: Args) {
    a.ftype.Some? ==> a.ftype.value in ValidTypes
  }

  /**
   * The loop of `extract_flags` over the tokens after the directory, starting
   * from configuration `a`: each `-name` or `-type` takes the next token.
   */
  function ScanFlags(rest: seq<string>, a: Args): (r: Result<Args, ParseError>)
    ensures r.Ok? ==> r.value.dirname == a.dirname
    ensures r.Ok? ==> FlagTokenCount(r.value) == FlagTokenCount(a) + |rest|
    ensures r.Ok? && a.findme.Some? ==> r.value.findme == a.findme
    ensures r.Ok? && a.ftype.Some? ==> r.value.ftype == a.ftype
    ensures r.Ok? && TypeValidated(a) ==> TypeValidated(r.value)
    ensures r.Err? ==> !r.error.NoStartingDir? && !r.error.ExactlyOneDir?
    decreases |rest|
  {
    if rest == [] then Ok(a)
    else
      var arg := rest[0];
      if IsFlag(arg) then
        if arg == "-name" then
          if a.findme.Some? then Err(NameTwice)
          else if |rest| < 2 then Err(MissingNameArg)
          else ScanFlags(rest[2..], a.(findme := Some(rest[1])))
        else if arg == "-type" then
          if a.ftype.Some? then Err(TypeTwice)
          else if |rest| < 2 then Err(MissingTypeArg)
          else
            match CheckFiletype(rest[1])
            case Err(e) => Err(e)
            case Ok(t) => ScanFlags(rest[2..], a.(ftype := Some(t)))
        else Err(UnknownPredicate(arg))
      else Err(PathsPrecede(arg))
  }

  /**
   * `parse_args` on the whole argument vector `av` (program name first):
   * the `ac < 2` test, `extract_flags`, then the token-count test.
   */
  function ParseSpec(av: seq<string>): (r: Result<Args, ParseError>)
    ensures r == Err(NoStartingDir) <==> |av| < 2
    ensures r.Ok? ==> r.value.dirname == av[1]
    ensures r.Ok? ==> |av| == 2 + FlagTokenCount(r.value)
    ensures r.Ok? ==> TypeValidated(r.value)
    ensures r != Err(ExactlyOneDir)
  {
    if |av| < 2 then Err(NoStartingDir)
    else
      match ScanFlags(av[2..], InitialArgs(av[1]))
      case Err(e) => Err(e)
      case Ok(a) =>
        if |av| != 2 + (if a.findme.None? then 0 else 2) + (if a.ftype.None? then 0 else 2)
        then Err(ExactlyOneDir)
        else Ok(a)
  }

  /**
   * `parse_args` followed by `extract_flags`: the index `i` is the moved `av`
   * pointer and `cur` the configuration they fill in.
   */
  method ParseArgs(av: seq<string>) returns (r: Result<Args, ParseError>)
    ensures r == ParseSpec(av)
  {
    if |av| < 2 {
      return Err(NoStartingDir);
    }
    var cur := InitialArgs(av[1]);
    var i := 2;
    while i < |av|
      invariant 2 <= i <= |av|
      invariant ScanFlags(av[i..], cur) == ScanFlags(av[2..], InitialArgs(av[1]))
      decreases |av| - i
    {
      var arg := av[i];
      if IsFlag(arg) {
        if arg == "-name" {
          if cur.findme.Some? {
            return Err(NameTwice);
          }
          if i + 1 == |av| {
            return Err(MissingNameArg);
          }
          assert av[i..][2..] == av[i + 2..];
          cur := cur.(findme := Some(av[i + 1]));
          i := i + 2;
        } else if arg == "-type" {
          if cur.ftype.Some? {
            return Err(TypeTwice);
          }
          if i + 1 == |av| {
            return Err(MissingTypeArg);
          }
          assert av[i..][2..] == av[i + 2..];
          var t := ValidateFiletype(av[i + 1]);
          if t.Err? {
            return Err(t.error);
          }
          cur := cur.(ftype := Some(t.value));
          i := i + 2;
        } else {
          return Err(UnknownPredicate(arg));
        }
      } else {
        return Err(PathsPrecede(arg));
      }
    }
    var expected := 2;
    expected := expected + (if cur.findme.None? then 0 else 2) + (if cur.ftype.None? then 0 else 2);
    if |av| != expected {
      return Err(ExactlyOneDir);
    }
    return Ok(cur);
  }

  /** `fnmatch(pattern, string, 0)`: an external matcher returning 0, FNM_NOMATCH or an error code. */
  type Matcher = (string, string) -> int

  /** The value glibc's `fnmatch` returns for "no match". */
  const FNM_NOMATCH: int := 1

  /**
   * `match_exp`: no pattern matches every name; with a pattern, only
   * FNM_NOMATCH rejects, so an error code from the matcher counts as a match.
   */
  function MatchExp(filename: string, findme: Option<string>, fnmatch: Matcher): (r: bool)
    ensures findme.None? ==> r
    ensures findme.Some? ==> (!r <==> fnmatch(findme.value, filename) == FNM_NOMATCH)
  {
    !(findme.Some? && fnmatch(findme.value, filename) == FNM_NOMATCH)
  }

  /** `st_mode`, with the Linux encoding of its file-format field. */
  type Mode = nat

  const S_IFMT: nat := 0xF000
  const S_IFSOCK: nat := 0xC000
  const S_IFLNK: nat := 0xA000
  const S_IFREG: nat := 0x8000
  const S_IFBLK: nat := 0x6000
  const S_IFDIR: nat := 0x4000
  const S_IFCHR: nat := 0x2000
  const S_IFIFO: nat := 0x1000

  /** `mode & S_IFMT`. */
  function FormatBits(mode: Mode): (r: nat)
    ensures r <= S_IFMT && r % 0x1000 == 0
    ensures (mode - r) % 0x1_0000 < 0x1000
  {
    mode % 0x1_0000 / 0x1000 * 0x1000
  }

  predicate IsBlk(mode: Mode) { FormatBits(mode) == S_IFBLK }
  predicate IsChr(mode: Mode) { FormatBits(mode) == S_IFCHR }
  predicate IsFifo(mode: Mode) { FormatBits(mode) == S_IFIFO }
  predicate IsReg(mode: Mode) { FormatBits(mode) == S_IFREG }
  predicate IsLnk(mode: Mode) { FormatBits(mode) == S_IFLNK }
  predicate IsSock(mode: Mode) { FormatBits(mode) == S_IFSOCK }
  predicate IsDir(mode: Mode) { FormatBits(mode) == S_IFDIR }

  /** `filetype`: the letter of a mode, or `None` where the program dies with "Unrecognized filetype". */
  function Filetype(mode: Mode): (r: Option<char>)
    ensures r.Some? ==> r.value in FiletypeLetters
    ensures r == Some('b') <==> IsBlk(mode)
    ensures r == Some('c') <==> IsChr(mode)
    ensures r == Some('p') <==> IsFifo(mode)
    ensures r == Some('f') <==> IsReg(mode)
    ensures r == Some('l') <==> IsLnk(mode)
    ensures r == Some('s') <==> IsSock(mode)
    ensures r == Some('d') <==> IsDir(mode)
  {
    if IsBlk(mode) then Some('b')
    else if IsChr(mode) then Some('c')
    else if IsFifo(mode) then Some('p')
    else if IsReg(mode) then Some('f')
    else if IsLnk(mode) then Some('l')
    else if IsSock(mode) then Some('s')
    else if IsDir(mode) then Some('d')
    else None
  }

  /**
   * The accepted type letters and the classified ones differ: `-type s` is
   * refused although sockets are classified 's', and `-type a` is accepted
   * although no mode is classified 'a'.
   */
  lemma ValidTypesDisagreeWithFiletype()
    ensures CheckFiletype("s") == Err(UnknownType('s')) && Filetype(S_IFSOCK) == Some('s')
    ensures CheckFiletype("a") == Ok('a') && forall mode :: Filetype(mode) != Some('a')
    ensures forall t :: t in FiletypeLetters && t != 's' ==> t in ValidTypes
  {
  }
}
