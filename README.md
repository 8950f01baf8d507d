# pfind, modelled in Dafny

`pfind` is a small `find(1)`: `pfind dirname [-name pattern] [-type letter]`.
It walks the tree below `dirname` in depth-first pre-order. It prints every
path whose basename matches the `-name` pattern (by `fnmatch`) and whose type
letter equals the `-type` filter. Either test is skipped when its flag is absent.

This project models the two core files:

- `pfind_utils.c`: the argument parser (`parse_args`, `extract_flags`,
  `validate_filetype`), the `-name` test (`match_exp`), mode classification
  (`filetype`), and `get_stat`'s abort.
- `pfind.c`: the walker (`searchdir`, `enumerate_dir_files`, `searchfile`)
  and `main`, which parses and then walks.

How the model represents the program:

- `die` and `exit(1)` never return, so here they are values. A parse failure
  is `Err(ParseError)`. A walk that stops the process ends in
  `Aborted(StatFailed(path))` or `Aborted(UnrecognizedFiletype)`.
- The filesystem is a finite tree (`Pfind.Entry`). `Unstatable` is a path
  where `lstat` fails. `Node(mode, listing)` is a path with its `st_mode`.
  For directories, the listing is `Unopenable` (`opendir` fails) or the
  `readdir` records in order.
- What the program prints is the `lines` sequence of a `Walk`.
- `fnmatch` is a function parameter, since the model does not reimplement it.
- Modes use the Linux encoding of the format bits (`S_IFDIR == 0x4000`, …).
- `basename` is the POSIX function, modelled in `Libgen`.

Files:

- `wrappers.dfy`: `Option` and `Result`.
- `libgen.dfy`: `basename`.
- `pfind_utils.dfy`: the parser, `match_exp` and `filetype`.
  - Two specification functions, `ScanFlags` and `ParseSpec`, say what parsing
    decides.
  - The methods `ParseArgs` and `ValidateFiletype` are the source's loops,
    each proved equal to its function.
- `parse_props.dfy`: what the parser accepts and how it reports each kind of
  bad input.
- `pfind.dfy`: the walker, the `readdir` loop `EnumerateDirFiles`, the exit
  status, and `Run`, which models `main`.
- `walk_props.dfy`: the walk split into two parts, proved equal to the
  walker: the pre-order enumeration of the reached entries (`Preorder`), and
  the per-entry work (`Replay`). On top of that:
  - which paths are printed;
  - that an `lstat` failure stops everything;
  - that only directories are expanded;
  - that every reached path lies below its parent's.

### Behaviour a `find` user may not expect

The model follows the code in each of these cases:

- The usage line offers `-type {f|d|b|c|p|l|s}`, but `VALID_TYPES` is
  `"fdbcpla"`. So `-type s` is refused even though `filetype` classifies
  sockets as `s`. And `-type a` is accepted even though no entry is ever
  classified `a`, so that run prints nothing
  (`PfindUtils.ValidTypesDisagreeWithFiletype`, and the second ensures of
  `Pfind.SearchDir`).
- The token after the program name always becomes the directory, even one
  that starts with `-`.
- `extract_flags` consumes exactly two tokens per flag or stops the process.
  So the "Must specify exactly one directory" test that follows it can never
  fire.
- An `lstat` failure on any reached path stops the whole run with status 1,
  not just the failing subtree.

## Model

| member | source | states |
|---|---|---|
| Libgen.StripTrailingSlashes | pfind.c:23 | the result is a prefix of the path, does not end in '/', and only slashes were removed |
| Libgen.LastComponent | pfind.c:23 | the result holds no '/', is a suffix of its argument, and is preceded there by a '/' when shorter |
| Libgen.Basename | pfind.c:23 | `basename` is never empty and holds a '/' only when it is "/" itself |
| Libgen.LastComponentOfJoin | pfind.c:69 | after `parent/name`, the last component is `name` when `name` holds no '/' |
| Libgen.BasenameOfJoin | pfind.c:65-69 | the basename of the child path `parent/name` is the listing name |
| PfindUtils.CheckFiletype | pfind_utils.c:94-116 | `-type` values are accepted exactly when they are one character from `VALID_TYPES`, and that character is returned; longer strings fail with "only one letter"; the empty string and other letters fail with "Unknown argument" naming the character looked at |
| PfindUtils.ValidateFiletype | pfind_utils.c:100-113 | the length test and the scan of `VALID_TYPES` decide what `CheckFiletype` decides |
| PfindUtils.ScanFlags | pfind_utils.c:71-89 | a successful flag scan keeps the directory, accounts for every token in flag pairs, never overwrites a set flag, leaves only validated type letters, and never fails with the two `parse_args` errors |
| PfindUtils.ParseSpec | pfind_utils.c:39-63 | parsing fails with "Starting directory must be specified" exactly when there are fewer than two tokens; on success the directory is `av[1]`, the token count is 2 plus two per flag, and the type letter is valid; the "exactly one directory" error never occurs |
| PfindUtils.InitialArgs | pfind_utils.c:41-68 | no contract of its own: the configuration with the directory `av[1]` and neither flag set, from which the flag scan starts |
| PfindUtils.Message | pfind_utils.c:48-113 | nothing proved: the text `die` formats for each parse failure |
| PfindUtils.PrintsUsage | pfind_utils.c:48-113 | nothing proved: whether `die` is called with `print_usage` set to YES for each parse failure |
| PfindUtils.IsFlag | pfind_utils.c:72 | no contract of its own: the test `arg[0] == '-'`; what follows from it is stated by `ParseProps.StrayTokenReported` |
| PfindUtils.ParseArgs | pfind_utils.c:39-90 | the pointer-walking loop of `parse_args`/`extract_flags` computes `ParseSpec` |
| PfindUtils.MatchExp | pfind_utils.c:30-35 | with no pattern every name matches; with a pattern a name is rejected exactly when `fnmatch` returns FNM_NOMATCH, so other `fnmatch` codes count as a match |
| PfindUtils.FormatBits | pfind_utils.c:130-136 | `mode & S_IFMT`: the result is a multiple of 0x1000 no greater than `S_IFMT` and agrees with `mode` on bits 12 to 15, so it is exactly the four format bits |
| PfindUtils.IsBlk | pfind_utils.c:130 | no contract of its own: `S_ISBLK`, the format bits equal `S_IFBLK` |
| PfindUtils.IsChr | pfind_utils.c:131 | no contract of its own: `S_ISCHR`, the format bits equal `S_IFCHR` |
| PfindUtils.IsFifo | pfind_utils.c:132 | no contract of its own: `S_ISFIFO`, the format bits equal `S_IFIFO` |
| PfindUtils.IsReg | pfind_utils.c:133 | no contract of its own: `S_ISREG`, the format bits equal `S_IFREG` |
| PfindUtils.IsLnk | pfind_utils.c:134 | no contract of its own: `S_ISLNK`, the format bits equal `S_IFLNK` |
| PfindUtils.IsSock | pfind_utils.c:135 | no contract of its own: `S_ISSOCK`, the format bits equal `S_IFSOCK` |
| PfindUtils.IsDir | pfind_utils.c:136 | no contract of its own: `S_ISDIR`, the format bits equal `S_IFDIR` |
| PfindUtils.Filetype | pfind_utils.c:129-139 | the letter is one of `b,c,p,f,l,s,d`, and each letter is returned exactly when its `S_IS*` test holds; any other mode is "Unrecognized filetype" |
| PfindUtils.ValidTypesDisagreeWithFiletype | pfind_utils.c:20-22 | `-type s` is refused though sockets are classified 's'; `-type a` is accepted though no mode is classified 'a'; every other classified letter is accepted |
| ParseProps.ScanNamePair | pfind_utils.c:73-78 | a first `-name` takes the next token as the pattern and the scan goes on after it |
| ParseProps.ScanTypePair | pfind_utils.c:79-84 | a first `-type` with a valid letter sets the filter and the scan goes on after it |
| ParseProps.UsageParses | pfind_utils.c:39-90 | every invocation the usage line describes (directory, then each flag at most once, either order) parses to the configuration it spells out |
| ParseProps.ParsedIsUsage | pfind_utils.c:39-90 | every successful parse read exactly such an invocation |
| ParseProps.ParseSucceedsExactlyOnUsage | pfind_utils.c:39-90 | parsing succeeds with configuration `a` if and only if the tokens are a usage-line invocation of `a` |
| ParseProps.ScanFlagsAppend | pfind_utils.c:71-89 | tokens after a well-formed flag stretch are scanned from the configuration that stretch produced |
| ParseProps.ParseResumes | pfind_utils.c:51-89 | a parse whose later tokens fail after well-formed flags reports that failure |
| ParseProps.RepeatReportedBeforeMissingValue | pfind_utils.c:74-83 | a repeated `-name` or `-type` is reported as a repeat, even as the last token lacking its value |
| ParseProps.MissingValueReported | pfind_utils.c:76-83 | a first `-name` or `-type` that ends the tokens is reported as missing its argument |
| ParseProps.BadTypeValueReported | pfind_utils.c:79-84 | a refused `-type` value stops the parse with `validate_filetype`'s error |
| ParseProps.StrayTokenReported | pfind_utils.c:72-88 | any other token where a flag is due fails: "unknown predicate" when it starts with '-', "paths must precede expression" otherwise |
| ParseProps.ScanIgnoresDirname | pfind_utils.c:71-89 | the flag scan's outcome does not depend on the directory |
| ParseProps.DirnameNeverInspected | pfind_utils.c:68 | the token after the program name is taken as the directory whatever it holds; replacing it changes nothing else |
| ParseProps.MultibyteTypeValue | pfind_utils.c:101-102 | a `-type` value of two bytes, such as the UTF-8 encoding of `é`, fails with "should contain only one letter" |
| ParseProps.DashedDirname | pfind_utils.c:68 | `pfind -name` searches a directory called `-name`; `pfind -type -name x` searches `-type` for `x` |
| Pfind.Selected | pfind.c:29-32 | no contract of its own: the print decision `expmatch && typematch`; what it selects over a whole tree is stated by `WalkProps.SoundTreePrintsSelected` and `WalkProps.NonDirectoryChild` |
| Pfind.ChildArgs | pfind.c:64-73 | a child's configuration keeps `findme` and `type`; its path is the parent, '/', then the name, one character shorter than the `fn_len` buffer |
| Pfind.ChildBasename | pfind.c:65-73 | a child with a single-component name is tested under that name |
| Pfind.SearchDir | pfind.c:20-38 | every printed line is the path itself or a path below it; a `-type a` filter prints nothing |
| Pfind.EnumerateDir | pfind.c:41-54 | every line printed while listing a directory is below it |
| Pfind.SearchFile | pfind.c:56-80 | every line printed for a child is below the parent |
| Pfind.EnumerateDirFiles | pfind.c:50-51 | the `readdir` loop, stopping at the first child whose visit ends the process, computes `EnumerateDir` |
| Pfind.ExitStatus | pfind.c:17 | the status is 0 exactly when parsing succeeded and the walk ran to its end, and 1 otherwise |
| Pfind.Run | pfind.c:13-18 | `main` reports a usage error exactly when parsing fails, with that error; otherwise it walks from the parsed configuration; a starting path that cannot be stat'ed prints nothing and exits 1 |
| WalkProps.Preorder | pfind.c:32-37 | the enumeration of reached entries starts with the entry itself |
| WalkProps.ReplayAppend | pfind.c:50-51 | the per-entry work over two stretches of visits runs the second only if the first did not stop the process |
| WalkProps.SearchDirIsReplay | pfind.c:20-38 | `searchdir` is exactly the per-entry work (test, print, or stop) applied to the pre-order enumeration of the reached entries |
| WalkProps.EnumerateDirIsReplay | pfind.c:41-54 | `enumerate_dir_files` is that work over its children's subtrees in listing order |
| WalkProps.SearchFileIsReplay | pfind.c:56-80 | `searchfile` is that work over one child's subtree, and nothing for `.` and `..` |
| WalkProps.SoundReplayPrintsSelected | pfind.c:28-33 | when every visit can be stat'ed and classified, the run completes and prints exactly the paths whose basename and type pass both tests |
| WalkProps.UnfilteredReplayPrintsAll | pfind.c:28-33 | without filters every such visit is printed once, in order |
| WalkProps.FirstFaultStops | pfind.c:26-28 | the first visit that cannot be stat'ed or classified stops the run; earlier lines stay and no later visit is looked at |
| WalkProps.SoundTreePrintsSelected | pfind.c:28-37 | over a sound tree, a run prints exactly the reached paths passing both tests, and completes |
| WalkProps.UnfilteredRunPrintsEverything | pfind.c:28-37 | without `-name` and `-type`, a sound tree prints every reached path once, in pre-order |
| WalkProps.StatFailureEndsRun | pfind.c:26 | an `lstat` failure on any reached path, root or descendant, ends the run with status 1 after only what came before it |
| WalkProps.UnopenableDirectory | pfind.c:32-36 | a directory `opendir` refuses is still tested and printed, has nothing below it, and the walk goes on |
| WalkProps.OnlyDirectoriesExpand | pfind.c:35-37 | an entry that is not a directory has no visits below it |
| WalkProps.PreorderListAppend | pfind.c:50-51 | siblings' subtrees follow one another in listing order |
| WalkProps.ListingBelow | pfind.c:56-76 | every visit below a directory's children is reached by a path under the directory |
| WalkProps.EntryBelow | pfind.c:32-37 | after an entry's own visit come only paths below it: pre-order |
| WalkProps.ListingBasenames | pfind.c:56-69 | with well-formed listing names, no visit below the start is tested under the basename `.` or `..` |
| WalkProps.NonDirectoryChild | pfind.c:56-76 | a listed non-directory is printed, as `parent/name`, exactly when its listing name and type pass both tests, and the walk goes on |

## Left out

- Message formatting by `die` and `pfind_perror` (a `vsprintf` into a 512-byte buffer, pfind_utils.c:151-174), the usage line, and the stdout/stderr split. A failure is an error tag. `PfindUtils.Message` and `PfindUtils.PrintsUsage` record each tag's text and whether the usage line follows, but nothing is proved about them. A message longer than 512 bytes would overflow the buffer (pfind_utils.c:152, 168), and the program's behaviour is then undefined; this is not modelled. One trigger is a long token in the `unknown predicate` or `paths must precede expression` messages. Another is `pfind_perror` reporting a path longer than about 500 bytes after an `opendir` failure (pfind.c:46) or an `lstat` failure (pfind_utils.c:122), which a deep tree reaches. For such paths `WalkProps.UnopenableDirectory` and `WalkProps.StatFailureEndsRun` describe an orderly outcome the program does not guarantee.
- `print_args` (pfind_utils.c:177-180): a debugging printer that is never called.
- Real `lstat`, `opendir`, `readdir` and `printf`. The filesystem is a tree given to the walk, and output is a sequence of lines.
- The directory-handle lifecycle. `closedir` at pfind.c:53 runs only when `dirent != NULL`, after a loop that exits only when `dirent == NULL`, so it never runs. The handles leak; the model has no handles.
- `malloc` failure and `free` (pfind.c:66-67, 79): paths are plain string concatenation.
- The internals of `fnmatch`: it is a parameter. FNM_NOMATCH is glibc's value, 1.
- The platform's `S_IFMT` encoding: the Linux values are assumed.
- Cycles and hard-linked directories: a finite tree cannot hold them.
- Libgen.Basename: computes the POSIX result only. glibc's `basename` from <libgen.h> may instead remove trailing slashes from its argument in place, which would change the path that is then stat'ed and printed for a starting directory such as `dir/`.
- C strings: every token, pattern and name stands for a C byte string, one Dafny `char` per byte, holding no NUL byte. So `strlen` is the sequence length and `strcmp` is sequence equality. A non-ASCII character must be written as its bytes: under UTF-8, `-type é` is the two-byte value `"\U{C3}\U{A9}"`, which the model refuses, as the source does, as too long.
- PfindUtils.CheckFiletype: counts characters, not bytes, so it agrees with `validate_filetype` only under the one-`char`-per-byte reading above; given the single Unicode character `é` it reports `UnknownType('é')` where the program, seeing two bytes, reports that the argument should contain only one letter.
- `argc` is the length of the token sequence, and the NULL terminator of `argv` is not modelled.
