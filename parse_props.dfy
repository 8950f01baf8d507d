/**
 * What the parser of `pfind` accepts and how it reports what it rejects,
 * stated about `ParseSpec` (which `ParseArgs` computes).
 */
module ParseProps {
  import opened Wrappers
  import opened PfindUtils

  /** The tokens that give `-name`, if it was given. */
  function NameTokens(a: Args): seq<string> {
    if a.findme.Some? then ["-name", a.findme.value] else []
  }

  /** The tokens that give `-type`, if it was given. */
  function TypeTokens(a: Args): seq<string> {
    if a.ftype.Some? then ["-type", [a.ftype.value]] else []
  }

  /**
   * The invocations the usage line describes: the directory, then each of the
   * two flags at most once with its value, in either order.
   */
  predicate Accepts(av: seq<string>, a: Args) {
    && |av| >= 2
    && av[1] == a.dirname
    && TypeValidated(a)
    && (av[2..] == NameTokens(a) + TypeTokens(a) || av[2..] == TypeTokens(a) + NameTokens(a))
  }

  /** One `-name <pattern>` pair read from a configuration without a pattern. */
  lemma ScanNamePair(n: string, ys: seq<string>, a: Args)
    requires a.findme.None?
    ensures ScanFlags(["-name", n] + ys, a) == ScanFlags(ys, a.(findme := Some(n)))
  {
    var rest := ["-name", n] + ys;
    assert rest[0] == "-name" && rest[1] == n && rest[2..] == ys;
  }

  /** One `-type <letter>` pair read from a configuration without a type filter. */
  lemma ScanTypePair(t: char, ys: seq<string>, a: Args)
    requires a.ftype.None? && t in ValidTypes
    ensures ScanFlags(["-type", [t]] + ys, a) == ScanFlags(ys, a.(ftype := Some(t)))
  {
    var rest := ["-type", [t]] + ys;
    assert rest[0] == "-type" && rest[1] == [t] && rest[2..] == ys;
  }

  /** Every invocation of the usage line parses to the configuration it spells out. */
  lemma {:induction false} UsageParses(av: seq<string>, a: Args)
    requires Accepts(av, a)
    ensures ParseSpec(av) == Ok(a)
  {
    var init := InitialArgs(av[1]);
    var named := init.(findme := a.findme);
    var typed := init.(ftype := a.ftype);
    assert named.(ftype := a.ftype) == a && typed.(findme := a.findme) == a;
    if av[2..] == NameTokens(a) + TypeTokens(a) {
      if a.findme.Some? {
        ScanNamePair(a.findme.value, TypeTokens(a), init);
      }
      if a.ftype.Some? {
        ScanTypePair(a.ftype.value, [], named);
        assert TypeTokens(a) == TypeTokens(a) + [];
      }
      assert ScanFlags(av[2..], init) == Ok(a);
    } else {
      if a.ftype.Some? {
        ScanTypePair(a.ftype.value, NameTokens(a), init);
      }
      if a.findme.Some? {
        ScanNamePair(a.findme.value, [], typed);
        assert NameTokens(a) == NameTokens(a) + [];
      }
      assert ScanFlags(av[2..], init) == Ok(a);
    }
  }

  /** A successful parse reads exactly an invocation of the usage line. */
  lemma {:induction false} ParsedIsUsage(av: seq<string>, a: Args)
    requires ParseSpec(av) == Ok(a)
    ensures Accepts(av, a)
  {
    var init := InitialArgs(av[1]);
    var rest := av[2..];
    assert ScanFlags(rest, init) == Ok(a);
    if rest != [] {
      if rest[0] == "-name" {
        var b := init.(findme := Some(rest[1]));
        assert ScanFlags(rest[2..], b) == Ok(a);
        if rest[2..] != [] {
          var more := rest[2..];
          assert more[0] == "-type";
          var t := CheckFiletype(more[1]).value;
          assert more[1] == [t];
          assert ScanFlags(more[2..], b.(ftype := Some(t))) == Ok(a);
          assert more[2..] == [];
          assert rest == ["-name", rest[1], "-type", [t]];
        }
      } else {
        assert rest[0] == "-type";
        var t := CheckFiletype(rest[1]).value;
        assert rest[1] == [t];
        var b := init.(ftype := Some(t));
        assert ScanFlags(rest[2..], b) == Ok(a);
        if rest[2..] != [] {
          var more := rest[2..];
          assert more[0] == "-name";
          assert ScanFlags(more[2..], b.(findme := Some(more[1]))) == Ok(a);
          assert more[2..] == [];
          assert rest == ["-type", [t], "-name", more[1]];
        }
      }
    }
  }

  /** Parsing succeeds exactly on the invocations the usage line describes. */
  lemma ParseSucceedsExactlyOnUsage(av: seq<string>, a: Args)
    ensures ParseSpec(av) == Ok(a) <==> Accepts(av, a)
  {
    if ParseSpec(av) == Ok(a) {
      ParsedIsUsage(av, a);
    }
    if Accepts(av, a) {
      UsageParses(av, a);
    }
  }

  /** Whole flag pairs read successfully leave the scan in their resulting configuration. */
  lemma {:induction false} ScanFlagsAppend(xs: seq<string>, ys: seq<string>, a: Args, b: Args)
    requires ScanFlags(xs, a) == Ok(b)
    ensures ScanFlags(xs + ys, a) == ScanFlags(ys, b)
    decreases |xs|
  {
    if xs == [] {
      assert xs + ys == ys;
    } else {
      var zs := xs + ys;
      assert zs[0] == xs[0] && zs[1] == xs[1];
      assert zs[2..] == xs[2..] + ys;
      if xs[0] == "-name" {
        ScanFlagsAppend(xs[2..], ys, a.(findme := Some(xs[1])), b);
      } else {
        ScanFlagsAppend(xs[2..], ys, a.(ftype := Some(CheckFiletype(xs[1]).value)), b);
      }
    }
  }

  /** A parse that reads well-formed flags `xs` continues from their configuration `b`. */
  lemma ParseResumes(p: string, d: string, xs: seq<string>, b: Args, ys: seq<string>)
    requires ScanFlags(xs, InitialArgs(d)) == Ok(b)
    requires ScanFlags(ys, b).Err?
    ensures ParseSpec([p, d] + xs + ys) == Err(ScanFlags(ys, b).error)
  {
    var av := [p, d] + xs + ys;
    assert av[1] == d && av[2..] == xs + ys;
    ScanFlagsAppend(xs, ys, InitialArgs(d), b);
  }

  /**
   * A repeated `-name` or `-type` is reported as a repeat, even when it is the
   * last token and so also lacks its value.
   */
  lemma RepeatReportedBeforeMissingValue(p: string, d: string, xs: seq<string>, b: Args, flag: string, ys: seq<string>)
    requires ScanFlags(xs, InitialArgs(d)) == Ok(b)
    requires (flag == "-name" && b.findme.Some?) || (flag == "-type" && b.ftype.Some?)
    ensures ParseSpec([p, d] + xs + ([flag] + ys)) == Err(if flag == "-name" then NameTwice else TypeTwice)
  {
    ParseResumes(p, d, xs, b, [flag] + ys);
  }

  /** A first `-name` or `-type` that ends the tokens is reported as missing its value. */
  lemma MissingValueReported(p: string, d: string, xs: seq<string>, b: Args, flag: string)
    requires ScanFlags(xs, InitialArgs(d)) == Ok(b)
    requires (flag == "-name" && b.findme.None?) || (flag == "-type" && b.ftype.None?)
    ensures ParseSpec([p, d] + xs + [flag]) == Err(if flag == "-name" then MissingNameArg else MissingTypeArg)
  {
    ParseResumes(p, d, xs, b, [flag]);
  }

  /** A first `-type` whose value `validate_filetype` refuses is reported with that refusal. */
  lemma BadTypeValueReported(p: string, d: string, xs: seq<string>, b: Args, v: string, ys: seq<string>)
    requires ScanFlags(xs, InitialArgs(d)) == Ok(b)
    requires b.ftype.None? && CheckFiletype(v).Err?
    ensures ParseSpec([p, d] + xs + (["-type", v] + ys)) == Err(CheckFiletype(v).error)
  {
    ParseResumes(p, d, xs, b, ["-type", v] + ys);
  }

  /**
   * Where a flag is due, any token other than `-name` and `-type` is refused:
   * as an unknown predicate when it starts with '-', as a misplaced path otherwise.
   */
  lemma StrayTokenReported(p: string, d: string, xs: seq<string>, b: Args, t: string, ys: seq<string>)
    requires ScanFlags(xs, InitialArgs(d)) == Ok(b)
    requires t != "-name" && t != "-type"
    ensures ParseSpec([p, d] + xs + ([t] + ys)) == Err(if IsFlag(t) then UnknownPredicate(t) else PathsPrecede(t))
  {
    ParseResumes(p, d, xs, b, [t] + ys);
  }

  /** The scan of the flags never looks at the directory. */
  lemma {:induction false} ScanIgnoresDirname(rest: seq<string>, a: Args, d: string)
    ensures ScanFlags(rest, a.(dirname := d)).Err? == ScanFlags(rest, a).Err?
    ensures ScanFlags(rest, a).Err? ==> ScanFlags(rest, a.(dirname := d)) == ScanFlags(rest, a)
    ensures ScanFlags(rest, a).Ok? ==> ScanFlags(rest, a.(dirname := d)) == Ok(ScanFlags(rest, a).value.(dirname := d))
    decreases |rest|
  {
    if rest != [] && |rest| >= 2 {
      if rest[0] == "-name" && a.findme.None? {
        ScanIgnoresDirname(rest[2..], a.(findme := Some(rest[1])), d);
        assert a.(dirname := d).(findme := Some(rest[1])) == a.(findme := Some(rest[1])).(dirname := d);
      } else if rest[0] == "-type" && a.ftype.None? && CheckFiletype(rest[1]).Ok? {
        var t := CheckFiletype(rest[1]).value;
        ScanIgnoresDirname(rest[2..], a.(ftype := Some(t)), d);
        assert a.(dirname := d).(ftype := Some(t)) == a.(ftype := Some(t)).(dirname := d);
      }
    }
  }

  /**
   * The token after the program name becomes the directory whatever it
   * holds, a leading '-' included: replacing it changes nothing else.
   */
  lemma DirnameNeverInspected(p: string, d: string, d': string, rest: seq<string>)
    ensures ParseSpec([p, d] + rest).Err? == ParseSpec([p, d'] + rest).Err?
    ensures ParseSpec([p, d] + rest).Err? ==> ParseSpec([p, d'] + rest) == ParseSpec([p, d] + rest)
    ensures ParseSpec([p, d] + rest).Ok? ==>
      ParseSpec([p, d'] + rest) == Ok(ParseSpec([p, d] + rest).value.(dirname := d'))
  {
    var av, av' := [p, d] + rest, [p, d'] + rest;
    assert av[1] == d && av'[1] == d' && av[2..] == rest == av'[2..];
    ScanIgnoresDirname(rest, InitialArgs(d), d');
    assert InitialArgs(d).(dirname := d') == InitialArgs(d');
  }

  /** The literal example: a directory named like a flag is taken as the directory. */
  lemma DashedDirname()
    ensures ParseSpec(["pfind", "-name"]) == Ok(Args("-name", None, None))
    ensures ParseSpec(["pfind", "-type", "-name", "x"]) == Ok(Args("-type", Some("x"), None))
  {
    ScanNamePair("x", [], InitialArgs("-type"));
    var av := ["pfind", "-type", "-name", "x"];
    assert av[2..] == ["-name", "x"] + [];
  }

  /**
   * Each `char` of a token is one byte of the C string: the UTF-8 encoding of
   * an accented letter is two bytes, so as a `-type` value it is too long.
   */
  lemma MultibyteTypeValue(d: string)
    ensures ParseSpec(["pfind", d, "-type", "\U{C3}\U{A9}"]) == Err(TypeTooLong)
  {
    var av := ["pfind", d, "-type", "\U{C3}\U{A9}"];
    assert av[2..] == ["-type", "\U{C3}\U{A9}"];
  }
}
