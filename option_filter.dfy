/**
 * Xwayback's option table and the filter that decides which of the user's
 * arguments reach Xwayland. The filter and its lookup are defined for any
 * table `opts`; `OPTS` is the table Xwayback uses.
 */
module OptionFilter {

  /** `struct optcmd`, without the help text. */
  datatype OptCmd = OptCmd(name: string, reqOperand: bool, ignore: bool)

  /** U+2010 HYPHEN, which three table entries use in place of '-'. */
  const HYPHEN: char := '\U{2010}'

  /** The options Xwayback acts on itself. */
  const HANDLED_OPTS: seq<OptCmd> := [
    OptCmd("-help", false, false),
    OptCmd("-showconfig", false, false),
    OptCmd("-version", false, false)
  ]

  /** Xwayland options that are accepted and not forwarded. */
  const IGNORED_OPTS: seq<OptCmd> := [
    OptCmd("-decorate", false, true),
    OptCmd("-enable\U{2010}ei\U{2010}portal", false, true),
    OptCmd("-fullscreen", false, true),
    OptCmd("-geometry", true, true),
    OptCmd("-glamor", true, true),
    OptCmd("-hidpi", false, true),
    OptCmd("-host\U{2010}grab", false, true),
    OptCmd("-noTouchPointerEmulation", false, true),
    OptCmd("-force\U{2010}xrandr\U{2010}emulation", false, true),
    OptCmd("-nokeymap", false, true),
    OptCmd("-rootless", false, true),
    OptCmd("-shm", false, true),
    OptCmd("-wm", true, true)
  ]

  // The Xorg options that are accepted and not forwarded, in three parts of
  // eleven so that each literal stays small.

  /** Xorg options, `-allowMouseOpenFail` to `-fbbbp`. */
  const XORG_OPTS_1: seq<OptCmd> := [
    OptCmd("-allowMouseOpenFail", false, true),
    OptCmd("-allowNonLocalXvidtune", false, true),
    OptCmd("-bgamma", true, true),
    OptCmd("-bpp", true, true),
    OptCmd("-config", true, true),
    OptCmd("-configdir", true, true),
    OptCmd("-configure", true, true),
    OptCmd("-crt", true, true),
    OptCmd("-depth", true, true),
    OptCmd("-disableVidMode", false, true),
    OptCmd("-fbbbp", true, true)
  ]

  /** Xorg options, `-gamma` to `-nosilk`. */
  const XORG_OPTS_2: seq<OptCmd> := [
    OptCmd("-gamma", true, true),
    OptCmd("-ggamma", true, true),
    OptCmd("-ignoreABI", false, true),
    OptCmd("-isolateDevice", true, true),
    OptCmd("-keeptty", false, true),
    OptCmd("-keyboard", true, true),
    OptCmd("-layout", true, true),
    OptCmd("-logverbose", true, true),
    OptCmd("-modulepath", true, true),
    OptCmd("-noautoBindCPU", false, true),
    OptCmd("-nosilk", false, true)
  ]

  /** Xorg options, `-novtswitch` to `-verbose`. */
  const XORG_OPTS_3: seq<OptCmd> := [
    OptCmd("-novtswitch", false, true),
    OptCmd("-pointer", true, true),
    OptCmd("-quiet", false, true),
    OptCmd("-rgamma", true, true),
    OptCmd("-sharevts", false, true),
    OptCmd("-screen", true, true),
    OptCmd("-showDefaultModulePath", false, true),
    OptCmd("-showDefaultLibPath", false, true),
    OptCmd("-showopts", false, true),
    OptCmd("-weight", true, true),
    OptCmd("-verbose", true, true)
  ]

  /** The option table `opts`, in order. */
  const OPTS: seq<OptCmd> := HANDLED_OPTS + IGNORED_OPTS + XORG_OPTS_1 + XORG_OPTS_2 + XORG_OPTS_3

  /** Index of the first entry of `opts` at or after `from` named `t`, or `|opts|`. */
  function FindOptFrom(opts: seq<OptCmd>, t: string, from: nat): (j: nat)
    requires from <= |opts|
    ensures from <= j <= |opts|
    decreases |opts| - from
  {
    if from == |opts| then from
    else if opts[from].name == t then from
    else FindOptFrom(opts, t, from + 1)
  }

  /** The lookup of the builder's inner loop: the first entry named `t`, or `|opts|`. */
  function FindOpt(opts: seq<OptCmd>, t: string): (j: nat)
    ensures j <= |opts|
  {
    FindOptFrom(opts, t, 0)
  }

  lemma {:induction false} FindOptFromIsFirstMatch(opts: seq<OptCmd>, t: string, from: nat)
    requires from <= |opts|
    ensures FindOptFrom(opts, t, from) < |opts| ==> opts[FindOptFrom(opts, t, from)].name == t
    ensures forall k :: from <= k < FindOptFrom(opts, t, from) ==> opts[k].name != t
    decreases |opts| - from
  {
    if from < |opts| && opts[from].name != t {
      FindOptFromIsFirstMatch(opts, t, from + 1);
    }
  }

  /**
   * The lookup finds the first entry with the name, and reports `|opts|`
   * exactly when no entry has it.
   */
  lemma FindOptIsFirstMatch(opts: seq<OptCmd>, t: string)
    ensures FindOpt(opts, t) < |opts| ==> opts[FindOpt(opts, t)].name == t
    ensures forall k :: 0 <= k < FindOpt(opts, t) ==> opts[k].name != t
    ensures FindOpt(opts, t) < |opts| <==> exists k :: 0 <= k < |opts| && opts[k].name == t
  {
    FindOptFromIsFirstMatch(opts, t, 0);
  }

  /** The first-match description pins the lookup down. */
  lemma FirstMatchIsFindOpt(opts: seq<OptCmd>, t: string, j: nat)
    requires j <= |opts| && (j < |opts| ==> opts[j].name == t)
    requires forall k :: 0 <= k < j ==> opts[k].name != t
    ensures j == FindOpt(opts, t)
  {
    FindOptIsFirstMatch(opts, t);
  }

  /** The builder's inner loop: a linear scan of `opts` for `t`. */
  method FindOption(opts: seq<OptCmd>, t: string) returns (j: nat)
    ensures j == FindOpt(opts, t)
  {
    j := 0;
    while j < |opts|
      invariant j <= |opts|
      invariant forall k :: 0 <= k < j ==> opts[k].name != t
    {
      if opts[j].name == t {
        break;
      }
      j := j + 1;
    }
    FirstMatchIsFindOpt(opts, t, j);
  }

  predicate Recognised(opts: seq<OptCmd>, t: string) {
    FindOpt(opts, t) < |opts|
  }

  /**
   * The user arguments that reach Xwayland, in order: a recognised flag is
   * dropped, and so is the token after it when the flag takes an operand and
   * a token follows.
   */
  function Forward(opts: seq<OptCmd>, args: seq<string>): (r: seq<string>)
    ensures |r| <= |args|
    decreases |args|
  {
    if args == [] then []
    else
      var j := FindOpt(opts, args[0]);
      if j == |opts| then [args[0]] + Forward(opts, args[1..])
      else if opts[j].reqOperand && |args| > 1 then Forward(opts, args[2..])
      else Forward(opts, args[1..])
  }

  /** No forwarded token is an entry of the table. */
  lemma {:induction false} ForwardedAreUnrecognised(opts: seq<OptCmd>, args: seq<string>)
    ensures forall k :: 0 <= k < |Forward(opts, args)| ==> !Recognised(opts, Forward(opts, args)[k])
    decreases |args|
  {
    if args != [] {
      var j := FindOpt(opts, args[0]);
      if j == |opts| {
        ForwardedAreUnrecognised(opts, args[1..]);
        var r := Forward(opts, args);
        assert r == [args[0]] + Forward(opts, args[1..]);
        forall k | 1 <= k < |r| ensures !Recognised(opts, r[k]) {
          assert r[k] == Forward(opts, args[1..])[k - 1];
        }
      } else if opts[j].reqOperand && |args| > 1 {
        ForwardedAreUnrecognised(opts, args[2..]);
      } else {
        ForwardedAreUnrecognised(opts, args[1..]);
      }
    }
  }

  /** `a` is `b` with some elements left out. */
  predicate IsSubsequence(a: seq<string>, b: seq<string>)
    decreases |b|
  {
    a == [] || (b != [] && ((a[0] == b[0] && IsSubsequence(a[1..], b[1..])) || IsSubsequence(a, b[1..])))
  }

  lemma {:induction false} DropOneKeepsSubsequence(a: seq<string>, b: seq<string>)
    requires b != [] && IsSubsequence(a, b[1..])
    ensures IsSubsequence(a, b)
  {
  }

  /** Forwarded tokens keep their original relative order. */
  lemma {:induction false} ForwardIsSubsequence(opts: seq<OptCmd>, args: seq<string>)
    ensures IsSubsequence(Forward(opts, args), args)
    decreases |args|
  {
    if args != [] {
      var r := Forward(opts, args);
      var j := FindOpt(opts, args[0]);
      if j == |opts| {
        ForwardIsSubsequence(opts, args[1..]);
        assert r[0] == args[0] && r[1..] == Forward(opts, args[1..]);
      } else if opts[j].reqOperand && |args| > 1 {
        ForwardIsSubsequence(opts, args[2..]);
        DropOneKeepsSubsequence(r, args[1..]);
      } else {
        ForwardIsSubsequence(opts, args[1..]);
        DropOneKeepsSubsequence(r, args);
      }
    }
  }

  /** A list with a recognised token loses at least that token. */
  lemma {:induction false} RecognisedIsDropped(opts: seq<OptCmd>, args: seq<string>, k: nat)
    requires k < |args| && Recognised(opts, args[k])
    ensures |Forward(opts, args)| < |args|
    decreases |args|
  {
    var j := FindOpt(opts, args[0]);
    if k > 0 && j == |opts| {
      assert args[1..][k - 1] == args[k];
      RecognisedIsDropped(opts, args[1..], k - 1);
    }
  }

  /** Without recognised tokens, the filter is the identity. */
  lemma {:induction false} UnrecognisedAreKept(opts: seq<OptCmd>, args: seq<string>)
    requires forall k :: 0 <= k < |args| ==> !Recognised(opts, args[k])
    ensures Forward(opts, args) == args
    decreases |args|
  {
    if args != [] {
      assert !Recognised(opts, args[0]);
      forall k | 0 <= k < |args| - 1 ensures !Recognised(opts, args[1..][k]) {
        assert args[1..][k] == args[k + 1];
      }
      UnrecognisedAreKept(opts, args[1..]);
    }
  }

  /** Every user argument is forwarded exactly when none of them is a table entry. */
  lemma ForwardKeepsAllIff(opts: seq<OptCmd>, args: seq<string>)
    ensures |Forward(opts, args)| == |args| <==> forall k :: 0 <= k < |args| ==> !Recognised(opts, args[k])
  {
    if forall k :: 0 <= k < |args| ==> !Recognised(opts, args[k]) {
      UnrecognisedAreKept(opts, args);
    } else {
      var k :| 0 <= k < |args| && Recognised(opts, args[k]);
      RecognisedIsDropped(opts, args, k);
    }
  }

  /** `argv[i..]`, empty once `i` is past the end. */
  function Suffix(argv: seq<string>, i: nat): (r: seq<string>)
    ensures |r| == if i <= |argv| then |argv| - i else 0
  {
    if i <= |argv| then argv[i..] else []
  }

  /** One step of the filter, at argument `i` of `argv`. */
  lemma ForwardStep(opts: seq<OptCmd>, argv: seq<string>, i: nat)
    requires i < |argv|
    ensures var j := FindOpt(opts, argv[i]);
            && (j == |opts| ==> Forward(opts, Suffix(argv, i)) == [argv[i]] + Forward(opts, Suffix(argv, i + 1)))
            && (j < |opts| && opts[j].reqOperand && i + 1 < |argv| ==>
                  Forward(opts, Suffix(argv, i)) == Forward(opts, Suffix(argv, i + 2)))
            && (j < |opts| && !(opts[j].reqOperand && i + 1 < |argv|) ==>
                  Forward(opts, Suffix(argv, i)) == Forward(opts, Suffix(argv, i + 1)))
  {
    var rest := argv[i..];
    assert rest[0] == argv[i] && rest[1..] == argv[i + 1..];
    if i + 1 < |argv| {
      assert rest[2..] == argv[i + 2..];
    }
  }

  /** A search that starts past a prefix `a` is a search of what follows it. */
  lemma {:induction false} FindOptFromShift(a: seq<OptCmd>, b: seq<OptCmd>, t: string, m: nat)
    requires m <= |b|
    ensures FindOptFrom(a + b, t, |a| + m) == |a| + FindOptFrom(b, t, m)
    decreases |b| - m
  {
    if m < |b| {
      assert (a + b)[|a| + m] == b[m];
      if b[m].name != t {
        FindOptFromShift(a, b, t, m + 1);
      }
    }
  }

  /** A search of `a` that fails continues into `b`. */
  lemma {:induction false} FindOptFromConcat(a: seq<OptCmd>, b: seq<OptCmd>, t: string, from: nat)
    requires from <= |a|
    ensures FindOptFrom(a + b, t, from) ==
            if FindOptFrom(a, t, from) < |a| then FindOptFrom(a, t, from) else |a| + FindOpt(b, t)
    decreases |a| - from
  {
    if from == |a| {
      FindOptFromShift(a, b, t, 0);
    } else {
      assert (a + b)[from] == a[from];
      if a[from].name != t {
        FindOptFromConcat(a, b, t, from + 1);
      }
    }
  }

  /** Looking a name up in two tables laid end to end. */
  lemma FindOptConcat(a: seq<OptCmd>, b: seq<OptCmd>, t: string)
    ensures FindOpt(a + b, t) == if FindOpt(a, t) < |a| then FindOpt(a, t) else |a| + FindOpt(b, t)
  {
    FindOptFromConcat(a, b, t, 0);
  }

  /** `OPTS` is searched part by part. */
  lemma FindOptByParts(t: string)
    ensures var h, i, x1, x2, x3 :=
              FindOpt(HANDLED_OPTS, t), FindOpt(IGNORED_OPTS, t),
              FindOpt(XORG_OPTS_1, t), FindOpt(XORG_OPTS_2, t), FindOpt(XORG_OPTS_3, t);
            FindOpt(OPTS, t) ==
              if h < 3 then h
              else if i < 13 then 3 + i
              else if x1 < 11 then 16 + x1
              else if x2 < 11 then 27 + x2
              else 38 + x3
  {
    FindOptConcat(HANDLED_OPTS, IGNORED_OPTS, t);
    FindOptConcat(HANDLED_OPTS + IGNORED_OPTS, XORG_OPTS_1, t);
    FindOptConcat(HANDLED_OPTS + IGNORED_OPTS + XORG_OPTS_1, XORG_OPTS_2, t);
    FindOptConcat(HANDLED_OPTS + IGNORED_OPTS + XORG_OPTS_1 + XORG_OPTS_2, XORG_OPTS_3, t);
  }

  /** Every entry's name starts with '-'. */
  predicate Dashed(opts: seq<OptCmd>) {
    forall k :: 0 <= k < |opts| ==> |opts[k].name| > 0 && opts[k].name[0] == '-'
  }

  lemma DashedConcat(a: seq<OptCmd>, b: seq<OptCmd>)
    requires Dashed(a) && Dashed(b)
    ensures Dashed(a + b)
  {
    forall k | 0 <= k < |a + b| ensures |(a + b)[k].name| > 0 && (a + b)[k].name[0] == '-' {
      if k >= |a| {
        assert (a + b)[k] == b[k - |a|];
      }
    }
  }

  lemma FirstPartsAreDashed()
    ensures Dashed(HANDLED_OPTS) && Dashed(IGNORED_OPTS)
  {
  }

  lemma XorgPart1IsDashed()
    ensures Dashed(XORG_OPTS_1)
  {
  }

  lemma XorgPart2IsDashed()
    ensures Dashed(XORG_OPTS_2)
  {
  }

  lemma XorgPart3IsDashed()
    ensures Dashed(XORG_OPTS_3)
  {
  }

  lemma OptsAreDashed()
    ensures Dashed(OPTS)
  {
    FirstPartsAreDashed();
    XorgPart1IsDashed();
    XorgPart2IsDashed();
    XorgPart3IsDashed();
    DashedConcat(HANDLED_OPTS, IGNORED_OPTS);
    DashedConcat(HANDLED_OPTS + IGNORED_OPTS, XORG_OPTS_1);
    DashedConcat(HANDLED_OPTS + IGNORED_OPTS + XORG_OPTS_1, XORG_OPTS_2);
    DashedConcat(HANDLED_OPTS + IGNORED_OPTS + XORG_OPTS_1 + XORG_OPTS_2, XORG_OPTS_3);
  }

  /** A token that does not start with '-', such as a display name `:1`, is never a table entry. */
  lemma UndashedIsNotRecognised(t: string)
    requires |t| == 0 || t[0] != '-'
    ensures !Recognised(OPTS, t)
  {
    OptsAreDashed();
    FindOptIsFirstMatch(OPTS, t);
  }

  lemma RootlessInIgnoredPart()
    ensures FindOpt(HANDLED_OPTS, "-rootless") == 3 && FindOpt(IGNORED_OPTS, "-rootless") == 10
  {
    FirstMatchIsFindOpt(HANDLED_OPTS, "-rootless", 3);
    FirstMatchIsFindOpt(IGNORED_OPTS, "-rootless", 10);
  }

  lemma RootlessIsEntry13()
    ensures FindOpt(OPTS, "-rootless") == 13 && !OPTS[13].reqOperand
  {
    RootlessInIgnoredPart();
    FindOptByParts("-rootless");
  }

  lemma WmInIgnoredPart()
    ensures FindOpt(HANDLED_OPTS, "-wm") == 3 && FindOpt(IGNORED_OPTS, "-wm") == 12
  {
    FirstMatchIsFindOpt(HANDLED_OPTS, "-wm", 3);
    FirstMatchIsFindOpt(IGNORED_OPTS, "-wm", 12);
  }

  lemma WmIsEntry15()
    ensures FindOpt(OPTS, "-wm") == 15 && OPTS[15].reqOperand
  {
    WmInIgnoredPart();
    FindOptByParts("-wm");
  }

  lemma DepthNotInFirstParts()
    ensures FindOpt(HANDLED_OPTS, "-depth") == 3 && FindOpt(IGNORED_OPTS, "-depth") == 13
  {
    FirstMatchIsFindOpt(HANDLED_OPTS, "-depth", 3);
    FirstMatchIsFindOpt(IGNORED_OPTS, "-depth", 13);
  }

  lemma DepthInFirstXorgPart()
    ensures FindOpt(XORG_OPTS_1, "-depth") == 8
  {
    FirstMatchIsFindOpt(XORG_OPTS_1, "-depth", 8);
  }

  lemma DepthIsEntry24()
    ensures FindOpt(OPTS, "-depth") == 24 && OPTS[24].reqOperand
  {
    DepthNotInFirstParts();
    DepthInFirstXorgPart();
    FindOptByParts("-depth");
  }

  /** The flags Xwayback passes Xwayland itself are dropped, with their operands. */
  lemma FixedFlagsAreDropped()
    ensures Forward(OPTS, ["-rootless", "-wm", "3"]) == []
  {
    RootlessIsEntry13();
    WmIsEntry15();
    assert ["-rootless", "-wm", "3"][1..] == ["-wm", "3"];
  }

  /** An Xorg option with an operand is dropped together with the operand. */
  lemma XorgOptionIsDropped()
    ensures Forward(OPTS, ["-depth", "24"]) == []
  {
    DepthIsEntry24();
  }

  lemma HyphenHostGrabIsEntry9()
    ensures FindOpt(OPTS, "-host" + [HYPHEN] + "grab") == 9 && !OPTS[9].reqOperand
  {
    FindOptByParts("-host" + [HYPHEN] + "grab");
  }

  lemma AsciiHostGrabNotInFirstParts()
    ensures FindOpt(HANDLED_OPTS, "-host-grab") == 3 && FindOpt(IGNORED_OPTS, "-host-grab") == 13
  {
    FirstMatchIsFindOpt(HANDLED_OPTS, "-host-grab", 3);
    FirstMatchIsFindOpt(IGNORED_OPTS, "-host-grab", 13);
  }

  lemma AsciiHostGrabNotInXorgPart1()
    ensures FindOpt(XORG_OPTS_1, "-host-grab") == 11
  {
    FirstMatchIsFindOpt(XORG_OPTS_1, "-host-grab", 11);
  }

  lemma AsciiHostGrabNotInXorgPart2()
    ensures FindOpt(XORG_OPTS_2, "-host-grab") == 11
  {
    FirstMatchIsFindOpt(XORG_OPTS_2, "-host-grab", 11);
  }

  lemma AsciiHostGrabNotInXorgPart3()
    ensures FindOpt(XORG_OPTS_3, "-host-grab") == 11
  {
    FirstMatchIsFindOpt(XORG_OPTS_3, "-host-grab", 11);
  }

  /**
   * `-host‐grab` is in the table with U+2010 in place of the second '-', so
   * that spelling is dropped while the ASCII one reaches Xwayland.
   */
  lemma AsciiHyphenPassesThrough()
    ensures Forward(OPTS, ["-host" + [HYPHEN] + "grab"]) == []
    ensures Forward(OPTS, ["-host-grab"]) == ["-host-grab"]
  {
    HyphenHostGrabIsEntry9();
    AsciiHostGrabNotInFirstParts();
    AsciiHostGrabNotInXorgPart1();
    AsciiHostGrabNotInXorgPart2();
    AsciiHostGrabNotInXorgPart3();
    FindOptByParts("-host-grab");
  }

}
