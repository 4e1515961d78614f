/**
 * What Xwayback hands to Xwayland: the argument vector built from a fixed
 * prefix and the user's arguments filtered through the option table, the
 * `"%dx%d"` geometry text of the selected output, and the compositor's
 * argument vector of descriptor numbers. A `NULL` entry of a C argument
 * vector is `None`.
 */
module XwaylandArgs {

  import opened Wrappers
  import opened CInts
  import opened Outputs
  import opened OptionFilter

  /** The user arguments `argv[1..argc]`. */
  function UserArgs(argv: seq<string>): seq<string>
  {
    if argv == [] then [] else argv[1..]
  }

  /** `xwayback_args`: the fixed flags placed after the executable path. */
  function XwaybackArgs(wmFd: string): (r: seq<string>)
    ensures |r| == 5
  {
    ["-rootless", "-terminate", "3", "-wm", wmFd]
  }

  /** Strings as non-`NULL` entries of a C argument vector. */
  function Strings(s: seq<string>): (r: seq<Option<string>>)
    ensures |r| == |s| && forall i :: 0 <= i < |s| ==> r[i] == Some(s[i])
  {
    if s == [] then [] else [Some(s[0])] + Strings(s[1..])
  }

  lemma StringsAppend(a: seq<string>, b: seq<string>)
    ensures Strings(a + b) == Strings(a) + Strings(b)
  {
  }

  /**
   * The argument vector Xwayland is started with, terminator included, when
   * the user's arguments are filtered through `opts`.
   */
  function XwaylandArgv(opts: seq<OptCmd>, xwaylandPath: string, wmFd: string, argv: seq<string>): (r: seq<Option<string>>)
    ensures |r| == 7 + |Forward(opts, UserArgs(argv))|
    ensures r[0] == Some(xwaylandPath) && r[|r| - 1] == None
    ensures r[1..6] == Strings(XwaybackArgs(wmFd))
    ensures r[6..|r| - 1] == Strings(Forward(opts, UserArgs(argv)))
  {
    [Some(xwaylandPath)] + Strings(XwaybackArgs(wmFd)) + Strings(Forward(opts, UserArgs(argv))) + [None]
  }

  /** The length the source declares for `arguments`: `argc - optind + ARRAY_SIZE(xwayback_args) + 1`. */
  function DeclaredLength(argc: nat, optind: int): (n: int)
    ensures optind >= 1 ==> n < argc + 6
  {
    argc - optind + 6
  }

  /**
   * The declared length is too short exactly when the filter keeps at least
   * `argc - optind` of the user's arguments: the executable path is not
   * counted in it.
   */
  lemma DeclaredLengthOverflow(opts: seq<OptCmd>, xwaylandPath: string, wmFd: string, argv: seq<string>, optind: int)
    requires argv != []
    ensures |XwaylandArgv(opts, xwaylandPath, wmFd, argv)| > DeclaredLength(|argv|, optind)
            <==> |Forward(opts, argv[1..])| >= |argv| - optind
  {
  }

  /**
   * With `optind == 1`, the entries written overrun the declared array
   * exactly when no user argument is in the option table, and by one entry.
   */
  lemma {:induction false} OverflowWhenNothingDropped(opts: seq<OptCmd>, xwaylandPath: string, wmFd: string, argv: seq<string>)
    requires argv != []
    ensures |XwaylandArgv(opts, xwaylandPath, wmFd, argv)| > DeclaredLength(|argv|, 1)
            <==> forall k :: 1 <= k < |argv| ==> !Recognised(opts, argv[k])
    ensures |XwaylandArgv(opts, xwaylandPath, wmFd, argv)| <= DeclaredLength(|argv|, 1) + 1
  {
    ForwardKeepsAllIff(opts, argv[1..]);
    if forall k :: 0 <= k < |argv| - 1 ==> !Recognised(opts, argv[1..][k]) {
      forall k | 1 <= k < |argv| ensures !Recognised(opts, argv[k]) {
        assert argv[k] == argv[1..][k - 1];
      }
    }
    if forall k :: 1 <= k < |argv| ==> !Recognised(opts, argv[k]) {
      forall k | 0 <= k < |argv| - 1 ensures !Recognised(opts, argv[1..][k]) {
        assert argv[1..][k] == argv[k + 1];
      }
    }
  }

  /** The length `arguments` needs: path, fixed flags, every user argument, terminator. */
  function ArgumentsCapacity(argv: seq<string>): (n: nat)
    ensures forall opts, xwaylandPath, wmFd :: n >= |XwaylandArgv(opts, xwaylandPath, wmFd, argv)|
  {
    |UserArgs(argv)| + 7
  }

  /**
   * When no user argument starts with '-' (the usual `Xwayback :<display>`),
   * every one of them is forwarded: the entries written fill `ArgumentsCapacity`
   * exactly and overrun the declared length by one.
   */
  lemma UndashedArgumentsOverflow(xwaylandPath: string, wmFd: string, argv: seq<string>)
    requires argv != [] && forall k :: 1 <= k < |argv| ==> |argv[k]| == 0 || argv[k][0] != '-'
    ensures |XwaylandArgv(OPTS, xwaylandPath, wmFd, argv)| == ArgumentsCapacity(argv)
    ensures |XwaylandArgv(OPTS, xwaylandPath, wmFd, argv)| == DeclaredLength(|argv|, 1) + 1
  {
    forall k | 1 <= k < |argv| ensures !Recognised(OPTS, argv[k]) {
      UndashedIsNotRecognised(argv[k]);
    }
    OverflowWhenNothingDropped(OPTS, xwaylandPath, wmFd, argv);
  }

  /** `Xwayback :1` writes eight entries into an array declared with seven. */
  lemma DisplayArgumentOverflows(xwaylandPath: string, wmFd: string)
    ensures |XwaylandArgv(OPTS, xwaylandPath, wmFd, ["Xwayback", ":1"])| == 8
    ensures DeclaredLength(2, 1) == 7
  {
    UndashedArgumentsOverflow(xwaylandPath, wmFd, ["Xwayback", ":1"]);
  }

  /** The overrun of `Xwayback :1` does not depend on where option parsing leaves `optind`. */
  lemma DisplayArgumentOverflowsAnyOptind(xwaylandPath: string, wmFd: string, optind: int)
    requires optind >= 1
    ensures |XwaylandArgv(OPTS, xwaylandPath, wmFd, ["Xwayback", ":1"])| > DeclaredLength(2, optind)
  {
    DisplayArgumentOverflows(xwaylandPath, wmFd);
  }

  /** Whether the filter keeps `argv[i]`. */
  predicate Keeps(opts: seq<OptCmd>, argv: seq<string>, i: nat)
    requires i < |argv|
  {
    FindOpt(opts, argv[i]) == |opts|
  }

  /** Where the filter resumes after looking at `argv[i]`. */
  function NextIndex(opts: seq<OptCmd>, argv: seq<string>, i: nat): (n: nat)
    requires i < |argv|
    ensures i < n <= |argv| && n <= i + 2
  {
    var j := FindOpt(opts, argv[i]);
    if j < |opts| && opts[j].reqOperand && i + 1 < |argv| then i + 2 else i + 1
  }

  /** The filter loop's invariant `done + Forward(opts, argv[i..]) == all` survives one pass. */
  lemma FilterAdvance(opts: seq<OptCmd>, argv: seq<string>, i: nat, done: seq<string>, all: seq<string>)
    requires i < |argv| && done + Forward(opts, Suffix(argv, i)) == all
    ensures (if Keeps(opts, argv, i) then done + [argv[i]] else done) + Forward(opts, Suffix(argv, NextIndex(opts, argv, i))) == all
  {
    ForwardStep(opts, argv, i);
    if Keeps(opts, argv, i) {
      assert (done + [argv[i]]) + Forward(opts, Suffix(argv, i + 1))
          == done + ([argv[i]] + Forward(opts, Suffix(argv, i + 1)));
    }
  }

  /** `arguments[end] = x` just after a filled prefix extends that prefix by `x`. */
  method AppendOne(arguments: array<Option<string>>, end: nat, x: string,
                   ghost prefix: seq<Option<string>>, ghost done: seq<string>)
    requires end < arguments.Length && arguments[..end] == prefix + Strings(done)
    modifies arguments
    ensures arguments[..end + 1] == prefix + Strings(done + [x])
  {
    arguments[end] := Some(x);
    StringsAppend(done, [x]);
    assert arguments[..end + 1] == old(arguments[..end]) + [Some(x)];
  }

  /** The `xwayback_args` loop: copies `items` to `arguments[count..]`. */
  method AppendAll(arguments: array<Option<string>>, count: nat, items: seq<string>) returns (end: nat)
    requires count + |items| <= arguments.Length
    modifies arguments
    ensures end == count + |items|
    ensures arguments[..end] == old(arguments[..count]) + Strings(items)
  {
    end := count;
    var f := 0;
    while f < |items|
      invariant 0 <= f <= |items| && end == count + f
      invariant arguments[..end] == old(arguments[..count]) + Strings(items[..f])
    {
      arguments[end] := Some(items[f]);
      assert items[..f + 1] == items[..f] + [items[f]];
      StringsAppend(items[..f], [items[f]]);
      end := end + 1;
      f := f + 1;
    }
    assert items[..f] == items;
  }

  /**
   * One pass of the loop over `argv[1..argc]`: `argv[i]` is looked up in
   * `opts` and either appended at `arguments[end]` or dropped, together with
   * the token after it when the entry takes an operand.
   */
  method FilterOne(arguments: array<Option<string>>, end: nat, opts: seq<OptCmd>, argv: seq<string>, i: nat,
                   ghost prefix: seq<Option<string>>, ghost done: seq<string>)
    returns (i': nat, end': nat)
    requires i < |argv| && end < arguments.Length
    requires arguments[..end] == prefix + Strings(done)
    modifies arguments
    ensures i' == NextIndex(opts, argv, i)
    ensures Keeps(opts, argv, i) ==> end' == end + 1 && arguments[..end'] == prefix + Strings(done + [argv[i]])
    ensures !Keeps(opts, argv, i) ==> end' == end && arguments[..end'] == prefix + Strings(done)
  {
    var j := FindOption(opts, argv[i]);
    if j < |opts| {
      i' := if opts[j].reqOperand && i + 1 < |argv| then i + 2 else i + 1;
      end' := end;
    } else {
      AppendOne(arguments, end, argv[i], prefix, done);
      i', end' := i + 1, end + 1;
    }
  }

  /** The loop over `argv[1..argc]`, appending the forwarded arguments at `arguments[count..]`. */
  method AppendForwarded(arguments: array<Option<string>>, count: nat, opts: seq<OptCmd>, argv: seq<string>)
    returns (end: nat)
    requires count + |UserArgs(argv)| <= arguments.Length
    modifies arguments
    ensures end == count + |Forward(opts, UserArgs(argv))|
    ensures arguments[..end] == old(arguments[..count]) + Strings(Forward(opts, UserArgs(argv)))
  {
    ghost var prefix := arguments[..count];
    ghost var all := Forward(opts, UserArgs(argv));
    ghost var done: seq<string> := [];
    end := count;
    var i := 1;
    while i < |argv|
      invariant 1 <= i && (argv == [] || i <= |argv|)
      invariant done + Forward(opts, Suffix(argv, i)) == all
      invariant end == count + |done| && end < count + i
      invariant arguments[..end] == prefix + Strings(done)
    {
      FilterAdvance(opts, argv, i, done, all);
      ghost var kept := Keeps(opts, argv, i);
      ghost var x := argv[i];
      i, end := FilterOne(arguments, end, opts, argv, i, prefix, done);
      if kept {
        done := done + [x];
      }
    }
    assert Suffix(argv, i) == [];
  }

  /**
   * The argument builder, writing into an array of `ArgumentsCapacity`
   * entries instead of the declared length: every write is in bounds and the
   * entries written are the vector Xwayland is started with.
   */
  method BuildArguments(xwaylandPath: string, wmFd: string, argv: seq<string>)
    returns (arguments: array<Option<string>>, count: nat)
    ensures arguments.Length == ArgumentsCapacity(argv)
    ensures count <= arguments.Length
    ensures arguments[..count] == XwaylandArgv(OPTS, xwaylandPath, wmFd, argv)
  {
    arguments := new Option<string>[ArgumentsCapacity(argv)](_ => None);
    arguments[0] := Some(xwaylandPath);
    assert arguments[..1] == [Some(xwaylandPath)];
    count := AppendAll(arguments, 1, XwaybackArgs(wmFd));
    ghost var forwarded := Forward(OPTS, UserArgs(argv));
    count := AppendForwarded(arguments, count, OPTS, argv);
    ghost var written := arguments[..count];
    assert written == [Some(xwaylandPath)] + Strings(XwaybackArgs(wmFd)) + Strings(forwarded);
    arguments[count] := None;
    assert arguments[..count + 1] == written + [None];
    count := count + 1;
  }

  /** `"%dx%d"` of the selected output's width and height, each read as an `int`. */
  function GeometryText(width: u32, height: u32): (g: string)
    ensures forall k :: 0 <= k < |g| ==> IsDigit(g[k]) || g[k] == '-' || g[k] == 'x'
    ensures |g| >= 3 && (g[0] == '-' <==> width >= TWO_31)
  {
    IntText(AsI32(width)) + "x" + IntText(AsI32(height))
  }

  /** The text is at most 23 characters, far below the 4096-byte `geometry` buffer: `snprintf` never truncates it. */
  lemma GeometryFits(width: u32, height: u32)
    ensures |GeometryText(width, height)| <= 23
  {
    Int32TextFits(AsI32(width));
    Int32TextFits(AsI32(height));
  }

  /** The first 'x' of `s`, or `|s|`. */
  function IndexOfX(s: string): (k: nat)
    ensures k <= |s|
    ensures k < |s| ==> s[k] == 'x'
    ensures forall j :: 0 <= j < k ==> s[j] != 'x'
    decreases |s|
  {
    if s == [] then 0 else if s[0] == 'x' then 0 else 1 + IndexOfX(s[1..])
  }

  predicate IsIntText(s: string) {
    |s| >= 1 && forall k :: 0 <= k < |s| ==> IsDigit(s[k]) || (k == 0 && s[k] == '-')
  }

  /** Reads width and height back out of a geometry string. */
  function ParseGeometry(s: string): Option<(u32, u32)> {
    var k := IndexOfX(s);
    if k < |s| && IsIntText(s[..k]) && IsIntText(s[k + 1..]) then
      var w, h := ParseInt(s[..k]), ParseInt(s[k + 1..]);
      if -TWO_31 <= w < TWO_31 && -TWO_31 <= h < TWO_31 then Some((ToU32(w), ToU32(h))) else None
    else None
  }

  lemma U32RoundTrip(u: u32)
    ensures ToU32(AsI32(u)) == u
  {
  }

  /** The geometry string determines the width and height it was made from. */
  lemma GeometryRoundTrip(width: u32, height: u32)
    ensures ParseGeometry(GeometryText(width, height)) == Some((width, height))
  {
    var a, b := IntText(AsI32(width)), IntText(AsI32(height));
    var s := GeometryText(width, height);
    assert s == a + "x" + b;
    assert IndexOfX(s) == |a| by {
      assert s[|a|] == 'x';
      forall j | 0 <= j < |a| ensures s[j] != 'x' { assert s[j] == a[j]; }
      IndexOfXIsFirst(s, |a|);
    }
    assert s[..|a|] == a;
    assert s[|a| + 1..] == b;
    IntTextRoundTrip(AsI32(width));
    IntTextRoundTrip(AsI32(height));
    U32RoundTrip(width);
    U32RoundTrip(height);
  }

  lemma IndexOfXIsFirst(s: string, k: nat)
    requires k < |s| && s[k] == 'x' && forall j :: 0 <= j < k ==> s[j] != 'x'
    ensures IndexOfX(s) == k
  {
  }

  /** The geometry of the record `first_output` points to. */
  function Resolution(r: Registry): (g: string)
    requires Valid(r) && r.first.Some?
    ensures var o := r.outputs[Pos(r, r.first.value)];
            ParseGeometry(g) == Some((o.width, o.height)) && |g| <= 23
  {
    var o := r.outputs[Pos(r, r.first.value)];
    GeometryRoundTrip(o.width, o.height);
    GeometryFits(o.width, o.height);
    GeometryText(o.width, o.height)
  }

  /** The geometry string of a 1920 by 1080 output. */
  lemma FullHdGeometry()
    ensures GeometryText(1920, 1080) == "1920x1080"
  {
    assert Decimal(1920) == "1920" && Decimal(1080) == "1080";
  }

  /** `wayback-compositor`'s argument vector: its path and the three descriptor numbers. */
  function CompositorArgv(path: string, fd0: nat, fd1: nat, fd2: nat): (r: seq<Option<string>>)
    ensures |r| == 5 && r[0] == Some(path) && r[4] == None
  {
    [Some(path), Some(Decimal(fd0)), Some(Decimal(fd1)), Some(Decimal(fd2)), None]
  }

  /** Distinct descriptors give distinct arguments, and each reads back as its descriptor. */
  lemma CompositorArgvDescriptors(path: string, fd0: nat, fd1: nat, fd2: nat)
    requires fd0 != fd1 && fd1 != fd2 && fd0 != fd2
    ensures var r := CompositorArgv(path, fd0, fd1, fd2);
            r[1] != r[2] && r[2] != r[3] && r[1] != r[3] &&
            ParseDecimal(r[1].value) == fd0 && ParseDecimal(r[2].value) == fd1 &&
            ParseDecimal(r[3].value) == fd2
  {
    DecimalRoundTrip(fd0);
    DecimalRoundTrip(fd1);
    DecimalRoundTrip(fd2);
  }

}
