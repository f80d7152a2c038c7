/** Go's flag.Parse, and the reordering of arguments that lets flags stand anywhere on the command line. */
module FlagPermutation {
  import opened Options

  datatype Kind = Boolean | Valued

  /** The flags of a command; `accepts(name, value)` says whether setting the flag to that text succeeds. */
  datatype FlagSet = FlagSet(flags: map<string, Kind>, accepts: (string, string) -> bool)

  datatype Error =
    | BadSyntax(arg: string)
    | NotDefined(name: string)
    | HelpRequested
    | InvalidValue(name: string, value: string)
    | NeedsArgument(name: string)

  datatype Setting = Setting(name: string, value: string)

  /** The flags set, in order, and the positional arguments, or the error parsing stopped at. */
  datatype Outcome = Parsed(sets: seq<Setting>, args: seq<string>) | Failed(sets: seq<Setting>, error: Error)

  const TERMINATOR := "--"

  predicate LooksLikeFlag(arg: string) {
    |arg| >= 2 && arg[0] == '-'
  }

  // ---- flag.Parse ----

  datatype Token = Bad | Flag(name: string, value: Option<string>)

  /** The position of the first '=', or the length. */
  function IndexOfEquals(s: string): (i: nat)
    ensures i <= |s| && '=' !in s[..i] && (i < |s| ==> s[i] == '=')
  {
    if s == "" || s[0] == '=' then 0
    else
      var i := 1 + IndexOfEquals(s[1..]);
      assert s[..i] == [s[0]] + s[1..][..i - 1];
      i
  }

  function Tokenize(arg: string): Token
    requires LooksLikeFlag(arg) && arg != TERMINATOR
  {
    var name := if arg[1] == '-' then arg[2..] else arg[1..];
    if name == "" || name[0] == '-' || name[0] == '=' then Bad
    else
      var i := IndexOfEquals(name);
      if i < |name| then Flag(name[..i], Some(name[i + 1..])) else Flag(name, None)
  }

  /** One flag at the head of the arguments: the setting it makes and the arguments it uses, or its error. */
  datatype Effect = Fails(error: Error) | Sets(setting: Setting, used: nat)

  function Checked(fs: FlagSet, name: string, value: string, used: nat): Effect {
    if fs.accepts(name, value) then Sets(Setting(name, value), used) else Fails(InvalidValue(name, value))
  }

  function ParseOne(fs: FlagSet, args: seq<string>): (e: Effect)
    requires args != [] && LooksLikeFlag(args[0]) && args[0] != TERMINATOR
    ensures e.Sets? ==> 1 <= e.used <= |args|
  {
    match Tokenize(args[0])
    case Bad => Fails(BadSyntax(args[0]))
    case Flag(name, value) =>
      if name !in fs.flags then Fails(if name == "help" || name == "h" then HelpRequested else NotDefined(name))
      else if fs.flags[name].Boolean? then Checked(fs, name, if value.Some? then value.value else "true", 1)
      else if value.Some? then Checked(fs, name, value.value, 1)
      else if |args| > 1 then Checked(fs, name, args[1], 2)
      else Fails(NeedsArgument(name))
  }

  predicate IsName(name: string) {
    name != "" && name[0] != '-' && '=' !in name
  }

  predicate IsFlag(arg: string, token: Token) {
    LooksLikeFlag(arg) && arg != TERMINATOR && Tokenize(arg) == token
  }

  lemma {:induction false} NameEnds(name: string, rest: string)
    requires '=' !in name && (rest == "" || rest[0] == '=')
    ensures IndexOfEquals(name + rest) == |name|
    decreases |name|
  {
    if name == "" {
      assert name + rest == rest;
    } else {
      assert (name + rest)[1..] == name[1..] + rest;
      NameEnds(name[1..], rest);
    }
  }

  lemma Dashed(body: string, token: Token)
    requires body != "" && body[0] != '-' && body[0] != '='
    requires var i := IndexOfEquals(body);
      token == if i < |body| then Flag(body[..i], Some(body[i + 1..])) else Flag(body, None)
    ensures IsFlag("-" + body, token) && IsFlag("--" + body, token)
  {
    assert ("-" + body)[1..] == body && ("-" + body)[1] == body[0];
    assert ("--" + body)[2..] == body && ("--" + body)[2] == body[0];
  }

  /** `-name` and `--name` are the same flag; a value may follow an equals sign and may hold more of them. */
  lemma FlagForms(name: string, value: string)
    requires IsName(name)
    ensures IsFlag("-" + name, Flag(name, None)) && IsFlag("--" + name, Flag(name, None))
    ensures IsFlag("-" + (name + "=" + value), Flag(name, Some(value)))
    ensures IsFlag("--" + (name + "=" + value), Flag(name, Some(value)))
  {
    BareForm(name);
    ValueForm(name, value);
  }

  lemma BareForm(name: string)
    requires IsName(name)
    ensures IsFlag("-" + name, Flag(name, None)) && IsFlag("--" + name, Flag(name, None))
  {
    NameEnds(name, "");
    assert name + "" == name;
    Dashed(name, Flag(name, None));
  }

  lemma ValueForm(name: string, value: string)
    requires IsName(name)
    ensures IsFlag("-" + (name + "=" + value), Flag(name, Some(value)))
    ensures IsFlag("--" + (name + "=" + value), Flag(name, Some(value)))
  {
    var body := name + "=" + value;
    NameEnds(name, "=" + value);
    assert body == name + ("=" + value) && body[..|name|] == name && body[|name| + 1..] == value;
    Dashed(body, Flag(name, Some(value)));
  }

  /** What a flag sets: the value behind the equals sign, else "true" if it is boolean, else the next argument. */
  lemma FlagSets(fs: FlagSet, args: seq<string>, name: string, value: string)
    requires args != [] && name in fs.flags
    ensures IsFlag(args[0], Flag(name, Some(value))) && fs.accepts(name, value) ==>
      ParseOne(fs, args) == Sets(Setting(name, value), 1)
    ensures IsFlag(args[0], Flag(name, None)) && fs.flags[name].Boolean? && fs.accepts(name, "true") ==>
      ParseOne(fs, args) == Sets(Setting(name, "true"), 1)
    ensures IsFlag(args[0], Flag(name, None)) && fs.flags[name].Valued? && |args| > 1 && fs.accepts(name, args[1]) ==>
      ParseOne(fs, args) == Sets(Setting(name, args[1]), 2)
    ensures IsFlag(args[0], Flag(name, None)) && fs.flags[name].Valued? && |args| == 1 ==>
      ParseOne(fs, args) == Fails(NeedsArgument(name))
  {
  }

  /** What is refused: a value the flag does not accept, a flag that is not defined, and dashes without a name. */
  lemma FlagRefused(fs: FlagSet, args: seq<string>, name: string, value: string)
    requires args != []
    ensures IsFlag(args[0], Flag(name, Some(value))) && name in fs.flags && !fs.accepts(name, value) ==>
      ParseOne(fs, args) == Fails(InvalidValue(name, value))
    ensures IsFlag(args[0], Flag(name, None)) && name !in fs.flags ==>
      ParseOne(fs, args) == Fails(if name == "help" || name == "h" then HelpRequested else NotDefined(name))
    ensures IsFlag(args[0], Bad) ==> ParseOne(fs, args) == Fails(BadSyntax(args[0]))
    ensures IsFlag("---" + name, Bad) && IsFlag("-=" + name, Bad) && IsFlag("--=" + name, Bad)
  {
    assert ("---" + name)[2..][0] == '-' && ("-=" + name)[1..][0] == '=' && ("--=" + name)[2..][0] == '=';
  }

  /** flag.Parse: flags up to the first positional argument or the terminator. */
  function Parse(fs: FlagSet, args: seq<string>, sets: seq<Setting>): Outcome
    decreases |args|
  {
    if args == [] || !LooksLikeFlag(args[0]) then Parsed(sets, args)
    else if args[0] == TERMINATOR then Parsed(sets, args[1..])
    else match ParseOne(fs, args)
      case Fails(error) => Failed(sets, error)
      case Sets(setting, used) => Parse(fs, args[used..], sets + [setting])
  }

  /** What the command line means: flags count wherever they stand, up to the terminator. */
  function ParseAnywhere(fs: FlagSet, args: seq<string>, sets: seq<Setting>, positional: seq<string>): Outcome
    decreases |args|
  {
    if args == [] then Parsed(sets, positional)
    else if args[0] == TERMINATOR then Parsed(sets, positional + args[1..])
    else if !LooksLikeFlag(args[0]) then ParseAnywhere(fs, args[1..], sets, positional + [args[0]])
    else match ParseOne(fs, args)
      case Fails(error) => Failed(sets, error)
      case Sets(setting, used) => ParseAnywhere(fs, args[used..], sets + [setting], positional)
  }

  // ---- permuteArgs ----

  function TrimDashes(arg: string): string {
    if arg != "" && arg[0] == '-' then TrimDashes(arg[1..]) else arg
  }

  /** The flag at the head wants the argument behind it as its value. */
  predicate WantsNext(fs: FlagSet, arg: string) {
    var name := TrimDashes(arg);
    '=' !in name && name in fs.flags && fs.flags[name].Valued?
  }

  function Takes(fs: FlagSet, args: seq<string>): (n: nat)
    requires args != []
    ensures 1 <= n <= |args|
  {
    if WantsNext(fs, args[0]) && |args| > 1 then 2 else 1
  }

  /** The flags, each with the value it consumes. */
  function Hoisted(fs: FlagSet, args: seq<string>): seq<string>
    decreases |args|
  {
    if args == [] || args[0] == TERMINATOR then []
    else if !LooksLikeFlag(args[0]) then Hoisted(fs, args[1..])
    else args[..Takes(fs, args)] + Hoisted(fs, args[Takes(fs, args)..])
  }

  /** Everything else. */
  function Positional(fs: FlagSet, args: seq<string>): seq<string>
    decreases |args|
  {
    if args == [] then []
    else if args[0] == TERMINATOR then args[1..]
    else if !LooksLikeFlag(args[0]) then [args[0]] + Positional(fs, args[1..])
    else Positional(fs, args[Takes(fs, args)..])
  }

  function Permuted(fs: FlagSet, args: seq<string>): seq<string> {
    Hoisted(fs, args) + [TERMINATOR] + Positional(fs, args)
  }

  lemma PermuteStep(fs: FlagSet, args: seq<string>, i: nat)
    requires i < |args|
    ensures var rest, one, two := args[i..], args[i + 1..], if i + 1 < |args| then args[i + 2..] else [];
      if args[i] == TERMINATOR then Hoisted(fs, rest) == [] && Positional(fs, rest) == one
      else if !LooksLikeFlag(args[i]) then
        Hoisted(fs, rest) == Hoisted(fs, one) && Positional(fs, rest) == [args[i]] + Positional(fs, one)
      else if WantsNext(fs, args[i]) && i + 1 < |args| then
        Hoisted(fs, rest) == [args[i], args[i + 1]] + Hoisted(fs, two) && Positional(fs, rest) == Positional(fs, two)
      else
        Hoisted(fs, rest) == [args[i]] + Hoisted(fs, one) && Positional(fs, rest) == Positional(fs, one)
  {
    var rest := args[i..];
    assert rest[0] == args[i] && rest[1..] == args[i + 1..] && rest[..1] == [args[i]];
    if i + 1 < |args| {
      assert rest[..2] == [args[i], args[i + 1]] && rest[2..] == args[i + 2..];
    }
  }

  /** The two slices after the arguments before number `i`. */
  ghost predicate Progress(fs: FlagSet, args: seq<string>, i: nat, flags: seq<string>, positional: seq<string>)
    requires i <= |args|
  {
    flags + Hoisted(fs, args[i..]) == Hoisted(fs, args) && positional + Positional(fs, args[i..]) == Positional(fs, args)
  }

  lemma ProgressStep(fs: FlagSet, args: seq<string>, i: nat, flags: seq<string>, positional: seq<string>)
    requires i < |args| && Progress(fs, args, i, flags, positional)
    ensures if args[i] == TERMINATOR then flags == Hoisted(fs, args) && positional + args[i + 1..] == Positional(fs, args)
      else if !LooksLikeFlag(args[i]) then Progress(fs, args, i + 1, flags, positional + [args[i]])
      else if WantsNext(fs, args[i]) && i + 1 < |args| then Progress(fs, args, i + 2, flags + [args[i]] + [args[i + 1]], positional)
      else Progress(fs, args, i + 1, flags + [args[i]], positional)
  {
    PermuteStep(fs, args, i);
    if args[i] == TERMINATOR {
      assert flags + [] == flags;
    } else if !LooksLikeFlag(args[i]) {
      assert positional + ([args[i]] + Positional(fs, args[i + 1..])) == positional + [args[i]] + Positional(fs, args[i + 1..]);
    } else if WantsNext(fs, args[i]) && i + 1 < |args| {
      assert flags + ([args[i], args[i + 1]] + Hoisted(fs, args[i + 2..]))
          == flags + [args[i]] + [args[i + 1]] + Hoisted(fs, args[i + 2..]);
    } else {
      assert flags + ([args[i]] + Hoisted(fs, args[i + 1..])) == flags + [args[i]] + Hoisted(fs, args[i + 1..]);
    }
  }

  method PermuteArgs(fs: FlagSet, args: seq<string>) returns (r: seq<string>)
    ensures r == Permuted(fs, args)
  {
    var flags, positional := [], [];
    var i := 0;
    while i < |args|
      invariant i <= |args| && Progress(fs, args, i, flags, positional)
    {
      var arg := args[i];
      ProgressStep(fs, args, i, flags, positional);
      if arg == TERMINATOR {
        positional := positional + args[i + 1..];
        return flags + [TERMINATOR] + positional;
      }
      if |arg| < 2 || arg[0] != '-' {
        positional := positional + [arg];
        i := i + 1;
        continue;
      }
      flags := flags + [arg];
      i := i + 1;
      var name := TrimDashes(arg);
      if '=' in name || name !in fs.flags || fs.flags[name].Boolean? {
        continue;
      }
      if i < |args| {
        flags := flags + [args[i]];
        i := i + 1;
      }
    }
    r := flags + [TERMINATOR] + positional;
  }

  // ---- Equivalence ----

  /** Permuting consumes a value exactly where parsing does. */
  lemma TakesWhatParsingUses(fs: FlagSet, args: seq<string>)
    requires args != [] && LooksLikeFlag(args[0]) && args[0] != TERMINATOR
    ensures var t := Tokenize(args[0]);
      t.Flag? ==> (WantsNext(fs, args[0]) <==> t.value.None? && t.name in fs.flags && fs.flags[t.name].Valued?)
    ensures ParseOne(fs, args).Sets? ==> ParseOne(fs, args).used == Takes(fs, args)
  {
    var arg := args[0];
    var name := if arg[1] == '-' then arg[2..] else arg[1..];
    assert arg[1] == '-' ==> arg[1..][1..] == arg[2..];
    if Tokenize(arg).Flag? {
      assert TrimDashes(name) == name && TrimDashes(arg) == name;
      var i := IndexOfEquals(name);
      assert i == |name| ==> name[..i] == name;
    }
  }

  /** Parsing reaches a flag that wants a value, as the very last argument. */
  predicate Dangling(fs: FlagSet, args: seq<string>)
    decreases |args|
  {
    args != [] && args[0] != TERMINATOR &&
    if !LooksLikeFlag(args[0]) then Dangling(fs, args[1..])
    else if |args| == 1 && WantsNext(fs, args[0]) && Tokenize(args[0]).Flag? then true
    else match ParseOne(fs, args)
      case Fails(_) => false
      case Sets(_, used) => Dangling(fs, args[used..])
  }

  lemma SameHead(fs: FlagSet, a: seq<string>, b: seq<string>)
    requires a != [] && b != [] && a[0] == b[0] && LooksLikeFlag(a[0]) && a[0] != TERMINATOR
    requires Tokenize(a[0]).Flag? && WantsNext(fs, a[0]) ==> |a| > 1 && |b| > 1 && a[1] == b[1]
    ensures ParseOne(fs, a) == ParseOne(fs, b)
  {
    TakesWhatParsingUses(fs, a);
  }

  /** The flags hoisted from a command line, in front of anything else. */
  lemma HoistedHead(fs: FlagSet, args: seq<string>, tail: seq<string>)
    requires args != [] && LooksLikeFlag(args[0]) && args[0] != TERMINATOR
    requires Tokenize(args[0]).Flag? && WantsNext(fs, args[0]) ==> |args| > 1
    ensures var all := Hoisted(fs, args) + tail;
      && all != [] && all[0] == args[0] && ParseOne(fs, all) == ParseOne(fs, args)
      && (ParseOne(fs, args).Sets? ==>
            all[ParseOne(fs, args).used..] == Hoisted(fs, args[ParseOne(fs, args).used..]) + tail)
  {
    var n := Takes(fs, args);
    var all := Hoisted(fs, args) + tail;
    HoistedSplit(fs, args, tail, n);
    SameHead(fs, args, all);
    TakesWhatParsingUses(fs, args);
  }

  lemma HoistedSplit(fs: FlagSet, args: seq<string>, tail: seq<string>, n: nat)
    requires args != [] && LooksLikeFlag(args[0]) && args[0] != TERMINATOR && n == Takes(fs, args)
    ensures var all := Hoisted(fs, args) + tail;
      && |all| >= n && all[0] == args[0] && (n == 2 ==> all[1] == args[1])
      && all[..n] == args[..n] && all[n..] == Hoisted(fs, args[n..]) + tail
  {
    var rest := Hoisted(fs, args[n..]);
    assert args[..n] + rest + tail == args[..n] + (rest + tail);
  }

  /** The outcome of parsing what is left, permuted, behind the settings and the positional arguments so far. */
  function ParseHoisted(fs: FlagSet, args: seq<string>, sets: seq<Setting>, positional: seq<string>): Outcome {
    Parse(fs, Hoisted(fs, args) + ([TERMINATOR] + (positional + Positional(fs, args))), sets)
  }

  lemma ParseHoistedStep(fs: FlagSet, args: seq<string>, sets: seq<Setting>, positional: seq<string>)
    requires args != [] && args[0] != TERMINATOR
    requires LooksLikeFlag(args[0]) ==>
      ParseOne(fs, args).Sets? && (Tokenize(args[0]).Flag? && WantsNext(fs, args[0]) ==> |args| > 1)
    ensures !LooksLikeFlag(args[0]) ==>
      && ParseHoisted(fs, args, sets, positional) == ParseHoisted(fs, args[1..], sets, positional + [args[0]])
      && positional + Positional(fs, args) == positional + [args[0]] + Positional(fs, args[1..])
    ensures LooksLikeFlag(args[0]) ==>
      var e := ParseOne(fs, args);
      && ParseHoisted(fs, args, sets, positional) == ParseHoisted(fs, args[e.used..], sets + [e.setting], positional)
      && Positional(fs, args) == Positional(fs, args[e.used..])
  {
    if !LooksLikeFlag(args[0]) {
      assert positional + Positional(fs, args) == positional + [args[0]] + Positional(fs, args[1..]);
    } else {
      TakesWhatParsingUses(fs, args);
      HoistedHead(fs, args, [TERMINATOR] + (positional + Positional(fs, args)));
    }
  }

  /** Hoisting the flags does not change what is parsed. */
  lemma {:induction false} PermutedParsesAlike(fs: FlagSet, args: seq<string>, sets: seq<Setting>, positional: seq<string>)
    requires !Dangling(fs, args)
    ensures ParseHoisted(fs, args, sets, positional) == ParseAnywhere(fs, args, sets, positional)
    decreases |args|
  {
    var tail := [TERMINATOR] + (positional + Positional(fs, args));
    if args == [] || args[0] == TERMINATOR {
      assert Hoisted(fs, args) + tail == tail && tail[1..] == positional + Positional(fs, args);
      assert args == [] ==> positional + Positional(fs, args) == positional;
    } else if !LooksLikeFlag(args[0]) {
      ParseHoistedStep(fs, args, sets, positional);
      PermutedParsesAlike(fs, args[1..], sets, positional + [args[0]]);
    } else {
      HoistedHead(fs, args, tail);
      var e := ParseOne(fs, args);
      if e.Sets? {
        ParseHoistedStep(fs, args, sets, positional);
        PermutedParsesAlike(fs, args[e.used..], sets + [e.setting], positional);
      }
    }
  }

  /** What parsing makes of a dangling flag once the terminator stands behind it. */
  function Swallowed(fs: FlagSet, missing: Outcome, positional: seq<string>): Outcome
    requires missing.Failed? && missing.error.NeedsArgument?
  {
    var name := missing.error.name;
    if fs.accepts(name, TERMINATOR) then Parsed(missing.sets + [Setting(name, TERMINATOR)], positional)
    else Failed(missing.sets, InvalidValue(name, TERMINATOR))
  }

  /**
    A dangling flag swallows the terminator: it is set to "--" and parsing
    succeeds, or it is rejected for that value, instead of reported as missing one.
   */
  lemma {:induction false} DanglingParsesOtherwise(fs: FlagSet, args: seq<string>, sets: seq<Setting>, positional: seq<string>)
    requires Dangling(fs, args) && (positional == [] || !LooksLikeFlag(positional[0]))
    ensures var missing := ParseAnywhere(fs, args, sets, positional);
      && missing.Failed? && missing.error.NeedsArgument?
      && ParseHoisted(fs, args, sets, positional) == Swallowed(fs, missing, positional + Positional(fs, args))
    decreases |args|
  {
    if LooksLikeFlag(args[0]) && |args| == 1 && WantsNext(fs, args[0]) && Tokenize(args[0]).Flag? {
      LastSwallows(fs, args, sets, positional);
    } else {
      ParseHoistedStep(fs, args, sets, positional);
      if !LooksLikeFlag(args[0]) {
        DanglingParsesOtherwise(fs, args[1..], sets, positional + [args[0]]);
      } else {
        var e := ParseOne(fs, args);
        DanglingParsesOtherwise(fs, args[e.used..], sets + [e.setting], positional);
      }
    }
  }

  lemma LastSwallows(fs: FlagSet, args: seq<string>, sets: seq<Setting>, positional: seq<string>)
    requires |args| == 1 && LooksLikeFlag(args[0]) && args[0] != TERMINATOR
    requires WantsNext(fs, args[0]) && Tokenize(args[0]).Flag?
    requires positional == [] || !LooksLikeFlag(positional[0])
    ensures var missing := Failed(sets, NeedsArgument(Tokenize(args[0]).name));
      && ParseAnywhere(fs, args, sets, positional) == missing
      && ParseHoisted(fs, args, sets, positional) == Swallowed(fs, missing, positional + Positional(fs, args))
  {
    TakesWhatParsingUses(fs, args);
    assert Hoisted(fs, args[1..]) == [] && Positional(fs, args[1..]) == [] && positional + [] == positional;
    var all := Hoisted(fs, args) + ([TERMINATOR] + positional);
    assert all == args + ([TERMINATOR] + positional) && all[0] == args[0] && all[1] == TERMINATOR && all[2..] == positional;
    var name := Tokenize(args[0]).name;
    assert ParseOne(fs, all) == Checked(fs, name, TERMINATOR, 2);
    assert ParseHoisted(fs, args, sets, positional) == Parse(fs, all, sets);
    assert Parse(fs, all[2..], sets + [Setting(name, TERMINATOR)]) == Parsed(sets + [Setting(name, TERMINATOR)], positional);
  }

  /** The shortest such command line: `-n`, when -n wants a value. */
  lemma DanglingAlone(fs: FlagSet)
    requires "n" in fs.flags && fs.flags["n"].Valued?
    ensures ParseAnywhere(fs, ["-n"], [], []) == Failed([], NeedsArgument("n"))
    ensures Parse(fs, Permuted(fs, ["-n"]), [])
         == if fs.accepts("n", "--") then Parsed([Setting("n", "--")], []) else Failed([], InvalidValue("n", "--"))
  {
    assert "-n"[1..] == "n" && "n"[..1] == "n" && TrimDashes("-n") == "n" && Tokenize("-n") == Flag("n", None);
    LastSwallows(fs, ["-n"], [], []);
    assert Permuted(fs, ["-n"]) == Hoisted(fs, ["-n"]) + ([TERMINATOR] + ([] + Positional(fs, ["-n"])));
  }

  /**
    Parsing the permuted arguments sets the same flags in the same order, leaves
    the same positional arguments and fails on the same flag as parsing with
    flags anywhere, exactly when no flag dangles.
   */
  lemma ParseFlagsCorrect(fs: FlagSet, args: seq<string>)
    ensures Parse(fs, Permuted(fs, args), []) == ParseAnywhere(fs, args, [], []) <==> !Dangling(fs, args)
  {
    assert Permuted(fs, args) == Hoisted(fs, args) + ([TERMINATOR] + ([] + Positional(fs, args)));
    if Dangling(fs, args) {
      DanglingParsesOtherwise(fs, args, [], []);
    } else {
      PermutedParsesAlike(fs, args, [], []);
    }
  }

  // ---- Conservation and idempotence ----

  /** The scan stops at a terminator of the user's own. */
  predicate Terminated(fs: FlagSet, args: seq<string>)
    decreases |args|
  {
    args != [] && (args[0] == TERMINATOR ||
      if !LooksLikeFlag(args[0]) then Terminated(fs, args[1..]) else Terminated(fs, args[Takes(fs, args)..]))
  }

  lemma {:induction false} ConservedParts(fs: FlagSet, args: seq<string>)
    ensures multiset(Hoisted(fs, args)) + multiset(Positional(fs, args))
      + (if Terminated(fs, args) then multiset{TERMINATOR} else multiset{}) == multiset(args)
    decreases |args|
  {
    if args != [] {
      if args[0] == TERMINATOR {
        assert args == [TERMINATOR] + args[1..];
      } else if !LooksLikeFlag(args[0]) {
        assert args == [args[0]] + args[1..];
        ConservedParts(fs, args[1..]);
      } else {
        var n := Takes(fs, args);
        assert args == args[..n] + args[n..];
        ConservedParts(fs, args[n..]);
      }
    }
  }

  /** No argument is lost or invented: at most one terminator is added. */
  lemma Conserved(fs: FlagSet, args: seq<string>)
    ensures multiset(Permuted(fs, args)) == multiset(args) + if Terminated(fs, args) then multiset{} else multiset{TERMINATOR}
  {
    ConservedParts(fs, args);
    assert multiset(Permuted(fs, args)) == multiset(Hoisted(fs, args)) + multiset{TERMINATOR} + multiset(Positional(fs, args));
  }

  /** The last argument scanned is a flag that wants a value. */
  predicate EndsOpen(fs: FlagSet, args: seq<string>)
    decreases |args|
  {
    args != [] && args[0] != TERMINATOR &&
    if !LooksLikeFlag(args[0]) then EndsOpen(fs, args[1..])
    else (|args| == 1 && WantsNext(fs, args[0])) || EndsOpen(fs, args[Takes(fs, args)..])
  }

  /** Scanning hoisted flags again finds the same flags. */
  lemma {:induction false} HoistedAgain(fs: FlagSet, args: seq<string>, tail: seq<string>)
    requires !EndsOpen(fs, args)
    ensures Hoisted(fs, Hoisted(fs, args) + tail) == Hoisted(fs, args) + Hoisted(fs, tail)
    ensures Positional(fs, Hoisted(fs, args) + tail) == Positional(fs, tail)
    decreases |args|
  {
    if args == [] || args[0] == TERMINATOR {
      assert Hoisted(fs, args) + tail == tail;
    } else if !LooksLikeFlag(args[0]) {
      HoistedAgain(fs, args[1..], tail);
    } else {
      var n := Takes(fs, args);
      HoistedAgain(fs, args[n..], tail);
      HoistedSplit(fs, args, tail, n);
      assert Takes(fs, Hoisted(fs, args) + tail) == n;
    }
  }

  predicate NoFlags(args: seq<string>) {
    forall i :: 0 <= i < |args| ==> !LooksLikeFlag(args[i])
  }

  lemma {:induction false} NoFlagsUnterminated(fs: FlagSet, args: seq<string>)
    requires NoFlags(args)
    ensures !Terminated(fs, args)
    decreases |args|
  {
    if args != [] {
      assert LooksLikeFlag(TERMINATOR);
      NoFlagsUnterminated(fs, args[1..]);
    }
  }

  /** An open flag takes the terminator that permuting adds, so the next pass adds another. */
  lemma {:induction false} OpenSwallows(fs: FlagSet, args: seq<string>, positional: seq<string>)
    requires EndsOpen(fs, args) && NoFlags(positional)
    ensures !Terminated(fs, Hoisted(fs, args) + ([TERMINATOR] + positional)) && NoFlags(Positional(fs, args))
    decreases |args|
  {
    var tail := [TERMINATOR] + positional;
    if !LooksLikeFlag(args[0]) {
      OpenSwallows(fs, args[1..], positional);
    } else {
      var n := Takes(fs, args);
      var all := Hoisted(fs, args) + tail;
      if |args| == 1 && WantsNext(fs, args[0]) {
        assert all == args + tail && all[0] == args[0] && all[2..] == positional;
        NoFlagsUnterminated(fs, positional);
      } else {
        OpenSwallows(fs, args[n..], positional);
        HoistedSplit(fs, args, tail, n);
        assert Takes(fs, all) == n;
      }
    }
  }

  /** Permuting a second time changes nothing, exactly when the arguments do not end in a flag that wants a value. */
  lemma IdempotentIff(fs: FlagSet, args: seq<string>)
    ensures Permuted(fs, Permuted(fs, args)) == Permuted(fs, args) <==> !EndsOpen(fs, args)
  {
    var positional := Positional(fs, args);
    var tail := [TERMINATOR] + positional;
    assert Permuted(fs, args) == Hoisted(fs, args) + tail;
    if EndsOpen(fs, args) {
      OpenSwallows(fs, args, []);
      OpenSwallows(fs, args, positional);
      Conserved(fs, Permuted(fs, args));
      assert |multiset(Permuted(fs, Permuted(fs, args)))| == |multiset(Permuted(fs, args))| + 1;
    } else {
      HoistedAgain(fs, args, tail);
      assert tail[1..] == positional && Hoisted(fs, args) + [] == Hoisted(fs, args);
    }
  }
}
