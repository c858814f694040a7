/** The command line of the automatic mode (`matchOpt` and the argument loop of `maybeAuto` in
    src/autoswitch/AutoSwitch.cpp), and the command lines that the supervisor gives to its children. */
module AutoArgs {

  datatype Match = NoMatch | Whole | Inline(value: string)

  function MatchOpt(arg: string, flag: string): Match {
    if !(flag <= arg) then NoMatch
    else if |arg| == |flag| then Whole
    else if arg[|flag|] == '=' then Inline(arg[|flag| + 1..])
    else NoMatch
  }

  const AUTO_HOST: string := "--auto-host"
  const AUTO: string := "--auto"

  /** `-a`, `-o`, `-u` and `-p` take the next argument with them. */
  predicate IsShort(arg: string) {
    |arg| == 2 && arg[0] == '-' && (arg[1] == 'a' || arg[1] == 'o' || arg[1] == 'u' || arg[1] == 'p')
  }

  /** `--algo`, `--url`, `--user` and `--pass`, compared by prefix only. */
  predicate IsLong(arg: string) {
    "--algo" <= arg || "--url" <= arg || "--user" <= arg || "--pass" <= arg
  }

  /** An argument that is handed on to the children. */
  predicate Plain(arg: string) {
    MatchOpt(arg, AUTO_HOST).NoMatch? && MatchOpt(arg, AUTO).NoMatch? && !IsShort(arg) && !IsLong(arg)
  }

  datatype Parsed = Parsed(port: int, host: string, passed: seq<string>)

  /** The arguments behind the first one, and behind its value when it takes the next argument. */
  function Rest(args: seq<string>, takesNext: bool): (r: seq<string>)
    requires args != []
    ensures |r| < |args|
  {
    if takesNext && |args| > 1 then args[2..] else args[1..]
  }

  /** The argument loop; `atoi` is the C function. */
  function Parse(atoi: string -> int, args: seq<string>, p: Parsed): Parsed
    decreases |args|
  {
    if args == [] then p
    else
      var arg := args[0];
      var host, port := MatchOpt(arg, AUTO_HOST), MatchOpt(arg, AUTO);
      if !host.NoMatch? then
        var value := if host.Inline? then host.value else if |args| > 1 then args[1] else p.host;
        Parse(atoi, Rest(args, host.Whole?), p.(host := value))
      else if !port.NoMatch? then
        var value := if port.Inline? then port.value else if |args| > 1 then args[1] else "0";
        Parse(atoi, Rest(args, port.Whole?), p.(port := atoi(value)))
      else if IsShort(arg) then Parse(atoi, Rest(args, true), p)
      else if IsLong(arg) then Parse(atoi, Rest(args, '=' !in arg), p)
      else Parse(atoi, args[1..], p.(passed := p.passed + [arg]))
  }

  const DEFAULT_HOST: string := "all.pool-pay.com"

  /** The loop over `argv`, which starts behind the program name. */
  method ParseArguments(atoi: string -> int, argv: seq<string>) returns (p: Parsed)
    requires argv != []
    ensures p == Parse(atoi, argv[1..], Parsed(0, DEFAULT_HOST, []))
  {
    p := Parsed(0, DEFAULT_HOST, []);
    var i := 1;
    while i < |argv|
      invariant 1 <= i
      invariant Parse(atoi, argv[1..], Parsed(0, DEFAULT_HOST, [])) == if i < |argv| then Parse(atoi, argv[i..], p) else p
    {
      var arg := argv[i];
      ghost var here := argv[i..];
      assert Rest(here, false) == argv[i + 1..];
      assert i + 1 < |argv| ==> Rest(here, true) == argv[i + 2..] && here[1] == argv[i + 1];
      var host, port := MatchOpt(arg, AUTO_HOST), MatchOpt(arg, AUTO);
      if !host.NoMatch? {
        if host.Inline? {
          p := p.(host := host.value);
        } else if i + 1 < |argv| {
          i := i + 1;
          p := p.(host := argv[i]);
        }
      } else if !port.NoMatch? {
        if port.Inline? {
          p := p.(port := atoi(port.value));
        } else if i + 1 < |argv| {
          i := i + 1;
          p := p.(port := atoi(argv[i]));
        } else {
          p := p.(port := atoi("0"));
        }
      } else if IsShort(arg) {
        i := i + 1;
      } else if IsLong(arg) {
        if '=' !in arg {
          i := i + 1;
        }
      } else {
        p := p.(passed := p.passed + [arg]);
      }
      i := i + 1;
    }
  }

  /** What `maybeAuto` makes of a command line. */
  datatype Decision = Supervise(port: int) | Refuse | NotAuto

  function Decide(atoi: string -> int, args: seq<string>): Decision {
    var p := Parse(atoi, args, Parsed(0, DEFAULT_HOST, []));
    if p.port > 0 then Supervise(p.port)
    else if exists a :: a in args && AUTO <= a then Refuse
    else NotAuto
  }

  // ---- what is handed on ----

  lemma {:induction false} PassedArePlain(atoi: string -> int, args: seq<string>, p: Parsed)
    requires forall a :: a in p.passed ==> Plain(a)
    ensures forall a :: a in Parse(atoi, args, p).passed ==> Plain(a)
    decreases |args|
  {
    if args != [] {
      var arg := args[0];
      var host, port := MatchOpt(arg, AUTO_HOST), MatchOpt(arg, AUTO);
      if !host.NoMatch? {
        var value := if host.Inline? then host.value else if |args| > 1 then args[1] else p.host;
        PassedArePlain(atoi, Rest(args, host.Whole?), p.(host := value));
      } else if !port.NoMatch? {
        var value := if port.Inline? then port.value else if |args| > 1 then args[1] else "0";
        PassedArePlain(atoi, Rest(args, port.Whole?), p.(port := atoi(value)));
      } else if IsShort(arg) {
        PassedArePlain(atoi, Rest(args, true), p);
      } else if IsLong(arg) {
        PassedArePlain(atoi, Rest(args, '=' !in arg), p);
      } else {
        PassedArePlain(atoi, args[1..], p.(passed := p.passed + [arg]));
      }
    }
  }

  lemma {:induction false} PlainPasses(atoi: string -> int, args: seq<string>, p: Parsed)
    requires forall a :: a in args ==> Plain(a)
    ensures Parse(atoi, args, p) == p.(passed := p.passed + args)
    decreases |args|
  {
    if args != [] {
      assert Plain(args[0]);
      PlainPasses(atoi, args[1..], p.(passed := p.passed + [args[0]]));
      assert (p.passed + [args[0]]) + args[1..] == p.passed + args;
    }
  }

  /** Filtering an argument list twice is filtering it once. */
  lemma FilterIsIdempotent(atoi: string -> int, args: seq<string>)
    ensures var once := Parse(atoi, args, Parsed(0, DEFAULT_HOST, [])).passed;
            Parse(atoi, once, Parsed(0, DEFAULT_HOST, [])) == Parsed(0, DEFAULT_HOST, once)
  {
    var start := Parsed(0, DEFAULT_HOST, []);
    PassedArePlain(atoi, args, start);
    var once := Parse(atoi, args, start).passed;
    PlainPasses(atoi, once, start);
    assert [] + once == once;
  }

  // ---- what the options mean ----

  lemma {:induction false} PlainPrefix(atoi: string -> int, plain: seq<string>, rest: seq<string>, p: Parsed)
    requires forall a :: a in plain ==> Plain(a)
    ensures Parse(atoi, plain + rest, p) == Parse(atoi, rest, p.(passed := p.passed + plain))
    decreases |plain|
  {
    if plain == [] {
      assert plain + rest == rest && p.passed + plain == p.passed;
    } else {
      assert Plain(plain[0]) && (plain + rest)[1..] == plain[1..] + rest;
      PlainPrefix(atoi, plain[1..], rest, p.(passed := p.passed + [plain[0]]));
      assert (p.passed + [plain[0]]) + plain[1..] == p.passed + plain;
    }
  }

  lemma AutoIsRead(v: string)
    ensures MatchOpt("--auto", AUTO_HOST).NoMatch? && MatchOpt("--auto", AUTO).Whole?
    ensures MatchOpt("--auto=" + v, AUTO_HOST).NoMatch? && MatchOpt("--auto=" + v, AUTO) == Inline(v)
    ensures MatchOpt("--auto-host", AUTO_HOST).Whole? && MatchOpt("--auto-host=" + v, AUTO_HOST) == Inline(v)
  {
    assert |AUTO| == 6 && |AUTO_HOST| == 11 && AUTO_HOST[6] == '-' && ("--auto=" + v)[6] == '=';
    assert ("--auto=" + v)[..6] == AUTO && ("--auto=" + v)[7..] == v;
    assert ("--auto-host=" + v)[..11] == AUTO_HOST && ("--auto-host=" + v)[12..] == v && ("--auto-host=" + v)[11] == '=';
  }

  /** The argument is `--auto` alone, or has the value inside. */
  ghost predicate IsAuto(args: seq<string>, v: string) {
    || (|args| == 2 && MatchOpt(args[0], AUTO_HOST).NoMatch? && MatchOpt(args[0], AUTO).Whole? && args[1] == v)
    || (|args| == 1 && MatchOpt(args[0], AUTO_HOST).NoMatch? && MatchOpt(args[0], AUTO) == Inline(v))
  }

  lemma AutoStep(atoi: string -> int, auto: seq<string>, v: string, after: seq<string>, p: Parsed)
    requires IsAuto(auto, v)
    ensures Parse(atoi, auto + after, p) == Parse(atoi, after, p.(port := atoi(v)))
  {
    var all := auto + after;
    assert all[0] == auto[0] && all[|auto|..] == after;
    if |auto| == 2 {
      assert all[1] == v && Rest(all, true) == after;
    } else {
      assert Rest(all, false) == after;
    }
  }

  lemma AutoAmongPlain(atoi: string -> int, before: seq<string>, auto: seq<string>, v: string, after: seq<string>, p: Parsed)
    requires IsAuto(auto, v) && (forall a :: a in before ==> Plain(a)) && (forall a :: a in after ==> Plain(a))
    ensures Parse(atoi, before + (auto + after), p) == p.(port := atoi(v), passed := p.passed + before + after)
  {
    PlainPrefix(atoi, before, auto + after, p);
    var q := p.(passed := p.passed + before);
    AutoStep(atoi, auto, v, after, q);
    PlainPasses(atoi, after, q.(port := atoi(v)));
  }

  lemma MatchIsPrefix(arg: string, flag: string)
    ensures !MatchOpt(arg, flag).NoMatch? ==> flag <= arg
  {
  }

  /** `--auto` takes its port from the next argument or from behind an equals sign (`AutoForms`), wherever it stands
      among plain arguments, which are all handed on: with a positive number the program supervises, and with any
      other it refuses. */
  lemma AutoSupervises(atoi: string -> int, before: seq<string>, auto: seq<string>, v: string, after: seq<string>)
    requires IsAuto(auto, v) && (forall a :: a in before ==> Plain(a)) && (forall a :: a in after ==> Plain(a))
    ensures Parse(atoi, before + (auto + after), Parsed(0, DEFAULT_HOST, [])) == Parsed(atoi(v), DEFAULT_HOST, before + after)
    ensures Decide(atoi, before + (auto + after)) == if atoi(v) > 0 then Supervise(atoi(v)) else Refuse
  {
    AutoAmongPlain(atoi, before, auto, v, after, Parsed(0, DEFAULT_HOST, []));
    assert [] + before == before;
    MatchIsPrefix(auto[0], AUTO);
    assert auto[0] in auto + after;
    assert auto[0] in before + (auto + after) && AUTO <= auto[0];
  }

  lemma AutoForms(v: string)
    ensures IsAuto(["--auto", v], v) && IsAuto(["--auto=" + v], v)
    ensures DEFAULT_HOST == "all.pool-pay.com"
  {
    AutoIsRead(v);
  }

  /** Without a port behind it, `--auto` counts as zero; without a name, `--auto-host` changes nothing. */
  lemma LastWithoutValue(atoi: string -> int, p: Parsed)
    ensures Parse(atoi, ["--auto"], p) == p.(port := atoi("0"))
    ensures Parse(atoi, ["--auto-host"], p) == p
  {
    AutoIsRead("");
    assert ["--auto"][1..] == [] && ["--auto-host"][1..] == [];
  }

  /** `--auto-host` names the route server, in both forms. */
  lemma HostIsTaken(atoi: string -> int, h: string, rest: seq<string>, p: Parsed)
    ensures Parse(atoi, ["--auto-host", h] + rest, p) == Parse(atoi, rest, p.(host := h))
    ensures Parse(atoi, ["--auto-host=" + h] + rest, p) == Parse(atoi, rest, p.(host := h))
  {
    AutoIsRead(h);
    var two, one := ["--auto-host", h] + rest, ["--auto-host=" + h] + rest;
    assert two[0] == "--auto-host" && two[1] == h && two[2..] == rest && one[0] == "--auto-host=" + h && one[1..] == rest;
  }

  /** The options that the route decides. */
  predicate IsPoolOption(flag: string) {
    flag == "--algo" || flag == "--url" || flag == "--user" || flag == "--pass"
  }

  lemma LongVanishes(atoi: string -> int, arg: string, taken: seq<string>, rest: seq<string>, p: Parsed)
    requires IsLong(arg) && MatchOpt(arg, AUTO_HOST).NoMatch? && MatchOpt(arg, AUTO).NoMatch? && !IsShort(arg)
    requires |taken| == if '=' in arg then 0 else 1
    ensures Parse(atoi, [arg] + taken + rest, p) == Parse(atoi, rest, p)
  {
    var all := [arg] + taken + rest;
    assert all[0] == arg && Rest(all, '=' !in arg) == rest;
  }

  /** The user's own pool options go no further, in the short form and in the two long ones. */
  lemma PoolOptionsAreDropped(atoi: string -> int, flag: string, short: string, v: string, rest: seq<string>, p: Parsed)
    requires IsPoolOption(flag) && (short == "-a" || short == "-o" || short == "-u" || short == "-p")
    ensures Parse(atoi, [short, v] + rest, p) == Parse(atoi, rest, p)
    ensures Parse(atoi, [flag] + [v] + rest, p) == Parse(atoi, rest, p)
    ensures Parse(atoi, [flag + "=" + v] + [] + rest, p) == Parse(atoi, rest, p)
  {
    ShortVanishes(atoi, short, v, rest, p);
    assert Parse(atoi, [flag] + [v] + rest, p) == Parse(atoi, rest, p) by {
      PoolOptionIsLong(flag, "");
      assert flag + "" == flag;
      PoolOptionHasNoEquals(flag);
      LongVanishes(atoi, flag, [v], rest, p);
    }
    PoolOptionIsLong(flag, "=" + v);
    assert flag + ("=" + v) == flag + "=" + v && (flag + "=" + v)[|flag|] == '=';
    LongVanishes(atoi, flag + "=" + v, [], rest, p);
  }

  lemma PoolOptionHasNoEquals(flag: string)
    requires IsPoolOption(flag)
    ensures '=' !in flag
  {
    assert '=' !in "--algo" && '=' !in "--url" && '=' !in "--user" && '=' !in "--pass";
  }

  lemma PoolOptionIsLong(flag: string, more: string)
    requires IsPoolOption(flag)
    ensures IsLong(flag + more) && MatchOpt(flag + more, AUTO_HOST).NoMatch? && MatchOpt(flag + more, AUTO).NoMatch? && !IsShort(flag + more)
  {
    assert (flag + more)[..|flag|] == flag;
    assert flag[..5] == (flag + more)[..5];
    LongIsNotAuto(flag + more);
  }

  lemma LongIsNotAuto(arg: string)
    requires |arg| >= 5 && (arg[..5] == "--alg" || arg[..5] == "--url" || arg[..5] == "--use" || arg[..5] == "--pas")
    ensures MatchOpt(arg, AUTO_HOST).NoMatch? && MatchOpt(arg, AUTO).NoMatch? && !IsShort(arg)
  {
    assert AUTO[..4] == "--au" && AUTO_HOST[..4] == "--au";
    assert arg[..5][3] == arg[3] && AUTO[3] == 'u' && AUTO_HOST[3] == 'u' && AUTO[2] == 'a' && AUTO_HOST[2] == 'a' && arg[..5][2] == arg[2];
  }

  // ---- the children ----

  /** A route as far as the command line needs it; `hostPort` is `host:port`. */
  datatype Route = Route(algo: string, hostPort: string, user: string, pass: string, tls: bool)

  const FIXED: seq<string> := ["-k", "--donate-level", "0"]

  function PoolArgs(r: Route): seq<string> {
    ["-a", r.algo, "-o", r.hostPort, "-u", r.user, "-p", r.pass]
  }

  /** The plain arguments that follow; `api` is the local port of the child's own API. */
  function TailArgs(tls: bool, passed: seq<string>, api: string): seq<string> {
    FIXED + (if tls then ["--tls"] else []) + passed + ["--http-host=127.0.0.1", "--http-port=" + api]
  }

  /** The command line of a mining child; a fee child is the case without passed arguments. */
  function ChildArgs(r: Route, passed: seq<string>, api: string): seq<string> {
    PoolArgs(r) + TailArgs(r.tls, passed, api)
  }

  /** The order of a child's arguments. */
  lemma ArgsInOrder(r: Route, passed: seq<string>, api: string)
    ensures var args := ChildArgs(r, passed, api);
            && |args| >= 13
            && args[0] == "-a" && args[1] == r.algo && args[2] == "-o" && args[3] == r.hostPort
            && args[4] == "-u" && args[5] == r.user && args[6] == "-p" && args[7] == r.pass
            && args[8] == "-k" && args[9] == "--donate-level" && args[10] == "0"
            && args[11..] == (if r.tls then ["--tls"] else []) + passed + ["--http-host=127.0.0.1", "--http-port=" + api]
  {
    var args, tail := ChildArgs(r, passed, api), TailArgs(r.tls, passed, api);
    assert |PoolArgs(r)| == 8 && |FIXED| == 3;
    assert forall i :: 0 <= i < |tail| ==> args[8 + i] == tail[i];
    assert tail[0] == "-k" && tail[1] == "--donate-level" && tail[2] == "0";
    assert args[11..] == tail[3..];
  }

  lemma LongerThanFlags(arg: string)
    requires |arg| >= 3 && (arg[2] == 'd' || arg[2] == 't' || arg[2] == 'h')
    ensures Plain(arg) && !(AUTO <= arg)
  {
    assert AUTO[2] == 'a' && AUTO_HOST[2] == 'a' && "--algo"[2] == 'a' && "--url"[2] == 'u' && "--user"[2] == 'u' && "--pass"[2] == 'p';
  }

  lemma ShortAndPlain(arg: string)
    requires arg == "-k" || arg == "0"
    ensures Plain(arg) && !(AUTO <= arg)
  {
    assert |AUTO| == 6 && |AUTO_HOST| == 11;
  }

  lemma TailIsPlain(tls: bool, passed: seq<string>, api: string)
    requires forall a :: a in passed ==> Plain(a)
    ensures forall a :: a in TailArgs(tls, passed, api) ==> Plain(a)
    ensures forall a :: a in TailArgs(tls, passed, api) ==> (AUTO <= a ==> a in passed)
  {
    ShortAndPlain("-k");
    ShortAndPlain("0");
    LongerThanFlags("--donate-level");
    LongerThanFlags("--tls");
    LongerThanFlags("--http-host=127.0.0.1");
    assert ("--http-port=" + api)[2] == 'h';
    LongerThanFlags("--http-port=" + api);
  }

  /** The pool arguments vanish without a look at their values. */
  lemma PoolArgsVanish(atoi: string -> int, r: Route, tail: seq<string>, p: Parsed)
    ensures Parse(atoi, PoolArgs(r) + tail, p) == Parse(atoi, tail, p)
  {
    var a4 := ["-p", r.pass] + tail;
    var a3 := ["-u", r.user] + a4;
    var a2 := ["-o", r.hostPort] + a3;
    var a1 := ["-a", r.algo] + a2;
    assert PoolArgs(r) + tail == a1;
    ShortVanishes(atoi, "-a", r.algo, a2, p);
    ShortVanishes(atoi, "-o", r.hostPort, a3, p);
    ShortVanishes(atoi, "-u", r.user, a4, p);
    ShortVanishes(atoi, "-p", r.pass, tail, p);
  }

  lemma ShortVanishes(atoi: string -> int, flag: string, value: string, tail: seq<string>, p: Parsed)
    requires IsShort(flag)
    ensures Parse(atoi, [flag, value] + tail, p) == Parse(atoi, tail, p)
  {
    var args := [flag, value] + tail;
    assert |AUTO| == 6 && |AUTO_HOST| == 11;
    assert args[0] == flag && Rest(args, true) == tail;
  }

  /** No child of the supervisor can become a supervisor, for all user arguments and routes. */
  lemma ChildNeverSupervises(atoi: string -> int, args: seq<string>, r: Route, api: string)
    ensures var passed := Parse(atoi, args, Parsed(0, DEFAULT_HOST, [])).passed;
            && Parse(atoi, ChildArgs(r, passed, api), Parsed(0, DEFAULT_HOST, [])).port == 0
            && !Decide(atoi, ChildArgs(r, passed, api)).Supervise?
  {
    var start := Parsed(0, DEFAULT_HOST, []);
    PassedArePlain(atoi, args, start);
    var passed := Parse(atoi, args, start).passed;
    TailIsPlain(r.tls, passed, api);
    PoolArgsVanish(atoi, r, TailArgs(r.tls, passed, api), start);
    PlainPasses(atoi, TailArgs(r.tls, passed, api), start);
  }

  /** The values that a child's command line takes from elsewhere. */
  function Values(r: Route, passed: seq<string>): seq<string> {
    [r.algo, r.hostPort, r.user, r.pass] + passed
  }

  /** A child goes on to mine exactly when none of the values it was given begins with `--auto`;
      otherwise it refuses its command line and exits. */
  lemma ChildMinesIff(atoi: string -> int, args: seq<string>, r: Route, api: string)
    ensures var passed := Parse(atoi, args, Parsed(0, DEFAULT_HOST, [])).passed;
            Decide(atoi, ChildArgs(r, passed, api)) == NotAuto <==> forall v :: v in Values(r, passed) ==> !(AUTO <= v)
  {
    var passed := Parse(atoi, args, Parsed(0, DEFAULT_HOST, [])).passed;
    ChildNeverSupervises(atoi, args, r, api);
    PassedArePlain(atoi, args, Parsed(0, DEFAULT_HOST, []));
    TailIsPlain(r.tls, passed, api);
    var all, values, tail := ChildArgs(r, passed, api), Values(r, passed), TailArgs(r.tls, passed, api);
    assert |AUTO| == 6;
    assert forall v :: v in values ==> v in all;
    forall a | a in all && AUTO <= a ensures a in values {
      if a in tail {
        assert a in passed;
      } else {
        assert a in PoolArgs(r);
      }
    }
  }
}
