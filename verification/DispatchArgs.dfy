/** The command line of the Riecoin mode (`isRiecoinAlgo`, `matchOpt`, `feeArgs` and the argument loop of
    `maybeDispatch` in src/riecoin/Dispatch.cpp), and what becomes of the program's own fee process, whose
    start passes the automatic mode and then the Riecoin mode (src/xmrig.cpp). */
module DispatchArgs {
  import opened Basics
  import AutoArgs
  import Processes

  function ToLower(c: char): char {
    if 'A' <= c <= 'Z' then c - 'A' + 'a' else c
  }

  function Lower(s: string): (r: string)
    ensures |r| == |s| && forall i :: 0 <= i < |s| ==> r[i] == ToLower(s[i])
  {
    if s == "" then "" else [ToLower(s[0])] + Lower(s[1..])
  }

  predicate IsRiecoin(algo: string) {
    var a := Lower(algo);
    a == "ric" || a == "riecoin" || a == "riecoin/ric"
  }

  datatype Key = Algo | Url | User | Pass | Config

  const KEYS: seq<Key> := [Algo, Url, User, Pass, Config]

  function Short(k: Key): char {
    match k case Algo => 'a' case Url => 'o' case User => 'u' case Pass => 'p' case Config => 'c'
  }

  function Long(k: Key): string {
    match k case Algo => "--algo" case Url => "--url" case User => "--user" case Pass => "--pass" case Config => "--config"
  }

  function MatchOpt(arg: string, k: Key): AutoArgs.Match {
    if arg == ['-', Short(k)] then AutoArgs.Whole else AutoArgs.MatchOpt(arg, Long(k))
  }

  /** The option that an argument begins, by the order of the tests. */
  function KeyOf(arg: string, keys: seq<Key>): Option<Key> {
    if keys == [] then None
    else if !MatchOpt(arg, keys[0]).NoMatch? then Some(keys[0])
    else KeyOf(arg, keys[1..])
  }

  datatype Options = Options(haveAlgo: bool, algo: string, url: string, user: string, pass: string, config: string)

  const NO_OPTIONS: Options := Options(false, "", "", "", "", "")

  function Set(o: Options, k: Key, v: string): Options {
    match k
    case Algo => o.(haveAlgo := true, algo := v)
    case Url => o.(url := v)
    case User => o.(user := v)
    case Pass => o.(pass := v)
    case Config => o.(config := v)
  }

  function Parse(args: seq<string>, o: Options): Options
    decreases |args|
  {
    if args == [] then o
    else
      var k := KeyOf(args[0], KEYS);
      if k.None? then Parse(args[1..], o)
      else
        var m := MatchOpt(args[0], k.value);
        if m.Inline? then Parse(args[1..], Set(o, k.value, m.value))
        else if |args| > 1 then Parse(args[2..], Set(o, k.value, args[1]))
        else Set(o, k.value, "")
  }

  /** The loop over `argv`, which starts behind the program name. */
  method ParseOptions(argv: seq<string>) returns (o: Options)
    requires argv != []
    ensures o == Parse(argv[1..], NO_OPTIONS)
  {
    o := NO_OPTIONS;
    var i := 1;
    while i < |argv|
      invariant 1 <= i <= |argv|
      invariant Parse(argv[1..], NO_OPTIONS) == Parse(argv[i..], o)
    {
      ghost var here := argv[i..];
      assert here[1..] == argv[i + 1..];
      assert i + 1 < |argv| ==> here[2..] == argv[i + 2..] && here[1] == argv[i + 1];
      var k := KeyOf(argv[i], KEYS);
      if k.Some? {
        var m := MatchOpt(argv[i], k.value);
        if m.Inline? {
          o := Set(o, k.value, m.value);
        } else if i + 1 < |argv| {
          i := i + 1;
          o := Set(o, k.value, argv[i]);
        } else {
          o := Set(o, k.value, "");
        }
      }
      i := i + 1;
    }
  }

  /** The first pool of a configuration file. */
  datatype Pool = Pool(algo: Option<string>, url: Option<string>, user: Option<string>, pass: Option<string>)

  /** The file is looked at only when it was named and something is missing, and sets only what is. */
  function Complete(o: Options, file: string -> Option<Pool>): Options {
    if o.config == "" || !(o.url == "" || o.user == "" || !o.haveAlgo) || file(o.config).None? then o
    else
      var p := file(o.config).value;
      o.(haveAlgo := o.haveAlgo || p.algo.Some?,
         algo := if !o.haveAlgo && p.algo.Some? then p.algo.value else o.algo,
         url := if o.url == "" && p.url.Some? then p.url.value else o.url,
         user := if o.user == "" && p.user.Some? then p.user.value else o.user,
         pass := if o.pass == "" && p.pass.Some? then p.pass.value else o.pass)
  }

  /** The program hands over to rieMiner. */
  predicate Dispatches(args: seq<string>, file: string -> Option<Pool>) {
    var o := Complete(Parse(args, NO_OPTIONS), file);
    o.haveAlgo && IsRiecoin(o.algo)
  }

  // ---- the fee process ----

  /** A fee route; `hostPort` is `host:port`. */
  datatype FeeRoute = FeeRoute(hostPort: string, user: string, pass: string, tls: bool)

  const RANDOMX: string := "rx/0"

  function Password(r: FeeRoute): string {
    if r.pass == "" then "x" else r.pass
  }

  function FeeArgs(r: FeeRoute): seq<string> {
    ["-a", RANDOMX, "-o", r.hostPort, "-u", r.user, "-p", Password(r)] + if r.tls then ["--tls"] else []
  }

  lemma ShortIsRead(k: Key, flag: string, value: string, tail: seq<string>, o: Options)
    requires flag == ['-', Short(k)] && k in KEYS
    ensures Parse([flag, value] + tail, o) == Parse(tail, Set(o, k, value))
  {
    var args := [flag, value] + tail;
    assert args[0] == flag && args[1] == value && args[2..] == tail;
    KeyOfShort(k, flag);
  }

  lemma KeyOfShort(k: Key, flag: string)
    requires flag == ['-', Short(k)]
    ensures KeyOf(flag, KEYS) == Some(k) && MatchOpt(flag, k).Whole?
  {
    forall j: Key | j != k ensures MatchOpt(flag, j).NoMatch? {
      assert |Long(j)| > 2 && flag[1] == Short(k) && Short(j) != Short(k);
    }
    assert k == KEYS[if k.Algo? then 0 else if k.Url? then 1 else if k.User? then 2 else if k.Pass? then 3 else 4];
    OnlyKey(flag, KEYS, k);
  }

  lemma {:induction false} OnlyKey(arg: string, keys: seq<Key>, k: Key)
    requires k in keys && !MatchOpt(arg, k).NoMatch?
    requires forall j: Key :: j != k ==> MatchOpt(arg, j).NoMatch?
    ensures KeyOf(arg, keys) == Some(k)
  {
    if keys[0] != k {
      OnlyKey(arg, keys[1..], k);
    }
  }

  lemma TlsIsNoOption()
    ensures KeyOf("--tls", KEYS).None?
  {
    forall j: Key ensures MatchOpt("--tls", j).NoMatch? {
      assert Long(j)[2] != 't' && "--tls"[2] == 't' && |Long(j)| > 2;
    }
    NoKey("--tls", KEYS);
  }

  lemma {:induction false} NoKey(arg: string, keys: seq<Key>)
    requires forall j: Key :: MatchOpt(arg, j).NoMatch?
    ensures KeyOf(arg, keys).None?
  {
    if keys != [] {
      NoKey(arg, keys[1..]);
    }
  }

  /** Reading the fee arguments back gives exactly the route they were made from. */
  lemma FeeArgsAreRead(r: FeeRoute)
    ensures Parse(FeeArgs(r), NO_OPTIONS) == Options(true, "rx/0", r.hostPort, r.user, if r.pass == "" then "x" else r.pass, "")
    ensures |FeeArgs(r)| == (if r.tls then 9 else 8) && (r.tls ==> FeeArgs(r)[8] == "--tls")
  {
    var t5: seq<string> := if r.tls then ["--tls"] else [];
    var t4 := ["-p", Password(r)] + t5;
    var t3 := ["-u", r.user] + t4;
    var t2 := ["-o", r.hostPort] + t3;
    assert FeeArgs(r) == ["-a", RANDOMX] + t2;
    var o1 := Set(NO_OPTIONS, Algo, RANDOMX);
    var o2 := Set(o1, Url, r.hostPort);
    var o3 := Set(o2, User, r.user);
    var o4 := Set(o3, Pass, Password(r));
    ShortIsRead(Algo, "-a", RANDOMX, t2, NO_OPTIONS);
    ShortIsRead(Url, "-o", r.hostPort, t3, o1);
    ShortIsRead(User, "-u", r.user, t4, o2);
    ShortIsRead(Pass, "-p", Password(r), t5, o3);
    TlsIsNoOption();
    if r.tls {
      assert t5[1..] == [];
    }
  }

  /** The long form of an option. */
  predicate IsLongFor(k: Key, flag: string) {
    match k
    case Algo => flag == "--algo"
    case Url => flag == "--url"
    case User => flag == "--user"
    case Pass => flag == "--pass"
    case Config => flag == "--config"
  }

  lemma KeyOfLong(k: Key, flag: string, more: string)
    requires IsLongFor(k, flag) && (more == "" || more[0] == '=')
    ensures KeyOf(flag + more, KEYS) == Some(k)
    ensures MatchOpt(flag + more, k) == if more == "" then AutoArgs.Whole else AutoArgs.Inline(more[1..])
  {
    var arg := flag + more;
    assert Long(k) == flag && arg[..|flag|] == flag;
    assert more != "" ==> arg[|flag|] == '=' && arg[|flag| + 1..] == more[1..];
    forall j: Key | j != k ensures MatchOpt(arg, j).NoMatch? {
      LongsDiffer(j, k, more);
    }
    assert k == KEYS[if k.Algo? then 0 else if k.Url? then 1 else if k.User? then 2 else if k.Pass? then 3 else 4];
    OnlyKey(arg, KEYS, k);
  }

  lemma LongsDiffer(j: Key, k: Key, more: string)
    requires j != k
    ensures MatchOpt(Long(k) + more, j).NoMatch?
  {
    var arg := Long(k) + more;
    assert arg[2] == Long(k)[2] && arg[3] == Long(k)[3] && arg[0] == '-' && arg[1] == '-';
    assert Long(j)[2] != Long(k)[2] || Long(j)[3] != Long(k)[3];
  }

  /** The long options are read in both forms. */
  lemma LongIsRead(k: Key, flag: string, value: string, tail: seq<string>, o: Options)
    requires IsLongFor(k, flag)
    ensures Parse([flag, value] + tail, o) == Parse(tail, Set(o, k, value))
    ensures Parse([flag + "=" + value] + tail, o) == Parse(tail, Set(o, k, value))
  {
    KeyOfLong(k, flag, "");
    assert flag + "" == flag;
    WholeIsRead(k, flag, value, tail, o);
    KeyOfLong(k, flag, "=" + value);
    assert flag + ("=" + value) == flag + "=" + value && ("=" + value)[1..] == value;
    InlineIsRead(k, flag + "=" + value, value, tail, o);
  }

  lemma WholeIsRead(k: Key, arg: string, value: string, tail: seq<string>, o: Options)
    requires KeyOf(arg, KEYS) == Some(k) && MatchOpt(arg, k).Whole?
    ensures Parse([arg, value] + tail, o) == Parse(tail, Set(o, k, value))
  {
    var args := [arg, value] + tail;
    assert args[0] == arg && args[1] == value && args[2..] == tail;
  }

  lemma InlineIsRead(k: Key, arg: string, value: string, tail: seq<string>, o: Options)
    requires KeyOf(arg, KEYS) == Some(k) && MatchOpt(arg, k) == AutoArgs.Inline(value)
    ensures Parse([arg] + tail, o) == Parse(tail, Set(o, k, value))
  {
    var args := [arg] + tail;
    assert args[0] == arg && args[1..] == tail;
  }

  /** Each option sets its own field. */
  lemma OptionsSetFields(o: Options, v: string)
    ensures Set(o, Algo, v) == o.(haveAlgo := true, algo := v) && Set(o, Url, v) == o.(url := v) && Set(o, User, v) == o.(user := v)
    ensures Set(o, Pass, v) == o.(pass := v) && Set(o, Config, v) == o.(config := v)
  {
  }

  /** The arguments of a simple run, as a user would type them. */
  function SimpleArgs(algo: string, url: string, user: string, pass: string): seq<string> {
    ["-a", algo, "-o", url, "-u", user, "-p", pass]
  }

  lemma SimpleArgsAreRead(algo: string, url: string, user: string, pass: string, tail: seq<string>, o: Options)
    ensures Parse(SimpleArgs(algo, url, user, pass) + tail, o)
            == Parse(tail, o.(haveAlgo := true, algo := algo, url := url, user := user, pass := pass))
  {
    var t4 := ["-p", pass] + tail;
    var t3 := ["-u", user] + t4;
    var t2 := ["-o", url] + t3;
    assert SimpleArgs(algo, url, user, pass) + tail == ["-a", algo] + t2;
    ShortIsRead(Algo, "-a", algo, t2, o);
    ShortIsRead(Url, "-o", url, t3, Set(o, Algo, algo));
    ShortIsRead(User, "-u", user, t4, Set(Set(o, Algo, algo), Url, url));
    ShortIsRead(Pass, "-p", pass, tail, Set(Set(Set(o, Algo, algo), Url, url), User, user));
  }

  /** The three names that mean Riecoin. */
  lemma RiecoinNames(algo: string)
    requires algo == "ric" || algo == "riecoin" || algo == "riecoin/ric"
    ensures IsRiecoin(algo)
  {
    if algo == "ric" {
      LowerStays(algo);
    } else if algo == "riecoin" {
      LowerStays(algo);
    } else {
      LowerStays(algo);
    }
  }

  /** They may be written in any mixture of cases, and there are no others. */
  lemma CaseDoesNotMatter(algo: string)
    ensures IsRiecoin(algo) <==> IsRiecoin(Lower(algo))
    ensures IsRiecoin(algo) <==> Lower(algo) == "ric" || Lower(algo) == "riecoin" || Lower(algo) == "riecoin/ric"
  {
    LowerOfLower(algo);
  }

  lemma UpperCaseIsRead()
    ensures Lower("RIC") == "ric"
  {
    assert forall i :: 0 <= i < 3 ==> Lower("RIC")[i] == "ric"[i];
  }

  lemma LowerStays(s: string)
    requires forall i :: 0 <= i < |s| ==> !('A' <= s[i] <= 'Z')
    ensures Lower(s) == s
  {
  }

  lemma LowerOfLower(s: string)
    ensures Lower(Lower(s)) == Lower(s)
  {
  }

  /** Such a run hands over to rieMiner exactly if the algorithm is one of these, and the pool, the user and the
      password are those typed. */
  lemma SimpleRunDispatchesIff(algo: string, url: string, user: string, pass: string, file: string -> Option<Pool>)
    ensures Parse(SimpleArgs(algo, url, user, pass), NO_OPTIONS) == Options(true, algo, url, user, pass, "")
    ensures Dispatches(SimpleArgs(algo, url, user, pass), file) <==> IsRiecoin(algo)
  {
    SimpleArgsAreRead(algo, url, user, pass, [], NO_OPTIONS);
    assert SimpleArgs(algo, url, user, pass) + [] == SimpleArgs(algo, url, user, pass);
  }

  /** What the command line says is not overruled by the configuration file, and what it leaves open is taken from
      the first pool there, if the file is named and anything but the password is left open. */
  lemma FileFillsGaps(o: Options, file: string -> Option<Pool>)
    ensures var c := Complete(o, file);
            && (o.haveAlgo ==> c.haveAlgo && c.algo == o.algo)
            && (o.url != "" ==> c.url == o.url) && (o.user != "" ==> c.user == o.user) && (o.pass != "" ==> c.pass == o.pass)
            && c.config == o.config
            && (o.config == "" || file(o.config) == None || (o.haveAlgo && o.url != "" && o.user != "") ==> c == o)
    ensures forall p :: o.config != "" && file(o.config) == Some(p) && (!o.haveAlgo || o.url == "" || o.user == "") ==>
              var c := Complete(o, file);
              && (!o.haveAlgo && p.algo.Some? ==> c.haveAlgo && c.algo == p.algo.value)
              && (!o.haveAlgo && p.algo.None? ==> !c.haveAlgo)
              && (o.url == "" && p.url.Some? ==> c.url == p.url.value)
              && (o.user == "" && p.user.Some? ==> c.user == p.user.value)
              && (o.pass == "" && p.pass.Some? ==> c.pass == p.pass.value)
  {
  }

  /** Plain arguments set nothing but perhaps the configuration file. */
  lemma {:induction false} PlainSetsNothing(args: seq<string>, o: Options)
    requires forall a :: a in args ==> AutoArgs.Plain(a)
    ensures Parse(args, o) == o.(config := Parse(args, o).config)
    decreases |args|
  {
    if args != [] {
      var k := KeyOf(args[0], KEYS);
      assert AutoArgs.Plain(args[0]);
      if k.None? {
        PlainSetsNothing(args[1..], o);
      } else {
        KeyMatches(args[0], KEYS);
        PlainIsConfig(args[0], k.value);
        var m := MatchOpt(args[0], k.value);
        if m.Inline? {
          PlainSetsNothing(args[1..], Set(o, k.value, m.value));
        } else if |args| > 1 {
          PlainSetsNothing(args[2..], Set(o, k.value, args[1]));
        }
      }
    }
  }

  lemma {:induction false} KeyMatches(arg: string, keys: seq<Key>)
    ensures var k := KeyOf(arg, keys); k.Some? ==> !MatchOpt(arg, k.value).NoMatch?
  {
    if keys != [] && MatchOpt(arg, keys[0]).NoMatch? {
      KeyMatches(arg, keys[1..]);
    }
  }

  lemma PlainIsConfig(arg: string, k: Key)
    requires AutoArgs.Plain(arg) && !MatchOpt(arg, k).NoMatch?
    ensures k.Config?
  {
    assert arg == ['-', Short(k)] ==> |arg| == 2 && arg[0] == '-' && arg[1] == Short(k);
    assert arg == ['-', Short(k)] || Long(k) <= arg;
  }

  /** A child of the automatic mode reads back exactly the route it was given, whatever the user's own arguments. */
  lemma ChildArgsAreRead(atoi: string -> int, args: seq<string>, r: AutoArgs.Route, api: string)
    ensures var passed := AutoArgs.Parse(atoi, args, AutoArgs.Parsed(0, AutoArgs.DEFAULT_HOST, [])).passed;
            var o := Parse(AutoArgs.ChildArgs(r, passed, api), NO_OPTIONS);
            o.haveAlgo && o.algo == r.algo && o.url == r.hostPort && o.user == r.user && o.pass == r.pass
  {
    AutoArgs.PassedArePlain(atoi, args, AutoArgs.Parsed(0, AutoArgs.DEFAULT_HOST, []));
    var passed := AutoArgs.Parse(atoi, args, AutoArgs.Parsed(0, AutoArgs.DEFAULT_HOST, [])).passed;
    var tail := AutoArgs.TailArgs(r.tls, passed, api);
    AutoArgs.TailIsPlain(r.tls, passed, api);
    assert AutoArgs.ChildArgs(r, passed, api) == SimpleArgs(r.algo, r.hostPort, r.user, r.pass) + tail;
    SimpleArgsAreRead(r.algo, r.hostPort, r.user, r.pass, tail, NO_OPTIONS);
    PlainSetsNothing(tail, NO_OPTIONS.(haveAlgo := true, algo := r.algo, url := r.hostPort, user := r.user, pass := r.pass));
  }

  lemma RandomXIsNotRiecoin()
    ensures !IsRiecoin(RANDOMX)
  {
    assert Lower(RANDOMX)[1] == 'x' && "riecoin"[1] == 'i' && "ric"[1] == 'i' && "riecoin/ric"[1] == 'i';
  }

  /** The fee process never hands over to rieMiner, for all routes and whatever configuration files exist. */
  lemma FeeProcessDoesNotDispatch(r: FeeRoute, file: string -> Option<Pool>)
    ensures !Dispatches(FeeArgs(r), file)
  {
    FeeArgsAreRead(r);
    RandomXIsNotRiecoin();
  }

  /** What the start of the program makes of a command line. */
  datatype Mode = AutoMode | Refused | RiecoinMode | Mining

  function Startup(atoi: string -> int, args: seq<string>, file: string -> Option<Pool>): Mode {
    match AutoArgs.Decide(atoi, args)
    case Supervise(_) => AutoMode
    case Refuse => Refused
    case NotAuto => if Dispatches(args, file) then RiecoinMode else Mining
  }

  /** The fee process never becomes a supervisor of either kind. It mines exactly when no value of the
      route begins with `--auto`, and otherwise refuses its command line. */
  lemma FeeProcessMinesIff(atoi: string -> int, r: FeeRoute, file: string -> Option<Pool>)
    ensures Startup(atoi, FeeArgs(r), file) ==
            if ValueLooksAuto(r) then Refused else Mining
  {
    FeeProcessDoesNotDispatch(r, file);
    FeeArgsAreNotAuto(atoi, r);
    RefusedIff(r);
    assert AutoArgs.Decide(atoi, FeeArgs(r)) == if exists a :: a in FeeArgs(r) && AutoArgs.AUTO <= a then AutoArgs.Refuse else AutoArgs.NotAuto;
  }

  lemma FeeArgsAreNotAuto(atoi: string -> int, r: FeeRoute)
    ensures AutoArgs.Parse(atoi, FeeArgs(r), AutoArgs.Parsed(0, AutoArgs.DEFAULT_HOST, [])).port == 0
  {
    var onLine := AutoArgs.Route(RANDOMX, r.hostPort, r.user, Password(r), r.tls);
    var tail: seq<string> := if r.tls then ["--tls"] else [];
    var start := AutoArgs.Parsed(0, AutoArgs.DEFAULT_HOST, []);
    AutoArgs.LongerThanFlags("--tls");
    AutoArgs.PoolArgsVanish(atoi, onLine, tail, start);
    AutoArgs.PlainPasses(atoi, tail, start);
    assert FeeArgs(r) == AutoArgs.PoolArgs(onLine) + tail;
  }

  predicate ValueLooksAuto(r: FeeRoute) {
    AutoArgs.AUTO <= r.hostPort || AutoArgs.AUTO <= r.user || AutoArgs.AUTO <= Password(r)
  }

  lemma RefusedIff(r: FeeRoute)
    ensures (exists a :: a in FeeArgs(r) && AutoArgs.AUTO <= a) <==> ValueLooksAuto(r)
  {
    var all := FeeArgs(r);
    assert |AutoArgs.AUTO| == 6;
    assert all[3] == r.hostPort && all[5] == r.user && all[7] == Password(r);
    assert r.hostPort in all && r.user in all && Password(r) in all;
    AutoArgs.LongerThanFlags("--tls");
    forall a | a in all && AutoArgs.AUTO <= a ensures a == r.hostPort || a == r.user || a == Password(r) {
      assert a in ["-a", RANDOMX, "-o", r.hostPort, "-u", r.user, "-p", Password(r)] || a == "--tls";
    }
  }

  /** rieMiner's command and the fee command are never the same, wherever the two programs are. */
  lemma CommandsDiffer(rieMiner: string, conf: string, self: string, r: FeeRoute)
    ensures Processes.Command(rieMiner, [conf]) != Processes.Command(self, FeeArgs(r))
  {
    assert |FeeArgs(r)| >= 8;
  }
}
