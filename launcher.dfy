/** The controller's launch side in src/cs-trace.c: the exec environment
    `child()` assembles, the rules `main` applies to each option getopt_long
    hands it, the check for the `--` separator, and the order of `main`'s
    early exits before it forks into `child()` and `parent()`.

    `append_string` (defined in a utility file that is not part of this
    model) is taken to be plain concatenation, written `+`. */
module Launcher {
  import opened Posix
  import Tracing

  const LD_PRELOAD_PREFIX: string := "LD_PRELOAD="
  const LD_LIBRARY_PATH_PREFIX: string := "LD_LIBRARY_PATH="

  // ----- The exec environment -----

  /** The value `child()` gives `LD_PRELOAD`: the prefix, then the text of
      CS_LD_PRELOAD if it is set, then the fork-server library path unless
      CS_NO_LD_FORKSRV is set. */
  function PreloadEntry(env: Env, forksrvPath: string): (r: string)
    ensures var user := Getenv(env, "CS_LD_PRELOAD").GetOr("");
            && |r| >= |LD_PRELOAD_PREFIX| + |user|
            && r[..|LD_PRELOAD_PREFIX|] == LD_PRELOAD_PREFIX
            && r[|LD_PRELOAD_PREFIX|..|LD_PRELOAD_PREFIX| + |user|] == user
            && r[|LD_PRELOAD_PREFIX| + |user|..] == if "CS_NO_LD_FORKSRV" in env then "" else forksrvPath
  {
    var withUser := if "CS_LD_PRELOAD" in env then LD_PRELOAD_PREFIX + env["CS_LD_PRELOAD"] else LD_PRELOAD_PREFIX;
    if "CS_NO_LD_FORKSRV" in env then withUser else withUser + forksrvPath
  }

  /** The library-path step as written: the source guards it with a test of
      the literal prefix, which is never null, so the append always happens
      and is handed the result of getenv("CS_LD_LIBRARY_PATH") even when that
      is null. `None` stands for such a call with a null argument. */
  function LibraryPathAsWritten(env: Env): (r: Option<string>)
    ensures r.None? <==> "CS_LD_LIBRARY_PATH" !in env
    ensures r.Some? ==> |r.value| >= |LD_LIBRARY_PATH_PREFIX| && r.value[..|LD_LIBRARY_PATH_PREFIX|] == LD_LIBRARY_PATH_PREFIX
  {
    match Getenv(env, "CS_LD_LIBRARY_PATH")
    case Some(path) => Some(LD_LIBRARY_PATH_PREFIX + path)
    case None => None
  }

  /** The guard as evidently intended: append CS_LD_LIBRARY_PATH only if it
      is set, as the preload step does with CS_LD_PRELOAD. */
  function LibraryPathEntry(env: Env): (r: string)
    ensures |r| >= |LD_LIBRARY_PATH_PREFIX|
    ensures r[..|LD_LIBRARY_PATH_PREFIX|] == LD_LIBRARY_PATH_PREFIX
    ensures r[|LD_LIBRARY_PATH_PREFIX|..] == Getenv(env, "CS_LD_LIBRARY_PATH").GetOr("")
  {
    if "CS_LD_LIBRARY_PATH" in env then LD_LIBRARY_PATH_PREFIX + env["CS_LD_LIBRARY_PATH"] else LD_LIBRARY_PATH_PREFIX
  }

  /** With CS_LD_LIBRARY_PATH unset, the code as written hands the append a
      null string, while the intended entry is the bare prefix. */
  lemma LibraryPathNullWhenUnset()
    ensures LibraryPathAsWritten(map[]) == None
    ensures LibraryPathEntry(map[]) == LD_LIBRARY_PATH_PREFIX
  {
  }

  /** Where the variable is set, the corrected entry is what the code as
      written computes. */
  lemma LibraryPathAgrees(env: Env)
    ensures LibraryPathAsWritten(env).Some? ==> LibraryPathAsWritten(env).value == LibraryPathEntry(env)
    ensures LibraryPathAsWritten(env).None? <==> "CS_LD_LIBRARY_PATH" !in env
  {
  }

  /** What the child process asks of the OS. */
  datatype ChildCall =
    | TraceMe                                                  // ptrace(PTRACE_TRACEME, ...)
    | Exec(path: string, args: seq<string>, envp: seq<string>) // execve(argv[0], argv, envp)

  datatype ChildEnd =
    | Execed             // execve replaced the process image
    | ChildExit(code: int)

  /** `child(argv)`; `execOk` says whether execve succeeds. A failing
      PTRACE_TRACEME only prints, so its result is not an input. */
  method Child(argv: seq<string>, env: Env, forksrvPath: string, execOk: bool)
    returns (calls: seq<ChildCall>, end: ChildEnd)
    requires |argv| >= 1
    ensures |calls| == 2 && calls[0] == TraceMe && calls[1].Exec?
    ensures calls[1].path == argv[0] && calls[1].args == argv
    ensures calls[1].envp == [PreloadEntry(env, forksrvPath), LibraryPathEntry(env)]
    ensures end == if execOk then Execed else ChildExit(EXIT_FAILURE)
  {
    calls := [TraceMe];
    var ldPreload := LD_PRELOAD_PREFIX;
    var ldLibraryPath := LD_LIBRARY_PATH_PREFIX;
    var csLdPreload := Getenv(env, "CS_LD_PRELOAD");
    var csLdLibPath := Getenv(env, "CS_LD_LIBRARY_PATH");
    var ldNoForksrv := Getenv(env, "CS_NO_LD_FORKSRV");
    if csLdPreload.Some? {
      ldPreload := ldPreload + csLdPreload.value;
    }
    if csLdLibPath.Some? {
      ldLibraryPath := ldLibraryPath + csLdLibPath.value;
    }
    if ldNoForksrv.None? {
      ldPreload := ldPreload + forksrvPath;
    }
    var envp := [ldPreload, ldLibraryPath];
    calls := calls + [Exec(argv[0], argv, envp)];
    if execOk {
      end := Execed;
    } else {
      end := ChildExit(EXIT_FAILURE);
    }
  }

  // ----- Options -----

  datatype CovType = EdgeCov | PathCov

  /** The `-d` argument to coverage type; anything but the two names is
      refused. */
  function DecodingMode(arg: string): (r: Option<CovType>)
    ensures r == Some(EdgeCov) <==> arg == "edge"
    ensures r == Some(PathCov) <==> arg == "path"
    ensures r == None <==> arg != "edge" && arg != "path"
  {
    if arg == "edge" then Some(EdgeCov)
    else if arg == "path" then Some(PathCov)
    else None
  }

  /** The name `-d` accepts for each coverage type. */
  function CovName(t: CovType): string {
    match t
    case EdgeCov => "edge"
    case PathCov => "path"
  }

  lemma DecodingRoundTrip(t: CovType, arg: string)
    ensures DecodingMode(CovName(t)) == Some(t)
    ensures DecodingMode(arg).Some? ==> CovName(DecodingMode(arg).value) == arg
  {
  }

  /** One value getopt_long returns, with its argument. The numeric
      arguments are given after atoi. */
  datatype Opt =
    | OptBoard(name: string)        // -b, --board
    | OptCpu(cpu: int)              // -c, --cpu
    | OptDecoding(arg: string)      // -d, --decoding
    | OptExport                     // -e, --export
    | OptUdmabuf(num: int)          // -u, --udmabuf
    | OptVerbose(level: Option<int>) // -v, --verbose[=INT]
    | OptHelp                       // -h, --help
    | OptOther                      // anything else getopt_long reports

  /** The globals the option loop sets. */
  datatype Config = Config(board: string, cpu: int, covType: CovType, decodingOn: bool,
                           exportConfig: bool, udmabufNum: int, verbosity: int)

  /** The settings after some options, and the exit code if one of them ends
      the process. */
  datatype Parsed = Parsed(cfg: Config, exit: Option<int>)

  /** What the switch in `main` does with one option. */
  function ApplyOption(c: Config, o: Opt): Parsed {
    match o
    case OptBoard(name) => Parsed(c.(board := name), None)
    case OptCpu(n) => Parsed(c.(cpu := n), None)
    case OptDecoding(arg) =>
      (match DecodingMode(arg)
       case Some(t) => Parsed(c.(covType := t, decodingOn := true), None)
       case None => Parsed(c, Some(EXIT_FAILURE)))
    case OptExport => Parsed(c.(exportConfig := true), None)
    case OptUdmabuf(n) => Parsed(c.(udmabufNum := n), None)
    case OptVerbose(level) => Parsed(c.(verbosity := level.GetOr(1)), None)
    case OptHelp => Parsed(c, Some(EXIT_SUCCESS))
    case OptOther => Parsed(c, None)
  }

  /** The option loop on `opts`, stopping at the first option that exits. */
  function ApplyAll(c: Config, opts: seq<Opt>): Parsed
    decreases |opts|
  {
    if opts == [] then Parsed(c, None)
    else
      var r := ApplyOption(c, opts[0]);
      if r.exit.Some? then r else ApplyAll(r.cfg, opts[1..])
  }

  /** An option that ends the process: help, or a refused `-d` argument. */
  predicate Stops(o: Opt) {
    o.OptHelp? || (o.OptDecoding? && DecodingMode(o.arg).None?)
  }

  function FirstStop(opts: seq<Opt>): (k: nat)
    ensures k <= |opts|
    ensures forall j :: 0 <= j < k ==> !Stops(opts[j])
    ensures k < |opts| ==> Stops(opts[k])
  {
    if opts == [] then 0
    else if Stops(opts[0]) then 0
    else 1 + FirstStop(opts[1..])
  }

  /** The loop exits exactly when some option stops it: with success for
      help and with failure for a refused `-d` argument, whichever comes
      first, and the options after that one are not applied. */
  lemma {:induction false} ApplyAllExit(c: Config, opts: seq<Opt>)
    ensures var k := FirstStop(opts);
            && (ApplyAll(c, opts).exit.Some? <==> k < |opts|)
            && (k < |opts| ==> ApplyAll(c, opts).exit == Some(if opts[k].OptHelp? then EXIT_SUCCESS else EXIT_FAILURE))
            && (k < |opts| ==> ApplyAll(c, opts).cfg == ApplyAll(c, opts[..k]).cfg)
    decreases |opts|
  {
    if opts != [] && !Stops(opts[0]) {
      var k := FirstStop(opts);
      ApplyAllExit(ApplyOption(c, opts[0]).cfg, opts[1..]);
      assert opts[..k][1..] == opts[1..][..k - 1];
    }
  }

  /** Applying one more option after a run that did not exit. */
  lemma {:induction false} ApplyAllSnoc(c: Config, opts: seq<Opt>, o: Opt)
    requires ApplyAll(c, opts).exit.None?
    ensures ApplyAll(c, opts + [o]) == ApplyOption(ApplyAll(c, opts).cfg, o)
    decreases |opts|
  {
    if opts == [] {
      assert [o][1..] == [];
    } else {
      assert (opts + [o])[1..] == opts[1..] + [o];
      ApplyAllSnoc(ApplyOption(c, opts[0]).cfg, opts[1..], o);
    }
  }

  /** The verbosity the last `-v` sets (1 when it has no argument), or
      `initial` if there is none. */
  function LastVerbosity(opts: seq<Opt>, initial: int): int
    decreases |opts|
  {
    if opts == [] then initial
    else if opts[|opts| - 1].OptVerbose? then opts[|opts| - 1].level.GetOr(1)
    else LastVerbosity(opts[..|opts| - 1], initial)
  }

  /** The coverage type the last accepted `-d` names, or `initial`. */
  function LastCovType(opts: seq<Opt>, initial: CovType): CovType
    decreases |opts|
  {
    if opts == [] then initial
    else
      var o := opts[|opts| - 1];
      if o.OptDecoding? && DecodingMode(o.arg).Some? then DecodingMode(o.arg).value
      else LastCovType(opts[..|opts| - 1], initial)
  }

  /** If the whole loop runs without exiting, so does every prefix of it. */
  lemma PrefixRuns(c: Config, opts: seq<Opt>, n: nat)
    requires ApplyAll(c, opts).exit.None? && n <= |opts|
    ensures ApplyAll(c, opts[..n]).exit.None?
  {
    ApplyAllExit(c, opts);
    ApplyAllExit(c, opts[..n]);
  }

  /** After a loop that did not exit, the verbosity is the last `-v`'s, the
      coverage type the last `-d`'s, and decoding is on exactly when it was
      already on or some `-d` was given. */
  lemma {:induction false} ApplyAllSettings(c: Config, opts: seq<Opt>)
    requires ApplyAll(c, opts).exit.None?
    ensures ApplyAll(c, opts).cfg.verbosity == LastVerbosity(opts, c.verbosity)
    ensures ApplyAll(c, opts).cfg.covType == LastCovType(opts, c.covType)
    ensures ApplyAll(c, opts).cfg.decodingOn <==> c.decodingOn || exists i :: 0 <= i < |opts| && opts[i].OptDecoding?
    decreases |opts|
  {
    if opts != [] {
      var init := opts[..|opts| - 1];
      var o := opts[|opts| - 1];
      assert opts == init + [o];
      PrefixRuns(c, opts, |opts| - 1);
      ApplyAllSnoc(c, init, o);
      ApplyAllSettings(c, init);
      if c.decodingOn || exists i :: 0 <= i < |opts| && opts[i].OptDecoding? {
        if !c.decodingOn && !o.OptDecoding? {
          var i :| 0 <= i < |opts| && opts[i].OptDecoding?;
          assert init[i].OptDecoding?;
        }
      } else {
        assert forall i :: 0 <= i < |init| ==> init[i] == opts[i];
      }
    }
  }

  /** The globals `main` keeps its settings in. */
  class Settings {
    var board: string
    var cpu: int
    var covType: CovType
    var decodingOn: bool
    var exportConfig: bool
    var udmabufNum: int
    var verbosity: int

    function Snapshot(): Config
      reads this
    {
      Config(board, cpu, covType, decodingOn, exportConfig, udmabufNum, verbosity)
    }

    constructor (initial: Config)
      ensures Snapshot() == initial
    {
      board := initial.board;
      cpu := initial.cpu;
      covType := initial.covType;
      decodingOn := initial.decodingOn;
      exportConfig := initial.exportConfig;
      udmabufNum := initial.udmabufNum;
      verbosity := initial.verbosity;
    }

    /** The getopt_long loop of `main` over the options it returns. */
    method ParseOptions(opts: seq<Opt>) returns (exit: Option<int>)
      modifies this
      ensures Snapshot() == ApplyAll(old(Snapshot()), opts).cfg
      ensures exit == ApplyAll(old(Snapshot()), opts).exit
    {
      var i := 0;
      exit := None;
      while i < |opts|
        invariant 0 <= i <= |opts|
        invariant ApplyAll(old(Snapshot()), opts) == ApplyAll(Snapshot(), opts[i..])
      {
        assert opts[i..][1..] == opts[i + 1..];
        match opts[i] {
        case OptBoard(name) => board := name;
        case OptCpu(n) => cpu := n;
        case OptDecoding(arg) =>
          if arg == "edge" {
            covType := EdgeCov;
          } else if arg == "path" {
            covType := PathCov;
          } else {
            exit := Some(EXIT_FAILURE);
            return;
          }
          decodingOn := true;
        case OptExport => exportConfig := true;
        case OptUdmabuf(n) => udmabufNum := n;
        case OptVerbose(level) =>
          if level.Some? {
            verbosity := level.value;
          } else {
            verbosity := 1;
          }
        case OptHelp =>
          exit := Some(EXIT_SUCCESS);
          return;
        case OptOther =>
        }
        i := i + 1;
      }
    }
  }

  // ----- The separator and the launch -----

  /** The target's argument vector, `&argv[optind]`, if an argument follows
      optind and the one just before it is `--`; getopt_long leaves optind
      at least 1. */
  function TargetArgs(argv: seq<string>, optind: nat): (r: Option<seq<string>>)
    requires optind >= 1
    ensures r.Some? <==> |argv| > optind && argv[optind - 1] == "--"
    ensures r.Some? ==> |r.value| >= 1 && argv[..optind] + r.value == argv
  {
    if |argv| <= optind || argv[optind - 1] != "--" then None else Some(argv[optind..])
  }

  /** Options, the separator and a target give back the target. */
  lemma TargetAfterSeparator(options: seq<string>, target: seq<string>)
    requires |target| >= 1
    ensures TargetArgs(options + ["--"] + target, |options| + 1) == Some(target)
  {
    var argv := options + ["--"] + target;
    assert argv[|options|] == "--";
    assert argv[|options| + 1..] == target;
  }

  /** What `main` cannot see of its surroundings: whether libforksrv.so is
      found, the effective uid, whether the u-dma-buf module is loaded, the
      environment, the resolved library path, what fork returns, getpid(),
      the wait statuses the traced child produces, and whether exec
      succeeds. */
  datatype Host = Host(forksrvFound: bool, euid: int, udmabufLoaded: bool, env: Env,
                       forksrvPath: string, forkRet: int, self: int,
                       statuses: seq<WaitStatus>, execOk: bool)

  /** How a run of `main` ends, from the point of view of each process it
      leaves. On the parent side, `main` returns 0 after the loop finishes
      and `wait(NULL)` returns; while the tracing loop waits, it has not
      returned. */
  datatype Launch =
    | MainReturned(code: int)
    | MainExited(code: int)
    | ChildSide(calls: seq<ChildCall>, end: ChildEnd)
    | ParentSide(session: Tracing.Session, returned: Option<int>)

  /** `main(argc, argv)`, given the options getopt_long returns and the
      optind it leaves. */
  method ControllerMain(settings: Settings, argv: seq<string>, opts: seq<Opt>, optind: nat, host: Host)
    returns (run: Launch)
    requires optind >= 1
    modifies settings
    ensures !host.forksrvFound ==> run == MainReturned(-1)
    ensures host.forksrvFound && (host.euid != 0 || !host.udmabufLoaded) ==> run == MainExited(EXIT_FAILURE)
    ensures host.forksrvFound && host.euid == 0 && host.udmabufLoaded && |argv| < 3 ==> run == MainExited(EXIT_SUCCESS)
    ensures var preflight := host.forksrvFound && host.euid == 0 && host.udmabufLoaded && |argv| >= 3;
            var parsed := ApplyAll(old(settings.Snapshot()).(verbosity := 0), opts);
            && settings.Snapshot() == (if preflight then parsed.cfg else old(settings.Snapshot()).(verbosity := 0))
            && (preflight && parsed.exit.Some? ==> run == MainExited(parsed.exit.value))
            && (preflight && parsed.exit.None? && TargetArgs(argv, optind).None? ==> run == MainExited(EXIT_FAILURE))
            && (preflight && parsed.exit.None? && TargetArgs(argv, optind).Some? ==>
                  match host.forkRet
                  case 0 => run.ChildSide? && run.calls == [TraceMe, Exec(argv[optind], argv[optind..],
                              [PreloadEntry(host.env, host.forksrvPath), LibraryPathEntry(host.env)])]
                            && run.end == (if host.execOk then Execed else ChildExit(EXIT_FAILURE))
                  case -1 => run == MainExited(EXIT_FAILURE)
                  case _ => run.ParentSide?
                            && run.session == Tracing.Supervise(host.self, host.forkRet, host.statuses)
                            && (run.returned.Some? <==> run.session.end.Finished?)
                            && (run.returned.Some? ==> run.returned.value == 0))
  {
    settings.verbosity := 0;
    if !host.forksrvFound {
      return MainReturned(-1);
    }
    if host.euid != 0 {
      return MainExited(EXIT_FAILURE);
    }
    if !host.udmabufLoaded {
      return MainExited(EXIT_FAILURE);
    }
    if |argv| < 3 {
      return MainExited(EXIT_SUCCESS);
    }
    var stop := settings.ParseOptions(opts);
    if stop.Some? {
      return MainExited(stop.value);
    }
    var target := TargetArgs(argv, optind);
    if target.None? {
      return MainExited(EXIT_FAILURE);
    }
    var pid := host.forkRet;
    if pid == 0 {
      var calls, end := Child(target.value, host.env, host.forksrvPath, host.execOk);
      return ChildSide(calls, end);
    } else if pid == -1 {
      return MainExited(EXIT_FAILURE);
    }
    var calls, end, _ := Tracing.Parent(host.self, pid, host.statuses, false);
    if end.Finished? {
      return ParentSide(Tracing.Session(calls, end), Some(0));
    }
    return ParentSide(Tracing.Session(calls, end), None);
  }
}
