# coresight-trace: fork server and tracing controller, in Dafny

This project models the two sequential state machines at the core of
coresight-trace. Each is driven by the results of the OS calls it makes, so
each becomes a deterministic function of those results.

- **The fork server** (`libforksrv/libforksrv.c`) runs inside the target
  through a `__libc_start_main` hook.
  - It sets SIGTERM as its parent-death signal.
  - It writes a four-byte all-zero handshake on fd 196.
  - It then loops: read a four-byte go token on fd 195, fork, and write the
    child's pid on fd 196.
  - It waits for the child to be continued. A child that never resumes has
    its one status relayed.
  - Otherwise it relays every status the child reports, until one is not a
    SIGSTOP stop.
  - Every failing call ends the server with its own `_exit` code: -1, 1, 4,
    5, 6, 7, 8 or 9.
  - The forked child does four things and returns into the target:
    1. sets SIGCONT as its death signal;
    2. stops itself;
    3. closes fd 195;
    4. closes fd 196.
- **The tracing controller** (`src/cs-trace.c`):
  - `main` validates its preconditions and options.
  - It forks.
    - The child runs `child()`: it asks to be traced and execs the target with
      an environment of exactly two entries, `LD_PRELOAD` and
      `LD_LIBRARY_PATH`.
    - The parent runs `parent()`: it waits on the child, attaches the tracer on
      the vfork-done stop, and calls the tracer's suspend/resume hook on each
      SIGSTOP stop. On the child's exit it disarms and finalizes the tracer.

How OS calls are modelled:

- The replies to the fork server's blocking calls (`read`, `write`, `fork`,
  `waitpid`) are an input sequence. The run is the log of the calls that
  completed, plus how the run ended:
  - an exit code;
  - blocked, meaning the replies ran out while the call was waiting;
  - returned, meaning the run went back into the target.
- `parent()` takes as input the successive values its `wstatus` holds.
- `main` takes the options `getopt_long` returns, the final `optind`, and a
  record of what it learns from its host.
- Wait statuses are the tagged datatype
  `Exited(code) | Signaled(sig) | Stopped(sig) | Continued`. The bit encoding
  is not modelled.

The design description and the code disagree in two places; the model
follows the code:

- The user's `CS_LD_PRELOAD` text comes *before* the fork-server library in
  `LD_PRELOAD`, not after it.
- With `argc < 3`, `main` prints usage and exits *successfully*, although
  malformed usage is otherwise meant to be fatal.

Other facts the model makes explicit:

- In `main`, the `argc <= optind` test comes before `argv[optind - 1]` is read.
  `TargetArgs` keeps that order, so it needs no bound on `optind` beyond
  `optind >= 1`.
- `PTRACE_EVENT_VFORK_DONE` is 5, which is also SIGTRAP's number. `parent()`
  compares it with `WSTOPSIG`, so a plain SIGTRAP stop also starts the
  attach.
- The monitoring loop ends only on `WIFEXITED`. A child killed by a signal
  never ends it: `WatchEnds` shows the loop is still waiting after any number
  of `Signaled` statuses.
- `parent()` ignores waitpid's return value. A failed wait leaves `wstatus`
  unchanged, so it appears in the input as the previous status repeated.

Module layout:

- `posix.dfy` (`Posix`): wait statuses, signal numbers, exit codes, the
  environment and `Getenv`.
- `forkserver.dfy` (`ForkServer`):
  - The step function `Transition`, the whole run `Serve`, and the
    reachable-history invariant `Reached`.
  - The loops as the source writes them, proved equal to `Serve`:
    `StartForkserver`, `Generation`, `MonitorChild`.
  - The hook `LibcStartMain`.
- `tracing.dfy` (`Tracing`): `parent()` as the method `Parent`, proved equal
  to the specification function `Supervise`, and the counting lemmas.
- `launcher.dfy` (`Launcher`):
  - `child()` and the environment entries.
  - The option rules (`ApplyOption`/`ApplyAll`) and the getopt loop over the
    `Settings` globals.
  - The `--` check, and `main` as `ControllerMain`.

## Model

| member | source | states |
|---|---|---|
| ForkServer.StartForkserver | libforksrv/libforksrv.c:18-79 | the server's log and end are exactly those of `Serve` on the same replies: the death signal set, the handshake written, then the outer loop one blocking call per reply |
| ForkServer.Generation | libforksrv/libforksrv.c:34-63 | after a go token: fork (exit 4 on failure, the child branch on 0), write the pid (exit 5), wait for the continued state (exit 6), and for a child that did not resume relay its status once (exit 7) and return to the token read; all as `Run` from `Spawn` |
| ForkServer.MonitorChild | libforksrv/libforksrv.c:64-77 | the inner loop waits (exit 8) and relays (exit 9) each status and stays in the loop exactly on a SIGSTOP stop, as `Run` from `AwaitStop` |
| ForkServer.ServeSound | libforksrv/libforksrv.c:18-79 | every run keeps the reachable-history invariant; a blocked run waits in the call its history predicts; an exit code is exactly the code of the call that failed, with no call logged after the failure |
| ForkServer.ServeOrdered | libforksrv/libforksrv.c:18-79 | every run's calls follow the protocol order relation `Follows`/`Settles` |
| ForkServer.HandshakeFirst | libforksrv/libforksrv.c:22-27 | the first call sets SIGTERM as death signal; a short handshake write exits with -1 and nothing else logged; otherwise the handshake is the second call and is never written again |
| ForkServer.TokensMatchPids | libforksrv/libforksrv.c:29-51 | when blocked on the next token read, pids written = successful forks = tokens read; at any other point they differ by at most the one generation under way |
| ForkServer.UnresumedRelayedOnce | libforksrv/libforksrv.c:54-62 | a child whose WCONTINUED wait reports anything but continued has that status relayed once and the next call is the token read, never the inner loop |
| ForkServer.InnerLoopRelays | libforksrv/libforksrv.c:64-77 | every status the inner wait sees is relayed next; after a SIGSTOP stop the server waits on the same child again, after any other status it reads a token |
| ForkServer.OnlyChildReturns | libforksrv/libforksrv.c:38-47 | a run returns into the target iff fork returned 0 to it; then its last calls are set death signal SIGCONT, raise SIGSTOP, close 195, close 196, and no earlier fork returned 0 |
| ForkServer.LibcStartMain | libforksrv/libforksrv.c:98-106 | with CS_FORKSERVER unset: one SIGSTOP, then the real start routine; with it set: the server's run, and the real start routine is reached iff that run is a forked child |
| Tracing.Parent | src/cs-trace.c:93-120 | the calls and outcome are exactly `Supervise` on the wait statuses; a finished loop ends on an exited status, which is stored for a non-null `child_status` |
| Tracing.SuperviseAttach | src/cs-trace.c:97-104 | the calls start with wait, CONT, wait, init_trace(getpid(), pid), start_trace(pid, true), CONT iff the first status is a stop by signal number PTRACE_EVENT_VFORK_DONE (and a second wait returned) |
| Tracing.SuperviseArms | src/cs-trace.c:97-104 | init_trace and start_trace once each and CONT twice on an attach; without one, no CONT, init_trace or start_trace at all |
| Tracing.WatchNeverArms | src/cs-trace.c:106-115 | the monitoring loop never issues CONT, init_trace or start_trace |
| Tracing.WatchEnds | src/cs-trace.c:106-111 | the loop finishes iff the statuses contain an exited one, and then on the first of them |
| Tracing.WatchWaits | src/cs-trace.c:106-107 | one wait per status up to and including the first exited one |
| Tracing.WatchCallbacks | src/cs-trace.c:112-114 | the suspend/resume callback count equals the number of SIGSTOP stops before the first exit |
| Tracing.WatchDisarms | src/cs-trace.c:108-111 | stop_trace(true) and fini_trace() once each if the loop finishes, never otherwise |
| Tracing.WatchDisarmsLast | src/cs-trace.c:108-111 | a finished loop's last two calls are stop_trace(true) then fini_trace() |
| Tracing.SuperviseEnds | src/cs-trace.c:106-111 | a whole run finishes iff the statuses after the attach step contain an exited one, on the first of them, with stop_trace and fini_trace once each whether or not the tracer was armed |
| Tracing.SuperviseDisarmsLast | src/cs-trace.c:108-111 | a finished run ends with stop_trace(true), fini_trace() |
| Tracing.SuperviseCallbacks | src/cs-trace.c:112-114 | over a whole run, one callback per SIGSTOP stop the loop sees before the exit |
| Launcher.PreloadEntry | src/cs-trace.c:60-76 | the preload entry is `LD_PRELOAD=`, then CS_LD_PRELOAD's text if set, then the fork-server path iff CS_NO_LD_FORKSRV is unset, and nothing else |
| Launcher.LibraryPathAsWritten | src/cs-trace.c:70-72 | as written, the append is reached with a null string exactly when CS_LD_LIBRARY_PATH is unset |
| Launcher.LibraryPathNullWhenUnset | src/cs-trace.c:70-72 | with an empty environment the code as written appends a null string where the intended entry is the bare prefix |
| Launcher.LibraryPathEntry | src/cs-trace.c:61-72 | the library-path entry is `LD_LIBRARY_PATH=` followed by CS_LD_LIBRARY_PATH's text, or by nothing when it is unset |
| Launcher.LibraryPathAgrees | src/cs-trace.c:70-72 | wherever the code as written is defined it computes the corrected entry |
| Launcher.Child | src/cs-trace.c:51-91 | PTRACE_TRACEME, then execve(argv[0], argv, envp) with envp exactly [preload entry, library-path entry]; a failed exec exits with EXIT_FAILURE |
| Launcher.DecodingMode | src/cs-trace.c:199-207 | `-d` maps `edge` to edge coverage and `path` to path coverage, and refuses every other argument |
| Launcher.DecodingRoundTrip | src/cs-trace.c:199-204 | the mode names and `DecodingMode` are inverse on the accepted arguments |
| Launcher.ApplyAllExit | src/cs-trace.c:190-230 | the option loop exits iff some option is help or a refused `-d`; the first of them decides the code (EXIT_SUCCESS for help, EXIT_FAILURE otherwise) and later options are not applied |
| Launcher.ApplyAllSettings | src/cs-trace.c:196-222 | after a loop that did not exit, verbosity is the last `-v`'s (1 without an argument), the coverage type the last `-d`'s, and decoding is on iff it was or some `-d` was given |
| Launcher.Settings.ParseOptions | src/cs-trace.c:190-230 | the getopt loop leaves the globals as `ApplyAll` and returns its exit code |
| Launcher.TargetArgs | src/cs-trace.c:232-237 | the target's argument vector exists iff argc > optind and argv[optind - 1] is `--`, and is then the non-empty rest of argv |
| Launcher.TargetAfterSeparator | src/cs-trace.c:232-237 | options, `--` and a non-empty target give back exactly that target |
| Launcher.ControllerMain | src/cs-trace.c:165-258 | the early exits come in source order (missing libforksrv returns -1; non-root and missing u-dma-buf exit 1; argc < 3 exits 0), then the options, the separator check (exit 1) and fork: 0 runs `child`, -1 exits 1, any other pid runs `parent` and returns 0 once it finishes |

## Left out

- The semantics of `fork`, `waitpid`, `ptrace`, `execve`, `prctl`, `raise`,
  `close`, `read` and `write`. Each blocking call's result is an input. Calls
  whose result the source ignores (`prctl`, `raise`, `close`, `ptrace`,
  `init_trace` and the other tracer calls) are logged without a result.
- The bytes a short write puts on the channel, and the bit layout of wait
  statuses. A relay carries the tagged status.
- The two processes as a concurrent system. `parent()` and the fork server are
  modelled separately, and nothing ties the statuses one sees to the replies
  the other gets.
- `__libc_start_main`'s `dlsym(RTLD_NEXT)` lookup and its failure exit
  (libforksrv/libforksrv.c:91-95). These are dynamic-linker behaviour.
- What the original start routine does. The model ends there with `TargetMain`.
- `usage`, `printf`, `fprintf` and `perror` output.
- `getopt_long`'s argument permutation and `optind` computation, and `atoi`.
  The options are given already decoded, with numbers as integers.
- `get_libforksrv_path`, `access`, `geteuid` and `check_udmabuf`. They are
  fields of `Host`.
- `append_string`, which is not part of this model. It is taken to be plain
  concatenation, so the two preload paths are joined with no separator.
- The internals of the tracer library.
- The result of `wait(NULL)` after `parent()`.
- `trace_bitmap_size` and the extern settings' initial values, which are
  defined outside these files. The initial values are the `Settings`
  constructor's argument.
- The `!argvp` test (src/cs-trace.c:238-241). `&argv[optind]` is never null,
  so the branch cannot be taken.
- Launcher.Child: builds `LD_LIBRARY_PATH` with the corrected guard
  (`LibraryPathEntry`). The code as written is `LibraryPathAsWritten`; see
  Findings.
- ForkServer.LibcStartMain: keeps `_exit(-1)` as the code -1. A waiting parent
  would observe 255.
- Tracing.Parent: a `waitpid` that fails is represented by a repeated status,
  not by a failure result.

## Findings

| source | as written | input that shows it | evidently intended | confidence | as-written member | corrected member |
|---|---|---|---|---|---|---|
| src/cs-trace.c:70-72 | the guard tests `ld_library_path`, the literal `LD_LIBRARY_PATH=` prefix, which is never null. So `append_string` always runs and is passed `cs_ld_lib_path` even when getenv returned null | an environment without CS_LD_LIBRARY_PATH | test `cs_ld_lib_path`, as lines 67-69 do for CS_LD_PRELOAD, leaving the entry as the bare prefix when the variable is unset | medium (depends on `append_string`, which is not part of this model); not executed | Launcher.LibraryPathAsWritten, Launcher.LibraryPathNullWhenUnset | Launcher.LibraryPathEntry, Launcher.LibraryPathAgrees |
