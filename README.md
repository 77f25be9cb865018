# Saturn executor launcher, modelled in Dafny

This project models the launcher of the Saturn job executor: the entry
class `Main` of saturn-executor and the loader search in
`ClassLoaderUtils` of saturn-core.

The launcher does four things:

- It parses command-line options into four fields (`namespace`,
  `executorName`, `saturnLibDir`, `appLibDir`) and two system properties.
- It builds the class-loader domains: one executor loader over the runtime
  library, and one loader per entry of the application library.
- It hands off to the executor runtime by reflection, with the executor
  loader as the thread's context class loader.
- On shutdown it closes the loaders it built itself.

`ClassLoaderUtils.findClassLoader` returns the first loader in a list that
can load a named class.

## Files and modules

| file | module | models |
|---|---|---|
| common.dfy | `Common`, `JavaString` | null as `Option`, exceptions as `Outcome`/`Result`; `String.trim` and `isBlank` |
| files.dfy | `Files` | the file tree and `getUrls` |
| arguments.dfy | `Arguments` | the specification of `parseArgs`, `obtainParam` and `validateMandatoryParameters` |
| runtime.dfy | `Runtime` | the process around the launcher (class `Jvm`) |
| domains.dfy | `Domains` | which job loaders `setJobClassLoader` builds and which loaders `closeClassLoader` closes |
| launcher.dfy | `Launch` | class `Launcher`: the fields and methods of `Main` |
| classloaderutils.dfy | `ClassLoaderUtils` | both `findClassLoader` overloads |

### The process around the launcher (class `Jvm`)

Class loaders are opaque ids (`LoaderId`). `Jvm` holds the following:

- the file tree;
- the thread's context class loader (`contextLoader`);
- the system properties;
- the loaders built so far and how each was built (`created`), and the next
  free id;
- which loaders are `Closeable`, and which have been closed;
- the trace of reflective runtime calls, each with the context loader in
  force when it was made.

What the runtime does is fixed by constant oracles:

- which loader can load which class (`canLoad`);
- which reflected methods throw (`failing`);
- which loaders' `close()` throws (`closeFails`);
- what the runtime's `getExecutorName` returns.

Java `null` is `None`. A thrown exception is `Fail(e)` or `Err(e)`.

## Behaviour as written

The model follows the code, including these points where the code and its
apparent design part ways:

- **The job flag is last-write-wins.** `jobClassLoaderShouldBeClosed` is
  overwritten by every entry of the application library, so the last entry
  decides (`Domains.JobFlag`).
  - If the last entry is not a directory, the fresh job loaders are never
    closed (`Domains.LooseLastEntryLeaksJobLoaders`).
  - If a loose entry puts the executor loader into the job list and the last
    entry is a directory, the job loop closes the executor loader when it is
    Closeable and no earlier close() in the loop throws. This happens even
    when the caller of `launchInner` supplied that loader
    (`Domains.SuppliedExecutorLoaderClosedByJobLoop`).
- **`close()` failures stop the job loop.** The first `IOException` in the job
  loop ends that loop, so later job loaders stay open
  (`Domains.JobLoopCloses`).
- **No loader is closed on a failed start.** Loaders are closed only by
  `shutdown`. The three `launch` methods cannot change the closed set at all
  (`jvm.closed` is outside their frame).

## Model

| member | source | states |
|---|---|---|
| JavaString.TrimSlice | saturn-executor/src/main/java/com/vip/saturn/job/executor/Main.java:64 | the trimmed token is a slice of the token with no white space at either end, and everything cut off is white space (≤ U+0020) |
| JavaString.BlankIffAllSpace | saturn-executor/src/main/java/com/vip/saturn/job/executor/Main.java:78-80 | a non-null string is blank exactly when every character is white space |
| JavaString.TrimIdempotent | saturn-executor/src/main/java/com/vip/saturn/job/executor/Main.java:61-70 | trimming a value obtainParam returned changes nothing |
| Arguments.ObtainParam | saturn-executor/src/main/java/com/vip/saturn/job/executor/Main.java:61-70 | succeeds exactly when the position is inside the array and the token there is not blank; the value is the trimmed, non-empty token; otherwise it throws MissingValue for that parameter |
| Arguments.ScanAppend | saturn-executor/src/main/java/com/vip/saturn/job/executor/Main.java:36-56 | parsing a + b is parsing a, then parsing b from where a stopped, when a parses without an exception |
| Arguments.UnrecognisedIgnored | saturn-executor/src/main/java/com/vip/saturn/job/executor/Main.java:53-54 | an unrecognised token changes no field and no property |
| Arguments.FlagWithoutValue | saturn-executor/src/main/java/com/vip/saturn/job/executor/Main.java:61-68 | an option as the last token throws MissingValue for it, and earlier tokens keep their effect |
| Arguments.FlagWithBlankValue | saturn-executor/src/main/java/com/vip/saturn/job/executor/Main.java:61-68 | an option followed by a blank token throws MissingValue for it, whatever follows |
| Arguments.FlagTakesValue | saturn-executor/src/main/java/com/vip/saturn/job/executor/Main.java:36-52 | an option followed by a non-blank token sets its field to the trimmed token; parsing carries on after that token |
| Arguments.LastOccurrenceWins | saturn-executor/src/main/java/com/vip/saturn/job/executor/Main.java:38-52 | when an option repeats, the value of its last occurrence is kept, whatever follows as long as that option does not occur again |
| Arguments.FieldKept | saturn-executor/src/main/java/com/vip/saturn/job/executor/Main.java:38-55 | tokens none of which is a given option leave that option's field unchanged, whether parsing succeeds or throws |
| Arguments.NamespaceBindings | saturn-executor/src/main/java/com/vip/saturn/job/executor/Main.java:39-42 | `-namespace X` sets the namespace and both properties to trimmed X, and parsing succeeds |
| Arguments.ParseValidates | saturn-executor/src/main/java/com/vip/saturn/job/executor/Main.java:58 | after a successful parse the namespace is not blank; a scan that ends with a blank namespace throws MissingRequired |
| Arguments.NoNamespaceOption | saturn-executor/src/main/java/com/vip/saturn/job/executor/Main.java:72-76 | without a `-namespace` token the properties are unchanged; from an unset namespace, parsing then throws |
| Files.GetUrls | saturn-executor/src/main/java/com/vip/saturn/job/executor/Main.java:101-123 | the recursive walk returns the scan `Urls`: a missing path gives `[]`, a `classes` directory or a file gives itself, any other directory gives its children's scans in listing order |
| Files.UrlsAreArtefacts | saturn-executor/src/main/java/com/vip/saturn/job/executor/Main.java:101-123 | every location yielded is a file or a `classes` directory lying at or below the scanned path |
| Files.ChildUrlsAreArtefacts | saturn-executor/src/main/java/com/vip/saturn/job/executor/Main.java:111-116 | every location yielded for a directory's children lies strictly below that directory, and each directory among them ends in `/classes` |
| Files.ChildUrlsAppend | saturn-executor/src/main/java/com/vip/saturn/job/executor/Main.java:113-115 | the children's scans are concatenated in listing order |
| Files.ChildUrlsCons | saturn-executor/src/main/java/com/vip/saturn/job/executor/Main.java:113-115 | a directory's scan is the first child's scan followed by the scans of the rest |
| Runtime.Jvm.NewLoader | saturn-executor/src/main/java/com/vip/saturn/job/executor/Main.java:159-160 | a new loader gets a fresh id, is recorded with how it was built, and is Closeable |
| Runtime.Jvm.Invoke | saturn-executor/src/main/java/com/vip/saturn/job/executor/Main.java:215 | invoking on a null executor throws before any call is made; otherwise the call is recorded with the current context loader and fails exactly when that method throws |
| Runtime.Jvm.BuildExecutor | saturn-executor/src/main/java/com/vip/saturn/job/executor/Main.java:173-176 | buildExecutor is recorded with the context loader, and returns an executor over exactly the arguments it was given, unless it throws |
| Runtime.Jvm.Close | saturn-executor/src/main/java/com/vip/saturn/job/executor/Main.java:231 | close() adds the loader to the closed set, unless it throws IOException |
| Domains.JobLoaders | saturn-executor/src/main/java/com/vip/saturn/job/executor/Main.java:137-146 | the job-loader list has exactly one entry per entry of the application library |
| Domains.JobLoadersAt | saturn-executor/src/main/java/com/vip/saturn/job/executor/Main.java:137-146 | entry i is a fresh loader, numbered by the directories before it, when child i is a directory, and the executor loader otherwise |
| Domains.FreshJobLoadersDistinct | saturn-executor/src/main/java/com/vip/saturn/job/executor/Main.java:140 | the fresh job loaders are pairwise distinct and fall in the range of ids handed out |
| Domains.NewJobLoadersKeys | saturn-executor/src/main/java/com/vip/saturn/job/executor/Main.java:137-146 | building the job loaders creates exactly one new loader per directory entry, with consecutive ids |
| Domains.NewJobLoadersAt | saturn-executor/src/main/java/com/vip/saturn/job/executor/Main.java:138-141 | the loader built for directory entry i is a JobClassLoader over getUrls of that child |
| Domains.JobLoadersStep | saturn-executor/src/main/java/com/vip/saturn/job/executor/Main.java:137-146 | one more library entry grows the loader list by that entry's loader, and the built loaders by one when it is a directory; it sets the flag to whether it is a directory |
| Domains.JobLoopClosesExactly | saturn-executor/src/main/java/com/vip/saturn/job/executor/Main.java:228-236 | the job loop closes only Closeable list entries whose close() does not throw; when no close() throws, it closes all of them |
| Domains.SuppliedLoadersNotClosed | saturn-executor/src/main/java/com/vip/saturn/job/executor/Main.java:226-244 | with the job flag false, the only loader closeClassLoader can close is the executor loader, and only when its own flag is set |
| Domains.StandaloneClosesAll | saturn-executor/src/main/java/com/vip/saturn/job/executor/Main.java:226-244 | in a standalone launch whose last library entry is a directory, shutdown closes every job loader and the executor loader when no close() throws |
| Domains.LooseLastEntryLeaksJobLoaders | saturn-executor/src/main/java/com/vip/saturn/job/executor/Main.java:141-144 | when the last library entry is not a directory, no fresh job loader is closed |
| Domains.SuppliedExecutorLoaderClosedByJobLoop | saturn-executor/src/main/java/com/vip/saturn/job/executor/Main.java:228-233 | a supplied executor loader placed in the job list by a loose entry is closed when the last entry is a directory |
| Launch.Launcher.constructor | saturn-executor/src/main/java/com/vip/saturn/job/executor/Main.java:23-31 | a new launcher has no namespace, no executor name, both library paths set to the default lib directory, no loaders, no executor and both flags false |
| Launch.Launcher.ParseArgs | saturn-executor/src/main/java/com/vip/saturn/job/executor/Main.java:33-59 | the index loop leaves the fields, the properties and the exception as the parse specification says, including after an exception |
| Launch.Launcher.ValidateMandatoryParameters | saturn-executor/src/main/java/com/vip/saturn/job/executor/Main.java:72-76 | throws MissingRequired exactly when the namespace is blank |
| Launch.Launcher.GetExecutorName | saturn-executor/src/main/java/com/vip/saturn/job/executor/Main.java:82-90 | without an executor, the configured name and no call. With one, the reflective call is recorded with the current context loader; the runtime's answer is returned, or the configured name when the call throws |
| Launch.Launcher.SetExecutorClassLoader | saturn-executor/src/main/java/com/vip/saturn/job/executor/Main.java:156-166 | a supplied loader is stored with its flag false; otherwise a fresh SaturnClassLoader is built over getUrls of saturnLibDir, with the launcher's loader as parent, and flagged to be closed; a null saturnLibDir throws NullPointerException and changes nothing |
| Launch.Launcher.SetJobClassLoader | saturn-executor/src/main/java/com/vip/saturn/job/executor/Main.java:130-154 | a supplied list is stored verbatim with its flag false; otherwise the list, the flag and the new loaders are those the job-loader specification gives for the children of appLibDir; a null appLibDir throws NullPointerException and changes nothing |
| Launch.Launcher.AddJobLoader | saturn-executor/src/main/java/com/vip/saturn/job/executor/Main.java:137-146 | one pass of the loop extends the list, the flag and the new loaders as the job-loader specification grows by one entry |
| Launch.Launcher.InitClassLoader | saturn-executor/src/main/java/com/vip/saturn/job/executor/Main.java:125-128 | succeeds exactly when both loaders are supplied or their library paths are set; on success the fields and the new loaders are those both setters specify, in order. Without an executor loader and a saturnLibDir it throws NullPointerException and changes nothing; when only the job loaders fail, the executor loader is left as setExecutorClassLoader built it and the NullPointerException for appLibDir leaves the job fields untouched |
| Launch.Launcher.StartExecutor | saturn-executor/src/main/java/com/vip/saturn/job/executor/Main.java:168-181 | the context loader is restored on every path. The entry class loads through the executor loader (a null loader throws NullPointerException, a loader that cannot load it ClassNotFoundException). Then buildExecutor and execute run in that order under the executor loader, and the executor is kept once built, even when execute throws. Each exception stops what follows |
| Launch.Launcher.CloseClassLoader | saturn-executor/src/main/java/com/vip/saturn/job/executor/Main.java:226-244 | closes exactly the loaders the flags select, as the job loop and the executor block are written |
| Launch.Launcher.Stop | saturn-executor/src/main/java/com/vip/saturn/job/executor/Main.java:210-220 | the context loader is restored and closeClassLoader runs whether or not the stop method throws. An entry class that does not load gives that exception and no call; a null executor gives NullPointerException and no call; otherwise the stop method is invoked once under the executor loader and its exception is passed on |
| Launch.Launcher.Shutdown | saturn-executor/src/main/java/com/vip/saturn/job/executor/Main.java:202-204 | shutdown(): the whole stop protocol (every exit, the trace, the closes) with the runtime's `shutdown` |
| Launch.Launcher.ShutdownGracefully | saturn-executor/src/main/java/com/vip/saturn/job/executor/Main.java:206-208 | shutdownGracefully(): the whole stop protocol (every exit, the trace, the closes) with the runtime's `shutdownGracefully` |
| Launch.Launcher.Bootstrap | saturn-executor/src/main/java/com/vip/saturn/job/executor/Main.java:183-187 | parse, initialise the loaders, then start, stopping at the first exception. A parse failure throws that parse error and leaves the loaders, their flags, the Closeable set, the executor and the trace untouched; an initialisation failure leaves what initClassLoader's failure specifies and the executor as it was, with no call made; after initialisation the loaders are as both setters specify and the start is as startExecutor specifies (its trace, its exception, the executor kept). The context loader is restored and no loader is closed |
| Launch.Launcher.Start | saturn-executor/src/main/java/com/vip/saturn/job/executor/Main.java:185-186 | initClassLoader, then startExecutor when it succeeded: a failed initialisation leaves the fields initClassLoader's failure specifies, keeps the executor as it was and makes no call; otherwise the loaders are as initClassLoader specifies and the start as startExecutor specifies |
| Launch.Launcher.Launch | saturn-executor/src/main/java/com/vip/saturn/job/executor/Main.java:183-187 | every phase and every exit as for Bootstrap with the executor loader built by the launcher and no application map: the parse error with nothing built, flagged or called, the initialisation failure with the executor unchanged and no call, the start as startExecutor specifies; supplied job loaders are never among the loaders a later shutdown closes |
| Launch.Launcher.LaunchWithApplications | saturn-executor/src/main/java/com/vip/saturn/job/executor/Main.java:189-193 | as launch, and the application map reaches buildExecutor unchanged: whenever the executor is built it carries that map, also when execute then throws |
| Launch.Launcher.LaunchInner | saturn-executor/src/main/java/com/vip/saturn/job/executor/Main.java:195-200 | every phase and every exit as for Bootstrap with the given loaders; a supplied executor loader is stored with its flag false, and a null one is replaced by a fresh launcher-built loader flagged to be closed; when both loaders are supplied, a later shutdown closes nothing |
| ClassLoaderUtils.FirstLoadableSpec | saturn-core/src/main/java/com/vip/saturn/job/utils/ClassLoaderUtils.java:20-29 | the search finds nothing exactly when no loader can load the name; what it finds is at the first index that can |
| ClassLoaderUtils.FindClassLoader | saturn-core/src/main/java/com/vip/saturn/job/utils/ClassLoaderUtils.java:14-30 | a null list gives null. A result is a list member that can load the name, and no earlier member can. A null result on a list means no member can |
| ClassLoaderUtils.FindClassLoaderOf | saturn-core/src/main/java/com/vip/saturn/job/utils/ClassLoaderUtils.java:8-11 | the object overload is the string overload applied to the canonical name of the instance's class |

`Bootstrap` and `Start` are shared by the three `launch` methods, each of
which runs parseArgs, initClassLoader and startExecutor. `AddJobLoader` is
the body of setJobClassLoader's loop. The predicates `StartedAs` and
`StoppedAs` state once what startExecutor and shutdown(methodName) leave, and
`InitFailedAs` (with `ExecutorSetAs`) what a failed initClassLoader leaves, so
that every method ending in one of them states the same outcome.

## Left out

- `main`: it prints `args[0]`, prints stack traces and calls
  `System.exit`, which is process I/O. It is otherwise
  `Launch(args, None)`.
- `getLibDir`: it looks up the code-source location; its result is the
  parameter `libDir` of the constructor.
- The file system: `File.exists`, `isDirectory` and `isFile` are the
  `FsNode` tree. `listFiles` returning null, and entries that are neither file
  nor directory, are not modelled.
- The file tree does not tie an entry's `name` to the last segment of the
  path it is looked up under. The `classes` test on the scanned directory
  itself uses that entry's own name; the children's paths are built from
  their names, so below the top they agree.
- `MalformedURLException` from `toURI().toURL()` is not modelled; a URL is
  the entry's path and whether it is a directory.
- Reflection and the runtime are replaced by the oracles of `Jvm`:
  `getMethod(...).invoke`, `buildExecutor`, `execute`, the stop methods and
  `getExecutorName`. Real class loading by `SaturnClassLoader` and
  `JobClassLoader` is replaced the same way. Non-IO exceptions from
  `close()` are not modelled.
- The context class loader is one field of `Jvm`, because the launcher runs
  on one thread; thread-local semantics are not modelled.
- A `buildExecutor` that returns null is not modelled; a built executor is
  always a handle.
- A null argument array, which makes `parseArgs` throw NullPointerException
  at `inArgs.clone()`, and a null token in the array are not modelled; the
  arguments are a sequence of strings.
- ClassLoaderUtils.FindClassLoader: a null entry in the loader list, whose
  `loadClass` would throw NullPointerException out of the search, is not
  modelled; loader lists hold loader ids only. For the same reason the
  null-entry skip of `closeClassLoader`'s job loop is not modelled.
- The getters and setters `getSaturnExecutor`, `setExecutorName`,
  `getNamespace` and `setNamespace` are plain field accesses and are left out.
- SaturnExecutorExtension.java is not part of this model.
- Launch.Launcher.Launch and Launch.Launcher.LaunchWithApplications: they
  require every supplied job loader to be an existing loader (an id already
  handed out). A loader object passed in by the caller exists before the
  call.
- ClassLoaderUtils.FindClassLoaderOf: a null instance and a null canonical
  name (anonymous classes) are not modelled. Only ClassNotFoundException
  from `loadClass` is modelled.
- Two properties are not asserted, because the code does not implement
  them: idempotent stop, and release of the loaders on a failed start.
