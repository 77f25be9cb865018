/** The launcher object (class Main of the executor): its configuration
    fields, the loaders it builds or is given, the executor it hands off to,
    and the start and stop protocols around the thread's context class
    loader. */
module Launch {
  import opened Common
  import opened JavaString
  import opened Files
  import opened Arguments
  import opened Runtime
  import opened Domains

  /** How far a launch got: nothing, arguments parsed, loaders built, or the
      executor built and running. */
  datatype Phase = Unstarted | Configured | Isolated | Running

  class Launcher {
    const jvm: Jvm

    var namespace: Option<string>
    var executorName: Option<string>
    var saturnLibDir: Option<string>
    var appLibDir: Option<string>
    var executorClassLoader: Option<LoaderId>
    var jobClassLoaders: Option<seq<LoaderId>>
    var saturnExecutor: Option<ExecutorHandle>
    var executorClassLoaderShouldBeClosed: bool
    var jobClassLoaderShouldBeClosed: bool

    /** A new Main; both library directories start as getLibDir("lib"),
        whose lookup of the launcher's own location is given as `libDir`. */
    constructor (jvm: Jvm, libDir: Option<string>)
      ensures this.jvm == jvm
      ensures Opts() == Options(None, None, libDir, libDir)
      ensures executorClassLoader.None? && jobClassLoaders.None? && saturnExecutor.None?
      ensures !executorClassLoaderShouldBeClosed && !jobClassLoaderShouldBeClosed
    {
      this.jvm := jvm;
      namespace, executorName := None, None;
      saturnLibDir, appLibDir := libDir, libDir;
      executorClassLoader, jobClassLoaders, saturnExecutor := None, None, None;
      executorClassLoaderShouldBeClosed, jobClassLoaderShouldBeClosed := false, false;
    }

    /** The configuration fields as one value. */
    function Opts(): Options
      reads this
    {
      Options(namespace, executorName, saturnLibDir, appLibDir)
    }

    /** The loaders closeClassLoader would close now. */
    function PendingCloses(): set<LoaderId>
      reads this, jvm
    {
      ToClose(jobClassLoaders, jobClassLoaderShouldBeClosed, executorClassLoader,
              executorClassLoaderShouldBeClosed, jvm.closeable, jvm.closeFails)
    }

    // -------------------------------------------------------------------------
    // Arguments

    /** parseArgs: the fields and the system properties end as the
        specification of parsing says, including after an exception. */
    method ParseArgs(inArgs: seq<string>) returns (o: Outcome)
      modifies this`namespace, this`executorName, this`saturnLibDir, this`appLibDir, jvm`properties
      ensures var p := Parse(inArgs, ParseState(old(Opts()), old(jvm.properties)));
        && Opts() == p.st.opts
        && jvm.properties == p.st.props
        && o == if p.err.None? then Pass else Fail(p.err.value)
    {
      var args := inArgs;
      ghost var start := ParseState(Opts(), jvm.properties);
      var i := 0;
      while i < |args|
        invariant 0 <= i <= |args|
        invariant Scan(args[i..], ParseState(Opts(), jvm.properties)) == Scan(args, start)
      {
        var param := Trim(args[i]);
        var flag := FlagOf(param);
        assert args[i..][0] == args[i];
        if flag.Some? {
          ghost var before := ParseState(Opts(), jvm.properties);
          i := i + 1;
          assert i < |args| ==> args[i - 1..][1] == args[i];
          var value := ObtainParam(args, i, ParamName(flag.value));
          if value.Err? {
            return Fail(value.error);
          }
          match flag.value {
            case Namespace =>
              namespace := Some(value.value);
              jvm.properties := jvm.properties["app.instance.name" := value.value];
              jvm.properties := jvm.properties["namespace" := value.value];
            case ExecutorName =>
              executorName := Some(value.value);
            case SaturnLibDir =>
              saturnLibDir := Some(value.value);
            case AppLibDir =>
              appLibDir := Some(value.value);
          }
          assert ParseState(Opts(), jvm.properties) == Assign(before, flag.value, value.value);
          assert args[i - 1..][2..] == args[i + 1..];
        } else {
          assert args[i..][1..] == args[i + 1..];
        }
        i := i + 1;
      }
      o := ValidateMandatoryParameters();
    }

    /** validateMandatoryParameters: throws exactly when namespace is blank. */
    method ValidateMandatoryParameters() returns (o: Outcome)
      ensures o.Pass? <==> !IsBlank(namespace)
      ensures o.Fail? ==> o.error == MissingRequired
    {
      if IsBlank(namespace) {
        return Fail(MissingRequired);
      }
      return Pass;
    }

    /** getExecutorName: once an executor exists it is asked for its name
        by reflection; an exception from that call is swallowed, and then,
        as without an executor, the configured name is the answer. */
    method GetExecutorName() returns (r: Option<string>)
      modifies jvm`calls
      ensures saturnExecutor.None? ==> r == executorName && jvm.calls == old(jvm.calls)
      ensures saturnExecutor.Some? ==> jvm.calls == old(jvm.calls) + [Called("getExecutorName", jvm.contextLoader)]
      ensures saturnExecutor.Some? && "getExecutorName" !in jvm.failing ==> r == jvm.reportedName
      ensures saturnExecutor.Some? && "getExecutorName" in jvm.failing ==> r == executorName
    {
      if saturnExecutor.Some? {
        var asked := jvm.Invoke("getExecutorName", saturnExecutor);
        if asked.Pass? {
          return jvm.reportedName;
        }
      }
      return executorName;
    }

    // -------------------------------------------------------------------------
    // Loaders

    /** setExecutorClassLoader: a supplied loader is stored with its flag
        false; otherwise a fresh SaturnClassLoader over the scan of
        saturnLibDir is built and flagged to be closed. */
    method SetExecutorClassLoader(supplied: Option<LoaderId>) returns (o: Outcome)
      requires jvm.Valid()
      modifies this`executorClassLoader, this`executorClassLoaderShouldBeClosed, jvm`created, jvm`nextId, jvm`closeable
      ensures jvm.Valid()
      ensures supplied.Some? ==>
        && o == Pass && executorClassLoader == supplied && !executorClassLoaderShouldBeClosed
        && unchanged(jvm)
      ensures supplied.None? && saturnLibDir.None? ==>
        o == Fail(NullPointer("saturnLibDir")) && unchanged(this) && unchanged(jvm)
      ensures supplied.None? && saturnLibDir.Some? ==>
        && o == Pass
        && executorClassLoader == Some(old(jvm.nextId)) && executorClassLoaderShouldBeClosed
        && jvm.created == old(jvm.created)[old(jvm.nextId) :=
             SaturnLoader(Urls(saturnLibDir.value, jvm.Lookup(saturnLibDir.value)), jvm.launcherLoader)]
        && jvm.nextId == old(jvm.nextId) + 1
        && jvm.closeable == old(jvm.closeable) + {old(jvm.nextId)}
    {
      if supplied.None? {
        if saturnLibDir.None? {
          return Fail(NullPointer("saturnLibDir"));
        }
        var urls := GetUrls(saturnLibDir.value, jvm.Lookup(saturnLibDir.value));
        var loader := jvm.NewLoader(SaturnLoader(urls, jvm.launcherLoader));
        executorClassLoader := Some(loader);
        executorClassLoaderShouldBeClosed := true;
      } else {
        executorClassLoader := supplied;
        executorClassLoaderShouldBeClosed := false;
      }
      o := Pass;
    }

    /** setJobClassLoader: a supplied list is stored verbatim with its flag
        false; otherwise one entry per entry of appLibDir, a fresh
        JobClassLoader for a directory and the executor loader for anything
        else, with the flag set by the last entry. */
    method SetJobClassLoader(supplied: Option<seq<LoaderId>>) returns (o: Outcome)
      requires jvm.Valid() && executorClassLoader.Some?
      modifies this`jobClassLoaders, this`jobClassLoaderShouldBeClosed, jvm`created, jvm`nextId, jvm`closeable
      ensures jvm.Valid()
      ensures supplied.Some? ==>
        o == Pass && jobClassLoaders == supplied && !jobClassLoaderShouldBeClosed && unchanged(jvm)
      ensures supplied.None? && appLibDir.None? ==>
        o == Fail(NullPointer("appLibDir")) && unchanged(this) && unchanged(jvm)
      ensures supplied.None? && appLibDir.Some? ==>
        var cs := Children(jvm.Lookup(appLibDir.value));
        var next := old(jvm.nextId);
        var added := NewJobLoaders(appLibDir.value, cs, next);
        && o == Pass
        && jobClassLoaders == Some(JobLoaders(cs, executorClassLoader.value, next))
        && jobClassLoaderShouldBeClosed == JobFlag(cs, old(jobClassLoaderShouldBeClosed))
        && jvm.created == old(jvm.created) + added
        && jvm.nextId == next + DirCount(cs)
        && jvm.closeable == old(jvm.closeable) + added.Keys
    {
      if supplied.Some? {
        jobClassLoaders := supplied;
        jobClassLoaderShouldBeClosed := false;
        return Pass;
      }
      if appLibDir.None? {
        return Fail(NullPointer("appLibDir"));
      }
      var path := appLibDir.value;
      var appLibDirFile := jvm.Lookup(path);
      var loaders: seq<LoaderId> := [];
      if appLibDirFile.Dir? {
        var subFiles := appLibDirFile.children;
        ghost var next := jvm.nextId;
        ghost var added: map<LoaderId, LoaderInfo> := map[];
        var k := 0;
        while k < |subFiles|
          invariant 0 <= k <= |subFiles|
          invariant jvm.Valid()
          invariant loaders == JobLoaders(subFiles[..k], executorClassLoader.value, next)
          invariant jobClassLoaderShouldBeClosed == JobFlag(subFiles[..k], old(jobClassLoaderShouldBeClosed))
          invariant added == NewJobLoaders(path, subFiles[..k], next)
          invariant jvm.nextId == next + DirCount(subFiles[..k])
          invariant jvm.created == old(jvm.created) + added
          invariant jvm.closeable == old(jvm.closeable) + added.Keys
        {
          loaders, added := AddJobLoader(path, subFiles, k, loaders, next, old(jobClassLoaderShouldBeClosed),
                                         old(jvm.created), old(jvm.closeable), added);
          k := k + 1;
        }
        assert subFiles[..|subFiles|] == subFiles;
      }
      jobClassLoaders := Some(loaders);
      o := Pass;
    }

    /** One pass of setJobClassLoader's loop, over entry `k` of the directory
        `path`: a directory gets a fresh JobClassLoader over its scan and sets
        the flag, anything else gets the executor loader and clears it. The
        loader is appended to `loaders`; `added` are the loaders built so far
        over the base maps `created` and `closeable`. */
    method AddJobLoader(path: string, subFiles: seq<FsNode>, k: nat, loaders: seq<LoaderId>,
                        ghost next: nat, ghost flag: bool, ghost created: map<LoaderId, LoaderInfo>,
                        ghost closeable: set<LoaderId>, ghost added: map<LoaderId, LoaderInfo>)
      returns (loaders': seq<LoaderId>, ghost added': map<LoaderId, LoaderInfo>)
      requires k < |subFiles| && jvm.Valid() && executorClassLoader.Some?
      requires loaders == JobLoaders(subFiles[..k], executorClassLoader.value, next)
      requires added == NewJobLoaders(path, subFiles[..k], next)
      requires jvm.nextId == next + DirCount(subFiles[..k])
      requires jvm.created == created + added && jvm.closeable == closeable + added.Keys
      modifies this`jobClassLoaderShouldBeClosed, jvm`created, jvm`nextId, jvm`closeable
      ensures jvm.Valid()
      ensures loaders' == JobLoaders(subFiles[..k + 1], executorClassLoader.value, next)
      ensures jobClassLoaderShouldBeClosed == JobFlag(subFiles[..k + 1], flag)
      ensures added' == NewJobLoaders(path, subFiles[..k + 1], next)
      ensures jvm.nextId == next + DirCount(subFiles[..k + 1])
      ensures jvm.created == created + added' && jvm.closeable == closeable + added'.Keys
    {
      JobLoadersStep(path, subFiles, executorClassLoader.value, next, k, flag);
      var file := subFiles[k];
      if file.Dir? {
        var urls := GetUrls(ChildPath(path, file), file);
        MergeUpdate(created, added, jvm.nextId, JobLoader(urls));
        var loader := jvm.NewLoader(JobLoader(urls));
        loaders' := loaders + [loader];
        added' := added[loader := JobLoader(urls)];
        jobClassLoaderShouldBeClosed := true;
      } else {
        loaders' := loaders + [executorClassLoader.value];
        added' := added;
        jobClassLoaderShouldBeClosed := false;
      }
    }

    /** initClassLoader: the executor loader, then the job loaders. */
    method InitClassLoader(executorLoader: Option<LoaderId>, jobLoaders: Option<seq<LoaderId>>) returns (o: Outcome)
      requires jvm.Valid()
      modifies this`executorClassLoader, this`executorClassLoaderShouldBeClosed,
               this`jobClassLoaders, this`jobClassLoaderShouldBeClosed,
               jvm`created, jvm`nextId, jvm`closeable
      ensures jvm.Valid()
      ensures o.Pass? <==> (executorLoader.Some? || saturnLibDir.Some?) && (jobLoaders.Some? || appLibDir.Some?)
      ensures executorLoader.None? && saturnLibDir.None? ==>
        o == Fail(NullPointer("saturnLibDir")) && unchanged(this) && unchanged(jvm)
      ensures o.Fail? ==> o.error.NullPointer?
      ensures o.Fail? ==>
        InitFailedAs(executorLoader, old(executorClassLoader), old(executorClassLoaderShouldBeClosed),
                     old(jobClassLoaders), old(jobClassLoaderShouldBeClosed),
                     old(jvm.nextId), old(jvm.created), old(jvm.closeable), o)
      ensures o.Pass? ==>
        InitialisedAs(executorLoader, jobLoaders, old(jobClassLoaderShouldBeClosed),
                      old(jvm.nextId), old(jvm.created), old(jvm.closeable))
    {
      o := SetExecutorClassLoader(executorLoader);
      if o.Fail? {
        return;
      }
      o := SetJobClassLoader(jobLoaders);
    }

    /** The executor loader field and the loaders built after a successful
        setExecutorClassLoader from a state whose next id, built loaders and
        Closeable loaders were `next`, `created` and `closeable`. */
    ghost predicate ExecutorSetAs(executorLoader: Option<LoaderId>,
                                  next: nat, created: map<LoaderId, LoaderInfo>, closeable: set<LoaderId>)
      reads this`saturnLibDir, this`executorClassLoader, this`executorClassLoaderShouldBeClosed,
            jvm`nextId, jvm`created, jvm`closeable
    {
      if executorLoader.Some? then
        && executorClassLoader == executorLoader && !executorClassLoaderShouldBeClosed
        && jvm.nextId == next && jvm.created == created && jvm.closeable == closeable
      else
        && saturnLibDir.Some? && executorClassLoader == Some(next) && executorClassLoaderShouldBeClosed
        && jvm.nextId == next + 1
        && jvm.created == created[next := SaturnLoader(Urls(saturnLibDir.value, jvm.Lookup(saturnLibDir.value)),
                                                       jvm.launcherLoader)]
        && jvm.closeable == closeable + {next}
    }

    /** What a failed initClassLoader leaves, from the loader fields and
        flags `executor0`, `executorFlag0`, `jobs0`, `jobFlag0` and the
        loader state `next`, `created`, `closeable` it started with: without
        a loader and a saturnLibDir, NullPointerException and nothing
        changed; otherwise the executor loader is in place as
        setExecutorClassLoader leaves it, and setJobClassLoader threw
        NullPointerException for appLibDir without touching the job fields. */
    ghost predicate InitFailedAs(executorLoader: Option<LoaderId>, executor0: Option<LoaderId>, executorFlag0: bool,
                                 jobs0: Option<seq<LoaderId>>, jobFlag0: bool,
                                 next: nat, created: map<LoaderId, LoaderInfo>, closeable: set<LoaderId>, o: Outcome)
      reads this`saturnLibDir, this`executorClassLoader, this`executorClassLoaderShouldBeClosed,
            this`jobClassLoaders, this`jobClassLoaderShouldBeClosed, jvm`nextId, jvm`created, jvm`closeable
    {
      && jobClassLoaders == jobs0 && jobClassLoaderShouldBeClosed == jobFlag0
      && if executorLoader.None? && saturnLibDir.None? then
           && o == Fail(NullPointer("saturnLibDir"))
           && executorClassLoader == executor0 && executorClassLoaderShouldBeClosed == executorFlag0
           && jvm.nextId == next && jvm.created == created && jvm.closeable == closeable
         else
           && o == Fail(NullPointer("appLibDir"))
           && ExecutorSetAs(executorLoader, next, created, closeable)
    }

    /** The loader fields and the loaders built after a successful
        initClassLoader from a state whose next id, built loaders and
        Closeable loaders were `next`, `created` and `closeable`: supplied
        loaders stored verbatim with their flags false, the others as
        setExecutorClassLoader and setJobClassLoader construct them. */
    ghost predicate InitialisedAs(executorLoader: Option<LoaderId>, jobLoaders: Option<seq<LoaderId>>, jobFlag: bool,
                                  next: nat, created: map<LoaderId, LoaderInfo>, closeable: set<LoaderId>)
      reads this`saturnLibDir, this`appLibDir, this`executorClassLoader, this`executorClassLoaderShouldBeClosed,
            this`jobClassLoaders, this`jobClassLoaderShouldBeClosed, jvm`nextId, jvm`created, jvm`closeable
    {
      && executorClassLoader.Some? && jobClassLoaders.Some?
      && (executorLoader.Some? ==> executorClassLoader == executorLoader && !executorClassLoaderShouldBeClosed)
      && (executorLoader.None? ==> saturnLibDir.Some? && executorClassLoader == Some(next) && executorClassLoaderShouldBeClosed)
      && (jobLoaders.Some? ==> jobClassLoaders == jobLoaders && !jobClassLoaderShouldBeClosed)
      && (jobLoaders.None? ==> appLibDir.Some?)
      && var jobNext := if executorLoader.None? then next + 1 else next;
         var withExecutor := if executorLoader.None? then created[next := SaturnLoader(
                               Urls(saturnLibDir.value, jvm.Lookup(saturnLibDir.value)), jvm.launcherLoader)]
                             else created;
         var closeableWithExecutor := if executorLoader.None? then closeable + {next} else closeable;
         if jobLoaders.Some? then
           && jvm.nextId == jobNext
           && jvm.created == withExecutor
           && jvm.closeable == closeableWithExecutor
         else
           var cs := Children(jvm.Lookup(appLibDir.value));
           var added := NewJobLoaders(appLibDir.value, cs, jobNext);
           && jobClassLoaders == Some(JobLoaders(cs, executorClassLoader.value, jobNext))
           && jobClassLoaderShouldBeClosed == JobFlag(cs, jobFlag)
           && jvm.nextId == jobNext + DirCount(cs)
           && jvm.created == withExecutor + added
           && jvm.closeable == closeableWithExecutor + added.Keys
    }

    // -------------------------------------------------------------------------
    // Start and stop

    /** What startExecutor leaves, from the trace `calls0` and the executor
        `executor0` it started with: when the entry class does not load, that
        exception and nothing invoked; when buildExecutor throws, its failure
        after the one call; otherwise the built executor is kept, whether or
        not execute then throws, after the buildExecutor and execute calls,
        both under the executor loader as context class loader. */
    ghost predicate StartedAs(applications: Option<AppMap>, calls0: seq<Call>, executor0: Option<ExecutorHandle>,
                              o: Outcome)
      reads this`namespace, this`executorName, this`executorClassLoader, this`jobClassLoaders,
            this`saturnExecutor, jvm`calls
    {
      var loaded := jvm.LoadClass(executorClassLoader, SaturnExecutorClass);
      if loaded.Fail? then
        o == loaded && jvm.calls == calls0 && saturnExecutor == executor0
      else if "buildExecutor" in jvm.failing then
        && o == Fail(InvocationFailed("buildExecutor"))
        && jvm.calls == calls0 + [Called("buildExecutor", executorClassLoader)]
        && saturnExecutor == executor0
      else
        && saturnExecutor == Some(ExecutorHandle(namespace, executorName, executorClassLoader.value,
                                                 jobClassLoaders, applications))
        && jvm.calls == calls0 + [Called("buildExecutor", executorClassLoader),
                                  Called("execute", executorClassLoader)]
        && o == if "execute" in jvm.failing then Fail(InvocationFailed("execute")) else Pass
    }

    /** startExecutor: under the executor loader as context class loader,
        load the entry class, build the executor and execute it; the context
        class loader is restored whatever happens. */
    method StartExecutor(applications: Option<AppMap>) returns (o: Outcome)
      modifies this`saturnExecutor, jvm`contextLoader, jvm`calls
      ensures jvm.contextLoader == old(jvm.contextLoader)
      ensures StartedAs(applications, old(jvm.calls), old(saturnExecutor), o)
    {
      var oldCL := jvm.contextLoader;
      jvm.contextLoader := executorClassLoader;
      o := jvm.LoadClass(executorClassLoader, SaturnExecutorClass);
      if o.Pass? {
        var built := jvm.BuildExecutor(namespace, executorName, executorClassLoader.value,
                                       jobClassLoaders, applications);
        if built.Err? {
          o := Fail(built.error);
        } else {
          saturnExecutor := Some(built.value);
          o := jvm.Invoke("execute", saturnExecutor);
        }
      }
      jvm.contextLoader := oldCL;
    }

    /** closeClassLoader: closes exactly the loaders its flags select, as
        the job loop and the executor block are written. */
    method CloseClassLoader()
      modifies jvm`closed
      ensures jvm.closed == old(jvm.closed) + PendingCloses()
    {
      if jobClassLoaderShouldBeClosed && jobClassLoaders.Some? {
        var loaders := jobClassLoaders.value;
        var i := 0;
        while i < |loaders|
          invariant 0 <= i <= |loaders|
          invariant jvm.closed + JobLoopCloses(loaders[i..], jvm.closeable, jvm.closeFails)
                 == old(jvm.closed) + JobLoopCloses(loaders, jvm.closeable, jvm.closeFails)
        {
          var cl := loaders[i];
          assert loaders[i..][1..] == loaders[i + 1..];
          if cl in jvm.closeable {
            var ok := jvm.Close(cl);
            if !ok {
              break;
            }
          }
          i := i + 1;
        }
      }
      if executorClassLoaderShouldBeClosed && executorClassLoader.Some?
         && executorClassLoader.value in jvm.closeable {
        var _ := jvm.Close(executorClassLoader.value);
      }
    }

    /** What shutdown(methodName) leaves, from the trace `calls0`: when the
        entry class does not load, that exception and nothing invoked;
        without an executor, NullPointerException and nothing invoked;
        otherwise the one call under the executor loader as context class
        loader, and its exception when it throws. */
    ghost predicate StoppedAs(methodName: string, calls0: seq<Call>, o: Outcome)
      reads this`executorClassLoader, this`saturnExecutor, jvm`calls
    {
      var loaded := jvm.LoadClass(executorClassLoader, SaturnExecutorClass);
      if loaded.Fail? then
        o == loaded && jvm.calls == calls0
      else if saturnExecutor.None? then
        o == Fail(NullPointer("saturnExecutor")) && jvm.calls == calls0
      else
        && jvm.calls == calls0 + [Called(methodName, executorClassLoader)]
        && o == if methodName in jvm.failing then Fail(InvocationFailed(methodName)) else Pass
    }

    /** shutdown(methodName): invoke the runtime's stop method under the
        executor loader as context class loader, restore the context class
        loader, then close the loaders, whether or not the stop threw. */
    method Stop(methodName: string) returns (o: Outcome)
      modifies jvm`contextLoader, jvm`calls, jvm`closed
      ensures jvm.contextLoader == old(jvm.contextLoader)
      ensures jvm.closed == old(jvm.closed) + old(PendingCloses())
      ensures StoppedAs(methodName, old(jvm.calls), o)
    {
      var oldCL := jvm.contextLoader;
      jvm.contextLoader := executorClassLoader;
      o := jvm.LoadClass(executorClassLoader, SaturnExecutorClass);
      if o.Pass? {
        o := jvm.Invoke(methodName, saturnExecutor);
      }
      jvm.contextLoader := oldCL;
      CloseClassLoader();
    }

    /** shutdown(): the immediate stop. */
    method Shutdown() returns (o: Outcome)
      modifies jvm`contextLoader, jvm`calls, jvm`closed
      ensures jvm.contextLoader == old(jvm.contextLoader)
      ensures jvm.closed == old(jvm.closed) + old(PendingCloses())
      ensures StoppedAs("shutdown", old(jvm.calls), o)
    {
      o := Stop("shutdown");
    }

    /** shutdownGracefully(): the graceful stop. */
    method ShutdownGracefully() returns (o: Outcome)
      modifies jvm`contextLoader, jvm`calls, jvm`closed
      ensures jvm.contextLoader == old(jvm.contextLoader)
      ensures jvm.closed == old(jvm.closed) + old(PendingCloses())
      ensures StoppedAs("shutdownGracefully", old(jvm.calls), o)
    {
      o := Stop("shutdownGracefully");
    }

    // -------------------------------------------------------------------------
    // The launch compositions

    /** parseArgs, initClassLoader, startExecutor, stopping at the first
        exception; `reached` is the last phase completed. No loader is ever
        closed here, also when the start fails. */
    method Bootstrap(args: seq<string>, executorLoader: Option<LoaderId>, jobLoaders: Option<seq<LoaderId>>,
                     applications: Option<AppMap>) returns (o: Outcome, ghost reached: Phase)
      requires jvm.Valid()
      modifies this, jvm`properties, jvm`created, jvm`nextId, jvm`closeable, jvm`contextLoader, jvm`calls
      ensures jvm.Valid()
      ensures jvm.contextLoader == old(jvm.contextLoader)
      ensures jvm.closed == old(jvm.closed)
      ensures o.Pass? <==> reached == Running
      ensures var p := Parse(args, ParseState(old(Opts()), old(jvm.properties)));
        && Opts() == p.st.opts && jvm.properties == p.st.props
        && (reached == Unstarted <==> p.err.Some?)
        && (reached == Unstarted ==> o == Fail(p.err.value))
      ensures reached == Unstarted ==>
        && jvm.created == old(jvm.created) && jvm.nextId == old(jvm.nextId) && jvm.calls == old(jvm.calls)
        && executorClassLoader == old(executorClassLoader) && jobClassLoaders == old(jobClassLoaders)
        && saturnExecutor == old(saturnExecutor)
        && executorClassLoaderShouldBeClosed == old(executorClassLoaderShouldBeClosed)
        && jobClassLoaderShouldBeClosed == old(jobClassLoaderShouldBeClosed)
        && jvm.closeable == old(jvm.closeable)
      ensures reached != Unstarted ==> !IsBlank(namespace)
      ensures reached == Configured ==>
        o.Fail? && o.error.NullPointer? && jvm.calls == old(jvm.calls) && saturnExecutor == old(saturnExecutor)
      ensures reached == Configured ==>
        InitFailedAs(executorLoader, old(executorClassLoader), old(executorClassLoaderShouldBeClosed),
                     old(jobClassLoaders), old(jobClassLoaderShouldBeClosed),
                     old(jvm.nextId), old(jvm.created), old(jvm.closeable), o)
      ensures reached == Isolated || reached == Running ==>
        InitialisedAs(executorLoader, jobLoaders, old(jobClassLoaderShouldBeClosed),
                      old(jvm.nextId), old(jvm.created), old(jvm.closeable))
      ensures reached == Isolated || reached == Running ==>
        StartedAs(applications, old(jvm.calls), old(saturnExecutor), o)
      ensures reached == Running ==>
        saturnExecutor == Some(ExecutorHandle(namespace, executorName, executorClassLoader.value,
                                              jobClassLoaders, applications))
    {
      o := ParseArgs(args);
      if o.Fail? {
        return o, Unstarted;
      }
      Arguments.ParseValidates(args, ParseState(old(Opts()), old(jvm.properties)));
      o, reached := Start(executorLoader, jobLoaders, applications);
    }

    /** initClassLoader, then startExecutor if it succeeded. */
    method Start(executorLoader: Option<LoaderId>, jobLoaders: Option<seq<LoaderId>>, applications: Option<AppMap>)
      returns (o: Outcome, ghost reached: Phase)
      requires jvm.Valid()
      modifies this`executorClassLoader, this`executorClassLoaderShouldBeClosed,
               this`jobClassLoaders, this`jobClassLoaderShouldBeClosed, this`saturnExecutor,
               jvm`created, jvm`nextId, jvm`closeable, jvm`contextLoader, jvm`calls
      ensures jvm.Valid()
      ensures jvm.contextLoader == old(jvm.contextLoader)
      ensures reached != Unstarted
      ensures o.Pass? <==> reached == Running
      ensures reached == Configured ==>
        o.Fail? && o.error.NullPointer? && jvm.calls == old(jvm.calls) && saturnExecutor == old(saturnExecutor)
      ensures reached == Configured ==>
        InitFailedAs(executorLoader, old(executorClassLoader), old(executorClassLoaderShouldBeClosed),
                     old(jobClassLoaders), old(jobClassLoaderShouldBeClosed),
                     old(jvm.nextId), old(jvm.created), old(jvm.closeable), o)
      ensures reached == Isolated || reached == Running ==>
        InitialisedAs(executorLoader, jobLoaders, old(jobClassLoaderShouldBeClosed),
                      old(jvm.nextId), old(jvm.created), old(jvm.closeable))
      ensures reached == Isolated || reached == Running ==>
        StartedAs(applications, old(jvm.calls), old(saturnExecutor), o)
      ensures reached == Running ==>
        saturnExecutor == Some(ExecutorHandle(namespace, executorName, executorClassLoader.value,
                                              jobClassLoaders, applications))
    {
      o := InitClassLoader(executorLoader, jobLoaders);
      if o.Fail? {
        return o, Configured;
      }
      o := StartExecutor(applications);
      reached := if o.Pass? then Running else Isolated;
    }

    /** launch(args, jobClassLoaders): the launcher builds the executor
        loader and, when none are given, the job loaders. Given job loaders
        are never closed by a later shutdown. */
    method Launch(args: seq<string>, jobLoaders: Option<seq<LoaderId>>) returns (o: Outcome, ghost reached: Phase)
      requires jvm.Valid()
      requires jobLoaders.Some? ==> forall l :: l in jobLoaders.value ==> l < jvm.nextId
      modifies this, jvm`properties, jvm`created, jvm`nextId, jvm`closeable, jvm`contextLoader, jvm`calls
      ensures jvm.Valid()
      ensures jvm.contextLoader == old(jvm.contextLoader) && jvm.closed == old(jvm.closed)
      ensures o.Pass? <==> reached == Running
      ensures var p := Parse(args, ParseState(old(Opts()), old(jvm.properties)));
        && Opts() == p.st.opts && jvm.properties == p.st.props
        && (reached == Unstarted <==> p.err.Some?)
        && (reached == Unstarted ==> o == Fail(p.err.value))
      ensures reached == Unstarted ==>
        && jvm.created == old(jvm.created) && jvm.nextId == old(jvm.nextId) && jvm.calls == old(jvm.calls)
        && executorClassLoader == old(executorClassLoader) && jobClassLoaders == old(jobClassLoaders)
        && saturnExecutor == old(saturnExecutor)
        && executorClassLoaderShouldBeClosed == old(executorClassLoaderShouldBeClosed)
        && jobClassLoaderShouldBeClosed == old(jobClassLoaderShouldBeClosed)
        && jvm.closeable == old(jvm.closeable)
      ensures reached != Unstarted ==> !IsBlank(namespace)
      ensures reached == Configured ==>
        o.Fail? && o.error.NullPointer? && jvm.calls == old(jvm.calls) && saturnExecutor == old(saturnExecutor)
      ensures reached == Configured ==>
        InitFailedAs(None, old(executorClassLoader), old(executorClassLoaderShouldBeClosed),
                     old(jobClassLoaders), old(jobClassLoaderShouldBeClosed),
                     old(jvm.nextId), old(jvm.created), old(jvm.closeable), o)
      ensures reached == Isolated || reached == Running ==>
        InitialisedAs(None, jobLoaders, old(jobClassLoaderShouldBeClosed),
                      old(jvm.nextId), old(jvm.created), old(jvm.closeable))
      ensures reached == Isolated || reached == Running ==>
        && executorClassLoader == Some(old(jvm.nextId)) && executorClassLoaderShouldBeClosed
        && (jobLoaders.Some? ==> forall l :: l in jobLoaders.value ==> l !in PendingCloses())
      ensures reached == Isolated || reached == Running ==> StartedAs(None, old(jvm.calls), old(saturnExecutor), o)
    {
      o, reached := Bootstrap(args, None, jobLoaders, None);
      if (reached == Isolated || reached == Running) && jobLoaders.Some? {
        SuppliedLoadersNotClosed(jobClassLoaders, executorClassLoader, executorClassLoaderShouldBeClosed,
                                 jvm.closeable, jvm.closeFails);
      }
    }

    /** launch(args, jobClassLoaders, saturnApplications): as launch, with
        the embedder's application map passed to buildExecutor. */
    method LaunchWithApplications(args: seq<string>, jobLoaders: Option<seq<LoaderId>>, applications: Option<AppMap>)
      returns (o: Outcome, ghost reached: Phase)
      requires jvm.Valid()
      requires jobLoaders.Some? ==> forall l :: l in jobLoaders.value ==> l < jvm.nextId
      modifies this, jvm`properties, jvm`created, jvm`nextId, jvm`closeable, jvm`contextLoader, jvm`calls
      ensures jvm.Valid()
      ensures jvm.contextLoader == old(jvm.contextLoader) && jvm.closed == old(jvm.closed)
      ensures o.Pass? <==> reached == Running
      ensures var p := Parse(args, ParseState(old(Opts()), old(jvm.properties)));
        && Opts() == p.st.opts && jvm.properties == p.st.props
        && (reached == Unstarted <==> p.err.Some?)
        && (reached == Unstarted ==> o == Fail(p.err.value))
      ensures reached == Unstarted ==>
        && jvm.created == old(jvm.created) && jvm.nextId == old(jvm.nextId) && jvm.calls == old(jvm.calls)
        && executorClassLoader == old(executorClassLoader) && jobClassLoaders == old(jobClassLoaders)
        && saturnExecutor == old(saturnExecutor)
        && executorClassLoaderShouldBeClosed == old(executorClassLoaderShouldBeClosed)
        && jobClassLoaderShouldBeClosed == old(jobClassLoaderShouldBeClosed)
        && jvm.closeable == old(jvm.closeable)
      ensures reached != Unstarted ==> !IsBlank(namespace)
      ensures reached == Configured ==>
        o.Fail? && o.error.NullPointer? && jvm.calls == old(jvm.calls) && saturnExecutor == old(saturnExecutor)
      ensures reached == Configured ==>
        InitFailedAs(None, old(executorClassLoader), old(executorClassLoaderShouldBeClosed),
                     old(jobClassLoaders), old(jobClassLoaderShouldBeClosed),
                     old(jvm.nextId), old(jvm.created), old(jvm.closeable), o)
      ensures reached == Isolated || reached == Running ==>
        InitialisedAs(None, jobLoaders, old(jobClassLoaderShouldBeClosed),
                      old(jvm.nextId), old(jvm.created), old(jvm.closeable))
      ensures reached == Isolated || reached == Running ==>
        && executorClassLoader == Some(old(jvm.nextId)) && executorClassLoaderShouldBeClosed
        && (jobLoaders.Some? ==> forall l :: l in jobLoaders.value ==> l !in PendingCloses())
      ensures reached == Isolated || reached == Running ==>
        StartedAs(applications, old(jvm.calls), old(saturnExecutor), o)
      ensures reached == Running ==> saturnExecutor.Some? && saturnExecutor.value.applications == applications
    {
      o, reached := Bootstrap(args, None, jobLoaders, applications);
      if (reached == Isolated || reached == Running) && jobLoaders.Some? {
        SuppliedLoadersNotClosed(jobClassLoaders, executorClassLoader, executorClassLoaderShouldBeClosed,
                                 jvm.closeable, jvm.closeFails);
      }
    }

    /** launchInner(args, executorClassLoader, jobClassLoaders): fully
        embedded when both are given, and then nothing is ever closed; a
        null executor loader is replaced by a fresh launcher-built one. */
    method LaunchInner(args: seq<string>, executorLoader: Option<LoaderId>, jobLoaders: Option<seq<LoaderId>>)
      returns (o: Outcome, ghost reached: Phase)
      requires jvm.Valid()
      modifies this, jvm`properties, jvm`created, jvm`nextId, jvm`closeable, jvm`contextLoader, jvm`calls
      ensures jvm.Valid()
      ensures jvm.contextLoader == old(jvm.contextLoader) && jvm.closed == old(jvm.closed)
      ensures o.Pass? <==> reached == Running
      ensures var p := Parse(args, ParseState(old(Opts()), old(jvm.properties)));
        && Opts() == p.st.opts && jvm.properties == p.st.props
        && (reached == Unstarted <==> p.err.Some?)
        && (reached == Unstarted ==> o == Fail(p.err.value))
      ensures reached == Unstarted ==>
        && jvm.created == old(jvm.created) && jvm.nextId == old(jvm.nextId) && jvm.calls == old(jvm.calls)
        && executorClassLoader == old(executorClassLoader) && jobClassLoaders == old(jobClassLoaders)
        && saturnExecutor == old(saturnExecutor)
        && executorClassLoaderShouldBeClosed == old(executorClassLoaderShouldBeClosed)
        && jobClassLoaderShouldBeClosed == old(jobClassLoaderShouldBeClosed)
        && jvm.closeable == old(jvm.closeable)
      ensures reached != Unstarted ==> !IsBlank(namespace)
      ensures reached == Configured ==>
        o.Fail? && o.error.NullPointer? && jvm.calls == old(jvm.calls) && saturnExecutor == old(saturnExecutor)
      ensures reached == Configured ==>
        InitFailedAs(executorLoader, old(executorClassLoader), old(executorClassLoaderShouldBeClosed),
                     old(jobClassLoaders), old(jobClassLoaderShouldBeClosed),
                     old(jvm.nextId), old(jvm.created), old(jvm.closeable), o)
      ensures reached == Isolated || reached == Running ==>
        InitialisedAs(executorLoader, jobLoaders, old(jobClassLoaderShouldBeClosed),
                      old(jvm.nextId), old(jvm.created), old(jvm.closeable))
      ensures reached == Isolated || reached == Running ==>
        && (executorLoader.Some? ==> executorClassLoader == executorLoader && !executorClassLoaderShouldBeClosed)
        && (executorLoader.None? ==> executorClassLoader == Some(old(jvm.nextId)) && executorClassLoaderShouldBeClosed)
        && (executorLoader.Some? && jobLoaders.Some? ==> jobClassLoaders == jobLoaders && PendingCloses() == {})
      ensures reached == Isolated || reached == Running ==> StartedAs(None, old(jvm.calls), old(saturnExecutor), o)
    {
      o, reached := Bootstrap(args, executorLoader, jobLoaders, None);
      if (reached == Isolated || reached == Running) && executorLoader.Some? && jobLoaders.Some? {
        SuppliedLoadersNotClosed(jobClassLoaders, executorClassLoader, executorClassLoaderShouldBeClosed,
                                 jvm.closeable, jvm.closeFails);
      }
    }
  }
}
