/** The process around the launcher: class loaders as opaque ids, the
    thread's context class loader, system properties, and the reflective
    calls into the executor runtime, whose behaviour is fixed by the
    environment rather than by any code shown. */
module Runtime {
  import opened Common
  import opened Files

  /** An opaque class-loader identity. */
  type LoaderId = nat

  /** The well-known entry class the launcher loads through the runtime loader. */
  const SaturnExecutorClass: string := "com.vip.saturn.job.executor.SaturnExecutor"

  /** How a loader the launcher built was constructed: a SaturnClassLoader
      over the runtime library with the launcher's own loader as parent, or a
      JobClassLoader over one application directory. */
  datatype LoaderInfo =
    | SaturnLoader(urls: seq<Location>, parent: LoaderId)
    | JobLoader(urls: seq<Location>)

  /** A reflected runtime method that was invoked, with the context class
      loader in force at the time. */
  datatype Call = Called(methodName: string, context: Option<LoaderId>)

  /** The embedder's map from application loader to application object,
      passed through to buildExecutor untouched. */
  type AppMap = map<LoaderId, nat>

  /** What buildExecutor was given; the executor object is known only by it. */
  datatype ExecutorHandle = ExecutorHandle(
    namespace: Option<string>,
    executorName: Option<string>,
    executorLoader: LoaderId,
    jobLoaders: Option<seq<LoaderId>>,
    applications: Option<AppMap>)

  class Jvm {
    /** The file tree; a path not in the map does not exist. */
    const fs: map<string, FsNode>
    /** Main.class.getClassLoader(). */
    const launcherLoader: LoaderId
    /** Whether loadClass(name) on a loader succeeds. */
    const canLoad: (LoaderId, string) -> bool
    /** Reflected runtime methods that throw when invoked. */
    const failing: set<string>
    /** Loaders whose close() throws IOException. */
    const closeFails: set<LoaderId>
    /** What the runtime's getExecutorName() returns. */
    const reportedName: Option<string>

    /** Thread.currentThread().getContextClassLoader(). */
    var contextLoader: Option<LoaderId>
    /** System properties. */
    var properties: map<string, string>
    /** Loaders constructed during this run, and how. */
    var created: map<LoaderId, LoaderInfo>
    /** Every id below nextId has been handed out. */
    var nextId: LoaderId
    /** Loaders that implement java.io.Closeable. */
    var closeable: set<LoaderId>
    /** Loaders whose close() has returned normally. */
    var closed: set<LoaderId>
    /** Reflected runtime methods invoked so far, in order. */
    var calls: seq<Call>

    ghost predicate Valid()
      reads this
    {
      && launcherLoader < nextId
      && (forall id :: id in created ==> id < nextId && id in closeable)
    }

    constructor (fs: map<string, FsNode>, launcherLoader: LoaderId, contextLoader: Option<LoaderId>,
                 canLoad: (LoaderId, string) -> bool, failing: set<string>, closeFails: set<LoaderId>,
                 reportedName: Option<string>, nextId: LoaderId, closeable: set<LoaderId>)
      requires launcherLoader < nextId
      ensures Valid()
      ensures this.fs == fs && this.launcherLoader == launcherLoader && this.canLoad == canLoad
      ensures this.failing == failing && this.closeFails == closeFails && this.reportedName == reportedName
      ensures this.contextLoader == contextLoader && this.nextId == nextId && this.closeable == closeable
      ensures properties == map[] && created == map[] && closed == {} && calls == []
    {
      this.fs, this.launcherLoader, this.canLoad := fs, launcherLoader, canLoad;
      this.failing, this.closeFails, this.reportedName := failing, closeFails, reportedName;
      this.contextLoader, this.nextId, this.closeable := contextLoader, nextId, closeable;
      properties, created, closed, calls := map[], map[], {}, [];
    }

    /** new File(path): the entry at that path; null throws NullPointerException. */
    function Lookup(path: string): FsNode {
      if path in fs then fs[path] else Missing
    }

    /** Constructing a URLClassLoader: a fresh, closeable loader. */
    method NewLoader(info: LoaderInfo) returns (id: LoaderId)
      requires Valid()
      modifies this`created, this`nextId, this`closeable
      ensures Valid()
      ensures id == old(nextId) && nextId == id + 1
      ensures created == old(created)[id := info] && closeable == old(closeable) + {id}
    {
      id := nextId;
      created := created[id := info];
      closeable := closeable + {id};
      nextId := nextId + 1;
    }

    /** loader.loadClass(name); a null loader throws NullPointerException. */
    function LoadClass(loader: Option<LoaderId>, name: string): Outcome {
      if loader.None? then Fail(NullPointer("executorClassLoader"))
      else if canLoad(loader.value, name) then Pass
      else Fail(ClassNotFound(name))
    }

    /** Method.invoke of a runtime method on the executor object; a null
        target throws NullPointerException before anything is invoked. */
    method Invoke(methodName: string, target: Option<ExecutorHandle>) returns (o: Outcome)
      modifies this`calls
      ensures target.None? ==> o == Fail(NullPointer("saturnExecutor")) && calls == old(calls)
      ensures target.Some? ==> calls == old(calls) + [Called(methodName, contextLoader)]
      ensures target.Some? ==> o == if methodName in failing then Fail(InvocationFailed(methodName)) else Pass
    {
      if target.None? {
        return Fail(NullPointer("saturnExecutor"));
      }
      calls := calls + [Called(methodName, contextLoader)];
      o := if methodName in failing then Fail(InvocationFailed(methodName)) else Pass;
    }

    /** The static buildExecutor(namespace, executorName, executorClassLoader,
        jobClassLoaders, saturnApplications). */
    method BuildExecutor(namespace: Option<string>, executorName: Option<string>, executorLoader: LoaderId,
                         jobLoaders: Option<seq<LoaderId>>, applications: Option<AppMap>)
      returns (r: Result<ExecutorHandle>)
      modifies this`calls
      ensures calls == old(calls) + [Called("buildExecutor", contextLoader)]
      ensures "buildExecutor" in failing ==> r == Err(InvocationFailed("buildExecutor"))
      ensures "buildExecutor" !in failing ==>
        r == Ok(ExecutorHandle(namespace, executorName, executorLoader, jobLoaders, applications))
    {
      calls := calls + [Called("buildExecutor", contextLoader)];
      if "buildExecutor" in failing {
        r := Err(InvocationFailed("buildExecutor"));
      } else {
        r := Ok(ExecutorHandle(namespace, executorName, executorLoader, jobLoaders, applications));
      }
    }

    /** ((Closeable) loader).close(); returns false when it throws IOException. */
    method Close(loader: LoaderId) returns (ok: bool)
      modifies this`closed
      ensures ok == (loader !in closeFails)
      ensures closed == if ok then old(closed) + {loader} else old(closed)
    {
      ok := loader !in closeFails;
      if ok {
        closed := closed + {loader};
      }
    }
  }
}
