/** Specification of the loaders the launcher builds for the application
    library (Main.setJobClassLoader) and of those it closes at shutdown
    (Main.closeClassLoader), as the code is written. */
module Domains {
  import opened Common
  import opened Files
  import opened Runtime

  /** listFiles() of an entry; only a directory has entries. */
  function Children(node: FsNode): seq<FsNode> {
    if node.Dir? then node.children else []
  }

  /** How many of the entries are directories, i.e. get a loader of their own. */
  function DirCount(cs: seq<FsNode>): (n: nat)
    ensures n <= |cs|
  {
    if cs == [] then 0 else DirCount(cs[..|cs| - 1]) + (if cs[|cs| - 1].Dir? then 1 else 0)
  }

  /** The list setJobClassLoader builds from the entries of the application
      library: a fresh JobClassLoader per directory, numbered from `next` in
      listing order, and the executor loader for every other entry. */
  function JobLoaders(cs: seq<FsNode>, executorLoader: LoaderId, next: nat): (r: seq<LoaderId>)
    ensures |r| == |cs|
  {
    if cs == [] then []
    else
      var prefix := cs[..|cs| - 1];
      JobLoaders(prefix, executorLoader, next)
        + [if cs[|cs| - 1].Dir? then next + DirCount(prefix) else executorLoader]
  }

  /** The loaders that construction adds, each over the scan of its directory. */
  function NewJobLoaders(dir: string, cs: seq<FsNode>, next: nat): map<LoaderId, LoaderInfo> {
    if cs == [] then map[]
    else
      var prefix := cs[..|cs| - 1];
      var last := cs[|cs| - 1];
      var m := NewJobLoaders(dir, prefix, next);
      if last.Dir? then m[next + DirCount(prefix) := JobLoader(Urls(ChildPath(dir, last), last))] else m
  }

  /** jobClassLoaderShouldBeClosed after the loop: every entry overwrites it,
      so the last entry decides; with no entries it keeps its value. */
  function JobFlag(cs: seq<FsNode>, flag: bool): bool {
    if cs == [] then flag else cs[|cs| - 1].Dir?
  }

  /** The first try block of closeClassLoader: close every Closeable entry in
      order; the first IOException ends the loop and is swallowed. */
  function JobLoopCloses(loaders: seq<LoaderId>, closeable: set<LoaderId>, closeFails: set<LoaderId>): set<LoaderId> {
    if loaders == [] then {}
    else if loaders[0] !in closeable then JobLoopCloses(loaders[1..], closeable, closeFails)
    else if loaders[0] in closeFails then {}
    else {loaders[0]} + JobLoopCloses(loaders[1..], closeable, closeFails)
  }

  /** The loaders closeClassLoader closes successfully, given the launcher's
      loader fields and flags. */
  function ToClose(jobs: Option<seq<LoaderId>>, jobFlag: bool, executor: Option<LoaderId>, executorFlag: bool,
                   closeable: set<LoaderId>, closeFails: set<LoaderId>): set<LoaderId> {
    (if jobFlag && jobs.Some? then JobLoopCloses(jobs.value, closeable, closeFails) else {})
    + (if executorFlag && executor.Some? && executor.value in closeable && executor.value !in closeFails
       then {executor.value} else {})
  }

  // ---------------------------------------------------------------------------
  // One entry per direct child

  lemma {:induction false} DirCountPrefix(cs: seq<FsNode>, i: nat, j: nat)
    requires i <= j <= |cs|
    ensures DirCount(cs[..i]) <= DirCount(cs[..j])
    ensures i < j && cs[i].Dir? ==> DirCount(cs[..i]) < DirCount(cs[..j])
    decreases j - i
  {
    if i < j {
      DirCountPrefix(cs, i, j - 1);
      assert cs[..j][..j - 1] == cs[..j - 1];
      if i == j - 1 {
        assert cs[..j][j - 1] == cs[i];
      }
    }
  }

  /** The job-loader list has one entry per entry of the application library;
      entry i is the fresh loader numbered by the directories before it when
      entry i is a directory, and the executor loader otherwise. */
  lemma {:induction false} JobLoadersAt(cs: seq<FsNode>, executorLoader: LoaderId, next: nat)
    ensures |JobLoaders(cs, executorLoader, next)| == |cs|
    ensures forall i :: 0 <= i < |cs| ==>
      JobLoaders(cs, executorLoader, next)[i] == if cs[i].Dir? then next + DirCount(cs[..i]) else executorLoader
    decreases |cs|
  {
    if cs != [] {
      var prefix := cs[..|cs| - 1];
      JobLoadersAt(prefix, executorLoader, next);
      forall i | 0 <= i < |prefix| ensures prefix[..i] == cs[..i] { }
    }
  }

  /** The fresh job loaders are pairwise distinct and fall in
      [next, next + DirCount(cs)). */
  lemma FreshJobLoadersDistinct(cs: seq<FsNode>, executorLoader: LoaderId, next: nat)
    ensures forall i, j :: 0 <= i < j < |cs| && cs[i].Dir? && cs[j].Dir? ==>
      JobLoaders(cs, executorLoader, next)[i] != JobLoaders(cs, executorLoader, next)[j]
    ensures forall i :: 0 <= i < |cs| && cs[i].Dir? ==>
      next <= JobLoaders(cs, executorLoader, next)[i] < next + DirCount(cs)
  {
    JobLoadersAt(cs, executorLoader, next);
    forall i, j | 0 <= i < j < |cs| && cs[i].Dir?
      ensures DirCount(cs[..i]) < DirCount(cs[..j])
    {
      DirCountPrefix(cs, i, j);
    }
    forall i | 0 <= i < |cs| && cs[i].Dir?
      ensures DirCount(cs[..i]) < DirCount(cs)
    {
      DirCountPrefix(cs, i, |cs|);
      assert cs[..|cs|] == cs;
    }
  }

  /** Construction adds exactly the ids [next, next + DirCount(cs)). */
  lemma {:induction false} NewJobLoadersKeys(dir: string, cs: seq<FsNode>, next: nat)
    ensures forall id :: id in NewJobLoaders(dir, cs, next) <==> next <= id < next + DirCount(cs)
    decreases |cs|
  {
    if cs != [] {
      NewJobLoadersKeys(dir, cs[..|cs| - 1], next);
    }
  }

  /** The loader for directory entry i is a JobClassLoader over the scan of
      that directory, under the id numbered by the directories before it. */
  lemma {:induction false} NewJobLoadersAt(dir: string, cs: seq<FsNode>, next: nat)
    ensures forall i :: 0 <= i < |cs| && cs[i].Dir? ==>
      next + DirCount(cs[..i]) in NewJobLoaders(dir, cs, next) &&
      NewJobLoaders(dir, cs, next)[next + DirCount(cs[..i])] == JobLoader(Urls(ChildPath(dir, cs[i]), cs[i]))
    decreases |cs|
  {
    if cs != [] {
      var prefix := cs[..|cs| - 1];
      NewJobLoadersAt(dir, prefix, next);
      forall i | 0 <= i < |cs| && cs[i].Dir?
        ensures next + DirCount(cs[..i]) in NewJobLoaders(dir, cs, next)
        ensures NewJobLoaders(dir, cs, next)[next + DirCount(cs[..i])] == JobLoader(Urls(ChildPath(dir, cs[i]), cs[i]))
      {
        if i < |prefix| {
          assert prefix[..i] == cs[..i];
          assert prefix[i] == cs[i];
          DirCountPrefix(cs, i, |prefix|);
        } else {
          assert cs[..i] == prefix;
        }
      }
    }
  }

  /** One more entry of the application library: how each of the functions
      above grows. */
  lemma JobLoadersStep(dir: string, cs: seq<FsNode>, executorLoader: LoaderId, next: nat, k: nat, flag: bool)
    requires k < |cs|
    ensures var id := next + DirCount(cs[..k]);
      && DirCount(cs[..k + 1]) == DirCount(cs[..k]) + (if cs[k].Dir? then 1 else 0)
      && JobLoaders(cs[..k + 1], executorLoader, next)
         == JobLoaders(cs[..k], executorLoader, next) + [if cs[k].Dir? then id else executorLoader]
      && JobFlag(cs[..k + 1], flag) == cs[k].Dir?
      && NewJobLoaders(dir, cs[..k + 1], next)
         == (if cs[k].Dir? then NewJobLoaders(dir, cs[..k], next)[id := JobLoader(Urls(ChildPath(dir, cs[k]), cs[k]))]
             else NewJobLoaders(dir, cs[..k], next))
  {
    assert cs[..k + 1][..k] == cs[..k];
  }

  /** Registering one more loader after a batch is registering the batch
      extended by it. */
  lemma MergeUpdate(created: map<LoaderId, LoaderInfo>, added: map<LoaderId, LoaderInfo>, id: LoaderId, info: LoaderInfo)
    ensures (created + added)[id := info] == created + added[id := info]
    ensures (created + added).Keys + {id} == created.Keys + added[id := info].Keys
  {
  }

  // ---------------------------------------------------------------------------
  // What shutdown closes

  /** The job loop closes only Closeable loaders of the list whose close()
      does not throw; when no close() throws it closes every one of them. */
  lemma {:induction false} JobLoopClosesExactly(loaders: seq<LoaderId>, closeable: set<LoaderId>, closeFails: set<LoaderId>)
    ensures forall l :: l in JobLoopCloses(loaders, closeable, closeFails) ==>
      l in loaders && l in closeable && l !in closeFails
    ensures (forall k :: 0 <= k < |loaders| ==> loaders[k] !in closeFails) ==>
      forall l :: l in JobLoopCloses(loaders, closeable, closeFails) <==> l in loaders && l in closeable
    decreases |loaders|
  {
    if loaders != [] {
      JobLoopClosesExactly(loaders[1..], closeable, closeFails);
      assert forall l :: l in loaders <==> l == loaders[0] || l in loaders[1..];
    }
  }

  /** Loaders stored with their flag false are never closed: with the job flag
      false only the executor loader can be, and only when its flag is set. */
  lemma SuppliedLoadersNotClosed(jobs: Option<seq<LoaderId>>, executor: Option<LoaderId>, executorFlag: bool,
                                 closeable: set<LoaderId>, closeFails: set<LoaderId>)
    ensures forall l :: l in ToClose(jobs, false, executor, executorFlag, closeable, closeFails) ==>
      executorFlag && executor == Some(l)
  {
  }

  /** Standalone launch whose last application entry is a directory, with no
      close() throwing: every job loader and the executor loader is closed. */
  lemma StandaloneClosesAll(cs: seq<FsNode>, executorLoader: LoaderId, next: nat, flag: bool,
                            closeable: set<LoaderId>, closeFails: set<LoaderId>)
    requires cs != [] && cs[|cs| - 1].Dir?
    requires executorLoader in closeable
    requires forall l :: l in JobLoaders(cs, executorLoader, next) ==> l in closeable
    requires closeFails == {}
    ensures var jobs := JobLoaders(cs, executorLoader, next);
      forall l :: l in ToClose(Some(jobs), JobFlag(cs, flag), Some(executorLoader), true, closeable, closeFails)
             <==> l in jobs || l == executorLoader
  {
    JobLoopClosesExactly(JobLoaders(cs, executorLoader, next), closeable, closeFails);
  }

  /** As written, when the last application entry is not a directory the job
      flag ends false, so none of the fresh job loaders is ever closed. */
  lemma LooseLastEntryLeaksJobLoaders(cs: seq<FsNode>, executorLoader: LoaderId, next: nat, flag: bool,
                                      closeable: set<LoaderId>, closeFails: set<LoaderId>, i: nat)
    requires cs != [] && !cs[|cs| - 1].Dir?
    requires executorLoader < next
    requires i < |cs| && cs[i].Dir?
    ensures JobLoaders(cs, executorLoader, next)[i] !in
      ToClose(Some(JobLoaders(cs, executorLoader, next)), JobFlag(cs, flag), Some(executorLoader), true, closeable, closeFails)
  {
    JobLoadersAt(cs, executorLoader, next);
  }

  /** As written, when the executor loader was supplied by the caller but the
      application library was scanned, a loose entry puts the supplied loader
      into the job list; if the last entry is a directory the job flag is set
      and the job loop closes the supplied loader. */
  lemma SuppliedExecutorLoaderClosedByJobLoop(cs: seq<FsNode>, executorLoader: LoaderId, next: nat, flag: bool,
                                              closeable: set<LoaderId>, i: nat)
    requires cs != [] && cs[|cs| - 1].Dir?
    requires i < |cs| && !cs[i].Dir?
    requires executorLoader in closeable
    ensures executorLoader in
      ToClose(Some(JobLoaders(cs, executorLoader, next)), JobFlag(cs, flag), Some(executorLoader), false, closeable, {})
  {
    var jobs := JobLoaders(cs, executorLoader, next);
    JobLoadersAt(cs, executorLoader, next);
    assert jobs[i] == executorLoader;
    JobLoopClosesExactly(jobs, closeable, {});
  }
}
