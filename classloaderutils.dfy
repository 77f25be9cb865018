/** ClassLoaderUtils.findClassLoader: the first loader of a list that can
    load a class, against the loading behaviour `canLoad` of the loaders. */
module ClassLoaderUtils {
  import opened Common
  import opened Runtime

  /** Specification of the search: the first loader, in list order, that can
      load `className`; None when none can. */
  function FirstLoadable(className: string, loaders: seq<LoaderId>, canLoad: (LoaderId, string) -> bool): Option<LoaderId>
    decreases |loaders|
  {
    if loaders == [] then None
    else if canLoad(loaders[0], className) then Some(loaders[0])
    else FirstLoadable(className, loaders[1..], canLoad)
  }

  /** The index of the first loader that can load `className`, if any. */
  ghost predicate FirstAt(className: string, loaders: seq<LoaderId>, canLoad: (LoaderId, string) -> bool, i: int) {
    && 0 <= i < |loaders|
    && canLoad(loaders[i], className)
    && forall j :: 0 <= j < i ==> !canLoad(loaders[j], className)
  }

  /** The search finds nothing exactly when no loader of the list can load the
      name; what it finds is the loader at the first index that can. */
  lemma {:induction false} FirstLoadableSpec(className: string, loaders: seq<LoaderId>, canLoad: (LoaderId, string) -> bool)
    ensures FirstLoadable(className, loaders, canLoad).None? <==>
      forall i :: 0 <= i < |loaders| ==> !canLoad(loaders[i], className)
    ensures FirstLoadable(className, loaders, canLoad).Some? ==>
      exists i :: FirstAt(className, loaders, canLoad, i) && loaders[i] == FirstLoadable(className, loaders, canLoad).value
    decreases |loaders|
  {
    if loaders != [] && !canLoad(loaders[0], className) {
      var rest := loaders[1..];
      FirstLoadableSpec(className, rest, canLoad);
      assert forall i :: 0 < i < |loaders| ==> loaders[i] == rest[i - 1];
      if FirstLoadable(className, rest, canLoad).Some? {
        var i :| FirstAt(className, rest, canLoad, i) && rest[i] == FirstLoadable(className, rest, canLoad).value;
        assert FirstAt(className, loaders, canLoad, i + 1);
      }
    } else if loaders != [] {
      assert FirstAt(className, loaders, canLoad, 0);
    }
  }

  /** findClassLoader(String, List): a null list gives null; otherwise the
      for-each loop returns the first loader whose loadClass succeeds, and
      null when every one throws ClassNotFoundException. */
  method FindClassLoader(className: string, classLoaders: Option<seq<LoaderId>>, canLoad: (LoaderId, string) -> bool)
    returns (r: Option<LoaderId>)
    ensures classLoaders.None? ==> r.None?
    ensures classLoaders.Some? ==> r == FirstLoadable(className, classLoaders.value, canLoad)
    ensures r.Some? ==> classLoaders.Some? && r.value in classLoaders.value && canLoad(r.value, className)
    ensures r.Some? ==>
      exists i :: FirstAt(className, classLoaders.value, canLoad, i) && classLoaders.value[i] == r.value
    ensures classLoaders.Some? && r.None? ==> forall l :: l in classLoaders.value ==> !canLoad(l, className)
  {
    if classLoaders.None? {
      return None;
    }
    var loaders := classLoaders.value;
    for i := 0 to |loaders|
      invariant forall j :: 0 <= j < i ==> !canLoad(loaders[j], className)
      invariant FirstLoadable(className, loaders[i..], canLoad) == FirstLoadable(className, loaders, canLoad)
    {
      var cl := loaders[i];
      assert loaders[i..][1..] == loaders[i + 1..];
      if canLoad(cl, className) {
        assert FirstAt(className, loaders, canLoad, i);
        return Some(cl);
      }
    }
    return None;
  }

  /** findClassLoader(Object, List): the same search for the canonical name of
      the instance's class. */
  method FindClassLoaderOf<O>(classInstance: O, canonicalName: O -> string, classLoaders: Option<seq<LoaderId>>,
                              canLoad: (LoaderId, string) -> bool)
    returns (r: Option<LoaderId>)
    ensures classLoaders.None? ==> r.None?
    ensures classLoaders.Some? ==> r == FirstLoadable(canonicalName(classInstance), classLoaders.value, canLoad)
  {
    var className := canonicalName(classInstance);
    r := FindClassLoader(className, classLoaders, canLoad);
  }
}
