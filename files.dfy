/** The launcher's artefact scan (Main.getUrls) over a modelled file tree. */
module Files {

  /** A file-system entry as java.io.File sees it: absent, a regular file, or
      a directory whose listFiles() order is the order of `children`. */
  datatype FsNode = Missing | File(name: string) | Dir(name: string, children: seq<FsNode>)

  /** What file.toURI().toURL() identifies: the entry's path, and whether it
      is a directory (a directory URL ends in '/'). */
  datatype Location = Location(path: string, isDirectory: bool)

  /** File.getName(); an absent entry has no name of its own here. */
  function NameOf(node: FsNode): string {
    match node
    case Missing => ""
    case File(name) => name
    case Dir(name, _) => name
  }

  /** The path of a child entry of the directory at `dir`. */
  function ChildPath(dir: string, child: FsNode): string {
    dir + "/" + NameOf(child)
  }

  /** A directory whose name is exactly "classes" is one compiled-output
      location and is not walked. */
  predicate IsClassesDir(node: FsNode) {
    node.Dir? && node.name == "classes"
  }

  /** Specification of getUrls(file) for the entry `node` found at `path`. */
  function Urls(path: string, node: FsNode): seq<Location>
    decreases node, 1
  {
    match node
    case Missing => []
    case File(_) => [Location(path, false)]
    case Dir(name, cs) =>
      if name == "classes" then [Location(path, true)] else ChildUrls(path, cs)
  }

  /** The concatenation, in listing order, of the scans of the children. */
  function ChildUrls(dir: string, cs: seq<FsNode>): seq<Location>
    decreases cs, 0
  {
    if cs == [] then []
    else ChildUrls(dir, cs[..|cs| - 1]) + Urls(ChildPath(dir, cs[|cs| - 1]), cs[|cs| - 1])
  }

  /** getUrls: builds the list with add/addAll while walking the children. */
  method GetUrls(path: string, node: FsNode) returns (urls: seq<Location>)
    ensures urls == Urls(path, node)
    decreases node
  {
    urls := [];
    if node.Missing? {
      return;
    }
    if node.Dir? {
      if node.name == "classes" {
        urls := urls + [Location(path, true)];
        return;
      }
      var files := node.children;
      var i := 0;
      while i < |files|
        invariant 0 <= i <= |files|
        invariant urls == ChildUrls(path, files[..i])
      {
        var tmp := GetUrls(ChildPath(path, files[i]), files[i]);
        assert files[..i + 1][..i] == files[..i];
        urls := urls + tmp;
        i := i + 1;
      }
      assert files[..|files|] == files;
      return;
    }
    urls := urls + [Location(path, false)];
  }

  predicate EndsWith(s: string, suffix: string) {
    |suffix| <= |s| && s[|s| - |suffix|..] == suffix
  }

  /** Every location the scan yields is a regular file or a `classes`
      directory: the scanned entry itself when it is one, otherwise a
      descendant whose path ends in "/classes". Every location lies at or
      below the scanned path. */
  lemma {:induction false} UrlsAreArtefacts(path: string, node: FsNode)
    ensures forall l :: l in Urls(path, node) && l.isDirectory ==>
      (l.path == path && IsClassesDir(node)) || EndsWith(l.path, "/classes")
    ensures forall l :: l in Urls(path, node) ==> |path| <= |l.path| && l.path[..|path|] == path
    decreases node, 1
  {
    match node
    case Missing =>
    case File(_) =>
    case Dir(name, cs) =>
      if name != "classes" {
        ChildUrlsAreArtefacts(path, cs);
      }
  }

  lemma {:induction false} ChildUrlsAreArtefacts(dir: string, cs: seq<FsNode>)
    ensures forall l :: l in ChildUrls(dir, cs) && l.isDirectory ==> EndsWith(l.path, "/classes")
    ensures forall l :: l in ChildUrls(dir, cs) ==> |dir| < |l.path| && l.path[..|dir|] == dir
    decreases cs, 0
  {
    if cs != [] {
      var last := cs[|cs| - 1];
      var p := ChildPath(dir, last);
      ChildUrlsAreArtefacts(dir, cs[..|cs| - 1]);
      UrlsAreArtefacts(p, last);
      forall l | l in Urls(p, last)
        ensures l.isDirectory ==> EndsWith(l.path, "/classes")
        ensures |dir| < |l.path| && l.path[..|dir|] == dir
      {
        assert p[..|dir|] == dir;
        assert l.path[..|dir|] == l.path[..|p|][..|dir|];
        if l.isDirectory && l.path == p && IsClassesDir(last) {
          assert p == dir + "/classes";
        }
      }
    }
  }

  /** The children's scans are concatenated in listing order. */
  lemma {:induction false} ChildUrlsAppend(dir: string, a: seq<FsNode>, b: seq<FsNode>)
    ensures ChildUrls(dir, a + b) == ChildUrls(dir, a) + ChildUrls(dir, b)
    decreases |b|
  {
    if b == [] {
      assert a + b == a;
    } else {
      var b' := b[..|b| - 1];
      assert (a + b)[..|a + b| - 1] == a + b';
      ChildUrlsAppend(dir, a, b');
    }
  }

  /** A directory's scan is its children's scans in order, one child at a time. */
  lemma ChildUrlsCons(dir: string, c: FsNode, cs: seq<FsNode>)
    ensures ChildUrls(dir, [c] + cs) == Urls(ChildPath(dir, c), c) + ChildUrls(dir, cs)
  {
    ChildUrlsAppend(dir, [c], cs);
    assert [c][..0] == [];
  }
}
