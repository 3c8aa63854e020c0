/** The manifest that `process_dir` (src/targets/xbps.rs) builds, stated as
    functions: the records, the error enum, and `Walk`/`Visit`, which say what
    a walk over a directory leaves behind, on success and on failure.  The
    imperative walker in module `Xbps` is proved equal to `Walk`; the lemmas
    here say what `Walk` computes in terms of an independent pre-order
    enumeration of the tree (`Nodes`). */
module XbpsManifest {
  import opened Wrappers
  import opened Hex
  import opened FsTree

  /** The error enum of xbps.rs.  `Plist` (serialization) is declared but never
      produced by this model. */
  datatype Error = Io | Plist | SystemTime | StripPrefix | InvalidFilePath | CommandStatus

  /** The SHA-256 function, a parameter of the model. */
  type Digest = seq<byte> -> seq<byte>

  /** A directory record of `files.plist`. */
  datatype PkgDir = PkgDir(file: string)

  /** A file record of `files.plist`: path, whole seconds since the epoch, and
      the lowercase-hex digest. */
  datatype PkgFile = PkgFile(file: string, mtime: nat, sha256: string)

  /** `PkgFiles`, as a value. */
  datatype Manifest = Manifest(dirs: seq<PkgDir>, files: seq<PkgFile>)

  /** A symbolic link `name` in the staging directory, pointing at `target`. */
  datatype Link = Link(name: string, target: Path)

  /** Where a walk stops: its result, and the manifest and staged links as they
      are at that point (records pushed before an error stay pushed).  `links`
      is `None` when the walk creates no links (`linkdir` is `None`). */
  datatype Step = Step(result: Result<nat, Error>, manifest: Manifest, links: Option<seq<Link>>)

  /** `hash`: the lowercase-hex digest of a file's bytes, or `Io` when the file
      cannot be read. */
  function HashFile(sha: Digest, content: Option<seq<byte>>): (r: Result<string, Error>)
    ensures r.Err? <==> content.None?
    ensures r.Err? ==> r.error == Io
    ensures r.Ok? ==> |r.value| == 2 * |sha(content.value)| && IsLowerHex(r.value)
    ensures r.Ok? ==> FromHex(r.value) == Some(sha(content.value))
  {
    match content
    case None => Err(Io)
    case Some(bytes) => FromToHex(sha(bytes)); ToHexIsLowerHex(sha(bytes)); Ok(ToHex(sha(bytes)))
  }

  /** Whether the staging directory already holds a link called `name`. */
  predicate Linked(ls: seq<Link>, name: string) {
    exists i :: 0 <= i < |ls| && ls[i].name == name
  }

  /** Mirroring one entry into the staging directory, when there is one: no
      file name is `InvalidFilePath`, and `symlink` fails (`Io`) when the
      link's name is taken. */
  function LinkEntry(links: Option<seq<Link>>, path: Path): (r: Result<Option<seq<Link>>, Error>)
    ensures links.None? ==> r == Ok(None)
    ensures links.Some? && FileName(path).None? ==> r == Err(InvalidFilePath)
    ensures links.Some? && FileName(path).Some? ==>
      r == if Linked(links.value, FileName(path).value) then Err(Io)
           else Ok(Some(links.value + [Link(FileName(path).value, path)]))
  {
    match links
    case None => Ok(None)
    case Some(ls) =>
      match FileName(path)
      case None => Err(InvalidFilePath)
      case Some(name) => if Linked(ls, name) then Err(Io) else Ok(Some(ls + [Link(name, path)]))
  }

  /** The file record of a regular file at `path`, its fields evaluated in the
      source's order: the path, then the modification time, then the digest. */
  function FileRecord(sha: Digest, root: Path, path: Path, e: Entry): (r: Result<PkgFile, Error>)
    requires e.File?
    ensures r.Ok? <==> root <= path && e.mtime >= 0 && e.content.Some?
    ensures !(root <= path) ==> r == Err(StripPrefix)
    ensures root <= path && e.mtime < 0 ==> r == Err(SystemTime)
    ensures root <= path && e.mtime >= 0 && e.content.None? ==> r == Err(Io)
  {
    match StripRoot(path, root)
    case None => Err(StripPrefix)
    case Some(rel) =>
      if e.mtime < 0 then Err(SystemTime)
      else
        match HashFile(sha, e.content)
        case Err(err) => Err(err)
        case Ok(digest) => Ok(PkgFile(RecordPath(rel), e.mtime / NanosPerSecond, digest))
  }

  /** `process_dir(root, dir, files, linkdir)` run over the first `n` entries
      of directory `d` at `dir`, starting from manifest `m` and staged links
      `links`.  Reading the listing comes first; the first error stops the
      walk. */
  function Walk(sha: Digest, root: Path, dir: Path, d: Entry, n: nat,
                m: Manifest, links: Option<seq<Link>>): Step
    requires n <= |Children(d)|
    decreases d, n
  {
    if n == 0 then Step(if ReadDir(d).Some? then Ok(0) else Err(Io), m, links)
    else
      var prev := Walk(sha, root, dir, d, n - 1, m, links);
      if prev.result.Err? then prev
      else Visit(sha, root, dir, Children(d)[n - 1], prev.result.value, prev.manifest, prev.links)
  }

  /** One iteration of the loop of `process_dir`, for entry `e` of `dir`, with
      `size` bytes counted so far: mirror it, then classify it.  A directory is
      recorded and walked with no staging directory; a regular file is recorded
      and its length counted; anything else is skipped. */
  function Visit(sha: Digest, root: Path, dir: Path, e: Entry, size: nat,
                 m: Manifest, links: Option<seq<Link>>): Step
    decreases e, |Children(e)| + 1
  {
    var path := dir + [e.name];
    match LinkEntry(links, path)
    case Err(err) => Step(Err(err), m, links)
    case Ok(linked) =>
      if e.Dir? then
        match StripRoot(path, root)
        case None => Step(Err(StripPrefix), m, linked)
        case Some(rel) =>
          var sub := Walk(sha, root, path, e, |Children(e)|,
                          m.(dirs := m.dirs + [PkgDir(RecordPath(rel))]), None);
          match sub.result
          case Err(err) => Step(Err(err), sub.manifest, linked)
          case Ok(subSize) => Step(Ok(size + subSize), sub.manifest, linked)
      else if e.File? then
        match FileRecord(sha, root, path, e)
        case Err(err) => Step(Err(err), m, linked)
        case Ok(record) => Step(Ok(size + e.len), m.(files := m.files + [record]), linked)
      else Step(Ok(size), m, linked)
  }

  /** `process_files(pkgdir, tmpdir)`: a walk of the whole package root from an
      empty manifest, mirroring its top-level entries into a staging directory
      that already holds `staged`. */
  function Processed(sha: Digest, pkgdir: Path, tree: Entry, staged: seq<Link>): Step {
    Walk(sha, pkgdir, pkgdir, tree, |Children(tree)|, Manifest([], []), Some(staged))
  }

  // ---------------------------------------------------------------------
  // The reference: the tree in pre-order, and what the manifest should be.
  // ---------------------------------------------------------------------

  /** An entry of the tree together with its path. */
  datatype Node = Node(path: Path, entry: Entry)

  /** Every entry below the first `n` children of `d`, in pre-order, with
      paths starting at `base`. */
  function Nodes(base: Path, d: Entry, n: nat): seq<Node>
    requires n <= |Children(d)|
    decreases d, n
  {
    if n == 0 then [] else Nodes(base, d, n - 1) + Subtree(base, Children(d)[n - 1])
  }

  /** Child `c` of the directory at `base`, followed by everything below it. */
  function Subtree(base: Path, c: Entry): seq<Node>
    decreases c, |Children(c)| + 1
  {
    [Node(base + [c.name], c)] + Nodes(base + [c.name], c, |Children(c)|)
  }

  /** One directory record per directory node, in order. */
  function DirRecords(ns: seq<Node>): seq<PkgDir> {
    if ns == [] then []
    else DirRecords(ns[..|ns| - 1])
         + (if ns[|ns| - 1].entry.Dir? then [PkgDir(RecordPath(ns[|ns| - 1].path))] else [])
  }

  /** A node the walk can process without an error. */
  predicate Sound(node: Node) {
    match node.entry
    case Dir(_, readable, _) => readable
    case File(_, _, mtime, content) => mtime >= 0 && content.Some?
    case Other(_) => true
  }

  predicate AllSound(ns: seq<Node>) {
    forall i :: 0 <= i < |ns| ==> Sound(ns[i])
  }

  /** One file record per regular-file node, in order. */
  function FileRecords(sha: Digest, ns: seq<Node>): seq<PkgFile>
    requires AllSound(ns)
  {
    if ns == [] then []
    else
      var e := ns[|ns| - 1].entry;
      FileRecords(sha, ns[..|ns| - 1])
      + (if e.File? then [PkgFile(RecordPath(ns[|ns| - 1].path), e.mtime / NanosPerSecond, ToHex(sha(e.content.value)))]
         else [])
  }

  /** The sum of `len` over the regular-file nodes. */
  function InstalledSize(ns: seq<Node>): nat {
    if ns == [] then 0
    else InstalledSize(ns[..|ns| - 1]) + (if ns[|ns| - 1].entry.File? then ns[|ns| - 1].entry.len else 0)
  }

  /** The links a walk of `dir` stages: one per child, in order. */
  function TopLinks(dir: Path, cs: seq<Entry>): (ls: seq<Link>)
    ensures |ls| == |cs|
    ensures forall i :: 0 <= i < |cs| ==> ls[i] == Link(cs[i].name, dir + [cs[i].name])
  {
    seq(|cs|, i requires 0 <= i < |cs| => Link(cs[i].name, dir + [cs[i].name]))
  }

  /** Children that can all be mirrored into a staging directory holding
      `links`: each has a file name, not yet taken by a link or a sibling. */
  predicate Linkable(links: Option<seq<Link>>, cs: seq<Entry>) {
    links.Some? ==>
      forall i :: 0 <= i < |cs| ==>
        && cs[i].name != ".."
        && !Linked(links.value, cs[i].name)
        && forall j :: 0 <= j < i ==> cs[j].name != cs[i].name
  }

  // ---------------------------------------------------------------------
  // Facts about the reference functions.
  // ---------------------------------------------------------------------

  lemma {:induction false} DirRecordsAppend(a: seq<Node>, b: seq<Node>)
    ensures DirRecords(a + b) == DirRecords(a) + DirRecords(b)
    decreases |b|
  {
    if b != [] {
      assert (a + b)[..|a + b| - 1] == a + b[..|b| - 1];
      DirRecordsAppend(a, b[..|b| - 1]);
    } else {
      assert a + b == a;
    }
  }

  lemma {:induction false} FileRecordsAppend(sha: Digest, a: seq<Node>, b: seq<Node>)
    requires AllSound(a) && AllSound(b)
    ensures AllSound(a + b)
    ensures FileRecords(sha, a + b) == FileRecords(sha, a) + FileRecords(sha, b)
    decreases |b|
  {
    assert forall i :: 0 <= i < |a + b| ==> Sound((a + b)[i]) by {
      forall i | 0 <= i < |a + b| ensures Sound((a + b)[i]) {
        if i < |a| { assert (a + b)[i] == a[i]; } else { assert (a + b)[i] == b[i - |a|]; }
      }
    }
    if b != [] {
      assert (a + b)[..|a + b| - 1] == a + b[..|b| - 1];
      FileRecordsAppend(sha, a, b[..|b| - 1]);
    } else {
      assert a + b == a;
    }
  }

  lemma {:induction false} InstalledSizeAppend(a: seq<Node>, b: seq<Node>)
    ensures InstalledSize(a + b) == InstalledSize(a) + InstalledSize(b)
    decreases |b|
  {
    if b != [] {
      assert (a + b)[..|a + b| - 1] == a + b[..|b| - 1];
      InstalledSizeAppend(a, b[..|b| - 1]);
    } else {
      assert a + b == a;
    }
  }

  // ---------------------------------------------------------------------
  // What the walk computes.
  // ---------------------------------------------------------------------

  /** The first error ends the walk: no later entry is looked at, and the
      result and state stay what they were when it happened. */
  lemma {:induction false} WalkErrorIsFinal(sha: Digest, root: Path, dir: Path, d: Entry, n: nat, n': nat,
                                            m: Manifest, links: Option<seq<Link>>)
    requires n <= n' <= |Children(d)|
    requires Walk(sha, root, dir, d, n, m, links).result.Err?
    ensures Walk(sha, root, dir, d, n', m, links) == Walk(sha, root, dir, d, n, m, links)
    decreases n'
  {
    if n' > n {
      WalkErrorIsFinal(sha, root, dir, d, n, n' - 1, m, links);
    }
  }

  /** A walk step only appends: records already in the manifest, and links
      already staged, are never altered or removed. */
  ghost predicate Extends(m: Manifest, links: Option<seq<Link>>, s: Step) {
    && m.dirs <= s.manifest.dirs && m.files <= s.manifest.files
    && s.links.Some? == links.Some?
    && (links.Some? ==> links.value <= s.links.value)
  }

  /** The walk only appends, whatever its outcome. */
  lemma {:induction false} WalkAppendOnly(sha: Digest, root: Path, dir: Path, d: Entry, n: nat,
                                          m: Manifest, links: Option<seq<Link>>)
    requires n <= |Children(d)|
    ensures Extends(m, links, Walk(sha, root, dir, d, n, m, links))
    decreases d, n
  {
    if n > 0 {
      WalkAppendOnly(sha, root, dir, d, n - 1, m, links);
      var prev := Walk(sha, root, dir, d, n - 1, m, links);
      if prev.result.Ok? {
        VisitAppendOnly(sha, root, dir, Children(d)[n - 1], prev.result.value, prev.manifest, prev.links);
      }
    }
  }

  /** `WalkAppendOnly` for one entry. */
  lemma {:induction false} VisitAppendOnly(sha: Digest, root: Path, dir: Path, c: Entry, size: nat,
                                           m: Manifest, links: Option<seq<Link>>)
    ensures Extends(m, links, Visit(sha, root, dir, c, size, m, links))
    decreases c, |Children(c)| + 1
  {
    var path := dir + [c.name];
    if c.Dir? && LinkEntry(links, path).Ok? && StripRoot(path, root).Some? {
      var m1 := m.(dirs := m.dirs + [PkgDir(RecordPath(StripRoot(path, root).value))]);
      WalkAppendOnly(sha, root, path, c, |Children(c)|, m1, None);
    }
  }

  /** On success the walk returns the sum of `len` over every regular file
      anywhere below `d`; directories count only through their contents and
      other entries count nothing. */
  lemma {:induction false} WalkSize(sha: Digest, root: Path, rel: Path, d: Entry, n: nat,
                                    m: Manifest, links: Option<seq<Link>>)
    requires n <= |Children(d)|
    ensures var s := Walk(sha, root, root + rel, d, n, m, links);
      s.result.Ok? ==> s.result.value == InstalledSize(Nodes(rel, d, n))
    decreases d, n
  {
    if n > 0 {
      WalkSize(sha, root, rel, d, n - 1, m, links);
      var prev := Walk(sha, root, root + rel, d, n - 1, m, links);
      if prev.result.Ok? {
        var c := Children(d)[n - 1];
        assert Walk(sha, root, root + rel, d, n, m, links)
            == Visit(sha, root, root + rel, c, prev.result.value, prev.manifest, prev.links);
        VisitSize(sha, root, rel, c, prev.result.value, prev.manifest, prev.links);
        assert Nodes(rel, d, n) == Nodes(rel, d, n - 1) + Subtree(rel, c);
        InstalledSizeAppend(Nodes(rel, d, n - 1), Subtree(rel, c));
      }
    }
  }

  /** `WalkSize` for one entry. */
  lemma {:induction false} VisitSize(sha: Digest, root: Path, rel: Path, c: Entry, size: nat,
                                     m: Manifest, links: Option<seq<Link>>)
    ensures var s := Visit(sha, root, root + rel, c, size, m, links);
      s.result.Ok? ==> s.result.value == size + InstalledSize(Subtree(rel, c))
    decreases c, |Children(c)| + 1
  {
    var path := root + rel + [c.name];
    var rel' := rel + [c.name];
    assert path == root + rel';
    var here := [Node(rel', c)];
    var below := Nodes(rel', c, |Children(c)|);
    assert Subtree(rel, c) == here + below;
    InstalledSizeAppend(here, below);
    assert here[..0] == [];
    assert InstalledSize(here) == if c.File? then c.len else 0;
    if c.Dir? && LinkEntry(links, path).Ok? && StripRoot(path, root).Some? {
      var m1 := m.(dirs := m.dirs + [PkgDir(RecordPath(StripRoot(path, root).value))]);
      WalkSize(sha, root, rel', c, |Children(c)|, m1, None);
    } else if !c.Dir? {
      assert below == [];
    }
  }

  lemma StripRootOf(root: Path, rel: Path)
    ensures StripRoot(root + rel, root) == Some(rel)
  {
    assert (root + rel)[..|root|] == root;
    assert (root + rel)[|root|..] == rel;
  }

  /** On success, the directory was readable, every entry below it could be
      processed, and the walk appended exactly one record per directory and
      one per regular file, in pre-order, each with the path below `root` and,
      for a file, its whole seconds since the epoch and its digest.  Other
      entries produce no record. */
  lemma {:induction false} WalkRecords(sha: Digest, root: Path, rel: Path, d: Entry, n: nat,
                                       m: Manifest, links: Option<seq<Link>>)
    requires n <= |Children(d)|
    ensures var s := Walk(sha, root, root + rel, d, n, m, links);
      s.result.Ok? ==>
        && ReadDir(d).Some?
        && AllSound(Nodes(rel, d, n))
        && s.manifest == Manifest(m.dirs + DirRecords(Nodes(rel, d, n)),
                                  m.files + FileRecords(sha, Nodes(rel, d, n)))
    decreases d, n
  {
    if n == 0 {
      assert m.dirs + DirRecords([]) == m.dirs && m.files + FileRecords(sha, []) == m.files;
    } else {
      WalkRecords(sha, root, rel, d, n - 1, m, links);
      var prev := Walk(sha, root, root + rel, d, n - 1, m, links);
      if prev.result.Ok? {
        var c := Children(d)[n - 1];
        VisitRecords(sha, root, rel, c, prev.result.value, prev.manifest, prev.links);
        var s := Visit(sha, root, root + rel, c, prev.result.value, prev.manifest, prev.links);
        if s.result.Ok? {
          RecordsCompose(sha, m, prev.manifest, s.manifest, Nodes(rel, d, n - 1), Subtree(rel, c));
        }
      }
    }
  }

  /** Records of two consecutive stretches of nodes, appended one after the
      other, are the records of the whole. */
  lemma RecordsCompose(sha: Digest, m: Manifest, mid: Manifest, last: Manifest, a: seq<Node>, b: seq<Node>)
    requires AllSound(a) && AllSound(b)
    requires mid == Manifest(m.dirs + DirRecords(a), m.files + FileRecords(sha, a))
    requires last == Manifest(mid.dirs + DirRecords(b), mid.files + FileRecords(sha, b))
    ensures AllSound(a + b)
    ensures last == Manifest(m.dirs + DirRecords(a + b), m.files + FileRecords(sha, a + b))
  {
    DirRecordsAppend(a, b);
    FileRecordsAppend(sha, a, b);
    assert last.dirs == m.dirs + DirRecords(a + b);
    assert last.files == m.files + FileRecords(sha, a + b);
  }

  /** `WalkRecords` for one entry: the records of `c` and everything below it. */
  lemma {:induction false} VisitRecords(sha: Digest, root: Path, rel: Path, c: Entry, size: nat,
                                        m: Manifest, links: Option<seq<Link>>)
    ensures var s := Visit(sha, root, root + rel, c, size, m, links);
      s.result.Ok? ==>
        && AllSound(Subtree(rel, c))
        && s.manifest == Manifest(m.dirs + DirRecords(Subtree(rel, c)),
                                  m.files + FileRecords(sha, Subtree(rel, c)))
    decreases c, |Children(c)| + 2
  {
    var path := root + rel + [c.name];
    var rel' := rel + [c.name];
    assert path == root + rel';
    StripRootOf(root, rel');
    if LinkEntry(links, path).Ok? {
      var linked := LinkEntry(links, path).value;
      if c.Dir? {
        VisitDirRecords(sha, root, rel, c, size, m, linked);
      } else {
        VisitLeafRecords(sha, root, rel, c, size, m, linked);
      }
    }
  }

  /** `VisitRecords` for a file or other entry whose link, if any, was made. */
  lemma VisitLeafRecords(sha: Digest, root: Path, rel: Path, c: Entry, size: nat,
                         m: Manifest, linked: Option<seq<Link>>)
    requires !c.Dir?
    requires StripRoot(root + rel + [c.name], root) == Some(rel + [c.name])
    ensures var s := if c.File? then
                       match FileRecord(sha, root, root + rel + [c.name], c)
                       case Err(err) => Step(Err(err), m, linked)
                       case Ok(record) => Step(Ok(size + c.len), m.(files := m.files + [record]), linked)
                     else Step(Ok(size), m, linked);
      s.result.Ok? ==>
        && AllSound(Subtree(rel, c))
        && s.manifest == Manifest(m.dirs + DirRecords(Subtree(rel, c)),
                                  m.files + FileRecords(sha, Subtree(rel, c)))
  {
    var here := [Node(rel + [c.name], c)];
    assert here[..0] == [];
    assert Nodes(rel + [c.name], c, |Children(c)|) == [];
    assert Subtree(rel, c) == here;
    assert DirRecords(here) == DirRecords([]) + [];
    if c.File? {
      var record := FileRecord(sha, root, root + rel + [c.name], c);
      if record.Ok? {
        assert Sound(here[0]);
        assert FileRecords(sha, here) == [record.value];
      }
    } else {
      assert Sound(here[0]);
      assert FileRecords(sha, here) == [];
    }
  }

  /** `VisitRecords` for a directory whose link, if any, was made. */
  lemma {:induction false} VisitDirRecords(sha: Digest, root: Path, rel: Path, c: Entry, size: nat,
                                           m: Manifest, linked: Option<seq<Link>>)
    requires c.Dir?
    requires StripRoot(root + rel + [c.name], root) == Some(rel + [c.name])
    ensures var m1 := m.(dirs := m.dirs + [PkgDir(RecordPath(rel + [c.name]))]);
      var sub := Walk(sha, root, root + rel + [c.name], c, |Children(c)|, m1, None);
      sub.result.Ok? ==>
        && AllSound(Subtree(rel, c))
        && sub.manifest == Manifest(m.dirs + DirRecords(Subtree(rel, c)),
                                    m.files + FileRecords(sha, Subtree(rel, c)))
    decreases c, |Children(c)| + 1
  {
    var rel' := rel + [c.name];
    var here := [Node(rel', c)];
    var below := Nodes(rel', c, |Children(c)|);
    assert Subtree(rel, c) == here + below;
    var m1 := m.(dirs := m.dirs + [PkgDir(RecordPath(rel'))]);
    assert root + rel + [c.name] == root + rel';
    WalkRecords(sha, root, rel', c, |Children(c)|, m1, None);
    var sub := Walk(sha, root, root + rel', c, |Children(c)|, m1, None);
    if sub.result.Ok? {
      assert Sound(here[0]);
      assert here[..0] == [];
      assert DirRecords(here) == [PkgDir(RecordPath(rel'))];
      assert FileRecords(sha, here) == [];
      RecordsCompose(sha, m, m1, sub.manifest, here, below);
    }
  }

  /** An entry is mirrored before it is classified: once its link is made it
      stays, whatever then happens to the entry, and a link that cannot be
      made stops the walk before the entry is looked at. */
  lemma VisitLinks(sha: Digest, root: Path, dir: Path, c: Entry, size: nat,
                   m: Manifest, links: Option<seq<Link>>)
    ensures var s := Visit(sha, root, dir, c, size, m, links);
      var linked := LinkEntry(links, dir + [c.name]);
      && (linked.Ok? ==> s.links == linked.value)
      && (linked.Err? ==> s == Step(Err(linked.error), m, links))
  {
  }

  lemma TopLinksSnoc(dir: Path, cs: seq<Entry>, n: nat)
    requires 0 < n <= |cs|
    ensures TopLinks(dir, cs[..n]) == TopLinks(dir, cs[..n - 1]) + [Link(cs[n - 1].name, dir + [cs[n - 1].name])]
  {
    assert cs[..n][..n - 1] == cs[..n - 1];
  }

  /** Mirroring is shallow and complete: a successful walk that stages links
      adds exactly one link per child of `d`, in order, each pointing at the
      child's own path, and none for anything nested deeper; a walk without a
      staging directory makes none. */
  lemma {:induction false} WalkLinks(sha: Digest, root: Path, dir: Path, d: Entry, n: nat,
                                     m: Manifest, links: Option<seq<Link>>)
    requires n <= |Children(d)|
    ensures var s := Walk(sha, root, dir, d, n, m, links);
      && (links.None? ==> s.links.None?)
      && (links.Some? && s.result.Ok? ==> s.links == Some(links.value + TopLinks(dir, Children(d)[..n])))
    decreases n
  {
    if n == 0 {
      assert links.Some? ==> links.value + TopLinks(dir, Children(d)[..0]) == links.value;
    } else {
      WalkLinks(sha, root, dir, d, n - 1, m, links);
      var prev := Walk(sha, root, dir, d, n - 1, m, links);
      if prev.result.Ok? {
        var c := Children(d)[n - 1];
        VisitLinks(sha, root, dir, c, prev.result.value, prev.manifest, prev.links);
        var s := Visit(sha, root, dir, c, prev.result.value, prev.manifest, prev.links);
        assert Walk(sha, root, dir, d, n, m, links) == s;
        if links.Some? && s.result.Ok? {
          var path := dir + [c.name];
          var linked := LinkEntry(prev.links, path);
          assert linked.Ok?;
          assert FileName(path) == Some(c.name);
          assert linked.value == Some(prev.links.value + [Link(c.name, path)]);
          TopLinksSnoc(dir, Children(d), n);
          assert s.links == Some(links.value + TopLinks(dir, Children(d)[..n - 1]) + [Link(c.name, path)]);
          assert links.value + TopLinks(dir, Children(d)[..n - 1]) + [Link(c.name, path)]
              == links.value + TopLinks(dir, Children(d)[..n]);
        }
      }
    }
  }

  /** A walk rooted inside `root` never fails to strip the root prefix: every
      path it builds lies below `root`. */
  lemma {:induction false} WalkNoStripPrefix(sha: Digest, root: Path, rel: Path, d: Entry, n: nat,
                                             m: Manifest, links: Option<seq<Link>>)
    requires n <= |Children(d)|
    ensures Walk(sha, root, root + rel, d, n, m, links).result != Err(StripPrefix)
    decreases d, n
  {
    if n > 0 {
      WalkNoStripPrefix(sha, root, rel, d, n - 1, m, links);
      var prev := Walk(sha, root, root + rel, d, n - 1, m, links);
      if prev.result.Ok? {
        VisitNoStripPrefix(sha, root, rel, Children(d)[n - 1], prev.result.value, prev.manifest, prev.links);
      }
    }
  }

  /** `WalkNoStripPrefix` for one entry. */
  lemma {:induction false} VisitNoStripPrefix(sha: Digest, root: Path, rel: Path, c: Entry, size: nat,
                                              m: Manifest, links: Option<seq<Link>>)
    ensures Visit(sha, root, root + rel, c, size, m, links).result != Err(StripPrefix)
    decreases c, |Children(c)| + 1
  {
    var rel' := rel + [c.name];
    assert root + rel + [c.name] == root + rel';
    StripRootOf(root, rel');
    if c.Dir? && LinkEntry(links, root + rel').Ok? {
      var m1 := m.(dirs := m.dirs + [PkgDir(RecordPath(rel'))]);
      WalkNoStripPrefix(sha, root, rel', c, |Children(c)|, m1, None);
    }
  }

  lemma AllSoundAppend(a: seq<Node>, b: seq<Node>)
    ensures AllSound(a + b) <==> AllSound(a) && AllSound(b)
  {
    if AllSound(a) && AllSound(b) {
      forall i | 0 <= i < |a + b| ensures Sound((a + b)[i]) {
        if i < |a| { assert (a + b)[i] == a[i]; } else { assert (a + b)[i] == b[i - |a|]; }
      }
    }
    if AllSound(a + b) {
      forall i | 0 <= i < |a| ensures Sound(a[i]) { assert a[i] == (a + b)[i]; }
      forall i | 0 <= i < |b| ensures Sound(b[i]) { assert b[i] == (a + b)[|a| + i]; }
    }
  }

  /** A name is taken after staging `cs` exactly when it was taken before or
      is the name of one of `cs`. */
  lemma LinkedAfterTopLinks(ls: seq<Link>, dir: Path, cs: seq<Entry>, name: string)
    ensures Linked(ls + TopLinks(dir, cs), name) <==>
            Linked(ls, name) || exists j :: 0 <= j < |cs| && cs[j].name == name
  {
    var all := ls + TopLinks(dir, cs);
    if Linked(all, name) {
      var i :| 0 <= i < |all| && all[i].name == name;
      if i >= |ls| {
        assert all[i] == TopLinks(dir, cs)[i - |ls|];
        assert cs[i - |ls|].name == name;
      } else {
        assert ls[i] == all[i];
      }
    }
    if Linked(ls, name) {
      var i :| 0 <= i < |ls| && ls[i].name == name;
      assert all[i] == ls[i];
    }
    if exists j :: 0 <= j < |cs| && cs[j].name == name {
      var j :| 0 <= j < |cs| && cs[j].name == name;
      assert all[|ls| + j] == TopLinks(dir, cs)[j];
    }
  }

  lemma LinkableSnoc(links: Option<seq<Link>>, cs: seq<Entry>, n: nat)
    requires 0 < n <= |cs|
    ensures Linkable(links, cs[..n]) <==>
      && Linkable(links, cs[..n - 1])
      && (links.Some? ==>
            && cs[n - 1].name != ".."
            && !Linked(links.value, cs[n - 1].name)
            && forall j :: 0 <= j < n - 1 ==> cs[j].name != cs[n - 1].name)
  {
    assert cs[..n][..n - 1] == cs[..n - 1];
    assert forall i :: 0 <= i < n - 1 ==> cs[..n][i] == cs[..n - 1][i];
  }

  /** The link for child `n - 1` can be made, after its elder siblings were
      mirrored, exactly when `Linkable` asks it of that child. */
  lemma LinkEntryAfter(links: Option<seq<Link>>, staged: Option<seq<Link>>, dir: Path, cs: seq<Entry>, n: nat)
    requires 0 < n <= |cs|
    requires links.None? ==> staged.None?
    requires links.Some? ==> staged == Some(links.value + TopLinks(dir, cs[..n - 1]))
    ensures LinkEntry(staged, dir + [cs[n - 1].name]).Ok? <==>
      (links.Some? ==>
         && cs[n - 1].name != ".."
         && !Linked(links.value, cs[n - 1].name)
         && forall j :: 0 <= j < n - 1 ==> cs[j].name != cs[n - 1].name)
  {
    var c := cs[n - 1];
    if links.Some? {
      LinkedAfterTopLinks(links.value, dir, cs[..n - 1], c.name);
      assert forall j :: 0 <= j < n - 1 ==> cs[..n - 1][j] == cs[j];
      assert FileName(dir + [c.name]) == if c.name == ".." then None else Some(c.name);
    }
  }

  /** The walk succeeds exactly when the directory can be listed, every entry
      below it can be processed (each directory listed, each file's time and
      contents read) and, when it stages links, every child can be mirrored. */
  lemma {:induction false} WalkSucceeds(sha: Digest, root: Path, rel: Path, d: Entry, n: nat,
                                        m: Manifest, links: Option<seq<Link>>)
    requires n <= |Children(d)|
    ensures Walk(sha, root, root + rel, d, n, m, links).result.Ok? <==>
            ReadDir(d).Some? && AllSound(Nodes(rel, d, n)) && Linkable(links, Children(d)[..n])
    decreases d, n
  {
    var cs := Children(d);
    if n == 0 {
      assert Nodes(rel, d, 0) == [];
    } else {
      WalkSucceeds(sha, root, rel, d, n - 1, m, links);
      WalkLinks(sha, root, root + rel, d, n - 1, m, links);
      var prev := Walk(sha, root, root + rel, d, n - 1, m, links);
      var c := cs[n - 1];
      AllSoundAppend(Nodes(rel, d, n - 1), Subtree(rel, c));
      LinkableSnoc(links, cs, n);
      if prev.result.Ok? {
        VisitSucceeds(sha, root, rel, c, prev.result.value, prev.manifest, prev.links);
        LinkEntryAfter(links, prev.links, root + rel, cs, n);
      }
    }
  }

  /** `WalkSucceeds` for one entry: its link must be made, and it and
      everything below it must be processable. */
  lemma {:induction false} VisitSucceeds(sha: Digest, root: Path, rel: Path, c: Entry, size: nat,
                                         m: Manifest, links: Option<seq<Link>>)
    ensures Visit(sha, root, root + rel, c, size, m, links).result.Ok? <==>
            LinkEntry(links, root + rel + [c.name]).Ok? && AllSound(Subtree(rel, c))
    decreases c, |Children(c)| + 1
  {
    var rel' := rel + [c.name];
    assert root + rel + [c.name] == root + rel';
    StripRootOf(root, rel');
    var here := [Node(rel', c)];
    var below := Nodes(rel', c, |Children(c)|);
    assert Subtree(rel, c) == here + below;
    AllSoundAppend(here, below);
    assert AllSound(here) <==> Sound(here[0]);
    if c.Dir? {
      var m1 := m.(dirs := m.dirs + [PkgDir(RecordPath(rel'))]);
      WalkSucceeds(sha, root, rel', c, |Children(c)|, m1, None);
    } else {
      assert below == [];
    }
  }

  // Pre-order: every node lies below the starting directory, and the node of a
  // directory comes before the nodes below it.

  /** Every node's path is `base` followed by at least one component. */
  ghost predicate Below(base: Path, ns: seq<Node>) {
    forall i :: 0 <= i < |ns| ==> |base| < |ns[i].path| && base <= ns[i].path
  }

  /** Node `i` is preceded by the node of the directory that contains it. */
  ghost predicate ParentBefore(ns: seq<Node>, i: nat)
    requires i < |ns| && |ns[i].path| > 0
  {
    exists j :: 0 <= j < i && ns[j].entry.Dir? && ns[j].path == ns[i].path[..|ns[i].path| - 1]
  }

  /** Every node more than one level below `base` comes after the node of the
      directory that contains it. */
  ghost predicate ParentsFirst(base: Path, ns: seq<Node>) {
    forall i {:trigger ParentBefore(ns, i)} :: 0 <= i < |ns| && |base| + 1 < |ns[i].path| ==> ParentBefore(ns, i)
  }

  lemma BelowAppend(base: Path, a: seq<Node>, b: seq<Node>)
    requires Below(base, a) && Below(base, b)
    ensures Below(base, a + b)
  {
    forall i | 0 <= i < |a + b| ensures |base| < |(a + b)[i].path| && base <= (a + b)[i].path {
      if i < |a| { assert (a + b)[i] == a[i]; } else { assert (a + b)[i] == b[i - |a|]; }
    }
  }

  /** A parent found in `a`, or in `b` shifted past `a`, is still found in
      `a + b`. */
  lemma ParentBeforeAppend(a: seq<Node>, b: seq<Node>, i: nat)
    requires i < |a + b| && |(a + b)[i].path| > 0
    requires i < |a| ==> ParentBefore(a, i)
    requires i >= |a| ==> ParentBefore(b, i - |a|)
    ensures ParentBefore(a + b, i)
  {
    var ab := a + b;
    if i < |a| {
      var j :| 0 <= j < i && a[j].entry.Dir? && a[j].path == a[i].path[..|a[i].path| - 1];
      assert ab[j] == a[j] && ab[i] == a[i];
    } else {
      var k := i - |a|;
      var j :| 0 <= j < k && b[j].entry.Dir? && b[j].path == b[k].path[..|b[k].path| - 1];
      assert ab[|a| + j] == b[j] && ab[i] == b[k];
    }
  }

  lemma ParentsFirstAppend(base: Path, a: seq<Node>, b: seq<Node>)
    requires ParentsFirst(base, a) && ParentsFirst(base, b)
    ensures ParentsFirst(base, a + b)
  {
    var ab := a + b;
    forall i | 0 <= i < |ab| && |base| + 1 < |ab[i].path| ensures ParentBefore(ab, i) {
      if i < |a| {
        assert ab[i] == a[i];
        assert ParentBefore(a, i);
      } else {
        assert ab[i] == b[i - |a|];
        assert ParentBefore(b, i - |a|);
      }
      ParentBeforeAppend(a, b, i);
    }
  }

  /** Putting a child's own node in front of the nodes below it keeps every
      node below the parent. */
  lemma BelowCons(base: Path, c: Entry, ns: seq<Node>)
    requires Below(base + [c.name], ns)
    ensures Below(base, [Node(base + [c.name], c)] + ns)
  {
    var top := base + [c.name];
    var all := [Node(top, c)] + ns;
    forall i | 0 <= i < |all| ensures |base| < |all[i].path| && base <= all[i].path {
      if i > 0 {
        assert all[i] == ns[i - 1];
        PrefixTrans(base, top, ns[i - 1].path);
      }
    }
  }

  lemma PrefixTrans(a: Path, b: Path, c: Path)
    requires a <= b && b <= c
    ensures a <= c
  {
    assert c[..|a|] == b[..|a|];
  }

  /** Putting a directory's own node in front of the nodes below it keeps the
      order parent-first one level up. */
  lemma ParentsFirstCons(base: Path, c: Entry, ns: seq<Node>)
    requires Below(base + [c.name], ns) && ParentsFirst(base + [c.name], ns)
    requires ns != [] ==> c.Dir?
    ensures ParentsFirst(base, [Node(base + [c.name], c)] + ns)
  {
    var all := [Node(base + [c.name], c)] + ns;
    forall i | 0 <= i < |all| && |base| + 1 < |all[i].path| ensures ParentBefore(all, i) {
      ParentIn(base + [c.name], c, ns, i);
    }
  }

  /** In the nodes below `top` preceded by the node of `top` itself, every
      node but the first has its parent before it. */
  lemma ParentIn(top: Path, c: Entry, ns: seq<Node>, i: nat)
    requires Below(top, ns) && ParentsFirst(top, ns)
    requires ns != [] ==> c.Dir?
    requires 0 < i < |ns| + 1
    ensures ParentBefore([Node(top, c)] + ns, i)
  {
    var all := [Node(top, c)] + ns;
    assert all[i] == ns[i - 1];
    var p := ns[i - 1].path;
    assert |top| < |p| && top <= p;
    if |p| == |top| + 1 {
      assert p[..|p| - 1] == top;
      assert all[0].entry.Dir? && all[0].path == p[..|p| - 1];
    } else {
      assert ParentBefore(ns, i - 1);
      var k :| 0 <= k < i - 1 && ns[k].entry.Dir? && ns[k].path == p[..|p| - 1];
      assert all[k + 1] == ns[k];
    }
  }

  /** The nodes below the first `n` children of `d` are in pre-order. */
  lemma {:induction false} NodesPreorder(base: Path, d: Entry, n: nat)
    requires n <= |Children(d)|
    ensures Below(base, Nodes(base, d, n)) && ParentsFirst(base, Nodes(base, d, n))
    decreases d, n
  {
    if n > 0 {
      var c := Children(d)[n - 1];
      NodesPreorder(base, d, n - 1);
      SubtreePreorder(base, c);
      BelowAppend(base, Nodes(base, d, n - 1), Subtree(base, c));
      ParentsFirstAppend(base, Nodes(base, d, n - 1), Subtree(base, c));
    }
  }

  /** A child's subtree is in pre-order: the child first, then what is below it. */
  lemma {:induction false} SubtreePreorder(base: Path, c: Entry)
    ensures Below(base, Subtree(base, c)) && ParentsFirst(base, Subtree(base, c))
    decreases c, |Children(c)| + 1
  {
    NodesPreorder(base + [c.name], c, |Children(c)|);
    BelowCons(base, c, Nodes(base + [c.name], c, |Children(c)|));
    ParentsFirstCons(base, c, Nodes(base + [c.name], c, |Children(c)|));
  }

  /** Everything `process_files` promises, for package root `pkgdir` holding
      `tree` and a staging directory already holding `staged`: it succeeds
      exactly when the tree can be processed and every top-level entry can
      be mirrored; it never fails to strip the root; and on success it reports
      the installed size, one record per directory and per regular file in
      pre-order, and one link per top-level entry. */
  lemma ProcessedCorrect(sha: Digest, pkgdir: Path, tree: Entry, staged: seq<Link>)
    ensures var s := Processed(sha, pkgdir, tree, staged);
      var ns := Nodes([], tree, |Children(tree)|);
      && (s.result.Ok? <==> ReadDir(tree).Some? && AllSound(ns) && Linkable(Some(staged), Children(tree)))
      && s.result != Err(StripPrefix)
      && (s.result.Ok? ==>
            && s.result.value == InstalledSize(ns)
            && s.manifest == Manifest(DirRecords(ns), FileRecords(sha, ns))
            && s.links == Some(staged + TopLinks(pkgdir, Children(tree))))
  {
    var n := |Children(tree)|;
    var m := Manifest([], []);
    assert pkgdir + [] == pkgdir;
    assert Children(tree)[..n] == Children(tree);
    WalkSucceeds(sha, pkgdir, [], tree, n, m, Some(staged));
    WalkNoStripPrefix(sha, pkgdir, [], tree, n, m, Some(staged));
    WalkSize(sha, pkgdir, [], tree, n, m, Some(staged));
    WalkRecords(sha, pkgdir, [], tree, n, m, Some(staged));
    WalkLinks(sha, pkgdir, pkgdir, tree, n, m, Some(staged));
    var ns := Nodes([], tree, n);
    if Processed(sha, pkgdir, tree, staged).result.Ok? {
      assert [] + DirRecords(ns) == DirRecords(ns);
      assert [] + FileRecords(sha, ns) == FileRecords(sha, ns);
    }
  }
}
