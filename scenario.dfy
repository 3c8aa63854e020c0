/** A worked package: `foo` version 1.2, epoch 1, whose package root holds
    the ten-byte file `bin/foo` and the empty directory `share/doc`.  What
    `process_files` and `package` (src/targets/xbps.rs) make of it follows
    from the general lemmas of `XbpsManifest` and `Xbps`. */
module Scenario {
  import opened Wrappers
  import opened Hex
  import opened FsTree
  import opened Objects
  import opened XbpsManifest
  import opened Xbps

  /** `bin/foo`, last modified five seconds after the epoch. */
  function Foo(content: seq<byte>): Entry { File("foo", 10, 5_000_000_000, Some(content)) }
  function Bin(content: seq<byte>): Entry { Dir("bin", true, [Foo(content)]) }
  function Doc(): Entry { Dir("doc", true, []) }
  function Share(): Entry { Dir("share", true, [Doc()]) }
  /** The package root `build/pkg`. */
  function Tree(content: seq<byte>): Entry { Dir("pkg", true, [Bin(content), Share()]) }

  /** The pre-order nodes of each top-level subtree. */
  lemma BinNodes(content: seq<byte>)
    ensures Subtree([], Bin(content)) == [Node(["bin"], Bin(content)), Node(["bin", "foo"], Foo(content))]
  {
    assert [] + ["bin"] == ["bin"] && ["bin"] + ["foo"] == ["bin", "foo"];
    assert Nodes(["bin", "foo"], Foo(content), 0) == [];
    assert Nodes(["bin"], Bin(content), 1) == [Node(["bin", "foo"], Foo(content))];
  }

  lemma ShareNodes()
    ensures Subtree([], Share()) == [Node(["share"], Share()), Node(["share", "doc"], Doc())]
  {
    assert [] + ["share"] == ["share"] && ["share"] + ["doc"] == ["share", "doc"];
    assert Nodes(["share", "doc"], Doc(), 0) == [];
    assert Nodes(["share"], Share(), 1) == [Node(["share", "doc"], Doc())];
  }

  lemma TreeNodes(content: seq<byte>)
    ensures Nodes([], Tree(content), 2) == Subtree([], Bin(content)) + Subtree([], Share())
  {
    assert Nodes([], Tree(content), 1) == Subtree([], Bin(content));
  }

  /** The records and size of each top-level subtree. */
  lemma BinRecords(sha: Digest, content: seq<byte>)
    requires |content| == 10
    ensures var a := [Node(["bin"], Bin(content)), Node(["bin", "foo"], Foo(content))];
      && AllSound(a)
      && DirRecords(a) == [PkgDir("/bin")]
      && FileRecords(sha, a) == [PkgFile("/bin/foo", 5, ToHex(sha(content)))]
      && InstalledSize(a) == 10
  {
    var a := [Node(["bin"], Bin(content)), Node(["bin", "foo"], Foo(content))];
    assert a[..1] == [a[0]] && [a[0]][..0] == [];
    assert ["bin", "foo"][..1] == ["bin"];
    assert RecordPath(["bin"]) == "/bin";
    assert RecordPath(["bin", "foo"]) == "/bin/foo";
    assert DirRecords([a[0]]) == [PkgDir("/bin")];
    assert DirRecords(a) == DirRecords([a[0]]);
    assert InstalledSize([a[0]]) == 0;
    assert Sound(a[0]) && Sound(a[1]);
    assert FileRecords(sha, [a[0]]) == [];
  }

  lemma ShareRecords(sha: Digest)
    ensures var b := [Node(["share"], Share()), Node(["share", "doc"], Doc())];
      && AllSound(b)
      && DirRecords(b) == [PkgDir("/share"), PkgDir("/share/doc")]
      && FileRecords(sha, b) == []
      && InstalledSize(b) == 0
  {
    var b := [Node(["share"], Share()), Node(["share", "doc"], Doc())];
    assert b[..1] == [b[0]] && [b[0]][..0] == [];
    assert ["share", "doc"][..1] == ["share"];
    assert RecordPath(["share"]) == "/share";
    assert RecordPath(["share", "doc"]) == "/share/doc";
    assert DirRecords([b[0]]) == [PkgDir("/share")];
  }

  /** The whole tree in pre-order: `bin`, `bin/foo`, `share`, `share/doc`. */
  lemma TreeSplit(content: seq<byte>)
    ensures Nodes([], Tree(content), |Children(Tree(content))|)
         == [Node(["bin"], Bin(content)), Node(["bin", "foo"], Foo(content))]
          + [Node(["share"], Share()), Node(["share", "doc"], Doc())]
  {
    BinNodes(content);
    ShareNodes();
    TreeNodes(content);
  }

  /** The directory records and the installed size of the example tree. */
  lemma TreeDirs(content: seq<byte>)
    requires |content| == 10
    ensures var ns := Nodes([], Tree(content), |Children(Tree(content))|);
      && DirRecords(ns) == [PkgDir("/bin"), PkgDir("/share"), PkgDir("/share/doc")]
      && InstalledSize(ns) == 10
  {
    TreeSplit(content);
    BinRecords((b: seq<byte>) => b, content);
    ShareRecords((b: seq<byte>) => b);
    var a := [Node(["bin"], Bin(content)), Node(["bin", "foo"], Foo(content))];
    var b := [Node(["share"], Share()), Node(["share", "doc"], Doc())];
    DirRecordsAppend(a, b);
    InstalledSizeAppend(a, b);
  }

  /** The file records of the example tree. */
  lemma TreeFiles(sha: Digest, content: seq<byte>)
    requires |content| == 10
    ensures var ns := Nodes([], Tree(content), |Children(Tree(content))|);
      && AllSound(ns)
      && FileRecords(sha, ns) == [PkgFile("/bin/foo", 5, ToHex(sha(content)))]
  {
    TreeSplit(content);
    BinRecords(sha, content);
    ShareRecords(sha);
    var a := [Node(["bin"], Bin(content)), Node(["bin", "foo"], Foo(content))];
    var b := [Node(["share"], Share()), Node(["share", "doc"], Doc())];
    AllSoundAppend(a, b);
    FileRecordsAppend(sha, a, b);
  }

  /** The package root of a `foo` package holding `bin/foo` (ten bytes) and
      an empty `share/doc`: three directory records, one file record, ten
      bytes installed. */
  lemma EndToEnd(sha: Digest, content: seq<byte>)
    requires |content| == 10
    ensures var s := Processed(sha, ["build", "pkg"], Tree(content), []);
      && s.result == Ok(10)
      && s.manifest.dirs == [PkgDir("/bin"), PkgDir("/share"), PkgDir("/share/doc")]
      && s.manifest.files == [PkgFile("/bin/foo", 5, ToHex(sha(content)))]
  {
    ProcessedCorrect(sha, ["build", "pkg"], Tree(content), []);
    TreeDirs(content);
    TreeFiles(sha, content);
  }

  /** The spec of the worked package, with one dependency listed both under
      `all` and under `run`. */
  function FooSpec(): BuildSpec {
    BuildSpec("foo", "1.2", "1", Dependencies(["x"], ["cc"], ["x"]), [], Scripts([]))
  }

  /** Its version string and archive name, and a dependency listed twice is
      kept twice while the build-time one is dropped. */
  lemma FooProps(arch: string, size: nat)
    ensures Pkgver(FooSpec()) == "foo-1.2_1"
    ensures DestName(FooSpec(), "x86_64") == "foo-1.2_1.x86_64.xbps"
    ensures Props(FooSpec(), arch, size).run_depends == ["x", "x"]
  {
  }

  // ---------------------------------------------------------------------
  // Entries that share a name with the metadata files.
  // ---------------------------------------------------------------------

  /** A package root whose only entry is an empty directory `files.plist`. */
  function PlistDir(): Entry { Dir("pkg", true, [Dir("files.plist", true, [])]) }

  /** Its single node. */
  lemma PlistDirNodes()
    ensures Nodes([], PlistDir(), 1) == [Node(["files.plist"], Dir("files.plist", true, []))]
  {
    var d := Dir("files.plist", true, []);
    assert [] + ["files.plist"] == ["files.plist"];
    assert Nodes(["files.plist"], d, 0) == [];
    assert Subtree([], d) == [Node(["files.plist"], d)];
    assert Nodes([], PlistDir(), 1) == Nodes([], PlistDir(), 0) + Subtree([], d);
  }

  /** That node is sound and adds nothing to the installed size. */
  lemma PlistDirSize()
    ensures var ns := [Node(["files.plist"], Dir("files.plist", true, []))];
      AllSound(ns) && InstalledSize(ns) == 0
  {
    var ns := [Node(["files.plist"], Dir("files.plist", true, []))];
    assert Sound(ns[0]) && ns[..0] == [];
  }

  /** The walk succeeds, but `File::create` of `files.plist` follows the
      staged link to that directory, so `package` fails with `Io`. */
  lemma MetadataOverDirectory(sha: Digest, spec: BuildSpec, arch: string, destdir: Path)
    ensures Processed(sha, ["build", "pkg"], PlistDir(), []).result == Ok(0)
    ensures Packaged(spec, arch, sha, ["build", "pkg"], PlistDir(), destdir, true) == Err(Io)
  {
    var pkgdir: Path := ["build", "pkg"];
    PlistDirNodes();
    PlistDirSize();
    assert Linkable(Some([]), Children(PlistDir()));
    ProcessedCorrect(sha, pkgdir, PlistDir(), []);
    assert Processed(sha, pkgdir, PlistDir(), []).result == Ok(0);
    assert MetadataTarget(pkgdir, PlistDir(), "files.plist") == Err(Io);
    PackagedOutcome(spec, arch, sha, pkgdir, PlistDir(), destdir, true);
  }

  /** A package root whose only entry is a regular file `files.plist`. */
  function PlistFile(content: seq<byte>): Entry {
    Dir("pkg", true, [File("files.plist", |content|, 0, Some(content))])
  }

  /** Its single node. */
  lemma PlistFileNodes(content: seq<byte>)
    ensures Nodes([], PlistFile(content), 1) == [Node(["files.plist"], File("files.plist", |content|, 0, Some(content)))]
  {
    var f := File("files.plist", |content|, 0, Some(content));
    assert [] + ["files.plist"] == ["files.plist"];
    assert Nodes(["files.plist"], f, 0) == [];
    assert Subtree([], f) == [Node(["files.plist"], f)];
    assert Nodes([], PlistFile(content), 1) == Nodes([], PlistFile(content), 0) + Subtree([], f);
  }

  /** Its records: no directory, one file. */
  lemma PlistFileRecords(sha: Digest, content: seq<byte>)
    ensures var ns := [Node(["files.plist"], File("files.plist", |content|, 0, Some(content)))];
      && AllSound(ns)
      && DirRecords(ns) == []
      && FileRecords(sha, ns) == [PkgFile("/files.plist", 0, ToHex(sha(content)))]
  {
    var ns := [Node(["files.plist"], File("files.plist", |content|, 0, Some(content)))];
    assert Sound(ns[0]) && ns[..0] == [];
    assert RecordPath(["files.plist"]) == "/files.plist";
  }

  /** `package` succeeds, but the manifest's record for `/files.plist`
      carries the digest of the file's original bytes, and that file is the
      one the manifest itself was written into. */
  lemma MetadataOverFile(sha: Digest, spec: BuildSpec, arch: string, destdir: Path, content: seq<byte>)
    ensures var r := Packaged(spec, arch, sha, ["build", "pkg"], PlistFile(content), destdir, true);
      && r.Ok?
      && r.value.manifest == Manifest([], [PkgFile("/files.plist", 0, ToHex(sha(content)))])
      && r.value.overwritten == [["build", "pkg", "files.plist"]]
  {
    var t := PlistFile(content);
    var pkgdir: Path := ["build", "pkg"];
    PlistFileNodes(content);
    PlistFileRecords(sha, content);
    assert Linkable(Some([]), Children(t));
    ProcessedCorrect(sha, pkgdir, t, []);
    assert Processed(sha, pkgdir, t, []).result.Ok?;
    assert pkgdir + ["files.plist"] == ["build", "pkg", "files.plist"];
    assert MetadataTarget(pkgdir, t, "files.plist") == Ok(Some(["build", "pkg", "files.plist"]));
    assert ChildNamed(Children(t), "props.plist").None?;
    assert MetadataTarget(pkgdir, t, "props.plist") == Ok(None);
    PackagedOutcome(spec, arch, sha, pkgdir, t, destdir, true);
    PackagedArchive(spec, arch, sha, pkgdir, t, destdir, true);
  }
}
