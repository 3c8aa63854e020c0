/** The xbps target of src/targets/xbps.rs as imperative code: the manifest
    under construction (`PkgFiles`) and the staging directory (`StagingDir`)
    are objects the walk updates in place, and `ProcessDir` is the loop of
    `process_dir`, proved to leave exactly the state the function `Walk`
    describes.  The package metadata and the archive name follow. */
module Xbps {
  import opened Wrappers
  import opened FsTree
  import opened Objects
  import opened Strings
  import opened XbpsManifest

  /** `PkgFiles`: the two record lists of `files.plist`, grown by pushing. */
  class PkgFiles {
    var dirs: seq<PkgDir>
    var files: seq<PkgFile>

    /** `PkgFiles::new`: no records. */
    constructor ()
      ensures dirs == [] && files == []
    {
      dirs := [];
      files := [];
    }

    /** The records so far, as a value. */
    function Snapshot(): (m: Manifest)
      reads this
      ensures m.dirs == dirs && m.files == files
    {
      Manifest(dirs, files)
    }

    /** `files.dirs.push(...)`. */
    method PushDir(record: PkgDir)
      modifies this
      ensures dirs == old(dirs) + [record] && files == old(files)
    {
      dirs := dirs + [record];
    }

    /** `files.files.push(...)`. */
    method PushFile(record: PkgFile)
      modifies this
      ensures files == old(files) + [record] && dirs == old(dirs)
    {
      files := files + [record];
    }
  }

  /** The temporary staging directory: the links made in it, in order. */
  class StagingDir {
    var links: seq<Link>

    /** `tempfile::tempdir()`: a new, empty directory. */
    constructor ()
      ensures links == []
    {
      links := [];
    }

    /** `symlink(target, self/name)`: fails with `Io` when the name is taken
        (`EEXIST`) and then changes nothing. */
    method Symlink(target: Path, name: string) returns (r: Result<(), Error>)
      modifies this
      ensures r.Err? <==> Linked(old(links), name)
      ensures r.Err? ==> r.error == Io && links == old(links)
      ensures r.Ok? ==> links == old(links) + [Link(name, target)]
    {
      if exists i :: 0 <= i < |links| && links[i].name == name {
        return Err(Io);
      }
      links := links + [Link(name, target)];
      return Ok(());
    }
  }

  /** The links of the staging directory, `None` when there is none. */
  function LinksOf(linkdir: StagingDir?): (r: Option<seq<Link>>)
    reads linkdir
    ensures r.Some? <==> linkdir != null
    ensures r.Some? ==> r.value == linkdir.links
  {
    if linkdir == null then None else Some(linkdir.links)
  }

  /** `process_dir(root, dir, files, linkdir)` for the directory `d` at `dir`:
      on every outcome, the result, the records pushed and the links made are
      those of `Walk` over all of `d`'s entries from the state on entry. */
  method ProcessDir(sha: Digest, root: Path, dir: Path, d: Entry, files: PkgFiles, linkdir: StagingDir?)
    returns (r: Result<nat, Error>)
    modifies files, linkdir
    ensures Step(r, files.Snapshot(), LinksOf(linkdir))
         == Walk(sha, root, dir, d, |Children(d)|, old(files.Snapshot()), old(LinksOf(linkdir)))
    decreases d, 0
  {
    ghost var m0 := files.Snapshot();
    ghost var l0 := LinksOf(linkdir);
    ghost var n := |Children(d)|;
    var listing := ReadDir(d);
    if listing.None? {
      WalkErrorIsFinal(sha, root, dir, d, 0, n, m0, l0);
      return Err(Io);
    }
    var entries := listing.value;
    var size: nat := 0;
    var i := 0;
    while i < |entries|
      invariant 0 <= i <= |entries| && entries == Children(d) && d.Dir?
      invariant Walk(sha, root, dir, d, i, m0, l0) == Step(Ok(size), files.Snapshot(), LinksOf(linkdir))
    {
      var total := ProcessEntry(sha, root, dir, entries[i], size, files, linkdir);
      if total.Err? {
        WalkErrorIsFinal(sha, root, dir, d, i + 1, n, m0, l0);
        return Err(total.error);
      }
      size := total.value;
      i := i + 1;
    }
    return Ok(size);
  }

  /** One iteration of the loop of `process_dir`, for entry `e` of `dir` with
      `size` bytes counted before it: the outcome and the new state are those
      of `Visit`. */
  method ProcessEntry(sha: Digest, root: Path, dir: Path, e: Entry, size: nat, files: PkgFiles, linkdir: StagingDir?)
    returns (r: Result<nat, Error>)
    modifies files, linkdir
    ensures Step(r, files.Snapshot(), LinksOf(linkdir))
         == Visit(sha, root, dir, e, size, old(files.Snapshot()), old(LinksOf(linkdir)))
    decreases e, 1
  {
    var path := dir + [e.name];
    if linkdir != null {
      var name := FileName(path);
      if name.None? {
        return Err(InvalidFilePath);
      }
      var linked := linkdir.Symlink(path, name.value);
      if linked.Err? {
        return Err(linked.error);
      }
    }
    if e.Dir? {
      var rel := StripRoot(path, root);
      if rel.None? {
        return Err(StripPrefix);
      }
      files.PushDir(PkgDir(RecordPath(rel.value)));
      var sub := ProcessDir(sha, root, path, e, files, null);
      if sub.Err? {
        return Err(sub.error);
      }
      return Ok(size + sub.value);
    } else if e.File? {
      var record := FileRecord(sha, root, path, e);
      if record.Err? {
        return Err(record.error);
      }
      files.PushFile(record.value);
      return Ok(size + e.len);
    }
    return Ok(size);
  }

  /** `process_files(pkgdir, tmpdir)`: a fresh manifest filled by walking the
      package root and mirroring its entries into `tmpdir`; the outcome and
      the links made are those of `Processed`. */
  method ProcessFiles(sha: Digest, pkgdir: Path, tree: Entry, tmpdir: StagingDir)
    returns (r: Result<(nat, PkgFiles), Error>)
    modifies tmpdir
    ensures var s := Processed(sha, pkgdir, tree, old(tmpdir.links));
      && Some(tmpdir.links) == s.links
      && (r.Ok? <==> s.result.Ok?)
      && (r.Ok? ==> r.value.0 == s.result.value && r.value.1.Snapshot() == s.manifest)
      && (r.Err? ==> r.error == s.result.error)
    ensures r.Ok? ==> fresh(r.value.1)
  {
    var files := new PkgFiles();
    var size := ProcessDir(sha, pkgdir, pkgdir, tree, files, tmpdir);
    if size.Err? {
      return Err(size.error);
    }
    return Ok((size.value, files));
  }

  // ---------------------------------------------------------------------
  // Package metadata and naming.
  // ---------------------------------------------------------------------

  /** `PkgProps`, the contents of `props.plist`; the field names are the
      property-list keys. */
  datatype PkgProps = PkgProps(
    architecture: string,
    installed_size: nat,
    pkgname: string,
    pkgver: string,
    run_depends: seq<string>,
    version: string,
    short_desc: Option<string>,
    homepage: Option<string>,
    license: Option<string>,
    maintainer: Option<string>)

  /** `name-version_epoch`, the xbps package version string. */
  function Pkgver(spec: BuildSpec): string {
    spec.name + "-" + spec.version + "_" + spec.epoch
  }

  /** The archive's file name, `name-version_epoch.arch.xbps`; it is built
      with its own format string, and agrees with `Pkgver`. */
  function DestName(spec: BuildSpec, arch: string): (s: string)
    ensures s == Pkgver(spec) + "." + arch + ".xbps"
  {
    spec.name + "-" + spec.version + "_" + spec.epoch + "." + arch + ".xbps"
  }

  /** The runtime dependencies: every dependency listed under `all`, then every
      one under `run`, in order, duplicates kept; `build` plays no part. */
  function RunDepends(deps: Dependencies): (r: seq<string>)
    ensures |r| == |deps.all| + |deps.run|
    ensures r[..|deps.all|] == deps.all && r[|deps.all|..] == deps.run
    ensures multiset(r) == multiset(deps.all) + multiset(deps.run)
    ensures forall x :: x in r <==> x in deps.all || x in deps.run
  {
    deps.all + deps.run
  }

  /** The properties written for a spec, an architecture and an installed
      size; the descriptive fields are left empty. */
  function Props(spec: BuildSpec, arch: string, size: nat): (p: PkgProps)
    ensures p.pkgver == Pkgver(spec) && p.pkgname == spec.name && p.version == spec.version
    ensures p.architecture == arch && p.installed_size == size
    ensures p.run_depends == RunDepends(spec.depends)
    ensures p.short_desc.None? && p.homepage.None? && p.license.None? && p.maintainer.None?
  {
    PkgProps(arch, size, spec.name, spec.name + "-" + spec.version + "_" + spec.epoch,
             spec.depends.all + spec.depends.run, spec.version, None, None, None, None)
  }

  /** Splitting a package version string at its last `-` and last `_`. */
  function ParsePkgver(s: string): (r: Option<(string, string, string)>)
    ensures r.Some? ==> s == r.value.0 + "-" + r.value.1 + "_" + r.value.2
    ensures r.Some? ==> '_' !in r.value.2 && '-' !in r.value.1
  {
    match RFind(s, '_')
    case None => None
    case Some(u) =>
      var head, epoch := s[..u], s[u + 1..];
      match RFind(head, '-')
      case None => None
      case Some(h) =>
        assert s == head + "_" + epoch;
        assert head == head[..h] + "-" + head[h + 1..];
        Some((head[..h], head[h + 1..], epoch))
  }

  /** The version string can be read back into name, version and epoch when the
      version has no `-` and the epoch no `_`. */
  lemma PkgverRoundTrip(spec: BuildSpec)
    requires '-' !in spec.version && '_' !in spec.epoch
    ensures ParsePkgver(Pkgver(spec)) == Some((spec.name, spec.version, spec.epoch))
  {
    var head := spec.name + "-" + spec.version;
    assert Pkgver(spec) == head + "_" + spec.epoch;
    RFindAfter(head, '_', spec.epoch);
    assert Pkgver(spec)[..|head|] == head;
    assert Pkgver(spec)[|head| + 1..] == spec.epoch;
    RFindAfter(spec.name, '-', spec.version);
    assert head[..|spec.name|] == spec.name;
    assert head[|spec.name| + 1..] == spec.version;
  }

  /** Under the same conditions, different name, version or epoch give
      different version strings. */
  lemma PkgverInjective(a: BuildSpec, b: BuildSpec)
    requires '-' !in a.version && '_' !in a.epoch
    requires '-' !in b.version && '_' !in b.epoch
    ensures Pkgver(a) == Pkgver(b) <==> (a.name, a.version, a.epoch) == (b.name, b.version, b.epoch)
  {
    PkgverRoundTrip(a);
    PkgverRoundTrip(b);
  }

  /** On one architecture, two archives share a name exactly when their
      packages share a version string. */
  lemma DestNameInjective(a: BuildSpec, b: BuildSpec, arch: string)
    ensures DestName(a, arch) == DestName(b, arch) <==> Pkgver(a) == Pkgver(b)
  {
    var tail := "." + arch + ".xbps";
    if DestName(a, arch) == DestName(b, arch) {
      assert Pkgver(a) == DestName(a, arch)[..|DestName(a, arch)| - |tail|];
      assert Pkgver(b) == DestName(b, arch)[..|DestName(b, arch)| - |tail|];
    }
  }

  /** Without those conditions the name is ambiguous: a `-` may sit in the name
      or in the version. */
  lemma PkgverAmbiguous()
    ensures Pkgver(BuildSpec("a-b", "c", "1", Dependencies([], [], []), [], Scripts([])))
         == Pkgver(BuildSpec("a", "b-c", "1", Dependencies([], [], []), [], Scripts([])))
  {
  }

  // ---------------------------------------------------------------------
  // The metadata files.
  // ---------------------------------------------------------------------

  /** The first link called `name` in the staging directory. */
  function LinkNamed(ls: seq<Link>, name: string): (r: Option<Link>)
    ensures r.Some? <==> Linked(ls, name)
    ensures r.Some? ==> r.value in ls && r.value.name == name
  {
    if ls == [] then None
    else if ls[0].name == name then Some(ls[0])
    else
      var r := LinkNamed(ls[1..], name);
      assert Linked(ls[1..], name) ==> Linked(ls, name);
      assert Linked(ls, name) && ls[0].name != name ==> Linked(ls[1..], name) by {
        if Linked(ls, name) && ls[0].name != name {
          var i :| 0 <= i < |ls| && ls[i].name == name;
          assert ls[1..][i - 1].name == name;
        }
      }
      r
  }

  /** `File::create(tmpdir.join(name))` once the walk has filled the staging
      directory (package root `tree` at `pkgdir`).  A name no link takes
      becomes a new file of the staging directory (`None`).  A name a link
      takes opens the link's target: a directory cannot be opened for
      writing (`Io`); anything else is truncated and receives the metadata,
      and its path is the result. */
  function CreateStaged(staged: seq<Link>, pkgdir: Path, tree: Entry, name: string): (r: Result<Option<Path>, Error>)
    ensures r.Err? ==> r.error == Io && Linked(staged, name)
    ensures r == Ok(None) <==> !Linked(staged, name)
    ensures r.Ok? && r.value.Some? ==> exists l :: l in staged && l.name == name && l.target == r.value.value
  {
    match LinkNamed(staged, name)
    case None => Ok(None)
    case Some(l) =>
      var target := match StripRoot(l.target, pkgdir) case Some(rel) => Lookup(tree, rel) case None => None;
      if target.Some? && target.value.Dir? then Err(Io) else Ok(Some(l.target))
  }

  /** The same outcome, read off the package root alone: no top-level entry
      called `name` is a fresh file; a directory so called is `Io`; any other
      entry so called, at `pkgdir/name`, is overwritten by the metadata. */
  function MetadataTarget(pkgdir: Path, tree: Entry, name: string): Result<Option<Path>, Error> {
    match ChildNamed(Children(tree), name)
    case None => Ok(None)
    case Some(c) => if c.Dir? then Err(Io) else Ok(Some(pkgdir + [name]))
  }

  /** The first of the walk's links called `name` is the one made for the
      first top-level entry so called. */
  lemma {:induction false} LinkNamedTopLinks(dir: Path, cs: seq<Entry>, name: string)
    ensures LinkNamed(TopLinks(dir, cs), name)
         == match ChildNamed(cs, name) case None => None case Some(c) => Some(Link(name, dir + [name]))
  {
    if cs != [] {
      assert TopLinks(dir, cs)[1..] == TopLinks(dir, cs[1..]);
      LinkNamedTopLinks(dir, cs[1..], name);
    }
  }

  /** With the links a successful walk makes, following the link named
      `name` comes to `MetadataTarget`. */
  lemma CreateStagedAfterWalk(pkgdir: Path, tree: Entry, name: string)
    ensures CreateStaged(TopLinks(pkgdir, Children(tree)), pkgdir, tree, name) == MetadataTarget(pkgdir, tree, name)
  {
    LinkNamedTopLinks(pkgdir, Children(tree), name);
    StripRootOf(pkgdir, [name]);
  }

  /** A successful walk from a fresh staging directory leaves exactly the
      top-level links in it. */
  lemma ProcessedLinks(sha: Digest, pkgdir: Path, tree: Entry)
    ensures var s := Processed(sha, pkgdir, tree, []);
      s.result.Ok? ==> s.links == Some(TopLinks(pkgdir, Children(tree)))
  {
    ProcessedCorrect(sha, pkgdir, tree, []);
    assert [] + TopLinks(pkgdir, Children(tree)) == TopLinks(pkgdir, Children(tree));
  }

  /** The paths below the package root a metadata file was written to. */
  function Overwritten(target: Option<Path>): seq<Path> {
    if target.Some? then [target.value] else []
  }

  // ---------------------------------------------------------------------
  // The archive.
  // ---------------------------------------------------------------------

  /** What `package` leaves behind: the archive's path, its properties, the
      manifest, the links in the staging directory that `tar` packs, and the
      files of the package root that `files.plist` and `props.plist` were
      written into through those links. */
  datatype Archive = Archive(dest: Path, props: PkgProps, manifest: Manifest, staged: seq<Link>,
                             overwritten: seq<Path>)

  /** `package(spec, pkgdir, destdir)` on the target architecture `arch`, with
      `pkgdir` holding `tree`; `tarSucceeds` is the exit status of `tar`.  The
      walk, then `files.plist`, then `props.plist`, then `tar`: the first
      failure is the result. */
  function Packaged(spec: BuildSpec, arch: string, sha: Digest, pkgdir: Path, tree: Entry, destdir: Path,
                    tarSucceeds: bool): Result<Archive, Error>
  {
    var s := Processed(sha, pkgdir, tree, []);
    var files := MetadataTarget(pkgdir, tree, "files.plist");
    var props := MetadataTarget(pkgdir, tree, "props.plist");
    if s.result.Err? then Err(s.result.error)
    else if files.Err? then Err(files.error)
    else if props.Err? then Err(props.error)
    else if !tarSucceeds then Err(CommandStatus)
    else Ok(Archive(destdir + [DestName(spec, arch)], Props(spec, arch, s.result.value), s.manifest,
                    s.links.GetOr([]), Overwritten(files.value) + Overwritten(props.value)))
  }

  /** When `package` fails: with the walk's error, with `Io` when
      `files.plist` or `props.plist` names a top-level directory, or with
      `CommandStatus` when `tar` fails. */
  lemma PackagedOutcome(spec: BuildSpec, arch: string, sha: Digest, pkgdir: Path, tree: Entry, destdir: Path,
                        tarSucceeds: bool)
    ensures var r := Packaged(spec, arch, sha, pkgdir, tree, destdir, tarSucceeds);
      var s := Processed(sha, pkgdir, tree, []);
      var files := MetadataTarget(pkgdir, tree, "files.plist");
      var props := MetadataTarget(pkgdir, tree, "props.plist");
      && (r.Ok? <==> s.result.Ok? && files.Ok? && props.Ok? && tarSucceeds)
      && (s.result.Err? ==> r == Err(s.result.error))
      && (s.result.Ok? && (files.Err? || props.Err?) ==> r == Err(Io))
      && (s.result.Ok? && files.Ok? && props.Ok? && !tarSucceeds ==> r == Err(CommandStatus))
  {
  }

  /** What a successful `package` leaves: the archive records every
      directory and regular file of the tree in pre-order, the installed
      size, one link per top-level entry, and the top-level entries the
      metadata overwrote. */
  lemma PackagedArchive(spec: BuildSpec, arch: string, sha: Digest, pkgdir: Path, tree: Entry, destdir: Path,
                        tarSucceeds: bool)
    ensures var r := Packaged(spec, arch, sha, pkgdir, tree, destdir, tarSucceeds);
      var ns := Nodes([], tree, |Children(tree)|);
      var files := MetadataTarget(pkgdir, tree, "files.plist");
      var props := MetadataTarget(pkgdir, tree, "props.plist");
      r.Ok? ==> AllSound(ns) && r.value == Archive(destdir + [DestName(spec, arch)],
                                                   Props(spec, arch, InstalledSize(ns)),
                                                   Manifest(DirRecords(ns), FileRecords(sha, ns)),
                                                   TopLinks(pkgdir, Children(tree)),
                                                   Overwritten(files.value) + Overwritten(props.value))
  {
    var s := Processed(sha, pkgdir, tree, []);
    if Packaged(spec, arch, sha, pkgdir, tree, destdir, tarSucceeds).Ok? {
      var ns := Nodes([], tree, |Children(tree)|);
      ProcessedCorrect(sha, pkgdir, tree, []);
      ProcessedLinks(sha, pkgdir, tree);
      assert s.result == Ok(InstalledSize(ns));
      assert s.manifest == Manifest(DirRecords(ns), FileRecords(sha, ns));
      assert s.links.GetOr([]) == TopLinks(pkgdir, Children(tree));
      var files := MetadataTarget(pkgdir, tree, "files.plist");
      var props := MetadataTarget(pkgdir, tree, "props.plist");
      assert Packaged(spec, arch, sha, pkgdir, tree, destdir, tarSucceeds)
          == Ok(Archive(destdir + [DestName(spec, arch)], Props(spec, arch, s.result.value), s.manifest,
                        s.links.GetOr([]), Overwritten(files.value) + Overwritten(props.value)));
    }
  }

  /** `package`: walk into a fresh staging directory, create the two metadata
      files in it, then run `tar`; the outcome is `Packaged`'s. */
  method Package(spec: BuildSpec, arch: string, sha: Digest, pkgdir: Path, tree: Entry, destdir: Path,
                 tarSucceeds: bool)
    returns (r: Result<Archive, Error>)
    ensures r == Packaged(spec, arch, sha, pkgdir, tree, destdir, tarSucceeds)
  {
    var dest := destdir + [DestName(spec, arch)];
    var tmpdir := new StagingDir();
    var processed := ProcessFiles(sha, pkgdir, tree, tmpdir);
    if processed.Err? {
      return Err(processed.error);
    }
    var (size, files) := processed.value;
    ProcessedLinks(sha, pkgdir, tree);
    CreateStagedAfterWalk(pkgdir, tree, "files.plist");
    var filesFile := CreateStaged(tmpdir.links, pkgdir, tree, "files.plist");
    if filesFile.Err? {
      return Err(filesFile.error);
    }
    var props := Props(spec, arch, size);
    CreateStagedAfterWalk(pkgdir, tree, "props.plist");
    var propsFile := CreateStaged(tmpdir.links, pkgdir, tree, "props.plist");
    if propsFile.Err? {
      return Err(propsFile.error);
    }
    if !tarSucceeds {
      return Err(CommandStatus);
    }
    return Ok(Archive(dest, props, files.Snapshot(), tmpdir.links,
                      Overwritten(filesFile.value) + Overwritten(propsFile.value)));
  }
}
