# wow: the xbps package builder, modelled in Dafny

`wow` builds a package from a `build.yml` spec. Its `main` downloads every
source, checks each one's SHA-256 sum, and then runs the install script under
`bash`; there it ends (src/main.rs:82-97). The xbps target has a separate
function, `package`, that packs a package root into an xbps archive
`name-version_epoch.arch.xbps` holding a `files.plist` manifest and a
`props.plist` of package properties (src/targets/xbps.rs:115-157). `main`
never calls it: src/main.rs declares only the `objects` module
(src/main.rs:7).

This project models the core of that tool:

- `objects.dfy` (module `Objects`): the build spec and its serde defaults
  (`epoch` is `"1"`, each dependency list is empty). It also covers the
  one-variant, `sha256`-tagged source verification.
- `hex.dfy` (module `Hex`): how a digest is rendered as lowercase two-digit
  hex. A reference decoder `FromHex` shows the rendering loses nothing.
- `fstree.dfy` (module `FsTree`): the filesystem as a value. A tree of
  `Entry` values is `Dir`, `File` or `Other` (symlink, device, …). Children
  are in directory-iteration order. Faults are part of the value: an
  unreadable directory, an unreadable file, an mtime before the epoch. Paths
  are component lists.
- `xbps_manifest.dfy` (module `XbpsManifest`): the records of `files.plist`
  and the error enum. `Walk`/`Visit` say what `process_dir` leaves behind on
  every outcome: result, manifest and staged links. `Nodes` is an independent
  pre-order enumeration of the tree. The lemmas state the walk in terms of it:
  size, one record per directory and regular file, shallow link mirroring,
  success conditions, append-only, pre-order.
- `xbps.dfy` (module `Xbps`): the imperative walker. `PkgFiles` and the
  staging directory are classes whose sequences grow in place. `ProcessDir`
  is the loop of `process_dir` and is proved to leave exactly the state
  `Walk` describes. This file also covers `process_files`, the
  `PkgProps`/naming construction of `package`, and `package` itself with
  the `tar` exit status as a parameter.
- `wowmain.dfy` (module `WowMain`): the pure parts of `src/main.rs`. It
  covers the file name taken from a source URL, `validate`, the text
  `build` writes to `bash`, and the loop of `main`. That loop validates every
  source in order before the build runs.
- `scenario.dfy` (module `Scenario`): one worked package (`foo` 1.2 with
  `bin/foo` and `share/doc`) derived from the general lemmas.

SHA-256 is the parameter `sha: seq<byte> -> seq<byte>`. The target
architecture, the exit statuses of `tar` and `bash`, and the documents `curl`
can fetch are parameters as well.

Two facts about the code:

- The build spec has no `alternatives` field (src/objects.rs:5-14).
- `tar` writes straight to the destination path (src/targets/xbps.rs:146-153),
  so a failed `tar` can leave a partial archive there.

The staging directory holds one link per top-level entry of the package root
before `files.plist` and `props.plist` are created in it
(src/targets/xbps.rs:124-125, 143). When the package root has a top-level
entry of either name, the creation follows that link. A directory of that
name makes `package` fail with `Io`. A regular file of that name is
truncated and overwritten by the metadata, while the manifest still records
the digest of its old content. `Xbps.Packaged` names the overwritten paths,
and `Scenario.MetadataOverDirectory` and `Scenario.MetadataOverFile` work
through one package of each kind. The model treats every other kind of
entry of that name like a regular file (see `Xbps.CreateStaged` under
"## Left out").

A failed `curl` can leave a partial file behind (src/main.rs:14-22). A later
run then finds the path present (src/main.rs:10) and validates the partial
file instead of fetching it again. `WowMain.PartialDownloadSticks` states
this.

## Model

| member | source | states |
|---|---|---|
| `Objects.DependenciesWithDefaults` | src/objects.rs:16-28 | each of `all`, `build`, `run` is empty when absent and kept verbatim when present, independently |
| `Objects.BuildSpecWithDefaults` | src/objects.rs:1-14 | an absent `epoch` becomes `"1"`, a present one is kept; name, version, sources and scripts are copied; dependencies get their own defaults |
| `Objects.DefaultsAreTransparent` | src/objects.rs:1-28 | writing every key out reads back to the same spec; leaving `epoch` out equals writing `"1"`; leaving `run` out equals writing `[]` |
| `Objects.VerificationTag` | src/objects.rs:36-41 | the only tag a verification can carry is `sha256` |
| `Objects.ParseVerification` | src/objects.rs:36-46 | a tagged verification is accepted exactly when the tag is `sha256`, and it carries the given sum |
| `Objects.VerificationRoundTrip` | src/objects.rs:36-46 | tagging a verification and reading it back gives it back (the sum type has exactly one variant) |
| `Strings.RFind` | src/main.rs:85 | the result is the index of the last occurrence of the character, and `None` exactly when it does not occur |
| `Hex.ToHex` | src/targets/xbps.rs:74-75 | a digest of n bytes renders as 2n characters |
| `Hex.ToHexIsLowerHex` | src/targets/xbps.rs:75 | the rendering contains only `0`-`9` and lowercase `a`-`f` |
| `Hex.DigitValueMeaning` | src/targets/xbps.rs:75 | exactly the sixteen lowercase digits have a value, and `{:x}` prints that value as the same digit |
| `Hex.FromToHex` | src/targets/xbps.rs:74-75 | decoding the rendering of any digest gives the digest back |
| `Hex.ToFromHex` | src/main.rs:33-34 | every text the decoder accepts is the one rendering of what it decodes to |
| `Hex.ToHexInjective` | src/main.rs:33-34 | two digests render alike exactly when they are equal |
| `Hex.ToHexIffFromHex` | src/main.rs:33-34 | a text is the rendering of a digest exactly when it decodes to that digest |
| `FsTree.ReadDir` | src/targets/xbps.rs:81 | filesystem abstraction standing in for `read_dir`: listing succeeds exactly for a readable directory and yields its children in order |
| `FsTree.ChildNamed` | src/targets/xbps.rs:125 | filesystem abstraction for opening `dir/name`: the result is an entry of the directory with that name, and there is none exactly when no entry has that name |
| `FsTree.Lookup` | src/targets/xbps.rs:125 | filesystem abstraction for resolving a path: the empty path is the entry itself, and a one-component path is the child of that name |
| `FsTree.FileName` | src/targets/xbps.rs:85 | filesystem abstraction standing in for `Path::file_name`: a path has a file name exactly when it is non-empty and does not end in `..`; the name is the last component |
| `FsTree.StripRoot` | src/targets/xbps.rs:93 | stripping succeeds exactly when the root is a prefix of the path, and root followed by the rest is the path |
| `FsTree.RecordPath` | src/targets/xbps.rs:93 | filesystem abstraction standing in for `strip_prefix` and `display`: a record path is `/` followed by the displayed path below the root |
| `XbpsManifest.HashFile` | src/targets/xbps.rs:70-77 | an unreadable file is `Io`; otherwise the digest is 2n lowercase hex characters that decode to `sha` of the bytes |
| `XbpsManifest.LinkEntry` | src/targets/xbps.rs:83-88 | without a staging directory nothing happens; a missing file name is `InvalidFilePath`; a taken link name is `Io`; otherwise exactly one link `name -> path` is appended |
| `XbpsManifest.FileRecord` | src/targets/xbps.rs:97-103 | a file record exists exactly when the path is under the root, the mtime is not before the epoch and the file is readable; each failure gives its own error, checked in the source's field order |
| `XbpsManifest.TopLinks` | src/targets/xbps.rs:83-88 | one link per child, in order, each named after the child and pointing at the child's path |
| `XbpsManifest.WalkErrorIsFinal` | src/targets/xbps.rs:81-107 | after the first error no later entry is processed; result, manifest and links stay as they were when it happened |
| `XbpsManifest.WalkAppendOnly` | src/targets/xbps.rs:91-103 | on every outcome the walk only appends: existing directory records, file records and links are never altered or removed |
| `XbpsManifest.WalkSize` | src/targets/xbps.rs:79-107 | on success the returned size is the sum of `len` over all regular files anywhere below the directory; directories and other entries add nothing themselves |
| `XbpsManifest.WalkRecords` | src/targets/xbps.rs:91-105 | on success the walk appends exactly one directory record per directory and one file record per regular file, in pre-order, each with `/` + path below the root; files also get whole seconds since the epoch and the hex digest; other entries get none |
| `XbpsManifest.WalkLinks` | src/targets/xbps.rs:83-95 | with a staging directory, success adds exactly one link per direct child, in order, and none for nested entries; without one, no links are made |
| `XbpsManifest.VisitLinks` | src/targets/xbps.rs:83-89 | an entry is mirrored before it is classified: a made link survives whatever happens next, and a failed link stops the walk before the entry is looked at |
| `XbpsManifest.WalkNoStripPrefix` | src/targets/xbps.rs:93-100 | a walk rooted at the root never fails with `StripPrefix` |
| `XbpsManifest.WalkSucceeds` | src/targets/xbps.rs:79-107 | the walk succeeds exactly when the directory is listable, every entry below it is processable, and every child can be mirrored when a staging directory is given |
| `XbpsManifest.NodesPreorder` | src/targets/xbps.rs:91-95 | the enumeration the records follow is pre-order: every node lies below the start, and every nested node comes after the node of the directory containing it |
| `XbpsManifest.ProcessedCorrect` | src/targets/xbps.rs:110-113 | `process_files` from an empty manifest succeeds exactly under the conditions above and never fails on the prefix; on success it gives the installed size, the pre-order records and one link per top-level entry |
| `Xbps.PkgFiles.constructor` | src/targets/xbps.rs:41-48 | a new manifest has no directory records and no file records |
| `Xbps.PkgFiles.PushDir` | src/targets/xbps.rs:92-94 | appends one directory record and leaves file records unchanged |
| `Xbps.PkgFiles.PushFile` | src/targets/xbps.rs:99-103 | appends one file record and leaves directory records unchanged |
| `Xbps.StagingDir.Symlink` | src/targets/xbps.rs:87 | fails with `Io`, changing nothing, exactly when the link name is taken; otherwise appends the link |
| `Xbps.ProcessDir` | src/targets/xbps.rs:79-108 | the loop of `process_dir` leaves result, manifest and staged links equal to `Walk` over all entries, on success and on every error |
| `Xbps.ProcessEntry` | src/targets/xbps.rs:82-105 | one iteration (mirror, then classify, record, recurse with no staging directory or add the length) leaves the state `Visit` describes |
| `Xbps.ProcessFiles` | src/targets/xbps.rs:110-113 | a newly allocated manifest filled by the walk; the result, records and links are those of `Processed` |
| `Xbps.DestName` | src/targets/xbps.rs:120 | the archive name is the version string followed by `.`, the architecture and `.xbps` |
| `Xbps.RunDepends` | src/targets/xbps.rs:132-136 | `run_depends` is `all` followed by `run`, in order, with duplicates kept (same multiset) and nothing from `build` |
| `Xbps.Props` | src/targets/xbps.rs:127-142 | properties carry the architecture, the walker's size, name, `name-version_epoch`, the run dependencies and the version; the four descriptive fields are absent |
| `Xbps.PkgverRoundTrip` | src/targets/xbps.rs:131 | when the version has no `-` and the epoch no `_`, splitting the version string at its last `_` and then its last `-` recovers name, version and epoch |
| `Xbps.PkgverInjective` | src/targets/xbps.rs:131 | under the same condition, version strings are equal exactly when name, version and epoch are |
| `Xbps.DestNameInjective` | src/targets/xbps.rs:120 | on one architecture, archive names are equal exactly when version strings are |
| `Xbps.PkgverAmbiguous` | src/targets/xbps.rs:131 | without that condition two different specs (`a-b`/`c` and `a`/`b-c`) share a version string |
| `Xbps.LinkNamed` | src/targets/xbps.rs:125 | finds a link of the staging directory with the given name exactly when one is there |
| `Xbps.CreateStaged` | src/targets/xbps.rs:125-143 | creating a metadata file in the staging directory makes a new file exactly when no link has that name; otherwise it opens the link's target, fails only with `Io` and only then, and otherwise returns the target of a link with that name |
| `Xbps.LinkNamedTopLinks` | src/targets/xbps.rs:83-88 | among the walk's links, the first one with a given name is the link made for the first top-level entry of that name, pointing at `pkgdir/name` |
| `Xbps.CreateStagedAfterWalk` | src/targets/xbps.rs:110-143 | after the walk, creating `name` makes a new file when the package root has no top-level `name`, fails with `Io` when that entry is a directory, and overwrites `pkgdir/name` otherwise |
| `Xbps.ProcessedLinks` | src/targets/xbps.rs:110-113 | a successful walk leaves exactly one link per top-level entry in the fresh staging directory |
| `Xbps.PackagedOutcome` | src/targets/xbps.rs:115-157 | `package` succeeds exactly when the walk succeeds, neither metadata file lands on a top-level directory, and `tar` succeeds; each failure gives the walk's error, `Io` or `CommandStatus`, in that order |
| `Xbps.PackagedArchive` | src/targets/xbps.rs:115-157 | a successful `package` leaves the archive at `destdir/DestName` with props carrying the installed size, the pre-order manifest of every directory and regular file, one staged link per top-level entry, and the top-level paths the metadata files overwrote |
| `Xbps.Package` | src/targets/xbps.rs:115-157 | the imperative `package` (walk, create `files.plist`, build props, create `props.plist`, run `tar`) gives exactly the outcome `Packaged` describes |
| `WowMain.SourceFileNameSuffix` | src/main.rs:84-89 | the stored name has no `/`, is a suffix of the URL, is preceded by a `/` when the URL has one, and is the whole URL otherwise |
| `WowMain.SourceFileNameRFind` | src/main.rs:84-89 | the stored name is the slice after `rfind('/')`, or the whole URL when there is no `/` |
| `WowMain.Validate` | src/main.rs:26-37 | an unreadable file is an I/O error; otherwise the verdict is the equality of the rendered digest and the declared sum |
| `WowMain.ValidateMeaning` | src/main.rs:26-37 | a readable file passes exactly when the declared sum decodes, as lowercase hex, to the file's digest |
| `WowMain.ValidateAgreesWithHash` | src/main.rs:26-37 | `validate` passes exactly when `hash` of the same bytes would give the declared sum |
| `WowMain.ValidateNeedsLowerHex` | src/main.rs:33-34 | a sum with a character outside lowercase hex, or of the wrong length, never passes (the comparison is case-sensitive) |
| `WowMain.ReadSource` | src/main.rs:30-31 | reading `build/sources/<name>` succeeds exactly for a stored regular file, never for a name that denotes the directory itself |
| `WowMain.SourcesDir.Download` | src/main.rs:9-24 | a present path is left alone and succeeds; a missing one is fetched and succeeds exactly when the transfer completes; a broken transfer leaves its partial bytes at the path; an unknown URL fails and changes nothing |
| `WowMain.SourcesDir.Fetch` | src/main.rs:83-94 | one iteration of the source loop (name, download, validate) leaves the directory and failure that `FetchOne` gives |
| `WowMain.FetchOne` | src/main.rs:83-94 | a failure of one iteration is reported at its own index |
| `WowMain.FetchOneStep` | src/main.rs:83-94 | one iteration only adds files; it fails with a download failure exactly when the file is missing and its transfer is unknown or broken, and otherwise fails exactly when its source does not pass against the directory it leaves |
| `WowMain.FetchAll` | src/main.rs:82-95 | a failure is reported at an index among the sources processed |
| `WowMain.FetchAllKeeps` | src/main.rs:9-13 | a file already in the sources directory is never replaced or removed |
| `WowMain.FetchAllSucceeds` | src/main.rs:82-95 | when the loop gets past the sources, every source passes against the directory it leaves; when it stops, the stopping source failed to download or does not pass, and every earlier one passes |
| `WowMain.PartialDownloadSticks` | src/main.rs:9-22 | a broken transfer of a missing file stops the run but leaves its partial bytes; a later run skips the download and passes exactly when those bytes match the declared sum |
| `WowMain.PassUpToLater` | src/main.rs:9-13 | sources that pass keep passing when the directory only gains files |
| `WowMain.FetchAllStops` | src/main.rs:92-94 | once a source fails, later sources change nothing |
| `WowMain.SameNameSameSum` | src/main.rs:84-94 | two sources stored under the same name with different declared sums always stop the run |
| `WowMain.FetchSources` | src/main.rs:82-95 | the imperative loop over the sources leaves the directory and failure that `FetchAll` gives |
| `WowMain.Terminated` | src/main.rs:58-61 | no lines give the empty text; otherwise the text ends in a newline |
| `WowMain.WriteScript` | src/main.rs:53-62 | the text written to `bash` is the preamble line, then each install line followed by `\n` |
| `WowMain.LinesOfTerminated` | src/main.rs:58-61 | splitting the newline-terminated text gives back the lines, when no line contains a newline |
| `WowMain.ScriptLines` | src/main.rs:57-61 | `bash` reads `set -e -o pipefail -u` and then exactly the install lines, in order, when no line contains a newline |
| `WowMain.BuildEnv` | src/main.rs:45-50 | `bash` gets the inherited environment with `srcdir`, `pkgdir`, `workdir` and `version` set on top: those four are the given directories and the spec's version, and every other inherited variable is kept |
| `WowMain.Build` | src/main.rs:39-68 | `bash` runs in the work directory with the inherited environment plus the four variables and with that script; the build succeeds exactly when `bash` does |
| `WowMain.MainValidatesFirst` | src/main.rs:82-96 | the script runs exactly when every source passed; a run stopped at source i ran no script, source i failed to download or did not pass, and every source before i passed |
| `WowMain.Run` | src/main.rs:70-98 | the sources loop and then `build` give `Main`'s outcome and leave the sources directory as the loop does |
| `Scenario.EndToEnd` | src/targets/xbps.rs:79-113 | the worked root yields size 10, directory records `/bin`, `/share`, `/share/doc`, and one file record `/bin/foo` |
| `Scenario.MetadataOverDirectory` | src/targets/xbps.rs:83-125 | a package root whose only entry is an empty directory `files.plist` walks successfully, yet `package` fails with `Io` |
| `Scenario.MetadataOverFile` | src/targets/xbps.rs:83-143 | a package root whose only entry is a file `files.plist` packages successfully; the manifest records the digest of the file's old content, and that file is the one path overwritten |
| `Scenario.FooProps` | src/targets/xbps.rs:120-136 | the worked spec gives `foo-1.2_1` and `foo-1.2_1.x86_64.xbps`; `all=["x"]`, `run=["x"]` gives `run_depends == ["x", "x"]` |

## Left out

- SHA-256 itself (`crypto_hash`) is the parameter `sha`; streaming the file through the hasher is reading its whole content at once.
- Real filesystem calls (`read_dir`, `file_type`, `metadata`, `symlink`, `File::open`) work on the `Entry` value. Per-entry I/O errors (`entry?`, `file_type()?`, `metadata()?`) are not modelled separately; only an unreadable directory or file fails.
- `StagingDir.Symlink` fails only when the link name is taken. Permission and filesystem faults of `symlink` are not modelled.
- `canonicalize` of the package and destination directories, and `tempfile::tempdir` and its cleanup, are not modelled. The model takes canonical paths and a fresh staging directory.
- `Xbps.CreateStaged`: a link to any entry other than a directory counts as written through, including a symlink, device or fifo; whether a write there succeeds, and permission faults of `File::create`, are not modelled. The new contents of an overwritten file are not modelled either; the archive names the overwritten paths.
- plist serialization is not modelled, so the `Plist` error is declared but never produced. YAML parsing of `build.yml` is replaced by the `Raw...` values with optional keys.
- `tar chJf` is a boolean exit status, and the archive is the value it would pack. `target::arch()` is a parameter.
- `curl` is a map from URL to a `Transfer`, either complete or broken, each with the bytes left at the path. `bash` is a boolean exit status. The environment `wow` inherits and the absolute directories put into the environment of `bash` are parameters, and `mkdirp` and all `println!` are not modelled.
- Panics in `main` (`unwrap`, `panic!`) are outcomes (`Aborted`, `BuildFailed`). Process exit is not modelled.
- `Xbps.ProcessDir`: sizes and mtimes are unbounded naturals. Overflow of the `u64` size accumulator is not modelled.
- `FsTree.Display` joins components with `/` and does not model lossy display of non-UTF-8 names.
