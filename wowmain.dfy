/** The driver of src/main.rs: for every source of the build spec, in order,
    download it unless its file is already present and check its SHA-256 sum;
    only when every source has passed, run the install script under
    `bash`.  Panics are outcomes (`Aborted`, `BuildFailed`); the network,
    `curl` and `bash` are parameters. */
module WowMain {
  import opened Wrappers
  import opened Hex
  import opened Strings
  import opened Objects
  import opened FsTree
  import opened XbpsManifest

  // ---------------------------------------------------------------------
  // File names and validation.
  // ---------------------------------------------------------------------

  /** The name a source is stored under: its URL's characters after the last
      `/`, all of them when there is none. */
  function SourceFileName(href: string): string {
    if href == [] || href[|href| - 1] == '/' then []
    else SourceFileName(href[..|href| - 1]) + [href[|href| - 1]]
  }

  /** The stored name is the longest suffix of the URL without a `/`: it has
      none, and the URL either has none either or has one just before it. */
  lemma {:induction false} SourceFileNameSuffix(href: string)
    ensures var r := SourceFileName(href);
      && '/' !in r
      && |r| <= |href| && r == href[|href| - |r|..]
      && ('/' in href ==> |r| < |href| && href[|href| - |r| - 1] == '/')
      && ('/' !in href ==> r == href)
  {
    if href != [] && href[|href| - 1] != '/' {
      var init := href[..|href| - 1];
      SourceFileNameSuffix(init);
      var r := SourceFileName(init);
      assert href == init + [href[|href| - 1]];
      assert '/' in href <==> '/' in init;
      assert href[|href| - |r| - 1..] == r + [href[|href| - 1]];
    }
  }

  /** It is what `main` computes: the slice after `rfind('/')`, or the whole
      URL. */
  lemma SourceFileNameRFind(href: string)
    ensures SourceFileName(href) == match RFind(href, '/') case Some(i) => href[i + 1..] case None => href
  {
    SourceFileNameSuffix(href);
    var r := SourceFileName(href);
    match RFind(href, '/')
    case None =>
    case Some(i) =>
      var k := |href| - |r| - 1;
      assert href[k] == '/';
      assert forall j :: k < j < |href| ==> href[j] == r[j - k - 1];
      assert i == k;
  }

  /** An I/O error while reading a downloaded source. */
  datatype IoError = IoError

  /** `validate`: the file's digest, rendered as lowercase hex, compared with
      the declared sum as text.  A sum passes exactly when it is the
      lowercase rendering of the digest, so an upper-case sum never does. */
  function Validate(v: SourceVerification, file: Option<seq<byte>>, sha: Digest): (r: Result<bool, IoError>)
    ensures r.Err? <==> file.None?
  {
    match v
    case Sha256(s) =>
      match file
      case None => Err(IoError)
      case Some(bytes) => Ok(ToHex(sha(bytes)) == s.sum)
  }

  /** A readable file passes exactly when the declared sum reads back, as
      lowercase hex, as the file's digest. */
  lemma ValidateMeaning(v: SourceVerification, file: Option<seq<byte>>, sha: Digest)
    requires file.Some?
    ensures Validate(v, file, sha) == Ok(FromHex(v.s.sum) == Some(sha(file.value)))
  {
    ToHexIffFromHex(sha(file.value), v.s.sum);
  }

  /** The driver and the package builder render digests alike: a source
      passes exactly when `hash` would report its declared sum. */
  lemma ValidateAgreesWithHash(v: SourceVerification, file: Option<seq<byte>>, sha: Digest)
    ensures Validate(v, file, sha) == Ok(true) <==> HashFile(sha, file) == Ok(v.s.sum)
  {
    if file.Some? {
      ToHexIffFromHex(sha(file.value), v.s.sum);
    }
  }

  /** A sum that is not all lowercase hex digits, or of the wrong length,
      never passes. */
  lemma ValidateNeedsLowerHex(v: SourceVerification, file: Option<seq<byte>>, sha: Digest)
    requires !IsLowerHex(v.s.sum) || (file.Some? && |v.s.sum| != 2 * |sha(file.value)|)
    ensures Validate(v, file, sha) != Ok(true)
  {
    if file.Some? {
      ToHexIsLowerHex(sha(file.value));
    }
  }

  // ---------------------------------------------------------------------
  // The sources directory.
  // ---------------------------------------------------------------------

  /** Names that, joined to the sources directory, name a directory: the
      directory itself and its parent.  Such a path always exists, so nothing
      is downloaded, and reading it fails. */
  predicate NamesDirectory(name: string) {
    name == "" || name == "." || name == ".."
  }

  /** `path.exists()` for `build/sources/<name>`; `files` are the regular
      files in the directory. */
  predicate Present(files: map<string, seq<byte>>, name: string) {
    NamesDirectory(name) || name in files
  }

  /** Reading `build/sources/<name>`. */
  function ReadSource(files: map<string, seq<byte>>, name: string): (r: Option<seq<byte>>)
    ensures r.Some? <==> !NamesDirectory(name) && name in files
  {
    if !NamesDirectory(name) && name in files then Some(files[name]) else None
  }

  /** What `curl -L -o path href` does for one URL: a transfer that completes
      leaves the document in `path`; one that breaks off midway fails, but
      leaves the bytes it had written.  A URL that is not in a `Remote` map
      fails before anything is written. */
  datatype Transfer = Complete(bytes: seq<byte>) | Broken(bytes: seq<byte>)

  type Remote = map<string, Transfer>

  /** Why a run stops before the build: `curl` failed ("Failed to download
      source."), the file could not be read (the `unwrap` of `validate`), or
      the sum did not match ("Source validation failed!"). */
  datatype Failure = DownloadFailed | SourceUnreadable | ValidationFailed

  /** The sources directory after some sources were processed, and the first
      failure with the index of its source, if there was one. */
  datatype Fetched = Fetched(files: map<string, seq<byte>>, failure: Option<(nat, Failure)>)

  /** Every file of `files` is still in `files'`, with the same contents. */
  ghost predicate Keeps(files: map<string, seq<byte>>, files': map<string, seq<byte>>) {
    forall name :: name in files ==> name in files' && files'[name] == files[name]
  }

  /** Source `src` passes against the directory `files`. */
  predicate Validated(src: Source, files: map<string, seq<byte>>, sha: Digest) {
    Validate(src.verification, ReadSource(files, SourceFileName(src.href)), sha) == Ok(true)
  }

  /** One iteration of the loop of `main`, for source `src` at index `i`, with
      `remote` the documents `curl` can fetch: `download` keeps a present file
      as it is and fetches a missing one, or the run stops; then `validate`. */
  function FetchOne(src: Source, i: nat, dir: map<string, seq<byte>>,
                    remote: Remote, sha: Digest): (f: Fetched)
    ensures f.failure.Some? ==> f.failure.value.0 == i
  {
    var name := SourceFileName(src.href);
    if !Present(dir, name) && src.href !in remote then Fetched(dir, Some((i, DownloadFailed)))
    else
      var dir' := if Present(dir, name) then dir else dir[name := remote[src.href].bytes];
      if !Present(dir, name) && remote[src.href].Broken? then Fetched(dir', Some((i, DownloadFailed)))
      else
      match Validate(src.verification, ReadSource(dir', name), sha)
      case Err(_) => Fetched(dir', Some((i, SourceUnreadable)))
      case Ok(false) => Fetched(dir', Some((i, ValidationFailed)))
      case Ok(true) => Fetched(dir', None)
  }

  /** The loop of `main` over the first `n` sources; the first failure ends it. */
  function FetchAll(sources: seq<Source>, n: nat, files: map<string, seq<byte>>,
                    remote: Remote, sha: Digest): (f: Fetched)
    requires n <= |sources|
    ensures f.failure.Some? ==> f.failure.value.0 < n
  {
    if n == 0 then Fetched(files, None)
    else
      var prev := FetchAll(sources, n - 1, files, remote, sha);
      if prev.failure.Some? then prev else FetchOne(sources[n - 1], n - 1, prev.files, remote, sha)
  }

  /** One iteration only adds a file.  It stops at the download exactly when
      the file is missing and `curl` does not complete; otherwise it fails
      exactly when its source does not pass against the directory it leaves. */
  lemma FetchOneStep(src: Source, i: nat, dir: map<string, seq<byte>>,
                     remote: Remote, sha: Digest)
    ensures var f := FetchOne(src, i, dir, remote, sha);
      var name := SourceFileName(src.href);
      && Keeps(dir, f.files)
      && (f.failure == Some((i, DownloadFailed)) <==>
            !Present(dir, name) && (src.href !in remote || remote[src.href].Broken?))
      && (f.failure != Some((i, DownloadFailed)) ==> (f.failure.None? <==> Validated(src, f.files, sha)))
  {
    var name := SourceFileName(src.href);
    if !Present(dir, name) && src.href !in remote {
      assert ReadSource(dir, name).None?;
    }
  }

  /** Nothing in the sources directory is ever replaced: a file already there,
      even a stale or corrupt one from an earlier run, is what gets checked. */
  lemma {:induction false} FetchAllKeeps(sources: seq<Source>, n: nat, files: map<string, seq<byte>>,
                                         remote: Remote, sha: Digest)
    requires n <= |sources|
    ensures Keeps(files, FetchAll(sources, n, files, remote, sha).files)
  {
    if n > 0 {
      FetchAllKeeps(sources, n - 1, files, remote, sha);
      var prev := FetchAll(sources, n - 1, files, remote, sha);
      if prev.failure.None? {
        FetchOneStep(sources[n - 1], n - 1, prev.files, remote, sha);
        KeepsTrans(files, prev.files, FetchAll(sources, n, files, remote, sha).files);
      }
    }
  }

  lemma KeepsTrans(a: map<string, seq<byte>>, b: map<string, seq<byte>>, c: map<string, seq<byte>>)
    requires Keeps(a, b) && Keeps(b, c)
    ensures Keeps(a, c)
  {
  }

  /** Each of the first `n` sources passes against `files`. */
  predicate PassUpTo(sources: seq<Source>, n: nat, files: map<string, seq<byte>>, sha: Digest)
    requires n <= |sources|
  {
    n == 0 || (PassUpTo(sources, n - 1, files, sha) && Validated(sources[n - 1], files, sha))
  }

  lemma {:induction false} PassUpToMeaning(sources: seq<Source>, n: nat, files: map<string, seq<byte>>, sha: Digest)
    requires n <= |sources|
    ensures PassUpTo(sources, n, files, sha) <==> forall i :: 0 <= i < n ==> Validated(sources[i], files, sha)
  {
    if n > 0 {
      PassUpToMeaning(sources, n - 1, files, sha);
    }
  }

  /** Sources that pass keep passing when files are only added. */
  lemma {:induction false} PassUpToLater(sources: seq<Source>, n: nat, files: map<string, seq<byte>>,
                                         files': map<string, seq<byte>>, sha: Digest)
    requires n <= |sources|
    requires PassUpTo(sources, n, files, sha) && Keeps(files, files')
    ensures PassUpTo(sources, n, files', sha)
  {
    if n > 0 {
      PassUpToLater(sources, n - 1, files, files', sha);
      PassesLater(sources[n - 1], files, files', sha);
    }
  }

  /** A run stopped at source `f.failure.value.0`: its download failed or it
      does not pass against the directory the loop left, and every source
      before it does pass. */
  predicate Stopped(sources: seq<Source>, f: Fetched, sha: Digest)
    requires f.failure.Some? && f.failure.value.0 < |sources|
  {
    && (f.failure.value.1 == DownloadFailed || !Validated(sources[f.failure.value.0], f.files, sha))
    && PassUpTo(sources, f.failure.value.0, f.files, sha)
  }

  /** When the run gets past the sources, every source passes against the
      sources directory as the loop leaves it; when it stops, it stops at a
      source whose download failed or that does not pass, and every earlier
      one passes. */
  lemma {:induction false} FetchAllSucceeds(sources: seq<Source>, n: nat, files: map<string, seq<byte>>,
                                            remote: Remote, sha: Digest)
    requires n <= |sources|
    ensures FetchAll(sources, n, files, remote, sha).failure.None? ==>
              PassUpTo(sources, n, FetchAll(sources, n, files, remote, sha).files, sha)
    ensures FetchAll(sources, n, files, remote, sha).failure.Some? ==>
              Stopped(sources, FetchAll(sources, n, files, remote, sha), sha)
  {
    if n > 0 {
      FetchAllSucceeds(sources, n - 1, files, remote, sha);
      var prev := FetchAll(sources, n - 1, files, remote, sha);
      if prev.failure.Some? {
        assert FetchAll(sources, n, files, remote, sha) == prev;
      } else {
        FetchAllSucceedsStep(sources, n - 1, files, remote, sha);
      }
    }
  }

  /** The step of `FetchAllSucceeds` past a source when none before it failed. */
  lemma FetchAllSucceedsStep(sources: seq<Source>, i: nat, files: map<string, seq<byte>>,
                             remote: Remote, sha: Digest)
    requires i < |sources|
    requires FetchAll(sources, i, files, remote, sha).failure.None?
    requires PassUpTo(sources, i, FetchAll(sources, i, files, remote, sha).files, sha)
    ensures FetchAll(sources, i + 1, files, remote, sha).failure.None? ==>
              PassUpTo(sources, i + 1, FetchAll(sources, i + 1, files, remote, sha).files, sha)
    ensures FetchAll(sources, i + 1, files, remote, sha).failure.Some? ==>
              Stopped(sources, FetchAll(sources, i + 1, files, remote, sha), sha)
  {
    var prev := FetchAll(sources, i, files, remote, sha);
    var f := FetchOne(sources[i], i, prev.files, remote, sha);
    assert FetchAll(sources, i + 1, files, remote, sha) == f;
    FetchOneStep(sources[i], i, prev.files, remote, sha);
    PassUpToLater(sources, i, prev.files, f.files, sha);
  }

  /** A source that passes keeps passing when files are only added. */
  lemma PassesLater(src: Source, files: map<string, seq<byte>>, files': map<string, seq<byte>>, sha: Digest)
    requires Validated(src, files, sha)
    requires Keeps(files, files')
    ensures Validated(src, files', sha)
  {
    var name := SourceFileName(src.href);
    assert ReadSource(files, name).Some?;
    assert ReadSource(files', name) == ReadSource(files, name);
  }

  /** Two sources stored under the same name must declare the same sum, or
      the run cannot get past them. */
  lemma SameNameSameSum(sources: seq<Source>, files: map<string, seq<byte>>,
                        remote: Remote, sha: Digest, i: nat, j: nat)
    requires i < |sources| && j < |sources|
    requires SourceFileName(sources[i].href) == SourceFileName(sources[j].href)
    requires sources[i].verification.s.sum != sources[j].verification.s.sum
    ensures FetchAll(sources, |sources|, files, remote, sha).failure.Some?
  {
    var f := FetchAll(sources, |sources|, files, remote, sha);
    FetchAllSucceeds(sources, |sources|, files, remote, sha);
    if f.failure.None? {
      PassUpToMeaning(sources, |sources|, f.files, sha);
      ValidatedSum(sources[i], f.files, sha);
      ValidatedSum(sources[j], f.files, sha);
    }
  }

  /** A transfer that breaks off stops the run but leaves its bytes behind;
      any later run finds the file present, does not download it again,
      whatever `curl` could fetch by then, and checks those bytes. */
  lemma PartialDownloadSticks(src: Source, i: nat, j: nat, dir: map<string, seq<byte>>,
                              remote: Remote, later: Remote, sha: Digest)
    requires !Present(dir, SourceFileName(src.href))
    requires src.href in remote && remote[src.href].Broken?
    ensures var name := SourceFileName(src.href);
      var f := FetchOne(src, i, dir, remote, sha);
      var g := FetchOne(src, j, f.files, later, sha);
      && f.failure == Some((i, DownloadFailed))
      && f.files == dir[name := remote[src.href].bytes]
      && g.files == f.files
      && (g.failure.None? <==> ToHex(sha(remote[src.href].bytes)) == src.verification.s.sum)
  {
    var name := SourceFileName(src.href);
    var f := FetchOne(src, i, dir, remote, sha);
    assert name in f.files && Present(f.files, name);
    assert ReadSource(f.files, name) == Some(remote[src.href].bytes);
  }

  /** A source that passes declares the rendering of its stored file's digest. */
  lemma ValidatedSum(src: Source, files: map<string, seq<byte>>, sha: Digest)
    requires Validated(src, files, sha)
    ensures var name := SourceFileName(src.href);
      name in files && src.verification.s.sum == ToHex(sha(files[name]))
  {
  }

  /** The regular files of `build/sources`, which downloads add to. */
  class SourcesDir {
    var files: map<string, seq<byte>>

    constructor (existing: map<string, seq<byte>>)
      ensures files == existing
    {
      files := existing;
    }

    /** `download(href, build/sources/name)`: nothing when the path exists;
        otherwise `curl`, which fails for a URL it cannot fetch and also for a
        transfer that breaks off, after writing part of the file. */
    method Download(href: string, name: string, remote: Remote) returns (ok: bool)
      modifies this
      ensures ok <==> Present(old(files), name) || (href in remote && remote[href].Complete?)
      ensures files == if Present(old(files), name) || href !in remote then old(files)
                       else old(files)[name := remote[href].bytes]
    {
      if Present(files, name) {
        return true;
      }
      if href !in remote {
        return false;
      }
      files := files[name := remote[href].bytes];
      return remote[href].Complete?;
    }

    /** The body of the loop of `main` for source `src` at index `i`: work out
        its file name, `download` it, then `validate` it; the directory and
        the failure, if any, are those of `FetchOne`. */
    method Fetch(src: Source, i: nat, remote: Remote, sha: Digest)
      returns (failure: Option<Failure>)
      modifies this
      ensures Fetched(files, if failure.Some? then Some((i, failure.value)) else None)
           == FetchOne(src, i, old(files), remote, sha)
    {
      var name := SourceFileName(src.href);
      var downloaded := Download(src.href, name, remote);
      if !downloaded {
        return Some(DownloadFailed);
      }
      var valid := Validate(src.verification, ReadSource(files, name), sha);
      if valid.Err? {
        return Some(SourceUnreadable);
      }
      if !valid.value {
        return Some(ValidationFailed);
      }
      return None;
    }
  }

  // ---------------------------------------------------------------------
  // The install script.
  // ---------------------------------------------------------------------

  /** The first line `build` writes to `bash`: stop at the first failing
      command, at a failure inside a pipeline, and at an unset variable. */
  const PreambleLine: string := "set -e -o pipefail -u"

  /** Each line followed by a newline, in order. */
  function Terminated(lines: seq<string>): (s: string)
    ensures lines == [] <==> s == ""
    ensures lines != [] ==> s[|s| - 1] == '\n'
  {
    if lines == [] then "" else Terminated(lines[..|lines| - 1]) + lines[|lines| - 1] + "\n"
  }

  /** Everything `build` writes to the standard input of `bash`. */
  function ScriptText(install: seq<string>): string {
    PreambleLine + "\n" + Terminated(install)
  }

  /** The writes of `build`: the preamble, then each line and a newline. */
  method WriteScript(install: seq<string>) returns (stdin: string)
    ensures stdin == ScriptText(install)
  {
    stdin := PreambleLine + "\n";
    var i := 0;
    while i < |install|
      invariant 0 <= i <= |install|
      invariant stdin == PreambleLine + "\n" + Terminated(install[..i])
    {
      assert install[..i + 1][..i] == install[..i];
      stdin := stdin + install[i] + "\n";
      i := i + 1;
    }
    assert install[..i] == install;
  }

  /** Splitting a text of newline-terminated lines into its lines. */
  function Lines(s: string): seq<string>
    decreases |s|
  {
    if s == [] then []
    else
      var body := s[..|s| - 1];
      match RFind(body, '\n')
      case None => [body]
      case Some(k) => Lines(s[..k + 1]) + [body[k + 1..]]
  }

  /** In a text that is empty or ends in a newline, followed by a line
      without one, the last newline is the text's own last character. */
  lemma RFindLastLine(t: string, last: string)
    requires t == "" || t[|t| - 1] == '\n'
    requires '\n' !in last
    ensures RFind(t + last, '\n') == if t == "" then None else Some(|t| - 1)
  {
    if t == "" {
      assert t + last == last;
    } else {
      assert t + last == t[..|t| - 1] + ['\n'] + last;
      RFindAfter(t[..|t| - 1], '\n', last);
    }
  }

  /** One more newline-terminated line after a text that is empty or ends
      in a newline splits off as one more line. */
  lemma LinesSnoc(t: string, last: string)
    requires t == "" || t[|t| - 1] == '\n'
    requires '\n' !in last
    ensures Lines(t + last + "\n") == Lines(t) + [last]
  {
    var s := t + last + "\n";
    assert s[..|s| - 1] == t + last;
    RFindLastLine(t, last);
    assert s[..|t|] == t;
    assert (t + last)[|t|..] == last;
  }

  /** Lines without a newline of their own come back as they were. */
  lemma {:induction false} LinesOfTerminated(lines: seq<string>)
    requires forall i :: 0 <= i < |lines| ==> '\n' !in lines[i]
    ensures Lines(Terminated(lines)) == lines
  {
    if lines != [] {
      var init, last := lines[..|lines| - 1], lines[|lines| - 1];
      LinesOfTerminated(init);
      LinesSnoc(Terminated(init), last);
      assert init + [last] == lines;
    }
  }

  lemma {:induction false} TerminatedAppend(a: seq<string>, b: seq<string>)
    ensures Terminated(a + b) == Terminated(a) + Terminated(b)
  {
    if b != [] {
      TerminatedAppend(a, b[..|b| - 1]);
      assert (a + b)[..|a + b| - 1] == a + b[..|b| - 1];
    } else {
      assert a + b == a;
    }
  }

  /** `bash` reads the preamble and then exactly the install lines, in
      order, as long as no line holds a newline of its own. */
  lemma ScriptLines(install: seq<string>)
    requires forall i :: 0 <= i < |install| ==> '\n' !in install[i]
    ensures Lines(ScriptText(install)) == [PreambleLine] + install
  {
    TerminatedAppend([PreambleLine], install);
    assert Terminated([PreambleLine]) == PreambleLine + "\n";
    LinesOfTerminated([PreambleLine] + install);
  }

  // ---------------------------------------------------------------------
  // The run.
  // ---------------------------------------------------------------------

  /** The directories `main` works in. */
  const SourcesPath: Path := ["build", "sources"]
  const PkgPath: Path := ["build", "pkg"]
  const WorkPath: Path := ["build", "work"]

  /** How `bash` is started by `build`. */
  datatype Invocation = Invocation(program: string, env: map<string, string>, cwd: Path, stdin: string)

  /** How a run ends: stopped at source `index`, or the build ran with the
      given invocation and failed ("Failed to build package.") or succeeded. */
  datatype Outcome =
    | Aborted(index: nat, failure: Failure)
    | BuildFailed(bash: Invocation)
    | Built(bash: Invocation)

  /** The names `build` sets in the environment of `bash`. */
  const BuildVars: set<string> := {"srcdir", "pkgdir", "workdir", "version"}

  /** The environment `bash` runs with: the one `wow` inherited, with the
      three directories, made absolute, and the version set on top of it. */
  function BuildEnv(spec: BuildSpec, inherited: map<string, string>,
                    srcdir: string, pkgdir: string, workdir: string): (env: map<string, string>)
    ensures env.Keys == inherited.Keys + BuildVars
    ensures env["srcdir"] == srcdir && env["pkgdir"] == pkgdir && env["workdir"] == workdir
    ensures env["version"] == spec.version
    ensures forall k :: k in inherited && k !in BuildVars ==> env[k] == inherited[k]
  {
    inherited["srcdir" := srcdir]["pkgdir" := pkgdir]["workdir" := workdir]["version" := spec.version]
  }

  /** `build`: start `bash` in the work directory and feed it the script;
      `succeeds` is its exit status. */
  method Build(spec: BuildSpec, inherited: map<string, string>,
               srcdir: string, pkgdir: string, workdir: string, succeeds: bool)
    returns (o: Outcome)
    ensures o.Built? <==> succeeds
    ensures !o.Aborted?
    ensures o.bash == Invocation("bash", BuildEnv(spec, inherited, srcdir, pkgdir, workdir), WorkPath,
                                 ScriptText(spec.scripts.install))
  {
    var stdin := WriteScript(spec.scripts.install);
    var bash := Invocation("bash", BuildEnv(spec, inherited, srcdir, pkgdir, workdir), WorkPath, stdin);
    if succeeds {
      return Built(bash);
    }
    return BuildFailed(bash);
  }

  /** The outcome of `main`, for the spec, the sources directory's files on
      start, what `curl` does for each URL, the environment `wow` inherited,
      the absolute directory names `build` is given, and the exit status of
      `bash`. */
  function Main(spec: BuildSpec, files: map<string, seq<byte>>, remote: Remote, sha: Digest,
                inherited: map<string, string>, srcdir: string, pkgdir: string, workdir: string,
                succeeds: bool): Outcome
  {
    var f := FetchAll(spec.sources, |spec.sources|, files, remote, sha);
    if f.failure.Some? then Aborted(f.failure.value.0, f.failure.value.1)
    else
      var bash := Invocation("bash", BuildEnv(spec, inherited, srcdir, pkgdir, workdir), WorkPath,
                             ScriptText(spec.scripts.install));
      if succeeds then Built(bash) else BuildFailed(bash)
  }

  /** The install script runs only after every source has been downloaded
      and has passed; a run stopped at source `i` did not run the script,
      passed every source before it, and failed to download source `i` or
      found it not to pass. */
  lemma MainValidatesFirst(spec: BuildSpec, files: map<string, seq<byte>>, remote: Remote,
                           sha: Digest, inherited: map<string, string>,
                           srcdir: string, pkgdir: string, workdir: string, succeeds: bool)
    ensures var o := Main(spec, files, remote, sha, inherited, srcdir, pkgdir, workdir, succeeds);
      var f := FetchAll(spec.sources, |spec.sources|, files, remote, sha);
      && (!o.Aborted? ==> forall i :: 0 <= i < |spec.sources| ==> Validated(spec.sources[i], f.files, sha))
      && (o.Aborted? ==>
            && o.index < |spec.sources|
            && (o.failure == DownloadFailed || !Validated(spec.sources[o.index], f.files, sha))
            && forall i :: 0 <= i < o.index ==> Validated(spec.sources[i], f.files, sha))
  {
    var f := FetchAll(spec.sources, |spec.sources|, files, remote, sha);
    FetchAllSucceeds(spec.sources, |spec.sources|, files, remote, sha);
    PassUpToMeaning(spec.sources, |spec.sources|, f.files, sha);
    if f.failure.Some? {
      PassUpToMeaning(spec.sources, f.failure.value.0, f.files, sha);
    }
  }

  /** The loop of `main` over the sources, against a sources directory `dir`:
      the directory it leaves and the failure that stopped it, if any, are
      those of `FetchAll`. */
  method FetchSources(sources: seq<Source>, dir: SourcesDir, remote: Remote, sha: Digest)
    returns (failure: Option<(nat, Failure)>)
    modifies dir
    ensures FetchAll(sources, |sources|, old(dir.files), remote, sha) == Fetched(dir.files, failure)
  {
    ghost var start := dir.files;
    var i := 0;
    while i < |sources|
      invariant 0 <= i <= |sources|
      invariant FetchAll(sources, i, start, remote, sha) == Fetched(dir.files, None)
    {
      ghost var before := dir.files;
      var stop := dir.Fetch(sources[i], i, remote, sha);
      assert FetchAll(sources, i + 1, start, remote, sha) == FetchOne(sources[i], i, before, remote, sha);
      if stop.Some? {
        FetchAllStops(sources, i + 1, |sources|, start, remote, sha);
        return Some((i, stop.value));
      }
      i := i + 1;
    }
    return None;
  }

  /** `main` after the spec is read: the loop over the sources and then
      `build`, against a sources directory `dir`; the outcome is `Main`'s, and
      the directory ends as the loop leaves it. */
  method Run(spec: BuildSpec, dir: SourcesDir, remote: Remote, sha: Digest,
             inherited: map<string, string>,
             srcdir: string, pkgdir: string, workdir: string, succeeds: bool)
    returns (o: Outcome)
    modifies dir
    ensures o == Main(spec, old(dir.files), remote, sha, inherited, srcdir, pkgdir, workdir, succeeds)
    ensures dir.files == FetchAll(spec.sources, |spec.sources|, old(dir.files), remote, sha).files
  {
    var failure := FetchSources(spec.sources, dir, remote, sha);
    if failure.Some? {
      return Aborted(failure.value.0, failure.value.1);
    }
    o := Build(spec, inherited, srcdir, pkgdir, workdir, succeeds);
  }

  /** Once a source fails, the later ones change nothing. */
  lemma {:induction false} FetchAllStops(sources: seq<Source>, n: nat, n': nat, files: map<string, seq<byte>>,
                                         remote: Remote, sha: Digest)
    requires n <= n' <= |sources|
    requires FetchAll(sources, n, files, remote, sha).failure.Some?
    ensures FetchAll(sources, n', files, remote, sha) == FetchAll(sources, n, files, remote, sha)
    decreases n'
  {
    if n' > n {
      FetchAllStops(sources, n, n' - 1, files, remote, sha);
    }
  }
}
