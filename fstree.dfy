/** The part of `std::fs` and `std::path` the walker sees, as values.

    A directory tree is an `Entry`.  Children are listed in directory-iteration
    order.  The faults a real filesystem can report are part of the value: a
    directory whose listing cannot be read (`readable == false`), a file whose
    contents cannot be read (`content == None`), a modification time before the
    Unix epoch (`mtime < 0`).  `len` is what `metadata().len()` reports and is
    kept apart from `content`, which is what reading the file yields. */
module FsTree {
  import opened Wrappers
  import opened Hex

  /** A path as its list of components: `/a/b` is `["a", "b"]` below `/`. */
  type Path = seq<string>

  datatype Entry =
    | Dir(name: string, readable: bool, children: seq<Entry>)
      /** `mtime` is in nanoseconds since the Unix epoch and may be negative. */
    | File(name: string, len: nat, mtime: int, content: Option<seq<byte>>)
      /** A symbolic link, device, socket or fifo. */
    | Other(name: string)

  const NanosPerSecond: nat := 1_000_000_000

  /** The children of a directory; nothing else has any. */
  function Children(e: Entry): seq<Entry> {
    if e.Dir? then e.children else []
  }

  /** `read_dir`: the listing of a readable directory, and an I/O error
      (`None`) for an unreadable directory or anything that is not one. */
  function ReadDir(e: Entry): (r: Option<seq<Entry>>)
    ensures r.Some? <==> e.Dir? && e.readable
    ensures r.Some? ==> r.value == Children(e)
  {
    if e.Dir? && e.readable then Some(e.children) else None
  }

  /** The entry `name` of a directory holding `cs`: the first child so named. */
  function ChildNamed(cs: seq<Entry>, name: string): (r: Option<Entry>)
    ensures r.Some? ==> r.value in cs && r.value.name == name
    ensures r.None? <==> forall i :: 0 <= i < |cs| ==> cs[i].name != name
  {
    if cs == [] then None
    else if cs[0].name == name then Some(cs[0])
    else ChildNamed(cs[1..], name)
  }

  /** Resolving a path below `e`, component by component; `None` when some
      component does not exist. */
  function Lookup(e: Entry, p: Path): (r: Option<Entry>)
    ensures p == [] ==> r == Some(e)
    ensures |p| == 1 ==> r == ChildNamed(Children(e), p[0])
    decreases |p|
  {
    if p == [] then Some(e)
    else
      match ChildNamed(Children(e), p[0])
      case None => None
      case Some(c) => Lookup(c, p[1..])
  }

  /** `Path::file_name`: the last component, or `None` when there is none or
      the path ends in `..`. */
  function FileName(p: Path): (r: Option<string>)
    ensures r.Some? <==> p != [] && p[|p| - 1] != ".."
    ensures r.Some? ==> r.value == p[|p| - 1]
  {
    if p == [] || p[|p| - 1] == ".." then None else Some(p[|p| - 1])
  }

  /** `Path::strip_prefix`: what is left of `p` below `root`, compared
      component by component; `None` when `root` is not a prefix of `p`. */
  function StripRoot(p: Path, root: Path): (r: Option<Path>)
    ensures r.Some? <==> root <= p
    ensures r.Some? ==> root + r.value == p
  {
    if root <= p then Some(p[|root|..]) else None
  }

  /** `Path::display` of a relative path: its components joined by `/`. */
  function Display(p: Path): (s: string)
    ensures p == [] ==> s == ""
    ensures |p| == 1 ==> s == p[0]
  {
    if p == [] then ""
    else if |p| == 1 then p[0]
    else Display(p[..|p| - 1]) + "/" + p[|p| - 1]
  }

  /** The path written into a manifest record: `/` and then the path below the
      package root (`format!("/{}", rel.display())`). */
  function RecordPath(rel: Path): (s: string)
    ensures |s| >= 1 && s[0] == '/'
    ensures s[1..] == Display(rel)
  {
    "/" + Display(rel)
  }
}
