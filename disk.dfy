/** The slice of the file system the downloader sees: regular files with
    their contents and directories, both by path. Parent directories of a
    path are not tracked. */
module Disks {
  import opened Values
  import opened PosixPath

  /** What a regular file holds: downloaded media bytes or a JSON document. */
  datatype Content = Blob(bytes: seq<bv8>) | Document(value: Json)

  datatype Disk = Disk(files: map<Path, Content>, dirs: set<Path>) {
    /** The paths `os.path.exists` reports. */
    function Existing(): set<Path> {
      files.Keys + dirs
    }
  }

  /** `p` is `root` or lies below it. */
  predicate Under(p: Path, root: Path) {
    p == root || root + "/" <= p
  }

  /** `os.makedirs(p)`: the empty path and an existing path raise; otherwise
      the directory is created. */
  function MakeDirs(d: Disk, p: Path): (r: Result<Disk>)
    ensures r.Ok? <==> p != [] && p !in d.Existing()
    ensures r.Ok? ==> r.value.files == d.files && r.value.dirs == d.dirs + {p}
    ensures p != [] && p in d.Existing() ==> r == Fail(FileExists(p))
  {
    if p == [] then Fail(FileNotFound(p))
    else if p in d.Existing() then Fail(FileExists(p))
    else Ok(d.(dirs := d.dirs + {p}))
  }

  /** `os.path.isdir(p)`; the empty path is never a directory. */
  predicate IsDir(d: Disk, p: Path) {
    p != [] && p in d.dirs
  }

  /** `if not os.path.isdir(p): os.makedirs(p)`: afterwards `p` is a
      directory, unless the call raised because `p` is empty or a file. */
  function EnsureDir(d: Disk, p: Path): (r: Result<Disk>)
    ensures r.Ok? <==> p != [] && (p in d.dirs || p !in d.files)
    ensures r.Ok? ==> r.value.files == d.files && r.value.dirs == d.dirs + {p}
  {
    if IsDir(d, p) then Ok(d) else MakeDirs(d, p)
  }

  /** Where `shutil.copy(src, dst)` writes: into `dst` itself, or under the
      source's base name when `dst` is a directory. */
  function CopyTarget(d: Disk, src: Path, dst: Path): Path {
    if dst in d.dirs then Join(dst, Split(src).1) else dst
  }

  /** `shutil.copy(src, dst)`: refuses to copy a file onto itself, a
      directory or a missing source, and a directory as the target;
      otherwise the target holds the source's contents. */
  function Copy(d: Disk, src: Path, dst: Path): (r: Result<Disk>)
    ensures r.Ok? <==> src in d.files && src !in d.dirs
                       && CopyTarget(d, src, dst) != src && CopyTarget(d, src, dst) !in d.dirs
    ensures src !in d.Existing() ==> r == Fail(FileNotFound(src))
    ensures r.Ok? ==> r.value == d.(files := d.files[CopyTarget(d, src, dst) := d.files[src]])
  {
    var target := CopyTarget(d, src, dst);
    if target == src && src in d.Existing() then Fail(SameFile(src))
    else if src in d.dirs then Fail(IsADirectory(src))
    else if src !in d.files then Fail(FileNotFound(src))
    else if target in d.dirs then Fail(IsADirectory(target))
    else Ok(d.(files := d.files[target := d.files[src]]))
  }

  /** `open(p, "w")` followed by a complete write of `c`. */
  function WriteFile(d: Disk, p: Path, c: Content): (r: Result<Disk>)
    ensures r.Ok? <==> p !in d.dirs
    ensures r.Ok? ==> r.value.files == d.files[p := c] && r.value.dirs == d.dirs
  {
    if p in d.dirs then Fail(IsADirectory(p)) else Ok(d.(files := d.files[p := c]))
  }

  /** `shutil.rmtree(root)`: every file and directory at or below `root`
      disappears; nothing else changes. */
  function RemoveTree(d: Disk, root: Path): (r: Disk)
    ensures forall p :: p in r.Existing() <==> p in d.Existing() && !Under(p, root)
    ensures forall p :: p in r.files ==> p in d.files && r.files[p] == d.files[p]
  {
    Disk(map p | p in d.files && !Under(p, root) :: d.files[p],
         set p | p in d.dirs && !Under(p, root))
  }
}
