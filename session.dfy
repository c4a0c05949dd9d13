/** The downloader's state as a value, and the two operations that touch only
    part of it: the scope guard (`__enter__`/`__exit__`) and the fetch cache
    (`__download_video`). The class in module Downloader is proved against
    these functions. */
module Sessions {
  import opened Values
  import opened PosixPath
  import opened Metadata
  import opened Disks
  import opened Dates

  /** What the video fetcher reports for one URL: the metadata bag and the
      files it wrote, or a failure. */
  datatype FetchResult = Fetched(info: Info, written: map<Path, Content>) | FetchFailed

  /** The fetcher, given the working directory it runs in and a URL. */
  type Fetcher = (Path, string) -> FetchResult

  /** What the downloader is built with: the base directory, the fetcher, and
      the conversion of a naive date to a POSIX timestamp in local time. */
  datatype Env = Env(base: Path, fetcher: Fetcher, timestampOf: DateTime -> int)

  /** The downloader's state: the cache from URL to trimmed metadata, the
      scratch directory of the open scope (None outside a scope), the file
      system, and the URLs the fetcher was asked for, in order. */
  datatype Session = Session(
    downloaded: map<string, Info>,
    tempdir: Option<Path>,
    disk: Disk,
    fetchLog: seq<string>)

  /** Every cached entry holds allow-listed keys only. */
  ghost predicate CacheTrimmed(s: Session) {
    forall u, k :: u in s.downloaded && k in s.downloaded[u] ==> k in AllowedKeys
  }

  /** `__enter__`: a fresh scratch directory is created and becomes the open
      scope. The directory name is the one `mkdtemp` picked, which names
      nothing that exists. */
  function EnterSpec(s: Session, dir: Path): (r: Session)
    requires dir !in s.disk.Existing()
    ensures r.tempdir == Some(dir)
    ensures r.disk.files == s.disk.files && r.disk.dirs == s.disk.dirs + {dir}
    ensures r.downloaded == s.downloaded && r.fetchLog == s.fetchLog
  {
    s.(tempdir := Some(dir), disk := s.disk.(dirs := s.disk.dirs + {dir}))
  }

  /** `__exit__`: the scratch directory and everything in it are removed if it
      still exists, and the scope is closed. Outside a scope the existence
      test itself raises and nothing changes. */
  function ExitSpec(s: Session): (r: (Session, Result<()>))
    ensures r.0.tempdir == None
    ensures r.1.Ok? <==> s.tempdir.Some?
    ensures s.tempdir.None? ==> r.0 == s
    ensures s.tempdir.Some? && s.tempdir.value in s.disk.Existing() ==>
              forall p :: p in r.0.disk.Existing() <==> p in s.disk.Existing() && !Under(p, s.tempdir.value)
    ensures s.tempdir.Some? && s.tempdir.value !in s.disk.Existing() ==> r.0.disk == s.disk
    ensures r.0.downloaded == s.downloaded && r.0.fetchLog == s.fetchLog
  {
    match s.tempdir
    case None => (s, Fail(TypeError))
    case Some(dir) =>
      var disk := if dir in s.disk.Existing() then RemoveTree(s.disk, dir) else s.disk;
      (s.(tempdir := None, disk := disk), Ok(()))
  }

  /** `__download_video(url)`: a cached non-empty entry is returned without
      consulting the fetcher; otherwise the fetcher runs, and on success its
      trimmed result is cached and returned and the files it wrote appear on
      disk. A failure caches nothing. A URL that is not a string never
      reaches the fetcher. */
  function FetchSpec(s: Session, fetcher: Fetcher, cwd: Path, url: Json): (r: (Session, Result<Info>))
    ensures r.0.tempdir == s.tempdir && r.0.disk.dirs == s.disk.dirs
    ensures CacheTrimmed(s) && r.1.Ok? ==> forall k :: k in r.1.value ==> k in AllowedKeys
    ensures r.1.Ok? ==> url.JStr? && url.s in r.0.downloaded && r.1.value == r.0.downloaded[url.s]
    ensures CacheTrimmed(s) ==> CacheTrimmed(r.0)
  {
    match url
    case JStr(u) =>
      if u in s.downloaded && s.downloaded[u] != map[] then (s, Ok(s.downloaded[u]))
      else
        var log := s.fetchLog + [u];
        (match fetcher(cwd, u)
         case Fetched(info, written) =>
           var t := TrimInfo(info);
           (s.(downloaded := s.downloaded[u := t],
               disk := s.disk.(files := s.disk.files + written),
               fetchLog := log),
            Ok(t))
         case FetchFailed => (s.(fetchLog := log), Fail(FetchError(u))))
    case _ => (s, Fail(TypeError))
  }

  /** A URL whose cached entry is non-empty is answered from the cache: the
      fetcher is not asked and nothing changes. */
  lemma CacheHit(s: Session, fetcher: Fetcher, cwd: Path, u: string)
    requires u in s.downloaded && s.downloaded[u] != map[]
    ensures FetchSpec(s, fetcher, cwd, JStr(u)) == (s, Ok(s.downloaded[u]))
  {
  }

  /** On a miss (no entry, or an empty one, since `if not info` treats an
      empty dict as absent) the fetcher is asked exactly once; a success
      caches and returns the trimmed bag, a failure changes nothing but the
      fetch log. */
  lemma CacheMiss(s: Session, fetcher: Fetcher, cwd: Path, u: string)
    requires u !in s.downloaded || s.downloaded[u] == map[]
    ensures var (s', r) := FetchSpec(s, fetcher, cwd, JStr(u));
      && s'.fetchLog == s.fetchLog + [u]
      && s'.tempdir == s.tempdir
      && match fetcher(cwd, u)
         case Fetched(info, written) =>
           && r == Ok(TrimInfo(info))
           && s'.downloaded == s.downloaded[u := TrimInfo(info)]
           && s'.disk.files == s.disk.files + written && s'.disk.dirs == s.disk.dirs
         case FetchFailed =>
           && r == Fail(FetchError(u))
           && s'.downloaded == s.downloaded && s'.disk == s.disk
  {
  }

  /** A URL is fetched at most once: after a fetch whose trimmed result is
      non-empty, asking again returns the same bag, leaves the state as it
      is and does not consult the fetcher, whatever the working directory. */
  lemma FetchAtMostOnce(s: Session, fetcher: Fetcher, cwd: Path, cwd': Path, u: string)
    requires FetchSpec(s, fetcher, cwd, JStr(u)).1.Ok?
    requires FetchSpec(s, fetcher, cwd, JStr(u)).1.value != map[]
    ensures var (s1, r1) := FetchSpec(s, fetcher, cwd, JStr(u));
      FetchSpec(s1, fetcher, cwd', JStr(u)) == (s1, r1)
  {
  }

  /** A fetch keeps every non-empty cache entry and appends to the fetch log
      at most the URL it was asked for, never one with a non-empty entry. */
  lemma FetchKeepsCached(s: Session, fetcher: Fetcher, cwd: Path, url: Json, u: string)
    requires u in s.downloaded && s.downloaded[u] != map[]
    ensures var s' := FetchSpec(s, fetcher, cwd, url).0;
      && u in s'.downloaded && s'.downloaded[u] == s.downloaded[u]
      && (s'.fetchLog == s.fetchLog || (url.JStr? && url.s != u && s'.fetchLog == s.fetchLog + [url.s]))
  {
  }

  /** A failed fetch is not remembered: asking again consults the fetcher
      again. */
  lemma FailureNotCached(s: Session, fetcher: Fetcher, cwd: Path, u: string)
    requires FetchSpec(s, fetcher, cwd, JStr(u)).1.Fail?
    ensures var s1 := FetchSpec(s, fetcher, cwd, JStr(u)).0;
      && s1.downloaded == s.downloaded
      && FetchSpec(s1, fetcher, cwd, JStr(u)).0.fetchLog == s1.fetchLog + [u]
  {
  }

  /** As written, a fetch whose metadata keeps no allow-listed key is cached
      as an empty dict, which the next lookup treats as a miss: that URL is
      fetched again every time it is requested. */
  lemma EmptyTrimRefetches(s: Session, fetcher: Fetcher, cwd: Path, u: string, info: Info, written: map<Path, Content>)
    requires u !in s.downloaded
    requires fetcher(cwd, u) == Fetched(info, written)
    requires forall k :: k in info ==> k !in AllowedKeys
    ensures var s1 := FetchSpec(s, fetcher, cwd, JStr(u)).0;
      && s1.downloaded[u] == map[]
      && FetchSpec(s1, fetcher, cwd, JStr(u)).0.fetchLog == s.fetchLog + [u, u]
  {
    assert TrimInfo(info) == map[];
  }
}
