/** `download_single_video` and `__save_video` as functions on a Session:
    the destination folder is created, a free file stem is chosen, the video
    is fetched through the cache, copied beside the stem under its own
    extension, and a JSON sidecar describing it is written last. */
module SingleDownload {
  import opened Values
  import opened PosixPath
  import opened Metadata
  import opened Disks
  import opened Dates
  import opened UniquePath
  import opened Sessions

  /** `os.path.join(base, *os.path.split(folder))`. */
  function DestFolder(base: Path, folder: Path): Path {
    JoinAll(base, [Split(folder).0, Split(folder).1])
  }

  /** For a base without a trailing '/' and a relative folder without empty
      components, the destination folder is simply `base/folder`. */
  lemma DestFolderSimple(base: Path, folder: Path)
    requires |base| > 0 && base[|base| - 1] != '/'
    requires SimpleRelative(folder)
    ensures DestFolder(base, folder) == base + "/" + folder
  {
    JoinSplitFolder(base, folder);
  }

  /** The path, without extension, that a download into `dest` on date stem
      `stem` is stored under, given the paths that exist. */
  function DestFile(existing: set<Path>, dest: Path, stem: string): (r: Path)
    ensures Join(dest, stem) <= r && Sidecar(r) !in existing
  {
    Candidate(dest, stem, FirstFree(existing, dest, stem))
  }

  /** The three `info[...] =` assignments of `download_single_video`: the
      URL, the date stem and the timestamp are added to the fetched bag;
      nothing else changes. */
  function AddTaskFields(info: Info, url: Json, stem: string, ts: int): (r: Info)
    ensures r.Keys == info.Keys + {"url", "interaction_date", "interaction_timestamp"}
    ensures r["url"] == url && r["interaction_date"] == JStr(stem) && r["interaction_timestamp"] == JInt(ts)
    ensures forall k :: k in info && k !in TaskKeys ==> r[k] == info[k]
  {
    info["url" := url]["interaction_date" := JStr(stem)]["interaction_timestamp" := JInt(ts)]
  }

  /** `info["requested_downloads"][0]["filepath"]`, which must be a string for
      `os.path.splitext` to accept it. */
  function SourceOf(info: Info): (r: Result<Path>)
    ensures r.Ok? <==>
      && "requested_downloads" in info
      && First(info["requested_downloads"]).Ok?
      && GetItem(First(info["requested_downloads"]).value, "filepath").Ok?
      && GetItem(First(info["requested_downloads"]).value, "filepath").value.JStr?
    ensures r.Ok? ==> GetItem(First(info["requested_downloads"]).value, "filepath").value == JStr(r.value)
    ensures "requested_downloads" !in info ==> r == Fail(KeyError("requested_downloads"))
  {
    match GetItem(JObject(info), "requested_downloads")
    case Fail(e) => Fail(e)
    case Ok(downloads) =>
      match First(downloads)
      case Fail(e) => Fail(e)
      case Ok(first) =>
        match GetItem(first, "filepath")
        case Fail(e) => Fail(e)
        case Ok(JStr(src)) => Ok(src)
        case Ok(_) => Fail(TypeError)
  }

  /** `__save_video(info, file_path)`: the downloaded file is copied to
      `file_path` plus the source's extension, and that destination is
      returned. */
  function SaveSpec(d: Disk, info: Info, filePath: Path): (r: Result<(Disk, Path)>)
    ensures r.Ok? ==> SourceOf(info).Ok?
    ensures SourceOf(info).Fail? ==> r == Fail(SourceOf(info).error)
    ensures r.Ok? ==>
      var src := SourceOf(info).value;
      var dst := r.value.1;
      && dst == filePath + SplitExt(src).1
      && src in d.files && CopyTarget(d, src, dst) in r.value.0.files
      && r.value.0.files[CopyTarget(d, src, dst)] == d.files[src]
      && r.value.0 == d.(files := d.files[CopyTarget(d, src, dst) := d.files[src]])
  {
    match SourceOf(info)
    case Fail(e) => Fail(e)
    case Ok(src) =>
      var dst := filePath + SplitExt(src).1;
      match Copy(d, src, dst)
      case Fail(e) => Fail(e)
      case Ok(d') => Ok((d', dst))
  }

  /** The destination always extends the stem path by an extension that is
      empty or a '.' followed by no '/' and no other '.'. */
  lemma SavedExtension(d: Disk, info: Info, filePath: Path)
    requires SaveSpec(d, info, filePath).Ok?
    ensures var dst := SaveSpec(d, info, filePath).value.1;
      && filePath <= dst
      && var ext := dst[|filePath|..];
         ext == [] || (ext[0] == '.' && '/' !in ext && '.' !in ext[1..])
  {
    var src := SourceOf(info).value;
    SplitExtParts(src);
    var dst := SaveSpec(d, info, filePath).value.1;
    assert dst[|filePath|..] == SplitExt(src).1;
  }

  /** The end of `download_single_video`, from `__save_video` to the
      `json.dump`: the media file is copied beside the
      stem path, then the sidecar, holding the bag and the copy's path, is
      written. Only the disk changes, and no directory appears. */
  function Store(s: Session, info: Info, destFile: Path): (r: (Session, Result<()>))
    ensures r.0 == s.(disk := r.0.disk) && r.0.disk.dirs == s.disk.dirs
    ensures r.1.Ok? ==> SaveSpec(s.disk, info, destFile).Ok? && Sidecar(destFile) in r.0.disk.files
  {
    match SaveSpec(s.disk, info, destFile)
    case Fail(e) => (s, Fail(e))
    case Ok((disk3, dst)) =>
      var info2 := info["file_path" := JStr(dst)];
      match WriteFile(disk3, Sidecar(destFile), Document(JObject(info2)))
      case Fail(e) => (s.(disk := disk3), Fail(e))
      case Ok(disk4) => (s.(disk := disk4), Ok(()))
  }

  /** `download_single_video(url, date, folder)`. Outside a scope it raises
      before touching anything. Otherwise the steps run in order, and a
      raising step ends the call with the effects of the steps before it. */
  function DownloadSpec(s: Session, env: Env, url: Json, date: DateTime, folder: Path): (r: (Session, Result<()>))
    requires Valid(date)
    ensures s.tempdir.None? ==> r == (s, Fail(NotInContext))
    ensures r.0.tempdir == s.tempdir
    ensures CacheTrimmed(s) ==> CacheTrimmed(r.0)
  {
    if s.tempdir.None? then (s, Fail(NotInContext))
    else
      var dest := DestFolder(env.base, folder);
      match EnsureDir(s.disk, dest)
      case Fail(e) => (s, Fail(e))
      case Ok(disk1) =>
        var stem := Stem(date);
        var destFile := DestFile(disk1.Existing(), dest, stem);
        var fetched := FetchSpec(s.(disk := disk1), env.fetcher, s.tempdir.value, url);
        match fetched.1
        case Fail(e) => (fetched.0, Fail(e))
        case Ok(info) => Store(fetched.0, AddTaskFields(info, url, stem, env.timestampOf(date)), destFile)
  }

  /** The fetcher ran in this call (a string URL that missed the cache) and
      wrote `p`. */
  ghost predicate FetcherWrote(s: Session, env: Env, url: Json, p: Path) {
    && s.tempdir.Some? && url.JStr?
    && (url.s !in s.downloaded || s.downloaded[url.s] == map[])
    && env.fetcher(s.tempdir.value, url.s).Fetched?
    && p in env.fetcher(s.tempdir.value, url.s).written
  }

  /** The stem path a download in this state settles on. */
  function ChosenFile(s: Session, env: Env, date: DateTime, folder: Path): Path
    requires Valid(date)
  {
    var dest := DestFolder(env.base, folder);
    DestFile(s.disk.Existing() + {dest}, dest, Stem(date))
  }

  /** A successful download leaves, at the chosen stem path plus ".json", a
      sidecar that did not exist before. It is a JSON object holding the URL,
      the date stem, the timestamp, and `file_path`, which is the stem path
      plus the extension of the file named by the object's own
      `requested_downloads[0]["filepath"]`; every other key is the cached
      entry's. */
  lemma DownloadWritesSidecar(s: Session, env: Env, url: Json, date: DateTime, folder: Path)
    requires Valid(date)
    requires DownloadSpec(s, env, url, date, folder).1.Ok?
    ensures var s' := DownloadSpec(s, env, url, date, folder).0;
      var f := ChosenFile(s, env, date, folder);
      && url.JStr? && url.s in s'.downloaded
      && Sidecar(f) !in s.disk.Existing()
      && Sidecar(f) in s'.disk.files
      && var doc := s'.disk.files[Sidecar(f)];
         && doc.Document? && doc.value.JObject?
         && var m := doc.value.fields;
            && "url" in m && m["url"] == url
            && "interaction_date" in m && m["interaction_date"] == JStr(Stem(date))
            && "interaction_timestamp" in m && m["interaction_timestamp"] == JInt(env.timestampOf(date))
            && "file_path" in m && SourceOf(m).Ok?
            && m["file_path"] == JStr(f + SplitExt(SourceOf(m).value).1)
            && forall k :: k !in TaskKeys ==>
                 (k in m <==> k in s'.downloaded[url.s]) && (k in m ==> m[k] == s'.downloaded[url.s][k])
  {
    var dest := DestFolder(env.base, folder);
    var disk1 := EnsureDir(s.disk, dest).value;
    assert disk1.Existing() == s.disk.Existing() + {dest};
    var stem := Stem(date);
    var f := DestFile(disk1.Existing(), dest, stem);
    var fetched := FetchSpec(s.(disk := disk1), env.fetcher, s.tempdir.value, url);
    var info := fetched.1.value;
    var info1 := AddTaskFields(info, url, stem, env.timestampOf(date));
    var saved := SaveSpec(fetched.0.disk, info1, f);
    var dst := saved.value.1;
    var m := info1["file_path" := JStr(dst)];
    assert SourceOf(m) == SourceOf(info1) by {
      assert m["requested_downloads"] == info1["requested_downloads"];
    }
  }

  /** After a successful download, downloading again on the same date into
      the same folder settles on another stem path: the first sidecar now
      exists, so the allocator moves past it. */
  lemma RepeatDownloadNewFile(s: Session, env: Env, url: Json, date: DateTime, folder: Path)
    requires Valid(date)
    requires DownloadSpec(s, env, url, date, folder).1.Ok?
    ensures ChosenFile(DownloadSpec(s, env, url, date, folder).0, env, date, folder) != ChosenFile(s, env, date, folder)
  {
    DownloadWritesSidecar(s, env, url, date, folder);
  }

  /** The only directory a download may create is the destination folder,
      and after a success that folder exists. */
  lemma DownloadDirs(s: Session, env: Env, url: Json, date: DateTime, folder: Path)
    requires Valid(date)
    ensures var (s', r) := DownloadSpec(s, env, url, date, folder);
      && (s'.disk.dirs == s.disk.dirs || s'.disk.dirs == s.disk.dirs + {DestFolder(env.base, folder)})
      && (r.Ok? ==> IsDir(s'.disk, DestFolder(env.base, folder)))
  {
    if s.tempdir.Some? {
      var dest := DestFolder(env.base, folder);
      if EnsureDir(s.disk, dest).Ok? {
        var disk1 := EnsureDir(s.disk, dest).value;
        var fetched := FetchSpec(s.(disk := disk1), env.fetcher, s.tempdir.value, url);
        assert fetched.0.disk.dirs == s.disk.dirs + {dest};
        assert DownloadSpec(s, env, url, date, folder).0.disk.dirs == fetched.0.disk.dirs;
      }
    }
  }

  /** A download keeps every non-empty cache entry as it was, only appends
      to the fetch log, and never asks the fetcher for a URL whose entry was
      non-empty: within a session a URL is fetched again only while its
      entry is missing or empty. */
  lemma DownloadKeepsCached(s: Session, env: Env, url: Json, date: DateTime, folder: Path, u: string)
    requires Valid(date)
    requires u in s.downloaded && s.downloaded[u] != map[]
    ensures var s' := DownloadSpec(s, env, url, date, folder).0;
      && u in s'.downloaded && s'.downloaded[u] == s.downloaded[u]
      && s.fetchLog <= s'.fetchLog
      && u !in s'.fetchLog[|s.fetchLog|..]
  {
    var s' := DownloadSpec(s, env, url, date, folder).0;
    if s.tempdir.Some? && EnsureDir(s.disk, DestFolder(env.base, folder)).Ok? {
      var s1 := s.(disk := EnsureDir(s.disk, DestFolder(env.base, folder)).value);
      FetchKeepsCached(s1, env.fetcher, s.tempdir.value, url, u);
      var fetched := FetchSpec(s1, env.fetcher, s.tempdir.value, url);
      assert s'.downloaded == fetched.0.downloaded && s'.fetchLog == fetched.0.fetchLog;
      assert s'.fetchLog[|s.fetchLog|..] == fetched.0.fetchLog[|s.fetchLog|..];
      if fetched.0.fetchLog != s.fetchLog {
        assert fetched.0.fetchLog[|s.fetchLog|..] == [url.s];
      }
    } else {
      assert s' == s;
    }
    assert s'.fetchLog[|s.fetchLog|..] == [] || s'.fetchLog[|s.fetchLog|..] == [url.s];
  }

  /** `p` names a file that `d'` adds to `d` or holds with other contents. */
  ghost predicate Changed(d: Disk, d': Disk, p: Path) {
    p in d'.files && !(p in d.files && d'.files[p] == d.files[p])
  }

  /** The fetch step changes only files the fetcher wrote, and no directory. */
  lemma FetchChanges(s: Session, fetcher: Fetcher, cwd: Path, url: Json, p: Path)
    requires Changed(s.disk, FetchSpec(s, fetcher, cwd, url).0.disk, p)
    ensures url.JStr? && (url.s !in s.downloaded || s.downloaded[url.s] == map[])
    ensures fetcher(cwd, url.s).Fetched? && p in fetcher(cwd, url.s).written
  {
  }

  /** The save step changes one file, and it lies at or below the stem path. */
  lemma SaveChanges(d: Disk, info: Info, f: Path, p: Path)
    requires SaveSpec(d, info, f).Ok?
    requires Changed(d, SaveSpec(d, info, f).value.0, p)
    ensures f <= p
  {
    var src := SourceOf(info).value;
    var dst := SaveSpec(d, info, f).value.1;
    assert p == CopyTarget(d, src, dst);
    assert f <= dst;
    if dst in d.dirs {
      assert dst <= Join(dst, Split(src).1);
    }
  }

  /** What a download may leave changed on disk. Any file it adds or
      changes was written by the fetcher, or, only when the download
      succeeds, lies at the chosen stem path or below it (the media copy and
      the sidecar). In this model a failed download therefore leaves no
      sidecar of its own: the media file is copied before the sidecar is
      written, no sidecar is written when the copy fails, and writing the
      sidecar cannot fail once the copy has succeeded, because every
      metadata value is taken to be serializable. */
  lemma DownloadFootprint(s: Session, env: Env, url: Json, date: DateTime, folder: Path, p: Path)
    requires Valid(date)
    requires Changed(s.disk, DownloadSpec(s, env, url, date, folder).0.disk, p)
    ensures || FetcherWrote(s, env, url, p)
            || (DownloadSpec(s, env, url, date, folder).1.Ok? && ChosenFile(s, env, date, folder) <= p)
  {
    var dest := DestFolder(env.base, folder);
    var disk1 := EnsureDir(s.disk, dest).value;
    assert disk1.Existing() == s.disk.Existing() + {dest};
    var s1 := s.(disk := disk1);
    var f := DestFile(disk1.Existing(), dest, Stem(date));
    var fetched := FetchSpec(s1, env.fetcher, s.tempdir.value, url);
    if Changed(s1.disk, fetched.0.disk, p) {
      FetchChanges(s1, env.fetcher, s.tempdir.value, url, p);
    } else {
      var info1 := AddTaskFields(fetched.1.value, url, Stem(date), env.timestampOf(date));
      var saved := SaveSpec(fetched.0.disk, info1, f);
      if Changed(fetched.0.disk, saved.value.0, p) {
        SaveChanges(fetched.0.disk, info1, f, p);
      } else {
        assert p == Sidecar(f);
      }
    }
  }
}
