/** The downloader as the object the web views drive: a `TiktokDownloader`
    whose fields the context manager, the cache and the download loop update
    in place, working on a `FileSystem` object. Every method is proved to
    move the object from one state to the next exactly as the functions of
    modules Sessions, SingleDownload and Pipeline say. */
module Downloader {
  import opened Values
  import opened Digits
  import opened PosixPath
  import opened Metadata
  import opened Disks
  import opened Dates
  import opened UniquePath
  import opened Sessions
  import opened SingleDownload
  import opened Pipeline
  import opened Adapters

  /** The new disk and the outcome of a step that either changes the disk or
      raises and leaves it as it was. */
  function Outcome(d: Disk, r: Result<Disk>): (Disk, Result<()>) {
    match r
    case Ok(d') => (d', Ok(()))
    case Fail(e) => (d, Fail(e))
  }

  /** The file system, as the downloader reaches it through `os`, `shutil`
      and `open`. */
  class FileSystem {
    var files: map<Path, Content>
    var dirs: set<Path>

    ghost function Snapshot(): Disk
      reads this
    {
      Disk(files, dirs)
    }

    constructor (d: Disk)
      ensures Snapshot() == d
    {
      files := d.files;
      dirs := d.dirs;
    }

    /** `os.path.exists(p)`. */
    method Exists(p: Path) returns (b: bool)
      ensures b <==> p in files || p in dirs
    {
      b := p in files || p in dirs;
    }

    /** `os.path.isdir(p)`. */
    method IsDirectory(p: Path) returns (b: bool)
      ensures b <==> IsDir(Snapshot(), p)
    {
      b := p != [] && p in dirs;
    }

    /** `tempfile.mkdtemp()`, given the fresh name it picks. */
    method CreateTempDir(dir: Path)
      requires dir !in files && dir !in dirs
      modifies this
      ensures files == old(files) && dirs == old(dirs) + {dir}
    {
      dirs := dirs + {dir};
    }

    /** `os.makedirs(p)`. */
    method MakeDirectories(p: Path) returns (r: Result<()>)
      modifies this
      ensures (Snapshot(), r) == Outcome(old(Snapshot()), MakeDirs(old(Snapshot()), p))
    {
      if p == [] {
        return Fail(FileNotFound(p));
      }
      if p in files || p in dirs {
        return Fail(FileExists(p));
      }
      dirs := dirs + {p};
      r := Ok(());
    }

    /** `shutil.copy(src, dst)`. */
    method CopyFile(src: Path, dst: Path) returns (r: Result<()>)
      modifies this
      ensures (Snapshot(), r) == Outcome(old(Snapshot()), Copy(old(Snapshot()), src, dst))
    {
      ghost var d := Snapshot();
      var target := dst;
      if dst in dirs {
        target := Join(dst, Split(src).1);
      }
      assert target == CopyTarget(d, src, dst);
      if target == src && (src in files || src in dirs) {
        assert Copy(d, src, dst) == Fail(SameFile(src));
        return Fail(SameFile(src));
      }
      if src in dirs {
        assert Copy(d, src, dst) == Fail(IsADirectory(src));
        return Fail(IsADirectory(src));
      }
      if src !in files {
        assert Copy(d, src, dst) == Fail(FileNotFound(src));
        return Fail(FileNotFound(src));
      }
      if target in dirs {
        assert Copy(d, src, dst) == Fail(IsADirectory(target));
        return Fail(IsADirectory(target));
      }
      files := files[target := files[src]];
      r := Ok(());
    }

    /** `open(p, "w")` and a complete write of `c`. */
    method Write(p: Path, c: Content) returns (r: Result<()>)
      modifies this
      ensures (Snapshot(), r) == Outcome(old(Snapshot()), WriteFile(old(Snapshot()), p, c))
    {
      if p in dirs {
        return Fail(IsADirectory(p));
      }
      files := files[p := c];
      r := Ok(());
    }

    /** The files the fetcher wrote appear, replacing any at the same path. */
    method AddFiles(written: map<Path, Content>)
      modifies this
      ensures files == old(files) + written && dirs == old(dirs)
    {
      files := files + written;
    }

    /** `shutil.rmtree(root)`. */
    method RemoveTree(root: Path)
      modifies this
      ensures Snapshot() == Disks.RemoveTree(old(Snapshot()), root)
    {
      files := map p | p in files && !Under(p, root) :: files[p];
      dirs := set p | p in dirs && !Under(p, root);
    }
  }

  class TiktokDownloader {
    const baseDirectory: Path
    const fetcher: Fetcher
    const timestampOf: DateTime -> int
    const fs: FileSystem
    var downloaded: map<string, Info>
    var tempdir: Option<Path>
    ghost var fetchLog: seq<string>

    /** The object's state as a value. */
    ghost function State(): Session
      reads this, fs
    {
      Session(downloaded, tempdir, fs.Snapshot(), fetchLog)
    }

    function Environment(): Env {
      Env(baseDirectory, fetcher, timestampOf)
    }

    /** A new downloader has an empty cache and no open scope. */
    constructor (baseDirectory: Path, fetcher: Fetcher, timestampOf: DateTime -> int, fs: FileSystem)
      ensures this.fs == fs
      ensures Environment() == Env(baseDirectory, fetcher, timestampOf)
      ensures downloaded == map[] && tempdir == None && fetchLog == []
    {
      this.baseDirectory := baseDirectory;
      this.fetcher := fetcher;
      this.timestampOf := timestampOf;
      this.fs := fs;
      downloaded := map[];
      tempdir := None;
      fetchLog := [];
    }

    /** `__enter__`, with the fresh directory `mkdtemp` picks. */
    method Enter(dir: Path)
      requires dir !in fs.files && dir !in fs.dirs
      modifies this, fs
      ensures State() == EnterSpec(old(State()), dir)
    {
      fs.CreateTempDir(dir);
      tempdir := Some(dir);
    }

    /** `__exit__`. */
    method Exit() returns (r: Result<()>)
      modifies this, fs
      ensures (State(), r) == ExitSpec(old(State()))
    {
      if tempdir.None? {
        return Fail(TypeError);
      }
      var present := fs.Exists(tempdir.value);
      if present {
        fs.RemoveTree(tempdir.value);
      }
      tempdir := None;
      r := Ok(());
    }

    /** `__generate_unique_dest_file_path`: tries the counters in order and
      returns the first candidate whose sidecar does not exist. */
    static method GenerateUniqueDestFilePath(fs: FileSystem, folderPath: Path, filename: string) returns (candidate: Path)
      ensures Sidecar(candidate) !in fs.Snapshot().Existing()
      ensures candidate == DestFile(fs.Snapshot().Existing(), folderPath, filename)
    {
      ghost var existing := fs.Snapshot().Existing();
      var counter: nat := 0;
      while true
        invariant TakenBelow(existing, folderPath, filename, counter)
        decreases |existing| - counter
      {
        candidate := Join(folderPath, filename);
        if counter > 0 {
          candidate := candidate + "_" + NatText(counter);
        }
        assert candidate == Candidate(folderPath, filename, counter);
        var taken := fs.Exists(candidate + ".json");
        if !taken {
          FirstFreeUnique(existing, folderPath, filename, counter);
          return;
        }
        TakenBound(existing, folderPath, filename, counter + 1);
        counter := counter + 1;
      }
    }

    /** `__download_video`: the cache in front of the fetcher. */
    method DownloadVideo(url: Json) returns (r: Result<Info>)
      requires tempdir.Some?
      modifies this, fs
      ensures (State(), r) == FetchSpec(old(State()), fetcher, old(tempdir).value, url)
    {
      if !url.JStr? {
        return Fail(TypeError);
      }
      var u := url.s;
      var cached := if u in downloaded then Some(downloaded[u]) else None;
      if cached.Some? && cached.value != map[] {
        return Ok(cached.value);
      }
      fetchLog := fetchLog + [u];
      match fetcher(tempdir.value, u) {
        case FetchFailed =>
          return Fail(FetchError(u));
        case Fetched(raw, written) =>
          fs.AddFiles(written);
          var info := TrimInfo(raw);
          downloaded := downloaded[u := info];
          r := Ok(info);
      }
    }

    /** `__save_video`: copies the downloaded file beside the stem path and
      returns where it went. */
    method SaveVideo(info: Info, filePath: Path) returns (r: Result<Path>)
      modifies fs
      ensures var saved := SaveSpec(old(fs.Snapshot()), info, filePath);
        && (r.Ok? <==> saved.Ok?)
        && (saved.Ok? ==> fs.Snapshot() == saved.value.0 && r.value == saved.value.1)
        && (saved.Fail? ==> fs.Snapshot() == old(fs.Snapshot()) && r.error == saved.error)
    {
      var src := SourceOf(info);
      if src.Fail? {
        return Fail(src.error);
      }
      var ext := SplitExt(src.value).1;
      var dst := filePath + ext;
      var copied := fs.CopyFile(src.value, dst);
      if copied.Fail? {
        return Fail(copied.error);
      }
      r := Ok(dst);
    }

    /** `download_single_video`. */
    method DownloadSingleVideo(url: Json, date: DateTime, folder: Path) returns (r: Result<()>)
      requires Valid(date)
      modifies this, fs
      ensures (State(), r) == DownloadSpec(old(State()), Environment(), url, date, folder)
    {
      if tempdir.None? {
        return Fail(NotInContext);
      }
      var dest := DestFolder(baseDirectory, folder);
      var isDir := fs.IsDirectory(dest);
      if !isDir {
        var made := fs.MakeDirectories(dest);
        if made.Fail? {
          return made;
        }
      }
      ghost var afterDirs := State();
      assert EnsureDir(old(State()).disk, dest) == Ok(afterDirs.disk);

      var dateString := Stem(date);
      var destFilePath := GenerateUniqueDestFilePath(fs, dest, dateString);

      var fetched := DownloadVideo(url);
      if fetched.Fail? {
        return Fail(fetched.error);
      }
      ghost var afterFetch := State();
      var info := fetched.value;
      info := info["url" := url];
      info := info["interaction_date" := JStr(dateString)];
      info := info["interaction_timestamp" := JInt(timestampOf(date))];
      assert info == AddTaskFields(fetched.value, url, dateString, timestampOf(date));

      r := StoreVideo(info, destFilePath);
    }

    /** The end of `download_single_video`: the copy, then the sidecar. */
    method StoreVideo(info: Info, destFilePath: Path) returns (r: Result<()>)
      modifies fs
      ensures (State(), r) == Store(old(State()), info, destFilePath)
    {
      var saved := SaveVideo(info, destFilePath);
      if saved.Fail? {
        return Fail(saved.error);
      }
      var sidecar := info["file_path" := JStr(saved.value)];
      r := fs.Write(Sidecar(destFilePath), Document(JObject(sidecar)));
    }

    /** The body of the loop in `download_video_list`, for one record of a
      list of length `n`: the three steps, each of whose failures skips the
      record, then the download. */
    method HandleRecord(b: Batch, n: nat, data: Json, total: nat, success: nat, events: seq<Event>)
      returns (total': nat, success': nat, events': seq<Event>)
      modifies this, fs
      ensures Progress(State(), total', success', events')
              == Step(Actual(Environment()), b, n, Progress(old(State()), total, success, events), data)
    {
      ghost var p := Progress(State(), total, success, events);
      StepStops(Actual(Environment()), b, n, p, data);
      total', success', events' := total, success, events;
      var keep := b.filterFn(data);
      if keep.Fail? {
        events' := events + [FilterFailed(data)];
        return;
      }
      if !keep.value {
        return;
      }
      total' := total + 1;
      var url := b.urlExtractor(data);
      if url.Fail? {
        events' := events + [UrlExtractorFailed(data)];
        return;
      }
      var date := ParseExtracted(ParseDate, b.dateStringExtractor(data));
      if date.Fail? {
        events' := events + [DateExtractorFailed(data)];
        return;
      }
      StepReaches(Actual(Environment()), b, n, p, data);
      ghost var counted := Progress(p.session, total', success, events);
      assert counted == p.(total := p.total + 1);
      total', success', events' := AttemptDownload(b, n, url.value, date.value, total', success, events);
      assert Progress(State(), total', success', events') == Attempt(Actual(Environment()), b, n, counted, url.value, date.value);
    }

    /** The download step of the loop body and the event that reports it. */
    method AttemptDownload(b: Batch, n: nat, url: Json, date: DateTime, total: nat, success: nat, events: seq<Event>)
      returns (total': nat, success': nat, events': seq<Event>)
      requires Valid(date)
      modifies this, fs
      ensures Progress(State(), total', success', events')
              == Attempt(Actual(Environment()), b, n, Progress(old(State()), total, success, events), url, date)
    {
      ghost var before := State();
      ActualDownload(Environment(), before, url, date, b.folder);
      var d := DownloadSingleVideo(url, date, b.folder);
      AttemptOutcome(Actual(Environment()), b, n, Progress(before, total, success, events), url, date, (State(), d));
      total' := total;
      if d.Ok? {
        success' := success + 1;
        events' := events + [Downloaded(url, date, total, n, b.description)];
      } else {
        success' := success;
        events' := events + [DownloadFailed(url, date, total, n, b.description)];
      }
    }

    /** `download_video_list`: the loop over the records, with the counters
      and the events it yields, and the summary at the end. */
    method DownloadVideoList(videoList: seq<Json>, b: Batch) returns (events: seq<Event>)
      modifies this, fs
      ensures (State(), events) == ListSpec(Actual(Environment()), old(State()), b, videoList)
    {
      var total: nat := 0;
      var success: nat := 0;
      events := [];
      for i := 0 to |videoList|
        invariant Progress(State(), total, success, events) == Run(Actual(Environment()), old(State()), b, videoList, i)
      {
        RunUnfold(Actual(Environment()), old(State()), b, videoList, i + 1);
        total, success, events := HandleRecord(b, |videoList|, videoList[i], total, success, events);
      }
      events := events + [Summary(success, total, b.description)];
    }

    /** `download_chat_videos`. */
    method DownloadChatVideos(recipient: string, messages: seq<Json>) returns (events: seq<Event>)
      modifies this, fs
      ensures (State(), events) == ListSpec(Actual(Environment()), old(State()), ChatBatch(recipient), messages)
    {
      events := DownloadVideoList(messages, ChatBatch(recipient));
    }

    /** `download_favorited_videos`. */
    method DownloadFavoritedVideos(videoList: seq<Json>) returns (events: seq<Event>)
      modifies this, fs
      ensures (State(), events) == ListSpec(Actual(Environment()), old(State()), FavoritedBatch(), videoList)
    {
      events := DownloadVideoList(videoList, FavoritedBatch());
    }

    /** `download_liked_videos`. */
    method DownloadLikedVideos(videoList: seq<Json>) returns (events: seq<Event>)
      modifies this, fs
      ensures (State(), events) == ListSpec(Actual(Environment()), old(State()), LikedBatch(), videoList)
    {
      events := DownloadVideoList(videoList, LikedBatch());
    }
  }
}
