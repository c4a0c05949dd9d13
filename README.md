# TikTok archiver download engine, modelled in Dafny

This project models the download engine of the TikTok archiver: the class
`TiktokDownloader` in `tiktok_downloader/utils.py`. The web front end hands
this engine the lists from a user's TikTok data export (chat messages,
favorited videos, liked videos). For every record the engine selects it,
extracts a URL and an interaction date, and downloads the video. Downloads go
through a per-URL metadata cache into a folder under a base directory. Each
video is stored under a date-named stem that never collides with an earlier
one, next to a JSON sidecar that describes it. All of this happens inside a
scope that owns a scratch directory. A progress message is produced per
record, then a summary.

The model is layered as follows:

- `values.dfy` holds the JSON-shaped values the engine handles, the
  exception kinds, and Python subscription (`v[key]`, `v[0]`).
- `digits.dfy`, `dates.dfy` and `posix_path.dfy` hold the library behaviour
  the engine depends on:
  - decimal text;
  - `datetime.strptime("%Y-%m-%d %H:%M:%S")`, written out as the pattern
    CPython compiles for it, and `strftime("%Y%m%d_%H%M%S")`;
  - `os.path.join`, `split` and `splitext` on POSIX.
- `metadata.dfy` is the allow-list trimmer `__trim_info`.
- `unique_path.dfy` is the collision-free stem allocator
  `__generate_unique_dest_file_path`.
- `disk.dfy` models the file system as a map of files plus a set of
  directories, with `makedirs`, `shutil.copy`, `open(..., "w")` and `rmtree`.
- `session.dfy` defines the engine's whole state as a value (`Session`), the
  scope guard (`__enter__`/`__exit__`) and the fetch cache
  (`__download_video`).
- `single_download.dfy` covers `download_single_video` and `__save_video`.
- `pipeline.dfy` covers `download_video_list`, with its progress messages as
  a sequence of tagged events. The loop is defined over any date parser and
  any single-video download, so most of its lemmas hold for every such pair.
  `Actual` is the pair the downloader uses: the `strptime` model and
  `download_single_video`. The scope lemmas need a scoped download, and
  `SingleVideoScoped` shows that `download_single_video` is one.
- `adapters.dfy` holds the three list adapters.
- `downloader.dfy` holds the imperative layer:
  - a `FileSystem` object;
  - the `TiktokDownloader` class, with the source's fields (`downloaded`,
    `tempdir`) updated in place by its methods.

  Each method is proved to take the object from state `State()` to the state
  and result that the corresponding function computes. The properties are
  proved as lemmas about those functions.

The video fetcher (yt_dlp) is a parameter: a function from a working
directory and a URL to either a metadata bag plus the files it wrote, or a
failure. The conversion of a naive date to a POSIX timestamp in local time is
also a parameter.

## Model

| member | source | states |
|---|---|---|
| `Values.GetItem` | tiktok_downloader/utils.py:76-77 | `v[key]` succeeds exactly on a dict holding the key and yields its value; a dict without the key raises KeyError |
| `Values.First` | tiktok_downloader/utils.py:76 | `v[0]` succeeds exactly on a non-empty list and yields its first element; a string is treated as a failure (see "Left out") |
| `Digits.NatTextRoundTrip` | tiktok_downloader/utils.py:59 | the decimal text of a counter reads back as that counter |
| `Digits.NatTextInjective` | tiktok_downloader/utils.py:59 | different counters give different suffix texts |
| `Digits.PaddedRoundTrip` | tiktok_downloader/utils.py:41 | a zero-padded field of a number that fits reads back as the number |
| `Digits.PaddedInjective` | tiktok_downloader/utils.py:41 | different numbers that fit give different zero-padded fields |
| `Dates.ParseDate` | tiktok_downloader/utils.py:135 | every date the parser accepts is one the `datetime` constructor accepts (year 1-9999, real month and day, time of day in range) |
| `Dates.ScanIsoText` | tiktok_downloader/utils.py:135 | scanning the zero-padded "YYYY-MM-DD HH:MM:SS" text of a valid date against the format captures its six fields in order |
| `Dates.ParseIsoText` | tiktok_downloader/utils.py:135 | parsing the zero-padded "YYYY-MM-DD HH:MM:SS" text of any valid date yields that date |
| `Dates.Stem` | tiktok_downloader/utils.py:41 | the file stem of a date is 15 characters with '_' between date and time |
| `Dates.StemInjective` | tiktok_downloader/utils.py:41 | two valid dates with the same stem are the same date |
| `PosixPath.Join` | tiktok_downloader/utils.py:37 | an absolute second part replaces the first; otherwise the parts are concatenated, with a '/' between them exactly when the first is non-empty and does not end in '/' |
| `PosixPath.Split` | tiktok_downloader/utils.py:37 | the tail of a split path contains no '/' |
| `PosixPath.JoinAll` | tiktok_downloader/utils.py:37 | `os.path.join(a, *parts)`; no contract of its own: `JoinSplitFolder` states its result on the folders the downloader passes |
| `PosixPath.SplitExt` | tiktok_downloader/utils.py:78 | `os.path.splitext`; no contract of its own: `SplitExtParts` states its properties |
| `PosixPath.SplitExtParts` | tiktok_downloader/utils.py:78 | root and extension concatenate to the path; the extension is empty, or one '.' followed by no '/' and no other '.' |
| `PosixPath.JoinSplitFolder` | tiktok_downloader/utils.py:37 | joining a base with the split of a simple relative folder gives `base/folder` |
| `Metadata.TrimInfo` | tiktok_downloader/utils.py:84-102 | a key is in the result exactly when it is in the input and on the allow-list, with the input's value |
| `Metadata.TrimmedKeys` | tiktok_downloader/utils.py:85-102 | the result's keys lie in the allow-list, exclude the four keys a download adds, and number at most 15 |
| `Metadata.TrimIdempotent` | tiktok_downloader/utils.py:84-102 | trimming twice equals trimming once |
| `Metadata.TrimOnlyReadsAllowed` | tiktok_downloader/utils.py:102 | two bags that agree on the allowed keys trim to the same result |
| `UniquePath.Candidate` | tiktok_downloader/utils.py:57-59 | the candidate for a counter extends the stem path `join(folder, stem)` |
| `UniquePath.FirstFree` | tiktok_downloader/utils.py:55-62 | the counter the loop settles on; no contract of its own: `FirstFreeIsLeast`, `FirstFreeUnique` and `LaterAllocationAdvances` state its properties |
| `UniquePath.SidecarInjective` | tiktok_downloader/utils.py:57-60 | different counters give different sidecar paths |
| `UniquePath.TakenBound` | tiktok_downloader/utils.py:56-62 | if the first k counters are all taken, the set of existing paths has at least k elements, so the scan ends |
| `UniquePath.FirstFreeFrom` | tiktok_downloader/utils.py:55-62 | the scan from counter k returns a counter at or after k whose sidecar is free, with every counter before it taken |
| `UniquePath.FirstFreeIsLeast` | tiktok_downloader/utils.py:55-62 | the allocated counter has a free sidecar, every smaller counter's sidecar exists, and the counter is at most the number of existing paths |
| `UniquePath.FirstFreeUnique` | tiktok_downloader/utils.py:55-62 | a counter with a free sidecar whose predecessors are all taken is the one the scan returns |
| `UniquePath.LaterAllocationAdvances` | tiktok_downloader/utils.py:54-62 | once the allocated sidecar exists, any later allocation for the same folder and stem returns a larger counter and a different path |
| `Disks.MakeDirs` | tiktok_downloader/utils.py:39 | `os.makedirs` succeeds exactly on a non-empty path that does not exist and adds it as a directory; an existing path raises FileExistsError |
| `Disks.EnsureDir` | tiktok_downloader/utils.py:38-39 | the isdir guard plus makedirs succeeds exactly when the path is non-empty and is a directory or not a file; afterwards it is a directory |
| `Disks.Copy` | tiktok_downloader/utils.py:80 | `shutil.copy` succeeds exactly when the source is a regular file and the target is neither the source nor a directory; the target then holds the source's contents; a missing source raises FileNotFoundError |
| `Disks.CopyTarget` | tiktok_downloader/utils.py:80 | where `shutil.copy` writes: `dst`, or `dst/basename(src)` when `dst` is a directory; no contract of its own: the `Disks.Copy` row states what lands there |
| `Disks.WriteFile` | tiktok_downloader/utils.py:50-51 | writing succeeds unless the path is a directory, and then the path holds the document |
| `Disks.RemoveTree` | tiktok_downloader/utils.py:28-29 | exactly the paths at or below the root disappear; all other files keep their contents |
| `Sessions.EnterSpec` | tiktok_downloader/utils.py:21-25 | entering opens a scope on a fresh directory that is created; cache and files are unchanged |
| `Sessions.ExitSpec` | tiktok_downloader/utils.py:27-31 | leaving always closes the scope; inside a scope it removes everything at or below the scratch directory if that still exists; outside a scope it raises and changes nothing |
| `Sessions.FetchSpec` | tiktok_downloader/utils.py:64-72 | a returned bag is the cache entry for that URL; the cache stays trimmed; the scope is untouched |
| `Sessions.CacheHit` | tiktok_downloader/utils.py:66-72 | a non-empty cached entry is returned without consulting the fetcher, and nothing changes |
| `Sessions.CacheMiss` | tiktok_downloader/utils.py:66-70 | on a missing or empty entry, the fetcher is consulted once. Success caches and returns the trimmed bag and adds the fetcher's files. Failure changes neither the cache nor the disk |
| `Sessions.FetchAtMostOnce` | tiktok_downloader/utils.py:66-72 | after a fetch with a non-empty trimmed result, asking again changes nothing and returns the same bag |
| `Sessions.FetchKeepsCached` | tiktok_downloader/utils.py:66-72 | a fetch keeps every non-empty cache entry, and appends to the fetch log at most the URL asked for, never one whose entry is non-empty |
| `Sessions.FailureNotCached` | tiktok_downloader/utils.py:66-70 | after a failed fetch the cache is unchanged, and asking again consults the fetcher again |
| `Sessions.EmptyTrimRefetches` | tiktok_downloader/utils.py:66-70 | a result that trims to an empty dict is cached but treated as a miss, so the next request fetches again |
| `SingleDownload.DestFolder` | tiktok_downloader/utils.py:37 | `os.path.join(base, *os.path.split(folder))`; no contract of its own: `DestFolderSimple` and the `Adapters` folder lemmas state its value |
| `SingleDownload.DestFile` | tiktok_downloader/utils.py:42 | the stem path the allocator returns extends `join(dest, stem)`, and its sidecar does not exist |
| `SingleDownload.DestFolderSimple` | tiktok_downloader/utils.py:37 | the destination folder is `base/folder` for a simple relative folder |
| `SingleDownload.AddTaskFields` | tiktok_downloader/utils.py:45-47 | the bag gains url, interaction_date (the stem) and interaction_timestamp; every other key keeps its value |
| `SingleDownload.SourceOf` | tiktok_downloader/utils.py:76-77 | the source path is found exactly when `requested_downloads[0]["filepath"]` exists and is a string; a missing key raises KeyError |
| `SingleDownload.SaveSpec` | tiktok_downloader/utils.py:74-81 | on success the destination is the stem path plus the source's extension, and the copy target holds the source's contents; a bad source path raises before anything is copied |
| `SingleDownload.SavedExtension` | tiktok_downloader/utils.py:78-79 | the destination extends the stem path by an empty or single-dot extension |
| `SingleDownload.Store` | tiktok_downloader/utils.py:48-51 | only the disk changes and no directory appears; a success saved the video and left the sidecar file |
| `SingleDownload.DownloadSpec` | tiktok_downloader/utils.py:33-51 | outside a scope it raises ValueError and changes nothing; the scope is never changed; the cache stays trimmed |
| `SingleDownload.DownloadWritesSidecar` | tiktok_downloader/utils.py:42-51 | a success writes the sidecar at the allocated stem plus ".json", a path that did not exist before. The sidecar holds url, interaction_date, interaction_timestamp and file_path (the stem plus the extension of its own `requested_downloads[0]["filepath"]`); every other key is the cached entry's |
| `SingleDownload.RepeatDownloadNewFile` | tiktok_downloader/utils.py:42 | after a success, a second download on the same date into the same folder uses another stem path |
| `SingleDownload.DownloadKeepsCached` | tiktok_downloader/utils.py:44 | a download keeps every non-empty cache entry, only appends to the fetch log, and never fetches a URL whose entry is non-empty |
| `SingleDownload.DownloadDirs` | tiktok_downloader/utils.py:37-39 | the only directory a download creates is the destination folder, and after a success that folder exists |
| `SingleDownload.FetchChanges` | tiktok_downloader/utils.py:68 | the fetch step changes only files that the fetcher wrote on a cache miss |
| `SingleDownload.SaveChanges` | tiktok_downloader/utils.py:79-80 | the save step changes only a path at or below the stem path |
| `SingleDownload.DownloadFootprint` | tiktok_downloader/utils.py:44-51 | every file a download adds or changes was written by the fetcher, or lies at or below the stem path and only when the download succeeds; a failed download leaves no sidecar of its own |
| `Pipeline.ParseExtracted` | tiktok_downloader/utils.py:134-135 | the date step succeeds exactly when the extractor returns a string that the parser accepts, and yields the parser's date; an extractor that raises passes its exception on |
| `Pipeline.SingleVideo` | tiktok_downloader/utils.py:141 | the call `self.download_single_video(url, date, folder)`; no contract of its own: `ActualDownload`, `SingleVideoScoped` and `SingleVideoKeepsCache` state its properties |
| `Pipeline.SingleVideoScoped` | tiktok_downloader/utils.py:33-51 | the download the loop calls never opens or closes the scope, keeps the cache trimmed, and outside a scope fails without changing anything |
| `Pipeline.ActualDownload` | tiktok_downloader/utils.py:140-141 | on a date the parser accepted, the download the loop calls is `download_single_video` on that date |
| `Pipeline.SingleVideoKeepsCache` | tiktok_downloader/utils.py:44 | the download the loop calls keeps every non-empty cache entry and never fetches a URL that has one |
| `Pipeline.Step` | tiktok_downloader/utils.py:115-145 | one iteration of the loop; no contract of its own: `StepTable`, `StepStops`, `StepReaches`, `StepTally` and `StepKeepsCached` state its properties |
| `Pipeline.Attempt` | tiktok_downloader/utils.py:140-145 | the download try-block and the event it yields; no contract of its own: `StepTable` and `StepReaches` state its effect |
| `Pipeline.Run` | tiktok_downloader/utils.py:113-145 | the loop after a prefix of the list; no contract of its own: `PrefixTotals`, `PrefixEvents`, `PrefixTally`, `OrdinalsInRange`, `RunKeepsScope`, `RunKeepsCached` and `OutsideScope` state its properties |
| `Pipeline.ListSpec` | tiktok_downloader/utils.py:104-148 | the whole call: the final state and every event, the summary last; no contract of its own: `ListCounters`, `ListShape`, `EmptyList` and `ListKeepsCached` state its properties |
| `Pipeline.StepTable` | tiktok_downloader/utils.py:116-145 | per record, events only grow, and by one unless the filter returns false. `total` grows exactly when the filter returns true. `success` grows exactly when the three steps pass and the download succeeds. The state changes only through a download. Each failing step emits its own event |
| `Pipeline.StepStops` | tiktok_downloader/utils.py:116-138 | each way a record can stop before the download: the event emitted and the counter change |
| `Pipeline.StepReaches` | tiktok_downloader/utils.py:140-145 | a record that passes the three steps is counted and then downloaded |
| `Pipeline.StepTally` | tiktok_downloader/utils.py:123-145 | one record keeps the counters in agreement with the events: `total` with the events about accepted records, `success` with the `Downloaded` events |
| `Pipeline.PrefixTotals` | tiktok_downloader/utils.py:113-123 | after any prefix, `success <= total`, and `total` equals the number of records the filter accepted |
| `Pipeline.PrefixEvents` | tiktok_downloader/utils.py:115-145 | after any prefix, there is one event per record except those the filter declined, and no summary among them |
| `Pipeline.PrefixTally` | tiktok_downloader/utils.py:113-145 | after any prefix, `total` is the number of events about accepted records and `success` the number of `Downloaded` events |
| `Pipeline.ListCounters` | tiktok_downloader/utils.py:113-142 | after the list, `0 <= success <= total <= len(list)`; `total` counts the records the filter accepted without raising; both counters agree with the events |
| `Pipeline.ListShape` | tiktok_downloader/utils.py:115-148 | the output has one event per non-declined record plus one summary; the summary is the last event, reports the final counters, and is the only summary |
| `Pipeline.EmptyList` | tiktok_downloader/utils.py:112-148 | an empty list yields exactly one summary, 0 out of 0, and changes nothing |
| `Pipeline.OrdinalsInRange` | tiktok_downloader/utils.py:143-145 | every download event carries its record's position among the accepted records, between 1 and `total`, and the list length |
| `Pipeline.RunKeepsScope` | tiktok_downloader/utils.py:115-145 | with a scoped download, the loop never opens or closes the scope, and the cache stays trimmed |
| `Pipeline.StepKeepsCached` | tiktok_downloader/utils.py:115-145 | with a download that keeps the cache, one record keeps a non-empty entry and does not fetch its URL |
| `Pipeline.RunKeepsCached` | tiktok_downloader/utils.py:115-145 | with a download that keeps the cache, an entry that is non-empty after some records stays as it is for the rest of the list, and its URL is never fetched again |
| `Pipeline.ListKeepsCached` | tiktok_downloader/utils.py:104-148 | with a download that keeps the cache, a URL cached non-empty before the list keeps its entry and is never fetched by the list |
| `Pipeline.LoopFetchesCachedOnce` | tiktok_downloader/utils.py:115-145 | in the downloader's loop, once a record leaves a non-empty entry for a URL, later records that repeat the URL do not fetch it |
| `Pipeline.OutsideScope` | tiktok_downloader/utils.py:140-145 | with a scoped download, outside a scope no record downloads: `success` stays 0 and the state is unchanged |
| `Adapters.ChatFilter` | tiktok_downloader/utils.py:155 | the chat filter lambda; no contract of its own: `ChatSelection` characterises it |
| `Adapters.ChatBatch` | tiktok_downloader/utils.py:151-157 | the arguments `download_chat_videos` passes; no contract of its own: `ChatSelection` and `ChatFolder` state its properties |
| `Adapters.FavoritedBatch` | tiktok_downloader/utils.py:160-166 | the arguments `download_favorited_videos` passes; no contract of its own: `EveryRecordCounted` and `FavoritedFolder` state its properties |
| `Adapters.LikedBatch` | tiktok_downloader/utils.py:169-175 | the arguments `download_liked_videos` passes; no contract of its own: `EveryRecordCounted` and `LikedFolder` state its properties |
| `Adapters.StartsWith` | tiktok_downloader/utils.py:155 | `startswith` works only on a string and is true exactly when the prefix matches |
| `Adapters.ChatSelection` | tiktok_downloader/utils.py:155-157 | a chat message is selected exactly when its Content is a string with the video prefix. The filter raises exactly when Content is missing or not a string. A selected message always yields a string URL with that prefix |
| `Adapters.EveryRecordCounted` | tiktok_downloader/utils.py:159-175 | for favorited and liked lists, `total` is the list length and the output holds one event per record plus the summary |
| `Adapters.PlainFolder` | tiktok_downloader/utils.py:37 | a list folder with no '/' is stored in `base/<folder>` |
| `Adapters.FavoritedFolder` | tiktok_downloader/utils.py:163 | favorited videos are stored in `base/favorited` |
| `Adapters.LikedFolder` | tiktok_downloader/utils.py:172 | liked videos are stored in `base/liked` |
| `Adapters.ChatFolder` | tiktok_downloader/utils.py:154 | videos from a chat are stored in `base/chats/<recipient>` |
| `Downloader.FileSystem.Exists` | tiktok_downloader/utils.py:60 | true exactly when the path is a file or a directory |
| `Downloader.FileSystem.IsDirectory` | tiktok_downloader/utils.py:38 | true exactly when the path is a directory; the empty path never is |
| `Downloader.FileSystem.CreateTempDir` | tiktok_downloader/utils.py:22 | the fresh scratch directory is added and nothing else changes |
| `Downloader.FileSystem.MakeDirectories` | tiktok_downloader/utils.py:39 | the new disk and the outcome are those of `Disks.MakeDirs` |
| `Downloader.FileSystem.CopyFile` | tiktok_downloader/utils.py:80 | the new disk and the outcome are those of `Disks.Copy` |
| `Downloader.FileSystem.Write` | tiktok_downloader/utils.py:50-51 | the new disk and the outcome are those of `Disks.WriteFile` |
| `Downloader.FileSystem.AddFiles` | tiktok_downloader/utils.py:68 | the fetcher's files replace or join the existing ones; the directories are unchanged |
| `Downloader.FileSystem.RemoveTree` | tiktok_downloader/utils.py:29 | the new disk is that of `Disks.RemoveTree` |
| `Downloader.TiktokDownloader.constructor` | tiktok_downloader/utils.py:11-19 | a new downloader has an empty cache and no open scope |
| `Downloader.TiktokDownloader.Enter` | tiktok_downloader/utils.py:21-25 | the new state is `EnterSpec` of the old one |
| `Downloader.TiktokDownloader.Exit` | tiktok_downloader/utils.py:27-31 | the new state and the outcome are `ExitSpec` of the old state |
| `Downloader.TiktokDownloader.GenerateUniqueDestFilePath` | tiktok_downloader/utils.py:53-62 | the loop returns the candidate of the least counter whose sidecar does not exist, and that sidecar is free |
| `Downloader.TiktokDownloader.DownloadVideo` | tiktok_downloader/utils.py:64-72 | the new state and the result are `FetchSpec` of the old state |
| `Downloader.TiktokDownloader.SaveVideo` | tiktok_downloader/utils.py:74-81 | on success the disk and the destination are those of `SaveSpec`; on failure the disk is unchanged and the error is the same |
| `Downloader.TiktokDownloader.DownloadSingleVideo` | tiktok_downloader/utils.py:33-51 | the new state and the outcome are `DownloadSpec` of the old state |
| `Downloader.TiktokDownloader.StoreVideo` | tiktok_downloader/utils.py:48-51 | the new state and the outcome are `Store` of the old state |
| `Downloader.TiktokDownloader.HandleRecord` | tiktok_downloader/utils.py:115-145 | the loop body moves the state, the counters and the events as `Step` does |
| `Downloader.TiktokDownloader.AttemptDownload` | tiktok_downloader/utils.py:140-145 | the download branch of the loop body moves the state, `success` and the events as `Attempt` does |
| `Downloader.TiktokDownloader.DownloadVideoList` | tiktok_downloader/utils.py:104-148 | the new state and the complete event sequence are `ListSpec` of the old state |
| `Downloader.TiktokDownloader.DownloadChatVideos` | tiktok_downloader/utils.py:150-157 | runs the list over the messages with the chat batch |
| `Downloader.TiktokDownloader.DownloadFavoritedVideos` | tiktok_downloader/utils.py:159-166 | runs the list with the favorited batch |
| `Downloader.TiktokDownloader.DownloadLikedVideos` | tiktok_downloader/utils.py:168-175 | runs the list with the liked batch |

## Left out

- `tiktok_downloader/views.py` is not part of this model. It holds the Django request handling, the session, uploads, templates and the streaming response.
- The yt_dlp calls `YoutubeDL(...)` and `extract_info` are not modelled. They are replaced by the fetcher parameter. The model assumes the fetcher:
  - gives the same answer for the same working directory and URL;
  - leaves no partial files when it fails.
- A URL that is not a string is assumed to fail before any fetch, with TypeError.
  - In the source, an unhashable value fails at the cache lookup.
  - Other values reach yt_dlp, which rejects them.
- `os.chdir` and the saved working directory are not modelled. The fetcher receives the scratch directory as the directory it runs in. Paths are compared as strings: no resolution of relative paths, `..` or symbolic links.
- Parent directories are not tracked: `os.makedirs` is modelled on the leaf directory only. `shutil.copy` does not copy permission bits in the model.
- The name `tempfile.mkdtemp` picks is a parameter, assumed fresh.
- `time.time()`, the download duration and the float percentage are not modelled. Message texts are not modelled either: events are tagged values carrying the numbers the texts are built from. So the summary text, which unlike the others lacks the "data: " prefix, is not modelled.
- The timestamp of a date in local time (`datetime.timestamp()`) is an abstract function.
- The lazy generator is modelled as the complete event sequence. What a client sees while the download runs is not modelled.
- Exceptions are modelled by kind only. A bare `except:` also catches interrupts, which are not modelled.
- SingleDownload.Store: the fetcher's metadata is assumed to be JSON-serializable, so `json.dump` never fails. In the source, `open(..., "w")` creates the sidecar before `json.dump` writes it. A value that `json` cannot encode makes the dump raise after the media file was copied, and leaves a truncated sidecar. The model does not have that failure, and `DownloadFootprint`'s conclusion that a failed download leaves no sidecar rests on this assumption.
- JSON floats are not modelled.
- `Values.First` is subscription on lists only. Python's `v[0]` also succeeds on a non-empty string, and raises IndexError on `""`. The model fails on every string, with TypeError. Its only caller, `SourceOf`, fails on a string either way: indexing the first character with `"filepath"` raises TypeError. Only on `""` does the kind of exception differ. On a dict, Python raises `KeyError(0)` with the integer key 0; the model carries the key as the text `"0"`.
- The disk does not keep files and directories apart. The files a fetcher reports are merged in as they are, so a fetcher could put a file at the path of a directory, which no real file system allows. The model places no constraint on the fetcher here.
- Dictionary order and the text layout of the JSON sidecar are not modelled: the sidecar is the document value.
- `info.copy()` is shallow in the source. The model's maps are values, so nested values that the source shares between the cache and the sidecar are never mutated in either.
- `download_single_video` is modelled for valid dates only. The loop's model adds a branch that fails on an invalid date, and that branch is never taken, because the loop passes only dates the parser accepted, which are valid.
- `Dates.ParseDate` accepts ASCII digits only; Python's `strptime` also accepts other Unicode decimal digits. Years below 1000 are rendered by `Dates.Stem` with four zero-padded digits, which depends on the platform's `strftime`.
